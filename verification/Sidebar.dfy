/** The decision logic of the side panel (components/Sidebar.tsx): which
    status actions the selected skill offers, the level-progress remainder,
    and the icon chosen for a resource. */
module Sidebar {
  import opened SkillTypes
  import Constants

  /** The selected skill as the panel receives it. */
  datatype SelectedSkill = SelectedSkill(id: string, data: SkillNodeData)

  /** A call of the status-change callback: set node `id` to `status`. */
  datatype StatusRequest = StatusRequest(id: string, status: SkillStatus)

  datatype ActionKind = Focus | Complete

  /** A button: the request a click issues, and whether it is disabled. */
  datatype ActionButton = ActionButton(request: StatusRequest, disabled: bool)

  /** What the action row shows: nothing when no skill is selected, a notice
      for a Locked skill, otherwise the two buttons. */
  datatype ActionRow = NothingSelected | UnlockNotice | Buttons(focus: ActionButton, complete: ActionButton)

  /** The status a button of the given kind requests. */
  function Requested(kind: ActionKind): SkillStatus {
    match kind
    case Focus => InProgress
    case Complete => Completed
  }

  /** The action row for the current selection. */
  function Actions(selected: Option<SelectedSkill>): (row: ActionRow)
    ensures row.NothingSelected? <==> selected.None?
    ensures row.UnlockNotice? <==> selected.Some? && selected.value.data.status == Locked
    ensures row.Buttons? ==>
              && row.focus.request == StatusRequest(selected.value.id, InProgress)
              && (row.focus.disabled <==> selected.value.data.status == InProgress)
              && row.complete.request == StatusRequest(selected.value.id, Completed)
              && (row.complete.disabled <==> selected.value.data.status == Completed)
  {
    match selected
    case None => NothingSelected
    case Some(skill) =>
      if skill.data.status == Locked then UnlockNotice
      else Buttons(ActionButton(StatusRequest(skill.id, InProgress), skill.data.status == InProgress),
                   ActionButton(StatusRequest(skill.id, Completed), skill.data.status == Completed))
  }

  /** The request that clicking the button of the given kind issues, if the
      button is shown and enabled. */
  function Press(selected: Option<SelectedSkill>, kind: ActionKind): (req: Option<StatusRequest>)
    ensures req.Some? <==>
              selected.Some? && selected.value.data.status != Locked && selected.value.data.status != Requested(kind)
    ensures req.Some? ==> req.value == StatusRequest(selected.value.id, Requested(kind))
  {
    match Actions(selected)
    case NothingSelected => None
    case UnlockNotice => None
    case Buttons(focus, complete) =>
      var button := if kind == Focus then focus else complete;
      if button.disabled then None else Some(button.request)
  }

  /** No click on the panel ever issues a request for a Locked skill. */
  lemma LockedSkillGetsNoRequest(selected: Option<SelectedSkill>, kind: ActionKind)
    requires selected.Some? && selected.value.data.status == Locked
    ensures Press(selected, kind) == None
  {
  }

  /** JavaScript's `%`, which truncates toward zero, on a total and 1000. */
  function CurrentLevelXp(totalXp: int): (r: int)
    ensures totalXp >= 0 ==> 0 <= r < Constants.XpPerLevel
    ensures totalXp < 0 ==> -Constants.XpPerLevel < r <= 0
    ensures (totalXp - r) % Constants.XpPerLevel == 0
  {
    if totalXp >= 0 then totalXp % Constants.XpPerLevel
    else -((-totalXp) % Constants.XpPerLevel)
  }

  datatype ResourceIcon = VideoIcon | StarIcon | BookOpenIcon | FileTextIcon

  /** Video, course and book have icons of their own; anything else shows the
      article icon. */
  function IconFor(kind: ResourceType): (icon: ResourceIcon)
    ensures icon == VideoIcon <==> kind == Video
    ensures icon == StarIcon <==> kind == Course
    ensures icon == BookOpenIcon <==> kind == Book
    ensures icon == FileTextIcon <==> kind !in {Video, Course, Book}
  {
    match kind
    case Video => VideoIcon
    case Course => StarIcon
    case Book => BookOpenIcon
    case _ => FileTextIcon
  }
}
