/** The editor session (index.tsx): the state the page component holds and
    the handlers that overwrite it, built on the pure rules of Progression
    and the panel logic of Sidebar. */
module App {
  import opened SkillTypes
  import Constants
  import Progression
  import Sidebar

  /** The profile a session starts with and a generated roadmap resets to:
      0 XP, level 1, no completions, a streak of 1, nothing in progress. */
  function InitialStats(): (s: UserStats)
    ensures Progression.StatsConsistent(s) && s.totalXp == 0 && s.level == 1
  {
    UserStats(0, 1, 0, 1, 0)
  }

  /** The characters String.prototype.trim removes: ECMAScript white space
      and line terminators. */
  predicate IsWhitespace(c: char) {
    c in {'\U{0009}', '\U{000A}', '\U{000B}', '\U{000C}', '\U{000D}', '\U{0020}', '\U{00A0}', '\U{1680}',
          '\U{2000}', '\U{2001}', '\U{2002}', '\U{2003}', '\U{2004}', '\U{2005}', '\U{2006}', '\U{2007}',
          '\U{2008}', '\U{2009}', '\U{200A}', '\U{2028}', '\U{2029}', '\U{202F}', '\U{205F}', '\U{3000}',
          '\U{FEFF}'}
  }

  /** The query trims to the empty string. */
  predicate IsBlank(s: string) {
    forall i :: 0 <= i < |s| ==> IsWhitespace(s[i])
  }

  /** The generator's payload, taken as it arrives: nothing checks it. */
  datatype Roadmap = Roadmap(name: string, description: string, nodes: seq<SkillNode>, edges: seq<SkillEdge>)

  /** What the awaited generation request yields. */
  datatype Generation = Generated(roadmap: Roadmap) | GenerationFailed(message: string)

  /** The first template with the given id (Array.prototype.find). */
  function FindTemplate(templates: seq<SkillTreeTemplate>, id: string): (r: Option<SkillTreeTemplate>)
    ensures r.None? <==> forall i :: 0 <= i < |templates| ==> templates[i].id != id
    ensures r.Some? ==> r.value in templates && r.value.id == id
  {
    if templates == [] then None
    else if templates[0].id == id then Some(templates[0])
    else
      var r := FindTemplate(templates[1..], id);
      assert forall i :: 0 < i < |templates| ==> templates[i] == templates[1..][i - 1];
      r
  }

  /** Template ids are distinct, so each built-in template is found by its id. */
  lemma {:induction false} FindBuiltInTemplate(i: nat)
    requires i < |Constants.InitialTemplates()|
    ensures FindTemplate(Constants.InitialTemplates(), Constants.InitialTemplates()[i].id)
            == Some(Constants.InitialTemplates()[i])
  {
    var ts := Constants.InitialTemplates();
    Constants.TemplateIdsDistinct();
    if i == 1 {
      assert ts[0].id != ts[1].id;
      assert FindTemplate(ts, ts[1].id) == FindTemplate(ts[1..], ts[1].id);
    }
  }

  /** The selected skill: the first node whose id is the selected id. */
  function SelectedNode(nds: seq<SkillNode>, selectedId: Option<string>): (r: Option<Sidebar.SelectedSkill>)
    ensures r.None? <==> selectedId.None? || !HasNode(nds, selectedId.value)
    ensures r.Some? ==> selectedId == Some(r.value.id) && SkillNode(r.value.id, r.value.data) in nds
    ensures r.Some? ==> Progression.FindNode(nds, selectedId.value) == Some(SkillNode(r.value.id, r.value.data))
  {
    match selectedId
    case None => None
    case Some(sid) =>
      match Progression.FindNode(nds, sid)
      case None =>
        assert !HasNode(nds, sid) by {
          forall n | n in nds ensures n.id != sid {
            var k :| 0 <= k < |nds| && nds[k] == n;
          }
        }
        None
      case Some(n) => Some(Sidebar.SelectedSkill(n.id, n.data))
  }

  /** The panel's remainder and the profile's level describe the same total:
      (level - 1) * 1000 + remainder == total. */
  lemma LevelProgressMatchesLevel(s: UserStats)
    requires Progression.StatsConsistent(s)
    ensures (s.level - 1) * Constants.XpPerLevel + Sidebar.CurrentLevelXp(s.totalXp) == s.totalXp
    ensures 0 <= Sidebar.CurrentLevelXp(s.totalXp) < Constants.XpPerLevel
  {
  }

  /** With unique ids, a request issued through the panel leaves every Locked
      node Locked, or makes it Available through the unlock pass. */
  lemma SidebarRequestKeepsLocks(nds: seq<SkillNode>, edges: seq<SkillEdge>, stats: UserStats,
                                 selectedId: Option<string>, kind: Sidebar.ActionKind)
    requires UniqueIds(nds)
    requires Sidebar.Press(SelectedNode(nds, selectedId), kind).Some?
    ensures var req := Sidebar.Press(SelectedNode(nds, selectedId), kind).value;
            var r := Progression.StatusTransition(nds, edges, stats, req.id, req.status);
            forall i :: 0 <= i < |nds| && nds[i].data.status == Locked ==>
              r.nodes[i] == nds[i] || r.nodes[i] == WithStatus(nds[i], Available)
  {
    var req := Sidebar.Press(SelectedNode(nds, selectedId), kind).value;
    forall i | 0 <= i < |nds| && nds[i].data.status == Locked ensures nds[i].id != req.id {
      Progression.FindNodeUnique(nds, i);
    }
  }

  /** Without unique ids the panel gate does not protect a Locked node: with
      an Available and a Locked node both named "x", completing the selected
      "x" also completes the Locked one and awards both rewards. */
  lemma DuplicateIdsDefeatLockGate()
    ensures var open := SkillNode("x", Constants.NodeData("A", "", Available, 100, 1, []));
            var shut := SkillNode("x", Constants.NodeData("B", "", Locked, 100, 1, []));
            var nds := [open, shut];
            var req := Sidebar.Press(SelectedNode(nds, Some("x")), Sidebar.Complete);
            var r := Progression.StatusTransition(nds, [], InitialStats(), "x", Completed);
            req == Some(Sidebar.StatusRequest("x", Completed))
            && r.nodes[1].data.status == Completed
            && r.stats.totalXp == 200 && r.stats.completedSkills == 2
  {
    var open := SkillNode("x", Constants.NodeData("A", "", Available, 100, 1, []));
    var shut := SkillNode("x", Constants.NodeData("B", "", Locked, 100, 1, []));
    var nds := [open, shut];
    assert Progression.FindNode(nds, "x") == Some(open);
    var s1 := Progression.AwardXp(InitialStats(), 100);
    var s2 := Progression.AwardXp(s1, 100);
    assert nds[1..] == [shut] && [shut][1..] == [];
    assert Progression.ChangeStatus([], s2, "x", Completed).stats == s2;
    assert Progression.ChangeStatus([shut], s1, "x", Completed).stats == s2;
    assert Progression.ChangeStatus(nds, InitialStats(), "x", Completed).stats == s2;
  }

  /** The state held by the page component. */
  class Session {
    var nodes: seq<SkillNode>
    var edges: seq<SkillEdge>
    var selectedNodeId: Option<string>
    var userStats: UserStats
    var searchQuery: string
    var isGenerating: bool
    var activeTemplate: string

    /** The profile's level always agrees with its total. */
    ghost predicate Valid()
      reads this
    {
      Progression.StatsConsistent(userStats)
    }

    /** The state before the first effect runs: an empty canvas, no
        selection, the initial profile, the first template marked active. */
    constructor ()
      ensures Valid()
      ensures nodes == [] && edges == [] && selectedNodeId == None
      ensures userStats == InitialStats() && searchQuery == "" && !isGenerating
      ensures activeTemplate == Constants.InitialTemplates()[0].id
    {
      nodes := [];
      edges := [];
      selectedNodeId := None;
      userStats := InitialStats();
      searchQuery := "";
      isGenerating := false;
      activeTemplate := Constants.InitialTemplates()[0].id;
    }

    /** Replaces the graph with a built-in template's; an unknown id changes
        nothing. The profile is not reset. */
    method LoadTemplate(templateId: string)
      requires Valid()
      modifies this
      ensures Valid()
      ensures match FindTemplate(Constants.InitialTemplates(), templateId)
              case None => nodes == old(nodes) && edges == old(edges) && activeTemplate == old(activeTemplate)
              case Some(t) => nodes == t.nodes && edges == t.edges && activeTemplate == templateId
      ensures userStats == old(userStats) && selectedNodeId == old(selectedNodeId)
      ensures searchQuery == old(searchQuery) && isGenerating == old(isGenerating)
    {
      match FindTemplate(Constants.InitialTemplates(), templateId)
      case None =>
      case Some(t) =>
        nodes := t.nodes;
        edges := t.edges;
        activeTemplate := templateId;
    }

    /** The mount effect: load the first template. */
    method Mount()
      requires Valid()
      modifies this
      ensures Valid()
      ensures nodes == Constants.FrontendTemplate().nodes && edges == Constants.FrontendTemplate().edges
      ensures activeTemplate == "frontend-dev"
      ensures userStats == old(userStats) && selectedNodeId == old(selectedNodeId)
      ensures searchQuery == old(searchQuery) && isGenerating == old(isGenerating)
    {
      FindBuiltInTemplate(0);
      LoadTemplate(Constants.InitialTemplates()[0].id);
    }

    /** Sets the status of the node(s) named `id`, awards the XP earned and,
        when XP was earned, runs the unlock pass for `id`. Totals never
        decrease. */
    method HandleStatusChange(id: string, newStatus: SkillStatus)
      requires Valid()
      modifies this
      ensures Valid()
      ensures var r := Progression.StatusTransition(old(nodes), edges, old(userStats), id, newStatus);
              nodes == r.nodes && userStats == r.stats
      ensures userStats.totalXp >= old(userStats.totalXp) && userStats.completedSkills >= old(userStats.completedSkills)
      ensures userStats.level >= old(userStats.level)
      ensures edges == old(edges) && selectedNodeId == old(selectedNodeId) && activeTemplate == old(activeTemplate)
      ensures searchQuery == old(searchQuery) && isGenerating == old(isGenerating)
    {
      var change := Progression.ChangeStatus(nodes, userStats, id, newStatus);
      nodes := change.nodes;
      userStats := change.stats;
      if change.cascade {
        UnlockNextNodes(id);
      }
    }

    /** One unlock pass for `completedId` over the current nodes and edges. */
    method UnlockNextNodes(completedId: string)
      modifies this
      ensures nodes == Progression.UnlockNextNodes(old(nodes), edges, completedId)
      ensures edges == old(edges) && userStats == old(userStats) && selectedNodeId == old(selectedNodeId)
      ensures activeTemplate == old(activeTemplate) && searchQuery == old(searchQuery) && isGenerating == old(isGenerating)
    {
      nodes := Progression.UnlockNextNodes(nodes, edges, completedId);
    }

    /** Typing into the search field. */
    method SetSearchQuery(query: string)
      modifies this`searchQuery
      ensures searchQuery == query
    {
      searchQuery := query;
    }

    /** Clicking a node selects it. */
    method SelectNode(id: string)
      modifies this`selectedNodeId
      ensures selectedNodeId == Some(id)
    {
      selectedNodeId := Some(id);
    }

    /** Clicking the empty canvas clears the selection. */
    method ClearSelection()
      modifies this`selectedNodeId
      ensures selectedNodeId == None
    {
      selectedNodeId := None;
    }

    /** The skill the panel shows. */
    function Selected(): (r: Option<Sidebar.SelectedSkill>)
      reads this
      ensures r.None? <==> selectedNodeId.None? || !HasNode(nodes, selectedNodeId.value)
      ensures r.Some? ==> selectedNodeId == Some(r.value.id) && SkillNode(r.value.id, r.value.data) in nodes
      ensures r.Some? ==> Progression.FindNode(nodes, selectedNodeId.value) == Some(SkillNode(r.value.id, r.value.data))
    {
      SelectedNode(nodes, selectedNodeId)
    }

    /** A click on one of the panel's status buttons. A Locked node offers no
        button, so with unique ids no Locked node is set by hand. */
    method PressAction(kind: Sidebar.ActionKind)
      requires Valid()
      modifies this
      ensures Valid()
      ensures match Sidebar.Press(SelectedNode(old(nodes), old(selectedNodeId)), kind)
              case None => nodes == old(nodes) && userStats == old(userStats)
              case Some(req) =>
                var r := Progression.StatusTransition(old(nodes), edges, old(userStats), req.id, req.status);
                nodes == r.nodes && userStats == r.stats
      ensures UniqueIds(old(nodes)) ==>
                forall i :: 0 <= i < |old(nodes)| && old(nodes)[i].data.status == Locked ==>
                  nodes[i] == old(nodes)[i] || nodes[i] == WithStatus(old(nodes)[i], Available)
      ensures edges == old(edges) && selectedNodeId == old(selectedNodeId) && activeTemplate == old(activeTemplate)
      ensures searchQuery == old(searchQuery) && isGenerating == old(isGenerating)
    {
      var request := Sidebar.Press(Selected(), kind);
      if request.Some? {
        if UniqueIds(nodes) {
          SidebarRequestKeepsLocks(nodes, edges, userStats, selectedNodeId, kind);
        }
        HandleStatusChange(request.value.id, request.value.status);
      }
    }

    /** Submitting the form: a blank query does nothing; otherwise the busy
        flag is raised and the request for `searchQuery` goes out. */
    method BeginAiGenerate() returns (requested: bool)
      modifies this`isGenerating
      ensures requested <==> !IsBlank(searchQuery)
      ensures isGenerating == if requested then true else old(isGenerating)
    {
      requested := !IsBlank(searchQuery);
      if requested {
        isGenerating := true;
      }
    }

    /** The awaited request settles. On success the graph is replaced, the
        query cleared, the profile reset and the template marked custom; on
        failure all of it stays. The busy flag is cleared either way. */
    method FinishAiGenerate(outcome: Generation)
      requires Valid()
      modifies this
      ensures Valid() && !isGenerating
      ensures match outcome
              case Generated(roadmap) =>
                && nodes == roadmap.nodes && edges == roadmap.edges && searchQuery == ""
                && userStats == InitialStats() && activeTemplate == "custom"
              case GenerationFailed(_) =>
                && nodes == old(nodes) && edges == old(edges) && searchQuery == old(searchQuery)
                && userStats == old(userStats) && activeTemplate == old(activeTemplate)
      ensures selectedNodeId == old(selectedNodeId)
    {
      isGenerating := false;
      match outcome
      case Generated(roadmap) =>
        nodes := roadmap.nodes;
        edges := roadmap.edges;
        searchQuery := "";
        userStats := InitialStats();
        activeTemplate := "custom";
      case GenerationFailed(_) =>
    }

    /** The whole handler with the request's outcome given. */
    method HandleAiGenerate(outcome: Generation)
      requires Valid()
      modifies this
      ensures Valid()
      ensures IsBlank(old(searchQuery)) ==>
                && nodes == old(nodes) && edges == old(edges) && userStats == old(userStats)
                && searchQuery == old(searchQuery) && activeTemplate == old(activeTemplate)
                && isGenerating == old(isGenerating)
      ensures !IsBlank(old(searchQuery)) ==> !isGenerating && match outcome
              case Generated(roadmap) =>
                && nodes == roadmap.nodes && edges == roadmap.edges && searchQuery == ""
                && userStats == InitialStats() && activeTemplate == "custom"
              case GenerationFailed(_) =>
                && nodes == old(nodes) && edges == old(edges) && searchQuery == old(searchQuery)
                && userStats == old(userStats) && activeTemplate == old(activeTemplate)
      ensures selectedNodeId == old(selectedNodeId)
    {
      var requested := BeginAiGenerate();
      if requested {
        FinishAiGenerate(outcome);
      }
    }
  }
}
