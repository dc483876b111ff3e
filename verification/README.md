# Level-Up skill tree: a Dafny model

Level-Up is a browser editor for learning roadmaps. A roadmap is a directed
graph of skills: each node carries a status (Locked, Available, In progress,
Completed), an XP reward and learning resources, and each edge says which
skill is a prerequisite of which. Completing a skill adds its reward to the
learner's profile, recomputes the level (one level per 1000 XP) and unlocks
the skills whose prerequisites are now all Completed. The side panel shows the
profile and the selected skill, and its two buttons ("Focus Skill",
"Complete") are the only way a user changes a status. A roadmap comes from a
built-in template or from an AI generator, which replaces the graph and
resets the profile.

The model has five modules:

- `SkillTypes` (`Types.dfy`): the records of `types.ts`. `label` is a Dafny
  keyword, so the node's label is the field `title`.
- `Constants` (`Constants.dfy`): the two built-in templates and the
  XP-per-level constant of `constants.ts`. Positions, node types and edge
  animation flags are left out.
- `Progression` (`Progression.dfy`): the pure rules inside the handlers of
  `index.tsx`. These are the status change with its XP award, the level
  formula, the unlock pass, and the two run together.
- `Sidebar` (`Sidebar.dfy`): the panel's decisions. These are which action row
  it shows, the request each button issues, the level-progress remainder and
  the resource icon.
- `App` (`Session.dfy`): the page component's state as the class `Session`.
  Its methods overwrite that state as the handlers do, and are proved against
  the `Progression` functions.

`Scenarios.dfy` proves what the engine does on the built-in templates (the
three-step walkthrough, repeated completion, a Locked selection, the level
boundary) and on a three-node chain (the pass is not transitive).

Behaviour of the code worth knowing, all of it modelled as written:

- `handleStatusChange` has no Locked guard. Only the panel keeps Locked skills
  out of reach, and only while ids are unique (`App.DuplicateIdsDefeatLockGate`).
- Every node carrying the id is changed, and each one that earns XP queues
  its own award (`Progression.ChangeStatus`).
- XP is awarded on every change into Completed from another status. The panel
  offers "Focus Skill" on a Completed skill, so completing, focusing and
  completing again awards the reward twice (`Progression.RecompletionAwardsAgain`).
- Loading a template does not reset the profile.
- A generated roadmap's ids and edge endpoints are never checked: repeated
  ids and edges to missing nodes go straight onto the canvas.
- On the frontend template, completing 1, 2 and 3 gives 100 + 200 + 150 = 450
  XP, and node 4 becomes Available only after the third step
  (`Scenarios.FrontendWalkthrough`).

## Model

| member | source | states |
|---|---|---|
| Constants.FrontendTemplate | constants.ts:5-72 | Plain definition of the "Frontend Architect" template (1 -> {2, 3} -> 4); its properties are stated by Constants.FrontendWellFormed, Scenarios.FrontendShape and Scenarios.FrontendData. |
| Constants.DataScienceTemplate | constants.ts:73-108 | Plain definition of the "Data Science Path" template (d1 -> d2); its properties are stated by Constants.DataScienceWellFormed and Scenarios.DataScienceShape. |
| Constants.InitialTemplates | constants.ts:4-109 | Plain definition of the template library in order; Constants.TemplateIdsDistinct and App.FindBuiltInTemplate state that each template is found by its id. |
| Constants.XpPerLevel | constants.ts:111 | Plain constant 1000; Progression.LevelFor, Sidebar.CurrentLevelXp and Scenarios.LevelBoundary state the level arithmetic built on it. |
| Constants.FrontendWellFormed | constants.ts:5-72 | The frontend template has distinct ids 1-4, every edge joins two of its nodes, and every reward is positive. |
| Constants.DataScienceWellFormed | constants.ts:73-108 | The data-science template has distinct ids d1 and d2, its edge joins them, and its rewards are positive. |
| Constants.TemplateIdsDistinct | constants.ts:4-109 | The built-in templates have distinct ids. |
| Progression.FirstIndex | index.tsx:103 | Where `find` stops: every earlier node has another id, and the node there carries the id unless the search ran off the end. |
| Progression.FindNode | index.tsx:103 | `find` by id: None exactly when no node has the id; otherwise the first node of the list carrying the id (every earlier node has another id). |
| Progression.FindNodeUnique | index.tsx:103 | With unique ids, the lookup returns the one node carrying the id. |
| Progression.FirstIndexSameIds | index.tsx:103 | Two lists with the same ids position by position stop a search at the same place. |
| Progression.XpGained | index.tsx:66-67 | The award is the reward exactly on a change into Completed from another status, and 0 otherwise; the handler lemmas Progression.ChangeStatusCascade, Progression.ChangeStatusSingleAward and Progression.RecompleteIsNoOp carry this rule into the profile. |
| Progression.LevelFor | index.tsx:72 | `floor(total / 1000) + 1`: the total lies in [(level-1)*1000, level*1000), and the level is at least 1 for a nonnegative total. |
| Progression.AwardXp | index.tsx:70-79 | Total and completion count go up by the award and by one; level is recomputed from the new total; streak and in-progress count are kept; a consistent profile stays consistent and its level does not drop. |
| Progression.ChangeStatus | index.tsx:62-93 | Every node carrying the id gets the new status and nothing else changes; the length and ids are kept. The total rises by the sum of the positive awards of the nodes carrying the id (Progression.AwardTotal) and the completion count by how many of them earn XP (Progression.AwardCount); the pass is scheduled exactly when that count is positive. Without a pass the profile is unchanged; with one, the level matches the total, and consistency and level monotonicity hold. |
| Progression.ChangeStatusCascade | index.tsx:69-83 | The unlock pass is scheduled exactly when some node carrying the id earns XP from the change. |
| Progression.ChangeStatusSingleAward | index.tsx:62-93 | With unique ids, the profile changes by the found node's award alone, and the pass is scheduled exactly when that award is positive. |
| Progression.ChangeStatusUnknownId | index.tsx:62-93 | An id that names no node changes nothing and schedules nothing. |
| Progression.RecompleteIsNoOp | index.tsx:67 | Completing nodes that are already Completed changes nothing: no award, no pass. |
| Progression.Targets | index.tsx:97 | The ids are exactly the targets of edges leaving the completed node. |
| Progression.Prerequisites | index.tsx:101 | The ids are exactly the sources of edges entering the node. |
| Progression.IsCompletedIn | index.tsx:103-104 | Plain definition: the first node with the id exists and is Completed; Progression.UnlockKeepsCompleted and Progression.MissingPrerequisiteBlocks state its behaviour under the pass. |
| Progression.AllCompleted | index.tsx:102-105 | True exactly when every prerequisite id names a node that is found and Completed; a missing node counts as not completed. |
| Progression.UnlockNode | index.tsx:100-113 | Plain definition of the per-node decision; Progression.UnlockNextNodes states it against the independent unlock rule. |
| Progression.UnlockEach | index.tsx:99-115 | Each position holds the per-node decision, read against one snapshot. |
| Progression.UnlockNextNodes | index.tsx:95-117 | Same length. A node becomes Available exactly when it is a Locked direct dependent of the completed node and all of its prerequisites are Completed in the list before the pass; every other node is unchanged. |
| Progression.UnlockChangesExactly | index.tsx:99-115 | A node changes exactly when the unlock rule holds, and then only from Locked to Available with its id kept. |
| Progression.MissingPrerequisiteBlocks | index.tsx:102-105 | An edge from an id naming no node keeps its target Locked. |
| Progression.UnlockKeepsCompleted | index.tsx:99-115 | The pass neither creates nor removes a Completed node. |
| Progression.UnlockIdempotent | index.tsx:95-117 | A second pass for the same completion changes nothing. |
| Progression.UnlockOrderIndependent | index.tsx:99-115 | With unique ids, reordering the list reorders the result the same way. |
| Progression.SameLookup | index.tsx:103 | With unique ids, two lists holding the same nodes give the same lookup. |
| Progression.StatusTransition | index.tsx:62-117 | The whole handler. Its profile is that of the status change; ids and length are kept; every node carrying the id ends with exactly the new status (the pass runs only after a completion and skips Completed nodes); other non-Locked nodes are unchanged; the pass is scheduled exactly when the status change schedules it, and then each node with another id becomes Available exactly when the unlock rule holds for it against the changed list, and is otherwise unchanged; without a pass the nodes are those of the status change. |
| Progression.StatusTransitionMonotone | index.tsx:70-79 | Through the handler, XP, completions and level never decrease, and a consistent profile stays consistent. |
| Progression.TransitionOnUnique | index.tsx:62-117 | With unique ids, the node found gets exactly that status, ids stay unique, and the profile changes by that node's award alone. |
| Progression.RecompletionAwardsAgain | index.tsx:62-93 | Complete, focus, complete awards the reward twice. The focus step awards nothing and schedules no pass. |
| Sidebar.Actions | components/Sidebar.tsx:92-120 | Nothing is shown without a selection, a notice for a Locked skill, otherwise two buttons. "Focus Skill" requests In progress and is disabled exactly when the skill is In progress; "Complete" requests Completed and is disabled exactly when it is Completed. |
| Sidebar.Press | components/Sidebar.tsx:92-120 | A click issues a request exactly when a skill is selected, it is not Locked and it is not already in the requested status; the request names the selected id and that status. |
| Sidebar.LockedSkillGetsNoRequest | components/Sidebar.tsx:92-95 | No click issues a request for a Locked skill. |
| Sidebar.CurrentLevelXp | components/Sidebar.tsx:26 | JavaScript's `total % 1000`: within [0, 1000) for a nonnegative total, within (-1000, 0] for a negative one, and congruent to the total. |
| Sidebar.IconFor | components/Sidebar.tsx:17-23 | Video, course and book each get their own icon; every other kind gets the article icon. |
| App.IsWhitespace | index.tsx:121 | Plain definition of the characters `trim()` removes (ECMAScript white space and line terminators); used by App.Session.BeginAiGenerate. |
| App.IsBlank | index.tsx:121 | Plain definition: the query trims to the empty string; App.Session.BeginAiGenerate and App.Session.HandleAiGenerate state that a blank query sends no request. |
| App.InitialStats | index.tsx:34-40 | The starting profile is consistent, with 0 XP at level 1. |
| App.FindTemplate | index.tsx:51 | `find` over the templates: None exactly when no template has the id; otherwise a member with that id. |
| App.FindBuiltInTemplate | index.tsx:47-51 | Each built-in template is found by its own id. |
| App.SelectedNode | index.tsx:151-154 | None exactly when there is no selection or no node has the selected id; otherwise the selected id and the data of the first node carrying it, as the lookup finds it. |
| App.LevelProgressMatchesLevel | components/Sidebar.tsx:26 | For a consistent profile, (level-1)*1000 plus the panel's remainder is the total, and the remainder is in [0, 1000). |
| App.SidebarRequestKeepsLocks | components/Sidebar.tsx:92-120 | With unique ids, a request issued by the panel leaves every Locked node Locked or makes it Available through the pass. |
| App.DuplicateIdsDefeatLockGate | index.tsx:62-93 | For [Available "x", Locked "x"], completing the selected "x" completes the Locked node too and awards both rewards (200 XP, two completions). |
| App.Session.constructor | index.tsx:31-43 | Empty graph, no selection, the initial profile, an empty query, not busy, the first template marked active. |
| App.Session.LoadTemplate | index.tsx:50-60 | A known id replaces nodes and edges with the template's and marks it active; an unknown id changes nothing; the profile and selection are kept. |
| App.Session.Mount | index.tsx:46-48 | After mounting, the canvas holds the frontend template and "frontend-dev" is active. |
| App.Session.HandleStatusChange | index.tsx:62-93 | The new nodes and profile are the handler's result; totals and level never decrease; everything else is kept. |
| App.Session.UnlockNextNodes | index.tsx:95-117 | The nodes become the unlock pass's result over the current edges; nothing else changes. |
| App.Session.SetSearchQuery | index.tsx:177 | The query becomes the typed text. |
| App.Session.SelectNode | index.tsx:216 | Clicking a node selects its id. |
| App.Session.ClearSelection | index.tsx:217 | Clicking the canvas clears the selection. |
| App.Session.Selected | index.tsx:151-154 | None exactly when nothing is selected or no node of the canvas has the selected id; otherwise the selected id and the first node of the canvas carrying it, as the lookup finds it. |
| App.Session.PressAction | components/Sidebar.tsx:92-120 | A click with no request changes nothing; otherwise the state becomes the handler's result for the request. With unique ids, no Locked node ends up other than Locked or Available. |
| App.Session.BeginAiGenerate | index.tsx:119-123 | A request goes out exactly when the query is not blank after trimming, and then the busy flag is raised. |
| App.Session.FinishAiGenerate | index.tsx:124-148 | On success the graph is replaced, the query cleared, the profile reset and "custom" marked active; on failure all of that is kept; the busy flag ends cleared. |
| App.Session.HandleAiGenerate | index.tsx:119-149 | A blank query changes nothing; otherwise as FinishAiGenerate for the outcome. |
| Scenarios.FrontendShape | constants.ts:5-72 | Only node 1 starts Available; 2 and 3 depend on 1 alone, and 4 on 2 and 3. |
| Scenarios.DataScienceShape | constants.ts:73-108 | d1 starts Available and d2 Locked, with the one edge d1 -> d2. |
| Scenarios.DiamondComplete | index.tsx:62-93 | Completing a not-yet-Completed diamond node changes that node's status alone and awards its reward once. |
| Scenarios.DiamondUnlockAfterOne | index.tsx:95-117 | After 1 is completed, the pass makes 2 and 3 Available and leaves 4 Locked. |
| Scenarios.DiamondUnlockAfterTwo | index.tsx:95-117 | With 3 not Completed, the pass after 2 changes nothing. |
| Scenarios.DiamondFourReady | index.tsx:100-107 | With 2 and 3 Completed, Locked node 4 satisfies the unlock rule for 3. |
| Scenarios.DiamondUnlockAfterThree | index.tsx:95-117 | With 2 and 3 Completed, the pass after 3 makes 4 Available. |
| Scenarios.DiamondStepOne | index.tsx:62-117 | The full handler for completing 1 on the diamond. |
| Scenarios.DiamondStepTwo | index.tsx:62-117 | The full handler for completing 2 on the diamond. |
| Scenarios.DiamondStepThree | index.tsx:62-117 | The full handler for completing 3 on the diamond. |
| Scenarios.DiamondWalkthrough | index.tsx:62-117 | Completing 1, 2, 3 awards each reward once, with statuses [C, A, A, L], then [C, C, A, L], then [C, C, C, A]. |
| Scenarios.FrontendData | constants.ts:9-65 | The frontend template is the diamond (Scenarios.Diamond: ids 1-4 in order, with the node data left open) over its own data, with 1 Available, the rest Locked, and rewards 100, 200, 150. |
| Scenarios.FrontendWalkthrough | constants.ts:9-71 | On a fresh frontend session: 100 XP at level 1 after 1; node 4 still Locked after 2; 450 XP with 3 completions and node 4 Available after 3. |
| Scenarios.FrontendRecompletion | index.tsx:62-93 | Completing 1, focusing it and completing it again leaves 200 XP and 2 completions. |
| Scenarios.ChainUnlockIsOneStep | index.tsx:95-117 | On the chain 1 -> 2 -> 3 (Scenarios.Chain, data left open), completing 1 makes 2 Available and leaves 3 Locked: the pass is not transitive. |
| Scenarios.FrontendLockedSelection | components/Sidebar.tsx:92-95 | Selecting Locked node 4 of a fresh frontend session shows the notice, and no button issues a request. |
| Scenarios.LevelBoundary | index.tsx:72 | 999 XP is level 1 with 999 shown as progress; 1000 XP is level 2 with 0 shown. |

## Left out

- Rendering is not part of this model. That covers the JSX, Tailwind classes, lucide icon components, `alert` and `console.error`; only the decisions the panel takes are modelled.
- React's scheduling is not modelled. The state updaters are applied at once, and the unlock pass that `setTimeout(…, 0)` defers runs right after the status change. The pass reads `edges` from the render that created the handler; no handler between the two changes `edges`, so the current edges are used.
- `onConnect`/`addEdge` (drawing a new edge on the canvas) is not modelled. It is a call into reactflow, whose code is not part of this model.
- React Flow's `onNodesChange`/`onEdgesChange` (dragging, deleting, selecting on the canvas) are not modelled, for the same reason.
- Node positions, the node `type` tag, edge markers and the `animated` flag are dropped. They only affect drawing.
- `App.Session.FinishAiGenerate`: `generateCareerRoadmap` is a network call to a language model. Its result is a parameter (`Generation`), and its payload is taken as already in canvas shape. The generator's flat node schema, with no `data` record, is not modelled, and neither is the JSON parsing. An empty or unparseable response, or a payload whose `nodes` is not an array, throws and is caught; the model's `GenerationFailed` is that outcome, with the state kept.
- `App.Session.FinishAiGenerate`: a payload whose `nodes` maps but whose `edges` does not throws after `setNodes` has run, so the nodes are replaced while the edges, profile, query and active template are kept. `Generation` has no case for this partial update, and the model does not capture it.
- `App.Session.HandleStatusChange`: when several nodes carry the id and more than one earns XP, the code schedules one unlock pass per awarded node; the model runs one. With nothing in between, a second pass for the same id changes nothing (`Progression.UnlockIdempotent`), so the result is the same; the interleaving of other handlers between the scheduled passes is not captured.
- components/SkillNode.tsx is not part of this model. It only draws a node.
- `progressPercent` (components/Sidebar.tsx:27) is left out. It is a floating-point percentage used only for drawing.
- JavaScript numbers are modelled as unbounded integers, so fractional rewards, `NaN` and precision loss above 2^53 are not captured.
- `Resource.type` is an enumeration of the four declared kinds. An untyped payload string outside them is not representable, and the icon's `default` branch covers only article.
- The `currentStreak` and `skillsInProgress` profile fields are carried but never changed, since no handler changes them.
- The search box's `value` binding and the template buttons' highlight are not modelled. They only affect drawing.
