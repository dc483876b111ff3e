/** The skill-progression engine of the editor: the pure rules inside the
    status-change handler and the unlock pass (index.tsx). Each function takes
    the node list a React state updater receives and returns the new one. */
module Progression {
  import opened SkillTypes
  import Constants

  // ---------------------------------------------------------------------
  // Lookup by id (Array.prototype.find on the node list)
  // ---------------------------------------------------------------------

  /** The position at which a search for `id` stops: the first node carrying
      it, or |nds| when there is none. */
  function FirstIndex(nds: seq<SkillNode>, id: string): (k: nat)
    ensures k <= |nds|
    ensures forall j :: 0 <= j < k ==> nds[j].id != id
    ensures k < |nds| ==> nds[k].id == id
  {
    if nds == [] then 0
    else if nds[0].id == id then 0
    else 1 + FirstIndex(nds[1..], id)
  }

  /** The first node with the given id, if any. */
  function FindNode(nds: seq<SkillNode>, id: string): (r: Option<SkillNode>)
    ensures r.None? <==> forall i :: 0 <= i < |nds| ==> nds[i].id != id
    ensures r.Some? ==> r.value in nds && r.value.id == id
    ensures r.Some? ==> exists k :: 0 <= k < |nds| && nds[k] == r.value && forall j :: 0 <= j < k ==> nds[j].id != id
  {
    var k := FirstIndex(nds, id);
    if k < |nds| then Some(nds[k]) else None
  }

  /** With unique ids the lookup finds the one node carrying the id. */
  lemma FindNodeUnique(nds: seq<SkillNode>, i: nat)
    requires UniqueIds(nds) && i < |nds|
    ensures FindNode(nds, nds[i].id) == Some(nds[i])
  {
    var k := FirstIndex(nds, nds[i].id);
    assert k <= i;
    assert nds[k].id == nds[i].id;
  }

  /** Two node lists that carry the same ids position by position stop a
      search at the same place. */
  lemma {:induction false} FirstIndexSameIds(a: seq<SkillNode>, b: seq<SkillNode>, id: string)
    requires |a| == |b|
    requires forall i :: 0 <= i < |a| ==> a[i].id == b[i].id
    ensures FirstIndex(a, id) == FirstIndex(b, id)
  {
    if a != [] && a[0].id != id {
      FirstIndexSameIds(a[1..], b[1..], id);
    }
  }

  // ---------------------------------------------------------------------
  // Experience and level (index.tsx:67-79)
  // ---------------------------------------------------------------------

  /** XP a status change earns: the reward on a change into Completed from
      any other status, nothing otherwise. */
  function XpGained(oldStatus: SkillStatus, newStatus: SkillStatus, xpReward: int): (xp: int)
    ensures xp != 0 ==> newStatus == Completed && oldStatus != Completed && xp == xpReward
    ensures newStatus == Completed && oldStatus != Completed ==> xp == xpReward
  {
    if newStatus == Completed && oldStatus != Completed then xpReward else 0
  }

  /** Whether setting `n` to `newStatus` awards experience, which is also the
      condition for scheduling the unlock pass. */
  predicate Gains(n: SkillNode, newStatus: SkillStatus) {
    XpGained(n.data.status, newStatus, n.data.xpReward) > 0
  }

  /** The level for a total: the floor of total / 1000, plus one. */
  function LevelFor(totalXp: int): (level: int)
    ensures (level - 1) * Constants.XpPerLevel <= totalXp < level * Constants.XpPerLevel
    ensures totalXp >= 0 ==> level >= 1
  {
    totalXp / Constants.XpPerLevel + 1
  }

  /** A profile whose level agrees with its total and whose counters are
      non-negative. */
  predicate StatsConsistent(s: UserStats) {
    s.totalXp >= 0 && s.completedSkills >= 0 && s.level == LevelFor(s.totalXp)
  }

  /** The profile update queued for a positive award. */
  function AwardXp(stats: UserStats, xp: int): (r: UserStats)
    requires xp > 0
    ensures r.totalXp == stats.totalXp + xp && r.completedSkills == stats.completedSkills + 1
    ensures r.level == LevelFor(r.totalXp)
    ensures r.currentStreak == stats.currentStreak && r.skillsInProgress == stats.skillsInProgress
    ensures StatsConsistent(stats) ==> StatsConsistent(r) && r.level >= stats.level
  {
    var newXp := stats.totalXp + xp;
    stats.(totalXp := newXp, level := LevelFor(newXp), completedSkills := stats.completedSkills + 1)
  }

  // ---------------------------------------------------------------------
  // Status change (index.tsx:62-93)
  // ---------------------------------------------------------------------

  /** The effect of one status change: the new node list, the profile after
      every queued award, and whether the unlock pass gets scheduled. */
  datatype StatusChange = StatusChange(nodes: seq<SkillNode>, stats: UserStats, cascade: bool)

  /** The XP queued by setting every node carrying `id` to `newStatus`: the
      sum of the positive awards of those nodes. */
  function AwardTotal(nds: seq<SkillNode>, id: string, newStatus: SkillStatus): int
    decreases |nds|
  {
    if nds == [] then 0
    else
      var xp := XpGained(nds[0].data.status, newStatus, nds[0].data.xpReward);
      (if nds[0].id == id && xp > 0 then xp else 0) + AwardTotal(nds[1..], id, newStatus)
  }

  /** How many nodes carrying `id` earn XP from the change: one queued award
      each. */
  function AwardCount(nds: seq<SkillNode>, id: string, newStatus: SkillStatus): nat
    decreases |nds|
  {
    if nds == [] then 0
    else (if nds[0].id == id && Gains(nds[0], newStatus) then 1 else 0) + AwardCount(nds[1..], id, newStatus)
  }

  /** Sets the status of every node carrying `id`. Each such node whose change
      earns XP queues one award and schedules the unlock pass. There is no
      Locked guard here. */
  function ChangeStatus(nds: seq<SkillNode>, stats: UserStats, id: string, newStatus: SkillStatus): (r: StatusChange)
    ensures |r.nodes| == |nds|
    ensures forall i :: 0 <= i < |nds| ==> r.nodes[i].id == nds[i].id
    ensures forall i :: 0 <= i < |nds| && nds[i].id != id ==> r.nodes[i] == nds[i]
    ensures forall i :: 0 <= i < |nds| && nds[i].id == id ==> r.nodes[i].data == nds[i].data.(status := newStatus)
    ensures !r.cascade ==> r.stats == stats
    ensures r.stats.totalXp == stats.totalXp + AwardTotal(nds, id, newStatus)
    ensures r.stats.completedSkills == stats.completedSkills + AwardCount(nds, id, newStatus)
    ensures r.cascade <==> AwardCount(nds, id, newStatus) > 0
    ensures r.cascade ==> r.stats.totalXp > stats.totalXp && r.stats.completedSkills > stats.completedSkills
    ensures r.cascade ==> r.stats.level == LevelFor(r.stats.totalXp)
    ensures r.stats.currentStreak == stats.currentStreak && r.stats.skillsInProgress == stats.skillsInProgress
    ensures StatsConsistent(stats) ==> StatsConsistent(r.stats) && r.stats.level >= stats.level
    decreases |nds|
  {
    if nds == [] then StatusChange([], stats, false)
    else
      var n := nds[0];
      if n.id == id then
        var xp := XpGained(n.data.status, newStatus, n.data.xpReward);
        var awarded := if xp > 0 then AwardXp(stats, xp) else stats;
        var rest := ChangeStatus(nds[1..], awarded, id, newStatus);
        StatusChange([WithStatus(n, newStatus)] + rest.nodes, rest.stats, xp > 0 || rest.cascade)
      else
        var rest := ChangeStatus(nds[1..], stats, id, newStatus);
        StatusChange([n] + rest.nodes, rest.stats, rest.cascade)
  }

  /** The unlock pass is scheduled exactly when some node carrying the id
      earns XP from the change. */
  lemma {:induction false} ChangeStatusCascade(nds: seq<SkillNode>, stats: UserStats, id: string, newStatus: SkillStatus)
    ensures ChangeStatus(nds, stats, id, newStatus).cascade
            <==> exists i :: 0 <= i < |nds| && nds[i].id == id && Gains(nds[i], newStatus)
  {
    if nds != [] {
      var n := nds[0];
      var tail := nds[1..];
      var awarded := if n.id == id && Gains(n, newStatus) then AwardXp(stats, XpGained(n.data.status, newStatus, n.data.xpReward)) else stats;
      ChangeStatusCascade(tail, awarded, id, newStatus);
      assert forall i :: 0 <= i < |tail| ==> tail[i] == nds[i + 1];
      if exists i :: 0 <= i < |nds| && nds[i].id == id && Gains(nds[i], newStatus) {
        var i :| 0 <= i < |nds| && nds[i].id == id && Gains(nds[i], newStatus);
        if i > 0 { assert tail[i - 1] == nds[i]; }
      }
    }
  }

  /** With unique ids the profile changes by the one award of the node found,
      or not at all. */
  lemma {:induction false} ChangeStatusSingleAward(nds: seq<SkillNode>, stats: UserStats, id: string, newStatus: SkillStatus, n: SkillNode)
    requires UniqueIds(nds) && FindNode(nds, id) == Some(n)
    ensures var xp := XpGained(n.data.status, newStatus, n.data.xpReward);
            var r := ChangeStatus(nds, stats, id, newStatus);
            r.cascade == (xp > 0) && r.stats == (if xp > 0 then AwardXp(stats, xp) else stats)
  {
    assert nds != [];
    var tail := nds[1..];
    assert UniqueIds(tail) by {
      forall i, j | 0 <= i < j < |tail| ensures tail[i].id != tail[j].id {
        assert tail[i] == nds[i + 1] && tail[j] == nds[j + 1];
      }
    }
    if nds[0].id == id {
      assert n == nds[0];
      forall i | 0 <= i < |tail| ensures tail[i].id != id {
        assert tail[i] == nds[i + 1];
      }
      var xp := XpGained(n.data.status, newStatus, n.data.xpReward);
      ChangeStatusCascade(tail, if xp > 0 then AwardXp(stats, xp) else stats, id, newStatus);
    } else {
      assert FirstIndex(nds, id) == 1 + FirstIndex(tail, id);
      assert FindNode(tail, id) == Some(n);
      ChangeStatusSingleAward(tail, stats, id, newStatus, n);
    }
  }

  /** A status change naming no node changes nothing and schedules nothing. */
  lemma ChangeStatusUnknownId(nds: seq<SkillNode>, stats: UserStats, id: string, newStatus: SkillStatus)
    requires FindNode(nds, id) == None
    ensures ChangeStatus(nds, stats, id, newStatus) == StatusChange(nds, stats, false)
  {
    var r := ChangeStatus(nds, stats, id, newStatus);
    assert r.nodes == nds;
  }

  /** Completing nodes that are all already Completed is a no-op: no award,
      no unlock pass, the node list unchanged. */
  lemma RecompleteIsNoOp(nds: seq<SkillNode>, stats: UserStats, id: string)
    requires forall i :: 0 <= i < |nds| && nds[i].id == id ==> nds[i].data.status == Completed
    ensures ChangeStatus(nds, stats, id, Completed) == StatusChange(nds, stats, false)
  {
    var r := ChangeStatus(nds, stats, id, Completed);
    assert r.nodes == nds;
  }

  // ---------------------------------------------------------------------
  // Unlock pass (index.tsx:95-117)
  // ---------------------------------------------------------------------

  /** Targets of the edges leaving `completedId`, in edge order. */
  function Targets(edges: seq<SkillEdge>, completedId: string): (ts: seq<string>)
    ensures forall t :: t in ts <==> exists e :: e in edges && e.source == completedId && e.target == t
  {
    if edges == [] then []
    else
      var rest := Targets(edges[1..], completedId);
      assert forall e :: e in edges ==> e == edges[0] || e in edges[1..];
      if edges[0].source == completedId then [edges[0].target] + rest else rest
  }

  /** Sources of the edges entering `nodeId`: its prerequisites. */
  function Prerequisites(edges: seq<SkillEdge>, nodeId: string): (ps: seq<string>)
    ensures forall p :: p in ps <==> exists e :: e in edges && e.target == nodeId && e.source == p
  {
    if edges == [] then []
    else
      var rest := Prerequisites(edges[1..], nodeId);
      assert forall e :: e in edges ==> e == edges[0] || e in edges[1..];
      if edges[0].target == nodeId then [edges[0].source] + rest else rest
  }

  /** The first node named `id` exists and is Completed; a missing node counts
      as not completed. */
  predicate IsCompletedIn(snapshot: seq<SkillNode>, id: string) {
    var n := FindNode(snapshot, id);
    n.Some? && n.value.data.status == Completed
  }

  /** Array.prototype.every over the prerequisite ids. */
  function AllCompleted(preIds: seq<string>, snapshot: seq<SkillNode>): (b: bool)
    ensures b <==> forall p :: p in preIds ==> IsCompletedIn(snapshot, p)
  {
    if preIds == [] then true
    else
      assert forall p :: p in preIds ==> p == preIds[0] || p in preIds[1..];
      IsCompletedIn(snapshot, preIds[0]) && AllCompleted(preIds[1..], snapshot)
  }

  /** The decision for one node, read against the snapshot `snapshot`. */
  function UnlockNode(n: SkillNode, snapshot: seq<SkillNode>, edges: seq<SkillEdge>, targets: seq<string>): SkillNode {
    if n.id in targets && n.data.status == Locked && AllCompleted(Prerequisites(edges, n.id), snapshot)
    then WithStatus(n, Available)
    else n
  }

  /** The map over the node list; every decision reads the same snapshot. */
  function UnlockEach(nds: seq<SkillNode>, snapshot: seq<SkillNode>, edges: seq<SkillEdge>, targets: seq<string>): (r: seq<SkillNode>)
    ensures |r| == |nds|
    ensures forall i :: 0 <= i < |nds| ==> r[i] == UnlockNode(nds[i], snapshot, edges, targets)
  {
    if nds == [] then []
    else [UnlockNode(nds[0], snapshot, edges, targets)] + UnlockEach(nds[1..], snapshot, edges, targets)
  }

  /** `nodeId` is the target of an edge leaving `completedId`. */
  ghost predicate IsDependentOf(edges: seq<SkillEdge>, completedId: string, nodeId: string) {
    exists e :: e in edges && e.source == completedId && e.target == nodeId
  }

  /** Every edge entering `nodeId` comes from a node that is Completed in the
      snapshot. */
  ghost predicate PrerequisitesMet(snapshot: seq<SkillNode>, edges: seq<SkillEdge>, nodeId: string) {
    forall e :: e in edges && e.target == nodeId ==> IsCompletedIn(snapshot, e.source)
  }

  /** The unlock rule stated on its own: a Locked direct dependent of the
      completed node whose prerequisites are all Completed. */
  ghost predicate Unlocks(snapshot: seq<SkillNode>, edges: seq<SkillEdge>, completedId: string, n: SkillNode) {
    IsDependentOf(edges, completedId, n.id) && n.data.status == Locked && PrerequisitesMet(snapshot, edges, n.id)
  }

  /** One non-transitive pass after `completedId` was completed: each node
      that satisfies the unlock rule becomes Available, every other node is
      returned as it was. */
  function UnlockNextNodes(nds: seq<SkillNode>, edges: seq<SkillEdge>, completedId: string): (r: seq<SkillNode>)
    ensures |r| == |nds|
    ensures forall i :: 0 <= i < |nds| ==>
              r[i] == if Unlocks(nds, edges, completedId, nds[i]) then WithStatus(nds[i], Available) else nds[i]
  {
    var targets := Targets(edges, completedId);
    var r := UnlockEach(nds, nds, edges, targets);
    assert forall i :: 0 <= i < |nds| ==>
      (nds[i].id in targets <==> IsDependentOf(edges, completedId, nds[i].id));
    assert forall i :: 0 <= i < |nds| ==>
      (AllCompleted(Prerequisites(edges, nds[i].id), nds) <==> PrerequisitesMet(nds, edges, nds[i].id));
    r
  }

  /** A node changes in the pass exactly when the unlock rule holds for it,
      and then only from Locked to Available. */
  lemma UnlockChangesExactly(nds: seq<SkillNode>, edges: seq<SkillEdge>, completedId: string, i: nat)
    requires i < |nds|
    ensures var r := UnlockNextNodes(nds, edges, completedId);
            (r[i] != nds[i] <==> Unlocks(nds, edges, completedId, nds[i]))
            && r[i].id == nds[i].id
            && (r[i] != nds[i] ==> nds[i].data.status == Locked && r[i].data == nds[i].data.(status := Available))
  {
  }

  /** A prerequisite id that names no node blocks the unlock. */
  lemma MissingPrerequisiteBlocks(nds: seq<SkillNode>, edges: seq<SkillEdge>, completedId: string, i: nat, e: SkillEdge)
    requires i < |nds|
    requires e in edges && e.target == nds[i].id && !HasNode(nds, e.source)
    ensures UnlockNextNodes(nds, edges, completedId)[i] == nds[i]
  {
    forall j | 0 <= j < |nds| ensures nds[j].id != e.source {
      assert nds[j] in nds;
    }
  }

  /** The pass neither creates nor removes a Completed node, so nothing it
      unlocks can satisfy a prerequisite in the same pass. */
  lemma UnlockKeepsCompleted(nds: seq<SkillNode>, edges: seq<SkillEdge>, completedId: string)
    ensures var r := UnlockNextNodes(nds, edges, completedId);
            forall id :: IsCompletedIn(r, id) <==> IsCompletedIn(nds, id)
  {
    var r := UnlockNextNodes(nds, edges, completedId);
    forall id ensures IsCompletedIn(r, id) <==> IsCompletedIn(nds, id) {
      FirstIndexSameIds(r, nds, id);
    }
  }

  /** Running the pass twice for the same completion changes nothing more. */
  lemma UnlockIdempotent(nds: seq<SkillNode>, edges: seq<SkillEdge>, completedId: string)
    ensures var r := UnlockNextNodes(nds, edges, completedId);
            UnlockNextNodes(r, edges, completedId) == r
  {
    var r := UnlockNextNodes(nds, edges, completedId);
    var r2 := UnlockNextNodes(r, edges, completedId);
    UnlockKeepsCompleted(nds, edges, completedId);
    forall i | 0 <= i < |r| ensures r2[i] == r[i] {
      if Unlocks(r, edges, completedId, r[i]) {
        assert r[i] == nds[i];
        assert PrerequisitesMet(nds, edges, nds[i].id);
      }
    }
  }

  /** The decision for a node does not depend on where the node stands in the
      list: reordering a list with unique ids reorders the result the same way. */
  lemma UnlockOrderIndependent(a: seq<SkillNode>, b: seq<SkillNode>, edges: seq<SkillEdge>, completedId: string)
    requires UniqueIds(a)
    requires forall n :: n in a <==> n in b
    ensures forall i, j :: 0 <= i < |a| && 0 <= j < |b| && a[i] == b[j] ==>
              UnlockNextNodes(a, edges, completedId)[i] == UnlockNextNodes(b, edges, completedId)[j]
  {
    forall id ensures IsCompletedIn(a, id) <==> IsCompletedIn(b, id) {
      SameLookup(a, b, id);
    }
  }

  lemma SameLookup(a: seq<SkillNode>, b: seq<SkillNode>, id: string)
    requires UniqueIds(a)
    requires forall n :: n in a <==> n in b
    ensures FindNode(a, id) == FindNode(b, id)
  {
    var fb := FindNode(b, id);
    if fb.Some? {
      var k :| 0 <= k < |a| && a[k] == fb.value;
      FindNodeUnique(a, k);
    } else {
      forall i | 0 <= i < |a| ensures a[i].id != id {
        assert a[i] in b;
      }
    }
  }

  // ---------------------------------------------------------------------
  // The whole handler: status change, then the scheduled pass
  // ---------------------------------------------------------------------

  /** A status change followed, when it was scheduled, by the unlock pass for
      the same id against the changed node list. */
  function StatusTransition(nds: seq<SkillNode>, edges: seq<SkillEdge>, stats: UserStats, id: string, newStatus: SkillStatus): (r: StatusChange)
    ensures |r.nodes| == |nds|
    ensures r.stats == ChangeStatus(nds, stats, id, newStatus).stats
    ensures forall i :: 0 <= i < |nds| ==> r.nodes[i].id == nds[i].id
    ensures forall i :: 0 <= i < |nds| && nds[i].id == id ==> r.nodes[i].data == nds[i].data.(status := newStatus)
    ensures forall i :: 0 <= i < |nds| && nds[i].id != id && nds[i].data.status != Locked ==> r.nodes[i] == nds[i]
    ensures forall i :: 0 <= i < |nds| && nds[i].id != id && nds[i].data.status == Locked ==>
              r.nodes[i] == nds[i] || r.nodes[i] == WithStatus(nds[i], Available)
    ensures !r.cascade ==> r.nodes == ChangeStatus(nds, stats, id, newStatus).nodes && r.stats == stats
    ensures r.cascade == ChangeStatus(nds, stats, id, newStatus).cascade
    ensures r.cascade ==> forall i :: 0 <= i < |nds| && nds[i].id != id ==>
              r.nodes[i] == if Unlocks(ChangeStatus(nds, stats, id, newStatus).nodes, edges, id, nds[i])
                            then WithStatus(nds[i], Available) else nds[i]
  {
    var c := ChangeStatus(nds, stats, id, newStatus);
    if c.cascade then
      // The pass runs only after a completion, and it leaves the now Completed
      // nodes carrying `id` alone.
      ChangeStatusCascade(nds, stats, id, newStatus);
      assert newStatus == Completed;
      c.(nodes := UnlockNextNodes(c.nodes, edges, id))
    else c
  }

  /** Totals never decrease through a status change, and a consistent
      profile stays consistent. */
  lemma StatusTransitionMonotone(nds: seq<SkillNode>, edges: seq<SkillEdge>, stats: UserStats, id: string, newStatus: SkillStatus)
    requires StatsConsistent(stats)
    ensures var s := StatusTransition(nds, edges, stats, id, newStatus).stats;
            StatsConsistent(s) && s.totalXp >= stats.totalXp && s.completedSkills >= stats.completedSkills
            && s.level >= stats.level
  {
  }

  /** With unique ids, a change sets the node found to the new status, keeps
      the ids unique, and changes the profile by that node's award alone. */
  lemma TransitionOnUnique(nds: seq<SkillNode>, edges: seq<SkillEdge>, stats: UserStats, i: nat, newStatus: SkillStatus)
    requires UniqueIds(nds) && i < |nds|
    ensures var xp := XpGained(nds[i].data.status, newStatus, nds[i].data.xpReward);
            var r := StatusTransition(nds, edges, stats, nds[i].id, newStatus);
            && UniqueIds(r.nodes) && |r.nodes| == |nds|
            && r.nodes[i].data == nds[i].data.(status := newStatus)
            && r.stats == (if xp > 0 then AwardXp(stats, xp) else stats)
            && r.cascade == (xp > 0)
  {
    var id := nds[i].id;
    FindNodeUnique(nds, i);
    ChangeStatusSingleAward(nds, stats, id, newStatus, nds[i]);
  }

  /** Completing a node, putting it back in focus and completing it again
      awards its reward twice: the handler keeps no record of earlier
      awards. */
  lemma RecompletionAwardsAgain(nds: seq<SkillNode>, edges: seq<SkillEdge>, stats: UserStats, i: nat)
    requires UniqueIds(nds) && i < |nds| && nds[i].data.status != Completed && nds[i].data.xpReward > 0
    ensures var id := nds[i].id;
            var x := nds[i].data.xpReward;
            var a := StatusTransition(nds, edges, stats, id, Completed);
            var b := StatusTransition(a.nodes, edges, a.stats, id, InProgress);
            var c := StatusTransition(b.nodes, edges, b.stats, id, Completed);
            && a.stats == AwardXp(stats, x)
            && b.stats == a.stats && !b.cascade
            && c.stats == AwardXp(AwardXp(stats, x), x) && c.cascade
  {
    var id := nds[i].id;
    var a := StatusTransition(nds, edges, stats, id, Completed);
    TransitionOnUnique(nds, edges, stats, i, Completed);
    var b := StatusTransition(a.nodes, edges, a.stats, id, InProgress);
    TransitionOnUnique(a.nodes, edges, a.stats, i, InProgress);
    TransitionOnUnique(b.nodes, edges, b.stats, i, Completed);
  }
}
