/** What the engine does on the built-in templates (constants.ts with
    the handlers of index.tsx). */
module Scenarios {
  import opened SkillTypes
  import Constants
  import Progression
  import Sidebar
  import App

  /** The status of each node, in list order. */
  function Statuses(nds: seq<SkillNode>): seq<SkillStatus> {
    seq(|nds|, i requires 0 <= i < |nds| => nds[i].data.status)
  }

  /** The frontend template's shape: only node 1 starts Available; 2 and 3
      depend on 1 alone, 4 on 2 and 3. */
  lemma FrontendShape()
    ensures var t := Constants.FrontendTemplate();
            && Statuses(t.nodes) == [Available, Locked, Locked, Locked]
            && Progression.Targets(t.edges, "1") == ["2", "3"]
            && Progression.Prerequisites(t.edges, "2") == ["1"]
            && Progression.Prerequisites(t.edges, "3") == ["1"]
            && Progression.Prerequisites(t.edges, "4") == ["2", "3"]
  {
  }

  /** The data-science template: d1 Available, d2 Locked, one edge d1 -> d2. */
  lemma DataScienceShape()
    ensures var t := Constants.DataScienceTemplate();
            && Statuses(t.nodes) == [Available, Locked]
            && t.edges == [SkillEdge("ed1-2", "d1", "d2")]
            && Progression.Prerequisites(t.edges, "d2") == ["d1"]
  {
  }

  /** The frontend graph's shape with the node data left open: ids 1 to 4,
      edges 1 -> 2, 1 -> 3, 2 -> 4, 3 -> 4. */
  function Diamond(ds: seq<SkillNodeData>): (r: seq<SkillNode>)
    requires |ds| == 4
    ensures |r| == 4 && forall i :: 0 <= i < 4 ==> r[i].data == ds[i]
  {
    [SkillNode("1", ds[0]), SkillNode("2", ds[1]), SkillNode("3", ds[2]), SkillNode("4", ds[3])]
  }

  function DiamondIds(): seq<string> {
    ["1", "2", "3", "4"]
  }

  /** The data with the status of position k replaced. */
  function WithStatusAt(ds: seq<SkillNodeData>, k: nat, s: SkillStatus): (r: seq<SkillNodeData>)
    requires k < |ds|
    ensures |r| == |ds|
  {
    ds[k := ds[k].(status := s)]
  }

  /** Completing a not yet Completed node of the diamond awards its reward
      once and changes that node's status only. */
  lemma DiamondComplete(ds: seq<SkillNodeData>, k: nat, stats: UserStats)
    requires |ds| == 4 && k < 4 && ds[k].status != Completed && ds[k].xpReward > 0
    ensures Progression.ChangeStatus(Diamond(ds), stats, DiamondIds()[k], Completed)
            == Progression.StatusChange(Diamond(WithStatusAt(ds, k, Completed)), Progression.AwardXp(stats, ds[k].xpReward), true)
  {
    var nds := Diamond(ds);
    var id := DiamondIds()[k];
    assert nds[k].id == id;
    assert UniqueIds(nds);
    Progression.FindNodeUnique(nds, k);
    Progression.ChangeStatusSingleAward(nds, stats, id, Completed, nds[k]);
    var r := Progression.ChangeStatus(nds, stats, id, Completed);
    var want := Diamond(WithStatusAt(ds, k, Completed));
    forall i | 0 <= i < 4 ensures r.nodes[i] == want[i] {
      if i == k {
        assert nds[i].id == id;
      } else {
        assert nds[i].id != id;
      }
    }
  }

  function DiamondEdges(): seq<SkillEdge> {
    [SkillEdge("e1-2", "1", "2"), SkillEdge("e1-3", "1", "3"), SkillEdge("e2-4", "2", "4"), SkillEdge("e3-4", "3", "4")]
  }

  /** Who depends on whom in the diamond, and what each node requires. */
  lemma DiamondEdgeFacts()
    ensures var es := DiamondEdges();
            && Progression.IsDependentOf(es, "1", "2") && Progression.IsDependentOf(es, "1", "3")
            && !Progression.IsDependentOf(es, "1", "1") && !Progression.IsDependentOf(es, "1", "4")
            && Progression.IsDependentOf(es, "3", "4")
            && !Progression.IsDependentOf(es, "3", "1") && !Progression.IsDependentOf(es, "3", "2")
            && !Progression.IsDependentOf(es, "3", "3")
            && !Progression.IsDependentOf(es, "2", "1") && !Progression.IsDependentOf(es, "2", "2")
            && !Progression.IsDependentOf(es, "2", "3")
            && (forall e :: e in es && e.target == "2" ==> e.source == "1")
            && (forall e :: e in es && e.target == "3" ==> e.source == "1")
            && (forall e :: e in es && e.target == "4" ==> e.source == "2" || e.source == "3")
            && SkillEdge("e3-4", "3", "4") in es
  {
    var es := DiamondEdges();
    assert es[0] in es && es[1] in es && es[3] in es;
  }

  /** Assembles a four-node result from its positions. */
  lemma FourNodes(r: seq<SkillNode>, a: SkillNode, b: SkillNode, c: SkillNode, d: SkillNode)
    requires |r| == 4 && r[0] == a && r[1] == b && r[2] == c && r[3] == d
    ensures r == [a, b, c, d]
  {
  }

  /** After 1 is completed, the pass makes 2 and 3 Available; 4 needs 2 and 3. */
  lemma DiamondUnlockAfterOne(ds: seq<SkillNodeData>)
    requires |ds| == 4
    requires ds[0].status == Completed && ds[1].status == Locked && ds[2].status == Locked && ds[3].status == Locked
    ensures Progression.UnlockNextNodes(Diamond(ds), DiamondEdges(), "1")
            == Diamond(WithStatusAt(WithStatusAt(ds, 1, Available), 2, Available))
  {
    var mid := Diamond(ds);
    var es := DiamondEdges();
    var r := Progression.UnlockNextNodes(mid, es, "1");
    assert r[1] == WithStatus(mid[1], Available) && r[2] == WithStatus(mid[2], Available) by {
      DiamondEdgeFacts();
      assert Progression.IsCompletedIn(mid, "1");
      assert Progression.Unlocks(mid, es, "1", mid[1]);
      assert Progression.Unlocks(mid, es, "1", mid[2]);
    }
    assert r[3] == mid[3] by {
      DiamondEdgeFacts();
    }
    FourNodes(r, mid[0], WithStatus(mid[1], Available), WithStatus(mid[2], Available), mid[3]);
  }

  /** With 3 not Completed, completing 2 leaves 4 Locked. */
  lemma DiamondUnlockAfterTwo(ds: seq<SkillNodeData>)
    requires |ds| == 4 && ds[2].status != Completed
    ensures Progression.UnlockNextNodes(Diamond(ds), DiamondEdges(), "2") == Diamond(ds)
  {
    var mid := Diamond(ds);
    var es := DiamondEdges();
    var r := Progression.UnlockNextNodes(mid, es, "2");
    assert r[0] == mid[0] && r[1] == mid[1] && r[2] == mid[2] by {
      DiamondEdgeFacts();
    }
    assert r[3] == mid[3] by {
      DiamondEdgeFacts();
      assert !Progression.IsCompletedIn(mid, "3");
      assert !Progression.PrerequisitesMet(mid, es, "4");
    }
    FourNodes(r, mid[0], mid[1], mid[2], mid[3]);
  }

  /** With 2 and 3 Completed, node 4 (Locked) is one the pass from 3 opens. */
  lemma DiamondFourReady(ds: seq<SkillNodeData>)
    requires |ds| == 4
    requires ds[1].status == Completed && ds[2].status == Completed && ds[3].status == Locked
    ensures Progression.Unlocks(Diamond(ds), DiamondEdges(), "3", Diamond(ds)[3])
  {
    var mid := Diamond(ds);
    DiamondEdgeFacts();
    assert Progression.IsCompletedIn(mid, "2") && Progression.IsCompletedIn(mid, "3");
  }

  /** With 2 and 3 Completed and 4 Locked, completing 3 makes 4 Available. */
  lemma DiamondUnlockAfterThree(ds: seq<SkillNodeData>)
    requires |ds| == 4
    requires ds[1].status == Completed && ds[2].status == Completed && ds[3].status == Locked
    ensures Progression.UnlockNextNodes(Diamond(ds), DiamondEdges(), "3") == Diamond(WithStatusAt(ds, 3, Available))
  {
    var mid := Diamond(ds);
    var es := DiamondEdges();
    var r := Progression.UnlockNextNodes(mid, es, "3");
    assert r[0] == mid[0] && r[1] == mid[1] && r[2] == mid[2] by {
      DiamondEdgeFacts();
    }
    assert r[3] == WithStatus(mid[3], Available) by {
      DiamondFourReady(ds);
    }
    FourNodes(r, mid[0], mid[1], mid[2], WithStatus(mid[3], Available));
  }

  /** The data records of the frontend template. */
  function FrontendData(): (ds: seq<SkillNodeData>)
    ensures |ds| == 4 && Diamond(ds) == Constants.FrontendTemplate().nodes
    ensures DiamondEdges() == Constants.FrontendTemplate().edges
    ensures ds[0].status == Available && ds[1].status == Locked && ds[2].status == Locked && ds[3].status == Locked
    ensures ds[0].xpReward == 100 && ds[1].xpReward == 200 && ds[2].xpReward == 150
  {
    var n := Constants.FrontendTemplate().nodes;
    [n[0].data, n[1].data, n[2].data, n[3].data]
  }

  /** The three steps of the walkthrough on the diamond, each a full
      handler call: status change, award, unlock pass. */
  lemma DiamondStepOne(ds: seq<SkillNodeData>, stats: UserStats)
    requires |ds| == 4 && ds[0].xpReward > 0
    requires ds[0].status == Available && ds[1].status == Locked && ds[2].status == Locked && ds[3].status == Locked
    ensures Progression.StatusTransition(Diamond(ds), DiamondEdges(), stats, "1", Completed)
            == Progression.StatusChange(Diamond(WithStatusAt(WithStatusAt(WithStatusAt(ds, 0, Completed), 1, Available), 2, Available)),
                                        Progression.AwardXp(stats, ds[0].xpReward), true)
  {
    DiamondComplete(ds, 0, stats);
    DiamondUnlockAfterOne(WithStatusAt(ds, 0, Completed));
  }

  lemma DiamondStepTwo(ds: seq<SkillNodeData>, stats: UserStats)
    requires |ds| == 4 && ds[1].xpReward > 0 && ds[1].status != Completed && ds[2].status != Completed
    ensures Progression.StatusTransition(Diamond(ds), DiamondEdges(), stats, "2", Completed)
            == Progression.StatusChange(Diamond(WithStatusAt(ds, 1, Completed)), Progression.AwardXp(stats, ds[1].xpReward), true)
  {
    DiamondComplete(ds, 1, stats);
    DiamondUnlockAfterTwo(WithStatusAt(ds, 1, Completed));
  }

  lemma DiamondStepThree(ds: seq<SkillNodeData>, stats: UserStats)
    requires |ds| == 4 && ds[2].xpReward > 0 && ds[2].status != Completed
    requires ds[1].status == Completed && ds[3].status == Locked
    ensures Progression.StatusTransition(Diamond(ds), DiamondEdges(), stats, "3", Completed)
            == Progression.StatusChange(Diamond(WithStatusAt(WithStatusAt(ds, 2, Completed), 3, Available)),
                                        Progression.AwardXp(stats, ds[2].xpReward), true)
  {
    DiamondComplete(ds, 2, stats);
    DiamondUnlockAfterThree(WithStatusAt(ds, 2, Completed));
  }

  lemma DiamondStatuses(ds: seq<SkillNodeData>)
    requires |ds| == 4
    ensures Statuses(Diamond(ds)) == [ds[0].status, ds[1].status, ds[2].status, ds[3].status]
  {
  }

  /** The walkthrough on any diamond that starts like the frontend template:
      1 Available, the rest Locked, positive rewards. */
  lemma DiamondWalkthrough(ds: seq<SkillNodeData>, stats: UserStats)
    requires |ds| == 4 && ds[0].xpReward > 0 && ds[1].xpReward > 0 && ds[2].xpReward > 0
    requires ds[0].status == Available && ds[1].status == Locked && ds[2].status == Locked && ds[3].status == Locked
    ensures var a := Progression.StatusTransition(Diamond(ds), DiamondEdges(), stats, "1", Completed);
            var b := Progression.StatusTransition(a.nodes, DiamondEdges(), a.stats, "2", Completed);
            var c := Progression.StatusTransition(b.nodes, DiamondEdges(), b.stats, "3", Completed);
            && a.stats == Progression.AwardXp(stats, ds[0].xpReward)
            && Statuses(a.nodes) == [Completed, Available, Available, Locked]
            && b.stats == Progression.AwardXp(a.stats, ds[1].xpReward)
            && Statuses(b.nodes) == [Completed, Completed, Available, Locked]
            && c.stats == Progression.AwardXp(b.stats, ds[2].xpReward)
            && Statuses(c.nodes) == [Completed, Completed, Completed, Available]
  {
    var ds1 := WithStatusAt(WithStatusAt(WithStatusAt(ds, 0, Completed), 1, Available), 2, Available);
    var ds2 := WithStatusAt(ds1, 1, Completed);
    var ds3 := WithStatusAt(WithStatusAt(ds2, 2, Completed), 3, Available);
    var s1 := Progression.AwardXp(stats, ds[0].xpReward);
    var s2 := Progression.AwardXp(s1, ds[1].xpReward);
    DiamondStepOne(ds, stats);
    DiamondStepTwo(ds1, s1);
    DiamondStepThree(ds2, s2);
    DiamondStatuses(ds1);
    DiamondStatuses(ds2);
    DiamondStatuses(ds3);
  }

  /** Completing 1, then 2, then 3 on a fresh frontend session. After 1: 100
      XP, level 1, one completion, 2 and 3 Available, 4 Locked. After 2: 4
      still Locked. After 3: 450 XP and 4 Available. */
  lemma FrontendWalkthrough()
    ensures var t := Constants.FrontendTemplate();
            var a := Progression.StatusTransition(t.nodes, t.edges, App.InitialStats(), "1", Completed);
            var b := Progression.StatusTransition(a.nodes, t.edges, a.stats, "2", Completed);
            var c := Progression.StatusTransition(b.nodes, t.edges, b.stats, "3", Completed);
            && a.stats == UserStats(100, 1, 1, 1, 0)
            && Statuses(a.nodes) == [Completed, Available, Available, Locked]
            && Statuses(b.nodes) == [Completed, Completed, Available, Locked]
            && c.stats == UserStats(450, 1, 3, 1, 0)
            && Statuses(c.nodes) == [Completed, Completed, Completed, Available]
  {
    var t := Constants.FrontendTemplate();
    var ds := FrontendData();
    var s0 := App.InitialStats();
    assert t.nodes == Diamond(ds) && t.edges == DiamondEdges();
    DiamondWalkthrough(ds, s0);
    var s1 := Progression.AwardXp(s0, 100);
    var s2 := Progression.AwardXp(s1, 200);
    assert s1 == UserStats(100, 1, 1, 1, 0);
    assert Progression.LevelFor(300) == 1 && Progression.LevelFor(450) == 1;
    assert s2 == UserStats(300, 1, 2, 1, 0);
    assert Progression.AwardXp(s2, 150) == UserStats(450, 1, 3, 1, 0);
  }

  /** On a fresh frontend session, completing 1, focusing it and completing
      it again leaves 200 XP and two counted completions. */
  lemma FrontendRecompletion()
    ensures var t := Constants.FrontendTemplate();
            var a := Progression.StatusTransition(t.nodes, t.edges, App.InitialStats(), "1", Completed);
            var b := Progression.StatusTransition(a.nodes, t.edges, a.stats, "1", InProgress);
            var c := Progression.StatusTransition(b.nodes, t.edges, b.stats, "1", Completed);
            c.stats == UserStats(200, 1, 2, 1, 0)
  {
    var t := Constants.FrontendTemplate();
    var ds := FrontendData();
    var s0 := App.InitialStats();
    assert t.nodes == Diamond(ds) && t.edges == DiamondEdges();
    assert UniqueIds(Diamond(ds));
    Progression.RecompletionAwardsAgain(Diamond(ds), DiamondEdges(), s0, 0);
    var s1 := Progression.AwardXp(s0, 100);
    assert Progression.LevelFor(200) == 1;
    assert s1 == UserStats(100, 1, 1, 1, 0);
  }

  /** A chain 1 -> 2 -> 3 with data left open. */
  function Chain(ds: seq<SkillNodeData>): (r: seq<SkillNode>)
    requires |ds| == 3
    ensures |r| == 3 && forall i :: 0 <= i < 3 ==> r[i].data == ds[i]
  {
    [SkillNode("1", ds[0]), SkillNode("2", ds[1]), SkillNode("3", ds[2])]
  }

  function ChainEdges(): seq<SkillEdge> {
    [SkillEdge("e1-2", "1", "2"), SkillEdge("e2-3", "2", "3")]
  }

  /** The pass is not transitive: after 1 is completed in the chain
      1 -> 2 -> 3, node 2 becomes Available and node 3 stays Locked. */
  lemma ChainUnlockIsOneStep(ds: seq<SkillNodeData>)
    requires |ds| == 3 && ds[0].status == Completed && ds[1].status == Locked && ds[2].status == Locked
    ensures var r := Progression.UnlockNextNodes(Chain(ds), ChainEdges(), "1");
            r == [SkillNode("1", ds[0]), WithStatus(SkillNode("2", ds[1]), Available), SkillNode("3", ds[2])]
  {
    var nds := Chain(ds);
    var es := ChainEdges();
    var r := Progression.UnlockNextNodes(nds, es, "1");
    assert r[1] == WithStatus(nds[1], Available) by {
      assert es[0] in es;
      assert Progression.IsCompletedIn(nds, "1");
      assert Progression.Unlocks(nds, es, "1", nds[1]);
    }
    assert r[0] == nds[0] && r[2] == nds[2] by {
      assert !Progression.IsDependentOf(es, "1", "1");
      assert !Progression.IsDependentOf(es, "1", "3");
    }
  }

  /** Selecting the still Locked node 4 of a fresh frontend session shows the
      unlock notice, and neither button issues a request. */
  lemma FrontendLockedSelection(kind: Sidebar.ActionKind)
    ensures var sel := App.SelectedNode(Constants.FrontendTemplate().nodes, Some("4"));
            && Sidebar.Actions(sel) == Sidebar.UnlockNotice
            && Sidebar.Press(sel, kind) == None
  {
    var t := Constants.FrontendTemplate();
    Constants.FrontendWellFormed();
    Progression.FindNodeUnique(t.nodes, 3);
    assert t.nodes[3].id == "4";
  }

  /** The level changes exactly at multiples of 1000: 999 XP is level 1, 1000
      XP is level 2. */
  lemma LevelBoundary()
    ensures Progression.LevelFor(999) == 1 && Progression.LevelFor(1000) == 2
    ensures Sidebar.CurrentLevelXp(999) == 999 && Sidebar.CurrentLevelXp(1000) == 0
  {
  }
}
