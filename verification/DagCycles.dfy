/** Graphs with a cycle: they never return, and when their nodes are never launched. */
module DagCycles {
  import opened Common
  import opened DagModel
  import opened DagInvariants
  import opened DagProgress

  /** Every node of `c` has a parent in `c`: what it means for `c` to hold a cycle. */
  ghost predicate Cyclic(g: Graph, c: set<NodeId>) {
    && c != {} && c <= g.nodes.Keys
    && forall n {:trigger ParentInside(g, c, n)} :: n in c ==> ParentInside(g, c, n)
  }

  ghost predicate ParentInside(g: Graph, c: set<NodeId>, n: NodeId) {
    exists p :: p in c && p in ParentsOf(g, n)
  }

  predicate Untouched(c: Cell) {
    c.status.Pending? && c.attempts == 0 && c.child.None?
  }

  ghost predicate Stuck(g: Graph, s: RunState, c: set<NodeId>)
    requires WellFormed(g, s) && c <= g.nodes.Keys
  {
    || (forall n :: n in c ==> Untouched(s.cells[n]))
    || (exists n :: n in c && s.cells[n].status.Stopped?)
  }

  lemma StuckStep(g: Graph, s: RunState, l: Label, c: set<NodeId>)
    requires EdgesInside(g) && WellFormed(g, s) && Cyclic(g, c) && Stuck(g, s, c)
    ensures Stuck(g, Apply(g, s, l), c)
  {
    var r := Apply(g, s, l);
    if n :| n in c && s.cells[n].status.Stopped? {
      assert r.cells[n].status.Stopped?;
    } else if l.node in c {
      assert ParentInside(g, c, l.node);
      var p :| p in c && p in ParentsOf(g, l.node);
      assert Untouched(s.cells[p]) && Untouched(s.cells[l.node]);
      assert !ParentsDone(g, s, l.node);
      assert r.cells[l.node].status.Stopped? || r.cells[l.node] == s.cells[l.node];
    }
  }

  lemma {:induction false} CycleStaysStuck(g: Graph, c: set<NodeId>, ls: seq<Label>)
    requires EdgesInside(g) && Cyclic(g, c)
    ensures Stuck(g, Exec(g, Fresh(g), ls), c)
  {
    if |ls| > 0 {
      CycleStaysStuck(g, c, ls[..|ls| - 1]);
      StuckStep(g, Exec(g, Fresh(g), ls[..|ls| - 1]), ls[|ls| - 1], c);
    }
  }

  /** A run of a graph with a cycle never returns: its nodes are never all in SUCCESS. */
  lemma CyclicGraphNeverReturns(g: Graph, c: set<NodeId>, ls: seq<Label>)
    requires EdgesInside(g) && Cyclic(g, c)
    ensures SuccessSet(g, Exec(g, Fresh(g), ls)) != g.nodes.Keys
  {
    CycleStaysStuck(g, c, ls);
    var s := Exec(g, Fresh(g), ls);
    var n :| n in c && (s.cells[n].status.Stopped? || Untouched(s.cells[n]));
    assert n !in SuccessSet(g, s);
  }

  // ------------------------------------------------------------- cycles and ranks

  /** The nodes ranked so far, all their parents included, with smaller ranks. */
  ghost predicate RankedSoFar(g: Graph, rank: map<NodeId, nat>) {
    && rank.Keys <= g.nodes.Keys
    && forall n :: n in rank ==> rank[n] < |rank| && ParentsRanked(g, rank, n)
  }

  ghost predicate ParentsRanked(g: Graph, rank: map<NodeId, nat>, n: NodeId)
    requires n in rank
  {
    forall p :: p in ParentsOf(g, n) ==> p in rank && rank[p] < rank[n]
  }

  lemma RankOneMore(g: Graph, rank: map<NodeId, nat>, n: NodeId)
    requires RankedSoFar(g, rank) && n in g.nodes && n !in rank && ParentsOf(g, n) <= rank.Keys
    ensures RankedSoFar(g, rank[n := |rank|])
  {
    var more := rank[n := |rank|];
    assert more.Keys == rank.Keys + {n} && |more.Keys| == |rank.Keys| + 1;
    forall m | m in more
      ensures more[m] < |more| && ParentsRanked(g, more, m)
    {
      if m != n {
        assert ParentsRanked(g, rank, m);
      }
    }
  }

  lemma OneLess(all: set<NodeId>, done: set<NodeId>, n: NodeId)
    requires n in all && n !in done
    ensures |all - (done + {n})| < |all - done|
  {
    assert all - (done + {n}) == (all - done) - {n};
  }

  lemma AllRanked(g: Graph, rank: map<NodeId, nat>)
    requires RankedSoFar(g, rank) && g.nodes.Keys - rank.Keys == {}
    ensures Ranks(g, rank)
  {
    forall n | n in g.nodes
      ensures n in rank
    {
      assert n !in g.nodes.Keys - rank.Keys;
    }
    assert forall n :: n in rank ==> ParentsRanked(g, rank, n);
  }

  lemma RestIsCyclic(g: Graph, rank: map<NodeId, nat>, rest: set<NodeId>)
    requires EdgesInside(g) && rest == g.nodes.Keys - rank.Keys && rest != {}
    requires forall n :: n in rest ==> !(ParentsOf(g, n) <= rank.Keys)
    ensures Cyclic(g, rest)
  {
    forall n | n in rest
      ensures ParentInside(g, rest, n)
    {
      var p :| p in ParentsOf(g, n) && p !in rank.Keys;
      assert p in rest;
    }
  }

  /** Nodes whose parents are ranked are ranked next, until all are, or the others hold a cycle. */
  lemma {:induction false} RankOrCycle(g: Graph, rank: map<NodeId, nat>)
    requires EdgesInside(g) && RankedSoFar(g, rank)
    ensures Acyclic(g) || exists c :: Cyclic(g, c)
    decreases |g.nodes.Keys - rank.Keys|
  {
    var rest := g.nodes.Keys - rank.Keys;
    if n :| n in rest && ParentsOf(g, n) <= rank.Keys {
      RankOneMore(g, rank, n);
      OneLess(g.nodes.Keys, rank.Keys, n);
      RankOrCycle(g, rank[n := |rank|]);
    } else if rest == {} {
      AllRanked(g, rank);
    } else {
      RestIsCyclic(g, rank, rest);
    }
  }

  /** A parent chain inside `c` would need ever smaller ranks. */
  lemma {:induction false} NoRankOnCycle(g: Graph, rank: map<NodeId, nat>, c: set<NodeId>, n: NodeId)
    requires Ranks(g, rank) && Cyclic(g, c) && n in c
    ensures false
    decreases rank[n]
  {
    assert ParentInside(g, c, n);
    var p :| p in c && p in ParentsOf(g, n);
    NoRankOnCycle(g, rank, c, p);
  }

  /** A graph has a cycle exactly when it has no ranking. */
  lemma {:induction false} CyclicOrAcyclic(g: Graph)
    requires EdgesInside(g)
    ensures Acyclic(g) <==> !exists c :: Cyclic(g, c)
  {
    RankOrCycle(g, map[]);
    if c, rank :| Cyclic(g, c) && Ranks(g, rank) {
      var n :| n in c;
      NoRankOnCycle(g, rank, c, n);
    }
  }

  /** So a run whose nodes all succeed is a run of an acyclic graph. */
  lemma OnlyAcyclicGraphsReturn(g: Graph, ls: seq<Label>)
    requires EdgesInside(g) && SuccessSet(g, Exec(g, Fresh(g), ls)) == g.nodes.Keys
    ensures Acyclic(g)
  {
    CyclicOrAcyclic(g);
    if c :| Cyclic(g, c) {
      CyclicGraphNeverReturns(g, c, ls);
    }
  }

  predicate NeverLaunched(c: Cell) {
    c.attempts == 0 && c.child.None? && (c.status.Pending? || c.status.Stopped?)
  }

  // ------------------------------------------ when nodes on a cycle are never launched

  /**
   Nodes that keep each other waiting: each has a parent among them, and those that do not continue
   on failure have no parent elsewhere that could stop them.
   */
  ghost predicate Trap(g: Graph, u: set<NodeId>) {
    && u <= g.nodes.Keys
    && forall n {:trigger ParentInside(g, u, n)} :: n in u ==>
         ParentInside(g, u, n) && (g.nodes[n].continueOnFail || ParentsOf(g, n) <= u)
  }

  /** Every node of `c` that continues on failure waits for a parent in the trap. */
  ghost predicate Guards(g: Graph, u: set<NodeId>, c: set<NodeId>)
    requires c <= g.nodes.Keys
  {
    forall n {:trigger ParentInside(g, u, n)} :: n in c && g.nodes[n].continueOnFail ==> ParentInside(g, u, n)
  }

  /** The trap is untouched, and no node of `c` was launched. */
  ghost predicate Held(g: Graph, s: RunState, u: set<NodeId>, c: set<NodeId>)
    requires WellFormed(g, s) && u <= g.nodes.Keys && c <= g.nodes.Keys
  {
    && (forall n :: n in u ==> Untouched(s.cells[n]))
    && (forall n :: n in c ==> NeverLaunched(s.cells[n]))
  }

  lemma TrappedWaits(g: Graph, s: RunState, u: set<NodeId>, n: NodeId)
    requires EdgesInside(g) && WellFormed(g, s) && Trap(g, u) && n in u
    requires forall m :: m in u ==> Untouched(s.cells[m])
    ensures Decide(g, s, n).Wait?
  {
    assert ParentInside(g, u, n);
    var p :| p in u && p in ParentsOf(g, n);
    assert Untouched(s.cells[p]);
    assert !ParentsDone(g, s, n);
    assert !g.nodes[n].continueOnFail ==> !FailedParent(g, s, n);
  }

  lemma GuardedIsNotLaunched(g: Graph, s: RunState, u: set<NodeId>, c: set<NodeId>, n: NodeId)
    requires EdgesInside(g) && WellFormed(g, s) && Trap(g, u) && Cyclic(g, c) && Guards(g, u, c) && n in c
    requires Held(g, s, u, c)
    ensures !Decide(g, s, n).Launch?
  {
    if g.nodes[n].continueOnFail {
      assert ParentInside(g, u, n);
      var p :| p in u && p in ParentsOf(g, n);
      assert Untouched(s.cells[p]);
    } else {
      assert ParentInside(g, c, n);
      var p :| p in c && p in ParentsOf(g, n);
      assert NeverLaunched(s.cells[p]);
    }
    assert !ParentsDone(g, s, n);
  }

  lemma HeldStep(g: Graph, s: RunState, l: Label, u: set<NodeId>, c: set<NodeId>)
    requires EdgesInside(g) && WellFormed(g, s) && Trap(g, u) && Cyclic(g, c) && Guards(g, u, c)
    requires Held(g, s, u, c)
    ensures Held(g, Apply(g, s, l), u, c)
  {
    if l.node in u {
      TrappedWaits(g, s, u, l.node);
      assert Untouched(s.cells[l.node]);
    } else if l.node in c {
      GuardedIsNotLaunched(g, s, u, c, l.node);
      assert NeverLaunched(s.cells[l.node]);
    }
  }

  /** A guarded cycle is held through any run. */
  lemma {:induction false} TrapHolds(g: Graph, u: set<NodeId>, c: set<NodeId>, ls: seq<Label>)
    requires EdgesInside(g) && Trap(g, u) && Cyclic(g, c) && Guards(g, u, c)
    ensures Held(g, Exec(g, Fresh(g), ls), u, c)
  {
    if |ls| > 0 {
      TrapHolds(g, u, c, ls[..|ls| - 1]);
      HeldStep(g, Exec(g, Fresh(g), ls[..|ls| - 1]), ls[|ls| - 1], u, c);
    }
  }

  lemma {:induction false} Listing(s: set<NodeId>) returns (order: seq<NodeId>)
    ensures forall n :: n in order <==> n in s
    ensures forall i, j :: 0 <= i < j < |order| ==> order[i] != order[j]
  {
    if s == {} {
      order := [];
    } else {
      var n :| n in s;
      order := Listing(s - {n});
      order := order + [n];
    }
  }

  /** No node has succeeded. */
  ghost predicate AllFail(g: Graph, s: RunState)
    requires WellFormed(g, s)
  {
    forall n :: n in g.nodes ==> !IsSuccess(s.cells[n].status)
  }

  /** No child is live, and the launch loop has nothing to do. */
  ghost predicate Quiet(g: Graph, s: RunState)
    requires WellFormed(g, s) && EdgesInside(g)
  {
    forall n :: n in g.nodes ==> !Tracked(s.cells[n]) && Decide(g, s, n).Wait?
  }

  /** While a run is not quiet some node can be moved without success: its child fails, or it is visited. */
  lemma FailingMove(g: Graph, s: RunState) returns (l: Label)
    requires EdgesInside(g) && Sound(g, s) && AllFail(g, s) && !Quiet(g, s)
    ensures Moves(g, s, l) && AllFail(g, Apply(g, s, l))
  {
    var n :| n in g.nodes && (Tracked(s.cells[n]) || !Decide(g, s, n).Wait?);
    assert SoundCell(g.nodes[n], s.cells[n]);
    l := if Tracked(s.cells[n]) then Poll(n, Reports(Failed), 0) else Visit(n, 0, 0);
  }

  /** So a run in which every child fails can be continued until it is quiet. */
  lemma {:induction false} FailingRun(g: Graph, order: seq<NodeId>, ls: seq<Label>) returns (all: seq<Label>)
    requires EdgesInside(g) && Enumerates(g, order)
    requires Sound(g, Exec(g, Fresh(g), ls)) && AllFail(g, Exec(g, Fresh(g), ls))
    ensures var s := Exec(g, Fresh(g), all); Sound(g, s) && AllFail(g, s) && Quiet(g, s)
    decreases Measure(g, Exec(g, Fresh(g), ls), order)
  {
    var s := Exec(g, Fresh(g), ls);
    if Quiet(g, s) {
      return ls;
    }
    var l := FailingMove(g, s);
    ExecSnoc(g, Fresh(g), ls, l);
    MeasureStep(g, s, l, order);
    SoundExec(g, s, [l]);
    ExecSnoc(g, s, [], l);
    assert [] + [l] == [l];
    all := FailingRun(g, order, ls + [l]);
  }

  /** The nodes that such a run leaves unfinished are a trap. */
  lemma UnfinishedIsTrap(g: Graph, s: RunState) returns (u: set<NodeId>)
    requires EdgesInside(g) && Sound(g, s) && AllFail(g, s) && Quiet(g, s)
    ensures Trap(g, u) && forall n :: n in u <==> n in g.nodes && s.cells[n].status.Pending?
  {
    u := set n | n in g.nodes && s.cells[n].status.Pending?;
    forall n | n in u
      ensures ParentInside(g, u, n) && (g.nodes[n].continueOnFail || ParentsOf(g, n) <= u)
    {
      assert Decide(g, s, n).Wait? && !ParentsDone(g, s, n);
      assert !g.nodes[n].continueOnFail ==> !FailedParent(g, s, n);
      forall p | p in ParentsOf(g, n)
        ensures p in u || (IsTerminal(s.cells[p].status) && !IsSuccess(s.cells[p].status))
      {
        assert SoundCell(g.nodes[p], s.cells[p]) && !Tracked(s.cells[p]);
      }
      assert exists p :: p in ParentsOf(g, n) && p in u;
    }
  }

  /** A node that continues on failure is never stopped without a launch. */
  lemma {:induction false} ContinuesUnstopped(g: Graph, n: NodeId, ls: seq<Label>)
    requires EdgesInside(g) && n in g.nodes && g.nodes[n].continueOnFail
    ensures var cell := Exec(g, Fresh(g), ls).cells[n]; cell.child.None? ==> cell.status.Pending?
  {
    if |ls| > 0 {
      ContinuesUnstopped(g, n, ls[..|ls| - 1]);
    }
  }

  /** No run launches any of these nodes. */
  ghost predicate NoRunLaunches(g: Graph, c: set<NodeId>)
    requires EdgesInside(g) && c <= g.nodes.Keys
  {
    forall ls: seq<Label>, n :: n in c ==> NeverLaunched(Exec(g, Fresh(g), ls).cells[n])
  }

  lemma {:induction false} UnlaunchedIsGuarded(g: Graph, c: set<NodeId>) returns (u: set<NodeId>)
    requires EdgesInside(g) && c <= g.nodes.Keys && NoRunLaunches(g, c)
    ensures Trap(g, u) && Guards(g, u, c)
  {
    var order := Listing(g.nodes.Keys);
    var ls := FailingRun(g, order, []);
    u := UnfinishedIsTrap(g, Exec(g, Fresh(g), ls));
    forall n | n in c && g.nodes[n].continueOnFail
      ensures ParentInside(g, u, n)
    {
      assert NeverLaunched(Exec(g, Fresh(g), ls).cells[n]);
      ContinuesUnstopped(g, n, ls);
      assert n in u;
    }
  }

  /**
   The nodes of a cycle are never launched if and only if a trap guards those of them that continue on
   failure: nodes that nothing outside can stop, among which each of these has a parent.
   */
  lemma {:induction false} CycleIsNeverLaunchedExactly(g: Graph, c: set<NodeId>)
    requires EdgesInside(g) && Cyclic(g, c)
    ensures NoRunLaunches(g, c) <==> exists u :: Trap(g, u) && Guards(g, u, c)
  {
    if NoRunLaunches(g, c) {
      var u := UnlaunchedIsGuarded(g, c);
    } else if u :| Trap(g, u) && Guards(g, u, c) {
      forall ls: seq<Label>, n | n in c
        ensures NeverLaunched(Exec(g, Fresh(g), ls).cells[n])
      {
        TrapHolds(g, u, c, ls);
      }
    }
  }

  /** In particular, no node of a cycle on which no node continues on failure is ever launched. */
  lemma CycleIsNeverLaunched(g: Graph, c: set<NodeId>, ls: seq<Label>)
    requires EdgesInside(g) && Cyclic(g, c)
    requires forall n :: n in c ==> !g.nodes[n].continueOnFail
    ensures forall n :: n in c ==> NeverLaunched(Exec(g, Fresh(g), ls).cells[n])
  {
    assert Trap(g, {}) && Guards(g, {}, c);
    TrapHolds(g, {}, c, ls);
  }

  /** 0 has no parents, 1 has parents 0 and 2, and 2, which continues on failure, has parent 1. */
  const LOOP: Graph := Graph(
    map[0 := Config(0, false, 0), 1 := Config(0, false, 0), 2 := Config(0, true, 0)],
    map[1 := {0, 2}, 2 := {1}])

  lemma LoopFailsOutside(s: RunState) returns (r: RunState)
    requires EdgesInside(LOOP) && s == Fresh(LOOP)
    ensures r == Exec(LOOP, s, [Visit(0, 10, 0), Poll(0, Reports(Failed), 1)])
    ensures r.cells[0].status.Failed? && r.cells[1] == s.cells[1] && r.cells[2] == s.cells[2]
  {
    var l0, l1 := Visit(0, 10, 0), Poll(0, Reports(Failed), 1);
    assert [] + [l0] == [l0] && [l0] + [l1] == [l0, l1];
    ExecSnoc(LOOP, s, [], l0);
    assert Decide(LOOP, s, 0).Launch?;
    ExecSnoc(LOOP, s, [l0], l1);
    r := Exec(LOOP, s, [l0, l1]);
  }

  lemma LoopIsCyclic()
    ensures EdgesInside(LOOP) && Cyclic(LOOP, {1, 2})
  {
    assert 2 in ParentsOf(LOOP, 1) && ParentInside(LOOP, {1, 2}, 1);
    assert 1 in ParentsOf(LOOP, 2) && ParentInside(LOOP, {1, 2}, 2);
  }

  lemma LoopStopsThenLaunches(s: RunState)
    requires EdgesInside(LOOP) && WellFormed(LOOP, s)
    requires s.cells[0].status.Failed? && s.cells[1].status.Pending? && s.cells[2].status.Pending?
    ensures Apply(LOOP, Apply(LOOP, s, Visit(1, 11, 2)), Visit(2, 12, 3)).cells[2].attempts > 0
  {
    assert Decide(LOOP, s, 1).Block? by {
      assert 0 in ParentsOf(LOOP, 1);
    }
    var r := Apply(LOOP, s, Visit(1, 11, 2));
    assert ParentsOf(LOOP, 2) == {1} && r.cells[1].status.Stopped?;
    assert Decide(LOOP, r, 2).Launch?;
  }

  /**
   A node on a cycle is launched when it continues on failure and its parent on the cycle was
   stopped by a failed node outside the cycle.
   */
  lemma LaunchOnCycle()
    ensures EdgesInside(LOOP) && Cyclic(LOOP, {1, 2})
    ensures exists ls :: Exec(LOOP, Fresh(LOOP), ls).cells[2].attempts > 0
  {
    LoopIsCyclic();
    var s := LoopFailsOutside(Fresh(LOOP));
    var ls := [Visit(0, 10, 0), Poll(0, Reports(Failed), 1)];
    LoopStopsThenLaunches(s);
    ExecSnoc(LOOP, Fresh(LOOP), ls, Visit(1, 11, 2));
    ExecSnoc(LOOP, Fresh(LOOP), ls + [Visit(1, 11, 2)], Visit(2, 12, 3));
  }
}
