/**
 What a poll makes of a node, in terms of what its child reports, and when children are launched and
 told to stop, over whole runs.
 */
module DagPolls {
  import opened Common
  import opened DagModel
  import opened DagInvariants

  /** The time since the child was started is over the node's limit, if it has one. */
  predicate TimeIsUp(g: Graph, s: RunState, n: NodeId, now: int)
    requires n in g.nodes && n in s.cells
  {
    g.nodes[n].timeout != 0 && now - s.cells[n].launchedAt > g.nodes[n].timeout
  }

  /** The node has failed with this status: it waits for another attempt, or keeps the status. */
  ghost predicate GaveUp(g: Graph, s: RunState, r: RunState, n: NodeId, status: Status)
    requires n in g.nodes && n in s.cells && n in r.cells
  {
    var c, d := s.cells[n], r.cells[n];
    && d.attempts == c.attempts && d.launchedAt == c.launchedAt
    && if c.attempts <= g.nodes[n].retries then d.status == Pending && d.child == None
       else d.status == status && d.child == c.child
  }

  /**
   A child in time that reports its status. A success is kept as it was reported; a failure is
   kept as it was reported, or the node waits for another attempt; anything else changes nothing
   but the error counter.
   */
  lemma ReportIsKept(g: Graph, s: RunState, n: NodeId, st: Status, now: int)
    requires EdgesInside(g) && Sound(g, s) && n in g.nodes
    requires s.cells[n].child.Some? && s.cells[n].status !in {Completed, Failed, Stopped, Closed, Published}
    requires !TimeIsUp(g, s, n, now)
    ensures var r := Apply(g, s, Poll(n, Reports(st), now));
            && r.cells[n].errors == 0
            && (st in {Completed, Closed, Published} ==>
                  && r.cells[n] == s.cells[n].(status := st, errors := 0)
                  && r.log == s.log + [Recorded(n, s.cells[n].child, st)])
            && (st in {Failed, Stopped} ==>
                  && GaveUp(g, s, r, n, st)
                  && r.log == s.log + [Recorded(n, s.cells[n].child, st)])
            && (st !in {Completed, Closed, Published, Failed, Stopped} ==>
                  r.cells[n] == s.cells[n].(errors := 0) && r.log == s.log)
  {
  }

  /** A child that reports after its time is told to stop and has failed, whatever it reports. */
  lemma LateReportFails(g: Graph, s: RunState, n: NodeId, st: Status, now: int)
    requires EdgesInside(g) && Sound(g, s) && n in g.nodes
    requires s.cells[n].child.Some? && s.cells[n].status !in {Completed, Failed, Stopped, Closed, Published}
    requires TimeIsUp(g, s, n, now)
    ensures var r := Apply(g, s, Poll(n, Reports(st), now));
            && r.cells[n].errors == 0 && GaveUp(g, s, r, n, Failed)
            && r.log == s.log + [Cancelled(s.cells[n].child.value), Recorded(n, s.cells[n].child, Failed)]
  {
  }

  /** A poll that raises is counted. Below five in a row that is all; at five the child has failed, and
      is told to stop if its time is up. */
  lemma ErrorsAreCounted(g: Graph, s: RunState, n: NodeId, now: int)
    requires EdgesInside(g) && Sound(g, s) && n in g.nodes
    requires s.cells[n].child.Some? && s.cells[n].status !in {Completed, Failed, Stopped, Closed, Published}
    ensures var r := Apply(g, s, Poll(n, Raises, now));
            var c := s.cells[n];
            && r.cells[n].errors == c.errors + 1
            && (c.errors + 1 < 5 ==> r.cells[n] == c.(errors := c.errors + 1) && r.log == s.log)
            && (c.errors + 1 >= 5 ==>
                  && GaveUp(g, s, r, n, Failed)
                  && r.log == s.log + (if TimeIsUp(g, s, n, now) then [Cancelled(c.child.value)] else [])
                              + [Recorded(n, c.child, Failed)])
  {
  }

  /** A node without a child, or finished, is not polled. */
  lemma NothingToPoll(g: Graph, s: RunState, n: NodeId, reply: Reply, now: int)
    requires EdgesInside(g) && WellFormed(g, s) && n in g.nodes
    requires s.cells[n].child.None? || s.cells[n].status in {Completed, Failed, Stopped, Closed, Published}
    ensures Apply(g, s, Poll(n, reply, now)) == s
  {
    assert s.cells[n := s.cells[n]] == s.cells;
  }

  // ------------------------------------------------------------------- visits

  /** A parent that has finished without success. */
  ghost predicate Ruined(g: Graph, s: RunState, n: NodeId)
    requires EdgesInside(g) && WellFormed(g, s) && n in g.nodes
  {
    exists p :: p in ParentsOf(g, n) && s.cells[p].status in {Failed, Stopped}
  }

  /** The inputs are the children of the successful parents that have one. */
  ghost predicate HandsOver(g: Graph, s: RunState, n: NodeId, inputs: map<NodeId, Handle>)
    requires EdgesInside(g) && WellFormed(g, s) && n in g.nodes
  {
    forall p ::
      && (p in inputs <==> p in ParentsOf(g, n) && s.cells[p].status in {Completed, Closed, Published} && s.cells[p].child.Some?)
      && (p in inputs ==> s.cells[p].child == Some(inputs[p]))
  }

  /**
   A visit of a pending node. It is stopped when a parent has failed and it does not continue on
   failure; launched when all its parents have succeeded, or have finished if it continues on failure;
   and left alone otherwise.
   */
  lemma VisitFollowsParents(g: Graph, s: RunState, n: NodeId, ticket: Handle, now: int)
    requires EdgesInside(g) && WellFormed(g, s) && n in g.nodes && s.cells[n].status == Pending
    ensures var r := Apply(g, s, Visit(n, ticket, now));
            var c, parents := s.cells[n], ParentsOf(g, n);
            var ready := if g.nodes[n].continueOnFail
                         then forall p :: p in parents ==> s.cells[p].status in {Completed, Failed, Stopped, Closed, Published}
                         else forall p :: p in parents ==> s.cells[p].status in {Completed, Closed, Published};
            if ready then
              && r.cells[n] == Cell(Queued, c.attempts + 1, Some(ticket), now, c.errors)
              && |r.log| == |s.log| + 2 && r.log[..|s.log|] == s.log
              && r.log[|s.log|].Launched? && r.log[|s.log|].node == n && r.log[|s.log|].child == ticket
              && HandsOver(g, s, n, r.log[|s.log|].inputs)
              && r.log[|s.log| + 1] == Recorded(n, Some(ticket), Queued)
            else if Ruined(g, s, n) && !g.nodes[n].continueOnFail then
              r.cells[n] == c.(status := Stopped) && r.log == s.log + [Recorded(n, None, Aborted)]
            else r == s
  {
    if Ruined(g, s, n) {
      var p :| p in ParentsOf(g, n) && s.cells[p].status in {Failed, Stopped};
      assert IsTerminal(s.cells[p].status) && !IsSuccess(s.cells[p].status);
    }
    assert s.cells[n := s.cells[n]] == s.cells;
  }

  /** A node that is not pending is passed over. */
  lemma NothingToVisit(g: Graph, s: RunState, n: NodeId, ticket: Handle, now: int)
    requires EdgesInside(g) && WellFormed(g, s) && n in g.nodes && s.cells[n].status != Pending
    ensures Apply(g, s, Visit(n, ticket, now)) == s
  {
    assert s.cells[n := s.cells[n]] == s.cells;
  }

  /** Neither touches another node. */
  lemma OthersUntouched(g: Graph, s: RunState, l: Label, m: NodeId)
    requires EdgesInside(g) && WellFormed(g, s) && m in g.nodes && m != l.node
    ensures Apply(g, s, l).cells[m] == s.cells[m]
  {
  }

  // ------------------------------------------------- when children are started and stopped

  /** Label `i` of the run launched this child for the node, at this time. */
  ghost predicate LaunchedBy(g: Graph, s0: RunState, ls: seq<Label>, i: nat, n: NodeId, child: Handle, time: int)
    requires WellFormed(g, s0) && EdgesInside(g) && n in g.nodes
  {
    && i < |ls| && ls[i] == Visit(n, child, time)
    && Exec(g, s0, ls[..i + 1]).cells[n].attempts == Exec(g, s0, ls[..i]).cells[n].attempts + 1
  }

  /** The child the node has was started at `launchedAt`: by the last launch, or at the restart that
      found it recorded. */
  ghost predicate StartedThen(g: Graph, restored: Restored, now: int, ls: seq<Label>, n: NodeId, c: Cell)
    requires EdgesInside(g) && n in g.nodes
  {
    var s0 := InitialState(g, restored, now);
    c.child.Some? ==>
      if c.attempts == 0 then n in restored && restored[n].0 == c.child.value && c.launchedAt == now
      else exists i: nat :: LaunchedBy(g, s0, ls, i, n, c.child.value, c.launchedAt)
                            && Exec(g, s0, ls[..i + 1]).cells[n].attempts == c.attempts
  }

  lemma StillStarted(g: Graph, s0: RunState, ls: seq<Label>, k: nat, i: nat, n: NodeId, child: Handle, time: int)
    requires WellFormed(g, s0) && EdgesInside(g) && n in g.nodes && i < k <= |ls|
    requires LaunchedBy(g, s0, ls[..k], i, n, child, time)
    ensures LaunchedBy(g, s0, ls, i, n, child, time) && ls[..k][..i + 1] == ls[..i + 1]
  {
    assert ls[..k][..i] == ls[..i] && ls[..k][..i + 1] == ls[..i + 1];
  }

  /** What a step makes of the child of a node: the launch of this label, the child it had, or none. */
  lemma ChildStep(g: Graph, s: RunState, l: Label, n: NodeId)
    requires WellFormed(g, s) && EdgesInside(g) && n in g.nodes
    ensures var c, d := s.cells[n], Apply(g, s, l).cells[n];
            || d.child.None?
            || (d.child == c.child && d.launchedAt == c.launchedAt && d.attempts == c.attempts)
            || (l.Visit? && l.node == n && d.child == Some(l.ticket) && d.launchedAt == l.now && d.attempts == c.attempts + 1)
  {
  }

  lemma {:induction false} ChildStartedThen(g: Graph, restored: Restored, now: int, ls: seq<Label>, n: NodeId)
    requires EdgesInside(g) && n in g.nodes
    ensures StartedThen(g, restored, now, ls, n, Exec(g, InitialState(g, restored, now), ls).cells[n])
  {
    var s0 := InitialState(g, restored, now);
    if |ls| > 0 {
      var k := |ls| - 1;
      var c, d := Exec(g, s0, ls[..k]).cells[n], Exec(g, s0, ls).cells[n];
      ChildStartedThen(g, restored, now, ls[..k], n);
      ChildStep(g, Exec(g, s0, ls[..k]), ls[k], n);
      assert ls[..k + 1] == ls;
      if d.child.None? {
      } else if d.attempts > c.attempts {
        assert LaunchedBy(g, s0, ls, k, n, d.child.value, d.launchedAt);
      } else if d.attempts > 0 {
        var i: nat :| LaunchedBy(g, s0, ls[..k], i, n, c.child.value, c.launchedAt)
                      && Exec(g, s0, ls[..k][..i + 1]).cells[n].attempts == c.attempts;
        StillStarted(g, s0, ls, k, i, n, c.child.value, c.launchedAt);
      }
    }
  }

  /** Label `k` polled the node whose child this is when its time was up. */
  ghost predicate TimedOutAt(g: Graph, s0: RunState, ls: seq<Label>, k: nat, child: Handle)
    requires WellFormed(g, s0) && EdgesInside(g)
  {
    && k < |ls| && ls[k].Poll? && ls[k].node in g.nodes
    && Exec(g, s0, ls[..k]).cells[ls[k].node].child == Some(child)
    && TimeIsUp(g, Exec(g, s0, ls[..k]), ls[k].node, ls[k].now)
  }

  /** A child is told to stop only by a poll that finds its time up: with `ChildStartedThen`, more than
      the node's timeout after it was started. */
  lemma {:induction false} StoppedOnlyLate(g: Graph, restored: Restored, now: int, ls: seq<Label>, child: Handle)
    requires EdgesInside(g)
    requires Cancelled(child) in Exec(g, InitialState(g, restored, now), ls).log
    ensures exists k: nat :: TimedOutAt(g, InitialState(g, restored, now), ls, k, child)
  {
    var s0 := InitialState(g, restored, now);
    if |ls| > 0 {
      var k := |ls| - 1;
      var s := Exec(g, s0, ls[..k]);
      if Cancelled(child) in s.log {
        StoppedOnlyLate(g, restored, now, ls[..k], child);
        var i: nat :| TimedOutAt(g, s0, ls[..k], i, child);
        assert ls[..k][..i] == ls[..i];
        assert TimedOutAt(g, s0, ls, i, child);
      } else {
        assert ls[k].node in g.nodes && Cancelled(child) in Calls(g, s, ls[k]);
        assert TimedOutAt(g, s0, ls, k, child);
      }
    }
  }
}
