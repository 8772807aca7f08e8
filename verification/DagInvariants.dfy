/** What every step of a controller run keeps, for fresh and for restored runs. */
module DagInvariants {
  import opened Common
  import opened DagModel

  /** Child, mark and attempt count of one node agree. */
  predicate SoundCell(cfg: Config, c: Cell) {
    && (c.child.Some? ==> !c.status.Pending?)
    && (c.child.None? ==> c.status.Pending? || c.status.Stopped?)
    && c.attempts <= AttemptLimit(cfg)
    && (c.status.Pending? ==> c.attempts < AttemptLimit(cfg))
  }

  ghost predicate Sound(g: Graph, s: RunState) {
    && WellFormed(g, s)
    && forall n :: n in g.nodes ==> SoundCell(g.nodes[n], s.cells[n])
  }

  lemma {:induction false} SoundExec(g: Graph, s: RunState, ls: seq<Label>)
    requires EdgesInside(g) && Sound(g, s)
    ensures Sound(g, Exec(g, s, ls))
  {
    if |ls| > 0 {
      SoundExec(g, s, ls[..|ls| - 1]);
    }
  }

  /**
   A terminal state that survives the retry check never changes again, whatever is polled,
   visited or launched later.
   */
  lemma {:induction false} TerminalIsFinal(g: Graph, s: RunState, ls: seq<Label>, n: NodeId)
    requires WellFormed(g, s) && EdgesInside(g) && n in g.nodes
    requires IsTerminal(s.cells[n].status)
    ensures Exec(g, s, ls).cells[n] == s.cells[n]
  {
    if |ls| > 0 {
      TerminalIsFinal(g, s, ls[..|ls| - 1], n);
    }
  }

  // ---------------------------------------------------------------- attempts

  /** How many launches of `n` the backend has seen. */
  function LaunchCount(log: seq<Event>, n: NodeId): nat {
    if |log| == 0 then 0
    else LaunchCount(log[..|log| - 1], n)
         + if log[|log| - 1].Launched? && log[|log| - 1].node == n then 1 else 0
  }

  lemma {:induction false} LaunchCountConcat(a: seq<Event>, b: seq<Event>, n: NodeId)
    ensures LaunchCount(a + b, n) == LaunchCount(a, n) + LaunchCount(b, n)
  {
    if |b| == 0 {
      assert a + b == a;
    } else {
      assert (a + b)[..|a + b| - 1] == a + b[..|b| - 1];
      LaunchCountConcat(a, b[..|b| - 1], n);
    }
  }

  lemma {:induction false} NoLaunches(log: seq<Event>, n: NodeId)
    requires forall k :: 0 <= k < |log| && log[k].Launched? ==> log[k].node != n
    ensures LaunchCount(log, n) == 0
  {
    if |log| > 0 {
      NoLaunches(log[..|log| - 1], n);
    }
  }

  lemma PollsDoNotLaunch(cfg: Config, n: NodeId, c: Cell, reply: Reply, now: int, m: NodeId)
    ensures LaunchCount(PollCalls(cfg, n, c, reply, now), m) == 0
    ensures PollCell(cfg, c, reply, now).attempts == c.attempts
  {
    NoLaunches(PollCalls(cfg, n, c, reply, now), m);
  }

  lemma VisitsLaunch(g: Graph, s: RunState, n: NodeId, ticket: Handle, m: NodeId)
    requires WellFormed(g, s) && EdgesInside(g) && n in g.nodes
    ensures LaunchCount(VisitCalls(g, s, n, ticket), m) == if m == n && Decide(g, s, n).Launch? then 1 else 0
  {
    var calls := VisitCalls(g, s, n, ticket);
    if Decide(g, s, n).Launch? {
      assert calls[..1][..0] == [];
      assert calls[..|calls| - 1] == calls[..1];
      assert LaunchCount(calls[..1], m) == if m == n then 1 else 0;
    } else {
      NoLaunches(calls, m);
    }
  }

  /** `attempts` counts the launches a step makes. */
  lemma LaunchCountStep(g: Graph, s: RunState, l: Label, n: NodeId)
    requires WellFormed(g, s) && EdgesInside(g) && n in g.nodes
    ensures var r := Apply(g, s, l);
            LaunchCount(r.log, n) - r.cells[n].attempts == LaunchCount(s.log, n) - s.cells[n].attempts
  {
    if l.node in g.nodes {
      LaunchCountConcat(s.log, Calls(g, s, l), n);
      match l
      case Poll(m, reply, now) => PollsDoNotLaunch(g.nodes[m], m, s.cells[m], reply, now, n);
      case Visit(m, ticket, now) => VisitsLaunch(g, s, m, ticket, n);
    }
  }

  /**
   Attempt accounting: a run launches a node at most `max(0, retries) + 1` times. The bound is
   the same for a node whose child was restored, so the restored child comes on top of it.
   */
  lemma {:induction false} LaunchesAreBounded(
    g: Graph, restored: Restored, now: int, ls: seq<Label>, n: NodeId)
    requires EdgesInside(g) && Restorable(restored) && n in g.nodes
    ensures var s := Exec(g, InitialState(g, restored, now), ls);
            LaunchCount(s.log, n) == s.cells[n].attempts <= Max(0, g.nodes[n].retries) + 1
  {
    var s0 := InitialState(g, restored, now);
    SoundExec(g, s0, ls);
    if |ls| > 0 {
      LaunchesAreBounded(g, restored, now, ls[..|ls| - 1], n);
      LaunchCountStep(g, Exec(g, s0, ls[..|ls| - 1]), ls[|ls| - 1], n);
    }
  }

  /**
   A node whose recorded child is already terminal when the controller restarts is never
   launched by the new run: not when it succeeded, and not when it failed with retries left.
   */
  lemma RestoredTerminalIsNeverLaunched(
    g: Graph, restored: Restored, now: int, ls: seq<Label>, n: NodeId)
    requires EdgesInside(g) && Restorable(restored) && n in g.nodes
    requires n in restored && IsTerminal(restored[n].1)
    ensures var s := Exec(g, InitialState(g, restored, now), ls);
            LaunchCount(s.log, n) == 0 && s.cells[n].status == restored[n].1
  {
    LaunchesAreBounded(g, restored, now, ls, n);
    TerminalIsFinal(g, InitialState(g, restored, now), ls, n);
  }

  // ------------------------------------------------------------ launch order

  /** A node that has been launched has its parents where the launch needed them. */
  ghost predicate LaunchOrder(g: Graph, s: RunState)
    requires WellFormed(g, s) && EdgesInside(g)
  {
    forall n :: n in g.nodes && s.cells[n].attempts > 0 ==> ParentsDone(g, s, n)
  }

  lemma ParentsStayDone(g: Graph, s: RunState, l: Label, n: NodeId)
    requires WellFormed(g, s) && EdgesInside(g) && n in g.nodes && ParentsDone(g, s, n)
    ensures ParentsDone(g, Apply(g, s, l), n)
  {
    var r := Apply(g, s, l);
    forall p | p in ParentsOf(g, n) && IsTerminal(s.cells[p].status)
      ensures r.cells[p].status == s.cells[p].status
    {
      assert p in g.nodes;
    }
  }

  lemma LaunchOrderStep(g: Graph, s: RunState, l: Label)
    requires WellFormed(g, s) && EdgesInside(g) && LaunchOrder(g, s)
    ensures LaunchOrder(g, Apply(g, s, l))
  {
    var r := Apply(g, s, l);
    forall n | n in g.nodes && r.cells[n].attempts > 0
      ensures ParentsDone(g, r, n)
    {
      assert ParentsDone(g, s, n);
      ParentsStayDone(g, s, l, n);
    }
  }

  /**
   Launch order over whole runs without restored children: at every point, each node launched so
   far has all its parents in SUCCESS (all TERMINAL if it continues on failure).
   */
  lemma {:induction false} LaunchOrderHolds(g: Graph, ls: seq<Label>)
    requires EdgesInside(g)
    ensures LaunchOrder(g, Exec(g, Fresh(g), ls))
  {
    if |ls| > 0 {
      LaunchOrderHolds(g, ls[..|ls| - 1]);
      LaunchOrderStep(g, Exec(g, Fresh(g), ls[..|ls| - 1]), ls[|ls| - 1]);
    }
  }

  /**
   Every launch is handed the outputs of exactly the parents in SUCCESS, so a node that does not
   continue on failure receives one input from each parent; restored parents included.
   */
  lemma LaunchInputs(g: Graph, restored: Restored, now: int, ls: seq<Label>, k: nat)
    requires EdgesInside(g) && Restorable(restored)
    requires k < |ls| && ls[k].Visit? && ls[k].node in g.nodes
    requires Decide(g, Exec(g, InitialState(g, restored, now), ls[..k]), ls[k].node).Launch?
    ensures var s := Exec(g, InitialState(g, restored, now), ls[..k]);
            var inputs := InputsOf(g, s, ls[k].node);
            && Launched(ls[k].node, ls[k].ticket, inputs) in Apply(g, s, ls[k]).log
            && inputs.Keys == (set p | p in ParentsOf(g, ls[k].node) && IsSuccess(s.cells[p].status))
            && (!g.nodes[ls[k].node].continueOnFail ==> inputs.Keys == ParentsOf(g, ls[k].node))
  {
    var s := Exec(g, InitialState(g, restored, now), ls[..k]);
    SoundExec(g, InitialState(g, restored, now), ls[..k]);
    var inputs := InputsOf(g, s, ls[k].node);
    assert Calls(g, s, ls[k])[0] == Launched(ls[k].node, ls[k].ticket, inputs);
    assert forall p :: p in ParentsOf(g, ls[k].node) ==> SoundCell(g.nodes[p], s.cells[p]);
  }

  // ------------------------------------------------------------ error counter

  /** Consecutive failed polls of `n` at the end of the run, counted over the labels alone. */
  function TrailingErrors(g: Graph, s0: RunState, ls: seq<Label>, n: NodeId): nat
    requires WellFormed(g, s0) && EdgesInside(g) && n in g.nodes
  {
    if |ls| == 0 then 0
    else
      var last := ls[|ls| - 1];
      var before := ls[..|ls| - 1];
      if last.Poll? && last.node == n && Tracked(Exec(g, s0, before).cells[n]) then
        if last.reply.Raises? then TrailingErrors(g, s0, before, n) + 1 else 0
      else TrailingErrors(g, s0, before, n)
  }

  /**
   The error counter of a node is the number of failed polls since its last answered poll. It
   belongs to the node, not to the child: a relaunch in between does not reset it.
   */
  lemma {:induction false} ErrorCounterCountsTheNode(
    g: Graph, restored: Restored, now: int, ls: seq<Label>, n: NodeId)
    requires EdgesInside(g) && n in g.nodes
    ensures var s0 := InitialState(g, restored, now);
            Exec(g, s0, ls).cells[n].errors == TrailingErrors(g, s0, ls, n)
  {
    if |ls| > 0 {
      ErrorCounterCountsTheNode(g, restored, now, ls[..|ls| - 1], n);
    }
  }

  // --------------------------------------------------- children that are let go

  ghost predicate Followed(s: RunState, n: NodeId, child: Handle) {
    n in s.cells && Tracked(s.cells[n]) && s.cells[n].child == Some(child)
  }

  ghost predicate LaunchedIn(log: seq<Event>, n: NodeId, child: Handle) {
    exists k :: 0 <= k < |log| && log[k].Launched? && log[k].node == n && log[k].child == child
  }

  /** Why a run may stop following the child of a node at label `i`. */
  ghost predicate LetGo(g: Graph, s0: RunState, ls: seq<Label>, i: nat, n: NodeId, child: Handle)
    requires WellFormed(g, s0) && EdgesInside(g) && n in g.nodes
  {
    && i < |ls|
    && ls[i].Poll? && ls[i].node == n
    && Followed(Exec(g, s0, ls[..i]), n, child)
    && (|| (ls[i].reply.Reports? && IsTerminal(ls[i].reply.status))
        || (ls[i].reply.Raises? && TrailingErrors(g, s0, ls[..i], n) + 1 >= ERROR_LIMIT)
        || Cancelled(child) in Calls(g, Exec(g, s0, ls[..i]), ls[i]))
  }

  /**
   Every child a run owned, restored or launched, is still followed, or was seen terminal, was
   cancelled for its timeout, or met the error limit; or it was restored already finished.
   */
  lemma {:induction false} NoChildIsDroppedSilently(
    g: Graph, restored: Restored, now: int, ls: seq<Label>, n: NodeId, child: Handle)
    requires EdgesInside(g) && Restorable(restored) && n in g.nodes
    requires || (n in restored && restored[n].0 == child)
             || LaunchedIn(Exec(g, InitialState(g, restored, now), ls).log, n, child)
    ensures var s0 := InitialState(g, restored, now);
            || Followed(Exec(g, s0, ls), n, child)
            || (exists i: nat :: LetGo(g, s0, ls, i, n, child))
            || (n in restored && restored[n].0 == child && IsTerminal(restored[n].1))
  {
    var s0 := InitialState(g, restored, now);
    if |ls| > 0 {
      var before, l := ls[..|ls| - 1], ls[|ls| - 1];
      var s, r := Exec(g, s0, before), Exec(g, s0, ls);
      if (n in restored && restored[n].0 == child) || LaunchedIn(s.log, n, child) {
        NoChildIsDroppedSilently(g, restored, now, before, n, child);
        if i: nat :| LetGo(g, s0, before, i, n, child) {
          assert ls[..i] == before[..i];
          assert LetGo(g, s0, ls, i, n, child);
        } else if Followed(s, n, child) && !Followed(r, n, child) {
          SoundExec(g, s0, before);
          DroppedByPoll(g, s, l, n, child);
          ErrorCounterCountsTheNode(g, restored, now, before, n);
          assert LetGo(g, s0, ls, |ls| - 1, n, child);
        }
      } else {
        LaunchedIsFollowed(g, s, l, n, child);
      }
    }
  }

  lemma DroppedByPoll(g: Graph, s: RunState, l: Label, n: NodeId, child: Handle)
    requires EdgesInside(g) && Sound(g, s) && n in g.nodes
    requires Followed(s, n, child) && !Followed(Apply(g, s, l), n, child)
    ensures l.Poll? && l.node == n
    ensures || (l.reply.Reports? && IsTerminal(l.reply.status))
            || (l.reply.Raises? && s.cells[n].errors + 1 >= ERROR_LIMIT)
            || Cancelled(child) in Calls(g, s, l)
  {
    assert SoundCell(g.nodes[n], s.cells[n]);
    if l.Poll? && l.node == n && Overdue(g.nodes[n], s.cells[n], l.now) && !Ignored(s.cells[n], l.reply) {
      assert Calls(g, s, l)[0] == Cancelled(child);
    }
  }

  lemma LaunchedIsFollowed(g: Graph, s: RunState, l: Label, n: NodeId, child: Handle)
    requires EdgesInside(g) && WellFormed(g, s) && n in g.nodes
    requires LaunchedIn(Apply(g, s, l).log, n, child) && !LaunchedIn(s.log, n, child)
    ensures Followed(Apply(g, s, l), n, child)
  {
    var log := Apply(g, s, l).log;
    var k :| 0 <= k < |log| && log[k].Launched? && log[k].node == n && log[k].child == child;
    assert l.node in g.nodes && k >= |s.log|;
    assert log[k] == Calls(g, s, l)[k - |s.log|];
  }
}
