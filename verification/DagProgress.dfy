/** Acyclic graphs do not deadlock, and a run makes boundedly many moves. */
module DagProgress {
  import opened Common
  import opened DagModel
  import opened DagInvariants

  // ---------------------------------------------------------------- no deadlock

  lemma {:induction false} FindMove(g: Graph, rank: map<NodeId, nat>, s: RunState, n: NodeId) returns (m: NodeId)
    requires EdgesInside(g) && Ranks(g, rank) && Sound(g, s)
    requires forall k :: k in g.nodes ==> !Tracked(s.cells[k])
    requires n in g.nodes && !IsTerminal(s.cells[n].status)
    ensures m in g.nodes && !Decide(g, s, m).Wait?
    decreases rank[n]
  {
    if p :| p in ParentsOf(g, n) && !IsTerminal(s.cells[p].status) {
      m := FindMove(g, rank, s, p);
    } else {
      m := n;
      assert SoundCell(g.nodes[n], s.cells[n]) && !Tracked(s.cells[n]);
      assert FailedParent(g, s, n) || ParentsDone(g, s, n);
    }
  }

  /**
   No deadlock: on an acyclic graph, whenever no child is live and some node is unfinished, the
   launch loop finds a node to launch or to stop. Restored runs included.
   */
  lemma NoDeadlock(g: Graph, restored: Restored, now: int, ls: seq<Label>) returns (m: NodeId)
    requires EdgesInside(g) && Acyclic(g) && Restorable(restored)
    requires var s := Exec(g, InitialState(g, restored, now), ls);
             !AllTerminal(g, s) && forall k :: k in g.nodes ==> !Tracked(s.cells[k])
    ensures m in g.nodes && !Decide(g, Exec(g, InitialState(g, restored, now), ls), m).Wait?
  {
    var s := Exec(g, InitialState(g, restored, now), ls);
    SoundExec(g, InitialState(g, restored, now), ls);
    var rank :| Ranks(g, rank);
    var n :| n in g.nodes && !IsTerminal(s.cells[n].status);
    m := FindMove(g, rank, s, n);
  }

  // -------------------------------------------------------------------- measure

  /** `order` lists the nodes of the graph once each. */
  ghost predicate Enumerates(g: Graph, order: seq<NodeId>) {
    && (forall i :: 0 <= i < |order| ==> order[i] in g.nodes)
    && (forall n :: n in g.nodes ==> n in order)
    && forall i, j :: 0 <= i < j < |order| ==> order[i] != order[j]
  }

  /** Launches, retries and verdicts still ahead of one node. */
  function Weight(cfg: Config, c: Cell): nat {
    var left := Max(0, AttemptLimit(cfg) - c.attempts);
    if IsTerminal(c.status) then 0
    else if c.status.Pending? then 2 * left + 1
    else 2 * left + 2
  }

  function Measure(g: Graph, s: RunState, order: seq<NodeId>): nat
    requires WellFormed(g, s) && forall i :: 0 <= i < |order| ==> order[i] in g.nodes
  {
    if |order| == 0 then 0
    else Weight(g.nodes[order[0]], s.cells[order[0]]) + Measure(g, s, order[1..])
  }

  lemma {:induction false} MeasureChange(g: Graph, s: RunState, r: RunState, order: seq<NodeId>, n: NodeId)
    requires WellFormed(g, s) && WellFormed(g, r) && n in g.nodes
    requires forall i :: 0 <= i < |order| ==> order[i] in g.nodes
    requires forall i, j :: 0 <= i < j < |order| ==> order[i] != order[j]
    requires forall m :: m in g.nodes && m != n ==> r.cells[m] == s.cells[m]
    ensures Measure(g, r, order) - Measure(g, s, order) ==
              if n in order then Weight(g.nodes[n], r.cells[n]) - Weight(g.nodes[n], s.cells[n]) else 0
  {
    if |order| > 0 {
      MeasureChange(g, s, r, order[1..], n);
      assert order == [order[0]] + order[1..];
    }
  }

  /** A label moves the run when it changes the mark of a node. */
  predicate Moves(g: Graph, s: RunState, l: Label)
    requires WellFormed(g, s) && EdgesInside(g)
  {
    l.node in g.nodes && Apply(g, s, l).cells[l.node].status != s.cells[l.node].status
  }

  lemma PollWeight(cfg: Config, c: Cell, reply: Reply, now: int)
    requires SoundCell(cfg, c)
    ensures var r := PollCell(cfg, c, reply, now);
            if r.status == c.status then r == c.(errors := r.errors) else Weight(cfg, r) < Weight(cfg, c)
  {
  }

  lemma VisitWeight(cfg: Config, c: Cell, move: Move, ticket: Handle, now: int)
    requires SoundCell(cfg, c) && (!move.Wait? ==> c.status.Pending?)
    ensures var r := VisitCell(c, move, ticket, now);
            if move.Wait? then r == c else r.status != c.status && Weight(cfg, r) < Weight(cfg, c)
  {
  }

  lemma MeasureStep(g: Graph, s: RunState, l: Label, order: seq<NodeId>)
    requires EdgesInside(g) && Sound(g, s) && Enumerates(g, order)
    ensures Measure(g, Apply(g, s, l), order) <= Measure(g, s, order)
    ensures Moves(g, s, l) <==> Measure(g, Apply(g, s, l), order) < Measure(g, s, order)
    ensures !Moves(g, s, l) ==>
              forall n :: n in g.nodes ==> Apply(g, s, l).cells[n] == s.cells[n].(errors := Apply(g, s, l).cells[n].errors)
  {
    if l.node in g.nodes {
      match l {
        case Poll(n, reply, now) => PollWeight(g.nodes[n], s.cells[n], reply, now);
        case Visit(n, ticket, now) => VisitWeight(g.nodes[n], s.cells[n], Decide(g, s, n), ticket, now);
      }
      MeasureChange(g, s, Apply(g, s, l), order, l.node);
    }
  }

  function MoveCount(g: Graph, s: RunState, ls: seq<Label>): nat
    requires WellFormed(g, s) && EdgesInside(g)
  {
    if |ls| == 0 then 0
    else MoveCount(g, s, ls[..|ls| - 1])
         + if Moves(g, Exec(g, s, ls[..|ls| - 1]), ls[|ls| - 1]) then 1 else 0
  }

  /** Moves made and moves left never exceed the moves the run started with. */
  lemma {:induction false} MovesAreBounded(g: Graph, s: RunState, ls: seq<Label>, order: seq<NodeId>)
    requires EdgesInside(g) && Sound(g, s) && Enumerates(g, order)
    ensures MoveCount(g, s, ls) + Measure(g, Exec(g, s, ls), order) <= Measure(g, s, order)
  {
    if |ls| > 0 {
      MovesAreBounded(g, s, ls[..|ls| - 1], order);
      SoundExec(g, s, ls[..|ls| - 1]);
      MeasureStep(g, Exec(g, s, ls[..|ls| - 1]), ls[|ls| - 1], order);
    }
  }

  /** Sum of 2 * max(0, retries) + 4 over the nodes. */
  function MoveBudget(g: Graph, order: seq<NodeId>): nat
    requires forall i :: 0 <= i < |order| ==> order[i] in g.nodes
  {
    if |order| == 0 then 0
    else 2 * Max(0, g.nodes[order[0]].retries) + 4 + MoveBudget(g, order[1..])
  }

  lemma {:induction false} InitialMeasure(g: Graph, restored: Restored, now: int, order: seq<NodeId>)
    requires forall i :: 0 <= i < |order| ==> order[i] in g.nodes
    ensures Measure(g, InitialState(g, restored, now), order) <= MoveBudget(g, order)
  {
    if |order| > 0 {
      InitialMeasure(g, restored, now, order[1..]);
    }
  }

  /**
   Termination: whatever the children do and however often the controller polls, a run, fresh or
   restored, changes the mark of a node at most sum(2 * max(0, retries) + 4) times.
   */
  lemma RunMovesAreBounded(g: Graph, restored: Restored, now: int, ls: seq<Label>, order: seq<NodeId>)
    requires EdgesInside(g) && Restorable(restored) && Enumerates(g, order)
    ensures MoveCount(g, InitialState(g, restored, now), ls) <= MoveBudget(g, order)
  {
    InitialMeasure(g, restored, now, order);
    MovesAreBounded(g, InitialState(g, restored, now), ls, order);
  }

  // --------------------------------------------- the error counter outlives a child

  /**
   After a child is given up for its errors and the node is launched again, a single failed poll
   gives the new child up as well: the counter is only reset by an answered poll.
   */
  lemma FirstErrorAfterGivingUp(g: Graph, s: RunState, n: NodeId, t0: int, ticket: Handle, t1: int, t2: int)
    requires EdgesInside(g) && Sound(g, s) && n in g.nodes
    requires Tracked(s.cells[n]) && s.cells[n].errors + 1 >= ERROR_LIMIT
    requires s.cells[n].attempts <= g.nodes[n].retries && ParentsDone(g, s, n)
    ensures var s1 := Apply(g, s, Poll(n, Raises, t0));
            var s2 := Apply(g, s1, Visit(n, ticket, t1));
            var s3 := Apply(g, s2, Poll(n, Raises, t2));
            && s1.cells[n].status.Pending?
            && s2.cells[n].child == Some(ticket) && s2.cells[n].status.Queued?
            && (s3.cells[n].status.Failed? || (s3.cells[n].status.Pending? && s3.cells[n].child.None?))
  {
    var s1 := Apply(g, s, Poll(n, Raises, t0));
    assert n !in ParentsOf(g, n);
    assert ParentsDone(g, s1, n);
  }
}
