/**
 The verdict of a run does not depend on timing: on an acyclic graph whose attempts have fixed
 outcomes, every interleaving of polls, completions and launches ends with the same success set.
 */
module DagConfluence {
  import opened Common
  import opened DagModel
  import opened DagInvariants
  import opened DagPolls

  /** `succ(n, k)`: does the k-th attempt of node n succeed. */
  type Outcome = (NodeId, nat) -> bool

  /** The run observed the fixed outcome of each attempt it settled. */
  ghost predicate Observes(g: Graph, ls: seq<Label>, succ: Outcome)
    requires EdgesInside(g)
  {
    forall i :: 0 <= i < |ls| ==> ObservesAt(g, Exec(g, Fresh(g), ls[..i]), ls[i], succ)
  }

  /** What the poll of a live child shows of its attempt: a success or failure reported in time, a report
      that comes too late, or a fifth error in a row. Anything else shows nothing. */
  ghost predicate ObservesAt(g: Graph, s: RunState, l: Label, succ: Outcome)
    requires WellFormed(g, s)
  {
    l.Poll? && l.node in g.nodes
    && s.cells[l.node].child.Some? && s.cells[l.node].status !in {Completed, Failed, Stopped, Closed, Published} ==>
      var outcome := succ(l.node, s.cells[l.node].attempts);
      match l.reply
      case Reports(st) =>
        && (TimeIsUp(g, s, l.node, l.now) ==> !outcome)
        && (!TimeIsUp(g, s, l.node, l.now) && st in {Completed, Closed, Published} ==> outcome)
        && (st in {Failed, Stopped} ==> !outcome)
      case Raises => s.cells[l.node].errors + 1 >= 5 ==> !outcome
  }

  /** One of the attempts a node is allowed succeeds. */
  ghost predicate CanSucceed(c: Config, n: NodeId, succ: Outcome) {
    exists k: nat :: 1 <= k <= AttemptLimit(c) && succ(n, k)
  }

  ghost predicate BlockedBy(g: Graph, ok: set<NodeId>, n: NodeId)
    requires n in g.nodes
  {
    !g.nodes[n].continueOnFail && exists p :: p in ParentsOf(g, n) && p !in ok
  }

  /** ok(n) iff n is not blocked and one of its attempts succeeds. */
  ghost predicate Solution(g: Graph, succ: Outcome, ok: set<NodeId>) {
    && ok <= g.nodes.Keys
    && forall n :: n in g.nodes ==> (n in ok <==> !BlockedBy(g, ok, n) && CanSucceed(g.nodes[n], n, succ))
  }

  // ------------------------------------------------- a finished run is a solution

  /** What the current mark of a node says about its attempts and its parents. */
  ghost predicate Explained(g: Graph, s: RunState, n: NodeId, succ: Outcome)
    requires WellFormed(g, s) && EdgesInside(g) && n in g.nodes
  {
    var c := s.cells[n];
    && (forall k: nat :: 1 <= k < c.attempts ==> !succ(n, k))
    && (c.attempts > 0 ==> ParentsDone(g, s, n))
    && (c.status.Pending? && c.attempts > 0 ==> !succ(n, c.attempts))
    && (IsSuccess(c.status) ==> c.attempts > 0 && succ(n, c.attempts))
    && (IsTerminal(c.status) && !IsSuccess(c.status) ==>
          if c.attempts == 0 then !g.nodes[n].continueOnFail && FailedParent(g, s, n)
          else c.attempts == AttemptLimit(g.nodes[n]) && !succ(n, c.attempts))
  }

  ghost predicate AllExplained(g: Graph, s: RunState, succ: Outcome)
    requires EdgesInside(g)
  {
    && Sound(g, s)
    && (forall n :: n in g.nodes && s.cells[n].child.Some? ==> s.cells[n].attempts > 0)
    && forall n :: n in g.nodes ==> Explained(g, s, n, succ)
  }

  /** Nothing a node's explanation relies on is undone by a step elsewhere. */
  lemma ExplainedElsewhere(g: Graph, s: RunState, l: Label, n: NodeId, succ: Outcome)
    requires EdgesInside(g) && WellFormed(g, s) && n in g.nodes && n != l.node
    requires Explained(g, s, n, succ)
    ensures Explained(g, Apply(g, s, l), n, succ)
  {
    KeptParents(g, s, l, n);
  }

  lemma KeptParents(g: Graph, s: RunState, l: Label, n: NodeId)
    requires EdgesInside(g) && WellFormed(g, s) && n in g.nodes
    ensures ParentsDone(g, s, n) ==> ParentsDone(g, Apply(g, s, l), n)
    ensures FailedParent(g, s, n) ==> FailedParent(g, Apply(g, s, l), n)
  {
    if ParentsDone(g, s, n) {
      ParentsStayDone(g, s, l, n);
    }
    if p :| p in ParentsOf(g, n) && IsTerminal(s.cells[p].status) && !IsSuccess(s.cells[p].status) {
      assert Apply(g, s, l).cells[p] == s.cells[p];
    }
  }

  lemma ExplainedPoll(g: Graph, s: RunState, l: Label, succ: Outcome)
    requires EdgesInside(g) && WellFormed(g, s) && l.Poll? && l.node in g.nodes
    requires Explained(g, s, l.node, succ) && SoundCell(g.nodes[l.node], s.cells[l.node])
    requires s.cells[l.node].child.Some? ==> s.cells[l.node].attempts > 0
    requires ObservesAt(g, s, l, succ)
    ensures Explained(g, Apply(g, s, l), l.node, succ)
  {
    KeptParents(g, s, l, l.node);
  }

  lemma ExplainedVisit(g: Graph, s: RunState, l: Label, succ: Outcome)
    requires EdgesInside(g) && WellFormed(g, s) && l.Visit? && l.node in g.nodes
    requires Explained(g, s, l.node, succ) && SoundCell(g.nodes[l.node], s.cells[l.node])
    ensures Explained(g, Apply(g, s, l), l.node, succ)
  {
    KeptParents(g, s, l, l.node);
    var n := l.node;
    if Decide(g, s, n).Block? {
      assert s.cells[n].attempts == 0;
    }
  }

  lemma {:induction false} ExplainedStep(g: Graph, s: RunState, l: Label, succ: Outcome)
    requires EdgesInside(g) && AllExplained(g, s, succ) && ObservesAt(g, s, l, succ)
    ensures AllExplained(g, Apply(g, s, l), succ)
  {
    var r := Apply(g, s, l);
    SoundExec(g, s, [l]);
    ExecSnoc(g, s, [], l);
    assert [] + [l] == [l];
    forall n | n in g.nodes
      ensures Explained(g, r, n, succ)
    {
      if n != l.node {
        ExplainedElsewhere(g, s, l, n, succ);
      } else if l.Poll? {
        ExplainedPoll(g, s, l, succ);
      } else {
        ExplainedVisit(g, s, l, succ);
      }
    }
  }

  lemma {:induction false} RunIsExplained(g: Graph, ls: seq<Label>, succ: Outcome)
    requires EdgesInside(g) && Observes(g, ls, succ)
    ensures AllExplained(g, Exec(g, Fresh(g), ls), succ)
  {
    if |ls| > 0 {
      var before := ls[..|ls| - 1];
      assert forall i :: 0 <= i < |before| ==> before[..i] == ls[..i];
      RunIsExplained(g, before, succ);
      assert ObservesAt(g, Exec(g, Fresh(g), before), ls[|ls| - 1], succ);
      ExplainedStep(g, Exec(g, Fresh(g), before), ls[|ls| - 1], succ);
    }
  }

  lemma FinishedNode(g: Graph, s: RunState, n: NodeId, succ: Outcome)
    requires EdgesInside(g) && WellFormed(g, s) && AllTerminal(g, s) && n in g.nodes
    requires Explained(g, s, n, succ) && SoundCell(g.nodes[n], s.cells[n])
    ensures IsSuccess(s.cells[n].status) <==>
              !BlockedBy(g, SuccessSet(g, s), n) && CanSucceed(g.nodes[n], n, succ)
  {
    var c, ok := s.cells[n], SuccessSet(g, s);
    assert forall p :: p in ParentsOf(g, n) ==> IsTerminal(s.cells[p].status);
    if c.attempts == 0 {
      assert BlockedBy(g, ok, n);
    } else {
      assert !BlockedBy(g, ok, n);
      if k: nat :| 1 <= k <= AttemptLimit(g.nodes[n]) && succ(n, k) {
        assert k >= c.attempts;
      }
    }
  }

  /** Whatever the graph, a finished run leaves a solution of the equation. */
  lemma {:induction false} FinishedRunIsSolution(g: Graph, ls: seq<Label>, succ: Outcome)
    requires EdgesInside(g) && Observes(g, ls, succ)
    requires AllTerminal(g, Exec(g, Fresh(g), ls))
    ensures Solution(g, succ, SuccessSet(g, Exec(g, Fresh(g), ls)))
  {
    RunIsExplained(g, ls, succ);
    var s := Exec(g, Fresh(g), ls);
    forall n | n in g.nodes
      ensures n in SuccessSet(g, s) <==>
                !BlockedBy(g, SuccessSet(g, s), n) && CanSucceed(g.nodes[n], n, succ)
    {
      FinishedNode(g, s, n, succ);
    }
  }

  // ---------------------------------------------------------- one solution only

  lemma {:induction false} AgreeAt(
    g: Graph, rank: map<NodeId, nat>, succ: Outcome, a: set<NodeId>, b: set<NodeId>, n: NodeId)
    requires EdgesInside(g) && Ranks(g, rank) && n in g.nodes
    requires Solution(g, succ, a) && Solution(g, succ, b)
    ensures n in a <==> n in b
    decreases rank[n]
  {
    forall p | p in ParentsOf(g, n)
      ensures p in a <==> p in b
    {
      AgreeAt(g, rank, succ, a, b, p);
    }
  }

  /** On an acyclic graph the equation has at most one solution. */
  lemma {:induction false} SolutionIsUnique(g: Graph, succ: Outcome, a: set<NodeId>, b: set<NodeId>)
    requires EdgesInside(g) && Acyclic(g)
    requires Solution(g, succ, a) && Solution(g, succ, b)
    ensures a == b
  {
    var rank :| Ranks(g, rank);
    forall n | n in g.nodes
      ensures n in a <==> n in b
    {
      AgreeAt(g, rank, succ, a, b, n);
    }
  }

  /** The solution computed parents first. */
  ghost predicate OkAt(g: Graph, rank: map<NodeId, nat>, succ: Outcome, n: NodeId)
    requires EdgesInside(g) && Ranks(g, rank) && n in g.nodes
    decreases rank[n]
  {
    && (g.nodes[n].continueOnFail || forall p :: p in ParentsOf(g, n) ==> OkAt(g, rank, succ, p))
    && CanSucceed(g.nodes[n], n, succ)
  }

  /** On an acyclic graph the equation has a solution. */
  lemma SolutionExists(g: Graph, succ: Outcome) returns (ok: set<NodeId>)
    requires EdgesInside(g) && Acyclic(g)
    ensures Solution(g, succ, ok)
  {
    var rank :| Ranks(g, rank);
    ok := set n | n in g.nodes && OkAt(g, rank, succ, n);
  }

  /**
   Confluence. Two runs of the same acyclic graph whose attempts have the same outcomes finish
   with the same success set, however their polls and launches interleave; it is the unique
   solution of the equation.
   */
  lemma {:induction false} Confluence(g: Graph, succ: Outcome, one: seq<Label>, two: seq<Label>)
    requires EdgesInside(g) && Acyclic(g)
    requires Observes(g, one, succ) && AllTerminal(g, Exec(g, Fresh(g), one))
    requires Observes(g, two, succ) && AllTerminal(g, Exec(g, Fresh(g), two))
    ensures SuccessSet(g, Exec(g, Fresh(g), one)) == SuccessSet(g, Exec(g, Fresh(g), two))
    ensures forall ok :: Solution(g, succ, ok) <==> ok == SuccessSet(g, Exec(g, Fresh(g), one))
  {
    FinishedRunIsSolution(g, one, succ);
    FinishedRunIsSolution(g, two, succ);
    var ok1, ok2 := SuccessSet(g, Exec(g, Fresh(g), one)), SuccessSet(g, Exec(g, Fresh(g), two));
    SolutionIsUnique(g, succ, ok1, ok2);
    forall ok | Solution(g, succ, ok)
      ensures ok == ok1
    {
      SolutionIsUnique(g, succ, ok, ok1);
    }
  }
}
