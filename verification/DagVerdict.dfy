/** What the controller's run reports, when the outcomes of the attempts are fixed. */
module DagVerdict {
  import opened Common
  import opened DagModel
  import opened DagInvariants
  import opened DagConfluence
  import opened DagProgress
  import opened DagCycles
  import opened Controller = DagRunner

  /** With nothing recorded, a run starts fresh. */
  lemma StartsFresh(g: Graph, tasks: Tasks, now: int)
    ensures InitialState(g, RestoredFrom(g, map[], tasks), now) == Fresh(g)
  {
    assert RestoredFrom(g, map[], tasks) == map[];
    assert InitialState(g, map[], now).cells == Fresh(g).cells;
  }

  /**
   The verdict of a finished run: `ok` being the one solution of the equation, the run returns exactly
   when `ok` is the whole node set, and otherwise it names exactly the nodes outside `ok`. The result
   is what `DagRunner.DagRunner.Run` ensures for a pipeline with nothing recorded.
   */
  lemma {:induction false} VerdictIsTheSolution(
    g: Graph, succ: DagConfluence.Outcome, ok: set<NodeId>, order: seq<NodeId>, tasks: Tasks, now: int, passes: nat,
    ls: seq<Label>, idle: seq<nat>, told: seq<NodeId>, end: RunState, outcome: Controller.Outcome)
    requires EdgesInside(g) && Acyclic(g) && passes > 0
    requires RunResult(g, order, InitialState(g, RestoredFrom(g, map[], tasks), now), passes, ls, idle, told, end, outcome)
    requires outcome.Returned? || outcome.NodesFailed?
    requires Observes(g, ls, succ) && Solution(g, succ, ok)
    ensures outcome.Returned? <==> ok == g.nodes.Keys
    ensures outcome.Returned? ==> outcome.children.Keys == ok
    ensures outcome.NodesFailed? ==> outcome.failed == g.nodes.Keys - ok
  {
    StartsFresh(g, tasks, now);
    FinishedRunIsSolution(g, ls, succ);
    SolutionIsUnique(g, succ, ok, SuccessSet(g, end));
  }

  /** And a run, with or without fixed outcomes, returns only on an acyclic graph. */
  lemma ReturnedOnlyIfAcyclic(
    g: Graph, order: seq<NodeId>, tasks: Tasks, now: int, passes: nat,
    ls: seq<Label>, idle: seq<nat>, told: seq<NodeId>, end: RunState, outcome: Controller.Outcome)
    requires EdgesInside(g) && passes > 0 && outcome.Returned?
    requires RunResult(g, order, InitialState(g, RestoredFrom(g, map[], tasks), now), passes, ls, idle, told, end, outcome)
    ensures Acyclic(g)
  {
    StartsFresh(g, tasks, now);
    OnlyAcyclicGraphsReturn(g, ls);
  }
}
