/**
 Controller crashes and restarts. The server keeps the recorded pipeline and the child tasks; the
 controller's memory is a run state that a crash wipes out, between two steps or between any two
 backend calls of one step, and that a restart rebuilds with `restore`.
 */
module DagRestart {
  import opened Common
  import opened DagModel
  import opened DagInvariants
  import opened DagRunner

  /** One backend call on the child tasks; `cancel` forces the child to stop. */
  function TaskCall(tasks: Tasks, call: Event): Tasks {
    match call
    case Launched(_, child, _) => tasks[child := Queued]
    case Cancelled(child) => tasks[child := Stopped]
    case Recorded(_, _, _) => tasks
  }

  /** The child tasks after a series of backend calls. */
  function TasksAfter(tasks: Tasks, calls: seq<Event>): Tasks {
    if |calls| == 0 then tasks
    else TaskCall(TasksAfter(tasks, calls[..|calls| - 1]), calls[|calls| - 1])
  }

  lemma AfterCalls(pipeline: map<NodeId, Step>, tasks: Tasks, calls: seq<Event>)
    requires |calls| <= 2
    ensures |calls| == 1 ==>
              && PipelineAfter(pipeline, calls) == RecordCall(pipeline, calls[0])
              && TasksAfter(tasks, calls) == TaskCall(tasks, calls[0])
    ensures |calls| == 2 ==>
              && PipelineAfter(pipeline, calls) == RecordCall(RecordCall(pipeline, calls[0]), calls[1])
              && TasksAfter(tasks, calls) == TaskCall(TaskCall(tasks, calls[0]), calls[1])
  {
    if |calls| > 0 {
      assert calls[..1][..0] == [];
      assert PipelineAfter(pipeline, calls[..1]) == RecordCall(pipeline, calls[0]);
      assert TasksAfter(tasks, calls[..1]) == TaskCall(tasks, calls[0]);
    }
  }

  /**
   `memory` is the controller's run state, if it is up; `log` holds every backend call ever made.
   History: `reported` are the nodes whose child a poll or a restore reported in SUCCESS, `givenUp` the
   children dropped at the error limit with retries left, `owner` the node each child was launched for.
   */
  datatype World = World(
    pipeline: map<NodeId, Step>, tasks: Tasks, memory: Option<RunState>, log: seq<Event>, crashes: nat,
    reported: set<NodeId>, givenUp: set<Handle>, owner: map<Handle, NodeId>)

  datatype Action =
    | Child(task: Handle, status: Status)          // a live child moves on
    | Restart(readable: set<Handle>, now: int)     // the controller comes up
    | Act(step: Label)                             // the controller takes a step
    | Crash(step: Label, done: nat)                // it dies after `done` calls of a step
    | Halt(told: seq<NodeId>)                      // it was cancelled, and ends once it told these to stop

  function Launches(calls: seq<Event>): set<Handle> {
    set i | 0 <= i < |calls| && calls[i].Launched? :: calls[i].child
  }

  /** A poll answers with the child's status or with an exception; a new child has a new id. */
  predicate Honest(g: Graph, w: World, l: Label)
    requires w.memory.Some? && WellFormed(g, w.memory.value) && EdgesInside(g)
  {
    && l.node in g.nodes
    && match l
       case Visit(_, ticket, _) => ticket !in w.tasks
       case Poll(n, reply, _) =>
         var c := w.memory.value.cells[n];
         c.child.Some? && reply.Reports? ==> c.child.value in w.tasks && reply.status == w.tasks[c.child.value]
  }

  ghost predicate Enabled(g: Graph, w: World, a: Action)
    requires EdgesInside(g)
  {
    match a
    case Child(h, st) => h in w.tasks && !IsTerminal(w.tasks[h]) && !st.Pending?
    case Restart(_, _) => w.memory.None?
    case Act(l) => w.memory.Some? && WellFormed(g, w.memory.value) && Honest(g, w, l)
    case Crash(l, done) =>
      && w.memory.Some? && WellFormed(g, w.memory.value) && Honest(g, w, l)
      && done <= |Calls(g, w.memory.value, l)|
    case Halt(told) =>
      && w.memory.Some? && WellFormed(g, w.memory.value)
      && forall i :: 0 <= i < |told| ==> told[i] in g.nodes && Tracked(w.memory.value.cells[told[i]])
  }

  /** The server after the calls of (a part of) a step at node n. */
  function Serve(w: World, calls: seq<Event>, n: NodeId): World {
    w.(pipeline := PipelineAfter(w.pipeline, calls),
       tasks := TasksAfter(w.tasks, calls),
       log := w.log + calls,
       owner := map h | h in w.owner.Keys + Launches(calls) :: if h in w.owner then w.owner[h] else n)
  }

  /** The branch in which a child is let go without being told to stop: the poll raises at the error
      limit, the child is not overdue, and the node has an attempt left. */
  predicate GivesUp(g: Graph, s: RunState, l: Label)
    requires WellFormed(g, s) && l.node in g.nodes
  {
    var cfg, c := g.nodes[l.node], s.cells[l.node];
    && l.Poll? && l.reply.Raises? && Tracked(c)
    && c.errors + 1 >= ERROR_LIMIT && !Overdue(cfg, c, l.now) && c.attempts <= cfg.retries
  }

  function GivenUp(g: Graph, s: RunState, l: Label): set<Handle>
    requires WellFormed(g, s) && l.node in g.nodes
  {
    if GivesUp(g, s, l) then {s.cells[l.node].child.value} else {}
  }

  /** The controller takes a whole step. */
  ghost function ActNext(g: Graph, w: World, s: RunState, l: Label): World
    requires EdgesInside(g) && WellFormed(g, s) && l.node in g.nodes
  {
    Serve(w, Calls(g, s, l), l.node).(
      memory := Some(Apply(g, s, l)),
      reported := w.reported + SuccessSet(g, Apply(g, s, l)),
      givenUp := w.givenUp + GivenUp(g, s, l))
  }

  ghost function Next(g: Graph, w: World, a: Action): World
    requires EdgesInside(g) && Enabled(g, w, a)
  {
    match a
    case Child(h, st) => w.(tasks := w.tasks[h := st])
    case Restart(readable, now) =>
      var seen := map h | h in w.tasks && h in readable :: w.tasks[h];
      var s := InitialState(g, RestoredFrom(g, w.pipeline, seen), now);
      w.(memory := Some(s), reported := w.reported + SuccessSet(g, s))
    case Act(l) => ActNext(g, w, w.memory.value, l)
    case Crash(l, done) =>
      Serve(w, Calls(g, w.memory.value, l)[..done], l.node).(memory := None, crashes := w.crashes + 1)
    case Halt(told) =>
      w.(tasks := TasksAfter(w.tasks, Cancels(w.memory.value, told)),
         log := w.log + Cancels(w.memory.value, told), memory := None)
  }

  /** Nothing recorded, nothing launched, the controller not yet up. */
  const FIRST := World(map[], map[], None, [], 0, {}, {}, map[])

  ghost predicate Reachable(g: Graph, ws: seq<World>, actions: seq<Action>)
    requires EdgesInside(g)
  {
    && |ws| == |actions| + 1
    && ws[0] == FIRST
    && forall i :: 0 <= i < |actions| ==> Enabled(g, ws[i], actions[i]) && ws[i + 1] == Next(g, ws[i], actions[i])
  }

  // ------------------------------------------------------------------ invariant

  /** A child that ended without success. */
  predicate Ended(tasks: Tasks, h: Handle) {
    h in tasks && IsTerminal(tasks[h]) && !IsSuccess(tasks[h])
  }

  predicate Spent(w: World, h: Handle) {
    h in w.givenUp || Ended(w.tasks, h)
  }

  ghost predicate ServerInv(w: World) {
    && (forall n :: Adopts(w.pipeline, n) ==>
          && w.pipeline[n].job.value in w.tasks && w.pipeline[n].job.value in w.owner
          && w.owner[w.pipeline[n].job.value] == n)
    && (forall h :: h in w.tasks ==> !w.tasks[h].Pending?)
    && w.owner.Keys == w.tasks.Keys
  }

  /** What memory and server know about one node. */
  predicate NodeInv(w: World, n: NodeId, c: Cell) {
    && (c.child.Some? ==> Adopts(w.pipeline, n) && w.pipeline[n].job == c.child)
    && (c.status.Pending? && Adopts(w.pipeline, n) ==> Spent(w, w.pipeline[n].job.value))
  }

  ghost predicate MemoryInv(g: Graph, w: World, s: RunState) {
    && Sound(g, s)
    && (forall n :: n in g.nodes ==> NodeInv(w, n, s.cells[n]))
    && SuccessSet(g, s) <= w.reported
    && forall n :: n in w.reported && n in g.nodes ==> IsTerminal(s.cells[n].status)
  }

  /** A reported node keeps its successful child on record. */
  predicate KeepsSuccess(w: World, n: NodeId) {
    && Adopts(w.pipeline, n) && w.pipeline[n].job.value in w.tasks
    && IsSuccess(w.tasks[w.pipeline[n].job.value])
  }

  ghost predicate Inv(g: Graph, w: World) {
    && ServerInv(w)
    && (w.memory.Some? ==> MemoryInv(g, w, w.memory.value))
    && (forall n :: n in w.reported ==> n in g.nodes && KeepsSuccess(w, n))
  }

  // ------------------------------------------------- what a step does to the server

  /** The effect of the first calls of a poll: at most the child's cancellation and a record of
      the same child. */
  ghost predicate PollEffect(g: Graph, w: World, s: RunState, l: Label, r: World)
    requires WellFormed(g, s) && l.Poll? && l.node in g.nodes
  {
    var n, c := l.node, s.cells[l.node];
    && r.owner == w.owner
    && (r.pipeline == w.pipeline || (Tracked(c) && exists st :: r.pipeline == w.pipeline[n := Step(c.child, st)]))
    && (r.tasks == w.tasks
        || (Tracked(c) && Overdue(g.nodes[n], c, l.now) && r.tasks == w.tasks[c.child.value := Stopped]))
  }

  lemma PollServes(g: Graph, w: World, s: RunState, l: Label, done: nat)
    requires EdgesInside(g) && WellFormed(g, s) && l.Poll? && l.node in g.nodes
    requires done <= |Calls(g, s, l)|
    ensures PollEffect(g, w, s, l, Serve(w, Calls(g, s, l)[..done], l.node))
    ensures done == |Calls(g, s, l)| && Tracked(s.cells[l.node]) ==>
              var c := s.cells[l.node];
              Serve(w, Calls(g, s, l)[..done], l.node).tasks ==
                if Overdue(g.nodes[l.node], c, l.now) && !Ignored(c, l.reply)
                then w.tasks[c.child.value := Stopped] else w.tasks
  {
    var calls := Calls(g, s, l)[..done];
    AfterCalls(w.pipeline, w.tasks, calls);
    assert Launches(calls) == {};
    var r := Serve(w, calls, l.node);
    assert r.owner == w.owner;
    if done > 0 && calls[done - 1].Recorded? {
      assert r.pipeline == w.pipeline[l.node := Step(s.cells[l.node].child, calls[done - 1].status)];
    }
  }

  /** Polls touch the record of their own node only, and stop only their own overdue child. */
  lemma PollKeepsServer(g: Graph, w: World, s: RunState, l: Label, r: World)
    requires EdgesInside(g) && ServerInv(w) && MemoryInv(g, w, s) && l.Poll? && l.node in g.nodes
    requires PollEffect(g, w, s, l, r)
    ensures ServerInv(r)
    ensures forall n :: Adopts(r.pipeline, n) <==> Adopts(w.pipeline, n)
    ensures forall n :: Adopts(w.pipeline, n) ==> r.pipeline[n].job == w.pipeline[n].job
    ensures forall n :: n in w.reported && KeepsSuccess(w, n) ==> KeepsSuccess(r, n)
  {
    assert NodeInv(w, l.node, s.cells[l.node]);
  }

  /** What is known of a node survives when its record does and spent children stay spent. */
  lemma OtherNode(w: World, r: World, n: NodeId, c: Cell)
    requires NodeInv(w, n, c)
    requires Adopts(r.pipeline, n) <==> Adopts(w.pipeline, n)
    requires Adopts(w.pipeline, n) ==> r.pipeline[n].job == w.pipeline[n].job
    requires Adopts(w.pipeline, n) && Spent(w, w.pipeline[n].job.value) ==> Spent(r, w.pipeline[n].job.value)
    ensures NodeInv(r, n, c)
  {
  }

  lemma PolledNode(g: Graph, w: World, s: RunState, l: Label, r: World)
    requires EdgesInside(g) && ServerInv(w) && MemoryInv(g, w, s) && l.Poll? && l.node in g.nodes
    requires w.memory == Some(s) && Honest(g, w, l) && Tracked(s.cells[l.node])
    requires Adopts(r.pipeline, l.node) && r.pipeline[l.node].job == s.cells[l.node].child
    requires Overdue(g.nodes[l.node], s.cells[l.node], l.now) && !Ignored(s.cells[l.node], l.reply) ==>
               r.tasks == w.tasks[s.cells[l.node].child.value := Stopped]
    requires !Overdue(g.nodes[l.node], s.cells[l.node], l.now) || Ignored(s.cells[l.node], l.reply) ==>
               r.tasks == w.tasks
    requires r.givenUp == w.givenUp + GivenUp(g, s, l)
    ensures NodeInv(r, l.node, Apply(g, s, l).cells[l.node])
    ensures IsSuccess(Apply(g, s, l).cells[l.node].status) ==> KeepsSuccess(r, l.node)
  {
    assert NodeInv(w, l.node, s.cells[l.node]);
  }

  /** An idle step leaves the server alone. */
  lemma UntrackedPoll(g: Graph, w: World, s: RunState, l: Label)
    requires EdgesInside(g) && WellFormed(g, s) && l.Poll? && l.node in g.nodes && !Tracked(s.cells[l.node])
    ensures Calls(g, s, l) == [] && Apply(g, s, l) == s
    ensures Serve(w, [], l.node) == w
  {
    assert s.cells[l.node := s.cells[l.node]] == s.cells;
    assert Launches([]) == {};
  }

  lemma StepKeepsSound(g: Graph, s: RunState, l: Label)
    requires EdgesInside(g) && Sound(g, s)
    ensures Sound(g, Apply(g, s, l))
  {
    RunOneMore(g, s, [], l);
  }

  lemma PollKeepsInv(g: Graph, w: World, s: RunState, l: Label)
    requires EdgesInside(g) && Inv(g, w) && w.memory == Some(s) && l.Poll? && Honest(g, w, l)
    requires Tracked(s.cells[l.node])
    ensures Inv(g, ActNext(g, w, s, l))
  {
    var calls := Calls(g, s, l);
    assert calls[..|calls|] == calls;
    PollServes(g, w, s, l, |calls|);
    var served, r, after := Serve(w, calls, l.node), ActNext(g, w, s, l), Apply(g, s, l);
    PollKeepsServer(g, w, s, l, served);
    StepKeepsSound(g, s, l);
    assert NodeInv(w, l.node, s.cells[l.node]);
    PolledNode(g, w, s, l, r);
    forall n | n in g.nodes && n != l.node
      ensures NodeInv(r, n, after.cells[n])
    {
      OtherNode(w, r, n, s.cells[n]);
    }
    forall n | n in r.reported
      ensures n in g.nodes && KeepsSuccess(r, n) && IsTerminal(after.cells[n].status)
    {
      if n != l.node {
        assert n in w.reported;
        assert KeepsSuccess(served, n);
      }
    }
  }

  /** The effect of the first calls of a visit: nothing, a new child, or a record of the node. */
  ghost predicate VisitEffect(g: Graph, w: World, s: RunState, l: Label, done: nat, r: World)
    requires WellFormed(g, s) && EdgesInside(g) && l.Visit? && l.node in g.nodes
  {
    var n := l.node;
    match Decide(g, s, n)
    case Wait => r.pipeline == w.pipeline && r.tasks == w.tasks && r.owner == w.owner
    case Block =>
      && r.tasks == w.tasks && r.owner == w.owner
      && r.pipeline == (if done == 0 then w.pipeline else w.pipeline[n := Step(None, Aborted)])
    case Launch =>
      && r.tasks == (if done == 0 then w.tasks else w.tasks[l.ticket := Queued])
      && r.owner == (if done == 0 || l.ticket in w.owner then w.owner else w.owner[l.ticket := n])
      && r.pipeline == (if done < 2 then w.pipeline else w.pipeline[n := Step(Some(l.ticket), Queued)])
  }

  lemma VisitServes(g: Graph, w: World, s: RunState, l: Label, done: nat)
    requires EdgesInside(g) && WellFormed(g, s) && l.Visit? && l.node in g.nodes
    requires done <= |Calls(g, s, l)|
    ensures VisitEffect(g, w, s, l, done, Serve(w, Calls(g, s, l)[..done], l.node))
  {
    var calls := Calls(g, s, l)[..done];
    AfterCalls(w.pipeline, w.tasks, calls);
    var r := Serve(w, calls, l.node);
    if Decide(g, s, l.node).Launch? && done > 0 {
      assert calls[0].child == l.ticket;
      assert Launches(calls) == {l.ticket};
    } else {
      assert Launches(calls) == {};
      assert r.owner == w.owner;
    }
  }

  /** A visit spares every recorded child; it may only replace the record of a pending node. */
  lemma VisitKeepsServer(g: Graph, w: World, s: RunState, l: Label, done: nat, r: World)
    requires EdgesInside(g) && ServerInv(w) && MemoryInv(g, w, s) && l.Visit? && l.node in g.nodes
    requires l.ticket !in w.tasks && VisitEffect(g, w, s, l, done, r)
    ensures ServerInv(r)
    ensures forall h :: h in w.tasks ==> h in r.tasks && r.tasks[h] == w.tasks[h]
    ensures forall n :: n != l.node ==> (Adopts(r.pipeline, n) <==> Adopts(w.pipeline, n))
    ensures forall n :: n != l.node && Adopts(w.pipeline, n) ==> r.pipeline[n].job == w.pipeline[n].job
    ensures forall n :: n in g.nodes && n in w.reported && KeepsSuccess(w, n) ==> KeepsSuccess(r, n)
  {
  }

  lemma VisitedNode(g: Graph, w: World, s: RunState, l: Label, done: nat, r: World)
    requires EdgesInside(g) && ServerInv(w) && MemoryInv(g, w, s) && l.Visit? && l.node in g.nodes
    requires done == |Calls(g, s, l)| && VisitEffect(g, w, s, l, done, r) && r.givenUp == w.givenUp
    ensures NodeInv(r, l.node, Apply(g, s, l).cells[l.node])
  {
    assert NodeInv(w, l.node, s.cells[l.node]);
  }

  lemma VisitKeepsMarks(g: Graph, s: RunState, l: Label)
    requires EdgesInside(g) && WellFormed(g, s) && l.Visit? && l.node in g.nodes
    ensures SuccessSet(g, Apply(g, s, l)) == SuccessSet(g, s)
    ensures forall n :: n in g.nodes && IsTerminal(s.cells[n].status) ==> Apply(g, s, l).cells[n] == s.cells[n]
  {
  }

  lemma VisitKeepsMemory(g: Graph, w: World, s: RunState, l: Label, served: World, r: World)
    requires EdgesInside(g) && ServerInv(w) && MemoryInv(g, w, s) && l.Visit? && l.node in g.nodes
    requires l.ticket !in w.tasks && VisitEffect(g, w, s, l, |Calls(g, s, l)|, served)
    requires r.pipeline == served.pipeline && r.tasks == served.tasks && r.owner == served.owner
    requires r.reported == w.reported && r.givenUp == w.givenUp
    ensures MemoryInv(g, r, Apply(g, s, l))
  {
    VisitKeepsServer(g, w, s, l, |Calls(g, s, l)|, served);
    StepKeepsSound(g, s, l);
    VisitedNode(g, w, s, l, |Calls(g, s, l)|, r);
    VisitKeepsMarks(g, s, l);
    forall n | n in g.nodes && n != l.node
      ensures NodeInv(r, n, Apply(g, s, l).cells[n])
    {
      OtherNode(w, r, n, s.cells[n]);
    }
  }

  lemma VisitKeepsInv(g: Graph, w: World, s: RunState, l: Label)
    requires EdgesInside(g) && Inv(g, w) && w.memory == Some(s) && l.Visit? && Honest(g, w, l)
    ensures Inv(g, ActNext(g, w, s, l))
  {
    var calls := Calls(g, s, l);
    assert calls[..|calls|] == calls;
    var served, r := Serve(w, calls, l.node), ActNext(g, w, s, l);
    VisitServes(g, w, s, l, |calls|);
    VisitKeepsMarks(g, s, l);
    VisitKeepsMemory(g, w, s, l, served, r);
    VisitKeepsRecords(g, w, s, l, served, r);
  }

  lemma VisitKeepsRecords(g: Graph, w: World, s: RunState, l: Label, served: World, r: World)
    requires EdgesInside(g) && Inv(g, w) && MemoryInv(g, w, s) && l.Visit? && l.node in g.nodes
    requires l.ticket !in w.tasks && VisitEffect(g, w, s, l, |Calls(g, s, l)|, served)
    requires r.pipeline == served.pipeline && r.tasks == served.tasks && r.owner == served.owner
    requires r.reported == w.reported
    ensures ServerInv(r) && forall n :: n in r.reported ==> n in g.nodes && KeepsSuccess(r, n)
  {
    VisitKeepsServer(g, w, s, l, |Calls(g, s, l)|, r);
    assert forall n :: n in w.reported ==> KeepsSuccess(w, n);
  }

  lemma CrashKeepsInv(g: Graph, w: World, s: RunState, l: Label, done: nat)
    requires EdgesInside(g) && Inv(g, w) && w.memory == Some(s) && Honest(g, w, l)
    requires done <= |Calls(g, s, l)|
    ensures Inv(g, Next(g, w, Crash(l, done)))
  {
    var served, r := Serve(w, Calls(g, s, l)[..done], l.node), Next(g, w, Crash(l, done));
    if l.Poll? {
      PollServes(g, w, s, l, done);
      PollKeepsServer(g, w, s, l, served);
    } else {
      VisitServes(g, w, s, l, done);
      VisitKeepsServer(g, w, s, l, done, served);
    }
    forall n | n in r.reported
      ensures KeepsSuccess(r, n)
    {
      assert KeepsSuccess(served, n);
    }
  }

  lemma RestartKeepsInv(g: Graph, w: World, readable: set<Handle>, now: int)
    requires EdgesInside(g) && Inv(g, w) && w.memory.None?
    ensures Inv(g, Next(g, w, Restart(readable, now)))
  {
    var r := Next(g, w, Restart(readable, now));
    var s := r.memory.value;
    forall n | n in g.nodes
      ensures NodeInv(r, n, s.cells[n]) && SoundCell(g.nodes[n], s.cells[n])
      ensures IsSuccess(s.cells[n].status) ==> KeepsSuccess(r, n)
      ensures KeepsSuccess(w, n) ==> IsTerminal(s.cells[n].status)
    {
    }
    forall n | n in r.reported
      ensures KeepsSuccess(r, n)
    {
      assert n in w.reported || n in SuccessSet(g, s);
    }
  }

  lemma ChildKeepsInv(g: Graph, w: World, h: Handle, st: Status)
    requires EdgesInside(g) && Inv(g, w) && Enabled(g, w, Child(h, st))
    ensures Inv(g, Next(g, w, Child(h, st)))
  {
    var r := Next(g, w, Child(h, st));
    if w.memory.Some? {
      forall n | n in g.nodes
        ensures NodeInv(r, n, w.memory.value.cells[n])
      {
        OtherNode(w, r, n, w.memory.value.cells[n]);
      }
    }
    forall n | n in r.reported
      ensures KeepsSuccess(r, n)
    {
      assert KeepsSuccess(w, n);
    }
  }

  /** What telling some children to stop does. */
  lemma {:induction false} CancelsServe(tasks: Tasks, s: RunState, told: seq<NodeId>)
    requires forall i :: 0 <= i < |told| ==> told[i] in s.cells && s.cells[told[i]].child.Some?
    ensures forall i :: 0 <= i < |Cancels(s, told)| ==> Cancels(s, told)[i].Cancelled?
    ensures forall h :: h in TasksAfter(tasks, Cancels(s, told)) <==>
              h in tasks || exists n :: n in told && s.cells[n].child.value == h
    ensures forall h :: h in TasksAfter(tasks, Cancels(s, told)) ==>
              TasksAfter(tasks, Cancels(s, told))[h] ==
                if exists n :: n in told && s.cells[n].child.value == h then Stopped else tasks[h]
  {
    if |told| > 0 {
      var before, last := told[..|told| - 1], told[|told| - 1];
      CancelsServe(tasks, s, before);
      assert told == before + [last];
      var calls := Cancels(s, told);
      assert calls[..|calls| - 1] == Cancels(s, before);
    }
  }

  lemma HaltKeepsInv(g: Graph, w: World, told: seq<NodeId>)
    requires EdgesInside(g) && Inv(g, w) && Enabled(g, w, Halt(told))
    ensures Inv(g, Next(g, w, Halt(told)))
  {
    var s, r := w.memory.value, Next(g, w, Halt(told));
    CancelsServe(w.tasks, s, told);
    forall n | n in told
      ensures Adopts(w.pipeline, n) && w.pipeline[n].job == s.cells[n].child && n !in w.reported
    {
      assert NodeInv(w, n, s.cells[n]);
    }
    forall n | n in r.reported
      ensures KeepsSuccess(r, n)
    {
      assert KeepsSuccess(w, n);
    }
  }

  lemma ActionKeepsInv(g: Graph, w: World, a: Action)
    requires EdgesInside(g) && Inv(g, w) && Enabled(g, w, a)
    ensures Inv(g, Next(g, w, a))
  {
    match a
    case Child(h, st) => ChildKeepsInv(g, w, h, st);
    case Restart(readable, now) => RestartKeepsInv(g, w, readable, now);
    case Crash(l, done) => CrashKeepsInv(g, w, w.memory.value, l, done);
    case Halt(told) => HaltKeepsInv(g, w, told);
    case Act(l) =>
      var s := w.memory.value;
      if l.Visit? {
        VisitKeepsInv(g, w, s, l);
      } else if Tracked(s.cells[l.node]) {
        PollKeepsInv(g, w, s, l);
      } else {
        UntrackedPoll(g, w, s, l);
        assert w.reported + SuccessSet(g, s) == w.reported;
        assert w.givenUp + {} == w.givenUp;
      }
  }

  lemma {:induction false} InvHolds(g: Graph, ws: seq<World>, actions: seq<Action>, i: nat)
    requires EdgesInside(g) && Reachable(g, ws, actions) && i < |ws|
    ensures Inv(g, ws[i])
  {
    if i > 0 {
      InvHolds(g, ws, actions, i - 1);
      ActionKeepsInv(g, ws[i - 1], actions[i - 1]);
    }
  }

  // ------------------------------------------------------------------- theorems

  /** Action i launches a child for node n (even if the controller dies right after). */
  ghost predicate LaunchesAt(g: Graph, ws: seq<World>, actions: seq<Action>, i: nat, n: NodeId)
    requires EdgesInside(g) && Reachable(g, ws, actions) && i < |actions|
  {
    && (actions[i].Act? || (actions[i].Crash? && actions[i].done > 0))
    && actions[i].step.Visit? && actions[i].step.node == n
    && Decide(g, ws[i].memory.value, n).Launch?
  }

  /** Action j gives up the child h of node n at the error limit. */
  ghost predicate GivesUpAt(g: Graph, ws: seq<World>, actions: seq<Action>, j: nat, n: NodeId, h: Handle)
    requires EdgesInside(g) && Reachable(g, ws, actions) && j < |actions|
  {
    && actions[j].Act? && actions[j].step.node == n
    && GivesUp(g, ws[j].memory.value, actions[j].step)
    && ws[j].memory.value.cells[n].child == Some(h)
  }

  lemma {:induction false} GivenUpBefore(g: Graph, ws: seq<World>, actions: seq<Action>, i: nat, h: Handle)
    returns (j: nat, n: NodeId)
    requires EdgesInside(g) && Reachable(g, ws, actions) && i < |ws| && h in ws[i].givenUp
    ensures j < i && GivesUpAt(g, ws, actions, j, n, h)
  {
    if h in ws[i - 1].givenUp {
      j, n := GivenUpBefore(g, ws, actions, i - 1, h);
    } else {
      j, n := i - 1, actions[i - 1].step.node;
    }
  }

  lemma {:induction false} OwnersStay(g: Graph, ws: seq<World>, actions: seq<Action>, i: nat, j: nat, h: Handle)
    requires EdgesInside(g) && Reachable(g, ws, actions) && i <= j < |ws| && h in ws[i].owner
    ensures h in ws[j].owner && ws[j].owner[h] == ws[i].owner[h]
    decreases j
  {
    if i < j {
      OwnersStay(g, ws, actions, i, j - 1, h);
    }
  }

  /**
   Restart safety, any number of crashes and restarts: a launch replaces a recorded child only if the
   child ended without success, or the node let it go earlier in the branch of `GivesUp`. So while no
   poll of a node takes that branch, no recorded child that lives or succeeded is ever duplicated.
   */
  lemma {:induction false} RelaunchOnlyReplacesSpentChild(g: Graph, ws: seq<World>, actions: seq<Action>, i: nat, n: NodeId)
    requires EdgesInside(g) && Reachable(g, ws, actions) && i < |actions| && LaunchesAt(g, ws, actions, i, n)
    requires Adopts(ws[i].pipeline, n)
    ensures var h := ws[i].pipeline[n].job.value;
            Ended(ws[i].tasks, h) || exists j :: 0 <= j < i && GivesUpAt(g, ws, actions, j, n, h)
  {
    InvHolds(g, ws, actions, i);
    assert NodeInv(ws[i], n, ws[i].memory.value.cells[n]);
    var h := ws[i].pipeline[n].job.value;
    if h in ws[i].givenUp {
      var j, m := GivenUpBefore(g, ws, actions, i, h);
      InvHolds(g, ws, actions, j);
      assert NodeInv(ws[j], m, ws[j].memory.value.cells[m]);
      OwnersStay(g, ws, actions, j, i, h);
    }
  }

  lemma PollFrees(g: Graph, w: World, s: RunState, l: Label, h: Handle)
    requires EdgesInside(g) && Inv(g, w) && w.memory == Some(s) && l.Poll? && Honest(g, w, l)
    requires Tracked(s.cells[l.node]) && s.cells[l.node].child == Some(h)
    ensures Apply(g, s, l).cells[l.node].status.Pending? && !Ended(ActNext(g, w, s, l).tasks, h) <==>
              GivesUp(g, s, l) && !Ended(w.tasks, h)
  {
    var calls := Calls(g, s, l);
    assert calls[..|calls|] == calls;
    PollServes(g, w, s, l, |calls|);
    assert NodeInv(w, l.node, s.cells[l.node]);
  }

  /** That branch is the only one in which a poll frees a node for a launch while its child has not ended. */
  lemma {:induction false} OnlyGivingUpFreesTheNode(g: Graph, ws: seq<World>, actions: seq<Action>, j: nat, n: NodeId, h: Handle)
    requires EdgesInside(g) && Reachable(g, ws, actions) && j < |actions|
    requires actions[j].Act? && actions[j].step.Poll? && actions[j].step.node == n
    requires Tracked(ws[j].memory.value.cells[n]) && ws[j].memory.value.cells[n].child == Some(h)
    ensures ws[j + 1].memory.value.cells[n].status.Pending? && !Ended(ws[j + 1].tasks, h) <==>
              GivesUpAt(g, ws, actions, j, n, h) && !Ended(ws[j].tasks, h)
  {
    InvHolds(g, ws, actions, j);
    PollFrees(g, ws[j], ws[j].memory.value, actions[j].step, h);
  }

  function Last(ws: seq<World>): World
    requires |ws| > 0
  {
    ws[|ws| - 1]
  }

  lemma Extend(g: Graph, ws: seq<World>, actions: seq<Action>, a: Action) returns (ws': seq<World>, actions': seq<Action>)
    requires EdgesInside(g) && Reachable(g, ws, actions) && Enabled(g, Last(ws), a)
    ensures ws' == ws + [Next(g, Last(ws), a)] && actions' == actions + [a]
    ensures Reachable(g, ws', actions')
  {
    ws', actions' := ws + [Next(g, Last(ws), a)], actions + [a];
  }

  /** What a poll that gives a child up leaves behind. */
  lemma AfterGivingUp(g: Graph, w: World, s: RunState, l: Label)
    requires EdgesInside(g) && Inv(g, w) && w.memory == Some(s) && l.node in g.nodes && GivesUp(g, s, l)
    requires ParentsDone(g, s, l.node)
    ensures var n := l.node;
            var r := ActNext(g, w, s, l);
            && r.tasks == w.tasks && Adopts(r.pipeline, n) && r.pipeline[n].job == s.cells[n].child
            && r.memory == Some(Apply(g, s, l)) && Decide(g, Apply(g, s, l), n).Launch?
  {
    var n, calls := l.node, Calls(g, s, l);
    assert calls[..|calls|] == calls;
    PollServes(g, w, s, l, |calls|);
    assert NodeInv(w, n, s.cells[n]);
    ParentsStayDone(g, s, l, n);
    AfterCalls(w.pipeline, w.tasks, calls);
  }

  /** What a launch leaves behind. */
  lemma AfterLaunch(g: Graph, w: World, s: RunState, v: Label)
    requires EdgesInside(g) && Inv(g, w) && w.memory == Some(s) && v.Visit? && Honest(g, w, v)
    requires Decide(g, s, v.node).Launch?
    ensures var r := ActNext(g, w, s, v);
            && r.tasks == w.tasks[v.ticket := Queued]
            && v.node in r.pipeline && r.pipeline[v.node].job == Some(v.ticket)
  {
    VisitServes(g, w, s, v, 2);
    assert Calls(g, s, v)[..2] == Calls(g, s, v);
  }

  lemma {:induction false} FreedByPoll(g: Graph, ws: seq<World>, actions: seq<Action>, l: Label)
    returns (ws': seq<World>, actions': seq<Action>)
    requires EdgesInside(g) && Reachable(g, ws, actions) && Last(ws).memory.Some? && l.node in g.nodes
    requires WellFormed(g, Last(ws).memory.value) && GivesUp(g, Last(ws).memory.value, l)
    requires ParentsDone(g, Last(ws).memory.value, l.node)
    ensures Reachable(g, ws', actions') && actions' == actions + [Act(l)] && Inv(g, Last(ws')) && Inv(g, Last(ws))
    ensures Last(ws').tasks == Last(ws).tasks && Last(ws').memory.Some?
    ensures Adopts(Last(ws').pipeline, l.node)
    ensures Last(ws').pipeline[l.node].job == Last(ws).memory.value.cells[l.node].child
    ensures WellFormed(g, Last(ws').memory.value) && Decide(g, Last(ws').memory.value, l.node).Launch?
  {
    InvHolds(g, ws, actions, |ws| - 1);
    AfterGivingUp(g, Last(ws), Last(ws).memory.value, l);
    ws', actions' := Extend(g, ws, actions, Act(l));
    InvHolds(g, ws', actions', |ws'| - 1);
  }

  lemma {:induction false} LaunchedNext(g: Graph, ws: seq<World>, actions: seq<Action>, v: Label)
    returns (ws': seq<World>, actions': seq<Action>)
    requires EdgesInside(g) && Reachable(g, ws, actions) && Inv(g, Last(ws)) && Last(ws).memory.Some?
    requires v.Visit? && Honest(g, Last(ws), v) && Decide(g, Last(ws).memory.value, v.node).Launch?
    ensures Reachable(g, ws', actions') && actions' == actions + [Act(v)] && ws'[|actions|] == Last(ws)
    ensures LaunchesAt(g, ws', actions', |actions|, v.node)
    ensures Last(ws').tasks == Last(ws).tasks[v.ticket := Queued]
    ensures v.node in Last(ws').pipeline && Last(ws').pipeline[v.node].job == Some(v.ticket)
  {
    AfterLaunch(g, Last(ws), Last(ws).memory.value, v);
    ws', actions' := Extend(g, ws, actions, Act(v));
  }

  /**
   And in that branch the launch follows: from any reachable world, a node that gives up a child that
   has not ended launches another one, which takes over the record while the first goes on.
   */
  lemma {:induction false} GivenUpChildIsReplaced(
    g: Graph, ws: seq<World>, actions: seq<Action>, l: Label, ticket: Handle, h: Handle)
    returns (ws': seq<World>, actions': seq<Action>)
    requires EdgesInside(g) && Reachable(g, ws, actions) && Last(ws).memory.Some? && l.node in g.nodes
    requires WellFormed(g, Last(ws).memory.value) && GivesUp(g, Last(ws).memory.value, l)
    requires Last(ws).memory.value.cells[l.node].child == Some(h) && !Ended(Last(ws).tasks, h)
    requires ParentsDone(g, Last(ws).memory.value, l.node) && ticket !in Last(ws).tasks
    ensures Reachable(g, ws', actions') && actions' == actions + [Act(l)] + [Act(Visit(l.node, ticket, l.now))]
    ensures LaunchesAt(g, ws', actions', |actions| + 1, l.node)
    ensures var w := ws'[|actions| + 1];
            Adopts(w.pipeline, l.node) && w.pipeline[l.node].job == Some(h) && w.tasks == Last(ws).tasks
    ensures h in Last(ws).tasks && Last(ws').tasks == Last(ws).tasks[ticket := Queued] && h != ticket
    ensures l.node in Last(ws').pipeline && Last(ws').pipeline[l.node].job == Some(ticket)
  {
    var ws1, actions1 := FreedByPoll(g, ws, actions, l);
    ws', actions' := LaunchedNext(g, ws1, actions1, Visit(l.node, ticket, l.now));
  }

  // ------------------------------------------- a live child is duplicated: an example

  /** One node without retries. */
  const LONE: Graph := Graph(map[0 := Config(0, false, 0)], map[])

  /** The node's child runs, and nothing else ever happened to it. */
  predicate LoneChild(w: World, errors: nat) {
    && w.tasks == map[10 := InProgress] && w.pipeline == map[0 := Step(Some(10), Queued)]
    && w.memory.Some? && w.memory.value.cells == map[0 := Cell(InProgress, 0, Some(10), 0, errors)]
  }

  lemma LoneLaunched() returns (ws: seq<World>, actions: seq<Action>)
    ensures EdgesInside(LONE) && Reachable(LONE, ws, actions)
    ensures Last(ws).tasks == map[10 := Queued] && Last(ws).pipeline == map[0 := Step(Some(10), Queued)]
    ensures Last(ws).memory.Some? && WellFormed(LONE, Last(ws).memory.value)
  {
    ws, actions := [FIRST], [];
    ws, actions := Extend(LONE, ws, actions, Restart({}, 0));
    var w, s := Last(ws), Last(ws).memory.value;
    assert s.cells[0] == Cell(Pending, 0, None, 0, 0);
    var v := Visit(0, 10, 0);
    assert Decide(LONE, s, 0).Launch?;
    VisitServes(LONE, w, s, v, 2);
    assert Calls(LONE, s, v)[..2] == Calls(LONE, s, v);
    ws, actions := Extend(LONE, ws, actions, Act(v));
    assert Last(ws).tasks == map[10 := Queued];
  }

  /** The controller crashes while the child runs, and restores it: no attempt is counted. */
  lemma LoneRestored() returns (ws: seq<World>, actions: seq<Action>)
    ensures EdgesInside(LONE) && Reachable(LONE, ws, actions) && LoneChild(Last(ws), 0)
  {
    ws, actions := LoneLaunched();
    ws, actions := Extend(LONE, ws, actions, Child(10, InProgress));
    assert Last(ws).tasks == map[10 := InProgress];
    var l := Poll(0, Raises, 0);
    assert Calls(LONE, Last(ws).memory.value, l)[..0] == [];
    ws, actions := Extend(LONE, ws, actions, Crash(l, 0));
    ws, actions := Extend(LONE, ws, actions, Restart({10}, 0));
    assert Last(ws).memory.value.cells == map[0 := Cell(InProgress, 0, Some(10), 0, 0)];
  }

  lemma LonePoll(ws: seq<World>, actions: seq<Action>, errors: nat) returns (ws': seq<World>, actions': seq<Action>)
    requires EdgesInside(LONE) && Reachable(LONE, ws, actions) && LoneChild(Last(ws), errors) && errors + 1 < ERROR_LIMIT
    ensures Reachable(LONE, ws', actions') && LoneChild(Last(ws'), errors + 1)
  {
    var l := Poll(0, Raises, 0);
    assert Calls(LONE, Last(ws).memory.value, l) == [];
    ws', actions' := Extend(LONE, ws, actions, Act(l));
    assert Last(ws').memory.value.cells == map[0 := Cell(InProgress, 0, Some(10), 0, errors + 1)];
  }

  /** After a restart and five failed polls, a node with no retries is launched while its child runs. */
  lemma LiveChildIsDuplicated() returns (ws: seq<World>, actions: seq<Action>)
    ensures EdgesInside(LONE) && Reachable(LONE, ws, actions) && LONE.nodes[0].retries == 0
    ensures |actions| > 0 && LaunchesAt(LONE, ws, actions, |actions| - 1, 0)
    ensures var w := ws[|actions| - 1];
            && Adopts(w.pipeline, 0) && w.pipeline[0].job == Some(10)
            && 10 in w.tasks && w.tasks[10].InProgress?
  {
    ws, actions := LoneRestored();
    ws, actions := LonePoll(ws, actions, 0);
    ws, actions := LonePoll(ws, actions, 1);
    ws, actions := LonePoll(ws, actions, 2);
    ws, actions := LonePoll(ws, actions, 3);
    var before := actions;
    ws, actions := GivenUpChildIsReplaced(LONE, ws, actions, Poll(0, Raises, 0), 11, 10);
  }

  lemma {:induction false} ReportedGrows(g: Graph, ws: seq<World>, actions: seq<Action>, i: nat, j: nat)
    requires EdgesInside(g) && Reachable(g, ws, actions) && i <= j < |ws|
    ensures ws[i].reported <= ws[j].reported
    decreases j
  {
    if i < j {
      ReportedGrows(g, ws, actions, i, j - 1);
    }
  }

  /**
   Once a poll or a restore has reported a node's child in SUCCESS, no later action launches that
   node, in this life of the controller or in any later one.
   */
  lemma ReportedSuccessIsNeverRelaunched(
    g: Graph, ws: seq<World>, actions: seq<Action>, i: nat, j: nat, n: NodeId)
    requires EdgesInside(g) && Reachable(g, ws, actions) && i <= j < |actions|
    requires ws[i].memory.Some? && n in g.nodes
    requires WellFormed(g, ws[i].memory.value) && IsSuccess(ws[i].memory.value.cells[n].status)
    ensures !LaunchesAt(g, ws, actions, j, n)
  {
    InvHolds(g, ws, actions, i);
    assert n in SuccessSet(g, ws[i].memory.value);
    ReportedGrows(g, ws, actions, i, j);
    InvHolds(g, ws, actions, j);
  }

  // ------------------------------------------------------------ unrecorded children

  function RecordedChildren(calls: seq<Event>): set<Handle> {
    set i | 0 <= i < |calls| && calls[i].Recorded? && calls[i].job.Some? :: calls[i].job.value
  }

  /** Children that were launched and never recorded. */
  function Orphans(log: seq<Event>): set<Handle> {
    Launches(log) - RecordedChildren(log)
  }

  lemma OrphansConcat(a: seq<Event>, b: seq<Event>)
    ensures Launches(a + b) == Launches(a) + Launches(b)
    ensures RecordedChildren(a + b) == RecordedChildren(a) + RecordedChildren(b)
  {
    forall h | h in Launches(b)
      ensures h in Launches(a + b)
    {
      var i :| 0 <= i < |b| && b[i].Launched? && b[i].child == h;
      assert (a + b)[|a| + i] == b[i];
    }
    forall h | h in Launches(a)
      ensures h in Launches(a + b)
    {
      var i :| 0 <= i < |a| && a[i].Launched? && a[i].child == h;
      assert (a + b)[i] == a[i];
    }
    forall h | h in RecordedChildren(b)
      ensures h in RecordedChildren(a + b)
    {
      var i :| 0 <= i < |b| && b[i].Recorded? && b[i].job == Some(h);
      assert (a + b)[|a| + i] == b[i];
    }
    forall h | h in RecordedChildren(a)
      ensures h in RecordedChildren(a + b)
    {
      var i :| 0 <= i < |a| && a[i].Recorded? && a[i].job == Some(h);
      assert (a + b)[i] == a[i];
    }
  }

  /** A whole step records the child it launches; a step cut short leaves at most one unrecorded. */
  lemma StepOrphans(g: Graph, s: RunState, l: Label, done: nat)
    requires EdgesInside(g) && WellFormed(g, s) && l.node in g.nodes && done <= |Calls(g, s, l)|
    ensures done == |Calls(g, s, l)| ==> Orphans(Calls(g, s, l)[..done]) == {}
    ensures Launches(Calls(g, s, l)[..done]) <= if l.Visit? then {l.ticket} else {}
  {
    var calls := Calls(g, s, l);
    if done == |calls| && l.Visit? && Decide(g, s, l.node).Launch? {
      assert calls[..done][1] == Recorded(l.node, Some(l.ticket), Queued);
    }
  }

  /**
   However the controller crashes and restarts, the children that were launched and never recorded
   number at most the crashes: the only window is between the launch and its record.
   */
  lemma {:induction false} OrphansAreBounded(g: Graph, ws: seq<World>, actions: seq<Action>, i: nat)
    requires EdgesInside(g) && Reachable(g, ws, actions) && i < |ws|
    ensures |Orphans(ws[i].log)| <= ws[i].crashes
  {
    if i == 0 {
      assert Orphans([]) == {};
    } else {
      OrphansAreBounded(g, ws, actions, i - 1);
      var w, a := ws[i - 1], actions[i - 1];
      if a.Act? || a.Crash? {
        var calls := Calls(g, w.memory.value, a.step);
        var done := if a.Crash? then a.done else |calls|;
        assert calls[..|calls|] == calls;
        StepOrphans(g, w.memory.value, a.step, done);
        OrphansConcat(w.log, calls[..done]);
        var extra := if a.Crash? && a.step.Visit? then {a.step.ticket} else {};
        assert Orphans(w.log + calls[..done]) <= Orphans(w.log) + extra;
        SubsetCardinality(Orphans(w.log + calls[..done]), Orphans(w.log) + extra);
      } else if a.Halt? {
        CancelsServe(w.tasks, w.memory.value, a.told);
        OrphansConcat(w.log, Cancels(w.memory.value, a.told));
        assert Orphans(ws[i].log) <= Orphans(w.log);
        SubsetCardinality(Orphans(ws[i].log), Orphans(w.log));
      }
    }
  }
}
