/**
 The controller loop itself, in its own imperative form: dictionaries updated in place by the
 polling loop and the launch loop, and the backend calls they make. Every method is tied to the
 run function of DagModel, so what is proved there of every label sequence holds of the loop.
 */
module DagRunner {
  import opened Common
  import opened DagModel
  import opened DagInvariants
  import opened DagProgress

  /** What the controller records for a node: the child's id and its status. */
  datatype Step = Step(job: Option<Handle>, status: Status)

  function RecordCall(pipeline: map<NodeId, Step>, call: Event): map<NodeId, Step> {
    if call.Recorded? then pipeline[call.node := Step(call.job, call.status)] else pipeline
  }

  /** The recorded pipeline after a series of backend calls. */
  function PipelineAfter(pipeline: map<NodeId, Step>, calls: seq<Event>): map<NodeId, Step> {
    if |calls| == 0 then pipeline
    else RecordCall(PipelineAfter(pipeline, calls[..|calls| - 1]), calls[|calls| - 1])
  }

  /** The tasks the server knows: a task that cannot be read is missing here. */
  type Tasks = map<Handle, Status>

  /** Is a child recorded for the node. */
  predicate Adopts(pipeline: map<NodeId, Step>, n: NodeId) {
    n in pipeline && pipeline[n].job.Some?
  }

  /** The recorded child and its status; a child that cannot be read counts as failed. */
  function FoundAt(pipeline: map<NodeId, Step>, n: NodeId, tasks: Tasks): (Handle, Status)
    requires Adopts(pipeline, n)
  {
    var child := pipeline[n].job.value;
    (child, if child in tasks then tasks[child] else Failed)
  }

  /** What `restore` answers for every node of a recorded pipeline. */
  function RestoredFrom(g: Graph, pipeline: map<NodeId, Step>, tasks: Tasks): Restored {
    map n | n in g.nodes && Adopts(pipeline, n) :: FoundAt(pipeline, n, tasks)
  }

  /** A run starts with every child recorded for a node of the graph, at the status the server reports for
      it, or failed if it cannot be read; with no attempts made and no errors counted, its time running
      from now. Any other node starts pending. */
  lemma StartsFromTheRecord(g: Graph, pipeline: map<NodeId, Step>, tasks: Tasks, now: int, n: NodeId)
    requires n in g.nodes
    ensures var s := InitialState(g, RestoredFrom(g, pipeline, tasks), now);
            && s.log == []
            && (n in pipeline && pipeline[n].job.Some? ==>
                  var child := pipeline[n].job.value;
                  s.cells[n] == Cell(if child in tasks then tasks[child] else Failed, 0, Some(child), now, 0))
            && (n !in pipeline || pipeline[n].job.None? ==>
                  s.cells[n].status == Pending && s.cells[n].child == None && s.cells[n].attempts == 0 && s.cells[n].errors == 0)
  {
  }

  /** The entries a node starts with. */
  function FirstCell(pipeline: map<NodeId, Step>, tasks: Tasks, now: int, n: NodeId): Cell {
    if Adopts(pipeline, n) then
      var (child, status) := FoundAt(pipeline, n, tasks);
      Cell(status, 0, Some(child), now, 0)
    else Cell(Pending, 0, None, 0, 0)
  }

  lemma InitialCells(g: Graph, pipeline: map<NodeId, Step>, tasks: Tasks, now: int, cells: map<NodeId, Cell>)
    requires cells.Keys == g.nodes.Keys
    requires forall n :: n in g.nodes ==> cells[n] == FirstCell(pipeline, tasks, now, n)
    ensures InitialState(g, RestoredFrom(g, pipeline, tasks), now) == RunState(cells, [])
  {
  }

  lemma AllCells(g: Graph, order: seq<NodeId>, d: Dicts, first: map<NodeId, Cell>)
    requires Enumerates(g, order) && d.state.Keys == first.Keys == g.nodes.Keys
    requires forall j :: 0 <= j < |order| ==> CellAt(d, order[j]) == first[order[j]]
    ensures Cells(d) == first
  {
    forall n | n in first
      ensures CellAt(d, n) == first[n]
    {
      assert n in order;
    }
  }

  class ClearMLBackend {
    var pipeline: map<NodeId, Step>
    var calls: seq<Event>
    ghost const recorded: map<NodeId, Step>

    ghost predicate Valid()
      reads this
    {
      pipeline == PipelineAfter(recorded, calls)
    }

    constructor (pipeline: map<NodeId, Step>)
      ensures Valid() && this.pipeline == recorded == pipeline && calls == []
    {
      this.pipeline := pipeline;
      this.recorded := pipeline;
      calls := [];
    }

    /** The new child is the handle the server hands out. */
    method Launch(n: NodeId, inputs: map<NodeId, Handle>, ticket: Handle) returns (child: Handle)
      requires Valid()
      modifies this`calls
      ensures Valid() && child == ticket
      ensures calls == old(calls) + [Launched(n, ticket, inputs)]
    {
      calls := calls + [Launched(n, ticket, inputs)];
      return ticket;
    }

    method Cancel(child: Handle)
      requires Valid()
      modifies this`calls
      ensures Valid() && calls == old(calls) + [Cancelled(child)]
    {
      calls := calls + [Cancelled(child)];
    }

    method UpdatePipeline(n: NodeId, child: Option<Handle>, status: Status)
      requires Valid()
      modifies this
      ensures Valid() && calls == old(calls) + [Recorded(n, child, status)]
      ensures n in pipeline && pipeline[n] == Step(child, status)
    {
      pipeline := pipeline[n := Step(child, status)];
      calls := calls + [Recorded(n, child, status)];
    }

    /** A recorded child that cannot be read counts as failed; it is not launched again. */
    method Restore(n: NodeId, tasks: Tasks) returns (r: Option<(Handle, Status)>)
      ensures r == if Adopts(pipeline, n) then Some(FoundAt(pipeline, n, tasks)) else None
      ensures r.None? <==> n !in pipeline || pipeline[n].job == None
      ensures r.Some? ==> Some(r.value.0) == pipeline[n].job
                          && r.value.1 == if r.value.0 in tasks then tasks[r.value.0] else Failed
    {
      if n !in pipeline || pipeline[n].job.None? {
        return None;
      }
      var child := pipeline[n].job.value;
      if child in tasks {
        return Some((child, tasks[child]));
      }
      return Some((child, Failed));
    }
  }

  /** What one pass of the loop observes: the cancel flag, the polls, new handles and clocks. */
  datatype Input = Input(
    cancelled: bool,
    reply: NodeId -> Reply,
    pollTime: NodeId -> int,
    ticket: NodeId -> Handle,
    launchTime: NodeId -> int)

  /** Every child polled in this pass answers with a terminal status. */
  ghost predicate Prompt(input: Input) {
    forall n :: input.reply(n).Reports? && IsTerminal(input.reply(n).status)
  }

  datatype Outcome =
    | Returned(children: map<NodeId, Handle>)
    | NodesFailed(failed: set<NodeId>)
    | ControllerCancelled
    | StillRunning

  lemma {:induction false} ExecConcat(g: Graph, s: RunState, a: seq<Label>, b: seq<Label>)
    requires WellFormed(g, s) && EdgesInside(g)
    ensures Exec(g, s, a + b) == Exec(g, Exec(g, s, a), b)
    ensures MoveCount(g, s, a + b) == MoveCount(g, s, a) + MoveCount(g, Exec(g, s, a), b)
  {
    if |b| == 0 {
      assert a + b == a;
    } else {
      assert (a + b)[..|a + b| - 1] == a + b[..|b| - 1];
      ExecConcat(g, s, a, b[..|b| - 1]);
    }
  }

  // ------------------------------------------------------------- dictionaries

  /** The dictionaries of `run`; `attempts` and `errors` default to 0. */
  datatype Dicts = Dicts(
    state: map<NodeId, Status>,
    attempts: map<NodeId, nat>,
    handles: map<NodeId, Handle>,
    launchedAt: map<NodeId, int>,
    errors: map<NodeId, nat>)

  function Lookup<T>(m: map<NodeId, T>, n: NodeId, default: T): T {
    if n in m then m[n] else default
  }

  function CellAt(d: Dicts, n: NodeId): Cell {
    Cell(Lookup(d.state, n, Pending),
         Lookup(d.attempts, n, 0),
         if n in d.handles then Some(d.handles[n]) else None,
         Lookup(d.launchedAt, n, 0),
         Lookup(d.errors, n, 0))
  }

  /** The dictionaries of the loop as one map of cells. */
  function Cells(d: Dicts): (cells: map<NodeId, Cell>)
    ensures cells.Keys == d.state.Keys
  {
    map n | n in d.state :: CellAt(d, n)
  }

  /** The dictionaries agree on every node but n. */
  ghost predicate SameElsewhere<T>(a: map<NodeId, T>, b: map<NodeId, T>, n: NodeId) {
    forall m :: m != n ==> (m in a <==> m in b) && (m in a && m in b ==> a[m] == b[m])
  }

  lemma CellsChange(a: Dicts, b: Dicts, n: NodeId)
    requires n in a.state && n in b.state
    requires SameElsewhere(a.state, b.state, n) && SameElsewhere(a.attempts, b.attempts, n)
    requires SameElsewhere(a.handles, b.handles, n) && SameElsewhere(a.launchedAt, b.launchedAt, n)
    requires SameElsewhere(a.errors, b.errors, n)
    ensures Cells(b) == Cells(a)[n := CellAt(b, n)]
    ensures b.state.Keys == a.state.Keys
  {
  }

  function NodesFrom(nodeList: seq<(NodeId, Config)>): map<NodeId, Config> {
    if |nodeList| == 0 then map[]
    else
      var last := nodeList[|nodeList| - 1];
      NodesFrom(nodeList[..|nodeList| - 1])[last.0 := last.1]
  }

  function ParentsFrom(edges: seq<(NodeId, NodeId)>): map<NodeId, set<NodeId>> {
    if |edges| == 0 then map[]
    else
      var before := ParentsFrom(edges[..|edges| - 1]);
      var (source, target) := edges[|edges| - 1];
      before[target := Lookup(before, target, {}) + {source}]
  }

  /** The parents of a node are the sources of the edges that lead to it. */
  lemma {:induction false} ParentsAreSources(edges: seq<(NodeId, NodeId)>, n: NodeId)
    ensures Lookup(ParentsFrom(edges), n, {}) == set e | e in edges && e.1 == n :: e.0
  {
    if |edges| > 0 {
      var before := edges[..|edges| - 1];
      ParentsAreSources(before, n);
      assert edges == before + [edges[|edges| - 1]];
    }
  }

  predicate IsListed(nodeList: seq<(NodeId, Config)>, n: NodeId) {
    exists i :: 0 <= i < |nodeList| && nodeList[i].0 == n
  }

  /** The graph is closed under parents exactly when the edges to listed nodes come from listed nodes. */
  lemma SourcesListed(nodeList: seq<(NodeId, Config)>, edges: seq<(NodeId, NodeId)>)
    ensures EdgesInside(Graph(NodesFrom(nodeList), ParentsFrom(edges))) <==>
              forall e :: e in edges && IsListed(nodeList, e.1) ==> IsListed(nodeList, e.0)
  {
    var g := Graph(NodesFrom(nodeList), ParentsFrom(edges));
    forall n ensures n in g.nodes <==> IsListed(nodeList, n) {
      NodesAreListed(nodeList, n);
    }
    forall n ensures ParentsOf(g, n) == set e | e in edges && e.1 == n :: e.0 {
      ParentsAreSources(edges, n);
    }
    forall e | e in edges && IsListed(nodeList, e.1) ensures e.0 in ParentsOf(g, e.1) && e.1 in g.nodes {
    }
  }

  /** The node ids of the graph are the ids listed; the last configuration of an id counts. */
  lemma {:induction false} NodesAreListed(nodeList: seq<(NodeId, Config)>, n: NodeId)
    ensures n in NodesFrom(nodeList) <==> IsListed(nodeList, n)
    ensures n in NodesFrom(nodeList) ==> exists i ::
              && 0 <= i < |nodeList| && nodeList[i] == (n, NodesFrom(nodeList)[n])
              && forall j :: i < j < |nodeList| ==> nodeList[j].0 != n
  {
    if |nodeList| > 0 {
      var before, last := nodeList[..|nodeList| - 1], nodeList[|nodeList| - 1];
      NodesAreListed(before, n);
      if last.0 == n {
        assert nodeList[|nodeList| - 1] == (n, NodesFrom(nodeList)[n]);
      } else if n in NodesFrom(before) {
        var i :| && 0 <= i < |before| && before[i] == (n, NodesFrom(before)[n])
                 && forall j :: i < j < |before| ==> before[j].0 != n;
        assert nodeList[i] == (n, NodesFrom(nodeList)[n]);
      }
    }
  }

  // ---------------------------------------------------------- facts about passes

  ghost predicate AllWait(g: Graph, s: RunState, order: seq<NodeId>, upTo: nat)
    requires WellFormed(g, s) && EdgesInside(g) && upTo <= |order|
    requires forall i :: 0 <= i < |order| ==> order[i] in g.nodes
  {
    forall i :: 0 <= i < upTo ==> Decide(g, s, order[i]).Wait?
  }

  lemma RunOneMore(g: Graph, s0: RunState, ls: seq<Label>, l: Label)
    requires EdgesInside(g) && Sound(g, s0)
    ensures Exec(g, s0, ls + [l]) == Apply(g, Exec(g, s0, ls), l)
    ensures MoveCount(g, s0, ls + [l]) ==
              MoveCount(g, s0, ls) + if Moves(g, Exec(g, s0, ls), l) then 1 else 0
    ensures Sound(g, Exec(g, s0, ls + [l]))
  {
    assert (ls + [l])[..|ls|] == ls;
    SoundExec(g, s0, ls + [l]);
  }

  /** A tracked child that answers with a terminal status moves its node. */
  lemma PromptPoll(g: Graph, s: RunState, l: Label)
    requires EdgesInside(g) && Sound(g, s) && l.Poll? && l.node in g.nodes
    requires l.reply.Reports? && IsTerminal(l.reply.status)
    ensures Tracked(s.cells[l.node]) ==> Moves(g, s, l)
  {
    assert SoundCell(g.nodes[l.node], s.cells[l.node]);
  }

  lemma VisitMoves(g: Graph, s: RunState, l: Label)
    requires EdgesInside(g) && WellFormed(g, s) && l.Visit? && l.node in g.nodes
    ensures Moves(g, s, l) <==> !Decide(g, s, l.node).Wait?
    ensures !Moves(g, s, l) ==> Apply(g, s, l) == s
  {
    if Decide(g, s, l.node).Wait? {
      assert s.cells[l.node := s.cells[l.node]] == s.cells;
    }
  }

  /** Where the polling loop of a pass stands: `todo` holds the children still to poll. */
  ghost predicate Polling(
    g: Graph, s0: RunState, s: RunState, ls: seq<Label>, todo: set<NodeId>, progressed: bool, input: Input)
  {
    && EdgesInside(g) && Sound(g, s0) && Sound(g, s) && s == Exec(g, s0, ls)
    && (progressed <==> MoveCount(g, s0, ls) > 0)
    && todo <= g.nodes.Keys
    && (forall m :: m in todo ==> s.cells[m].child.Some?)
    && (!progressed && Prompt(input) ==> forall m :: m in g.nodes && m !in todo ==> !Tracked(s.cells[m]))
  }

  lemma StartPolling(g: Graph, d: Dicts, s: RunState, todo: set<NodeId>, input: Input)
    requires EdgesInside(g) && Sound(g, s) && s.cells == Cells(d)
    requires todo == d.handles.Keys <= g.nodes.Keys
    ensures Polling(g, s, s, [], todo, false, input)
  {
  }

  lemma PollReady(g: Graph, s: RunState, d: Dicts, n: NodeId)
    requires Sound(g, s) && s.cells == Cells(d) && n in g.nodes && s.cells[n].child.Some?
    ensures n in d.handles && n in d.state && !d.state[n].Pending?
  {
    assert SoundCell(g.nodes[n], s.cells[n]);
  }

  lemma PolledOne(
    g: Graph, s0: RunState, s: RunState, ls: seq<Label>, todo: set<NodeId>, progressed: bool, input: Input,
    l: Label)
    requires Polling(g, s0, s, ls, todo, progressed, input)
    requires l.node in todo && l == Poll(l.node, input.reply(l.node), input.pollTime(l.node))
    ensures Polling(g, s0, Apply(g, s, l), ls + [l], todo - {l.node}, progressed || Moves(g, s, l), input)
  {
    RunOneMore(g, s0, ls, l);
    if Prompt(input) {
      PromptPoll(g, s, l);
    }
  }

  /** Where the launch loop of a pass stands: the first `upTo` nodes are visited. */
  ghost predicate Visiting(
    g: Graph, s0: RunState, s: RunState, ls: seq<Label>, order: seq<NodeId>, upTo: nat, progressed: bool)
  {
    && EdgesInside(g) && Sound(g, s0) && Sound(g, s) && s == Exec(g, s0, ls)
    && (progressed <==> MoveCount(g, s0, ls) > 0)
    && upTo <= |order| && (forall i :: 0 <= i < |order| ==> order[i] in g.nodes)
    && (!progressed ==> s == s0 && AllWait(g, s0, order, upTo))
  }

  lemma VisitedOne(
    g: Graph, s0: RunState, s: RunState, ls: seq<Label>, order: seq<NodeId>, upTo: nat, progressed: bool, l: Label)
    requires Visiting(g, s0, s, ls, order, upTo, progressed)
    requires upTo < |order| && l.Visit? && l.node == order[upTo]
    ensures Visiting(g, s0, Apply(g, s, l), ls + [l], order, upTo + 1, progressed || !Decide(g, s, l.node).Wait?)
  {
    RunOneMore(g, s0, ls, l);
    VisitMoves(g, s, l);
  }

  /** A pass without progress ends with a live child, or with every node finished. */
  lemma PassDone(
    g: Graph, order: seq<NodeId>, input: Input,
    s0: RunState, s1: RunState, polls: seq<Label>, polled: bool, s2: RunState, visits: seq<Label>, visited: bool)
    requires Enumerates(g, order)
    requires Polling(g, s0, s1, polls, {}, polled, input)
    requires Visiting(g, s1, s2, visits, order, |order|, visited)
    ensures s2 == Exec(g, s0, polls + visits) && Sound(g, s2)
    ensures polled || visited <==> MoveCount(g, s0, polls + visits) > 0
    ensures Acyclic(g) && !polled && !visited ==>
              (AllTerminal(g, s2) || exists n :: n in g.nodes && Tracked(s2.cells[n]))
    ensures Acyclic(g) && !polled && !visited && Prompt(input) ==> AllTerminal(g, s2)
  {
    ExecConcat(g, s0, polls, visits);
    if Acyclic(g) && !polled && !visited && !AllTerminal(g, s2) && forall n :: n in g.nodes ==> !Tracked(s2.cells[n]) {
      var rank :| Ranks(g, rank);
      var n :| n in g.nodes && !IsTerminal(s2.cells[n].status);
      var m := FindMove(g, rank, s2, n);
      assert false;
    }
  }

  /** The cancel calls for a list of nodes. */
  function Cancels(s: RunState, told: seq<NodeId>): seq<Event>
    requires forall i :: 0 <= i < |told| ==> told[i] in s.cells && s.cells[told[i]].child.Some?
  {
    if |told| == 0 then []
    else Cancels(s, told[..|told| - 1]) + [Cancelled(s.cells[told[|told| - 1]].child.value)]
  }

  lemma CancelsOneMore(s: RunState, told: seq<NodeId>, n: NodeId)
    requires forall i :: 0 <= i < |told| ==> told[i] in s.cells && s.cells[told[i]].child.Some?
    requires n in s.cells && s.cells[n].child.Some?
    ensures s.log + Cancels(s, told + [n]) == (s.log + Cancels(s, told)) + [Cancelled(s.cells[n].child.value)]
  {
    assert (told + [n])[..|told + [n]| - 1] == told;
  }

  /** `told` names the nodes of `done` with a live child, once each. */
  ghost predicate ToldSoFar(s: RunState, done: set<NodeId>, told: seq<NodeId>) {
    && (forall n :: n in told <==> n in done && n in s.cells && Tracked(s.cells[n]))
    && forall i, j :: 0 <= i < j < |told| ==> told[i] != told[j]
  }

  lemma ToldOneMore(s: RunState, done: set<NodeId>, told: seq<NodeId>, n: NodeId)
    requires ToldSoFar(s, done, told) && n !in done && n in s.cells && s.cells[n].child.Some?
    ensures Tracked(s.cells[n]) ==>
              && ToldSoFar(s, done + {n}, told + [n])
              && Cancels(s, told + [n]) == Cancels(s, told) + [Cancelled(s.cells[n].child.value)]
    ensures !Tracked(s.cells[n]) ==> ToldSoFar(s, done + {n}, told)
  {
    assert (told + [n])[..|told|] == told;
  }

  /** `told` names the nodes with a live child, once each. */
  ghost predicate LiveOnce(s: RunState, told: seq<NodeId>) {
    ToldSoFar(s, s.cells.Keys, told)
  }

  // --------------------------------------------------------------- whole runs

  /** What a run has established so far: `idle` holds the lengths of the run after each pass
      without progress, and `passes` counts the passes made. */
  ghost predicate Progress(
    g: Graph, s0: RunState, s: RunState, ls: seq<Label>, passes: nat, idle: seq<nat>)
  {
    && EdgesInside(g) && Sound(g, s0) && Sound(g, s) && s == Exec(g, s0, ls)
    && passes <= MoveCount(g, s0, ls) + |idle|
    && (Acyclic(g) ==> forall k :: 0 <= k < |idle| ==> LiveAt(g, s0, ls, idle[k]))
  }

  /** Some child is live after the first `p` labels. */
  ghost predicate LiveAt(g: Graph, s0: RunState, ls: seq<Label>, p: nat)
    requires EdgesInside(g) && WellFormed(g, s0)
  {
    p <= |ls| && exists n :: n in g.nodes && Tracked(Exec(g, s0, ls[..p]).cells[n])
  }

  lemma LiveStays(g: Graph, s0: RunState, a: seq<Label>, b: seq<Label>, p: nat)
    requires EdgesInside(g) && WellFormed(g, s0) && LiveAt(g, s0, a, p)
    ensures LiveAt(g, s0, a + b, p)
  {
    assert (a + b)[..p] == a[..p];
  }

  lemma OnePassMore(
    g: Graph, s0: RunState, s: RunState, ls: seq<Label>, passes: nat, idle: seq<nat>,
    r: RunState, more: seq<Label>)
    requires Progress(g, s0, s, ls, passes, idle)
    requires r == Exec(g, s, more) && Sound(g, r)
    requires MoveCount(g, s, more) == 0 && Acyclic(g) ==> exists n :: n in g.nodes && Tracked(r.cells[n])
    ensures Progress(g, s0, r, ls + more, passes + 1,
                     if MoveCount(g, s, more) > 0 then idle else idle + [|ls + more|])
  {
    ExecConcat(g, s0, ls, more);
    if Acyclic(g) {
      forall k | 0 <= k < |idle|
        ensures LiveAt(g, s0, ls + more, idle[k])
      {
        LiveStays(g, s0, ls, more, idle[k]);
      }
      assert (ls + more)[..|ls + more|] == ls + more;
      assert MoveCount(g, s, more) == 0 ==> LiveAt(g, s0, ls + more, |ls + more|);
    }
  }

  /** What a run reports once every node is finished. */
  ghost predicate ReportsRun(g: Graph, s: RunState, outcome: Outcome)
    requires WellFormed(g, s)
  {
    && (outcome.Returned? <==> AllTerminal(g, s) && SuccessSet(g, s) == g.nodes.Keys)
    && (outcome.NodesFailed? <==> AllTerminal(g, s) && SuccessSet(g, s) != g.nodes.Keys)
    && (outcome.Returned? ==>
          && outcome.children.Keys == g.nodes.Keys
          && forall n :: n in g.nodes ==> s.cells[n].child == Some(outcome.children[n]))
    && (outcome.NodesFailed? ==> outcome.failed == g.nodes.Keys - SuccessSet(g, s))
  }

  function FailedNodes(state: map<NodeId, Status>): set<NodeId> {
    set n | n in state && !IsSuccess(state[n])
  }

  /** The exit test of the loop, and what it returns or raises. */
  function FinalOutcome(state: map<NodeId, Status>, handles: map<NodeId, Handle>): Outcome {
    if exists n :: n in state && !IsTerminal(state[n]) then StillRunning
    else if FailedNodes(state) != {} then NodesFailed(FailedNodes(state))
    else Returned(handles)
  }

  lemma FailedAndSucceeded(g: Graph, d: Dicts, s: RunState)
    requires WellFormed(g, s) && s.cells == Cells(d)
    ensures FailedNodes(d.state) == g.nodes.Keys - SuccessSet(g, s)
    ensures SuccessSet(g, s) == g.nodes.Keys - FailedNodes(d.state)
    ensures AllTerminal(g, s) <==> !exists n :: n in d.state && !IsTerminal(d.state[n])
  {
    assert forall n :: n in g.nodes <==> n in d.state;
    assert forall n :: n in d.state ==> s.cells[n].status == d.state[n];
  }

  lemma SucceededHaveChildren(g: Graph, d: Dicts, s: RunState)
    requires Sound(g, s) && s.cells == Cells(d) && d.handles.Keys <= d.state.Keys
    requires SuccessSet(g, s) == g.nodes.Keys
    ensures d.handles.Keys == g.nodes.Keys
    ensures forall n :: n in g.nodes ==> s.cells[n].child == Some(d.handles[n])
  {
    forall n | n in g.nodes
      ensures n in d.handles && s.cells[n].child == Some(d.handles[n])
    {
      assert n in SuccessSet(g, s) && SoundCell(g.nodes[n], s.cells[n]);
    }
  }

  lemma FinalReports(g: Graph, d: Dicts, s: RunState)
    requires Sound(g, s) && s.cells == Cells(d) && d.handles.Keys <= d.state.Keys
    ensures ReportsRun(g, s, FinalOutcome(d.state, d.handles))
    ensures !FinalOutcome(d.state, d.handles).ControllerCancelled?
  {
    FailedAndSucceeded(g, d, s);
    if SuccessSet(g, s) == g.nodes.Keys {
      SucceededHaveChildren(g, d, s);
    }
  }

  /**
   What a run over `passes` passes ends with: every node succeeded (Returned), all are finished and
   some failed (NodesFailed), exactly the live children were told to stop (ControllerCancelled), or
   some node is unfinished, in which case the passes beyond the move budget each left a live child.
   */
  ghost predicate RunResult(
    g: Graph, order: seq<NodeId>, s0: RunState, passes: nat,
    ls: seq<Label>, idle: seq<nat>, told: seq<NodeId>, end: RunState, outcome: Outcome)
  {
    && EdgesInside(g) && WellFormed(g, s0) && Enumerates(g, order)
    && var s := Exec(g, s0, ls);
    && end.cells == s.cells
    && (!outcome.ControllerCancelled? ==> end == s && (passes > 0 ==> ReportsRun(g, s, outcome)))
    && (outcome.ControllerCancelled? ==> LiveOnce(s, told) && end.log == s.log + Cancels(s, told))
    && (outcome.StillRunning? && Acyclic(g) ==>
          && passes <= MoveBudget(g, order) + |idle|
          && forall k :: 0 <= k < |idle| ==> LiveAt(g, s0, ls, idle[k]))
  }

  /** The end of a turn: what the run state is, and what is reported about it. */
  ghost predicate TurnEnds(
    g: Graph, s0: RunState, ls: seq<Label>, told: seq<NodeId>, end: RunState, outcome: Outcome)
  {
    && EdgesInside(g) && WellFormed(g, s0)
    && var s := Exec(g, s0, ls);
    && end.cells == s.cells
    && (!outcome.ControllerCancelled? ==> end == s && ReportsRun(g, s, outcome))
    && (outcome.ControllerCancelled? ==> LiveOnce(s, told) && end.log == s.log + Cancels(s, told))
  }

  lemma NothingYet(g: Graph, pipeline: map<NodeId, Step>, tasks: Tasks, now: int)
    requires EdgesInside(g) && forall t :: t in tasks ==> !tasks[t].Pending?
    ensures var s0 := InitialState(g, RestoredFrom(g, pipeline, tasks), now);
            Restorable(RestoredFrom(g, pipeline, tasks)) && Progress(g, s0, s0, [], 0, [])
  {
    var s0 := InitialState(g, RestoredFrom(g, pipeline, tasks), now);
    assert Sound(g, s0);
  }

  lemma RunEnds(
    g: Graph, order: seq<NodeId>, restored: Restored, now: int, passes: nat, turns: nat,
    ls: seq<Label>, idle: seq<nat>, told: seq<NodeId>, end: RunState, outcome: Outcome)
    requires EdgesInside(g) && Restorable(restored) && Enumerates(g, order)
    requires var s0 := InitialState(g, restored, now);
             && (if turns == 0 then outcome.StillRunning? else TurnEnds(g, s0, ls, told, end, outcome))
             && (outcome.StillRunning? ==> turns == passes && Progress(g, s0, end, ls, turns, idle))
    requires turns <= passes
    ensures RunResult(g, order, InitialState(g, restored, now), passes, ls, idle, told, end, outcome)
    ensures outcome.StillRunning? && Acyclic(g) && idle == [] ==> passes <= MoveBudget(g, order)
  {
    RunMovesAreBounded(g, restored, now, ls, order);
  }

  // ----------------------------------------------------------------- the runner

  class DagRunner {
    const backend: ClearMLBackend
    var order: seq<NodeId>
    var nodes: map<NodeId, Config>
    var parents: map<NodeId, set<NodeId>>

    var state: map<NodeId, Status>
    var attempts: map<NodeId, nat>
    var handles: map<NodeId, Handle>
    var launchedAt: map<NodeId, int>
    var transientErrors: map<NodeId, nat>

    ghost function G(): Graph
      reads this
    {
      Graph(nodes, parents)
    }

    ghost predicate Valid()
      reads this, backend
    {
      backend.Valid() && EdgesInside(G())
    }

    /** `order` holds the keys of `nodes` in insertion order. */
    ghost predicate Listed()
      reads this
    {
      Enumerates(G(), order)
    }

    ghost function D(): Dicts
      reads this
    {
      Dicts(state, attempts, handles, launchedAt, transientErrors)
    }

    ghost predicate Running()
      reads this, backend
    {
      && Valid()
      && state.Keys == nodes.Keys
      && handles.Keys <= nodes.Keys
      && handles.Keys <= launchedAt.Keys
    }

    /** The dictionaries of the loop, and the calls made, as one run state. */
    ghost function View(): (s: RunState)
      requires Running()
      reads this, backend
      ensures WellFormed(G(), s)
    {
      RunState(Cells(D()), backend.calls)
    }

    constructor (nodeList: seq<(NodeId, Config)>, edges: seq<(NodeId, NodeId)>, backend: ClearMLBackend)
      requires backend.Valid()
      ensures backend.Valid() && Listed() && this.backend == backend
      ensures G() == Graph(NodesFrom(nodeList), ParentsFrom(edges))
      ensures Valid() <==> forall e :: e in edges && IsListed(nodeList, e.1) ==> IsListed(nodeList, e.0)
    {
      this.backend := backend;
      order, nodes, parents := [], map[], map[];
      state, attempts, handles, launchedAt, transientErrors := map[], map[], map[], map[], map[];
      new;
      for i := 0 to |nodeList|
        invariant backend.Valid() && parents == map[]
        invariant nodes == NodesFrom(nodeList[..i])
        invariant Enumerates(G(), order)
      {
        assert nodeList[..i + 1][..i] == nodeList[..i];
        if nodeList[i].0 !in nodes {
          order := order + [nodeList[i].0];
        }
        nodes := nodes[nodeList[i].0 := nodeList[i].1];
      }
      assert nodeList[..|nodeList|] == nodeList;
      for i := 0 to |edges|
        invariant backend.Valid() && nodes == NodesFrom(nodeList)
        invariant parents == ParentsFrom(edges[..i])
        invariant Enumerates(G(), order)
      {
        assert edges[..i + 1][..i] == edges[..i];
        parents := parents[edges[i].1 := Lookup(parents, edges[i].1, {}) + {edges[i].0}];
      }
      assert edges[..|edges|] == edges;
      SourcesListed(nodeList, edges);
    }

    /** Adopts the child recorded for a node, if there is one. */
    method BeginEntry(n: NodeId, tasks: Tasks, now: int)
      requires n in state && CellAt(D(), n) == Cell(Pending, 0, None, 0, 0) && (n in handles <==> n in launchedAt)
      modifies this`state, this`handles, this`launchedAt
      ensures n in state
      ensures CellAt(D(), n) == FirstCell(backend.pipeline, tasks, now, n)
      ensures SameElsewhere(old(state), state, n) && SameElsewhere(old(handles), handles, n)
      ensures SameElsewhere(old(launchedAt), launchedAt, n)
      ensures n in handles <==> n in launchedAt
      ensures forall m :: m != n ==> CellAt(D(), m) == old(CellAt(D(), m))
    {
      var found := backend.Restore(n, tasks);
      if found.Some? {
        handles := handles[n := found.value.0];
        state := state[n := found.value.1];
        launchedAt := launchedAt[n := now];
      }
    }

    /** Asks for the recorded child of every node. */
    method RestoreAll(tasks: Tasks, now: int, ghost first: map<NodeId, Cell>)
      requires forall i, j :: 0 <= i < j < |order| ==> order[i] != order[j]
      requires forall i :: 0 <= i < |order| ==> order[i] in nodes && order[i] in first
      requires forall n :: n in first ==> first[n] == FirstCell(backend.pipeline, tasks, now, n)
      requires forall n :: n in state <==> n in nodes
      requires forall n :: n in nodes ==> CellAt(D(), n) == Cell(Pending, 0, None, 0, 0)
      requires handles == launchedAt == map[]
      modifies this`state, this`handles, this`launchedAt
      ensures forall n :: n in state <==> n in nodes
      ensures forall n :: n in handles ==> n in nodes && n in launchedAt
      ensures forall j :: 0 <= j < |order| ==> CellAt(D(), order[j]) == first[order[j]]
    {
      for i := 0 to |order|
        invariant forall n :: n in state <==> n in nodes
        invariant forall n :: n in handles ==> n in nodes && n in launchedAt
        invariant forall n :: n in launchedAt ==> n in handles
        invariant forall j :: 0 <= j < i ==> CellAt(D(), order[j]) == first[order[j]]
        invariant forall j :: i <= j < |order| ==> CellAt(D(), order[j]) == Cell(Pending, 0, None, 0, 0)
      {
        BeginEntry(order[i], tasks, now);
      }
    }

    /** Every node starts pending. */
    method Reset()
      modifies this`state, this`attempts, this`handles, this`launchedAt, this`transientErrors
      ensures state.Keys == nodes.Keys && handles == launchedAt == map[]
      ensures forall n :: n in nodes ==> CellAt(D(), n) == Cell(Pending, 0, None, 0, 0)
    {
      state := map n | n in nodes :: Pending;
      attempts, handles, launchedAt, transientErrors := map[], map[], map[], map[];
    }

    /** The part of `run` before the loop. */
    method Begin(tasks: Tasks, now: int)
      requires Valid() && Listed() && backend.calls == []
      modifies this`state, this`attempts, this`handles, this`launchedAt, this`transientErrors
      ensures Running() && View() == InitialState(G(), RestoredFrom(G(), backend.pipeline, tasks), now)
    {
      Reset();
      ghost var first := map n | n in nodes :: FirstCell(backend.pipeline, tasks, now, n);
      RestoreAll(tasks, now, first);
      InitialCells(G(), backend.pipeline, tasks, now, first);
      AllCells(G(), order, D(), first);
    }

    /** What one poll settles on: the error counter, the timeout and the status reported. */
    method Observe(n: NodeId, reply: Reply, now: int, ghost c: Cell) returns (verdict: Option<Status>)
      requires backend.Valid() && n in nodes && n in launchedAt && n in handles
      requires c == CellAt(D(), n) && Tracked(c)
      modifies this`transientErrors, backend`calls
      ensures backend.Valid() && verdict == Verdict(nodes[n], c, reply, now)
      ensures n in transientErrors && transientErrors[n] == ErrorsAfter(c, reply)
      ensures SameElsewhere(old(transientErrors), transientErrors, n)
      ensures backend.calls == old(backend.calls) + TimeoutCalls(nodes[n], c, reply, now)
    {
      var status;
      if reply.Reports? {
        status := reply.status;
        transientErrors := transientErrors[n := 0];
      } else {
        transientErrors := transientErrors[n := Lookup(transientErrors, n, 0) + 1];
        if transientErrors[n] < ERROR_LIMIT {
          return None;
        }
        status := Failed;
      }
      if nodes[n].timeout != 0 && now - launchedAt[n] > nodes[n].timeout {
        backend.Cancel(handles[n]);
        status := Failed;
      }
      return if IsTerminal(status) then Some(status) else None;
    }

    /** Records a terminal status; a failed attempt with retries left goes back to pending. */
    method Settle(n: NodeId, status: Status, ghost c: Cell)
      requires backend.Valid() && n in nodes && n in state && n in handles
      requires c == CellAt(D(), n) && IsTerminal(status)
      modifies this`state, this`handles, backend
      ensures backend.Valid() && n in state
      ensures CellAt(D(), n) ==
                if Retried(nodes[n], c, status) then c.(status := Pending, child := None) else c.(status := status)
      ensures SameElsewhere(old(state), state, n) && SameElsewhere(old(handles), handles, n)
      ensures backend.calls == old(backend.calls) + [Recorded(n, c.child, status)]
    {
      state := state[n := status];
      backend.UpdatePipeline(n, Some(handles[n]), status);
      if !IsSuccess(status) && Lookup(attempts, n, 0) <= nodes[n].retries {
        state := state[n := Pending];
        handles := handles - {n};
      }
    }

    /** One iteration of the polling loop, on the entries of one node. */
    method PollEntry(n: NodeId, reply: Reply, now: int, ghost c: Cell) returns (progressed: bool)
      requires backend.Valid() && n in nodes && n in state && n in launchedAt && n in handles
      requires c == CellAt(D(), n) && !c.status.Pending?
      modifies this`state, this`handles, this`transientErrors, backend
      ensures backend.Valid() && n in state
      ensures CellAt(D(), n) == PollCell(nodes[n], c, reply, now)
      ensures backend.calls == old(backend.calls) + PollCalls(nodes[n], n, c, reply, now)
      ensures SameElsewhere(old(state), state, n) && SameElsewhere(old(handles), handles, n)
      ensures SameElsewhere(old(transientErrors), transientErrors, n)
      ensures progressed <==> CellAt(D(), n).status != c.status
    {
      progressed := false;
      if !IsTerminal(state[n]) {
        var verdict := Observe(n, reply, now, c);
        if verdict.Some? {
          Settle(n, verdict.value, CellAt(D(), n));
          progressed := true;
        }
      }
    }

    /** One iteration of the polling loop. */
    method PollStep(n: NodeId, reply: Reply, now: int, ghost g: Graph, ghost s: RunState) returns (progressed: bool)
      requires Running() && g == G() && s == View() && n in handles && state[n] != Pending
      modifies this`state, this`handles, this`transientErrors, backend
      ensures Running() && G() == g && View() == Apply(g, s, Poll(n, reply, now))
      ensures progressed <==> Moves(g, s, Poll(n, reply, now))
    {
      progressed := PollEntry(n, reply, now, CellAt(D(), n));
      CellsChange(old(D()), D(), n);
    }

    /** What the launch loop decides for a node from the states of its parents. */
    method Consider(n: NodeId) returns (move: Move)
      requires Running() && n in nodes
      ensures move == Decide(G(), View(), n)
    {
      if state[n] != Pending {
        return Wait;
      }
      var mine := Lookup(parents, n, {});
      assert mine == ParentsOf(G(), n) && forall p :: p in mine ==> View().cells[p].status == state[p];
      if (exists p :: p in mine && IsTerminal(state[p]) && !IsSuccess(state[p])) && !nodes[n].continueOnFail {
        return Block;
      }
      var ready := if nodes[n].continueOnFail
        then forall p :: p in mine ==> IsTerminal(state[p])
        else forall p :: p in mine ==> IsSuccess(state[p]);
      return if ready then Launch else Wait;
    }

    /** The outputs of the parents that succeeded. */
    method Gather(n: NodeId) returns (inputs: map<NodeId, Handle>)
      requires Running() && n in nodes
      ensures inputs == InputsOf(G(), View(), n)
    {
      var mine := Lookup(parents, n, {});
      inputs := map p | p in mine && p in handles && p in state && IsSuccess(state[p]) :: handles[p];
      assert mine == ParentsOf(G(), n);
    }

    method BlockEntry(n: NodeId, ghost c: Cell)
      requires backend.Valid() && n in state && c == CellAt(D(), n)
      modifies this`state, backend
      ensures backend.Valid() && n in state && CellAt(D(), n) == c.(status := Stopped)
      ensures SameElsewhere(old(state), state, n)
      ensures backend.calls == old(backend.calls) + [Recorded(n, None, Aborted)]
    {
      state := state[n := Stopped];
      backend.UpdatePipeline(n, None, Aborted);
    }

    method LaunchEntry(n: NodeId, inputs: map<NodeId, Handle>, ticket: Handle, now: int, ghost c: Cell)
      requires backend.Valid() && n in state && c == CellAt(D(), n)
      modifies this`state, this`attempts, this`handles, this`launchedAt, backend
      ensures backend.Valid() && n in state && n in handles && n in launchedAt
      ensures CellAt(D(), n) == VisitCell(c, Launch, ticket, now)
      ensures SameElsewhere(old(state), state, n) && SameElsewhere(old(attempts), attempts, n)
      ensures SameElsewhere(old(handles), handles, n) && SameElsewhere(old(launchedAt), launchedAt, n)
      ensures backend.calls == old(backend.calls) + [Launched(n, ticket, inputs), Recorded(n, Some(ticket), Queued)]
    {
      attempts := attempts[n := Lookup(attempts, n, 0) + 1];
      var handle := backend.Launch(n, inputs, ticket);
      handles := handles[n := handle];
      launchedAt := launchedAt[n := now];
      state := state[n := Queued];
      backend.UpdatePipeline(n, Some(handle), Queued);
    }

    /** One iteration of the launch loop, on the entries of one node. */
    method VisitEntry(n: NodeId, ticket: Handle, now: int, ghost s: RunState) returns (move: Move)
      requires Running() && n in nodes && s == View()
      modifies this`state, this`attempts, this`handles, this`launchedAt, backend
      ensures backend.Valid() && move == Decide(G(), s, n)
      ensures n in state && (n in handles ==> n in launchedAt)
      ensures CellAt(D(), n) == VisitCell(s.cells[n], move, ticket, now)
      ensures SameElsewhere(old(state), state, n) && SameElsewhere(old(attempts), attempts, n)
      ensures SameElsewhere(old(handles), handles, n) && SameElsewhere(old(launchedAt), launchedAt, n)
      ensures backend.calls == s.log + VisitCalls(G(), s, n, ticket)
    {
      ghost var c := CellAt(D(), n);
      move := Consider(n);
      match move {
        case Wait =>
        case Block => BlockEntry(n, c);
        case Launch =>
          var inputs := Gather(n);
          LaunchEntry(n, inputs, ticket, now, c);
      }
    }

    /** One iteration of the launch loop. */
    method VisitStep(n: NodeId, ticket: Handle, now: int, ghost g: Graph, ghost s: RunState)
      returns (progressed: bool)
      requires Running() && g == G() && s == View() && n in nodes
      modifies this`state, this`attempts, this`handles, this`launchedAt, backend
      ensures Running() && G() == g && View() == Apply(g, s, Visit(n, ticket, now))
      ensures progressed <==> !Decide(g, s, n).Wait?
    {
      var move := VisitEntry(n, ticket, now, s);
      CellsChange(old(D()), D(), n);
      return !move.Wait?;
    }

    /** The polling loop of one pass: it polls the children it had when it started, in any order. */
    method PollPass(input: Input, ghost g: Graph, ghost s0: RunState)
      returns (progressed: bool, ghost ls: seq<Label>)
      requires Running() && g == G() && s0 == View() && Sound(g, s0)
      modifies this`state, this`handles, this`transientErrors, backend
      ensures Running() && G() == g && Polling(g, s0, View(), ls, {}, progressed, input)
    {
      ghost var s := s0;
      progressed, ls := false, [];
      var todo := handles.Keys;
      StartPolling(g, D(), s0, todo, input);
      while todo != {}
        invariant Running() && G() == g && View() == s
        invariant Polling(g, s0, s, ls, todo, progressed, input)
      {
        var n :| n in todo;
        ghost var l := Poll(n, input.reply(n), input.pollTime(n));
        PollReady(g, s, D(), n);
        PolledOne(g, s0, s, ls, todo, progressed, input, l);
        var moved := PollStep(n, input.reply(n), input.pollTime(n), g, s);
        ls, s := ls + [l], Apply(g, s, l);
        progressed := progressed || moved;
        todo := todo - {n};
      }
    }

    /** The launch loop of one pass. */
    method LaunchPass(input: Input, ghost g: Graph, ghost s0: RunState)
      returns (progressed: bool, ghost ls: seq<Label>)
      requires Running() && g == G() && s0 == View() && Sound(g, s0)
      requires forall i :: 0 <= i < |order| ==> order[i] in nodes
      modifies this`state, this`attempts, this`handles, this`launchedAt, backend
      ensures Running() && G() == g && Visiting(g, s0, View(), ls, order, |order|, progressed)
    {
      ghost var s := s0;
      progressed, ls := false, [];
      for i := 0 to |order|
        invariant Running() && G() == g && View() == s
        invariant Visiting(g, s0, s, ls, order, i, progressed)
      {
        var n := order[i];
        ghost var l := Visit(n, input.ticket(n), input.launchTime(n));
        VisitedOne(g, s0, s, ls, order, i, progressed, l);
        var moved := VisitStep(n, input.ticket(n), input.launchTime(n), g, s);
        ls, s := ls + [l], Apply(g, s, l);
        progressed := progressed || moved;
      }
    }

    /** Tells every live child to stop. */
    method CancelAll(ghost s: RunState) returns (ghost told: seq<NodeId>)
      requires backend.Valid() && s == RunState(Cells(D()), backend.calls)
      requires handles.Keys <= state.Keys
      modifies backend`calls
      ensures backend.Valid() && LiveOnce(s, told) && backend.calls == s.log + Cancels(s, told)
    {
      told := [];
      var todo := handles.Keys;
      while todo != {}
        invariant backend.Valid() && todo <= handles.Keys
        invariant ToldSoFar(s, handles.Keys - todo, told)
        invariant backend.calls == s.log + Cancels(s, told)
      {
        var n :| n in todo;
        assert s.cells[n] == CellAt(D(), n);
        ToldOneMore(s, handles.Keys - todo, told, n);
        CancelsOneMore(s, told, n);
        assert handles.Keys - (todo - {n}) == handles.Keys - todo + {n};
        if !IsTerminal(state[n]) {
          backend.Cancel(handles[n]);
          told := told + [n];
        }
        todo := todo - {n};
      }
    }

    /** One pass of the loop: poll the children, then visit the nodes. */
    method Pass(input: Input, ghost g: Graph, ghost s: RunState) returns (progressed: bool, ghost ls: seq<Label>)
      requires Running() && Listed() && g == G() && s == View() && Sound(g, s)
      modifies this`state, this`attempts, this`handles, this`launchedAt, this`transientErrors, backend
      ensures Running() && G() == g && View() == Exec(g, s, ls) && Sound(g, View())
      ensures progressed <==> MoveCount(g, s, ls) > 0
      ensures Acyclic(g) && !progressed ==>
                (AllTerminal(g, View()) || exists n :: n in g.nodes && Tracked(View().cells[n]))
      ensures Acyclic(g) && !progressed && Prompt(input) ==> AllTerminal(g, View())
    {
      var polled, polls := PollPass(input, g, s);
      ghost var s1 := View();
      var visited, visits := LaunchPass(input, g, s1);
      PassDone(g, order, input, s, s1, polls, polled, View(), visits, visited);
      return polled || visited, polls + visits;
    }

    /** One pass and the exit test. */
    method PassAndTest(
      input: Input, ghost g: Graph, ghost s0: RunState, ghost s: RunState, ghost ls: seq<Label>, ghost passes: nat,
      ghost idle: seq<nat>)
      returns (outcome: Outcome, ghost ls': seq<Label>, ghost idle': seq<nat>)
      requires Running() && Listed() && g == G() && s == View() && Progress(g, s0, s, ls, passes, idle)
      modifies this`state, this`attempts, this`handles, this`launchedAt, this`transientErrors, backend
      ensures Running() && G() == g && ReportsRun(g, View(), outcome) && !outcome.ControllerCancelled?
      ensures View() == Exec(g, s0, ls')
      ensures outcome.StillRunning? ==> Progress(g, s0, View(), ls', passes + 1, idle')
      ensures outcome.StillRunning? && Acyclic(g) && Prompt(input) ==> idle' == idle
    {
      var progressed, more := Pass(input, g, s);
      outcome := FinalOutcome(state, handles);
      FinalReports(g, D(), View());
      ExecConcat(g, s0, ls, more);
      ls' := ls + more;
      idle' := if progressed then idle else idle + [|ls + more|];
      if outcome.StillRunning? {
        OnePassMore(g, s0, s, ls, passes, idle, View(), more);
      }
    }

    /** One turn of the loop: stop if the controller was cancelled, else a pass and the exit test. */
    method Turn(
      input: Input, ghost g: Graph, ghost s0: RunState, ghost s: RunState, ghost ls: seq<Label>, ghost passes: nat,
      ghost idle: seq<nat>)
      returns (outcome: Outcome, ghost ls': seq<Label>, ghost idle': seq<nat>, ghost told: seq<NodeId>)
      requires Running() && Listed() && g == G() && s == View() && Progress(g, s0, s, ls, passes, idle)
      modifies this`state, this`attempts, this`handles, this`launchedAt, this`transientErrors, backend
      ensures Running() && Listed() && G() == g
      ensures TurnEnds(g, s0, ls', told, View(), outcome)
      ensures outcome.StillRunning? ==> Progress(g, s0, View(), ls', passes + 1, idle')
      ensures outcome.StillRunning? && Acyclic(g) && Prompt(input) ==> idle' == idle
    {
      if input.cancelled {
        told := CancelAll(s);
        return ControllerCancelled, ls, idle, told;
      }
      told := [];
      outcome, ls', idle' := PassAndTest(input, g, s0, s, ls, passes, idle);
    }

    /**
     The controller's run over a finite number of passes, each with its own observations; every
     prefix of every run is one of these. It starts from what the recorded pipeline restores.
     `Returned` means that every node succeeded, `NodesFailed` that all are finished and some did
     not; after `ControllerCancelled` exactly the live children were told to stop.
     A run that is still going has moved at most MoveBudget times, and after every other pass a
     child was live; with children that answer at once it cannot outlast its budget.
     */
    method Run(script: seq<Input>, tasks: Tasks, now: int)
      returns (outcome: Outcome, ghost ls: seq<Label>, ghost idle: seq<nat>, ghost told: seq<NodeId>)
      requires Valid() && Listed() && backend.calls == []
      requires forall t :: t in tasks ==> !tasks[t].Pending?
      modifies this`state, this`attempts, this`handles, this`launchedAt, this`transientErrors, backend
      ensures Running() && G() == old(G())
      ensures RunResult(G(), order, InitialState(G(), RestoredFrom(G(), old(backend.pipeline), tasks), now),
                        |script|, ls, idle, told, View(), outcome)
      ensures Acyclic(G()) && (forall i :: 0 <= i < |script| ==> Prompt(script[i])) ==>
                |script| <= MoveBudget(G(), order) || !outcome.StillRunning?
    {
      ghost var g, restored := G(), RestoredFrom(G(), backend.pipeline, tasks);
      Begin(tasks, now);
      ghost var s0, s := View(), View();
      ls, idle, told := [], [], [];
      outcome := StillRunning;
      var i := 0;
      NothingYet(g, backend.pipeline, tasks, now);
      while i < |script| && outcome.StillRunning?
        invariant i <= |script| && Running() && Listed() && G() == g && s == View()
        invariant if i == 0 then outcome.StillRunning? else TurnEnds(g, s0, ls, told, s, outcome)
        invariant outcome.StillRunning? ==> Progress(g, s0, s, ls, i, idle)
        invariant outcome.StillRunning? && Acyclic(g) && (forall j :: 0 <= j < i ==> Prompt(script[j])) ==> idle == []
      {
        outcome, ls, idle, told := Turn(script[i], g, s0, s, ls, i, idle);
        s := View();
        i := i + 1;
      }
      RunEnds(g, order, restored, now, |script|, i, ls, idle, told, s, outcome);
    }
  }
}
