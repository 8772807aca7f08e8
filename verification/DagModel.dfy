/**
 The scheduler of a ClearPipe controller (controller_runner.py) as a function of what the
 controller observes.

 A run is driven by labels: one poll of one child, or one visit of one node by the launch loop.
 `Exec` folds a sequence of labels over a run state, so a statement about every label sequence
 is a statement about every interleaving of polls, launches, completions and errors; the order
 in which the passes of the loop happen to visit the nodes is one of these sequences.
 */
module DagModel {
  import opened Common

  /** Node ids are only ever compared. */
  type NodeId = nat

  /** A child task: the handle the backend returns for it. */
  type Handle = nat

  /** Task statuses as the backend reports them; `Pending` is the scheduler's own mark. */
  datatype Status =
    | Pending | Queued | InProgress | Completed | Failed | Stopped | Closed | Published
    | Aborted | Other(code: nat)

  predicate IsTerminal(st: Status) {
    st.Completed? || st.Failed? || st.Stopped? || st.Closed? || st.Published?
  }

  predicate IsSuccess(st: Status) {
    st.Completed? || st.Closed? || st.Published?
  }

  /** The per-node configuration the scheduler reads; `timeout == 0` is "no timeout". */
  datatype Config = Config(retries: int, continueOnFail: bool, timeout: int)

  datatype Graph = Graph(nodes: map<NodeId, Config>, parents: map<NodeId, set<NodeId>>)

  function ParentsOf(g: Graph, n: NodeId): set<NodeId> {
    if n in g.parents then g.parents[n] else {}
  }

  /** Edges stay inside the node set; an edge from an unknown node is a KeyError in the original. */
  ghost predicate EdgesInside(g: Graph) {
    forall n :: n in g.nodes ==> ParentsOf(g, n) <= g.nodes.Keys
  }

  /** `rank` orders every node after its parents. */
  ghost predicate Ranks(g: Graph, rank: map<NodeId, nat>) {
    && rank.Keys == g.nodes.Keys
    && forall n, p :: n in g.nodes && p in g.nodes && p in ParentsOf(g, n) ==> rank[p] < rank[n]
  }

  ghost predicate Acyclic(g: Graph) {
    exists rank :: Ranks(g, rank)
  }

  function Max(a: int, b: int): int { if a < b then b else a }

  /** How often one run may launch a node. */
  function AttemptLimit(c: Config): nat {
    Max(0, c.retries) + 1
  }

  /** Calls the scheduler makes on the backend, in order. */
  datatype Event =
    | Launched(node: NodeId, child: Handle, inputs: map<NodeId, Handle>)
    | Cancelled(child: Handle)
    | Recorded(node: NodeId, job: Option<Handle>, status: Status)

  /** What `run` keeps about one node: its entries in `state`, `attempts`, `handles`,
      `launched_at` and `transient_errors`. */
  datatype Cell = Cell(status: Status, attempts: nat, child: Option<Handle>, launchedAt: int, errors: nat)

  datatype RunState = RunState(cells: map<NodeId, Cell>, log: seq<Event>)

  predicate WellFormed(g: Graph, s: RunState) {
    s.cells.Keys == g.nodes.Keys
  }

  // ------------------------------------------------------------------ polling

  /** What polling a child yields: a status, or an exception. */
  datatype Reply = Reports(status: Status) | Raises

  const ERROR_LIMIT := 5

  /** Is the node polled at all: it has a child and is not finished. */
  predicate Tracked(c: Cell) {
    c.child.Some? && !IsTerminal(c.status)
  }

  function ErrorsAfter(c: Cell, reply: Reply): nat {
    if reply.Raises? then c.errors + 1 else 0
  }

  /** An exception below the limit is ignored for this pass, timeout included. */
  predicate Ignored(c: Cell, reply: Reply) {
    reply.Raises? && ErrorsAfter(c, reply) < ERROR_LIMIT
  }

  predicate Overdue(cfg: Config, c: Cell, now: int) {
    cfg.timeout != 0 && now - c.launchedAt > cfg.timeout
  }

  /** The status a poll settles on, timeout and error limit included, if it is terminal. */
  function Verdict(cfg: Config, c: Cell, reply: Reply, now: int): Option<Status> {
    if Ignored(c, reply) then None
    else
      var seen := if reply.Raises? then Failed else reply.status;
      var status := if Overdue(cfg, c, now) then Failed else seen;
      if IsTerminal(status) then Some(status) else None
  }

  /** A failed attempt with retries left goes back to pending, without its child. */
  predicate Retried(cfg: Config, c: Cell, verdict: Status) {
    !IsSuccess(verdict) && c.attempts <= cfg.retries
  }

  function PollCell(cfg: Config, c: Cell, reply: Reply, now: int): Cell {
    if !Tracked(c) then c
    else
      var counted := c.(errors := ErrorsAfter(c, reply));
      match Verdict(cfg, c, reply, now)
      case None => counted
      case Some(v) =>
        if Retried(cfg, c, v) then counted.(status := Pending, child := None)
        else counted.(status := v)
  }

  /** A child is told to stop when its timeout has passed. */
  function TimeoutCalls(cfg: Config, c: Cell, reply: Reply, now: int): seq<Event>
    requires c.child.Some?
  {
    if !Ignored(c, reply) && Overdue(cfg, c, now) then [Cancelled(c.child.value)] else []
  }

  function PollCalls(cfg: Config, n: NodeId, c: Cell, reply: Reply, now: int): seq<Event> {
    if !Tracked(c) then []
    else
      TimeoutCalls(cfg, c, reply, now)
      + (match Verdict(cfg, c, reply, now)
         case None => []
         case Some(v) => [Recorded(n, c.child, v)])
  }

  // ---------------------------------------------------------------- launching

  datatype Move = Wait | Block | Launch

  predicate FailedParent(g: Graph, s: RunState, n: NodeId)
    requires WellFormed(g, s) && EdgesInside(g) && n in g.nodes
  {
    exists p :: p in ParentsOf(g, n) && IsTerminal(s.cells[p].status) && !IsSuccess(s.cells[p].status)
  }

  /** All parents in SUCCESS, or all parents TERMINAL for a node that continues on failure. */
  predicate ParentsDone(g: Graph, s: RunState, n: NodeId)
    requires WellFormed(g, s) && EdgesInside(g) && n in g.nodes
  {
    if g.nodes[n].continueOnFail
    then forall p :: p in ParentsOf(g, n) ==> IsTerminal(s.cells[p].status)
    else forall p :: p in ParentsOf(g, n) ==> IsSuccess(s.cells[p].status)
  }

  function Decide(g: Graph, s: RunState, n: NodeId): Move
    requires WellFormed(g, s) && EdgesInside(g) && n in g.nodes
  {
    if !s.cells[n].status.Pending? then Wait
    else if !g.nodes[n].continueOnFail && FailedParent(g, s, n) then Block
    else if ParentsDone(g, s, n) then Launch
    else Wait
  }

  /** The outputs handed to a launched node: those of its successful parents. */
  function InputsOf(g: Graph, s: RunState, n: NodeId): map<NodeId, Handle>
    requires WellFormed(g, s) && EdgesInside(g) && n in g.nodes
  {
    map p | p in ParentsOf(g, n) && s.cells[p].child.Some? && IsSuccess(s.cells[p].status)
      :: s.cells[p].child.value
  }

  function VisitCell(c: Cell, move: Move, ticket: Handle, now: int): Cell {
    match move
    case Wait => c
    case Block => c.(status := Stopped)
    case Launch => c.(status := Queued, attempts := c.attempts + 1, child := Some(ticket), launchedAt := now)
  }

  function VisitCalls(g: Graph, s: RunState, n: NodeId, ticket: Handle): seq<Event>
    requires WellFormed(g, s) && EdgesInside(g) && n in g.nodes
  {
    match Decide(g, s, n)
    case Wait => []
    case Block => [Recorded(n, None, Aborted)]
    case Launch => [Launched(n, ticket, InputsOf(g, s, n)), Recorded(n, Some(ticket), Queued)]
  }

  // --------------------------------------------------------------------- runs

  datatype Label =
    | Poll(node: NodeId, reply: Reply, now: int)
    | Visit(node: NodeId, ticket: Handle, now: int)

  function NextCell(g: Graph, s: RunState, l: Label): Cell
    requires WellFormed(g, s) && EdgesInside(g) && l.node in g.nodes
  {
    match l
    case Poll(n, reply, now) => PollCell(g.nodes[n], s.cells[n], reply, now)
    case Visit(n, ticket, now) => VisitCell(s.cells[n], Decide(g, s, n), ticket, now)
  }

  function Calls(g: Graph, s: RunState, l: Label): seq<Event>
    requires WellFormed(g, s) && EdgesInside(g) && l.node in g.nodes
  {
    match l
    case Poll(n, reply, now) => PollCalls(g.nodes[n], n, s.cells[n], reply, now)
    case Visit(n, ticket, now) => VisitCalls(g, s, n, ticket)
  }

  /** One iteration of the polling loop, or of the launch loop. */
  function Apply(g: Graph, s: RunState, l: Label): (r: RunState)
    requires WellFormed(g, s) && EdgesInside(g)
    ensures WellFormed(g, r)
  {
    if l.node !in g.nodes then s
    else RunState(s.cells[l.node := NextCell(g, s, l)], s.log + Calls(g, s, l))
  }

  /** The run state after a sequence of labels. */
  function Exec(g: Graph, s: RunState, ls: seq<Label>): (r: RunState)
    requires WellFormed(g, s) && EdgesInside(g)
    ensures WellFormed(g, r)
  {
    if |ls| == 0 then s
    else Apply(g, Exec(g, s, ls[..|ls| - 1]), ls[|ls| - 1])
  }

  /** Running one more label. */
  lemma ExecSnoc(g: Graph, s: RunState, ls: seq<Label>, l: Label)
    requires WellFormed(g, s) && EdgesInside(g)
    ensures Exec(g, s, ls + [l]) == Apply(g, Exec(g, s, ls), l)
  {
    assert (ls + [l])[..|ls|] == ls;
  }

  /** What `restore` finds: a recorded child and the status it reports. */
  type Restored = map<NodeId, (Handle, Status)>

  /** The state a run starts from, given what `restore` finds for each node. */
  function InitialState(g: Graph, restored: Restored, now: int): (s: RunState)
    ensures WellFormed(g, s)
  {
    RunState(
      map n | n in g.nodes ::
        if n in restored then Cell(restored[n].1, 0, Some(restored[n].0), now, 0)
        else Cell(Pending, 0, None, 0, 0),
      [])
  }

  /** A run that restores nothing. */
  function Fresh(g: Graph): (s: RunState)
    ensures WellFormed(g, s)
  {
    InitialState(g, map[], 0)
  }

  /** No restored child carries the scheduler's own mark. */
  predicate Restorable(restored: Restored) {
    forall n :: n in restored ==> !restored[n].1.Pending?
  }

  /** The exit test of the loop. */
  predicate AllTerminal(g: Graph, s: RunState)
    requires WellFormed(g, s)
  {
    forall n :: n in g.nodes ==> IsTerminal(s.cells[n].status)
  }

  function SuccessSet(g: Graph, s: RunState): set<NodeId>
    requires WellFormed(g, s)
  {
    set n | n in g.nodes && IsSuccess(s.cells[n].status)
  }
}
