/**
 The idempotent start of a v2 run (clearpipe.start) as a protocol: any number of calls that share
 company, user and idempotency key, interleaved between every two accesses to the shared stores,
 each of which may stop anywhere or meet an error at any access. A call that crashes is a call
 that takes no further step.

 The shared stores are the Settings reservation of the key and the run tasks. A signature is
 injective on the record it seals, so comparing signatures is comparing records.
 */
module StartProtocol {
  import opened Common

  type Id = nat

  datatype Phase = Reserved | Pending | Committed

  /** A sealed idempotency record; `enqueued` is absent until the commit. */
  datatype Record = Record(
    definition: Id, revision: nat, fingerprint: nat, queue: Id, runId: Id, phase: Phase, enqueued: Option<bool>)

  datatype RunStatus = Created | Queued | Advanced

  /** `queuedIn` is the queue it was enqueued to. */
  datatype RunTask = RunTask(record: Record, status: RunStatus, queuedIn: Option<Id>)

  /** `created` is history: the id of every run task ever created. */
  datatype Stores = Stores(reservation: Option<Record>, runs: map<Id, RunTask>, created: set<Id>)

  /** `queue` is the queue the caller asked for, if any. */
  datatype Request = Request(definition: Id, revision: nat, fingerprint: nat, queue: Option<Id>)

  /** The local variables from the clone on; `status` is what the run read had. */
  datatype Context = Context(reservation: Record, queue: Id, record: Record, status: RunStatus, createdRun: bool)

  /** Where a call stands: before which access to the shared stores, with which locals. A call that
      finds a run or reservation inconsistent ends there; no call ever does (StartSafety.CommitIsSound). */
  datatype Pc =
    | Begin
    | Resolve(found: Option<Record>)
    | Reserve(queue: Id)
    | Reread
    | Find(reservation: Record, queue: Id)
    | Repair(reservation: Record, record: Record)
    | Clone(reservation: Record, queue: Id)
    | FindAgain(reservation: Record, queue: Id)
    | MarkPending(ctx: Context)
    | Enqueue(ctx: Context)
    | Recheck(ctx: Context)
    | EnqueueAgain(ctx: Context)
    | CommitRun(ctx: Context)
    | ConfirmRun(ctx: Context)
    | CommitReservation(ctx: Context)
    | Cleanup(runId: Id)
    | Done(runId: Id, enqueued: bool)
    | Rejected
    | Inconsistent
    | Failed

  datatype EnqueueReply = Accepted | AlreadyQueued | LostRace | Refused

  /** What the outside decides for one step: an error before or after the access takes effect, the
      account's default queue, the id drawn, and the answer of the enqueue operation. */
  datatype Fault = NoFault | Before | After

  datatype Choice = Choice(fault: Fault, defaultQueue: Id, freshId: Id, reply: EnqueueReply)

  predicate SameBinding(a: Record, b: Record) {
    && a.definition == b.definition && a.revision == b.revision && a.fingerprint == b.fingerprint
    && a.queue == b.queue && a.runId == b.runId
  }

  predicate Matches(r: Record, q: Request) {
    r.fingerprint == q.fingerprint && r.definition == q.definition && r.revision == q.revision
  }

  /** An exception after the clone: the creator of the run cleans up first. */
  function Raise(ctx: Context): Pc {
    if ctx.createdRun then Cleanup(ctx.reservation.runId) else Failed
  }

  /** `_update_idempotency_reservation`: an unconditional write. */
  function Write(s: Stores, r: Record, phase: Phase, enqueued: Option<bool>): Stores {
    s.(reservation := Some(r.(phase := phase, enqueued := enqueued)))
  }

  /** `_idempotent_run`: the reserved run, checked against the reservation. */
  datatype Lookup = Absent | Mismatch | Present(run: RunTask)

  function FindRun(s: Stores, reservation: Record): Lookup {
    if reservation.runId !in s.runs then Absent
    else if !SameBinding(s.runs[reservation.runId].record, reservation) then Mismatch
    else Present(s.runs[reservation.runId])
  }

  function Insert(s: Stores, id: Id, run: RunTask): Stores {
    s.(runs := s.runs[id := run], created := s.created + {id})
  }

  /** The enqueue operation: it leaves the status different from created, or raises and changes
      nothing; only a queued task is reported as already queued. */
  function EnqueueTask(s: Stores, id: Id, queue: Id, reply: EnqueueReply): (Stores, EnqueueReply) {
    if id !in s.runs then (s, Refused)
    else match reply
      case Accepted => (s.(runs := s.runs[id := s.runs[id].(status := Queued, queuedIn := Some(queue))]), Accepted)
      case AlreadyQueued => (s, if s.runs[id].status.Queued? then AlreadyQueued else Refused)
      case LostRace => (s, LostRace)
      case Refused => (s, Refused)
  }

  /** The state check and enqueue; a run seen further on than queued needs no enqueue. */
  function EnqueueStep(s: Stores, ctx: Context, c: Choice): (Stores, Pc) {
    if ctx.status.Advanced? then (s, CommitRun(ctx))
    else
      var (s', reply) := EnqueueTask(s, ctx.reservation.runId, ctx.queue, c.reply);
      match reply
      case Accepted => (s', CommitRun(ctx))
      case AlreadyQueued => (s', CommitRun(ctx))
      case LostRace => (s', Recheck(ctx))
      case Refused => (s', Raise(ctx))
  }

  /** The compare-and-set of `_commit_idempotent_run`. */
  function CommitStep(s: Stores, ctx: Context): (Stores, Pc) {
    var id := ctx.reservation.runId;
    if id in s.runs && s.runs[id].record.phase.Pending? && s.runs[id].record == ctx.record then
      (s.(runs := s.runs[id := s.runs[id].(record := ctx.record.(phase := Committed, enqueued := Some(true)))]),
       CommitReservation(ctx))
    else (s, ConfirmRun(ctx))
  }

  function FoundRun(s: Stores, res: Record, queue: Id): Pc {
    match FindRun(s, res)
    case Mismatch => Inconsistent
    case Absent => if res.phase.Committed? then Inconsistent else Clone(res, queue)
    case Present(run) =>
      if run.record.phase.Committed? then
        if res.phase.Committed? then Done(res.runId, run.record.enqueued == Some(true)) else Repair(res, run.record)
      else Enqueue(Context(res, queue, run.record, run.status, false))
  }

  /** One access of one call to the shared stores, without an error. */
  function Access(s: Stores, q: Request, pc: Pc, c: Choice): (Stores, Pc) {
    match pc
    case Begin =>
      (s, match s.reservation
          case None => Resolve(None)
          case Some(r) => if Matches(r, q) then Resolve(Some(r)) else Rejected)
    case Resolve(found) =>
      (s, match found
          case Some(r) => Find(r, r.queue)
          case None => Reserve(match q.queue case Some(id) => id case None => c.defaultQueue))
    case Reserve(queue) =>
      if s.reservation.None? then
        var r := Record(q.definition, q.revision, q.fingerprint, queue, c.freshId, Reserved, None);
        (s.(reservation := Some(r)), Find(r, queue))
      else (s, Reread)
    case Reread =>
      (s, match s.reservation
          case None => Failed
          case Some(r) => if Matches(r, q) then Find(r, r.queue) else Rejected)
    case Find(res, queue) => (s, FoundRun(s, res, queue))
    case Repair(res, rec) =>
      (Write(s, res, Committed, Some(rec.enqueued == Some(true))), Done(res.runId, rec.enqueued == Some(true)))
    case Clone(res, queue) =>
      if res.runId in s.runs then (s, FindAgain(res, queue))
      else
        var rec := Record(q.definition, q.revision, q.fingerprint, queue, res.runId, Pending, None);
        (Insert(s, res.runId, RunTask(rec, Created, None)), MarkPending(Context(res, queue, rec, Created, true)))
    case FindAgain(res, queue) =>
      (s, match FindRun(s, res)
          case Absent => Failed
          case Mismatch => Inconsistent
          case Present(run) => Enqueue(Context(res, queue, run.record, run.status, false)))
    case MarkPending(ctx) =>
      (Write(s, ctx.reservation, Pending, None),
       Enqueue(ctx.(reservation := ctx.reservation.(phase := Pending, enqueued := None))))
    case Enqueue(ctx) => EnqueueStep(s, ctx, c)
    case Recheck(ctx) =>
      (s, match FindRun(s, ctx.reservation)
          case Absent => Raise(ctx)
          case Mismatch => Inconsistent
          case Present(run) =>
            var now := ctx.(record := run.record, status := run.status);
            match run.status
            case Created => Raise(ctx)
            case Queued => EnqueueAgain(now)
            case Advanced => CommitRun(now))
    case EnqueueAgain(ctx) =>
      var (s', reply) := EnqueueTask(s, ctx.reservation.runId, ctx.queue, c.reply);
      (s', if reply.Accepted? || reply.AlreadyQueued? then CommitRun(ctx) else Raise(ctx))
    case CommitRun(ctx) => CommitStep(s, ctx)
    case ConfirmRun(ctx) =>
      (s, match FindRun(s, ctx.record)
          case Absent => Raise(ctx)
          case Mismatch => Inconsistent
          case Present(run) => if run.record.phase.Committed? then CommitReservation(ctx) else Raise(ctx))
    case CommitReservation(ctx) =>
      (Write(s, ctx.reservation, Committed, Some(true)), Done(ctx.reservation.runId, true))
    case Cleanup(id) =>
      (if id in s.runs && s.runs[id].status.Created? then s.(runs := s.runs - {id}) else s, Failed)
    case Done(_, _) => (s, pc)
    case Rejected => (s, pc)
    case Inconsistent => (s, pc)
    case Failed => (s, pc)
  }

  predicate Finished(pc: Pc) {
    pc.Done? || pc.Rejected? || pc.Inconsistent? || pc.Failed?
  }

  /** Where an error raised at an access leaves the call. */
  function OnError(pc: Pc): Pc {
    match pc
    case MarkPending(ctx) => Raise(ctx)
    case Enqueue(ctx) => Raise(ctx)
    case Recheck(ctx) => Raise(ctx)
    case EnqueueAgain(ctx) => Raise(ctx)
    case CommitRun(ctx) => Raise(ctx)
    case ConfirmRun(ctx) => Raise(ctx)
    case CommitReservation(ctx) => Raise(ctx)
    case _ => Failed
  }

  /** One step of one call; an access may meet an error before or after it takes effect. */
  function Step(s: Stores, q: Request, pc: Pc, c: Choice): (Stores, Pc) {
    if Finished(pc) then (s, pc)
    else match c.fault
      case NoFault => Access(s, q, pc, c)
      case Before => (s, OnError(pc))
      case After => (Access(s, q, pc, c).0, OnError(pc))
  }

  // ---------------------------------------------------------------------- runs

  datatype Caller = Caller(request: Request, pc: Pc)

  datatype State = State(stores: Stores, callers: map<nat, Caller>)

  datatype Action =
    | Arrive(caller: nat, request: Request)
    | Move(caller: nat, choice: Choice)
    | Worker(run: Id, status: RunStatus)   // the run leaves the queue, or goes on

  predicate Enabled(st: State, a: Action) {
    match a
    case Arrive(k, _) => k !in st.callers
    case Move(k, _) => k in st.callers
    case Worker(id, status) =>
      id in st.stores.runs && !st.stores.runs[id].status.Created? && !status.Created?
  }

  function Next(st: State, a: Action): State
    requires Enabled(st, a)
  {
    match a
    case Arrive(k, q) => st.(callers := st.callers[k := Caller(q, Begin)])
    case Move(k, c) =>
      var (stores, pc) := Step(st.stores, st.callers[k].request, st.callers[k].pc, c);
      State(stores, st.callers[k := st.callers[k].(pc := pc)])
    case Worker(id, status) =>
      st.(stores := st.stores.(runs := st.stores.runs[id := st.stores.runs[id].(status := status)]))
  }

  const FIRST := State(Stores(None, map[], {}), map[])

  ghost predicate IsRun(states: seq<State>, actions: seq<Action>) {
    && |states| == |actions| + 1
    && states[0] == FIRST
    && forall i :: 0 <= i < |actions| ==> Enabled(states[i], actions[i]) && states[i + 1] == Next(states[i], actions[i])
  }
}
