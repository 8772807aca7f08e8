/** What every interleaving of start calls keeps. */
module StartSafety {
  import opened Common
  import opened StartProtocol

  // ------------------------------------------------------------------ invariant

  predicate RunCommitted(s: Stores, id: Id) {
    id in s.runs && s.runs[id].record.phase.Committed?
  }

  predicate RunStarted(s: Stores, id: Id) {
    id in s.runs && !s.runs[id].status.Created?
  }

  /** A run of the reservation r: its record differs from r in the phase only, and a committed run
      has been enqueued. */
  predicate GoodRun(r: Record, record: Record, status: RunStatus) {
    && SameBinding(record, r)
    && (record.phase.Pending? || record.phase.Committed?)
    && (record.phase.Pending? ==> record.enqueued.None?)
    && (record.phase.Committed? ==> record.enqueued == Some(true) && !status.Created?)
  }

  /** A run that has been enqueued is in the queue of its record. */
  predicate InItsQueue(run: RunTask) {
    run.queuedIn == if run.status.Created? then None else Some(run.record.queue)
  }

  predicate StoresInv(s: Stores) {
    match s.reservation
    case None => s.runs == map[] && s.created == {}
    case Some(r) =>
      && s.created <= {r.runId}
      && s.runs.Keys <= s.created
      && (forall id :: id in s.runs ==> GoodRun(r, s.runs[id].record, s.runs[id].status) && InItsQueue(s.runs[id]))
      && (r.phase.Committed? ==> RunCommitted(s, r.runId))
      && r.enqueued == if r.phase.Committed? then Some(true) else None
  }

  /** A call holds a copy of the reservation, perhaps in an earlier phase, and made for it. */
  predicate Holds(s: Stores, q: Request, r: Record) {
    && s.reservation.Some? && SameBinding(r, s.reservation.value) && Matches(r, q)
    && (r.phase.Committed? ==> RunCommitted(s, r.runId))
  }

  predicate HoldsContext(s: Stores, q: Request, ctx: Context) {
    && Holds(s, q, ctx.reservation) && ctx.queue == ctx.reservation.queue
    && GoodRun(ctx.reservation, ctx.record, ctx.status)
    && (!ctx.status.Created? ==> RunStarted(s, ctx.reservation.runId))
    && (ctx.record.phase.Committed? ==> RunCommitted(s, ctx.reservation.runId))
  }

  predicate CallerInv(s: Stores, q: Request, pc: Pc) {
    match pc
    case Begin => true
    case Resolve(found) => found.Some? ==> Holds(s, q, found.value)
    case Reserve(_) => true
    case Reread => s.reservation.Some?
    case Find(r, queue) => Holds(s, q, r) && queue == r.queue
    case Repair(r, rec) => Holds(s, q, r) && RunCommitted(s, r.runId) && rec.enqueued == Some(true)
    case Clone(r, queue) => Holds(s, q, r) && queue == r.queue
    case FindAgain(r, queue) => Holds(s, q, r) && queue == r.queue
    case MarkPending(ctx) => HoldsContext(s, q, ctx)
    case Enqueue(ctx) => HoldsContext(s, q, ctx)
    case Recheck(ctx) => HoldsContext(s, q, ctx)
    case EnqueueAgain(ctx) => HoldsContext(s, q, ctx) && RunStarted(s, ctx.reservation.runId)
    case CommitRun(ctx) => HoldsContext(s, q, ctx) && RunStarted(s, ctx.reservation.runId)
    case ConfirmRun(ctx) => HoldsContext(s, q, ctx) && RunCommitted(s, ctx.reservation.runId)
    case CommitReservation(ctx) => HoldsContext(s, q, ctx) && RunCommitted(s, ctx.reservation.runId)
    case Cleanup(id) => s.reservation.Some? && id == s.reservation.value.runId && Matches(s.reservation.value, q)
    case Done(id, enqueued) =>
      && s.reservation.Some? && id == s.reservation.value.runId && Matches(s.reservation.value, q)
      && RunCommitted(s, id) && enqueued
    case Rejected => s.reservation.Some? && !Matches(s.reservation.value, q)
    case Inconsistent => false
    case Failed => true
  }

  ghost predicate Inv(st: State) {
    && StoresInv(st.stores)
    && forall k :: k in st.callers ==> CallerInv(st.stores, st.callers[k].request, st.callers[k].pc)
  }

  // ----------------------------------------------- what a step may do to the stores

  /** Every change any step makes: bindings stay, started runs stay, committed records stay. */
  ghost predicate Evolves(s: Stores, t: Stores) {
    && (s.reservation.Some? ==> t.reservation.Some? && SameBinding(s.reservation.value, t.reservation.value))
    && s.created <= t.created
    && (forall id :: id in s.runs && !s.runs[id].status.Created? ==> id in t.runs && !t.runs[id].status.Created?)
    && (forall id :: RunCommitted(s, id) ==> RunCommitted(t, id) && t.runs[id].record == s.runs[id].record)
  }

  lemma EvolvesKeepsCaller(s: Stores, t: Stores, q: Request, pc: Pc)
    requires StoresInv(s) && Evolves(s, t) && CallerInv(s, q, pc)
    ensures CallerInv(t, q, pc)
  {
    match pc
    case Resolve(found) =>
      if found.Some? {
        EvolvesKeepsHolds(s, t, q, found.value);
      }
    case Find(r, _) => EvolvesKeepsHolds(s, t, q, r);
    case Repair(r, _) => EvolvesKeepsHolds(s, t, q, r);
    case Clone(r, _) => EvolvesKeepsHolds(s, t, q, r);
    case FindAgain(r, _) => EvolvesKeepsHolds(s, t, q, r);
    case MarkPending(ctx) => EvolvesKeepsContext(s, t, q, ctx);
    case Enqueue(ctx) => EvolvesKeepsContext(s, t, q, ctx);
    case Recheck(ctx) => EvolvesKeepsContext(s, t, q, ctx);
    case EnqueueAgain(ctx) => EvolvesKeepsContext(s, t, q, ctx);
    case CommitRun(ctx) => EvolvesKeepsContext(s, t, q, ctx);
    case ConfirmRun(ctx) => EvolvesKeepsContext(s, t, q, ctx);
    case CommitReservation(ctx) => EvolvesKeepsContext(s, t, q, ctx);
    case _ =>
  }

  lemma EvolvesKeepsHolds(s: Stores, t: Stores, q: Request, r: Record)
    requires Evolves(s, t) && Holds(s, q, r)
    ensures Holds(t, q, r)
  {
  }

  lemma EvolvesKeepsContext(s: Stores, t: Stores, q: Request, ctx: Context)
    requires Evolves(s, t) && HoldsContext(s, q, ctx)
    ensures HoldsContext(t, q, ctx)
    ensures RunStarted(s, ctx.reservation.runId) ==> RunStarted(t, ctx.reservation.runId)
    ensures RunCommitted(s, ctx.reservation.runId) ==> RunCommitted(t, ctx.reservation.runId)
  {
  }

  // ------------------------------------------------------------- one step at a time

  /** What a step has to keep: the stores good, changed only as allowed, and the call in step. */
  ghost predicate Keeps(s: Stores, q: Request, t: Stores, pc: Pc) {
    StoresInv(t) && Evolves(s, t) && CallerInv(t, q, pc)
  }

  lemma ReadsKeep(s: Stores, q: Request, pc: Pc, c: Choice)
    requires StoresInv(s) && CallerInv(s, q, pc)
    requires pc.Begin? || pc.Resolve? || pc.Reread? || pc.Find? || pc.FindAgain?
    ensures Keeps(s, q, Access(s, q, pc, c).0, Access(s, q, pc, c).1)
  {
  }

  lemma ReserveKeeps(s: Stores, q: Request, pc: Pc, c: Choice)
    requires StoresInv(s) && CallerInv(s, q, pc) && pc.Reserve?
    ensures Keeps(s, q, Access(s, q, pc, c).0, Access(s, q, pc, c).1)
  {
  }

  lemma WritesKeep(s: Stores, q: Request, pc: Pc, c: Choice)
    requires StoresInv(s) && CallerInv(s, q, pc)
    requires pc.Repair? || pc.MarkPending? || pc.CommitReservation?
    ensures Keeps(s, q, Access(s, q, pc, c).0, Access(s, q, pc, c).1)
  {
  }

  lemma CloneKeeps(s: Stores, q: Request, pc: Pc, c: Choice)
    requires StoresInv(s) && CallerInv(s, q, pc) && pc.Clone?
    ensures Keeps(s, q, Access(s, q, pc, c).0, Access(s, q, pc, c).1)
  {
  }

  lemma EnqueueKeeps(s: Stores, q: Request, pc: Pc, c: Choice)
    requires StoresInv(s) && CallerInv(s, q, pc) && pc.Enqueue?
    ensures Keeps(s, q, Access(s, q, pc, c).0, Access(s, q, pc, c).1)
  {
  }

  lemma EnqueueAgainKeeps(s: Stores, q: Request, pc: Pc, c: Choice)
    requires StoresInv(s) && CallerInv(s, q, pc) && pc.EnqueueAgain?
    ensures Keeps(s, q, Access(s, q, pc, c).0, Access(s, q, pc, c).1)
  {
  }

  lemma RecheckKeeps(s: Stores, q: Request, pc: Pc, c: Choice)
    requires StoresInv(s) && CallerInv(s, q, pc) && pc.Recheck?
    ensures Keeps(s, q, Access(s, q, pc, c).0, Access(s, q, pc, c).1)
  {
  }

  lemma CommitKeeps(s: Stores, q: Request, pc: Pc, c: Choice)
    requires StoresInv(s) && CallerInv(s, q, pc) && (pc.CommitRun? || pc.ConfirmRun?)
    ensures Keeps(s, q, Access(s, q, pc, c).0, Access(s, q, pc, c).1)
  {
  }

  lemma CleanupKeeps(s: Stores, q: Request, pc: Pc, c: Choice)
    requires StoresInv(s) && CallerInv(s, q, pc) && pc.Cleanup?
    ensures Keeps(s, q, Access(s, q, pc, c).0, Access(s, q, pc, c).1)
  {
  }

  lemma AccessKeeps(s: Stores, q: Request, pc: Pc, c: Choice)
    requires StoresInv(s) && CallerInv(s, q, pc) && !Finished(pc)
    ensures Keeps(s, q, Access(s, q, pc, c).0, Access(s, q, pc, c).1)
  {
    match pc
    case Reserve(_) => ReserveKeeps(s, q, pc, c);
    case Repair(_, _) => WritesKeep(s, q, pc, c);
    case Clone(_, _) => CloneKeeps(s, q, pc, c);
    case MarkPending(_) => WritesKeep(s, q, pc, c);
    case Enqueue(_) => EnqueueKeeps(s, q, pc, c);
    case Recheck(_) => RecheckKeeps(s, q, pc, c);
    case EnqueueAgain(_) => EnqueueAgainKeeps(s, q, pc, c);
    case CommitRun(_) => CommitKeeps(s, q, pc, c);
    case ConfirmRun(_) => CommitKeeps(s, q, pc, c);
    case CommitReservation(_) => WritesKeep(s, q, pc, c);
    case Cleanup(_) => CleanupKeeps(s, q, pc, c);
    case _ => ReadsKeep(s, q, pc, c);
  }

  /** After an error the call either fails or goes to clean up the run it created. */
  lemma ErrorKeeps(s: Stores, q: Request, pc: Pc, t: Stores)
    requires StoresInv(s) && CallerInv(s, q, pc) && StoresInv(t) && Evolves(s, t)
    ensures CallerInv(t, q, OnError(pc))
  {
    EvolvesKeepsCaller(s, t, q, pc);
  }

  lemma StepKeeps(s: Stores, q: Request, pc: Pc, c: Choice)
    requires StoresInv(s) && CallerInv(s, q, pc)
    ensures Keeps(s, q, Step(s, q, pc, c).0, Step(s, q, pc, c).1)
  {
    if !Finished(pc) {
      match c.fault
      case NoFault => AccessKeeps(s, q, pc, c);
      case Before => ErrorKeeps(s, q, pc, s);
      case After =>
        AccessKeeps(s, q, pc, c);
        ErrorKeeps(s, q, pc, Access(s, q, pc, c).0);
    }
  }

  lemma WorkerKeeps(s: Stores, id: Id, status: RunStatus)
    requires StoresInv(s) && id in s.runs && !s.runs[id].status.Created? && !status.Created?
    ensures var t := s.(runs := s.runs[id := s.runs[id].(status := status)]); StoresInv(t) && Evolves(s, t)
  {
  }

  lemma {:induction false} NextKeeps(st: State, a: Action)
    requires Inv(st) && Enabled(st, a)
    ensures Inv(Next(st, a)) && Evolves(st.stores, Next(st, a).stores)
  {
    var r := Next(st, a);
    match a {
      case Arrive(_, _) =>
      case Move(k, c) => StepKeeps(st.stores, st.callers[k].request, st.callers[k].pc, c);
      case Worker(id, status) => WorkerKeeps(st.stores, id, status);
    }
    forall k | k in r.callers
      ensures CallerInv(r.stores, r.callers[k].request, r.callers[k].pc)
    {
      if k in st.callers && !(a.Move? && a.caller == k) {
        EvolvesKeepsCaller(st.stores, r.stores, st.callers[k].request, st.callers[k].pc);
      }
    }
  }

  lemma {:induction false} InvHolds(states: seq<State>, actions: seq<Action>, i: nat)
    requires IsRun(states, actions) && i < |states|
    ensures Inv(states[i])
  {
    if i > 0 {
      InvHolds(states, actions, i - 1);
      NextKeeps(states[i - 1], actions[i - 1]);
    }
  }

  lemma EvolvesThrough(s: Stores, t: Stores, u: Stores)
    requires Evolves(s, t) && Evolves(t, u)
    ensures Evolves(s, u)
  {
  }

  lemma OneStep(states: seq<State>, actions: seq<Action>, j: nat)
    requires IsRun(states, actions) && j < |actions|
    ensures Evolves(states[j].stores, states[j + 1].stores)
  {
    InvHolds(states, actions, j);
    NextKeeps(states[j], actions[j]);
  }

  /** One step more. */
  lemma EvolvesOn(s: Stores, states: seq<State>, actions: seq<Action>, j: nat)
    requires IsRun(states, actions) && j < |actions| && Evolves(s, states[j].stores)
    ensures Evolves(s, states[j + 1].stores)
  {
    OneStep(states, actions, j);
    EvolvesThrough(s, states[j].stores, states[j + 1].stores);
  }

  lemma {:induction false} EvolvesAlong(states: seq<State>, actions: seq<Action>, i: nat, j: nat)
    requires IsRun(states, actions) && i <= j < |states|
    ensures Evolves(states[i].stores, states[j].stores)
  {
    if i < j {
      EvolvesAlong(states, actions, i, j - 1);
      EvolvesOn(states[i].stores, states, actions, j - 1);
    }
  }

  // ------------------------------------------------------------------- theorems

  /**
   One reservation, one run id: once a reservation exists its definition, revision, fingerprint,
   queue and run id never change, and every run task ever created, at any later time, has that id
   and is bound to the same request.
   */
  lemma OneReservationOneRun(states: seq<State>, actions: seq<Action>, i: nat, j: nat)
    requires IsRun(states, actions) && i <= j < |states| && states[i].stores.reservation.Some?
    ensures var r := states[i].stores.reservation.value;
            && states[j].stores.reservation.Some? && SameBinding(states[j].stores.reservation.value, r)
            && states[j].stores.created <= {r.runId}
            && forall id :: id in states[j].stores.runs ==>
                 id == r.runId && SameBinding(states[j].stores.runs[id].record, r)
  {
    EvolvesAlong(states, actions, i, j);
    InvHolds(states, actions, j);
  }

  /** Every successful response names the reserved run, which by then is committed and enqueued. */
  lemma SuccessNamesTheReservedRun(states: seq<State>, actions: seq<Action>, i: nat, k: nat)
    requires IsRun(states, actions) && i < |states| && k in states[i].callers && states[i].callers[k].pc.Done?
    ensures var s := states[i].stores;
            var pc := states[i].callers[k].pc;
            && s.reservation.Some? && pc.runId == s.reservation.value.runId && pc.enqueued
            && Matches(s.reservation.value, states[i].callers[k].request)
            && RunCommitted(s, pc.runId) && RunStarted(s, pc.runId)
  {
    InvHolds(states, actions, i);
    assert CallerInv(states[i].stores, states[i].callers[k].request, states[i].callers[k].pc);
  }

  /**
   Commit soundness: a committed reservation always has an existing, committed, enqueued run and says so,
   and no call ever reports an inconsistent reservation.
   */
  lemma CommitIsSound(states: seq<State>, actions: seq<Action>, i: nat)
    requires IsRun(states, actions) && i < |states|
    ensures var s := states[i].stores;
            s.reservation.Some? && s.reservation.value.phase.Committed? ==>
              && RunCommitted(s, s.reservation.value.runId) && RunStarted(s, s.reservation.value.runId)
              && s.reservation.value.enqueued == Some(true)
    ensures forall k :: k in states[i].callers ==> !states[i].callers[k].pc.Inconsistent?
  {
    InvHolds(states, actions, i);
    assert forall k :: k in states[i].callers ==>
             CallerInv(states[i].stores, states[i].callers[k].request, states[i].callers[k].pc);
  }

  /** A committed run stays: no cleanup removes it and its record never changes again. */
  lemma CommittedRunIsFinal(states: seq<State>, actions: seq<Action>, i: nat, j: nat, id: Id)
    requires IsRun(states, actions) && i <= j < |states| && RunCommitted(states[i].stores, id)
    ensures RunCommitted(states[j].stores, id) && RunStarted(states[j].stores, id)
    ensures states[j].stores.runs[id].record == states[i].stores.runs[id].record
  {
    EvolvesAlong(states, actions, i, j);
    InvHolds(states, actions, j);
  }

  /**
   A call made for a different request changes nothing once the key is reserved: none of its steps
   writes, whatever they meet, and it is never answered with a run.
   */
  lemma OtherRequestChangesNothing(states: seq<State>, actions: seq<Action>, i: nat, k: nat)
    requires IsRun(states, actions) && i < |actions| && k in states[i].callers
    requires actions[i].Move? && actions[i].caller == k
    requires states[i].stores.reservation.Some?
    requires !Matches(states[i].stores.reservation.value, states[i].callers[k].request)
    ensures states[i + 1].stores == states[i].stores
    ensures !states[i + 1].callers[k].pc.Done?
  {
    InvHolds(states, actions, i);
    assert CallerInv(states[i].stores, states[i].callers[k].request, states[i].callers[k].pc);
  }
}
