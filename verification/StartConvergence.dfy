/** A retry that is left alone and meets no error completes whatever crashed calls left behind. */
module StartConvergence {
  import opened Common
  import opened StartProtocol
  import opened StartSafety

  /** No error; the enqueue takes a task that can be enqueued, or finds it already queued. */
  predicate Cooperative(s: Stores, pc: Pc, c: Choice) {
    && c.fault.NoFault?
    && (pc.Enqueue? ==>
          || c.reply.Accepted?
          || (c.reply.AlreadyQueued? && pc.ctx.reservation.runId in s.runs
              && s.runs[pc.ctx.reservation.runId].status.Queued?))
  }

  /** One call moving alone. */
  function Solo(s: Stores, q: Request, pc: Pc, cs: seq<Choice>): (Stores, Pc)
    decreases |cs|
  {
    if |cs| == 0 then (s, pc)
    else
      var (t, next) := Step(s, q, pc, cs[0]);
      Solo(t, q, next, cs[1..])
  }

  predicate AllCooperative(s: Stores, q: Request, pc: Pc, cs: seq<Choice>)
    decreases |cs|
  {
    |cs| > 0 ==>
      && Cooperative(s, pc, cs[0])
      && var (t, next) := Step(s, q, pc, cs[0]);
         AllCooperative(t, q, next, cs[1..])
  }

  /** How many steps a call left alone still needs. */
  function Remaining(pc: Pc): nat {
    match pc
    case Begin => 9
    case Resolve(_) => 8
    case Reserve(_) => 7
    case Find(_, _) => 6
    case Clone(_, _) => 5
    case MarkPending(_) => 4
    case Enqueue(_) => 3
    case CommitRun(_) => 2
    case ConfirmRun(_) => 1
    case CommitReservation(_) => 1
    case Repair(_, _) => 1
    case _ => 0
  }

  /** The run is there as the call read it. */
  predicate SeesRun(s: Stores, ctx: Context) {
    && ctx.reservation.runId in s.runs
    && s.runs[ctx.reservation.runId].record == ctx.record && s.runs[ctx.reservation.runId].status == ctx.status
    && ctx.record.phase.Pending?
  }

  /** A call moving alone: its copies are the stores' own values. */
  predicate Alone(s: Stores, q: Request, pc: Pc) {
    && StoresInv(s) && CallerInv(s, q, pc)
    && match pc
       case Begin => s.reservation.Some? ==> Matches(s.reservation.value, q)
       case Resolve(found) => found == s.reservation
       case Reserve(_) => s.reservation.None?
       case Find(r, _) => s.reservation == Some(r)
       case Clone(r, _) => s.reservation == Some(r) && r.runId !in s.runs
       case MarkPending(ctx) => SeesRun(s, ctx)
       case Enqueue(ctx) => SeesRun(s, ctx)
       case CommitRun(ctx) =>
         && ctx.reservation.runId in s.runs
         && s.runs[ctx.reservation.runId].record == ctx.record && ctx.record.phase.Pending?
       case CommitReservation(_) => true
       case Repair(_, _) => true
       case Done(_, _) => s.reservation.Some? && s.reservation.value.phase.Committed?
       case _ => false
  }

  lemma AloneStep(s: Stores, q: Request, pc: Pc, c: Choice)
    requires Alone(s, q, pc) && Cooperative(s, pc, c) && !pc.Done?
    ensures var (t, next) := Step(s, q, pc, c);
            Alone(t, q, next) && Evolves(s, t) && Remaining(next) < Remaining(pc)
  {
    StepKeeps(s, q, pc, c);
  }

  lemma {:induction false} AloneFinishes(s: Stores, q: Request, pc: Pc, cs: seq<Choice>)
    requires Alone(s, q, pc) && AllCooperative(s, q, pc, cs) && |cs| >= Remaining(pc)
    ensures var (t, end) := Solo(s, q, pc, cs); Alone(t, q, end) && end.Done? && Evolves(s, t)
    decreases |cs|
  {
    if |cs| > 0 {
      var (t, next) := Step(s, q, pc, cs[0]);
      if pc.Done? {
        AloneFinishes(s, q, pc, cs[1..]);
      } else {
        AloneStep(s, q, pc, cs[0]);
        AloneFinishes(t, q, next, cs[1..]);
      }
    }
  }

  /**
   Convergence: in every state any calls can reach, one uninterrupted retry of the reserved request
   (or a first call, if nothing is reserved yet) that meets no error answers with the reserved run
   id within nine accesses, and leaves both the run and the reservation committed.
   */
  lemma RetryConverges(states: seq<State>, actions: seq<Action>, i: nat, q: Request, cs: seq<Choice>)
    requires IsRun(states, actions) && i < |states|
    requires var s := states[i].stores;
             && (s.reservation.Some? ==> Matches(s.reservation.value, q))
             && AllCooperative(s, q, Begin, cs) && |cs| >= 9
    ensures var s := states[i].stores;
            var (t, end) := Solo(s, q, Begin, cs);
            && t.reservation.Some? && t.reservation.value.phase.Committed?
            && end == Done(t.reservation.value.runId, true)
            && RunCommitted(t, end.runId) && RunStarted(t, end.runId)
            && (s.reservation.Some? ==> end.runId == s.reservation.value.runId)
  {
    var s := states[i].stores;
    InvHolds(states, actions, i);
    AloneFinishes(s, q, Begin, cs);
  }

  // ------------------------------------------------- the reservation may fall back

  const ASKED := Request(1, 1, 7, None)
  const CALM := Choice(NoFault, 3, 5, Accepted)
  const RESERVATION := Record(1, 1, 7, 3, 5, Reserved, None)
  const CREATED := RunTask(RESERVATION.(phase := Pending), Created, None)

  function Last(states: seq<State>): State
    requires |states| > 0
  {
    states[|states| - 1]
  }

  lemma Extend(states: seq<State>, actions: seq<Action>, a: Action)
    returns (states': seq<State>, actions': seq<Action>)
    requires IsRun(states, actions) && Enabled(Last(states), a)
    ensures IsRun(states', actions') && states' == states + [Next(Last(states), a)]
  {
    states', actions' := states + [Next(Last(states), a)], actions + [a];
  }

  /** The first call reserves the key. */
  lemma FirstCallReserves() returns (states: seq<State>, actions: seq<Action>)
    ensures IsRun(states, actions)
    ensures Last(states) == State(Stores(Some(RESERVATION), map[], {}), map[0 := Caller(ASKED, Find(RESERVATION, 3))])
  {
    states, actions := [FIRST], [];
    states, actions := Extend(states, actions, Arrive(0, ASKED));
    states, actions := Extend(states, actions, Move(0, CALM));
    states, actions := Extend(states, actions, Move(0, CALM));
    assert Last(states).callers[0].pc == Reserve(3);
    states, actions := Extend(states, actions, Move(0, CALM));
  }

  /** It creates the run, and pauses before marking it. */
  lemma FirstCallCreates() returns (states: seq<State>, actions: seq<Action>)
    ensures IsRun(states, actions)
    ensures Last(states).stores == Stores(Some(RESERVATION), map[5 := CREATED], {5})
    ensures 0 in Last(states).callers && 1 !in Last(states).callers
    ensures Last(states).callers[0] ==
              Caller(ASKED, MarkPending(Context(RESERVATION, 3, CREATED.record, Created, true)))
  {
    states, actions := FirstCallReserves();
    states, actions := Extend(states, actions, Move(0, CALM));
    assert Last(states).callers[0].pc == Clone(RESERVATION, 3);
    states, actions := Extend(states, actions, Move(0, CALM));
  }

  /** A second call for the same key finds the run, enqueues it and commits it. */
  lemma SecondCallCommits() returns (states: seq<State>, actions: seq<Action>)
    ensures IsRun(states, actions)
    ensures Last(states).stores.reservation == Some(RESERVATION.(phase := Committed, enqueued := Some(true)))
    ensures 0 in Last(states).callers && Last(states).callers[0].pc.MarkPending?
    ensures Last(states).callers[0].pc.ctx.reservation == RESERVATION
  {
    states, actions := FirstCallCreates();
    states, actions := Extend(states, actions, Arrive(1, ASKED));
    states, actions := Extend(states, actions, Move(1, CALM));
    states, actions := Extend(states, actions, Move(1, CALM));
    assert Last(states).callers[1].pc == Find(RESERVATION, 3);
    states, actions := Extend(states, actions, Move(1, CALM));
    assert Last(states).callers[1].pc == Enqueue(Context(RESERVATION, 3, CREATED.record, Created, false));
    states, actions := Extend(states, actions, Move(1, CALM));
    assert Last(states).callers[1].pc == CommitRun(Context(RESERVATION, 3, CREATED.record, Created, false));
    states, actions := Extend(states, actions, Move(1, CALM));
    assert Last(states).callers[1].pc.CommitReservation?;
    states, actions := Extend(states, actions, Move(1, CALM));
  }

  /**
   The phase of a reservation is not monotone: the unconditional write after the clone turns a
   committed reservation back to pending when another call committed it in between.
   */
  lemma ReservationMayFallBack()
    ensures exists states: seq<State>, actions: seq<Action>, i: nat ::
      && IsRun(states, actions) && i + 1 < |states|
      && states[i].stores.reservation.Some? && states[i].stores.reservation.value.phase.Committed?
      && states[i + 1].stores.reservation.Some? && states[i + 1].stores.reservation.value.phase.Pending?
  {
    var states, actions := SecondCallCommits();
    var states', actions' := Extend(states, actions, Move(0, CALM));
    assert states'[|states| - 1] == Last(states);
    assert states'[|states| - 1 + 1].stores.reservation.value.phase.Pending?;
  }

  /** And that write is the only one that can: it falls back exactly when the write is made. */
  lemma FallBackIsTheMark(states: seq<State>, actions: seq<Action>, i: nat)
    requires IsRun(states, actions) && i < |actions|
    requires states[i].stores.reservation.Some? && states[i].stores.reservation.value.phase.Committed?
    ensures states[i + 1].stores.reservation.Some?
    ensures !states[i + 1].stores.reservation.value.phase.Committed? <==>
              && actions[i].Move? && states[i].callers[actions[i].caller].pc.MarkPending?
              && !actions[i].choice.fault.Before?
  {
    InvHolds(states, actions, i);
    InvHolds(states, actions, i + 1);
    EvolvesAlong(states, actions, i, i + 1);
  }
}
