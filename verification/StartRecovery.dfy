/** Whether a call that has got anywhere, whatever the others did meanwhile, still ends with the run. */
module StartRecovery {
  import opened Common
  import opened StartProtocol
  import opened StartSafety
  import opened StartConvergence

  /** No error, and the enqueue operation answers as the status of the run has it. */
  predicate Honest(s: Stores, pc: Pc, c: Choice) {
    && c.fault.NoFault?
    && ((pc.Enqueue? || pc.EnqueueAgain?) && pc.ctx.reservation.runId in s.runs ==>
          match s.runs[pc.ctx.reservation.runId].status
          case Created => c.reply.Accepted?
          case Queued => c.reply.AlreadyQueued?
          case Advanced => c.reply.LostRace?)
  }

  predicate AllHonest(s: Stores, q: Request, pc: Pc, cs: seq<Choice>)
    decreases |cs|
  {
    |cs| > 0 ==>
      && Honest(s, pc, cs[0])
      && var (t, next) := Step(s, q, pc, cs[0]);
         AllHonest(t, q, next, cs[1..])
  }

  predicate NotAgainst(s: Stores, q: Request) {
    s.reservation.Some? ==> Matches(s.reservation.value, q)
  }

  predicate RunExists(s: Stores, ctx: Context) {
    ctx.reservation.runId in s.runs
  }

  /**
   The call can still end with the run: its key is not reserved for another request, the run it has seen
   was not cleaned up since, and it is not one that the code gives up on: a lost race for a run that is
   not enqueued, or for one that has left the queue again since the call looked.
   */
  predicate CanFinish(s: Stores, q: Request, pc: Pc) {
    match pc
    case Begin => NotAgainst(s, q)
    case Resolve(found) => found.Some? || NotAgainst(s, q)
    case Reserve(_) => NotAgainst(s, q)
    case Reread => NotAgainst(s, q)
    case Find(_, _) => true
    case Repair(_, _) => true
    case Clone(_, _) => true
    case FindAgain(r, _) => r.runId in s.runs
    case MarkPending(ctx) => RunExists(s, ctx)
    case Enqueue(ctx) => RunExists(s, ctx)
    case Recheck(ctx) => RunExists(s, ctx) && !s.runs[ctx.reservation.runId].status.Created?
    case EnqueueAgain(ctx) => RunExists(s, ctx) && !s.runs[ctx.reservation.runId].status.Advanced?
    case CommitRun(_) => true
    case ConfirmRun(_) => true
    case CommitReservation(_) => true
    case Cleanup(_) => false
    case Done(_, _) => true
    case Rejected => false
    case Inconsistent => false
    case Failed => false
  }

  /** How many accesses are left at most. */
  function AtMost(pc: Pc): nat {
    match pc
    case Begin => 13
    case Resolve(_) => 12
    case Reserve(_) => 11
    case Reread => 10
    case Find(_, _) => 9
    case Clone(_, _) => 8
    case FindAgain(_, _) => 7
    case MarkPending(_) => 7
    case Enqueue(_) => 6
    case Recheck(_) => 5
    case EnqueueAgain(_) => 4
    case CommitRun(_) => 3
    case ConfirmRun(_) => 2
    case CommitReservation(_) => 1
    case Repair(_, _) => 1
    case _ => 0
  }

  /** Before the run is looked at. */
  predicate Early(pc: Pc) {
    pc.Begin? || pc.Resolve? || pc.Reserve? || pc.Reread? || pc.Find? || pc.Repair? || pc.Clone? || pc.FindAgain?
  }

  lemma EarlyStep(s: Stores, q: Request, pc: Pc, c: Choice)
    requires StoresInv(s) && CallerInv(s, q, pc) && Honest(s, pc, c) && Early(pc)
    ensures var (t, next) := Step(s, q, pc, c);
            && (CanFinish(t, q, next) <==> CanFinish(s, q, pc))
            && (CanFinish(s, q, pc) ==> AtMost(next) < AtMost(pc))
  {
  }

  lemma LateStep(s: Stores, q: Request, pc: Pc, c: Choice)
    requires StoresInv(s) && CallerInv(s, q, pc) && Honest(s, pc, c)
    requires pc.MarkPending? || pc.Enqueue? || pc.Recheck? || pc.EnqueueAgain?
    ensures var (t, next) := Step(s, q, pc, c);
            && (CanFinish(t, q, next) <==> CanFinish(s, q, pc))
            && (CanFinish(s, q, pc) ==> AtMost(next) < AtMost(pc))
  {
  }

  lemma CommitSteps(s: Stores, q: Request, pc: Pc, c: Choice)
    requires StoresInv(s) && CallerInv(s, q, pc) && Honest(s, pc, c)
    requires pc.CommitRun? || pc.ConfirmRun? || pc.CommitReservation?
    ensures var (t, next) := Step(s, q, pc, c);
            CanFinish(t, q, next) && AtMost(next) < AtMost(pc)
  {
  }

  lemma FinishStep(s: Stores, q: Request, pc: Pc, c: Choice)
    requires StoresInv(s) && CallerInv(s, q, pc) && Honest(s, pc, c)
    ensures var (t, next) := Step(s, q, pc, c);
            && StoresInv(t) && CallerInv(t, q, next)
            && (CanFinish(t, q, next) <==> CanFinish(s, q, pc))
            && (CanFinish(s, q, pc) && !pc.Done? ==> AtMost(next) < AtMost(pc))
  {
    StepKeeps(s, q, pc, c);
    if Early(pc) {
      EarlyStep(s, q, pc, c);
    } else if pc.CommitRun? || pc.ConfirmRun? || pc.CommitReservation? {
      CommitSteps(s, q, pc, c);
    } else if pc.MarkPending? || pc.Enqueue? || pc.Recheck? || pc.EnqueueAgain? {
      LateStep(s, q, pc, c);
    }
  }

  lemma {:induction false} LeftAlone(s: Stores, q: Request, pc: Pc, cs: seq<Choice>)
    requires StoresInv(s) && CallerInv(s, q, pc) && AllHonest(s, q, pc, cs) && |cs| >= AtMost(pc)
    ensures var (t, end) := Solo(s, q, pc, cs);
            && StoresInv(t) && CallerInv(t, q, end)
            && (end.Done? <==> CanFinish(s, q, pc))
    decreases |cs|
  {
    if |cs| > 0 {
      var (t, next) := Step(s, q, pc, cs[0]);
      FinishStep(s, q, pc, cs[0]);
      if pc.Done? || CanFinish(s, q, pc) {
        LeftAlone(t, q, next, cs[1..]);
      } else {
        StuckStays(t, q, next, cs[1..]);
      }
    }
  }

  lemma {:induction false} StuckStays(s: Stores, q: Request, pc: Pc, cs: seq<Choice>)
    requires StoresInv(s) && CallerInv(s, q, pc) && AllHonest(s, q, pc, cs) && !CanFinish(s, q, pc)
    ensures var (t, end) := Solo(s, q, pc, cs);
            StoresInv(t) && CallerInv(t, q, end) && !CanFinish(t, q, end)
    decreases |cs|
  {
    if |cs| > 0 {
      var (t, next) := Step(s, q, pc, cs[0]);
      FinishStep(s, q, pc, cs[0]);
      StuckStays(t, q, next, cs[1..]);
    }
  }

  /**
   In every state any calls can reach, a call wherever it stands, left alone from there and meeting no
   error, ends with the committed run of the reservation exactly when `CanFinish` holds of it.
   */
  lemma FinishesExactly(states: seq<State>, actions: seq<Action>, i: nat, k: nat, cs: seq<Choice>)
    requires IsRun(states, actions) && i < |states| && k in states[i].callers
    requires AllHonest(states[i].stores, states[i].callers[k].request, states[i].callers[k].pc, cs) && |cs| >= 13
    ensures var s, q, pc := states[i].stores, states[i].callers[k].request, states[i].callers[k].pc;
            var (t, end) := Solo(s, q, pc, cs);
            && (end.Done? <==> CanFinish(s, q, pc))
            && (end.Done? ==> t.reservation.Some? && end == Done(t.reservation.value.runId, true) && RunCommitted(t, end.runId))
  {
    InvHolds(states, actions, i);
    assert CallerInv(states[i].stores, states[i].callers[k].request, states[i].callers[k].pc);
    LeftAlone(states[i].stores, states[i].callers[k].request, states[i].callers[k].pc, cs);
  }
}
