/** Whose request a reservation and its run carry out, and what a call that fails leaves behind. */
module StartOrigin {
  import opened Common
  import opened StartProtocol
  import opened StartSafety

  // ----------------------------------------------------------- what was asked for

  /** The record holds what the request asks for, with `fallback` where it asks for no queue. */
  predicate AsAsked(r: Record, q: Request, fallback: Id) {
    && r.definition == q.definition && r.revision == q.revision && r.fingerprint == q.fingerprint
    && r.queue == match q.queue
                  case Some(id) => id
                  case None => fallback
  }

  /** Action `j` answered the call's question for the account's default queue. */
  ghost predicate AnsweredAt(states: seq<State>, actions: seq<Action>, j: nat, k: nat, answer: Id)
    requires IsRun(states, actions)
  {
    && j < |actions| && actions[j].Move? && actions[j].caller == k && actions[j].choice.defaultQueue == answer
    && k in states[j].callers && states[j].callers[k].pc == Resolve(None)
  }

  /** The queue a call is about to reserve is the one it asked for, or its default as answered to it. */
  lemma {:induction false} QueueResolved(states: seq<State>, actions: seq<Action>, i: nat, k: nat) returns (j: nat)
    requires IsRun(states, actions) && i < |states| && k in states[i].callers && states[i].callers[k].pc.Reserve?
    ensures j < i && j < |actions| && actions[j].Move? && AnsweredAt(states, actions, j, k, actions[j].choice.defaultQueue)
    ensures var asked := states[i].callers[k].request.queue;
            states[i].callers[k].pc.queue == if asked.Some? then asked.value else actions[j].choice.defaultQueue
  {
    var a := actions[i - 1];
    if k in states[i - 1].callers && states[i - 1].callers[k].pc.Reserve? {
      j := QueueResolved(states, actions, i - 1, k);
    } else {
      j := i - 1;
    }
  }

  /** Action `i` is the move of call `k` that makes the reservation, after a question answered `fallback`. */
  ghost predicate ReservedAt(states: seq<State>, actions: seq<Action>, i: nat, k: nat, fallback: Id)
    requires IsRun(states, actions)
  {
    && i < |actions| && actions[i].Move? && actions[i].caller == k && k in states[i].callers
    && states[i].stores.reservation.None? && states[i + 1].stores.reservation.Some?
    && AsAsked(states[i + 1].stores.reservation.value, states[i].callers[k].request, fallback)
    && exists j: nat :: j < i && AnsweredAt(states, actions, j, k, fallback)
  }

  /** A reservation comes from one move of one call, and holds what that call asked for. */
  lemma ReservationIsTheCalls(states: seq<State>, actions: seq<Action>, i: nat) returns (k: nat, fallback: Id)
    requires IsRun(states, actions) && i < |actions|
    requires states[i].stores.reservation.None? && states[i + 1].stores.reservation.Some?
    ensures ReservedAt(states, actions, i, k, fallback)
    ensures states[i + 1].stores.reservation.value.phase.Reserved?
    ensures actions[i].Move? && states[i + 1].stores.reservation.value.runId == actions[i].choice.freshId
  {
    InvHolds(states, actions, i);
    k := actions[i].caller;
    assert CallerInv(states[i].stores, states[i].callers[k].request, states[i].callers[k].pc);
    var j := QueueResolved(states, actions, i, k);
    fallback := actions[j].choice.defaultQueue;
  }

  lemma {:induction false} RequestStays(states: seq<State>, actions: seq<Action>, i: nat, j: nat, k: nat)
    requires IsRun(states, actions) && i <= j < |states| && k in states[i].callers
    ensures k in states[j].callers && states[j].callers[k].request == states[i].callers[k].request
  {
    if i < j {
      RequestStays(states, actions, i, j - 1, k);
    }
  }

  /**
   At any time, the reservation and every run task hold what the call that made the reservation asked
   for, and a run task that has been enqueued is in the queue asked for: with no queue asked for, the
   default answered to that call, whatever the default is by then.
   */
  lemma {:induction false} EverythingIsAsAsked(states: seq<State>, actions: seq<Action>, j: nat)
    returns (i: nat, k: nat, fallback: Id)
    requires IsRun(states, actions) && j < |states| && states[j].stores.reservation.Some?
    ensures i < j && ReservedAt(states, actions, i, k, fallback)
    ensures var s := states[j].stores;
            var q := states[i].callers[k].request;
            && k in states[j].callers && states[j].callers[k].request == q
            && AsAsked(s.reservation.value, q, fallback)
            && forall id :: id in s.runs ==>
                 && AsAsked(s.runs[id].record, q, fallback)
                 && (s.runs[id].status.Created? <==> s.runs[id].queuedIn.None?)
                 && (!s.runs[id].status.Created? ==> s.runs[id].queuedIn == Some(s.reservation.value.queue))
  {
    if states[j - 1].stores.reservation.Some? {
      i, k, fallback := EverythingIsAsAsked(states, actions, j - 1);
    } else {
      i := j - 1;
      k, fallback := ReservationIsTheCalls(states, actions, i);
    }
    RequestStays(states, actions, i, j, k);
    OneReservationOneRun(states, actions, i + 1, j);
    InvHolds(states, actions, j);
  }

  /** A call that is answered with a run is answered with one for the definition, revision and input it
      asked for itself, in the queue of the reservation. */
  lemma AnsweredAsAsked(states: seq<State>, actions: seq<Action>, j: nat, k: nat)
    requires IsRun(states, actions) && j < |states| && k in states[j].callers && states[j].callers[k].pc.Done?
    ensures var s := states[j].stores;
            var id, q := states[j].callers[k].pc.runId, states[j].callers[k].request;
            && id in s.runs && s.reservation.Some?
            && s.runs[id].record.definition == q.definition && s.runs[id].record.revision == q.revision
            && s.runs[id].record.fingerprint == q.fingerprint
            && s.runs[id].queuedIn == Some(s.reservation.value.queue)
  {
    SuccessNamesTheReservedRun(states, actions, j, k);
    InvHolds(states, actions, j);
  }

  // ---------------------------------------------------- what a failed call leaves behind

  /** The call has created the run, and is past its clone. */
  predicate Creator(pc: Pc) {
    (pc.MarkPending? || pc.Enqueue? || pc.Recheck? || pc.EnqueueAgain? || pc.CommitRun? || pc.ConfirmRun?
     || pc.CommitReservation?) && pc.ctx.createdRun
  }

  lemma CreatorStep(s: Stores, q: Request, pc: Pc, c: Choice)
    requires StoresInv(s) && CallerInv(s, q, pc) && Creator(pc)
    ensures var next := Step(s, q, pc, c).1;
            Creator(next) || next.Done? || (s.reservation.Some? && next == Cleanup(s.reservation.value.runId))
  {
    StepKeeps(s, q, pc, c);
  }

  /** A call left by its error to clean up, whose next access meets none, leaves no run in status created;
      and it removes nothing else. */
  lemma CleanedUp(states: seq<State>, actions: seq<Action>, i: nat)
    requires IsRun(states, actions) && i < |actions| && actions[i].Move? && actions[i].choice.fault.NoFault?
    requires states[i].callers[actions[i].caller].pc.Cleanup?
    ensures var s, t := states[i].stores, states[i + 1].stores;
            && states[i + 1].callers[actions[i].caller].pc.Failed?
            && t.reservation == s.reservation && t.created == s.created
            && forall id :: (id in t.runs <==> id in s.runs && !s.runs[id].status.Created?)
                            && (id in t.runs ==> t.runs[id] == s.runs[id])
  {
    InvHolds(states, actions, i);
    var k := actions[i].caller;
    assert CallerInv(states[i].stores, states[i].callers[k].request, states[i].callers[k].pc);
  }

  predicate NoneCreated(s: Stores) {
    forall id :: id in s.runs ==> !s.runs[id].status.Created?
  }

  /** Call `k` went to clean up, and action `m` was its attempt. */
  ghost predicate CleanupAt(states: seq<State>, actions: seq<Action>, m: nat, k: nat)
    requires IsRun(states, actions)
  {
    && m < |actions| && actions[m].Move? && actions[m].caller == k
    && k in states[m].callers && states[m].callers[k].pc.Cleanup?
  }

  /** Call `k` has created the run by state `j`. */
  lemma {:induction false} CreatorGoesOn(states: seq<State>, actions: seq<Action>, j: nat, i: nat, k: nat)
    requires IsRun(states, actions) && j <= i < |states| && k in states[j].callers && Creator(states[j].callers[k].pc)
    ensures k in states[i].callers
    ensures var pc := states[i].callers[k].pc;
            || Creator(pc) || pc.Done? || pc.Cleanup?
            || (pc.Failed? && exists m: nat :: j <= m < i && CleanupAt(states, actions, m, k))
  {
    if j < i {
      CreatorGoesOn(states, actions, j, i - 1, k);
      InvHolds(states, actions, i - 1);
      var s, caller := states[i - 1].stores, states[i - 1].callers[k];
      assert CallerInv(s, caller.request, caller.pc);
      if actions[i - 1].Move? && actions[i - 1].caller == k {
        if Creator(caller.pc) {
          CreatorStep(s, caller.request, caller.pc, actions[i - 1].choice);
        } else if caller.pc.Cleanup? {
          assert CleanupAt(states, actions, i - 1, k);
        }
      }
    }
  }

  /**
   A call that created the run and failed has tried to clean up; where that attempt met no error, no run
   in status created was left right after it.
   */
  lemma FailedCreatorCleanedUp(states: seq<State>, actions: seq<Action>, j: nat, i: nat, k: nat) returns (m: nat)
    requires IsRun(states, actions) && j <= i < |states| && k in states[j].callers && Creator(states[j].callers[k].pc)
    requires k in states[i].callers && states[i].callers[k].pc.Failed?
    ensures j <= m < i && CleanupAt(states, actions, m, k)
    ensures actions[m].choice.fault.NoFault? ==> NoneCreated(states[m + 1].stores)
  {
    CreatorGoesOn(states, actions, j, i, k);
    m :| j <= m < i && CleanupAt(states, actions, m, k);
    if actions[m].choice.fault.NoFault? {
      CleanedUp(states, actions, m);
    }
  }

  /** Action `j` is the clone by which call `k` created the run. */
  ghost predicate CreatedAt(states: seq<State>, actions: seq<Action>, j: nat, k: nat)
    requires IsRun(states, actions)
  {
    && j < |actions| && actions[j].Move? && actions[j].caller == k
    && k in states[j].callers && states[j].callers[k].pc.Clone?
    && states[j].callers[k].pc.reservation.runId !in states[j].stores.runs
  }

  /** Only the call that created the run ever cleans up. */
  lemma {:induction false} OnlyTheCreatorCleansUp(states: seq<State>, actions: seq<Action>, i: nat, k: nat) returns (j: nat)
    requires IsRun(states, actions) && i < |states| && k in states[i].callers
    requires Creator(states[i].callers[k].pc) || states[i].callers[k].pc.Cleanup?
    ensures j < i && CreatedAt(states, actions, j, k)
  {
    if k in states[i - 1].callers && (Creator(states[i - 1].callers[k].pc) || states[i - 1].callers[k].pc.Cleanup?) {
      j := OnlyTheCreatorCleansUp(states, actions, i - 1, k);
    } else {
      j := i - 1;
    }
  }

  /** And the call whose clone succeeds is such a call. */
  lemma CloneMakesCreator(states: seq<State>, actions: seq<Action>, i: nat)
    requires IsRun(states, actions) && i < |actions|
    requires states[i + 1].stores.created != states[i].stores.created
    ensures actions[i].Move? && states[i].callers[actions[i].caller].pc.Clone?
    ensures !actions[i].choice.fault.NoFault? || Creator(states[i + 1].callers[actions[i].caller].pc)
    ensures states[i].stores.reservation.Some?
    ensures states[i + 1].stores.created == {states[i].stores.reservation.value.runId}
  {
    InvHolds(states, actions, i);
    InvHolds(states, actions, i + 1);
    var k := actions[i].caller;
    assert CallerInv(states[i].stores, states[i].callers[k].request, states[i].callers[k].pc);
  }
}
