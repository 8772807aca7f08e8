/**
 The distributed lock (sync.py): a key in Redis with a time to live, set if absent to enter and
 deleted, whoever set it, to leave. Any number of processes interleave between any two accesses;
 time passes in between; a process may crash inside, which leaves its key to expire. Times are in
 tenths of a second, the length of the pause between two attempts.
 */
module DistributedLock {
  import opened Common

  type Process = nat

  /** The key: who set it, and when it expires. */
  datatype Entry = Entry(owner: Process, expires: int)

  /** A process inside the guarded body: when it entered, and for how long the key was set. */
  datatype Stay = Stay(since: int, timeout: nat)

  datatype State = State(now: int, entry: Option<Entry>, inside: map<Process, Stay>)

  datatype Action =
    | Tick(dt: nat)
    | TryEnter(p: Process, timeout: nat)
    | Leave(p: Process)
    | Crash(p: Process)

  /** An expired key is absent. */
  predicate Held(s: State) {
    s.entry.Some? && s.now < s.entry.value.expires
  }

  function Without(inside: map<Process, Stay>, p: Process): map<Process, Stay> {
    map q | q in inside && q != p :: inside[q]
  }

  predicate Enabled(s: State, a: Action) {
    match a
    case Tick(_) => true
    case TryEnter(p, _) => p !in s.inside
    case Leave(p) => p in s.inside
    case Crash(p) => p in s.inside
  }

  function Step(s: State, a: Action): State {
    match a
    case Tick(dt) => s.(now := s.now + dt)
    case TryEnter(p, timeout) =>
      if Held(s) then s
      else s.(entry := Some(Entry(p, s.now + timeout)), inside := s.inside[p := Stay(s.now, timeout)])
    case Leave(p) => s.(entry := None, inside := Without(s.inside, p))
    case Crash(p) => s.(inside := Without(s.inside, p))
  }

  /** Nobody inside has outstayed the time its key was set for. */
  predicate Timely(s: State) {
    forall p :: p in s.inside ==> s.now < s.inside[p].since + s.inside[p].timeout
  }

  function Reached(start: int, actions: seq<Action>): State {
    if |actions| == 0 then State(start, None, map[])
    else Step(Reached(start, actions[..|actions| - 1]), actions[|actions| - 1])
  }

  predicate IsRun(start: int, actions: seq<Action>) {
    forall i :: 0 <= i < |actions| ==> Enabled(Reached(start, actions[..i]), actions[i])
  }

  /** Every stay, up to its last moment, is shorter than its key's time to live. */
  predicate TimelyRun(start: int, actions: seq<Action>) {
    forall i :: 0 <= i <= |actions| ==> Timely(Reached(start, actions[..i]))
  }

  /** The key of whoever is inside is in place. */
  predicate OwnsKey(s: State, p: Process) {
    p in s.inside && s.entry == Some(Entry(p, s.inside[p].since + s.inside[p].timeout))
  }

  predicate KeysInPlace(s: State) {
    forall p :: p in s.inside ==> OwnsKey(s, p)
  }

  predicate Exclusive(s: State) {
    forall p, q :: p in s.inside && q in s.inside ==> p == q
  }

  lemma StepKeepsKeys(s: State, a: Action)
    requires KeysInPlace(s) && Timely(s) && Enabled(s, a)
    ensures KeysInPlace(Step(s, a))
  {
    var t := Step(s, a);
    forall p | p in t.inside ensures OwnsKey(t, p) {
      if p in s.inside {
        assert OwnsKey(s, p) && Held(s);
      }
    }
  }

  /** Mutual exclusion: when every stay ends in time, at most one process is ever inside, and its own
      key is in place and not expired, so that leaving deletes no key but its own. */
  lemma {:induction false} MutualExclusion(start: int, actions: seq<Action>)
    requires IsRun(start, actions) && TimelyRun(start, actions)
    ensures Timely(Reached(start, actions)) && KeysInPlace(Reached(start, actions))
    ensures Exclusive(Reached(start, actions))
  {
    assert actions[..|actions|] == actions;
    if |actions| > 0 {
      var n := |actions| - 1;
      var before := actions[..n];
      assert forall i :: 0 <= i <= n ==> before[..i] == actions[..i];
      MutualExclusion(start, before);
      StepKeepsKeys(Reached(start, before), actions[n]);
    }
    KeysExclude(Reached(start, actions));
  }

  lemma KeysExclude(s: State)
    requires KeysInPlace(s)
    ensures Exclusive(s)
  {
    forall p, q | p in s.inside && q in s.inside ensures p == q {
      assert OwnsKey(s, p) && OwnsKey(s, q);
    }
  }

  // -------------------------------------------------------- when a stay is too long

  /** A process inside stays on until its key's time to live is over. */
  function Overstayed(s: State, p: Process): State
    requires p in s.inside && Timely(s)
  {
    Step(s, Tick(s.inside[p].since + s.inside[p].timeout - s.now))
  }

  /** From any state that a timely run reaches: once a stay is as long as the time to live, the next
      process to try is let in beside it. */
  lemma OverstayLetsAnotherIn(s: State, p: Process, q: Process, timeout: nat)
    requires KeysInPlace(s) && Timely(s) && p in s.inside && q != p
    ensures var late := Overstayed(s, p);
            var both := Step(late, TryEnter(q, timeout));
            Enabled(late, TryEnter(q, timeout)) && p in both.inside && q in both.inside && OwnsKey(both, q)
  {
    KeysExclude(s);
    assert OwnsKey(s, p);
  }

  /** When the late one leaves it deletes the other's key, and a third process comes in. */
  lemma LateLeaveFreesTheOthersLock(s: State, p: Process, q: Process, r: Process, timeout: nat)
    requires KeysInPlace(s) && Timely(s) && p in s.inside && q != p && r != p && r != q
    ensures var freed := Step(Step(Overstayed(s, p), TryEnter(q, timeout)), Leave(p));
            var third := Step(freed, TryEnter(r, timeout));
            && q in freed.inside && freed.entry == None
            && q in third.inside && r in third.inside
  {
    OverstayLetsAnotherIn(s, p, q, timeout);
  }

  /** After a process has left in time, the next one is let in at once; after a crash, exactly when the
      time to live of the key left behind is over. */
  lemma WhenTheNextComesIn(s: State, p: Process, q: Process, wait: nat, timeout: nat)
    requires KeysInPlace(s) && Timely(s) && p in s.inside && q != p
    ensures q in Step(Step(s, Leave(p)), TryEnter(q, timeout)).inside
    ensures var crashed := Step(Step(s, Crash(p)), Tick(wait));
            && p !in crashed.inside
            && (q in Step(crashed, TryEnter(q, timeout)).inside <==> s.now + wait >= s.inside[p].since + s.inside[p].timeout)
  {
    KeysExclude(s);
    assert OwnsKey(s, p);
  }

  // ---------------------------------------------------------------- the waiting loop

  /** What the process meets while it waits: whether its n-th attempt sets the key, and the clock, in
      tenths of a second like all times here, at the start and after each pause of at least one tenth. */
  datatype Waiting = Waiting(set_: nat -> bool, clock: nat -> int)

  ghost predicate Pauses(w: Waiting) {
    forall n: nat :: w.clock(n + 1) >= w.clock(n) + 1
  }

  /** The process tries, pauses, and gives up once it has waited longer than it should: it enters with
      the first attempt that succeeds, unless the time is up before it: after `maxWait`, or twice the
      time to live where that is 0. */
  method Acquire(w: Waiting, timeout: nat, maxWait: nat) returns (acquired: bool, attempts: nat)
    requires Pauses(w)
    ensures attempts >= 1 && (acquired <==> w.set_(attempts - 1))
    ensures var limit := if maxWait > 0 then maxWait else timeout + timeout;
            && attempts <= limit + 1
            && (forall n :: 0 <= n < attempts - 1 ==> !w.set_(n))
            && (forall n :: 0 < n < attempts ==> w.clock(n) - w.clock(0) <= limit)
            && (!acquired ==> w.clock(attempts) - w.clock(0) > limit)
  {
    var start, wait := w.clock(0), if maxWait != 0 then maxWait else timeout * 2;
    var n: nat := 0;
    while !w.set_(n)
      invariant forall i :: 0 <= i < n ==> !w.set_(i)
      invariant forall i :: 0 < i <= n ==> w.clock(i) - start <= wait
      invariant n <= w.clock(n) - start && n <= wait
      decreases wait - n
    {
      assert w.clock(n + 1) >= w.clock(n) + 1;
      if w.clock(n + 1) - start > wait {
        return false, n + 1;
      }
      n := n + 1;
    }
    return true, n + 1;
  }
}
