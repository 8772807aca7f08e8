/**
 Edits of a pipeline definition (clearpipe.create, update, archive, delete and set_activation): any
 number of calls, each of which reads the definition, prepares its update, and writes it on the
 condition that the runtime revision is still the one it read. A call that stops in between is a
 call whose write never comes.
 */
module DefinitionEdits {
  import opened Common

  /** A stored graph; version 1 carries its revision. The body stands for everything else. */
  datatype Graph = V1(body: nat, revision: Option<int>) | V2(body: nat)

  /** A digest is injective, so it is the body it digests. */
  datatype Hash = NativeV1 | DigestOf(body: nat)

  datatype Runtime = Runtime(revision: int, hash: Hash, activated: Option<bool>)

  /** The graph, and the revision of the compiled runtime configuration of a version 2 graph. */
  datatype Configuration = Configuration(graph: Graph, compiledAt: Option<int>)

  datatype Definition = Definition(
    configuration: Configuration, script: Graph, runtime: Runtime, archived: bool, status: Status)

  datatype Status = Created | Other

  /** `_revision`. */
  function RevisionOf(d: Definition): Option<int> {
    match d.configuration.graph
    case V2(_) => Some(d.runtime.revision)
    case V1(_, revision) => if revision == Some(d.runtime.revision) then revision else None
  }

  /** The graph as it is stored once compiled at a revision. */
  function CompiledGraph(g: Graph, revision: int): Graph {
    match g
    case V1(body, _) => V1(body, Some(revision))
    case V2(body) => V2(body)
  }

  /** `_configurations` and `_v2_configurations`. */
  function Configured(g: Graph, revision: int): Configuration {
    Configuration(CompiledGraph(g, revision), if g.V2? then Some(revision) else None)
  }

  /** `create`. */
  function NewDefinition(g: Graph): Definition {
    Definition(Configured(g, 1), CompiledGraph(g, 1),
               Runtime(1, if g.V2? then DigestOf(g.body) else NativeV1, None), false, Created)
  }

  /** A request; an update without a graph keeps the stored one, and a missing revision means any. */
  datatype Edit =
    | Update(revision: int, graph: Option<Graph>)
    | Archive(expected: Option<int>)
    | Delete(expected: Option<int>, force: bool)

  /** A call between its read and its write: what it read, whether the graph compiled, and (as
      history) how long the log was then. */
  datatype Ready = Ready(edit: Edit, snapshot: Definition, compiled: bool, at: nat)

  datatype Event = Wrote(from: int, archived: bool, compiled: bool) | Deleted(from: int) | Activated(flag: bool)

  datatype Reply =
    | Proceed(ready: Ready)
    | Updated(revision: int)
    | Unchanged(revision: int)
    | Removed
    | Conflict
    | InvalidTask
    | Inconsistent
    | InvalidGraph
    | CannotDelete

  /** The read of a call, with its checks. */
  function Read(def: Option<Definition>, edit: Edit, compiles: bool, at: nat): Reply {
    if def.None? then InvalidTask
    else if RevisionOf(def.value).None? then Inconsistent
    else
      var d := def.value;
      var revision := RevisionOf(d).value;
      match edit
      case Update(received, _) =>
        if revision != received then Conflict
        else if !compiles then InvalidGraph
        else Proceed(Ready(edit, d, true, at))
      case Archive(expected) =>
        if expected.Some? && expected.value != revision then Conflict
        else if d.archived then Unchanged(revision)
        else if d.configuration.graph.V1? && !compiles then InvalidGraph
        else Proceed(Ready(edit, d, compiles, at))
      case Delete(expected, force) =>
        if expected.Some? && expected.value != revision then Conflict
        else if !force && d.status != Created && !d.archived then CannotDelete
        else Proceed(Ready(edit, d, false, at))
  }

  /** The graph that an update or archive writes. */
  function Written(r: Ready): Graph
    requires !r.edit.Delete?
  {
    if r.edit.Update? && r.edit.graph.Some? then r.edit.graph.value else r.snapshot.configuration.graph
  }

  /** The fields that an update or archive sets on the stored definition `d`. A version 2 graph
      rewrites the whole runtime from the earlier read, a version 1 graph sets the revision only. */
  function Applied(d: Definition, r: Ready): Definition
    requires !r.edit.Delete?
  {
    var g := Written(r);
    var revision := r.snapshot.runtime.revision + 1;
    Definition(
      if r.compiled then Configured(g, revision) else r.snapshot.configuration,
      if r.compiled then CompiledGraph(g, revision) else d.script,
      if g.V1? then d.runtime.(revision := revision)
      else r.snapshot.runtime.(revision := revision,
                               hash := if r.compiled then DigestOf(g.body) else r.snapshot.runtime.hash),
      d.archived || r.edit.Archive?,
      d.status)
  }

  // ----------------------------------------------------------------- the machine

  /** The stored definition, the calls between read and write, and (as history) what took effect. */
  datatype State = State(def: Option<Definition>, ready: map<nat, Ready>, log: seq<Event>)

  datatype Action =
    | Begin(call: nat, edit: Edit, compiles: bool)
    | Write(call: nat)
    | Activate(flag: bool)

  function Landed(r: Ready): Event
    requires !r.edit.Delete?
  {
    Wrote(r.snapshot.runtime.revision, r.edit.Archive?, r.compiled)
  }

  function Step(s: State, a: Action): (State, Reply) {
    match a
    case Begin(call, edit, compiles) =>
      var reply := Read(s.def, edit, compiles, |s.log|);
      (if reply.Proceed? then s.(ready := s.ready[call := reply.ready]) else s, reply)
    case Write(call) =>
      if call !in s.ready then (s, InvalidTask)
      else
        var r := s.ready[call];
        var from := r.snapshot.runtime.revision;
        var rest := s.(ready := map c | c in s.ready && c != call :: s.ready[c]);
        if s.def.None? || s.def.value.runtime.revision != from then (rest, Conflict)
        else if r.edit.Delete? then (rest.(def := None, log := s.log + [Deleted(from)]), Removed)
        else (rest.(def := Some(Applied(s.def.value, r)), log := s.log + [Landed(r)]), Updated(from + 1))
    case Activate(flag) =>
      if s.def.None? then (s, InvalidTask)
      else (s.(def := Some(s.def.value.(runtime := s.def.value.runtime.(activated := Some(flag)))),
               log := s.log + [Activated(flag)]), Unchanged(s.def.value.runtime.revision))
  }

  // ------------------------------------------------------------------ invariants

  /** Graph and runtime agree. The compiled runtime configuration may lag behind only in an archived
      definition, whose graph no longer compiled when it was archived, and then by one revision. */
  predicate Consistent(d: Definition) {
    && d.runtime.revision >= 1 && d.script == d.configuration.graph
    && match d.configuration.graph
       case V1(_, revision) => revision == Some(d.runtime.revision)
       case V2(body) =>
         && d.runtime.hash == DigestOf(body)
         && (InStep(d) || (d.archived && d.configuration.compiledAt == Some(d.runtime.revision - 1)))
  }

  /** The compiled runtime configuration is that of the current revision. */
  predicate InStep(d: Definition) {
    d.configuration.compiledAt == Some(d.runtime.revision)
  }

  /** The last write that took effect was an archive whose graph did not compile. */
  predicate ArchivedUncompiled(log: seq<Event>) {
    log != [] &&
    var last := log[|log| - 1];
    if last.Wrote? then last.archived && !last.compiled else ArchivedUncompiled(log[..|log| - 1])
  }

  predicate OnlyActivations(log: seq<Event>) {
    forall i :: 0 <= i < |log| ==> log[i].Activated?
  }

  function LastFlag(log: seq<Event>, before: Option<bool>): Option<bool> {
    if |log| == 0 then before
    else if log[|log| - 1].Activated? then Some(log[|log| - 1].flag)
    else LastFlag(log[..|log| - 1], before)
  }

  function Reactivated(d: Definition, flag: Option<bool>): Definition {
    d.(runtime := d.runtime.(activated := flag))
  }

  /** While the revision is still the one a call has read, nothing but activations took effect since,
      and the definition differs from what was read in the activation flag only. */
  predicate Current(s: State, r: Ready)
    requires r.at <= |s.log|
  {
    s.def.Some? && s.def.value.runtime.revision == r.snapshot.runtime.revision ==>
      && OnlyActivations(s.log[r.at..])
      && s.def.value == Reactivated(r.snapshot, LastFlag(s.log[r.at..], r.snapshot.runtime.activated))
  }

  predicate ReadyInv(s: State, r: Ready) {
    && r.at <= |s.log| && Current(s, r)
    && Consistent(r.snapshot)
    && (r.edit.Update? ==> r.compiled)
    && (r.edit.Archive? ==> !r.snapshot.archived && (r.snapshot.configuration.graph.V1? ==> r.compiled))
    && (s.def.Some? ==> r.snapshot.runtime.revision <= s.def.value.runtime.revision)
  }

  function Writes(log: seq<Event>): nat {
    if |log| == 0 then 0 else Writes(log[..|log| - 1]) + (if log[|log| - 1].Wrote? then 1 else 0)
  }

  predicate HasDelete(log: seq<Event>) {
    exists i :: 0 <= i < |log| && log[i].Deleted?
  }

  /** Every write that took effect started from the revision that the writes before it had reached,
      and nothing took effect after a deletion. */
  predicate LogInv(log: seq<Event>) {
    forall i :: 0 <= i < |log| ==>
      && !HasDelete(log[..i])
      && (log[i].Wrote? || log[i].Deleted? ==> log[i].from == 1 + Writes(log[..i]))
  }

  predicate Inv(s: State) {
    && LogInv(s.log)
    && (s.def.None? <==> HasDelete(s.log))
    && (s.def.Some? ==> Consistent(s.def.value) && s.def.value.runtime.revision == 1 + Writes(s.log))
    && (s.def.Some? && s.def.value.configuration.graph.V2? ==> (InStep(s.def.value) <==> !ArchivedUncompiled(s.log)))
    && (forall c :: c in s.ready ==> ReadyInv(s, s.ready[c]))
  }

  lemma {:induction false} WritesGrow(log: seq<Event>, i: nat, j: nat)
    requires i <= j <= |log|
    ensures Writes(log[..i]) <= Writes(log[..j])
    ensures i < j && log[i].Wrote? ==> Writes(log[..i]) < Writes(log[..j])
    decreases j
  {
    if i < j {
      WritesGrow(log, i, j - 1);
      assert log[..j][..j - 1] == log[..j - 1];
    }
  }

  lemma LogGrows(log: seq<Event>, e: Event)
    requires LogInv(log) && !HasDelete(log)
    requires e.Wrote? || e.Deleted? ==> e.from == 1 + Writes(log)
    ensures LogInv(log + [e]) && (HasDelete(log + [e]) <==> e.Deleted?)
    ensures Writes(log + [e]) == Writes(log) + (if e.Wrote? then 1 else 0)
    ensures ArchivedUncompiled(log + [e]) <==> if e.Wrote? then e.archived && !e.compiled else ArchivedUncompiled(log)
  {
    var more := log + [e];
    forall i | 0 <= i < |more| ensures !HasDelete(more[..i])
        && (more[i].Wrote? || more[i].Deleted? ==> more[i].from == 1 + Writes(more[..i])) {
      if i < |log| {
        assert more[..i] == log[..i] && more[i] == log[i];
      } else {
        assert more[..i] == log;
      }
    }
    assert more[..|more| - 1] == log;
    assert more[|log|] == e;
  }

  lemma ReadKeepsInv(s: State, call: nat, edit: Edit, compiles: bool)
    requires Inv(s)
    ensures Inv(Step(s, Begin(call, edit, compiles)).0)
  {
    var reply := Read(s.def, edit, compiles, |s.log|);
    if reply.Proceed? {
      assert s.log[|s.log|..] == [];
      assert ReadyInv(s, reply.ready);
      var t := Step(s, Begin(call, edit, compiles)).0;
      assert forall c :: c in t.ready && c != call ==> t.ready[c] == s.ready[c];
      assert forall c :: c in t.ready ==> ReadyInv(t, t.ready[c]);
    }
  }

  /** What a successful update or archive writes is consistent again. */
  lemma AppliedIsConsistent(s: State, r: Ready)
    requires s.def.Some? && ReadyInv(s, r) && !r.edit.Delete?
    requires s.def.value.runtime.revision == r.snapshot.runtime.revision
    ensures var d := Applied(s.def.value, r);
            && Consistent(d) && d.runtime.revision == r.snapshot.runtime.revision + 1
            && (InStep(d) <==> Written(r).V2? && r.compiled)
            && (Written(r).V2? && !r.compiled ==> r.edit.Archive?)
  {
  }

  lemma ActivateKeepsReady(s: State, flag: bool, r: Ready)
    requires s.def.Some? && ReadyInv(s, r)
    ensures ReadyInv(Step(s, Activate(flag)).0, r)
  {
    var e := Activated(flag);
    var since, now := s.log[r.at..], (s.log + [e])[r.at..];
    assert now == since + [e];
    assert now[|now| - 1] == e;
  }

  lemma ActivateKeepsInv(s: State, flag: bool)
    requires Inv(s)
    ensures Inv(Step(s, Activate(flag)).0)
  {
    if s.def.Some? {
      var t := Step(s, Activate(flag)).0;
      LogGrows(s.log, Activated(flag));
      forall c | c in t.ready ensures ReadyInv(t, t.ready[c]) {
        ActivateKeepsReady(s, flag, s.ready[c]);
      }
    }
  }

  lemma WriteKeepsInv(s: State, call: nat)
    requires Inv(s)
    ensures Inv(Step(s, Write(call)).0)
  {
    if call in s.ready {
      var t := Step(s, Write(call)).0;
      var r := s.ready[call];
      assert ReadyInv(s, r);
      if s.def.Some? && s.def.value.runtime.revision == r.snapshot.runtime.revision {
        LogGrows(s.log, if r.edit.Delete? then Deleted(r.snapshot.runtime.revision) else Landed(r));
        if !r.edit.Delete? {
          AppliedIsConsistent(s, r);
        }
      }
      forall c | c in t.ready ensures ReadyInv(t, t.ready[c]) {
        assert ReadyInv(s, s.ready[c]);
      }
    }
  }

  lemma StepKeepsInv(s: State, a: Action)
    requires Inv(s)
    ensures Inv(Step(s, a).0)
  {
    match a
    case Begin(call, edit, compiles) => ReadKeepsInv(s, call, edit, compiles);
    case Write(call) => WriteKeepsInv(s, call);
    case Activate(flag) => ActivateKeepsInv(s, flag);
  }

  /** The state after any interleaving, from the creation of the definition on. */
  function Reached(g: Graph, actions: seq<Action>): State {
    if |actions| == 0 then State(Some(NewDefinition(g)), map[], [])
    else Step(Reached(g, actions[..|actions| - 1]), actions[|actions| - 1]).0
  }

  lemma {:induction false} InvHolds(g: Graph, actions: seq<Action>)
    ensures Inv(Reached(g, actions))
  {
    if |actions| > 0 {
      InvHolds(g, actions[..|actions| - 1]);
      StepKeepsInv(Reached(g, actions[..|actions| - 1]), actions[|actions| - 1]);
    }
  }

  // -------------------------------------------------------------------- theorems

  predicate Took(e: Event) {
    e.Wrote? || e.Deleted?
  }

  /** At most one update, archive or deletion succeeds from each revision, in revision order. */
  lemma OneWriterPerRevision(g: Graph, actions: seq<Action>, i: nat, j: nat)
    requires var log := Reached(g, actions).log; i < j < |log| && Took(log[i]) && Took(log[j])
    ensures var log := Reached(g, actions).log; log[i].Wrote? && log[i].from < log[j].from
  {
    InvHolds(g, actions);
    var log := Reached(g, actions).log;
    WritesGrow(log, i, j);
    assert log[..j][i] == log[i];
  }

  /** The revision counts the writes, and `_revision` succeeds on every definition that exists. */
  lemma RevisionAlwaysReads(g: Graph, actions: seq<Action>)
    ensures var s := Reached(g, actions);
            s.def.Some? ==> RevisionOf(s.def.value) == Some(1 + Writes(s.log)) && Consistent(s.def.value)
    ensures forall edit, compiles, at :: Read(Reached(g, actions).def, edit, compiles, at) != Inconsistent
  {
    InvHolds(g, actions);
  }

  /** A success replies with the revision it left behind, one above the revision it found. */
  lemma SuccessMovesUpByOne(g: Graph, actions: seq<Action>, call: nat, revision: int)
    requires Step(Reached(g, actions), Write(call)).1 == Updated(revision)
    ensures MovedUp(Reached(g, actions), Step(Reached(g, actions), Write(call)).0, revision)
  {
    InvHolds(g, actions);
    SuccessStep(Reached(g, actions), call, revision);
  }

  predicate MovedUp(s: State, t: State, revision: int) {
    && s.def.Some? && RevisionOf(s.def.value) == Some(revision - 1)
    && t.def.Some? && RevisionOf(t.def.value) == Some(revision)
  }

  lemma SuccessStep(s: State, call: nat, revision: int)
    requires Inv(s) && Step(s, Write(call)).1 == Updated(revision)
    ensures MovedUp(s, Step(s, Write(call)).0, revision)
  {
    var r := s.ready[call];
    assert ReadyInv(s, r);
    AppliedIsConsistent(s, r);
  }

  /** The write of `call` would succeed in `s`. */
  predicate Succeeds(s: State, call: nat) {
    call in s.ready && s.def.Some? && s.def.value.runtime.revision == s.ready[call].snapshot.runtime.revision
  }

  /** No update is lost: what a successful write replaces is what its call had read, but for
      activations that took effect in between. */
  lemma NothingElseLanded(g: Graph, actions: seq<Action>, call: nat)
    requires Succeeds(Reached(g, actions), call)
    ensures var s := Reached(g, actions);
            var r := s.ready[call];
            && r.at <= |s.log| && OnlyActivations(s.log[r.at..])
            && s.def.value == Reactivated(r.snapshot, LastFlag(s.log[r.at..], r.snapshot.runtime.activated))
  {
    InvHolds(g, actions);
    assert ReadyInv(Reached(g, actions), Reached(g, actions).ready[call]);
  }

  /** A new definition holds the graph it was created with, at revision 1, and a digest of a version 2
      graph; it is neither archived nor activated. */
  lemma CreatedAsAsked(g: Graph)
    ensures var d := NewDefinition(g);
            && Reached(g, []) == State(Some(d), map[], [])
            && d.runtime.revision == 1 && Carries(d.configuration.graph, 1) && SameGraph(d.configuration.graph, g)
            && d.script == d.configuration.graph && (g.V2? ==> d.runtime.hash == DigestOf(g.body))
            && !d.archived && d.runtime.activated == None && d.status == Created
  {
  }

  /** The same graph, whatever revision a version 1 graph carries. */
  predicate SameGraph(a: Graph, b: Graph) {
    (a.V1? <==> b.V1?) && a.body == b.body
  }

  /** The graph carries this revision, if it carries one. */
  predicate Carries(g: Graph, revision: int) {
    g.V1? ==> g.revision == Some(revision)
  }

  /**
   What a successful update or archive leaves behind: the graph that came with the update, or else the
   one that was stored, in both places and at the new revision; a definition that is archived if it was
   or the call archives it; and the status as it was.
   */
  lemma EditIsStored(g: Graph, actions: seq<Action>, call: nat)
    requires Succeeds(Reached(g, actions), call) && !Reached(g, actions).ready[call].edit.Delete?
    ensures var s := Reached(g, actions);
            var edit := s.ready[call].edit;
            var t := Step(s, Write(call)).0;
            var wanted := if edit.Update? && edit.graph.Some? then edit.graph.value else s.def.value.configuration.graph;
            && t.def.Some?
            && var before, after := s.def.value, t.def.value;
               && after.runtime.revision == before.runtime.revision + 1
               && SameGraph(after.configuration.graph, wanted) && Carries(after.configuration.graph, after.runtime.revision)
               && SameGraph(after.script, wanted) && Carries(after.script, after.runtime.revision)
               && (wanted.V2? ==> after.runtime.hash == DigestOf(wanted.body))
               && (after.archived <==> before.archived || edit.Archive?)
               && after.status == before.status
  {
    var s := Reached(g, actions);
    NothingElseLanded(g, actions, call);
    InvHolds(g, actions);
    assert ReadyInv(s, s.ready[call]);
  }

  /** A successful delete leaves no definition; nothing else does but a successful write or delete, or an
      activation, changes the definition, and an activation sets its flag only. */
  lemma OnlyWritesChange(g: Graph, actions: seq<Action>, a: Action)
    ensures var s := Reached(g, actions);
            var (t, reply) := Step(s, a);
            match a
            case Begin(_, _, _) => t.def == s.def
            case Write(call) =>
              if !Succeeds(s, call) then t.def == s.def && (reply.Conflict? <==> call in s.ready)
              else if s.ready[call].edit.Delete? then t.def == None && reply == Removed
              else t.def.Some? && reply == Updated(t.def.value.runtime.revision)
            case Activate(flag) =>
              t.def == if s.def.None? then None
                       else Some(s.def.value.(runtime := s.def.value.runtime.(activated := Some(flag))))
  {
  }

  /** The revision the call names, if it names one, is not the current one. */
  predicate Outdated(edit: Edit, current: int) {
    match edit
    case Update(received, _) => received != current
    case Archive(expected) => expected.Some? && expected.value != current
    case Delete(expected, _) => expected.Some? && expected.value != current
  }

  /**
   What a call is told when it reads, of a definition that was written some number of times: a
   conflict when it is outdated, that it is archived already, that its graph does not compile, or that
   it may not be deleted; otherwise it goes on, and nothing else stops it.
   */
  lemma WhoGoesOn(g: Graph, actions: seq<Action>, edit: Edit, compiles: bool, at: nat)
    requires Reached(g, actions).def.Some?
    ensures var s := Reached(g, actions);
            var d, current := s.def.value, 1 + Writes(s.log);
            var reply := Read(s.def, edit, compiles, at);
            && (reply == Conflict <==> Outdated(edit, current))
            && (reply == Unchanged(current) <==> edit.Archive? && !Outdated(edit, current) && d.archived)
            && (reply == CannotDelete <==>
                  edit.Delete? && !Outdated(edit, current) && !edit.force && d.status != Created && !d.archived)
            && (reply == InvalidGraph <==>
                  && !Outdated(edit, current) && !compiles
                  && (edit.Update? || (edit.Archive? && !d.archived && d.configuration.graph.V1?)))
            && (reply.Proceed? ==> reply.ready.edit == edit && reply.ready.snapshot == d && reply.ready.at == at)
            && (reply.Proceed? && !edit.Delete? ==> (reply.ready.compiled <==> compiles))
            && (reply.Conflict? || reply.Unchanged? || reply.CannotDelete? || reply.InvalidGraph? || reply.Proceed?)
  {
    RevisionAlwaysReads(g, actions);
  }

  /** A successful write keeps the activation flag exactly when it sets the revision only (version 1),
      or the last activation since its read, if any, left the flag as it was read. */
  lemma ActivationSurvives(g: Graph, actions: seq<Action>, call: nat)
    requires Succeeds(Reached(g, actions), call) && !Reached(g, actions).ready[call].edit.Delete?
    ensures var s := Reached(g, actions);
            var r := s.ready[call];
            var t := Step(s, Write(call)).0;
            && t.def.Some? && r.at <= |s.log|
            && (t.def.value.runtime.activated == s.def.value.runtime.activated <==>
                  || Written(r).V1?
                  || LastFlag(s.log[r.at..], r.snapshot.runtime.activated) == r.snapshot.runtime.activated)
  {
    NothingElseLanded(g, actions, call);
  }

  /** An activation between the read and the write of a version 2 update is undone. */
  lemma ActivationLost()
    ensures var before := Reached(V2(7), [Begin(0, Update(1, None), true), Activate(true)]);
            var after := Reached(V2(7), [Begin(0, Update(1, None), true), Activate(true), Write(0)]);
            && before.def.Some? && before.def.value.runtime.activated == Some(true)
            && after.def.Some? && after.def.value.runtime.activated == None
  {
    var begin, activate := Begin(0, Update(1, None), true), Activate(true);
    var s0 := Reached(V2(7), []);
    var s1 := Step(s0, begin).0;
    assert [begin][..0] == [] && [begin, activate][..1] == [begin];
    assert [begin, activate, Write(0)][..2] == [begin, activate];
    assert Reached(V2(7), [begin]) == s1;
    var s2 := Step(s1, activate).0;
    assert Reached(V2(7), [begin, activate]) == s2;
  }

  /** What a call has read is never ahead, and once overtaken it stays overtaken. */
  lemma {:induction false} OvertakenStaysOvertaken(s: State, actions: seq<Action>, revision: int)
    requires Inv(s) && (s.def.Some? ==> revision < s.def.value.runtime.revision)
    ensures var t := Continued(s, actions); Inv(t) && (t.def.Some? ==> revision < t.def.value.runtime.revision)
  {
    if |actions| > 0 {
      var t := Continued(s, actions[..|actions| - 1]);
      OvertakenStaysOvertaken(s, actions[..|actions| - 1], revision);
      var a := actions[|actions| - 1];
      StepKeepsInv(t, a);
      if a.Write? && a.call in t.ready {
        assert ReadyInv(t, t.ready[a.call]);
      }
    }
  }

  function Continued(s: State, actions: seq<Action>): State {
    if |actions| == 0 then s
    else Step(Continued(s, actions[..|actions| - 1]), actions[|actions| - 1]).0
  }

  /** Of the calls that have read the same revision, all but the first to write meet a conflict,
      whatever happens in between. */
  lemma LosersMeetAConflict(g: Graph, actions: seq<Action>, winner: nat, loser: nat, more: seq<Action>)
    requires Succeeds(Reached(g, actions), winner) && loser in Reached(g, actions).ready
    requires Reached(g, actions).ready[loser].snapshot.runtime.revision == Reached(g, actions).ready[winner].snapshot.runtime.revision
    ensures var t := Continued(Step(Reached(g, actions), Write(winner)).0, more);
            loser in t.ready && t.ready[loser] == Reached(g, actions).ready[loser] ==> Step(t, Write(loser)).1 == Conflict
  {
    var s := Reached(g, actions);
    InvHolds(g, actions);
    WriteKeepsInv(s, winner);
    assert ReadyInv(s, s.ready[winner]);
    OvertakenStaysOvertaken(Step(s, Write(winner)).0, more, s.ready[loser].snapshot.runtime.revision);
  }

  /** A definition once archived stays archived, and archiving it again changes nothing. */
  lemma {:induction false} ArchivedForGood(g: Graph, actions: seq<Action>, more: seq<Action>)
    requires var s := Reached(g, actions); s.def.Some? && s.def.value.archived
    ensures var t := Continued(Reached(g, actions), more);
            t.def.Some? ==> (t.def.value.archived
              && Read(t.def, Archive(None), true, |t.log|) == Unchanged(t.def.value.runtime.revision))
  {
    InvHolds(g, actions);
    ArchivedStays(Reached(g, actions), more);
  }

  lemma {:induction false} ArchivedStays(s: State, actions: seq<Action>)
    requires Inv(s) && (s.def.Some? ==> s.def.value.archived)
    ensures var t := Continued(s, actions); Inv(t) && (t.def.Some? ==> t.def.value.archived)
  {
    if |actions| > 0 {
      ArchivedStays(s, actions[..|actions| - 1]);
      StepKeepsInv(Continued(s, actions[..|actions| - 1]), actions[|actions| - 1]);
    }
  }

  /** A successful write leaves the compiled configuration in step exactly when it writes a version 2
      graph that compiled; what it then lacks is an archive's, and one revision. */
  lemma WriteInStep(g: Graph, actions: seq<Action>, call: nat)
    requires Succeeds(Reached(g, actions), call) && !Reached(g, actions).ready[call].edit.Delete?
    ensures var r := Reached(g, actions).ready[call];
            var t := Step(Reached(g, actions), Write(call)).0;
            && t.def.Some?
            && (t.def.value.configuration.compiledAt == Some(t.def.value.runtime.revision) <==> Written(r).V2? && r.compiled)
            && (Written(r).V2? && !r.compiled ==>
                  r.edit.Archive? && t.def.value.configuration.compiledAt == Some(t.def.value.runtime.revision - 1))
  {
    var s := Reached(g, actions);
    InvHolds(g, actions);
    assert ReadyInv(s, s.ready[call]);
    AppliedIsConsistent(s, s.ready[call]);
  }

  /** At every moment, the compiled configuration of a version 2 definition is one revision behind
      exactly when the last write was an archive whose graph did not compile, and otherwise in step. */
  lemma LagsExactly(g: Graph, actions: seq<Action>)
    requires var s := Reached(g, actions); s.def.Some? && s.def.value.configuration.graph.V2?
    ensures var s := Reached(g, actions);
            s.def.value.configuration.compiledAt
              == Some(s.def.value.runtime.revision - (if ArchivedUncompiled(s.log) then 1 else 0))
  {
    InvHolds(g, actions);
  }

  /** Archiving a version 2 graph that no longer compiles leaves its compiled configuration behind. */
  lemma ArchivedMayLag()
    ensures var s := Reached(V2(7), [Begin(0, Archive(None), false), Write(0)]);
            s.def.Some? && s.def.value.runtime.revision == 2 && s.def.value.configuration.compiledAt == Some(1)
  {
    var begin := Begin(0, Archive(None), false);
    assert [begin][..0] == [] && [begin, Write(0)][..1] == [begin];
    assert Reached(V2(7), [begin]) == Step(Reached(V2(7), []), begin).0;
  }
}
