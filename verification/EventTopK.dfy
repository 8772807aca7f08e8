/**
 The latest events of each plot (services/events.py): events sorted by metric, variant, task and
 iteration, the first few of each group kept, and those nested by the same four fields; and the
 simpler form that keeps the first few events under each concatenated name.
 */
module EventTopK {
  import opened Common

  datatype Event = Event(metric: string, variant: string, task: string, iter: int, id: nat)

  // ------------------------------------------------------------------- the order

  /** Python's order of strings. */
  predicate TextLess(a: string, b: string) {
    b != "" && (a == "" || a[0] < b[0] || (a[0] == b[0] && TextLess(a[1..], b[1..])))
  }

  datatype Field = Name(text: string) | Number(value: int)

  predicate FieldLess(a: Field, b: Field) {
    match (a, b)
    case (Name(x), Name(y)) => TextLess(x, y)
    case (Number(x), Number(y)) => x < y
    case (Number(_), Name(_)) => true
    case (Name(_), Number(_)) => false
  }

  /** The order of tuples. */
  predicate Less(a: seq<Field>, b: seq<Field>) {
    b != [] && (a == [] || FieldLess(a[0], b[0]) || (a[0] == b[0] && Less(a[1..], b[1..])))
  }

  function Key(e: Event): (k: seq<Field>)
    ensures |k| == 4
  {
    [Name(e.metric), Name(e.variant), Name(e.task), Number(e.iter)]
  }

  function Group(e: Event): (g: seq<Field>)
    ensures |g| == 3 && g == Key(e)[..3]
  {
    [Name(e.metric), Name(e.variant), Name(e.task)]
  }

  lemma {:induction false} TextOrder(a: string, b: string, c: string)
    ensures !(TextLess(a, b) && TextLess(b, a)) && !TextLess(a, a)
    ensures a != b ==> TextLess(a, b) || TextLess(b, a)
    ensures TextLess(a, b) && TextLess(b, c) ==> TextLess(a, c)
  {
    if a != "" && b != "" {
      TextOrder(a[1..], b[1..], if c == "" then "" else c[1..]);
      assert a == [a[0]] + a[1..] && b == [b[0]] + b[1..];
    }
    if a != "" {
      TextOrder(a[1..], "", "");
    }
  }

  lemma FieldOrder(a: Field, b: Field, c: Field)
    ensures !(FieldLess(a, b) && FieldLess(b, a)) && !FieldLess(a, a)
    ensures a != b ==> FieldLess(a, b) || FieldLess(b, a)
    ensures FieldLess(a, b) && FieldLess(b, c) ==> FieldLess(a, c)
  {
    if a.Name? && b.Name? {
      TextOrder(a.text, b.text, if c.Name? then c.text else "");
      TextOrder(b.text, a.text, "");
    }
    if a.Name? {
      TextOrder(a.text, "", "");
    }
  }

  lemma {:induction false} Order(a: seq<Field>, b: seq<Field>, c: seq<Field>)
    ensures !(Less(a, b) && Less(b, a)) && !Less(a, a)
    ensures a != b ==> Less(a, b) || Less(b, a)
    ensures Less(a, b) && Less(b, c) ==> Less(a, c)
  {
    if a != [] && b != [] {
      Order(a[1..], b[1..], if c == [] then [] else c[1..]);
      FieldOrder(a[0], b[0], if c == [] then a[0] else c[0]);
      assert a == [a[0]] + a[1..] && b == [b[0]] + b[1..];
    }
    if a != [] {
      Order(a[1..], [], []);
      FieldOrder(a[0], a[0], a[0]);
    }
  }

  // ---------------------------------------------------------------- sorted in reverse

  /** No event comes after a smaller one. */
  ghost predicate Descending(s: seq<Event>) {
    forall i, j :: 0 <= i < j < |s| ==> !Less(Key(s[i]), Key(s[j]))
  }

  /** A stable sort: an event goes before those that are not greater. */
  function Insert(e: Event, s: seq<Event>): seq<Event> {
    if s == [] then [e]
    else if Less(Key(e), Key(s[0])) then [s[0]] + Insert(e, s[1..])
    else [e] + s
  }

  /** `sorted(events, key=..., reverse=True)`. */
  function Sorted(events: seq<Event>): seq<Event> {
    if events == [] then [] else Insert(events[0], Sorted(events[1..]))
  }

  /** What is not below `c` is not below anything that is not above `c`. */
  lemma NotSmaller(a: seq<Field>, b: seq<Field>, c: seq<Field>)
    requires !Less(a, c) && !Less(c, b)
    ensures !Less(a, b)
  {
    Order(a, c, b);
    Order(c, b, a);
    if Less(a, b) {
      if a != c {
        Order(c, a, b);
      }
      assert false;
    }
  }

  /** No event of `s` is greater than `e`. */
  predicate Above(e: Event, s: seq<Event>) {
    forall j :: 0 <= j < |s| ==> !Less(Key(e), Key(s[j]))
  }

  lemma AboveAll(e: Event, s: seq<Event>)
    requires Descending(s) && s != [] && !Less(Key(e), Key(s[0]))
    ensures Above(e, s)
  {
    forall j | 0 <= j < |s| ensures !Less(Key(e), Key(s[j])) {
      if j > 0 {
        NotSmaller(Key(e), Key(s[j]), Key(s[0]));
      }
    }
  }

  lemma Prepended(e: Event, s: seq<Event>)
    requires Descending(s) && Above(e, s)
    ensures Descending([e] + s)
  {
  }

  lemma {:induction false} AboveInserted(x: Event, e: Event, s: seq<Event>)
    requires Above(x, s) && !Less(Key(x), Key(e))
    ensures Above(x, Insert(e, s))
  {
    if s != [] && Less(Key(e), Key(s[0])) {
      AboveInserted(x, e, s[1..]);
    }
  }

  lemma {:induction false} InsertIsSorted(e: Event, s: seq<Event>)
    requires Descending(s)
    ensures Descending(Insert(e, s))
  {
    if s != [] {
      if Less(Key(e), Key(s[0])) {
        InsertIsSorted(e, s[1..]);
        Order(Key(e), Key(s[0]), Key(e));
        AboveInserted(s[0], e, s[1..]);
        Prepended(s[0], Insert(e, s[1..]));
      } else {
        AboveAll(e, s);
        Prepended(e, s);
      }
    }
  }

  lemma {:induction false} InsertAdds(e: Event, s: seq<Event>)
    ensures multiset(Insert(e, s)) == multiset{e} + multiset(s)
  {
    if s != [] {
      assert s == [s[0]] + s[1..];
      InsertAdds(e, s[1..]);
    }
  }

  lemma {:induction false} SortedIsSorted(events: seq<Event>)
    ensures Descending(Sorted(events)) && multiset(Sorted(events)) == multiset(events)
  {
    if events != [] {
      SortedIsSorted(events[1..]);
      InsertIsSorted(events[0], Sorted(events[1..]));
      InsertAdds(events[0], Sorted(events[1..]));
      assert events == [events[0]] + events[1..];
    }
  }

  // ------------------------------------------------------------------------ grouping

  /** The fields that a grouping goes by. */
  datatype By = By(from: nat, end: nat) {
    function Of(e: Event): seq<Field> {
      if from <= end <= 4 then Key(e)[from..end] else []
    }
  }

  /** How many events at the front agree with `v`. */
  function Span(s: seq<Event>, f: By, v: seq<Field>): (n: nat)
    ensures n <= |s|
    ensures forall i :: 0 <= i < n ==> f.Of(s[i]) == v
    ensures n < |s| ==> f.Of(s[n]) != v
  {
    if s == [] || f.Of(s[0]) != v then 0 else 1 + Span(s[1..], f, v)
  }

  function First(s: seq<Event>, k: nat): seq<Event> {
    if |s| <= k then s else s[..k]
  }

  /** `islice(group, k)` of each group of `groupby(s, f)`, chained. */
  function Kept(s: seq<Event>, f: By, k: nat): seq<Event>
    decreases |s|
  {
    if s == [] then []
    else
      var n := Span(s, f, f.Of(s[0]));
      First(s[..n], k) + Kept(s[n..], f, k)
  }

  function Filter(s: seq<Event>, f: By, v: seq<Field>): seq<Event> {
    if s == [] then [] else (if f.Of(s[0]) == v then [s[0]] else []) + Filter(s[1..], f, v)
  }

  lemma {:induction false} FilterConcat(s: seq<Event>, t: seq<Event>, f: By, v: seq<Field>)
    ensures Filter(s + t, f, v) == Filter(s, f, v) + Filter(t, f, v)
  {
    if s == [] {
      assert s + t == t;
    } else {
      var head := if f.Of(s[0]) == v then [s[0]] else [];
      var all := s + t;
      assert all[0] == s[0] && all[1..] == s[1..] + t;
      FilterConcat(s[1..], t, f, v);
      assert Filter(all, f, v) == head + (Filter(s[1..], f, v) + Filter(t, f, v));
    }
  }

  lemma {:induction false} FilterUniform(s: seq<Event>, f: By, v: seq<Field>, w: seq<Field>)
    requires forall i :: 0 <= i < |s| ==> f.Of(s[i]) == w
    ensures Filter(s, f, v) == if v == w then s else []
  {
    if s != [] {
      FilterUniform(s[1..], f, v, w);
      assert s == [s[0]] + s[1..];
    }
  }

  lemma {:induction false} FilterNone(s: seq<Event>, f: By, v: seq<Field>)
    requires forall i :: 0 <= i < |s| ==> f.Of(s[i]) != v
    ensures Filter(s, f, v) == []
  {
    if s != [] {
      FilterNone(s[1..], f, v);
    }
  }

  lemma {:induction false} FilterMultiset(s: seq<Event>, t: seq<Event>, f: By, v: seq<Field>)
    requires multiset(s) == multiset(t)
    ensures multiset(Filter(s, f, v)) == multiset(Filter(t, f, v))
  {
    forall e ensures multiset(Filter(s, f, v))[e] == multiset(Filter(t, f, v))[e] {
      FilterCounts(s, f, v, e);
      FilterCounts(t, f, v, e);
    }
  }

  lemma {:induction false} FilterCounts(s: seq<Event>, f: By, v: seq<Field>, e: Event)
    ensures multiset(Filter(s, f, v))[e] == if f.Of(e) == v then multiset(s)[e] else 0
  {
    if s != [] {
      FilterCounts(s[1..], f, v, e);
      assert s == [s[0]] + s[1..];
    }
  }

  /** Events that agree stand together. */
  ghost predicate Contiguous(s: seq<Event>, f: By) {
    forall i, j, k :: 0 <= i < j < k < |s| && f.Of(s[i]) == f.Of(s[k]) ==> f.Of(s[j]) == f.Of(s[i])
  }

  /** Every event of a run agrees with `w`. */
  predicate Uniform(run: seq<Event>, f: By, w: seq<Field>) {
    forall i :: 0 <= i < |run| ==> f.Of(run[i]) == w
  }

  predicate Lacks(s: seq<Event>, f: By, w: seq<Field>) {
    forall i :: 0 <= i < |s| ==> f.Of(s[i]) != w
  }

  /** The first run of a grouping holds all the events that agree with it. */
  lemma RunIsWhole(s: seq<Event>, f: By, n: nat)
    requires s != [] && Contiguous(s, f) && n == Span(s, f, f.Of(s[0]))
    ensures 0 < n && Uniform(s[..n], f, f.Of(s[0])) && Lacks(s[n..], f, f.Of(s[0]))
  {
    assert n > 0;
    forall i | n <= i < |s| ensures f.Of(s[i]) != f.Of(s[0]) {
    }
  }

  lemma SuffixContiguous(s: seq<Event>, f: By, n: nat)
    requires Contiguous(s, f) && n <= |s|
    ensures Contiguous(s[n..], f)
  {
  }

  lemma Joined(a: seq<Event>, b: seq<Event>, k: nat)
    requires a == [] || b == []
    ensures First(a, k) + First(b, k) == First(a + b, k)
  {
    if a == [] {
      assert a + b == b;
    } else {
      assert a + b == a;
    }
  }

  /** What is left of a run, or of its first part. */
  lemma FilterRun(run: seq<Event>, f: By, k: nat, v: seq<Field>, w: seq<Field>)
    requires Uniform(run, f, w)
    ensures Filter(run, f, v) == if v == w then run else []
    ensures Filter(First(run, k), f, v) == First(Filter(run, f, v), k)
  {
    FilterUniform(run, f, v, w);
    FilterUniform(First(run, k), f, v, w);
  }

  lemma OneGroupMore(run: seq<Event>, rest: seq<Event>, keptRest: seq<Event>, f: By, k: nat, v: seq<Field>, w: seq<Field>)
    requires Uniform(run, f, w) && Lacks(rest, f, w)
    requires Filter(keptRest, f, v) == First(Filter(rest, f, v), k)
    ensures Filter(First(run, k) + keptRest, f, v) == First(Filter(run + rest, f, v), k)
  {
    FilterConcat(run, rest, f, v);
    FilterConcat(First(run, k), keptRest, f, v);
    FilterRun(run, f, k, v, w);
    if v == w {
      FilterNone(rest, f, v);
    }
    Joined(Filter(run, f, v), Filter(rest, f, v), k);
  }

  /** Each run holds all the events that agree with it. */
  predicate WholeRuns(s: seq<Event>, f: By)
    decreases |s|
  {
    s != [] ==>
      var n := Span(s, f, f.Of(s[0]));
      0 < n && Uniform(s[..n], f, f.Of(s[0])) && Lacks(s[n..], f, f.Of(s[0])) && WholeRuns(s[n..], f)
  }

  lemma {:induction false} ContiguousRuns(s: seq<Event>, f: By)
    requires Contiguous(s, f)
    ensures WholeRuns(s, f)
    decreases |s|
  {
    if s != [] {
      var n := Span(s, f, f.Of(s[0]));
      RunIsWhole(s, f, n);
      SuffixContiguous(s, f, n);
      ContiguousRuns(s[n..], f);
    }
  }

  /** Of each group, the first `k` are kept, or all if there are fewer. */
  lemma {:induction false} KeptPerGroup(s: seq<Event>, f: By, k: nat, v: seq<Field>)
    requires WholeRuns(s, f)
    ensures Filter(Kept(s, f, k), f, v) == First(Filter(s, f, v), k)
    decreases |s|
  {
    if s != [] {
      var n := Span(s, f, f.Of(s[0]));
      var run, rest := s[..n], s[n..];
      calc {
        Filter(Kept(s, f, k), f, v);
        Filter(First(run, k) + Kept(rest, f, k), f, v);
        { KeptPerGroup(rest, f, k, v); OneGroupMore(run, rest, Kept(rest, f, k), f, k, v, f.Of(s[0])); }
        First(Filter(run + rest, f, v), k);
        { Cut(s, n); }
        First(Filter(s, f, v), k);
      }
    }
  }

  lemma Cut(s: seq<Event>, n: nat)
    requires n <= |s|
    ensures s[..n] + s[n..] == s
  {
  }

  // ------------------------------------------------------------ the latest of each group

  lemma {:induction false} PrefixLess(a: seq<Field>, b: seq<Field>, n: nat)
    requires n <= |a| && n <= |b| && Less(a[..n], b[..n])
    ensures Less(a, b)
  {
    if a[..n] != [] && a[0] == b[0] {
      FieldOrder(a[0], b[0], a[0]);
      assert a[..n][1..] == a[1..][..n - 1] && b[..n][1..] == b[1..][..n - 1];
      PrefixLess(a[1..], b[1..], n - 1);
    }
  }

  function Prefix(n: nat): (f: By)
    requires n <= 4
    ensures forall e :: f.Of(e) == Key(e)[..n]
  {
    By(0, n)
  }

  lemma SortedIsContiguous(s: seq<Event>, n: nat)
    requires n <= 4 && Descending(s)
    ensures Contiguous(s, Prefix(n))
  {
    var f := Prefix(n);
    forall i, j, k | 0 <= i < j < k < |s| && f.Of(s[i]) == f.Of(s[k]) ensures f.Of(s[j]) == f.Of(s[i]) {
      var a, b, c := Key(s[i]), Key(s[j]), Key(s[k]);
      if Less(a[..n], b[..n]) {
        PrefixLess(a, b, n);
      }
      if Less(b[..n], c[..n]) {
        PrefixLess(b, c, n);
      }
      Order(a[..n], b[..n], a[..n]);
    }
  }

  lemma {:induction false} FilterDescends(s: seq<Event>, f: By, v: seq<Field>)
    requires Descending(s)
    ensures Descending(Filter(s, f, v)) && forall e :: e in Filter(s, f, v) ==> e in s && f.Of(e) == v
  {
    if s != [] {
      var t := Filter(s[1..], f, v);
      FilterDescends(s[1..], f, v);
      forall j | 0 <= j < |t| ensures !Less(Key(s[0]), Key(t[j])) {
        assert t[j] in t;
        var i :| 0 <= i < |s[1..]| && s[1..][i] == t[j];
        assert s[i + 1] == t[j];
      }
    }
  }

  lemma SameHead(x: Field, a: seq<Field>, b: seq<Field>)
    ensures Less([x] + a, [x] + b) <==> Less(a, b)
  {
    FieldOrder(x, x, x);
    assert ([x] + a)[1..] == a && ([x] + b)[1..] == b;
  }

  /** In one group, the order is that of the iterations. */
  lemma GroupOrder(a: Event, b: Event)
    requires Group(a) == Group(b)
    ensures Less(Key(a), Key(b)) <==> a.iter < b.iter
  {
    var m, v, t := Group(a)[0], Group(a)[1], Group(a)[2];
    assert m == Group(b)[0] && v == Group(b)[1] && t == Group(b)[2];
    var x, y := [Number(a.iter)], [Number(b.iter)];
    SameHead(t, x, y);
    SameHead(v, [t] + x, [t] + y);
    SameHead(m, [v] + ([t] + x), [v] + ([t] + y));
    assert Key(a) == [m] + ([v] + ([t] + x)) && Key(b) == [m] + ([v] + ([t] + y));
    assert x[1..] == y[1..] == [];
  }

  /** The events with exactly these four fields. */
  function Alike(s: seq<Event>, key: seq<Field>): seq<Event> {
    Filter(s, By(0, 4), key)
  }

  lemma {:induction false} InsertIsStable(e: Event, s: seq<Event>, key: seq<Field>)
    ensures Alike(Insert(e, s), key) == (if Key(e) == key then [e] else []) + Alike(s, key)
  {
    assert By(0, 4).Of(e) == Key(e);
    if s != [] && Less(Key(e), Key(s[0])) {
      InsertIsStable(e, s[1..], key);
      Order(Key(e), Key(s[0]), Key(e));
      assert By(0, 4).Of(s[0]) == Key(s[0]);
    }
  }

  /** The sort is stable: events that are alike keep their order. */
  lemma {:induction false} SortedIsStable(events: seq<Event>, key: seq<Field>)
    ensures Alike(Sorted(events), key) == Alike(events, key)
  {
    if events != [] {
      SortedIsStable(events[1..], key);
      InsertIsStable(events[0], Sorted(events[1..]), key);
      assert By(0, 4).Of(events[0]) == Key(events[0]);
    }
  }

  /** Of the events with one key, those of a group are all or none. */
  lemma {:induction false} AlikeInGroup(s: seq<Event>, key: seq<Field>)
    requires |key| == 4
    ensures Alike(Filter(s, Prefix(3), key[..3]), key) == Alike(s, key)
  {
    if s != [] {
      var head := if Prefix(3).Of(s[0]) == key[..3] then [s[0]] else [];
      AlikeInGroup(s[1..], key);
      assert By(0, 4).Of(s[0]) == Key(s[0]);
      FilterConcat(head, Filter(s[1..], Prefix(3), key[..3]), By(0, 4), key);
      assert head != [] ==> head[1..] == [];
    }
  }

  /** The events that `_get_top_iter_unique_events_per_task` keeps. */
  function Latest(events: seq<Event>, maxIters: nat): seq<Event> {
    Kept(Sorted(events), Prefix(3), maxIters)
  }

  /** In a group, events with the same iteration come in the order in which they were listed. */
  lemma TiesKeepTheirOrder(events: seq<Event>, key: seq<Field>)
    requires |key| == 4
    ensures Alike(Filter(Sorted(events), Prefix(3), key[..3]), key) == Alike(events, key)
  {
    AlikeInGroup(Sorted(events), key);
    SortedIsStable(events, key);
  }

  /** For each metric, variant and task, the kept events are `maxIters` of those with the highest
      iterations, or all of them if there are fewer. */
  lemma {:induction false} KeptAreTheLatest(events: seq<Event>, maxIters: nat, g: seq<Field>)
    ensures var all := Filter(Sorted(events), Prefix(3), g);
            var kept := Filter(Latest(events, maxIters), Prefix(3), g);
            && multiset(all) == multiset(Filter(events, Prefix(3), g))
            && kept == First(all, maxIters)
            && (forall i, j :: 0 <= i < j < |all| ==> all[j].iter <= all[i].iter)
            && (forall i, j :: 0 <= i < |kept| && |kept| <= j < |all| ==> all[j].iter <= kept[i].iter)
  {
    var s := Sorted(events);
    var all := Filter(s, Prefix(3), g);
    SortedIsSorted(events);
    FilterMultiset(s, events, Prefix(3), g);
    SortedIsContiguous(s, 3);
    ContiguousRuns(s, Prefix(3));
    KeptPerGroup(s, Prefix(3), maxIters, g);
    FilterDescends(s, Prefix(3), g);
    forall i, j | 0 <= i < j < |all| ensures all[j].iter <= all[i].iter {
      assert all[i] in all && all[j] in all;
      GroupOrder(all[i], all[j]);
    }
  }

  // --------------------------------------------------------------------- nesting

  /** The nested dictionaries, one level for each field, and the events at the bottom. */
  datatype Nested = Plots(events: seq<Event>) | Node(kids: map<Field, Nested>)

  /** `collect`, from the `d`-th field on: a later run under the same key would replace an earlier one. */
  function Collect(s: seq<Event>, d: nat): Nested
    requires d <= 4
    decreases 4 - d, |s| + 1
  {
    if d == 4 then Plots(s) else Node(Runs(s, d))
  }

  function Runs(s: seq<Event>, d: nat): map<Field, Nested>
    requires d < 4
    decreases 4 - d, |s|
  {
    if s == [] then map[]
    else
      var f := By(d, d + 1);
      var n := Span(s, f, f.Of(s[0]));
      map[Key(s[0])[d] := Collect(s[..n], d + 1)] + Runs(s[n..], d)
  }

  /** The events found under a path of fields. */
  function Found(t: Nested, path: seq<Field>): seq<Event> {
    match t
    case Plots(events) => if path == [] then events else []
    case Node(kids) => if path != [] && path[0] in kids then Found(kids[path[0]], path[1..]) else []
  }

  lemma {:induction false} RunKeys(s: seq<Event>, d: nat, x: Field)
    requires d < 4 && x in Runs(s, d)
    ensures exists i :: 0 <= i < |s| && Key(s[i])[d] == x
    decreases |s|
  {
    if s != [] {
      var f := By(d, d + 1);
      var n := Span(s, f, f.Of(s[0]));
      if x != Key(s[0])[d] {
        RunKeys(s[n..], d, x);
        var i :| 0 <= i < |s[n..]| && Key(s[n..][i])[d] == x;
        assert s[n + i] == s[n..][i];
      }
    }
  }

  /** Events that agree up to the `d`-th field, in order. */
  ghost predicate Level(s: seq<Event>, d: nat)
    requires d <= 4
  {
    && Descending(s)
    && forall i, j :: 0 <= i < |s| && 0 <= j < |s| ==> Key(s[i])[..d] == Key(s[j])[..d]
  }

  lemma NextField(a: Event, b: Event, d: nat)
    requires d < 4 && Key(a)[..d] == Key(b)[..d]
    ensures Key(a)[..d + 1] == Key(b)[..d + 1] <==> Key(a)[d] == Key(b)[d]
    ensures By(d, d + 1).Of(a) == By(d, d + 1).Of(b) <==> Key(a)[d] == Key(b)[d]
  {
    assert Key(a)[..d + 1] == Key(a)[..d] + [Key(a)[d]] && Key(b)[..d + 1] == Key(b)[..d] + [Key(b)[d]];
    assert By(d, d + 1).Of(a) == [Key(a)[d]] && By(d, d + 1).Of(b) == [Key(b)[d]];
  }

  /** On one level, events with the same next field stand together. */
  lemma LevelIsContiguous(s: seq<Event>, d: nat)
    requires d < 4 && Level(s, d)
    ensures Contiguous(s, By(d, d + 1))
  {
    SortedIsContiguous(s, d + 1);
    var f, g := By(d, d + 1), Prefix(d + 1);
    forall i, j, k | 0 <= i < j < k < |s| && f.Of(s[i]) == f.Of(s[k]) ensures f.Of(s[j]) == f.Of(s[i]) {
      NextField(s[i], s[k], d);
      NextField(s[i], s[j], d);
      assert g.Of(s[i]) == g.Of(s[k]);
    }
  }

  lemma SliceLevel(s: seq<Event>, d: nat, i: nat, j: nat)
    requires d <= 4 && i <= j <= |s| && Level(s, d)
    ensures Level(s[i..j], d)
  {
  }

  /** A run is a level further down. */
  lemma RunLevel(s: seq<Event>, d: nat, w: seq<Field>)
    requires d < 4 && Level(s, d) && Uniform(s, By(d, d + 1), w)
    ensures Level(s, d + 1)
  {
    forall i, j | 0 <= i < |s| && 0 <= j < |s| ensures Key(s[i])[..d + 1] == Key(s[j])[..d + 1] {
      NextField(s[i], s[j], d);
    }
  }

  /** Looking for a path among events that agree on its first field is looking for the rest of it. */
  lemma {:induction false} FilterOnward(s: seq<Event>, d: nat, path: seq<Field>)
    requires d < 4 && |path| == 4 - d && Uniform(s, By(d, d + 1), path[..1])
    ensures Filter(s, By(d, 4), path) == Filter(s, By(d + 1, 4), path[1..])
  {
    if s != [] {
      FilterOnward(s[1..], d, path);
      FirstField(s[0], d, path);
    }
  }

  lemma FirstField(e: Event, d: nat, path: seq<Field>)
    requires d < 4 && |path| == 4 - d
    ensures By(d, 4).Of(e) == path <==> By(d, d + 1).Of(e) == path[..1] && By(d + 1, 4).Of(e) == path[1..]
    ensures By(d, d + 1).Of(e) == [Key(e)[d]]
  {
    assert By(d, 4).Of(e) == [Key(e)[d]] + By(d + 1, 4).Of(e);
    assert path == path[..1] + path[1..];
  }

  lemma {:induction false} FilterLacks(s: seq<Event>, d: nat, path: seq<Field>)
    requires d < 4 && |path| == 4 - d && Lacks(s, By(d, d + 1), path[..1])
    ensures Filter(s, By(d, 4), path) == []
  {
    forall i | 0 <= i < |s| ensures By(d, 4).Of(s[i]) != path {
      FirstField(s[i], d, path);
    }
    FilterNone(s, By(d, 4), path);
  }

  /** At every level, each run holds all the events with its field. */
  ghost predicate Nests(s: seq<Event>, d: nat)
    requires d <= 4
    decreases 4 - d, |s| + 1
  {
    d < 4 ==> RunsNest(s, d)
  }

  ghost predicate RunsNest(s: seq<Event>, d: nat)
    requires d < 4
    decreases 4 - d, |s|
  {
    s != [] ==>
      var x := [Key(s[0])[d]];
      var n := Span(s, By(d, d + 1), x);
      && 0 < n && Uniform(s[..n], By(d, d + 1), x) && Lacks(s[n..], By(d, d + 1), x)
      && Nests(s[..n], d + 1) && RunsNest(s[n..], d)
  }

  lemma {:induction false} LevelNests(s: seq<Event>, d: nat)
    requires d <= 4 && Level(s, d)
    ensures Nests(s, d)
    decreases 4 - d, |s| + 1
  {
    if d < 4 {
      LevelIsContiguous(s, d);
      ContiguousRuns(s, By(d, d + 1));
      LevelRunsNest(s, d);
    }
  }

  lemma {:induction false} LevelRunsNest(s: seq<Event>, d: nat)
    requires d < 4 && Level(s, d) && WholeRuns(s, By(d, d + 1))
    ensures RunsNest(s, d)
    decreases 4 - d, |s|
  {
    if s != [] {
      var x := [Key(s[0])[d]];
      assert By(d, d + 1).Of(s[0]) == x;
      var n := Span(s, By(d, d + 1), x);
      SliceLevel(s, d, 0, n);
      SliceLevel(s, d, n, |s|);
      RunLevel(s[..n], d, x);
      LevelNests(s[..n], d + 1);
      LevelRunsNest(s[n..], d);
    }
  }

  /** No run is replaced: the events under a path are all those with its fields, in order. */
  lemma {:induction false} CollectHoldsEach(s: seq<Event>, d: nat, path: seq<Field>)
    requires d <= 4 && |path| == 4 - d && Nests(s, d)
    ensures Found(Collect(s, d), path) == Filter(s, By(d, 4), path)
    decreases 4 - d, |s| + 1
  {
    if d == 4 {
      assert path == [];
      FilterUniform(s, By(4, 4), [], []);
    } else {
      RunsHoldEach(s, d, path);
    }
  }

  lemma FoundInRun(x: Field, t: Nested, others: map<Field, Nested>, path: seq<Field>)
    requires path != []
    ensures Found(Node(map[x := t] + others), path) ==
              if path[0] == x && x !in others then Found(t, path[1..]) else Found(Node(others), path)
  {
  }

  /** The events of a path are all in the run of its first field, or all in the others. */
  lemma FilterRuns(run: seq<Event>, rest: seq<Event>, d: nat, x: Field, path: seq<Field>)
    requires d < 4 && |path| == 4 - d
    requires Uniform(run, By(d, d + 1), [x]) && Lacks(rest, By(d, d + 1), [x])
    ensures Filter(run + rest, By(d, 4), path) ==
              if path[0] == x then Filter(run, By(d + 1, 4), path[1..]) else Filter(rest, By(d, 4), path)
  {
    FilterConcat(run, rest, By(d, 4), path);
    assert path[..1] == [path[0]];
    if path[0] == x {
      FilterOnward(run, d, path);
      FilterLacks(rest, d, path);
    } else {
      assert [path[0]][0] != [x][0];
      FilterLacks(run, d, path);
    }
  }

  lemma {:induction false} RunsHoldEach(s: seq<Event>, d: nat, path: seq<Field>)
    requires d < 4 && |path| == 4 - d && RunsNest(s, d)
    ensures Found(Node(Runs(s, d)), path) == Filter(s, By(d, 4), path)
    decreases 4 - d, |s|
  {
    if s != [] {
      var x := Key(s[0])[d];
      FirstField(s[0], d, path);
      var n := Span(s, By(d, d + 1), [x]);
      var run, rest := s[..n], s[n..];
      FoundInRun(x, Collect(run, d + 1), Runs(rest, d), path);
      FilterRuns(run, rest, d, x, path);
      Cut(s, n);
      if path[0] == x {
        CollectHoldsEach(run, d + 1, path[1..]);
        NoSuchRun(rest, d, x);
      } else {
        RunsHoldEach(rest, d, path);
      }
    }
  }

  lemma NoSuchRun(s: seq<Event>, d: nat, x: Field)
    requires d < 4 && Lacks(s, By(d, d + 1), [x])
    ensures x !in Runs(s, d)
  {
    forall i | 0 <= i < |s| ensures Key(s[i])[d] != x {
      assert By(d, d + 1).Of(s[i]) == [Key(s[i])[d]];
    }
    if x in Runs(s, d) {
      RunKeys(s, d, x);
    }
  }

  /** `_get_top_iter_unique_events_per_task`. */
  function PerTask(events: seq<Event>, maxIters: nat): Nested {
    Collect(Sorted(Latest(events, maxIters)), 0)
  }

  /** Each kept event is found once, under its own fields and in the order listed, and nothing else is. */
  lemma {:induction false} NestedHoldsTheLatest(events: seq<Event>, maxIters: nat, path: seq<Field>)
    requires |path| == 4
    ensures Found(PerTask(events, maxIters), path) == Alike(Latest(events, maxIters), path)
  {
    var kept := Latest(events, maxIters);
    SortedIsSorted(kept);
    LevelNests(Sorted(kept), 0);
    CollectHoldsEach(Sorted(kept), 0, path);
    SortedIsStable(kept, path);
  }

  // ------------------------------------------------------------- by concatenated name

  /** The key of `_get_top_iter_unique_events`: metric and variant written together. */
  function FullName(e: Event): string {
    e.metric + e.variant
  }

  function Named(s: seq<Event>, name: string): seq<Event> {
    if s == [] then []
    else Named(s[..|s| - 1], name) + (if FullName(s[|s| - 1]) == name then [s[|s| - 1]] else [])
  }

  function Entry(top: map<string, seq<Event>>, name: string): seq<Event> {
    if name in top then top[name] else []
  }

  /** The values of the dictionary, chained. */
  function Chained(top: map<string, seq<Event>>, names: seq<string>): seq<Event> {
    if names == [] then [] else Chained(top, names[..|names| - 1]) + Entry(top, names[|names| - 1])
  }

  function InsertByIter(e: Event, s: seq<Event>): seq<Event> {
    if s == [] then [e] else if e.iter < s[0].iter then [s[0]] + InsertByIter(e, s[1..]) else [e] + s
  }

  /** `sort(key=iter, reverse=True)`. */
  function SortedByIter(s: seq<Event>): seq<Event> {
    if s == [] then [] else InsertByIter(s[0], SortedByIter(s[1..]))
  }

  predicate IterDescending(s: seq<Event>) {
    forall i, j :: 0 <= i < j < |s| ==> s[j].iter <= s[i].iter
  }

  predicate NoneAfter(k: int, s: seq<Event>) {
    forall i :: 0 <= i < |s| ==> s[i].iter <= k
  }

  lemma {:induction false} NoneAfterInserted(k: int, e: Event, s: seq<Event>)
    requires NoneAfter(k, s) && e.iter <= k
    ensures NoneAfter(k, InsertByIter(e, s))
  {
    if s != [] && e.iter < s[0].iter {
      NoneAfterInserted(k, e, s[1..]);
    }
  }

  lemma IterPrepended(e: Event, s: seq<Event>)
    requires IterDescending(s) && NoneAfter(e.iter, s)
    ensures IterDescending([e] + s)
  {
  }

  lemma {:induction false} InsertByIterIsSorted(e: Event, s: seq<Event>)
    requires IterDescending(s)
    ensures IterDescending(InsertByIter(e, s))
    ensures multiset(InsertByIter(e, s)) == multiset{e} + multiset(s)
  {
    if s != [] {
      assert s == [s[0]] + s[1..];
      if e.iter < s[0].iter {
        InsertByIterIsSorted(e, s[1..]);
        NoneAfterInserted(s[0].iter, e, s[1..]);
        IterPrepended(s[0], InsertByIter(e, s[1..]));
      } else {
        IterPrepended(e, s);
      }
    }
  }

  lemma {:induction false} SortedByIterIsSorted(s: seq<Event>)
    ensures IterDescending(SortedByIter(s)) && multiset(SortedByIter(s)) == multiset(s)
  {
    if s != [] {
      SortedByIterIsSorted(s[1..]);
      InsertByIterIsSorted(s[0], SortedByIter(s[1..]));
      assert s == [s[0]] + s[1..];
    }
  }

  /** The events of one iteration. */
  function OfIter(s: seq<Event>, iter: int): seq<Event> {
    if s == [] then [] else (if s[0].iter == iter then [s[0]] else []) + OfIter(s[1..], iter)
  }

  lemma {:induction false} InsertByIterIsStable(e: Event, s: seq<Event>, iter: int)
    ensures OfIter(InsertByIter(e, s), iter) == (if e.iter == iter then [e] else []) + OfIter(s, iter)
  {
    if s != [] && e.iter < s[0].iter {
      InsertByIterIsStable(e, s[1..], iter);
    }
  }

  /** This sort is stable too: events of one iteration keep their order. */
  lemma {:induction false} SortedByIterIsStable(s: seq<Event>, iter: int)
    ensures OfIter(SortedByIter(s), iter) == OfIter(s, iter)
  {
    if s != [] {
      SortedByIterIsStable(s[1..], iter);
      InsertByIterIsStable(s[0], SortedByIter(s[1..]), iter);
    }
  }

  lemma {:induction false} NamedCounts(s: seq<Event>, name: string, e: Event)
    ensures multiset(Named(s, name))[e] == if FullName(e) == name then multiset(s)[e] else 0
  {
    if s != [] {
      NamedCounts(s[..|s| - 1], name, e);
      assert s == s[..|s| - 1] + [s[|s| - 1]];
    }
  }

  lemma NamedMultiset(s: seq<Event>, t: seq<Event>, name: string)
    requires multiset(s) == multiset(t)
    ensures multiset(Named(s, name)) == multiset(Named(t, name))
  {
    forall e ensures multiset(Named(s, name))[e] == multiset(Named(t, name))[e] {
      NamedCounts(s, name, e);
      NamedCounts(t, name, e);
    }
  }

  lemma {:induction false} NamedConcat(s: seq<Event>, t: seq<Event>, name: string)
    ensures Named(s + t, name) == Named(s, name) + Named(t, name)
    decreases |t|
  {
    if t == [] {
      assert s + t == s;
    } else {
      NamedConcat(s, t[..|t| - 1], name);
      assert (s + t)[..|s + t| - 1] == s + t[..|t| - 1];
    }
  }

  lemma {:induction false} NamedUniform(s: seq<Event>, name: string, other: string)
    requires forall i :: 0 <= i < |s| ==> FullName(s[i]) == other
    ensures Named(s, name) == if name == other then s else []
  {
    if s != [] {
      NamedUniform(s[..|s| - 1], name, other);
      assert s == s[..|s| - 1] + [s[|s| - 1]];
    }
  }

  predicate Unrepeated(names: seq<string>) {
    names != [] ==> names[|names| - 1] !in names[..|names| - 1] && Unrepeated(names[..|names| - 1])
  }

  /** The names in the order in which they first come up. */
  function NamesOf(s: seq<Event>): seq<string> {
    if s == [] then []
    else
      var before, name := NamesOf(s[..|s| - 1]), FullName(s[|s| - 1]);
      if name in before then before else before + [name]
  }

  /** The first events of each name, name after name. */
  function NameByName(events: seq<Event>, names: seq<string>, k: nat): seq<Event> {
    if names == [] then []
    else NameByName(events, names[..|names| - 1], k) + First(Named(events, names[|names| - 1]), k)
  }

  /** Each name once, and exactly those that some event has. */
  lemma {:induction false} NamesAre(s: seq<Event>, name: string)
    ensures Unrepeated(NamesOf(s))
    ensures name in NamesOf(s) <==> Named(s, name) != []
  {
    if s != [] {
      NamesAre(s[..|s| - 1], name);
      NamesAre(s[..|s| - 1], FullName(s[|s| - 1]));
      var before, last := NamesOf(s[..|s| - 1]), FullName(s[|s| - 1]);
      assert (before + [last])[..|before|] == before;
    }
  }

  lemma FirstUnder(events: seq<Event>, k: nat, one: string, name: string)
    ensures Named(First(Named(events, one), k), name) == if name == one then First(Named(events, one), k) else []
  {
    NamedMembers(events, one);
    NamedUniform(First(Named(events, one), k), name, one);
  }

  lemma InNames(names: seq<string>, name: string)
    requires names != []
    ensures name in names <==> name in names[..|names| - 1] || name == names[|names| - 1]
  {
    assert names == names[..|names| - 1] + [names[|names| - 1]];
  }

  /** Under each of the names are its first events. */
  lemma {:induction false} NameByNameNamed(events: seq<Event>, names: seq<string>, k: nat, name: string)
    requires Unrepeated(names)
    ensures Named(NameByName(events, names, k), name) == if name in names then First(Named(events, name), k) else []
  {
    if names != [] {
      var before, last := names[..|names| - 1], names[|names| - 1];
      NameByNameNamed(events, before, k, name);
      NamedConcat(NameByName(events, before, k), First(Named(events, last), k), name);
      FirstUnder(events, k, last, name);
      InNames(names, name);
    }
  }

  lemma {:induction false} ChainedByName(top: map<string, seq<Event>>, events: seq<Event>, names: seq<string>, k: nat)
    requires FirstOfEach(top, events, k)
    ensures Chained(top, names) == NameByName(events, names, k)
  {
    if names != [] {
      ChainedByName(top, events, names[..|names| - 1], k);
      assert Entry(top, names[|names| - 1]) == First(Named(events, names[|names| - 1]), k);
    }
  }

  /** The first events under each name so far. */
  ghost predicate FirstOfEach(top: map<string, seq<Event>>, s: seq<Event>, maxIters: nat) {
    forall name :: Entry(top, name) == First(Named(s, name), maxIters)
  }

  lemma OneEventMore(top: map<string, seq<Event>>, s: seq<Event>, e: Event, maxIters: nat)
    requires FirstOfEach(top, s, maxIters)
    ensures var evs := Entry(top, FullName(e));
            FirstOfEach(top[FullName(e) := if |evs| < maxIters then evs + [e] else evs], s + [e], maxIters)
  {
    var name := FullName(e);
    var evs := Entry(top, name);
    var more := top[name := if |evs| < maxIters then evs + [e] else evs];
    assert (s + [e])[..|s + [e]| - 1] == s;
    forall n ensures Entry(more, n) == First(Named(s + [e], n), maxIters) {
      assert Entry(top, n) == First(Named(s, n), maxIters);
    }
  }

  // ------------------------------------------------------------ what each plot keeps

  predicate IsOf(e: Event, metric: string, variant: string) {
    e.metric == metric && e.variant == variant
  }

  /** The events of one plot. */
  function OfPlot(s: seq<Event>, metric: string, variant: string): seq<Event> {
    if s == [] then []
    else
      var e := s[|s| - 1];
      OfPlot(s[..|s| - 1], metric, variant) + (if IsOf(e, metric, variant) then [e] else [])
  }

  function Rest(s: seq<Event>, k: nat): seq<Event> {
    if |s| <= k then [] else s[k..]
  }

  lemma {:induction false} OfPlotConcat(s: seq<Event>, t: seq<Event>, metric: string, variant: string)
    ensures OfPlot(s + t, metric, variant) == OfPlot(s, metric, variant) + OfPlot(t, metric, variant)
    decreases |t|
  {
    if t == [] {
      assert s + t == s;
    } else {
      OfPlotConcat(s, t[..|t| - 1], metric, variant);
      assert (s + t)[..|s + t| - 1] == s + t[..|t| - 1];
    }
  }

  /** The events of a plot are all filed under its name. */
  lemma {:induction false} OfPlotNamed(s: seq<Event>, metric: string, variant: string)
    ensures OfPlot(Named(s, metric + variant), metric, variant) == OfPlot(s, metric, variant)
  {
    if s != [] {
      var before, e := s[..|s| - 1], s[|s| - 1];
      OfPlotNamed(before, metric, variant);
      var one := if FullName(e) == metric + variant then [e] else [];
      OfPlotConcat(Named(before, metric + variant), one, metric, variant);
      assert OfPlot([], metric, variant) == [];
      assert [e][..0] == [];
    }
  }

  predicate AllOf(s: seq<Event>, metric: string, variant: string) {
    forall i :: 0 <= i < |s| ==> IsOf(s[i], metric, variant)
  }

  predicate NoneOf(s: seq<Event>, metric: string, variant: string) {
    forall i :: 0 <= i < |s| ==> !IsOf(s[i], metric, variant)
  }

  lemma {:induction false} OfPlotLength(s: seq<Event>, metric: string, variant: string)
    ensures |OfPlot(s, metric, variant)| <= |s|
    ensures |OfPlot(s, metric, variant)| == |s| <==> AllOf(s, metric, variant)
    ensures OfPlot(s, metric, variant) == [] <==> NoneOf(s, metric, variant)
  {
    if s != [] {
      OfPlotLength(s[..|s| - 1], metric, variant);
    }
  }

  lemma {:induction false} OfPlotCounts(s: seq<Event>, metric: string, variant: string, e: Event)
    ensures multiset(OfPlot(s, metric, variant))[e] == if IsOf(e, metric, variant) then multiset(s)[e] else 0
  {
    if s != [] {
      OfPlotCounts(s[..|s| - 1], metric, variant, e);
      assert s == s[..|s| - 1] + [s[|s| - 1]];
    }
  }

  lemma OfPlotMultiset(s: seq<Event>, t: seq<Event>, metric: string, variant: string)
    requires multiset(s) == multiset(t)
    ensures multiset(OfPlot(s, metric, variant)) == multiset(OfPlot(t, metric, variant))
  {
    forall e ensures multiset(OfPlot(s, metric, variant))[e] == multiset(OfPlot(t, metric, variant))[e] {
      OfPlotCounts(s, metric, variant, e);
      OfPlotCounts(t, metric, variant, e);
    }
  }

  /** What was kept of a plot is its own first `k` events, or all of them. */
  ghost predicate KeepsItsOwn(events: seq<Event>, unique: seq<Event>, k: nat, metric: string, variant: string) {
    multiset(OfPlot(unique, metric, variant)) == multiset(First(OfPlot(events, metric, variant), k))
  }

  /** The first `k` events under the plot's name are all its own, or all its events are among them. */
  predicate HasOwnQuota(events: seq<Event>, k: nat, metric: string, variant: string) {
    var named := Named(events, metric + variant);
    AllOf(First(named, k), metric, variant) || NoneOf(Rest(named, k), metric, variant)
  }

  /** The first `k` of `a + b` are `a` exactly when `a` is long enough or there is nothing else. */
  lemma FirstIsPart(a: seq<Event>, b: seq<Event>, k: nat)
    requires |a| <= k
    ensures multiset(a) == multiset(First(a + b, k)) <==> |a| == k || b == []
    ensures a == First(a + b, k) <==> |a| == k || b == []
  {
    assert |multiset(a)| == |a| && |multiset(First(a + b, k))| == |First(a + b, k)|;
    if b == [] {
      assert a + b == a;
    } else if |a| == k {
      assert (a + b)[..k] == a;
    }
  }

  lemma FirstAndRest(s: seq<Event>, k: nat)
    ensures s == First(s, k) + Rest(s, k) && |First(s, k)| <= k && (Rest(s, k) != [] ==> |First(s, k)| == k)
  {
  }

  /** The first `k` of some events hold the first `k` of a plot when they are all of it, or the rest has none of it. */
  lemma FirstOfPlot(named: seq<Event>, k: nat, metric: string, variant: string)
    ensures var a, all := OfPlot(First(named, k), metric, variant), OfPlot(named, metric, variant);
            && (a == First(all, k) <==> AllOf(First(named, k), metric, variant) || NoneOf(Rest(named, k), metric, variant))
            && (multiset(a) == multiset(First(all, k)) <==> a == First(all, k))
  {
    var first, rest := First(named, k), Rest(named, k);
    FirstAndRest(named, k);
    OfPlotConcat(first, rest, metric, variant);
    OfPlotLength(first, metric, variant);
    OfPlotLength(rest, metric, variant);
    FirstIsPart(OfPlot(first, metric, variant), OfPlot(rest, metric, variant), k);
  }

  lemma QuotaOf(events: seq<Event>, k: nat, metric: string, variant: string)
    ensures var a, all := OfPlot(First(Named(events, metric + variant), k), metric, variant), OfPlot(events, metric, variant);
            && (a == First(all, k) <==> HasOwnQuota(events, k, metric, variant))
            && (multiset(a) == multiset(First(all, k)) <==> a == First(all, k))
  {
    FirstOfPlot(Named(events, metric + variant), k, metric, variant);
    OfPlotNamed(events, metric, variant);
  }

  /** A plot keeps its own exactly when it has a quota of its own: at one fixed `k`. */
  lemma {:induction false} KeepsItsOwnExactly(events: seq<Event>, unique: seq<Event>, k: nat, metric: string, variant: string)
    requires multiset(Named(unique, metric + variant)) == multiset(First(Named(events, metric + variant), k))
    ensures KeepsItsOwn(events, unique, k, metric, variant) <==> HasOwnQuota(events, k, metric, variant)
  {
    QuotaOf(events, k, metric, variant);
    OfPlotNamed(unique, metric, variant);
    OfPlotMultiset(Named(unique, metric + variant), First(Named(events, metric + variant), k), metric, variant);
  }

  /** Different plots never share a concatenated name. */
  ghost predicate NamesApart(events: seq<Event>) {
    forall a, b :: a in events && b in events && FullName(a) == FullName(b) ==>
      a.metric == b.metric && a.variant == b.variant
  }

  /** Of the first `k` events under its name, those of each plot are its own first `k`. */
  ghost predicate AllKeepTheirOwn(events: seq<Event>, k: nat) {
    forall e :: e in events ==>
      OfPlot(First(Named(events, FullName(e)), k), e.metric, e.variant) == First(OfPlot(events, e.metric, e.variant), k)
  }

  lemma {:induction false} NamedMembers(s: seq<Event>, name: string)
    ensures forall i :: 0 <= i < |Named(s, name)| ==> Named(s, name)[i] in s && FullName(Named(s, name)[i]) == name
  {
    if s != [] {
      NamedMembers(s[..|s| - 1], name);
      assert s == s[..|s| - 1] + [s[|s| - 1]];
    }
  }

  lemma NamedHolds(s: seq<Event>, name: string, e: Event)
    requires e in s && FullName(e) == name
    ensures e in Named(s, name)
  {
    NamedCounts(s, name, e);
    assert multiset(s)[e] > 0;
    assert multiset(Named(s, name))[e] > 0;
  }

  lemma OnlyOnePlot(e: Event, a: Event, b: Event)
    requires IsOf(e, a.metric, a.variant)
    ensures IsOf(e, b.metric, b.variant) ==> IsOf(b, a.metric, a.variant)
  {
  }

  /** Where two plots share a name, one of them has events and keeps none of them when one is kept. */
  lemma {:induction false} CollidingNames(events: seq<Event>) returns (e: Event)
    requires !NamesApart(events)
    ensures e in events
    ensures OfPlot(First(Named(events, FullName(e)), 1), e.metric, e.variant) == []
    ensures OfPlot(events, e.metric, e.variant) != []
  {
    var a, b :| a in events && b in events && FullName(a) == FullName(b) && !IsOf(b, a.metric, a.variant);
    var named := Named(events, FullName(a));
    NamedHolds(events, FullName(a), a);
    NamedHolds(events, FullName(a), b);
    if IsOf(named[0], a.metric, a.variant) {
      e := b;
      OnlyOnePlot(named[0], a, b);
    } else {
      e := a;
    }
    var i :| 0 <= i < |named| && named[i] == e;
    assert Rest(named, 1)[i - 1] == e && IsOf(e, e.metric, e.variant);
    assert First(named, 1)[0] == named[0];
    OfPlotLength(First(named, 1), e.metric, e.variant);
    i :| 0 <= i < |events| && events[i] == e;
    OfPlotLength(events, e.metric, e.variant);
  }

  /** All plots keep their own, however many are kept, exactly when no two of them share a name. */
  lemma {:induction false} PlotsKeepTheirOwn(events: seq<Event>)
    ensures (forall k: nat :: k >= 1 ==> AllKeepTheirOwn(events, k)) <==> NamesApart(events)
  {
    if NamesApart(events) {
      forall k: nat, e | k >= 1 && e in events
        ensures OfPlot(First(Named(events, FullName(e)), k), e.metric, e.variant) == First(OfPlot(events, e.metric, e.variant), k)
      {
        var named := Named(events, FullName(e));
        NamedMembers(events, FullName(e));
        forall i | 0 <= i < |First(named, k)| ensures IsOf(First(named, k)[i], e.metric, e.variant) {
          assert First(named, k)[i] == named[i];
        }
        QuotaOf(events, k, e.metric, e.variant);
      }
    } else {
      var e := CollidingNames(events);
      assert !AllKeepTheirOwn(events, 1);
    }
  }

  /** Two plots, ("a", "bc") and ("ab", "c"), with one event each: whatever is returned for them when one
      event is kept, the second plot is not in it. */
  lemma SecondPlotIsLost(x: Event, y: Event, unique: seq<Event>)
    requires x.metric == "a" && x.variant == "bc" && y.metric == "ab" && y.variant == "c"
    requires forall name :: multiset(Named(unique, name)) == multiset(First(Named([x, y], name), 1))
    ensures y !in unique && OfPlot([x, y], "ab", "c") == [y]
  {
    assert [x, y][..1] == [x] && [x][..0] == [];
    assert FullName(x) == "abc" && FullName(y) == "abc";
    assert Named([x], "abc") == [x];
    assert Named([x, y], "abc") == [x, y];
    assert OfPlot([x], "ab", "c") == [];
    assert multiset(Named(unique, "abc")) == multiset([x]);
    NamedCounts(unique, "abc", y);
  }

  /** Both callers pass the events latest first: then the events kept under a name are its latest. */
  lemma {:induction false} KeptUnderNameAreTheLatest(events: seq<Event>, maxIters: nat, name: string)
    requires IterDescending(events)
    ensures var all := Named(events, name);
            forall i, j :: 0 <= i < |First(all, maxIters)| <= j < |all| ==> all[j].iter <= First(all, maxIters)[i].iter
  {
    NamedDescends(events, name);
  }

  lemma {:induction false} NamedDescends(s: seq<Event>, name: string)
    requires IterDescending(s)
    ensures IterDescending(Named(s, name))
  {
    if s != [] {
      var before := s[..|s| - 1];
      NamedDescends(before, name);
      NamedMembers(before, name);
      forall i | 0 <= i < |Named(before, name)| ensures s[|s| - 1].iter <= Named(before, name)[i].iter {
        var k :| 0 <= k < |before| && before[k] == Named(before, name)[i];
        assert s[k] == before[k];
      }
    }
  }

  /** The loop of `_get_top_iter_unique_events`: the first events under each name. */
  method FileByName(events: seq<Event>, maxIters: nat) returns (top: map<string, seq<Event>>, names: seq<string>)
    ensures FirstOfEach(top, events, maxIters) && names == NamesOf(events)
  {
    top, names := map[], [];
    var i := 0;
    while i < |events|
      invariant i <= |events|
      invariant FirstOfEach(top, events[..i], maxIters) && names == NamesOf(events[..i])
    {
      var e := events[i];
      var name := FullName(e);
      OneEventMore(top, events[..i], e, maxIters);
      assert events[..i + 1] == events[..i] + [e];
      assert events[..i + 1][..i] == events[..i];
      var evs := Entry(top, name);
      if name !in names {
        names := names + [name];
      }
      if |evs| < maxIters {
        evs := evs + [e];
      }
      top := top[name := evs];
      i := i + 1;
    }
    assert events[..i] == events;
  }

  /** `_get_top_iter_unique_events`: under each concatenated name the first `maxIters` events, all
      together in the order of their iterations, latest first; events of one iteration in the order of
      their names, and under a name as they were listed. A plot keeps its own first `maxIters` exactly
      when it has a quota of its own. */
  method TopUnique(events: seq<Event>, maxIters: nat) returns (unique: seq<Event>)
    ensures IterDescending(unique)
    ensures forall iter :: OfIter(unique, iter) == OfIter(NameByName(events, NamesOf(events), maxIters), iter)
    ensures forall name :: multiset(Named(unique, name)) == multiset(First(Named(events, name), maxIters))
    ensures forall metric, variant ::
              KeepsItsOwn(events, unique, maxIters, metric, variant) <==> HasOwnQuota(events, maxIters, metric, variant)
  {
    var top, names := FileByName(events, maxIters);
    var chained := Chained(top, names);
    unique := SortedByIter(chained);
    SortedByIterIsSorted(chained);
    ChainedByName(top, events, names, maxIters);
    forall iter ensures OfIter(unique, iter) == OfIter(chained, iter) {
      SortedByIterIsStable(chained, iter);
    }
    forall name ensures multiset(Named(unique, name)) == multiset(First(Named(events, name), maxIters)) {
      NamedMultiset(unique, chained, name);
      NamesAre(events, name);
      NameByNameNamed(events, names, maxIters, name);
    }
    forall metric, variant
      ensures KeepsItsOwn(events, unique, maxIters, metric, variant) <==> HasOwnQuota(events, maxIters, metric, variant)
    {
      KeepsItsOwnExactly(events, unique, maxIters, metric, variant);
    }
  }
}
