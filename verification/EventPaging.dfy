/**
 Cursor paging of events (events_iterator.py and its drivers in services/events.py): a page is the
 next batch of events in key order, completed with the events that share its last key, and the
 next request continues strictly after that key. Elasticsearch is a sorted search whose order
 among equal keys is arbitrary, and may differ from one request to the next.
 */
module EventPaging {
  import opened Common

  datatype Event = Event(id: nat, key: int)

  /** Ids identify events. */
  ghost predicate Indexed(es: set<Event>) {
    forall a, b :: a in es && b in es && a.id == b.id ==> a == b
  }

  /** Key order in the direction of navigation. */
  predicate Before(earlier: bool, a: int, b: int) {
    if earlier then a > b else a < b
  }

  /** The cursor of a request: none, an integer, or an integer's text. */
  datatype Cursor = NoCursor | IntCursor(key: int) | TextCursor(key: int)

  /** A cursor is used only if it is truthy: the integer 0 is not, its text is. */
  function After(c: Cursor): Option<int> {
    match c
    case NoCursor => None
    case IntCursor(k) => if k == 0 then None else Some(k)
    case TextCursor(k) => Some(k)
  }

  predicate Past(earlier: bool, after: Option<int>, key: int) {
    after.Some? ==> Before(earlier, after.value, key)
  }

  ghost function Eligible(es: set<Event>, earlier: bool, after: Option<int>): set<Event> {
    set e | e in es && Past(earlier, after, e.key)
  }

  ghost function WithKey(es: set<Event>, key: int): set<Event> {
    set e | e in es && e.key == key
  }

  ghost predicate Distinct(s: seq<Event>) {
    forall i, j :: 0 <= i < j < |s| ==> s[i] != s[j]
  }

  ghost predicate InOrder(earlier: bool, s: seq<Event>) {
    forall i, j :: 0 <= i < j < |s| ==> !Before(earlier, s[j].key, s[i].key)
  }

  /** An answer of the sorted search: the first `size` events past the cursor. */
  ghost predicate IsPage(es: set<Event>, earlier: bool, after: Option<int>, size: nat, hits: seq<Event>) {
    && (forall e :: e in hits ==> e in Eligible(es, earlier, after))
    && Distinct(hits) && InOrder(earlier, hits)
    && |hits| == (if size < |Eligible(es, earlier, after)| then size else |Eligible(es, earlier, after)|)
    && (|hits| > 0 ==> forall e :: e in Eligible(es, earlier, after) && e !in hits ==>
          !Before(earlier, e.key, hits[|hits| - 1].key))
  }

  /** An answer of the search for one key: up to `cap` of the events with it. */
  ghost predicate IsTieAnswer(es: set<Event>, key: int, cap: nat, ties: seq<Event>) {
    && (forall e :: e in ties ==> e in WithKey(es, key))
    && Distinct(ties)
    && |ties| == (if cap < |WithKey(es, key)| then cap else |WithKey(es, key)|)
  }

  /** The events of `ties` that the page does not hold yet. */
  function Leftovers(ids: set<nat>, ties: seq<Event>): seq<Event> {
    if |ties| == 0 then []
    else if ties[0].id in ids then Leftovers(ids, ties[1..])
    else [ties[0]] + Leftovers(ids, ties[1..])
  }

  function Ids(hits: seq<Event>): set<nat> {
    set i | 0 <= i < |hits| :: hits[i].id
  }

  /** `_get_events`: the page, completed with the events that match its last key. */
  function Merge(hits: seq<Event>, ties: seq<Event>): seq<Event> {
    if |hits| == 0 then []
    else if |ties| < 2 then hits
    else hits + Leftovers(Ids(hits), ties)
  }

  function LastKey(page: seq<Event>): int
    requires |page| > 0
  {
    page[|page| - 1].key
  }

  /** One request, and what the two searches of `_get_events` answered. */
  datatype Exchange = Exchange(cursor: Cursor, size: nat, hits: seq<Event>, ties: seq<Event>) {
    function Page(): seq<Event> {
      Merge(hits, ties)
    }
  }

  ghost predicate Answered(es: set<Event>, earlier: bool, cap: nat, x: Exchange) {
    && IsPage(es, earlier, After(x.cursor), x.size, x.hits)
    && (|x.hits| > 0 ==> IsTieAnswer(es, LastKey(x.hits), cap, x.ties))
  }

  // ------------------------------------------------------------------- one page

  lemma {:induction false} LeftoversMembers(ids: set<nat>, ties: seq<Event>)
    ensures forall e :: e in Leftovers(ids, ties) <==> e in ties && e.id !in ids
    ensures Distinct(ties) ==> Distinct(Leftovers(ids, ties))
    ensures |Leftovers(ids, ties)| <= |ties|
  {
    if |ties| > 0 {
      LeftoversMembers(ids, ties[1..]);
      assert ties == [ties[0]] + ties[1..];
      if Distinct(ties) {
        assert Distinct(ties[1..]);
        assert ties[0] !in ties[1..];
      }
    }
  }

  ghost function Elements(s: seq<Event>): set<Event> {
    set i | 0 <= i < |s| :: s[i]
  }

  lemma {:induction false} DistinctCardinality(s: seq<Event>)
    requires Distinct(s)
    ensures |Elements(s)| == |s|
  {
    if |s| > 0 {
      var rest := s[..|s| - 1];
      DistinctCardinality(rest);
      assert Elements(s) == Elements(rest) + {s[|s| - 1]};
      assert s[|s| - 1] !in Elements(rest);
    }
  }

  /** A search that may return everything returns everything. */
  lemma TiesAreAll(es: set<Event>, key: int, cap: nat, ties: seq<Event>)
    requires IsTieAnswer(es, key, cap, ties) && |WithKey(es, key)| <= cap
    ensures Elements(ties) == WithKey(es, key)
  {
    DistinctCardinality(ties);
    assert Elements(ties) <= WithKey(es, key);
    SubsetCardinality(Elements(ties), WithKey(es, key));
  }

  /** Some events, once each and in order: those past `after` and not past `upTo`. */
  ghost predicate Covers(es: set<Event>, earlier: bool, after: Option<int>, upTo: int, s: seq<Event>) {
    && Distinct(s) && InOrder(earlier, s)
    && forall e :: e in s <==> e in es && Past(earlier, after, e.key) && !Before(earlier, upTo, e.key)
  }

  lemma IdsMembers(hits: seq<Event>, e: Event)
    ensures e in hits ==> e.id in Ids(hits)
    ensures e.id in Ids(hits) ==> exists h :: h in hits && h.id == e.id
  {
    if e.id in Ids(hits) {
      var i :| 0 <= i < |hits| && hits[i].id == e.id;
      assert hits[i] in hits;
    }
  }

  /** The search for the last key always finds the last event of the page. */
  lemma LastHitIsATie(es: set<Event>, earlier: bool, after: Option<int>, cap: nat, size: nat, hits: seq<Event>, ties: seq<Event>)
    requires IsPage(es, earlier, after, size, hits) && |hits| > 0
    requires IsTieAnswer(es, LastKey(hits), cap, ties) && |WithKey(es, LastKey(hits))| <= cap
    ensures forall e :: e in ties <==> e in es && e.key == LastKey(hits)
    ensures hits[|hits| - 1] in ties
    ensures Merge(hits, ties) == hits + Leftovers(Ids(hits), ties)
  {
    var k, last := LastKey(hits), hits[|hits| - 1];
    TiesAreAll(es, k, cap, ties);
    assert forall e :: e in ties <==> e in Elements(ties);
    assert last in WithKey(es, k);
    if |ties| < 2 {
      assert ties == [last];
      IdsMembers(hits, last);
      assert Leftovers(Ids(hits), ties) == [];
    }
  }

  /** The events with the page's last key fit in one answer, or are all in the page already. */
  ghost predicate Fits(es: set<Event>, cap: nat, hits: seq<Event>) {
    |hits| > 0 ==> |WithKey(es, LastKey(hits))| <= cap || WithKey(es, LastKey(hits)) <= Elements(hits)
  }

  lemma HasMember(s: seq<Event>)
    requires s != []
    ensures exists e :: e in s
  {
    assert s[0] in s;
  }

  /** Nothing is left to add to a page that holds all the events with its last key. */
  lemma NothingToAdd(es: set<Event>, cap: nat, hits: seq<Event>, ties: seq<Event>)
    requires |hits| > 0 && WithKey(es, LastKey(hits)) <= Elements(hits) && IsTieAnswer(es, LastKey(hits), cap, ties)
    ensures Merge(hits, ties) == hits
  {
    forall e | e in ties ensures e.id in Ids(hits) {
      assert e in Elements(hits);
      IdsMembers(hits, e);
    }
    LeftoversMembers(Ids(hits), ties);
    var more := Leftovers(Ids(hits), ties);
    if more != [] {
      HasMember(more);
    }
  }

  /** Which events a page holds. */
  lemma PageMembers(es: set<Event>, earlier: bool, after: Option<int>, cap: nat, size: nat, hits: seq<Event>, ties: seq<Event>, e: Event)
    requires Indexed(es) && IsPage(es, earlier, after, size, hits) && |hits| > 0
    requires IsTieAnswer(es, LastKey(hits), cap, ties) && Fits(es, cap, hits)
    ensures e in Merge(hits, ties) <==>
              e in es && Past(earlier, after, e.key) && !Before(earlier, LastKey(hits), e.key)
  {
    if |WithKey(es, LastKey(hits))| <= cap {
      LastHitIsATie(es, earlier, after, cap, size, hits, ties);
      LeftoversMembers(Ids(hits), ties);
    } else {
      NothingToAdd(es, cap, hits, ties);
      assert e in es && e.key == LastKey(hits) ==> e in Elements(hits);
    }
    IdsMembers(hits, e);
    assert hits[|hits| - 1] in Eligible(es, earlier, after);
    assert forall h :: h in hits ==> h in es;
    if e in hits {
      assert e in Eligible(es, earlier, after);
      var i :| 0 <= i < |hits| && hits[i] == e;
    } else if e in es && Past(earlier, after, e.key) {
      assert e in Eligible(es, earlier, after);
    }
  }

  lemma Appended(earlier: bool, s: seq<Event>, t: seq<Event>)
    requires Distinct(s) && Distinct(t) && InOrder(earlier, s) && InOrder(earlier, t)
    requires forall i, j :: 0 <= i < |s| && 0 <= j < |t| ==> s[i] != t[j] && !Before(earlier, t[j].key, s[i].key)
    ensures Distinct(s + t) && InOrder(earlier, s + t)
  {
  }

  /** How a page is ordered. */
  lemma PageShape(es: set<Event>, earlier: bool, after: Option<int>, cap: nat, size: nat, hits: seq<Event>, ties: seq<Event>)
    requires Indexed(es) && IsPage(es, earlier, after, size, hits) && |hits| > 0
    requires IsTieAnswer(es, LastKey(hits), cap, ties)
    ensures var page := Merge(hits, ties);
            Distinct(page) && InOrder(earlier, page) && |page| > 0 && LastKey(page) == LastKey(hits)
  {
    var k, more := LastKey(hits), Leftovers(Ids(hits), ties);
    LeftoversMembers(Ids(hits), ties);
    assert forall i :: 0 <= i < |more| ==> more[i] in more && more[i].key == k;
    forall i, j | 0 <= i < |hits| && 0 <= j < |more| ensures hits[i] != more[j] {
      IdsMembers(hits, more[j]);
    }
    Appended(earlier, hits, more);
  }

  /** A page whose last key fits is complete up to its last key. */
  lemma PageCovers(es: set<Event>, earlier: bool, cap: nat, x: Exchange)
    requires Indexed(es) && Answered(es, earlier, cap, x) && |x.Page()| > 0 && Fits(es, cap, x.hits)
    ensures Covers(es, earlier, After(x.cursor), LastKey(x.Page()), x.Page())
  {
    PageShape(es, earlier, After(x.cursor), cap, x.size, x.hits, x.ties);
    forall e ensures e in x.Page() <==>
              e in es && Past(earlier, After(x.cursor), e.key) && !Before(earlier, LastKey(x.Page()), e.key) {
      PageMembers(es, earlier, After(x.cursor), cap, x.size, x.hits, x.ties, e);
    }
  }

  lemma {:induction false} Choose(s: set<Event>, n: nat) returns (some: seq<Event>)
    requires n <= |s|
    ensures |some| == n && Distinct(some) && forall e :: e in some ==> e in s
  {
    if n == 0 {
      some := [];
    } else {
      var e :| e in s;
      some := Choose(s - {e}, n - 1);
      some := some + [e];
    }
  }

  /** Where one answer cannot hold a key, it may leave out any one of its events. */
  lemma TiesWithout(es: set<Event>, key: int, cap: nat, e: Event) returns (ties: seq<Event>)
    requires |WithKey(es, key)| > cap && e in WithKey(es, key)
    ensures IsTieAnswer(es, key, cap, ties) && e !in ties
  {
    assert |WithKey(es, key) - {e}| == |WithKey(es, key)| - 1;
    ties := Choose(WithKey(es, key) - {e}, cap);
  }

  /** An event in neither search is not in the page. */
  lemma InNeither(hits: seq<Event>, ties: seq<Event>, e: Event)
    requires e !in hits && e !in ties
    ensures e !in Merge(hits, ties)
  {
    LeftoversMembers(Ids(hits), ties);
  }

  /** The page is complete up to its last key whatever the second search answers. */
  ghost predicate AlwaysCovers(es: set<Event>, earlier: bool, after: Option<int>, cap: nat, hits: seq<Event>)
    requires |hits| > 0
  {
    forall ties :: IsTieAnswer(es, LastKey(hits), cap, ties) ==>
      Covers(es, earlier, after, LastKey(hits), Merge(hits, ties))
  }

  /** That is so exactly when the events with its last key fit in one answer, or are in the page already. */
  lemma {:induction false} CoversExactly(es: set<Event>, earlier: bool, after: Option<int>, cap: nat, size: nat, hits: seq<Event>)
    requires Indexed(es) && IsPage(es, earlier, after, size, hits) && |hits| > 0
    ensures AlwaysCovers(es, earlier, after, cap, hits) <==> Fits(es, cap, hits)
    ensures size <= cap ==> (AlwaysCovers(es, earlier, after, cap, hits) <==> |WithKey(es, LastKey(hits))| <= cap)
  {
    var k := LastKey(hits);
    if Fits(es, cap, hits) {
      forall ties | IsTieAnswer(es, k, cap, ties) ensures Covers(es, earlier, after, k, Merge(hits, ties)) {
        PageShape(es, earlier, after, cap, size, hits, ties);
        forall e ensures e in Merge(hits, ties) <==>
                  e in es && Past(earlier, after, e.key) && !Before(earlier, k, e.key) {
          PageMembers(es, earlier, after, cap, size, hits, ties, e);
        }
      }
    } else {
      var e :| e in WithKey(es, k) && e !in Elements(hits);
      assert hits[|hits| - 1] in Eligible(es, earlier, after);
      assert e !in hits;
      var ties := TiesWithout(es, k, cap, e);
      InNeither(hits, ties, e);
      assert !Covers(es, earlier, after, k, Merge(hits, ties));
    }
    if size <= cap && WithKey(es, k) <= Elements(hits) {
      DistinctCardinality(hits);
      SubsetCardinality(WithKey(es, k), Elements(hits));
    }
  }

  // ------------------------------------------------------- following the cursor

  /** The next request continues from the last key, as an integer or as its text. */
  predicate Follows(c: Cursor, page: seq<Event>) {
    |page| > 0 && (c == IntCursor(LastKey(page)) || c == TextCursor(LastKey(page)))
  }

  /**
   The pages of a client that follows the cursor, up to the first empty page. The first request has
   no cursor (descending) or the integer 0 (ascending), which is not used either. The batch size may
   change from one request to the next.
   */
  ghost predicate Listing(es: set<Event>, earlier: bool, cap: nat, xs: seq<Exchange>) {
    && Chained(xs)
    && forall i :: 0 <= i < |xs| ==> xs[i].size >= 1 && Answered(es, earlier, cap, xs[i])
  }

  ghost predicate Chained(xs: seq<Exchange>) {
    && (|xs| > 0 ==> After(xs[0].cursor) == None)
    && forall i, j :: 0 <= i < j < |xs| && j == i + 1 ==> Follows(xs[j].cursor, xs[i].Page())
  }

  /** Every page but the last has events, and the next cursor is its last key. */
  lemma Continues(xs: seq<Exchange>, i: nat)
    requires Chained(xs) && i + 1 < |xs|
    ensures |xs[i].Page()| > 0 && After(xs[i + 1].cursor) ==
              if xs[i + 1].cursor == IntCursor(0) then None else Some(LastKey(xs[i].Page()))
  {
    var j := i + 1;
    assert Follows(xs[j].cursor, xs[i].Page());
  }

  /** No request after the first falls back to the beginning of the listing. */
  predicate NeverRestarts(xs: seq<Exchange>) {
    forall i :: 0 < i < |xs| ==> After(xs[i].cursor).Some?
  }

  ghost predicate TiesFit(es: set<Event>, cap: nat) {
    forall k: int :: |WithKey(es, k)| <= cap
  }

  /** Wherever a page ends, the events with its last key fit. */
  ghost predicate EndsFit(es: set<Event>, cap: nat, xs: seq<Exchange>) {
    forall i :: 0 <= i < |xs| ==> Fits(es, cap, xs[i].hits)
  }

  function Flatten(xs: seq<Exchange>): seq<Event> {
    if |xs| == 0 then [] else Flatten(xs[..|xs| - 1]) + xs[|xs| - 1].Page()
  }

  lemma ListingPrefix(es: set<Event>, earlier: bool, cap: nat, xs: seq<Exchange>, n: nat)
    requires Listing(es, earlier, cap, xs) && n <= |xs|
    ensures Listing(es, earlier, cap, xs[..n])
    ensures NeverRestarts(xs) ==> NeverRestarts(xs[..n])
    ensures EndsFit(es, cap, xs) ==> EndsFit(es, cap, xs[..n])
  {
  }

  /** What is covered up to a key, and what is covered after it, join. */
  lemma CoversJoin(es: set<Event>, earlier: bool, after: Option<int>, mid: int, upTo: int, s: seq<Event>, t: seq<Event>)
    requires Covers(es, earlier, after, mid, s) && Covers(es, earlier, Some(mid), upTo, t)
    requires |t| > 0 && LastKey(t) == upTo
    requires Past(earlier, after, mid)
    ensures Covers(es, earlier, after, upTo, s + t)
  {
    assert t[|t| - 1] in t;
    assert Before(earlier, mid, upTo);
    forall i, j | 0 <= i < |s| && 0 <= j < |t| ensures s[i] != t[j] && !Before(earlier, t[j].key, s[i].key) {
      assert s[i] in s && t[j] in t;
    }
    Appended(earlier, s, t);
  }

  /** Everything delivered so far is exactly what comes up to the last key delivered. */
  lemma {:induction false} ListingCovers(es: set<Event>, earlier: bool, cap: nat, xs: seq<Exchange>)
    requires Indexed(es) && EndsFit(es, cap, xs) && NeverRestarts(xs)
    requires Listing(es, earlier, cap, xs)
    requires |xs| > 0 && |xs[|xs| - 1].Page()| > 0
    ensures Covers(es, earlier, None, LastKey(xs[|xs| - 1].Page()), Flatten(xs))
    decreases |xs|
  {
    var n := |xs| - 1;
    var last := xs[n].Page();
    PageCovers(es, earlier, cap, xs[n]);
    if n == 0 {
      assert Flatten(xs) == last;
    } else {
      ListingPrefix(es, earlier, cap, xs, n);
      assert xs[..n][n - 1] == xs[n - 1];
      ListingCovers(es, earlier, cap, xs[..n]);
      CoversJoin(es, earlier, None, LastKey(xs[n - 1].Page()), LastKey(last), Flatten(xs[..n]), last);
    }
  }

  /** An empty page means that nothing is left past its cursor. */
  lemma NothingLeft(es: set<Event>, earlier: bool, cap: nat, x: Exchange, e: Event)
    requires x.size >= 1 && Answered(es, earlier, cap, x) && x.Page() == [] && e in es
    ensures !Past(earlier, After(x.cursor), e.key)
  {
    assert Eligible(es, earlier, After(x.cursor)) == {};
    assert e !in Eligible(es, earlier, After(x.cursor));
  }

  /** Towards earlier events is from the highest key down, towards later ones from the lowest up. */
  lemma OrderIs(earlier: bool, s: seq<Event>, i: nat, j: nat)
    requires InOrder(earlier, s) && i < j < |s|
    ensures if earlier then s[j].key <= s[i].key else s[i].key <= s[j].key
  {
    assert !Before(earlier, s[j].key, s[i].key);
  }

  /**
   Paging refines listing: following the cursor until an empty page yields every event exactly once,
   in key order, when the events of each key that a page ends on fit and no request restarts.
   */
  lemma {:induction false} ListingIsComplete(es: set<Event>, earlier: bool, cap: nat, xs: seq<Exchange>)
    requires Indexed(es) && EndsFit(es, cap, xs) && NeverRestarts(xs)
    requires Listing(es, earlier, cap, xs)
    requires |xs| > 0 && xs[|xs| - 1].Page() == []
    ensures Distinct(Flatten(xs)) && InOrder(earlier, Flatten(xs))
    ensures forall e :: e in Flatten(xs) <==> e in es
  {
    var n := |xs| - 1;
    forall e | e in es ensures !Past(earlier, After(xs[n].cursor), e.key) {
      NothingLeft(es, earlier, cap, xs[n], e);
    }
    assert Flatten(xs) == Flatten(xs[..n]);
    if n > 0 {
      ListingPrefix(es, earlier, cap, xs, n);
      assert xs[..n][n - 1] == xs[n - 1];
      ListingCovers(es, earlier, cap, xs[..n]);
    }
  }

  lemma {:induction false} FlattenLength(xs: seq<Exchange>)
    requires forall i :: 0 <= i < |xs| ==> |xs[i].Page()| > 0
    ensures |Flatten(xs)| >= |xs|
  {
    if |xs| > 0 {
      FlattenLength(xs[..|xs| - 1]);
    }
  }

  /** Such a listing ends: it has at most one page per event, and the empty one. */
  lemma ListingEnds(es: set<Event>, earlier: bool, cap: nat, xs: seq<Exchange>)
    requires Indexed(es) && EndsFit(es, cap, xs) && NeverRestarts(xs)
    requires Listing(es, earlier, cap, xs)
    ensures |xs| <= |es| + 1
  {
    if |xs| > 1 {
      var n := |xs| - 1;
      ListingPrefix(es, earlier, cap, xs, n);
      forall i | 0 <= i < n ensures |xs[i].Page()| > 0 {
        Continues(xs, i);
      }
      assert xs[..n][n - 1] == xs[n - 1];
      ListingCovers(es, earlier, cap, xs[..n]);
      FlattenLength(xs[..n]);
      var all := Flatten(xs[..n]);
      DistinctCardinality(all);
      assert Elements(all) <= es;
      SubsetCardinality(Elements(all), es);
    }
  }

  // ------------------------------------------------------------ the integer key 0

  /** Two searches with the same cursor and size end on the same key. */
  lemma SameBoundary(es: set<Event>, earlier: bool, after: Option<int>, size: nat, h: seq<Event>, g: seq<Event>)
    requires IsPage(es, earlier, after, size, h) && IsPage(es, earlier, after, size, g)
    ensures |h| == |g| && (|h| > 0 ==> LastKey(h) == LastKey(g))
  {
    if |h| > 0 {
      NotBefore(es, earlier, after, size, h, g);
      NotBefore(es, earlier, after, size, g, h);
    }
  }

  lemma NotBefore(es: set<Event>, earlier: bool, after: Option<int>, size: nat, h: seq<Event>, g: seq<Event>)
    requires IsPage(es, earlier, after, size, h) && IsPage(es, earlier, after, size, g) && |h| > 0
    ensures |g| > 0 && !Before(earlier, LastKey(h), LastKey(g))
  {
    var last := g[|g| - 1];
    if Before(earlier, LastKey(h), last.key) {
      forall e | e in Elements(h) ensures e in Elements(g) {
        var i :| 0 <= i < |h| && h[i] == e;
        assert e in h;
        assert e in g;
      }
      forall i | 0 <= i < |h| ensures h[i] != last {
      }
      assert last in Elements(g) && last !in Elements(h);
      DistinctCardinality(h);
      DistinctCardinality(g);
      SubsetCardinality(Elements(h) + {last}, Elements(g));
      assert false;
    }
  }

  /** Two pages for the same cursor and size end on the same key, or are both empty. */
  lemma SamePageBoundary(es: set<Event>, earlier: bool, cap: nat, x: Exchange, y: Exchange)
    requires Indexed(es) && After(x.cursor) == After(y.cursor) && x.size == y.size
    requires Answered(es, earlier, cap, x) && Answered(es, earlier, cap, y)
    ensures |x.Page()| > 0 <==> |y.Page()| > 0
    ensures |x.Page()| > 0 ==> LastKey(x.Page()) == LastKey(y.Page())
  {
    SameBoundary(es, earlier, After(x.cursor), x.size, x.hits, y.hits);
    if |x.hits| > 0 {
      PageShape(es, earlier, After(x.cursor), cap, x.size, x.hits, x.ties);
      PageShape(es, earlier, After(y.cursor), cap, y.size, y.hits, y.ties);
    }
  }

  /** One batch size throughout, and cursors read back as integers, as `get_task_events` does. */
  predicate Steady(xs: seq<Exchange>) {
    && (forall i :: 0 <= i < |xs| ==> xs[i].size == xs[0].size)
    && (forall i :: 0 < i < |xs| ==> xs[i].cursor.IntCursor?)
  }

  /** After a page that ends on key 0 the listing repeats itself. */
  lemma {:induction false} RepeatsFromZero(es: set<Event>, earlier: bool, cap: nat, xs: seq<Exchange>, z: nat, i: nat)
    requires Indexed(es) && Listing(es, earlier, cap, xs) && Steady(xs)
    requires z + 1 + i < |xs| && LastKeyIs(xs[z].Page(), 0)
    ensures After(xs[z + 1 + i].cursor) == After(xs[i].cursor)
    ensures |xs[z + 1 + i].Page()| > 0 <==> |xs[i].Page()| > 0
    ensures |xs[i].Page()| > 0 ==> LastKey(xs[z + 1 + i].Page()) == LastKey(xs[i].Page())
    decreases i
  {
    if i == 0 {
      Continues(xs, z);
    } else {
      RepeatsFromZero(es, earlier, cap, xs, z, i - 1);
      Continues(xs, i - 1);
      Continues(xs, z + i);
    }
    SamePageBoundary(es, earlier, cap, xs[i], xs[z + 1 + i]);
  }

  predicate LastKeyIs(page: seq<Event>, key: int) {
    |page| > 0 && LastKey(page) == key
  }

  /** So it never reaches an empty page: the listing does not end. */
  lemma {:induction false} NeverEndsAfterZero(es: set<Event>, earlier: bool, cap: nat, xs: seq<Exchange>, z: nat, i: nat)
    requires Indexed(es) && Listing(es, earlier, cap, xs) && Steady(xs)
    requires z < |xs| && LastKeyIs(xs[z].Page(), 0) && i < |xs|
    ensures xs[i].Page() != []
  {
    if i < |xs| - 1 {
      Continues(xs, i);
    } else if i > z {
      var k := i - z - 1;
      assert |xs[k].Page()| > 0 by {
        Continues(xs, k);
      }
      RepeatsFromZero(es, earlier, cap, xs, z, k);
    }
  }

  /** A listing with integer cursors restarts exactly when a page before the last ends on key 0. */
  lemma RestartsAtZero(xs: seq<Exchange>)
    requires Chained(xs) && Steady(xs)
    ensures NeverRestarts(xs) <==> forall i :: 0 <= i < |xs| - 1 ==> !LastKeyIs(xs[i].Page(), 0)
  {
    if i: nat :| 0 < i < |xs| && After(xs[i].cursor).None? {
      Continues(xs, i - 1);
      assert LastKeyIs(xs[i - 1].Page(), 0);
    } else {
      forall i | 0 <= i < |xs| - 1 ensures !LastKeyIs(xs[i].Page(), 0) {
        Continues(xs, i);
        assert After(xs[i + 1].cursor).Some?;
      }
    }
  }

  /** Whatever the ties, a page holds only events past its cursor and not past its last key. */
  lemma PageKeyBelongs(es: set<Event>, earlier: bool, cap: nat, x: Exchange, e: Event)
    requires Indexed(es) && Answered(es, earlier, cap, x) && e in x.Page()
    ensures e in es && Past(earlier, After(x.cursor), e.key) && !Before(earlier, LastKey(x.Page()), e.key)
  {
    PageShape(es, earlier, After(x.cursor), cap, x.size, x.hits, x.ties);
    LeftoversMembers(Ids(x.hits), x.ties);
    var last := x.hits[|x.hits| - 1];
    assert last in Eligible(es, earlier, After(x.cursor));
    if e in x.hits {
      assert e in Eligible(es, earlier, After(x.cursor));
    } else {
      assert e in WithKey(es, last.key);
    }
  }

  /**
   A listing down to key 0 never ends: its last page would end on key 0. (Iterations are never
   negative, and a descending listing has to reach the lowest one.)
   */
  lemma {:induction false} DescendingToZeroNeverEnds(es: set<Event>, cap: nat, xs: seq<Exchange>, zero: Event)
    requires Indexed(es) && Listing(es, true, cap, xs) && Steady(xs)
    requires forall e :: e in es ==> e.key >= 0
    requires zero in es && zero.key == 0
    ensures forall i :: 0 <= i < |xs| ==> xs[i].Page() != []
  {
    forall i | 0 <= i < |xs| ensures xs[i].Page() != [] {
      if z: nat :| z < |xs| && LastKeyIs(xs[z].Page(), 0) {
        NeverEndsAfterZero(es, true, cap, xs, z, i);
      } else if i < |xs| - 1 {
        Continues(xs, i);
      } else {
        if i > 0 {
          var page := xs[i - 1].Page();
          Continues(xs, i - 1);
          PageKeyBelongs(es, true, cap, xs[i - 1], page[|page| - 1]);
          assert !LastKeyIs(page, 0);
        }
        assert Past(true, After(xs[i].cursor), zero.key);
        if xs[i].Page() == [] {
          NothingLeft(es, true, cap, xs[i], zero);
        }
      }
    }
  }

  // -------------------------------------------------------- too many events on a key

  /** Later pages lie strictly past the last key of an earlier page. */
  lemma {:induction false} KeysAdvance(es: set<Event>, earlier: bool, cap: nat, xs: seq<Exchange>, i: nat, j: nat)
    requires Indexed(es) && Listing(es, earlier, cap, xs) && NeverRestarts(xs)
    requires i < j < |xs|
    ensures |xs[i].Page()| > 0
    ensures forall e :: e in xs[j].Page() ==> Before(earlier, LastKey(xs[i].Page()), e.key)
    decreases j
  {
    var before := xs[j - 1].Page();
    Continues(xs, j - 1);
    if i < j - 1 {
      KeysAdvance(es, earlier, cap, xs, i, j - 1);
      assert before[|before| - 1] in before;
    }
    forall e | e in xs[j].Page() ensures Before(earlier, LastKey(xs[i].Page()), e.key) {
      assert After(xs[j].cursor) == Some(LastKey(before));
      PageKeyBelongs(es, earlier, cap, xs[j], e);
    }
  }

  lemma {:induction false} FlattenMembers(xs: seq<Exchange>, e: Event)
    ensures e in Flatten(xs) <==> exists i :: 0 <= i < |xs| && e in xs[i].Page()
  {
    if |xs| > 0 {
      var rest := xs[..|xs| - 1];
      FlattenMembers(rest, e);
      if i :| 0 <= i < |rest| && e in rest[i].Page() {
        assert xs[i] == rest[i];
      }
    }
  }

  /** A page holds at most `size + cap` of the events with its last key. */
  lemma PageHoldsAtMost(es: set<Event>, earlier: bool, cap: nat, x: Exchange, k: int)
    requires Answered(es, earlier, cap, x)
    requires |WithKey(es, k)| > x.size + cap
    ensures exists e :: e in es && e.key == k && e !in x.Page()
  {
    var both := Elements(x.hits) + Elements(x.ties);
    if |x.hits| > 0 {
      DistinctCardinality(x.hits);
      DistinctCardinality(x.ties);
      LeftoversMembers(Ids(x.hits), x.ties);
      if WithKey(es, k) <= both {
        SubsetCardinality(WithKey(es, k), both);
      }
      var e :| e in WithKey(es, k) && e !in both;
      assert e !in x.hits && e !in x.ties;
    } else {
      assert WithKey(es, k) != {};
      var e :| e in WithKey(es, k);
    }
  }

  /** An event that its page leaves out, though it has the page's last key, never comes. */
  lemma {:induction false} MissedForGood(es: set<Event>, earlier: bool, cap: nat, xs: seq<Exchange>, i: nat, e: Event)
    requires Indexed(es) && Listing(es, earlier, cap, xs) && NeverRestarts(xs)
    requires i < |xs| && |xs[i].Page()| > 0 && e.key == LastKey(xs[i].Page()) && e !in xs[i].Page()
    ensures e !in Flatten(xs)
  {
    FlattenMembers(xs, e);
    forall j | 0 <= j < |xs| ensures e !in xs[j].Page() {
      if i < j {
        KeysAdvance(es, earlier, cap, xs, i, j);
      } else if j < i {
        KeysAdvance(es, earlier, cap, xs, j, i);
        var last := xs[i].Page()[|xs[i].Page()| - 1];
        assert last in xs[i].Page();
        if e in xs[j].Page() {
          PageKeyBelongs(es, earlier, cap, xs[j], e);
        }
      }
    }
  }

  /** A page that ends inside a key with more events than that loses some of them for good. */
  lemma {:induction false} TooManyTiesLoseEvents(es: set<Event>, earlier: bool, cap: nat, xs: seq<Exchange>, i: nat)
    requires Indexed(es) && Listing(es, earlier, cap, xs) && NeverRestarts(xs)
    requires i < |xs| && |xs[i].Page()| > 0
    requires |WithKey(es, LastKey(xs[i].Page()))| > xs[i].size + cap
    ensures exists e :: e in es && e.key == LastKey(xs[i].Page()) && e !in Flatten(xs)
  {
    var k := LastKey(xs[i].Page());
    PageHoldsAtMost(es, earlier, cap, xs[i], k);
    var e :| e in es && e.key == k && e !in xs[i].Page();
    MissedForGood(es, earlier, cap, xs, i, e);
  }

  /** The other answer that the same request may get where the key does not fit. */
  lemma LosingAnswer(es: set<Event>, earlier: bool, cap: nat, x: Exchange) returns (y: Exchange, e: Event)
    requires Indexed(es) && Answered(es, earlier, cap, x) && !Fits(es, cap, x.hits)
    ensures y == x.(ties := y.ties) && Answered(es, earlier, cap, y)
    ensures e in WithKey(es, LastKey(x.hits)) && e !in y.Page()
    ensures |x.Page()| > 0 && |y.Page()| > 0 && LastKey(x.Page()) == LastKey(y.Page()) == LastKey(x.hits)
  {
    var k := LastKey(x.hits);
    e :| e in WithKey(es, k) && e !in Elements(x.hits);
    assert e !in x.hits;
    var ties := TiesWithout(es, k, cap, e);
    y := x.(ties := ties);
    InNeither(x.hits, ties, e);
    PageShape(es, earlier, After(x.cursor), cap, x.size, x.hits, x.ties);
    PageShape(es, earlier, After(x.cursor), cap, x.size, x.hits, ties);
  }

  /** The listing with another answer to its last request. */
  lemma OtherAnswer(es: set<Event>, earlier: bool, cap: nat, xs: seq<Exchange>, y: Exchange)
    requires Listing(es, earlier, cap, xs) && |xs| > 0 && Answered(es, earlier, cap, y)
    requires y == xs[|xs| - 1].(ties := y.ties)
    ensures Listing(es, earlier, cap, xs[|xs| - 1 := y])
    ensures NeverRestarts(xs) ==> NeverRestarts(xs[|xs| - 1 := y])
  {
  }

  /** However the listing is continued without a restart, the event is not delivered. */
  ghost predicate NeverComes(es: set<Event>, earlier: bool, cap: nat, ys: seq<Exchange>, e: Event) {
    forall zs: seq<Exchange> :: Listing(es, earlier, cap, ys + zs) && NeverRestarts(ys + zs) ==> e !in Flatten(ys + zs)
  }

  /**
   A listing that reaches a page whose last key does not fit may, with the same searches answered
   another way, lose an event with that key for good, however it is continued.
   */
  lemma {:induction false} UnfitPageMayLose(es: set<Event>, earlier: bool, cap: nat, xs: seq<Exchange>)
    returns (y: Exchange, e: Event)
    requires Indexed(es) && Listing(es, earlier, cap, xs) && NeverRestarts(xs)
    requires |xs| > 0 && !Fits(es, cap, xs[|xs| - 1].hits)
    ensures y == xs[|xs| - 1].(ties := y.ties) && Listing(es, earlier, cap, xs[|xs| - 1 := y])
    ensures NeverRestarts(xs[|xs| - 1 := y])
    ensures |y.Page()| > 0 && e in es && e.key == LastKey(y.Page())
    ensures NeverComes(es, earlier, cap, xs[|xs| - 1 := y], e)
  {
    var n := |xs| - 1;
    y, e := LosingAnswer(es, earlier, cap, xs[n]);
    var ys := xs[n := y];
    OtherAnswer(es, earlier, cap, xs, y);
    forall zs | Listing(es, earlier, cap, ys + zs) && NeverRestarts(ys + zs) ensures e !in Flatten(ys + zs) {
      assert (ys + zs)[n] == y;
      MissedForGood(es, earlier, cap, ys + zs, n, e);
    }
  }

  /** Whatever is searched and answered, what was delivered is all there is up to the last key delivered. */
  ghost predicate AlwaysComplete(es: set<Event>, earlier: bool, cap: nat) {
    forall xs: seq<Exchange> :: Listing(es, earlier, cap, xs) && NeverRestarts(xs) && |xs| > 0 && |xs[|xs| - 1].Page()| > 0 ==>
      Covers(es, earlier, None, LastKey(xs[|xs| - 1].Page()), Flatten(xs))
  }

  ghost predicate AlwaysFits(es: set<Event>, earlier: bool, cap: nat) {
    forall xs: seq<Exchange> :: Listing(es, earlier, cap, xs) && NeverRestarts(xs) ==> EndsFit(es, cap, xs)
  }

  /** Paging is complete exactly when no page can end on a key whose events do not fit. */
  lemma {:induction false} PagingIsCompleteExactly(es: set<Event>, earlier: bool, cap: nat)
    requires Indexed(es)
    ensures AlwaysComplete(es, earlier, cap) <==> AlwaysFits(es, earlier, cap)
  {
    if AlwaysFits(es, earlier, cap) {
      forall xs: seq<Exchange> | Listing(es, earlier, cap, xs) && NeverRestarts(xs) && |xs| > 0 && |xs[|xs| - 1].Page()| > 0
        ensures Covers(es, earlier, None, LastKey(xs[|xs| - 1].Page()), Flatten(xs))
      {
        ListingCovers(es, earlier, cap, xs);
      }
    } else {
      var xs: seq<Exchange> :| Listing(es, earlier, cap, xs) && NeverRestarts(xs) && !EndsFit(es, cap, xs);
      var i :| 0 <= i < |xs| && !Fits(es, cap, xs[i].hits);
      ListingPrefix(es, earlier, cap, xs, i + 1);
      var ws := xs[..i + 1];
      assert ws[|ws| - 1] == xs[i];
      var y, e := UnfitPageMayLose(es, earlier, cap, ws);
      NotComplete(es, earlier, cap, ws[i := y], e);
    }
  }

  lemma NotComplete(es: set<Event>, earlier: bool, cap: nat, ys: seq<Exchange>, e: Event)
    requires Listing(es, earlier, cap, ys) && NeverRestarts(ys) && |ys| > 0 && |ys[|ys| - 1].Page()| > 0
    requires e in es && e.key == LastKey(ys[|ys| - 1].Page())
    requires NeverComes(es, earlier, cap, ys, e)
    ensures !AlwaysComplete(es, earlier, cap)
  {
    assert ys + [] == ys;
    assert e !in Flatten(ys + []);
    assert !Covers(es, earlier, None, LastKey(ys[|ys| - 1].Page()), Flatten(ys));
  }

  lemma {:induction false} Latest(s: set<Event>, earlier: bool) returns (last: Event)
    requires s != {}
    ensures last in s && forall e :: e in s ==> !Before(earlier, last.key, e.key)
  {
    var one :| one in s;
    if s == {one} {
      last := one;
    } else {
      var other := Latest(s - {one}, earlier);
      last := if Before(earlier, one.key, other.key) then other else one;
    }
  }

  lemma OneLater(earlier: bool, list: seq<Event>, last: Event)
    requires InOrder(earlier, list) && Distinct(list) && last !in list
    requires forall e :: e in list ==> !Before(earlier, last.key, e.key)
    ensures InOrder(earlier, list + [last]) && Distinct(list + [last])
  {
    var more := list + [last];
    forall i, j | 0 <= i < j < |more| ensures !Before(earlier, more[j].key, more[i].key) && more[i] != more[j] {
      assert more[i] == list[i] && list[i] in list;
    }
  }

  lemma {:induction false} Sorted(s: set<Event>, earlier: bool) returns (list: seq<Event>)
    ensures Distinct(list) && InOrder(earlier, list) && |list| == |s| && forall e :: e in list <==> e in s
  {
    if s == {} {
      list := [];
    } else {
      var last := Latest(s, earlier);
      list := Sorted(s - {last}, earlier);
      OneLater(earlier, list, last);
      list := list + [last];
    }
  }

  /** For any event there is a first page that ends on it, before all others with its key. */
  lemma {:induction false} PageEndingOn(es: set<Event>, earlier: bool, one: Event) returns (hits: seq<Event>)
    requires one in es
    ensures |hits| > 0 && hits[|hits| - 1] == one && IsPage(es, earlier, None, |hits|, hits)
    ensures forall e :: e in hits && e.key == one.key ==> e == one
  {
    var before := set e | e in es && Before(earlier, e.key, one.key);
    hits := Sorted(before, earlier);
    OneLater(earlier, hits, one);
    hits := hits + [one];
    assert Eligible(es, earlier, None) == es;
    assert before + {one} <= es;
    SubsetCardinality(before + {one}, es);
  }

  /** And where the events with its key are too many for one answer, that page does not fit. */
  lemma UnfitListing(es: set<Event>, earlier: bool, cap: nat, key: int) returns (xs: seq<Exchange>)
    requires cap >= 1 && |WithKey(es, key)| > cap
    ensures Listing(es, earlier, cap, xs) && NeverRestarts(xs) && !EndsFit(es, cap, xs)
  {
    var one :| one in WithKey(es, key);
    var hits := PageEndingOn(es, earlier, one);
    var ties := Choose(WithKey(es, key), cap);
    var x := Exchange(NoCursor, |hits|, hits, ties);
    xs := [x];
    assert Answered(es, earlier, cap, x);
    if WithKey(es, key) <= Elements(hits) {
      assert WithKey(es, key) <= {one};
      SubsetCardinality(WithKey(es, key), {one});
    }
    assert !Fits(es, cap, xs[0].hits);
  }

  /** So paging is complete, for all batch sizes and answers, exactly when no more events share a key
      than one answer can hold. */
  lemma {:induction false} CompleteExactlyWhenTiesFit(es: set<Event>, earlier: bool, cap: nat)
    requires Indexed(es) && cap >= 1
    ensures AlwaysComplete(es, earlier, cap) <==> TiesFit(es, cap)
  {
    PagingIsCompleteExactly(es, earlier, cap);
    if !TiesFit(es, cap) {
      var key: int :| |WithKey(es, key)| > cap;
      var xs := UnfitListing(es, earlier, cap, key);
    }
  }

  // ------------------------------------------------------- scalar_metrics_iter_raw

  /** At most this many events with one key are fetched, and at most this many in one search. */
  const CAP: nat := 10_000

  /** The two searches; the last argument numbers the request, since equal requests may differ. */
  datatype Backend = Backend(search: (Option<int>, nat, nat) -> seq<Event>, ties: (int, nat) -> seq<Event>) {
    ghost predicate Serves(es: set<Event>) {
      && (forall after, size, n :: IsPage(es, false, after, size, search(after, size, n)))
      && (forall key, n :: IsTieAnswer(es, key, CAP, ties(key, n)))
    }

    /** `_get_events`, towards later events. */
    function GetEvents(c: Cursor, size: nat, n: nat): Exchange {
      var hits := search(After(c), size, n);
      Exchange(c, size, hits, if |hits| == 0 then [] else ties(LastKey(hits), n))
    }

    lemma Answers(es: set<Event>, c: Cursor, size: nat, n: nat)
      requires Serves(es)
      ensures Answered(es, false, CAP, GetEvents(c, size, n))
    {
    }
  }

  /** All the events past `after`, or at least `atLeast` of them and whole keys only. */
  ghost predicate Delivers(es: set<Event>, after: Option<int>, atLeast: nat, events: seq<Event>) {
    && (|events| > 0 ==> Covers(es, false, after, LastKey(events), events))
    && (|events| < atLeast ==> forall e :: e in es && Past(false, after, e.key) ==> e in events)
  }

  /** A page shorter than it could be holds everything that is left. */
  lemma ShortPageIsLast(es: set<Event>, x: Exchange, e: Event)
    requires Indexed(es) && Answered(es, false, CAP, x) && |x.Page()| < x.size
    requires e in es && Past(false, After(x.cursor), e.key)
    ensures e in x.Page()
  {
    var all := Eligible(es, false, After(x.cursor));
    assert |x.hits| == |all|;
    DistinctCardinality(x.hits);
    assert Elements(x.hits) <= all;
    SubsetCardinality(Elements(x.hits), all);
    assert e in Elements(x.hits);
  }

  /** One more page, after whatever was delivered. */
  lemma DeliversMore(es: set<Event>, after: Option<int>, atLeast: nat, events: seq<Event>, x: Exchange)
    requires Indexed(es) && TiesFit(es, CAP) && Answered(es, false, CAP, x) && x.size >= 1
    requires Delivers(es, after, atLeast, events)
    requires After(x.cursor) == if |events| > 0 then Some(LastKey(events)) else after
    ensures x.Page() == [] ==> forall e :: e in es && Past(false, after, e.key) ==> e in events
    ensures x.Page() != [] ==> Delivers(es, after, atLeast + x.size, events + x.Page())
  {
    var page := x.Page();
    if page == [] {
      forall e | e in es && Past(false, after, e.key) ensures e in events {
        NothingLeft(es, false, CAP, x, e);
      }
    } else {
      PageCovers(es, false, CAP, x);
      if |events| > 0 {
        assert events[|events| - 1] in events;
        CoversJoin(es, false, after, LastKey(events), LastKey(page), events, page);
      } else {
        assert events + page == page;
      }
      if |events + page| < atLeast + x.size {
        forall e | e in es && Past(false, after, e.key) ensures e in events + page {
          if |page| < x.size {
            if Past(false, After(x.cursor), e.key) {
              ShortPageIsLast(es, x, e);
            }
          }
        }
      }
    }
  }

  /** Where the next request starts: from the text of the last key so far. */
  function NextCursor(start: Cursor, xs: seq<Exchange>): Cursor {
    if xs == [] || xs[|xs| - 1].Page() == [] then start else TextCursor(LastKey(xs[|xs| - 1].Page()))
  }

  /** Requests of one size, each from where the one before it ended; none follows one that brought nothing. */
  predicate Asked(backend: Backend, start: Cursor, size: nat, xs: seq<Exchange>) {
    xs != [] ==>
      var n := |xs| - 1;
      && Asked(backend, start, size, xs[..n]) && (n > 0 ==> xs[n - 1].Page() != [])
      && xs[n] == backend.GetEvents(NextCursor(start, xs[..n]), size, n)
  }

  lemma OneRequestMore(backend: Backend, start: Cursor, size: nat, xs: seq<Exchange>, x: Exchange)
    requires Asked(backend, start, size, xs) && (xs != [] ==> xs[|xs| - 1].Page() != [])
    requires x == backend.GetEvents(NextCursor(start, xs), size, |xs|)
    ensures Asked(backend, start, size, xs + [x]) && Flatten(xs + [x]) == Flatten(xs) + x.Page()
    ensures x.Page() != [] ==> NextCursor(start, xs + [x]) == TextCursor(LastKey(Flatten(xs) + x.Page()))
  {
    assert (xs + [x])[..|xs|] == xs;
  }

  function Times(n: nat, size: nat): nat {
    if n == 0 then 0 else Times(n - 1, size) + size
  }

  lemma {:induction false} EnoughRounds(n: nat, batchSize: nat)
    requires n <= (batchSize + 9_999) / 10_000
    ensures batchSize >= 10_000 ==> Times(n, 10_000) == 10_000 * n
    ensures n == (batchSize + 9_999) / 10_000 ==> Times(n, if batchSize < 10_000 then batchSize else 10_000) >= batchSize
  {
    if n > 0 {
      EnoughRounds(n - 1, batchSize);
      if batchSize < 10_000 {
        assert Times(1, batchSize) == Times(0, batchSize) + batchSize;
      }
    }
  }

  /** Such requests, and answers of the index to them. */
  ghost predicate AskedOf(es: set<Event>, start: Cursor, size: nat, xs: seq<Exchange>) {
    xs != [] ==>
      var n := |xs| - 1;
      && AskedOf(es, start, size, xs[..n]) && (n > 0 ==> xs[n - 1].Page() != [])
      && xs[n].cursor == NextCursor(start, xs[..n]) && xs[n].size == size && Answered(es, false, CAP, xs[n])
  }

  lemma {:induction false} AskedOfIndex(backend: Backend, es: set<Event>, start: Cursor, size: nat, xs: seq<Exchange>)
    requires backend.Serves(es) && Asked(backend, start, size, xs)
    ensures AskedOf(es, start, size, xs)
  {
    if xs != [] {
      var n := |xs| - 1;
      AskedOfIndex(backend, es, start, size, xs[..n]);
      backend.Answers(es, NextCursor(start, xs[..n]), size, n);
    }
  }

  predicate Fruitful(xs: seq<Exchange>) {
    xs != [] ==> xs[|xs| - 1].Page() != []
  }

  /** The next request starts after the last event so far. */
  lemma CursorFollows(start: Cursor, xs: seq<Exchange>)
    requires Fruitful(xs)
    ensures After(NextCursor(start, xs)) == if |Flatten(xs)| > 0 then Some(LastKey(Flatten(xs))) else After(start)
  {
  }

  /** What such requests deliver: as many events as they ask for, or all that is left. */
  lemma {:induction false} AskedDelivers(es: set<Event>, start: Cursor, size: nat, xs: seq<Exchange>)
    requires Indexed(es) && TiesFit(es, CAP) && size >= 1 && AskedOf(es, start, size, xs) && Fruitful(xs)
    ensures Delivers(es, After(start), Times(|xs|, size), Flatten(xs))
  {
    if xs != [] {
      var n := |xs| - 1;
      AskedDelivers(es, start, size, xs[..n]);
      CursorFollows(start, xs[..n]);
      DeliversMore(es, After(start), Times(n, size), Flatten(xs[..n]), xs[n]);
    }
  }

  /** Once one brings nothing, they have delivered everything. */
  lemma {:induction false} AskedDeliversAll(es: set<Event>, start: Cursor, size: nat, xs: seq<Exchange>)
    requires Indexed(es) && TiesFit(es, CAP) && size >= 1 && AskedOf(es, start, size, xs) && !Fruitful(xs)
    ensures AllDelivered(es, After(start), Flatten(xs))
  {
    var n := |xs| - 1;
    AskedDelivers(es, start, size, xs[..n]);
    CursorFollows(start, xs[..n]);
    DeliversMore(es, After(start), Times(n, size), Flatten(xs[..n]), xs[n]);
    assert Flatten(xs) == Flatten(xs[..n]);
  }

  /** All the events past `after`, in order. */
  ghost predicate AllDelivered(es: set<Event>, after: Option<int>, events: seq<Event>) {
    && (|events| > 0 ==> Covers(es, false, after, LastKey(events), events))
    && forall e :: e in es && Past(false, after, e.key) ==> e in events
  }

  /** The loop: as many requests as the batch takes, or fewer if one brings nothing. */
  method Fetch(backend: Backend, start: Cursor, size: nat, rounds: nat) returns (events: seq<Event>, ghost xs: seq<Exchange>)
    ensures events == Flatten(xs) && Asked(backend, start, size, xs) && |xs| <= rounds
    ensures |xs| < rounds ==> xs != [] && xs[|xs| - 1].Page() == []
  {
    events, xs := [], [];
    var from, iteration := start, 0;
    while iteration < rounds
      invariant |xs| == iteration <= rounds
      invariant Asked(backend, start, size, xs) && (xs != [] ==> xs[|xs| - 1].Page() != [])
      invariant events == Flatten(xs) && from == NextCursor(start, xs)
    {
      var res := backend.GetEvents(from, size, iteration);
      OneRequestMore(backend, start, size, xs, res);
      xs := xs + [res];
      if res.Page() == [] {
        break;
      }
      events := events + res.Page();
      from := TextCursor(LastKey(events));
      iteration := iteration + 1;
    }
  }

  /**
   One call of `scalar_metrics_iter_raw`: enough pages for the batch, each from the text of the last
   key of the events so far. The result starts right after the cursor of the call, splits no key,
   and is shorter than the batch only when nothing is left. It is what the requests `xs` brought: one for
   each 10000 events of the batch, or fewer if one brought nothing.
   */
  method ScalarMetricsIterRaw(backend: Backend, ghost es: set<Event>, start: Cursor, batchSize: nat)
    returns (events: seq<Event>, ghost xs: seq<Exchange>)
    requires backend.Serves(es) && Indexed(es)
    ensures TiesFit(es, 10_000) ==> Delivers(es, After(start), batchSize, events)
    ensures events == Flatten(xs) && Asked(backend, start, if batchSize < 10_000 then batchSize else 10_000, xs)
    ensures |xs| <= (batchSize + 9_999) / 10_000
    ensures |xs| < (batchSize + 9_999) / 10_000 ==> xs != [] && xs[|xs| - 1].Page() == []
  {
    var size := if batchSize < 10_000 then batchSize else 10_000;
    events, xs := Fetch(backend, start, size, (batchSize + 9_999) / 10_000);
    if TiesFit(es, CAP) && size >= 1 {
      AskedOfIndex(backend, es, start, size, xs);
      EnoughRounds(|xs|, batchSize);
      if Fruitful(xs) {
        AskedDelivers(es, start, size, xs);
      } else {
        AskedDeliversAll(es, start, size, xs);
      }
    }
  }
}
