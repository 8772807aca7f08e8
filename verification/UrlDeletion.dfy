/**
 The job that deletes files from storage (jobs/async_urls_delete.py). Records wait in a collection;
 one call of `delete_urls` works through a selection of them, group by group and chunk by chunk, and
 removes, fails or charges a retry to each.
 */
module UrlDeletion {
  import opened Common

  type Id = nat
  type Path = nat

  /** A record: its retries so far, whether it is failed for good, and its last failure. */
  datatype Doc = Doc(retryCount: nat, failed: bool, lastFailure: Option<int>)

  /** One update of the collection, restricted to some ids. */
  datatype Op = Charge(ids: set<Id>) | Fail(ids: set<Id>) | Remove(ids: set<Id>)

  /** How the deployment is configured, and the time that failures are recorded with. */
  datatype Setting = Setting(maxRetries: nat, retryTimeout: int, now: int)

  function Charged(s: Setting, d: Doc): Doc {
    Doc(d.retryCount + 1, d.failed || d.retryCount + 1 >= s.maxRetries, Some(s.now))
  }

  /** What an update makes of one record. */
  function Updated(s: Setting, d: Option<Doc>, op: Op, id: Id): Option<Doc> {
    if d.None? || id !in op.ids then d
    else match op
      case Charge(_) => Some(Charged(s, d.value))
      case Fail(_) => Some(d.value.(failed := true, lastFailure := Some(s.now)))
      case Remove(_) => None
  }

  function Effect(s: Setting, d: Option<Doc>, ops: seq<Op>, id: Id): Option<Doc> {
    if |ops| == 0 then d else Updated(s, Effect(s, d, ops[..|ops| - 1], id), ops[|ops| - 1], id)
  }

  function Lookup(docs: map<Id, Doc>, id: Id): Option<Doc> {
    if id in docs then Some(docs[id]) else None
  }

  // -------------------------------------------------------------------- storage

  /** What `delete_many` answers: an exception, or the deleted paths and the failed ones by reason. */
  datatype Answer = Raised | Answered(deleted: seq<Path>, errors: seq<seq<Path>>)

  /** A storage client: its chunk size, the path of a record (None: it raises), and deletion. */
  datatype Client = Client(chunkSize: nat, path: Id -> Option<Path>, deleteMany: (nat, seq<Path>) -> Answer)

  /** The records of one base; no base at all, or a client that could not be made. */
  datatype Group = Group(hasBase: bool, client: Option<Client>, urls: seq<Id>)

  predicate Usable(g: Group) {
    g.client.Some? ==> g.client.value.chunkSize > 0
  }

  /** `chunked_iter`. */
  function Chunks(urls: seq<Id>, size: nat): seq<seq<Id>>
    requires size > 0
  {
    if |urls| == 0 then []
    else if |urls| <= size then [urls]
    else [urls[..size]] + Chunks(urls[size..], size)
  }

  function IdSet(ids: seq<Id>): set<Id> {
    set i | 0 <= i < |ids| :: ids[i]
  }

  /** The records of a chunk that have a path, and the ones that have this path. */
  function WithPath(c: Client, chunk: seq<Id>): set<Id> {
    set id | id in chunk && c.path(id).Some?
  }

  function AtPath(c: Client, chunk: seq<Id>, p: Path): set<Id> {
    set id | id in chunk && c.path(id) == Some(p)
  }

  function AtPaths(c: Client, chunk: seq<Id>, ps: seq<Path>): set<Id> {
    set id | id in chunk && c.path(id).Some? && c.path(id).value in ps
  }

  /** The paths of a chunk in order, and the records without one. */
  function Paths(c: Client, chunk: seq<Id>): seq<Path> {
    if |chunk| == 0 then []
    else
      var before := Paths(c, chunk[..|chunk| - 1]);
      match c.path(chunk[|chunk| - 1])
      case None => before
      case Some(p) => before + [p]
  }

  function PathFailures(c: Client, chunk: seq<Id>): seq<Op> {
    if |chunk| == 0 then []
    else
      var before := PathFailures(c, chunk[..|chunk| - 1]);
      if c.path(chunk[|chunk| - 1]).None? then before + [Fail({chunk[|chunk| - 1]})] else before
  }

  function ErrorCharges(c: Client, chunk: seq<Id>, errors: seq<seq<Path>>): seq<Op> {
    if |errors| == 0 then []
    else ErrorCharges(c, chunk, errors[..|errors| - 1]) + [Charge(AtPaths(c, chunk, errors[|errors| - 1]))]
  }

  function Errored(c: Client, chunk: seq<Id>, errors: seq<seq<Path>>): set<Id> {
    if |errors| == 0 then {}
    else Errored(c, chunk, errors[..|errors| - 1]) + AtPaths(c, chunk, errors[|errors| - 1])
  }

  // ------------------------------------------------------------- the updates made

  /** The updates for one answer of `delete_many`. */
  function AnswerOps(c: Client, urls: seq<Id>, chunk: seq<Id>, a: Answer): seq<Op> {
    match a
    case Raised => [Charge(IdSet(urls))]
    case Answered(deleted, errors) =>
      var gone := AtPaths(c, chunk, deleted);
      var missing := WithPath(c, chunk) - gone - Errored(c, chunk, errors);
      ErrorCharges(c, chunk, errors)
      + (if gone != {} then [Remove(gone)] else [])
      + (if missing != {} then [Charge(missing)] else [])
  }

  /** The updates for the `n`-th chunk of a group. */
  function ChunkOps(c: Client, urls: seq<Id>, chunk: seq<Id>, n: nat): seq<Op> {
    var paths := Paths(c, chunk);
    PathFailures(c, chunk) + (if paths == [] then [] else AnswerOps(c, urls, chunk, c.deleteMany(n, paths)))
  }

  function ChunksOps(c: Client, urls: seq<Id>, chunks: seq<seq<Id>>): seq<Op> {
    if |chunks| == 0 then []
    else ChunksOps(c, urls, chunks[..|chunks| - 1]) + ChunkOps(c, urls, chunks[|chunks| - 1], |chunks| - 1)
  }

  function GroupOps(g: Group): seq<Op>
    requires Usable(g)
  {
    if !g.hasBase then [Fail(IdSet(g.urls))]
    else match g.client
      case None => [Charge(IdSet(g.urls))]
      case Some(c) => ChunksOps(c, g.urls, Chunks(g.urls, c.chunkSize))
  }

  /** All the updates of one call of `delete_urls`. */
  function CallOps(groups: seq<Group>): seq<Op>
    requires forall g :: g in groups ==> Usable(g)
  {
    if |groups| == 0 then [] else CallOps(groups[..|groups| - 1]) + GroupOps(groups[|groups| - 1])
  }

  /** Every record of `a` became what the updates make of it. */
  ghost predicate Became(s: Setting, a: map<Id, Doc>, b: map<Id, Doc>, ops: seq<Op>) {
    forall id: Id :: Lookup(b, id) == Effect(s, Lookup(a, id), ops, id)
  }

  lemma {:induction false} EffectConcat(s: Setting, d: Option<Doc>, ops: seq<Op>, more: seq<Op>, id: Id)
    ensures Effect(s, d, ops + more, id) == Effect(s, Effect(s, d, ops, id), more, id)
    decreases |more|
  {
    if more == [] {
      assert ops + more == ops;
    } else {
      EffectConcat(s, d, ops, more[..|more| - 1], id);
      assert (ops + more)[..|ops + more| - 1] == ops + more[..|more| - 1];
    }
  }

  lemma BecameThen(s: Setting, a: map<Id, Doc>, b: map<Id, Doc>, c: map<Id, Doc>, ops: seq<Op>, more: seq<Op>)
    requires Became(s, a, b, ops) && Became(s, b, c, more)
    ensures Became(s, a, c, ops + more)
  {
    forall id: Id ensures Lookup(c, id) == Effect(s, Lookup(a, id), ops + more, id) {
      EffectConcat(s, Lookup(a, id), ops, more, id);
    }
  }

  // --------------------------------------------------- selecting and grouping records

  type Base = nat

  /** A kind of storage: the base of a record's URL, and the client for a base and its records (None:
      it cannot be made). */
  datatype Storage = Storage(base: Id -> Option<Base>, client: (Base, seq<Id>) -> Option<Client>)

  ghost predicate Works(st: Storage) {
    forall base: Base, urls: seq<Id> :: Usable(GroupOf(st, Some(base), urls))
  }

  /** What is worked through for one base, or for the records that have none. */
  function GroupOf(st: Storage, base: Option<Base>, urls: seq<Id>): Group {
    match base
    case None => Group(false, None, urls)
    case Some(b) => Group(true, st.client(b, urls), urls)
  }

  /** What is asked for: a company and a storage type, and the order of the records by URL. */
  datatype Query = Query(wanted: Id -> bool, byUrl: seq<Id>)

  /** The record waits for deletion and is asked for. */
  predicate Waits(s: Setting, docs: map<Id, Doc>, q: Query, id: Id) {
    id in docs && Selectable(s, docs[id]) && q.wanted(id)
  }

  const LIMIT: nat := 10000

  function Waiting(s: Setting, docs: map<Id, Doc>, q: Query, ids: seq<Id>): seq<Id> {
    if |ids| == 0 then []
    else Waiting(s, docs, q, ids[..|ids| - 1]) + (if Waits(s, docs, q, ids[|ids| - 1]) then [ids[|ids| - 1]] else [])
  }

  /** The answer to the query, in its order and up to its limit. */
  function Selection(s: Setting, docs: map<Id, Doc>, q: Query): seq<Id> {
    var all := Waiting(s, docs, q, q.byUrl);
    if |all| <= LIMIT then all else all[..LIMIT]
  }

  lemma {:induction false} WaitingWait(s: Setting, docs: map<Id, Doc>, q: Query, ids: seq<Id>)
    ensures forall id :: id in Waiting(s, docs, q, ids) <==> id in ids && Waits(s, docs, q, id)
  {
    if |ids| > 0 {
      WaitingWait(s, docs, q, ids[..|ids| - 1]);
      assert ids == ids[..|ids| - 1] + [ids[|ids| - 1]];
    }
  }

  lemma {:induction false} WaitingInOrder(s: Setting, docs: map<Id, Doc>, q: Query, a: seq<Id>, b: seq<Id>)
    ensures Waiting(s, docs, q, a + b) == Waiting(s, docs, q, a) + Waiting(s, docs, q, b)
    decreases |b|
  {
    if b == [] {
      assert a + b == a;
    } else {
      WaitingInOrder(s, docs, q, a, b[..|b| - 1]);
      assert (a + b)[..|a + b| - 1] == a + b[..|b| - 1];
    }
  }

  /** Only waiting records are selected: the first 10000 in the order of their URLs, or all of them. */
  lemma {:induction false} SelectionWaits(s: Setting, docs: map<Id, Doc>, q: Query)
    requires forall id :: id in docs ==> id in q.byUrl
    ensures forall id :: id in Selection(s, docs, q) ==> Waits(s, docs, q, id)
    ensures |Selection(s, docs, q)| <= 10_000
    ensures |Selection(s, docs, q)| < 10_000 ==> forall id :: Waits(s, docs, q, id) ==> id in Selection(s, docs, q)
    ensures Selection(s, docs, q) <= Waiting(s, docs, q, q.byUrl)
  {
    WaitingWait(s, docs, q, q.byUrl);
  }

  /** The records with this base. */
  function OfBase(st: Storage, urls: seq<Id>, base: Option<Base>): seq<Id> {
    if |urls| == 0 then []
    else OfBase(st, urls[..|urls| - 1], base) + (if st.base(urls[|urls| - 1]) == base then [urls[|urls| - 1]] else [])
  }

  lemma {:induction false} OfBaseHolds(st: Storage, urls: seq<Id>, base: Option<Base>)
    ensures forall id :: id in OfBase(st, urls, base) <==> id in urls && st.base(id) == base
  {
    if |urls| > 0 {
      OfBaseHolds(st, urls[..|urls| - 1], base);
      assert urls == urls[..|urls| - 1] + [urls[|urls| - 1]];
    }
  }

  /** The bases in the order of their first records, each once, and what belongs to each. */
  ghost predicate Bucketized(st: Storage, urls: seq<Id>, bases: seq<Option<Base>>, buckets: map<Option<Base>, seq<Id>>) {
    && (forall i, j :: 0 <= i < j < |bases| ==> bases[i] != bases[j])
    && (forall b :: b in bases <==> b in buckets)
    && (forall b :: Bucket(buckets, b) == OfBase(st, urls, b))
    && (forall b :: b in buckets ==> buckets[b] != [])
  }

  function Bucket(buckets: map<Option<Base>, seq<Id>>, base: Option<Base>): seq<Id> {
    if base in buckets then buckets[base] else []
  }

  /** `bucketize`, as each storage calls it. */
  method GroupUrls(st: Storage, urls: seq<Id>) returns (bases: seq<Option<Base>>, buckets: map<Option<Base>, seq<Id>>)
    ensures Bucketized(st, urls, bases, buckets)
  {
    bases, buckets := [], map[];
    var i := 0;
    while i < |urls|
      invariant i <= |urls|
      invariant Bucketized(st, urls[..i], bases, buckets)
    {
      var base := st.base(urls[i]);
      OneUrlMore(st, urls, i, bases, buckets);
      if base !in buckets {
        bases := bases + [base];
      }
      buckets := buckets[base := Bucket(buckets, base) + [urls[i]]];
      i := i + 1;
    }
    assert urls[..i] == urls;
  }

  lemma OneUrlMore(st: Storage, urls: seq<Id>, i: nat, bases: seq<Option<Base>>, buckets: map<Option<Base>, seq<Id>>)
    requires i < |urls| && Bucketized(st, urls[..i], bases, buckets)
    ensures var base := st.base(urls[i]);
            Bucketized(st, urls[..i + 1], if base in buckets then bases else bases + [base],
                       buckets[base := Bucket(buckets, base) + [urls[i]]])
  {
    var base := st.base(urls[i]);
    var more := buckets[base := Bucket(buckets, base) + [urls[i]]];
    assert urls[..i + 1][..i] == urls[..i];
    forall b ensures Bucket(more, b) == OfBase(st, urls[..i + 1], b) {
      assert Bucket(buckets, b) == OfBase(st, urls[..i], b);
    }
  }

  /** The groups for some bases. */
  function GroupsOf(st: Storage, bases: seq<Option<Base>>, buckets: map<Option<Base>, seq<Id>>): seq<Group> {
    if |bases| == 0 then []
    else
      GroupsOf(st, bases[..|bases| - 1], buckets) + [GroupOf(st, bases[|bases| - 1], Bucket(buckets, bases[|bases| - 1]))]
  }

  lemma {:induction false} GroupsAt(st: Storage, bases: seq<Option<Base>>, buckets: map<Option<Base>, seq<Id>>)
    ensures |GroupsOf(st, bases, buckets)| == |bases|
    ensures forall i :: 0 <= i < |bases| ==> GroupsOf(st, bases, buckets)[i] == GroupOf(st, bases[i], Bucket(buckets, bases[i]))
    decreases |bases|
  {
    if |bases| > 0 {
      GroupsAt(st, bases[..|bases| - 1], buckets);
    }
  }

  /** The groups are those of the selection: each for one of its bases, with the records of that base in
      their order, and each selected record in exactly one of them. */
  ghost predicate Grouped(st: Storage, urls: seq<Id>, groups: seq<Group>) {
    && (forall g :: g in groups ==> Usable(g) && OfSomeBase(st, urls, g))
    && (forall id :: id in urls <==> InGroups(groups, id))
    && Apart(groups)
  }

  ghost predicate OfSomeBase(st: Storage, urls: seq<Id>, g: Group) {
    exists base :: g == GroupOf(st, base, OfBase(st, urls, base))
  }

  ghost predicate Apart(groups: seq<Group>) {
    forall i, j, id :: 0 <= i < j < |groups| && id in groups[i].urls ==> id !in groups[j].urls
  }

  /** The group at `i` is that of its base. */
  lemma GroupAt(st: Storage, urls: seq<Id>, bases: seq<Option<Base>>, buckets: map<Option<Base>, seq<Id>>, i: nat)
    requires Works(st) && Bucketized(st, urls, bases, buckets) && i < |bases|
    ensures |GroupsOf(st, bases, buckets)| == |bases|
    ensures var g := GroupsOf(st, bases, buckets)[i];
            && Usable(g) && g == GroupOf(st, bases[i], OfBase(st, urls, bases[i]))
            && forall id :: id in g.urls <==> id in urls && st.base(id) == bases[i]
  {
    GroupsAt(st, bases, buckets);
    assert Bucket(buckets, bases[i]) == OfBase(st, urls, bases[i]);
    OfBaseHolds(st, urls, bases[i]);
    if bases[i].Some? {
      assert Usable(GroupOf(st, Some(bases[i].value), OfBase(st, urls, bases[i])));
    }
  }

  lemma IsGrouped(st: Storage, urls: seq<Id>, bases: seq<Option<Base>>, buckets: map<Option<Base>, seq<Id>>, id: Id)
    requires Works(st) && Bucketized(st, urls, bases, buckets) && id in urls
    ensures InGroups(GroupsOf(st, bases, buckets), id)
  {
    var base := st.base(id);
    OfBaseHolds(st, urls, base);
    assert Bucket(buckets, base) == OfBase(st, urls, base);
    assert base in buckets;
    var i :| 0 <= i < |bases| && bases[i] == base;
    GroupAt(st, urls, bases, buckets, i);
    assert GroupsOf(st, bases, buckets)[i] in GroupsOf(st, bases, buckets);
  }

  lemma BasesApart(st: Storage, urls: seq<Id>, bases: seq<Option<Base>>, buckets: map<Option<Base>, seq<Id>>)
    requires Works(st) && Bucketized(st, urls, bases, buckets)
    ensures Apart(GroupsOf(st, bases, buckets))
  {
    var groups := GroupsOf(st, bases, buckets);
    GroupsAt(st, bases, buckets);
    forall i, j, id | 0 <= i < j < |groups| && id in groups[i].urls ensures id !in groups[j].urls {
      GroupAt(st, urls, bases, buckets, i);
      GroupAt(st, urls, bases, buckets, j);
    }
  }

  lemma GroupOfSomeBase(st: Storage, urls: seq<Id>, bases: seq<Option<Base>>, buckets: map<Option<Base>, seq<Id>>, g: Group)
    requires Works(st) && Bucketized(st, urls, bases, buckets) && g in GroupsOf(st, bases, buckets)
    ensures Usable(g) && OfSomeBase(st, urls, g) && forall id :: id in g.urls ==> id in urls
  {
    GroupsAt(st, bases, buckets);
    var i :| 0 <= i < |bases| && GroupsOf(st, bases, buckets)[i] == g;
    GroupAt(st, urls, bases, buckets, i);
  }

  lemma {:induction false} BucketsAreGroups(st: Storage, urls: seq<Id>, bases: seq<Option<Base>>, buckets: map<Option<Base>, seq<Id>>)
    requires Works(st) && Bucketized(st, urls, bases, buckets)
    ensures Grouped(st, urls, GroupsOf(st, bases, buckets))
  {
    var groups := GroupsOf(st, bases, buckets);
    BasesApart(st, urls, bases, buckets);
    forall g | g in groups ensures Usable(g) && OfSomeBase(st, urls, g) && forall id :: id in g.urls ==> id in urls {
      GroupOfSomeBase(st, urls, bases, buckets, g);
    }
    forall id | id in urls ensures InGroups(groups, id) {
      IsGrouped(st, urls, bases, buckets, id);
    }
  }

  // ------------------------------------------------------------------ the job

  /** `path_to_id_mapping` after a prefix of the chunk. */
  ghost predicate Maps(c: Client, chunk: seq<Id>, mapping: map<Path, set<Id>>) {
    forall p: Path :: At(mapping, p) == AtPath(c, chunk, p)
  }

  function At(mapping: map<Path, set<Id>>, p: Path): set<Id> {
    if p in mapping then mapping[p] else {}
  }

  function AllAt(mapping: map<Path, set<Id>>, ps: seq<Path>): set<Id> {
    if |ps| == 0 then {} else AllAt(mapping, ps[..|ps| - 1]) + At(mapping, ps[|ps| - 1])
  }

  lemma {:induction false} AllAtIsAtPaths(c: Client, chunk: seq<Id>, mapping: map<Path, set<Id>>, ps: seq<Path>)
    requires Maps(c, chunk, mapping)
    ensures AllAt(mapping, ps) == AtPaths(c, chunk, ps)
  {
    if |ps| > 0 {
      var p := ps[|ps| - 1];
      AllAtIsAtPaths(c, chunk, mapping, ps[..|ps| - 1]);
      assert ps == ps[..|ps| - 1] + [p];
      assert At(mapping, p) == AtPath(c, chunk, p);
    } else {
      assert AtPaths(c, chunk, ps) == {};
    }
  }

  lemma PrefixGrows(c: Client, chunk: seq<Id>, i: nat, mapping: map<Path, set<Id>>)
    requires i < |chunk| && Maps(c, chunk[..i], mapping)
    ensures var id := chunk[i];
            match c.path(id)
            case None => WithPath(c, chunk[..i + 1]) == WithPath(c, chunk[..i]) && Maps(c, chunk[..i + 1], mapping)
            case Some(p) => WithPath(c, chunk[..i + 1]) == WithPath(c, chunk[..i]) + {id}
                            && Maps(c, chunk[..i + 1], mapping[p := At(mapping, p) + {id}])
  {
    var id := chunk[i];
    assert chunk[..i + 1] == chunk[..i] + [id];
    assert forall x :: x in chunk[..i + 1] <==> x in chunk[..i] || x == id;
    forall p: Path ensures
        AtPath(c, chunk[..i + 1], p) == AtPath(c, chunk[..i], p) + (if c.path(id) == Some(p) then {id} else {}) {
      assert At(mapping, p) == AtPath(c, chunk[..i], p);
    }
    if c.path(id).Some? {
      var p := c.path(id).value;
      var grown := mapping[p := At(mapping, p) + {id}];
      forall q: Path ensures At(grown, q) == AtPath(c, chunk[..i + 1], q) {
        assert At(mapping, q) == AtPath(c, chunk[..i], q);
      }
    } else {
      forall q: Path ensures At(mapping, q) == AtPath(c, chunk[..i + 1], q) {
        assert At(mapping, q) == AtPath(c, chunk[..i], q);
      }
    }
  }

  /** The collection of records. */
  class UrlStore {
    var docs: map<Id, Doc>

    /** Charge a retry, and fail the records that have none left. */
    method MarkRetryFailed(s: Setting, ids: set<Id>)
      modifies this
      ensures Became(s, old(docs), docs, [Charge(ids)])
    {
      docs := map id | id in docs ::
        if id in ids then docs[id].(retryCount := docs[id].retryCount + 1, lastFailure := Some(s.now)) else docs[id];
      docs := map id | id in docs ::
        if id in ids && docs[id].retryCount >= s.maxRetries then docs[id].(failed := true) else docs[id];
    }

    method MarkFailed(s: Setting, ids: set<Id>)
      modifies this
      ensures Became(s, old(docs), docs, [Fail(ids)])
    {
      docs := map id | id in docs ::
        if id in ids then docs[id].(failed := true, lastFailure := Some(s.now)) else docs[id];
    }

    method Delete(s: Setting, ids: set<Id>)
      modifies this
      ensures Became(s, old(docs), docs, [Remove(ids)])
    {
      docs := map id | id in docs && id !in ids :: docs[id];
    }

    /** The paths of a chunk; records whose path cannot be made out are failed. */
    method GetPaths(s: Setting, c: Client, chunk: seq<Id>)
      returns (paths: seq<Path>, mapping: map<Path, set<Id>>, ids: set<Id>)
      modifies this
      ensures Became(s, old(docs), docs, PathFailures(c, chunk))
      ensures paths == Paths(c, chunk) && Maps(c, chunk, mapping) && ids == WithPath(c, chunk)
    {
      paths, mapping, ids := [], map[], {};
      var i := 0;
      while i < |chunk|
        invariant i <= |chunk|
        invariant Became(s, old(docs), docs, PathFailures(c, chunk[..i]))
        invariant paths == Paths(c, chunk[..i]) && Maps(c, chunk[..i], mapping) && ids == WithPath(c, chunk[..i])
      {
        var id := chunk[i];
        ghost var was := docs;
        PrefixGrows(c, chunk, i, mapping);
        assert chunk[..i + 1][..i] == chunk[..i];
        match c.path(id) {
          case None =>
            MarkFailed(s, {id});
            BecameThen(s, old(docs), was, docs, PathFailures(c, chunk[..i]), [Fail({id})]);
          case Some(p) =>
            paths := paths + [p];
            mapping := mapping[p := At(mapping, p) + {id}];
            ids := ids + {id};
        }
        i := i + 1;
      }
      assert chunk[..i] == chunk;
    }

    /** Charge the records of the paths that could not be deleted, reason by reason. */
    method ChargeErrors(s: Setting, ghost c: Client, ghost chunk: seq<Id>, mapping: map<Path, set<Id>>, errors: seq<seq<Path>>)
      returns (failed: set<Id>)
      requires Maps(c, chunk, mapping)
      modifies this
      ensures Became(s, old(docs), docs, ErrorCharges(c, chunk, errors))
      ensures failed == Errored(c, chunk, errors)
    {
      failed := {};
      var i := 0;
      while i < |errors|
        invariant i <= |errors|
        invariant Became(s, old(docs), docs, ErrorCharges(c, chunk, errors[..i]))
        invariant failed == Errored(c, chunk, errors[..i])
      {
        ghost var was := docs;
        var ids := AllAt(mapping, errors[i]);
        AllAtIsAtPaths(c, chunk, mapping, errors[i]);
        MarkRetryFailed(s, ids);
        failed := failed + ids;
        assert errors[..i + 1][..i] == errors[..i];
        BecameThen(s, old(docs), was, docs, ErrorCharges(c, chunk, errors[..i]), [Charge(ids)]);
        i := i + 1;
      }
      assert errors[..i] == errors;
    }

    /** One chunk of a group; an exception in `delete_many` charges the whole group. */
    method DeleteChunk(s: Setting, c: Client, urls: seq<Id>, chunk: seq<Id>, n: nat)
      modifies this
      ensures Became(s, old(docs), docs, ChunkOps(c, urls, chunk, n))
    {
      var paths, mapping, ids := GetPaths(s, c, chunk);
      ghost var failures := PathFailures(c, chunk);
      if paths == [] {
        assert failures + [] == failures;
        return;
      }
      ghost var first := docs;
      var answer := c.deleteMany(n, paths);
      match answer {
        case Raised =>
          MarkRetryFailed(s, IdSet(urls));
        case Answered(deleted, errors) =>
          Settle(s, c, urls, chunk, mapping, ids, deleted, errors);
      }
      BecameThen(s, old(docs), first, docs, failures, AnswerOps(c, urls, chunk, answer));
    }

    /** The records of a chunk after its answer: errors charged, deleted removed, the others charged. */
    method Settle(s: Setting, ghost c: Client, ghost urls: seq<Id>, ghost chunk: seq<Id>,
                  mapping: map<Path, set<Id>>, ids: set<Id>, deleted: seq<Path>, errors: seq<seq<Path>>)
      requires Maps(c, chunk, mapping) && ids == WithPath(c, chunk)
      modifies this
      ensures Became(s, old(docs), docs, AnswerOps(c, urls, chunk, Answered(deleted, errors)))
    {
      var failed := ChargeErrors(s, c, chunk, mapping, errors);
      ghost var charged := docs;
      var gone := AllAt(mapping, deleted);
      AllAtIsAtPaths(c, chunk, mapping, deleted);
      ghost var removal := if gone != {} then [Remove(gone)] else [];
      if gone != {} {
        Delete(s, gone);
      }
      ghost var removed := docs;
      var missing := ids - gone - failed;
      ghost var rest := if missing != {} then [Charge(missing)] else [];
      if missing != {} {
        MarkRetryFailed(s, missing);
      }
      BecameThen(s, old(docs), charged, removed, ErrorCharges(c, chunk, errors), removal);
      BecameThen(s, old(docs), removed, docs, ErrorCharges(c, chunk, errors) + removal, rest);
    }

    method DeleteGroup(s: Setting, g: Group)
      requires Usable(g)
      modifies this
      ensures Became(s, old(docs), docs, GroupOps(g))
    {
      if !g.hasBase {
        MarkFailed(s, IdSet(g.urls));
        return;
      }
      if g.client.None? {
        MarkRetryFailed(s, IdSet(g.urls));
        return;
      }
      var c := g.client.value;
      var chunks, n := Chunks(g.urls, c.chunkSize), 0;
      while n < |chunks|
        invariant n <= |chunks|
        invariant Became(s, old(docs), docs, ChunksOps(c, g.urls, chunks[..n]))
      {
        ghost var was := docs;
        DeleteChunk(s, c, g.urls, chunks[n], n);
        assert chunks[..n + 1][..n] == chunks[..n];
        BecameThen(s, old(docs), was, docs, ChunksOps(c, g.urls, chunks[..n]), ChunkOps(c, g.urls, chunks[n], n));
        n := n + 1;
      }
      assert chunks[..n] == chunks;
    }

    /** The loop of `delete_urls`, base after base. */
    method DeleteBases(s: Setting, st: Storage, bases: seq<Option<Base>>, buckets: map<Option<Base>, seq<Id>>,
                       ghost groups: seq<Group>)
      requires |groups| == |bases| && forall g :: g in groups ==> Usable(g)
      requires forall i :: 0 <= i < |bases| ==> groups[i] == GroupOf(st, bases[i], Bucket(buckets, bases[i]))
      modifies this
      ensures Became(s, old(docs), docs, CallOps(groups))
    {
      var i := 0;
      while i < |bases|
        invariant i <= |bases|
        invariant Became(s, old(docs), docs, CallOps(groups[..i]))
      {
        ghost var was := docs;
        DeleteGroup(s, GroupOf(st, bases[i], Bucket(buckets, bases[i])));
        assert groups[..i + 1][..i] == groups[..i];
        BecameThen(s, old(docs), was, docs, CallOps(groups[..i]), GroupOps(groups[i]));
        i := i + 1;
      }
      assert groups[..i] == groups;
    }

    /** `delete_urls`: the records that the query selects, grouped by the base of their URL, worked
        through group after group. */
    method DeleteUrls(s: Setting, st: Storage, q: Query) returns (ghost groups: seq<Group>)
      requires Works(st) && forall id :: id in docs ==> id in q.byUrl
      modifies this
      ensures Grouped(st, Selection(s, old(docs), q), groups)
      ensures Became(s, old(docs), docs, CallOps(groups))
      ensures Outcome(s, st, q, old(docs), docs)
    {
      var urls := Selection(s, docs, q);
      var bases, buckets := GroupUrls(st, urls);
      groups := GroupsOf(st, bases, buckets);
      BucketsAreGroups(st, urls, bases, buckets);
      GroupsAt(st, bases, buckets);
      DeleteBases(s, st, bases, buckets, groups);
      CallHasOutcome(s, st, q, old(docs), docs, groups);
    }
  }

  // ------------------------------------------------- a call in closed form, per record

  function Charges(ops: seq<Op>, id: Id): nat {
    if |ops| == 0 then 0
    else Charges(ops[..|ops| - 1], id) + (if ops[|ops| - 1].Charge? && id in ops[|ops| - 1].ids then 1 else 0)
  }

  predicate Touched(ops: seq<Op>, id: Id) {
    exists op :: op in ops && id in op.ids
  }

  predicate Failed(ops: seq<Op>, id: Id) {
    exists op :: op in ops && op.Fail? && id in op.ids
  }

  predicate Removed(ops: seq<Op>, id: Id) {
    exists op :: op in ops && op.Remove? && id in op.ids
  }

  /** What the updates make of a record does not depend on their order. */
  lemma {:induction false} EffectIsCounted(s: Setting, d: Doc, ops: seq<Op>, id: Id)
    ensures Effect(s, Some(d), ops, id) ==
              if Removed(ops, id) then None
              else Some(Doc(d.retryCount + Charges(ops, id),
                            d.failed || Failed(ops, id) || (Charges(ops, id) > 0 && d.retryCount + Charges(ops, id) >= s.maxRetries),
                            if Touched(ops, id) then Some(s.now) else d.lastFailure))
  {
    if |ops| > 0 {
      var before, op := ops[..|ops| - 1], ops[|ops| - 1];
      EffectIsCounted(s, d, before, id);
      assert ops == before + [op];
      assert forall o :: o in ops <==> o in before || o == op;
    }
  }

  lemma {:induction false} NothingBecomesOfNothing(s: Setting, ops: seq<Op>, id: Id)
    ensures Effect(s, None, ops, id) == None
  {
    if |ops| > 0 {
      NothingBecomesOfNothing(s, ops[..|ops| - 1], id);
    }
  }

  lemma {:induction false} ChargesConcat(a: seq<Op>, b: seq<Op>, id: Id)
    ensures Charges(a + b, id) == Charges(a, id) + Charges(b, id)
    decreases |b|
  {
    if b == [] {
      assert a + b == a;
    } else {
      ChargesConcat(a, b[..|b| - 1], id);
      assert (a + b)[..|a + b| - 1] == a + b[..|b| - 1];
    }
  }

  // ------------------------------------------------- which records a call touches

  lemma {:induction false} PathFailuresTouch(c: Client, chunk: seq<Id>)
    ensures forall op :: op in PathFailures(c, chunk) <==>
              exists id :: id in chunk && c.path(id).None? && op == Fail({id})
    ensures forall id :: Charges(PathFailures(c, chunk), id) == 0
  {
    if |chunk| > 0 {
      var last := chunk[|chunk| - 1];
      PathFailuresTouch(c, chunk[..|chunk| - 1]);
      assert chunk == chunk[..|chunk| - 1] + [last];
    }
  }

  /** How many reasons list this path. */
  function ErrorCount(errors: seq<seq<Path>>, p: Path): nat {
    if |errors| == 0 then 0
    else ErrorCount(errors[..|errors| - 1], p) + (if p in errors[|errors| - 1] then 1 else 0)
  }

  lemma {:induction false} ErrorChargesTouch(c: Client, chunk: seq<Id>, errors: seq<seq<Path>>, id: Id)
    ensures forall op :: op in ErrorCharges(c, chunk, errors) ==> op.Charge? && op.ids <= IdSet(chunk)
    ensures Touched(ErrorCharges(c, chunk, errors), id) <==> id in Errored(c, chunk, errors)
    ensures id in chunk && c.path(id).Some? ==>
              Charges(ErrorCharges(c, chunk, errors), id) == ErrorCount(errors, c.path(id).value)
    ensures id !in chunk || c.path(id).None? ==> Charges(ErrorCharges(c, chunk, errors), id) == 0
    ensures id in Errored(c, chunk, errors) <==>
              id in chunk && c.path(id).Some? && ErrorCount(errors, c.path(id).value) > 0
  {
    if |errors| > 0 {
      var before := errors[..|errors| - 1];
      ErrorChargesTouch(c, chunk, before, id);
      var op := Charge(AtPaths(c, chunk, errors[|errors| - 1]));
      assert forall o :: o in ErrorCharges(c, chunk, errors) <==> o in ErrorCharges(c, chunk, before) || o == op;
      assert op.ids <= IdSet(chunk);
    }
  }

  lemma {:induction false} PathsEmpty(c: Client, chunk: seq<Id>)
    ensures Paths(c, chunk) == [] <==> forall id :: id in chunk ==> c.path(id).None?
  {
    if |chunk| > 0 {
      PathsEmpty(c, chunk[..|chunk| - 1]);
      assert chunk == chunk[..|chunk| - 1] + [chunk[|chunk| - 1]];
    }
  }

  predicate Raises(c: Client, chunk: seq<Id>, n: nat) {
    Paths(c, chunk) != [] && c.deleteMany(n, Paths(c, chunk)).Raised?
  }

  /** The record's own path was reported deleted. */
  predicate Reported(c: Client, chunk: seq<Id>, n: nat, id: Id) {
    && id in chunk && c.path(id).Some?
    && var a := c.deleteMany(n, Paths(c, chunk));
       a.Answered? && c.path(id).value in a.deleted
  }

  /** The retries charged to a record by the answer to its own chunk. */
  function OwnCharges(c: Client, chunk: seq<Id>, n: nat, id: Id): nat {
    var a := c.deleteMany(n, Paths(c, chunk));
    if id !in chunk || c.path(id).None? || a.Raised? then 0
    else
      var reasons := ErrorCount(a.errors, c.path(id).value);
      if reasons == 0 && c.path(id).value !in a.deleted then 1 else reasons
  }

  lemma TouchedConcat(a: seq<Op>, b: seq<Op>, id: Id)
    ensures Touched(a + b, id) <==> Touched(a, id) || Touched(b, id)
    ensures Removed(a + b, id) <==> Removed(a, id) || Removed(b, id)
    ensures Failed(a + b, id) <==> Failed(a, id) || Failed(b, id)
  {
    assert forall op :: op in a + b <==> op in a || op in b;
  }

  lemma AnswerTouches(c: Client, urls: seq<Id>, chunk: seq<Id>, deleted: seq<Path>, errors: seq<seq<Path>>, id: Id)
    ensures var ops := AnswerOps(c, urls, chunk, Answered(deleted, errors));
            && !Failed(ops, id) && (Touched(ops, id) ==> id in chunk)
            && (Removed(ops, id) <==> id in AtPaths(c, chunk, deleted))
            && (id in WithPath(c, chunk) ==> Touched(ops, id))
  {
    ErrorChargesTouch(c, chunk, errors, id);
    var charges := ErrorCharges(c, chunk, errors);
    var gone := AtPaths(c, chunk, deleted);
    var missing := WithPath(c, chunk) - gone - Errored(c, chunk, errors);
    var removal := if gone != {} then [Remove(gone)] else [];
    var rest := if missing != {} then [Charge(missing)] else [];
    TouchedConcat(charges, removal, id);
    TouchedConcat(charges + removal, rest, id);
    OneOp(removal, Remove(gone), id);
    OneOp(rest, Charge(missing), id);
  }

  lemma OneOp(ops: seq<Op>, op: Op, id: Id)
    requires ops == if op.ids != {} then [op] else []
    ensures Touched(ops, id) <==> id in op.ids
    ensures Removed(ops, id) <==> op.Remove? && id in op.ids
    ensures Failed(ops, id) <==> op.Fail? && id in op.ids
  {
    if op.ids != {} {
      assert ops[0] == op;
    }
  }

  lemma OneCharge(ops: seq<Op>, op: Op, id: Id)
    requires ops == if op.ids != {} then [op] else []
    ensures Charges(ops, id) == if op.Charge? && id in op.ids then 1 else 0
  {
    if op.ids != {} {
      assert ops[..0] == [];
    }
  }

  lemma AnswerCharges(c: Client, urls: seq<Id>, chunk: seq<Id>, deleted: seq<Path>, errors: seq<seq<Path>>, id: Id)
    ensures Charges(AnswerOps(c, urls, chunk, Answered(deleted, errors)), id) ==
              if id !in chunk || c.path(id).None? then 0
              else if ErrorCount(errors, c.path(id).value) == 0 && c.path(id).value !in deleted then 1
              else ErrorCount(errors, c.path(id).value)
  {
    ErrorChargesTouch(c, chunk, errors, id);
    var gone := AtPaths(c, chunk, deleted);
    var missing := WithPath(c, chunk) - gone - Errored(c, chunk, errors);
    var removal := if gone != {} then [Remove(gone)] else [];
    var rest := if missing != {} then [Charge(missing)] else [];
    ChargesConcat(ErrorCharges(c, chunk, errors), removal, id);
    ChargesConcat(ErrorCharges(c, chunk, errors) + removal, rest, id);
    OneCharge(removal, Remove(gone), id);
    OneCharge(rest, Charge(missing), id);
  }

  /** The updates for a chunk: whom they touch, remove and charge. */
  lemma ChunkTouches(c: Client, urls: seq<Id>, chunk: seq<Id>, n: nat, id: Id)
    requires forall x :: x in chunk ==> x in urls
    ensures var ops := ChunkOps(c, urls, chunk, n);
            && (Touched(ops, id) ==> id in urls)
            && (id in chunk ==> Touched(ops, id))
            && (Removed(ops, id) <==> Reported(c, chunk, n, id))
  {
    var paths := Paths(c, chunk);
    PathFailuresTouch(c, chunk);
    PathsEmpty(c, chunk);
    var ops, failures := ChunkOps(c, urls, chunk, n), PathFailures(c, chunk);
    if id in chunk && c.path(id).None? {
      assert Fail({id}) in failures && Fail({id}) in ops;
    }
    if paths != [] {
      var a := c.deleteMany(n, paths);
      if a.Answered? {
        AnswerTouches(c, urls, chunk, a.deleted, a.errors, id);
      } else {
        assert AnswerOps(c, urls, chunk, a) == [Charge(IdSet(urls))];
        assert Charge(IdSet(urls)) in AnswerOps(c, urls, chunk, a);
      }
      TouchedConcat(failures, AnswerOps(c, urls, chunk, a), id);
    }
  }

  /** A raising chunk charges every record of the group, whichever chunk it is in. */
  lemma ChunkCharges(c: Client, urls: seq<Id>, chunk: seq<Id>, n: nat, id: Id)
    requires id in urls
    ensures Charges(ChunkOps(c, urls, chunk, n), id) ==
              if Raises(c, chunk, n) then 1 else OwnCharges(c, chunk, n, id)
  {
    var paths := Paths(c, chunk);
    PathFailuresChargeNothing(c, chunk, id);
    if paths != [] {
      var a := c.deleteMany(n, paths);
      ChargesConcat(PathFailures(c, chunk), AnswerOps(c, urls, chunk, a), id);
      if a.Answered? {
        AnswerCharges(c, urls, chunk, a.deleted, a.errors, id);
      } else {
        OneCharge([Charge(IdSet(urls))], Charge(IdSet(urls)), id);
      }
    } else {
      assert PathFailures(c, chunk) + [] == PathFailures(c, chunk);
      NobodyAsked(c, chunk, id);
    }
  }

  lemma PathFailuresChargeNothing(c: Client, chunk: seq<Id>, id: Id)
    ensures Charges(PathFailures(c, chunk), id) == 0
  {
    PathFailuresTouch(c, chunk);
  }

  lemma NobodyAsked(c: Client, chunk: seq<Id>, id: Id)
    requires Paths(c, chunk) == []
    ensures id !in chunk || c.path(id).None?
  {
    PathsEmpty(c, chunk);
  }

  function RaisingChunks(c: Client, chunks: seq<seq<Id>>): nat {
    if |chunks| == 0 then 0
    else RaisingChunks(c, chunks[..|chunks| - 1]) + (if Raises(c, chunks[|chunks| - 1], |chunks| - 1) then 1 else 0)
  }

  function AllOwnCharges(c: Client, chunks: seq<seq<Id>>, id: Id): nat {
    if |chunks| == 0 then 0
    else AllOwnCharges(c, chunks[..|chunks| - 1], id) + OwnCharges(c, chunks[|chunks| - 1], |chunks| - 1, id)
  }

  predicate ReportedIn(c: Client, chunks: seq<seq<Id>>, id: Id) {
    exists n :: 0 <= n < |chunks| && Reported(c, chunks[n], n, id)
  }

  predicate Listed(chunks: seq<seq<Id>>, id: Id) {
    exists n :: 0 <= n < |chunks| && id in chunks[n]
  }

  lemma {:induction false} ChunksList(urls: seq<Id>, size: nat, id: Id)
    requires size > 0
    ensures id in urls <==> Listed(Chunks(urls, size), id)
    decreases |urls|
  {
    if 0 < |urls| <= size {
      assert Chunks(urls, size)[0] == urls;
    } else if |urls| > size {
      var rest := Chunks(urls[size..], size);
      ChunksList(urls[size..], size, id);
      assert urls == urls[..size] + urls[size..];
      assert forall n :: 0 <= n < |rest| ==> Chunks(urls, size)[n + 1] == rest[n];
      assert Chunks(urls, size)[0] == urls[..size];
    }
  }

  /** The chunks hold nothing but records of the group. */
  ghost predicate Within(chunks: seq<seq<Id>>, urls: seq<Id>) {
    forall id: Id :: Listed(chunks, id) ==> id in urls
  }

  lemma LastChunk(c: Client, chunks: seq<seq<Id>>, id: Id)
    requires |chunks| > 0
    ensures var n := |chunks| - 1;
            && (Listed(chunks, id) <==> Listed(chunks[..n], id) || id in chunks[n])
            && (ReportedIn(c, chunks, id) <==> ReportedIn(c, chunks[..n], id) || Reported(c, chunks[n], n, id))
  {
    var n := |chunks| - 1;
    assert forall m :: 0 <= m < n ==> chunks[..n][m] == chunks[m];
  }

  lemma {:induction false} ChunksTouch(c: Client, urls: seq<Id>, chunks: seq<seq<Id>>, id: Id)
    requires Within(chunks, urls)
    ensures Touched(ChunksOps(c, urls, chunks), id) ==> id in urls
    ensures Listed(chunks, id) ==> Touched(ChunksOps(c, urls, chunks), id)
    ensures Removed(ChunksOps(c, urls, chunks), id) <==> ReportedIn(c, chunks, id)
  {
    if |chunks| > 0 {
      var n := |chunks| - 1;
      var before, last := chunks[..n], chunks[n];
      forall x: Id ensures (Listed(before, x) ==> x in urls) && (x in last ==> x in urls) {
        LastChunk(c, chunks, x);
      }
      LastChunk(c, chunks, id);
      ChunksTouch(c, urls, before, id);
      ChunkTouches(c, urls, last, n, id);
      TouchedConcat(ChunksOps(c, urls, before), ChunkOps(c, urls, last, n), id);
    }
  }

  lemma {:induction false} ChunksCharge(c: Client, urls: seq<Id>, chunks: seq<seq<Id>>, id: Id)
    requires id in urls
    ensures Charges(ChunksOps(c, urls, chunks), id) == RaisingChunks(c, chunks) + AllOwnCharges(c, chunks, id)
  {
    if |chunks| > 0 {
      var n := |chunks| - 1;
      ChunksCharge(c, urls, chunks[..n], id);
      ChunkCharges(c, urls, chunks[n], n, id);
      ChargesConcat(ChunksOps(c, urls, chunks[..n]), ChunkOps(c, urls, chunks[n], n), id);
    }
  }

  /** A record of this group was reported deleted under its own path. */
  predicate ReportedByGroup(g: Group, id: Id)
    requires Usable(g)
  {
    g.hasBase && g.client.Some? && ReportedIn(g.client.value, Chunks(g.urls, g.client.value.chunkSize), id)
  }

  lemma GroupTouches(g: Group, id: Id)
    requires Usable(g)
    ensures Touched(GroupOps(g), id) <==> id in g.urls
    ensures Removed(GroupOps(g), id) <==> ReportedByGroup(g, id)
  {
    if g.hasBase && g.client.Some? {
      var c := g.client.value;
      var chunks := Chunks(g.urls, c.chunkSize);
      forall x: Id ensures Listed(chunks, x) ==> x in g.urls {
        ChunksList(g.urls, c.chunkSize, x);
      }
      ChunksList(g.urls, c.chunkSize, id);
      ChunksTouch(c, g.urls, chunks, id);
    } else {
      assert GroupOps(g)[0].ids == IdSet(g.urls);
    }
  }

  ghost predicate InGroups(groups: seq<Group>, id: Id) {
    exists g :: g in groups && id in g.urls
  }

  ghost predicate ReportedDeleted(groups: seq<Group>, id: Id)
    requires forall g :: g in groups ==> Usable(g)
  {
    exists g :: g in groups && ReportedByGroup(g, id)
  }

  /** A call touches exactly the selected records, and removes those reported under their own path. */
  lemma {:induction false} CallTouches(groups: seq<Group>, id: Id)
    requires forall g :: g in groups ==> Usable(g)
    ensures Touched(CallOps(groups), id) <==> InGroups(groups, id)
    ensures Removed(CallOps(groups), id) <==> ReportedDeleted(groups, id)
  {
    if |groups| > 0 {
      var before, last := groups[..|groups| - 1], groups[|groups| - 1];
      assert groups == before + [last];
      assert forall g :: g in groups <==> g in before || g == last;
      CallTouches(before, id);
      GroupTouches(last, id);
      TouchedConcat(CallOps(before), GroupOps(last), id);
    }
  }

  // ---------------------------------------------------- what a call does to the records

  /** The query of `run_delete_loop`. */
  predicate Selectable(s: Setting, d: Doc) {
    && !d.failed && d.retryCount < s.maxRetries
    && (d.lastFailure.Some? ==> d.lastFailure.value < s.now - s.retryTimeout)
  }

  /** The groups hold only records that the query selects. */
  ghost predicate Selects(s: Setting, docs: map<Id, Doc>, groups: seq<Group>) {
    && (forall g :: g in groups ==> Usable(g))
    && (forall g, id :: g in groups && id in g.urls ==> id in docs && Selectable(s, docs[id]))
  }

  /** So do those of a selection. */
  lemma SelectionSelects(s: Setting, docs: map<Id, Doc>, st: Storage, q: Query, groups: seq<Group>)
    requires (forall id :: id in docs ==> id in q.byUrl) && Grouped(st, Selection(s, docs, q), groups)
    ensures Selects(s, docs, groups)
    ensures (exists id: Id :: Waits(s, docs, q, id)) <==> (exists id: Id :: InGroups(groups, id))
  {
    SelectionWaits(s, docs, q);
    forall g, id | g in groups && id in g.urls ensures id in docs && Selectable(s, docs[id]) {
      assert InGroups(groups, id);
      assert Waits(s, docs, q, id);
    }
    if id: Id :| Waits(s, docs, q, id) {
      assert Selection(s, docs, q) != [];
      assert InGroups(groups, Selection(s, docs, q)[0]);
    }
  }

  /** A record is failed when its retries are used up. */
  predicate Sound(maxRetries: nat, docs: map<Id, Doc>) {
    forall id :: id in docs && !docs[id].failed ==> docs[id].retryCount < maxRetries
  }

  /** Each selected record is removed, failed, or charged; a record is removed if and only if its own
      path was reported deleted; every other record is left as it was. */
  lemma CallSettles(s: Setting, a: map<Id, Doc>, b: map<Id, Doc>, groups: seq<Group>, id: Id)
    requires Selects(s, a, groups) && Became(s, a, b, CallOps(groups))
    ensures id in a ==> (id !in b <==> ReportedDeleted(groups, id))
    ensures id in b ==> id in a
    ensures id in b && InGroups(groups, id) ==> b[id].failed || b[id].retryCount > a[id].retryCount
    ensures id in b && InGroups(groups, id) ==> b[id].lastFailure == Some(s.now)
    ensures id in b && !InGroups(groups, id) ==> b[id] == a[id]
  {
    var ops := CallOps(groups);
    CallTouches(groups, id);
    assert Lookup(b, id) == Effect(s, Lookup(a, id), ops, id);
    if id in a {
      EffectIsCounted(s, a[id], ops, id);
      if Touched(ops, id) {
        TouchedHow(ops, id);
      } else {
        UntouchedHow(ops, id);
      }
    } else {
      NothingBecomesOfNothing(s, ops, id);
    }
  }

  lemma {:induction false} TouchedHow(ops: seq<Op>, id: Id)
    requires Touched(ops, id)
    ensures Charges(ops, id) > 0 || Failed(ops, id) || Removed(ops, id)
  {
    var before, last := ops[..|ops| - 1], ops[|ops| - 1];
    assert ops == before + [last];
    TouchedConcat(before, [last], id);
    ChargesConcat(before, [last], id);
    if Touched(before, id) {
      TouchedHow(before, id);
    } else {
      assert last in [last];
      assert id in last.ids;
    }
  }

  lemma {:induction false} UntouchedHow(ops: seq<Op>, id: Id)
    requires !Touched(ops, id)
    ensures Charges(ops, id) == 0 && !Failed(ops, id) && !Removed(ops, id)
  {
    if |ops| > 0 {
      assert ops == ops[..|ops| - 1] + [ops[|ops| - 1]];
      TouchedConcat(ops[..|ops| - 1], [ops[|ops| - 1]], id);
      UntouchedHow(ops[..|ops| - 1], id);
    }
  }

  /** A record that is not failed always has a retry left. */
  lemma CallKeepsSound(s: Setting, a: map<Id, Doc>, b: map<Id, Doc>, ops: seq<Op>)
    requires Sound(s.maxRetries, a) && Became(s, a, b, ops)
    ensures Sound(s.maxRetries, b)
  {
    forall id | id in b && !b[id].failed ensures b[id].retryCount < s.maxRetries {
      assert Lookup(b, id) == Effect(s, Lookup(a, id), ops, id);
      if id in a {
        EffectIsCounted(s, a[id], ops, id);
      } else {
        NothingBecomesOfNothing(s, ops, id);
      }
    }
  }

  /** A record of a group is charged once for each raising chunk of the group, besides its own answer. */
  lemma ChargedPerRaisingChunk(s: Setting, d: Doc, g: Group, id: Id)
    requires Usable(g) && g.hasBase && g.client.Some? && id in g.urls && !ReportedByGroup(g, id)
    ensures var chunks := Chunks(g.urls, g.client.value.chunkSize);
            var after := Effect(s, Some(d), GroupOps(g), id);
            after.Some? && after.value.retryCount ==
                             d.retryCount + RaisingChunks(g.client.value, chunks) + AllOwnCharges(g.client.value, chunks, id)
  {
    var c := g.client.value;
    var chunks := Chunks(g.urls, c.chunkSize);
    GroupTouches(g, id);
    ChunksCharge(c, g.urls, chunks, id);
    EffectIsCounted(s, d, GroupOps(g), id);
  }

  /** So one call can use up all the retries of a record, however few times it was tried itself. */
  lemma OneCallUsesUpAllRetries(s: Setting, d: Doc, g: Group, id: Id)
    requires Usable(g) && g.hasBase && g.client.Some? && id in g.urls && !ReportedByGroup(g, id)
    requires 0 < s.maxRetries <= RaisingChunks(g.client.value, Chunks(g.urls, g.client.value.chunkSize))
    ensures var after := Effect(s, Some(d), GroupOps(g), id); after.Some? && after.value.failed
  {
    ChargedPerRaisingChunk(s, d, g, id);
    EffectIsCounted(s, d, GroupOps(g), id);
  }

  /** Only a record without a path is failed outright. */
  lemma {:induction false} FailedWithoutPath(c: Client, urls: seq<Id>, chunks: seq<seq<Id>>, id: Id)
    requires c.path(id).Some?
    ensures !Failed(ChunksOps(c, urls, chunks), id)
  {
    if |chunks| > 0 {
      var n := |chunks| - 1;
      FailedWithoutPath(c, urls, chunks[..n], id);
      ChunkFails(c, urls, chunks[n], n, id);
      TouchedConcat(ChunksOps(c, urls, chunks[..n]), ChunkOps(c, urls, chunks[n], n), id);
    }
  }

  lemma ChunkFails(c: Client, urls: seq<Id>, chunk: seq<Id>, n: nat, id: Id)
    requires c.path(id).Some?
    ensures !Failed(ChunkOps(c, urls, chunk, n), id)
  {
    var failures, paths := PathFailures(c, chunk), Paths(c, chunk);
    PathFailuresTouch(c, chunk);
    if paths != [] {
      var a := c.deleteMany(n, paths);
      if a.Answered? {
        AnswerTouches(c, urls, chunk, a.deleted, a.errors, id);
      }
      TouchedConcat(failures, AnswerOps(c, urls, chunk, a), id);
    }
  }

  /** A record with a path that is not removed is failed exactly when its charges use up its retries. */
  lemma FailedExactly(s: Setting, d: Doc, g: Group, id: Id)
    requires Usable(g) && g.hasBase && g.client.Some? && id in g.urls && !ReportedByGroup(g, id)
    requires g.client.value.path(id).Some? && !d.failed
    ensures var chunks := Chunks(g.urls, g.client.value.chunkSize);
            var after := Effect(s, Some(d), GroupOps(g), id);
            after.Some? && (after.value.failed <==>
              d.retryCount + RaisingChunks(g.client.value, chunks) + AllOwnCharges(g.client.value, chunks, id) >= s.maxRetries)
  {
    var ops := GroupOps(g);
    ChargedPerRaisingChunk(s, d, g, id);
    FailedWithoutPath(g.client.value, g.urls, Chunks(g.urls, g.client.value.chunkSize), id);
    GroupTouches(g, id);
    TouchedHow(ops, id);
    EffectIsCounted(s, d, ops, id);
  }

  // ------------------------------------------------- what a call makes of each record

  /** The chunks of a group, in order, are the group; all but the last are full, and none is empty. */
  lemma {:induction false} ChunksAre(urls: seq<Id>, size: nat)
    requires size > 0
    ensures var chunks := Chunks(urls, size);
            && Flat(chunks) == urls
            && (forall i :: 0 <= i < |chunks| - 1 ==> |chunks[i]| == size)
            && (|chunks| > 0 ==> 0 < |chunks[|chunks| - 1]| <= size)
    decreases |urls|
  {
    var chunks := Chunks(urls, size);
    if 0 < |urls| <= size {
      assert chunks[1..] == [];
      assert urls + [] == urls;
    } else if |urls| > size {
      ChunksAre(urls[size..], size);
      assert chunks[1..] == Chunks(urls[size..], size);
      assert forall i :: 0 < i < |chunks| ==> chunks[i] == chunks[1..][i - 1];
      assert urls == urls[..size] + urls[size..];
    }
  }

  function Flat(chunks: seq<seq<Id>>): seq<Id> {
    if |chunks| == 0 then [] else chunks[0] + Flat(chunks[1..])
  }

  /** The paths asked for are those of the chunk's records that have one, in their order. */
  lemma {:induction false} PathsAre(c: Client, a: seq<Id>, b: seq<Id>, id: Id)
    ensures Paths(c, a + b) == Paths(c, a) + Paths(c, b)
    ensures Paths(c, [id]) == match c.path(id)
                              case None => []
                              case Some(p) => [p]
    decreases |b|
  {
    assert [id][..0] == [];
    if b == [] {
      assert a + b == a;
    } else {
      PathsAre(c, a, b[..|b| - 1], id);
      assert (a + b)[..|a + b| - 1] == a + b[..|b| - 1];
    }
  }

  lemma {:induction false} Untouched(s: Setting, d: Doc, ops: seq<Op>, id: Id)
    requires !Touched(ops, id)
    ensures Effect(s, Some(d), ops, id) == Some(d)
  {
    UntouchedHow(ops, id);
    EffectIsCounted(s, d, ops, id);
  }

  /** A record is changed by the updates of its own group only. */
  lemma {:induction false} OwnGroupOnly(s: Setting, d: Doc, groups: seq<Group>, i: nat, id: Id)
    requires (forall g :: g in groups ==> Usable(g)) && Apart(groups) && i < |groups| && id in groups[i].urls
    ensures Effect(s, Some(d), CallOps(groups), id) == Effect(s, Some(d), GroupOps(groups[i]), id)
  {
    var n := |groups| - 1;
    var before, last := groups[..n], groups[n];
    EffectConcat(s, Some(d), CallOps(before), GroupOps(last), id);
    CallTouches(before, id);
    GroupTouches(last, id);
    if i == n {
      NotBefore(groups, id);
      Untouched(s, d, CallOps(before), id);
    } else {
      assert Apart(before) && before[i] == groups[i];
      OwnGroupOnly(s, d, before, i, id);
      if Effect(s, Some(d), CallOps(before), id).Some? {
        Untouched(s, Effect(s, Some(d), CallOps(before), id).value, GroupOps(last), id);
      } else {
        NothingBecomesOfNothing(s, GroupOps(last), id);
      }
    }
  }

  lemma NotBefore(groups: seq<Group>, id: Id)
    requires |groups| > 0 && Apart(groups) && id in groups[|groups| - 1].urls
    ensures !InGroups(groups[..|groups| - 1], id)
  {
    var n := |groups| - 1;
    forall g | g in groups[..n] ensures id !in g.urls {
      var j :| 0 <= j < n && groups[j] == g;
    }
  }

  lemma NoPathInChunk(c: Client, urls: seq<Id>, chunk: seq<Id>, n: nat, id: Id)
    requires c.path(id).None?
    ensures id in chunk ==> Failed(ChunkOps(c, urls, chunk, n), id)
    ensures OwnCharges(c, chunk, n, id) == 0 && !Reported(c, chunk, n, id)
  {
    PathFailuresTouch(c, chunk);
    if id in chunk {
      assert Fail({id}) in PathFailures(c, chunk);
      assert Fail({id}) in ChunkOps(c, urls, chunk, n);
    }
  }

  /** Where the record has a client but no path, the group fails it. */
  lemma {:induction false} NoPathFails(c: Client, urls: seq<Id>, chunks: seq<seq<Id>>, id: Id)
    requires c.path(id).None?
    ensures Listed(chunks, id) ==> Failed(ChunksOps(c, urls, chunks), id)
    ensures AllOwnCharges(c, chunks, id) == 0 && !ReportedIn(c, chunks, id)
  {
    if |chunks| > 0 {
      var n := |chunks| - 1;
      NoPathFails(c, urls, chunks[..n], id);
      NoPathInChunk(c, urls, chunks[n], n, id);
      LastChunk(c, chunks, id);
      TouchedConcat(ChunksOps(c, urls, chunks[..n]), ChunkOps(c, urls, chunks[n], n), id);
    }
  }

  /**
   What a client makes of a record of its base: it is charged once for each chunk of the base whose
   deletion raises. On top, without a path it is failed for good; with a path it is removed if its path
   is reported deleted in its own chunk; and otherwise it is charged for its own answers, and failed
   only if its retries are used up.
   */
  ghost predicate ClientMakes(s: Setting, c: Client, same: seq<Id>, id: Id, d: Doc, after: Option<Doc>)
    requires c.chunkSize > 0
  {
    var chunks := Chunks(same, c.chunkSize);
    var count := d.retryCount + RaisingChunks(c, chunks) + AllOwnCharges(c, chunks, id);
    if c.path(id).None? then after == Some(Doc(d.retryCount + RaisingChunks(c, chunks), true, Some(s.now)))
    else if ReportedIn(c, chunks, id) then after == None
    else after == Some(Doc(count, count >= s.maxRetries, Some(s.now)))
  }

  lemma GroupFailsIt(g: Group, id: Id)
    requires Usable(g) && g.hasBase && g.client.Some? && id in g.urls && g.client.value.path(id).None?
    ensures Failed(GroupOps(g), id) && !ReportedByGroup(g, id)
    ensures AllOwnCharges(g.client.value, Chunks(g.urls, g.client.value.chunkSize), id) == 0
  {
    var c := g.client.value;
    ChunksList(g.urls, c.chunkSize, id);
    NoPathFails(c, g.urls, Chunks(g.urls, c.chunkSize), id);
  }

  lemma NoPathOutcome(s: Setting, g: Group, id: Id, d: Doc)
    requires Usable(g) && g.hasBase && g.client.Some? && id in g.urls && g.client.value.path(id).None?
    ensures Effect(s, Some(d), GroupOps(g), id)
         == Some(Doc(d.retryCount + RaisingChunks(g.client.value, Chunks(g.urls, g.client.value.chunkSize)), true, Some(s.now)))
  {
    GroupFailsIt(g, id);
    ChargedPerRaisingChunk(s, d, g, id);
    GroupTouches(g, id);
    EffectIsCounted(s, d, GroupOps(g), id);
  }

  /** A record that is touched is gone, or shows the time of its failure. */
  lemma TouchedShows(s: Setting, d: Doc, ops: seq<Op>, id: Id)
    requires Touched(ops, id)
    ensures Effect(s, Some(d), ops, id) == None <==> Removed(ops, id)
    ensures !Removed(ops, id) ==> Effect(s, Some(d), ops, id).value.lastFailure == Some(s.now)
  {
    EffectIsCounted(s, d, ops, id);
  }

  lemma PathOutcome(s: Setting, g: Group, id: Id, d: Doc)
    requires Usable(g) && g.hasBase && g.client.Some? && id in g.urls && g.client.value.path(id).Some? && !d.failed
    ensures ClientMakes(s, g.client.value, g.urls, id, d, Effect(s, Some(d), GroupOps(g), id))
  {
    GroupTouches(g, id);
    TouchedShows(s, d, GroupOps(g), id);
    if !ReportedByGroup(g, id) {
      FailedExactly(s, d, g, id);
      ChargedPerRaisingChunk(s, d, g, id);
    }
  }

  lemma ClientOutcome(s: Setting, g: Group, id: Id, d: Doc)
    requires Usable(g) && g.hasBase && g.client.Some? && id in g.urls && !d.failed
    ensures ClientMakes(s, g.client.value, g.urls, id, d, Effect(s, Some(d), GroupOps(g), id))
  {
    if g.client.value.path(id).None? {
      NoPathOutcome(s, g, id, d);
    } else {
      PathOutcome(s, g, id, d);
    }
  }

  /** Without a client nothing is asked for: a record without a base is failed for good and charged
      nothing; with a base it is charged one retry, and failed only if that was its last. */
  lemma {:induction false} NoClientOutcome(s: Setting, g: Group, id: Id, d: Doc)
    requires Usable(g) && id in g.urls && !d.failed && (g.hasBase ==> g.client.None?)
    ensures Effect(s, Some(d), GroupOps(g), id) ==
              Some(if g.hasBase then Doc(d.retryCount + 1, d.retryCount + 1 >= s.maxRetries, Some(s.now))
                   else Doc(d.retryCount, true, Some(s.now)))
  {
    var ops := GroupOps(g);
    assert |ops| == 1 && ops[..0] == [];
    assert Effect(s, Some(d), ops[..0], id) == Some(d);
  }

  /**
   What a call makes of the record `d` it has selected:
   - without a base it is failed for good, and no retry is charged;
   - with a base whose client cannot be made this time it is charged one retry, and failed only if that
     was its last;
   - with a client it is as the client makes it, together with the selected records of the same base.
   */
  ghost predicate CallMakes(s: Setting, st: Storage, urls: seq<Id>, id: Id, d: Doc, after: Option<Doc>)
    requires Works(st)
  {
    match st.base(id)
    case None => after == Some(Doc(d.retryCount, true, Some(s.now)))
    case Some(base) =>
      var same := OfBase(st, urls, Some(base));
      assert Usable(GroupOf(st, Some(base), same));
      match st.client(base, same)
      case None => after == Some(Doc(d.retryCount + 1, d.retryCount + 1 >= s.maxRetries, Some(s.now)))
      case Some(c) => ClientMakes(s, c, same, id, d, after)
  }

  lemma {:induction false} GroupOutcome(s: Setting, st: Storage, urls: seq<Id>, id: Id, d: Doc)
    requires Works(st) && id in urls && !d.failed
    ensures var g := GroupOf(st, st.base(id), OfBase(st, urls, st.base(id)));
            Usable(g) && id in g.urls && CallMakes(s, st, urls, id, d, Effect(s, Some(d), GroupOps(g), id))
  {
    var base := st.base(id);
    var g := GroupOf(st, base, OfBase(st, urls, base));
    OfBaseHolds(st, urls, base);
    if base.Some? {
      assert Usable(GroupOf(st, Some(base.value), OfBase(st, urls, base)));
    }
    if g.hasBase && g.client.Some? {
      ClientOutcome(s, g, id, d);
    } else {
      NoClientOutcome(s, g, id, d);
    }
  }

  /** The whole outcome of a call: every record selected is as `CallMakes` says, every other as it was. */
  ghost predicate Outcome(s: Setting, st: Storage, q: Query, a: map<Id, Doc>, b: map<Id, Doc>)
    requires Works(st)
  {
    forall id: Id ::
      if id in Selection(s, a, q) && id in a then CallMakes(s, st, Selection(s, a, q), id, a[id], Lookup(b, id))
      else Lookup(b, id) == Lookup(a, id)
  }

  lemma {:induction false} CallHasOutcome(s: Setting, st: Storage, q: Query, a: map<Id, Doc>, b: map<Id, Doc>, groups: seq<Group>)
    requires Works(st) && (forall id :: id in a ==> id in q.byUrl)
    requires Grouped(st, Selection(s, a, q), groups) && Became(s, a, b, CallOps(groups))
    ensures Outcome(s, st, q, a, b)
  {
    var urls := Selection(s, a, q);
    SelectionWaits(s, a, q);
    forall id: Id
      ensures if id in urls && id in a then CallMakes(s, st, urls, id, a[id], Lookup(b, id)) else Lookup(b, id) == Lookup(a, id)
    {
      assert Lookup(b, id) == Effect(s, Lookup(a, id), CallOps(groups), id);
      if id in urls {
        SelectedOutcome(s, st, a, urls, groups, id);
      } else {
        CallTouches(groups, id);
        if id in a {
          Untouched(s, a[id], CallOps(groups), id);
        } else {
          NothingBecomesOfNothing(s, CallOps(groups), id);
        }
      }
    }
  }

  lemma {:induction false} SelectedOutcome(s: Setting, st: Storage, a: map<Id, Doc>, urls: seq<Id>, groups: seq<Group>, id: Id)
    requires Works(st) && Grouped(st, urls, groups) && id in urls && id in a && !a[id].failed
    ensures CallMakes(s, st, urls, id, a[id], Effect(s, Some(a[id]), CallOps(groups), id))
  {
    var i := GroupOfRecord(st, urls, groups, id);
    OwnGroupOnly(s, a[id], groups, i, id);
    GroupOutcome(s, st, urls, id, a[id]);
  }

  lemma GroupOfRecord(st: Storage, urls: seq<Id>, groups: seq<Group>, id: Id) returns (i: nat)
    requires Grouped(st, urls, groups) && id in urls
    ensures i < |groups| && groups[i] == GroupOf(st, st.base(id), OfBase(st, urls, st.base(id))) && id in groups[i].urls
  {
    assert InGroups(groups, id);
    var g :| g in groups && id in g.urls;
    i :| 0 <= i < |groups| && groups[i] == g;
    assert OfSomeBase(st, urls, g);
    var base: Option<Base> :| g == GroupOf(st, base, OfBase(st, urls, base));
    OfBaseHolds(st, urls, base);
  }

  // ------------------------------------------------------------------ progress

  function Remaining(maxRetries: nat, d: Option<Doc>): nat {
    if d.None? || d.value.failed || d.value.retryCount >= maxRetries then 0 else maxRetries - d.value.retryCount
  }

  ghost function Pick(ids: set<Id>): Id
    requires ids != {}
  {
    var id :| id in ids; id
  }

  /** The retries left to these records. */
  ghost function Total(maxRetries: nat, docs: map<Id, Doc>, ids: set<Id>): nat {
    if ids == {} then 0
    else Remaining(maxRetries, Lookup(docs, Pick(ids))) + Total(maxRetries, docs, ids - {Pick(ids)})
  }

  lemma {:induction false} TotalDecreases(maxRetries: nat, a: map<Id, Doc>, b: map<Id, Doc>, ids: set<Id>, one: Id)
    requires forall id :: id in ids ==> Remaining(maxRetries, Lookup(b, id)) <= Remaining(maxRetries, Lookup(a, id))
    ensures Total(maxRetries, b, ids) <= Total(maxRetries, a, ids)
    ensures one in ids && Remaining(maxRetries, Lookup(b, one)) < Remaining(maxRetries, Lookup(a, one)) ==>
              Total(maxRetries, b, ids) < Total(maxRetries, a, ids)
    decreases ids
  {
    if ids != {} {
      TotalDecreases(maxRetries, a, b, ids - {Pick(ids)}, one);
    }
  }

  /** Each call with a selection uses up retries: the sum over all records strictly decreases. */
  lemma CallMakesProgress(s: Setting, a: map<Id, Doc>, b: map<Id, Doc>, groups: seq<Group>, ids: set<Id>, one: Id)
    requires Selects(s, a, groups) && Became(s, a, b, CallOps(groups))
    requires InGroups(groups, one) && one in ids
    ensures Total(s.maxRetries, b, ids) < Total(s.maxRetries, a, ids)
  {
    var m := s.maxRetries;
    forall id | id in ids ensures Remaining(m, Lookup(b, id)) <= Remaining(m, Lookup(a, id)) {
      CallSettles(s, a, b, groups, id);
    }
    CallSettles(s, a, b, groups, one);
    TotalDecreases(m, a, b, ids, one);
  }

  /** A call of the loop: its time, and the groups of its selection. */
  datatype Call = Call(setting: Setting, groups: seq<Group>)

  /** The collection before each call and after the last, when nothing else changes it. */
  ghost predicate IsRun(maxRetries: nat, docs: seq<map<Id, Doc>>, calls: seq<Call>) {
    && |docs| == |calls| + 1
    && forall i :: 0 <= i < |calls| ==>
         && calls[i].setting.maxRetries == maxRetries
         && Selects(calls[i].setting, docs[i], calls[i].groups)
         && (exists one: Id :: InGroups(calls[i].groups, one))
         && Became(calls[i].setting, docs[i], docs[i + 1], CallOps(calls[i].groups))
  }

  /** So the records that wait at the start are settled within as many calls as they have retries. */
  lemma {:induction false} CallsAreBounded(maxRetries: nat, docs: seq<map<Id, Doc>>, calls: seq<Call>, ids: set<Id>)
    requires IsRun(maxRetries, docs, calls) && docs[0].Keys <= ids
    ensures docs[|calls|].Keys <= ids
    ensures |calls| + Total(maxRetries, docs[|calls|], ids) <= Total(maxRetries, docs[0], ids)
  {
    if |calls| > 0 {
      var n := |calls| - 1;
      assert IsRun(maxRetries, docs[..|calls|], calls[..n]);
      CallsAreBounded(maxRetries, docs[..|calls|], calls[..n], ids);
      var one: Id :| InGroups(calls[n].groups, one);
      CallMakesProgress(calls[n].setting, docs[n], docs[n + 1], calls[n].groups, ids, one);
      forall id | id in docs[n + 1] ensures id in ids {
        CallSettles(calls[n].setting, docs[n], docs[n + 1], calls[n].groups, id);
      }
    }
  }

  /** After a failure a record rests: it waits again, while it is not failed, once the pause is over. */
  lemma RestsAfterFailure(s: Setting, a: map<Id, Doc>, b: map<Id, Doc>, groups: seq<Group>, id: Id, later: Setting)
    requires Selects(s, a, groups) && Became(s, a, b, CallOps(groups)) && Sound(s.maxRetries, a)
    requires id in b && InGroups(groups, id)
    requires later.maxRetries == s.maxRetries && later.retryTimeout == s.retryTimeout
    ensures Selectable(later, b[id]) <==> !b[id].failed && later.now > s.now + s.retryTimeout
  {
    CallSettles(s, a, b, groups, id);
    CallKeepsSound(s, a, b, CallOps(groups));
  }

  /** No call of these comes after the pause that call `i` started. */
  predicate WithinPause(calls: seq<Call>, i: nat, j: nat) {
    i < j <= |calls| && forall k :: i <= k < j ==>
      && calls[k].setting.retryTimeout == calls[i].setting.retryTimeout
      && calls[k].setting.now <= calls[i].setting.now + calls[i].setting.retryTimeout
  }

  /** So a record that a call has charged is left alone by all calls up to the end of its pause. */
  lemma {:induction false} LeftAloneInPause(maxRetries: nat, docs: seq<map<Id, Doc>>, calls: seq<Call>, i: nat, j: nat, id: Id)
    requires IsRun(maxRetries, docs, calls) && WithinPause(calls, i, j) && Sound(maxRetries, docs[i])
    requires InGroups(calls[i].groups, id) && id in docs[i + 1]
    ensures id in docs[j] && docs[j][id] == docs[i + 1][id]
    ensures forall k :: i < k < j ==> !InGroups(calls[k].groups, id)
  {
    if j > i + 1 {
      var k := j - 1;
      LeftAloneInPause(maxRetries, docs, calls, i, k, id);
      CallOf(maxRetries, docs, calls, i);
      CallOf(maxRetries, docs, calls, k);
      RestsAfterFailure(calls[i].setting, docs[i], docs[i + 1], calls[i].groups, id, calls[k].setting);
      NotSelected(calls[k].setting, docs[k], docs[k + 1], calls[k].groups, id);
    }
  }

  lemma CallOf(maxRetries: nat, docs: seq<map<Id, Doc>>, calls: seq<Call>, i: nat)
    requires IsRun(maxRetries, docs, calls) && i < |calls|
    ensures calls[i].setting.maxRetries == maxRetries && Selects(calls[i].setting, docs[i], calls[i].groups)
    ensures Became(calls[i].setting, docs[i], docs[i + 1], CallOps(calls[i].groups))
  {
  }

  lemma NotSelected(s: Setting, a: map<Id, Doc>, b: map<Id, Doc>, groups: seq<Group>, id: Id)
    requires Selects(s, a, groups) && Became(s, a, b, CallOps(groups)) && id in a && !Selectable(s, a[id])
    ensures !InGroups(groups, id) && id in b && b[id] == a[id]
  {
    UntouchedStays(s, a, b, groups, id);
  }

  lemma UntouchedStays(s: Setting, a: map<Id, Doc>, b: map<Id, Doc>, groups: seq<Group>, id: Id)
    requires (forall g :: g in groups ==> Usable(g)) && Became(s, a, b, CallOps(groups)) && id in a && !InGroups(groups, id)
    ensures id in b && b[id] == a[id]
  {
    CallTouches(groups, id);
    Untouched(s, a[id], CallOps(groups), id);
    assert Lookup(b, id) == Effect(s, Lookup(a, id), CallOps(groups), id);
  }
}
