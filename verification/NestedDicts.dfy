/**
 Operations on nested dictionaries (utilities/dicts.py): merging one into another in place, and
 reading, writing and deleting at a path.
 */
module NestedDicts {
  import opened Common

  type Key = string

  /** A value that is not a dictionary. */
  datatype Atom = Atom(id: nat, truthy: bool)

  /** A nested dictionary as a value. */
  datatype Tree = Leaf(atom: Atom) | Dict(kids: map<Key, Tree>)

  // ------------------------------------------------------------ merging as values

  /** The right-biased recursive override. */
  function Merge(a: Tree, b: Tree): (m: Tree)
    requires a.Dict? && b.Dict?
    ensures m.Dict? && m.kids.Keys == a.kids.Keys + b.kids.Keys
    decreases b
  {
    Dict(map k | k in a.kids.Keys + b.kids.Keys ::
      if k !in b.kids then a.kids[k]
      else if k in a.kids && a.kids[k].Dict? && b.kids[k].Dict? then Merge(a.kids[k], b.kids[k])
      else b.kids[k])
  }

  lemma {:induction false} MergeSelf(a: Tree)
    requires a.Dict?
    ensures Merge(a, a) == a
  {
    forall k | k in a.kids && a.kids[k].Dict? ensures Merge(a.kids[k], a.kids[k]) == a.kids[k] {
      MergeSelf(a.kids[k]);
    }
    assert Merge(a, a).kids == a.kids;
  }

  /** Merging the same override again changes nothing. */
  lemma {:induction false} MergeAgain(a: Tree, b: Tree)
    requires a.Dict? && b.Dict?
    ensures Merge(Merge(a, b), b) == Merge(a, b)
    decreases b
  {
    var m := Merge(a, b);
    forall k | k in b.kids && b.kids[k].Dict? ensures Merge(m, b).kids[k] == m.kids[k] {
      if k in a.kids && a.kids[k].Dict? {
        MergeAgain(a.kids[k], b.kids[k]);
      } else {
        MergeSelf(b.kids[k]);
      }
    }
    assert Merge(m, b).kids == m.kids;
  }

  /** Everything in `a` is overridden by `b`. */
  ghost predicate Covered(a: Tree, b: Tree)
    requires a.Dict? && b.Dict?
    decreases b
  {
    forall k :: k in a.kids ==>
      k in b.kids && (a.kids[k].Dict? && b.kids[k].Dict? ==> Covered(a.kids[k], b.kids[k]))
  }

  lemma {:induction false} CoveredAddsNothing(a: Tree, b: Tree)
    requires a.Dict? && b.Dict?
    ensures Merge(a, b) == b <==> Covered(a, b)
    decreases b
  {
    var m := Merge(a, b);
    forall k | k in a.kids && k in b.kids && a.kids[k].Dict? && b.kids[k].Dict?
      ensures m.kids[k] == b.kids[k] <==> Covered(a.kids[k], b.kids[k])
    {
      CoveredAddsNothing(a.kids[k], b.kids[k]);
    }
    if Covered(a, b) {
      assert m.kids == b.kids;
    }
  }

  /** Wherever `a` and `c` have dictionaries and `b` has a value between them, `c` covers `a`. */
  ghost predicate NoConflict(a: Tree, b: Tree, c: Tree)
    requires a.Dict? && b.Dict? && c.Dict?
    decreases c
  {
    forall k :: k in a.kids && k in b.kids && k in c.kids && a.kids[k].Dict? && c.kids[k].Dict? ==>
      if b.kids[k].Dict? then NoConflict(a.kids[k], b.kids[k], c.kids[k]) else Covered(a.kids[k], c.kids[k])
  }

  /** Merging is associative exactly where no value stands between two dictionaries. */
  lemma {:induction false} MergeAssociates(a: Tree, b: Tree, c: Tree)
    requires a.Dict? && b.Dict? && c.Dict?
    ensures Merge(Merge(a, b), c) == Merge(a, Merge(b, c)) <==> NoConflict(a, b, c)
    decreases c
  {
    var l, r := Merge(Merge(a, b), c), Merge(a, Merge(b, c));
    forall k | k in l.kids ensures l.kids[k] == r.kids[k] <==> NoConflictAt(a, b, c, k) {
      AssociatesAt(a, b, c, k);
    }
    assert l.kids.Keys == r.kids.Keys;
    if NoConflict(a, b, c) {
      assert l.kids == r.kids;
    } else {
      assert exists k :: k in l.kids && !NoConflictAt(a, b, c, k);
    }
  }

  ghost predicate NoConflictAt(a: Tree, b: Tree, c: Tree, k: Key)
    requires a.Dict? && b.Dict? && c.Dict?
  {
    k in a.kids && k in b.kids && k in c.kids && a.kids[k].Dict? && c.kids[k].Dict? ==>
      if b.kids[k].Dict? then NoConflict(a.kids[k], b.kids[k], c.kids[k]) else Covered(a.kids[k], c.kids[k])
  }

  lemma {:induction false} AssociatesAt(a: Tree, b: Tree, c: Tree, k: Key)
    requires a.Dict? && b.Dict? && c.Dict?
    requires k in a.kids.Keys + b.kids.Keys + c.kids.Keys
    ensures Merge(Merge(a, b), c).kids[k] == Merge(a, Merge(b, c)).kids[k] <==> NoConflictAt(a, b, c, k)
    decreases c, 0
  {
    if k in a.kids && k in b.kids && k in c.kids && a.kids[k].Dict? && c.kids[k].Dict? {
      if b.kids[k].Dict? {
        MergeAssociates(a.kids[k], b.kids[k], c.kids[k]);
      } else {
        CoveredAddsNothing(a.kids[k], c.kids[k]);
      }
    }
  }

  /** So it is not associative in general. */
  lemma MergeDoesNotAssociate(x: Key, y: Key, k: Key, v: Tree)
    requires x != y && v.Leaf?
    ensures var a, b, c := Dict(map[k := Dict(map[x := v])]), Dict(map[k := v]), Dict(map[k := Dict(map[y := v])]);
            Merge(Merge(a, b), c) != Merge(a, Merge(b, c))
  {
    var a, b, c := Dict(map[k := Dict(map[x := v])]), Dict(map[k := v]), Dict(map[k := Dict(map[y := v])]);
    assert x in a.kids[k].kids && x !in c.kids[k].kids;
    assert !NoConflictAt(a, b, c, k);
    MergeAssociates(a, b, c);
  }

  // --------------------------------------------------------- dictionaries in memory

  datatype Value = Plain(atom: Atom) | Ref(node: DictNode)

  /** A Python dictionary. */
  class DictNode {
    var items: map<Key, Value>

    constructor ()
      ensures items == map[]
    {
      items := map[];
    }
  }

  /** A nested dictionary together with the objects that make it up. */
  datatype Shape = Scalar(atom: Atom) | At(node: DictNode, kids: map<Key, Shape>)

  ghost function Content(s: Shape): Tree {
    match s
    case Scalar(a) => Leaf(a)
    case At(_, kids) => Dict(map k | k in kids :: Content(kids[k]))
  }

  ghost function Nodes(s: Shape): set<DictNode> {
    match s
    case Scalar(_) => {}
    case At(node, kids) => {node} + set k, n | k in kids && n in Nodes(kids[k]) :: n
  }

  predicate Refers(v: Value, s: Shape) {
    match s
    case Scalar(a) => v == Plain(a)
    case At(node, _) => v == Ref(node)
  }

  /** The memory holds this nested dictionary. */
  ghost predicate Holds(s: Shape)
    reads Nodes(s)
  {
    s.At? ==>
      && s.node.items.Keys == s.kids.Keys
      && forall k :: k in s.kids ==> Refers(s.node.items[k], s.kids[k]) && Holds(s.kids[k])
  }

  /** No object occurs twice. */
  ghost predicate Separate(s: Shape) {
    s.At? ==>
      && (forall k :: k in s.kids ==> s.node !in Nodes(s.kids[k]) && Separate(s.kids[k]))
      && (forall k, l :: k in s.kids && l in s.kids && k != l ==> Nodes(s.kids[k]) !! Nodes(s.kids[l]))
  }

  lemma KidNodes(s: Shape, k: Key)
    requires s.At? && k in s.kids
    ensures Nodes(s.kids[k]) <= Nodes(s)
  {
  }

  /** The objects after merging: those of `a`, and whole branches of `b`. */
  ghost function MergeShape(a: Shape, b: Shape): (m: Shape)
    requires a.At? && b.At?
    ensures m.At? && m.node == a.node && m.kids.Keys == a.kids.Keys + b.kids.Keys
    decreases b
  {
    At(a.node, map k | k in a.kids.Keys + b.kids.Keys ::
      if k !in b.kids then a.kids[k]
      else if k in a.kids && a.kids[k].At? && b.kids[k].At? then MergeShape(a.kids[k], b.kids[k])
      else b.kids[k])
  }

  /** The kid at `k` after merging. */
  ghost function MergedKid(a: Shape, b: Shape, k: Key): Shape
    requires a.At? && b.At? && k in b.kids
  {
    if k in a.kids && a.kids[k].At? && b.kids[k].At? then MergeShape(a.kids[k], b.kids[k]) else b.kids[k]
  }

  /** The same with only some keys of `b` merged so far. */
  ghost function MergeSome(a: Shape, b: Shape, done: set<Key>): (m: Shape)
    requires a.At? && b.At? && done <= b.kids.Keys
    ensures m.At? && m.node == a.node && m.kids.Keys == a.kids.Keys + done
  {
    At(a.node, map k | k in a.kids.Keys + done :: if k in done then MergedKid(a, b, k) else a.kids[k])
  }

  /** Merging the objects merges the contents. */
  lemma {:induction false} MergeShapeContent(a: Shape, b: Shape)
    requires a.At? && b.At?
    ensures Content(MergeShape(a, b)) == Merge(Content(a), Content(b))
    decreases b
  {
    var m, t := MergeShape(a, b), Merge(Content(a), Content(b));
    forall k | k in m.kids ensures Content(m.kids[k]) == t.kids[k] {
      assert k in a.kids ==> Content(a).kids[k] == Content(a.kids[k]);
      assert k in b.kids ==> Content(b).kids[k] == Content(b.kids[k]);
      if k in b.kids && k in a.kids && a.kids[k].At? && b.kids[k].At? {
        MergeShapeContent(a.kids[k], b.kids[k]);
        assert m.kids[k] == MergeShape(a.kids[k], b.kids[k]);
      }
    }
    assert Content(m).kids == t.kids;
  }

  /** And brings in no object from elsewhere. */
  lemma {:induction false} MergedKidNodes(a: Shape, b: Shape, k: Key)
    requires a.At? && b.At? && k in b.kids
    ensures Nodes(MergedKid(a, b, k)) <= (if k in a.kids then Nodes(a.kids[k]) else {}) + Nodes(b.kids[k])
    decreases b
  {
    if k in a.kids && a.kids[k].At? && b.kids[k].At? {
      var x, y := a.kids[k], b.kids[k];
      var m := MergeShape(x, y);
      forall n | n in Nodes(m) && n != x.node ensures n in Nodes(x) + Nodes(y) {
        var l :| l in m.kids && n in Nodes(m.kids[l]);
        if l in y.kids {
          MergedKidNodes(x, y, l);
          KidNodes(y, l);
          assert m.kids[l] == MergedKid(x, y, l);
        }
        if l in x.kids {
          KidNodes(x, l);
        }
      }
    }
  }

  ghost function AllNodes(kids: map<Key, Shape>): set<DictNode> {
    set k, n | k in kids && n in Nodes(kids[k]) :: n
  }

  ghost predicate AllHold(kids: map<Key, Shape>)
    reads AllNodes(kids)
  {
    forall k :: k in kids ==> Holds(kids[k])
  }

  /** The kids of a partial merge, but for the one at `key`. */
  ghost function Others(a: Shape, b: Shape, done: set<Key>, key: Key): map<Key, Shape>
    requires a.At? && b.At? && done <= b.kids.Keys
  {
    MergeSome(a, b, done).kids - {key}
  }

  /** They share nothing with that kid of `a`, nor with the source itself. */
  lemma OthersApart(a: Shape, b: Shape, done: set<Key>, key: Key)
    requires a.At? && b.At? && Separate(a) && Nodes(a) !! Nodes(b) && done <= b.kids.Keys
    ensures a.node !in AllNodes(Others(a, b, done, key))
    ensures key in a.kids ==> AllNodes(Others(a, b, done, key)) !! Nodes(a.kids[key])
  {
    var others := Others(a, b, done, key);
    forall k | k in others
      ensures a.node !in Nodes(others[k])
      ensures key in a.kids ==> Nodes(others[k]) !! Nodes(a.kids[key])
    {
      if k in done {
        MergedKidNodes(a, b, k);
        KidNodes(b, k);
      }
      if key in a.kids {
        KidNodes(a, key);
      }
    }
  }

  /** A kid put back among the others. */
  lemma OneMore(a: Shape, b: Shape, done: set<Key>, key: Key)
    requires a.At? && b.At? && done <= b.kids.Keys && key in b.kids
    ensures MergeSome(a, b, done + {key}).kids == Others(a, b, done, key)[key := MergedKid(a, b, key)]
  {
  }

  lemma HoldsTogether(node: DictNode, others: map<Key, Shape>, key: Key, kid: Shape)
    requires node.items.Keys == others.Keys + {key} && key !in others
    requires Refers(node.items[key], kid) && Holds(kid)
    requires AllHold(others) && forall k :: k in others ==> Refers(node.items[k], others[k])
    ensures Holds(At(node, others[key := kid]))
  {
  }

  /** Everything of `b` is in `a` already: the same plain values, the same dictionaries or settled ones. */
  ghost predicate Settled(a: Shape, b: Shape)
    decreases b
  {
    a.At? && b.At? && forall k :: k in b.kids ==>
      && k in a.kids
      && if a.kids[k].At? && b.kids[k].At? then Settled(a.kids[k], b.kids[k]) else a.kids[k] == b.kids[k]
  }

  lemma {:induction false} SettledSelf(a: Shape)
    requires a.At?
    ensures Settled(a, a)
  {
    forall k | k in a.kids && a.kids[k].At? ensures Settled(a.kids[k], a.kids[k]) {
      SettledSelf(a.kids[k]);
    }
  }

  /** After a merge everything of the override is in the source, partly as the very same objects. */
  lemma {:induction false} MergedIsSettled(a: Shape, b: Shape)
    requires a.At? && b.At?
    ensures Settled(MergeShape(a, b), b)
    decreases b
  {
    var m := MergeShape(a, b);
    forall k | k in b.kids && m.kids[k].At? && b.kids[k].At? ensures Settled(m.kids[k], b.kids[k]) {
      if k in a.kids && a.kids[k].At? {
        MergedIsSettled(a.kids[k], b.kids[k]);
      } else {
        SettledSelf(b.kids[k]);
      }
    }
  }

  /** Merging what is settled gives the same objects again. */
  lemma {:induction false} SettledMerge(a: Shape, b: Shape)
    requires Settled(a, b)
    ensures MergeShape(a, b) == a
    decreases b
  {
    forall k | k in b.kids ensures MergeShape(a, b).kids[k] == a.kids[k] {
      if a.kids[k].At? && b.kids[k].At? {
        SettledMerge(a.kids[k], b.kids[k]);
      }
    }
    assert MergeShape(a, b).kids == a.kids;
  }

  /** Two trees apart, with some keys of the override merged so far. */
  ghost predicate Midway(a: Shape, b: Shape, done: set<Key>)
    requires a.At? && b.At? && done <= b.kids.Keys
    reads Nodes(MergeSome(a, b, done)), Nodes(b)
  {
    Holds(MergeSome(a, b, done)) && Holds(b) && Separate(a) && Nodes(a) !! Nodes(b)
  }

  /** Two settled dictionaries, which hold what they held in `m`. */
  ghost predicate AtRest(a: Shape, b: Shape, m: Memory)
    reads Nodes(a), Nodes(b)
  {
    Settled(a, b) && HeldIn(a, m) && HeldIn(b, m) && Same(Nodes(a) + Nodes(b), m)
  }

  lemma RestHolds(a: Shape, b: Shape, m: Memory)
    requires AtRest(a, b, m)
    ensures Holds(a) && Holds(b)
  {
    StillHolds(a, m);
    StillHolds(b, m);
  }

  /** What stands beside the kid at `key` while the source is merged. */
  ghost predicate Beside(source: DictNode, key: Key, others: map<Key, Shape>)
    reads source, AllNodes(others)
  {
    && key !in others && source !in AllNodes(others) && AllHold(others)
    && source.items.Keys + {key} == others.Keys + {key}
    && forall k :: k in others ==> Refers(source.items[k], others[k])
  }

  lemma BesideKey(a: Shape, b: Shape, done: set<Key>, key: Key)
    requires a.At? && b.At? && done <= b.kids.Keys && key in b.kids && key !in done && Midway(a, b, done)
    ensures Beside(a.node, key, Others(a, b, done, key)) && Holds(b.kids[key])
    ensures a.node !in Nodes(b) && a.node !in Nodes(b.kids[key])
  {
    OthersApart(a, b, done, key);
    KidNodes(b, key);
  }

  /** `source[key] = value`: what was there already stays, anything else goes in beside the other kids. */
  method PutKey(source: DictNode, key: Key, value: Value, ghost a: Shape, ghost b: Shape, ghost done: set<Key>,
                ghost settled: bool, ghost m: Memory)
    requires a.At? && a.node == source && b.At? && done <= b.kids.Keys && key in b.kids && key !in done
    requires settled ==> AtRest(a, b, m) && key in source.items && source.items[key] == value
    requires !settled ==> Midway(a, b, done) && Refers(value, b.kids[key]) && MergedKid(a, b, key) == b.kids[key]
    modifies source
    ensures settled ==> AtRest(a, b, m)
    ensures !settled ==> Midway(a, b, done + {key})
  {
    ghost var others := if settled then map[] else Others(a, b, done, key);
    ghost var rest := if settled then Nodes(a) + Nodes(b) else Nodes(b);
    ghost var memory := if settled then m else map n | n in Nodes(b) :: n.items;
    if !settled {
      BesideKey(a, b, done, key);
      StillHolds(b, memory);
    }
    SetItem(source, key, value, others, b.kids[key], rest, settled, memory);
    if !settled {
      StillHolds(b, memory);
      OneMore(a, b, done, key);
    }
  }

  /** Both are dictionaries: they are merged, and whatever shares nothing with them is left alone. */
  method MergeKid(source: DictNode, key: Key, override: DictNode, ghost x: Shape, ghost y: Shape,
                  ghost b: Shape, ghost others: map<Key, Shape>, ghost bystanders: set<DictNode>,
                  ghost settled: bool, ghost all: set<DictNode>, ghost m: Memory)
    requires key in source.items && source.items[key].Ref?
    requires x.At? && x.node == source.items[key].node && y.At? && y.node == override
    requires Holds(x) && Holds(y)
    requires settled ==> Settled(x, y) && Same(all, m) && Nodes(x) + Nodes(y) <= all
    requires !settled ==> Separate(x) && Nodes(x) !! Nodes(y) && source !in Nodes(x) && Nodes(x) !! bystanders
    requires !settled ==> Beside(source, key, others) && AllNodes(others) <= bystanders
    requires !settled ==> Holds(b) && Nodes(b) <= bystanders
    modifies Nodes(x)
    ensures settled ==> Same(all, m)
    ensures !settled ==> Holds(At(source, others[key := MergeShape(x, y)])) && Holds(b)
    decreases y, 3
  {
    ghost var now: Memory := map n | n in Nodes(x) + Nodes(y) :: n.items;
    DeepMerge(source.items[key].node, override, x, y, now);
    if !settled {
      HoldsTogether(source, others, key, MergeShape(x, y));
    }
  }

  lemma MergeKidReady(a: Shape, b: Shape, done: set<Key>, key: Key)
    requires a.At? && b.At? && done <= b.kids.Keys && key in b.kids && key !in done && Midway(a, b, done)
    requires key in a.kids
    ensures var x, others := a.kids[key], Others(a, b, done, key);
            && Separate(x) && Nodes(x) !! Nodes(b.kids[key]) && a.node !in Nodes(x)
            && Nodes(x) !! Nodes(b) + AllNodes(others)
  {
    OthersApart(a, b, done, key);
    KidNodes(a, key);
    KidNodes(b, key);
  }

  /** One iteration of `deep_merge`, either on trees apart or on settled dictionaries. */
  method MergeKey(source: DictNode, key: Key, value: Value, ghost a: Shape, ghost b: Shape, ghost done: set<Key>,
                  ghost settled: bool, ghost m: Memory)
    requires a.At? && a.node == source && b.At? && done <= b.kids.Keys && key in b.kids && key !in done
    requires settled ==> AtRest(a, b, m)
    requires !settled ==> Midway(a, b, done)
    requires Refers(value, b.kids[key])
    modifies Nodes(a)
    ensures settled ==> AtRest(a, b, m)
    ensures !settled ==> Midway(a, b, done + {key})
    decreases b, 0
  {
    KidsHeld(a, b, done, key, settled, m);
    if key in source.items && source.items[key].Ref? && value.Ref? {
      ghost var x, y, all := a.kids[key], b.kids[key], Nodes(a) + Nodes(b);
      ghost var others := if settled then map[] else Others(a, b, done, key);
      KidNodes(a, key);
      KidNodes(b, key);
      if !settled {
        MergeKidReady(a, b, done, key);
        BesideKey(a, b, done, key);
        OneMore(a, b, done, key);
      }
      MergeKid(source, key, value.node, x, y, b, others, Nodes(b) + AllNodes(others), settled, all, m);
    } else {
      PutKey(source, key, value, a, b, done, settled, m);
    }
  }

  /** What the source and the override hold at `key`. */
  lemma KidsHeld(a: Shape, b: Shape, done: set<Key>, key: Key, settled: bool, m: Memory)
    requires a.At? && b.At? && done <= b.kids.Keys && key in b.kids && key !in done
    requires settled ==> AtRest(a, b, m)
    requires !settled ==> Midway(a, b, done)
    ensures Holds(b.kids[key])
    ensures key in a.node.items <==> key in a.kids
    ensures key in a.kids ==> Holds(a.kids[key]) && Refers(a.node.items[key], a.kids[key])
    ensures settled ==> key in a.kids && ((a.kids[key].At? && b.kids[key].At?) || a.kids[key] == b.kids[key])
  {
    if settled {
      RestHolds(a, b, m);
    } else if key in a.kids {
      assert MergeSome(a, b, done).kids[key] == a.kids[key];
    }
  }

  /** `deep_merge`: the source becomes the merge, and only its own objects change: on trees apart. Where
      everything of the override is in the source already, as after an earlier merge, nothing changes,
      whatever objects the two share. `m` is what the dictionaries hold before. */
  method DeepMerge(source: DictNode, override: DictNode, ghost a: Shape, ghost b: Shape, ghost m: Memory)
    requires a.At? && a.node == source && b.At? && b.node == override
    requires Holds(a) && Holds(b) && Same(Nodes(a) + Nodes(b), m)
    requires Settled(a, b) || (Separate(a) && Nodes(a) !! Nodes(b))
    modifies Nodes(a)
    ensures Holds(MergeShape(a, b)) && Holds(b)
    ensures Settled(a, b) ==> Same(Nodes(a) + Nodes(b), m)
    decreases b, 1
  {
    ghost var done: set<Key> := {};
    ghost var settled := Settled(a, b);
    var keys := override.items.Keys;
    MergeStarts(a, b, m);
    while keys != {}
      invariant keys <= b.kids.Keys && done == b.kids.Keys - keys
      invariant settled ==> AtRest(a, b, m)
      invariant !settled ==> Midway(a, b, done)
    {
      var key :| key in keys;
      if settled {
        RestHolds(a, b, m);
      }
      MergeKey(source, key, override.items[key], a, b, done, settled, m);
      OneKeyDone(b.kids.Keys, keys, key);
      keys := keys - {key};
      done := done + {key};
    }
    MergeEnds(a, b, m, done);
  }

  lemma OneKeyDone(all: set<Key>, keys: set<Key>, key: Key)
    requires key in keys && keys <= all
    ensures all - keys + {key} == all - (keys - {key})
  {
  }

  lemma MergeStarts(a: Shape, b: Shape, m: Memory)
    requires a.At? && b.At? && Holds(a) && Holds(b) && Same(Nodes(a) + Nodes(b), m)
    requires Settled(a, b) || (Separate(a) && Nodes(a) !! Nodes(b))
    ensures if Settled(a, b) then AtRest(a, b, m) else Midway(a, b, {})
  {
    MergeNone(a, b);
    StillHolds(a, m);
    StillHolds(b, m);
  }

  lemma MergeEnds(a: Shape, b: Shape, m: Memory, done: set<Key>)
    requires a.At? && b.At? && done == b.kids.Keys
    requires if Settled(a, b) then AtRest(a, b, m) else Midway(a, b, done)
    ensures Holds(MergeShape(a, b)) && Holds(b)
    ensures Settled(a, b) ==> Same(Nodes(a) + Nodes(b), m)
  {
    if Settled(a, b) {
      RestHolds(a, b, m);
      SettledMerge(a, b);
    } else {
      MergeAll(a, b, done);
    }
  }

  lemma MergeNone(a: Shape, b: Shape)
    requires a.At? && b.At?
    ensures MergeSome(a, b, {}) == a
  {
    assert MergeSome(a, b, {}).kids == a.kids;
  }

  lemma MergeAll(a: Shape, b: Shape, done: set<Key>)
    requires a.At? && b.At? && done == b.kids.Keys
    ensures MergeSome(a, b, done) == MergeShape(a, b)
  {
    assert MergeSome(a, b, done).kids == MergeShape(a, b).kids;
  }

  // ------------------------------------------------------------- paths, as values

  type Path = seq<Key>

  /** `nested_get`: the value, the default, or an error for a path through a plain value. */
  datatype Got = Found(value: Tree) | Default | Error

  function Get(t: Tree, path: Path): Got {
    if path == [] then Found(t)
    else match t
      case Leaf(a) => if a.truthy then Error else Default
      case Dict(kids) => if path[0] in kids then Get(kids[path[0]], path[1..]) else Default
  }

  /** `nested_set`; None stands for an error, which leaves the dictionary as it was. */
  function Set(t: Tree, path: Path, v: Tree): Option<Tree>
    decreases |path|
  {
    if path == [] || t.Leaf? then None
    else if |path| == 1 then Some(Dict(t.kids[path[0] := v]))
    else
      var kid := if path[0] in t.kids then t.kids[path[0]] else Dict(map[]);
      match Set(kid, path[1..], v)
      case None => None
      case Some(k) => Some(Dict(t.kids[path[0] := k]))
  }

  /** `nested_delete`: whether an element was deleted, and what is left; None for an error. */
  function Delete(t: Tree, path: Path): Option<(bool, Tree)> {
    if path == [] then None
    else if |path| == 1 then
      match t
      case Leaf(a) => if a.truthy then None else Some((false, t))
      case Dict(kids) => if path[0] in kids then Some((true, Dict(kids - {path[0]}))) else Some((false, t))
    else
      match t
      case Leaf(a) => if a.truthy then None else Some((false, t))
      case Dict(kids) =>
        if path[0] !in kids then Some((false, t))
        else match Delete(kids[path[0]], path[1..])
          case None => None
          case Some((done, kid)) => Some((done, Dict(kids[path[0] := kid])))
  }

  /** Reading goes on from what it has found: a dictionary has its elements, a plain value none. */
  lemma {:induction false} GetOnward(t: Tree, path: Path, more: Path)
    ensures Get(t, []) == Found(t)
    ensures Get(t, path + more) == match Get(t, path)
                                   case Found(value) => Get(value, more)
                                   case other => other
    ensures forall k :: t.Dict? && k in t.kids ==> Get(t, [k]) == Found(t.kids[k])
    ensures forall k :: t.Dict? && k !in t.kids ==> Get(t, [k]) == Default
    ensures forall k :: t.Leaf? ==> Get(t, [k]) == if t.atom.truthy then Error else Default
  {
    if path == [] {
      assert path + more == more;
    } else {
      assert (path + more)[1..] == path[1..] + more;
      if t.Dict? && path[0] in t.kids {
        GetOnward(t.kids[path[0]], path[1..], more);
      }
    }
  }

  predicate FoundDict(g: Got) {
    g.Found? && g.value.Dict?
  }

  /**
   What is read from a merge at a path. Where the override has a plain value or nothing to merge into,
   what the override has; where both have dictionaries, their merge; and past a dictionary of the
   override that lacks the next key, what the source has past a dictionary there, or nothing.
   */
  lemma {:induction false} MergeReads(a: Tree, b: Tree, path: Path, key: Key)
    requires a.Dict? && b.Dict?
    ensures var m, x, y := Get(Merge(a, b), path), Get(a, path), Get(b, path);
            && (FoundDict(x) && FoundDict(y) ==> m == Found(Merge(x.value, y.value)))
            && (y.Found? && !(FoundDict(x) && FoundDict(y)) ==> m == y)
    ensures FoundDict(Get(b, path)) && key !in Get(b, path).value.kids ==>
              Get(Merge(a, b), path + [key]) == if FoundDict(Get(a, path)) then Get(a, path + [key]) else Default
    decreases |path|
  {
    var m := Merge(a, b);
    if path == [] {
      assert [key][1..] == [];
      assert path + [key] == [key];
    } else {
      var k := path[0];
      assert (path + [key])[1..] == path[1..] + [key];
      if k in a.kids && k in b.kids && a.kids[k].Dict? && b.kids[k].Dict? {
        MergeReads(a.kids[k], b.kids[k], path[1..], key);
      } else if k in b.kids {
        assert m.kids[k] == b.kids[k];
        GetOnward(b.kids[k], path[1..], [key]);
        if k in a.kids {
          assert a.kids[k].Leaf? || b.kids[k].Leaf?;
        }
      }
    }
  }

  /** Setting fails exactly for an empty path, or where a plain value stands on the way. */
  lemma {:induction false} SetFails(t: Tree, path: Path, v: Tree)
    ensures Set(t, path, v).None? <==> path == [] || exists n :: 0 <= n < |path| && LeafAt(t, path[..n])
    decreases |path|
  {
    if path != [] {
      assert path[..0] == [];
      if t.Leaf? {
        assert LeafAt(t, path[..0]);
      } else {
        assert !LeafAt(t, path[..0]);
        var kid := if path[0] in t.kids then t.kids[path[0]] else Dict(map[]);
        SetFails(kid, path[1..], v);
        forall n | 0 < n < |path|
          ensures LeafAt(t, path[..n]) <==> path[0] in t.kids && LeafAt(kid, path[1..][..n - 1])
        {
          assert path[..n][1..] == path[1..][..n - 1];
        }
        if n :| 0 <= n < |path[1..]| && LeafAt(kid, path[1..][..n]) {
          EmptyHasNoLeaf(path[1..][..n]);
          assert LeafAt(t, path[..n + 1]);
        }
      }
    }
  }

  predicate LeafAt(t: Tree, path: Path) {
    Get(t, path).Found? && Get(t, path).value.Leaf?
  }

  lemma EmptyHasNoLeaf(path: Path)
    ensures !LeafAt(Dict(map[]), path)
  {
  }

  predicate Incomparable(p: Path, q: Path) {
    !(p <= q) && !(q <= p)
  }

  /** What was set is read back, and so is everything under it. */
  lemma {:induction false} SetThenGet(t: Tree, path: Path, v: Tree, below: Path)
    requires Set(t, path, v).Some?
    ensures Get(Set(t, path, v).value, path + below) == Get(v, below)
    decreases |path|
  {
    assert (path + below)[1..] == path[1..] + below;
    if |path| == 1 {
      assert path[1..] + below == below;
    } else {
      var kid := if path[0] in t.kids then t.kids[path[0]] else Dict(map[]);
      SetThenGet(kid, path[1..], v, below);
    }
  }

  /** Paths that are neither above nor below the one that was set read as before. */
  lemma {:induction false} SetLeavesOthers(t: Tree, path: Path, v: Tree, other: Path)
    requires Set(t, path, v).Some? && Incomparable(path, other)
    ensures Get(Set(t, path, v).value, other) == Get(t, other)
    decreases |path|
  {
    if |path| > 1 && path[0] == other[0] {
      var kid := if path[0] in t.kids then t.kids[path[0]] else Dict(map[]);
      assert path == [path[0]] + path[1..] && other == [other[0]] + other[1..];
      SetLeavesOthers(kid, path[1..], v, other[1..]);
    }
  }

  /** An element is deleted exactly when it can be read, and then it no longer can. */
  lemma {:induction false} DeleteThenGet(t: Tree, path: Path)
    requires path != []
    ensures Delete(t, path).None? <==> Get(t, path) == Error
    ensures Delete(t, path).Some? ==>
              var (done, left) := Delete(t, path).value;
              (done <==> Get(t, path).Found?) && Get(left, path) == Default && (!done ==> left == t)
  {
    if |path| > 1 && t.Dict? && path[0] in t.kids {
      DeleteThenGet(t.kids[path[0]], path[1..]);
    }
  }

  lemma {:induction false} DeleteLeavesOthers(t: Tree, path: Path, other: Path)
    requires Delete(t, path).Some? && Incomparable(path, other)
    ensures Get(Delete(t, path).value.1, other) == Get(t, other)
  {
    if t.Dict? && path[0] in t.kids && path[0] == other[0] {
      assert path == [path[0]] + path[1..] && other == [other[0]] + other[1..];
      if |path| > 1 {
        DeleteLeavesOthers(t.kids[path[0]], path[1..], other[1..]);
      }
    }
  }

  /** Setting over what was set before is setting once. */
  lemma {:induction false} SetTwice(t: Tree, path: Path, v: Tree, w: Tree)
    requires Set(t, path, v).Some?
    ensures Set(Set(t, path, v).value, path, w) == Set(t, path, w)
    decreases |path|
  {
    var k := path[0];
    var u := Set(t, path, v).value;
    if |path| > 1 {
      var kid := if k in t.kids then t.kids[k] else Dict(map[]);
      SetTwice(kid, path[1..], v, w);
      SetSome(kid, path[1..], v, w);
      assert u.kids[k := Set(kid, path[1..], w).value] == t.kids[k := Set(kid, path[1..], w).value];
    } else {
      assert u.kids[k := w] == t.kids[k := w];
    }
  }

  /** Whether a path can be set does not depend on the value. */
  lemma {:induction false} SetSome(t: Tree, path: Path, v: Tree, w: Tree)
    ensures Set(t, path, v).Some? <==> Set(t, path, w).Some?
    decreases |path|
  {
    if |path| > 1 && t.Dict? {
      SetSome(if path[0] in t.kids then t.kids[path[0]] else Dict(map[]), path[1..], v, w);
    }
  }

  // ---------------------------------------------------------------- paths in memory

  /** What a path leads to. */
  ghost function Sub(s: Shape, path: Path): Option<Shape> {
    if path == [] then Some(s)
    else if s.At? && path[0] in s.kids then Sub(s.kids[path[0]], path[1..])
    else None
  }

  ghost predicate DictAt(s: Shape, path: Path) {
    Sub(s, path).Some? && Sub(s, path).value.At?
  }

  /** The dictionary at a path gets other kids. */
  ghost function Regrown(s: Shape, path: Path, kids: map<Key, Shape>): Shape
    requires DictAt(s, path)
  {
    if path == [] then At(s.node, kids)
    else At(s.node, s.kids[path[0] := Regrown(s.kids[path[0]], path[1..], kids)])
  }

  lemma {:induction false} SubNodes(s: Shape, path: Path)
    requires DictAt(s, path)
    ensures Nodes(Sub(s, path).value) <= Nodes(s)
  {
    if path != [] {
      SubNodes(s.kids[path[0]], path[1..]);
      KidNodes(s, path[0]);
    }
  }

  lemma {:induction false} SubHolds(s: Shape, path: Path)
    requires Holds(s) && DictAt(s, path)
    ensures Holds(Sub(s, path).value)
  {
    if path != [] {
      SubHolds(s.kids[path[0]], path[1..]);
    }
  }

  lemma {:induction false} SubStep(s: Shape, path: Path, key: Key)
    requires DictAt(s, path)
    ensures Sub(s, path + [key]) == if key in Sub(s, path).value.kids then Some(Sub(s, path).value.kids[key]) else None
  {
    if path == [] {
      assert [key][1..] == [];
    } else {
      SubStep(s.kids[path[0]], path[1..], key);
      assert (path + [key])[1..] == path[1..] + [key];
    }
  }

  /** Setting along a path goes through the dictionary it leads to. */
  lemma {:induction false} SetThrough(s: Shape, path: Path, rest: Path, v: Tree)
    requires DictAt(s, path) && rest != []
    ensures Set(Content(s), path + rest, v).Some? <==> Set(Content(Sub(s, path).value), rest, v).Some?
  {
    if path == [] {
      assert path + rest == rest;
    } else {
      assert (path + rest)[1..] == path[1..] + rest;
      SetThrough(s.kids[path[0]], path[1..], rest, v);
      assert Content(s).kids[path[0]] == Content(s.kids[path[0]]);
    }
  }

  /** What some dictionaries held at some time. */
  type Memory = map<DictNode, map<Key, Value>>

  ghost predicate HeldIn(s: Shape, m: Memory) {
    s.At? ==>
      && s.node in m && m[s.node].Keys == s.kids.Keys
      && forall k :: k in s.kids ==> Refers(m[s.node][k], s.kids[k]) && HeldIn(s.kids[k], m)
  }

  ghost predicate Same(nodes: set<DictNode>, m: Memory)
    reads nodes
  {
    forall n :: n in nodes ==> n in m && m[n] == n.items
  }

  /** What was not written is still held. */
  lemma {:induction false} StillHolds(s: Shape, m: Memory)
    requires Same(Nodes(s), m)
    ensures Holds(s) <==> HeldIn(s, m)
  {
    if s.At? {
      forall k | k in s.kids ensures Holds(s.kids[k]) <==> HeldIn(s.kids[k], m) {
        KidNodes(s, k);
        StillHolds(s.kids[k], m);
      }
    }
  }

  /** One dictionary of a tree was written: the tree is held with its new kids. */
  lemma {:induction false} RegrownHolds(s: Shape, path: Path, kids: map<Key, Shape>, m: Memory)
    requires HeldIn(s, m) && Separate(s) && DictAt(s, path)
    requires Same(Nodes(s) - {Sub(s, path).value.node}, m)
    requires Holds(At(Sub(s, path).value.node, kids))
    ensures Holds(Regrown(s, path, kids))
  {
    if path != [] {
      var key := path[0];
      SubNodes(s.kids[key], path[1..]);
      KidNodes(s, key);
      RegrownHolds(s.kids[key], path[1..], kids, m);
      forall k | k in s.kids && k != key ensures Holds(s.kids[k]) {
        KidNodes(s, k);
        StillHolds(s.kids[k], m);
      }
    }
  }

  /** A tree regrown with objects of its own is still a tree. */
  lemma {:induction false} RegrownSeparate(s: Shape, path: Path, kids: map<Key, Shape>)
    requires Separate(s) && DictAt(s, path)
    requires var node := Sub(s, path).value.node;
             Separate(At(node, kids)) && Nodes(At(node, kids)) * Nodes(s) <= Nodes(Sub(s, path).value)
    ensures Separate(Regrown(s, path, kids))
    ensures Nodes(Regrown(s, path, kids)) <= Nodes(s) + Nodes(At(Sub(s, path).value.node, kids))
  {
    if path != [] {
      var key := path[0];
      var kid := s.kids[key];
      SubNodes(kid, path[1..]);
      KidNodes(s, key);
      RegrownSeparate(kid, path[1..], kids);
      var grown := Regrown(s, path, kids);
      forall k | k in s.kids && k != key ensures Nodes(s.kids[k]) !! Nodes(grown.kids[key]) {
        KidNodes(s, k);
      }
    }
  }

  lemma ContentWith(s: Shape, key: Key, kid: Shape)
    requires s.At?
    ensures Content(At(s.node, s.kids[key := kid])) == Dict(Content(s).kids[key := Content(kid)])
  {
    assert Content(At(s.node, s.kids[key := kid])).kids == Content(s).kids[key := Content(kid)];
  }

  /** Giving the dictionary at a path a new kid is setting it. */
  lemma {:induction false} RegrownIsSet(s: Shape, path: Path, key: Key, kid: Shape)
    requires DictAt(s, path)
    ensures Set(Content(s), path + [key], Content(kid)) ==
              Some(Content(Regrown(s, path, Sub(s, path).value.kids[key := kid])))
  {
    if path == [] {
      ContentWith(s, key, kid);
      assert path + [key] == [key];
    } else {
      var h, x := path[0], s.kids[path[0]];
      assert (path + [key])[1..] == path[1..] + [key];
      RegrownIsSet(x, path[1..], key, kid);
      ContentWith(s, h, Regrown(x, path[1..], Sub(s, path).value.kids[key := kid]));
      assert Content(s).kids[h] == Content(x);
    }
  }

  /** Making the missing dictionaries of a path beforehand does not change what setting it gives. */
  lemma {:induction false} SetAfterMaking(t: Tree, path: Path, rest: Path, v: Tree)
    requires path != [] && rest != []
    requires Set(t, path, Dict(map[])).Some? && Get(t, path) == Default
    ensures Set(Set(t, path, Dict(map[])).value, path + rest, v) == Set(t, path + rest, v)
    decreases |path|
  {
    var k := path[0];
    var made := Set(t, path, Dict(map[])).value;
    assert (path + rest)[1..] == path[1..] + rest;
    if |path| == 1 {
      assert (path + rest)[1..] == rest;
      assert Set(made, path + rest, v).Some? ==>
          made.kids[k := Set(Dict(map[]), rest, v).value] == t.kids[k := Set(Dict(map[]), rest, v).value];
    } else {
      var kid := if k in t.kids then t.kids[k] else Dict(map[]);
      SetAfterMaking(kid, path[1..], rest, v);
      var deep := Set(kid, path[1..] + rest, v);
      assert deep.Some? ==> made.kids[k := deep.value] == t.kids[k := deep.value];
    }
  }

  /** `nested_get`. */
  method NestedGet(root: DictNode, path: Path, ghost s: Shape) returns (found: Option<Value>, error: bool, ghost at: Shape)
    requires s.At? && s.node == root && Holds(s)
    ensures Holds(s)
    ensures error <==> Get(Content(s), path) == Error
    ensures !error ==> (found.None? <==> Get(Content(s), path) == Default)
    ensures !error && found.Some? ==>
              Sub(s, path) == Some(at) && Refers(found.value, at) && Get(Content(s), path) == Found(Content(at))
  {
    var node := Ref(root);
    at := s;
    var i := 0;
    while i < |path|
      invariant i <= |path|
      invariant Holds(at) && Refers(node, at)
      invariant Sub(s, path) == Sub(at, path[i..])
      invariant Get(Content(s), path) == Get(Content(at), path[i..])
    {
      if node.Plain? {
        return None, node.atom.truthy, at;
      }
      if path[i] !in node.node.items {
        return None, false, at;
      }
      assert path[i..][1..] == path[i + 1..];
      assert Content(at).kids[path[i]] == Content(at.kids[path[i]]);
      node := node.node.items[path[i]];
      at := at.kids[path[i]];
      i := i + 1;
    }
    return Some(node), false, at;
  }

  lemma {:induction false} SubRegrown(s: Shape, path: Path, kids: map<Key, Shape>)
    requires DictAt(s, path)
    ensures Sub(Regrown(s, path, kids), path) == Some(At(Sub(s, path).value.node, kids))
    ensures Regrown(s, path, kids).node == s.node
  {
    if path != [] {
      SubRegrown(s.kids[path[0]], path[1..], kids);
    }
  }

  /** A path that runs into a plain value cannot be set. */
  lemma {:induction false} SetBlocked(s: Shape, path: Path, rest: Path, v: Tree)
    requires Sub(s, path).Some? && Sub(s, path).value.Scalar? && rest != []
    ensures Set(Content(s), path + rest, v) == None
  {
    if path != [] {
      SetBlocked(s.kids[path[0]], path[1..], rest, v);
      assert (path + rest)[1..] == path[1..] + rest;
      assert Content(s).kids[path[0]] == Content(s.kids[path[0]]);
    }
  }

  lemma {:induction false} GetMissing(s: Shape, path: Path, key: Key)
    requires DictAt(s, path) && key !in Sub(s, path).value.kids
    ensures Get(Content(s), path + [key]) == Default
  {
    if path != [] {
      GetMissing(s.kids[path[0]], path[1..], key);
      assert (path + [key])[1..] == path[1..] + [key];
      assert Content(s).kids[path[0]] == Content(s.kids[path[0]]);
    }
  }

  /** `node[key] = value` for one dictionary, where the value is there already (`settled`) or goes in
      beside the others; `rest` are objects that hold what they held in `m`. */
  method SetItem(node: DictNode, key: Key, value: Value, ghost others: map<Key, Shape>, ghost kid: Shape,
                 ghost rest: set<DictNode>, ghost settled: bool, ghost m: Memory)
    requires settled ==> key in node.items && node.items[key] == value
    requires !settled ==> Beside(node, key, others) && Refers(value, kid) && Holds(kid) && node !in Nodes(kid) + rest
    requires Same(rest, m)
    modifies node
    ensures !settled ==> Holds(At(node, others[key := kid]))
    ensures Same(rest, m)
  {
    node.items := node.items[key := value];
    if !settled {
      HoldsTogether(node, others, key, kid);
    }
  }

  /** The dictionary at a path, before it is written. */
  lemma BeforeWrite(s: Shape, path: Path, key: Key)
    requires Holds(s) && Separate(s) && DictAt(s, path)
    ensures var sub := Sub(s, path).value;
            && sub.node in Nodes(s) && sub.node.items.Keys == sub.kids.Keys
            && (forall k :: k in sub.kids ==> Refers(sub.node.items[k], sub.kids[k]))
            && AllHold(sub.kids - {key}) && sub.node !in AllNodes(sub.kids - {key})
  {
    SubNodes(s, path);
    SubHolds(s, path);
    SubSeparate(s, path);
    SubKidsApart(Sub(s, path).value, key);
  }

  /** The whole tree, after it was written. */
  lemma AfterWrite(s: Shape, path: Path, key: Key, kid: Shape, m: Memory)
    requires HeldIn(s, m) && Separate(s) && DictAt(s, path)
    requires Same(Nodes(s) - {Sub(s, path).value.node}, m)
    requires Holds(At(Sub(s, path).value.node, Sub(s, path).value.kids[key := kid]))
    requires Separate(kid) && Nodes(kid) !! Nodes(s)
    ensures var t := Regrown(s, path, Sub(s, path).value.kids[key := kid]);
            Holds(t) && Separate(t) && Nodes(t) <= Nodes(s) + Nodes(kid)
  {
    var sub := Sub(s, path).value;
    SubNodes(s, path);
    SubSeparate(s, path);
    KidsSeparate(sub, key, kid);
    RegrownHolds(s, path, sub.kids[key := kid], m);
    RegrownSeparate(s, path, sub.kids[key := kid]);
  }

  /** The same where the dictionary is at a path of the tree `s`. */
  method PutAt(node: DictNode, key: Key, value: Value, ghost s: Shape, ghost path: Path, ghost kid: Shape)
    returns (ghost t: Shape)
    requires Holds(s) && Separate(s) && DictAt(s, path) && Sub(s, path).value.node == node
    requires Refers(value, kid) && Holds(kid) && Separate(kid) && Nodes(kid) !! Nodes(s)
    modifies node
    ensures t == Regrown(s, path, Sub(s, path).value.kids[key := kid])
    ensures Holds(t) && Separate(t) && Nodes(t) <= Nodes(s) + Nodes(kid)
  {
    ghost var kids := Sub(s, path).value.kids;
    ghost var memory := map n | n in Nodes(s) :: n.items;
    BeforeWrite(s, path, key);
    StillHolds(s, memory);
    assert (kids - {key})[key := kid] == kids[key := kid];
    SetItem(node, key, value, kids - {key}, kid, Nodes(s) - {node}, false, memory);
    AfterWrite(s, path, key, kid, memory);
    t := Regrown(s, path, kids[key := kid]);
  }

  lemma SubKidsApart(s: Shape, key: Key)
    requires s.At? && Separate(s)
    ensures s.node !in AllNodes(s.kids - {key})
  {
  }

  lemma {:induction false} SubSeparate(s: Shape, path: Path)
    requires Separate(s) && DictAt(s, path)
    ensures Separate(Sub(s, path).value)
  {
    if path != [] {
      SubSeparate(s.kids[path[0]], path[1..]);
    }
  }

  lemma KidsSeparate(s: Shape, key: Key, kid: Shape)
    requires s.At? && Separate(s) && Separate(kid) && Nodes(kid) !! Nodes(s)
    ensures Separate(At(s.node, s.kids[key := kid]))
    ensures Nodes(At(s.node, s.kids[key := kid])) <= Nodes(s) + Nodes(kid)
  {
    forall k | k in s.kids ensures Nodes(s.kids[k]) <= Nodes(s) {
      KidNodes(s, k);
    }
  }

  /** A step of the walk: the missing dictionary is made, and the path is no easier to set than before. */
  lemma MadeOnTheWay(s: Shape, path: Path, i: nat, child: DictNode, v: Tree)
    requires i + 1 < |path| && DictAt(s, path[..i]) && path[i] !in Sub(s, path[..i]).value.kids
    ensures var t := Regrown(s, path[..i], Sub(s, path[..i]).value.kids[path[i] := At(child, map[])]);
            && t.At? && t.node == s.node
            && Sub(t, path[..i + 1]) == Some(At(child, map[]))
            && Set(Content(t), path, v) == Set(Content(s), path, v)
  {
    var pre, key, kid := path[..i], path[i], At(child, map[]);
    var kids := Sub(s, pre).value.kids[key := kid];
    var t := Regrown(s, pre, kids);
    SubRegrown(s, pre, kids);
    SubStep(t, pre, key);
    assert pre + [key] == path[..i + 1];
    GetMissing(s, pre, key);
    RegrownIsSet(s, pre, key, kid);
    assert Content(kid) == Dict(map[]);
    SetAfterMaking(Content(s), path[..i + 1], path[i + 1..], v);
    assert path[..i + 1] + path[i + 1..] == path;
  }

  /** Where the walk of `nested_set` stands: the tree so far, and what the path leads to in it. */
  ghost predicate Walking(t: Shape, root: DictNode, path: Path, i: nat, node: Value)
    reads Nodes(t)
  {
    && t.At? && t.node == root && Holds(t) && Separate(t) && i < |path|
    && Sub(t, path[..i]).Some? && Refers(node, Sub(t, path[..i]).value)
  }

  /** The missing dictionary of a path is made. */
  method Make(root: DictNode, node: DictNode, path: Path, i: nat, ghost t: Shape, ghost v: Tree,
              ghost mine: set<DictNode>, ghost theirs: set<DictNode>)
    returns (ghost u: Shape)
    requires Walking(t, root, path, i, Ref(node)) && i + 1 < |path|
    requires path[i] !in node.items && path[i] !in Sub(t, path[..i]).value.kids
    requires Nodes(t) == mine && mine !! theirs
    modifies node
    ensures path[i] in node.items && Walking(u, root, path, i + 1, node.items[path[i]])
    ensures node.items[path[i]].Ref? && node.items[path[i]].node.items == map[]
    ensures Nodes(u) !! theirs && forall n :: n in Nodes(u) ==> n in mine || fresh(n)
    ensures Set(Content(u), path, v) == Set(Content(t), path, v)
  {
    var child := new DictNode();
    ghost var kid := At(child, map[]);
    SubNodes(t, path[..i]);
    MadeOnTheWay(t, path, i, child, v);
    u := PutAt(node, path[i], Ref(child), t, path[..i], kid);
    SubRegrown(t, path[..i], Sub(t, path[..i]).value.kids[path[i] := kid]);
    SubHolds(u, path[..i]);
  }

  lemma WalkStep(t: Shape, root: DictNode, path: Path, i: nat, node: DictNode)
    requires Walking(t, root, path, i, Ref(node)) && i + 1 < |path|
    ensures node in Nodes(t)
    ensures path[i] in node.items <==> path[i] in Sub(t, path[..i]).value.kids
    ensures path[i] in node.items ==> Walking(t, root, path, i + 1, node.items[path[i]])
  {
    SubNodes(t, path[..i]);
    SubHolds(t, path[..i]);
    SubStep(t, path[..i], path[i]);
    assert path[..i] + [path[i]] == path[..i + 1];
  }

  lemma WalkBlocked(t: Shape, root: DictNode, path: Path, i: nat, node: Value, v: Tree)
    requires Walking(t, root, path, i, node) && node.Plain?
    ensures Set(Content(t), path, v) == None
  {
    assert path[..i] + path[i..] == path;
    SetBlocked(t, path[..i], path[i..], v);
  }

  /** One iteration of the walk; `vs` is held elsewhere. */
  method Descend(root: DictNode, dict: DictNode, path: Path, i: nat, ghost t: Shape, ghost vs: Shape,
                 ghost mine: set<DictNode>, ghost theirs: set<DictNode>)
    returns (node: Value, ghost u: Shape)
    requires Walking(t, root, path, i, Ref(dict)) && i + 1 < |path|
    requires Nodes(t) == mine && Nodes(vs) == theirs && mine !! theirs && Holds(vs)
    modifies dict
    ensures Holds(vs) && Walking(u, root, path, i + 1, node)
    ensures (u == t && path[i] in old(dict.items)) || (node.Ref? && node.node.items == map[])
    ensures Nodes(u) !! theirs && forall n :: n in Nodes(u) ==> n in mine || fresh(n)
    ensures Set(Content(u), path, Content(vs)) == Set(Content(t), path, Content(vs))
  {
    u := t;
    WalkStep(t, root, path, i, dict);
    if path[i] !in dict.items {
      u := Make(root, dict, path, i, t, Content(vs), mine, theirs);
    }
    node := dict.items[path[i]];
  }

  /** The loop of `nested_set`: down to the dictionary that gets the value; not ok is an error. */
  method Walk(root: DictNode, path: Path, ghost s: Shape, ghost v: Shape, ghost mine: set<DictNode>, ghost theirs: set<DictNode>)
    returns (ok: bool, node: Value, ghost t: Shape)
    requires path != [] && s.At? && s.node == root && Holds(s) && Separate(s)
    requires Nodes(s) == mine && Nodes(v) == theirs && mine !! theirs && Holds(v)
    modifies mine
    ensures Holds(v)
    ensures !ok ==> Holds(s) && Set(Content(s), path, Content(v)) == None
    ensures ok ==> Walking(t, root, path, |path| - 1, node) && (t == s || node.Ref?)
    ensures ok ==> Nodes(t) !! theirs && forall n :: n in Nodes(t) ==> n in mine || fresh(n)
    ensures ok ==> Set(Content(t), path, Content(v)) == Set(Content(s), path, Content(v))
  {
    t := s;
    node := Ref(root);
    var i := 0;
    while i < |path| - 1 && node.Ref?
      invariant 0 <= i <= |path| - 1
      invariant Walking(t, root, path, i, node)
      invariant t == s || (node.Ref? && node.node.items == map[])
      invariant Holds(v)
      invariant Nodes(t) !! theirs && forall n :: n in Nodes(t) ==> n in mine || fresh(n)
      invariant Set(Content(t), path, Content(v)) == Set(Content(s), path, Content(v))
    {
      WalkStep(t, root, path, i, node.node);
      node, t := Descend(root, node.node, path, i, t, v, Nodes(t), theirs);
      i := i + 1;
    }
    ok := i == |path| - 1;
    if !ok {
      WalkBlocked(t, root, path, i, node, Content(v));
    }
  }

  /** `nested_set`: the dictionary becomes what setting the path gives; an error leaves it as it was. */
  method NestedSet(root: DictNode, path: Path, value: Value, ghost s: Shape, ghost v: Shape)
    returns (ok: bool, ghost t: Shape)
    requires s.At? && s.node == root && Holds(s) && Separate(s)
    requires Refers(value, v) && Holds(v) && Separate(v) && Nodes(v) !! Nodes(s)
    modifies Nodes(s)
    ensures t.At? && t.node == root && Holds(t)
    ensures ok <==> Set(Content(s), path, Content(v)).Some?
    ensures ok ==> Set(Content(s), path, Content(v)) == Some(Content(t))
    ensures !ok ==> t == s
  {
    t := s;
    if path == [] {
      return false, s;
    }
    var node;
    ok, node, t := Walk(root, path, s, v, Nodes(s), Nodes(v));
    if !ok {
      return false, s;
    }
    var last := |path| - 1;
    if node.Plain? {
      WalkBlocked(t, root, path, last, node, Content(v));
      return false, s;
    }
    SubNodes(t, path[..last]);
    assert path[..last] + [path[last]] == path;
    RegrownIsSet(t, path[..last], path[last], v);
    SubRegrown(t, path[..last], Sub(t, path[..last]).value.kids[path[last] := v]);
    t := PutAt(node.node, path[last], value, t, path[..last], v);
  }

  /** Deleting at a path depends on what the path without its last key reads. */
  lemma {:induction false} DeleteVia(t: Tree, path: Path, key: Key)
    ensures var g := Get(t, path);
            var d := Delete(t, path + [key]);
            && (g == Error || (g.Found? && g.value.Leaf? && g.value.atom.truthy) ==> d == None)
            && (g == Default || (g.Found? && g.value.Leaf? && !g.value.atom.truthy) ==> d == Some((false, t)))
            && (g.Found? && g.value.Dict? && key !in g.value.kids ==> d == Some((false, t)))
  {
    if path != [] {
      assert (path + [key])[1..] == path[1..] + [key];
      if t.Dict? && path[0] in t.kids {
        DeleteVia(t.kids[path[0]], path[1..], key);
        assert t.kids[path[0] := t.kids[path[0]]] == t.kids;
      }
    }
  }

  lemma {:induction false} RegrownIsDelete(s: Shape, path: Path, key: Key)
    requires DictAt(s, path) && key in Sub(s, path).value.kids
    ensures Delete(Content(s), path + [key]) ==
              Some((true, Content(Regrown(s, path, Sub(s, path).value.kids - {key}))))
  {
    if path == [] {
      assert path + [key] == [key];
      assert Content(At(s.node, s.kids - {key})).kids == Content(s).kids - {key};
    } else {
      var h, x := path[0], s.kids[path[0]];
      assert (path + [key])[1..] == path[1..] + [key];
      RegrownIsDelete(x, path[1..], key);
      ContentWith(s, h, Regrown(x, path[1..], Sub(s, path).value.kids - {key}));
      assert Content(s).kids[h] == Content(x);
    }
  }

  /** `del node[key]` for one dictionary. */
  method DelItem(node: DictNode, key: Key, ghost sub: Shape, ghost rest: set<DictNode>, ghost m: Memory)
    requires sub.At? && sub.node == node && Holds(sub) && Separate(sub) && key in node.items
    requires Same(rest, m) && node !in rest
    modifies node
    ensures Holds(At(node, sub.kids - {key}))
    ensures Same(rest, m)
  {
    ghost var others := sub.kids - {key};
    SubKidsApart(sub, key);
    assert AllHold(others);
    node.items := node.items - {key};
    assert AllHold(others);
  }

  /** `nested_delete`. */
  method NestedDelete(root: DictNode, path: Path, ghost s: Shape) returns (deleted: bool, error: bool, ghost t: Shape)
    requires s.At? && s.node == root && Holds(s) && Separate(s)
    modifies Nodes(s)
    ensures t.At? && t.node == root && Holds(t)
    ensures error <==> Delete(Content(s), path).None?
    ensures !error ==> Delete(Content(s), path) == Some((deleted, Content(t)))
    ensures error || !deleted ==> t == s
  {
    if path == [] {
      return false, true, s;
    }
    var parentPath, key := path[..|path| - 1], path[|path| - 1];
    assert parentPath + [key] == path;
    DeleteVia(Content(s), parentPath, key);
    var parent, failed;
    ghost var at;
    parent, failed, at := NestedGet(root, parentPath, s);
    if failed {
      return false, true, s;
    }
    if parent.None? {
      return false, false, s;
    }
    if parent.value.Plain? {
      return false, parent.value.atom.truthy, s;
    }
    var node := parent.value.node;
    SubNodes(s, parentPath);
    SubHolds(s, parentPath);
    if key !in node.items {
      return false, false, s;
    }
    RegrownIsDelete(s, parentPath, key);
    t := DeleteAt(node, key, s, parentPath, at);
    return true, false, t;
  }

  method DeleteAt(node: DictNode, key: Key, ghost s: Shape, ghost path: Path, ghost sub: Shape) returns (ghost t: Shape)
    requires Holds(s) && Separate(s) && DictAt(s, path) && Sub(s, path) == Some(sub) && sub.node == node
    requires key in node.items && node in Nodes(s)
    modifies node
    ensures t == Regrown(s, path, sub.kids - {key}) && Holds(t) && t.node == s.node
  {
    ghost var memory := map n | n in Nodes(s) :: n.items;
    SubHolds(s, path);
    SubSeparate(s, path);
    StillHolds(s, memory);
    DelItem(node, key, sub, Nodes(s) - {node}, memory);
    RegrownHolds(s, path, sub.kids - {key}, memory);
    SubRegrown(s, path, sub.kids - {key});
    t := Regrown(s, path, sub.kids - {key});
  }
}
