/**
 The parameter key escaper (utilities/parameter_key_escaper.py): keys are rewritten so that they can
 be used as field names, by a chain of textual replacements, and read back by the reverse chain.
 */
module KeyEscaper {
  import opened Common
  import opened PyStrings

  // ----------------------------------------------------------------- the escaper

  const MAPPING: seq<(string, string)> := [(".", "%2E"), ("$", "%24"), ("__", "%_%_")]

  /** A chain of replacements, first to last. */
  function Chain(value: string, rules: seq<(string, string)>): string
    requires forall i :: 0 <= i < |rules| ==> rules[i].0 != ""
    decreases |rules|
  {
    if |rules| == 0 then value else Chain(Replace(value, rules[0].0, rules[0].1), rules[1..])
  }

  function Inverse(rules: seq<(string, string)>): (r: seq<(string, string)>)
    ensures |r| == |rules| && forall i :: 0 <= i < |r| ==> r[i] == (rules[i].1, rules[i].0)
  {
    if |rules| == 0 then [] else [(rules[0].1, rules[0].0)] + Inverse(rules[1..])
  }

  /** What `escape` does to a stripped key. */
  function Escaped(key: string): string {
    var value := Chain(Replace(key, "%", "%%"), MAPPING);
    if "_" <= value then "%_" + value[1..] else value
  }

  function UnescapedPart(value: string): string {
    Chain(value, Inverse(MAPPING))
  }

  function UnescapedParts(parts: seq<string>): (r: seq<string>)
    ensures |r| == |parts|
  {
    if |parts| == 0 then [] else [UnescapedPart(parts[0])] + UnescapedParts(parts[1..])
  }

  function Unescaped(value: string): string {
    var joined := Join(UnescapedParts(Split(value, "%%")), "%");
    if "%_" <= joined then "_" + joined[2..] else joined
  }

  class ParameterKeyEscaper {
    static method Escape(value: string) returns (r: Result<string, string>)
      ensures forall pre, key, post :: Padded(value, pre, key, post) ==>
                && (r.Err? <==> key == "")
                && (r.Ok? ==> r.value == Escaped(key) && (Unescaped(r.value) == key <==> !("%_" <= key)))
      ensures r.Err? <==> Blank(value)
    {
      forall pre, key, post | Padded(value, pre, key, post)
        ensures Strip(value) == key
        ensures Unescaped(Escaped(key)) == key <==> !("%_" <= key)
      {
        StripPadded(pre, key, post);
        RoundTrip(key);
      }
      var v := Strip(value);
      if v == "" {
        return Err("Empty key is not allowed");
      }
      v := Replace(v, "%", "%%");
      ghost var start := v;
      var i := 0;
      while i < |MAPPING|
        invariant i <= |MAPPING|
        invariant Chain(v, MAPPING[i..]) == Chain(start, MAPPING)
      {
        v := Replace(v, MAPPING[i].0, MAPPING[i].1);
        i := i + 1;
      }
      if "_" <= v {
        v := "%_" + v[1..];
      }
      return Ok(v);
    }

    static method UnescapePart(value: string) returns (v: string)
      ensures v == UnescapedPart(value)
    {
      v := value;
      var i, rules := 0, Inverse(MAPPING);
      while i < |rules|
        invariant i <= |rules|
        invariant Chain(v, rules[i..]) == Chain(value, rules)
      {
        v := Replace(v, rules[i].0, rules[i].1);
        i := i + 1;
      }
    }

    static method UnescapeParts(parts: seq<string>) returns (done: seq<string>)
      ensures done == UnescapedParts(parts)
    {
      done := [];
      var i := 0;
      while i < |parts|
        invariant i <= |parts| && |done| == i
        invariant done + UnescapedParts(parts[i..]) == UnescapedParts(parts)
      {
        var part := UnescapePart(parts[i]);
        NextPart(parts, i);
        done := done + [part];
        i := i + 1;
      }
    }

    static method Unescape(value: string) returns (v: string)
      ensures v == Unescaped(value)
      ensures forall key :: value == Escaped(key) ==> v == if "%_" <= key then key[1..] else key
    {
      var parts := UnescapeParts(Split(value, "%%"));
      v := Join(parts, "%");
      if "%_" <= v {
        v := "_" + v[2..];
      }
      forall key | value == Escaped(key)
        ensures Unescaped(value) == if "%_" <= key then key[1..] else key
      {
        ReadBack(key);
      }
    }
  }

  lemma NextPart(parts: seq<string>, i: nat)
    requires i < |parts|
    ensures UnescapedParts(parts[i..]) == [UnescapedPart(parts[i])] + UnescapedParts(parts[i + 1..])
  {
    assert parts[i..][1..] == parts[i + 1..];
  }

  // ----------------------------------------------------- the escaper in one pass

  /** Where a pair of underscores comes next. */
  predicate Pair(k: string) {
    |k| >= 2 && k[0] == '_' && k[1] == '_'
  }

  /** The code of one character; from stage 1 on dots are plain, from stage 2 on dollars are too. */
  function Code(c: char, stage: nat): string {
    if c == '%' then "%%"
    else if c == '.' && stage < 1 then "%2E"
    else if c == '$' && stage < 2 then "%24"
    else [c]
  }

  /** The chain of replacements read off the key from left to right; stage 0 is the whole chain. */
  function Encode(k: string, stage: nat): string {
    if k == "" then ""
    else if Pair(k) then "%_%_" + Encode(k[2..], stage)
    else Code(k[0], stage) + Encode(k[1..], stage)
  }

  /** The same before the pairs are replaced. */
  function Coded(k: string): string {
    if k == "" then "" else Code(k[0], 0) + Coded(k[1..])
  }

  /** The replacements of single characters act on each character on its own. */
  lemma {:induction false} CodedIsChained(k: string)
    ensures Replace(Replace(Replace(k, "%", "%%"), ".", "%2E"), "$", "%24") == Coded(k)
  {
    if k != "" {
      var c, rest := [k[0]], k[1..];
      CodedIsChained(rest);
      assert k == c + rest;
      var p, q := Replace(c, "%", "%%"), Replace(rest, "%", "%%");
      ReplaceCharConcat(c, rest, '%', "%%");
      ReplaceCharConcat(p, q, '.', "%2E");
      ReplaceCharConcat(Replace(p, ".", "%2E"), Replace(q, ".", "%2E"), '$', "%24");
      CodeIsChained(k[0]);
    }
  }

  lemma CodeIsChained(c: char)
    ensures Replace(Replace(Replace([c], "%", "%%"), ".", "%2E"), "$", "%24") == Code(c, 0)
  {
    ReplaceOnly(c, Code(c, 0));
    if c == '%' {
      ReplaceAbsent("%%", '.', "%2E");
      ReplaceAbsent("%%", '$', "%24");
    } else {
      ReplaceAbsent([c], '%', "%%");
      if c == '.' {
        ReplaceAbsent("%2E", '$', "%24");
      } else {
        ReplaceAbsent([c], '.', "%2E");
        if c != '$' {
          ReplaceAbsent([c], '$', "%24");
        }
      }
    }
  }

  lemma CodedHead(k: string)
    ensures k == "" <==> Coded(k) == ""
    ensures k != "" ==> (Coded(k)[0] == '_' <==> k[0] == '_')
  {
  }

  lemma CodedUnderscore(k: string)
    requires k != "" && k[0] == '_'
    ensures Coded(k) == "_" + Coded(k[1..])
  {
  }

  lemma CodedPair(k: string)
    requires Pair(k)
    ensures Coded(k) == "__" + Coded(k[2..])
  {
    var x := Coded(k[2..]);
    CodedUnderscore(k);
    CodedUnderscore(k[1..]);
    assert k[1..][1..] == k[2..];
    assert "_" + ("_" + x) == "__" + x;
  }

  /** Replacing the pairs afterwards gives the encoding. */
  lemma {:induction false} EncodeIsChained(k: string)
    ensures Replace(Coded(k), "__", "%_%_") == Encode(k, 0)
    decreases |k|
  {
    if k == "" {
    } else if Pair(k) {
      EncodeIsChained(k[2..]);
      CodedPair(k);
      ReplaceHit("__", Coded(k[2..]), "%_%_");
    } else {
      EncodeIsChained(k[1..]);
      CodedHead(k[1..]);
      if k[0] == '_' {
        ReplaceMiss('_', Coded(k[1..]), "__", "%_%_", 1);
      } else {
        ReplaceSkip(Code(k[0], 0), Coded(k[1..]), "__", "%_%_");
      }
    }
  }

  /** The escaped form of a key, in one pass. */
  lemma {:induction false} EscapedIsEncoded(k: string)
    ensures Escaped(k) == if "_" <= Encode(k, 0) then "%_" + Encode(k, 0)[1..] else Encode(k, 0)
  {
    CodedIsChained(k);
    EncodeIsChained(k);
    var v := Replace(k, "%", "%%");
    assert Chain(v, MAPPING) == Chain(Replace(v, ".", "%2E"), MAPPING[1..]);
    assert MAPPING[1..][1..] == MAPPING[2..] && MAPPING[2..][1..] == [];
  }

  // ----------------------------------------------------------------- reading back

  /** The parts of a key between percent signs hold none. */
  lemma {:induction false} PartsHoldNoPercent(k: string)
    ensures forall i :: 0 <= i < |Split(k, "%")| ==> '%' !in Split(k, "%")[i]
    ensures Join(Split(k, "%"), "%") == k
  {
    if k != "" {
      PartsHoldNoPercent(k[1..]);
    }
  }

  function Encodes(parts: seq<string>): (r: seq<string>)
    ensures |r| == |parts|
  {
    if |parts| == 0 then [] else [Encode(parts[0], 0)] + Encodes(parts[1..])
  }

  /** A code other than that of the percent sign is never taken for a separator. */
  lemma SplitCode(c: char, s: string)
    requires c != '%'
    ensures Split(Code(c, 0) + s, "%%") == Onto(Code(c, 0), Split(s, "%%"))
  {
    if c == '.' || c == '$' {
      var tail := Code(c, 0)[1..];
      assert Code(c, 0) + s == ['%'] + (tail + s);
      SplitMiss('%', tail + s, "%%", 1);
      SplitSkip(tail, s, "%%");
      OntoOnto("%", tail, Split(s, "%%"));
      assert "%" + tail == Code(c, 0);
    } else {
      SplitSkip([c], s, "%%");
    }
  }

  lemma SplitPair(s: string)
    ensures Split("%_" + s, "%%") == Onto("%_", Split(s, "%%"))
    ensures Split("%_%_" + s, "%%") == Onto("%_%_", Split(s, "%%"))
  {
    SplitHalf(s);
    SplitHalf("%_" + s);
    assert "%_%_" + s == "%_" + ("%_" + s);
    OntoOnto("%_", "%_", Split(s, "%%"));
    assert "%_" + "%_" == "%_%_";
  }

  lemma SplitHalf(s: string)
    ensures Split("%_" + s, "%%") == Onto("%_", Split(s, "%%"))
  {
    assert "%_" + s == ['%'] + ("_" + s);
    SplitMiss('%', "_" + s, "%%", 1);
    SplitSkip("_", s, "%%");
    OntoOnto("%", "_", Split(s, "%%"));
    assert "%" + "_" == "%_";
  }

  lemma {:induction false} FirstPart(k: string)
    ensures Split(k, "%")[0] <= k
    ensures |Split(k, "%")[0]| < |k| ==> k[|Split(k, "%")[0]|] == '%'
  {
    if k != "" {
      FirstPart(k[1..]);
    }
  }

  /** Splitting the encoding at "%%" is splitting the key at "%". */
  lemma {:induction false} SplitEncoded(k: string)
    ensures Split(Encode(k, 0), "%%") == Encodes(Split(k, "%"))
    decreases |k|
  {
    if k == "" {
    } else if k[0] == '%' {
      SplitEncoded(k[1..]);
      assert k == "%" + k[1..];
      SplitHit("%", k[1..]);
      SplitHit("%%", Encode(k[1..], 0));
    } else if Pair(k) {
      SplitEncoded(k[2..]);
      SplitPair(Encode(k[2..], 0));
      assert k == "__" + k[2..];
      SplitSkip("__", k[2..], "%");
      EncodeOnto("__", Split(k[2..], "%"));
    } else {
      SplitEncoded(k[1..]);
      SplitCode(k[0], Encode(k[1..], 0));
      assert k == [k[0]] + k[1..];
      SplitSkip([k[0]], k[1..], "%");
      FirstPart(k[1..]);
      EncodeOnto([k[0]], Split(k[1..], "%"));
    }
  }

  /** A pair, or a character that makes no pair with what follows, is encoded on its own. */
  lemma EncodeOnto(x: string, parts: seq<string>)
    requires |parts| > 0
    requires x == "__" || (|x| == 1 && !Pair(x + parts[0]))
    ensures Encodes(Onto(x, parts)) == Onto(Encode(x, 0), Encodes(parts))
  {
    var first := parts[0];
    assert Encode(x + first, 0) == Encode(x, 0) + Encode(first, 0) by {
      assert (x + first)[|x|..] == first;
      assert Encode("", 0) == "";
      assert x[|x|..] == "";
    }
    assert Onto(x, parts)[1..] == parts[1..];
  }

  // ----------------------------------------------------------- restoring one part

  /** The half of a pair's code is no code of a dot or a dollar. */
  lemma {:induction false} ReplaceHalf(s: string, sub: string, other: string)
    requires |sub| >= 2 && sub[0] == '%' && sub[1] != '_'
    ensures Replace("%_" + s, sub, other) == "%_" + Replace(s, sub, other)
  {
    assert "%_" + s == ['%'] + ("_" + s);
    ReplaceMiss('%', "_" + s, sub, other, 1);
    ReplaceSkip("_", s, sub, other);
    assert ['%'] + ("_" + Replace(s, sub, other)) == "%_" + Replace(s, sub, other);
  }

  lemma {:induction false} ReplacePair(s: string, sub: string, other: string)
    requires |sub| >= 2 && sub[0] == '%' && sub[1] != '_'
    ensures Replace("%_%_" + s, sub, other) == "%_%_" + Replace(s, sub, other)
  {
    var h := "%_";
    var t := Replace(s, sub, other);
    assert h + (h + s) == "%_%_" + s && h + (h + t) == "%_%_" + t;
    ReplaceHalf(s, sub, other);
    ReplaceHalf(h + s, sub, other);
  }

  /** The code of a dollar is no code of a dot. */
  lemma ReplaceDollar(s: string)
    ensures Replace("%24" + s, "%2E", ".") == "%24" + Replace(s, "%2E", ".")
  {
    var t := Replace(s, "%2E", ".");
    assert "%24" + s == ['%'] + ("24" + s);
    ReplaceMiss('%', "24" + s, "%2E", ".", 2);
    ReplaceSkip("24", s, "%2E", ".");
    assert ['%'] + ("24" + t) == "%24" + t;
  }

  lemma {:induction false} RestoreDots(s: string)
    requires '%' !in s
    ensures Replace(Encode(s, 0), "%2E", ".") == Encode(s, 1)
    decreases |s|
  {
    if s == "" {
    } else if Pair(s) {
      RestoreDots(s[2..]);
      ReplacePair(Encode(s[2..], 0), "%2E", ".");
    } else {
      var x := Encode(s[1..], 0);
      RestoreDots(s[1..]);
      if s[0] == '.' {
        ReplaceHit("%2E", x, ".");
      } else if s[0] == '$' {
        ReplaceDollar(x);
      } else {
        ReplaceSkip([s[0]], x, "%2E", ".");
      }
    }
  }

  lemma {:induction false} RestoreDollars(s: string)
    requires '%' !in s
    ensures Replace(Encode(s, 1), "%24", "$") == Encode(s, 2)
    decreases |s|
  {
    if s == "" {
    } else if Pair(s) {
      RestoreDollars(s[2..]);
      ReplacePair(Encode(s[2..], 1), "%24", "$");
    } else {
      RestoreDollars(s[1..]);
      if s[0] == '$' {
        ReplaceHit("%24", Encode(s[1..], 1), "$");
      } else {
        ReplaceSkip([s[0]], Encode(s[1..], 1), "%24", "$");
      }
    }
  }

  lemma {:induction false} RestorePairs(s: string)
    requires '%' !in s
    ensures Replace(Encode(s, 2), "%_%_", "__") == s
    decreases |s|
  {
    if s == "" {
    } else if Pair(s) {
      RestorePairs(s[2..]);
      ReplaceHit("%_%_", Encode(s[2..], 2), "__");
      assert s == "__" + s[2..];
    } else {
      RestorePairs(s[1..]);
      ReplaceSkip([s[0]], Encode(s[1..], 2), "%_%_", "__");
    }
  }

  lemma UnescapedPartIsChained(v: string)
    ensures UnescapedPart(v) == Replace(Replace(Replace(v, "%2E", "."), "%24", "$"), "%_%_", "__")
  {
    assert Inverse(MAPPING) == [("%2E", "."), ("%24", "$"), ("%_%_", "__")];
    assert [("%24", "$"), ("%_%_", "__")][1..] == [("%_%_", "__")];
    assert [("%2E", "."), ("%24", "$"), ("%_%_", "__")][1..] == [("%24", "$"), ("%_%_", "__")];
    var w := Replace(Replace(v, "%2E", "."), "%24", "$");
    assert Chain(w, [("%_%_", "__")]) == Replace(w, "%_%_", "__");
  }

  /** A part without percent signs is read back. */
  lemma PartIsRestored(s: string)
    requires '%' !in s
    ensures UnescapedPart(Encode(s, 0)) == s
  {
    UnescapedPartIsChained(Encode(s, 0));
    RestoreDots(s);
    RestoreDollars(s);
    RestorePairs(s);
  }

  /** So it is after the code of a leading underscore, which stays as it is. */
  lemma FirstPartIsRestored(s: string)
    requires '%' !in s && !("_" <= s)
    ensures UnescapedPart("%_" + Encode(s, 0)) == "%_" + s
  {
    UnescapedPartIsChained("%_" + Encode(s, 0));
    ReplaceHalf(Encode(s, 0), "%2E", ".");
    RestoreDots(s);
    ReplaceHalf(Encode(s, 1), "%24", "$");
    RestoreDollars(s);
    RestorePairs(s);
    assert Encode(s, 2) == "" || Encode(s, 2)[0] != '%';
    ReplaceLoneHalf(Encode(s, 2));
  }

  lemma ReplaceLoneHalf(s: string)
    requires s == "" || s[0] != '%'
    ensures Replace("%_" + s, "%_%_", "__") == "%_" + Replace(s, "%_%_", "__")
  {
    var t := Replace(s, "%_%_", "__");
    assert "%_" + s == ['%'] + ("_" + s);
    ReplaceMiss('%', "_" + s, "%_%_", "__", 2);
    ReplaceSkip("_", s, "%_%_", "__");
    assert ['%'] + ("_" + t) == "%_" + t;
  }

  lemma {:induction false} PartsAreRestored(parts: seq<string>)
    requires forall i :: 0 <= i < |parts| ==> '%' !in parts[i]
    ensures UnescapedParts(Encodes(parts)) == parts
  {
    if |parts| > 0 {
      PartIsRestored(parts[0]);
      PartsAreRestored(parts[1..]);
    }
  }

  // --------------------------------------------------------------- the round trip

  /** A key whose encoding is kept is read back, except for the last step. */
  lemma JoinedPlain(k: string)
    ensures Join(UnescapedParts(Split(Encode(k, 0), "%%")), "%") == k
  {
    SplitEncoded(k);
    PartsHoldNoPercent(k);
    PartsAreRestored(Split(k, "%"));
  }

  /** So is the rest of a key that starts with an underscore on its own. */
  lemma JoinedUnderscore(rest: string)
    requires !("_" <= rest)
    ensures Join(UnescapedParts(Split("%_" + Encode(rest, 0), "%%")), "%") == "%_" + rest
  {
    var parts := Split(rest, "%");
    SplitPair(Encode(rest, 0));
    SplitEncoded(rest);
    PartsHoldNoPercent(rest);
    FirstPart(rest);
    FirstPartIsRestored(parts[0]);
    PartsAreRestored(parts[1..]);
    assert Onto("%_", Encodes(parts))[1..] == Encodes(parts[1..]);
    assert UnescapedParts(Onto("%_", Encodes(parts))) == Onto("%_", parts);
    JoinOnto("%_", parts);
  }

  lemma {:induction false} JoinOnto(x: string, parts: seq<string>)
    requires |parts| > 0
    ensures Join(Onto(x, parts), "%") == x + Join(parts, "%")
  {
    var first, rest := parts[0], parts[1..];
    assert Onto(x, parts) == [x + first] + rest;
    if rest != [] {
      var tail := "%" + Join(rest, "%");
      assert Join(parts, "%") == first + tail;
      assert (x + first) + tail == x + (first + tail);
    }
  }

  /** How the encoding of a key starts. */
  lemma EncodeHead(k: string)
    ensures "_" <= Encode(k, 0) <==> "_" <= k && !Pair(k)
    ensures "_" <= k && !Pair(k) ==> Encode(k, 0) == "_" + Encode(k[1..], 0)
  {
  }

  /** What reading back an escaped key gives. */
  lemma {:induction false} ReadBack(k: string)
    ensures Unescaped(Escaped(k)) == if "%_" <= k then "_" + k[2..] else k
  {
    EscapedIsEncoded(k);
    EncodeHead(k);
    if "_" <= Encode(k, 0) {
      JoinedUnderscore(k[1..]);
      assert ("%_" + k[1..])[2..] == k[1..];
    } else {
      JoinedPlain(k);
    }
  }

  /** The round trip holds exactly when the stripped key does not start with "%_". */
  lemma {:induction false} RoundTrip(k: string)
    ensures Unescaped(Escaped(k)) == k <==> !("%_" <= k)
  {
    ReadBack(k);
    if "%_" <= k {
      assert ("_" + k[2..])[0] != k[0];
    }
  }

  /** The codes. */
  lemma CodesAre()
    ensures Escaped(".") == "%2E" && Escaped("$") == "%24" && Escaped("%") == "%%"
    ensures Escaped("_") == "%_" && Escaped("__") == "%_%_"
  {
    CodeIs('.');
    CodeIs('$');
    CodeIs('%');
    CodeIs('_');
    EscapedIsEncoded("__");
    assert "__"[2..] == "";
  }

  lemma CodeIs(c: char)
    ensures Escaped([c]) == if c == '_' then "%_" else Code(c, 0)
  {
    EscapedIsEncoded([c]);
    assert [c][1..] == "";
  }

  lemma RoundTripFails()
    ensures Unescaped(Escaped("%_a")) == "_a"
  {
    ReadBack("%_a");
  }

  /** Different stripped keys have different escaped forms, even where the round trip fails. */
  lemma EscapedIsInjective(k: string, l: string)
    requires Escaped(k) == Escaped(l)
    ensures k == l
  {
    ReadBack(k);
    ReadBack(l);
    if "%_" <= k && "%_" <= l {
      assert ("_" + k[2..])[1..] == k[2..] && ("_" + l[2..])[1..] == l[2..];
      assert k == "%_" + k[2..] && l == "%_" + l[2..];
    } else if "%_" <= k {
      StayApart(k, l);
    } else if "%_" <= l {
      StayApart(l, k);
    }
  }

  /** Keys that start with an underscore and those that start with a percent sign stay apart. */
  lemma StayApart(k: string, l: string)
    requires "%" <= k && "_" <= l
    ensures Escaped(k) != Escaped(l)
  {
    EscapedIsEncoded(k);
    EscapedIsEncoded(l);
    assert "%%" <= Escaped(k) && "%_" <= Escaped(l);
    assert Escaped(k)[1] != Escaped(l)[1];
  }

  // ------------------------------------------------------------ safe as field names

  lemma {:induction false} EncodeIsPlain(k: string)
    ensures '.' !in Encode(k, 0) && '$' !in Encode(k, 0)
    decreases |k|
  {
    if k == "" {
    } else if Pair(k) {
      EncodeIsPlain(k[2..]);
    } else {
      EncodeIsPlain(k[1..]);
    }
  }

  /** An escaped key holds no dot and no dollar, and does not start with an underscore. */
  lemma EscapedIsSafe(k: string)
    ensures '.' !in Escaped(k) && '$' !in Escaped(k)
    ensures !("_" <= Escaped(k))
  {
    EscapedIsEncoded(k);
    EncodeIsPlain(k);
  }

  predicate Double(s: string) {
    exists i :: 0 <= i < |s| - 1 && s[i] == '_' && s[i + 1] == '_'
  }

  /** `k[i..j]` is a run of underscores that cannot be extended. */
  predicate Run(k: string, i: nat, j: nat) {
    && i < j <= |k|
    && (forall x :: i <= x < j ==> k[x] == '_')
    && (i == 0 || k[i - 1] != '_')
    && (j == |k| || k[j] != '_')
  }

  ghost predicate HasOddRun(k: string) {
    exists i: nat, j: nat :: Run(k, i, j) && j - i >= 3 && (j - i) % 2 == 1
  }

  /** An underscore that makes no pair comes next. */
  predicate Lone(k: string) {
    "_" <= k && !Pair(k)
  }

  lemma RunShiftsLeft(k: string, d: nat, i: nat, j: nat)
    requires d <= |k| && d <= i && Run(k, i, j)
    ensures Run(k[d..], i - d, j - d)
  {
  }

  lemma RunShiftsRight(k: string, d: nat, i: nat, j: nat)
    requires 0 < d <= |k| && Run(k[d..], i, j)
    requires i > 0 || k[d - 1] != '_'
    ensures Run(k, i + d, j + d)
  {
    assert forall x :: i + d <= x < j + d ==> k[x] == k[d..][x - d];
  }

  /** The first pair takes two underscores off a run. */
  lemma OddRunAfterPair(k: string)
    requires Pair(k)
    ensures HasOddRun(k) <==> Lone(k[2..]) || HasOddRun(k[2..])
  {
    var r := k[2..];
    if i: nat, j: nat :| Run(k, i, j) && j - i >= 3 && (j - i) % 2 == 1 {
      if i >= 2 {
        RunShiftsLeft(k, 2, i, j);
        assert HasOddRun(r);
      } else if j > 3 {
        assert i == 0 && Run(r, 0, j - 2);
      }
    }
    if Lone(r) {
      assert Run(k, 0, 3);
    } else if i: nat, j: nat :| Run(r, i, j) && j - i >= 3 && (j - i) % 2 == 1 {
      if i > 0 {
        RunShiftsRight(k, 2, i, j);
        assert HasOddRun(k);
      } else {
        assert forall x :: 2 <= x < j + 2 ==> k[x] == r[x - 2];
        assert Run(k, 0, j + 2);
      }
    }
  }

  lemma OddRunAfterOther(k: string)
    requires k != "" && !Pair(k)
    ensures HasOddRun(k) <==> HasOddRun(k[1..])
  {
    var r := k[1..];
    if i: nat, j: nat :| Run(k, i, j) && j - i >= 3 && (j - i) % 2 == 1 {
      RunShiftsLeft(k, 1, i, j);
      assert HasOddRun(r);
    }
    if i: nat, j: nat :| Run(r, i, j) && j - i >= 3 && (j - i) % 2 == 1 {
      if i == 0 {
        assert r[0] == '_';
      }
      RunShiftsRight(k, 1, i, j);
      assert HasOddRun(k);
    }
  }

  /** Two underscores meet where `a` ends with one and `b` starts with one, or inside either. */
  lemma DoubleConcat(a: string, b: string)
    ensures Double(a + b) <==> Double(a) || Double(b) || (a != "" && b != "" && a[|a| - 1] == '_' && b[0] == '_')
  {
    var c := a + b;
    if i :| 0 <= i < |a| - 1 && a[i] == '_' && a[i + 1] == '_' {
      assert c[i] == '_' && c[i + 1] == '_';
    }
    if i :| 0 <= i < |b| - 1 && b[i] == '_' && b[i + 1] == '_' {
      assert c[|a| + i] == '_' && c[|a| + i + 1] == '_';
    }
    if a != "" && b != "" && a[|a| - 1] == '_' && b[0] == '_' {
      assert c[|a| - 1] == '_' && c[|a| - 1 + 1] == '_';
    }
    if i :| 0 <= i < |c| - 1 && c[i] == '_' && c[i + 1] == '_' {
      if i >= |a| {
        assert b[i - |a|] == '_' && b[i - |a| + 1] == '_';
      }
    }
  }

  lemma {:induction false} EncodeDoubles(k: string)
    ensures Double(Encode(k, 0)) <==> HasOddRun(k)
    decreases |k|
  {
    if k == "" {
    } else if Pair(k) {
      var r := k[2..];
      EncodeDoubles(r);
      OddRunAfterPair(k);
      EncodeHead(r);
      DoubleConcat("%_%_", Encode(r, 0));
    } else {
      var r := k[1..];
      EncodeDoubles(r);
      OddRunAfterOther(k);
      EncodeHead(r);
      DoubleConcat(Code(k[0], 0), Encode(r, 0));
    }
  }

  /** A double underscore survives exactly in keys with a run of 3, 5, 7, ... underscores. */
  lemma {:induction false} EscapedDoubles(k: string)
    ensures Double(Escaped(k)) <==> HasOddRun(k)
  {
    EscapedIsEncoded(k);
    EncodeDoubles(k);
    EncodeHead(k);
    if Lone(k) {
      EncodeHead(k[1..]);
      DoubleConcat("_", Encode(k[1..], 0));
      DoubleConcat("%_", Encode(k[1..], 0));
      assert Encode(k, 0)[1..] == Encode(k[1..], 0);
    }
  }
}
