/** Python's string methods, and how replacing and splitting act from left to right. */
module PyStrings {

  /** `str.isspace` for one character. */
  predicate Space(c: char) {
    || '\t' <= c <= '\r'
    || '\U{1c}' <= c <= ' '
    || c in {'\U{85}', '\U{a0}', '\U{1680}', '\U{2028}', '\U{2029}', '\U{202f}', '\U{205f}', '\U{3000}'}
    || '\U{2000}' <= c <= '\U{200a}'
  }

  /** `str.strip`. */
  function Strip(s: string): (r: string)
    ensures r != "" ==> !Space(r[0]) && !Space(r[|r| - 1])
    ensures r == "" <==> forall i :: 0 <= i < |s| ==> Space(s[i])
  {
    if s == "" then ""
    else if Space(s[0]) then Strip(s[1..])
    else StripRight(s)
  }

  function StripRight(s: string): (r: string)
    ensures r <= s
    ensures r != "" ==> !Space(r[|r| - 1])
    ensures forall i :: |r| <= i < |s| ==> Space(s[i])
  {
    if s != "" && Space(s[|s| - 1]) then StripRight(s[..|s| - 1]) else s
  }

  predicate Blank(s: string) {
    forall i :: 0 <= i < |s| ==> Space(s[i])
  }

  /** `s` is this text between spaces, and the text itself has none at its ends. */
  predicate Padded(s: string, pre: string, text: string, post: string) {
    && s == pre + text + post && Blank(pre) && Blank(post)
    && (text != "" ==> !Space(text[0]) && !Space(text[|text| - 1]))
  }

  lemma {:induction false} StripRightPadded(text: string, post: string)
    requires Blank(post) && (text != "" ==> !Space(text[|text| - 1]))
    ensures StripRight(text + post) == text
    decreases |post|
  {
    if post == "" {
      assert text + post == text;
    } else {
      var shorter := post[..|post| - 1];
      StripRightPadded(text, shorter);
      assert (text + post)[..|text + post| - 1] == text + shorter;
      assert (text + post)[|text + post| - 1] == post[|post| - 1];
    }
  }

  /** Stripping takes the spaces off both ends and nothing else. */
  lemma {:induction false} StripPadded(pre: string, text: string, post: string)
    requires Padded(pre + text + post, pre, text, post)
    ensures Strip(pre + text + post) == text
    decreases |pre|
  {
    var s := pre + text + post;
    if pre != "" {
      assert s[1..] == pre[1..] + text + post;
      assert Blank(pre[1..]) && s[0] == pre[0];
      StripPadded(pre[1..], text, post);
    } else if text == "" {
      assert s == post;
      StripBlank(post);
    } else {
      assert s == text + post && s[0] == text[0];
      StripRightPadded(text, post);
    }
  }

  lemma {:induction false} StripBlank(s: string)
    requires Blank(s)
    ensures Strip(s) == ""
  {
    if s != "" {
      StripBlank(s[1..]);
    }
  }

  lemma PadMore(c: char, s: string, pre: string, text: string, post: string)
    requires Space(c) && Padded(s, pre, text, post)
    ensures Padded([c] + s, [c] + pre, text, post)
  {
    assert [c] + (pre + text + post) == [c] + pre + text + post;
  }

  /** Every text is its stripped form between spaces. */
  lemma {:induction false} StripPads(s: string) returns (pre: string, post: string)
    ensures Padded(s, pre, Strip(s), post)
  {
    if s == "" {
      pre, post := "", "";
    } else if Space(s[0]) {
      pre, post := StripPads(s[1..]);
      PadMore(s[0], s[1..], pre, Strip(s), post);
      assert s == [s[0]] + s[1..];
      pre := [s[0]] + pre;
    } else {
      pre, post := "", s[|StripRight(s)|..];
      assert s == StripRight(s) + post;
    }
  }

  /** The spaces by their code points. */
  lemma SpacesAre(c: char)
    ensures Space(c) <==>
              || 9 <= c as int <= 13 || 28 <= c as int <= 32 || c as int == 133 || c as int == 160
              || c as int == 5760 || 8192 <= c as int <= 8202 || c as int == 8232 || c as int == 8233
              || c as int == 8239 || c as int == 8287 || c as int == 12288
  {
  }

  /** `str.replace`: leftmost occurrences first, none overlapping. */
  function Replace(s: string, sub: string, other: string): string
    requires sub != ""
  {
    if |s| < |sub| then s
    else if sub <= s then other + Replace(s[|sub|..], sub, other)
    else [s[0]] + Replace(s[1..], sub, other)
  }

  /** `str.split`. */
  function Split(s: string, sep: string): (parts: seq<string>)
    requires sep != ""
    ensures |parts| > 0
  {
    if |s| < |sep| then [s]
    else if sep <= s then [""] + Split(s[|sep|..], sep)
    else Onto([s[0]], Split(s[1..], sep))
  }

  /** `s` written before the first part. */
  function Onto(s: string, parts: seq<string>): (r: seq<string>)
    requires |parts| > 0
    ensures |r| == |parts|
  {
    [s + parts[0]] + parts[1..]
  }

  /** `sep.join(parts)`. */
  function Join(parts: seq<string>, sep: string): string
    requires |parts| > 0
  {
    if |parts| == 1 then parts[0] else parts[0] + (sep + Join(parts[1..], sep))
  }

  lemma ReplaceHit(sub: string, s: string, other: string)
    requires sub != ""
    ensures Replace(sub + s, sub, other) == other + Replace(s, sub, other)
  {
    assert (sub + s)[|sub|..] == s;
  }

  /** No occurrence starts at the first character: the `d`-th character after it differs. */
  lemma ReplaceMiss(c: char, s: string, sub: string, other: string, d: nat)
    requires d < |sub| && (d > |s| || ([c] + s)[d] != sub[d])
    ensures Replace([c] + s, sub, other) == [c] + Replace(s, sub, other)
  {
    assert ([c] + s)[1..] == s;
  }

  /** No occurrence starts inside `x`: its characters cannot start one. */
  lemma {:induction false} ReplaceSkip(x: string, s: string, sub: string, other: string)
    requires sub != "" && sub[0] !in x
    ensures Replace(x + s, sub, other) == x + Replace(s, sub, other)
  {
    if x == "" {
      assert x + s == s;
    } else {
      var y := x[1..];
      ReplaceSkip(y, s, sub, other);
      assert x == [x[0]] + y;
      assert x + s == [x[0]] + (y + s);
      ReplaceMiss(x[0], y + s, sub, other, 0);
    }
  }

  lemma ReplaceHead(a: char, s: string, c: char, other: string)
    ensures Replace([a] + s, [c], other) == (if a == c then other else [a]) + Replace(s, [c], other)
  {
    if a == c {
      ReplaceHit([c], s, other);
    } else {
      ReplaceMiss(a, s, [c], other, 0);
    }
  }

  lemma {:induction false} ReplaceCharConcat(a: string, b: string, c: char, other: string)
    ensures Replace(a + b, [c], other) == Replace(a, [c], other) + Replace(b, [c], other)
  {
    if a == "" {
      assert a + b == b;
    } else {
      var h, y, o := a[0], a[1..], [c];
      var n := if h == c then other else [h];
      calc {
        Replace(a + b, o, other);
        { assert a + b == [h] + (y + b); ReplaceHead(h, y + b, c, other); }
        n + Replace(y + b, o, other);
        { ReplaceCharConcat(y, b, c, other); }
        n + Replace(y, o, other) + Replace(b, o, other);
        { assert a == [h] + y; ReplaceHead(h, y, c, other); }
        Replace(a, o, other) + Replace(b, o, other);
      }
    }
  }

  lemma ReplaceAbsent(s: string, c: char, other: string)
    requires c !in s
    ensures Replace(s, [c], other) == s
  {
    ReplaceSkip(s, "", [c], other);
    assert s + "" == s;
  }

  lemma ReplaceOnly(c: char, other: string)
    ensures Replace([c], [c], other) == other
  {
    ReplaceHit([c], "", other);
    assert [c] + "" == [c] && other + "" == other;
  }

  lemma SplitHit(sep: string, s: string)
    requires sep != ""
    ensures Split(sep + s, sep) == [""] + Split(s, sep)
  {
    assert (sep + s)[|sep|..] == s;
  }

  lemma SplitMiss(c: char, s: string, sep: string, d: nat)
    requires d < |sep| && (d > |s| || ([c] + s)[d] != sep[d])
    ensures Split([c] + s, sep) == Onto([c], Split(s, sep))
  {
    assert ([c] + s)[1..] == s;
  }

  lemma OntoOnto(a: string, b: string, parts: seq<string>)
    requires |parts| > 0
    ensures Onto(a, Onto(b, parts)) == Onto(a + b, parts)
  {
    assert a + (b + parts[0]) == a + b + parts[0];
  }

  /** No separator starts inside `x`, nor ends just after it. */
  lemma {:induction false} SplitSkip(x: string, s: string, sep: string)
    requires sep != "" && sep[0] !in x
    ensures Split(x + s, sep) == Onto(x, Split(s, sep))
  {
    if x == "" {
      assert x + s == s;
      assert "" + Split(s, sep)[0] == Split(s, sep)[0];
    } else {
      var y := x[1..];
      SplitSkip(y, s, sep);
      assert x + s == [x[0]] + (y + s);
      SplitMiss(x[0], y + s, sep, 0);
      OntoOnto([x[0]], y, Split(s, sep));
      assert x == [x[0]] + y;
    }
  }
}
