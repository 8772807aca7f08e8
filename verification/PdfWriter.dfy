/**
 The PDF writer of the report node (controller_runner.py): one page, five objects, a cross-reference
 table and a content stream that shows the lines of a text. Bytes are characters up to 255. What a
 reader finds is stated with the rules of ISO 32000-1: the cross-reference table (section 7.5.4),
 the file trailer (section 7.5.5) and literal strings (section 7.3.4.2).
 */
module PdfWriter {
  import opened Common
  import opened PyStrings

  // -------------------------------------------------------------------- numerals

  predicate Digit(c: char) {
    '0' <= c <= '9'
  }

  function DigitOf(n: nat): char
    requires n < 10
  {
    '0' + n as char
  }

  /** `str(n)`. */
  function Decimal(n: nat): (s: string)
    ensures |s| > 0 && forall i :: 0 <= i < |s| ==> Digit(s[i])
  {
    if n < 10 then [DigitOf(n)] else Decimal(n / 10) + [DigitOf(n % 10)]
  }

  function Zeros(n: nat): (s: string)
    ensures |s| == n && forall i :: 0 <= i < n ==> s[i] == '0'
  {
    if n == 0 then "" else "0" + Zeros(n - 1)
  }

  /** `f"{n:010d}"`. */
  function TenDigits(n: nat): string {
    var s := Decimal(n);
    if |s| < 10 then Zeros(10 - |s|) + s else s
  }

  /** The number that digits denote. */
  function Number(s: string): nat
    requires forall i :: 0 <= i < |s| ==> Digit(s[i])
  {
    if s == "" then 0
    else
      assert Digit(s[|s| - 1]);
      10 * Number(s[..|s| - 1]) + (s[|s| - 1] as int - '0' as int)
  }

  lemma {:induction false} NumberOfDecimal(n: nat)
    ensures Number(Decimal(n)) == n
  {
    if n >= 10 {
      NumberOfDecimal(n / 10);
      assert Decimal(n)[..|Decimal(n)| - 1] == Decimal(n / 10);
    }
  }

  lemma {:induction false} NumberOfZeros(z: nat, s: string)
    requires forall i :: 0 <= i < |s| ==> Digit(s[i])
    ensures Number(Zeros(z) + s) == Number(s)
    decreases |s|, z
  {
    if s != "" {
      NumberOfZeros(z, s[..|s| - 1]);
      assert (Zeros(z) + s)[..|Zeros(z) + s| - 1] == Zeros(z) + s[..|s| - 1];
    } else if z > 0 {
      NumberOfZeros(z - 1, "");
      assert Zeros(z) + "" == Zeros(z) && Zeros(z - 1) + "" == Zeros(z - 1);
      AllZeros(z);
    }
  }

  lemma {:induction false} AllZeros(z: nat)
    ensures Number(Zeros(z)) == 0
  {
    if z > 0 {
      AllZeros(z - 1);
      assert Zeros(z)[..z - 1] == Zeros(z - 1);
    }
  }

  function Power10(k: nat): nat {
    if k == 0 then 1 else 10 * Power10(k - 1)
  }

  lemma {:induction false} DecimalLength(n: nat, k: nat)
    requires k >= 1 && n < Power10(k)
    ensures |Decimal(n)| <= k
  {
    if n >= 10 {
      DecimalLength(n / 10, k - 1);
    }
  }

  lemma TenPowers()
    ensures Power10(10) == 10_000_000_000
  {
    assert Power10(2) == 100 && Power10(4) == 10_000 && Power10(6) == 1_000_000;
    assert Power10(8) == 100_000_000;
  }

  /** Ten digits hold any offset below 10 to the 10th, and denote it. */
  lemma TenDigitsDenote(n: nat)
    requires n < 10_000_000_000
    ensures |TenDigits(n)| == 10
    ensures forall i :: 0 <= i < 10 ==> Digit(TenDigits(n)[i])
    ensures Number(TenDigits(n)) == n
  {
    TenPowers();
    DecimalLength(n, 10);
    NumberOfDecimal(n);
    NumberOfZeros(10 - |Decimal(n)|, Decimal(n));
    assert Zeros(0) + Decimal(n) == Decimal(n);
  }

  /** The digits at the end, and at the beginning, of a text. */
  function TrailingDigits(s: string): (d: string)
    ensures forall i :: 0 <= i < |d| ==> Digit(d[i])
  {
    if s != "" && Digit(s[|s| - 1]) then TrailingDigits(s[..|s| - 1]) + [s[|s| - 1]] else ""
  }

  function LeadingDigits(s: string): (d: string)
    ensures forall i :: 0 <= i < |d| ==> Digit(d[i])
  {
    if s != "" && Digit(s[0]) then [s[0]] + LeadingDigits(s[1..]) else ""
  }

  lemma {:induction false} TrailingDigitsFound(s: string, d: string)
    requires s == "" || !Digit(s[|s| - 1])
    requires forall i :: 0 <= i < |d| ==> Digit(d[i])
    ensures TrailingDigits(s + d) == d
    decreases |d|
  {
    if d == "" {
      assert s + d == s;
    } else {
      TrailingDigitsFound(s, d[..|d| - 1]);
      assert (s + d)[..|s + d| - 1] == s + d[..|d| - 1];
    }
  }

  lemma {:induction false} LeadingDigitsFound(d: string, s: string)
    requires s == "" || !Digit(s[0])
    requires forall i :: 0 <= i < |d| ==> Digit(d[i])
    ensures LeadingDigits(d + s) == d
  {
    if d == "" {
      assert d + s == s;
    } else {
      LeadingDigitsFound(d[1..], s);
      assert (d + s)[1..] == d[1..] + s;
    }
  }

  // -------------------------------------------------------------------- the file

  /** Object `number` as it stands in the file. */
  function Framed(number: nat, object_: string): string {
    Decimal(number) + " 0 obj\n" + object_ + "\nendobj\n"
  }

  /** The file up to and with the first `n` objects. */
  function Body(objects: seq<string>, n: nat): string
    requires n <= |objects|
  {
    if n == 0 then "%PDF-1.4\n" else Body(objects, n - 1) + Framed(n, objects[n - 1])
  }

  function Entry(offset: nat): string {
    TenDigits(offset) + " 00000 n \n"
  }

  const FREE := "0000000000 65535 f \n"

  /** The entries of the first `n` objects, after the one that is not in use. */
  function Entries(objects: seq<string>, n: nat): string
    requires n <= |objects|
  {
    if n == 0 then FREE else Entries(objects, n - 1) + Entry(|Body(objects, n - 1)|)
  }

  function TableHead(objects: seq<string>): string {
    "xref\n0 " + Decimal(|objects| + 1) + "\n"
  }

  function Trailer(objects: seq<string>): string {
    "trailer << /Size " + Decimal(|objects| + 1) + " /Root 1 0 R >>\nstartxref\n"
  }

  function File(objects: seq<string>): string {
    var body := Body(objects, |objects|);
    body + TableHead(objects) + Entries(objects, |objects|) + Trailer(objects) + Decimal(|body|) + "\n%%EOF\n"
  }

  /** The objects are written one after the other, and their offsets noted. */
  method WriteObjects(objects: seq<string>) returns (pdf: string, offsets: seq<nat>)
    ensures pdf == Body(objects, |objects|)
    ensures |offsets| == |objects| + 1 && forall i :: 1 <= i <= |objects| ==> offsets[i] == |Body(objects, i - 1)|
  {
    pdf := Body(objects, 0);
    offsets := [0];
    var index := 1;
    while index <= |objects|
      invariant 1 <= index <= |objects| + 1 && |offsets| == index
      invariant pdf == Body(objects, index - 1)
      invariant forall i :: 1 <= i < index ==> offsets[i] == |Body(objects, i - 1)|
    {
      offsets := offsets + [|pdf|];
      pdf := pdf + Framed(index, objects[index - 1]);
      index := index + 1;
    }
  }

  lemma Associate(a: string, b: string, c: string)
    ensures a + (b + c) == (a + b) + c
  {
  }

  /** The table holds an entry for each offset. */
  method WriteEntries(start: string, offsets: seq<nat>, ghost objects: seq<string>) returns (pdf: string)
    requires |offsets| == |objects| + 1 && forall i :: 1 <= i <= |objects| ==> offsets[i] == |Body(objects, i - 1)|
    ensures pdf == start + Entries(objects, |objects|)
  {
    pdf := start + FREE;
    var i := 1;
    while i < |offsets|
      invariant 1 <= i <= |offsets|
      invariant pdf == start + Entries(objects, i - 1)
    {
      Associate(start, Entries(objects, i - 1), Entry(offsets[i]));
      pdf := pdf + Entry(offsets[i]);
      i := i + 1;
    }
  }

  /** The end of `report`: the whole file. */
  method Write(objects: seq<string>) returns (pdf: string)
    ensures pdf == File(objects)
  {
    var offsets;
    pdf, offsets := WriteObjects(objects);
    var xref := |pdf|;
    pdf := WriteEntries(pdf + TableHead(objects), offsets, objects);
    pdf := pdf + Trailer(objects) + Decimal(xref) + "\n%%EOF\n";
  }

  // --------------------------------------------------------- what a reader finds

  /** The byte offset that the last lines of the file give. */
  function StartXref(pdf: string): nat {
    if |pdf| < 7 then 0 else Number(TrailingDigits(pdf[..|pdf| - 7]))
  }

  /** Where the entries begin: after "xref", the number 0, the number of entries and a line end. */
  function EntriesStart(pdf: string): nat {
    var x := StartXref(pdf) + 7;
    if x > |pdf| then |pdf| else x + |LeadingDigits(pdf[x..])| + 1
  }

  /** The 20 bytes of an entry. */
  function EntryText(pdf: string, i: nat): string {
    var at := EntriesStart(pdf) + 20 * i;
    if at + 20 > |pdf| then "" else pdf[at..at + 20]
  }

  function EntryOffset(pdf: string, i: nat): nat {
    Number(LeadingDigits(EntryText(pdf, i)))
  }

  /** What stands where an entry points to. */
  function ObjectText(pdf: string, i: nat): string {
    if EntryOffset(pdf, i) > |pdf| then "" else pdf[EntryOffset(pdf, i)..]
  }

  lemma {:induction false} BodyPrefix(objects: seq<string>, i: nat, n: nat)
    requires i <= n <= |objects|
    ensures Body(objects, i) <= Body(objects, n)
  {
    if i < n {
      BodyPrefix(objects, i, n - 1);
    }
  }

  lemma {:induction false} EntriesLength(objects: seq<string>, n: nat)
    requires n <= |objects| && |Body(objects, n)| < 10_000_000_000
    ensures |Entries(objects, n)| == 20 * (n + 1)
  {
    if n > 0 {
      EntriesLength(objects, n - 1);
      EntryLength(|Body(objects, n - 1)|);
    }
  }

  lemma EntryLength(offset: nat)
    requires offset < 10_000_000_000
    ensures |Entry(offset)| == 20 && LeadingDigits(Entry(offset)) == TenDigits(offset)
  {
    TenDigitsDenote(offset);
    LeadingDigitsFound(TenDigits(offset), " 00000 n \n");
  }

  /** Entry `i` of the table is that of object `i`. */
  lemma {:induction false} EntryInTable(objects: seq<string>, i: nat, n: nat)
    requires 1 <= i <= n <= |objects| && |Body(objects, n)| < 10_000_000_000
    ensures |Entries(objects, n)| == 20 * (n + 1)
    ensures Entries(objects, n)[20 * i..20 * i + 20] == Entry(|Body(objects, i - 1)|)
  {
    EntriesLength(objects, n);
    EntriesLength(objects, n - 1);
    EntryLength(|Body(objects, n - 1)|);
    SliceOfSum(Entries(objects, n - 1), Entry(|Body(objects, n - 1)|), 20 * i, 20 * i + 20);
    if i < n {
      EntryInTable(objects, i, n - 1);
    }
  }

  lemma SliceOfSum(a: string, b: string, from: nat, to_: nat)
    requires from <= to_ <= |a| + |b|
    ensures to_ <= |a| ==> (a + b)[from..to_] == a[from..to_]
    ensures from == |a| && to_ == |a| + |b| ==> (a + b)[from..to_] == b
  {
  }

  /** Everything before the offset of the table. */
  function BeforeEnd(objects: seq<string>): string {
    Body(objects, |objects|) + TableHead(objects) + Entries(objects, |objects|) + Trailer(objects)
  }

  lemma FileSplits(objects: seq<string>)
    ensures File(objects) == BeforeEnd(objects) + Decimal(|Body(objects, |objects|)|) + "\n%%EOF\n"
    ensures !Digit(BeforeEnd(objects)[|BeforeEnd(objects)| - 1])
  {
    var t := Trailer(objects);
    assert t[|t| - 1] == '\n';
  }

  /** `startxref` gives the byte offset of the table. */
  lemma StartXrefFound(objects: seq<string>)
    ensures StartXref(File(objects)) == |Body(objects, |objects|)|
    ensures "xref\n0 " <= File(objects)[StartXref(File(objects))..]
  {
    var f, b, d := File(objects), BeforeEnd(objects), Decimal(|Body(objects, |objects|)|);
    FileSplits(objects);
    assert f[..|f| - 7] == b + d;
    TrailingDigitsFound(b, d);
    NumberOfDecimal(|Body(objects, |objects|)|);
    HeadInFile(objects);
  }

  /** The file after the table, and from the table on. */
  function Tail(objects: seq<string>): string {
    Trailer(objects) + Decimal(|Body(objects, |objects|)|) + "\n%%EOF\n"
  }

  function FromTable(objects: seq<string>): string {
    TableHead(objects) + (Entries(objects, |objects|) + Tail(objects))
  }

  lemma HeadInFile(objects: seq<string>)
    ensures File(objects) == Body(objects, |objects|) + FromTable(objects)
    ensures "xref\n0 " <= File(objects)[|Body(objects, |objects|)|..]
  {
    var body, head, entries := Body(objects, |objects|), TableHead(objects), Entries(objects, |objects|);
    var rest := Tail(objects);
    assert File(objects) == (body + head + entries) + rest;
    Associate(body + head, entries, rest);
    Associate(body, head, entries + rest);
    assert File(objects)[|body|..] == FromTable(objects);
    assert "xref\n0 " <= head;
  }

  lemma AfterHead(body: string, head: string, d: string, end: string, rest: string)
    ensures (body + ((head + d + end) + rest))[|body| + |head|..] == d + (end + rest)
  {
  }

  lemma CountAt(body: string, head: string, d: string, end: string, rest: string)
    requires (forall i :: 0 <= i < |d| ==> Digit(d[i])) && end != "" && !Digit(end[0])
    ensures LeadingDigits((body + ((head + d + end) + rest))[|body| + |head|..]) == d
  {
    AfterHead(body, head, d, end, rest);
    LeadingDigitsFound(d, end + rest);
  }

  /** The table says how many entries it has. */
  lemma CountFound(objects: seq<string>)
    ensures var x := |Body(objects, |objects|)| + 7;
            x <= |File(objects)| && LeadingDigits(File(objects)[x..]) == Decimal(|objects| + 1)
  {
    HeadInFile(objects);
    var body, d, rest := Body(objects, |objects|), Decimal(|objects| + 1), Entries(objects, |objects|) + Tail(objects);
    assert File(objects) == body + (("xref\n0 " + d + "\n") + rest);
    CountAt(body, "xref\n0 ", d, "\n", rest);
  }

  lemma EntriesStartFound(objects: seq<string>)
    ensures EntriesStart(File(objects)) == |Body(objects, |objects|)| + |TableHead(objects)|
  {
    StartXrefFound(objects);
    CountFound(objects);
  }

  lemma Slice(a: string, b: string, c: string, from: nat, to_: nat)
    requires from <= to_ <= |b|
    ensures (a + (b + c))[|a| + from..|a| + to_] == b[from..to_]
  {
  }

  lemma EntriesInFile(objects: seq<string>)
    ensures File(objects) == (Body(objects, |objects|) + TableHead(objects)) + (Entries(objects, |objects|) + Tail(objects))
  {
    HeadInFile(objects);
    Associate(Body(objects, |objects|), TableHead(objects), Entries(objects, |objects|) + Tail(objects));
  }

  lemma EntryTextAt(pdf: string, a: string, b: string, c: string, i: nat)
    requires pdf == a + (b + c) && EntriesStart(pdf) == |a| && 20 * i + 20 <= |b|
    ensures EntryText(pdf, i) == b[20 * i..20 * i + 20]
  {
    Slice(a, b, c, 20 * i, 20 * i + 20);
  }

  /** The entries in the file. */
  lemma TableSlice(objects: seq<string>, i: nat)
    requires 20 * i + 20 <= |Entries(objects, |objects|)|
    ensures EntryText(File(objects), i) == Entries(objects, |objects|)[20 * i..20 * i + 20]
  {
    EntriesStartFound(objects);
    EntriesInFile(objects);
    EntryTextAt(File(objects), Body(objects, |objects|) + TableHead(objects), Entries(objects, |objects|), Tail(objects), i);
  }

  lemma EntryFound(objects: seq<string>, i: nat)
    requires 1 <= i <= |objects| && |File(objects)| < 10_000_000_000
    ensures EntryText(File(objects), i) == Entry(|Body(objects, i - 1)|)
  {
    HeadInFile(objects);
    EntryInTable(objects, i, |objects|);
    TableSlice(objects, i);
  }

  lemma {:induction false} ObjectInBody(objects: seq<string>, i: nat, n: nat)
    requires 1 <= i <= n <= |objects|
    ensures |Body(objects, i - 1)| <= |Body(objects, n)|
    ensures Framed(i, objects[i - 1]) <= Body(objects, n)[|Body(objects, i - 1)|..]
  {
    if i < n {
      ObjectInBody(objects, i, n - 1);
    } else {
      assert Body(objects, n)[|Body(objects, n - 1)|..] == Framed(n, objects[n - 1]);
    }
  }

  lemma PrefixAfter(p: string, a: string, from: nat, b: string)
    requires from <= |a| && p <= a[from..]
    ensures p <= (a + b)[from..]
  {
    assert (a + b)[from..] == a[from..] + b;
  }

  lemma ObjectFound(objects: seq<string>, i: nat)
    requires 1 <= i <= |objects| && |File(objects)| < 10_000_000_000
    ensures EntryOffset(File(objects), i) == |Body(objects, i - 1)|
    ensures Framed(i, objects[i - 1]) <= ObjectText(File(objects), i)
  {
    var n := |objects|;
    EntryFound(objects, i);
    HeadInFile(objects);
    BodyPrefix(objects, i - 1, n);
    EntryLength(|Body(objects, i - 1)|);
    TenDigitsDenote(|Body(objects, i - 1)|);
    ObjectInBody(objects, i, n);
    PrefixAfter(Framed(i, objects[i - 1]), Body(objects, n), |Body(objects, i - 1)|, FromTable(objects));
  }

  /**
   The cross-reference table is correct: in a file of less than 10 to the 10th bytes, the entry of each
   object has 20 bytes and gives the byte offset at which the object begins with its number.
   */
  lemma {:induction false} XrefFindsObject(objects: seq<string>, i: nat)
    requires 1 <= i <= |objects| && |File(objects)| < 10_000_000_000
    ensures |EntryText(File(objects), i)| == 20
    ensures EntryText(File(objects), i)[10..] == " 00000 n \n"
    ensures Framed(i, objects[i - 1]) <= ObjectText(File(objects), i)
  {
    ObjectFound(objects, i);
    EntryFound(objects, i);
    HeadInFile(objects);
    BodyPrefix(objects, i - 1, |objects|);
    TenDigitsDenote(|Body(objects, i - 1)|);
  }

  /** The first entry is the one that is not in use, and there is one for each object besides. */
  lemma XrefHasAnEntryForEach(objects: seq<string>)
    ensures EntryText(File(objects), 0) == FREE && |FREE| == 20
    ensures StartXref(File(objects)) + 7 <= |File(objects)|
    ensures Number(LeadingDigits(File(objects)[StartXref(File(objects)) + 7..])) == |objects| + 1
  {
    StartXrefFound(objects);
    CountFound(objects);
    NumberOfDecimal(|objects| + 1);
    FirstEntry(objects, |objects|);
    TableSlice(objects, 0);
  }

  lemma {:induction false} FirstEntry(objects: seq<string>, n: nat)
    requires n <= |objects|
    ensures FREE <= Entries(objects, n)
    ensures |Entries(objects, n)| >= 20 && Entries(objects, n)[0..20] == FREE
  {
    if n > 0 {
      FirstEntry(objects, n - 1);
    }
  }

  // -------------------------------------------------------------- the page's content

  /** `encode("latin-1", "replace")`, for one character. */
  function Latin(c: char): char {
    if c <= '\U{FF}' then c else '?'
  }

  function Latin1(s: string): (r: string)
    ensures |r| == |s| && forall i :: 0 <= i < |s| ==> r[i] == Latin(s[i])
  {
    if s == "" then "" else [Latin(s[0])] + Latin1(s[1..])
  }

  /** The four replacements, in their order. */
  function Escaped(text: string): string {
    Replace(Replace(Replace(Replace(text, "\\", "\\\\"), "(", "\\("), ")", "\\)"), "\n", ") Tj 0 -14 Td (")
  }

  function Stream(text: string): string {
    Latin1("BT /F1 12 Tf 50 760 Td (" + Escaped(text) + ") Tj ET")
  }

  function StreamObject(stream: string): string {
    "<< /Length " + Decimal(|stream|) + " >>\nstream\n" + stream + "\nendstream"
  }

  function Objects(stream: string): seq<string> {
    [ "<< /Type /Catalog /Pages 2 0 R >>",
      "<< /Type /Pages /Kids [3 0 R] /Count 1 >>",
      "<< /Type /Page /Parent 2 0 R " + "/MediaBox [0 0 612 792] " + "/Resources << /Font << /F1 5 0 R >> >> " + "/Contents 4 0 R >>",
      StreamObject(stream),
      "<< /Type /Font /Subtype /Type1 /BaseFont /Helvetica >>" ]
  }

  function Whole(title: string, sections: seq<string>): string {
    title + "\n" + (if sections == [] then "" else Join(sections, "\n"))
  }

  /** The text of a report: title and sections on lines of their own, cut at 2000 characters. */
  function Text(title: string, sections: seq<string>): string {
    var all := Whole(title, sections);
    if |all| <= 2000 then all else all[..2000]
  }

  // ------------------------------------------------------------- reading the stream

  /** The bytes of a stream object: as many as its length says. */
  function StreamOf(object_: string): string {
    if |object_| < 11 then ""
    else
      var digits := LeadingDigits(object_[11..]);
      var from := 11 + |digits| + 11;
      if from + Number(digits) > |object_| then "" else object_[from..from + Number(digits)]
  }

  lemma StreamOfParts(head: string, d: string, mid: string, stream: string, rest: string)
    requires |head| == 11 && |mid| == 11 && !Digit(mid[0])
    requires (forall i :: 0 <= i < |d| ==> Digit(d[i])) && Number(d) == |stream|
    ensures StreamOf(head + (d + (mid + (stream + rest)))) == stream
  {
    var o := head + (d + (mid + (stream + rest)));
    Drop(head, d + (mid + (stream + rest)));
    LeadingDigitsFound(d, mid + (stream + rest));
    Middle(head, d, mid, stream, rest);
    StreamOfAt(o, d, |stream|);
  }

  lemma StreamOfAt(o: string, d: string, n: nat)
    requires |o| >= 11 && LeadingDigits(o[11..]) == d && Number(d) == n
    requires 22 + |d| + n <= |o|
    ensures StreamOf(o) == o[22 + |d|..22 + |d| + n]
  {
  }

  lemma Drop(a: string, b: string)
    ensures (a + b)[|a|..] == b
  {
  }

  lemma Middle(a: string, b: string, c: string, d: string, e: string)
    ensures var s := a + (b + (c + (d + e)));
            var from := |a| + |b| + |c|;
            from + |d| <= |s| && s[from..from + |d|] == d
  {
    Associate(a, b, c + (d + e));
    Associate(a + b, c, d + e);
    Slice((a + b) + c, d, e, 0, |d|);
  }

  lemma Regroup(a: string, b: string, c: string, d: string, e: string, f: string)
    ensures a + b + c + d + e + f == a + (b + (c + (d + (e + f))))
  {
  }

  /** The length of the stream object is the size of its stream. */
  lemma LengthIsStreamSize(stream: string, more: string)
    ensures StreamOf(StreamObject(stream) + more) == stream
  {
    var d := Decimal(|stream|);
    NumberOfDecimal(|stream|);
    Regroup("<< /Length ", d, " >>\nstream\n", stream, "\nendstream", more);
    StreamOfParts("<< /Length ", d, " >>\nstream\n", stream, "\nendstream" + more);
  }

  // ------------------------------------------------------ following the references

  /** Where the first occurrence of a key ends, or the end of the text. */
  function AfterKey(text: string, key: string): string {
    if |text| < |key| then ""
    else if key <= text then text[|key|..]
    else if text == "" then ""
    else AfterKey(text[1..], key)
  }

  /** The object that an entry of a dictionary refers to. */
  function Reference(text: string, key: string): nat {
    Number(LeadingDigits(AfterKey(text, key)))
  }

  /** An object, found through the table, after its number. */
  function ObjectBody(pdf: string, i: nat): string {
    var o := ObjectText(pdf, i);
    var from := |Decimal(i)| + 7;
    if |o| < from then "" else o[from..]
  }

  /** How many entries the table says it has. */
  function EntryCount(pdf: string): nat {
    var x := StartXref(pdf) + 7;
    if x > |pdf| then 0 else Number(LeadingDigits(pdf[x..]))
  }

  /** What comes after the table. */
  function AfterTable(pdf: string): string {
    var at := EntriesStart(pdf) + 20 * EntryCount(pdf);
    if at > |pdf| then "" else pdf[at..]
  }

  /** The content of the first page: from the trailer to the catalog, the page tree, the page, and its
      contents (sections 7.5.5 and 7.7). */
  function PageContent(pdf: string): string {
    var catalog := ObjectBody(pdf, Reference(AfterTable(pdf), "/Root "));
    var pages := ObjectBody(pdf, Reference(catalog, "/Pages "));
    var page := ObjectBody(pdf, Reference(pages, "/Kids ["));
    StreamOf(ObjectBody(pdf, Reference(page, "/Contents ")))
  }

  /** No slash in a text is followed by this letter. */
  predicate NoKey(text: string, letter: char) {
    forall i :: 0 <= i < |text| && text[i] == '/' ==> i + 1 < |text| && text[i + 1] != letter
  }

  lemma {:induction false} KeyFound(before: string, key: string, after: string)
    requires |key| > 1 && key[0] == '/' && NoKey(before, key[1])
    ensures AfterKey(before + (key + after), key) == after
  {
    var text := before + (key + after);
    if before == "" {
      assert text == key + after;
    } else {
      KeyFound(before[1..], key, after);
      assert text[1..] == before[1..] + (key + after);
      assert text[0] == before[0] && (|before| > 1 ==> text[1] == before[1]);
      assert !(key <= text);
    }
  }

  lemma ReferenceFound(before: string, key: string, n: nat, after: string)
    requires |key| > 1 && key[0] == '/' && NoKey(before, key[1]) && after != "" && !Digit(after[0])
    ensures Reference(before + (key + (Decimal(n) + after)), key) == n
  {
    KeyFound(before, key, Decimal(n) + after);
    LeadingDigitsFound(Decimal(n), after);
    NumberOfDecimal(n);
  }

  lemma BodyAfterNumber(o: string, number: string, object_: string, end: string) returns (more: string)
    requires number + object_ + end <= o && end != ""
    ensures |o| >= |number| && o[|number|..] == object_ + more && more != "" && more[0] == end[0]
  {
    more := end + o[|number + object_ + end|..];
    assert o == (number + object_ + end) + o[|number + object_ + end|..];
    assert o == number + (object_ + more);
  }

  /** An object of the file, read by its number. */
  lemma ObjectBodyFound(objects: seq<string>, i: nat) returns (more: string)
    requires 1 <= i <= |objects| && |File(objects)| < 10_000_000_000
    ensures more != "" && more[0] == '\n' && ObjectBody(File(objects), i) == objects[i - 1] + more
  {
    ObjectFound(objects, i);
    more := BodyAfterNumber(ObjectText(File(objects), i), Decimal(i) + " 0 obj\n", objects[i - 1], "\nendobj\n");
  }

  lemma EntriesCounted(objects: seq<string>)
    ensures EntryCount(File(objects)) == |objects| + 1
  {
    StartXrefFound(objects);
    CountFound(objects);
    NumberOfDecimal(|objects| + 1);
  }

  lemma TailFound(objects: seq<string>)
    requires |File(objects)| < 10_000_000_000
    ensures AfterTable(File(objects)) == Tail(objects)
  {
    var n := |objects|;
    var f, a, b := File(objects), Body(objects, n) + TableHead(objects), Entries(objects, n);
    HeadInFile(objects);
    EntriesCounted(objects);
    EntriesStartFound(objects);
    EntriesLength(objects, n);
    EntriesInFile(objects);
    TailAt(f, a, b, Tail(objects));
  }

  lemma TailAt(pdf: string, a: string, b: string, c: string)
    requires pdf == a + (b + c) && EntriesStart(pdf) == |a| && 20 * EntryCount(pdf) == |b|
    ensures AfterTable(pdf) == c
  {
  }

  /** Whatever follows the object, its entry refers to object `n`. */
  ghost predicate Refers(object_: string, key: string, n: nat) {
    forall more :: more != "" && more[0] == '\n' ==> Reference(object_ + more, key) == n
  }

  lemma EntryRefers(object_: string, before: string, key: string, n: nat, after: string)
    requires object_ == before + (key + (Decimal(n) + after)) && after != "" && !Digit(after[0])
    requires |key| > 1 && key[0] == '/' && NoKey(before, key[1])
    ensures Refers(object_, key, n)
  {
    forall more | more != "" && more[0] == '\n' ensures Reference(object_ + more, key) == n {
      FourParts(before, key, Decimal(n), after, more);
      ReferenceFound(before, key, n, after + more);
    }
  }

  lemma FourParts(a: string, b: string, c: string, d: string, more: string)
    ensures (a + (b + (c + d))) + more == a + (b + (c + (d + more)))
  {
  }

  lemma CatalogRefers(object_: string)
    requires object_ == "<< /Type /Catalog /Pages 2 0 R >>"
    ensures Refers(object_, "/Pages ", 2)
  {
    assert Decimal(2) == "2";
    EntryRefers(object_, "<< /Type /Catalog ", "/Pages ", 2, " 0 R >>");
  }

  lemma PagesRefer(object_: string)
    requires object_ == "<< /Type /Pages /Kids [3 0 R] /Count 1 >>"
    ensures Refers(object_, "/Kids [", 3)
  {
    assert Decimal(3) == "3";
    EntryRefers(object_, "<< /Type /Pages ", "/Kids [", 3, " 0 R] /Count 1 >>");
  }

  lemma NoKeyConcat(a: string, b: string, letter: char)
    requires NoKey(a, letter) && NoKey(b, letter)
    ensures NoKey(a + b, letter)
  {
  }

  lemma PageRefers(object_: string)
    requires object_ == "<< /Type /Page /Parent 2 0 R " + "/MediaBox [0 0 612 792] " + "/Resources << /Font << /F1 5 0 R >> >> " + "/Contents 4 0 R >>"
    ensures Refers(object_, "/Contents ", 4)
  {
    var a, b, c := "<< /Type /Page /Parent 2 0 R ", "/MediaBox [0 0 612 792] ", "/Resources << /Font << /F1 5 0 R >> >> ";
    PageKeys(a, b, c);
    NoKeyConcat(a, b, 'C');
    NoKeyConcat(a + b, c, 'C');
    assert Decimal(4) == "4";
    assert "/Contents 4 0 R >>" == "/Contents " + ("4" + " 0 R >>");
    EntryRefers(object_, a + b + c, "/Contents ", 4, " 0 R >>");
  }

  lemma PageKeys(a: string, b: string, c: string)
    requires a == "<< /Type /Page /Parent 2 0 R " && b == "/MediaBox [0 0 612 792] "
    requires c == "/Resources << /Font << /F1 5 0 R >> >> "
    ensures NoKey(a, 'C') && NoKey(b, 'C') && NoKey(c, 'C')
  {
  }

  lemma TrailerParts(trailer: string, end: string)
    requires trailer == "trailer << /Size " + "6" + " /Root 1 0 R >>\nstartxref\n"
    ensures trailer + end == "trailer << /Size 6 " + ("/Root " + ("1" + (" 0 R >>\nstartxref\n" + end)))
  {
  }

  lemma TrailerRefers(trailer: string, end: string)
    requires trailer == "trailer << /Size " + "6" + " /Root 1 0 R >>\nstartxref\n"
    ensures Reference(trailer + end, "/Root ") == 1
  {
    TrailerParts(trailer, end);
    assert Decimal(1) == "1";
    ReferenceFound("trailer << /Size 6 ", "/Root ", 1, " 0 R >>\nstartxref\n" + end);
  }

  /** The trailer refers to object 1. */
  lemma RootFound(objects: seq<string>)
    requires |objects| == 5 && |File(objects)| < 10_000_000_000
    ensures Reference(AfterTable(File(objects)), "/Root ") == 1
  {
    var trailer, d := Trailer(objects), Decimal(|Body(objects, 5)|);
    TailFound(objects);
    assert Decimal(6) == "6";
    Associate(trailer, d, "\n%%EOF\n");
    TrailerRefers(trailer, d + "\n%%EOF\n");
  }

  /** The reader comes to the stream of the page. */
  lemma ContentFound(objects: seq<string>, stream: string)
    requires |objects| == 5 && |File(objects)| < 10_000_000_000
    requires Refers(objects[0], "/Pages ", 2) && Refers(objects[1], "/Kids [", 3) && Refers(objects[2], "/Contents ", 4)
    requires objects[3] == StreamObject(stream)
    ensures PageContent(File(objects)) == stream
  {
    RootFound(objects);
    var afterCatalog := ObjectBodyFound(objects, 1);
    var afterPages := ObjectBodyFound(objects, 2);
    var afterPage := ObjectBodyFound(objects, 3);
    var afterStream := ObjectBodyFound(objects, 4);
    LengthIsStreamSize(stream, afterStream);
  }

  lemma ObjectsRefer(stream: string)
    ensures var objects := Objects(stream);
            && |objects| == 5 && objects[3] == StreamObject(stream)
            && Refers(objects[0], "/Pages ", 2) && Refers(objects[1], "/Kids [", 3) && Refers(objects[2], "/Contents ", 4)
  {
    var objects := Objects(stream);
    CatalogRefers(objects[0]);
    PagesRefer(objects[1]);
    PageRefers(objects[2]);
  }

  // -------------------------------------------------- literal strings, section 7.3.4.2

  /** A literal string read, and what comes after it. */
  datatype Lit = Lit(text: string, rest: string)

  function Cons(c: char, l: Lit): (r: Lit)
    ensures r.rest == l.rest
  {
    Lit([c] + l.text, l.rest)
  }

  predicate Octal(c: char) {
    '0' <= c <= '7'
  }

  /** How many octal digits, at most three, an escape takes. */
  function OctalCount(s: string): (n: nat)
    ensures n <= 3 && n <= |s| && forall i :: 0 <= i < n ==> Octal(s[i])
  {
    if |s| < 1 || !Octal(s[0]) then 0
    else if |s| < 2 || !Octal(s[1]) then 1
    else if |s| < 3 || !Octal(s[2]) then 2 else 3
  }

  function OctalValue(s: string): nat
    requires forall i :: 0 <= i < |s| ==> Octal(s[i])
  {
    if s == "" then 0
    else
      assert Octal(s[|s| - 1]);
      8 * OctalValue(s[..|s| - 1]) + (s[|s| - 1] as int - '0' as int)
  }

  /** From after the opening parenthesis to the one that closes it, with `depth` others open inside. */
  function Literal(s: string, depth: nat): (r: Lit)
    ensures |r.rest| <= |s|
    decreases |s|
  {
    if s == "" then Lit("", "")
    else if s[0] == '\\' then
      if |s| == 1 then Lit("", "")
      else if s[1] == 'n' then Cons('\n', Literal(s[2..], depth))
      else if s[1] == 'r' then Cons('\r', Literal(s[2..], depth))
      else if s[1] == 't' then Cons('\t', Literal(s[2..], depth))
      else if s[1] == 'b' then Cons('\U{08}', Literal(s[2..], depth))
      else if s[1] == 'f' then Cons('\U{0C}', Literal(s[2..], depth))
      else if s[1] == '\n' then Literal(s[2..], depth)
      else if s[1] == '\r' then Literal(if |s| > 2 && s[2] == '\n' then s[3..] else s[2..], depth)
      else if Octal(s[1]) then
        var n := OctalCount(s[1..]);
        Cons((OctalValue(s[1..1 + n]) % 256) as char, Literal(s[1 + n..], depth))
      else Cons(s[1], Literal(s[2..], depth))
    else if s[0] == '(' then Cons('(', Literal(s[1..], depth + 1))
    else if s[0] == ')' then if depth == 0 then Lit("", s[1..]) else Cons(')', Literal(s[1..], depth - 1))
    else if s[0] == '\r' then Cons('\n', Literal(if |s| > 1 && s[1] == '\n' then s[2..] else s[1..], depth))
    else Cons(s[0], Literal(s[1..], depth))
  }

  /** The literal strings of a content stream. */
  function Strings(s: string): seq<string>
    decreases |s|
  {
    if s == "" then []
    else if s[0] == '(' then
      var l := Literal(s[1..], 0);
      [l.text] + Strings(l.rest)
    else Strings(s[1..])
  }

  // --------------------------------------------------------------- what is shown

  /** What the writer puts for one character. */
  function Code(c: char): string {
    if c == '\\' then "\\\\"
    else if c == '(' then "\\("
    else if c == ')' then "\\)"
    else if c == '\n' then ") Tj 0 -14 Td ("
    else [Latin(c)]
  }

  function Coded(t: string): string {
    if t == "" then "" else Code(t[0]) + Coded(t[1..])
  }

  /** What a reader sees for one character: a carriage return in a string is a line feed. */
  function Shown(c: char): char {
    if c == '\r' then '\n' else Latin(c)
  }

  function ShownLine(line: string): (r: string)
    ensures |r| == |line| && forall i :: 0 <= i < |line| ==> r[i] == Shown(line[i])
  {
    if line == "" then "" else [Shown(line[0])] + ShownLine(line[1..])
  }

  function ShownLines(lines: seq<string>): (r: seq<string>)
    ensures |r| == |lines| && forall i :: 0 <= i < |lines| ==> r[i] == ShownLine(lines[i])
  {
    if lines == [] then [] else [ShownLine(lines[0])] + ShownLines(lines[1..])
  }

  const END := ") Tj ET"

  /** What comes after the first line of a text. */
  function AfterLine(t: string): string {
    if t == "" then END[1..]
    else if t[0] == '\n' then " Tj 0 -14 Td (" + (Coded(t[1..]) + END)
    else AfterLine(t[1..])
  }

  lemma NoLineFeedNext(t: string)
    ensures (Coded(t) + END)[0] != '\n'
  {
  }

  lemma ReadPlain(c: char, x: string)
    requires c != '\\' && c != '(' && c != ')' && c != '\r'
    ensures Literal([c] + x, 0) == Cons(c, Literal(x, 0))
  {
    assert ([c] + x)[1..] == x;
  }

  lemma ReadReturn(x: string)
    requires x != "" && x[0] != '\n'
    ensures Literal("\r" + x, 0) == Cons('\n', Literal(x, 0))
  {
    assert ("\r" + x)[1..] == x;
  }

  lemma ReadEscaped(c: char, x: string)
    requires c == '\\' || c == '(' || c == ')'
    ensures Literal("\\" + [c] + x, 0) == Cons(c, Literal(x, 0))
  {
    assert ("\\" + [c] + x)[2..] == x;
  }

  lemma ReadEnd(x: string)
    ensures Literal(")" + x, 0) == Lit("", x)
  {
    assert (")" + x)[1..] == x;
  }

  /** The code of a character other than a line feed reads as the character shown for it. */
  lemma CodeRead(c: char, x: string)
    requires c != '\n' && x != "" && x[0] != '\n'
    ensures Literal(Code(c) + x, 0) == Cons(Shown(c), Literal(x, 0))
  {
    if c == '\\' || c == '(' || c == ')' {
      CodeOfEscaped(c);
      ReadEscaped(c, x);
    } else {
      assert Code(c) == [Latin(c)];
      if c == '\r' {
        ReadReturn(x);
      } else {
        ReadPlain(Latin(c), x);
      }
    }
  }

  lemma CodeOfEscaped(c: char)
    requires c == '\\' || c == '(' || c == ')'
    ensures Code(c) == "\\" + [c]
  {
  }

  lemma LineFeedRead(x: string)
    ensures Literal(Code('\n') + x, 0) == Lit("", " Tj 0 -14 Td (" + x)
  {
    assert Code('\n') + x == ")" + (" Tj 0 -14 Td (" + x);
    ReadEnd(" Tj 0 -14 Td (" + x);
  }

  /** Reading a string gives the first line of the text that was written. */
  lemma {:induction false} FirstLineRead(t: string)
    ensures Literal(Coded(t) + END, 0) == Lit(ShownLine(Split(t, "\n")[0]), AfterLine(t))
  {
    if t == "" {
      assert Coded(t) + END == ")" + END[1..];
      ReadEnd(END[1..]);
    } else {
      var c, x := t[0], Coded(t[1..]) + END;
      Associate(Code(c), Coded(t[1..]), END);
      assert t == [c] + t[1..];
      FirstLineRead(t[1..]);
      if c == '\n' {
        SplitHit("\n", t[1..]);
        LineFeedRead(x);
      } else {
        SplitMiss(c, t[1..], "\n", 0);
        NoLineFeedNext(t[1..]);
        CodeRead(c, x);
      }
    }
  }

  lemma {:induction false} StringsSkip(a: string, b: string)
    requires '(' !in a
    ensures Strings(a + b) == Strings(b)
  {
    if a == "" {
      assert a + b == b;
    } else {
      StringsSkip(a[1..], b);
      assert (a + b)[1..] == a[1..] + b;
    }
  }

  /** What follows the first line shows the other lines. */
  lemma {:induction false} AfterLineRead(t: string)
    ensures Strings(AfterLine(t)) ==
              if '\n' in t then Strings("(" + (Coded(RestOf(t)) + END)) else []
    ensures '\n' in t ==> Split(t, "\n") == [Split(t, "\n")[0]] + Split(RestOf(t), "\n")
    ensures '\n' !in t ==> |Split(t, "\n")| == 1
  {
    if t == "" {
      StringsSkip(END[1..], "");
      assert END[1..] + "" == END[1..];
    } else {
      var c, rest := t[0], t[1..];
      assert t == [c] + rest;
      if c == '\n' {
        SplitHit("\n", rest);
        StringsSkip(" Tj 0 -14 Td ", "(" + (Coded(rest) + END));
        assert " Tj 0 -14 Td (" + (Coded(rest) + END) == " Tj 0 -14 Td " + ("(" + (Coded(rest) + END));
      } else {
        SplitMiss(c, rest, "\n", 0);
        AfterLineRead(rest);
      }
    }
  }

  /** The text after the first line feed. */
  function RestOf(t: string): (r: string)
    ensures '\n' in t ==> |r| < |t|
  {
    if t == "" then "" else if t[0] == '\n' then t[1..] else RestOf(t[1..])
  }

  /** All the strings of the stream are the lines of the text, as they are shown. */
  lemma {:induction false} LinesRead(t: string)
    ensures Strings("(" + (Coded(t) + END)) == ShownLines(Split(t, "\n"))
    decreases |t|
  {
    var s := "(" + (Coded(t) + END);
    assert s[1..] == Coded(t) + END;
    FirstLineRead(t);
    AfterLineRead(t);
    if '\n' in t {
      LinesRead(RestOf(t));
    }
  }

  // ------------------------------------------------------------- the round trip

  /** The code of a character before it is encoded. */
  function Raw(c: char): string {
    if c == '\\' then "\\\\"
    else if c == '(' then "\\("
    else if c == ')' then "\\)"
    else if c == '\n' then ") Tj 0 -14 Td ("
    else [c]
  }

  lemma RawIsReplaced(c: char)
    ensures Escaped([c]) == Raw(c)
  {
    ReplaceOnly(c, Raw(c));
    if c == '\\' {
      ReplaceAbsent("\\\\", '(', "\\(");
      ReplaceAbsent("\\\\", ')', "\\)");
      ReplaceAbsent("\\\\", '\n', ") Tj 0 -14 Td (");
    } else {
      ReplaceAbsent([c], '\\', "\\\\");
      if c == '(' {
        ReplaceAbsent("\\(", ')', "\\)");
        ReplaceAbsent("\\(", '\n', ") Tj 0 -14 Td (");
      } else {
        ReplaceAbsent([c], '(', "\\(");
        if c == ')' {
          ReplaceAbsent("\\)", '\n', ") Tj 0 -14 Td (");
        } else {
          ReplaceAbsent([c], ')', "\\)");
          if c != '\n' {
            ReplaceAbsent([c], '\n', ") Tj 0 -14 Td (");
          }
        }
      }
    }
  }

  lemma EscapedConcat(a: string, b: string)
    ensures Escaped(a + b) == Escaped(a) + Escaped(b)
  {
    var a1, b1 := Replace(a, "\\", "\\\\"), Replace(b, "\\", "\\\\");
    var a2, b2 := Replace(a1, "(", "\\("), Replace(b1, "(", "\\(");
    var a3, b3 := Replace(a2, ")", "\\)"), Replace(b2, ")", "\\)");
    ReplaceCharConcat(a, b, '\\', "\\\\");
    ReplaceCharConcat(a1, b1, '(', "\\(");
    ReplaceCharConcat(a2, b2, ')', "\\)");
    ReplaceCharConcat(a3, b3, '\n', ") Tj 0 -14 Td (");
  }

  lemma LatinConcat(a: string, b: string)
    ensures Latin1(a + b) == Latin1(a) + Latin1(b)
  {
  }

  lemma LatinPlain(a: string)
    requires forall i :: 0 <= i < |a| ==> a[i] <= '\U{FF}'
    ensures Latin1(a) == a
  {
  }

  lemma RawIsCoded(c: char)
    ensures Latin1(Raw(c)) == Code(c)
  {
    if |Raw(c)| > 1 {
      LatinPlain(Raw(c));
    }
  }

  /** The replacements and the encoding act on each character on its own. */
  lemma {:induction false} EscapedIsCoded(t: string)
    ensures Latin1(Escaped(t)) == Coded(t)
  {
    if t != "" {
      var c, rest := t[0], t[1..];
      calc {
        Latin1(Escaped(t));
        { assert t == [c] + rest; EscapedConcat([c], rest); RawIsReplaced(c); }
        Latin1(Raw(c) + Escaped(rest));
        { LatinConcat(Raw(c), Escaped(rest)); RawIsCoded(c); EscapedIsCoded(rest); }
        Code(c) + Coded(rest);
        Coded(t);
      }
    }
  }

  predicate InLatin(s: string) {
    forall i :: 0 <= i < |s| ==> s[i] <= '\U{FF}'
  }

  lemma LatinBetween(a: string, b: string, c: string)
    requires InLatin(a) && InLatin(c)
    ensures Latin1(a + b + c) == a + Latin1(b) + c
  {
    LatinConcat(a + b, c);
    LatinConcat(a, b);
    LatinPlain(a);
    LatinPlain(c);
  }

  lemma OpenParenthesis(a: string, b: string, c: string)
    ensures (a + "(") + b + c == a + ("(" + (b + c))
  {
  }

  lemma StreamIsCoded(t: string)
    ensures Stream(t) == "BT /F1 12 Tf 50 760 Td " + ("(" + (Coded(t) + END))
  {
    var open := "BT /F1 12 Tf 50 760 Td ";
    assert "BT /F1 12 Tf 50 760 Td (" == open + "(";
    LatinBetween(open + "(", Escaped(t), END);
    EscapedIsCoded(t);
    OpenParenthesis(open, Coded(t), END);
  }

  /** The strings of the stream are the lines of the text, as they are shown. */
  lemma StreamShowsLines(t: string)
    ensures Strings(Stream(t)) == ShownLines(Split(t, "\n"))
  {
    StreamIsCoded(t);
    StringsSkip("BT /F1 12 Tf 50 760 Td ", "(" + (Coded(t) + END));
    LinesRead(t);
  }

  /** Every character reaches the page as it is. */
  predicate Plain(s: string) {
    forall i :: 0 <= i < |s| ==> s[i] <= '\U{FF}' && s[i] != '\r'
  }

  lemma {:induction false} ShownAsWritten(t: string)
    ensures ShownLines(Split(t, "\n")) == Split(t, "\n") <==> Plain(t)
  {
    if t != "" {
      var c, rest := t[0], t[1..];
      assert t == [c] + rest;
      ShownAsWritten(rest);
      if c == '\n' {
        SplitHit("\n", rest);
        assert ShownLines([""] + Split(rest, "\n")) == [""] + ShownLines(Split(rest, "\n"));
      } else {
        SplitMiss(c, rest, "\n", 0);
        var ls := Split(rest, "\n");
        assert ShownLines(Onto([c], ls)) == Onto([Shown(c)], ShownLines(ls)) by {
          assert ShownLine([c] + ls[0]) == [Shown(c)] + ShownLine(ls[0]);
        }
        OntoInjective(c, Shown(c), ls, ShownLines(ls));
      }
    }
  }

  lemma OntoInjective(c: char, d: char, a: seq<string>, b: seq<string>)
    requires |a| > 0 && |b| > 0
    ensures Onto([c], a) == Onto([d], b) <==> c == d && a == b
  {
    if Onto([c], a) == Onto([d], b) {
      assert ([c] + a[0])[0] == c && ([c] + a[0])[1..] == a[0];
      assert ([d] + b[0])[0] == d && ([d] + b[0])[1..] == b[0];
      assert a == [a[0]] + Onto([c], a)[1..] && b == [b[0]] + Onto([d], b)[1..];
    }
  }

  /** The lines of a text are read back from its stream exactly when all of its characters are in
      Latin-1 and none is a carriage return. */
  lemma {:induction false} StreamRoundTrip(t: string)
    ensures Strings(Stream(t)) == Split(t, "\n") <==> Plain(t)
  {
    StreamShowsLines(t);
    ShownAsWritten(t);
  }

  // ------------------------------------------------------------- the whole report

  lemma {:induction false} CodedSize(t: string)
    ensures |Coded(t)| <= 15 * |t|
  {
    if t != "" {
      CodedSize(t[1..]);
    }
  }

  lemma SmallNumber(n: nat)
    requires n < 100_000_000
    ensures |Decimal(n)| <= 10
  {
    TenPowers();
    DecimalLength(n, 10);
  }

  lemma {:induction false} BodySize(objects: seq<string>, n: nat)
    requires n <= |objects| <= 5
    requires forall i :: 0 <= i < |objects| ==> |objects[i]| <= 40_000
    ensures |Body(objects, n)| <= 9 + 50_000 * n
  {
    if n > 0 {
      BodySize(objects, n - 1);
      SmallNumber(n);
    }
  }

  lemma FileSize(objects: seq<string>)
    requires |objects| == 5
    requires forall i :: 0 <= i < |objects| ==> |objects[i]| <= 40_000
    ensures |File(objects)| < 10_000_000_000
  {
    BodySize(objects, 5);
    SmallNumber(6);
    SmallNumber(|Body(objects, 5)|);
    EntriesLength(objects, 5);
    HeadInFile(objects);
    TailSize(objects);
  }

  lemma TailSize(objects: seq<string>)
    requires |objects| == 5 && |Body(objects, 5)| < 100_000_000
    ensures |Tail(objects)| <= 100
  {
    SmallNumber(6);
    SmallNumber(|Body(objects, 5)|);
  }

  lemma StreamSize(t: string)
    requires |t| <= 2000
    ensures |StreamObject(Stream(t))| <= 40_000
  {
    StreamIsCoded(t);
    CodedSize(t);
    assert |Stream(t)| <= 31_000;
    SmallNumber(|Stream(t)|);
  }

  lemma ObjectSizes(stream: string)
    requires |StreamObject(stream)| <= 40_000
    ensures forall i :: 0 <= i < 5 ==> |Objects(stream)[i]| <= 40_000
  {
  }

  /** The coded lines with the operators between them. */
  function CodedLines(lines: seq<string>): (r: seq<string>)
    ensures |r| == |lines|
  {
    if lines == [] then [] else [Coded(lines[0])] + CodedLines(lines[1..])
  }

  lemma CodedOnto(c: char, lines: seq<string>)
    requires |lines| > 0 && c != '\n'
    ensures Join(CodedLines(Onto([c], lines)), ") Tj 0 -14 Td (") == Code(c) + Join(CodedLines(lines), ") Tj 0 -14 Td (")
  {
    var sep := ") Tj 0 -14 Td (";
    var onto := Onto([c], lines);
    assert ([c] + lines[0])[1..] == lines[0];
    assert onto[1..] == lines[1..];
    assert CodedLines(onto)[1..] == CodedLines(lines[1..]) && CodedLines(lines)[1..] == CodedLines(lines[1..]);
    if |lines| > 1 {
      Associate(Code(c), Coded(lines[0]), sep + Join(CodedLines(lines[1..]), sep));
    }
  }

  /** The lines of a text are coded each on its own, and each but the first is moved down by 14. */
  lemma {:induction false} LinesAreCoded(t: string)
    ensures Coded(t) == Join(CodedLines(Split(t, "\n")), ") Tj 0 -14 Td (")
  {
    if t == "" {
      assert CodedLines([""]) == [""];
    } else {
      var c, rest := t[0], t[1..];
      assert t == [c] + rest;
      LinesAreCoded(rest);
      if c == '\n' {
        SplitHit("\n", rest);
        assert ([""] + Split(rest, "\n"))[1..] == Split(rest, "\n");
        assert CodedLines([""] + Split(rest, "\n"))[1..] == CodedLines(Split(rest, "\n"));
        assert CodedLines([""] + Split(rest, "\n"))[0] == "";
      } else {
        SplitMiss(c, rest, "\n", 0);
        CodedOnto(c, Split(rest, "\n"));
      }
    }
  }

  /** The stream shows a line at a time: the first at (50, 760) in 12 point, each other 14 below. */
  lemma StreamLayout(t: string)
    ensures Stream(t) == "BT /F1 12 Tf 50 760 Td (" + (Join(CodedLines(Split(t, "\n")), ") Tj 0 -14 Td (") + ") Tj ET")
  {
    StreamIsCoded(t);
    LinesAreCoded(t);
  }

  /** The report: its page, found through the cross-reference table of the file, shows the lines of the
      text; exactly as they are when the text is in Latin-1 without carriage returns. */
  lemma {:induction false} ReportReadsBack(title: string, sections: seq<string>)
    ensures var t := Text(title, sections);
            var shown := Strings(PageContent(File(Objects(Stream(t)))));
            && shown == ShownLines(Split(t, "\n"))
            && (shown == Split(t, "\n") <==> Plain(t))
  {
    var t := Text(title, sections);
    StreamSize(t);
    PageShows(t);
    StreamShowsLines(t);
    StreamRoundTrip(t);
  }

  lemma PageShows(t: string)
    requires |StreamObject(Stream(t))| <= 40_000
    ensures PageContent(File(Objects(Stream(t)))) == Stream(t)
  {
    ObjectSizes(Stream(t));
    FileSize(Objects(Stream(t)));
    ObjectsRefer(Stream(t));
    ContentFound(Objects(Stream(t)), Stream(t));
  }

  // ------------------------------------------------------------- what the caller gets

  /** The lines that a report is made of. */
  function LinesOf(title: string, sections: seq<string>): (lines: seq<string>)
    ensures |lines| > 0
  {
    [title] + (if sections == [] then [""] else sections)
  }

  predicate OneLineEach(lines: seq<string>) {
    forall i :: 0 <= i < |lines| ==> '\n' !in lines[i]
  }

  lemma WholeIsJoined(title: string, sections: seq<string>)
    ensures Whole(title, sections) == Join(LinesOf(title, sections), "\n")
  {
    assert LinesOf(title, sections)[1..] == if sections == [] then [""] else sections;
  }

  /** Splitting at a line feed between two texts splits each of them. */
  lemma {:induction false} SplitAround(a: string, b: string)
    ensures |Split(a + ("\n" + b), "\n")| == |Split(a, "\n")| + |Split(b, "\n")|
  {
    if a == "" {
      assert a + ("\n" + b) == "\n" + b;
      SplitHit("\n", b);
    } else {
      SplitAround(a[1..], b);
      assert (a + ("\n" + b))[1..] == a[1..] + ("\n" + b);
      assert a == [a[0]] + a[1..];
    }
  }

  lemma {:induction false} SplitOnce(s: string)
    ensures '\n' in s <==> |Split(s, "\n")| > 1
  {
    if s != "" {
      SplitOnce(s[1..]);
      assert s == [s[0]] + s[1..];
    }
  }

  /** Joined lines split into as many lines exactly when none of them holds a line feed, and then into
      those lines. */
  lemma {:induction false} SplitJoined(lines: seq<string>)
    requires |lines| > 0
    ensures |Split(Join(lines, "\n"), "\n")| >= |lines|
    ensures |Split(Join(lines, "\n"), "\n")| == |lines| <==> OneLineEach(lines)
    ensures OneLineEach(lines) ==> Split(Join(lines, "\n"), "\n") == lines
  {
    SplitOnce(lines[0]);
    if |lines| == 1 {
      if '\n' !in lines[0] {
        SplitSkip(lines[0], "", "\n");
        assert lines[0] + "" == lines[0];
      }
    } else {
      SplitJoined(lines[1..]);
      SplitAround(lines[0], Join(lines[1..], "\n"));
      OneLineMore(lines);
      if OneLineEach(lines) {
        SplitSkip(lines[0], "\n" + Join(lines[1..], "\n"), "\n");
        SplitHit("\n", Join(lines[1..], "\n"));
        assert lines[0] + "" == lines[0];
        assert Onto(lines[0], [""] + lines[1..]) == lines;
      }
    }
  }

  lemma OneLineMore(lines: seq<string>)
    requires |lines| > 0
    ensures OneLineEach(lines) <==> '\n' !in lines[0] && OneLineEach(lines[1..])
  {
    assert lines == [lines[0]] + lines[1..];
  }

  /** What stands on the page of a file. */
  function PageLines(pdf: string): seq<string> {
    Strings(PageContent(pdf))
  }

  /** A report that is not cut shows its title and its sections, a line each, exactly when they are one
      line each and in plain characters. */
  lemma {:induction false} WholeReportShows(title: string, sections: seq<string>, page: seq<string>)
    requires |Whole(title, sections)| <= 2000
    requires page == ShownLines(Split(Text(title, sections), "\n"))
    requires page == Split(Text(title, sections), "\n") <==> Plain(Text(title, sections))
    ensures page == LinesOf(title, sections) <==> OneLineEach(LinesOf(title, sections)) && Plain(Whole(title, sections))
  {
    WholeIsJoined(title, sections);
    SplitJoined(LinesOf(title, sections));
  }

  /** The report node's PDF. A reader that follows the references from the trailer through the table to
      the page finds on it the lines of the title and sections, joined and cut at 2000 characters, as far
      as the font's encoding can show them; and a report that is not cut shows its title and each section
      on a line of its own exactly when each is one line of plain characters. */
  method Report(title: string, sections: seq<string>) returns (pdf: string)
    ensures var all := Join(LinesOf(title, sections), "\n");
            var text := if |all| <= 2000 then all else all[..2000];
            && PageLines(pdf) == ShownLines(Split(text, "\n"))
            && (PageLines(pdf) == Split(text, "\n") <==> Plain(text))
            && (|all| <= 2000 ==>
                  (PageLines(pdf) == LinesOf(title, sections) <==> OneLineEach(LinesOf(title, sections)) && Plain(all)))
  {
    pdf := Write(Objects(Stream(Text(title, sections))));
    ReportReadsBack(title, sections);
    WholeIsJoined(title, sections);
    if |Whole(title, sections)| <= 2000 {
      WholeReportShows(title, sections, PageLines(pdf));
    }
  }
}
