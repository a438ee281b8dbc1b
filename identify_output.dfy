/** Parsing of the line `identify -format "%w %h %m"` prints
    (lib/MagickLite.class.php:363-368). The source matches it against one of
    two PCRE patterns:
      ImageMagick:     ^(\d{1,5}) (\d{1,5}) (\b.+\b)$
      GraphicsMagick:  ^(\d{1,5})(?: \d+)* (\d{1,5}) (\b.+\b)$
    `Split` implements both as a string parser. `Render` lays out the fields a
    match separates, and the lemmas at the end pin `Split` to the patterns:
    it accepts exactly the rendered readings, and where the GraphicsMagick
    pattern admits several readings it returns the one the greedy
    `(?: \d+)*` settles on, the one with the most extra fields. */
module IdentifyOutput {
  import opened Common
  import opened Php

  /** The width, height and magic that `identify` reports and caches. */
  datatype Identity = Identity(width: nat, height: nat, magic: string)

  /** The parts of an output line a match separates: the width field, the
      extra all-digit fields GraphicsMagick may print before the height, the
      height field, the magic, and whether one final newline follows (PCRE's
      `$` also matches just before a final newline). */
  datatype Reading = Reading(width: string, extras: seq<string>, height: string, magic: string, newline: bool)

  /** `\d{1,5}` */
  predicate IsDimension(d: string) {
    1 <= |d| <= 5 && AllDigits(d)
  }

  /** `\d+` */
  predicate IsNumber(d: string) {
    |d| > 0 && AllDigits(d)
  }

  predicate NoNewline(s: string) {
    forall i :: 0 <= i < |s| ==> s[i] != '\n'
  }

  /** `(\b.+\b)` after a space and before the end of the line: `.` does not
      match a newline, and the two word boundaries need a word character at
      each end of the magic. */
  predicate IsMagic(m: string) {
    |m| > 0 && NoNewline(m) && IsWordChar(m[0]) && IsWordChar(m[|m| - 1])
  }

  /** A reading the pattern admits; ImageMagick's admits no extra fields. */
  predicate WellFormed(gm: bool, r: Reading) {
    && IsDimension(r.width)
    && (forall i :: 0 <= i < |r.extras| ==> IsNumber(r.extras[i]))
    && IsDimension(r.height)
    && IsMagic(r.magic)
    && (!gm ==> r.extras == [])
  }

  /** Each field preceded by one space, as `(?: \d+)*` consumes them. */
  function Spaced(fields: seq<string>): string {
    if fields == [] then "" else " " + fields[0] + Spaced(fields[1..])
  }

  function Tail(extras: seq<string>, height: string, magic: string): string {
    Spaced(extras) + " " + height + " " + magic
  }

  /** The output line a reading stands for. */
  function Render(r: Reading): string {
    r.width + Tail(r.extras, r.height, r.magic) + (if r.newline then "\n" else "")
  }

  /** One more extra field in front of a tail. */
  lemma TailCons(d: string, extras: seq<string>, height: string, magic: string)
    ensures Tail([d] + extras, height, magic) == " " + d + Tail(extras, height, magic)
  {
    assert ([d] + extras)[1..] == extras;
  }

  /** ` (\d{1,5}) (\b.+\b)` against the rest of the line. */
  function SplitHeightMagic(rest: string): (r: Option<(string, string)>)
    ensures r.Some? ==> IsDimension(r.value.0) && IsMagic(r.value.1)
    ensures r.Some? ==> rest == Tail([], r.value.0, r.value.1)
  {
    if |rest| == 0 || rest[0] != ' ' then None
    else
      var h := DigitPrefix(rest[1..]);
      if IsDimension(h) && 1 + |h| < |rest| && rest[1 + |h|] == ' ' && IsMagic(rest[2 + |h|..]) then
        assert rest == [rest[0]] + rest[1..1 + |h|] + [rest[1 + |h|]] + rest[2 + |h|..];
        Some((h, rest[2 + |h|..]))
      else None
  }

  /** A line part that starts with a space is that space, its digit run,
      and the rest. */
  lemma LeadingField(rest: string)
    requires |rest| > 0 && rest[0] == ' '
    ensures var d := DigitPrefix(rest[1..]);
      1 + |d| <= |rest| && rest == " " + d + rest[1 + |d|..]
  {
    var d := DigitPrefix(rest[1..]);
    assert rest[1..] == d + rest[1 + |d|..];
  }

  datatype TailReading = TailReading(extras: seq<string>, height: string, magic: string)

  /** `(?: \d+)* (\d{1,5}) (\b.+\b)` against the rest of the line. The greedy
      star first takes one more ` \d+` field and gives it back only when the
      rest of the line cannot then match. A `\d+` that stops short of the end
      of its digit run cannot be followed by the space both continuations
      need, so only whole digit runs are tried. */
  function SplitGmTail(rest: string): (r: Option<TailReading>)
    ensures r.Some? ==> rest == Tail(r.value.extras, r.value.height, r.value.magic)
    ensures r.Some? ==> (forall i :: 0 <= i < |r.value.extras| ==> IsNumber(r.value.extras[i]))
    ensures r.Some? ==> IsDimension(r.value.height) && IsMagic(r.value.magic)
    decreases |rest|
  {
    var d := if |rest| > 0 && rest[0] == ' ' then DigitPrefix(rest[1..]) else "";
    var more := if |d| > 0 then SplitGmTail(rest[1 + |d|..]) else None;
    if more.Some? then
      var t := more.value;
      LeadingField(rest);
      TailCons(d, t.extras, t.height, t.magic);
      Some(TailReading([d] + t.extras, t.height, t.magic))
    else
      match SplitHeightMagic(rest)
      case Some((h, m)) => Some(TailReading([], h, m))
      case None => None
  }

  /** PCRE's `$` matches at the very end or just before one final newline. */
  predicate EndsWithNewline(output: string) {
    |output| > 0 && output[|output| - 1] == '\n'
  }

  function Chomp(output: string): (line: string)
    ensures |line| <= |output|
  {
    if EndsWithNewline(output) then output[..|output| - 1] else output
  }

  lemma ChompRestores(output: string)
    ensures output == Chomp(output) + (if EndsWithNewline(output) then "\n" else "")
  {
  }

  /** The pattern against the line before the optional final newline. */
  function SplitLine(gm: bool, line: string, newline: bool): (r: Option<Reading>)
    ensures r.Some? ==> WellFormed(gm, r.value) && r.value.newline == newline
    ensures r.Some? ==> line == r.value.width + Tail(r.value.extras, r.value.height, r.value.magic)
  {
    var w := DigitPrefix(line);
    var rest := line[|w|..];
    assert line == w + rest;
    if !IsDimension(w) then None
    else if gm then
      match SplitGmTail(rest)
      case Some(t) => Some(Reading(w, t.extras, t.height, t.magic, newline))
      case None => None
    else
      match SplitHeightMagic(rest)
      case Some((h, m)) => Some(Reading(w, [], h, m, newline))
      case None => None
  }

  /** The match of the identify pattern on tool output, or None where the
      source throws "Failed to parse output". */
  function Split(gm: bool, output: string): (r: Option<Reading>)
    ensures r.Some? ==> WellFormed(gm, r.value) && Render(r.value) == output
  {
    var line := Chomp(output);
    var r := SplitLine(gm, line, EndsWithNewline(output));
    if r.Some? then
      ChompRestores(output);
      RenderParts(r.value, line, Tail(r.value.extras, r.value.height, r.value.magic));
      r
    else r
  }

  lemma RenderParts(r: Reading, line: string, rest: string)
    requires rest == Tail(r.extras, r.height, r.magic) && line == r.width + rest
    ensures Render(r) == line + (if r.newline then "\n" else "")
  {
  }

  /** A 1-5 digit field denotes at most 99999. */
  lemma DimensionBound(d: string)
    requires IsDimension(d)
    ensures DecimalValue(d) <= 99999
  {
    DecimalValueBelow(d);
    assert Pow10(1) == 10 && Pow10(2) == 100 && Pow10(3) == 1000;
    assert Pow10(4) == 10000 && Pow10(5) == 100000;
  }

  /** The width, height and magic the source takes from the match
      (`intval` of the two numeric groups, the third group verbatim). */
  function ParseIdentify(gm: bool, output: string): (r: Option<Identity>)
    ensures r.Some? ==> r.value.width <= 99999 && r.value.height <= 99999 && IsMagic(r.value.magic)
    ensures r.Some? <==> Split(gm, output).Some?
  {
    match Split(gm, output)
    case None => None
    case Some(rd) =>
      DimensionBound(rd.width);
      DimensionBound(rd.height);
      Some(Identity(DecimalValue(rd.width), DecimalValue(rd.height), rd.magic))
  }

  // ---- lemmas tying the parser to the patterns ----

  lemma {:induction false} SpacedNoNewline(fields: seq<string>)
    requires forall i :: 0 <= i < |fields| ==> IsNumber(fields[i])
    ensures NoNewline(Spaced(fields))
  {
    if fields != [] {
      SpacedNoNewline(fields[1..]);
    }
  }

  lemma TailShape(extras: seq<string>, height: string, magic: string)
    requires IsMagic(magic)
    ensures |Tail(extras, height, magic)| > 0 && Tail(extras, height, magic)[0] == ' '
    ensures IsWordChar(Tail(extras, height, magic)[|Tail(extras, height, magic)| - 1])
  {
  }

  lemma HeightMagicComplete(h: string, m: string)
    requires IsDimension(h) && IsMagic(m)
    ensures SplitHeightMagic(Tail([], h, m)) == Some((h, m))
  {
    var rest := Tail([], h, m);
    assert rest[1..] == h + (" " + m);
    DigitPrefixOf(h, " " + m);
    assert rest[2 + |h|..] == m;
  }

  /** Every well-formed tail is accepted, with at least as many extra fields. */
  lemma {:induction false} GmTailComplete(extras: seq<string>, h: string, m: string)
    requires forall i :: 0 <= i < |extras| ==> IsNumber(extras[i])
    requires IsDimension(h) && IsMagic(m)
    ensures SplitGmTail(Tail(extras, h, m)).Some?
    ensures |SplitGmTail(Tail(extras, h, m)).value.extras| >= |extras|
    decreases |extras|
  {
    var rest := Tail(extras, h, m);
    if extras == [] {
      assert rest[1..] == h + (" " + m);
      DigitPrefixOf(h, " " + m);
      HeightMagicComplete(h, m);
    } else {
      var e := extras[0];
      var next := Tail(extras[1..], h, m);
      assert extras == [e] + extras[1..];
      TailCons(e, extras[1..], h, m);
      TailShape(extras[1..], h, m);
      PeelField(e, next);
      GmTailComplete(extras[1..], h, m);
    }
  }

  /** The digits after the first space of a tail form the first field. */
  lemma PeelField(d: string, next: string)
    requires IsNumber(d) && |next| > 0 && next[0] == ' '
    ensures (" " + d + next)[1..] == d + next
    ensures DigitPrefix((" " + d + next)[1..]) == d
    ensures (" " + d + next)[1 + |d|..] == next
  {
    assert (" " + d + next)[1..] == d + next;
    DigitPrefixOf(d, next);
  }

  /** Two well-formed tails with the same number of extra fields that read
      the same are the same. */
  lemma {:induction false} TailsAgree(e1: seq<string>, h1: string, m1: string, e2: seq<string>, h2: string, m2: string)
    requires forall i :: 0 <= i < |e1| ==> IsNumber(e1[i])
    requires forall i :: 0 <= i < |e2| ==> IsNumber(e2[i])
    requires IsDimension(h1) && IsMagic(m1) && IsDimension(h2) && IsMagic(m2)
    requires |e1| == |e2|
    requires Tail(e1, h1, m1) == Tail(e2, h2, m2)
    ensures e1 == e2 && h1 == h2 && m1 == m2
    decreases |e1|
  {
    if e1 == [] {
      HeightMagicComplete(h1, m1);
      HeightMagicComplete(h2, m2);
    } else {
      var n1 := Tail(e1[1..], h1, m1);
      var n2 := Tail(e2[1..], h2, m2);
      assert e1 == [e1[0]] + e1[1..];
      assert e2 == [e2[0]] + e2[1..];
      TailCons(e1[0], e1[1..], h1, m1);
      TailCons(e2[0], e2[1..], h2, m2);
      TailShape(e1[1..], h1, m1);
      TailShape(e2[1..], h2, m2);
      PeelField(e1[0], n1);
      PeelField(e2[0], n2);
      TailsAgree(e1[1..], h1, m1, e2[1..], h2, m2);
    }
  }

  /** Two well-formed readings of one line share the width, the newline and
      the tail. */
  lemma SameLine(r1: Reading, r2: Reading)
    requires WellFormed(true, r1) && WellFormed(true, r2)
    requires Render(r1) == Render(r2)
    ensures r1.width == r2.width && r1.newline == r2.newline
    ensures Tail(r1.extras, r1.height, r1.magic) == Tail(r2.extras, r2.height, r2.magic)
  {
    var t1 := Tail(r1.extras, r1.height, r1.magic);
    var t2 := Tail(r2.extras, r2.height, r2.magic);
    var s := Render(r1);
    TailShape(r1.extras, r1.height, r1.magic);
    TailShape(r2.extras, r2.height, r2.magic);
    assert s == r1.width + (t1 + (if r1.newline then "\n" else ""));
    assert s == r2.width + (t2 + (if r2.newline then "\n" else ""));
    DigitPrefixOf(r1.width, t1 + (if r1.newline then "\n" else ""));
    DigitPrefixOf(r2.width, t2 + (if r2.newline then "\n" else ""));
    assert r1.width == r2.width;
    var u := s[|r1.width|..];
    assert u == t1 + (if r1.newline then "\n" else "") == t2 + (if r2.newline then "\n" else "");
    assert u[|u| - 1] == (if r1.newline then '\n' else t1[|t1| - 1]);
    assert u[|u| - 1] == (if r2.newline then '\n' else t2[|t2| - 1]);
    if r1.newline != r2.newline {
      assert false;
    }
    assert |t1| == |t2|;
    assert t1 == u[..|t1|] == t2;
  }

  /** Two well-formed readings of one line with the same number of extra
      fields are the same reading. */
  lemma ReadingsAgree(r1: Reading, r2: Reading)
    requires WellFormed(true, r1) && WellFormed(true, r2)
    requires |r1.extras| == |r2.extras|
    requires Render(r1) == Render(r2)
    ensures r1 == r2
  {
    SameLine(r1, r2);
    TailsAgree(r1.extras, r1.height, r1.magic, r2.extras, r2.height, r2.magic);
  }

  /** Removing the optional final newline of a rendered reading leaves the
      width and the tail. */
  lemma ChompRender(r: Reading)
    requires IsMagic(r.magic)
    ensures EndsWithNewline(Render(r)) == r.newline
    ensures Chomp(Render(r)) == r.width + Tail(r.extras, r.height, r.magic)
  {
    var t := Tail(r.extras, r.height, r.magic);
    TailShape(r.extras, r.height, r.magic);
    var line := r.width + t;
    assert Render(r) == line + (if r.newline then "\n" else "");
    assert line[|line| - 1] == t[|t| - 1];
  }

  /** The width field of a rendered reading is found again, and the parse
      goes on with its tail. */
  lemma RestOfLine(r: Reading)
    requires IsDimension(r.width) && IsMagic(r.magic)
    ensures var t := Tail(r.extras, r.height, r.magic);
      DigitPrefix(r.width + t) == r.width && (r.width + t)[|r.width|..] == t
  {
    var t := Tail(r.extras, r.height, r.magic);
    TailShape(r.extras, r.height, r.magic);
    DigitPrefixOf(r.width, t);
    assert (r.width + t)[|r.width|..] == t;
  }

  /** ImageMagick: a line is accepted exactly when it renders a reading
      without extra fields, and that reading is the one returned. */
  lemma ImReadingRecovered(r: Reading)
    requires WellFormed(false, r)
    ensures Split(false, Render(r)) == Some(r)
  {
    ChompRender(r);
    RestOfLine(r);
    HeightMagicComplete(r.height, r.magic);
  }

  /** GraphicsMagick: every well-formed reading of a line makes it accepted,
      the reading returned has at least as many extra fields, and with as
      many it is that reading: the returned reading is the unique one with
      the most extra fields. */
  lemma GmReadingGreediest(r: Reading)
    requires WellFormed(true, r)
    ensures Split(true, Render(r)).Some?
    ensures |Split(true, Render(r)).value.extras| >= |r.extras|
    ensures |Split(true, Render(r)).value.extras| == |r.extras| ==> Split(true, Render(r)).value == r
  {
    ChompRender(r);
    RestOfLine(r);
    GmTailComplete(r.extras, r.height, r.magic);
    var g := Split(true, Render(r)).value;
    if |g.extras| == |r.extras| {
      ReadingsAgree(g, r);
    }
  }

  lemma TailNoNewline(extras: seq<string>, h: string, m: string)
    requires forall i :: 0 <= i < |extras| ==> IsNumber(extras[i])
    requires IsDimension(h) && IsMagic(m)
    ensures NoNewline(Tail(extras, h, m))
  {
    SpacedNoNewline(extras);
  }

  /** A newline anywhere but at the very end makes the output unparsable. */
  lemma InteriorNewlineRejected(gm: bool, output: string, i: int)
    requires 0 <= i < |output| - 1 && output[i] == '\n'
    ensures ParseIdentify(gm, output) == None
  {
    if Split(gm, output).Some? {
      var r := Split(gm, output).value;
      var tail := Tail(r.extras, r.height, r.magic);
      TailNoNewline(r.extras, r.height, r.magic);
      var line := r.width + tail;
      RenderParts(r, line, tail);
      assert false;
    }
  }

  lemma ParseOfReading(gm: bool, output: string, r: Reading)
    ensures Split(gm, output) == Some(r) ==>
      ParseIdentify(gm, output) == Some(Identity(DecimalValue(r.width), DecimalValue(r.height), r.magic))
  {
  }

  lemma DecimalOfTwo(s: string)
    requires |s| == 2 && AllDigits(s)
    ensures DecimalValue(s) == 10 * DigitValue(s[0]) + DigitValue(s[1])
  {
    assert s[..1][..0] == [] && s[..1][0] == s[0];
    assert DecimalValue(s[..1]) == DigitValue(s[0]);
  }

  lemma DecimalOfThree(s: string)
    requires |s| == 3 && AllDigits(s)
    ensures DecimalValue(s) == 100 * DigitValue(s[0]) + 10 * DigitValue(s[1]) + DigitValue(s[2])
  {
    DecimalOfTwo(s[..2]);
  }

  predicate NoSpace(s: string) {
    forall i :: 0 <= i < |s| ==> s[i] != ' '
  }

  /** Two tails that start with a field and read the same start with the
      same field and go on alike. */
  lemma PeelSame(d1: string, n1: string, d2: string, n2: string)
    requires IsNumber(d1) && |n1| > 0 && n1[0] == ' '
    requires IsNumber(d2) && |n2| > 0 && n2[0] == ' '
    requires " " + d1 + n1 == " " + d2 + n2
    ensures d1 == d2 && n1 == n2
  {
    PeelField(d1, n1);
    PeelField(d2, n2);
  }

  /** The space between the height and the magic of a tail. */
  lemma SpaceBeforeMagic(extras: seq<string>, h: string, m: string)
    ensures var k := |Spaced(extras)| + 1 + |h|;
      k < |Tail(extras, h, m)| && Tail(extras, h, m)[k] == ' '
  {
  }

  /** If two well-formed tails read the same and the first has more extra
      fields, the second's magic holds a space. */
  lemma {:induction false} MoreExtrasMeansSpacedMagic(e1: seq<string>, h1: string, m1: string, e2: seq<string>, h2: string, m2: string)
    requires forall i :: 0 <= i < |e1| ==> IsNumber(e1[i])
    requires forall i :: 0 <= i < |e2| ==> IsNumber(e2[i])
    requires IsDimension(h1) && IsMagic(m1) && IsDimension(h2) && IsMagic(m2)
    requires |e1| > |e2|
    requires Tail(e1, h1, m1) == Tail(e2, h2, m2)
    ensures !NoSpace(m2)
    decreases |e2|
  {
    var n1 := Tail(e1[1..], h1, m1);
    assert e1 == [e1[0]] + e1[1..];
    TailCons(e1[0], e1[1..], h1, m1);
    TailShape(e1[1..], h1, m1);
    if e2 == [] {
      assert Tail(e2, h2, m2) == " " + h2 + (" " + m2);
      PeelSame(e1[0], n1, h2, " " + m2);
      SpaceBeforeMagic(e1[1..], h1, m1);
      var k := |Spaced(e1[1..])| + 1 + |h1|;
      assert m2[k - 1] == n1[k];
    } else {
      var n2 := Tail(e2[1..], h2, m2);
      assert e2 == [e2[0]] + e2[1..];
      TailCons(e2[0], e2[1..], h2, m2);
      TailShape(e2[1..], h2, m2);
      PeelSame(e1[0], n1, e2[0], n2);
      MoreExtrasMeansSpacedMagic(e1[1..], h1, m1, e2[1..], h2, m2);
    }
  }

  /** GraphicsMagick: when the magic holds no space, as format names do not,
      the height taken is the last all-digit field and every field between
      width and height is skipped. */
  lemma GmHeightIsLastNumericField(r: Reading)
    requires WellFormed(true, r) && NoSpace(r.magic)
    ensures Split(true, Render(r)) == Some(r)
  {
    GmReadingGreediest(r);
    var g := Split(true, Render(r)).value;
    if |g.extras| > |r.extras| {
      SameLine(g, r);
      MoreExtrasMeansSpacedMagic(g.extras, g.height, g.magic, r.extras, r.height, r.magic);
    }
  }

  lemma GmExtraFieldsReading()
    ensures Split(true, "100 72 72 75 JPEG") == Some(Reading("100", ["72", "72"], "75", "JPEG", false))
  {
    var r := Reading("100", ["72", "72"], "75", "JPEG", false);
    assert Spaced(["72", "72"]) == " 72 72" by {
      assert ["72", "72"][1..] == ["72"] && ["72"][1..] == [];
    }
    assert Tail(r.extras, "75", "JPEG") == " 72 72 75 JPEG";
    RenderParts(r, "100 72 72 75 JPEG", " 72 72 75 JPEG");
    assert "100 72 72 75 JPEG" + "" == "100 72 72 75 JPEG";
    GmHeightIsLastNumericField(r);
  }

  lemma DecimalExamples()
    ensures DecimalValue("100") == 100 && DecimalValue("75") == 75 && DecimalValue("72") == 72
    ensures DecimalValue("640") == 640 && DecimalValue("480") == 480
  {
    DecimalOfThree("100");
    DecimalOfTwo("75");
    DecimalOfTwo("72");
    DecimalOfThree("640");
    DecimalOfThree("480");
  }

  /** GraphicsMagick prints resolution fields between width and height; its
      pattern skips them and takes the last all-digit field as the height. */
  lemma GmSkipsExtraFields()
    ensures ParseIdentify(true, "100 72 72 75 JPEG") == Some(Identity(100, 75, "JPEG"))
  {
    GmExtraFieldsReading();
    ParseOfReading(true, "100 72 72 75 JPEG", Reading("100", ["72", "72"], "75", "JPEG", false));
    DecimalExamples();
  }

  lemma ImExtraFieldsReading()
    ensures Split(false, "100 72 72 75 JPEG") == Some(Reading("100", [], "72", "72 75 JPEG", false))
  {
    var r := Reading("100", [], "72", "72 75 JPEG", false);
    assert Tail([], "72", "72 75 JPEG") == " 72 72 75 JPEG";
    RenderParts(r, "100 72 72 75 JPEG", " 72 72 75 JPEG");
    assert "100 72 72 75 JPEG" + "" == "100 72 72 75 JPEG";
    assert Render(r) == "100 72 72 75 JPEG";
    ImReadingRecovered(r);
  }

  /** The ImageMagick pattern has no room for extra fields, but its magic
      group `\b.+\b` takes spaces: the same line reads with the second field
      as the height and the rest as the magic. */
  lemma ImReadsExtraFieldsAsMagic()
    ensures ParseIdentify(false, "100 72 72 75 JPEG") == Some(Identity(100, 72, "72 75 JPEG"))
  {
    ImExtraFieldsReading();
    ParseOfReading(false, "100 72 72 75 JPEG", Reading("100", [], "72", "72 75 JPEG", false));
    DecimalExamples();
  }

  lemma FinalNewlineReading()
    ensures Split(false, "640 480 PNG\n") == Some(Reading("640", [], "480", "PNG", true))
  {
    var r := Reading("640", [], "480", "PNG", true);
    assert Tail([], "480", "PNG") == " 480 PNG";
    RenderParts(r, "640 480 PNG", " 480 PNG");
    assert "640 480 PNG" + "\n" == "640 480 PNG\n";
    assert Render(r) == "640 480 PNG\n";
    ImReadingRecovered(r);
  }

  /** One final newline is allowed, as PCRE's `$` allows it. */
  lemma FinalNewlineAccepted()
    ensures ParseIdentify(false, "640 480 PNG\n") == Some(Identity(640, 480, "PNG"))
  {
    FinalNewlineReading();
    ParseOfReading(false, "640 480 PNG\n", Reading("640", [], "480", "PNG", true));
    DecimalExamples();
  }
}
