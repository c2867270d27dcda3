/** The text of sixel images as a list of operations, and that the parser reads it back. */
module SixelText {
  import opened Bytes
  import opened Sixel

  datatype Op =
    | Raster(x: nat, y: nat)
    | Palette(register: nat, word: nat)
    | Colour(register: nat)
    | Run(count: nat, mask: nat)
    | Return
    | NewLine

  predicate OpOk(op: Op) {
    match op
    case Raster(x, y) => x <= WIDTH_LIMIT && y <= HEIGHT_LIMIT
    case Palette(register, word) => register <= COLOUR_REGISTERS && word != 0 && Canonical(word)
    case Colour(register) => register <= COLOUR_REGISTERS
    case Run(count, mask) => count <= WIDTH_LIMIT && mask < 64
    case _ => true
  }

  predicate OpsOk(ops: seq<Op>) {
    forall op :: op in ops ==> OpOk(op)
  }

  // ---- What is printed ----

  /** `sixel_print_repeat`. */
  function RepeatText(count: nat, ch: Byte): seq<Byte> {
    if count == 0 then [] else if count == 1 then [ch] else if count == 2 then [ch, ch]
    else if count == 3 then [ch, ch, ch]
    else [0x21] + Decimal(count) + [ch]
  }

  function Fields(ns: seq<nat>): seq<Byte> {
    if ns == [] then [] else [SEMICOLON] + Decimal(ns[0]) + Fields(ns[1..])
  }

  function Render(op: Op): seq<Byte> {
    match op
    case Raster(x, y) => [0x22] + Decimal(1) + Fields([1, x, y])
    case Palette(i, w) =>
      [0x23] + Decimal(i) + Fields([w / 0x200_0000, w / 0x1_0000 % 0x200, w / 0x100 % 0x100, w % 0x100])
    case Colour(c) => [0x23] + Decimal(c)
    case Run(count, mask) => RepeatText(count, mask % 64 + 0x3f)
    case Return => [0x24]
    case NewLine => [0x2d]
  }

  function Text(ops: seq<Op>): seq<Byte> {
    if ops == [] then [] else Render(ops[0]) + Text(ops[1..])
  }

  // ---- What it does to the image under construction ----

  function Apply(si: Image, op: Op): Option<Image> {
    match op
    case Raster(x, y) =>
      var tall := ExpandLines(si.(x := x), y);
      if tall.None? then None else Some(tall.value.(setRa := true, raX := x, raY := y))
    case Palette(i, w) => Some(Define(Select(si, i), i, w))
    case Colour(c) => Some(Select(si, c))
    case Run(count, mask) => Repeat(si, mask, count)
    case Return => Some(si.(dx := 0))
    case NewLine => Some(si.(dx := 0, dy := si.dy + 6))
  }

  function ApplyAll(si: Image, ops: seq<Op>): Option<Image>
    decreases |ops|
  {
    if ops == [] then Some(si)
    else
      var r := Apply(si, ops[0]);
      if r.None? then None else ApplyAll(r.value, ops[1..])
  }

  lemma {:induction false} ApplyConcat(si: Image, a: seq<Op>, b: seq<Op>)
    ensures ApplyAll(si, a + b) == if ApplyAll(si, a).None? then None else ApplyAll(ApplyAll(si, a).value, b)
    decreases |a|
  {
    if a == [] {
      assert a + b == b;
    } else {
      assert (a + b)[1..] == a[1..] + b;
      if Apply(si, a[0]).Some? { ApplyConcat(Apply(si, a[0]).value, a[1..], b); }
    }
  }

  lemma {:induction false} TextConcat(a: seq<Op>, b: seq<Op>)
    ensures Text(a + b) == Text(a) + Text(b)
  {
    if a == [] {
      assert a + b == b;
    } else {
      assert (a + b)[1..] == a[1..] + b;
      TextConcat(a[1..], b);
      assert Render(a[0]) + (Text(a[1..]) + Text(b)) == Render(a[0]) + Text(a[1..]) + Text(b);
    }
  }

  // ---- Reading one operation ----

  predicate IsParam(b: Byte) {
    b == SEMICOLON || IsDigit(b)
  }

  /** The operation's text stands at `i`, and no parameter byte follows it. */
  predicate StandsAt(s: seq<Byte>, i: nat, t: seq<Byte>) {
    i + |t| <= |s| && s[i..i + |t|] == t && !IsParam(At(s, i + |t|))
  }

  lemma {:induction false} ParamsEnd(s: seq<Byte>, i: nat, j: nat)
    requires i <= j <= |s| && (forall k :: i <= k < j ==> IsParam(s[k])) && !IsParam(At(s, j))
    ensures Params(s, i) == j
    decreases j - i
  {
    if i < j { ParamsEnd(s, i + 1, j); }
  }

  lemma {:induction false} FieldsAreParams(ns: seq<nat>)
    ensures forall k :: 0 <= k < |Fields(ns)| ==> IsParam(Fields(ns)[k])
  {
    if ns != [] {
      DecimalNumber(ns[0]);
      FieldsAreParams(ns[1..]);
    }
  }

  lemma Parts(s: seq<Byte>, i: nat, a: seq<Byte>, b: seq<Byte>)
    requires i + |a| + |b| <= |s| && s[i..i + |a| + |b|] == a + b
    ensures s[i..i + |a|] == a && s[i + |a|..i + |a| + |b|] == b
    ensures b != [] ==> At(s, i + |a|) == b[0]
  {
    var t := s[i..i + |a| + |b|];
    assert s[i..i + |a|] == t[..|a|] == a;
    assert s[i + |a|..i + |a| + |b|] == t[|a|..] == b;
  }

  lemma FieldsStart(ns: seq<nat>)
    requires ns != []
    ensures Fields(ns) == [SEMICOLON] + (Decimal(ns[0]) + Fields(ns[1..])) && Fields(ns)[0] == SEMICOLON
  {
    assert [SEMICOLON] + Decimal(ns[0]) + Fields(ns[1..]) == [SEMICOLON] + (Decimal(ns[0]) + Fields(ns[1..]));
  }

  /** A number followed by fields stands at `i`. */
  lemma NumberField(s: seq<Byte>, i: nat, n: nat, ns: seq<nat>)
    requires StandsAt(s, i, Decimal(n) + Fields(ns)) && n < UINT
    ensures var j := i + |Decimal(n)|;
            Strtoul(s, i) == (n, j) && StandsAt(s, j, Fields(ns)) && j + |Fields(ns)| == i + |Decimal(n) + Fields(ns)|
  {
    hide Decimal, Strtoul, Fields;
    var j := i + |Decimal(n)|;
    Parts(s, i, Decimal(n), Fields(ns));
    if ns != [] { FieldsStart(ns); } else { NoFields(); }
    StrtoulDecimal(s, i, j, n);
  }

  /** Where the fields of `ns` stand at `i`, the first is a semicolon and a number, and then the others
    * stand. */
  lemma NextField(s: seq<Byte>, i: nat, ns: seq<nat>)
    requires ns != [] && StandsAt(s, i, Fields(ns)) && ns[0] < UINT
    ensures At(s, i) == SEMICOLON && i < |s|
    ensures var j := i + 1 + |Decimal(ns[0])|;
            Strtoul(s, i + 1) == (ns[0], j) && StandsAt(s, j, Fields(ns[1..])) && i < j <= i + |Fields(ns)|
            && j + |Fields(ns[1..])| == i + |Fields(ns)|
  {
    hide Decimal, Strtoul, Fields;
    FieldsStart(ns);
    Parts(s, i, [SEMICOLON], Decimal(ns[0]) + Fields(ns[1..]));
    NumberField(s, i + 1, ns[0], ns[1..]);
  }

  /** A number and fields stand at `i`. */
  lemma FirstField(s: seq<Byte>, i: nat, n: nat, ns: seq<nat>)
    requires StandsAt(s, i, Decimal(n) + Fields(ns)) && n < UINT
    ensures var j := i + |Decimal(n)|;
            Strtoul(s, i) == (n, j) && StandsAt(s, j, Fields(ns)) && j + |Fields(ns)| == Params(s, i)
            && Params(s, i) == i + |Decimal(n) + Fields(ns)|
  {
    hide Decimal, Strtoul, Fields, Number;
    NumberField(s, i, n, ns);
    DecimalNumber(n);
    FieldsAreParams(ns);
    var t := Decimal(n) + Fields(ns);
    forall k | i <= k < i + |t| ensures IsParam(s[k]) {
      assert s[k] == s[i..i + |t|][k - i] == t[k - i];
    }
    ParamsEnd(s, i, i + |t|);
  }

  lemma ReadColour(si: Image, s: seq<Byte>, i: nat, c: nat)
    requires StandsAt(s, i, Decimal(c)) && c <= COLOUR_REGISTERS
    ensures ParseColour(si, s, i) == Some((Select(si, c), i + |Decimal(c)|))
  {
    assert Decimal(c) + Fields([]) == Decimal(c);
    FirstField(s, i, c, []);
  }

  lemma ReadPalette(si: Image, s: seq<Byte>, i: nat, c: nat, kind: nat, c1: nat, c2: nat, c3: nat)
    requires StandsAt(s, i, Decimal(c) + Fields([kind, c1, c2, c3])) && c <= COLOUR_REGISTERS
    requires ValidColour(kind, c1, c2, c3)
    ensures ParseColour(si, s, i)
         == Some((Define(Select(si, c), c, Word(kind, c1, c2, c3)), i + |Decimal(c) + Fields([kind, c1, c2, c3])|))
  {
    hide Fields, Decimal, Strtoul, Params, Define, Select, StandsAt, Word, ValidColour;
    FourFields(s, i, c, kind, c1, c2, c3);
  }

  lemma FourFields(s: seq<Byte>, i: nat, c: nat, kind: nat, c1: nat, c2: nat, c3: nat)
    requires StandsAt(s, i, Decimal(c) + Fields([kind, c1, c2, c3])) && c <= COLOUR_REGISTERS
    requires ValidColour(kind, c1, c2, c3)
    ensures var last := i + |Decimal(c) + Fields([kind, c1, c2, c3])|;
            var j := i + |Decimal(c)|;
            var j1 := j + 1 + |Decimal(kind)|;
            var j2 := j1 + 1 + |Decimal(c1)|;
            var j3 := j2 + 1 + |Decimal(c2)|;
            && Params(s, i) == last && j3 < last <= |s|
            && Strtoul(s, i) == (c, j) && At(s, j) == SEMICOLON
            && Strtoul(s, j + 1) == (kind, j1) && At(s, j1) == SEMICOLON
            && Strtoul(s, j1 + 1) == (c1, j2) && At(s, j2) == SEMICOLON
            && Strtoul(s, j2 + 1) == (c2, j3) && At(s, j3) == SEMICOLON
            && Strtoul(s, j3 + 1) == (c3, last)
  {
    hide Fields, Decimal, Strtoul, Params, StandsAt;
    FirstField(s, i, c, [kind, c1, c2, c3]);
    var j := i + |Decimal(c)|;
    NextField(s, j, [kind, c1, c2, c3]);
    assert [kind, c1, c2, c3][1..] == [c1, c2, c3];
    var j1 := j + 1 + |Decimal(kind)|;
    NextField(s, j1, [c1, c2, c3]);
    assert [c1, c2, c3][1..] == [c2, c3];
    var j2 := j1 + 1 + |Decimal(c1)|;
    NextField(s, j2, [c2, c3]);
    assert [c2, c3][1..] == [c3];
    var j3 := j2 + 1 + |Decimal(c2)|;
    NextField(s, j3, [c3]);
    assert [c3][1..] == [];
    NoFields();
  }

  lemma NoFields()
    ensures Fields([]) == []
  {
  }

  lemma ReadRaster(si: Image, s: seq<Byte>, i: nat, x: nat, y: nat)
    requires StandsAt(s, i, Decimal(1) + Fields([1, x, y])) && x <= WIDTH_LIMIT && y <= HEIGHT_LIMIT
    ensures ParseAttributes(si, s, i)
         == (var r := Apply(si, Raster(x, y));
             if r.None? then None else Some((r.value, i + |Decimal(1) + Fields([1, x, y])|)))
  {
    hide Fields, Decimal, Strtoul, Params, StandsAt, ExpandLines;
    FirstField(s, i, 1, [1, x, y]);
    var j := i + |Decimal(1)|;
    NextField(s, j, [1, x, y]);
    assert [1, x, y][1..] == [x, y] && [x, y][1..] == [y] && [y][1..] == [];
    var j1 := j + 1 + |Decimal(1)|;
    NextField(s, j1, [x, y]);
    var j2 := j1 + 1 + |Decimal(x)|;
    NextField(s, j2, [y]);
    NoFields();
  }

  function Power10(digits: nat): nat {
    if digits == 0 then 1 else 10 * Power10(digits - 1)
  }

  /** A number below a power of ten has no more digits than that. */
  lemma {:induction false} DecimalLength(n: nat, digits: nat)
    requires digits > 0 && n < Power10(digits)
    ensures |Decimal(n)| <= digits
  {
    if n >= 10 {
      DecimalLength(n / 10, digits - 1);
    }
  }

  lemma ReadRepeat(si: Image, s: seq<Byte>, i: nat, count: nat, mask: nat)
    requires i + |Decimal(count)| < |s| && s[i..i + |Decimal(count)|] == Decimal(count)
    requires s[i + |Decimal(count)|] == mask + 0x3f && 1 <= count <= WIDTH_LIMIT && mask < 64
    ensures ParseRepeat(si, s, i)
         == if Repeat(si, mask, count).None? then None
            else Some((Repeat(si, mask, count).value, i + |Decimal(count)| + 1))
  {
    hide Decimal, Number, Repeat;
    var last := i + |Decimal(count)|;
    DecimalNumber(count);
    assert Power10(5) == 10 * (10 * (10 * (10 * (10 * Power10(0)))));
    DecimalLength(count, 5);
    forall k | i <= k < last ensures IsDigit(s[k]) {
      assert s[k] == s[i..last][k - i];
    }
    SkipDigitsEnd(s, i, last);
  }

  lemma ReadSixel(si: Image, s: seq<Byte>, i: nat, mask: nat)
    requires i < |s| && mask < 64 && s[i] == mask + 0x3f
    ensures ParseFrom(si, s, i)
         == if WriteSixel(si, mask).None? then None else ParseFrom(WriteSixel(si, mask).value, s, i + 1)
  {
    hide WriteSixel, ParseAttributes, ParseColour, ParseRepeat;
  }

  /** One or more sixels that are printed one by one. */
  lemma {:induction false} ReadSixels(si: Image, s: seq<Byte>, i: nat, count: nat, mask: nat)
    requires i + count <= |s| && mask < 64 && forall k :: i <= k < i + count ==> s[k] == mask + 0x3f
    ensures ParseFrom(si, s, i)
         == if Repeat(si, mask, count).None? then None else ParseFrom(Repeat(si, mask, count).value, s, i + count)
    decreases count
  {
    hide WriteSixel, ParseFrom;
    if count > 0 {
      ReadSixel(si, s, i, mask);
      if WriteSixel(si, mask).Some? {
        ReadSixels(WriteSixel(si, mask).value, s, i + 1, count - 1, mask);
      }
    }
  }

  lemma ReadShortRun(si: Image, s: seq<Byte>, i: nat, count: nat, mask: nat)
    requires count <= 3 && mask < 64 && StandsAt(s, i, RepeatText(count, mask + 0x3f))
    ensures ParseFrom(si, s, i)
         == if Repeat(si, mask, count).None? then None else ParseFrom(Repeat(si, mask, count).value, s, i + count)
  {
    hide Repeat, WriteSixel, ParseFrom;
    var t := RepeatText(count, mask + 0x3f);
    assert |t| == count && forall k :: 0 <= k < count ==> t[k] == mask + 0x3f;
    assert forall k :: i <= k < i + count ==> s[k] == s[i..i + |t|][k - i];
    ReadSixels(si, s, i, count, mask);
  }

  // ---- Operations that start with a byte and go on with numbers ----

  lemma ParseStep(si: Image, s: seq<Byte>, i: nat)
    requires i < |s|
    ensures ParseFrom(si, s, i)
         == var r := ParseOne(si, s, i); if r.None? then None else ParseFrom(r.value.0, s, r.value.1)
  {
    hide ParseOne;
  }

  lemma ParseTagged(si: Image, s: seq<Byte>, i: nat)
    requires i < |s|
    ensures s[i] == 0x22 ==> ParseOne(si, s, i) == ParseAttributes(si, s, i + 1)
    ensures s[i] == 0x23 ==> ParseOne(si, s, i) == ParseColour(si, s, i + 1)
    ensures s[i] == 0x21 ==> ParseOne(si, s, i) == ParseRepeat(si, s, i + 1)
  {
    hide ParseAttributes, ParseColour, ParseRepeat, WriteSixel;
  }

  /** A byte and a text after it. */
  lemma StandsAfter(s: seq<Byte>, i: nat, b: Byte, t: seq<Byte>)
    requires StandsAt(s, i, [b] + t)
    ensures i < |s| && s[i] == b && StandsAt(s, i + 1, t) && i + 1 + |t| == i + |[b] + t|
  {
    Parts(s, i, [b], t);
    assert s[i] == s[i..i + 1][0];
  }

  lemma LongRunTurn(si: Image, s: seq<Byte>, i: nat, count: nat, mask: nat)
    requires 3 < count <= WIDTH_LIMIT && mask < 64 && StandsAt(s, i, [0x21] + Decimal(count) + [mask + 0x3f])
    ensures i < |s| && s[i] == 0x21
    ensures ParseRepeat(si, s, i + 1)
         == if Repeat(si, mask, count).None? then None
            else Some((Repeat(si, mask, count).value, i + |Decimal(count)| + 2))
  {
    hide Repeat, Decimal, ParseRepeat;
    var ch: Byte := mask + 0x3f;
    var n := |Decimal(count)|;
    assert [0x21] + Decimal(count) + [ch] == [0x21] + (Decimal(count) + [ch]);
    StandsAfter(s, i, 0x21, Decimal(count) + [ch]);
    Parts(s, i + 1, Decimal(count), [ch]);
    ReadRepeat(si, s, i + 1, count, mask);
  }

  lemma ReadLongRun(si: Image, s: seq<Byte>, i: nat, count: nat, mask: nat)
    requires 3 < count <= WIDTH_LIMIT && mask < 64 && StandsAt(s, i, [0x21] + Decimal(count) + [mask + 0x3f])
    ensures Repeat(si, mask, count).Some? ==> i + |Decimal(count)| + 2 <= |s|
    ensures ParseFrom(si, s, i)
         == if Repeat(si, mask, count).None? then None
            else ParseFrom(Repeat(si, mask, count).value, s, i + |Decimal(count)| + 2)
  {
    hide Repeat, Decimal, ParseRepeat, ParseFrom, ParseOne, StandsAt;
    LongRunTurn(si, s, i, count, mask);
    ParseTagged(si, s, i);
    ParseStep(si, s, i);
  }

  lemma ReadRun(si: Image, s: seq<Byte>, i: nat, count: nat, mask: nat)
    requires count <= WIDTH_LIMIT && mask < 64 && StandsAt(s, i, RepeatText(count, mask + 0x3f))
    ensures Repeat(si, mask, count).Some? ==> i + |RepeatText(count, mask + 0x3f)| <= |s|
    ensures ParseFrom(si, s, i)
         == if Repeat(si, mask, count).None? then None
            else ParseFrom(Repeat(si, mask, count).value, s, i + |RepeatText(count, mask + 0x3f)|)
  {
    hide Repeat, Decimal, ParseFrom;
    if count <= 3 { ReadShortRun(si, s, i, count, mask); } else { ReadLongRun(si, s, i, count, mask); }
  }

  /** The parser's turn at an operation's text. */
  predicate OneTurn(si: Image, s: seq<Byte>, i: nat, op: Op)
    requires i < |s|
  {
    ParseOne(si, s, i) == if Apply(si, op).None? then None else Some((Apply(si, op).value, i + |Render(op)|))
  }

  lemma TurnIsRead(si: Image, s: seq<Byte>, i: nat, op: Op)
    requires i < |s| && OneTurn(si, s, i, op)
    ensures Apply(si, op).Some? ==> i + |Render(op)| <= |s|
    ensures ParseFrom(si, s, i)
         == if Apply(si, op).None? then None else ParseFrom(Apply(si, op).value, s, i + |Render(op)|)
  {
    hide ParseOne, ParseFrom, Apply, Render;
    ParseStep(si, s, i);
  }

  lemma RasterText(x: nat, y: nat)
    ensures Render(Raster(x, y)) == [0x22] + (Decimal(1) + Fields([1, x, y]))
  {
    hide Decimal, Fields;
  }

  lemma RasterTurn(si: Image, s: seq<Byte>, i: nat, x: nat, y: nat)
    requires x <= WIDTH_LIMIT && y <= HEIGHT_LIMIT && StandsAt(s, i, Render(Raster(x, y)))
    ensures i < |s| && OneTurn(si, s, i, Raster(x, y))
  {
    hide Decimal, Fields, ParseOne, ParseAttributes, Render, Apply, StandsAt;
    var t := Decimal(1) + Fields([1, x, y]);
    RasterText(x, y);
    StandsAfter(s, i, 0x22, t);
    ParseTagged(si, s, i);
    ReadRaster(si, s, i + 1, x, y);
  }

  /** The components a palette word is printed as. */
  lemma PaletteText(c: nat, w: nat) returns (k: nat, c1: nat, c2: nat, c3: nat)
    requires w != 0 && Canonical(w)
    ensures Render(Palette(c, w)) == [0x23] + (Decimal(c) + Fields([k, c1, c2, c3]))
    ensures ValidColour(k, c1, c2, c3) && w == Word(k, c1, c2, c3)
  {
    hide Decimal, Fields, ValidColour, Word;
    k, c1, c2, c3 := w / 0x200_0000, w / 0x1_0000 % 0x200, w / 0x100 % 0x100, w % 0x100;
    assert Render(Palette(c, w)) == [0x23] + Decimal(c) + Fields([k, c1, c2, c3]);
  }

  lemma ApplyPalette(si: Image, c: nat, w: nat)
    ensures Apply(si, Palette(c, w)) == Some(Define(Select(si, c), c, w))
  {
    hide Define, Select;
  }

  lemma WordTurn(si: Image, s: seq<Byte>, i: nat, c: nat, w: nat, k: nat, c1: nat, c2: nat, c3: nat)
    requires c <= COLOUR_REGISTERS && ValidColour(k, c1, c2, c3) && w == Word(k, c1, c2, c3)
    requires StandsAt(s, i, [0x23] + (Decimal(c) + Fields([k, c1, c2, c3])))
    ensures i < |s| && ParseOne(si, s, i)
         == Some((Define(Select(si, c), c, w), i + |[0x23] + (Decimal(c) + Fields([k, c1, c2, c3]))|))
  {
    hide Decimal, Fields, ParseOne, ParseColour, StandsAt, Define, Select, ValidColour, Word;
    StandsAfter(s, i, 0x23, Decimal(c) + Fields([k, c1, c2, c3]));
    ParseTagged(si, s, i);
    ReadPalette(si, s, i + 1, c, k, c1, c2, c3);
  }

  lemma PaletteTurn(si: Image, s: seq<Byte>, i: nat, c: nat, w: nat)
    requires c <= COLOUR_REGISTERS && w != 0 && Canonical(w) && StandsAt(s, i, Render(Palette(c, w)))
    ensures i < |s| && OneTurn(si, s, i, Palette(c, w))
  {
    hide Decimal, Fields, ParseOne, Render, Apply, StandsAt, Define, Select, ValidColour, Word, Canonical;
    ApplyPalette(si, c, w);
    var k, c1, c2, c3 := PaletteText(c, w);
    WordTurn(si, s, i, c, w, k, c1, c2, c3);
  }

  lemma ColourTurn(si: Image, s: seq<Byte>, i: nat, c: nat)
    requires c <= COLOUR_REGISTERS && StandsAt(s, i, Render(Colour(c)))
    ensures i < |s| && OneTurn(si, s, i, Colour(c))
  {
    hide Decimal, ParseOne, ParseColour, StandsAt, Select;
    StandsAfter(s, i, 0x23, Decimal(c));
    ParseTagged(si, s, i);
    ReadColour(si, s, i + 1, c);
  }

  lemma MoveTurn(si: Image, s: seq<Byte>, i: nat, op: Op)
    requires (op == Return || op == NewLine) && StandsAt(s, i, Render(op))
    ensures i < |s| && OneTurn(si, s, i, op)
  {
    hide ParseAttributes, ParseColour, ParseRepeat, WriteSixel;
    assert s[i] == s[i..i + 1][0];
  }

  lemma RunIsRead(si: Image, s: seq<Byte>, i: nat, count: nat, mask: nat)
    requires OpOk(Run(count, mask)) && StandsAt(s, i, Render(Run(count, mask)))
    ensures var op := Run(count, mask);
            && (Apply(si, op).Some? ==> i + |Render(op)| <= |s|)
            && ParseFrom(si, s, i)
               == if Apply(si, op).None? then None else ParseFrom(Apply(si, op).value, s, i + |Render(op)|)
  {
    hide Repeat, RepeatText, ParseFrom;
    ReadRun(si, s, i, count, mask);
  }

  /** What the parser makes of an operation's text. */
  lemma ReadOp(si: Image, s: seq<Byte>, i: nat, op: Op)
    requires OpOk(op) && StandsAt(s, i, Render(op))
    ensures Apply(si, op).Some? ==> i + |Render(op)| <= |s|
    ensures ParseFrom(si, s, i)
         == if Apply(si, op).None? then None else ParseFrom(Apply(si, op).value, s, i + |Render(op)|)
  {
    hide Render, Apply, ParseFrom, OneTurn, StandsAt;
    if op.Run? {
      RunIsRead(si, s, i, op.count, op.mask);
    } else {
      match op {
        case Raster(x, y) => RasterTurn(si, s, i, x, y);
        case Palette(c, w) => PaletteTurn(si, s, i, c, w);
        case Colour(c) => ColourTurn(si, s, i, c);
        case Return => MoveTurn(si, s, i, op);
        case NewLine => MoveTurn(si, s, i, op);
      }
      TurnIsRead(si, s, i, op);
    }
  }

  /** No text of operations starts with a parameter byte. */
  lemma {:induction false} TextStart(ops: seq<Op>)
    ensures Text(ops) != [] ==> !IsParam(Text(ops)[0])
  {
    hide Decimal, Fields;
    if ops != [] {
      TextStart(ops[1..]);
    }
  }

  /** Parsing the text of operations applies them one after the other. */
  lemma {:induction false} ReadOps(si: Image, s: seq<Byte>, i: nat, ops: seq<Op>)
    requires i <= |s| && s[i..] == Text(ops) && OpsOk(ops)
    ensures ParseFrom(si, s, i) == ApplyAll(si, ops)
    decreases |ops|
  {
    hide Render, Apply, ParseFrom, OpOk, StandsAt;
    if ops == [] {
      assert i == |s|;
      ReadEnd(si, s);
    } else {
      var t, rest := Render(ops[0]), Text(ops[1..]);
      FirstStands(s, i, ops);
      ReadOp(si, s, i, ops[0]);
      if Apply(si, ops[0]).Some? {
        ReadOps(Apply(si, ops[0]).value, s, i + |t|, ops[1..]);
      }
    }
  }

  lemma ReadEnd(si: Image, s: seq<Byte>)
    ensures ParseFrom(si, s, |s|) == Some(si)
  {
  }

  lemma FirstStands(s: seq<Byte>, i: nat, ops: seq<Op>)
    requires i <= |s| && s[i..] == Text(ops) && ops != []
    ensures StandsAt(s, i, Render(ops[0])) && s[i + |Render(ops[0])|..] == Text(ops[1..])
  {
    hide Render;
    var t, rest := Render(ops[0]), Text(ops[1..]);
    assert s[i..i + |t| + |rest|] == s[i..];
    Parts(s, i, t, rest);
    TextStart(ops[1..]);
    assert s[i + |t|..] == s[i + |t|..i + |t| + |rest|];
  }

  // ---- What columns of sixels draw ----

  function WriteColumns(si: Image, columns: seq<nat>): Option<Image>
    decreases |columns|
  {
    if columns == [] then Some(si)
    else
      var r := WriteSixel(si, columns[0]);
      if r.None? then None else WriteColumns(r.value, columns[1..])
  }

  function Times(mask: nat, n: nat): (s: seq<nat>)
    ensures |s| == n && forall i :: 0 <= i < n ==> s[i] == mask
  {
    seq(n, i => mask)
  }

  lemma {:induction false} RepeatIsColumns(si: Image, mask: nat, n: nat)
    ensures Repeat(si, mask, n) == WriteColumns(si, Times(mask, n))
    decreases n
  {
    hide WriteSixel;
    if n > 0 && WriteSixel(si, mask).Some? {
      assert Times(mask, n)[1..] == Times(mask, n - 1);
      RepeatIsColumns(WriteSixel(si, mask).value, mask, n - 1);
    }
  }

  /** The parser's place and colour after `n` columns. */
  predicate Moved(si: Image, r: Image, n: nat) {
    SameFrame(si, r) && r.dx == si.dx + n && r.dy == si.dy && r.dc == si.dc
  }

  predicate Inked(mask: nat, row: int) {
    0 <= row < 6 && Bit(mask, row)
  }

  predicate InkedAt(columns: seq<nat>, x: int, row: int) {
    0 <= x < |columns| && Inked(columns[x], row)
  }

  /** The rows of a sixel from `i` on are drawn. */
  ghost predicate RowsDrawn(si: Image, r: Image, mask: nat, i: nat) {
    forall x: nat, y: nat :: GetPixel(r, x, y)
      == if x == si.dx && y >= si.dy + i && Inked(mask, y - si.dy) then si.dc else GetPixel(si, x, y)
  }

  /** Columns are drawn and nothing else. */
  ghost predicate Drawn(si: Image, r: Image, columns: seq<nat>) {
    forall x: nat, y: nat :: GetPixel(r, x, y)
      == if InkedAt(columns, x - si.dx, y - si.dy) then si.dc else GetPixel(si, x, y)
  }

  lemma {:induction false} WriteFromOk(si: Image, mask: nat, i: nat)
    requires i <= 6 && si.dx < WIDTH_LIMIT && forall k :: i <= k < 6 && Bit(mask, k) ==> si.dy + k < HEIGHT_LIMIT
    ensures WriteFrom(si, mask, i).Some?
    ensures var r := WriteFrom(si, mask, i).value;
            Moved(si, r, 0) && RowsDrawn(si, r, mask, i) && (Fits(si) ==> Fits(r))
    decreases 6 - i
  {
    hide SetPixel, GetPixel, Fits, Bit;
    if i < 6 {
      if !Bit(mask, i) {
        WriteFromOk(si, mask, i + 1);
      } else {
        SetPixelOk(si, si.dx, si.dy + i, si.dc);
        var next := SetPixel(si, si.dx, si.dy + i, si.dc).value;
        WriteFromOk(next, mask, i + 1);
        var r := WriteFrom(next, mask, i + 1).value;
        assert RowsDrawn(next, r, mask, i + 1);
      }
    }
  }

  lemma WriteSixelOk(si: Image, mask: nat)
    requires si.dx < WIDTH_LIMIT && forall k :: Inked(mask, k) ==> si.dy + k < HEIGHT_LIMIT
    ensures WriteSixel(si, mask).Some?
    ensures var r := WriteSixel(si, mask).value;
            Moved(si, r, 1) && RowsDrawn(si, r, mask, 0) && (Fits(si) ==> Fits(r))
  {
    hide WriteFrom, Bit;
    forall k | 0 <= k < 6 && Bit(mask, k) ensures si.dy + k < HEIGHT_LIMIT {
      assert Inked(mask, k);
    }
    WriteFromOk(si, mask, 0);
    var r := WriteFrom(si, mask, 0).value;
    var t := WriteSixel(si, mask).value;
    forall x: nat, y: nat
      ensures GetPixel(t, x, y)
           == if x == si.dx && y >= si.dy && Inked(mask, y - si.dy) then si.dc else GetPixel(si, x, y)
    {
      assert GetPixel(t, x, y) == GetPixel(r, x, y);
    }
  }

  /** Columns within the limits are drawn with the current colour. */
  lemma {:induction false} WriteColumnsOk(si: Image, columns: seq<nat>)
    requires si.dx + |columns| <= WIDTH_LIMIT
    requires forall k, i :: InkedAt(columns, k, i) ==> si.dy + i < HEIGHT_LIMIT
    ensures WriteColumns(si, columns).Some?
    ensures var r := WriteColumns(si, columns).value;
            Moved(si, r, |columns|) && Drawn(si, r, columns) && (Fits(si) ==> Fits(r))
    decreases |columns|
  {
    hide WriteSixel, GetPixel, Fits, Bit;
    if columns != [] {
      assert forall i :: Inked(columns[0], i) ==> InkedAt(columns, 0, i);
      WriteSixelOk(si, columns[0]);
      var next, rest := WriteSixel(si, columns[0]).value, columns[1..];
      assert forall k, i :: InkedAt(rest, k, i) ==> InkedAt(columns, k + 1, i);
      WriteColumnsOk(next, rest);
      DrawnNext(si, next, WriteColumns(next, rest).value, columns);
    }
  }

  lemma DrawnNext(si: Image, next: Image, r: Image, columns: seq<nat>)
    requires columns != [] && Moved(si, next, 1) && RowsDrawn(si, next, columns[0], 0) && Drawn(next, r, columns[1..])
    ensures Drawn(si, r, columns)
  {
    hide GetPixel, Inked;
    forall x: nat, y: nat
      ensures GetPixel(r, x, y) == if InkedAt(columns, x - si.dx, y - si.dy) then si.dc else GetPixel(si, x, y)
    {
      assert InkedAt(columns[1..], x - next.dx, y - next.dy) <==> x != si.dx && InkedAt(columns, x - si.dx, y - si.dy);
      InkedRows(columns[0], y - si.dy);
    }
  }

  lemma InkedRows(mask: nat, row: int)
    ensures Inked(mask, row) ==> row >= 0
  {
  }
}
