/** What the parser of image-sixel.c makes of any text of commands: those the printer never writes, those
 * with too few or too many numbers, and bytes that mean nothing.
 */
module SixelGrammar {
  import opened Bytes
  import opened Sixel
  import opened SixelText

  datatype Piece =
    | Drawn(op: Op)
    | Skipped(b: Byte)
    | Stray(b: Byte)
    | Attributes(n: nat, ns: seq<nat>)
    | Register(n: nat, ns: seq<nat>)
    | Repeated(n: nat, b: Byte)

  /** Control bytes and, as a `char` is signed, bytes from 0x80. */
  predicate Ignorable(b: Byte) {
    b < 0x20 || b > 0x7f
  }

  predicate StartsCommand(b: Byte) {
    b == 0x21 || b == 0x22 || b == 0x23 || b == 0x24 || b == 0x2d || 0x3f <= b <= 0x7e
  }

  predicate PieceOk(piece: Piece) {
    match piece
    case Drawn(op) => OpOk(op)
    case Skipped(b) => Ignorable(b)
    case Stray(b) => !Ignorable(b) && !StartsCommand(b)
    case Attributes(n, ns) => n < UINT && forall k :: 0 <= k < |ns| ==> ns[k] < UINT
    case Register(n, ns) => n < UINT && forall k :: 0 <= k < |ns| ==> ns[k] < UINT
    case Repeated(n, b) => !IsDigit(b)
  }

  function PieceText(piece: Piece): seq<Byte> {
    match piece
    case Drawn(op) => Render(op)
    case Skipped(b) => [b]
    case Stray(b) => [b]
    case Attributes(n, ns) => [0x22] + (Decimal(n) + Fields(ns))
    case Register(n, ns) => [0x23] + (Decimal(n) + Fields(ns))
    case Repeated(n, b) => [0x21] + (Decimal(n) + [b])
  }

  function AllText(pieces: seq<Piece>): seq<Byte> {
    if pieces == [] then [] else PieceText(pieces[0]) + AllText(pieces[1..])
  }

  /** A piece that may end in a number is not followed by a digit or a semicolon. */
  predicate PiecesOk(pieces: seq<Piece>) {
    pieces == [] ||
    (PieceOk(pieces[0]) && PiecesOk(pieces[1..])
     && (pieces[0].Drawn? || pieces[0].Attributes? || pieces[0].Register? ==> !IsParam(At(AllText(pieces[1..]), 0))))
  }

  /** A hue of at most 360 degrees with lightness and saturation, or three parts of red, green and blue. */
  predicate InRange(ns: seq<nat>)
    requires |ns| == 4
  {
    ns[2] <= 100 && ns[3] <= 100 && if ns[1] <= 100 then ns[0] in {1, 2} else ns[0] == 1 && ns[1] <= 360
  }

  /** What a piece does to the image; `None` is a text that is refused.  Attributes without a size mean
    * nothing, and a register with one number is selected, with five defined too. */
  function Meaning(si: Image, piece: Piece): Option<Image> {
    match piece
    case Drawn(op) => Apply(si, op)
    case Skipped(b) => Some(si)
    case Stray(b) => None
    case Attributes(n, ns) =>
      if |ns| <= 1 then Some(si)
      else if |ns| == 3 && ns[1] <= WIDTH_LIMIT && ns[2] <= HEIGHT_LIMIT then Apply(si, Raster(ns[1], ns[2]))
      else None
    case Register(n, ns) =>
      if n > COLOUR_REGISTERS then None
      else if ns == [] then Some(Select(si, n))
      else if |ns| == 4 && InRange(ns) then
        Some(Define(Select(si, n), n, Word(ns[0], ns[1], ns[2], ns[3])))
      else None
    case Repeated(n, b) => if 1 <= n <= WIDTH_LIMIT then Repeat(si, (b + 1) % 64, n) else None
  }

  function Meanings(si: Image, pieces: seq<Piece>): Option<Image>
    decreases |pieces|
  {
    if pieces == [] then Some(si)
    else
      var r := Meaning(si, pieces[0]);
      if r.None? then None else Meanings(r.value, pieces[1..])
  }

  // ---- One piece ----

  /** A result, and the place the text goes on from. */
  function Onto(r: Option<Image>, i: nat): Parsed {
    if r.None? then None else Some((r.value, i))
  }

  lemma LastField(s: seq<Byte>, i: nat, ns: seq<nat>)
    requires StandsAt(s, i, Fields(ns))
    ensures ns == [] ==> |Fields(ns)| == 0
    ensures ns != [] ==> |Fields(ns)| > 0
  {
    hide Decimal;
  }

  lemma {:induction false} AttributesTurn(si: Image, s: seq<Byte>, i: nat, n: nat, ns: seq<nat>)
    requires PieceOk(Attributes(n, ns)) && StandsAt(s, i, Decimal(n) + Fields(ns))
    ensures ParseAttributes(si, s, i) == Onto(Meaning(si, Attributes(n, ns)), i + |Decimal(n) + Fields(ns)|)
  {
    hide Fields, Decimal, Strtoul, Params, StandsAt, ExpandLines;
    FirstField(s, i, n, ns);
    var j := i + |Decimal(n)|;
    LastField(s, j, ns);
    if ns != [] {
      NextField(s, j, ns);
      var j1 := j + 1 + |Decimal(ns[0])|;
      LastField(s, j1, ns[1..]);
      if |ns| > 1 {
        NextField(s, j1, ns[1..]);
        var j2 := j1 + 1 + |Decimal(ns[1])|;
        LastField(s, j2, ns[2..]);
        assert ns[1..][1..] == ns[2..];
        if |ns| > 2 {
          NextField(s, j2, ns[2..]);
          LastField(s, j2 + 1 + |Decimal(ns[2])|, ns[3..]);
          assert ns[2..][1..] == ns[3..];
        }
      }
    }
  }

  lemma RangeIsValid(ns: seq<nat>)
    requires |ns| == 4
    ensures InRange(ns) <==> ValidColour(ns[0], ns[1], ns[2], ns[3])
  {
  }

  lemma {:induction false} RegisterTurn(si: Image, s: seq<Byte>, i: nat, n: nat, ns: seq<nat>)
    requires PieceOk(Register(n, ns)) && StandsAt(s, i, Decimal(n) + Fields(ns))
    ensures ParseColour(si, s, i) == Onto(Meaning(si, Register(n, ns)), i + |Decimal(n) + Fields(ns)|)
  {
    hide Fields, Decimal, Strtoul, Params, StandsAt, Define, Select, Word, ValidColour, InRange;
    if |ns| == 4 { RangeIsValid(ns); }
    FirstField(s, i, n, ns);
    var j := i + |Decimal(n)|;
    LastField(s, j, ns);
    if ns != [] {
      NextField(s, j, ns);
      var j1 := j + 1 + |Decimal(ns[0])|;
      LastField(s, j1, ns[1..]);
      if |ns| > 1 {
        NextField(s, j1, ns[1..]);
        var j2 := j1 + 1 + |Decimal(ns[1])|;
        LastField(s, j2, ns[2..]);
        assert ns[1..][1..] == ns[2..];
        if |ns| > 2 {
          NextField(s, j2, ns[2..]);
          var j3 := j2 + 1 + |Decimal(ns[2])|;
          LastField(s, j3, ns[3..]);
          assert ns[2..][1..] == ns[3..];
          if |ns| > 3 {
            NextField(s, j3, ns[3..]);
            LastField(s, j3 + 1 + |Decimal(ns[3])|, ns[4..]);
            assert ns[3..][1..] == ns[4..];
          }
        }
      }
    }
  }

  lemma RepeatedTurn(si: Image, s: seq<Byte>, i: nat, n: nat, b: Byte)
    requires PieceOk(Repeated(n, b)) && i + |Decimal(n)| < |s|
    requires s[i..i + |Decimal(n)|] == Decimal(n) && s[i + |Decimal(n)|] == b
    ensures ParseRepeat(si, s, i) == Onto(Meaning(si, Repeated(n, b)), i + |Decimal(n)| + 1)
  {
    hide Decimal, Number, Repeat;
    var last := i + |Decimal(n)|;
    DecimalNumber(n);
    forall k | i <= k < last ensures IsDigit(s[k]) {
      assert s[k] == s[i..last][k - i];
    }
    SkipDigitsEnd(s, i, last);
    assert Power10(5) == 10 * (10 * (10 * (10 * (10 * Power10(0)))));
    if n <= WIDTH_LIMIT {
      DecimalLength(n, 5);
    }
  }

  /** The parser's turn at a piece. */
  lemma PieceTurn(si: Image, s: seq<Byte>, i: nat, piece: Piece)
    requires PieceOk(piece) && !piece.Drawn? && i + |PieceText(piece)| <= |s| && s[i..i + |PieceText(piece)|] == PieceText(piece)
    requires piece.Attributes? || piece.Register? ==> !IsParam(At(s, i + |PieceText(piece)|))
    ensures i < |s| && ParseOne(si, s, i) == Onto(Meaning(si, piece), i + |PieceText(piece)|)
  {
    hide Decimal, Fields, ParseAttributes, ParseColour, ParseRepeat, WriteSixel, ParseOne, Meaning;
    var t := PieceText(piece);
    match piece
    case Skipped(b) => ByteTurn(si, s, i, piece);
    case Stray(b) => ByteTurn(si, s, i, piece);
    case Attributes(n, ns) =>
      StandsAfter(s, i, 0x22, Decimal(n) + Fields(ns));
      ParseTagged(si, s, i);
      AttributesTurn(si, s, i + 1, n, ns);
    case Register(n, ns) =>
      StandsAfter(s, i, 0x23, Decimal(n) + Fields(ns));
      ParseTagged(si, s, i);
      RegisterTurn(si, s, i + 1, n, ns);
    case Repeated(n, b) =>
      Parts(s, i, [0x21], Decimal(n) + [b]);
      Parts(s, i + 1, Decimal(n), [b]);
      assert s[i] == s[i..i + 1][0];
      ParseTagged(si, s, i);
      RepeatedTurn(si, s, i + 1, n, b);
  }

  lemma ByteTurn(si: Image, s: seq<Byte>, i: nat, piece: Piece)
    requires PieceOk(piece) && (piece.Skipped? || piece.Stray?) && i < |s| && s[i..i + 1] == PieceText(piece)
    ensures ParseOne(si, s, i) == Onto(Meaning(si, piece), i + 1)
  {
    hide ParseAttributes, ParseColour, ParseRepeat, WriteSixel;
    assert s[i] == s[i..i + 1][0];
  }

  lemma PieceIsRead(si: Image, s: seq<Byte>, i: nat, piece: Piece)
    requires PieceOk(piece) && i + |PieceText(piece)| <= |s| && s[i..i + |PieceText(piece)|] == PieceText(piece)
    requires piece.Drawn? || piece.Attributes? || piece.Register? ==> !IsParam(At(s, i + |PieceText(piece)|))
    ensures ParseFrom(si, s, i)
         == if Meaning(si, piece).None? then None else ParseFrom(Meaning(si, piece).value, s, i + |PieceText(piece)|)
  {
    hide Render, Apply, Decimal, Fields, ParseFrom, ParseOne;
    if piece.Drawn? {
      ReadOp(si, s, i, piece.op);
    } else {
      hide Meaning, PieceText;
      PieceTurn(si, s, i, piece);
      ParseStep(si, s, i);
    }
  }

  // ---- The whole text ----

  /** Parsing the text of any pieces does what they mean, one after the other, and refuses the text at the
    * first that has no meaning. */
  lemma {:induction false} ReadPieces(si: Image, s: seq<Byte>, i: nat, pieces: seq<Piece>)
    requires i <= |s| && s[i..] == AllText(pieces) && PiecesOk(pieces)
    ensures ParseFrom(si, s, i) == Meanings(si, pieces)
    decreases |pieces|
  {
    hide PieceText, Meaning, ParseFrom, PieceOk;
    if pieces == [] {
      assert i == |s|;
      ReadEnd(si, s);
    } else {
      var t, rest := PieceText(pieces[0]), AllText(pieces[1..]);
      assert s[i..i + |t| + |rest|] == s[i..];
      Parts(s, i, t, rest);
      assert s[i + |t|..] == s[i + |t|..i + |t| + |rest|];
      PieceIsRead(si, s, i, pieces[0]);
      var r := Meaning(si, pieces[0]);
      if r.Some? {
        ReadPieces(r.value, s, i + |t|, pieces[1..]);
      }
    }
  }

  /** The same of a whole image: it is refused exactly if a piece has no meaning, or nothing was drawn. */
  lemma ParsePieces(pieces: seq<Piece>, p2: nat, xpixel: nat, ypixel: nat)
    requires PiecesOk(pieces)
    ensures var r := Meanings(NewImage(p2, xpixel, ypixel), pieces);
            Parse([0x71] + AllText(pieces), p2, xpixel, ypixel)
            == if r.Some? && r.value.x > 0 && r.value.lines != [] then r else None
  {
    hide AllText, Meanings, ParseFrom;
    var s, si := [0x71] + AllText(pieces), NewImage(p2, xpixel, ypixel);
    assert s[1..] == AllText(pieces);
    ReadPieces(si, s, 1, pieces);
    if |s| == 1 {
      ReadEnd(si, s);
    }
  }

  // ---- Bytes that are skipped ----

  function Ops(pieces: seq<Piece>): seq<Op> {
    if pieces == [] then [] else (if pieces[0].Drawn? then [pieces[0].op] else []) + Ops(pieces[1..])
  }

  predicate OnlySkips(pieces: seq<Piece>) {
    forall k :: 0 <= k < |pieces| ==> PieceOk(pieces[k]) && (pieces[k].Drawn? || pieces[k].Skipped?)
  }

  lemma {:induction false} SkipsOk(pieces: seq<Piece>)
    requires OnlySkips(pieces)
    ensures PiecesOk(pieces) && !IsParam(At(AllText(pieces), 0))
  {
    hide Decimal, Fields, PieceOk;
    if pieces != [] {
      SkipsOk(pieces[1..]);
      PieceStart(pieces[0]);
      var t, rest := PieceText(pieces[0]), AllText(pieces[1..]);
      if t == [] { assert t + rest == rest; }
    }
  }

  lemma PieceStart(piece: Piece)
    requires PieceOk(piece) && (piece.Drawn? || piece.Skipped?)
    ensures PieceText(piece) != [] ==> !IsParam(PieceText(piece)[0])
  {
    hide Decimal, Fields;
  }

  lemma {:induction false} SkipsMeanNothing(si: Image, pieces: seq<Piece>)
    requires OnlySkips(pieces)
    ensures Meanings(si, pieces) == ApplyAll(si, Ops(pieces)) && OpsOk(Ops(pieces))
    decreases |pieces|
  {
    hide Apply, OpOk;
    if pieces != [] {
      var rest := Ops(pieces[1..]);
      var r := Meaning(si, pieces[0]);
      SkipsMeanNothing(if r.Some? then r.value else si, pieces[1..]);
      if pieces[0].Drawn? {
        assert Ops(pieces)[0] == pieces[0].op && Ops(pieces)[1..] == rest;
        assert OpOk(pieces[0].op);
      } else {
        assert [] + rest == rest;
      }
    }
  }

  /** Control bytes and bytes from 0x80 between operations never change the image. */
  lemma SkippedBytes(pieces: seq<Piece>, p2: nat, xpixel: nat, ypixel: nat)
    requires OnlySkips(pieces)
    ensures var r := ApplyAll(NewImage(p2, xpixel, ypixel), Ops(pieces));
            Parse([0x71] + AllText(pieces), p2, xpixel, ypixel)
            == if r.Some? && r.value.x > 0 && r.value.lines != [] then r else None
  {
    hide AllText, Meanings, Parse, ApplyAll, Ops;
    SkipsOk(pieces);
    ParsePieces(pieces, p2, xpixel, ypixel);
    SkipsMeanNothing(NewImage(p2, xpixel, ypixel), pieces);
  }
}
