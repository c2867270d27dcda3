/** The loops of the sixel parser, and what holds of every image it returns. */
module SixelParser {
  import opened Bytes
  import opened Sixel
  import opened SixelPrint
  import opened SixelRoundTrip

  // ---- The parser as image-sixel.c has it ----

  /** `sixel_parse_write`. */
  method WriteRows(si: Image, mask: nat) returns (r: Option<Image>)
    ensures r == WriteFrom(si, mask, 0)
  {
    hide SetPixel, Bit;
    var image := si;
    for i := 0 to 6
      invariant WriteFrom(image, mask, i) == WriteFrom(si, mask, 0)
    {
      if Bit(mask, i) {
        var next := SetPixel(image, image.dx, image.dy + i, image.dc);
        if next.None? {
          return None;
        }
        image := next.value;
      }
    }
    return Some(image);
  }

  /** `sixel_parse_repeat`: digits are copied up to a limit, and the sixel is written as often. */
  method ParseRepeatLoop(si: Image, s: seq<Byte>, i: nat) returns (r: Parsed)
    requires i <= |s|
    ensures r == ParseRepeat(si, s, i)
  {
    hide Repeat, Number;
    var last := i;
    while last < |s| && IsDigit(s[last])
      invariant i <= last <= |s| && last - i < REPEAT_DIGITS
      invariant SkipDigits(s, last) == SkipDigits(s, i)
    {
      last := last + 1;
      if last - i == REPEAT_DIGITS {
        return None;
      }
    }
    if last == i || last == |s| {
      return None;
    }
    var n := Number(s[i..last]);
    if n < 1 || n > WIDTH_LIMIT {
      return None;
    }
    var ch: nat := s[last];
    var image := WriteRepeated(si, (ch + 1) % 64, n);
    if image.None? {
      return None;
    }
    return Some((image.value, last + 1));
  }

  /** The sixel is written `n` times. */
  method WriteRepeated(si: Image, mask: nat, n: nat) returns (r: Option<Image>)
    ensures r == Repeat(si, mask, n)
  {
    hide WriteSixel, WriteFrom;
    var image, k := si, 0;
    while k < n
      invariant 0 <= k <= n && Repeat(image, mask, n - k) == Repeat(si, mask, n)
      decreases n - k
    {
      var next := WriteRows(image, mask);
      WriteSixelIs(image, mask);
      if next.None? {
        return None;
      }
      image := next.value.(dx := next.value.dx + 1);
      k := k + 1;
    }
    return Some(image);
  }

  lemma WriteSixelIs(si: Image, mask: nat)
    ensures WriteSixel(si, mask)
         == if WriteFrom(si, mask, 0).None? then None
            else Some(WriteFrom(si, mask, 0).value.(dx := WriteFrom(si, mask, 0).value.dx + 1))
  {
  }

  /** `sixel_parse`. */
  method ParseText(s: seq<Byte>, p2: nat, xpixel: nat, ypixel: nat) returns (r: Option<Image>)
    ensures r == Parse(s, p2, xpixel, ypixel)
  {
    hide ParseAttributes, ParseColour, ParseRepeat, WriteFrom;
    if |s| <= 1 || s[0] != 0x71 {
      return None;
    }
    var si, i := NewImage(p2, xpixel, ypixel), 1;
    while i != |s|
      invariant i <= |s| && ParseFrom(si, s, i) == ParseFrom(NewImage(p2, xpixel, ypixel), s, 1)
      decreases |s| - i
    {
      var ch, step := s[i], None;
      match ch {
        case 0x22 => step := ParseAttributes(si, s, i + 1);
        case 0x23 => step := ParseColour(si, s, i + 1);
        case 0x21 => step := ParseRepeatLoop(si, s, i + 1);
        case 0x2d => step := Some((si.(dx := 0, dy := si.dy + 6), i + 1));
        case 0x24 => step := Some((si.(dx := 0), i + 1));
        case _ =>
          if ch < 0x20 || ch >= 0x80 {
            step := Some((si, i + 1));
          } else if 0x3f <= ch <= 0x7e {
            var image := WriteRows(si, ch - 0x3f);
            if image.Some? {
              step := Some((image.value.(dx := image.value.dx + 1), i + 1));
            }
          }
      }
      assert step == ParseOne(si, s, i);
      if step.None? {
        return None;
      }
      si, i := step.value.0, step.value.1;
    }
    return if si.x == 0 || si.lines == [] then None else Some(si);
  }

  // ---- What every parsed image keeps ----

  /** Colours and pixels stay within the registers in use, sizes within the limits, and every palette
    * word is one the parser makes. */
  ghost predicate Kept(si: Image) {
    && si.usedColours <= COLOUR_REGISTERS + 1 && |si.colours| <= si.usedColours && si.dc <= si.usedColours
    && (forall i :: 0 <= i < |si.colours| ==> Canonical(si.colours[i]))
    && si.x <= WIDTH_LIMIT && |si.lines| <= HEIGHT_LIMIT && si.raX <= WIDTH_LIMIT && si.raY <= HEIGHT_LIMIT
    && (forall x, y :: GetPixel(si, x, y) <= si.usedColours)
  }

  lemma SetPixelKept(si: Image, x: nat, y: nat, c: nat)
    requires Kept(si) && c <= si.usedColours && SetPixel(si, x, y, c).Some?
    ensures var r := SetPixel(si, x, y, c).value; Kept(r) && Same(si, r) && r.dx == si.dx && r.dy == si.dy
  {
    hide Canonical;
    var r := SetPixel(si, x, y, c).value;
    forall x', y' ensures GetPixel(r, x', y') <= si.usedColours {
      assert GetPixel(si, x', y') <= si.usedColours;
    }
  }

  /** What drawing does not change. */
  predicate Same(a: Image, b: Image) {
    SameFrame(a, b) && a.dc == b.dc
  }

  lemma {:induction false} WriteFromKept(si: Image, mask: nat, i: nat)
    requires i <= 6 && Kept(si) && WriteFrom(si, mask, i).Some?
    ensures Kept(WriteFrom(si, mask, i).value) && Same(si, WriteFrom(si, mask, i).value)
    decreases 6 - i
  {
    hide Kept, SetPixel, Bit;
    if i < 6 {
      if Bit(mask, i) {
        ColourInUse(si);
        SetPixelKept(si, si.dx, si.dy + i, si.dc);
        WriteFromKept(SetPixel(si, si.dx, si.dy + i, si.dc).value, mask, i + 1);
      } else {
        WriteFromKept(si, mask, i + 1);
      }
    }
  }

  lemma ColourInUse(si: Image)
    requires Kept(si)
    ensures si.dc <= si.usedColours
  {
  }

  lemma MoveKept(si: Image, dx: nat, dy: nat)
    requires Kept(si)
    ensures Kept(si.(dx := dx, dy := dy)) && Kept(si.(dx := dx))
  {
    hide Canonical;
    forall x, y ensures GetPixel(si.(dx := dx, dy := dy), x, y) == GetPixel(si, x, y) {}
    forall x, y ensures GetPixel(si.(dx := dx), x, y) == GetPixel(si, x, y) {}
  }

  lemma WriteSixelKept(si: Image, mask: nat)
    requires Kept(si) && WriteSixel(si, mask).Some?
    ensures Kept(WriteSixel(si, mask).value)
  {
    hide Kept, WriteFrom;
    WriteFromKept(si, mask, 0);
    MoveKept(WriteFrom(si, mask, 0).value, WriteFrom(si, mask, 0).value.dx + 1, 0);
  }

  lemma {:induction false} RepeatKept(si: Image, mask: nat, n: nat)
    requires Kept(si) && Repeat(si, mask, n).Some?
    ensures Kept(Repeat(si, mask, n).value)
    decreases n
  {
    hide Kept, WriteSixel;
    if n > 0 {
      WriteSixelKept(si, mask);
      RepeatKept(WriteSixel(si, mask).value, mask, n - 1);
    }
  }

  lemma AttributesKept(si: Image, s: seq<Byte>, i: nat)
    requires Kept(si) && i <= |s| && ParseAttributes(si, s, i).Some?
    ensures Kept(ParseAttributes(si, s, i).value.0)
  {
    hide Canonical, Strtoul, Params;
    var r := ParseAttributes(si, s, i).value.0;
    forall x, y ensures GetPixel(r, x, y) <= si.usedColours {
      assert GetPixel(si, x, y) <= si.usedColours;
    }
  }

  lemma SelectKept(si: Image, c: nat)
    requires Kept(si) && c <= COLOUR_REGISTERS
    ensures Kept(Select(si, c)) && c < Select(si, c).usedColours
  {
    hide Canonical;
    forall x, y ensures GetPixel(Select(si, c), x, y) <= Select(si, c).usedColours {
      assert GetPixel(si, x, y) <= si.usedColours;
    }
  }

  lemma DefineKept(si: Image, c: nat, word: nat)
    requires Kept(si) && c < si.usedColours && Canonical(word)
    ensures Kept(Define(si, c, word))
  {
    hide ValidColour, Word;
    forall x, y ensures GetPixel(Define(si, c, word), x, y) <= si.usedColours {
      assert GetPixel(si, x, y) <= si.usedColours;
    }
  }

  lemma WordIsCanonical(kind: nat, c1: nat, c2: nat, c3: nat)
    requires ValidColour(kind, c1, c2, c3)
    ensures Canonical(Word(kind, c1, c2, c3))
  {
    var w := Word(kind, c1, c2, c3);
    assert w % 0x100 == c3;
    assert w / 0x100 % 0x100 == c2;
    assert w / 0x1_0000 % 0x200 == c1;
    assert w / 0x200_0000 == kind;
  }

  lemma ColourKept(si: Image, s: seq<Byte>, i: nat)
    requires Kept(si) && i <= |s| && ParseColour(si, s, i).Some?
    ensures Kept(ParseColour(si, s, i).value.0)
  {
    hide Kept, Strtoul, Params, Select, Define, Canonical, Word, ValidColour;
    var (c, end) := Strtoul(s, i);
    SelectKept(si, c);
    if end != Params(s, i) && At(s, end) == SEMICOLON {
      var (kind, end1) := Strtoul(s, end + 1);
      var (c1, end2) := Strtoul(s, end1 + 1);
      var (c2, end3) := Strtoul(s, end2 + 1);
      var (c3, end4) := Strtoul(s, end3 + 1);
      WordIsCanonical(kind, c1, c2, c3);
      DefineKept(Select(si, c), c, Word(kind, c1, c2, c3));
    }
  }

  lemma {:induction false} ParseFromKept(si: Image, s: seq<Byte>, i: nat)
    requires Kept(si) && i <= |s| && ParseFrom(si, s, i).Some?
    ensures Kept(ParseFrom(si, s, i).value)
    decreases |s| - i
  {
    hide Kept, ParseAttributes, ParseColour, Repeat, WriteSixel;
    if i < |s| {
      var ch := s[i];
      if ch == 0x22 {
        AttributesKept(si, s, i + 1);
      } else if ch == 0x23 {
        ColourKept(si, s, i + 1);
      } else if ch == 0x21 {
        var last := SkipDigits(s, i + 1);
        var n: nat, c: nat := Number(s[i + 1..last]), s[last];
        RepeatKept(si, (c + 1) % 64, n);
      } else if 0x3f <= ch <= 0x7e {
        WriteSixelKept(si, ch - 0x3f);
      }
      MoveKept(si, 0, si.dy + 6);
      ParseFromKept(ParseOne(si, s, i).value.0, s, ParseOne(si, s, i).value.1);
    }
  }

  /** Every image the parser returns can be printed, so printing it and parsing again gives back its pixels
    * up to its width. */
  lemma ParsedIsKept(s: seq<Byte>, p2: nat, xpixel: nat, ypixel: nat)
    requires Parse(s, p2, xpixel, ypixel).Some?
    ensures var si := Parse(s, p2, xpixel, ypixel).value;
            Kept(si) && Printable(si, si.colours) && si.p2 == p2 && si.xpixel == xpixel && si.ypixel == ypixel
  {
    hide ParseFrom, Canonical;
    ParseFromKept(NewImage(p2, xpixel, ypixel), s, 1);
    FrameKept(NewImage(p2, xpixel, ypixel), s, 1);
  }

  lemma {:induction false} FrameKept(si: Image, s: seq<Byte>, i: nat)
    requires i <= |s| && ParseFrom(si, s, i).Some?
    ensures var r := ParseFrom(si, s, i).value; r.p2 == si.p2 && r.xpixel == si.xpixel && r.ypixel == si.ypixel
    decreases |s| - i
  {
    hide Strtoul, Params, Repeat, WriteSixel;
    if i < |s| {
      var ch := s[i];
      if ch == 0x21 {
        var last := SkipDigits(s, i + 1);
        var n: nat, c: nat := Number(s[i + 1..last]), s[last];
        RepeatFrame(si, (c + 1) % 64, n);
      } else if 0x3f <= ch <= 0x7e {
        SixelFrame(si, ch - 0x3f);
      }
      FrameKept(ParseOne(si, s, i).value.0, s, ParseOne(si, s, i).value.1);
    }
  }

  lemma {:induction false} RowsFrame(si: Image, mask: nat, i: nat)
    requires i <= 6 && WriteFrom(si, mask, i).Some?
    ensures SameFrame(si, WriteFrom(si, mask, i).value)
    decreases 6 - i
  {
    hide Bit;
    if i < 6 {
      if Bit(mask, i) {
        RowsFrame(SetPixel(si, si.dx, si.dy + i, si.dc).value, mask, i + 1);
      } else {
        RowsFrame(si, mask, i + 1);
      }
    }
  }

  lemma SixelFrame(si: Image, mask: nat)
    requires WriteSixel(si, mask).Some?
    ensures SameFrame(si, WriteSixel(si, mask).value)
  {
    RowsFrame(si, mask, 0);
  }

  lemma {:induction false} RepeatFrame(si: Image, mask: nat, n: nat)
    requires Repeat(si, mask, n).Some?
    ensures SameFrame(si, Repeat(si, mask, n).value)
    decreases n
  {
    hide WriteSixel;
    if n > 0 {
      SixelFrame(si, mask);
      RepeatFrame(WriteSixel(si, mask).value, mask, n - 1);
    }
  }
}
