/** Sixel images and the parser of image-sixel.c, as functions on values.
 *
 * A line holds the pixels up to some width, and an image the lines up to some height; what lies beyond
 * is 0, which is no colour.  Pixel n stands for colour register n - 1.  A `char` is signed, so bytes
 * from 0x80 are below 0x20.
 */
module Sixel {
  import opened Bytes

  const WIDTH_LIMIT: nat := 10000
  const HEIGHT_LIMIT: nat := 10000
  const COLOUR_REGISTERS: nat := 1024

  datatype Image = Image(
    x: nat, lines: seq<seq<nat>>, xpixel: nat, ypixel: nat,
    setRa: bool, raX: nat, raY: nat,
    colours: seq<nat>, usedColours: nat, p2: nat,
    dx: nat, dy: nat, dc: nat)

  // ---- Pixels ----

  function GetPixel(si: Image, x: nat, y: nat): nat {
    if y < |si.lines| && x < |si.lines[y]| then si.lines[y][x] else 0
  }

  function Zeros(n: nat): (s: seq<nat>)
    ensures |s| == n && forall i :: 0 <= i < n ==> s[i] == 0
  {
    seq(n, i => 0)
  }

  function NoLines(n: nat): (s: seq<seq<nat>>)
    ensures |s| == n && forall i :: 0 <= i < n ==> s[i] == []
  {
    seq(n, i => [])
  }

  /** `sixel_parse_expand_lines`. */
  function ExpandLines(si: Image, y: nat): Option<Image> {
    if y <= |si.lines| then Some(si)
    else if y > HEIGHT_LIMIT then None
    else Some(si.(lines := si.lines + NoLines(y - |si.lines|)))
  }

  /** `sixel_parse_expand_line`: a line that grows gets the width of the image. */
  function ExpandLine(si: Image, y: nat, x: nat): (r: Option<Image>)
    requires y < |si.lines|
    ensures r.Some? ==> |r.value.lines| == |si.lines|
  {
    var line := si.lines[y];
    if x <= |line| then Some(si)
    else if x > WIDTH_LIMIT then None
    else
      var width := if x > si.x then x else si.x;
      Some(si.(x := width, lines := si.lines[y := line + Zeros(width - |line|)]))
  }

  /** `sixel_set_pixel`. */
  function SetPixel(si: Image, x: nat, y: nat, c: nat): Option<Image> {
    var tall := ExpandLines(si, y + 1);
    if tall.None? then None
    else
      var wide := ExpandLine(tall.value, y, x + 1);
      if wide.None? then None
      else
        var line: seq<nat> := wide.value.lines[y];
        Some(wide.value.(lines := wide.value.lines[y := line[x := c]]))
  }

  /** Everything but the size, the lines and where the parser is. */
  predicate SameFrame(a: Image, b: Image) {
    && a.xpixel == b.xpixel && a.ypixel == b.ypixel && a.setRa == b.setRa && a.raX == b.raX && a.raY == b.raY
    && a.colours == b.colours && a.usedColours == b.usedColours && a.p2 == b.p2
  }

  /** No line is wider than the image. */
  predicate Fits(si: Image) {
    forall i :: 0 <= i < |si.lines| ==> |si.lines[i]| <= si.x
  }

  lemma SetPixelOk(si: Image, x: nat, y: nat, c: nat)
    requires x < WIDTH_LIMIT && y < HEIGHT_LIMIT
    ensures SetPixel(si, x, y, c).Some?
    ensures var r := SetPixel(si, x, y, c).value;
            && SameFrame(si, r) && r.dx == si.dx && r.dy == si.dy && r.dc == si.dc
            && GetPixel(r, x, y) == c && |r.lines| > 0 && (Fits(si) ==> Fits(r) && r.x > 0)
            && forall x', y' :: !(x' == x && y' == y) ==> GetPixel(r, x', y') == GetPixel(si, x', y')
  {
  }

  // ---- Sixels: six pixels, one above the other, as a number below 64 ----

  function Power(i: nat): nat
    requires i < 6
  {
    match i case 0 => 1 case 1 => 2 case 2 => 4 case 3 => 8 case 4 => 16 case 5 => 32
  }

  predicate Bit(mask: nat, i: nat)
    requires i < 6
  {
    mask / Power(i) % 2 == 1
  }

  /** `sixel_parse_write` from row `i` on. */
  function WriteFrom(si: Image, mask: nat, i: nat): Option<Image>
    requires i <= 6
    decreases 6 - i
  {
    if i == 6 then Some(si)
    else if !Bit(mask, i) then WriteFrom(si, mask, i + 1)
    else
      var r := SetPixel(si, si.dx, si.dy + i, si.dc);
      if r.None? then None else WriteFrom(r.value, mask, i + 1)
  }

  /** A sixel at the parser's place, which then moves right. */
  function WriteSixel(si: Image, mask: nat): Option<Image> {
    var r := WriteFrom(si, mask, 0);
    if r.None? then None else Some(r.value.(dx := r.value.dx + 1))
  }

  function Repeat(si: Image, mask: nat, n: nat): Option<Image>
    decreases n
  {
    if n == 0 then Some(si)
    else
      var r := WriteSixel(si, mask);
      if r.None? then None else Repeat(r.value, mask, n - 1)
  }

  // ---- The parser ----

  /** The bytes of parameters: digits and semicolons. */
  function Params(s: seq<Byte>, i: nat): (j: nat)
    requires i <= |s|
    ensures i <= j <= |s|
    decreases |s| - i
  {
    if i < |s| && (s[i] == 0x3b || IsDigit(s[i])) then Params(s, i + 1) else i
  }

  const SEMICOLON: Byte := 0x3b

  /** The state of the parser: the image and what has been read. */
  type Parsed = Option<(Image, nat)>

  /** `sixel_parse_attributes`. */
  function ParseAttributes(si: Image, s: seq<Byte>, i: nat): (r: Parsed)
    requires i <= |s|
    ensures r.Some? ==> i <= r.value.1 <= |s|
  {
    var last := Params(s, i);
    var end := Strtoul(s, i).1;
    if end == last || At(s, end) != SEMICOLON then Some((si, last))
    else
      var end := Strtoul(s, end + 1).1;
      if end == last then Some((si, last))
      else if At(s, end) != SEMICOLON then None
      else
        var (x, end) := Strtoul(s, end + 1);
        if end == last || At(s, end) != SEMICOLON || x > WIDTH_LIMIT then None
        else
          var (y, end) := Strtoul(s, end + 1);
          if end != last || y > HEIGHT_LIMIT then None
          else
            var tall := ExpandLines(si.(x := x), y);
            if tall.None? then None
            else Some((tall.value.(setRa := true, raX := x, raY := y), last))
  }

  /** A palette word: the type, and the three components. */
  function Word(kind: nat, c1: nat, c2: nat, c3: nat): nat {
    kind * 0x200_0000 + c1 * 0x1_0000 + c2 * 0x100 + c3
  }

  predicate ValidColour(kind: nat, c1: nat, c2: nat, c3: nat) {
    (kind == 1 || kind == 2) && c1 <= (if kind == 1 then 360 else 100) && c2 <= 100 && c3 <= 100
  }

  /** A palette entry as the parser makes them; 0 is an entry that was not defined. */
  predicate Canonical(word: nat) {
    word == 0 ||
    (ValidColour(word / 0x200_0000, word / 0x1_0000 % 0x200, word / 0x100 % 0x100, word % 0x100)
     && word == Word(word / 0x200_0000, word / 0x1_0000 % 0x200, word / 0x100 % 0x100, word % 0x100))
  }

  function Select(si: Image, c: nat): Image {
    si.(usedColours := if si.usedColours <= c then c + 1 else si.usedColours, dc := c + 1)
  }

  function Define(si: Image, c: nat, word: nat): (r: Image)
    ensures c < |r.colours|
  {
    var colours := if c + 1 > |si.colours| then si.colours + Zeros(c + 1 - |si.colours|) else si.colours;
    si.(colours := colours[c := word])
  }

  /** `sixel_parse_colour`. */
  function ParseColour(si: Image, s: seq<Byte>, i: nat): (r: Parsed)
    requires i <= |s|
    ensures r.Some? ==> i <= r.value.1 <= |s|
  {
    var last := Params(s, i);
    var (c, end) := Strtoul(s, i);
    if c > COLOUR_REGISTERS then None
    else if end == last || At(s, end) != SEMICOLON then Some((Select(si, c), last))
    else
      var (kind, end) := Strtoul(s, end + 1);
      if end == last || At(s, end) != SEMICOLON then None
      else
        var (c1, end) := Strtoul(s, end + 1);
        if end == last || At(s, end) != SEMICOLON then None
        else
          var (c2, end) := Strtoul(s, end + 1);
          if end == last || At(s, end) != SEMICOLON then None
          else
            var (c3, end) := Strtoul(s, end + 1);
            if end != last || !ValidColour(kind, c1, c2, c3) then None
            else Some((Define(Select(si, c), c, Word(kind, c1, c2, c3)), last))
  }

  const REPEAT_DIGITS: nat := 31

  /** `sixel_parse_repeat`: at most 30 digits, then any byte. */
  function ParseRepeat(si: Image, s: seq<Byte>, i: nat): (r: Parsed)
    requires i <= |s|
    ensures r.Some? ==> i <= r.value.1 <= |s|
  {
    var last := SkipDigits(s, i);
    if last == i || last - i >= REPEAT_DIGITS || last == |s| then None
    else
      var n := Number(s[i..last]);
      if n < 1 || n > WIDTH_LIMIT then None
      else
        var ch: nat := s[last];
        var r := Repeat(si, (ch + 1) % 64, n);
        if r.None? then None else Some((r.value, last + 1))
  }

  /** One turn of the loop of `sixel_parse`. */
  function ParseOne(si: Image, s: seq<Byte>, i: nat): (r: Parsed)
    requires i < |s|
    ensures r.Some? ==> i < r.value.1 <= |s|
  {
    var ch := s[i];
    if ch == 0x22 then ParseAttributes(si, s, i + 1)
    else if ch == 0x23 then ParseColour(si, s, i + 1)
    else if ch == 0x21 then ParseRepeat(si, s, i + 1)
    else if ch == 0x2d then Some((si.(dx := 0, dy := si.dy + 6), i + 1))
    else if ch == 0x24 then Some((si.(dx := 0), i + 1))
    else if ch < 0x20 || ch >= 0x80 then Some((si, i + 1))
    else if ch < 0x3f || ch > 0x7e then None
    else
      var r := WriteSixel(si, ch - 0x3f);
      if r.None? then None else Some((r.value, i + 1))
  }

  function ParseFrom(si: Image, s: seq<Byte>, i: nat): Option<Image>
    requires i <= |s|
    decreases |s| - i
  {
    if i == |s| then Some(si)
    else
      var r := ParseOne(si, s, i);
      if r.None? then None else ParseFrom(r.value.0, s, r.value.1)
  }

  function NewImage(p2: nat, xpixel: nat, ypixel: nat): Image {
    Image(0, [], xpixel, ypixel, false, 0, 0, [], 0, p2, 0, 0, 0)
  }

  /** `sixel_parse`. */
  function Parse(s: seq<Byte>, p2: nat, xpixel: nat, ypixel: nat): Option<Image> {
    if |s| <= 1 || s[0] != 0x71 then None
    else
      var r := ParseFrom(NewImage(p2, xpixel, ypixel), s, 1);
      if r.None? || r.value.x == 0 || r.value.lines == [] then None else r
  }
}
