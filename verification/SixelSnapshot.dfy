/** The bounded snapshot form of a sixel image: encoding, checking and decoding. */
module SixelSnapshot {
  import opened Bytes
  import opened Sixel
  import opened SixelPrint
  import opened SixelParser

  const INT_MAX: nat := 0x7fff_ffff
  const WINDOW_MAXIMUM: nat := 10000
  const MAX_PIXELS: nat := 8 * 1024 * 1024
  const REGISTERS: nat := COLOUR_REGISTERS + 1

  /** A msgpack object; `Other` stands for all other types. */
  datatype Object = Int(n: nat) | Array(items: seq<Object>) | Bin(bytes: seq<Byte>) | Other

  // ---- What is encoded ----

  function RowBytes(si: Image, y: nat, n: nat): (s: seq<Byte>)
    ensures |s| == 2 * n
  {
    if n == 0 then []
    else RowBytes(si, y, n - 1) + [GetPixel(si, n - 1, y) / 256 % 256, GetPixel(si, n - 1, y) % 256]
  }

  function Rows(si: Image, n: nat): (s: seq<Object>)
    ensures |s| == n && forall y :: 0 <= y < n ==> s[y] == Bin(RowBytes(si, y, si.x))
  {
    seq(n, y => if y >= 0 then Bin(RowBytes(si, y, si.x)) else Other)
  }

  function Ints(ns: seq<nat>): (s: seq<Object>)
    ensures |s| == |ns| && forall i :: 0 <= i < |ns| ==> s[i] == Int(ns[i])
  {
    seq(|ns|, i requires 0 <= i < |ns| => Int(ns[i]))
  }

  function Header(si: Image): (s: seq<nat>)
    ensures |s| == 10
  {
    [1, si.x, |si.lines|, si.xpixel, si.ypixel, si.p2, if si.setRa then 1 else 0, si.raX, si.raY, si.usedColours]
  }

  function Encoded(si: Image): Object {
    Array(Ints(Header(si)) + [Array(Ints(si.colours)), Array(Rows(si, |si.lines|))])
  }

  /** The images that `sixel_snapshot_encode` accepts. */
  predicate Encodable(si: Image) {
    && 0 < si.x <= WIDTH_LIMIT && 0 < |si.lines| <= HEIGHT_LIMIT && si.x * |si.lines| <= MAX_PIXELS
    && 0 < si.xpixel <= WINDOW_MAXIMUM && 0 < si.ypixel <= WINDOW_MAXIMUM
    && |si.colours| <= REGISTERS && si.usedColours <= REGISTERS
  }

  // ---- What is accepted ----

  predicate IsUint(o: Object, max: nat) {
    o.Int? && o.n <= max
  }

  predicate HeaderOk(n: seq<nat>)
    requires |n| == 10
  {
    && n[0] == 1 && 0 < n[1] <= WIDTH_LIMIT && 0 < n[2] <= HEIGHT_LIMIT && n[1] * n[2] <= MAX_PIXELS
    && 0 < n[3] <= WINDOW_MAXIMUM && 0 < n[4] <= WINDOW_MAXIMUM
    && n[6] <= 1 && n[7] <= WIDTH_LIMIT && n[8] <= HEIGHT_LIMIT && n[9] <= REGISTERS
  }

  function PixelAt(bytes: seq<Byte>, x: nat): nat
    requires 2 * x + 1 < |bytes|
  {
    var high: nat, low: nat := bytes[2 * x], bytes[2 * x + 1];
    high * 256 + low
  }

  predicate RowOk(o: Object, width: nat, registers: nat) {
    o.Bin? && |o.bytes| == 2 * width && forall x: nat :: x < width ==> PixelAt(o.bytes, x) <= registers
  }

  function Numbers(items: seq<Object>, n: nat): (s: seq<nat>)
    requires n <= |items| && forall i :: 0 <= i < n ==> items[i].Int?
    ensures |s| == n && forall i :: 0 <= i < n ==> s[i] == items[i].n
  {
    seq(n, i requires 0 <= i < n => items[i].n)
  }

  /** The objects that `sixel_snapshot_validate` accepts. */
  predicate Valid(o: Object) {
    && o.Array? && |o.items| == 12 && (forall i :: 0 <= i < 10 ==> IsUint(o.items[i], INT_MAX))
    && var n := Numbers(o.items, 10);
       && HeaderOk(n)
       && o.items[10].Array? && |o.items[10].items| <= n[9] && o.items[11].Array? && |o.items[11].items| == n[2]
       && (forall c :: c in o.items[10].items ==> IsUint(c, INT_MAX) && Canonical(c.n))
       && (forall row :: row in o.items[11].items ==> RowOk(row, n[1], n[9]))
  }

  // ---- What is decoded ----

  function RowPixels(bytes: seq<Byte>, width: nat): (s: seq<nat>)
    requires |bytes| == 2 * width
    ensures |s| == width && forall x :: 0 <= x < width ==> s[x] == PixelAt(bytes, x)
  {
    seq(width, x requires 0 <= x < width => PixelAt(bytes, x))
  }

  function Lines(rows: seq<Object>, width: nat): (s: seq<seq<nat>>)
    requires forall row :: row in rows ==> row.Bin? && |row.bytes| == 2 * width
    ensures |s| == |rows| && forall y :: 0 <= y < |rows| ==> s[y] == RowPixels(rows[y].bytes, width)
  {
    seq(|rows|, y requires 0 <= y < |rows| =>
      assert rows[y] in rows;
      RowPixels(rows[y].bytes, width))
  }

  function Decoded(o: Object): Image
    requires Valid(o)
  {
    var n, colours, rows := Numbers(o.items, 10), o.items[10].items, o.items[11].items;
    assert forall i :: 0 <= i < |colours| ==> colours[i] in colours;
    Image(n[1], Lines(rows, n[1]), n[3], n[4], n[6] != 0, n[7], n[8], Numbers(colours, |colours|), n[9], n[5], 0, 0, 0)
  }

  // ---- The loops ----

  /** `sixel_snapshot_validate`: the number of pixels, if the object is accepted. */
  method Validate(o: Object) returns (pixels: Option<nat>)
    ensures pixels.Some? <==> Valid(o)
    ensures pixels.Some? ==> pixels.value == Decoded(o).x * |Decoded(o).lines|
  {
    hide HeaderOk, Canonical, RowOk;
    if !o.Array? || |o.items| != 12 {
      return None;
    }
    var v := o.items;
    for i := 0 to 10
      invariant forall k :: 0 <= k < i ==> IsUint(v[k], INT_MAX)
    {
      if !IsUint(v[i], INT_MAX) {
        return None;
      }
    }
    var n := Numbers(v, 10);
    if !HeaderOk(n) || !v[10].Array? || |v[10].items| > n[9] || !v[11].Array? || |v[11].items| != n[2] {
      return None;
    }
    var colours := v[10].items;
    for i := 0 to |colours|
      invariant forall k :: 0 <= k < i ==> IsUint(colours[k], INT_MAX) && Canonical(colours[k].n)
    {
      if !IsUint(colours[i], INT_MAX) || !Canonical(colours[i].n) {
        assert colours[i] in colours;
        return None;
      }
    }
    var rows := v[11].items;
    for i := 0 to |rows|
      invariant forall k :: 0 <= k < i ==> RowOk(rows[k], n[1], n[9])
    {
      var ok := ValidateRow(rows[i], n[1], n[9]);
      if !ok {
        assert rows[i] in rows;
        return None;
      }
    }
    return Some(n[1] * n[2]);
  }

  method ValidateRow(row: Object, width: nat, registers: nat) returns (ok: bool)
    ensures ok <==> RowOk(row, width, registers)
  {
    if !row.Bin? || |row.bytes| != 2 * width {
      return false;
    }
    for x := 0 to width
      invariant forall k: nat :: k < x ==> PixelAt(row.bytes, k) <= registers
    {
      if PixelAt(row.bytes, x) > registers {
        return false;
      }
    }
    return true;
  }

  /** `sixel_snapshot_encode`. */
  method Encode(si: Image) returns (r: Option<Object>)
    ensures r == if Encodable(si) then Some(Encoded(si)) else None
  {
    if !Encodable(si) {
      return None;
    }
    var rows := [];
    for y := 0 to |si.lines|
      invariant |rows| == y && forall k :: 0 <= k < y ==> rows[k] == Bin(RowBytes(si, k, si.x))
    {
      var row: seq<Byte> := [];
      for x := 0 to si.x
        invariant row == RowBytes(si, y, x)
      {
        var c := GetPixel(si, x, y);
        row := row + [c / 256 % 256, c % 256];
      }
      rows := rows + [Bin(row)];
    }
    assert rows == Rows(si, |si.lines|);
    return Some(Array(Ints(Header(si)) + [Array(Ints(si.colours)), Array(rows)]));
  }

  /** `sixel_snapshot_decode`. */
  method Decode(o: Object) returns (r: Option<Image>)
    ensures r == if Valid(o) then Some(Decoded(o)) else None
  {
    hide HeaderOk, Canonical, PixelAt;
    var pixels := Validate(o);
    if pixels.None? {
      return None;
    }
    DecodedFields(o);
    var n, rows := Numbers(o.items, 10), o.items[11].items;
    var lines: seq<seq<nat>> := [];
    for y := 0 to |rows|
      invariant |lines| == y && forall k :: 0 <= k < y ==> lines[k] == Lines(rows, n[1])[k]
    {
      assert rows[y] in rows;
      var line: seq<nat> := [];
      for x := 0 to n[1]
        invariant |line| == x && forall k :: 0 <= k < x ==> line[k] == PixelAt(rows[y].bytes, k)
      {
        line := line + [PixelAt(rows[y].bytes, x)];
      }
      lines := lines + [line];
    }
    assert lines == Lines(rows, n[1]);
    return Some(Image(n[1], lines, n[3], n[4], n[6] != 0, n[7], n[8],
                      Numbers(o.items[10].items, |o.items[10].items|), n[9], n[5], 0, 0, 0));
  }

  // ---- The round trips ----

  lemma {:induction false} RowBytesAt(si: Image, y: nat, n: nat, x: nat)
    requires x < n
    ensures RowBytes(si, y, n)[2 * x] == GetPixel(si, x, y) / 256 % 256
    ensures RowBytes(si, y, n)[2 * x + 1] == GetPixel(si, x, y) % 256
  {
    if x < n - 1 { RowBytesAt(si, y, n - 1, x); }
  }

  lemma EncodedRow(si: Image, y: nat, x: nat)
    requires x < si.x && GetPixel(si, x, y) < 0x1_0000
    ensures PixelAt(RowBytes(si, y, si.x), x) == GetPixel(si, x, y)
  {
    hide RowBytes;
    RowBytesAt(si, y, si.x, x);
  }

  lemma CanonicalFits(word: nat)
    requires Canonical(word)
    ensures word <= INT_MAX
  {
  }

  lemma EncodedHeader(si: Image)
    ensures Numbers(Encoded(si).items, 10) == Header(si) && |Encoded(si).items| == 12
  {
    assert forall i :: 0 <= i < 10 ==> Encoded(si).items[i] == Ints(Header(si))[i];
  }

  /** An image as the parser makes them is encoded to an object that is accepted, if and only if its
    * second parameter fits an `int`. */
  lemma EncodedIsValid(si: Image)
    requires Kept(si) && Encodable(si)
    ensures Valid(Encoded(si)) <==> si.p2 <= INT_MAX
  {
    hide Canonical, RowBytes, GetPixel;
    var o := Encoded(si);
    var h := Header(si);
    EncodedHeader(si);
    assert forall i :: 0 <= i < 10 ==> o.items[i] == Ints(h)[i] == Int(h[i]);
    assert o.items[5] == Int(si.p2);
    forall c | c in o.items[10].items ensures IsUint(c, INT_MAX) && Canonical(c.n) {
      var i :| 0 <= i < |si.colours| && c == Int(si.colours[i]);
      CanonicalFits(si.colours[i]);
    }
    forall row | row in o.items[11].items ensures RowOk(row, h[1], h[9]) {
      var y :| 0 <= y < |si.lines| && row == Bin(RowBytes(si, y, si.x));
      forall x: nat | x < si.x ensures PixelAt(row.bytes, x) <= si.usedColours {
        assert GetPixel(si, x, y) <= si.usedColours;
        EncodedRow(si, y, x);
      }
    }
  }

  /** Decoding what was encoded gives the same size and palette, and the same pixels exactly if none beyond
    * the width has a colour. */
  lemma DecodeEncode(si: Image)
    requires Kept(si) && Encodable(si) && si.p2 <= INT_MAX
    ensures Valid(Encoded(si))
    ensures var r := Decoded(Encoded(si));
            && r.x == si.x && |r.lines| == |si.lines| && r.colours == si.colours && r.usedColours == si.usedColours
            && r.xpixel == si.xpixel && r.ypixel == si.ypixel && r.p2 == si.p2
            && r.setRa == si.setRa && r.raX == si.raX && r.raY == si.raY
            && (forall x: nat, y: nat :: GetPixel(r, x, y) == Pixel(si, x, y))
            && (SamePixels(r, si) <==> !Overhangs(si))
  {
    hide Canonical, RowBytes, Valid;
    EncodedIsValid(si);
    EncodedHeader(si);
    var o := Encoded(si);
    DecodedFields(o);
    var r := Decoded(o);
    assert r.colours == si.colours;
    forall x: nat, y: nat ensures GetPixel(r, x, y) == Pixel(si, x, y) {
      if x < si.x && y < |si.lines| {
        assert GetPixel(si, x, y) <= si.usedColours;
        EncodedRow(si, y, x);
      }
    }
    SameUnlessOverhanging(r, si);
  }

  lemma DecodedFields(o: Object)
    requires Valid(o)
    ensures |o.items| == 12 && o.items[10].Array? && o.items[11].Array?
    ensures forall i :: 0 <= i < 10 ==> o.items[i].Int?
    ensures forall i :: 0 <= i < |o.items[10].items| ==> o.items[10].items[i].Int?
    ensures var n := Numbers(o.items, 10);
            && |o.items[11].items| == n[2]
            && (forall row :: row in o.items[11].items ==> row.Bin? && |row.bytes| == 2 * n[1])
            && Decoded(o) == Image(n[1], Lines(o.items[11].items, n[1]), n[3], n[4], n[6] != 0, n[7], n[8],
                                   Numbers(o.items[10].items, |o.items[10].items|), n[9], n[5], 0, 0, 0)
  {
    hide Canonical;
    assert forall i :: 0 <= i < |o.items[10].items| ==> o.items[10].items[i] in o.items[10].items;
  }

  /** The bytes of a row are its pixels, high byte first. */
  lemma {:induction false} RowAgain(si: Image, y: nat, bytes: seq<Byte>, n: nat)
    requires 2 * n <= |bytes| && forall x: nat :: x < n ==> GetPixel(si, x, y) == PixelAt(bytes, x)
    ensures RowBytes(si, y, n) == bytes[..2 * n]
  {
    hide GetPixel;
    if n > 0 {
      RowAgain(si, y, bytes, n - 1);
      var high: nat, low: nat := bytes[2 * (n - 1)], bytes[2 * (n - 1) + 1];
      assert GetPixel(si, n - 1, y) == high * 256 + low;
      assert GetPixel(si, n - 1, y) / 256 % 256 == high && GetPixel(si, n - 1, y) % 256 == low;
      assert bytes[..2 * n] == bytes[..2 * (n - 1)] + [bytes[2 * (n - 1)], bytes[2 * (n - 1) + 1]];
    }
  }

  /** Encoding what was decoded gives the same object, so no two accepted objects are the same image. */
  lemma EncodeDecode(o: Object)
    requires Valid(o)
    ensures Encodable(Decoded(o)) && Encoded(Decoded(o)) == o
  {
    hide Canonical, RowBytes, PixelAt;
    DecodedFields(o);
    var si, n := Decoded(o), Numbers(o.items, 10);
    var rows := o.items[11].items;
    forall y | 0 <= y < |rows| ensures Rows(si, |si.lines|)[y] == rows[y] {
      assert rows[y] in rows;
      var bytes := rows[y].bytes;
      forall x: nat | x < si.x ensures GetPixel(si, x, y) == PixelAt(bytes, x) {
        assert si.lines[y] == RowPixels(bytes, si.x);
      }
      RowAgain(si, y, bytes, si.x);
      assert bytes[..2 * si.x] == bytes;
    }
    assert Rows(si, |si.lines|) == rows;
    assert Ints(si.colours) == o.items[10].items;
    assert forall i :: 0 <= i < 10 ==> IsUint(o.items[i], INT_MAX);
    assert Header(si) == n;
    assert Ints(Header(si)) == o.items[..10];
    assert o.items == o.items[..10] + [o.items[10], o.items[11]];
  }
}
