/** The printer of image-sixel.c: the run-length planes of every band, colour by colour. */
module SixelPrint {
  import opened Bytes
  import opened Sixel
  import opened SixelText

  // ---- Planes ----

  /** The pixels that are printed: those below the width of the image.  `sixel_get_pixel` does not look at
    * the width, and a line can be wider where a raster attribute has set a smaller one since. */
  function Pixel(si: Image, x: nat, y: nat): nat {
    if x < si.x then GetPixel(si, x, y) else 0
  }

  /** A pixel beyond the width of the image has a colour. */
  ghost predicate Overhangs(si: Image) {
    exists x: nat, y: nat :: x >= si.x && GetPixel(si, x, y) != 0
  }

  /** `sixel_get_pixel` gives the same everywhere. */
  ghost predicate SamePixels(a: Image, b: Image) {
    forall x: nat, y: nat :: GetPixel(a, x, y) == GetPixel(b, x, y)
  }

  /** An image that has the printed pixels has all of them exactly if none lies beyond the width. */
  lemma SameUnlessOverhanging(r: Image, si: Image)
    requires forall x: nat, y: nat :: GetPixel(r, x, y) == Pixel(si, x, y)
    ensures SamePixels(r, si) <==> !Overhangs(si)
  {
    hide GetPixel;
    if Overhangs(si) {
      var x: nat, y: nat :| x >= si.x && GetPixel(si, x, y) != 0;
      assert GetPixel(r, x, y) != GetPixel(si, x, y);
    }
  }

  /** The rows below `i` of the band at `y` that show colour register `c` at column `x`. */
  function PlaneRows(si: Image, y: nat, c: nat, x: nat, i: nat): nat
    requires i <= 6
  {
    if i == 0 then 0
    else PlaneRows(si, y, c, x, i - 1) + if Pixel(si, x, y + i - 1) == c + 1 then Power(i - 1) else 0
  }

  function Plane(si: Image, y: nat, c: nat, x: nat): nat {
    PlaneRows(si, y, c, x, 6)
  }

  /** The pixel in row `i` of the band shows colour register `c`. */
  predicate Shows(si: Image, y: nat, c: nat, x: nat, i: nat) {
    Pixel(si, x, y + i) == c + 1
  }

  lemma PlaneIsPixels(si: Image, y: nat, c: nat, x: nat)
    ensures Plane(si, y, c, x) < 64
    ensures forall i :: 0 <= i < 6 ==> (Bit(Plane(si, y, c, x), i) <==> Shows(si, y, c, x, i))
    ensures Plane(si, y, c, x) == 0 <==> forall i :: 0 <= i < 6 ==> !Shows(si, y, c, x, i)
  {
    hide Bit, Pixel;
    var b := (i: nat) => if Pixel(si, x, y + i) == c + 1 then 1 else 0;
    assert PlaneRows(si, y, c, x, 0) == 0;
    assert PlaneRows(si, y, c, x, 1) == b(0);
    assert PlaneRows(si, y, c, x, 2) == b(0) + 2 * b(1);
    assert PlaneRows(si, y, c, x, 3) == b(0) + 2 * b(1) + 4 * b(2);
    assert PlaneRows(si, y, c, x, 4) == b(0) + 2 * b(1) + 4 * b(2) + 8 * b(3);
    assert PlaneRows(si, y, c, x, 5) == b(0) + 2 * b(1) + 4 * b(2) + 8 * b(3) + 16 * b(4);
    SixBits(b(0), b(1), b(2), b(3), b(4), b(5));
    assert forall i: nat :: Shows(si, y, c, x, i) <==> b(i) == 1;
  }

  lemma BitIs(m: nat, i: nat, low: nat, b: nat, high: nat)
    requires i < 6 && m == low + Power(i) * (b + 2 * high) && low < Power(i) && b <= 1
    ensures Bit(m, i) <==> b == 1
  {
    var q := b + 2 * high;
    assert m / Power(i) == q by {
      match i
      case 0 => assert m / 1 == q;
      case 1 => assert m / 2 == q;
      case 2 => assert m / 4 == q;
      case 3 => assert m / 8 == q;
      case 4 => assert m / 16 == q;
      case 5 => assert m / 32 == q;
    }
    assert q % 2 == b;
  }

  lemma SixBits(b0: nat, b1: nat, b2: nat, b3: nat, b4: nat, b5: nat)
    requires b0 <= 1 && b1 <= 1 && b2 <= 1 && b3 <= 1 && b4 <= 1 && b5 <= 1
    ensures var m := b0 + 2 * b1 + 4 * b2 + 8 * b3 + 16 * b4 + 32 * b5;
            && m < 64 && (Bit(m, 0) <==> b0 == 1) && (Bit(m, 1) <==> b1 == 1) && (Bit(m, 2) <==> b2 == 1)
            && (Bit(m, 3) <==> b3 == 1) && (Bit(m, 4) <==> b4 == 1) && (Bit(m, 5) <==> b5 == 1)
  {
    hide Bit;
    var m := b0 + 2 * b1 + 4 * b2 + 8 * b3 + 16 * b4 + 32 * b5;
    BitIs(m, 0, 0, b0, b1 + 2 * b2 + 4 * b3 + 8 * b4 + 16 * b5);
    BitIs(m, 1, b0, b1, b2 + 2 * b3 + 4 * b4 + 8 * b5);
    BitIs(m, 2, b0 + 2 * b1, b2, b3 + 2 * b4 + 4 * b5);
    BitIs(m, 3, b0 + 2 * b1 + 4 * b2, b3, b4 + 2 * b5);
    BitIs(m, 4, b0 + 2 * b1 + 4 * b2 + 8 * b3, b4, b5);
    BitIs(m, 5, b0 + 2 * b1 + 4 * b2 + 8 * b3 + 16 * b4, b5, 0);
  }

  function Planes(si: Image, y: nat, c: nat, n: nat): (s: seq<nat>)
    ensures |s| == n && forall x :: 0 <= x < n ==> s[x] == Plane(si, y, c, x)
  {
    seq(n, x => if x >= 0 then Plane(si, y, c, x) else 0)
  }

  // ---- Runs ----

  predicate AllRuns(ops: seq<Op>) {
    forall op :: op in ops ==> op.Run? && OpOk(op)
  }

  function Columns(ops: seq<Op>): seq<nat>
    requires AllRuns(ops)
  {
    if ops == [] then []
    else
      assert ops[0] in ops;
      assert forall op :: op in ops[1..] ==> op in ops;
      Times(ops[0].mask, ops[0].count) + Columns(ops[1..])
  }

  lemma {:induction false} ColumnsMore(ops: seq<Op>, op: Op)
    requires AllRuns(ops) && op.Run? && OpOk(op)
    ensures AllRuns(ops + [op]) && Columns(ops + [op]) == Columns(ops) + Times(op.mask, op.count)
  {
    if ops == [] {
      assert ops + [op] == [op] && [op][1..] == [];
      assert Columns([op]) == Times(op.mask, op.count) + Columns([]);
    } else {
      assert ops[0] in ops && forall o :: o in ops[1..] ==> o in ops;
      assert (ops + [op])[1..] == ops[1..] + [op];
      ColumnsMore(ops[1..], op);
      assert forall o :: o in ops + [op] ==> o in ops || o == op;
      var first := Times(ops[0].mask, ops[0].count);
      assert first + (Columns(ops[1..]) + Times(op.mask, op.count)) == first + Columns(ops[1..]) + Times(op.mask, op.count);
    }
  }

  lemma {:induction false} WriteConcat(si: Image, a: seq<nat>, b: seq<nat>)
    ensures WriteColumns(si, a + b)
         == if WriteColumns(si, a).None? then None else WriteColumns(WriteColumns(si, a).value, b)
    decreases |a|
  {
    hide WriteSixel;
    if a == [] {
      assert a + b == b;
    } else {
      assert (a + b)[1..] == a[1..] + b;
      if WriteSixel(si, a[0]).Some? { WriteConcat(WriteSixel(si, a[0]).value, a[1..], b); }
    }
  }

  lemma {:induction false} RunsAreColumns(si: Image, ops: seq<Op>)
    requires AllRuns(ops)
    ensures ApplyAll(si, ops) == WriteColumns(si, Columns(ops))
    decreases |ops|
  {
    hide WriteColumns, Repeat;
    if ops == [] {
      NoColumns(si);
    } else {
      assert ops[0] in ops && forall o :: o in ops[1..] ==> o in ops;
      var op := ops[0];
      RepeatIsColumns(si, op.mask, op.count);
      WriteConcat(si, Times(op.mask, op.count), Columns(ops[1..]));
      if Repeat(si, op.mask, op.count).Some? {
        RunsAreColumns(Repeat(si, op.mask, op.count).value, ops[1..]);
      }
    }
  }

  lemma NoColumns(si: Image)
    ensures WriteColumns(si, []) == Some(si)
  {
  }

  // ---- Chunks ----

  datatype Chunk = Chunk(nextX: nat, nextY: nat, count: nat, pattern: nat, nextPattern: nat, data: seq<Byte>)

  /** The chunk of colour `c` after `x` columns of the band at `y`.  Its text stands for `ops`; with the
    * run under construction it draws the columns before `nextX`, and those after it are empty. */
  ghost predicate ChunkOk(si: Image, y: nat, c: nat, ch: Chunk, ops: seq<Op>, x: nat, active: bool) {
    && AllRuns(ops) && ch.data == Text(ops) && ch.pattern < 64 && ch.nextX <= x
    && Columns(ops) + Times(ch.pattern, ch.count) == Planes(si, y, c, ch.nextX)
    && (forall k: nat :: ch.nextX <= k < x ==> Plane(si, y, c, k) == 0)
    && (if active then ch.nextY == y + 1 && (exists k: nat :: k < x && Plane(si, y, c, k) != 0)
        else ch.nextY <= y && ch.nextX == 0 && ch.count == 0 && ops == [])
  }

  /** The body of the second loop of `sixel_print_compress_colors` for one chunk. */
  function Advance(ch: Chunk, x: nat, y: nat): Chunk
    requires ch.nextX <= x && ch.pattern < 64
  {
    var dx := x - ch.nextX;
    var ch := ch.(nextY := if ch.nextY < y + 1 then y + 1 else ch.nextY);
    if ch.pattern != ch.nextPattern || dx != 0 then
      ch.(data := ch.data + RepeatText(ch.count, ch.pattern + 0x3f) + RepeatText(dx, 0x3f),
          pattern := ch.nextPattern, count := 1, nextPattern := 0, nextX := x + 1)
    else ch.(count := ch.count + 1, nextPattern := 0, nextX := x + 1)
  }

  /** The runs that `Advance` finishes. */
  function Finished(ch: Chunk, ops: seq<Op>, x: nat): seq<Op>
    requires ch.nextX <= x
  {
    var dx := x - ch.nextX;
    if ch.pattern != ch.nextPattern || dx != 0 then ops + [Run(ch.count, ch.pattern)] + [Run(dx, 0)] else ops
  }

  lemma {:induction false} CountBound(ops: seq<Op>, pattern: nat, count: nat, planes: seq<nat>)
    requires AllRuns(ops) && Columns(ops) + Times(pattern, count) == planes
    ensures count <= |planes|
  {
  }

  lemma TextMore(ops: seq<Op>, op: Op)
    ensures Text(ops + [op]) == Text(ops) + Render(op)
  {
    hide Render;
    TextConcat(ops, [op]);
    assert Text([op]) == Render(op) + Text([]);
  }

  lemma FinishedText(ch: Chunk, ops: seq<Op>, x: nat, y: nat)
    requires ch.nextX <= x && ch.pattern < 64 && ch.data == Text(ops)
    ensures Advance(ch, x, y).data == Text(Finished(ch, ops, x))
  {
    hide RepeatText, Text, Render;
    TextMore(ops, Run(ch.count, ch.pattern));
    TextMore(ops + [Run(ch.count, ch.pattern)], Run(x - ch.nextX, 0));
    RunText(ch.count, ch.pattern);
    RunText(x - ch.nextX, 0);
  }

  lemma RunText(count: nat, mask: nat)
    requires mask < 64
    ensures Render(Run(count, mask)) == RepeatText(count, mask + 0x3f)
  {
    hide RepeatText;
  }

  lemma FinishedColumns(si: Image, y: nat, c: nat, ch: Chunk, ops: seq<Op>, x: nat)
    requires AllRuns(ops) && ch.nextX <= x < si.x <= WIDTH_LIMIT && ch.pattern < 64
    requires Columns(ops) + Times(ch.pattern, ch.count) == Planes(si, y, c, ch.nextX)
    requires forall k: nat :: ch.nextX <= k < x ==> Plane(si, y, c, k) == 0
    requires ch.nextPattern == Plane(si, y, c, x)
    ensures var next := Advance(ch, x, y);
            && AllRuns(Finished(ch, ops, x)) && next.pattern < 64
            && Columns(Finished(ch, ops, x)) + Times(next.pattern, next.count) == Planes(si, y, c, x + 1)
  {
    hide Plane, Columns, RepeatText;
    PlaneIsPixels(si, y, c, x);
    var dx := x - ch.nextX;
    var done := Columns(ops) + Times(ch.pattern, ch.count);
    CountBound(ops, ch.pattern, ch.count, Planes(si, y, c, ch.nextX));
    if ch.pattern != ch.nextPattern || dx != 0 {
      ColumnsMore(ops, Run(ch.count, ch.pattern));
      ColumnsMore(ops + [Run(ch.count, ch.pattern)], Run(dx, 0));
      assert done + Times(0, dx) + Times(ch.nextPattern, 1) == Planes(si, y, c, x + 1);
    } else {
      assert Columns(ops) + Times(ch.pattern, ch.count + 1) == done + Times(ch.pattern, 1) == Planes(si, y, c, x + 1);
    }
  }

  /** A chunk that has a pixel in column `x` is advanced to that column. */
  lemma AdvanceOk(si: Image, y: nat, c: nat, ch: Chunk, ops: seq<Op>, x: nat, active: bool)
    requires x < si.x <= WIDTH_LIMIT && ChunkOk(si, y, c, ch, ops, x, active)
    requires ch.nextPattern == Plane(si, y, c, x) != 0
    ensures ChunkOk(si, y, c, Advance(ch, x, y), Finished(ch, ops, x), x + 1, true)
    ensures Advance(ch, x, y).nextPattern == 0
  {
    hide Plane, Columns, RepeatText;
    FinishedColumns(si, y, c, ch, ops, x);
    FinishedText(ch, ops, x, y);
  }

  /** A chunk that has none stays as it is. */
  lemma StayOk(si: Image, y: nat, c: nat, ch: Chunk, ops: seq<Op>, x: nat, active: bool)
    requires ChunkOk(si, y, c, ch, ops, x, active) && Plane(si, y, c, x) == 0
    ensures ChunkOk(si, y, c, ch, ops, x + 1, active)
  {
    hide Plane, Columns;
  }

  // ---- One band ----

  /** Colour register `c` is among the first `n` colours of the column. */
  predicate Met(colors: seq<nat>, n: nat, c: nat)
    requires n <= |colors|
  {
    exists j :: 0 <= j < n && colors[j] == c + 1
  }

  lemma MetMore(colors: seq<nat>, n: nat, c: nat)
    requires n < |colors|
    ensures Met(colors, n + 1, c) <==> Met(colors, n, c) || colors[n] == c + 1
  {
    if Met(colors, n, c) {
      var j :| 0 <= j < n && colors[j] == c + 1;
      assert j < n + 1 && colors[j] == c + 1;
    }
  }

  predicate ColumnOf(si: Image, x: nat, y: nat, colors: seq<nat>) {
    |colors| == 6 && forall i :: 0 <= i < 6 ==> colors[i] == Pixel(si, x, y + i)
  }

  lemma MetIsPlane(si: Image, x: nat, y: nat, colors: seq<nat>, c: nat)
    requires ColumnOf(si, x, y, colors)
    ensures Met(colors, 6, c) <==> Plane(si, y, c, x) != 0
  {
    hide Plane;
    PlaneIsPixels(si, y, c, x);
    if Met(colors, 6, c) {
      var j :| 0 <= j < 6 && colors[j] == c + 1;
      assert Shows(si, y, c, x, j);
    }
    if Plane(si, y, c, x) != 0 {
      var j :| 0 <= j < 6 && Shows(si, y, c, x, j);
      assert colors[j] == c + 1;
    }
  }

  lemma {:induction false} RowsBelow(si: Image, y: nat, c: nat, x: nat, i: nat)
    requires i <= 6
    ensures PlaneRows(si, y, c, x, i) < if i == 6 then 64 else Power(i)
  {
    if i > 0 { RowsBelow(si, y, c, x, i - 1); }
  }

  lemma NotYetSet(si: Image, y: nat, c: nat, x: nat, i: nat)
    requires i < 6
    ensures !Bit(PlaneRows(si, y, c, x, i), i)
  {
    RowsBelow(si, y, c, x, i);
  }

  /** Bit `i` set, as by an inclusive or. */
  function WithBit(m: nat, i: nat): nat
    requires i < 6
  {
    if Bit(m, i) then m else m + Power(i)
  }

  /** No pixel has a colour beyond the registers in use. */
  ghost predicate InRange(si: Image, registers: nat) {
    forall x: nat, y: nat :: Pixel(si, x, y) <= registers
  }

  /** The first loop of `sixel_print_compress_colors`. */
  method GatherColumn(si: Image, chunks: array<Chunk>, x: nat, y: nat) returns (colors: seq<nat>)
    requires x < si.x && InRange(si, chunks.Length)
    requires forall c :: 0 <= c < chunks.Length ==> chunks[c].nextPattern == 0
    modifies chunks
    ensures ColumnOf(si, x, y, colors)
    ensures forall c :: 0 <= c < chunks.Length ==>
                chunks[c] == old(chunks[c]).(nextPattern := Plane(si, y, c, x))
  {
    hide Pixel, Bit;
    colors := [];
    for i := 0 to 6
      invariant |colors| == i && forall k :: 0 <= k < i ==> colors[k] == Pixel(si, x, y + k)
      invariant forall c :: 0 <= c < chunks.Length ==>
                  chunks[c] == old(chunks[c]).(nextPattern := PlaneRows(si, y, c, x, i))
    {
      var pixel := Pixel(si, x, y + i);
      colors := colors + [pixel];
      if pixel != 0 {
        var c := pixel - 1;
        NotYetSet(si, y, c, x, i);
        chunks[c] := chunks[c].(nextPattern := WithBit(chunks[c].nextPattern, i));
      }
    }
  }

  ghost predicate ChunksOk(si: Image, y: nat, chunks: seq<Chunk>, runs: seq<seq<Op>>, active: seq<nat>, x: nat) {
    && |runs| == |chunks| && (forall c :: c in active ==> c < |chunks|)
    && (forall i, j :: 0 <= i < j < |active| ==> active[i] != active[j])
    && forall c :: 0 <= c < |chunks| ==>
         ChunkOk(si, y, c, chunks[c], runs[c], x, c in active) && chunks[c].nextPattern == 0
  }

  /** In column `x`, after the first `i` of its colours. */
  ghost predicate Midway(si: Image, y: nat, c: nat, ch: Chunk, ops: seq<Op>, x: nat, active: bool, met: bool) {
    if met then ChunkOk(si, y, c, ch, ops, x + 1, active) && active && ch.nextPattern == 0 && ch.nextX == x + 1
    else ChunkOk(si, y, c, ch, ops, x, active) && ch.nextPattern == Plane(si, y, c, x)
  }

  /** The second loop. */
  method AdvanceColumn(si: Image, chunks: array<Chunk>, x: nat, y: nat, colors: seq<nat>, before: seq<nat>,
                       ghost runsBefore: seq<seq<Op>>)
    returns (active: seq<nat>, ghost runs: seq<seq<Op>>)
    requires x < si.x <= WIDTH_LIMIT && ColumnOf(si, x, y, colors)
    requires forall i :: 0 <= i < 6 ==> colors[i] <= chunks.Length
    requires |runsBefore| == chunks.Length && (forall c :: c in before ==> c < chunks.Length)
    requires forall i, j :: 0 <= i < j < |before| ==> before[i] != before[j]
    requires forall c :: 0 <= c < chunks.Length ==>
                 Midway(si, y, c, chunks[c], runsBefore[c], x, c in before, false)
    modifies chunks
    ensures ChunksOk(si, y, chunks[..], runs, active, x + 1)
  {
    hide ChunkOk, Plane;
    active, runs := before, runsBefore;
    for i := 0 to 6
      invariant |runs| == chunks.Length && forall c :: c in active ==> c < chunks.Length
      invariant forall i, j :: 0 <= i < j < |active| ==> active[i] != active[j]
      invariant forall c :: 0 <= c < chunks.Length ==>
                  Midway(si, y, c, chunks[c], runs[c], x, c in active, Met(colors, i, c))
    {
      forall c: nat { MetMore(colors, i, c); }
      if colors[i] != 0 {
        var c := colors[i] - 1;
        if chunks[c].nextX == x + 1 {
          AlreadyMet(si, y, c, chunks[c], runs[c], x, c in active, Met(colors, i, c));
        } else {
          assert Met(colors, 6, c);
          MetIsPlane(si, x, y, colors, c);
          NotMet(si, y, c, chunks[c], runs[c], x, c in active, Met(colors, i, c));
          AdvanceOk(si, y, c, chunks[c], runs[c], x, c in active);
          if chunks[c].nextY < y + 1 {
            active := active + [c];
          }
          runs := runs[c := Finished(chunks[c], runs[c], x)];
          chunks[c] := Advance(chunks[c], x, y);
        }
      }
    }
    forall c | 0 <= c < chunks.Length
      ensures ChunkOk(si, y, c, chunks[c], runs[c], x + 1, c in active) && chunks[c].nextPattern == 0
    {
      MetIsPlane(si, x, y, colors, c);
      if !Met(colors, 6, c) { StayOk(si, y, c, chunks[c], runs[c], x, c in active); }
    }
  }

  lemma AlreadyMet(si: Image, y: nat, c: nat, ch: Chunk, ops: seq<Op>, x: nat, active: bool, met: bool)
    requires Midway(si, y, c, ch, ops, x, active, met) && ch.nextX == x + 1
    ensures met
  {
  }

  lemma NotMet(si: Image, y: nat, c: nat, ch: Chunk, ops: seq<Op>, x: nat, active: bool, met: bool)
    requires Midway(si, y, c, ch, ops, x, active, met) && ch.nextX != x + 1
    ensures !met && ch.nextX <= x && ch.pattern < 64 && (active <==> ch.nextY >= y + 1)
  {
  }

  /** `sixel_print_compress_colors`. */
  method CompressColours(si: Image, chunks: array<Chunk>, y: nat, ghost none: seq<seq<Op>>)
    returns (active: seq<nat>, ghost runs: seq<seq<Op>>)
    requires si.x <= WIDTH_LIMIT && InRange(si, chunks.Length) && ChunksOk(si, y, chunks[..], none, [], 0)
    modifies chunks
    ensures ChunksOk(si, y, chunks[..], runs, active, si.x)
  {
    hide ChunkOk, Plane, Pixel;
    active, runs := [], none;
    for x := 0 to si.x
      invariant ChunksOk(si, y, chunks[..], runs, active, x)
    {
      ghost var before := chunks[..];
      var colors := GatherColumn(si, chunks, x, y);
      forall c | 0 <= c < chunks.Length ensures Midway(si, y, c, chunks[c], runs[c], x, c in active, false) {
        assert chunks[c] == before[c].(nextPattern := Plane(si, y, c, x));
        NextPatternFree(si, y, c, before[c], runs[c], x, c in active, Plane(si, y, c, x));
      }
      active, runs := AdvanceColumn(si, chunks, x, y, colors, active, runs);
    }
  }

  lemma NextPatternFree(si: Image, y: nat, c: nat, ch: Chunk, ops: seq<Op>, x: nat, active: bool, pattern: nat)
    requires ChunkOk(si, y, c, ch, ops, x, active)
    ensures ChunkOk(si, y, c, ch.(nextPattern := pattern), ops, x, active)
  {
  }
}
