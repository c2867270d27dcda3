/** What `sixel_print` prints, and that parsing it gives the image back. */
module SixelRoundTrip {
  import opened Bytes
  import opened Sixel
  import opened SixelText
  import opened SixelPrint

  // ---- The canvas: the image the parser makes of what is printed so far ----

  /** Rows above `y` are drawn, and of the band at `y` the colours in `done`; nothing else is. */
  ghost predicate Painted(si: Image, canvas: Image, y: nat, done: seq<nat>) {
    forall x: nat, row: nat :: GetPixel(canvas, x, row)
      == if row < y || (row < y + 6 && Pixel(si, x, row) != 0 && Pixel(si, x, row) - 1 in done) then Pixel(si, x, row)
         else 0
  }

  /** The operations of one active colour. */
  function ColourOps(c: nat, ops: seq<Op>, count: nat, pattern: nat): seq<Op> {
    [Colour(c)] + ops + [Run(count, pattern)] + [Return]
  }

  ghost predicate CanvasOk(si: Image, canvas: Image, y: nat, done: seq<nat>) {
    Painted(si, canvas, y, done) && Fits(canvas) && canvas.dx == 0 && canvas.dy == y
  }

  /** Everything but the pixels, and which colour is current. */
  predicate SamePalette(a: Image, b: Image) {
    a.setRa == b.setRa && a.raX == b.raX && a.raY == b.raY && a.colours == b.colours
  }

  lemma ColourOpsApply(canvas: Image, c: nat, ops: seq<Op>, count: nat, pattern: nat, columns: seq<nat>)
    requires AllRuns(ops) && OpOk(Run(count, pattern)) && columns == Columns(ops) + Times(pattern, count)
    ensures ApplyAll(canvas, ColourOps(c, ops, count, pattern))
         == var r := WriteColumns(Select(canvas, c), columns);
            if r.None? then None else Some(r.value.(dx := 0))
  {
    hide WriteColumns, Select, Columns;
    var drawn := ops + [Run(count, pattern)];
    ColumnsMore(ops, Run(count, pattern));
    RunsAreColumns(Select(canvas, c), drawn);
    assert ColourOps(c, ops, count, pattern) == [Colour(c)] + (drawn + [Return]);
    ApplyConcat(canvas, [Colour(c)], drawn + [Return]);
    ApplyOne(canvas, Colour(c));
    ApplyConcat(Select(canvas, c), drawn, [Return]);
    if WriteColumns(Select(canvas, c), columns).Some? {
      ApplyOne(WriteColumns(Select(canvas, c), columns).value, Return);
    }
  }

  lemma ApplyOne(si: Image, op: Op)
    ensures ApplyAll(si, [op]) == Apply(si, op)
  {
    hide Apply;
    assert [op][1..] == [];
  }

  /** An active colour's text draws its pixels of the band. */
  lemma DrawColour(si: Image, canvas: Image, y: nat, c: nat, ch: Chunk, ops: seq<Op>, done: seq<nat>)
    requires CanvasOk(si, canvas, y, done) && ChunkOk(si, y, c, ch, ops, si.x, true)
    requires si.x <= WIDTH_LIMIT && |si.lines| <= HEIGHT_LIMIT
    ensures OpOk(Run(ch.count, ch.pattern))
    ensures var r := ApplyAll(canvas, ColourOps(c, ops, ch.count, ch.pattern));
            r.Some? && CanvasOk(si, r.value, y, done + [c]) && SamePalette(canvas, r.value)
  {
    hide Columns, Plane, GetPixel, Painted, WriteColumns, Fits, ApplyAll, ColourOps, Drawn;
    var columns := Planes(si, y, c, ch.nextX);
    CountBound(ops, ch.pattern, ch.count, columns);
    ColourOpsApply(canvas, c, ops, ch.count, ch.pattern, columns);
    var start := Select(canvas, c);
    SelectPixels(canvas, c);
    forall k, i | InkedAt(columns, k, i) ensures y + i < HEIGHT_LIMIT {
      PlaneIsPixels(si, y, c, k);
      ShownInside(si, y, c, k, i);
    }
    WriteColumnsOk(start, columns);
    var r := WriteColumns(start, columns).value;
    PaintColour(si, canvas, start, r, y, c, ch.nextX, done);
  }

  lemma ShownInside(si: Image, y: nat, c: nat, x: nat, i: nat)
    requires Shows(si, y, c, x, i)
    ensures y + i < |si.lines|
  {
  }

  lemma SelectPixels(canvas: Image, c: nat)
    ensures var r := Select(canvas, c);
            && (forall x, y :: GetPixel(r, x, y) == GetPixel(canvas, x, y)) && (Fits(canvas) ==> Fits(r))
            && SamePalette(canvas, r) && r.dc == c + 1 && r.dx == canvas.dx && r.dy == canvas.dy
  {
  }

  lemma PaintColour(si: Image, canvas: Image, start: Image, r: Image, y: nat, c: nat, n: nat, done: seq<nat>)
    requires Painted(si, canvas, y, done) && Drawn(start, r, Planes(si, y, c, n)) && n <= si.x
    requires forall k: nat :: n <= k < si.x ==> Plane(si, y, c, k) == 0
    requires start.dx == 0 && start.dy == y && start.dc == c + 1
    requires forall x, row :: GetPixel(start, x, row) == GetPixel(canvas, x, row)
    requires Fits(r)
    ensures Painted(si, r.(dx := 0), y, done + [c]) && Fits(r.(dx := 0))
  {
    hide Plane, Bit, Fits;
    PlaceFree(r);
    forall x: nat, row: nat
      ensures GetPixel(r.(dx := 0), x, row)
           == if row < y || (row < y + 6 && Pixel(si, x, row) != 0 && Pixel(si, x, row) - 1 in done + [c])
              then Pixel(si, x, row) else 0
    {
      PaintedAt(si, y, c, n, x, row);
      assert GetPixel(r, x, row) == if InkedAt(Planes(si, y, c, n), x - 0, row - y) then c + 1 else GetPixel(canvas, x, row);
    }
  }

  lemma PlaceFree(r: Image)
    requires Fits(r)
    ensures Fits(r.(dx := 0)) && forall x, y :: GetPixel(r.(dx := 0), x, y) == GetPixel(r, x, y)
  {
  }

  /** The bits of the planes before column `n` are the pixels of the colour. */
  lemma PaintedAt(si: Image, y: nat, c: nat, n: nat, x: nat, row: nat)
    requires n <= si.x && forall k: nat :: n <= k < si.x ==> Plane(si, y, c, k) == 0
    ensures InkedAt(Planes(si, y, c, n), x, row - y) <==> y <= row < y + 6 && Pixel(si, x, row) == c + 1
  {
    hide Plane, Bit;
    PlaneIsPixels(si, y, c, x);
    if y <= row < y + 6 {
      assert Shows(si, y, c, x, row - y) <==> Pixel(si, x, row) == c + 1;
    }
  }

  /** When all active colours are drawn, the band is. */
  lemma BandDone(si: Image, canvas: Image, y: nat, chunks: seq<Chunk>, runs: seq<seq<Op>>, active: seq<nat>)
    requires Painted(si, canvas, y, active) && ChunksOk(si, y, chunks, runs, active, si.x) && InRange(si, |chunks|)
    ensures Painted(si, canvas, y + 6, [])
  {
    hide Plane, GetPixel;
    forall x: nat, row: nat
      ensures GetPixel(canvas, x, row) == if row < y + 6 then Pixel(si, x, row) else 0
    {
      if y <= row < y + 6 && Pixel(si, x, row) != 0 {
        var c := Pixel(si, x, row) - 1;
        PlaneIsPixels(si, y, c, x);
        assert Shows(si, y, c, x, row - y);
        assert x < si.x;
        assert c in active;
      }
    }
  }

  // ---- The whole text ----

  function Entry(colours: seq<nat>, i: nat): nat {
    if i < |colours| then colours[i] else 0
  }

  /** What the printer needs of an image and a palette; every image the parser returns has it. */
  ghost predicate Printable(si: Image, colours: seq<nat>) {
    && si.x <= WIDTH_LIMIT && |si.lines| <= HEIGHT_LIMIT
    && si.usedColours <= COLOUR_REGISTERS + 1 && InRange(si, si.usedColours)
    && |colours| <= COLOUR_REGISTERS + 1 && (forall i :: 0 <= i < |colours| ==> Canonical(colours[i]))
    && (si.setRa ==> si.raX <= WIDTH_LIMIT && si.raY <= HEIGHT_LIMIT)
  }

  ghost predicate HasPixel(si: Image) {
    exists x: nat, y: nat :: Pixel(si, x, y) != 0
  }

  /** The image under construction stands for what was printed. */
  ghost predicate Stands(si: Image, canvas: Image, y: nat, done: seq<nat>, colours: seq<nat>) {
    && CanvasOk(si, canvas, y, done)
    && (forall i: nat :: Entry(canvas.colours, i) == Entry(colours, i))
    && canvas.setRa == si.setRa && (si.setRa ==> canvas.raX == si.raX && canvas.raY == si.raY)
    && (HasPixel(si) || (canvas.x == (if si.setRa then si.raX else 0) && |canvas.lines| == if si.setRa then si.raY else 0))
  }

  /** The operations are well-formed, and `canvas` is what they make of a new image. */
  predicate Makes(start: Image, ops: seq<Op>, canvas: Image) {
    OpsOk(ops) && ApplyAll(start, ops) == Some(canvas)
  }

  lemma MakesMore(start: Image, ops: seq<Op>, canvas: Image, more: seq<Op>, next: Image)
    requires Makes(start, ops, canvas) && OpsOk(more) && ApplyAll(canvas, more) == Some(next)
    ensures Makes(start, ops + more, next) && Text(ops + more) == Text(ops) + Text(more)
  {
    hide ApplyAll, Text;
    ApplyConcat(start, ops, more);
    TextConcat(ops, more);
  }

  lemma MakesOne(start: Image, ops: seq<Op>, canvas: Image, op: Op, next: Image)
    requires Makes(start, ops, canvas) && OpOk(op) && Apply(canvas, op) == Some(next)
    ensures Makes(start, ops + [op], next) && Text(ops + [op]) == Text(ops) + Render(op)
  {
    hide ApplyAll, Apply, Render, Text;
    ApplyOne(canvas, op);
    ApplyConcat(start, ops, [op]);
    TextMore(ops, op);
  }

  /** The image a new text starts with. */
  predicate Fresh(start: Image) {
    start.x == 0 && start.lines == [] && !start.setRa && start.colours == [] && start.dx == 0 && start.dy == 0
  }

  /** The raster attributes. */
  lemma RasterStands(si: Image, start: Image)
    requires Fresh(start) && Printable(si, [])
    ensures si.setRa ==>
              Apply(start, Raster(si.raX, si.raY)).Some?
              && Stands(si, Apply(start, Raster(si.raX, si.raY)).value, 0, [], [])
    ensures !si.setRa ==> Stands(si, start, 0, [], [])
  {
    hide InRange;
  }

  /** A palette entry. */
  lemma EntryStands(si: Image, canvas: Image, colours: seq<nat>, i: nat)
    requires i < |colours| && colours[i] != 0 && Stands(si, canvas, 0, [], colours[..i])
    ensures Stands(si, Define(Select(canvas, i), i, colours[i]), 0, [], colours[..i + 1])
  {
    hide HasPixel, Pixel;
    var r := Define(Select(canvas, i), i, colours[i]);
    assert Painted(si, r, 0, []) by {
      forall x: nat, row: nat ensures GetPixel(r, x, row) == GetPixel(canvas, x, row) {}
    }
    forall k: nat ensures Entry(r.colours, k) == Entry(colours[..i + 1], k) {
      assert Entry(canvas.colours, k) == Entry(colours[..i], k);
    }
  }

  lemma NoEntryStands(si: Image, canvas: Image, colours: seq<nat>, i: nat)
    requires i < |colours| && colours[i] == 0 && Stands(si, canvas, 0, [], colours[..i])
    ensures Stands(si, canvas, 0, [], colours[..i + 1])
  {
    hide HasPixel, CanvasOk;
    forall k: nat ensures Entry(canvas.colours, k) == Entry(colours[..i + 1], k) {
      assert Entry(canvas.colours, k) == Entry(colours[..i], k);
    }
  }

  /** The palette, entry by entry. */
  method PrintPalette(text: seq<Byte>, si: Image, colours: seq<nat>, ghost start: Image, ghost before: seq<Op>,
                      ghost canvasBefore: Image)
    returns (out: seq<Byte>, ghost ops: seq<Op>, ghost canvas: Image)
    requires |colours| <= COLOUR_REGISTERS + 1 && forall i :: 0 <= i < |colours| ==> Canonical(colours[i])
    requires Makes(start, before, canvasBefore) && Stands(si, canvasBefore, 0, [], [])
    ensures Makes(start, ops, canvas) && Stands(si, canvas, 0, [], colours)
    ensures before <= ops && out == text + Text(ops[|before|..])
    ensures forall k :: |before| <= k < |ops| ==> ops[k].Palette?
  {
    hide Stands, Makes, Canonical, Define, Render;
    out, ops, canvas := text, before, canvasBefore;
    assert Text(ops[|before|..]) == [];
    assert colours[..0] == [];
    for i := 0 to |colours|
      invariant Makes(start, ops, canvas) && Stands(si, canvas, 0, [], colours[..i])
      invariant before <= ops && out == text + Text(ops[|before|..])
      invariant forall k :: |before| <= k < |ops| ==> ops[k].Palette?
    {
      if colours[i] != 0 {
        var op := Palette(i, colours[i]);
        out := out + Render(op);
        EntryStands(si, canvas, colours, i);
        MakesOne(start, ops, canvas, op, Define(Select(canvas, i), i, colours[i]));
        assert (ops + [op])[|before|..] == ops[|before|..] + [op];
        TextMore(ops[|before|..], op);
        ops, canvas := ops + [op], Define(Select(canvas, i), i, colours[i]);
      } else {
        NoEntryStands(si, canvas, colours, i);
      }
    }
    assert colours[..|colours|] == colours;
  }

  /** The text of one active colour. */
  function ColourText(c: nat, ch: Chunk): seq<Byte> {
    [0x23] + Decimal(c) + ch.data + RepeatText(ch.count, ch.pattern % 64 + 0x3f) + [0x24]
  }

  lemma ColourOpsText(c: nat, ch: Chunk, ops: seq<Op>)
    requires ch.data == Text(ops)
    ensures Text(ColourOps(c, ops, ch.count, ch.pattern)) == ColourText(c, ch)
  {
    hide RepeatText, Decimal;
    var run := Run(ch.count, ch.pattern);
    TextMore([], Colour(c));
    assert [] + [Colour(c)] == [Colour(c)];
    TextConcat([Colour(c)], ops);
    TextMore([Colour(c)] + ops, run);
    TextMore([Colour(c)] + ops + [run], Return);
    assert ColourOps(c, ops, ch.count, ch.pattern) == [Colour(c)] + ops + [run] + [Return];
  }

  lemma ColourStands(si: Image, canvas: Image, y: nat, c: nat, ch: Chunk, ops: seq<Op>, done: seq<nat>, colours: seq<nat>)
    requires Stands(si, canvas, y, done, colours) && ChunkOk(si, y, c, ch, ops, si.x, true) && Printable(si, colours)
    requires c <= COLOUR_REGISTERS
    ensures OpsOk(ColourOps(c, ops, ch.count, ch.pattern))
    ensures var r := ApplyAll(canvas, ColourOps(c, ops, ch.count, ch.pattern));
            r.Some? && Stands(si, r.value, y, done + [c], colours)
  {
    hide CanvasOk, Plane, Columns, ApplyAll, Pixel, Text;
    DrawColour(si, canvas, y, c, ch, ops, done);
    var k: nat :| k < si.x && Plane(si, y, c, k) != 0;
    PlaneIsPixels(si, y, c, k);
    var i :| 0 <= i < 6 && Shows(si, y, c, k, i);
    assert Pixel(si, k, y + i) == c + 1;
  }

  // ---- Bands ----

  /** A chunk between bands. */
  predicate Idle(ch: Chunk, y: nat) {
    ch.nextX == 0 && ch.count == 0 && ch.data == [] && ch.pattern < 64 && ch.nextPattern == 0 && ch.nextY <= y
  }

  function NoRuns(n: nat): (r: seq<seq<Op>>)
    ensures |r| == n && forall c :: 0 <= c < n ==> r[c] == []
  {
    seq(n, c => [])
  }

  lemma IdleChunks(si: Image, y: nat, chunks: seq<Chunk>)
    requires forall c :: 0 <= c < |chunks| ==> Idle(chunks[c], y)
    ensures ChunksOk(si, y, chunks, NoRuns(|chunks|), [], 0)
  {
    hide Plane;
    forall c | 0 <= c < |chunks| ensures ChunkOk(si, y, c, chunks[c], [], 0, false) {
      assert Idle(chunks[c], y);
    }
  }

  lemma IdleAfter(si: Image, y: nat, c: nat, ch: Chunk, ops: seq<Op>, x: nat, active: bool)
    requires ChunkOk(si, y, c, ch, ops, x, active) && ch.nextPattern == 0
    ensures Idle(ch.(nextX := 0, count := 0, data := []), y + 1) && (!active ==> Idle(ch, y + 1))
  {
    hide Plane, Columns;
  }

  /** All active colours of a band are printed. */
  method PrintActive(text: seq<Byte>, si: Image, colours: seq<nat>, chunks: array<Chunk>, y: nat, active: seq<nat>,
                     ghost runs: seq<seq<Op>>, ghost start: Image, ghost before: seq<Op>, ghost canvasBefore: Image)
    returns (out: seq<Byte>, ghost ops: seq<Op>, ghost canvas: Image)
    requires Printable(si, colours) && chunks.Length <= COLOUR_REGISTERS + 1
    requires ChunksOk(si, y, chunks[..], runs, active, si.x)
    requires Makes(start, before, canvasBefore) && Stands(si, canvasBefore, y, [], colours)
    requires |text| >= |Text(before)| && text[|text| - |Text(before)|..] == Text(before)
    modifies chunks
    ensures Makes(start, ops, canvas) && Stands(si, canvas, y, active, colours)
    ensures |out| - |Text(ops)| == |text| - |Text(before)|
    ensures out == text[..|text| - |Text(before)|] + Text(ops)
    ensures if active == [] then ops == before else ops != [] && ops[|ops| - 1] == Return
    ensures forall c :: 0 <= c < chunks.Length ==> Idle(chunks[c], y + 1)
  {
    hide Stands, Makes, ChunkOk, ColourText, ColourOps, ApplyAll, Printable, Text, Idle;
    out, ops, canvas := text, before, canvasBefore;
    ghost var head := text[..|text| - |Text(before)|];
    assert text == head + Text(before);
    ghost var was := chunks[..];
    for i := 0 to |active|
      invariant Makes(start, ops, canvas) && Stands(si, canvas, y, active[..i], colours)
      invariant out == head + Text(ops)
      invariant if i == 0 then ops == before else ops != [] && ops[|ops| - 1] == Return
      invariant forall c :: 0 <= c < chunks.Length && c !in active[..i] ==> chunks[c] == was[c]
      invariant forall c :: 0 <= c < chunks.Length && c in active[..i] ==> Idle(chunks[c], y + 1)
    {
      var c := active[i];
      assert c in active && c !in active[..i];
      var ch := chunks[c];
      ghost var more := ColourOps(c, runs[c], ch.count, ch.pattern);
      ColourStands(si, canvas, y, c, ch, runs[c], active[..i], colours);
      ChunkText(si, y, c, ch, runs[c]);
      MakesMore(start, ops, canvas, more, ApplyAll(canvas, more).value);
      assert head + Text(ops) + Text(more) == head + (Text(ops) + Text(more));
      EndsWithReturn(ops, c, runs[c], ch.count, ch.pattern);
      IdleAfter(si, y, c, ch, runs[c], si.x, true);
      out := out + ColourText(c, ch);
      ops, canvas := ops + more, ApplyAll(canvas, more).value;
      chunks[c] := ch.(nextX := 0, count := 0, data := []);
      assert active[..i + 1] == active[..i] + [c];
    }
    assert active[..|active|] == active;
    forall c | 0 <= c < chunks.Length ensures Idle(chunks[c], y + 1) {
      if c !in active { IdleAfter(si, y, c, chunks[c], runs[c], si.x, false); }
    }
  }

  lemma ChunkText(si: Image, y: nat, c: nat, ch: Chunk, ops: seq<Op>)
    requires ChunkOk(si, y, c, ch, ops, si.x, true)
    ensures Text(ColourOps(c, ops, ch.count, ch.pattern)) == ColourText(c, ch)
  {
    hide Plane, Columns;
    ColourOpsText(c, ch, ops);
  }

  lemma EndsWithReturn(before: seq<Op>, c: nat, ops: seq<Op>, count: nat, pattern: nat)
    ensures var r := before + ColourOps(c, ops, count, pattern); r != [] && r[|r| - 1] == Return
  {
  }

  /** Dropping the last operation, where it only moves the parser's place. */
  lemma DropLast(start: Image, ops: seq<Op>, canvas: Image)
    requires Makes(start, ops, canvas) && ops != [] && (ops[|ops| - 1].Return? || ops[|ops| - 1].NewLine?)
    ensures var front := ops[..|ops| - 1];
            && ApplyAll(start, front).Some? && Makes(start, front, ApplyAll(start, front).value)
            && Apply(ApplyAll(start, front).value, ops[|ops| - 1]) == Some(canvas)
            && Text(ops) == Text(front) + [if ops[|ops| - 1].Return? then 0x24 else 0x2d]
  {
    hide ApplyAll, Text;
    var front, last := ops[..|ops| - 1], ops[|ops| - 1];
    assert ops == front + [last];
    ApplyConcat(start, front, [last]);
    if ApplyAll(start, front).Some? { ApplyOne(ApplyAll(start, front).value, last); }
    TextMore(front, last);
  }

  /** The end of a band. */
  lemma NewBand(si: Image, canvas: Image, front: Image, y: nat, chunks: seq<Chunk>, runs: seq<seq<Op>>, active: seq<nat>,
                colours: seq<nat>)
    requires Stands(si, canvas, y, active, colours) && ChunksOk(si, y, chunks, runs, active, si.x)
    requires InRange(si, |chunks|) && (front == canvas || Apply(front, Return) == Some(canvas))
    ensures Apply(front, NewLine).Some? && Stands(si, Apply(front, NewLine).value, y + 6, [], colours)
  {
    hide HasPixel, Pixel, ChunksOk, GetPixel;
    BandDone(si, canvas, y, chunks, runs, active);
    var next := Apply(front, NewLine).value;
    assert next == canvas.(dx := 0, dy := canvas.dy + 6);
    PlaceFreeAll(canvas, next);
  }

  lemma PlaceFreeAll(a: Image, b: Image)
    requires b.lines == a.lines && b.x == a.x
    ensures (Fits(a) ==> Fits(b)) && forall x, y :: GetPixel(b, x, y) == GetPixel(a, x, y)
  {
  }

  // ---- The end of the text ----

  lemma {:induction false} FieldsEnd(ns: seq<nat>)
    requires ns != []
    ensures Fields(ns) != [] && IsDigit(Fields(ns)[|Fields(ns)| - 1])
  {
    DecimalNumber(ns[0]);
    if |ns| > 1 {
      FieldsEnd(ns[1..]);
    }
  }

  lemma HeaderEnd(op: Op)
    requires op.Raster? || op.Palette?
    ensures Render(op) != [] && IsDigit(Render(op)[|Render(op)| - 1])
  {
    match op
    case Raster(x, y) => FieldsEnd([1, x, y]);
    case Palette(i, w) => FieldsEnd([w / 0x200_0000, w / 0x1_0000 % 0x200, w / 0x100 % 0x100, w % 0x100]);
  }

  lemma HeaderTextEnd(ops: seq<Op>)
    requires ops != [] && (ops[|ops| - 1].Raster? || ops[|ops| - 1].Palette?)
    ensures Text(ops) != [] && IsDigit(Text(ops)[|Text(ops)| - 1])
  {
    hide Render;
    assert ops == ops[..|ops| - 1] + [ops[|ops| - 1]];
    TextMore(ops[..|ops| - 1], ops[|ops| - 1]);
    HeaderEnd(ops[|ops| - 1]);
  }

  // ---- The round trip ----

  /** Parsing gives every palette entry and every pixel below the width back, and so all pixels exactly if
    * none beyond it has a colour; it fails exactly when no pixel below the width has one and there is no
    * raster size. */
  ghost predicate GivesBack(r: Option<Image>, si: Image, colours: seq<nat>) {
    && (r.Some? <==> HasPixel(si) || (si.setRa && si.raX > 0 && si.raY > 0))
    && (r.Some? ==>
          && (forall x: nat, y: nat :: GetPixel(r.value, x, y) == Pixel(si, x, y))
          && (SamePixels(r.value, si) <==> !Overhangs(si))
          && (forall i: nat :: Entry(r.value.colours, i) == Entry(colours, i))
          && r.value.setRa == si.setRa && (si.setRa ==> r.value.raX == si.raX && r.value.raY == si.raY))
  }

  /** The canvas is the image. */
  ghost predicate Complete(si: Image, canvas: Image, colours: seq<nat>) {
    && (forall x: nat, y: nat :: GetPixel(canvas, x, y) == Pixel(si, x, y)) && Fits(canvas)
    && (forall i: nat :: Entry(canvas.colours, i) == Entry(colours, i))
    && canvas.setRa == si.setRa && (si.setRa ==> canvas.raX == si.raX && canvas.raY == si.raY)
    && (HasPixel(si) || (canvas.x == (if si.setRa then si.raX else 0) && |canvas.lines| == if si.setRa then si.raY else 0))
  }

  lemma ParsesBack(si: Image, colours: seq<nat>, p2: nat, xpixel: nat, ypixel: nat, ops: seq<Op>, canvas: Image)
    requires Makes(NewImage(p2, xpixel, ypixel), ops, canvas) && Complete(si, canvas, colours)
    ensures GivesBack(Parse([0x71] + Text(ops), p2, xpixel, ypixel), si, colours)
  {
    hide ApplyAll, Text, ParseFrom;
    var s := [0x71] + Text(ops);
    assert s[1..] == Text(ops);
    if |s| <= 1 {
      ReadOps(NewImage(p2, xpixel, ypixel), s, 1, ops);
      NothingRead(NewImage(p2, xpixel, ypixel), s);
    } else {
      ReadOps(NewImage(p2, xpixel, ypixel), s, 1, ops);
    }
    SameUnlessOverhanging(canvas, si);
    if HasPixel(si) {
      var x: nat, y: nat :| Pixel(si, x, y) != 0;
      assert GetPixel(canvas, x, y) != 0;
    }
  }

  /** The parser does make images with pixels beyond their width: five columns of colour 1 are drawn, and
    * then the width is set to two. */
  lemma WiderThanItsWidth(p2: nat, xpixel: nat, ypixel: nat)
    ensures var r := Parse([0x71] + Text([Colour(1), Run(5, 63), Raster(2, 1)]), p2, xpixel, ypixel);
            r.Some? && r.value.x == 2 && GetPixel(r.value, 4, 0) == 2 && Pixel(r.value, 4, 0) == 0 && Overhangs(r.value)
  {
    var start := NewImage(p2, xpixel, ypixel);
    var ops := [Colour(1), Run(5, 63), Raster(2, 1)];
    var drawn := FiveColumns(start);
    assert ops[1..] == [Run(5, 63), Raster(2, 1)] && ops[1..][1..] == [Raster(2, 1)];
    ApplyOne(drawn, Raster(2, 1));
    hide Render, ParseFrom, Repeat, Select;
    var s := [0x71] + Text(ops);
    assert s[1..] == Text(ops);
    ReadOps(start, s, 1, ops);
    assert ApplyAll(start, ops) == Some(drawn.(x := 2, setRa := true, raX := 2, raY := 1));
    TextNotEmpty(ops);
  }

  lemma TextNotEmpty(ops: seq<Op>)
    requires ops != [] && ops[0].Colour?
    ensures Text(ops) != []
  {
    assert Render(ops[0]) != [];
  }

  lemma FiveColumns(start: Image) returns (drawn: Image)
    requires Fresh(start)
    ensures Repeat(Select(start, 1), 63, 5) == Some(drawn)
    ensures GetPixel(drawn, 4, 0) == 2 && |drawn.lines| >= 1
  {
    var si, columns := Select(start, 1), Times(63, 5);
    assert Inked(63, 0);
    RepeatIsColumns(si, 63, 5);
    hide WriteColumns, WriteSixel, Repeat, Bit, GetPixel;
    forall k, i | InkedAt(columns, k, i) ensures si.dy + i < HEIGHT_LIMIT {
      assert i < 6;
    }
    WriteColumnsOk(si, columns);
    drawn := WriteColumns(si, columns).value;
    assert InkedAt(columns, 4 - si.dx, 0 - si.dy);
    NoPixelWithoutLines(drawn);
  }

  lemma NoPixelWithoutLines(si: Image)
    ensures GetPixel(si, 4, 0) != 0 ==> |si.lines| >= 1
  {
  }

  lemma NothingRead(si: Image, s: seq<Byte>)
    requires |s| == 1
    ensures ParseFrom(si, s, 1) == Some(si)
  {
  }

  lemma CompleteFrom(si: Image, canvas: Image, front: Image, y: nat, colours: seq<nat>)
    requires Stands(si, canvas, y, [], colours) && |si.lines| <= y
    requires front == canvas || Apply(front, NewLine) == Some(canvas)
    ensures Complete(si, front, colours)
  {
    hide HasPixel, Fits;
    PlaceFreeAll(canvas, front);
    forall x: nat, row: nat ensures GetPixel(front, x, row) == Pixel(si, x, row) {
      assert GetPixel(canvas, x, row) == if row < y then Pixel(si, x, row) else 0;
    }
  }

  /** "ESC P 9 ; P2", before the letter that starts the image. */
  function Introducer(p2: nat): seq<Byte> {
    [0x1b, 0x50, 0x39, SEMICOLON] + Decimal(p2)
  }

  const TERMINATOR: seq<Byte> := [0x1b, 0x5c]

  /** What stands before the operations. */
  function Start(si: Image): seq<Byte> {
    Introducer(si.p2) + [0x71]
  }

  /** The raster attributes and the palette. */
  method PrintHeader(si: Image, colours: seq<nat>, ghost start: Image)
    returns (out: seq<Byte>, ghost ops: seq<Op>, ghost canvas: Image)
    requires Printable(si, colours) && Fresh(start)
    ensures Makes(start, ops, canvas) && Stands(si, canvas, 0, [], colours)
    ensures out == Start(si) + Text(ops)
    ensures out[|out| - 1] == 0x71 || IsDigit(out[|out| - 1])
  {
    hide Stands, Makes, Decimal, Text, Render;
    out, ops, canvas := Start(si), [], start;
    NoOps(start);
    RasterStands(si, start);
    if si.setRa {
      var op := Raster(si.raX, si.raY);
      MakesOne(start, ops, canvas, op, Apply(start, op).value);
      out := out + Render(op);
      ops, canvas := ops + [op], Apply(start, op).value;
    }
    assert out == Start(si) + Text(ops);
    ghost var raster := ops;
    out, ops, canvas := PrintPalette(out, si, colours, start, ops, canvas);
    assert ops == raster + ops[|raster|..];
    TextConcat(raster, ops[|raster|..]);
    assert out == Start(si) + Text(ops);
    if ops != [] {
      HeaderTextEnd(ops);
    }
  }

  lemma NoOps(start: Image)
    ensures Makes(start, [], start) && Text([]) == []
  {
  }

  /** The text so far, and the image under construction. */
  ghost predicate Printed(si: Image, colours: seq<nat>, y: nat, out: seq<Byte>, start: Image, ops: seq<Op>, canvas: Image) {
    && Makes(start, ops, canvas) && Stands(si, canvas, y, [], colours) && out == Start(si) + Text(ops)
    && if y == 0 then out[|out| - 1] == 0x71 || IsDigit(out[|out| - 1])
       else ops != [] && ops[|ops| - 1] == NewLine && out[|out| - 1] == 0x2d
  }

  /** A band: its active colours, without the last carriage return, and a new line. */
  method PrintBand(text: seq<Byte>, si: Image, colours: seq<nat>, chunks: array<Chunk>, y: nat, ghost start: Image,
                   ghost before: seq<Op>, ghost canvasBefore: Image)
    returns (out: seq<Byte>, ghost ops: seq<Op>, ghost canvas: Image)
    requires Printable(si, colours) && chunks.Length == si.usedColours
    requires Printed(si, colours, y, text, start, before, canvasBefore)
    requires forall c :: 0 <= c < chunks.Length ==> Idle(chunks[c], y)
    modifies chunks
    ensures Printed(si, colours, y + 6, out, start, ops, canvas)
    ensures forall c :: 0 <= c < chunks.Length ==> Idle(chunks[c], y + 6)
  {
    hide Stands, Makes, Text, Apply, ApplyAll, Printable, Decimal, ChunksOk, Idle, InRange;
    PrintableFacts(si, colours);
    IdleChunks(si, y, chunks[..]);
    var active;
    ghost var runs;
    active, runs := CompressColours(si, chunks, y, NoRuns(chunks.Length));
    ghost var gathered := chunks[..];
    assert text[|text| - |Text(before)|..] == Text(before) && text[..|text| - |Text(before)|] == Start(si);
    out, ops, canvas := PrintActive(text, si, colours, chunks, y, active, runs, start, before, canvasBefore);
    IdleLater(chunks[..], y);
    ghost var front := canvas;
    if active != [] {
      DropLast(start, ops, canvas);
      front := ApplyAll(start, ops[..|ops| - 1]).value;
      assert out == Start(si) + Text(ops[..|ops| - 1]) + [0x24];
    }
    if out[|out| - 1] == 0x24 {
      out := out[..|out| - 1];
      ops := ops[..|ops| - 1];
    }
    NewBand(si, canvas, front, y, gathered, runs, active, colours);
    MakesOne(start, ops, front, NewLine, Apply(front, NewLine).value);
    assert out + [0x2d] == Start(si) + (Text(ops) + [0x2d]);
    out := out + [0x2d];
    ops, canvas := ops + [NewLine], Apply(front, NewLine).value;
  }

  /** `sixel_print`: the text from the letter `q` up to the terminator parses back to the image.  The
    * palette may be that of another image. */
  method Print(si: Image, palette: Option<Image>, ghost p2: nat, ghost xpixel: nat, ghost ypixel: nat)
    returns (r: Option<seq<Byte>>)
    requires Printable(si, if palette.Some? then palette.value.colours else si.colours)
    ensures r.None? <==> si.usedColours == 0
    ensures r.Some? ==>
              var n := |Introducer(si.p2)|;
              && n + 2 <= |r.value| && r.value[..n] == Introducer(si.p2) && r.value[|r.value| - 2..] == TERMINATOR
              && GivesBack(Parse(r.value[n..|r.value| - 2], p2, xpixel, ypixel), si,
                           if palette.Some? then palette.value.colours else si.colours)
  {
    hide Stands, Makes, Text, Apply, ApplyAll, Printable, Decimal, ChunksOk, Idle, Complete, InRange;
    var colours := if palette.Some? then palette.value.colours else si.colours;
    if si.usedColours == 0 {
      return None;
    }
    ghost var start := NewImage(p2, xpixel, ypixel);
    PrintableFacts(si, colours);
    var out;
    ghost var ops, canvas;
    out, ops, canvas := PrintHeader(si, colours, start);
    var chunks := new Chunk[si.usedColours](i => Chunk(0, 0, 0, 0, 0, []));
    NewChunks(chunks[..]);
    var y := 0;
    while y < |si.lines|
      invariant Printed(si, colours, y, out, start, ops, canvas)
      invariant forall c :: 0 <= c < chunks.Length ==> Idle(chunks[c], y)
      decreases |si.lines| - y
    {
      out, ops, canvas := PrintBand(out, si, colours, chunks, y, start, ops, canvas);
      y := y + 6;
    }
    ghost var last := canvas;
    if out[|out| - 1] == 0x2d {
      DropLast(start, ops, canvas);
      assert out == Start(si) + Text(ops[..|ops| - 1]) + [0x2d];
      out := out[..|out| - 1];
      ops := ops[..|ops| - 1];
      last := ApplyAll(start, ops).value;
    }
    CompleteFrom(si, canvas, last, y, colours);
    ParsesBack(si, colours, p2, xpixel, ypixel, ops, last);
    assert (out + TERMINATOR)[|Introducer(si.p2)|..|out|] == [0x71] + Text(ops);
    return Some(out + TERMINATOR);
  }

  lemma PrintableFacts(si: Image, colours: seq<nat>)
    requires Printable(si, colours)
    ensures si.x <= WIDTH_LIMIT && si.usedColours <= COLOUR_REGISTERS + 1 && InRange(si, si.usedColours)
  {
  }

  lemma NewChunks(chunks: seq<Chunk>)
    requires forall c :: 0 <= c < |chunks| ==> chunks[c] == Chunk(0, 0, 0, 0, 0, [])
    ensures forall c :: 0 <= c < |chunks| ==> Idle(chunks[c], 0)
  {
  }

  lemma IdleLater(chunks: seq<Chunk>, y: nat)
    requires forall c :: 0 <= c < |chunks| ==> Idle(chunks[c], y + 1)
    ensures forall c :: 0 <= c < |chunks| ==> Idle(chunks[c], y + 6)
  {
  }
}
