/** The grid: an array of lines, and the operations of grid.c that read and write its cells.
 *
 * Every operation is specified by what `Read` returns afterwards, so the compact entries and their
 * side array of slots behave as a plain array of cells that is blank past its end.
 */
module GridStore {
  import opened Bytes
  import opened GridCell

  function AddZero(gl: Line): Line {
    gl.(celldata := gl.celldata + [Compact(NO_FLAGS, {}, 0, 0, 0)])
  }

  /** A line grown to `size` entries, the new ones zeroed and then cleared to `bg`. */
  function Grown(gl: Line, size: nat, bg: Colour): (r: Line)
    requires |gl.celldata| <= size
    ensures |r.celldata| == size
  {
    if |gl.celldata| == size then gl else ClearCell(AddZero(Grown(gl, size - 1, bg)), size - 1, bg, false)
  }

  /** A zeroed entry added at the end of a line reads as nothing yet, and changes no other cell. */
  lemma ZeroEntry(g: Line)
    requires LineOk(g)
    ensures var z := AddZero(g);
            LineOk(z) && forall k: nat :: k < |g.celldata| ==> z.celldata[k] == g.celldata[k] && Read(z, k) == Read(g, k)
  {
    var z := AddZero(g);
    assert forall i :: Owns(z, {}, i) <==> Owns(g, {}, i);
    forall k: nat | k < |g.celldata| ensures Read(z, k) == Read(g, k) {
      assert z.celldata[k] == g.celldata[k];
    }
  }

  /** Line `r` is line `gl` with `size` cells, the new ones blank. */
  ghost predicate Extends(gl: Line, r: Line, size: nat, bg: Colour) {
    && LineOk(r) && |gl.celldata| <= size == |r.celldata|
    && r.cellused == gl.cellused && r.wrapped == gl.wrapped && r.dead == gl.dead
    && (forall k: nat :: k < |gl.celldata| ==> r.celldata[k] == gl.celldata[k] && Read(r, k) == Read(gl, k))
    && (forall k: nat :: |gl.celldata| <= k < size ==>
          Norm(Read(r, k)) == ClearImage(bg, false) && (r.celldata[k].Extended? <==> bg.rgb || bg.theme))
  }

  lemma ExtendsStep(gl: Line, g: Line, bg: Colour)
    requires Extends(gl, g, |g.celldata|, bg)
    ensures var z := AddZero(g);
            Extends(gl, ClearCell(z, |g.celldata|, bg, false), |g.celldata| + 1, bg)
  {
    ZeroEntry(g);
    var z := AddZero(g);
    ClearCellOk(z, |g.celldata|, bg, false, {});
    var r := ClearCell(z, |g.celldata|, bg, false);
    assert OkExcept(r, {}) by { assert {} - {|g.celldata|} == {}; }
    assert forall k: nat :: k < |g.celldata| ==> Read(r, k) == Read(z, k) == Read(g, k);
  }

  lemma {:induction false} GrownOk(gl: Line, size: nat, bg: Colour)
    requires LineOk(gl) && |gl.celldata| <= size
    ensures Extends(gl, Grown(gl, size, bg), size, bg)
  {
    if |gl.celldata| < size {
      GrownOk(gl, size - 1, bg);
      ExtendsStep(gl, Grown(gl, size - 1, bg), bg);
    }
  }

  /** The size `grid_expand_line` really allocates for a line that needs `sx` cells. */
  function ExpandSize(gsx: nat, have: nat, sx: nat): (r: nat)
    ensures r >= have && r >= sx
  {
    if sx <= have then have
    else if sx < gsx / 4 then gsx / 4
    else if sx < gsx / 2 then gsx / 2
    else if gsx > sx then gsx
    else sx
  }

  /** The size is the smallest that is enough and more than asked for of a quarter, half and the whole of the width,
    * or what is asked for; so a line grows at most three times on the screen. */
  lemma ExpandSizeIs(gsx: nat, have: nat, sx: nat)
    requires sx > have
    ensures var r := ExpandSize(gsx, have, sx);
            && r in {gsx / 4, gsx / 2, gsx, sx}
            && (gsx / 4 > sx ==> r <= gsx / 4) && (gsx / 2 > sx ==> r <= gsx / 2) && (gsx > sx ==> r <= gsx)
            && (r == sx <==> sx >= gsx)
            && (have < gsx ==> have < gsx / 4 || r >= gsx / 2) && (gsx / 2 <= have < gsx ==> r >= gsx)
  {
  }

  predicate ColourDefault(bg: Colour) {
    bg == COLOUR_8 || bg == COLOUR_8.(low := 9)
  }

  /** The line `grid_empty_line` leaves. */
  function EmptyLine(gsx: nat, bg: Colour): Line {
    if ColourDefault(bg) then EMPTY_LINE else Grown(EMPTY_LINE, gsx, bg)
  }

  function Max(a: nat, b: nat): nat {
    if a > b then a else b
  }

  /** Line `now` is line `was` after `gc` was written at `px`. */
  ghost predicate Written(was: Line, now: Line, px: nat, gc: Cell) {
    && px < |now.celldata| && now.cellused == Max(was.cellused, px + 1)
    && now.wrapped == was.wrapped && now.dead == was.dead
    && Norm(Read(now, px)) == Image(gc, px < |was.celldata| && was.celldata[px].Extended?)
    && forall k: nat :: k != px ==> Norm(Read(now, k)) == Norm(Read(was, k))
  }

  /** `grid_set_cell` on one line of a grid `gsx` columns wide. */
  function WriteCell(was: Line, gsx: nat, px: nat, gc: Cell): Line
    requires LineOk(was)
  {
    var g := Grown(was, ExpandSize(gsx, |was.celldata|, px + 1), COLOUR_8);
    GrownOk(was, |g.celldata|, COLOUR_8);
    UsedOk(g, Max(was.cellused, px + 1));
    PutCell(g.(cellused := Max(was.cellused, px + 1)), px, gc)
  }

  lemma UsedOk(g: Line, used: nat)
    requires LineOk(g) && used <= |g.celldata|
    ensures LineOk(g.(cellused := used))
    ensures forall k: nat :: Read(g.(cellused := used), k) == Read(g, k)
  {
    assert forall i :: Owns(g.(cellused := used), {}, i) <==> Owns(g, {}, i);
  }

  lemma WriteCellOk(was: Line, gsx: nat, px: nat, gc: Cell)
    requires LineOk(was)
    ensures LineOk(WriteCell(was, gsx, px, gc)) && Written(was, WriteCell(was, gsx, px, gc), px, gc)
  {
    var g := Grown(was, ExpandSize(gsx, |was.celldata|, px + 1), COLOUR_8);
    GrownOk(was, |g.celldata|, COLOUR_8);
    var gl := g.(cellused := Max(was.cellused, px + 1));
    UsedOk(g, gl.cellused);
    PutCellOk(gl, px, gc);
    assert gl.celldata[px].Extended? <==> px < |was.celldata| && was.celldata[px].Extended?;
    var now := PutCell(gl, px, gc);
    forall k: nat | k != px ensures Norm(Read(now, k)) == Norm(Read(was, k)) {
      assert Read(now, k) == Read(gl, k) == Read(g, k);
    }
  }

  /** One step of `grid_set_cells`: the style of `gc` with the single byte `b`. */
  function PutByte(gl: Line, px: nat, gc: Cell, b: Byte): Line
    requires LineOk(gl) && px < |gl.celldata|
  {
    var gce := gl.celldata[px];
    var slot := SlotOf(gc).(data := Char(Glyph([b], 1)));
    if !NeedExtendedCell(gce, gc) then PutCompact(gl, px, StoreCell(gc, b))
    else if gce.Extended? then
      assert Owns(gl, {}, px);
      ReuseSlot(gl, px, gce.flags, slot)
    else AddSlot(gl, px, gc.flags.(cleared := false), slot)
  }

  /** What a read returns for one byte written by `grid_set_cells`. */
  function ByteImage(gc: Cell, b: Byte, slot: bool): Cell {
    Image(gc.(glyph := Glyph([b], 1)), slot || |gc.glyph.bytes| > 1 || gc.glyph.width > 1)
  }

  lemma PutByteOk(gl: Line, px: nat, gc: Cell, b: Byte)
    requires LineOk(gl) && px < |gl.celldata| && !gc.flags.tab
    ensures var r := PutByte(gl, px, gc, b);
            && LineOk(r)
            && Norm(Read(r, px)) == ByteImage(gc, b, gl.celldata[px].Extended?)
            && OnlyCell(gl, r, px, {})
  {
    var gce := gl.celldata[px];
    var slot := SlotOf(gc).(data := Char(Glyph([b], 1)));
    assert {} - {px} == {};
    if !NeedExtendedCell(gce, gc) {
      PutCompactOk(gl, px, StoreCell(gc, b), {});
    } else if gce.Extended? {
      ReuseSlotOk(gl, px, gce.flags, slot, {});
    } else {
      AddSlotOk(gl, px, gc.flags.(cleared := false), slot, {});
    }
  }

  predicate HadSlot(gl: Line, k: nat) {
    k < |gl.celldata| && gl.celldata[k].Extended?
  }

  /** Line `now` is line `was` after the bytes `s` were written from `px` in the style of `gc`. */
  ghost predicate BytesWritten(was: Line, now: Line, px: nat, gc: Cell, s: seq<Byte>) {
    && now.wrapped == was.wrapped && now.dead == was.dead
    && (forall k: nat :: px <= k < px + |s| ==> Norm(Read(now, k)) == ByteImage(gc, s[k - px], HadSlot(was, k)))
    && (forall k: nat :: !(px <= k < px + |s|) ==> Norm(Read(now, k)) == Norm(Read(was, k)))
  }

  lemma BytesStep(g: Line, gl: Line, r: Line, px: nat, gc: Cell, s: seq<Byte>, i: nat)
    requires i < |s| && BytesWritten(g, gl, px, gc, s[..i])
    requires OnlyCell(gl, r, px + i, {}) && Norm(Read(r, px + i)) == ByteImage(gc, s[i], HadSlot(g, px + i))
    ensures BytesWritten(g, r, px, gc, s[..i + 1])
  {
    forall k: nat | px <= k < px + i + 1
      ensures Norm(Read(r, k)) == ByteImage(gc, s[..i + 1][k - px], HadSlot(g, k))
    {
      if k < px + i {
        assert Norm(Read(gl, k)) == ByteImage(gc, s[..i][k - px], HadSlot(g, k));
      }
    }
  }

  /** Line `now` is line `was` after the cells `lo` to `hi` were cleared to `bg`. */
  ghost predicate SpanCleared(was: Line, now: Line, lo: nat, hi: nat, bg: Colour) {
    && now.cellused == was.cellused && now.wrapped == was.wrapped && now.dead == was.dead
    && (forall k: nat :: lo <= k < hi ==> Norm(Read(now, k)) == ClearImage(bg, HadSlot(was, k)))
    && (forall k: nat :: !(lo <= k < hi) ==> Norm(Read(now, k)) == Norm(Read(was, k)))
  }

  /** Where `grid_clear` stops on one line: cells that were never allocated need no clearing to the
    * default background. */
  function ClearEnd(was: Line, gsx: nat, px: nat, nx: nat, bg: Colour): (r: nat)
    ensures px <= r <= px + nx
  {
    var sx := if gsx > |was.celldata| then |was.celldata| else gsx;
    if !ColourDefault(bg) then px + nx
    else if px > sx then px
    else if px + nx > sx then sx
    else px + nx
  }

  /** `memmove` of `nx` entries from `px` to `dx`. */
  function Memmove<T>(s: seq<T>, dx: nat, px: nat, nx: nat): (r: seq<T>)
    requires px + nx <= |s| && dx + nx <= |s|
    ensures |r| == |s|
    ensures forall k :: 0 <= k < |s| ==> r[k] == if dx <= k < dx + nx then s[k - dx + px] else s[k]
  {
    s[..dx] + s[px..px + nx] + s[dx + nx..]
  }

  /** Entry `k` was moved away and the wiping loop, now at `xx`, has not reached it. */
  predicate Unwiped(dx: nat, px: nat, nx: nat, xx: nat, k: int) {
    xx <= k < px + nx && !(dx <= k < dx + nx)
  }

  function Stale(dx: nat, px: nat, nx: nat, xx: nat): set<int> {
    set k | xx <= k < px + nx && Unwiped(dx, px, nx, xx, k)
  }

  function MovedFrom(dx: nat, px: nat, nx: nat, k: int): int {
    if dx <= k < dx + nx then k - dx + px else k
  }

  lemma MemmoveOk(gl: Line, dx: nat, px: nat, nx: nat)
    requires LineOk(gl) && px + nx <= |gl.celldata| && dx + nx <= |gl.celldata|
    ensures OkExcept(gl.(celldata := Memmove(gl.celldata, dx, px, nx)), Stale(dx, px, nx, px))
  {
    var r := gl.(celldata := Memmove(gl.celldata, dx, px, nx));
    var stale := Stale(dx, px, nx, px);
    forall i | Owns(r, stale, i)
      ensures Owns(gl, {}, MovedFrom(dx, px, nx, i)) && r.celldata[i] == gl.celldata[MovedFrom(dx, px, nx, i)]
      ensures !(dx <= i < dx + nx) ==> !(px <= i < px + nx)
    {
      assert !Unwiped(dx, px, nx, px, i);
    }
    forall i, j | Owns(r, stale, i) && Owns(r, stale, j) && i != j
      ensures r.celldata[i].offset != r.celldata[j].offset
    {
      assert MovedFrom(dx, px, nx, i) != MovedFrom(dx, px, nx, j);
    }
  }

  lemma MemmoveReads(gl: Line, dx: nat, px: nat, nx: nat, k: nat)
    requires px + nx <= |gl.celldata| && dx + nx <= |gl.celldata|
    ensures Read(gl.(celldata := Memmove(gl.celldata, dx, px, nx)), k) == Read(gl, MovedFrom(dx, px, nx, k))
  {
  }

  lemma GrownTwice(was: Line, mid: Line, g: Line)
    requires LineOk(was) && |was.celldata| <= |mid.celldata| <= |g.celldata|
    requires mid == Grown(was, |mid.celldata|, COLOUR_8) && g == Grown(mid, |g.celldata|, COLOUR_8)
    ensures LineOk(g) && forall k: nat :: Norm(Read(g, k)) == Norm(Read(was, k))
    ensures g.cellused == was.cellused && g.wrapped == was.wrapped && g.dead == was.dead
  {
    GrownOk(was, |mid.celldata|, COLOUR_8);
    GrownOk(mid, |g.celldata|, COLOUR_8);
    forall k: nat ensures Norm(Read(g, k)) == Norm(Read(was, k)) {
      assert Norm(Read(mid, k)) == Norm(Read(was, k));
    }
  }

  lemma MovedReads(was: Line, g: Line, now: Line, dx: nat, px: nat, nx: nat)
    requires px + nx <= |g.celldata| && dx + nx <= |g.celldata|
    requires forall k: nat :: Norm(Read(g, k)) == Norm(Read(was, k))
    requires forall k: nat :: !(px <= k < px + nx) || dx <= k < dx + nx ==>
               Read(now, k) == Read(g.(celldata := Memmove(g.celldata, dx, px, nx)), k)
    ensures forall k: nat :: dx <= k < dx + nx ==> Norm(Read(now, k)) == Norm(Read(was, k - dx + px))
    ensures forall k: nat :: !(px <= k < px + nx) && !(dx <= k < dx + nx) ==> Norm(Read(now, k)) == Norm(Read(was, k))
  {
    forall k: nat | dx <= k < dx + nx ensures Norm(Read(now, k)) == Norm(Read(was, k - dx + px)) {
      MemmoveReads(g, dx, px, nx, k);
    }
    forall k: nat | !(px <= k < px + nx) && !(dx <= k < dx + nx) ensures Norm(Read(now, k)) == Norm(Read(was, k)) {
      MemmoveReads(g, dx, px, nx, k);
    }
  }

  /** Line `now` is line `was` after `nx` cells moved from `px` to `dx`. */
  ghost predicate CellsMoved(was: Line, now: Line, dx: nat, px: nat, nx: nat, bg: Colour) {
    && now.cellused == Max(was.cellused, dx + nx) && now.wrapped == was.wrapped && now.dead == was.dead
    && (forall k: nat :: dx <= k < dx + nx ==> Norm(Read(now, k)) == Norm(Read(was, k - dx + px)))
    && (forall k: nat :: px <= k < px + nx && !(dx <= k < dx + nx) ==> Norm(Read(now, k)) == ClearImage(bg, false))
    && (forall k: nat :: !(px <= k < px + nx) && !(dx <= k < dx + nx) ==> Norm(Read(now, k)) == Norm(Read(was, k)))
  }

  function CountExtended(s: seq<Entry>): nat {
    if s == [] then 0 else CountExtended(s[..|s| - 1]) + if s[|s| - 1].Extended? then 1 else 0
  }

  /** The first `px` entries have been renumbered, in order, into `slots`. */
  ghost predicate Compacted(gl: Line, cells: seq<Entry>, slots: seq<Slot>, px: nat) {
    && px <= |gl.celldata| == |cells|
    && (forall k :: 0 <= k < px && gl.celldata[k].Compact? ==> cells[k] == gl.celldata[k])
    && (forall k :: 0 <= k < px && gl.celldata[k].Extended? ==>
          && cells[k].Extended? && cells[k].offset < |slots| && gl.celldata[k].offset < |gl.extd|
          && slots[cells[k].offset] == gl.extd[gl.celldata[k].offset])
    && (forall i, j :: 0 <= i < j < px && gl.celldata[i].Extended? && gl.celldata[j].Extended? ==>
          cells[i].offset < cells[j].offset)
  }

  lemma NoneRenumbered(gl: Line)
    ensures Compacted(gl, gl.celldata, [], 0)
  {
  }

  lemma OffsetIn(gl: Line, px: nat)
    requires LineOk(gl) && px < |gl.celldata| && gl.celldata[px].Extended?
    ensures gl.celldata[px].offset < |gl.extd|
  {
    assert Owns(gl, {}, px);
  }

  lemma KeepOne(gl: Line, cells: seq<Entry>, slots: seq<Slot>, px: nat)
    requires Compacted(gl, cells, slots, px) && px < |cells| && gl.celldata[px].Compact? && cells[px] == gl.celldata[px]
    ensures Compacted(gl, cells, slots, px + 1)
  {
  }

  lemma CountMore(before: seq<Entry>, cells: seq<Entry>, px: nat)
    requires px < |before| == |cells| && cells[..px] == before[..px]
    ensures CountExtended(cells[..px + 1]) == CountExtended(before[..px]) + if cells[px].Extended? then 1 else 0
  {
    assert cells[..px + 1][..px] == cells[..px];
  }

  /** One more extended entry is renumbered. */
  lemma RenumberOne(gl: Line, cells: seq<Entry>, slots: seq<Slot>, px: nat)
    requires Compacted(gl, cells, slots, px) && px < |cells| && gl.celldata[px].Extended?
    requires gl.celldata[px].offset < |gl.extd|
    ensures Compacted(gl, cells[px := Extended(gl.celldata[px].flags, |slots|)], slots + [gl.extd[gl.celldata[px].offset]],
                      px + 1)
  {
  }

  lemma CompactedOk(was: Line, now: Line)
    requires LineOk(was) && Compacted(was, now.celldata, now.extd, |was.celldata|)
    requires now == was.(celldata := now.celldata, extd := now.extd)
    ensures LineOk(now) && forall k: nat :: Read(now, k) == Read(was, k)
  {
    assert forall i :: Owns(now, {}, i) <==> Owns(was, {}, i);
    forall i, j | Owns(now, {}, i) && Owns(now, {}, j) && i != j
      ensures now.celldata[i].offset != now.celldata[j].offset
    {
      assert if i < j then now.celldata[i].offset < now.celldata[j].offset
             else now.celldata[j].offset < now.celldata[i].offset;
    }
  }

  class Grid {
    var sx: nat
    var sy: nat
    var hsize: nat
    var linedata: seq<Line>

    ghost predicate Ok()
      reads this
    {
      |linedata| == hsize + sy && forall y :: 0 <= y < |linedata| ==> LineOk(linedata[y])
    }

    /** Only line `py` may have changed. */
    twostate predicate OnlyLine(py: nat)
      reads this
    {
      && sx == old(sx) && sy == old(sy) && hsize == old(hsize)
      && |linedata| == |old(linedata)|
      && forall y :: 0 <= y < |linedata| && y != py ==> linedata[y] == old(linedata)[y]
    }

    constructor (sx: nat, sy: nat)
      ensures this.sx == sx && this.sy == sy && hsize == 0
      ensures linedata == seq(sy, _ => EMPTY_LINE) && Ok()
    {
      this.sx, this.sy, hsize := sx, sy, 0;
      linedata := seq(sy, _ => EMPTY_LINE);
    }

    method GetCell(px: nat, py: nat) returns (gc: Cell)
      requires Ok()
      ensures gc == if py < hsize + sy then Read(linedata[py], px) else DEFAULT_CELL
    {
      if py >= hsize + sy || px >= |linedata[py].celldata| {
        gc := DEFAULT_CELL;
      } else {
        gc := GetCell1(linedata[py], px);
      }
    }

    method ExpandLine(py: nat, need: nat, bg: Colour)
      requires Ok() && py < |linedata|
      modifies this`linedata
      ensures Ok() && OnlyLine(py)
      ensures var size := ExpandSize(sx, |old(linedata)[py].celldata|, need);
              linedata[py] == Grown(old(linedata)[py], size, bg) && Extends(old(linedata)[py], linedata[py], size, bg)
    {
      var gl := linedata[py];
      var size := ExpandSize(sx, |gl.celldata|, need);
      GrownOk(gl, size, bg);
      if need <= |gl.celldata| {
        return;
      }
      var xx := |gl.celldata|;
      while xx < size
        invariant |old(linedata)[py].celldata| <= xx <= size
        invariant gl == Grown(old(linedata)[py], xx, bg)
        invariant |gl.celldata| == xx
        modifies {}
      {
        gl := AddZero(gl);
        gl := ClearCell(gl, xx, bg, false);
        xx := xx + 1;
      }
      linedata := linedata[py := gl];
    }

    /** A read after a write returns the last cell written, and no other cell is touched. */
    method SetCell(px: nat, py: nat, gc: Cell)
      requires Ok()
      modifies this`linedata
      ensures Ok() && OnlyLine(py)
      ensures py >= |linedata| ==> linedata == old(linedata)
      ensures py < |linedata| ==> Written(old(linedata)[py], linedata[py], px, gc)
    {
      if py >= hsize + sy {
        return;
      }
      ghost var was := linedata[py];
      ExpandLine(py, px + 1, COLOUR_8);
      var gl := linedata[py];
      GrownOk(was, |gl.celldata|, COLOUR_8);
      UsedOk(gl, Max(was.cellused, px + 1));
      if px + 1 > gl.cellused {
        gl := gl.(cellused := px + 1);
      }
      gl := PutCell(gl, px, gc);
      assert gl == WriteCell(was, sx, px, gc);
      WriteCellOk(was, sx, px, gc);
      linedata := linedata[py := gl];
    }

    /** A padding cell reads back as an ordinary one-column '!' marked PADDING, unless the entry it
      * replaced already had a slot. */
    method SetPadding(px: nat, py: nat, bg: Colour)
      requires Ok()
      modifies this`linedata
      ensures Ok() && OnlyLine(py)
      ensures py < |linedata| ==>
        var slot := px < |old(linedata)[py].celldata| && old(linedata)[py].celldata[px].Extended?;
        var r := Norm(Read(linedata[py], px));
        && r.flags == NO_FLAGS.(padding := true)
        && r.glyph.width == (if slot || bg.rgb || bg.theme then 0 else 1)
    {
      SetCell(px, py, PADDING_CELL.(bg := bg));
    }

    method SetCells(px: nat, py: nat, gc: Cell, s: seq<Byte>)
      requires Ok() && !gc.flags.tab
      modifies this`linedata
      ensures Ok() && OnlyLine(py)
      ensures py < |linedata| ==>
        && BytesWritten(old(linedata)[py], linedata[py], px, gc, s)
        && linedata[py].cellused == Max(old(linedata)[py].cellused, px + |s|)
    {
      if py >= hsize + sy {
        return;
      }
      ghost var was := linedata[py];
      ExpandLine(py, px + |s|, COLOUR_8);
      var gl := linedata[py];
      GrownOk(was, |gl.celldata|, COLOUR_8);
      UsedOk(gl, Max(was.cellused, px + |s|));
      if px + |s| > gl.cellused {
        gl := gl.(cellused := px + |s|);
      }
      ghost var g := gl;
      gl := PutBytes(gl, px, gc, s);
      assert forall k: nat :: HadSlot(g, k) == HadSlot(was, k);
      assert forall k: nat :: Norm(Read(g, k)) == Norm(Read(was, k));
      linedata := linedata[py := gl];
    }

    static method PutNext(ghost g: Line, gl: Line, px: nat, gc: Cell, s: seq<Byte>, i: nat) returns (r: Line)
      requires LineOk(gl) && i < |s| && px + i < |gl.celldata| == |g.celldata| && !gc.flags.tab
      requires gl.celldata[px + i] == g.celldata[px + i] && BytesWritten(g, gl, px, gc, s[..i])
      ensures LineOk(r) && |r.celldata| == |g.celldata| && r.cellused == gl.cellused
      ensures forall k: nat :: px + i < k < |gl.celldata| ==> r.celldata[k] == gl.celldata[k]
      ensures BytesWritten(g, r, px, gc, s[..i + 1])
    {
      r := PutByte(gl, px + i, gc, s[i]);
      PutByteOk(gl, px + i, gc, s[i]);
      BytesStep(g, gl, r, px, gc, s, i);
    }

    /** The loop of `grid_set_cells`. */
    static method PutBytes(g: Line, px: nat, gc: Cell, s: seq<Byte>) returns (gl: Line)
      requires LineOk(g) && px + |s| <= |g.celldata| && !gc.flags.tab
      ensures LineOk(gl) && gl.cellused == g.cellused && BytesWritten(g, gl, px, gc, s)
    {
      gl := g;
      var i := 0;
      while i < |s|
        invariant i <= |s| && LineOk(gl) && |gl.celldata| == |g.celldata| && gl.cellused == g.cellused
        invariant forall k: nat :: px + i <= k < |gl.celldata| ==> gl.celldata[k] == g.celldata[k]
        invariant BytesWritten(g, gl, px, gc, s[..i])
      {
        gl := PutNext(g, gl, px, gc, s, i);
        i := i + 1;
      }
      assert s[..i] == s;
    }

    /** The inner loop of `grid_clear`: make the line long enough, then clear cells one by one. */
    method ClearSpan(py: nat, lo: nat, hi: nat, bg: Colour)
      requires Ok() && py < |linedata| && lo <= hi
      modifies this`linedata
      ensures Ok() && OnlyLine(py)
      ensures SpanCleared(old(linedata)[py], linedata[py], lo, hi, bg)
    {
      ghost var was := linedata[py];
      ExpandLine(py, hi, COLOUR_8);
      ghost var g := linedata[py];
      GrownOk(was, |g.celldata|, COLOUR_8);
      var gl := ClearCells(linedata[py], lo, hi, bg);
      assert forall k: nat :: HadSlot(g, k) == HadSlot(was, k);
      assert forall k: nat :: Norm(Read(g, k)) == Norm(Read(was, k));
      linedata := linedata[py := gl];
    }

    static method ClearCells(g: Line, lo: nat, hi: nat, bg: Colour) returns (gl: Line)
      requires LineOk(g) && lo <= hi <= |g.celldata|
      ensures LineOk(gl) && SpanCleared(g, gl, lo, hi, bg)
    {
      gl := g;
      var xx := lo;
      while xx < hi
        invariant lo <= xx <= hi && LineOk(gl) && |gl.celldata| == |g.celldata|
        invariant gl.cellused == g.cellused && gl.wrapped == g.wrapped && gl.dead == g.dead
        invariant forall k: nat :: xx <= k < |gl.celldata| ==> gl.celldata[k] == g.celldata[k]
        invariant forall k: nat :: lo <= k < xx ==> Norm(Read(gl, k)) == ClearImage(bg, HadSlot(g, k))
        invariant forall k: nat :: !(lo <= k < xx) ==> Read(gl, k) == Read(g, k)
      {
        ClearCellOk(gl, xx, bg, false, {});
        assert {} - {xx} == {};
        gl := ClearCell(gl, xx, bg, false);
        xx := xx + 1;
      }
    }

    /** Cells move as a block, the ones they leave behind become blank, and no slot is shared. */
    method MoveCells(dx: nat, px: nat, py: nat, nx: nat, bg: Colour)
      requires Ok()
      modifies this`linedata
      ensures Ok() && OnlyLine(py)
      ensures (nx == 0 || px == dx) ==> linedata == old(linedata)
      ensures py < |linedata| && nx != 0 && px != dx ==>
        CellsMoved(old(linedata)[py], linedata[py], dx, px, nx, bg)
    {
      if nx == 0 || px == dx || py >= hsize + sy {
        return;
      }
      ghost var was := linedata[py];
      ExpandLine(py, px + nx, COLOUR_8);
      ghost var mid := linedata[py];
      ExpandLine(py, dx + nx, COLOUR_8);
      var gl := linedata[py];
      ghost var g := gl;
      GrownTwice(was, mid, g);
      gl := ShiftCells(was, gl, dx, px, nx, bg);
      linedata := linedata[py := gl];
    }

    /** What `grid_move_cells` does to a line that is long enough. */
    static method ShiftCells(ghost was: Line, g: Line, dx: nat, px: nat, nx: nat, bg: Colour) returns (gl: Line)
      requires LineOk(g) && px + nx <= |g.celldata| && dx + nx <= |g.celldata|
      requires g.cellused == was.cellused && g.wrapped == was.wrapped && g.dead == was.dead
      requires forall k: nat :: Norm(Read(g, k)) == Norm(Read(was, k))
      ensures LineOk(gl) && CellsMoved(was, gl, dx, px, nx, bg)
    {
      MemmoveOk(g, dx, px, nx);
      gl := g.(celldata := Memmove(g.celldata, dx, px, nx));
      ghost var m := gl;
      if dx + nx > gl.cellused {
        gl := gl.(cellused := dx + nx);
      }
      assert forall i :: Owns(gl, Stale(dx, px, nx, px), i) <==> Owns(m, Stale(dx, px, nx, px), i);
      gl := WipeMoved(gl, dx, px, nx, bg);
      MovedReads(was, g, gl, dx, px, nx);
    }

    /** The last loop of `grid_move_cells`. */
    static method WipeMoved(m: Line, dx: nat, px: nat, nx: nat, bg: Colour) returns (gl: Line)
      requires px + nx <= |m.celldata| && OkExcept(m, Stale(dx, px, nx, px))
      ensures LineOk(gl) && |gl.celldata| == |m.celldata|
      ensures gl.cellused == m.cellused && gl.wrapped == m.wrapped && gl.dead == m.dead
      ensures forall k: nat :: px <= k < px + nx && !(dx <= k < dx + nx) ==>
                Norm(Read(gl, k)) == ClearImage(bg, false)
      ensures forall k: nat :: !(px <= k < px + nx) || dx <= k < dx + nx ==> Read(gl, k) == Read(m, k)
    {
      hide ClearCell, Read;
      gl := m;
      var xx := px;
      while xx < px + nx
        invariant px <= xx <= px + nx && |gl.celldata| == |m.celldata|
        invariant OkExcept(gl, Stale(dx, px, nx, xx))
        invariant gl.cellused == m.cellused && gl.wrapped == m.wrapped && gl.dead == m.dead
        invariant forall k: nat :: px <= k < xx && !(dx <= k < dx + nx) ==> Norm(Read(gl, k)) == ClearImage(bg, false)
        invariant forall k: nat :: !(px <= k < px + nx) || dx <= k < dx + nx ==> Read(gl, k) == Read(m, k)
      {
        if dx <= xx < dx + nx {
          assert Stale(dx, px, nx, xx + 1) == Stale(dx, px, nx, xx);
        } else {
          ClearCellOk(gl, xx, bg, true, Stale(dx, px, nx, xx));
          assert forall k :: k in Stale(dx, px, nx, xx + 1) <==> k in Stale(dx, px, nx, xx) - {xx};
          assert Stale(dx, px, nx, xx + 1) == Stale(dx, px, nx, xx) - {xx};
          gl := ClearCell(gl, xx, bg, true);
        }
        xx := xx + 1;
      }
      assert Stale(dx, px, nx, px + nx) == {};
    }

    /** Compaction drops the unused slots and changes no read. */
    method CompactLine(py: nat)
      requires Ok() && py < |linedata|
      modifies this`linedata
      ensures Ok() && OnlyLine(py)
      ensures |linedata[py].extd| == CountExtended(linedata[py].celldata)
      ensures linedata[py].cellused == old(linedata)[py].cellused && linedata[py].wrapped == old(linedata)[py].wrapped
      ensures forall k: nat :: Read(linedata[py], k) == Read(old(linedata)[py], k)
    {
      var was := linedata[py];
      var cells, slots := Renumber(was);
      var gl := was.(celldata := cells, extd := slots);
      CompactedOk(was, gl);
      linedata := linedata[py := gl];
    }

    /** The copying loop of `grid_compact_line`. */
    static method Renumber(gl: Line) returns (cells: seq<Entry>, slots: seq<Slot>)
      requires LineOk(gl)
      ensures |slots| == CountExtended(cells) && Compacted(gl, cells, slots, |gl.celldata|)
    {
      hide Compacted, LineOk;
      cells, slots := gl.celldata, [];
      var px := 0;
      NoneRenumbered(gl);
      while px < |cells|
        invariant px <= |cells| == |gl.celldata|
        invariant |slots| == CountExtended(cells[..px])
        invariant forall k :: px <= k < |cells| ==> cells[k] == gl.celldata[k]
        invariant Compacted(gl, cells, slots, px)
      {
        var gce := cells[px];
        ghost var before := cells;
        if gce.Extended? {
          OffsetIn(gl, px);
          RenumberOne(gl, cells, slots, px);
          slots := slots + [gl.extd[gce.offset]];
          cells := cells[px := Extended(gce.flags, |slots| - 1)];
        } else {
          KeepOne(gl, cells, slots, px);
        }
        CountMore(before, cells, px);
        px := px + 1;
      }
      assert cells[..px] == cells;
    }
  }
}
