/** Cells and lines of the terminal grid, and how one cell is packed into a line.
 *
 * The C structures that grid.c keeps by value inside arrays (`grid_cell_entry`,
 * `grid_extd_entry`, `grid_line`) are datatypes here; the grid that owns the array is the class
 * `GridStore.Grid`.  Words made of flag bits are written out bit by bit: a flag word as a record of
 * Booleans, an attribute word as the set of its bits, a colour as its three bytes, its three flag
 * bits and what is left above them.  The character codec (`utf8_from_data` and `utf8_to_data`) is
 * opaque: an extended slot keeps the character it was given.
 */
module GridCell {

  import opened Bytes

  /** One `int` colour: bits 0-7, 8-15, 16-23, the flags at bits 24, 25 and 26, and bits 27-31. */
  datatype Colour = Colour(low: Byte, mid: Byte, high: Byte,
                           is256: bool, rgb: bool, theme: bool, top: nat)

  const COLOUR_8 := Colour(8, 0, 0, false, false, false, 0)

  datatype Attr = Bright | Dim | Underscore | Blink | Reverse | Hidden | Italics | Charset
                | Strikethrough | Underscore2 | Underscore3 | Underscore4 | Underscore5 | Overline
                | NoAttr

  /** The attributes in the low eight bits, the only ones a compact entry has room for. */
  const LOW_ATTRS: set<Attr> := {Bright, Dim, Underscore, Blink, Reverse, Hidden, Italics, Charset}

  datatype Flags = Flags(fg256: bool, bg256: bool, padding: bool, selected: bool, noPalette: bool,
                         cleared: bool, tab: bool)

  const NO_FLAGS := Flags(false, false, false, false, false, false, false)

  /** A character: its bytes (the source's `size` is their number) and its display width. */
  datatype Glyph = Glyph(bytes: seq<Byte>, width: nat)

  datatype Cell = Cell(glyph: Glyph, attr: set<Attr>, flags: Flags,
                       fg: Colour, bg: Colour, us: Colour, link: nat)

  /** A compact entry holds the cell itself; an extended one the number of a slot of the line.
    * The EXTENDED bit of an entry is its constructor; no cell carries that bit. */
  datatype Entry =
    | Compact(flags: Flags, attr: set<Attr>, fg: Byte, bg: Byte, data: Byte)
    | Extended(flags: Flags, offset: nat)

  datatype SlotData = Char(glyph: Glyph) | TabWidth(width: nat)

  datatype Slot = Slot(data: SlotData, attr: set<Attr>, flags: Flags,
                       fg: Colour, bg: Colour, us: Colour, link: nat)

  datatype Line = Line(celldata: seq<Entry>, extd: seq<Slot>, cellused: nat,
                       wrapped: bool, extended: bool, hyperlink: bool, dead: bool)

  const EMPTY_LINE := Line([], [], 0, false, false, false, false)

  const SPACE: Glyph := Glyph([0x20], 1)
  const DEFAULT_CELL := Cell(SPACE, {}, NO_FLAGS, COLOUR_8, COLOUR_8, COLOUR_8, 0)
  const CLEARED_CELL := DEFAULT_CELL.(flags := NO_FLAGS.(cleared := true))
  const CLEARED_ENTRY := Compact(NO_FLAGS.(cleared := true), {}, 8, 8, 0x20)

  /** A padding cell has no bytes, but its byte array starts with '!'. */
  const PADDING_BYTE: Byte := 0x21
  const PADDING_CELL := DEFAULT_CELL.(glyph := Glyph([], 0), flags := NO_FLAGS.(padding := true))

  function FirstByte(g: Glyph): Byte {
    if g.bytes == [] then PADDING_BYTE else g.bytes[0]
  }

  function TabGlyph(width: nat): Glyph {
    Glyph(seq(width, _ => 0x20), width)
  }

  function StoreCell(gc: Cell, c: Byte): Entry {
    Compact(gc.flags.(cleared := false, fg256 := gc.flags.fg256 || gc.fg.is256,
                      bg256 := gc.flags.bg256 || gc.bg.is256),
            gc.attr * LOW_ATTRS, gc.fg.low, gc.bg.low, c)
  }

  predicate NeedExtendedCell(gce: Entry, gc: Cell) {
    || gce.Extended?
    || !(gc.attr <= LOW_ATTRS)
    || |gc.glyph.bytes| > 1 || gc.glyph.width > 1
    || gc.fg.rgb || gc.fg.theme || gc.bg.rgb || gc.bg.theme
    || gc.us != COLOUR_8
    || gc.link != 0
    || gc.flags.tab
  }

  function SlotOf(gc: Cell): Slot {
    Slot(if gc.flags.tab then TabWidth(gc.glyph.width) else Char(gc.glyph),
         gc.attr, gc.flags.(cleared := false), gc.fg, gc.bg, gc.us, gc.link)
  }

  /** Overwrite an entry that stays extended, keeping its slot. */
  function ReuseSlot(gl: Line, px: nat, flags: Flags, slot: Slot): Line
    requires px < |gl.celldata| && gl.celldata[px].Extended? && gl.celldata[px].offset < |gl.extd|
  {
    var offset := gl.celldata[px].offset;
    gl.(celldata := gl.celldata[px := Extended(flags, offset)], extd := gl.extd[offset := slot],
        extended := true, hyperlink := gl.hyperlink || slot.link != 0)
  }

  /** `grid_get_extended_cell`: make an entry extended, with a new slot at the end. */
  function AddSlot(gl: Line, px: nat, flags: Flags, slot: Slot): Line
    requires px < |gl.celldata|
  {
    gl.(celldata := gl.celldata[px := Extended(flags, |gl.extd|)], extd := gl.extd + [slot],
        extended := true, hyperlink := gl.hyperlink || slot.link != 0)
  }

  /** Make an entry compact; a slot it had is left unused. */
  function PutCompact(gl: Line, px: nat, gce: Entry): Line
    requires px < |gl.celldata|
  {
    gl.(celldata := gl.celldata[px := gce])
  }

  /** Reading a slot; a tab is rebuilt by `grid_set_tab`. */
  function ReadSlot(slot: Slot): Cell {
    match slot.data
    case TabWidth(w) => Cell(TabGlyph(w), slot.attr, slot.flags.(padding := false, tab := true),
                             slot.fg, slot.bg, slot.us, slot.link)
    case Char(g) => Cell(g, slot.attr, slot.flags, slot.fg, slot.bg, slot.us, slot.link)
  }

  function ReadCompact(gce: Entry): Cell
    requires gce.Compact?
  {
    Cell(Glyph([gce.data], 1), gce.attr, gce.flags.(fg256 := false, bg256 := false),
         Colour(gce.fg, 0, 0, gce.flags.fg256, false, false, 0),
         Colour(gce.bg, 0, 0, gce.flags.bg256, false, false, 0),
         COLOUR_8, 0)
  }

  /** `grid_get_cell1`. */
  function GetCell1(gl: Line, px: nat): Cell
    requires px < |gl.celldata|
  {
    var gce := gl.celldata[px];
    if gce.Compact? then ReadCompact(gce)
    else if gce.offset >= |gl.extd| then DEFAULT_CELL
    else ReadSlot(gl.extd[gce.offset])
  }

  /** The part of `grid_get_cell` below the row check: cells past the allocated ones are blank. */
  function Read(gl: Line, px: nat): Cell {
    if px < |gl.celldata| then GetCell1(gl, px) else DEFAULT_CELL
  }

  /** Cells are compared as `grid_cells_equal` compares them: CLEARED does not count. */
  function Norm(c: Cell): Cell {
    c.(flags := c.flags.(cleared := false))
  }

  /** What a read returns after `gc` was written over an entry that is (or is not) extended. */
  function Image(gc: Cell, wasExtended: bool): Cell {
    if wasExtended || NeedExtendedCell(CLEARED_ENTRY, gc) then Norm(ReadSlot(SlotOf(gc)))
    else Norm(ReadCompact(StoreCell(gc, FirstByte(gc.glyph))))
  }

  predicate CompactColour(c: Colour) {
    c == Colour(c.low, 0, 0, c.is256, false, false, 0)
  }

  /** The cells that storage keeps.  A compact entry turns every character into one byte of width
    * one (a padding cell becomes an ordinary '!') and has room for an eight-bit colour only; a tab
    * is rebuilt from its width. */
  predicate Faithful(gc: Cell, wasExtended: bool) {
    if wasExtended || NeedExtendedCell(CLEARED_ENTRY, gc) then
      gc.flags.tab ==> gc.glyph == TabGlyph(gc.glyph.width) && !gc.flags.padding
    else
      && |gc.glyph.bytes| == 1 && gc.glyph.width == 1
      && !gc.flags.fg256 && !gc.flags.bg256
      && CompactColour(gc.fg) && CompactColour(gc.bg)
  }

  /** Writing a cell and reading it back gives the same cell exactly when it is Faithful. */
  lemma ReadBackIff(gc: Cell, wasExtended: bool)
    ensures Image(gc, wasExtended) == Norm(gc) <==> Faithful(gc, wasExtended)
  {
    if !wasExtended && !NeedExtendedCell(CLEARED_ENTRY, gc) {
      assert gc.attr * LOW_ATTRS == gc.attr;
      assert |gc.glyph.bytes| == 1 ==> [FirstByte(gc.glyph)] == gc.glyph.bytes;
    }
  }

  /** Entry `i` owns a slot.  While cells are being moved, the entries in `stale` have been copied
    * but not wiped yet, and own nothing. */
  predicate Owns(gl: Line, stale: set<int>, i: int) {
    0 <= i < |gl.celldata| && i !in stale && gl.celldata[i].Extended?
  }

  /** Offsets are in range, no two cells share a slot, and a line with an extended cell says so. */
  ghost predicate OkExcept(gl: Line, stale: set<int>) {
    && gl.cellused <= |gl.celldata|
    && (forall i :: Owns(gl, stale, i) ==> gl.extended && gl.celldata[i].offset < |gl.extd|)
    && (forall i, j :: Owns(gl, stale, i) && Owns(gl, stale, j) && i != j ==>
          gl.celldata[i].offset != gl.celldata[j].offset)
  }

  ghost predicate LineOk(gl: Line) {
    OkExcept(gl, {})
  }

  /** Line `r` is line `gl` with only cell `px` rewritten; no other cell reads differently. */
  ghost predicate OnlyCell(gl: Line, r: Line, px: nat, stale: set<int>) {
    && |r.celldata| == |gl.celldata| && r.cellused == gl.cellused && r.wrapped == gl.wrapped
    && r.dead == gl.dead
    && (forall k :: 0 <= k < |gl.celldata| && k != px ==> r.celldata[k] == gl.celldata[k])
    && (forall k: nat :: k != px && k !in stale ==> Read(r, k) == Read(gl, k))
  }

  lemma ReuseSlotOk(gl: Line, px: nat, flags: Flags, slot: Slot, stale: set<int>)
    requires OkExcept(gl, stale) && Owns(gl, stale, px)
    ensures var r := ReuseSlot(gl, px, flags, slot);
            && OkExcept(r, stale) && Owns(r, stale, px)
            && Read(r, px) == ReadSlot(slot) && OnlyCell(gl, r, px, stale)
  {
    var r := ReuseSlot(gl, px, flags, slot);
    assert forall i :: Owns(r, stale, i) <==> Owns(gl, stale, i);
    assert forall i :: Owns(r, stale, i) ==> r.celldata[i].offset == gl.celldata[i].offset;
    forall k: nat | k != px && k !in stale ensures Read(r, k) == Read(gl, k) {
      if Owns(gl, stale, k) {
        assert gl.celldata[k].offset != gl.celldata[px].offset;
      }
    }
  }

  lemma AddSlotOk(gl: Line, px: nat, flags: Flags, slot: Slot, stale: set<int>)
    requires OkExcept(gl, stale) && px < |gl.celldata|
    ensures var r := AddSlot(gl, px, flags, slot);
            && OkExcept(r, stale - {px})
            && Read(r, px) == ReadSlot(slot) && OnlyCell(gl, r, px, stale)
  {
    var r := AddSlot(gl, px, flags, slot);
    var left := stale - {px};
    assert forall i :: Owns(r, left, i) ==> i == px || (Owns(gl, stale, i) && r.celldata[i] == gl.celldata[i]);
    forall k: nat | k != px && k !in stale ensures Read(r, k) == Read(gl, k) {
      if Owns(gl, stale, k) {
        assert gl.celldata[k].offset < |gl.extd|;
      }
    }
  }

  lemma PutCompactOk(gl: Line, px: nat, gce: Entry, stale: set<int>)
    requires OkExcept(gl, stale) && px < |gl.celldata| && gce.Compact?
    ensures var r := PutCompact(gl, px, gce);
            && OkExcept(r, stale - {px})
            && Read(r, px) == ReadCompact(gce) && OnlyCell(gl, r, px, stale)
  {
    var r := PutCompact(gl, px, gce);
    var left := stale - {px};
    assert forall i :: Owns(r, left, i) ==> Owns(gl, stale, i) && r.celldata[i] == gl.celldata[i];
  }

  /** The body of `grid_set_cell` once the line is long enough. */
  function PutCell(gl: Line, px: nat, gc: Cell): Line
    requires OkExcept(gl, {}) && px < |gl.celldata|
  {
    var gce := gl.celldata[px];
    if !NeedExtendedCell(gce, gc) then PutCompact(gl, px, StoreCell(gc, FirstByte(gc.glyph)))
    else if gce.Extended? then
      assert Owns(gl, {}, px);
      ReuseSlot(gl, px, gce.flags, SlotOf(gc))
    else AddSlot(gl, px, gc.flags.(cleared := false), SlotOf(gc))
  }

  lemma PutCellOk(gl: Line, px: nat, gc: Cell)
    requires LineOk(gl) && px < |gl.celldata|
    ensures var r := PutCell(gl, px, gc);
            && LineOk(r)
            && Norm(Read(r, px)) == Image(gc, gl.celldata[px].Extended?)
            && OnlyCell(gl, r, px, {})
  {
    var gce := gl.celldata[px];
    assert {} - {px} == {};
    if !NeedExtendedCell(gce, gc) {
      PutCompactOk(gl, px, StoreCell(gc, FirstByte(gc.glyph)), {});
    } else if gce.Extended? {
      ReuseSlotOk(gl, px, gce.flags, SlotOf(gc), {});
    } else {
      AddSlotOk(gl, px, gc.flags.(cleared := false), SlotOf(gc), {});
    }
  }

  /** `grid_clear_cell`: a cleared cell keeps the slot it had unless it was moved away. */
  function ClearCell(gl: Line, px: nat, bg: Colour, moved: bool): Line
    requires px < |gl.celldata|
  {
    var gce := gl.celldata[px];
    var blank := SlotOf(CLEARED_CELL).(bg := bg);
    if !moved && gce.Extended? && gce.offset < |gl.extd| then
      ReuseSlot(gl, px, CLEARED_ENTRY.flags, blank)
    else if bg == COLOUR_8 then PutCompact(gl, px, CLEARED_ENTRY)
    else if bg.rgb || bg.theme then AddSlot(gl, px, CLEARED_ENTRY.flags, blank)
    else PutCompact(gl, px, CLEARED_ENTRY.(bg := bg.low, flags := CLEARED_ENTRY.flags.(bg256 := bg.is256)))
  }

  /** A blank cell in the given background. */
  function Blank(bg: Colour): Cell {
    DEFAULT_CELL.(bg := bg)
  }

  /** What a read returns after a cell was cleared to `bg`: without a slot there is room for an
    * eight-bit colour only. */
  function ClearImage(bg: Colour, slot: bool): Cell {
    if slot || bg.rgb || bg.theme then Blank(bg)
    else Blank(Colour(bg.low, 0, 0, bg.is256, false, false, 0))
  }

  lemma ClearCellOk(gl: Line, px: nat, bg: Colour, moved: bool, stale: set<int>)
    requires px < |gl.celldata| && OkExcept(gl, stale) && (moved || px !in stale)
    ensures var r := ClearCell(gl, px, bg, moved);
            && OkExcept(r, stale - {px})
            && Norm(Read(r, px)) == ClearImage(bg, !moved && gl.celldata[px].Extended?)
            && OnlyCell(gl, r, px, stale)
  {
    var gce := gl.celldata[px];
    var blank := SlotOf(CLEARED_CELL).(bg := bg);
    if !moved && gce.Extended? {
      assert Owns(gl, stale, px);
      assert stale - {px} == stale;
      ReuseSlotOk(gl, px, CLEARED_ENTRY.flags, blank, stale);
    } else if bg == COLOUR_8 {
      PutCompactOk(gl, px, CLEARED_ENTRY, stale);
    } else if bg.rgb || bg.theme {
      AddSlotOk(gl, px, CLEARED_ENTRY.flags, blank, stale);
    } else {
      PutCompactOk(gl, px, CLEARED_ENTRY.(bg := bg.low,
                     flags := CLEARED_ENTRY.flags.(bg256 := bg.is256)), stale);
    }
  }
}
