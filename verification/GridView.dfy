/** Moving and clearing whole lines, and the screen operations built on them (grid-view.c).
 *
 * Line numbers are `u_int`, so sums and differences are taken modulo 2^32 (`U32`).
 */
module GridView {
  import opened GridCell
  import opened GridStore

  function U32(x: int): (r: nat)
    ensures r < 0x1_0000_0000
    ensures 0 <= x < 0x1_0000_0000 ==> r == x
  {
    x % 0x1_0000_0000
  }

  /** A line apart from its WRAPPED flag. */
  function Bare(l: Line): Line {
    l.(wrapped := false)
  }

  /** A grid whose line numbers can be added without overflow. */
  ghost predicate Fits(gd: Grid)
    reads gd
  {
    gd.Ok() && |gd.linedata| < 0x8000_0000
  }

  lemma EmptyLineOk(sx: nat, bg: Colour)
    ensures LineOk(EmptyLine(sx, bg)) && !EmptyLine(sx, bg).wrapped && EmptyLine(sx, bg).cellused == 0
    ensures forall k: nat :: Norm(Read(EmptyLine(sx, bg), k)) ==
              if k < sx && !ColourDefault(bg) then ClearImage(bg, false) else DEFAULT_CELL
  {
    GrownOk(EMPTY_LINE, sx, bg);
  }

  lemma BareOk(l: Line)
    requires LineOk(l)
    ensures LineOk(Bare(l))
  {
    assert forall i :: Owns(Bare(l), {}, i) <==> Owns(l, {}, i);
  }

  /** `grid_empty_line`. */
  method PutEmptyLine(gd: Grid, y: nat, bg: Colour)
    requires gd.Ok() && y < |gd.linedata|
    modifies gd`linedata
    ensures gd.Ok() && gd.linedata == old(gd.linedata)[y := EmptyLine(gd.sx, bg)]
  {
    ghost var was := gd.linedata;
    gd.linedata := gd.linedata[y := EMPTY_LINE];
    if !ColourDefault(bg) {
      gd.ExpandLine(y, gd.sx, bg);
      GrownOk(EMPTY_LINE, gd.sx, bg);
    }
    assert gd.linedata == was[y := EmptyLine(gd.sx, bg)];
  }

  /** Line `y`, if there is one, loses its WRAPPED flag. */
  method DropWrap(gd: Grid, y: int)
    requires gd.Ok() && y < |gd.linedata|
    modifies gd`linedata
    ensures gd.Ok() && |gd.linedata| == |old(gd.linedata)|
    ensures forall i :: 0 <= i < |gd.linedata| ==>
              gd.linedata[i] == if i == y then Bare(old(gd.linedata)[i]) else old(gd.linedata)[i]
  {
    if y >= 0 {
      BareOk(gd.linedata[y]);
      gd.linedata := gd.linedata[y := Bare(gd.linedata[y])];
    }
  }

  /** What `grid_clear_lines` leaves on line `i`. */
  function ClearedLine(was: seq<Line>, sx: nat, py: nat, ny: nat, bg: Colour, i: nat): Line
    requires i < |was|
  {
    if py <= i < U32(py + ny) then EmptyLine(sx, bg) else if i == py - 1 then Bare(was[i]) else was[i]
  }

  method ClearLines(gd: Grid, py: nat, ny: nat, bg: Colour)
    requires Fits(gd) && py < 0x1_0000_0000 && ny < 0x1_0000_0000
    modifies gd`linedata
    ensures Fits(gd) && |gd.linedata| == |old(gd.linedata)|
    ensures ny == 0 || py >= |gd.linedata| || U32(py + ny - 1) >= |gd.linedata| ==> gd.linedata == old(gd.linedata)
    ensures ny != 0 && py < |gd.linedata| && U32(py + ny - 1) < |gd.linedata| ==>
      forall i :: 0 <= i < |gd.linedata| ==> gd.linedata[i] == ClearedLine(old(gd.linedata), gd.sx, py, ny, bg, i)
  {
    if ny == 0 || py >= gd.hsize + gd.sy || U32(py + ny - 1) >= gd.hsize + gd.sy {
      return;
    }
    ghost var was := gd.linedata;
    var yy := py;
    while yy < U32(py + ny)
      invariant py <= yy && (yy == py || yy <= U32(py + ny)) && gd.Ok() && |gd.linedata| == |was|
      invariant forall i :: 0 <= i < |was| ==> gd.linedata[i] == if py <= i < yy then EmptyLine(gd.sx, bg) else was[i]
      decreases U32(py + ny) - yy
    {
      PutEmptyLine(gd, yy, bg);
      yy := yy + 1;
    }
    if py != 0 {
      DropWrap(gd, py - 1);
    }
  }

  /** What `grid_move_lines` leaves on line `i`. */
  function MovedLine(was: seq<Line>, sx: nat, dy: nat, py: nat, ny: nat, bg: Colour, i: nat): Line
    requires i < |was| && py + ny <= |was|
  {
    if dy <= i < dy + ny then
      var from := i - dy + py;
      if from == dy - 1 || (i == py - 1 && py >= dy + ny) then Bare(was[from]) else was[from]
    else if py <= i < py + ny then EmptyLine(sx, bg)
    else if i == dy - 1 || (i == py - 1 && (py < dy || py >= dy + ny)) then Bare(was[i])
    else was[i]
  }

  method MoveLines(gd: Grid, dy: nat, py: nat, ny: nat, bg: Colour)
    requires Fits(gd) && dy < 0x8000_0000 && py < 0x8000_0000 && ny < 0x8000_0000
    modifies gd`linedata
    ensures Fits(gd) && |gd.linedata| == |old(gd.linedata)|
    ensures ny == 0 || py == dy || py + ny > |gd.linedata| || dy + ny > |gd.linedata| ==>
              gd.linedata == old(gd.linedata)
    ensures ny != 0 && py != dy && py + ny <= |gd.linedata| && dy + ny <= |gd.linedata| ==>
      forall i :: 0 <= i < |gd.linedata| ==> gd.linedata[i] == MovedLine(old(gd.linedata), gd.sx, dy, py, ny, bg, i)
  {
    hide OkExcept, EmptyLine;
    if ny == 0 || py == dy {
      return;
    }
    var total := gd.hsize + gd.sy;
    if py >= total || U32(py + ny - 1) >= total || dy >= total || U32(dy + ny - 1) >= total {
      return;
    }
    ghost var was := gd.linedata;
    DropWrap(gd, dy - 1);
    ghost var dropped := gd.linedata;
    gd.linedata := Memmove(gd.linedata, dy, py, ny);
    ghost var moved := gd.linedata;
    var yy := py;
    while yy < py + ny
      invariant py <= yy <= py + ny && gd.Ok() && |gd.linedata| == |was|
      invariant forall i :: 0 <= i < |was| ==>
        gd.linedata[i] == if py <= i < yy && !(dy <= i < dy + ny) then EmptyLine(gd.sx, bg) else moved[i]
    {
      if yy < dy || yy >= dy + ny {
        PutEmptyLine(gd, yy, bg);
      }
      yy := yy + 1;
    }
    ghost var wiped := gd.linedata;
    if py != 0 && (py < dy || py >= dy + ny) {
      DropWrap(gd, py - 1);
    }
    EmptyLineOk(gd.sx, bg);
    forall i | 0 <= i < |was| ensures gd.linedata[i] == MovedLine(was, gd.sx, dy, py, ny, bg, i) {
      assert dy <= i < dy + ny ==> moved[i] == dropped[i - dy + py];
    }
  }

  /** Inside the lines `top` to `bot` the grid `now` holds the list `region`, but for the WRAPPED flags of the
    * lines in `cut`; outside it is the old grid, except that the line above the region has no such flag. */
  ghost predicate RegionIs(was: seq<Line>, now: seq<Line>, top: nat, bot: nat, region: seq<Line>, cut: set<int>) {
    && |now| == |was| && bot < |was| && top <= bot && |region| == bot + 1 - top
    && (forall i :: top <= i <= bot ==> now[i] == if i in cut then Bare(region[i - top]) else region[i - top])
    && (forall i :: 0 <= i < |was| && !(top - 1 <= i <= bot) ==> now[i] == was[i])
    && (top > 0 ==> now[top - 1] == Bare(was[top - 1]))
  }

  /** The flags that are cleared when `n` lines are inserted, `kept` lines staying in the region. */
  function InsertCut(top: nat, n: nat, kept: nat): set<int> {
    {top + 2 * n - 1} + if n == kept then {} else {top + kept - 1}
  }

  /** And when lines are deleted: that of the last line kept. */
  function DeleteCut(top: nat, kept: nat): set<int> {
    {top + kept - 1}
  }

  function ScrollUpCut(top: nat, bot: nat): set<int> {
    if bot == top + 1 then {top} else {}
  }

  function ScrollDownCut(top: nat): set<int> {
    {top + 1}
  }

  function Blank(n: nat, sx: nat, bg: Colour): seq<Line> {
    seq(n, _ => EmptyLine(sx, bg))
  }

  /** A list with `n` blank lines put in at the front, the last `n` lines falling off. */
  function Inserted(region: seq<Line>, n: nat, blank: seq<Line>): seq<Line>
    requires n <= |region|
  {
    blank + region[..|region| - n]
  }

  /** A list without its first `n` lines, blank lines filling up the end. */
  function Deleted(region: seq<Line>, n: nat, blank: seq<Line>): seq<Line>
    requires n <= |region|
  {
    region[n..] + blank
  }

  lemma InsertedAt(was: seq<Line>, top: nat, bot: nat, n: nat, sx: nat, bg: Colour, k: nat)
    requires top <= bot < |was| && n <= bot + 1 - top && k < bot + 1 - top
    ensures var region := Inserted(was[top..bot + 1], n, Blank(n, sx, bg));
            && |region| == bot + 1 - top
            && region[k] == if k < n then EmptyLine(sx, bg) else was[top + k - n]
  {
    hide EmptyLine;
    var lines, blank := was[top..bot + 1], Blank(n, sx, bg);
    if k >= n {
      assert lines[k - n] == was[top + k - n];
      assert (blank + lines[..|lines| - n])[k] == lines[..|lines| - n][k - n];
    }
  }

  lemma DeletedAt(was: seq<Line>, top: nat, bot: nat, n: nat, sx: nat, bg: Colour, k: nat)
    requires top <= bot < |was| && n <= bot + 1 - top && k < bot + 1 - top
    ensures var region := Deleted(was[top..bot + 1], n, Blank(n, sx, bg));
            && |region| == bot + 1 - top
            && region[k] == if k < bot + 1 - top - n then was[top + k + n] else EmptyLine(sx, bg)
  {
    hide EmptyLine;
    var lines, blank := was[top..bot + 1], Blank(n, sx, bg);
    if k < |lines| - n {
      assert (lines[n..] + blank)[k] == lines[n..][k];
      assert lines[k + n] == was[top + k + n];
    }
  }

  lemma Wrapped(x: nat)
    requires x < 0x8000_0000
    ensures U32(x + 0x1_0000_0000) == x
  {
  }

  lemma NegativeCount(ny: nat, ny2: nat)
    requires ny < ny2 < 0x8000_0000
    ensures U32(ny - ny2) == ny - ny2 + 0x1_0000_0000
  {
    assert (ny - ny2) % 0x1_0000_0000 == (ny - ny2 + 0x1_0000_0000) % 0x1_0000_0000;
  }

  /** A negative count of lines to clear wraps around and clears none of them. */
  lemma ClearWraps(mid: seq<Line>, sx: nat, bg: Colour, py: nat, ny: nat, ny2: nat, i: nat)
    requires i < |mid| < 0x8000_0000 && ny2 <= py && py < 0x8000_0000 && py - ny2 + ny < 0x8000_0000
    ensures ClearedLine(mid, sx, py, U32(ny - ny2), bg, i) ==
              if py <= i < py - ny2 + ny then EmptyLine(sx, bg) else if i == py - 1 then Bare(mid[i]) else mid[i]
  {
    hide EmptyLine;
    if ny < ny2 {
      NegativeCount(ny, ny2);
      assert py + U32(ny - ny2) == (py - ny2 + ny) + 0x1_0000_0000;
      Wrapped(py - ny2 + ny);
    }
  }

  /** Line `i` after the move and the clear of a region operation that keeps `ny2` lines. */
  function RegionLine(was: seq<Line>, sx: nat, bg: Colour, dy: nat, py: nat, ny: nat, ny2: nat, top: nat, i: nat): Line
    requires i < |was| && py + ny2 <= |was|
  {
    var mid := if ny2 == 0 then was[i] else MovedLine(was, sx, dy, py, ny2, bg, i);
    if ny == ny2 then mid
    else if top + ny2 <= i < top + ny then EmptyLine(sx, bg)
    else if i == top + ny2 - 1 then Bare(mid)
    else mid
  }

  lemma InsertedLines(was: seq<Line>, now: seq<Line>, sx: nat, bg: Colour, top: nat, bot: nat, ny: nat, ny2: nat)
    requires top <= bot < |was| == |now| && 1 <= ny && ny + ny2 == bot + 1 - top
    requires forall i :: 0 <= i < |was| ==> now[i] == RegionLine(was, sx, bg, top + ny, top, ny, ny2, top, i)
    ensures RegionIs(was, now, top, bot, Inserted(was[top..bot + 1], ny, Blank(ny, sx, bg)), InsertCut(top, ny, ny2))
  {
    hide EmptyLine, Inserted, Blank;
    EmptyLineOk(sx, bg);
    var region := Inserted(was[top..bot + 1], ny, Blank(ny, sx, bg));
    InsertedAt(was, top, bot, ny, sx, bg, 0);
    forall i | top <= i <= bot
      ensures now[i] == if i in InsertCut(top, ny, ny2) then Bare(region[i - top]) else region[i - top]
    {
      InsertedAt(was, top, bot, ny, sx, bg, i - top);
    }
  }

  lemma DeletedLines(was: seq<Line>, now: seq<Line>, sx: nat, bg: Colour, top: nat, bot: nat, ny: nat, ny2: nat)
    requires top <= bot < |was| == |now| && 1 <= ny && ny + ny2 == bot + 1 - top
    requires forall i :: 0 <= i < |was| ==> now[i] == RegionLine(was, sx, bg, top, top + ny, ny, ny2, top, i)
    ensures RegionIs(was, now, top, bot, Deleted(was[top..bot + 1], ny, Blank(ny, sx, bg)), DeleteCut(top, ny2))
  {
    hide EmptyLine, Deleted, Blank;
    EmptyLineOk(sx, bg);
    var region := Deleted(was[top..bot + 1], ny, Blank(ny, sx, bg));
    DeletedAt(was, top, bot, ny, sx, bg, 0);
    forall i | top <= i <= bot
      ensures now[i] == if i in DeleteCut(top, ny2) then Bare(region[i - top]) else region[i - top]
    {
      DeletedAt(was, top, bot, ny, sx, bg, i - top);
    }
  }

  /** A blank cell in background `bg`, as far as a cleared cell can hold it. */
  predicate BlankIn(c: Cell, bg: Colour) {
    c == ClearImage(bg, true) || c == ClearImage(bg, false) || (ColourDefault(bg) && c == DEFAULT_CELL)
  }

  /** Of line `was` the columns from `px` on, `nx` of them, have become blank, and nothing else changed; to
    * the default background only columns of the screen are cleared. */
  ghost predicate Wiped(was: Line, now: Line, sx: nat, px: nat, nx: nat, bg: Colour) {
    && now.cellused == was.cellused && now.wrapped == was.wrapped && now.dead == was.dead
    && (forall k: nat :: px <= k < px + nx && k < sx ==> BlankIn(Norm(Read(now, k)), bg))
    && (forall k: nat :: px <= k < px + nx && k >= sx && !ColourDefault(bg) ==> BlankIn(Norm(Read(now, k)), bg))
    && (forall k: nat :: px <= k < px + nx && k >= sx && ColourDefault(bg) ==> Norm(Read(now, k)) == Norm(Read(was, k)))
    && (forall k: nat :: !(px <= k < px + nx) ==> Norm(Read(now, k)) == Norm(Read(was, k)))
  }

  /** Clearing as far as cells were allocated blanks the whole span: what lies beyond is blank already. */
  lemma SpanIsWiped(was: Line, now: Line, sx: nat, px: nat, nx: nat, bg: Colour)
    requires SpanCleared(was, now, px, ClearEnd(was, sx, px, nx, bg), bg)
    ensures Wiped(was, now, sx, px, nx, bg)
  {
    hide ClearImage;
    var end := ClearEnd(was, sx, px, nx, bg);
    forall k: nat | px <= k < px + nx && k < sx ensures BlankIn(Norm(Read(now, k)), bg) {
      if k >= end {
        assert Norm(Read(now, k)) == Norm(Read(was, k));
        assert k >= |was.celldata|;
      }
    }
  }

  /** `grid_clear`: whole lines are freed, anything else is cleared cell by cell. */
  method Clear(gd: Grid, px: nat, py: nat, nx: nat, ny: nat, bg: Colour)
    requires Fits(gd) && py < 0x1_0000_0000 && ny < 0x1_0000_0000
    modifies gd`linedata
    ensures Fits(gd) && |gd.linedata| == |old(gd.linedata)|
    ensures nx == 0 || ny == 0 || py >= |gd.linedata| || U32(py + ny - 1) >= |gd.linedata| ==>
              gd.linedata == old(gd.linedata)
    ensures nx != 0 && ny != 0 && py < |gd.linedata| && U32(py + ny - 1) < |gd.linedata| ==>
      if px == 0 && nx == gd.sx then
        forall i :: 0 <= i < |gd.linedata| ==> gd.linedata[i] == ClearedLine(old(gd.linedata), gd.sx, py, ny, bg, i)
      else
        forall i :: 0 <= i < |gd.linedata| ==>
          if py <= i < U32(py + ny) then Wiped(old(gd.linedata)[i], gd.linedata[i], gd.sx, px, nx, bg)
          else gd.linedata[i] == old(gd.linedata)[i]
    ensures nx != 0 && ny != 0 && py < |gd.linedata| && U32(py + ny - 1) < |gd.linedata| ==>
      forall i, k: nat :: py <= i < U32(py + ny) && px <= k < px + nx && k < gd.sx ==>
        BlankIn(Norm(Read(gd.linedata[i], k)), bg)
  {
    hide OkExcept, EmptyLine, Wiped, SpanCleared, BlankIn;
    EmptyIsBlank(gd.sx, bg);
    if nx == 0 || ny == 0 {
      return;
    }
    if px == 0 && nx == gd.sx {
      ClearLines(gd, py, ny, bg);
      return;
    }
    if py >= gd.hsize + gd.sy || U32(py + ny - 1) >= gd.hsize + gd.sy {
      return;
    }
    ghost var was := gd.linedata;
    var yy := py;
    while yy < U32(py + ny)
      invariant py <= yy && (yy == py || yy <= U32(py + ny)) && gd.Ok() && |gd.linedata| == |was|
      invariant forall i :: 0 <= i < |was| ==>
        if py <= i < yy then Wiped(was[i], gd.linedata[i], gd.sx, px, nx, bg)
        else gd.linedata[i] == was[i]
      decreases U32(py + ny) - yy
    {
      gd.ClearSpan(yy, px, ClearEnd(gd.linedata[yy], gd.sx, px, nx, bg), bg);
      SpanIsWiped(was[yy], gd.linedata[yy], gd.sx, px, nx, bg);
      yy := yy + 1;
    }
    forall i | py <= i < U32(py + ny)
      ensures forall k: nat :: px <= k < px + nx && k < gd.sx ==> BlankIn(Norm(Read(gd.linedata[i], k)), bg)
    {
      WipedIsBlank(was[i], gd.linedata[i], gd.sx, px, nx, bg);
    }
  }

  lemma EmptyIsBlank(sx: nat, bg: Colour)
    ensures forall k: nat :: k < sx ==> BlankIn(Norm(Read(EmptyLine(sx, bg), k)), bg)
  {
    hide EmptyLine, ClearImage;
    EmptyLineOk(sx, bg);
  }

  lemma WipedIsBlank(was: Line, now: Line, sx: nat, px: nat, nx: nat, bg: Colour)
    requires Wiped(was, now, sx, px, nx, bg)
    ensures forall k: nat :: px <= k < px + nx && k < sx ==> BlankIn(Norm(Read(now, k)), bg)
  {
    hide BlankIn;
  }

  /** Inserting lines in a scroll region is list insertion of blank lines, for every count up to the
    * height of the region. */
  method InsertLinesRegion(gd: Grid, rlower: nat, py: nat, ny: nat, bg: Colour)
    requires Fits(gd) && gd.sx >= 1 && py <= rlower < gd.sy && 1 <= ny <= rlower + 1 - py
    modifies gd`linedata
    ensures Fits(gd)
    ensures var top, bot := gd.hsize + py, gd.hsize + rlower;
            RegionIs(old(gd.linedata), gd.linedata, top, bot,
                     Inserted(old(gd.linedata)[top..bot + 1], ny, Blank(ny, gd.sx, bg)),
                     InsertCut(top, ny, bot + 1 - top - ny))
  {
    hide OkExcept, EmptyLine, MovedLine, ClearedLine, RegionIs;
    ghost var was := gd.linedata;
    var lower := U32(gd.hsize + rlower);
    var top := U32(gd.hsize + py);
    var ny2 := U32(lower + 1 - top - ny);
    assert ny2 == lower + 1 - top - ny;
    MoveLines(gd, U32(lower + 1 - ny2), top, ny2, bg);
    ghost var mid := gd.linedata;
    InRange(top + ny2, ny, ny2, |was|);
    Clear(gd, 0, U32(top + ny2), gd.sx, U32(ny - ny2), bg);
    forall i | 0 <= i < |was|
      ensures gd.linedata[i] == RegionLine(was, gd.sx, bg, top + ny, top, ny, ny2, top, i)
    {
      ClearWraps(mid, gd.sx, bg, top + ny2, ny, ny2, i);
    }
    InsertedLines(was, gd.linedata, gd.sx, bg, top, lower, ny, ny2);
  }

  /** The clear after a region move always finds its lines on the grid, wrapped around or not. */
  lemma InRange(py: nat, ny: nat, ny2: nat, total: nat)
    requires ny2 <= py && py - ny2 + ny <= total < 0x8000_0000 && py <= total && 1 <= ny
    ensures ny != ny2 ==> U32(ny - ny2) != 0 && U32(py + U32(ny - ny2) - 1) == py - ny2 + ny - 1 < total
    ensures ny == ny2 ==> U32(ny - ny2) == 0
    ensures U32(py) == py
  {
    if ny < ny2 {
      NegativeCount(ny, ny2);
      assert py + U32(ny - ny2) - 1 == (py - ny2 + ny - 1) + 0x1_0000_0000;
      Wrapped(py - ny2 + ny - 1);
    }
  }

  /** Deleting lines in a scroll region is list deletion. */
  method DeleteLinesRegion(gd: Grid, rlower: nat, py: nat, ny: nat, bg: Colour)
    requires Fits(gd) && gd.sx >= 1 && py <= rlower < gd.sy && 1 <= ny <= rlower + 1 - py
    modifies gd`linedata
    ensures Fits(gd)
    ensures var top, bot := gd.hsize + py, gd.hsize + rlower;
            RegionIs(old(gd.linedata), gd.linedata, top, bot,
                     Deleted(old(gd.linedata)[top..bot + 1], ny, Blank(ny, gd.sx, bg)),
                     DeleteCut(top, bot + 1 - top - ny))
  {
    hide OkExcept, EmptyLine, MovedLine, ClearedLine, RegionIs;
    ghost var was := gd.linedata;
    var lower := U32(gd.hsize + rlower);
    var top := U32(gd.hsize + py);
    var ny2 := U32(lower + 1 - top - ny);
    assert ny2 == lower + 1 - top - ny;
    MoveLines(gd, top, top + ny, ny2, bg);
    ghost var mid := gd.linedata;
    InRange(top + ny2, ny, ny2, |was|);
    Clear(gd, 0, U32(top + ny2), gd.sx, U32(ny - ny2), bg);
    forall i | 0 <= i < |was|
      ensures gd.linedata[i] == RegionLine(was, gd.sx, bg, top, top + ny, ny, ny2, top, i)
    {
      ClearWraps(mid, gd.sx, bg, top + ny2, ny, ny2, i);
    }
    DeletedLines(was, gd.linedata, gd.sx, bg, top, lower, ny, ny2);
  }

  /** Deleting lines down to the bottom of the screen. */
  method DeleteLines(gd: Grid, py: nat, ny: nat, bg: Colour)
    requires Fits(gd) && gd.sx >= 1 && 1 <= ny && py + ny <= gd.sy
    modifies gd`linedata
    ensures Fits(gd)
    ensures var top, bot := gd.hsize + py, gd.hsize + gd.sy - 1;
            RegionIs(old(gd.linedata), gd.linedata, top, bot,
                     Deleted(old(gd.linedata)[top..bot + 1], ny, Blank(ny, gd.sx, bg)),
                     DeleteCut(top, bot + 1 - top - ny))
  {
    hide OkExcept, EmptyLine, MovedLine, ClearedLine, RegionIs;
    ghost var was := gd.linedata;
    var top, sy := gd.hsize + py, gd.hsize + gd.sy;
    MoveLines(gd, top, top + ny, sy - top - ny, bg);
    ghost var mid := gd.linedata;
    Clear(gd, 0, sy - ny, gd.sx, ny, bg);
    forall i | 0 <= i < |was|
      ensures gd.linedata[i] == BelowLine(was, gd.sx, bg, top, sy - 1, ny, i)
    {
      ClearedBelow(mid, gd.sx, sy - ny, ny, bg, i);
    }
    DeletedBelow(was, gd.linedata, gd.sx, bg, top, sy - 1, ny);
  }

  lemma ClearedBelow(mid: seq<Line>, sx: nat, py: nat, ny: nat, bg: Colour, i: nat)
    requires i < |mid| == py + ny < 0x8000_0000
    ensures ClearedLine(mid, sx, py, ny, bg, i) ==
              if py <= i then EmptyLine(sx, bg) else if i == py - 1 then Bare(mid[i]) else mid[i]
  {
    hide EmptyLine;
  }

  /** Line `i` after the move and the clear of `DeleteLines`. */
  function BelowLine(was: seq<Line>, sx: nat, bg: Colour, top: nat, bot: nat, ny: nat, i: nat): Line
    requires i < |was| && top + ny <= bot + 1 <= |was|
  {
    var ny2 := bot + 1 - top - ny;
    var mid := if ny2 == 0 then was[i] else MovedLine(was, sx, top, top + ny, ny2, bg, i);
    if top + ny2 <= i then EmptyLine(sx, bg) else if i == top + ny2 - 1 then Bare(mid) else mid
  }

  lemma BelowAt(was: seq<Line>, sx: nat, bg: Colour, top: nat, bot: nat, ny: nat, i: nat)
    requires i < |was| == bot + 1 && top + ny <= bot + 1 && 1 <= ny
    ensures var l := BelowLine(was, sx, bg, top, bot, ny, i);
            && (i + 1 < top ==> l == was[i])
            && (i + 1 == top ==> l == Bare(was[i]))
            && (top <= i < bot - ny ==> l == was[i + ny])
            && (top <= i == bot - ny ==> l == Bare(was[i + ny]))
            && (i >= top && i > bot - ny ==> l == EmptyLine(sx, bg))
  {
    hide EmptyLine;
  }

  lemma DeletedBelow(was: seq<Line>, now: seq<Line>, sx: nat, bg: Colour, top: nat, bot: nat, ny: nat)
    requires top + ny <= bot + 1 == |was| == |now| && 1 <= ny
    requires forall i :: 0 <= i < |was| ==> now[i] == BelowLine(was, sx, bg, top, bot, ny, i)
    ensures RegionIs(was, now, top, bot, Deleted(was[top..bot + 1], ny, Blank(ny, sx, bg)), DeleteCut(top, bot + 1 - top - ny))
  {
    hide EmptyLine, Deleted, Blank, BelowLine;
    var region := Deleted(was[top..bot + 1], ny, Blank(ny, sx, bg));
    DeletedAt(was, top, bot, ny, sx, bg, 0);
    forall i | 0 <= i < |was|
      ensures i < top - 1 ==> now[i] == was[i]
      ensures i == top - 1 ==> now[i] == Bare(was[i])
      ensures top <= i ==> now[i] == if i == bot - ny then Bare(region[i - top]) else region[i - top]
    {
      BelowAt(was, sx, bg, top, bot, ny, i);
      if top <= i {
        DeletedAt(was, top, bot, ny, sx, bg, i - top);
      }
    }
  }

  // ---- WRAPPED flags: a line should lose its flag exactly if it no longer stands before what followed it ----

  /** Where line `i` comes from when `n` lines are inserted in a region; -1 is a blank line. */
  function InsertedFrom(top: nat, bot: nat, n: nat, i: nat): int {
    if i < top || i > bot then i else if i < top + n then -1 else i - n
  }

  function DeletedFrom(top: nat, bot: nat, n: nat, i: nat): int {
    if i < top || i > bot then i else if i <= bot - n then i + n else -1
  }

  /** A line from `from` stands before one from `next`. */
  predicate CutApart(from: int, next: int) {
    from >= 0 && next != from + 1
  }

  ghost predicate InsertFlagsRight(top: nat, bot: nat, n: nat, cut: set<int>) {
    forall i: nat :: top + n <= i <= bot ==>
      (i in cut <==> CutApart(InsertedFrom(top, bot, n, i), InsertedFrom(top, bot, n, i + 1)))
  }

  ghost predicate DeleteFlagsRight(top: nat, bot: nat, n: nat, cut: set<int>) {
    forall i: nat :: top <= i <= bot - n ==>
      (i in cut <==> CutApart(DeletedFrom(top, bot, n, i), DeletedFrom(top, bot, n, i + 1)))
  }

  /** The line above the region is always cut off, and always loses its flag. */
  lemma AboveIsCut(top: nat, bot: nat, n: nat)
    requires 0 < top <= bot && 1 <= n
    ensures CutApart(InsertedFrom(top, bot, n, top - 1), InsertedFrom(top, bot, n, top))
    ensures CutApart(DeletedFrom(top, bot, n, top - 1), DeletedFrom(top, bot, n, top))
  {
  }

  /** Deleting lines leaves exactly the right flags. */
  lemma DeleteFlags(top: nat, bot: nat, n: nat)
    requires top <= bot && 1 <= n <= bot + 1 - top
    ensures DeleteFlagsRight(top, bot, n, DeleteCut(top, bot + 1 - top - n))
  {
  }

  /** Inserting lines does so exactly if as many lines stay as are inserted, or none: otherwise a line inside
    * the region loses its flag, and the last one, cut off from its continuation, keeps it. */
  lemma InsertFlags(top: nat, bot: nat, n: nat)
    requires top <= bot && 1 <= n <= bot + 1 - top
    ensures var kept := bot + 1 - top - n;
            InsertFlagsRight(top, bot, n, InsertCut(top, n, kept)) <==> n == kept || kept == 0
  {
    var kept := bot + 1 - top - n;
    if n != kept && kept > 0 {
      assert CutApart(InsertedFrom(top, bot, n, bot), InsertedFrom(top, bot, n, bot + 1));
      assert bot !in InsertCut(top, n, kept);
    }
  }

  /** Scrolling a region leaves the right flags exactly if the region has two lines. */
  lemma ScrollFlags(top: nat, bot: nat)
    requires top < bot
    ensures DeleteFlagsRight(top, bot, 1, ScrollUpCut(top, bot)) <==> bot == top + 1
    ensures InsertFlagsRight(top, bot, 1, ScrollDownCut(top)) <==> bot == top + 1
  {
    if bot > top + 1 {
      assert CutApart(DeletedFrom(top, bot, 1, bot - 1), DeletedFrom(top, bot, 1, bot));
      assert CutApart(InsertedFrom(top, bot, 1, bot), InsertedFrom(top, bot, 1, bot + 1));
      assert bot !in ScrollDownCut(top) && bot - 1 !in ScrollUpCut(top, bot);
    }
  }

  /** Scrolling a region up on a grid without history deletes its first line. */
  method ScrollRegionUp(gd: Grid, rupper: nat, rlower: nat, bg: Colour)
    requires Fits(gd) && rupper < rlower < gd.sy
    modifies gd`linedata
    ensures Fits(gd)
    ensures var top, bot := gd.hsize + rupper, gd.hsize + rlower;
            RegionIs(old(gd.linedata), gd.linedata, top, bot,
                     Deleted(old(gd.linedata)[top..bot + 1], 1, Blank(1, gd.sx, bg)), ScrollUpCut(top, bot))
  {
    hide OkExcept, EmptyLine, MovedLine, RegionIs;
    var top, bot := gd.hsize + rupper, gd.hsize + rlower;
    ghost var was := gd.linedata;
    MoveLines(gd, top, top + 1, bot - top, bg);
    ScrolledUp(was, gd.linedata, gd.sx, bg, top, bot);
  }

  lemma ScrolledUp(was: seq<Line>, now: seq<Line>, sx: nat, bg: Colour, top: nat, bot: nat)
    requires top < bot < |was| == |now|
    requires forall i :: 0 <= i < |was| ==> now[i] == MovedLine(was, sx, top, top + 1, bot - top, bg, i)
    ensures RegionIs(was, now, top, bot, Deleted(was[top..bot + 1], 1, Blank(1, sx, bg)), ScrollUpCut(top, bot))
  {
    hide EmptyLine, Deleted, Blank;
    EmptyLineOk(sx, bg);
    var region := Deleted(was[top..bot + 1], 1, Blank(1, sx, bg));
    DeletedAt(was, top, bot, 1, sx, bg, 0);
    forall i | top <= i <= bot
      ensures now[i] == if i in ScrollUpCut(top, bot) then Bare(region[i - top]) else region[i - top]
    {
      DeletedAt(was, top, bot, 1, sx, bg, i - top);
    }
  }

  lemma ScrolledDown(was: seq<Line>, now: seq<Line>, sx: nat, bg: Colour, top: nat, bot: nat)
    requires top < bot < |was| == |now|
    requires forall i :: 0 <= i < |was| ==> now[i] == MovedLine(was, sx, top + 1, top, bot - top, bg, i)
    ensures RegionIs(was, now, top, bot, Inserted(was[top..bot + 1], 1, Blank(1, sx, bg)), ScrollDownCut(top))
  {
    hide EmptyLine, Inserted, Blank;
    EmptyLineOk(sx, bg);
    var region := Inserted(was[top..bot + 1], 1, Blank(1, sx, bg));
    InsertedAt(was, top, bot, 1, sx, bg, 0);
    forall i | top <= i <= bot
      ensures now[i] == if i in ScrollDownCut(top) then Bare(region[i - top]) else region[i - top]
    {
      InsertedAt(was, top, bot, 1, sx, bg, i - top);
    }
  }

  /** Scrolling a region down inserts one blank line at its top. */
  method ScrollRegionDown(gd: Grid, rupper: nat, rlower: nat, bg: Colour)
    requires Fits(gd) && rupper < rlower < gd.sy
    modifies gd`linedata
    ensures Fits(gd)
    ensures var top, bot := gd.hsize + rupper, gd.hsize + rlower;
            RegionIs(old(gd.linedata), gd.linedata, top, bot,
                     Inserted(old(gd.linedata)[top..bot + 1], 1, Blank(1, gd.sx, bg)), ScrollDownCut(top))
  {
    hide OkExcept, EmptyLine, MovedLine, RegionIs;
    var top, bot := gd.hsize + rupper, gd.hsize + rlower;
    ghost var was := gd.linedata;
    MoveLines(gd, top + 1, top, bot - top, bg);
    ScrolledDown(was, gd.linedata, gd.sx, bg, top, bot);
  }

  /** Line `now` is line `was` with `nx` cells deleted at `px` and blanks at the right edge. */
  ghost predicate CellsDeleted(was: Line, now: Line, sx: nat, px: nat, nx: nat, bg: Colour) {
    forall k: nat :: k < sx ==>
      if k < px then Norm(Read(now, k)) == Norm(Read(was, k))
      else if k < sx - nx then Norm(Read(now, k)) == Norm(Read(was, k + nx))
      else BlankIn(Norm(Read(now, k)), bg)
  }

  lemma DeleteAll(was: Line, sx: nat, nx: nat, bg: Colour)
    requires nx == sx
    ensures CellsDeleted(was, EmptyLine(sx, bg), sx, 0, nx, bg)
  {
    hide EmptyLine, ClearImage;
    EmptyLineOk(sx, bg);
    var now := EmptyLine(sx, bg);
    forall k: nat | k < sx ensures BlankIn(Norm(Read(now, k)), bg) {
      assert Norm(Read(now, k)) == if !ColourDefault(bg) then ClearImage(bg, false) else DEFAULT_CELL;
    }
  }

  lemma MovedAt(was: Line, mid: Line, sx: nat, px: nat, nx: nat, bg: Colour, k: nat)
    requires px + nx <= sx && nx >= 1 && k < sx - nx
    requires if px + nx == sx then mid == was else CellsMoved(was, mid, px, px + nx, sx - px - nx, bg)
    ensures Norm(Read(mid, k)) == if k < px then Norm(Read(was, k)) else Norm(Read(was, k + nx))
  {
    hide ClearImage;
  }

  lemma DeleteSome(was: Line, mid: Line, now: Line, sx: nat, px: nat, nx: nat, bg: Colour)
    requires px + nx <= sx && nx >= 1
    requires if px + nx == sx then mid == was else CellsMoved(was, mid, px, px + nx, sx - px - nx, bg)
    requires Wiped(mid, now, sx, sx - nx, nx, bg)
    ensures CellsDeleted(was, now, sx, px, nx, bg)
  {
    hide CellsMoved, ClearImage;
    forall k: nat | k < sx
      ensures k < px ==> Norm(Read(now, k)) == Norm(Read(was, k))
      ensures px <= k < sx - nx ==> Norm(Read(now, k)) == Norm(Read(was, k + nx))
      ensures sx - nx <= k ==> BlankIn(Norm(Read(now, k)), bg)
    {
      if k < sx - nx {
        MovedAt(was, mid, sx, px, nx, bg, k);
      }
    }
  }

  /** Deleting characters is list deletion within the columns of the screen; on the whole width of a
    * line it also ends the logical line above. */
  method DeleteCells(gd: Grid, px: nat, py: nat, nx: nat, bg: Colour)
    requires Fits(gd) && py < gd.sy && 1 <= nx && px + nx <= gd.sx
    modifies gd`linedata
    ensures Fits(gd) && |gd.linedata| == |old(gd.linedata)|
    ensures CellsDeleted(old(gd.linedata)[gd.hsize + py], gd.linedata[gd.hsize + py], gd.sx, px, nx, bg)
    ensures forall i :: 0 <= i < |gd.linedata| && i != gd.hsize + py ==>
              gd.linedata[i] == if nx == gd.sx && i == gd.hsize + py - 1 then Bare(old(gd.linedata)[i])
                                else old(gd.linedata)[i]
  {
    hide OkExcept, EmptyLine, CellsDeleted, Wiped, CellsMoved, BlankIn;
    var y := gd.hsize + py;
    ghost var was := gd.linedata[y];
    gd.MoveCells(px, px + nx, y, gd.sx - px - nx, bg);
    ghost var mid := gd.linedata[y];
    Clear(gd, gd.sx - nx, y, nx, 1, bg);
    if nx == gd.sx {
      DeleteAll(was, gd.sx, nx, bg);
    } else {
      DeleteSome(was, mid, gd.linedata[y], gd.sx, px, nx, bg);
    }
  }

  // ---- Insertion without a region ----

  /** How many of the `n` lines or columns opened by moving `kept` others are really blanked. */
  function Blanked(n: nat, kept: nat): (r: nat)
    ensures r <= n
  {
    if n < kept then n else kept
  }

  /** What `grid_view_insert_lines` leaves: where more lines are inserted than kept, the lines between keep what
    * they had. */
  function InsertedPartly(region: seq<Line>, n: nat, sx: nat, bg: Colour): seq<Line>
    requires n <= |region|
  {
    var blank := Blanked(n, |region| - n);
    Inserted(region, n, Blank(blank, sx, bg) + region[blank..n])
  }

  lemma InsertedPartlyAt(was: seq<Line>, top: nat, bot: nat, n: nat, sx: nat, bg: Colour, k: nat)
    requires top <= bot < |was| && n <= bot + 1 - top && k < bot + 1 - top
    ensures var region := InsertedPartly(was[top..bot + 1], n, sx, bg);
            && |region| == bot + 1 - top
            && region[k] == if k < Blanked(n, bot + 1 - top - n) then EmptyLine(sx, bg)
                            else if k < n then was[top + k] else was[top + k - n]
  {
    hide EmptyLine;
    var lines := was[top..bot + 1];
    var blank := Blanked(n, |lines| - n);
    var front := Blank(blank, sx, bg) + lines[blank..n];
    if k < n {
      assert (front + lines[..|lines| - n])[k] == front[k];
      if k >= blank { assert front[k] == lines[blank..n][k - blank] == lines[k] == was[top + k]; }
    } else {
      assert (front + lines[..|lines| - n])[k] == lines[..|lines| - n][k - n];
      assert lines[k - n] == was[top + k - n];
    }
  }

  /** Inserting lines above the bottom of the screen. */
  method InsertLines(gd: Grid, py: nat, ny: nat, bg: Colour)
    requires Fits(gd) && 1 <= ny && py + ny <= gd.sy
    modifies gd`linedata
    ensures Fits(gd)
    ensures py + ny == gd.sy ==> gd.linedata == old(gd.linedata)
    ensures py + ny < gd.sy ==>
              var top, bot := gd.hsize + py, gd.hsize + gd.sy - 1;
              RegionIs(old(gd.linedata), gd.linedata, top, bot,
                       InsertedPartly(old(gd.linedata)[top..bot + 1], ny, gd.sx, bg), {top + ny - 1, top + 2 * ny - 1})
  {
    hide OkExcept, EmptyLine, MovedLine, RegionIs, InsertedPartly;
    ghost var was := gd.linedata;
    var top, sy := gd.hsize + py, gd.hsize + gd.sy;
    MoveLines(gd, top + ny, top, sy - top - ny, bg);
    if py + ny < gd.sy {
      InsertedAbove(was, gd.linedata, gd.sx, bg, top, sy - 1, ny);
    }
  }

  lemma InsertedAbove(was: seq<Line>, now: seq<Line>, sx: nat, bg: Colour, top: nat, bot: nat, ny: nat)
    requires top + ny <= bot && bot + 1 == |was| == |now| && 1 <= ny
    requires forall i :: 0 <= i < |was| ==> now[i] == MovedLine(was, sx, top + ny, top, bot + 1 - top - ny, bg, i)
    ensures RegionIs(was, now, top, bot, InsertedPartly(was[top..bot + 1], ny, sx, bg), {top + ny - 1, top + 2 * ny - 1})
  {
    hide EmptyLine, InsertedPartly;
    EmptyLineOk(sx, bg);
    var region := InsertedPartly(was[top..bot + 1], ny, sx, bg);
    InsertedPartlyAt(was, top, bot, ny, sx, bg, 0);
    forall i | top <= i <= bot
      ensures now[i] == if i in {top + ny - 1, top + 2 * ny - 1} then Bare(region[i - top]) else region[i - top]
    {
      InsertedPartlyAt(was, top, bot, ny, sx, bg, i - top);
    }
  }

  /** This is list insertion of blank lines exactly if no more lines are inserted than kept, or the lines in
    * between happen to be blank. */
  lemma InsertLinesBlank(region: seq<Line>, n: nat, sx: nat, bg: Colour)
    requires n <= |region|
    ensures InsertedPartly(region, n, sx, bg) == Inserted(region, n, Blank(n, sx, bg))
       <==> forall k :: |region| - n <= k < n ==> region[k] == EmptyLine(sx, bg)
    ensures 2 * n <= |region| ==> InsertedPartly(region, n, sx, bg) == Inserted(region, n, Blank(n, sx, bg))
  {
    hide EmptyLine;
    var a, b := InsertedPartly(region, n, sx, bg), Inserted(region, n, Blank(n, sx, bg));
    var blank := Blanked(n, |region| - n);
    assert |a| == |b| == |region|;
    forall k | 0 <= k < |region|
      ensures b[k] == if k < n then EmptyLine(sx, bg) else region[k - n]
      ensures a[k] == if k < blank then EmptyLine(sx, bg) else if k < n then region[k] else region[k - n]
    {
    }
    if forall k :: |region| - n <= k < n ==> region[k] == EmptyLine(sx, bg) { assert a == b; }
    if a == b {
      forall k | |region| - n <= k < n ensures region[k] == EmptyLine(sx, bg) { assert a[k] == b[k]; }
    }
  }

  /** Line `now` is line `was` with `nx` columns opened at `px`, of which the first `blank` are blank; the others
    * keep what they had. */
  ghost predicate CellsInserted(was: Line, now: Line, sx: nat, px: nat, nx: nat, blank: nat, bg: Colour) {
    forall k: nat :: k < sx ==>
      if px <= k < px + blank then BlankIn(Norm(Read(now, k)), bg)
      else if k < px + nx then Norm(Read(now, k)) == Norm(Read(was, k))
      else Norm(Read(now, k)) == Norm(Read(was, k - nx))
  }

  /** Inserting characters: all `nx` columns are blank, as in list insertion, exactly if they are no more than
    * those that stay to the right of them, or the cursor is in the last column. */
  method InsertCells(gd: Grid, px: nat, py: nat, nx: nat, bg: Colour)
    requires Fits(gd) && py < gd.sy && 1 <= nx && px + nx <= gd.sx
    modifies gd`linedata
    ensures Fits(gd) && |gd.linedata| == |old(gd.linedata)|
    ensures forall i :: 0 <= i < |gd.linedata| && i != gd.hsize + py && !(gd.sx == 1 && i == gd.hsize + py - 1) ==>
              gd.linedata[i] == old(gd.linedata)[i]
    ensures var blank := if px == gd.sx - 1 then 1 else Blanked(nx, gd.sx - px - nx);
            && CellsInserted(old(gd.linedata)[gd.hsize + py], gd.linedata[gd.hsize + py], gd.sx, px, nx, blank, bg)
            && (blank == nx <==> px + 2 * nx <= gd.sx || px == gd.sx - 1)
  {
    hide OkExcept, EmptyLine, CellsInserted, Wiped, CellsMoved, BlankIn;
    var y := gd.hsize + py;
    ghost var was := gd.linedata[y];
    if px >= gd.sx - 1 {
      Clear(gd, px, y, 1, 1, bg);
      InsertLast(was, gd.linedata[y], gd.sx, px, bg);
    } else {
      gd.MoveCells(px + nx, px, y, gd.sx - px - nx, bg);
      InsertSome(was, gd.linedata[y], gd.sx, px, nx, bg);
    }
  }

  lemma InsertLast(was: Line, now: Line, sx: nat, px: nat, bg: Colour)
    requires sx == px + 1
    requires if px == 0 && sx == 1 then now == EmptyLine(sx, bg) else Wiped(was, now, sx, px, 1, bg)
    ensures CellsInserted(was, now, sx, px, 1, 1, bg)
  {
    hide EmptyLine, BlankIn;
    EmptyIsBlank(sx, bg);
  }

  lemma InsertSome(was: Line, now: Line, sx: nat, px: nat, nx: nat, bg: Colour)
    requires px + nx <= sx && nx >= 1
    requires if px + nx == sx then now == was else CellsMoved(was, now, px + nx, px, sx - px - nx, bg)
    ensures CellsInserted(was, now, sx, px, nx, Blanked(nx, sx - px - nx), bg)
  {
    hide ClearImage;
    forall k: nat | k < sx
      ensures px <= k < px + Blanked(nx, sx - px - nx) ==> BlankIn(Norm(Read(now, k)), bg)
      ensures !(px <= k < px + Blanked(nx, sx - px - nx)) && k < px + nx ==> Norm(Read(now, k)) == Norm(Read(was, k))
      ensures k >= px + nx ==> Norm(Read(now, k)) == Norm(Read(was, k - nx))
    {
    }
  }

  /** What one region operation does the other undoes, but for the lines that fell off the end. */
  lemma DeleteUndoesInsert(region: seq<Line>, n: nat, blank: seq<Line>)
    requires n <= |region| && |blank| == n
    ensures Deleted(Inserted(region, n, blank), n, blank) == region[..|region| - n] + blank
    ensures Inserted(Deleted(region, n, blank), n, blank) == blank + region[n..]
  {
  }
}
