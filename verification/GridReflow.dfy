/** `grid_reflow` as grid.c runs it: the lines of a grid are moved, split and joined into a second
 * grid while the first one is being consumed.  Every method is proved against `ReflowRows`.
 */
module GridReflow {
  import opened GridCell
  import opened GridStore
  import opened ReflowRows
  import opened ReflowLayout

  function Used(l: Line): seq<Cell> {
    seq(l.cellused, (i: nat) => Norm(Read(l, i)))
  }

  /** What can be read of a line. */
  function RowOf(l: Line): Row {
    Row(Used(l), l.wrapped)
  }

  function Rows(lines: seq<Line>): (r: seq<Row>)
    ensures |r| == |lines|
  {
    seq(|lines|, i requires 0 <= i < |lines| => RowOf(lines[i]))
  }

  /** A line in use: it can be stored and copied without change. */
  ghost predicate Good(l: Line) {
    && LineOk(l) && !l.dead
    && forall k :: 0 <= k < l.cellused ==> Faithful(Used(l)[k], false)
  }

  ghost predicate AllGood(lines: seq<Line>, from: nat) {
    forall i :: from <= i < |lines| ==> Good(lines[i])
  }

  lemma CompactLineIsNarrow(l: Line)
    requires LineOk(l) && !l.extended
    ensures NarrowCells(Used(l)) && Width(Used(l)) == l.cellused
  {
    forall i | 0 <= i < l.cellused ensures Used(l)[i].glyph.width == 1 {
      assert !Owns(l, {}, i);
    }
    NarrowWidth(Used(l));
  }

  /** Writing a readable cell just past the used ones appends it. */
  lemma AppendCell(was: Line, now: Line, gc: Cell)
    requires Good(was) && LineOk(now) && Written(was, now, was.cellused, gc) && Faithful(Norm(gc), false)
    ensures Good(now) && RowOf(now) == Row(Used(was) + [Norm(gc)], was.wrapped)
  {
    var slot := was.cellused < |was.celldata| && was.celldata[was.cellused].Extended?;
    ReadBackIff(gc, slot);
    assert Faithful(gc, slot);
    assert Used(now) == Used(was) + [Norm(gc)];
  }

  /** Cutting a line off after `n` of its cells. */
  function Truncate(l: Line, n: nat): Line
    requires n <= |l.celldata|
  {
    l.(celldata := l.celldata[..n], cellused := n)
  }

  lemma TruncateGood(l: Line, n: nat)
    requires Good(l) && n <= l.cellused
    ensures Good(Truncate(l, n)) && Used(Truncate(l, n)) == Used(l)[..n]
  {
    var t := Truncate(l, n);
    assert forall i :: Owns(t, {}, i) ==> Owns(l, {}, i);
    assert forall k: nat :: k < n ==> Read(t, k) == Read(l, k);
    assert Used(t) == Used(l)[..n];
  }

  /** A target grid: only a container of finished lines. */
  ghost predicate Target(target: Grid)
    reads target
  {
    target.Ok() && target.hsize == 0 && AllGood(target.linedata, 0)
  }

  /** Blank lines at the end of the target. */
  method Add(target: Grid, n: nat)
    requires Target(target)
    modifies target
    ensures Target(target) && target.sx == old(target.sx)
    ensures Rows(target.linedata) == Rows(old(target.linedata)) + Blanks(n)
  {
    ghost var was := target.linedata;
    target.linedata := target.linedata + seq(n, _ => EMPTY_LINE);
    target.sy := target.sy + n;
    assert Used(EMPTY_LINE) == [];
    assert forall i :: 0 <= i < |target.linedata| ==> target.linedata[i] == if i < |was| then was[i] else EMPTY_LINE;
    assert Rows(target.linedata) == Rows(was) + Blanks(n);
  }

  method Move(target: Grid, gd: Grid, yy: nat)
    requires target != gd && target.Ok() && target.hsize == 0
    requires gd.Ok() && yy < |gd.linedata|
    modifies target, gd`linedata
    ensures target.Ok() && target.hsize == 0 && gd.Ok()
    ensures target.linedata == old(target.linedata) + [old(gd.linedata)[yy]]
    ensures gd.linedata == old(gd.linedata)[yy := EMPTY_LINE.(dead := true)]
  {
    target.linedata := target.linedata + [gd.linedata[yy]];
    target.sy := target.sy + 1;
    gd.linedata := gd.linedata[yy := EMPTY_LINE.(dead := true)];
  }

  /** The rows with more cells at the end of the last one. */
  function Appended(rows: seq<Row>, cells: seq<Cell>): (r: seq<Row>)
    requires rows != []
    ensures |r| == |rows|
  {
    rows[|rows| - 1 := Row(rows[|rows| - 1].cells + cells, rows[|rows| - 1].wrapped)]
  }

  lemma AppendedMore(rows: seq<Row>, a: seq<Cell>, b: seq<Cell>)
    requires rows != []
    ensures Appended(rows, []) == rows
    ensures Appended(Appended(rows, a), b) == Appended(rows, a + b)
  {
    assert rows[|rows| - 1].cells + [] == rows[|rows| - 1].cells;
    assert rows[|rows| - 1].cells + a + b == rows[|rows| - 1].cells + (a + b);
  }

  /** `grid_set_cell(target, at, to, &gc)` with `at` just past the used cells of line `to`. */
  method AppendAt(target: Grid, to: nat, gc: Cell)
    requires Target(target) && to < |target.linedata| && Faithful(Norm(gc), false)
    modifies target`linedata
    ensures Target(target)
    ensures |target.linedata| == |old(target.linedata)|
    ensures var row := Rows(old(target.linedata))[to];
            Rows(target.linedata) == Rows(old(target.linedata))[to := Row(row.cells + [Norm(gc)], row.wrapped)]
  {
    ghost var was := target.linedata;
    target.SetCell(target.linedata[to].cellused, to, gc);
    AppendCell(was[to], target.linedata[to], gc);
  }

  /** `want` cells have been taken, and the loop is on its way to taking all that fit. */
  ghost predicate Taking(cells: seq<Cell>, want: nat, width: nat, width0: nat, sx: nat) {
    && want <= |cells| && cells != []
    && width == width0 + Width(cells[..want])
    && (want > 0 ==> Fit(cells, want, width, sx) == Fit(cells, 1, width0 + cells[0].glyph.width, sx))
  }

  lemma TakingStep(cells: seq<Cell>, want: nat, width: nat, width0: nat, sx: nat)
    requires Taking(cells, want, width, width0, sx) && want < |cells|
    requires width + cells[want].glyph.width <= sx
    ensures Taking(cells, want + 1, width + cells[want].glyph.width, width0, sx)
  {
    assert cells[..want + 1][..want] == cells[..want];
  }

  lemma AppendedStep(rows: seq<Row>, cells: seq<Cell>, k: nat)
    requires rows != [] && k < |cells|
    ensures Appended(Appended(rows, cells[..k]), [cells[k]]) == Appended(rows, cells[..k + 1])
  {
    AppendedMore(rows, cells[..k], [cells[k]]);
    assert cells[..k] + [cells[k]] == cells[..k + 1];
  }

  method ReadUsed(from: Line, px: nat) returns (gc: Cell)
    requires Good(from) && px < from.cellused
    ensures Norm(gc) == Used(from)[px] && gc.glyph == Used(from)[px].glyph && Faithful(Norm(gc), false)
  {
    gc := GetCell1(from, px);
  }

  /** Append to the last line of the target as many cells of `from` as still fit, but at least one. */
  method TakeCells(target: Grid, from: Line, sx: nat, width0: nat) returns (want: nat, width: nat)
    requires Target(target) && |target.linedata| > 0
    requires Good(from) && from.cellused > 0 && width0 + Used(from)[0].glyph.width <= sx
    modifies target`linedata
    ensures Target(target) && |target.linedata| == |old(target.linedata)|
    ensures want == Fit(Used(from), 1, width0 + Used(from)[0].glyph.width, sx)
    ensures width == width0 + Width(Used(from)[..want])
    ensures Rows(target.linedata) == Appended(Rows(old(target.linedata)), Used(from)[..want])
  {
    hide Good, OkExcept;
    ghost var rows := Rows(target.linedata);
    ghost var cells := Used(from);
    width := width0;
    want := 0;
    AppendedMore(rows, [], []);
    while want < from.cellused
      invariant Target(target) && |target.linedata| == |rows|
      invariant Taking(cells, want, width, width0, sx)
      invariant Rows(target.linedata) == Appended(rows, cells[..want])
      decreases from.cellused - want
    {
      var gc := ReadUsed(from, want);
      if width + gc.glyph.width > sx {
        break;
      }
      TakingStep(cells, want, width, width0, sx);
      AppendedStep(rows, cells, want);
      width := width + gc.glyph.width;
      AppendAt(target, |target.linedata| - 1, gc);
      want := want + 1;
    }
  }

  /** The source grid while it is being consumed: dead lines up to `d`, good lines from there on. */
  ghost predicate Source(gd: Grid, yy: nat, d: nat)
    reads gd
  {
    && gd.Ok() && yy <= d <= |gd.linedata|
    && (forall i :: yy <= i < d ==> gd.linedata[i].dead)
    && AllGood(gd.linedata, d)
  }

  /** The rows still to be reflowed. */
  function Left(gd: Grid, d: nat): seq<Row>
    requires d <= |gd.linedata|
    reads gd
  {
    Rows(gd.linedata[d..])
  }

  lemma JoinAt(cells: seq<Cell>, width: nat, sx: nat, rest: seq<Row>, lines: nat, wrapped: bool, found: bool)
    requires lines <= |rest|
    ensures lines == |rest| ==>
              JoinLoop(cells, width, sx, rest, lines, wrapped, found) == Joined(cells, wrapped, lines, found, [])
    ensures lines < |rest| ==>
      var row, wrapped' := rest[lines], wrapped && rest[lines].wrapped;
      JoinLoop(cells, width, sx, rest, lines, wrapped, found) ==
        if row.cells == [] then
          if wrapped' then JoinLoop(cells, width, sx, rest, lines + 1, wrapped', found)
          else Joined(cells, wrapped', lines, found, [])
        else if width + row.cells[0].glyph.width > sx then Joined(cells, wrapped', lines, found, [])
        else
          var want := Fit(row.cells, 1, width + row.cells[0].glyph.width, sx);
          if !wrapped' || want != |row.cells| || width + Width(row.cells[..want]) == sx then
            Joined(cells + row.cells[..want], wrapped', lines + 1, true, row.cells[want..])
          else JoinLoop(cells + row.cells[..want], width + Width(row.cells[..want]), sx, rest, lines + 1, wrapped', true)
  {
    if lines < |rest| {
      assert rest[lines].cells[..|rest[lines].cells|] == rest[lines].cells;
    }
  }

  /** The result of the joining loop in the terms of the code: `from` is the last line that gave
    * cells, or -1. */
  ghost predicate LoopResult(rest: seq<Row>, j: Joined, lines: nat, from: int, want: nat, wrapped: bool) {
    && lines == j.lines <= |rest| && wrapped == j.wrapped && (from >= 0 <==> j.found) && from < lines
    && (from >= 0 ==> from < |rest| && 0 < want <= |rest[from].cells| && j.left == rest[from].cells[want..])
    && (j.left != [] ==> from == lines - 1)
  }

  function LastCells(rows: seq<Row>, cells: seq<Cell>): seq<Row>
    requires rows != []
  {
    rows[|rows| - 1 := Row(cells, rows[|rows| - 1].wrapped)]
  }

  /** One line of the joining loop that gives cells. */
  method JoinOne(target: Grid, line: Line, sx: nat, width0: nat, ghost rows: seq<Row>, ghost cells: seq<Cell>)
    returns (want: nat, width: nat)
    requires Target(target) && |target.linedata| > 0 && |rows| == |target.linedata|
    requires Good(line) && line.cellused > 0 && width0 + Used(line)[0].glyph.width <= sx
    requires Rows(target.linedata) == LastCells(rows, cells)
    modifies target`linedata
    ensures Target(target) && |target.linedata| == |old(target.linedata)|
    ensures want == Fit(Used(line), 1, width0 + Used(line)[0].glyph.width, sx)
    ensures width == width0 + Width(Used(line)[..want])
    ensures Rows(target.linedata) == LastCells(rows, cells + Used(line)[..want])
  {
    hide Good, OkExcept, Fit, Width;
    want, width := TakeCells(target, line, sx, width0);
  }

  /** The loop of `grid_reflow_join`: join the lines below `yy` onto the last line of the target. */
  method JoinLines(target: Grid, gd: Grid, sx: nat, yy: nat, width0: nat, ghost cells0: seq<Cell>)
    returns (lines: nat, from: int, want: nat, wrapped: bool)
    requires target != gd && Target(target) && |target.linedata| > 0
    requires yy < |gd.linedata| && Source(gd, yy + 1, yy + 1)
    requires cells0 == Used(target.linedata[|target.linedata| - 1]) && width0 == Width(cells0)
    modifies target`linedata
    ensures Target(target) && |target.linedata| == |old(target.linedata)|
    ensures var j := JoinLoop(cells0, width0, sx, Left(gd, yy + 1), 0, true, false);
            && Rows(target.linedata) == LastCells(Rows(old(target.linedata)), j.cells)
            && LoopResult(Left(gd, yy + 1), j, lines, from, want, wrapped)
  {
    hide Good, OkExcept, JoinLoop, LookAt, Fit, Width;
    ghost var rows := Rows(target.linedata);
    ghost var rest := Left(gd, yy + 1);
    ghost var cells := cells0;
    ghost var j := JoinLoop(cells0, width0, sx, rest, 0, true, false);
    lines, from, want, wrapped := 0, -1, 0, true;
    var width: nat := width0;
    while true
      invariant lines <= |rest| && Target(target) && |target.linedata| == |rows|
      invariant Rows(target.linedata) == LastCells(rows, cells)
      invariant JoinLoop(cells, width, sx, rest, lines, wrapped, from >= 0) == j
      invariant from < lines && (from >= 0 ==> 0 < want == |rest[from].cells|)
      decreases |rest| - lines
    {
      JoinAt(cells, width, sx, rest, lines, wrapped, from >= 0);
      if yy + 1 + lines == gd.hsize + gd.sy {
        break;
      }
      var line := gd.linedata[yy + 1 + lines];
      assert rest[lines] == RowOf(line);
      if !line.wrapped {
        wrapped := false;
      }
      if line.cellused == 0 {
        if !wrapped {
          break;
        }
        lines := lines + 1;
        continue;
      }
      var gc := ReadUsed(line, 0);
      if width + gc.glyph.width > sx {
        break;
      }
      want, width := JoinOne(target, line, sx, width, rows, cells);
      cells := cells + Used(line)[..want];
      from := lines;
      lines := lines + 1;
      if !wrapped || want != line.cellused || width == sx {
        break;
      }
    }
    assert j.cells == cells;
    assert LoopResult(rest, j, lines, from, want, wrapped);
  }

  /** Line `now` is what is left of the good line `was` when its first `want` cells are gone. */
  lemma TailGood(was: Line, now: Line, want: nat)
    requires Good(was) && LineOk(now) && want <= was.cellused && !now.dead && now.wrapped == was.wrapped
    requires now.cellused == was.cellused - want
    requires forall k: nat :: k < was.cellused - want ==> Norm(Read(now, k)) == Norm(Read(was, want + k))
    ensures Good(now) && RowOf(now) == Row(Used(was)[want..], was.wrapped)
  {
    assert Used(now) == Used(was)[want..];
  }

  /** Remove from line `y` of the source the cells that were consumed. */
  method CutFront(gd: Grid, y: nat, want: nat)
    requires gd.Ok() && y < |gd.linedata| && Good(gd.linedata[y]) && 0 < want < gd.linedata[y].cellused
    modifies gd`linedata
    ensures gd.Ok() && gd.OnlyLine(y) && Good(gd.linedata[y])
    ensures RowOf(gd.linedata[y]) == Row(Used(old(gd.linedata)[y])[want..], old(gd.linedata)[y].wrapped)
  {
    ghost var was := gd.linedata[y];
    var left := gd.linedata[y].cellused - want;
    gd.MoveCells(0, want, y, left, COLOUR_8);
    var moved := gd.linedata[y];
    var now := Truncate(moved, left);
    assert LineOk(now) by {
      assert forall i :: Owns(now, {}, i) ==> Owns(moved, {}, i);
    }
    forall k: nat | k < left ensures Norm(Read(now, k)) == Norm(Read(was, want + k)) {
      assert Read(now, k) == Read(moved, k);
    }
    TailGood(was, now, want);
    gd.linedata := gd.linedata[y := now];
  }

  /** The lines from `lo` to `hi` have been consumed whole. */
  method KillLines(gd: Grid, lo: nat, hi: nat)
    requires gd.Ok() && lo <= hi <= |gd.linedata|
    modifies gd`linedata
    ensures gd.Ok() && |gd.linedata| == |old(gd.linedata)|
    ensures forall i :: 0 <= i < |gd.linedata| ==>
              gd.linedata[i] == if lo <= i < hi then EMPTY_LINE.(dead := true) else old(gd.linedata)[i]
  {
    var i := lo;
    while i < hi
      invariant lo <= i <= hi && gd.Ok() && |gd.linedata| == |old(gd.linedata)|
      invariant forall k :: 0 <= k < |gd.linedata| ==>
                  gd.linedata[k] == if lo <= k < i then EMPTY_LINE.(dead := true) else old(gd.linedata)[k]
    {
      gd.linedata := gd.linedata[i := EMPTY_LINE.(dead := true)];
      i := i + 1;
    }
  }

  /** Clear the WRAPPED flag of the last line of the target. */
  method Unwrap(target: Grid)
    requires Target(target) && |target.linedata| > 0
    modifies target`linedata
    ensures Target(target) && |target.linedata| == |old(target.linedata)|
    ensures var rows := Rows(old(target.linedata));
            Rows(target.linedata) == rows[|rows| - 1 := Row(rows[|rows| - 1].cells, false)]
  {
    ghost var was := target.linedata[|target.linedata| - 1];
    ghost var rows := Rows(target.linedata);
    var gl := target.linedata[|target.linedata| - 1].(wrapped := false);
    assert forall i :: Owns(gl, {}, i) <==> Owns(was, {}, i);
    assert forall k: nat :: Read(gl, k) == Read(was, k);
    assert Used(gl) == Used(was);
    target.linedata := target.linedata[|target.linedata| - 1 := gl];
    assert Rows(target.linedata) == rows[|rows| - 1 := Row(rows[|rows| - 1].cells, false)];
  }

  /** Take what was joined away from the lines below `yy`. */
  method Consume(gd: Grid, yy: nat, lines: nat, from: nat, want: nat, ghost j: Joined) returns (d: nat)
    requires yy < |gd.linedata| && Source(gd, yy + 1, yy + 1)
    requires j.found && LoopResult(Left(gd, yy + 1), j, lines, from, want, j.wrapped)
    modifies gd`linedata
    ensures |gd.linedata| == |old(gd.linedata)| && Source(gd, yy + 1, d)
    ensures Left(gd, d) == JoinedRest(old(Left(gd, yy + 1)), j)
  {
    hide OkExcept, Faithful;
    ghost var was := gd.linedata;
    ghost var rest := Left(gd, yy + 1);
    assert rest[from] == RowOf(was[yy + 1 + from]);
    var whole := lines;
    if gd.linedata[yy + 1 + from].cellused != want {
      assert |j.left| == |rest[from].cells| - want;
      CutFront(gd, yy + lines, want);
      whole := lines - 1;
    }
    ghost var cut := gd.linedata;
    KillLines(gd, yy + 1, yy + 1 + whole);
    d := yy + 1 + whole;
    ghost var left, all := Left(gd, d), JoinedRest(rest, j);
    assert |left| == |all|;
    forall k | 0 <= k < |left| ensures left[k] == all[k] {
      assert left[k] == RowOf(cut[d + k]);
    }
  }

  /** `grid_reflow_join` after the target line has been added. */
  method JoinOnto(target: Grid, gd: Grid, sx: nat, yy: nat, width0: nat, ghost cells0: seq<Cell>) returns (d: nat)
    requires target != gd && Target(target) && |target.linedata| > 0
    requires yy < |gd.linedata| && Source(gd, yy + 1, yy + 1)
    requires cells0 == Used(target.linedata[|target.linedata| - 1]) && width0 == Width(cells0)
    requires target.linedata[|target.linedata| - 1].wrapped
    modifies target`linedata, gd`linedata
    ensures Target(target) && |target.linedata| == |old(target.linedata)| && |gd.linedata| == |old(gd.linedata)|
    ensures Source(gd, yy + 1, d)
    ensures var rows, rest := Rows(old(target.linedata)), old(Left(gd, yy + 1));
            var j := JoinLoop(cells0, width0, sx, rest, 0, true, false);
            && Rows(target.linedata) == rows[|rows| - 1 := JoinedRow(cells0, j)]
            && Left(gd, d) == JoinedRest(rest, j)
  {
    hide OkExcept, JoinLoop, LookAt, Fit, Width, Faithful, Good;
    ghost var rows := Rows(target.linedata);
    ghost var rest := Left(gd, yy + 1);
    ghost var j := JoinLoop(cells0, width0, sx, rest, 0, true, false);
    JoinFound(cells0, width0, sx, rest, 0, true, false);
    var lines, from, want, wrapped := JoinLines(target, gd, sx, yy, width0, cells0);
    assert Rows(target.linedata) == LastCells(rows, j.cells);
    d := yy + 1;
    if lines == 0 || from < 0 {
      return;
    }
    assert rest[from] == RowOf(gd.linedata[yy + 1 + from]);
    if gd.linedata[yy + 1 + from].cellused == want && !wrapped {
      Unwrap(target);
    }
    d := Consume(gd, yy, lines, from, want, j);
  }

  lemma MulLe(a: nat, b: nat, c: nat)
    requires a <= b
    ensures a * c <= b * c
  {
  }

  lemma DivUnique(a: nat, q: nat, r: nat, sx: nat)
    requires sx >= 1 && r < sx && a == q * sx + r
    ensures a / sx == q
  {
    var p := a / sx;
    assert a == p * sx + a % sx;
    if p < q {
      MulLe(p + 1, q, sx);
    } else if q < p {
      MulLe(q + 1, p, sx);
    }
  }

  lemma AddDiv(k: nat, sx: nat)
    requires sx >= 1
    ensures (sx + k) / sx == 1 + k / sx
  {
    var q := k / sx;
    assert k == q * sx + k % sx;
    assert (1 + q) * sx == sx + q * sx;
    DivUnique(sx + k, 1 + q, k % sx, sx);
  }

  /** How many rows of `sx` cells a line of `n` is cut into. */
  function RowCount(n: nat, sx: nat): nat
    requires n >= 1 && sx >= 1
  {
    1 + (n - 1) / sx
  }

  lemma RowCounts(n: nat, sx: nat)
    requires n >= 1 && sx >= 1
    ensures n <= sx ==> RowCount(n, sx) == 1
    ensures RowCount(sx + n, sx) == 1 + RowCount(n, sx)
  {
    AddDiv(n - 1, sx);
    if n <= sx { DivUnique(n - 1, 0, n - 1, sx); }
  }

  lemma NarrowChunk(row: seq<Cell>, cells: seq<Cell>, i: nat, sx: nat)
    requires NarrowCells(cells) && i < |cells| && |row| <= sx
    ensures Chunks(row, |row|, cells, i, sx)
         == if |row| == sx then [row] + Chunks([cells[i]], 1, cells, i + 1, sx)
            else Chunks(row + [cells[i]], |row| + 1, cells, i + 1, sx)
  {
  }

  /** A line of narrow cells is cut into as many rows. */
  lemma {:induction false} NarrowCount(row: seq<Cell>, cells: seq<Cell>, i: nat, sx: nat)
    requires NarrowCells(cells) && i <= |cells| && |row| <= sx && sx >= 1 && (row != [] || i < |cells|)
    ensures |Chunks(row, |row|, cells, i, sx)| == RowCount(|row| + |cells| - i, sx)
    decreases |cells| - i
  {
    hide RowCount;
    if i == |cells| {
      RowCounts(|row|, sx);
    } else {
      NarrowChunk(row, cells, i, sx);
      hide Chunks;
      if |row| == sx {
        NarrowCount([cells[i]], cells, i + 1, sx);
        RowCounts(|cells| - i, sx);
      } else {
        NarrowCount(row + [cells[i]], cells, i + 1, sx);
      }
    }
  }

  lemma NarrowLines(cells: seq<Cell>, sx: nat)
    requires NarrowCells(cells) && sx >= 1 && |cells| > sx
    ensures |SplitRows(cells, sx)| == 1 + (|cells| - 1) / sx
  {
    NarrowAt(cells, 0, sx);
    NarrowCount([], cells, sx, sx);
    AddDiv(|cells| - sx - 1, sx);
  }

  /** How many lines `grid_reflow_split` adds: one for each row. */
  method CountLines(gl: Line, sx: nat, at: nat) returns (lines: nat)
    requires Good(gl) && sx >= 1 && Width(Used(gl)) > sx
    requires at == At(Used(gl), 0, 0, 0, sx)
    ensures lines == |SplitRows(Used(gl), sx)|
  {
    hide OkExcept, Faithful, At, Width;
    ghost var cells := Used(gl);
    if !gl.extended {
      CompactLineIsNarrow(gl);
      NarrowLines(cells, sx);
      return 1 + (gl.cellused - 1) / sx;
    }
    lines := 2;
    var width: nat := 0;
    var i := at;
    ghost var row := [];
    ghost var all := Chunks([], 0, cells, at, sx);
    while i < gl.cellused
      invariant at <= i <= gl.cellused && lines >= 2
      invariant |all| == lines - 2 + |Chunks(row, width, cells, i, sx)|
    {
      var gc := ReadUsed(gl, i);
      row := row + [cells[i]];
      if width + gc.glyph.width > sx {
        lines := lines + 1;
        width := 0;
        row := [cells[i]];
      }
      width := width + gc.glyph.width;
      i := i + 1;
    }
  }

  /** The rows of the target while a long line is being copied: the rows finished, the one being
    * filled, and the blank ones still to come. */
  function Filling(base: seq<Row>, done: seq<seq<Cell>>, row: seq<Cell>, blank: nat): seq<Row> {
    base + AllWrapped(done) + [Row(row, false)] + Blanks(blank)
  }

  lemma FillMore(base: seq<Row>, done: seq<seq<Cell>>, row: seq<Cell>, blank: nat, c: Cell)
    ensures var k := |base| + |done|;
            && k < |Filling(base, done, row, blank)|
            && Filling(base, done, row, blank)[k] == Row(row, false)
            && Filling(base, done, row, blank)[k := Row(row + [c], false)] == Filling(base, done, row + [c], blank)
  {
  }

  lemma FillNext(base: seq<Row>, done: seq<seq<Cell>>, row: seq<Cell>, blank: nat)
    requires blank > 0
    ensures var k := |base| + |done|;
            Filling(base, done, row, blank)[k := Row(row, true)] == Filling(base, done + [row], [], blank - 1)
  {
  }

  method SetWrapped(target: Grid, line: nat)
    requires Target(target) && line < |target.linedata|
    modifies target`linedata
    ensures Target(target) && |target.linedata| == |old(target.linedata)|
    ensures Rows(target.linedata) == Rows(old(target.linedata))[line := Row(Rows(old(target.linedata))[line].cells, true)]
  {
    ghost var rows := Rows(target.linedata);
    ghost var was := target.linedata[line];
    var gl := target.linedata[line].(wrapped := true);
    assert forall i :: Owns(gl, {}, i) <==> Owns(was, {}, i);
    assert forall k: nat :: Read(gl, k) == Read(was, k);
    assert Used(gl) == Used(was);
    target.linedata := target.linedata[line := gl];
    assert Rows(target.linedata) == rows[line := Row(rows[line].cells, true)];
  }

  lemma ChunkAt(done: seq<seq<Cell>>, row: seq<Cell>, width: nat, cells: seq<Cell>, i: nat, sx: nat)
    requires i < |cells|
    ensures done + Chunks(row, width, cells, i, sx) ==
              if width + cells[i].glyph.width > sx then
                (done + [row]) + Chunks([] + [cells[i]], cells[i].glyph.width, cells, i + 1, sx)
              else done + Chunks(row + [cells[i]], width + cells[i].glyph.width, cells, i + 1, sx)
    ensures Width(row + [cells[i]]) == Width(row) + cells[i].glyph.width
  {
    if width + cells[i].glyph.width > sx {
      var next := Chunks([cells[i]], cells[i].glyph.width, cells, i + 1, sx);
      assert [] + [cells[i]] == [cells[i]];
      assert done + ([row] + next) == (done + [row]) + next;
    }
    assert (row + [cells[i]])[..|row|] == row;
  }

  lemma NoWidth()
    ensures Width([]) == 0
  {
  }

  lemma ChunksEnd(row: seq<Cell>, width: nat, cells: seq<Cell>, sx: nat)
    ensures Chunks(row, width, cells, |cells|, sx) == [row]
  {
  }

  /** The row that was filled is WRAPPED, and the next one is begun. */
  method FinishRow(target: Grid, line: nat, ghost base: seq<Row>, ghost done: seq<seq<Cell>>, ghost row: seq<Cell>,
                   ghost blank: nat)
    requires Target(target) && line == |base| + |done| && blank > 0
    requires Rows(target.linedata) == Filling(base, done, row, blank)
    modifies target`linedata
    ensures Target(target) && |target.linedata| == |old(target.linedata)|
    ensures Rows(target.linedata) == Filling(base, done + [row], [], blank - 1)
  {
    hide Good, OkExcept, Filling;
    FillNext(base, done, row, blank);
    FillMore(base, done, row, blank, DEFAULT_CELL);
    SetWrapped(target, line);
  }

  /** A cell is added to the row being filled. */
  method CopyCell(target: Grid, line: nat, gc: Cell, ghost base: seq<Row>, ghost done: seq<seq<Cell>>, ghost row: seq<Cell>,
                  ghost blank: nat)
    requires Target(target) && line == |base| + |done| && Faithful(Norm(gc), false)
    requires Rows(target.linedata) == Filling(base, done, row, blank)
    modifies target`linedata
    ensures Target(target) && |target.linedata| == |old(target.linedata)|
    ensures Rows(target.linedata) == Filling(base, done, row + [Norm(gc)], blank)
  {
    hide Good, OkExcept, Filling, Faithful;
    FillMore(base, done, row, blank, Norm(gc));
    AppendAt(target, line, gc);
  }

  /** The copying loop of `grid_reflow_split`. */
  method CopyChunks(target: Grid, gl: Line, sx: nat, at: nat, line0: nat, ghost base: seq<Row>)
    returns (line: nat, width: nat)
    requires Target(target) && Good(gl) && at <= gl.cellused && line0 == |base|
    requires var all := Chunks([], 0, Used(gl), at, sx);
             Rows(target.linedata) == Filling(base, [], [], |all| - 1)
    modifies target`linedata
    ensures Target(target) && |target.linedata| == |old(target.linedata)|
    ensures var all := Chunks([], 0, Used(gl), at, sx);
            && line == line0 + |all| - 1
            && width == Width(all[|all| - 1])
            && Rows(target.linedata) == Filling(base, all[..|all| - 1], all[|all| - 1], 0)
  {
    hide Good, OkExcept, Faithful, Chunks, Rows, Filling, Width;
    ghost var cells := Used(gl);
    ghost var all := Chunks([], 0, cells, at, sx);
    ghost var done: seq<seq<Cell>> := [];
    ghost var row: seq<Cell> := [];
    line, width := line0, 0;
    var i := at;
    assert [] + all == all;
    NoWidth();
    while i < gl.cellused
      invariant at <= i <= gl.cellused == |cells| && Target(target) && |target.linedata| == |old(target.linedata)|
      invariant line == line0 + |done| && width == Width(row)
      invariant done + Chunks(row, width, cells, i, sx) == all
      invariant Rows(target.linedata) == Filling(base, done, row, |all| - 1 - |done|)
    {
      var gc := ReadUsed(gl, i);
      ChunkAt(done, row, width, cells, i, sx);
      if width + gc.glyph.width > sx {
        FinishRow(target, line, base, done, row, |all| - 1 - |done|);
        done, row := done + [row], [];
        line := line + 1;
        width := 0;
        ChunkAt(done, row, width, cells, i, sx);
      }
      CopyCell(target, line, gc, base, done, row, |all| - 1 - |done|);
      row := row + [cells[i]];
      width := width + gc.glyph.width;
      i := i + 1;
    }
    ChunksEnd(row, width, cells, sx);
    LastOf(done, row);
  }

  lemma LastOf(done: seq<seq<Cell>>, row: seq<Cell>)
    ensures var all := done + [row]; all[..|all| - 1] == done && all[|all| - 1] == row
  {
  }

  lemma TruncatedRow(gl: Line, at: nat)
    requires Good(gl) && at <= gl.cellused
    ensures Good(Truncate(gl, at).(wrapped := true))
    ensures RowOf(Truncate(gl, at).(wrapped := true)) == Row(Used(gl)[..at], true)
  {
    TruncateGood(gl, at);
    var t := Truncate(gl, at);
    var w := t.(wrapped := true);
    assert forall i :: Owns(w, {}, i) <==> Owns(t, {}, i);
    assert forall k: nat :: Read(w, k) == Read(t, k);
    assert Used(w) == Used(t);
  }

  lemma FillStart(base: seq<Row>, n: nat)
    ensures base + Blanks(n + 2) == Filling(base + [Row([], false)], [], [], n)
  {
  }

  lemma FillEnd(base: seq<Row>, split: seq<seq<Cell>>, wrapped: bool)
    requires |split| >= 2
    ensures var n := |split| - 1;
            var f := Filling(base + [Row([], false)], split[1..][..n - 1], split[n], 0);
            && |f| == |base| + |split|
            && f[|base| + n := Row(f[|base| + n].cells, wrapped)][|base| := Row(split[0], true)]
               == base + (AllWrapped(split[..n]) + [Row(split[n], wrapped)])
  {
  }

  /** `grid_reflow_split`, up to the point where the last new row may be joined with more lines. */
  method SplitLine(target: Grid, gd: Grid, sx: nat, yy: nat, at: nat) returns (width: nat)
    requires target != gd && Target(target) && sx >= 1
    requires yy < |gd.linedata| && Source(gd, yy, yy)
    requires Width(Used(gd.linedata[yy])) > sx && at == At(Used(gd.linedata[yy]), 0, 0, 0, sx)
    modifies target, gd`linedata
    ensures Target(target)
    ensures |gd.linedata| == |old(gd.linedata)| && gd.linedata[yy + 1..] == old(gd.linedata)[yy + 1..]
    ensures Source(gd, yy + 1, yy + 1)
    ensures var split := SplitRows(Used(old(gd.linedata)[yy]), sx);
            && width == Width(split[|split| - 1])
            && Rows(target.linedata) == Rows(old(target.linedata))
                 + (AllWrapped(split[..|split| - 1]) + [Row(split[|split| - 1], old(gd.linedata)[yy].wrapped)])
  {
    hide OkExcept, Faithful, At, Width, Chunks;
    var gl := gd.linedata[yy];
    ghost var cells := Used(gl);
    ghost var base := Rows(target.linedata);
    ghost var split := SplitRows(cells, sx);
    var lines := CountLines(gl, sx, at);
    var first := target.sy;
    Add(target, lines);
    FillStart(base, lines - 2);
    var line;
    line, width := CopyChunks(target, gl, sx, at, first + 1, base + [Row([], false)]);
    assert split[1..] == Chunks([], 0, cells, at, sx);
    if gl.wrapped {
      SetWrapped(target, line);
    }
    FillEnd(base, split, gl.wrapped);
    assert at <= gl.cellused <= |gl.celldata| by { UsedFits(gl); }
    TruncatedRow(gl, at);
    ReplaceLine(target, first, Truncate(gl, at).(wrapped := true));
    KillLines(gd, yy, yy + 1);
  }

  lemma UsedFits(gl: Line)
    requires Good(gl)
    ensures gl.cellused <= |gl.celldata|
  {
  }

  method ReplaceLine(target: Grid, y: nat, gl: Line)
    requires Target(target) && y < |target.linedata| && Good(gl)
    modifies target`linedata
    ensures Target(target) && |target.linedata| == |old(target.linedata)|
    ensures Rows(target.linedata) == Rows(old(target.linedata))[y := RowOf(gl)]
  {
    target.linedata := target.linedata[y := gl];
  }

  method Split(target: Grid, gd: Grid, sx: nat, yy: nat, at: nat) returns (d: nat)
    requires target != gd && Target(target) && sx >= 1
    requires yy < |gd.linedata| && Source(gd, yy, yy)
    requires Width(Used(gd.linedata[yy])) > sx && at == At(Used(gd.linedata[yy]), 0, 0, 0, sx)
    modifies target, gd`linedata
    ensures Target(target) && |gd.linedata| == |old(gd.linedata)| && Source(gd, yy + 1, d)
    ensures var t := SplitTurn(RowOf(old(gd.linedata)[yy]), old(Left(gd, yy + 1)), sx);
            Rows(target.linedata) == Rows(old(target.linedata)) + t.out && Left(gd, d) == t.rest
  {
    hide OkExcept, Faithful, Good, At, Width, Chunks, JoinLoop;
    var wrapped := gd.linedata[yy].wrapped;
    ghost var base := Rows(target.linedata);
    ghost var split := SplitRows(Used(gd.linedata[yy]), sx);
    ghost var last := split[|split| - 1];
    ghost var full := AllWrapped(split[..|split| - 1]);
    var width := SplitLine(target, gd, sx, yy, at);
    d := yy + 1;
    if width < sx && wrapped {
      assert Rows(target.linedata)[|target.linedata| - 1] == Row(last, true);
      d := JoinOnto(target, gd, sx, yy, width, last);
      ghost var j := JoinLoop(last, Width(last), sx, old(Left(gd, yy + 1)), 0, true, false);
      assert (base + (full + [Row(last, true)]))[|base| + |full| := JoinedRow(last, j)]
          == base + (full + [JoinedRow(last, j)]);
    }
  }

  /** Work out the width of a line and the cell at which it would be cut. */
  method Measure(gl: Line, sx: nat) returns (width: nat, at: nat)
    requires Good(gl) && sx >= 1
    ensures width == Width(Used(gl)) && (width > sx ==> at == At(Used(gl), 0, 0, 0, sx))
  {
    hide OkExcept, Faithful;
    ghost var cells := Used(gl);
    if !gl.extended {
      CompactLineIsNarrow(gl);
      width := gl.cellused;
      if width > sx {
        at := sx;
        NarrowAt(cells, 0, sx);
      } else {
        at := width;
      }
      return;
    }
    width, at := 0, 0;
    var i := 0;
    while i < gl.cellused
      invariant i <= gl.cellused == |cells| && at <= i
      invariant width == Width(cells[..i])
      invariant At(cells, i, at, width, sx) == At(cells, 0, 0, 0, sx)
    {
      var gc := ReadUsed(gl, i);
      assert cells[..i + 1][..i] == cells[..i];
      if at == 0 && width + gc.glyph.width > sx {
        at := i;
      }
      width := width + gc.glyph.width;
      i := i + 1;
    }
    assert cells[..i] == cells;
  }

  /** One line of the main loop of `grid_reflow`. */
  method LineTurn(target: Grid, gd: Grid, sx: nat, yy: nat) returns (d: nat)
    requires target != gd && Target(target) && sx >= 1
    requires yy < |gd.linedata| && Source(gd, yy, yy)
    modifies target, gd`linedata
    ensures Target(target) && |gd.linedata| == |old(gd.linedata)| && Source(gd, yy + 1, d)
    ensures var t := OneTurn(RowOf(old(gd.linedata)[yy]), old(Left(gd, yy + 1)), sx);
            Rows(target.linedata) == Rows(old(target.linedata)) + t.out && Left(gd, d) == t.rest
  {
    hide OkExcept, Faithful, At, Width, Chunks, JoinLoop, SplitTurn;
    var gl := gd.linedata[yy];
    ghost var base := Rows(target.linedata);
    ghost var rest := Left(gd, yy + 1);
    var width, at := Measure(gl, sx);
    if width > sx {
      d := Split(target, gd, sx, yy, at);
      return;
    }
    Move(target, gd, yy);
    d := yy + 1;
    assert Rows(target.linedata) == base + [RowOf(gl)];
    assert gd.linedata[yy + 1..] == old(gd.linedata)[yy + 1..];
    if width != sx && gl.wrapped {
      d := JoinOnto(target, gd, sx, yy, width, Used(gl));
      ghost var j := JoinLoop(Used(gl), width, sx, rest, 0, true, false);
      assert (base + [RowOf(gl)])[|base| := JoinedRow(Used(gl), j)] == base + ([] + [JoinedRow(Used(gl), j)]);
    }
  }

  lemma TurnLeft(gd: Grid, yy: nat)
    requires yy < |gd.linedata|
    ensures Left(gd, yy) != [] && Left(gd, yy)[0] == RowOf(gd.linedata[yy]) && Left(gd, yy)[1..] == Left(gd, yy + 1)
  {
    assert gd.linedata[yy..][1..] == gd.linedata[yy + 1..];
  }

  lemma ReflowMore(done: seq<Row>, rows: seq<Row>, sx: nat)
    requires rows != []
    ensures var t := OneTurn(rows[0], rows[1..], sx);
            done + Reflow(rows, sx) == (done + t.out) + Reflow(t.rest, sx)
  {
    var t := OneTurn(rows[0], rows[1..], sx);
    assert done + (t.out + Reflow(t.rest, sx)) == (done + t.out) + Reflow(t.rest, sx);
  }

  /** The main loop of `grid_reflow`. */
  method ReflowLines(gd: Grid, sx: nat) returns (target: Grid)
    requires gd.Ok() && AllGood(gd.linedata, 0) && sx >= 1
    modifies gd`linedata
    ensures fresh(target) && Target(target) && |gd.linedata| == |old(gd.linedata)|
    ensures Rows(target.linedata) == Reflow(Rows(old(gd.linedata)), sx)
  {
    hide OkExcept, Faithful, OneTurn, Reflow, Good;
    target := new Grid(gd.sx, 0);
    ghost var all := Reflow(Rows(gd.linedata), sx);
    var yy := 0;
    ghost var d := 0;
    assert gd.linedata[0..] == gd.linedata;
    assert Rows(target.linedata) + all == all;
    while yy < gd.hsize + gd.sy
      invariant fresh(target) && Target(target)
      invariant yy <= |gd.linedata| == |old(gd.linedata)| && Source(gd, yy, d)
      invariant Rows(target.linedata) + Reflow(Left(gd, d), sx) == all
    {
      NotDead(gd, yy, d);
      if !gd.linedata[yy].dead {
        TurnLeft(gd, yy);
        ReflowMore(Rows(target.linedata), Left(gd, yy), sx);
        d := LineTurn(target, gd, sx, yy);
      }
      yy := yy + 1;
    }
    assert Left(gd, d) == [];
    ReflowNone(sx);
  }

  lemma NotDead(gd: Grid, yy: nat, d: nat)
    requires Source(gd, yy, d) && yy < |gd.linedata|
    ensures gd.linedata[yy].dead <==> yy < d
  {
  }

  lemma ReflowNone(sx: nat)
    ensures Reflow([], sx) == []
  {
  }

  /** `grid_reflow`: the lines of the grid become the reflowed rows, with blank lines added when there
    * are fewer of them than the screen is tall. */
  method ReflowGrid(gd: Grid, sx: nat)
    requires gd.Ok() && AllGood(gd.linedata, 0) && sx >= 1
    modifies gd
    ensures gd.Ok() && AllGood(gd.linedata, 0) && gd.sx == old(gd.sx) && gd.sy == old(gd.sy)
    ensures var rows := Reflow(Rows(old(gd.linedata)), sx);
            Rows(gd.linedata) == rows + Blanks(if |rows| < gd.sy then gd.sy - |rows| else 0)
    ensures var was := Rows(old(gd.linedata));
            Narrow(was) && Terminated(was) && NoGap(was) ==>
              exists n :: Rows(gd.linedata) == Layout(Logical(was, []), sx) + Blanks(n)
  {
    hide OkExcept, Faithful, Reflow, Good;
    ghost var was := Rows(gd.linedata);
    if Narrow(was) && Terminated(was) && NoGap(was) {
      ReflowIsLayout(was, sx);
    }
    var target := ReflowLines(gd, sx);
    ghost var all := Rows(target.linedata);
    assert all + Blanks(0) == all;
    if target.sy < gd.sy {
      Add(target, gd.sy - target.sy);
    }
    gd.hsize := target.sy - gd.sy;
    gd.linedata := target.linedata;
  }
}
