/** Positions that survive a reflow: `grid_wrap_position` turns a cell's place into its place in the
 * logical line, `grid_unwrap_position` turns that back into a place on the screen.
 */
module GridPosition {
  import opened GridCell
  import opened GridStore
  import opened ReflowRows
  import opened ReflowLayout
  import opened GridReflow

  const UINT_MAX: nat := 0xFFFF_FFFF

  /** Cells of the logical line before row `py`. */
  function Before(rows: seq<Row>, py: nat): nat
    requires py <= |rows|
  {
    if py == 0 || !rows[py - 1].wrapped then 0 else Before(rows, py - 1) + |rows[py - 1].cells|
  }

  /** Logical lines that end before row `py`. */
  function Ended(rows: seq<Row>, py: nat): nat
    requires py <= |rows|
  {
    if py == 0 then 0 else Ended(rows, py - 1) + if rows[py - 1].wrapped then 0 else 1
  }

  function WrapPosition(rows: seq<Row>, px: nat, py: nat): (nat, nat)
    requires py < |rows|
  {
    (if px >= |rows[py].cells| then UINT_MAX else Before(rows, py) + px, Ended(rows, py))
  }

  /** The first row of logical line `wy`, searching from row `yy` with `ay` lines ended. */
  function LineStart(rows: seq<Row>, wy: nat, yy: nat, ay: nat): (r: nat)
    requires yy < |rows|
    ensures yy <= r < |rows|
    decreases |rows| - yy
  {
    if yy == |rows| - 1 || ay == wy then yy
    else LineStart(rows, wy, yy + 1, if rows[yy].wrapped then ay else ay + 1)
  }

  /** Walk forward over WRAPPED rows until the row that has cell `wx`. */
  function WalkTo(rows: seq<Row>, wx: nat, yy: nat): (r: (nat, nat))
    requires yy < |rows| && Terminated(rows)
    ensures yy <= r.1 < |rows|
    decreases |rows| - yy
  {
    if rows[yy].wrapped && wx >= |rows[yy].cells| then WalkTo(rows, wx - |rows[yy].cells|, yy + 1) else (wx, yy)
  }

  function WalkToEnd(rows: seq<Row>, yy: nat): (r: nat)
    requires yy < |rows|
    ensures yy <= r < |rows|
    decreases |rows| - yy
  {
    if yy < |rows| - 1 && rows[yy].wrapped then WalkToEnd(rows, yy + 1) else yy
  }

  function UnwrapPosition(rows: seq<Row>, wx: nat, wy: nat): (r: (nat, nat))
    requires rows != [] && Terminated(rows)
    ensures r.1 < |rows|
  {
    var yy := LineStart(rows, wy, 0, 0);
    if wx == UINT_MAX then
      var end := WalkToEnd(rows, yy);
      (|rows[end].cells|, end)
    else WalkTo(rows, wx, yy)
  }

  // ---- The code computes these ----

  method GridWrapPosition(gd: Grid, px: nat, py: nat) returns (wx: nat, wy: nat)
    requires py < |gd.linedata|
    ensures (wx, wy) == WrapPosition(Rows(gd.linedata), px, py)
  {
    ghost var rows := Rows(gd.linedata);
    wx, wy := 0, 0;
    var yy := 0;
    while yy < py
      invariant yy <= py && wx == Before(rows, yy) && wy == Ended(rows, yy)
    {
      if gd.linedata[yy].wrapped {
        wx := wx + gd.linedata[yy].cellused;
      } else {
        wx := 0;
        wy := wy + 1;
      }
      yy := yy + 1;
    }
    wx := if px >= gd.linedata[yy].cellused then UINT_MAX else wx + px;
  }

  method GridUnwrapPosition(gd: Grid, wx0: nat, wy: nat) returns (px: nat, py: nat)
    requires gd.Ok() && gd.linedata != [] && Terminated(Rows(gd.linedata))
    ensures (px, py) == UnwrapPosition(Rows(gd.linedata), wx0, wy)
  {
    ghost var rows := Rows(gd.linedata);
    var yy, ay, ey := 0, 0, gd.hsize + gd.sy - 1;
    while yy < ey
      invariant yy <= ey && LineStart(rows, wy, yy, ay) == LineStart(rows, wy, 0, 0)
    {
      if ay == wy {
        break;
      }
      if !gd.linedata[yy].wrapped {
        ay := ay + 1;
      }
      yy := yy + 1;
    }
    var wx: nat := wx0;
    if wx == UINT_MAX {
      ghost var start := yy;
      while yy < ey && gd.linedata[yy].wrapped
        invariant yy <= ey && WalkToEnd(rows, yy) == WalkToEnd(rows, start)
      {
        yy := yy + 1;
      }
      wx := gd.linedata[yy].cellused;
    } else {
      ghost var start := yy;
      while gd.linedata[yy].wrapped
        invariant yy <= ey && WalkTo(rows, wx, yy) == WalkTo(rows, wx0, start)
        decreases ey - yy
      {
        if wx < gd.linedata[yy].cellused {
          break;
        }
        wx := wx - gd.linedata[yy].cellused;
        yy := yy + 1;
      }
    }
    px, py := wx, yy;
  }

  // ---- Wrapping and unwrapping undo each other ----

  /** The first row of the logical line that row `py` belongs to. */
  function First(rows: seq<Row>, py: nat): (r: nat)
    requires py < |rows|
    ensures r <= py
  {
    if py == 0 || !rows[py - 1].wrapped then py else First(rows, py - 1)
  }

  lemma {:induction false} FirstFacts(rows: seq<Row>, py: nat)
    requires py < |rows|
    ensures var f := First(rows, py);
            && Ended(rows, f) == Ended(rows, py)
            && (forall i :: f <= i < py ==> rows[i].wrapped)
            && (f > 0 ==> !rows[f - 1].wrapped)
            && Before(rows, f) == 0
  {
    if py > 0 && rows[py - 1].wrapped {
      FirstFacts(rows, py - 1);
    }
  }

  lemma {:induction false} EndedGrows(rows: seq<Row>, i: nat, j: nat)
    requires i <= j <= |rows|
    ensures Ended(rows, i) <= Ended(rows, j)
    decreases j - i
  {
    if i < j {
      EndedGrows(rows, i, j - 1);
    }
  }

  lemma {:induction false} StartIsFirst(rows: seq<Row>, f: nat, yy: nat)
    requires yy <= f < |rows| && (f > 0 ==> !rows[f - 1].wrapped)
    ensures LineStart(rows, Ended(rows, f), yy, Ended(rows, yy)) == f
    decreases f - yy
  {
    if yy < f {
      EndedGrows(rows, yy, f - 1);
      assert Ended(rows, f) == Ended(rows, f - 1) + 1;
      StartIsFirst(rows, f, yy + 1);
    }
  }

  lemma {:induction false} WalkBack(rows: seq<Row>, px: nat, py: nat, yy: nat)
    requires yy <= py < |rows| && px < |rows[py].cells| && Terminated(rows)
    requires forall i :: yy <= i < py ==> rows[i].wrapped
    ensures Before(rows, yy) <= Before(rows, py)
    ensures WalkTo(rows, Before(rows, py) - Before(rows, yy) + px, yy) == (px, py)
    decreases py - yy
  {
    if yy < py {
      WalkBack(rows, px, py, yy + 1);
    }
  }

  /** Without a reflow in between, unwrapping a wrapped position gives it back exactly. */
  lemma WrapRoundTrip(rows: seq<Row>, px: nat, py: nat)
    requires py < |rows| && px < |rows[py].cells| && Terminated(rows)
    requires |Flat(rows)| < UINT_MAX
    ensures var w := WrapPosition(rows, px, py); UnwrapPosition(rows, w.0, w.1) == (px, py)
  {
    FirstFacts(rows, py);
    var f := First(rows, py);
    StartIsFirst(rows, f, 0);
    WalkBack(rows, px, py, f);
    BeforeBound(rows, px, py);
  }

  lemma {:induction false} BeforeBound(rows: seq<Row>, px: nat, py: nat)
    requires py < |rows| && px < |rows[py].cells|
    ensures Before(rows, py) + px < |Flat(rows)|
  {
    BeforeFlat(rows, py);
    FlatSplit(rows, py);
  }

  lemma {:induction false} BeforeFlat(rows: seq<Row>, py: nat)
    requires py <= |rows|
    ensures Before(rows, py) <= |Flat(rows[..py])|
  {
    if py > 0 {
      BeforeFlat(rows, py - 1);
      assert rows[..py] == rows[..py - 1] + [rows[py - 1]];
      FlatConcat(rows[..py - 1], [rows[py - 1]]);
      assert Flat([rows[py - 1]]) == rows[py - 1].cells + Flat([]);
    }
  }

  lemma FlatSplit(rows: seq<Row>, py: nat)
    requires py < |rows|
    ensures |Flat(rows)| >= |Flat(rows[..py])| + |rows[py].cells|
  {
    assert rows == rows[..py] + rows[py..];
    FlatConcat(rows[..py], rows[py..]);
    assert Flat(rows[py..]) == rows[py].cells + Flat(rows[py..][1..]);
  }

  // ---- A position is a place in the text ----

  /** The place of a cell in the text of the grid. */
  function Place(rows: seq<Row>, px: nat, py: nat): nat
    requires py < |rows|
  {
    |Stream(rows[..py])| + px
  }

  /** How many cells lie between the last break of `s` and its end. */
  function Trail(s: seq<Token>): nat {
    if s == [] || s[|s| - 1].Break? then 0 else 1 + Trail(s[..|s| - 1])
  }

  lemma TrailMore(s: seq<Token>, t: Token)
    requires !t.Break?
    ensures Trail(s + [t]) == Trail(s) + 1
  {
    assert (s + [t])[..|s|] == s;
  }

  lemma {:induction false} TrailTokens(s: seq<Token>, cells: seq<Cell>)
    ensures Trail(s + Tokens(cells)) == Trail(s) + |cells|
  {
    hide Trail;
    if cells == [] {
      assert s + Tokens(cells) == s;
    } else {
      var n := |cells| - 1;
      TrailTokens(s, cells[..n]);
      TrailMore(s + Tokens(cells[..n]), Tokens(cells)[n]);
      assert s + Tokens(cells) == s + Tokens(cells[..n]) + [Tokens(cells)[n]];
    }
  }

  lemma TrailRow(s: seq<Token>, row: Row)
    ensures Trail(s + Tokens(row.cells) + End(row.wrapped)) == if row.wrapped then Trail(s) + |row.cells| else 0
    ensures CountBreaks(s + Tokens(row.cells) + End(row.wrapped)) == CountBreaks(s) + if row.wrapped then 0 else 1
  {
    TrailTokens(s, row.cells);
    CountTokens(row.cells);
    CountConcat(s, Tokens(row.cells));
    CountConcat(s + Tokens(row.cells), End(row.wrapped));
    assert s + Tokens(row.cells) + [] == s + Tokens(row.cells);
  }

  lemma StreamPrefix(rows: seq<Row>, py: nat)
    requires 0 < py <= |rows|
    ensures Stream(rows[..py])
            == Stream(rows[..py - 1]) + Tokens(rows[py - 1].cells) + End(rows[py - 1].wrapped)
  {
    assert rows[..py] == rows[..py - 1] + [rows[py - 1]];
    StreamConcat(rows[..py - 1], [rows[py - 1]]);
    StreamOne(rows[py - 1]);
  }

  lemma {:induction false} BeforeIsTrail(rows: seq<Row>, py: nat)
    requires py <= |rows|
    ensures Before(rows, py) == Trail(Stream(rows[..py]))
    ensures Ended(rows, py) == CountBreaks(Stream(rows[..py]))
  {
    if py > 0 {
      BeforeIsTrail(rows, py - 1);
      StreamPrefix(rows, py);
      TrailRow(Stream(rows[..py - 1]), rows[py - 1]);
    }
  }

  lemma PlacePrefix(rows: seq<Row>, px: nat, py: nat)
    requires py < |rows| && px < |rows[py].cells|
    ensures Place(rows, px, py) < |Stream(rows)|
    ensures Stream(rows)[..Place(rows, px, py)] == Stream(rows[..py]) + Tokens(rows[py].cells[..px])
    ensures Stream(rows)[Place(rows, px, py)] == Mark(rows[py].cells[px])
  {
    assert rows == rows[..py] + rows[py..];
    StreamConcat(rows[..py], rows[py..]);
    StreamFrom(rows, py);
    var t := Tokens(rows[py].cells);
    assert t[..px] == Tokens(rows[py].cells[..px]);
  }

  /** The wrapped position depends only on the text before the cell. */
  lemma WrapIsText(rows: seq<Row>, px: nat, py: nat)
    requires py < |rows| && px < |rows[py].cells|
    ensures Place(rows, px, py) < |Stream(rows)|
    ensures var before := Stream(rows)[..Place(rows, px, py)];
            WrapPosition(rows, px, py) == (Trail(before), CountBreaks(before))
  {
    hide Trail, CountBreaks, Before, Ended, Stream;
    PlacePrefix(rows, px, py);
    BeforeIsTrail(rows, py);
    TrailTokens(Stream(rows[..py]), rows[py].cells[..px]);
    CountTokens(rows[py].cells[..px]);
    CountConcat(Stream(rows[..py]), Tokens(rows[py].cells[..px]));
    assert |rows[py].cells[..px]| == px;
  }

  lemma {:induction false} FindPlace(rows: seq<Row>, p: nat) returns (px: nat, py: nat)
    requires p < |Stream(rows)| && Stream(rows)[p].Mark?
    ensures py < |rows| && px < |rows[py].cells| && Place(rows, px, py) == p
  {
    var n := |rows[0].cells| + |End(rows[0].wrapped)|;
    if p < n {
      assert rows[..0] == [];
      px, py := p, 0;
    } else {
      assert Stream(rows)[p] == Stream(rows[1..])[p - n];
      px, py := FindPlace(rows[1..], p - n);
      assert rows[..py + 1][1..] == rows[1..][..py];
      py := py + 1;
    }
  }

  /** A cell's wrapped position, unwrapped in any other rows that start with the same text, is the
    * place of that same cell. */
  lemma SameTextSameCell(rows: seq<Row>, rows': seq<Row>, px: nat, py: nat)
    requires py < |rows| && px < |rows[py].cells| && Terminated(rows')
    requires Stream(rows) <= Stream(rows') && |Flat(rows')| < UINT_MAX
    ensures var w := WrapPosition(rows, px, py);
            rows' != [] &&
            var (px', py') := UnwrapPosition(rows', w.0, w.1);
            && px' < |rows'[py'].cells| && Place(rows', px', py') == Place(rows, px, py)
            && rows'[py'].cells[px'] == rows[py].cells[px]
  {
    var p := Place(rows, px, py);
    PlacePrefix(rows, px, py);
    assert Stream(rows')[p] == Stream(rows)[p];
    var px', py' := FindPlace(rows', p);
    WrapIsText(rows, px, py);
    WrapIsText(rows', px', py');
    assert Stream(rows')[..p] == Stream(rows)[..p];
    WrapRoundTrip(rows', px', py');
    PlacePrefix(rows', px', py');
  }

  /** Taking the position of any used cell, reflowing to any width and going back lands on that same
    * cell. */
  lemma PositionSurvivesReflow(rows: seq<Row>, sx: nat, blanks: nat, px: nat, py: nat)
    requires sx >= 1 && Narrow(rows) && Terminated(rows) && NoGap(rows) && |Flat(rows)| < UINT_MAX
    requires py < |rows| && px < |rows[py].cells|
    ensures var rows' := Reflow(rows, sx) + Blanks(blanks);
            var w := WrapPosition(rows, px, py);
            rows' != [] && Terminated(rows') &&
            var (px', py') := UnwrapPosition(rows', w.0, w.1);
            && px' < |rows'[py'].cells| && Place(rows', px', py') == Place(rows, px, py)
            && rows'[py'].cells[px'] == rows[py].cells[px]
  {
    var rows' := Reflow(rows, sx) + Blanks(blanks);
    ReflowCanonical(rows, sx);
    BlanksCanonical(Reflow(rows, sx), blanks, sx);
    CanonicalNoGap(rows', sx);
    StreamConcat(Reflow(rows, sx), Blanks(blanks));
    ReflowKeepsCells(rows, sx);
    FlatConcat(Reflow(rows, sx), Blanks(blanks));
    FlatBlanks(blanks);
    SameTextSameCell(rows, rows', px, py);
  }

  // ---- Places behind the text ----

  function Least(a: nat, b: nat): nat {
    if a < b then a else b
  }

  /** The first loop stops at the first row of logical line `wy`, or on the last row if there is no such line. */
  lemma {:induction false} StartOf(rows: seq<Row>, wy: nat, yy: nat)
    requires yy < |rows| && Ended(rows, yy) <= wy && (yy > 0 && Ended(rows, yy) == wy ==> !rows[yy - 1].wrapped)
    ensures var y := LineStart(rows, wy, yy, Ended(rows, yy));
            && Ended(rows, y) == Least(wy, Ended(rows, |rows| - 1))
            && (wy <= Ended(rows, |rows| - 1) ==> y == 0 || !rows[y - 1].wrapped)
    decreases |rows| - yy
  {
    EndedGrows(rows, yy, |rows| - 1);
    if yy < |rows| - 1 && Ended(rows, yy) != wy {
      StartOf(rows, wy, yy + 1);
    }
  }

  lemma {:induction false} EndOf(rows: seq<Row>, yy: nat)
    requires yy < |rows| && Terminated(rows)
    ensures var e := WalkToEnd(rows, yy); !rows[e].wrapped && Ended(rows, e) == Ended(rows, yy)
    decreases |rows| - yy
  {
    if yy < |rows| - 1 && rows[yy].wrapped {
      EndOf(rows, yy + 1);
    }
  }

  /** The place just behind the cells of a row that is not WRAPPED is a line end. */
  lemma EndIsBreak(rows: seq<Row>, y: nat)
    requires y < |rows| && !rows[y].wrapped
    ensures Place(rows, |rows[y].cells|, y) < |Stream(rows)|
    ensures Stream(rows)[Place(rows, |rows[y].cells|, y)] == Break
    ensures CountBreaks(Stream(rows)[..Place(rows, |rows[y].cells|, y)]) == Ended(rows, y)
  {
    hide Stream, CountBreaks, Ended;
    assert rows == rows[..y] + rows[y..];
    StreamConcat(rows[..y], rows[y..]);
    StreamFrom(rows, y);
    BeforeIsTrail(rows, y);
    CountTokens(rows[y].cells);
    CountConcat(Stream(rows[..y]), Tokens(rows[y].cells));
    assert Stream(rows)[..Place(rows, |rows[y].cells|, y)] == Stream(rows[..y]) + Tokens(rows[y].cells);
  }

  /** The end of a line: unwrapping leads to its line end, or to the last one of the grid. */
  lemma UnwrapEnd(rows: seq<Row>, wy: nat)
    requires rows != [] && Terminated(rows)
    ensures CountBreaks(Stream(rows)) > 0
    ensures var (px, py) := UnwrapPosition(rows, UINT_MAX, wy);
            var end := Place(rows, px, py);
            && end < |Stream(rows)| && Stream(rows)[end] == Break
            && CountBreaks(Stream(rows)[..end]) == Least(wy, CountBreaks(Stream(rows)) - 1)
  {
    hide Stream, CountBreaks;
    var y := LineStart(rows, wy, 0, 0);
    StartOf(rows, wy, 0);
    EndOf(rows, y);
    EndIsBreak(rows, WalkToEnd(rows, y));
    BeforeIsTrail(rows, |rows|);
    assert rows[..|rows|] == rows;
  }

  /** A place behind the text of its row, wrapped and then unwrapped in any rows that start with the same
    * text, is the end of that same logical line, if and only if that line has ended there. */
  lemma SameTextSameEnd(rows: seq<Row>, rows': seq<Row>, px: nat, py: nat)
    requires py < |rows| && px >= |rows[py].cells| && rows' != [] && Terminated(rows')
    requires Stream(rows) <= Stream(rows')
    ensures var w := WrapPosition(rows, px, py);
            var (px', py') := UnwrapPosition(rows', w.0, w.1);
            var end := Place(rows', px', py');
            && end < |Stream(rows')| && Stream(rows')[end] == Break
            && (CountBreaks(Stream(rows')[..end]) == Ended(rows, py) <==> Ended(rows, py) < CountBreaks(Stream(rows')))
    ensures Terminated(rows) ==> Ended(rows, py) < CountBreaks(Stream(rows'))
  {
    hide Stream, CountBreaks;
    UnwrapEnd(rows', Ended(rows, py));
    if Terminated(rows) {
      BeforeIsTrail(rows, |rows|);
      assert rows[..|rows|] == rows;
      EndedGrows(rows, py, |rows| - 1);
      var rest := Stream(rows')[|Stream(rows)|..];
      assert Stream(rows') == Stream(rows) + rest;
      CountConcat(Stream(rows), rest);
    }
  }

  /** The cursor behind the text of a line stays at the end of that line, whatever the new width. */
  lemma EndSurvivesReflow(rows: seq<Row>, sx: nat, blanks: nat, px: nat, py: nat)
    requires sx >= 1 && Narrow(rows) && Terminated(rows) && NoGap(rows)
    requires py < |rows| && px >= |rows[py].cells|
    ensures var rows' := Reflow(rows, sx) + Blanks(blanks);
            var w := WrapPosition(rows, px, py);
            rows' != [] && Terminated(rows') &&
            var (px', py') := UnwrapPosition(rows', w.0, w.1);
            var end := Place(rows', px', py');
            && end < |Stream(rows')| && Stream(rows')[end] == Break
            && CountBreaks(Stream(rows')[..end]) == Ended(rows, py)
  {
    hide Reflow, Ended, UnwrapPosition, Place, CountBreaks;
    var rows' := Reflow(rows, sx) + Blanks(blanks);
    ReflowCanonical(rows, sx);
    BlanksCanonical(Reflow(rows, sx), blanks, sx);
    CanonicalNoGap(rows', sx);
    StreamConcat(Reflow(rows, sx), Blanks(blanks));
    BeforeIsTrail(rows, |rows|);
    assert rows' != [] by { EndIsBreak(rows, |rows| - 1); }
    SameTextSameEnd(rows, rows', px, py);
  }

  /** Any other place: the row found belongs to line `wy`, the column counts on from the cells of that line
    * before it, and it lies in that row unless the line is too short. */
  lemma UnwrapInside(rows: seq<Row>, wx: nat, wy: nat)
    requires rows != [] && Terminated(rows) && wx != UINT_MAX && wy < CountBreaks(Stream(rows))
    ensures var (px, py) := UnwrapPosition(rows, wx, wy);
            && Ended(rows, py) == wy && Before(rows, py) + px == wx
            && (px < |rows[py].cells| || !rows[py].wrapped)
  {
    BeforeIsTrail(rows, |rows|);
    assert rows[..|rows|] == rows;
    var y := LineStart(rows, wy, 0, 0);
    StartOf(rows, wy, 0);
    WalkFacts(rows, wx, y);
  }

  lemma {:induction false} WalkFacts(rows: seq<Row>, wx: nat, yy: nat)
    requires yy < |rows| && Terminated(rows)
    ensures var (px, py) := WalkTo(rows, wx, yy);
            && Ended(rows, py) == Ended(rows, yy) && Before(rows, py) + px == Before(rows, yy) + wx
            && (px < |rows[py].cells| || !rows[py].wrapped)
    decreases |rows| - yy
  {
    if rows[yy].wrapped && wx >= |rows[yy].cells| {
      WalkFacts(rows, wx - |rows[yy].cells|, yy + 1);
    }
  }

  lemma {:induction false} FlatBlanks(n: nat)
    ensures Flat(Blanks(n)) == []
  {
    if n > 0 {
      assert Blanks(n)[1..] == Blanks(n - 1);
      FlatBlanks(n - 1);
    }
  }
}
