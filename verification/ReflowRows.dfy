/** What `grid_reflow` does to the contents of a grid, on rows of cells.
 *
 * A row is what can be read of one line: its used cells and its WRAPPED flag.  `Reflow` follows the
 * code branch by branch for cells of any width; `GridReflow` proves that the in-place code computes
 * it.  The theorems here say what it keeps.
 */
module ReflowRows {
  import opened GridCell

  datatype Row = Row(cells: seq<Cell>, wrapped: bool)

  function Width(cells: seq<Cell>): nat {
    if cells == [] then 0 else Width(cells[..|cells| - 1]) + cells[|cells| - 1].glyph.width
  }

  /** How many cells of `cells`, from `k` on, still fit when `width` columns are taken. */
  function Fit(cells: seq<Cell>, k: nat, width: nat, sx: nat): (r: nat)
    requires k <= |cells|
    ensures k <= r <= |cells|
    decreases |cells| - k
  {
    if k == |cells| || width + cells[k].glyph.width > sx then k
    else Fit(cells, k + 1, width + cells[k].glyph.width, sx)
  }

  /** The result of the joining loop: the cells of the target row, whether every line met so far was
    * wrapped, how many lines were taken, whether any cell was, and what is left of the last one. */
  datatype Joined = Joined(cells: seq<Cell>, wrapped: bool, lines: nat, found: bool, left: seq<Cell>)

  /** What the loop does with the next line: stop, skip it because it is empty, or take the first
    * `want` of its cells (and stop there if `last`). */
  datatype Look = Stop | Skip | Take(want: nat, last: bool)

  function LookAt(width: nat, sx: nat, row: Row, wrapped: bool): (l: Look)
    ensures l.Take? ==> 1 <= l.want <= |row.cells| && (l.want < |row.cells| ==> l.last)
    ensures l.Skip? ==> row.cells == []
  {
    if row.cells == [] then (if wrapped then Skip else Stop)
    else if width + row.cells[0].glyph.width > sx then Stop
    else
      var want := Fit(row.cells, 1, width + row.cells[0].glyph.width, sx);
      Take(want, !wrapped || want != |row.cells| || width + Width(row.cells[..want]) == sx)
  }

  function JoinLoop(cells: seq<Cell>, width: nat, sx: nat, rest: seq<Row>, lines: nat,
                    wrapped: bool, found: bool): (j: Joined)
    requires lines <= |rest|
    ensures lines <= j.lines <= |rest|
    ensures j.left != [] ==> j.found && lines < j.lines
    decreases |rest| - lines
  {
    if lines == |rest| then Joined(cells, wrapped, lines, found, [])
    else
      var row := rest[lines];
      var wrapped' := wrapped && row.wrapped;
      match LookAt(width, sx, row, wrapped')
      case Stop => Joined(cells, wrapped', lines, found, [])
      case Skip => JoinLoop(cells, width, sx, rest, lines + 1, wrapped', found)
      case Take(want, last) =>
        if last then Joined(cells + row.cells[..want], wrapped', lines + 1, true, row.cells[want..])
        else JoinLoop(cells + row.cells, width + Width(row.cells), sx, rest, lines + 1, wrapped', true)
  }

  /** The target row after joining; its flag is cleared when a whole unwrapped line was taken. */
  function JoinedRow(cells: seq<Cell>, j: Joined): Row {
    if !j.found then Row(cells, true) else Row(j.cells, j.left != [] || j.wrapped)
  }

  /** The lines that remain after joining. */
  function JoinedRest(rest: seq<Row>, j: Joined): (r: seq<Row>)
    requires j.lines <= |rest| && (j.left != [] ==> j.lines > 0)
    ensures |r| <= |rest|
  {
    if !j.found then rest
    else if j.left != [] then [Row(j.left, rest[j.lines - 1].wrapped)] + rest[j.lines..]
    else rest[j.lines..]
  }

  /** The cell at which a line that is too wide is cut.  Zero also stands for "not found yet", so a
    * first cell wider than the screen does not stop the search. */
  function At(cells: seq<Cell>, i: nat, at: nat, width: nat, sx: nat): (r: nat)
    requires at <= i <= |cells|
    ensures r <= |cells|
    decreases |cells| - i
  {
    if i == |cells| then at
    else At(cells, i + 1, if at == 0 && width + cells[i].glyph.width > sx then i else at,
            width + cells[i].glyph.width, sx)
  }

  /** The rows that the remainder of a long line is cut into; the last one is being filled. */
  function Chunks(row: seq<Cell>, width: nat, cells: seq<Cell>, i: nat, sx: nat): (r: seq<seq<Cell>>)
    requires i <= |cells|
    ensures r != []
    decreases |cells| - i
  {
    if i == |cells| then [row]
    else if width + cells[i].glyph.width > sx then
      [row] + Chunks([cells[i]], cells[i].glyph.width, cells, i + 1, sx)
    else Chunks(row + [cells[i]], width + cells[i].glyph.width, cells, i + 1, sx)
  }

  function AllWrapped(chunks: seq<seq<Cell>>): seq<Row> {
    seq(|chunks|, i requires 0 <= i < |chunks| => Row(chunks[i], true))
  }

  /** The rows a long line becomes, before its last row is joined with what follows. */
  function SplitRows(cells: seq<Cell>, sx: nat): (r: seq<seq<Cell>>)
    ensures |r| >= 2
  {
    var at := At(cells, 0, 0, 0, sx);
    [cells[..at]] + Chunks([], 0, cells, at, sx)
  }

  /** One turn of the main loop: the rows finished, and the lines still to do. */
  datatype Turn = Turn(out: seq<Row>, rest: seq<Row>)

  /** Fill up a row that is not full yet from the lines below it. */
  function JoinTurn(full: seq<Row>, cells: seq<Cell>, rest: seq<Row>, sx: nat): (t: Turn)
    ensures |t.rest| <= |rest|
  {
    var j := JoinLoop(cells, Width(cells), sx, rest, 0, true, false);
    Turn(full + [JoinedRow(cells, j)], JoinedRest(rest, j))
  }

  function SplitTurn(row: Row, rest: seq<Row>, sx: nat): (t: Turn)
    ensures |t.rest| <= |rest|
  {
    var split := SplitRows(row.cells, sx);
    var last := split[|split| - 1];
    var full := AllWrapped(split[..|split| - 1]);
    if row.wrapped && Width(last) < sx then JoinTurn(full, last, rest, sx)
    else Turn(full + [Row(last, row.wrapped)], rest)
  }

  function OneTurn(row: Row, rest: seq<Row>, sx: nat): (t: Turn)
    ensures |t.rest| <= |rest|
  {
    var width := Width(row.cells);
    if width > sx then SplitTurn(row, rest, sx)
    else if width < sx && row.wrapped then JoinTurn([], row.cells, rest, sx)
    else Turn([row], rest)
  }

  function Reflow(rows: seq<Row>, sx: nat): seq<Row>
    decreases |rows|
  {
    if rows == [] then []
    else
      var t := OneTurn(rows[0], rows[1..], sx);
      t.out + Reflow(t.rest, sx)
  }

  // ---- No cell is lost, duplicated or reordered, whatever the widths ----

  function Flat(rows: seq<Row>): seq<Cell> {
    if rows == [] then [] else rows[0].cells + Flat(rows[1..])
  }

  lemma {:induction false} FlatConcat(a: seq<Row>, b: seq<Row>)
    ensures Flat(a + b) == Flat(a) + Flat(b)
  {
    if a == [] {
      assert a + b == b;
    } else {
      assert (a + b)[1..] == a[1..] + b;
      FlatConcat(a[1..], b);
    }
  }

  lemma {:induction false} JoinFound(cells: seq<Cell>, width: nat, sx: nat, rest: seq<Row>, lines: nat,
                                     wrapped: bool, found: bool)
    requires lines <= |rest|
    ensures var j := JoinLoop(cells, width, sx, rest, lines, wrapped, found);
            (found ==> j.found) && (!j.found ==> j.cells == cells)
    decreases |rest| - lines
  {
    if lines < |rest| {
      var row := rest[lines];
      var wrapped' := wrapped && row.wrapped;
      match LookAt(width, sx, row, wrapped')
      case Stop =>
      case Skip => JoinFound(cells, width, sx, rest, lines + 1, wrapped', found);
      case Take(want, last) =>
        if !last {
          JoinFound(cells + row.cells, width + Width(row.cells), sx, rest, lines + 1, wrapped', true);
        }
    }
  }

  lemma FlatFrom(cells: seq<Cell>, rest: seq<Row>, k: nat, want: nat)
    requires k < |rest| && want <= |rest[k].cells|
    ensures cells + Flat(rest[k..]) == (cells + rest[k].cells[..want]) + (rest[k].cells[want..] + Flat(rest[k + 1..]))
  {
    var some, others, tail := rest[k].cells[..want], rest[k].cells[want..], Flat(rest[k + 1..]);
    FlatSkip(rest, k);
    hide Flat;
    assert rest[k].cells == some + others;
    Assoc(some, others, tail);
    Assoc(cells, some, others + tail);
  }

  lemma FlatSkip(rest: seq<Row>, k: nat)
    requires k < |rest|
    ensures Flat(rest[k..]) == rest[k].cells + Flat(rest[k + 1..])
    ensures rest[k].cells == [] ==> Flat(rest[k..]) == Flat(rest[k + 1..])
  {
    assert rest[k..][1..] == rest[k + 1..];
  }

  lemma Assoc(a: seq<Cell>, b: seq<Cell>, c: seq<Cell>)
    ensures a + (b + c) == a + b + c
  {
  }

  lemma NothingTaken(cells: seq<Cell>)
    ensures [] + cells == cells
  {
  }

  lemma {:induction false} JoinFlat(cells: seq<Cell>, width: nat, sx: nat, rest: seq<Row>, lines: nat,
                                    wrapped: bool, found: bool)
    requires lines <= |rest|
    ensures var j := JoinLoop(cells, width, sx, rest, lines, wrapped, found);
            cells + Flat(rest[lines..]) == j.cells + (j.left + Flat(rest[j.lines..]))
    decreases |rest| - lines
  {
    hide Flat, Fit, Width;
    NothingTaken(Flat(rest[lines..]));
    if lines < |rest| {
      var row := rest[lines];
      var wrapped' := wrapped && row.wrapped;
      match LookAt(width, sx, row, wrapped')
      case Stop =>
      case Skip =>
        FlatSkip(rest, lines);
        JoinFlat(cells, width, sx, rest, lines + 1, wrapped', found);
      case Take(want, last) =>
        if last {
          FlatFrom(cells, rest, lines, want);
        } else {
          FlatSkip(rest, lines);
          Assoc(cells, row.cells, Flat(rest[lines + 1..]));
          JoinFlat(cells + row.cells, width + Width(row.cells), sx, rest, lines + 1, wrapped', true);
        }
    }
  }

  lemma JoinedFlat(cells: seq<Cell>, sx: nat, rest: seq<Row>)
    ensures var j := JoinLoop(cells, Width(cells), sx, rest, 0, true, false);
            JoinedRow(cells, j).cells + Flat(JoinedRest(rest, j)) == cells + Flat(rest)
  {
    var j := JoinLoop(cells, Width(cells), sx, rest, 0, true, false);
    JoinFlat(cells, Width(cells), sx, rest, 0, true, false);
    JoinFound(cells, Width(cells), sx, rest, 0, true, false);
    assert rest[0..] == rest;
    if j.found && j.left != [] {
      assert ([Row(j.left, rest[j.lines - 1].wrapped)] + rest[j.lines..])[1..] == rest[j.lines..];
    }
  }

  function Concat(chunks: seq<seq<Cell>>): seq<Cell> {
    if chunks == [] then [] else chunks[0] + Concat(chunks[1..])
  }

  lemma {:induction false} ChunksConcat(row: seq<Cell>, width: nat, cells: seq<Cell>, i: nat, sx: nat)
    requires i <= |cells|
    ensures Concat(Chunks(row, width, cells, i, sx)) == row + cells[i..]
    decreases |cells| - i
  {
    if i == |cells| {
      assert Concat([row]) == row + Concat([]);
    } else if width + cells[i].glyph.width > sx {
      ChunksConcat([cells[i]], cells[i].glyph.width, cells, i + 1, sx);
      var tail := Chunks([cells[i]], cells[i].glyph.width, cells, i + 1, sx);
      assert ([row] + tail)[1..] == tail;
    } else {
      ChunksConcat(row + [cells[i]], width + cells[i].glyph.width, cells, i + 1, sx);
    }
  }

  lemma {:induction false} FlatWrapped(chunks: seq<seq<Cell>>, last: seq<Cell>)
    ensures Flat(AllWrapped(chunks)) + last == Concat(chunks + [last])
  {
    if chunks == [] {
      assert chunks + [last] == [last];
      assert Concat([last]) == last + Concat([]);
    } else {
      assert AllWrapped(chunks)[1..] == AllWrapped(chunks[1..]);
      assert (chunks + [last])[1..] == chunks[1..] + [last];
      FlatWrapped(chunks[1..], last);
    }
  }

  lemma SplitFlat(cells: seq<Cell>, sx: nat)
    ensures var split := SplitRows(cells, sx);
            Flat(AllWrapped(split[..|split| - 1])) + split[|split| - 1] == cells
  {
    var split := SplitRows(cells, sx);
    var at := At(cells, 0, 0, 0, sx);
    ChunksConcat([], 0, cells, at, sx);
    FlatWrapped(split[..|split| - 1], split[|split| - 1]);
    assert split[..|split| - 1] + [split[|split| - 1]] == split;
    assert split[1..] == Chunks([], 0, cells, at, sx);
    assert cells[..at] + cells[at..] == cells;
  }

  lemma FlatLast(full: seq<Row>, row: Row)
    ensures Flat(full + [row]) == Flat(full) + row.cells
  {
    FlatConcat(full, [row]);
    assert Flat([row]) == row.cells + Flat([]);
  }

  lemma JoinTurnFlat(full: seq<Row>, cells: seq<Cell>, rest: seq<Row>, sx: nat)
    ensures var t := JoinTurn(full, cells, rest, sx);
            Flat(t.out) + Flat(t.rest) == Flat(full) + cells + Flat(rest)
  {
    hide JoinLoop, JoinedRow, JoinedRest, Flat;
    var j := JoinLoop(cells, Width(cells), sx, rest, 0, true, false);
    var a, row, tail := Flat(full), JoinedRow(cells, j).cells, Flat(JoinedRest(rest, j));
    JoinedFlat(cells, sx, rest);
    FlatLast(full, JoinedRow(cells, j));
    Assoc(a, row, tail);
    Assoc(a, cells, Flat(rest));
  }

  lemma SplitTurnFlat(row: Row, rest: seq<Row>, sx: nat)
    ensures var t := SplitTurn(row, rest, sx); Flat(t.out) + Flat(t.rest) == row.cells + Flat(rest)
  {
    hide Flat, JoinTurn, SplitRows, AllWrapped;
    var split := SplitRows(row.cells, sx);
    var last := split[|split| - 1];
    var full := AllWrapped(split[..|split| - 1]);
    SplitFlat(row.cells, sx);
    if row.wrapped && Width(last) < sx {
      JoinTurnFlat(full, last, rest, sx);
    } else {
      FlatLast(full, Row(last, row.wrapped));
    }
  }

  lemma NoRows(cells: seq<Cell>)
    ensures Flat([]) + cells == cells
  {
  }

  lemma TurnFlat(row: Row, rest: seq<Row>, sx: nat)
    ensures var t := OneTurn(row, rest, sx); Flat(t.out) + Flat(t.rest) == row.cells + Flat(rest)
  {
    hide Flat, JoinTurn, SplitTurn, Width;
    NoRows(row.cells);
    if Width(row.cells) > sx {
      SplitTurnFlat(row, rest, sx);
    } else if Width(row.cells) < sx && row.wrapped {
      JoinTurnFlat([], row.cells, rest, sx);
    } else {
      FlatLast([], row);
      assert [] + [row] == [row];
    }
  }

  /** Reflowing keeps every used cell, once and in order, for cells of any width and any flags. */
  lemma {:induction false} ReflowKeepsCells(rows: seq<Row>, sx: nat)
    ensures Flat(Reflow(rows, sx)) == Flat(rows)
    decreases |rows|
  {
    if rows != [] {
      var t := OneTurn(rows[0], rows[1..], sx);
      TurnFlat(rows[0], rows[1..], sx);
      ReflowKeepsCells(t.rest, sx);
      FlatConcat(t.out, Reflow(t.rest, sx));
    }
  }
}
