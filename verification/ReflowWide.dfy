/** Reflowing cells of any width: when the logical lines survive.
  *
  * The rows are laid out greedily, as the loops of `grid_reflow` do it.  A target row that is being filled
  * is open; it is joined when cells have been added to it from a further source row.  A logical line is cut
  * in two where its last source row cannot add anything to a row that has been joined: the WRAPPED flag is
  * cleared for the last source row before that row is known to fit.
  */
module ReflowWide {
  import opened GridCell
  import opened ReflowRows
  import opened ReflowLayout

  /** The width of the last row when cells are placed one after the other, from column `width` on. */
  function Column(cells: seq<Cell>, width: nat, sx: nat): nat {
    if cells == [] then width
    else
      var last, before := cells[|cells| - 1].glyph.width, Column(cells[..|cells| - 1], width, sx);
      if before + last > sx then last else before + last
  }

  /** The row being filled, if there is one: its width, whether it has been joined, and whether an empty
    * WRAPPED row has been skipped since. */
  datatype Line = Closed | Open(width: nat, joined: bool, skipped: bool)

  /** The row being filled after the next source row. */
  function Greedy(line: Line, row: Row, sx: nat): Line {
    var width := Column(row.cells, if line.Open? then line.width else 0, sx);
    if !row.wrapped || width >= sx then Closed
    else if line.Closed? then Open(width, false, false)
    else if row.cells == [] then line.(skipped := true)
    else if NoRoom(line, row, sx) then
      // a row that has not been joined is left, and so are the empty rows below it; the next row is joined to these
      Open(width, !line.joined && line.skipped && Width(row.cells) <= sx, false)
    else Open(width, line.width + Width(row.cells) <= sx, false)
  }

  predicate NoRoom(line: Line, row: Row, sx: nat) {
    line.Open? && (row.cells == [] || line.width + row.cells[0].glyph.width > sx)
  }

  /** The last source row of a logical line adds nothing to a row that has been joined. */
  predicate CutAt(line: Line, row: Row, sx: nat) {
    NoRoom(line, row, sx) && line.joined && !row.wrapped
  }

  /** How often that happens. */
  function Cuts(rows: seq<Row>, line: Line, sx: nat): nat {
    if rows == [] then 0
    else (if CutAt(line, rows[0], sx) then 1 else 0) + Cuts(rows[1..], Greedy(line, rows[0], sx), sx)
  }

  // ---- Widths ----

  lemma {:induction false} WidthConcat(a: seq<Cell>, b: seq<Cell>)
    ensures Width(a + b) == Width(a) + Width(b)
    decreases |b|
  {
    if b == [] {
      assert a + b == a;
    } else {
      assert (a + b)[..|a + b| - 1] == a + b[..|b| - 1];
      WidthConcat(a, b[..|b| - 1]);
    }
  }

  lemma {:induction false} ColumnConcat(a: seq<Cell>, b: seq<Cell>, width: nat, sx: nat)
    ensures Column(a + b, width, sx) == Column(b, Column(a, width, sx), sx)
    decreases |b|
  {
    if b == [] {
      assert a + b == a;
    } else {
      assert (a + b)[..|a + b| - 1] == a + b[..|b| - 1];
      ColumnConcat(a, b[..|b| - 1], width, sx);
    }
  }

  lemma {:induction false} ColumnFits(cells: seq<Cell>, width: nat, sx: nat)
    requires width + Width(cells) <= sx
    ensures Column(cells, width, sx) == width + Width(cells)
    decreases |cells|
  {
    if cells != [] { ColumnFits(cells[..|cells| - 1], width, sx); }
  }

  lemma WidthOne(cell: Cell)
    ensures Width([cell]) == cell.glyph.width
  {
    assert Width([cell][..0]) == 0;
  }

  /** A cell that does not fit starts a row of its own. */
  lemma ColumnReset(cells: seq<Cell>, width: nat, sx: nat)
    requires cells != [] && width + cells[0].glyph.width > sx
    ensures Column(cells, width, sx) == Column(cells, 0, sx)
  {
    var a, b := cells[..1], cells[1..];
    assert cells == a + b && a[..0] == [];
    ColumnConcat(a, b, width, sx);
    ColumnConcat(a, b, 0, sx);
  }

  /** What fits is no wider than the screen, and the next cell would be. */
  lemma {:induction false} FitWidth(cells: seq<Cell>, k: nat, width: nat, width0: nat, sx: nat)
    requires k <= |cells| && width == width0 + Width(cells[..k]) && width <= sx
    ensures var want := Fit(cells, k, width, sx);
            && width0 + Width(cells[..want]) <= sx
            && (want < |cells| ==> width0 + Width(cells[..want]) + cells[want].glyph.width > sx)
    decreases |cells| - k
  {
    if k < |cells| && width + cells[k].glyph.width <= sx {
      assert cells[..k + 1][..k] == cells[..k];
      FitWidth(cells, k + 1, width + cells[k].glyph.width, width0, sx);
    }
  }

  lemma TakeWidth(cells: seq<Cell>, width: nat, sx: nat, want: nat)
    requires cells != [] && width + cells[0].glyph.width <= sx
    requires want == Fit(cells, 1, width + cells[0].glyph.width, sx)
    ensures width + Width(cells[..want]) <= sx
    ensures want < |cells| ==> width + Width(cells[..want]) + cells[want].glyph.width > sx
  {
    assert cells[..1] == [cells[0]];
    WidthOne(cells[0]);
    FitWidth(cells, 1, width + cells[0].glyph.width, width, sx);
  }

  /** How much of a row is taken, and where the greedy layout is after it. */
  lemma TakeColumn(cells: seq<Cell>, width: nat, sx: nat, want: nat)
    requires cells != [] && width + cells[0].glyph.width <= sx
    requires want == Fit(cells, 1, width + cells[0].glyph.width, sx)
    ensures want == |cells| <==> width + Width(cells) <= sx
    ensures want == |cells| ==> Column(cells, width, sx) == width + Width(cells) && cells[..want] == cells
    ensures want < |cells| ==> Column(cells, width, sx) == Column(cells[want..], 0, sx)
    ensures width + Width(cells[..want]) <= sx
  {
    hide Width, Column, Fit;
    TakeWidth(cells, width, sx, want);
    if want == |cells| {
      assert cells[..want] == cells;
      ColumnFits(cells, width, sx);
    } else {
      TakePart(cells, width, sx, want);
    }
  }

  lemma TakePart(cells: seq<Cell>, width: nat, sx: nat, want: nat)
    requires want < |cells| && width + Width(cells[..want]) <= sx
    requires width + Width(cells[..want]) + cells[want].glyph.width > sx
    ensures width + Width(cells) > sx && Column(cells, width, sx) == Column(cells[want..], 0, sx)
  {
    hide Width, Column;
    var a, b := cells[..want], cells[want..];
    assert cells == a + b;
    WidthConcat(a, b);
    WidthStart(b);
    ColumnFits(a, width, sx);
    ColumnConcat(a, b, width, sx);
    ColumnReset(b, width + Width(a), sx);
  }

  lemma WidthStart(cells: seq<Cell>)
    requires cells != []
    ensures Width(cells) >= cells[0].glyph.width
  {
    assert cells == [cells[0]] + cells[1..];
    WidthConcat([cells[0]], cells[1..]);
    WidthOne(cells[0]);
  }

  // ---- Splitting ----

  lemma {:induction false} ChunksColumn(row: seq<Cell>, width: nat, cells: seq<Cell>, i: nat, sx: nat)
    requires i <= |cells| && width == Width(row)
    ensures var r := Chunks(row, width, cells, i, sx); Width(r[|r| - 1]) == Column(cells[i..], width, sx)
    decreases |cells| - i
  {
    if i < |cells| {
      var w := cells[i].glyph.width;
      var next := if width + w > sx then [cells[i]] else row + [cells[i]];
      WidthOne(cells[i]);
      WidthConcat(row, [cells[i]]);
      assert cells[i..] == [cells[i]] + cells[i + 1..] && [cells[i]][..0] == [];
      ColumnConcat([cells[i]], cells[i + 1..], width, sx);
      ChunksColumn(next, Width(next), cells, i + 1, sx);
    }
  }

  /** The cut of a long line is where the first row is full. */
  lemma {:induction false} AtColumn(cells: seq<Cell>, i: nat, at: nat, sx: nat)
    requires at <= i <= |cells|
    requires at == 0 ==> i <= 1 || Width(cells[..i]) <= sx
    requires at > 0 ==> at < i && Column(cells[..at], 0, sx) + cells[at].glyph.width > sx
    ensures var r := At(cells, i, at, Width(cells[..i]), sx);
            r > 0 ==> r < |cells| && Column(cells[..r], 0, sx) + cells[r].glyph.width > sx
    decreases |cells| - i
  {
    if i < |cells| {
      hide Column;
      var width := Width(cells[..i]);
      assert cells[..i + 1][..i] == cells[..i];
      if at == 0 && i > 0 && width + cells[i].glyph.width > sx {
        FullAt(cells, i, sx);
        AtColumn(cells, i + 1, i, sx);
      } else {
        AtColumn(cells, i + 1, at, sx);
      }
    }
  }

  lemma FullAt(cells: seq<Cell>, i: nat, sx: nat)
    requires 0 < i < |cells| && (i == 1 || Width(cells[..i]) <= sx) && Width(cells[..i]) + cells[i].glyph.width > sx
    ensures Column(cells[..i], 0, sx) + cells[i].glyph.width > sx
  {
    hide Column, Width;
    if i == 1 { ColumnFirst(cells, sx); } else { ColumnFits(cells[..i], 0, sx); }
  }

  lemma ColumnFirst(cells: seq<Cell>, sx: nat)
    requires cells != []
    ensures Column(cells[..1], 0, sx) == Width(cells[..1]) == cells[0].glyph.width
  {
    assert cells[..1][..0] == [];
  }

  lemma SplitColumn(cells: seq<Cell>, sx: nat)
    ensures var split := SplitRows(cells, sx); Width(split[|split| - 1]) == Column(cells, 0, sx)
  {
    hide Column, Chunks, At;
    var at := At(cells, 0, 0, 0, sx);
    WidthNone(cells);
    AtColumn(cells, 0, 0, sx);
    ChunksColumn([], 0, cells, at, sx);
    if at > 0 {
      assert cells == cells[..at] + cells[at..];
      ColumnConcat(cells[..at], cells[at..], 0, sx);
      ColumnReset(cells[at..], Column(cells[..at], 0, sx), sx);
    } else {
      assert cells[0..] == cells;
    }
  }

  lemma WidthNone(cells: seq<Cell>)
    ensures Width(cells[..0]) == 0
  {
  }

  // ---- Joining: the text ----

  /** The flag of the last row taken. */
  function LastEnd(rest: seq<Row>, from: nat, to: nat): seq<Token>
    requires to <= |rest|
  {
    if from < to then End(rest[to - 1].wrapped) else []
  }

  /** The join takes text from the rows below and leaves the rest of it. */
  ghost predicate Joins(cells: seq<Cell>, rest: seq<Row>, lines: nat, j: Joined) {
    && lines <= j.lines <= |rest|
    && Tokens(cells) + Stream(rest[lines..])
       == Tokens(j.cells) + (Tokens(j.left) + LastEnd(rest, lines, j.lines) + Stream(rest[j.lines..]))
  }

  lemma JoinsNothing(cells: seq<Cell>, rest: seq<Row>, lines: nat, wrapped: bool, found: bool)
    requires lines <= |rest|
    ensures Joins(cells, rest, lines, Joined(cells, wrapped, lines, found, []))
  {
    hide Stream;
    NoTokens();
    assert [] + [] + Stream(rest[lines..]) == Stream(rest[lines..]);
  }

  lemma JoinsSome(cells: seq<Cell>, rest: seq<Row>, lines: nat, want: nat, wrapped: bool)
    requires lines < |rest| && want <= |rest[lines].cells|
    ensures var row := rest[lines];
            Joins(cells, rest, lines, Joined(cells + row.cells[..want], wrapped, lines + 1, true, row.cells[want..]))
  {
    hide Stream, Tokens, End;
    var row := rest[lines];
    var a, b, tail := row.cells[..want], row.cells[want..], Stream(rest[lines + 1..]);
    assert row.cells == a + b;
    StreamFrom(rest, lines);
    TokensConcat(cells, a);
    TokensConcat(a, b);
    Assoc3(Tokens(a), Tokens(b), End(row.wrapped));
    Assoc3(Tokens(a), Tokens(b) + End(row.wrapped), tail);
    Assoc3(Tokens(cells), Tokens(a), Tokens(b) + End(row.wrapped) + tail);
  }

  lemma JoinsMore(cells: seq<Cell>, rest: seq<Row>, lines: nat, j: Joined)
    requires lines < |rest| && rest[lines].wrapped && Joins(cells + rest[lines].cells, rest, lines + 1, j)
    ensures Joins(cells, rest, lines, j)
  {
    hide Stream, Tokens;
    var row, tail := rest[lines], Stream(rest[lines + 1..]);
    StreamFrom(rest, lines);
    TokensConcat(cells, row.cells);
    NothingAfter(Tokens(row.cells));
    Assoc3(Tokens(cells), Tokens(row.cells), tail);
    if j.lines == lines + 1 { assert LastEnd(rest, lines, j.lines) == [] == LastEnd(rest, lines + 1, j.lines); }
  }

  /** Which rows the join takes: all WRAPPED, but perhaps the last; it stops at the end of the lines, at a
    * row it takes with its flag, or at a row that it has no room for. */
  ghost predicate JoinsUpTo(rest: seq<Row>, lines: nat, j: Joined) {
    && lines <= j.lines <= |rest| && (j.found ==> j.lines > 0)
    && (forall i :: 0 <= i < j.lines - 1 ==> rest[i].wrapped)
    && (j.wrapped && j.lines > 0 ==> rest[j.lines - 1].wrapped)
  }

  lemma {:induction false} JoinText(cells: seq<Cell>, width: nat, sx: nat, rest: seq<Row>, lines: nat, found: bool)
    requires lines <= |rest| && (forall i :: 0 <= i < lines ==> rest[i].wrapped) && (found ==> lines > 0)
    ensures var j := JoinLoop(cells, width, sx, rest, lines, true, found);
            Joins(cells, rest, lines, j) && JoinsUpTo(rest, lines, j)
    decreases |rest| - lines
  {
    hide Joins, Fit, Width;
    if lines == |rest| {
      JoinsNothing(cells, rest, lines, true, found);
    } else {
      var row := rest[lines];
      match LookAt(width, sx, row, row.wrapped)
      case Stop => JoinsNothing(cells, rest, lines, row.wrapped, found);
      case Skip =>
        JoinText(cells, width, sx, rest, lines + 1, found);
        assert cells + row.cells == cells;
        JoinsMore(cells, rest, lines, JoinLoop(cells, width, sx, rest, lines + 1, true, found));
      case Take(want, last) =>
        if last {
          JoinsSome(cells, rest, lines, want, row.wrapped);
        } else {
          JoinText(cells + row.cells, width + Width(row.cells), sx, rest, lines + 1, true);
          JoinsMore(cells, rest, lines,
                    JoinLoop(cells + row.cells, width + Width(row.cells), sx, rest, lines + 1, true, true));
        }
    }
  }

  /** The joined row ends a logical line that goes on below. */
  predicate Cut(rest: seq<Row>, j: Joined)
    requires j.lines <= |rest|
  {
    j.found && j.left == [] && !j.wrapped && j.lines > 0 && rest[j.lines - 1].wrapped
  }

  /** The same text, but for one more break if there is a cut. */
  ghost predicate CutText(before: seq<Token>, after: seq<Token>, cut: bool) {
    if cut then CountBreaks(after) == CountBreaks(before) + 1 else after == before
  }

  lemma JoinedText(cells: seq<Cell>, rest: seq<Row>, j: Joined)
    requires Joins(cells, rest, 0, j) && JoinsUpTo(rest, 0, j) && (j.left != [] ==> j.found) && (!j.found ==> j.cells == cells)
    ensures CutText(Tokens(cells) + Stream(rest),
                    Stream([JoinedRow(cells, j)]) + Stream(JoinedRest(rest, j)), Cut(rest, j))
  {
    hide Stream, Tokens, CountBreaks;
    var row, tail := JoinedRow(cells, j), rest[j.lines..];
    assert rest[0..] == rest;
    StreamOne(row);
    NothingAfter(Tokens(row.cells));
    if j.found {
      if j.left != [] {
        StreamCons(Row(j.left, rest[j.lines - 1].wrapped), tail);
      } else {
        NoTokens();
        EmptyFirst(LastEnd(rest, 0, j.lines));
        Assoc3(Tokens(j.cells), LastEnd(rest, 0, j.lines), Stream(tail));
        if Cut(rest, j) {
          NothingAfter(Tokens(j.cells));
          OneBreakMore(Tokens(j.cells), Stream(tail));
        }
      }
    }
  }

  lemma EmptyFirst(s: seq<Token>)
    ensures [] + s == s
  {
  }

  lemma OneBreakMore(a: seq<Token>, b: seq<Token>)
    ensures CountBreaks(a + [Break] + b) == CountBreaks(a + b) + 1
  {
    CountConcat(a + [Break], b);
    CountConcat(a, [Break]);
    CountConcat(a, b);
    assert [Break][1..] == [];
  }

  // ---- Joining: the cuts ----

  lemma CutsFrom(rows: seq<Row>, k: nat, line: Line, sx: nat)
    requires k < |rows|
    ensures Cuts(rows[k..], line, sx)
         == (if CutAt(line, rows[k], sx) then 1 else 0) + Cuts(rows[k + 1..], Greedy(line, rows[k], sx), sx)
  {
    assert rows[k..][1..] == rows[k + 1..];
  }

  lemma CutsCons(row: Row, rows: seq<Row>, line: Line, sx: nat)
    ensures Cuts([row] + rows, line, sx)
         == (if CutAt(line, row, sx) then 1 else 0) + Cuts(rows, Greedy(line, row, sx), sx)
  {
    assert ([row] + rows)[1..] == rows;
  }

  function Count(cut: bool): nat {
    if cut then 1 else 0
  }

  /** What a join leaves is laid out like the rows it was given. */
  ghost predicate JoinsCuts(line: Line, rest: seq<Row>, lines: nat, j: Joined, sx: nat) {
    && lines <= j.lines <= |rest| && (j.left != [] ==> j.lines > 0)
    && Cuts(rest[lines..], line, sx) == Count(Cut(rest, j)) + Cuts(JoinedRest(rest, j), Closed, sx)
  }

  /** One turn of the joining loop. */
  lemma JoinStep(cells: seq<Cell>, width: nat, sx: nat, rest: seq<Row>, lines: nat, found: bool)
    requires lines < |rest|
    ensures var row := rest[lines];
            JoinLoop(cells, width, sx, rest, lines, true, found)
            == match LookAt(width, sx, row, row.wrapped)
               case Stop => Joined(cells, row.wrapped, lines, found, [])
               case Skip => JoinLoop(cells, width, sx, rest, lines + 1, true, found)
               case Take(want, last) =>
                 if last then Joined(cells + row.cells[..want], row.wrapped, lines + 1, true, row.cells[want..])
                 else JoinLoop(cells + row.cells, width + Width(row.cells), sx, rest, lines + 1, true, true)
  {
    hide Width, Fit;
  }

  /** A join that adds something. */
  lemma {:induction false} JoinCuts(cells: seq<Cell>, width: nat, sx: nat, rest: seq<Row>, lines: nat, found: bool,
                                    skipped: bool)
    requires width < sx && lines <= |rest| && (forall i :: 0 <= i < lines ==> rest[i].wrapped) && (found ==> lines > 0)
    requires JoinLoop(cells, width, sx, rest, lines, true, found).found
    ensures JoinsCuts(Open(width, found, skipped), rest, lines, JoinLoop(cells, width, sx, rest, lines, true, found), sx)
    decreases |rest| - lines
  {
    hide Cuts, Width, JoinLoop, LookAt, JoinsCuts, Greedy, CutAt;
    JoinStops(cells, width, sx, rest, lines, found);
    var line := Open(width, found, skipped);
    if lines == |rest| {
      EndCuts(cells, line, rest, sx);
    } else {
      var row := rest[lines];
      JoinStep(cells, width, sx, rest, lines, found);
      var j := JoinLoop(cells, width, sx, rest, lines, true, found);
      match LookAt(width, sx, row, row.wrapped)
      case Stop => StopCuts(cells, line, rest, lines, sx);
      case Skip =>
        SkipCuts(line, rest, lines, sx);
        JoinCuts(cells, width, sx, rest, lines + 1, found, true);
        CutsMore(line, rest, lines, j, sx);
      case Take(want, last) =>
        if last {
          LastCuts(cells + row.cells[..want], line, rest, lines, want, sx);
        } else {
          TakeCuts(line, row, sx, want, last, rest[lines + 1..]);
          JoinCuts(cells + row.cells, width + Width(row.cells), sx, rest, lines + 1, true, false);
          CutsMore(line, rest, lines, j, sx);
        }
    }
  }

  lemma EndCuts(cells: seq<Cell>, line: Line, rest: seq<Row>, sx: nat)
    ensures JoinsCuts(line, rest, |rest|, Joined(cells, true, |rest|, true, []), sx)
  {
    NoCuts(line, sx);
    NoCuts(Closed, sx);
    assert rest[|rest|..] == [];
  }

  /** A joined row that the next row cannot be added to. */
  lemma StopCuts(cells: seq<Cell>, line: Line, rest: seq<Row>, lines: nat, sx: nat)
    requires 0 < lines < |rest| && rest[lines - 1].wrapped && line.Open? && line.joined && line.width < sx
    requires LookAt(line.width, sx, rest[lines], rest[lines].wrapped).Stop?
    ensures JoinsCuts(line, rest, lines, Joined(cells, rest[lines].wrapped, lines, true, []), sx)
  {
    hide Cuts, Column, Fit, Width;
    var row := rest[lines];
    CutsFrom(rest, lines, line, sx);
    CutsFrom(rest, lines, Closed, sx);
    if row.cells != [] { ColumnReset(row.cells, line.width, sx); }
  }

  lemma SkipCuts(line: Line, rest: seq<Row>, lines: nat, sx: nat)
    requires lines < |rest| && line.Open? && line.width < sx
    requires LookAt(line.width, sx, rest[lines], rest[lines].wrapped).Skip?
    ensures rest[lines].wrapped && !CutAt(line, rest[lines], sx)
    ensures Greedy(line, rest[lines], sx) == line.(skipped := true)
  {
    hide Column, Fit, Width;
    ColumnNone(line.width, sx);
  }

  /** Nothing is cut at a row, and the rows below it are laid out as the join leaves them. */
  lemma CutsMore(line: Line, rest: seq<Row>, lines: nat, j: Joined, sx: nat)
    requires lines < |rest| && !CutAt(line, rest[lines], sx)
    requires JoinsCuts(Greedy(line, rest[lines], sx), rest, lines + 1, j, sx)
    ensures JoinsCuts(line, rest, lines, j, sx)
  {
    hide Cuts, Greedy, CutAt, JoinedRest, Cut;
    CutsFrom(rest, lines, line, sx);
  }

  /** The last row that something is added from. */
  lemma LastCuts(cells: seq<Cell>, line: Line, rest: seq<Row>, lines: nat, want: nat, sx: nat)
    requires lines < |rest| && line.Open? && line.width < sx
    requires LookAt(line.width, sx, rest[lines], rest[lines].wrapped) == Take(want, true)
    ensures JoinsCuts(line, rest, lines, Joined(cells, rest[lines].wrapped, lines + 1, true, rest[lines].cells[want..]), sx)
  {
    hide Cuts, Greedy, CutAt, LookAt;
    CutsFrom(rest, lines, line, sx);
    TakeCuts(line, rest[lines], sx, want, true, rest[lines + 1..]);
  }

  /** A row that is added to the open one, whole or in part. */
  lemma TakeCuts(line: Line, row: Row, sx: nat, want: nat, last: bool, rest: seq<Row>)
    requires line.Open? && line.width < sx && LookAt(line.width, sx, row, row.wrapped) == Take(want, last)
    ensures !CutAt(line, row, sx)
    ensures !last ==> row.wrapped && line.width + Width(row.cells) < sx
                      && Greedy(line, row, sx) == Open(line.width + Width(row.cells), true, false)
    ensures last && want == |row.cells| ==> Greedy(line, row, sx) == Closed && row.cells[want..] == []
    ensures last && want < |row.cells| ==>
              Cuts([Row(row.cells[want..], row.wrapped)] + rest, Closed, sx) == Cuts(rest, Greedy(line, row, sx), sx)
  {
    hide Cuts, Column, Fit, Width;
    TakeColumn(row.cells, line.width, sx, want);
    CutsCons(Row(row.cells[want..], row.wrapped), rest, Closed, sx);
  }

  lemma ColumnNone(width: nat, sx: nat)
    ensures Column([], width, sx) == width
  {
  }

  lemma NoCuts(line: Line, sx: nat)
    ensures Cuts([], line, sx) == 0
  {
  }

  /** A join that finds nothing to add: the rows it looked at are laid out anew. */
  lemma {:induction false} NotFoundCuts(cells: seq<Cell>, width: nat, sx: nat, rest: seq<Row>, lines: nat)
    requires width < sx && lines <= |rest|
    requires forall i :: 0 <= i < lines ==> rest[i].wrapped && rest[i].cells == []
    requires !JoinLoop(cells, width, sx, rest, lines, true, false).found
    ensures var j := JoinLoop(cells, width, sx, rest, lines, true, false);
            Cuts(rest[lines..], Open(width, false, lines > 0), sx)
            == if lines == 0 then Cuts(rest, Closed, sx) else Cuts(rest[lines..], Open(0, false, lines > 1), sx)
    decreases |rest| - lines
  {
    hide Cuts, Column, Fit, Width, JoinLoop;
    assert rest[0..] == rest;
    if lines == |rest| {
      NoCuts(Open(width, false, lines > 0), sx);
      NoCuts(Open(0, false, lines > 1), sx);
      NoCuts(Closed, sx);
      assert rest[lines..] == [];
    } else {
      var row := rest[lines];
      NotFoundLook(cells, width, sx, rest, lines);
      CutsFrom(rest, lines, Open(width, false, lines > 0), sx);
      CutsFrom(rest, lines, if lines == 0 then Closed else Open(0, false, lines > 1), sx);
      if row.cells == [] && row.wrapped {
        ColumnNone(width, sx);
        ColumnNone(0, sx);
        NotFoundCuts(cells, width, sx, rest, lines + 1);
      } else if row.cells != [] {
        ColumnReset(row.cells, width, sx);
        WidthStart(row.cells);
      }
    }
  }

  lemma NotFoundLook(cells: seq<Cell>, width: nat, sx: nat, rest: seq<Row>, lines: nat)
    requires lines < |rest| && !JoinLoop(cells, width, sx, rest, lines, true, false).found
    ensures rest[lines].cells == [] || width + rest[lines].cells[0].glyph.width > sx
    ensures rest[lines].cells == [] && rest[lines].wrapped ==> !JoinLoop(cells, width, sx, rest, lines + 1, true, false).found
  {
    var row := rest[lines];
    match LookAt(width, sx, row, row.wrapped)
    case Stop =>
    case Skip =>
    case Take(want, last) =>
      if !last { JoinFound(cells + row.cells, width + Width(row.cells), sx, rest, lines + 1, true, true); }
  }

  // ---- Turns ----

  /** A turn cuts a logical line or keeps the text, and the greedy layout says which. */
  ghost predicate TurnCuts(rows: seq<Row>, line: Line, before: seq<Token>, t: Turn, sx: nat, cut: bool) {
    && Cuts(rows, line, sx) == Count(cut) + Cuts(t.rest, Closed, sx)
    && CutText(before, Stream(t.out) + Stream(t.rest), cut)
  }

  lemma JoinTurnCuts(cells: seq<Cell>, rest: seq<Row>, sx: nat) returns (cut: bool)
    requires Width(cells) < sx
    ensures TurnCuts(rest, Open(Width(cells), false, false), Tokens(cells) + Stream(rest), JoinTurn([], cells, rest, sx), sx, cut)
  {
    hide JoinLoop, Cuts, Stream, Tokens, CountBreaks, Width, Joins, CutText;
    var width := Width(cells);
    var j := JoinLoop(cells, width, sx, rest, 0, true, false);
    JoinText(cells, width, sx, rest, 0, false);
    JoinFound(cells, width, sx, rest, 0, true, false);
    JoinedText(cells, rest, j);
    assert [] + [JoinedRow(cells, j)] == [JoinedRow(cells, j)] && rest[0..] == rest;
    cut := Cut(rest, j);
    if j.found {
      JoinCuts(cells, width, sx, rest, 0, false, false);
    } else {
      NotFoundCuts(cells, width, sx, rest, 0);
    }
  }

  lemma UnderRows(full: seq<Token>, before: seq<Token>, after: seq<Token>, cut: bool)
    requires CutText(before, after, cut)
    ensures CutText(full + before, full + after, cut)
  {
    CountConcat(full, before);
    CountConcat(full, after);
  }

  lemma SplitTurnCuts(row: Row, rest: seq<Row>, sx: nat) returns (cut: bool)
    requires sx >= 1 && Width(row.cells) > sx
    ensures TurnCuts(rest, Greedy(Closed, row, sx), Tokens(row.cells) + End(row.wrapped) + Stream(rest), SplitTurn(row, rest, sx),
                     sx, cut)
  {
    hide JoinTurn, SplitRows, AllWrapped, Cuts, Stream, Tokens, CutText, Width, Column;
    var split := SplitRows(row.cells, sx);
    var full, last := AllWrapped(split[..|split| - 1]), split[|split| - 1];
    SplitColumn(row.cells, sx);
    SplitText(row.cells, sx);
    SplitStream(full, last, row, rest);
    if row.wrapped && Width(last) < sx {
      cut := JoinTurnCuts(last, rest, sx);
      var one := JoinTurn([], last, rest, sx);
      JoinTurnWell(full, last, rest, sx);
      UnderRows(Stream(full), Tokens(last) + Stream(rest), Stream(one.out) + Stream(one.rest), cut);
    } else {
      cut := false;
      SameText(Tokens(row.cells) + End(row.wrapped) + Stream(rest));
    }
  }

  lemma SameText(text: seq<Token>)
    ensures CutText(text, text, false)
  {
  }

  lemma SplitText(cells: seq<Cell>, sx: nat)
    ensures var split := SplitRows(cells, sx);
            Stream(AllWrapped(split[..|split| - 1])) + Tokens(split[|split| - 1]) == Tokens(cells)
  {
    hide Stream, Tokens, SplitRows;
    var split := SplitRows(cells, sx);
    var full, last := AllWrapped(split[..|split| - 1]), split[|split| - 1];
    SplitFlat(cells, sx);
    FullStream(full);
    TokensConcat(Flat(full), last);
  }

  lemma OneTurnCuts(row: Row, rest: seq<Row>, sx: nat) returns (cut: bool)
    requires sx >= 1
    ensures TurnCuts([row] + rest, Closed, Stream([row] + rest), OneTurn(row, rest, sx), sx, cut)
  {
    hide SplitTurn, JoinTurn, Cuts, Stream, Tokens, CutText, Width, Column;
    StreamCons(row, rest);
    CutsCons(row, rest, Closed, sx);
    if Width(row.cells) > sx {
      cut := SplitTurnCuts(row, rest, sx);
    } else {
      ColumnFits(row.cells, 0, sx);
      if Width(row.cells) < sx && row.wrapped {
        NothingAfter(Tokens(row.cells));
        cut := JoinTurnCuts(row.cells, rest, sx);
      } else {
        cut := false;
        StreamOne(row);
        SameText(Stream([row] + rest));
      }
    }
  }

  // ---- The theorem ----

  /** Reflowing adds one break for every cut, and if there are none it keeps the text. */
  lemma {:induction false} ReflowCuts(rows: seq<Row>, sx: nat)
    requires sx >= 1
    ensures CountBreaks(Stream(Reflow(rows, sx))) == CountBreaks(Stream(rows)) + Cuts(rows, Closed, sx)
    ensures Cuts(rows, Closed, sx) == 0 ==> Stream(Reflow(rows, sx)) == Stream(rows)
    decreases |rows|
  {
    hide OneTurn, Stream, CountBreaks, Cuts;
    if rows == [] {
      NoCuts(Closed, sx);
    } else {
      var row, rest := rows[0], rows[1..];
      assert [row] + rest == rows;
      var t := OneTurn(row, rest, sx);
      var cut := OneTurnCuts(row, rest, sx);
      ReflowCuts(t.rest, sx);
      StreamConcat(t.out, Reflow(t.rest, sx));
      CountConcat(Stream(t.out), Stream(Reflow(t.rest, sx)));
      CountConcat(Stream(t.out), Stream(t.rest));
    }
  }

  /** Whatever the widths and the flags, reflowing keeps every logical line if and only if no logical line
    * is cut; otherwise every cut adds one break. */
  lemma LinesSurvive(rows: seq<Row>, sx: nat)
    requires sx >= 1
    ensures Stream(Reflow(rows, sx)) == Stream(rows) <==> Cuts(rows, Closed, sx) == 0
    ensures CountBreaks(Stream(Reflow(rows, sx))) == CountBreaks(Stream(rows)) + Cuts(rows, Closed, sx)
  {
    hide Reflow, Stream, CountBreaks, Cuts;
    ReflowCuts(rows, sx);
  }

  /** So only the first cell of the last source row of a logical line can do harm, and only if it is wide:
    * wide cells elsewhere are safe. */
  predicate StartsNarrow(rows: seq<Row>) {
    forall i: nat :: i < |rows| && !rows[i].wrapped && rows[i].cells != [] ==> rows[i].cells[0].glyph.width <= 1
  }

  lemma NarrowStartsSurvive(rows: seq<Row>, sx: nat)
    requires sx >= 1 && StartsNarrow(rows) && NoGap(rows)
    ensures Stream(Reflow(rows, sx)) == Stream(rows)
  {
    NarrowStarts(rows, Closed, sx);
    LinesSurvive(rows, sx);
  }

  lemma {:induction false} NarrowStarts(rows: seq<Row>, line: Line, sx: nat)
    requires sx >= 1 && StartsNarrow(rows) && NoGap(rows) && (line.Open? ==> line.width < sx && NoGapBelow(rows))
    ensures Cuts(rows, line, sx) == 0
  {
    if rows != [] {
      var row, rest := rows[0], rows[1..];
      assert [row] + rest == rows && (line.Open? ==> !GapBelow(rows, 0));
      GapTail(row, rest);
      forall i: nat | i < |rest| && !rest[i].wrapped && rest[i].cells != [] ensures rest[i].cells[0].glyph.width <= 1 {
        assert rest[i] == rows[i + 1];
      }
      NarrowStarts(rest, Greedy(line, row, sx), sx);
    }
  }

  lemma WideCellReflow(a: Cell, b: Cell, w: Cell)
    requires a.glyph.width == 1 && b.glyph.width == 1 && w.glyph.width == 2
    ensures var rows := [Row([a], true), Row([b], true), Row([w], false)];
            && Logical(rows, []) == [[a, b, w]]
            && Reflow(rows, 3) == [Row([a, b], false), Row([w], false)]
  {
    var rows := [Row([a], true), Row([b], true), Row([w], false)];
    assert rows[1..] == [Row([b], true), Row([w], false)] && rows[1..][1..] == [Row([w], false)];
    assert Logical(rows, []) == [[a, b, w]] by {
      assert [] + [a] == [a] && [a] + [b] == [a, b] && [a, b] + [w] == [a, b, w];
      assert Logical([Row([w], false)], [a, b]) == [[a, b, w]] + Logical([], []);
    }
    assert Width([a]) == Width([]) + 1 && Width([b]) == Width([]) + 1 && Width([w]) == Width([]) + 2;
    var rest := rows[1..];
    assert LookAt(1, 3, rest[0], true) == Take(1, false) by {
      assert [b][..1] == [b];
    }
    assert LookAt(2, 3, rest[1], false) == Stop;
    var j := JoinLoop([a], 1, 3, rest, 0, true, false);
    assert [a] + [b] == [a, b] && 1 + Width([b]) == 2;
    assert j == JoinLoop([a] + [b], 1 + Width([b]), 3, rest, 1, true, true);
    assert j == Joined([a, b], false, 1, true, []);
    assert JoinedRest(rest, j) == [Row([w], false)];
    assert OneTurn(rows[0], rest, 3) == Turn([Row([a, b], false)], [Row([w], false)]);
    assert Reflow([Row([w], false)], 3) == [Row([w], false)] + Reflow([], 3);
  }

  /** A wide cell that does not fit costs the row above it the WRAPPED flag: one logical line becomes
    * two.  The flag is cleared for the next line before the next line is known to fit. */
  lemma WideCellLosesWrap(a: Cell, b: Cell, w: Cell)
    requires a.glyph.width == 1 && b.glyph.width == 1 && w.glyph.width == 2
    ensures var rows := [Row([a], true), Row([b], true), Row([w], false)];
            && Logical(rows, []) == [[a, b, w]]
            && Reflow(rows, 3) == [Row([a, b], false), Row([w], false)] && Cuts(rows, Closed, 3) == 1
  {
    hide Reflow, Cuts, Stream, CountBreaks;
    WideCellReflow(a, b, w);
    var before, after := [Row([a], true), Row([b], true), Row([w], false)], [Row([a, b], false), Row([w], false)];
    LinesSurvive(before, 3);
    BreaksCount(before);
    BreaksCount(after);
    assert before[1..] == [Row([b], true), Row([w], false)] && before[1..][1..] == after[1..] == [Row([w], false)];
    assert Breaks([Row([w], false)]) == 1 + Breaks([]);
  }
}
