/** Reflowing cells that are one column wide gives the canonical layout of the logical lines. */
module ReflowLayout {
  import opened GridCell
  import opened ReflowRows

  datatype Token = Mark(cell: Cell) | Break

  function Tokens(cells: seq<Cell>): seq<Token> {
    seq(|cells|, i requires 0 <= i < |cells| => Mark(cells[i]))
  }

  function End(wrapped: bool): seq<Token> {
    if wrapped then [] else [Break]
  }

  /** The text of the rows: cells in order, with a break where a row is not WRAPPED. */
  function Stream(rows: seq<Row>): seq<Token> {
    if rows == [] then [] else Tokens(rows[0].cells) + End(rows[0].wrapped) + Stream(rows[1..])
  }

  predicate NarrowCells(cells: seq<Cell>) {
    forall i :: 0 <= i < |cells| ==> cells[i].glyph.width == 1
  }

  predicate Narrow(rows: seq<Row>) {
    forall i :: 0 <= i < |rows| ==> NarrowCells(rows[i].cells)
  }

  predicate Terminated(rows: seq<Row>) {
    rows != [] ==> !rows[|rows| - 1].wrapped
  }

  predicate GapAt(rows: seq<Row>, i: nat) {
    i + 1 < |rows| && rows[i].wrapped && rows[i + 1].cells == [] && !rows[i + 1].wrapped
  }

  /** No WRAPPED row is followed by a row that is empty and not WRAPPED itself. */
  ghost predicate NoGap(rows: seq<Row>) {
    forall i: nat :: !GapAt(rows, i)
  }

  // ---- The canonical layout ----

  /** The logical lines: the cells of each chain of WRAPPED rows. */
  function Logical(rows: seq<Row>, acc: seq<Cell>): seq<seq<Cell>> {
    if rows == [] then (if acc == [] then [] else [acc])
    else if rows[0].wrapped then Logical(rows[1..], acc + rows[0].cells)
    else [acc + rows[0].cells] + Logical(rows[1..], [])
  }

  /** One logical line cut into rows of `sx` cells, WRAPPED on all but the last. */
  function LayoutLine(line: seq<Cell>, sx: nat): (r: seq<Row>)
    requires sx >= 1
    ensures r != []
    decreases |line|
  {
    if |line| <= sx then [Row(line, false)]
    else [Row(line[..sx], true)] + LayoutLine(line[sx..], sx)
  }

  function Layout(lines: seq<seq<Cell>>, sx: nat): seq<Row>
    requires sx >= 1
  {
    if lines == [] then [] else LayoutLine(lines[0], sx) + Layout(lines[1..], sx)
  }

  // ---- Streams ----

  lemma {:induction false} StreamConcat(a: seq<Row>, b: seq<Row>)
    ensures Stream(a + b) == Stream(a) + Stream(b)
  {
    if a == [] {
      assert a + b == b;
    } else {
      assert (a + b)[1..] == a[1..] + b;
      StreamConcat(a[1..], b);
    }
  }

  lemma StreamOne(row: Row)
    ensures Stream([row]) == Tokens(row.cells) + End(row.wrapped)
  {
    assert Stream([row]) == Tokens(row.cells) + End(row.wrapped) + Stream([]);
  }

  lemma TokensConcat(a: seq<Cell>, b: seq<Cell>)
    ensures Tokens(a + b) == Tokens(a) + Tokens(b)
  {
  }

  lemma StreamFrom(rows: seq<Row>, k: nat)
    requires k < |rows|
    ensures Stream(rows[k..]) == Tokens(rows[k].cells) + End(rows[k].wrapped) + Stream(rows[k + 1..])
  {
    assert rows[k..][1..] == rows[k + 1..];
  }

  // ---- Cells one column wide ----

  lemma {:induction false} NarrowWidth(cells: seq<Cell>)
    requires NarrowCells(cells)
    ensures Width(cells) == |cells|
  {
    if cells != [] {
      NarrowWidth(cells[..|cells| - 1]);
    }
  }

  lemma {:induction false} NarrowFit(cells: seq<Cell>, k: nat, width: nat, sx: nat)
    requires NarrowCells(cells) && k <= |cells| && width <= sx
    ensures Fit(cells, k, width, sx) == if k + (sx - width) < |cells| then k + (sx - width) else |cells|
    decreases |cells| - k
  {
    if k < |cells| && width < sx {
      NarrowFit(cells, k + 1, width + 1, sx);
    }
  }

  lemma NarrowLook(width: nat, sx: nat, row: Row, wrapped: bool)
    requires NarrowCells(row.cells) && width < sx && row.cells != []
    ensures var want := if |row.cells| < sx - width then |row.cells| else sx - width;
            LookAt(width, sx, row, wrapped) == Take(want, !wrapped || want != |row.cells| || width + want == sx)
  {
    NarrowFit(row.cells, 1, width + 1, sx);
    var want := Fit(row.cells, 1, width + 1, sx);
    NarrowWidth(row.cells[..want]);
  }

  lemma {:induction false} NarrowAt(cells: seq<Cell>, i: nat, sx: nat)
    requires NarrowCells(cells) && sx >= 1 && sx < |cells| && i <= |cells|
    ensures At(cells, i, if i > sx then sx else 0, i, sx) == sx
    decreases |cells| - i
  {
    if i < |cells| {
      NarrowAt(cells, i + 1, sx);
    }
  }

  // ---- Joining ----

  /** What the joining loop does to a WRAPPED row that is not full, when no row below is a gap. */
  ghost predicate JoinsWell(cells: seq<Cell>, sx: nat, rest: seq<Row>, lines: nat, j: Joined) {
    && j.found && lines < j.lines <= |rest|
    && j.wrapped == rest[j.lines - 1].wrapped
    && 1 <= |j.cells| <= sx && ((j.left != [] || j.wrapped) ==> |j.cells| == sx)
    && NarrowCells(j.left)
    && Tokens(cells) + Stream(rest[lines..])
       == Tokens(j.cells) + (Tokens(j.left) + End(j.wrapped) + Stream(rest[j.lines..]))
  }

  lemma TakeStream(cells: seq<Cell>, row: Row, sx: nat, tail: seq<Token>)
    requires |cells| < sx
    ensures var want := if |row.cells| < sx - |cells| then |row.cells| else sx - |cells|;
            Tokens(cells) + (Tokens(row.cells) + End(row.wrapped) + tail)
               == Tokens(cells + row.cells[..want]) + (Tokens(row.cells[want..]) + End(row.wrapped) + tail)
  {
    var want := if |row.cells| < sx - |cells| then |row.cells| else sx - |cells|;
    TokensConcat(cells, row.cells[..want]);
    TokensConcat(row.cells[..want], row.cells[want..]);
    assert row.cells[..want] + row.cells[want..] == row.cells;
  }

  /** Row `k` is a gap: empty and not WRAPPED, below a WRAPPED row. */
  predicate GapBelow(rest: seq<Row>, k: nat) {
    k < |rest| && (k == 0 || rest[k - 1].wrapped) && rest[k].cells == [] && !rest[k].wrapped
  }

  ghost predicate NoGapBelow(rest: seq<Row>) {
    forall k: nat :: !GapBelow(rest, k)
  }

  lemma JoinLast(cells: seq<Cell>, sx: nat, rest: seq<Row>, lines: nat)
    requires |cells| < sx && lines < |rest| && NarrowCells(rest[lines].cells) && rest[lines].cells != []
    requires LookAt(|cells|, sx, rest[lines], rest[lines].wrapped).Take?
    requires LookAt(|cells|, sx, rest[lines], rest[lines].wrapped).last
    ensures var row, want := rest[lines], LookAt(|cells|, sx, rest[lines], rest[lines].wrapped).want;
            JoinsWell(cells, sx, rest, lines,
                      Joined(cells + row.cells[..want], row.wrapped, lines + 1, true, row.cells[want..]))
  {
    var row := rest[lines];
    NarrowLook(|cells|, sx, row, row.wrapped);
    StreamFrom(rest, lines);
    TakeStream(cells, row, sx, Stream(rest[lines + 1..]));
  }

  lemma JoinMore(cells: seq<Cell>, sx: nat, rest: seq<Row>, lines: nat, j: Joined)
    requires lines < |rest| && rest[lines].wrapped
    requires JoinsWell(cells + rest[lines].cells, sx, rest, lines + 1, j)
    ensures JoinsWell(cells, sx, rest, lines, j)
  {
    StreamFrom(rest, lines);
    TokensConcat(cells, rest[lines].cells);
    assert Tokens(cells) + (Tokens(rest[lines].cells) + [] + Stream(rest[lines + 1..]))
        == Tokens(cells) + Tokens(rest[lines].cells) + Stream(rest[lines + 1..]);
  }

  lemma JoinUnfold(cells: seq<Cell>, sx: nat, rest: seq<Row>, lines: nat, found: bool)
    requires |cells| < sx && lines < |rest| && NarrowCells(rest[lines].cells)
    requires !GapBelow(rest, lines) && (lines > 0 ==> rest[lines - 1].wrapped)
    ensures var row := rest[lines];
            var look := LookAt(|cells|, sx, row, row.wrapped);
            JoinLoop(cells, |cells|, sx, rest, lines, true, found) ==
              if row.cells == [] then JoinLoop(cells, |cells|, sx, rest, lines + 1, true, found)
              else if look.Take? && look.last then
                Joined(cells + row.cells[..look.want], row.wrapped, lines + 1, true, row.cells[look.want..])
              else JoinLoop(cells + row.cells, |cells + row.cells|, sx, rest, lines + 1, true, true)
    ensures rest[lines].cells != [] ==> LookAt(|cells|, sx, rest[lines], rest[lines].wrapped).Take?
    ensures var look := LookAt(|cells|, sx, rest[lines], rest[lines].wrapped);
            rest[lines].cells == [] || (look.Take? && !look.last) ==>
              rest[lines].wrapped && |cells| + |rest[lines].cells| < sx
  {
    var row := rest[lines];
    if row.cells != [] {
      NarrowLook(|cells|, sx, row, row.wrapped);
      NarrowWidth(row.cells);
    }
  }

  lemma {:induction false} JoinWell(cells: seq<Cell>, sx: nat, rest: seq<Row>, lines: nat, found: bool)
    requires |cells| < sx && Narrow(rest) && lines < |rest| && Terminated(rest)
    requires NoGapBelow(rest) && (lines > 0 ==> rest[lines - 1].wrapped)
    ensures JoinsWell(cells, sx, rest, lines, JoinLoop(cells, |cells|, sx, rest, lines, true, found))
    decreases |rest| - lines
  {
    var row := rest[lines];
    var look := LookAt(|cells|, sx, row, row.wrapped);
    assert !GapBelow(rest, lines);
    JoinUnfold(cells, sx, rest, lines, found);
    if row.cells != [] && look.last {
      JoinLast(cells, sx, rest, lines);
    } else {
      assert lines + 1 < |rest|;
      var next := cells + row.cells;
      assert row.cells == [] ==> next == cells;
      JoinWell(next, sx, rest, lines + 1, found || row.cells != []);
      JoinMore(cells, sx, rest, lines,
               JoinLoop(next, |next|, sx, rest, lines + 1, true, found || row.cells != []));
    }
  }

  /** The rows a turn finishes are full and WRAPPED but for the last, the text is kept, and the lines
    * left over are as good as the ones the turn started with. */
  ghost predicate TurnsWell(row: Row, rest: seq<Row>, sx: nat, t: Turn) {
    var n := |t.out| - 1;
    && n >= 0
    && (forall i :: 0 <= i < n ==> t.out[i].wrapped && |t.out[i].cells| == sx)
    && |t.out[n].cells| <= sx
    && (t.out[n].wrapped ==> |t.out[n].cells| == sx && t.rest != [] && NoGapBelow(t.rest))
    && (n > 0 || row.cells != [] || row.wrapped ==> t.out[n].cells != [])
    && Narrow(t.rest) && Terminated(t.rest) && NoGap(t.rest)
    && Stream(t.out) + Stream(t.rest) == Tokens(row.cells) + End(row.wrapped) + Stream(rest)
  }

  lemma GapTail(row: Row, rest: seq<Row>)
    requires NoGap([row] + rest)
    ensures NoGap(rest)
    ensures row.wrapped ==> NoGapBelow(rest)
  {
    var rows := [row] + rest;
    forall i: nat ensures !GapAt(rest, i) {
      assert !GapAt(rows, i + 1);
      assert i + 1 < |rest| ==> rows[i + 2] == rest[i + 1];
    }
    forall k: nat ensures row.wrapped ==> !GapBelow(rest, k) {
      assert !GapAt(rows, k);
      assert k < |rest| ==> rows[k + 1] == rest[k];
    }
  }

  lemma JoinedGap(rest: seq<Row>, j: Joined)
    requires j.found && 0 < j.lines <= |rest| && NoGapBelow(rest) && Narrow(rest) && Terminated(rest) && NarrowCells(j.left)
    requires j.wrapped == rest[j.lines - 1].wrapped
    ensures var r := JoinedRest(rest, j);
            && Narrow(r) && Terminated(r) && NoGap(r)
            && (j.wrapped || j.left != [] ==> r != [] && NoGapBelow(r))
  {
    var r := JoinedRest(rest, j);
    var d := if j.left != [] then j.lines - 1 else j.lines;
    assert |r| == |rest| - d;
    assert forall i :: 0 < i < |r| ==> r[i] == rest[i + d];
    assert r != [] && j.left == [] ==> r[0] == rest[d];
    forall i: nat ensures !GapAt(r, i) {
      assert !GapBelow(rest, i + 1 + d);
    }
    if j.wrapped || j.left != [] {
      forall k: nat ensures !GapBelow(r, k) {
        assert !GapBelow(rest, k + d);
      }
    }
  }

  lemma JoinedStream(cells: seq<Cell>, sx: nat, rest: seq<Row>, j: Joined)
    requires JoinsWell(cells, sx, rest, 0, j)
    ensures Stream([JoinedRow(cells, j)]) + Stream(JoinedRest(rest, j)) == Tokens(cells) + Stream(rest)
  {
    hide Stream, Tokens;
    var row, r, tail := JoinedRow(cells, j), JoinedRest(rest, j), rest[j.lines..];
    assert rest[0..] == rest;
    StreamOne(row);
    if j.left != [] {
      StreamCons(Row(j.left, j.wrapped), tail);
      assert Tokens(j.cells) + [] == Tokens(j.cells);
    } else {
      NoTokens();
      assert [] + End(j.wrapped) == End(j.wrapped);
      Assoc3(Tokens(j.cells), End(j.wrapped), Stream(tail));
    }
  }

  lemma StreamCons(row: Row, rows: seq<Row>)
    ensures Stream([row] + rows) == Tokens(row.cells) + End(row.wrapped) + Stream(rows)
  {
    assert ([row] + rows)[1..] == rows;
  }

  lemma NoTokens()
    ensures Tokens([]) == []
  {
  }

  /** The last row of a join, the lines it leaves, and the text of both. */
  lemma JoinRowWell(cells: seq<Cell>, rest: seq<Row>, sx: nat)
    requires NarrowCells(cells) && |cells| < sx && rest != []
    requires Narrow(rest) && Terminated(rest) && NoGapBelow(rest)
    ensures var t := JoinTurn([], cells, rest, sx);
            && |t.out| == 1 && 1 <= |t.out[0].cells| <= sx
            && (t.out[0].wrapped ==> |t.out[0].cells| == sx && t.rest != [] && NoGapBelow(t.rest))
            && Narrow(t.rest) && Terminated(t.rest) && NoGap(t.rest)
            && Stream(t.out) + Stream(t.rest) == Tokens(cells) + Stream(rest)
  {
    NarrowWidth(cells);
    JoinWell(cells, sx, rest, 0, false);
    var j := JoinLoop(cells, |cells|, sx, rest, 0, true, false);
    JoinedGap(rest, j);
    JoinedStream(cells, sx, rest, j);
    assert [] + [JoinedRow(cells, j)] == [JoinedRow(cells, j)];
  }

  lemma JoinTurnWell(full: seq<Row>, cells: seq<Cell>, rest: seq<Row>, sx: nat)
    ensures var t, one := JoinTurn(full, cells, rest, sx), JoinTurn([], cells, rest, sx);
            && one.out != [] && t.out == full + [one.out[0]] && t.rest == one.rest
            && Stream(t.out) + Stream(t.rest) == Stream(full) + (Stream(one.out) + Stream(one.rest))
  {
    hide JoinLoop, JoinedRow, JoinedRest, Stream;
    var t, one := JoinTurn(full, cells, rest, sx), JoinTurn([], cells, rest, sx);
    assert one.out == [one.out[0]];
    StreamConcat(full, one.out);
    Assoc3(Stream(full), Stream(one.out), Stream(one.rest));
  }

  lemma {:induction false} NarrowChunks(row: seq<Cell>, cells: seq<Cell>, i: nat, sx: nat)
    requires NarrowCells(cells) && i <= |cells| && |row| <= sx && sx >= 1 && (row != [] || i < |cells|)
    ensures var r := Chunks(row, |row|, cells, i, sx);
            && (forall k :: 0 <= k < |r| - 1 ==> |r[k]| == sx)
            && 1 <= |r[|r| - 1]| <= sx
    decreases |cells| - i
  {
    if i < |cells| {
      if |row| + 1 > sx {
        NarrowChunks([cells[i]], cells, i + 1, sx);
      } else {
        NarrowChunks(row + [cells[i]], cells, i + 1, sx);
      }
    }
  }

  lemma {:induction false} FullStream(full: seq<Row>)
    requires forall i :: 0 <= i < |full| ==> full[i].wrapped
    ensures Stream(full) == Tokens(Flat(full))
  {
    if full != [] {
      FullStream(full[1..]);
      TokensConcat(full[0].cells, Flat(full[1..]));
    }
  }

  lemma SplitShape(cells: seq<Cell>, sx: nat)
    requires NarrowCells(cells) && sx >= 1 && |cells| > sx
    ensures var split := SplitRows(cells, sx);
            var full, last := AllWrapped(split[..|split| - 1]), split[|split| - 1];
            && (forall i :: 0 <= i < |full| ==> full[i].wrapped && |full[i].cells| == sx)
            && 1 <= |last| <= sx && NarrowCells(last)
            && Stream(full) + Tokens(last) == Tokens(cells)
  {
    var split := SplitRows(cells, sx);
    var full, last := AllWrapped(split[..|split| - 1]), split[|split| - 1];
    NarrowAt(cells, 0, sx);
    NarrowChunks([], cells, sx, sx);
    assert split == [cells[..sx]] + Chunks([], 0, cells, sx, sx);
    forall i | 0 <= i < |full| ensures full[i].wrapped && |full[i].cells| == sx {
      if i > 0 {
        assert split[i] == Chunks([], 0, cells, sx, sx)[i - 1];
      }
    }
    SplitFlat(cells, sx);
    FullStream(full);
    TokensConcat(Flat(full), last);
    assert forall i :: 0 <= i < |last| ==> last[i] == cells[|Flat(full)| + i];
  }

  lemma TurnWell(row: Row, rest: seq<Row>, sx: nat)
    requires sx >= 1 && Narrow([row] + rest) && Terminated([row] + rest) && NoGap([row] + rest)
    ensures TurnsWell(row, rest, sx, OneTurn(row, rest, sx))
  {
    hide SplitTurn, JoinTurn, Stream, Tokens, NoGap, NoGapBelow;
    var rows := [row] + rest;
    assert rows[0] == row && forall i :: 0 <= i < |rest| ==> rest[i] == rows[i + 1];
    assert row.wrapped ==> rest != [];
    GapTail(row, rest);
    NarrowWidth(row.cells);
    StreamOne(row);
    if |row.cells| > sx {
      SplitTurnWell(row, rest, sx);
    } else if |row.cells| < sx && row.wrapped {
      JoinRowWell(row.cells, rest, sx);
      NothingAfter(Tokens(row.cells));
    }
  }

  lemma NothingAfter(s: seq<Token>)
    ensures s + End(true) == s
  {
  }

  lemma Assoc3(a: seq<Token>, b: seq<Token>, c: seq<Token>)
    ensures a + (b + c) == (a + b) + c
  {
  }

  lemma SplitStream(full: seq<Row>, last: seq<Cell>, row: Row, rest: seq<Row>)
    requires Stream(full) + Tokens(last) == Tokens(row.cells)
    ensures Stream(full) + (Tokens(last) + Stream(rest)) == Tokens(row.cells) + [] + Stream(rest)
    ensures Stream(full + [Row(last, row.wrapped)]) == Tokens(row.cells) + End(row.wrapped)
  {
    var end := Row(last, row.wrapped);
    Assoc3(Stream(full), Tokens(last), Stream(rest));
    Assoc3(Stream(full), Tokens(last), End(row.wrapped));
    StreamConcat(full, [end]);
    StreamOne(end);
    assert Tokens(row.cells) + [] == Tokens(row.cells);
  }

  lemma SplitTurnWell(row: Row, rest: seq<Row>, sx: nat)
    requires sx >= 1 && |row.cells| > sx && NarrowCells(row.cells)
    requires Narrow(rest) && Terminated(rest) && NoGap(rest)
    requires row.wrapped ==> rest != [] && NoGapBelow(rest)
    ensures TurnsWell(row, rest, sx, SplitTurn(row, rest, sx))
  {
    hide SplitRows, AllWrapped, JoinTurn, Stream, Tokens, NoGap, NoGapBelow, Narrow, Terminated;
    SplitShape(row.cells, sx);
    var split := SplitRows(row.cells, sx);
    var full, last := AllWrapped(split[..|split| - 1]), split[|split| - 1];
    NarrowWidth(last);
    SplitStream(full, last, row, rest);
    var t := SplitTurn(row, rest, sx);
    if row.wrapped && |last| < sx {
      JoinRowWell(last, rest, sx);
      JoinTurnWell(full, last, rest, sx);
      assert t == JoinTurn(full, last, rest, sx);
    } else {
      assert t == Turn(full + [Row(last, row.wrapped)], rest);
    }
  }

  // ---- The canonical layout is reached ----

  /** Row `i` has at most `sx` cells; a WRAPPED row is full and the row below it has cells. */
  predicate CanonicalAt(rows: seq<Row>, sx: nat, i: nat) {
    i < |rows| ==>
      && |rows[i].cells| <= sx
      && (rows[i].wrapped ==> |rows[i].cells| == sx && i + 1 < |rows| && rows[i + 1].cells != [])
  }

  ghost predicate Canonical(rows: seq<Row>, sx: nat) {
    forall i: nat :: CanonicalAt(rows, sx, i)
  }

  lemma CanonicalJoin(out: seq<Row>, tail: seq<Row>, sx: nat)
    requires out != [] && Canonical(tail, sx)
    requires forall i :: 0 <= i < |out| - 1 ==> out[i].wrapped && |out[i].cells| == sx
    requires out[|out| - 1].cells != [] || |out| == 1
    requires |out[|out| - 1].cells| <= sx && sx >= 1
    requires out[|out| - 1].wrapped ==> |out[|out| - 1].cells| == sx && tail != [] && tail[0].cells != []
    ensures Canonical(out + tail, sx)
  {
    forall i: nat ensures CanonicalAt(out + tail, sx, i) {
      if i >= |out| {
        assert CanonicalAt(tail, sx, i - |out|);
      }
    }
  }

  lemma NothingCanonical(sx: nat)
    ensures Canonical([], sx)
  {
  }

  lemma {:induction false} ReflowCanonical(rows: seq<Row>, sx: nat)
    requires sx >= 1 && Narrow(rows) && Terminated(rows) && NoGap(rows)
    ensures Canonical(Reflow(rows, sx), sx)
    ensures Stream(Reflow(rows, sx)) == Stream(rows)
    ensures rows != [] ==> Reflow(rows, sx) != []
    ensures rows != [] && (rows[0].cells != [] || rows[0].wrapped) ==> Reflow(rows, sx)[0].cells != []
    decreases |rows|
  {
    hide OneTurn, Stream, Canonical, Narrow, Terminated, NoGap;
    if rows == [] {
      NothingCanonical(sx);
    } else {
      var row, rest := rows[0], rows[1..];
      assert [row] + rest == rows;
      var t := OneTurn(row, rest, sx);
      TurnWell(row, rest, sx);
      StreamCons(row, rest);
      ReflowCanonical(t.rest, sx);
      assert NoGapBelow(t.rest) && t.rest != [] ==> !GapBelow(t.rest, 0);
      CanonicalJoin(t.out, Reflow(t.rest, sx), sx);
      StreamConcat(t.out, Reflow(t.rest, sx));
    }
  }

  lemma CanonicalTail(rows: seq<Row>, sx: nat)
    requires rows != [] && Canonical(rows, sx)
    ensures Canonical(rows[1..], sx)
    ensures rows[0].wrapped ==> rows[1..] != [] && |rows[0].cells| == sx
    ensures rows[0].wrapped ==> Stream(rows[1..]) != [] && Stream(rows[1..])[0].Mark?
    ensures Stream(rows) != []
  {
    assert CanonicalAt(rows, sx, 0);
    forall i: nat ensures CanonicalAt(rows[1..], sx, i) {
      assert CanonicalAt(rows, sx, i + 1);
    }
    if rows[0].wrapped {
      assert Stream(rows[1..])[0] == Mark(rows[1].cells[0]);
    }
  }

  /** Two canonical layouts of the same text are the same. */
  lemma {:induction false} CanonicalUnique(a: seq<Row>, b: seq<Row>, sx: nat)
    requires sx >= 1 && Canonical(a, sx) && Canonical(b, sx) && Stream(a) == Stream(b)
    ensures a == b
  {
    if a == [] || b == [] {
      if a != [] { CanonicalTail(a, sx); }
      if b != [] { CanonicalTail(b, sx); }
    } else {
      CanonicalTail(a, sx);
      CanonicalTail(b, sx);
      assert CanonicalAt(a, sx, 0) && CanonicalAt(b, sx, 0);
      SameFirst(a[0], Stream(a[1..]), b[0], Stream(b[1..]), sx);
      CanonicalUnique(a[1..], b[1..], sx);
    }
  }

  lemma SameFirst(a: Row, s: seq<Token>, b: Row, t: seq<Token>, sx: nat)
    requires Tokens(a.cells) + End(a.wrapped) + s == Tokens(b.cells) + End(b.wrapped) + t
    requires |a.cells| <= sx && (a.wrapped ==> |a.cells| == sx && s != [] && s[0].Mark?)
    requires |b.cells| <= sx && (b.wrapped ==> |b.cells| == sx && t != [] && t[0].Mark?)
    ensures a == b && s == t
  {
    var u := Tokens(a.cells) + End(a.wrapped) + s;
    var v := Tokens(b.cells) + End(b.wrapped) + t;
    assert u == v;
    assert forall i :: 0 <= i < |a.cells| ==> u[i] == Mark(a.cells[i]);
    assert forall i :: 0 <= i < |b.cells| ==> v[i] == Mark(b.cells[i]);
    assert if a.wrapped then u[|a.cells|] == s[0] else u[|a.cells|] == Break;
    assert if b.wrapped then v[|b.cells|] == t[0] else v[|b.cells|] == Break;
    assert |a.cells| == |b.cells|;
    assert a.cells == b.cells;
    assert s == u[|a.cells| + |End(a.wrapped)|..] && t == v[|b.cells| + |End(b.wrapped)|..];
  }

  // ---- The layout of the logical lines is canonical ----

  function Unlines(lines: seq<seq<Cell>>): seq<Token> {
    if lines == [] then [] else Tokens(lines[0]) + [Break] + Unlines(lines[1..])
  }

  lemma {:induction false} LogicalStream(rows: seq<Row>, acc: seq<Cell>)
    requires Terminated(rows) && (rows == [] ==> acc == [])
    ensures Unlines(Logical(rows, acc)) == Tokens(acc) + Stream(rows)
    decreases |rows|
  {
    if rows != [] {
      hide Tokens, Stream;
      var cells, rest := rows[0].cells, rows[1..];
      assert [rows[0]] + rest == rows;
      StreamCons(rows[0], rest);
      TokensConcat(acc, cells);
      if rows[0].wrapped {
        LogicalStream(rest, acc + cells);
        NothingAfter(Tokens(cells));
        Assoc3(Tokens(acc), Tokens(cells), Stream(rest));
      } else {
        LogicalStream(rest, []);
        UnlinesCons(acc + cells, Logical(rest, []));
        NoTokens();
        assert [] + Stream(rest) == Stream(rest);
        Assoc3(Tokens(acc), Tokens(cells), [Break]);
        Assoc3(Tokens(acc), Tokens(cells) + [Break], Stream(rest));
      }
    }
  }

  lemma UnlinesCons(line: seq<Cell>, lines: seq<seq<Cell>>)
    ensures Unlines([line] + lines) == Tokens(line) + [Break] + Unlines(lines)
  {
    assert ([line] + lines)[1..] == lines;
  }

  lemma {:induction false} LayoutLineWell(line: seq<Cell>, sx: nat)
    requires sx >= 1
    ensures var r := LayoutLine(line, sx);
            && Stream(r) == Tokens(line) + [Break]
            && Canonical(r, sx) && !r[|r| - 1].wrapped && (line != [] ==> r[0].cells != [])
    decreases |line|
  {
    hide Tokens, Stream;
    if |line| <= sx {
      StreamOne(Row(line, false));
    } else {
      hide Canonical;
      var first, rest := line[..sx], line[sx..];
      LayoutLineWell(rest, sx);
      StreamCons(Row(first, true), LayoutLine(rest, sx));
      assert first + rest == line;
      TokensConcat(first, rest);
      NothingAfter(Tokens(first));
      Assoc3(Tokens(first), Tokens(rest), [Break]);
      CanonicalJoin([Row(first, true)], LayoutLine(rest, sx), sx);
    }
  }

  lemma CanonicalConcat(a: seq<Row>, b: seq<Row>, sx: nat)
    requires Canonical(a, sx) && Canonical(b, sx) && (a != [] ==> !a[|a| - 1].wrapped)
    ensures Canonical(a + b, sx)
  {
    forall i: nat ensures CanonicalAt(a + b, sx, i) {
      if i < |a| {
        assert CanonicalAt(a, sx, i);
      } else {
        assert CanonicalAt(b, sx, i - |a|);
      }
    }
  }

  lemma {:induction false} LayoutWell(lines: seq<seq<Cell>>, sx: nat)
    requires sx >= 1
    ensures Canonical(Layout(lines, sx), sx) && Stream(Layout(lines, sx)) == Unlines(lines)
  {
    if lines != [] {
      var r, tail := LayoutLine(lines[0], sx), Layout(lines[1..], sx);
      LayoutLineWell(lines[0], sx);
      LayoutWell(lines[1..], sx);
      StreamConcat(r, tail);
      CanonicalConcat(r, tail, sx);
    }
  }

  lemma CanonicalNoGap(rows: seq<Row>, sx: nat)
    requires Canonical(rows, sx)
    ensures NoGap(rows) && Terminated(rows)
  {
    forall i: nat ensures !GapAt(rows, i) {
      assert CanonicalAt(rows, sx, i);
    }
    if rows != [] {
      assert CanonicalAt(rows, sx, |rows| - 1);
    }
  }

  // ---- A gap is never repaired ----

  function Breaks(rows: seq<Row>): nat {
    if rows == [] then 0 else (if rows[0].wrapped then 0 else 1) + Breaks(rows[1..])
  }

  lemma {:induction false} BreaksConcat(a: seq<Row>, b: seq<Row>)
    ensures Breaks(a + b) == Breaks(a) + Breaks(b)
  {
    if a == [] {
      assert a + b == b;
    } else {
      assert (a + b)[1..] == a[1..] + b;
      BreaksConcat(a[1..], b);
    }
  }

  lemma {:induction false} BreaksWrapped(rows: seq<Row>, k: nat)
    requires k <= |rows| && forall i :: 0 <= i < k ==> rows[i].wrapped
    ensures Breaks(rows) == Breaks(rows[k..])
  {
    if k == 0 {
      assert rows[0..] == rows;
    } else {
      assert rows[1..][k - 1..] == rows[k..];
      BreaksWrapped(rows[1..], k - 1);
    }
  }

  predicate Void(row: Row) {
    row.cells == [] && !row.wrapped
  }

  /** What the joining loop may have consumed, whatever the lines below are. */
  ghost predicate JoinsSomehow(rest: seq<Row>, j: Joined) {
    && j.lines <= |rest|
    && (forall i :: 0 <= i < j.lines - 1 ==> rest[i].wrapped)
    && (forall i :: 0 <= i < j.lines ==> !Void(rest[i]))
    && (j.found ==> j.lines >= 1)
    && (j.found && j.left == [] ==>
          if j.wrapped then rest[j.lines - 1].wrapped
          else !rest[j.lines - 1].wrapped || (j.lines < |rest| && Void(rest[j.lines])))
  }

  lemma JoinStops(cells: seq<Cell>, width: nat, sx: nat, rest: seq<Row>, lines: nat, found: bool)
    requires lines <= |rest|
    ensures lines == |rest| ==> JoinLoop(cells, width, sx, rest, lines, true, found) == Joined(cells, true, lines, found, [])
    ensures lines < |rest| && Void(rest[lines]) ==>
              JoinLoop(cells, width, sx, rest, lines, true, found) == Joined(cells, false, lines, found, [])
  {
  }

  lemma {:induction false} JoinSomehow(cells: seq<Cell>, sx: nat, rest: seq<Row>, lines: nat, found: bool)
    requires |cells| < sx && Narrow(rest) && lines <= |rest|
    requires forall i :: 0 <= i < lines ==> rest[i].wrapped
    requires found ==> lines >= 1
    ensures JoinsSomehow(rest, JoinLoop(cells, |cells|, sx, rest, lines, true, found))
    decreases |rest| - lines
  {
    hide JoinLoop, LookAt;
    JoinStops(cells, |cells|, sx, rest, lines, found);
    if lines < |rest| && !Void(rest[lines]) {
      var row := rest[lines];
      JoinUnfold(cells, sx, rest, lines, found);
      var look := LookAt(|cells|, sx, row, row.wrapped);
      if row.cells == [] {
        JoinSomehow(cells, sx, rest, lines + 1, found);
      } else if !look.last {
        JoinSomehow(cells + row.cells, sx, rest, lines + 1, true);
      }
    }
  }

  /** Rows `b` are no better than rows `a`: a gap stays, or a logical line has been cut in two. */
  ghost predicate NoBetter(a: seq<Row>, b: seq<Row>) {
    && Breaks(b) >= Breaks(a)
    && (NoGap(a) || !NoGap(b) || Breaks(b) > Breaks(a))
  }

  /** The tail of `b` is the tail of `a`, shifted, and no gap of `a` lies above it. */
  lemma ShiftedGap(a: seq<Row>, b: seq<Row>, d: int, from: nat)
    requires |b| == |a| + d && 0 <= from + d
    requires forall i :: from < i < |a| ==> b[i + d] == a[i]
    requires from < |a| && a[from].wrapped ==> from + d < |b| && b[from + d].wrapped
    requires forall i :: 0 < i <= from && i < |a| ==> !Void(a[i])
    ensures NoGap(a) || !NoGap(b)
  {
    if !NoGap(a) {
      var i: nat :| GapAt(a, i);
      assert Void(a[i + 1]);
      assert i >= from;
      assert GapAt(b, i + d);
    }
  }

  lemma JoinNoBetter(cells: seq<Cell>, rest: seq<Row>, sx: nat)
    requires NarrowCells(cells) && |cells| < sx && Narrow(rest)
    ensures var t := JoinTurn([], cells, rest, sx);
            NoBetter([Row(cells, true)] + rest, t.out + t.rest) && Narrow(t.rest)
  {
    hide NoBetter, JoinsSomehow, JoinLoop, JoinedRow;
    NarrowWidth(cells);
    var j := JoinLoop(cells, |cells|, sx, rest, 0, true, false);
    JoinSomehow(cells, sx, rest, 0, false);
    JoinFound(cells, |cells|, sx, rest, 0, true, false);
    JoinedNoBetter(cells, rest, j);
    JoinLeftNarrow(cells, |cells|, sx, rest, 0, true, false);
    assert [] + [JoinedRow(cells, j)] == [JoinedRow(cells, j)];
  }

  lemma {:induction false} JoinLeftNarrow(cells: seq<Cell>, width: nat, sx: nat, rest: seq<Row>, lines: nat,
                                          wrapped: bool, found: bool)
    requires Narrow(rest) && lines <= |rest|
    ensures NarrowCells(JoinLoop(cells, width, sx, rest, lines, wrapped, found).left)
    decreases |rest| - lines
  {
    if lines < |rest| {
      var row := rest[lines];
      match LookAt(width, sx, row, wrapped && row.wrapped)
      case Stop =>
      case Skip => JoinLeftNarrow(cells, width, sx, rest, lines + 1, wrapped && row.wrapped, found);
      case Take(want, last) =>
        if !last {
          JoinLeftNarrow(cells + row.cells, width + Width(row.cells), sx, rest, lines + 1, wrapped && row.wrapped, true);
        }
    }
  }

  /** The join ends a logical line above an empty line that its last cells were WRAPPED to. */
  predicate CutsGap(rest: seq<Row>, j: Joined)
    requires 0 < j.lines <= |rest|
  {
    j.left == [] && !j.wrapped && rest[j.lines - 1].wrapped
  }

  lemma JoinedBreaks(cells: seq<Cell>, rest: seq<Row>, j: Joined)
    requires JoinsSomehow(rest, j) && j.found
    ensures var a, b := [Row(cells, true)] + rest, [JoinedRow(cells, j)] + JoinedRest(rest, j);
            Breaks(b) >= Breaks(a) && (CutsGap(rest, j) ==> Breaks(b) > Breaks(a))
  {
    var a, b := [Row(cells, true)] + rest, [JoinedRow(cells, j)] + JoinedRest(rest, j);
    assert a[1..] == rest && b[1..] == JoinedRest(rest, j);
    BreaksWrapped(rest, j.lines - 1);
    assert rest[j.lines - 1..][1..] == rest[j.lines..];
    if j.left != [] {
      assert JoinedRest(rest, j)[1..] == rest[j.lines..];
    }
  }

  lemma JoinedGaps(cells: seq<Cell>, rest: seq<Row>, j: Joined)
    requires JoinsSomehow(rest, j) && j.found && !CutsGap(rest, j)
    ensures var a, b := [Row(cells, true)] + rest, [JoinedRow(cells, j)] + JoinedRest(rest, j);
            NoGap(a) || !NoGap(b)
  {
    hide NoGap;
    var a, b := [Row(cells, true)] + rest, [JoinedRow(cells, j)] + JoinedRest(rest, j);
    if j.left != [] {
      ShiftedGap(a, b, 1 - j.lines, j.lines);
    } else {
      var d: int := 0 - j.lines;
      ShiftedGap(a, b, d, j.lines);
    }
  }

  lemma JoinedNoBetter(cells: seq<Cell>, rest: seq<Row>, j: Joined)
    requires JoinsSomehow(rest, j) && (j.left != [] ==> j.found)
    ensures NoBetter([Row(cells, true)] + rest, [JoinedRow(cells, j)] + JoinedRest(rest, j))
  {
    hide NoGap, Breaks, JoinsSomehow;
    if j.found {
      JoinedBounds(rest, j);
      JoinedBreaks(cells, rest, j);
      if !CutsGap(rest, j) { JoinedGaps(cells, rest, j); }
    }
  }

  lemma JoinedBounds(rest: seq<Row>, j: Joined)
    requires JoinsSomehow(rest, j) && j.found
    ensures 0 < j.lines <= |rest|
  {
  }

  /** Rows that are full and WRAPPED, put above, change neither the gaps nor the breaks below. */
  lemma UnderFull(full: seq<Row>, row: Row, rest: seq<Row>, b: seq<Row>, same: Row)
    requires forall i :: 0 <= i < |full| ==> full[i].wrapped && full[i].cells != []
    requires row.wrapped == same.wrapped && (row.cells != [] || row == same)
    requires NoBetter([same] + rest, b)
    ensures NoBetter([row] + rest, full + b)
  {
    BreaksConcat(full, b);
    BreaksWrapped(full, |full|);
    var a, a' := [row] + rest, [same] + rest;
    assert a[1..] == rest && a'[1..] == rest;
    if !NoGap(a) {
      var i: nat :| GapAt(a, i);
      assert GapAt(a', i);
      if !NoGap(b) {
        var k: nat :| GapAt(b, k);
        assert GapAt(full + b, |full| + k);
      }
    }
  }

  lemma SplitNoBetter(row: Row, rest: seq<Row>, sx: nat)
    requires sx >= 1 && |row.cells| > sx && NarrowCells(row.cells) && Narrow(rest)
    ensures var t := SplitTurn(row, rest, sx);
            NoBetter([row] + rest, t.out + t.rest) && Narrow(t.rest) && t.out != []
  {
    SplitShape(row.cells, sx);
    var split := SplitRows(row.cells, sx);
    var full, last := AllWrapped(split[..|split| - 1]), split[|split| - 1];
    NarrowWidth(last);
    FullOverTurn(full, last, row, rest, sx);
  }

  lemma FullOverTurn(full: seq<Row>, last: seq<Cell>, row: Row, rest: seq<Row>, sx: nat)
    requires forall i :: 0 <= i < |full| ==> full[i].wrapped && full[i].cells != []
    requires row.cells != [] && NarrowCells(last) && |last| <= sx && Narrow(rest)
    ensures var t := if row.wrapped && |last| < sx then JoinTurn(full, last, rest, sx)
                     else Turn(full + [Row(last, row.wrapped)], rest);
            NoBetter([row] + rest, t.out + t.rest) && Narrow(t.rest) && t.out != []
  {
    hide NoBetter, JoinTurn;
    if row.wrapped && |last| < sx {
      JoinNoBetter(last, rest, sx);
      var one := JoinTurn([], last, rest, sx);
      UnderFull(full, row, rest, one.out + one.rest, Row(last, true));
      JoinTurnWell(full, last, rest, sx);
      JoinTurnOne(last, rest, sx);
      RowAssoc(full, one.out, one.rest);
    } else {
      SameNoBetter([Row(last, row.wrapped)] + rest);
      UnderFull(full, row, rest, [Row(last, row.wrapped)] + rest, Row(last, row.wrapped));
      RowAssoc(full, [Row(last, row.wrapped)], rest);
    }
  }

  lemma JoinTurnOne(cells: seq<Cell>, rest: seq<Row>, sx: nat)
    ensures var one := JoinTurn([], cells, rest, sx); one.out != [] && one.out == [one.out[0]]
  {
    hide JoinLoop, JoinedRow, JoinedRest;
  }

  lemma SameNoBetter(rows: seq<Row>)
    ensures NoBetter(rows, rows)
  {
  }

  lemma RowAssoc(a: seq<Row>, b: seq<Row>, c: seq<Row>)
    ensures a + (b + c) == a + b + c
  {
  }

  lemma TurnNoBetter(row: Row, rest: seq<Row>, sx: nat)
    requires sx >= 1 && NarrowCells(row.cells) && Narrow(rest)
    ensures var t := OneTurn(row, rest, sx);
            NoBetter([row] + rest, t.out + t.rest) && Narrow(t.rest) && t.out != []
    ensures Void(row) ==> OneTurn(row, rest, sx) == Turn([row], rest)
  {
    NarrowWidth(row.cells);
    if |row.cells| > sx {
      SplitNoBetter(row, rest, sx);
    } else if |row.cells| < sx && row.wrapped {
      JoinNoBetter(row.cells, rest, sx);
    }
  }

  lemma {:induction false} ReflowNoBetter(rows: seq<Row>, sx: nat)
    requires sx >= 1 && Narrow(rows)
    ensures NoBetter(rows, Reflow(rows, sx))
    ensures rows != [] && Void(rows[0]) ==> Reflow(rows, sx) != [] && Void(Reflow(rows, sx)[0])
    decreases |rows|
  {
    hide NoBetter, OneTurn;
    if rows == [] {
      SameNoBetter(rows);
    } else {
      var row, rest := rows[0], rows[1..];
      assert [row] + rest == rows;
      TurnNoBetter(row, rest, sx);
      var t := OneTurn(row, rest, sx);
      ReflowNoBetter(t.rest, sx);
      AfterTurn(rows, t.out, t.rest, Reflow(t.rest, sx));
      if Void(row) { assert t.out == [row]; }
    }
  }

  /** What a turn and the turns after it do to breaks and gaps. */
  lemma AfterTurn(rows: seq<Row>, out: seq<Row>, rest: seq<Row>, tail: seq<Row>)
    requires NoBetter(rows, out + rest) && NoBetter(rest, tail) && out != []
    requires rest != [] && Void(rest[0]) ==> tail != [] && Void(tail[0])
    ensures NoBetter(rows, out + tail)
  {
    BreaksConcat(out, rest);
    BreaksConcat(out, tail);
    if !NoGap(out + rest) {
      var i: nat :| GapAt(out + rest, i);
      if i + 1 <= |out| {
        assert GapAt(out + tail, i);
      } else {
        assert GapAt(rest, i - |out|);
        if !NoGap(tail) {
          var k: nat :| GapAt(tail, k);
          assert GapAt(out + tail, |out| + k);
        }
      }
    }
  }

  // ---- The theorems ----

  function CountBreaks(s: seq<Token>): nat {
    if s == [] then 0 else (if s[0].Break? then 1 else 0) + CountBreaks(s[1..])
  }

  lemma {:induction false} CountConcat(a: seq<Token>, b: seq<Token>)
    ensures CountBreaks(a + b) == CountBreaks(a) + CountBreaks(b)
  {
    if a == [] {
      assert a + b == b;
    } else {
      assert (a + b)[1..] == a[1..] + b;
      CountConcat(a[1..], b);
    }
  }

  lemma {:induction false} CountTokens(cells: seq<Cell>)
    ensures CountBreaks(Tokens(cells)) == 0
  {
    if cells != [] {
      assert Tokens(cells)[1..] == Tokens(cells[1..]);
      CountTokens(cells[1..]);
    }
  }

  lemma {:induction false} BreaksCount(rows: seq<Row>)
    ensures Breaks(rows) == CountBreaks(Stream(rows))
  {
    if rows != [] {
      BreaksCount(rows[1..]);
      CountTokens(rows[0].cells);
      CountConcat(Tokens(rows[0].cells), End(rows[0].wrapped));
      CountConcat(Tokens(rows[0].cells) + End(rows[0].wrapped), Stream(rows[1..]));
    }
  }

  /** Reflowing to `sx` columns gives each logical line cut into rows of `sx` cells, WRAPPED on all
    * but the last, exactly when no WRAPPED line is followed by an empty unwrapped one. */
  lemma ReflowIsLayout(rows: seq<Row>, sx: nat)
    requires sx >= 1 && Narrow(rows) && Terminated(rows)
    ensures Reflow(rows, sx) == Layout(Logical(rows, []), sx) <==> NoGap(rows)
  {
    var lines := Logical(rows, []);
    LogicalStream(rows, []);
    assert Tokens([]) + Stream(rows) == Stream(rows);
    LayoutWell(lines, sx);
    if NoGap(rows) {
      ReflowCanonical(rows, sx);
      CanonicalUnique(Reflow(rows, sx), Layout(lines, sx), sx);
    } else {
      ReflowNoBetter(rows, sx);
      CanonicalNoGap(Layout(lines, sx), sx);
      BreaksCount(rows);
      BreaksCount(Layout(lines, sx));
    }
  }

  function Blanks(n: nat): seq<Row> {
    seq(n, _ => Row([], false))
  }

  lemma BlanksCanonical(rows: seq<Row>, n: nat, sx: nat)
    requires Canonical(rows, sx)
    ensures Canonical(rows + Blanks(n), sx)
  {
    CanonicalNoGap(rows, sx);
    assert Canonical(Blanks(n), sx);
    CanonicalConcat(rows, Blanks(n), sx);
  }

  lemma {:induction false} CanonicalNarrow(rows: seq<Row>, cells: seq<Cell>)
    requires Flat(rows) == cells && NarrowCells(cells)
    ensures Narrow(rows)
  {
    if rows != [] {
      assert forall i :: 0 <= i < |rows[0].cells| ==> cells[i] == rows[0].cells[i];
      assert forall i :: 0 <= i < |Flat(rows[1..])| ==> cells[|rows[0].cells| + i] == Flat(rows[1..])[i];
      CanonicalNarrow(rows[1..], Flat(rows[1..]));
      assert forall i :: 0 < i < |rows| ==> rows[i] == rows[1..][i - 1];
    }
  }

  lemma {:induction false} NarrowFlat(rows: seq<Row>)
    requires Narrow(rows)
    ensures NarrowCells(Flat(rows))
  {
    if rows != [] {
      assert forall i :: 0 <= i < |rows[1..]| ==> rows[1..][i] == rows[i + 1];
      NarrowFlat(rows[1..]);
    }
  }

  /** Reflowing to `a` columns, adding blank lines, and reflowing to `b` columns is the same as
    * reflowing to `b` columns and adding the blank lines. */
  lemma ReflowTwice(rows: seq<Row>, a: nat, b: nat, n: nat)
    requires a >= 1 && b >= 1 && Narrow(rows) && Terminated(rows) && NoGap(rows)
    ensures Reflow(Reflow(rows, a) + Blanks(n), b) == Reflow(rows, b) + Blanks(n)
  {
    var once := Reflow(rows, a);
    ReflowCanonical(rows, a);
    ReflowCanonical(rows, b);
    BlanksCanonical(once, n, a);
    BlanksCanonical(Reflow(rows, b), n, b);
    CanonicalNoGap(once + Blanks(n), a);
    ReflowKeepsCells(rows, a);
    NarrowFlat(rows);
    CanonicalNarrow(once, Flat(rows));
    ReflowCanonical(once + Blanks(n), b);
    StreamConcat(once, Blanks(n));
    StreamConcat(Reflow(rows, b), Blanks(n));
    CanonicalUnique(Reflow(once + Blanks(n), b), Reflow(rows, b) + Blanks(n), b);
  }
}
