/** What the steps of the control engine do to the shared queue of blocks. */
module ControlQueue {
  import opened Bytes
  import opened ControlOutput
  import opened ControlModel

  /** Blocks are numbered in the order of the queue, above `lo` and below `hi`. */
  predicate Sorted(all: seq<Block>, lo: int, hi: nat) {
    all == [] || (lo < Id(all[0]) < hi && Sorted(all[1..], Id(all[0]), hi))
  }

  /** Every output block holds bytes of a pane in `active`. */
  predicate Live(all: seq<Block>, active: set<PaneId>) {
    all == [] || ((all[0].OutputBlock? ==> all[0].size > 0 && all[0].pane in active) && Live(all[1..], active))
  }

  lemma {:induction false} SortedWeaken(all: seq<Block>, lo: int, lo': int, hi: nat, hi': nat)
    requires Sorted(all, lo, hi) && lo' <= lo && hi <= hi'
    ensures Sorted(all, lo', hi')
  {
    if all != [] {
      SortedWeaken(all[1..], Id(all[0]), Id(all[0]), hi, hi');
    }
  }

  lemma {:induction false} LiveWeaken(all: seq<Block>, active: set<PaneId>, active': set<PaneId>)
    requires Live(all, active)
    requires forall p :: p in active && Ids(all, p) != [] ==> p in active'
    ensures Live(all, active')
  {
    if all != [] {
      forall p | p in active && Ids(all[1..], p) != [] ensures p in active' {
        assert Ids(all, p) != [];
      }
      if all[0].OutputBlock? {
        assert Ids(all, all[0].pane) != [];
      }
      LiveWeaken(all[1..], active, active');
    }
  }

  /** A block added at the end. */
  lemma AddLast(all: seq<Block>, b: Block, p: PaneId)
    ensures Ids(all + [b], p) == Ids(all, p) + if OfPane(b, p) then [b.id] else []
    ensures Queued(all + [b], p) == Queued(all, p) + if OfPane(b, p) then b.size else 0
    ensures LinesIn(all + [b]) == LinesIn(all) + if b.LineBlock? then [b.line] else []
    ensures ReplyBytes(all + [b]) == ReplyBytes(all) + if b.LineBlock? then |b.line.text| + 1 else 0
    ensures OutputBytes(all + [b]) == OutputBytes(all) + if b.OutputBlock? then b.size else 0
  {
    hide Ids, Queued, LinesIn, ReplyBytes, OutputBytes;
    AddLastOutput(all, b, p);
    AddLastLine(all, b);
  }

  lemma AddLastOutput(all: seq<Block>, b: Block, p: PaneId)
    ensures Ids(all + [b], p) == Ids(all, p) + if OfPane(b, p) then [b.id] else []
    ensures Queued(all + [b], p) == Queued(all, p) + if OfPane(b, p) then b.size else 0
    ensures OutputBytes(all + [b]) == OutputBytes(all) + if b.OutputBlock? then b.size else 0
  {
    hide Ids, Queued, OutputBytes;
    AddLastIds(all, b, p);
    AddLastBytes(all, b, p);
  }

  lemma {:induction false} AddLastIds(all: seq<Block>, b: Block, p: PaneId)
    ensures Ids(all + [b], p) == Ids(all, p) + if OfPane(b, p) then [b.id] else []
  {
    if all == [] {
      assert all + [b] == [b] && [b][1..] == [];
    } else {
      assert (all + [b])[1..] == all[1..] + [b];
      AddLastIds(all[1..], b, p);
      var first, last := if OfPane(all[0], p) then [all[0].id] else [], if OfPane(b, p) then [b.id] else [];
      IdsAssoc(first, Ids(all[1..], p), last);
    }
  }

  lemma IdsAssoc(a: seq<nat>, b: seq<nat>, c: seq<nat>)
    ensures a + (b + c) == (a + b) + c
  {
  }

  lemma {:induction false} AddLastBytes(all: seq<Block>, b: Block, p: PaneId)
    ensures Queued(all + [b], p) == Queued(all, p) + if OfPane(b, p) then b.size else 0
    ensures OutputBytes(all + [b]) == OutputBytes(all) + if b.OutputBlock? then b.size else 0
  {
    if all == [] {
      assert all + [b] == [b] && [b][1..] == [];
    } else {
      assert (all + [b])[1..] == all[1..] + [b];
      AddLastBytes(all[1..], b, p);
    }
  }

  lemma {:induction false} AddLastLine(all: seq<Block>, b: Block)
    ensures LinesIn(all + [b]) == LinesIn(all) + if b.LineBlock? then [b.line] else []
    ensures ReplyBytes(all + [b]) == ReplyBytes(all) + if b.LineBlock? then |b.line.text| + 1 else 0
  {
    if all == [] {
      assert all + [b] == [b] && [b][1..] == [];
    } else {
      assert (all + [b])[1..] == all[1..] + [b];
      AddLastLine(all[1..], b);
      var first := if all[0].LineBlock? then [all[0].line] else [];
      var last := if b.LineBlock? then [b.line] else [];
      assert LinesIn(all + [b]) == first + (LinesIn(all[1..]) + last);
      assert first + LinesIn(all[1..]) + last == first + (LinesIn(all[1..]) + last);
    }
  }

  lemma {:induction false} AddLastOk(all: seq<Block>, b: Block, lo: int, hi: nat, active: set<PaneId>)
    requires Sorted(all, lo, hi) && Live(all, active) && lo < hi == Id(b)
    requires b.OutputBlock? ==> b.size > 0 && b.pane in active
    ensures Sorted(all + [b], lo, hi + 1) && Live(all + [b], active)
  {
    if all == [] {
      assert all + [b] == [b] && [b][1..] == [];
    } else {
      assert (all + [b])[1..] == all[1..] + [b];
      AddLastOk(all[1..], b, Id(all[0]), hi, active);
    }
  }

  /** All blocks of one pane removed. */
  lemma {:induction false} WithoutFacts(all: seq<Block>, p: PaneId, q: PaneId)
    ensures Ids(Without(all, p), q) == if p == q then [] else Ids(all, q)
    ensures Queued(Without(all, p), q) == if p == q then 0 else Queued(all, q)
    ensures LinesIn(Without(all, p)) == LinesIn(all)
    ensures ReplyBytes(Without(all, p)) == ReplyBytes(all)
    ensures OutputBytes(Without(all, p)) == OutputBytes(all) - Queued(all, p)
  {
    if all != [] {
      WithoutFacts(all[1..], p, q);
      if !OfPane(all[0], p) {
        assert Without(all, p)[1..] == Without(all[1..], p);
      } else {
        assert [] + Without(all[1..], p) == Without(all[1..], p);
        assert [] + LinesIn(all[1..]) == LinesIn(all[1..]);
      }
    }
  }

  lemma {:induction false} WithoutOk(all: seq<Block>, p: PaneId, lo: int, hi: nat, active: set<PaneId>)
    requires Sorted(all, lo, hi) && Live(all, active)
    ensures Sorted(Without(all, p), lo, hi) && Live(Without(all, p), active)
  {
    if all != [] {
      WithoutOk(all[1..], p, Id(all[0]), hi, active);
      if OfPane(all[0], p) {
        assert [] + Without(all[1..], p) == Without(all[1..], p);
        SortedWeaken(Without(all[1..], p), Id(all[0]), lo, hi, hi);
      } else {
        assert Without(all, p)[1..] == Without(all[1..], p);
      }
    }
  }

  /** All output removed. */
  lemma {:induction false} OnlyLinesFacts(all: seq<Block>, q: PaneId)
    ensures Ids(OnlyLines(all), q) == [] && Queued(OnlyLines(all), q) == 0
    ensures LinesIn(OnlyLines(all)) == LinesIn(all)
    ensures ReplyBytes(OnlyLines(all)) == ReplyBytes(all)
    ensures OutputBytes(OnlyLines(all)) == 0
  {
    if all != [] {
      OnlyLinesFacts(all[1..], q);
      if all[0].LineBlock? {
        assert OnlyLines(all)[1..] == OnlyLines(all[1..]);
      } else {
        assert [] + OnlyLines(all[1..]) == OnlyLines(all[1..]);
        assert [] + LinesIn(all[1..]) == LinesIn(all[1..]);
      }
    }
  }

  lemma {:induction false} OnlyLinesOk(all: seq<Block>, lo: int, hi: nat, active: set<PaneId>)
    requires Sorted(all, lo, hi)
    ensures Sorted(OnlyLines(all), lo, hi) && Live(OnlyLines(all), active)
  {
    if all != [] {
      OnlyLinesOk(all[1..], Id(all[0]), hi, active);
      if all[0].OutputBlock? {
        assert [] + OnlyLines(all[1..]) == OnlyLines(all[1..]);
        SortedWeaken(OnlyLines(all[1..]), Id(all[0]), lo, hi, hi);
      } else {
        assert OnlyLines(all)[1..] == OnlyLines(all[1..]);
      }
    }
  }

  /** Bytes taken from a pane's first block. */
  lemma {:induction false} TakeFacts(all: seq<Block>, p: PaneId, n: nat, q: PaneId)
    requires Ids(all, p) != [] && n <= First(all, p).size
    ensures var r := TakeFrom(all, p, n);
            && Ids(r, q) == (if p == q && n == First(all, p).size then Ids(all, q)[1..] else Ids(all, q))
            && Queued(r, q) == Queued(all, q) - (if p == q then n else 0)
            && LinesIn(r) == LinesIn(all) && ReplyBytes(r) == ReplyBytes(all)
            && OutputBytes(r) == OutputBytes(all) - n
    ensures Ids(all, p)[0] == First(all, p).id
  {
    var r := TakeFrom(all, p, n);
    if !OfPane(all[0], p) {
      assert [] + Ids(all[1..], p) == Ids(all[1..], p);
      TakeFacts(all[1..], p, n, q);
      assert r[1..] == TakeFrom(all[1..], p, n);
    } else if n == all[0].size {
      assert p == q ==> Ids(all, q) == [all[0].id] + Ids(all[1..], q);
      assert [] + Ids(all[1..], q) == Ids(all[1..], q);
      assert [] + LinesIn(all[1..]) == LinesIn(all[1..]);
    } else {
      assert r[1..] == all[1..];
    }
  }

  lemma {:induction false} TakeOk(all: seq<Block>, p: PaneId, n: nat, lo: int, hi: nat, active: set<PaneId>)
    requires Sorted(all, lo, hi) && Live(all, active)
    requires Ids(all, p) != [] && n <= First(all, p).size
    ensures var r := TakeFrom(all, p, n); Sorted(r, lo, hi) && Live(r, active)
    ensures lo < First(all, p).id < hi && First(all, p).size > 0 && p in active
  {
    var r := TakeFrom(all, p, n);
    if !OfPane(all[0], p) {
      assert [] + Ids(all[1..], p) == Ids(all[1..], p);
      TakeOk(all[1..], p, n, Id(all[0]), hi, active);
      assert r[1..] == TakeFrom(all[1..], p, n);
    } else if n == all[0].size {
      SortedWeaken(all[1..], Id(all[0]), lo, hi, hi);
    } else {
      assert r[1..] == all[1..];
    }
  }

  /** The first block gone: a line. */
  lemma DropLine(all: seq<Block>, p: PaneId)
    requires all != [] && all[0].LineBlock?
    ensures Ids(all[1..], p) == Ids(all, p) && Queued(all[1..], p) == Queued(all, p)
    ensures LinesIn(all) == [all[0].line] + LinesIn(all[1..])
    ensures ReplyBytes(all) == |all[0].line.text| + 1 + ReplyBytes(all[1..])
    ensures OutputBytes(all) == OutputBytes(all[1..])
  {
    assert [] + Ids(all[1..], p) == Ids(all[1..], p);
  }

  lemma {:induction false} QueuedIsPart(all: seq<Block>, p: PaneId)
    ensures Queued(all, p) <= OutputBytes(all)
    ensures Ids(all, p) == [] ==> Queued(all, p) == 0
  {
    if all != [] {
      QueuedIsPart(all[1..], p);
    }
  }
}
