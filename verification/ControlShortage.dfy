/** What the writer does to one pane's account, and when it finds too little data. */
module ControlShortage {
  import opened Bytes
  import opened ControlOutput
  import opened ControlModel
  import opened ControlQueue
  import opened ControlInvariant
  import opened ControlSteps
  import opened ControlWriter

  /** The place in the stream up to which output is sent or queued. */
  function Owed(s: State, p: PaneId): nat {
    (if p in s.panes then s.panes[p].offset else 0) + Queued(s.all, p)
  }

  /** More is queued for the pane than its stream holds. */
  predicate Short(s: State, p: PaneId) {
    Owed(s, p) > |Stream(s, p)|
  }

  /** A step keeps what a pane is owed, or drops all that was queued.  A pane that stays active loses
    * queued bytes only if it is gone, and then all of them. */
  predicate PaneStep(s: State, t: State, p: PaneId, gone: set<PaneId>) {
    && Stream(t, p) == Stream(s, p) && (p in t.panes <==> p in s.panes) && (s.exit ==> t.exit)
    && (Queued(s.all, p) == 0 || (t.exit && !s.exit) ==> Queued(t.all, p) == 0)
    && (p in t.panes && Queued(t.all, p) > 0 ==>
          Owed(t, p) == Owed(s, p) && (p in gone ==> Queued(t.all, p) == Queued(s.all, p)))
    && (p in t.panes && Active(t.panes[p]) && !t.exit ==>
          Active(s.panes[p]) && if p in gone && Queued(t.all, p) != Queued(s.all, p)
                                then Queued(t.all, p) == 0 && t.panes[p].lost > 0
                                else t.panes[p].lost == s.panes[p].lost)
  }

  lemma PaneSelf(s: State, p: PaneId, gone: set<PaneId>)
    ensures PaneStep(s, s, p, gone)
  {
  }

  lemma PaneTrans(r: State, s: State, t: State, p: PaneId, gone: set<PaneId>)
    requires PaneStep(r, s, p, gone) && PaneStep(s, t, p, gone)
    ensures PaneStep(r, t, p, gone)
  {
    hide Queued, Stream;
  }

  /** Lines. */
  lemma LinePane(s: State, t: State, p: PaneId, gone: set<PaneId>)
    requires LineStep(s, t)
    ensures PaneStep(s, t, p, gone)
  {
    hide Queued, OutputBytes, Ids;
    QueuedIsPart(t.all, p);
  }

  /** Nothing of the pane itself changes but flags. */
  lemma SamePane(s: State, t: State, p: PaneId, gone: set<PaneId>)
    requires Stream(t, p) == Stream(s, p) && Queued(t.all, p) == Queued(s.all, p) && t.exit == s.exit
    requires (p in t.panes <==> p in s.panes) && (p in s.panes ==>
               t.panes[p].offset == s.panes[p].offset && t.panes[p].lost == s.panes[p].lost
               && (Active(t.panes[p]) ==> Active(s.panes[p])))
    ensures PaneStep(s, t, p, gone)
  {
    hide Queued, Stream;
  }

  lemma DiscardPaneStep(s: State, q: PaneId, p: PaneId, gone: set<PaneId>)
    requires q in s.panes && (q == p ==> p in gone)
    ensures PaneStep(s, DiscardPane(s, q), p, gone)
  {
    hide Queued, Without;
    WithoutFacts(s.all, q, p);
  }

  lemma ExitPane(s: State, p: PaneId, gone: set<PaneId>)
    ensures PaneStep(s, s.(exit := true, all := OnlyLines(s.all)), p, gone)
  {
    hide Queued, OnlyLines;
    OnlyLinesFacts(s.all, p);
  }

  lemma PausedPane(s: State, q: PaneId, p: PaneId, gone: set<PaneId>)
    requires q in s.panes
    ensures var t := DiscardPane(s, q); PaneStep(s, t.(panes := t.panes[q := t.panes[q].(paused := true)]), p, gone)
  {
    hide Queued, Without;
    WithoutFacts(s.all, q, p);
  }

  lemma DoPausePane(s: State, q: PaneId, held: Held, p: PaneId, gone: set<PaneId>)
    requires Core(s, held) && GuardOk(s) && q in s.panes && (held.Held? ==> held.message.pane == q)
    ensures PaneStep(s, DoPause(s, q), p, gone)
  {
    hide Core, GuardOk, DiscardPane, NotifyLine, OutputBytes, Ids, PaneStep, LineStep, Queued;
    var s1 := DiscardPane(s, q);
    DiscardOk(s, q, held);
    DiscardShrinks(s, q);
    var pane := s1.panes[q].(paused := true);
    var s2 := s1.(panes := s1.panes[q := pane]);
    Paused(s1, q, pane, held);
    SameGuardsOk(s, s2);
    NotifyOk(s2, PAUSE + Decimal(q));
    PausedPane(s, q, p, gone);
    LinePane(s2, NotifyLine(s2, PAUSE + Decimal(q)), p, gone);
    PaneTrans(s, s2, NotifyLine(s2, PAUSE + Decimal(q)), p, gone);
  }

  lemma AgedPane(s: State, q: PaneId, held: Held, p: PaneId, gone: set<PaneId>)
    requires Core(s, held) && GuardOk(s) && q in s.panes && (held.Held? ==> held.message.pane == q)
    ensures PaneStep(s, Aged(s, q), p, gone)
  {
    hide Core, GuardOk, DoPause, PaneStep;
    if s.pauseAfter { DoPausePane(s, q, held, p, gone); } else { ExitPane(s, p, gone); }
  }

  // ---- Blocks that are not too old ----

  function Age(s: State): nat {
    if s.pauseAfter then s.pauseAge else CONTROL_MAXIMUM_AGE
  }

  predicate Old(b: Block, now: nat, age: nat) {
    b.OutputBlock? && b.t < now && now - b.t >= age
  }

  /** No block of the pane is too old. */
  predicate Young(all: seq<Block>, p: PaneId, now: nat, age: nat) {
    all == [] || (!(OfPane(all[0], p) && Old(all[0], now, age)) && Young(all[1..], p, now, age))
  }

  lemma YoungFirst(s: State, p: PaneId, now: nat)
    requires Young(s.all, p, now, Age(s))
    ensures !TooOld(s, p, now)
  {
    if Ids(s.all, p) != [] { FirstYoung(s.all, p, now, Age(s)); }
  }

  lemma {:induction false} FirstYoung(all: seq<Block>, p: PaneId, now: nat, age: nat)
    requires Young(all, p, now, age) && Ids(all, p) != []
    ensures !Old(First(all, p), now, age)
  {
    if !OfPane(all[0], p) {
      assert [] + Ids(all[1..], p) == Ids(all[1..], p);
      FirstYoung(all[1..], p, now, age);
    }
  }

  lemma {:induction false} TakeYoung(all: seq<Block>, q: PaneId, n: nat, p: PaneId, now: nat, age: nat)
    requires Young(all, p, now, age) && Ids(all, q) != [] && n <= First(all, q).size
    ensures Young(TakeFrom(all, q, n), p, now, age)
  {
    if !OfPane(all[0], q) {
      assert [] + Ids(all[1..], q) == Ids(all[1..], q);
      TakeYoung(all[1..], q, n, p, now, age);
      assert TakeFrom(all, q, n)[1..] == TakeFrom(all[1..], q, n);
    } else if n < all[0].size {
      assert TakeFrom(all, q, n)[1..] == all[1..];
    }
  }

  lemma {:induction false} WithoutYoung(all: seq<Block>, q: PaneId, p: PaneId, now: nat, age: nat)
    requires Young(all, p, now, age)
    ensures Young(Without(all, q), p, now, age)
  {
    if all != [] {
      WithoutYoung(all[1..], q, p, now, age);
      if OfPane(all[0], q) {
        assert [] + Without(all[1..], q) == Without(all[1..], q);
      } else {
        assert Without(all, q)[1..] == Without(all[1..], q);
      }
    }
  }

  /** Lines that are flushed leave the output blocks as they are. */
  lemma {:induction false} FlushKeeps(s: State, p: PaneId, now: nat, age: nat)
    ensures var t := FlushLines(s);
            && Queued(t.all, p) == Queued(s.all, p) && t.streams == s.streams && t.fatal == s.fatal && t.exit == s.exit
            && t.pauseAfter == s.pauseAfter && t.pauseAge == s.pauseAge
            && (Young(s.all, p, now, age) ==> Young(t.all, p, now, age))
    decreases |s.all|
  {
    hide Queued, FlushOne;
    if s.all != [] && s.all[0].LineBlock? {
      DropLine(s.all, p);
      FlushOneFields(s);
      FlushKeeps(FlushOne(s), p, now, age);
    }
  }

  lemma FlushOneFields(s: State)
    requires s.all != [] && s.all[0].LineBlock?
    ensures var t := FlushOne(s);
            && t.all == s.all[1..] && t.streams == s.streams && t.fatal == s.fatal && t.exit == s.exit
            && t.pauseAfter == s.pauseAfter && t.pauseAge == s.pauseAge
  {
  }

  // ---- The writer ----

  lemma TakenStep(s: State, q: PaneId, size: nat, p: PaneId, gone: set<PaneId>)
    requires q in s.panes && q !in gone && Ids(s.all, q) != [] && size <= First(s.all, q).size
    ensures PaneStep(s, Taken(s, q, size), p, gone) && Owed(Taken(s, q, size), p) == Owed(s, p)
  {
    hide Queued, Ids, First, TakeFrom;
    TakeFacts(s.all, q, size, p);
  }

  lemma TakenFields(s: State, q: PaneId, size: nat)
    requires q in s.panes && Ids(s.all, q) != [] && size <= First(s.all, q).size
    ensures var t := Taken(s, q, size);
            && t.all == TakeFrom(s.all, q, size) && t.panes[q].offset == s.panes[q].offset + size
            && t.streams == s.streams && t.fatal == s.fatal && t.exit == s.exit && Age(t) == Age(s)
  {
    hide Ids, First, TakeFrom;
  }

  /** Bytes taken from a pane's first block keep what every pane is owed, and the blocks young. */
  lemma TakenPane(s: State, q: PaneId, size: nat, p: PaneId, gone: set<PaneId>, now: nat)
    requires q in s.panes && q !in gone && Ids(s.all, q) != [] && size <= First(s.all, q).size
    ensures var t := Taken(s, q, size);
            && PaneStep(s, t, p, gone) && Owed(t, p) == Owed(s, p) && Age(t) == Age(s)
            && (Young(s.all, p, now, Age(s)) ==> Young(t.all, p, now, Age(s)))
    ensures var t := Taken(s, q, size);
            && t.panes[q].offset == s.panes[q].offset + size && t.streams == s.streams && t.fatal == s.fatal
  {
    hide Queued, Ids, First, TakeFrom, Young, PaneStep, Taken, Age;
    TakenStep(s, q, size, p, gone);
    TakenFields(s, q, size);
    if Young(s.all, p, now, Age(s)) { TakeYoung(s.all, q, size, p, now, Age(s)); }
  }

  lemma SendPane(s: State, item: Item, p: PaneId, gone: set<PaneId>)
    ensures PaneStep(s, Send(s, item), p, gone)
  {
    hide Queued;
  }

  /** A turn of the loop takes bytes, and perhaps delivers the message. */
  lemma ChunkCases(s: State, q: PaneId, now: nat, size: nat, held: Held) returns (m: Item)
    requires q in s.panes && Ids(s.all, q) != [] && size <= First(s.all, q).size
    requires s.panes[q].offset + size <= |Stream(s, q)| && (held.Held? ==> held.message.Message?)
    ensures var t := Chunk(s, q, now, size, held).0; t == Taken(s, q, size) || t == Deliver(Taken(s, q, size), m)
  {
    hide Ids, First, Extend, Deliver, Taken;
    m := Extend(s, held, First(s.all, q), now, Stream(s, q)[s.panes[q].offset..s.panes[q].offset + size]);
  }

  lemma ChunkPane(s: State, q: PaneId, now: nat, size: nat, held: Held, p: PaneId, gone: set<PaneId>)
    requires q in s.panes && q !in gone && Ids(s.all, q) != [] && size <= First(s.all, q).size
    requires s.panes[q].offset + size <= |Stream(s, q)| && (held.Held? ==> held.message.Message?)
    ensures var t := Chunk(s, q, now, size, held).0;
            && PaneStep(s, t, p, gone) && Owed(t, p) == Owed(s, p) && Age(t) == Age(s)
            && (Young(s.all, p, now, Age(s)) ==> Young(t.all, p, now, Age(s)))
    ensures var t := Chunk(s, q, now, size, held).0;
            q in t.panes && t.panes[q].offset == s.panes[q].offset + size && t.streams == s.streams && t.fatal == s.fatal
  {
    hide Ids, First, Chunk, Taken, Deliver, PaneStep, Queued, Young;
    var m := ChunkCases(s, q, now, size, held);
    var taken := Taken(s, q, size);
    TakenPane(s, q, size, p, gone, now);
    DeliverPane(taken, m, p, gone, now);
    PaneTrans(s, taken, Deliver(taken, m), p, gone);
  }

  lemma {:induction false} FlushPane(s: State, p: PaneId, gone: set<PaneId>)
    ensures PaneStep(s, FlushLines(s), p, gone)
  {
    hide Queued, FlushLines;
    FlushKeeps(s, p, 0, 0);
  }

  lemma DeliverPane(s: State, m: Item, p: PaneId, gone: set<PaneId>, now: nat)
    ensures var t := Deliver(s, m);
            && PaneStep(s, t, p, gone) && Owed(t, p) == Owed(s, p) && Age(t) == Age(s)
            && (Young(s.all, p, now, Age(s)) ==> Young(t.all, p, now, Age(s)))
            && t.panes == s.panes && t.streams == s.streams && t.fatal == s.fatal
  {
    hide Queued, FlushLines, PaneStep, Young;
    SendPane(s, m, p, gone);
    FlushPane(Send(s, m), p, gone);
    PaneTrans(s, Send(s, m), FlushLines(Send(s, m)), p, gone);
    FlushKeeps(Send(s, m), p, now, Age(s));
  }

  lemma {:induction false} ChunksPane(s: State, q: PaneId, now: nat, limit: nat, used: nat, held: Held,
                                      p: PaneId, gone: set<PaneId>)
    requires Core(s, held) && GuardOk(s) && q in s.panes && used <= limit && q !in gone
    requires held.Held? ==> held.message.Message? && held.message.pane == q
    ensures PaneStep(s, WriteChunks(s, q, now, limit, used, held), p, gone)
    decreases limit - used, |s.all|
  {
    hide Core, GuardOk, Ids, First, Aged, TooOld, Chunk, PaneStep, Queued;
    if used == limit || Ids(s.all, q) == [] {
      if held.Held? { SendPane(s, held.message, p, gone); } else { PaneSelf(s, p, gone); }
    } else if TooOld(s, q, now) {
      AgedPane(s, q, held, p, gone);
    } else {
      var size := Least(First(s.all, q).size, limit - used);
      if s.panes[q].offset + size > |Stream(s, q)| {
        FatalPane(s, p, gone);
      } else {
        SomeBytes(s, q, held);
        ChunkOk(s, q, now, size, held);
        ChunkPane(s, q, now, size, held, p, gone);
        var n := Chunk(s, q, now, size, held);
        ChunksPane(n.0, q, now, limit, used + size, n.1, p, gone);
        PaneTrans(s, n.0, WriteChunks(n.0, q, now, limit, used + size, n.1), p, gone);
      }
    }
  }

  lemma FatalPane(s: State, p: PaneId, gone: set<PaneId>)
    ensures PaneStep(s, s.(fatal := true), p, gone)
  {
    hide Queued;
  }

  /** One turn of the loop of `control_write_pending`. */
  lemma ChunksTurn(s: State, p: PaneId, now: nat, limit: nat, used: nat, held: Held)
    requires p in s.panes && used < limit && Ids(s.all, p) != [] && (held.Held? ==> held.message.Message?)
    ensures TooOld(s, p, now) ==> WriteChunks(s, p, now, limit, used, held) == Aged(s, p)
    ensures var size := Least(First(s.all, p).size, limit - used);
            !TooOld(s, p, now) ==>
              if s.panes[p].offset + size > |Stream(s, p)| then
                WriteChunks(s, p, now, limit, used, held) == s.(fatal := true)
              else
                var n := Chunk(s, p, now, size, held);
                WriteChunks(s, p, now, limit, used, held) == WriteChunks(n.0, p, now, limit, used + size, n.1)
  {
    hide Ids, First, Aged, TooOld, Chunk;
  }

  lemma ChunksEnd(s: State, p: PaneId, now: nat, limit: nat, used: nat, held: Held)
    requires p in s.panes && used <= limit && (held.Held? ==> held.message.Message?)
    requires used == limit || Ids(s.all, p) == []
    ensures WriteChunks(s, p, now, limit, used, held).fatal == s.fatal
  {
    hide Ids;
  }

  /** The loop finds too little data exactly if what it is to write reaches beyond the stream. */
  lemma {:induction false} ChunksFatal(s: State, p: PaneId, now: nat, limit: nat, used: nat, held: Held)
    requires Core(s, held) && GuardOk(s) && p in s.panes && used <= limit && !s.fatal
    requires held.Held? ==> held.message.Message? && held.message.pane == p
    ensures var short := s.panes[p].offset + Least(limit - used, Queued(s.all, p)) > |Stream(s, p)|;
            && (WriteChunks(s, p, now, limit, used, held).fatal ==> short)
            && (Young(s.all, p, now, Age(s)) ==> (WriteChunks(s, p, now, limit, used, held).fatal <==> short))
    decreases limit - used, |s.all|
  {
    hide Core, GuardOk, Ids, First, Aged, TooOld, Chunk, PaneStep, Queued, Young, WriteChunks, Stream, Age;
    WithinStream(s, p, held);
    if used == limit || Ids(s.all, p) == [] {
      QueuedIsPart(s.all, p);
      ChunksEnd(s, p, now, limit, used, held);
    } else {
      ChunksTurn(s, p, now, limit, used, held);
      if TooOld(s, p, now) {
        if Young(s.all, p, now, Age(s)) { YoungFirst(s, p, now); }
        AgedOk(s, p, held);
        NotFatal(s, Aged(s, p), p);
      } else {
        var size := Least(First(s.all, p).size, limit - used);
        TakeFacts(s.all, p, First(s.all, p).size, p);
        if s.panes[p].offset + size <= |Stream(s, p)| {
          SomeBytes(s, p, held);
          ChunkOk(s, p, now, size, held);
          ChunkPane(s, p, now, size, held, p, {});
          var n := Chunk(s, p, now, size, held);
          SameStream(s, n.0, p);
          ChunksFatal(n.0, p, now, limit, used + size, n.1);
          LeastMoves(limit - used, Queued(s.all, p), size);
        }
      }
    }
  }

  lemma SameStream(s: State, t: State, p: PaneId)
    requires t.streams == s.streams
    ensures Stream(t, p) == Stream(s, p)
  {
  }

  lemma LeastMoves(a: nat, b: nat, n: nat)
    requires n <= a && n <= b
    ensures Least(a, b) == n + Least(a - n, b - n)
  {
  }

  lemma NotFatal(s: State, t: State, p: PaneId)
    requires Dropped(s, t, p)
    ensures t.fatal == s.fatal
  {
  }

  lemma WithinStream(s: State, p: PaneId, held: Held)
    requires Core(s, held) && p in s.panes
    ensures s.panes[p].offset <= |Stream(s, p)|
  {
    assert PaneOk(s, p, held);
  }

  /** `control_write_pending` finds too little data exactly if the bytes it is to write of a pane that is
    * not gone reach beyond the stream, unless the pane is too old. */
  lemma WritePendingFatal(s: State, p: PaneId, limit: nat, now: nat, gone: set<PaneId>)
    requires Inv(s) && p in s.panes && !s.fatal && limit > 0
    ensures var fatal := WritePending(s, p, limit, now, gone).fatal;
            var short := s.panes[p].offset + Least(limit, Queued(s.all, p)) > |Stream(s, p)|;
            && (fatal ==> p !in gone && short)
            && (p !in gone && Young(s.all, p, now, Age(s)) ==> (fatal <==> short))
  {
    hide Core, GuardOk, Young, FlushLines, DiscardPane, WriteChunks, Queued;
    if p in gone {
      DiscardShrinks(s, p);
      NotFatal(s, DiscardPane(s, p), p);
      FlushKeeps(DiscardPane(s, p), p, 0, 0);
    } else {
      ChunksFatal(s, p, now, limit, 0, Nothing);
    }
  }

  // ---- The loops over the panes ----

  lemma WritePendingPane(s: State, q: PaneId, limit: nat, now: nat, gone: set<PaneId>, p: PaneId)
    requires Inv(s) && q in s.panes && limit > 0
    ensures PaneStep(s, WritePending(s, q, limit, now, gone), p, gone)
  {
    hide Core, GuardOk, FlushLines, DiscardPane, WriteChunks, PaneStep;
    if q in gone {
      DiscardPaneStep(s, q, p, gone);
      FlushPane(DiscardPane(s, q), p, gone);
      PaneTrans(s, DiscardPane(s, q), FlushLines(DiscardPane(s, q)), p, gone);
    } else {
      ChunksPane(s, q, now, limit, 0, Nothing, p, gone);
    }
  }

  lemma VisitPane(s: State, q: PaneId, limit: nat, now: nat, gone: set<PaneId>, p: PaneId)
    requires Inv(s) && q in s.panes && limit > 0
    ensures PaneStep(s, Visit(s, q, limit, now, gone), p, gone)
  {
    hide Inv, WritePending, PaneStep, Ids, Unpend;
    WritePendingPane(s, q, limit, now, gone, p);
    var t := WritePending(s, q, limit, now, gone);
    if q in t.panes {
      UnpendPane(t, q, p, gone);
      PaneTrans(s, t, Unpend(t, q), p, gone);
    }
  }

  lemma UnpendPane(s: State, q: PaneId, p: PaneId, gone: set<PaneId>)
    requires q in s.panes
    ensures PaneStep(s, Unpend(s, q), p, gone) && Unpend(s, q).fatal == s.fatal
    ensures Unpend(s, q).all == s.all && Owed(Unpend(s, q), p) == Owed(s, p) && Age(Unpend(s, q)) == Age(s)
  {
    hide Queued, RemoveOne;
  }

  /** A pane that is short, and not gone. */
  ghost predicate SomeShort(s: State, gone: set<PaneId>) {
    exists p :: p !in gone && Short(s, p)
  }

  /** What is short after a step of the writer was short before it. */
  lemma ShortBefore(s: State, t: State, p: PaneId, gone: set<PaneId>)
    requires Inv(t) && PaneStep(s, t, p, gone) && Short(t, p)
    ensures Short(s, p)
  {
    hide Queued, Stream, QueueOk, PendingOk, GuardOk;
    if p in t.panes { WithinStream(t, p, Nothing); } else { NoneQueued(t, p); }
  }

  lemma NoneQueued(s: State, p: PaneId)
    requires Inv(s) && !(p in s.panes && Active(s.panes[p]))
    ensures Queued(s.all, p) == 0
  {
    NoBlocks(s, p);
    QueuedIsPart(s.all, p);
  }

  lemma VisitFatal(s: State, q: PaneId, limit: nat, now: nat, gone: set<PaneId>)
    requires Inv(s) && q in s.panes && limit > 0 && !s.fatal && Visit(s, q, limit, now, gone).fatal
    ensures SomeShort(s, gone)
  {
    hide Inv, WritePending, Ids, Unpend, Queued;
    WritePendingFatal(s, q, limit, now, gone);
    var t := WritePending(s, q, limit, now, gone);
    if q in t.panes { UnpendPane(t, q, q, gone); }
    assert Short(s, q);
  }

  /** A pass of the writer keeps every pane's account, and finds too little data only if a pane is short. */
  lemma {:induction false} PassPane(s: State, list: seq<PaneId>, limit: nat, now: nat, gone: set<PaneId>, p: PaneId)
    requires Inv(s) && limit > 0 && Distinct(list) && forall q :: q in list ==> q in s.pendingList
    ensures PaneStep(s, Pass(s, list, limit, now, gone), p, gone)
    ensures !s.fatal && Pass(s, list, limit, now, gone).fatal ==> SomeShort(s, gone)
    decreases |list|
  {
    hide Inv, PaneStep, Visit, Worked, Work, SomeShort;
    if list == [] || s.outLen >= CONTROL_BUFFER_HIGH || s.fatal || list[0] !in s.panes {
      PaneSelf(s, p, gone);
    } else {
      var q, t := list[0], Visit(s, list[0], limit, now, gone);
      VisitOk(s, q, limit, now, gone);
      VisitPane(s, q, limit, now, gone, p);
      forall r | r in list[1..] ensures r in t.pendingList {
        assert r in list && r != q;
      }
      PassPane(t, list[1..], limit, now, gone, p);
      PaneTrans(s, t, Pass(t, list[1..], limit, now, gone), p, gone);
      if t.fatal {
        VisitFatal(s, q, limit, now, gone);
      } else if Pass(t, list[1..], limit, now, gone).fatal {
        var r :| r !in gone && Short(t, r) by { ShortIn(t, gone); }
        VisitPane(s, q, limit, now, gone, r);
        ShortBefore(s, t, r, gone);
        ShortIs(s, r, gone);
      }
    }
  }

  lemma ShortIn(s: State, gone: set<PaneId>)
    requires SomeShort(s, gone)
    ensures exists p :: p !in gone && Short(s, p)
  {
  }

  lemma ShortIs(s: State, p: PaneId, gone: set<PaneId>)
    requires p !in gone && Short(s, p)
    ensures SomeShort(s, gone)
  {
  }

  lemma {:induction false} LoopPane(s: State, now: nat, gone: set<PaneId>, p: PaneId)
    requires Inv(s)
    ensures PaneStep(s, WriteLoop(s, now, gone), p, gone)
    ensures !s.fatal && WriteLoop(s, now, gone).fatal ==> SomeShort(s, gone)
    decreases Work(s)
  {
    hide PaneStep, Pass, SomeShort, QueueOk, PanesOk, GuardOk, OutputBytes, Ids;
    if s.fatal || s.outLen >= CONTROL_BUFFER_HIGH || s.pendingCount == 0 {
      PaneSelf(s, p, gone);
    } else {
      var t := Pass(s, s.pendingList, Limit(s), now, gone);
      PassOk(s, s.pendingList, Limit(s), now, gone);
      PassPane(s, s.pendingList, Limit(s), now, gone, p);
      if !t.fatal {
        LoopPane(t, now, gone, p);
        PaneTrans(s, t, WriteLoop(t, now, gone), p, gone);
        if WriteLoop(t, now, gone).fatal {
          var r :| r !in gone && Short(t, r) by { ShortIn(t, gone); }
          PassPane(s, s.pendingList, Limit(s), now, gone, r);
          ShortBefore(s, t, r, gone);
          ShortIs(s, r, gone);
        }
      }
    }
  }

  lemma CallbackPane(s: State, now: nat, gone: set<PaneId>, p: PaneId)
    requires Inv(s)
    ensures PaneStep(s, Callback(s, now, gone), p, gone)
    ensures !s.fatal && Callback(s, now, gone).fatal ==> SomeShort(s, gone)
  {
    hide Inv, PaneStep, SomeShort, FlushLines, WriteLoop;
    var t := FlushLines(s);
    FlushOk(s);
    FlushPane(s, p, gone);
    LoopPane(t, now, gone, p);
    PaneTrans(s, t, WriteLoop(t, now, gone), p, gone);
    if !s.fatal && Callback(s, now, gone).fatal {
      var r :| r !in gone && Short(t, r) by { ShortIn(t, gone); }
      FlushPane(s, r, gone);
      ShortBefore(s, t, r, gone);
      ShortIs(s, r, gone);
    }
  }

  // ---- When no block is too old, the writer drops nothing of a pane that is not gone ----

  ghost predicate AllYoung(s: State, now: nat) {
    forall p :: Young(s.all, p, now, Age(s))
  }

  /** The pane is still owed the same, and all blocks are young. */
  ghost predicate Keeps(s: State, t: State, p: PaneId, now: nat) {
    AllYoung(t, now) && Stream(t, p) == Stream(s, p) && Owed(t, p) == Owed(s, p) && (p in t.panes <==> p in s.panes)
  }

  lemma KeepsTrans(r: State, s: State, t: State, p: PaneId, now: nat)
    requires Keeps(r, s, p, now) && Keeps(s, t, p, now)
    ensures Keeps(r, t, p, now)
  {
    hide Stream, Owed, AllYoung;
  }

  lemma ChunkKeeps(s: State, q: PaneId, now: nat, size: nat, held: Held, p: PaneId)
    requires AllYoung(s, now) && q in s.panes && Ids(s.all, q) != [] && size <= First(s.all, q).size
    requires s.panes[q].offset + size <= |Stream(s, q)| && (held.Held? ==> held.message.Message?)
    ensures Keeps(s, Chunk(s, q, now, size, held).0, p, now)
  {
    hide Ids, First, Chunk, Young, Owed, Stream, Age;
    var t := Chunk(s, q, now, size, held).0;
    forall r ensures Young(t.all, r, now, Age(t)) {
      ChunkPane(s, q, now, size, held, r, {});
    }
    ChunkPane(s, q, now, size, held, p, {});
    SameStream(s, t, p);
  }

  lemma {:induction false} ChunksKeeps(s: State, q: PaneId, now: nat, limit: nat, used: nat, held: Held, p: PaneId)
    requires Core(s, held) && GuardOk(s) && q in s.panes && used <= limit && AllYoung(s, now)
    requires held.Held? ==> held.message.Message? && held.message.pane == q
    ensures Keeps(s, WriteChunks(s, q, now, limit, used, held), p, now)
    decreases limit - used, |s.all|
  {
    hide Core, GuardOk, Ids, First, Aged, TooOld, Chunk, Young, Keeps, Stream, WriteChunks;
    if used == limit || Ids(s.all, q) == [] {
      EndKeeps(s, q, now, limit, used, held, p);
    } else {
      ChunksTurn(s, q, now, limit, used, held);
      YoungFirst(s, q, now);
      var size := Least(First(s.all, q).size, limit - used);
      if s.panes[q].offset + size > |Stream(s, q)| {
        FatalKeeps(s, p, now);
      } else {
        SomeBytes(s, q, held);
        ChunkOk(s, q, now, size, held);
        ChunkKeeps(s, q, now, size, held, p);
        var n := Chunk(s, q, now, size, held);
        KeepsYoung(s, n.0, p, now);
        ChunksKeeps(n.0, q, now, limit, used + size, n.1, p);
        KeepsTrans(s, n.0, WriteChunks(n.0, q, now, limit, used + size, n.1), p, now);
      }
    }
  }

  lemma KeepsYoung(s: State, t: State, p: PaneId, now: nat)
    requires Keeps(s, t, p, now)
    ensures AllYoung(t, now) && (p in t.panes <==> p in s.panes)
  {
  }

  lemma EndKeeps(s: State, q: PaneId, now: nat, limit: nat, used: nat, held: Held, p: PaneId)
    requires q in s.panes && used <= limit && (held.Held? ==> held.message.Message?) && AllYoung(s, now)
    requires used == limit || Ids(s.all, q) == []
    ensures Keeps(s, WriteChunks(s, q, now, limit, used, held), p, now)
  {
    hide Ids;
    SameKeeps(s, WriteChunks(s, q, now, limit, used, held), p, now);
  }

  lemma SameKeeps(s: State, t: State, p: PaneId, now: nat)
    requires AllYoung(s, now) && t.all == s.all && t.panes == s.panes && t.streams == s.streams && Age(t) == Age(s)
    ensures Keeps(s, t, p, now)
  {
    hide Young, Queued;
    forall r ensures Young(t.all, r, now, Age(t)) {
      assert Young(s.all, r, now, Age(s));
    }
  }

  lemma FatalKeeps(s: State, p: PaneId, now: nat)
    requires AllYoung(s, now)
    ensures Keeps(s, s.(fatal := true), p, now)
  {
    SameKeeps(s, s.(fatal := true), p, now);
  }

  lemma VisitKeeps(s: State, q: PaneId, limit: nat, now: nat, gone: set<PaneId>, p: PaneId)
    requires Inv(s) && q in s.panes && limit > 0 && AllYoung(s, now) && p !in gone
    ensures Keeps(s, Visit(s, q, limit, now, gone), p, now)
  {
    hide Core, GuardOk, Ids, Unpend, Keeps, AllYoung, WriteChunks, FlushLines, DiscardPane;
    var t := WritePending(s, q, limit, now, gone);
    if q in gone { DropKeeps(s, q, p, now); } else { ChunksKeeps(s, q, now, limit, 0, Nothing, p); }
    if q in t.panes {
      UnpendKeeps(s, t, q, p, now);
    }
  }

  lemma DropKeeps(s: State, q: PaneId, p: PaneId, now: nat)
    requires q in s.panes && p != q && AllYoung(s, now)
    ensures Keeps(s, FlushLines(DiscardPane(s, q)), p, now)
  {
    hide Queued, Young, FlushLines, Without;
    var s1 := DiscardPane(s, q);
    var t := FlushLines(s1);
    WithoutFacts(s.all, q, p);
    FlushKeeps(s1, p, now, Age(s));
    forall r ensures Young(t.all, r, now, Age(t)) {
      WithoutYoung(s.all, q, r, now, Age(s));
      FlushKeeps(s1, r, now, Age(s));
    }
  }

  lemma UnpendKeeps(s: State, t: State, q: PaneId, p: PaneId, now: nat)
    requires q in t.panes && Keeps(s, t, p, now)
    ensures Keeps(s, Unpend(t, q), p, now)
  {
    hide Queued, Young, RemoveOne;
    UnpendPane(t, q, p, {});
  }

  lemma {:induction false} PassKeeps(s: State, list: seq<PaneId>, limit: nat, now: nat, gone: set<PaneId>, p: PaneId)
    requires Inv(s) && limit > 0 && Distinct(list) && (forall q :: q in list ==> q in s.pendingList)
    requires AllYoung(s, now) && p !in gone
    ensures Keeps(s, Pass(s, list, limit, now, gone), p, now)
    decreases |list|
  {
    hide Inv, Visit, Worked, Work, AllYoung, Keeps;
    if list == [] || s.outLen >= CONTROL_BUFFER_HIGH || s.fatal || list[0] !in s.panes {
      KeepsSelf(s, p, now);
    } else {
      var q, t := list[0], Visit(s, list[0], limit, now, gone);
      VisitOk(s, q, limit, now, gone);
      VisitKeeps(s, q, limit, now, gone, p);
      KeepsYoung(s, t, p, now);
      forall r | r in list[1..] ensures r in t.pendingList {
        assert r in list && r != q;
      }
      PassKeeps(t, list[1..], limit, now, gone, p);
      KeepsTrans(s, t, Pass(t, list[1..], limit, now, gone), p, now);
    }
  }

  lemma KeepsSelf(s: State, p: PaneId, now: nat)
    requires AllYoung(s, now)
    ensures Keeps(s, s, p, now)
  {
  }

  lemma {:induction false} LoopKeeps(s: State, now: nat, gone: set<PaneId>, p: PaneId)
    requires Inv(s) && AllYoung(s, now) && p !in gone
    ensures Keeps(s, WriteLoop(s, now, gone), p, now)
    decreases Work(s)
  {
    hide Keeps, AllYoung, Pass, QueueOk, PanesOk, GuardOk, OutputBytes, Ids;
    if s.fatal || s.outLen >= CONTROL_BUFFER_HIGH || s.pendingCount == 0 {
      KeepsSelf(s, p, now);
    } else {
      var t := Pass(s, s.pendingList, Limit(s), now, gone);
      PassOk(s, s.pendingList, Limit(s), now, gone);
      PassKeeps(s, s.pendingList, Limit(s), now, gone, p);
      if !t.fatal {
        KeepsYoung(s, t, p, now);
        LoopKeeps(t, now, gone, p);
        KeepsTrans(s, t, WriteLoop(t, now, gone), p, now);
      }
    }
  }

  /** The writer runs out of data only if a pane that is not gone is short; and if one is, and no block is too
    * old, it does so before it stops for any other reason than a full buffer. */
  lemma CallbackFatal(s: State, now: nat, gone: set<PaneId>)
    requires Inv(s) && !s.fatal
    ensures var t := Callback(s, now, gone);
            && (t.fatal ==> SomeShort(s, gone))
            && (SomeShort(s, gone) && AllYoung(s, now) ==> t.fatal || t.outLen >= CONTROL_BUFFER_HIGH)
  {
    hide Inv, SomeShort, WriteLoop, FlushLines, AllYoung, PaneStep;
    CallbackPane(s, now, gone, 0);
    if SomeShort(s, gone) && AllYoung(s, now) {
      var p :| p !in gone && Short(s, p) by { ShortIn(s, gone); }
      ShortIsWritten(s, now, gone, p);
    }
  }

  lemma ShortIsWritten(s: State, now: nat, gone: set<PaneId>, p: PaneId)
    requires Inv(s) && !s.fatal && p !in gone && Short(s, p) && AllYoung(s, now)
    ensures var t := Callback(s, now, gone); t.fatal || t.outLen >= CONTROL_BUFFER_HIGH
  {
    hide Inv, WriteLoop, FlushLines, Owed, Stream;
    FlushOk(s);
    FlushedKeeps(s, p, now);
    LoopKeeps(FlushLines(s), now, gone, p);
    var t := WriteLoop(FlushLines(s), now, gone);
    if t.pendingList == [] { NothingOwed(t, p); }
  }

  lemma FlushedKeeps(s: State, p: PaneId, now: nat)
    requires AllYoung(s, now)
    ensures Keeps(s, FlushLines(s), p, now)
  {
    hide Queued, Young, FlushLines;
    FlushKeeps(s, p, now, Age(s));
    forall r ensures Young(FlushLines(s).all, r, now, Age(s)) { FlushKeeps(s, r, now, Age(s)); }
  }

  lemma NothingOwed(s: State, p: PaneId)
    requires Inv(s) && s.pendingList == []
    ensures Owed(s, p) <= |Stream(s, p)|
  {
    hide QueueOk, PanesOk, GuardOk, Ids;
    assert Ids(s.all, p) == [];
    QueuedIsPart(s.all, p);
    if p in s.panes { WithinStream(s, p, Nothing); }
  }
}
