/** The writer keeps the invariant and makes progress, so its loop ends. */
module ControlWriter {
  import opened Bytes
  import opened ControlOutput
  import opened ControlModel
  import opened ControlQueue
  import opened ControlInvariant
  import opened ControlSteps

  /** The message under construction is sent. */
  lemma SendMessageOk(s: State, held: Held)
    requires Core(s, held) && held.Held?
    ensures var t := Send(s, held.message);
            Core(t, Nothing) && SameGuards(s, t) && t.panes == s.panes && t.all == s.all && t.exit == s.exit
  {
    hide Live, Sorted, OutOrder, LastLine, LinesIn, Ids, Queued, Seen, ReplyBytes, OutputBytes, LinesOut;
    var t := Send(s, held.message);
    OutMore(s.out, held.message);
    LinesOutMore(s.out, held.message);
    assert LinesOut(s.out) + [] == LinesOut(s.out);
    SameActive(s, t);
    assert PendingOk(t) by { hide QueueOk, PanesOk; }
    assert PanesOk(t, Nothing) by {
      hide QueueOk, PendingOk;
      forall q | q in s.panes && s.panes[q].startOut <= |s.out| ensures SameAccount(s, held, t, Nothing, q) {
        SeenMore(s.out, s.panes[q].startOut, held.message, q);
      }
      SamePanes(s, held, t, Nothing);
    }
  }

  /** A pane's first block is within the stream, so the data it stands for is there. */
  lemma EnoughData(s: State, p: PaneId, held: Held)
    requires Core(s, held) && !s.exit && Ids(s.all, p) != []
    ensures p in s.panes && Active(s.panes[p]) && s.panes[p].offset + First(s.all, p).size <= |Stream(s, p)|
  {
    hide QueueOk, PendingOk, Live, Queued;
    QueueLive(s, p);
    TakeFacts(s.all, p, First(s.all, p).size, p);
    assert PaneOk(s, p, held);
  }

  lemma QueueLive(s: State, p: PaneId)
    requires QueueOk(s) && Ids(s.all, p) != []
    ensures p in s.panes && Active(s.panes[p]) && First(s.all, p).size > 0
    ensures LastLine(s.out) < First(s.all, p).id < s.nextId
  {
    TakeOk(s.all, p, First(s.all, p).size, LastLine(s.out), s.nextId, ActivePanes(s));
  }

  lemma ExtendOk(s: State, p: PaneId, held: Held, now: nat, data: seq<Byte>)
    requires QueueOk(s) && Ids(s.all, p) != [] && HeldOk(held, s.out) && (held.Held? ==> held.message.pane == p)
    ensures var m := Extend(s, held, First(s.all, p), now, data);
            HeldOk(Held(m), s.out) && m.pane == p && Unescape(m.payload) == Raw(held, p) + data
  {
    hide QueueOk, Escape, Unescape, LastLine;
    QueueLive(s, p);
    var raw := Raw(held, p);
    var m := Extend(s, held, First(s.all, p), now, data);
    EmptyEscape();
    EscapeConcat(raw, data);
    UnescapeEscape(raw + data, []);
    assert Escape(raw + data) + [] == Escape(raw + data) && raw + data + [] == raw + data;
  }

  lemma EmptyEscape()
    ensures Escape([]) == [] && Unescape([]) == []
  {
  }

  /** Bytes move from the pane's first block to the message. */
  lemma TakenOk(s: State, p: PaneId, held: Held, now: nat, size: nat)
    requires Core(s, held) && Ids(s.all, p) != [] && size <= First(s.all, p).size && p in s.panes
    requires s.panes[p].offset + size <= |Stream(s, p)| && (held.Held? ==> held.message.pane == p)
    ensures var offset := s.panes[p].offset;
            var m := Extend(s, held, First(s.all, p), now, Stream(s, p)[offset..offset + size]);
            Core(Taken(s, p, size), Held(m)) && SameGuards(s, Taken(s, p, size)) && m.pane == p
  {
    hide QueueOk, PendingOk, PanesOk, Extend, Ids, Unescape, LastLine, Escape;
    var offset := s.panes[p].offset;
    ExtendOk(s, p, held, now, Stream(s, p)[offset..offset + size]);
    TakenQueueOk(s, p, size);
    TakenPendingOk(s, p, size);
    TakenPanesOk(s, p, held, size, Extend(s, held, First(s.all, p), now, Stream(s, p)[offset..offset + size]));
  }

  lemma TakenQueueOk(s: State, p: PaneId, size: nat)
    requires QueueOk(s) && Ids(s.all, p) != [] && size <= First(s.all, p).size && p in s.panes
    ensures QueueOk(Taken(s, p, size)) && OutputBytes(Taken(s, p, size).all) == OutputBytes(s.all) - size
  {
    hide Ids, Live, Sorted, LinesIn, LinesOut, OutOrder, LastLine, ReplyBytes, OutputBytes, First, TakeFrom;
    var t := Taken(s, p, size);
    TakeFacts(s.all, p, size, p);
    TakeOk(s.all, p, size, LastLine(s.out), s.nextId, ActivePanes(s));
    assert ActivePanes(t) == ActivePanes(s);
  }

  lemma TakenPendingOk(s: State, p: PaneId, size: nat)
    requires PendingOk(s) && Ids(s.all, p) != [] && size <= First(s.all, p).size && p in s.panes
    ensures PendingOk(Taken(s, p, size))
  {
    hide Ids, First, TakeFrom;
    var t := Taken(s, p, size);
    forall q ensures Ids(t.all, q) != [] ==> Ids(s.all, q) != [] { TakeFacts(s.all, p, size, q); }
  }

  lemma TakenPanesOk(s: State, p: PaneId, held: Held, size: nat, m: Item)
    requires PanesOk(s, held) && Ids(s.all, p) != [] && size <= First(s.all, p).size && p in s.panes
    requires s.panes[p].offset + size <= |Stream(s, p)| && (held.Held? ==> held.message.Message? && held.message.pane == p)
    requires m.Message? && m.pane == p
    requires Unescape(m.payload) == Raw(held, p) + Stream(s, p)[s.panes[p].offset..s.panes[p].offset + size]
    ensures PanesOk(Taken(s, p, size), Held(m))
  {
    hide Ids, First, TakeFrom, PaneOk;
    var t := Taken(s, p, size);
    forall q | q in t.panes ensures PaneOk(t, q, Held(m)) {
      TakeFacts(s.all, p, size, q);
      if q == p { TakenHere(s, p, held, size, m); } else { TakenElsewhere(s, p, held, size, m, q); }
    }
    forall q ensures Own(t, q) <= |Stream(t, q)| { assert Own(s, q) <= |Stream(s, q)|; }
  }

  lemma TakenHere(s: State, p: PaneId, held: Held, size: nat, m: Item)
    requires p in s.panes && PaneOk(s, p, held) && Ids(s.all, p) != [] && size <= First(s.all, p).size
    requires s.panes[p].offset + size <= |Stream(s, p)| && m.Message? && m.pane == p
    requires Unescape(m.payload) == Raw(held, p) + Stream(s, p)[s.panes[p].offset..s.panes[p].offset + size]
    requires Queued(Taken(s, p, size).all, p) == Queued(s.all, p) - size
    ensures PaneOk(Taken(s, p, size), p, Held(m))
  {
    hide Ids, First, TakeFrom, Seen, Queued, Unescape;
    var pane := s.panes[p];
    if Active(pane) && !s.exit {
      MoreSeen(Seen(s.out[pane.startOut..], p), Raw(held, p), Raw(Held(m), p), Stream(s, p), pane.start, pane.offset,
               pane.offset + size);
    }
  }

  /** The message grows by the bytes that follow what was seen and what it had. */
  lemma MoreSeen(seen: seq<Byte>, raw: seq<Byte>, more: seq<Byte>, stream: seq<Byte>, i: nat, j: nat, k: nat)
    requires i <= j <= k <= |stream| && seen + raw == stream[i..j] && more == raw + stream[j..k]
    ensures seen + more == stream[i..k]
  {
    assert seen + (raw + stream[j..k]) == (seen + raw) + stream[j..k];
    assert stream[i..j] + stream[j..k] == stream[i..k];
  }

  lemma TakenElsewhere(s: State, p: PaneId, held: Held, size: nat, m: Item, q: PaneId)
    requires p in s.panes && q in s.panes && q != p && PaneOk(s, q, held)
    requires Ids(s.all, p) != [] && size <= First(s.all, p).size
    requires m.Message? && m.pane == p && (held.Held? ==> held.message.Message? && held.message.pane == p)
    requires Queued(Taken(s, p, size).all, q) == Queued(s.all, q)
    ensures PaneOk(Taken(s, p, size), q, Held(m))
  {
    hide Ids, First, TakeFrom, Seen, Queued, Unescape;
  }

  /** The writer never adds output, and leaves less of it, or nothing of the pane, if `moved`.  It
    * runs out of data only if the client was exiting with output still queued. */
  ghost predicate Visited(s: State, t: State, p: PaneId, moved: bool) {
    && OutputBytes(t.all) <= OutputBytes(s.all) && t.pendingList == s.pendingList && t.streams == s.streams
    && p in t.panes && (t.exit && !s.exit ==> OutputBytes(t.all) == 0) && (s.exit ==> t.exit)
    && (t.fatal && !s.fatal ==> s.exit && OutputBytes(s.all) > 0)
    && (moved ==> Ids(t.all, p) == [] || t.fatal || OutputBytes(t.all) < OutputBytes(s.all))
  }

  lemma FlushedOk(s: State, p: PaneId, held: Held, moved: bool)
    requires Core(s, held) && GuardOk(s) && p in s.panes && (moved ==> Ids(s.all, p) == [])
    ensures Inv(Flushed(s, held)) && Visited(s, Flushed(s, held), p, moved)
  {
    hide Core, GuardOk, Ids, OutputBytes;
    if held.Held? {
      SendMessageOk(s, held);
      SameGuardsOk(s, Flushed(s, held));
      SendFields(s, held.message);
    }
  }

  lemma SendFields(s: State, item: Item)
    ensures LineStep(s, Send(s, item)) && Send(s, item).all == s.all
  {
  }

  lemma FatalOk(s: State, p: PaneId, held: Held)
    requires Core(s, held) && GuardOk(s) && p in s.panes && s.exit && Ids(s.all, p) != []
    ensures Inv(s.(fatal := true)) && Visited(s, s.(fatal := true), p, true)
  {
    hide Live, Sorted, OutOrder, LastLine, LinesIn, Queued, Seen, ReplyBytes, LinesOut, Guarded, Depth, Notifications;
    var t := s.(fatal := true);
    SameActive(s, t);
    SamePanes(s, held, t, Nothing);
    QueueLive(s, p);
    BytesIn(s.all, p);
  }

  lemma {:induction false} BytesIn(all: seq<Block>, p: PaneId)
    requires Ids(all, p) != []
    ensures First(all, p).size <= OutputBytes(all)
  {
    if !OfPane(all[0], p) {
      assert [] + Ids(all[1..], p) == Ids(all[1..], p);
      BytesIn(all[1..], p);
    }
  }

  lemma TakenVisited(s: State, p: PaneId, size: nat)
    requires Ids(s.all, p) != [] && size <= First(s.all, p).size && p in s.panes && size > 0
    ensures Visited(s, Taken(s, p, size), p, true) && OutputBytes(Taken(s, p, size).all) < OutputBytes(s.all)
    ensures Taken(s, p, size).fatal == s.fatal
  {
    hide Ids, First, TakeFrom;
    TakeFacts(s.all, p, size, p);
  }

  lemma VisitedTrans(r: State, s: State, t: State, p: PaneId, moved: bool)
    requires Visited(r, s, p, false) && s.fatal == r.fatal && Visited(s, t, p, moved)
    ensures Visited(r, t, p, moved || OutputBytes(s.all) < OutputBytes(r.all))
  {
  }

  lemma StepVisited(s: State, t: State, p: PaneId)
    requires LineStep(s, t) && p in s.panes
    ensures Visited(s, t, p, false) && t.fatal == s.fatal
  {
  }

  lemma DroppedVisited(s: State, t: State, p: PaneId)
    requires Dropped(s, t, p)
    ensures Visited(s, t, p, true)
  {
  }

  /** A turn of the loop. */
  lemma ChunkOk(s: State, p: PaneId, now: nat, size: nat, held: Held)
    requires Core(s, held) && GuardOk(s) && p in s.panes && Ids(s.all, p) != [] && 0 < size <= First(s.all, p).size
    requires s.panes[p].offset + size <= |Stream(s, p)|
    requires held.Held? ==> held.message.Message? && held.message.pane == p
    ensures var n := Chunk(s, p, now, size, held);
            && Core(n.0, n.1) && GuardOk(n.0) && Visited(s, n.0, p, true) && n.0.fatal == s.fatal
            && OutputBytes(n.0.all) < OutputBytes(s.all)
            && (n.1.Held? ==> n.1.message.Message? && n.1.message.pane == p)
  {
    hide Core, GuardOk, Visited, LineStep, Ids, First, Taken, Extend, FlushLines, Send, OutputBytes;
    var b, offset := First(s.all, p), s.panes[p].offset;
    var m := Extend(s, held, b, now, Stream(s, p)[offset..offset + size]);
    var taken := Taken(s, p, size);
    TakenOk(s, p, held, now, size);
    TakenVisited(s, p, size);
    WeakVisited(s, taken, p);
    SameGuardsOk(s, taken);
    if size == b.size && taken.all != [] && taken.all[0].LineBlock? {
      var sent := Send(taken, m);
      SendMessageOk(taken, Held(m));
      SendFields(taken, m);
      SameGuardsOk(taken, sent);
      FlushLinesOk(sent);
      SameGuardsOk(sent, FlushLines(sent));
      StepTrans(taken, sent, FlushLines(sent));
      StepVisited(taken, FlushLines(sent), p);
      VisitedTrans(s, taken, FlushLines(sent), p, false);
      Shrunk(taken, FlushLines(sent));
    }
  }

  lemma {:induction false} WriteChunksOk(s: State, p: PaneId, now: nat, limit: nat, used: nat, held: Held)
    requires Core(s, held) && GuardOk(s) && p in s.panes && used <= limit
    requires held.Held? ==> held.message.Message? && held.message.pane == p
    ensures var t := WriteChunks(s, p, now, limit, used, held); Inv(t) && Visited(s, t, p, used < limit)
    decreases limit - used, |s.all|
  {
    hide Core, GuardOk, Visited, Dropped, Ids, First, Aged, TooOld, Chunk, Flushed, OutputBytes;
    if used == limit || Ids(s.all, p) == [] {
      FlushedOk(s, p, held, used < limit);
    } else if TooOld(s, p, now) {
      AgedOk(s, p, held);
      DroppedVisited(s, Aged(s, p), p);
    } else {
      var size := Least(First(s.all, p).size, limit - used);
      if s.panes[p].offset + size > |Stream(s, p)| {
        if !s.exit { EnoughData(s, p, held); }
        FatalOk(s, p, held);
      } else {
        SomeBytes(s, p, held);
        ChunkOk(s, p, now, size, held);
        var n := Chunk(s, p, now, size, held);
        WeakVisited(s, n.0, p);
        WriteChunksOk(n.0, p, now, limit, used + size, n.1);
        VisitedTrans(s, n.0, WriteChunks(n.0, p, now, limit, used + size, n.1), p, used + size < limit);
      }
    }
  }

  lemma Shrunk(s: State, t: State)
    requires LineStep(s, t)
    ensures OutputBytes(t.all) <= OutputBytes(s.all)
  {
  }

  lemma WeakVisited(s: State, t: State, p: PaneId)
    requires Visited(s, t, p, true)
    ensures Visited(s, t, p, false)
  {
  }

  lemma SomeBytes(s: State, p: PaneId, held: Held)
    requires Core(s, held) && Ids(s.all, p) != []
    ensures First(s.all, p).size > 0
  {
    QueueLive(s, p);
  }

  lemma WritePendingOk(s: State, p: PaneId, limit: nat, now: nat, gone: set<PaneId>)
    requires Inv(s) && p in s.panes && limit > 0
    ensures var t := WritePending(s, p, limit, now, gone); Inv(t) && Visited(s, t, p, true)
  {
    hide Core, GuardOk, Visited, LineStep, Dropped, Ids, FlushLines, DiscardPane, WriteChunks;
    if p in gone {
      var s1 := DiscardPane(s, p);
      DiscardOk(s, p, Nothing);
      DiscardShrinks(s, p);
      DroppedVisited(s, s1, p);
      SameGuardsOk(s, s1);
      FlushLinesOk(s1);
      SameGuardsOk(s1, FlushLines(s1));
      StillDropped(s, s1, FlushLines(s1), p);
      DroppedVisited(s, FlushLines(s1), p);
    } else {
      WriteChunksOk(s, p, now, limit, 0, Nothing);
    }
  }

  lemma StillDropped(r: State, s: State, t: State, p: PaneId)
    requires Dropped(r, s, p) && LineStep(s, t)
    ensures Dropped(r, t, p)
  {
  }

  // ---- The writer's loop ----

  lemma {:induction false} RemoveOneFacts(list: seq<PaneId>, p: PaneId)
    requires Distinct(list) && p in list
    ensures var r := RemoveOne(list, p);
            && |r| == |list| - 1 && Distinct(r) && (forall q :: q in r <==> q in list && q != p)
  {
    if list[0] == p {
      forall q ensures q in list[1..] <==> q in list && q != p {
        if q in list && q != p { assert exists i :: 0 < i < |list| && list[i] == q; }
      }
    } else {
      RemoveOneFacts(list[1..], p);
      var r := RemoveOne(list[1..], p);
      assert list[0] !in list[1..];
      assert list == [list[0]] + list[1..];
      forall q ensures q in [list[0]] + r <==> q in list && q != p {}
    }
  }

  lemma UnpendOk(s: State, p: PaneId)
    requires Inv(s) && p in s.pendingList && p in s.panes && Ids(s.all, p) == []
    ensures Inv(Unpend(s, p)) && OutputBytes(Unpend(s, p).all) == OutputBytes(s.all)
    ensures |Unpend(s, p).pendingList| == |s.pendingList| - 1
    ensures forall q :: q in s.pendingList && q != p ==> q in Unpend(s, p).pendingList
  {
    hide QueueOk, PendingOk, PanesOk, GuardOk, OutputBytes, Ids, RemoveOne;
    DistinctPending(s);
    RemoveOneFacts(s.pendingList, p);
    UnpendQueue(s, p);
    UnpendPending(s, p);
    UnpendPanes(s, p);
    SameGuardsOk(s, Unpend(s, p));
  }

  lemma DistinctPending(s: State)
    requires PendingOk(s)
    ensures Distinct(s.pendingList)
  {
  }

  lemma UnpendQueue(s: State, p: PaneId)
    requires QueueOk(s) && p in s.panes
    ensures QueueOk(Unpend(s, p))
  {
    hide LinesOut, OutOrder, LastLine, Live, Sorted, LinesIn, ReplyBytes, OutputBytes, RemoveOne;
    assert ActivePanes(Unpend(s, p)) == ActivePanes(s);
  }

  lemma UnpendPanes(s: State, p: PaneId)
    requires PanesOk(s, Nothing) && p in s.panes
    ensures PanesOk(Unpend(s, p), Nothing)
  {
    hide Queued, Seen, RemoveOne;
    var t := Unpend(s, p);
    forall q | q in t.panes ensures PaneOk(t, q, Nothing) { assert PaneOk(s, q, Nothing); }
    forall q ensures Own(t, q) <= |Stream(t, q)| { assert Own(s, q) <= |Stream(s, q)|; }
  }

  lemma UnpendPending(s: State, p: PaneId)
    requires PendingOk(s) && p in s.pendingList && p in s.panes && Ids(s.all, p) == []
    ensures PendingOk(Unpend(s, p))
  {
    hide Ids, RemoveOne;
    var t := Unpend(s, p);
    RemoveOneFacts(s.pendingList, p);
    forall q ensures q in t.pendingList <==> q in t.panes && t.panes[q].pending {}
    forall q ensures Ids(t.all, q) != [] ==> q in t.pendingList {}
  }

  /** What is left for the writer to do. */
  function Work(s: State): nat {
    OutputBytes(s.all) + |s.pendingList|
  }

  /** The writer works the queue off, and runs out of data only if the client was exiting with output
    * still queued. */
  predicate Worked(s: State, t: State) {
    && Work(t) <= Work(s) && OutputBytes(t.all) <= OutputBytes(s.all) && t.streams == s.streams
    && (t.exit && !s.exit ==> OutputBytes(t.all) == 0) && (s.exit ==> t.exit)
    && (t.fatal && !s.fatal ==> s.exit && OutputBytes(s.all) > 0)
  }

  lemma WorkedTrans(r: State, s: State, t: State)
    requires Worked(r, s) && Worked(s, t) && s.fatal == r.fatal
    ensures Worked(r, t)
  {
  }

  lemma PendingPane(s: State, p: PaneId)
    requires Inv(s) && p in s.pendingList
    ensures p in s.panes
  {
  }

  lemma VisitOk(s: State, p: PaneId, limit: nat, now: nat, gone: set<PaneId>)
    requires Inv(s) && !s.fatal && p in s.pendingList && p in s.panes && limit > 0
    ensures var t := Visit(s, p, limit, now, gone);
            && Inv(t) && Worked(s, t) && (t.fatal || Work(t) < Work(s))
            && forall q :: q in s.pendingList && q != p ==> q in t.pendingList
  {
    hide Inv, Ids, OutputBytes, Unpend, WritePending;
    var t := WritePending(s, p, limit, now, gone);
    WritePendingOk(s, p, limit, now, gone);
    if !(t.fatal || Ids(t.all, p) != [] || p !in t.panes) {
      UnpendOk(t, p);
      UnpendFields(t, p);
    }
  }

  lemma UnpendFields(s: State, p: PaneId)
    requires p in s.panes
    ensures Unpend(s, p).exit == s.exit && Unpend(s, p).fatal == s.fatal && Unpend(s, p).streams == s.streams
  {
  }

  lemma {:induction false} PassOk(s: State, list: seq<PaneId>, limit: nat, now: nat, gone: set<PaneId>)
    requires Inv(s) && limit > 0 && Distinct(list) && forall p :: p in list ==> p in s.pendingList
    ensures var t := Pass(s, list, limit, now, gone);
            && Inv(t) && Worked(s, t)
            && (list != [] && s.outLen < CONTROL_BUFFER_HIGH && !s.fatal ==> t.fatal || Work(t) < Work(s))
    decreases |list|
  {
    hide Inv, Worked, Work, Visit;
    if list == [] || s.outLen >= CONTROL_BUFFER_HIGH || s.fatal || list[0] !in s.panes {
      if list != [] { PendingPane(s, list[0]); }
      WorkedSelf(s);
    } else {
      var p, t := list[0], Visit(s, list[0], limit, now, gone);
      VisitOk(s, p, limit, now, gone);
      forall q | q in list[1..] ensures q in t.pendingList {
        assert q in list && q != p;
      }
      PassOk(t, list[1..], limit, now, gone);
      PassFatal(s, t, Pass(t, list[1..], limit, now, gone), list[1..], limit, now, gone);
    }
  }

  lemma WorkedSelf(s: State)
    ensures Worked(s, s)
  {
  }

  /** After running out of data nothing more happens. */
  lemma PassFatal(r: State, s: State, t: State, list: seq<PaneId>, limit: nat, now: nat, gone: set<PaneId>)
    requires Worked(r, s) && Worked(s, t) && !r.fatal && t == Pass(s, list, limit, now, gone)
    ensures Worked(r, t) && (s.fatal ==> t.fatal) && Work(t) <= Work(s)
  {
    if s.fatal { assert t == s; }
  }

  /** The loop of `control_write_callback`: it ends, because every pass leaves less work. */
  ghost function WriteLoop(s: State, now: nat, gone: set<PaneId>): (t: State)
    requires Inv(s)
    ensures Inv(t) && Worked(s, t)
    ensures t.fatal || t.outLen >= CONTROL_BUFFER_HIGH || t.pendingList == []
    decreases Work(s)
  {
    if s.fatal || s.outLen >= CONTROL_BUFFER_HIGH || s.pendingCount == 0 then LoopEnd(s); s
    else
      PassOk(s, s.pendingList, Limit(s), now, gone);
      var t := Pass(s, s.pendingList, Limit(s), now, gone);
      if t.fatal then t
      else
        WorkedTrans(s, t, t);
        WriteLoop(t, now, gone)
  }

  lemma LoopEnd(s: State)
    requires Inv(s)
    ensures Worked(s, s) && (s.pendingCount == 0 ==> s.pendingList == [])
  {
  }

  /** `control_write_callback`. */
  ghost function Callback(s: State, now: nat, gone: set<PaneId>): (t: State)
    requires Inv(s)
    ensures Inv(t) && Worked(s, t)
  {
    FlushOk(s);
    WriteLoop(FlushLines(s), now, gone)
  }

  lemma FlushOk(s: State)
    requires Inv(s)
    ensures Inv(FlushLines(s)) && Worked(s, FlushLines(s)) && FlushLines(s).fatal == s.fatal
    ensures forall t :: Worked(FlushLines(s), t) ==> Worked(s, t)
  {
    hide Core, GuardOk, FlushLines, OutputBytes;
    FlushLinesOk(s);
    SameGuardsOk(s, FlushLines(s));
  }
}
