/** Panes that fall behind: which are paused, which clients are told to exit, and what the client is told. */
module ControlAge {
  import opened Bytes
  import opened ControlOutput
  import opened ControlModel
  import opened ControlQueue
  import opened ControlInvariant
  import opened ControlSteps
  import opened ControlWriter
  import opened ControlShortage

  // ---- Blocks that are too old ----

  /** A block of the pane that begins within its next `room` bytes is too old. */
  predicate Late(all: seq<Block>, p: PaneId, now: nat, age: nat, room: nat) {
    exists i: nat :: i < |all| && LateAt(all, p, now, age, room, i)
  }

  predicate LateAt(all: seq<Block>, p: PaneId, now: nat, age: nat, room: nat, i: nat)
    requires i < |all|
  {
    OfPane(all[i], p) && Old(all[i], now, age) && Queued(all[..i], p) < room
  }

  lemma QueuedPrefix(all: seq<Block>, p: PaneId, i: nat)
    requires 0 < i <= |all|
    ensures Queued(all[..i], p) == (if OfPane(all[0], p) then all[0].size else 0) + Queued(all[1..][..i - 1], p)
  {
    assert all[..i][1..] == all[1..][..i - 1];
  }

  /** Block by block. */
  lemma LateSplit(all: seq<Block>, p: PaneId, now: nat, age: nat, room: nat)
    requires all != []
    ensures !OfPane(all[0], p) ==> (Late(all, p, now, age, room) <==> Late(all[1..], p, now, age, room))
    ensures OfPane(all[0], p) && room > 0 ==>
              (Late(all, p, now, age, room) <==>
                 Old(all[0], now, age) || (all[0].size < room && Late(all[1..], p, now, age, room - all[0].size)))
    ensures room == 0 ==> !Late(all, p, now, age, room)
  {
    hide Queued, Old;
    var size := if OfPane(all[0], p) then all[0].size else 0;
    if i: nat :| i < |all| && LateAt(all, p, now, age, room, i) {
      if i > 0 {
        QueuedPrefix(all, p, i);
        assert LateAt(all[1..], p, now, age, room - size, i - 1);
      }
    }
    if size < room && Late(all[1..], p, now, age, room - size) {
      var i: nat :| i < |all[1..]| && LateAt(all[1..], p, now, age, room - size, i);
      QueuedPrefix(all, p, i + 1);
      assert LateAt(all, p, now, age, room, i + 1);
    }
    NoneBefore(all, p);
    if OfPane(all[0], p) && Old(all[0], now, age) && room > 0 { assert LateAt(all, p, now, age, room, 0); }
    if size == 0 && room > 0 && Late(all[1..], p, now, age, room) {
      var i: nat :| i < |all[1..]| && LateAt(all[1..], p, now, age, room, i);
    }
  }

  lemma NoneBefore(all: seq<Block>, p: PaneId)
    ensures Queued(all[..0], p) == 0
  {
  }

  /** The first block alone. */
  lemma {:induction false} LateFirst(s: State, p: PaneId, now: nat)
    requires Ids(s.all, p) != [] && First(s.all, p).size > 0
    ensures TooOld(s, p, now) <==> Late(s.all, p, now, Age(s), 1)
    ensures TooOld(s, p, now) <==> Old(First(s.all, p), now, Age(s))
  {
    hide Late, Ids;
    var b := First(s.all, p);
    FirstLate(s.all, p, now, Age(s), 1);
    NoRoom(TakeFrom(s.all, p, Least(b.size, 1)), p, now, Age(s));
  }

  /** The first block is too old, or what is left when it is used up is late. */
  lemma {:induction false} FirstLate(all: seq<Block>, p: PaneId, now: nat, age: nat, room: nat)
    requires Ids(all, p) != [] && room > 0
    ensures var b := First(all, p);
            && (Old(b, now, age) ==> Late(all, p, now, age, room))
            && (!Old(b, now, age) && b.size > 0 ==>
                  (Late(all, p, now, age, room) <==>
                     Late(TakeFrom(all, p, Least(b.size, room)), p, now, age, room - Least(b.size, room))))
  {
    hide Late, Old;
    LateSplit(all, p, now, age, room);
    if !OfPane(all[0], p) {
      assert [] + Ids(all[1..], p) == Ids(all[1..], p);
      FirstLate(all[1..], p, now, age, room);
      var n := Least(First(all, p).size, room);
      var r := TakeFrom(all, p, n);
      assert r[1..] == TakeFrom(all[1..], p, n);
      LateSplit(r, p, now, age, room - n);
      if room == n { NoRoom(TakeFrom(all[1..], p, n), p, now, age); }
    } else if all[0].size >= room {
      var n := room;
      NoRoom(TakeFrom(all, p, n), p, now, age);
    }
  }

  lemma NoRoom(all: seq<Block>, p: PaneId, now: nat, age: nat)
    ensures !Late(all, p, now, age, 0)
  {
  }

  lemma {:induction false} NoBlocksNotLate(all: seq<Block>, p: PaneId, now: nat, age: nat, room: nat)
    requires Ids(all, p) == []
    ensures !Late(all, p, now, age, room)
  {
    hide Late, Old;
    if all == [] {
      EmptyNotLate(p, now, age, room);
    } else {
      LateSplit(all, p, now, age, room);
      assert [] + Ids(all[1..], p) == Ids(all[1..], p);
      NoBlocksNotLate(all[1..], p, now, age, room);
    }
  }

  lemma EmptyNotLate(p: PaneId, now: nat, age: nat, room: nat)
    ensures !Late([], p, now, age, room)
  {
  }

  lemma {:induction false} FlushLate(s: State, p: PaneId, now: nat, age: nat, room: nat)
    ensures Late(FlushLines(s).all, p, now, age, room) <==> Late(s.all, p, now, age, room)
    decreases |s.all|
  {
    hide Late, FlushOne, Old;
    if s.all != [] && s.all[0].LineBlock? {
      LateSplit(s.all, p, now, age, room);
      FlushOneFields(s);
      FlushLate(FlushOne(s), p, now, age, room);
    }
  }

  // ---- What a step tells the client ----

  datatype Mode = Mode(off: bool, paused: bool)

  /** The panes the client has, and which are off or paused. */
  function Modes(s: State): map<PaneId, Mode> {
    map p | p in s.panes :: Mode(s.panes[p].off, s.panes[p].paused)
  }

  /** No pane is switched, nothing is asked for, and the client is not told to exit. */
  ghost predicate Quiet(s: State, t: State) {
    && Modes(t) == Modes(s) && Age(t) == Age(s) && t.pauseAfter == s.pauseAfter
    && t.asked == s.asked && t.accepted == s.accepted && t.deferred == s.deferred && t.guardDepth == s.guardDepth
    && t.exit == s.exit && t.discard == s.discard && t.nextId == s.nextId
  }

  lemma QuietTrans(r: State, s: State, t: State)
    requires Quiet(r, s) && Quiet(s, t)
    ensures Quiet(r, t)
  {
    hide Modes, Age;
  }

  /** One notification was asked for.  It waits for the end of a guard block, or is the last line accepted,
    * or is refused; the client is told to exit only if it is refused. */
  predicate Told(s: State, t: State, text: seq<Byte>) {
    && t.asked == s.asked + [text] && t.guardDepth == s.guardDepth && (s.discard ==> t.discard)
    && (if s.guardDepth > 0 then
          t.deferred == s.deferred + [text] && t.accepted == s.accepted && t.exit == s.exit && t.discard == s.discard
        else
          && t.deferred == s.deferred
          && t.accepted == (if t.discard then s.accepted else s.accepted + [Line(s.nextId, Notify, text)])
          && t.exit == (s.exit || (t.discard && !s.discard)))
  }

  /** A pane that is too far behind: its client is told that it is paused. */
  ghost predicate PausedNow(s: State, t: State, p: PaneId) {
    && p in s.panes && Modes(t) == Modes(s)[p := Mode(s.panes[p].off, true)] && Ids(t.all, p) == []
    && Told(s, t, PAUSE + Decimal(p))
  }

  /** A client that is too far behind: it is told to exit, and no output is left for it. */
  ghost predicate EndedNow(s: State, t: State) {
    && t.exit && OutputBytes(t.all) == 0 && Modes(t) == Modes(s)
    && t.asked == s.asked && t.accepted == s.accepted && t.deferred == s.deferred && t.discard == s.discard
  }

  ghost predicate GaveUp(s: State, t: State, p: PaneId) {
    if s.pauseAfter then PausedNow(s, t, p) else EndedNow(s, t)
  }

  lemma QuietGaveUp(r: State, s: State, t: State, p: PaneId)
    requires Quiet(r, s) && GaveUp(s, t, p)
    ensures GaveUp(r, t, p)
  {
    hide Age, Ids, OutputBytes;
    if p in s.panes {
      assert p in Modes(s) && Modes(s)[p] == Mode(s.panes[p].off, s.panes[p].paused);
      assert p in Modes(r) && Modes(r)[p] == Mode(r.panes[p].off, r.panes[p].paused);
    }
  }

  /** A line is refused, which tells the client to exit, or accepted at the end. */
  lemma LineTold(s: State, kind: Kind, text: seq<Byte>)
    ensures var t := WriteLine(s, kind, text);
            && t.panes == s.panes && t.pauseAfter == s.pauseAfter && t.pauseAge == s.pauseAge
            && t.asked == s.asked && t.guardDepth == s.guardDepth && t.deferred == s.deferred && (s.discard ==> t.discard)
            && t.accepted == (if t.discard then s.accepted else s.accepted + [Line(s.nextId, kind, text)])
            && t.exit == (s.exit || (t.discard && !s.discard))
  {
    hide TooFarBehind, OnlyLines, SendLine, StoreLine, Refuse;
    RefuseTold(s);
    SendTold(s, Line(s.nextId, kind, text));
  }

  lemma RefuseTold(s: State)
    ensures var t := Refuse(s);
            && t.panes == s.panes && t.pauseAfter == s.pauseAfter && t.pauseAge == s.pauseAge
            && SameLines(s, t) && t.exit && t.discard
  {
    hide OnlyLines;
  }

  lemma SendTold(s: State, line: Line)
    ensures forall t :: t == SendLine(s, line) || t == StoreLine(s, line) ==>
              && t.panes == s.panes && t.pauseAfter == s.pauseAfter && t.pauseAge == s.pauseAge
              && t.asked == s.asked && t.guardDepth == s.guardDepth && t.deferred == s.deferred
              && t.accepted == s.accepted + [line] && t.exit == s.exit && t.discard == s.discard
  {
  }

  lemma NotifyTold(s: State, text: seq<Byte>)
    ensures Told(s, NotifyLine(s, text), text) && NotifyLine(s, text).panes == s.panes
    ensures NotifyLine(s, text).pauseAfter == s.pauseAfter && NotifyLine(s, text).pauseAge == s.pauseAge
  {
    hide WriteLine;
    LineTold(s.(asked := s.asked + [text]), Notify, text);
  }

  lemma DoPauseTold(s: State, p: PaneId, held: Held)
    requires Core(s, held) && GuardOk(s) && p in s.panes && (held.Held? ==> held.message.pane == p)
    ensures PausedNow(s, DoPause(s, p), p)
  {
    hide Core, GuardOk, NotifyLine, Ids, Without, Queued;
    DoPauseOk(s, p, held);
    var s1 := DiscardPane(s, p);
    var s2 := s1.(panes := s1.panes[p := s1.panes[p].(paused := true)]);
    NotifyTold(s2, PAUSE + Decimal(p));
    assert Modes(s2) == Modes(s)[p := Mode(s.panes[p].off, true)];
  }

  /** What happens to a pane that is too far behind. */
  lemma AgedTold(s: State, p: PaneId, held: Held)
    requires Core(s, held) && GuardOk(s) && p in s.panes && (held.Held? ==> held.message.pane == p)
    ensures GaveUp(s, Aged(s, p), p)
  {
    hide Core, GuardOk, DoPause, OnlyLines;
    if s.pauseAfter {
      DoPauseTold(s, p, held);
    } else {
      OnlyLinesFacts(s.all, p);
    }
  }

  // ---- The writer ----

  lemma FlushOneQuiet(s: State)
    requires s.all != [] && s.all[0].LineBlock?
    ensures Quiet(s, FlushOne(s))
  {
  }

  lemma {:induction false} FlushQuiet(s: State)
    ensures Quiet(s, FlushLines(s))
    decreases |s.all|
  {
    hide Quiet, FlushOne;
    if s.all == [] || s.all[0].OutputBlock? {
      SelfQuiet(s);
    } else {
      FlushOneQuiet(s);
      FlushOneFields(s);
      FlushQuiet(FlushOne(s));
      QuietTrans(s, FlushOne(s), FlushLines(FlushOne(s)));
    }
  }

  lemma SelfQuiet(s: State)
    ensures Quiet(s, s) && Quiet(s, s.(fatal := true))
  {
  }

  lemma SendQuiet(s: State, item: Item)
    ensures Quiet(s, Send(s, item)) && Send(s, item).all == s.all
  {
  }

  lemma TakenQuiet(s: State, p: PaneId, size: nat)
    requires p in s.panes && Ids(s.all, p) != [] && size <= First(s.all, p).size
    ensures Quiet(s, Taken(s, p, size))
  {
    hide Ids, First, TakeFrom;
  }

  lemma DeliverQuiet(s: State, m: Item, p: PaneId, now: nat, age: nat, room: nat)
    ensures Quiet(s, Deliver(s, m)) && (Late(Deliver(s, m).all, p, now, age, room) <==> Late(s.all, p, now, age, room))
  {
    hide Quiet, Late, FlushLines;
    SendQuiet(s, m);
    FlushQuiet(Send(s, m));
    QuietTrans(s, Send(s, m), Deliver(s, m));
    FlushLate(Send(s, m), p, now, age, room);
  }

  lemma ChunkQuiet(s: State, p: PaneId, now: nat, size: nat, held: Held, room: nat)
    requires p in s.panes && Ids(s.all, p) != [] && 0 < First(s.all, p).size && !TooOld(s, p, now)
    requires size == Least(First(s.all, p).size, room) && room > 0
    requires s.panes[p].offset + size <= |Stream(s, p)| && (held.Held? ==> held.message.Message?)
    ensures var t := Chunk(s, p, now, size, held).0;
            Quiet(s, t) && (Late(t.all, p, now, Age(s), room - size) <==> Late(s.all, p, now, Age(s), room))
  {
    hide Ids, First, Chunk, Taken, Deliver, Quiet, Late, Age, TooOld, Old;
    var m := ChunkCases(s, p, now, size, held);
    var taken := Taken(s, p, size);
    LateFirst(s, p, now);
    FirstLate(s.all, p, now, Age(s), room);
    TakenQuiet(s, p, size);
    TakenFields(s, p, size);
    DeliverQuiet(taken, m, p, now, Age(s), room - size);
    QuietTrans(s, taken, Deliver(taken, m));
  }

  /** The loop over a pane's blocks gives up exactly if it comes to a block that is too old, and otherwise
    * switches nothing. */
  lemma {:induction false} ChunksTold(s: State, p: PaneId, now: nat, limit: nat, used: nat, held: Held)
    requires Core(s, held) && GuardOk(s) && p in s.panes && used <= limit && !s.fatal
    requires held.Held? ==> held.message.Message? && held.message.pane == p
    ensures var t := WriteChunks(s, p, now, limit, used, held);
            if !t.fatal && Late(s.all, p, now, Age(s), limit - used) then GaveUp(s, t, p) else Quiet(s, t)
    decreases limit - used, |s.all|
  {
    hide Core, GuardOk, Ids, First, Aged, TooOld, Chunk, Late, Quiet, GaveUp, WriteChunks, Stream, Age, Old;
    if used == limit || Ids(s.all, p) == [] {
      if used == limit { NoRoom(s.all, p, now, Age(s)); } else { NoBlocksNotLate(s.all, p, now, Age(s), limit - used); }
      EndQuiet(s, p, now, limit, used, held);
    } else {
      ChunksTurn(s, p, now, limit, used, held);
      SomeBytes(s, p, held);
      LateFirst(s, p, now);
      FirstLate(s.all, p, now, Age(s), limit - used);
      if TooOld(s, p, now) {
        AgedTold(s, p, held);
        AgedOk(s, p, held);
        NotFatal(s, Aged(s, p), p);
      } else {
        var size := Least(First(s.all, p).size, limit - used);
        if s.panes[p].offset + size > |Stream(s, p)| {
          SelfQuiet(s);
        } else {
          ChunkOk(s, p, now, size, held);
          ChunkQuiet(s, p, now, size, held, limit - used);
          var n := Chunk(s, p, now, size, held);
          QuietAge(s, n.0);
          ChunksTold(n.0, p, now, limit, used + size, n.1);
          var t := WriteChunks(n.0, p, now, limit, used + size, n.1);
          if GaveUp(n.0, t, p) { QuietGaveUp(s, n.0, t, p); }
          if Quiet(n.0, t) { QuietTrans(s, n.0, t); }
        }
      }
    }
  }

  lemma QuietAge(s: State, t: State)
    requires Quiet(s, t)
    ensures Age(t) == Age(s)
  {
  }

  lemma EndQuiet(s: State, p: PaneId, now: nat, limit: nat, used: nat, held: Held)
    requires p in s.panes && used <= limit && (held.Held? ==> held.message.Message?)
    requires used == limit || Ids(s.all, p) == []
    ensures Quiet(s, WriteChunks(s, p, now, limit, used, held))
  {
    hide Ids, Quiet;
    if held.Held? { SendQuiet(s, held.message); } else { SelfQuiet(s); }
  }

  /** `control_write_pending` gives a pane up exactly if one of the blocks it comes to is too old. */
  lemma WritePendingTold(s: State, p: PaneId, limit: nat, now: nat, gone: set<PaneId>)
    requires Inv(s) && p in s.panes && !s.fatal && limit > 0
    ensures var t := WritePending(s, p, limit, now, gone);
            if !t.fatal && p !in gone && Late(s.all, p, now, Age(s), limit) then GaveUp(s, t, p) else Quiet(s, t)
  {
    hide Core, GuardOk, Late, FlushLines, WriteChunks, Quiet, GaveUp, DiscardPane;
    if p in gone {
      DiscardQuiet(s, p);
      FlushQuiet(DiscardPane(s, p));
      QuietTrans(s, DiscardPane(s, p), FlushLines(DiscardPane(s, p)));
    } else {
      ChunksTold(s, p, now, limit, 0, Nothing);
    }
  }

  lemma DiscardQuiet(s: State, p: PaneId)
    requires p in s.panes
    ensures Quiet(s, DiscardPane(s, p))
  {
    hide Without, Queued;
    assert Modes(DiscardPane(s, p)) == Modes(s);
  }

  // ---- New output ----

  /** Everything but the panes' modes and the queue of output is as before. */
  ghost predicate Switched(s: State, t: State, modes: map<PaneId, Mode>) {
    && Modes(t) == modes && t.asked == s.asked && t.accepted == s.accepted && t.deferred == s.deferred
    && t.guardDepth == s.guardDepth && t.exit == s.exit && t.discard == s.discard
  }

  lemma QuietSwitched(s: State, t: State)
    requires Quiet(s, t)
    ensures Switched(s, t, Modes(s))
  {
    hide Modes;
  }

  /** A pane of which output is ignored. */
  predicate Ignored(s: State, p: PaneId) {
    s.noOutput || s.exit || (p in s.panes && (s.panes[p].off || s.panes[p].paused))
  }

  /** `control_write_output` gives a pane up exactly if its first block is too old.  Otherwise nothing is
    * switched, except that a new pane starts, and all there is of its output is ignored or queued. */
  lemma OutputTold(s: State, p: PaneId, now: nat)
    requires Inv(s)
    ensures var t := WriteOutput(s, p, now);
            if Ignored(s, p) then
              && Switched(s, t, Modes(s)) && t.all == s.all
              && (p in s.panes ==> p in t.panes && t.panes[p].offset == t.panes[p].queued == |Stream(s, p)|)
            else if Late(s.all, p, now, Age(s), 1) then GaveUp(s, t, p)
            else
              Switched(s, t, Modes(s)[p := Mode(false, false)]) && AllQueued(s, t, p, now)
  {
    hide Core, GuardOk, Late, GaveUp, AddPane, Aged, TooOld, Enqueue, Ids, Age, Modes, Queued;
    if s.noOutput || s.exit {
      if p in s.panes { SetQuiet(s, p, |Stream(s, p)|); }
    } else {
      var s1 := AddPane(s, p);
      AddedQuiet(s, p);
      AddPaneOk(s, p);
      if Ignored(s, p) {
        SetQuiet(s, p, |Stream(s, p)|);
      } else if Ids(s.all, p) == [] {
        NoBlocksNotLate(s.all, p, now, Age(s), 1);
        NeverTooOld(s1, p, now);
      } else {
        BlocksFirst(s, p);
        assert s1 == s;
        LateFirst(s, p, now);
        if TooOld(s, p, now) { AgedTold(s, p, Nothing); }
      }
      if !Ignored(s, p) && !TooOld(s1, p, now) && |Stream(s1, p)| > s1.panes[p].queued {
        EnqueueTold(s1, p, now);
      }
      if !Ignored(s, p) && !TooOld(s1, p, now) { NothingUnread(s1, p); }
    }
  }

  /** New bytes make one block at the end, and the pane has then nothing that is not queued. */
  predicate AllQueued(s: State, t: State, p: PaneId, now: nat) {
    var queued := if p in s.panes then s.panes[p].queued else Own(s, p);
    && p in t.panes && t.panes[p].queued == |Stream(s, p)| && queued <= |Stream(s, p)|
    && t.panes[p].offset == (if p in s.panes then s.panes[p].offset else Own(s, p))
    && (if queued == |Stream(s, p)| then t.all == s.all
        else t.all == s.all + [OutputBlock(s.nextId, p, |Stream(s, p)| - queued, now)] && t.panes[p].pending)
  }

  lemma SetQuiet(s: State, p: PaneId, at: nat)
    requires p in s.panes
    ensures Switched(s, s.(panes := s.panes[p := Started(s, s.panes[p], at)]), Modes(s))
  {
    assert Modes(s.(panes := s.panes[p := Started(s, s.panes[p], at)])) == Modes(s);
  }

  lemma AddedQuiet(s: State, p: PaneId)
    ensures var t := AddPane(s, p);
            && Age(t) == Age(s) && p in t.panes && t.all == s.all && t.nextId == s.nextId
            && Switched(s, t, if p in s.panes then Modes(s) else Modes(s)[p := Mode(false, false)])
            && (p in s.panes ==> t == s)
            && (p !in s.panes ==> t.panes[p].offset == t.panes[p].queued == Own(s, p) && Active(t.panes[p]))
            && Stream(t, p) == Stream(s, p)
    ensures p in s.panes && !s.panes[p].off && !s.panes[p].paused ==> Modes(s)[p := Mode(false, false)] == Modes(s)
  {
    if p !in s.panes { assert Modes(AddPane(s, p)) == Modes(s)[p := Mode(false, false)]; }
  }

  lemma BlocksFirst(s: State, p: PaneId)
    requires Inv(s) && Ids(s.all, p) != []
    ensures First(s.all, p).size > 0 && p in s.panes && AddPane(s, p) == s
  {
    hide QueueOk, PendingOk, PanesOk, GuardOk, Ids;
    QueueLive(s, p);
  }

  lemma NeverTooOld(s: State, p: PaneId, now: nat)
    requires Ids(s.all, p) == []
    ensures !TooOld(s, p, now)
  {
  }

  lemma EnqueueTold(s: State, p: PaneId, now: nat)
    requires p in s.panes && |Stream(s, p)| > s.panes[p].queued
    ensures var t := Enqueue(s, p, now);
            && Switched(s, t, Modes(s)) && p in t.panes && t.panes[p].queued == |Stream(s, p)| && t.panes[p].pending
            && t.panes[p].offset == s.panes[p].offset
            && t.all == s.all + [OutputBlock(s.nextId, p, |Stream(s, p)| - s.panes[p].queued, now)]
  {
    assert Modes(Enqueue(s, p, now)) == Modes(s);
  }

  /** An active pane never has more queued than there is. */
  lemma NothingUnread(s: State, p: PaneId)
    requires Core(s, Nothing) && p in s.panes && Active(s.panes[p]) && !s.exit
    ensures s.panes[p].queued <= |Stream(s, p)|
  {
    assert PaneOk(s, p, Nothing);
  }
}
