/** What every event does to the panes that are off or paused, to the notifications that say so, and to the
 * flag that tells the client to exit.
 */
module ControlSwitch {
  import opened Bytes
  import opened ControlOutput
  import opened ControlModel
  import opened ControlQueue
  import opened ControlInvariant
  import opened ControlSteps
  import opened ControlWriter
  import opened ControlRun
  import opened ControlShortage
  import opened ControlAge

  // ---- Blocks stay young ----

  lemma {:induction false} YoungMore(all: seq<Block>, b: Block, p: PaneId, now: nat, age: nat)
    requires Young(all, p, now, age) && b.LineBlock?
    ensures Young(all + [b], p, now, age)
  {
    if all == [] {
      assert (all + [b])[1..] == [];
    } else {
      assert (all + [b])[1..] == all[1..] + [b];
      YoungMore(all[1..], b, p, now, age);
    }
  }

  lemma {:induction false} YoungLines(all: seq<Block>, p: PaneId, now: nat, age: nat)
    ensures Young(OnlyLines(all), p, now, age)
  {
    if all != [] {
      YoungLines(all[1..], p, now, age);
      if all[0].OutputBlock? {
        assert [] + OnlyLines(all[1..]) == OnlyLines(all[1..]);
      } else {
        assert OnlyLines(all)[1..] == OnlyLines(all[1..]);
      }
    }
  }

  lemma {:induction false} YoungAt(all: seq<Block>, p: PaneId, now: nat, age: nat, i: nat)
    requires Young(all, p, now, age) && i < |all| && OfPane(all[i], p)
    ensures !Old(all[i], now, age)
  {
    if i > 0 { YoungAt(all[1..], p, now, age, i - 1); }
  }

  lemma LateIsOld(all: seq<Block>, p: PaneId, now: nat, age: nat, room: nat)
    requires Late(all, p, now, age, room)
    ensures !Young(all, p, now, age)
  {
    var i: nat :| i < |all| && LateAt(all, p, now, age, room, i);
    if Young(all, p, now, age) { YoungAt(all, p, now, age, i); }
  }

  lemma LineYoung(s: State, kind: Kind, text: seq<Byte>, p: PaneId, now: nat, age: nat)
    requires Young(s.all, p, now, age)
    ensures Young(WriteLine(s, kind, text).all, p, now, age)
  {
    hide TooFarBehind, Young, OnlyLines;
    YoungLines(s.all, p, now, age);
    YoungMore(s.all, LineBlock(Line(s.nextId, kind, text)), p, now, age);
  }

  lemma AgedYoung(s: State, q: PaneId, p: PaneId, now: nat, age: nat)
    requires q in s.panes && Young(s.all, p, now, age)
    ensures Young(Aged(s, q).all, p, now, age)
  {
    hide WriteLine, Young, OnlyLines, Without, Queued;
    if s.pauseAfter {
      WithoutYoung(s.all, q, p, now, age);
      var s1 := DiscardPane(s, q);
      var s2 := s1.(panes := s1.panes[q := s1.panes[q].(paused := true)]);
      var text := PAUSE + Decimal(q);
      LineYoung(s2.(asked := s2.asked + [text]), Notify, text, p, now, age);
    } else {
      YoungLines(s.all, p, now, age);
    }
  }

  lemma {:induction false} ChunksYoung(s: State, q: PaneId, now: nat, limit: nat, used: nat, held: Held, p: PaneId)
    requires Core(s, held) && GuardOk(s) && q in s.panes && used <= limit && Young(s.all, p, now, Age(s))
    requires held.Held? ==> held.message.Message? && held.message.pane == q
    ensures Young(WriteChunks(s, q, now, limit, used, held).all, p, now, Age(s))
    decreases limit - used, |s.all|
  {
    hide Core, GuardOk, Ids, First, Aged, TooOld, Chunk, Young, Stream, WriteChunks, Age;
    if used == limit || Ids(s.all, q) == [] {
      EndSame(s, q, now, limit, used, held);
    } else {
      ChunksTurn(s, q, now, limit, used, held);
      var size := Least(First(s.all, q).size, limit - used);
      if TooOld(s, q, now) {
        AgedYoung(s, q, p, now, Age(s));
      } else if s.panes[q].offset + size <= |Stream(s, q)| {
        SomeBytes(s, q, held);
        ChunkOk(s, q, now, size, held);
        ChunkPane(s, q, now, size, held, p, {});
        var n := Chunk(s, q, now, size, held);
        ChunksYoung(n.0, q, now, limit, used + size, n.1, p);
      }
    }
  }

  lemma EndSame(s: State, p: PaneId, now: nat, limit: nat, used: nat, held: Held)
    requires p in s.panes && used <= limit && (held.Held? ==> held.message.Message?)
    requires used == limit || Ids(s.all, p) == []
    ensures WriteChunks(s, p, now, limit, used, held).all == s.all
  {
    hide Ids;
  }

  lemma PendingYoung(s: State, q: PaneId, limit: nat, now: nat, gone: set<PaneId>, p: PaneId)
    requires Inv(s) && q in s.panes && limit > 0 && Young(s.all, p, now, Age(s))
    ensures Young(WritePending(s, q, limit, now, gone).all, p, now, Age(s))
  {
    hide Core, GuardOk, FlushLines, WriteChunks, Young, Without, Queued, Age;
    if q in gone {
      WithoutYoung(s.all, q, p, now, Age(s));
      FlushKeeps(DiscardPane(s, q), p, now, Age(s));
    } else {
      ChunksYoung(s, q, now, limit, 0, Nothing, p);
    }
  }

  // ---- The writer: what is paused is told, and nothing else ----

  function Pauses(qs: seq<PaneId>): (lines: seq<seq<Byte>>)
    ensures |lines| == |qs| && forall k :: 0 <= k < |qs| ==> lines[k] == PAUSE + Decimal(qs[k])
  {
    seq(|qs|, k requires 0 <= k < |qs| => PAUSE + Decimal(qs[k]))
  }

  predicate IsPaused(s: State, p: PaneId) {
    p in s.panes && s.panes[p].paused
  }

  predicate IsOff(s: State, p: PaneId) {
    p in s.panes && s.panes[p].off
  }

  /** The panes `qs` were paused in turn, each because it was too far behind, and each was announced once;
    * the client was told to exit only if it was too far behind or a line was refused. */
  ghost predicate Reached(s: State, t: State, now: nat, qs: seq<PaneId>) {
    && Age(t) == Age(s) && t.pauseAfter == s.pauseAfter && (forall q :: q in t.panes <==> q in s.panes)
    && (forall q :: IsOff(t, q) <==> IsOff(s, q))
    && Distinct(qs) && t.asked == s.asked + Pauses(qs)
    && (forall q :: IsPaused(t, q) <==> IsPaused(s, q) || q in qs) && (forall q :: q in qs ==> !IsPaused(s, q))
    && (forall q :: Young(s.all, q, now, Age(s)) ==> Young(t.all, q, now, Age(s)))
    && (forall q :: q in qs ==> s.pauseAfter && !Young(s.all, q, now, Age(s)))
    && (s.discard ==> t.discard) && (s.exit ==> t.exit)
    && (t.exit && !s.exit ==> (t.discard && !s.discard) || (!s.pauseAfter && !AllYoung(s, now)))
  }

  lemma DistinctBoth(qs: seq<PaneId>, qs': seq<PaneId>)
    requires Distinct(qs) && Distinct(qs') && forall q :: q in qs ==> q !in qs'
    ensures Distinct(qs + qs') && forall q :: q in qs + qs' <==> q in qs || q in qs'
    ensures Pauses(qs + qs') == Pauses(qs) + Pauses(qs')
  {
    forall i, j | 0 <= i < j < |qs + qs'| ensures (qs + qs')[i] != (qs + qs')[j] {
      if i < |qs| <= j { assert qs[i] in qs && qs'[j - |qs|] in qs'; }
    }
  }

  lemma ReachedTrans(r: State, s: State, t: State, now: nat, qs: seq<PaneId>, qs': seq<PaneId>)
    requires Reached(r, s, now, qs) && Reached(s, t, now, qs')
    ensures Reached(r, t, now, qs + qs')
  {
    hide Young, Age, IsOff, IsPaused, Pauses, Distinct, AllYoung;
    DistinctBoth(qs, qs');
    assert t.asked == r.asked + (Pauses(qs) + Pauses(qs'));
    if AllYoung(r, now) { StaysYoung(r, s, now, qs); }
  }

  lemma StaysYoung(s: State, t: State, now: nat, qs: seq<PaneId>)
    requires Reached(s, t, now, qs) && AllYoung(s, now)
    ensures AllYoung(t, now)
  {
    hide Young, Age;
    forall q ensures Young(t.all, q, now, Age(t)) { assert Young(s.all, q, now, Age(s)); }
  }

  lemma ModesAre(s: State, t: State, p: PaneId)
    ensures Modes(t) == Modes(s) ==>
              (p in t.panes <==> p in s.panes) && (IsOff(t, p) <==> IsOff(s, p)) && (IsPaused(t, p) <==> IsPaused(s, p))
    ensures p in Modes(s) <==> p in s.panes
    ensures p in s.panes ==> Modes(s)[p] == Mode(s.panes[p].off, s.panes[p].paused)
  {
    assert p in Modes(t) <==> p in t.panes;
    assert p in Modes(s) <==> p in s.panes;
  }

  lemma QuietReached(s: State, t: State, now: nat)
    requires Quiet(s, t) && forall q :: Young(s.all, q, now, Age(s)) ==> Young(t.all, q, now, Age(s))
    ensures Reached(s, t, now, [])
  {
    hide Young, Modes, Age, IsOff, IsPaused;
    forall q ensures (q in t.panes <==> q in s.panes) && (IsOff(t, q) <==> IsOff(s, q)) && (IsPaused(t, q) <==> IsPaused(s, q)) {
      ModesAre(s, t, q);
    }
    assert s.asked + Pauses([]) == s.asked;
  }

  lemma GaveUpReached(s: State, t: State, p: PaneId, now: nat)
    requires GaveUp(s, t, p) && !IsPaused(s, p) && !Young(s.all, p, now, Age(s))
    requires Age(t) == Age(s) && t.pauseAfter == s.pauseAfter
    requires forall q :: Young(s.all, q, now, Age(s)) ==> Young(t.all, q, now, Age(s))
    ensures Reached(s, t, now, if s.pauseAfter then [p] else [])
  {
    hide Young, Modes, Age, IsOff, IsPaused, Ids, OutputBytes, PAUSE, Decimal;
    forall q
      ensures (q in t.panes <==> q in s.panes) && (IsOff(t, q) <==> IsOff(s, q))
      ensures IsPaused(t, q) <==> IsPaused(s, q) || (s.pauseAfter && q == p)
    {
      if s.pauseAfter { PausedMode(s, t, p, q); } else { ModesAre(s, t, q); }
    }
    assert Pauses([p]) == [PAUSE + Decimal(p)];
    assert s.asked + Pauses([]) == s.asked;
  }

  lemma PausedMode(s: State, t: State, p: PaneId, q: PaneId)
    requires PausedNow(s, t, p)
    ensures (q in t.panes <==> q in s.panes) && (IsOff(t, q) <==> IsOff(s, q))
    ensures IsPaused(t, q) <==> IsPaused(s, q) || q == p
  {
    ModesAre(s, s, q);
    ModesAre(t, t, q);
  }

  /** `control_write_pending` and what follows it, for one pane. */
  lemma VisitReached(s: State, p: PaneId, limit: nat, now: nat, gone: set<PaneId>) returns (qs: seq<PaneId>)
    requires Inv(s) && p in s.panes && !s.fatal && limit > 0
    ensures Reached(s, Visit(s, p, limit, now, gone), now, qs)
  {
    hide Inv, WritePending, Unpend, Young, Age, Ids, GaveUp, Reached, Late, Quiet;
    var t := WritePending(s, p, limit, now, gone);
    WritePendingTold(s, p, limit, now, gone);
    WritePendingAge(s, p, limit, now, gone);
    forall q | Young(s.all, q, now, Age(s)) ensures Young(t.all, q, now, Age(s)) {
      PendingYoung(s, p, limit, now, gone, q);
    }
    if !t.fatal && p !in gone && Late(s.all, p, now, Age(s), limit) {
      LateIsOld(s.all, p, now, Age(s), limit);
      LateIsActive(s, p, now, limit);
      GaveUpReached(s, t, p, now);
      qs := if s.pauseAfter then [p] else [];
    } else {
      QuietReached(s, t, now);
      qs := [];
    }
    if p in t.panes {
      UnpendReached(t, p, now);
      ReachedTrans(s, t, Unpend(t, p), now, qs, []);
      assert qs + [] == qs;
    }
  }

  lemma LateIsActive(s: State, p: PaneId, now: nat, limit: nat)
    requires Inv(s) && Late(s.all, p, now, Age(s), limit)
    ensures !IsPaused(s, p)
  {
    hide Late, QueueOk, PendingOk, PanesOk, GuardOk, Ids;
    if Ids(s.all, p) == [] { NoBlocksNotLate(s.all, p, now, Age(s), limit); } else { QueueLive(s, p); }
  }

  lemma UnpendReached(s: State, p: PaneId, now: nat)
    requires p in s.panes
    ensures Reached(s, Unpend(s, p), now, [])
  {
    hide Young, RemoveOne;
    assert s.asked + Pauses([]) == s.asked;
  }

  lemma AgedAge(s: State, p: PaneId)
    requires p in s.panes
    ensures Aged(s, p).pauseAfter == s.pauseAfter && Aged(s, p).pauseAge == s.pauseAge
  {
    hide NotifyLine, OnlyLines, Without, Queued;
    var s1 := DiscardPane(s, p);
    NotifyTold(s1.(panes := s1.panes[p := s1.panes[p].(paused := true)]), PAUSE + Decimal(p));
  }

  lemma {:induction false} ChunksAge(s: State, p: PaneId, now: nat, limit: nat, used: nat, held: Held)
    requires p in s.panes && used <= limit && (held.Held? ==> held.message.Message?)
    ensures var t := WriteChunks(s, p, now, limit, used, held); t.pauseAfter == s.pauseAfter && t.pauseAge == s.pauseAge
    decreases limit - used, |s.all|
  {
    hide Ids, First, Aged, TooOld, Chunk, Stream;
    if used < limit && Ids(s.all, p) != [] {
      if TooOld(s, p, now) {
        AgedAge(s, p);
      } else {
        var size := Least(First(s.all, p).size, limit - used);
        if s.panes[p].offset + size <= |Stream(s, p)| {
          ChunkAge(s, p, now, size, held);
          var n := Chunk(s, p, now, size, held);
          ChunksAge(n.0, p, now, limit, used + size, n.1);
        }
      }
    }
  }

  lemma ChunkAge(s: State, p: PaneId, now: nat, size: nat, held: Held)
    requires p in s.panes && Ids(s.all, p) != [] && size <= First(s.all, p).size
    requires s.panes[p].offset + size <= |Stream(s, p)| && (held.Held? ==> held.message.Message?)
    ensures var t := Chunk(s, p, now, size, held).0; t.pauseAfter == s.pauseAfter && t.pauseAge == s.pauseAge
  {
    hide Ids, First, Extend, FlushLines, TakeFrom;
    var m := ChunkCases(s, p, now, size, held);
    FlushKeeps(Send(Taken(s, p, size), m), p, 0, 0);
  }

  lemma WritePendingAge(s: State, p: PaneId, limit: nat, now: nat, gone: set<PaneId>)
    requires p in s.panes
    ensures var t := WritePending(s, p, limit, now, gone);
            t.pauseAfter == s.pauseAfter && t.pauseAge == s.pauseAge && Age(t) == Age(s)
  {
    hide WriteChunks, FlushLines, Without, Queued;
    if p in gone { FlushKeeps(DiscardPane(s, p), p, 0, 0); } else { ChunksAge(s, p, now, limit, 0, Nothing); }
  }

  lemma SelfReached(s: State, now: nat)
    ensures Reached(s, s, now, [])
  {
    hide Young;
    assert s.asked + Pauses([]) == s.asked;
  }

  lemma {:induction false} PassReached(s: State, list: seq<PaneId>, limit: nat, now: nat, gone: set<PaneId>)
    returns (qs: seq<PaneId>)
    requires Inv(s) && limit > 0 && Distinct(list) && forall q :: q in list ==> q in s.pendingList
    ensures Reached(s, Pass(s, list, limit, now, gone), now, qs)
    decreases |list|
  {
    hide Inv, Visit, Worked, Work, Reached;
    if list == [] || s.outLen >= CONTROL_BUFFER_HIGH || s.fatal || list[0] !in s.panes {
      SelfReached(s, now);
      qs := [];
    } else {
      var p, t := list[0], Visit(s, list[0], limit, now, gone);
      VisitOk(s, p, limit, now, gone);
      forall q | q in list[1..] ensures q in t.pendingList {
        assert q in list && q != p;
      }
      var first := VisitReached(s, p, limit, now, gone);
      var rest := PassReached(t, list[1..], limit, now, gone);
      ReachedTrans(s, t, Pass(t, list[1..], limit, now, gone), now, first, rest);
      qs := first + rest;
    }
  }

  lemma {:induction false} LoopReached(s: State, now: nat, gone: set<PaneId>) returns (qs: seq<PaneId>)
    requires Inv(s)
    ensures Reached(s, WriteLoop(s, now, gone), now, qs)
    decreases Work(s)
  {
    hide Reached, Pass, QueueOk, PanesOk, GuardOk, OutputBytes, Ids;
    if s.fatal || s.outLen >= CONTROL_BUFFER_HIGH || s.pendingCount == 0 {
      SelfReached(s, now);
      qs := [];
    } else {
      var t := Pass(s, s.pendingList, Limit(s), now, gone);
      PassOk(s, s.pendingList, Limit(s), now, gone);
      qs := PassReached(s, s.pendingList, Limit(s), now, gone);
      if !t.fatal {
        var rest := LoopReached(t, now, gone);
        ReachedTrans(s, t, WriteLoop(t, now, gone), now, qs, rest);
        qs := qs + rest;
      }
    }
  }

  lemma CallbackReached(s: State, now: nat, gone: set<PaneId>) returns (qs: seq<PaneId>)
    requires Inv(s)
    ensures Reached(s, Callback(s, now, gone), now, qs)
  {
    hide Inv, Reached, FlushLines, WriteLoop, Young, Quiet, Age;
    var t := FlushLines(s);
    FlushOk(s);
    FlushQuiet(s);
    forall q | Young(s.all, q, now, Age(s)) ensures Young(t.all, q, now, Age(s)) { FlushKeeps(s, q, now, Age(s)); }
    QuietReached(s, t, now);
    qs := LoopReached(t, now, gone);
    ReachedTrans(s, t, WriteLoop(t, now, gone), now, [], qs);
    assert [] + qs == qs;
  }

  // ---- Every event ----

  /** A pane that starts again where the pane itself is. */
  predicate StartsAgain(s: State, t: State, p: PaneId) {
    p in t.panes && t.panes[p].offset == t.panes[p].queued == Own(s, p)
  }

  /** Only lines are written: the client is told to exit only if one is refused. */
  ghost predicate OnlyWrites(s: State, t: State) {
    && Modes(t) == Modes(s) && t.asked == s.asked && (s.discard ==> t.discard)
    && (t.exit <==> s.exit || (t.discard && !s.discard))
  }

  ghost predicate ReachedSome(s: State, t: State, now: nat) {
    exists qs :: Reached(s, t, now, qs)
  }

  /** What an event does, said without the functions of the model that do it. */
  ghost predicate Effect(s: State, e: Event, t: State) {
    match e
    case PaneOff(p) => Switched(s, t, Modes(s)[p := Mode(true, IsPaused(s, p))]) && Ids(t.all, p) == []
    case PaneOn(p) =>
      if IsOff(s, p) then
        Switched(s, t, Modes(s)[p := Mode(false, IsPaused(s, p))]) && StartsAgain(s, t, p) && t.all == s.all
      else t == s
    case PanePause(p) =>
      if IsPaused(s, p) then t == s
      else
        Modes(t) == Modes(s)[p := Mode(IsOff(s, p), true)] && Ids(t.all, p) == [] && Told(s, t, PAUSE + Decimal(p))
    case PaneContinue(p) =>
      if IsPaused(s, p) then
        Modes(t) == Modes(s)[p := Mode(IsOff(s, p), false)] && StartsAgain(s, t, p) && Told(s, t, CONTINUE + Decimal(p))
      else t == s
    case NoOutputFlag(flag) => Switched(s, t, map[]) && OutputBytes(t.all) == 0 && t.noOutput == flag
    case PaneReset(p) =>
      && Switched(s, t, Modes(s)) && Ids(t.all, p) == [] && Stream(t, p) == []
      && (p in s.panes ==> p in t.panes && t.panes[p].offset == t.panes[p].queued == 0)
    case PaneData(p, data) => Switched(s, t, Modes(s)) && t.all == s.all && Stream(t, p) == Stream(s, p) + data
    case PaneUsed(p, at) =>
      && Switched(s, t, Modes(s)) && t.all == s.all
      && Own(t, p) == if Own(s, p) <= at <= |Stream(s, p)| then at else Own(s, p)
    case Sent(n) => Switched(s, t, Modes(s)) && t.all == s.all
    case PauseAfterFlag(flag, age) =>
      Switched(s, t, Modes(s)) && t.all == s.all && Age(t) == if flag then age else CONTROL_MAXIMUM_AGE
    case Discard =>
      && t.exit && OutputBytes(t.all) == 0 && Modes(t) == Modes(s)
      && t.asked == s.asked && t.accepted == s.accepted && t.discard == s.discard
    case ExitFlag =>
      && t.exit && t.all == s.all && Modes(t) == Modes(s)
      && t.asked == s.asked && t.accepted == s.accepted && t.discard == s.discard
    case ReplyLine(text) => OnlyWrites(s, t)
    case GuardLine(begin, text) => OnlyWrites(s, t)
    case Notification(text) => Modes(t) == Modes(s) && Told(s, t, text)
    case Output(p, now) =>
      if Ignored(s, p) then
        && Switched(s, t, Modes(s)) && t.all == s.all
        && (p in s.panes ==> p in t.panes && t.panes[p].offset == t.panes[p].queued == |Stream(s, p)|)
      else if Late(s.all, p, now, Age(s), 1) then GaveUp(s, t, p)
      else Switched(s, t, Modes(s)[p := Mode(false, false)]) && AllQueued(s, t, p, now)
    case Writable(now, gone) => ReachedSome(s, t, now)
  }

  lemma OffEffect(s: State, p: PaneId)
    requires Inv(s)
    ensures Effect(s, PaneOff(p), SetOff(s, p))
  {
    hide Inv, Ids, AddPane, Own, Stream, Age, Modes;
    AddedQuiet(s, p);
    AddedSame(s, p);
    OffModes(AddPane(s, p), p);
    ModesAre(s, s, p);
    assert Modes(AddPane(s, p))[p := Mode(true, IsPaused(s, p))] == Modes(s)[p := Mode(true, IsPaused(s, p))];
  }

  lemma OffModes(s: State, p: PaneId)
    requires p in s.panes
    ensures var s2 := Sync(DiscardPane(s, p), p);
            var t := s2.(panes := s2.panes[p := s2.panes[p].(off := true)]);
            Switched(s, t, Modes(s)[p := Mode(true, s.panes[p].paused)]) && Ids(t.all, p) == []
  {
    hide Ids, Queued, Without, Sync, DiscardPane, Switched;
    var s1 := DiscardPane(s, p);
    DiscardIs(s, p);
    SyncIs(s1, p);
    WithoutFacts(s.all, p, p);
    var pane := Started(s1, s1.panes[p], Own(s1, p)).(off := true);
    OneMode(s, p, pane, Without(s.all, p));
    var t := Sync(s1, p);
    assert t.(panes := t.panes[p := t.panes[p].(off := true)]) == s.(panes := s.panes[p := pane], all := Without(s.all, p));
  }

  /** One pane and the queue change. */
  lemma OneMode(s: State, p: PaneId, pane: Pane, all: seq<Block>)
    ensures Switched(s, s.(panes := s.panes[p := pane], all := all), Modes(s)[p := Mode(pane.off, pane.paused)])
  {
    assert Modes(s.(panes := s.panes[p := pane], all := all)) == Modes(s)[p := Mode(pane.off, pane.paused)];
  }

  lemma OnEffect(s: State, p: PaneId)
    ensures Effect(s, PaneOn(p), SetOn(s, p))
  {
    if IsOff(s, p) { assert Modes(SetOn(s, p)) == Modes(s)[p := Mode(false, IsPaused(s, p))]; }
  }

  lemma PauseEffect(s: State, p: PaneId)
    requires Inv(s)
    ensures Effect(s, PanePause(p), PausePane(s, p))
  {
    hide Core, GuardOk, DoPause, Ids, Told, Switched;
    if !IsPaused(s, p) {
      var s1 := AddPane(s, p);
      AddPaneOk(s, p);
      SameGuardsOk(s, s1);
      DoPauseTold(s1, p, Nothing);
      AddedTold(s, p, DoPause(s1, p), PAUSE + Decimal(p));
    }
  }

  lemma AddedTold(s: State, p: PaneId, t: State, text: seq<Byte>)
    requires p in AddPane(s, p).panes && Told(AddPane(s, p), t, text) && !IsPaused(s, p)
    ensures Told(s, t, text)
    ensures Modes(AddPane(s, p))[p := Mode(AddPane(s, p).panes[p].off, true)] == Modes(s)[p := Mode(IsOff(s, p), true)]
  {
    hide AddPane, Modes, Own, Stream, Age;
    AddedQuiet(s, p);
    AddedSame(s, p);
  }

  lemma AddedSame(s: State, p: PaneId)
    ensures p in s.panes ==> AddPane(s, p).panes[p] == s.panes[p]
  {
  }

  lemma ContinueEffect(s: State, p: PaneId)
    ensures Effect(s, PaneContinue(p), ContinuePane(s, p))
  {
    hide NotifyLine;
    if IsPaused(s, p) {
      var s1 := Sync(s.(panes := s.panes[p := s.panes[p].(paused := false)]), p);
      NotifyTold(s1, CONTINUE + Decimal(p));
      assert Modes(s1) == Modes(s)[p := Mode(IsOff(s, p), false)];
    }
  }

  lemma ResetEffect(s: State, p: PaneId)
    requires Inv(s)
    ensures Effect(s, PaneReset(p), ResetPane(s, p))
  {
    hide Core, GuardOk, Ids, Queued, Without;
    WithoutFacts(s.all, p, p);
    if p !in s.panes { NoBlocks(s, p); }
    assert Modes(ResetPane(s, p)) == Modes(s);
  }

  lemma FlagEffect(s: State, flag: bool)
    ensures Effect(s, NoOutputFlag(flag), SetNoOutput(s, flag))
  {
    hide OnlyLines, OutputBytes;
    OnlyLinesFacts(s.all, 0);
    assert Modes(SetNoOutput(s, flag)) == map[];
  }

  lemma WritesTrans(r: State, s: State, t: State)
    requires OnlyWrites(r, s) && OnlyWrites(s, t)
    ensures OnlyWrites(r, t)
  {
    hide Modes;
  }

  lemma LineWrites(s: State, kind: Kind, text: seq<Byte>)
    ensures var t := WriteLine(s, kind, text);
            OnlyWrites(s, t) && t.guardDepth == s.guardDepth && t.deferred == s.deferred
  {
    hide WriteLine;
    LineTold(s, kind, text);
  }

  lemma SameWrites(s: State, t: State)
    requires t.panes == s.panes && t.asked == s.asked && t.exit == s.exit && t.discard == s.discard
    ensures OnlyWrites(s, t)
  {
  }

  lemma {:induction false} DeferredWrites(s: State)
    ensures OnlyWrites(s, FlushDeferred(s))
    decreases |s.deferred|
  {
    hide OnlyWrites, WriteLine;
    if s.deferred == [] {
      SameWrites(s, s);
    } else {
      var s1 := s.(deferred := s.deferred[1..]);
      var s2 := WriteLine(s1, Notify, s.deferred[0]);
      SameWrites(s, s1);
      LineWrites(s1, Notify, s.deferred[0]);
      WritesTrans(s, s1, s2);
      DeferredWrites(s2);
      WritesTrans(s, s2, FlushDeferred(s2));
    }
  }

  lemma GuardWrites(s: State, begin: bool, text: seq<Byte>)
    ensures OnlyWrites(s, Guard(s, begin, text))
  {
    hide OnlyWrites, WriteLine, FlushDeferred;
    if begin {
      var s1 := s.(guardDepth := s.guardDepth + 1);
      SameWrites(s, s1);
      LineWrites(s1, Begin, text);
      WritesTrans(s, s1, WriteLine(s1, Begin, text));
    } else {
      var s1 := WriteLine(s, Close, text);
      LineWrites(s, Close, text);
      if s1.guardDepth > 0 {
        var s2 := s1.(guardDepth := s1.guardDepth - 1);
        SameWrites(s1, s2);
        WritesTrans(s, s1, s2);
        DeferredWrites(s2);
        WritesTrans(s, s2, FlushDeferred(s2));
      }
    }
  }

  lemma CallbackEffect(s: State, now: nat, gone: set<PaneId>)
    requires Inv(s)
    ensures ReachedSome(s, Callback(s, now, gone), now)
  {
    hide Callback, Reached, Inv;
    var qs := CallbackReached(s, now, gone);
  }

  lemma SimpleEffect(s: State, e: Event)
    requires Inv(s) && !s.fatal
    requires e.PaneData? || e.PaneUsed? || e.PauseAfterFlag? || e.Sent? || e.Discard? || e.ExitFlag?
    ensures Effect(s, e, Step(s, e))
  {
    hide Inv, OnlyLines, OutputBytes, Modes, Append, MoveOwn;
    SameModes(s, Step(s, e)) by { hide Effect; SamePanesMap(s, e); }
    match e
    case PaneData(p, data) => DataFields(s, p, data);
    case PaneUsed(p, at) => UsedFields(s, p, at);
    case Discard => OnlyLinesFacts(s.all, 0);
    case _ =>
  }

  lemma SamePanesMap(s: State, e: Event)
    requires Inv(s) && !s.fatal
    requires e.PaneData? || e.PaneUsed? || e.PauseAfterFlag? || e.Sent? || e.Discard? || e.ExitFlag?
    ensures Step(s, e).panes == s.panes
  {
    hide Inv, OnlyLines;
  }

  lemma DataFields(s: State, p: PaneId, data: seq<Byte>)
    ensures var t := Append(s, p, data);
            && t.asked == s.asked && t.accepted == s.accepted && t.deferred == s.deferred && t.guardDepth == s.guardDepth
            && t.exit == s.exit && t.discard == s.discard && t.all == s.all && Stream(t, p) == Stream(s, p) + data
  {
  }

  lemma UsedFields(s: State, p: PaneId, at: nat)
    ensures var t := MoveOwn(s, p, at);
            && t.asked == s.asked && t.accepted == s.accepted && t.deferred == s.deferred && t.guardDepth == s.guardDepth
            && t.exit == s.exit && t.discard == s.discard && t.all == s.all
            && Own(t, p) == if Own(s, p) <= at <= |Stream(s, p)| then at else Own(s, p)
  {
  }

  lemma WriteEffect(s: State, e: Event)
    requires Inv(s) && !s.fatal && (e.ReplyLine? || e.Notification? || e.GuardLine? || e.Output? || e.Writable?)
    ensures Effect(s, e, Step(s, e))
  {
    hide Inv, WriteLine, NotifyLine, Guard, WriteOutput, Callback, Late, GaveUp, OnlyWrites, ReachedSome, Told, Switched,
      Ignored, AllQueued, Age, Modes;
    match e
    case ReplyLine(text) => LineWrites(s, Reply, text);
    case Notification(text) =>
      NotifyTold(s, text);
      SameModes(s, NotifyLine(s, text));
    case GuardLine(begin, text) => GuardWrites(s, begin, text);
    case Output(p, now) => OutputTold(s, p, now);
    case Writable(now, gone) => CallbackEffect(s, now, gone);
  }

  lemma SameModes(s: State, t: State)
    requires t.panes == s.panes
    ensures Modes(t) == Modes(s)
  {
  }

  /** Every event of every run does exactly this to the panes' modes, to what is asked for, and to the
    * flag that tells the client to exit. */
  lemma StepEffect(s: State, e: Event)
    requires Inv(s) && !s.fatal
    ensures Effect(s, e, Step(s, e))
  {
    hide Inv, Effect, ResetPane, SetOff, SetOn, PausePane, ContinuePane, SetNoOutput;
    match e
    case PaneReset(p) => ResetEffect(s, p);
    case PaneOff(p) => OffEffect(s, p);
    case PaneOn(p) => OnEffect(s, p);
    case PanePause(p) => PauseEffect(s, p);
    case PaneContinue(p) => ContinueEffect(s, p);
    case NoOutputFlag(noOutput) => FlagEffect(s, noOutput);
    case ReplyLine(text) => WriteEffect(s, e);
    case Notification(text) => WriteEffect(s, e);
    case GuardLine(begin, text) => WriteEffect(s, e);
    case Output(p, now) => WriteEffect(s, e);
    case Writable(now, gone) => WriteEffect(s, e);
    case _ => SimpleEffect(s, e);
  }

  // ---- Which clients are told to exit ----

  /** The server ends the client, or a client without pause-after has a pane that is too far behind. */
  ghost predicate Ends(s: State, e: Event) {
    e.Discard? || e.ExitFlag? || (!s.pauseAfter && (e.Output? || e.Writable?) && !AllYoung(s, e.now))
  }

  lemma ExitStep(s: State, e: Event)
    requires Inv(s)
    ensures var t := Step(s, e); (s.discard ==> t.discard) && (t.exit && !s.exit ==> t.discard || Ends(s, e))
  {
    hide Inv, Step, Modes, Late, Told, Ids, OutputBytes, Age, Young, AllQueued, StartsAgain, Ignored;
    if s.fatal {
      FatalStep(s, e);
    } else {
      StepEffect(s, e);
      if e.Output? && Late(s.all, e.pane, e.now, Age(s), 1) {
        LateIsOld(s.all, e.pane, e.now, Age(s), 1);
      }
      if Told(s, Step(s, e), PAUSE + Decimal(if e.PanePause? || e.Output? then e.pane else 0)) {
        ToldExit(s, Step(s, e), PAUSE + Decimal(if e.PanePause? || e.Output? then e.pane else 0));
      }
      if e.PaneContinue? && Told(s, Step(s, e), CONTINUE + Decimal(e.pane)) {
        ToldExit(s, Step(s, e), CONTINUE + Decimal(e.pane));
      }
      if e.Notification? && Told(s, Step(s, e), e.text) { ToldExit(s, Step(s, e), e.text); }
    }
  }

  lemma FatalStep(s: State, e: Event)
    requires Inv(s) && s.fatal
    ensures Step(s, e) == s
  {
  }

  lemma ToldExit(s: State, t: State, text: seq<Byte>)
    requires Told(s, t, text)
    ensures (s.discard ==> t.discard) && (t.exit && !s.exit ==> t.discard)
  {
  }

  /** In every run: a client is told to exit only if the server ends it, or a line was refused because it
    * does not read its replies, or it has no pause-after and fell behind. */
  lemma {:induction false} ExitIsEarned(events: seq<Event>)
    ensures var s := Run(events);
            s.exit ==> s.discard || exists k: nat :: k < |events| && Ends(Run(events[..k]), events[k])
    decreases |events|
  {
    hide Run, Step, Ends;
    if events == [] {
      RunNone();
    } else {
      var n := |events| - 1;
      var front, e := events[..n], events[n];
      assert events == front + [e];
      RunMore(front, e);
      ExitIsEarned(front);
      ExitStep(Run(front), e);
      if Run(events).exit && !Run(events).discard && Run(front).exit {
        var k: nat :| k < n && Ends(Run(front[..k]), front[k]);
        assert front[..k] == events[..k] && front[k] == events[k];
      }
    }
  }

  // ---- Pausing is announced ----

  function Bit(b: bool): int {
    if b then 1 else 0
  }

  /** How many more times the client was told that the pane is paused than that it goes on. */
  function Announced(s: State, p: PaneId): int {
    var paused: int, continued: int := multiset(s.asked)[PAUSE + Decimal(p)], multiset(s.asked)[CONTINUE + Decimal(p)];
    paused - continued
  }

  /** Texts of different panes differ, and so do pause and continue. */
  lemma TextsDiffer(p: PaneId, q: PaneId)
    ensures PAUSE + Decimal(p) == PAUSE + Decimal(q) ==> p == q
    ensures CONTINUE + Decimal(p) == CONTINUE + Decimal(q) ==> p == q
    ensures PAUSE + Decimal(p) != CONTINUE + Decimal(q)
  {
    DecimalNumber(p);
    DecimalNumber(q);
    assert (PAUSE + Decimal(p))[|PAUSE|..] == Decimal(p) && (PAUSE + Decimal(q))[|PAUSE|..] == Decimal(q);
    assert (CONTINUE + Decimal(p))[|CONTINUE|..] == Decimal(p) && (CONTINUE + Decimal(q))[|CONTINUE|..] == Decimal(q);
    assert (PAUSE + Decimal(p))[1] == 0x70 && (CONTINUE + Decimal(q))[1] == 0x63;
  }

  lemma {:induction false} CountPauses(qs: seq<PaneId>, p: PaneId)
    requires Distinct(qs)
    ensures multiset(Pauses(qs))[PAUSE + Decimal(p)] == Bit(p in qs)
    ensures multiset(Pauses(qs))[CONTINUE + Decimal(p)] == 0
  {
    hide Decimal, PAUSE, CONTINUE;
    if qs == [] {
      assert Pauses(qs) == [];
    } else {
      var front, last := qs[..|qs| - 1], qs[|qs| - 1];
      assert qs == front + [last] && last !in front;
      CountPauses(front, p);
      TextsDiffer(last, p);
      assert Pauses(qs) == Pauses(front) + [PAUSE + Decimal(last)];
      assert multiset(Pauses(qs)) == multiset(Pauses(front)) + multiset{PAUSE + Decimal(last)};
      assert p in qs <==> p in front || p == last;
    }
  }

  lemma AskedMore(s: State, t: State, lines: seq<seq<Byte>>, p: PaneId)
    requires t.asked == s.asked + lines
    ensures Announced(t, p) == Announced(s, p) + multiset(lines)[PAUSE + Decimal(p)] - multiset(lines)[CONTINUE + Decimal(p)]
  {
    hide Decimal, PAUSE, CONTINUE;
    assert multiset(t.asked) == multiset(s.asked) + multiset(lines);
  }

  /** One line more, or none. */
  lemma AskedOne(s: State, t: State, text: seq<Byte>, p: PaneId)
    requires t.asked == s.asked + [text]
    ensures Announced(t, p) == Announced(s, p) + Bit(text == PAUSE + Decimal(p)) - Bit(text == CONTINUE + Decimal(p))
  {
    hide Decimal, PAUSE, CONTINUE;
    AskedMore(s, t, [text], p);
    assert multiset([text]) == multiset{text};
  }

  /** The event neither forgets the panes nor is a notification that looks like an announcement. */
  predicate Plainly(e: Event, p: PaneId) {
    !e.NoOutputFlag? && (e.Notification? ==> e.text != PAUSE + Decimal(p) && e.text != CONTINUE + Decimal(p))
  }

  lemma AnnouncedStep(s: State, e: Event, p: PaneId)
    requires Inv(s) && Plainly(e, p)
    ensures var t := Step(s, e); Announced(t, p) - Announced(s, p) == Bit(IsPaused(t, p)) - Bit(IsPaused(s, p))
  {
    hide Inv, Step, Late, Ids, OutputBytes, Age, Young, AllQueued, StartsAgain, Ignored, Decimal, PAUSE, CONTINUE, Announced,
      Modes, IsPaused, IsOff, Stream, Own;
    var t := Step(s, e);
    if s.fatal {
      FatalStep(s, e);
    } else {
      StepEffect(s, e);
      ModesAre(s, t, p);
      match e
      case Notification(text) => AskedOne(s, t, text, p);
      case PanePause(q) => if !IsPaused(s, q) { PausedAnnounced(s, t, q, p); }
      case PaneContinue(q) => if IsPaused(s, q) { ContinueAnnounced(s, t, q, p); }
      case PaneOff(q) => NoneAnnounced(s, t, q, IsPaused(s, q), p);
      case PaneOn(q) => if IsOff(s, q) { NoneAnnounced(s, t, q, IsPaused(s, q), p); }
      case Output(q, now) => OutputAnnounced(s, t, q, now, p);
      case Writable(now, gone) => WritableAnnounced(s, t, now, p);
      case _ => SameAsked(s, t, p);
    }
  }

  lemma SameAsked(s: State, t: State, p: PaneId)
    requires t.asked == s.asked
    ensures Announced(t, p) == Announced(s, p)
  {
  }

  lemma PausedAnnounced(s: State, t: State, q: PaneId, p: PaneId)
    requires !IsPaused(s, q) && t.asked == s.asked + [PAUSE + Decimal(q)]
    requires Modes(t) == Modes(s)[q := Mode(IsOff(s, q), true)]
    ensures Announced(t, p) - Announced(s, p) == Bit(IsPaused(t, p)) - Bit(IsPaused(s, p))
  {
    hide Decimal, PAUSE, CONTINUE, Announced, Modes;
    AskedOne(s, t, PAUSE + Decimal(q), p);
    TextsDiffer(q, p);
    ModesAre(s, s, p);
    ModesAre(t, t, p);
  }

  lemma ContinueAnnounced(s: State, t: State, q: PaneId, p: PaneId)
    requires IsPaused(s, q) && t.asked == s.asked + [CONTINUE + Decimal(q)]
    requires Modes(t) == Modes(s)[q := Mode(IsOff(s, q), false)]
    ensures Announced(t, p) - Announced(s, p) == Bit(IsPaused(t, p)) - Bit(IsPaused(s, p))
  {
    hide Decimal, PAUSE, CONTINUE, Announced, Modes;
    AskedOne(s, t, CONTINUE + Decimal(q), p);
    TextsDiffer(q, p);
    TextsDiffer(p, q);
    ModesAre(s, s, p);
    ModesAre(t, t, p);
  }

  lemma NoneAnnounced(s: State, t: State, q: PaneId, paused: bool, p: PaneId)
    requires t.asked == s.asked && paused == IsPaused(s, q)
    requires exists off: bool :: Modes(t) == Modes(s)[q := Mode(off, paused)]
    ensures Announced(t, p) - Announced(s, p) == Bit(IsPaused(t, p)) - Bit(IsPaused(s, p))
  {
    hide Announced, Modes;
    SameAsked(s, t, p);
    ModesAre(s, s, p);
    ModesAre(t, t, p);
  }

  lemma OutputAnnounced(s: State, t: State, q: PaneId, now: nat, p: PaneId)
    requires Inv(s) && Effect(s, Output(q, now), t)
    ensures Announced(t, p) - Announced(s, p) == Bit(IsPaused(t, p)) - Bit(IsPaused(s, p))
  {
    hide Inv, Late, Ids, OutputBytes, Age, AllQueued, Decimal, PAUSE, CONTINUE, Announced, Modes;
    ModesAre(s, t, p);
    ModesAre(s, s, p);
    ModesAre(t, t, p);
    if !Ignored(s, q) && Late(s.all, q, now, Age(s), 1) {
      LateIsActive(s, q, now, 1);
      if s.pauseAfter { PausedAnnounced(s, t, q, p); } else { SameAsked(s, t, p); }
    } else {
      SameAsked(s, t, p);
    }
  }

  lemma WritableAnnounced(s: State, t: State, now: nat, p: PaneId)
    requires ReachedSome(s, t, now)
    ensures Announced(t, p) - Announced(s, p) == Bit(IsPaused(t, p)) - Bit(IsPaused(s, p))
  {
    hide Age, Young, Announced, Decimal, PAUSE, CONTINUE, IsPaused;
    var qs :| Reached(s, t, now, qs);
    AskedMore(s, t, Pauses(qs), p);
    CountPauses(qs, p);
  }

  /** In every run that does not make the client forget its panes: a pane is paused exactly if the client was
    * told so once more than it was told that the pane goes on. */
  lemma {:induction false} PausesAreAnnounced(events: seq<Event>, p: PaneId)
    requires forall e :: e in events ==> Plainly(e, p)
    ensures Announced(Run(events), p) == Bit(IsPaused(Run(events), p))
    decreases |events|
  {
    hide Run, Step, Plainly, IsPaused, Announced;
    if events == [] {
      RunNone();
      StartAnnounced(p);
    } else {
      var n := |events| - 1;
      assert events == events[..n] + [events[n]];
      RunMore(events[..n], events[n]);
      PausesAreAnnounced(events[..n], p);
      AnnouncedStep(Run(events[..n]), events[n], p);
    }
  }

  lemma StartAnnounced(p: PaneId)
    ensures Announced(START, p) == 0 && !IsPaused(START, p)
  {
  }
}
