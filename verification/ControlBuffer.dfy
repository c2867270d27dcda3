/** How full the buffer to a client is, and when the writer holds back. */
module ControlBuffer {
  import opened Bytes
  import opened ControlOutput
  import opened ControlModel
  import opened ControlQueue
  import opened ControlInvariant
  import opened ControlSteps
  import opened ControlWriter
  import opened ControlRun
  import opened ControlShortage
  import opened ControlAge
  import opened ControlHeads

  // ---- How full the buffer is ----

  /** How many bytes of the buffer went to the client in these events. */
  ghost function Drained(events: seq<Event>): nat {
    if events == [] then 0
    else
      var front, e := events[..|events| - 1], events[|events| - 1];
      Drained(front) + if e.Sent? && !Run(front).fatal then Least(e.n, Run(front).outLen) else 0
  }

  lemma DrainStep(s: State, e: Event)
    requires Inv(s)
    ensures var t := Step(s, e);
            t.outLen + (if e.Sent? && !s.fatal then Least(e.n, s.outLen) else 0) - s.outLen == Length(t.out) - Length(s.out)
  {
    hide Inv, Step, SentSince, Length;
    if s.fatal {
      SameStep(s, e);
    } else if e.Sent? {
      SentFields(s, e);
    } else {
      StepCounted(s, e);
    }
  }

  lemma SameStep(s: State, e: Event)
    requires Inv(s) && s.fatal
    ensures Step(s, e) == s
  {
  }

  lemma SentFields(s: State, e: Event)
    requires Inv(s) && !s.fatal && e.Sent?
    ensures Step(s, e).out == s.out && Step(s, e).outLen == s.outLen - Least(e.n, s.outLen)
    ensures Step(s, e).replyBytes == s.replyBytes
  {
  }

  lemma StepCounted(s: State, e: Event)
    requires Inv(s) && !e.Sent? && !s.fatal
    ensures Counted(s, Step(s, e))
  {
    hide Inv, WriteLine, NotifyLine, Guard, WriteOutput, PausePane, ContinuePane, Callback, SentSince, ResetPane, SetOff,
      SetOn, SetNoOutput, Append, MoveOwn, OnlyLines, Length;
    match e
    case Writable(now, gone) =>
      CallbackSent(s, now, gone);
      SentCounted(s, Callback(s, now, gone), now);
    case ReplyLine(text) => LineNoMessages(s, Reply, text);
    case Notification(text) => NotifyNoMessages(s, text);
    case GuardLine(begin, text) => GuardNoMessages(s, begin, text);
    case PanePause(p) => PauseSent(s, p);
    case PaneContinue(p) => ContinueSent(s, p);
    case Output(p, now) => OutputSent(s, p, now);
    case _ =>
      NothingSent(s, e);
      SameLength(s, e);
  }

  lemma SentCounted(s: State, t: State, now: nat)
    requires SentSince(s, t, now)
    ensures Counted(s, t)
  {
  }

  lemma SameLength(s: State, e: Event)
    requires Inv(s) && !s.fatal && (e.PaneData? || e.PaneUsed? || e.PaneReset? || e.PaneOff? || e.PaneOn? || e.NoOutputFlag?
                                    || e.PauseAfterFlag? || e.Discard? || e.ExitFlag?)
    ensures Step(s, e).outLen == s.outLen && Step(s, e).replyBytes == s.replyBytes
  {
    hide Inv, OnlyLines, Without, Queued, Stream, Own;
  }

  /** In every run the buffer holds exactly what was sent and has not gone to the client. */
  lemma {:induction false} BufferIsExact(events: seq<Event>)
    ensures Run(events).outLen + Drained(events) == Length(Run(events).out)
    decreases |events|
  {
    hide Run, Step, Length;
    if events == [] {
      RunNone();
      NoLength();
    } else {
      var front, e := events[..|events| - 1], events[|events| - 1];
      assert events == front + [e];
      RunMore(front, e);
      BufferIsExact(front);
      DrainStep(Run(front), e);
    }
  }

  /** In every run less than 64 MiB of lines wait in the queue. */
  lemma {:induction false} RepliesAreBounded(events: seq<Event>)
    ensures ReplyBytes(Run(events).all) == Run(events).replyBytes < 64 * 1024 * 1024
    decreases |events|
  {
    hide Run, Step, Length, ReplyBytes;
    AccountsAreExact(events);
    if events == [] {
      RunNone();
    } else {
      var front, e := events[..|events| - 1], events[|events| - 1];
      assert events == front + [e];
      RunMore(front, e);
      RepliesAreBounded(front);
      var s := Run(front);
      if s.fatal { SameStep(s, e); } else if e.Sent? { SentFields(s, e); } else { StepCounted(s, e); }
    }
  }

  /** A line is refused exactly if with it 64 MiB would wait in the buffer and the queue, or one was before. */
  lemma RefusedExactly(s: State, kind: Kind, text: seq<Byte>)
    requires Inv(s)
    ensures WriteLine(s, kind, text).discard
       <==> s.discard || s.outLen + ReplyBytes(s.all) + |text| + 1 >= 64 * 1024 * 1024
  {
    hide Inv, Refuse, SendLine, StoreLine, ReplyBytes;
    RepliesCounted(s);
    RefuseTold(s);
    SendTold(s, Line(s.nextId, kind, text));
  }

  lemma RepliesCounted(s: State)
    requires Inv(s)
    ensures s.replyBytes == ReplyBytes(s.all)
  {
    hide PendingOk, PanesOk, GuardOk, Sorted, Live, OutOrder, LastLine, LinesOut, LinesIn, ReplyBytes;
  }

  lemma NoLength()
    ensures Length(START.out) == 0 && START.outLen == 0
  {
  }

  // ---- When the writer holds back ----

  /** A pass shares a third of the room in the buffer among the pending panes, but gives each 32 bytes. */
  lemma LimitIsFair(s: State)
    requires s.pendingCount > 0 && s.outLen < CONTROL_BUFFER_HIGH
    ensures Limit(s) >= 32 && (Limit(s) > 32 ==> 3 * (s.pendingCount * Limit(s)) <= 8192 - s.outLen)
    ensures 3 * (s.pendingCount * (Limit(s) + 1)) > 8192 - s.outLen
  {
    var room, n := 8192 - s.outLen, s.pendingCount;
    ThirdOfShare(room, n);
    Scaled(room / n / 3 + 1, Limit(s) + 1, n);
  }

  lemma ThirdOfShare(room: nat, n: nat)
    requires n > 0
    ensures var limit := room / n / 3; 3 * (n * limit) <= room < 3 * (n * (limit + 1))
  {
    var share := room / n;
    var limit := share / 3;
    assert n * share <= room < n * (share + 1);
    Scaled(3 * limit, share, n);
    Scaled(share + 1, 3 * (limit + 1), n);
    Thrice(n, limit);
    Thrice(n, limit + 1);
  }

  lemma Thrice(n: nat, k: nat)
    ensures n * (3 * k) == 3 * (n * k)
  {
  }

  lemma Scaled(a: nat, b: nat, n: nat)
    requires a <= b
    ensures n * a <= n * b
  {
  }

  /** When the buffer is full nothing of any pane is written, until the client has read. */
  lemma FullBufferWaits(s: State, now: nat, gone: set<PaneId>, p: PaneId)
    requires Inv(s) && s.outLen >= 8192
    ensures var t := Callback(s, now, gone);
            && Queued(t.all, p) == Queued(s.all, p) && t.panes == s.panes
            && forall k: nat :: |s.out| <= k < |t.out| ==> t.out[k].Wrote?
  {
    hide Inv, FlushLines, Queued;
    FlushOk(s);
    FlushFull(s);
    FlushKeeps(s, p, 0, 0);
  }

  lemma {:induction false} FlushFull(s: State)
    ensures var t := FlushLines(s);
            && t.outLen >= s.outLen && t.panes == s.panes && s.out <= t.out
            && forall k: nat :: |s.out| <= k < |t.out| ==> t.out[k].Wrote?
    decreases |s.all|
  {
    if s.all != [] && s.all[0].LineBlock? {
      FlushFull(FlushOne(s));
      var t := FlushLines(FlushOne(s));
      forall k: nat | |s.out| <= k < |t.out| ensures t.out[k].Wrote? {
        if k == |s.out| { assert t.out[k] == FlushOne(s).out[k]; }
      }
    }
  }

  /** The message under construction is dropped with the pane: as long as no line waits in the queue, a pane that
    * is given up sends nothing more. */
  lemma {:induction false} GivenUpSendsNothing(s: State, p: PaneId, now: nat, limit: nat, used: nat, held: Held)
    requires Core(s, held) && GuardOk(s) && p in s.panes && used <= limit && !s.fatal && LinesIn(s.all) == []
    requires held.Held? ==> held.message.Message? && held.message.pane == p
    requires Late(s.all, p, now, Age(s), limit - used)
    ensures NoMessages(s, WriteChunks(s, p, now, limit, used, held))
    decreases limit - used, |s.all|
  {
    hide Core, GuardOk, Ids, First, Aged, TooOld, Chunk, Late, Quiet, WriteChunks, Stream, Age, Old, LinesIn, Length;
    if used == limit {
      NoRoom(s.all, p, now, Age(s));
    } else if Ids(s.all, p) == [] {
      NoBlocksNotLate(s.all, p, now, Age(s), limit - used);
    } else {
      ChunksTurn(s, p, now, limit, used, held);
      SomeBytes(s, p, held);
      if TooOld(s, p, now) {
        AgedNoMessages(s, p);
      } else {
        var size := Least(First(s.all, p).size, limit - used);
        if s.panes[p].offset + size > |Stream(s, p)| {
          StopNoMessages(s);
        } else {
          ChunkOk(s, p, now, size, held);
          ChunkQuiet(s, p, now, size, held, limit - used);
          ChunkHolds(s, p, now, size, held);
          var n := Chunk(s, p, now, size, held);
          QuietAge(s, n.0);
          GivenUpSendsNothing(n.0, p, now, limit, used + size, n.1);
        }
      }
    }
  }

  lemma StopNoMessages(s: State)
    ensures NoMessages(s, s.(fatal := true))
  {
  }

  lemma ChunkHolds(s: State, p: PaneId, now: nat, size: nat, held: Held)
    requires p in s.panes && Ids(s.all, p) != [] && size <= First(s.all, p).size && LinesIn(s.all) == []
    requires s.panes[p].offset + size <= |Stream(s, p)| && (held.Held? ==> held.message.Message?)
    ensures var t := Chunk(s, p, now, size, held).0;
            && t.out == s.out && t.outLen == s.outLen && t.pauseAfter == s.pauseAfter && t.replyBytes == s.replyBytes
            && LinesIn(t.all) == []
  {
    hide Ids, First, Extend, Stream, FlushLines, TakeFrom;
    TakeFacts(s.all, p, size, p);
    var taken := TakeFrom(s.all, p, size);
    if taken != [] && taken[0].LineBlock? { DropLine(taken, p); }
  }
}
