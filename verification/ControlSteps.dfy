/** Every step of the control engine keeps the invariant. */
module ControlSteps {
  import opened Bytes
  import opened ControlOutput
  import opened ControlModel
  import opened ControlQueue
  import opened ControlInvariant

  // ---- Lines at the head of the queue ----

  lemma FlushOneOk(s: State)
    requires Core(s, Nothing) && s.all != [] && s.all[0].LineBlock?
    ensures Core(FlushOne(s), Nothing) && LineStep(s, FlushOne(s)) && SameGuards(s, FlushOne(s))
  {
    hide Seen, OutOrder, LastLine, LinesOut, PanesOk, PendingOk, Ids, Queued;
    var line, rest := s.all[0].line, s.all[1..];
    forall p ensures Ids(rest, p) == Ids(s.all, p) && Queued(rest, p) == Queued(s.all, p) { DropLine(s.all, p); }
    DropLine(s.all, 0);
    assert LinesOut(s.out) + ([line] + LinesIn(rest)) == LinesOut(s.out) + [line] + LinesIn(rest);
    LineSentOk(s, line, rest, s.accepted, ReplyBytes(rest), s.nextId);
    FlushOneIs(s);
  }

  /** The subtraction never saturates unless the queue runs empty. */
  lemma FlushOneIs(s: State)
    requires s.all != [] && s.all[0].LineBlock? && s.replyBytes == |s.all[0].line.text| + 1 + ReplyBytes(s.all[1..])
    ensures FlushOne(s) == LineSent(s, s.all[0].line, s.all[1..], s.accepted, ReplyBytes(s.all[1..]), s.nextId)
    ensures SameGuards(s, FlushOne(s))
  {
  }

  lemma StepTrans(r: State, s: State, t: State)
    requires LineStep(r, s) && LineStep(s, t)
    ensures LineStep(r, t)
  {
  }

  lemma {:induction false} FlushLinesOk(s: State)
    requires Core(s, Nothing)
    ensures var t := FlushLines(s); Core(t, Nothing) && LineStep(s, t) && SameGuards(s, t)
    ensures FlushLines(s).all == [] || FlushLines(s).all[0].OutputBlock?
    decreases |s.all|
  {
    hide Core, LineStep, FlushOne;
    if s.all == [] || s.all[0].OutputBlock? {
      StepSelf(s);
    } else {
      FlushOneOk(s);
      FlushOneShorter(s);
      FlushLinesOk(FlushOne(s));
      StepTrans(s, FlushOne(s), FlushLines(FlushOne(s)));
    }
  }

  lemma FlushOneShorter(s: State)
    requires s.all != [] && s.all[0].LineBlock?
    ensures FlushOne(s).all == s.all[1..]
  {
  }

  // ---- Guard blocks and notifications ----

  lemma SetGuards(s: State, depth: nat, deferred: seq<seq<Byte>>, asked: seq<seq<Byte>>)
    requires Core(s, Nothing)
    ensures var t := s.(guardDepth := depth, deferred := deferred, asked := asked);
            Core(t, Nothing) && LineStep(s, t)
  {
    hide Live, Sorted, OutOrder, LastLine, LinesOut, LinesIn, Ids, Queued, Seen, ReplyBytes, OutputBytes;
    var t := s.(guardDepth := depth, deferred := deferred, asked := asked);
    SameActive(s, t);
    SamePanes(s, Nothing, t, Nothing);
  }

  lemma LinesMore(lines: seq<Line>, line: Line)
    ensures (lines + [line])[..|lines|] == lines
    ensures Guarded(lines + [line]) <==> Guarded(lines) && (line.kind.Notify? ==> Depth(lines) == 0)
    ensures Notifications(lines + [line]) == Notifications(lines) + if line.kind.Notify? then [line.text] else []
    ensures Depth(lines + [line]) == match line.kind
                                     case Begin => Depth(lines) + 1
                                     case Close => if Depth(lines) == 0 then 0 else Depth(lines) - 1
                                     case _ => Depth(lines)
  {
    assert (lines + [line])[..|lines|] == lines;
  }

  /** A notification that is written at once. */
  lemma NotifyGuards(s: State, t: State, text: seq<Byte>)
    requires Guarded(s.accepted) && s.guardDepth == 0
    requires s.discard || (Depth(s.accepted) == 0 && Notifications(s.accepted) + ([text] + s.deferred) == s.asked)
    requires Accepts(s, t, Notify, text)
    ensures Guarded(t.accepted)
    ensures t.discard || (Depth(t.accepted) == 0 && Notifications(t.accepted) + t.deferred == t.asked)
  {
    LinesMore(s.accepted, Line(s.nextId, Notify, text));
    assert Notifications(s.accepted) + ([text] + s.deferred) == Notifications(s.accepted) + [text] + s.deferred;
  }

  lemma NotifyOk(s: State, text: seq<Byte>)
    requires Inv(s)
    ensures Inv(NotifyLine(s, text)) && LineStep(s, NotifyLine(s, text))
  {
    hide Core, LineStep, WriteLine, Guarded, Depth, Notifications;
    var asked := s.asked + [text];
    if s.guardDepth == 0 {
      var s' := s.(asked := asked);
      SetGuards(s, s.guardDepth, s.deferred, asked);
      assert s.(guardDepth := s.guardDepth, deferred := s.deferred, asked := asked) == s';
      WriteLineOk(s', Notify, text);
      assert Notifications(s.accepted) + [] + [text] == Notifications(s.accepted) + ([text] + []);
      NotifyGuards(s', WriteLine(s', Notify, text), text);
      StepTrans(s, s', WriteLine(s', Notify, text));
    } else {
      SetGuards(s, s.guardDepth, s.deferred + [text], asked);
      assert Notifications(s.accepted) + s.deferred + [text] == Notifications(s.accepted) + (s.deferred + [text]);
    }
  }

  /** A reply line. */
  lemma ReplyOk(s: State, text: seq<Byte>)
    requires Inv(s)
    ensures Inv(WriteLine(s, Reply, text))
  {
    hide Core, LineStep, WriteLine, Guarded, Depth, Notifications;
    WriteLineOk(s, Reply, text);
    LinesMore(s.accepted, Line(s.nextId, Reply, text));
    assert Notifications(s.accepted) + [] == Notifications(s.accepted);
  }

  predicate NotifyLines(lines: seq<Line>, texts: seq<seq<Byte>>) {
    |lines| == |texts| && forall i :: 0 <= i < |lines| ==> lines[i].kind == Notify && lines[i].text == texts[i]
  }

  /** Deferred notifications come out in order, at once. */
  lemma {:induction false} FlushDeferredOk(s: State)
    requires Core(s, Nothing) && Guarded(s.accepted) && s.guardDepth == 0
    requires s.discard || (Depth(s.accepted) == 0 && Notifications(s.accepted) + s.deferred == s.asked)
    ensures Inv(FlushDeferred(s)) && FlushDeferred(s).deferred == [] && (s.discard ==> FlushDeferred(s).discard)
    ensures LineStep(s, FlushDeferred(s))
    ensures !FlushDeferred(s).discard ==>
              |s.accepted| <= |FlushDeferred(s).accepted|
              && FlushDeferred(s).accepted[..|s.accepted|] == s.accepted
              && NotifyLines(FlushDeferred(s).accepted[|s.accepted|..], s.deferred)
    decreases |s.deferred|
  {
    hide Core, LineStep, WriteLine, Guarded, Depth, Notifications;
    if s.deferred == [] {
      StepSelf(s);
    } else {
      var text, rest := s.deferred[0], s.deferred[1..];
      var s' := s.(deferred := rest);
      SetGuards(s, s.guardDepth, rest, s.asked);
      assert s.(guardDepth := s.guardDepth, deferred := rest, asked := s.asked) == s';
      WriteLineOk(s', Notify, text);
      assert [text] + rest == s.deferred;
      NotifyGuards(s', WriteLine(s', Notify, text), text);
      FlushDeferredOk(WriteLine(s', Notify, text));
      StepTrans(s, s', WriteLine(s', Notify, text));
      StepTrans(s, WriteLine(s', Notify, text), FlushDeferred(WriteLine(s', Notify, text)));
    }
  }

  lemma GuardBegin(s: State, text: seq<Byte>)
    requires Inv(s)
    ensures Inv(Guard(s, true, text)) && LineStep(s, Guard(s, true, text))
  {
    hide Core, LineStep, WriteLine, Guarded, Depth, Notifications;
    var s' := s.(guardDepth := s.guardDepth + 1);
    SetGuards(s, s.guardDepth + 1, s.deferred, s.asked);
    assert s.(guardDepth := s.guardDepth + 1, deferred := s.deferred, asked := s.asked) == s';
    WriteLineOk(s', Begin, text);
    StepTrans(s, s', WriteLine(s', Begin, text));
    LinesMore(s.accepted, Line(s.nextId, Begin, text));
    assert Notifications(s.accepted) + [] == Notifications(s.accepted);
  }

  /** The guard that closes the outermost block is followed at once by the deferred notifications. */
  lemma GuardClose(s: State, text: seq<Byte>)
    requires Inv(s)
    ensures Inv(Guard(s, false, text)) && LineStep(s, Guard(s, false, text))
    ensures !Guard(s, false, text).discard && s.guardDepth == 1 ==>
              var n, lines := |s.accepted|, Guard(s, false, text).accepted;
              n < |lines| && lines[..n] == s.accepted && lines[n] == Line(s.nextId, Close, text)
              && NotifyLines(lines[n + 1..], s.deferred) && Guard(s, false, text).deferred == []
  {
    hide Core, LineStep, WriteLine, Guarded, Depth, Notifications;
    var s1 := WriteLine(s, Close, text);
    WriteLineOk(s, Close, text);
    LinesMore(s.accepted, Line(s.nextId, Close, text));
    assert Notifications(s.accepted) + [] == Notifications(s.accepted);
    if s.guardDepth > 0 {
      var s2 := s1.(guardDepth := s1.guardDepth - 1);
      SetGuards(s1, s1.guardDepth - 1, s1.deferred, s1.asked);
      assert s1.(guardDepth := s1.guardDepth - 1, deferred := s1.deferred, asked := s1.asked) == s2;
      StepTrans(s, s1, s2);
      if s2.guardDepth == 0 {
        FlushDeferredOk(s2);
        StepTrans(s, s2, FlushDeferred(s2));
        if !FlushDeferred(s2).discard {
          var n, lines := |s.accepted|, FlushDeferred(s2).accepted;
          assert lines[..n + 1] == s.accepted + [Line(s.nextId, Close, text)];
          assert lines[..n] == lines[..n + 1][..n] && lines[n] == lines[..n + 1][n];
        }
      }
    }
  }

  // ---- Pane commands ----

  lemma SameGuardsOk(s: State, t: State)
    requires GuardOk(s) && SameGuards(s, t)
    ensures GuardOk(t)
  {
  }

  /** The pane has no blocks left, and no output was added. */
  predicate Dropped(s: State, t: State, p: PaneId) {
    && Ids(t.all, p) == [] && OutputBytes(t.all) <= OutputBytes(s.all) && p in t.panes
    && t.pendingList == s.pendingList && t.streams == s.streams && t.fatal == s.fatal
    && (t.exit && !s.exit ==> OutputBytes(t.all) == 0) && (s.exit ==> t.exit)
  }

  /** A pane is paused: what it had queued, and the message under construction, are dropped. */
  lemma DoPauseOk(s: State, p: PaneId, held: Held)
    requires Core(s, held) && GuardOk(s) && p in s.panes && (held.Held? ==> held.message.pane == p)
    ensures Inv(DoPause(s, p)) && Dropped(s, DoPause(s, p), p)
  {
    hide Core, GuardOk, DiscardPane, NotifyLine, OutputBytes, Ids;
    var s1 := DiscardPane(s, p);
    DiscardOk(s, p, held);
    DiscardShrinks(s, p);
    var pane := s1.panes[p].(paused := true);
    var s2 := s1.(panes := s1.panes[p := pane]);
    Paused(s1, p, pane, held);
    SameGuardsOk(s, s2);
    NotifyOk(s2, PAUSE + Decimal(p));
  }

  lemma DiscardShrinks(s: State, p: PaneId)
    requires p in s.panes
    ensures Dropped(s, DiscardPane(s, p), p) && DiscardPane(s, p).panes[p].pending == s.panes[p].pending
  {
    hide Without, OutputBytes;
    WithoutFacts(s.all, p, p);
  }

  lemma Paused(s: State, p: PaneId, pane: Pane, held: Held)
    requires Core(s, held) && p in s.panes && Ids(s.all, p) == [] && (held.Held? ==> held.message.pane == p)
    requires !Active(pane) && pane.pending == s.panes[p].pending && pane.startOut == s.panes[p].startOut
    requires pane.offset == s.panes[p].offset
    ensures Core(s.(panes := s.panes[p := pane]), Nothing)
  {
    hide QueueOk, PendingOk, Tracked;
    assert PaneOk(s, p, held);
    SetPane(s, held, p, pane, Nothing);
  }

  lemma AgedOk(s: State, p: PaneId, held: Held)
    requires Core(s, held) && GuardOk(s) && p in s.panes && (held.Held? ==> held.message.pane == p)
    ensures Inv(Aged(s, p)) && Dropped(s, Aged(s, p), p)
  {
    hide Core, DoPause, GuardOk, OutputBytes, Ids, OnlyLines;
    if s.pauseAfter {
      DoPauseOk(s, p, held);
    } else {
      ExitOk(s, held);
      OnlyLinesFacts(s.all, p);
      SameGuardsOk(s, Aged(s, p));
    }
  }

  lemma SetOffOk(s: State, p: PaneId)
    requires Inv(s)
    ensures Inv(SetOff(s, p))
  {
    hide Core, GuardOk, DiscardPane, AddPane, Sync, Ids;
    var s1 := AddPane(s, p);
    AddPaneOk(s, p);
    var s2 := DiscardPane(s1, p);
    DiscardOk(s1, p, Nothing);
    var s3 := Sync(s2, p);
    SyncOk(s2, p);
    SyncFields(s2, p);
    Paused(s3, p, s3.panes[p].(off := true), Nothing);
    SameGuardsOk(s, SetOff(s, p));
  }

  lemma SyncFields(s: State, p: PaneId)
    requires p in s.panes
    ensures Sync(s, p).all == s.all && p in Sync(s, p).panes
  {
  }

  lemma SetOnOk(s: State, p: PaneId)
    requires Inv(s)
    ensures Inv(SetOn(s, p))
  {
    if p in s.panes && s.panes[p].off {
      Restart(s, p, s.panes[p].(off := false));
    }
  }

  /** A pane that was off or paused starts again where the pane itself is. */
  lemma Restart(s: State, p: PaneId, pane: Pane)
    requires Inv(s) && p in s.panes && !Active(s.panes[p]) && pane.pending == s.panes[p].pending
    ensures var t := Sync(s.(panes := s.panes[p := pane]), p); Inv(t)
  {
    hide Core, GuardOk;
    NoBlocks(s, p);
    OwnIn(s, p);
    StartPane(s, p, pane, Own(s, p));
    var t := Sync(s.(panes := s.panes[p := pane]), p);
    assert s.panes[p := pane][p := Started(s, pane, Own(s, p))] == s.panes[p := Started(s, pane, Own(s, p))];
    assert t == s.(panes := s.panes[p := Started(s, pane, Own(s, p))]);
    SameGuardsOk(s, t);
  }

  lemma OwnIn(s: State, p: PaneId)
    requires Core(s, Nothing)
    ensures Own(s, p) <= |Stream(s, p)|
  {
  }

  lemma NoBlocks(s: State, p: PaneId)
    requires Core(s, Nothing) && !(p in s.panes && Active(s.panes[p]))
    ensures Ids(s.all, p) == []
  {
    if Ids(s.all, p) != [] { BlocksLive(s.all, ActivePanes(s), p); }
  }

  lemma PausePaneOk(s: State, p: PaneId)
    requires Inv(s)
    ensures Inv(PausePane(s, p))
  {
    hide Core, GuardOk, AddPane, DoPause;
    AddPaneOk(s, p);
    SameGuardsOk(s, AddPane(s, p));
    if !AddPane(s, p).panes[p].paused { DoPauseOk(AddPane(s, p), p, Nothing); }
  }

  lemma ContinuePaneOk(s: State, p: PaneId)
    requires Inv(s)
    ensures Inv(ContinuePane(s, p))
  {
    hide Inv, NotifyLine, Sync;
    if p in s.panes && s.panes[p].paused {
      var pane := s.panes[p].(paused := false);
      Restart(s, p, pane);
      NotifyOk(Sync(s.(panes := s.panes[p := pane]), p), CONTINUE + Decimal(p));
    }
  }

  /** The pane's buffer is replaced by an empty one. */
  lemma ResetPaneOk(s: State, p: PaneId)
    requires Inv(s)
    ensures Inv(ResetPane(s, p))
  {
    hide Core, GuardOk, ResetPane, DiscardPane;
    ResetIs(s, p);
    if p in s.panes {
      DiscardOk(s, p, Nothing);
      DiscardShrinks(s, p);
      NewStream(DiscardPane(s, p), p, Started(DiscardPane(s, p), DiscardPane(s, p).panes[p], 0));
      SameGuardsOk(s, DiscardPane(s, p));
      SameGuardsOk(DiscardPane(s, p), ResetPane(s, p));
    } else {
      NoStream(s, p);
      SameGuardsOk(s, ResetPane(s, p));
    }
  }

  /** It makes no difference whether the buffer is replaced before or after the blocks are dropped. */
  lemma ResetIs(s: State, p: PaneId)
    ensures p in s.panes ==>
              var s1 := DiscardPane(s, p);
              ResetPane(s, p) == s1.(panes := s1.panes[p := Started(s1, s1.panes[p], 0)],
                                     streams := s1.streams[p := []], own := s1.own[p := 0])
    ensures p !in s.panes ==> ResetPane(s, p) == s.(streams := s.streams[p := []], own := s.own[p := 0])
    ensures p in s.panes ==> DiscardPane(s, p).streams == s.streams && p in DiscardPane(s, p).panes
  {
    hide Without, Queued;
    if p in s.panes {
      var s0 := s.(streams := s.streams[p := []], own := s.own[p := 0]);
      DiscardIs(s0, p);
      DiscardIs(s, p);
      SyncIs(DiscardPane(s0, p), p);
    }
  }

  lemma DiscardIs(s: State, p: PaneId)
    requires p in s.panes
    ensures DiscardPane(s, p)
         == s.(all := Without(s.all, p), panes := s.panes[p := s.panes[p].(lost := s.panes[p].lost + Queued(s.all, p))])
  {
  }

  lemma SyncIs(s: State, p: PaneId)
    requires p in s.panes
    ensures Sync(s, p) == s.(panes := s.panes[p := Started(s, s.panes[p], Own(s, p))])
  {
  }

  lemma NewStream(s: State, p: PaneId, pane: Pane)
    requires Core(s, Nothing) && p in s.panes && Ids(s.all, p) == [] && pane == Started(s, s.panes[p], 0)
    ensures Core(s.(panes := s.panes[p := pane], streams := s.streams[p := []], own := s.own[p := 0]), Nothing)
  {
    hide QueueOk, PendingOk, PanesOk, Ids, Queued;
    StartPane(s, p, s.panes[p], 0);
    var s1 := s.(panes := s.panes[p := pane]);
    var t := s1.(streams := s.streams[p := []], own := s.own[p := 0]);
    QueuedIsPart(s.all, p);
    assert PaneOk(t, p, Nothing);
    OtherStreams(s1, p, t);
  }

  lemma NoStream(s: State, p: PaneId)
    requires Core(s, Nothing) && p !in s.panes
    ensures Core(s.(streams := s.streams[p := []], own := s.own[p := 0]), Nothing)
  {
    OtherStreams(s, p, s.(streams := s.streams[p := []], own := s.own[p := 0]));
  }

  /** Only the stream of `p` and where the pane itself is in it change. */
  lemma OtherStreams(s: State, p: PaneId, t: State)
    requires Core(s, Nothing) && t == s.(streams := t.streams, own := t.own)
    requires forall q :: q != p ==> Stream(t, q) == Stream(s, q) && Own(t, q) == Own(s, q)
    requires Own(t, p) <= |Stream(t, p)| && (p in s.panes ==> PaneOk(t, p, Nothing))
    ensures Core(t, Nothing)
  {
    hide Live, Sorted, OutOrder, LastLine, LinesOut, LinesIn, Ids, Queued, Seen, ReplyBytes, OutputBytes;
    SameActive(s, t);
    forall q | q in t.panes ensures PaneOk(t, q, Nothing) {
      assert PaneOk(s, q, Nothing);
    }
    forall q ensures Own(t, q) <= |Stream(t, q)| { assert Own(s, q) <= |Stream(s, q)|; }
  }

  function Append(s: State, p: PaneId, data: seq<Byte>): State {
    s.(streams := s.streams[p := Stream(s, p) + data])
  }

  lemma AppendOk(s: State, p: PaneId, data: seq<Byte>)
    requires Inv(s)
    ensures Inv(Append(s, p, data))
  {
    hide QueueOk, PendingOk, Seen, Queued, Guarded, Depth, Notifications;
    var t := Append(s, p, data);
    assert Own(s, p) <= |Stream(s, p)|;
    if p in s.panes {
      assert PaneOk(s, p, Nothing);
      var pane := s.panes[p];
      if pane.start <= pane.offset <= |Stream(s, p)| {
        assert Stream(t, p)[pane.start..pane.offset] == Stream(s, p)[pane.start..pane.offset];
      }
      assert PaneOk(t, p, Nothing);
    }
    OtherStreams(s, p, t);
  }

  /** The pane itself has used its output up to `at`. */
  function MoveOwn(s: State, p: PaneId, at: nat): State {
    if Own(s, p) <= at <= |Stream(s, p)| then s.(own := s.own[p := at]) else s
  }

  lemma MoveOwnOk(s: State, p: PaneId, at: nat)
    requires Inv(s)
    ensures Inv(MoveOwn(s, p, at))
  {
    hide QueueOk, PendingOk, Seen, Queued, Guarded, Depth, Notifications;
    var t := MoveOwn(s, p, at);
    if t != s {
      if p in s.panes { assert PaneOk(s, p, Nothing); assert PaneOk(t, p, Nothing); }
      OtherStreams(s, p, t);
    }
  }

  /** The flag that stops all output is changed. */
  lemma SetNoOutputOk(s: State, noOutput: bool)
    requires Inv(s)
    ensures Inv(SetNoOutput(s, noOutput))
  {
    hide Seen, LinesOut, OutOrder, LastLine, Live, Sorted, Ids, Queued, LinesIn, ReplyBytes, OutputBytes, OnlyLines,
      Guarded, Depth, Notifications;
    var t := SetNoOutput(s, noOutput);
    OnlyLinesOk(s.all, LastLine(s.out), s.nextId, ActivePanes(t));
    OnlyLinesFacts(s.all, 0);
    forall q ensures Ids(t.all, q) == [] { OnlyLinesFacts(s.all, q); }
    forall q ensures Own(t, q) <= |Stream(t, q)| { assert Own(s, q) <= |Stream(s, q)|; }
  }

  // ---- New output ----

  lemma WriteOutputOk(s: State, p: PaneId, now: nat)
    requires Inv(s)
    ensures Inv(WriteOutput(s, p, now))
  {
    hide Core, GuardOk, AddPane, Ignore, Aged, TooOld, Enqueue;
    if s.noOutput || s.exit {
      if p in s.panes {
        IgnoreOk(s, p);
        SameGuardsOk(s, Ignore(s, p));
      }
    } else {
      var s1 := AddPane(s, p);
      AddPaneOk(s, p);
      AddPaneFields(s, p);
      SameGuardsOk(s, s1);
      if s1.panes[p].off || s1.panes[p].paused {
        IgnoreOk(s1, p);
        SameGuardsOk(s1, Ignore(s1, p));
      } else if TooOld(s1, p, now) {
        AgedOk(s1, p, Nothing);
      } else if |Stream(s1, p)| > s1.panes[p].queued {
        EnqueueOk(s1, p, now);
        SameGuardsOk(s1, Enqueue(s1, p, now));
      }
    }
  }

  lemma AddPaneFields(s: State, p: PaneId)
    ensures AddPane(s, p).exit == s.exit && AddPane(s, p).noOutput == s.noOutput
  {
  }

  /** New bytes are queued at the end. */
  lemma EnqueueOk(s: State, p: PaneId, now: nat)
    requires Core(s, Nothing) && p in s.panes && Active(s.panes[p]) && !s.exit && !s.noOutput
    requires |Stream(s, p)| > s.panes[p].queued
    ensures Core(Enqueue(s, p, now), Nothing) && SameGuards(s, Enqueue(s, p, now))
  {
    hide LinesOut, OutOrder, LastLine, Live, Sorted, Queued, LinesIn, ReplyBytes, OutputBytes, QueueOk, PendingOk, PanesOk;
    EnqueueQueueOk(s, p, now);
    EnqueuePendingOk(s, p, now);
    EnqueuePanesOk(s, p, now);
  }

  lemma EnqueueQueueOk(s: State, p: PaneId, now: nat)
    requires QueueOk(s) && p in s.panes && Active(s.panes[p]) && !s.noOutput && |Stream(s, p)| > s.panes[p].queued
    ensures QueueOk(Enqueue(s, p, now))
  {
    hide LinesOut, OutOrder, LastLine, Live, Sorted, Queued, LinesIn, ReplyBytes, OutputBytes;
    var t := Enqueue(s, p, now);
    var block := OutputBlock(s.nextId, p, |Stream(s, p)| - s.panes[p].queued, now);
    AddLastOk(s.all, block, LastLine(s.out), s.nextId, ActivePanes(s));
    AddLast(s.all, block, p);
    assert ActivePanes(t) == ActivePanes(s);
    assert LinesIn(s.all) + [] == LinesIn(s.all);
  }

  lemma EnqueuePendingOk(s: State, p: PaneId, now: nat)
    requires PendingOk(s) && p in s.panes && |Stream(s, p)| > s.panes[p].queued
    ensures PendingOk(Enqueue(s, p, now))
  {
    hide Ids;
    var t := Enqueue(s, p, now);
    var block := OutputBlock(s.nextId, p, |Stream(s, p)| - s.panes[p].queued, now);
    forall q ensures q != p && Ids(t.all, q) != [] ==> Ids(s.all, q) != [] { AddLast(s.all, block, q); }
    assert p in t.pendingList;
  }

  lemma EnqueuePanesOk(s: State, p: PaneId, now: nat)
    requires PanesOk(s, Nothing) && p in s.panes && |Stream(s, p)| > s.panes[p].queued
    ensures PanesOk(Enqueue(s, p, now), Nothing)
  {
    hide Seen, Queued;
    var t := Enqueue(s, p, now);
    var block := OutputBlock(s.nextId, p, |Stream(s, p)| - s.panes[p].queued, now);
    forall q | q in t.panes ensures PaneOk(t, q, Nothing) {
      assert PaneOk(s, q, Nothing);
      AddLast(s.all, block, q);
    }
    forall q ensures Own(t, q) <= |Stream(t, q)| { assert Own(s, q) <= |Stream(s, q)|; }
  }
}
