/** Which runs leave a pane short of data, and which lose its account. */
module ControlAccounts {
  import opened Bytes
  import opened ControlOutput
  import opened ControlModel
  import opened ControlQueue
  import opened ControlInvariant
  import opened ControlSteps
  import opened ControlWriter
  import opened ControlRun
  import opened ControlShortage

  // ---- What an event does to one pane ----

  /** The event starts the pane anew at some place of its stream, or makes the client forget it. */
  predicate Starts(s: State, e: Event, p: PaneId) {
    match e
    case Output(q, now) =>
      q == p && if s.noOutput || s.exit then p in s.panes else p !in s.panes || !Active(s.panes[p])
    case PaneReset(q) => q == p && p in s.panes
    case PaneOff(q) => q == p
    case PaneOn(q) => q == p && p in s.panes && s.panes[p].off
    case PanePause(q) => q == p && p !in s.panes
    case PaneContinue(q) => q == p && p in s.panes && s.panes[p].paused
    case NoOutputFlag(noOutput) => true
    case _ => false
  }

  /** The writer finds the pane gone and drops its blocks. */
  predicate Drops(s: State, e: Event, t: State, p: PaneId) {
    e.Writable? && p in e.gone && Queued(s.all, p) > 0 && Queued(t.all, p) == 0
  }

  function Minus(a: nat, b: nat): nat {
    if a > b then a - b else 0
  }

  /** By how many bytes the queue promises more than the stream holds. */
  function Over(s: State, p: PaneId): nat {
    Minus(Owed(s, p), |Stream(s, p)|)
  }

  /** What an event makes of it: output of an exiting client is ignored, so all that is queued lies beyond the
    * stream; new data make up for it; and it is gone with the last block. */
  function NextDebt(s: State, e: Event, t: State, p: PaneId, debt: nat): nat {
    if Queued(t.all, p) == 0 then 0
    else if e.Output? && e.pane == p && s.exit then Queued(s.all, p)
    else if e.PaneData? && e.pane == p then Minus(debt, |e.data|)
    else debt
  }

  /** What one event does to the pane's account. */
  predicate EventOk(s: State, e: Event, t: State, p: PaneId) {
    && (s.exit ==> t.exit) && Over(t, p) == NextDebt(s, e, t, p, Over(s, p))
    && (p in t.panes && Active(t.panes[p]) && !t.exit ==>
          if Starts(s, e, p) then t.panes[p].lost == 0
          else
            && p in s.panes && Active(s.panes[p])
            && if Drops(s, e, t, p) then t.panes[p].lost > 0 else t.panes[p].lost == s.panes[p].lost)
    && (!e.ExitFlag? && t.exit && (s.exit ==> Queued(s.all, p) == 0) ==> Queued(t.all, p) == 0)
  }

  /** A step that is not about the pane. */
  lemma StepEvent(s: State, e: Event, t: State, p: PaneId)
    requires Inv(s) && Inv(t) && !Starts(s, e, p)
    requires !(e.Output? && e.pane == p && s.exit) && !(e.PaneData? && e.pane == p)
    requires PaneStep(s, t, p, if e.Writable? then e.gone else {})
    ensures EventOk(s, e, t, p)
  {
    hide Core, GuardOk, Queued, Stream, Starts;
    OverIs(t, p);
  }

  lemma OverIs(s: State, p: PaneId)
    requires Inv(s)
    ensures Queued(s.all, p) == 0 ==> Over(s, p) == 0
    ensures Queued(s.all, p) > 0 ==> p in s.panes && Active(s.panes[p])
    ensures !s.exit ==> Over(s, p) == 0
  {
    hide QueueOk, PendingOk, GuardOk, Queued;
    if !(p in s.panes && Active(s.panes[p])) { NoneQueued(s, p); }
    if p in s.panes { assert PaneOk(s, p, Nothing); }
  }

  /** A step that starts the pane with nothing queued, or leaves it inactive or forgotten. */
  lemma StartEvent(s: State, e: Event, t: State, p: PaneId)
    requires Inv(s) && Inv(t) && (s.exit ==> t.exit) && Queued(t.all, p) == 0
    requires p in t.panes && Active(t.panes[p]) && !t.exit ==> Starts(s, e, p) && t.panes[p].lost == 0
    ensures EventOk(s, e, t, p)
  {
    hide Inv, Queued, Stream, Starts;
    OverIs(t, p);
  }

  // ---- The events one by one ----

  lemma DataEvent(s: State, q: PaneId, data: seq<Byte>, p: PaneId)
    requires Inv(s) && Inv(Append(s, q, data))
    ensures EventOk(s, PaneData(q, data), Append(s, q, data), p)
  {
    hide Core, GuardOk, Queued;
    var t := Append(s, q, data);
    OverIs(t, p);
    if q != p { SamePane(s, t, p, {}); StepEvent(s, PaneData(q, data), t, p); }
  }

  lemma UsedEvent(s: State, q: PaneId, at: nat, p: PaneId)
    requires Inv(s) && Inv(MoveOwn(s, q, at))
    ensures EventOk(s, PaneUsed(q, at), MoveOwn(s, q, at), p)
  {
    hide Inv, Queued;
    SamePane(s, MoveOwn(s, q, at), p, {});
    StepEvent(s, PaneUsed(q, at), MoveOwn(s, q, at), p);
  }

  lemma ResetEvent(s: State, q: PaneId, p: PaneId)
    requires Inv(s) && Inv(ResetPane(s, q))
    ensures EventOk(s, PaneReset(q), ResetPane(s, q), p)
  {
    hide Inv, Queued, ResetPane, Without, PaneStep;
    var t := ResetPane(s, q);
    ResetIs(s, q);
    if q in s.panes { WithoutFacts(s.all, q, p); }
    if q == p {
      if p !in s.panes { NoneQueued(s, p); }
      StartEvent(s, PaneReset(q), t, p);
    } else {
      ResetOther(s, q, p);
      StepEvent(s, PaneReset(q), t, p);
    }
  }

  lemma ResetOther(s: State, q: PaneId, p: PaneId)
    requires p != q
    ensures PaneStep(s, ResetPane(s, q), p, {})
  {
    hide Queued, ResetPane, Without;
    ResetIs(s, q);
    if q in s.panes { WithoutFacts(s.all, q, p); }
    SamePane(s, ResetPane(s, q), p, {});
  }

  lemma LineEvent(s: State, e: Event, t: State, p: PaneId)
    requires Inv(s) && Inv(t) && LineStep(s, t)
    requires e.ReplyLine? || e.Notification? || e.GuardLine?
    ensures EventOk(s, e, t, p)
  {
    hide Inv, LineStep, PaneStep, EventOk;
    LinePane(s, t, p, {});
    StepEvent(s, e, t, p);
  }

  // ---- Pane commands ----

  lemma AddPaneStep(s: State, q: PaneId, p: PaneId)
    requires q != p || q in s.panes
    ensures PaneStep(s, AddPane(s, q), p, {})
  {
    hide Queued;
    SamePane(s, AddPane(s, q), p, {});
  }

  lemma SyncStep(s: State, q: PaneId, p: PaneId)
    requires q in s.panes && q != p
    ensures PaneStep(s, Sync(s, q), p, {}) && PaneStep(s, Ignore(s, q), p, {})
  {
    hide Queued;
    SamePane(s, Sync(s, q), p, {});
    SamePane(s, Ignore(s, q), p, {});
  }

  lemma SetOffOther(s: State, q: PaneId, p: PaneId)
    requires q != p
    ensures PaneStep(s, SetOff(s, q), p, {})
  {
    hide Queued, Without, AddPane, DiscardPane, Sync, PaneStep;
    var s1 := AddPane(s, q);
    InAdded(s, q);
    AddPaneStep(s, q, p);
    var s2 := DiscardPane(s1, q);
    DiscardPaneStep(s1, q, p, {});
    DiscardShrinks(s1, q);
    PaneTrans(s, s1, s2, p, {});
    var s3 := Sync(s2, q);
    SyncStep(s2, q, p);
    SyncFields(s2, q);
    PaneTrans(s, s2, s3, p, {});
    SamePane(s3, SetOff(s, q), p, {});
    PaneTrans(s, s3, SetOff(s, q), p, {});
  }

  lemma InAdded(s: State, q: PaneId)
    ensures q in AddPane(s, q).panes && AddPane(s, q).exit == s.exit
    ensures q !in s.panes ==> AddPane(s, q).panes[q].lost == 0 && Active(AddPane(s, q).panes[q])
  {
  }

  lemma OffEvent(s: State, q: PaneId, p: PaneId)
    requires Inv(s) && Inv(SetOff(s, q))
    ensures EventOk(s, PaneOff(q), SetOff(s, q), p)
  {
    hide Inv, SetOff, PaneStep, Queued;
    var t := SetOff(s, q);
    if q == p {
      IsOff(s, p);
      NoneQueued(t, p);
      StartEvent(s, PaneOff(q), t, p);
    } else {
      SetOffOther(s, q, p);
      StepEvent(s, PaneOff(q), t, p);
    }
  }

  lemma IsOff(s: State, p: PaneId)
    ensures p in SetOff(s, p).panes && SetOff(s, p).panes[p].off && SetOff(s, p).exit == s.exit
  {
    hide Queued, Without;
  }

  lemma OnIs(s: State, q: PaneId)
    requires q in s.panes && s.panes[q].off
    ensures SetOn(s, q) == s.(panes := s.panes[q := Started(s, s.panes[q].(off := false), Own(s, q))])
  {
    var pane := s.panes[q].(off := false);
    assert s.panes[q := pane][q := Started(s, pane, Own(s, q))] == s.panes[q := Started(s, pane, Own(s, q))];
  }

  lemma OnFields(s: State, q: PaneId, p: PaneId)
    ensures q == p && p in s.panes && s.panes[p].off ==>
              var t := SetOn(s, q); t.all == s.all && t.exit == s.exit && p in t.panes && t.panes[p].lost == 0
    ensures !(q == p && p in s.panes && s.panes[p].off) ==> PaneStep(s, SetOn(s, q), p, {})
  {
    hide Queued, Own;
    if q in s.panes && s.panes[q].off {
      OnIs(s, q);
      hide SetOn;
      if q != p { SamePane(s, SetOn(s, q), p, {}); }
    } else {
      PaneSelf(s, p, {});
    }
  }

  lemma OnEvent(s: State, q: PaneId, p: PaneId)
    requires Inv(s) && Inv(SetOn(s, q))
    ensures EventOk(s, PaneOn(q), SetOn(s, q), p)
  {
    hide Inv, Queued, SetOn, PaneStep, EventOk;
    OnFields(s, q, p);
    if q == p && p in s.panes && s.panes[p].off {
      NoneQueued(s, p);
      StartEvent(s, PaneOn(q), SetOn(s, q), p);
    } else {
      StepEvent(s, PaneOn(q), SetOn(s, q), p);
    }
  }

  lemma PauseEvent(s: State, q: PaneId, p: PaneId)
    requires Inv(s) && Inv(PausePane(s, q))
    ensures EventOk(s, PanePause(q), PausePane(s, q), p)
  {
    hide Core, GuardOk, AddPane, DoPause, Queued, PaneStep, EventOk;
    var s1, t := AddPane(s, q), PausePane(s, q);
    InAdded(s, q);
    AddPaneOk(s, q);
    SameGuardsOk(s, s1);
    if q != p {
      AddPaneStep(s, q, p);
      if s1.panes[q].paused { PaneSelf(s1, p, {}); } else { DoPausePane(s1, q, Nothing, p, {}); }
      PaneTrans(s, s1, t, p, {});
      StepEvent(s, PanePause(q), t, p);
    } else {
      if !s1.panes[q].paused { IsPaused(s1, q); }
      NoneQueued(t, p);
      StartEvent(s, PanePause(q), t, p);
    }
  }

  lemma IsPaused(s: State, p: PaneId)
    requires Inv(s) && p in s.panes
    ensures p in DoPause(s, p).panes && DoPause(s, p).panes[p].paused && (s.exit ==> DoPause(s, p).exit)
  {
    hide Core, GuardOk, DiscardPane, NotifyLine, Ids, OutputBytes;
    var s1 := DiscardPane(s, p);
    DiscardOk(s, p, Nothing);
    DiscardShrinks(s, p);
    var pane := s1.panes[p].(paused := true);
    Paused(s1, p, pane, Nothing);
    SameGuardsOk(s, s1.(panes := s1.panes[p := pane]));
    NotifyOk(s1.(panes := s1.panes[p := pane]), PAUSE + Decimal(p));
  }

  lemma ContinueEvent(s: State, q: PaneId, p: PaneId)
    requires Inv(s) && Inv(ContinuePane(s, q))
    ensures EventOk(s, PaneContinue(q), ContinuePane(s, q), p)
  {
    hide Core, GuardOk, NotifyLine, Queued, PaneStep, EventOk, LineStep;
    var t := ContinuePane(s, q);
    if q in s.panes && s.panes[q].paused {
      var pane := s.panes[q].(paused := false);
      var s1 := Sync(s.(panes := s.panes[q := pane]), q);
      Restart(s, q, pane);
      NotifyOk(s1, CONTINUE + Decimal(q));
      LinePane(s1, t, p, {});
      if q == p {
        NoneQueued(s, p);
        ContinuedPane(s1, t, p);
        StartEvent(s, PaneContinue(q), t, p);
      } else {
        SamePane(s, s1, p, {});
        PaneTrans(s, s1, t, p, {});
        StepEvent(s, PaneContinue(q), t, p);
      }
    } else {
      PaneSelf(s, p, {});
      StepEvent(s, PaneContinue(q), t, p);
    }
  }

  lemma ContinuedPane(s: State, t: State, p: PaneId)
    requires LineStep(s, t) && PaneStep(s, t, p, {}) && p in s.panes
    ensures t.panes == s.panes && (Queued(s.all, p) == 0 ==> Queued(t.all, p) == 0) && (s.exit ==> t.exit)
  {
  }

  lemma FlagEvents(s: State, e: Event, t: State, p: PaneId)
    requires Inv(s) && Inv(t) && (e.PauseAfterFlag? || e.Sent? || e.Discard? || e.ExitFlag? || e.NoOutputFlag?)
    requires match e
             case PauseAfterFlag(on, age) => t == s.(pauseAfter := on, pauseAge := age)
             case Sent(n) => t == s.(outLen := s.outLen - Least(n, s.outLen))
             case Discard => t == s.(exit := true, all := OnlyLines(s.all))
             case ExitFlag => t == s.(exit := true)
             case NoOutputFlag(on) => t == SetNoOutput(s, on)
    ensures EventOk(s, e, t, p)
  {
    hide Core, GuardOk, Queued, OnlyLines;
    OnlyLinesFacts(s.all, p);
    OverIs(s, p);
    OverIs(t, p);
  }

  // ---- New output ----

  lemma OutputEvent(s: State, q: PaneId, now: nat, p: PaneId)
    requires Inv(s) && Inv(WriteOutput(s, q, now))
    ensures EventOk(s, Output(q, now), WriteOutput(s, q, now), p) && WriteOutput(s, q, now).fatal == s.fatal
  {
    hide Inv, Queued, AddPane, Aged, TooOld, Enqueue, Ignore, EventOk, PaneStep;
    if s.noOutput || s.exit {
      IgnoredEvent(s, q, now, p);
    } else {
      var s1 := AddPane(s, q);
      AddedOk(s, q);
      if !Active(s1.panes[q]) {
        IgnoredInactive(s, q, now, p);
      } else if TooOld(s1, q, now) {
        AgedEvent(s, q, now, p);
      } else {
        NewEvent(s, q, now, p);
      }
    }
  }

  lemma AddedOk(s: State, q: PaneId)
    requires Inv(s)
    ensures var s1 := AddPane(s, q);
            Inv(s1) && q in s1.panes && s1.exit == s.exit && s1.noOutput == s.noOutput && s1.fatal == s.fatal
    ensures q in s.panes ==> AddPane(s, q) == s
  {
    hide Core, GuardOk;
    AddPaneOk(s, q);
    SameGuardsOk(s, AddPane(s, q));
  }

  /** Ignored output. */
  lemma IgnoreFields(s: State, q: PaneId, p: PaneId)
    requires q in s.panes
    ensures var t := Ignore(s, q);
            && t.exit == s.exit && t.fatal == s.fatal && t.all == s.all && t.panes.Keys == s.panes.Keys
            && Stream(t, p) == Stream(s, p) && t.panes[q].lost == 0 && t.panes[q].offset == |Stream(s, q)|
            && (q != p && p in s.panes ==> t.panes[p] == s.panes[p])
  {
  }

  lemma IgnoredOther(s: State, q: PaneId, p: PaneId)
    requires q in s.panes && q != p
    ensures PaneStep(s, Ignore(s, q), p, {})
  {
    hide Ignore, Stream;
    IgnoreFields(s, q, p);
    assert p in Ignore(s, q).panes.Keys <==> p in s.panes.Keys;
    SamePane(s, Ignore(s, q), p, {});
  }

  lemma IgnoredEvent(s: State, q: PaneId, now: nat, p: PaneId)
    requires Inv(s) && Inv(WriteOutput(s, q, now)) && (s.noOutput || s.exit)
    ensures EventOk(s, Output(q, now), WriteOutput(s, q, now), p) && WriteOutput(s, q, now).fatal == s.fatal
  {
    hide Inv, Queued, Ignore, PaneStep, EventOk, Stream;
    if q !in s.panes {
      PaneSelf(s, p, {});
      if q == p { NoneQueued(s, p); StartEvent(s, Output(q, now), s, p); } else { StepEvent(s, Output(q, now), s, p); }
    } else if q != p {
      IgnoredOther(s, q, p);
      IgnoreFields(s, q, p);
      StepEvent(s, Output(q, now), Ignore(s, q), p);
    } else {
      IgnoreFields(s, p, p);
      IgnoredHere(s, p, now);
    }
  }

  lemma IgnoredHere(s: State, p: PaneId, now: nat)
    requires p in s.panes && Inv(s) && Inv(Ignore(s, p)) && (s.noOutput || s.exit)
    ensures EventOk(s, Output(p, now), Ignore(s, p), p)
  {
    hide Inv, Queued, Ignore;
    IgnoreFields(s, p, p);
    if !s.exit { NoOutputNoBlocks(s, p); }
  }

  lemma NoOutputNoBlocks(s: State, p: PaneId)
    requires Inv(s) && s.noOutput
    ensures Queued(s.all, p) == 0
  {
    hide Sorted, Live, LinesOut, LinesIn, OutOrder, LastLine, PendingOk, PanesOk, GuardOk;
    QueuedIsPart(s.all, p);
  }

  lemma IgnoredInactive(s: State, q: PaneId, now: nat, p: PaneId)
    requires Inv(s) && Inv(WriteOutput(s, q, now)) && !s.noOutput && !s.exit && !Active(AddPane(s, q).panes[q])
    ensures EventOk(s, Output(q, now), WriteOutput(s, q, now), p) && WriteOutput(s, q, now).fatal == s.fatal
  {
    hide Core, GuardOk, Queued;
    var t := WriteOutput(s, q, now);
    if q != p {
      SamePane(s, t, p, {});
      StepEvent(s, Output(q, now), t, p);
    } else {
      NoneQueued(s, p);
      StartEvent(s, Output(q, now), t, p);
    }
  }

  lemma AgedEvent(s: State, q: PaneId, now: nat, p: PaneId)
    requires Inv(s) && Inv(WriteOutput(s, q, now)) && !s.noOutput && !s.exit
    requires Active(AddPane(s, q).panes[q]) && TooOld(AddPane(s, q), q, now)
    ensures EventOk(s, Output(q, now), WriteOutput(s, q, now), p) && WriteOutput(s, q, now).fatal == s.fatal
  {
    hide Core, GuardOk, Queued, AddPane, Aged, TooOld, EventOk, PaneStep, OutputBytes;
    var s1 := AddPane(s, q);
    AddedOk(s, q);
    if q !in s.panes { NotTooOld(s, s1, q, now); }
    AgedOk(s1, q, Nothing);
    NotFatal(s1, Aged(s1, q), q);
    AgedPane(s1, q, Nothing, p, {});
    if q == p && p !in s.panes {
      assert false;
    } else if q == p {
      StepEvent(s, Output(q, now), Aged(s1, q), p);
    } else {
      AddPaneStep(s, q, p);
      PaneTrans(s, s1, Aged(s1, q), p, {});
      StepEvent(s, Output(q, now), Aged(s1, q), p);
    }
  }

  /** A pane just added has no blocks. */
  lemma NotTooOld(s: State, s1: State, q: PaneId, now: nat)
    requires Inv(s) && q !in s.panes && s1 == AddPane(s, q)
    ensures !TooOld(s1, q, now)
  {
    hide Core, GuardOk;
    NoBlocks(s, q);
  }

  lemma EnqueueFields(s: State, q: PaneId, now: nat, p: PaneId)
    requires q in s.panes && |Stream(s, q)| > s.panes[q].queued
    ensures var t := Enqueue(s, q, now);
            && t.exit == s.exit && t.fatal == s.fatal && t.panes.Keys == s.panes.Keys && Stream(t, p) == Stream(s, p)
            && t.panes[q].lost == s.panes[q].lost && (Active(t.panes[q]) <==> Active(s.panes[q]))
            && (q != p ==> Queued(t.all, p) == Queued(s.all, p) && (p in s.panes ==> t.panes[p] == s.panes[p]))
  {
    hide Queued;
    AddLast(s.all, OutputBlock(s.nextId, q, |Stream(s, q)| - s.panes[q].queued, now), p);
  }

  lemma AddFields(s: State, q: PaneId, p: PaneId)
    ensures var t := AddPane(s, q);
            && t.exit == s.exit && t.fatal == s.fatal && t.all == s.all && Stream(t, p) == Stream(s, p)
            && t.panes.Keys == s.panes.Keys + {q} && (p in s.panes ==> t.panes[p] == s.panes[p])
            && (q !in s.panes ==> t.panes[q].lost == 0)
  {
  }

  /** New bytes are queued, or there are none. */
  lemma NewEvent(s: State, q: PaneId, now: nat, p: PaneId)
    requires Inv(s) && Inv(WriteOutput(s, q, now)) && !s.noOutput && !s.exit
    requires Active(AddPane(s, q).panes[q]) && !TooOld(AddPane(s, q), q, now)
    ensures EventOk(s, Output(q, now), WriteOutput(s, q, now), p) && WriteOutput(s, q, now).fatal == s.fatal
  {
    hide Inv, Queued, TooOld, AddPane, Enqueue, EventOk, Stream, PaneStep;
    var s1, t := AddPane(s, q), WriteOutput(s, q, now);
    AddFields(s, q, q);
    AddFields(s, q, p);
    if |Stream(s1, q)| > s1.panes[q].queued {
      EnqueueFields(s1, q, now, q);
      EnqueueFields(s1, q, now, p);
    }
    assert p in t.panes.Keys <==> p in s.panes.Keys + {q};
    NewIs(s, q, now, t, p);
  }

  lemma NewIs(s: State, q: PaneId, now: nat, t: State, p: PaneId)
    requires Inv(s) && Inv(t) && !s.exit && !s.noOutput && !t.exit
    requires Stream(t, p) == Stream(s, p) && (p in t.panes <==> p in s.panes || p == q)
    requires q != p ==> Queued(t.all, p) == Queued(s.all, p) && (p in s.panes ==> t.panes[p] == s.panes[p])
    requires q == p ==> Active(t.panes[q]) && (if q in s.panes then
                          Active(s.panes[q]) && t.panes[q].lost == s.panes[q].lost else t.panes[q].lost == 0)
    ensures EventOk(s, Output(q, now), t, p)
  {
    hide Inv, Queued, Stream;
    OverIs(s, p);
    OverIs(t, p);
  }

  // ---- Every event ----

  lemma EventIsOk(s: State, e: Event, p: PaneId)
    requires Inv(s) && !s.fatal
    ensures Inv(Step(s, e)) && EventOk(s, e, Step(s, e), p)
    ensures Step(s, e).fatal ==> e.Writable? && SomeShort(s, e.gone)
  {
    hide Inv, WriteLine, NotifyLine, Guard, ResetPane, SetOff, WriteOutput, SetOn, PausePane, ContinuePane, SetNoOutput,
      Append, MoveOwn, OnlyLines, Callback, EventOk, LineStep, SomeShort, PaneStep, Starts, Queued;
    StepOk(s, e);
    var t := Step(s, e);
    match e
    case PaneData(q, data) => DataEvent(s, q, data, p); StreamFatal(s, q, data, 0);
    case PaneUsed(q, at) => UsedEvent(s, q, at, p); StreamFatal(s, q, [], at);
    case PaneReset(q) => ResetEvent(s, q, p); CommandsFatal(s, q);
    case Output(q, now) => OutputEvent(s, q, now, p);
    case ReplyLine(text) => ReplyStep(s, text); LineEvent(s, e, t, p); LineFatal(s, t);
    case Notification(text) => NotifyOk(s, text); LineEvent(s, e, t, p); LineFatal(s, t);
    case GuardLine(begin, text) => GuardLineOk(s, begin, text); LineEvent(s, e, t, p); LineFatal(s, t);
    case PaneOff(q) => OffEvent(s, q, p); CommandsFatal(s, q);
    case PaneOn(q) => OnEvent(s, q, p); CommandsFatal(s, q);
    case PanePause(q) => PauseEvent(s, q, p); PauseFatal(s, q);
    case PaneContinue(q) => ContinueEvent(s, q, p); PauseFatal(s, q);
    case NoOutputFlag(noOutput) => FlagEvents(s, e, t, p); FlagFatal(s, noOutput);
    case PauseAfterFlag(on, age) => FlagEvents(s, e, t, p);
    case Sent(n) => FlagEvents(s, e, t, p);
    case Writable(now, gone) =>
      CallbackPane(s, now, gone, p);
      NoStart(s, e, p);
      StepEvent(s, e, t, p);
    case Discard => FlagEvents(s, e, t, p);
    case ExitFlag => FlagEvents(s, e, t, p);
  }

  lemma NoStart(s: State, e: Event, p: PaneId)
    ensures e.Writable? ==> !Starts(s, e, p)
  {
  }

  lemma ReplyStep(s: State, text: seq<Byte>)
    requires Inv(s)
    ensures LineStep(s, WriteLine(s, Reply, text))
  {
    hide Core, LineStep, WriteLine;
    WriteLineOk(s, Reply, text);
  }

  lemma LineFatal(s: State, t: State)
    requires LineStep(s, t)
    ensures t.fatal == s.fatal
  {
  }

  lemma StreamFatal(s: State, q: PaneId, data: seq<Byte>, at: nat)
    ensures Append(s, q, data).fatal == s.fatal && MoveOwn(s, q, at).fatal == s.fatal
  {
  }

  lemma CommandsFatal(s: State, q: PaneId)
    ensures ResetPane(s, q).fatal == s.fatal && SetOff(s, q).fatal == s.fatal && SetOn(s, q).fatal == s.fatal
  {
    hide Queued, Without;
  }

  lemma PauseFatal(s: State, q: PaneId)
    requires Inv(s)
    ensures PausePane(s, q).fatal == s.fatal && ContinuePane(s, q).fatal == s.fatal
  {
    hide Inv, AddPane, DoPause, ContinuePane, OutputBytes, Ids;
    var s1 := AddPane(s, q);
    AddedOk(s, q);
    ContinueFatal(s, q);
    if !s1.panes[q].paused {
      PausedDropped(s1, q);
      NotFatal(s1, DoPause(s1, q), q);
    }
  }

  lemma PausedDropped(s: State, q: PaneId)
    requires Inv(s) && q in s.panes
    ensures Dropped(s, DoPause(s, q), q)
  {
    hide Core, GuardOk, DoPause, Dropped;
    DoPauseOk(s, q, Nothing);
  }

  lemma ContinueFatal(s: State, q: PaneId)
    requires Inv(s)
    ensures ContinuePane(s, q).fatal == s.fatal
  {
    hide Inv, NotifyLine, LineStep;
    if q in s.panes && s.panes[q].paused {
      var pane := s.panes[q].(paused := false);
      var s2 := Sync(s.(panes := s.panes[q := pane]), q);
      Restart(s, q, pane);
      NotifyOk(s2, CONTINUE + Decimal(q));
      LineFatal(s2, NotifyLine(s2, CONTINUE + Decimal(q)));
    }
  }

  lemma FlagFatal(s: State, noOutput: bool)
    ensures SetNoOutput(s, noOutput).fatal == s.fatal
  {
  }

  // ---- Runs ----

  /** What the events so far make of the shortage: output of the pane was reported after the client had been
    * told to exit while blocks were still queued, so the queue now promises bytes that the stream does not
    * hold; every new byte makes up for one; and nothing is promised once the queue has been emptied. */
  ghost function Debt(events: seq<Event>, p: PaneId): nat {
    if events == [] then 0
    else
      var front, e := events[..|events| - 1], events[|events| - 1];
      NextDebt(Run(front), e, Run(events), p, Debt(front, p))
  }

  /** The events have emptied the pane's queue because it was gone, since it was last started. */
  ghost predicate DroppedGone(events: seq<Event>, p: PaneId) {
    events != [] &&
    var front, e := events[..|events| - 1], events[|events| - 1];
    !Starts(Run(front), e, p) && (DroppedGone(front, p) || Drops(Run(front), e, Run(events), p))
  }

  lemma RunLast(events: seq<Event>)
    requires events != []
    ensures var front, e := events[..|events| - 1], events[|events| - 1]; Inv(Run(front)) && Run(events) == Step(Run(front), e)
  {
    hide Step;
  }

  lemma FatalStays(s: State, e: Event)
    requires Inv(s) && s.fatal
    ensures Step(s, e) == s
  {
  }

  lemma StartAccounts(p: PaneId)
    ensures Over(START, p) == 0 && Queued(START.all, p) == 0 && !START.exit
  {
  }

  /** In every run the shortage of a pane is what its events make it. */
  lemma {:induction false} DebtIsShortage(events: seq<Event>, p: PaneId)
    requires !Run(events).fatal
    ensures Over(Run(events), p) == Debt(events, p)
    ensures Short(Run(events), p) <==> Debt(events, p) > 0
  {
    hide Run, Step, Over, NextDebt, Starts, Drops;
    if events == [] {
      RunNone();
      StartAccounts(p);
    } else {
      var front, e := events[..|events| - 1], events[|events| - 1];
      RunLast(events);
      if Run(front).fatal { FatalStays(Run(front), e); }
      DebtIsShortage(front, p);
      EventIsOk(Run(front), e, p);
    }
    ShortIsOver(Run(events), p);
  }

  lemma ShortIsOver(s: State, p: PaneId)
    ensures Short(s, p) <==> Over(s, p) > 0
  {
    hide Owed, Stream;
  }

  /** The next event makes the writer run out of data only if it lets the writer run and a pane that is not
    * gone is short; when no block is too old and the buffer has room left, it does if and only if one is. */
  lemma FatalIsShort(events: seq<Event>, e: Event)
    requires !Run(events).fatal
    ensures Run(events + [e]).fatal ==> e.Writable? && exists p :: p !in e.gone && Debt(events, p) > 0
    ensures e.Writable? && AllYoung(Run(events), e.now) && Run(events + [e]).outLen < CONTROL_BUFFER_HIGH ==>
              (Run(events + [e]).fatal <==> exists p :: p !in e.gone && Debt(events, p) > 0)
  {
    hide Run, Step, Debt, AllYoung, Callback, EventOk;
    var s := Run(events);
    RunMore(events, e);
    assert Inv(s);
    EventIsOk(s, e, 0);
    if e.Writable? {
      WritableStep(s, e);
      CallbackFatal(s, e.now, e.gone);
      if SomeShort(s, e.gone) {
        var p :| p !in e.gone && Short(s, p);
        DebtIsShortage(events, p);
      }
      if p :| p !in e.gone && Debt(events, p) > 0 {
        DebtIsShortage(events, p);
        ShortIs(s, p, e.gone);
      }
    }
  }

  lemma WritableStep(s: State, e: Event)
    requires Inv(s) && e.Writable? && !s.fatal
    ensures Step(s, e) == Callback(s, e.now, e.gone)
  {
    hide Callback;
  }

  /** The writer never finds less data than it queued, as long as the client is only told to exit by
    * dropping its output. */
  lemma {:induction false} NeverShortOfData(events: seq<Event>)
    requires ExitFlag !in events
    ensures !Run(events).fatal && forall p :: Run(events).exit ==> Queued(Run(events).all, p) == 0
  {
    hide Run, Step, Queued, EventOk;
    if events == [] {
      RunNone();
    } else {
      var front, e := events[..|events| - 1], events[|events| - 1];
      RunLast(events);
      NeverShortOfData(front);
      var s := Run(front);
      EventIsOk(s, e, 0);
      forall p | Run(events).exit ensures Queued(Run(events).all, p) == 0 {
        EventIsOk(s, e, p);
        Emptied(s, e, Run(events), p);
      }
      if Run(events).fatal {
        var p :| p !in e.gone && Short(s, p) by { ShortIn(s, e.gone); }
        OverIs(s, p);
        ShortIsOver(s, p);
      }
    }
  }

  lemma Emptied(s: State, e: Event, t: State, p: PaneId)
    requires EventOk(s, e, t, p) && !e.ExitFlag? && t.exit && (s.exit ==> Queued(s.all, p) == 0)
    ensures Queued(t.all, p) == 0
  {
  }

  /** What is queued for a pane that is on and not paused is exactly what lies between its two offsets if
    * and only if its queue was never emptied because it was gone, since it was last started. */
  lemma QueuedIsExact(events: seq<Event>, p: PaneId)
    requires var s := Run(events); !s.exit && p in s.panes && Active(s.panes[p])
    ensures var s := Run(events);
            s.panes[p].queued - s.panes[p].offset == Queued(s.all, p) <==> !DroppedGone(events, p)
  {
    hide Run, Queued, DroppedGone;
    PaneOutputIsExact(events, p);
    LostIsDropped(events, p);
  }

  lemma {:induction false} LostIsDropped(events: seq<Event>, p: PaneId)
    requires var s := Run(events); !s.exit && p in s.panes && Active(s.panes[p])
    ensures Run(events).panes[p].lost > 0 <==> DroppedGone(events, p)
  {
    hide Run, Step, Starts, Drops, NextDebt, Over;
    if events == [] {
      RunNone();
    } else {
      var front, e := events[..|events| - 1], events[|events| - 1];
      RunLast(events);
      FatalExits(Run(front));
      if Run(front).fatal { FatalStays(Run(front), e); }
      EventIsOk(Run(front), e, p);
      if !Starts(Run(front), e, p) { LostIsDropped(front, p); }
    }
  }

  lemma FatalExits(s: State)
    requires Inv(s)
    ensures s.fatal ==> s.exit
  {
    hide QueueOk, PendingOk, GuardOk;
  }

  // ---- Running out of data ----

  /** A client that is told to exit while output is queued, as the error callback does: new output of
    * the pane is then ignored, and the writer finds no data for the block that is still queued. */
  const SHORT_RUN: seq<Event> := [PaneData(0, [65]), Output(0, 0), ExitFlag, Output(0, 0), Writable(0, {})]

  /** The stream has ended at the pane's offset, yet a byte is queued. */
  predicate StreamEnded(s: State) {
    && s.panes.Keys == {0} && s.panes[0].offset == |Stream(s, 0)| && s.all == [OutputBlock(0, 0, 1, 0)]
    && s.pendingList == [0] && s.pendingCount == 1 && s.outLen == 0
  }

  lemma ShortIsFatal(s: State)
    requires Inv(s) && StreamEnded(s) && !s.fatal
    ensures Step(s, Writable(0, {})).fatal
  {
    hide Inv, Extend;
    var b := OutputBlock(0, 0, 1, 0);
    assert Ids([b], 0) == [0] + Ids([], 0) && First([b], 0) == b;
    assert WritePending(s, 0, Limit(s), 0, {}).fatal;
    assert Visit(s, 0, Limit(s), 0, {}).fatal;
    assert Pass(s, [0], Limit(s), 0, {}).fatal;
  }

  lemma QueueOneByte(s1: State)
    requires s1 == Append(START, 0, [65])
    ensures var s2 := WriteOutput(s1, 0, 0);
            && s2.panes.Keys == {0} && !s2.fatal && s2.pendingList == [0] && s2.pendingCount == 1 && s2.outLen == 0
            && Stream(s2, 0) == [65] && s2.all == [OutputBlock(0, 0, 1, 0)]
            && !s2.exit && Active(s2.panes[0]) && s2.panes[0].queued - s2.panes[0].offset == 1
  {
    assert Stream(s1, 0) == [65];
    assert Ids([], 0) == [];
  }

  lemma IgnoreIsShort(s: State)
    requires s.exit && s.panes.Keys == {0} && s.pendingList == [0] && s.pendingCount == 1 && s.outLen == 0
    requires Stream(s, 0) == [65] && s.all == [OutputBlock(0, 0, 1, 0)] && !s.fatal
    ensures StreamEnded(WriteOutput(s, 0, 0)) && !WriteOutput(s, 0, 0).fatal
  {
  }

  lemma ExitFlagRunsShort()
    ensures Run(SHORT_RUN).fatal
  {
    hide Run, Append, WriteOutput, Callback, StreamEnded, Inv;
    var e1, e2, e3: seq<Event> := [PaneData(0, [65])], [PaneData(0, [65]), Output(0, 0)],
      [PaneData(0, [65]), Output(0, 0), ExitFlag];
    RunNone();
    AppendKeepsFatal();
    var s1 := Append(START, 0, [65]);
    RunMore([], PaneData(0, [65]));
    assert [] + [PaneData(0, [65])] == e1;
    assert Run(e1) == s1;
    QueueOneByte(s1);
    var s2 := WriteOutput(s1, 0, 0);
    RunMore(e1, Output(0, 0));
    assert e1 + [Output(0, 0)] == e2;
    assert Run(e2) == s2;
    var s3 := s2.(exit := true);
    RunMore(e2, ExitFlag);
    assert e2 + [ExitFlag] == e3;
    assert Run(e3) == s3;
    IgnoreIsShort(s3);
    RunMore(e3, Output(0, 0));
    RunMore(e3 + [Output(0, 0)], Writable(0, {}));
    assert e3 + [Output(0, 0)] + [Writable(0, {})] == SHORT_RUN;
    ShortIsFatal(WriteOutput(s3, 0, 0));
  }

  lemma AppendKeepsFatal()
    ensures !START.fatal && !Append(START, 0, [65]).fatal
  {
  }

  /** A pane that is gone when the writer comes to it: its byte is dropped from the queue, and what is queued
    * falls short of what lies between its offsets from then on. */
  const GONE_RUN: seq<Event> := [PaneData(0, [65]), Output(0, 0), Writable(0, {0})]

  lemma GoneRunLosesTrack()
    ensures var s := Run(GONE_RUN);
            && !s.exit && 0 in s.panes && Active(s.panes[0])
            && s.panes[0].queued - s.panes[0].offset == 1 && Queued(s.all, 0) == 0
  {
    hide Run, Append, WriteOutput, Callback, Inv;
    var e1, e2: seq<Event> := [PaneData(0, [65])], [PaneData(0, [65]), Output(0, 0)];
    RunNone();
    AppendKeepsFatal();
    var s1 := Append(START, 0, [65]);
    RunMore([], PaneData(0, [65]));
    assert [] + [PaneData(0, [65])] == e1;
    QueueOneByte(s1);
    var s2 := WriteOutput(s1, 0, 0);
    RunMore(e1, Output(0, 0));
    assert e1 + [Output(0, 0)] == e2;
    RunMore(e2, Writable(0, {0}));
    assert e2 + [Writable(0, {0})] == GONE_RUN;
    assert Run(e2) == s2;
    OneByteIsDropped(s2);
  }

  /** One byte is queued, for pane 0. */
  predicate OneByte(s: State) {
    && !s.fatal && !s.exit && s.panes.Keys == {0} && s.all == [OutputBlock(0, 0, 1, 0)]
    && s.pendingList == [0] && s.pendingCount == 1 && s.outLen == 0
    && Active(s.panes[0]) && s.panes[0].queued - s.panes[0].offset == 1
  }

  lemma ByteDropped(s: State, limit: nat)
    requires OneByte(s)
    ensures FlushLines(s) == s
    ensures var u := Visit(s, 0, limit, 0, {0});
            && u.all == [] && u.panes.Keys == {0} && !u.exit && !u.fatal && u.pendingCount == 0 && u.outLen == 0
            && Active(u.panes[0]) && u.panes[0].queued - u.panes[0].offset == 1
  {
    var t := DiscardPane(s, 0);
    assert [OutputBlock(0, 0, 1, 0)][1..] == [];
    assert t.all == [] && FlushLines(t) == t;
    assert Visit(s, 0, limit, 0, {0}) == Unpend(t, 0);
  }

  lemma OneByteIsDropped(s: State)
    requires Inv(s) && OneByte(s)
    ensures var t := Step(s, Writable(0, {0}));
            && !t.exit && 0 in t.panes && Active(t.panes[0])
            && t.panes[0].queued - t.panes[0].offset == 1 && Queued(t.all, 0) == 0
  {
    hide Inv, Visit, FlushLines;
    ByteDropped(s, Limit(s));
    var u := Visit(s, 0, Limit(s), 0, {0});
    assert [0][1..] == [];
    assert Pass(u, [], Limit(s), 0, {0}) == u;
    assert Pass(s, [0], Limit(s), 0, {0}) == u;
    PassOk(s, s.pendingList, Limit(s), 0, {0});
    assert WriteLoop(u, 0, {0}) == u;
  }
}
