/** Whole runs of the control engine, and what they promise a control-mode client. */
module ControlRun {
  import opened Bytes
  import opened ControlOutput
  import opened ControlModel
  import opened ControlQueue
  import opened ControlInvariant
  import opened ControlSteps
  import opened ControlWriter

  datatype Event =
    | PaneData(pane: PaneId, data: seq<Byte>)
    | PaneUsed(pane: PaneId, at: nat)
    | PaneReset(pane: PaneId)
    | Output(pane: PaneId, now: nat)
    | ReplyLine(text: seq<Byte>)
    | Notification(text: seq<Byte>)
    | GuardLine(begin: bool, text: seq<Byte>)
    | PaneOff(pane: PaneId) | PaneOn(pane: PaneId) | PanePause(pane: PaneId) | PaneContinue(pane: PaneId)
    | NoOutputFlag(noOutput: bool)
    | PauseAfterFlag(pauseAfter: bool, age: nat)
    | Sent(n: nat)
    | Writable(now: nat, gone: set<PaneId>)
    | Discard
    | ExitFlag

  ghost function Step(s: State, e: Event): State
    requires Inv(s)
  {
    if s.fatal then s
    else
      match e
      case PaneData(p, data) => Append(s, p, data)
      case PaneUsed(p, at) => MoveOwn(s, p, at)
      case PaneReset(p) => ResetPane(s, p)
      case Output(p, now) => WriteOutput(s, p, now)
      case ReplyLine(text) => WriteLine(s, Reply, text)
      case Notification(text) => NotifyLine(s, text)
      case GuardLine(begin, text) => Guard(s, begin, text)
      case PaneOff(p) => SetOff(s, p)
      case PaneOn(p) => SetOn(s, p)
      case PanePause(p) => PausePane(s, p)
      case PaneContinue(p) => ContinuePane(s, p)
      case NoOutputFlag(noOutput) => SetNoOutput(s, noOutput)
      case PauseAfterFlag(on, age) => s.(pauseAfter := on, pauseAge := age)
      case Sent(n) => s.(outLen := s.outLen - Least(n, s.outLen))
      case Writable(now, gone) => Callback(s, now, gone)
      case Discard => s.(all := OnlyLines(s.all), exit := true)
      case ExitFlag => s.(exit := true)
  }

  /** Every event keeps the invariant. */
  lemma StepOk(s: State, e: Event)
    requires Inv(s)
    ensures Inv(Step(s, e))
  {
    hide Inv, WriteLine, NotifyLine, Guard, ResetPane, SetOff, WriteOutput, SetOn, PausePane, ContinuePane, SetNoOutput,
      Append, MoveOwn, OnlyLines, Callback;
    match e
    case PaneData(p, data) => AppendOk(s, p, data);
    case PaneUsed(p, at) => MoveOwnOk(s, p, at);
    case PaneReset(p) => ResetPaneOk(s, p);
    case Output(p, now) => WriteOutputOk(s, p, now);
    case ReplyLine(text) => ReplyOk(s, text);
    case Notification(text) => NotifyOk(s, text);
    case GuardLine(begin, text) => GuardLineOk(s, begin, text);
    case PaneOff(p) => SetOffOk(s, p);
    case PaneOn(p) => SetOnOk(s, p);
    case PanePause(p) => PausePaneOk(s, p);
    case PaneContinue(p) => ContinuePaneOk(s, p);
    case NoOutputFlag(noOutput) => SetNoOutputOk(s, noOutput);
    case PauseAfterFlag(on, age) => FlagsOk(s, on, age, 0);
    case Sent(n) => FlagsOk(s, false, 0, n);
    case Writable(now, gone) =>
    case Discard => DiscardAllOk(s);
    case ExitFlag => ExitFlagOk(s);
  }

  lemma GuardLineOk(s: State, begin: bool, text: seq<Byte>)
    requires Inv(s)
    ensures Inv(Guard(s, begin, text)) && LineStep(s, Guard(s, begin, text))
  {
    hide Inv, Guard, LineStep;
    if begin { GuardBegin(s, text); } else { GuardClose(s, text); }
  }

  lemma FlagsOk(s: State, pauseAfter: bool, age: nat, n: nat)
    requires Inv(s)
    ensures Inv(s.(pauseAfter := pauseAfter, pauseAge := age)) && Inv(s.(outLen := s.outLen - Least(n, s.outLen)))
  {
    hide Live, Sorted, OutOrder, LastLine, LinesIn, Ids, Queued, Seen, ReplyBytes, LinesOut, Guarded, Depth,
      Notifications, OutputBytes;
    var t, u := s.(pauseAfter := pauseAfter, pauseAge := age), s.(outLen := s.outLen - Least(n, s.outLen));
    SameActive(s, t);
    SameActive(s, u);
    SamePanes(s, Nothing, t, Nothing);
    SamePanes(s, Nothing, u, Nothing);
  }

  lemma DiscardAllOk(s: State)
    requires Inv(s)
    ensures Inv(s.(all := OnlyLines(s.all), exit := true))
  {
    hide Core, GuardOk, OnlyLines;
    ExitOk(s, Nothing);
    SameGuardsOk(s, s.(exit := true, all := OnlyLines(s.all)));
  }

  lemma ExitFlagOk(s: State)
    requires Inv(s)
    ensures Inv(s.(exit := true))
  {
    hide Live, Sorted, OutOrder, LastLine, LinesIn, Ids, Queued, Seen, ReplyBytes, LinesOut, Guarded, Depth,
      Notifications, OutputBytes;
    SameActive(s, s.(exit := true));
    SamePanes(s, Nothing, s.(exit := true), Nothing);
  }

  lemma StartOk()
    ensures Inv(START)
  {
    assert forall p :: Ids(START.all, p) == [];
  }

  ghost function Run(events: seq<Event>): (s: State)
    ensures Inv(s)
  {
    if events == [] then StartOk(); START
    else
      StepOk(Run(events[..|events| - 1]), events[|events| - 1]);
      Step(Run(events[..|events| - 1]), events[|events| - 1])
  }

  lemma RunNone()
    ensures Run([]) == START && Inv(START)
  {
  }

  lemma RunMore(events: seq<Event>, e: Event)
    ensures Run(events + [e]) == Step(Run(events), e)
  {
    hide Step;
    assert (events + [e])[..|events|] == events;
  }

  // ---- What every run promises ----

  /** Reply and notification lines leave in the order they were accepted, each once: what was accepted
    * is what left followed by what is still queued. */
  lemma LinesKeepOrder(events: seq<Event>)
    ensures var s := Run(events); s.accepted == LinesOut(s.out) + LinesIn(s.all)
  {
    hide Run;
    assert Inv(Run(events));
  }

  /** The numbers in what was sent. */
  lemma {:induction false} OutOrdered(out: seq<Item>, i: nat, j: nat)
    requires OutOrder(out) && i < j < |out| && out[i].Wrote?
    ensures out[i].line.id < if out[j].Wrote? then out[j].line.id else out[j].first
    decreases |out|
  {
    var front := out[..|out| - 1];
    if j == |out| - 1 {
      LastLineAbove(front, i);
    } else {
      OutOrdered(front, i, j);
    }
  }

  lemma {:induction false} LastLineAbove(out: seq<Item>, i: nat)
    requires OutOrder(out) && i < |out| && out[i].Wrote?
    ensures out[i].line.id <= LastLine(out)
    decreases |out|
  {
    if i < |out| - 1 { LastLineAbove(out[..|out| - 1], i); }
  }

  lemma {:induction false} SortedAbove(all: seq<Block>, lo: int, hi: nat, i: nat)
    requires Sorted(all, lo, hi) && i < |all|
    ensures lo < Id(all[i]) < hi
  {
    if i > 0 { SortedAbove(all[1..], Id(all[0]), hi, i - 1); }
  }

  /** A line never overtakes output: when it has left, every output block that was queued before it, for
    * any pane, is gone from the queue, and nothing of such a block is sent afterwards. */
  lemma LinesNeverOvertake(events: seq<Event>, i: nat)
    requires i < |Run(events).out| && Run(events).out[i].Wrote?
    ensures var s := Run(events); var line := s.out[i].line;
            && (forall b :: b in s.all ==> line.id < Id(b))
            && (forall j :: i < j < |s.out| && s.out[j].Message? ==> line.id < s.out[j].first)
            && (forall j :: i < j < |s.out| && s.out[j].Wrote? ==> line.id < s.out[j].line.id)
  {
    hide Run;
    var s := Run(events);
    var line := s.out[i].line;
    assert Inv(s);
    LastLineAbove(s.out, i);
    forall b | b in s.all ensures line.id < Id(b) {
      var k :| 0 <= k < |s.all| && s.all[k] == b;
      SortedAbove(s.all, LastLine(s.out), s.nextId, k);
    }
    forall j | i < j < |s.out| ensures line.id < if s.out[j].Wrote? then s.out[j].line.id else s.out[j].first {
      OutOrdered(s.out, i, j);
    }
  }

  /** What the client reads of a pane that is on and not paused is exactly the pane's output since it
    * was last started: nothing lost, repeated or reordered. */
  lemma PaneOutputIsExact(events: seq<Event>, p: PaneId)
    requires var s := Run(events); !s.exit && p in s.panes && Active(s.panes[p])
    ensures var s := Run(events); var pane := s.panes[p];
            && pane.startOut <= |s.out| && pane.start <= pane.offset <= pane.queued <= |Stream(s, p)|
            && Seen(s.out[pane.startOut..], p) == Stream(s, p)[pane.start..pane.offset]
            && pane.offset + Queued(s.all, p) + pane.lost == pane.queued
  {
    hide Run, QueueOk, PendingOk;
    var s := Run(events);
    assert Inv(s);
    assert PaneOk(s, p, Nothing);
    assert Seen(s.out[s.panes[p].startOut..], p) + [] == Seen(s.out[s.panes[p].startOut..], p);
  }

  /** The account of queued replies, and of pending panes. */
  lemma AccountsAreExact(events: seq<Event>)
    ensures var s := Run(events);
            && s.replyBytes == ReplyBytes(s.all)
            && s.pendingCount == |s.pendingList| && Distinct(s.pendingList)
            && (forall p :: p in s.pendingList <==> p in s.panes && s.panes[p].pending)
            && (forall p :: Ids(s.all, p) != [] ==> p in s.pendingList && Active(s.panes[p]))
  {
    hide Run;
    var s := Run(events);
    assert Inv(s);
    forall p | Ids(s.all, p) != [] ensures p in s.panes && Active(s.panes[p]) { QueueLive(s, p); }
  }

  /** No notification lies between a guard and the one that closes its block, and notifications come out
    * once each and in order, those deferred last, unless the client is being discarded. */
  lemma NotificationsAreKept(events: seq<Event>)
    ensures var s := Run(events);
            && (forall i: nat :: i < |s.accepted| && s.accepted[i].kind.Notify? ==> Depth(s.accepted[..i]) == 0)
            && (!s.discard ==> Notifications(s.accepted) + s.deferred == s.asked
                               && Depth(s.accepted) == s.guardDepth && (s.guardDepth == 0 ==> s.deferred == []))
  {
    hide Run, Core;
    var s := Run(events);
    assert Inv(s);
    forall i: nat | i < |s.accepted| && s.accepted[i].kind.Notify? ensures Depth(s.accepted[..i]) == 0 {
      GuardedAt(s.accepted, i);
    }
  }

  lemma {:induction false} GuardedAt(lines: seq<Line>, i: nat)
    requires Guarded(lines) && i < |lines| && lines[i].kind.Notify?
    ensures Depth(lines[..i]) == 0
    decreases |lines|
  {
    if i < |lines| - 1 {
      GuardedAt(lines[..|lines| - 1], i);
      assert lines[..|lines| - 1][..i] == lines[..i];
    }
  }
}
