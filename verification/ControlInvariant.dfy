/** What every step of the control engine keeps. */
module ControlInvariant {
  import opened Bytes
  import opened ControlOutput
  import opened ControlModel
  import opened ControlQueue

  // ---- Order of what was sent ----

  /** The number of the last line sent. */
  function LastLine(out: seq<Item>): int {
    if out == [] then -1
    else if out[|out| - 1].Wrote? then out[|out| - 1].line.id
    else LastLine(out[..|out| - 1])
  }

  /** Lines leave in the order they were accepted, and no output leaves after a line that was accepted
    * later than the output was queued. */
  predicate OutOrder(out: seq<Item>) {
    out == [] ||
    var front, last := out[..|out| - 1], out[|out| - 1];
    OutOrder(front) && LastLine(front) < if last.Wrote? then last.line.id else last.first
  }

  lemma OutMore(out: seq<Item>, item: Item)
    requires OutOrder(out) && LastLine(out) < if item.Wrote? then item.line.id else item.first
    ensures OutOrder(out + [item])
    ensures LastLine(out + [item]) == if item.Wrote? then item.line.id else LastLine(out)
  {
    assert (out + [item])[..|out|] == out;
  }

  lemma SeenMore(out: seq<Item>, start: nat, item: Item, p: PaneId)
    requires start <= |out|
    ensures Seen((out + [item])[start..], p)
         == Seen(out[start..], p) + if item.Message? && item.pane == p then Unescape(item.payload) else []
  {
    assert (out + [item])[start..] == out[start..] + [item];
    SeenConcat(out[start..], [item], p);
    SeenOne(item, p);
  }

  // ---- The invariant ----

  function ActivePanes(s: State): set<PaneId> {
    set p | p in s.panes && Active(s.panes[p])
  }

  predicate QueueOk(s: State) {
    && OutOrder(s.out) && LastLine(s.out) < s.nextId
    && Sorted(s.all, LastLine(s.out), s.nextId)
    && Live(s.all, ActivePanes(s))
    && s.accepted == LinesOut(s.out) + LinesIn(s.all)
    && s.replyBytes == ReplyBytes(s.all)
    && (s.noOutput ==> OutputBytes(s.all) == 0)
  }

  predicate Distinct(list: seq<PaneId>) {
    forall i, j :: 0 <= i < j < |list| ==> list[i] != list[j]
  }

  ghost predicate PendingOk(s: State) {
    && s.pendingCount == |s.pendingList| && Distinct(s.pendingList)
    && (forall p :: p in s.pendingList <==> p in s.panes && s.panes[p].pending)
    && (forall p :: Ids(s.all, p) != [] ==> p in s.pendingList)
  }

  /** The message under construction comes from blocks after the last line sent. */
  predicate HeldOk(held: Held, out: seq<Item>) {
    held.Held? ==> held.message.Message? && LastLine(out) < held.message.first
                   && held.message.payload == Escape(Unescape(held.message.payload))
  }

  /** The bytes of `p` in the message under construction. */
  function Raw(held: Held, p: PaneId): seq<Byte> {
    if held.Held? && held.message.Message? && held.message.pane == p then Unescape(held.message.payload) else []
  }

  /** Nothing of the pane's output since it was started is lost or repeated: it was sent, or is in the
    * message under construction, or is queued, or was dropped from the queue when the pane was gone. */
  predicate Tracked(s: State, p: PaneId, held: Held)
    requires p in s.panes
  {
    var pane := s.panes[p];
    && pane.startOut <= |s.out| && pane.start <= pane.offset
    && pane.offset + Queued(s.all, p) + pane.lost == pane.queued <= |Stream(s, p)|
    && Seen(s.out[pane.startOut..], p) + Raw(held, p) == Stream(s, p)[pane.start..pane.offset]
  }

  predicate PaneOk(s: State, p: PaneId, held: Held)
    requires p in s.panes
  {
    var pane := s.panes[p];
    && pane.startOut <= |s.out| && pane.offset <= |Stream(s, p)|
    && (Active(pane) && !s.exit ==> Tracked(s, p, held))
  }

  ghost predicate PanesOk(s: State, held: Held) {
    && (forall p :: p in s.panes ==> PaneOk(s, p, held))
    && (forall p :: Own(s, p) <= |Stream(s, p)|)
    && (s.fatal ==> s.exit)
  }

  ghost predicate Core(s: State, held: Held) {
    QueueOk(s) && PendingOk(s) && HeldOk(held, s.out) && PanesOk(s, held)
  }

  /** How many guard blocks are open after these lines. */
  function Depth(lines: seq<Line>): nat {
    if lines == [] then 0
    else
      var d := Depth(lines[..|lines| - 1]);
      match lines[|lines| - 1].kind
      case Begin => d + 1
      case Close => if d == 0 then 0 else d - 1
      case _ => d
  }

  /** No notification inside a guard block. */
  predicate Guarded(lines: seq<Line>) {
    lines == [] ||
    var front := lines[..|lines| - 1];
    Guarded(front) && (lines[|lines| - 1].kind.Notify? ==> Depth(front) == 0)
  }

  function Notifications(lines: seq<Line>): seq<seq<Byte>> {
    if lines == [] then []
    else
      Notifications(lines[..|lines| - 1])
      + if lines[|lines| - 1].kind.Notify? then [lines[|lines| - 1].text] else []
  }

  /** Notifications come out once each and in order, never inside a guard block, unless the client is
    * being discarded. */
  predicate GuardOk(s: State) {
    && Guarded(s.accepted)
    && (s.guardDepth == 0 ==> s.deferred == [])
    && (s.discard || (Depth(s.accepted) == s.guardDepth && Notifications(s.accepted) + s.deferred == s.asked))
  }

  ghost predicate Inv(s: State) {
    Core(s, Nothing) && GuardOk(s)
  }

  /** The fields that guard blocks are about. */
  predicate SameGuards(s: State, t: State) {
    s.accepted == t.accepted && s.guardDepth == t.guardDepth && s.deferred == t.deferred
    && s.asked == t.asked && s.discard == t.discard
  }

  // ---- Steps on panes ----

  /** The panes' accounts do not change. */
  lemma SamePanes(s: State, held: Held, t: State, held': Held)
    requires PanesOk(s, held) && t.panes == s.panes && t.streams == s.streams && t.own == s.own
    requires (s.exit ==> t.exit) && (t.fatal ==> t.exit) && |s.out| <= |t.out|
    requires forall p :: p in s.panes && !t.exit && s.panes[p].startOut <= |s.out| ==> SameAccount(s, held, t, held', p)
    ensures PanesOk(t, held')
  {
    hide Queued, Seen, Raw, SameAccount;
    forall q | q in t.panes ensures PaneOk(t, q, held') {
      assert PaneOk(s, q, held);
      if Active(s.panes[q]) && !t.exit { SameTracked(s, held, t, held', q); }
    }
    forall q ensures Own(t, q) <= |Stream(t, q)| {
      assert Own(s, q) <= |Stream(s, q)|;
    }
  }

  predicate SameAccount(s: State, held: Held, t: State, held': Held, p: PaneId)
    requires p in s.panes && s.panes[p].startOut <= |s.out| <= |t.out|
  {
    var start := s.panes[p].startOut;
    Queued(t.all, p) == Queued(s.all, p)
    && Seen(t.out[start..], p) + Raw(held', p) == Seen(s.out[start..], p) + Raw(held, p)
  }

  lemma SameTracked(s: State, held: Held, t: State, held': Held, p: PaneId)
    requires p in s.panes && t.panes == s.panes && t.streams == s.streams && |s.out| <= |t.out|
    requires Tracked(s, p, held) && SameAccount(s, held, t, held', p)
    ensures Tracked(t, p, held')
  {
  }

  lemma SameSeen(s: State, t: State, held: Held)
    requires t.panes == s.panes && t.out == s.out && forall p :: p in s.panes ==> Queued(t.all, p) == Queued(s.all, p)
    ensures forall p :: p in s.panes && s.panes[p].startOut <= |s.out| ==> SameAccount(s, held, t, held, p)
  {
  }

  lemma SameActive(s: State, t: State)
    requires t.panes == s.panes
    ensures ActivePanes(t) == ActivePanes(s)
  {
  }

  /** One pane record replaced. */
  lemma SetPane(s: State, held: Held, p: PaneId, pane: Pane, held': Held)
    requires Core(s, held)
    requires held' == held || (held' == Nothing && forall q :: q != p ==> Raw(held, q) == [])
    requires p in s.panes ==> pane.pending == s.panes[p].pending
    requires p !in s.panes ==> !pane.pending
    requires Active(pane) || Ids(s.all, p) == []
    requires var t := s.(panes := s.panes[p := pane]); PaneOk(t, p, held')
    ensures Core(s.(panes := s.panes[p := pane]), held')
  {
    hide QueueOk, PendingOk, PanesOk, HeldOk;
    SetPaneQueue(s, p, pane);
    SetPanePending(s, p, pane);
    SetPanePanes(s, held, p, pane, held');
    NothingHeld(s.out);
  }

  lemma NothingHeld(out: seq<Item>)
    ensures HeldOk(Nothing, out)
  {
  }

  lemma SetPaneQueue(s: State, p: PaneId, pane: Pane)
    requires QueueOk(s) && (Active(pane) || Ids(s.all, p) == [])
    ensures QueueOk(s.(panes := s.panes[p := pane]))
  {
    hide Live, Sorted, OutOrder, LinesOut, LinesIn, Ids, ReplyBytes, OutputBytes, LastLine;
    var t := s.(panes := s.panes[p := pane]);
    forall q | q in ActivePanes(s) && Ids(s.all, q) != [] ensures q in ActivePanes(t) {}
    LiveWeaken(s.all, ActivePanes(s), ActivePanes(t));
  }

  lemma SetPanePending(s: State, p: PaneId, pane: Pane)
    requires PendingOk(s)
    requires (p in s.panes ==> pane.pending == s.panes[p].pending) && (p !in s.panes ==> !pane.pending)
    ensures PendingOk(s.(panes := s.panes[p := pane]))
  {
    hide Ids;
  }

  lemma SetPanePanes(s: State, held: Held, p: PaneId, pane: Pane, held': Held)
    requires PanesOk(s, held)
    requires held' == held || (held' == Nothing && forall q :: q != p ==> Raw(held, q) == [])
    requires var t := s.(panes := s.panes[p := pane]); PaneOk(t, p, held')
    ensures PanesOk(s.(panes := s.panes[p := pane]), held')
  {
    hide PaneOk, Raw;
    var t := s.(panes := s.panes[p := pane]);
    forall q | q in t.panes ensures PaneOk(t, q, held') {
      if q != p { OtherPane(s, held, p, pane, held', q); }
    }
    forall q ensures Own(t, q) <= |Stream(t, q)| { assert Own(s, q) <= |Stream(s, q)|; }
  }

  lemma OtherPane(s: State, held: Held, p: PaneId, pane: Pane, held': Held, q: PaneId)
    requires q != p && q in s.panes && PaneOk(s, q, held) && (held' == held || (held' == Nothing && Raw(held, q) == []))
    ensures PaneOk(s.(panes := s.panes[p := pane]), q, held')
  {
  }

  lemma StartPane(s: State, p: PaneId, pane: Pane, at: nat)
    requires Core(s, Nothing) && at <= |Stream(s, p)|
    requires p in s.panes ==> pane.pending == s.panes[p].pending
    requires p !in s.panes ==> !pane.pending
    requires Ids(s.all, p) == [] || (s.exit && Active(pane))
    ensures Core(s.(panes := s.panes[p := Started(s, pane, at)]), Nothing)
  {
    QueuedIsPart(s.all, p);
    SetPane(s, Nothing, p, Started(s, pane, at), Nothing);
  }

  /** A pane that is not there has no blocks, and one that has blocks is active. */
  lemma {:induction false} BlocksLive(all: seq<Block>, active: set<PaneId>, p: PaneId)
    requires Live(all, active) && Ids(all, p) != []
    ensures p in active
  {
    if !OfPane(all[0], p) {
      assert [] + Ids(all[1..], p) == Ids(all[1..], p);
      BlocksLive(all[1..], active, p);
    }
  }

  lemma AddPaneOk(s: State, p: PaneId)
    requires Core(s, Nothing)
    ensures Core(AddPane(s, p), Nothing) && SameGuards(s, AddPane(s, p)) && p in AddPane(s, p).panes
  {
    if p !in s.panes {
      if Ids(s.all, p) != [] { BlocksLive(s.all, ActivePanes(s), p); }
      StartPane(s, p, Pane(0, 0, false, false, false, 0, 0, 0), Own(s, p));
    }
  }

  lemma DiscardOk(s: State, p: PaneId, held: Held)
    requires Core(s, held) && p in s.panes
    ensures Core(DiscardPane(s, p), held) && SameGuards(s, DiscardPane(s, p))
    ensures Ids(DiscardPane(s, p).all, p) == [] && p in DiscardPane(s, p).panes
  {
    hide QueueOk, PendingOk, PanesOk, DiscardPane, SameGuards, Ids;
    DiscardFields(s, p);
    DiscardQueueOk(s, p);
    DiscardPendingOk(s, p);
    DiscardPanesOk(s, p, held);
  }

  lemma DiscardFields(s: State, p: PaneId)
    requires p in s.panes
    ensures var t := DiscardPane(s, p); SameGuards(s, t) && p in t.panes && t.out == s.out
  {
  }

  lemma DiscardQueueOk(s: State, p: PaneId)
    requires QueueOk(s) && p in s.panes
    ensures QueueOk(DiscardPane(s, p))
  {
    hide LinesOut, OutOrder, LastLine, Live, Sorted, Queued, LinesIn, ReplyBytes, OutputBytes, Without;
    var t := DiscardPane(s, p);
    WithoutFacts(s.all, p, p);
    WithoutOk(s.all, p, LastLine(s.out), s.nextId, ActivePanes(s));
    assert ActivePanes(t) == ActivePanes(s);
  }

  lemma DiscardPendingOk(s: State, p: PaneId)
    requires PendingOk(s) && p in s.panes
    ensures PendingOk(DiscardPane(s, p)) && Ids(DiscardPane(s, p).all, p) == []
  {
    hide Ids, PendingOk;
    var t := DiscardPane(s, p);
    forall q ensures Ids(t.all, q) == if q == p then [] else Ids(s.all, q) { WithoutFacts(s.all, p, q); }
    SamePending(s, t);
  }

  /** No pane starts or stops being pending, and no pane gets its first block. */
  lemma SamePending(s: State, t: State)
    requires PendingOk(s) && t.pendingList == s.pendingList && t.pendingCount == s.pendingCount
    requires t.panes.Keys == s.panes.Keys && forall p :: p in s.panes ==> t.panes[p].pending == s.panes[p].pending
    requires forall p :: Ids(t.all, p) == [] || Ids(t.all, p) == Ids(s.all, p)
    ensures PendingOk(t)
  {
    hide Ids;
    forall p ensures p in t.pendingList <==> p in t.panes && t.panes[p].pending {
      assert p in t.panes.Keys <==> p in s.panes.Keys;
    }
    forall p ensures Ids(t.all, p) != [] ==> p in t.pendingList {}
  }

  lemma DiscardPanesOk(s: State, p: PaneId, held: Held)
    requires PanesOk(s, held) && p in s.panes
    ensures PanesOk(DiscardPane(s, p), held)
  {
    hide Queued, PaneOk, Without;
    var t := DiscardPane(s, p);
    forall q | q in t.panes ensures PaneOk(t, q, held) { DiscardOne(s, p, held, q); }
    forall q ensures Own(t, q) <= |Stream(t, q)| { assert Own(s, q) <= |Stream(s, q)|; }
  }

  lemma DiscardOne(s: State, p: PaneId, held: Held, q: PaneId)
    requires p in s.panes && q in s.panes && PaneOk(s, q, held)
    ensures PaneOk(DiscardPane(s, p), q, held)
  {
    hide Seen, Queued, Without, Raw;
    WithoutFacts(s.all, p, q);
  }

  lemma SyncOk(s: State, p: PaneId)
    requires Core(s, Nothing) && p in s.panes && Ids(s.all, p) == []
    ensures Core(Sync(s, p), Nothing) && SameGuards(s, Sync(s, p)) && p in Sync(s, p).panes
  {
    StartPane(s, p, s.panes[p], Own(s, p));
  }

  /** Ignoring output keeps the account, because a pane that is ignored has nothing queued, except
    * when the client is exiting. */
  lemma IgnoreOk(s: State, p: PaneId)
    requires Core(s, Nothing) && p in s.panes
    requires s.noOutput || s.exit || !Active(s.panes[p])
    ensures Core(Ignore(s, p), Nothing) && SameGuards(s, Ignore(s, p))
  {
    if Ids(s.all, p) != [] {
      BlocksLive(s.all, ActivePanes(s), p);
      if s.noOutput {
        NoBytesNoBlocks(s.all, p, ActivePanes(s));
      }
    }
    StartPane(s, p, s.panes[p], |Stream(s, p)|);
  }

  lemma {:induction false} NoBytesNoBlocks(all: seq<Block>, p: PaneId, active: set<PaneId>)
    requires Live(all, active) && OutputBytes(all) == 0
    ensures Ids(all, p) == []
  {
    if all != [] {
      NoBytesNoBlocks(all[1..], p, active);
    }
  }

  /** All output blocks dropped because the client is told to exit. */
  lemma ExitOk(s: State, held: Held)
    requires Core(s, held)
    ensures Core(s.(exit := true, all := OnlyLines(s.all)), Nothing)
  {
    hide Seen, LinesOut, OutOrder, LastLine, Live, Sorted, Ids, Queued, LinesIn, ReplyBytes, OutputBytes, OnlyLines;
    var t := s.(exit := true, all := OnlyLines(s.all));
    SameActive(s, t);
    OnlyLinesOk(s.all, LastLine(s.out), s.nextId, ActivePanes(s));
    OnlyLinesFacts(s.all, 0);
    assert PendingOk(t) by {
      hide QueueOk, PanesOk;
      forall q ensures Ids(t.all, q) == [] { OnlyLinesFacts(s.all, q); }
    }
    SamePanes(s, held, t, Nothing);
  }

  // ---- Lines ----

  /** A line sent, `rest` being left in the queue. */
  function LineSent(s: State, line: Line, rest: seq<Block>, accepted: seq<Line>, replyBytes: nat, nextId: nat): State {
    s.(out := s.out + [Wrote(line)], outLen := s.outLen + Len(Wrote(line)), all := rest, accepted := accepted,
       replyBytes := replyBytes, nextId := nextId)
  }

  lemma LineSentOk(s: State, line: Line, rest: seq<Block>, accepted: seq<Line>, replyBytes: nat, nextId: nat)
    requires Core(s, Nothing) && LastLine(s.out) < line.id < nextId && s.nextId <= nextId
    requires Sorted(rest, line.id, nextId) && Live(rest, ActivePanes(s))
    requires accepted == LinesOut(s.out) + [line] + LinesIn(rest) && replyBytes == ReplyBytes(rest)
    requires OutputBytes(rest) == OutputBytes(s.all)
    requires forall p :: Ids(rest, p) == Ids(s.all, p) && Queued(rest, p) == Queued(s.all, p)
    ensures var t := LineSent(s, line, rest, accepted, replyBytes, nextId); Core(t, Nothing) && LineStep(s, t)
  {
    hide Live, Sorted, LinesIn, Ids, Queued, Seen, ReplyBytes, OutputBytes, LinesOut, OutOrder, LastLine;
    var t := LineSent(s, line, rest, accepted, replyBytes, nextId);
    OutMore(s.out, Wrote(line));
    LinesOutMore(s.out, Wrote(line));
    SameActive(s, t);
    assert PendingOk(t) by { hide QueueOk, PanesOk; }
    assert PanesOk(t, Nothing) by {
      hide QueueOk, PendingOk;
      forall q | q in s.panes && s.panes[q].startOut <= |s.out| ensures SameAccount(s, Nothing, t, Nothing, q) {
        SeenMore(s.out, s.panes[q].startOut, Wrote(line), q);
      }
      SamePanes(s, Nothing, t, Nothing);
    }
  }

  lemma RefuseOk(s: State)
    requires Core(s, Nothing)
    ensures Core(Refuse(s), Nothing) && LineStep(s, Refuse(s)) && Refuse(s).discard && SameLines(s, Refuse(s))
  {
    hide QueueOk, PendingOk, PanesOk, LineStep, OnlyLines;
    if !s.exit { ExitOk(s, Nothing); }
    Discarding(Exit(s));
    RefuseStep(s);
  }

  lemma Discarding(s: State)
    requires Core(s, Nothing)
    ensures Core(s.(discard := true), Nothing)
  {
    hide Live, Sorted, OutOrder, LastLine, LinesOut, LinesIn, Ids, Queued, Seen, ReplyBytes, OutputBytes;
    SameActive(s, s.(discard := true));
    SamePanes(s, Nothing, s.(discard := true), Nothing);
  }

  lemma RefuseStep(s: State)
    ensures LineStep(s, Refuse(s)) && SameLines(s, Refuse(s))
  {
    hide Ids, OutputBytes, OnlyLines;
    OnlyLinesFacts(s.all, 0);
    forall p ensures Ids(s.all, p) == [] ==> Ids(Refuse(s).all, p) == [] { OnlyLinesFacts(s.all, p); }
  }

  lemma SendLineOk(s: State, line: Line)
    requires Core(s, Nothing) && s.all == [] && line.id == s.nextId
    ensures Core(SendLine(s, line), Nothing) && LineStep(s, SendLine(s, line))
  {
    hide LinesOut, Seen, OutOrder, LastLine, PanesOk, PendingOk;
    LinesEmpty(s.out, line);
    LineSentOk(s, line, [], s.accepted + [line], s.replyBytes, s.nextId + 1);
    SendLineIs(s, line);
  }

  lemma SendLineIs(s: State, line: Line)
    requires s.all == []
    ensures SendLine(s, line) == LineSent(s, line, [], s.accepted + [line], s.replyBytes, s.nextId + 1)
  {
  }

  lemma LinesEmpty(out: seq<Item>, line: Line)
    ensures LinesOut(out) + LinesIn([]) + [line] == LinesOut(out) + [line] + LinesIn([])
  {
  }

  lemma StoreLineOk(s: State, line: Line)
    requires Core(s, Nothing) && line.id == s.nextId
    ensures Core(StoreLine(s, line), Nothing) && LineStep(s, StoreLine(s, line))
  {
    hide OutOrder, LastLine, LinesOut, Seen, Live, Sorted, LinesIn, Ids, Queued, ReplyBytes, OutputBytes;
    var t := StoreLine(s, line);
    SameActive(s, t);
    AddLastOk(s.all, LineBlock(line), LastLine(s.out), s.nextId, ActivePanes(s));
    AddLast(s.all, LineBlock(line), 0);
    assert LinesOut(s.out) + (LinesIn(s.all) + [line]) == LinesOut(s.out) + LinesIn(s.all) + [line];
    forall q ensures Ids(t.all, q) == Ids(s.all, q) && Queued(t.all, q) == Queued(s.all, q) {
      AddLast(s.all, LineBlock(line), q);
    }
    assert PendingOk(t) by { hide QueueOk, PanesOk; }
    assert PanesOk(t, Nothing) by {
      hide QueueOk, PendingOk;
      SameSeen(s, t, Nothing);
      SamePanes(s, Nothing, t, Nothing);
    }
  }

  /** Fields that lines do not change, and output blocks, which they can only cause to be dropped. */
  ghost predicate LineStep(s: State, t: State) {
    && t.panes == s.panes && t.pendingList == s.pendingList && t.streams == s.streams && t.fatal == s.fatal
    && t.noOutput == s.noOutput && t.pauseAfter == s.pauseAfter && t.pauseAge == s.pauseAge
    && (s.exit ==> t.exit) && |s.out| <= |t.out|
    && OutputBytes(t.all) <= OutputBytes(s.all) && (t.exit && !s.exit ==> OutputBytes(t.all) == 0)
    && (forall p :: Ids(s.all, p) == [] ==> Ids(t.all, p) == [])
    && ((forall p :: Queued(t.all, p) == Queued(s.all, p)) || (t.exit && OutputBytes(t.all) == 0))
  }

  lemma StepSelf(s: State)
    ensures LineStep(s, s)
  {
  }

  predicate SameLines(s: State, t: State) {
    t.guardDepth == s.guardDepth && t.deferred == s.deferred && t.asked == s.asked && t.accepted == s.accepted
  }

  /** What accepting a line does to the guard fields. */
  predicate Accepts(s: State, t: State, kind: Kind, text: seq<Byte>) {
    && t.guardDepth == s.guardDepth && t.deferred == s.deferred && t.asked == s.asked && (s.discard ==> t.discard)
    && t.accepted == if t.discard then s.accepted else s.accepted + [Line(s.nextId, kind, text)]
  }

  lemma SendAccepts(s: State, kind: Kind, text: seq<Byte>)
    requires !s.discard
    ensures Accepts(s, SendLine(s, Line(s.nextId, kind, text)), kind, text)
    ensures Accepts(s, StoreLine(s, Line(s.nextId, kind, text)), kind, text)
  {
  }

  /** A line is accepted at the end of the queue, or refused. */
  lemma WriteLineOk(s: State, kind: Kind, text: seq<Byte>)
    requires Core(s, Nothing)
    ensures Core(WriteLine(s, kind, text), Nothing) && LineStep(s, WriteLine(s, kind, text))
    ensures Accepts(s, WriteLine(s, kind, text), kind, text)
  {
    hide Core, LineStep, SendLine, StoreLine, Refuse, TooFarBehind;
    if s.discard {
      StepSelf(s);
    } else if TooFarBehind(s, |text| + 1) {
      RefuseOk(s);
    } else {
      SendAccepts(s, kind, text);
      if s.all == [] { SendLineOk(s, Line(s.nextId, kind, text)); } else { StoreLineOk(s, Line(s.nextId, kind, text)); }
    }
  }
}
