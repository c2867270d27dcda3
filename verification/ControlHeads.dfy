/** What a client reads off the text of the messages it gets: the pane, how old the output is, and the output. */
module ControlHeads {
  import opened Bytes
  import opened ControlOutput
  import opened ControlModel
  import opened ControlQueue
  import opened ControlInvariant
  import opened ControlSteps
  import opened ControlWriter
  import opened ControlRun
  import opened ControlShortage
  import opened ControlAge

  // ---- Reading a message ----

  datatype Heard = Heard(pane: PaneId, age: Option<nat>, data: seq<Byte>)

  /** A number that starts at `i`, and where it ends. */
  function ReadNumber(s: seq<Byte>, i: nat): (r: Option<(nat, nat)>)
    requires i <= |s|
    ensures r.Some? ==> i < r.value.1 <= |s|
  {
    var j := SkipDigits(s, i);
    if j == i || Number(s[i..j]) < 0 then None else Some((Number(s[i..j]), j))
  }

  predicate Starts(s: seq<Byte>, prefix: seq<Byte>) {
    |prefix| <= |s| && s[..|prefix|] == prefix
  }

  /** "%output %PANE DATA" or "%extended-output %PANE AGE : DATA". */
  function ReadMessage(s: seq<Byte>): Option<Heard> {
    if Starts(s, OUTPUT) then
      var pane := ReadNumber(s, |OUTPUT|);
      if pane.None? || At(s, pane.value.1) != 0x20 then None
      else Some(Heard(pane.value.0, None, Unescape(s[pane.value.1 + 1..])))
    else if Starts(s, EXTENDED_OUTPUT) then
      var pane := ReadNumber(s, |EXTENDED_OUTPUT|);
      if pane.None? || At(s, pane.value.1) != 0x20 then None
      else
        var age := ReadNumber(s, pane.value.1 + 1);
        if age.None? || !Starts(s[age.value.1..], [0x20, 0x3a, 0x20]) then None
        else Some(Heard(pane.value.0, Some(age.value.0), Unescape(s[age.value.1 + 3..])))
    else None
  }

  lemma NumberReadBack(s: seq<Byte>, i: nat, n: nat, rest: seq<Byte>)
    requires i <= |s| && s[i..] == Decimal(n) + rest && rest != [] && !IsDigit(rest[0])
    ensures var j := i + |Decimal(n)|;
            ReadNumber(s, i) == Some((n, j)) && j < |s| && s[j..] == rest && At(s, j) == rest[0]
  {
    hide Decimal, Number;
    var j := i + |Decimal(n)|;
    DecimalNumber(n);
    assert s[i..][..|Decimal(n)|] == s[i..j] == Decimal(n);
    assert s[i..][|Decimal(n)|..] == s[j..];
    assert s[j] == s[j..][0];
    forall k | i <= k < j ensures IsDigit(s[k]) {
      assert s[k] == s[i..j][k - i];
    }
    SkipDigitsEnd(s, i, j);
  }

  /** A number after a prefix, and what follows it. */
  lemma NumberAfter(s: seq<Byte>, prefix: seq<Byte>, n: nat, rest: seq<Byte>)
    requires s == prefix + (Decimal(n) + rest) && rest != [] && !IsDigit(rest[0])
    ensures var j := |prefix| + |Decimal(n)|;
            ReadNumber(s, |prefix|) == Some((n, j)) && j < |s| && s[j..] == rest && At(s, j) == rest[0] && Starts(s, prefix)
  {
    hide Decimal, ReadNumber;
    assert s[|prefix|..] == Decimal(n) + rest;
    assert s[..|prefix|] == prefix;
    NumberReadBack(s, |prefix|, n, rest);
  }

  lemma PlainRead(s: seq<Byte>, p: PaneId, payload: seq<Byte>)
    requires s == OUTPUT + (Decimal(p) + ([0x20] + payload))
    ensures ReadMessage(s) == Some(Heard(p, None, Unescape(payload)))
  {
    hide Decimal, ReadNumber, Unescape, OUTPUT, EXTENDED_OUTPUT;
    NumberAfter(s, OUTPUT, p, [0x20] + payload);
    var j := |OUTPUT| + |Decimal(p)|;
    assert s[j..][1..] == s[j + 1..] == payload;
  }

  lemma NotPlain(s: seq<Byte>)
    requires Starts(s, EXTENDED_OUTPUT)
    ensures !Starts(s, OUTPUT)
  {
    assert s[..|EXTENDED_OUTPUT|][1] == s[1] == 0x65;
    assert OUTPUT[1] == 0x6f;
  }

  lemma ExtendedRead(s: seq<Byte>, p: PaneId, age: nat, payload: seq<Byte>)
    requires s == EXTENDED_OUTPUT + (Decimal(p) + ([0x20] + (Decimal(age) + ([0x20, 0x3a, 0x20] + payload))))
    ensures ReadMessage(s) == Some(Heard(p, Some(age), Unescape(payload)))
  {
    hide Decimal, ReadNumber, Unescape, OUTPUT, EXTENDED_OUTPUT, ReadMessage, Starts;
    var tail := [0x20, 0x3a, 0x20] + payload;
    var j := |EXTENDED_OUTPUT| + |Decimal(p)|;
    NumberAfter(s, EXTENDED_OUTPUT, p, [0x20] + (Decimal(age) + tail));
    AgeRead(s, p, age, tail);
    TailRead(s, j + 1 + |Decimal(age)|, payload);
    PartsRead(s, j, j + 1 + |Decimal(age)|, p, age);
  }

  lemma PartsRead(s: seq<Byte>, j: nat, k: nat, p: PaneId, age: nat)
    requires Starts(s, EXTENDED_OUTPUT) && ReadNumber(s, |EXTENDED_OUTPUT|) == Some((p, j)) && At(s, j) == 0x20 && j < |s|
    requires ReadNumber(s, j + 1) == Some((age, k)) && k <= |s| && Starts(s[k..], [0x20, 0x3a, 0x20])
    ensures k + 3 <= |s| && ReadMessage(s) == Some(Heard(p, Some(age), Unescape(s[k + 3..])))
  {
    hide ReadNumber, Unescape, OUTPUT, EXTENDED_OUTPUT;
    NotPlain(s);
  }

  lemma AgeRead(s: seq<Byte>, p: PaneId, age: nat, tail: seq<Byte>)
    requires s == EXTENDED_OUTPUT + (Decimal(p) + ([0x20] + (Decimal(age) + tail))) && tail != [] && !IsDigit(tail[0])
    ensures var j := |EXTENDED_OUTPUT| + |Decimal(p)| + 1;
            j <= |s| && ReadNumber(s, j) == Some((age, j + |Decimal(age)|)) && s[j + |Decimal(age)|..] == tail
  {
    hide Decimal, ReadNumber, EXTENDED_OUTPUT;
    var prefix := EXTENDED_OUTPUT + Decimal(p) + [0x20];
    assert s == prefix + (Decimal(age) + tail);
    NumberAfter(s, prefix, age, tail);
  }

  lemma TailRead(s: seq<Byte>, k: nat, payload: seq<Byte>)
    requires k <= |s| && s[k..] == [0x20, 0x3a, 0x20] + payload
    ensures Starts(s[k..], [0x20, 0x3a, 0x20]) && k + 3 <= |s| && s[k + 3..] == payload
  {
    assert s[k..][..3] == [0x20, 0x3a, 0x20];
    assert s[k..][3..] == s[k + 3..];
  }

  lemma HeadText(p: PaneId, extended: bool, age: nat, payload: seq<Byte>)
    ensures Head(p, extended, age) + payload
         == if extended then EXTENDED_OUTPUT + (Decimal(p) + ([0x20] + (Decimal(age) + ([0x20, 0x3a, 0x20] + payload))))
            else OUTPUT + (Decimal(p) + ([0x20] + payload))
  {
    hide Decimal, OUTPUT, EXTENDED_OUTPUT;
  }

  /** Any message is read back: the pane, the age if the client asked for it, and the bytes. */
  lemma HeadReadBack(p: PaneId, extended: bool, age: nat, payload: seq<Byte>)
    ensures ReadMessage(Head(p, extended, age) + payload)
         == Some(Heard(p, if extended then Some(age) else None, Unescape(payload)))
  {
    hide Decimal, ReadMessage, Unescape, Head, OUTPUT, EXTENDED_OUTPUT;
    var s := Head(p, extended, age) + payload;
    HeadText(p, extended, age, payload);
    if extended { ExtendedRead(s, p, age, payload); } else { PlainRead(s, p, payload); }
  }

  // ---- What is sent is headed by the pane and the age of the block it begins with ----

  predicate BlockAt(all: seq<Block>, i: nat, p: PaneId, id: nat, when: nat) {
    i < |all| && all[i].OutputBlock? && all[i].pane == p && all[i].id == id && all[i].t == when
  }

  /** A block of the pane, queued at `when`. */
  ghost predicate Born(all: seq<Block>, p: PaneId, id: nat, when: nat) {
    exists i: nat :: BlockAt(all, i, p, id, when)
  }

  predicate HasAge(m: Item, extended: bool, when: nat, now: nat)
    requires m.Message?
  {
    m.head == Head(m.pane, extended, if when < now then now - when else 0)
  }

  ghost predicate Proper(s: State, m: Item, now: nat)
    requires m.Message?
  {
    exists when: nat :: Born(s.all, m.pane, m.first, when) && HasAge(m, s.pauseAfter, when, now)
  }

  ghost predicate Fewer(a: seq<Block>, b: seq<Block>) {
    forall i: nat :: i < |b| && b[i].OutputBlock? ==> Born(a, b[i].pane, b[i].id, b[i].t)
  }

  /** How long the items are together. */
  function Length(out: seq<Item>): nat {
    if out == [] then 0 else Length(out[..|out| - 1]) + Len(out[|out| - 1])
  }

  lemma LengthMore(out: seq<Item>, item: Item)
    ensures Length(out + [item]) == Length(out) + Len(item)
  {
    assert (out + [item])[..|out|] == out;
  }

  /** What was sent makes the buffer so much longer, and lines are queued only up to the bound on replies. */
  predicate Counted(s: State, t: State) {
    && t.outLen - s.outLen == Length(t.out) - Length(s.out)
    && (t.replyBytes <= s.replyBytes || t.replyBytes < CONTROL_MAXIMUM_REPLY_BUFFER)
  }

  /** What was sent since `s`. */
  ghost predicate SentSince(s: State, t: State, now: nat) {
    && t.pauseAfter == s.pauseAfter && Fewer(s.all, t.all) && s.out <= t.out && Counted(s, t)
    && forall k: nat :: |s.out| <= k < |t.out| && t.out[k].Message? ==> Proper(s, t.out[k], now)
  }

  lemma FewerTrans(a: seq<Block>, b: seq<Block>, c: seq<Block>)
    requires Fewer(a, b) && Fewer(b, c)
    ensures Fewer(a, c)
  {
    forall i: nat | i < |c| && c[i].OutputBlock? ensures Born(a, c[i].pane, c[i].id, c[i].t) {
      var j: nat :| BlockAt(b, j, c[i].pane, c[i].id, c[i].t);
    }
  }

  lemma SentTrans(r: State, s: State, t: State, now: nat)
    requires SentSince(r, s, now) && SentSince(s, t, now)
    ensures SentSince(r, t, now)
  {
    FewerTrans(r.all, s.all, t.all);
    forall k: nat | |r.out| <= k < |t.out| && t.out[k].Message? ensures Proper(r, t.out[k], now) {
      if k < |s.out| { assert t.out[k] == s.out[k]; } else { ProperEarlier(r, s, t.out[k], now); }
    }
  }

  lemma ProperEarlier(r: State, s: State, m: Item, now: nat)
    requires m.Message? && Proper(s, m, now) && Fewer(r.all, s.all) && r.pauseAfter == s.pauseAfter
    ensures Proper(r, m, now)
  {
    hide HasAge;
    var when: nat :| Born(s.all, m.pane, m.first, when) && HasAge(m, s.pauseAfter, when, now);
    var i: nat :| BlockAt(s.all, i, m.pane, m.first, when);
  }

  /** Nothing new is sent but lines, and no output block is new. */
  predicate NoMessages(s: State, t: State) {
    && t.pauseAfter == s.pauseAfter && s.out <= t.out && Counted(s, t)
    && forall k: nat :: |s.out| <= k < |t.out| ==> t.out[k].Wrote?
  }

  lemma NoMessagesTrans(r: State, s: State, t: State)
    requires NoMessages(r, s) && NoMessages(s, t)
    ensures NoMessages(r, t)
  {
    forall k: nat | |r.out| <= k < |t.out| ensures t.out[k].Wrote? {
      if k < |s.out| { assert t.out[k] == s.out[k]; }
    }
  }

  lemma NoneSent(s: State, t: State, now: nat)
    requires NoMessages(s, t) && Fewer(s.all, t.all)
    ensures SentSince(s, t, now)
  {
  }

  lemma FewerSelf(all: seq<Block>)
    ensures Fewer(all, all) && (all != [] ==> Fewer(all, all[1..])) && forall b: Block :: b.LineBlock? ==> Fewer(all, all + [b])
  {
    forall i: nat | i < |all| && all[i].OutputBlock? ensures Born(all, all[i].pane, all[i].id, all[i].t) {
      assert BlockAt(all, i, all[i].pane, all[i].id, all[i].t);
    }
  }

  lemma FewerCons(b: Block, rest: seq<Block>, fewer: seq<Block>)
    requires Fewer(rest, fewer)
    ensures Fewer([b] + rest, fewer) && Fewer([b] + rest, [b] + fewer)
  {
    var all := [b] + rest;
    forall i: nat | i < |fewer| && fewer[i].OutputBlock? ensures Born(all, fewer[i].pane, fewer[i].id, fewer[i].t) {
      var j: nat :| BlockAt(rest, j, fewer[i].pane, fewer[i].id, fewer[i].t);
      assert BlockAt(all, j + 1, fewer[i].pane, fewer[i].id, fewer[i].t);
    }
    if b.OutputBlock? { assert BlockAt(all, 0, b.pane, b.id, b.t); }
  }

  lemma {:induction false} FewerWithout(all: seq<Block>, p: PaneId)
    ensures Fewer(all, Without(all, p)) && Fewer(all, OnlyLines(all))
  {
    hide Fewer;
    if all == [] {
      FewerSelf(all);
    } else {
      FewerWithout(all[1..], p);
      assert all == [all[0]] + all[1..];
      FewerCons(all[0], all[1..], Without(all[1..], p));
      FewerCons(all[0], all[1..], OnlyLines(all[1..]));
      assert [] + Without(all[1..], p) == Without(all[1..], p) && [] + OnlyLines(all[1..]) == OnlyLines(all[1..]);
    }
  }

  lemma {:induction false} FewerTaken(all: seq<Block>, p: PaneId, n: nat)
    requires Ids(all, p) != [] && n <= First(all, p).size
    ensures Fewer(all, TakeFrom(all, p, n)) && Born(all, p, First(all, p).id, First(all, p).t)
  {
    if OfPane(all[0], p) {
      FewerSelf(all);
      var b := all[0];
      assert BlockAt(all, 0, p, b.id, b.t);
      if n < b.size {
        var r := [b.(size := b.size - n)] + all[1..];
        forall i: nat | i < |r| && r[i].OutputBlock? ensures Born(all, r[i].pane, r[i].id, r[i].t) {
          assert BlockAt(all, i, r[i].pane, r[i].id, r[i].t);
        }
      }
    } else {
      assert [] + Ids(all[1..], p) == Ids(all[1..], p);
      FewerTaken(all[1..], p, n);
      assert all == [all[0]] + all[1..];
      FewerCons(all[0], all[1..], TakeFrom(all[1..], p, n));
      var b := First(all, p);
      var i: nat :| BlockAt(all[1..], i, p, b.id, b.t);
      assert BlockAt(all, i + 1, p, b.id, b.t);
    }
  }

  // ---- Lines ----

  lemma LineNoMessages(s: State, kind: Kind, text: seq<Byte>)
    ensures var t := WriteLine(s, kind, text); NoMessages(s, t) && Fewer(s.all, t.all)
  {
    hide Refuse, SendLine, StoreLine, NoMessages, Fewer;
    FewerSelf(s.all);
    SameNoMessages(s);
    RefuseNoMessages(s);
    StoredNoMessages(s, Line(s.nextId, kind, text));
  }

  lemma SameNoMessages(s: State)
    ensures NoMessages(s, s)
  {
  }

  lemma RefuseNoMessages(s: State)
    ensures NoMessages(s, Refuse(s)) && Fewer(s.all, Refuse(s).all)
  {
    hide OnlyLines, Fewer;
    FewerSelf(s.all);
    FewerWithout(s.all, 0);
  }

  lemma StoredNoMessages(s: State, line: Line)
    ensures NoMessages(s, SendLine(s, line)) && Fewer(s.all, SendLine(s, line).all)
    ensures !TooFarBehind(s, |line.text| + 1) ==> NoMessages(s, StoreLine(s, line))
    ensures Fewer(s.all, StoreLine(s, line).all)
  {
    hide Fewer, Length;
    LengthMore(s.out, Wrote(line));
    FewerSelf(s.all);
  }

  lemma NotifyNoMessages(s: State, text: seq<Byte>)
    ensures var t := NotifyLine(s, text); NoMessages(s, t) && Fewer(s.all, t.all)
  {
    hide WriteLine, Fewer;
    FewerSelf(s.all);
    LineNoMessages(s.(asked := s.asked + [text]), Notify, text);
  }

  lemma {:induction false} DeferredNoMessages(s: State)
    ensures NoMessages(s, FlushDeferred(s))
    decreases |s.deferred|
  {
    hide WriteLine;
    if s.deferred != [] {
      var s1 := s.(deferred := s.deferred[1..]);
      var s2 := WriteLine(s1, Notify, s.deferred[0]);
      LineNoMessages(s1, Notify, s.deferred[0]);
      LineTold(s1, Notify, s.deferred[0]);
      DeferredNoMessages(s2);
      NoMessagesTrans(s, s2, FlushDeferred(s2));
    }
  }

  lemma GuardNoMessages(s: State, begin: bool, text: seq<Byte>)
    ensures NoMessages(s, Guard(s, begin, text))
  {
    hide WriteLine, FlushDeferred;
    if begin {
      LineNoMessages(s.(guardDepth := s.guardDepth + 1), Begin, text);
    } else {
      var s1 := WriteLine(s, Close, text);
      LineNoMessages(s, Close, text);
      if s1.guardDepth > 0 {
        var s2 := s1.(guardDepth := s1.guardDepth - 1);
        DeferredNoMessages(s2);
        NoMessagesTrans(s, s2, FlushDeferred(s2));
      }
    }
  }

  lemma DoPauseNoMessages(s: State, p: PaneId)
    requires p in s.panes
    ensures var t := DoPause(s, p); NoMessages(s, t) && Fewer(s.all, t.all)
  {
    hide NotifyLine, Fewer, Without, Queued;
    var s1 := DiscardPane(s, p);
    FewerWithout(s.all, p);
    var s2 := s1.(panes := s1.panes[p := s1.panes[p].(paused := true)]);
    NotifyNoMessages(s2, PAUSE + Decimal(p));
    FewerTrans(s.all, s2.all, DoPause(s, p).all);
  }

  lemma AgedNoMessages(s: State, p: PaneId)
    requires p in s.panes
    ensures var t := Aged(s, p); NoMessages(s, t) && Fewer(s.all, t.all)
  {
    hide DoPause, Fewer, OnlyLines;
    if s.pauseAfter { DoPauseNoMessages(s, p); } else { FewerWithout(s.all, p); }
  }

  // ---- The writer ----

  lemma {:induction false} FlushSent(s: State, now: nat)
    ensures SentSince(s, FlushLines(s), now)
    decreases |s.all|
  {
    hide SentSince, FlushOne;
    if s.all != [] && s.all[0].LineBlock? {
      FlushOneSent(s, now);
      FlushOneFields(s);
      FlushSent(FlushOne(s), now);
      SentTrans(s, FlushOne(s), FlushLines(FlushOne(s)), now);
    } else {
      SelfSent(s, now);
    }
  }

  lemma FlushOneSent(s: State, now: nat)
    requires s.all != [] && s.all[0].LineBlock?
    ensures SentSince(s, FlushOne(s), now)
  {
    hide Fewer, Length;
    LengthMore(s.out, Wrote(s.all[0].line));
    FewerSelf(s.all);
  }

  lemma SelfSent(s: State, now: nat)
    ensures SentSince(s, s, now) && SentSince(s, s.(fatal := true), now)
  {
    hide Fewer;
    FewerSelf(s.all);
  }

  lemma ItemSent(r: State, s: State, m: Item, now: nat)
    requires SentSince(r, s, now) && m.Message? && Proper(r, m, now)
    ensures SentSince(r, Send(s, m), now)
  {
    hide Fewer, Proper, Length;
    LengthMore(s.out, m);
    var t := Send(s, m);
    forall k: nat | |r.out| <= k < |t.out| && t.out[k].Message? ensures Proper(r, t.out[k], now) {
      if k < |s.out| { assert t.out[k] == s.out[k]; }
    }
  }

  /** The message under construction has its head. */
  ghost predicate HeldProper(r: State, held: Held, now: nat) {
    held.Held? ==> held.message.Message? && Proper(r, held.message, now)
  }

  lemma ExtendProper(r: State, s: State, p: PaneId, held: Held, now: nat, data: seq<Byte>)
    requires SentSince(r, s, now) && HeldProper(r, held, now) && Ids(s.all, p) != []
    ensures Proper(r, Extend(s, held, First(s.all, p), now, data), now)
  {
    hide Ids, First, Fewer, Head;
    var b := First(s.all, p);
    var m := Extend(s, held, b, now, data);
    if held.Held? {
      var when: nat :| Born(r.all, m.pane, m.first, when) && HasAge(held.message, r.pauseAfter, when, now);
      assert HasAge(m, r.pauseAfter, when, now);
    } else {
      FewerTaken(s.all, p, 0);
      assert HasAge(m, s.pauseAfter, b.t, now);
      assert Proper(s, m, now);
      ProperEarlier(r, s, m, now);
    }
  }

  lemma TakenSent(r: State, s: State, p: PaneId, size: nat, now: nat)
    requires SentSince(r, s, now) && p in s.panes && Ids(s.all, p) != [] && size <= First(s.all, p).size
    ensures SentSince(r, Taken(s, p, size), now)
  {
    hide Ids, First, TakeFrom, Fewer, Proper;
    FewerTaken(s.all, p, size);
    FewerTrans(r.all, s.all, TakeFrom(s.all, p, size));
  }

  lemma ChunkSent(r: State, s: State, p: PaneId, now: nat, size: nat, held: Held)
    requires SentSince(r, s, now) && HeldProper(r, held, now)
    requires p in s.panes && Ids(s.all, p) != [] && size <= First(s.all, p).size
    requires s.panes[p].offset + size <= |Stream(s, p)|
    ensures var n := Chunk(s, p, now, size, held); SentSince(r, n.0, now) && HeldProper(r, n.1, now)
  {
    hide Ids, First, Taken, Extend, FlushLines, SentSince, Proper;
    var b, offset := First(s.all, p), s.panes[p].offset;
    var data := Stream(s, p)[offset..offset + size];
    var m := Extend(s, held, b, now, data);
    var taken := Taken(s, p, size);
    ExtendProper(r, s, p, held, now, data);
    TakenSent(r, s, p, size, now);
    ItemSent(r, taken, m, now);
    FlushSent(Send(taken, m), now);
    SentTrans(r, Send(taken, m), FlushLines(Send(taken, m)), now);
  }

  lemma {:induction false} ChunksSent(r: State, s: State, p: PaneId, now: nat, limit: nat, used: nat, held: Held)
    requires SentSince(r, s, now) && HeldProper(r, held, now) && p in s.panes && used <= limit
    ensures SentSince(r, WriteChunks(s, p, now, limit, used, held), now)
    decreases limit - used, |s.all|
  {
    hide Ids, First, Aged, TooOld, Chunk, Stream, SentSince, HeldProper, WriteChunks;
    HeldIsMessage(r, held, now);
    if used == limit || Ids(s.all, p) == [] {
      EndSent(r, s, p, now, limit, used, held);
    } else {
      ChunksTurn(s, p, now, limit, used, held);
      var size := Least(First(s.all, p).size, limit - used);
      if TooOld(s, p, now) {
        AgedNoMessages(s, p);
        NoneSent(s, Aged(s, p), now);
        SentTrans(r, s, Aged(s, p), now);
      } else if s.panes[p].offset + size > |Stream(s, p)| {
        SelfSent(s, now);
        SentTrans(r, s, s.(fatal := true), now);
      } else {
        ChunkSent(r, s, p, now, size, held);
        var n := Chunk(s, p, now, size, held);
        ChunksSent(r, n.0, p, now, limit, used + size, n.1);
      }
    }
  }

  lemma HeldIsMessage(r: State, held: Held, now: nat)
    requires HeldProper(r, held, now)
    ensures held.Held? ==> held.message.Message?
  {
  }

  lemma EndSent(r: State, s: State, p: PaneId, now: nat, limit: nat, used: nat, held: Held)
    requires SentSince(r, s, now) && HeldProper(r, held, now) && p in s.panes && used <= limit
    requires used == limit || Ids(s.all, p) == []
    ensures SentSince(r, WriteChunks(s, p, now, limit, used, held), now)
  {
    hide Ids, SentSince;
    if held.Held? { ItemSent(r, s, held.message, now); }
  }

  lemma PendingSent(s: State, p: PaneId, limit: nat, now: nat, gone: set<PaneId>)
    requires p in s.panes
    ensures SentSince(s, WritePending(s, p, limit, now, gone), now)
  {
    hide WriteChunks, FlushLines, Without, Queued, SentSince;
    if p in gone {
      var s1 := DiscardPane(s, p);
      FewerWithout(s.all, p);
      NoneSent(s, s1, now);
      FlushSent(s1, now);
      SentTrans(s, s1, FlushLines(s1), now);
    } else {
      SelfSent(s, now);
      ChunksSent(s, s, p, now, limit, 0, Nothing);
    }
  }

  lemma VisitSent(s: State, p: PaneId, limit: nat, now: nat, gone: set<PaneId>)
    requires p in s.panes
    ensures SentSince(s, Visit(s, p, limit, now, gone), now)
  {
    hide WritePending, Ids, SentSince;
    var t := WritePending(s, p, limit, now, gone);
    PendingSent(s, p, limit, now, gone);
    if p in t.panes {
      UnpendSent(t, p, now);
      SentTrans(s, t, Unpend(t, p), now);
    }
  }

  lemma UnpendSent(s: State, p: PaneId, now: nat)
    requires p in s.panes
    ensures SentSince(s, Unpend(s, p), now)
  {
    hide RemoveOne, Fewer;
    FewerSelf(s.all);
  }

  lemma {:induction false} PassSent(s: State, list: seq<PaneId>, limit: nat, now: nat, gone: set<PaneId>)
    ensures SentSince(s, Pass(s, list, limit, now, gone), now)
    decreases |list|
  {
    hide Visit, SentSince;
    if list == [] || s.outLen >= CONTROL_BUFFER_HIGH || s.fatal || list[0] !in s.panes {
      SelfSent(s, now);
    } else {
      var t := Visit(s, list[0], limit, now, gone);
      VisitSent(s, list[0], limit, now, gone);
      PassSent(t, list[1..], limit, now, gone);
      SentTrans(s, t, Pass(t, list[1..], limit, now, gone), now);
    }
  }

  lemma {:induction false} LoopSent(s: State, now: nat, gone: set<PaneId>)
    requires Inv(s)
    ensures SentSince(s, WriteLoop(s, now, gone), now)
    decreases Work(s)
  {
    hide SentSince, Pass, QueueOk, PanesOk, GuardOk, OutputBytes, Ids;
    if s.fatal || s.outLen >= CONTROL_BUFFER_HIGH || s.pendingCount == 0 {
      SelfSent(s, now);
    } else {
      var t := Pass(s, s.pendingList, Limit(s), now, gone);
      PassOk(s, s.pendingList, Limit(s), now, gone);
      PassSent(s, s.pendingList, Limit(s), now, gone);
      if !t.fatal {
        LoopSent(t, now, gone);
        SentTrans(s, t, WriteLoop(t, now, gone), now);
      }
    }
  }

  // ---- Every event ----

  /** Messages are sent only when the client can be written to; each is headed by its pane and, for a client with
    * pause-after, by the age of the block it begins with. */
  lemma StepSent(s: State, e: Event)
    requires Inv(s)
    ensures if e.Writable? then SentSince(s, Step(s, e), e.now)
            else s.out <= Step(s, e).out && forall k: nat :: |s.out| <= k < |Step(s, e).out| ==> Step(s, e).out[k].Wrote?
  {
    hide Inv, WriteLine, NotifyLine, Guard, WriteOutput, PausePane, ContinuePane, Callback, SentSince, ResetPane, SetOff,
      SetOn, SetNoOutput, Append, MoveOwn, OnlyLines;
    if s.fatal {
      if e.Writable? { SelfSent(s, e.now); }
    } else {
      match e
      case Writable(now, gone) => CallbackSent(s, now, gone);
      case ReplyLine(text) => LineNoMessages(s, Reply, text);
      case Notification(text) => NotifyNoMessages(s, text);
      case GuardLine(begin, text) => GuardNoMessages(s, begin, text);
      case PanePause(p) => PauseSent(s, p);
      case PaneContinue(p) => ContinueSent(s, p);
      case Output(p, now) => OutputSent(s, p, now);
      case _ => NothingSent(s, e);
    }
  }

  lemma NothingSent(s: State, e: Event)
    requires Inv(s) && (e.PaneData? || e.PaneUsed? || e.PaneReset? || e.PaneOff? || e.PaneOn? || e.NoOutputFlag?
                        || e.PauseAfterFlag? || e.Sent? || e.Discard? || e.ExitFlag?)
    ensures Step(s, e).out == s.out
  {
    hide Inv, OnlyLines, Without, Queued, Stream, Own;
  }

  lemma CallbackSent(s: State, now: nat, gone: set<PaneId>)
    requires Inv(s)
    ensures SentSince(s, Callback(s, now, gone), now)
  {
    hide Inv, SentSince, FlushLines, WriteLoop;
    FlushOk(s);
    FlushSent(s, now);
    LoopSent(FlushLines(s), now, gone);
    SentTrans(s, FlushLines(s), WriteLoop(FlushLines(s), now, gone), now);
  }

  lemma PauseSent(s: State, p: PaneId)
    ensures NoMessages(s, PausePane(s, p))
  {
    hide DoPause;
    var s1 := AddPane(s, p);
    if !s1.panes[p].paused { DoPauseNoMessages(s1, p); }
  }

  lemma ContinueSent(s: State, p: PaneId)
    ensures NoMessages(s, ContinuePane(s, p))
  {
    hide NotifyLine;
    if p in s.panes && s.panes[p].paused {
      NotifyNoMessages(Sync(s.(panes := s.panes[p := s.panes[p].(paused := false)]), p), CONTINUE + Decimal(p));
    }
  }

  lemma OutputSent(s: State, p: PaneId, now: nat)
    ensures NoMessages(s, WriteOutput(s, p, now))
  {
    hide Aged, TooOld, NoMessages, AddPane, Enqueue, Ignore, Stream;
    var s1 := AddPane(s, p);
    StartSent(s, p);
    if p in s1.panes {
      AgedNoMessages(s1, p);
      IgnoreSent(s1, p, now);
      NoMessagesTrans(s, s1, Aged(s1, p));
      NoMessagesTrans(s, s1, Ignore(s1, p));
      if |Stream(s1, p)| > s1.panes[p].queued { NoMessagesTrans(s, s1, Enqueue(s1, p, now)); }
    }
    if p in s.panes { IgnoreSent(s, p, now); }
    SameNoMessages(s);
  }

  lemma StartSent(s: State, p: PaneId)
    ensures NoMessages(s, AddPane(s, p)) && p in AddPane(s, p).panes
  {
  }

  lemma IgnoreSent(s: State, p: PaneId, now: nat)
    requires p in s.panes
    ensures NoMessages(s, Ignore(s, p))
    ensures |Stream(s, p)| > s.panes[p].queued ==> NoMessages(s, Enqueue(s, p, now))
  {
  }

  // ---- Whole runs ----

  predicate HeadIs(m: Item, extended: bool, age: nat)
    requires m.Message?
  {
    m.head == Head(m.pane, extended, age)
  }

  /** The message has the head of its pane. */
  ghost predicate Headed(m: Item)
    requires m.Message?
  {
    exists extended: bool, age: nat :: HeadIs(m, extended, age)
  }

  lemma ProperIsHeaded(s: State, m: Item, now: nat)
    requires m.Message? && Proper(s, m, now)
    ensures Headed(m)
  {
    var when: nat :| Born(s.all, m.pane, m.first, when) && HasAge(m, s.pauseAfter, when, now);
    assert HeadIs(m, s.pauseAfter, if when < now then now - when else 0);
  }

  lemma {:induction false} AllHeaded(events: seq<Event>, k: nat)
    requires k < |Run(events).out| && Run(events).out[k].Message?
    ensures Headed(Run(events).out[k])
    decreases |events|
  {
    hide Run, Step, Headed, Proper;
    if events == [] {
      RunNone();
    } else {
      var front, e := events[..|events| - 1], events[|events| - 1];
      assert events == front + [e];
      RunMore(front, e);
      var s, t := Run(front), Run(events);
      StepSent(s, e);
      if k < |s.out| {
        assert t.out[k] == s.out[k];
        AllHeaded(front, k);
      } else {
        ProperIsHeaded(s, t.out[k], e.now);
      }
    }
  }

  /** What a client that reads the text of the messages gets of a pane. */
  function Reads(out: seq<Item>, p: PaneId): seq<Byte> {
    if out == [] then [] else ReadsOne(out[0], p) + Reads(out[1..], p)
  }

  function ReadsOne(item: Item, p: PaneId): seq<Byte> {
    if item.Wrote? then []
    else
      var heard := ReadMessage(item.head + item.payload);
      if heard.Some? && heard.value.pane == p then heard.value.data else []
  }

  lemma {:induction false} ReadsIsSeen(out: seq<Item>, p: PaneId)
    requires forall k: nat :: k < |out| && out[k].Message? ==> Headed(out[k])
    ensures Reads(out, p) == Seen(out, p)
  {
    hide ReadMessage, Unescape, Head, Headed;
    if out != [] {
      forall k: nat | k < |out[1..]| && out[1..][k].Message? ensures Headed(out[1..][k]) { assert out[1..][k] == out[k + 1]; }
      ReadsIsSeen(out[1..], p);
      if out[0].Message? { OneIsRead(out[0], p); }
    }
  }

  lemma OneIsRead(m: Item, p: PaneId)
    requires m.Message? && Headed(m)
    ensures ReadsOne(m, p) == if m.pane == p then Unescape(m.payload) else []
  {
    hide ReadMessage, Unescape, Head;
    var extended: bool, age: nat :| HeadIs(m, extended, age);
    HeadReadBack(m.pane, extended, age, m.payload);
  }

  /** In every run: from the text alone the client gets, of a pane that is on and not paused, exactly the
    * pane's output since it was last started. */
  lemma ClientReads(events: seq<Event>, p: PaneId)
    requires var s := Run(events); !s.exit && p in s.panes && Active(s.panes[p])
    ensures var s := Run(events); var pane := s.panes[p];
            && pane.startOut <= |s.out| && pane.start <= pane.offset <= |Stream(s, p)|
            && Reads(s.out[pane.startOut..], p) == Stream(s, p)[pane.start..pane.offset]
  {
    hide Run, Reads, Seen, Headed, Stream;
    PaneOutputIsExact(events, p);
    RecentRead(events, Run(events).panes[p].startOut, p);
  }

  lemma RecentRead(events: seq<Event>, start: nat, p: PaneId)
    requires start <= |Run(events).out|
    ensures Reads(Run(events).out[start..], p) == Seen(Run(events).out[start..], p)
  {
    hide Run, Reads, Seen, Headed;
    var out := Run(events).out;
    forall k: nat | k < |out[start..]| && out[start..][k].Message? ensures Headed(out[start..][k]) {
      assert out[start..][k] == out[start + k];
      AllHeaded(events, start + k);
    }
    ReadsIsSeen(out[start..], p);
  }
}
