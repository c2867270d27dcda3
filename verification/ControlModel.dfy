/** The control-mode output engine as a state machine on values.
 *
 * Output blocks of all panes and the lines between them wait in one queue.  A pane's own queue is
 * the part of it that belongs to the pane; `ControlState` keeps the two as separate lists, as
 * control.c does, and is proved to do what is written here.
 *
 * A pane is a stream of bytes that only grows.  History variables record every accepted line, every
 * item sent, and where each pane was last started.
 */
module ControlModel {
  import opened Bytes
  import opened ControlOutput

  const CONTROL_BUFFER_HIGH: nat := 8192
  const CONTROL_WRITE_MINIMUM: nat := 32
  const CONTROL_MAXIMUM_AGE: nat := 300000
  const CONTROL_MAXIMUM_REPLY_BUFFER: nat := 64 * 1024 * 1024

  datatype Block =
    | LineBlock(line: Line)
    | OutputBlock(id: nat, pane: PaneId, size: nat, t: nat)

  function Id(b: Block): nat {
    if b.LineBlock? then b.line.id else b.id
  }

  /** `offset` and `queued` are the two places in the pane's stream.  History: the pane was started at
    * `start`, when `startOut` items had been sent, and has since lost `lost` queued bytes because it
    * was closed or not in the client's session. */
  datatype Pane = Pane(offset: nat, queued: nat, off: bool, paused: bool, pending: bool,
                       start: nat, startOut: nat, lost: nat)

  datatype State = State(
    panes: map<PaneId, Pane>,
    pendingList: seq<PaneId>, pendingCount: nat,
    all: seq<Block>, replyBytes: nat,
    guardDepth: nat, deferred: seq<seq<Byte>>,
    exit: bool, discard: bool, noOutput: bool, pauseAfter: bool, pauseAge: nat,
    outLen: nat,
    // the panes themselves
    streams: map<PaneId, seq<Byte>>, own: map<PaneId, nat>,
    // history
    out: seq<Item>, nextId: nat, accepted: seq<Line>, asked: seq<seq<Byte>>, fatal: bool)

  const START: State := State(map[], [], 0, [], 0, 0, [], false, false, false, false, 0, 0, map[], map[],
                              [], 0, [], [], false)

  // ---- Parts of the queue ----

  predicate OfPane(b: Block, p: PaneId) {
    b.OutputBlock? && b.pane == p
  }

  function Ids(all: seq<Block>, p: PaneId): seq<nat> {
    if all == [] then [] else (if OfPane(all[0], p) then [all[0].id] else []) + Ids(all[1..], p)
  }

  function Without(all: seq<Block>, p: PaneId): seq<Block> {
    if all == [] then [] else (if OfPane(all[0], p) then [] else [all[0]]) + Without(all[1..], p)
  }

  function OnlyLines(all: seq<Block>): seq<Block> {
    if all == [] then [] else (if all[0].OutputBlock? then [] else [all[0]]) + OnlyLines(all[1..])
  }

  /** Bytes queued for a pane. */
  function Queued(all: seq<Block>, p: PaneId): nat {
    if all == [] then 0 else (if OfPane(all[0], p) then all[0].size else 0) + Queued(all[1..], p)
  }

  function LinesIn(all: seq<Block>): seq<Line> {
    if all == [] then [] else (if all[0].LineBlock? then [all[0].line] else []) + LinesIn(all[1..])
  }

  function ReplyBytes(all: seq<Block>): nat {
    if all == [] then 0 else (if all[0].LineBlock? then |all[0].line.text| + 1 else 0) + ReplyBytes(all[1..])
  }

  function OutputBytes(all: seq<Block>): nat {
    if all == [] then 0 else (if all[0].OutputBlock? then all[0].size else 0) + OutputBytes(all[1..])
  }

  /** The first block of a pane. */
  function First(all: seq<Block>, p: PaneId): (b: Block)
    requires Ids(all, p) != []
    ensures OfPane(b, p)
  {
    if OfPane(all[0], p) then all[0] else First(all[1..], p)
  }

  /** The first block of a pane gives up `n` bytes, and goes when it is empty. */
  function TakeFrom(all: seq<Block>, p: PaneId, n: nat): (r: seq<Block>)
    requires Ids(all, p) != [] && n <= First(all, p).size
    ensures |r| == |all| - if n == First(all, p).size then 1 else 0
  {
    if !OfPane(all[0], p) then [all[0]] + TakeFrom(all[1..], p, n)
    else if n == all[0].size then all[1..]
    else [all[0].(size := all[0].size - n)] + all[1..]
  }

  // ---- The panes ----

  function Stream(s: State, p: PaneId): seq<Byte> {
    if p in s.streams then s.streams[p] else []
  }

  function Own(s: State, p: PaneId): nat {
    if p in s.own then s.own[p] else 0
  }

  predicate Active(pane: Pane) {
    !pane.off && !pane.paused
  }

  /** Start reading the pane at `at`. */
  function Started(s: State, pane: Pane, at: nat): Pane {
    pane.(offset := at, queued := at, start := at, startOut := |s.out|, lost := 0)
  }

  function AddPane(s: State, p: PaneId): State {
    if p in s.panes then s
    else s.(panes := s.panes[p := Started(s, Pane(0, 0, false, false, false, 0, 0, 0), Own(s, p))])
  }

  /** `control_discard_pane`. */
  function DiscardPane(s: State, p: PaneId): State
    requires p in s.panes
  {
    s.(all := Without(s.all, p),
       panes := s.panes[p := s.panes[p].(lost := s.panes[p].lost + Queued(s.all, p))])
  }

  /** Both offsets follow the pane's own offset again. */
  function Sync(s: State, p: PaneId): State
    requires p in s.panes
  {
    s.(panes := s.panes[p := Started(s, s.panes[p], Own(s, p))])
  }

  /** Pane output is being ignored: both offsets go to the end of the stream. */
  function Ignore(s: State, p: PaneId): State
    requires p in s.panes
  {
    s.(panes := s.panes[p := Started(s, s.panes[p], |Stream(s, p)|)])
  }

  // ---- Lines ----

  function Send(s: State, item: Item): State {
    s.(out := s.out + [item], outLen := s.outLen + Len(item))
  }

  /** `control_discard`: all panes' output goes, the lines stay. */
  function Exit(s: State): State {
    if s.exit then s else s.(exit := true, all := OnlyLines(s.all))
  }

  /** `control_check_reply_buffer` refuses the line: the client is too far behind. */
  predicate TooFarBehind(s: State, size: nat) {
    s.outLen + s.replyBytes + size >= CONTROL_MAXIMUM_REPLY_BUFFER
  }

  function Refuse(s: State): State {
    Exit(s).(discard := true)
  }

  function SendLine(s: State, line: Line): State {
    s.(out := s.out + [Wrote(line)], outLen := s.outLen + Len(Wrote(line)), nextId := s.nextId + 1,
       accepted := s.accepted + [line])
  }

  function StoreLine(s: State, line: Line): State {
    s.(all := s.all + [LineBlock(line)], replyBytes := s.replyBytes + |line.text| + 1, nextId := s.nextId + 1,
       accepted := s.accepted + [line])
  }

  /** `control_write_line`. */
  function WriteLine(s: State, kind: Kind, text: seq<Byte>): State {
    if s.discard then s
    else if TooFarBehind(s, |text| + 1) then Refuse(s)
    else if s.all == [] then SendLine(s, Line(s.nextId, kind, text))
    else StoreLine(s, Line(s.nextId, kind, text))
  }

  /** The first block is a line: it is sent and freed, with the saturating subtraction of
    * `control_free_block`. */
  function FlushOne(s: State): State
    requires s.all != [] && s.all[0].LineBlock?
  {
    var line := s.all[0].line;
    var size := |line.text| + 1;
    s.(out := s.out + [Wrote(line)], outLen := s.outLen + Len(Wrote(line)), all := s.all[1..],
       replyBytes := if s.replyBytes > size then s.replyBytes - size else 0)
  }

  /** `control_flush_all_blocks`: send lines up to the first output block. */
  function FlushLines(s: State): (r: State)
    ensures |r.all| <= |s.all| && r.panes == s.panes
    decreases |s.all|
  {
    if s.all == [] || s.all[0].OutputBlock? then s else FlushLines(FlushOne(s))
  }

  function FlushDeferred(s: State): State
    decreases |s.deferred|
  {
    if s.deferred == [] then s
    else FlushDeferred(WriteLine(s.(deferred := s.deferred[1..]), Notify, s.deferred[0]))
  }

  /** `control_notify_write`. */
  function NotifyLine(s: State, text: seq<Byte>): State {
    var s := s.(asked := s.asked + [text]);
    if s.guardDepth == 0 then WriteLine(s, Notify, text) else s.(deferred := s.deferred + [text])
  }

  /** `control_write_guard`. */
  function Guard(s: State, begin: bool, text: seq<Byte>): State {
    if begin then WriteLine(s.(guardDepth := s.guardDepth + 1), Begin, text)
    else
      var s := WriteLine(s, Close, text);
      if s.guardDepth == 0 then s
      else
        var s := s.(guardDepth := s.guardDepth - 1);
        if s.guardDepth == 0 then FlushDeferred(s) else s
  }

  // ---- Pane commands ----

  const PAUSE: seq<Byte> := [0x25, 0x70, 0x61, 0x75, 0x73, 0x65, 0x20, 0x25]
  const CONTINUE: seq<Byte> := [0x25, 0x63, 0x6f, 0x6e, 0x74, 0x69, 0x6e, 0x75, 0x65, 0x20, 0x25]

  function SetOff(s: State, p: PaneId): State {
    var s := Sync(DiscardPane(AddPane(s, p), p), p);
    s.(panes := s.panes[p := s.panes[p].(off := true)])
  }

  function SetOn(s: State, p: PaneId): State {
    if p in s.panes && s.panes[p].off then
      Sync(s.(panes := s.panes[p := s.panes[p].(off := false)]), p)
    else s
  }

  /** Pause a pane that is not paused. */
  function DoPause(s: State, p: PaneId): State
    requires p in s.panes
  {
    var s := DiscardPane(s, p);
    NotifyLine(s.(panes := s.panes[p := s.panes[p].(paused := true)]), PAUSE + Decimal(p))
  }

  function PausePane(s: State, p: PaneId): State {
    var s := AddPane(s, p);
    if s.panes[p].paused then s else DoPause(s, p)
  }

  function ContinuePane(s: State, p: PaneId): State {
    if p in s.panes && s.panes[p].paused then
      NotifyLine(Sync(s.(panes := s.panes[p := s.panes[p].(paused := false)]), p), CONTINUE + Decimal(p))
    else s
  }

  /** `control_reset_pane`, after the pane's buffer was replaced by an empty one. */
  function ResetPane(s: State, p: PaneId): State {
    var s := s.(streams := s.streams[p := []], own := s.own[p := 0]);
    if p in s.panes then Sync(DiscardPane(s, p), p) else s
  }

  /** `control_reset_offsets`, when the flag that stops all output is changed. */
  function SetNoOutput(s: State, noOutput: bool): State {
    s.(noOutput := noOutput, panes := map[], all := OnlyLines(s.all), pendingList := [], pendingCount := 0)
  }

  /** `control_check_age`: is the pane's oldest block too old?  If so the pane is paused, or the client
    * is told to exit. */
  predicate TooOld(s: State, p: PaneId, now: nat) {
    Ids(s.all, p) != [] && First(s.all, p).OutputBlock? && First(s.all, p).t < now
    && now - First(s.all, p).t >= (if s.pauseAfter then s.pauseAge else CONTROL_MAXIMUM_AGE)
  }

  function Aged(s: State, p: PaneId): State
    requires p in s.panes
  {
    if s.pauseAfter then DoPause(s, p) else s.(exit := true, all := OnlyLines(s.all))
  }

  /** A block is queued for the new bytes of a pane, which becomes pending. */
  function Enqueue(s: State, p: PaneId, now: nat): State
    requires p in s.panes && |Stream(s, p)| > s.panes[p].queued
  {
    var pane := s.panes[p];
    var block := OutputBlock(s.nextId, p, |Stream(s, p)| - pane.queued, now);
    s.(panes := s.panes[p := pane.(queued := |Stream(s, p)|, pending := true)],
       all := s.all + [block], nextId := s.nextId + 1,
       pendingList := if pane.pending then s.pendingList else s.pendingList + [p],
       pendingCount := if pane.pending then s.pendingCount else s.pendingCount + 1)
  }

  /** `control_write_output`: there may be new data in a pane of the client's session. */
  function WriteOutput(s: State, p: PaneId, now: nat): State {
    if s.noOutput || s.exit then (if p in s.panes then Ignore(s, p) else s)
    else
      var s := AddPane(s, p);
      var pane := s.panes[p];
      if pane.off || pane.paused then Ignore(s, p)
      else if TooOld(s, p, now) then Aged(s, p)
      else if |Stream(s, p)| <= pane.queued then s
      else Enqueue(s, p, now)
  }

  // ---- Writing pane output ----

  datatype Held = Nothing | Held(message: Item)

  function Flushed(s: State, held: Held): State {
    if held.Nothing? then s else Send(s, held.message)
  }

  /** Bytes appended to the message under construction (`control_append_data`); `b` is the block they
    * come from. */
  function Extend(s: State, held: Held, b: Block, now: nat, data: seq<Byte>): (m: Item)
    requires b.OutputBlock? && (held.Held? ==> held.message.Message?)
    ensures m.Message?
  {
    var m := if held.Held? then held.message
             else Message(b.pane, b.id, Head(b.pane, s.pauseAfter, if b.t < now then now - b.t else 0), []);
    m.(payload := m.payload + Escape(data))
  }

  /** `size` bytes of the pane's first block are used up. */
  function Taken(s: State, p: PaneId, size: nat): (t: State)
    requires p in s.panes && Ids(s.all, p) != [] && size <= First(s.all, p).size
    ensures p in t.panes && |t.all| == |s.all| - if size == First(s.all, p).size then 1 else 0
  {
    s.(panes := s.panes[p := s.panes[p].(offset := s.panes[p].offset + size)], all := TakeFrom(s.all, p, size))
  }

  function Least(a: nat, b: nat): nat {
    if a < b then a else b
  }

  /** The message is sent, and then the lines it held up. */
  function Deliver(s: State, message: Item): (t: State)
    ensures t.panes == s.panes && |t.all| <= |s.all|
  {
    FlushLines(Send(s, message))
  }

  /** One turn of the loop: `size` bytes of the first block go to the message, which is sent when this
    * brings lines to the head of the queue. */
  function Chunk(s: State, p: PaneId, now: nat, size: nat, held: Held): (r: (State, Held))
    requires p in s.panes && Ids(s.all, p) != [] && size <= First(s.all, p).size
    requires s.panes[p].offset + size <= |Stream(s, p)| && (held.Held? ==> held.message.Message?)
    ensures p in r.0.panes && |r.0.all| <= |s.all| - (if size == First(s.all, p).size then 1 else 0)
    ensures r.1.Held? ==> r.1.message.Message?
  {
    var b, offset := First(s.all, p), s.panes[p].offset;
    var message := Extend(s, held, b, now, Stream(s, p)[offset..offset + size]);
    var taken := Taken(s, p, size);
    if size == b.size && taken.all != [] && taken.all[0].LineBlock? then (Deliver(taken, message), Nothing)
    else (taken, Held(message))
  }

  /** The loop of `control_write_pending`: `used` bytes of `limit` are used up.  The message under
    * construction is dropped when the pane is too old. */
  function WriteChunks(s: State, p: PaneId, now: nat, limit: nat, used: nat, held: Held): State
    requires p in s.panes && used <= limit && (held.Held? ==> held.message.Message?)
    decreases limit - used, |s.all|
  {
    if used == limit || Ids(s.all, p) == [] then Flushed(s, held)
    else if TooOld(s, p, now) then Aged(s, p)
    else
      var size := Least(First(s.all, p).size, limit - used);
      if s.panes[p].offset + size > |Stream(s, p)| then s.(fatal := true)
      else
        var next := Chunk(s, p, now, size, held);
        WriteChunks(next.0, p, now, limit, used + size, next.1)
  }

  /** `control_write_pending`; `gone` panes are closed or not in the client's session. */
  function WritePending(s: State, p: PaneId, limit: nat, now: nat, gone: set<PaneId>): State
    requires p in s.panes
  {
    if p in gone then FlushLines(DiscardPane(s, p)) else WriteChunks(s, p, now, limit, 0, Nothing)
  }

  function RemoveOne(list: seq<PaneId>, p: PaneId): seq<PaneId> {
    if list == [] then [] else if list[0] == p then list[1..] else [list[0]] + RemoveOne(list[1..], p)
  }

  /** The pane has nothing left to write. */
  function Unpend(s: State, p: PaneId): State
    requires p in s.panes
  {
    s.(panes := s.panes[p := s.panes[p].(pending := false)], pendingList := RemoveOne(s.pendingList, p),
       pendingCount := if s.pendingCount > 0 then s.pendingCount - 1 else 0)
  }

  /** One pass of `control_write_callback` over the pending panes still in `list`. */
  function Pass(s: State, list: seq<PaneId>, limit: nat, now: nat, gone: set<PaneId>): State
    decreases |list|
  {
    if list == [] || s.outLen >= CONTROL_BUFFER_HIGH || s.fatal || list[0] !in s.panes then s
    else Pass(Visit(s, list[0], limit, now, gone), list[1..], limit, now, gone)
  }

  function Visit(s: State, p: PaneId, limit: nat, now: nat, gone: set<PaneId>): State
    requires p in s.panes
  {
    var t := WritePending(s, p, limit, now, gone);
    if t.fatal || Ids(t.all, p) != [] || p !in t.panes then t else Unpend(t, p)
  }

  function Limit(s: State): nat
    requires s.pendingCount > 0 && s.outLen < CONTROL_BUFFER_HIGH
  {
    var limit := (CONTROL_BUFFER_HIGH - s.outLen) / s.pendingCount / 3;
    if limit < CONTROL_WRITE_MINIMUM then CONTROL_WRITE_MINIMUM else limit
  }
}
