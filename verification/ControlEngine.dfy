/** The control-mode output engine as control.c has it: an object with the queue of all blocks, a list of
  * blocks for every pane, offsets, flags and counters, which its methods change in place.
  *
  * The ghost field `spec` is the state of `ControlModel` that the fields stand for, history included.  Every
  * method is proved to keep the two in step and to do what the model says.
  */
module ControlEngine {
  import opened Bytes
  import opened ControlOutput
  import opened ControlModel
  import opened ControlQueue
  import opened ControlInvariant
  import opened ControlSteps
  import opened ControlWriter
  import opened ControlRun
  import opened ControlShortage

  /** A pane with its own list of blocks. */
  datatype ControlPane = ControlPane(offset: nat, queued: nat, off: bool, paused: bool, pending: bool, blocks: seq<Block>)

  /** The blocks of a pane in the queue of all blocks. */
  function Blocks(all: seq<Block>, p: PaneId): seq<Block> {
    if all == [] then [] else (if OfPane(all[0], p) then [all[0]] else []) + Blocks(all[1..], p)
  }

  predicate Agrees(cp: ControlPane, pane: Pane) {
    cp.offset == pane.offset && cp.queued == pane.queued && cp.off == pane.off && cp.paused == pane.paused
    && cp.pending == pane.pending
  }

  /** Blocks are told apart by their numbers. */
  predicate Numbered(all: seq<Block>, next: nat) {
    && (forall i, j :: 0 <= i < j < |all| ==> Id(all[i]) != Id(all[j]))
    && (forall i :: 0 <= i < |all| ==> Id(all[i]) < next)
  }

  /** Every pane of the model has its own blocks of the queue on its list, in order, and every block is on a
    * list. */
  ghost predicate Linked(panes: map<PaneId, ControlPane>, all: seq<Block>, model: map<PaneId, Pane>, next: nat) {
    && Numbered(all, next) && (forall p :: p in panes <==> p in model)
    && (forall p :: p in panes ==> Agrees(panes[p], model[p]) && panes[p].blocks == Blocks(all, p))
    && (forall p :: p !in panes ==> Blocks(all, p) == [])
  }

  class ControlState {
    // the client
    var exit: bool
    var discard: bool
    var noOutput: bool
    var pauseAfter: bool
    var pauseAge: nat
    // its control state
    var panes: map<PaneId, ControlPane>
    var pendingList: seq<PaneId>
    var pendingCount: nat
    var allBlocks: seq<Block>
    var queuedReplyBytes: nat
    var guardDepth: nat
    var deferred: seq<seq<Byte>>
    var nextBlock: nat
    // what was written for the client, and how much of it is still buffered
    var written: seq<Item>
    var buffered: nat
    var fatal: bool
    // the panes themselves
    var streams: map<PaneId, seq<Byte>>
    var own: map<PaneId, nat>
    ghost var spec: State

    /** Everything but the panes is as in the model. */
    ghost predicate Same()
      reads this
    {
      && exit == spec.exit && discard == spec.discard && noOutput == spec.noOutput
      && pauseAfter == spec.pauseAfter && pauseAge == spec.pauseAge
      && pendingList == spec.pendingList && pendingCount == spec.pendingCount
      && allBlocks == spec.all && queuedReplyBytes == spec.replyBytes && guardDepth == spec.guardDepth
      && deferred == spec.deferred && nextBlock == spec.nextId && written == spec.out && buffered == spec.outLen
      && fatal == spec.fatal && streams == spec.streams && own == spec.own
    }

    ghost predicate Valid()
      reads this
    {
      Same() && Linked(panes, allBlocks, spec.panes, nextBlock)
    }

    constructor ()
      ensures Valid() && spec == START
    {
      exit, discard, noOutput, pauseAfter, pauseAge := false, false, false, false, 0;
      panes, pendingList, pendingCount := map[], [], 0;
      allBlocks, queuedReplyBytes, guardDepth, deferred, nextBlock := [], 0, 0, [], 0;
      written, buffered, fatal := [], 0, false;
      streams, own := map[], map[];
      spec := START;
    }

    // ---- Blocks ----

    /** `control_free_block`; `k` is where the block is in the queue. */
    method FreeBlock(b: Block, ghost k: nat)
      requires Numbered(allBlocks, nextBlock) && k < |allBlocks| && Id(allBlocks[k]) == Id(b)
      modifies this`allBlocks, this`queuedReplyBytes
      ensures allBlocks == old(allBlocks)[..k] + old(allBlocks)[k + 1..]
      ensures queuedReplyBytes
           == if b.OutputBlock? then old(queuedReplyBytes) else Minus(old(queuedReplyBytes), |b.line.text| + 1)
    {
      if b.LineBlock? {
        var size := |b.line.text| + 1;
        queuedReplyBytes := if queuedReplyBytes > size then queuedReplyBytes - size else 0;
      }
      var i := Find(b, k);
      allBlocks := allBlocks[..i] + allBlocks[i + 1..];
    }

    method Find(b: Block, ghost k: nat) returns (i: nat)
      requires Numbered(allBlocks, nextBlock) && k < |allBlocks| && Id(allBlocks[k]) == Id(b)
      ensures i == k
    {
      i := 0;
      while Id(allBlocks[i]) != Id(b)
        invariant i <= k
        decreases k - i
      {
        i := i + 1;
      }
    }

    /** The first block of a pane's list, where it is in the queue, and both without `n` bytes of it. */
    lemma FirstFacts(p: PaneId, n: nat) returns (k: nat)
      requires Valid() && p in panes && panes[p].blocks != []
      requires panes[p].blocks[0].OutputBlock? && n <= panes[p].blocks[0].size
      ensures Numbered(allBlocks, nextBlock) && k < |allBlocks| && allBlocks[k] == panes[p].blocks[0]
      ensures Ids(spec.all, p) != [] && First(spec.all, p) == panes[p].blocks[0]
      ensures var b := panes[p].blocks[0];
              TakeFrom(spec.all, p, n) == if n == b.size then allBlocks[..k] + allBlocks[k + 1..]
                                          else allBlocks[k := b.(size := b.size - n)]
      ensures Linked(panes[p := panes[p].(blocks := FirstUsed(panes[p].blocks, n))], TakeFrom(spec.all, p, n),
                     spec.panes, nextBlock)
    {
      hide Ids, First, TakeFrom, Linked, Numbered, Agrees, IndexOf;
      PaneIs(panes, allBlocks, spec.panes, nextBlock, p);
      k := IndexOf(allBlocks, p);
      FirstAt(allBlocks, p, n);
      UsedLinked(panes, allBlocks, spec.panes, nextBlock, p, n);
    }

    /** The pane's first block is taken off its list and freed. */
    method FreeFirst(p: PaneId)
      requires Valid() && p in panes && panes[p].blocks != [] && panes[p].blocks[0].OutputBlock?
      modifies this`panes, this`allBlocks, this`queuedReplyBytes, this`spec
      ensures Valid() && Ids(old(spec).all, p) != [] && p in panes && panes[p].blocks == old(panes)[p].blocks[1..]
      ensures First(old(spec).all, p) == old(panes)[p].blocks[0]
      ensures spec == old(spec).(all := TakeFrom(old(spec).all, p, First(old(spec).all, p).size))
    {
      hide Ids, First, TakeFrom, Linked, Numbered;
      var b := panes[p].blocks[0];
      ghost var k := FirstFacts(p, b.size);
      ghost var all := TakeFrom(spec.all, p, b.size);
      panes := panes[p := panes[p].(blocks := panes[p].blocks[1..])];
      FreeBlock(b, k);
      spec := spec.(all := all);
    }

    /** The pane's first block gives up some of its bytes. */
    method ShrinkFirst(p: PaneId, size: nat)
      requires Valid() && p in panes && panes[p].blocks != []
      requires panes[p].blocks[0].OutputBlock? && size < panes[p].blocks[0].size
      modifies this`panes, this`allBlocks, this`spec
      ensures Valid() && Ids(old(spec).all, p) != [] && size <= First(old(spec).all, p).size && p in panes
      ensures spec == old(spec).(all := TakeFrom(old(spec).all, p, size))
    {
      hide Ids, First, TakeFrom, Linked, Numbered;
      var b := panes[p].blocks[0];
      ghost var k := FirstFacts(p, size);
      var i := Find(b, k);
      var smaller := b.(size := b.size - size);
      ghost var all := TakeFrom(spec.all, p, size);
      panes := panes[p := panes[p].(blocks := panes[p].blocks[0 := smaller])];
      allBlocks := allBlocks[i := smaller];
      spec := spec.(all := all);
    }

    method UseFirst(p: PaneId, size: nat)
      requires Valid() && p in panes && panes[p].blocks != []
      requires panes[p].blocks[0].OutputBlock? && size <= panes[p].blocks[0].size
      modifies this`panes, this`allBlocks, this`queuedReplyBytes, this`spec
      ensures Valid() && Ids(old(spec).all, p) != [] && size <= First(old(spec).all, p).size && p in panes
      ensures spec == old(spec).(all := TakeFrom(old(spec).all, p, size))
    {
      hide Ids, First, TakeFrom, Linked, Same;
      if size == panes[p].blocks[0].size {
        FreeFirst(p);
      } else {
        ShrinkFirst(p, size);
      }
    }

    /** What the model says of a pane. */
    lemma BlocksAre(p: PaneId)
      requires Valid() && p in panes
      ensures allBlocks == spec.all && p in spec.panes && Agrees(panes[p], spec.panes[p])
      ensures panes[p].blocks != [] <==> Ids(spec.all, p) != []
      ensures panes[p].blocks != [] ==> panes[p].blocks[0] == First(spec.all, p)
    {
      hide Linked, Ids, First, Agrees;
      PaneIs(panes, allBlocks, spec.panes, nextBlock, p);
    }

    /** All blocks of a pane are freed, one by one. */
    method EmptyPane(p: PaneId)
      requires Valid() && p in panes
      modifies this`panes, this`allBlocks, this`queuedReplyBytes, this`spec
      ensures Valid() && spec == old(spec).(all := Without(old(spec).all, p)) && p in panes && panes[p].blocks == []
    {
      hide Ids, TakeFrom, First, Without, Linked;
      while panes[p].blocks != []
        invariant Valid() && p in panes && spec == old(spec).(all := spec.all)
        invariant Without(spec.all, p) == Without(old(spec).all, p)
        decreases |panes[p].blocks|
      {
        PaneIs(panes, allBlocks, spec.panes, nextBlock, p);
        TakeKeepsRest(allBlocks, p);
        FreeFirst(p);
      }
      PaneIs(panes, allBlocks, spec.panes, nextBlock, p);
      NothingWithout(allBlocks, p);
    }

    /** `control_discard_pane`. */
    method DiscardBlocks(p: PaneId)
      requires Valid() && p in panes
      modifies this`panes, this`allBlocks, this`queuedReplyBytes, this`spec
      ensures Valid() && spec == DiscardPane(old(spec), p) && p in panes && panes[p].blocks == []
    {
      hide Without, Queued, Linked, Same;
      BlocksAre(p);
      ghost var now := spec.panes[p].(lost := spec.panes[p].lost + Queued(spec.all, p));
      EmptyPane(p);
      Lose(p, now);
    }

    /** What the model remembers of a pane that was emptied. */
    ghost method Lose(p: PaneId, now: Pane)
      requires Valid() && p in panes && p in spec.panes && now == spec.panes[p].(lost := now.lost)
      modifies this`spec
      ensures Valid() && spec == old(spec).(panes := old(spec).panes[p := now])
    {
      hide Linked;
      LostLinked(panes, allBlocks, spec.panes, nextBlock, p, now);
      spec := spec.(panes := spec.panes[p := now]);
    }

    /** `control_discard`: the lists of all panes are emptied. */
    method DiscardAll()
      requires Valid()
      modifies this`panes, this`allBlocks, this`queuedReplyBytes, this`spec
      ensures Valid() && spec == old(spec).(all := OnlyLines(old(spec).all))
    {
      hide Ids, OnlyLines, OnlyAll, Linked, Without, Same;
      var rest := panes.Keys;
      ghost var was := spec;
      SameOnlyAll(was);
      while rest != {}
        invariant Valid() && rest <= panes.Keys && OnlyAll(was, spec)
        invariant OnlyLines(spec.all) == OnlyLines(was.all)
        invariant forall p :: p in panes && p !in rest ==> panes[p].blocks == []
        decreases |rest|
      {
        var p :| p in rest;
        ghost var before := spec;
        LinesWithout(spec.all, p);
        EmptyOne(p);
        OnlyAllTrans(was, before, spec);
        rest := rest - {p};
      }
      AllEmpty();
      OnlyAllIs(was, spec);
    }

    method EmptyOne(p: PaneId)
      requires Valid() && p in panes
      modifies this`panes, this`allBlocks, this`queuedReplyBytes, this`spec
      ensures Valid() && panes.Keys == old(panes).Keys && panes[p].blocks == []
      ensures spec.all == Without(old(spec).all, p) && OnlyAll(old(spec), spec)
      ensures forall q :: q in panes && q != p ==> panes[q].blocks == old(panes)[q].blocks
    {
      hide Without, Linked;
      ghost var was, all := panes, allBlocks;
      EmptyPane(p);
      OthersLinked(was, all, panes, allBlocks, spec.panes, nextBlock, p);
    }

    lemma AllEmpty()
      requires Valid() && forall p :: p in panes ==> panes[p].blocks == []
      ensures OnlyLines(spec.all) == spec.all
    {
      hide Ids, Blocks, Numbered, Agrees;
      forall p ensures Ids(allBlocks, p) == [] { FirstBlock(allBlocks, p); }
      NoOutputLeft(allBlocks);
    }

    // ---- Lines ----

    /** `control_check_reply_buffer`: a client that is too far behind is told to exit. */
    method CheckReplyBuffer(added: nat) returns (drop: bool)
      requires Valid()
      modifies this
      ensures Valid() && (drop <==> old(spec).discard || TooFarBehind(old(spec), added))
      ensures spec == if old(spec).discard || !TooFarBehind(old(spec), added) then old(spec) else Refuse(old(spec))
    {
      hide Linked, OnlyLines;
      if discard {
        return true;
      }
      if buffered + queuedReplyBytes + added < CONTROL_MAXIMUM_REPLY_BUFFER {
        return false;
      }
      if !exit {
        TellToExit();
      }
      discard := true;
      spec := spec.(discard := true);
      return true;
    }

    /** The client is told to exit, and its output is discarded. */
    method TellToExit()
      requires Valid()
      modifies this
      ensures Valid() && spec == old(spec).(exit := true, all := OnlyLines(old(spec).all))
    {
      hide Linked, OnlyLines;
      exit := true;
      spec := spec.(exit := true);
      DiscardAll();
    }

    /** `control_write_line`: the line is written at once if nothing is queued, and else stored. */
    method WriteOneLine(kind: Kind, text: seq<Byte>)
      requires Valid()
      modifies this
      ensures Valid() && spec == WriteLine(old(spec), kind, text)
    {
      hide Linked, TooFarBehind, SendLine, StoreLine, Refuse;
      var drop := CheckReplyBuffer(|text| + 1);
      if drop {
        return;
      }
      var line := Line(nextBlock, kind, text);
      if allBlocks == [] {
        WriteNow(line);
      } else {
        Store(line);
      }
    }

    method WriteNow(line: Line)
      requires Valid() && allBlocks == [] && line.id == nextBlock
      modifies this
      ensures Valid() && spec == SendLine(old(spec), line)
    {
      hide Linked;
      NextLinked(panes, allBlocks, spec.panes, nextBlock);
      written := written + [Wrote(line)];
      buffered := buffered + |line.text| + 1;
      nextBlock := nextBlock + 1;
      spec := SendLine(spec, line);
    }

    method Store(line: Line)
      requires Valid() && line.id == nextBlock
      modifies this
      ensures Valid() && spec == StoreLine(old(spec), line)
    {
      hide Linked;
      StoredLinked(panes, allBlocks, spec.panes, nextBlock, LineBlock(line));
      allBlocks := allBlocks + [LineBlock(line)];
      queuedReplyBytes := queuedReplyBytes + |line.text| + 1;
      nextBlock := nextBlock + 1;
      spec := StoreLine(spec, line);
    }

    /** `control_flush_deferred`. */
    method FlushDeferredLines()
      requires Valid()
      modifies this
      ensures Valid() && spec == FlushDeferred(old(spec))
    {
      hide WriteLine, Linked;
      while deferred != []
        invariant Valid() && FlushDeferred(spec) == FlushDeferred(old(spec))
        decreases |deferred|
      {
        var text := deferred[0];
        ghost var was := spec;
        TakeDeferred();
        WriteOneLine(Notify, text);
        DeferredShorter(was);
      }
    }

    method TakeDeferred()
      requires Valid() && deferred != []
      modifies this`deferred, this`spec
      ensures Valid() && spec == old(spec).(deferred := old(spec).deferred[1..])
    {
      hide Linked;
      deferred := deferred[1..];
      spec := spec.(deferred := spec.deferred[1..]);
    }

    /** `control_notify_write`. */
    method NotifyWrite(text: seq<Byte>)
      requires Valid()
      modifies this
      ensures Valid() && spec == NotifyLine(old(spec), text)
    {
      hide WriteLine, Linked;
      spec := spec.(asked := spec.asked + [text]);
      if guardDepth == 0 {
        WriteOneLine(Notify, text);
        return;
      }
      deferred := deferred + [text];
      spec := spec.(deferred := spec.deferred + [text]);
    }

    /** `control_write_guard`. */
    method WriteGuard(begin: bool, text: seq<Byte>)
      requires Valid()
      modifies this
      ensures Valid() && spec == Guard(old(spec), begin, text)
    {
      hide WriteLine, FlushDeferred, Linked;
      if begin {
        SetDepth(guardDepth + 1);
      }
      WriteOneLine(if begin then Begin else Close, text);
      if !begin && guardDepth > 0 {
        SetDepth(guardDepth - 1);
        if guardDepth == 0 {
          FlushDeferredLines();
        }
      }
    }

    method SetDepth(depth: nat)
      requires Valid()
      modifies this`guardDepth, this`spec
      ensures Valid() && spec == old(spec).(guardDepth := depth) && guardDepth == depth
    {
      hide Linked;
      guardDepth := depth;
      spec := spec.(guardDepth := depth);
    }

    // ---- Pane commands ----

    /** Where the pane itself is in its stream. */
    function PaneOwn(p: PaneId): nat
      reads this
    {
      if p in own then own[p] else 0
    }

    function PaneStream(p: PaneId): seq<Byte>
      reads this
    {
      if p in streams then streams[p] else []
    }

    /** One pane's offsets and flags are changed; `now` is what the model has for it afterwards. */
    method SetPaneTo(p: PaneId, cp: ControlPane, ghost now: Pane)
      requires Valid() && p in panes && cp.blocks == panes[p].blocks && Agrees(cp, now)
      modifies this`panes, this`spec
      ensures Valid() && panes == old(panes)[p := cp] && spec == old(spec).(panes := old(spec).panes[p := now])
    {
      hide Linked, Agrees;
      SetLinked(panes, allBlocks, spec.panes, nextBlock, p, cp, now);
      panes := panes[p := cp];
      spec := spec.(panes := spec.panes[p := now]);
    }

    /** `control_add_pane`. */
    method AddOnePane(p: PaneId)
      requires Valid()
      modifies this`panes, this`spec
      ensures Valid() && spec == AddPane(old(spec), p) && p in panes
    {
      hide Linked;
      InModel(panes, allBlocks, spec.panes, nextBlock, p);
      if p !in panes {
        var cp := ControlPane(PaneOwn(p), PaneOwn(p), false, false, false, []);
        NewLinked(panes, allBlocks, spec.panes, nextBlock, p, cp, AddPane(spec, p).panes[p]);
        panes := panes[p := cp];
        spec := AddPane(spec, p);
      }
    }

    /** Both offsets are copied from the pane's own. */
    method CopyOffsets(p: PaneId)
      requires Valid() && p in panes
      modifies this`panes, this`spec
      ensures Valid() && spec == Sync(old(spec), p) && p in panes
    {
      hide Linked;
      PaneIs(panes, allBlocks, spec.panes, nextBlock, p);
      SetPaneTo(p, panes[p].(offset := PaneOwn(p), queued := PaneOwn(p)), Started(spec, spec.panes[p], Own(spec, p)));
    }

    /** One flag of a pane is changed. */
    method SetFlags(p: PaneId, off: bool, paused: bool)
      requires Valid() && p in panes
      modifies this`panes, this`spec
      ensures Valid() && p in old(spec).panes && p in panes
      ensures spec == old(spec).(panes := old(spec).panes[p := old(spec).panes[p].(off := off, paused := paused)])
    {
      hide Linked, Same;
      PaneIs(panes, allBlocks, spec.panes, nextBlock, p);
      SetPaneTo(p, panes[p].(off := off, paused := paused), spec.panes[p].(off := off, paused := paused));
    }

    /** `control_set_pane_off`. */
    method SetPaneOff(p: PaneId)
      requires Valid()
      modifies this
      ensures Valid() && spec == SetOff(old(spec), p)
    {
      hide Linked, AddPane, DiscardPane, Sync, Same;
      AddOnePane(p);
      DiscardBlocks(p);
      CopyOffsets(p);
      PaneIs(panes, allBlocks, spec.panes, nextBlock, p);
      SetFlags(p, true, panes[p].paused);
    }

    /** `control_set_pane_on`. */
    method SetPaneOn(p: PaneId)
      requires Valid()
      modifies this
      ensures Valid() && spec == SetOn(old(spec), p)
    {
      hide Linked, Sync, Same;
      InModel(panes, allBlocks, spec.panes, nextBlock, p);
      if p in panes && panes[p].off {
        SetFlags(p, false, panes[p].paused);
        CopyOffsets(p);
      }
    }

    /** `control_pause_pane`. */
    method PauseOnePane(p: PaneId)
      requires Valid()
      modifies this
      ensures Valid() && spec == PausePane(old(spec), p)
    {
      hide Linked, AddPane, DoPause, Same;
      AddOnePane(p);
      PaneIs(panes, allBlocks, spec.panes, nextBlock, p);
      if !panes[p].paused {
        PauseNow(p);
      }
    }

    method PauseNow(p: PaneId)
      requires Valid() && p in panes
      modifies this
      ensures Valid() && p in old(spec).panes && spec == DoPause(old(spec), p)
    {
      hide Linked, DiscardPane, NotifyLine, Same;
      PaneIs(panes, allBlocks, spec.panes, nextBlock, p);
      DiscardBlocks(p);
      PaneIs(panes, allBlocks, spec.panes, nextBlock, p);
      SetFlags(p, panes[p].off, true);
      NotifyWrite(PAUSE + Decimal(p));
    }

    /** `control_continue_pane`. */
    method ContinueOnePane(p: PaneId)
      requires Valid()
      modifies this
      ensures Valid() && spec == ContinuePane(old(spec), p)
    {
      hide Linked, NotifyLine, Sync, Same;
      InModel(panes, allBlocks, spec.panes, nextBlock, p);
      if p in panes && panes[p].paused {
        SetFlags(p, panes[p].off, false);
        CopyOffsets(p);
        NotifyWrite(CONTINUE + Decimal(p));
      }
    }

    /** `control_reset_pane`, after the pane's buffer was replaced by an empty one. */
    method ResetOnePane(p: PaneId)
      requires Valid()
      modifies this
      ensures Valid() && spec == ResetPane(old(spec), p)
    {
      hide Linked, DiscardPane, Sync, Same;
      ReplaceBuffer(p);
      InModel(panes, allBlocks, spec.panes, nextBlock, p);
      if p in panes {
        DiscardBlocks(p);
        CopyOffsets(p);
      }
    }

    method ReplaceBuffer(p: PaneId)
      requires Valid()
      modifies this`streams, this`own, this`spec
      ensures Valid() && spec == old(spec).(streams := old(spec).streams[p := []], own := old(spec).own[p := 0])
    {
      hide Linked;
      streams, own := streams[p := []], own[p := 0];
      spec := spec.(streams := spec.streams[p := []], own := spec.own[p := 0]);
    }

    /** `control_reset_offsets`, when the flag that stops all output is changed. */
    method ResetOffsets(flag: bool)
      requires Valid()
      modifies this
      ensures Valid() && spec == SetNoOutput(old(spec), flag)
    {
      hide Linked, OnlyLines;
      DiscardAll();
      ForgetPanes(old(spec).all);
      noOutput := flag;
      spec := spec.(noOutput := flag);
    }

    method ForgetPanes(ghost was: seq<Block>)
      requires Valid() && allBlocks == OnlyLines(was)
      modifies this`panes, this`pendingList, this`pendingCount, this`spec
      ensures Valid() && spec == old(spec).(panes := map[], pendingList := [], pendingCount := 0)
    {
      hide Linked, OnlyLines;
      NoneLinked(panes, allBlocks, spec.panes, nextBlock, was);
      panes, pendingList, pendingCount := map[], [], 0;
      spec := spec.(panes := map[], pendingList := [], pendingCount := 0);
    }

    // ---- Pane output ----

    /** `control_check_age`. */
    method CheckAge(p: PaneId, now: nat) returns (tooOld: bool)
      requires Valid() && p in panes
      modifies this
      ensures Valid() && p in old(spec).panes && (tooOld <==> TooOld(old(spec), p, now))
      ensures spec == if tooOld then Aged(old(spec), p) else old(spec)
      ensures !tooOld ==> panes == old(panes) && allBlocks == old(allBlocks)
    {
      hide Ids, First, Linked, DoPause, OnlyLines, Agrees;
      PaneIs(panes, allBlocks, spec.panes, nextBlock, p);
      if panes[p].blocks == [] {
        return false;
      }
      var b := panes[p].blocks[0];
      if b.t >= now {
        return false;
      }
      var age := now - b.t;
      if pauseAfter {
        if age < pauseAge {
          return false;
        }
        PauseNow(p);
      } else {
        if age < CONTROL_MAXIMUM_AGE {
          return false;
        }
        TellToExit();
      }
      return true;
    }

    /** `control_write_output`. */
    method WritePaneOutput(p: PaneId, now: nat)
      requires Valid()
      modifies this
      ensures Valid() && spec == WriteOutput(old(spec), p, now)
    {
      hide Linked, AddPane, TooOld, Aged, Enqueue, Ignore;
      InModel(panes, allBlocks, spec.panes, nextBlock, p);
      if noOutput || exit {
        if p in panes {
          IgnorePane(p);
        }
        return;
      }
      AddOnePane(p);
      InModel(panes, allBlocks, spec.panes, nextBlock, p);
      if panes[p].off || panes[p].paused {
        IgnorePane(p);
        return;
      }
      var tooOld := CheckAge(p, now);
      if tooOld {
        return;
      }
      var end := |PaneStream(p)|;
      if end > panes[p].queued {
        AddBlock(p, end - panes[p].queued, now);
      }
    }

    /** Both offsets go to the end of the pane's stream. */
    method IgnorePane(p: PaneId)
      requires Valid() && p in panes
      modifies this`panes, this`spec
      ensures Valid() && p in old(spec).panes && spec == Ignore(old(spec), p)
    {
      hide Linked;
      PaneIs(panes, allBlocks, spec.panes, nextBlock, p);
      var end := |PaneStream(p)|;
      SetPaneTo(p, panes[p].(offset := end, queued := end), Started(spec, spec.panes[p], end));
    }

    /** A block goes to the end of both lists, and its pane becomes pending. */
    method AddBlock(p: PaneId, size: nat, now: nat)
      requires Valid() && p in panes && size > 0 && panes[p].queued + size == |PaneStream(p)|
      modifies this
      ensures Valid() && p in old(spec).panes && |Stream(old(spec), p)| > old(spec).panes[p].queued
      ensures spec == Enqueue(old(spec), p, now)
    {
      hide Linked, Enqueue, Same;
      StreamIs(p);
      BlocksAre(p);
      EnqueueIs(spec, p, now);
      InsertBlock(p, size, now);
      if !panes[p].pending {
        MakePending(p);
      }
    }

    lemma StreamIs(p: PaneId)
      requires Valid()
      ensures PaneStream(p) == Stream(spec, p) && nextBlock == spec.nextId
    {
      hide Linked;
    }

    method InsertBlock(p: PaneId, size: nat, now: nat)
      requires Valid() && p in panes && panes[p].queued + size == |PaneStream(p)|
      modifies this`panes, this`allBlocks, this`nextBlock, this`spec
      ensures Valid() && p in old(spec).panes && p in panes && panes[p].pending == old(panes)[p].pending
      ensures spec == Inserted(old(spec), p, size, now)
    {
      hide Linked, Same, Numbered;
      BlocksAre(p);
      StreamIs(p);
      var id := TakeNumber();
      InsertNumbered(p, OutputBlock(id, p, size, now));
    }

    /** The next number, which no block has. */
    method TakeNumber() returns (id: nat)
      requires Valid()
      modifies this`nextBlock, this`spec
      ensures Valid() && id == old(nextBlock) == old(spec).nextId && id < nextBlock && Numbered(allBlocks, id)
      ensures spec == old(spec).(nextId := old(spec).nextId + 1)
    {
      hide Linked, Numbered;
      NextLinked(panes, allBlocks, spec.panes, nextBlock);
      id := nextBlock;
      nextBlock := nextBlock + 1;
      spec := spec.(nextId := spec.nextId + 1);
    }

    method InsertNumbered(p: PaneId, b: Block)
      requires Valid() && p in panes && OfPane(b, p) && Numbered(allBlocks, b.id) && b.id < nextBlock
      modifies this`panes, this`allBlocks, this`spec
      ensures Valid() && p in old(spec).panes && p in panes && panes[p].pending == old(panes)[p].pending
      ensures var s := old(spec);
              spec == s.(panes := s.panes[p := s.panes[p].(queued := s.panes[p].queued + b.size)], all := s.all + [b])
    {
      hide Linked, Agrees, MoreQueued, Numbered;
      PaneIs(panes, allBlocks, spec.panes, nextBlock, p);
      ghost var after := spec.panes[p].(queued := spec.panes[p].queued + b.size);
      MoreAgrees(panes[p], b, spec.panes[p], after);
      AddedLinked(panes, allBlocks, spec.panes, nextBlock, p, b, MoreQueued(panes[p], b), after);
      panes := panes[p := MoreQueued(panes[p], b)];
      allBlocks := allBlocks + [b];
      spec := spec.(panes := spec.panes[p := after], all := spec.all + [b]);
    }

    method MakePending(p: PaneId)
      requires Valid() && p in panes
      modifies this`panes, this`pendingList, this`pendingCount, this`spec
      ensures Valid() && p in old(spec).panes && spec == Pending(old(spec), p)
    {
      hide Linked, Same;
      BlocksAre(p);
      SetPaneTo(p, panes[p].(pending := true), spec.panes[p].(pending := true));
      AddPending(p);
    }

    method AddPending(p: PaneId)
      requires Valid()
      modifies this`pendingList, this`pendingCount, this`spec
      ensures Valid()
      ensures spec == old(spec).(pendingList := old(spec).pendingList + [p], pendingCount := old(spec).pendingCount + 1)
    {
      hide Linked;
      pendingList := pendingList + [p];
      pendingCount := pendingCount + 1;
      spec := spec.(pendingList := pendingList, pendingCount := pendingCount);
    }

    // ---- The writer ----

    /** `control_flush_all_blocks`: lines are written up to the first output block. */
    method FlushAllBlocks()
      requires Valid()
      modifies this
      ensures Valid() && spec == FlushLines(old(spec)) && panes == old(panes)
    {
      hide Linked, Same, FlushOne;
      while QueueHasLine()
        invariant Valid() && FlushLines(spec) == FlushLines(old(spec)) && panes == old(panes)
        decreases |allBlocks|
      {
        FlushTurn(spec);
        FlushFirst();
      }
      FlushTurn(spec);
    }

    predicate QueueHasLine()
      reads this
    {
      allBlocks != [] && allBlocks[0].LineBlock?
    }

    lemma FlushTurn(s: State)
      requires Valid() && s == spec
      ensures QueueHasLine() <==> s.all != [] && s.all[0].LineBlock?
      ensures FlushLines(s) == if QueueHasLine() then FlushLines(FlushOne(s)) else s
    {
      hide Linked, FlushOne;
    }

    method FlushFirst()
      requires Valid() && QueueHasLine()
      modifies this
      ensures Valid() && old(spec).all != [] && old(spec).all[0].LineBlock? && spec == FlushOne(old(spec))
      ensures panes == old(panes) && |allBlocks| == |old(allBlocks)| - 1
    {
      hide Linked, Send, FlushOne;
      var b := allBlocks[0];
      FlushOneParts(spec);
      WriteData(Wrote(b.line));
      FreeLine();
    }

    method FreeLine()
      requires Valid() && QueueHasLine()
      modifies this`allBlocks, this`queuedReplyBytes, this`spec
      ensures Valid() && old(spec).all != [] && old(spec).all[0].LineBlock? && |allBlocks| == |old(allBlocks)| - 1
      ensures spec == Freed(old(spec))
    {
      hide Linked, Numbered;
      LineLinked(panes, allBlocks, spec.panes, nextBlock);
      FreeBlock(allBlocks[0], 0);
      assert allBlocks == old(allBlocks)[1..];
      spec := Freed(spec);
    }

    /** `control_write_data`. */
    method WriteData(message: Item)
      requires Valid()
      modifies this`written, this`buffered, this`spec
      ensures Valid() && spec == Send(old(spec), message)
    {
      hide Linked;
      written := written + [message];
      buffered := buffered + Len(message);
      spec := Send(spec, message);
    }

    /** `control_append_data`: escaped bytes are added to the message, which starts with its head, and the
      * pane's offset moves past them. */
    method AppendData(held: Held, p: PaneId, b: Block, now: nat, size: nat) returns (message: Item)
      requires Valid() && p in panes && panes[p].offset + size <= |PaneStream(p)|
      requires b.OutputBlock? && (held.Held? ==> held.message.Message?)
      modifies this`panes, this`spec
      ensures Valid() && p in panes && panes[p].blocks == old(panes)[p].blocks && p in old(spec).panes
      ensures old(spec).panes[p].offset + size <= |Stream(old(spec), p)|
      ensures var s := old(spec); var pane := s.panes[p];
              && message == Extend(s, held, b, now, Stream(s, p)[pane.offset..pane.offset + size])
              && spec == s.(panes := s.panes[p := pane.(offset := pane.offset + size)])
    {
      hide Linked, Same, Extend, Stream;
      BlocksAre(p);
      StreamIs(p);
      message := Appended(held, b, now, PaneStream(p)[panes[p].offset..], size);
      assert PaneStream(p)[panes[p].offset..][..size] == PaneStream(p)[panes[p].offset..panes[p].offset + size];
      MoveOffset(p, size);
    }

    method Appended(held: Held, b: Block, now: nat, data: seq<Byte>, size: nat) returns (message: Item)
      requires Valid() && size <= |data| && b.OutputBlock? && (held.Held? ==> held.message.Message?)
      ensures message == Extend(spec, held, b, now, data[..size])
    {
      hide Escape, Head, Linked;
      message := if held.Held? then held.message
                 else Message(b.pane, b.id, Head(b.pane, pauseAfter, if b.t < now then now - b.t else 0), []);
      var payload := EscapeBytes(message.payload, data, size);
      message := message.(payload := payload);
    }

    method MoveOffset(p: PaneId, size: nat)
      requires Valid() && p in panes && p in spec.panes
      modifies this`panes, this`spec
      ensures Valid() && p in panes && panes[p].blocks == old(panes)[p].blocks
      ensures var s := old(spec); spec == s.(panes := s.panes[p := s.panes[p].(offset := s.panes[p].offset + size)])
    {
      hide Linked, Same;
      BlocksAre(p);
      SetPaneTo(p, panes[p].(offset := panes[p].offset + size), spec.panes[p].(offset := spec.panes[p].offset + size));
    }

    /** One turn of the loop of `control_write_pending`. */
    method WriteChunk(p: PaneId, now: nat, size: nat, held: Held) returns (next: Held)
      requires Valid() && p in panes && panes[p].blocks != []
      requires panes[p].blocks[0].OutputBlock? && size <= panes[p].blocks[0].size
      requires panes[p].offset + size <= |PaneStream(p)| && (held.Held? ==> held.message.Message?)
      modifies this
      ensures Valid() && p in panes && ChunkFits(old(spec), p, size)
      ensures (spec, next) == Chunk(old(spec), p, now, size, held)
    {
      hide Ids, First, Extend, Linked, TakeFrom, Same, Taken, Chunk, FlushLines, Stream;
      BlocksAre(p);
      var b := panes[p].blocks[0];
      var message := AppendData(held, p, b, now, size);
      UseFirst(p, size);
      TakenIs(old(spec), p, size);
      FlushTurn(spec);
      var deliver := size == b.size && QueueHasLine();
      ChunkIs(old(spec), p, now, size, held, message, deliver);
      if deliver {
        WriteData(message);
        FlushAllBlocks();
        next := Nothing;
      } else {
        next := Held(message);
      }
    }

    /** `control_write_pending`: is there more to write for the pane? */
    method WritePendingPane(p: PaneId, limit: nat, now: nat, gone: set<PaneId>) returns (more: bool)
      requires Valid() && p in panes && Inv(spec) && limit > 0
      modifies this
      ensures Valid() && p in old(spec).panes && spec == WritePending(old(spec), p, limit, now, gone) && p in panes
      ensures more <==> Ids(spec.all, p) != []
    {
      hide Ids, Inv, DiscardPane, FlushLines, WriteChunks, Linked;
      InModel(panes, allBlocks, spec.panes, nextBlock, p);
      WritePendingKeeps(spec, p, limit, now, gone);
      if p in gone {
        DiscardBlocks(p);
        FlushAllBlocks();
      } else {
        WritePaneChunks(p, limit, now);
      }
      InModel(panes, allBlocks, spec.panes, nextBlock, p);
      PaneIs(panes, allBlocks, spec.panes, nextBlock, p);
      more := panes[p].blocks != [];
    }

    /** The loop of `control_write_pending`. */
    method WritePaneChunks(p: PaneId, limit: nat, now: nat)
      requires Valid() && p in panes && Inv(spec)
      modifies this
      ensures Valid() && p in old(spec).panes && spec == WriteChunks(old(spec), p, now, limit, 0, Nothing)
    {
      hide Ids, Core, GuardOk, First, TooOld, Chunk, Aged, Linked, Same, WriteChunks, Stream;
      PaneIs(panes, allBlocks, spec.panes, nextBlock, p);
      var used, message := 0, Nothing;
      while used != limit && panes[p].blocks != []
        invariant used <= limit && Valid() && p in panes && p in spec.panes && Core(spec, message) && GuardOk(spec)
        invariant message.Held? ==> message.message.Message? && message.message.pane == p
        invariant WriteChunks(spec, p, now, limit, used, message) == WriteChunks(old(spec), p, now, limit, 0, Nothing)
        decreases limit - used
      {
        var done;
        done, used, message := WriteTurn(p, limit, now, used, message);
        if done {
          return;
        }
      }
      BlocksAre(p);
      WriteEnd(spec, p, now, limit, used, message);
      if message.Held? {
        WriteData(message.message);
      }
    }

    /** One turn of that loop, with the check of the age first. */
    method WriteTurn(p: PaneId, limit: nat, now: nat, used: nat, held: Held) returns (done: bool, used': nat, held': Held)
      requires Valid() && p in panes && p in spec.panes && used < limit && panes[p].blocks != []
      requires Core(spec, held) && GuardOk(spec) && (held.Held? ==> held.message.Message? && held.message.pane == p)
      modifies this
      ensures Valid() && used' <= limit && (held'.Held? ==> held'.message.Message?)
      ensures done ==> spec == WriteChunks(old(spec), p, now, limit, used, held)
      ensures !done ==> used < used' && p in panes && p in spec.panes && Core(spec, held') && GuardOk(spec)
      ensures !done && held'.Held? ==> held'.message.pane == p
      ensures !done ==> WriteChunks(spec, p, now, limit, used', held') == WriteChunks(old(spec), p, now, limit, used, held)
    {
      hide Ids, Core, GuardOk, First, TooOld, Chunk, Aged, Linked, WriteChunks, Visited;
      PaneIs(panes, allBlocks, spec.panes, nextBlock, p);
      ChunksTurn(spec, p, now, limit, used, held);
      done, used', held' := true, used, held;
      var tooOld := CheckAge(p, now);
      if !tooOld {
        done, used', held' := WriteSome(p, limit, now, used, held);
      }
    }

    /** Bytes of the pane's first block are written, as many as the limit allows. */
    method WriteSome(p: PaneId, limit: nat, now: nat, used: nat, held: Held) returns (done: bool, used': nat, held': Held)
      requires Valid() && p in panes && p in spec.panes && used < limit && panes[p].blocks != [] && !TooOld(spec, p, now)
      requires Core(spec, held) && GuardOk(spec) && (held.Held? ==> held.message.Message? && held.message.pane == p)
      modifies this
      ensures Valid() && used' <= limit && (held'.Held? ==> held'.message.Message?)
      ensures done ==> spec == WriteChunks(old(spec), p, now, limit, used, held)
      ensures !done ==> used < used' && p in panes && p in spec.panes && Core(spec, held') && GuardOk(spec)
      ensures !done && held'.Held? ==> held'.message.pane == p
      ensures !done ==> WriteChunks(spec, p, now, limit, used', held') == WriteChunks(old(spec), p, now, limit, used, held)
    {
      hide Ids, Core, GuardOk, First, TooOld, Chunk, Aged, Linked, WriteChunks, Visited, Same, Stream;
      BlocksAre(p);
      StreamIs(p);
      ChunksTurn(spec, p, now, limit, used, held);
      done, used', held' := true, used, held;
      var size := Least(panes[p].blocks[0].size, limit - used);
      if panes[p].offset + size > |PaneStream(p)| {
        Fail();
        return;
      }
      SomeBytes(spec, p, held);
      ChunkOk(spec, p, now, size, held);
      held' := WriteChunk(p, now, size, held);
      done, used' := false, used + size;
    }

    /** `fatalx`: there is less data than was queued. */
    method Fail()
      requires Valid()
      modifies this`fatal, this`spec
      ensures Valid() && spec == old(spec).(fatal := true)
    {
      hide Linked;
      fatal := true;
      spec := spec.(fatal := true);
    }

    /** The turn of `control_write_callback` for one pane: with nothing left to write it is taken off the
      * pending list. */
    method VisitPane(p: PaneId, limit: nat, now: nat, gone: set<PaneId>)
      requires Valid() && Inv(spec) && !fatal && p in pendingList && p in panes && limit > 0
      modifies this
      ensures Valid() && p in old(spec).panes && spec == Visit(old(spec), p, limit, now, gone)
    {
      hide Inv, Ids, WritePending, Unpend, Linked;
      InModel(panes, allBlocks, spec.panes, nextBlock, p);
      var more := WritePendingPane(p, limit, now, gone);
      InModel(panes, allBlocks, spec.panes, nextBlock, p);
      if !fatal && !more {
        RemovePending(p);
      }
    }

    /** A pane is taken off the pending list. */
    method RemovePending(p: PaneId)
      requires Valid() && p in panes
      modifies this
      ensures Valid() && p in old(spec).panes && spec == Unpend(old(spec), p)
    {
      hide Linked, Same, Unpend, RemoveOne;
      BlocksAre(p);
      UnpendIs(spec, p);
      SetPaneTo(p, panes[p].(pending := false), spec.panes[p].(pending := false));
      TakePending(p);
    }

    method TakePending(p: PaneId)
      requires Valid()
      modifies this`pendingList, this`pendingCount, this`spec
      ensures Valid()
      ensures var s := old(spec);
              spec == s.(pendingList := RemoveOne(s.pendingList, p),
                         pendingCount := if s.pendingCount > 0 then s.pendingCount - 1 else 0)
    {
      hide Linked, RemoveOne;
      var i := FindPending(p);
      pendingList := if i < |pendingList| then pendingList[..i] + pendingList[i + 1..] else pendingList;
      pendingCount := if pendingCount > 0 then pendingCount - 1 else 0;
      spec := spec.(pendingList := pendingList, pendingCount := pendingCount);
    }

    method FindPending(p: PaneId) returns (i: nat)
      ensures i <= |pendingList|
      ensures RemoveOne(pendingList, p)
           == if i < |pendingList| then pendingList[..i] + pendingList[i + 1..] else pendingList
    {
      hide RemoveOne;
      i := 0;
      NothingRemoved(pendingList, p);
      while i < |pendingList| && pendingList[i] != p
        invariant i <= |pendingList| && pendingList[..i] + RemoveOne(pendingList[i..], p) == RemoveOne(pendingList, p)
      {
        RemoveLater(pendingList, i, p);
        i := i + 1;
      }
      RemoveHere(pendingList, i, p);
    }

    /** The inner loop of `control_write_callback`. */
    method VisitPanes(limit: nat, now: nat, gone: set<PaneId>)
      requires Valid() && Inv(spec) && limit > 0 && Distinct(pendingList)
      modifies this
      ensures Valid() && spec == Pass(old(spec), old(spec).pendingList, limit, now, gone)
    {
      hide Inv, Visit, Linked, Worked, Work;
      var list, i := pendingList, 0;
      assert list[0..] == list;
      while i < |list| && buffered < CONTROL_BUFFER_HIGH && !fatal
        invariant i <= |list| && Valid() && Inv(spec) && forall q :: q in list[i..] ==> q in spec.pendingList
        invariant Pass(spec, list[i..], limit, now, gone) == Pass(old(spec), list, limit, now, gone)
        decreases |list| - i
      {
        var p := list[i];
        assert p == list[i..][0] && list[i..][1..] == list[i + 1..];
        PendingPane(spec, p);
        InModel(panes, allBlocks, spec.panes, nextBlock, p);
        VisitOk(spec, p, limit, now, gone);
        forall q | q in list[i + 1..] ensures q in list[i..] && q != p {}
        VisitPane(p, limit, now, gone);
        i := i + 1;
      }
    }

    /** `control_write_callback`: every pass leaves less to do, so the loop ends. */
    method WriteCallback(now: nat, gone: set<PaneId>)
      requires Valid() && Inv(spec)
      modifies this
      ensures Valid() && spec == Callback(old(spec), now, gone)
    {
      hide Inv, Linked, Pass, Work, FlushLines;
      FlushOk(spec);
      FlushAllBlocks();
      ghost var s0 := spec;
      while buffered < CONTROL_BUFFER_HIGH && pendingCount != 0 && !fatal
        invariant Valid() && Inv(spec) && WriteLoop(spec, now, gone) == WriteLoop(s0, now, gone)
        decreases Work(spec) + if fatal then 0 else 1
      {
        var space := CONTROL_BUFFER_HIGH - buffered;
        var limit := space / pendingCount / 3;
        if limit < CONTROL_WRITE_MINIMUM {
          limit := CONTROL_WRITE_MINIMUM;
        }
        PendingList(spec);
        PassOk(spec, spec.pendingList, limit, now, gone);
        VisitPanes(limit, now, gone);
      }
    }

    // ---- Events ----

    /** New bytes of a pane. */
    method Receive(p: PaneId, data: seq<Byte>)
      requires Valid()
      modifies this`streams, this`spec
      ensures Valid() && spec == Append(old(spec), p, data)
    {
      hide Linked;
      streams := streams[p := PaneStream(p) + data];
      spec := Append(spec, p, data);
    }

    /** The pane itself has used its output up to `at`. */
    method UsedUpTo(p: PaneId, at: nat)
      requires Valid()
      modifies this`own, this`spec
      ensures Valid() && spec == MoveOwn(old(spec), p, at)
    {
      hide Linked;
      if PaneOwn(p) <= at <= |PaneStream(p)| {
        own := own[p := at];
        spec := spec.(own := spec.own[p := at]);
      }
    }

    method SetPauseAfter(on: bool, age: nat)
      requires Valid()
      modifies this`pauseAfter, this`pauseAge, this`spec
      ensures Valid() && spec == old(spec).(pauseAfter := on, pauseAge := age)
    {
      hide Linked;
      pauseAfter, pauseAge := on, age;
      spec := spec.(pauseAfter := on, pauseAge := age);
    }

    /** The client has read bytes. */
    method Drain(n: nat)
      requires Valid()
      modifies this`buffered, this`spec
      ensures Valid() && spec == old(spec).(outLen := old(spec).outLen - Least(n, old(spec).outLen))
    {
      hide Linked;
      buffered := if n < buffered then buffered - n else 0;
      spec := spec.(outLen := spec.outLen - Least(n, spec.outLen));
    }

    method SetExit()
      requires Valid()
      modifies this`exit, this`spec
      ensures Valid() && spec == old(spec).(exit := true)
    {
      hide Linked;
      exit := true;
      spec := spec.(exit := true);
    }

    /** One event, as the machine of `ControlRun` takes it. */
    method Handle(e: Event)
      requires Valid() && Inv(spec)
      modifies this
      ensures Valid() && Inv(spec) && spec == Step(old(spec), e)
    {
      hide Inv, Linked, Callback, WriteLine, NotifyLine, Guard, ResetPane, SetOff, SetOn, PausePane, ContinuePane,
        SetNoOutput, WriteOutput, Append, MoveOwn;
      StepOk(spec, e);
      if fatal {
        return;
      }
      match e {
        case PaneData(p, data) => Receive(p, data);
        case PaneUsed(p, at) => UsedUpTo(p, at);
        case PaneReset(p) => ResetOnePane(p);
        case Output(p, now) => WritePaneOutput(p, now);
        case ReplyLine(text) => WriteOneLine(Reply, text);
        case Notification(text) => NotifyWrite(text);
        case GuardLine(begin, text) => WriteGuard(begin, text);
        case PaneOff(p) => SetPaneOff(p);
        case PaneOn(p) => SetPaneOn(p);
        case PanePause(p) => PauseOnePane(p);
        case PaneContinue(p) => ContinueOnePane(p);
        case NoOutputFlag(flag) => ResetOffsets(flag);
        case PauseAfterFlag(on, age) => SetPauseAfter(on, age);
        case Sent(n) => Drain(n);
        case Writable(now, gone) => WriteCallback(now, gone);
        case Discard => TellToExit();
        case ExitFlag => SetExit();
      }
    }
  }

  /** So an object that is given any events is in the state that every theorem about runs speaks of. */
  method Serve(events: seq<Event>) returns (c: ControlState)
    ensures fresh(c) && c.Valid() && c.spec == Run(events)
  {
    hide Run, Step, Inv;
    c := new ControlState();
    RunNone();
    assert events[..0] == [];
    for i := 0 to |events|
      invariant fresh(c) && c.Valid() && Inv(c.spec) && c.spec == Run(events[..i])
    {
      assert events[..i + 1] == events[..i] + [events[i]];
      RunMore(events[..i], events[i]);
      c.Handle(events[i]);
    }
    assert events[..|events|] == events;
  }

  function Minus(a: nat, b: nat): nat {
    if a > b then a - b else 0
  }

  // ---- A pane's list and the queue ----

  lemma {:induction false} FirstBlock(all: seq<Block>, p: PaneId)
    ensures Blocks(all, p) == [] <==> Ids(all, p) == []
    ensures Ids(all, p) != [] ==> Blocks(all, p)[0] == First(all, p)
  {
    if all != [] {
      FirstBlock(all[1..], p);
      if !OfPane(all[0], p) {
        assert [] + Ids(all[1..], p) == Ids(all[1..], p);
        assert [] + Blocks(all[1..], p) == Blocks(all[1..], p);
      }
    }
  }

  /** Where the pane's first block is in the queue. */
  function IndexOf(all: seq<Block>, p: PaneId): (k: nat)
    ensures k <= |all|
  {
    if all == [] || OfPane(all[0], p) then 0 else 1 + IndexOf(all[1..], p)
  }

  lemma FirstAt(all: seq<Block>, p: PaneId, n: nat)
    requires Ids(all, p) != [] && n <= First(all, p).size
    ensures var k := IndexOf(all, p); k < |all| && all[k] == First(all, p)
    ensures var k := IndexOf(all, p);
            TakeFrom(all, p, n) == if n == First(all, p).size then all[..k] + all[k + 1..]
                                   else all[k := all[k].(size := all[k].size - n)]
  {
    hide Ids, First, TakeFrom, IndexOf;
    FirstIsAt(all, p);
    if n == First(all, p).size { WholeAt(all, p); } else { PartAt(all, p, n); }
  }

  lemma {:induction false} FirstIsAt(all: seq<Block>, p: PaneId)
    requires Ids(all, p) != []
    ensures var k := IndexOf(all, p); k < |all| && all[k] == First(all, p)
  {
    if !OfPane(all[0], p) {
      assert [] + Ids(all[1..], p) == Ids(all[1..], p);
      FirstIsAt(all[1..], p);
    }
  }

  lemma FirstLater(all: seq<Block>, p: PaneId, n: nat)
    requires Ids(all, p) != [] && !OfPane(all[0], p) && n <= First(all, p).size
    ensures Ids(all[1..], p) != [] && First(all[1..], p) == First(all, p)
    ensures TakeFrom(all, p, n) == [all[0]] + TakeFrom(all[1..], p, n) && IndexOf(all, p) == 1 + IndexOf(all[1..], p)
  {
    assert [] + Ids(all[1..], p) == Ids(all[1..], p);
  }

  lemma {:induction false} WholeAt(all: seq<Block>, p: PaneId)
    requires Ids(all, p) != []
    ensures var k := IndexOf(all, p); k < |all| && TakeFrom(all, p, First(all, p).size) == all[..k] + all[k + 1..]
  {
    if OfPane(all[0], p) {
      assert all[..0] + all[1..] == all[1..];
    } else {
      FirstLater(all, p, First(all, p).size);
      hide Ids, First, TakeFrom, IndexOf;
      WholeAt(all[1..], p);
      OneLater(all, IndexOf(all[1..], p));
    }
  }

  lemma OneLater(all: seq<Block>, j: nat)
    requires all != [] && j < |all[1..]|
    ensures [all[0]] + (all[1..][..j] + all[1..][j + 1..]) == all[..j + 1] + all[j + 2..]
  {
  }

  lemma {:induction false} PartAt(all: seq<Block>, p: PaneId, n: nat)
    requires Ids(all, p) != [] && n < First(all, p).size
    ensures var k := IndexOf(all, p);
            k < |all| && all[k] == First(all, p) && TakeFrom(all, p, n) == all[k := Smaller(First(all, p), n)]
  {
    if OfPane(all[0], p) {
      ReplacedFirst(all, Smaller(all[0], n));
    } else {
      FirstLater(all, p, n);
      hide Ids, First, TakeFrom, IndexOf, Smaller;
      PartAt(all[1..], p, n);
      ReplacedLater(all, IndexOf(all[1..], p), Smaller(First(all, p), n));
    }
  }

  function Smaller(b: Block, n: nat): Block
    requires b.OutputBlock? && n <= b.size
  {
    b.(size := b.size - n)
  }

  lemma ReplacedFirst(all: seq<Block>, b: Block)
    requires all != []
    ensures [b] + all[1..] == all[0 := b]
  {
  }

  lemma ReplacedLater(all: seq<Block>, j: nat, b: Block)
    requires all != [] && j < |all[1..]|
    ensures [all[0]] + all[1..][j := b] == all[j + 1 := b]
  {
  }

  /** The first block gives up bytes. */
  function FirstUsed(blocks: seq<Block>, n: nat): seq<Block>
    requires blocks != [] && blocks[0].OutputBlock? && n <= blocks[0].size
  {
    if n == blocks[0].size then blocks[1..] else blocks[0 := blocks[0].(size := blocks[0].size - n)]
  }

  lemma {:induction false} TakeBlocks(all: seq<Block>, p: PaneId, n: nat, q: PaneId)
    requires Ids(all, p) != [] && n <= First(all, p).size
    ensures q != p ==> Blocks(TakeFrom(all, p, n), q) == Blocks(all, q)
    ensures Blocks(all, p) != [] && Blocks(all, p)[0] == First(all, p)
    ensures q == p ==>
              Blocks(TakeFrom(all, p, n), p) == FirstUsed(Blocks(all, p), n)
  {
    FirstBlock(all, p);
    var r := TakeFrom(all, p, n);
    if !OfPane(all[0], p) {
      assert [] + Ids(all[1..], p) == Ids(all[1..], p);
      TakeBlocks(all[1..], p, n, q);
      assert r[1..] == TakeFrom(all[1..], p, n);
      assert [] + Blocks(all[1..], p) == Blocks(all[1..], p);
    } else if n == all[0].size {
      assert q != p ==> [] + Blocks(all[1..], q) == Blocks(all[1..], q);
    } else {
      assert r[1..] == all[1..];
    }
  }

  lemma {:induction false} OtherBlocks(all: seq<Block>, p: PaneId, q: PaneId)
    requires p != q
    ensures Blocks(Without(all, p), q) == Blocks(all, q)
  {
    if all != [] {
      OtherBlocks(all[1..], p, q);
      if OfPane(all[0], p) {
        assert [] + Without(all[1..], p) == Without(all[1..], p);
        assert [] + Blocks(all[1..], q) == Blocks(all[1..], q);
      } else {
        assert Without(all, p)[1..] == Without(all[1..], p);
      }
    }
  }

  lemma {:induction false} AddLastBlocks(all: seq<Block>, b: Block, q: PaneId)
    ensures Blocks(all + [b], q) == Blocks(all, q) + if OfPane(b, q) then [b] else []
  {
    if all == [] {
      assert all + [b] == [b] && [b][1..] == [];
    } else {
      assert (all + [b])[1..] == all[1..] + [b];
      AddLastBlocks(all[1..], b, q);
      var first, last := if OfPane(all[0], q) then [all[0]] else [], if OfPane(b, q) then [b] else [];
      assert first + (Blocks(all[1..], q) + last) == first + Blocks(all[1..], q) + last;
    }
  }

  lemma {:induction false} OnlyLinesBlocks(all: seq<Block>, q: PaneId)
    ensures Blocks(OnlyLines(all), q) == []
  {
    if all != [] {
      OnlyLinesBlocks(all[1..], q);
      if all[0].LineBlock? {
        assert OnlyLines(all)[1..] == OnlyLines(all[1..]);
      } else {
        assert [] + OnlyLines(all[1..]) == OnlyLines(all[1..]);
      }
    }
  }

  lemma LineIsNoBlock(all: seq<Block>, q: PaneId)
    requires all != [] && all[0].LineBlock?
    ensures Blocks(all[1..], q) == Blocks(all, q)
  {
    assert [] + Blocks(all[1..], q) == Blocks(all[1..], q);
  }

  lemma RemovedNumbered(all: seq<Block>, k: nat, next: nat)
    requires k < |all| && Numbered(all, next)
    ensures Numbered(all[..k] + all[k + 1..], next)
  {
  }

  lemma AddedNumbered(all: seq<Block>, b: Block, next: nat)
    requires Numbered(all, next) && Id(b) == next
    ensures Numbered(all + [b], next + 1)
  {
  }

  // ---- Changes to both ----

  /** What a pane's record says. */
  lemma PaneIs(panes: map<PaneId, ControlPane>, all: seq<Block>, model: map<PaneId, Pane>, next: nat, p: PaneId)
    requires Linked(panes, all, model, next) && p in panes
    ensures p in model && Agrees(panes[p], model[p]) && Numbered(all, next)
    ensures panes[p].blocks != [] <==> Ids(all, p) != []
    ensures panes[p].blocks != [] ==> panes[p].blocks[0] == First(all, p) && panes[p].blocks[0].OutputBlock?
  {
    hide Ids, First, Numbered, Agrees;
    FirstBlock(all, p);
  }

  lemma InModel(panes: map<PaneId, ControlPane>, all: seq<Block>, model: map<PaneId, Pane>, next: nat, p: PaneId)
    requires Linked(panes, all, model, next)
    ensures p in panes <==> p in model
    ensures p in panes ==> Agrees(panes[p], model[p])
  {
    hide Blocks, Numbered, Agrees;
  }

  lemma SetLinked(panes: map<PaneId, ControlPane>, all: seq<Block>, model: map<PaneId, Pane>, next: nat,
                  p: PaneId, cp: ControlPane, now: Pane)
    requires Linked(panes, all, model, next) && p in panes && cp.blocks == panes[p].blocks && Agrees(cp, now)
    ensures Linked(panes[p := cp], all, model[p := now], next)
  {
    hide Blocks, Numbered, Agrees;
  }

  lemma LostLinked(panes: map<PaneId, ControlPane>, all: seq<Block>, model: map<PaneId, Pane>, next: nat,
                   p: PaneId, now: Pane)
    requires Linked(panes, all, model, next) && p in panes && p in model && now == model[p].(lost := now.lost)
    ensures Linked(panes, all, model[p := now], next)
  {
    hide Blocks, Numbered;
  }

  lemma UsedLinked(panes: map<PaneId, ControlPane>, all: seq<Block>, model: map<PaneId, Pane>, next: nat, p: PaneId, n: nat)
    requires Linked(panes, all, model, next) && p in panes && Ids(all, p) != [] && n <= First(all, p).size
    requires panes[p].blocks != [] && panes[p].blocks[0] == First(all, p)
    ensures Linked(panes[p := panes[p].(blocks := FirstUsed(panes[p].blocks, n))], TakeFrom(all, p, n), model, next)
  {
    hide Ids, First, TakeFrom, Blocks, Agrees, FirstUsed;
    var now := panes[p := panes[p].(blocks := FirstUsed(panes[p].blocks, n))];
    forall q ensures Blocks(TakeFrom(all, p, n), q) == if q == p then FirstUsed(Blocks(all, p), n) else Blocks(all, q) {
      TakeBlocks(all, p, n, q);
    }
    BlocksAgree(panes[p], now[p], model[p]);
    TakenNumbered(all, p, n, next);
    hide Numbered;
  }

  lemma BlocksAgree(cp: ControlPane, cp': ControlPane, pane: Pane)
    requires Agrees(cp, pane) && cp' == cp.(blocks := cp'.blocks)
    ensures Agrees(cp', pane)
  {
  }

  lemma TakenNumbered(all: seq<Block>, p: PaneId, n: nat, next: nat)
    requires Numbered(all, next) && Ids(all, p) != [] && n <= First(all, p).size
    ensures Numbered(TakeFrom(all, p, n), next)
  {
    hide Ids, First, TakeFrom, IndexOf;
    FirstAt(all, p, n);
    var k := IndexOf(all, p);
    if n == First(all, p).size { RemovedNumbered(all, k, next); }
  }

  lemma OthersLinked(panes: map<PaneId, ControlPane>, all: seq<Block>, now: map<PaneId, ControlPane>, all': seq<Block>,
                     model: map<PaneId, Pane>, next: nat, p: PaneId)
    requires Linked(panes, all, model, next) && Linked(now, all', model, next) && all' == Without(all, p)
    ensures now.Keys == panes.Keys && forall q :: q in now && q != p ==> now[q].blocks == panes[q].blocks
  {
    hide Blocks, Numbered, Agrees, Without;
    forall q | q != p ensures Blocks(all', q) == Blocks(all, q) { OtherBlocks(all, p, q); }
  }

  lemma NextLinked(panes: map<PaneId, ControlPane>, all: seq<Block>, model: map<PaneId, Pane>, next: nat)
    requires Linked(panes, all, model, next)
    ensures Linked(panes, all, model, next + 1) && Numbered(all, next)
  {
    hide Blocks, Agrees, Numbered;
    MoreNumbers(all, next, next + 1);
  }

  lemma StoredLinked(panes: map<PaneId, ControlPane>, all: seq<Block>, model: map<PaneId, Pane>, next: nat, b: Block)
    requires Linked(panes, all, model, next) && b.LineBlock? && Id(b) == next
    ensures Linked(panes, all + [b], model, next + 1)
  {
    hide Blocks, Numbered, Agrees;
    AddedNumbered(all, b, next);
    forall q ensures Blocks(all + [b], q) == Blocks(all, q) { AddLastBlocks(all, b, q); }
  }

  lemma NewLinked(panes: map<PaneId, ControlPane>, all: seq<Block>, model: map<PaneId, Pane>, next: nat,
                  p: PaneId, cp: ControlPane, now: Pane)
    requires Linked(panes, all, model, next) && p !in panes && cp.blocks == [] && Agrees(cp, now)
    ensures Linked(panes[p := cp], all, model[p := now], next)
  {
    hide Blocks, Numbered, Agrees;
  }

  lemma AddedLinked(panes: map<PaneId, ControlPane>, all: seq<Block>, model: map<PaneId, Pane>, next: nat,
                    p: PaneId, b: Block, cp: ControlPane, now: Pane)
    requires Linked(panes, all, model, next) && p in panes && OfPane(b, p) && b.id < next && Numbered(all, b.id)
    requires cp.blocks == panes[p].blocks + [b] && Agrees(cp, now)
    ensures Linked(panes[p := cp], all + [b], model[p := now], next)
  {
    hide Blocks, Agrees;
    forall q ensures Blocks(all + [b], q) == Blocks(all, q) + if q == p then [b] else [] {
      AddLastBlocks(all, b, q);
    }
    AddedNumbered(all, b, b.id);
    MoreNumbers(all + [b], b.id + 1, next);
    hide Numbered;
  }

  lemma MoreNumbers(all: seq<Block>, next: nat, next': nat)
    requires Numbered(all, next) && next <= next'
    ensures Numbered(all, next')
  {
  }

  lemma LineLinked(panes: map<PaneId, ControlPane>, all: seq<Block>, model: map<PaneId, Pane>, next: nat)
    requires Linked(panes, all, model, next) && all != [] && all[0].LineBlock?
    ensures Linked(panes, all[1..], model, next) && Numbered(all, next)
  {
    hide Blocks, Agrees;
    forall q ensures Blocks(all[1..], q) == Blocks(all, q) { LineIsNoBlock(all, q); }
    RemovedNumbered(all, 0, next);
    assert all[..0] + all[1..] == all[1..];
  }

  lemma NoneLinked(panes: map<PaneId, ControlPane>, all: seq<Block>, model: map<PaneId, Pane>, next: nat, was: seq<Block>)
    requires Linked(panes, all, model, next) && all == OnlyLines(was)
    ensures Linked(map[], all, map[], next)
  {
    hide Blocks, Numbered, Agrees, OnlyLines;
    forall q ensures Blocks(all, q) == [] { OnlyLinesBlocks(was, q); }
  }

  // ---- Lists of panes ----

  lemma NothingRemoved(list: seq<PaneId>, p: PaneId)
    ensures list[..0] + RemoveOne(list[0..], p) == RemoveOne(list, p)
  {
    assert list[0..] == list;
  }

  lemma RemoveLater(list: seq<PaneId>, i: nat, p: PaneId)
    requires i < |list| && list[i] != p
    ensures list[..i] + RemoveOne(list[i..], p) == list[..i + 1] + RemoveOne(list[i + 1..], p)
  {
    assert list[i..][1..] == list[i + 1..];
    assert list[..i + 1] == list[..i] + [list[i]];
    var rest := RemoveOne(list[i + 1..], p);
    assert list[..i] + ([list[i]] + rest) == list[..i] + [list[i]] + rest;
  }

  lemma RemoveHere(list: seq<PaneId>, i: nat, p: PaneId)
    requires i <= |list| && (i < |list| ==> list[i] == p)
    requires list[..i] + RemoveOne(list[i..], p) == RemoveOne(list, p)
    ensures RemoveOne(list, p) == if i < |list| then list[..i] + list[i + 1..] else list
  {
    if i < |list| {
      assert list[i..][1..] == list[i + 1..];
    } else {
      assert list[i..] == [] && list[..i] == list;
    }
  }

  lemma PendingList(s: State)
    requires Inv(s) && s.pendingCount != 0 && s.outLen < CONTROL_BUFFER_HIGH
    ensures Distinct(s.pendingList) && s.pendingList != [] && Limit(s) > 0
  {
  }

  /** Nothing but the list of all blocks differs. */
  predicate OnlyAll(s: State, t: State) {
    t == s.(all := t.all)
  }

  lemma OnlyAllTrans(r: State, s: State, t: State)
    requires (OnlyAll(r, s) || r == s) && (OnlyAll(s, t) || s == t)
    ensures OnlyAll(r, t)
  {
  }

  lemma OnlyAllIs(s: State, t: State)
    requires OnlyAll(s, t)
    ensures t == s.(all := t.all)
  {
  }

  lemma SameOnlyAll(s: State)
    ensures OnlyAll(s, s)
  {
  }

  /** A turn of the writer's loop, in its parts. */
  predicate ChunkFits(s: State, p: PaneId, size: nat) {
    p in s.panes && Ids(s.all, p) != [] && size <= First(s.all, p).size && s.panes[p].offset + size <= |Stream(s, p)|
  }

  /** The first block, a line, is freed. */
  function Freed(s: State): State
    requires s.all != [] && s.all[0].LineBlock?
  {
    s.(all := s.all[1..], replyBytes := Minus(s.replyBytes, |s.all[0].line.text| + 1))
  }

  lemma FlushOneParts(s: State)
    requires s.all != [] && s.all[0].LineBlock?
    ensures Send(s, Wrote(s.all[0].line)).all == s.all && FlushOne(s) == Freed(Send(s, Wrote(s.all[0].line)))
  {
  }

  /** A pane with one more block on its list. */
  function MoreQueued(cp: ControlPane, b: Block): ControlPane
    requires b.OutputBlock?
  {
    cp.(queued := cp.queued + b.size, blocks := cp.blocks + [b])
  }

  lemma MoreAgrees(cp: ControlPane, b: Block, pane: Pane, after: Pane)
    requires b.OutputBlock? && Agrees(cp, pane) && after == pane.(queued := pane.queued + b.size)
    ensures var more := MoreQueued(cp, b);
            Agrees(more, after) && more.blocks == cp.blocks + [b] && more.pending == cp.pending
  {
  }

  /** The two parts of `Enqueue`. */
  function Inserted(s: State, p: PaneId, size: nat, now: nat): State
    requires p in s.panes
  {
    s.(panes := s.panes[p := s.panes[p].(queued := s.panes[p].queued + size)],
       all := s.all + [OutputBlock(s.nextId, p, size, now)], nextId := s.nextId + 1)
  }

  function Pending(s: State, p: PaneId): State
    requires p in s.panes
  {
    s.(panes := s.panes[p := s.panes[p].(pending := true)], pendingList := s.pendingList + [p],
       pendingCount := s.pendingCount + 1)
  }

  lemma EnqueueIs(s: State, p: PaneId, now: nat)
    requires p in s.panes && |Stream(s, p)| > s.panes[p].queued
    ensures var t := Inserted(s, p, |Stream(s, p)| - s.panes[p].queued, now);
            Enqueue(s, p, now) == if s.panes[p].pending then t else Pending(t, p)
  {
    var pane, end := s.panes[p], |Stream(s, p)|;
    assert s.panes[p := pane.(queued := end)][p := pane.(queued := end, pending := true)]
        == s.panes[p := pane.(queued := end, pending := true)];
  }

  lemma UnpendIs(s: State, p: PaneId)
    requires p in s.panes
    ensures Unpend(s, p) == var t := s.(panes := s.panes[p := s.panes[p].(pending := false)]);
                            t.(pendingList := RemoveOne(t.pendingList, p),
                               pendingCount := if t.pendingCount > 0 then t.pendingCount - 1 else 0)
  {
    hide RemoveOne;
  }

  lemma TakenIs(s: State, p: PaneId, size: nat)
    requires ChunkFits(s, p, size)
    ensures Taken(s, p, size) == s.(panes := s.panes[p := s.panes[p].(offset := s.panes[p].offset + size)]).(
                                   all := TakeFrom(s.all, p, size))
  {
    hide Ids, First, TakeFrom;
  }

  lemma ChunkIs(s: State, p: PaneId, now: nat, size: nat, held: Held, m: Item, deliver: bool)
    requires ChunkFits(s, p, size) && (held.Held? ==> held.message.Message?)
    requires m == Extend(s, held, First(s.all, p), now, Stream(s, p)[s.panes[p].offset..s.panes[p].offset + size])
    requires var all := Taken(s, p, size).all;
             deliver <==> size == First(s.all, p).size && all != [] && all[0].LineBlock?
    ensures Chunk(s, p, now, size, held)
         == if deliver then (FlushLines(Send(Taken(s, p, size), m)), Nothing) else (Taken(s, p, size), Held(m))
  {
    hide Ids, First, Taken, Extend, FlushLines, Send;
  }

  lemma WriteEnd(s: State, p: PaneId, now: nat, limit: nat, used: nat, held: Held)
    requires p in s.panes && used <= limit && (held.Held? ==> held.message.Message?)
    requires used == limit || Ids(s.all, p) == []
    ensures WriteChunks(s, p, now, limit, used, held) == Flushed(s, held)
  {
    hide Ids;
  }

  lemma WritePendingKeeps(s: State, p: PaneId, limit: nat, now: nat, gone: set<PaneId>)
    requires Inv(s) && p in s.panes && limit > 0
    ensures p in WritePending(s, p, limit, now, gone).panes
  {
    hide Core, GuardOk, WritePending, OutputBytes;
    WritePendingOk(s, p, limit, now, gone);
  }

  lemma {:induction false} TakeKeepsRest(all: seq<Block>, p: PaneId)
    requires Ids(all, p) != []
    ensures Without(TakeFrom(all, p, First(all, p).size), p) == Without(all, p)
  {
    var r := TakeFrom(all, p, First(all, p).size);
    if !OfPane(all[0], p) {
      assert [] + Ids(all[1..], p) == Ids(all[1..], p);
      TakeKeepsRest(all[1..], p);
      assert r[1..] == TakeFrom(all[1..], p, First(all[1..], p).size);
    } else {
      assert [] + Without(all[1..], p) == Without(all[1..], p);
    }
  }

  lemma {:induction false} LinesWithout(all: seq<Block>, p: PaneId)
    ensures OnlyLines(Without(all, p)) == OnlyLines(all)
  {
    if all != [] {
      LinesWithout(all[1..], p);
      if OfPane(all[0], p) {
        assert [] + Without(all[1..], p) == Without(all[1..], p);
        assert [] + OnlyLines(all[1..]) == OnlyLines(all[1..]);
      } else {
        assert Without(all, p)[1..] == Without(all[1..], p);
      }
    }
  }

  lemma DeferredShorter(s: State)
    requires s.deferred != []
    ensures FlushDeferred(s) == FlushDeferred(WriteLine(s.(deferred := s.deferred[1..]), Notify, s.deferred[0]))
    ensures WriteLine(s.(deferred := s.deferred[1..]), Notify, s.deferred[0]).deferred == s.deferred[1..]
  {
    hide WriteLine;
    WriteLineDeferred(s.(deferred := s.deferred[1..]), s.deferred[0]);
  }

  lemma WriteLineDeferred(s: State, text: seq<Byte>)
    ensures WriteLine(s, Notify, text).deferred == s.deferred
  {
    hide SendLine, StoreLine, Refuse;
    LineDeferred(s, Line(s.nextId, Notify, text));
  }

  lemma LineDeferred(s: State, line: Line)
    ensures SendLine(s, line).deferred == s.deferred && StoreLine(s, line).deferred == s.deferred
    ensures Refuse(s).deferred == s.deferred
  {
  }

  lemma {:induction false} NothingWithout(all: seq<Block>, p: PaneId)
    requires Ids(all, p) == []
    ensures Without(all, p) == all
  {
    if all != [] {
      assert Ids(all, p) == Ids(all[1..], p);
      NothingWithout(all[1..], p);
    }
  }

  lemma {:induction false} NoOutputLeft(all: seq<Block>)
    requires forall p :: Ids(all, p) == []
    ensures OnlyLines(all) == all
  {
    if all != [] {
      assert all[0].OutputBlock? ==> Ids(all, all[0].pane) != [];
      forall p ensures Ids(all[1..], p) == [] { assert Ids(all, p) == []; }
      NoOutputLeft(all[1..]);
    }
  }
}
