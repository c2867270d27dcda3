/** The wait channels of cmd-wait-for.c.  An item is known by a number and by its client, which it may
  * not have.  Channels for events are not modelled. */
module WaitFor {
  import opened Bytes

  type Client = string
  datatype Item = Item(id: nat, client: Option<Client>)

  datatype Retval = Normal | Error | Wait

  datatype Channel = Channel(locked: bool, woken: bool, waiters: seq<Item>, lockers: seq<Item>)

  const EMPTY := Channel(false, false, [], [])

  /** What has happened on a channel: which items were told to wait and which were continued, which asked
    * for the lock and which were granted it, and how often it was given up.  `plain` says that only
    * waits, signals, locks and unlocks happened. */
  datatype History = History(waited: multiset<Item>, continued: multiset<Item>,
                             asked: seq<Item>, granted: seq<Item>, releases: nat, plain: bool)

  const NOTHING := History(multiset{}, multiset{}, [], [], 0, true)

  // ---- What holds of every channel ----

  predicate ChannelOk(c: Channel) {
    (c.woken ==> c.waiters == []) && (c.lockers != [] ==> c.locked)
  }

  /** Every item that was told to wait has been continued, once, or is still queued. */
  predicate Conserved(c: Channel, h: History) {
    h.waited == h.continued + multiset(c.waiters) + multiset(c.lockers)
  }

  /** The lock is granted in the order in which it was asked for, and to one item at a time. */
  predicate Fair(c: Channel, h: History) {
    h.plain ==> h.asked == h.granted + c.lockers && |h.granted| == h.releases + if c.locked then 1 else 0
  }

  /** `cmd_wait_for_remove`: a channel that is removed is as good as an empty one. */
  function Removed(c: Channel): Channel {
    if c.locked || c.waiters != [] || !c.woken then c else EMPTY
  }

  // ---- The commands on one channel ----

  function Signalled(c: Channel): Channel {
    if c.waiters == [] && !c.woken then c.(woken := true) else Removed(c.(waiters := []))
  }

  function Waited(c: Channel, item: Item): (Channel, Retval) {
    if item.client.None? then (c, Error)
    else if c.woken then (Removed(c), Normal)
    else (c.(waiters := c.waiters + [item]), Wait)
  }

  function Locked(c: Channel, item: Item): (Channel, Retval) {
    if item.client.None? then (c, Error)
    else if c.locked then (c.(lockers := c.lockers + [item]), Wait)
    else (c.(locked := true), Normal)
  }

  function Unlocked(c: Channel): (Channel, Retval) {
    if !c.locked then (c, Error)
    else if c.lockers != [] then (c.(lockers := c.lockers[1..]), Normal)
    else (Removed(c.(locked := false)), Normal)
  }

  /** An item asked for the lock, and was granted it or told to wait. */
  function LockAsked(h: History, item: Item, r: Retval): History {
    match r
    case Error => h
    case Normal => h.(asked := h.asked + [item], granted := h.granted + [item])
    case Wait => h.(asked := h.asked + [item], waited := h.waited + multiset{item})
  }

  /** The first item of a client. */
  function IndexOf(items: seq<Item>, client: Client): (i: nat)
    ensures i <= |items| && (i < |items| ==> items[i].client == Some(client))
  {
    if items == [] then 0
    else if items[0].client == Some(client) then 0
    else 1 + IndexOf(items[1..], client)
  }

  function Without(items: seq<Item>, i: nat): seq<Item>
    requires i < |items|
  {
    items[..i] + items[i + 1..]
  }

  /** `wait-for -w`. */
  function Woke(c: Channel, client: Client): Channel {
    if IndexOf(c.waiters, client) < |c.waiters| then c.(waiters := Without(c.waiters, IndexOf(c.waiters, client)))
    else if IndexOf(c.lockers, client) < |c.lockers| then c.(lockers := Without(c.lockers, IndexOf(c.lockers, client)))
    else c
  }

  function NotOf(items: seq<Item>, client: Client): seq<Item> {
    if items == [] then []
    else (if items[0].client == Some(client) then [] else [items[0]]) + NotOf(items[1..], client)
  }

  /** A client is lost. */
  function Lost(c: Channel, client: Client): Channel {
    c.(waiters := NotOf(c.waiters, client), lockers := NotOf(c.lockers, client))
  }

  // ---- What becomes of a signal ----

  /** Signals with nothing between them. */
  function Signals(c: Channel, n: nat): Channel {
    if n == 0 then c else Signalled(Signals(c, n - 1))
  }

  /** A signal lets the next item pass if it found no item waiting and was the first, or if the channel is
    * locked: a second signal on an unlocked channel takes the first one away with it. */
  lemma SignalKept(c: Channel, item: Item)
    requires ChannelOk(c) && item.client.Some?
    ensures Signalled(c).woken <==> (c.waiters == [] && !c.woken) || (c.woken && c.locked)
    ensures Waited(Signalled(c), item).1 == Normal <==> Signalled(c).woken
    ensures Signalled(Channel(false, true, [], [])) == EMPTY && Waited(EMPTY, item).1 == Wait
  {
  }

  /** So of the signals on an unlocked channel with no waiters, only an odd number is noticed by the next
    * item; on a locked one, any. */
  lemma {:induction false} SignalsNoticed(c: Channel, n: nat, item: Item)
    requires ChannelOk(c) && c.waiters == [] && !c.woken && item.client.Some?
    ensures ChannelOk(Signals(c, n))
    ensures Waited(Signals(c, n), item).1 == Normal <==> if c.locked then n > 0 else n % 2 == 1
  {
    SignalsAre(c, n);
  }

  lemma {:induction false} SignalsAre(c: Channel, n: nat)
    requires ChannelOk(c) && c.waiters == [] && !c.woken
    ensures Signals(c, n) == c.(woken := if c.locked then n > 0 else n % 2 == 1)
  {
    if n > 0 { SignalsAre(c, n - 1); }
  }

  /** A wait uses the signal up: after one signal on an idle channel the first wait passes and the second
    * waits, exactly if the channel is not locked; on a locked one every wait passes. */
  lemma WaitUsesSignal(c: Channel, a: Item, b: Item)
    requires ChannelOk(c) && c.waiters == [] && !c.woken && a.client.Some? && b.client.Some?
    ensures var first := Waited(Signalled(c), a);
            && first.1 == Normal
            && (Waited(first.0, b).1 == Wait <==> !c.locked) && (Waited(first.0, b).1 == Normal <==> c.locked)
            && (!c.locked ==> first.0 == EMPTY)
  {
  }

  /** A wait that is not let through is queued behind the others, and the next signal lets all of them go. */
  lemma SignalFrees(c: Channel, item: Item)
    requires ChannelOk(c) && !c.woken && item.client.Some?
    ensures var now := Waited(c, item);
            && now.1 == Wait && now.0.waiters == c.waiters + [item]
            && Signalled(now.0) == c.(waiters := []) && !Signalled(now.0).woken
  {
  }

  /** Only an item without a client is turned away, and nothing happens then. */
  lemma NeedsClient(c: Channel, item: Item)
    ensures Waited(c, item).1 == Error <==> item.client == None
    ensures Locked(c, item).1 == Error <==> item.client == None
    ensures item.client == None ==> Waited(c, item).0 == c && Locked(c, item).0 == c
  {
  }

  /** A lock that is free is taken at once, and giving it up leaves it free again; one that is held is given to
    * the item that asked for it next, and stays held. */
  lemma LockTurns(c: Channel, a: Item, b: Item)
    requires ChannelOk(c) && !c.locked && !c.woken && a.client.Some? && b.client.Some?
    ensures var held := Locked(c, a);
            var asked := Locked(held.0, b);
            && held.1 == Normal && asked.1 == Wait && asked.0.lockers == [b]
            && Unlocked(c) == (c, Error) && Unlocked(held.0) == (c, Normal)
            && Unlocked(asked.0) == (held.0, Normal) && Unlocked(Unlocked(asked.0).0) == (c, Normal)
  {
    assert [b][1..] == [];
  }

  // ---- Items that are taken off a list ----

  /** The item at `i` is the client's first. */
  predicate FirstOf(items: seq<Item>, client: Client, i: nat) {
    i < |items| && items[i].client == Some(client) && forall j :: 0 <= j < i ==> items[j].client != Some(client)
  }

  predicate HasNone(items: seq<Item>, client: Client) {
    forall i :: 0 <= i < |items| ==> items[i].client != Some(client)
  }

  lemma {:induction false} IndexIsFirst(items: seq<Item>, client: Client)
    ensures var i := IndexOf(items, client); if i < |items| then FirstOf(items, client, i) else HasNone(items, client)
  {
    if items != [] && items[0].client != Some(client) {
      IndexIsFirst(items[1..], client);
      assert forall j :: 0 < j < |items| ==> items[j] == items[1..][j - 1];
    }
  }

  /** Of a client that waits and also waits for the lock, the wait is continued; of several waits the oldest. */
  lemma WokeExact(c: Channel, client: Client)
    ensures HasNone(c.waiters, client) && HasNone(c.lockers, client) ==> Woke(c, client) == c
    ensures !HasNone(c.waiters, client) ==>
              exists i: nat :: FirstOf(c.waiters, client, i) && Woke(c, client) == c.(waiters := c.waiters[..i] + c.waiters[i + 1..])
    ensures HasNone(c.waiters, client) && !HasNone(c.lockers, client) ==>
              exists i: nat :: FirstOf(c.lockers, client, i) && Woke(c, client) == c.(lockers := c.lockers[..i] + c.lockers[i + 1..])
  {
    hide IndexOf;
    IndexIsFirst(c.waiters, client);
    IndexIsFirst(c.lockers, client);
  }

  /** A lost client has no item left, and of any items of others all stay, in their order. */
  lemma {:induction false} NotOfExact(items: seq<Item>, client: Client)
    ensures HasNone(NotOf(items, client), client)
    ensures HasNone(items, client) ==> NotOf(items, client) == items
  {
    if items != [] {
      NotOfExact(items[1..], client);
      OfCons(items, client);
      if HasNone(items, client) {
        forall i | 0 <= i < |items[1..]| ensures items[1..][i].client != Some(client) { assert items[1..][i] == items[i + 1]; }
        assert items[0].client != Some(client);
      }
    }
  }

  lemma {:induction false} NotOfConcat(a: seq<Item>, b: seq<Item>, client: Client)
    ensures NotOf(a + b, client) == NotOf(a, client) + NotOf(b, client)
  {
    if a == [] {
      assert a + b == b;
    } else {
      assert (a + b)[1..] == a[1..] + b;
      NotOfConcat(a[1..], b, client);
    }
  }

  // ---- All channels ----

  class WaitChannels {
    var channels: map<string, Channel>
    var history: map<string, History>

    constructor ()
      ensures Valid() && channels == map[] && history == map[]
    {
      channels, history := map[], map[];
    }

    /** A channel that is not there is empty. */
    function Get(name: string): Channel
      reads this
    {
      if name in channels then channels[name] else EMPTY
    }

    function Past(name: string): History
      reads this
    {
      if name in history then history[name] else NOTHING
    }

    predicate Ok(name: string)
      reads this
    {
      ChannelOk(Get(name)) && Conserved(Get(name), Past(name)) && Fair(Get(name), Past(name))
    }

    ghost predicate Valid()
      reads this
    {
      forall name :: Ok(name)
    }

    /** Nothing changes on other channels. */
    twostate predicate Others(name: string)
      reads this
    {
      forall n :: n != name ==> Get(n) == old(Get(n)) && Past(n) == old(Past(n))
    }

    method Put(name: string, c: Channel, h: History)
      modifies this
      ensures Get(name) == c && Past(name) == h && Others(name) && name in channels
      ensures old(Valid()) && ChannelOk(c) && Conserved(c, h) && Fair(c, h) ==> Valid()
    {
      channels := channels[name := c];
      history := history[name := h];
      forall n | n != name ensures Get(n) == old(Get(n)) && Past(n) == old(Past(n)) && (old(Ok(n)) ==> Ok(n)) {}
    }

    /** `cmd_wait_for_add`. */
    method Find(name: string)
      requires Valid()
      modifies this`channels
      ensures name in channels && forall n :: Get(n) == old(Get(n))
      ensures Valid() && history == old(history)
    {
      hide ChannelOk, Conserved, Fair;
      if name !in channels {
        channels := channels[name := EMPTY];
      }
      forall n ensures Ok(n) {
        assert old(Ok(n)) && Get(n) == old(Get(n)) && Past(n) == old(Past(n));
      }
    }

    /** `cmd_wait_for_remove`: no item that is still queued is dropped. */
    method Remove(name: string)
      requires Valid() && name in channels
      modifies this`channels
      ensures Get(name) == Removed(old(Get(name))) && Others(name) && Valid() && history == old(history)
    {
      var c := channels[name];
      assert Ok(name) && c == Get(name);
      if c.locked || c.waiters != [] || !c.woken {
        return;
      }
      assert c.waiters == [] && c.lockers == [];
      channels := channels - {name};
      forall n ensures Ok(n) { assert old(Ok(n)); }
    }

    /** `wait-for -S`. */
    method Signal(name: string)
      requires Valid()
      modifies this
      ensures Valid() && Get(name) == Signalled(old(Get(name))) && Others(name)
      ensures Past(name) == old(Past(name)).(continued := old(Past(name)).continued + multiset(old(Get(name)).waiters))
    {
      Find(name);
      assert Ok(name);
      if Get(name).waiters == [] && !Get(name).woken {
        Put(name, Get(name).(woken := true), Past(name));
        return;
      }
      ContinueAll(name);
      Remove(name);
    }

    /** The loop of `cmd_wait_for_signal`. */
    method ContinueAll(name: string)
      requires Valid() && name in channels
      modifies this
      ensures Valid() && name in channels && Get(name) == old(Get(name)).(waiters := []) && Others(name)
      ensures Past(name) == old(Past(name)).(continued := old(Past(name)).continued + multiset(old(Get(name)).waiters))
    {
      hide Valid;
      ghost var c0, h0 := Get(name), Past(name);
      while Get(name).waiters != []
        invariant Valid() && name in channels && Others(name)
        invariant Get(name) == c0.(waiters := Get(name).waiters)
        invariant Past(name) == h0.(continued := Past(name).continued)
        invariant Past(name).continued + multiset(Get(name).waiters) == h0.continued + multiset(c0.waiters)
        decreases |Get(name).waiters|
      {
        Continue(name);
      }
    }

    /** The first waiter is continued. */
    method Continue(name: string)
      requires Valid() && Get(name).waiters != []
      modifies this
      ensures Valid() && name in channels && Others(name)
      ensures Get(name) == old(Get(name)).(waiters := old(Get(name)).waiters[1..])
      ensures Past(name)
           == old(Past(name)).(continued := old(Past(name)).continued + multiset{old(Get(name)).waiters[0]})
      ensures Past(name).continued + multiset(Get(name).waiters)
           == old(Past(name)).continued + multiset(old(Get(name)).waiters)
    {
      var c, h := Get(name), Past(name);
      assert Ok(name) && c.waiters == [c.waiters[0]] + c.waiters[1..];
      Put(name, c.(waiters := c.waiters[1..]), h.(continued := h.continued + multiset{c.waiters[0]}));
    }

    /** `wait-for`. */
    method WaitOn(name: string, item: Item) returns (r: Retval)
      requires Valid()
      modifies this
      ensures Valid() && (Get(name), r) == Waited(old(Get(name)), item) && Others(name)
      ensures Past(name) == if r == Wait then old(Past(name)).(waited := old(Past(name)).waited + multiset{item})
                            else old(Past(name))
    {
      hide ChannelOk, Conserved, Fair;
      if item.client.None? {
        return Error;
      }
      Find(name);
      assert Ok(name);
      var c, h := Get(name), Past(name);
      if c.woken {
        Remove(name);
        return Normal;
      }
      Enqueued(c, h, item);
      Put(name, c.(waiters := c.waiters + [item]), h.(waited := h.waited + multiset{item}));
      return Wait;
    }

    /** `wait-for -L`. */
    method Lock(name: string, item: Item) returns (r: Retval)
      requires Valid()
      modifies this
      ensures Valid() && (Get(name), r) == Locked(old(Get(name)), item) && Others(name)
      ensures Past(name) == LockAsked(old(Past(name)), item, r)
    {
      if item.client.None? {
        return Error;
      }
      hide Locked, LockAsked, ChannelOk, Conserved, Fair;
      Find(name);
      r := LockOn(name, item);
    }

    method LockOn(name: string, item: Item) returns (r: Retval)
      requires Valid() && item.client.Some?
      modifies this
      ensures Valid() && (Get(name), r) == Locked(old(Get(name)), item) && Others(name)
      ensures Past(name) == LockAsked(old(Past(name)), item, r)
    {
      hide ChannelOk, Conserved, Fair, LockAsked;
      assert Ok(name);
      var c, h := Get(name), Past(name);
      if c.locked {
        Enqueued(c, h, item);
        Put(name, c.(lockers := c.lockers + [item]), LockAsked(h, item, Wait));
        return Wait;
      }
      Granted(c, h, item);
      Put(name, c.(locked := true), LockAsked(h, item, Normal));
      return Normal;
    }

    /** `wait-for -U`: the lock goes to the item that has waited longest for it, or is given up. */
    method Unlock(name: string) returns (r: Retval)
      requires Valid()
      modifies this
      ensures Valid() && (Get(name), r) == Unlocked(old(Get(name))) && Others(name)
      ensures var before, next := old(Past(name)), old(Get(name)).lockers;
              Past(name) == if r == Error then before
                else if next == [] then before.(releases := before.releases + 1)
                else before.(releases := before.releases + 1, granted := before.granted + [next[0]],
                             continued := before.continued + multiset{next[0]})
    {
      if name !in channels || !channels[name].locked {
        return Error;
      }
      assert Ok(name);
      var c, h := Get(name), Past(name);
      if c.lockers != [] {
        var item, rest := c.lockers[0], c.lockers[1..];
        assert c.lockers == [item] + rest;
        assert h.granted + ([item] + rest) == h.granted + [item] + rest;
        Put(name, c.(lockers := rest),
            h.(continued := h.continued + multiset{item}, granted := h.granted + [item], releases := h.releases + 1));
      } else {
        Put(name, c.(locked := false), h.(releases := h.releases + 1));
        Remove(name);
        assert h.granted + [] == h.granted;
      }
      return Normal;
    }

    /** `wait-for -w`: the client's first item is continued, of the waiters if it has one there. */
    method Wake(name: string, client: Client)
      requires Valid()
      modifies this
      ensures Valid() && Get(name) == Woke(old(Get(name)), client) && Others(name)
    {
      hide IndexOf, Without, Conserved, Fair;
      assert Ok(name);
      var c, h := Get(name), Past(name);
      var i, j := IndexOf(c.waiters, client), IndexOf(c.lockers, client);
      if i < |c.waiters| {
        WokenOne(c, h, i, true);
        Put(name, c.(waiters := Without(c.waiters, i)),
            h.(continued := h.continued + multiset{c.waiters[i]}, plain := false));
        RemoveEmpty(name);
      } else if j < |c.lockers| {
        WokenOne(c, h, j, false);
        Put(name, c.(lockers := Without(c.lockers, j)),
            h.(continued := h.continued + multiset{c.lockers[j]}, plain := false));
        RemoveEmpty(name);
      }
    }

    /** `cmd_wait_for_remove_empty`. */
    method RemoveEmpty(name: string)
      requires Valid()
      modifies this`channels
      ensures Valid() && history == old(history) && forall n :: Get(n) == old(Get(n))
      ensures channels.Keys <= old(channels).Keys && channels.Keys >= old(channels).Keys - {name}
    {
      if Get(name) == EMPTY {
        channels := channels - {name};
      }
      forall n ensures Ok(n) { assert old(Ok(n)); }
    }

    /** `cmd_wait_for_client_lost`: on every channel, all items of the client are continued. */
    method ClientLost(client: Client)
      requires Valid()
      modifies this
      ensures Valid() && forall n :: Get(n) == Lost(old(Get(n)), client)
    {
      hide NotOf;
      NoneOf(client);
      var names := channels.Keys;
      ghost var rest := names;
      while names != {}
        invariant Valid() && (forall n :: n in names ==> Get(n) == old(Get(n)))
        invariant forall n :: n !in names ==> Get(n) == Lost(old(Get(n)), client)
        decreases |names|
      {
        var name :| name in names;
        LostOn(name, client);
        names := names - {name};
      }
    }

    method LostOn(name: string, client: Client)
      requires Valid()
      modifies this
      ensures Valid() && Get(name) == Lost(old(Get(name)), client) && Others(name)
    {
      hide NotOf, ChannelOk, Conserved, Fair;
      assert Ok(name);
      var c, h := Get(name), Past(name);
      var waiters, ws := Take(c.waiters, client);
      var lockers, ls := Take(c.lockers, client);
      LostOk(c, h, client, ws, ls);
      Put(name, c.(waiters := waiters, lockers := lockers), h.(continued := h.continued + ws + ls, plain := false));
      RemoveEmpty(name);
    }

    /** `cmd_wait_for_flush`: every channel goes, and nothing is left waiting. */
    method Flush()
      requires Valid()
      modifies this
      ensures Valid() && forall n :: Get(n) == EMPTY
    {
      var names := channels.Keys;
      while names != {}
        invariant Valid() && forall n :: n !in names ==> Get(n) == EMPTY
        decreases |names|
      {
        var name :| name in names;
        FlushOn(name);
        names := names - {name};
      }
    }

    /** `cmd_wait_for_flush` on one channel: everything is continued, and the channel is removed. */
    method FlushOn(name: string)
      requires Valid()
      modifies this
      ensures Valid() && Get(name) == EMPTY && Others(name)
      ensures Past(name).waited == Past(name).continued == old(Past(name)).waited
    {
      Find(name);
      assert Ok(name);
      var c, h := Get(name), Past(name);
      Put(name, Channel(false, true, [], []),
          h.(continued := h.continued + multiset(c.waiters) + multiset(c.lockers), plain := false));
      Remove(name);
    }
  }

  lemma WithoutOne(items: seq<Item>, i: nat)
    requires i < |items|
    ensures multiset(items) == multiset(Without(items, i)) + multiset{items[i]}
  {
    assert items == items[..i] + [items[i]] + items[i + 1..];
  }

  /** An item is told to wait at the end of the waiters, or of the lockers of a locked channel. */
  lemma Enqueued(c: Channel, h: History, item: Item)
    requires ChannelOk(c) && Conserved(c, h) && Fair(c, h)
    ensures var c', h' := c.(waiters := c.waiters + [item]), h.(waited := h.waited + multiset{item});
            Conserved(c', h') && Fair(c', h') && (!c.woken ==> ChannelOk(c'))
    ensures c.locked ==>
              var c', h' := c.(lockers := c.lockers + [item]), LockAsked(h, item, Wait);
              ChannelOk(c') && Conserved(c', h') && Fair(c', h')
  {
    assert multiset(c.waiters + [item]) == multiset(c.waiters) + multiset{item};
    assert multiset(c.lockers + [item]) == multiset(c.lockers) + multiset{item};
    assert h.granted + (c.lockers + [item]) == h.granted + c.lockers + [item];
  }

  /** The lock of an unlocked channel is granted. */
  lemma Granted(c: Channel, h: History, item: Item)
    requires ChannelOk(c) && Conserved(c, h) && Fair(c, h) && !c.locked
    ensures var c', h' := c.(locked := true), LockAsked(h, item, Normal);
            ChannelOk(c') && Conserved(c', h') && Fair(c', h')
  {
    assert h.plain ==> h.asked + [item] == h.granted + [item] + c.lockers;
  }

  /** One queued item is continued. */
  lemma WokenOne(c: Channel, h: History, i: nat, waiter: bool)
    requires ChannelOk(c) && Conserved(c, h) && i < |if waiter then c.waiters else c.lockers|
    ensures var item := (if waiter then c.waiters else c.lockers)[i];
            var c' := if waiter then c.(waiters := Without(c.waiters, i)) else c.(lockers := Without(c.lockers, i));
            var h' := h.(continued := h.continued + multiset{item}, plain := false);
            ChannelOk(c') && Conserved(c', h') && Fair(c', h')
  {
    if waiter { WithoutOne(c.waiters, i); } else { WithoutOne(c.lockers, i); }
  }

  function Of(items: seq<Item>, client: Client): multiset<Item> {
    if items == [] then multiset{}
    else (if items[0].client == Some(client) then multiset{items[0]} else multiset{}) + Of(items[1..], client)
  }

  lemma FirstAndRest(first: Item, rest: seq<Item>)
    ensures multiset([first] + rest) == multiset{first} + multiset(rest)
  {
  }

  lemma OfCons(items: seq<Item>, client: Client)
    requires items != []
    ensures NotOf(items, client)
         == if items[0].client == Some(client) then NotOf(items[1..], client) else [items[0]] + NotOf(items[1..], client)
    ensures Of(items, client)
         == if items[0].client == Some(client) then multiset{items[0]} + Of(items[1..], client) else Of(items[1..], client)
  {
    assert [] + NotOf(items[1..], client) == NotOf(items[1..], client);
    assert multiset{} + Of(items[1..], client) == Of(items[1..], client);
  }

  lemma {:induction false} OfAndNotOf(items: seq<Item>, client: Client)
    ensures multiset(items) == multiset(NotOf(items, client)) + Of(items, client)
  {
    if items != [] {
      OfAndNotOf(items[1..], client);
      OfCons(items, client);
      hide NotOf, Of;
      FirstAndRest(items[0], items[1..]);
      assert items == [items[0]] + items[1..];
      FirstAndRest(items[0], NotOf(items[1..], client));
    }
  }

  /** The items of a client, taken off a list one by one. */
  method Take(items: seq<Item>, client: Client) returns (kept: seq<Item>, taken: multiset<Item>)
    ensures kept == NotOf(items, client) && taken == Of(items, client)
    ensures multiset(items) == multiset(kept) + taken
  {
    kept, taken := [], multiset{};
    TakeStart(items, client);
    for i := 0 to |items|
      invariant kept + NotOf(items[i..], client) == NotOf(items, client)
      invariant taken + Of(items[i..], client) == Of(items, client)
    {
      hide NotOf, Of;
      TakeStep(kept, taken, items, i, client);
      if items[i].client == Some(client) {
        taken := taken + multiset{items[i]};
      } else {
        kept := kept + [items[i]];
      }
    }
    assert kept + [] == kept;
    OfAndNotOf(items, client);
  }

  lemma TakeStart(items: seq<Item>, client: Client)
    ensures [] + NotOf(items[0..], client) == NotOf(items, client)
    ensures multiset{} + Of(items[0..], client) == Of(items, client)
  {
    assert items[0..] == items;
    assert [] + NotOf(items, client) == NotOf(items, client);
  }

  lemma Regrouped(a: seq<Item>, b: seq<Item>, c: seq<Item>)
    ensures a + (b + c) == (a + b) + c
  {
  }

  lemma AddedUp(a: multiset<Item>, b: multiset<Item>, c: multiset<Item>)
    ensures a + (b + c) == (a + b) + c
  {
  }

  lemma TakeStep(kept: seq<Item>, taken: multiset<Item>, items: seq<Item>, i: nat, client: Client)
    requires i < |items|
    ensures kept + NotOf(items[i..], client)
         == (if items[i].client == Some(client) then kept else kept + [items[i]]) + NotOf(items[i + 1..], client)
    ensures taken + Of(items[i..], client)
         == (if items[i].client == Some(client) then taken + multiset{items[i]} else taken) + Of(items[i + 1..], client)
  {
    hide NotOf, Of;
    var now, rest := items[i..], items[i + 1..];
    OfCons(now, client);
    assert now[0] == items[i] && now[1..] == rest;
    Regrouped(kept, [items[i]], NotOf(rest, client));
    AddedUp(taken, multiset{items[i]}, Of(rest, client));
  }

  /** A channel without the items of a client that is lost. */
  lemma LostOk(c: Channel, h: History, client: Client, ws: multiset<Item>, ls: multiset<Item>)
    requires ChannelOk(c) && Conserved(c, h)
    requires multiset(c.waiters) == multiset(NotOf(c.waiters, client)) + ws
    requires multiset(c.lockers) == multiset(NotOf(c.lockers, client)) + ls
    ensures var c', h' := Lost(c, client), h.(continued := h.continued + ws + ls, plain := false);
            ChannelOk(c') && Conserved(c', h') && Fair(c', h')
  {
    NotOfNone(c.lockers, client);
    NotOfNone(c.waiters, client);
  }

  lemma NotOfNone(items: seq<Item>, client: Client)
    ensures items == [] ==> NotOf(items, client) == []
  {
  }

  lemma NoneOf(client: Client)
    ensures Lost(EMPTY, client) == EMPTY
  {
  }
}
