/** Which items of a command queue are fired, and why any other is not. */
module CmdTurns {
  import opened CmdQueue

  // ---- What ought to be fired ----

  /** The numbers of an item, of what it inserts and, if it waits, of what it gets before it continues. */
  function Due(item: Item): multiset<nat>
    decreases item
  {
    multiset{item.id} + ChainsDue(item.inserts) + if item.outcome == Wait then ChainsDue(item.late) else multiset{}
  }

  function ListDue(items: seq<Item>): multiset<nat>
    decreases items
  {
    if items == [] then multiset{} else Due(items[0]) + ListDue(items[1..])
  }

  function ChainDue(chain: Chain): multiset<nat>
    decreases chain
  {
    ListDue(chain.items)
  }

  function ChainsDue(chains: seq<Chain>): multiset<nat>
    decreases chains
  {
    if chains == [] then multiset{} else ChainDue(chains[0]) + ChainsDue(chains[1..])
  }

  lemma {:induction false} DueConcat(a: seq<Item>, b: seq<Item>)
    ensures ListDue(a + b) == ListDue(a) + ListDue(b)
  {
    if a == [] {
      assert a + b == b;
    } else {
      assert (a + b)[1..] == a[1..] + b;
      DueConcat(a[1..], b);
    }
  }

  lemma {:induction false} SplicedDue(chains: seq<Chain>)
    ensures ListDue(Spliced(chains)) == ChainsDue(chains)
  {
    if chains != [] {
      SplicedDue(chains[1..]);
      DueConcat(Spliced(chains[1..]), chains[0].items);
    }
  }

  lemma BringsDue(item: Item)
    ensures Due(item) == multiset{item.id} + ListDue(Brings(item))
  {
    SplicedDue(item.inserts);
    SplicedDue(item.late);
    SplicedConcat(item.inserts, item.late);
    DueConcat(Spliced(item.late), Spliced(item.inserts));
  }

  // ---- The turns ----

  /** An item comes to its turn, brought by the item of turn `from`, or queued at the start if that is -1. */
  datatype Turn = Took(item: Item, from: int, fired: bool)

  /** A command that was fired and failed, and has a group to stop. */
  predicate Failed(t: Turn) {
    t.fired && t.item.command && t.item.outcome.Error? && t.item.group > 0
  }

  /** The groups stopped in some turns. */
  function StoppedIn(turns: seq<Turn>): set<nat> {
    set t | t in turns && Failed(t) :: t.item.group
  }

  function From(turns: seq<Turn>, from: int): seq<Turn>
    requires from <= |turns|
  {
    if from < 0 then turns else turns[from..]
  }

  /** The turns of the items after the turns `before`.  A failed command removes what is queued then, so an
    * item is fired unless a command of its group failed since the item was brought. */
  function Turns(before: seq<Turn>, items: seq<Item>, from: int): (turns: seq<Turn>)
    requires from < |before|
    ensures before <= turns
    decreases ListSize(items)
  {
    if items == [] then before
    else
      var item, rest := items[0], items[1..];
      var fired := item.group !in StoppedIn(From(before, from));
      var turns := before + [Took(item, from, fired)];
      SizePositive(item);
      var inner := if fired then Turns(turns, Brings(item), |before|) else turns;
      Turns(inner, rest, from)
  }

  function FiredIds(turns: seq<Turn>): seq<nat> {
    if turns == [] then []
    else FiredIds(turns[..|turns| - 1]) + if turns[|turns| - 1].fired then [turns[|turns| - 1].item.id] else []
  }

  lemma {:induction false} FiredConcat(a: seq<Turn>, b: seq<Turn>)
    ensures FiredIds(a + b) == FiredIds(a) + FiredIds(b)
  {
    if b == [] {
      assert a + b == a;
    } else {
      assert (a + b)[..|a + b| - 1] == a + b[..|b| - 1];
      FiredConcat(a, b[..|b| - 1]);
      var last := if b[|b| - 1].fired then [b[|b| - 1].item.id] else [];
      assert FiredIds(a) + FiredIds(b[..|b| - 1]) + last == FiredIds(a) + (FiredIds(b[..|b| - 1]) + last);
    }
  }

  lemma FiredOne(t: Turn)
    ensures FiredIds([t]) == if t.fired then [t.item.id] else []
  {
    assert [t][..0] == [];
  }

  lemma StoppedConcat(a: seq<Turn>, b: seq<Turn>)
    ensures StoppedIn(a + b) == StoppedIn(a) + StoppedIn(b)
  {
  }

  lemma StoppedOne(item: Item, from: int)
    ensures StoppedIn([Took(item, from, true)]) == Stops(item)
    ensures StoppedIn([Took(item, from, false)]) == {}
  {
    assert Took(item, from, true) in [Took(item, from, true)];
  }

  /** What came after `before`. */
  function New(before: seq<Turn>, turns: seq<Turn>): seq<Turn>
    requires before <= turns
  {
    turns[|before|..]
  }

  lemma FromMore(before: seq<Turn>, more: seq<Turn>, from: int)
    requires from <= |before|
    ensures From(before + more, from) == From(before, from) + more
  {
  }

  /** The turns fire exactly what sequential execution fires, and stop the same groups. */
  lemma {:induction false} TurnsFire(before: seq<Turn>, items: seq<Item>, from: int)
    requires from < |before|
    ensures var added, r := New(before, Turns(before, items, from)), ExecList(Without(items, StoppedIn(From(before, from))));
            FiredIds(added) == r.0 && StoppedIn(added) == r.1
    decreases ListSize(items), 1
  {
    hide Turns, ExecList, ExecItem, Without, Brings, Stops, Size, FiredIds, StoppedIn;
    TurnsUnfold(before, items, from);
    var stopped := StoppedIn(From(before, from));
    if items == [] {
      NoTurns(before, stopped);
    } else {
      var item, rest := items[0], items[1..];
      SizePositive(item);
      SizeTail(items);
      WithoutUnfold(items, stopped);
      if item.group in stopped {
        SkipTurn(before, item, rest, from);
      } else {
        FireTurn(before, item, rest, from);
      }
    }
  }

  lemma SizeTail(items: seq<Item>)
    requires items != []
    ensures ListSize(items) == Size(items[0]) + ListSize(items[1..]) && ListSize(Brings(items[0])) < Size(items[0])
  {
  }

  lemma TurnsUnfold(before: seq<Turn>, items: seq<Item>, from: int)
    requires from < |before|
    ensures items == [] ==> Turns(before, items, from) == before
    ensures items != [] ==>
              var fired := items[0].group !in StoppedIn(From(before, from));
              var turns := before + [Took(items[0], from, fired)];
              Turns(before, items, from)
              == Turns(if fired then Turns(turns, Brings(items[0]), |before|) else turns, items[1..], from)
  {
    hide Brings, StoppedIn;
  }

  lemma WithoutUnfold(items: seq<Item>, groups: set<nat>)
    requires items != []
    ensures items[0].group in groups ==> Without(items, groups) == Without(items[1..], groups)
    ensures items[0].group !in groups ==> Without(items, groups) == [items[0]] + Without(items[1..], groups)
  {
  }

  lemma NoTurns(before: seq<Turn>, stopped: set<nat>)
    ensures New(before, before) == [] && FiredIds([]) == [] && StoppedIn([]) == {}
    ensures ExecList(Without([], stopped)) == ([], {})
  {
  }

  lemma {:induction false} SkipTurn(before: seq<Turn>, item: Item, rest: seq<Item>, from: int)
    requires from < |before| && item.group in StoppedIn(From(before, from))
    ensures var turns := before + [Took(item, from, false)];
            var added, r := New(before, Turns(turns, rest, from)), ExecList(Without(rest, StoppedIn(From(before, from))));
            FiredIds(added) == r.0 && StoppedIn(added) == r.1
    decreases Size(item) + ListSize(rest), 0
  {
    hide Turns, ExecList, Without, FiredIds, StoppedIn;
    var one := [Took(item, from, false)];
    var turns := before + one;
    SizePositive(item);
    TurnsFire(turns, rest, from);
    FromMore(before, one, from);
    StoppedConcat(From(before, from), one);
    StoppedOne(item, from);
    assert StoppedIn(From(before, from)) + {} == StoppedIn(From(before, from));
    var last := New(turns, Turns(turns, rest, from));
    assert New(before, Turns(turns, rest, from)) == one + last;
    FiredConcat(one, last);
    FiredOne(one[0]);
    assert [] + FiredIds(last) == FiredIds(last);
    StoppedConcat(one, last);
    assert {} + StoppedIn(last) == StoppedIn(last);
  }

  lemma {:induction false} FireTurn(before: seq<Turn>, item: Item, rest: seq<Item>, from: int)
    requires from < |before| && item.group !in StoppedIn(From(before, from))
    ensures var stopped := StoppedIn(From(before, from));
            var turns := before + [Took(item, from, true)];
            var end := Turns(Turns(turns, Brings(item), |before|), rest, from);
            var added, r := New(before, end), ExecList([item] + Without(rest, stopped));
            FiredIds(added) == r.0 && StoppedIn(added) == r.1
    decreases Size(item) + ListSize(rest), 0
  {
    hide Turns, ExecList, ExecItem, Without, Brings, Stops, Size, FiredIds, StoppedIn;
    var one, stopped := [Took(item, from, true)], StoppedIn(From(before, from));
    var turns := before + one;
    BringsSmaller(item);
    SizePositive(item);
    TurnsFire(turns, Brings(item), |before|);
    assert From(turns, |before|) == one;
    StoppedOne(item, from);
    var inner := Turns(turns, Brings(item), |before|);
    var brought := New(turns, inner);
    TurnsFire(inner, rest, from);
    assert inner == before + (one + brought);
    FromMore(before, one + brought, from);
    StoppedConcat(From(before, from), one + brought);
    StoppedConcat(one, brought);
    FiredConcat(one, brought);
    FiredOne(one[0]);
    var end := Turns(inner, rest, from);
    var last := New(inner, end);
    assert New(before, end) == one + brought + last;
    FiredConcat(one + brought, last);
    StoppedConcat(one + brought, last);
    var a := ExecItem(item);
    ItemUnfold(item);
    ExecUnfold([item] + Without(rest, stopped));
    assert ([item] + Without(rest, stopped))[1..] == Without(rest, stopped);
    WithoutTwice(rest, stopped, a.1);
    assert StoppedIn(From(inner, from)) == stopped + a.1;
  }

  lemma ItemUnfold(item: Item)
    ensures ExecItem(item) == var r := ExecList(Without(Brings(item), Stops(item))); ([item.id] + r.0, Stops(item) + r.1)
  {
    hide ExecList, Brings, Without, Stops;
  }

  lemma BringsSmaller(item: Item)
    ensures ListSize(Brings(item)) < Size(item)
  {
  }

  // ---- Why an item is fired or not ----

  /** An item takes its turn because it was queued, or because an item that was fired brought it; and it is
    * fired exactly if no command of its group failed in between. */
  ghost predicate TurnOk(turns: seq<Turn>, k: nat, items: seq<Item>)
    requires k < |turns|
  {
    var t := turns[k];
    && -1 <= t.from < k
    && (if t.from == -1 then t.item in items else turns[t.from].fired && t.item in Brings(turns[t.from].item))
    && (t.fired <==> !exists j :: 0 <= j < k && t.from <= j && Failed(turns[j]) && turns[j].item.group == t.item.group)
  }

  /** What every turn accounts for: the item, and if it is not fired all it would have brought. */
  function Tally(turns: seq<Turn>): multiset<nat> {
    if turns == [] then multiset{}
    else
      var t := turns[|turns| - 1];
      Tally(turns[..|turns| - 1]) + if t.fired then multiset{t.item.id} else Due(t.item)
  }

  lemma TallyMore(turns: seq<Turn>, t: Turn)
    ensures Tally(turns + [t]) == Tally(turns) + if t.fired then multiset{t.item.id} else Due(t.item)
  {
    assert (turns + [t])[..|turns|] == turns;
  }

  lemma StoppedSince(turns: seq<Turn>, from: int, group: nat)
    requires -1 <= from < |turns|
    ensures group in StoppedIn(From(turns, from))
         <==> exists j :: 0 <= j < |turns| && from <= j && Failed(turns[j]) && turns[j].item.group == group
  {
    var since := From(turns, from);
    var start := if from < 0 then 0 else from;
    if j :| 0 <= j < |turns| && from <= j && Failed(turns[j]) && turns[j].item.group == group {
      assert since[j - start] == turns[j];
    }
    if group in StoppedIn(since) {
      var j :| 0 <= j < |since| && Failed(since[j]) && since[j].item.group == group;
      assert turns[start + j] == since[j];
    }
  }

  lemma {:induction false} TurnsOk(before: seq<Turn>, items: seq<Item>, from: int, top: seq<Item>)
    requires -1 <= from < |before| && forall k: nat :: k < |before| ==> TurnOk(before, k, top)
    requires forall item :: item in items ==>
      if from == -1 then item in top else before[from].fired && item in Brings(before[from].item)
    ensures var turns := Turns(before, items, from);
            && (forall k: nat :: k < |turns| ==> TurnOk(turns, k, top))
            && Tally(turns) == Tally(before) + ListDue(items)
    decreases ListSize(items)
  {
    hide Turns, Brings, Size, StoppedIn, Tally, TurnOk, Due;
    TurnsUnfold(before, items, from);
    if items != [] {
      var item, rest := items[0], items[1..];
      var fired := item.group !in StoppedIn(From(before, from));
      var t := Took(item, from, fired);
      var turns := before + [t];
      SizePositive(item);
      SizeTail(items);
      assert item in items;
      NewTurnOk(before, t, top);
      TallyMore(before, t);
      var inner := turns;
      if fired {
        inner := Turns(turns, Brings(item), |before|);
        TurnsOk(turns, Brings(item), |before|, top);
        BringsDue(item);
      }
      assert inner[..|before|] == before;
      TurnsOk(inner, rest, from, top);
      DueTally(Tally(before), item, rest);
    }
  }

  lemma DueTally(before: multiset<nat>, item: Item, rest: seq<Item>)
    ensures before + Due(item) + ListDue(rest) == before + ListDue([item] + rest)
  {
    hide Due;
    assert ([item] + rest)[1..] == rest;
  }

  lemma NewTurnOk(before: seq<Turn>, t: Turn, top: seq<Item>)
    requires -1 <= t.from < |before| && (forall k: nat :: k < |before| ==> TurnOk(before, k, top))
    requires if t.from == -1 then t.item in top else before[t.from].fired && t.item in Brings(before[t.from].item)
    requires t.fired <==> t.item.group !in StoppedIn(From(before, t.from))
    ensures forall k: nat :: k < |before| + 1 ==> TurnOk(before + [t], k, top)
  {
    hide Brings, StoppedIn;
    var turns := before + [t];
    StoppedSince(before, t.from, t.item.group);
    forall k: nat | k < |turns| ensures TurnOk(turns, k, top) {
      if k < |before| {
        SameTurn(before, turns, k, top);
      } else {
        LastTurn(before, t, top);
      }
    }
  }

  lemma LastTurn(before: seq<Turn>, t: Turn, top: seq<Item>)
    requires -1 <= t.from < |before|
    requires if t.from == -1 then t.item in top else before[t.from].fired && t.item in Brings(before[t.from].item)
    requires t.fired <==> !exists j :: 0 <= j < |before| && t.from <= j && Failed(before[j]) && before[j].item.group == t.item.group
    ensures TurnOk(before + [t], |before|, top)
  {
    hide Brings, Failed;
    var turns := before + [t];
    assert forall j :: 0 <= j < |before| ==> turns[j] == before[j];
    if j :| 0 <= j < |before| && t.from <= j && Failed(before[j]) && before[j].item.group == t.item.group {
      assert Failed(turns[j]);
    }
    if j :| 0 <= j < |before| && t.from <= j && Failed(turns[j]) && turns[j].item.group == t.item.group {
      assert Failed(before[j]);
    }
  }

  lemma SameTurn(before: seq<Turn>, turns: seq<Turn>, k: nat, top: seq<Item>)
    requires k < |before| && before <= turns && TurnOk(before, k, top)
    ensures TurnOk(turns, k, top)
  {
    hide Brings;
    forall j | 0 <= j <= k ensures turns[j] == before[j] {}
  }

  /** Sequential execution, exactly: it fires the items that take their turn, in order, but those of a group
    * of which a command failed after they were brought; and every number that is due was fired, or belongs
    * to an item that was not, or to what that item would have brought. */
  lemma TurnsExact(items: seq<Item>)
    ensures var turns := Turns([], items, -1);
            && ExecList(items).0 == FiredIds(turns)
            && (forall k: nat :: k < |turns| ==> TurnOk(turns, k, items))
            && Tally(turns) == ListDue(items)
  {
    hide Turns, ExecList, Without, Tally, TurnOk, FiredIds;
    TurnsFire([], items, -1);
    assert StoppedIn([]) == {};
    WithoutNone(items);
    assert New([], Turns([], items, -1)) == Turns([], items, -1);
    TurnsOk([], items, -1, items);
    NoTally();
  }

  lemma NoTally()
    ensures Tally([]) == multiset{}
  {
  }

  /** A number that is due and not fired often enough belongs to an item of which a group member failed before
    * the item's turn, or to what that item would have brought. */
  lemma MissingHasReason(items: seq<Item>, id: nat) returns (k: nat, j: nat)
    requires multiset(ExecList(items).0)[id] < ListDue(items)[id]
    ensures var turns := Turns([], items, -1);
            && j < k < |turns| && !turns[k].fired && id in Due(turns[k].item)
            && Failed(turns[j]) && turns[j].item.group == turns[k].item.group && turns[k].from <= j
  {
    hide Turns, ExecList, Tally, FiredIds, Due;
    TurnsExact(items);
    var turns := Turns([], items, -1);
    k := NotFired(turns, id);
    assert TurnOk(turns, k, items);
    j :| 0 <= j < k && turns[k].from <= j && Failed(turns[j]) && turns[j].item.group == turns[k].item.group;
  }

  lemma {:induction false} NotFired(turns: seq<Turn>, id: nat) returns (k: nat)
    requires multiset(FiredIds(turns))[id] < Tally(turns)[id]
    ensures k < |turns| && !turns[k].fired && id in Due(turns[k].item)
  {
    hide Due;
    var front, t := turns[..|turns| - 1], turns[|turns| - 1];
    if !t.fired && id in Due(t.item) {
      k := |turns| - 1;
    } else {
      k := NotFired(front, id);
    }
  }

  // ---- When nothing fails ----

  /** No command with a group fails, of the item and of what is due with it. */
  predicate Succeeds(item: Item)
    decreases item
  {
    !(item.command && item.outcome.Error? && item.group > 0)
    && ChainsSucceed(item.inserts) && (item.outcome == Wait ==> ChainsSucceed(item.late))
  }

  predicate ListSucceeds(items: seq<Item>)
    decreases items
  {
    items == [] || (Succeeds(items[0]) && ListSucceeds(items[1..]))
  }

  predicate ChainSucceeds(chain: Chain)
    decreases chain
  {
    ListSucceeds(chain.items)
  }

  predicate ChainsSucceed(chains: seq<Chain>)
    decreases chains
  {
    chains == [] || (ChainSucceeds(chains[0]) && ChainsSucceed(chains[1..]))
  }

  lemma {:induction false} SucceedConcat(a: seq<Item>, b: seq<Item>)
    ensures ListSucceeds(a + b) <==> ListSucceeds(a) && ListSucceeds(b)
  {
    if a == [] {
      assert a + b == b;
    } else {
      assert (a + b)[1..] == a[1..] + b;
      SucceedConcat(a[1..], b);
    }
  }

  lemma {:induction false} SplicedSucceed(chains: seq<Chain>)
    ensures ListSucceeds(Spliced(chains)) <==> ChainsSucceed(chains)
  {
    if chains != [] {
      SplicedSucceed(chains[1..]);
      SucceedConcat(Spliced(chains[1..]), chains[0].items);
    }
  }

  lemma BringsSucceed(item: Item)
    requires Succeeds(item)
    ensures ListSucceeds(Brings(item)) && Stops(item) == {}
  {
    SplicedSucceed(item.inserts);
    SplicedSucceed(item.late);
    SplicedConcat(item.inserts, item.late);
    SucceedConcat(Spliced(item.late), Spliced(item.inserts));
  }

  /** If no command fails, everything that is due is fired, each number as often as it is due. */
  lemma {:induction false} AllFired(items: seq<Item>)
    requires ListSucceeds(items)
    ensures multiset(ExecList(items).0) == ListDue(items) && ExecList(items).1 == {}
    decreases ListSize(items)
  {
    hide ExecList, ExecItem, Brings, Stops, Without, Size, Due;
    if items == [] {
      ExecNone();
    } else {
      var item, rest := items[0], items[1..];
      SizePositive(item);
      SizeTail(items);
      BringsSucceed(item);
      AllFired(Brings(item));
      AllFired(rest);
      ExecUnfold(items);
      ItemUnfold(item);
      WithoutNone(Brings(item));
      WithoutNone(rest);
      BringsDue(item);
      var brought := ExecList(Brings(item));
      assert multiset([item.id] + brought.0) == multiset{item.id} + multiset(brought.0);
      assert {} + brought.1 == {};
    }
  }
}
