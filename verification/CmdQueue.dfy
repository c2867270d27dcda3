/** The command queue of cmd-queue.c, and the sequential order its items run in.
 *
 * A command or callback is known by what it will do: the chains of items it inserts after itself while
 * it runs, whether it succeeds, fails or waits, and, if it waits, the chains inserted after it before it
 * continues.  Such items are finite trees.
 */
module CmdQueue {

  datatype Outcome = Normal | Error | Wait

  /** Items inserted together. */
  datatype Chain = Chain(items: seq<Item>)

  datatype Item = Item(id: nat, command: bool, group: nat, outcome: Outcome, inserts: seq<Chain>, late: seq<Chain>)

  // ---- Sizes ----

  function Size(item: Item): nat
    decreases item
  {
    1 + ChainsSize(item.inserts) + ChainsSize(item.late)
  }

  function ListSize(items: seq<Item>): nat
    decreases items
  {
    if items == [] then 0 else Size(items[0]) + ListSize(items[1..])
  }

  function ChainSize(chain: Chain): nat
    decreases chain
  {
    ListSize(chain.items)
  }

  function ChainsSize(chains: seq<Chain>): nat
    decreases chains
  {
    if chains == [] then 0 else ChainSize(chains[0]) + ChainsSize(chains[1..])
  }

  lemma {:induction false} SizeConcat(a: seq<Item>, b: seq<Item>)
    ensures ListSize(a + b) == ListSize(a) + ListSize(b)
  {
    if a == [] {
      assert a + b == b;
    } else {
      assert (a + b)[1..] == a[1..] + b;
      SizeConcat(a[1..], b);
    }
  }

  /** Where chains are inserted after the same item one after the other, the last comes first. */
  function Spliced(chains: seq<Chain>): seq<Item> {
    if chains == [] then [] else Spliced(chains[1..]) + chains[0].items
  }

  lemma {:induction false} SplicedSize(chains: seq<Chain>)
    ensures ListSize(Spliced(chains)) == ChainsSize(chains)
  {
    if chains != [] {
      SplicedSize(chains[1..]);
      SizeConcat(Spliced(chains[1..]), chains[0].items);
    }
  }

  lemma {:induction false} SplicedMore(chains: seq<Chain>, chain: Chain)
    ensures Spliced(chains + [chain]) == chain.items + Spliced(chains)
  {
    if chains == [] {
      assert chains + [chain] == [chain] && [chain][1..] == [];
      assert Spliced([]) == [];
    } else {
      assert (chains + [chain])[1..] == chains[1..] + [chain];
      SplicedMore(chains[1..], chain);
      var first := chains[0].items;
      assert chain.items + Spliced(chains[1..]) + first == chain.items + (Spliced(chains[1..]) + first);
    }
  }

  lemma SplicedConcat(a: seq<Chain>, b: seq<Chain>)
    ensures Spliced(a + b) == Spliced(b) + Spliced(a)
    decreases |b|
  {
    if b == [] {
      assert a + b == a;
    } else {
      var front, last := b[..|b| - 1], b[|b| - 1];
      assert b == front + [last] && a + b == a + front + [last];
      SplicedMore(a + front, last);
      SplicedMore(front, last);
      SplicedConcat(a, front);
    }
  }

  // ---- Sequential execution ----

  /** Without the items of some groups. */
  function Without(items: seq<Item>, groups: set<nat>): (r: seq<Item>)
    ensures ListSize(r) <= ListSize(items)
  {
    if items == [] then []
    else
      var rest := Without(items[1..], groups);
      if items[0].group in groups then rest
      else
        assert ([items[0]] + rest)[1..] == rest;
        [items[0]] + rest
  }

  /** The groups an item stops by failing. */
  function Stops(item: Item): set<nat> {
    if item.command && item.outcome == Error && item.group != 0 then {item.group} else {}
  }

  /** What an item brings into the queue: what it inserts, and if it waits also what comes before it
    * continues. */
  function Brings(item: Item): (items: seq<Item>)
    ensures ListSize(items) < Size(item)
  {
    SplicedSize(item.inserts);
    SplicedSize(item.late);
    SizeConcat(Spliced(item.late), Spliced(item.inserts));
    SplicedConcat(item.inserts, item.late);
    Spliced(if item.outcome == Wait then item.inserts + item.late else item.inserts)
  }

  /** What is fired when an item and then everything it brings is run, and the groups stopped on the way. */
  function ExecItem(item: Item): (seq<nat>, set<nat>)
    decreases Size(item), 0
  {
    var r := ExecList(Without(Brings(item), Stops(item)));
    ([item.id] + r.0, Stops(item) + r.1)
  }

  /** Items one after the other; those of a group stopped earlier are left out. */
  function ExecList(items: seq<Item>): (seq<nat>, set<nat>)
    decreases ListSize(items), 1
  {
    if items == [] then ([], {})
    else
      var a := ExecItem(items[0]);
      var b := ExecList(Without(items[1..], a.1));
      (a.0 + b.0, a.1 + b.1)
  }

  lemma {:induction false} WithoutConcat(a: seq<Item>, b: seq<Item>, groups: set<nat>)
    ensures Without(a + b, groups) == Without(a, groups) + Without(b, groups)
  {
    if a == [] {
      assert a + b == b;
    } else {
      assert (a + b)[1..] == a[1..] + b;
      WithoutConcat(a[1..], b, groups);
    }
  }

  lemma {:induction false} WithoutTwice(items: seq<Item>, g: set<nat>, h: set<nat>)
    ensures Without(Without(items, g), h) == Without(items, g + h)
  {
    if items != [] {
      WithoutTwice(items[1..], g, h);
      if items[0].group !in g {
        assert Without(items, g)[1..] == Without(items[1..], g);
      }
    }
  }

  lemma {:induction false} WithoutNone(items: seq<Item>)
    ensures Without(items, {}) == items
  {
    if items != [] { WithoutNone(items[1..]); }
  }

  lemma {:induction false} ExecConcat(a: seq<Item>, b: seq<Item>)
    ensures ExecList(a + b) == var r, t := ExecList(a), ExecList(Without(b, ExecList(a).1)); (r.0 + t.0, r.1 + t.1)
    decreases ListSize(a)
  {
    hide ExecItem, ExecList, Without, Size;
    if a == [] {
      assert a + b == b;
      WithoutNone(b);
      ExecNone();
      var last := ExecList(b);
      assert [] + last.0 == last.0 && {} + last.1 == last.1;
      assert a == [];
    } else {
      assert (a + b)[1..] == a[1..] + b && (a + b)[0] == a[0];
      var first := ExecItem(a[0]);
      var rest := Without(a[1..], first.1);
      ExecUnfold(a);
      ExecUnfold(a + b);
      WithoutConcat(a[1..], b, first.1);
      SizePositive(a[0]);
      ExecConcat(rest, Without(b, first.1));
      WithoutTwice(b, first.1, ExecList(rest).1);
      var last := ExecList(Without(b, first.1 + ExecList(rest).1));
      assert first.0 + (ExecList(rest).0 + last.0) == first.0 + ExecList(rest).0 + last.0;
      assert first.1 + (ExecList(rest).1 + last.1) == first.1 + ExecList(rest).1 + last.1;
    }
  }

  lemma ExecNone()
    ensures ExecList([]) == ([], {})
  {
  }

  lemma SizePositive(item: Item)
    ensures Size(item) > 0
  {
  }

  lemma ExecUnfold(items: seq<Item>)
    requires items != []
    ensures ExecList(items) == var a := ExecItem(items[0]);
                               var b := ExecList(Without(items[1..], a.1));
                               (a.0 + b.0, a.1 + b.1)
  {
    hide ExecItem;
  }

  /** Running the first item, and then what it brings before the rest, is running the list. */
  lemma ExecFirst(item: Item, rest: seq<Item>)
    ensures ExecList([item] + rest).0
         == [item.id] + ExecList(Without(Brings(item) + rest, Stops(item))).0
  {
    hide Without, Brings;
    assert ([item] + rest)[1..] == rest;
    var brought, kept := Without(Brings(item), Stops(item)), Without(rest, Stops(item));
    WithoutConcat(Brings(item), rest, Stops(item));
    ExecConcat(brought, kept);
    WithoutTwice(rest, Stops(item), ExecList(brought).1);
    var last := ExecList(Without(rest, Stops(item) + ExecList(brought).1)).0;
    assert [item.id] + ExecList(brought).0 + last == [item.id] + (ExecList(brought).0 + last);
  }

  // ---- The queue ----

  datatype Entry = Entry(item: Item, fired: bool, waiting: bool)

  function Queued(items: seq<Item>): (s: seq<Entry>)
    ensures |s| == |items| && forall i :: 0 <= i < |items| ==> s[i] == Entry(items[i], false, false)
  {
    seq(|items|, i requires 0 <= i < |items| => Entry(items[i], false, false))
  }

  function Items(list: seq<Entry>): (s: seq<Item>)
    ensures |s| == |list| && forall i :: 0 <= i < |list| ==> s[i] == list[i].item
  {
    seq(|list|, i requires 0 <= i < |list| => list[i].item)
  }

  /** What is still to be run. */
  function Remaining(list: seq<Entry>): seq<Item> {
    if list == [] then []
    else if !list[0].fired then Items(list)
    else (if list[0].waiting then Spliced(list[0].item.late) else []) + Items(list[1..])
  }

  lemma QueuedConcat(a: seq<Item>, b: seq<Item>, rest: seq<Entry>)
    ensures Queued(a) + (Queued(b) + rest) == Queued(a + b) + rest
  {
  }

  // ---- Steps of the queue from outside ----

  datatype Step = Add(items: seq<Item>) | Turn | Resume

  /** What has been fired and what is still to be run. */
  datatype View = View(fired: seq<nat>, rest: seq<Item>)

  function Order(v: View): seq<nat> {
    v.fired + ExecList(v.rest).0
  }

  predicate Follows(a: View, step: Step, b: View) {
    if step.Add? then b == View(a.fired, a.rest + step.items) else a.fired <= b.fired && Order(b) == Order(a)
  }

  /** What the items of a step add to the order: those of groups that will have failed are left out. */
  function Gained(a: View, step: Step): seq<nat> {
    if step.Add? then ExecList(Without(step.items, ExecList(a.rest).1)).0 else []
  }

  predicate IsRun(views: seq<View>, steps: seq<Step>) {
    |views| == |steps| + 1 && forall k: nat :: k < |steps| ==> Follows(views[k], steps[k], views[k + 1])
  }

  function AllGained(views: seq<View>, steps: seq<Step>, n: nat): seq<nat>
    requires n <= |steps| < |views|
  {
    if n == 0 then [] else AllGained(views, steps, n - 1) + Gained(views[n - 1], steps[n - 1])
  }

  lemma FollowsOrder(a: View, step: Step, b: View)
    requires Follows(a, step, b)
    ensures Order(b) == Order(a) + Gained(a, step)
  {
    hide ExecList, Without;
    if step.Add? {
      ExecConcat(a.rest, step.items);
      assert a.fired + (ExecList(a.rest).0 + Gained(a, step)) == a.fired + ExecList(a.rest).0 + Gained(a, step);
    } else {
      assert Order(a) + [] == Order(a);
    }
  }

  lemma {:induction false} RunOrder(views: seq<View>, steps: seq<Step>, n: nat)
    requires IsRun(views, steps) && n <= |steps|
    ensures Order(views[n]) == Order(views[0]) + AllGained(views, steps, n)
  {
    hide Order, Gained, Follows;
    if n == 0 {
      assert Order(views[0]) + [] == Order(views[0]);
    } else {
      RunOrder(views, steps, n - 1);
      FollowsOrder(views[n - 1], steps[n - 1], views[n]);
      var before := AllGained(views, steps, n - 1);
      var more := Gained(views[n - 1], steps[n - 1]);
      assert Order(views[0]) + before + more == Order(views[0]) + (before + more);
    }
  }

  lemma RemainingMore(list: seq<Entry>, items: seq<Item>)
    ensures Remaining(list + Queued(items)) == Remaining(list) + items
  {
    hide Spliced;
    ItemsQueued(items);
    var now := list + Queued(items);
    ItemsConcat(list, Queued(items));
    if list == [] {
      assert now == Queued(items) && [] + items == items;
      if items != [] { assert !now[0].fired; }
    } else if list[0].fired {
      assert now[1..] == list[1..] + Queued(items) && now[0] == list[0];
      ItemsConcat(list[1..], Queued(items));
      var late := if list[0].waiting then Spliced(list[0].item.late) else [];
      assert late + (Items(list[1..]) + items) == late + Items(list[1..]) + items;
    } else {
      assert now[0] == list[0];
    }
  }

  lemma NoChains()
    ensures Spliced([]) == []
  {
  }

  class Queue {
    var list: seq<Entry>
    var fired: seq<nat>

    constructor ()
      ensures Valid() && list == [] && fired == []
    {
      list, fired := [], [];
    }

    /** Only the first item can have been fired, and only a fired item waits. */
    predicate Valid()
      reads this
    {
      && (forall i :: 0 < i < |list| ==> !list[i].fired && !list[i].waiting)
      && (list != [] && list[0].waiting ==> list[0].fired)
    }

    /** What has been fired, followed by what sequential execution of the rest will fire. */
    function Sequence(): seq<nat>
      reads this
    {
      fired + ExecList(Remaining(list)).0
    }

    /** `cmdq_append`: what is fired stays, and after it comes what it leaves of the new items, those of a
      * group that will have failed by then being left out. */
    method Append(items: seq<Item>)
      requires Valid()
      modifies this`list
      ensures Valid() && list == old(list) + Queued(items)
      ensures Remaining(list) == Remaining(old(list)) + items
      ensures Sequence() == old(Sequence()) + ExecList(Without(items, ExecList(Remaining(old(list))).1)).0
    {
      AppendList(items);
      ghost var a := View(fired, Remaining(old(list)));
      FollowsOrder(a, Add(items), View(fired, Remaining(list)));
    }

    method AppendList(items: seq<Item>)
      requires Valid()
      modifies this`list
      ensures Valid() && list == old(list) + Queued(items)
      ensures Remaining(list) == Remaining(old(list)) + items
    {
      hide Remaining;
      for i := 0 to |items|
        invariant list == old(list) + Queued(items[..i])
      {
        list := list + [Entry(items[i], false, false)];
      }
      assert items[..|items|] == items;
      RemainingMore(old(list), items);
    }

    /** `cmdq_insert_after`: the items of a chain stand in order after the item at `at`. */
    method InsertAfter(at: nat, chain: seq<Item>) returns (last: nat)
      requires at < |list|
      modifies this`list
      ensures list == old(list)[..at + 1] + Queued(chain) + old(list)[at + 1..]
      ensures last == at + |chain|
    {
      last := at;
      for i := 0 to |chain|
        invariant last == at + i && |list| == |old(list)| + i
        invariant list == old(list)[..at + 1] + Queued(chain[..i]) + old(list)[at + 1..]
      {
        ghost var head := old(list)[..at + 1] + Queued(chain[..i]);
        assert list[..last + 1] == head && list[last + 1..] == old(list)[at + 1..];
        list := list[..last + 1] + [Entry(chain[i], false, false)] + list[last + 1..];
        assert head + [Entry(chain[i], false, false)] == old(list)[..at + 1] + Queued(chain[..i + 1]);
        last := last + 1;
      }
      assert chain[..|chain|] == chain;
    }

    /** Chains inserted after the first item, one after the other. */
    method InsertChains(chains: seq<Chain>)
      requires list != []
      modifies this`list
      ensures list == [old(list)[0]] + (Queued(Spliced(chains)) + old(list)[1..])
    {
      hide Spliced;
      ghost var head, rest := list[0], list[1..];
      NoChains();
      assert chains[..0] == [] && list == [head] + rest && Queued([]) + rest == rest;
      for i := 0 to |chains|
        invariant list == [head] + (Queued(Spliced(chains[..i])) + rest)
      {
        assert chains[..i + 1] == chains[..i] + [chains[i]];
        SplicedMore(chains[..i], chains[i]);
        InsertFirst(chains[i].items, head, Queued(Spliced(chains[..i])) + rest);
        QueuedConcat(chains[i].items, Spliced(chains[..i]), rest);
      }
      assert chains[..|chains|] == chains;
    }

    /** A chain inserted after the first item. */
    method InsertFirst(chain: seq<Item>, ghost head: Entry, ghost rest: seq<Entry>)
      requires list == [head] + rest
      modifies this`list
      ensures list == [head] + (Queued(chain) + rest)
    {
      assert list[..1] == [head] && list[1..] == rest;
      var last := InsertAfter(0, chain);
    }

    /** `cmdq_remove_group`: later items of the first item's group are removed, unless it is 0. */
    method RemoveGroup()
      requires list != [] && Valid()
      modifies this`list
      ensures list != [] && list[0] == old(list)[0] && Valid()
      ensures Items(list[1..])
           == if list[0].item.group == 0 then Items(old(list)[1..])
              else Without(Items(old(list)[1..]), {list[0].item.group})
    {
      var group := list[0].item.group;
      if group == 0 {
        return;
      }
      var i := 1;
      ghost var rest := list[1..];
      assert list[1..1] == [];
      while i < |list|
        invariant 1 <= i <= |list| && list[0] == old(list)[0] && forall e :: e in list[1..] ==> e in rest
        invariant list[1..i] + WithoutEntries(list[i..], group) == WithoutEntries(rest, group)
        decreases |list| - i
      {
        assert list[i..][1..] == list[i + 1..];
        if list[i].item.group == group {
          RemoveAt(i);
        } else {
          assert list[1..i + 1] == list[1..i] + [list[i]];
          i := i + 1;
        }
      }
      assert list[1..i] == list[1..];
      ItemsWithout(rest, group);
      forall k | 0 < k < |list| ensures !list[k].fired && !list[k].waiting {
        assert list[1..][k - 1] in rest;
      }
    }

    /** `cmdq_remove`. */
    method RemoveAt(i: nat)
      requires i < |list|
      modifies this`list
      ensures list == old(list)[..i] + old(list)[i + 1..]
    {
      list := list[..i] + list[i + 1..];
    }

    /** The first item is fired: it inserts its chains, and if it is a command that fails, the rest of its
      * group is removed. */
    method Fire()
      requires Valid() && list != [] && !list[0].fired
      modifies this
      ensures Valid() && list != [] && list[0].item == old(list)[0].item && list[0].fired
      ensures list[0].waiting <==> list[0].item.outcome == Wait
      ensures fired == old(fired) + [list[0].item.id]
      ensures Remaining(list) == Without(Brings(list[0].item) + Items(old(list)[1..]), Stops(list[0].item))
    {
      hide Remaining, Without, Brings, Stops;
      var item := list[0].item;
      ghost var rest := list[1..];
      RunItem();
      FiredRemaining(list, item, Items(rest));
      list := [Entry(item, true, item.outcome == Wait)] + list[1..];
      fired := fired + [item.id];
    }

    /** What the first item does to the queue while it runs. */
    method RunItem()
      requires Valid() && list != [] && !list[0].fired
      modifies this`list
      ensures Valid() && list != [] && list[0] == old(list)[0]
      ensures Items(list[1..]) == Without(Spliced(list[0].item.inserts) + Items(old(list)[1..]), Stops(list[0].item))
    {
      hide Spliced, Without, Remaining;
      var item := list[0].item;
      ghost var rest := list[1..];
      InsertChains(item.inserts);
      assert list[1..] == Queued(Spliced(item.inserts)) + rest;
      QueueIsValid(list, Spliced(item.inserts), rest);
      ItemsConcat(Queued(Spliced(item.inserts)), rest);
      ItemsQueued(Spliced(item.inserts));
      if item.command && item.outcome == Error {
        RemoveGroup();
      }
      WithoutNone(Spliced(item.inserts) + Items(rest));
    }

    /** `cmdq_continue`, after whatever made the item wait has inserted its chains. */
    method Continue()
      requires Valid() && list != [] && list[0].waiting
      modifies this`list
      ensures Valid() && Sequence() == old(Sequence()) && list != [] && !list[0].waiting && list[0].fired
      ensures ListSize(Remaining(list)) == old(ListSize(Remaining(list)))
    {
      hide Spliced, ExecList;
      var item := list[0].item;
      ghost var rest := list[1..];
      InsertChains(item.late);
      QueueIsValid(list, Spliced(item.late), rest);
      ItemsConcat(Queued(Spliced(item.late)), rest);
      ItemsQueued(Spliced(item.late));
      assert list[1..] == Queued(Spliced(item.late)) + rest;
      list := [Entry(item, true, false)] + list[1..];
      assert [] + Items(list[1..]) == Items(list[1..]);
    }

    /** `cmdq_next`: items are fired until one waits or there are none.  This never changes the order of
      * sequential execution, fires nothing behind a waiting item, and returns how many were fired to the
      * end. */
    method Next() returns (count: nat)
      requires Valid()
      modifies this
      ensures Valid() && (list == [] || list[0].waiting)
      ensures Sequence() == old(Sequence()) && old(fired) <= fired
      ensures old(list) != [] && old(list)[0].waiting ==> list == old(list) && fired == old(fired) && count == 0
      ensures count == |fired| - |old(fired)| - if list != [] && !(old(list) != [] && old(list)[0].waiting) then 1 else 0
      ensures ListSize(Remaining(list)) + |fired| <= ListSize(old(Remaining(list))) + |old(fired)|
    {
      hide ExecList, Without, Brings, Stops;
      count := 0;
      if list == [] || list[0].waiting {
        return;
      }
      while list != []
        invariant Valid() && (list == [] || !list[0].waiting) && Sequence() == old(Sequence())
        invariant old(fired) <= fired && count == |fired| - |old(fired)|
        invariant ListSize(Remaining(list)) + |fired| <= ListSize(old(Remaining(list))) + |old(fired)|
        decreases ListSize(Remaining(list)), |list|
      {
        if !list[0].fired {
          FireFirst();
          if list[0].waiting {
            return;
          }
          count := count + 1;
        }
        RemoveFirst();
      }
    }

    method FireFirst()
      requires Valid() && list != [] && !list[0].fired
      modifies this
      ensures Valid() && list != [] && list[0].fired && old(fired) <= fired && |fired| == |old(fired)| + 1
      ensures Sequence() == old(Sequence()) && ListSize(Remaining(list)) < old(ListSize(Remaining(list)))
      ensures |list| <= 1 + ListSize(Remaining(list))
    {
      hide ExecList, Without, Brings, Stops;
      var item := list[0].item;
      ghost var rest := Items(list[1..]);
      assert Items(list) == [item] + rest;
      ExecFirst(item, rest);
      ghost var before := fired;
      Fire();
      FiredSize(item, rest);
      ghost var last := ExecList(Remaining(list)).0;
      assert before + [item.id] + last == before + ([item.id] + last);
      LengthBound(list);
    }

    /** The first item is removed once it has run. */
    method RemoveFirst()
      requires Valid() && list != [] && list[0].fired && !list[0].waiting
      modifies this`list
      ensures Valid() && (list == [] || !list[0].waiting) && Remaining(list) == old(Remaining(list)) && |list| == |old(list)| - 1
    {
      assert [] + Items(list[1..]) == Items(list[1..]);
      RemoveAt(0);
      assert list == old(list)[1..];
    }

    /** Items are appended, the queue is run and a waiting item is continued, in any order; `views` are the
      * states in between.  A step other than an append never changes what will have been fired in the end,
      * so the order is what it was at the start, followed by what every append gains in turn. */
    method Perform(steps: seq<Step>) returns (ghost views: seq<View>)
      requires Valid()
      modifies this
      ensures Valid() && IsRun(views, steps)
      ensures views[0] == View(old(fired), Remaining(old(list))) && views[|steps|] == View(fired, Remaining(list))
      ensures Sequence() == old(Sequence()) + AllGained(views, steps, |steps|)
    {
      hide ExecList, Remaining, Without, Follows;
      views := [View(fired, Remaining(list))];
      for i := 0 to |steps|
        invariant Valid() && |views| == i + 1 && views[0] == View(old(fired), Remaining(old(list)))
        invariant views[i] == View(fired, Remaining(list))
        invariant forall k: nat :: k < i ==> Follows(views[k], steps[k], views[k + 1])
      {
        PerformOne(steps[i]);
        views := views + [View(fired, Remaining(list))];
      }
      RunOrder(views, steps, |steps|);
    }

    method PerformOne(step: Step)
      requires Valid()
      modifies this
      ensures Valid() && Follows(View(old(fired), Remaining(old(list))), step, View(fired, Remaining(list)))
    {
      hide ExecList, Remaining, Without;
      match step {
        case Add(items) => Append(items);
        case Turn => var count := Next();
        case Resume => if list != [] && list[0].waiting { Continue(); }
      }
    }

    /** A queue that is run whenever nothing waits, and continued whenever something does, fires exactly
      * the sequential order, and comes to an end. */
    method RunToEnd()
      requires Valid()
      modifies this
      ensures list == [] && fired == old(Sequence())
    {
      hide ExecList;
      while list != []
        invariant Valid() && Sequence() == old(Sequence())
        decreases ListSize(Remaining(list)), if list != [] && list[0].waiting then 1 else 0, |list|
      {
        if list[0].waiting {
          Continue();
        } else {
          var count := Next();
        }
      }
      NothingLeft();
      assert fired + [] == fired;
    }
  }

  lemma FiredRemaining(list: seq<Entry>, item: Item, rest: seq<Item>)
    requires list != [] && Items(list[1..]) == Without(Spliced(item.inserts) + rest, Stops(item))
    ensures Remaining([Entry(item, true, item.outcome == Wait)] + list[1..]) == Without(Brings(item) + rest, Stops(item))
  {
    hide Spliced, Without;
    var after := [Entry(item, true, item.outcome == Wait)] + list[1..];
    assert after[1..] == list[1..];
    var late, inserts := Spliced(item.late), Spliced(item.inserts);
    SplicedConcat(item.inserts, item.late);
    assert late + (inserts + rest) == late + inserts + rest;
    WithoutNone(inserts + rest);
    WithoutNone(Brings(item) + rest);
    assert [] + Items(list[1..]) == Items(list[1..]);
  }

  lemma NothingLeft()
    ensures ExecList(Remaining([])).0 == []
  {
  }

  lemma ItemsConcat(a: seq<Entry>, b: seq<Entry>)
    ensures Items(a + b) == Items(a) + Items(b)
  {
  }

  lemma ItemsQueued(items: seq<Item>)
    ensures Items(Queued(items)) == items
  {
  }

  lemma QueueIsValid(list: seq<Entry>, items: seq<Item>, rest: seq<Entry>)
    requires list != [] && list[1..] == Queued(items) + rest
    requires forall i :: 0 <= i < |rest| ==> !rest[i].fired && !rest[i].waiting
    ensures forall i :: 0 < i < |list| ==> !list[i].fired && !list[i].waiting
  {
    forall i | 0 < i < |list| ensures !list[i].fired && !list[i].waiting {
      assert list[i] == list[1..][i - 1];
    }
  }

  lemma FiredSize(item: Item, rest: seq<Item>)
    ensures ListSize(Without(Brings(item) + rest, Stops(item))) < ListSize([item] + rest)
  {
    hide Brings, Stops, Without;
    SizeConcat(Brings(item), rest);
    SizeConcat([item], rest);
    assert ListSize([item]) == Size(item) + ListSize([]);
  }

  lemma {:induction false} CountSize(items: seq<Item>)
    ensures |items| <= ListSize(items)
  {
    if items != [] { CountSize(items[1..]); }
  }

  lemma LengthBound(list: seq<Entry>)
    requires list != [] && list[0].fired
    ensures |list| <= 1 + ListSize(Remaining(list))
  {
    hide Spliced;
    var late := if list[0].waiting then Spliced(list[0].item.late) else [];
    CountSize(Items(list[1..]));
    SizeConcat(late, Items(list[1..]));
  }

  function WithoutEntries(list: seq<Entry>, group: nat): seq<Entry> {
    if list == [] then []
    else (if list[0].item.group == group then [] else [list[0]]) + WithoutEntries(list[1..], group)
  }

  lemma {:induction false} ItemsWithout(list: seq<Entry>, group: nat)
    ensures Items(WithoutEntries(list, group)) == Without(Items(list), {group})
  {
    if list != [] {
      ItemsWithout(list[1..], group);
      assert Items(list)[1..] == Items(list[1..]);
      var rest := WithoutEntries(list[1..], group);
      ItemsConcat([list[0]], rest);
      assert [] + rest == rest && Items([list[0]]) == [list[0].item];
    }
  }

  // ---- What sequential execution fires ----

  /** The numbers of an item and of everything it can ever bring. */
  function Ids(item: Item): multiset<nat>
    decreases item
  {
    multiset{item.id} + ChainsIds(item.inserts) + ChainsIds(item.late)
  }

  function ListIds(items: seq<Item>): multiset<nat>
    decreases items
  {
    if items == [] then multiset{} else Ids(items[0]) + ListIds(items[1..])
  }

  function ChainIds(chain: Chain): multiset<nat>
    decreases chain
  {
    ListIds(chain.items)
  }

  function ChainsIds(chains: seq<Chain>): multiset<nat>
    decreases chains
  {
    if chains == [] then multiset{} else ChainIds(chains[0]) + ChainsIds(chains[1..])
  }

  lemma {:induction false} IdsConcat(a: seq<Item>, b: seq<Item>)
    ensures ListIds(a + b) == ListIds(a) + ListIds(b)
  {
    if a == [] {
      assert a + b == b;
    } else {
      assert (a + b)[1..] == a[1..] + b;
      IdsConcat(a[1..], b);
    }
  }

  lemma {:induction false} SplicedIds(chains: seq<Chain>)
    ensures ListIds(Spliced(chains)) == ChainsIds(chains)
  {
    if chains != [] {
      SplicedIds(chains[1..]);
      IdsConcat(Spliced(chains[1..]), chains[0].items);
    }
  }

  lemma BringsIds(item: Item)
    ensures multiset{item.id} + ListIds(Brings(item)) <= Ids(item)
  {
    SplicedIds(item.inserts);
    SplicedIds(item.late);
    SplicedConcat(item.inserts, item.late);
    IdsConcat(Spliced(item.late), Spliced(item.inserts));
  }

  lemma {:induction false} WithoutIds(items: seq<Item>, groups: set<nat>)
    ensures ListIds(Without(items, groups)) <= ListIds(items)
  {
    if items != [] {
      WithoutIds(items[1..], groups);
      if items[0].group !in groups { assert Without(items, groups)[1..] == Without(items[1..], groups); }
    }
  }

  lemma {:induction false} WithoutDrops(items: seq<Item>, groups: set<nat>, i: nat)
    requires i < |items| && items[i].group in groups
    ensures ListIds(Without(items, groups)) + Ids(items[i]) <= ListIds(items)
  {
    if i == 0 {
      WithoutIds(items[1..], groups);
    } else {
      WithoutDrops(items[1..], groups, i - 1);
      if items[0].group !in groups { assert Without(items, groups)[1..] == Without(items[1..], groups); }
    }
  }

  /** Nothing is fired that was not queued or inserted, and nothing twice. */
  lemma {:induction false} FiredOnce(items: seq<Item>)
    ensures multiset(ExecList(items).0) <= ListIds(items)
    decreases ListSize(items), 1
  {
    hide ExecItem, Without;
    if items != [] {
      var a := ExecItem(items[0]);
      FiredOnceItem(items[0]);
      SizePositive(items[0]);
      FiredOnce(Without(items[1..], a.1));
      WithoutIds(items[1..], a.1);
    }
  }

  lemma {:induction false} FiredOnceItem(item: Item)
    ensures multiset(ExecItem(item).0) <= Ids(item)
    decreases Size(item), 0
  {
    hide ExecList, Brings, Without;
    FiredOnce(Without(Brings(item), Stops(item)));
    WithoutIds(Brings(item), Stops(item));
    BringsIds(item);
    assert ExecItem(item).0 == [item.id] + ExecList(Without(Brings(item), Stops(item))).0;
  }

  /** When a command of a group fails, no item of the group that is queued behind it is ever fired, nor
    * anything such an item would have brought. */
  lemma ErrorStopsGroup(item: Item, rest: seq<Item>, i: nat, id: nat)
    requires item.command && item.outcome == Error && item.group != 0
    requires i < |rest| && rest[i].group == item.group && id in Ids(rest[i])
    requires ListIds([item] + rest)[id] == 1
    ensures id !in ExecList([item] + rest).0
  {
    hide ExecList, Brings, Without, Ids, ListIds;
    ExecFirst(item, rest);
    var kept := Without(Brings(item) + rest, Stops(item));
    KeptIds(item, rest, i);
    FiredOnce(kept);
    Uncounted(item.id, ListIds(kept), Ids(rest[i]), ListIds([item] + rest), id);
    assert id !in multiset(ExecList(kept).0);
  }

  lemma Uncounted(a: nat, kept: multiset<nat>, dropped: multiset<nat>, all: multiset<nat>, id: nat)
    requires multiset{a} + kept + dropped <= all && all[id] == 1 && id in dropped
    ensures id != a && id !in kept
  {
    assert (multiset{a} + kept + dropped)[id] <= all[id];
  }

  /** What stays queued, and a removed item, are among what was there. */
  lemma KeptIds(item: Item, rest: seq<Item>, i: nat)
    requires i < |rest| && rest[i].group in Stops(item)
    ensures multiset{item.id} + ListIds(Without(Brings(item) + rest, Stops(item))) + Ids(rest[i])
         <= ListIds([item] + rest)
  {
    hide Brings, Without, Ids, ListIds;
    var all := Brings(item) + rest;
    assert all[|Brings(item)| + i] == rest[i];
    WithoutDrops(all, Stops(item), |Brings(item)| + i);
    IdsConcat(Brings(item), rest);
    BringsIds(item);
    IdsConcat([item], rest);
    OneList(item);
    var kept, one := ListIds(Without(all, Stops(item))), multiset{item.id};
    assert one + kept + Ids(rest[i]) <= one + ListIds(all);
    assert one + ListIds(all) == one + ListIds(Brings(item)) + ListIds(rest);
  }

  lemma OneList(item: Item)
    ensures ListIds([item]) == Ids(item)
  {
    assert [item][1..] == [];
    assert ListIds([]) == multiset{};
  }
}
