/** The event sinks of events.c under callbacks that fire, add and remove.
 *
 * What the callbacks of one dispatch do is given as scripts, one for each sink it calls, in order; a
 * script's actions can fire further events, with scripts of their own.  So a run is a finite tree.  The
 * trace records every call and every removal; a sink is known by its generation.
 */
module Events {

  datatype Action = Add(name: string) | Remove(sink: nat) | Fire(name: string, scripts: seq<Script>)
  datatype Script = Script(actions: seq<Action>)

  datatype Sink = Sink(name: string, generation: nat, dead: bool)

  /** A sink called by a dispatch, or a sink removed. */
  datatype Event = Called(dispatch: nat, sink: nat) | Removed(sink: nat)

  /** The sinks that a dispatch called, in order. */
  function Calls(trace: seq<Event>, dispatch: nat): seq<nat> {
    if trace == [] then []
    else
      (if trace[0].Called? && trace[0].dispatch == dispatch then [trace[0].sink] else []) + Calls(trace[1..], dispatch)
  }

  lemma {:induction false} CallsConcat(a: seq<Event>, b: seq<Event>, d: nat)
    ensures Calls(a + b, d) == Calls(a, d) + Calls(b, d)
  {
    if a == [] {
      assert a + b == b;
    } else {
      assert (a + b)[1..] == a[1..] + b;
      CallsConcat(a[1..], b, d);
    }
  }

  lemma {:induction false} NoCalls(trace: seq<Event>, d: nat)
    requires forall e :: e in trace && e.Called? ==> e.dispatch != d
    ensures Calls(trace, d) == []
  {
    if trace != [] { NoCalls(trace[1..], d); }
  }

  /** The sinks that must be called: of those that exist, in order of registration, the ones with the
    * right name that have not been removed when their turn comes. */
  function Expected(sinks: seq<Sink>, name: string, trace: seq<Event>, turns: seq<nat>): seq<nat>
    requires |turns| <= |sinks| && forall k :: 0 <= k < |turns| ==> turns[k] <= |trace|
  {
    if turns == [] then []
    else
      var k := |turns| - 1;
      Expected(sinks, name, trace, turns[..k])
      + if sinks[k].name == name && Removed(sinks[k].generation) !in trace[..turns[k]] then [sinks[k].generation] else []
  }

  lemma {:induction false} ExpectedStable(
      sinks: seq<Sink>, name: string, trace: seq<Event>, more: seq<Event>, turns: seq<nat>)
    requires |turns| <= |sinks| && forall k :: 0 <= k < |turns| ==> turns[k] <= |trace|
    ensures Expected(sinks, name, trace + more, turns) == Expected(sinks, name, trace, turns)
    decreases |turns|
  {
    if turns != [] {
      var k := |turns| - 1;
      ExpectedStable(sinks, name, trace, more, turns[..k]);
      assert (trace + more)[..turns[k]] == trace[..turns[k]];
    }
  }

  // ---- The sinks ----

  /** Sinks are in order of registration. */
  predicate Ordered(sinks: seq<Sink>, generation: nat) {
    && (forall i, j :: 0 <= i < j < |sinks| ==> sinks[i].generation < sinks[j].generation)
    && (forall i :: 0 <= i < |sinks| ==> sinks[i].generation <= generation)
  }

  /** The same sink, perhaps removed meanwhile. */
  predicate Same(before: Sink, after: Sink) {
    after.name == before.name && after.generation == before.generation && (before.dead ==> after.dead)
  }

  /** Sinks were added at the end and marked dead, but none was freed. */
  predicate Grown(before: seq<Sink>, after: seq<Sink>, generation: nat) {
    && |before| <= |after|
    && (forall i :: 0 <= i < |before| ==> Same(before[i], after[i]))
    && (forall i :: |before| <= i < |after| ==> after[i].generation > generation)
  }

  /** The trace says which sinks are dead. */
  predicate Recorded(sinks: seq<Sink>, trace: seq<Event>, generation: nat, dispatches: nat) {
    && (forall i :: 0 <= i < |sinks| ==> (sinks[i].dead <==> Removed(sinks[i].generation) in trace))
    && (forall e :: e in trace ==> e.sink <= generation && (e.Called? ==> e.dispatch < dispatches))
  }

  predicate LaterCalls(trace: seq<Event>, dispatches: nat) {
    forall e :: e in trace && e.Called? ==> e.dispatch >= dispatches
  }

  /** One sink taken off the list. */
  lemma RemovedAt(sinks: seq<Sink>, i: nat, generation: nat)
    requires i < |sinks| && Ordered(sinks, generation)
    ensures var r := sinks[..i] + sinks[i + 1..];
            && Ordered(r, generation) && (forall s :: s in r <==> s in sinks && s.generation != sinks[i].generation)
            && (forall k :: 0 <= k < |r| ==> r[k] == if k < i then sinks[k] else sinks[k + 1])
  {
    var r := sinks[..i] + sinks[i + 1..];
    RemovedOrdered(sinks, i, generation);
    forall s ensures s in r <==> s in sinks && s.generation != sinks[i].generation {
      hide Ordered;
      RemovedIn(sinks, i, generation, s);
    }
  }

  lemma RemovedOrdered(sinks: seq<Sink>, i: nat, generation: nat)
    requires i < |sinks| && Ordered(sinks, generation)
    ensures Ordered(sinks[..i] + sinks[i + 1..], generation)
  {
  }

  lemma RemovedIn(sinks: seq<Sink>, i: nat, generation: nat, s: Sink)
    requires i < |sinks| && Ordered(sinks, generation)
    ensures s in sinks[..i] + sinks[i + 1..] <==> s in sinks && s.generation != sinks[i].generation
  {
    if s in sinks && s.generation != sinks[i].generation {
      var k :| 0 <= k < |sinks| && sinks[k] == s;
      assert if k < i then sinks[..i][k] == s else sinks[i + 1..][k - i - 1] == s;
    }
    if s in sinks[..i] {
      var k :| 0 <= k < i && sinks[k] == s;
    }
    if s in sinks[i + 1..] {
      var k :| 0 <= k < |sinks| - i - 1 && sinks[i + 1..][k] == s;
      assert sinks[i + 1 + k] == s;
    }
  }

  /** A sink has the right name, and was not removed before its turn. */
  predicate Due(sinks: seq<Sink>, name: string, trace: seq<Event>, turns: seq<nat>, k: nat)
    requires k < |turns| <= |sinks| && turns[k] <= |trace|
  {
    sinks[k].name == name && Removed(sinks[k].generation) !in trace[..turns[k]]
  }

  lemma {:induction false} ExpectedIn(sinks: seq<Sink>, name: string, trace: seq<Event>, turns: seq<nat>, g: nat)
    requires |turns| <= |sinks| && forall k :: 0 <= k < |turns| ==> turns[k] <= |trace|
    ensures g in Expected(sinks, name, trace, turns)
       <==> exists k :: 0 <= k < |turns| && sinks[k].generation == g && Due(sinks, name, trace, turns, k)
    decreases |turns|
  {
    if turns != [] {
      var n := |turns| - 1;
      ExpectedIn(sinks, name, trace, turns[..n], g);
      assert forall k :: 0 <= k < n ==>
          Due(sinks, name, trace, turns[..n], k) == Due(sinks, name, trace, turns, k);
      if g in Expected(sinks, name, trace, turns[..n]) {
        var k :| 0 <= k < n && sinks[k].generation == g && Due(sinks, name, trace, turns[..n], k);
        assert Due(sinks, name, trace, turns, k);
      }
      assert Due(sinks, name, trace, turns, n) <==>
          sinks[n].name == name && Removed(sinks[n].generation) !in trace[..turns[n]];
    }
  }

  predicate Increasing(s: seq<nat>) {
    forall i, j :: 0 <= i < j < |s| ==> s[i] < s[j]
  }

  lemma IncreasingMore(s: seq<nat>, n: nat)
    requires Increasing(s) && forall i :: 0 <= i < |s| ==> s[i] < n
    ensures Increasing(s + [n])
  {
  }

  lemma {:induction false} ExpectedOrder(
      sinks: seq<Sink>, generation: nat, name: string, trace: seq<Event>, turns: seq<nat>)
    requires |turns| <= |sinks| && (forall k :: 0 <= k < |turns| ==> turns[k] <= |trace|) && Ordered(sinks, generation)
    ensures Increasing(Expected(sinks, name, trace, turns))
    decreases |turns|
  {
    if turns != [] {
      var n := |turns| - 1;
      ExpectedOrder(sinks, generation, name, trace, turns[..n]);
      var before := Expected(sinks, name, trace, turns[..n]);
      forall i | 0 <= i < |before| ensures before[i] < sinks[n].generation {
        ExpectedIn(sinks, name, trace, turns[..n], before[i]);
        var k :| 0 <= k < n && sinks[k].generation == before[i];
      }
      IncreasingMore(before, sinks[n].generation);
      assert before + [] == before;
    }
  }

  lemma DueInPrefix(sinks: seq<Sink>, name: string, trace: seq<Event>, more: seq<Event>, turns: seq<nat>, k: nat)
    requires k < |turns| <= |sinks| && turns[k] <= |trace|
    ensures Due(sinks, name, trace + more, turns, k) <==> Due(sinks, name, trace, turns, k)
  {
    assert (trace + more)[..turns[k]] == trace[..turns[k]];
  }

  /** A sink that is due is called at that very moment. */
  ghost predicate Timely(sinks: seq<Sink>, name: string, trace: seq<Event>, turns: seq<nat>, d: nat)
    requires |turns| <= |sinks| && forall k :: 0 <= k < |turns| ==> turns[k] <= |trace|
  {
    forall k: nat :: k < |turns| && Due(sinks, name, trace, turns, k)
      ==> turns[k] < |trace| && trace[turns[k]] == Called(d, sinks[k].generation)
  }

  lemma TimelyStep(sinks: seq<Sink>, name: string, trace: seq<Event>, turns: seq<nat>, d: nat, more: seq<Event>)
    requires |turns| < |sinks| && (forall k :: 0 <= k < |turns| ==> turns[k] <= |trace|)
    requires Timely(sinks, name, trace, turns, d)
    requires sinks[|turns|].name == name && Removed(sinks[|turns|].generation) !in trace
         ==> more != [] && more[0] == Called(d, sinks[|turns|].generation)
    ensures Timely(sinks, name, trace + more, turns + [|trace|], d)
  {
    var now := turns + [|trace|];
    forall k: nat | k < |now| && Due(sinks, name, trace + more, now, k)
      ensures now[k] < |trace + more| && (trace + more)[now[k]] == Called(d, sinks[k].generation)
    {
      if k < |turns| {
        DueInPrefix(sinks, name, trace, more, turns, k);
      } else {
        assert (trace + more)[..|trace|] == trace;
      }
    }
  }

  // ---- What a dispatch promises, said of the trace alone ----

  /** A sink was removed before the dispatch went past it. */
  ghost predicate RemovedFirst(trace: seq<Event>, d: nat, sink: nat) {
    exists j: nat :: j <= |trace| && Removed(sink) in trace[..j]
                     && forall i :: 0 <= i < j && trace[i].Called? && trace[i].dispatch == d ==> trace[i].sink < sink
  }

  /** The dispatch calls sinks that existed at its start, each at most once and in order of registration,
    * and one of them is called if and only if it has the name and was not removed before its turn. */
  ghost predicate Dispatched(sinks: seq<Sink>, name: string, trace: seq<Event>, d: nat) {
    && Increasing(Calls(trace, d))
    && (forall g :: g in Calls(trace, d) ==> exists k :: 0 <= k < |sinks| && sinks[k].generation == g)
    && (forall k :: 0 <= k < |sinks| ==>
          (sinks[k].generation in Calls(trace, d)
           <==> sinks[k].name == name && !RemovedFirst(trace, d, sinks[k].generation)))
  }

  lemma {:induction false} CallsIn(trace: seq<Event>, d: nat, g: nat)
    ensures g in Calls(trace, d) <==> Called(d, g) in trace
  {
    if trace != [] {
      CallsIn(trace[1..], d, g);
      assert trace == [trace[0]] + trace[1..];
    }
  }

  /** Calls in increasing order: no sink is called twice. */
  lemma CalledOnce(trace: seq<Event>, d: nat, g: nat, i: nat, j: nat)
    requires Increasing(Calls(trace, d)) && i < |trace| && j < |trace|
    requires trace[i] == trace[j] == Called(d, g)
    ensures i == j
  {
    if i < j { CalledInOrder(trace, d, g, i, j); }
    if j < i { CalledInOrder(trace, d, g, j, i); }
  }

  lemma CalledInOrder(trace: seq<Event>, d: nat, g: nat, i: nat, j: nat)
    requires i < j < |trace| && trace[i] == trace[j] == Called(d, g)
    ensures !Increasing(Calls(trace, d))
  {
    hide Increasing;
    var a, b := trace[..j], trace[j..];
    assert trace == a + b && a[i] == Called(d, g) && b[0] == Called(d, g);
    CallsConcat(a, b, d);
    CallsIn(a, d, g);
    CallsIn(b, d, g);
    var x :| 0 <= x < |Calls(a, d)| && Calls(a, d)[x] == g;
    var y :| 0 <= y < |Calls(b, d)| && Calls(b, d)[y] == g;
    NotIncreasing(Calls(trace, d), x, |Calls(a, d)| + y);
  }

  lemma NotIncreasing(s: seq<nat>, x: nat, y: nat)
    requires x < y < |s| && s[x] >= s[y]
    ensures !Increasing(s)
  {
  }

  /** A run of turns, each timely, is a dispatch as it should be. */
  lemma ExpectedExact(sinks: seq<Sink>, generation: nat, name: string, trace: seq<Event>, turns: seq<nat>, d: nat)
    requires |turns| == |sinks| && (forall k :: 0 <= k < |turns| ==> turns[k] <= |trace|) && Ordered(sinks, generation)
    requires forall j, k :: 0 <= j < k < |turns| ==> turns[j] <= turns[k]
    requires Calls(trace, d) == Expected(sinks, name, trace, turns) && Timely(sinks, name, trace, turns, d)
    ensures Dispatched(sinks, name, trace, d)
  {
    hide Expected, Due, Calls, Ordered, Timely, RemovedFirst;
    ExpectedOrder(sinks, generation, name, trace, turns);
    forall g | g in Calls(trace, d) ensures exists k :: 0 <= k < |sinks| && sinks[k].generation == g {
      ExpectedIn(sinks, name, trace, turns, g);
    }
    forall k | 0 <= k < |sinks|
      ensures sinks[k].generation in Calls(trace, d)
         <==> sinks[k].name == name && !RemovedFirst(trace, d, sinks[k].generation)
    {
      DueExact(sinks, generation, name, trace, turns, d, k);
    }
  }

  lemma DueExact(sinks: seq<Sink>, generation: nat, name: string, trace: seq<Event>, turns: seq<nat>, d: nat, k: nat)
    requires |turns| == |sinks| && (forall k :: 0 <= k < |turns| ==> turns[k] <= |trace|) && Ordered(sinks, generation)
    requires (forall j, k :: 0 <= j < k < |turns| ==> turns[j] <= turns[k]) && k < |sinks|
    requires Calls(trace, d) == Expected(sinks, name, trace, turns) && Timely(sinks, name, trace, turns, d)
    requires Increasing(Calls(trace, d))
    ensures sinks[k].generation in Calls(trace, d)
       <==> sinks[k].name == name && !RemovedFirst(trace, d, sinks[k].generation)
  {
    hide Expected, Calls, Increasing;
    var g := sinks[k].generation;
    ExpectedIn(sinks, name, trace, turns, g);
    if g in Calls(trace, d) {
      var j :| 0 <= j < |turns| && sinks[j].generation == g && Due(sinks, name, trace, turns, j);
      assert j == k;
    }
    assert g in Calls(trace, d) <==> Due(sinks, name, trace, turns, k);
    if Due(sinks, name, trace, turns, k) {
      NotRemovedFirst(trace, d, g, turns[k]);
    } else if sinks[k].name == name {
      SkippedWasRemoved(sinks, generation, name, trace, turns, d, k);
    }
  }

  lemma NotRemovedFirst(trace: seq<Event>, d: nat, g: nat, turn: nat)
    requires turn < |trace| && trace[turn] == Called(d, g) && Removed(g) !in trace[..turn]
    ensures !RemovedFirst(trace, d, g)
  {
    forall j: nat | j <= |trace| && Removed(g) in trace[..j]
      ensures exists i :: 0 <= i < j && trace[i].Called? && trace[i].dispatch == d && trace[i].sink >= g
    {
      assert j > turn && trace[turn].Called?;
    }
  }

  /** A sink with the name that was not due was removed before a later sink was called. */
  lemma SkippedWasRemoved(
      sinks: seq<Sink>, generation: nat, name: string, trace: seq<Event>, turns: seq<nat>, d: nat, k: nat)
    requires |turns| == |sinks| && (forall k :: 0 <= k < |turns| ==> turns[k] <= |trace|) && Ordered(sinks, generation)
    requires (forall j, k :: 0 <= j < k < |turns| ==> turns[j] <= turns[k]) && k < |sinks|
    requires Calls(trace, d) == Expected(sinks, name, trace, turns) && Timely(sinks, name, trace, turns, d)
    requires Increasing(Calls(trace, d))
    requires sinks[k].name == name && !Due(sinks, name, trace, turns, k)
    ensures RemovedFirst(trace, d, sinks[k].generation)
  {
    hide Expected, Calls, Increasing;
    forall i | 0 <= i < turns[k] && trace[i].Called? && trace[i].dispatch == d
      ensures trace[i].sink < sinks[k].generation
    {
      var s := trace[i].sink;
      CallsIn(trace, d, s);
      ExpectedIn(sinks, name, trace, turns, s);
      var j :| 0 <= j < |turns| && sinks[j].generation == s && Due(sinks, name, trace, turns, j);
      CalledOnce(trace, d, s, i, turns[j]);
      assert j < k;
    }
    assert Removed(sinks[k].generation) in trace[..turns[k]];
  }

  class Registry {
    var sinks: seq<Sink>
    var dispatching: nat
    var generation: nat
    // history
    var trace: seq<Event>
    var dispatches: nat

    constructor ()
      ensures Valid() && sinks == [] && dispatching == 0
    {
      sinks, dispatching, generation, trace, dispatches := [], 0, 0, [], 0;
    }

    /** Dead sinks exist only while an event is being dispatched. */
    predicate Valid()
      reads this
    {
      && Ordered(sinks, generation) && Recorded(sinks, trace, generation, dispatches)
      && (dispatching == 0 ==> forall i :: 0 <= i < |sinks| ==> !sinks[i].dead)
    }

    /** `events_add_sink`. */
    method AddSink(name: string) returns (sink: nat)
      requires Valid()
      modifies this`sinks, this`generation
      ensures Valid() && sink == generation == old(generation) + 1
      ensures sinks == old(sinks) + [Sink(name, sink, false)]
    {
      assert Removed(generation + 1) !in trace;
      generation := generation + 1;
      sinks := sinks + [Sink(name, generation, false)];
      sink := generation;
    }

    /** `events_remove_sink`: a sink is freed at once only if no event is being dispatched. */
    method RemoveSink(sink: nat)
      requires Valid()
      modifies this`sinks, this`trace
      ensures Valid()
      ensures forall i :: 0 <= i < |old(sinks)| && old(sinks)[i].generation == sink && !old(sinks)[i].dead ==>
                && trace == old(trace) + [Removed(sink)]
                && sinks == if dispatching > 0 then old(sinks)[i := old(sinks)[i].(dead := true)]
                            else old(sinks)[..i] + old(sinks)[i + 1..]
      ensures (forall i :: 0 <= i < |old(sinks)| && old(sinks)[i].generation == sink ==> old(sinks)[i].dead) ==>
                trace == old(trace) && sinks == old(sinks)
    {
      var i := Find(sink);
      if i == |sinks| || sinks[i].dead {
        return;
      }
      trace := trace + [Removed(sink)];
      if dispatching != 0 {
        sinks := sinks[i := sinks[i].(dead := true)];
      } else {
        FreeSink(i);
      }
    }

    method Find(sink: nat) returns (i: nat)
      ensures i <= |sinks| && (i < |sinks| ==> sinks[i].generation == sink)
      ensures i == |sinks| ==> forall k :: 0 <= k < |sinks| ==> sinks[k].generation != sink
    {
      i := 0;
      while i < |sinks| && sinks[i].generation != sink
        invariant i <= |sinks| && forall k :: 0 <= k < i ==> sinks[k].generation != sink
      {
        i := i + 1;
      }
    }

    /** `events_free_sink`. */
    method FreeSink(i: nat)
      requires i < |sinks| && Ordered(sinks, generation)
      requires forall e :: e in trace ==> e.sink <= generation && (e.Called? ==> e.dispatch < dispatches)
      requires forall k :: 0 <= k < |sinks| && k != i ==> (sinks[k].dead <==> Removed(sinks[k].generation) in trace)
      modifies this`sinks
      ensures Ordered(sinks, generation) && Recorded(sinks, trace, generation, dispatches)
      ensures sinks == old(sinks)[..i] + old(sinks)[i + 1..]
      ensures forall s :: s in sinks <==> s in old(sinks) && s.generation != old(sinks)[i].generation
    {
      RemovedAt(sinks, i, generation);
      sinks := sinks[..i] + sinks[i + 1..];
    }

    /** `events_free_dead`. */
    method FreeDead()
      requires Ordered(sinks, generation) && Recorded(sinks, trace, generation, dispatches) && dispatching == 0
      modifies this`sinks
      ensures Valid() && forall s :: s in sinks <==> s in old(sinks) && !s.dead
    {
      var i := 0;
      ghost var was := sinks;
      while i < |sinks|
        invariant i <= |sinks| && Ordered(sinks, generation) && Recorded(sinks, trace, generation, dispatches)
        invariant forall s :: s in was && !s.dead ==> s in sinks
        invariant forall s :: s in sinks ==> s in was
        invariant forall k :: 0 <= k < i ==> !sinks[k].dead
        decreases |sinks| - i
      {
        if sinks[i].dead {
          FreeSink(i);
        } else {
          i := i + 1;
        }
      }
    }

    /** What a callback does. */
    method RunScript(script: Script)
      requires Valid() && dispatching > 0
      modifies this
      ensures Valid() && dispatching == old(dispatching)
      ensures Grown(old(sinks), sinks, old(generation)) && generation >= old(generation)
      ensures dispatches >= old(dispatches)
      ensures old(trace) <= trace && LaterCalls(trace[|old(trace)|..], old(dispatches))
      decreases script
    {
      hide Ordered, Recorded, Grown, LaterCalls;
      NothingYet(sinks, generation, trace, dispatches);
      for i := 0 to |script.actions|
        invariant Valid() && dispatching == old(dispatching)
        invariant Grown(old(sinks), sinks, old(generation)) && generation >= old(generation)
        invariant dispatches >= old(dispatches)
        invariant old(trace) <= trace && LaterCalls(trace[|old(trace)|..], old(dispatches))
      {
        ghost var before, g, t, d := sinks, generation, trace, dispatches;
        Perform(script.actions[i]);
        GrownTrans(old(sinks), before, sinks, old(generation), g);
        LaterMore(old(trace), t, trace, old(dispatches), d);
      }
    }

    method Perform(action: Action)
      requires Valid() && dispatching > 0
      modifies this
      ensures Valid() && dispatching == old(dispatching)
      ensures Grown(old(sinks), sinks, old(generation)) && generation >= old(generation)
      ensures dispatches >= old(dispatches)
      ensures old(trace) <= trace && LaterCalls(trace[|old(trace)|..], old(dispatches))
      decreases action
    {
      NothingYet(sinks, generation, trace, dispatches);
      match action {
        case Add(name) => var sink := AddSink(name);
        case Remove(sink) =>
          RemoveSink(sink);
          RemovedGrown(old(sinks), sinks, sink, generation);
          assert trace == old(trace) || trace == old(trace) + [Removed(sink)];
        case Fire(name, scripts) => ghost var turns := FireEvent(name, scripts);
      }
    }

    /** `events_fire`: every sink with the name that existed at the start and has not been removed when its
      * turn comes is called, once, in order of registration; `turns` says when each turn came. */
    method FireEvent(name: string, scripts: seq<Script>) returns (ghost turns: seq<nat>)
      requires Valid()
      modifies this
      ensures Valid() && dispatching == old(dispatching)
      ensures dispatches > old(dispatches) && generation >= old(generation)
      ensures old(trace) <= trace && LaterCalls(trace[|old(trace)|..], old(dispatches))
      ensures |turns| == |old(sinks)| && forall k :: 0 <= k < |turns| ==> |old(trace)| <= turns[k] <= |trace|
      ensures forall j, k :: 0 <= j < k < |turns| ==> turns[j] <= turns[k]
      ensures Calls(trace, old(dispatches)) == Expected(old(sinks), name, trace, turns)
      ensures forall k: nat :: k < |turns| && Due(old(sinks), name, trace, turns, k) ==>
                turns[k] < |trace| && trace[turns[k]] == Called(old(dispatches), old(sinks)[k].generation)
      ensures Dispatched(old(sinks), name, trace, old(dispatches))
      ensures dispatching > 0 ==> Grown(old(sinks), sinks, old(generation))
      ensures dispatching == 0 ==> forall s :: s in old(sinks) ==> (s in sinks <==> Removed(s.generation) !in trace)
      decreases scripts, 2
    {
      hide Expected, Calls, Recorded, Ordered, Grown, Dispatched, Due;
      var d := dispatches;
      ghost var was, t0 := sinks, trace;
      var limit, called, i := generation, 0, 0;
      turns := [];
      Begin(name);
      while i < |sinks|
        invariant dispatching == old(dispatching) + 1 && called <= |scripts|
        invariant InDispatch(was, t0, name, limit, d, i, turns) && limit == old(generation)
        decreases |scripts| - called, |sinks| - i
      {
        called, turns := Turn(was, t0, name, limit, d, i, turns, scripts, called);
        i := i + 1;
      }
      ghost var grown := sinks;
      GrownLength(was, grown, limit);
      ExpectedExact(was, limit, name, trace, turns, d);
      Finish();
      if dispatching == 0 {
        Survivors(was, grown, limit, trace, generation, dispatches);
      }
    }

    method Begin(ghost name: string)
      requires Valid()
      modifies this`dispatching, this`dispatches
      ensures dispatching == old(dispatching) + 1 && dispatches == old(dispatches) + 1
      ensures InDispatch(sinks, trace, name, generation, old(dispatches), 0, [])
    {
      GrownSelf(sinks, generation);
      assert trace[|trace|..] == [];
      NoCalls(trace, dispatches);
      dispatches := dispatches + 1;
      dispatching := dispatching + 1;
    }

    /** After `i` turns of dispatch `d`, which started with `before`. */
    ghost predicate InDispatch(before: seq<Sink>, t0: seq<Event>, name: string, limit: nat, d: nat, i: nat, turns: seq<nat>)
      reads this
    {
      && Ordered(sinks, generation) && Recorded(sinks, trace, generation, dispatches) && dispatches > d
      && Grown(before, sinks, limit) && generation >= limit && Ordered(before, limit)
      && t0 <= trace && LaterCalls(trace[|t0|..], d)
      && i <= |sinks| && |turns| == (if i <= |before| then i else |before|)
      && (forall k :: 0 <= k < |turns| ==> |t0| <= turns[k] <= |trace|)
      && (forall j, k :: 0 <= j < k < |turns| ==> turns[j] <= turns[k])
      && Calls(trace, d) == Expected(before, name, trace, turns) && Timely(before, name, trace, turns, d)
    }

    /** One turn of the loop of `events_fire`. */
    method Turn(ghost before: seq<Sink>, ghost t0: seq<Event>, name: string, limit: nat, d: nat, i: nat,
                ghost turnsBefore: seq<nat>, scripts: seq<Script>, calledBefore: nat)
      returns (called: nat, ghost turns: seq<nat>)
      requires InDispatch(before, t0, name, limit, d, i, turnsBefore) && i < |sinks| && dispatching > 0
      requires calledBefore <= |scripts|
      modifies this
      ensures InDispatch(before, t0, name, limit, d, i + 1, turns) && dispatching == old(dispatching)
      ensures calledBefore <= called <= |scripts|
      ensures called == calledBefore ==> |sinks| == |old(sinks)|
      decreases scripts, 1
    {
      hide Expected, Ordered, Recorded, Grown, LaterCalls, Timely, Calls, Due;
      var sink := sinks[i];
      called, turns := calledBefore, turnsBefore;
      ghost var t, g := trace, generation;
      GrownAt(before, sinks, limit, i);
      if !sink.dead && sink.generation <= limit && sink.name == name {
        called := CallSink(sink.generation, d, scripts, called);
        GrownTrans(before, old(sinks), sinks, limit, g);
      } else {
        assert trace[|t|..] == [];
        NoCalls(trace[|t|..], d);
        LaterNone(trace[|t|..], d);
      }
      if i < |before| { WithinLimit(before, limit, i); }
      assert trace == t + trace[|t|..];
      LaterMore(t0, t, trace, d, d);
      if i < |before| {
        DeadIsRemoved(old(sinks), t, g, old(dispatches), i);
        TurnStep(before, name, t, turns, d, trace[|t|..], sink.generation);
        TimelyStep(before, name, t, turns, d, trace[|t|..]);
        turns := turns + [|t|];
      }
    }

    /** A sink is called; what its callback does is the next script. */
    method CallSink(sink: nat, d: nat, scripts: seq<Script>, calledBefore: nat) returns (called: nat)
      requires Ordered(sinks, generation) && Recorded(sinks, trace, generation, dispatches) && dispatching > 0
      requires d < dispatches && sink <= generation && calledBefore <= |scripts|
      modifies this
      ensures Ordered(sinks, generation) && Recorded(sinks, trace, generation, dispatches)
      ensures dispatching == old(dispatching) && dispatches >= old(dispatches) && generation >= old(generation)
      ensures Grown(old(sinks), sinks, old(generation))
      ensures old(trace) <= trace && Calls(trace[|old(trace)|..], d) == [sink] && LaterCalls(trace[|old(trace)|..], d)
      ensures |trace| > |old(trace)| && trace[|old(trace)|] == Called(d, sink)
      ensures calledBefore <= called <= |scripts| && (called == calledBefore ==> |sinks| == |old(sinks)|)
      decreases scripts, 0
    {
      ghost var t := trace;
      called := calledBefore;
      trace := trace + [Called(d, sink)];
      OneCall(t, d, sink);
      GrownSelf(sinks, generation);
      if called < |scripts| {
        ghost var t1 := trace;
        RunScript(scripts[called]);
        called := called + 1;
        MoreCalls(t, t1, trace, d);
      }
    }

    /** The end of a dispatch: the outermost one frees the dead sinks. */
    method Finish()
      requires Ordered(sinks, generation) && Recorded(sinks, trace, generation, dispatches) && dispatching > 0
      modifies this`sinks, this`dispatching
      ensures Valid() && dispatching == old(dispatching) - 1
      ensures dispatching > 0 ==> sinks == old(sinks)
      ensures dispatching == 0 ==> forall s :: s in sinks <==> s in old(sinks) && !s.dead
    {
      dispatching := dispatching - 1;
      if dispatching == 0 {
        FreeDead();
      }
    }
  }

  /** A sink that was alive before the outermost dispatch is still there unless it was removed. */
  lemma Survivors(before: seq<Sink>, grown: seq<Sink>, limit: nat, trace: seq<Event>, generation: nat, dispatches: nat)
    requires Grown(before, grown, limit) && Recorded(grown, trace, generation, dispatches)
    requires (forall i :: 0 <= i < |before| ==> !before[i].dead) && Ordered(grown, generation)
    ensures forall s :: s in before ==> (s in grown && !s.dead <==> Removed(s.generation) !in trace)
  {
    forall s | s in before ensures s in grown && !s.dead <==> Removed(s.generation) !in trace {
      var i :| 0 <= i < |before| && before[i] == s;
      assert Same(before[i], grown[i]);
      if s in grown {
        var j :| 0 <= j < |grown| && grown[j] == s;
        assert j == i;
      }
    }
  }

  lemma DeadIsRemoved(sinks: seq<Sink>, trace: seq<Event>, generation: nat, dispatches: nat, i: nat)
    requires Recorded(sinks, trace, generation, dispatches) && i < |sinks|
    ensures sinks[i].dead <==> Removed(sinks[i].generation) in trace
  {
  }

  lemma WithinLimit(sinks: seq<Sink>, limit: nat, i: nat)
    requires Ordered(sinks, limit) && i < |sinks|
    ensures sinks[i].generation <= limit
  {
  }

  lemma OneCall(t: seq<Event>, d: nat, sink: nat)
    ensures var u := t + [Called(d, sink)];
            Calls(u, d) == Calls(t, d) + [sink] && LaterCalls(u[|t|..], d) && Calls(u[|t|..], d) == [sink]
  {
    CallsConcat(t, [Called(d, sink)], d);
    assert (t + [Called(d, sink)])[|t|..] == [Called(d, sink)];
    assert [Called(d, sink)][1..] == [];
  }

  /** Calls of dispatches started meanwhile are not calls of this one. */
  lemma MoreCalls(t: seq<Event>, u: seq<Event>, v: seq<Event>, d: nat)
    requires t <= u <= v && LaterCalls(v[|u|..], d + 1) && LaterCalls(u[|t|..], d)
    ensures Calls(v[|t|..], d) == Calls(u[|t|..], d) && LaterCalls(v[|t|..], d)
  {
    assert v[|t|..] == u[|t|..] + v[|u|..];
    NoCalls(v[|u|..], d);
    CallsConcat(u[|t|..], v[|u|..], d);
  }

  /** One more turn. */
  lemma TurnStep(sinks: seq<Sink>, name: string, trace: seq<Event>, turns: seq<nat>, d: nat, more: seq<Event>, sink: nat)
    requires |turns| < |sinks| && forall k :: 0 <= k < |turns| ==> turns[k] <= |trace|
    requires Calls(trace, d) == Expected(sinks, name, trace, turns) && sink == sinks[|turns|].generation
    requires Calls(more, d) == if sinks[|turns|].name == name && Removed(sink) !in trace then [sink] else []
    ensures Calls(trace + more, d) == Expected(sinks, name, trace + more, turns + [|trace|])
  {
    hide Calls, Expected;
    CallsConcat(trace, more, d);
    ExpectedStable(sinks, name, trace, more, turns);
    ExpectedMore(sinks, name, trace + more, turns, |trace|);
    assert (trace + more)[..|trace|] == trace;
  }

  lemma ExpectedMore(sinks: seq<Sink>, name: string, trace: seq<Event>, turns: seq<nat>, turn: nat)
    requires |turns| < |sinks| && turn <= |trace| && forall k :: 0 <= k < |turns| ==> turns[k] <= |trace|
    ensures var k := |turns|;
            Expected(sinks, name, trace, turns + [turn])
            == Expected(sinks, name, trace, turns)
               + if sinks[k].name == name && Removed(sinks[k].generation) !in trace[..turn] then [sinks[k].generation] else []
  {
    assert (turns + [turn])[..|turns|] == turns;
  }

  lemma GrownSelf(sinks: seq<Sink>, generation: nat)
    ensures Grown(sinks, sinks, generation)
  {
  }

  lemma LaterNone(trace: seq<Event>, d: nat)
    requires trace == []
    ensures LaterCalls(trace, d)
  {
  }

  lemma GrownAt(before: seq<Sink>, after: seq<Sink>, limit: nat, i: nat)
    requires Grown(before, after, limit) && i < |after|
    ensures if i < |before| then Same(before[i], after[i]) else after[i].generation > limit
  {
  }

  lemma GrownLength(before: seq<Sink>, after: seq<Sink>, generation: nat)
    requires Grown(before, after, generation)
    ensures |before| <= |after|
  {
  }

  /** Marking a sink dead. */
  lemma RemovedGrown(before: seq<Sink>, after: seq<Sink>, sink: nat, generation: nat)
    requires Ordered(before, generation)
    requires forall i :: 0 <= i < |before| && before[i].generation == sink && !before[i].dead ==>
               after == before[i := before[i].(dead := true)]
    requires (forall i :: 0 <= i < |before| && before[i].generation == sink ==> before[i].dead) ==> after == before
    ensures Grown(before, after, generation)
  {
    if i :| 0 <= i < |before| && before[i].generation == sink && !before[i].dead {
      assert after == before[i := before[i].(dead := true)];
    }
  }

  lemma GrownTrans(a: seq<Sink>, b: seq<Sink>, c: seq<Sink>, g: nat, h: nat)
    requires Grown(a, b, g) && Grown(b, c, h) && g <= h
    ensures Grown(a, c, g)
  {
    forall i | 0 <= i < |a| ensures Same(a[i], c[i]) {
      assert Same(a[i], b[i]) && Same(b[i], c[i]);
    }
    forall i | |a| <= i < |c| ensures c[i].generation > g {
      if i < |b| { assert Same(b[i], c[i]); }
    }
  }

  lemma LaterMore(a: seq<Event>, b: seq<Event>, c: seq<Event>, d: nat, e: nat)
    requires a <= b <= c && LaterCalls(b[|a|..], d) && LaterCalls(c[|b|..], e) && d <= e
    ensures LaterCalls(c[|a|..], d)
  {
    assert c[|a|..] == b[|a|..] + c[|b|..];
  }

  lemma NothingYet(sinks: seq<Sink>, generation: nat, trace: seq<Event>, d: nat)
    ensures Grown(sinks, sinks, generation) && LaterCalls(trace[|trace|..], d)
  {
    assert trace[|trace|..] == [];
  }
}
