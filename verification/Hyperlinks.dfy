/** The hyperlink sets of hyperlinks.c: two trees for every set, and one list of all links that evicts
  * the oldest.
  *
  * The tree by inner number is a sequence in ascending order; the tree by URI is a map from keys, which
  * are what the comparator tells apart.  Text is what `utf8_stravis` made of it.
  */
module Hyperlinks {
  import opened Bytes

  const MAX_HYPERLINKS: nat := 5000
  const MAX_HYPERLINK_URI: nat := 1024

  type Text = seq<Byte>

  datatype Link = Link(inner: nat, id: Text, uri: Text)

  // ---- The comparator ----

  /** `strcmp`. */
  function Compare(a: Text, b: Text): int {
    if a == [] && b == [] then 0
    else if a == [] then -1
    else if b == [] then 1
    else if a[0] < b[0] then -1
    else if a[0] > b[0] then 1
    else Compare(a[1..], b[1..])
  }

  function CompareInner(a: nat, b: nat): int {
    if a < b then -1 else if a > b then 1 else 0
  }

  /** `hyperlinks_by_uri_cmp`: anonymous links never match each other. */
  function CompareLinks(a: Link, b: Link): int {
    if a.id == [] || b.id == [] then
      if a.id != [] then -1 else if b.id != [] then 1 else CompareInner(a.inner, b.inner)
    else if Compare(a.id, b.id) != 0 then Compare(a.id, b.id)
    else Compare(a.uri, b.uri)
  }

  /** What the comparator tells apart. */
  datatype Key = Named(id: Text, uri: Text) | Anonymous(inner: nat)

  function KeyOf(link: Link): Key {
    if link.id == [] then Anonymous(link.inner) else Named(link.id, link.uri)
  }

  lemma {:induction false} CompareZero(a: Text, b: Text)
    ensures Compare(a, b) == 0 <==> a == b
    ensures Compare(b, a) == -Compare(a, b)
  {
    if a != [] && b != [] {
      CompareZero(a[1..], b[1..]);
      assert a == [a[0]] + a[1..] && b == [b[0]] + b[1..];
    }
  }

  lemma {:induction false} CompareTrans(a: Text, b: Text, c: Text)
    requires Compare(a, b) <= 0 && Compare(b, c) <= 0
    ensures Compare(a, c) <= 0
  {
    if a != [] && b != [] && c != [] && a[0] == b[0] == c[0] { CompareTrans(a[1..], b[1..], c[1..]); }
  }

  /** The comparator is a total order on keys, so a tree built with it is a map from keys. */
  lemma ComparatorIsOrder(a: Link, b: Link, c: Link)
    ensures CompareLinks(a, b) == 0 <==> KeyOf(a) == KeyOf(b)
    ensures CompareLinks(b, a) == -CompareLinks(a, b)
    ensures CompareLinks(a, b) <= 0 && CompareLinks(b, c) <= 0 ==> CompareLinks(a, c) <= 0
  {
    hide Compare;
    CompareZero(a.id, b.id);
    CompareZero(a.uri, b.uri);
    CompareZero(b.id, c.id);
    CompareZero(b.uri, c.uri);
    CompareZero(a.id, c.id);
    if CompareLinks(a, b) <= 0 && CompareLinks(b, c) <= 0 && a.id != [] && b.id != [] && c.id != [] {
      CompareTrans(a.id, b.id, c.id);
      if a.id == c.id {
        Antisymmetric(a.id, b.id);
        CompareTrans(a.uri, b.uri, c.uri);
      }
    }
  }

  lemma Antisymmetric(a: Text, b: Text)
    requires Compare(a, b) <= 0 && Compare(b, a) <= 0
    ensures a == b
  {
    CompareZero(a, b);
  }

  // ---- One set ----

  datatype Links = Links(nextInner: nat, byInner: seq<Link>, byUri: map<Key, Link>, detached: bool, references: nat)

  /** Both trees hold the same links, numbered below the next number. */
  ghost predicate LinksOk(l: Links) {
    && Numbered(l.byInner, l.nextInner)
    && (forall i :: 0 <= i < |l.byInner| ==>
          KeyOf(l.byInner[i]) in l.byUri && l.byUri[KeyOf(l.byInner[i])] == l.byInner[i])
    && (forall k :: k in l.byUri ==> l.byUri[k] in l.byInner && KeyOf(l.byUri[k]) == k)
    && l.nextInner > 0
  }

  /** In ascending order, below the next number. */
  predicate Numbered(byInner: seq<Link>, next: nat) {
    && (forall i, j :: 0 <= i < j < |byInner| ==> byInner[i].inner < byInner[j].inner)
    && (forall i :: 0 <= i < |byInner| ==> 0 < byInner[i].inner < next)
  }

  predicate Has(l: Links, inner: nat) {
    exists i :: 0 <= i < |l.byInner| && l.byInner[i].inner == inner
  }

  /** A link put into both trees. */
  function WithLink(l: Links, link: Link): Links {
    l.(nextInner := link.inner + 1, byInner := l.byInner + [link], byUri := l.byUri[KeyOf(link) := link])
  }

  lemma WithLinkOk(l: Links, link: Link)
    requires LinksOk(l) && link.inner >= l.nextInner && KeyOf(link) !in l.byUri
    ensures LinksOk(WithLink(l, link))
  {
    hide KeyOf, Numbered;
    var r, n := WithLink(l, link), |l.byInner|;
    WithLinkNumbered(l.byInner, link, l.nextInner);
    forall i | 0 <= i < |r.byInner| ensures KeyOf(r.byInner[i]) in r.byUri && r.byUri[KeyOf(r.byInner[i])] == r.byInner[i] {
      if i < n { assert r.byInner[i] == l.byInner[i]; } else { assert r.byInner[i] == link; }
    }
    forall k | k in r.byUri ensures r.byUri[k] in r.byInner {
      if k == KeyOf(link) { assert r.byInner[n] == link; } else { assert l.byUri[k] in l.byInner; }
    }
  }

  lemma WithLinkNumbered(byInner: seq<Link>, link: Link, next: nat)
    requires Numbered(byInner, next) && 0 < next <= link.inner
    ensures Numbered(byInner + [link], link.inner + 1)
  {
  }

  /** A link with the next number. */
  function Insert(l: Links, id: Text, uri: Text): Links {
    WithLink(l, Link(l.nextInner, id, uri))
  }

  lemma InsertOk(l: Links, id: Text, uri: Text)
    requires LinksOk(l) && (id != [] ==> Named(id, uri) !in l.byUri)
    ensures LinksOk(Insert(l, id, uri))
    ensures !Has(l, l.nextInner) && forall n :: Has(Insert(l, id, uri), n) <==> Has(l, n) || n == l.nextInner
  {
    var link := Link(l.nextInner, id, uri);
    forall k | k in l.byUri ensures k != KeyOf(link) {
      var i :| 0 <= i < |l.byInner| && l.byInner[i] == l.byUri[k];
    }
    WithLinkOk(l, link);
    forall n { WithLinkHas(l, link, n); }
  }

  lemma WithLinkHas(l: Links, link: Link, n: nat)
    ensures Has(WithLink(l, link), n) <==> Has(l, n) || n == link.inner
  {
    var r := WithLink(l, link);
    assert r.byInner[|l.byInner|] == link;
    if Has(l, n) {
      var i :| 0 <= i < |l.byInner| && l.byInner[i].inner == n;
      assert r.byInner[i].inner == n;
    }
  }

  /** An element taken out of a list. */
  function RemoveAt<T>(s: seq<T>, i: nat): (r: seq<T>)
    requires i < |s|
    ensures |r| == |s| - 1
    ensures forall k :: 0 <= k < i ==> r[k] == s[k]
    ensures forall k :: i <= k < |r| ==> r[k] == s[k + 1]
  {
    s[..i] + s[i + 1..]
  }

  /** The link at an index taken out of both trees. */
  function Drop(l: Links, i: nat): Links
    requires i < |l.byInner|
  {
    l.(byInner := RemoveAt(l.byInner, i), byUri := l.byUri - {KeyOf(l.byInner[i])})
  }

  lemma DropOk(l: Links, i: nat)
    requires LinksOk(l) && i < |l.byInner|
    ensures LinksOk(Drop(l, i)) && forall n :: Has(Drop(l, i), n) <==> Has(l, n) && n != l.byInner[i].inner
  {
    assert Numbered(l.byInner, l.nextInner);
    hide LinksOk, Has, Numbered;
    DropTrees(l, i);
    forall n { DropHas(l, i, n); }
  }

  lemma DropTrees(l: Links, i: nat)
    requires LinksOk(l) && i < |l.byInner|
    ensures LinksOk(Drop(l, i))
  {
    hide KeyOf, RemoveAt, Numbered;
    var r := Drop(l, i);
    DropNumbered(l.byInner, i, l.nextInner);
    forall k | 0 <= k < |r.byInner|
      ensures KeyOf(r.byInner[k]) in r.byUri && l.byUri[KeyOf(r.byInner[k])] == r.byInner[k]
    {
      DifferentKeys(l, if k < i then k else k + 1, i);
    }
    forall k | k in r.byUri ensures r.byUri[k] in r.byInner {
      KeptIn(l, i, k);
    }
  }

  lemma DropNumbered(byInner: seq<Link>, i: nat, next: nat)
    requires i < |byInner| && Numbered(byInner, next)
    ensures Numbered(RemoveAt(byInner, i), next)
  {
    hide RemoveAt;
  }

  lemma KeptIn(l: Links, i: nat, k: Key)
    requires LinksOk(l) && i < |l.byInner| && k in l.byUri && k != KeyOf(l.byInner[i])
    ensures l.byUri[k] in RemoveAt(l.byInner, i)
  {
    hide KeyOf, RemoveAt;
    var j :| 0 <= j < |l.byInner| && l.byInner[j] == l.byUri[k];
    assert j != i && l.byInner[j] == RemoveAt(l.byInner, i)[if j < i then j else j - 1];
  }

  lemma DropHas(l: Links, i: nat, n: nat)
    requires Numbered(l.byInner, l.nextInner) && i < |l.byInner|
    ensures Has(Drop(l, i), n) <==> Has(l, n) && n != l.byInner[i].inner
  {
    hide RemoveAt, KeyOf;
    var r := Drop(l, i);
    if Has(l, n) && n != l.byInner[i].inner {
      var j :| 0 <= j < |l.byInner| && l.byInner[j].inner == n;
      assert r.byInner[if j < i then j else j - 1].inner == n;
    }
    if Has(r, n) {
      var j :| 0 <= j < |r.byInner| && r.byInner[j].inner == n;
      assert l.byInner[if j < i then j else j + 1].inner == n;
    }
  }

  lemma DifferentKeys(l: Links, i: nat, j: nat)
    requires LinksOk(l) && i < |l.byInner| && j < |l.byInner| && i != j
    ensures KeyOf(l.byInner[i]) != KeyOf(l.byInner[j])
  {
    assert l.byUri[KeyOf(l.byInner[i])] == l.byInner[i] && l.byUri[KeyOf(l.byInner[j])] == l.byInner[j];
    assert l.byInner[i].inner != l.byInner[j].inner;
  }

  // ---- All sets ----

  /** A link on the global list. */
  datatype Handle = Handle(owner: nat, inner: nat)

  function IndexOf(byInner: seq<Link>, inner: nat): (i: nat)
    ensures i <= |byInner| && (i < |byInner| ==> byInner[i].inner == inner)
    ensures i == |byInner| ==> forall k :: 0 <= k < |byInner| ==> byInner[k].inner != inner
  {
    if byInner == [] then 0
    else if byInner[0].inner == inner then 0
    else
      var i := IndexOf(byInner[1..], inner);
      assert i + 1 == |byInner| ==> forall k :: 1 <= k < |byInner| ==> byInner[k] == byInner[1..][k - 1];
      i + 1
  }

  class Store {
    var sets: map<nat, Links>
    var global: seq<Handle>
    var count: nat
    var nextSet: nat

    constructor ()
      ensures Valid() && sets == map[]
    {
      sets, global, count, nextSet := map[], [], 0, 0;
    }

    /** The links of `s` up to number `done` are on the global list, as far as that set is concerned. */
    predicate OnList(s: nat, inner: nat, activating: nat, done: nat)
      requires s in sets
      reads this
    {
      !sets[s].detached && Has(sets[s], inner) && (s == activating ==> inner <= done)
    }

    /** Both trees of every set hold the same links; a link is on the global list exactly if its set is not
      * detached, once; the count is the length of the list.  While set `activating` is being activated,
      * only its links up to number `done` are on the list. */
    ghost predicate Listed(activating: nat, done: nat)
      reads this
    {
      ListedUpTo(activating, done) && count < MAX_HYPERLINKS
    }

    ghost predicate ListedUpTo(activating: nat, done: nat)
      reads this
    {
      && (forall s :: s in sets ==> LinksOk(sets[s]) && s < nextSet)
      && (forall i, j :: 0 <= i < j < |global| ==> global[i] != global[j])
      && (forall s, n :: Handle(s, n) in global <==> s in sets && OnList(s, n, activating, done))
      && count == |global|
    }

    ghost predicate Valid()
      reads this
    {
      Listed(nextSet, 0)
    }

    /** `hyperlinks_init`. */
    method Init() returns (s: nat)
      requires Valid()
      modifies this
      ensures Valid() && s !in old(sets) && sets == old(sets)[s := Links(1, [], map[], false, 1)]
    {
      s := nextSet;
      sets := sets[s := Links(1, [], map[], false, 1)];
      nextSet := nextSet + 1;
    }

    /** `hyperlinks_get`. */
    method Get(s: nat, inner: nat) returns (link: Option<Link>)
      requires Valid() && s in sets
      ensures link.Some? <==> Has(sets[s], inner)
      ensures link.Some? ==> link.value in sets[s].byInner && link.value.inner == inner
    {
      var i := IndexOf(sets[s].byInner, inner);
      if i < |sets[s].byInner| {
        return Some(sets[s].byInner[i]);
      }
      return None;
    }

    /** `hyperlinks_remove`. */
    method Remove(s: nat, i: nat, ghost activating: nat, ghost done: nat)
      requires ListedUpTo(activating, done) && s in sets && i < |sets[s].byInner|
      requires s == activating ==> sets[s].byInner[i].inner <= done
      modifies this
      ensures ListedUpTo(activating, done) && sets == old(sets)[s := Drop(old(sets)[s], i)] && nextSet == old(nextSet)
      ensures old(sets)[s].detached ==> global == old(global)
      ensures !old(sets)[s].detached ==>
                && count == old(count) - 1
                && (old(global) != [] && old(global)[0] == Handle(s, old(sets)[s].byInner[i].inner) ==>
                      global == old(global)[1..])
    {
      hide LinksOk, Has, Drop;
      var l := sets[s];
      HasAt(l, i);
      DropOk(l, i);
      if !l.detached {
        Unlist(Handle(s, l.byInner[i].inner));
      }
      sets := sets[s := Drop(l, i)];
      DropFields(l, i);
    }

    /** The oldest link is evicted. */
    method Evict(ghost activating: nat, ghost done: nat)
      requires global != [] && count == |global| <= MAX_HYPERLINKS
      requires ListedUpTo(activating, done)
      modifies this
      ensures ListedUpTo(activating, done) && count == |global| == old(count) - 1 && nextSet == old(nextSet)
      ensures var h := old(global)[0];
              && h.owner in old(sets) && IndexOf(old(sets)[h.owner].byInner, h.inner) < |old(sets)[h.owner].byInner|
              && sets == old(sets)[h.owner := Drop(old(sets)[h.owner], IndexOf(old(sets)[h.owner].byInner, h.inner))]
      ensures global == old(global)[1..]
    {
      hide LinksOk, Drop, IndexOf;
      var h := global[0];
      assert Handle(h.owner, h.inner) in global;
      var i := IndexOf(sets[h.owner].byInner, h.inner);
      Remove(h.owner, i, activating, done);
    }

    /** `hyperlinks_put`, for text that `utf8_stravis` has made printable.  A named pair that is there gets
      * its old number; anything else gets a number that the set has never given out. */
    method Put(s: nat, uri: Text, id: Text) returns (inner: nat)
      requires Valid() && s in sets && !sets[s].detached
      modifies this
      ensures Valid()
      ensures |uri| > MAX_HYPERLINK_URI ==> inner == 0 && sets == old(sets)
      ensures |uri| <= MAX_HYPERLINK_URI && id != [] && Named(id, uri) in old(sets)[s].byUri ==>
                inner == old(sets)[s].byUri[Named(id, uri)].inner && sets == old(sets) && global == old(global)
      ensures |uri| <= MAX_HYPERLINK_URI && !(id != [] && Named(id, uri) in old(sets)[s].byUri) ==>
                && inner == old(sets)[s].nextInner && !Has(old(sets)[s], inner)
                && s in sets && sets[s].nextInner == inner + 1 && global != []
                && global[|global| - 1] == Handle(s, inner) && Link(inner, id, uri) in sets[s].byInner
                && global == if old(count) + 1 == MAX_HYPERLINKS then old(global)[1..] + [Handle(s, inner)]
                             else old(global) + [Handle(s, inner)]
    {
      hide LinksOk, Insert;
      if |uri| > MAX_HYPERLINK_URI {
        return 0;
      }
      if id != [] && Named(id, uri) in sets[s].byUri {
        return sets[s].byUri[Named(id, uri)].inner;
      }
      inner := sets[s].nextInner;
      AddLink(s, uri, id);
      if count == MAX_HYPERLINKS {
        ghost var before := sets;
        Evict(nextSet, 0);
        StillThere(before, sets, s, Link(inner, id, uri), old(global)[0], global);
        assert global == old(global)[1..] + [Handle(s, inner)];
      }
    }

    /** The new link enters both trees and the global list. */
    method AddLink(s: nat, uri: Text, id: Text)
      requires Valid() && s in sets && !sets[s].detached && (id != [] ==> Named(id, uri) !in sets[s].byUri)
      modifies this
      ensures ListedUpTo(nextSet, 0) && count == |global| == old(count) + 1 && nextSet == old(nextSet)
      ensures sets == old(sets)[s := Insert(old(sets)[s], id, uri)]
      ensures sets[s].nextInner == old(sets)[s].nextInner + 1 && !Has(old(sets)[s], old(sets)[s].nextInner)
      ensures Link(old(sets)[s].nextInner, id, uri) in sets[s].byInner
      ensures global == old(global) + [Handle(s, old(sets)[s].nextInner)]
    {
      hide LinksOk, Has;
      var l := sets[s];
      InsertOk(l, id, uri);
      assert Handle(s, l.nextInner) !in global;
      sets := sets[s := Insert(l, id, uri)];
      global := global + [Handle(s, l.nextInner)];
      count := count + 1;
      assert sets[s].byInner[|l.byInner|] == Link(l.nextInner, id, uri);
    }

    /** `hyperlinks_reset`. */
    method Reset(s: nat)
      requires Valid() && s in sets
      modifies this
      ensures Valid() && s in sets && sets == old(sets)[s := sets[s]] && sets[s].byInner == []
      ensures sets[s].nextInner == old(sets)[s].nextInner && nextSet == old(nextSet)
    {
      hide LinksOk, Has, Drop, KeyOf;
      while sets[s].byInner != []
        invariant Valid() && s in sets && sets == old(sets)[s := sets[s]]
        invariant sets[s].nextInner == old(sets)[s].nextInner && nextSet == old(nextSet)
        invariant sets[s].detached == old(sets)[s].detached
        decreases |sets[s].byInner|
      {
        DropFields(sets[s], 0);
        Remove(s, 0, nextSet, 0);
      }
    }

    /** `hyperlinks_free`: the last reference takes the set and all its links with it. */
    method Free(s: nat)
      requires Valid() && s in sets && sets[s].references > 0
      modifies this
      ensures Valid()
      ensures old(sets)[s].references == 1 ==> sets == old(sets) - {s} && forall n :: Handle(s, n) !in global
      ensures old(sets)[s].references > 1 ==>
                sets == old(sets)[s := old(sets)[s].(references := old(sets)[s].references - 1)] && global == old(global)
    {
      Unreference(s);
      if sets[s].references == 0 {
        Reset(s);
        Forget(s);
      }
    }

    method Unreference(s: nat)
      requires Valid() && s in sets && sets[s].references > 0
      modifies this`sets
      ensures Valid() && sets == old(sets)[s := old(sets)[s].(references := old(sets)[s].references - 1)]
    {
      hide Has;
      var l := sets[s];
      Unreferenced(l);
      sets := sets[s := l.(references := l.references - 1)];
    }

    /** An empty set goes. */
    method Forget(s: nat)
      requires Valid() && s in sets && sets[s].byInner == []
      modifies this`sets
      ensures Valid() && sets == old(sets) - {s} && forall n :: Handle(s, n) !in global
    {
      hide LinksOk;
      assert forall n :: !Has(sets[s], n);
      sets := sets - {s};
    }

    /** A decoded set stays off the global list until it is activated. */
    method Decode(table: seq<Link>) returns (s: nat)
      requires Valid() && TableOk(table)
      modifies this
      ensures Valid() && s !in old(sets) && s in sets && sets == old(sets)[s := sets[s]] && global == old(global)
      ensures sets[s].byInner == table && sets[s].detached && LinksOk(sets[s])
    {
      hide LinksOk, Has, TableOk;
      s := nextSet;
      var l := SnapshotDecode(table);
      sets := sets[s := l];
      nextSet := nextSet + 1;
    }

    /** `hyperlinks_snapshot_activate`: the links of a detached set enter the global list, in ascending
      * order; of a list that gets too long only the end is left, so the oldest links go, be they of this
      * set or of others.  No other link changes or goes. */
    method Activate(s: nat)
      requires Valid() && s in sets
      modifies this
      ensures Valid() && s in sets && !sets[s].detached
      ensures !old(sets)[s].detached ==> sets == old(sets) && global == old(global)
      ensures old(sets)[s].detached ==>
                && global == Newest(old(global) + Handles(s, old(sets)[s].byInner))
                && Thinned(old(sets)[s := old(sets)[s].(detached := false)], sets)
    {
      hide LinksOk, Has, Handles, Newest, Thinned;
      if !sets[s].detached {
        return;
      }
      Attach(s);
      ghost var start, l, g := sets, sets[s], global;
      var i: nat := 0;
      ghost var k, done: nat := 0, 0;
      NoHandles(s, l.byInner);
      ThinnedSelf(sets);
      NewestAll(g);
      while i < |sets[s].byInner|
        invariant s in sets && nextSet == old(nextSet) && Listed(s, done) && Split(sets[s].byInner, i, done)
        invariant !sets[s].detached && k <= |l.byInner| && sets[s].byInner[i..] == l.byInner[k..]
        invariant Thinned(start, sets) && global == Newest(g + Handles(s, l.byInner[..k]))
        decreases |l.byInner| - k
      {
        ghost var before, listed := sets, global;
        MoreHandles(s, l.byInner, k);
        assert sets[s].byInner[i] == sets[s].byInner[i..][0] == l.byInner[k];
        i, done := ActivateOne(s, i, done);
        ThinnedTrans(start, before, sets);
        NewestMore(g + Handles(s, l.byInner[..k]), Handle(s, l.byInner[k].inner));
        assert g + Handles(s, l.byInner[..k]) + [Handle(s, l.byInner[k].inner)] == g + Handles(s, l.byInner[..k + 1]);
        assert sets[s].byInner[i..] == l.byInner[k..][1..] == l.byInner[k + 1..];
        k := k + 1;
      }
      assert l.byInner[..|l.byInner|] == l.byInner;
      AllDone(sets[s], i, done);
    }

    /** The set is not detached any more, but none of its links is listed yet. */
    method Attach(s: nat)
      requires Valid() && s in sets && sets[s].detached
      modifies this`sets
      ensures Listed(s, 0) && sets == old(sets)[s := old(sets)[s].(detached := false)]
      ensures Split(sets[s].byInner, 0, 0) && forall n :: Has(sets[s], n) ==> Has(old(sets)[s], n)
    {
      hide LinksOk, Has;
      var l := sets[s];
      Attached(l);
      sets := sets[s := l.(detached := false)];
    }

    /** One link is listed, and the oldest one evicted if there are too many. */
    method ActivateOne(s: nat, i: nat, ghost done: nat) returns (next: nat, ghost done': nat)
      requires s in sets && Listed(s, done) && Split(sets[s].byInner, i, done) && i < |sets[s].byInner|
      requires !sets[s].detached && s < nextSet
      modifies this
      ensures s in sets && nextSet == old(nextSet) && Listed(s, done') && Split(sets[s].byInner, next, done')
      ensures !sets[s].detached && sets[s].byInner[next..] == old(sets)[s].byInner[i..][1..]
      ensures Thinned(old(sets), sets)
      ensures global == Newest(old(global) + [Handle(s, old(sets)[s].byInner[i].inner)])
    {
      hide LinksOk, Has, Drop, IndexOf, Thinned;
      ghost var h := Handle(s, sets[s].byInner[i].inner);
      assert sets[s].byInner[i + 1..] == sets[s].byInner[i..][1..];
      done' := ListOne(s, i, done);
      next := i + 1;
      ThinnedSelf(sets);
      if count >= MAX_HYPERLINKS {
        next := EvictOldest(s, next, done');
        assert global == (old(global) + [h])[1..];
      }
    }

    /** `TAILQ_INSERT_TAIL` of the next link. */
    method ListOne(s: nat, i: nat, ghost done: nat) returns (ghost done': nat)
      requires s in sets && Listed(s, done) && Split(sets[s].byInner, i, done) && i < |sets[s].byInner|
      requires !sets[s].detached && s < nextSet
      modifies this`global, this`count
      ensures ListedUpTo(s, done') && count == old(count) + 1 && Split(sets[s].byInner, i + 1, done')
      ensures global == old(global) + [Handle(s, sets[s].byInner[i].inner)]
    {
      hide LinksOk, Has;
      var inner := sets[s].byInner[i].inner;
      NextListed(sets[s], i, done);
      HasAt(sets[s], i);
      assert Handle(s, inner) !in global;
      global := global + [Handle(s, inner)];
      count := count + 1;
      done' := inner;
    }

    /** The oldest link goes; if it is one of the set being activated, the next one has moved up. */
    method EvictOldest(s: nat, i: nat, ghost done: nat) returns (next: nat)
      requires s in sets && ListedUpTo(s, done) && Split(sets[s].byInner, i, done) && count == MAX_HYPERLINKS
      requires !sets[s].detached
      modifies this
      ensures s in sets && nextSet == old(nextSet) && Listed(s, done) && Split(sets[s].byInner, next, done)
      ensures !sets[s].detached && sets[s].byInner[next..] == old(sets)[s].byInner[i..]
      ensures Thinned(old(sets), sets) && global == old(global)[1..]
    {
      hide LinksOk, Has, Drop, IndexOf, Thinned;
      var h := global[0];
      assert Handle(h.owner, h.inner) in global;
      Evict(s, done);
      ghost var j := IndexOf(old(sets)[h.owner].byInner, h.inner);
      ThinnedDrop(old(sets), h.owner, j, sets);
      next := i;
      if h.owner == s {
        DropFields(old(sets)[s], j);
        EvictedBefore(old(sets)[s], j, i, done);
        next := i - 1;
      }
    }

    /** A link leaves the global list. */
    method Unlist(h: Handle)
      requires h in global && count == |global| && forall i, j :: 0 <= i < j < |global| ==> global[i] != global[j]
      modifies this`global, this`count
      ensures count == |global| == old(count) - 1
      ensures forall i, j :: 0 <= i < j < |global| ==> global[i] != global[j]
      ensures forall g :: g in global <==> g in old(global) && g != h
      ensures old(global)[0] == h ==> global == old(global)[1..]
    {
      var k := 0;
      while global[k] != h
        invariant k < |global| && forall j :: 0 <= j < k ==> global[j] != h
        decreases |global| - k
      {
        k := k + 1;
      }
      TakenOff(global, k);
      global := RemoveAt(global, k);
      count := count - 1;
    }
  }

  lemma HasAt(l: Links, i: nat)
    requires i < |l.byInner|
    ensures Has(l, l.byInner[i].inner)
  {
  }

  /** Evicting the oldest link does not take the newest, which is another. */
  lemma StillThere(before: map<nat, Links>, after: map<nat, Links>, s: nat, link: Link, h: Handle, global: seq<Handle>)
    requires s in before && h.owner in before && link in before[s].byInner && h != Handle(s, link.inner)
    requires IndexOf(before[h.owner].byInner, h.inner) < |before[h.owner].byInner|
    requires after == before[h.owner := Drop(before[h.owner], IndexOf(before[h.owner].byInner, h.inner))]
    ensures s in after && link in after[s].byInner && after[s].nextInner == before[s].nextInner
  {
    hide RemoveAt;
    if h.owner == s {
      var i := IndexOf(before[s].byInner, h.inner);
      var j :| 0 <= j < |before[s].byInner| && before[s].byInner[j] == link;
      assert j != i;
      assert after[s].byInner[if j < i then j else j - 1] == link;
    }
  }

  lemma Unreferenced(l: Links)
    requires l.references > 0
    ensures var r := l.(references := l.references - 1);
            (LinksOk(l) ==> LinksOk(r)) && forall n :: Has(r, n) == Has(l, n)
  {
  }

  /** The links before index `i` are those numbered up to `done`. */
  predicate Split(byInner: seq<Link>, i: nat, done: nat) {
    && i <= |byInner| && (forall k :: 0 <= k < i ==> byInner[k].inner <= done)
    && (forall k :: i <= k < |byInner| ==> byInner[k].inner > done)
  }

  function Handles(s: nat, byInner: seq<Link>): seq<Handle> {
    if byInner == [] then []
    else Handles(s, byInner[..|byInner| - 1]) + [Handle(s, byInner[|byInner| - 1].inner)]
  }

  lemma NoHandles(s: nat, byInner: seq<Link>)
    ensures Handles(s, byInner[..0]) == []
  {
  }

  lemma MoreHandles(s: nat, byInner: seq<Link>, i: nat)
    requires i < |byInner|
    ensures Handles(s, byInner[..i + 1]) == Handles(s, byInner[..i]) + [Handle(s, byInner[i].inner)]
  {
    assert byInner[..i + 1][..i] == byInner[..i];
  }

  lemma Attached(l: Links)
    requires l.detached
    ensures var r := l.(detached := false); (LinksOk(l) ==> LinksOk(r)) && forall n :: Has(r, n) == Has(l, n)
    ensures LinksOk(l) ==> Split(l.byInner, 0, 0) && forall n :: Has(l, n) ==> n > 0
  {
  }

  /** The next link is the first that is not listed. */
  lemma NextListed(l: Links, i: nat, done: nat)
    requires LinksOk(l) && Split(l.byInner, i, done) && i < |l.byInner|
    ensures var inner := l.byInner[i].inner;
            && inner > done && Split(l.byInner, i + 1, inner)
            && forall n: nat :: Has(l, n) && n <= inner <==> (Has(l, n) && n <= done) || n == inner
  {
    var inner := l.byInner[i].inner;
    assert Has(l, inner);
    forall n: nat | Has(l, n) && n <= inner && n != inner ensures n <= done {
      var k :| 0 <= k < |l.byInner| && l.byInner[k].inner == n;
    }
  }

  /** The end of the list that may stay. */
  function Newest(list: seq<Handle>): seq<Handle> {
    if |list| < MAX_HYPERLINKS then list else list[|list| - (MAX_HYPERLINKS - 1)..]
  }

  lemma NewestAll(list: seq<Handle>)
    requires |list| < MAX_HYPERLINKS
    ensures Newest(list + []) == list
  {
    assert list + [] == list;
  }

  lemma NewestMore(list: seq<Handle>, h: Handle)
    ensures Newest(Newest(list) + [h]) == Newest(list + [h])
  {
  }

  /** Some links have gone from some sets that are not detached; nothing else has changed. */
  predicate Thinned(before: map<nat, Links>, after: map<nat, Links>) {
    && before.Keys == after.Keys
    && forall s :: s in before ==>
         && (forall link :: link in after[s].byInner ==> link in before[s].byInner)
         && after[s].nextInner == before[s].nextInner && after[s].references == before[s].references
         && after[s].detached == before[s].detached && (before[s].detached ==> after[s] == before[s])
  }

  lemma ThinnedSelf(sets: map<nat, Links>)
    ensures Thinned(sets, sets)
  {
  }

  lemma ThinnedTrans(a: map<nat, Links>, b: map<nat, Links>, c: map<nat, Links>)
    requires Thinned(a, b) && Thinned(b, c)
    ensures Thinned(a, c)
  {
  }

  lemma ThinnedDrop(before: map<nat, Links>, owner: nat, i: nat, after: map<nat, Links>)
    requires owner in before && i < |before[owner].byInner| && !before[owner].detached
    requires after == before[owner := Drop(before[owner], i)]
    ensures Thinned(before, after)
  {
    hide RemoveAt, KeyOf;
    forall link | link in after[owner].byInner ensures link in before[owner].byInner {
      var k :| 0 <= k < |after[owner].byInner| && after[owner].byInner[k] == link;
      assert before[owner].byInner[if k < i then k else k + 1] == link;
    }
  }

  /** A listed link of the set that is evicted stands before those not listed. */
  lemma EvictedBefore(l: Links, j: nat, i: nat, done: nat)
    requires LinksOk(l) && Split(l.byInner, i, done) && j < |l.byInner| && l.byInner[j].inner <= done
    ensures j < i && Split(Drop(l, j).byInner, i - 1, done) && Drop(l, j).byInner[i - 1..] == l.byInner[i..]
  {
    hide RemoveAt;
  }

  lemma AllDone(l: Links, i: nat, done: nat)
    requires Split(l.byInner, i, done) && i == |l.byInner|
    ensures forall n: nat :: Has(l, n) ==> n <= done
  {
  }

  lemma DropFields(l: Links, i: nat)
    requires i < |l.byInner|
    ensures Drop(l, i).detached == l.detached && Drop(l, i).nextInner == l.nextInner
    ensures |Drop(l, i).byInner| == |l.byInner| - 1
  {
  }

  lemma TakenOff(list: seq<Handle>, k: nat)
    requires k < |list| && forall i, j :: 0 <= i < j < |list| ==> list[i] != list[j]
    ensures var r := RemoveAt(list, k);
            && (forall i, j :: 0 <= i < j < |r| ==> r[i] != r[j])
            && (forall h :: h in r <==> h in list && h != list[k])
  {
    hide RemoveAt;
    forall h ensures h in RemoveAt(list, k) <==> h in list && h != list[k] { TakenOffOne(list, k, h); }
  }

  lemma TakenOffOne(list: seq<Handle>, k: nat, h: Handle)
    requires k < |list| && forall i, j :: 0 <= i < j < |list| ==> list[i] != list[j]
    ensures h in RemoveAt(list, k) <==> h in list && h != list[k]
  {
    hide RemoveAt;
    var r := RemoveAt(list, k);
    if h in list && h != list[k] {
      var j :| 0 <= j < |list| && list[j] == h;
      assert h == r[if j < k then j else j - 1];
    }
    if h in r {
      var j :| 0 <= j < |r| && r[j] == h;
      assert h == list[if j < k then j else j + 1];
    }
  }

  // ---- Snapshots ----

  const MAX_LINKS: nat := 4999
  const MAX_PARSER_BYTES: nat := 65536
  const INT_MAX: nat := 0x7fff_ffff

  /** A row of the table: the number, the URI and the internal ID. */
  predicate RowOk(row: Link) {
    0 < row.inner <= INT_MAX && |row.uri| <= MAX_HYPERLINK_URI && |row.id| <= MAX_PARSER_BYTES
  }

  /** A table that `hyperlinks_snapshot_validate` accepts: numbers ascend, and no named pair stands
    * twice. */
  predicate TableOk(table: seq<Link>) {
    && |table| <= MAX_LINKS && (forall i :: 0 <= i < |table| ==> RowOk(table[i]))
    && (forall i, j :: 0 <= i < j < |table| ==> table[i].inner < table[j].inner)
    && (forall i, j :: 0 <= i < j < |table| && table[i].id != [] ==> KeyOf(table[i]) != KeyOf(table[j]))
  }

  /** `hyperlinks_snapshot_has`: a binary search. */
  method SnapshotHas(table: seq<Link>, inner: nat) returns (found: bool)
    requires TableOk(table)
    ensures found <==> inner == 0 || exists i :: 0 <= i < |table| && table[i].inner == inner
  {
    if inner == 0 {
      return true;
    }
    var lo, hi := 0, |table|;
    while lo < hi
      invariant lo <= hi <= |table|
      invariant forall i :: 0 <= i < lo ==> table[i].inner < inner
      invariant forall i :: hi <= i < |table| ==> table[i].inner > inner
      decreases hi - lo
    {
      var mid := lo + (hi - lo) / 2;
      if table[mid].inner == inner {
        return true;
      }
      if table[mid].inner < inner {
        lo := mid + 1;
      } else {
        hi := mid;
      }
    }
    return false;
  }

  /** `hyperlinks_snapshot_encode`: the links in ascending order, unless there are too many or one is too
    * long. */
  method SnapshotEncode(l: Links) returns (table: Option<seq<Link>>)
    ensures table == if |l.byInner| <= MAX_LINKS && forall i :: 0 <= i < |l.byInner| ==> EncodableLink(l.byInner[i])
                     then Some(l.byInner) else None
  {
    if |l.byInner| > MAX_LINKS {
      return None;
    }
    var rows := [];
    for i := 0 to |l.byInner|
      invariant rows == l.byInner[..i] && forall k :: 0 <= k < i ==> EncodableLink(l.byInner[k])
    {
      if !EncodableLink(l.byInner[i]) {
        return None;
      }
      rows := rows + [l.byInner[i]];
    }
    assert l.byInner[..|l.byInner|] == l.byInner;
    return Some(rows);
  }

  predicate EncodableLink(link: Link) {
    link.inner <= INT_MAX && |link.uri| <= MAX_HYPERLINK_URI && |link.id| <= MAX_PARSER_BYTES
  }

  /** A set is encoded exactly if its links in ascending order are a table that is accepted. */
  lemma EncodedIsOk(l: Links)
    requires LinksOk(l)
    ensures |l.byInner| <= MAX_LINKS && (forall i :: 0 <= i < |l.byInner| ==> EncodableLink(l.byInner[i]))
       <==> TableOk(l.byInner)
  {
    hide KeyOf;
    forall i, j | 0 <= i < j < |l.byInner| ensures KeyOf(l.byInner[i]) != KeyOf(l.byInner[j]) {
      DifferentKeys(l, i, j);
    }
    assert TableOk(l.byInner) ==> forall i :: 0 <= i < |l.byInner| ==> RowOk(l.byInner[i]);
  }

  /** The links of a table in both trees, as `hyperlinks_snapshot_decode` builds them. */
  method SnapshotDecode(table: seq<Link>) returns (l: Links)
    requires TableOk(table)
    ensures LinksOk(l) && l.byInner == table && l.detached && l.references == 1
    ensures l.nextInner == if table == [] then 1 else table[|table| - 1].inner + 1
  {
    hide KeyOf, TableOk, LinksOk;
    l := Links(1, [], map[], true, 1);
    NoLinks(l);
    for i := 0 to |table|
      invariant LinksOk(l) && l.byInner == table[..i] && l.detached && l.references == 1
      invariant l.nextInner == if i == 0 then 1 else table[i - 1].inner + 1
    {
      NewRow(table, i, l);
      WithLinkOk(l, table[i]);
      l := WithLink(l, table[i]);
      assert table[..i + 1] == table[..i] + [table[i]];
    }
    assert table[..|table|] == table;
  }

  lemma NoLinks(l: Links)
    requires l.byInner == [] && l.byUri == map[] && l.nextInner > 0
    ensures LinksOk(l)
  {
  }

  /** A row of the table is a new link. */
  lemma NewRow(table: seq<Link>, i: nat, l: Links)
    requires TableOk(table) && i < |table| && LinksOk(l) && l.byInner == table[..i]
    requires l.nextInner == if i == 0 then 1 else table[i - 1].inner + 1
    ensures table[i].inner >= l.nextInner && KeyOf(table[i]) !in l.byUri
  {
    assert RowOk(table[i]);
    forall k | k in l.byUri ensures k != KeyOf(table[i]) {
      var j :| 0 <= j < i && table[j] == l.byUri[k];
      assert table[j].inner < table[i].inner;
    }
  }
}
