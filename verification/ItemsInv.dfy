/** What every complete operation on the items keeps, part by part. */
module ItemsParts {
  import opened Base
  import opened ItemsModel

  ghost predicate OnList(lists: seq<seq<Ref>>, g: nat, x: Ref) {
    g < |lists| && x in lists[g]
  }

  /** An item is linked exactly when the index finds it under its key. */
  ghost predicate IndexOk(items: map<Ref, Hdr>, index: map<Key, Ref>) {
    && (forall k :: k in index ==> index[k].key == k && index[k] in items && items[index[k]].linked)
    && (forall x :: x in items && items[x].linked ==> x.key in index && index[x.key] == x)
  }

  ghost predicate ListsNoDup(lists: seq<seq<Ref>>) {
    |lists| == LARGEST_ID && forall g :: 0 <= g < |lists| ==> NoDup(lists[g])
  }

  /** An item is linked exactly when it is on a list, and then only on its own. */
  ghost predicate PlacedOk(items: map<Ref, Hdr>, lists: seq<seq<Ref>>) {
    && (forall g: nat, x :: OnList(lists, g, x) ==> x in items && items[x].linked && items[x].seg == g)
    && (forall x :: x in items && items[x].linked ==> OnList(lists, items[x].seg, x))
  }

  function Weight(l: seq<Ref>): nat {
    if l == [] then 0 else l[0].ntotal + Weight(l[1..])
  }

  ghost predicate CountedOk(lists: seq<seq<Ref>>, sizes: seq<int>, bytes: seq<int>) {
    && |sizes| == |lists| && |bytes| == |lists|
    && forall g :: 0 <= g < |lists| ==> sizes[g] == |lists[g]| && bytes[g] == Weight(lists[g])
  }

  function Sum(q: seq<int>): int {
    if q == [] then 0 else q[0] + Sum(q[1..])
  }

  ghost predicate TotalsOk(sizes: seq<int>, bytes: seq<int>, currItems: int, currBytes: int) {
    currItems == Sum(sizes) && currBytes == Sum(bytes)
  }

  /** The reference count is the number of holders, plus one for the link; an item in use has at least one. */
  ghost predicate RefsOk(items: map<Ref, Hdr>, handles: multiset<Ref>) {
    && (forall x :: x in items ==>
          items[x].refcount > 0 && items[x].refcount == handles[x] + if items[x].linked then 1 else 0)
    && (forall x :: x in handles ==> x in items)
  }
}

module ItemsInv {
  import opened ItemsModel
  import opened ItemsParts

  ghost predicate Inv(s: State) {
    && IndexOk(s.items, s.index)
    && ListsNoDup(s.lists) && PlacedOk(s.items, s.lists)
    && CountedOk(s.lists, s.sizes, s.bytes) && TotalsOk(s.sizes, s.bytes, s.currItems, s.currBytes)
    && RefsOk(s.items, s.handles) && multiset(s.bumps) <= s.handles
  }
}

/** The parts under the steps the operations are made of. */
module ItemsLemmas {
  import opened Base
  import opened ItemsModel
  import opened ItemsParts

  // ---------------------------------------------------------------- a header changes

  lemma HdrKeepsIndex(items: map<Ref, Hdr>, index: map<Key, Ref>, x: Ref, h: Hdr)
    requires IndexOk(items, index) && x in items && h.linked == items[x].linked
    ensures IndexOk(items[x := h], index)
  {
  }

  lemma HdrKeepsPlaced(items: map<Ref, Hdr>, lists: seq<seq<Ref>>, x: Ref, h: Hdr)
    requires PlacedOk(items, lists) && x in items && h.linked == items[x].linked && h.seg == items[x].seg
    ensures PlacedOk(items[x := h], lists)
  {
  }

  lemma HdrKeepsRefs(items: map<Ref, Hdr>, handles: multiset<Ref>, x: Ref, h: Hdr)
    requires RefsOk(items, handles) && x in items && h.linked == items[x].linked && h.refcount == items[x].refcount
    ensures RefsOk(items[x := h], handles)
  {
  }

  // ---------------------------------------------------------------- references

  lemma HoldKeepsRefs(items: map<Ref, Hdr>, handles: multiset<Ref>, x: Ref)
    requires RefsOk(items, handles) && x in items
    ensures RefsOk(items[x := items[x].(refcount := items[x].refcount + 1)], handles + multiset{x})
  {
  }

  lemma ReleaseKeepsRefs(items: map<Ref, Hdr>, handles: multiset<Ref>, x: Ref)
    requires RefsOk(items, handles) && x in handles
    ensures items[x].refcount == 1 ==> RefsOk(items - {x}, handles - multiset{x})
    ensures items[x].refcount > 1 ==>
              RefsOk(items[x := items[x].(refcount := items[x].refcount - 1)], handles - multiset{x})
  {
  }

  lemma LinkKeepsRefs(items: map<Ref, Hdr>, handles: multiset<Ref>, x: Ref, h: Hdr)
    requires RefsOk(items, handles) && x in items && !items[x].linked
    requires h.linked && h.refcount == items[x].refcount + 1
    ensures RefsOk(items[x := h], handles)
  {
  }

  lemma UnlinkKeepsRefs(items: map<Ref, Hdr>, handles: multiset<Ref>, x: Ref, h: Hdr)
    requires RefsOk(items, handles) && x in items && items[x].linked && !h.linked
    ensures items[x].refcount == 1 ==> RefsOk(items - {x}, handles)
    ensures items[x].refcount > 1 && h.refcount == items[x].refcount - 1 ==> RefsOk(items[x := h], handles)
  {
  }

  // ---------------------------------------------------------------- the index

  lemma LinkKeepsIndex(items: map<Ref, Hdr>, index: map<Key, Ref>, x: Ref, h: Hdr)
    requires IndexOk(items, index) && x.key !in index && h.linked
    ensures IndexOk(items[x := h], index[x.key := x])
  {
  }

  lemma UnlinkKeepsIndex(items: map<Ref, Hdr>, index: map<Key, Ref>, x: Ref, h: Hdr)
    requires IndexOk(items, index) && x in items && items[x].linked && !h.linked
    ensures IndexOk(items[x := h], index - {x.key}) && IndexOk(items - {x}, index - {x.key})
  {
  }

  lemma FreeKeepsIndex(items: map<Ref, Hdr>, index: map<Key, Ref>, x: Ref)
    requires IndexOk(items, index) && (x in items ==> !items[x].linked)
    ensures IndexOk(items - {x}, index)
  {
  }

  // ---------------------------------------------------------------- the lists

  /** x is now on list g, or on none; everything else is where it was. */
  ghost predicate Rehomed(lists: seq<seq<Ref>>, after: seq<seq<Ref>>, x: Ref, g: Option<nat>) {
    && |after| == |lists|
    && (forall f: nat, y :: OnList(after, f, y) <==> if y == x then g == Some(f) else OnList(lists, f, y))
  }

  lemma EnqueueRehomes(lists: seq<seq<Ref>>, g: nat, x: Ref)
    requires ListsNoDup(lists) && g < |lists| && forall f: nat :: !OnList(lists, f, x)
    ensures var after := lists[g := [x] + lists[g]]; Rehomed(lists, after, x, Some(g)) && ListsNoDup(after)
  {
    var after := lists[g := [x] + lists[g]];
    assert !OnList(lists, g, x);
    forall f: nat, y ensures OnList(after, f, y) <==> if y == x then Some(g) == Some(f) else OnList(lists, f, y) {
      assert y == x ==> !OnList(lists, f, y);
    }
  }

  lemma DequeueRehomes(lists: seq<seq<Ref>>, g: nat, x: Ref)
    requires ListsNoDup(lists) && g < |lists| && forall f: nat :: OnList(lists, f, x) ==> f == g
    ensures var after := lists[g := Without(lists[g], x)]; Rehomed(lists, after, x, None) && ListsNoDup(after)
  {
    var after := lists[g := Without(lists[g], x)];
    WithoutIsRemoval(lists[g], x);
    forall f: nat, y ensures OnList(after, f, y) <==> y != x && OnList(lists, f, y) {
      assert y == x && OnList(lists, f, y) ==> f == g;
    }
  }

  lemma LinkKeepsPlaced(items: map<Ref, Hdr>, lists: seq<seq<Ref>>, x: Ref, h: Hdr, after: seq<seq<Ref>>)
    requires PlacedOk(items, lists) && h.linked && h.seg < |lists| && Rehomed(lists, after, x, Some(h.seg))
    ensures PlacedOk(items[x := h], after)
  {
  }

  lemma UnlinkKeepsPlaced(items: map<Ref, Hdr>, lists: seq<seq<Ref>>, x: Ref, h: Hdr, after: seq<seq<Ref>>)
    requires PlacedOk(items, lists) && !h.linked && Rehomed(lists, after, x, None)
    ensures PlacedOk(items[x := h], after) && PlacedOk(items - {x}, after)
  {
  }

  lemma FreeKeepsPlaced(items: map<Ref, Hdr>, lists: seq<seq<Ref>>, x: Ref)
    requires PlacedOk(items, lists) && (x in items ==> !items[x].linked)
    ensures PlacedOk(items - {x}, lists)
  {
  }

  lemma OnlyOwnList(items: map<Ref, Hdr>, lists: seq<seq<Ref>>, x: Ref)
    requires PlacedOk(items, lists) && x in items
    ensures forall f: nat :: OnList(lists, f, x) <==> items[x].linked && f == items[x].seg
  {
  }

  // ---------------------------------------------------------------- the counters

  lemma {:induction false} SumUpdate(q: seq<int>, i: nat, v: int)
    requires i < |q|
    ensures Sum(q[i := v]) == Sum(q) - q[i] + v
  {
    if i == 0 {
      assert q[i := v][1..] == q[1..];
    } else {
      SumUpdate(q[1..], i - 1, v);
      assert q[i := v][1..] == q[1..][i - 1 := v];
    }
  }

  lemma {:induction false} WithoutWeight(l: seq<Ref>, x: Ref)
    requires x in l
    ensures |Without(l, x)| == |l| - 1 && Weight(Without(l, x)) == Weight(l) - x.ntotal
  {
    if l[0] != x {
      WithoutWeight(l[1..], x);
      assert ([l[0]] + Without(l[1..], x))[1..] == Without(l[1..], x);
    }
  }

  lemma EnqueueCounts(lists: seq<seq<Ref>>, sizes: seq<int>, bytes: seq<int>, g: nat, x: Ref)
    requires CountedOk(lists, sizes, bytes) && g < |lists|
    ensures CountedOk(lists[g := [x] + lists[g]], sizes[g := sizes[g] + 1], bytes[g := bytes[g] + x.ntotal])
  {
    assert ([x] + lists[g])[1..] == lists[g];
  }

  lemma DequeueCounts(lists: seq<seq<Ref>>, sizes: seq<int>, bytes: seq<int>, g: nat, x: Ref)
    requires CountedOk(lists, sizes, bytes) && g < |lists| && x in lists[g]
    ensures CountedOk(lists[g := Without(lists[g], x)], sizes[g := sizes[g] - 1], bytes[g := bytes[g] - x.ntotal])
  {
    WithoutWeight(lists[g], x);
  }

  lemma TotalsUpdate(sizes: seq<int>, bytes: seq<int>, items: int, total: int, g: nat, n: int, b: int)
    requires TotalsOk(sizes, bytes, items, total) && g < |sizes| && g < |bytes|
    ensures TotalsOk(sizes[g := sizes[g] + n], bytes[g := bytes[g] + b], items + n, total + b)
  {
    SumUpdate(sizes, g, sizes[g] + n);
    SumUpdate(bytes, g, bytes[g] + b);
  }
}
