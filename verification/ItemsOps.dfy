/** Every complete operation on the items keeps the invariant. */
module ItemsOps {
  import opened Base
  import opened ItemsModel
  import opened ItemsParts
  import opened ItemsInv
  import opened ItemsLemmas

  /** Somebody other than the bump buffer holds a reference to the item. */
  predicate Held(s: State, x: Ref) {
    multiset(s.bumps)[x] < s.handles[x]
  }

  lemma InvLive(s: State)
    requires Inv(s)
    ensures (forall x :: x in s.items ==> Live(s, x)) && (forall x :: x in s.handles ==> Live(s, x))
    ensures forall k :: k in s.index ==> Live(s, s.index[k]) && s.items[s.index[k]].linked
  {
  }

  lemma SetHdrKeepsInv(s: State, x: Ref, h: Hdr)
    requires Inv(s) && x in s.items
    requires h.linked == s.items[x].linked && h.seg == s.items[x].seg && h.refcount == s.items[x].refcount
    ensures Inv(SetHdr(s, x, h))
  {
    HdrKeepsIndex(s.items, s.index, x, h);
    HdrKeepsPlaced(s.items, s.lists, x, h);
    HdrKeepsRefs(s.items, s.handles, x, h);
  }

  lemma HoldKeepsInv(s: State, x: Ref)
    requires Inv(s) && x in s.items
    ensures Inv(Hold(s, x)) && Held(Hold(s, x), x)
  {
    var h := s.items[x].(refcount := s.items[x].refcount + 1);
    HdrKeepsIndex(s.items, s.index, x, h);
    HdrKeepsPlaced(s.items, s.lists, x, h);
    HoldKeepsRefs(s.items, s.handles, x);
  }

  /** The assertions of item_free: the last reference is never the link's, and no list still has the item. */
  lemma LastReference(s: State, x: Ref)
    requires Inv(s) && x in s.handles && s.items[x].refcount == 1
    ensures !s.items[x].linked && s.handles[x] == 1 && forall g: nat :: !OnList(s.lists, g, x)
  {
    OnlyOwnList(s.items, s.lists, x);
  }

  lemma DroppedBump(bumps: multiset<Ref>, handles: multiset<Ref>, x: Ref)
    requires bumps <= handles && bumps[x] < handles[x]
    ensures bumps <= handles - multiset{x}
  {
  }

  lemma LastReleaseKeepsInv(s: State, x: Ref)
    requires Inv(s) && Held(s, x) && s.items[x].refcount == 1
    ensures Inv(Release(s, x))
  {
    LastReference(s, x);
    FreeKeepsIndex(s.items, s.index, x);
    FreeKeepsPlaced(s.items, s.lists, x);
    ReleaseKeepsRefs(s.items, s.handles, x);
    DroppedBump(multiset(s.bumps), s.handles, x);
  }

  lemma OtherReleaseKeepsInv(s: State, x: Ref)
    requires Inv(s) && Held(s, x) && s.items[x].refcount > 1
    ensures Inv(Release(s, x))
  {
    var h := s.items[x].(refcount := s.items[x].refcount - 1);
    HdrKeepsIndex(s.items, s.index, x, h);
    HdrKeepsPlaced(s.items, s.lists, x, h);
    ReleaseKeepsRefs(s.items, s.handles, x);
    DroppedBump(multiset(s.bumps), s.handles, x);
  }

  /** An item is freed exactly when its last holder lets go of it and it is not linked. */
  lemma ReleaseKeepsInv(s: State, x: Ref)
    requires Inv(s) && Held(s, x)
    ensures Live(s, x) && Inv(Release(s, x))
    ensures x in Release(s, x).items <==> s.items[x].linked || s.handles[x] > 1
  {
    InvLive(s);
    if s.items[x].refcount == 1 { LastReleaseKeepsInv(s, x); } else { OtherReleaseKeepsInv(s, x); }
  }

  // ---------------------------------------------------------------- link and unlink

  lemma LinkKeepsLists(s: State, x: Ref, now: int)
    requires Inv(s) && x in s.items && !s.items[x].linked
    ensures var t := LinkItem(s, x, now); ListsNoDup(t.lists) && PlacedOk(t.items, t.lists)
  {
    var t := LinkItem(s, x, now);
    OnlyOwnList(s.items, s.lists, x);
    EnqueueRehomes(s.lists, s.items[x].seg, x);
    LinkKeepsPlaced(s.items, s.lists, x, t.items[x], t.lists);
  }

  lemma LinkKeepsCounts(s: State, x: Ref, now: int)
    requires x in s.items
    requires CountedOk(s.lists, s.sizes, s.bytes) && TotalsOk(s.sizes, s.bytes, s.currItems, s.currBytes)
    ensures var t := LinkItem(s, x, now);
            CountedOk(t.lists, t.sizes, t.bytes) && TotalsOk(t.sizes, t.bytes, t.currItems, t.currBytes)
  {
    EnqueueCounts(s.lists, s.sizes, s.bytes, s.items[x].seg, x);
    TotalsUpdate(s.sizes, s.bytes, s.currItems, s.currBytes, s.items[x].seg, 1, x.ntotal);
  }

  lemma LinkKeepsInv(s: State, x: Ref, now: int)
    requires Inv(s) && x in s.items && !s.items[x].linked && x.key !in s.index
    ensures Inv(LinkItem(s, x, now))
  {
    InvLive(s);
    LinkKeepsLists(s, x, now);
    LinkKeepsCounts(s, x, now);
    var h := LinkItem(s, x, now).items[x];
    LinkKeepsIndex(s.items, s.index, x, h);
    LinkKeepsRefs(s.items, s.handles, x, h);
  }

  lemma UnlinkKeepsLists(s: State, x: Ref)
    requires Inv(s) && x in s.items && s.items[x].linked && Live(s, x)
    ensures var t := UnlinkItem(s, x); ListsNoDup(t.lists) && PlacedOk(t.items, t.lists)
  {
    var h := s.items[x].(linked := false, refcount := s.items[x].refcount - 1);
    OnlyOwnList(s.items, s.lists, x);
    DequeueRehomes(s.lists, s.items[x].seg, x);
    UnlinkKeepsPlaced(s.items, s.lists, x, h, UnlinkItem(s, x).lists);
    SameRemoval(s.items, x, s.items[x].(linked := false), h);
  }

  lemma SameRemoval(items: map<Ref, Hdr>, x: Ref, g: Hdr, h: Hdr)
    ensures items[x := g] - {x} == items - {x} && items[x := g][x := h] == items[x := h]
  {
  }

  lemma UnlinkKeepsCounts(s: State, x: Ref)
    requires Live(s, x) && s.items[x].linked && OnList(s.lists, s.items[x].seg, x)
    requires CountedOk(s.lists, s.sizes, s.bytes) && TotalsOk(s.sizes, s.bytes, s.currItems, s.currBytes)
    ensures var t := UnlinkItem(s, x);
            CountedOk(t.lists, t.sizes, t.bytes) && TotalsOk(t.sizes, t.bytes, t.currItems, t.currBytes)
  {
    DequeueCounts(s.lists, s.sizes, s.bytes, s.items[x].seg, x);
    DequeueTotals(s.sizes, s.bytes, s.currItems, s.currBytes, s.items[x].seg, x);
  }

  lemma DequeueTotals(sizes: seq<int>, bytes: seq<int>, items: int, total: int, g: nat, x: Ref)
    requires TotalsOk(sizes, bytes, items, total) && g < |sizes| && g < |bytes|
    ensures TotalsOk(sizes[g := sizes[g] - 1], bytes[g := bytes[g] - x.ntotal], items - 1, total - x.ntotal)
  {
    TotalsUpdate(sizes, bytes, items, total, g, -1, 0 - (x.ntotal as int));
  }

  lemma UnlinkKeepsInv(s: State, x: Ref)
    requires Inv(s) && x in s.items
    ensures Live(s, x) && Inv(UnlinkItem(s, x))
    ensures UnlinkItem(s, x).handles == s.handles && UnlinkItem(s, x).bumps == s.bumps
    ensures x in UnlinkItem(s, x).items <==> x in s.handles
  {
    InvLive(s);
    if s.items[x].linked {
      UnlinkKeepsLists(s, x);
      OnlyOwnList(s.items, s.lists, x);
      UnlinkKeepsCounts(s, x);
      var g := s.items[x].(linked := false);
      var h := g.(refcount := g.refcount - 1);
      SameRemoval(s.items, x, g, h);
      UnlinkKeepsIndex(s.items, s.index, x, h);
      UnlinkKeepsRefs(s.items, s.handles, x, h);
    }
  }

  lemma ReplaceKeepsInv(s: State, x: Ref, y: Ref, now: int)
    requires Inv(s) && x in s.items && y in s.items && x != y && x.key == y.key
    requires s.items[x].linked && !s.items[y].linked
    ensures Live(s, x) && Inv(Replace(s, x, y, now))
  {
    UnlinkKeepsInv(s, x);
    LinkKeepsInv(UnlinkItem(s, x), y, now);
  }

  // ---------------------------------------------------------------- moves between lists

  lemma MoveRehomes(lists: seq<seq<Ref>>, x: Ref, f: nat, g: nat)
    requires ListsNoDup(lists) && f < |lists| && g < |lists| && forall i: nat :: OnList(lists, i, x) ==> i == f
    ensures var mid := lists[f := Without(lists[f], x)];
            var after := mid[g := [x] + mid[g]];
            Rehomed(lists, after, x, Some(g)) && ListsNoDup(after)
  {
    var mid := lists[f := Without(lists[f], x)];
    DequeueRehomes(lists, f, x);
    assert forall i: nat :: !OnList(mid, i, x);
    EnqueueRehomes(mid, g, x);
  }

  lemma MoveCounts(s: State, x: Ref, g: Seg)
    requires x in s.items && OnList(s.lists, s.items[x].seg, x)
    requires CountedOk(s.lists, s.sizes, s.bytes) && TotalsOk(s.sizes, s.bytes, s.currItems, s.currBytes)
    ensures var t := Move(s, x, g);
            CountedOk(t.lists, t.sizes, t.bytes) && TotalsOk(t.sizes, t.bytes, t.currItems, t.currBytes)
  {
    var f := s.items[x].seg;
    var t := Dequeue(s, f, x);
    DequeueCounts(s.lists, s.sizes, s.bytes, f, x);
    DequeueTotals(s.sizes, s.bytes, s.currItems, s.currBytes, f, x);
    EnqueueCounts(t.lists, t.sizes, t.bytes, g, x);
    TotalsUpdate(t.sizes, t.bytes, s.currItems - 1, s.currBytes - x.ntotal, g, 1, x.ntotal);
  }

  /** An item changes lists, or its place on one: it stays linked, and is on exactly one list again. */
  lemma MoveKeepsInv(s: State, x: Ref, g: Seg)
    requires Inv(s) && x in s.items && s.items[x].linked
    ensures Inv(Move(s, x, g))
  {
    InvLive(s);
    var h := s.items[x].(seg := g);
    OnlyOwnList(s.items, s.lists, x);
    MoveRehomes(s.lists, x, s.items[x].seg, g);
    LinkKeepsPlaced(s.items, s.lists, x, h, Move(s, x, g).lists);
    MoveCounts(s, x, g);
    HdrKeepsIndex(s.items, s.index, x, h);
    HdrKeepsRefs(s.items, s.handles, x, h);
  }

  lemma SegBound(seg: nat)
    requires seg < LARGEST_ID
    ensures Clsid(seg) + WARM_LRU < LARGEST_ID && Clsid(seg) + COLD_LRU < LARGEST_ID
  {
  }

  lemma UpdateKeepsInv(s: State, x: Ref, now: int, c: Settings)
    requires Inv(s) && x in s.items
    ensures Inv(UpdateItem(s, x, now, c))
    ensures var t := UpdateItem(s, x, now, c); t.handles == s.handles && t.bumps == s.bumps
  {
    InvLive(s);
    var h := s.items[x];
    if c.segmented && Lruid(h.seg) == COLD_LRU && h.active && h.linked {
      UpdateAndMove(s, x, h.(time := now, active := false), Clsid(h.seg) + WARM_LRU);
    } else if h.linked {
      SetHdrKeepsInv(s, x, h.(time := now));
      UpdateAndMove(s, x, h.(time := now), h.seg);
    }
  }

  lemma UpdateAndMove(s: State, x: Ref, h: Hdr, g: Seg)
    requires Inv(s) && x in s.items && h.linked
    requires h.linked == s.items[x].linked && h.seg == s.items[x].seg && h.refcount == s.items[x].refcount
    ensures var t := Move(SetHdr(s, x, h), x, g); Inv(t) && t.handles == s.handles && t.bumps == s.bumps
  {
    SetHdrKeepsInv(s, x, h);
    MoveKeepsInv(SetHdr(s, x, h), x, g);
  }

  // ---------------------------------------------------------------- fetch

  lemma BumpAsyncKeepsInv(s: State, x: Ref)
    requires Inv(s) && x in s.items
    ensures Inv(BumpAsync(s, x, true))
  {
    HoldKeepsInv(s, x);
    assert multiset(s.bumps + [x]) == multiset(s.bumps) + multiset{x};
  }

  lemma BumpKeepsInv(s: State, x: Ref, now: int, c: Settings, room: bool)
    requires Inv(s) && x in s.items
    ensures Inv(BumpItem(s, x, now, c, room))
  {
    InvLive(s);
    var h := s.items[x];
    SetHdrKeepsInv(s, x, h.(fetched := true));
    UpdateKeepsInv(SetHdr(s, x, h.(fetched := true)), x, now, c);
    SetHdrKeepsInv(s, x, h.(active := true, time := now));
    SetHdrKeepsInv(s, x, h.(active := true));
    BumpAsyncKeepsInv(SetHdr(s, x, h.(active := true)), x);
  }

  lemma SurvivesUnlink(s: State, x: Ref)
    requires Inv(s) && x in s.items
    ensures Inv(Hold(s, x)) && Live(Hold(s, x), x)
    ensures var t := UnlinkItem(Hold(s, x), x); Inv(t) && Held(t, x) && Live(t, x)
  {
    HoldKeepsInv(s, x);
    UnlinkKeepsInv(Hold(s, x), x);
    InvLive(UnlinkItem(Hold(s, x), x));
  }

  /** Unlink and release by somebody who has just taken hold of the item: all it took is given back. */
  lemma ReapKeepsInv(s: State, x: Ref)
    requires Inv(s) && x in s.items
    ensures Live(Hold(s, x), x) && Live(UnlinkItem(Hold(s, x), x), x)
    ensures var t := Release(UnlinkItem(Hold(s, x), x), x);
            Inv(t) && t.handles == s.handles && t.bumps == s.bumps
  {
    SurvivesUnlink(s, x);
    ReleaseKeepsInv(UnlinkItem(Hold(s, x), x), x);
    ReapKeepsHandles(s, x);
  }

  lemma UnlinkKeepsHandles(s: State, x: Ref)
    requires Live(s, x)
    ensures UnlinkItem(s, x).handles == s.handles && UnlinkItem(s, x).bumps == s.bumps
  {
  }

  lemma ReleaseHandles(s: State, x: Ref)
    requires Live(s, x)
    ensures Release(s, x).handles == s.handles - multiset{x} && Release(s, x).bumps == s.bumps
  {
  }

  lemma ReapKeepsHandles(s: State, x: Ref)
    requires x in s.items && Live(UnlinkItem(Hold(s, x), x), x)
    ensures var t := Release(UnlinkItem(Hold(s, x), x), x); t.handles == s.handles && t.bumps == s.bumps
  {
    UnlinkKeepsHandles(Hold(s, x), x);
    ReleaseHandles(UnlinkItem(Hold(s, x), x), x);
    assert s.handles + multiset{x} - multiset{x} == s.handles;
  }

  lemma GetKeepsInv(s: State, k: Key, flushed: bool, now: int, c: Settings, update: bool, room: bool)
    requires Inv(s)
    ensures (k in s.index ==> Live(s, s.index[k]))
    ensures Inv(GetItem(s, k, flushed, now, c, update, room).0)
  {
    InvLive(s);
    if k in s.index {
      var x := s.index[k];
      HoldKeepsInv(s, x);
      ReapKeepsInv(s, x);
      BumpKeepsInv(Hold(s, x), x, now, c, room);
    }
  }

  // ---------------------------------------------------------------- the crawler

  lemma HoldReleaseKeepsInv(s: State, x: Ref)
    requires Inv(s) && x in s.items
    ensures Live(Hold(s, x), x)
    ensures var t := Release(Hold(s, x), x); Inv(t) && t.handles == s.handles && t.bumps == s.bumps
  {
    HoldKeepsInv(s, x);
    ReleaseKeepsInv(Hold(s, x), x);
  }

  /** The crawler gives back the reference it takes, whatever it decides about the item. */
  lemma CrawlKeepsInv(s: State, x: Ref, flushed: bool, now: int)
    requires Inv(s) && x in s.items
    ensures Live(s, x)
    ensures var t := CrawlItem(s, x, flushed, now); Inv(t) && t.handles == s.handles && t.bumps == s.bumps
  {
    InvLive(s);
    ReapKeepsInv(s, x);
    HoldReleaseKeepsInv(s, x);
  }
}
