/** Deletes, closes and the maintenance thread keep the invariant. */
module ExtstoreMaint {
  import opened Base
  import opened ExtstoreTypes
  import opened ExtstoreShape
  import opened ExtstoreModel
  import opened ExtstoreParts
  import opened ExtstoreInv
  import opened ExtstoreWrites
  import opened ExtstoreReads

  // ---------------------------------------------------------------- deletes and closes

  /** Closing a page or changing its usage counters touches nothing the invariant ties to other objects. */
  lemma UsageChangeKeepsInv(s: State, p: nat, q: Page, bytesUsed: int, objectsUsed: int)
    requires Inv(s) && p < s.c.pageCount
    requires q == s.pages[p].(closed := q.closed, objCount := q.objCount, bytesUsed := q.bytesUsed)
    requires s.pages[p].free ==> q.objCount == 0 && q.bytesUsed == 0
    ensures Inv(s.(pages := s.pages[p := q], bytesUsed := bytesUsed, objectsUsed := objectsUsed))
  {
    assert PageOk(s.c, s.pages[p], s.wbufs, s.version);
    PageChangeKeepsPages(s.c, s.pages, s.wbufs, s.version, p, q);
    QuietPageChange(s, p, q);
    UsageChangeKeepsLog(s, p, q);
    assert Owners(s.pages[p := q]) == Owners(s.pages) && Allocs(s.pages[p := q]) == Allocs(s.pages);
  }

  lemma UsageChangeKeepsLog(s: State, p: nat, q: Page)
    requires LogOk(s.c, s.pages, s.wbufs, s.disk, s.log) && p < |s.pages|
    requires q == s.pages[p].(closed := q.closed, objCount := q.objCount, bytesUsed := q.bytesUsed)
    ensures LogOk(s.c, s.pages[p := q], s.wbufs, s.disk, s.log)
  {
    forall h | h in s.log && h.page == p ensures EntryOk(s.c, q, s.wbufs, s.disk[p], h, s.log[h]) {
      assert EntryOk(s.c, s.pages[p], s.wbufs, s.disk[p], h, s.log[h]);
    }
    PageChangeKeepsLog(s.c, s.pages, s.wbufs, s.disk, s.log, p, q);
  }

  lemma DeleteKeepsInv(s: State, p: nat, version: nat, count: nat, bytes: nat)
    requires Inv(s) && p < s.c.pageCount
    ensures Inv(Delete(s, p, version, count, bytes))
  {
    assert PageOk(s.c, s.pages[p], s.wbufs, s.version);
    if !s.pages[p].closed && s.pages[p].version == version {
      var t := Delete(s, p, version, count, bytes);
      UsageChangeKeepsInv(s, p, t.pages[p], t.bytesUsed, t.objectsUsed);
    }
  }

  lemma ClosePageKeepsInv(s: State, p: nat, version: nat)
    requires Inv(s) && p < s.c.pageCount
    ensures Inv(ClosePage(s, p, version))
  {
    assert PageOk(s.c, s.pages[p], s.wbufs, s.version);
    if !s.pages[p].closed && s.pages[p].version == version {
      UsageChangeKeepsInv(s, p, s.pages[p].(closed := true), s.bytesUsed, s.objectsUsed);
    }
  }

  // ---------------------------------------------------------------- freeing a page

  /** A page that may be freed: in use, no longer written to, nobody reading it, not the eviction candidate. */
  predicate Freeable(s: State, p: nat) {
    && p < |s.pages| && !s.pages[p].free && !s.pages[p].active && s.pages[p].refcount == 0
    && (s.maint.Scanning? && s.maint.low.Some? ==> s.maint.low.value.page != p)
  }

  function Freed(pg: Page): Page {
    pg.(version := 0, objCount := 0, bytesUsed := 0, alloc := 0, written := 0,
        bucket := 0, active := false, closed := false, free := true)
  }

  lemma FreeKeepsLists(s: State, p: nat)
    requires WellFormed(s) && ListsOk(Homes(s.pages), ListsOf(s)) && p < s.c.pageCount && !s.pages[p].free
    ensures var t := FreePage(s, p); ListsOk(Homes(t.pages), ListsOf(t))
    ensures p >= 1 && p in s.buckets[s.pages[p].bucket]
  {
    var t := FreePage(s, p);
    var b := s.pages[p].bucket;
    var l, m := ListsOf(s), ListsOf(t);
    var to := Home(t.pages[p]);
    assert Homes(s.pages)[p] == InBucket(b) && Homes(s.pages)[0] != InBucket(b);
    assert On(l, InBucket(b), p);
    assert NoDup(ListAt(l, InBucket(b)));
    WithoutIsRemoval(s.buckets[b], p);
    assert ListAt(m, InBucket(b)) == Without(ListAt(l, InBucket(b)), p);
    MoveList(Homes(s.pages), l, m, p, InBucket(b), to);
    FreeHomes(s, p);
  }

  lemma FreeHomes(s: State, p: nat)
    requires WellFormed(s) && p < s.c.pageCount
    ensures var t := FreePage(s, p); p < |t.pages| && Homes(t.pages) == Homes(s.pages)[p := Home(t.pages[p])]
  {
  }

  lemma FreeKeepsCount(s: State, p: nat)
    requires WellFormed(s) && 1 <= p < s.c.pageCount && !s.pages[p].free && s.pageFree == |FreeSet(Homes(s.pages))|
    ensures var t := FreePage(s, p); t.pageFree == |FreeSet(Homes(t.pages))|
  {
    var t := FreePage(s, p);
    FreeSetReturned(Homes(s.pages), p, Home(t.pages[p]));
    assert Homes(t.pages) == Homes(s.pages)[p := Home(t.pages[p])];
  }

  lemma FreeKeepsShape(s: State, p: nat)
    requires WellFormed(s) && p < s.c.pageCount
    requires ListsOk(Homes(FreePage(s, p).pages), ListsOf(FreePage(s, p)))
    ensures WellFormed(FreePage(s, p))
  {
    ListRefsFromLists(FreePage(s, p));
  }

  /** The chain that loses a page keeps its form, and no other chain held it. */
  lemma FreeKeepsChain(c: Config, a: seq<nat>, p: nat, chain: seq<nat>, w: Writer)
    requires ChainOk(c, a, chain, w) && NoDup(chain) && p < |a|
    ensures ChainOk(c, a[p := 0], Without(chain, p), w)
  {
    WithoutIsRemoval(chain, p);
    var rest := Without(chain, p);
    forall j | 1 <= j < |rest| ensures Filled(c, a[p := 0], rest[j]) {
      assert rest[j] in chain[1..] && rest[j] != p;
    }
    if w.Holding? {
      forall j | 0 <= j < |rest| && rest[j] != w.page ensures Filled(c, a[p := 0], rest[j]) {
        assert rest[j] in chain && rest[j] != p;
      }
    }
    if w.NeedPage? {
      forall j | 0 <= j < |rest| ensures Filled(c, a[p := 0], rest[j]) {
        assert rest[j] in chain && rest[j] != p;
      }
    }
  }

  lemma OtherChainKept(c: Config, a: seq<nat>, p: nat, chain: seq<nat>, w: Writer)
    requires ChainOk(c, a, chain, w) && p < |a| && p !in chain
    ensures ChainOk(c, a[p := 0], chain, w)
  {
    assert forall j :: 0 <= j < |chain| ==> chain[j] != p;
  }

  lemma FreeKeepsChains(s: State, p: nat)
    requires WellFormed(s) && ListsOk(Homes(s.pages), ListsOf(s)) && p < s.c.pageCount && !s.pages[p].free
    requires ChainsOk(s.c, Allocs(s.pages), s.buckets, s.writers)
    ensures var t := FreePage(s, p); ChainsOk(t.c, Allocs(t.pages), t.buckets, t.writers)
  {
    var t := FreePage(s, p);
    var b := s.pages[p].bucket;
    var a := Allocs(s.pages);
    assert Allocs(t.pages) == a[p := 0];
    forall k | 0 <= k < |t.buckets| ensures ChainOk(t.c, Allocs(t.pages), t.buckets[k], t.writers[k]) {
      assert ChainOk(s.c, a, s.buckets[k], s.writers[k]);
      assert NoDup(ListAt(ListsOf(s), InBucket(k)));
      if k == b {
        FreeKeepsChain(s.c, a, p, s.buckets[b], s.writers[b]);
      } else {
        assert !On(ListsOf(s), InBucket(k), p);
        OtherChainKept(s.c, a, p, s.buckets[k], s.writers[k]);
      }
    }
  }

  lemma FreedPageOk(c: Config, pages: seq<Page>, wbufs: seq<Wbuf>, version: nat, p: nat)
    requires PagesOk(c, pages, wbufs, version) && AlignedOk(c, pages)
    requires p < |pages| && !pages[p].free && !pages[p].active
    ensures PagesOk(c, pages[p := Freed(pages[p])], wbufs, version) && AlignedOk(c, pages[p := Freed(pages[p])])
    ensures Owners(pages[p := Freed(pages[p])]) == Owners(pages) && pages[p].wbuf.None?
  {
    assert PageOk(c, pages[p], wbufs, version);
    PageChangeKeepsPages(c, pages, wbufs, version, p, Freed(pages[p]));
  }

  /** No read holds a page whose reference count is zero, and version 0 matches no handle. */
  lemma FreedPageUnread(s: State, p: nat)
    requires p < |s.pages| && s.pages[p].refcount == 0
    requires RefcountsOk(s.pages, s.rds) && ReadsOk(s.pages, s.log, s.rds)
    ensures var pages := s.pages[p := Freed(s.pages[p])]; RefcountsOk(pages, s.rds) && ReadsOk(pages, s.log, s.rds)
  {
    var pages := s.pages[p := Freed(s.pages[p])];
    assert Holders(s.rds, p) == {};
    forall r | r in s.rds ensures ReadOk(pages, s.log, s.rds[r]) {
      assert r !in Holders(s.rds, p);
      assert ReadOk(s.pages, s.log, s.rds[r]);
    }
  }

  lemma FreedPageForgotten(s: State, p: nat)
    requires p < |s.pages| && LogOk(s.c, s.pages, s.wbufs, s.disk, s.log) && HandlesOk(s.version, s.log)
    ensures LogOk(s.c, s.pages[p := Freed(s.pages[p])], s.wbufs, s.disk, s.log)
  {
    PageChangeKeepsLog(s.c, s.pages, s.wbufs, s.disk, s.log, p, Freed(s.pages[p]));
  }

  lemma FreeKeepsInv(s: State, p: nat)
    requires Inv(s) && Freeable(s, p)
    ensures Inv(FreePage(s, p))
  {
    FreeKeepsLists(s, p);
    FreeKeepsCount(s, p);
    FreeKeepsShape(s, p);
    FreeKeepsChains(s, p);
    FreedPageOk(s.c, s.pages, s.wbufs, s.version, p);
    FreedPageUnread(s, p);
    FreedPageForgotten(s, p);
  }

  // ---------------------------------------------------------------- the maintenance thread

  lemma MaintChangeKeepsInv(s: State, m: Maint)
    requires Inv(s) && MaintRefs(s.c, m) && MaintOk(s.pages, m)
    ensures Inv(s.(maint := m))
  {
  }

  lemma MaintWakeKeepsInv(s: State)
    requires Inv(s)
    ensures Inv(MaintWake(s))
  {
    MaintChangeKeepsInv(s, MaintWake(s).maint);
  }

  /** The scanner moves on; a page about to be reclaimed is not its candidate. */
  lemma ScanOnKeepsInv(s: State, evict: bool)
    requires Inv(s) && s.maint.Scanning? && s.maint.next < s.c.pageCount
    ensures Inv(ScannedOn(s, evict)) && (Reclaimable(s.pages[s.maint.next]) ==> Freeable(ScannedOn(s, evict), s.maint.next))
  {
    var i := s.maint.next;
    LowerStaysGood(s, s.maint.low, i, evict);
    MaintChangeKeepsInv(s, Scanning(i + 1, evict, Lower(s.maint.low, i, s.pages[i])));
  }

  lemma MaintScanKeepsInv(s: State)
    requires Inv(s) && s.maint.Scanning? && s.maint.next < s.c.pageCount
    ensures Inv(MaintScan(s))
  {
    var i := s.maint.next;
    if Reclaimable(s.pages[i]) {
      ScanOnKeepsInv(s, false);
      FreeKeepsInv(ScannedOn(s, false), i);
    } else {
      ScanOnKeepsInv(s, s.maint.evict);
    }
  }

  /** The new candidate is in order, and it is never a page that is about to be reclaimed. */
  lemma LowerStaysGood(s: State, low: Option<Victim>, i: nat, evict: bool)
    requires i < |s.pages| && (low.Some? ==> low.value.page < i)
    requires MaintOk(s.pages, Scanning(i, evict, low))
    ensures var l := Lower(low, i, s.pages[i]);
            && MaintOk(s.pages, Scanning(i + 1, evict, l))
            && (l.Some? ==> l.value.page < i + 1)
            && (l.Some? && Reclaimable(s.pages[i]) ==> l.value.page != i)
  {
  }

  lemma MaintEvictKeepsInv(s: State)
    requires Inv(s) && s.maint.Scanning? && s.maint.next == s.c.pageCount
    ensures Inv(MaintEvict(s))
  {
    var t := s.(maint := Waiting);
    MaintChangeKeepsInv(s, Waiting);
    if s.maint.evict && s.maint.low.Some? && !s.pages[s.maint.low.value.page].closed {
      var p := s.maint.low.value.page;
      var q := t.pages[p].(closed := true);
      UsageChangeKeepsInv(t, p, q, t.bytesUsed, t.objectsUsed);
      var u := t.(pages := t.pages[p := q]);
      if s.pages[p].refcount == 0 { FreeKeepsInv(u, p); }
    }
  }
}
