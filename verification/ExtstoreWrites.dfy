/** The critical sections of a writer keep the invariant. */
module ExtstoreWrites {
  import opened Base
  import opened ExtstoreTypes
  import opened ExtstoreShape
  import opened ExtstoreModel
  import opened ExtstoreParts
  import opened ExtstoreInv

  // ---------------------------------------------------------------- pages changing lists

  /** A page leaves one list for the head of another. */
  lemma MoveList(homes: seq<Where>, l: Lists, m: Lists, p: nat, from: Where, to: Where)
    requires ListsOk(homes, l) && 1 <= p < |homes| && homes[p] == from && from != to
    requires NoDup(ListAt(m, from)) && forall x: nat :: On(m, from, x) <==> On(l, from, x) && x != p
    requires ListAt(m, to) == [p] + ListAt(l, to)
    requires forall at: Where :: at != from && at != to ==> ListAt(m, at) == ListAt(l, at)
    ensures ListsOk(homes[p := to], m)
  {
    var h := homes[p := to];
    assert !On(l, to, p);
    forall i | 1 <= i < |h| ensures On(m, h[i], i) {
      assert On(l, homes[i], i);
    }
    forall at: Where ensures NoDup(ListAt(m, at)) {
      assert NoDup(ListAt(l, at));
    }
    forall at: Where, x: nat | On(m, at, x) ensures 1 <= x < |h| && h[x] == at {
      if !(at == to && x == p) { assert On(l, at, x); }
    }
  }

  lemma FreeSetTaken(homes: seq<Where>, p: nat, k: nat)
    requires 1 <= p < |homes| && !homes[p].InBucket?
    ensures |FreeSet(homes)| > 0 && |FreeSet(homes[p := InBucket(k)])| == |FreeSet(homes)| - 1
  {
    assert p in FreeSet(homes);
    assert FreeSet(homes[p := InBucket(k)]) == FreeSet(homes) - {p};
  }

  lemma FreeSetReturned(homes: seq<Where>, p: nat, to: Where)
    requires 1 <= p < |homes| && homes[p].InBucket? && !to.InBucket?
    ensures |FreeSet(homes[p := to])| == |FreeSet(homes)| + 1
  {
    assert FreeSet(homes[p := to]) == FreeSet(homes) + {p};
    assert p !in FreeSet(homes);
  }

  /** The page _allocate_page pops is free, and pushing it on bucket `k` keeps every page on its list. */
  lemma PopMovesPage(homes: seq<Where>, l: Lists, k: nat, fb: nat)
    requires ListsOk(homes, l) && k < |l.buckets| && fb < |l.freeBuckets|
    ensures var (fl, fbs, op) := PopFree(l.freeList, l.freeBuckets, fb);
            && |fbs| == |l.freeBuckets| && (op.None? ==> fl == l.freeList && fbs == l.freeBuckets)
            && (op.Some? ==>
                  && 1 <= op.value < |homes| && !homes[op.value].InBucket?
                  && ListsOk(homes[op.value := InBucket(k)], Lists(fl, fbs, l.buckets[k := [op.value] + l.buckets[k]])))
  {
    var (fl, fbs, op) := PopFree(l.freeList, l.freeBuckets, fb);
    if op.Some? {
      var p := op.value;
      var m := Lists(fl, fbs, l.buckets[k := [p] + l.buckets[k]]);
      var from := if fb != 0 && l.freeBuckets[fb] != [] then FreeIn(fb) else FreeDefault;
      assert On(l, from, p);
      assert NoDup(ListAt(l, from)) && ListAt(l, from) == [p] + ListAt(m, from);
      MoveList(homes, l, m, p, from, InBucket(k));
    }
  }

  lemma ListRefsFromLists(t: State)
    requires ListsOk(Homes(t.pages), ListsOf(t)) && |t.pages| == t.c.pageCount
    ensures ListRefs(t.c, t.freeList, t.freeBuckets, t.buckets)
  {
    var l := ListsOf(t);
    forall i | 0 <= i < |t.freeList| ensures t.freeList[i] < t.c.pageCount {
      assert On(l, FreeDefault, t.freeList[i]);
    }
    forall k | 0 <= k < |t.freeBuckets| ensures InRange(t.freeBuckets[k], t.c.pageCount) {
      forall i | 0 <= i < |t.freeBuckets[k]| ensures t.freeBuckets[k][i] < t.c.pageCount {
        assert On(l, FreeIn(k), t.freeBuckets[k][i]);
      }
    }
    forall k | 0 <= k < |t.buckets| ensures InRange(t.buckets[k], t.c.pageCount) {
      forall i | 0 <= i < |t.buckets[k]| ensures t.buckets[k][i] < t.c.pageCount {
        assert On(l, InBucket(k), t.buckets[k][i]);
      }
    }
  }

  lemma TakenPageOk(s: State, p: nat, q: Page)
    requires PagesOk(s.c, s.pages, s.wbufs, s.version) && p < |s.pages| && s.pages[p].free
    requires q == Taken(s.pages[p], q.bucket, s.version)
    requires 0 < s.version && 0 < s.c.pageSize
    ensures PagesOk(s.c, s.pages[p := q], s.wbufs, s.version + 1)
  {
    assert PageOk(s.c, s.pages[p], s.wbufs, s.version);
    var pages := s.pages[p := q];
    forall i | 0 <= i < |pages| ensures PageOk(s.c, pages[i], s.wbufs, s.version + 1) {
      assert PageOk(s.c, s.pages[i], s.wbufs, s.version);
    }
  }

  /** A page that was free had no reader, and no stored object can name its new version. */
  lemma TakenPageUnseen(s: State, p: nat, q: Page)
    requires p < |s.pages| && s.pages[p].free && s.pages[p].version == 0
    requires q == Taken(s.pages[p], q.bucket, s.version)
    requires RefcountsOk(s.pages, s.rds) && ReadsOk(s.pages, s.log, s.rds)
    requires LogOk(s.c, s.pages, s.wbufs, s.disk, s.log) && HandlesOk(s.version, s.log)
    ensures RefcountsOk(s.pages[p := q], s.rds) && ReadsOk(s.pages[p := q], s.log, s.rds)
    ensures LogOk(s.c, s.pages[p := q], s.wbufs, s.disk, s.log) && HandlesOk(s.version + 1, s.log)
  {
    var pages := s.pages[p := q];
    forall r | r in s.rds ensures ReadOk(pages, s.log, s.rds[r]) { assert ReadOk(s.pages, s.log, s.rds[r]); }
    forall h | h in s.log ensures h.page < |pages| && EntryOk(s.c, pages[h.page], s.wbufs, s.disk[h.page], h, s.log[h]) {
      assert EntryOk(s.c, s.pages[h.page], s.wbufs, s.disk[h.page], h, s.log[h]);
    }
  }

  lemma TakenPageChains(s: State, k: nat, p: nat, w: Writer)
    requires ChainsOk(s.c, Allocs(s.pages), s.buckets, s.writers) && k < |s.buckets|
    requires forall j :: 0 <= j < |s.buckets[k]| ==> Filled(s.c, Allocs(s.pages), s.buckets[k][j])
    requires w.Idle? || (w.Holding? && w.page == p)
    ensures ChainsOk(s.c, Allocs(s.pages), s.buckets[k := [p] + s.buckets[k]], s.writers[k := w])
  {
    var buckets := s.buckets[k := [p] + s.buckets[k]];
    var writers := s.writers[k := w];
    forall j | 0 <= j < |buckets| ensures ChainOk(s.c, Allocs(s.pages), buckets[j], writers[j]) {
      assert ChainOk(s.c, Allocs(s.pages), s.buckets[j], s.writers[j]);
    }
  }

  lemma AllocateKeepsLists(s: State, k: nat, fb: nat)
    requires WellFormed(s) && ListsOk(Homes(s.pages), ListsOf(s)) && s.pageFree == |FreeSet(Homes(s.pages))|
    requires k < s.c.bucketCount && fb < s.c.bucketCount
    requires s.buckets[k] == [] || s.pages[s.buckets[k][0]].alloc == s.c.pageSize
    ensures var (t, op) := AllocatePage(s, k, fb);
            && ListsOk(Homes(t.pages), ListsOf(t)) && t.pageFree == |FreeSet(Homes(t.pages))|
            && |t.freeBuckets| == |s.freeBuckets|
            && (op.None? ==> t == s)
            && (op.Some? ==> 1 <= op.value < |s.pages| && s.pages[op.value].free && s.pageFree > 0)
  {
    var (t, op) := AllocatePage(s, k, fb);
    PopMovesPage(Homes(s.pages), ListsOf(s), k, fb);
    if op.Some? {
      FreeSetTaken(Homes(s.pages), op.value, k);
      assert Homes(t.pages) == Homes(s.pages)[op.value := InBucket(k)];
    }
  }

  lemma AllocateKeepsShape(s: State, k: nat, fb: nat, w: Writer)
    requires WellFormed(s) && ListsOk(Homes(s.pages), ListsOf(s)) && s.pageFree == |FreeSet(Homes(s.pages))|
    requires k < s.c.bucketCount && fb < s.c.bucketCount
    requires s.buckets[k] == [] || s.pages[s.buckets[k][0]].alloc == s.c.pageSize
    requires w.Idle? || (w.Holding? && WriterRefs(s.c, w))
    ensures var t := AllocatePage(s, k, fb).0; WellFormed(t.(writers := t.writers[k := w]))
  {
    AllocateKeepsLists(s, k, fb);
    ListRefsFromLists(AllocatePage(s, k, fb).0);
  }

  lemma AllocateKeepsPages(s: State, k: nat, fb: nat)
    requires Inv(s) && k < s.c.bucketCount && fb < s.c.bucketCount
    requires s.buckets[k] == [] || s.pages[s.buckets[k][0]].alloc == s.c.pageSize
    ensures var t := AllocatePage(s, k, fb).0; PagesOk(t.c, t.pages, t.wbufs, t.version)
  {
    var (t, op) := AllocatePage(s, k, fb);
    AllocateKeepsLists(s, k, fb);
    if op.Some? {
      TakenPageOk(s, op.value, t.pages[op.value]);
    }
  }

  lemma AllocateKeepsViews(s: State, k: nat, fb: nat)
    requires WellFormed(s) && ListsOk(Homes(s.pages), ListsOf(s)) && s.pageFree == |FreeSet(Homes(s.pages))|
    requires AlignedOk(s.c, s.pages) && MaintOk(s.pages, s.maint)
    requires k < s.c.bucketCount && fb < s.c.bucketCount
    requires s.buckets[k] == [] || s.pages[s.buckets[k][0]].alloc == s.c.pageSize
    ensures var t := AllocatePage(s, k, fb).0;
            && AlignedOk(t.c, t.pages) && MaintOk(t.pages, t.maint)
            && Owners(t.pages) == Owners(s.pages) && Allocs(t.pages) == Allocs(s.pages)
  {
    AllocateKeepsLists(s, k, fb);
  }

  lemma AllocateKeepsReads(s: State, k: nat, fb: nat)
    requires Inv(s) && k < s.c.bucketCount && fb < s.c.bucketCount
    requires s.buckets[k] == [] || s.pages[s.buckets[k][0]].alloc == s.c.pageSize
    ensures var (t, op) := AllocatePage(s, k, fb);
            && RefcountsOk(t.pages, t.rds) && ReadsOk(t.pages, t.log, t.rds)
            && LogOk(t.c, t.pages, t.wbufs, t.disk, t.log) && HandlesOk(t.version, t.log)
  {
    var (t, op) := AllocatePage(s, k, fb);
    AllocateKeepsLists(s, k, fb);
    if op.Some? {
      assert PageOk(s.c, s.pages[op.value], s.wbufs, s.version);
      TakenPageUnseen(s, op.value, t.pages[op.value]);
    }
  }

  lemma AllocateKeepsInv(s: State, k: nat, fb: nat, w: Writer)
    requires Inv(s) && k < s.c.bucketCount && fb < s.c.bucketCount
    requires s.buckets[k] == [] || s.pages[s.buckets[k][0]].alloc == s.c.pageSize
    requires w.Idle? || (w.Holding? && Some(w.page) == AllocatePage(s, k, fb).1 && WriterRefs(s.c, w))
    ensures var t := AllocatePage(s, k, fb).0; Inv(t.(writers := t.writers[k := w]))
  {
    AllocateKeepsLists(s, k, fb);
    AllocateKeepsShape(s, k, fb, w);
    AllocateKeepsPages(s, k, fb);
    AllocateKeepsViews(s, k, fb);
    AllocateKeepsReads(s, k, fb);
    AllocateKeepsChains(s, k, fb, w);
  }

  lemma AllocateKeepsChains(s: State, k: nat, fb: nat, w: Writer)
    requires WellFormed(s) && ListsOk(Homes(s.pages), ListsOf(s)) && s.pageFree == |FreeSet(Homes(s.pages))|
    requires ChainsOk(s.c, Allocs(s.pages), s.buckets, s.writers)
    requires k < s.c.bucketCount && fb < s.c.bucketCount
    requires s.buckets[k] == [] || s.pages[s.buckets[k][0]].alloc == s.c.pageSize
    requires w.Idle? || (w.Holding? && Some(w.page) == AllocatePage(s, k, fb).1)
    ensures var t := AllocatePage(s, k, fb).0; ChainsOk(t.c, Allocs(s.pages), t.buckets, t.writers[k := w])
  {
    AllocateKeepsLists(s, k, fb);
    assert ChainOk(s.c, Allocs(s.pages), s.buckets[k], s.writers[k]);
    var op := AllocatePage(s, k, fb).1;
    if op.Some? {
      TakenPageChains(s, k, op.value, w);
    } else {
      WriterKeepsChains(s, k, w);
    }
  }

  lemma WriterKeepsChains(s: State, k: nat, w: Writer)
    requires ChainsOk(s.c, Allocs(s.pages), s.buckets, s.writers) && k < |s.buckets|
    requires ChainOk(s.c, Allocs(s.pages), s.buckets[k], w)
    ensures ChainsOk(s.c, Allocs(s.pages), s.buckets, s.writers[k := w])
  {
    var writers := s.writers[k := w];
    forall j | 0 <= j < |s.buckets| ensures ChainOk(s.c, Allocs(s.pages), s.buckets[j], writers[j]) {
      assert ChainOk(s.c, Allocs(s.pages), s.buckets[j], s.writers[j]);
    }
  }

  lemma WriterKeepsInv(s: State, k: nat, w: Writer)
    requires Inv(s) && k < s.c.bucketCount && WriterRefs(s.c, w)
    requires ChainOk(s.c, Allocs(s.pages), s.buckets[k], w)
    ensures Inv(s.(writers := s.writers[k := w]))
  {
    WriterKeepsChains(s, k, w);
  }

  lemma FetchPageKeepsInv(s: State, k: nat, req: WriteReq)
    requires Inv(s) && k < s.c.bucketCount && req.freeBucket < s.c.bucketCount && 0 < |req.data|
    ensures Inv(FetchPage(s, k, req))
  {
    assert ChainOk(s.c, Allocs(s.pages), s.buckets[k], s.writers[k]);
    if s.buckets[k] != [] {
      var p := s.buckets[k][0];
      WriterKeepsInv(s, k, Holding(p, req));
    } else {
      var (t, op) := AllocatePage(s, k, req.freeBucket);
      AllocateKeepsLists(s, k, req.freeBucket);
      if op.Some? {
        AllocateKeepsInv(s, k, req.freeBucket, Holding(op.value, req));
      }
    }
  }

  lemma NextPageKeepsInv(s: State, k: nat)
    requires Inv(s) && k < s.c.bucketCount && s.writers[k].NeedPage?
    ensures s.buckets[k] == [] || s.pages[s.buckets[k][0]].alloc == s.c.pageSize
    ensures Inv(NextPage(s, k))
  {
    assert ChainOk(s.c, Allocs(s.pages), s.buckets[k], s.writers[k]);
    if s.buckets[k] != [] { assert Filled(s.c, Allocs(s.pages), s.buckets[k][0]); }
    AllocateKeepsInv(s, k, s.writers[k].freeBucket, Idle);
  }

  // ---------------------------------------------------------------- write buffers

  /** Pages other than the owner of `w` do not see a change to `w`. */
  lemma OtherPagesKeepBuffers(s: State, p: nat, w: nat, b: Wbuf, q: Page)
    requires WbufsOk(s.c, Owners(s.pages), s.wbufStack) && PagesOk(s.c, s.pages, s.wbufs, s.version)
    requires p < |s.pages| && w < |s.wbufs| && (s.pages[p].wbuf == Some(w) || w in s.wbufStack)
    requires PageOk(s.c, q, s.wbufs[w := b], s.version)
    ensures PagesOk(s.c, s.pages[p := q], s.wbufs[w := b], s.version)
  {
    var pages, wbufs := s.pages[p := q], s.wbufs[w := b];
    forall i | 0 <= i < |pages| ensures PageOk(s.c, pages[i], wbufs, s.version) {
      assert PageOk(s.c, s.pages[i], s.wbufs, s.version);
      assert Owners(s.pages)[i] == s.pages[i].wbuf && Owners(s.pages)[p] == s.pages[p].wbuf;
    }
  }

  /** Objects of other pages do not see a change to page `p` and its buffer. */
  lemma OtherPagesKeepObjects(s: State, p: nat, w: nat, b: Wbuf, q: Page)
    requires WbufsOk(s.c, Owners(s.pages), s.wbufStack)
    requires p < |s.pages| && w < |s.wbufs| && (s.pages[p].wbuf == Some(w) || w in s.wbufStack)
    requires LogOk(s.c, s.pages, s.wbufs, s.disk, s.log)
    requires forall h :: h in s.log && h.page == p ==> EntryOk(s.c, q, s.wbufs[w := b], s.disk[p], h, s.log[h])
    ensures LogOk(s.c, s.pages[p := q], s.wbufs[w := b], s.disk, s.log)
  {
    var pages, wbufs := s.pages[p := q], s.wbufs[w := b];
    forall h | h in s.log
      ensures h.page < |pages| && EntryOk(s.c, pages[h.page], wbufs, s.disk[h.page], h, s.log[h])
    {
      assert EntryOk(s.c, s.pages[h.page], s.wbufs, s.disk[h.page], h, s.log[h]);
      assert Owners(s.pages)[h.page] == s.pages[h.page].wbuf && Owners(s.pages)[p] == s.pages[p].wbuf;
    }
  }

  function Marked(q: seq<bool>): set<nat> {
    set i | 0 <= i < |q| && q[i]
  }

  lemma {:induction false} MarkedSize(q: seq<bool>)
    ensures |Marked(q)| <= |q| && (|Marked(q)| == |q| <==> forall i :: 0 <= i < |q| ==> q[i])
  {
    if q != [] {
      var n := |q| - 1;
      var r := q[..n];
      MarkedSize(r);
      assert Marked(q) == if q[n] then Marked(r) + {n} else Marked(r);
      assert forall i :: 0 <= i < n ==> r[i] == q[i];
    }
  }

  /** Distinct IO objects carry distinct buffers. */
  lemma {:induction false} CarriedBound(ios: seq<Io>, some: set<nat>, images: set<nat>)
    requires forall io :: io in some ==> io < |ios| && !ios[io].OnStack? && ios[io].wbuf in images
    requires forall x, y :: x in some && y in some && x != y ==> ios[x].wbuf != ios[y].wbuf
    ensures |some| <= |images|
  {
    if some != {} {
      var io :| io in some;
      CarriedBound(ios, some - {io}, images - {ios[io].wbuf});
    }
  }

  /** There are as many IO objects as buffers, so an open buffer leaves one IO object idle. */
  lemma SomeIoIdle(ios: seq<Io>, wbufs: seq<Wbuf>, w: nat)
    requires forall io :: 0 <= io < |ios| && !ios[io].OnStack? ==> ios[io].wbuf < |wbufs| && wbufs[ios[io].wbuf].full
    requires forall x, y :: 0 <= x < y < |ios| && !ios[x].OnStack? && !ios[y].OnStack? ==> ios[x].wbuf != ios[y].wbuf
    requires |ios| == |wbufs| && w < |wbufs| && !wbufs[w].full
    ensures exists io :: 0 <= io < |ios| && ios[io].OnStack?
  {
    var busy := seq(|ios|, i requires 0 <= i < |ios| => !ios[i].OnStack?);
    var full := seq(|wbufs|, i requires 0 <= i < |wbufs| => wbufs[i].full);
    MarkedSize(busy);
    MarkedSize(full);
    assert !full[w];
    CarriedBound(ios, Marked(busy), Marked(full));
    var io :| 0 <= io < |busy| && !busy[io];
    assert ios[io].OnStack?;
  }

  /** The pop of the IO stack in _submit_wbuf never finds it empty. */
  lemma IoAvailable(s: State, p: nat)
    requires Inv(s) && p < s.c.pageCount && s.pages[p].wbuf.Some? && !s.wbufs[s.pages[p].wbuf.value].full
    ensures s.ioStack != []
  {
    SomeIoIdle(s.ios, s.wbufs, s.pages[p].wbuf.value);
  }

  lemma SubmitKeepsIos(s: State, p: nat)
    requires WellFormed(s) && p < s.c.pageCount && s.pages[p].wbuf.Some? && s.ioStack != []
    requires !s.wbufs[s.pages[p].wbuf.value].full
    requires s.wbufs[s.pages[p].wbuf.value].offset + s.c.wbufSize <= s.c.pageSize
    requires IoStackOk(s.ios, s.ioStack) && IosOk(s.ios, Owners(s.pages), s.wbufs)
    ensures var t := SubmitWbuf(s, p); IosOk(t.ios, Owners(t.pages), t.wbufs)
  {
    var t := SubmitWbuf(s, p);
    var w := s.pages[p].wbuf.value;
    var io := s.ioStack[0];
    forall x | 0 <= x < |t.wbufs| && t.wbufs[x].full && Some(x) in Owners(t.pages)
      ensures exists i :: 0 <= i < |t.ios| && Ships(t.ios[i], x)
    {
      if x == w {
        assert Ships(t.ios[io], x);
      } else {
        var i :| 0 <= i < |s.ios| && Ships(s.ios[i], x);
        assert Ships(t.ios[i], x);
      }
    }
  }

  lemma SubmitKeepsStack(s: State, p: nat)
    requires WellFormed(s) && p < s.c.pageCount && s.pages[p].wbuf.Some? && s.ioStack != []
    requires s.wbufs[s.pages[p].wbuf.value].offset + s.c.wbufSize <= s.c.pageSize
    requires IoStackOk(s.ios, s.ioStack)
    ensures var t := SubmitWbuf(s, p); WellFormed(t) && IoStackOk(t.ios, t.ioStack)
  {
    assert s.ioStack == [s.ioStack[0]] + s.ioStack[1..];
  }

  lemma SubmitKeepsFlushes(s: State, p: nat)
    requires WellFormed(s) && p < s.c.pageCount && s.pages[p].wbuf.Some? && s.ioStack != []
    requires !s.wbufs[s.pages[p].wbuf.value].full
    requires IosOk(s.ios, Owners(s.pages), s.wbufs) && FlushesOk(s.c, s.ios, s.disk, s.wbufs)
    ensures var t := SubmitWbuf(s, p); FlushesOk(t.c, t.ios, t.disk, t.wbufs)
  {
  }

  /** An object in a buffer stays there as long as the used part of the buffer only grows. */
  lemma BufferKeepsObject(c: Config, p: Page, q: Page, wbufs: seq<Wbuf>, b: Wbuf, h: Handle, d: seq<Byte>)
    requires InBuffer(c, p, wbufs, h, d) && q.wbuf == p.wbuf
    requires var o := wbufs[p.wbuf.value];
             && b.offset == o.offset && b.free <= o.free <= |o.buf| && |b.buf| == |o.buf| == c.wbufSize
             && b.buf[..|o.buf| - o.free] == o.buf[..|o.buf| - o.free]
    ensures InBuffer(c, q, wbufs[p.wbuf.value := b], h, d)
  {
    var o := wbufs[p.wbuf.value];
    var n := |o.buf| - o.free;
    var lo, hi := h.offset - o.offset, h.offset - o.offset + |d|;
    SliceSlice(o.buf, 0, n, lo, hi);
    SliceSlice(b.buf, 0, n, lo, hi);
    assert o.buf[0..n] == o.buf[..n] && b.buf[0..n] == b.buf[..n];
  }

  lemma GrowingBufferKeepsObjects(s: State, p: nat, b: Wbuf, q: Page)
    requires WbufsOk(s.c, Owners(s.pages), s.wbufStack) && LogOk(s.c, s.pages, s.wbufs, s.disk, s.log)
    requires p < |s.pages| && s.pages[p].wbuf.Some? && s.pages[p].wbuf.value < |s.wbufs|
    requires q.version == s.pages[p].version && q.written == s.pages[p].written && q.wbuf == s.pages[p].wbuf
    requires var o := s.wbufs[s.pages[p].wbuf.value];
             && b.offset == o.offset && b.free <= o.free <= |o.buf| && |b.buf| == |o.buf| == s.c.wbufSize
             && b.buf[..|o.buf| - o.free] == o.buf[..|o.buf| - o.free]
    ensures LogOk(s.c, s.pages[p := q], s.wbufs[s.pages[p].wbuf.value := b], s.disk, s.log)
  {
    var w := s.pages[p].wbuf.value;
    forall h | h in s.log && h.page == p ensures EntryOk(s.c, q, s.wbufs[w := b], s.disk[p], h, s.log[h]) {
      assert EntryOk(s.c, s.pages[p], s.wbufs, s.disk[p], h, s.log[h]);
      if InBuffer(s.c, s.pages[p], s.wbufs, h, s.log[h]) {
        BufferKeepsObject(s.c, s.pages[p], q, s.wbufs, b, h, s.log[h]);
      }
    }
    OtherPagesKeepObjects(s, p, w, b, q);
  }

  lemma SubmitKeepsObjects(s: State, p: nat)
    requires Inv(s) && p < s.c.pageCount && s.pages[p].wbuf.Some? && s.ioStack != []
    ensures var t := SubmitWbuf(s, p);
            PagesOk(t.c, t.pages, t.wbufs, t.version) && LogOk(t.c, t.pages, t.wbufs, t.disk, t.log)
  {
    var t := SubmitWbuf(s, p);
    var w := s.pages[p].wbuf.value;
    assert s.pages[p := s.pages[p]] == s.pages;
    assert PageOk(s.c, s.pages[p], s.wbufs, s.version);
    OtherPagesKeepBuffers(s, p, w, t.wbufs[w], s.pages[p]);
    GrowingBufferKeepsObjects(s, p, t.wbufs[w], s.pages[p]);
  }

  lemma SubmitKeepsInv(s: State, p: nat)
    requires Inv(s) && p < s.c.pageCount && s.pages[p].wbuf.Some? && s.ioStack != []
    requires !s.wbufs[s.pages[p].wbuf.value].full
    ensures Inv(SubmitWbuf(s, p))
  {
    assert PageOk(s.c, s.pages[p], s.wbufs, s.version);
    SubmitKeepsStack(s, p);
    SubmitKeepsIos(s, p);
    SubmitKeepsFlushes(s, p);
    SubmitKeepsObjects(s, p);
  }

  lemma {:induction false} ProductIsMultiple(k: nat, m: nat)
    requires 0 < m
    ensures IsMultiple(k * m, m)
  {
    if k > 0 {
      ProductIsMultiple(k - 1, m);
      assert k * m - m == (k - 1) * m;
    }
  }

  lemma {:induction false} MultiplesApart(a: nat, b: nat, m: nat)
    requires 0 < m && IsMultiple(a, m) && IsMultiple(b, m) && a < b
    ensures a + m <= b
    decreases b
  {
    if a > 0 { MultiplesApart(a - m, b - m, m); }
  }

  /** A page with room has room for a whole write buffer. */
  lemma RoomForWbuf(written: nat, c: Config)
    requires ConfigOk(c) && IsMultiple(written, c.wbufSize) && written < c.pageSize
    ensures written + c.wbufSize <= c.pageSize
  {
    ProductIsMultiple(c.pageSize / c.wbufSize, c.wbufSize);
    MultiplesApart(written, c.pageSize, c.wbufSize);
  }

  lemma AllocateWbufKeepsStacks(s: State, p: nat)
    requires WellFormed(s) && p < s.c.pageCount && s.pages[p].wbuf.None? && s.wbufStack != []
    requires WbufsOk(s.c, Owners(s.pages), s.wbufStack)
    ensures var t := AllocateWbuf(s, p); WbufsOk(t.c, Owners(t.pages), t.wbufStack)
  {
    var t := AllocateWbuf(s, p);
    var w := s.wbufStack[0];
    assert s.wbufStack == [w] + t.wbufStack;
    var o, o' := Owners(s.pages), Owners(t.pages);
    assert o' == o[p := Some(w)];
    forall x | 0 <= x < s.c.wbufCount && x !in t.wbufStack ensures Some(x) in o' {
      if x == w {
        assert o'[p] == Some(w);
      } else {
        var i :| 0 <= i < |o| && o[i] == Some(x);
        assert o'[i] == Some(x);
      }
    }
  }

  lemma AllocateWbufKeepsIos(s: State, p: nat)
    requires WellFormed(s) && p < s.c.pageCount && s.pages[p].wbuf.None? && s.wbufStack != []
    requires WbufsOk(s.c, Owners(s.pages), s.wbufStack)
    requires IosOk(s.ios, Owners(s.pages), s.wbufs)
    ensures var t := AllocateWbuf(s, p); IosOk(t.ios, Owners(t.pages), t.wbufs)
  {
    var t := AllocateWbuf(s, p);
    var w := s.wbufStack[0];
    assert Owners(t.pages) == Owners(s.pages)[p := Some(w)];
    forall x | 0 <= x < |t.wbufs| && t.wbufs[x].full && Some(x) in Owners(t.pages)
      ensures exists i :: 0 <= i < |t.ios| && Ships(t.ios[i], x)
    {
      assert Some(x) in Owners(s.pages);
      var i :| 0 <= i < |s.ios| && Ships(s.ios[i], x);
      assert Ships(t.ios[i], x);
    }
  }

  lemma AllocateWbufKeepsFlushes(s: State, p: nat)
    requires WellFormed(s) && p < s.c.pageCount && s.pages[p].wbuf.None?
    requires FlushesOk(s.c, s.ios, s.disk, s.wbufs)
    ensures var t := AllocateWbuf(s, p); FlushesOk(t.c, t.ios, t.disk, t.wbufs)
  {
  }

  lemma AllocateWbufKeepsChains(s: State, p: nat)
    requires WellFormed(s) && p < s.c.pageCount && s.pages[p].wbuf.None? && s.pages[p].alloc < s.c.pageSize
    requires ChainsOk(s.c, Allocs(s.pages), s.buckets, s.writers)
    ensures var t := AllocateWbuf(s, p); ChainsOk(t.c, Allocs(t.pages), t.buckets, t.writers)
  {
    var t := AllocateWbuf(s, p);
    forall k | 0 <= k < |s.buckets| ensures ChainOk(t.c, Allocs(t.pages), t.buckets[k], t.writers[k]) {
      assert ChainOk(s.c, Allocs(s.pages), s.buckets[k], s.writers[k]);
      FilledStays(s.c, Allocs(s.pages), Allocs(t.pages), p);
    }
  }

  lemma FilledStays(c: Config, a: seq<nat>, b: seq<nat>, p: nat)
    requires |a| == |b| && p < |a| && a[p] < c.pageSize && forall i :: 0 <= i < |a| && i != p ==> a[i] == b[i]
    ensures forall x :: Filled(c, a, x) ==> Filled(c, b, x)
  {
  }

  lemma AllocateWbufKeepsObjects(s: State, p: nat)
    requires Inv(s) && p < s.c.pageCount && s.pages[p].wbuf.None? && s.wbufStack != [] && !s.pages[p].free
    requires s.pages[p].alloc < s.c.pageSize
    ensures var t := AllocateWbuf(s, p);
            PagesOk(t.c, t.pages, t.wbufs, t.version) && LogOk(t.c, t.pages, t.wbufs, t.disk, t.log)
  {
    var t := AllocateWbuf(s, p);
    var w := s.wbufStack[0];
    assert PageOk(s.c, s.pages[p], s.wbufs, s.version);
    RoomForWbuf(s.pages[p].written, s.c);
    OtherPagesKeepBuffers(s, p, w, t.wbufs[w], t.pages[p]);
    forall h | h in s.log && h.page == p ensures EntryOk(s.c, t.pages[p], t.wbufs, s.disk[p], h, s.log[h]) {
      assert EntryOk(s.c, s.pages[p], s.wbufs, s.disk[p], h, s.log[h]);
    }
    OtherPagesKeepObjects(s, p, w, t.wbufs[w], t.pages[p]);
  }

  /** A change to one page that keeps what readers, counters and lists look at. */
  lemma QuietPageChange(s: State, p: nat, q: Page)
    requires p < |s.pages|
    requires s.pages[p] == q.(alloc := s.pages[p].alloc, wbuf := s.pages[p].wbuf, closed := s.pages[p].closed,
                              objCount := s.pages[p].objCount, bytesUsed := s.pages[p].bytesUsed)
    requires RefcountsOk(s.pages, s.rds) && ReadsOk(s.pages, s.log, s.rds) && MaintOk(s.pages, s.maint)
    requires AlignedOk(s.c, s.pages)
    ensures RefcountsOk(s.pages[p := q], s.rds) && ReadsOk(s.pages[p := q], s.log, s.rds) && MaintOk(s.pages[p := q], s.maint)
    ensures AlignedOk(s.c, s.pages[p := q]) && Homes(s.pages[p := q]) == Homes(s.pages)
  {
    var pages := s.pages[p := q];
    forall r | r in s.rds ensures ReadOk(pages, s.log, s.rds[r]) {
      assert ReadOk(s.pages, s.log, s.rds[r]);
    }
  }

  lemma AllocateWbufKeepsInv(s: State, p: nat)
    requires Inv(s) && p < s.c.pageCount && s.pages[p].wbuf.None? && !s.pages[p].free
    requires s.pages[p].alloc < s.c.pageSize
    ensures Inv(AllocateWbuf(s, p))
  {
    if s.wbufStack != [] {
      AllocateWbufKeepsStacks(s, p);
      AllocateWbufKeepsIos(s, p);
      AllocateWbufKeepsFlushes(s, p);
      AllocateWbufKeepsChains(s, p);
      AllocateWbufKeepsObjects(s, p);
      QuietPageChange(s, p, AllocateWbuf(s, p).pages[p]);
    }
  }

  // ---------------------------------------------------------------- storing an object

  /** The handle a store returns has never been returned before. */
  lemma NewHandleIsFresh(s: State, p: nat, h: Handle)
    requires Inv(s) && p < s.c.pageCount && s.pages[p].wbuf.Some?
    requires var b := s.wbufs[s.pages[p].wbuf.value];
             h == Handle(p, s.pages[p].version, b.offset + (s.c.wbufSize - b.free))
    ensures h !in s.log
  {
    assert PageOk(s.c, s.pages[p], s.wbufs, s.version);
    forall g | g in s.log && g.page == p && g.version == h.version ensures g.offset < h.offset {
      assert EntryOk(s.c, s.pages[p], s.wbufs, s.disk[p], g, s.log[g]);
    }
  }

  lemma StoreKeepsShape(s: State, p: nat, data: seq<Byte>)
    requires WellFormed(s) && p < s.c.pageCount && HasRoom(s, p, |data|)
    ensures WellFormed(StoreObject(s, p, data))
  {
  }

  lemma StoreKeepsIos(s: State, p: nat, data: seq<Byte>)
    requires WellFormed(s) && p < s.c.pageCount && HasRoom(s, p, |data|)
    requires IosOk(s.ios, Owners(s.pages), s.wbufs)
    ensures var t := StoreObject(s, p, data);
            && Owners(t.pages) == Owners(s.pages) && Allocs(t.pages) == Allocs(s.pages)
            && IosOk(t.ios, Owners(t.pages), t.wbufs)
  {
    var t := StoreObject(s, p, data);
    assert Owners(t.pages) == Owners(s.pages) && Allocs(t.pages) == Allocs(s.pages);
    forall x | 0 <= x < |t.wbufs| && t.wbufs[x].full && Some(x) in Owners(t.pages)
      ensures exists i :: 0 <= i < |t.ios| && Ships(t.ios[i], x)
    {
      assert s.wbufs[x].full;
    }
  }

  lemma StoreKeepsFlushes(s: State, p: nat, data: seq<Byte>)
    requires WellFormed(s) && p < s.c.pageCount && HasRoom(s, p, |data|)
    requires IosOk(s.ios, Owners(s.pages), s.wbufs) && FlushesOk(s.c, s.ios, s.disk, s.wbufs)
    ensures var t := StoreObject(s, p, data); FlushesOk(t.c, t.ios, t.disk, t.wbufs)
  {
  }

  lemma StoreKeepsObjects(s: State, p: nat, data: seq<Byte>)
    requires Inv(s) && p < s.c.pageCount && HasRoom(s, p, |data|) && 0 < |data|
    ensures var t := StoreObject(s, p, data);
            && PagesOk(t.c, t.pages, t.wbufs, t.version)
            && LogOk(t.c, t.pages, t.wbufs, t.disk, s.log)
  {
    var t := StoreObject(s, p, data);
    var w := s.pages[p].wbuf.value;
    assert PageOk(s.c, s.pages[p], s.wbufs, s.version);
    OtherPagesKeepBuffers(s, p, w, t.wbufs[w], t.pages[p]);
    GrowingBufferKeepsObjects(s, p, t.wbufs[w], t.pages[p]);
  }

  /** The new entry is in the buffer, at the offset the handle names, with the bytes given. */
  lemma StoredObjectIsThere(s: State, p: nat, data: seq<Byte>)
    requires WellFormed(s) && p < s.c.pageCount && HasRoom(s, p, |data|)
    ensures var t := StoreObject(s, p, data);
            var b := s.wbufs[s.pages[p].wbuf.value];
            var h := Handle(p, s.pages[p].version, b.offset + (s.c.wbufSize - b.free));
            && t.log == s.log[h := data]
            && InBuffer(s.c, t.pages[p], t.wbufs, h, data)
  {
  }

  lemma StoreKeepsLog(s: State, p: nat, data: seq<Byte>)
    requires Inv(s) && p < s.c.pageCount && HasRoom(s, p, |data|) && 0 < |data|
    ensures var t := StoreObject(s, p, data);
            LogOk(t.c, t.pages, t.wbufs, t.disk, t.log)
  {
    StoreKeepsObjects(s, p, data);
    StoredObjectIsThere(s, p, data);
  }

  lemma StoreKeepsHandles(s: State, p: nat, data: seq<Byte>)
    requires Inv(s) && p < s.c.pageCount && HasRoom(s, p, |data|) && 0 < |data|
    ensures var t := StoreObject(s, p, data); HandlesOk(t.version, t.log)
  {
    assert PageOk(s.c, s.pages[p], s.wbufs, s.version);
    StoredObjectIsThere(s, p, data);
  }

  lemma StoreKeepsReads(s: State, p: nat, data: seq<Byte>)
    requires Inv(s) && p < s.c.pageCount && HasRoom(s, p, |data|)
    ensures var t := StoreObject(s, p, data);
            ReadsOk(t.pages, t.log, t.rds) && RefcountsOk(t.pages, t.rds) && MaintOk(t.pages, t.maint)
            && AlignedOk(t.c, t.pages) && Homes(t.pages) == Homes(s.pages)
  {
    var t := StoreObject(s, p, data);
    var b := s.wbufs[s.pages[p].wbuf.value];
    NewHandleIsFresh(s, p, Handle(p, s.pages[p].version, b.offset + (s.c.wbufSize - b.free)));
    QuietPageChange(s, p, t.pages[p]);
    MoreLogKeepsReads(t.pages, s.log, t.log, s.rds);
  }

  lemma MoreLogKeepsReads(pages: seq<Page>, log: map<Handle, seq<Byte>>, more: map<Handle, seq<Byte>>, rds: map<nat, Read>)
    requires ReadsOk(pages, log, rds) && forall h :: h in log ==> h in more && more[h] == log[h]
    ensures ReadsOk(pages, more, rds)
  {
    forall r | r in rds ensures ReadOk(pages, more, rds[r]) { assert ReadOk(pages, log, rds[r]); }
  }

  lemma StoreKeepsInv(s: State, p: nat, data: seq<Byte>)
    requires Inv(s) && p < s.c.pageCount && HasRoom(s, p, |data|) && 0 < |data|
    ensures Inv(StoreObject(s, p, data))
  {
    StoreKeepsShape(s, p, data);
    StoreKeepsIos(s, p, data);
    StoreKeepsFlushes(s, p, data);
    StoreKeepsObjects(s, p, data);
    StoreKeepsLog(s, p, data);
    StoreKeepsHandles(s, p, data);
    StoreKeepsReads(s, p, data);
  }

  // ---------------------------------------------------------------- the whole second critical section

  /** A page without room is filled, if it is still on the writer's bucket. */
  lemma ExhaustedIsFilled(s: State, k: nat)
    requires Inv(s) && k < s.c.bucketCount && s.writers[k].Holding? && Exhausted(s, s.writers[k].page)
    ensures ChainOk(s.c, Allocs(s.pages), s.buckets[k], NeedPage(s.writers[k].req.freeBucket))
  {
    var p := s.writers[k].page;
    assert ChainOk(s.c, Allocs(s.pages), s.buckets[k], s.writers[k]);
    assert PageOk(s.c, s.pages[p], s.wbufs, s.version);
    forall j | 0 <= j < |s.buckets[k]| ensures Filled(s.c, Allocs(s.pages), s.buckets[k][j]) {
      assert On(ListsOf(s), InBucket(k), s.buckets[k][j]);
      assert Homes(s.pages)[s.buckets[k][j]] == InBucket(k);
    }
  }

  lemma WriteToPageKeepsInv(s: State, k: nat)
    requires Inv(s) && k < s.c.bucketCount && s.writers[k].Holding?
    ensures MustFlush(s, s.writers[k].page, |s.writers[k].req.data|) ==> s.ioStack != []
    ensures Inv(WriteToPage(s, k))
  {
    var p := s.writers[k].page;
    var data := s.writers[k].req.data;
    if MustFlush(s, p, |data|) { IoAvailable(s, p); }
    if Exhausted(s, p) {
      ExhaustedIsFilled(s, k);
      WriterKeepsInv(s, k, NeedPage(s.writers[k].req.freeBucket));
    } else {
      assert ChainOk(s.c, Allocs(s.pages), s.buckets[k], s.writers[k]);
      WriterKeepsInv(s, k, Idle);
      WriteOpenPageKeepsInv(s.(writers := s.writers[k := Idle]), p, data);
    }
  }

  lemma WriteOpenPageKeepsInv(t: State, p: nat, data: seq<Byte>)
    requires Inv(t) && p < t.c.pageCount && 0 < |data| && !Exhausted(t, p)
    ensures MustFlush(t, p, |data|) ==> t.ioStack != [] && Inv(SubmitWbuf(t, p))
    ensures t.pages[p].wbuf.None? && t.pages[p].alloc < t.c.pageSize ==>
              var u := AllocateWbuf(t, p); Inv(u) && (HasRoom(u, p, |data|) ==> Inv(StoreObject(u, p, data)))
    ensures HasRoom(t, p, |data|) ==> Inv(StoreObject(t, p, data))
  {
    assert PageOk(t.c, t.pages[p], t.wbufs, t.version);
    if MustFlush(t, p, |data|) {
      IoAvailable(t, p);
      SubmitKeepsInv(t, p);
    }
    if t.pages[p].wbuf.None? && t.pages[p].alloc < t.c.pageSize {
      var u := AllocateWbuf(t, p);
      AllocateWbufKeepsInv(t, p);
      if HasRoom(u, p, |data|) { StoreKeepsInv(u, p, data); }
    }
    if HasRoom(t, p, |data|) { StoreKeepsInv(t, p, data); }
  }
}
