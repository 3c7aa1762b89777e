/** The parts of the invariant of the page store, each over the fields it depends on. */
module ExtstoreParts {
  import opened Base
  import opened ExtstoreTypes
  import opened ExtstoreShape
  import opened ExtstoreModel

  /** A page's counters agree with its write buffer; a free page is blank. */
  ghost predicate PageOk(c: Config, p: Page, wbufs: seq<Wbuf>, version: nat) {
    if p.free then
      && p.version == 0 && p.alloc == 0 && p.written == 0 && p.wbuf.None? && !p.active
      && p.objCount == 0 && p.bytesUsed == 0
    else
      && 0 < p.version < version
      && p.alloc <= c.pageSize
      && (p.active <==> p.written < c.pageSize)
      && (p.wbuf.None? ==> p.alloc == p.written)
      && (p.wbuf.Some? ==> p.alloc == p.written + c.wbufSize
                           && p.wbuf.value < |wbufs| && wbufs[p.wbuf.value].offset == p.written)
  }

  ghost predicate PagesOk(c: Config, pages: seq<Page>, wbufs: seq<Wbuf>, version: nat) {
    forall i :: 0 <= i < |pages| ==> PageOk(c, pages[i], wbufs, version)
  }

  predicate IsMultiple(a: nat, m: nat)
    requires 0 < m
  {
    a == 0 || (a >= m && IsMultiple(a - m, m))
  }

  /** Pages fill in steps of a whole write buffer. */
  ghost predicate AlignedOk(c: Config, pages: seq<Page>) {
    0 < c.wbufSize && forall i :: 0 <= i < |pages| ==> IsMultiple(pages[i].written, c.wbufSize)
  }

  /** The write buffer of each page. */
  function Owners(pages: seq<Page>): (o: seq<Option<nat>>)
    ensures |o| == |pages| && forall i :: 0 <= i < |pages| ==> o[i] == pages[i].wbuf
  {
    seq(|pages|, i requires 0 <= i < |pages| => pages[i].wbuf)
  }

  /** Every write buffer is on the stack or attached to exactly one page. */
  ghost predicate WbufsOk(c: Config, owners: seq<Option<nat>>, stack: seq<nat>) {
    && NoDup(stack)
    && (forall i :: 0 <= i < |owners| && owners[i].Some? ==> owners[i].value !in stack)
    && (forall i, j :: 0 <= i < j < |owners| && owners[i].Some? ==> owners[i] != owners[j])
    && (forall w :: 0 <= w < c.wbufCount && w !in stack ==> Some(w) in owners)
  }

  ghost predicate Ships(io: Io, w: nat) {
    !io.OnStack? && io.wbuf == w
  }

  /** An IO object is on the stack exactly when it carries no buffer. */
  ghost predicate IoStackOk(ios: seq<Io>, stack: seq<nat>) {
    && NoDup(stack)
    && (forall io :: 0 <= io < |ios| ==> (io in stack <==> ios[io].OnStack?))
  }

  /** An IO object off the stack carries one full, attached buffer, its own; every full attached buffer has its IO. */
  ghost predicate IosOk(ios: seq<Io>, owners: seq<Option<nat>>, wbufs: seq<Wbuf>) {
    && (forall io :: 0 <= io < |ios| && !ios[io].OnStack? ==>
          && ios[io].page < |owners| && ios[io].wbuf < |wbufs|
          && owners[ios[io].page] == Some(ios[io].wbuf)
          && wbufs[ios[io].wbuf].full && wbufs[ios[io].wbuf].offset == ios[io].offset)
    && (forall x, y :: 0 <= x < y < |ios| && !ios[x].OnStack? && !ios[y].OnStack? ==> ios[x].wbuf != ios[y].wbuf)
    && (forall w :: 0 <= w < |wbufs| && wbufs[w].full && Some(w) in owners ==>
          exists io :: 0 <= io < |ios| && Ships(ios[io], w))
  }

  /** What pwrite has put on the disk is still what the buffer holds. */
  ghost predicate FlushesOk(c: Config, ios: seq<Io>, disk: seq<seq<Byte>>, wbufs: seq<Wbuf>) {
    forall io :: 0 <= io < |ios| && ios[io].Flushed? ==>
      && ios[io].page < |disk| && ios[io].offset + c.wbufSize <= |disk[ios[io].page]| && ios[io].wbuf < |wbufs|
      && disk[ios[io].page][ios[io].offset..ios[io].offset + c.wbufSize] == wbufs[ios[io].wbuf].buf
  }

  datatype Where = FreeDefault | FreeIn(k: nat) | InBucket(k: nat)

  /** The list a page belongs on. */
  function Home(p: Page): Where {
    if !p.free then InBucket(p.bucket) else if p.freeBucket == 0 then FreeDefault else FreeIn(p.freeBucket)
  }

  function Homes(pages: seq<Page>): (h: seq<Where>)
    ensures |h| == |pages| && forall i :: 0 <= i < |pages| ==> h[i] == Home(pages[i])
  {
    seq(|pages|, i requires 0 <= i < |pages| => Home(pages[i]))
  }

  datatype Lists = Lists(freeList: seq<nat>, freeBuckets: seq<seq<nat>>, buckets: seq<seq<nat>>)

  function ListsOf(s: State): Lists {
    Lists(s.freeList, s.freeBuckets, s.buckets)
  }

  function ListAt(l: Lists, at: Where): seq<nat> {
    match at
    case FreeDefault => l.freeList
    case FreeIn(k) => if k < |l.freeBuckets| then l.freeBuckets[k] else []
    case InBucket(k) => if k < |l.buckets| then l.buckets[k] else []
  }

  predicate On(l: Lists, at: Where, x: nat) {
    x in ListAt(l, at)
  }

  /** Every page but page 0 is on the list it belongs on, once, and on no other. */
  ghost predicate ListsOk(homes: seq<Where>, l: Lists) {
    && 0 < |homes| && !homes[0].InBucket?
    && (forall i :: 1 <= i < |homes| ==> On(l, homes[i], i))
    && (forall at: Where :: NoDup(ListAt(l, at)))
    && (forall at: Where, x: nat :: On(l, at, x) ==> 1 <= x < |homes| && homes[x] == at)
  }

  function FreeSet(homes: seq<Where>): set<nat> {
    set i | 1 <= i < |homes| && !homes[i].InBucket?
  }

  function Allocs(pages: seq<Page>): (a: seq<nat>)
    ensures |a| == |pages| && forall i :: 0 <= i < |pages| ==> a[i] == pages[i].alloc
  {
    seq(|pages|, i requires 0 <= i < |pages| => pages[i].alloc)
  }

  ghost predicate Filled(c: Config, allocs: seq<nat>, p: nat) {
    p < |allocs| && allocs[p] == c.pageSize
  }

  /** Only the page a writer is using may have room: what the assertion of _allocate_page rests on. */
  ghost predicate ChainOk(c: Config, allocs: seq<nat>, chain: seq<nat>, w: Writer) {
    && (forall j :: 1 <= j < |chain| ==> Filled(c, allocs, chain[j]))
    && (w.Holding? ==> forall j :: 0 <= j < |chain| && chain[j] != w.page ==> Filled(c, allocs, chain[j]))
    && (w.NeedPage? ==> forall j :: 0 <= j < |chain| ==> Filled(c, allocs, chain[j]))
  }

  ghost predicate ChainsOk(c: Config, allocs: seq<nat>, buckets: seq<seq<nat>>, writers: seq<Writer>) {
    |buckets| == |writers| && forall k :: 0 <= k < |buckets| ==> ChainOk(c, allocs, buckets[k], writers[k])
  }

  /** The maintenance thread's candidate is still the page it looked at. */
  ghost predicate MaintOk(pages: seq<Page>, m: Maint) {
    m.Scanning? && m.low.Some? ==>
      var v := m.low.value;
      v.page < |pages| && !pages[v.page].free && !pages[v.page].active && pages[v.page].version == v.version
      && pages[v.page].freeBucket == 0
  }

  predicate HoldsPage(r: Read, p: nat) {
    (r.InFlight? || r.GotData?) && r.h.page == p
  }

  function Holders(rds: map<nat, Read>, p: nat): set<nat> {
    set r | r in rds && HoldsPage(rds[r], p)
  }

  ghost predicate RefcountsOk(pages: seq<Page>, rds: map<nat, Read>) {
    forall i :: 0 <= i < |pages| ==> pages[i].refcount == |Holders(rds, i)|
  }

  /** Where a read stands: it refers to a stored object, holds a live flushed page, has the right bytes. */
  ghost predicate ReadOk(pages: seq<Page>, log: map<Handle, seq<Byte>>, r: Read) {
    && r.h in log && r.len <= |log[r.h]|
    && (r.InFlight? || r.GotData? ==>
          && r.h.page < |pages| && !pages[r.h.page].free && pages[r.h.page].version == r.h.version
          && r.h.offset + r.len <= pages[r.h.page].written)
    && (r.GotData? ==> r.bytes == log[r.h][..r.len])
    && (r.Done? && r.result.Data? ==> r.result.bytes == log[r.h][..r.len])
  }

  ghost predicate ReadsOk(pages: seq<Page>, log: map<Handle, seq<Byte>>, rds: map<nat, Read>) {
    forall r :: r in rds ==> ReadOk(pages, log, rds[r])
  }

  ghost predicate OnDisk(p: Page, disk: seq<Byte>, h: Handle, d: seq<Byte>) {
    h.offset + |d| <= p.written <= |disk| && disk[h.offset..h.offset + |d|] == d
  }

  ghost predicate InBuffer(c: Config, p: Page, wbufs: seq<Wbuf>, h: Handle, d: seq<Byte>) {
    && p.wbuf.Some? && p.wbuf.value < |wbufs|
    && var b := wbufs[p.wbuf.value];
    && b.offset <= h.offset && h.offset + |d| + b.free <= b.offset + c.wbufSize
    && h.offset - b.offset + |d| <= |b.buf|
    && b.buf[h.offset - b.offset..h.offset - b.offset + |d|] == d
  }

  /** While its page version lives, an object is wholly on the flushed part of the disk or wholly in the buffer. */
  ghost predicate EntryOk(c: Config, p: Page, wbufs: seq<Wbuf>, disk: seq<Byte>, h: Handle, d: seq<Byte>) {
    p.version == h.version ==> OnDisk(p, disk, h, d) || InBuffer(c, p, wbufs, h, d)
  }

  ghost predicate LogOk(c: Config, pages: seq<Page>, wbufs: seq<Wbuf>, disk: seq<seq<Byte>>, log: map<Handle, seq<Byte>>) {
    && |pages| == |disk|
    && forall h :: h in log ==> h.page < |pages| && EntryOk(c, pages[h.page], wbufs, disk[h.page], h, log[h])
  }

  /** Handles are older than the next version, and no stored object is empty. */
  ghost predicate HandlesOk(version: nat, log: map<Handle, seq<Byte>>) {
    0 < version && forall h :: h in log ==> 0 < h.version < version && 0 < |log[h]|
  }
}

/** The invariant of the page store. */
module ExtstoreInv {
  import opened Base
  import opened ExtstoreTypes
  import opened ExtstoreShape
  import opened ExtstoreModel
  import opened ExtstoreParts

  ghost predicate Inv(s: State) {
    && WellFormed(s)
    && PagesOk(s.c, s.pages, s.wbufs, s.version) && AlignedOk(s.c, s.pages)
    && WbufsOk(s.c, Owners(s.pages), s.wbufStack)
    && IoStackOk(s.ios, s.ioStack) && IosOk(s.ios, Owners(s.pages), s.wbufs)
    && FlushesOk(s.c, s.ios, s.disk, s.wbufs)
    && ListsOk(Homes(s.pages), ListsOf(s)) && s.pageFree == |FreeSet(Homes(s.pages))|
    && ChainsOk(s.c, Allocs(s.pages), s.buckets, s.writers)
    && MaintOk(s.pages, s.maint)
    && RefcountsOk(s.pages, s.rds) && ReadsOk(s.pages, s.log, s.rds)
    && LogOk(s.c, s.pages, s.wbufs, s.disk, s.log) && HandlesOk(s.version, s.log)
  }
}
