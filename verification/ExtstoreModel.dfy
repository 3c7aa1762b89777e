/** The state of the external page store (extstore.c) and what it means for its references to be in range. */
module ExtstoreTypes {
  import opened Base

  datatype Config = Config(pageSize: nat, wbufSize: nat, pageCount: nat, bucketCount: nat, wbufCount: nat)

  /** `buf` holds `wbufSize` bytes, of which the last `free` are unused. */
  datatype Wbuf = Wbuf(buf: seq<Byte>, free: nat, offset: nat, full: bool)

  datatype Page = Page(version: nat, refcount: nat, alloc: nat, written: nat, bucket: nat, freeBucket: nat,
                       active: bool, closed: bool, free: bool, wbuf: Option<nat>, objCount: nat, bytesUsed: nat)

  /** An IO object used to ship a write buffer: on the stack, queued, or written with its callback still to run. */
  datatype Io = OnStack | Queued(page: nat, wbuf: nat, offset: nat) | Flushed(page: nat, wbuf: nat, offset: nat)

  datatype WriteReq = WriteReq(freeBucket: nat, data: seq<Byte>)

  /** The one writer of a bucket, between the critical sections of extstore_write_request. */
  datatype Writer = Idle | Holding(page: nat, req: WriteReq) | NeedPage(freeBucket: nat)

  /** What a successful write returns in the obj_io and a later read presents. */
  datatype Handle = Handle(page: nat, version: nat, offset: nat)

  datatype ReadResult = Miss | Data(bytes: seq<Byte>)

  /** A read: queued, holding a page reference, holding the bytes but not yet released, or finished. */
  datatype Read =
    | Submitted(h: Handle, len: nat)
    | InFlight(h: Handle, len: nat)
    | GotData(h: Handle, len: nat, bytes: seq<Byte>)
    | Done(h: Handle, len: nat, result: ReadResult)

  datatype Victim = Victim(page: nat, version: nat)

  datatype Maint = Waiting | Scanning(next: nat, evict: bool, low: Option<Victim>)

  /** `log` is a history variable: the bytes every successful write stored, by handle. */
  datatype State = State(
    c: Config,
    pages: seq<Page>, wbufs: seq<Wbuf>, wbufStack: seq<nat>, ios: seq<Io>, ioStack: seq<nat>,
    disk: seq<seq<Byte>>,
    freeList: seq<nat>, freeBuckets: seq<seq<nat>>, buckets: seq<seq<nat>>,
    pageFree: nat, version: nat, bytesUsed: int, objectsUsed: int,
    writers: seq<Writer>, maint: Maint, rds: map<nat, Read>,
    log: map<Handle, seq<Byte>>)

  // ---------------------------------------------------------------- references in range

  predicate ConfigOk(c: Config) {
    && 0 < c.wbufSize && 0 < c.pageSize && c.pageSize % c.wbufSize == 0
    && 0 < c.bucketCount && 0 < c.pageCount && c.bucketCount <= c.wbufCount
  }

  predicate InRange(q: seq<nat>, n: nat) {
    forall i :: 0 <= i < |q| ==> q[i] < n
  }

  predicate PageRefs(c: Config, p: Page) {
    && p.bucket < c.bucketCount && p.freeBucket < c.bucketCount
    && (p.wbuf.Some? ==> p.wbuf.value < c.wbufCount)
  }

  predicate WbufSized(c: Config, b: Wbuf) {
    |b.buf| == c.wbufSize && b.free <= c.wbufSize
  }

  predicate IoRefs(c: Config, io: Io) {
    !io.OnStack? ==> io.page < c.pageCount && io.wbuf < c.wbufCount && io.offset + c.wbufSize <= c.pageSize
  }

  predicate WriterRefs(c: Config, w: Writer) {
    && (w.Holding? ==> w.page < c.pageCount && w.req.freeBucket < c.bucketCount && 0 < |w.req.data|)
    && (w.NeedPage? ==> w.freeBucket < c.bucketCount)
  }

  predicate MaintRefs(c: Config, m: Maint) {
    m.Scanning? ==> m.next <= c.pageCount && (m.low.Some? ==> m.low.value.page < m.next)
  }

  predicate ListRefs(c: Config, freeList: seq<nat>, freeBuckets: seq<seq<nat>>, buckets: seq<seq<nat>>) {
    && InRange(freeList, c.pageCount)
    && (forall k :: 0 <= k < |freeBuckets| ==> InRange(freeBuckets[k], c.pageCount))
    && (forall k :: 0 <= k < |buckets| ==> InRange(buckets[k], c.pageCount))
  }

  predicate Sizes(s: State) {
    && |s.pages| == |s.disk| == s.c.pageCount
    && |s.wbufs| == |s.ios| == s.c.wbufCount
    && |s.freeBuckets| == |s.buckets| == |s.writers| == s.c.bucketCount
  }

  predicate PagesRefs(c: Config, pages: seq<Page>) {
    forall i :: 0 <= i < |pages| ==> PageRefs(c, pages[i])
  }

  predicate DiskSized(c: Config, disk: seq<seq<Byte>>) {
    forall i :: 0 <= i < |disk| ==> |disk[i]| == c.pageSize
  }

  predicate WbufsSized(c: Config, wbufs: seq<Wbuf>) {
    forall i :: 0 <= i < |wbufs| ==> WbufSized(c, wbufs[i])
  }

  predicate IosRefs(c: Config, ios: seq<Io>) {
    forall i :: 0 <= i < |ios| ==> IoRefs(c, ios[i])
  }

  predicate WritersRefs(c: Config, writers: seq<Writer>) {
    forall i :: 0 <= i < |writers| ==> WriterRefs(c, writers[i])
  }

  predicate ReadsRefs(c: Config, rds: map<nat, Read>) {
    forall r :: r in rds ==> rds[r].h.page < c.pageCount
  }
}

/** A state whose references can all be followed. */
module ExtstoreShape {
  import opened ExtstoreTypes

  predicate WellFormed(s: State) {
    && ConfigOk(s.c) && Sizes(s)
    && InRange(s.wbufStack, s.c.wbufCount) && InRange(s.ioStack, s.c.wbufCount)
    && PagesRefs(s.c, s.pages) && DiskSized(s.c, s.disk) && WbufsSized(s.c, s.wbufs) && IosRefs(s.c, s.ios)
    && WritersRefs(s.c, s.writers) && MaintRefs(s.c, s.maint) && ReadsRefs(s.c, s.rds)
    && ListRefs(s.c, s.freeList, s.freeBuckets, s.buckets)
  }
}

/**
 * The external page store as a state machine.
 *
 * Every critical section of extstore.c (the code run under one page mutex, the engine mutex, or one
 * system call of an IO thread) is one step. Local variables that a thread carries from one critical
 * section to the next are part of the state, so a run of the machine is an interleaving of threads.
 * The `requires` of a step function are the assertions and unchecked pointer uses of the C code.
 */
module ExtstoreModel {
  import opened Base
  import opened ExtstoreTypes
  import opened ExtstoreShape

  // ---------------------------------------------------------------- writer side

  /** Pop a page from the requested free bucket, failing that from the default free list (lines 420-431). */
  function PopFree(freeList: seq<nat>, freeBuckets: seq<seq<nat>>, fb: nat): (seq<nat>, seq<seq<nat>>, Option<nat>)
    requires fb < |freeBuckets|
  {
    if fb != 0 && freeBuckets[fb] != [] then
      (freeList, freeBuckets[fb := freeBuckets[fb][1..]], Some(freeBuckets[fb][0]))
    else if freeList != [] then
      (freeList[1..], freeBuckets, Some(freeList[0]))
    else
      (freeList, freeBuckets, None)
  }

  function Taken(pg: Page, k: nat, version: nat): Page {
    pg.(active := true, free := false, closed := false, version := version, bucket := k)
  }

  /** The popped page becomes the active head of bucket `k` (lines 435-443). */
  function TakePage(s: State, k: nat, p: nat): State
    requires k < |s.buckets| && p < |s.pages| && s.pageFree > 0
  {
    s.(buckets := s.buckets[k := [p] + s.buckets[k]],
       pages := s.pages[p := Taken(s.pages[p], k, s.version)],
       version := s.version + 1,
       pageFree := s.pageFree - 1)
  }

  /** _allocate_page, with its assertion on the current head of the bucket (lines 417-451). */
  function AllocatePage(s: State, k: nat, fb: nat): (State, Option<nat>)
    requires WellFormed(s) && k < s.c.bucketCount && fb < s.c.bucketCount
    requires s.buckets[k] == [] || s.pages[s.buckets[k][0]].alloc == s.c.pageSize
  {
    var (freeList, freeBuckets, op) := PopFree(s.freeList, s.freeBuckets, fb);
    var u := s.(freeList := freeList, freeBuckets := freeBuckets);
    if s.pageFree > 0 && op.Some? then (TakePage(u, k, op.value), op) else (u, op)
  }

  /** First critical section of extstore_write_request: find the bucket's page (lines 553-560). */
  function FetchPage(s: State, k: nat, req: WriteReq): State
    requires WellFormed(s) && k < s.c.bucketCount && req.freeBucket < s.c.bucketCount
  {
    if s.buckets[k] != [] then
      s.(writers := s.writers[k := Holding(s.buckets[k][0], req)])
    else
      var (t, p) := AllocatePage(s, k, req.freeBucket);
      if p.Some? then t.(writers := t.writers[k := Holding(p.value, req)]) else t
  }

  predicate Exhausted(s: State, p: nat)
    requires WellFormed(s) && p < s.c.pageCount
  {
    var pg := s.pages[p];
    !pg.active || ((pg.wbuf.None? || s.wbufs[pg.wbuf.value].full) && pg.alloc >= s.c.pageSize)
  }

  function Zeros(n: nat): (z: seq<Byte>)
    ensures |z| == n
  {
    seq(n, _ => 0)
  }

  function ZeroTail(b: seq<Byte>, n: nat): seq<Byte>
    requires n <= |b|
  {
    b[..|b| - n] + Zeros(n)
  }

  /** _submit_wbuf, and the marking of the buffer as full by its caller (lines 513-534, 576-579). */
  function SubmitWbuf(s: State, p: nat): State
    requires WellFormed(s) && p < s.c.pageCount
    requires s.pages[p].wbuf.Some? && s.ioStack != []
  {
    var w := s.pages[p].wbuf.value;
    var b := s.wbufs[w];
    var io := s.ioStack[0];
    s.(ioStack := s.ioStack[1..],
       ios := s.ios[io := Queued(p, w, b.offset)],
       wbufs := s.wbufs[w := b.(buf := ZeroTail(b.buf, b.free), full := true)])
  }

  /** _allocate_wbuf (lines 454-474). */
  function AllocateWbuf(s: State, p: nat): (t: State)
    requires WellFormed(s) && p < s.c.pageCount
    requires s.pages[p].wbuf.None?
    ensures WellFormed(t) && t.c == s.c
  {
    if s.wbufStack == [] then s
    else
      var w := s.wbufStack[0];
      s.(wbufStack := s.wbufStack[1..],
         wbufs := s.wbufs[w := s.wbufs[w].(offset := s.pages[p].alloc, free := s.c.wbufSize, full := false)],
         pages := s.pages[p := s.pages[p].(alloc := s.pages[p].alloc + s.c.wbufSize, wbuf := Some(w))])
  }

  predicate HasRoom(s: State, p: nat, len: nat)
    requires WellFormed(s) && p < s.c.pageCount
  {
    var pg := s.pages[p];
    pg.wbuf.Some? && !s.wbufs[pg.wbuf.value].full && s.wbufs[pg.wbuf.value].free >= len
  }

  function Overwrite(b: seq<Byte>, at: nat, data: seq<Byte>): seq<Byte>
    requires at + |data| <= |b|
  {
    b[..at] + data + b[at + |data|..]
  }

  /** The caller's copy into the buffer followed by extstore_write, still under the page mutex (lines 588-619). */
  function StoreObject(s: State, p: nat, data: seq<Byte>): State
    requires WellFormed(s) && p < s.c.pageCount && HasRoom(s, p, |data|)
  {
    var pg := s.pages[p];
    var w := pg.wbuf.value;
    var b := s.wbufs[w];
    var at := s.c.wbufSize - b.free;
    s.(wbufs := s.wbufs[w := b.(buf := Overwrite(b.buf, at, data), free := b.free - |data|)],
       pages := s.pages[p := pg.(bytesUsed := pg.bytesUsed + |data|, objCount := pg.objCount + 1)],
       bytesUsed := s.bytesUsed + |data|, objectsUsed := s.objectsUsed + 1,
       log := s.log[Handle(p, pg.version, b.offset + at) := data])
  }

  /** Is the current buffer too small for the object and still open (line 576)? */
  predicate MustFlush(s: State, p: nat, len: nat)
    requires WellFormed(s) && p < s.c.pageCount
  {
    var pg := s.pages[p];
    pg.wbuf.Some? && s.wbufs[pg.wbuf.value].free < len && !s.wbufs[pg.wbuf.value].full
  }

  /** Second critical section of extstore_write_request: what happens under the page mutex (lines 562-596). */
  function WriteToPage(s: State, k: nat): State
    requires WellFormed(s) && k < s.c.bucketCount && s.writers[k].Holding?
    requires MustFlush(s, s.writers[k].page, |s.writers[k].req.data|) ==> s.ioStack != []
  {
    var p := s.writers[k].page;
    var data := s.writers[k].req.data;
    if Exhausted(s, p) then
      s.(writers := s.writers[k := NeedPage(s.writers[k].req.freeBucket)])
    else
      var t := s.(writers := s.writers[k := Idle]);
      if MustFlush(s, p, |data|) then SubmitWbuf(t, p)
      else if s.pages[p].wbuf.None? && s.pages[p].alloc < s.c.pageSize then
        var u := AllocateWbuf(t, p);
        if HasRoom(u, p, |data|) then StoreObject(u, p, data) else u
      else if HasRoom(t, p, |data|) then StoreObject(t, p, data)
      else t
  }

  /** Third critical section, after a full page was found: a new page for the next attempt (lines 569-572). */
  function NextPage(s: State, k: nat): State
    requires WellFormed(s) && k < s.c.bucketCount && s.writers[k].NeedPage?
    requires s.buckets[k] == [] || s.pages[s.buckets[k][0]].alloc == s.c.pageSize
  {
    var t := AllocatePage(s, k, s.writers[k].freeBucket).0;
    t.(writers := t.writers[k := Idle])
  }

  // ---------------------------------------------------------------- flush side

  /** pwrite of a whole buffer by an IO thread (line 841). */
  function FlushIo(s: State, io: nat): State
    requires WellFormed(s) && io < s.c.wbufCount && s.ios[io].Queued?
  {
    var q := s.ios[io];
    s.(disk := s.disk[q.page := Overwrite(s.disk[q.page], q.offset, s.wbufs[q.wbuf].buf)],
       ios := s.ios[io := Flushed(q.page, q.wbuf, q.offset)])
  }

  /** _wbuf_cb with its two assertions (lines 482-508). */
  function FlushCallback(s: State, io: nat): State
    requires WellFormed(s) && io < s.c.wbufCount && s.ios[io].Flushed?
    requires s.pages[s.ios[io].page].wbuf == Some(s.ios[io].wbuf)
    requires s.pages[s.ios[io].page].written == s.wbufs[s.ios[io].wbuf].offset
  {
    var q := s.ios[io];
    var pg := s.pages[q.page];
    var written := pg.written + s.c.wbufSize;
    s.(pages := s.pages[q.page := pg.(written := written, wbuf := None,
                                      active := pg.active && written != s.c.pageSize)],
       wbufStack := [q.wbuf] + s.wbufStack,
       ios := s.ios[io := OnStack], ioStack := [io] + s.ioStack)
  }

  // ---------------------------------------------------------------- read side

  /** The check every read and delete starts with. */
  predicate Readable(s: State, h: Handle)
    requires h.page < |s.pages|
  {
    !s.pages[h.page].free && !s.pages[h.page].closed && s.pages[h.page].version == h.version
  }

  predicate InWbuf(s: State, h: Handle)
    requires h.page < |s.pages|
  {
    s.pages[h.page].active && h.offset >= s.pages[h.page].written
  }

  /** _read_from_wbuf is called: its assertion, and that the copy stays inside the buffer (lines 730-747). */
  predicate WbufCovers(s: State, h: Handle, len: nat)
    requires WellFormed(s) && h.page < s.c.pageCount
  {
    var pg := s.pages[h.page];
    && pg.wbuf.Some?
    && h.offset < pg.written + s.c.wbufSize
    && s.wbufs[pg.wbuf.value].offset <= h.offset
    && h.offset + len <= s.wbufs[pg.wbuf.value].offset + s.c.wbufSize
  }

  /** First critical section of a read in the IO thread (lines 799-815). */
  function CheckRead(s: State, r: nat): State
    requires WellFormed(s) && r in s.rds && s.rds[r].Submitted?
    requires Readable(s, s.rds[r].h) && InWbuf(s, s.rds[r].h) ==> WbufCovers(s, s.rds[r].h, s.rds[r].len)
  {
    var h := s.rds[r].h;
    var len := s.rds[r].len;
    var pg := s.pages[h.page];
    if !Readable(s, h) then
      s.(rds := s.rds[r := Done(h, len, Miss)])
    else if InWbuf(s, h) then
      var b := s.wbufs[pg.wbuf.value];
      var at := h.offset - b.offset;
      s.(rds := s.rds[r := Done(h, len, Data(b.buf[at..at + len]))])
    else
      s.(rds := s.rds[r := InFlight(h, len)],
         pages := s.pages[h.page := pg.(refcount := pg.refcount + 1)])
  }

  /** pread, with no lock held (lines 829-833). */
  function ReadDisk(s: State, r: nat): State
    requires WellFormed(s) && r in s.rds && s.rds[r].InFlight?
    requires s.rds[r].h.offset + s.rds[r].len <= s.c.pageSize
  {
    var h := s.rds[r].h;
    var len := s.rds[r].len;
    s.(rds := s.rds[r := GotData(h, len, s.disk[h.page][h.offset..h.offset + len])])
  }

  /** Callback, then release of the page reference (lines 853-858). */
  function ReleaseRead(s: State, r: nat): State
    requires WellFormed(s) && r in s.rds && s.rds[r].GotData?
    requires s.pages[s.rds[r].h.page].refcount > 0
  {
    var g := s.rds[r];
    var pg := s.pages[g.h.page];
    s.(rds := s.rds[r := Done(g.h, g.len, Data(g.bytes))],
       pages := s.pages[g.h.page := pg.(refcount := pg.refcount - 1)])
  }

  // ---------------------------------------------------------------- deletes, closes and the maintenance thread

  function Minus(a: nat, b: nat): nat {
    if a >= b then a - b else 0
  }

  /** extstore_delete (lines 664-697). */
  function Delete(s: State, p: nat, version: nat, count: nat, bytes: nat): State
    requires WellFormed(s) && p < s.c.pageCount
  {
    var pg := s.pages[p];
    if !pg.closed && pg.version == version then
      s.(pages := s.pages[p := pg.(bytesUsed := Minus(pg.bytesUsed, bytes), objCount := Minus(pg.objCount, count))],
         bytesUsed := s.bytesUsed - bytes, objectsUsed := s.objectsUsed - count)
    else s
  }

  /** extstore_close_page (lines 712-722). */
  function ClosePage(s: State, p: nat, version: nat): State
    requires WellFormed(s) && p < s.c.pageCount
  {
    var pg := s.pages[p];
    if !pg.closed && pg.version == version then s.(pages := s.pages[p := pg.(closed := true)]) else s
  }

  /** First half of _free_page: take the page's usage off the books, unlink it, blank it (lines 867-901). */
  function ResetPage(s: State, p: nat): State
    requires p < |s.pages| && s.pages[p].bucket < |s.buckets|
  {
    var pg := s.pages[p];
    s.(objectsUsed := s.objectsUsed - pg.objCount, bytesUsed := s.bytesUsed - pg.bytesUsed,
       buckets := s.buckets[pg.bucket := Without(s.buckets[pg.bucket], p)],
       pages := s.pages[p := pg.(version := 0, objCount := 0, bytesUsed := 0, alloc := 0, written := 0,
                                 bucket := 0, active := false, closed := false, free := true)])
  }

  /** Second half: push the page on the free list it belongs to (lines 902-911). */
  function PushFree(s: State, p: nat): State
    requires p < |s.pages| && s.pages[p].freeBucket < |s.freeBuckets|
  {
    var fb := s.pages[p].freeBucket;
    if fb != 0 then
      s.(freeBuckets := s.freeBuckets[fb := [p] + s.freeBuckets[fb]], pageFree := s.pageFree + 1)
    else
      s.(freeList := [p] + s.freeList, pageFree := s.pageFree + 1)
  }

  /** _free_page. The reference count and the write buffer are not touched. */
  function FreePage(s: State, p: nat): State
    requires p < |s.pages| && s.pages[p].bucket < |s.buckets| && s.pages[p].freeBucket < |s.freeBuckets|
  {
    PushFree(ResetPage(s, p), p)
  }

  /** The maintenance thread wakes up and decides whether it may have to evict (lines 940-947). */
  function MaintWake(s: State): State {
    s.(maint := Scanning(0, s.pageFree == 0 || s.freeList == [], None))
  }

  predicate Candidate(pg: Page) {
    !pg.active && !pg.free && pg.objCount > 0 && !pg.closed && pg.freeBucket == 0
  }

  predicate Reclaimable(pg: Page) {
    !pg.active && !pg.free && (pg.objCount == 0 || pg.closed) && pg.refcount == 0
  }

  function Lower(low: Option<Victim>, i: nat, pg: Page): Option<Victim> {
    if Candidate(pg) && (low.None? || pg.version < low.value.version) then Some(Victim(i, pg.version)) else low
  }

  /** The scanner's own variables after its look at a page. */
  function ScannedOn(s: State, evict: bool): State
    requires s.maint.Scanning? && s.maint.next < |s.pages|
  {
    var i := s.maint.next;
    s.(maint := Scanning(i + 1, evict, Lower(s.maint.low, i, s.pages[i])))
  }

  /** One iteration of the scan over the pages, under that page's mutex (lines 950-979). */
  function MaintScan(s: State): State
    requires WellFormed(s) && s.maint.Scanning? && s.maint.next < s.c.pageCount
  {
    if Reclaimable(s.pages[s.maint.next]) then FreePage(ScannedOn(s, false), s.maint.next)
    else ScannedOn(s, s.maint.evict)
  }

  /** After the scan: close the oldest page, and free it if nobody is reading it (lines 981-998). */
  function MaintEvict(s: State): State
    requires WellFormed(s) && s.maint.Scanning? && s.maint.next == s.c.pageCount
  {
    var t := s.(maint := Waiting);
    if s.maint.evict && s.maint.low.Some? && !s.pages[s.maint.low.value.page].closed then
      var p := s.maint.low.value.page;
      var u := t.(pages := t.pages[p := t.pages[p].(closed := true)]);
      if s.pages[p].refcount == 0 then FreePage(u, p) else u
    else t
  }
}
