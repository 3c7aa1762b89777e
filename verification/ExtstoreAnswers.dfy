/** What the callers of the page store get: the answers to reads, closes, writes and page requests, over the fields of pages. */
module ExtstoreAnswers {
  import opened Base
  import opened ExtstoreTypes
  import opened ExtstoreShape
  import opened ExtstoreModel
  import opened ExtstoreParts
  import opened ExtstoreInv
  import opened ExtstoreWrites
  import opened ExtstoreReads
  import opened ExtstoreMaint
  import opened ExtstoreRuns
  import opened ExtstoreSteps
  import opened ExtstoreTheorems
  import opened ExtstoreBooks

  // ---------------------------------------------------------------- reads

  /** The page still has the version of the handle, and is neither free nor closed. */
  ghost predicate Current(pages: seq<Page>, h: Handle) {
    h.page < |pages| && !pages[h.page].free && !pages[h.page].closed && pages[h.page].version == h.version
  }

  /** A read past its check that is on its way to these bytes, or has got them. */
  ghost predicate WillGet(q: Read, h: Handle, bytes: seq<Byte>) {
    && q.h == h && q.len == |bytes|
    && (q.InFlight? || (q.GotData? && q.bytes == bytes) || (q.Done? && q.result == Data(bytes)))
  }

  ghost predicate HasMissed(q: Read) {
    q.Done? && q.result == Miss
  }

  lemma CheckMisses(s: State, r: nat)
    requires WellFormed(s) && r in s.rds && s.rds[r].Submitted? && !Current(s.pages, s.rds[r].h)
    ensures HasMissed(CheckRead(s, r).rds[r])
  {
  }

  lemma CheckPasses(s: State, r: nat)
    requires WellFormed(s) && r in s.rds && s.rds[r].Submitted? && Current(s.pages, s.rds[r].h)
    requires Readable(s, s.rds[r].h) && InWbuf(s, s.rds[r].h) ==> WbufCovers(s, s.rds[r].h, s.rds[r].len)
    ensures var q := CheckRead(s, r).rds[r];
            q.h == s.rds[r].h && q.len == s.rds[r].len && (q.InFlight? || (q.Done? && q.result.Data?))
  {
  }

  /** The check decides: bytes for a current handle, a miss for any other. */
  lemma CheckDecides(s: State, r: nat, t: State)
    requires Inv(s) && Step(s, DoCheckRead(r), t)
    ensures var h, len := s.rds[r].h, s.rds[r].len;
            && h in s.log && len <= |s.log[h]| && r in t.rds && t.log == s.log
            && if Current(s.pages, h) then WillGet(t.rds[r], h, s.log[h][..len]) else HasMissed(t.rds[r])
  {
    assert ReadOk(s.pages, s.log, s.rds[r]);
    if Current(s.pages, s.rds[r].h) { CheckPasses(s, r); } else { CheckMisses(s, r); }
    CheckedIsOk(s, r, t);
  }

  lemma CheckedIsOk(s: State, r: nat, t: State)
    requires Inv(s) && Step(s, DoCheckRead(r), t)
    ensures r in t.rds && t.log == s.log && ReadOk(t.pages, t.log, t.rds[r])
  {
    StepKeepsInv(s, DoCheckRead(r));
  }

  /** No step but the read's own touches it. */
  lemma OthersLeaveRead(s: State, a: Action, t: State, r: nat)
    requires Step(s, a, t) && r in s.rds && a != DoCheckRead(r) && a != DoReadDisk(r) && a != DoReleaseRead(r)
    ensures r in t.rds && t.rds[r] == s.rds[r]
  {
    match a
    case DoFetch(k, req) =>
    case DoWrite(k) => WriteLeavesReads(s, k);
    case DoNextPage(k) =>
    case DoFlush(io) =>
    case DoCallback(io) =>
    case DoScan =>
    case DoEvict =>
    case _ =>
  }

  lemma WriteLeavesReads(s: State, k: nat)
    requires WellFormed(s) && k < s.c.bucketCount && s.writers[k].Holding?
    requires MustFlush(s, s.writers[k].page, |s.writers[k].req.data|) ==> s.ioStack != []
    ensures WriteToPage(s, k).rds == s.rds
  {
  }

  /** The read of the disk gets the bytes that were written, and the release hands them out. */
  lemma ReadGoesOn(s: State, a: Action, t: State, r: nat, bytes: seq<Byte>)
    requires Inv(s) && Step(s, a, t) && (a == DoReadDisk(r) || a == DoReleaseRead(r))
    requires var q := s.rds[r]; q.h in s.log && q.len <= |s.log[q.h]| && bytes == s.log[q.h][..q.len] && WillGet(q, q.h, bytes)
    ensures r in t.rds && WillGet(t.rds[r], s.rds[r].h, bytes)
    ensures if a == DoReadDisk(r) then t.rds[r].GotData? else t.rds[r].Done?
  {
    StepKeepsInv(s, a);
    StepExtendsLog(s, a, t);
    assert ReadOk(t.pages, t.log, t.rds[r]);
  }

  lemma ReadStep(s: State, a: Action, t: State, r: nat, h: Handle, bytes: seq<Byte>)
    requires Inv(s) && Step(s, a, t) && r in s.rds && h in s.log && |bytes| <= |s.log[h]| && bytes == s.log[h][..|bytes|]
    requires WillGet(s.rds[r], h, bytes)
    ensures r in t.rds && WillGet(t.rds[r], h, bytes)
  {
    if a == DoReadDisk(r) || a == DoReleaseRead(r) {
      ReadGoesOn(s, a, t, r, bytes);
    } else {
      OthersLeaveRead(s, a, t, r);
    }
  }

  lemma ReadStays(s: State, a: Action, t: State, r: nat)
    requires Step(s, a, t) && r in s.rds
    ensures r in t.rds && (s.rds[r].Done? ==> t.rds[r] == s.rds[r])
  {
    if a != DoCheckRead(r) && a != DoReadDisk(r) && a != DoReleaseRead(r) { OthersLeaveRead(s, a, t, r); }
  }

  lemma ReadNext(run: seq<State>, acts: seq<Action>, j: nat, s: State, t: State, r: nat, h: Handle, bytes: seq<Byte>)
    requires IsRun(run, acts) && j < |acts| && s == run[j] && t == run[j + 1]
    requires r in s.rds && h in s.log && |bytes| <= |s.log[h]| && bytes == s.log[h][..|bytes|]
    ensures r in t.rds && (WillGet(s.rds[r], h, bytes) ==> WillGet(t.rds[r], h, bytes)) && (HasMissed(s.rds[r]) ==> HasMissed(t.rds[r]))
  {
    RunKeepsInv(run, acts, j);
    StepAt(run, acts, j);
    ReadStays(s, acts[j], t, r);
    if WillGet(s.rds[r], h, bytes) { ReadStep(s, acts[j], t, r, h, bytes); }
  }

  /** Once it is decided what a read will get, every later state of the run agrees. */
  lemma {:induction false} ReadStaysDecided(run: seq<State>, acts: seq<Action>, i: nat, j: nat, r: nat, h: Handle, bytes: seq<Byte>)
    requires IsRun(run, acts) && i <= j < |run| && r in run[i].rds
    requires h in run[i].log && |bytes| <= |run[i].log[h]| && bytes == run[i].log[h][..|bytes|]
    ensures r in run[j].rds
    ensures WillGet(run[i].rds[r], h, bytes) ==> WillGet(run[j].rds[r], h, bytes)
    ensures HasMissed(run[i].rds[r]) ==> HasMissed(run[j].rds[r])
    decreases j - i
  {
    if i < j {
      ReadStaysDecided(run, acts, i, j - 1, r, h, bytes);
      LogOnlyGrows(run, acts, i, j - 1);
      ReadNext(run, acts, j - 1, run[j - 1], run[j], r, h, bytes);
    }
  }

  lemma DecidedAt(run: seq<State>, acts: seq<Action>, i: nat, s: State, t: State, r: nat)
    requires IsRun(run, acts) && i < |acts| && s == run[i] && t == run[i + 1] && acts[i] == DoCheckRead(r) && r in s.rds
    ensures var h, len := s.rds[r].h, s.rds[r].len;
            && h in s.log && len <= |s.log[h]| && r in t.rds && t.log == s.log
            && if Current(s.pages, h) then WillGet(t.rds[r], h, s.log[h][..len]) else HasMissed(t.rds[r])
  {
    RunKeepsInv(run, acts, i);
    StepAt(run, acts, i);
    CheckDecides(s, r, t);
  }

  /**
   * The answer to a read, in every interleaving: at its check the page is free, closed or of another version and it
   * misses, or it is none of these and the read gets the bytes written under its handle, however long it takes.
   */
  lemma ReadAnswer(run: seq<State>, acts: seq<Action>, i: nat, j: nat, r: nat)
    requires IsRun(run, acts) && i < j < |run| && acts[i] == DoCheckRead(r) && r in run[i].rds
    ensures var h, len := run[i].rds[r].h, run[i].rds[r].len;
            && h in run[i].log && len <= |run[i].log[h]| && r in run[j].rds
            && if Current(run[i].pages, h) then WillGet(run[j].rds[r], h, run[i].log[h][..len]) else HasMissed(run[j].rds[r])
  {
    var h, len := run[i].rds[r].h, run[i].rds[r].len;
    DecidedAt(run, acts, i, run[i], run[i + 1], r);
    ReadStaysDecided(run, acts, i + 1, j, r, h, run[i].log[h][..len]);
  }

  /** So a finished read missed exactly when its handle was not current at its check. */
  lemma MissedIff(run: seq<State>, acts: seq<Action>, i: nat, j: nat, r: nat)
    requires IsRun(run, acts) && i < j < |run| && acts[i] == DoCheckRead(r) && r in run[i].rds
    requires r in run[j].rds && run[j].rds[r].Done?
    ensures run[j].rds[r].result == Miss <==> !Current(run[i].pages, run[i].rds[r].h)
  {
    ReadAnswer(run, acts, i, j, r);
  }

  // ---------------------------------------------------------------- closes

  /** A close of the version the page has closes it, any other changes nothing. */
  lemma CloseAnswer(s: State, p: nat, version: nat, t: State)
    requires Step(s, DoClose(p, version), t)
    ensures if s.pages[p].version == version then t == s.(pages := s.pages[p := s.pages[p].(closed := true)]) else t == s
  {
    assert s.pages[p := s.pages[p]] == s.pages;
  }

  /** A page of the handle's version that is closed, or a page that has been freed since. */
  ghost predicate Hidden(s: State, h: Handle) {
    h.page < |s.pages| && 0 < h.version < s.version && (s.pages[h.page].version == h.version ==> s.pages[h.page].closed)
  }

  /** Only taking a page opens it, and that gives it a new version. */
  ghost predicate ClosedStays(s: State, t: State) {
    && |t.pages| == |s.pages|
    && forall i :: 0 <= i < |s.pages| && s.pages[i].closed && 0 < t.pages[i].version == s.pages[i].version < s.version ==>
         t.pages[i].closed
  }

  lemma AllocateKeepsClosed(s: State, k: nat, fb: nat)
    requires WellFormed(s) && k < s.c.bucketCount && fb < s.c.bucketCount
    requires s.buckets[k] == [] || s.pages[s.buckets[k][0]].alloc == s.c.pageSize
    ensures ClosedStays(s, AllocatePage(s, k, fb).0)
  {
  }

  lemma WriteKeepsClosed(s: State, k: nat)
    requires WellFormed(s) && k < s.c.bucketCount && s.writers[k].Holding?
    requires MustFlush(s, s.writers[k].page, |s.writers[k].req.data|) ==> s.ioStack != []
    ensures ClosedStays(s, WriteToPage(s, k))
  {
  }

  lemma StepKeepsClosed(s: State, a: Action)
    requires WellFormed(s) && Enabled(s, a) && Asserts(s, a)
    ensures ClosedStays(s, Next(s, a))
  {
    match a
    case DoFetch(k, req) => if s.buckets[k] == [] { AllocateKeepsClosed(s, k, req.freeBucket); }
    case DoWrite(k) => WriteKeepsClosed(s, k);
    case DoNextPage(k) => AllocateKeepsClosed(s, k, s.writers[k].freeBucket);
    case DoScan => ScanKeepsClosed(s);
    case DoEvict => EvictKeepsClosed(s);
    case _ =>
  }

  lemma ScanKeepsClosed(s: State)
    requires WellFormed(s) && s.maint.Scanning? && s.maint.next < s.c.pageCount
    ensures ClosedStays(s, MaintScan(s))
  {
  }

  lemma EvictKeepsClosed(s: State)
    requires WellFormed(s) && s.maint.Scanning? && s.maint.next == s.c.pageCount
    ensures ClosedStays(s, MaintEvict(s))
  {
  }

  lemma HiddenStep(s: State, a: Action, t: State, h: Handle)
    requires Step(s, a, t) && Hidden(s, h)
    ensures Hidden(t, h)
  {
    StepMovesVersions(s, a);
    StepKeepsClosed(s, a);
  }

  lemma HiddenNext(run: seq<State>, acts: seq<Action>, j: nat, h: Handle)
    requires IsRun(run, acts) && j < |acts| && Hidden(run[j], h)
    ensures Hidden(run[j + 1], h)
  {
    StepAt(run, acts, j);
    HiddenStep(run[j], acts[j], run[j + 1], h);
  }

  lemma {:induction false} HiddenForever(run: seq<State>, acts: seq<Action>, i: nat, j: nat, h: Handle)
    requires IsRun(run, acts) && i <= j < |run| && Hidden(run[i], h)
    ensures Hidden(run[j], h) && !Current(run[j].pages, h)
    decreases j - i
  {
    if i < j {
      HiddenForever(run, acts, i, j - 1, h);
      HiddenNext(run, acts, j - 1, h);
    }
  }

  lemma CloseHides(s: State, version: nat, t: State, h: Handle)
    requires Inv(s) && Step(s, DoClose(h.page, version), t) && h in s.log && s.pages[h.page].version == version
    ensures Hidden(t, h)
  {
    CloseAnswer(s, h.page, version, t);
  }

  lemma HidesAt(run: seq<State>, acts: seq<Action>, i: nat, s: State, t: State, h: Handle, version: nat)
    requires IsRun(run, acts) && i < |acts| && s == run[i] && t == run[i + 1] && acts[i] == DoClose(h.page, version)
    requires h in s.log && h.page < |s.pages| && s.pages[h.page].version == version
    ensures Hidden(t, h)
  {
    RunKeepsInv(run, acts, i);
    StepAt(run, acts, i);
    CloseHides(s, version, t, h);
  }

  /** After a close of the page's version no handle to it is current again, so every read checked later misses. */
  lemma ClosedForGood(run: seq<State>, acts: seq<Action>, i: nat, j: nat, h: Handle, version: nat)
    requires IsRun(run, acts) && i < j < |run| && acts[i] == DoClose(h.page, version)
    requires h in run[i].log && h.page < |run[i].pages| && run[i].pages[h.page].version == version
    ensures !Current(run[j].pages, h)
  {
    HidesAt(run, acts, i, run[i], run[i + 1], h, version);
    HiddenForever(run, acts, i + 1, j, h);
  }

  // ---------------------------------------------------------------- writes

  /** The page has room for n more bytes in its buffer, or no buffer and one can be had for it. */
  ghost predicate Takes(s: State, p: nat, n: nat)
    requires WellFormed(s) && p < s.c.pageCount
  {
    var pg := s.pages[p];
    && pg.active
    && match pg.wbuf
       case Some(w) => !s.wbufs[w].full && n <= s.wbufs[w].free
       case None => pg.alloc < s.c.pageSize && s.wbufStack != [] && n <= s.c.wbufSize
  }

  /** The object is there under a handle that no other has, and the books show it. */
  ghost predicate StoredAs(s: State, p: nat, data: seq<Byte>, h: Handle, t: State)
    requires p < |s.pages|
  {
    && h.page == p && h.version == s.pages[p].version && h !in s.log && t.log == s.log[h := data] && p < |t.pages|
    && t.pages[p].objCount == s.pages[p].objCount + 1 && t.pages[p].bytesUsed == s.pages[p].bytesUsed + |data|
    && t.objectsUsed == s.objectsUsed + 1 && t.bytesUsed == s.bytesUsed + |data|
    && (Current(t.pages, h) <==> !s.pages[p].closed)
  }

  lemma StoreAnswer(s: State, p: nat, data: seq<Byte>) returns (h: Handle)
    requires Inv(s) && p < s.c.pageCount && HasRoom(s, p, |data|) && 0 < |data|
    ensures StoredAs(s, p, data, h, StoreObject(s, p, data))
  {
    var b := s.wbufs[s.pages[p].wbuf.value];
    h := Handle(p, s.pages[p].version, b.offset + (s.c.wbufSize - b.free));
    NewHandleIsFresh(s, p, h);
    assert PageOk(s.c, s.pages[p], s.wbufs, s.version);
    StoreShows(s, p, data, h);
  }

  lemma StoreShows(s: State, p: nat, data: seq<Byte>, h: Handle)
    requires WellFormed(s) && p < s.c.pageCount && HasRoom(s, p, |data|) && !s.pages[p].free && h !in s.log
    requires var b := s.wbufs[s.pages[p].wbuf.value]; h == Handle(p, s.pages[p].version, b.offset + (s.c.wbufSize - b.free))
    ensures StoredAs(s, p, data, h, StoreObject(s, p, data))
  {
  }

  /** A new buffer takes nothing from the page and its books. */
  lemma FreshBuffer(t: State, p: nat, n: nat)
    requires Inv(t) && p < t.c.pageCount && t.pages[p].active && t.pages[p].wbuf.None? && t.pages[p].alloc < t.c.pageSize
    ensures Inv(AllocateWbuf(t, p)) && NewBuffer(t, p, n, AllocateWbuf(t, p))
  {
    assert PageOk(t.c, t.pages[p], t.wbufs, t.version);
    AllocateWbufKeepsInv(t, p);
    BufferIsNew(t, p, n);
  }

  ghost predicate NewBuffer(t: State, p: nat, n: nat, u: State)
    requires p < |t.pages|
  {
    && WellFormed(u) && p < u.c.pageCount
    && u.log == t.log && u.bytesUsed == t.bytesUsed && u.objectsUsed == t.objectsUsed && u.writers == t.writers
    && u.pages[p] == t.pages[p].(alloc := u.pages[p].alloc, wbuf := u.pages[p].wbuf)
    && (HasRoom(u, p, n) <==> t.wbufStack != [] && n <= t.c.wbufSize)
  }

  lemma BufferIsNew(t: State, p: nat, n: nat)
    requires WellFormed(t) && p < t.c.pageCount && t.pages[p].wbuf.None?
    ensures NewBuffer(t, p, n, AllocateWbuf(t, p))
  {
  }

  lemma FreshBufferStores(t: State, p: nat, data: seq<Byte>) returns (h: Handle)
    requires Inv(t) && p < t.c.pageCount && t.pages[p].active && t.pages[p].wbuf.None? && t.pages[p].alloc < t.c.pageSize
    requires t.wbufStack != [] && 0 < |data| <= t.c.wbufSize
    ensures var u := AllocateWbuf(t, p); HasRoom(u, p, |data|) && StoredAs(t, p, data, h, StoreObject(u, p, data))
  {
    FreshBuffer(t, p, |data|);
    h := StoreAnswer(AllocateWbuf(t, p), p, data);
  }

  /** A write that the page takes is stored under a new handle. */
  lemma WriteTaken(s: State, k: nat, t: State) returns (h: Handle)
    requires Inv(s) && Step(s, DoWrite(k), t)
    requires var w := s.writers[k]; Takes(s, w.page, |w.req.data|)
    ensures var w := s.writers[k]; StoredAs(s, w.page, w.req.data, h, t) && t.writers == s.writers[k := Idle]
  {
    var p, data := s.writers[k].page, s.writers[k].req.data;
    var u := s.(writers := s.writers[k := Idle]);
    assert ChainOk(s.c, Allocs(s.pages), s.buckets[k], s.writers[k]);
    WriterKeepsInv(s, k, Idle);
    if s.pages[p].wbuf.None? {
      h := FreshBufferStores(u, p, data);
      FreshBuffer(u, p, |data|);
    } else {
      h := StoreAnswer(u, p, data);
    }
  }

  /** The open buffer of page p is full now and on its way to the disk. */
  ghost predicate ShipsBuffer(s: State, p: nat, t: State)
    requires p < |s.pages|
  {
    && s.pages[p].wbuf.Some? && s.pages[p].wbuf.value < |s.wbufs| && s.pages[p].wbuf.value < |t.wbufs|
    && t.wbufs[s.pages[p].wbuf.value].full
    && Queued(p, s.pages[p].wbuf.value, s.wbufs[s.pages[p].wbuf.value].offset) in t.ios
  }

  /**
   * Any other write stores nothing; it makes room for the next attempt if it can: a full page is to be replaced, an open
   * buffer that is too small is flushed.
   */
  lemma WriteRefused(s: State, k: nat, t: State)
    requires Inv(s) && Step(s, DoWrite(k), t)
    requires var w := s.writers[k]; !Takes(s, w.page, |w.req.data|)
    ensures t.log == s.log && t.bytesUsed == s.bytesUsed && t.objectsUsed == s.objectsUsed
    ensures var w := s.writers[k]; var pg := s.pages[w.page];
            && t.writers[k] == (if !pg.active || (pg.alloc == s.c.pageSize && (pg.wbuf.None? || s.wbufs[pg.wbuf.value].full))
                                then NeedPage(w.req.freeBucket) else Idle)
            && (pg.active && pg.wbuf.Some? && !s.wbufs[pg.wbuf.value].full ==> ShipsBuffer(s, w.page, t))
  {
    var p, data := s.writers[k].page, s.writers[k].req.data;
    assert PageOk(s.c, s.pages[p], s.wbufs, s.version);
    if s.pages[p].active && s.pages[p].wbuf.None? && s.pages[p].alloc < s.c.pageSize {
      assert ChainOk(s.c, Allocs(s.pages), s.buckets[k], s.writers[k]);
      WriterKeepsInv(s, k, Idle);
      FreshBuffer(s.(writers := s.writers[k := Idle]), p, |data|);
    } else {
      BufferRefuses(s, k);
    }
  }

  lemma BufferRefuses(s: State, k: nat)
    requires WellFormed(s) && k < s.c.bucketCount && s.writers[k].Holding?
    requires MustFlush(s, s.writers[k].page, |s.writers[k].req.data|) ==> s.ioStack != []
    requires var w := s.writers[k]; var pg := s.pages[w.page];
             && !Takes(s, w.page, |w.req.data|) && pg.alloc <= s.c.pageSize
             && !(pg.active && pg.wbuf.None? && pg.alloc < s.c.pageSize)
    ensures var t := WriteToPage(s, k); t.log == s.log && t.bytesUsed == s.bytesUsed && t.objectsUsed == s.objectsUsed
    ensures var t := WriteToPage(s, k); var w := s.writers[k]; var pg := s.pages[w.page];
            && t.writers == s.writers[k := if Exhausted(s, w.page) then NeedPage(w.req.freeBucket) else Idle]
            && (pg.active && pg.wbuf.Some? && !s.wbufs[pg.wbuf.value].full ==> ShipsBuffer(s, w.page, t))
  {
    var w := s.writers[k];
    if MustFlush(s, w.page, |w.req.data|) && !Exhausted(s, w.page) {
      assert SubmitWbuf(s, w.page).ios[s.ioStack[0]].Queued?;
    }
  }

  // ---------------------------------------------------------------- pages

  /** A free page of free bucket fb. */
  ghost predicate FreeFor(s: State, fb: nat, i: nat) {
    1 <= i < |s.pages| && s.pages[i].free && s.pages[i].freeBucket == fb
  }

  ghost predicate AnyFree(s: State, fb: nat) {
    exists i: nat :: FreeFor(s, fb, i)
  }

  lemma FreeOnList(s: State, fb: nat)
    requires Inv(s) && fb < s.c.bucketCount
    ensures fb != 0 ==> (AnyFree(s, fb) <==> s.freeBuckets[fb] != []) && (s.freeBuckets[fb] != [] ==> FreeFor(s, fb, s.freeBuckets[fb][0]))
    ensures (AnyFree(s, 0) <==> s.freeList != []) && (s.freeList != [] ==> FreeFor(s, 0, s.freeList[0]))
  {
    var h, l := Homes(s.pages), ListsOf(s);
    if fb != 0 && s.freeBuckets[fb] != [] {
      assert On(l, FreeIn(fb), s.freeBuckets[fb][0]);
      assert FreeFor(s, fb, s.freeBuckets[fb][0]);
    }
    if s.freeList != [] {
      assert On(l, FreeDefault, s.freeList[0]);
      assert FreeFor(s, 0, s.freeList[0]);
    }
    forall i: nat | FreeFor(s, fb, i) ensures On(l, h[i], i) {}
    forall i: nat | FreeFor(s, 0, i) ensures On(l, h[i], i) {}
  }

  /** Page p was free and of this free bucket; it is the open page of bucket k now, under a version that none had before. */
  ghost predicate TakenFrom(s: State, k: nat, fb: nat, p: nat, t: State)
    requires k < |s.buckets|
  {
    && FreeFor(s, fb, p) && |t.pages| == |s.pages| && k < |t.buckets| && t.buckets[k] == [p] + s.buckets[k]
    && t.pages[p].active && !t.pages[p].free && !t.pages[p].closed && t.pages[p].bucket == k
    && t.pages[p].version == s.version == t.version - 1
    && forall i :: 0 <= i < |s.pages| && i != p ==> t.pages[i] == s.pages[i]
  }

  /** A page of the free bucket asked for, failing that one of the default bucket, failing that none. */
  ghost predicate PageGiven(s: State, k: nat, fb: nat, given: Option<nat>, t: State)
    requires k < |s.buckets|
  {
    if fb != 0 && AnyFree(s, fb) then given.Some? && TakenFrom(s, k, fb, given.value, t)
    else if AnyFree(s, 0) then given.Some? && TakenFrom(s, k, 0, given.value, t)
    else given.None? && t.pages == s.pages && t.buckets == s.buckets && t.version == s.version
  }

  lemma SomePageFree(s: State, i: nat)
    requires Inv(s) && 1 <= i < s.c.pageCount && s.pages[i].free
    ensures s.pageFree > 0
  {
    assert i in FreeSet(Homes(s.pages));
  }

  lemma TakeShows(s: State, u: State, k: nat, fb: nat, p: nat)
    requires u.pages == s.pages && u.buckets == s.buckets && u.version == s.version && u.pageFree > 0
    requires k < |s.buckets| && FreeFor(s, fb, p)
    ensures TakenFrom(s, k, fb, p, TakePage(u, k, p))
  {
  }

  lemma AllocateAnswer(s: State, k: nat, fb: nat)
    requires Inv(s) && k < s.c.bucketCount && fb < s.c.bucketCount
    requires s.buckets[k] == [] || s.pages[s.buckets[k][0]].alloc == s.c.pageSize
    ensures PageGiven(s, k, fb, AllocatePage(s, k, fb).1, AllocatePage(s, k, fb).0)
  {
    FreeOnList(s, fb);
    if fb != 0 && s.freeBuckets[fb] != [] {
      var p := s.freeBuckets[fb][0];
      SomePageFree(s, p);
      TakeShows(s, s.(freeBuckets := s.freeBuckets[fb := s.freeBuckets[fb][1..]]), k, fb, p);
    } else if s.freeList != [] {
      var p := s.freeList[0];
      SomePageFree(s, p);
      TakeShows(s, s.(freeList := s.freeList[1..]), k, 0, p);
    }
  }

  /** The page a write gets: the open page of its bucket, or a new one. */
  lemma FetchAnswer(s: State, k: nat, req: WriteReq, t: State) returns (given: Option<nat>)
    requires Inv(s) && Step(s, DoFetch(k, req), t)
    ensures given.Some? ==> t.writers == s.writers[k := Holding(given.value, req)]
    ensures given.None? ==> t.writers == s.writers
    ensures if s.buckets[k] != [] then given == Some(s.buckets[k][0]) && t.pages == s.pages
            else PageGiven(s, k, req.freeBucket, given, t)
  {
    if s.buckets[k] != [] {
      given := Some(s.buckets[k][0]);
    } else {
      AllocateAnswer(s, k, req.freeBucket);
      given := AllocatePage(s, k, req.freeBucket).1;
    }
  }

  /** The page that takes the place of a full one. */
  lemma NextPageAnswer(s: State, k: nat, t: State) returns (given: Option<nat>)
    requires Inv(s) && Step(s, DoNextPage(k), t)
    ensures t.writers == s.writers[k := Idle] && PageGiven(s, k, s.writers[k].freeBucket, given, t)
  {
    AllocateAnswer(s, k, s.writers[k].freeBucket);
    given := AllocatePage(s, k, s.writers[k].freeBucket).1;
  }

  // ---------------------------------------------------------------- the maintenance thread

  /** Nobody writes to or reads the page, and nobody needs what is on it. */
  ghost predicate Spent(pg: Page) {
    !pg.free && !pg.active && pg.refcount == 0 && (pg.closed || pg.objCount == 0)
  }

  /** Nobody writes to the page, and it holds objects that may be given up. */
  ghost predicate MayGo(pg: Page) {
    !pg.free && !pg.active && !pg.closed && pg.objCount > 0 && pg.freeBucket == 0
  }

  /** What freeing makes of a page. */
  ghost predicate Blanked(pg: Page, q: Page) {
    && q.free && q.version == 0 && q.objCount == 0 && q.bytesUsed == 0 && q.alloc == 0 && q.written == 0
    && !q.closed && !q.active && q.freeBucket == pg.freeBucket
  }

  /** No page is spent, none can be had from the default free list, and there is one that may go. */
  ghost predicate Short(s: State) {
    && (s.pageFree == 0 || s.freeList == []) && (forall i :: 0 <= i < |s.pages| ==> !Spent(s.pages[i]))
    && exists i :: 0 <= i < |s.pages| && MayGo(s.pages[i])
  }

  /** Of the pages that may go page v is the oldest; it is closed now, or free if nobody reads it. */
  ghost predicate GaveUp(before: seq<Page>, v: nat, after: seq<Page>) {
    && v < |before| == |after| && MayGo(before[v])
    && (forall i :: 0 <= i < |before| && MayGo(before[i]) ==> before[v].version <= before[i].version)
    && (forall i :: 0 <= i < |before| && i != v ==> after[i] == before[i])
    && if before[v].refcount == 0 then Blanked(before[v], after[v]) else after[v] == before[v].(closed := true)
  }

  /** What an undisturbed turn of the maintenance thread does to every page, over the fields of the pages. */
  lemma TurnAnswer(s: State)
    requires Inv(s) && s.maint.Waiting?
    ensures Inv(MaintWake(s))
    ensures var u := Pass(MaintWake(s));
            && u.maint.Scanning? && u.maint.next == u.c.pageCount && WellFormed(u)
            && var after := MaintEvict(u).pages;
            && |after| == |s.pages|
            && if Short(s) then exists v: nat :: GaveUp(s.pages, v, after)
               else forall i :: 0 <= i < |after| ==>
                      if Spent(s.pages[i]) then Blanked(s.pages[i], after[i]) else after[i] == s.pages[i]
  {
    EvictsTheOldest(s);
    SameWords(s);
    var after := MaintEvict(Pass(MaintWake(s))).pages;
    if Short(s) {
      var v: nat :| EvictedOldest(s.pages, v, after);
      assert GaveUp(s.pages, v, after);
    }
  }

  lemma SameWords(s: State)
    ensures Short(s) <==> MustEvict(s)
  {
    assert forall i :: 0 <= i < |s.pages| ==> (Spent(s.pages[i]) <==> Reclaimable(s.pages[i]));
    assert forall i :: 0 <= i < |s.pages| ==> (MayGo(s.pages[i]) <==> Candidate(s.pages[i]));
  }
}
