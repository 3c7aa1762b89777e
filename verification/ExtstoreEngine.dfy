/**
 * The store engine as the program holds it: one object whose fields the critical sections update in place.
 * Its methods compute the step functions of the state machine; Perform ties them to the invariant.
 */
module ExtstoreEngine {
  import opened Base
  import opened ExtstoreTypes
  import opened ExtstoreShape
  import opened ExtstoreModel
  import opened ExtstoreParts
  import opened ExtstoreInv
  import opened ExtstoreMaint
  import opened ExtstoreRuns
  import opened ExtstoreSteps
  import opened ExtstoreTheorems
  import opened ExtstoreBooks

  function SumLens(lens: seq<nat>): nat {
    if lens == [] then 0 else SumLens(lens[..|lens| - 1]) + lens[|lens| - 1]
  }

  lemma {:induction false} SumLensGrows(lens: seq<nat>, i: nat)
    requires i <= |lens|
    ensures SumLens(lens[..i]) <= SumLens(lens)
  {
    if i < |lens| {
      SumLensGrows(lens[..|lens| - 1], i);
      assert lens[..|lens| - 1][..i] == lens[..i];
    } else {
      assert lens[..i] == lens;
    }
  }

  lemma SumLensStep(lens: seq<nat>, x: nat)
    requires x < |lens|
    ensures SumLens(lens[..x + 1]) == SumLens(lens[..x]) + lens[x] <= SumLens(lens)
  {
    assert lens[..x + 1][..x] == lens[..x];
    SumLensGrows(lens, x + 1);
  }

  /** The iovec form of _read_from_wbuf: the pieces, put together, are the flat copy (lines 736-745). */
  method ReadIovs(buf: seq<Byte>, at: nat, lens: seq<nat>) returns (parts: seq<seq<Byte>>)
    requires at + SumLens(lens) <= |buf|
    ensures |parts| == |lens| && forall x :: 0 <= x < |lens| ==> |parts[x]| == lens[x]
    ensures Concat(parts) == buf[at..at + SumLens(lens)]
  {
    parts := [];
    var off := at;
    for x := 0 to |lens|
      invariant |parts| == x && forall y :: 0 <= y < x ==> |parts[y]| == lens[y]
      invariant off == at + SumLens(lens[..x]) <= |buf|
      invariant Concat(parts) == buf[at..off]
    {
      SumLensStep(lens, x);
      var piece := buf[off..off + lens[x]];
      ConcatPush(parts, piece);
      assert buf[at..off + lens[x]] == buf[at..off] + piece;
      parts := parts + [piece];
      off := off + lens[x];
    }
    assert lens[..|lens|] == lens;
  }

  /** The list set-up of extstore_init: pages are pushed from the last one down to page 1 (lines 344-354). */
  method SetUpLists(c: Config, fbs: seq<nat>) returns (freeList: seq<nat>, freeBuckets: seq<seq<nat>>, pageFree: nat)
    requires 0 < |fbs| == c.pageCount && 0 < c.bucketCount && forall i :: 0 <= i < |fbs| ==> fbs[i] < c.bucketCount
    ensures pageFree == c.pageCount - 1 && freeList == PagesOf(fbs, 1, 0) && |freeBuckets| == c.bucketCount
    ensures freeBuckets[0] == [] && forall k :: 1 <= k < c.bucketCount ==> freeBuckets[k] == PagesOf(fbs, 1, k)
  {
    freeList, freeBuckets, pageFree := [], seq(c.bucketCount, _ => []), 0;
    var i := c.pageCount - 1;
    while i > 0
      invariant 0 <= i < c.pageCount && pageFree == c.pageCount - 1 - i
      invariant |freeBuckets| == c.bucketCount && freeBuckets[0] == []
      invariant freeList == PagesOf(fbs, i + 1, 0)
      invariant forall k :: 1 <= k < c.bucketCount ==> freeBuckets[k] == PagesOf(fbs, i + 1, k)
    {
      pageFree := pageFree + 1;
      if fbs[i] == 0 {
        freeList := [i] + freeList;
      } else {
        freeBuckets := freeBuckets[fbs[i] := [i] + freeBuckets[fbs[i]]];
      }
      i := i - 1;
    }
  }

  /** The walk of _free_page along a bucket chain to unlink one page (lines 878-891). */
  method Unlink(chain: seq<nat>, p: nat) returns (rest: seq<nat>)
    ensures rest == Without(chain, p)
  {
    var j := 0;
    while j < |chain| && chain[j] != p
      invariant 0 <= j <= |chain| && p !in chain[..j]
    {
      j := j + 1;
    }
    WithoutAt(chain, p, j);
    rest := if j < |chain| then chain[..j] + chain[j + 1..] else chain;
  }

  /** The choice of a free page in _allocate_page (lines 420-431). */
  method PopFreePage(freeList: seq<nat>, freeBuckets: seq<seq<nat>>, fb: nat)
    returns (rest: seq<nat>, special: seq<seq<nat>>, tmp: Option<nat>)
    requires fb < |freeBuckets|
    ensures (rest, special, tmp) == PopFree(freeList, freeBuckets, fb)
  {
    rest, special, tmp := freeList, freeBuckets, None;
    if fb != 0 && special[fb] != [] {
      tmp := Some(special[fb][0]);
      special := special[fb := special[fb][1..]];
    }
    if tmp.None? && rest != [] {
      tmp := Some(rest[0]);
      rest := rest[1..];
    }
  }

  lemma Doing(s: State, a: Action)
    requires Inv(s) && Enabled(s, a)
    ensures WellFormed(s) && Asserts(s, a) && Inv(Next(s, a))
  {
    StepKeepsInv(s, a);
  }

  lemma IsDone(s: State, a: Action, t: State)
    requires WellFormed(s) && Enabled(s, a) && Asserts(s, a) && t == Next(s, a) && Inv(Next(s, a))
    ensures Did(s, a, t)
  {
  }

  lemma RunGrows(run: seq<State>, acts: seq<Action>, a: Action, t: State)
    requires IsRun(run, acts) && Step(run[|acts|], a, t)
    ensures IsRun(run + [t], acts + [a])
  {
    var r, b := run + [t], acts + [a];
    forall i {:trigger b[i]} | 0 <= i < |b| ensures Step(r[i], b[i], r[i + 1]) {
      if i < |acts| {
        assert r[i] == run[i] && b[i] == acts[i] && r[i + 1] == run[i + 1];
        assert Step(run[i], acts[i], run[i + 1]);
      } else {
        assert r[i] == run[|acts|] && b[i] == a && r[i + 1] == t;
      }
    }
  }

  /** A run that starts with state `first`, ends with state `last` and takes the first i steps of the schedule. */
  ghost predicate Driven(run: seq<State>, schedule: seq<Action>, i: nat, first: State, last: State) {
    i <= |schedule| && IsRun(run, schedule[..i]) && run[0] == first && run[i] == last
  }

  lemma DidIsStep(s: State, a: Action, t: State)
    requires Did(s, a, t)
    ensures Step(s, a, t)
  {
  }

  lemma DriveOn(run: seq<State>, schedule: seq<Action>, i: nat, first: State, last: State, t: State)
    requires Driven(run, schedule, i, first, last) && i < |schedule| && Step(last, schedule[i], t)
    ensures Driven(run + [t], schedule, i + 1, first, t)
  {
    var acts, more := schedule[..i], schedule[..i + 1];
    assert more == acts + [schedule[i]] && |acts| == i && |run| == i + 1;
    RunGrows(run, acts, schedule[i], t);
    assert (run + [t])[0] == run[0] && (run + [t])[i + 1] == t;
  }

  class Engine {
    const c: Config
    var pages: seq<Page>
    var wbufs: seq<Wbuf>
    var wbufStack: seq<nat>
    var ios: seq<Io>
    var ioStack: seq<nat>
    var disk: seq<seq<Byte>>
    var freeList: seq<nat>
    var freeBuckets: seq<seq<nat>>
    var buckets: seq<seq<nat>>
    var pageFree: nat
    var version: nat
    var bytesUsed: int
    var objectsUsed: int
    var writers: seq<Writer>
    var maint: Maint
    var rds: map<nat, Read>
    // What the callers remember of their own writes. No field of the C engine stands for it; it is not ghost because
    // Drive consults it to admit only reads of handles that writes have returned.
    var log: map<Handle, seq<Byte>>

    function State(): State
      reads this
    {
      ExtstoreTypes.State(c, pages, wbufs, wbufStack, ios, ioStack, disk, freeList, freeBuckets, buckets,
                          pageFree, version, bytesUsed, objectsUsed, writers, maint, rds, log)
    }

    /** extstore_init: pages are pushed on their free lists from the last one down to page 1 (lines 344-379). */
    constructor (c: Config, fbs: seq<nat>, disk: seq<seq<Byte>>)
      requires InitOk(c, fbs, disk)
      ensures State() == InitState(c, fbs, disk)
    {
      this.c := c;
      pages := seq(|fbs|, i requires 0 <= i < |fbs| => BlankPage(fbs[i]));
      wbufs := seq(c.wbufCount, _ => Wbuf(Zeros(c.wbufSize), c.wbufSize, 0, false));
      wbufStack := UpTo(c.wbufCount);
      ios := seq(c.wbufCount, _ => OnStack);
      ioStack := UpTo(c.wbufCount);
      this.disk := disk;
      var default, special, count := SetUpLists(c, fbs);
      freeList, freeBuckets, pageFree := default, special, count;
      buckets := seq(c.bucketCount, _ => []);
      version := 1;
      bytesUsed := 0;
      objectsUsed := 0;
      writers := seq(c.bucketCount, _ => Idle);
      maint := Waiting;
      rds := map[];
      log := map[];
      assert special == InitState(c, fbs, disk).freeBuckets;
    }

    /** The part of _allocate_page that links the page (lines 435-443). */
    method TakePage(k: nat, p: nat)
      requires k < |buckets| && p < |pages| && pageFree > 0
      modifies this
      ensures State() == ExtstoreModel.TakePage(old(State()), k, p)
    {
      buckets := buckets[k := [p] + buckets[k]];
      pages := pages[p := pages[p].(active := true, free := false, closed := false, version := version, bucket := k)];
      version := version + 1;
      pageFree := pageFree - 1;
    }

    /** _allocate_page (lines 417-451). */
    method AllocatePage(k: nat, fb: nat) returns (tmp: Option<nat>)
      requires WellFormed(State()) && k < c.bucketCount && fb < c.bucketCount
      requires buckets[k] == [] || pages[buckets[k][0]].alloc == c.pageSize
      modifies this
      ensures (State(), tmp) == ExtstoreModel.AllocatePage(old(State()), k, fb)
    {
      freeList, freeBuckets, tmp := PopFreePage(freeList, freeBuckets, fb);
      if pageFree > 0 && tmp.Some? {
        TakePage(k, tmp.value);
      }
    }

    /** _submit_wbuf and its caller's marking of the buffer (lines 513-534, 578). */
    method SubmitWbuf(p: nat)
      requires WellFormed(State()) && p < c.pageCount && pages[p].wbuf.Some? && ioStack != []
      modifies this
      ensures State() == ExtstoreModel.SubmitWbuf(old(State()), p)
    {
      var io := ioStack[0];
      ioStack := ioStack[1..];
      var w := pages[p].wbuf.value;
      var b := wbufs[w];
      wbufs := wbufs[w := b.(buf := b.buf[..|b.buf| - b.free] + Zeros(b.free), full := true)];
      ios := ios[io := Queued(p, w, b.offset)];
    }

    /** _allocate_wbuf (lines 454-474). */
    method AllocateWbuf(p: nat)
      requires WellFormed(State()) && p < c.pageCount && pages[p].wbuf.None?
      modifies this
      ensures State() == ExtstoreModel.AllocateWbuf(old(State()), p)
    {
      if wbufStack != [] {
        var w := wbufStack[0];
        wbufStack := wbufStack[1..];
        wbufs := wbufs[w := wbufs[w].(offset := pages[p].alloc, free := c.wbufSize, full := false)];
        pages := pages[p := pages[p].(alloc := pages[p].alloc + c.wbufSize, wbuf := Some(w))];
      }
    }

    /** The copy into the buffer and extstore_write (lines 588-619). */
    method StoreObject(p: nat, data: seq<Byte>) returns (h: Handle)
      requires WellFormed(State()) && p < c.pageCount && HasRoom(State(), p, |data|)
      modifies this
      ensures State() == ExtstoreModel.StoreObject(old(State()), p, data)
      ensures h in log && log[h] == data && h.page == p && h.version == pages[p].version
    {
      var w := pages[p].wbuf.value;
      var b := wbufs[w];
      var at := c.wbufSize - b.free;
      h := Handle(p, pages[p].version, b.offset + at);
      wbufs := wbufs[w := b.(buf := b.buf[..at] + data + b.buf[at + |data|..], free := b.free - |data|)];
      pages := pages[p := pages[p].(bytesUsed := pages[p].bytesUsed + |data|, objCount := pages[p].objCount + 1)];
      bytesUsed := bytesUsed + |data|;
      objectsUsed := objectsUsed + 1;
      log := log[h := data];
    }

    /** The first critical section of extstore_write_request (lines 553-560). */
    method FetchPage(k: nat, req: WriteReq)
      requires WellFormed(State()) && k < c.bucketCount && req.freeBucket < c.bucketCount
      modifies this
      ensures State() == ExtstoreModel.FetchPage(old(State()), k, req)
    {
      var p: Option<nat>;
      if buckets[k] != [] {
        p := Some(buckets[k][0]);
      } else {
        p := AllocatePage(k, req.freeBucket);
      }
      if p.Some? {
        writers := writers[k := Holding(p.value, req)];
      }
    }

    /** The third critical section of extstore_write_request (lines 569-572). */
    method NextPage(k: nat)
      requires WellFormed(State()) && k < c.bucketCount && writers[k].NeedPage?
      requires buckets[k] == [] || pages[buckets[k][0]].alloc == c.pageSize
      modifies this
      ensures State() == ExtstoreModel.NextPage(old(State()), k)
    {
      var tmp := AllocatePage(k, writers[k].freeBucket);
      writers := writers[k := Idle];
    }

    /** The second critical section, under the page mutex, through to extstore_write (lines 562-619). */
    method WriteToPage(k: nat) returns (stored: Option<Handle>)
      requires WellFormed(State()) && k < c.bucketCount && writers[k].Holding?
      requires MustFlush(State(), writers[k].page, |writers[k].req.data|) ==> ioStack != []
      modifies this
      ensures State() == ExtstoreModel.WriteToPage(old(State()), k)
      ensures stored.Some? ==> stored.value in log && log[stored.value] == old(writers[k].req.data)
      ensures stored.None? ==> log == old(log)
    {
      stored := None;
      var p, data, fb := writers[k].page, writers[k].req.data, writers[k].req.freeBucket;
      if !pages[p].active || ((pages[p].wbuf.None? || wbufs[pages[p].wbuf.value].full) && pages[p].alloc >= c.pageSize) {
        writers := writers[k := NeedPage(fb)];
        return;
      }
      writers := writers[k := Idle];
      if pages[p].wbuf.Some? && wbufs[pages[p].wbuf.value].free < |data| && !wbufs[pages[p].wbuf.value].full {
        SubmitWbuf(p);
        return;
      }
      if pages[p].wbuf.None? && pages[p].alloc < c.pageSize {
        AllocateWbuf(p);
      }
      if pages[p].wbuf.Some? && !wbufs[pages[p].wbuf.value].full && wbufs[pages[p].wbuf.value].free >= |data| {
        var h := StoreObject(p, data);
        stored := Some(h);
      }
    }

    /** pwrite by an IO thread (line 841). */
    method FlushIo(io: nat)
      requires WellFormed(State()) && io < c.wbufCount && ios[io].Queued?
      modifies this
      ensures State() == ExtstoreModel.FlushIo(old(State()), io)
    {
      var q := ios[io];
      disk := disk[q.page := Overwrite(disk[q.page], q.offset, wbufs[q.wbuf].buf)];
      ios := ios[io := Flushed(q.page, q.wbuf, q.offset)];
    }

    /** _wbuf_cb (lines 482-508). */
    method FlushCallback(io: nat)
      requires WellFormed(State()) && io < c.wbufCount && ios[io].Flushed?
      requires pages[ios[io].page].wbuf == Some(ios[io].wbuf)
      requires pages[ios[io].page].written == wbufs[ios[io].wbuf].offset
      modifies this
      ensures State() == ExtstoreModel.FlushCallback(old(State()), io)
    {
      var p, w := ios[io].page, ios[io].wbuf;
      pages := pages[p := pages[p].(written := pages[p].written + c.wbufSize, wbuf := None)];
      if pages[p].written == c.pageSize {
        pages := pages[p := pages[p].(active := false)];
      }
      wbufStack := [w] + wbufStack;
      ioStack := [io] + ioStack;
      ios := ios[io := OnStack];
    }

    /** extstore_submit of a read. */
    method Submit(r: nat, h: Handle, len: nat)
      modifies this
      ensures State() == SubmitRead(old(State()), r, h, len)
    {
      rds := rds[r := Submitted(h, len)];
    }

    /** The checks of the IO thread, and _read_from_wbuf (lines 730-747, 799-815). */
    method CheckRead(r: nat)
      requires WellFormed(State()) && r in rds && rds[r].Submitted?
      requires Readable(State(), rds[r].h) && InWbuf(State(), rds[r].h) ==> WbufCovers(State(), rds[r].h, rds[r].len)
      modifies this
      ensures State() == ExtstoreModel.CheckRead(old(State()), r)
    {
      var h, len := rds[r].h, rds[r].len;
      if !Readable(State(), h) {
        rds := rds[r := Done(h, len, Miss)];
      } else if InWbuf(State(), h) {
        var b := wbufs[pages[h.page].wbuf.value];
        rds := rds[r := Done(h, len, Data(b.buf[h.offset - b.offset..h.offset - b.offset + len]))];
      } else {
        rds := rds[r := InFlight(h, len)];
        pages := pages[h.page := pages[h.page].(refcount := pages[h.page].refcount + 1)];
      }
    }

    /** pread (lines 829-833). */
    method ReadDisk(r: nat)
      requires WellFormed(State()) && r in rds && rds[r].InFlight? && rds[r].h.offset + rds[r].len <= c.pageSize
      modifies this
      ensures State() == ExtstoreModel.ReadDisk(old(State()), r)
    {
      var h, len := rds[r].h, rds[r].len;
      rds := rds[r := GotData(h, len, disk[h.page][h.offset..h.offset + len])];
    }

    /** The end of a read from disk (lines 853-858). */
    method ReleaseRead(r: nat)
      requires WellFormed(State()) && r in rds && rds[r].GotData? && pages[rds[r].h.page].refcount > 0
      modifies this
      ensures State() == ExtstoreModel.ReleaseRead(old(State()), r)
    {
      var h := rds[r].h;
      pages := pages[h.page := pages[h.page].(refcount := pages[h.page].refcount - 1)];
      rds := rds[r := Done(h, rds[r].len, Data(rds[r].bytes))];
    }

    /** extstore_close_page (lines 712-722). */
    method ClosePage(p: nat, pageVersion: nat)
      requires WellFormed(State()) && p < c.pageCount
      modifies this
      ensures State() == ExtstoreModel.ClosePage(old(State()), p, pageVersion)
    {
      if !pages[p].closed && pages[p].version == pageVersion {
        pages := pages[p := pages[p].(closed := true)];
      }
    }

    /** extstore_delete (lines 664-697). */
    method Delete(p: nat, pageVersion: nat, count: nat, bytes: nat) returns (ok: bool)
      requires WellFormed(State()) && p < c.pageCount
      modifies this
      ensures State() == ExtstoreModel.Delete(old(State()), p, pageVersion, count, bytes)
      ensures ok <==> !old(pages[p].closed) && old(pages[p].version) == pageVersion
    {
      ok := !pages[p].closed && pages[p].version == pageVersion;
      if ok {
        if pages[p].bytesUsed >= bytes {
          pages := pages[p := pages[p].(bytesUsed := pages[p].bytesUsed - bytes)];
        } else {
          pages := pages[p := pages[p].(bytesUsed := 0)];
        }
        if pages[p].objCount >= count {
          pages := pages[p := pages[p].(objCount := pages[p].objCount - count)];
        } else {
          pages := pages[p := pages[p].(objCount := 0)];
        }
        bytesUsed := bytesUsed - bytes;
        objectsUsed := objectsUsed - count;
      }
    }

    /** The first half of _free_page; the bucket chain is walked to unlink the page (lines 867-901). */
    method ResetPage(p: nat)
      requires p < |pages| && pages[p].bucket < |buckets|
      modifies this
      ensures State() == ExtstoreModel.ResetPage(old(State()), p)
    {
      var pg := pages[p];
      objectsUsed := objectsUsed - pg.objCount;
      bytesUsed := bytesUsed - pg.bytesUsed;
      var rest := Unlink(buckets[pg.bucket], p);
      buckets := buckets[pg.bucket := rest];
      pages := pages[p := pg.(version := 0, objCount := 0, bytesUsed := 0, alloc := 0, written := 0,
                              bucket := 0, active := false, closed := false, free := true)];
    }

    /** The second half of _free_page (lines 902-911). */
    method PushFree(p: nat)
      requires p < |pages| && pages[p].freeBucket < |freeBuckets|
      modifies this
      ensures State() == ExtstoreModel.PushFree(old(State()), p)
    {
      var fb := pages[p].freeBucket;
      if fb != 0 {
        freeBuckets := freeBuckets[fb := [p] + freeBuckets[fb]];
      } else {
        freeList := [p] + freeList;
      }
      pageFree := pageFree + 1;
    }

    /** _free_page (lines 867-913). */
    method FreePage(p: nat)
      requires p < |pages| && pages[p].bucket < |buckets| && pages[p].freeBucket < |freeBuckets|
      modifies this
      ensures State() == ExtstoreModel.FreePage(old(State()), p)
    {
      ResetPage(p);
      PushFree(p);
    }

    /** One iteration of the maintenance scan (lines 951-978). */
    method ScanPage()
      requires WellFormed(State()) && maint.Scanning? && maint.next < c.pageCount
      modifies this
      ensures State() == MaintScan(old(State()))
    {
      var i := maint.next;
      var pg := pages[i];
      var low := maint.low;
      if !pg.active && !pg.free && pg.objCount > 0 && !pg.closed && pg.freeBucket == 0
         && (low.None? || pg.version < low.value.version) {
        low := Some(Victim(i, pg.version));
      }
      if !pg.active && !pg.free && (pg.objCount == 0 || pg.closed) && pg.refcount == 0 {
        maint := Scanning(i + 1, false, low);
        FreePage(i);
      } else {
        maint := Scanning(i + 1, maint.evict, low);
      }
    }

    /** The end of a maintenance turn (lines 981-998). */
    method EvictPage()
      requires WellFormed(State()) && maint.Scanning? && maint.next == c.pageCount
      modifies this
      ensures State() == MaintEvict(old(State()))
    {
      var turn := maint;
      maint := Waiting;
      if turn.evict && turn.low.Some? && !pages[turn.low.value.page].closed {
        var p := turn.low.value.page;
        pages := pages[p := pages[p].(closed := true)];
        if pages[p].refcount == 0 {
          FreePage(p);
        }
      }
    }

    /** The maintenance thread wakes up (lines 940-947). */
    method Wake()
      modifies this
      ensures State() == MaintWake(old(State()))
    {
      maint := Scanning(0, pageFree == 0 || freeList == [], None);
    }

    /** One undisturbed turn of the maintenance thread (lines 940-998). */
    method MaintTurn()
      requires Inv(State()) && maint.Waiting?
      modifies this
      ensures Inv(State()) && Inv(MaintWake(old(State())))
      ensures var u := Pass(MaintWake(old(State())));
              && WellFormed(u) && u.maint.Scanning? && u.maint.next == u.c.pageCount
              && State() == MaintEvict(u)
    {
      MaintWakeKeepsInv(State());
      PassEnds(MaintWake(State()));
      Wake();
      ghost var target := Pass(State());
      while maint.next < c.pageCount
        invariant Inv(State()) && maint.Scanning? && maint.next <= c.pageCount
        invariant Pass(State()) == target
        decreases c.pageCount - maint.next
      {
        MaintScanKeepsInv(State());
        ScanEffect(State());
        ScanPage();
      }
      MaintEvictKeepsInv(State());
      EvictPage();
    }

    /** The writer of a bucket takes a step. */
    method StepWrite(a: Action)
      requires Inv(State()) && Enabled(State(), a) && (a.DoFetch? || a.DoWrite? || a.DoNextPage?)
      modifies this
      ensures Did(old(State()), a, State())
    {
      ghost var s := State();
      Doing(s, a);
      match a {
        case DoFetch(k, req) => FetchPage(k, req);
        case DoWrite(k) => var stored := WriteToPage(k);
        case DoNextPage(k) => NextPage(k);
      }
      IsDone(s, a, State());
    }

    /** An IO thread flushes a buffer, or runs its callback. */
    method StepFlush(a: Action)
      requires Inv(State()) && Enabled(State(), a) && (a.DoFlush? || a.DoCallback?)
      modifies this
      ensures Did(old(State()), a, State())
    {
      ghost var s := State();
      Doing(s, a);
      match a {
        case DoFlush(io) => FlushIo(io);
        case DoCallback(io) => FlushCallback(io);
      }
      IsDone(s, a, State());
    }

    /** A read takes a step. */
    method StepRead(a: Action)
      requires Inv(State()) && Enabled(State(), a) && (a.DoSubmitRead? || a.DoCheckRead? || a.DoReadDisk? || a.DoReleaseRead?)
      modifies this
      ensures Did(old(State()), a, State())
    {
      ghost var s := State();
      Doing(s, a);
      match a {
        case DoSubmitRead(r, h, len) => Submit(r, h, len);
        case DoCheckRead(r) => CheckRead(r);
        case DoReadDisk(r) => ReadDisk(r);
        case DoReleaseRead(r) => ReleaseRead(r);
      }
      IsDone(s, a, State());
    }

    /** A caller deletes from a page, or closes it. */
    method StepOnPage(a: Action)
      requires Inv(State()) && Enabled(State(), a) && (a.DoDelete? || a.DoClose?)
      modifies this
      ensures Did(old(State()), a, State())
    {
      ghost var s := State();
      Doing(s, a);
      match a {
        case DoDelete(p, v, count, bytes) => var ok := Delete(p, v, count, bytes);
        case DoClose(p, v) => ClosePage(p, v);
      }
      IsDone(s, a, State());
    }

    /** The maintenance thread takes a step. */
    method StepMaint(a: Action)
      requires Inv(State()) && Enabled(State(), a) && (a.DoWake? || a.DoScan? || a.DoEvict?)
      modifies this
      ensures Did(old(State()), a, State())
    {
      ghost var s := State();
      Doing(s, a);
      match a {
        case DoWake => Wake();
        case DoScan => ScanPage();
        case DoEvict => EvictPage();
      }
      IsDone(s, a, State());
    }

    /** Any step any thread may take keeps the invariant, and is the step of the state machine. */
    method Perform(a: Action)
      requires Inv(State()) && Enabled(State(), a)
      modifies this
      ensures Did(old(State()), a, State())
    {
      if a.DoFetch? || a.DoWrite? || a.DoNextPage? {
        StepWrite(a);
      } else if a.DoFlush? || a.DoCallback? {
        StepFlush(a);
      } else if a.DoDelete? || a.DoClose? {
        StepOnPage(a);
      } else if a.DoWake? || a.DoScan? || a.DoEvict? {
        StepMaint(a);
      } else {
        StepRead(a);
      }
    }
  }

  /** An engine set up and driven through any schedule: what it does is a run, so every theorem about runs speaks of it. */
  method Drive(c: Config, fbs: seq<nat>, disk: seq<seq<Byte>>, schedule: seq<Action>)
    returns (engine: Engine, ghost run: seq<State>, ghost i: nat)
    requires InitOk(c, fbs, disk)
    ensures Driven(run, schedule, i, InitState(c, fbs, disk), engine.State())
    ensures i == |schedule| || !Enabled(engine.State(), schedule[i])
  {
    engine := new Engine(c, fbs, disk);
    InitKeepsInv(c, fbs, disk);
    run := [engine.State()];
    var k := 0;
    while k < |schedule| && Enabled(engine.State(), schedule[k])
      invariant fresh(engine) && Inv(engine.State())
      invariant k <= |schedule| && Driven(run, schedule, k, InitState(c, fbs, disk), engine.State())
    {
      ghost var s := engine.State();
      engine.Perform(schedule[k]);
      DidIsStep(s, schedule[k], engine.State());
      DriveOn(run, schedule, k, InitState(c, fbs, disk), s, engine.State());
      run := run + [engine.State()];
      k := k + 1;
    }
    i := k;
  }
}
