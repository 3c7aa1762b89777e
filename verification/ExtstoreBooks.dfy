/** The engine's counters, and the order in which pages are evicted. */
module ExtstoreBooks {
  import opened Base
  import opened ExtstoreTypes
  import opened ExtstoreShape
  import opened ExtstoreModel
  import opened ExtstoreParts
  import opened ExtstoreInv
  import opened ExtstoreMaint
  import opened ExtstoreRuns
  import opened ExtstoreSteps
  import opened ExtstoreTheorems

  // ---------------------------------------------------------------- bytes and objects in use

  datatype Use = Use(bytes: int, objects: int)

  function UseOf(p: Page): Use {
    Use(p.bytesUsed, p.objCount)
  }

  function Uses(pages: seq<Page>): (u: seq<Use>)
    ensures |u| == |pages| && forall i :: 0 <= i < |pages| ==> u[i] == UseOf(pages[i])
  {
    seq(|pages|, i requires 0 <= i < |pages| => UseOf(pages[i]))
  }

  function Total(u: seq<Use>): Use {
    if u == [] then Use(0, 0)
    else var t := Total(u[..|u| - 1]); Use(t.bytes + u[|u| - 1].bytes, t.objects + u[|u| - 1].objects)
  }

  lemma {:induction false} TotalUpdate(u: seq<Use>, p: nat, q: Use)
    requires p < |u|
    ensures Total(u[p := q]) == Use(Total(u).bytes - u[p].bytes + q.bytes, Total(u).objects - u[p].objects + q.objects)
  {
    var n := |u| - 1;
    if p == n {
      assert u[p := q][..n] == u[..n];
    } else {
      TotalUpdate(u[..n], p, q);
      assert u[p := q][..n] == u[..n][p := q];
    }
  }

  /** The global counters are the sums over the pages. */
  ghost predicate Balanced(s: State) {
    Total(Uses(s.pages)) == Use(s.bytesUsed, s.objectsUsed)
  }

  /** A delete that reports no more than the page holds (or that the page refuses). */
  predicate TrueDelete(s: State, p: nat, version: nat, count: nat, bytes: nat)
    requires p < |s.pages|
  {
    !s.pages[p].closed && s.pages[p].version == version ==>
      bytes <= s.pages[p].bytesUsed && count <= s.pages[p].objCount
  }

  /** A delete keeps the books exactly when it reports no more than the page holds: the page's counters
      saturate at zero, the global ones do not. */
  lemma DeleteBalances(s: State, p: nat, version: nat, count: nat, bytes: nat)
    requires WellFormed(s) && p < s.c.pageCount && Balanced(s)
    ensures Balanced(Delete(s, p, version, count, bytes)) <==> TrueDelete(s, p, version, count, bytes)
  {
    var t := Delete(s, p, version, count, bytes);
    if !s.pages[p].closed && s.pages[p].version == version {
      TotalUpdate(Uses(s.pages), p, UseOf(t.pages[p]));
      assert Uses(t.pages) == Uses(s.pages)[p := UseOf(t.pages[p])];
    }
  }

  lemma {:induction false} NothingUsed(u: seq<Use>)
    requires forall i :: 0 <= i < |u| ==> u[i] == Use(0, 0)
    ensures Total(u) == Use(0, 0)
  {
    if u != [] { NothingUsed(u[..|u| - 1]); }
  }

  lemma InitBalances(c: Config, fbs: seq<nat>, disk: seq<seq<Byte>>)
    requires InitOk(c, fbs, disk)
    ensures Balanced(InitState(c, fbs, disk))
  {
    NothingUsed(Uses(InitState(c, fbs, disk).pages));
  }

  /** In a fresh engine a delete that names version 0 passes the version check on a free page, and unbalances the books. */
  lemma OverReportingDelete(c: Config, fbs: seq<nat>, disk: seq<seq<Byte>>, bytes: nat)
    requires InitOk(c, fbs, disk) && c.pageCount > 1 && bytes > 0
    ensures var s := InitState(c, fbs, disk); Inv(s) && Balanced(s) && !Balanced(Delete(s, 1, 0, 0, bytes))
  {
    InitKeepsInv(c, fbs, disk);
    InitBalances(c, fbs, disk);
    DeleteBalances(InitState(c, fbs, disk), 1, 0, 0, bytes);
  }

  lemma FirstFetch(c: Config, fbs: seq<nat>, disk: seq<seq<Byte>>, data: seq<Byte>)
    requires InitOk(c, fbs, disk) && c.pageCount > 1 && fbs[1] == 0 && WellFormed(InitState(c, fbs, disk))
    ensures var s := InitState(c, fbs, disk);
            var t := FetchPage(s, 0, WriteReq(0, data));
            && t.c == c && t.pages == s.pages[1 := Taken(BlankPage(0), 0, 1)] && t.wbufs == s.wbufs && t.wbufStack == s.wbufStack
            && t.writers == s.writers[0 := Holding(1, WriteReq(0, data))]
  {
  }

  lemma FirstWrite(s: State, data: seq<Byte>)
    requires WellFormed(s) && s.c.pageCount > 1 && s.writers[0] == Holding(1, WriteReq(0, data))
    requires s.pages[1] == Taken(BlankPage(0), 0, 1) && s.wbufStack != [] && |data| <= s.c.wbufSize
    ensures var p := WriteToPage(s, 0).pages; |p| > 1 && p[1].version == 1 && !p[1].closed && UseOf(p[1]) == Use(|data|, 1)
  {
  }

  /** The first object stored in an engine: which deletes of it, by its own page and version, keep the books. */
  lemma FirstObjectDeleted(c: Config, fbs: seq<nat>, disk: seq<seq<Byte>>, data: seq<Byte>, count: nat, bytes: nat)
    requires InitOk(c, fbs, disk) && c.pageCount > 1 && fbs[1] == 0 && 0 < |data| <= c.wbufSize
    ensures var s := InitState(c, fbs, disk);
            var fetch := DoFetch(0, WriteReq(0, data));
            && WellFormed(s) && Enabled(s, fetch) && Asserts(s, fetch)
            && var t := Next(s, fetch);
               && WellFormed(t) && Enabled(t, DoWrite(0)) && Asserts(t, DoWrite(0))
               && var u := Next(t, DoWrite(0));
                  && Inv(u) && Balanced(u)
                  && (Balanced(Delete(u, 1, 1, count, bytes)) <==> bytes <= |data| && count <= 1)
  {
    InitKeepsInv(c, fbs, disk);
    InitBalances(c, fbs, disk);
    var s := InitState(c, fbs, disk);
    var fetch := DoFetch(0, WriteReq(0, data));
    StepKeepsInv(s, fetch);
    StepBalances(s, fetch);
    FirstFetch(c, fbs, disk, data);
    var t := Next(s, fetch);
    StepKeepsInv(t, DoWrite(0));
    StepBalances(t, DoWrite(0));
    FirstWrite(t, data);
    DeleteBalances(Next(t, DoWrite(0)), 1, 1, count, bytes);
  }

  lemma FreeBalances(s: State, p: nat)
    requires WellFormed(s) && p < s.c.pageCount && Balanced(s)
    ensures Balanced(FreePage(s, p))
  {
    TotalUpdate(Uses(s.pages), p, Use(0, 0));
    assert Uses(FreePage(s, p).pages) == Uses(s.pages)[p := Use(0, 0)];
  }

  lemma StoreBalances(s: State, p: nat, data: seq<Byte>)
    requires WellFormed(s) && p < s.c.pageCount && HasRoom(s, p, |data|) && Balanced(s)
    ensures Balanced(StoreObject(s, p, data))
  {
    var t := StoreObject(s, p, data);
    TotalUpdate(Uses(s.pages), p, UseOf(t.pages[p]));
    assert Uses(t.pages) == Uses(s.pages)[p := UseOf(t.pages[p])];
  }

  lemma SamePagesBalance(s: State, t: State)
    requires Balanced(s) && |t.pages| == |s.pages| && t.bytesUsed == s.bytesUsed && t.objectsUsed == s.objectsUsed
    requires forall i :: 0 <= i < |s.pages| ==> UseOf(t.pages[i]) == UseOf(s.pages[i])
    ensures Balanced(t)
  {
    assert Uses(t.pages) == Uses(s.pages);
  }

  lemma WriteBalances(s: State, k: nat)
    requires WellFormed(s) && k < s.c.bucketCount && s.writers[k].Holding? && Balanced(s)
    requires MustFlush(s, s.writers[k].page, |s.writers[k].req.data|) ==> s.ioStack != []
    ensures Balanced(WriteToPage(s, k))
  {
    var p := s.writers[k].page;
    var data := s.writers[k].req.data;
    var t := s.(writers := s.writers[k := Idle]);
    SamePagesBalance(s, t);
    if Exhausted(s, p) {
      SamePagesBalance(s, WriteToPage(s, k));
    } else if MustFlush(s, p, |data|) {
      SamePagesBalance(s, SubmitWbuf(t, p));
    } else if s.pages[p].wbuf.None? && s.pages[p].alloc < s.c.pageSize {
      var u := AllocateWbuf(t, p);
      SamePagesBalance(s, u);
      if HasRoom(u, p, |data|) { StoreBalances(u, p, data); }
    } else if HasRoom(t, p, |data|) {
      StoreBalances(t, p, data);
    }
  }

  lemma ScanBalances(s: State)
    requires WellFormed(s) && s.maint.Scanning? && s.maint.next < s.c.pageCount && Balanced(s)
    ensures Balanced(MaintScan(s))
  {
    var i := s.maint.next;
    var t := s.(maint := Scanning(i + 1, false, Lower(s.maint.low, i, s.pages[i])));
    SamePagesBalance(s, t);
    if Reclaimable(s.pages[i]) { FreeBalances(t, i); }
  }

  lemma EvictBalances(s: State)
    requires WellFormed(s) && s.maint.Scanning? && s.maint.next == s.c.pageCount && Balanced(s)
    ensures Balanced(MaintEvict(s))
  {
    var t := s.(maint := Waiting);
    SamePagesBalance(s, t);
    if s.maint.evict && s.maint.low.Some? && !s.pages[s.maint.low.value.page].closed {
      var p := s.maint.low.value.page;
      var u := t.(pages := t.pages[p := t.pages[p].(closed := true)]);
      SamePagesBalance(s, u);
      if s.pages[p].refcount == 0 { FreeBalances(u, p); }
    }
  }

  /** The steps that use no more and no less of any page. */
  predicate UsesNothing(a: Action) {
    !a.DoWrite? && !a.DoDelete? && !a.DoScan? && !a.DoEvict?
  }

  lemma PageTakenUses(s: State, k: nat, fb: nat, w: Writer)
    requires WellFormed(s) && k < s.c.bucketCount && fb < s.c.bucketCount && Balanced(s)
    requires s.buckets[k] == [] || s.pages[s.buckets[k][0]].alloc == s.c.pageSize
    ensures var t := AllocatePage(s, k, fb).0; |t.writers| > k && Balanced(t) && Balanced(t.(writers := t.writers[k := w]))
  {
    var t := AllocatePage(s, k, fb).0;
    SamePagesBalance(s, t);
    SamePagesBalance(s, t.(writers := t.writers[k := w]));
  }

  lemma OtherStepBalances(s: State, a: Action)
    requires WellFormed(s) && Enabled(s, a) && Asserts(s, a) && Balanced(s) && UsesNothing(a)
    ensures Balanced(Next(s, a))
  {
    match a
    case DoFetch(k, req) =>
      if s.buckets[k] == [] {
        var p := AllocatePage(s, k, req.freeBucket).1;
        PageTakenUses(s, k, req.freeBucket, if p.Some? then Holding(p.value, req) else Idle);
      }
    case DoNextPage(k) => PageTakenUses(s, k, s.writers[k].freeBucket, Idle);
    case DoCallback(io) => SamePagesBalance(s, Next(s, a));
    case DoCheckRead(r) => SamePagesBalance(s, Next(s, a));
    case DoReleaseRead(r) => SamePagesBalance(s, Next(s, a));
    case DoClose(p, version) => SamePagesBalance(s, Next(s, a));
    case _ =>
  }

  lemma StepBalances(s: State, a: Action)
    requires WellFormed(s) && Enabled(s, a) && Asserts(s, a) && Balanced(s)
    requires a.DoDelete? ==> TrueDelete(s, a.p, a.version, a.count, a.bytes)
    ensures Balanced(Next(s, a))
  {
    match a
    case DoWrite(k) => WriteBalances(s, k);
    case DoDelete(p, version, count, bytes) => DeleteBalances(s, p, version, count, bytes);
    case DoScan => ScanBalances(s);
    case DoEvict => EvictBalances(s);
    case _ => OtherStepBalances(s, a);
  }

  ghost predicate TrueStep(s: State, a: Action) {
    a.DoDelete? ==> a.p < |s.pages| && TrueDelete(s, a.p, a.version, a.count, a.bytes)
  }

  lemma RunStepBalances(run: seq<State>, acts: seq<Action>, j: nat)
    requires IsRun(run, acts) && j < |acts| && Balanced(run[j]) && TrueStep(run[j], acts[j])
    ensures Balanced(run[j + 1])
  {
    assert Step(run[j], acts[j], run[j + 1]);
    StepBalances(run[j], acts[j]);
  }

  /** In a run whose deletes report true sizes the global counters are always the sums over the pages. */
  lemma {:induction false} BooksBalance(run: seq<State>, acts: seq<Action>, j: nat)
    requires IsRun(run, acts) && j < |run| && Balanced(run[0])
    requires forall i {:trigger acts[i]} :: 0 <= i < |acts| ==> TrueStep(run[i], acts[i])
    ensures Balanced(run[j])
  {
    if j > 0 {
      BooksBalance(run, acts, j - 1);
      RunStepBalances(run, acts, j - 1);
    }
  }

  // ---------------------------------------------------------------- eviction order

  /** The rest of one pass of the maintenance thread over the pages, with no other thread in between. */
  ghost function Pass(s: State): State
    requires Inv(s) && s.maint.Scanning?
    decreases s.c.pageCount - s.maint.next
  {
    if s.maint.next == s.c.pageCount then s
    else MaintScanKeepsInv(s); ScanEffect(s); Pass(MaintScan(s))
  }

  /** `low` names the oldest eligible page among those from `from` on and the earlier candidate. */
  ghost predicate IsOldest(pages: seq<Page>, from: nat, before: Option<Victim>, low: Option<Victim>) {
    && (low.None? <==> before.None? && forall j :: from <= j < |pages| ==> !Candidate(pages[j]))
    && (low.Some? ==>
          && (low == before || (from <= low.value.page < |pages| && Candidate(pages[low.value.page])
                                && low.value.version == pages[low.value.page].version))
          && (before.Some? ==> low.value.version <= before.value.version)
          && forall j :: from <= j < |pages| && Candidate(pages[j]) ==> low.value.version <= pages[j].version)
  }

  ghost predicate NoneReclaimable(pages: seq<Page>, from: nat) {
    forall j :: from <= j < |pages| ==> !Reclaimable(pages[j])
  }

  /** What a pass leaves of the pages: the reclaimable ones freed, the others as they were. */
  ghost predicate Reclaimed(before: seq<Page>, from: nat, after: seq<Page>) {
    && |after| == |before|
    && forall j :: 0 <= j < |before| ==>
         after[j] == if j >= from && Reclaimable(before[j]) then Freed(before[j]) else before[j]
  }

  lemma OldestStep(pages: seq<Page>, rest: seq<Page>, i: nat, before: Option<Victim>, low: Option<Victim>)
    requires i < |pages| == |rest| && (forall j :: i < j < |pages| ==> rest[j] == pages[j])
    requires IsOldest(rest, i + 1, Lower(before, i, pages[i]), low)
    ensures IsOldest(pages, i, before, low)
  {
  }

  /** What one iteration of the scan does to the pages and to the scanner's own variables. */
  lemma ScanEffect(s: State)
    requires WellFormed(s) && s.maint.Scanning? && s.maint.next < s.c.pageCount
    ensures var u := MaintScan(s); var i := s.maint.next; var pg := s.pages[i];
            && u.maint == Scanning(i + 1, s.maint.evict && !Reclaimable(pg), Lower(s.maint.low, i, pg))
            && u.pages == s.pages[i := if Reclaimable(pg) then Freed(pg) else pg] && u.c == s.c
  {
  }

  lemma {:induction false} PassEnds(s: State)
    requires Inv(s) && s.maint.Scanning?
    ensures var t := Pass(s); Inv(t) && t.maint.Scanning? && t.maint.next == t.c.pageCount == s.c.pageCount
    decreases s.c.pageCount - s.maint.next
  {
    if s.maint.next < s.c.pageCount {
      MaintScanKeepsInv(s);
      ScanEffect(s);
      PassEnds(MaintScan(s));
    }
  }

  lemma {:induction false} PassReclaims(s: State)
    requires Inv(s) && s.maint.Scanning?
    ensures Pass(s).maint.Scanning? && Reclaimed(s.pages, s.maint.next, Pass(s).pages)
    ensures Pass(s).maint.evict == (s.maint.evict && NoneReclaimable(s.pages, s.maint.next))
    decreases s.c.pageCount - s.maint.next
  {
    if s.maint.next < s.c.pageCount {
      MaintScanKeepsInv(s);
      ScanEffect(s);
      PassReclaims(MaintScan(s));
      ReclaimStep(s.pages, s.maint.next, MaintScan(s).pages, Pass(MaintScan(s)).pages);
    }
  }

  lemma ReclaimStep(pages: seq<Page>, i: nat, mid: seq<Page>, after: seq<Page>)
    requires i < |pages| && mid == pages[i := if Reclaimable(pages[i]) then Freed(pages[i]) else pages[i]]
    requires Reclaimed(mid, i + 1, after)
    ensures Reclaimed(pages, i, after)
    ensures NoneReclaimable(pages, i) <==> !Reclaimable(pages[i]) && NoneReclaimable(mid, i + 1)
  {
    assert forall j :: i < j < |pages| ==> mid[j] == pages[j];
  }

  lemma {:induction false} PassFindsOldest(s: State)
    requires Inv(s) && s.maint.Scanning?
    ensures Pass(s).maint.Scanning? && IsOldest(s.pages, s.maint.next, s.maint.low, Pass(s).maint.low)
    decreases s.c.pageCount - s.maint.next
  {
    if s.maint.next < s.c.pageCount {
      MaintScanKeepsInv(s);
      ScanEffect(s);
      PassFindsOldest(MaintScan(s));
      OldestStep(s.pages, MaintScan(s).pages, s.maint.next, s.maint.low, Pass(MaintScan(s)).maint.low);
    }
  }

  /** Page `v` is the oldest eligible page, and of all pages only it was closed, and freed if nobody reads it. */
  ghost predicate EvictedOldest(before: seq<Page>, v: nat, after: seq<Page>) {
    && v < |before| && Candidate(before[v])
    && (forall j :: 0 <= j < |before| && Candidate(before[j]) ==> before[v].version <= before[j].version)
    && after == before[v := if before[v].refcount == 0 then Freed(before[v]) else before[v].(closed := true)]
  }

  ghost predicate MustEvict(s: State) {
    && (s.pageFree == 0 || s.freeList == []) && NoneReclaimable(s.pages, 0)
    && exists v :: 0 <= v < |s.pages| && Candidate(s.pages[v])
  }

  /** An undisturbed pass evicts only when the default free list is empty and nothing could be reclaimed, and
      then the page with the lowest version among the eligible ones, and no other. */
  lemma EvictsTheOldest(s: State)
    requires Inv(s) && s.maint.Waiting?
    ensures Inv(MaintWake(s))
    ensures var u := Pass(MaintWake(s));
            && u.maint.Scanning? && u.maint.next == u.c.pageCount && WellFormed(u)
            && if MustEvict(s) then exists v: nat :: EvictedOldest(s.pages, v, MaintEvict(u).pages)
               else Reclaimed(s.pages, 0, MaintEvict(u).pages)
  {
    MaintWakeKeepsInv(s);
    var w := MaintWake(s);
    PassEnds(w);
    PassReclaims(w);
    PassFindsOldest(w);
    var u := Pass(w);
    if u.maint.evict && u.maint.low.Some? {
      UntouchedPages(s.pages, u.pages);
      EvictEffect(u);
      OldestIsEvicted(s.pages, u.maint.low, MaintEvict(u).pages);
    }
  }

  lemma OldestIsEvicted(pages: seq<Page>, low: Option<Victim>, after: seq<Page>)
    requires IsOldest(pages, 0, None, low) && low.Some?
    requires low.value.page < |pages|
    requires var v := low.value.page;
             after == pages[v := if pages[v].refcount == 0 then Freed(pages[v]) else pages[v].(closed := true)]
    ensures EvictedOldest(pages, low.value.page, after)
  {
  }

  lemma UntouchedPages(before: seq<Page>, after: seq<Page>)
    requires Reclaimed(before, 0, after) && NoneReclaimable(before, 0)
    ensures after == before
  {
  }

  lemma EvictEffect(s: State)
    requires WellFormed(s) && s.maint.Scanning? && s.maint.next == s.c.pageCount && s.maint.evict && s.maint.low.Some?
    requires Candidate(s.pages[s.maint.low.value.page])
    ensures var v := s.maint.low.value.page;
            MaintEvict(s).pages == s.pages[v := if s.pages[v].refcount == 0 then Freed(s.pages[v])
                                                else s.pages[v].(closed := true)]
  {
  }
}
