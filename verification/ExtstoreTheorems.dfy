/** What holds in every run of the page store. */
module ExtstoreTheorems {
  import opened Base
  import opened ExtstoreTypes
  import opened ExtstoreShape
  import opened ExtstoreModel
  import opened ExtstoreParts
  import opened ExtstoreInv
  import opened ExtstoreWrites
  import opened ExtstoreReads
  import opened ExtstoreMaint
  import opened ExtstoreRuns
  import opened ExtstoreSteps

  // ---------------------------------------------------------------- the initial state

  /** The pages from `i` on whose free bucket is `k`, in order: what pushing them from the last down builds. */
  function PagesOf(fbs: seq<nat>, i: nat, k: nat): (q: seq<nat>)
    requires i <= |fbs|
    ensures forall x :: x in q <==> i <= x < |fbs| && fbs[x] == k
    ensures forall a, b :: 0 <= a < b < |q| ==> q[a] < q[b]
    decreases |fbs| - i
  {
    if i == |fbs| then []
    else if fbs[i] == k then
      var rest := PagesOf(fbs, i + 1, k);
      assert forall b :: 0 <= b < |rest| ==> rest[b] in rest;
      [i] + rest
    else PagesOf(fbs, i + 1, k)
  }

  function BlankPage(fb: nat): Page {
    Page(0, 0, 0, 0, 0, fb, false, false, true, None, 0, 0)
  }

  function UpTo(n: nat): (q: seq<nat>)
    ensures |q| == n && forall i :: 0 <= i < n ==> q[i] == i && i in q
  {
    if n == 0 then [] else UpTo(n - 1) + [n - 1]
  }

  /** The engine as extstore_init leaves it (lines 307-379); `fbs` gives each page's free bucket. */
  function InitState(c: Config, fbs: seq<nat>, disk: seq<seq<Byte>>): State
    requires |fbs| == c.pageCount && 0 < c.pageCount
  {
    State(c,
          seq(|fbs|, i requires 0 <= i < |fbs| => BlankPage(fbs[i])),
          seq(c.wbufCount, _ => Wbuf(Zeros(c.wbufSize), c.wbufSize, 0, false)), UpTo(c.wbufCount),
          seq(c.wbufCount, _ => OnStack), UpTo(c.wbufCount),
          disk,
          PagesOf(fbs, 1, 0),
          seq(c.bucketCount, k requires 0 <= k => if k == 0 then [] else PagesOf(fbs, 1, k)),
          seq(c.bucketCount, _ => []),
          c.pageCount - 1, 1, 0, 0,
          seq(c.bucketCount, _ => Idle), Waiting, map[], map[])
  }

  ghost predicate InitOk(c: Config, fbs: seq<nat>, disk: seq<seq<Byte>>) {
    && ConfigOk(c) && |fbs| == c.pageCount == |disk|
    && (forall i :: 0 <= i < |fbs| ==> fbs[i] < c.bucketCount)
    && (forall i :: 0 <= i < |disk| ==> |disk[i]| == c.pageSize)
  }

  lemma InitLists(c: Config, fbs: seq<nat>, disk: seq<seq<Byte>>)
    requires InitOk(c, fbs, disk)
    ensures var s := InitState(c, fbs, disk); ListsOk(Homes(s.pages), ListsOf(s))
  {
    var s := InitState(c, fbs, disk);
    var h, l := Homes(s.pages), ListsOf(s);
    forall i | 1 <= i < |h| ensures On(l, h[i], i) {
      assert fbs[i] < c.bucketCount;
    }
    forall at: Where, x: nat | On(l, at, x) ensures 1 <= x < |h| && h[x] == at {
    }
  }

  lemma {:induction false} AllFree(h: seq<Where>)
    requires 0 < |h| && forall i :: 0 <= i < |h| ==> !h[i].InBucket?
    ensures |FreeSet(h)| == |h| - 1
  {
    var n := |h| - 1;
    if n == 0 {
      assert FreeSet(h) == {};
    } else {
      AllFree(h[..n]);
      assert FreeSet(h) == FreeSet(h[..n]) + {n};
    }
  }

  lemma InitShape(c: Config, fbs: seq<nat>, disk: seq<seq<Byte>>)
    requires InitOk(c, fbs, disk)
    ensures WellFormed(InitState(c, fbs, disk))
  {
    InitLists(c, fbs, disk);
    ListRefsFromLists(InitState(c, fbs, disk));
  }

  /** The engine starts in a good state. */
  lemma InitKeepsInv(c: Config, fbs: seq<nat>, disk: seq<seq<Byte>>)
    requires InitOk(c, fbs, disk)
    ensures Inv(InitState(c, fbs, disk))
  {
    InitShape(c, fbs, disk);
    InitLists(c, fbs, disk);
    AllFree(Homes(InitState(c, fbs, disk).pages));
  }

  // ---------------------------------------------------------------- runs

  /** `run` is a sequence of states, one step apart, whose first state is good. */
  ghost predicate IsRun(run: seq<State>, acts: seq<Action>) {
    && |run| == |acts| + 1 && Inv(run[0])
    && forall i {:trigger acts[i]} :: 0 <= i < |acts| ==> Step(run[i], acts[i], run[i + 1])
  }

  lemma GoodStep(s: State, a: Action, t: State)
    requires Inv(s) && Step(s, a, t)
    ensures Inv(t)
  {
    StepKeepsInv(s, a);
  }

  lemma StepAt(run: seq<State>, acts: seq<Action>, i: nat)
    requires IsRun(run, acts) && i < |acts|
    ensures Step(run[i], acts[i], run[i + 1])
  {
  }

  lemma NextIsGood(run: seq<State>, acts: seq<Action>, i: nat, s: State, t: State)
    requires IsRun(run, acts) && i < |acts| && s == run[i] && t == run[i + 1] && Inv(s)
    ensures Inv(t)
  {
    StepAt(run, acts, i);
    GoodStep(s, acts[i], t);
  }

  lemma {:induction false} RunKeepsInv(run: seq<State>, acts: seq<Action>, i: nat)
    requires IsRun(run, acts) && i < |run|
    ensures Inv(run[i])
  {
    if i > 0 {
      RunKeepsInv(run, acts, i - 1);
      NextIsGood(run, acts, i - 1, run[i - 1], run[i]);
    }
  }

  /** In no state of any run can a thread take a step that trips an assertion. */
  lemma RunIsSafe(run: seq<State>, acts: seq<Action>, i: nat, a: Action)
    requires IsRun(run, acts) && i < |run| && Enabled(run[i], a)
    ensures Inv(run[i]) && Asserts(run[i], a)
  {
    RunKeepsInv(run, acts, i);
    AssertsHold(run[i], a);
  }

  // ---------------------------------------------------------------- objects keep their bytes

  ghost predicate Extends(log: map<Handle, seq<Byte>>, more: map<Handle, seq<Byte>>) {
    forall h :: h in log ==> h in more && more[h] == log[h]
  }

  lemma StoreExtendsLog(s: State, p: nat, data: seq<Byte>)
    requires Inv(s) && p < s.c.pageCount && HasRoom(s, p, |data|)
    ensures Extends(s.log, StoreObject(s, p, data).log)
  {
    var b := s.wbufs[s.pages[p].wbuf.value];
    NewHandleIsFresh(s, p, Handle(p, s.pages[p].version, b.offset + (s.c.wbufSize - b.free)));
  }

  lemma WriteExtendsLog(s: State, k: nat)
    requires Inv(s) && k < s.c.bucketCount && s.writers[k].Holding?
    requires MustFlush(s, s.writers[k].page, |s.writers[k].req.data|) ==> s.ioStack != []
    ensures Extends(s.log, WriteToPage(s, k).log)
  {
    var p := s.writers[k].page;
    if !Exhausted(s, p) {
      assert ChainOk(s.c, Allocs(s.pages), s.buckets[k], s.writers[k]);
      WriterKeepsInv(s, k, Idle);
      OpenWriteExtendsLog(s.(writers := s.writers[k := Idle]), p, s.writers[k].req.data);
    }
  }

  lemma OpenWriteExtendsLog(t: State, p: nat, data: seq<Byte>)
    requires Inv(t) && p < t.c.pageCount && 0 < |data| && !Exhausted(t, p)
    ensures t.pages[p].wbuf.None? && t.pages[p].alloc < t.c.pageSize ==>
              var u := AllocateWbuf(t, p); u.log == t.log && (HasRoom(u, p, |data|) ==> Extends(t.log, StoreObject(u, p, data).log))
    ensures HasRoom(t, p, |data|) ==> Extends(t.log, StoreObject(t, p, data).log)
  {
    if t.pages[p].wbuf.None? && t.pages[p].alloc < t.c.pageSize {
      FreshWbufExtendsLog(t, p, data);
    }
    if HasRoom(t, p, |data|) {
      StoreExtendsLog(t, p, data);
    }
  }

  lemma FreshWbufExtendsLog(t: State, p: nat, data: seq<Byte>)
    requires Inv(t) && p < t.c.pageCount && 0 < |data| && !Exhausted(t, p)
    requires t.pages[p].wbuf.None? && t.pages[p].alloc < t.c.pageSize
    ensures var u := AllocateWbuf(t, p);
            u.log == t.log && (HasRoom(u, p, |data|) ==> Extends(t.log, StoreObject(u, p, data).log))
  {
    assert PageOk(t.c, t.pages[p], t.wbufs, t.version);
    var u := AllocateWbuf(t, p);
    assert u.log == t.log;
    AllocateWbufKeepsInv(t, p);
    if HasRoom(u, p, |data|) { StoreExtendsLog(u, p, data); }
  }

  lemma StepExtendsLog(s: State, a: Action, t: State)
    requires Inv(s) && Step(s, a, t)
    ensures Extends(s.log, t.log)
  {
    if a.DoWrite? {
      WriteExtendsLog(s, a.k);
    } else {
      OthersKeepLog(s, a);
    }
  }

  lemma OthersKeepLog(s: State, a: Action)
    requires WellFormed(s) && Enabled(s, a) && Asserts(s, a) && !a.DoWrite?
    ensures Next(s, a).log == s.log
  {
    match a
    case DoFetch(k, req) =>
    case DoNextPage(k) =>
    case DoFlush(io) =>
    case DoCallback(io) =>
    case DoSubmitRead(r, h, len) =>
    case DoCheckRead(r) =>
    case DoReadDisk(r) =>
    case DoReleaseRead(r) =>
    case DoDelete(p, version, count, bytes) =>
    case DoClose(p, version) =>
    case DoWake =>
    case DoScan =>
    case DoEvict =>
  }

  lemma RunExtendsLog(run: seq<State>, acts: seq<Action>, j: nat)
    requires IsRun(run, acts) && j < |acts|
    ensures Extends(run[j].log, run[j + 1].log)
  {
    RunKeepsInv(run, acts, j);
    assert Step(run[j], acts[j], run[j + 1]);
    StepExtendsLog(run[j], acts[j], run[j + 1]);
  }

  /** No two writes of a run share a handle, so what a handle stands for never changes. */
  lemma {:induction false} LogOnlyGrows(run: seq<State>, acts: seq<Action>, i: nat, j: nat)
    requires IsRun(run, acts) && i <= j < |run|
    ensures Extends(run[i].log, run[j].log)
    decreases j - i
  {
    if i < j {
      LogOnlyGrows(run, acts, i, j - 1);
      RunExtendsLog(run, acts, j - 1);
      ExtendsTransitive(run[i].log, run[j - 1].log, run[j].log);
    }
  }

  lemma ExtendsTransitive(a: map<Handle, seq<Byte>>, b: map<Handle, seq<Byte>>, c: map<Handle, seq<Byte>>)
    requires Extends(a, b) && Extends(b, c)
    ensures Extends(a, c)
  {
  }

  /** A read that does not miss returns the bytes that were written under its handle, in every interleaving. */
  lemma ReadsReturnWhatWasWritten(run: seq<State>, acts: seq<Action>, i: nat, j: nat, r: nat, h: Handle)
    requires IsRun(run, acts) && i <= j < |run|
    requires h in run[i].log && r in run[j].rds && run[j].rds[r].h == h
    requires run[j].rds[r].Done? && run[j].rds[r].result.Data?
    ensures run[j].rds[r].len <= |run[i].log[h]|
    ensures run[j].rds[r].result.bytes == run[i].log[h][..run[j].rds[r].len]
  {
    LogOnlyGrows(run, acts, i, j);
    RunKeepsInv(run, acts, j);
    assert ReadOk(run[j].pages, run[j].log, run[j].rds[r]);
  }

  // ---------------------------------------------------------------- pages being read

  ghost predicate HeldBy(s: State, r: nat, p: nat) {
    r in s.rds && HoldsPage(s.rds[r], p)
  }

  /** While a read holds a page, the page is live under the version read and the bytes to be read are on its disk. */
  lemma HeldPageIsIntact(s: State, r: nat)
    requires Inv(s) && r in s.rds && HoldsPage(s.rds[r], s.rds[r].h.page)
    ensures var h := s.rds[r].h; var len := s.rds[r].len;
            && h in s.log && !s.pages[h.page].free && s.pages[h.page].version == h.version && s.pages[h.page].refcount > 0
            && h.offset + len <= s.c.pageSize && len <= |s.log[h]|
            && s.disk[h.page][h.offset..h.offset + len] == s.log[h][..len]
  {
    var h := s.rds[r].h;
    assert r in Holders(s.rds, h.page);
    assert ReadOk(s.pages, s.log, s.rds[r]);
    FlushedBytes(s, h, s.rds[r].len);
  }

  lemma OnlyReleaseLetsGo(s: State, a: Action, r: nat, p: nat)
    requires WellFormed(s) && Enabled(s, a) && Asserts(s, a) && HeldBy(s, r, p) && a != DoReleaseRead(r)
    ensures HeldBy(Next(s, a), r, p) && Next(s, a).rds[r].h == s.rds[r].h
  {
    match a
    case DoFetch(k, req) =>
    case DoWrite(k) =>
    case DoNextPage(k) =>
    case DoFlush(io) =>
    case DoCallback(io) =>
    case DoSubmitRead(r', h, len) =>
    case DoCheckRead(r') =>
    case DoReadDisk(r') =>
    case DoReleaseRead(r') =>
    case DoDelete(q, version, count, bytes) =>
    case DoClose(q, version) =>
    case DoWake =>
    case DoScan =>
    case DoEvict =>
  }

  /** A page with a read in flight is not freed or given a new version by any step. */
  lemma HeldPageIsNotFreed(s: State, a: Action, t: State, r: nat, p: nat)
    requires Inv(s) && Step(s, a, t) && HeldBy(s, r, p) && p < s.c.pageCount
    ensures p < |t.pages| && !t.pages[p].free && t.pages[p].version == s.pages[p].version
  {
    HeldPageIsIntact(s, r);
    StepKeepsInv(s, a);
    if a == DoReleaseRead(r) {
    } else {
      OnlyReleaseLetsGo(s, a, r, p);
      HeldPageIsIntact(t, r);
    }
  }

  // ---------------------------------------------------------------- stale handles

  /** A handle whose page has been freed since. */
  predicate Stale(s: State, h: Handle) {
    h.page < |s.pages| && 0 < h.version < s.version && s.pages[h.page].version != h.version
  }

  /** A page's version changes only to 0 (freed) or to the engine's next version (allocated). */
  ghost predicate VersionsMove(s: State, t: State) {
    && |t.pages| == |s.pages| && t.version >= s.version
    && forall i :: 0 <= i < |s.pages| ==>
         t.pages[i].version == s.pages[i].version || t.pages[i].version == 0 || t.pages[i].version >= s.version
  }

  lemma StepMovesVersions(s: State, a: Action)
    requires WellFormed(s) && Enabled(s, a) && Asserts(s, a)
    ensures VersionsMove(s, Next(s, a))
  {
    match a
    case DoFetch(k, req) => AllocateMovesVersions(s, k, req.freeBucket);
    case DoWrite(k) => WriteMovesNoVersion(s, k);
    case DoNextPage(k) => AllocateMovesVersions(s, k, s.writers[k].freeBucket);
    case DoScan =>
    case DoEvict =>
    case _ => OthersMoveNoVersion(s, a);
  }

  lemma OthersMoveNoVersion(s: State, a: Action)
    requires WellFormed(s) && Enabled(s, a) && Asserts(s, a)
    requires !a.DoFetch? && !a.DoWrite? && !a.DoNextPage? && !a.DoScan? && !a.DoEvict?
    ensures VersionsMove(s, Next(s, a))
  {
  }

  lemma AllocateMovesVersions(s: State, k: nat, fb: nat)
    requires WellFormed(s) && k < s.c.bucketCount && fb < s.c.bucketCount
    ensures s.buckets[k] == [] || s.pages[s.buckets[k][0]].alloc == s.c.pageSize ==>
              VersionsMove(s, AllocatePage(s, k, fb).0)
  {
  }

  lemma WriteMovesNoVersion(s: State, k: nat)
    requires WellFormed(s) && k < s.c.bucketCount && s.writers[k].Holding?
    requires MustFlush(s, s.writers[k].page, |s.writers[k].req.data|) ==> s.ioStack != []
    ensures VersionsMove(s, WriteToPage(s, k))
  {
  }

  /** Once its page was freed, a handle never passes the version check again. */
  lemma {:induction false} StaleForever(run: seq<State>, acts: seq<Action>, i: nat, j: nat, h: Handle)
    requires IsRun(run, acts) && i <= j < |run| && Stale(run[i], h)
    ensures Stale(run[j], h) && !Readable(run[j], h)
    decreases j - i
  {
    if i < j {
      StaleForever(run, acts, i, j - 1, h);
      assert Step(run[j - 1], acts[j - 1], run[j]);
      StepMovesVersions(run[j - 1], acts[j - 1]);
    }
  }

  /** Freeing a page makes every handle to it stale. */
  lemma FreeingMakesStale(s: State, h: Handle)
    requires Inv(s) && h in s.log && h.page < s.c.pageCount && s.pages[h.page].version == h.version
    ensures Stale(FreePage(s, h.page), h)
  {
  }

  // ---------------------------------------------------------------- conservation

  /** Every page but page 0 is on exactly one list, the one its own fields name; page 0 is on none. */
  lemma EveryPageOnOneList(s: State, i: nat, at: Where)
    requires Inv(s) && i < s.c.pageCount
    ensures On(ListsOf(s), at, i) <==> i > 0 && at == Home(s.pages[i])
  {
    if i > 0 { assert On(ListsOf(s), Homes(s.pages)[i], i); }
  }

  /** Every write buffer is on the stack or attached, never both and never twice. */
  lemma EveryWbufInOnePlace(s: State, w: nat)
    requires Inv(s) && w < s.c.wbufCount
    ensures w in s.wbufStack <==> !exists i :: 0 <= i < s.c.pageCount && Owners(s.pages)[i] == Some(w)
    ensures forall i, j :: (0 <= i < s.c.pageCount && 0 <= j < s.c.pageCount
                            && Owners(s.pages)[i] == Some(w) && Owners(s.pages)[j] == Some(w)) ==> i == j
    ensures forall i :: 0 <= i < s.c.pageCount && Owners(s.pages)[i] == Some(w) ==>
              !s.pages[i].free && s.wbufs[w].offset == s.pages[i].written
              && s.pages[i].alloc == s.pages[i].written + s.c.wbufSize
  {
    if w !in s.wbufStack { assert Some(w) in Owners(s.pages); }
    forall i | 0 <= i < s.c.pageCount && Owners(s.pages)[i] == Some(w)
      ensures !s.pages[i].free && s.wbufs[w].offset == s.pages[i].written
              && s.pages[i].alloc == s.pages[i].written + s.c.wbufSize
    {
      assert PageOk(s.c, s.pages[i], s.wbufs, s.version);
    }
  }
}
