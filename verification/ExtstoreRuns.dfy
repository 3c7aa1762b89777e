/** Whole runs of the page store: any interleaving of the steps of writers, IO threads, clients and maintenance. */
module ExtstoreRuns {
  import opened Base
  import opened ExtstoreTypes
  import opened ExtstoreShape
  import opened ExtstoreModel
  import opened ExtstoreParts
  import opened ExtstoreInv
  import opened ExtstoreWrites
  import opened ExtstoreReads
  import opened ExtstoreMaint

  datatype Action =
    | DoFetch(k: nat, req: WriteReq)
    | DoWrite(k: nat)
    | DoNextPage(k: nat)
    | DoFlush(io: nat)
    | DoCallback(io: nat)
    | DoSubmitRead(r: nat, h: Handle, len: nat)
    | DoCheckRead(r: nat)
    | DoReadDisk(r: nat)
    | DoReleaseRead(r: nat)
    | DoDelete(p: nat, version: nat, count: nat, bytes: nat)
    | DoClose(p: nat, version: nat)
    | DoWake
    | DoScan
    | DoEvict

  /** What the threads' program counters and the callers allow. Reads use handles that a write returned. */
  predicate Enabled(s: State, a: Action) {
    match a
    case DoFetch(k, req) =>
      k < |s.writers| && s.writers[k].Idle? && req.freeBucket < s.c.bucketCount && 0 < |req.data|
    case DoWrite(k) => k < |s.writers| && s.writers[k].Holding?
    case DoNextPage(k) => k < |s.writers| && s.writers[k].NeedPage?
    case DoFlush(io) => io < |s.ios| && s.ios[io].Queued?
    case DoCallback(io) => io < |s.ios| && s.ios[io].Flushed?
    case DoSubmitRead(r, h, len) => r !in s.rds && h in s.log && len <= |s.log[h]|
    case DoCheckRead(r) => r in s.rds && s.rds[r].Submitted?
    case DoReadDisk(r) => r in s.rds && s.rds[r].InFlight?
    case DoReleaseRead(r) => r in s.rds && s.rds[r].GotData?
    case DoDelete(p, _, _, _) => p < s.c.pageCount
    case DoClose(p, _) => p < s.c.pageCount
    case DoWake => s.maint.Waiting?
    case DoScan => s.maint.Scanning? && s.maint.next < s.c.pageCount
    case DoEvict => s.maint.Scanning? && s.maint.next == s.c.pageCount
  }

  /** The assertions and unchecked pointer uses of the C code that the step would execute. */
  ghost predicate Asserts(s: State, a: Action)
    requires WellFormed(s) && Enabled(s, a)
  {
    match a
    case DoWrite(k) => MustFlush(s, s.writers[k].page, |s.writers[k].req.data|) ==> s.ioStack != []
    case DoNextPage(k) => s.buckets[k] == [] || s.pages[s.buckets[k][0]].alloc == s.c.pageSize
    case DoCallback(io) =>
      && s.pages[s.ios[io].page].wbuf == Some(s.ios[io].wbuf)
      && s.pages[s.ios[io].page].written == s.wbufs[s.ios[io].wbuf].offset
    case DoCheckRead(r) =>
      Readable(s, s.rds[r].h) && InWbuf(s, s.rds[r].h) ==> WbufCovers(s, s.rds[r].h, s.rds[r].len)
    case DoReadDisk(r) => s.rds[r].h.offset + s.rds[r].len <= s.c.pageSize
    case DoReleaseRead(r) => s.pages[s.rds[r].h.page].refcount > 0
    case _ => true
  }

  function SubmitRead(s: State, r: nat, h: Handle, len: nat): State {
    s.(rds := s.rds[r := Submitted(h, len)])
  }

  ghost function Next(s: State, a: Action): State
    requires WellFormed(s) && Enabled(s, a) && Asserts(s, a)
  {
    match a
    case DoFetch(k, req) => FetchPage(s, k, req)
    case DoWrite(k) => WriteToPage(s, k)
    case DoNextPage(k) => NextPage(s, k)
    case DoFlush(io) => FlushIo(s, io)
    case DoCallback(io) => FlushCallback(s, io)
    case DoSubmitRead(r, h, len) => SubmitRead(s, r, h, len)
    case DoCheckRead(r) => CheckRead(s, r)
    case DoReadDisk(r) => ReadDisk(s, r)
    case DoReleaseRead(r) => ReleaseRead(s, r)
    case DoDelete(p, version, count, bytes) => Delete(s, p, version, count, bytes)
    case DoClose(p, version) => ClosePage(s, p, version)
    case DoWake => MaintWake(s)
    case DoScan => MaintScan(s)
    case DoEvict => MaintEvict(s)
  }

  lemma SubmitReadKeepsInv(s: State, r: nat, h: Handle, len: nat)
    requires Inv(s) && r !in s.rds && h in s.log && len <= |s.log[h]|
    ensures Inv(SubmitRead(s, r, h, len))
  {
    var q := Submitted(h, len);
    ReadChangeKeepsReads(s.pages, s.log, s.rds, r, q);
    assert forall i :: Holders(s.rds[r := q], i) == Holders(s.rds, i);
  }

  /** No step of a good state trips an assertion of the code. */
  lemma AssertsHold(s: State, a: Action)
    requires Inv(s) && Enabled(s, a)
    ensures Asserts(s, a)
  {
    match a
    case DoWrite(k) => WriteToPageKeepsInv(s, k);
    case DoNextPage(k) => NextPageKeepsInv(s, k);
    case DoCallback(io) => CallbackAsserts(s, io);
    case DoCheckRead(r) => WbufReadAsserts(s, r);
    case DoReadDisk(r) => ReadFromDiskOk(s, r);
    case DoReleaseRead(r) => ReleaseReadKeepsInv(s, r);
    case _ =>
  }

  lemma StepKeepsInv(s: State, a: Action)
    requires Inv(s) && Enabled(s, a)
    ensures Asserts(s, a) && Inv(Next(s, a))
  {
    AssertsHold(s, a);
    match a
    case DoFetch(k, req) => FetchPageKeepsInv(s, k, req);
    case DoWrite(k) => WriteToPageKeepsInv(s, k);
    case DoNextPage(k) => NextPageKeepsInv(s, k);
    case DoFlush(io) => FlushKeepsInv(s, io);
    case DoCallback(io) => CallbackKeepsInv(s, io);
    case DoSubmitRead(r, h, len) => SubmitReadKeepsInv(s, r, h, len);
    case DoCheckRead(r) => CheckReadKeepsInv(s, r);
    case DoReadDisk(r) => ReadDiskKeepsInv(s, r);
    case DoReleaseRead(r) => ReleaseReadKeepsInv(s, r);
    case DoDelete(p, version, count, bytes) => DeleteKeepsInv(s, p, version, count, bytes);
    case DoClose(p, version) => ClosePageKeepsInv(s, p, version);
    case DoWake => MaintWakeKeepsInv(s);
    case DoScan => MaintScanKeepsInv(s);
    case DoEvict => MaintEvictKeepsInv(s);
  }
}

/** One step of a run. */
module ExtstoreSteps {
  import opened ExtstoreTypes
  import opened ExtstoreShape
  import opened ExtstoreInv
  import opened ExtstoreRuns

  ghost predicate Step(s: State, a: Action, t: State) {
    WellFormed(s) && Enabled(s, a) && Asserts(s, a) && t == Next(s, a)
  }

  /** A step that ends in a good state. */
  ghost predicate Did(s: State, a: Action, t: State) {
    Step(s, a, t) && Inv(t)
  }
}
