/** The steps of the IO threads, flushing and reading, keep the invariant. */
module ExtstoreReads {
  import opened Base
  import opened ExtstoreTypes
  import opened ExtstoreShape
  import opened ExtstoreModel
  import opened ExtstoreParts
  import opened ExtstoreInv
  import opened ExtstoreWrites

  // ---------------------------------------------------------------- a change to one page, part by part

  lemma PageChangeKeepsPages(c: Config, pages: seq<Page>, wbufs: seq<Wbuf>, version: nat, p: nat, q: Page)
    requires PagesOk(c, pages, wbufs, version) && p < |pages| && PageOk(c, q, wbufs, version)
    ensures PagesOk(c, pages[p := q], wbufs, version)
  {
    var upd := pages[p := q];
    forall i | 0 <= i < |upd| ensures PageOk(c, upd[i], wbufs, version) {
      assert PageOk(c, pages[i], wbufs, version);
    }
  }

  lemma PageChangeKeepsReads(pages: seq<Page>, log: map<Handle, seq<Byte>>, rds: map<nat, Read>, p: nat, q: Page)
    requires ReadsOk(pages, log, rds) && p < |pages|
    requires q.free == pages[p].free && q.version == pages[p].version && q.written >= pages[p].written
    ensures ReadsOk(pages[p := q], log, rds)
  {
    forall r | r in rds ensures ReadOk(pages[p := q], log, rds[r]) { assert ReadOk(pages, log, rds[r]); }
  }

  lemma ReadChangeKeepsReads(pages: seq<Page>, log: map<Handle, seq<Byte>>, rds: map<nat, Read>, r: nat, q: Read)
    requires ReadsOk(pages, log, rds) && ReadOk(pages, log, q)
    ensures ReadsOk(pages, log, rds[r := q])
  {
    var upd := rds[r := q];
    forall x | x in upd ensures ReadOk(pages, log, upd[x]) {
      if x != r { assert ReadOk(pages, log, rds[x]); }
    }
  }

  lemma PageChangeKeepsLog(c: Config, pages: seq<Page>, wbufs: seq<Wbuf>, disk: seq<seq<Byte>>,
                           log: map<Handle, seq<Byte>>, p: nat, q: Page)
    requires LogOk(c, pages, wbufs, disk, log) && p < |pages|
    requires forall h :: h in log && h.page == p ==> EntryOk(c, q, wbufs, disk[p], h, log[h])
    ensures LogOk(c, pages[p := q], wbufs, disk, log)
  {
  }

  lemma SliceOfSlice(disk: seq<Byte>, buf: seq<Byte>, at: nat, lo: nat, hi: nat)
    requires at + |buf| <= |disk| && disk[at..at + |buf|] == buf && at <= lo <= hi <= at + |buf|
    ensures disk[lo..hi] == buf[lo - at..hi - at]
  {
    SliceSlice(disk, at, at + |buf|, lo - at, hi - at);
  }

  lemma PrefixOfSlice(d: seq<Byte>, lo: nat, n: nat, m: nat)
    requires m <= n && lo + n <= |d|
    ensures d[lo..lo + m] == d[lo..lo + n][..m]
  {
    SliceSlice(d, lo, lo + n, 0, m);
    assert d[lo..lo + n][0..m] == d[lo..lo + n][..m];
  }

  // ---------------------------------------------------------------- pwrite

  /** Two IO objects in flight are for two different pages. */
  lemma OneFlushPerPage(s: State, x: nat, y: nat)
    requires IosOk(s.ios, Owners(s.pages), s.wbufs)
    requires x < |s.ios| && y < |s.ios| && x != y && !s.ios[x].OnStack? && !s.ios[y].OnStack?
    ensures s.ios[x].page != s.ios[y].page
  {
  }

  lemma FlushKeepsFlushes(s: State, io: nat)
    requires WellFormed(s) && io < s.c.wbufCount && s.ios[io].Queued?
    requires IosOk(s.ios, Owners(s.pages), s.wbufs) && FlushesOk(s.c, s.ios, s.disk, s.wbufs)
    ensures var t := FlushIo(s, io); FlushesOk(t.c, t.ios, t.disk, t.wbufs)
  {
    var t := FlushIo(s, io);
    forall x | 0 <= x < |t.ios| && t.ios[x].Flushed?
      ensures && t.ios[x].page < |t.disk| && t.ios[x].offset + t.c.wbufSize <= |t.disk[t.ios[x].page]|
              && t.ios[x].wbuf < |t.wbufs|
              && t.disk[t.ios[x].page][t.ios[x].offset..t.ios[x].offset + t.c.wbufSize] == t.wbufs[t.ios[x].wbuf].buf
    {
      if x != io { OneFlushPerPage(s, x, io); }
    }
  }

  lemma FlushKeepsIos(s: State, io: nat)
    requires WellFormed(s) && io < s.c.wbufCount && s.ios[io].Queued?
    requires IosOk(s.ios, Owners(s.pages), s.wbufs) && IoStackOk(s.ios, s.ioStack)
    ensures var t := FlushIo(s, io); IosOk(t.ios, Owners(t.pages), t.wbufs) && IoStackOk(t.ios, t.ioStack)
  {
    var t := FlushIo(s, io);
    forall w | 0 <= w < |t.wbufs| && t.wbufs[w].full && Some(w) in Owners(t.pages)
      ensures exists i :: 0 <= i < |t.ios| && Ships(t.ios[i], w)
    {
      var i :| 0 <= i < |s.ios| && Ships(s.ios[i], w);
      assert Ships(t.ios[i], w);
    }
  }

  /** A flush writes behind everything that is already on the disk of that page. */
  lemma FlushKeepsObject(p: Page, disk: seq<Byte>, h: Handle, d: seq<Byte>, at: nat, data: seq<Byte>)
    requires OnDisk(p, disk, h, d) && p.written <= at && at + |data| <= |disk|
    ensures OnDisk(p, Overwrite(disk, at, data), h, d)
  {
    var upd := Overwrite(disk, at, data);
    assert upd[0..at] == disk[0..at];
    SliceSlice(upd, 0, at, h.offset, h.offset + |d|);
    SliceSlice(disk, 0, at, h.offset, h.offset + |d|);
  }

  lemma FlushKeepsLog(s: State, io: nat)
    requires WellFormed(s) && io < s.c.wbufCount && s.ios[io].Queued?
    requires LogOk(s.c, s.pages, s.wbufs, s.disk, s.log) && s.pages[s.ios[io].page].written <= s.ios[io].offset
    ensures var t := FlushIo(s, io); LogOk(t.c, t.pages, t.wbufs, t.disk, t.log)
  {
    var t := FlushIo(s, io);
    var q := s.ios[io];
    forall h | h in s.log ensures h.page < |s.pages| && EntryOk(s.c, s.pages[h.page], s.wbufs, t.disk[h.page], h, s.log[h]) {
      assert EntryOk(s.c, s.pages[h.page], s.wbufs, s.disk[h.page], h, s.log[h]);
      if h.page == q.page && OnDisk(s.pages[h.page], s.disk[h.page], h, s.log[h]) {
        FlushKeepsObject(s.pages[h.page], s.disk[h.page], h, s.log[h], q.offset, s.wbufs[q.wbuf].buf);
      }
    }
  }

  lemma FlushKeepsInv(s: State, io: nat)
    requires Inv(s) && io < s.c.wbufCount && s.ios[io].Queued?
    ensures Inv(FlushIo(s, io))
  {
    assert Owners(s.pages)[s.ios[io].page] == Some(s.ios[io].wbuf);
    assert PageOk(s.c, s.pages[s.ios[io].page], s.wbufs, s.version);
    FlushKeepsFlushes(s, io);
    FlushKeepsIos(s, io);
    FlushKeepsLog(s, io);
  }

  // ---------------------------------------------------------------- the flush callback

  /** The two assertions of _wbuf_cb. */
  lemma CallbackAsserts(s: State, io: nat)
    requires Inv(s) && io < s.c.wbufCount && s.ios[io].Flushed?
    ensures s.pages[s.ios[io].page].wbuf == Some(s.ios[io].wbuf)
    ensures s.pages[s.ios[io].page].written == s.wbufs[s.ios[io].wbuf].offset == s.ios[io].offset
  {
    assert Owners(s.pages)[s.ios[io].page] == Some(s.ios[io].wbuf);
    assert PageOk(s.c, s.pages[s.ios[io].page], s.wbufs, s.version);
  }

  lemma CallbackKeepsStacks(c: Config, o: seq<Option<nat>>, stack: seq<nat>, p: nat, w: nat)
    requires WbufsOk(c, o, stack) && p < |o| && o[p] == Some(w)
    ensures WbufsOk(c, o[p := None], [w] + stack)
  {
    var o' := o[p := None];
    forall x | 0 <= x < c.wbufCount && x !in [w] + stack ensures Some(x) in o' {
      var i :| 0 <= i < |o| && o[i] == Some(x);
      assert o'[i] == Some(x);
    }
  }

  lemma CallbackKeepsIos(ios: seq<Io>, o: seq<Option<nat>>, wbufs: seq<Wbuf>, io: nat)
    requires IosOk(ios, o, wbufs) && io < |ios| && ios[io].Flushed?
    requires forall i, j :: 0 <= i < j < |o| && o[i].Some? ==> o[i] != o[j]
    ensures IosOk(ios[io := OnStack], o[ios[io].page := None], wbufs)
  {
    var q := ios[io];
    var o', ios' := o[q.page := None], ios[io := OnStack];
    forall x | 0 <= x < |wbufs| && wbufs[x].full && Some(x) in o'
      ensures exists i :: 0 <= i < |ios'| && Ships(ios'[i], x)
    {
      var j :| 0 <= j < |o'| && o'[j] == Some(x);
      assert o[j] == Some(x) && o[q.page] == Some(q.wbuf);
      var i :| 0 <= i < |ios| && Ships(ios[i], x);
      assert Ships(ios'[i], x);
    }
  }

  lemma CallbackKeepsPages(s: State, io: nat)
    requires Inv(s) && io < s.c.wbufCount && s.ios[io].Flushed?
    requires s.pages[s.ios[io].page].wbuf == Some(s.ios[io].wbuf)
    requires s.pages[s.ios[io].page].written == s.wbufs[s.ios[io].wbuf].offset
    ensures var t := FlushCallback(s, io); PagesOk(t.c, t.pages, t.wbufs, t.version)
  {
    var p := s.ios[io].page;
    assert PageOk(s.c, s.pages[p], s.wbufs, s.version);
    PageChangeKeepsPages(s.c, s.pages, s.wbufs, s.version, p, FlushCallback(s, io).pages[p]);
  }

  lemma CallbackKeepsAligned(c: Config, pages: seq<Page>, p: nat, q: Page)
    requires AlignedOk(c, pages) && p < |pages| && q.written == pages[p].written + c.wbufSize
    ensures AlignedOk(c, pages[p := q])
  {
  }

  lemma CallbackKeepsObject(c: Config, p: Page, q: Page, wbufs: seq<Wbuf>, disk: seq<Byte>, h: Handle, d: seq<Byte>)
    requires EntryOk(c, p, wbufs, disk, h, d) && q.version == p.version && q.written == p.written + c.wbufSize <= |disk|
    requires p.wbuf.Some? && p.wbuf.value < |wbufs| && |wbufs[p.wbuf.value].buf| == c.wbufSize
    requires wbufs[p.wbuf.value].offset == p.written
    requires disk[p.written..p.written + c.wbufSize] == wbufs[p.wbuf.value].buf
    ensures EntryOk(c, q, wbufs, disk, h, d)
  {
    if p.version == h.version && InBuffer(c, p, wbufs, h, d) {
      SliceOfSlice(disk, wbufs[p.wbuf.value].buf, p.written, h.offset, h.offset + |d|);
    }
  }

  /** Objects of the flushed buffer are now objects on the disk. */
  lemma CallbackKeepsLog(s: State, io: nat)
    requires WellFormed(s) && io < s.c.wbufCount && s.ios[io].Flushed?
    requires LogOk(s.c, s.pages, s.wbufs, s.disk, s.log) && FlushesOk(s.c, s.ios, s.disk, s.wbufs)
    requires s.pages[s.ios[io].page].wbuf == Some(s.ios[io].wbuf)
    requires s.pages[s.ios[io].page].written == s.wbufs[s.ios[io].wbuf].offset == s.ios[io].offset
    ensures var t := FlushCallback(s, io); LogOk(t.c, t.pages, t.wbufs, t.disk, t.log)
  {
    var p := s.ios[io].page;
    var q := FlushCallback(s, io).pages[p];
    forall h | h in s.log && h.page == p ensures EntryOk(s.c, q, s.wbufs, s.disk[p], h, s.log[h]) {
      CallbackKeepsObject(s.c, s.pages[p], q, s.wbufs, s.disk[p], h, s.log[h]);
    }
    PageChangeKeepsLog(s.c, s.pages, s.wbufs, s.disk, s.log, p, q);
  }

  lemma CallbackKeepsReads(s: State, io: nat)
    requires Inv(s) && io < s.c.wbufCount && s.ios[io].Flushed?
    requires s.pages[s.ios[io].page].wbuf == Some(s.ios[io].wbuf)
    requires s.pages[s.ios[io].page].written == s.wbufs[s.ios[io].wbuf].offset
    ensures var t := FlushCallback(s, io);
            RefcountsOk(t.pages, t.rds) && ReadsOk(t.pages, t.log, t.rds) && MaintOk(t.pages, t.maint)
  {
    var p := s.ios[io].page;
    assert PageOk(s.c, s.pages[p], s.wbufs, s.version);
    PageChangeKeepsReads(s.pages, s.log, s.rds, p, FlushCallback(s, io).pages[p]);
  }

  lemma CallbackKeepsViews(s: State, io: nat)
    requires Inv(s) && io < s.c.wbufCount && s.ios[io].Flushed?
    requires s.pages[s.ios[io].page].wbuf == Some(s.ios[io].wbuf)
    requires s.pages[s.ios[io].page].written == s.wbufs[s.ios[io].wbuf].offset
    ensures var t := FlushCallback(s, io);
            && Homes(t.pages) == Homes(s.pages) && Allocs(t.pages) == Allocs(s.pages) && AlignedOk(t.c, t.pages)
            && WbufsOk(t.c, Owners(t.pages), t.wbufStack) && IosOk(t.ios, Owners(t.pages), t.wbufs)
  {
    var t := FlushCallback(s, io);
    var p := s.ios[io].page;
    CallbackKeepsStacks(s.c, Owners(s.pages), s.wbufStack, p, s.ios[io].wbuf);
    CallbackKeepsIos(s.ios, Owners(s.pages), s.wbufs, io);
    CallbackKeepsAligned(s.c, s.pages, p, t.pages[p]);
    assert Owners(t.pages) == Owners(s.pages)[p := None];
  }

  lemma CallbackKeepsShape(s: State, io: nat)
    requires WellFormed(s) && io < s.c.wbufCount && s.ios[io].Flushed?
    requires s.pages[s.ios[io].page].wbuf == Some(s.ios[io].wbuf)
    requires s.pages[s.ios[io].page].written == s.wbufs[s.ios[io].wbuf].offset
    requires IoStackOk(s.ios, s.ioStack) && FlushesOk(s.c, s.ios, s.disk, s.wbufs)
    ensures var t := FlushCallback(s, io);
            WellFormed(t) && IoStackOk(t.ios, t.ioStack) && FlushesOk(t.c, t.ios, t.disk, t.wbufs)
  {
  }

  lemma CallbackKeepsInv(s: State, io: nat)
    requires Inv(s) && io < s.c.wbufCount && s.ios[io].Flushed?
    ensures s.pages[s.ios[io].page].wbuf == Some(s.ios[io].wbuf)
    ensures s.pages[s.ios[io].page].written == s.wbufs[s.ios[io].wbuf].offset
    ensures Inv(FlushCallback(s, io))
  {
    CallbackAsserts(s, io);
    CallbackKeepsShape(s, io);
    CallbackKeepsViews(s, io);
    CallbackKeepsPages(s, io);
    CallbackKeepsLog(s, io);
    CallbackKeepsReads(s, io);
  }

  // ---------------------------------------------------------------- reads

  lemma HolderAdded(rds: map<nat, Read>, r: nat, q: Read)
    requires r in rds && !rds[r].InFlight? && !rds[r].GotData?
    ensures forall i :: |Holders(rds[r := q], i)| == |Holders(rds, i)| + (if HoldsPage(q, i) then 1 else 0)
  {
    forall i ensures |Holders(rds[r := q], i)| == |Holders(rds, i)| + (if HoldsPage(q, i) then 1 else 0) {
      if HoldsPage(q, i) {
        assert Holders(rds[r := q], i) == Holders(rds, i) + {r};
      } else {
        assert Holders(rds[r := q], i) == Holders(rds, i);
      }
    }
  }

  lemma HolderRemoved(rds: map<nat, Read>, r: nat, q: Read)
    requires r in rds && HoldsPage(rds[r], rds[r].h.page) && !q.InFlight? && !q.GotData?
    ensures forall i :: |Holders(rds, i)| == |Holders(rds[r := q], i)| + (if i == rds[r].h.page then 1 else 0)
  {
    forall i ensures |Holders(rds, i)| == |Holders(rds[r := q], i)| + (if i == rds[r].h.page then 1 else 0) {
      if i == rds[r].h.page {
        assert Holders(rds, i) == Holders(rds[r := q], i) + {r};
      } else {
        assert Holders(rds, i) == Holders(rds[r := q], i);
      }
    }
  }

  /** An object past the flushed part is in the buffer; otherwise it is wholly on the disk. */
  lemma WhereObjectIs(c: Config, p: Page, wbufs: seq<Wbuf>, disk: seq<Byte>, version: nat, h: Handle, d: seq<Byte>)
    requires EntryOk(c, p, wbufs, disk, h, d) && PageOk(c, p, wbufs, version) && 0 < |d|
    requires !p.free && p.version == h.version
    ensures if p.active && h.offset >= p.written then InBuffer(c, p, wbufs, h, d) else OnDisk(p, disk, h, d)
  {
  }

  lemma BufferHasPrefix(c: Config, p: Page, wbufs: seq<Wbuf>, h: Handle, d: seq<Byte>, len: nat)
    requires InBuffer(c, p, wbufs, h, d) && len <= |d|
    ensures var b := wbufs[p.wbuf.value]; var at := h.offset - b.offset;
            at + len <= |b.buf| && b.buf[at..at + len] == d[..len]
  {
    var b := wbufs[p.wbuf.value];
    PrefixOfSlice(b.buf, h.offset - b.offset, |d|, len);
  }

  lemma DiskHasPrefix(p: Page, disk: seq<Byte>, h: Handle, d: seq<Byte>, len: nat)
    requires OnDisk(p, disk, h, d) && len <= |d|
    ensures disk[h.offset..h.offset + len] == d[..len]
  {
    PrefixOfSlice(disk, h.offset, |d|, len);
  }

  /** The facts about one live object that the steps of a read need. */
  lemma LiveObject(s: State, h: Handle)
    requires Inv(s) && h in s.log
    requires h.page < s.c.pageCount && !s.pages[h.page].free && s.pages[h.page].version == h.version
    ensures s.pages[h.page].written <= s.c.pageSize
    ensures if InWbuf(s, h) then InBuffer(s.c, s.pages[h.page], s.wbufs, h, s.log[h])
            else OnDisk(s.pages[h.page], s.disk[h.page], h, s.log[h])
    ensures InWbuf(s, h) ==> s.wbufs[s.pages[h.page].wbuf.value].offset == s.pages[h.page].written
  {
    assert PageOk(s.c, s.pages[h.page], s.wbufs, s.version);
    WhereObjectIs(s.c, s.pages[h.page], s.wbufs, s.disk[h.page], s.version, h, s.log[h]);
  }

  /** The assertion of _read_from_wbuf, and that its copy stays inside the buffer. */
  lemma WbufReadAsserts(s: State, r: nat)
    requires Inv(s) && r in s.rds && s.rds[r].Submitted?
    ensures Readable(s, s.rds[r].h) && InWbuf(s, s.rds[r].h) ==> WbufCovers(s, s.rds[r].h, s.rds[r].len)
  {
    assert ReadOk(s.pages, s.log, s.rds[r]);
    if Readable(s, s.rds[r].h) { LiveObject(s, s.rds[r].h); }
  }

  lemma MissedReadOk(pages: seq<Page>, log: map<Handle, seq<Byte>>, q: Read)
    requires ReadOk(pages, log, q)
    ensures ReadOk(pages, log, Done(q.h, q.len, Miss))
  {
  }

  lemma StartedReadOk(pages: seq<Page>, log: map<Handle, seq<Byte>>, q: Read, disk: seq<Byte>)
    requires ReadOk(pages, log, q) && q.h.page < |pages|
    requires !pages[q.h.page].free && pages[q.h.page].version == q.h.version
    requires OnDisk(pages[q.h.page], disk, q.h, log[q.h])
    ensures ReadOk(pages, log, InFlight(q.h, q.len))
  {
  }

  lemma BufferAnswerOk(c: Config, pages: seq<Page>, wbufs: seq<Wbuf>, log: map<Handle, seq<Byte>>, q: Read)
    requires ReadOk(pages, log, q) && q.h.page < |pages| && InBuffer(c, pages[q.h.page], wbufs, q.h, log[q.h])
    ensures var b := wbufs[pages[q.h.page].wbuf.value];
            var at := q.h.offset - b.offset;
            ReadOk(pages, log, Done(q.h, q.len, Data(b.buf[at..at + q.len])))
  {
    BufferHasPrefix(c, pages[q.h.page], wbufs, q.h, log[q.h], q.len);
  }

  lemma DiskAnswerOk(pages: seq<Page>, log: map<Handle, seq<Byte>>, disk: seq<seq<Byte>>, q: Read)
    requires ReadOk(pages, log, q) && q.InFlight? && |disk| == |pages|
    requires var h, len := q.h, q.len;
             h.offset + len <= |disk[h.page]| && disk[h.page][h.offset..h.offset + len] == log[h][..len]
    ensures var h, len := q.h, q.len;
            ReadOk(pages, log, GotData(h, len, disk[h.page][h.offset..h.offset + len]))
  {
  }

  lemma CheckFromWbufOk(s: State, r: nat)
    requires Inv(s) && r in s.rds && s.rds[r].Submitted?
    requires Readable(s, s.rds[r].h) && InWbuf(s, s.rds[r].h)
    ensures ReadOk(s.pages, s.log, s.rds[r])
    ensures InBuffer(s.c, s.pages[s.rds[r].h.page], s.wbufs, s.rds[r].h, s.log[s.rds[r].h])
  {
    assert ReadOk(s.pages, s.log, s.rds[r]);
    LiveObject(s, s.rds[r].h);
  }

  lemma CheckStartsOk(s: State, r: nat)
    requires Inv(s) && r in s.rds && s.rds[r].Submitted?
    requires Readable(s, s.rds[r].h) && !InWbuf(s, s.rds[r].h)
    ensures ReadOk(s.pages, s.log, InFlight(s.rds[r].h, s.rds[r].len))
  {
    var h := s.rds[r].h;
    assert ReadOk(s.pages, s.log, s.rds[r]);
    LiveObject(s, h);
    StartedReadOk(s.pages, s.log, s.rds[r], s.disk[h.page]);
  }

  lemma CheckedWbufReadOk(s: State, r: nat)
    requires WellFormed(s) && r in s.rds && s.rds[r].Submitted? && ReadOk(s.pages, s.log, s.rds[r])
    requires InBuffer(s.c, s.pages[s.rds[r].h.page], s.wbufs, s.rds[r].h, s.log[s.rds[r].h])
    requires Readable(s, s.rds[r].h) && InWbuf(s, s.rds[r].h) && WbufCovers(s, s.rds[r].h, s.rds[r].len)
    ensures ReadOk(s.pages, s.log, CheckRead(s, r).rds[r])
  {
    BufferAnswerOk(s.c, s.pages, s.wbufs, s.log, s.rds[r]);
  }

  /** What the check decides is right for this read. */
  lemma CheckedReadOk(s: State, r: nat)
    requires Inv(s) && r in s.rds && s.rds[r].Submitted?
    requires Readable(s, s.rds[r].h) && InWbuf(s, s.rds[r].h) ==> WbufCovers(s, s.rds[r].h, s.rds[r].len)
    ensures ReadOk(s.pages, s.log, CheckRead(s, r).rds[r])
  {
    if !Readable(s, s.rds[r].h) {
      assert ReadOk(s.pages, s.log, s.rds[r]);
      MissedReadOk(s.pages, s.log, s.rds[r]);
    } else if InWbuf(s, s.rds[r].h) {
      CheckFromWbufOk(s, r);
      CheckedWbufReadOk(s, r);
    } else {
      CheckStartsOk(s, r);
    }
  }

  lemma CheckReadKeepsReads(s: State, r: nat)
    requires Inv(s) && r in s.rds && s.rds[r].Submitted?
    requires Readable(s, s.rds[r].h) && InWbuf(s, s.rds[r].h) ==> WbufCovers(s, s.rds[r].h, s.rds[r].len)
    ensures var t := CheckRead(s, r); ReadsOk(t.pages, t.log, t.rds)
  {
    var t := CheckRead(s, r);
    var p := s.rds[r].h.page;
    CheckedReadOk(s, r);
    ReadChangeKeepsReads(s.pages, s.log, s.rds, r, t.rds[r]);
    PageChangeKeepsReads(s.pages, s.log, t.rds, p, t.pages[p]);
    assert t.pages == s.pages[p := t.pages[p]];
  }

  lemma CheckReadKeepsRefcounts(s: State, r: nat)
    requires WellFormed(s) && RefcountsOk(s.pages, s.rds) && r in s.rds && s.rds[r].Submitted?
    requires Readable(s, s.rds[r].h) && InWbuf(s, s.rds[r].h) ==> WbufCovers(s, s.rds[r].h, s.rds[r].len)
    ensures var t := CheckRead(s, r); RefcountsOk(t.pages, t.rds)
  {
    HolderAdded(s.rds, r, CheckRead(s, r).rds[r]);
  }

  lemma RefcountChange(s: State, p: nat, q: Page)
    requires p < |s.pages| && q == s.pages[p].(refcount := q.refcount)
    requires AlignedOk(s.c, s.pages)
    requires PagesOk(s.c, s.pages, s.wbufs, s.version) && MaintOk(s.pages, s.maint)
    requires LogOk(s.c, s.pages, s.wbufs, s.disk, s.log)
    ensures PagesOk(s.c, s.pages[p := q], s.wbufs, s.version) && MaintOk(s.pages[p := q], s.maint)
    ensures AlignedOk(s.c, s.pages[p := q])
    ensures Owners(s.pages[p := q]) == Owners(s.pages) && Homes(s.pages[p := q]) == Homes(s.pages)
    ensures Allocs(s.pages[p := q]) == Allocs(s.pages)
    ensures LogOk(s.c, s.pages[p := q], s.wbufs, s.disk, s.log)
  {
    assert PageOk(s.c, s.pages[p], s.wbufs, s.version);
    PageChangeKeepsPages(s.c, s.pages, s.wbufs, s.version, p, q);
    RefcountChangeKeepsLog(s, p, q);
  }

  lemma RefcountChangeKeepsLog(s: State, p: nat, q: Page)
    requires p < |s.pages| && q == s.pages[p].(refcount := q.refcount)
    requires LogOk(s.c, s.pages, s.wbufs, s.disk, s.log)
    ensures LogOk(s.c, s.pages[p := q], s.wbufs, s.disk, s.log)
  {
    forall h | h in s.log && h.page == p ensures EntryOk(s.c, q, s.wbufs, s.disk[p], h, s.log[h]) {
      assert EntryOk(s.c, s.pages[p], s.wbufs, s.disk[p], h, s.log[h]);
    }
    PageChangeKeepsLog(s.c, s.pages, s.wbufs, s.disk, s.log, p, q);
  }

  lemma CheckReadKeepsInv(s: State, r: nat)
    requires Inv(s) && r in s.rds && s.rds[r].Submitted?
    ensures Readable(s, s.rds[r].h) && InWbuf(s, s.rds[r].h) ==> WbufCovers(s, s.rds[r].h, s.rds[r].len)
    ensures Inv(CheckRead(s, r))
  {
    WbufReadAsserts(s, r);
    CheckReadKeepsReads(s, r);
    CheckReadKeepsRefcounts(s, r);
    CheckReadKeepsShape(s, r);
    CheckReadKeepsRest(s, r);
  }

  lemma CheckReadKeepsShape(s: State, r: nat)
    requires WellFormed(s) && r in s.rds && s.rds[r].Submitted?
    requires Readable(s, s.rds[r].h) && InWbuf(s, s.rds[r].h) ==> WbufCovers(s, s.rds[r].h, s.rds[r].len)
    ensures WellFormed(CheckRead(s, r))
  {
  }

  lemma CheckReadKeepsRest(s: State, r: nat)
    requires Inv(s) && r in s.rds && s.rds[r].Submitted?
    requires Readable(s, s.rds[r].h) && InWbuf(s, s.rds[r].h) ==> WbufCovers(s, s.rds[r].h, s.rds[r].len)
    ensures var t := CheckRead(s, r);
            && PagesOk(t.c, t.pages, t.wbufs, t.version) && AlignedOk(t.c, t.pages) && MaintOk(t.pages, t.maint)
            && Owners(t.pages) == Owners(s.pages) && Homes(t.pages) == Homes(s.pages) && Allocs(t.pages) == Allocs(s.pages)
            && LogOk(t.c, t.pages, t.wbufs, t.disk, t.log)
  {
    var t := CheckRead(s, r);
    var p := s.rds[r].h.page;
    RefcountChange(s, p, t.pages[p]);
    assert t.pages == s.pages[p := t.pages[p]];
  }

  lemma FlushedBytes(s: State, h: Handle, len: nat)
    requires Inv(s) && h in s.log && len <= |s.log[h]|
    requires h.page < s.c.pageCount && !s.pages[h.page].free && s.pages[h.page].version == h.version
    requires h.offset + len <= s.pages[h.page].written
    ensures h.offset + len <= s.c.pageSize && s.disk[h.page][h.offset..h.offset + len] == s.log[h][..len]
  {
    LiveObject(s, h);
    if len > 0 {
      DiskHasPrefix(s.pages[h.page], s.disk[h.page], h, s.log[h], len);
    }
  }

  lemma ReadFromDiskOk(s: State, r: nat)
    requires Inv(s) && r in s.rds && s.rds[r].InFlight?
    ensures ReadOk(s.pages, s.log, s.rds[r])
    ensures var h, len := s.rds[r].h, s.rds[r].len;
            h.offset + len <= s.c.pageSize && s.disk[h.page][h.offset..h.offset + len] == s.log[h][..len]
  {
    assert ReadOk(s.pages, s.log, s.rds[r]);
    FlushedBytes(s, s.rds[r].h, s.rds[r].len);
  }

  lemma ReadDiskKeepsReads(s: State, r: nat)
    requires WellFormed(s) && ReadsOk(s.pages, s.log, s.rds) && r in s.rds && s.rds[r].InFlight?
    requires ReadOk(s.pages, s.log, s.rds[r])
    requires var h, len := s.rds[r].h, s.rds[r].len;
             h.offset + len <= s.c.pageSize && s.disk[h.page][h.offset..h.offset + len] == s.log[h][..len]
    ensures var t := ReadDisk(s, r); ReadsOk(t.pages, t.log, t.rds)
  {
    DiskAnswerOk(s.pages, s.log, s.disk, s.rds[r]);
    ReadChangeKeepsReads(s.pages, s.log, s.rds, r, ReadDisk(s, r).rds[r]);
  }

  lemma ReadDiskKeepsRefcounts(s: State, r: nat)
    requires WellFormed(s) && RefcountsOk(s.pages, s.rds)
    requires r in s.rds && s.rds[r].InFlight? && s.rds[r].h.offset + s.rds[r].len <= s.c.pageSize
    ensures var t := ReadDisk(s, r); RefcountsOk(t.pages, t.rds) && WellFormed(t)
  {
    SameHolders(s.rds, r, ReadDisk(s, r).rds[r]);
  }

  lemma ReadDiskKeepsInv(s: State, r: nat)
    requires Inv(s) && r in s.rds && s.rds[r].InFlight?
    ensures s.rds[r].h.offset + s.rds[r].len <= s.c.pageSize
    ensures Inv(ReadDisk(s, r))
  {
    ReadFromDiskOk(s, r);
    ReadDiskKeepsReads(s, r);
    ReadDiskKeepsRefcounts(s, r);
  }

  lemma SameHolders(rds: map<nat, Read>, r: nat, q: Read)
    requires r in rds && q.h.page == rds[r].h.page && (forall i :: HoldsPage(q, i) <==> HoldsPage(rds[r], i))
    ensures forall i :: Holders(rds[r := q], i) == Holders(rds, i)
  {
  }

  lemma ReleaseReadKeepsReads(s: State, r: nat)
    requires Inv(s) && r in s.rds && s.rds[r].GotData? && s.pages[s.rds[r].h.page].refcount > 0
    ensures var t := ReleaseRead(s, r); ReadsOk(t.pages, t.log, t.rds)
  {
    var t := ReleaseRead(s, r);
    var p := s.rds[r].h.page;
    assert ReadOk(s.pages, s.log, s.rds[r]);
    ReadChangeKeepsReads(s.pages, s.log, s.rds, r, t.rds[r]);
    PageChangeKeepsReads(s.pages, s.log, t.rds, p, t.pages[p]);
  }

  lemma ReleaseReadKeepsRefcounts(s: State, r: nat)
    requires WellFormed(s) && RefcountsOk(s.pages, s.rds) && r in s.rds && s.rds[r].GotData?
    requires s.pages[s.rds[r].h.page].refcount > 0
    ensures var t := ReleaseRead(s, r); RefcountsOk(t.pages, t.rds) && WellFormed(t)
  {
    HolderRemoved(s.rds, r, ReleaseRead(s, r).rds[r]);
  }

  lemma ReleaseReadKeepsInv(s: State, r: nat)
    requires Inv(s) && r in s.rds && s.rds[r].GotData?
    ensures s.pages[s.rds[r].h.page].refcount > 0
    ensures Inv(ReleaseRead(s, r))
  {
    var p := s.rds[r].h.page;
    assert r in Holders(s.rds, p);
    ReleaseReadKeepsReads(s, r);
    ReleaseReadKeepsRefcounts(s, r);
    RefcountChange(s, p, ReleaseRead(s, r).pages[p]);
  }
}
