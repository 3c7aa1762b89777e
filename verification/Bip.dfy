/** The two-region circular buffer of bipbuffer.c: a FIFO queue of bytes. */
module Bip {
  import opened Base

  type Data = seq<Byte>

  class BipBuf {
    const size: nat
    const data: array<Byte>
    var aStart: nat
    var aEnd: nat
    var bEnd: nat
    var bInuse: bool

    /** Region A is not empty while region B, which lies below it, is in use. */
    ghost predicate Valid()
      reads this
    {
      && data.Length == size && aStart <= aEnd <= size
      && (if bInuse then bEnd <= aStart < aEnd else bEnd == 0)
      && (aStart == aEnd ==> aStart == 0)
    }

    ghost function Now(): Cursors
      reads this
    {
      Cursors(aStart, aEnd, bEnd, bInuse)
    }

    /** The bytes queued, oldest first. */
    ghost function Contents(): Data
      requires Valid()
      reads this, data
    {
      data[aStart..aEnd] + data[..bEnd]
    }

    constructor (n: nat)
      ensures Valid() && fresh(data) && size == n && aEnd == 0 && !bInuse && Contents() == []
    {
      size := n;
      data := new Byte[n](i => 0);
      aStart, aEnd, bEnd, bInuse := 0, 0, 0, false;
    }

    function Unused(): nat
      requires Valid()
      reads this
    {
      if bInuse then aStart - bEnd else size - aEnd
    }

    function UsedBytes(): nat
      requires Valid()
      reads this
    {
      (aEnd - aStart) + bEnd
    }

    lemma UsedIsLength()
      requires Valid()
      ensures UsedBytes() == |Contents()| && UsedBytes() + Unused() <= size
    {
    }

    /** Where the next bytes go. */
    function Tail(): nat
      requires Valid()
      reads this
    {
      if bInuse then bEnd else aEnd
    }

    /** Turn on region B if it has more room than the end of the buffer. */
    method CheckForSwitchToB()
      modifies this`bInuse
      ensures bInuse == (old(bInuse) || size - aEnd < aStart - bEnd)
      ensures data.Length == size && CursorsOk(size, old(Now())) ==> Valid()
    {
      if size - aEnd < aStart - bEnd { bInuse := true; }
    }

    method Request(n: nat) returns (at: Option<nat>)
      requires Valid()
      ensures at == if n <= Unused() then Some(Tail()) else None
      ensures at.Some? ==> at.value + n <= size && (at.value + n <= aStart || aEnd <= at.value)
    {
      if Unused() < n { return None; }
      return Some(if bInuse then bEnd else aEnd);
    }

    /** The bytes written where a request pointed join the queue; what was queued stays where it is. */
    method Push(n: nat) returns (ok: bool)
      requires Valid()
      modifies this
      ensures Valid() && (ok <==> n <= old(Unused())) && aStart == old(aStart)
      ensures aEnd == old(aEnd) + (if ok && !old(bInuse) then n else 0)
      ensures bEnd == old(bEnd) + (if ok && old(bInuse) then n else 0)
      ensures Follows(old(Now()), Now()) && old(Tail()) + (if ok then n else 0) <= data.Length
      ensures Contents() == if ok then old(Contents()) + data[old(Tail())..old(Tail()) + n] else old(Contents())
    {
      if Unused() < n { return false; }
      ghost var was := Contents();
      ghost var t := Tail();
      if bInuse {
        bEnd := bEnd + n;
        assert data[..bEnd] == data[..t] + data[t..bEnd];
      } else {
        aEnd := aEnd + n;
        assert data[aStart..aEnd] == data[aStart..t] + data[t..aEnd];
      }
      CheckForSwitchToB();
      return true;
    }

    /** What a producer does with the place it requested: write its bytes there, then push them. */
    method Fill(at: nat, d: Data)
      requires Valid() && at == Tail() && |d| <= Unused()
      modifies this, data
      ensures Valid() && Contents() == old(Contents()) + d && aStart == old(aStart) && Follows(old(Now()), Now())
      ensures aEnd == old(aEnd) + (if old(bInuse) then 0 else |d|) && bEnd == old(bEnd) + (if old(bInuse) then |d| else 0)
      ensures data[old(aStart)..old(aEnd)] == old(data[aStart..aEnd])
    {
      Write(at, d);
      var ok := Push(|d|);
    }

    /** bipbuf_offer: request, copy and push in one. */
    method Offer(d: Data) returns (ok: bool)
      requires Valid()
      modifies this, data
      ensures Valid() && (ok <==> |d| <= old(Unused())) && aStart == old(aStart) && aEnd >= old(aEnd)
      ensures Contents() == if ok then old(Contents()) + d else old(Contents())
      ensures data[old(aStart)..old(aEnd)] == old(data[aStart..aEnd])
    {
      var at := Request(|d|);
      ok := at.Some?;
      if ok { Fill(at.value, d); }
    }

    /** A copy into the free part of the buffer. */
    method Write(at: nat, d: Data)
      requires Valid() && at == Tail() && |d| <= Unused()
      modifies data
      ensures Valid() && Contents() == old(Contents()) && data[at..at + |d|] == d
      ensures data[aStart..aEnd] == old(data[aStart..aEnd])
    {
      ghost var was := data[..];
      var i := 0;
      while i < |d|
        invariant 0 <= i <= |d|
        invariant forall j :: 0 <= j < data.Length ==> data[j] == if at <= j < at + i then d[j - at] else was[j]
      {
        data[at + i] := d[i];
        i := i + 1;
      }
      assert data[aStart..aEnd] == was[aStart..aEnd];
      assert data[..bEnd] == was[..bEnd];
    }

    /** bipbuf_peek_all: the whole of region A, which is the front of the queue. */
    method PeekAll() returns (found: bool, n: nat)
      requires Valid()
      ensures found <==> Contents() != []
      ensures found ==> n == aEnd - aStart > 0 && data[aStart..aStart + n] <= Contents()
      ensures found && !bInuse ==> data[aStart..aStart + n] == Contents()
    {
      if aStart == aEnd { return false, 0; }
      return true, aEnd - aStart;
    }

    /** The first bytes of region A are the first bytes queued. */
    lemma FrontOfQueue(n: nat)
      requires Valid() && n <= aEnd - aStart
      ensures data[aStart..aStart + n] <= Contents()
    {
      SliceSlice(data[..], aStart, aEnd, 0, n);
      assert data[aStart..aEnd][0..n] == data[aStart..aEnd][..n];
    }

    /** The cursors move on by n bytes; region B takes the place of a region A that is used up. */
    method Advance(n: nat)
      requires Valid() && aStart < aEnd && aStart + n <= size
      modifies this
      ensures Now() == Polled(size, old(Now()), n)
    {
      aStart := aStart + n;
      if aStart == aEnd {
        if bInuse {
          aStart, aEnd, bEnd, bInuse := 0, bEnd, 0, false;
        } else {
          aStart, aEnd := 0, 0;
        }
      }
      CheckForSwitchToB();
    }

    /** bipbuf_poll: of no more than region A holds it takes the front off the queue; longer ones it carries out too. */
    method Poll(n: nat) returns (at: Option<nat>)
      requires Valid()
      modifies this
      ensures at == if old(Contents()) == [] || size < old(aStart) + n then None else Some(old(aStart))
      ensures Now() == Polled(size, old(Now()), n)
      ensures Valid() <==> at.None? || n <= old(aEnd - aStart)
      ensures at.None? ==> Contents() == old(Contents())
      ensures n <= old(aEnd - aStart) ==> n <= old(|Contents()|) && Contents() == old(Contents())[n..]
    {
      if aStart == aEnd { return None; }
      if size < aStart + n { return None; }
      PollKeepsOrder(size, Now(), n);
      if n <= aEnd - aStart { PolledQueue(data[..], size, Now(), n); }
      at := Some(aStart);
      Advance(n);
    }
  }

  /** The bytes queued between these cursors. */
  ghost function Queue(d: Data, size: nat, c: Cursors): Data
    requires |d| == size && CursorsOk(size, c)
  {
    d[c.aStart..c.aEnd] + d[..c.bEnd]
  }

  lemma PolledQueue(d: Data, size: nat, c: Cursors, n: nat)
    requires |d| == size && CursorsOk(size, c) && c.aStart < c.aEnd && n <= c.aEnd - c.aStart
    ensures CursorsOk(size, Polled(size, c, n)) && n <= |Queue(d, size, c)|
    ensures Queue(d, size, Polled(size, c, n)) == Queue(d, size, c)[n..]
  {
    var a := c.aStart;
    assert d[a..c.aEnd] == d[a..a + n] + d[a + n..c.aEnd];
    assert d[0..c.bEnd] == d[..c.bEnd];
  }

  // ---------------------------------------------------------------- a poll that goes too far

  datatype Cursors = Cursors(aStart: nat, aEnd: nat, bEnd: nat, bInuse: bool)

  predicate CursorsOk(size: nat, c: Cursors) {
    && c.aStart <= c.aEnd <= size && (c.aStart == c.aEnd ==> c.aStart == 0)
    && (if c.bInuse then c.bEnd <= c.aStart < c.aEnd else c.bEnd == 0)
  }

  /** Cursors d come from cursors c by pushes: those go to region B once it is in use, which it is not while A starts at 0. */
  predicate Follows(c: Cursors, d: Cursors) {
    d.aStart == c.aStart && (c.bInuse ==> d.bInuse && d.aEnd == c.aEnd) && (Settled(c) ==> Settled(d))
  }

  /** The whole queue is in region A, and stays so until the next poll. */
  predicate Settled(c: Cursors) {
    c.aStart == 0 && !c.bInuse
  }

  /** The poll of a region A that was peeked with region B in use, whatever was pushed in the meantime. */
  lemma PollSettles(size: nat, c: Cursors, d: Cursors)
    requires CursorsOk(size, c) && CursorsOk(size, d) && c.bInuse && Follows(c, d)
    ensures Settled(Polled(size, d, c.aEnd - c.aStart))
  {
  }

  /** The cursors after a poll of any length: the only length check is against the size of the buffer. */
  function Polled(size: nat, c: Cursors, n: nat): Cursors {
    if c.aStart == c.aEnd || size < c.aStart + n then c
    else
      var d := c.(aStart := c.aStart + n);
      var e := if d.aStart != d.aEnd then d
               else if d.bInuse then Cursors(0, d.bEnd, 0, false)
               else Cursors(0, 0, 0, false);
      if size - e.aEnd < e.aStart - e.bEnd then e.(bInuse := true) else e
  }

  /** A poll the code carries out keeps the cursors in order exactly when it asks for no more than region A holds. */
  lemma PollKeepsOrder(size: nat, c: Cursors, n: nat)
    requires CursorsOk(size, c) && c.aStart < c.aEnd && c.aStart + n <= size
    ensures CursorsOk(size, Polled(size, c, n)) <==> n <= c.aEnd - c.aStart
  {
  }
}

/** Cursors that are multiples of the size of a bump entry. */
module BumpCursors {
  import opened Bip

  /** sizeof(lru_bump_entry): a pointer, a 32-bit hash and padding. */
  const ENTRY := 16

  predicate IsTimes(n: int, k: int) { n == ENTRY * k }

  /** A number of whole entries. */
  ghost predicate Whole(n: int) { exists k :: IsTimes(n, k) }

  ghost predicate AllWhole(size: nat, c: Cursors) {
    Whole(size) && Whole(c.aStart) && Whole(c.aEnd) && Whole(c.bEnd)
  }

  lemma SumIsWhole(a: int, b: int)
    requires Whole(a) && Whole(b)
    ensures Whole(a + b) && Whole(a - b)
  {
    var i :| IsTimes(a, i);
    var j :| IsTimes(b, j);
    assert IsTimes(a + b, i + j) && IsTimes(a - b, i - j);
  }

  lemma NoneIsWhole()
    ensures Whole(0) && Whole(ENTRY)
  {
    assert IsTimes(0, 0) && IsTimes(ENTRY, 1);
  }

  lemma PushKeepsWhole(size: nat, c: Cursors, inuse: bool)
    requires AllWhole(size, c)
    ensures AllWhole(size, Cursors(c.aStart, c.aEnd + ENTRY, c.bEnd, inuse))
    ensures AllWhole(size, Cursors(c.aStart, c.aEnd, c.bEnd + ENTRY, inuse))
  {
    NoneIsWhole();
    SumIsWhole(c.aEnd, ENTRY);
    SumIsWhole(c.bEnd, ENTRY);
  }

  lemma PollKeepsWhole(size: nat, c: Cursors, n: nat)
    requires AllWhole(size, c) && Whole(n)
    ensures AllWhole(size, Polled(size, c, n))
  {
    NoneIsWhole();
    SumIsWhole(c.aStart, n);
  }

  lemma RegionIsWhole(size: nat, c: Cursors)
    requires AllWhole(size, c) && c.aStart <= c.aEnd
    ensures Whole(c.aEnd - c.aStart) && c.aEnd - c.aStart == ENTRY * ((c.aEnd - c.aStart) / ENTRY)
    ensures Whole(c.aEnd - c.aStart + c.bEnd)
  {
    SumIsWhole(c.aEnd, c.aStart);
    SumIsWhole(c.aEnd - c.aStart, c.bEnd);
    var k :| IsTimes(c.aEnd - c.aStart, k);
  }
}

/** Asynchronous LRU bumps: fixed-size entries in a bip buffer (lru_bump_async and lru_maintainer_bumps in items.c). */
module Bumps {
  import opened Base
  import opened Bip
  import opened BumpCursors

  /** The raw bytes of the item pointer and of the hash value. */
  datatype Entry = Entry(it: Data, hv: Data)

  predicate EntryOk(e: Entry) {
    |e.it| == 8 && |e.hv| == 4
  }

  function Decode(d: Data): Entry
    requires |d| == ENTRY
  {
    Entry(d[..8], d[8..12])
  }

  function Entries(d: Data): seq<Entry> {
    if |d| < ENTRY then [] else [Decode(d[..ENTRY])] + Entries(d[ENTRY..])
  }

  // ---------------------------------------------------------------- entries

  lemma {:induction false} EntriesConcat(a: Data, b: Data)
    requires Whole(|a|)
    ensures Entries(a + b) == Entries(a) + Entries(b)
  {
    if a == [] {
      assert a + b == b;
    } else {
      SplitConcat(a, b, ENTRY);
      NoneIsWhole();
      SumIsWhole(|a|, ENTRY);
      EntriesConcat(a[ENTRY..], b);
    }
  }

  /** An entry in memory; the padding behind it is whatever was there. */
  function Packed(e: Entry, pad: Data): (d: Data)
    requires EntryOk(e) && |pad| == ENTRY - 12
    ensures |d| == ENTRY && e.it + e.hv <= d
  {
    e.it + e.hv + pad
  }

  lemma OneEntry(bytes: Data, e: Entry)
    requires |bytes| == ENTRY && EntryOk(e) && e.it + e.hv <= bytes
    ensures Entries(bytes) == [e]
  {
    assert bytes[..ENTRY] == bytes && bytes[ENTRY..] == [];
    assert bytes[..8] == e.it && bytes[8..12] == e.hv;
    assert Entries([]) == [];
  }

  lemma Queued(was: Data, bytes: Data, e: Entry)
    requires Whole(|was|) && |bytes| == ENTRY && EntryOk(e) && e.it + e.hv <= bytes
    ensures Entries(was + bytes) == Entries(was) + [e]
  {
    EntriesConcat(was, bytes);
    OneEntry(bytes, e);
  }

  lemma {:induction false} EntryAt(d: Data, i: nat)
    requires ENTRY * i + ENTRY <= |d|
    ensures i < |Entries(d)| && Entries(d)[i] == Decode(d[ENTRY * i..ENTRY * i + ENTRY])
  {
    if i > 0 {
      EntryAt(d[ENTRY..], i - 1);
      SliceSlice(d, ENTRY, |d|, ENTRY * (i - 1), ENTRY * i);
      assert d[ENTRY..|d|] == d[ENTRY..];
    } else {
      assert d[0..ENTRY] == d[..ENTRY];
    }
  }

  lemma {:induction false} EntriesLength(d: Data, n: nat)
    requires |d| == ENTRY * n
    ensures |Entries(d)| == n
  {
    if n > 0 { EntriesLength(d[ENTRY..], n - 1); }
  }

  lemma PollEntries(front: Data, all: Data)
    requires Whole(|front|) && front <= all
    ensures Entries(all) == Entries(front) + Entries(all[|front|..])
  {
    var rest := all[|front|..];
    assert all == front + rest;
    EntriesConcat(front, rest);
  }

  lemma FrontEntries(front: Data, all: Data)
    requires Whole(|front|) && front <= all && front != []
    ensures Entries(front) <= Entries(all) && Entries(front) != []
  {
    PollEntries(front, all);
  }

  // ---------------------------------------------------------------- the buffer of one worker thread

  lemma OffersAt(offers: seq<seq<Entry>>, k: nat)
    requires k < |offers|
    ensures Concat(offers[..k + 1]) == Concat(offers[..k]) + offers[k]
    ensures forall e :: e in offers[k] ==> e in Concat(offers)
  {
    ConcatNext(offers, k);
    forall e | e in offers[k] ensures e in Concat(offers) {
      assert e in Concat(offers[..k + 1]);
    }
  }

  /** The first i offers have been made; `full` says that there was no room to begin with. */
  ghost predicate Offering(offers: seq<Entry>, i: nat, took: seq<Entry>, full: bool, unused: nat) {
    && |took| <= i <= |offers| && took == offers[..|took|]
    && (|took| == i || unused < ENTRY) && (full ==> took == [] && unused < ENTRY)
  }

  lemma OfferOne(offers: seq<Entry>, i: nat, took: seq<Entry>, full: bool, before: nat, ok: bool, after: nat)
    requires Offering(offers, i, took, full, before) && i < |offers| && (ok <==> ENTRY <= before) && (!ok ==> after < ENTRY)
    ensures Offering(offers, i + 1, if ok then took + [offers[i]] else took, full, after)
  {
    if ok { assert offers[..i + 1] == offers[..i] + [offers[i]]; }
  }

  /** A beginning of what was offered was taken, and all of it unless there is no room. */
  ghost predicate Offered(accepted: seq<Entry>, offers: seq<Entry>, unused: nat) {
    accepted <= offers && (accepted == offers || unused < ENTRY)
  }

  lemma OfferMore(accepted: seq<Entry>, offers: seq<Entry>, took: seq<Entry>, more: seq<Entry>, before: nat, after: nat)
    requires Offered(accepted, offers, before) && took <= more && (took == more || after < ENTRY)
    requires before < ENTRY ==> took == [] && after < ENTRY
    ensures Offered(accepted + took, offers + more, after)
  {
  }

  class BumpBuf {
    const buf: BipBuf
    var dropped: nat

    ghost predicate Valid()
      reads buf
    {
      buf.Valid() && AllWhole(buf.size, buf.Now())
    }

    /** The bumps queued, oldest first. */
    ghost function Queue(): seq<Entry>
      requires Valid()
      reads buf, buf.data
    {
      Entries(buf.Contents())
    }

    constructor (n: nat)
      ensures Valid() && fresh(buf) && fresh(buf.data) && Queue() == [] && dropped == 0
    {
      buf := new BipBuf(ENTRY * n);
      dropped := 0;
      NoneIsWhole();
      assert IsTimes(ENTRY * n, n);
    }

    /** The entry is written where there is room for it, and pushed. */
    method AddEntry(at: nat, e: Entry)
      requires Valid() && EntryOk(e) && at == buf.Tail() && ENTRY <= buf.Unused()
      modifies buf, buf.data
      ensures Valid() && Queue() == old(Queue()) + [e] && Follows(old(buf.Now()), buf.Now())
      ensures buf.aStart == old(buf.aStart) && buf.aEnd >= old(buf.aEnd)
      ensures buf.data[old(buf.aStart)..old(buf.aEnd)] == old(buf.data[buf.aStart..buf.aEnd])
    {
      var bytes := Packed(e, buf.data[at + 12..at + ENTRY]);
      RegionIsWhole(buf.size, buf.Now());
      Queued(buf.Contents(), bytes, e);
      PushKeepsWhole(buf.size, buf.Now(), true);
      PushKeepsWhole(buf.size, buf.Now(), false);
      buf.Fill(at, bytes);
    }

    /** lru_bump_async: one more entry, or one more dropped for want of room; what was queued stays put. */
    method BumpAsync(e: Entry) returns (ok: bool)
      requires Valid() && EntryOk(e)
      modifies this`dropped, buf, buf.data
      ensures Valid() && (ok <==> ENTRY <= old(buf.Unused()))
      ensures Queue() == if ok then old(Queue()) + [e] else old(Queue())
      ensures dropped == old(dropped) + (if ok then 0 else 1) && (!ok ==> buf.Unused() == old(buf.Unused()))
      ensures Follows(old(buf.Now()), buf.Now())
      ensures buf.aStart == old(buf.aStart) && buf.aEnd >= old(buf.aEnd)
      ensures buf.data[old(buf.aStart)..old(buf.aEnd)] == old(buf.data[buf.aStart..buf.aEnd])
    {
      var at := buf.Request(ENTRY);
      ok := at.Some?;
      if ok { AddEntry(at.value, e); } else { dropped := dropped + 1; }
    }

    /** The region a consumer has peeked is still there. */
    ghost predicate Peeked(start: nat, n: nat, region: Data)
      reads buf, buf.data
    {
      Valid() && buf.aStart == start && start + n <= buf.aEnd && buf.data[start..start + n] == region
    }

    /** The consumer's look at entry i of the region it peeked. */
    method ReadEntry(at: nat, ghost start: nat, ghost n: nat, ghost region: Data, ghost i: nat) returns (e: Entry)
      requires start + n <= buf.data.Length && buf.data[start..start + n] == region
      requires at == start + ENTRY * i && at + ENTRY <= start + n
      ensures i < |Entries(region)| && e == Entries(region)[i]
    {
      var d := buf.data[at..at + ENTRY];
      e := Entry(d[..8], d[8..12]);
      EntryAt(region, i);
      SliceSlice(buf.data[..], start, start + n, ENTRY * i, ENTRY * i + ENTRY);
    }

    /** One offer by a producer while the consumer works on the region it peeked. */
    method Produce(e: Entry, ghost start: nat, ghost n: nat, ghost region: Data) returns (ok: bool)
      requires Peeked(start, n, region) && EntryOk(e)
      modifies this`dropped, buf, buf.data
      ensures Peeked(start, n, region) && (ok <==> ENTRY <= old(buf.Unused()))
      ensures Queue() == if ok then old(Queue()) + [e] else old(Queue())
      ensures dropped == old(dropped) + (if ok then 0 else 1) && (!ok ==> buf.Unused() < ENTRY)
      ensures Follows(old(buf.Now()), buf.Now())
    {
      ghost var end := buf.aEnd;
      SliceSlice(buf.data[..], start, end, 0, n);
      ok := BumpAsync(e);
      SliceSlice(buf.data[..], start, end, 0, n);
    }

    /** Where a producer stands after its first i offers, with the region peeked still there. */
    ghost predicate Standing(offers: seq<Entry>, i: nat, start: nat, n: nat, region: Data,
                             queue: seq<Entry>, lost: nat, full: bool, took: seq<Entry>)
      reads this, buf, buf.data
    {
      && Peeked(start, n, region) && Queue() == queue + took && dropped == lost + i - |took|
      && Offering(offers, i, took, full, buf.Unused())
    }

    method OfferStep(offers: seq<Entry>, i: nat, ghost start: nat, ghost n: nat, ghost region: Data,
                     ghost queue: seq<Entry>, ghost lost: nat, ghost full: bool, ghost took: seq<Entry>)
      returns (ghost more: seq<Entry>)
      requires i < |offers| && EntryOk(offers[i]) && Standing(offers, i, start, n, region, queue, lost, full, took)
      modifies this`dropped, buf, buf.data
      ensures Standing(offers, i + 1, start, n, region, queue, lost, full, more)
    {
      ghost var before := buf.Unused();
      var ok := Produce(offers[i], start, n, region);
      OfferOne(offers, i, took, full, before, ok, buf.Unused());
      more := if ok then took + [offers[i]] else took;
      assert queue + (took + [offers[i]]) == (queue + took) + [offers[i]];
    }

    /**
     * Any number of offers. Nothing is polled in the meantime, so the first offer without room is the last one taken:
     * a beginning of the offers is queued, the others are dropped and counted.
     */
    method ProduceAll(offers: seq<Entry>, ghost start: nat, ghost n: nat, ghost region: Data) returns (ghost took: seq<Entry>)
      requires Peeked(start, n, region) && forall e :: e in offers ==> EntryOk(e)
      modifies this`dropped, buf, buf.data
      ensures Peeked(start, n, region) && Queue() == old(Queue()) + took && dropped == old(dropped) + |offers| - |took|
      ensures took <= offers && (took == offers || buf.Unused() < ENTRY)
      ensures old(buf.Unused()) < ENTRY ==> took == [] && buf.Unused() < ENTRY
    {
      took := [];
      ghost var queue, lost, full := Queue(), dropped, buf.Unused() < ENTRY;
      var i := 0;
      while i < |offers|
        invariant i <= |offers| && Standing(offers, i, start, n, region, queue, lost, full, took)
      {
        took := OfferStep(offers, i, start, n, region, queue, lost, full, took);
        i := i + 1;
      }
    }

    /** Where the producers stand after the first k rounds of offers, with the region peeked still there. */
    ghost predicate Going(during: seq<seq<Entry>>, k: nat, start: nat, n: nat, region: Data,
                          queue: seq<Entry>, lost: nat, accepted: seq<Entry>)
      requires k <= |during|
      reads this, buf, buf.data
    {
      && Peeked(start, n, region) && Queue() == queue + accepted
      && Offered(accepted, Concat(during[..k]), buf.Unused()) && dropped == lost + |Concat(during[..k])| - |accepted|
    }

    /** The next round of offers. */
    method OfferNext(during: seq<seq<Entry>>, k: nat, ghost start: nat, ghost n: nat, ghost region: Data,
                     ghost queue: seq<Entry>, ghost lost: nat, ghost accepted: seq<Entry>) returns (ghost more: seq<Entry>)
      requires k < |during| && Going(during, k, start, n, region, queue, lost, accepted)
      requires forall e :: e in Concat(during) ==> EntryOk(e)
      modifies this`dropped, buf, buf.data
      ensures Going(during, k + 1, start, n, region, queue, lost, more)
    {
      OffersAt(during, k);
      ghost var before := buf.Unused();
      ghost var took := ProduceAll(during[k], start, n, region);
      OfferMore(accepted, Concat(during[..k]), took, during[k], before, buf.Unused());
      more := accepted + took;
      assert queue + (accepted + took) == (queue + accepted) + took;
    }

    /** The loop over the peeked region, which ends with nothing left over; round i of the offers comes after entry i. */
    method WorkOff(n: nat, during: seq<seq<Entry>>, ghost count: nat, ghost start: nat, ghost region: Data,
                   ghost queue: seq<Entry>, ghost lost: nat)
      returns (bumped: seq<Entry>, k: nat, ghost accepted: seq<Entry>)
      requires n == ENTRY * count && Going(during, 0, start, n, region, queue, lost, [])
      requires forall e :: e in Concat(during) ==> EntryOk(e)
      modifies this`dropped, buf, buf.data
      ensures bumped == Entries(region) && k <= |during| && Going(during, k, start, n, region, queue, lost, accepted)
    {
      bumped, accepted, k := [], [], 0;
      var at, todo := buf.aStart, n;
      ghost var goal, i := Entries(region), 0;
      EntriesLength(region, count);
      while todo > 0
        invariant k <= |during| && Going(during, k, start, n, region, queue, lost, accepted)
        invariant 0 <= i <= count == |goal| && todo == n - ENTRY * i && at == start + ENTRY * i && bumped == goal[..i]
        decreases count - i
      {
        var e := ReadEntry(at, start, n, region, i);
        bumped := bumped + [e];
        at, todo, i := at + ENTRY, todo - ENTRY, i + 1;
        if k < |during| {
          accepted := OfferNext(during, k, start, n, region, queue, lost, accepted);
          k := k + 1;
        }
      }
    }

    /** The rounds of offers that are left, before the poll. */
    method OfferRest(during: seq<seq<Entry>>, from: nat, ghost start: nat, ghost n: nat, ghost region: Data,
                     ghost queue: seq<Entry>, ghost lost: nat, ghost taken: seq<Entry>) returns (ghost accepted: seq<Entry>)
      requires from <= |during| && Going(during, from, start, n, region, queue, lost, taken)
      requires forall e :: e in Concat(during) ==> EntryOk(e)
      modifies this`dropped, buf, buf.data
      ensures Going(during, |during|, start, n, region, queue, lost, accepted)
    {
      accepted := taken;
      var k := from;
      while k < |during|
        invariant k <= |during| && Going(during, k, start, n, region, queue, lost, accepted)
      {
        accepted := OfferNext(during, k, start, n, region, queue, lost, accepted);
        k := k + 1;
      }
    }

    /** What goes on between the peek and the poll: `during` are the producers' offers, in rounds. */
    method Work(n: nat, during: seq<seq<Entry>>, ghost count: nat) returns (bumped: seq<Entry>, ghost accepted: seq<Entry>)
      requires Valid() && n == ENTRY * count && buf.aStart + n <= buf.aEnd && forall e :: e in Concat(during) ==> EntryOk(e)
      modifies this`dropped, buf, buf.data
      ensures Peeked(old(buf.aStart), n, old(buf.data[buf.aStart..buf.aStart + n]))
      ensures Queue() == old(Queue()) + accepted && dropped == old(dropped) + |Concat(during)| - |accepted|
      ensures accepted <= Concat(during) && (accepted == Concat(during) || buf.Unused() < ENTRY)
      ensures bumped == Entries(old(buf.data[buf.aStart..buf.aStart + n]))
    {
      ghost var start, region, queue, lost := buf.aStart, buf.data[buf.aStart..buf.aStart + n], Queue(), dropped;
      assert during[..0] == [] && during[..|during|] == during;
      var k;
      bumped, k, accepted := WorkOff(n, during, count, start, region, queue, lost);
      accepted := OfferRest(during, k, start, n, region, queue, lost, accepted);
    }

    /** The poll of a region whose entries have been taken care of. */
    method Discard(n: nat, ghost done: seq<Entry>)
      requires Valid() && Whole(n) && 0 < n <= buf.aEnd - buf.aStart
      requires done == Entries(buf.data[buf.aStart..buf.aStart + n])
      modifies buf
      ensures Valid() && done + Queue() == old(Queue()) && buf.Now() == Polled(buf.size, old(buf.Now()), n)
    {
      buf.FrontOfQueue(n);
      PollEntries(buf.data[buf.aStart..buf.aStart + n], buf.Contents());
      PollKeepsWhole(buf.size, buf.Now(), n);
      var at := buf.Poll(n);
    }

    /**
     * One buffer's turn in lru_maintainer_bumps: the entries queued in front are taken care of once, in order, and of
     * the offers made in the meantime a beginning is queued behind what was queued before, the others are dropped.
     */
    method Drain(during: seq<seq<Entry>>) returns (bumped: seq<Entry>, ghost accepted: seq<Entry>)
      requires Valid() && forall e :: e in Concat(during) ==> EntryOk(e)
      modifies this`dropped, buf, buf.data
      ensures Valid() && bumped <= old(Queue()) && (bumped == [] <==> old(Queue()) == [])
      ensures bumped + Queue() == old(Queue()) + accepted
      ensures old(Queue()) != [] ==> accepted <= Concat(during) && dropped == old(dropped) + |Concat(during)| - |accepted|
    {
      var found, n := buf.PeekAll();
      if !found { return [], []; }
      RegionIsWhole(buf.size, buf.Now());
      ghost var region, q := buf.data[buf.aStart..buf.aStart + n], Queue();
      assert region != [] && Entries(region) <= q && Entries(region) != [] by { FrontEntries(region, buf.Contents()); }
      bumped, accepted := Work(n, during, n / ENTRY);
      Discard(n, bumped);
    }
  }
}
