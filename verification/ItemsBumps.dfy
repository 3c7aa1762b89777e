/** What the operations do to the bumps that are queued and to the addresses in use. */
module ItemsQueued {
  import opened Base
  import opened ItemsModel
  import opened ItemsInv
  import opened ItemsOps
  import opened ItemsWalk
  import opened ItemsPull
  import opened ItemsSteps
  import opened ItemsTracking
  import opened ItemsRuns

  /** No item is in use that was not, and the time an item is given stays. */
  ghost predicate Within(s: State, t: State) {
    forall x :: x in t.items ==> x in s.items && t.items[x].exptime == s.items[x].exptime
  }

  lemma UpdateWithin(s: State, x: Ref, now: int, c: Settings)
    requires x in s.items
    ensures Within(s, UpdateItem(s, x, now, c)) && UpdateItem(s, x, now, c).bumps == s.bumps
  {
  }

  lemma ReleaseWithin(s: State, x: Ref)
    requires Live(s, x)
    ensures Within(s, Release(s, x)) && Release(s, x).bumps == s.bumps
  {
  }

  lemma UnlinkWithin(s: State, x: Ref)
    requires Live(s, x)
    ensures Within(s, UnlinkItem(s, x)) && UnlinkItem(s, x).bumps == s.bumps
  {
  }

  lemma ReapWithin(s: State, x: Ref)
    requires Inv(s) && x in s.items
    ensures Live(Hold(s, x), x) && Live(UnlinkItem(Hold(s, x), x), x)
    ensures var t := Release(UnlinkItem(Hold(s, x), x), x); Within(s, t) && t.bumps == s.bumps
  {
    SurvivesUnlink(s, x);
    var t := UnlinkItem(Hold(s, x), x);
    UnlinkWithin(Hold(s, x), x);
    ReleaseWithin(t, x);
  }

  lemma CrawlWithin(s: State, x: Ref, flushed: bool, now: int)
    requires Inv(s) && Live(s, x)
    ensures Within(s, CrawlItem(s, x, flushed, now))
  {
    ReapWithin(s, x);
    ReleaseWithin(Hold(s, x), x);
  }

  /** The hit that asks for a bump: an item of the COLD list that has been fetched before and is not active. */
  predicate Asks(h: Hdr, c: Settings) {
    c.segmented && !h.active && h.fetched && Lruid(h.seg) == COLD_LRU
  }

  lemma BumpWithin(s: State, x: Ref, now: int, c: Settings, room: bool)
    requires x in s.items
    ensures var t := BumpItem(s, x, now, c, room);
            Within(s, t) && t.bumps == if Asks(s.items[x], c) && room then s.bumps + [x] else s.bumps
  {
    if !c.segmented { UpdateWithin(SetHdr(s, x, s.items[x].(fetched := true)), x, now, c); }
  }

  /** The item a fetch asks to have bumped. */
  function Asked(index: map<Key, Ref>, items: map<Ref, Hdr>, k: Key, flushed: bool, now: int, c: Settings, update: bool): Option<Ref> {
    if k in index && index[k] in items && !Gone(items[index[k]], flushed, now) && update && Asks(items[index[k]], c)
    then Some(index[k]) else None
  }

  lemma GetWithin(s: State, k: Key, flushed: bool, now: int, c: Settings, update: bool, room: bool)
    requires Inv(s) && (k in s.index ==> Live(s, s.index[k]))
    ensures var t, asked := GetItem(s, k, flushed, now, c, update, room).0, Asked(s.index, s.items, k, flushed, now, c, update);
            Within(s, t) && t.bumps == if asked.Some? && room then s.bumps + [asked.value] else s.bumps
  {
    if k in s.index {
      if Gone(s.items[s.index[k]], flushed, now) {
        ReapWithin(s, s.index[k]);
      } else {
        HitWithin(s, s.index[k], now, c, update, room);
      }
    }
  }

  lemma HitWithin(s: State, x: Ref, now: int, c: Settings, update: bool, room: bool)
    requires x in s.items
    ensures var t := if update then BumpItem(Hold(s, x), x, now, c, room) else Hold(s, x);
            Within(s, t) && t.bumps == if update && Asks(s.items[x], c) && room then s.bumps + [x] else s.bumps
  {
    BumpWithin(Hold(s, x), x, now, c, room);
  }

  lemma DrainWithin(s: State, now: int, c: Settings)
    requires Inv(s) && s.bumps != [] && Live(s, s.bumps[0])
    ensures Within(s, DrainBump(s, now, c)) && DrainBump(s, now, c).bumps == s.bumps[1..]
  {
    DrainKeepsInv(s, now, c);
    var x, t := s.bumps[0], s.(bumps := s.bumps[1..]);
    UpdateWithin(t, x, now, c);
    assert s.bumps == [x] + t.bumps;
    assert multiset(s.bumps) == multiset{x} + multiset(t.bumps);
    assert Inv(t);
    UpdateKeepsInv(t, x, now, c);
    InvLive(UpdateItem(t, x, now, c));
    ReleaseWithin(UpdateItem(t, x, now, c), x);
  }

  // ---------------------------------------------------------------- the tail walk

  lemma ActiveWithin(s: State, x: Ref, removed: nat, p: Pull)
    requires Live(s, x)
    ensures Within(s, VisitActive(s, x, removed, p).s)
  {
  }

  lemma IdleWithin(s: State, x: Ref, removed: nat, p: Pull, e: Env, c: Settings)
    requires Live(s, x) && PullOk(p)
    ensures Within(s, VisitIdle(s, x, removed, p, e, c).s)
  {
  }

  lemma ColdWithin(s: State, x: Ref, removed: nat, p: Pull, c: Settings)
    requires Live(s, x)
    ensures Within(s, VisitCold(s, x, removed, p, c).s)
  {
    UnlinkWithin(Hold(s, x), x);
  }

  lemma VisitWithin(s: State, x: Ref, removed: nat, p: Pull, e: Env, c: Settings)
    requires Inv(s) && Live(s, x) && PullOk(p)
    ensures Within(s, Visit(s, x, removed, p, e, c).s)
  {
    if Expired(s.items[x], x in e.flushed, e.now) {
      ReapWithin(s, x);
    } else if p.lru == HOT_LRU || p.lru == WARM_LRU {
      if s.items[x].active { ActiveWithin(s, x, removed, p); } else { IdleWithin(s, x, removed, p, e, c); }
    } else if p.lru == COLD_LRU {
      ColdWithin(s, x, removed, p, c);
    }
  }

  lemma TurnedWithin(whole: Walk, w: Walk, x: Ref, tries: nat, p: Pull, e: Env, c: Settings)
    requires AheadOk(whole, w, Some(x), tries, p, e, c) && w.it.None? && Live(w.s, x) && PullOk(p)
    ensures Within(w.s, Turned(w.s, x, w.removed, p, e, c).s)
  {
    if x !in e.locked { VisitWithin(w.s, x, w.removed, p, e, c); }
  }

  lemma WalkOnWithin(ahead: (Walk, Option<Ref>, nat) -> bool, whole: Walk, w: Walk, x: Ref, tries: nat, p: Pull, e: Env, c: Settings)
    returns (u: Walk, next: Option<Ref>)
    requires Tracks(ahead, whole, p, e, c) && ahead(w, Some(x), tries) && w.it.None? && tries > 0 && !Blocked(Some(x), p, e)
    ensures ahead(u, next, tries - 1) && Within(w.s, u.s)
  {
    assert AheadOk(whole, w, Some(x), tries, p, e, c);
    AheadLive(whole, w, Some(x), tries, p, e, c);
    AheadStep(whole, w, x, tries, p, e, c);
    TurnedWithin(whole, w, x, tries, p, e, c);
    u, next := Turned(w.s, x, w.removed, p, e, c), NextUp(w.s, x, p);
  }

  lemma {:induction false} WalkWithin(ahead: (Walk, Option<Ref>, nat) -> bool, whole: Walk, w: Walk, search: Option<Ref>,
                                      tries: nat, p: Pull, e: Env, c: Settings)
    requires Tracks(ahead, whole, p, e, c) && ahead(w, search, tries)
    ensures Within(w.s, whole.s)
    decreases tries
  {
    if tries == 0 || search.None? || w.it.Some? || Blocked(search, p, e) {
      TrackEnd(ahead, whole, w, search, tries, p, e, c);
    } else {
      var u, next := WalkOnWithin(ahead, whole, w, search.value, tries, p, e, c);
      WalkWithin(ahead, whole, u, next, tries - 1, p, e, c);
    }
  }

  lemma FinishWithin(p: Pull, s: State, w: Walk)
    ensures Within(w.s, Finish(p, s, w).s)
  {
  }

  lemma PullWithin(s: State, p: Pull, e: Env, c: Settings)
    requires Inv(s) && (p.clsid == 0 || PullOk(p))
    ensures Within(s, PullTail(s, p, e, c).s)
  {
    if p.clsid != 0 {
      var v := WalkUp(s, Start(s, p), TRIES, 0, p, e, c);
      var ahead := Tracker(v, p, e, c);
      TrackStart(s, Start(s, p), TRIES, p, e, c, v, ahead);
      WalkWithin(ahead, v, Walk(s, 0, None, None), Start(s, p), TRIES, p, e, c);
      FinishWithin(p, s, v);
    }
  }

  // ---------------------------------------------------------------- any operation

  /** Operations that neither ask for a bump nor take care of one. */
  predicate Aside(op: Op) {
    !op.DoGet? && !op.DoDrain?
  }

  lemma ReplaceWithin(s: State, x: Ref, y: Ref, now: int)
    requires Live(s, x) && y in s.items && x != y
    ensures Within(s, Replace(s, x, y, now)) && Replace(s, x, y, now).bumps == s.bumps
  {
    UnlinkWithin(s, x);
    LinkWithin(UnlinkItem(s, x), y, now);
  }

  lemma LinkWithin(s: State, x: Ref, now: int)
    requires x in s.items
    ensures Within(s, LinkItem(s, x, now)) && LinkItem(s, x, now).bumps == s.bumps
  {
  }

  lemma AsideWithin(s: State, op: Op)
    requires Inv(s) && Enabled(s, op) && Aside(op)
    ensures Next(s, op).bumps == s.bumps
    ensures forall x :: x in Next(s, op).items ==>
              || (op.DoAlloc? && x == op.x)
              || (x in s.items && Next(s, op).items[x].exptime == s.items[x].exptime)
  {
    InvLive(s);
    match op
    case DoAlloc(x, seg, exptime) =>
    case DoLink(x, now) => LinkWithin(s, x, now);
    case DoUnlink(x) => UnlinkWithin(s, x);
    case DoRelease(x) => ReleaseWithin(s, x);
    case DoReplace(x, y, now) => ReplaceWithin(s, x, y, now);
    case DoUpdate(x, now, c) => UpdateWithin(s, x, now, c);
    case DoCrawl(x, flushed, now) => CrawlWithin(s, x, flushed, now); CrawlKeepsInv(s, x, flushed, now);
    case DoPull(p, e, c) => PullWithin(s, p, e, c); PullTailKeepsInv(s, p, e, c);
  }
}

/** Pointers to items as the bytes of a bump entry. */
module ItemsPointers {
  import opened Base
  import opened Bip
  import opened BumpCursors
  import opened Bumps
  import opened ItemsModel

  function Power(k: nat): (n: nat)
    ensures n > 0
  {
    if k == 0 then 1 else 256 * Power(k - 1)
  }

  /** A number as so many bytes, least significant first. */
  function Raw(n: nat, k: nat): (d: Data)
    ensures |d| == k
  {
    if k == 0 then [] else [n % 256] + Raw(n / 256, k - 1)
  }

  function Number(d: Data): nat {
    if d == [] then 0 else d[0] + 256 * Number(d[1..])
  }

  lemma {:induction false} RawBack(n: nat, k: nat)
    requires n < Power(k)
    ensures Number(Raw(n, k)) == n
  {
    if k > 0 {
      RawBack(n / 256, k - 1);
      assert Raw(n, k)[1..] == Raw(n / 256, k - 1);
    }
  }

  /** No two items in use have the same address, and an address fits into a pointer. */
  ghost predicate AddressesOk(items: map<Ref, Hdr>) {
    && (forall x, y :: x in items && y in items && x.addr == y.addr ==> x == y)
    && forall x :: x in items ==> x.addr < Power(8)
  }

  predicate Points(e: Entry, x: Ref) {
    Number(e.it) == x.addr
  }

  function Pointer(x: Ref, hv: Data): (e: Entry)
    requires |hv| == 4
    ensures EntryOk(e)
  {
    Entry(Raw(x.addr, 8), hv)
  }

  lemma PointerPoints(x: Ref, hv: Data)
    requires |hv| == 4 && x.addr < Power(8)
    ensures Points(Pointer(x, hv), x)
  {
    RawBack(x.addr, 8);
  }

  /** The entries queued are the bumps of the model, in order. */
  ghost predicate Tied(q: seq<Entry>, refs: seq<Ref>) {
    |q| == |refs| && forall i :: 0 <= i < |q| ==> Points(q[i], refs[i])
  }

  lemma TiedMore(q: seq<Entry>, refs: seq<Ref>, e: Entry, x: Ref)
    requires Tied(q, refs) && Points(e, x)
    ensures Tied(q + [e], refs + [x])
  {
  }

  lemma TiedRest(done: seq<Entry>, q: seq<Entry>, front: seq<Ref>, refs: seq<Ref>)
    requires Tied(done + q, front + refs) && |done| == |front|
    ensures Tied(q, refs)
  {
    forall i | 0 <= i < |q| ensures Points(q[i], refs[i]) {
      assert (done + q)[|done| + i] == q[i] && (front + refs)[|front| + i] == refs[i];
    }
  }
}

/** lru_bump_async and lru_maintainer_bumps over the bytes of the buffer and the items they point to. */
module ItemsBumps {
  import opened Base
  import opened Bip
  import opened BumpCursors
  import opened Bumps
  import opened ItemsModel
  import opened ItemsInv
  import opened ItemsOps
  import opened ItemsRuns
  import opened ItemsDid
  import opened ItemsCode
  import opened ItemsQueued
  import opened ItemsPointers

  /** A fetch by a worker thread. */
  datatype Fetch = Fetch(k: Key, flushed: bool, now: int, c: Settings, update: bool, hv: Data)

  function AsOp(f: Fetch, room: bool): Op {
    DoGet(f.k, f.flushed, f.now, f.c, f.update, room)
  }

  /** What happens around one turn: the fetches in it, in rounds, and those behind it. */
  datatype Round = Round(now: int, during: seq<seq<Fetch>>, behind: seq<Fetch>)

  /** Every fetch comes with a hash value of four bytes. */
  ghost predicate Hashed(during: seq<seq<Fetch>>) {
    forall k :: 0 <= k < |during| ==> forall f :: f in during[k] ==> |f.hv| == 4
  }

  lemma AllHashed(during: seq<seq<Fetch>>, behind: seq<Fetch>)
    requires Hashed(during + [behind])
    ensures Hashed(during) && forall f :: f in behind ==> |f.hv| == 4
  {
    var all := during + [behind];
    assert all[|during|] == behind;
    forall k | 0 <= k < |during| ensures forall f :: f in during[k] ==> |f.hv| == 4 {
      assert all[k] == during[k];
    }
  }

  /** What the store keeps. */
  ghost predicate Good(s: State) {
    Inv(s) && AddressesOk(s.items)
  }

  /** A property and a relation that stand for what the store keeps and for its steps, without saying what those are. */
  datatype Names = Names(good: State -> bool, did: (State, Op, State) -> bool)

  ghost predicate Stands(n: Names) {
    && (forall s {:trigger Good(s)} :: Good(s) <==> n.good(s))
    && forall s, op, t {:trigger Did(s, op, t)} :: Did(s, op, t) <==> n.did(s, op, t)
  }

  ghost function NamesOf(): (n: Names)
    ensures Stands(n)
  {
    Names((s: State) => Good(s), (s: State, op: Op, t: State) => Did(s, op, t))
  }

  lemma FetchDone(s: State, f: Fetch, room: bool, t: State)
    requires Did(s, AsOp(f, room), t)
    ensures Inv(t) && Within(s, t)
    ensures var asked := Asked(s.index, s.items, f.k, f.flushed, f.now, f.c, f.update);
            t.bumps == if asked.Some? && room then s.bumps + [asked.value] else s.bumps
  {
    InvLive(s);
    GetWithin(s, f.k, f.flushed, f.now, f.c, f.update, room);
  }

  lemma DrainDone(s: State, now: int, c: Settings, t: State)
    requires Did(s, DoDrain(now, c), t)
    ensures Inv(t) && Within(s, t) && s.bumps != [] && t.bumps == s.bumps[1..] && t.handles == s.handles - multiset{s.bumps[0]}
  {
    DrainKeepsInv(s, now, c);
    DrainWithin(s, now, c);
  }

  lemma AsideDone(s: State, op: Op, t: State)
    requires Did(s, op, t) && Aside(op) && AddressesOk(s.items) && (op.DoAlloc? ==> op.x.addr < Power(8))
    ensures Inv(t) && t.bumps == s.bumps && AddressesOk(t.items)
  {
    AsideWithin(s, op);
  }

  lemma WithinAddresses(s: State, t: State)
    requires AddressesOk(s.items) && Within(s, t)
    ensures AddressesOk(t.items)
  {
  }

  lemma InitGood(n: Names)
    requires Stands(n)
    ensures n.good(Init())
  {
    InitInv();
    assert Good(Init());
  }

  /** Of the items in use a pointer that was queued for a bump points to that one alone. */
  lemma PointsToOne(s: State, e: Entry)
    requires Good(s) && s.bumps != [] && Points(e, s.bumps[0])
    ensures s.bumps[0] in s.items && forall x :: x in s.items && Points(e, x) ==> x == s.bumps[0]
  {
    assert s.bumps[0] in multiset(s.bumps);
  }

  lemma FirstInHand(q: seq<Entry>, region: seq<Entry>, inHand: seq<Ref>, bumps: seq<Ref>)
    requires Tied(q, inHand + bumps) && region <= q && |inHand| < |region|
    ensures bumps != [] && Points(region[|inHand|], bumps[0]) && inHand + bumps == (inHand + [bumps[0]]) + bumps[1..]
  {
    assert (inHand + bumps)[|inHand|] == bumps[0];
    assert q[|inHand|] == region[|inHand|];
  }

  lemma FirstWorked(accepted: seq<Ref>, worked: seq<Ref>, bumps: seq<Ref>)
    requires accepted == worked + bumps && bumps != []
    ensures accepted == (worked + [bumps[0]]) + bumps[1..]
  {
  }

  class Maintainer {
    const store: Store
    const bumps: BumpBuf
    ghost var accepted: seq<Ref>
    ghost var worked: seq<Ref>
    ghost var inHand: seq<Ref>
    ghost const names: Names

    constructor (n: nat)
      ensures Valid() && inHand == [] && accepted == [] && fresh(store) && fresh(bumps) && fresh(bumps.buf) && fresh(bumps.buf.data)
    {
      store := new Store();
      bumps := new BumpBuf(n);
      accepted, worked, inHand, names := [], [], [], NamesOf();
      new;
      InitGood(names);
    }

    /**
     * The entries in the buffer are the bumps of the model, behind those that have been taken care of but not polled yet;
     * all bumps ever accepted are those taken care of, and then those of the model.
     */
    ghost predicate Valid()
      reads this, store, bumps, bumps.buf, bumps.buf.data
    {
      && Stands(names) && names.good(store.Now()) && bumps.Valid()
      && Tied(bumps.Queue(), inHand + store.bumps) && accepted == worked + store.bumps
    }

    /** Any other operation. */
    method Serve(op: Op)
      requires Valid() && Enabled(store.Now(), op) && Aside(op) && (op.DoAlloc? ==> op.x.addr < Power(8))
      modifies store
      ensures Valid() && names.did(old(store.Now()), op, store.Now())
    {
      ghost var s := store.Now();
      assert Good(s);
      store.Perform(op);
      AsideDone(s, op, store.Now());
      assert Good(store.Now()) && Did(s, op, store.Now());
    }

    /** The queueing of one more bump. */
    method Accept(x: Ref, hv: Data, ghost start: nat, ghost n: nat, ghost region: Data) returns (ok: bool)
      requires bumps.Peeked(start, n, region) && |hv| == 4 && x.addr < Power(8) && Tied(bumps.Queue(), inHand + store.bumps)
      modifies bumps`dropped, bumps.buf, bumps.buf.data
      ensures bumps.Peeked(start, n, region) && Follows(old(bumps.buf.Now()), bumps.buf.Now())
      ensures Tied(bumps.Queue(), inHand + if ok then store.bumps + [x] else store.bumps)
    {
      PointerPoints(x, hv);
      TiedMore(bumps.Queue(), inHand + store.bumps, Pointer(x, hv), x);
      assert (inHand + store.bumps) + [x] == inHand + (store.bumps + [x]);
      ok := bumps.Produce(Pointer(x, hv), start, n, region);
    }

    /** The item a fetch asks to have bumped. */
    method Ask(f: Fetch) returns (asked: Option<Ref>)
      requires Stands(names) && names.good(store.Now())
      ensures asked == Asked(store.index, store.items, f.k, f.flushed, f.now, f.c, f.update)
      ensures asked.Some? ==> asked.value.addr < Power(8)
    {
      assert Good(store.Now());
      asked := Asked(store.index, store.items, f.k, f.flushed, f.now, f.c, f.update);
    }

    /** A fetch in the store; `room` is whether the bump buffer took the bump it asked for. */
    method Get(f: Fetch, room: bool, ghost asked: Option<Ref>)
      requires Stands(names) && names.good(store.Now())
      requires asked == Asked(store.index, store.items, f.k, f.flushed, f.now, f.c, f.update)
      modifies store
      ensures names.good(store.Now()) && names.did(old(store.Now()), AsOp(f, room), store.Now())
      ensures store.bumps == if asked.Some? && room then old(store.bumps) + [asked.value] else old(store.bumps)
    {
      ghost var s := store.Now();
      assert Good(s);
      store.Perform(AsOp(f, room));
      FetchDone(s, f, room, store.Now());
      WithinAddresses(s, store.Now());
      assert Good(store.Now()) && Did(s, AsOp(f, room), store.Now());
    }

    /** A fetch, and the bump it may ask for; the region a consumer has peeked stays there. */
    method DoFetch(f: Fetch, ghost start: nat, ghost n: nat, ghost region: Data) returns (ok: bool)
      requires Valid() && bumps.Peeked(start, n, region) && |f.hv| == 4
      modifies this`accepted, store, bumps`dropped, bumps.buf, bumps.buf.data
      ensures Valid() && bumps.Peeked(start, n, region) && Follows(old(bumps.buf.Now()), bumps.buf.Now())
      ensures old(accepted) <= accepted && names.did(old(store.Now()), AsOp(f, ok), store.Now())
    {
      var asked := Ask(f);
      ok := false;
      if asked.Some? { ok := Accept(asked.value, f.hv, start, n, region); }
      Get(f, ok, asked);
      if ok { accepted := accepted + [asked.value]; }
    }

    /** The bump of the item that a pointer leads to. */
    method TakeCare(e: Entry, now: int, c: Settings)
      requires Stands(names) && names.good(store.Now()) && store.bumps != [] && Points(e, store.bumps[0])
      modifies store
      ensures names.good(store.Now()) && names.did(old(store.Now()), DoDrain(now, c), store.Now())
      ensures store.bumps == old(store.bumps)[1..] && store.handles == old(store.handles) - multiset{old(store.bumps)[0]}
    {
      ghost var s := store.Now();
      assert Good(s);
      PointsToOne(s, e);
      var x :| x in store.items && Points(e, x);
      assert x == store.bumps[0];
      store.Perform(DoDrain(now, c));
      DrainDone(s, now, c, store.Now());
      WithinAddresses(s, store.Now());
      assert Good(store.Now()) && Did(s, DoDrain(now, c), store.Now());
    }

    /** The consumer has peeked a region of so many entries and taken care of i of them. */
    ghost predicate Working(start: nat, n: nat, region: Data, count: nat, i: nat)
      reads this, store, bumps, bumps.buf, bumps.buf.data
    {
      && Valid() && bumps.Peeked(start, n, region) && n == ENTRY * count && |inHand| == i <= count
      && |Entries(region)| == count && Entries(region) <= bumps.Queue()
    }

    /** One turn of the loop of lru_maintainer_bumps. */
    method WorkOne(at: nat, now: int, c: Settings, ghost start: nat, ghost n: nat, ghost region: Data, ghost count: nat, ghost i: nat)
      requires Working(start, n, region, count, i) && i < count && at == start + ENTRY * i
      modifies this`worked, this`inHand, store
      ensures Working(start, n, region, count, i + 1) && worked == old(worked) + [old(store.bumps)[0]]
    {
      var e := bumps.ReadEntry(at, start, n, region, i);
      FirstInHand(bumps.Queue(), Entries(region), inHand, store.bumps);
      FirstWorked(accepted, worked, store.bumps);
      ghost var x := store.bumps[0];
      TakeCare(e, now, c);
      worked, inHand := worked + [x], inHand + [x];
    }

    /** A region of whole entries that has been peeked is the front of the queue. */
    lemma InFront(start: nat, n: nat, region: Data, count: nat)
      requires bumps.Valid() && bumps.Peeked(start, n, region) && n == ENTRY * count
      ensures |Entries(region)| == count && Entries(region) <= bumps.Queue()
    {
      EntriesLength(region, count);
      bumps.buf.FrontOfQueue(n);
      assert IsTimes(n, count);
      if n > 0 { FrontEntries(region, bumps.buf.Contents()); }
    }

    /** Fetches while the consumer is at work, or in between: nothing that was accepted is lost, nothing more is taken care of. */
    method Fetches(fetches: seq<Fetch>, ghost start: nat, ghost n: nat, ghost region: Data, ghost count: nat, ghost i: nat)
      requires Working(start, n, region, count, i) && forall f :: f in fetches ==> |f.hv| == 4
      modifies this`accepted, store, bumps`dropped, bumps.buf, bumps.buf.data
      ensures Working(start, n, region, count, i) && old(accepted) <= accepted && Follows(old(bumps.buf.Now()), bumps.buf.Now())
    {
      var k := 0;
      while k < |fetches|
        invariant Working(start, n, region, count, i) && old(accepted) <= accepted
        invariant Follows(old(bumps.buf.Now()), bumps.buf.Now()) && worked == old(worked) && inHand == old(inHand)
      {
        var ok := DoFetch(fetches[k], start, n, region);
        InFront(start, n, region, count);
        k := k + 1;
      }
    }

    /** Where a turn stands: `was` are the bumps accepted before it, `done` those taken care of, `c` the cursors at the peek. */
    ghost predicate Turning(start: nat, n: nat, region: Data, count: nat, i: nat, was: seq<Ref>, done: seq<Ref>, c: Cursors)
      reads this, store, bumps, bumps.buf, bumps.buf.data
    {
      && Working(start, n, region, count, i) && was <= accepted && done <= worked && |worked| == |done| + i
      && Follows(c, bumps.buf.Now())
    }

    /** The loop over the peeked region; round k of the fetches comes after entry k. */
    method WorkOff(n: nat, now: int, c: Settings, during: seq<seq<Fetch>>, ghost start: nat, ghost region: Data, ghost count: nat,
                   ghost was: seq<Ref>, ghost done: seq<Ref>, ghost cursors: Cursors) returns (k: nat)
      requires Turning(start, n, region, count, 0, was, done, cursors) && Hashed(during)
      modifies this`accepted, this`worked, this`inHand, store, bumps`dropped, bumps.buf, bumps.buf.data
      ensures Turning(start, n, region, count, count, was, done, cursors) && k <= |during|
    {
      var at, todo := bumps.buf.aStart, n;
      ghost var i := 0;
      k := 0;
      while todo > 0
        invariant 0 <= i <= count && todo == n - ENTRY * i && at == start + ENTRY * i && k <= |during|
        invariant Turning(start, n, region, count, i, was, done, cursors)
        decreases count - i
      {
        WorkOne(at, now, c, start, n, region, count, i);
        at, todo, i := at + ENTRY, todo - ENTRY, i + 1;
        if k < |during| {
          Fetches(during[k], start, n, region, count, i);
          k := k + 1;
        }
      }
    }

    /** The rounds that are left, before the poll. */
    method FetchRest(during: seq<seq<Fetch>>, from: nat, ghost start: nat, ghost n: nat, ghost region: Data, ghost count: nat,
                     ghost was: seq<Ref>, ghost done: seq<Ref>, ghost cursors: Cursors)
      requires Turning(start, n, region, count, count, was, done, cursors) && Hashed(during) && from <= |during|
      modifies this`accepted, store, bumps`dropped, bumps.buf, bumps.buf.data
      ensures Turning(start, n, region, count, count, was, done, cursors)
    {
      var k := from;
      while k < |during|
        invariant k <= |during| && Turning(start, n, region, count, count, was, done, cursors)
      {
        Fetches(during[k], start, n, region, count, count);
        k := k + 1;
      }
    }

    /** The poll: what was in hand leaves the buffer. */
    method PollRegion(ghost start: nat, n: nat, ghost region: Data, ghost count: nat)
      requires Working(start, n, region, count, count) && n > 0
      modifies this`inHand, bumps.buf
      ensures Valid() && inHand == [] && bumps.buf.Now() == Polled(bumps.buf.size, old(bumps.buf.Now()), n)
    {
      ghost var done := Entries(region);
      assert IsTimes(n, count);
      bumps.Discard(n, done);
      TiedRest(done, bumps.Queue(), inHand, store.bumps);
      inHand := [];
      assert [] + store.bumps == store.bumps;
    }

    /** What is left to do once the region has been worked off. */
    method Finish(n: nat, during: seq<seq<Fetch>>, k: nat, ghost start: nat, ghost region: Data, ghost count: nat,
                  ghost was: seq<Ref>, ghost done: seq<Ref>, ghost cursors: Cursors)
      requires Turning(start, n, region, count, count, was, done, cursors) && Hashed(during) && k <= |during|
      requires CursorsOk(bumps.buf.size, cursors) && n == cursors.aEnd - cursors.aStart > 0
      modifies this`accepted, this`inHand, store, bumps`dropped, bumps.buf, bumps.buf.data
      ensures Valid() && inHand == [] && was <= accepted && (cursors.bInuse ==> Settled(bumps.buf.Now()))
    {
      FetchRest(during, k, start, n, region, count, was, done, cursors);
      if cursors.bInuse { PollSettles(bumps.buf.size, cursors, bumps.buf.Now()); }
      PollRegion(start, n, region, count);
    }

    /** The consumer has just peeked all of region A, which is the whole queue exactly when region B is empty. */
    lemma Starts(n: nat)
      requires Valid() && inHand == [] && n == bumps.buf.aEnd - bumps.buf.aStart > 0
      ensures var region := bumps.buf.data[bumps.buf.aStart..bumps.buf.aStart + n];
              Turning(bumps.buf.aStart, n, region, n / ENTRY, 0, accepted, worked, bumps.buf.Now())
      ensures n / ENTRY > 0 && (|worked| + n / ENTRY == |accepted| <==> bumps.buf.bEnd == 0)
    {
      ghost var start, region, count := bumps.buf.aStart, bumps.buf.data[bumps.buf.aStart..bumps.buf.aStart + n], n / ENTRY;
      RegionIsWhole(bumps.buf.size, bumps.buf.Now());
      InFront(start, n, region, count);
      EntriesConcat(region, bumps.buf.data[..bumps.buf.bEnd]);
      ghost var more :| IsTimes(bumps.buf.bEnd, more);
      EntriesLength(bumps.buf.data[..bumps.buf.bEnd], more);
    }

    /**
     * One turn of lru_maintainer_bumps at the buffer, with fetches in the meantime: every bump is taken care of once and
     * in the order of acceptance, some are whenever there are any, and all that were accepted before are exactly when
     * region B was empty. If it was in use the turn leaves a queue that is all in region A.
     */
    method Turn(now: int, c: Settings, during: seq<seq<Fetch>>)
      requires Valid() && inHand == [] && Hashed(during)
      modifies this`accepted, this`worked, this`inHand, store, bumps`dropped, bumps.buf, bumps.buf.data
      ensures Valid() && inHand == [] && old(accepted) <= accepted && old(worked) <= worked
      ensures |worked| > old(|worked|) || old(worked) == old(accepted)
      ensures old(accepted) <= worked <==> old(bumps.buf.bEnd) == 0
      ensures old(bumps.buf.bInuse) ==> Settled(bumps.buf.Now())
    {
      var found, n := bumps.buf.PeekAll();
      if !found { return; }
      ghost var cursors, was, done := bumps.buf.Now(), accepted, worked;
      ghost var start, region, count := bumps.buf.aStart, bumps.buf.data[bumps.buf.aStart..bumps.buf.aStart + n], n / ENTRY;
      Starts(n);
      var k := WorkOff(n, now, c, during, start, region, count, was, done, cursors);
      Finish(n, during, k, start, region, count, was, done, cursors);
    }

    /** Fetches in between two turns. */
    method Between(fetches: seq<Fetch>)
      requires Valid() && inHand == [] && forall f :: f in fetches ==> |f.hv| == 4
      modifies this`accepted, store, bumps`dropped, bumps.buf, bumps.buf.data
      ensures Valid() && old(accepted) <= accepted && Follows(old(bumps.buf.Now()), bumps.buf.Now())
    {
      InFront(bumps.buf.aStart, 0, [], 0);
      Fetches(fetches, bumps.buf.aStart, 0, [], 0, 0);
    }

    /**
     * Any number of turns, with fetches in them and in between. All bumps ever accepted are the ones taken care of, in
     * the order of their acceptance, and then the ones that are queued; two turns are enough for all that were accepted before.
     */
    method Turns(rounds: seq<Round>, c: Settings)
      requires Valid() && inHand == [] && forall i :: 0 <= i < |rounds| ==> Hashed(rounds[i].during + [rounds[i].behind])
      modifies this`accepted, this`worked, this`inHand, store, bumps`dropped, bumps.buf, bumps.buf.data
      ensures Valid() && inHand == [] && old(accepted) <= accepted && accepted == worked + store.bumps
      ensures |rounds| >= 2 ==> old(accepted) <= worked
    {
      var i := 0;
      while i < |rounds|
        invariant 0 <= i <= |rounds| && Valid() && inHand == [] && old(accepted) <= accepted
        invariant i == 1 ==> old(accepted) <= worked || Settled(bumps.buf.Now())
        invariant i >= 2 ==> old(accepted) <= worked
      {
        AllHashed(rounds[i].during, rounds[i].behind);
        Turn(rounds[i].now, c, rounds[i].during);
        Between(rounds[i].behind);
        i := i + 1;
      }
    }
  }
}
