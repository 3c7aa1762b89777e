/**
 * What the operations do to the index and the lists, as a sequence of edits: an item is linked, unlinked or moved.
 * Every complete operation, the tail walk included, comes down to such edits, each of them one that the code may make.
 */
module ItemsEdits {
  import opened Base
  import opened ItemsModel
  import opened ItemsParts
  import opened ItemsInv
  import opened ItemsLemmas

  /** The index, the lists and their counters. */
  datatype View = View(index: map<Key, Ref>, lists: Lists, sizes: Counts, bytes: Counts)

  datatype Edit = Link(x: Ref, g: Seg) | Unlink(x: Ref, g: Seg) | Shift(x: Ref, f: Seg, g: Seg)

  function ViewOf(s: State): View {
    View(s.index, s.lists, s.sizes, s.bytes)
  }

  function Put(v: View, x: Ref, g: Seg): View {
    v.(lists := v.lists[g := [x] + v.lists[g]], sizes := v.sizes[g := v.sizes[g] + 1],
       bytes := v.bytes[g := v.bytes[g] + x.ntotal])
  }

  function Take(v: View, x: Ref, g: Seg): View {
    v.(lists := v.lists[g := Without(v.lists[g], x)], sizes := v.sizes[g := v.sizes[g] - 1],
       bytes := v.bytes[g := v.bytes[g] - x.ntotal])
  }

  function After(v: View, e: Edit): View {
    match e
    case Link(x, g) => Put(v, x, g).(index := v.index[x.key := x])
    case Unlink(x, g) => Take(v, x, g).(index := v.index - {x.key})
    case Shift(x, f, g) => Put(Take(v, x, f), x, g)
  }

  /** The item is on list g and on no other. */
  ghost predicate OnlyOn(v: View, x: Ref, g: Seg) {
    NoDup(v.lists[g]) && forall f: Seg :: x in v.lists[f] <==> f == g
  }

  ghost predicate OnNone(v: View, x: Ref) {
    forall f: Seg :: x !in v.lists[f]
  }

  /** An edit the code may make: an item is linked that is nowhere, and taken from the list it is on. */
  ghost predicate Legal(v: View, e: Edit) {
    match e
    case Link(x, g) => OnNone(v, x) && x.key !in v.index
    case Unlink(x, g) => OnlyOn(v, x, g)
    case Shift(x, f, g) => OnlyOn(v, x, f)
  }

  ghost predicate AllLegal(v: View, edits: seq<Edit>)
    decreases |edits|
  {
    edits == [] || (Legal(v, edits[0]) && AllLegal(After(v, edits[0]), edits[1..]))
  }

  function Edited(v: View, edits: seq<Edit>): View
    decreases |edits|
  {
    if edits == [] then v else Edited(After(v, edits[0]), edits[1..])
  }

  /** An item that is linked comes from the pool. */
  predicate Draws(e: Edit, pool: set<Ref>) {
    e.Link? ==> e.x in pool
  }

  /** Legal edits, which link items of the pool only, lead from the one view to the other. */
  ghost predicate Leads(pool: set<Ref>, v: View, edits: seq<Edit>, u: View) {
    AllLegal(v, edits) && Edited(v, edits) == u && forall i :: 0 <= i < |edits| ==> Draws(edits[i], pool)
  }

  lemma {:induction false} LeadsOn(pool: set<Ref>, v: View, a: seq<Edit>, u: View, b: seq<Edit>, w: View)
    requires Leads(pool, v, a, u) && Leads(pool, u, b, w)
    ensures Leads(pool, v, a + b, w)
    decreases |a|
  {
    if a == [] {
      assert a + b == b;
    } else {
      LeadsOn(pool, After(v, a[0]), a[1..], u, b, w);
      assert (a + b)[0] == a[0] && (a + b)[1..] == a[1..] + b;
    }
  }

  lemma LeadsOne(pool: set<Ref>, v: View, e: Edit)
    requires Legal(v, e) && Draws(e, pool)
    ensures Leads(pool, v, [e], After(v, e))
  {
    assert [e][1..] == [];
  }

  /** Edits lead from the one to the other. */
  ghost predicate Reach(pool: set<Ref>, v: View, u: View) {
    exists edits :: Leads(pool, v, edits, u)
  }

  lemma ReachSame(pool: set<Ref>, v: View)
    ensures Reach(pool, v, v)
  {
    assert Leads(pool, v, [], v);
  }

  lemma ReachOne(pool: set<Ref>, v: View, e: Edit)
    requires Legal(v, e) && Draws(e, pool)
    ensures Reach(pool, v, After(v, e))
  {
    LeadsOne(pool, v, e);
  }

  lemma ReachOn(pool: set<Ref>, v: View, u: View, w: View)
    requires Reach(pool, v, u) && Reach(pool, u, w)
    ensures Reach(pool, v, w)
  {
    var a :| Leads(pool, v, a, u);
    var b :| Leads(pool, u, b, w);
    LeadsOn(pool, v, a, u, b, w);
  }

  // ---------------------------------------------------------------- the steps the operations are made of

  lemma PlacedOnce(s: State, x: Ref)
    requires ListsNoDup(s.lists) && PlacedOk(s.items, s.lists) && x in s.items
    ensures if s.items[x].linked then OnlyOn(ViewOf(s), x, s.items[x].seg) else OnNone(ViewOf(s), x)
  {
    OnlyOwnList(s.items, s.lists, x);
    forall f: Seg ensures x in s.lists[f] <==> s.items[x].linked && f == s.items[x].seg {
      assert OnList(s.lists, f, x) <==> x in s.lists[f];
    }
  }

  lemma HoldSees(s: State, x: Ref)
    requires x in s.items
    ensures ViewOf(Hold(s, x)) == ViewOf(s)
  {
  }

  lemma ReleaseSees(s: State, x: Ref)
    requires Live(s, x)
    ensures ViewOf(Release(s, x)) == ViewOf(s)
  {
  }

  lemma LinkReaches(pool: set<Ref>, s: State, x: Ref, now: int)
    requires Inv(s) && x in s.items && !s.items[x].linked && x.key !in s.index && x in pool
    ensures Reach(pool, ViewOf(s), ViewOf(LinkItem(s, x, now)))
  {
    PlacedOnce(s, x);
    ReachOne(pool, ViewOf(s), Link(x, s.items[x].seg));
  }

  lemma UnlinkSees(s: State, x: Ref)
    requires Live(s, x)
    ensures ViewOf(UnlinkItem(s, x)) == if s.items[x].linked then After(ViewOf(s), Unlink(x, s.items[x].seg)) else ViewOf(s)
  {
  }

  lemma UnlinkReaches(pool: set<Ref>, s: State, x: Ref)
    requires Inv(s) && Live(s, x)
    ensures Reach(pool, ViewOf(s), ViewOf(UnlinkItem(s, x)))
  {
    UnlinkSees(s, x);
    PlacedOnce(s, x);
    if s.items[x].linked {
      ReachOne(pool, ViewOf(s), Unlink(x, s.items[x].seg));
    } else {
      ReachSame(pool, ViewOf(s));
    }
  }

  lemma MoveReaches(pool: set<Ref>, s: State, x: Ref, g: Seg)
    requires Inv(s) && x in s.items && s.items[x].linked
    ensures Reach(pool, ViewOf(s), ViewOf(Move(s, x, g)))
  {
    PlacedOnce(s, x);
    MoveSees(s, x, g);
    ReachOne(pool, ViewOf(s), Shift(x, s.items[x].seg, g));
  }

  lemma MoveSees(s: State, x: Ref, g: Seg)
    requires x in s.items
    ensures ViewOf(Move(s, x, g)) == After(ViewOf(s), Shift(x, s.items[x].seg, g))
  {
  }

  /** The same from a state with the same index and lists. */
  lemma MoveReachesFrom(pool: set<Ref>, v: View, s: State, x: Ref, g: Seg)
    requires Inv(s) && x in s.items && s.items[x].linked && v == ViewOf(s)
    ensures Reach(pool, v, ViewOf(Move(s, x, g)))
  {
    MoveReaches(pool, s, x, g);
  }
}

/** Every operation on the items comes down to edits of the index and the lists. */
module ItemsReach {
  import opened Base
  import opened ItemsModel
  import opened ItemsInv
  import opened ItemsEdits
  import opened ItemsOps
  import opened ItemsWalk
  import opened ItemsWalks
  import opened ItemsPull
  import opened ItemsAhead
  import opened ItemsSteps
  import opened ItemsTracking
  import opened ItemsRuns

  lemma ReplaceReaches(pool: set<Ref>, s: State, x: Ref, y: Ref, now: int)
    requires Inv(s) && Live(s, x) && y in s.items && x != y && x.key == y.key && s.items[x].linked && !s.items[y].linked
    requires y in pool
    ensures Reach(pool, ViewOf(s), ViewOf(Replace(s, x, y, now)))
  {
    var t := UnlinkItem(s, x);
    UnlinkKeepsInv(s, x);
    UnlinkReaches(pool, s, x);
    UnlinkSees(s, x);
    StillThere(s, x, y);
    LinkReaches(pool, t, y, now);
    ReachOn(pool, ViewOf(s), ViewOf(t), ViewOf(Replace(s, x, y, now)));
  }

  lemma StillThere(s: State, x: Ref, y: Ref)
    requires Live(s, x) && y in s.items && y != x
    ensures y in UnlinkItem(s, x).items && UnlinkItem(s, x).items[y] == s.items[y]
  {
  }

  lemma HdrMoveReaches(pool: set<Ref>, s: State, x: Ref, h: Hdr, g: Seg)
    requires Inv(s) && x in s.items && h.linked
    requires h.linked == s.items[x].linked && h.seg == s.items[x].seg && h.refcount == s.items[x].refcount
    ensures Reach(pool, ViewOf(s), ViewOf(Move(SetHdr(s, x, h), x, g)))
  {
    SetHdrKeepsInv(s, x, h);
    MoveReachesFrom(pool, ViewOf(s), SetHdr(s, x, h), x, g);
  }

  lemma UpdateReaches(pool: set<Ref>, s: State, x: Ref, now: int, c: Settings)
    requires Inv(s) && x in s.items
    ensures Reach(pool, ViewOf(s), ViewOf(UpdateItem(s, x, now, c)))
  {
    var h := s.items[x];
    ReachSame(pool, ViewOf(s));
    SegBound(h.seg);
    if h.linked {
      if c.segmented {
        if Lruid(h.seg) == COLD_LRU && h.active {
          HdrMoveReaches(pool, s, x, h.(time := now, active := false), Clsid(h.seg) + WARM_LRU);
        }
      } else if h.time < now - c.updateInterval {
        HdrMoveReaches(pool, s, x, h.(time := now), h.seg);
      }
    }
  }

  lemma BumpReaches(pool: set<Ref>, s: State, x: Ref, now: int, c: Settings, room: bool)
    requires Inv(s) && x in s.items
    ensures Reach(pool, ViewOf(s), ViewOf(BumpItem(s, x, now, c, room)))
  {
    if c.segmented {
      ReachSame(pool, ViewOf(s));
    } else {
      var h := s.items[x].(fetched := true);
      SetHdrKeepsInv(s, x, h);
      UpdateReaches(pool, SetHdr(s, x, h), x, now, c);
    }
  }

  /** Unlink and release by somebody who has just taken hold of the item. */
  lemma ReapReaches(pool: set<Ref>, s: State, x: Ref)
    requires Inv(s) && x in s.items
    ensures Live(Hold(s, x), x) && Live(UnlinkItem(Hold(s, x), x), x)
    ensures Reach(pool, ViewOf(s), ViewOf(Release(UnlinkItem(Hold(s, x), x), x)))
  {
    SurvivesUnlink(s, x);
    HoldSees(s, x);
    UnlinkReaches(pool, Hold(s, x), x);
    ReleaseSees(UnlinkItem(Hold(s, x), x), x);
  }

  lemma GetReaches(pool: set<Ref>, s: State, k: Key, flushed: bool, now: int, c: Settings, update: bool, room: bool)
    requires Inv(s) && (k in s.index ==> Live(s, s.index[k]))
    ensures Reach(pool, ViewOf(s), ViewOf(GetItem(s, k, flushed, now, c, update, room).0))
  {
    ReachSame(pool, ViewOf(s));
    if k in s.index {
      var x := s.index[k];
      HoldSees(s, x);
      if Gone(s.items[x], flushed, now) {
        ReapReaches(pool, s, x);
      } else if update {
        HoldKeepsInv(s, x);
        BumpReaches(pool, Hold(s, x), x, now, c, room);
      }
    }
  }

  lemma CrawlReaches(pool: set<Ref>, s: State, x: Ref, flushed: bool, now: int)
    requires Inv(s) && Live(s, x)
    ensures Reach(pool, ViewOf(s), ViewOf(CrawlItem(s, x, flushed, now)))
  {
    HoldSees(s, x);
    ReapReaches(pool, s, x);
    ReleaseSees(Hold(s, x), x);
    ReachSame(pool, ViewOf(s));
  }

  lemma DrainReaches(pool: set<Ref>, s: State, now: int, c: Settings)
    requires Inv(s) && s.bumps != [] && Live(s, s.bumps[0])
    ensures Reach(pool, ViewOf(s), ViewOf(DrainBump(s, now, c)))
  {
    var x, t := s.bumps[0], s.(bumps := s.bumps[1..]);
    assert s.bumps == [x] + t.bumps;
    assert multiset(s.bumps) == multiset{x} + multiset(t.bumps);
    assert Inv(t);
    UpdateReaches(pool, t, x, now, c);
    UpdateKeepsInv(t, x, now, c);
    InvLive(UpdateItem(t, x, now, c));
    ReleaseSees(UpdateItem(t, x, now, c), x);
  }

  // ---------------------------------------------------------------- the tail walk

  lemma HeldMoveReaches(pool: set<Ref>, s: State, x: Ref, h: Hdr, g: Seg)
    requires Inv(s) && x in s.items && s.items[x].linked && Near(s, x, h)
    ensures Reach(pool, ViewOf(s), ViewOf(Move(SetHdr(Hold(s, x), x, h), x, g)))
  {
    HoldKeepsInv(s, x);
    HoldSees(s, x);
    HdrMoveReaches(pool, Hold(s, x), x, h, g);
  }

  lemma ActiveReaches(pool: set<Ref>, s: State, x: Ref, removed: nat, p: Pull)
    requires Inv(s) && x in s.items && s.items[x].linked && Live(s, x)
    ensures Reach(pool, ViewOf(s), ViewOf(VisitActive(s, x, removed, p).s))
  {
    var h := Hold(s, x).items[x].(active := false);
    SegBound(h.seg);
    var g := if p.lru == WARM_LRU then h.seg else Clsid(h.seg) + WARM_LRU;
    HeldMoveReaches(pool, s, x, h, g);
    if p.lru == WARM_LRU {
      TurnMoveBack(s, x, h, g);
      ReleaseSees(Move(SetHdr(Hold(s, x), x, h), x, g), x);
    }
  }

  lemma IdleReaches(pool: set<Ref>, s: State, x: Ref, removed: nat, p: Pull, e: Env, c: Settings)
    requires Inv(s) && x in s.items && s.items[x].linked && Live(s, x) && PullOk(p)
    ensures Reach(pool, ViewOf(s), ViewOf(VisitIdle(s, x, removed, p, e, c).s))
  {
    HoldKeepsInv(s, x);
    HoldSees(s, x);
    ReachSame(pool, ViewOf(s));
    SegBound(s.items[x].seg);
    MoveReaches(pool, Hold(s, x), x, Clsid(s.items[x].seg) + COLD_LRU);
  }

  lemma ColdReaches(pool: set<Ref>, s: State, x: Ref, removed: nat, p: Pull, c: Settings)
    requires Inv(s) && x in s.items && s.items[x].linked && Live(s, x)
    ensures Reach(pool, ViewOf(s), ViewOf(VisitCold(s, x, removed, p, c).s))
  {
    HoldKeepsInv(s, x);
    HoldSees(s, x);
    if p.evict && c.evictToFree {
      UnlinkReaches(pool, Hold(s, x), x);
    } else if !p.evict && !p.returnItem && s.items[x].active && c.segmented {
      var h := Hold(s, x).items[x].(active := false);
      SegBound(h.seg);
      HeldMoveReaches(pool, s, x, h, Clsid(h.seg) + WARM_LRU);
    } else {
      ReachSame(pool, ViewOf(s));
    }
  }

  lemma VisitReaches(pool: set<Ref>, s: State, x: Ref, removed: nat, p: Pull, e: Env, c: Settings)
    requires Inv(s) && x in s.items && s.items[x].linked && Live(s, x) && PullOk(p)
    ensures Reach(pool, ViewOf(s), ViewOf(Visit(s, x, removed, p, e, c).s))
  {
    if Expired(s.items[x], x in e.flushed, e.now) {
      ReapReaches(pool, s, x);
    } else if p.lru == HOT_LRU || p.lru == WARM_LRU {
      if s.items[x].active { ActiveReaches(pool, s, x, removed, p); } else { IdleReaches(pool, s, x, removed, p, e, c); }
    } else if p.lru == COLD_LRU {
      ColdReaches(pool, s, x, removed, p, c);
    } else {
      HoldSees(s, x);
      ReachSame(pool, ViewOf(s));
    }
  }

  lemma TurnedReaches(pool: set<Ref>, whole: Walk, w: Walk, x: Ref, tries: nat, p: Pull, e: Env, c: Settings)
    requires AheadOk(whole, w, Some(x), tries, p, e, c) && w.it.None? && Live(w.s, x) && PullOk(p)
    ensures Reach(pool, ViewOf(w.s), ViewOf(Turned(w.s, x, w.removed, p, e, c).s))
  {
    ReachSame(pool, ViewOf(w.s));
    if x !in e.locked { VisitReaches(pool, w.s, x, w.removed, p, e, c); }
  }

  /** One turn of the walk. */
  lemma WalkGoesOn(pool: set<Ref>, ahead: (Walk, Option<Ref>, nat) -> bool, whole: Walk, w: Walk, x: Ref, tries: nat, p: Pull, e: Env, c: Settings)
    returns (u: Walk, next: Option<Ref>)
    requires Tracks(ahead, whole, p, e, c) && ahead(w, Some(x), tries) && w.it.None? && tries > 0 && !Blocked(Some(x), p, e)
    ensures ahead(u, next, tries - 1) && Reach(pool, ViewOf(w.s), ViewOf(u.s))
  {
    assert AheadOk(whole, w, Some(x), tries, p, e, c);
    AheadLive(whole, w, Some(x), tries, p, e, c);
    AheadStep(whole, w, x, tries, p, e, c);
    TurnedReaches(pool, whole, w, x, tries, p, e, c);
    u, next := Turned(w.s, x, w.removed, p, e, c), NextUp(w.s, x, p);
  }

  lemma {:induction false} WalkReaches(pool: set<Ref>, ahead: (Walk, Option<Ref>, nat) -> bool, whole: Walk, w: Walk, search: Option<Ref>,
                                       tries: nat, p: Pull, e: Env, c: Settings)
    requires Tracks(ahead, whole, p, e, c) && ahead(w, search, tries)
    ensures Reach(pool, ViewOf(w.s), ViewOf(whole.s))
    decreases tries
  {
    if tries == 0 || search.None? || w.it.Some? || Blocked(search, p, e) {
      TrackEnd(ahead, whole, w, search, tries, p, e, c);
      ReachSame(pool, ViewOf(w.s));
    } else {
      var u, next := WalkGoesOn(pool, ahead, whole, w, search.value, tries, p, e, c);
      WalkReaches(pool, ahead, whole, u, next, tries - 1, p, e, c);
      ReachOn(pool, ViewOf(w.s), ViewOf(u.s), ViewOf(whole.s));
    }
  }

  lemma FinishSees(p: Pull, s: State, w: Walk)
    ensures ViewOf(Finish(p, s, w).s) == ViewOf(w.s)
  {
  }

  lemma PullReaches(pool: set<Ref>, s: State, p: Pull, e: Env, c: Settings)
    requires Inv(s) && (p.clsid == 0 || PullOk(p))
    ensures Reach(pool, ViewOf(s), ViewOf(PullTail(s, p, e, c).s))
  {
    if p.clsid == 0 {
      ReachSame(pool, ViewOf(s));
    } else {
      var v := WalkUp(s, Start(s, p), TRIES, 0, p, e, c);
      var ahead := Tracker(v, p, e, c);
      TrackStart(s, Start(s, p), TRIES, p, e, c, v, ahead);
      WalkReaches(pool, ahead, v, Walk(s, 0, None, None), Start(s, p), TRIES, p, e, c);
      FinishSees(p, s, v);
    }
  }

  // ---------------------------------------------------------------- runs

  /** The items an operation may link. */
  function Links(op: Op): set<Ref> {
    match op
    case DoLink(x, _) => {x}
    case DoReplace(_, y, _) => {y}
    case _ => {}
  }

  lemma StepReaches(pool: set<Ref>, s: State, op: Op)
    requires Inv(s) && Enabled(s, op) && Links(op) <= pool
    ensures Reach(pool, ViewOf(s), ViewOf(Next(s, op)))
  {
    InvLive(s);
    ReachSame(pool, ViewOf(s));
    match op
    case DoAlloc(x, seg, exptime) =>
    case DoLink(x, now) => LinkReaches(pool, s, x, now);
    case DoUnlink(x) => UnlinkReaches(pool, s, x);
    case DoRelease(x) => ReleaseSees(s, x);
    case DoReplace(x, y, now) => ReplaceReaches(pool, s, x, y, now);
    case DoUpdate(x, now, c) => UpdateReaches(pool, s, x, now, c);
    case DoGet(k, flushed, now, c, update, room) => GetReaches(pool, s, k, flushed, now, c, update, room);
    case DoCrawl(x, flushed, now) => CrawlReaches(pool, s, x, flushed, now);
    case DoPull(p, e, c) => PullReaches(pool, s, p, e, c);
    case DoDrain(now, c) => DrainKeepsInv(s, now, c); DrainReaches(pool, s, now, c);
  }
}
