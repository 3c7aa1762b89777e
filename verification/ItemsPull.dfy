/** What one turn of the tail walk does to the state as a whole. */
module ItemsTurn {
  import opened Base
  import opened ItemsModel
  import opened ItemsInv

  ghost function Extra(it: Option<Ref>): multiset<Ref> {
    if it.Some? then multiset{it.value} else multiset{}
  }

  /** Only item x may differ. */
  ghost predicate Others(s: State, t: State, x: Ref) {
    forall y :: y in s.items && y != x ==> y in t.items && t.items[y] == s.items[y]
  }

  /** Nothing but x has changed, and nothing is held that was not before but the item named by `it`. */
  ghost predicate Turn(s: State, t: State, x: Ref, it: Option<Ref>) {
    Inv(t) && t.handles == s.handles + Extra(it) && t.bumps == s.bumps && Others(s, t, x)
  }
}

module ItemsVisit {
  import opened ItemsModel
  import opened ItemsTurn

  ghost predicate VisitOk(s: State, x: Ref, w: Walk) {
    Turn(s, w.s, x, w.it)
  }
}

/** What a walk has done so far, and a wrapper that keeps the statement in one piece. */
module ItemsWalk {
  import opened Base
  import opened ItemsModel
  import opened ItemsInv
  import opened ItemsTurn

  /** The calls that can hand the item at the tail to the caller. */
  predicate HandsOut(p: Pull) {
    p.returnItem && p.lru == COLD_LRU && !p.evict
  }

  /** Nothing is left held but the item the walk stops at. */
  ghost predicate Walked(s: State, p: Pull, w: Walk) {
    && Inv(w.s) && w.s.handles == s.handles + Extra(w.it) && w.s.bumps == s.bumps
    && w.returned == if HandsOut(p) then w.it else None
  }
}

module ItemsWalks {
  import opened ItemsModel
  import opened ItemsWalk

  ghost predicate WalkOk(s: State, p: Pull, w: Walk) {
    Walked(s, p, w)
  }
}

/** The walk up from the tail of a list (lru_pull_tail). */
module ItemsPull {
  import opened Base
  import opened ItemsModel
  import opened ItemsParts
  import opened ItemsInv
  import opened ItemsLemmas
  import opened ItemsOps
  import opened ItemsTurn
  import opened ItemsVisit
  import opened ItemsWalk
  import opened ItemsWalks

  lemma OthersTrans(s: State, t: State, u: State, x: Ref)
    requires Others(s, t, x) && Others(t, u, x)
    ensures Others(s, u, x)
  {
  }

  lemma DropOthers(s: State, x: Ref)
    requires Live(s, x)
    ensures Others(s, Release(s, x), x)
  {
  }

  lemma UnlinkOthers(s: State, x: Ref)
    requires Live(s, x)
    ensures Others(s, UnlinkItem(s, x), x)
  {
  }

  lemma TurnReap(s: State, x: Ref)
    requires Inv(s) && x in s.items
    ensures Live(Hold(s, x), x) && Live(UnlinkItem(Hold(s, x), x), x)
    ensures Turn(s, Release(UnlinkItem(Hold(s, x), x), x), x, None)
  {
    ReapKeepsInv(s, x);
    ReapOthers(s, x);
  }

  lemma ReapOthers(s: State, x: Ref)
    requires x in s.items && Live(UnlinkItem(Hold(s, x), x), x)
    ensures Others(s, Release(UnlinkItem(Hold(s, x), x), x), x)
  {
    var t := Hold(s, x);
    var u := UnlinkItem(t, x);
    UnlinkOthers(t, x);
    DropOthers(u, x);
    OthersTrans(t, u, Release(u, x), x);
    OthersTrans(s, t, Release(u, x), x);
  }

  lemma TurnHold(s: State, x: Ref)
    requires Inv(s) && x in s.items
    ensures Turn(s, Hold(s, x), x, Some(x))
  {
    HoldKeepsInv(s, x);
  }

  lemma TurnEvict(s: State, x: Ref)
    requires Inv(s) && x in s.items
    ensures Live(Hold(s, x), x) && Turn(s, UnlinkItem(Hold(s, x), x), x, Some(x))
  {
    HoldKeepsInv(s, x);
    UnlinkKeepsInv(Hold(s, x), x);
  }

  /** A header that differs from x's only in the active flag and in the reference just taken. */
  predicate Near(s: State, x: Ref, h: Hdr)
    requires x in s.items
  {
    h == s.items[x].(refcount := s.items[x].refcount + 1, active := h.active)
  }

  lemma TurnMove(s: State, x: Ref, h: Hdr, g: Seg)
    requires Inv(s) && x in s.items && s.items[x].linked && Near(s, x, h)
    ensures Turn(s, Move(SetHdr(Hold(s, x), x, h), x, g), x, Some(x))
  {
    HoldKeepsInv(s, x);
    UpdateAndMove(Hold(s, x), x, h, g);
  }

  lemma TurnMoveBack(s: State, x: Ref, h: Hdr, g: Seg)
    requires Inv(s) && x in s.items && s.items[x].linked && Near(s, x, h)
    ensures Live(Move(SetHdr(Hold(s, x), x, h), x, g), x)
    ensures Turn(s, Release(Move(SetHdr(Hold(s, x), x, h), x, g), x), x, None)
  {
    TurnMove(s, x, h, g);
    var t := Move(SetHdr(Hold(s, x), x, h), x, g);
    GiveBack(s, t, x);
  }

  /** The reference held at the end of a turn is given back. */
  lemma GiveBack(s: State, t: State, x: Ref)
    requires Inv(s) && Turn(s, t, x, Some(x))
    ensures Live(t, x) && Turn(s, Release(t, x), x, None)
  {
    ReleaseKeepsInv(t, x);
    DropOthers(t, x);
    OthersTrans(s, t, Release(t, x), x);
  }

  lemma SameHdr(s: State, x: Ref)
    requires x in s.items
    ensures SetHdr(s, x, s.items[x]) == s
  {
    assert s.items[x := s.items[x]] == s.items;
  }

  lemma ActiveIsTurn(s: State, x: Ref, removed: nat, p: Pull)
    requires Inv(s) && x in s.items && s.items[x].linked && Live(s, x)
    ensures VisitOk(s, x, VisitActive(s, x, removed, p))
  {
    var h := Hold(s, x).items[x].(active := false);
    if p.lru == WARM_LRU {
      TurnMoveBack(s, x, h, h.seg);
      IsVisit(s, x, Walk(Release(Move(SetHdr(Hold(s, x), x, h), x, h.seg), x), removed + 1, None, None));
    } else {
      SegBound(h.seg);
      TurnMove(s, x, h, Clsid(h.seg) + WARM_LRU);
      IsVisit(s, x, Walk(Move(SetHdr(Hold(s, x), x, h), x, Clsid(h.seg) + WARM_LRU), removed + 1, Some(x), None));
    }
  }

  lemma IsVisit(s: State, x: Ref, w: Walk)
    requires Turn(s, w.s, x, w.it)
    ensures VisitOk(s, x, w)
  {
  }

  lemma IdleIsTurn(s: State, x: Ref, removed: nat, p: Pull, e: Env, c: Settings)
    requires Inv(s) && x in s.items && s.items[x].linked && Live(s, x) && PullOk(p)
    ensures VisitOk(s, x, VisitIdle(s, x, removed, p, e, c))
  {
    var t := Hold(s, x);
    SegBound(s.items[x].seg);
    TurnHold(s, x);
    TurnMove(s, x, t.items[x], Clsid(s.items[x].seg) + COLD_LRU);
    SameHdr(t, x);
  }

  lemma ColdIsTurn(s: State, x: Ref, removed: nat, p: Pull, c: Settings)
    requires Inv(s) && x in s.items && s.items[x].linked && Live(s, x)
    ensures VisitOk(s, x, VisitCold(s, x, removed, p, c))
  {
    TurnHold(s, x);
    if p.evict {
      TurnEvict(s, x);
    } else {
      SegBound(s.items[x].seg);
      TurnMove(s, x, Hold(s, x).items[x].(active := false), Clsid(s.items[x].seg) + WARM_LRU);
    }
  }

  /** The items on the way have given back the walk's reference; the one it stops at still has it. */
  lemma VisitIsTurn(s: State, x: Ref, removed: nat, p: Pull, e: Env, c: Settings)
    requires Inv(s) && x in s.items && s.items[x].linked && PullOk(p)
    ensures Live(s, x)
    ensures VisitOk(s, x, Visit(s, x, removed, p, e, c))
  {
    InvLive(s);
    if Expired(s.items[x], x in e.flushed, e.now) {
      TurnReap(s, x);
    } else if p.lru == HOT_LRU || p.lru == WARM_LRU {
      if s.items[x].active { ActiveIsTurn(s, x, removed, p); } else { IdleIsTurn(s, x, removed, p, e, c); }
    } else if p.lru == COLD_LRU {
      ColdIsTurn(s, x, removed, p, c);
    } else {
      TurnHold(s, x);
    }
  }

  // ---------------------------------------------------------------- the walk

  lemma {:induction false} PrevOnList(l: seq<Ref>, x: Ref)
    requires NoDup(l) && Prev(l, x).Some?
    ensures Prev(l, x).value in l && Prev(l, x).value != x
  {
    if l[1] != x { PrevOnList(l[1..], x); }
  }

  /** The next item of the walk is linked, and the turn for x leaves it so. */
  lemma NextStaysLinked(s: State, x: Ref, g: nat, t: State)
    requires Inv(s) && Others(s, t, x) && g < |s.lists|
    ensures var next := Prev(s.lists[g], x);
            next.Some? ==> next.value in s.items && next.value in t.items && t.items[next.value].linked && s.items[next.value].linked
  {
    var next := Prev(s.lists[g], x);
    if next.Some? {
      PrevOnList(s.lists[g], x);
      assert OnList(s.lists, g, next.value);
    }
  }

  lemma VisitReturns(s: State, x: Ref, removed: nat, p: Pull, e: Env, c: Settings)
    requires Live(s, x) && PullOk(p)
    ensures var w := Visit(s, x, removed, p, e, c); w.returned == if HandsOut(p) then w.it else None
  {
  }

  lemma ExtraNone(m: multiset<Ref>)
    ensures m + Extra(None) == m
  {
  }

  lemma WalkNothing(s: State, p: Pull, n: nat)
    requires Inv(s)
    ensures Walked(s, p, Walk(s, n, None, None))
  {
    ExtraNone(s.handles);
  }

  lemma WalkStops(s: State, p: Pull, x: Ref, w: Walk)
    requires VisitOk(s, x, w) && w.returned == if HandsOut(p) then w.it else None
    ensures Walked(s, p, w)
  {
  }

  lemma WalkGoesOn(s: State, p: Pull, x: Ref, t: State, v: Walk)
    requires Turn(s, t, x, None) && Walked(t, p, v)
    ensures Walked(s, p, v)
  {
    ExtraNone(s.handles);
  }

  /**
   * The loop of lru_pull_tail: at most `tries` items, from `search` towards the head. Along the whole walk
   * nothing is left held but the item it stops at.
   */
  ghost function WalkUp(s: State, search: Option<Ref>, tries: nat, removed: nat, p: Pull, e: Env, c: Settings): (v: Walk)
    requires Inv(s) && PullOk(p) && (search.Some? ==> search.value in s.items && s.items[search.value].linked)
    ensures WalkOk(s, p, v)
    decreases tries, c, 0
  {
    InvLive(s);
    WalkNothing(s, p, removed);
    WalkNothing(s, p, 0);
    if tries == 0 then Walk(s, removed, None, None)
    else if p.crawlBlocks && e.crawler == Some(search) then Walk(s, 0, None, None)
    else if search.None? then Walk(s, removed, None, None)
    else
      var x := search.value;
      if x in e.locked then
        NextStaysLinked(s, x, p.clsid + p.lru, s);
        WalkUp(s, Prev(s.lists[p.clsid + p.lru], x), tries - 1, removed, p, e, c)
      else
        VisitIsTurn(s, x, removed, p, e, c);
        VisitReturns(s, x, removed, p, e, c);
        Resume(s, x, Visit(s, x, removed, p, e, c), tries - 1, p, e, c)
  }

  /** The loop after its turn for item x: over, or on with the item that was before x. */
  ghost function Resume(s: State, x: Ref, w: Walk, tries: nat, p: Pull, e: Env, c: Settings): (v: Walk)
    requires Inv(s) && PullOk(p) && VisitOk(s, x, w) && w.returned == if HandsOut(p) then w.it else None
    ensures WalkOk(s, p, v)
    decreases tries, c, 1
  {
    if w.it.Some? then WalkStops(s, p, x, w); w
    else
      NextStaysLinked(s, x, p.clsid + p.lru, w.s);
      var v := WalkUp(w.s, Prev(s.lists[p.clsid + p.lru], x), tries, w.removed, p, e, c);
      WalkGoesOn(s, p, x, w.s, v);
      v
  }

  /** The item after x on the walk. */
  function NextUp(s: State, x: Ref, p: Pull): Option<Ref>
    requires PullOk(p)
  {
    Prev(s.lists[p.clsid + p.lru], x)
  }

  lemma NextLinked(s: State, x: Ref, p: Pull)
    requires Inv(s) && PullOk(p)
    ensures var next := NextUp(s, x, p); next.Some? ==> next.value in s.items && s.items[next.value].linked
  {
    NextStaysLinked(s, x, p.clsid + p.lru, s);
  }

  lemma WalkUpOver(s: State, search: Option<Ref>, tries: nat, removed: nat, p: Pull, e: Env, c: Settings)
    requires Inv(s) && PullOk(p) && (search.Some? ==> search.value in s.items && s.items[search.value].linked)
    requires tries == 0 || search.None? || (p.crawlBlocks && e.crawler == Some(search))
    ensures WalkUp(s, search, tries, removed, p, e, c)
            == Walk(s, if tries > 0 && p.crawlBlocks && e.crawler == Some(search) then 0 else removed, None, None)
  {
  }

  lemma WalkUpLocked(s: State, x: Ref, tries: nat, removed: nat, p: Pull, e: Env, c: Settings)
    requires Inv(s) && PullOk(p) && x in s.items && s.items[x].linked && tries > 0
    requires x in e.locked && !(p.crawlBlocks && e.crawler == Some(Some(x)))
    ensures var next := NextUp(s, x, p);
            && (next.Some? ==> next.value in s.items && s.items[next.value].linked)
            && WalkUp(s, Some(x), tries, removed, p, e, c) == WalkUp(s, next, tries - 1, removed, p, e, c)
  {
    NextLinked(s, x, p);
  }

  lemma WalkUpVisit(s: State, x: Ref, tries: nat, removed: nat, p: Pull, e: Env, c: Settings)
    requires Inv(s) && PullOk(p) && x in s.items && s.items[x].linked && tries > 0
    requires x !in e.locked && !(p.crawlBlocks && e.crawler == Some(Some(x)))
    ensures Live(s, x)
    ensures var w := Visit(s, x, removed, p, e, c);
            && VisitOk(s, x, w) && w.returned == (if HandsOut(p) then w.it else None)
            && WalkUp(s, Some(x), tries, removed, p, e, c) == Resume(s, x, w, tries - 1, p, e, c)
  {
    VisitIsTurn(s, x, removed, p, e, c);
    VisitReturns(s, x, removed, p, e, c);
  }

  lemma ResumeIs(s: State, x: Ref, w: Walk, tries: nat, p: Pull, e: Env, c: Settings)
    requires Inv(s) && PullOk(p) && VisitOk(s, x, w) && w.returned == if HandsOut(p) then w.it else None
    ensures Inv(w.s)
    ensures w.it.Some? ==> Resume(s, x, w, tries, p, e, c) == w
    ensures w.it.None? ==>
              var next := NextUp(s, x, p);
              && (next.Some? ==> next.value in w.s.items && w.s.items[next.value].linked)
              && Resume(s, x, w, tries, p, e, c) == WalkUp(w.s, next, tries, w.removed, p, e, c)
  {
    if w.it.None? { NextStaysLinked(s, x, p.clsid + p.lru, w.s); }
  }

  function TailOf(l: seq<Ref>): Option<Ref> {
    if l == [] then None else Some(l[|l| - 1])
  }

  lemma TailLinked(s: State, g: nat)
    requires Inv(s) && g < |s.lists|
    ensures var tail := TailOf(s.lists[g]);
            tail.Some? ==> tail.value in s.items && s.items[tail.value].linked && s.items[tail.value].seg == g
  {
    if s.lists[g] != [] { assert OnList(s.lists, g, TailOf(s.lists[g]).value); }
  }

  const TRIES := 5

  /** Where the walk starts. */
  ghost function Start(s: State, p: Pull): (tail: Option<Ref>)
    requires Inv(s) && PullOk(p)
    ensures tail == TailOf(s.lists[p.clsid + p.lru])
    ensures tail.Some? ==> tail.value in s.items && s.items[tail.value].linked
  {
    TailLinked(s, p.clsid + p.lru);
    TailOf(s.lists[p.clsid + p.lru])
  }

  ghost function PullTail(s: State, p: Pull, e: Env, c: Settings): Walk
    requires Inv(s) && (p.clsid == 0 || PullOk(p))
  {
    if p.clsid == 0 then Walk(s, 0, None, None) else Finish(p, s, WalkUp(s, Start(s, p), TRIES, 0, p, e, c))
  }

  /** After the loop: do_item_remove, unless the flag says the item is to be returned. */
  ghost function Finish(p: Pull, s: State, w: Walk): Walk {
    if w.it.Some? && !p.returnItem && Live(w.s, w.it.value) then w.(s := Release(w.s, w.it.value)) else w
  }

  lemma FinishReleases(s: State, w: Walk)
    requires Inv(w.s) && w.it.Some? && w.s.handles == s.handles + Extra(w.it) && w.s.bumps == s.bumps
    requires multiset(s.bumps) <= s.handles
    ensures Live(w.s, w.it.value)
    ensures var t := Release(w.s, w.it.value); Inv(t) && t.bumps == s.bumps && t.handles == s.handles
  {
    ReleaseKeepsInv(w.s, w.it.value);
  }

  lemma FinishKeeps(p: Pull, s: State, w: Walk)
    requires Walked(s, p, w) && multiset(s.bumps) <= s.handles
    ensures var r := Finish(p, s, w);
            && Inv(r.s) && r.s.bumps == s.bumps && r.it == w.it && r.returned == w.returned
            && r.s.handles == if p.returnItem then s.handles + Extra(r.it) else s.handles
  {
    ExtraNone(s.handles);
    if w.it.Some? { FinishReleases(s, w); }
  }

  lemma PullTailKeepsInv(s: State, p: Pull, e: Env, c: Settings)
    requires Inv(s) && (p.clsid == 0 || PullOk(p))
    ensures var r := PullTail(s, p, e, c);
            && Inv(r.s) && r.s.bumps == s.bumps
            && r.s.handles == (if p.returnItem then s.handles + Extra(r.it) else s.handles)
            && r.returned == if HandsOut(p) then r.it else None
  {
    ExtraNone(s.handles);
    if p.clsid > 0 { FinishKeeps(p, s, WalkUp(s, Start(s, p), TRIES, 0, p, e, c)); }
  }

  /** Every reference the call took is given back, or handed to the caller. */
  ghost predicate Balanced(s: State, r: Walk) {
    r.s.handles == s.handles + Extra(r.returned)
  }

  /**
   * A call asked to return the item without being one that can hand it out keeps the reference to whatever
   * item it stops at; every other call is balanced.
   */
  lemma PullTailBalances(s: State, p: Pull, e: Env, c: Settings)
    requires Inv(s) && (p.clsid == 0 || PullOk(p))
    ensures var r := PullTail(s, p, e, c); Balanced(s, r) <==> !(p.returnItem && !HandsOut(p) && r.it.Some?)
  {
    PullTailKeepsInv(s, p, e, c);
    ExtraNone(s.handles);
    var r := PullTail(s, p, e, c);
    if r.it.Some? {
      assert (s.handles + Extra(r.it))[r.it.value] == s.handles[r.it.value] + 1;
    }
  }
}

/** Where the loop of lru_pull_tail stands, in terms of the whole walk. */
module ItemsAhead {
  import opened Base
  import opened ItemsModel
  import opened ItemsInv
  import opened ItemsPull

  ghost predicate InUse(s: State, search: Option<Ref>) {
    search.Some? ==> search.value in s.items && s.items[search.value].linked
  }

  /** What is still to come of the walk `whole`, with w done so far and `search` next. */
  ghost predicate Ahead(whole: Walk, w: Walk, search: Option<Ref>, tries: nat, p: Pull, e: Env, c: Settings) {
    if w.it.Some? then whole == w
    else w.returned.None? && Inv(w.s) && PullOk(p) && InUse(w.s, search) && whole == WalkUp(w.s, search, tries, w.removed, p, e, c)
  }
}

module ItemsSteps {
  import opened Base
  import opened ItemsModel
  import opened ItemsInv
  import opened ItemsOps
  import opened ItemsWalk
  import opened ItemsWalks
  import opened ItemsPull
  import opened ItemsAhead

  ghost predicate AheadOk(whole: Walk, w: Walk, search: Option<Ref>, tries: nat, p: Pull, e: Env, c: Settings) {
    Ahead(whole, w, search, tries, p, e, c)
  }

  /** The crawler is in the way of a walk that gives way to it. */
  predicate Blocked(search: Option<Ref>, p: Pull, e: Env) {
    p.crawlBlocks && e.crawler == Some(search)
  }

  /** One turn of the loop; an item whose lock is not had is passed over. */
  function Turned(s: State, x: Ref, removed: nat, p: Pull, e: Env, c: Settings): Walk
    requires Live(s, x) && PullOk(p)
  {
    if x in e.locked then Walk(s, removed, None, None) else Visit(s, x, removed, p, e, c)
  }

  lemma AheadLive(whole: Walk, w: Walk, search: Option<Ref>, tries: nat, p: Pull, e: Env, c: Settings)
    requires AheadOk(whole, w, search, tries, p, e, c) && w.it.None? && search.Some?
    ensures Live(w.s, search.value) && PullOk(p)
  {
    InvLive(w.s);
  }

  lemma AheadStep(whole: Walk, w: Walk, x: Ref, tries: nat, p: Pull, e: Env, c: Settings)
    requires AheadOk(whole, w, Some(x), tries, p, e, c) && w.it.None? && tries > 0 && !Blocked(Some(x), p, e)
    requires Live(w.s, x) && PullOk(p)
    ensures AheadOk(whole, Turned(w.s, x, w.removed, p, e, c), NextUp(w.s, x, p), tries - 1, p, e, c)
  {
    if x in e.locked {
      WalkUpLocked(w.s, x, tries, w.removed, p, e, c);
    } else {
      WalkUpVisit(w.s, x, tries, w.removed, p, e, c);
      ResumeIs(w.s, x, Visit(w.s, x, w.removed, p, e, c), tries - 1, p, e, c);
    }
  }

  lemma AheadEnd(whole: Walk, w: Walk, search: Option<Ref>, tries: nat, p: Pull, e: Env, c: Settings)
    requires AheadOk(whole, w, search, tries, p, e, c) && (tries == 0 || search.None? || w.it.Some? || Blocked(search, p, e))
    ensures whole == if w.it.None? && tries > 0 && Blocked(search, p, e) then w.(removed := 0) else w
  {
    if w.it.None? { WalkUpOver(w.s, search, tries, w.removed, p, e, c); }
  }

  /** The item a walk stops at is still there to be released. */
  lemma StopIsLive(s: State, p: Pull, w: Walk)
    requires Inv(s) && WalkOk(s, p, w)
    ensures w.it.Some? ==> Live(w.s, w.it.value)
  {
    if w.it.Some? { FinishReleases(s, w); }
  }

  lemma FinishIs(s: State, p: Pull, w: Walk)
    requires Inv(s) && WalkOk(s, p, w)
    ensures w.it.Some? ==> Live(w.s, w.it.value)
    ensures Finish(p, s, w) == if w.it.Some? && !p.returnItem then w.(s := Release(w.s, w.it.value)) else w
  {
    StopIsLive(s, p, w);
  }

  /** At the tail of the list the whole walk is still to come. */
  lemma AheadStart(s: State, search: Option<Ref>, tries: nat, p: Pull, e: Env, c: Settings, whole: Walk)
    requires Inv(s) && PullOk(p) && InUse(s, search) && whole == WalkUp(s, search, tries, 0, p, e, c)
    ensures AheadOk(whole, Walk(s, 0, None, None), search, tries, p, e, c)
  {
  }
}

/** The loop's invariant under a name of its own, for a loop that only passes it on. */
module ItemsTracking {
  import opened Base
  import opened ItemsModel
  import opened ItemsInv
  import opened ItemsPull
  import opened ItemsAhead
  import opened ItemsSteps

  ghost predicate Tracks(ahead: (Walk, Option<Ref>, nat) -> bool, whole: Walk, p: Pull, e: Env, c: Settings) {
    forall w, search, tries {:trigger AheadOk(whole, w, search, tries, p, e, c)} ::
      AheadOk(whole, w, search, tries, p, e, c) <==> ahead(w, search, tries)
  }

  ghost function Tracker(whole: Walk, p: Pull, e: Env, c: Settings): (ahead: (Walk, Option<Ref>, nat) -> bool)
    ensures Tracks(ahead, whole, p, e, c)
  {
    (w: Walk, search: Option<Ref>, tries: nat) => AheadOk(whole, w, search, tries, p, e, c)
  }

  lemma TrackStart(s: State, search: Option<Ref>, tries: nat, p: Pull, e: Env, c: Settings, whole: Walk,
                   ahead: (Walk, Option<Ref>, nat) -> bool)
    requires Inv(s) && PullOk(p) && InUse(s, search) && whole == WalkUp(s, search, tries, 0, p, e, c)
    requires Tracks(ahead, whole, p, e, c)
    ensures ahead(Walk(s, 0, None, None), search, tries)
  {
    AheadStart(s, search, tries, p, e, c, whole);
  }

  lemma TrackEnd(ahead: (Walk, Option<Ref>, nat) -> bool, whole: Walk, w: Walk, search: Option<Ref>, tries: nat,
                 p: Pull, e: Env, c: Settings)
    requires Tracks(ahead, whole, p, e, c) && ahead(w, search, tries)
    requires tries == 0 || search.None? || w.it.Some? || Blocked(search, p, e)
    ensures whole == if w.it.None? && tries > 0 && Blocked(search, p, e) then w.(removed := 0) else w
  {
    assert AheadOk(whole, w, search, tries, p, e, c);
    AheadEnd(whole, w, search, tries, p, e, c);
  }
}
