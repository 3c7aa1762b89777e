/** One operation carried out. */
module ItemsDid {
  import opened ItemsModel
  import opened ItemsInv
  import opened ItemsRuns

  ghost predicate Did(s: State, op: Op, t: State) {
    Inv(s) && Enabled(s, op) && t == Next(s, op) && Inv(t)
  }
}

/** The functions of items.c, step by step, each tied to the operation it carries out. */
module ItemsCode {
  import opened Base
  import opened ItemsModel
  import opened ItemsInv
  import opened ItemsOps
  import opened ItemsWalk
  import opened ItemsPull
  import opened ItemsAhead
  import opened ItemsSteps
  import opened ItemsTracking
  import opened ItemsRuns
  import opened ItemsDid

  lemma Doing(s: State, op: Op)
    requires Inv(s) && Enabled(s, op)
    ensures Inv(Next(s, op))
    ensures forall x :: x in s.items ==> Live(s, x)
    ensures forall x :: x in s.handles ==> Live(s, x)
    ensures forall k :: k in s.index ==> Live(s, s.index[k])
    ensures s.bumps != [] ==> Live(s, s.bumps[0])
  {
    InvLive(s);
    StepKeepsInv(s, op);
    if s.bumps != [] { assert s.bumps[0] in multiset(s.bumps); }
  }

  lemma IsDone(s: State, op: Op, t: State)
    requires Inv(s) && Enabled(s, op) && t == Next(s, op) && Inv(Next(s, op))
    ensures Did(s, op, t)
  {
  }

  lemma RunStep(states: seq<State>, ops: seq<Op>, i: nat)
    requires IsRun(states, ops) && i < |ops| && Inv(states[i])
    ensures Enabled(states[i], ops[i]) && states[i + 1] == Next(states[i], ops[i])
  {
  }

  class Store {
    var items: map<Ref, Hdr>
    var index: map<Key, Ref>
    var lists: Lists
    var sizes: Counts
    var sizesBytes: Counts
    var currItems: int
    var currBytes: int
    var bumps: seq<Ref>
    ghost var handles: multiset<Ref>

    constructor ()
      ensures Now() == Init()
    {
      items, index, lists, sizes, sizesBytes := map[], map[], Init().lists, Init().sizes, Init().bytes;
      currItems, currBytes, bumps, handles := 0, 0, [], multiset{};
    }

    ghost function Now(): State
      reads this
    {
      State(items, index, lists, sizes, sizesBytes, currItems, currBytes, handles, bumps)
    }

    method LinkQ(x: Ref)
      requires x in items
      modifies this`lists, this`sizes, this`sizesBytes
      ensures Now() == Enqueue(old(Now()), items[x].seg, x)
    {
      var g := items[x].seg;
      lists := lists[g := [x] + lists[g]];
      sizes := sizes[g := sizes[g] + 1];
      sizesBytes := sizesBytes[g := sizesBytes[g] + x.ntotal];
    }

    method UnlinkQ(x: Ref)
      requires x in items
      modifies this`lists, this`sizes, this`sizesBytes
      ensures Now() == Dequeue(old(Now()), items[x].seg, x)
    {
      var g := items[x].seg;
      lists := lists[g := Without(lists[g], x)];
      sizes := sizes[g := sizes[g] - 1];
      sizesBytes := sizesBytes[g := sizesBytes[g] - x.ntotal];
    }

    method RefcountIncr(x: Ref) returns (n: nat)
      requires x in items
      modifies this`items, this`handles
      ensures Now() == Hold(old(Now()), x) && n == items[x].refcount
    {
      items := items[x := items[x].(refcount := items[x].refcount + 1)];
      handles := handles + multiset{x};
      n := items[x].refcount;
    }

    /** do_item_remove and item_free; the reference is the link's or a holder's, as `link` says. */
    method DoItemRemove(x: Ref, ghost link: bool)
      requires Live(Now(), x)
      modifies this`items, this`handles
      ensures Now() == if link then Drop(old(Now()), x) else Release(old(Now()), x)
    {
      if !link { handles := handles - multiset{x}; }
      if items[x].refcount == 1 {
        items := items - {x};
      } else {
        items := items[x := items[x].(refcount := items[x].refcount - 1)];
      }
    }

    method DoItemLink(x: Ref, now: int)
      requires x in items && !items[x].linked
      modifies this
      ensures Now() == LinkItem(old(Now()), x, now)
    {
      items := items[x := items[x].(linked := true, time := now)];
      currBytes := currBytes + x.ntotal;
      currItems := currItems + 1;
      index := index[x.key := x];
      LinkQ(x);
      items := items[x := items[x].(refcount := items[x].refcount + 1)];
      assert items == old(items)[x := items[x]];
    }

    method DoItemUnlink(x: Ref)
      requires Live(Now(), x)
      modifies this
      ensures Now() == UnlinkItem(old(Now()), x)
    {
      if items[x].linked {
        items := items[x := items[x].(linked := false)];
        currBytes := currBytes - x.ntotal;
        currItems := currItems - 1;
        index := index - {x.key};
        UnlinkQ(x);
        DoItemRemove(x, true);
      }
    }

    method DoItemReplace(x: Ref, y: Ref, now: int)
      requires Live(Now(), x) && y in items && y != x && !items[y].linked
      modifies this
      ensures Now() == Replace(old(Now()), x, y, now)
    {
      DoItemUnlink(x);
      DoItemLink(y, now);
    }

    /** Off its list and onto the head of another, or of the same. */
    method Relink(x: Ref, g: Seg)
      requires x in items
      modifies this`lists, this`sizes, this`sizesBytes, this`items
      ensures Now() == Move(old(Now()), x, g)
    {
      UnlinkQ(x);
      items := items[x := items[x].(seg := g)];
      LinkQ(x);
    }

    method DoItemUpdate(x: Ref, now: int, c: Settings)
      requires x in items
      modifies this
      ensures Now() == UpdateItem(old(Now()), x, now, c)
    {
      if c.segmented {
        if items[x].linked {
          if Lruid(items[x].seg) == COLD_LRU && items[x].active {
            items := items[x := items[x].(time := now, active := false)];
            Relink(x, Clsid(items[x].seg) + WARM_LRU);
          } else {
            items := items[x := items[x].(time := now)];
          }
        }
      } else if items[x].time < now - c.updateInterval {
        if items[x].linked {
          items := items[x := items[x].(time := now)];
          Relink(x, items[x].seg);
        }
      }
    }

    /** One turn of the loop of lru_pull_tail once the item's lock is had. */
    method PullVisit(x: Ref, removed0: nat, p: Pull, e: Env, c: Settings)
      returns (removed: nat, it: Option<Ref>, returned: Option<Ref>)
      requires Live(Now(), x) && PullOk(p)
      modifies this
      ensures Walk(Now(), removed, it, returned) == Visit(old(Now()), x, removed0, p, e, c)
    {
      removed, it, returned := removed0, None, None;
      ghost var s := Now();
      var refcount := RefcountIncr(x);
      if Expired(items[x], x in e.flushed, e.now) {
        DoItemUnlink(x);
        DoItemRemove(x, false);
        removed := removed + 1;
      } else if p.lru == HOT_LRU || p.lru == WARM_LRU {
        if items[x].active {
          removed, it := PullActive(x, removed, p, s);
        } else {
          removed := PullIdle(x, removed, p, e, c, s);
          it := Some(x);
        }
      } else if p.lru == COLD_LRU {
        removed, returned := PullCold(x, removed, p, c, s);
        it := Some(x);
      } else {
        it := Some(x);
      }
    }

    method PullActive(x: Ref, removed0: nat, p: Pull, ghost s: State) returns (removed: nat, it: Option<Ref>)
      requires Live(s, x) && Now() == Hold(s, x)
      modifies this
      ensures Walk(Now(), removed, it, None) == VisitActive(s, x, removed0, p)
    {
      items := items[x := items[x].(active := false)];
      removed := removed0 + 1;
      if p.lru == WARM_LRU {
        Relink(x, items[x].seg);
        DoItemRemove(x, false);
        it := None;
      } else {
        Relink(x, Clsid(items[x].seg) + WARM_LRU);
        it := Some(x);
      }
    }

    method PullIdle(x: Ref, removed0: nat, p: Pull, e: Env, c: Settings, ghost s: State) returns (removed: nat)
      requires Live(s, x) && Now() == Hold(s, x) && PullOk(p)
      modifies this
      ensures Walk(Now(), removed, Some(x), None) == VisitIdle(s, x, removed0, p, e, c)
    {
      removed := removed0;
      if sizesBytes[p.clsid + p.lru] > Limit(p, c) || e.now - items[x].time > p.maxAge {
        Relink(x, Clsid(items[x].seg) + COLD_LRU);
        removed := removed + 1;
      }
    }

    method PullCold(x: Ref, removed0: nat, p: Pull, c: Settings, ghost s: State) returns (removed: nat, returned: Option<Ref>)
      requires Live(s, x) && Now() == Hold(s, x)
      modifies this
      ensures Walk(Now(), removed, Some(x), returned) == VisitCold(s, x, removed0, p, c)
    {
      removed, returned := removed0, None;
      if p.evict {
        if c.evictToFree {
          DoItemUnlink(x);
          removed := removed + 1;
        }
      } else if p.returnItem {
        returned := Some(x);
      } else if items[x].active && c.segmented {
        items := items[x := items[x].(active := false)];
        Relink(x, Clsid(items[x].seg) + WARM_LRU);
        removed := removed + 1;
      }
    }

    /** search->prev, NULL at the head. */
    method PrevOf(g: Seg, x: Ref) returns (prev: Option<Ref>)
      ensures prev == Prev(lists[g], x)
    {
      var l := lists[g];
      while |l| >= 2 && l[1] != x
        invariant Prev(l, x) == Prev(lists[g], x)
      {
        l := l[1..];
      }
      prev := if |l| < 2 then None else Some(l[0]);
    }

    /** The body of the loop of lru_pull_tail for an item, `next` being its predecessor before anything moved. */
    method PullTurn(x: Ref, removed0: nat, p: Pull, e: Env, c: Settings)
      returns (removed: nat, it: Option<Ref>, returned: Option<Ref>, next: Option<Ref>)
      requires PullOk(p) && Live(Now(), x)
      modifies this
      ensures Walk(Now(), removed, it, returned) == Turned(old(Now()), x, removed0, p, e, c)
      ensures next == NextUp(old(Now()), x, p)
    {
      next := PrevOf(p.clsid + p.lru, x);
      removed, it, returned := removed0, None, None;
      if x !in e.locked {
        removed, it, returned := PullVisit(x, removed, p, e, c);
      }
    }

    /** One turn of the loop of lru_pull_tail brings the walk one item further. */
    method PullOn(x: Ref, removed0: nat, tries: nat, p: Pull, e: Env, c: Settings,
                  ghost ahead: (Walk, Option<Ref>, nat) -> bool, ghost whole: Walk)
      returns (removed: nat, it: Option<Ref>, returned: Option<Ref>, next: Option<Ref>)
      requires Tracks(ahead, whole, p, e, c) && tries > 0 && !Blocked(Some(x), p, e)
      requires ahead(Walk(Now(), removed0, None, None), Some(x), tries)
      modifies this
      ensures ahead(Walk(Now(), removed, it, returned), next, tries - 1) && (it.None? ==> returned.None?)
    {
      ghost var w := Walk(Now(), removed0, None, None);
      assert AheadOk(whole, w, Some(x), tries, p, e, c);
      AheadLive(whole, w, Some(x), tries, p, e, c);
      AheadStep(whole, w, x, tries, p, e, c);
      removed, it, returned, next := PullTurn(x, removed0, p, e, c);
    }

    /** The loop of lru_pull_tail: up to five items from the tail, until it stops at one. */
    method PullLoop(start: Option<Ref>, p: Pull, e: Env, c: Settings,
                    ghost ahead: (Walk, Option<Ref>, nat) -> bool, ghost whole: Walk)
      returns (removed: nat, it: Option<Ref>, returned: Option<Ref>)
      requires Tracks(ahead, whole, p, e, c) && ahead(Walk(Now(), 0, None, None), start, TRIES)
      modifies this
      ensures Walk(Now(), removed, it, returned) == whole
    {
      removed, it, returned := 0, None, None;
      var search, tries := start, TRIES;
      while tries > 0 && search.Some? && it.None? && !Blocked(search, p, e)
        invariant 0 <= tries && ahead(Walk(Now(), removed, it, returned), search, tries) && (it.None? ==> returned.None?)
        decreases tries
      {
        removed, it, returned, search := PullOn(search.value, removed, tries, p, e, c, ahead, whole);
        tries := tries - 1;
      }
      TrackEnd(ahead, whole, Walk(Now(), removed, it, returned), search, tries, p, e, c);
      if it.None? && tries > 0 && Blocked(search, p, e) {
        removed := 0;
      }
    }

    /** lru_pull_tail. */
    method LruPullTail(p: Pull, e: Env, c: Settings) returns (removed: nat, returned: Option<Ref>, ghost it: Option<Ref>)
      requires Inv(Now()) && (p.clsid == 0 || PullOk(p))
      modifies this
      ensures Walk(Now(), removed, it, returned) == PullTail(old(Now()), p, e, c)
    {
      removed, returned, it := 0, None, None;
      if p.clsid == 0 { return; }
      ghost var s := Now();
      ghost var whole := WalkUp(s, Start(s, p), TRIES, 0, p, e, c);
      ghost var ahead := Tracker(whole, p, e, c);
      TrackStart(s, Start(s, p), TRIES, p, e, c, whole, ahead);
      FinishIs(s, p, whole);
      var stop;
      removed, stop, returned := PullLoop(TailOf(lists[p.clsid + p.lru]), p, e, c, ahead, whole);
      it := stop;
      if stop.Some? && !p.returnItem {
        DoItemRemove(stop.value, false);
      }
    }

    /** The end of do_item_alloc. */
    method AllocItem(x: Ref, seg: Seg, exptime: int)
      modifies this`items, this`handles
      ensures Now() == ItemsRuns.AllocItem(old(Now()), x, seg, exptime)
    {
      items := items[x := Hdr(false, 1, seg, false, false, 0, exptime)];
      handles := handles + multiset{x};
    }

    /** do_item_bump; `room` is whether the bump buffer would take an entry. */
    method DoItemBump(x: Ref, now: int, c: Settings, room: bool)
      requires x in items
      modifies this
      ensures Now() == BumpItem(old(Now()), x, now, c, room)
    {
      var h := items[x];
      if !c.segmented {
        items := items[x := h.(fetched := true)];
        DoItemUpdate(x, now, c);
      } else if !h.active {
        if !h.fetched {
          items := items[x := h.(fetched := true)];
        } else if Lruid(h.seg) != COLD_LRU {
          items := items[x := h.(active := true, time := now)];
        } else if room {
          items := items[x := h.(active := true)];
          var n := RefcountIncr(x);
          bumps := bumps + [x];
        }
      }
    }

    /** do_item_get. */
    method DoItemGet(k: Key, flushed: bool, now: int, c: Settings, update: bool, room: bool) returns (it: Option<Ref>)
      requires k in index ==> Live(Now(), index[k])
      modifies this
      ensures (Now(), it) == GetItem(old(Now()), k, flushed, now, c, update, room)
    {
      it := None;
      if k in index {
        var x := index[k];
        var n := RefcountIncr(x);
        if Gone(items[x], flushed, now) {
          DoItemUnlink(x);
          DoItemRemove(x, false);
        } else {
          it := Some(x);
          if update { DoItemBump(x, now, c, room); }
        }
      }
    }

    /** The crawler's look at an item it has locked. */
    method CrawlEval(x: Ref, flushed: bool, now: int)
      requires Live(Now(), x)
      modifies this
      ensures Now() == CrawlItem(old(Now()), x, flushed, now)
    {
      var n := RefcountIncr(x);
      if n == 2 && Expired(items[x], flushed, now) {
        DoItemUnlink(x);
      }
      DoItemRemove(x, false);
    }

    /** One entry of lru_maintainer_bumps. */
    method MaintainerBump(now: int, c: Settings)
      requires bumps != [] && Live(Now(), bumps[0])
      modifies this
      ensures Now() == DrainBump(old(Now()), now, c)
    {
      var x := bumps[0];
      bumps := bumps[1..];
      DoItemUpdate(x, now, c);
      DoItemRemove(x, false);
    }

    /** A caller that holds an item works on it. */
    method StepHolder(op: Op)
      requires Inv(Now()) && Enabled(Now(), op)
      requires op.DoAlloc? || op.DoLink? || op.DoUnlink? || op.DoRelease? || op.DoReplace? || op.DoUpdate?
      modifies this
      ensures Did(old(Now()), op, Now())
    {
      ghost var s := Now();
      Doing(s, op);
      match op {
        case DoAlloc(x, seg, exptime) => AllocItem(x, seg, exptime);
        case DoLink(x, now) => DoItemLink(x, now);
        case DoUnlink(x) => DoItemUnlink(x);
        case DoRelease(x) => DoItemRemove(x, false);
        case DoReplace(x, y, now) => DoItemReplace(x, y, now);
        case DoUpdate(x, now, c) => DoItemUpdate(x, now, c);
      }
      IsDone(s, op, Now());
    }

    /** A fetch, the crawler, or the maintainer. */
    method StepOther(op: Op)
      requires Inv(Now()) && Enabled(Now(), op) && (op.DoGet? || op.DoCrawl? || op.DoPull? || op.DoDrain?)
      modifies this
      ensures Did(old(Now()), op, Now())
    {
      ghost var s := Now();
      Doing(s, op);
      match op {
        case DoGet(k, flushed, now, c, update, room) => var it := DoItemGet(k, flushed, now, c, update, room);
        case DoCrawl(x, flushed, now) => CrawlEval(x, flushed, now);
        case DoPull(p, e, c) => var removed, returned, it := LruPullTail(p, e, c);
        case DoDrain(now, c) => MaintainerBump(now, c);
      }
      IsDone(s, op, Now());
    }

    /** Any operation that its caller may ask for keeps the invariant, and is the step of the state machine. */
    method Perform(op: Op)
      requires Inv(Now()) && Enabled(Now(), op)
      modifies this
      ensures Did(old(Now()), op, Now())
    {
      if op.DoGet? || op.DoCrawl? || op.DoPull? || op.DoDrain? {
        StepOther(op);
      } else {
        StepHolder(op);
      }
    }
  }

  /** A fresh store taken through the operations of any run ends where the run does. */
  method Drive(ops: seq<Op>, ghost states: seq<State>) returns (store: Store)
    requires IsRun(states, ops)
    ensures store.Now() == states[|ops|] && Inv(store.Now())
  {
    store := new Store();
    InitInv();
    var i := 0;
    while i < |ops|
      invariant fresh(store) && i <= |ops| && store.Now() == states[i] && Inv(store.Now())
    {
      RunStep(states, ops, i);
      store.Perform(ops[i]);
      i := i + 1;
    }
  }
}
