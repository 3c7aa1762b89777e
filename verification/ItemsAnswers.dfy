/** What the operations on items answer and do to an item, over the fields of its header. */
module ItemsAnswers {
  import opened Base
  import opened ItemsModel
  import opened ItemsParts
  import opened ItemsInv
  import opened ItemsLemmas
  import opened ItemsOps
  import opened ItemsRuns

  /** The headers of all items but x are as they were. */
  ghost predicate OnlyHdr(items: map<Ref, Hdr>, after: map<Ref, Hdr>, x: Ref) {
    forall y :: y != x ==> (y in items <==> y in after) && (y in items ==> after[y] == items[y])
  }

  /** Item x has left its list; everything else is in its place. */
  ghost predicate LeftLists(lists: Lists, after: Lists, x: Ref) {
    forall g: Seg :: after[g] == Without(lists[g], x)
  }

  /** Item x is at the head of list g; everything else is in its place. */
  ghost predicate ToHead(lists: Lists, after: Lists, x: Ref, g: Seg) {
    forall f: Seg :: after[f] == if f == g then [x] + Without(lists[f], x) else Without(lists[f], x)
  }

  /** Item x is found under no key and is on no list; it is freed exactly when nobody holds it. Nothing else has changed. */
  ghost predicate TakenOut(s: State, t: State, x: Ref)
    requires x in s.items && s.items[x].refcount > 0
  {
    && t.index == s.index - {x.key} && LeftLists(s.lists, t.lists, x) && OnlyHdr(s.items, t.items, x)
    && (x in t.items <==> x in s.handles)
    && (x in t.items ==> t.items[x] == s.items[x].(linked := false, refcount := s.items[x].refcount - 1))
    && t.handles == s.handles && t.bumps == s.bumps
  }

  lemma {:induction false} WithoutAbsent<T>(q: seq<T>, x: T)
    requires x !in q
    ensures Without(q, x) == q
  {
    if q != [] { WithoutAbsent(q[1..], x); }
  }

  /** Only its own list has the item. */
  lemma OthersLack(s: State, x: Ref)
    requires Inv(s) && x in s.items
    ensures forall g: Seg :: !(s.items[x].linked && g == s.items[x].seg) ==> Without(s.lists[g], x) == s.lists[g]
  {
    OnlyOwnList(s.items, s.lists, x);
    forall g: Seg | !(s.items[x].linked && g == s.items[x].seg) ensures Without(s.lists[g], x) == s.lists[g] {
      assert !OnList(s.lists, g, x);
      WithoutAbsent(s.lists[g], x);
    }
  }

  // ---------------------------------------------------------------- link, unlink, replace

  /** A linked item is found under its key, is first on its list, and has its time set. */
  lemma LinkAnswer(s: State, x: Ref, now: int)
    requires Inv(s) && x in s.items && !s.items[x].linked
    ensures var t := LinkItem(s, x, now);
            && t.index == s.index[x.key := x] && ToHead(s.lists, t.lists, x, s.items[x].seg) && OnlyHdr(s.items, t.items, x)
            && x in t.items && t.items[x] == s.items[x].(linked := true, time := now, refcount := s.items[x].refcount + 1)
            && t.handles == s.handles && t.bumps == s.bumps
  {
    OthersLack(s, x);
  }

  lemma UnlinkAnswer(s: State, x: Ref)
    requires Inv(s) && x in s.items && s.items[x].linked
    ensures Live(s, x) && TakenOut(s, UnlinkItem(s, x), x)
  {
    InvLive(s);
    OthersLack(s, x);
    UnlinkTakesOut(s, x);
  }

  lemma UnlinkTakesOut(s: State, x: Ref)
    requires Live(s, x) && s.items[x].linked && s.items[x].refcount == s.handles[x] + 1
    requires forall g: Seg :: g != s.items[x].seg ==> Without(s.lists[g], x) == s.lists[g]
    ensures TakenOut(s, UnlinkItem(s, x), x)
  {
  }

  /** The key leads to y, which is first on its list; x is on none. */
  ghost predicate TookPlace(s: State, t: State, x: Ref, y: Ref, now: int)
    requires y in s.items
  {
    && t.index == s.index[x.key := y] && y in t.items && t.items[y].linked && t.items[y].time == now
    && (x in t.items <==> x in s.handles) && (x in t.items ==> !t.items[x].linked)
    && forall f: Seg ::
         t.lists[f] == if f == s.items[y].seg then [y] + Without(s.lists[f], x) else Without(s.lists[f], x)
  }

  lemma LinkInPlace(s: State, u: State, x: Ref, y: Ref, now: int)
    requires Live(s, x) && TakenOut(s, u, x) && y in s.items && x != y && x.key == y.key
    ensures y in u.items && TookPlace(s, LinkItem(u, y, now), x, y, now)
  {
  }

  /** What a replacement leaves. */
  lemma ReplaceAnswer(s: State, x: Ref, y: Ref, now: int)
    requires Inv(s) && x in s.items && y in s.items && x != y && x.key == y.key && s.items[x].linked && !s.items[y].linked
    ensures Live(s, x) && TookPlace(s, Replace(s, x, y, now), x, y, now)
  {
    UnlinkAnswer(s, x);
    LinkInPlace(s, UnlinkItem(s, x), x, y, now);
  }

  // ---------------------------------------------------------------- update

  predicate IsCold(g: Seg) {
    COLD_LRU <= g < TEMP_LRU
  }

  /** An update moves an active item of a COLD list; without segments it moves an item not updated for a while. */
  predicate UpdateMoves(h: Hdr, now: int, c: Settings) {
    h.linked && if c.segmented then IsCold(h.seg) && h.active else h.time < now - c.updateInterval
  }

  /** The WARM list of the item's class, if it goes there, and its own otherwise. */
  function UpdatesTo(h: Hdr, now: int, c: Settings): Seg {
    if c.segmented && UpdateMoves(h, now, c) then h.seg - 64 else h.seg
  }

  ghost predicate Updated(h: Hdr, now: int, c: Settings, after: Hdr) {
    && after.linked == h.linked && after.refcount == h.refcount && after.fetched == h.fetched && after.exptime == h.exptime
    && after.seg == UpdatesTo(h, now, c)
    && after.active == (h.active && !(c.segmented && UpdateMoves(h, now, c)))
    && after.time == if h.linked && (c.segmented || UpdateMoves(h, now, c)) then now else h.time
  }

  lemma ColdSeg(g: Seg)
    ensures Lruid(g) == COLD_LRU <==> IsCold(g)
    ensures IsCold(g) ==> Clsid(g) + WARM_LRU == g - 64
  {
  }

  lemma MoveAnswer(s: State, x: Ref, h: Hdr, g: Seg)
    requires Inv(s) && x in s.items && h.linked && s.items[x].linked && h.seg == s.items[x].seg
    ensures var t := Move(SetHdr(s, x, h), x, g);
            && ToHead(s.lists, t.lists, x, g) && OnlyHdr(s.items, t.items, x) && x in t.items && t.items[x] == h.(seg := g)
            && t.index == s.index && t.handles == s.handles && t.bumps == s.bumps
  {
    OthersLack(s, x);
  }

  /** The move of an item by somebody who has just taken hold of it. */
  lemma HeldMove(s: State, x: Ref, g: Seg) returns (v: State)
    requires Inv(s) && x in s.items && s.items[x].linked
    ensures var t := Hold(s, x); v == Move(SetHdr(t, x, t.items[x].(active := false)), x, g)
    ensures Live(s, x) && x in v.items && v.items[x] == s.items[x].(seg := g, active := false, refcount := s.items[x].refcount + 1)
    ensures OnlyHdr(s.items, v.items, x) && ToHead(s.lists, v.lists, x, g)
    ensures v.index == s.index && v.handles == s.handles + multiset{x} && v.bumps == s.bumps
  {
    InvLive(s);
    HoldKeepsInv(s, x);
    var t := Hold(s, x);
    MoveAnswer(t, x, t.items[x].(active := false), g);
    v := Move(SetHdr(t, x, t.items[x].(active := false)), x, g);
  }

  /** What an update does to the item and to the lists. */
  ghost predicate UpdateDone(s: State, x: Ref, now: int, c: Settings, t: State)
    requires x in s.items
  {
    var h := s.items[x];
    && x in t.items && Updated(h, now, c, t.items[x]) && OnlyHdr(s.items, t.items, x)
    && (if UpdateMoves(h, now, c) then ToHead(s.lists, t.lists, x, UpdatesTo(h, now, c)) else t.lists == s.lists)
    && t.index == s.index && t.handles == s.handles && t.bumps == s.bumps
  }

  lemma UpdateWarms(s: State, x: Ref, now: int, c: Settings)
    requires Inv(s) && x in s.items && c.segmented && UpdateMoves(s.items[x], now, c)
    ensures UpdateDone(s, x, now, c, UpdateItem(s, x, now, c))
  {
    var h := s.items[x];
    ColdSeg(h.seg);
    MoveAnswer(s, x, h.(time := now, active := false), h.seg - 64);
  }

  lemma UpdateLifts(s: State, x: Ref, now: int, c: Settings)
    requires Inv(s) && x in s.items && !c.segmented && UpdateMoves(s.items[x], now, c)
    ensures UpdateDone(s, x, now, c, UpdateItem(s, x, now, c))
  {
    MoveAnswer(s, x, s.items[x].(time := now), s.items[x].seg);
  }

  lemma UpdateAnswer(s: State, x: Ref, now: int, c: Settings)
    requires Inv(s) && x in s.items
    ensures UpdateDone(s, x, now, c, UpdateItem(s, x, now, c))
  {
    ColdSeg(s.items[x].seg);
    if UpdateMoves(s.items[x], now, c) {
      if c.segmented { UpdateWarms(s, x, now, c); } else { UpdateLifts(s, x, now, c); }
    }
  }

  // ---------------------------------------------------------------- fetch

  /** A fetch finds the item under the key unless it was flushed or its time has come. */
  ghost predicate Fresh(s: State, k: Key, flushed: bool, now: int)
    requires Inv(s)
  {
    k in s.index && !flushed && (s.items[s.index[k]].exptime == 0 || now < s.items[s.index[k]].exptime)
  }

  /** The fetch is one that asks for a bump of a cold item, and the buffer takes it. */
  ghost predicate Queues(h: Hdr, c: Settings, update: bool, room: bool) {
    update && c.segmented && h.fetched && !h.active && IsCold(h.seg) && room
  }

  /** What a fetch makes of the header; the item is held once more, and by the bump buffer too if it queues. */
  ghost predicate Touched(h: Hdr, now: int, c: Settings, update: bool, room: bool, after: Hdr) {
    && after.linked == h.linked && after.seg == h.seg && after.exptime == h.exptime
    && after.refcount == h.refcount + (if Queues(h, c, update, room) then 2 else 1)
    && after.fetched == (h.fetched || (update && !(c.segmented && h.active)))
    && after.active == (h.active || (update && c.segmented && h.fetched && (room || !IsCold(h.seg))))
    && after.time == if !update then h.time
                     else if c.segmented then (if h.fetched && !h.active && !IsCold(h.seg) then now else h.time)
                     else if h.time < now - c.updateInterval then now else h.time
  }

  /** What a fetch of x does besides handing it out. */
  ghost predicate Fetched(s: State, x: Ref, now: int, c: Settings, update: bool, room: bool, t: State)
    requires x in s.items
  {
    var h := s.items[x];
    && x in t.items && Touched(h, now, c, update, room, t.items[x]) && OnlyHdr(s.items, t.items, x) && t.index == s.index
    && (if update && !c.segmented && h.time < now - c.updateInterval
        then ToHead(s.lists, t.lists, x, h.seg) else t.lists == s.lists)
    && if Queues(h, c, update, room) then t.handles == s.handles + multiset{x, x} && t.bumps == s.bumps + [x]
       else t.handles == s.handles + multiset{x} && t.bumps == s.bumps
  }

  lemma FlatBump(s: State, x: Ref, now: int, c: Settings, room: bool)
    requires Inv(s) && x in s.items && s.items[x].linked && !c.segmented
    ensures Fetched(s, x, now, c, true, room, BumpItem(Hold(s, x), x, now, c, room))
  {
    var u := Hold(s, x);
    HoldKeepsInv(s, x);
    SetHdrKeepsInv(u, x, u.items[x].(fetched := true));
    UpdateAnswer(SetHdr(u, x, u.items[x].(fetched := true)), x, now, c);
    FlatFetched(s, x, now, c, room, BumpItem(u, x, now, c, room));
  }

  lemma FlatFetched(s: State, x: Ref, now: int, c: Settings, room: bool, t: State)
    requires x in s.items && s.items[x].linked && !c.segmented
    requires UpdateDone(SetHdr(Hold(s, x), x, Hold(s, x).items[x].(fetched := true)), x, now, c, t)
    ensures Fetched(s, x, now, c, true, room, t)
  {
  }

  lemma SegmentedBump(s: State, x: Ref, now: int, c: Settings, room: bool)
    requires x in s.items && c.segmented
    ensures Fetched(s, x, now, c, true, room, BumpItem(Hold(s, x), x, now, c, room))
  {
    ColdSeg(s.items[x].seg);
  }

  lemma PlainFetch(s: State, x: Ref, now: int, c: Settings, room: bool)
    requires x in s.items
    ensures Fetched(s, x, now, c, false, room, Hold(s, x))
  {
  }

  lemma FetchAnswer(s: State, x: Ref, now: int, c: Settings, update: bool, room: bool)
    requires Inv(s) && x in s.items && s.items[x].linked
    ensures Fetched(s, x, now, c, update, room, if update then BumpItem(Hold(s, x), x, now, c, room) else Hold(s, x))
  {
    if !update {
      PlainFetch(s, x, now, c, room);
    } else if c.segmented {
      SegmentedBump(s, x, now, c, room);
    } else {
      FlatBump(s, x, now, c, room);
    }
  }

  /** A fetch, by what it finds under the key. */
  lemma GetIs(s: State, k: Key, flushed: bool, now: int, c: Settings, update: bool, room: bool, x: Ref)
    requires k in s.index && s.index[k] == x && Live(s, x) && Live(UnlinkItem(Hold(s, x), x), x)
    ensures GetItem(s, k, flushed, now, c, update, room) ==
            if flushed || 0 != s.items[x].exptime <= now then (Release(UnlinkItem(Hold(s, x), x), x), None)
            else (if update then BumpItem(Hold(s, x), x, now, c, room) else Hold(s, x), Some(x))
  {
  }

  /** Which item a fetch hands out, that the caller then holds it, and what becomes of its header and its place. */
  lemma GetAnswer(s: State, k: Key, flushed: bool, now: int, c: Settings, update: bool, room: bool)
    requires Inv(s)
    ensures (k in s.index ==> Live(s, s.index[k]) && s.index[k].key == k)
    ensures var (t, found) := GetItem(s, k, flushed, now, c, update, room);
            && found == (if Fresh(s, k, flushed, now) then Some(s.index[k]) else None)
            && (found.Some? ==> Fetched(s, s.index[k], now, c, update, room, t))
  {
    InvLive(s);
    if k in s.index {
      ReapKeepsInv(s, s.index[k]);
      GetIs(s, k, flushed, now, c, update, room, s.index[k]);
      FetchAnswer(s, s.index[k], now, c, update, room);
    }
  }

  /** Unlink and release by somebody who has just taken hold of the item. */
  lemma ReapAnswer(s: State, x: Ref)
    requires Inv(s) && x in s.items && s.items[x].linked
    ensures Live(s, x) && Live(Hold(s, x), x) && Live(UnlinkItem(Hold(s, x), x), x)
    ensures TakenOut(s, Release(UnlinkItem(Hold(s, x), x), x), x)
  {
    InvLive(s);
    ReapKeepsInv(s, x);
    HoldKeepsInv(s, x);
    UnlinkAnswer(Hold(s, x), x);
    ReleaseTakenOut(s, UnlinkItem(Hold(s, x), x), x);
  }

  lemma ReleaseTakenOut(s: State, u: State, x: Ref)
    requires Live(s, x) && s.items[x].refcount == s.handles[x] + 1 && TakenOut(Hold(s, x), u, x) && Live(u, x)
    ensures TakenOut(s, Release(u, x), x)
  {
    assert s.handles + multiset{x} - multiset{x} == s.handles;
  }

  /** A fetch that hands out nothing leaves nothing under the key, and nobody holds more than before. */
  lemma MissAnswer(s: State, k: Key, flushed: bool, now: int, c: Settings, update: bool, room: bool)
    requires Inv(s) && !Fresh(s, k, flushed, now)
    ensures (k in s.index ==> Live(s, s.index[k]) && s.index[k].key == k)
    ensures var t := GetItem(s, k, flushed, now, c, update, room).0;
            && t.index == s.index - {k} && t.handles == s.handles && t.bumps == s.bumps
            && if k in s.index then TakenOut(s, t, s.index[k]) else t == s
  {
    InvLive(s);
    if k in s.index {
      ReapAnswer(s, s.index[k]);
      GetIs(s, k, flushed, now, c, update, room, s.index[k]);
    } else {
      assert s.index - {k} == s.index;
    }
  }

  /** In every run: an item handed out is the linked one under the key asked for, not flushed, and its time has not come. */
  lemma HandedOutIsFresh(states: seq<State>, ops: seq<Op>, n: nat)
    requires IsRun(states, ops) && n < |ops| && ops[n].DoGet?
    ensures Inv(states[n]) && var op := ops[n]; (op.k in states[n].index ==> Live(states[n], states[n].index[op.k]))
    ensures var s, op := states[n], ops[n];
            var (t, found) := GetItem(s, op.k, op.flushed, op.now, op.c, op.update, op.room);
            && states[n + 1] == t
            && (found.Some? ==>
                  var x := found.value;
                  && x.key == op.k && x in t.items && t.items[x].linked && !op.flushed && x in t.handles
                  && !(0 < t.items[x].exptime <= op.now))
            && (found.None? ==> op.k !in t.index)
  {
    RunKeepsInv(states, ops, n);
    var s, op := states[n], ops[n];
    GetAnswer(s, op.k, op.flushed, op.now, op.c, op.update, op.room);
    if !Fresh(s, op.k, op.flushed, op.now) { MissAnswer(s, op.k, op.flushed, op.now, op.c, op.update, op.room); }
  }

  // ---------------------------------------------------------------- the crawler, and the bumps taken care of

  lemma HoldRelease(s: State, x: Ref)
    requires Live(s, x)
    ensures Release(Hold(s, x), x) == s
  {
    assert s.handles + multiset{x} - multiset{x} == s.handles;
    var h := s.items[x].(refcount := s.items[x].refcount + 1);
    assert s.items[x := h][x := s.items[x]] == s.items;
  }

  predicate Reaps(h: Hdr, flushed: bool, now: int) {
    h.refcount == 1 && (flushed || 0 != h.exptime < now)
  }

  /** The crawler takes out exactly the items past their time that nobody holds; any other it leaves alone. */
  lemma CrawlAnswer(s: State, x: Ref, flushed: bool, now: int)
    requires Inv(s) && x in s.items && s.items[x].linked
    ensures Live(s, x)
    ensures var t := CrawlItem(s, x, flushed, now); var h := s.items[x];
            if x !in s.handles && (flushed || 0 != h.exptime < now) then x !in t.items && TakenOut(s, t, x) else t == s
  {
    InvLive(s);
    if Reaps(s.items[x], flushed, now) { CrawlReaps(s, x, flushed, now); } else { CrawlLeaves(s, x, flushed, now); }
  }

  lemma CrawlReaps(s: State, x: Ref, flushed: bool, now: int)
    requires Inv(s) && Live(s, x) && s.items[x].linked && Reaps(s.items[x], flushed, now)
    ensures TakenOut(s, CrawlItem(s, x, flushed, now), x)
  {
    ReapAnswer(s, x);
    CrawlIsReap(s, x, flushed, now);
  }

  lemma CrawlIsReap(s: State, x: Ref, flushed: bool, now: int)
    requires Live(s, x) && Reaps(s.items[x], flushed, now) && Live(UnlinkItem(Hold(s, x), x), x)
    ensures CrawlItem(s, x, flushed, now) == Release(UnlinkItem(Hold(s, x), x), x)
  {
  }

  lemma CrawlLeaves(s: State, x: Ref, flushed: bool, now: int)
    requires Live(s, x) && !Reaps(s.items[x], flushed, now)
    ensures CrawlItem(s, x, flushed, now) == s
  {
    HoldRelease(s, x);
  }

  /** What taking care of the first bump queued leaves. */
  ghost predicate Drained(s: State, now: int, c: Settings, t: State)
    requires s.bumps != [] && s.bumps[0] in s.items
  {
    var x := s.bumps[0]; var h := s.items[x];
    && t.bumps == s.bumps[1..] && t.handles == s.handles - multiset{x} && t.index == s.index && OnlyHdr(s.items, t.items, x)
    && (x in t.items <==> h.linked || s.handles[x] > 1)
    && (x in t.items ==> Updated(h, now, c, t.items[x].(refcount := t.items[x].refcount + 1)))
    && if UpdateMoves(h, now, c) then ToHead(s.lists, t.lists, x, UpdatesTo(h, now, c)) else t.lists == s.lists
  }

  lemma ReleaseDrained(s: State, u: State, now: int, c: Settings)
    requires s.bumps != [] && Live(s, s.bumps[0]) && UpdateDone(s.(bumps := s.bumps[1..]), s.bumps[0], now, c, u)
    requires var h := s.items[s.bumps[0]]; h.refcount == s.handles[s.bumps[0]] + if h.linked then 1 else 0
    requires s.handles[s.bumps[0]] > 0
    ensures Live(u, s.bumps[0]) && Drained(s, now, c, Release(u, s.bumps[0]))
  {
  }

  /** The first bump queued is an update of its item, and the reference that kept the item for it is given back. */
  lemma DrainAnswer(s: State, now: int, c: Settings)
    requires Inv(s) && s.bumps != []
    ensures Live(s, s.bumps[0]) && Drained(s, now, c, DrainBump(s, now, c))
  {
    var x := s.bumps[0];
    var t := s.(bumps := s.bumps[1..]);
    DrainKeepsInv(s, now, c);
    assert s.bumps == [x] + t.bumps;
    assert multiset(s.bumps) == multiset{x} + multiset(t.bumps);
    assert Inv(t);
    UpdateAnswer(t, x, now, c);
    assert x in multiset(s.bumps);
    ReleaseDrained(s, UpdateItem(t, x, now, c), now, c);
  }
}

/** The time an item is allocated with decides, all through its life, whether it is handed out. */
module ItemsExpiry {
  import opened Base
  import opened ItemsModel
  import opened ItemsInv
  import opened ItemsOps
  import opened ItemsRuns
  import opened ItemsQueued
  import opened ItemsAnswers

  lemma StepKeepsTime(s: State, op: Op, x: Ref)
    requires Inv(s) && Enabled(s, op) && x in s.items && x in Next(s, op).items
    ensures Next(s, op).items[x].exptime == s.items[x].exptime
  {
    InvLive(s);
    match op
    case DoGet(k, flushed, now, c, update, room) => GetWithin(s, k, flushed, now, c, update, room);
    case DoDrain(now, c) => DrainKeepsInv(s, now, c); DrainWithin(s, now, c);
    case _ => AsideWithin(s, op);
  }

  ghost predicate InUse(states: seq<State>, x: Ref, n: nat) {
    n < |states| && x in states[n].items
  }

  /** As long as an item stays in use it keeps the time it was allocated with. */
  lemma {:induction false} TimeIsKept(states: seq<State>, ops: seq<Op>, i: nat, j: nat, x: Ref)
    requires IsRun(states, ops) && i < j <= |ops| && ops[i].DoAlloc? && ops[i].x == x
    requires forall n :: i < n <= j ==> InUse(states, x, n)
    ensures x in states[j].items && states[j].items[x].exptime == ops[i].exptime
    decreases j
  {
    assert InUse(states, x, j);
    RunKeepsInv(states, ops, j - 1);
    if i + 1 < j {
      assert InUse(states, x, j - 1);
      TimeIsKept(states, ops, i, j - 1, x);
      StepKeepsTime(states[j - 1], ops[j - 1], x);
    }
  }

  /** In every run: an item is handed out only before the time it was allocated with, if it was given one. */
  lemma HandedOutInTime(states: seq<State>, ops: seq<Op>, i: nat, j: nat, x: Ref)
    requires IsRun(states, ops) && i < j < |ops| && ops[i].DoAlloc? && ops[i].x == x && ops[j].DoGet?
    requires forall n :: i < n <= j ==> InUse(states, x, n)
    requires Inv(states[j]) && (ops[j].k in states[j].index ==> Live(states[j], states[j].index[ops[j].k]))
    requires GetItem(states[j], ops[j].k, ops[j].flushed, ops[j].now, ops[j].c, ops[j].update, ops[j].room).1 == Some(x)
    ensures ops[i].exptime == 0 || ops[j].now < ops[i].exptime
  {
    TimeIsKept(states, ops, i, j, x);
    GetAnswer(states[j], ops[j].k, ops[j].flushed, ops[j].now, ops[j].c, ops[j].update, ops[j].room);
  }
}
