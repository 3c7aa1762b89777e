/**
 * Items, their reference counts, the index and the LRU lists (items.c): the state and the operations on it.
 * An item is named by its address together with what never changes while it lives: its key and its size.
 * The index is the finite map of module Assoc, a list is the sequence of module Lru with the crawler erased: see ItemsHeap.
 */
module ItemsModel {
  import opened Base

  type Key = seq<Byte>

  const HOT_LRU := 0
  const WARM_LRU := 64
  const COLD_LRU := 128
  const TEMP_LRU := 192
  const LARGEST_ID := 256

  /** The number of a list, and what is kept for each of them. */
  type Seg = g: int | 0 <= g < LARGEST_ID
  type Lists = l: seq<seq<Ref>> | |l| == LARGEST_ID witness seq(LARGEST_ID, i => [])
  type Counts = n: seq<int> | |n| == LARGEST_ID witness seq(LARGEST_ID, i => 0)

  datatype Ref = Ref(addr: nat, key: Key, ntotal: nat)

  /** The part of an item that changes; `seg` is slabs_clsid, the number of the list the item belongs to. */
  datatype Hdr = Hdr(linked: bool, refcount: nat, seg: Seg, active: bool, fetched: bool, time: int, exptime: int)

  /**
   * `items` holds the items in use: an item that is freed leaves the map. `handles` counts the references
   * held by anyone but the link itself, `bumps` is the content of the bump buffer.
   */
  datatype State = State(
    items: map<Ref, Hdr>, index: map<Key, Ref>, lists: Lists, sizes: Counts, bytes: Counts,
    currItems: int, currBytes: int, handles: multiset<Ref>, bumps: seq<Ref>)

  function Clsid(seg: nat): nat { seg % 64 }

  function Lruid(seg: nat): nat { seg - seg % 64 }

  /** The item is in use and somebody has a reference to it. */
  predicate Live(s: State, x: Ref) {
    x in s.items && s.items[x].refcount > 0
  }

  // ---------------------------------------------------------------- the steps the operations are made of

  /** do_item_link_q on list `seg`. */
  function Enqueue(s: State, seg: Seg, x: Ref): (t: State)
    requires seg < LARGEST_ID
  {
    s.(lists := s.lists[seg := [x] + s.lists[seg]],
       sizes := s.sizes[seg := s.sizes[seg] + 1],
       bytes := s.bytes[seg := s.bytes[seg] + x.ntotal])
  }

  /** do_item_unlink_q on list `seg`. */
  function Dequeue(s: State, seg: Seg, x: Ref): (t: State)
    requires seg < LARGEST_ID
  {
    s.(lists := s.lists[seg := Without(s.lists[seg], x)],
       sizes := s.sizes[seg := s.sizes[seg] - 1],
       bytes := s.bytes[seg := s.bytes[seg] - x.ntotal])
  }

  function SetHdr(s: State, x: Ref, h: Hdr): State {
    s.(items := s.items[x := h])
  }

  /** Off its list, onto the head of list `seg`. */
  function Move(s: State, x: Ref, seg: Seg): (t: State)
    requires x in s.items
  {
    var t := Dequeue(s, s.items[x].seg, x);
    Enqueue(SetHdr(t, x, s.items[x].(seg := seg)), seg, x)
  }

  /** refcount_incr by somebody who now holds the item. */
  function Hold(s: State, x: Ref): State
    requires x in s.items
  {
    SetHdr(s, x, s.items[x].(refcount := s.items[x].refcount + 1)).(handles := s.handles + multiset{x})
  }

  /** refcount_decr, and item_free when that was the last reference. */
  function Drop(s: State, x: Ref): State
    requires Live(s, x)
  {
    if s.items[x].refcount == 1 then s.(items := s.items - {x})
    else SetHdr(s, x, s.items[x].(refcount := s.items[x].refcount - 1))
  }

  // ---------------------------------------------------------------- link, unlink, remove, replace, update

  function LinkItem(s: State, x: Ref, now: int): (t: State)
    requires x in s.items
  {
    var h := s.items[x];
    var t := s.(currBytes := s.currBytes + x.ntotal, currItems := s.currItems + 1, index := s.index[x.key := x]);
    SetHdr(Enqueue(t, h.seg, x), x, h.(linked := true, time := now, refcount := h.refcount + 1))
  }

  function UnlinkItem(s: State, x: Ref): (t: State)
    requires Live(s, x)
    ensures forall y :: y in s.items && y != x ==> y in t.items
  {
    var h := s.items[x];
    if !h.linked then s
    else
      var t := s.(currBytes := s.currBytes - x.ntotal, currItems := s.currItems - 1, index := s.index - {x.key});
      Drop(SetHdr(Dequeue(t, h.seg, x), x, h.(linked := false)), x)
  }

  /** do_item_remove by a holder. */
  function Release(s: State, x: Ref): State
    requires Live(s, x)
  {
    Drop(s.(handles := s.handles - multiset{x}), x)
  }

  function Replace(s: State, x: Ref, y: Ref, now: int): State
    requires Live(s, x) && y in s.items && y != x
  {
    LinkItem(UnlinkItem(s, x), y, now)
  }

  /** The lru settings the operations consult. */
  datatype Settings = Settings(segmented: bool, evictToFree: bool, hotPct: nat, warmPct: nat, updateInterval: int)

  function UpdateItem(s: State, x: Ref, now: int, c: Settings): (t: State)
    requires x in s.items
  {
    var h := s.items[x];
    if c.segmented then
      if !h.linked then s
      else if Lruid(h.seg) == COLD_LRU && h.active then
        Move(SetHdr(s, x, h.(time := now, active := false)), x, Clsid(h.seg) + WARM_LRU)
      else SetHdr(s, x, h.(time := now))
    else if h.time < now - c.updateInterval && h.linked then
      Move(SetHdr(s, x, h.(time := now)), x, h.seg)
    else s
  }

  // ---------------------------------------------------------------- fetch

  /** lru_bump_async; `room` is whether the bump buffer took the entry. */
  function BumpAsync(s: State, x: Ref, room: bool): State
    requires x in s.items
  {
    if room then Hold(s, x).(bumps := s.bumps + [x]) else s
  }

  function BumpItem(s: State, x: Ref, now: int, c: Settings, room: bool): State
    requires x in s.items
  {
    var h := s.items[x];
    if !c.segmented then UpdateItem(SetHdr(s, x, h.(fetched := true)), x, now, c)
    else if h.active then s
    else if !h.fetched then SetHdr(s, x, h.(fetched := true))
    else if Lruid(h.seg) != COLD_LRU then SetHdr(s, x, h.(active := true, time := now))
    else if room then BumpAsync(SetHdr(s, x, h.(active := true)), x, true)
    else s
  }

  predicate Gone(h: Hdr, flushed: bool, now: int) {
    flushed || (h.exptime != 0 && h.exptime <= now)
  }

  /** do_item_get; `flushed` is item_is_flushed of the item found. */
  function GetItem(s: State, k: Key, flushed: bool, now: int, c: Settings, update: bool, room: bool): (State, Option<Ref>)
    requires (k in s.index ==> Live(s, s.index[k]))
  {
    if k !in s.index then (s, None)
    else
      var x := s.index[k];
      var t := Hold(s, x);
      if Gone(s.items[x], flushed, now) then (Release(UnlinkItem(t, x), x), None)
      else if update then (BumpItem(t, x, now, c, room), Some(x))
      else (t, Some(x))
  }

  // ---------------------------------------------------------------- the crawler's look at an item

  /** Past its time for the crawler and for the tail walk, which are a second more patient than a fetch. */
  predicate Expired(h: Hdr, flushed: bool, now: int) {
    flushed || (h.exptime != 0 && h.exptime < now)
  }

  /** The refcount test of the crawler thread, then crawler_expired_eval. */
  function CrawlItem(s: State, x: Ref, flushed: bool, now: int): State
    requires Live(s, x)
  {
    var t := Hold(s, x);
    if t.items[x].refcount == 2 && Expired(s.items[x], flushed, now) then Release(UnlinkItem(t, x), x)
    else Release(t, x)
  }

  // ---------------------------------------------------------------- the walk up from the tail

  /** The arguments and flags of lru_pull_tail. */
  datatype Pull = Pull(clsid: nat, lru: nat, totalBytes: nat, evict: bool, crawlBlocks: bool, returnItem: bool, maxAge: int)

  /** What the walk finds around it: `locked` items cannot be locked, the crawler sits tailward of an item or at the head. */
  datatype Env = Env(now: int, flushed: set<Ref>, locked: set<Ref>, crawler: Option<Option<Ref>>)

  predicate PullOk(p: Pull) {
    0 < p.clsid < 64 && p.lru in {HOT_LRU, WARM_LRU, COLD_LRU, TEMP_LRU}
  }

  /** Where the walk stands: items taken care of, the item it stops at, and the item it hands out. */
  datatype Walk = Walk(s: State, removed: nat, it: Option<Ref>, returned: Option<Ref>)

  function Limit(p: Pull, c: Settings): nat {
    var hot := if p.lru == HOT_LRU then p.totalBytes * c.hotPct / 100 else 0;
    if hot == 0 then p.totalBytes * c.warmPct / 100 else hot
  }

  /** The HOT_LRU and WARM_LRU cases for an active item, which is rescued. */
  function VisitActive(s: State, x: Ref, removed: nat, p: Pull): Walk
    requires Live(s, x)
  {
    var h := s.items[x];
    var t := Hold(s, x);
    var u := SetHdr(t, x, t.items[x].(active := false));
    if p.lru == WARM_LRU then Walk(Release(Move(u, x, h.seg), x), removed + 1, None, None)
    else Walk(Move(u, x, Clsid(h.seg) + WARM_LRU), removed + 1, Some(x), None)
  }

  /** The HOT_LRU and WARM_LRU cases for an item that is not active. */
  function VisitIdle(s: State, x: Ref, removed: nat, p: Pull, e: Env, c: Settings): Walk
    requires Live(s, x) && PullOk(p)
  {
    var h := s.items[x];
    var t := Hold(s, x);
    if s.bytes[p.clsid + p.lru] > Limit(p, c) || e.now - h.time > p.maxAge then
      Walk(Move(t, x, Clsid(h.seg) + COLD_LRU), removed + 1, Some(x), None)
    else Walk(t, removed, Some(x), None)
  }

  /** The COLD_LRU case. */
  function VisitCold(s: State, x: Ref, removed: nat, p: Pull, c: Settings): Walk
    requires Live(s, x)
  {
    var h := s.items[x];
    var t := Hold(s, x);
    if p.evict then
      if c.evictToFree then Walk(UnlinkItem(t, x), removed + 1, Some(x), None) else Walk(t, removed, Some(x), None)
    else if p.returnItem then Walk(t, removed, Some(x), Some(x))
    else if h.active && c.segmented then
      Walk(Move(SetHdr(t, x, t.items[x].(active := false)), x, Clsid(h.seg) + WARM_LRU), removed + 1, Some(x), None)
    else Walk(t, removed, Some(x), None)
  }

  /** One turn of the loop for an item whose lock was had, the relinking after the loop included. */
  function Visit(s: State, x: Ref, removed: nat, p: Pull, e: Env, c: Settings): Walk
    requires Live(s, x) && PullOk(p)
  {
    var t := Hold(s, x);
    if Expired(s.items[x], x in e.flushed, e.now) then
      Walk(Release(UnlinkItem(t, x), x), removed + 1, None, None)
    else if p.lru == HOT_LRU || p.lru == WARM_LRU then
      if s.items[x].active then VisitActive(s, x, removed, p) else VisitIdle(s, x, removed, p, e, c)
    else if p.lru == COLD_LRU then VisitCold(s, x, removed, p, c)
    else Walk(t, removed, Some(x), None)
  }

  /** The item before x on its list, towards the head. */
  function Prev(l: seq<Ref>, x: Ref): Option<Ref> {
    if |l| < 2 then None else if l[1] == x then Some(l[0]) else Prev(l[1..], x)
  }
}
