/** Whole runs of operations on the items, and what holds in every state they reach. */
module ItemsRuns {
  import opened Base
  import opened ItemsModel
  import opened ItemsParts
  import opened ItemsInv
  import opened ItemsLemmas
  import opened ItemsOps
  import opened ItemsTurn
  import opened ItemsWalk
  import opened ItemsPull

  function Init(): State {
    State(map[], map[], seq(LARGEST_ID, i => []), seq(LARGEST_ID, i => 0), seq(LARGEST_ID, i => 0), 0, 0, multiset{}, [])
  }

  /** The end of do_item_alloc: memory for item x was had, and the caller holds it. */
  function AllocItem(s: State, x: Ref, seg: Seg, exptime: int): State {
    s.(items := s.items[x := Hdr(false, 1, seg, false, false, 0, exptime)], handles := s.handles + multiset{x})
  }

  /** One entry of the bump buffer taken care of in lru_maintainer_bumps. */
  function DrainBump(s: State, now: int, c: Settings): State
    requires s.bumps != [] && Live(s, s.bumps[0])
  {
    var x := s.bumps[0];
    var t := s.(bumps := s.bumps[1..]);
    var u := UpdateItem(t, x, now, c);
    Release(u, x)
  }

  datatype Op =
    | DoAlloc(x: Ref, seg: Seg, exptime: int)
    | DoLink(x: Ref, now: int)
    | DoUnlink(x: Ref)
    | DoRelease(x: Ref)
    | DoReplace(x: Ref, y: Ref, now: int)
    | DoUpdate(x: Ref, now: int, c: Settings)
    | DoGet(k: Key, flushed: bool, now: int, c: Settings, update: bool, room: bool)
    | DoCrawl(x: Ref, flushed: bool, now: int)
    | DoPull(p: Pull, e: Env, c: Settings)
    | DoDrain(now: int, c: Settings)

  /** What a caller sees to: it holds the items it works on, and links no key twice. */
  ghost predicate Enabled(s: State, op: Op) {
    match op
    case DoAlloc(x, _, _) => forall y :: y in s.items ==> y.addr != x.addr
    case DoLink(x, _) => Held(s, x) && x in s.items && !s.items[x].linked && x.key !in s.index
    case DoUnlink(x) => Held(s, x)
    case DoRelease(x) => Held(s, x)
    case DoReplace(x, y, _) =>
      && Held(s, x) && Held(s, y) && x != y && x.key == y.key
      && x in s.items && s.items[x].linked && y in s.items && !s.items[y].linked
    case DoUpdate(x, _, _) => Held(s, x)
    case DoGet(_, _, _, _, _, _) => true
    case DoCrawl(x, _, _) => x in s.items && s.items[x].linked
    case DoPull(p, _, _) => p.clsid == 0 || PullOk(p)
    case DoDrain(_, _) => s.bumps != []
  }

  ghost function Next(s: State, op: Op): State
    requires Inv(s) && Enabled(s, op)
  {
    InvLive(s);
    match op
    case DoAlloc(x, seg, exptime) => AllocItem(s, x, seg, exptime)
    case DoLink(x, now) => LinkItem(s, x, now)
    case DoUnlink(x) => UnlinkItem(s, x)
    case DoRelease(x) => Release(s, x)
    case DoReplace(x, y, now) => Replace(s, x, y, now)
    case DoUpdate(x, now, c) => UpdateItem(s, x, now, c)
    case DoGet(k, flushed, now, c, update, room) => GetItem(s, k, flushed, now, c, update, room).0
    case DoCrawl(x, flushed, now) => CrawlItem(s, x, flushed, now)
    case DoPull(p, e, c) => PullTail(s, p, e, c).s
    case DoDrain(now, c) => assert s.bumps[0] in multiset(s.bumps); DrainBump(s, now, c)
  }

  lemma {:induction false} SumOfZeros(q: seq<int>)
    requires forall i :: 0 <= i < |q| ==> q[i] == 0
    ensures Sum(q) == 0
  {
    if q != [] { SumOfZeros(q[1..]); }
  }

  lemma InitInv()
    ensures Inv(Init())
  {
    SumOfZeros(Init().sizes);
  }

  lemma AllocKeepsInv(s: State, x: Ref, seg: Seg, exptime: int)
    requires Inv(s) && forall y :: y in s.items ==> y.addr != x.addr
    ensures Inv(AllocItem(s, x, seg, exptime))
  {
    var h := Hdr(false, 1, seg, false, false, 0, exptime);
    AllocKeepsRefs(s.items, s.handles, x, h);
    AllocKeepsPlaces(s.items, s.index, s.lists, x, h);
  }

  lemma AllocKeepsRefs(items: map<Ref, Hdr>, handles: multiset<Ref>, x: Ref, h: Hdr)
    requires RefsOk(items, handles) && x !in items && !h.linked && h.refcount == 1
    ensures RefsOk(items[x := h], handles + multiset{x})
  {
    assert x !in handles;
  }

  lemma AllocKeepsPlaces(items: map<Ref, Hdr>, index: map<Key, Ref>, lists: seq<seq<Ref>>, x: Ref, h: Hdr)
    requires IndexOk(items, index) && PlacedOk(items, lists) && x !in items && !h.linked
    ensures IndexOk(items[x := h], index) && PlacedOk(items[x := h], lists)
  {
  }

  lemma DrainKeepsInv(s: State, now: int, c: Settings)
    requires Inv(s) && s.bumps != []
    ensures Live(s, s.bumps[0]) && Inv(DrainBump(s, now, c))
    ensures DrainBump(s, now, c).handles == s.handles - multiset{s.bumps[0]}
  {
    var x := s.bumps[0];
    var t := s.(bumps := s.bumps[1..]);
    InvLive(s);
    assert s.bumps == [x] + s.bumps[1..];
    assert multiset(s.bumps) == multiset{x} + multiset(t.bumps);
    assert Inv(t);
    UpdateKeepsInv(t, x, now, c);
    ReleaseKeepsInv(UpdateItem(t, x, now, c), x);
  }

  lemma StepKeepsInv(s: State, op: Op)
    requires Inv(s) && Enabled(s, op)
    ensures Inv(Next(s, op))
  {
    InvLive(s);
    match op
    case DoAlloc(x, seg, exptime) => AllocKeepsInv(s, x, seg, exptime);
    case DoLink(x, now) => LinkKeepsInv(s, x, now);
    case DoUnlink(x) => UnlinkKeepsInv(s, x);
    case DoRelease(x) => ReleaseKeepsInv(s, x);
    case DoReplace(x, y, now) => ReplaceKeepsInv(s, x, y, now);
    case DoUpdate(x, now, c) => UpdateKeepsInv(s, x, now, c);
    case DoGet(k, flushed, now, c, update, room) => GetKeepsInv(s, k, flushed, now, c, update, room);
    case DoCrawl(x, flushed, now) => CrawlKeepsInv(s, x, flushed, now);
    case DoPull(p, e, c) => PullTailKeepsInv(s, p, e, c);
    case DoDrain(now, c) => DrainKeepsInv(s, now, c);
  }

  ghost predicate IsRun(states: seq<State>, ops: seq<Op>) {
    && |states| == |ops| + 1 && states[0] == Init()
    && forall i {:trigger ops[i]} :: 0 <= i < |ops| && Inv(states[i]) ==>
         Enabled(states[i], ops[i]) && states[i + 1] == Next(states[i], ops[i])
  }

  lemma {:induction false} RunKeepsInv(states: seq<State>, ops: seq<Op>, n: nat)
    requires IsRun(states, ops) && n <= |ops|
    ensures Inv(states[n])
  {
    if n == 0 {
      InitInv();
    } else {
      RunKeepsInv(states, ops, n - 1);
      StepKeepsInv(states[n - 1], ops[n - 1]);
    }
  }

  /** In every state of every run: linked, indexed and on exactly one list are the same thing. */
  lemma LinkedIndexedListed(states: seq<State>, ops: seq<Op>, n: nat, x: Ref, g: Seg)
    requires IsRun(states, ops) && n <= |ops|
    ensures var s := states[n];
            && (x.key in s.index && s.index[x.key] == x <==> x in s.items && s.items[x].linked)
            && (x in s.lists[g] <==> x in s.items && s.items[x].linked && s.items[x].seg == g)
            && NoDup(s.lists[g])
            && s.sizes[g] == |s.lists[g]| && s.bytes[g] == Weight(s.lists[g])
            && s.currItems == Sum(s.sizes) && s.currBytes == Sum(s.bytes)
  {
    RunKeepsInv(states, ops, n);
    var s := states[n];
    if x in s.lists[g] { assert OnList(s.lists, g, x); }
    if x in s.items && s.items[x].linked { assert OnList(s.lists, s.items[x].seg, x); }
  }

  /** In every state of every run: an item is in use exactly as long as somebody holds it or it is linked. */
  lemma InUseMeansReferenced(states: seq<State>, ops: seq<Op>, n: nat, x: Ref)
    requires IsRun(states, ops) && n <= |ops|
    ensures var s := states[n];
            && (x in s.items ==> s.items[x].refcount == s.handles[x] + if s.items[x].linked then 1 else 0)
            && (x in s.items <==> x in s.handles || (x.key in s.index && s.index[x.key] == x))
  {
    RunKeepsInv(states, ops, n);
  }

  // ---------------------------------------------------------------- a reference that nobody gives back

  function OneItem(x: Ref, g: Seg): State {
    Release(LinkItem(AllocItem(Init(), x, g, 0), x, 0), x)
  }

  lemma OneItemIs(x: Ref, g: Seg)
    ensures Inv(OneItem(x, g)) && OneItem(x, g).lists[g] == [x] && x in OneItem(x, g).items
    ensures OneItem(x, g).items[x] == Hdr(true, 1, g, false, false, 0, 0)
  {
    InitInv();
    var s := AllocItem(Init(), x, g, 0);
    AllocKeepsInv(Init(), x, g, 0);
    LinkKeepsInv(s, x, 0);
    ReleaseKeepsInv(LinkItem(s, x, 0), x);
  }

  /** The walk ends with the item at the tail if its visit does not go on. */
  lemma WalkStopsAtOnce(s: State, x: Ref, tries: nat, p: Pull, e: Env, c: Settings, w: Walk)
    requires Inv(s) && PullOk(p) && tries > 0
    requires x in s.items && s.items[x].linked && x !in e.locked && e.crawler.None?
    requires Live(s, x) && w == Visit(s, x, 0, p, e, c) && w.it.Some?
    ensures WalkUp(s, Some(x), tries, 0, p, e, c) == w
  {
    WalkUpVisit(s, x, tries, 0, p, e, c);
    ResumeIs(s, x, w, tries - 1, p, e, c);
  }

  predicate Calm(x: Ref, s: State, g: Seg) {
    x in s.items && s.items[x] == Hdr(true, 1, g, false, false, 0, 0)
  }

  lemma VisitStops(p: Pull, x: Ref, c: Settings, s: State, e: Env)
    requires PullOk(p) && e == Env(0, {}, {}, None) && Calm(x, s, p.clsid + p.lru)
    ensures Live(s, x) && Visit(s, x, 0, p, e, c).it == Some(x)
  {
  }

  lemma SameStop(s: State, p: Pull, w: Walk)
    ensures Finish(p, s, w).it == w.it
  {
  }

  /** The item alone on its list is where the walk stops. */
  lemma StopsAtTheOne(p: Pull, x: Ref, c: Settings, s: State, e: Env)
    requires PullOk(p) && Inv(s) && e == Env(0, {}, {}, None)
    requires s.lists[p.clsid + p.lru] == [x] && Calm(x, s, p.clsid + p.lru)
    ensures PullTail(s, p, e, c).it == Some(x)
  {
    VisitStops(p, x, c, s, e);
    var w := Visit(s, x, 0, p, e, c);
    assert Start(s, p) == Some(x);
    WalkStopsAtOnce(s, x, TRIES, p, e, c, w);
    SameStop(s, p, w);
  }

  /**
   * Asked to return an item by a call that cannot hand it out, lru_pull_tail keeps a reference for good:
   * one item allocated, linked and released is enough.
   */
  lemma ReferenceLeaks(p: Pull, x: Ref, c: Settings)
    requires PullOk(p) && p.returnItem && !HandsOut(p)
    ensures Inv(OneItem(x, p.clsid + p.lru))
    ensures var s := OneItem(x, p.clsid + p.lru);
            var r := PullTail(s, p, Env(0, {}, {}, None), c);
            !Balanced(s, r) && r.returned.None? && r.s.handles == s.handles + multiset{x}
  {
    var g := p.clsid + p.lru;
    var s := OneItem(x, g);
    OneItemIs(x, g);
    var e := Env(0, {}, {}, None);
    StopsAtTheOne(p, x, c, s, e);
    PullTailKeepsInv(s, p, e, c);
    PullTailBalances(s, p, e, c);
  }

  /** Whatever state and surroundings it meets, the call gives back or hands out every reference it takes. */
  ghost predicate NeverLeaks(p: Pull, c: Settings)
    requires PullOk(p)
  {
    forall s, e {:trigger PullTail(s, p, e, c)} :: Inv(s) ==> Balanced(s, PullTail(s, p, e, c))
  }

  /** A call never leaks exactly when it does not ask for an item that its own list and flags keep it from handing out. */
  lemma NeverLeaksIff(p: Pull, c: Settings)
    requires PullOk(p)
    ensures NeverLeaks(p, c) <==> !(p.returnItem && !HandsOut(p))
  {
    if p.returnItem && !HandsOut(p) {
      var x := Ref(0, [], 0);
      ReferenceLeaks(p, x, c);
      assert !Balanced(OneItem(x, p.clsid + p.lru), PullTail(OneItem(x, p.clsid + p.lru), p, Env(0, {}, {}, None), c));
    } else {
      forall s, e | Inv(s) ensures Balanced(s, PullTail(s, p, e, c)) {
        PullTailBalances(s, p, e, c);
      }
    }
  }
}
