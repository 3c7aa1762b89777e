/** What a walk up from the tail does to the items on its way, over the fields of their headers. */
module ItemsPassing {
  import opened Base
  import opened ItemsModel
  import opened ItemsParts
  import opened ItemsInv
  import opened ItemsOps
  import opened ItemsPull
  import opened ItemsAnswers

  /** The elements of q that are in a, in their order. */
  function Only<T(==)>(q: seq<T>, a: set<T>): seq<T> {
    if q == [] then [] else if q[0] in a then [q[0]] + Only(q[1..], a) else Only(q[1..], a)
  }

  lemma {:induction false} OnlyHas<T>(q: seq<T>, a: set<T>)
    ensures forall x :: x in Only(q, a) <==> x in q && x in a
  {
    if q != [] {
      OnlyHas(q[1..], a);
      assert q == [q[0]] + q[1..];
    }
  }

  lemma {:induction false} OnlyNone<T>(q: seq<T>, a: set<T>)
    requires forall x :: x in q ==> x !in a
    ensures Only(q, a) == []
  {
    if q != [] {
      assert q[0] in q;
      OnlyNone(q[1..], a);
    }
  }

  lemma {:induction false} OnlySame<T>(q: seq<T>, a: set<T>, b: set<T>)
    requires forall x :: x in q ==> (x in a <==> x in b)
    ensures Only(q, a) == Only(q, b)
  {
    if q != [] {
      assert q[0] in q;
      OnlySame(q[1..], a, b);
    }
  }

  /** The time of the item is past, for a walk. */
  predicate PastTime(s: State, e: Env, x: Ref) {
    x in s.items && (x in e.flushed || (s.items[x].exptime != 0 && s.items[x].exptime < e.now))
  }

  /** The walk goes on past this item: its lock is not had, its time is past, or it is active on a WARM list. */
  predicate Passes(s: State, p: Pull, e: Env, x: Ref) {
    x in s.items && (x in e.locked || PastTime(s, e, x) || (p.lru == WARM_LRU && s.items[x].active))
  }

  /** Of the items passed: those whose time is past, and those lifted to the head of the list. */
  function Reaped(s: State, e: Env, d: seq<Ref>): set<Ref> {
    set x | x in d && x !in e.locked && PastTime(s, e, x)
  }

  function Lifted(s: State, e: Env, d: seq<Ref>): set<Ref> {
    set x | x in d && x !in e.locked && !PastTime(s, e, x)
  }

  /** What the walk has made of the header of an item it has passed. */
  ghost predicate PassedHdr(s: State, e: Env, x: Ref, u: State) {
    if x in e.locked then x in s.items && x in u.items && u.items[x] == s.items[x]
    else if PastTime(s, e, x) then
      && (x in u.items <==> x in s.handles)
      && (x in u.items ==>
            u.items[x].refcount + 1 == s.items[x].refcount && u.items[x] == s.items[x].(linked := false, refcount := u.items[x].refcount))
    else x in s.items && x in u.items && u.items[x] == s.items[x].(active := false)
  }

  /**
   * The list was `front + d`, and the walk has passed d: what was past its time is out of the index and off the list,
   * what was lifted is at the head, and what was locked is left alone. Nothing else has changed.
   */
  ghost predicate Swept(s: State, u: State, p: Pull, e: Env, front: seq<Ref>, d: seq<Ref>)
    requires PullOk(p)
  {
    && (forall f: Seg ::
          u.lists[f] == if f == p.clsid + p.lru then Only(d, Lifted(s, e, d)) + front + Only(d, e.locked) else s.lists[f])
    && (forall x :: x in d ==> PassedHdr(s, e, x, u))
    && (forall x :: x !in d ==> (x in u.items <==> x in s.items) && (x in s.items ==> u.items[x] == s.items[x]))
    && (forall k :: k in u.index <==> k in s.index && s.index[k] !in Reaped(s, e, d))
    && (forall k :: k in u.index ==> u.index[k] == s.index[k])
    && u.handles == s.handles && u.bumps == s.bumps
  }

  // ---------------------------------------------------------------- one turn

  /** The turn has lifted x to the head of list g. */
  ghost predicate LiftedUp(s: State, t: State, x: Ref, g: Seg) {
    && x in s.items && x in t.items && t.items[x] == s.items[x].(active := false) && OnlyHdr(s.items, t.items, x)
    && ToHead(s.lists, t.lists, x, g) && t.index == s.index && t.handles == s.handles && t.bumps == s.bumps
  }

  lemma TurnReaps(s: State, x: Ref, removed: nat, p: Pull, e: Env, c: Settings)
    requires Inv(s) && x in s.items && s.items[x].linked && PullOk(p) && PastTime(s, e, x)
    ensures Live(s, x)
    ensures var w := Visit(s, x, removed, p, e, c);
            w == Walk(w.s, removed + 1, None, None) && TakenOut(s, w.s, x)
  {
    ReapAnswer(s, x);
  }

  lemma LiftTurn(s: State, x: Ref) returns (v: State)
    requires Inv(s) && x in s.items && s.items[x].linked
    ensures var t := Hold(s, x); v == Move(SetHdr(t, x, t.items[x].(active := false)), x, s.items[x].seg)
    ensures Live(s, x) && Live(v, x) && LiftedUp(s, Release(v, x), x, s.items[x].seg)
  {
    v := HeldMove(s, x, s.items[x].seg);
    ReleaseLifted(s, v, x, s.items[x].seg);
  }

  lemma TurnLifts(s: State, x: Ref, removed: nat, p: Pull, e: Env, c: Settings)
    requires Inv(s) && x in s.items && s.items[x].linked && PullOk(p) && !PastTime(s, e, x)
    requires p.lru == WARM_LRU && s.items[x].active && s.items[x].seg == p.clsid + p.lru
    ensures Live(s, x)
    ensures var w := Visit(s, x, removed, p, e, c);
            w == Walk(w.s, removed + 1, None, None) && LiftedUp(s, w.s, x, p.clsid + p.lru)
  {
    var v := LiftTurn(s, x);
  }

  lemma ReleaseLifted(s: State, u: State, x: Ref, g: Seg)
    requires Live(s, x) && x in u.items && u.items[x] == s.items[x].(active := false, refcount := s.items[x].refcount + 1)
    requires g == s.items[x].seg && OnlyHdr(s.items, u.items, x) && ToHead(s.lists, u.lists, x, g)
    requires u.index == s.index && u.handles == s.handles + multiset{x} && u.bumps == s.bumps
    ensures LiftedUp(s, Release(u, x), x, g)
  {
    assert s.handles + multiset{x} - multiset{x} == s.handles;
  }

  // ---------------------------------------------------------------- one more item passed

  lemma CutOut(a: seq<Ref>, x: Ref, b: seq<Ref>)
    requires x !in a
    ensures Without(a + [x] + b, x) == a + b
  {
    var q := a + [x] + b;
    assert q[..|a|] == a && q[|a| + 1..] == b;
    WithoutAt(q, x, |a|);
  }

  lemma OnlyMore(x: Ref, d: seq<Ref>, a: set<Ref>)
    ensures Only([x] + d, a) == (if x in a then [x] else []) + Only(d, a)
  {
    assert ([x] + d)[1..] == d;
  }

  lemma LiftedMore(s: State, e: Env, x: Ref, d: seq<Ref>)
    requires x !in d
    ensures Only([x] + d, Lifted(s, e, [x] + d)) == (if x !in e.locked && !PastTime(s, e, x) then [x] else []) + Only(d, Lifted(s, e, d))
  {
    OnlyMore(x, d, Lifted(s, e, [x] + d));
    OnlySame(d, Lifted(s, e, [x] + d), Lifted(s, e, d));
  }

  /** The list that is walked, with x next on the way, apart from what is past it. */
  ghost predicate Apart(s: State, e: Env, front: seq<Ref>, x: Ref, d: seq<Ref>) {
    x in s.items && x !in d && x !in front && forall y :: y in d ==> y in s.items
  }

  lemma PassLocked(s: State, u: State, p: Pull, e: Env, front: seq<Ref>, x: Ref, d: seq<Ref>)
    requires PullOk(p) && Swept(s, u, p, e, front + [x], d) && Apart(s, e, front, x, d) && x in e.locked
    ensures Swept(s, u, p, e, front, [x] + d)
  {
    LiftedMore(s, e, x, d);
    OnlyMore(x, d, e.locked);
    var a, b := Only(d, Lifted(s, e, d)), Only(d, e.locked);
    assert a + (front + [x]) + b == a + front + ([x] + b);
    assert [] + a == a;
    SameReaped(s, e, x, d);
  }

  lemma SameReaped(s: State, e: Env, x: Ref, d: seq<Ref>)
    ensures Reaped(s, e, [x] + d) == Reaped(s, e, d) + if x !in e.locked && PastTime(s, e, x) then {x} else {}
  {
  }

  lemma NotYet(s: State, e: Env, front: seq<Ref>, x: Ref, d: seq<Ref>)
    requires Apart(s, e, front, x, d)
    ensures x !in Only(d, Lifted(s, e, d)) && x !in Only(d, Lifted(s, e, d)) + front
  {
    OnlyHas(d, Lifted(s, e, d));
  }

  lemma ReapedLists(s: State, u: State, t: State, p: Pull, e: Env, front: seq<Ref>, x: Ref, d: seq<Ref>)
    requires PullOk(p) && Swept(s, u, p, e, front + [x], d) && Apart(s, e, front, x, d) && x !in e.locked && PastTime(s, e, x)
    requires LeftLists(u.lists, t.lists, x) && forall f: Seg :: f != p.clsid + p.lru ==> x !in s.lists[f]
    ensures var d' := [x] + d; forall f: Seg ::
              t.lists[f] == if f == p.clsid + p.lru then Only(d', Lifted(s, e, d')) + front + Only(d', e.locked) else s.lists[f]
  {
    LiftedMore(s, e, x, d);
    OnlyMore(x, d, e.locked);
    NotYet(s, e, front, x, d);
    var a, b := Only(d, Lifted(s, e, d)), Only(d, e.locked);
    assert a + (front + [x]) + b == (a + front) + [x] + b;
    CutOut(a + front, x, b);
    assert [] + a == a && [] + b == b;
    forall f: Seg | f != p.clsid + p.lru ensures t.lists[f] == s.lists[f] { WithoutAbsent(s.lists[f], x); }
  }

  lemma PassReaped(s: State, u: State, t: State, p: Pull, e: Env, front: seq<Ref>, x: Ref, d: seq<Ref>)
    requires PullOk(p) && Swept(s, u, p, e, front + [x], d) && Apart(s, e, front, x, d) && x !in e.locked && PastTime(s, e, x)
    requires Live(u, x) && TakenOut(u, t, x) && (forall f: Seg :: f != p.clsid + p.lru ==> x !in s.lists[f])
    requires (forall k :: k in u.index ==> u.index[k].key == k) && x.key in u.index && u.index[x.key] == x
    ensures Swept(s, t, p, e, front, [x] + d)
  {
    ReapedLists(s, u, t, p, e, front, x, d);
    SameReaped(s, e, x, d);
    var d' := [x] + d;
    forall y | y in d' ensures PassedHdr(s, e, y, t) {
      if y != x { assert y in d && PassedHdr(s, e, y, u); }
    }
    forall k ensures k in t.index <==> k in s.index && s.index[k] !in Reaped(s, e, d') {
      if k in u.index && u.index[k] == x { assert k == x.key; }
    }
  }

  lemma LiftSeq(a: seq<Ref>, front: seq<Ref>, x: Ref, b: seq<Ref>)
    requires x !in a + front
    ensures [x] + Without(a + (front + [x]) + b, x) == ([x] + a) + front + b
  {
    assert a + (front + [x]) + b == (a + front) + [x] + b;
    CutOut(a + front, x, b);
    assert [x] + ((a + front) + b) == ([x] + a) + front + b;
  }

  lemma LiftedLists(s: State, u: State, t: State, p: Pull, e: Env, front: seq<Ref>, x: Ref, d: seq<Ref>)
    requires PullOk(p) && Swept(s, u, p, e, front + [x], d) && Apart(s, e, front, x, d) && x !in e.locked && !PastTime(s, e, x)
    requires ToHead(u.lists, t.lists, x, p.clsid + p.lru) && forall f: Seg :: f != p.clsid + p.lru ==> x !in s.lists[f]
    ensures var d' := [x] + d; forall f: Seg ::
              t.lists[f] == if f == p.clsid + p.lru then Only(d', Lifted(s, e, d')) + front + Only(d', e.locked) else s.lists[f]
  {
    LiftedMore(s, e, x, d);
    OnlyMore(x, d, e.locked);
    NotYet(s, e, front, x, d);
    var a, b := Only(d, Lifted(s, e, d)), Only(d, e.locked);
    LiftSeq(a, front, x, b);
    assert [] + b == b;
    forall f: Seg | f != p.clsid + p.lru ensures t.lists[f] == s.lists[f] { WithoutAbsent(s.lists[f], x); }
  }

  lemma PassLifted(s: State, u: State, t: State, p: Pull, e: Env, front: seq<Ref>, x: Ref, d: seq<Ref>)
    requires PullOk(p) && Swept(s, u, p, e, front + [x], d) && Apart(s, e, front, x, d) && x !in e.locked && !PastTime(s, e, x)
    requires LiftedUp(u, t, x, p.clsid + p.lru) && (forall f: Seg :: f != p.clsid + p.lru ==> x !in s.lists[f])
    ensures Swept(s, t, p, e, front, [x] + d)
  {
    LiftedLists(s, u, t, p, e, front, x, d);
    SameReaped(s, e, x, d);
    var d' := [x] + d;
    forall y | y in d' ensures PassedHdr(s, e, y, t) {
      if y != x { assert y in d && PassedHdr(s, e, y, u); }
    }
  }
}

/** The whole of lru_pull_tail: which items it takes out, lifts, moves, evicts, hands out and leaves alone. */
module ItemsPulled {
  import opened Base
  import opened ItemsModel
  import opened ItemsParts
  import opened ItemsInv
  import opened ItemsOps
  import opened ItemsWalk
  import opened ItemsWalks
  import opened ItemsPull
  import opened ItemsAhead
  import opened ItemsSteps
  import opened ItemsTracking
  import opened ItemsRuns
  import opened ItemsAnswers
  import opened ItemsPassing

  lemma {:induction false} PrevAt(a: seq<Ref>, x: Ref, b: seq<Ref>)
    requires x !in a && x !in b
    ensures Prev(a + [x] + b, x) == if a == [] then None else Some(a[|a| - 1])
  {
    var l := a + [x] + b;
    if a == [] {
      assert l[1..] == b;
      PrevAbsent(b, x);
      if |l| >= 2 { assert l[1] == b[0] && l[1] in b; PrevHead(x, b); }
    } else if |a| > 1 {
      assert l[1] == a[1] && a[1] in a;
      assert l[1..] == a[1..] + [x] + b;
      PrevAt(a[1..], x, b);
    } else {
      assert l[1] == x;
    }
  }

  lemma {:induction false} PrevAbsent(b: seq<Ref>, x: Ref)
    requires x !in b
    ensures Prev(b, x).None?
  {
    if |b| >= 2 {
      assert b[1] in b;
      PrevAbsent(b[1..], x);
    }
  }

  lemma PrevHead(x: Ref, b: seq<Ref>)
    requires b != [] && x !in b && Prev(b, x).None?
    ensures Prev([x] + b, x).None?
  {
    assert ([x] + b)[1..] == b && ([x] + b)[1] == b[0];
  }

  /** The item the walk comes to next, with `front` in front of it on the list and d passed. */
  function NextOn(s: State, e: Env, front: seq<Ref>, d: seq<Ref>): Option<Ref> {
    var l := Only(d, Lifted(s, e, d)) + front;
    if l == [] then None else Some(l[|l| - 1])
  }

  lemma ListFacts(s: State, p: Pull, e: Env, front: seq<Ref>, x: Ref, d: seq<Ref>)
    requires Inv(s) && PullOk(p) && s.lists[p.clsid + p.lru] == front + [x] + d
    ensures Apart(s, e, front, x, d) && s.items[x].linked && s.items[x].seg == p.clsid + p.lru
    ensures forall f: Seg :: f != p.clsid + p.lru ==> x !in s.lists[f]
    ensures x.key in s.index && s.index[x.key] == x
  {
    var g := p.clsid + p.lru;
    var l := s.lists[g];
    assert NoDup(l);
    assert l[|front|] == x;
    forall i | 0 <= i < |front| ensures front[i] != x { assert l[i] == front[i]; }
    forall i | 0 <= i < |d| ensures d[i] != x && d[i] in s.items {
      assert l[|front| + 1 + i] == d[i];
      assert OnList(s.lists, g, d[i]);
    }
    assert OnList(s.lists, g, x);
    forall f: Seg | f != g ensures x !in s.lists[f] {
      if x in s.lists[f] { assert OnList(s.lists, f, x); }
    }
  }

  /** The turn for an item that the walk passes. */
  lemma PassOne(s: State, u: State, removed: nat, p: Pull, e: Env, c: Settings, front: seq<Ref>, x: Ref, d: seq<Ref>)
    requires Inv(s) && Inv(u) && PullOk(p) && s.lists[p.clsid + p.lru] == front + [x] + d
    requires Swept(s, u, p, e, front + [x], d) && Passes(s, p, e, x)
    ensures Live(u, x)
    ensures var w := Turned(u, x, removed, p, e, c);
            && w == Walk(w.s, removed + (if x in e.locked then 0 else 1), None, None)
            && Swept(s, w.s, p, e, front, [x] + d)
  {
    ListFacts(s, p, e, front, x, d);
    InvLive(u);
    if x in e.locked {
      PassLocked(s, u, p, e, front, x, d);
    } else if PastTime(s, e, x) {
      PassOneReaped(s, u, removed, p, e, c, front, x, d);
    } else {
      PassOneLifted(s, u, removed, p, e, c, front, x, d);
    }
  }

  lemma PassOneReaped(s: State, u: State, removed: nat, p: Pull, e: Env, c: Settings, front: seq<Ref>, x: Ref, d: seq<Ref>)
    requires Inv(u) && PullOk(p) && Swept(s, u, p, e, front + [x], d) && Apart(s, e, front, x, d) && s.items[x].linked
    requires (forall f: Seg :: f != p.clsid + p.lru ==> x !in s.lists[f]) && x !in e.locked && PastTime(s, e, x)
    ensures Live(u, x)
    ensures var w := Visit(u, x, removed, p, e, c);
            w == Walk(w.s, removed + 1, None, None) && Swept(s, w.s, p, e, front, [x] + d)
  {
    InvLive(u);
    TurnReaps(u, x, removed, p, e, c);
    PassReaped(s, u, Visit(u, x, removed, p, e, c).s, p, e, front, x, d);
  }

  lemma PassOneLifted(s: State, u: State, removed: nat, p: Pull, e: Env, c: Settings, front: seq<Ref>, x: Ref, d: seq<Ref>)
    requires Inv(u) && PullOk(p) && Swept(s, u, p, e, front + [x], d) && Apart(s, e, front, x, d) && s.items[x].linked
    requires (forall f: Seg :: f != p.clsid + p.lru ==> x !in s.lists[f]) && x !in e.locked && !PastTime(s, e, x)
    requires p.lru == WARM_LRU && s.items[x].active && s.items[x].seg == p.clsid + p.lru
    ensures Live(u, x)
    ensures var w := Visit(u, x, removed, p, e, c);
            w == Walk(w.s, removed + 1, None, None) && Swept(s, w.s, p, e, front, [x] + d)
  {
    TurnLifts(u, x, removed, p, e, c);
    PassLifted(s, u, Visit(u, x, removed, p, e, c).s, p, e, front, x, d);
  }

  lemma NextUpIs(s: State, u: State, p: Pull, e: Env, front: seq<Ref>, x: Ref, d: seq<Ref>)
    requires PullOk(p) && Apart(s, e, front, x, d) && Swept(s, u, p, e, front + [x], d)
    ensures NextUp(u, x, p) == NextOn(s, e, front, d)
  {
    NotYet(s, e, front, x, d);
    OnlyHas(d, e.locked);
    var a, b := Only(d, Lifted(s, e, d)), Only(d, e.locked);
    assert a + (front + [x]) + b == (a + front) + [x] + b;
    PrevAt(a + front, x, b);
  }

  // ---------------------------------------------------------------- the items on the way

  lemma TurnOn(ahead: (Walk, Option<Ref>, nat) -> bool, whole: Walk, w: Walk, x: Ref, tries: nat, p: Pull, e: Env, c: Settings)
    requires Tracks(ahead, whole, p, e, c) && ahead(w, Some(x), tries) && w.it.None? && tries > 0 && !Blocked(Some(x), p, e)
    ensures Inv(w.s) && Live(w.s, x) && PullOk(p) && ahead(Turned(w.s, x, w.removed, p, e, c), NextUp(w.s, x, p), tries - 1)
  {
    assert AheadOk(whole, w, Some(x), tries, p, e, c);
    AheadLive(whole, w, Some(x), tries, p, e, c);
    AheadStep(whole, w, x, tries, p, e, c);
  }

  lemma StillGood(ahead: (Walk, Option<Ref>, nat) -> bool, whole: Walk, w: Walk, search: Option<Ref>, tries: nat, p: Pull, e: Env, c: Settings)
    requires Tracks(ahead, whole, p, e, c) && ahead(w, search, tries) && w.it.None?
    ensures Inv(w.s)
  {
    assert AheadOk(whole, w, search, tries, p, e, c);
  }

  /** Where the walk stands when it has passed d. */
  function After(s: State, e: Env, front: seq<Ref>, d: seq<Ref>): Option<Ref> {
    if d == [] then TailOf(front) else NextOn(s, e, front, d[1..])
  }

  lemma AfterIs(s: State, e: Env, front: seq<Ref>, x: Ref, d: seq<Ref>)
    ensures After(s, e, front + [x], d) == Some(x)
  {
    if d != [] {
      var a := Only(d[1..], Lifted(s, e, d[1..]));
      assert a + (front + [x]) == (a + front) + [x];
    }
  }

  lemma NothingSwept(s: State, p: Pull, e: Env, front: seq<Ref>)
    requires PullOk(p) && s.lists[p.clsid + p.lru] == front
    ensures Swept(s, s, p, e, front, [])
  {
    assert [] + front + [] == front;
  }

  lemma LockedCount(x: Ref, d: seq<Ref>, a: set<Ref>)
    ensures |Only([x] + d, a)| == |Only(d, a)| + if x in a then 1 else 0
  {
    OnlyMore(x, d, a);
  }

  lemma {:induction false} OnlyShort(d: seq<Ref>, a: set<Ref>)
    ensures |Only(d, a)| <= |d|
  {
    if d != [] { OnlyShort(d[1..], a); }
  }

  /** How many items were taken out or lifted. */
  function Count(e: Env, d: seq<Ref>): nat {
    OnlyShort(d, e.locked);
    |d| - |Only(d, e.locked)|
  }

  lemma StandsAt(s: State, e: Env, front: seq<Ref>, x: Ref, d: seq<Ref>)
    ensures After(s, e, front, [x] + d) == NextOn(s, e, front, d)
    ensures Count(e, [x] + d) == Count(e, d) + if x in e.locked then 0 else 1
  {
    assert ([x] + d)[1..] == d;
    LockedCount(x, d, e.locked);
  }

  ghost predicate SweptWell(s: State, p: Pull, e: Env, u: State, front: seq<Ref>, d: seq<Ref>) {
    Inv(u) && PullOk(p) && Swept(s, u, p, e, front, d)
  }

  /** What has been swept, under a name that does not say what it means. */
  ghost predicate Marks(swept: (State, seq<Ref>, seq<Ref>) -> bool, s: State, p: Pull, e: Env) {
    forall u, front, d {:trigger SweptWell(s, p, e, u, front, d)} :: SweptWell(s, p, e, u, front, d) <==> swept(u, front, d)
  }

  ghost function Marker(s: State, p: Pull, e: Env): (swept: (State, seq<Ref>, seq<Ref>) -> bool)
    ensures Marks(swept, s, p, e)
  {
    (u: State, front: seq<Ref>, d: seq<Ref>) => SweptWell(s, p, e, u, front, d)
  }

  /** The turn for an item that the walk passes, and where the walk then stands. */
  lemma TurnPasses(ahead: (Walk, Option<Ref>, nat) -> bool, whole: Walk, swept: (State, seq<Ref>, seq<Ref>) -> bool, s: State, v: State,
                   removed: nat, tries: nat, p: Pull, e: Env, c: Settings, front: seq<Ref>, x: Ref, d: seq<Ref>)
    returns (w: Walk, next: Option<Ref>)
    requires Tracks(ahead, whole, p, e, c) && Marks(swept, s, p, e) && PullOk(p) && swept(s, front + [x] + d, [])
    requires s.lists[p.clsid + p.lru] == front + [x] + d && swept(v, front + [x], d)
    requires Passes(s, p, e, x) && !Blocked(Some(x), p, e)
    requires tries > 0 && ahead(Walk(v, removed, None, None), Some(x), tries)
    ensures w == Walk(w.s, removed + (if x in e.locked then 0 else 1), None, None) && Swept(s, w.s, p, e, front, [x] + d)
    ensures next == NextOn(s, e, front, d) && ahead(w, next, tries - 1)
  {
    assert SweptWell(s, p, e, v, front + [x], d) && SweptWell(s, p, e, s, front + [x] + d, []);
    TurnOn(ahead, whole, Walk(v, removed, None, None), x, tries, p, e, c);
    PassOne(s, v, removed, p, e, c, front, x, d);
    ListFacts(s, p, e, front, x, d);
    NextUpIs(s, v, p, e, front, x, d);
    w, next := Turned(v, x, removed, p, e, c), NextUp(v, x, p);
  }

  lemma WellNow(ahead: (Walk, Option<Ref>, nat) -> bool, whole: Walk, swept: (State, seq<Ref>, seq<Ref>) -> bool, s: State,
                w: Walk, next: Option<Ref>, tries: nat, p: Pull, e: Env, c: Settings, front: seq<Ref>, d: seq<Ref>)
    requires Tracks(ahead, whole, p, e, c) && ahead(w, next, tries) && w.it.None?
    requires Marks(swept, s, p, e) && PullOk(p) && Swept(s, w.s, p, e, front, d)
    ensures swept(w.s, front, d)
  {
    StillGood(ahead, whole, w, next, tries, p, e, c);
    assert SweptWell(s, p, e, w.s, front, d);
  }

  lemma SweepOne(ahead: (Walk, Option<Ref>, nat) -> bool, whole: Walk, swept: (State, seq<Ref>, seq<Ref>) -> bool, s: State, v: State,
                 removed: nat, tries: nat, p: Pull, e: Env, c: Settings, front: seq<Ref>, x: Ref, d: seq<Ref>) returns (u: State)
    requires Tracks(ahead, whole, p, e, c) && Marks(swept, s, p, e) && PullOk(p) && swept(s, front + [x] + d, [])
    requires s.lists[p.clsid + p.lru] == front + [x] + d && swept(v, front + [x], d)
    requires Passes(s, p, e, x) && !Blocked(Some(x), p, e) && tries > 0 && ahead(Walk(v, removed, None, None), Some(x), tries)
    ensures swept(u, front, [x] + d)
    ensures ahead(Walk(u, removed + (if x in e.locked then 0 else 1), None, None), NextOn(s, e, front, d), tries - 1)
  {
    var w, next := TurnPasses(ahead, whole, swept, s, v, removed, tries, p, e, c, front, x, d);
    WellNow(ahead, whole, swept, s, w, next, tries - 1, p, e, c, front, [x] + d);
    u := w.s;
  }

  lemma {:induction false} Sweep(ahead: (Walk, Option<Ref>, nat) -> bool, whole: Walk, swept: (State, seq<Ref>, seq<Ref>) -> bool,
                                 s: State, p: Pull, e: Env, c: Settings, front: seq<Ref>, d: seq<Ref>) returns (u: State)
    requires Tracks(ahead, whole, p, e, c) && Marks(swept, s, p, e) && PullOk(p) && swept(s, front + d, [])
    requires s.lists[p.clsid + p.lru] == front + d && |d| <= 5
    requires ahead(Walk(s, 0, None, None), TailOf(front + d), 5)
    requires forall i :: 0 <= i < |d| ==> Passes(s, p, e, d[i]) && !Blocked(Some(d[i]), p, e)
    ensures swept(u, front, d) && ahead(Walk(u, Count(e, d), None, None), After(s, e, front, d), 5 - |d|)
    decreases |d|
  {
    if d == [] {
      assert front + d == front;
      u := s;
    } else {
      var x, rest := d[0], d[1..];
      assert d == [x] + rest && front + d == (front + [x]) + rest;
      var v := Sweep(ahead, whole, swept, s, p, e, c, front + [x], rest);
      AfterIs(s, e, front, x, rest);
      u := SweepOne(ahead, whole, swept, s, v, Count(e, rest), 5 - |rest|, p, e, c, front, x, rest);
      StandsAt(s, e, front, x, rest);
    }
  }

  // ---------------------------------------------------------------- the item the walk stops at

  datatype Fate = Stays | Leaves | MovesTo(to: Seg)

  /** The share of the memory a HOT or WARM list may take; a HOT list without one has that of a WARM list. */
  function Share(p: Pull, c: Settings): nat {
    var warm := p.totalBytes * c.warmPct / 100;
    if p.lru == HOT_LRU && p.totalBytes * c.hotPct / 100 != 0 then p.totalBytes * c.hotPct / 100 else warm
  }

  /** What becomes of the item the walk stops at, with `bytes` on its list. */
  function FateOf(h: Hdr, bytes: int, p: Pull, e: Env, c: Settings): Fate
    requires PullOk(p)
  {
    if p.lru == COLD_LRU then
      if p.evict && c.evictToFree then Leaves
      else if !p.evict && !p.returnItem && h.active && c.segmented then MovesTo(p.clsid + WARM_LRU)
      else Stays
    else if p.lru == HOT_LRU && h.active then MovesTo(p.clsid + WARM_LRU)
    else if p.lru != TEMP_LRU && (bytes > Share(p, c) || e.now - h.time > p.maxAge) then MovesTo(p.clsid + COLD_LRU)
    else Stays
  }

  function More(keep: bool): nat {
    if keep then 1 else 0
  }

  /** Item x has had its fate; `keep` says that the call keeps its reference to it. */
  ghost predicate Dealt(u: State, t: State, x: Ref, fate: Fate, keep: bool)
    requires x in u.items && u.items[x].refcount > 0
  {
    var h := u.items[x];
    && OnlyHdr(u.items, t.items, x) && t.bumps == u.bumps
    && t.handles == (if keep then u.handles + multiset{x} else u.handles)
    && match fate
       case Stays => t.index == u.index && t.lists == u.lists && x in t.items && t.items[x] == h.(refcount := h.refcount + More(keep))
       case Leaves =>
         && t.index == u.index - {x.key} && LeftLists(u.lists, t.lists, x) && (x in t.items <==> x in u.handles || keep)
         && (x in t.items ==> t.items[x] == h.(linked := false, refcount := h.refcount - 1 + More(keep)))
       case MovesTo(g) =>
         && t.index == u.index && ToHead(u.lists, t.lists, x, g) && x in t.items
         && t.items[x] == h.(seg := g, active := false, refcount := h.refcount + More(keep))
  }

  lemma DealtStays(u: State, x: Ref, p: Pull, removed: nat, returned: Option<Ref>)
    requires Live(u, x)
    ensures Dealt(u, Finish(p, u, Walk(Hold(u, x), removed, Some(x), returned)).s, x, Stays, p.returnItem)
  {
    HoldRelease(u, x);
  }

  lemma DealtLeaves(u: State, x: Ref, p: Pull, removed: nat)
    requires Inv(u) && x in u.items && u.items[x].linked
    ensures Live(u, x) && Live(Hold(u, x), x)
    ensures Dealt(u, Finish(p, u, Walk(UnlinkItem(Hold(u, x), x), removed, Some(x), None)).s, x, Leaves, p.returnItem)
  {
    InvLive(u);
    ReapAnswer(u, x);
    HoldKeepsInv(u, x);
    UnlinkAnswer(Hold(u, x), x);
    KeptOut(u, UnlinkItem(Hold(u, x), x), x);
  }

  lemma KeptOut(u: State, v: State, x: Ref)
    requires Live(u, x) && TakenOut(Hold(u, x), v, x)
    ensures Dealt(u, v, x, Leaves, true)
  {
  }

  lemma KeptMove(u: State, v: State, x: Ref, g: Seg)
    requires Live(u, x) && x in v.items && v.items[x] == u.items[x].(seg := g, active := false, refcount := u.items[x].refcount + 1)
    requires OnlyHdr(u.items, v.items, x) && ToHead(u.lists, v.lists, x, g)
    requires v.index == u.index && v.handles == u.handles + multiset{x} && v.bumps == u.bumps
    ensures Dealt(u, v, x, MovesTo(g), true) && Live(v, x) && Dealt(u, Release(v, x), x, MovesTo(g), false)
  {
    assert u.handles + multiset{x} - multiset{x} == u.handles;
  }

  lemma DealtMoves(u: State, x: Ref, p: Pull, removed: nat, g: Seg)
    requires Inv(u) && x in u.items && u.items[x].linked
    ensures Live(u, x)
    ensures var t := Hold(u, x); var v := Move(SetHdr(t, x, t.items[x].(active := false)), x, g);
            Dealt(u, Finish(p, u, Walk(v, removed, Some(x), None)).s, x, MovesTo(g), p.returnItem)
  {
    var v := HeldMove(u, x, g);
    KeptMove(u, v, x, g);
  }

  /** The turn for an item the walk does not pass. */
  lemma StopTurn(u: State, x: Ref, removed: nat, p: Pull, e: Env, c: Settings)
    requires Inv(u) && x in u.items && u.items[x].linked && PullOk(p) && u.items[x].seg == p.clsid + p.lru && !Passes(u, p, e, x)
    ensures Live(u, x)
    ensures var w := Visit(u, x, removed, p, e, c); var fate := FateOf(u.items[x], u.bytes[p.clsid + p.lru], p, e, c);
            && w.it == Some(x) && w.removed == removed + (if fate.Stays? then 0 else 1)
            && Dealt(u, Finish(p, u, w).s, x, fate, p.returnItem)
  {
    InvLive(u);
    match FateOf(u.items[x], u.bytes[p.clsid + p.lru], p, e, c)
    case Stays => StopStays(u, x, removed, p, e, c); DealtStays(u, x, p, removed, if HandsOut(p) then Some(x) else None);
    case Leaves => StopLeaves(u, x, removed, p, e, c); DealtLeaves(u, x, p, removed + 1);
    case MovesTo(g) => StopMoves(u, x, removed, p, e, c, g); DealtMoves(u, x, p, removed + 1, g);
  }

  lemma StopLeaves(u: State, x: Ref, removed: nat, p: Pull, e: Env, c: Settings)
    requires Live(u, x) && PullOk(p) && u.items[x].seg == p.clsid + p.lru && !Passes(u, p, e, x)
    requires FateOf(u.items[x], u.bytes[p.clsid + p.lru], p, e, c).Leaves?
    ensures Visit(u, x, removed, p, e, c) == Walk(UnlinkItem(Hold(u, x), x), removed + 1, Some(x), None)
  {
  }

  lemma StopStays(u: State, x: Ref, removed: nat, p: Pull, e: Env, c: Settings)
    requires Live(u, x) && PullOk(p) && u.items[x].seg == p.clsid + p.lru && !Passes(u, p, e, x)
    requires FateOf(u.items[x], u.bytes[p.clsid + p.lru], p, e, c).Stays?
    ensures Visit(u, x, removed, p, e, c) == Walk(Hold(u, x), removed, Some(x), if HandsOut(p) then Some(x) else None)
  {
  }

  lemma StopMoves(u: State, x: Ref, removed: nat, p: Pull, e: Env, c: Settings, g: Seg)
    requires Live(u, x) && PullOk(p) && u.items[x].seg == p.clsid + p.lru && !Passes(u, p, e, x)
    requires FateOf(u.items[x], u.bytes[p.clsid + p.lru], p, e, c) == MovesTo(g)
    ensures var t := Hold(u, x);
            Visit(u, x, removed, p, e, c)
            == Walk(Move(SetHdr(t, x, t.items[x].(active := false)), x, g), removed + 1, Some(x), None)
  {
    ClassOf(p);
    var t := Hold(u, x);
    if !u.items[x].active {
      assert t.items[x].(active := false) == t.items[x];
      SameHdr(t, x);
    }
  }

  lemma ClassOf(p: Pull)
    requires PullOk(p)
    ensures Clsid(p.clsid + p.lru) == p.clsid
  {
  }

  // ---------------------------------------------------------------- the whole call

  /** How many items at the tail of the list the walk passes, of n at most. */
  function PassLen(s: State, p: Pull, e: Env, l: seq<Ref>, n: nat): (k: nat)
    ensures k <= |l| && k <= n
  {
    if n == 0 || l == [] || !Passes(s, p, e, l[|l| - 1]) then 0 else 1 + PassLen(s, p, e, l[..|l| - 1], n - 1)
  }

  lemma {:induction false} PassLenIs(s: State, p: Pull, e: Env, l: seq<Ref>, n: nat)
    ensures var k := PassLen(s, p, e, l, n);
            && (forall i :: |l| - k <= i < |l| ==> Passes(s, p, e, l[i]))
            && (k < n && k < |l| ==> !Passes(s, p, e, l[|l| - 1 - k]))
  {
    if n > 0 && l != [] && Passes(s, p, e, l[|l| - 1]) { PassLenIs(s, p, e, l[..|l| - 1], n - 1); }
  }

  /** The list is `front + d` and the walk passes d, of all lengths up to five the longest it can. */
  ghost predicate PassesAll(s: State, p: Pull, e: Env, front: seq<Ref>, d: seq<Ref>)
    requires PullOk(p)
  {
    && s.lists[p.clsid + p.lru] == front + d && |d| <= 5 && (forall i :: 0 <= i < |d| ==> Passes(s, p, e, d[i]))
    && (|d| < 5 && front != [] ==> !Passes(s, p, e, front[|front| - 1]))
  }

  /** Every list can be cut that way. */
  lemma CutsAt(s: State, p: Pull, e: Env) returns (front: seq<Ref>, d: seq<Ref>)
    requires PullOk(p)
    ensures PassesAll(s, p, e, front, d)
  {
    var l := s.lists[p.clsid + p.lru];
    var k := PassLen(s, p, e, l, 5);
    PassLenIs(s, p, e, l, 5);
    front, d := l[..|l| - k], l[|l| - k..];
    assert l == front + d;
    forall i | 0 <= i < |d| ensures Passes(s, p, e, d[i]) { assert d[i] == l[|l| - k + i]; }
  }

  /** The crawler is not among the items passed. */
  ghost predicate NoCrawler(p: Pull, e: Env, d: seq<Ref>) {
    forall i :: 0 <= i < |d| ==> !Blocked(Some(d[i]), p, e)
  }

  /** The call is a walk, and what is done at its end. */
  lemma PullIs(s: State, p: Pull, e: Env, c: Settings, l: seq<Ref>) returns (whole: Walk, ahead: (Walk, Option<Ref>, nat) -> bool)
    requires Inv(s) && PullOk(p) && s.lists[p.clsid + p.lru] == l
    ensures Tracks(ahead, whole, p, e, c) && ahead(Walk(s, 0, None, None), TailOf(l), 5)
    ensures PullTail(s, p, e, c) == Finish(p, s, whole)
  {
    whole := WalkUp(s, Start(s, p), 5, 0, p, e, c);
    ahead := Tracker(whole, p, e, c);
    TrackStart(s, Start(s, p), 5, p, e, c, whole, ahead);
  }

  /** What comes next when items were passed: an item in front of them, or else one that was lifted, which the walk meets again. */
  lemma NextIsThere(s: State, u: State, p: Pull, e: Env, front: seq<Ref>, d: seq<Ref>)
    requires Inv(s) && SweptWell(s, p, e, u, front, d) && PassesAll(s, p, e, front, d) && |d| < 5
    ensures After(s, e, front, d).Some? ==> InTheWay(u, p, e, After(s, e, front, d).value)
  {
    var swept := Marker(s, p, e);
    NothingSwept(s, p, e, front + d);
    assert SweptWell(s, p, e, s, front + d, []);
    NextMarked(swept, s, u, p, e, front, d);
  }

  lemma NextMarked(swept: (State, seq<Ref>, seq<Ref>) -> bool, s: State, u: State, p: Pull, e: Env, front: seq<Ref>, d: seq<Ref>)
    requires Marks(swept, s, p, e) && PullOk(p) && swept(s, front + d, []) && swept(u, front, d)
    requires PassesAll(s, p, e, front, d) && |d| < 5
    ensures After(s, e, front, d).Some? ==> InTheWay(u, p, e, After(s, e, front, d).value)
  {
    if front != [] {
      var f, x := front[..|front| - 1], front[|front| - 1];
      assert front == f + [x];
      InFront(s, e, front, d);
      NextInFront(swept, s, u, p, e, f, x, d);
    } else if After(s, e, front, d).Some? {
      NextLiftedAgain(swept, s, u, p, e, d);
    }
  }

  /** The item is on the list, and is not one to pass. */
  ghost predicate InTheWay(u: State, p: Pull, e: Env, x: Ref) {
    x in u.items && u.items[x].linked && u.items[x].seg == p.clsid + p.lru && !Passes(u, p, e, x)
  }

  lemma NextInFront(swept: (State, seq<Ref>, seq<Ref>) -> bool, s: State, u: State, p: Pull, e: Env, f: seq<Ref>, x: Ref, d: seq<Ref>)
    requires Marks(swept, s, p, e) && PullOk(p) && swept(s, f + [x] + d, []) && swept(u, f + [x], d)
    requires s.lists[p.clsid + p.lru] == f + [x] + d && !Passes(s, p, e, x)
    ensures InTheWay(u, p, e, x)
  {
    assert SweptWell(s, p, e, s, f + [x] + d, []) && SweptWell(s, p, e, u, f + [x], d);
    ListFacts(s, p, e, f, x, d);
    FrontStays(s, u, p, e, f, x, d);
    LinkedThere(u, p.clsid + p.lru, x);
  }

  lemma NextLiftedAgain(swept: (State, seq<Ref>, seq<Ref>) -> bool, s: State, u: State, p: Pull, e: Env, d: seq<Ref>)
    requires Marks(swept, s, p, e) && swept(u, [], d) && After(s, e, [], d).Some? && forall i :: 0 <= i < |d| ==> Passes(s, p, e, d[i])
    ensures InTheWay(u, p, e, After(s, e, [], d).value)
  {
    assert SweptWell(s, p, e, u, [], d);
    LiftedIsNext(s, u, p, e, d);
    LinkedThere(u, p.clsid + p.lru, After(s, e, [], d).value);
  }

  lemma FrontStays(s: State, u: State, p: Pull, e: Env, f: seq<Ref>, x: Ref, d: seq<Ref>)
    requires PullOk(p) && Swept(s, u, p, e, f + [x], d) && x in s.items && x !in d && !Passes(s, p, e, x)
    ensures x in u.lists[p.clsid + p.lru] && !Passes(u, p, e, x)
  {
    assert x in f + [x];
  }

  lemma LinkedThere(u: State, g: Seg, x: Ref)
    requires Inv(u) && x in u.lists[g]
    ensures x in u.items && u.items[x].linked && u.items[x].seg == g
  {
    assert OnList(u.lists, g, x);
  }

  lemma InFront(s: State, e: Env, front: seq<Ref>, d: seq<Ref>)
    requires front != []
    ensures After(s, e, front, d) == Some(front[|front| - 1])
  {
    var f := front[..|front| - 1];
    assert front == f + [front[|front| - 1]];
    AfterIs(s, e, f, front[|front| - 1], d);
  }

  lemma LiftedIsNext(s: State, u: State, p: Pull, e: Env, d: seq<Ref>)
    requires PullOk(p) && Swept(s, u, p, e, [], d) && After(s, e, [], d).Some? && (forall i :: 0 <= i < |d| ==> Passes(s, p, e, d[i]))
    ensures var x := After(s, e, [], d).value; x in Lifted(s, e, d) && x in u.lists[p.clsid + p.lru] && !Passes(u, p, e, x)
  {
    var rest := d[1..];
    var l := Only(rest, Lifted(s, e, rest));
    assert l + [] == l;
    var x := l[|l| - 1];
    OnlyHas(rest, Lifted(s, e, rest));
    assert x in rest && x in d;
    OnlyHas(d, Lifted(s, e, d));
    assert PassedHdr(s, e, x, u);
  }

  /** What the call answers and leaves, u being the state with the items passed: the item next in its way has its fate. */
  ghost predicate Pulled(s: State, u: State, p: Pull, e: Env, c: Settings, front: seq<Ref>, d: seq<Ref>, r: Walk)
    requires PullOk(p)
  {
    var next := After(s, e, front, d);
    if |d| == 5 || next.None? then r == Walk(u, Count(e, d), None, None)
    else
      var x := next.value;
      && x in u.items && u.items[x].refcount > 0 && r.it == Some(x) && r.returned == (if HandsOut(p) then Some(x) else None)
      && var fate := FateOf(u.items[x], Weight(u.lists[p.clsid + p.lru]), p, e, c);
      && Dealt(u, r.s, x, fate, p.returnItem) && r.removed == Count(e, d) + if fate.Stays? then 0 else 1
  }

  lemma VisitEnds(u: State, x: Ref, removed: nat, p: Pull, e: Env, c: Settings)
    requires Inv(u) && x in u.items && u.items[x].linked && PullOk(p) && u.items[x].seg == p.clsid + p.lru && !Passes(u, p, e, x)
    ensures Live(u, x) && Visit(u, x, removed, p, e, c).it == Some(x)
  {
    StopTurn(u, x, removed, p, e, c);
  }

  lemma StopsThere(ahead: (Walk, Option<Ref>, nat) -> bool, whole: Walk, u: State, x: Ref, removed: nat, tries: nat, p: Pull, e: Env, c: Settings)
    requires Tracks(ahead, whole, p, e, c) && tries > 0 && ahead(Walk(u, removed, None, None), Some(x), tries) && !Blocked(Some(x), p, e)
    requires PullOk(p) && x in u.items && u.items[x].linked && u.items[x].seg == p.clsid + p.lru && !Passes(u, p, e, x)
    ensures Inv(u) && Live(u, x) && whole == Visit(u, x, removed, p, e, c)
  {
    TurnOn(ahead, whole, Walk(u, removed, None, None), x, tries, p, e, c);
    VisitEnds(u, x, removed, p, e, c);
    TrackEnd(ahead, whole, Visit(u, x, removed, p, e, c), NextUp(u, x, p), tries - 1, p, e, c);
  }

  lemma FinishIgnores(p: Pull, s: State, u: State, w: Walk)
    ensures Finish(p, s, w) == Finish(p, u, w)
  {
  }

  lemma CountedBytes(u: State, g: Seg)
    requires Inv(u)
    ensures u.bytes[g] == Weight(u.lists[g])
  {
  }

  lemma StopAnswer(s: State, u: State, x: Ref, removed: nat, p: Pull, e: Env, c: Settings, whole: Walk)
    requires Inv(u) && x in u.items && u.items[x].linked && PullOk(p) && u.items[x].seg == p.clsid + p.lru && !Passes(u, p, e, x)
    requires Live(u, x) && whole == Visit(u, x, removed, p, e, c)
    ensures var r := Finish(p, s, whole); var fate := FateOf(u.items[x], Weight(u.lists[p.clsid + p.lru]), p, e, c);
            && r.it == Some(x) && r.returned == (if HandsOut(p) then Some(x) else None)
            && Dealt(u, r.s, x, fate, p.returnItem) && r.removed == removed + if fate.Stays? then 0 else 1
  {
    StopTurn(u, x, removed, p, e, c);
    VisitReturns(u, x, removed, p, e, c);
    FinishIgnores(p, s, u, whole);
    CountedBytes(u, p.clsid + p.lru);
  }

  lemma AnswerFrom(swept: (State, seq<Ref>, seq<Ref>) -> bool, s: State, p: Pull, e: Env, c: Settings, front: seq<Ref>, d: seq<Ref>,
                   whole: Walk, ahead: (Walk, Option<Ref>, nat) -> bool) returns (u: State)
    requires Marks(swept, s, p, e) && PullOk(p) && swept(s, front + d, []) && PassesAll(s, p, e, front, d)
    requires NoCrawler(p, e, d) && (|d| < 5 ==> !Blocked(After(s, e, front, d), p, e))
    requires Tracks(ahead, whole, p, e, c) && ahead(Walk(s, 0, None, None), TailOf(front + d), 5)
    ensures swept(u, front, d) && Pulled(s, u, p, e, c, front, d, Finish(p, s, whole))
  {
    u := Sweep(ahead, whole, swept, s, p, e, c, front, d);
    var next := After(s, e, front, d);
    if |d| == 5 || next.None? {
      TrackEnd(ahead, whole, Walk(u, Count(e, d), None, None), next, 5 - |d|, p, e, c);
    } else {
      NextMarked(swept, s, u, p, e, front, d);
      StopsThere(ahead, whole, u, next.value, Count(e, d), 5 - |d|, p, e, c);
      StopAnswer(s, u, next.value, Count(e, d), p, e, c, whole);
    }
  }

  /**
   * The answer to any call that the crawler does not stop: at most five items from the tail on are passed, and the one
   * after them has its fate.
   */
  lemma PullAnswer(s: State, p: Pull, e: Env, c: Settings, front: seq<Ref>, d: seq<Ref>) returns (u: State)
    requires Inv(s) && PullOk(p) && PassesAll(s, p, e, front, d)
    requires NoCrawler(p, e, d) && (|d| < 5 ==> !Blocked(After(s, e, front, d), p, e))
    ensures SweptWell(s, p, e, u, front, d) && Pulled(s, u, p, e, c, front, d, PullTail(s, p, e, c))
  {
    var whole, ahead := PullIs(s, p, e, c, front + d);
    var swept := Marker(s, p, e);
    NothingSwept(s, p, e, front + d);
    assert SweptWell(s, p, e, s, front + d, []);
    u := AnswerFrom(swept, s, p, e, c, front, d, whole, ahead);
    assert SweptWell(s, p, e, u, front, d) <==> swept(u, front, d);
  }

  /** A call that gives way to the crawler: what it has passed stays done, and it answers that it has done nothing. */
  lemma PullBlocked(s: State, p: Pull, e: Env, c: Settings, front: seq<Ref>, d: seq<Ref>) returns (u: State)
    requires Inv(s) && PullOk(p) && s.lists[p.clsid + p.lru] == front + d && |d| < 5
    requires NoCrawler(p, e, d) && (forall i :: 0 <= i < |d| ==> Passes(s, p, e, d[i])) && Blocked(After(s, e, front, d), p, e)
    ensures SweptWell(s, p, e, u, front, d) && PullTail(s, p, e, c) == Walk(u, 0, None, None)
  {
    var whole, ahead := PullIs(s, p, e, c, front + d);
    var swept := Marker(s, p, e);
    NothingSwept(s, p, e, front + d);
    assert SweptWell(s, p, e, s, front + d, []);
    u := BlockedFrom(swept, s, p, e, c, front, d, whole, ahead);
    assert SweptWell(s, p, e, u, front, d) <==> swept(u, front, d);
  }

  lemma BlockedFrom(swept: (State, seq<Ref>, seq<Ref>) -> bool, s: State, p: Pull, e: Env, c: Settings, front: seq<Ref>, d: seq<Ref>,
                    whole: Walk, ahead: (Walk, Option<Ref>, nat) -> bool) returns (u: State)
    requires Marks(swept, s, p, e) && PullOk(p) && swept(s, front + d, []) && s.lists[p.clsid + p.lru] == front + d && |d| < 5
    requires NoCrawler(p, e, d) && (forall i :: 0 <= i < |d| ==> Passes(s, p, e, d[i])) && Blocked(After(s, e, front, d), p, e)
    requires Tracks(ahead, whole, p, e, c) && ahead(Walk(s, 0, None, None), TailOf(front + d), 5)
    ensures swept(u, front, d) && Finish(p, s, whole) == Walk(u, 0, None, None)
  {
    u := Sweep(ahead, whole, swept, s, p, e, c, front, d);
    EndsBlocked(ahead, whole, u, Count(e, d), After(s, e, front, d), 5 - |d|, p, e, c);
    FinishNothing(p, s, whole);
  }

  lemma FinishNothing(p: Pull, s: State, w: Walk)
    requires w.it.None?
    ensures Finish(p, s, w) == w
  {
  }

  lemma EndsBlocked(ahead: (Walk, Option<Ref>, nat) -> bool, whole: Walk, u: State, removed: nat, search: Option<Ref>, tries: nat,
                    p: Pull, e: Env, c: Settings)
    requires Tracks(ahead, whole, p, e, c) && ahead(Walk(u, removed, None, None), search, tries) && tries > 0 && Blocked(search, p, e)
    ensures whole == Walk(u, 0, None, None)
  {
    TrackEnd(ahead, whole, Walk(u, removed, None, None), search, tries, p, e, c);
  }

  // ---------------------------------------------------------------- what follows for single items

  /** The crawler is not in the way of the call. */
  ghost predicate Unblocked(s: State, p: Pull, e: Env, front: seq<Ref>, d: seq<Ref>)
    requires PullOk(p)
  {
    PassesAll(s, p, e, front, d) && NoCrawler(p, e, d) && (|d| < 5 ==> !Blocked(After(s, e, front, d), p, e))
  }

  lemma NothingLifted(s: State, p: Pull, e: Env, d: seq<Ref>)
    requires p.lru != WARM_LRU && forall i :: 0 <= i < |d| ==> Passes(s, p, e, d[i])
    ensures Only(d, Lifted(s, e, d)) == []
  {
    assert forall x :: x in d ==> x !in Lifted(s, e, d);
    OnlyNone(d, Lifted(s, e, d));
  }

  /** What is next in the way of the walk is on the list, once, and is not passed. */
  ghost predicate NextOk(u: State, p: Pull, e: Env, next: Option<Ref>)
    requires PullOk(p)
  {
    next.Some? ==>
      && next.value in u.items && u.items[next.value].linked && u.items[next.value].seg == p.clsid + p.lru
      && NoDup(u.lists[p.clsid + p.lru]) && next.value in u.lists[p.clsid + p.lru] && !Passes(u, p, e, next.value)
  }

  lemma PullParts(s: State, p: Pull, e: Env, c: Settings, front: seq<Ref>, d: seq<Ref>) returns (u: State, r: Walk)
    requires Inv(s) && PullOk(p) && Unblocked(s, p, e, front, d)
    ensures r == PullTail(s, p, e, c) && Swept(s, u, p, e, front, d) && Pulled(s, u, p, e, c, front, d, r)
    ensures |d| < 5 ==> NextOk(u, p, e, After(s, e, front, d))
  {
    u := PullAnswer(s, p, e, c, front, d);
    r := PullTail(s, p, e, c);
    if |d| < 5 { NextIsOk(s, u, p, e, front, d); }
  }

  lemma NextIsOk(s: State, u: State, p: Pull, e: Env, front: seq<Ref>, d: seq<Ref>)
    requires Inv(s) && PullOk(p) && SweptWell(s, p, e, u, front, d) && PassesAll(s, p, e, front, d) && |d| < 5
    ensures NextOk(u, p, e, After(s, e, front, d))
  {
    NextIsThere(s, u, p, e, front, d);
    var next := After(s, e, front, d);
    if next.Some? { assert OnList(u.lists, p.clsid + p.lru, next.value); }
  }

  lemma DealtLength(u: State, t: State, x: Ref, fate: Fate, keep: bool, g: Seg)
    requires x in u.items && u.items[x].refcount > 0 && NoDup(u.lists[g]) && x in u.lists[g]
    requires Dealt(u, t, x, fate, keep) && (fate.MovesTo? ==> fate.to != g)
    ensures |t.lists[g]| == |u.lists[g]| - if fate.Stays? then 0 else 1
  {
    WithoutIsRemoval(u.lists[g], x);
  }

  lemma CountsFrom(s: State, u: State, p: Pull, e: Env, c: Settings, front: seq<Ref>, d: seq<Ref>, r: Walk)
    requires PullOk(p) && p.lru != WARM_LRU && PassesAll(s, p, e, front, d)
    requires Swept(s, u, p, e, front, d) && Pulled(s, u, p, e, c, front, d, r)
    requires |d| < 5 ==> NextOk(u, p, e, After(s, e, front, d))
    ensures r.removed == |s.lists[p.clsid + p.lru]| - |r.s.lists[p.clsid + p.lru]|
  {
    var g := p.clsid + p.lru;
    NothingLifted(s, p, e, d);
    assert u.lists[g] == [] + front + Only(d, e.locked);
    var next := After(s, e, front, d);
    if |d| < 5 && next.Some? {
      DealtLength(u, r.s, next.value, FateOf(u.items[next.value], Weight(u.lists[g]), p, e, c), p.returnItem, g);
    }
  }

  /** On every list but a WARM one the answer is how much shorter the list has become. */
  lemma PullCounts(s: State, p: Pull, e: Env, c: Settings, front: seq<Ref>, d: seq<Ref>)
    requires Inv(s) && PullOk(p) && p.lru != WARM_LRU && Unblocked(s, p, e, front, d)
    ensures var r := PullTail(s, p, e, c); r.removed == |s.lists[p.clsid + p.lru]| - |r.s.lists[p.clsid + p.lru]|
  {
    var u, r := PullParts(s, p, e, c, front, d);
    CountsFrom(s, u, p, e, c, front, d, r);
  }

  /** An eviction: the item the call stops at is found under no key and is on no list, and is freed unless somebody holds it. */
  lemma EvictedIsGone(s: State, p: Pull, e: Env, c: Settings, front: seq<Ref>, d: seq<Ref>)
    requires Inv(s) && PullOk(p) && p.lru == COLD_LRU && p.evict && c.evictToFree && Unblocked(s, p, e, front, d)
    requires front != [] && |d| < 5
    ensures var r := PullTail(s, p, e, c); var x := front[|front| - 1];
            && r.it == Some(x) && x.key !in r.s.index && (forall g: Seg :: x !in r.s.lists[g])
            && (x in r.s.items <==> x in s.handles || p.returnItem)
  {
    var u := PullAnswer(s, p, e, c, front, d);
    InFront(s, e, front, d);
    NextIsThere(s, u, p, e, front, d);
    var x := front[|front| - 1];
    OffEveryList(u, PullTail(s, p, e, c).s, x);
  }

  lemma OffEveryList(u: State, t: State, x: Ref)
    requires Inv(u) && LeftLists(u.lists, t.lists, x)
    ensures forall g: Seg :: x !in t.lists[g]
  {
    forall g: Seg ensures x !in t.lists[g] { WithoutIsRemoval(u.lists[g], x); }
  }

  /** The list an item moves to: active HOT and COLD items to WARM, idle HOT and WARM items to COLD, always of the same class. */
  ghost predicate MayMove(h: Hdr, p: Pull, to: Seg) {
    && (p.lru == HOT_LRU && h.active ==> to == p.clsid + WARM_LRU)
    && (p.lru == HOT_LRU && !h.active ==> to == p.clsid + COLD_LRU)
    && (p.lru == WARM_LRU ==> to == p.clsid + COLD_LRU)
    && (p.lru == COLD_LRU ==> h.active && to == p.clsid + WARM_LRU)
    && p.lru != TEMP_LRU
  }

  /** Item y after a call that has not taken it out as past its time. */
  ghost predicate KeptOrMoved(s: State, p: Pull, e: Env, c: Settings, d: seq<Ref>, y: Ref, r: Walk)
    requires y in s.items
  {
    if r.it != Some(y) then
      y in r.s.items && r.s.items[y] == s.items[y].(active := s.items[y].active && y !in Lifted(s, e, d))
    else if p.lru == COLD_LRU && p.evict && c.evictToFree then y in r.s.items ==> !r.s.items[y].linked
    else && y in r.s.items && r.s.items[y].linked
         && (r.s.items[y].seg == s.items[y].seg || MayMove(s.items[y], p, r.s.items[y].seg))
  }

  lemma KeptFrom(s: State, u: State, p: Pull, e: Env, c: Settings, front: seq<Ref>, d: seq<Ref>, y: Ref, r: Walk)
    requires PullOk(p) && PassesAll(s, p, e, front, d) && y in s.items && y !in Reaped(s, e, d)
    requires Swept(s, u, p, e, front, d) && Pulled(s, u, p, e, c, front, d, r)
    requires |d| < 5 ==> NextOk(u, p, e, After(s, e, front, d))
    ensures KeptOrMoved(s, p, e, c, d, y, r)
  {
    if y in d { assert PassedHdr(s, e, y, u); }
    if y in Lifted(s, e, d) { LiftedWasActive(s, p, e, d, y); }
  }

  /**
   * Every item that is on some list and is not past its time is on a list afterwards, unless it is the one evicted. If
   * that is another list, it is the item the call stops at. Every other item keeps its header, but for the active flag of
   * an item lifted.
   */
  lemma PullKeepsOthers(s: State, p: Pull, e: Env, c: Settings, front: seq<Ref>, d: seq<Ref>, y: Ref)
    requires Inv(s) && PullOk(p) && Unblocked(s, p, e, front, d) && y in s.items && y !in Reaped(s, e, d)
    ensures KeptOrMoved(s, p, e, c, d, y, PullTail(s, p, e, c))
  {
    var u, r := PullParts(s, p, e, c, front, d);
    KeptFrom(s, u, p, e, c, front, d, y, r);
  }

  lemma LiftedWasActive(s: State, p: Pull, e: Env, d: seq<Ref>, y: Ref)
    requires y in Lifted(s, e, d) && forall i :: 0 <= i < |d| ==> Passes(s, p, e, d[i])
    ensures y in s.items && s.items[y].active && p.lru == WARM_LRU
  {
  }

  // ---------------------------------------------------------------- an item lifted, and met again

  /** The list is shorter than five and the walk passes all of it, y is the last item of it that is lifted, bar the first. */
  ghost predicate MetAgain(s: State, e: Env, front: seq<Ref>, d: seq<Ref>, y: Ref) {
    front == [] && 0 < |d| < 5 && var l := Only(d[1..], Lifted(s, e, d[1..])); l != [] && l[|l| - 1] == y
  }

  /** What is left on the list is more than its share, or the item has not been touched for longer than it may. */
  ghost predicate TooMuch(s: State, p: Pull, e: Env, c: Settings, front: seq<Ref>, d: seq<Ref>, y: Ref)
    requires y in s.items
  {
    || Weight(Only(d, Lifted(s, e, d)) + front + Only(d, e.locked)) > p.totalBytes * c.warmPct / 100
    || e.now - s.items[y].time > p.maxAge
  }

  /**
   * An active WARM item that the walk lifts is to stay on its list. It does, unless the walk meets it again within the
   * same call: then it is not active any more, and goes to COLD if there is too much.
   */
  lemma LiftedStaysIff(s: State, p: Pull, e: Env, c: Settings, front: seq<Ref>, d: seq<Ref>, y: Ref)
    requires Inv(s) && PullOk(p) && p.lru == WARM_LRU && Unblocked(s, p, e, front, d) && y in Lifted(s, e, d)
    ensures y in s.items && s.items[y].active && s.items[y].seg == p.clsid + WARM_LRU
    ensures var r := PullTail(s, p, e, c);
            && y in r.s.items && !r.s.items[y].active
            && (r.s.items[y].seg == p.clsid + WARM_LRU <==> !(MetAgain(s, e, front, d, y) && TooMuch(s, p, e, c, front, d, y)))
            && (r.s.items[y].seg != p.clsid + WARM_LRU ==> r.s.items[y].seg == p.clsid + COLD_LRU)
  {
    var u, r := PullParts(s, p, e, c, front, d);
    LiftedWasActive(s, p, e, d, y);
    LiftedSeg(s, p, e, front, d, y);
    if front != [] { FrontIsNotPassed(s, p, e, front, d, y); }
    LiftedFrom(s, u, p, e, c, front, d, y, r);
  }

  lemma LiftedFrom(s: State, u: State, p: Pull, e: Env, c: Settings, front: seq<Ref>, d: seq<Ref>, y: Ref, r: Walk)
    requires PullOk(p) && p.lru == WARM_LRU && y in Lifted(s, e, d) && y in s.items && s.items[y].seg == p.clsid + WARM_LRU
    requires Swept(s, u, p, e, front, d) && Pulled(s, u, p, e, c, front, d, r) && (front != [] ==> After(s, e, front, d) != Some(y))
    requires |d| <= 5
    ensures y in r.s.items && !r.s.items[y].active
    ensures r.s.items[y].seg == if MetAgain(s, e, front, d, y) && TooMuch(s, p, e, c, front, d, y) then p.clsid + COLD_LRU
                                else p.clsid + WARM_LRU
  {
    assert PassedHdr(s, e, y, u);
    NextLifted(s, e, front, d, y);
  }

  lemma LiftedSeg(s: State, p: Pull, e: Env, front: seq<Ref>, d: seq<Ref>, y: Ref)
    requires Inv(s) && PullOk(p) && s.lists[p.clsid + p.lru] == front + d && y in d
    ensures y in s.items && s.items[y].linked && s.items[y].seg == p.clsid + p.lru
  {
    assert OnList(s.lists, p.clsid + p.lru, y);
  }

  lemma NextLifted(s: State, e: Env, front: seq<Ref>, d: seq<Ref>, y: Ref)
    requires y in d
    ensures front == [] && |d| < 5 ==> (After(s, e, front, d) == Some(y) <==> MetAgain(s, e, front, d, y))
  {
    var l := Only(d[1..], Lifted(s, e, d[1..]));
    assert l + [] == l;
  }

  lemma FrontIsNotPassed(s: State, p: Pull, e: Env, front: seq<Ref>, d: seq<Ref>, y: Ref)
    requires Inv(s) && PullOk(p) && s.lists[p.clsid + p.lru] == front + d && front != [] && y in d
    ensures After(s, e, front, d) != Some(y)
  {
    InFront(s, e, front, d);
    var f := front[..|front| - 1];
    assert front == f + [front[|front| - 1]];
    ListFacts(s, p, e, f, front[|front| - 1], d);
  }

  /** Two linked items, the one at the tail active. */
  function TwoItems(x: Ref, y: Ref, g: Seg): State {
    var s := Release(LinkItem(AllocItem(OneItem(x, g), y, g, 0), y, 0), y);
    SetHdr(s, x, Hdr(true, 1, g, true, true, 0, 0))
  }

  /** One more item, linked and released. */
  lemma OneMore(s: State, y: Ref, g: Seg)
    requires Inv(s) && (forall z :: z in s.items ==> z.addr != y.addr) && y.key !in s.index && s.bumps == [] && s.handles == multiset{}
    ensures var t := LinkItem(AllocItem(s, y, g, 0), y, 0);
            Live(t, y) && Inv(Release(t, y)) && Release(t, y).lists[g] == [y] + s.lists[g] && y in Release(t, y).items
            && forall z :: z in s.items ==> z in Release(t, y).items && Release(t, y).items[z] == s.items[z]
  {
    AllocKeepsInv(s, y, g, 0);
    LinkKeepsInv(AllocItem(s, y, g, 0), y, 0);
    ReleaseKeepsInv(LinkItem(AllocItem(s, y, g, 0), y, 0), y);
  }

  lemma TwoFromOne(s: State, x: Ref, y: Ref, g: Seg, t: State, h: Hdr)
    requires Inv(s) && s.items.Keys == {x} && s.index.Keys == {x.key} && s.bumps == [] && s.handles == multiset{} && s.lists[g] == [x]
    requires x.addr != y.addr && x.key != y.key && h == s.items[x].(fetched := true, active := true)
    requires Live(LinkItem(AllocItem(s, y, g, 0), y, 0), y)
    requires t == SetHdr(Release(LinkItem(AllocItem(s, y, g, 0), y, 0), y), x, h)
    ensures Inv(t) && t.lists[g] == [y, x] && x in t.items && t.items[x] == h && y in t.items
  {
    OneMore(s, y, g);
    SetHdrKeepsInv(Release(LinkItem(AllocItem(s, y, g, 0), y, 0), y), x, h);
  }

  lemma TwoItemsAre(x: Ref, y: Ref, g: Seg)
    requires x.addr != y.addr && x.key != y.key
    ensures Inv(TwoItems(x, y, g)) && TwoItems(x, y, g).lists[g] == [y, x]
    ensures x in TwoItems(x, y, g).items && TwoItems(x, y, g).items[x] == Hdr(true, 1, g, true, true, 0, 0)
    ensures y in TwoItems(x, y, g).items
  {
    OneItemIs(x, g);
    OnlyOneItem(x, g);
    TwoFromOne(OneItem(x, g), x, y, g, TwoItems(x, y, g), Hdr(true, 1, g, true, true, 0, 0));
  }

  lemma OnlyOneItem(x: Ref, g: Seg)
    ensures OneItem(x, g).items.Keys == {x} && OneItem(x, g).index.Keys == {x.key}
    ensures OneItem(x, g).handles == multiset{} && OneItem(x, g).bumps == []
  {
  }

  lemma TailIsMetAgain(s: State, x: Ref, y: Ref, p: Pull, e: Env, c: Settings)
    requires PullOk(p) && p.lru == WARM_LRU && p.maxAge < 10 && e == Env(10, {}, {y}, None)
    requires s.lists[p.clsid + p.lru] == [y, x] && x in s.items && y in s.items && x != y
    requires s.items[x] == Hdr(true, 1, p.clsid + p.lru, true, true, 0, 0)
    ensures Unblocked(s, p, e, [], [y, x]) && x in Lifted(s, e, [y, x])
    ensures MetAgain(s, e, [], [y, x], x) && TooMuch(s, p, e, c, [], [y, x], x)
  {
    var d := [y, x];
    assert [] + d == d && d[1..] == [x] && [x][1..] == [];
    assert x in Lifted(s, e, [x]);
    assert Only([x], Lifted(s, e, [x])) == [x];
  }

  /** The tail of a WARM list of two, active and lifted, with the other item locked: in the same call it goes to COLD. */
  lemma LiftedIsDemoted(x: Ref, y: Ref, p: Pull, c: Settings, s: State)
    requires x.addr != y.addr && x.key != y.key && PullOk(p) && p.lru == WARM_LRU && p.maxAge < 10
    requires s == TwoItems(x, y, p.clsid + WARM_LRU)
    ensures Inv(s)
    ensures var r := PullTail(s, p, Env(10, {}, {y}, None), c); x in r.s.items && r.s.items[x].seg == p.clsid + COLD_LRU
  {
    TwoItemsAre(x, y, p.clsid + WARM_LRU);
    DemotedIn(s, x, y, p, Env(10, {}, {y}, None), c);
  }

  lemma DemotedIn(s: State, x: Ref, y: Ref, p: Pull, e: Env, c: Settings)
    requires PullOk(p) && p.lru == WARM_LRU && p.maxAge < 10 && e == Env(10, {}, {y}, None)
    requires Inv(s) && s.lists[p.clsid + p.lru] == [y, x] && x in s.items && y in s.items && x != y
    requires s.items[x] == Hdr(true, 1, p.clsid + p.lru, true, true, 0, 0)
    ensures var r := PullTail(s, p, e, c); x in r.s.items && r.s.items[x].seg == p.clsid + COLD_LRU
  {
    TailIsMetAgain(s, x, y, p, e, c);
    LiftedStaysIff(s, p, e, c, [], [y, x], x);
  }
}
