/**
 * Response objects carved out of bundles (resp_allocate and resp_free in memcached_SendBuffer.c). A thread keeps
 * the bundles that have a free slot on a doubly linked list and hands out slots of the one at its head.
 */
module BundleItems {
  import opened Base

  class Bundle {
    var prev: Bundle?
    var next: Bundle?
    var free: seq<bool>
    var refcount: nat
    var nextCheck: nat

    /** A new bundle as resp_allocate leaves it: the first slot is taken. */
    constructor (slots: nat)
      requires slots > 0
      ensures prev == null && next == null && refcount == 1 && nextCheck == 1
      ensures free == seq(slots, i => true)[0 := false]
    {
      prev, next, refcount, nextCheck := null, null, 1, 1;
      free := seq(slots, i => true)[0 := false];
    }
  }

  ghost predicate At(q: seq<Bundle>, i: nat)
    requires i < |q|
    reads q`prev, q`next
  {
    && q[i].prev == (if i == 0 then null else q[i - 1])
    && q[i].next == (if i == |q| - 1 then null else q[i + 1])
  }

  ghost predicate Linked(q: seq<Bundle>)
    reads q`prev, q`next
  {
    NoDup(q) && forall i :: 0 <= i < |q| ==> At(q, i)
  }

  ghost function Removed(q: seq<Bundle>, i: nat): (r: seq<Bundle>)
    requires i < |q|
    ensures |r| == |q| - 1 && forall j :: 0 <= j < |r| ==> r[j] == if j < i then q[j] else q[j + 1]
  {
    q[..i] + q[i + 1..]
  }

  lemma RemovedMembers(q: seq<Bundle>, i: nat)
    requires NoDup(q) && i < |q|
    ensures NoDup(Removed(q, i)) && forall c :: c in Removed(q, i) <==> c in q && c != q[i]
  {
    var r := Removed(q, i);
    forall c | c in q && c != q[i] ensures c in r {
      var j :| 0 <= j < |q| && q[j] == c;
      assert r[if j < i then j else j - 1] == c;
    }
  }

  /** The slots in use. */
  function Used(s: seq<bool>): nat {
    if s == [] then 0 else (if s[0] then 0 else 1) + Used(s[1..])
  }

  lemma {:induction false} UsedUpdate(s: seq<bool>, x: nat, v: bool)
    requires x < |s|
    ensures Used(s[x := v]) == Used(s) + (if v == s[x] then 0 else if v then -1 else 1)
  {
    if x == 0 {
      assert s[x := v][1..] == s[1..];
    } else {
      UsedUpdate(s[1..], x - 1, v);
      assert s[x := v][1..] == s[1..][x - 1 := v];
    }
  }

  lemma {:induction false} UsedBound(s: seq<bool>)
    ensures Used(s) <= |s|
    ensures Used(s) == |s| <==> forall x :: 0 <= x < |s| ==> !s[x]
  {
    if s != [] {
      UsedBound(s[1..]);
      assert forall x :: 0 <= x < |s[1..]| ==> s[1..][x] == s[x + 1];
      if Used(s) == |s| {
        forall x | 0 <= x < |s| ensures !s[x] { if x > 0 { assert !s[1..][x - 1]; } }
      }
    }
  }

  lemma {:induction false} UsedOfFree(n: nat)
    ensures Used(seq(n, i => true)) == 0
  {
    if n > 0 {
      UsedOfFree(n - 1);
      assert seq(n, i => true)[1..] == seq(n - 1, i => true);
    }
  }

  /** The place the search looks at in turn i: every slot once, starting at `check`. */
  function Turn(i: nat, check: nat, n: nat): nat
    requires n > 0
  {
    (i + check) % n
  }

  lemma TurnIs(i: nat, check: nat, n: nat)
    requires i < n && check <= n
    ensures Turn(i, check, n) == if i + check < n then i + check else i + check - n
  {
    var k := i + check;
    if k < n {
      assert k % n == k;
    } else {
      assert k / n == 1;
    }
  }

  lemma TurnCovers(y: nat, check: nat, n: nat) returns (i: nat)
    requires y < n && check <= n
    ensures i < n && Turn(i, check, n) == y
  {
    i := if y >= check then y - check else y - check + n;
    TurnIs(i, check, n);
  }
}

module Bundles {
  import opened Base
  import opened BundleItems

  class Thread {
    const slots: nat
    var openBundle: Bundle?
    ghost var list: seq<Bundle>
    ghost var all: set<Bundle>

    ghost predicate Shape()
      reads this`openBundle, this`list, list`prev, list`next
    {
      Linked(list) && openBundle == (if list == [] then null else list[0])
    }

    constructor (n: nat)
      requires n >= 2
      ensures Valid() && slots == n && all == {}
    {
      slots, openBundle, list, all := n, null, [], {};
    }

    /** Its count is the number of its slots in use, and it is on the list exactly when one of them is free. */
    ghost predicate BundleOk(b: Bundle)
      reads this, b
    {
      && |b.free| == slots && b.refcount == Used(b.free) && b.nextCheck <= slots
      && (b in list <==> b.refcount < slots)
      && (b !in list ==> b.prev == null && b.next == null)
    }

    /** Only the last bundle of the list may be empty. */
    ghost predicate EmptyLast()
      reads this, list
    {
      forall i :: 0 <= i < |list| - 1 ==> list[i].refcount > 0
    }

    ghost predicate Valid()
      reads this, all, list
    {
      && slots >= 2 && Shape() && EmptyLast()
      && (forall b :: b in list ==> b in all)
      && (forall b :: b in all ==> BundleOk(b))
    }

    /** The bundle at the head has no free slot left. */
    method PopHead()
      requires Shape() && list != []
      modifies this`openBundle, this`list, list`prev, list`next
      ensures Shape() && list == old(list)[1..] && old(list)[0].prev == null && old(list)[0].next == null
    {
      ghost var was := list;
      assert At(was, 0) && (|was| > 1 ==> At(was, 1));
      var b: Bundle := openBundle;
      assert b.prev == null;
      openBundle := b.next;
      if b.next != null {
        b.next.prev := null;
        b.next := null;
      }
      list := was[1..];
      forall i | 0 <= i < |list| ensures At(list, i) { assert old(At(was, i + 1)); }
    }

    /** A bundle with a free slot again. */
    method PushHead(b: Bundle)
      requires Shape() && b !in list
      modifies this`openBundle, this`list, list`prev, b`prev, b`next
      ensures Shape() && list == [b] + old(list)
    {
      ghost var was := list;
      assert was != [] ==> At(was, 0);
      b.prev := null;
      b.next := openBundle;
      if b.next != null { b.next.prev := b; }
      openBundle := b;
      list := [b] + was;
      forall i | 0 < i < |list| ensures At(list, i) {
        assert old(At(was, i - 1));
        assert list[i] == was[i - 1] && (i > 1 ==> list[i - 1] == was[i - 2]);
      }
      assert At(list, 0);
    }

    /** An empty bundle that is not kept. */
    method TakeOut(b: Bundle, ghost k: nat)
      requires Shape() && k < |list| && list[k] == b
      modifies this`openBundle, this`list, list`prev, list`next
      ensures Shape() && list == Removed(old(list), k)
    {
      ghost var was := list;
      assert At(was, k);
      if openBundle == b { openBundle := b.next; }
      assert b.next != b && b.prev != b;
      if b.next != null { b.next.prev := b.prev; }
      if b.prev != null { b.prev.next := b.next; }
      list := Removed(was, k);
      RemovedMembers(was, k);
      forall i | 0 <= i < |list| ensures At(list, i) {
        assert old(At(was, if i < k then i else i + 1));
      }
    }

    /** The loop around the slots of a bundle, from the one most likely to be free. */
    static method FindFree(b: Bundle, n: nat) returns (x: Option<nat>)
      requires n > 0 && |b.free| == n && b.nextCheck <= n
      ensures x.Some? ==> x.value < n && b.free[x.value]
      ensures x.None? <==> Used(b.free) == n
    {
      UsedBound(b.free);
      var i := 0;
      while i < n
        invariant 0 <= i <= n && forall j :: 0 <= j < i ==> !b.free[Turn(j, b.nextCheck, n)]
      {
        var y := Turn(i, b.nextCheck, n);
        if b.free[y] { return Some(y); }
        i := i + 1;
      }
      forall y | 0 <= y < n ensures !b.free[y] {
        var j := TurnCovers(y, b.nextCheck, n);
      }
      return None;
    }

    /** Slot x of the bundle at the head is taken. */
    method TakeSlot(b: Bundle, x: nat)
      requires Valid() && list != [] && b == list[0] && b in all && x < slots && b.free[x]
      modifies this`openBundle, this`list, all
      ensures Valid() && b.free == old(b.free)[x := false]
      ensures forall c :: c in all && c != b ==> c.free == old(c.free)
    {
      ghost var was := list;
      UsedUpdate(b.free, x, false);
      UsedBound(b.free[x := false]);
      b.free := b.free[x := false];
      b.nextCheck := x + 1;
      b.refcount := b.refcount + 1;
      if b.refcount == slots {
        PopHead();
      }
    }

    /** resp_allocate: a slot that nobody has, or nothing when there is no memory for a new bundle. */
    method Allocate(room: bool) returns (b: Bundle?, x: nat)
      requires Valid()
      modifies this`openBundle, this`list, this`all, all
      ensures Valid() && (b == null <==> old(list) == [] && !room)
      ensures b == null ==> all == old(all)
      ensures b != null ==> b in all && x < slots && !b.free[x] && (b in old(all) ==> old(b.free[x]) && all == old(all))
      ensures b != null && b !in old(all) ==> fresh(b) && all == old(all) + {b} && Used(b.free) == 1
      ensures forall c :: c in old(all) ==> c.free == if c == b then old(c.free)[x := false] else old(c.free)
    {
      if openBundle != null {
        b := openBundle;
        assert list[0] in list;
        var found := FindFree(b, slots);
        x := found.value;
        TakeSlot(b, x);
      } else if room {
        b := new Bundle(slots);
        x := 0;
        UsedOfFree(slots);
        UsedUpdate(seq(slots, i => true), 0, false);
        all := all + {b};
        openBundle := b;
        list := [b];
      } else {
        b, x := null, 0;
      }
    }

    /** The test resp_free makes for being on the list. */
    lemma OnList(b: Bundle)
      requires Shape() && (b !in list ==> b.prev == null && b.next == null)
      ensures b in list <==> b == openBundle || b.prev != null || b.next != null
      ensures b == openBundle && b.next == null ==> list == [b]
      ensures list == [b] ==> b == openBundle && b.next == null && b.prev == null
    {
      if b in list {
        var k: nat :| k < |list| && list[k] == b;
        assert At(list, k);
      }
      if list != [] { assert At(list, 0) && list[0] in list; }
    }

    /** Everything holds but what bundle b's place on the list has to do with its count. */
    ghost predicate ValidBut(b: Bundle)
      reads this, all, list
    {
      && slots >= 2 && Shape() && (forall c :: c in list ==> c in all)
      && (forall c :: c in all && c != b ==> BundleOk(c))
      && (forall i :: 0 <= i < |list| - 1 && list[i] != b ==> list[i].refcount > 0)
      && b in all && |b.free| == slots && b.refcount == Used(b.free) && b.nextCheck <= slots
      && (b !in list ==> b.prev == null && b.next == null)
    }

    /** The bundle is empty and not the only one on the list: it goes back to the cache. */
    method DropBundle(b: Bundle)
      requires ValidBut(b) && b in list && b.refcount == 0
      modifies this`openBundle, this`list, this`all, list`prev, list`next
      ensures Valid() && all == old(all) - {b}
    {
      ghost var k: nat :| k < |list| && list[k] == b;
      ghost var was := list;
      RemovedMembers(was, k);
      TakeOut(b, k);
      assert forall c :: c in all && c != b ==> BundleOk(c);
      assert forall i :: 0 <= i < |list| - 1 ==> list[i].refcount > 0;
      all := all - {b};
    }

    /** The bundle was full: it is linked at the head again. */
    method Reopen(b: Bundle)
      requires ValidBut(b) && b !in list && 0 < b.refcount < slots
      modifies this`openBundle, this`list, list`prev, b`prev, b`next
      ensures Valid()
    {
      ghost var was := list;
      PushHead(b);
      forall i | 0 <= i < |list| - 1 ensures list[i].refcount > 0 {
        assert i > 0 ==> list[i] == was[i - 1];
      }
    }

    method ReleaseSlot(b: Bundle, x: nat)
      requires Valid() && b in all && x < slots && !b.free[x]
      modifies b`free, b`refcount
      ensures ValidBut(b) && b.free == old(b.free)[x := true] && b.refcount == old(b.refcount) - 1 < slots
    {
      UsedUpdate(b.free, x, true);
      UsedBound(b.free);
      b.free := b.free[x := true];
      b.refcount := b.refcount - 1;
    }

    /** resp_free. */
    method Free(b: Bundle, x: nat)
      requires Valid() && b in all && x < slots && !b.free[x]
      modifies this`openBundle, this`list, this`all, all
      ensures Valid() && b.free == old(b.free)[x := true]
      ensures b !in all <==> Used(b.free) == 0 && old(list) != [b]
      ensures all == if b in all then old(all) else old(all) - {b}
      ensures forall c :: c in all && c != b ==> c.free == old(c.free)
    {
      ReleaseSlot(b, x);
      OnList(b);
      if b.refcount == 0 {
        if b == openBundle && b.next == null {
          assert b.prev == null;
          b.nextCheck := 0;
        } else {
          assert (b.next != null || b.prev != null) || b == openBundle;
          DropBundle(b);
        }
      } else if b == openBundle || b.prev != null || b.next != null {
        assert Valid();
      } else {
        Reopen(b);
      }
    }

    /** At most one bundle is kept without a slot in use, and no slot in use belongs to a bundle that was dropped. */
    lemma OneEmpty(b: Bundle, c: Bundle)
      requires Valid() && b in all && c in all && Used(b.free) == 0 && Used(c.free) == 0
      ensures b == c
    {
      var i :| 0 <= i < |list| && list[i] == b;
      var j :| 0 <= j < |list| && list[j] == c;
    }

    /** A bundle is on the open list exactly when one of its slots is free. */
    lemma OpenMeansFree(b: Bundle)
      requires Valid() && b in all
      ensures b in list <==> exists x :: 0 <= x < slots && b.free[x]
      ensures b.refcount == Used(b.free)
    {
      UsedBound(b.free);
    }
  }

  // ---------------------------------------------------------------- why a bundle needs two slots

  /**
   * The bundle a first allocation leaves open, searched again by the next one: the assertion that the open list is
   * empty when the search finds nothing holds exactly when a bundle has two slots or more.
   */
  method SecondAllocation(slots: nat) returns (found: bool)
    requires slots > 0
    ensures found <==> slots >= 2
  {
    var b := new Bundle(slots);
    UsedOfFree(slots);
    UsedUpdate(seq(slots, i => true), 0, false);
    var x := Thread.FindFree(b, slots);
    found := x.Some?;
  }
}
