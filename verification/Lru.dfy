/**
 * One LRU list (items.c) and the crawler pseudo-item that walks it (crawler.c).
 * The concrete view is head, tail, prev and next; the abstract view is the sequence of items, head first.
 */
module LruItems {
  import opened Base

  class Item {
    var prev: Item?
    var next: Item?
    const ntotal: nat

    constructor (n: nat)
      ensures ntotal == n && prev == null && next == null
    {
      prev, next, ntotal := null, null, n;
    }
  }

  /** Item i of the list points at its neighbours. */
  ghost predicate At(q: seq<Item>, i: nat)
    requires i < |q|
    reads q
  {
    && q[i].prev == (if i == 0 then null else q[i - 1])
    && q[i].next == (if i == |q| - 1 then null else q[i + 1])
  }

  /** The items chained by prev and next, in order. */
  ghost predicate Linked(q: seq<Item>)
    reads q
  {
    NoDup(q) && forall i :: 0 <= i < |q| ==> At(q, i)
  }

  /** The list without the crawler: what everybody else cares about. */
  ghost function Erased(q: seq<Item>, c: Item): seq<Item> {
    if q == [] then [] else (if q[0] == c then [] else [q[0]]) + Erased(q[1..], c)
  }

  ghost function Bytes(q: seq<Item>): nat {
    if q == [] then 0 else q[0].ntotal + Bytes(q[1..])
  }

  // ---------------------------------------------------------------- sequences

  ghost function Removed(q: seq<Item>, i: nat): (r: seq<Item>)
    requires i < |q|
    ensures |r| == |q| - 1 && forall j :: 0 <= j < |r| ==> r[j] == if j < i then q[j] else q[j + 1]
  {
    q[..i] + q[i + 1..]
  }

  lemma RemovedNoDup(q: seq<Item>, i: nat)
    requires NoDup(q) && i < |q|
    ensures NoDup(Removed(q, i)) && q[i] !in Removed(q, i)
  {
  }

  lemma {:induction false} ErasedConcat(a: seq<Item>, b: seq<Item>, c: Item)
    ensures Erased(a + b, c) == Erased(a, c) + Erased(b, c)
  {
    if a == [] {
      assert a + b == b;
    } else {
      assert (a + b)[1..] == a[1..] + b;
      ErasedConcat(a[1..], b, c);
    }
  }

  lemma {:induction false} ErasedAbsent(q: seq<Item>, c: Item)
    requires c !in q
    ensures Erased(q, c) == q
  {
    if q != [] {
      ErasedAbsent(q[1..], c);
      assert q == [q[0]] + q[1..];
    }
  }

  lemma ErasedTwice(q: seq<Item>, c: Item)
    ensures Erased(Erased(q, c), c) == Erased(q, c)
  {
    StillErased(q, c, c);
    ErasedAbsent(Erased(q, c), c);
  }

  /** The list around position i. */
  lemma Around(q: seq<Item>, i: nat, c: Item)
    requires i < |q|
    ensures q == q[..i] + [q[i]] + q[i + 1..]
    ensures Erased(q, c) == Erased(q[..i], c) + Erased([q[i]], c) + Erased(q[i + 1..], c)
    ensures Erased(q[..i] + q[i + 1..], c) == Erased(q[..i], c) + Erased(q[i + 1..], c)
  {
    assert q == q[..i] + [q[i]] + q[i + 1..];
    ErasedConcat(q[..i] + [q[i]], q[i + 1..], c);
    ErasedConcat(q[..i], [q[i]], c);
    ErasedConcat(q[..i], q[i + 1..], c);
  }

  lemma ErasedOne(x: Item, c: Item)
    ensures Erased([x], c) == if x == c then [] else [x]
  {
    assert [x][1..] == [];
  }

  lemma RemovedIsWithout(q: seq<Item>, i: nat)
    requires NoDup(q) && i < |q|
    ensures Without(q, q[i]) == Removed(q, i)
  {
    WithoutAt(q, q[i], i);
  }

  lemma {:induction false} ErasedWithout(q: seq<Item>, c: Item, it: Item)
    requires it != c
    ensures Erased(Without(q, it), c) == Without(Erased(q, c), it)
  {
    if q != [] && q[0] != it {
      ErasedWithout(q[1..], c, it);
      assert ([q[0]] + Without(q[1..], it))[1..] == Without(q[1..], it);
      if q[0] != c {
        assert ([q[0]] + Erased(q[1..], c))[1..] == Erased(q[1..], c);
      } else {
        assert Erased(q, c) == Erased(q[1..], c);
      }
    } else if q != [] {
      assert ([q[0]] + Erased(q[1..], c))[1..] == Erased(q[1..], c);
    }
  }

  lemma {:induction false} WithoutCounts(q: seq<Item>, it: Item)
    requires it in q
    ensures |Without(q, it)| == |q| - 1 && Bytes(Without(q, it)) == Bytes(q) - it.ntotal
  {
    if q[0] != it {
      WithoutCounts(q[1..], it);
      assert ([q[0]] + Without(q[1..], it))[1..] == Without(q[1..], it);
    }
  }

  lemma {:induction false} StillErased(q: seq<Item>, c: Item, it: Item)
    ensures it in Erased(q, c) <==> it in q && it != c
  {
    if q != [] { StillErased(q[1..], c, it); }
  }

  lemma OnlyOnce(q: seq<Item>, i: nat)
    requires NoDup(q) && i < |q|
    ensures q[i] !in q[..i] && q[i] !in q[i + 1..]
  {
  }

  lemma ErasedAt(q: seq<Item>, i: nat)
    requires i < |q| && q[i] !in q[..i] && q[i] !in q[i + 1..]
    ensures Erased(q, q[i]) == Removed(q, i)
  {
    var c := q[i];
    Around(q, i, c);
    ErasedOne(c, c);
    ErasedAbsent(q[..i], c);
    ErasedAbsent(q[i + 1..], c);
  }

  lemma PoppedSeq(q: seq<Item>)
    requires NoDup(q) && q != []
    ensures NoDup(q[1..]) && q[0] !in q[1..] && Erased(q[1..], q[0]) == Erased(q, q[0])
  {
  }

  lemma UnlinkedSeq(q: seq<Item>, c: Item, i: nat)
    requires NoDup(q) && i < |q| && q[i] != c
    ensures Without(q, q[i]) == Removed(q, i)
    ensures Erased(Without(q, q[i]), c) == Without(Erased(q, c), q[i])
    ensures |Without(Erased(q, c), q[i])| == |Erased(q, c)| - 1
    ensures Bytes(Without(Erased(q, c), q[i])) == Bytes(Erased(q, c)) - q[i].ntotal
  {
    RemovedIsWithout(q, i);
    ErasedWithout(q, c, q[i]);
    StillErased(q, c, q[i]);
    WithoutCounts(Erased(q, c), q[i]);
  }

  /** The crawler at position k and the item before it have changed places. */
  ghost function Swapped(q: seq<Item>, k: nat): seq<Item>
    requires 0 < k < |q|
  {
    q[k - 1 := q[k]][k := q[k - 1]]
  }

  lemma ErasedSwap(a: seq<Item>, x: Item, c: Item, b: seq<Item>)
    ensures Erased(a + [x] + [c] + b, c) == Erased(a + [c] + [x] + b, c)
  {
    ErasedConcat(a + [x] + [c], b, c);
    ErasedConcat(a + [x], [c], c);
    ErasedConcat(a, [x], c);
    ErasedConcat(a + [c] + [x], b, c);
    ErasedConcat(a + [c], [x], c);
    ErasedConcat(a, [c], c);
    ErasedOne(c, c);
  }

  lemma SwappedPieces(q: seq<Item>, k: nat)
    requires 0 < k < |q|
    ensures q == q[..k - 1] + [q[k - 1]] + [q[k]] + q[k + 1..]
    ensures Swapped(q, k) == q[..k - 1] + [q[k]] + [q[k - 1]] + q[k + 1..]
  {
  }

  lemma SwappedErased(q: seq<Item>, k: nat)
    requires 0 < k < |q|
    ensures Erased(Swapped(q, k), q[k]) == Erased(q, q[k])
  {
    SwappedPieces(q, k);
    ErasedSwap(q[..k - 1], q[k - 1], q[k], q[k + 1..]);
  }

  lemma SwappedNoDup(q: seq<Item>, k: nat)
    requires NoDup(q) && 0 < k < |q|
    ensures NoDup(Swapped(q, k))
  {
    var r := Swapped(q, k);
    forall i, j | 0 <= i < j < |r| ensures r[i] != r[j] {
      var i' := if i == k then k - 1 else if i == k - 1 then k else i;
      var j' := if j == k then k - 1 else if j == k - 1 then k else j;
      assert r[i] == q[i'] && r[j] == q[j'] && i' != j';
    }
  }

  /** The list with the items that are to be reaped left out. */
  ghost function Kept(q: seq<Item>, reap: Item -> bool): seq<Item> {
    if q == [] then [] else (if reap(q[0]) then [] else [q[0]]) + Kept(q[1..], reap)
  }

  /** The last n items of a list, last one first. */
  ghost function FromTail(q: seq<Item>, n: nat): (r: seq<Item>)
    requires n <= |q|
    ensures |r| == n && forall m :: 0 <= m < n ==> r[m] == q[|q| - 1 - m]
  {
    if n == 0 then [] else FromTail(q, n - 1) + [q[|q| - n]]
  }

  /** A crawl under way: k items still before the crawler, the others looked at. */
  ghost function Crawled(all: seq<Item>, k: nat, c: Item, reap: Item -> bool): (r: seq<Item>)
    requires k <= |all|
    ensures |r| > k && r[k] == c && (k > 0 ==> r[k - 1] == all[k - 1])
  {
    all[..k] + [c] + Kept(all[k..], reap)
  }

  /** A crawl that has left its first k items alone. */
  ghost function Finished(all: seq<Item>, k: nat, reap: Item -> bool): seq<Item>
    requires k <= |all|
  {
    all[..k] + Kept(all[k..], reap)
  }

  lemma CrawledStart(all: seq<Item>, c: Item, reap: Item -> bool)
    requires c !in all
    ensures Crawled(all, |all|, c, reap) == all + [c] && Erased(all + [c], c) == Erased(all, c)
  {
    ErasedAround(all, c, []);
    ErasedAbsent(all, c);
    assert all + [c] + [] == all + [c] && all + [] == all;
    assert all[..|all|] == all && all[|all|..] == [];
  }

  lemma {:induction false} KeptAbsent(q: seq<Item>, reap: Item -> bool, c: Item)
    requires c !in q
    ensures c !in Kept(q, reap)
  {
    if q != [] { KeptAbsent(q[1..], reap, c); }
  }

  lemma CrawledMembers(all: seq<Item>, k: nat, c: Item, reap: Item -> bool)
    requires k <= |all|
    ensures var q := Crawled(all, k, c, reap); forall i :: 0 <= i < |q| ==> q[i] in all || q[i] == c
  {
    var q := Crawled(all, k, c, reap);
    forall i | 0 <= i < |q| && q[i] != c ensures q[i] in all {
      if q[i] !in all { KeptAbsent(all[k..], reap, q[i]); }
    }
  }

  lemma {:induction false} ErasedAround(a: seq<Item>, c: Item, b: seq<Item>)
    requires c !in a && c !in b
    ensures Erased(a + [c] + b, c) == a + b
  {
    if a == [] {
      assert (a + [c] + b)[1..] == b == a + b;
      ErasedAbsent(b, c);
    } else {
      ErasedAround(a[1..], c, b);
      assert (a + [c] + b)[1..] == a[1..] + [c] + b;
      assert [a[0]] + (a[1..] + b) == a + b;
    }
  }

  lemma CrawledErased(all: seq<Item>, k: nat, c: Item, reap: Item -> bool)
    requires k <= |all| && c !in all
    ensures Erased(Crawled(all, k, c, reap), c) == Finished(all, k, reap)
  {
    KeptAbsent(all[k..], reap, c);
    ErasedAround(all[..k], c, Kept(all[k..], reap));
  }

  lemma CrawledPieces(all: seq<Item>, k: nat, c: Item, reap: Item -> bool)
    requires 0 < k <= |all|
    ensures var a, x, rest := all[..k - 1], all[k - 1], Kept(all[k..], reap);
            && Crawled(all, k, c, reap) == a + [x] + [c] + rest
            && Crawled(all, k - 1, c, reap) == a + [c] + ((if reap(x) then [] else [x]) + rest)
  {
    assert all[..k] == all[..k - 1] + [all[k - 1]];
    assert all[k - 1..][1..] == all[k..];
  }

  lemma SwappedAt(a: seq<Item>, x: Item, c: Item, b: seq<Item>)
    ensures Swapped(a + [x] + [c] + b, |a| + 1) == a + [c] + ([x] + b)
  {
  }

  /** The crawler has stepped over item k - 1; what the list is once that item is kept or reaped. */
  lemma CrawledStep(all: seq<Item>, k: nat, c: Item, reap: Item -> bool)
    requires 0 < k <= |all| && NoDup(all) && c !in all
    ensures var q := Swapped(Crawled(all, k, c, reap), k);
            var x := all[k - 1];
            x in q && Crawled(all, k - 1, c, reap) == if reap(x) then Without(q, x) else q
  {
    var a, x, rest := all[..k - 1], all[k - 1], Kept(all[k..], reap);
    CrawledPieces(all, k, c, reap);
    SwappedAt(a, x, c, rest);
    OnlyOnce(all, k - 1);
    WithoutTail(a + [c], x, rest);
    assert [] + rest == rest;
    assert (a + [c] + ([x] + rest))[|a + [c]|] == x;
  }

  lemma {:induction false} WithoutTail(a: seq<Item>, x: Item, b: seq<Item>)
    requires x !in a
    ensures Without(a + ([x] + b), x) == a + b
  {
    if a == [] {
      assert a + ([x] + b) == [x] + b;
      assert ([x] + b)[1..] == b == a + b;
    } else {
      WithoutTail(a[1..], x, b);
      assert (a + ([x] + b))[1..] == a[1..] + ([x] + b);
      assert [a[0]] + (a[1..] + b) == a + b;
    }
  }

}

/** The list itself, and the code that edits it. */
module Lru {
  import opened Base
  import opened LruItems

  class List {
    const crawler: Item
    var head: Item?
    var tail: Item?
    var size: int
    var sizeBytes: int
    ghost var q: seq<Item>

    /** The doubly linked list is the sequence q. */
    ghost predicate Shape()
      reads this, q
    {
      && Linked(q)
      && head == (if q == [] then null else q[0])
      && tail == (if q == [] then null else q[|q| - 1])
    }

    /** sizes[] and sizes_bytes[] count the items and not the crawler. */
    ghost predicate Counted()
      reads this
    {
      size == |Erased(q, crawler)| && sizeBytes == Bytes(Erased(q, crawler))
    }

    ghost predicate Valid()
      reads this, q
    {
      Shape() && Counted()
    }

    constructor (c: Item)
      ensures Valid() && q == [] && crawler == c
    {
      crawler, head, tail, size, sizeBytes, q := c, null, null, 0, 0, [];
    }

    /** do_item_link_q: the pointers. */
    method PushHead(it: Item)
      requires Shape() && it !in q
      modifies this`head, this`tail, this`q, q, it
      ensures Shape() && q == [it] + old(q)
    {
      ghost var was := q;
      assert was != [] ==> At(was, 0);
      it.prev := null;
      it.next := head;
      if it.next != null { it.next.prev := it; }
      head := it;
      if tail == null { tail := it; }
      q := [it] + was;
      forall i | 0 < i < |q| ensures At(q, i) {
        assert old(At(was, i - 1));
        assert q[i] == was[i - 1] && (i > 1 ==> q[i - 1] == was[i - 2]);
      }
      assert At(q, 0);
    }

    /** do_item_linktail_q. */
    method LinkTail(it: Item)
      requires Shape() && it !in q
      modifies this`head, this`tail, this`q, q, it
      ensures Shape() && q == old(q) + [it]
    {
      ghost var was := q;
      assert was != [] ==> At(was, |was| - 1);
      it.prev := tail;
      it.next := null;
      if it.prev != null {
        assert it.prev.next == null;
        it.prev.next := it;
      }
      tail := it;
      if head == null { head := it; }
      q := was + [it];
      forall i | 0 <= i < |was| ensures At(q, i) {
        assert old(At(was, i));
        assert q[i] == was[i] && (i > 0 ==> q[i - 1] == was[i - 1]);
      }
      assert At(q, |was|);
    }

    /**
     * The pointer surgery of do_item_unlink_q and do_item_unlinktail_q: takes out item i, and does
     * nothing to the list for an item popped off its head before (i is then the length of the list).
     */
    method TakeOut(it: Item, ghost i: nat)
      requires Shape() && i <= |q|
      requires if i < |q| then q[i] == it else q != [] && it !in q && it.prev == null && it.next == q[0]
      modifies this`head, this`tail, this`q, q
      ensures Shape()
      ensures q == if i < |old(q)| then Removed(old(q), i) else old(q)
    {
      ghost var was := q;
      assert i < |q| ==> At(was, i);
      assert i == |q| ==> At(was, 0);
      if head == it {
        assert it.prev == null;
        head := it.next;
      }
      if tail == it {
        assert it.next == null;
        tail := it.prev;
      }
      assert it.next != it;
      assert it.prev != it;
      if it.next != null { it.next.prev := it.prev; }
      if it.prev != null { it.prev.next := it.next; }
      if i < |was| {
        q := Removed(was, i);
        RemovedNoDup(was, i);
      }
      forall j | 0 <= j < |q| ensures At(q, j) {
        assert old(At(was, if j < i then j else j + 1));
      }
    }

    /** do_item_link_q. */
    method LinkQ(it: Item)
      requires Valid() && it !in q && it != crawler
      modifies this, q, it
      ensures Valid() && q == [it] + old(q)
      ensures Erased(q, crawler) == [it] + old(Erased(q, crawler))
    {
      assert it != head;
      assert (head != null && tail != null) || (head == null && tail == null);
      PushHead(it);
      size := size + 1;
      sizeBytes := sizeBytes + it.ntotal;
      assert q[1..] == old(q);
      assert ([it] + old(Erased(q, crawler)))[1..] == old(Erased(q, crawler));
    }

    /** The body of do_item_unlink_q. */
    method TakeOutItem(it: Item, ghost i: nat)
      requires Shape() && i < |q| && q[i] == it
      modifies this, q
      ensures Shape() && q == Removed(old(q), i)
      ensures size == old(size) - 1 && sizeBytes == old(sizeBytes) - it.ntotal
    {
      TakeOut(it, i);
      size := size - 1;
      sizeBytes := sizeBytes - it.ntotal;
    }

    /** do_item_unlink_q. */
    method UnlinkQ(it: Item)
      requires Valid() && it in q && it != crawler
      modifies this, q
      ensures Valid() && q == Without(old(q), it)
      ensures Erased(q, crawler) == Without(old(Erased(q, crawler)), it)
    {
      ghost var i: nat :| i < |q| && q[i] == it;
      TakeOutItem(it, i);
      UnlinkedSeq(old(q), crawler, i);
    }

    /** The crawler has been popped at the head: it is out of the list, its own next pointer is stale. */
    ghost predicate Popped()
      reads this, crawler
    {
      crawler !in q && q != [] && crawler.prev == null && crawler.next == q[0]
    }

    /** do_item_crawl_q. */
    method CrawlQ(ghost k: nat) returns (search: Item?)
      requires Shape() && k < |q| && q[k] == crawler
      modifies this`head, this`tail, this`q, q
      ensures Shape() && Erased(q, crawler) == old(Erased(q, crawler)) && (crawler in q || Popped())
      ensures k == 0 ==> search == null && (if |old(q)| == 1 then q == old(q) else q == old(q)[1..] && Popped())
      ensures k > 0 ==> search == old(q)[k - 1] && q == Swapped(old(q), k)
    {
      ghost var was := q;
      var it := crawler;
      assert At(was, k);
      assert k > 0 ==> At(was, k - 1);
      assert k > 1 ==> At(was, k - 2);
      assert k + 1 < |was| ==> At(was, k + 1);
      if it.prev == null {
        assert head == it;
        if it.next != null {
          PopCrawler();
        }
        return null;
      }
      assert it.prev != it;
      if head == it.prev { head := it; }
      if tail == it { tail := it.prev; }
      assert it.next != it;
      if it.next != null {
        assert it.prev.next == it;
        it.prev.next := it.next;
        it.next.prev := it.prev;
      } else {
        it.prev.next := null;
      }
      it.next := it.prev;
      it.prev := it.next.prev;
      it.next.prev := it;
      if it.prev != null { it.prev.next := it; }
      q := Swapped(was, k);
      SwappedErased(was, k);
      SwappedNoDup(was, k);
      assert q[k - 1] == crawler;
      forall j | 0 <= j < |q| ensures At(q, j) {
        assert old(At(was, j));
      }
      assert it.next != it;
      assert it.prev != it;
      return it.next;
    }

    /** The branch of do_item_crawl_q for a crawler that has reached the head of a list with items. */
    method PopCrawler()
      requires Shape() && |q| > 1 && q[0] == crawler
      modifies this`head, this`tail, this`q, q
      ensures Shape() && q == old(q)[1..] && Popped()
      ensures Erased(q, crawler) == old(Erased(q, crawler))
    {
      ghost var was := q;
      var it := crawler;
      assert At(was, 0) && At(was, 1);
      head := it.next;
      assert it.next.prev == it;
      it.next.prev := null;
      q := was[1..];
      PoppedSeq(was);
      forall j | 0 <= j < |q| ensures At(q, j) {
        assert old(At(was, j + 1));
      }
    }

    /** do_item_unlinktail_q, as called when the crawl of this list is done. */
    method UnlinkTail()
      requires Shape() && (crawler in q || Popped())
      modifies this`head, this`tail, this`q, q
      ensures Shape() && crawler !in q && q == Erased(old(q), crawler)
    {
      ghost var i: nat := |q|;
      if crawler in q {
        i :| i < |q| && q[i] == crawler;
        OnlyOnce(q, i);
        ErasedAt(q, i);
      } else {
        ErasedAbsent(q, crawler);
      }
      TakeOut(crawler, i);
    }

    /** lru_crawler_class_done: the crawler leaves the list as it would be without it. */
    method ClassDone()
      requires Valid() && (crawler in q || Popped())
      modifies this, q
      ensures Valid() && q == old(Erased(q, crawler))
    {
      ErasedTwice(q, crawler);
      UnlinkTail();
    }

    /** The evaluation of the item the crawler has just stepped over. */
    method Evaluate(search: Item, ghost all: seq<Item>, ghost k: nat, reap: Item -> bool)
      requires Valid() && 0 < k <= |all| && NoDup(all) && crawler !in all
      requires q == Swapped(Crawled(all, k, crawler, reap), k) && search == all[k - 1]
      modifies this, q
      ensures Valid() && q == Crawled(all, k - 1, crawler, reap)
    {
      CrawledStep(all, k, crawler, reap);
      if reap(search) { UnlinkQ(search); }
    }

    /** The linking of the crawler in do_lru_crawler_start. */
    method StartCrawl(ghost reap: Item -> bool)
      requires Valid() && crawler !in q
      modifies this, q, crawler
      ensures Valid() && q == Crawled(old(q), |old(q)|, crawler, reap)
    {
      ghost var all := q;
      LinkTail(crawler);
      CrawledStart(all, crawler, reap);
    }

    /** One turn of the thread's loop for this list, with k items left to look at. */
    method CrawlTurn(left: nat, reap: Item -> bool, ghost all: seq<Item>, ghost k: nat)
      returns (search: Item?, remaining: nat, done: bool)
      requires Valid() && k <= |all| && NoDup(all) && crawler !in all && q == Crawled(all, k, crawler, reap)
      modifies this, q
      ensures Valid() && remaining == if k == 0 || left == 0 then left else left - 1
      ensures done <==> k == 0 || left == 1
      ensures done ==> q == Finished(all, k, reap)
      ensures !done ==> search == all[k - 1] && q == Crawled(all, k - 1, crawler, reap)
    {
      remaining := left;
      search := CrawlQ(k);
      done := search == null;
      if !done && remaining != 0 {
        remaining := remaining - 1;
        done := remaining < 1;
      }
      if done {
        CrawledErased(all, k, crawler, reap);
        ClassDone();
      } else {
        Evaluate(search, all, k, reap);
      }
    }

    /** The thread's loop over this list, from the linking of the crawler until lru_crawler_class_done. */
    method CrawlLoop(start: nat, reap: Item -> bool, ghost all: seq<Item>, ghost n: nat) returns (seen: seq<Item>)
      requires Valid() && NoDup(all) && crawler !in all && q == Crawled(all, |all|, crawler, reap)
      requires start == if n == 0 then 0 else n + 1
      modifies this, all, crawler
      ensures Valid() && |seen| == if 0 < n < |all| then n else |all|
      ensures seen == FromTail(all, |seen|) && q == Finished(all, |all| - |seen|, reap)
    {
      seen := [];
      var remaining := start;
      var done := false;
      ghost var k := |all|;
      while !done
        invariant Valid() && k == |all| - |seen| >= 0 && seen == FromTail(all, |seen|)
        invariant if n == 0 then remaining == 0 else done || remaining == n + 1 - |seen| >= 1
        invariant !done ==> q == Crawled(all, k, crawler, reap)
        invariant done ==> q == Finished(all, k, reap) && |seen| == if 0 < n < |all| then n else |all|
        decreases !done, k
      {
        CrawledMembers(all, k, crawler, reap);
        var search;
        search, remaining, done := CrawlTurn(remaining, reap, all, k);
        if !done {
          var item: Item := search;
          seen := seen + [item];
          k := k - 1;
        }
      }
    }

    /**
     * do_lru_crawler_start and the crawl it starts, with nobody else at work on the list. `limit` is the number
     * of items to look at: 0 for all of them, -1 for as many as the list holds. `reap` says which items the
     * evaluation unlinks.
     */
    method Crawl(limit: int, reap: Item -> bool) returns (seen: seq<Item>)
      requires Valid() && crawler !in q && limit >= -1
      modifies this, q, crawler
      ensures Valid()
      ensures var n := if 0 < limit < |old(q)| then limit else |old(q)|; seen == FromTail(old(q), n)
      ensures q == Finished(old(q), |old(q)| - |seen|, reap)
    {
      ErasedAbsent(q, crawler);
      var remaining: nat := if limit == -1 then size else limit;
      ghost var n := remaining;
      if remaining != 0 { remaining := remaining + 1; }
      StartCrawl(reap);
      seen := CrawlLoop(remaining, reap, old(q), n);
    }
  }
}
