/** Objects in memory and the items of the model they stand for, list by list. */
module ItemsNames {
  import opened Base
  import opened ItemsModel
  import opened ItemsParts
  import Assoc
  import LruItems
  import Lru

  /** Which item of the model an object in memory is. */
  type Naming = LruItems.Item -> Ref

  ghost function Names(q: seq<LruItems.Item>, ref: Naming): (r: seq<Ref>)
    ensures |r| == |q| && forall i :: 0 <= i < |q| ==> r[i] == ref(q[i])
  {
    if q == [] then [] else [ref(q[0])] + Names(q[1..], ref)
  }

  lemma NamesCons(a: LruItems.Item, q: seq<LruItems.Item>, ref: Naming)
    ensures Names([a] + q, ref) == [ref(a)] + Names(q, ref)
  {
    assert ([a] + q)[1..] == q;
  }

  /** Different objects of the list are different items, and an object is as large as its item. */
  ghost predicate Faithful(q: seq<LruItems.Item>, ref: Naming) {
    && (forall a, b :: a in q && b in q && ref(a) == ref(b) ==> a == b)
    && forall a :: a in q ==> ref(a).ntotal == a.ntotal
  }

  lemma {:induction false} NamesWithout(q: seq<LruItems.Item>, ref: Naming, it: LruItems.Item)
    requires Faithful(q, ref) && it in q
    ensures Names(Without(q, it), ref) == Without(Names(q, ref), ref(it))
  {
    var names := Names(q, ref);
    if q[0] == it {
      assert names[0] == ref(it);
    } else {
      assert q[0] in q && ref(q[0]) != ref(it) && names[0] == ref(q[0]);
      NamesWithout(q[1..], ref, it);
      NamesCons(q[0], Without(q[1..], it), ref);
    }
    NamesCons(q[0], q[1..], ref);
    assert [q[0]] + q[1..] == q;
  }

  lemma {:induction false} NamesWeight(q: seq<LruItems.Item>, ref: Naming)
    requires Faithful(q, ref)
    ensures LruItems.Bytes(q) == Weight(Names(q, ref))
  {
    if q != [] {
      assert q[0] in q;
      NamesWeight(q[1..], ref);
    }
  }

  /** The list without its crawler. */
  ghost function Content(l: Lru.List): seq<LruItems.Item>
    reads l
  {
    LruItems.Erased(l.q, l.crawler)
  }

  /** The linked list is this list of items, with these counters. */
  ghost predicate ListIs(l: Lru.List, ref: Naming, refs: seq<Ref>, size: int, bytes: int)
    reads l, l.q
  {
    && l.Valid() && Faithful(Content(l), ref) && Names(Content(l), ref) == refs
    && l.size == size && l.sizeBytes == bytes
  }

  /** The entries of the hash table for an index: an item's key and address. */
  ghost function EntriesOf(index: map<Key, Ref>): map<Key, Assoc.Item> {
    map k | k in index :: Assoc.Item(k, index[k].addr)
  }

  ghost predicate TableIs(t: Assoc.HashTable, s: State)
    reads t
  {
    Assoc.Represents(t.hash, t.State(), EntriesOf(s.index))
  }

  lemma EntriesInsert(index: map<Key, Ref>, x: Ref)
    ensures EntriesOf(index[x.key := x]) == EntriesOf(index)[x.key := Assoc.Item(x.key, x.addr)]
  {
  }

  lemma EntriesDelete(index: map<Key, Ref>, k: Key)
    ensures EntriesOf(index - {k}) == EntriesOf(index) - {k}
  {
  }

  lemma FaithfulMore(q: seq<LruItems.Item>, ref: Naming, it: LruItems.Item)
    requires Faithful(q, ref) && ref(it).ntotal == it.ntotal && ref(it) !in Names(q, ref)
    ensures Faithful([it] + q, ref) && Names([it] + q, ref) == [ref(it)] + Names(q, ref)
  {
    forall o | o in q ensures ref(o) != ref(it) {
      var i :| 0 <= i < |q| && q[i] == o;
      assert Names(q, ref)[i] == ref(o);
    }
    assert ([it] + q)[1..] == q;
  }

  lemma FaithfulLess(q: seq<LruItems.Item>, ref: Naming, it: LruItems.Item)
    requires NoDup(q) && Faithful(q, ref) && it in q
    ensures Faithful(Without(q, it), ref) && Names(Without(q, it), ref) == Without(Names(q, ref), ref(it))
  {
    WithoutIsRemoval(q, it);
    NamesWithout(q, ref, it);
  }

  lemma {:induction false} ErasedNoDup(q: seq<LruItems.Item>, c: LruItems.Item)
    requires NoDup(q)
    ensures NoDup(LruItems.Erased(q, c))
  {
    if q != [] {
      ErasedNoDup(q[1..], c);
      if q[0] != c {
        LruItems.StillErased(q[1..], c, q[0]);
      }
    }
  }

  /** A list that has nothing in common with list l. */
  ghost predicate Clear(o: Lru.List, l: Lru.List)
    reads o, o.q, l
  {
    o.Valid() && o != l && forall x :: x in o.q ==> x !in l.q
  }

  /** do_item_link_q on one of many lists: the others stay as they are. */
  method LinkAmong(l: Lru.List, it: LruItems.Item, ghost others: seq<Lru.List>)
    requires l.Valid() && it !in l.q && it != l.crawler
    requires forall o :: o in others && o != l ==> Clear(o, l) && it !in o.q
    modifies l, l.q, it
    ensures l.Valid() && l.q == [it] + old(l.q) && Content(l) == [it] + old(Content(l))
    ensures forall o :: o in others && o != l ==> o.Valid() && unchanged(o)
  {
    l.LinkQ(it);
    forall o | o in others && o != l ensures o.Valid() {
      assert old(Clear(o, l));
      forall i | 0 <= i < |o.q| ensures LruItems.At(o.q, i) {
        assert o.q[i] in o.q && old(LruItems.At(o.q, i));
      }
    }
  }

  /** do_item_unlink_q on one of many lists. */
  method UnlinkAmong(l: Lru.List, it: LruItems.Item, ghost others: seq<Lru.List>)
    requires l.Valid() && it in l.q && it != l.crawler
    requires forall o :: o in others && o != l ==> Clear(o, l)
    modifies l, l.q
    ensures l.Valid() && l.q == Without(old(l.q), it) && Content(l) == Without(old(Content(l)), it)
    ensures forall o :: o in others && o != l ==> o.Valid() && unchanged(o)
  {
    l.UnlinkQ(it);
    forall o | o in others && o != l ensures o.Valid() {
      assert old(Clear(o, l));
      forall i | 0 <= i < |o.q| ensures LruItems.At(o.q, i) {
        assert o.q[i] in o.q && old(LruItems.At(o.q, i));
      }
    }
  }

  /** The same, in terms of the items the objects stand for. */
  method LinkOne(l: Lru.List, it: LruItems.Item, ghost ref: Naming, ghost refs: seq<Ref>, ghost size: int, ghost bytes: int,
                 ghost others: seq<Lru.List>)
    requires ListIs(l, ref, refs, size, bytes) && it !in l.q && it != l.crawler
    requires ref(it).ntotal == it.ntotal && ref(it) !in refs
    requires forall o :: o in others && o != l ==> Clear(o, l) && it !in o.q
    modifies l, l.q, it
    ensures ListIs(l, ref, [ref(it)] + refs, size + 1, bytes + it.ntotal) && l.q == [it] + old(l.q)
    ensures forall o :: o in others && o != l ==> o.Valid() && unchanged(o)
  {
    FaithfulMore(Content(l), ref, it);
    LinkAmong(l, it, others);
    assert Content(l)[1..] == old(Content(l));
  }

  method UnlinkOne(l: Lru.List, it: LruItems.Item, ghost ref: Naming, ghost refs: seq<Ref>, ghost size: int, ghost bytes: int,
                   ghost others: seq<Lru.List>)
    requires ListIs(l, ref, refs, size, bytes) && it in l.q && it != l.crawler
    requires forall o :: o in others && o != l ==> Clear(o, l)
    modifies l, l.q
    ensures ListIs(l, ref, Without(refs, ref(it)), size - 1, bytes - it.ntotal) && l.q == Without(old(l.q), it)
    ensures forall o :: o in others && o != l ==> o.Valid() && unchanged(o)
  {
    LruItems.StillErased(l.q, l.crawler, it);
    ErasedNoDup(l.q, l.crawler);
    FaithfulLess(Content(l), ref, it);
    LruItems.WithoutCounts(Content(l), it);
    UnlinkAmong(l, it, others);
  }
}

/**
 * The items' index and lists as the program keeps them: a hash table of chains and doubly linked lists of objects.
 * Linking, unlinking and moving an item there is what ItemsModel says of a map and of sequences.
 */
module ItemsHeap {
  import opened Base
  import opened ItemsModel
  import opened ItemsNames
  import Assoc
  import LruItems
  import Lru

  ghost predicate SameLists(s: State, t: State) {
    t.lists == s.lists && t.sizes == s.sizes && t.bytes == s.bytes
  }

  class Heap {
    const lists: seq<Lru.List>
    const table: Assoc.HashTable
    ghost const ref: Naming

    constructor (lists: seq<Lru.List>, table: Assoc.HashTable, ghost ref: Naming)
      ensures this.lists == lists && this.table == table && this.ref == ref
    {
      this.lists, this.table, this.ref := lists, table, ref;
    }

    /** No two lists are the same object, or share an item. */
    ghost predicate Apart()
      reads lists
    {
      && |lists| == LARGEST_ID
      && forall f: Seg, g: Seg :: f != g ==> lists[f] != lists[g] && forall o :: o in lists[f].q ==> o !in lists[g].q
    }

    ghost predicate ListAt(s: State, g: Seg)
      requires |lists| == LARGEST_ID
      reads lists[g], lists[g].q
    {
      ListIs(lists[g], ref, s.lists[g], s.sizes[g], s.bytes[g])
    }

    /** An object that is on no list, and no crawler. */
    ghost predicate Off(it: LruItems.Item)
      reads lists
    {
      forall l :: l in lists ==> it !in l.q && it != l.crawler
    }

    /** do_item_link_q. */
    method Enqueue(g: Seg, it: LruItems.Item, ghost s: State, ghost t: State)
      requires Apart() && (forall f: Seg :: ListAt(s, f)) && Off(it) && ref(it).ntotal == it.ntotal && ref(it) !in s.lists[g]
      requires SameLists(t, ItemsModel.Enqueue(s, g, ref(it)))
      modifies lists[g], lists[g].q, it
      ensures Apart() && (forall f: Seg :: ListAt(t, f)) && lists[g].q == [it] + old(lists[g].q)
      ensures forall f: Seg :: f != g ==> lists[f].q == old(lists[f].q)
    {
      assert ListAt(s, g) && lists[g] in lists;
      AllClear(g, s);
      LinkOne(lists[g], it, ref, s.lists[g], s.sizes[g], s.bytes[g], lists);
      forall f: Seg | f != g ensures lists[f].Valid() && unchanged(lists[f]) && it !in lists[f].q && ListAt(t, f) {
        assert old(ListAt(s, f)) && lists[f] in lists && lists[f] != lists[g];
      }
    }

    /** do_item_unlink_q. */
    method Dequeue(g: Seg, it: LruItems.Item, ghost s: State, ghost t: State)
      requires Apart() && (forall f: Seg :: ListAt(s, f)) && it in lists[g].q && it != lists[g].crawler
      requires ref(it).ntotal == it.ntotal && SameLists(t, ItemsModel.Dequeue(s, g, ref(it)))
      modifies lists[g], lists[g].q
      ensures Apart() && (forall f: Seg :: ListAt(t, f)) && lists[g].q == Without(old(lists[g].q), it)
      ensures forall o :: o in lists[g].q ==> o in old(lists[g].q)
      ensures forall f: Seg :: f != g ==> lists[f].q == old(lists[f].q)
    {
      assert ListAt(s, g) && lists[g] in lists;
      WithoutIsRemoval(lists[g].q, it);
      AllClear(g, s);
      UnlinkOne(lists[g], it, ref, s.lists[g], s.sizes[g], s.bytes[g], lists);
      forall f: Seg | f != g ensures lists[f].Valid() && unchanged(lists[f]) && ListAt(t, f) {
        assert old(ListAt(s, f)) && lists[f] in lists && lists[f] != lists[g];
      }
    }

    /** The index first, then the list. */
    method LinkBoth(g: Seg, it: LruItems.Item, key: Key, addr: nat, ghost s: State, ghost t: State)
      requires Apart() && (forall f: Seg :: ListAt(s, f)) && TableIs(table, s)
      requires ref(it) == Ref(addr, key, it.ntotal) && Off(it) && ref(it) !in s.lists[g] && key !in s.index
      requires t.index == s.index[key := ref(it)] && SameLists(t, ItemsModel.Enqueue(s, g, ref(it)))
      modifies lists[g], lists[g].q, it, table
      ensures Apart() && (forall f: Seg :: ListAt(t, f)) && TableIs(table, t) && lists[g].q == [it] + old(lists[g].q)
      ensures forall f: Seg :: f != g ==> lists[f].q == old(lists[f].q)
    {
      Insert(key, addr, s.index, ref(it));
      Enqueue(g, it, s, t);
    }

    /** do_item_link, as far as the index and the lists go. */
    method Link(g: Seg, it: LruItems.Item, key: Key, addr: nat, ghost s: State, ghost now: int)
      requires Apart() && (forall f: Seg :: ListAt(s, f)) && TableIs(table, s)
      requires ref(it) == Ref(addr, key, it.ntotal) && ref(it) in s.items && s.items[ref(it)].seg == g
      requires Off(it) && ref(it) !in s.lists[g] && key !in s.index
      modifies lists[g], lists[g].q, it, table
      ensures var t := LinkItem(s, ref(it), now); Apart() && (forall f: Seg :: ListAt(t, f)) && TableIs(table, t)
      ensures lists[g].q == [it] + old(lists[g].q) && forall f: Seg :: f != g ==> lists[f].q == old(lists[f].q)
    {
      LinkBoth(g, it, key, addr, s, LinkItem(s, ref(it), now));
    }

    /** do_item_unlink, as far as the index and the lists go. */
    method Unlink(g: Seg, it: LruItems.Item, key: Key, ghost s: State)
      requires Apart() && (forall f: Seg :: ListAt(s, f)) && TableIs(table, s)
      requires ref(it).ntotal == it.ntotal && ref(it).key == key && Live(s, ref(it))
      requires s.items[ref(it)].linked && s.items[ref(it)].seg == g && it in lists[g].q && it != lists[g].crawler
      modifies lists[g], lists[g].q, table
      ensures var t := UnlinkItem(s, ref(it)); Apart() && (forall f: Seg :: ListAt(t, f)) && TableIs(table, t)
      ensures forall f: Seg, o :: o in lists[f].q ==> o in old(lists[f].q)
    {
      Delete(key, s.index);
      Dequeue(g, it, s, UnlinkItem(s, ref(it)));
    }

    /** An item leaves its list, and is then on none. */
    method TakeOff(f: Seg, it: LruItems.Item, ghost s: State, ghost t: State)
      requires Apart() && (forall i: Seg :: ListAt(s, i)) && ref(it).ntotal == it.ntotal
      requires it in lists[f].q && (forall l :: l in lists ==> it != l.crawler)
      requires NoDup(s.lists[f]) && t == ItemsModel.Dequeue(s, f, ref(it))
      modifies lists[f], lists[f].q
      ensures Apart() && (forall i: Seg :: ListAt(t, i)) && Off(it) && ref(it) !in t.lists[f]
      ensures forall i :: 0 <= i < |lists[f].q| ==> lists[f].q[i] in old(lists[f].q)
      ensures forall g: Seg :: g != f ==> lists[g].q == old(lists[g].q)
    {
      assert ListAt(s, f);
      WithoutIsRemoval(lists[f].q, it);
      WithoutIsRemoval(s.lists[f], ref(it));
      OnlyThere(f, it);
      Dequeue(f, it, s, t);
    }

    /** An item leaves its list and joins the head of another. */
    method MoveItem(f: Seg, g: Seg, it: LruItems.Item, ghost s: State)
      requires f != g && Apart() && (forall i: Seg :: ListAt(s, i)) && TableIs(table, s)
      requires ref(it).ntotal == it.ntotal && ref(it) in s.items && s.items[ref(it)].seg == f
      requires NoDup(s.lists[f]) && ref(it) !in s.lists[g]
      requires it in lists[f].q && forall l :: l in lists ==> it != l.crawler
      modifies lists[f], lists[f].q, lists[g], lists[g].q
      ensures var t := Move(s, ref(it), g); Apart() && (forall i: Seg :: ListAt(t, i)) && TableIs(table, t)
      ensures forall i: Seg, o :: o in lists[i].q ==> o in old(lists[i].q) || o == it
    {
      ghost var u := ItemsModel.Dequeue(s, f, ref(it));
      assert lists[f] != lists[g];
      TakeOff(f, it, s, u);
      assert lists[g].q == old(lists[g].q);
      Enqueue(g, it, u, Move(s, ref(it), g));
    }

    /** An item moves to the head of its own list. */
    method MoveToHead(f: Seg, it: LruItems.Item, ghost s: State)
      requires Apart() && (forall i: Seg :: ListAt(s, i)) && TableIs(table, s)
      requires ref(it).ntotal == it.ntotal && ref(it) in s.items && s.items[ref(it)].seg == f && NoDup(s.lists[f])
      requires it in lists[f].q && forall l :: l in lists ==> it != l.crawler
      modifies lists[f], lists[f].q
      ensures var t := Move(s, ref(it), f); Apart() && (forall i: Seg :: ListAt(t, i)) && TableIs(table, t)
      ensures forall i: Seg, o :: o in lists[i].q ==> o in old(lists[i].q) || o == it
    {
      ghost var u := ItemsModel.Dequeue(s, f, ref(it));
      TakeOff(f, it, s, u);
      Enqueue(f, it, u, Move(s, ref(it), f));
    }

    lemma AllClear(g: Seg, s: State)
      requires Apart() && forall f: Seg :: ListAt(s, f)
      ensures forall o :: o in lists && o != lists[g] ==> Clear(o, lists[g])
    {
      forall o | o in lists && o != lists[g] ensures Clear(o, lists[g]) {
        var i :| 0 <= i < |lists| && lists[i] == o;
        var f: Seg := i;
        assert ListAt(s, f);
      }
    }

    lemma OnlyThere(f: Seg, it: LruItems.Item)
      requires Apart() && it in lists[f].q
      ensures forall l :: l in lists && l != lists[f] ==> it !in l.q
    {
      forall l | l in lists && l != lists[f] ensures it !in l.q {
        var i :| 0 <= i < |lists| && lists[i] == l;
        var g: Seg := i;
        assert lists[f] != lists[g];
      }
    }

    method Insert(key: Key, addr: nat, ghost index: map<Key, Ref>, ghost x: Ref)
      requires Assoc.Represents(table.hash, table.State(), EntriesOf(index)) && x.key == key && x.addr == addr && key !in index
      modifies table
      ensures Assoc.Represents(table.hash, table.State(), EntriesOf(index[key := x]))
    {
      EntriesInsert(index, x);
      table.Perform(Assoc.DoInsert(Assoc.Item(key, addr)), EntriesOf(index));
    }

    method Delete(key: Key, ghost index: map<Key, Ref>)
      requires Assoc.Represents(table.hash, table.State(), EntriesOf(index))
      modifies table
      ensures Assoc.Represents(table.hash, table.State(), EntriesOf(index - {key}))
    {
      EntriesDelete(index, key);
      Assoc.DeleteRefines(table.hash, table.State(), EntriesOf(index), key);
      var found := table.DeleteItem(key);
    }
  }
}
