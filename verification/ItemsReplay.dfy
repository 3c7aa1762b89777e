/** The edits of a whole run of operations carried out on the hash table and the linked lists in memory. */
module ItemsReplay {
  import opened Base
  import opened ItemsModel
  import opened ItemsNames
  import opened ItemsHeap
  import opened ItemsRuns
  import opened ItemsReach
  import Assoc
  import LruItems
  import Lru
  import E = ItemsEdits

  /** A state with this index and these lists; `x` is an item in it that belongs on list g. */
  function Around(v: E.View, x: Ref, g: Seg, linked: bool): State {
    State(map[x := Hdr(linked, 1, g, false, false, 0, 0)], v.index, v.lists, v.sizes, v.bytes, 0, 0, multiset{}, [])
  }

  lemma AroundLink(v: E.View, x: Ref, g: Seg)
    ensures E.ViewOf(LinkItem(Around(v, x, g, false), x, 0)) == E.After(v, E.Link(x, g))
  {
  }

  lemma AroundUnlink(v: E.View, x: Ref, g: Seg)
    ensures E.ViewOf(UnlinkItem(Around(v, x, g, true), x)) == E.After(v, E.Unlink(x, g))
  {
  }

  lemma AroundMove(v: E.View, x: Ref, f: Seg, g: Seg)
    ensures E.ViewOf(Move(Around(v, x, f, true), x, g)) == E.After(v, E.Shift(x, f, g))
  {
  }

  /** `objects` has the object of every item that is ever linked, `nodes` all of them and the crawlers. */
  class Memory {
    const heap: Heap
    const objects: map<Ref, LruItems.Item>
    ghost const nodes: set<LruItems.Item>

    constructor (heap: Heap, objects: map<Ref, LruItems.Item>, ghost nodes: set<LruItems.Item>)
      ensures this.heap == heap && this.objects == objects && this.nodes == nodes
    {
      this.heap, this.objects, this.nodes := heap, objects, nodes;
    }

    /** Every object stands for its item, and is no crawler. */
    ghost predicate Named() {
      forall x :: x in objects ==>
        && heap.ref(objects[x]) == x && objects[x].ntotal == x.ntotal && objects[x] in nodes
        && forall l :: l in heap.lists ==> objects[x] != l.crawler
    }

    /** An object on a list is the one of its item, or the crawler. */
    ghost predicate Known(f: Seg, o: LruItems.Item)
      requires |heap.lists| == LARGEST_ID
    {
      o in nodes && (o != heap.lists[f].crawler ==> heap.ref(o) in objects && objects[heap.ref(o)] == o)
    }

    ghost predicate Owned(f: Seg)
      requires |heap.lists| == LARGEST_ID
      reads heap.lists[f]
    {
      forall i :: 0 <= i < |heap.lists[f].q| ==> Known(f, heap.lists[f].q[i])
    }

    ghost predicate ListAt(v: E.View, f: Seg)
      requires |heap.lists| == LARGEST_ID
      reads heap.lists[f], heap.lists[f].q
    {
      ListIs(heap.lists[f], heap.ref, v.lists[f], v.sizes[f], v.bytes[f])
    }

    /** The lists in memory are those of the view. */
    ghost predicate Listed(v: E.View)
      reads heap.lists, nodes
    {
      heap.Apart() && (forall f: Seg :: heap.lists[f] in heap.lists && Owned(f)) && forall f: Seg :: ListAt(v, f)
    }

    /** The hash table and the lists in memory are this index and these lists. */
    ghost predicate Is(v: E.View)
      reads heap.lists, nodes, heap.table
    {
      Named() && Listed(v) && Assoc.Represents(heap.table.hash, heap.table.State(), EntriesOf(v.index))
    }

    /** An item on a list has an object. */
    lemma HasObject(v: E.View, f: Seg, x: Ref)
      requires Named() && Listed(v) && x in v.lists[f]
      ensures x in objects
    {
      var l := heap.lists[f];
      assert ListAt(v, f) && Owned(f);
      var c := Content(l);
      var i :| 0 <= i < |c| && Names(c, heap.ref)[i] == x;
      LruItems.StillErased(l.q, l.crawler, c[i]);
      var j :| 0 <= j < |l.q| && l.q[j] == c[i];
      assert Known(f, l.q[j]);
    }

    /** The object of an item is on the list the item is on. */
    lemma Where(v: E.View, f: Seg, x: Ref)
      requires Named() && Listed(v) && x in objects
      ensures objects[x] in heap.lists[f].q <==> x in v.lists[f]
    {
      var l := heap.lists[f];
      assert l in heap.lists && ListAt(v, f);
      var c := Content(l);
      LruItems.StillErased(l.q, l.crawler, objects[x]);
      if objects[x] in l.q {
        var i :| 0 <= i < |c| && c[i] == objects[x];
        assert Names(c, heap.ref)[i] == x;
      }
      if x in v.lists[f] {
        var i :| 0 <= i < |c| && Names(c, heap.ref)[i] == x;
        LruItems.StillErased(l.q, l.crawler, c[i]);
        assert c[i] in c;
      }
    }

    /** An item on no list: its object is on none either. */
    lemma OffLists(v: E.View, x: Ref)
      requires Named() && Listed(v) && x in objects && E.OnNone(v, x)
      ensures heap.Off(objects[x])
    {
      forall l | l in heap.lists ensures objects[x] !in l.q && objects[x] != l.crawler {
        var i :| 0 <= i < |heap.lists| && heap.lists[i] == l;
        var f: Seg := i;
        Where(v, f, x);
      }
    }

    lemma SameLists(v: E.View, s: State)
      requires heap.Apart() && v == E.ViewOf(s)
      ensures (forall f: Seg :: heap.ListAt(s, f)) <==> (forall f: Seg :: ListAt(v, f))
    {
      forall f: Seg ensures heap.ListAt(s, f) <==> ListAt(v, f) {
      }
      if forall f: Seg :: heap.ListAt(s, f) {
        forall f: Seg ensures ListAt(v, f) { assert heap.ListAt(s, f); }
      }
      if forall f: Seg :: ListAt(v, f) {
        forall f: Seg ensures heap.ListAt(s, f) { assert ListAt(v, f); }
      }
    }

    /** do_item_link. */
    method LinkItem(ghost v: E.View, x: Ref, g: Seg)
      requires Is(v) && E.Legal(v, E.Link(x, g)) && x in objects
      modifies heap.lists, nodes, heap.table
      ensures Is(E.After(v, E.Link(x, g)))
    {
      ghost var s := Around(v, x, g, false);
      OffLists(v, x);
      SameLists(v, s);
      assert heap.lists[g] in heap.lists;
      assert Known(g, objects[x]);
      heap.Link(g, objects[x], x.key, x.addr, s, 0);
      AroundLink(v, x, g);
      SameLists(E.After(v, E.Link(x, g)), ItemsModel.LinkItem(s, x, 0));
      forall f: Seg, o | o in heap.lists[f].q ensures o in nodes && Known(f, o) {
        assert o in old(heap.lists[f].q) || o == objects[x];
      }
    }

    /** do_item_unlink. */
    method UnlinkItem(ghost v: E.View, x: Ref, g: Seg)
      requires Is(v) && E.Legal(v, E.Unlink(x, g))
      modifies heap.lists, nodes, heap.table
      ensures Is(E.After(v, E.Unlink(x, g)))
    {
      ghost var s := Around(v, x, g, true);
      HasObject(v, g, x);
      Where(v, g, x);
      SameLists(v, s);
      assert heap.lists[g] in heap.lists;
      heap.Unlink(g, objects[x], x.key, s);
      AroundUnlink(v, x, g);
      SameLists(E.After(v, E.Unlink(x, g)), ItemsModel.UnlinkItem(s, x));
      forall f: Seg, o | o in heap.lists[f].q ensures o in nodes && Known(f, o) {
        assert o in old(heap.lists[f].q);
      }
    }

    /** An item moves to the head of another list. */
    method MoveOver(ghost v: E.View, x: Ref, f: Seg, g: Seg)
      requires Is(v) && E.Legal(v, E.Shift(x, f, g)) && f != g
      modifies heap.lists, nodes
      ensures Is(E.After(v, E.Shift(x, f, g)))
    {
      ghost var s := Around(v, x, f, true);
      HasObject(v, f, x);
      Where(v, f, x);
      SameLists(v, s);
      assert heap.lists[f] in heap.lists && heap.lists[g] in heap.lists && x !in v.lists[g];
      heap.MoveItem(f, g, objects[x], s);
      AroundMove(v, x, f, g);
      SameLists(E.After(v, E.Shift(x, f, g)), Move(s, x, g));
      forall i: Seg, o | o in heap.lists[i].q ensures o in nodes && Known(i, o) {
        assert o in old(heap.lists[i].q) || o == objects[x];
      }
    }

    /** An item moves to the head of its list. */
    method MoveUp(ghost v: E.View, x: Ref, f: Seg)
      requires Is(v) && E.Legal(v, E.Shift(x, f, f))
      modifies heap.lists, nodes
      ensures Is(E.After(v, E.Shift(x, f, f)))
    {
      ghost var s := Around(v, x, f, true);
      HasObject(v, f, x);
      Where(v, f, x);
      SameLists(v, s);
      assert heap.lists[f] in heap.lists;
      heap.MoveToHead(f, objects[x], s);
      AroundMove(v, x, f, f);
      SameLists(E.After(v, E.Shift(x, f, f)), Move(s, x, f));
      forall i: Seg, o | o in heap.lists[i].q ensures o in nodes && Known(i, o) {
        assert o in old(heap.lists[i].q) || o == objects[x];
      }
    }

    /** One edit. */
    method Apply(e: E.Edit, ghost v: E.View)
      requires Is(v) && E.Legal(v, e) && E.Draws(e, objects.Keys)
      modifies heap.lists, nodes, heap.table
      ensures Is(E.After(v, e))
    {
      match e {
        case Link(x, g) => LinkItem(v, x, g);
        case Unlink(x, g) => UnlinkItem(v, x, g);
        case Shift(x, f, g) => if f == g { MoveUp(v, x, f); } else { MoveOver(v, x, f, g); }
      }
    }

    /** Any edits the code may make: after each of them every list is doubly linked, counted, and the list of the model. */
    method Replay(edits: seq<E.Edit>, ghost v: E.View)
      requires Is(v) && E.AllLegal(v, edits) && forall i :: 0 <= i < |edits| ==> E.Draws(edits[i], objects.Keys)
      modifies heap.lists, nodes, heap.table
      ensures Is(E.Edited(v, edits))
    {
      var i := 0;
      ghost var u := v;
      assert edits[0..] == edits;
      while i < |edits|
        invariant 0 <= i <= |edits| && Is(u) && E.AllLegal(u, edits[i..]) && E.Edited(u, edits[i..]) == E.Edited(v, edits)
      {
        assert edits[i..][0] == edits[i] && edits[i..][1..] == edits[i + 1..];
        Apply(edits[i], u);
        u := E.After(u, edits[i]);
        i := i + 1;
      }
    }

    /**
     * Memory that holds the index and the lists of state m of a run, and the edits of the operations up to state n:
     * the hash table and every linked list are then those of state n.
     */
    method ReplayRun(edits: seq<E.Edit>, ghost states: seq<State>, ghost ops: seq<Op>, ghost m: nat, ghost n: nat)
      requires IsRun(states, ops) && m <= n <= |ops| && Is(E.ViewOf(states[m]))
      requires E.Leads(objects.Keys, E.ViewOf(states[m]), edits, E.ViewOf(states[n]))
      modifies heap.lists, nodes, heap.table
      ensures Is(E.ViewOf(states[n]))
    {
      Replay(edits, E.ViewOf(states[m]));
    }
  }

  /** There are such edits for any part of any run, the tail walks in it included. */
  lemma {:induction false} RunHasEdits(pool: set<Ref>, states: seq<State>, ops: seq<Op>, m: nat, n: nat) returns (edits: seq<E.Edit>)
    requires IsRun(states, ops) && m <= n <= |ops| && forall i :: 0 <= i < |ops| ==> Links(ops[i]) <= pool
    ensures E.Leads(pool, E.ViewOf(states[m]), edits, E.ViewOf(states[n]))
    decreases n - m
  {
    if m == n {
      edits := [];
    } else {
      var front := RunHasEdits(pool, states, ops, m, n - 1);
      RunKeepsInv(states, ops, n - 1);
      StepReaches(pool, states[n - 1], ops[n - 1]);
      var last :| E.Leads(pool, E.ViewOf(states[n - 1]), last, E.ViewOf(states[n]));
      E.LeadsOn(pool, E.ViewOf(states[m]), front, E.ViewOf(states[n - 1]), last, E.ViewOf(states[n]));
      edits := front + last;
    }
  }

  // ---------------------------------------------------------------- from the start

  /** An object for every item of the pool. */
  method NewObjects(pool: seq<Ref>) returns (objects: map<Ref, LruItems.Item>, ghost of: map<LruItems.Item, Ref>)
    ensures forall x :: x in objects <==> x in pool
    ensures forall x :: x in objects ==> fresh(objects[x]) && objects[x].ntotal == x.ntotal && objects[x] in of && of[objects[x]] == x
  {
    objects, of := map[], map[];
    var i := 0;
    while i < |pool|
      invariant 0 <= i <= |pool| && forall x :: x in objects <==> x in pool[..i]
      invariant forall o :: o in of ==> fresh(o)
      invariant forall x :: x in objects ==>
        fresh(objects[x]) && objects[x].ntotal == x.ntotal && objects[x] in of && of[objects[x]] == x
    {
      if pool[i] !in objects {
        var o := new LruItems.Item(pool[i].ntotal);
        objects, of := objects[pool[i] := o], of[o := pool[i]];
      }
      assert pool[..i + 1] == pool[..i] + [pool[i]];
      i := i + 1;
    }
  }

  /** A new list is empty; its crawler is an object of its own. */
  ghost predicate Empty(l: Lru.List)
    reads l, l.q
  {
    l.Valid() && l.q == []
  }

  method NewLists(n: nat) returns (lists: seq<Lru.List>)
    ensures |lists| == n && forall i, j :: 0 <= i < j < n ==> lists[i] != lists[j]
    ensures forall l :: l in lists ==> fresh(l) && fresh(l.crawler) && Empty(l)
  {
    lists := [];
    while |lists| < n
      invariant |lists| <= n && forall i, j :: 0 <= i < j < |lists| ==> lists[i] != lists[j]
      invariant forall l :: l in lists ==> fresh(l) && fresh(l.crawler) && Empty(l)
    {
      var crawler := new LruItems.Item(0);
      var l := new Lru.List(crawler);
      lists := lists + [l];
    }
  }

  lemma EmptyIs(l: Lru.List, ref: Naming)
    requires Empty(l)
    ensures ListIs(l, ref, [], 0, 0)
  {
  }

  /** Memory for these items, with an empty hash table and empty lists. */
  method NewMemory(hash: Assoc.Hash, hashtableInit: nat, pool: seq<Ref>) returns (m: Memory)
    ensures m.Is(E.ViewOf(Init())) && m.objects.Keys == set x | x in pool
    ensures fresh(m.heap.table) && (forall l :: l in m.heap.lists ==> fresh(l)) && forall o :: o in m.nodes ==> fresh(o)
  {
    var objects, of := NewObjects(pool);
    var lists := NewLists(LARGEST_ID);
    var table := new Assoc.HashTable(hash, hashtableInit);
    ghost var ref: Naming := o => if o in of then of[o] else Ref(0, [], 0);
    var heap := new Heap(lists, table, ref);
    m := new Memory(heap, objects, set x | x in objects :: objects[x]);
    Assoc.InitRepresents(hash, hashtableInit);
    assert EntriesOf(map[]) == map[];
    forall f: Seg ensures m.ListAt(E.ViewOf(Init()), f) && lists[f].q == [] {
      assert lists[f] in lists;
      EmptyIs(lists[f], ref);
    }
  }

  /** A whole run from the start, its edits carried out in memory. */
  method FromTheStart(hash: Assoc.Hash, hashtableInit: nat, pool: seq<Ref>, edits: seq<E.Edit>,
                      ghost states: seq<State>, ghost ops: seq<Op>) returns (m: Memory)
    requires IsRun(states, ops)
    requires E.Leads((set x | x in pool), E.ViewOf(states[0]), edits, E.ViewOf(states[|ops|]))
    ensures m.Is(E.ViewOf(states[|ops|]))
  {
    m := NewMemory(hash, hashtableInit, pool);
    m.ReplayRun(edits, states, ops, 0, |ops|);
  }
}
