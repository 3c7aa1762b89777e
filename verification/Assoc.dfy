/**
 * The item index (assoc.c): a hash table that doubles one bucket at a time while lookups go on.
 * A table is an array of chains; a chain is the list of items linked by h_next, head first.
 */
module Assoc {
  import opened Base

  type Key = seq<Byte>
  type Hash = Key -> nat
  type Chain = seq<Item>

  datatype Item = Item(key: Key, id: nat)

  datatype Index = Index(primary: seq<Chain>, prior: seq<Chain>, hashpower: nat, expanding: bool, expandBucket: nat)

  function HashSize(p: nat): (n: nat)
    ensures n > 0
  {
    if p == 0 then 1 else 2 * HashSize(p - 1)
  }

  /** What the tables always look like. */
  predicate Shape(s: Index) {
    && |s.primary| == HashSize(s.hashpower)
    && (s.expanding ==> s.hashpower > 0 && |s.prior| == HashSize(s.hashpower - 1) && s.expandBucket < |s.prior|)
  }

  /** The test all three entry points make: has the key's old bucket still to be migrated? */
  predicate InOld(h: Hash, s: Index, k: Key)
    requires Shape(s)
  {
    s.expanding && h(k) % HashSize(s.hashpower - 1) >= s.expandBucket
  }

  function Bucket(h: Hash, k: Key, p: nat): (b: nat)
    ensures b < HashSize(p)
  {
    h(k) % HashSize(p)
  }

  function ChainOf(h: Hash, s: Index, k: Key): Chain
    requires Shape(s)
  {
    if InOld(h, s, k) then s.prior[Bucket(h, k, s.hashpower - 1)] else s.primary[Bucket(h, k, s.hashpower)]
  }

  function WithChain(h: Hash, s: Index, k: Key, c: Chain): Index
    requires Shape(s)
  {
    if InOld(h, s, k) then s.(prior := s.prior[Bucket(h, k, s.hashpower - 1) := c])
    else s.(primary := s.primary[Bucket(h, k, s.hashpower) := c])
  }

  function Search(c: Chain, k: Key): Option<Item> {
    if c == [] then None else if c[0].key == k then Some(c[0]) else Search(c[1..], k)
  }

  function Cut(c: Chain, k: Key): Chain {
    if c == [] then [] else if c[0].key == k then c[1..] else [c[0]] + Cut(c[1..], k)
  }

  // ---------------------------------------------------------------- the operations

  function Find(h: Hash, s: Index, k: Key): Option<Item>
    requires Shape(s)
  {
    Search(ChainOf(h, s, k), k)
  }

  function Insert(h: Hash, s: Index, it: Item): Index
    requires Shape(s)
  {
    WithChain(h, s, it.key, [it] + ChainOf(h, s, it.key))
  }

  function Delete(h: Hash, s: Index, k: Key): Index
    requires Shape(s)
  {
    WithChain(h, s, k, Cut(ChainOf(h, s, k), k))
  }

  function EmptyTable(n: nat): seq<Chain> {
    seq(n, i => [])
  }

  /** Expansion starts; `room` says whether the larger table could be allocated. */
  function Expand(s: Index, room: bool): Index {
    if room then Index(EmptyTable(HashSize(s.hashpower + 1)), s.primary, s.hashpower + 1, true, 0)
    else s
  }

  function Push(h: Hash, t: seq<Chain>, p: nat, it: Item): (u: seq<Chain>)
    requires |t| == HashSize(p)
    ensures |u| == |t|
  {
    var b := Bucket(h, it.key, p);
    t[b := [it] + t[b]]
  }

  /** The items of a chain pushed one by one, head first, onto their buckets of the larger table. */
  function Moved(h: Hash, t: seq<Chain>, p: nat, c: Chain): (u: seq<Chain>)
    requires |t| == HashSize(p)
    ensures |u| == |t|
    decreases |c|
  {
    if c == [] then t else Moved(h, Push(h, t, p, c[0]), p, c[1..])
  }

  /** One bucket is migrated; after the last one the old table is freed. */
  function Migrate(h: Hash, s: Index): Index
    requires Shape(s) && s.expanding
  {
    var next := s.expandBucket + 1;
    var primary := Moved(h, s.primary, s.hashpower, s.prior[s.expandBucket]);
    if next == HashSize(s.hashpower - 1) then Index(primary, [], s.hashpower, false, next)
    else Index(primary, s.prior[s.expandBucket := []], s.hashpower, true, next)
  }

  // ---------------------------------------------------------------- the invariant

  ghost predicate DistinctKeys(c: Chain) {
    forall i, j :: 0 <= i < j < |c| ==> c[i].key != c[j].key
  }

  ghost predicate Home(h: Hash, p: nat, b: nat, c: Chain) {
    forall i :: 0 <= i < |c| ==> Bucket(h, c[i].key, p) == b
  }

  /** Every item hangs in its own bucket, and no two items of a chain share a key. */
  ghost predicate TableOk(h: Hash, t: seq<Chain>, p: nat) {
    && |t| == HashSize(p)
    && forall b :: 0 <= b < |t| ==> Home(h, p, b, t[b]) && DistinctKeys(t[b])
  }

  /** The items of the larger table come from buckets already migrated. */
  ghost predicate Migrated(h: Hash, c: Chain, p: nat, limit: nat) {
    forall i :: 0 <= i < |c| ==> Bucket(h, c[i].key, p) < limit
  }

  ghost predicate Ok(h: Hash, s: Index) {
    && Shape(s) && TableOk(h, s.primary, s.hashpower)
    && (s.expanding ==>
          && TableOk(h, s.prior, s.hashpower - 1)
          && (forall b :: 0 <= b < s.expandBucket ==> s.prior[b] == [])
          && (forall b :: 0 <= b < |s.primary| ==> Migrated(h, s.primary[b], s.hashpower - 1, s.expandBucket)))
  }

  // ---------------------------------------------------------------- the abstract view

  /** All items of a table, with multiplicity. */
  ghost function Bag(t: seq<Chain>): multiset<Item> {
    if t == [] then multiset{} else multiset(t[0]) + Bag(t[1..])
  }

  ghost function Items(s: Index): multiset<Item> {
    Bag(s.primary) + if s.expanding then Bag(s.prior) else multiset{}
  }

  /** The items of a bag are those of one finite map, each of them once. */
  ghost predicate Holds(items: multiset<Item>, m: map<Key, Item>) {
    && (forall k :: k in m ==> m[k].key == k)
    && (forall it :: items[it] == if it.key in m && m[it.key] == it then 1 else 0)
  }

  /** The index holds exactly the items of one finite map, each of them once. */
  ghost predicate Represents(h: Hash, s: Index, m: map<Key, Item>) {
    Ok(h, s) && Holds(Items(s), m)
  }

  // ---------------------------------------------------------------- bags

  lemma {:induction false} BagUpdate(t: seq<Chain>, b: nat, c: Chain)
    requires b < |t|
    ensures multiset(t[b]) <= Bag(t)
    ensures Bag(t[b := c]) == Bag(t) - multiset(t[b]) + multiset(c)
  {
    if b == 0 {
      assert t[b := c][1..] == t[1..];
    } else {
      BagUpdate(t[1..], b - 1, c);
      assert t[b := c][1..] == t[1..][b - 1 := c];
      assert t[1..][b - 1] == t[b];
    }
  }

  lemma {:induction false} EmptyBag(t: seq<Chain>)
    requires forall b :: 0 <= b < |t| ==> t[b] == []
    ensures Bag(t) == multiset{}
  {
    if t != [] { EmptyBag(t[1..]); }
  }

  lemma {:induction false} InBag(t: seq<Chain>, it: Item)
    ensures it in Bag(t) ==> exists b :: 0 <= b < |t| && it in t[b]
  {
    if t != [] && it in Bag(t) && it !in t[0] {
      InBag(t[1..], it);
      var b :| 0 <= b < |t[1..]| && it in t[1..][b];
      assert it in t[b + 1];
    }
  }

  lemma PushedBag(c: Chain, it: Item)
    ensures multiset([it] + c) == multiset{it} + multiset(c)
  {
  }

  lemma {:induction false} MovedBag(h: Hash, t: seq<Chain>, p: nat, c: Chain)
    requires |t| == HashSize(p)
    ensures Bag(Moved(h, t, p, c)) == Bag(t) + multiset(c)
    decreases |c|
  {
    if c != [] {
      var b := Bucket(h, c[0].key, p);
      BagUpdate(t, b, [c[0]] + t[b]);
      PushedBag(t[b], c[0]);
      MovedBag(h, Push(h, t, p, c[0]), p, c[1..]);
      assert c == [c[0]] + c[1..];
    }
  }

  // ---------------------------------------------------------------- chains

  lemma {:induction false} SearchFinds(c: Chain, k: Key)
    requires DistinctKeys(c)
    ensures Search(c, k).None? ==> forall it :: it in c ==> it.key != k
    ensures Search(c, k).Some? ==> Search(c, k).value in c && Search(c, k).value.key == k
    ensures Search(c, k).Some? ==> forall it :: it in c && it.key == k ==> it == Search(c, k).value
  {
    if c != [] {
      assert c == [c[0]] + c[1..];
      if c[0].key != k { SearchFinds(c[1..], k); }
    }
  }

  lemma {:induction false} CutRemoves(c: Chain, k: Key)
    ensures Search(c, k).Some? ==> Search(c, k).value in c && multiset(Cut(c, k)) == multiset(c) - multiset{Search(c, k).value}
    ensures Search(c, k).None? ==> Cut(c, k) == c
    ensures forall it :: it in Cut(c, k) ==> it in c
  {
    if c != [] {
      assert c == [c[0]] + c[1..];
      if c[0].key != k { CutRemoves(c[1..], k); }
    }
  }

  lemma {:induction false} CutKeepsDistinct(c: Chain, k: Key)
    requires DistinctKeys(c)
    ensures DistinctKeys(Cut(c, k))
  {
    if c != [] && c[0].key != k {
      CutKeepsDistinct(c[1..], k);
      CutRemoves(c[1..], k);
      var d := Cut(c[1..], k);
      forall j | 0 <= j < |d| ensures d[j].key != c[0].key {
        assert d[j] in c[1..];
      }
    }
  }

  lemma PushKeepsDistinct(c: Chain, it: Item)
    requires DistinctKeys(c) && forall x :: x in c ==> x.key != it.key
    ensures DistinctKeys([it] + c)
  {
    var d := [it] + c;
    forall i, j | 0 <= i < j < |d| ensures d[i].key != d[j].key {
      assert d[j] == c[j - 1];
      assert c[j - 1] in c;
    }
  }

  // ---------------------------------------------------------------- one chain of the index

  lemma ChainChange(h: Hash, s: Index, k: Key, c: Chain)
    requires Shape(s)
    ensures Shape(WithChain(h, s, k, c))
    ensures multiset(ChainOf(h, s, k)) <= Items(s)
    ensures Items(WithChain(h, s, k, c)) == Items(s) - multiset(ChainOf(h, s, k)) + multiset(c)
  {
    if InOld(h, s, k) {
      BagUpdate(s.prior, Bucket(h, k, s.hashpower - 1), c);
      SwapRight(Bag(s.primary), Bag(s.prior), multiset(ChainOf(h, s, k)), multiset(c));
    } else {
      BagUpdate(s.primary, Bucket(h, k, s.hashpower), c);
      SwapLeft(Bag(s.primary), if s.expanding then Bag(s.prior) else multiset{}, multiset(ChainOf(h, s, k)), multiset(c));
    }
  }

  lemma SwapLeft(a: multiset<Item>, b: multiset<Item>, c: multiset<Item>, d: multiset<Item>)
    requires c <= a
    ensures (a - c + d) + b == (a + b) - c + d && c <= a + b
  {
  }

  lemma SwapRight(a: multiset<Item>, b: multiset<Item>, c: multiset<Item>, d: multiset<Item>)
    requires c <= b
    ensures a + (b - c + d) == (a + b) - c + d && c <= a + b
  {
  }

  lemma TableChange(h: Hash, t: seq<Chain>, p: nat, b: nat, c: Chain)
    requires TableOk(h, t, p) && b < |t| && Home(h, p, b, c) && DistinctKeys(c)
    ensures TableOk(h, t[b := c], p)
  {
  }

  /** The items of a chain belong where the chain hangs. */
  ghost predicate Belongs(h: Hash, s: Index, k: Key, it: Item)
    requires Shape(s)
  {
    if InOld(h, s, k) then Bucket(h, it.key, s.hashpower - 1) == Bucket(h, k, s.hashpower - 1)
    else && Bucket(h, it.key, s.hashpower) == Bucket(h, k, s.hashpower)
         && (s.expanding ==> Bucket(h, it.key, s.hashpower - 1) < s.expandBucket)
  }

  lemma ChainBelongs(h: Hash, s: Index, k: Key)
    requires Ok(h, s)
    ensures DistinctKeys(ChainOf(h, s, k)) && forall it :: it in ChainOf(h, s, k) ==> Belongs(h, s, k, it)
  {
    var c := ChainOf(h, s, k);
    forall it | it in c ensures Belongs(h, s, k, it) {
      var i :| 0 <= i < |c| && c[i] == it;
      if InOld(h, s, k) {
        assert Home(h, s.hashpower - 1, Bucket(h, k, s.hashpower - 1), c);
      } else {
        assert Home(h, s.hashpower, Bucket(h, k, s.hashpower), c);
      }
    }
  }

  lemma WithChainOk(h: Hash, s: Index, k: Key, c: Chain)
    requires Ok(h, s) && DistinctKeys(c) && forall it :: it in c ==> Belongs(h, s, k, it)
    ensures Ok(h, WithChain(h, s, k, c))
  {
    forall i | 0 <= i < |c| ensures Belongs(h, s, k, c[i]) { assert c[i] in c; }
    if InOld(h, s, k) {
      TableChange(h, s.prior, s.hashpower - 1, Bucket(h, k, s.hashpower - 1), c);
    } else {
      TableChange(h, s.primary, s.hashpower, Bucket(h, k, s.hashpower), c);
      assert s.expanding ==> Migrated(h, c, s.hashpower - 1, s.expandBucket);
    }
  }

  // ---------------------------------------------------------------- find

  /** An item anywhere in the tables is in the chain that a search for its key walks. */
  lemma OnlyPlace(h: Hash, s: Index, it: Item)
    requires Ok(h, s) && it in Items(s)
    ensures it in ChainOf(h, s, it.key)
  {
    if it in Bag(s.primary) {
      InBag(s.primary, it);
      var b :| 0 <= b < |s.primary| && it in s.primary[b];
      var i :| 0 <= i < |s.primary[b]| && s.primary[b][i] == it;
      assert Home(h, s.hashpower, b, s.primary[b]);
      assert s.expanding ==> Migrated(h, s.primary[b], s.hashpower - 1, s.expandBucket);
    } else {
      InBag(s.prior, it);
      var b :| 0 <= b < |s.prior| && it in s.prior[b];
      var i :| 0 <= i < |s.prior[b]| && s.prior[b][i] == it;
      assert Home(h, s.hashpower - 1, b, s.prior[b]);
    }
  }

  /** Lookup answers from the finite map, at every moment of an expansion. */
  lemma FindIsLookup(h: Hash, s: Index, m: map<Key, Item>, k: Key)
    requires Represents(h, s, m)
    ensures Find(h, s, k) == if k in m then Some(m[k]) else None
  {
    var c := ChainOf(h, s, k);
    ChainBelongs(h, s, k);
    SearchFinds(c, k);
    ChainChange(h, s, k, c);
    if k in m {
      assert Items(s)[m[k]] == 1;
      OnlyPlace(h, s, m[k]);
    }
    if Find(h, s, k).Some? {
      assert Find(h, s, k).value in multiset(c);
    }
  }

  // ---------------------------------------------------------------- insert and delete

  lemma HoldsMore(items: multiset<Item>, m: map<Key, Item>, it: Item)
    requires Holds(items, m) && it.key !in m
    ensures Holds(items + multiset{it}, m[it.key := it])
  {
  }

  lemma HoldsLess(items: multiset<Item>, m: map<Key, Item>, k: Key)
    requires Holds(items, m) && k in m
    ensures Holds(items - multiset{m[k]}, m - {k})
  {
  }

  lemma InsertKeepsOk(h: Hash, s: Index, m: map<Key, Item>, it: Item)
    requires Represents(h, s, m) && it.key !in m
    ensures Ok(h, Insert(h, s, it))
  {
    var c := ChainOf(h, s, it.key);
    ChainBelongs(h, s, it.key);
    FindIsLookup(h, s, m, it.key);
    SearchFinds(c, it.key);
    PushKeepsDistinct(c, it);
    WithChainOk(h, s, it.key, [it] + c);
  }

  lemma InsertAddsItem(h: Hash, s: Index, it: Item)
    requires Shape(s)
    ensures Shape(Insert(h, s, it)) && Items(Insert(h, s, it)) == Items(s) + multiset{it}
  {
    var c := ChainOf(h, s, it.key);
    ChainChange(h, s, it.key, [it] + c);
    PushedBag(c, it);
  }

  lemma InsertRefines(h: Hash, s: Index, m: map<Key, Item>, it: Item)
    requires Represents(h, s, m) && it.key !in m
    ensures Represents(h, Insert(h, s, it), m[it.key := it])
  {
    InsertKeepsOk(h, s, m, it);
    InsertAddsItem(h, s, it);
    HoldsMore(Items(s), m, it);
  }

  lemma DeleteKeepsOk(h: Hash, s: Index, k: Key)
    requires Ok(h, s)
    ensures Ok(h, Delete(h, s, k))
  {
    var c := ChainOf(h, s, k);
    ChainBelongs(h, s, k);
    CutRemoves(c, k);
    CutKeepsDistinct(c, k);
    WithChainOk(h, s, k, Cut(c, k));
  }

  lemma TakeOne(all: multiset<Item>, c: multiset<Item>, x: Item)
    requires c <= all && x in c
    ensures all - c + (c - multiset{x}) == all - multiset{x}
  {
  }

  lemma MoveOver(a: multiset<Item>, b: multiset<Item>, c: multiset<Item>)
    requires c <= b
    ensures (a + c) + (b - c) == a + b
  {
  }

  lemma DeleteTakesItem(h: Hash, s: Index, k: Key)
    requires Shape(s)
    ensures Shape(Delete(h, s, k))
    ensures var found := Find(h, s, k);
            Items(Delete(h, s, k)) == if found.Some? then Items(s) - multiset{found.value} else Items(s)
  {
    var c := ChainOf(h, s, k);
    ChainChange(h, s, k, Cut(c, k));
    CutRemoves(c, k);
    if Find(h, s, k).Some? {
      TakeOne(Items(s), multiset(c), Find(h, s, k).value);
    }
  }

  lemma DeleteRefines(h: Hash, s: Index, m: map<Key, Item>, k: Key)
    requires Represents(h, s, m)
    ensures Represents(h, Delete(h, s, k), m - {k})
  {
    DeleteKeepsOk(h, s, k);
    DeleteTakesItem(h, s, k);
    FindIsLookup(h, s, m, k);
    if k in m {
      HoldsLess(Items(s), m, k);
    } else {
      assert m - {k} == m;
    }
  }

  // ---------------------------------------------------------------- expansion

  lemma ExpandKeepsItems(s: Index, room: bool)
    requires !s.expanding
    ensures Items(Expand(s, room)) == Items(s)
  {
    EmptyBag(EmptyTable(HashSize(s.hashpower + 1)));
  }

  lemma ExpandKeepsOk(h: Hash, s: Index, room: bool)
    requires Ok(h, s) && !s.expanding
    ensures Ok(h, Expand(s, room))
  {
  }

  lemma ExpandRefines(h: Hash, s: Index, m: map<Key, Item>, room: bool)
    requires Represents(h, s, m) && !s.expanding
    ensures Represents(h, Expand(s, room), m)
  {
    ExpandKeepsItems(s, room);
    ExpandKeepsOk(h, s, room);
  }

  /** Pushing an item that is already at home elsewhere with no rival for its key. */
  lemma PushOk(h: Hash, t: seq<Chain>, p: nat, it: Item)
    requires TableOk(h, t, p) && forall x :: x in t[Bucket(h, it.key, p)] ==> x.key != it.key
    ensures TableOk(h, Push(h, t, p, it), p)
  {
    var b := Bucket(h, it.key, p);
    PushKeepsDistinct(t[b], it);
    TableChange(h, t, p, b, [it] + t[b]);
  }

  /** No item of the table has a key of the chain. */
  ghost predicate Apart(t: seq<Chain>, c: Chain) {
    forall b, i, j :: 0 <= b < |t| && 0 <= i < |t[b]| && 0 <= j < |c| ==> t[b][i].key != c[j].key
  }

  lemma PushApart(h: Hash, t: seq<Chain>, p: nat, c: Chain)
    requires |t| == HashSize(p) && c != [] && DistinctKeys(c) && Apart(t, c)
    ensures Apart(Push(h, t, p, c[0]), c[1..])
  {
  }

  lemma {:induction false} MovedOk(h: Hash, t: seq<Chain>, p: nat, c: Chain)
    requires TableOk(h, t, p) && DistinctKeys(c) && Apart(t, c)
    ensures TableOk(h, Moved(h, t, p, c), p)
    decreases |c|
  {
    if c != [] {
      PushOk(h, t, p, c[0]);
      PushApart(h, t, p, c);
      MovedOk(h, Push(h, t, p, c[0]), p, c[1..]);
    }
  }

  lemma {:induction false} MovedMigrated(h: Hash, t: seq<Chain>, p: nat, c: Chain, q: nat, limit: nat)
    requires |t| == HashSize(p) && Migrated(h, c, q, limit)
    requires forall b :: 0 <= b < |t| ==> Migrated(h, t[b], q, limit)
    ensures forall b :: 0 <= b < |t| ==> Migrated(h, Moved(h, t, p, c)[b], q, limit)
    decreases |c|
  {
    if c != [] {
      var b := Bucket(h, c[0].key, p);
      assert Migrated(h, [c[0]] + t[b], q, limit);
      MovedMigrated(h, Push(h, t, p, c[0]), p, c[1..], q, limit);
    }
  }

  lemma BucketApart(h: Hash, s: Index)
    requires Ok(h, s) && s.expanding
    ensures Apart(s.primary, s.prior[s.expandBucket])
  {
    var c := s.prior[s.expandBucket];
    forall b, i, j | 0 <= b < |s.primary| && 0 <= i < |s.primary[b]| && 0 <= j < |c|
      ensures s.primary[b][i].key != c[j].key
    {
      assert Migrated(h, s.primary[b], s.hashpower - 1, s.expandBucket);
      assert Home(h, s.hashpower - 1, s.expandBucket, c);
    }
  }

  /** When the migration of the last bucket frees the old table, that table is empty. */
  lemma FreedTableIsEmpty(h: Hash, s: Index, b: nat)
    requires Ok(h, s) && s.expanding && !Migrate(h, s).expanding && b < |s.prior|
    ensures s.prior[s.expandBucket := []][b] == []
  {
  }

  lemma MigrateOk(h: Hash, s: Index)
    requires Ok(h, s) && s.expanding
    ensures Ok(h, Migrate(h, s))
  {
    var c := s.prior[s.expandBucket];
    BucketApart(h, s);
    MovedOk(h, s.primary, s.hashpower, c);
    assert Home(h, s.hashpower - 1, s.expandBucket, c);
    var limit := s.expandBucket + 1;
    forall b | 0 <= b < |s.primary| ensures Migrated(h, s.primary[b], s.hashpower - 1, limit) {
      assert Migrated(h, s.primary[b], s.hashpower - 1, s.expandBucket);
    }
    MovedMigrated(h, s.primary, s.hashpower, c, s.hashpower - 1, limit);
    TableChange(h, s.prior, s.hashpower - 1, s.expandBucket, []);
  }

  /** Migrating a bucket loses nothing and duplicates nothing. */
  lemma MigrateKeepsItems(h: Hash, s: Index)
    requires Ok(h, s) && s.expanding
    ensures Items(Migrate(h, s)) == Items(s)
  {
    var c := s.prior[s.expandBucket];
    MovedBag(h, s.primary, s.hashpower, c);
    BagUpdate(s.prior, s.expandBucket, []);
    MoveOver(Bag(s.primary), Bag(s.prior), multiset(c));
    var rest := s.prior[s.expandBucket := []];
    if !Migrate(h, s).expanding {
      forall b | 0 <= b < |rest| ensures rest[b] == [] { FreedTableIsEmpty(h, s, b); }
      EmptyBag(rest);
    }
  }

  lemma MigrateRefines(h: Hash, s: Index, m: map<Key, Item>)
    requires Represents(h, s, m) && s.expanding
    ensures Represents(h, Migrate(h, s), m)
  {
    MigrateOk(h, s);
    MigrateKeepsItems(h, s);
  }

  // ---------------------------------------------------------------- why the key must be absent

  function LastOf(c: Chain, k: Key): Option<Item> {
    if c == [] then None
    else
      var r := LastOf(c[1..], k);
      if r.Some? then r else if c[0].key == k then Some(c[0]) else None
  }

  /** Migration reverses a chain: afterwards a lookup meets the chain's last holder of the key first. */
  lemma {:induction false} MovedSearch(h: Hash, t: seq<Chain>, p: nat, c: Chain, k: Key)
    requires |t| == HashSize(p)
    ensures var last := LastOf(c, k);
            Search(Moved(h, t, p, c)[Bucket(h, k, p)], k) == if last.Some? then last else Search(t[Bucket(h, k, p)], k)
    decreases |c|
  {
    if c != [] {
      MovedSearch(h, Push(h, t, p, c[0]), p, c[1..], k);
      assert ([c[0]] + t[Bucket(h, c[0].key, p)])[1..] == t[Bucket(h, c[0].key, p)];
    }
  }

  /** In a chain without rivals the first holder of a key is the last one. */
  lemma {:induction false} OnlyHolder(c: Chain, k: Key)
    requires DistinctKeys(c)
    ensures LastOf(c, k) == Search(c, k)
  {
    if c != [] {
      OnlyHolder(c[1..], k);
      if c[0].key == k { NoRival(c[1..], k); }
    }
  }

  lemma {:induction false} NoRival(c: Chain, k: Key)
    requires forall i :: 0 <= i < |c| ==> c[i].key != k
    ensures Search(c, k).None? && LastOf(c, k).None?
  {
    if c != [] { NoRival(c[1..], k); }
  }

  /** An item pushed onto a chain does not become the last holder of a key that has one. */
  lemma PushKeepsLast(it: Item, c: Chain, k: Key)
    ensures LastOf(c, k).Some? ==> LastOf([it] + c, k) == LastOf(c, k)
  {
    assert ([it] + c)[1..] == c;
  }

  lemma {:induction false} MovedKeepsLast(h: Hash, t: seq<Chain>, p: nat, c: Chain, b: nat, k: Key)
    requires |t| == HashSize(p) && b < |t| && LastOf(t[b], k).Some?
    ensures LastOf(Moved(h, t, p, c)[b], k) == LastOf(t[b], k)
    decreases |c|
  {
    if c != [] {
      PushKeepsLast(c[0], t[b], k);
      MovedKeepsLast(h, Push(h, t, p, c[0]), p, c[1..], b, k);
    }
  }

  /** The maintenance thread goes on: the next bucket, or the next expansion. */
  function Grow(h: Hash, s: Index): (t: Index)
    requires Shape(s)
    ensures Shape(t)
  {
    if s.expanding then Migrate(h, s) else Expand(s, true)
  }

  function Grown(h: Hash, s: Index, n: nat): (t: Index)
    requires Shape(s)
    ensures Shape(t)
    decreases n
  {
    if n == 0 then s else Grown(h, Grow(h, s), n - 1)
  }

  /** The last holder of the key in the chain that a search for it walks. */
  function Oldest(h: Hash, s: Index, k: Key): Option<Item>
    requires Shape(s)
  {
    LastOf(ChainOf(h, s, k), k)
  }

  /** How many steps it takes until the bucket of the key is the next to be migrated. */
  function Wait(h: Hash, s: Index, k: Key): nat
    requires Shape(s)
  {
    if !s.expanding then 1 + Bucket(h, k, s.hashpower)
    else if InOld(h, s, k) then Bucket(h, k, s.hashpower - 1) - s.expandBucket
    else |s.prior| - s.expandBucket + 1 + Bucket(h, k, s.hashpower)
  }

  /** An expansion begins: the chain is now one of the old table. */
  lemma WaitAtRest(h: Hash, s: Index, k: Key)
    requires Shape(s) && !s.expanding
    ensures Oldest(h, Grow(h, s), k) == Oldest(h, s, k) && Wait(h, Grow(h, s), k) < Wait(h, s, k)
  {
  }

  /** Another bucket is migrated, that of the key is still to come. */
  lemma WaitInOld(h: Hash, s: Index, k: Key)
    requires Shape(s) && InOld(h, s, k) && Bucket(h, k, s.hashpower - 1) != s.expandBucket
    ensures Oldest(h, Grow(h, s), k) == Oldest(h, s, k) && Wait(h, Grow(h, s), k) < Wait(h, s, k)
  {
  }

  /** Another bucket is migrated, that of the key has been. */
  lemma WaitInNew(h: Hash, s: Index, k: Key)
    requires Shape(s) && s.expanding && !InOld(h, s, k) && Oldest(h, s, k).Some?
    ensures Oldest(h, Grow(h, s), k) == Oldest(h, s, k) && Wait(h, Grow(h, s), k) < Wait(h, s, k)
  {
    MovedKeepsLast(h, s.primary, s.hashpower, s.prior[s.expandBucket], Bucket(h, k, s.hashpower), k);
  }

  /** The bucket of the key is migrated: its last holder is found. */
  lemma WaitIsOver(h: Hash, s: Index, k: Key)
    requires Shape(s) && InOld(h, s, k) && Bucket(h, k, s.hashpower - 1) == s.expandBucket && Oldest(h, s, k).Some?
    ensures Find(h, Grow(h, s), k) == Oldest(h, s, k)
  {
    MovedSearch(h, s.primary, s.hashpower, s.prior[s.expandBucket], k);
  }

  /** Sooner or later a lookup finds the last holder of the key. */
  lemma {:induction false} OldestFound(h: Hash, s: Index, k: Key) returns (n: nat)
    requires Shape(s) && Oldest(h, s, k).Some?
    ensures Find(h, Grown(h, s, n), k) == Oldest(h, s, k)
    decreases Wait(h, s, k)
  {
    var t := Grow(h, s);
    if InOld(h, s, k) && Bucket(h, k, s.hashpower - 1) == s.expandBucket {
      WaitIsOver(h, s, k);
      n := 1;
      assert Grown(h, t, 0) == t;
    } else {
      if !s.expanding { WaitAtRest(h, s, k); } else if InOld(h, s, k) { WaitInOld(h, s, k); } else { WaitInNew(h, s, k); }
      n := OldestFound(h, t, k);
      n := n + 1;
    }
  }

  /** A second item under a key: it is found at first, and some steps of the maintenance thread later the first one is. */
  lemma DuplicateFlips(h: Hash, s: Index, a: Item, b: Item) returns (n: nat)
    requires Ok(h, s) && Find(h, s, b.key) == Some(a)
    ensures Find(h, Insert(h, s, b), b.key) == Some(b) && Find(h, Grown(h, Insert(h, s, b), n), b.key) == Some(a)
  {
    var c, t := ChainOf(h, s, b.key), Insert(h, s, b);
    ChainBelongs(h, s, b.key);
    OnlyHolder(c, b.key);
    PushKeepsLast(b, c, b.key);
    assert ChainOf(h, t, b.key) == [b] + c;
    n := OldestFound(h, t, b.key);
  }

  lemma {:induction false} GrownRefines(h: Hash, s: Index, m: map<Key, Item>, n: nat)
    requires Represents(h, s, m)
    ensures Represents(h, Grown(h, s, n), m)
    decreases n
  {
    if n > 0 {
      if s.expanding { MigrateRefines(h, s, m); } else { ExpandRefines(h, s, m, true); }
      GrownRefines(h, Grow(h, s), m, n - 1);
    }
  }

  ghost predicate FoundAfter(h: Hash, s: Index, b: Item, n: nat)
    requires Shape(s)
  {
    Find(h, Grown(h, s, n), b.key) == Some(b)
  }

  /** The item is found, and stays found however far the table grows. */
  ghost predicate StaysFound(h: Hash, s: Index, b: Item)
    requires Shape(s)
  {
    forall n: nat :: FoundAfter(h, s, b, n)
  }

  lemma OnlyOneIsFound(h: Hash, t: Index, m: map<Key, Item>, b: Item, n: nat)
    requires Represents(h, t, m) && b.key in m && m[b.key] == b
    ensures FoundAfter(h, t, b, n)
  {
    GrownRefines(h, t, m, n);
    FindIsLookup(h, Grown(h, t, n), m, b.key);
  }

  lemma RivalIsLost(h: Hash, s: Index, m: map<Key, Item>, b: Item) returns (n: nat)
    requires Represents(h, s, m) && b.key in m && m[b.key] != b
    ensures !FoundAfter(h, Insert(h, s, b), b, n)
  {
    FindIsLookup(h, s, m, b.key);
    n := DuplicateFlips(h, s, m[b.key], b);
  }

  /** A newly inserted item stays found exactly when there was no other under its key. */
  lemma NewestFoundIff(h: Hash, s: Index, m: map<Key, Item>, b: Item)
    requires Represents(h, s, m) && (b.key in m ==> m[b.key] != b)
    ensures StaysFound(h, Insert(h, s, b), b) <==> b.key !in m
  {
    if b.key in m {
      var n := RivalIsLost(h, s, m, b);
    } else {
      InsertRefines(h, s, m, b);
      forall n: nat ensures FoundAfter(h, Insert(h, s, b), b, n) {
        OnlyOneIsFound(h, Insert(h, s, b), m[b.key := b], b, n);
      }
    }
  }

  // ---------------------------------------------------------------- runs

  datatype Op = DoInsert(it: Item) | DoDelete(k: Key) | DoExpand(room: bool) | DoMigrate

  /** What the callers and the maintenance thread see to before each operation. */
  predicate Enabled(s: Index, m: map<Key, Item>, op: Op) {
    match op
    case DoInsert(it) => it.key !in m
    case DoDelete(k) => k in m
    case DoExpand(room) => !s.expanding
    case DoMigrate => s.expanding
  }

  function Apply(h: Hash, s: Index, op: Op): Index
    requires Shape(s) && (op.DoMigrate? ==> s.expanding)
  {
    match op
    case DoInsert(it) => Insert(h, s, it)
    case DoDelete(k) => Delete(h, s, k)
    case DoExpand(room) => Expand(s, room)
    case DoMigrate => Migrate(h, s)
  }

  function Effect(m: map<Key, Item>, op: Op): map<Key, Item> {
    match op
    case DoInsert(it) => m[it.key := it]
    case DoDelete(k) => m - {k}
    case DoExpand(_) => m
    case DoMigrate => m
  }

  function Effects(m: map<Key, Item>, ops: seq<Op>): map<Key, Item>
    decreases |ops|
  {
    if ops == [] then m else Effects(Effect(m, ops[0]), ops[1..])
  }

  ghost predicate IsRun(h: Hash, states: seq<Index>, m: map<Key, Item>, ops: seq<Op>)
    decreases |ops|
  {
    && |states| == |ops| + 1
    && (ops != [] ==>
          && Shape(states[0]) && Enabled(states[0], m, ops[0])
          && states[1] == Apply(h, states[0], ops[0])
          && IsRun(h, states[1..], Effect(m, ops[0]), ops[1..]))
  }

  lemma StepRefines(h: Hash, s: Index, m: map<Key, Item>, op: Op)
    requires Represents(h, s, m) && Enabled(s, m, op)
    ensures Represents(h, Apply(h, s, op), Effect(m, op))
  {
    match op
    case DoInsert(it) => InsertRefines(h, s, m, it);
    case DoDelete(k) => DeleteRefines(h, s, m, k);
    case DoExpand(room) => ExpandRefines(h, s, m, room);
    case DoMigrate => MigrateRefines(h, s, m);
  }

  /** Through every run the two tables stand for one finite map, and lookups answer from it. */
  lemma {:induction false} RunRefines(h: Hash, states: seq<Index>, m: map<Key, Item>, ops: seq<Op>, k: Key)
    requires IsRun(h, states, m, ops) && Represents(h, states[0], m)
    ensures var last, n := states[|ops|], Effects(m, ops);
            Represents(h, last, n) && Find(h, last, k) == if k in n then Some(n[k]) else None
    decreases |ops|
  {
    if ops == [] {
      FindIsLookup(h, states[0], m, k);
    } else {
      StepRefines(h, states[0], m, ops[0]);
      RunRefines(h, states[1..], Effect(m, ops[0]), ops[1..], k);
    }
  }

  function Init(p: nat): Index {
    Index(EmptyTable(HashSize(p)), [], p, false, 0)
  }

  lemma InitRepresents(h: Hash, p: nat)
    ensures Represents(h, Init(p), map[])
  {
    EmptyBag(EmptyTable(HashSize(p)));
  }

  // ---------------------------------------------------------------- the code

  /** The globals of assoc.c and the functions that update them. */
  class HashTable {
    const hash: Hash
    var primaryTable: seq<Chain>
    var oldTable: seq<Chain>
    var hashpower: nat
    var expanding: bool
    var expandBucket: nat

    /** Outside an expansion nobody looks at the old table. */
    ghost function State(): Index
      reads this
    {
      Index(primaryTable, if expanding then oldTable else [], hashpower, expanding, expandBucket)
    }

    constructor (h: Hash, hashtableInit: nat)
      ensures hash == h && State() == Init(hashtableInit) && Shape(State())
    {
      hash := h;
      hashpower := hashtableInit;
      primaryTable := EmptyTable(HashSize(hashtableInit));
      oldTable := [];
      expanding := false;
      expandBucket := 0;
    }

    /** assoc_find: the walk along h_next. */
    method FindItem(key: Key) returns (ret: Option<Item>)
      requires Shape(State())
      ensures ret == Find(hash, State(), key)
    {
      var it: Chain;
      if expanding && hash(key) % HashSize(hashpower - 1) >= expandBucket {
        it := oldTable[hash(key) % HashSize(hashpower - 1)];
      } else {
        it := primaryTable[hash(key) % HashSize(hashpower)];
      }
      while it != []
        invariant Search(it, key) == Find(hash, State(), key)
        decreases |it|
      {
        if it[0].key == key {
          return Some(it[0]);
        }
        it := it[1..];
      }
      return None;
    }

    method InsertItem(it: Item)
      requires Shape(State())
      modifies this
      ensures State() == Insert(hash, old(State()), it)
    {
      if expanding && hash(it.key) % HashSize(hashpower - 1) >= expandBucket {
        var b := hash(it.key) % HashSize(hashpower - 1);
        oldTable := oldTable[b := [it] + oldTable[b]];
      } else {
        var b := hash(it.key) % HashSize(hashpower);
        primaryTable := primaryTable[b := [it] + primaryTable[b]];
      }
    }

    /** _hashitem_before: how far along its chain the key is; the chain's length when it is not there. */
    static method Before(chain: Chain, key: Key) returns (pos: nat)
      ensures pos <= |chain|
      ensures Cut(chain, key) == if pos < |chain| then chain[..pos] + chain[pos + 1..] else chain
      ensures Search(chain, key) == if pos < |chain| then Some(chain[pos]) else None
    {
      pos := 0;
      while pos < |chain| && chain[pos].key != key
        invariant pos <= |chain|
        invariant Cut(chain, key) == chain[..pos] + Cut(chain[pos..], key)
        invariant Search(chain, key) == Search(chain[pos..], key)
      {
        assert chain[pos..][1..] == chain[pos + 1..];
        assert chain[..pos] + [chain[pos]] == chain[..pos + 1];
        pos := pos + 1;
      }
      if pos < |chain| {
        assert chain[pos..][1..] == chain[pos + 1..];
      }
    }

    /** assoc_delete; the assertion at its end fails exactly when the key is not there. */
    method DeleteItem(key: Key) returns (found: bool)
      requires Shape(State())
      modifies this
      ensures found == Find(hash, old(State()), key).Some?
      ensures State() == Delete(hash, old(State()), key)
    {
      if expanding && hash(key) % HashSize(hashpower - 1) >= expandBucket {
        var b := hash(key) % HashSize(hashpower - 1);
        var pos := Before(oldTable[b], key);
        found := pos < |oldTable[b]|;
        if found {
          oldTable := oldTable[b := oldTable[b][..pos] + oldTable[b][pos + 1..]];
        } else {
          assert oldTable == oldTable[b := oldTable[b]];
        }
      } else {
        var b := hash(key) % HashSize(hashpower);
        var pos := Before(primaryTable[b], key);
        found := pos < |primaryTable[b]|;
        if found {
          primaryTable := primaryTable[b := primaryTable[b][..pos] + primaryTable[b][pos + 1..]];
        } else {
          assert primaryTable == primaryTable[b := primaryTable[b]];
        }
      }
    }

    /** assoc_expand; `room` is the outcome of the allocation. */
    method StartExpansion(room: bool)
      requires Shape(State()) && !expanding
      modifies this
      ensures State() == Expand(old(State()), room)
    {
      oldTable := primaryTable;
      if room {
        primaryTable := EmptyTable(HashSize(hashpower + 1));
        hashpower := hashpower + 1;
        expanding := true;
        expandBucket := 0;
      } else {
        primaryTable := oldTable;
      }
    }

    /** The body of the maintenance loop with the bucket's item lock held. */
    method MigrateBucket()
      requires Shape(State()) && expanding
      modifies this
      ensures State() == Migrate(hash, old(State()))
    {
      var it := oldTable[expandBucket];
      ghost var all := Moved(hash, primaryTable, hashpower, it);
      while it != []
        invariant |primaryTable| == HashSize(hashpower)
        invariant Moved(hash, primaryTable, hashpower, it) == all
        invariant hashpower == old(hashpower) && oldTable == old(oldTable)
        invariant expanding && expandBucket == old(expandBucket)
        decreases |it|
      {
        var next := it[1..];
        var bucket := hash(it[0].key) % HashSize(hashpower);
        primaryTable := primaryTable[bucket := [it[0]] + primaryTable[bucket]];
        it := next;
      }
      oldTable := oldTable[expandBucket := []];
      expandBucket := expandBucket + 1;
      if expandBucket == HashSize(hashpower - 1) {
        expanding := false;
        oldTable := [];
      }
    }

    /** Any operation turns a table that stands for one finite map into one that stands for the changed map. */
    method Perform(op: Op, ghost m: map<Key, Item>)
      requires Represents(hash, State(), m) && Enabled(State(), m, op)
      modifies this
      ensures Represents(hash, State(), Effect(m, op))
    {
      StepRefines(hash, State(), m, op);
      match op
      case DoInsert(it) => InsertItem(it);
      case DoDelete(k) => var found := DeleteItem(k);
      case DoExpand(room) => StartExpansion(room);
      case DoMigrate => MigrateBucket();
    }

    /** A lookup answers from the map. */
    method Lookup(key: Key, ghost m: map<Key, Item>) returns (ret: Option<Item>)
      requires Represents(hash, State(), m)
      ensures ret == if key in m then Some(m[key]) else None
    {
      FindIsLookup(hash, State(), m, key);
      ret := FindItem(key);
    }
  }
}
