/**
 * The print queue of the O3 pipeline viewer (queue_inst and print_insts in gem5/util/o3-pipeview.py):
 * instructions arrive out of order, and are sorted and printed in batches.
 */
module Pipeview {
  datatype Inst = Inst(sn: int, fetch: int, retire: int, disasm: string)

  /** The bounds and thresholds of the viewer. */
  datatype Config = Config(maxThreshold: nat, minThreshold: nat, snStart: int, snStop: int,
                           tickStart: int, tickStop: int, onlyCommitted: bool)

  /** The filters print_insts applies to an instruction it takes from the queue. */
  predicate Passes(c: Config, i: Inst) {
    && !(c.snStart > 0 && i.sn < c.snStart)
    && !(c.snStop > 0 && i.sn > c.snStop)
    && !(c.tickStart > 0 && i.fetch < c.tickStart)
    && !(c.tickStop > 0 && i.fetch > c.tickStop)
    && !(c.onlyCommitted && i.retire == 0)
  }

  function Filtered(c: Config, q: seq<Inst>): seq<Inst> {
    if q == [] then []
    else Filtered(c, q[..|q| - 1]) + if Passes(c, q[|q| - 1]) then [q[|q| - 1]] else []
  }

  ghost predicate Sorted(q: seq<Inst>) {
    forall i, j :: 0 <= i < j < |q| ==> q[i].sn <= q[j].sn
  }

  /** Every instruction of the first list may be printed before every one of the second. */
  ghost predicate Before(a: seq<Inst>, b: seq<Inst>) {
    forall i, j :: 0 <= i < |a| && 0 <= j < |b| ==> a[i].sn <= b[j].sn
  }

  // ---------------------------------------------------------------- the sort

  function Insert(q: seq<Inst>, x: Inst): seq<Inst> {
    if q == [] || x.sn < q[0].sn then [x] + q else [q[0]] + Insert(q[1..], x)
  }

  /** list.sort by sequence number, which is stable. */
  function Sort(q: seq<Inst>): seq<Inst> {
    if q == [] then [] else Insert(Sort(q[..|q| - 1]), q[|q| - 1])
  }

  lemma {:induction false} InsertBag(q: seq<Inst>, x: Inst)
    ensures multiset(Insert(q, x)) == multiset(q) + multiset{x}
  {
    if q != [] && x.sn >= q[0].sn {
      InsertBag(q[1..], x);
      assert q == [q[0]] + q[1..];
    }
  }

  /** Every instruction of the list has a sequence number of at least s. */
  ghost predicate AtLeast(q: seq<Inst>, s: int) {
    forall i :: 0 <= i < |q| ==> s <= q[i].sn
  }

  lemma {:induction false} InsertAtLeast(q: seq<Inst>, x: Inst, s: int)
    requires AtLeast(q, s) && s <= x.sn
    ensures AtLeast(Insert(q, x), s)
  {
    if q != [] && x.sn >= q[0].sn { InsertAtLeast(q[1..], x, s); }
  }

  lemma {:induction false} InsertSorts(q: seq<Inst>, x: Inst)
    requires Sorted(q)
    ensures Sorted(Insert(q, x))
  {
    if q != [] && x.sn >= q[0].sn {
      InsertSorts(q[1..], x);
      InsertAtLeast(q[1..], x, q[0].sn);
    }
  }

  lemma {:induction false} SortSorts(q: seq<Inst>)
    ensures multiset(Sort(q)) == multiset(q) && Sorted(Sort(q)) && |Sort(q)| == |q|
  {
    if q != [] {
      var n := |q| - 1;
      SortSorts(q[..n]);
      InsertBag(Sort(q[..n]), q[n]);
      InsertSorts(Sort(q[..n]), q[n]);
      assert q == q[..n] + [q[n]];
      assert |multiset(Sort(q))| == |multiset(q)|;
    }
  }

  // ---------------------------------------------------------------- the batches

  /** How many instructions a call of print_insts takes from a queue of n. */
  function Taken(n: nat, lower: nat): nat {
    if n > lower then n - lower else 0
  }

  /** What an arrival makes of the instructions taken from the queue so far and of the queue. */
  function Arrive(c: Config, done: seq<Inst>, queue: seq<Inst>, x: Inst): (r: (seq<Inst>, seq<Inst>))
    ensures |r.1| == Length(c, |queue|)
  {
    var q := queue + [x];
    if |q| <= c.maxThreshold then (done, q)
    else
      SortSorts(q);
      var k := Taken(|q|, c.minThreshold);
      (done + Sort(q)[..k], Sort(q)[k..])
  }

  /** The length of a queue of n after one more arrival. */
  function Length(c: Config, n: nat): nat {
    if n + 1 <= c.maxThreshold then n + 1 else n + 1 - Taken(n + 1, c.minThreshold)
  }

  /** The order in which instructions are taken from the queue, the filters not yet applied. */
  function Drained(c: Config, done: seq<Inst>, queue: seq<Inst>, trace: seq<Inst>): seq<Inst>
    decreases |trace|
  {
    if trace == [] then done + Sort(queue)
    else
      var r := Arrive(c, done, queue, trace[0]);
      Drained(c, r.0, r.1, trace[1..])
  }

  /** The length of the queue after i arrivals. */
  function QueueLength(c: Config, i: nat): nat {
    if i == 0 then 0 else Length(c, QueueLength(c, i - 1))
  }

  // ---------------------------------------------------------------- how far out of order

  /** How many instructions of a list have a larger sequence number than s. */
  function Larger(q: seq<Inst>, s: int): nat {
    if q == [] then 0 else Larger(q[..|q| - 1], s) + if q[|q| - 1].sn > s then 1 else 0
  }

  /** Instruction i of the trace comes after no more instructions that belong behind it than the queue then holds. */
  ghost predicate InTimeAt(c: Config, trace: seq<Inst>, i: nat) {
    i < |trace| ==> Larger(trace[..i], trace[i].sn) <= QueueLength(c, i)
  }

  ghost predicate InTime(c: Config, trace: seq<Inst>) {
    forall i: nat :: InTimeAt(c, trace, i)
  }

  /** No instruction of the trace comes after more than m instructions that belong behind it. */
  ghost predicate NearlyInOrder(trace: seq<Inst>, m: nat) {
    forall i :: 0 <= i < |trace| ==> Larger(trace[..i], trace[i].sn) <= m
  }

  lemma {:induction false} LargerConcat(a: seq<Inst>, b: seq<Inst>, s: int)
    ensures Larger(a + b, s) == Larger(a, s) + Larger(b, s)
  {
    if b == [] {
      assert a + b == a;
    } else {
      var n := |b| - 1;
      assert (a + b)[..|a + b| - 1] == a + b[..n];
      LargerConcat(a, b[..n], s);
    }
  }

  lemma {:induction false} LargerInsert(q: seq<Inst>, x: Inst, s: int)
    ensures Larger(Insert(q, x), s) == Larger(q, s) + if x.sn > s then 1 else 0
  {
    LargerOne(x, s);
    if q == [] || x.sn < q[0].sn {
      LargerConcat([x], q, s);
    } else {
      LargerInsert(q[1..], x, s);
      LargerConcat([q[0]], Insert(q[1..], x), s);
      LargerConcat([q[0]], q[1..], s);
      assert q == [q[0]] + q[1..];
    }
  }

  lemma LargerOne(x: Inst, s: int)
    ensures Larger([x], s) == if x.sn > s then 1 else 0
  {
    assert [x][..0] == [];
  }

  lemma {:induction false} LargerSort(q: seq<Inst>, s: int)
    ensures Larger(Sort(q), s) == Larger(q, s)
  {
    if q != [] {
      LargerSort(q[..|q| - 1], s);
      LargerInsert(Sort(q[..|q| - 1]), q[|q| - 1], s);
    }
  }

  lemma {:induction false} AllLarger(q: seq<Inst>, s: int)
    requires forall i :: 0 <= i < |q| ==> q[i].sn > s
    ensures Larger(q, s) == |q|
  {
    if q != [] { AllLarger(q[..|q| - 1], s); }
  }

  lemma {:induction false} SomeLarger(q: seq<Inst>, s: int, i: nat)
    requires i < |q| && q[i].sn > s
    ensures Larger(q, s) >= 1
  {
    if i < |q| - 1 { SomeLarger(q[..|q| - 1], s, i); }
  }

  // ---------------------------------------------------------------- filters

  lemma {:induction false} FilteredCount(c: Config, q: seq<Inst>, x: Inst)
    ensures multiset(Filtered(c, q))[x] == if Passes(c, x) then multiset(q)[x] else 0
  {
    if q != [] {
      var n := |q| - 1;
      FilteredCount(c, q[..n], x);
      assert q == q[..n] + [q[n]];
    }
  }

  /** Rearranging the input rearranges the output. */
  lemma FilteredSame(c: Config, a: seq<Inst>, b: seq<Inst>)
    requires multiset(a) == multiset(b)
    ensures multiset(Filtered(c, a)) == multiset(Filtered(c, b))
  {
    forall x ensures multiset(Filtered(c, a))[x] == multiset(Filtered(c, b))[x] {
      FilteredCount(c, a, x);
      FilteredCount(c, b, x);
    }
  }

  lemma {:induction false} FilteredFrom(c: Config, q: seq<Inst>, x: Inst)
    requires x in Filtered(c, q)
    ensures x in q
  {
    if x in Filtered(c, q[..|q| - 1]) { FilteredFrom(c, q[..|q| - 1], x); }
  }

  lemma {:induction false} FilteredSorted(c: Config, q: seq<Inst>)
    requires Sorted(q)
    ensures Sorted(Filtered(c, q))
  {
    if q != [] {
      var n := |q| - 1;
      FilteredSorted(c, q[..n]);
      var f := Filtered(c, q[..n]);
      forall i | 0 <= i < |f| ensures f[i].sn <= q[n].sn {
        FilteredFrom(c, q[..n], f[i]);
        var k :| 0 <= k < n && q[..n][k] == f[i];
        assert q[k] == f[i];
      }
    }
  }

  // ---------------------------------------------------------------- an arrival

  lemma {:induction false} LargerBound(q: seq<Inst>, s: int)
    ensures Larger(q, s) <= |q|
  {
    if q != [] { LargerBound(q[..|q| - 1], s); }
  }

  lemma {:induction false} LargerMeans(q: seq<Inst>, s: int) returns (i: nat)
    requires Larger(q, s) > 0
    ensures i < |q| && q[i].sn > s
  {
    if q[|q| - 1].sn > s { i := |q| - 1; } else { i := LargerMeans(q[..|q| - 1], s); }
  }

  /**
   * Whatever has been taken from the queue may go before what is in it: then an arrival is still in time exactly
   * when no more instructions than the queue holds belong behind it.
   */
  lemma ArrivalInTime(done: seq<Inst>, queue: seq<Inst>, x: Inst)
    requires Before(done, queue)
    ensures Larger(done, x.sn) + Larger(queue, x.sn) <= |queue| <==> Before(done, queue + [x])
  {
    LargerBound(queue, x.sn);
    if Larger(done, x.sn) > 0 {
      var i := LargerMeans(done, x.sn);
      forall j | 0 <= j < |queue| ensures queue[j].sn > x.sn {
        assert done[i].sn <= queue[j].sn;
      }
      AllLarger(queue, x.sn);
      assert (queue + [x])[|queue|] == x;
    } else {
      forall i | 0 <= i < |done| ensures done[i].sn <= x.sn {
        if done[i].sn > x.sn { SomeLarger(done, x.sn, i); }
      }
    }
  }

  lemma BeforeSort(a: seq<Inst>, q: seq<Inst>)
    requires Before(a, q)
    ensures Before(a, Sort(q))
  {
    SortSorts(q);
    forall i, j | 0 <= i < |a| && 0 <= j < |Sort(q)| ensures a[i].sn <= Sort(q)[j].sn {
      assert Sort(q)[j] in multiset(Sort(q));
      assert Sort(q)[j] in multiset(q);
      var k :| 0 <= k < |q| && q[k] == Sort(q)[j];
    }
  }

  /** The front of a sorted queue may follow everything taken before it. */
  lemma TakeFront(done: seq<Inst>, queue: seq<Inst>, k: nat)
    requires k <= |queue| && Sorted(queue) && Sorted(done) && Before(done, queue)
    ensures Sorted(done + queue[..k]) && Before(done + queue[..k], queue[k..])
  {
  }

  lemma ArriveKeepsOrder(c: Config, done: seq<Inst>, queue: seq<Inst>, x: Inst)
    requires Sorted(done) && Before(done, queue + [x])
    ensures var r := Arrive(c, done, queue, x); Sorted(r.0) && Before(r.0, r.1)
  {
    var q := queue + [x];
    if |q| > c.maxThreshold {
      SortSorts(q);
      BeforeSort(done, q);
      TakeFront(done, Sort(q), Taken(|q|, c.minThreshold));
    }
  }

  // ---------------------------------------------------------------- nothing is lost

  lemma SortedSplit(q: seq<Inst>, k: nat)
    requires k <= |Sort(q)|
    ensures multiset(Sort(q)[..k]) + multiset(Sort(q)[k..]) == multiset(q)
  {
    SortSorts(q);
    assert Sort(q) == Sort(q)[..k] + Sort(q)[k..];
  }

  lemma MovedOver(d: multiset<Inst>, f: multiset<Inst>, r: multiset<Inst>, q: multiset<Inst>, x: multiset<Inst>)
    requires f + r == q + x
    ensures (d + f) + r == d + q + x
  {
    assert (d + f) + r == d + (f + r);
  }

  lemma ArriveBag(c: Config, done: seq<Inst>, queue: seq<Inst>, x: Inst)
    ensures var r := Arrive(c, done, queue, x);
            multiset(r.0) + multiset(r.1) == multiset(done) + multiset(queue) + multiset{x}
  {
    var q := queue + [x];
    assert multiset(q) == multiset(queue) + multiset{x};
    if |q| <= c.maxThreshold {
      MovedOver(multiset(done), multiset{}, multiset(q), multiset(queue), multiset{x});
    } else {
      SortSorts(q);
      var k := Taken(|q|, c.minThreshold);
      SortedSplit(q, k);
      MovedOver(multiset(done), multiset(Sort(q)[..k]), multiset(Sort(q)[k..]), multiset(queue), multiset{x});
    }
  }

  /** Every instruction of the trace is taken from the queue once. */
  lemma {:induction false} DrainedAll(c: Config, done: seq<Inst>, queue: seq<Inst>, trace: seq<Inst>)
    ensures multiset(Drained(c, done, queue, trace)) == multiset(done) + multiset(queue) + multiset(trace)
    decreases |trace|
  {
    if trace == [] {
      SortSorts(queue);
    } else {
      var r := Arrive(c, done, queue, trace[0]);
      ArriveBag(c, done, queue, trace[0]);
      DrainedAll(c, r.0, r.1, trace[1..]);
      assert trace == [trace[0]] + trace[1..];
    }
  }

  /** What has been taken stays in front. */
  lemma {:induction false} DrainedExtends(c: Config, done: seq<Inst>, queue: seq<Inst>, trace: seq<Inst>)
    ensures done <= Drained(c, done, queue, trace)
    decreases |trace|
  {
    if trace != [] {
      var r := Arrive(c, done, queue, trace[0]);
      DrainedExtends(c, r.0, r.1, trace[1..]);
    }
  }

  /** An instruction that is not among the first of a list but in it is further on. */
  lemma FurtherOn(all: seq<Inst>, done: seq<Inst>, x: Inst) returns (j: nat)
    requires done <= all && multiset(all)[x] > multiset(done)[x]
    ensures |done| <= j < |all| && all[j] == x
  {
    assert all == done + all[|done|..];
    assert x in multiset(all[|done|..]);
    assert x in all[|done|..];
    var k :| 0 <= k < |all[|done|..]| && all[|done|..][k] == x;
    j := |done| + k;
  }

  /** An instruction that comes when one behind it has been taken is out of order for good. */
  lemma LateForGood(c: Config, done: seq<Inst>, queue: seq<Inst>, trace: seq<Inst>, i: nat)
    requires trace != [] && i < |done| && done[i].sn > trace[0].sn
    ensures !Sorted(Drained(c, done, queue, trace))
  {
    var all := Drained(c, done, queue, trace);
    DrainedAll(c, done, queue, trace);
    DrainedExtends(c, done, queue, trace);
    assert trace[0] in multiset(trace);
    var j := FurtherOn(all, done, trace[0]);
    assert all[i] == done[i];
  }

  // ---------------------------------------------------------------- the order

  ghost predicate CountsAt(seen: seq<Inst>, done: seq<Inst>, queue: seq<Inst>, s: int) {
    Larger(seen, s) == Larger(done, s) + Larger(queue, s)
  }

  /** What has been seen is what has been taken from the queue and what is in it, as far as counting goes. */
  ghost predicate Counts(seen: seq<Inst>, done: seq<Inst>, queue: seq<Inst>) {
    forall s :: CountsAt(seen, done, queue, s)
  }

  lemma SplitCounts(q: seq<Inst>, k: nat, s: int)
    requires |Sort(q)| == |q| && k <= |q|
    ensures Larger(q, s) == Larger(Sort(q)[..k], s) + Larger(Sort(q)[k..], s)
  {
    LargerSort(q, s);
    LargerConcat(Sort(q)[..k], Sort(q)[k..], s);
    assert Sort(q) == Sort(q)[..k] + Sort(q)[k..];
  }

  lemma ArriveCounts(c: Config, seen: seq<Inst>, done: seq<Inst>, queue: seq<Inst>, x: Inst)
    requires Counts(seen, done, queue)
    ensures var r := Arrive(c, done, queue, x); Counts(seen + [x], r.0, r.1)
  {
    var p, q, r := seen + [x], queue + [x], Arrive(c, done, queue, x);
    SortSorts(q);
    forall s ensures CountsAt(p, r.0, r.1, s) {
      assert CountsAt(seen, done, queue, s);
      LargerConcat(seen, [x], s);
      LargerConcat(queue, [x], s);
      if |q| > c.maxThreshold {
        var k := Taken(|q|, c.minThreshold);
        SplitCounts(q, k, s);
        LargerConcat(done, Sort(q)[..k], s);
      }
    }
  }

  ghost predicate OnTime(c: Config, seen: seq<Inst>, trace: seq<Inst>, i: nat) {
    i < |trace| ==> Larger(seen + trace[..i], trace[i].sn) <= QueueLength(c, |seen| + i)
  }

  ghost predicate AllOnTime(c: Config, seen: seq<Inst>, trace: seq<Inst>) {
    forall i: nat :: OnTime(c, seen, trace, i)
  }

  lemma OnTimeShift(c: Config, seen: seq<Inst>, trace: seq<Inst>, i: nat)
    requires trace != []
    ensures OnTime(c, seen + [trace[0]], trace[1..], i) <==> OnTime(c, seen, trace, i + 1)
  {
    if i + 1 < |trace| { assert (seen + [trace[0]]) + trace[1..][..i] == seen + trace[..i + 1]; }
  }

  lemma OnTimeNext(c: Config, seen: seq<Inst>, trace: seq<Inst>)
    requires trace != []
    ensures AllOnTime(c, seen, trace) <==>
              Larger(seen, trace[0].sn) <= QueueLength(c, |seen|) && AllOnTime(c, seen + [trace[0]], trace[1..])
  {
    assert seen + trace[..0] == seen;
    assert OnTime(c, seen, trace, 0) <==> Larger(seen, trace[0].sn) <= QueueLength(c, |seen|);
    var p, t := seen + [trace[0]], trace[1..];
    forall i: nat ensures OnTime(c, p, t, i) <==> OnTime(c, seen, trace, i + 1) {
      OnTimeShift(c, seen, trace, i);
    }
    if AllOnTime(c, p, t) && OnTime(c, seen, trace, 0) {
      forall i: nat ensures OnTime(c, seen, trace, i) {
        if i > 0 {
          var k: nat := i - 1;
          assert OnTime(c, p, t, k);
        }
      }
    }
  }

  /** What is taken from the queue from here on continues in order exactly when everything still to come is in time. */
  lemma {:induction false} OrderFromHere(c: Config, seen: seq<Inst>, done: seq<Inst>, queue: seq<Inst>, trace: seq<Inst>)
    requires Sorted(done) && Before(done, queue) && Counts(seen, done, queue) && |queue| == QueueLength(c, |seen|)
    ensures Sorted(Drained(c, done, queue, trace)) <==> AllOnTime(c, seen, trace)
    decreases |trace|
  {
    if trace == [] {
      SortSorts(queue);
      BeforeSort(done, queue);
    } else {
      var x, r := trace[0], Arrive(c, done, queue, trace[0]);
      OnTimeNext(c, seen, trace);
      assert CountsAt(seen, done, queue, x.sn);
      ArrivalInTime(done, queue, x);
      if Before(done, queue + [x]) {
        ArriveKeepsOrder(c, done, queue, x);
        ArriveCounts(c, seen, done, queue, x);
        OrderFromHere(c, seen + [x], r.0, r.1, trace[1..]);
      } else {
        var i := TooLate(done, queue, x);
        LateForGood(c, done, queue, trace, i);
      }
    }
  }

  lemma TooLate(done: seq<Inst>, queue: seq<Inst>, x: Inst) returns (i: nat)
    requires Before(done, queue) && !Before(done, queue + [x])
    ensures i < |done| && done[i].sn > x.sn
  {
    var k, j :| 0 <= k < |done| && 0 <= j < |queue + [x]| && done[k].sn > (queue + [x])[j].sn;
    i := k;
  }

  /** The queue gives all instructions out in order exactly when every one of them arrives in time. */
  lemma InOrderIff(c: Config, trace: seq<Inst>)
    ensures Sorted(Drained(c, [], [], trace)) <==> InTime(c, trace)
  {
    forall i: nat ensures OnTime(c, [], trace, i) <==> InTimeAt(c, trace, i) {
      if i < |trace| { assert [] + trace[..i] == trace[..i]; }
    }
    if AllOnTime(c, [], trace) {
      forall i: nat ensures InTimeAt(c, trace, i) { assert OnTime(c, [], trace, i); }
    }
    if InTime(c, trace) {
      forall i: nat ensures OnTime(c, [], trace, i) { assert InTimeAt(c, trace, i); }
    }
    forall s ensures CountsAt([], [], [], s) {}
    OrderFromHere(c, [], [], [], trace);
  }

  lemma {:induction false} QueueIsLong(c: Config, i: nat)
    ensures QueueLength(c, i) >= i || QueueLength(c, i) >= c.minThreshold
  {
    if i > 0 { QueueIsLong(c, i - 1); }
  }

  /** If no instruction is further out of order than the lower threshold, the queue gives them all out in order. */
  lemma InOrder(c: Config, trace: seq<Inst>)
    requires NearlyInOrder(trace, c.minThreshold)
    ensures InTime(c, trace) && Sorted(Drained(c, [], [], trace))
  {
    forall i: nat ensures InTimeAt(c, trace, i) {
      QueueIsLong(c, i);
      if i < |trace| { LargerBound(trace[..i], trace[i].sn); }
    }
    InOrderIff(c, trace);
  }

  // ---------------------------------------------------------------- the threshold is tight

  /** Instructions with the even sequence numbers from 2 on. */
  function Ascending(n: nat): (q: seq<Inst>)
    ensures |q| == n && forall i :: 0 <= i < n ==> q[i].sn == 2 * i + 2
  {
    if n == 0 then [] else Ascending(n - 1) + [Inst(2 * n, 0, 0, "")]
  }

  lemma {:induction false} AscendingPrefix(n: nat, i: nat)
    requires i <= n
    ensures Ascending(n)[..i] == Ascending(i)
  {
    if i < n { AscendingPrefix(n - 1, i); }
  }

  /** Of n such instructions those from number k on belong behind one with the odd number 2k + 1. */
  lemma {:induction false} AscendingLarger(n: nat, s: int, k: nat)
    requires 2 * k <= s <= 2 * k + 1
    ensures Larger(Ascending(n), s) == if k < n then n - k else 0
  {
    if n > 0 {
      AscendingLarger(n - 1, s, k);
      assert Ascending(n)[..n - 1] == Ascending(n - 1);
    }
  }

  lemma {:induction false} QueueFills(c: Config, i: nat)
    requires i <= c.maxThreshold
    ensures QueueLength(c, i) == i
  {
    if i > 0 { QueueFills(c, i - 1); }
  }

  /** Sequence numbers as the simulator hands them out. */
  ghost predicate Numbered(trace: seq<Inst>) {
    && (forall i :: 0 <= i < |trace| ==> trace[i].sn >= 0)
    && forall i, j :: 0 <= i < j < |trace| ==> trace[i].sn != trace[j].sn
  }

  /** Ascending instructions until the queue is drained for the first time, then one that belongs behind k of them. */
  function LateTrace(n: nat, k: nat): seq<Inst> {
    Ascending(n) + [Inst(2 * k + 1, 0, 0, "")]
  }

  lemma LateIsNumbered(n: nat, k: nat)
    ensures Numbered(LateTrace(n, k))
  {
  }

  lemma LateLarger(n: nat, k: nat, i: nat)
    requires k < n && i <= n
    ensures var t := LateTrace(n, k); Larger(t[..i], t[i].sn) == if i < n then 0 else n - k
  {
    var t := LateTrace(n, k);
    assert t[..i] == Ascending(n)[..i];
    AscendingPrefix(n, i);
    AscendingLarger(i, t[i].sn, if i < n then i + 1 else k);
  }

  lemma FirstDrain(c: Config)
    requires c.minThreshold <= c.maxThreshold
    ensures QueueLength(c, c.maxThreshold + 1) == c.minThreshold
  {
    QueueFills(c, c.maxThreshold);
  }

  /** One place further out of order than the lower threshold, and the order can be lost. */
  lemma ThresholdIsTight(c: Config) returns (trace: seq<Inst>)
    requires c.minThreshold <= c.maxThreshold
    ensures Numbered(trace) && NearlyInOrder(trace, c.minThreshold + 1) && !Sorted(Drained(c, [], [], trace))
  {
    var n, k := c.maxThreshold + 1, c.maxThreshold - c.minThreshold;
    trace := LateTrace(n, k);
    LateIsNumbered(n, k);
    forall i | 0 <= i < |trace| ensures Larger(trace[..i], trace[i].sn) <= c.minThreshold + 1 {
      LateLarger(n, k, i);
    }
    LateLarger(n, k, n);
    FirstDrain(c);
    assert !InTimeAt(c, trace, n);
    InOrderIff(c, trace);
  }

  // ---------------------------------------------------------------- the viewer

  /** The first k of all have moved from the queue to what has been taken. */
  ghost predicate Moved(all: seq<Inst>, k: nat, before: seq<Inst>, queue: seq<Inst>, drained: seq<Inst>) {
    k <= |all| && queue == all[k..] && drained == before + all[..k]
  }

  lemma MoveNone(all: seq<Inst>, before: seq<Inst>)
    ensures Moved(all, 0, before, all, before)
  {
  }

  lemma MoveNext(all: seq<Inst>, k: nat, before: seq<Inst>, queue: seq<Inst>, drained: seq<Inst>)
    requires Moved(all, k, before, queue, drained) && queue != []
    ensures Moved(all, k + 1, before, queue[1..], drained + [queue[0]])
  {
    assert all[..k + 1] == all[..k] + [all[k]];
  }

  class Viewer {
    const c: Config
    var queue: seq<Inst>
    var printed: seq<Inst>
    ghost var drained: seq<Inst>

    ghost predicate Valid()
      reads this
    {
      printed == Filtered(c, drained)
    }

    constructor (c: Config)
      ensures Valid() && this.c == c && drained == [] && queue == []
    {
      this.c := c;
      queue, printed, drained := [], [], [];
    }

    /** The first instruction leaves the queue, and is printed if it passes the filters. */
    method TakeFirst()
      requires Valid() && queue != []
      modifies this
      ensures Valid() && queue == old(queue)[1..] && drained == old(drained) + [old(queue)[0]]
    {
      var item := queue[0];
      queue := queue[1..];
      assert (drained + [item])[..|drained|] == drained;
      drained := drained + [item];
      if Passes(c, item) { printed := printed + [item]; }
    }

    /** The loop of print_insts. */
    method TakeUntil(lower: nat)
      requires Valid()
      modifies this
      ensures Valid() && Moved(old(queue), Taken(|old(queue)|, lower), old(drained), queue, drained)
    {
      ghost var all, before, k := queue, drained, 0;
      MoveNone(all, before);
      while |queue| > lower
        invariant Valid() && 0 <= k <= Taken(|all|, lower) && Moved(all, k, before, queue, drained)
        decreases |queue|
      {
        MoveNext(all, k, before, queue, drained);
        TakeFirst();
        k := k + 1;
      }
    }

    /** print_insts: sort, then take from the front until `lower` are left. */
    method PrintInsts(lower: nat)
      requires Valid()
      modifies this
      ensures Valid() && |Sort(old(queue))| == |old(queue)|
      ensures var k := Taken(|old(queue)|, lower);
              queue == Sort(old(queue))[k..] && drained == old(drained) + Sort(old(queue))[..k]
    {
      SortSorts(queue);
      queue := Sort(queue);
      TakeUntil(lower);
    }

    /** queue_inst. */
    method QueueInst(i: Inst)
      requires Valid()
      modifies this
      ensures Valid() && (drained, queue) == Arrive(c, old(drained), old(queue), i)
    {
      queue := queue + [i];
      if |queue| > c.maxThreshold {
        PrintInsts(c.minThreshold);
      }
    }
  }

  lemma {:induction false} FilteredWhole(c: Config, q: seq<Inst>)
    requires forall x :: x in q ==> Passes(c, x)
    ensures Filtered(c, q) == q
  {
    if q != [] {
      var n := |q| - 1;
      FilteredWhole(c, q[..n]);
      assert q == q[..n] + [q[n]];
    }
  }

  /** What the viewer prints, given the order in which it takes the instructions from the queue. */
  lemma Printed(c: Config, trace: seq<Inst>, all: seq<Inst>)
    requires all == Drained(c, [], [], trace)
    ensures multiset(Filtered(c, all)) == multiset(Filtered(c, trace))
    ensures InTime(c, trace) ==> Sorted(Filtered(c, all))
    ensures (forall x :: x in trace ==> Passes(c, x)) ==> (Sorted(Filtered(c, all)) <==> InTime(c, trace))
  {
    DrainedAll(c, [], [], trace);
    FilteredSame(c, trace, all);
    InOrderIff(c, trace);
    if InTime(c, trace) { FilteredSorted(c, all); }
    if forall x :: x in trace ==> Passes(c, x) {
      forall x | x in all ensures Passes(c, x) {
        assert x in multiset(all);
        assert x in multiset(trace);
      }
      FilteredWhole(c, all);
    }
  }

  lemma ViewStep(c: Config, done: seq<Inst>, queue: seq<Inst>, trace: seq<Inst>, i: nat)
    requires i < |trace|
    ensures var r := Arrive(c, done, queue, trace[i]);
            Drained(c, done, queue, trace[i..]) == Drained(c, r.0, r.1, trace[i + 1..])
  {
    assert trace[i..][1..] == trace[i + 1..] && trace[i..][0] == trace[i];
  }

  /**
   * A whole trace: what is printed is what passes the filters, and it comes in the order of the sequence numbers
   * when every instruction is in time; if the filters let everything pass, exactly then.
   */
  method View(c: Config, trace: seq<Inst>) returns (out: seq<Inst>)
    ensures multiset(out) == multiset(Filtered(c, trace))
    ensures forall x :: x in out <==>
              && x in trace && (c.snStart > 0 ==> c.snStart <= x.sn) && (c.snStop > 0 ==> x.sn <= c.snStop)
              && (c.tickStart > 0 ==> c.tickStart <= x.fetch) && (c.tickStop > 0 ==> x.fetch <= c.tickStop)
              && (c.onlyCommitted ==> x.retire != 0)
    ensures InTime(c, trace) ==> Sorted(out)
    ensures (forall x :: x in trace ==> Passes(c, x)) ==> (Sorted(out) <==> InTime(c, trace))
  {
    var v := new Viewer(c);
    var i := 0;
    ghost var all := Drained(c, [], [], trace);
    assert trace[0..] == trace;
    while i < |trace|
      invariant 0 <= i <= |trace| && fresh(v) && v.Valid() && v.c == c
      invariant Drained(c, v.drained, v.queue, trace[i..]) == all
    {
      ViewStep(c, v.drained, v.queue, trace, i);
      v.QueueInst(trace[i]);
      i := i + 1;
    }
    v.PrintInsts(0);
    out := v.printed;
    assert v.drained == all;
    Printed(c, trace, all);
    SameMembers(c, out, trace);
  }

  lemma SameMembers(c: Config, out: seq<Inst>, trace: seq<Inst>)
    requires multiset(out) == multiset(Filtered(c, trace))
    ensures forall x :: x in out <==> x in trace && Passes(c, x)
  {
    FilteredHas(c, trace);
    forall x ensures x in out <==> x in Filtered(c, trace) {
      assert x in out <==> x in multiset(out);
      assert x in Filtered(c, trace) <==> x in multiset(Filtered(c, trace));
    }
  }

  lemma {:induction false} FilteredHas(c: Config, q: seq<Inst>)
    ensures forall x :: x in Filtered(c, q) <==> x in q && Passes(c, x)
  {
    if q != [] {
      var n := |q| - 1;
      FilteredHas(c, q[..n]);
      assert q == q[..n] + [q[n]];
    }
  }
}
