/** Vocabulary shared by the other modules: options, bytes, lists without repetition, and pieces put together. */
module Base {
  datatype Option<+T> = None | Some(value: T)

  type Byte = x: int | 0 <= x < 256

  ghost predicate NoDup<T>(q: seq<T>) {
    forall i, j :: 0 <= i < j < |q| ==> q[i] != q[j]
  }

  /** A list with the first occurrence of `x` taken out: what unlinking from a singly linked chain does. */
  function Without<T(==)>(q: seq<T>, x: T): seq<T> {
    if q == [] then []
    else if q[0] == x then q[1..]
    else [q[0]] + Without(q[1..], x)
  }

  /** Unlinking removes exactly `x`, keeps the others, and lets no element but the second become the first. */
  lemma {:induction false} WithoutIsRemoval<T>(q: seq<T>, x: T)
    requires NoDup(q)
    ensures NoDup(Without(q, x))
    ensures forall y :: y in Without(q, x) <==> y in q && y != x
    ensures |Without(q, x)| == if x in q then |q| - 1 else |q|
    ensures forall k :: 1 <= k < |Without(q, x)| ==> Without(q, x)[k] in q[1..]
  {
    if q != [] {
      var rest := q[1..];
      assert q == [q[0]] + rest;
      if q[0] != x {
        WithoutIsRemoval(rest, x);
        var t := Without(rest, x);
        assert Without(q, x) == [q[0]] + t;
        forall k | 1 <= k < |t| + 1 ensures ([q[0]] + t)[k] in rest {
          assert ([q[0]] + t)[k] == t[k - 1] && t[k - 1] in t;
        }
      }
    }
  }

  /** Cutting a list at the first occurrence of `x` is what Without does. */
  lemma {:induction false} WithoutAt<T>(q: seq<T>, x: T, j: nat)
    requires j <= |q| && x !in q[..j] && (j == |q| || q[j] == x)
    ensures Without(q, x) == if j == |q| then q else q[..j] + q[j + 1..]
  {
    if j > 0 {
      var rest := q[1..];
      assert q == [q[0]] + rest;
      assert q[..j] == [q[0]] + rest[..j - 1];
      assert q[0] in q[..j];
      WithoutAt(rest, x, j - 1);
      assert j < |q| ==> q[j + 1..] == rest[j..];
    }
  }

  /** Pieces put together. */
  function Concat<T>(q: seq<seq<T>>): seq<T> {
    if q == [] then [] else Concat(q[..|q| - 1]) + q[|q| - 1]
  }

  lemma ConcatPush<T>(q: seq<seq<T>>, d: seq<T>)
    ensures Concat(q + [d]) == Concat(q) + d
  {
    assert (q + [d])[..|q|] == q;
  }

  lemma {:induction false} ConcatPrefix<T>(q: seq<seq<T>>, i: nat)
    requires i <= |q|
    ensures Concat(q[..i]) <= Concat(q)
  {
    if i == |q| {
      assert q[..i] == q;
    } else {
      ConcatPrefix(q[..|q| - 1], i);
      assert q[..|q| - 1][..i] == q[..i];
    }
  }

  lemma ConcatNext<T>(q: seq<seq<T>>, i: nat)
    requires i < |q|
    ensures Concat(q[..i + 1]) == Concat(q[..i]) + q[i] <= Concat(q)
  {
    assert q[..i + 1][..i] == q[..i];
    ConcatPrefix(q, i + 1);
  }

  /** Cutting two pieces put together where the first one can be cut. */
  lemma SplitConcat<T>(a: seq<T>, b: seq<T>, n: nat)
    requires n <= |a|
    ensures (a + b)[..n] == a[..n] && (a + b)[n..] == a[n..] + b
  {
  }

  /** A slice of a slice is a slice. */
  lemma SliceSlice<T>(q: seq<T>, a: nat, b: nat, lo: nat, hi: nat)
    requires a <= b <= |q| && lo <= hi <= b - a
    ensures q[a..b][lo..hi] == q[a + lo..a + hi]
  {
    assert |q[a..b][lo..hi]| == |q[a + lo..a + hi]|;
    forall i | 0 <= i < hi - lo ensures q[a..b][lo..hi][i] == q[a + lo..a + hi][i] {
      assert q[a..b][lo..hi][i] == q[a..b][lo + i] == q[a + lo + i];
    }
  }

  /** A slice that falls into the second part of a prefix. */
  lemma PrefixSlice<T>(all: seq<T>, a: seq<T>, b: seq<T>, lo: nat, hi: nat)
    requires a + b <= all && lo <= hi <= |b|
    ensures all[|a| + lo..|a| + hi] == b[lo..hi]
  {
    var p, q := all[|a| + lo..|a| + hi], b[lo..hi];
    forall i | 0 <= i < hi - lo ensures p[i] == q[i] {
      assert p[i] == all[|a| + lo + i] == (a + b)[|a| + lo + i] == b[lo + i] == q[i];
    }
  }
}
