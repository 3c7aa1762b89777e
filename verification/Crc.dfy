/** Linear operators over a group, and messages run through them one symbol at a time. */
module CrcAlgebra {
  ghost predicate Linear<T(!new)>(f: T -> T, plus: (T, T) -> T) {
    forall x, y :: f(plus(x, y)) == plus(f(x), f(y))
  }

  /** A zero on either side, and sums of equals that vanish. */
  ghost predicate Zero<T(!new)>(plus: (T, T) -> T, zero: T) {
    forall x :: plus(x, zero) == x && plus(zero, x) == x && plus(x, x) == zero
  }

  ghost predicate AssocAt<T>(plus: (T, T) -> T, x: T, y: T, z: T) {
    plus(plus(x, y), z) == plus(x, plus(y, z))
  }

  ghost predicate CommAt<T>(plus: (T, T) -> T, x: T, y: T) {
    plus(x, y) == plus(y, x)
  }

  ghost predicate Group<T(!new)>(plus: (T, T) -> T, zero: T) {
    Zero(plus, zero) && (forall x, y, z :: AssocAt(plus, x, y, z)) && (forall x, y :: CommAt(plus, x, y))
  }

  lemma Mix<T(!new)>(plus: (T, T) -> T, zero: T, p: T, ps: T, q: T, qs: T)
    requires Group(plus, zero)
    ensures plus(plus(p, ps), plus(q, qs)) == plus(plus(p, q), plus(ps, qs))
  {
    assert AssocAt(plus, p, ps, plus(q, qs));
    assert AssocAt(plus, ps, q, qs);
    assert CommAt(plus, ps, q);
    assert AssocAt(plus, q, ps, qs);
    assert AssocAt(plus, p, q, plus(ps, qs));
  }

  /** Four summands meet the first four of another sum. */
  lemma Regroup<T(!new)>(plus: (T, T) -> T, zero: T, p0: T, p1: T, p2: T, p3: T, q0: T, q1: T, q2: T, q3: T, rest: T)
    requires Group(plus, zero)
    ensures plus(plus(p0, plus(p1, plus(p2, p3))), plus(q0, plus(q1, plus(q2, plus(q3, rest)))))
         == plus(plus(p0, q0), plus(plus(p1, q1), plus(plus(p2, q2), plus(plus(p3, q3), rest))))
  {
    Mix(plus, zero, p0, plus(p1, plus(p2, p3)), q0, plus(q1, plus(q2, plus(q3, rest))));
    Mix(plus, zero, p1, plus(p2, p3), q1, plus(q2, plus(q3, rest)));
    Mix(plus, zero, p2, p3, q2, plus(q3, rest));
    assert AssocAt(plus, p3, q3, rest);
  }

  function Iter<T>(f: T -> T, x: T, n: nat): T
    decreases n
  {
    if n == 0 then x else Iter(f, f(x), n - 1)
  }

  lemma {:induction false} IterLinear<T(!new)>(f: T -> T, plus: (T, T) -> T, x: T, y: T, n: nat)
    requires Linear(f, plus)
    ensures Iter(f, plus(x, y), n) == plus(Iter(f, x, n), Iter(f, y, n))
    decreases n
  {
    if n > 0 { IterLinear(f, plus, f(x), f(y), n - 1); }
  }

  lemma {:induction false} IterAdd<T>(f: T -> T, x: T, m: nat, n: nat)
    ensures Iter(f, x, m + n) == Iter(f, Iter(f, x, m), n)
    decreases m
  {
    if m > 0 { IterAdd(f, f(x), m - 1, n); }
  }

  lemma IterLast<T>(f: T -> T, x: T, n: nat)
    ensures Iter(f, x, n + 1) == f(Iter(f, x, n))
  {
    IterAdd(f, x, n, 1);
  }

  lemma LinearZero<T(!new)>(f: T -> T, plus: (T, T) -> T, zero: T)
    requires Linear(f, plus) && Zero(plus, zero)
    ensures f(zero) == zero
  {
    assert f(plus(zero, zero)) == plus(f(zero), f(zero));
  }

  lemma {:induction false} IterZero<T(!new)>(f: T -> T, plus: (T, T) -> T, zero: T, n: nat)
    requires Linear(f, plus) && Zero(plus, zero)
    ensures Iter(f, zero, n) == zero
  {
    LinearZero(f, plus, zero);
    if n > 0 { IterZero(f, plus, zero, n - 1); }
  }

  /** A power of a linear operator is linear. */
  lemma PowerIsLinear<T(!new)>(f: T -> T, g: T -> T, plus: (T, T) -> T, n: nat)
    requires Linear(g, plus) && forall z :: f(z) == Iter(g, z, n)
    ensures Linear(f, plus)
  {
    forall x, y ensures f(plus(x, y)) == plus(f(x), f(y)) { IterLinear(g, plus, x, y, n); }
  }

  lemma Apart<T(!new)>(f: T -> T, plus: (T, T) -> T, x: T, a: T, b: T)
    requires Linear(f, plus) && plus(a, b) == x
    ensures f(x) == plus(f(a), f(b))
  {
  }

  // ---------------------------------------------------------------- messages

  /** Each symbol of the message is added to the register, then the operator is applied. */
  function Run<T, B>(f: T -> T, plus: (T, T) -> T, value: B -> T, c: T, d: seq<B>): T {
    if d == [] then c else f(plus(Run(f, plus, value, c, d[..|d| - 1]), value(d[|d| - 1])))
  }

  lemma {:induction false} RunConcat<T, B>(f: T -> T, plus: (T, T) -> T, value: B -> T, c: T, a: seq<B>, b: seq<B>)
    ensures Run(f, plus, value, c, a + b) == Run(f, plus, value, Run(f, plus, value, c, a), b)
  {
    if b == [] {
      assert a + b == a;
    } else {
      var n := |b| - 1;
      assert (a + b)[..|a + b| - 1] == a + b[..n];
      RunConcat(f, plus, value, c, a, b[..n]);
    }
  }

  /** The register and the message take effect independently: zeros for the one, a zero register for the other. */
  lemma {:induction false} RunSplits<T(!new), B>(f: T -> T, plus: (T, T) -> T, zero: T, value: B -> T, c: T, d: seq<B>)
    requires Linear(f, plus) && Group(plus, zero)
    ensures Run(f, plus, value, c, d) == plus(Iter(f, c, |d|), Run(f, plus, value, zero, d))
  {
    if d != [] {
      var n := |d| - 1;
      var b := value(d[n]);
      var s, r := Iter(f, c, n), Run(f, plus, value, zero, d[..n]);
      RunSplits(f, plus, zero, value, c, d[..n]);
      assert AssocAt(plus, s, r, b);
      calc {
        Run(f, plus, value, c, d);
        f(plus(plus(s, r), b));
        f(plus(s, plus(r, b)));
        plus(f(s), f(plus(r, b)));
        { IterLast(f, c, n); }
        plus(Iter(f, c, |d|), Run(f, plus, value, zero, d));
      }
    }
  }

  /** A message is the sum of its symbols, each with the zeros that follow it. */
  function Spread<T, B>(f: T -> T, plus: (T, T) -> T, zero: T, value: B -> T, d: seq<B>): T
    decreases |d|
  {
    if d == [] then zero else plus(Iter(f, value(d[0]), |d|), Spread(f, plus, zero, value, d[1..]))
  }

  lemma RunSingle<T, B>(f: T -> T, plus: (T, T) -> T, value: B -> T, c: T, b: B)
    ensures Run(f, plus, value, c, [b]) == f(plus(c, value(b)))
  {
    assert [b][..0] == [];
  }

  lemma RunOne<T(!new), B>(f: T -> T, plus: (T, T) -> T, zero: T, value: B -> T, b: B)
    requires Zero(plus, zero)
    ensures Run(f, plus, value, zero, [b]) == f(value(b))
  {
    assert [b][..0] == [];
  }

  lemma {:induction false} RunIsSpread<T(!new), B>(f: T -> T, plus: (T, T) -> T, zero: T, value: B -> T, d: seq<B>)
    requires Linear(f, plus) && Group(plus, zero)
    ensures Run(f, plus, value, zero, d) == Spread(f, plus, zero, value, d)
    decreases |d|
  {
    if d != [] {
      var rest := d[1..];
      assert d == [d[0]] + rest;
      RunConcat(f, plus, value, zero, [d[0]], rest);
      RunOne(f, plus, zero, value, d[0]);
      RunSplits(f, plus, zero, value, f(value(d[0])), rest);
      RunIsSpread(f, plus, zero, value, rest);
    }
  }

  lemma SpreadHead<T, B>(f: T -> T, plus: (T, T) -> T, zero: T, value: B -> T, d: seq<B>, b: B, n: nat)
    requires |d| == n > 0 && d[0] == b
    ensures Spread(f, plus, zero, value, d) == plus(Iter(f, value(b), n), Spread(f, plus, zero, value, d[1..]))
  {
  }

  /** The last four symbols of a message, each with its zeros. */
  function Tail4<T, B>(f: T -> T, plus: (T, T) -> T, value: B -> T, d: seq<B>, n: nat): T
    requires |d| == n + 4
  {
    plus(Iter(f, value(d[n]), 4), plus(Iter(f, value(d[n + 1]), 3), plus(Iter(f, value(d[n + 2]), 2), Iter(f, value(d[n + 3]), 1))))
  }

  lemma SpreadTail<T(!new), B>(f: T -> T, plus: (T, T) -> T, zero: T, value: B -> T, d: seq<B>)
    requires Zero(plus, zero) && |d| == 4
    ensures Spread(f, plus, zero, value, d) == Tail4(f, plus, value, d, 0)
  {
    var d1 := d[1..];
    var d2 := d1[1..];
    var d3 := d2[1..];
    SpreadHead(f, plus, zero, value, d, d[0], 4);
    SpreadHead(f, plus, zero, value, d1, d[1], 3);
    SpreadHead(f, plus, zero, value, d2, d[2], 2);
    SpreadHead(f, plus, zero, value, d3, d[3], 1);
  }

  lemma SpreadEight<T(!new), B>(f: T -> T, plus: (T, T) -> T, zero: T, value: B -> T, d: seq<B>)
    requires Zero(plus, zero) && |d| == 8
    ensures Spread(f, plus, zero, value, d)
         == plus(Iter(f, value(d[0]), 8), plus(Iter(f, value(d[1]), 7), plus(Iter(f, value(d[2]), 6), plus(Iter(f, value(d[3]), 5),
            Tail4(f, plus, value, d, 4)))))
  {
    var d1 := d[1..];
    var d2 := d1[1..];
    var d3 := d2[1..];
    var d4 := d3[1..];
    SpreadHead(f, plus, zero, value, d, d[0], 8);
    SpreadHead(f, plus, zero, value, d1, d[1], 7);
    SpreadHead(f, plus, zero, value, d2, d[2], 6);
    SpreadHead(f, plus, zero, value, d3, d[3], 5);
    SpreadTail(f, plus, zero, value, d4);
  }

  /**
   * Eight symbols at once: when the zeros after the register are those after its four parts, each part can meet
   * one of the first four symbols before the zeros.
   */
  lemma EightAtOnce<T(!new), B>(f: T -> T, plus: (T, T) -> T, zero: T, value: B -> T, c: T, c0: T, c1: T, c2: T, c3: T, d: seq<B>)
    requires Linear(f, plus) && Group(plus, zero) && |d| == 8
    requires Iter(f, c, 8) == plus(Iter(f, c0, 8), plus(Iter(f, c1, 7), plus(Iter(f, c2, 6), Iter(f, c3, 5))))
    ensures Run(f, plus, value, c, d)
         == plus(Iter(f, plus(c0, value(d[0])), 8), plus(Iter(f, plus(c1, value(d[1])), 7),
            plus(Iter(f, plus(c2, value(d[2])), 6), plus(Iter(f, plus(c3, value(d[3])), 5), Tail4(f, plus, value, d, 4)))))
  {
    RunSplits(f, plus, zero, value, c, d);
    RunIsSpread(f, plus, zero, value, d);
    SpreadEight(f, plus, zero, value, d);
    IterLinear(f, plus, c0, value(d[0]), 8);
    IterLinear(f, plus, c1, value(d[1]), 7);
    IterLinear(f, plus, c2, value(d[2]), 6);
    IterLinear(f, plus, c3, value(d[3]), 5);
    Regroup(plus, zero, Iter(f, c0, 8), Iter(f, c1, 7), Iter(f, c2, 6), Iter(f, c3, 5),
            Iter(f, value(d[0]), 8), Iter(f, value(d[1]), 7), Iter(f, value(d[2]), 6), Iter(f, value(d[3]), 5),
            Tail4(f, plus, value, d, 4));
  }

  /** Folding: the later part is run from a zero register, and the earlier one is shifted past it. */
  lemma Fold<T(!new), B>(f: T -> T, plus: (T, T) -> T, zero: T, value: B -> T, c: T, a: seq<B>, b: seq<B>)
    requires Linear(f, plus) && Group(plus, zero)
    ensures Run(f, plus, value, c, a + b)
         == plus(Iter(f, Run(f, plus, value, c, a), |b|), Run(f, plus, value, zero, b))
  {
    RunConcat(f, plus, value, c, a, b);
    RunSplits(f, plus, zero, value, Run(f, plus, value, c, a), b);
  }

  // ---------------------------------------------------------------- matrices

  /**
   * A vector times a matrix whose rows are the images of one, two, four and so on. `low` is the lowest bit of a
   * vector and `half` the rest of it moved down.
   */
  function Times<T(==)>(plus: (T, T) -> T, zero: T, low: T -> T, half: T -> T, mat: seq<T>, v: T): T
    decreases |mat|
  {
    if v == zero || mat == [] then zero
    else plus(if low(v) != zero then mat[0] else zero, Times(plus, zero, low, half, mat[1..], half(v)))
  }

  /** A vector is made of its lowest bit and its doubled rest. */
  ghost predicate Built<T>(plus: (T, T) -> T, zero: T, one: T, low: T -> T, half: T -> T, double: T -> T, v: T) {
    (low(v) == zero || low(v) == one) && plus(low(v), double(half(v))) == v
  }

  ghost predicate Binary<T(!new)>(plus: (T, T) -> T, zero: T, one: T, low: T -> T, half: T -> T, double: T -> T) {
    forall v :: Built(plus, zero, one, low, half, double, v)
  }

  /** Row j of the matrix of f, when its first row is the image of bit i. */
  ghost predicate IsRow<T>(f: T -> T, double: T -> T, one: T, mat: seq<T>, i: nat, j: nat) {
    j < |mat| ==> mat[j] == f(Iter(double, one, i + j))
  }

  ghost predicate Rows<T(!new)>(f: T -> T, double: T -> T, one: T, mat: seq<T>, i: nat) {
    forall j: nat :: IsRow(f, double, one, mat, i, j)
  }

  /** The vector has no more than n bits. */
  ghost predicate Fits<T>(zero: T, half: T -> T, v: T, n: nat)
    decreases n
  {
    v == zero || (n > 0 && Fits(zero, half, half(v), n - 1))
  }

  lemma NextRows<T(!new)>(f: T -> T, double: T -> T, one: T, mat: seq<T>, i: nat)
    requires Rows(f, double, one, mat, i) && mat != []
    ensures mat[0] == f(Iter(double, one, i)) && Rows(f, double, one, mat[1..], i + 1)
  {
    assert IsRow(f, double, one, mat, i, 0);
    var rest, k := mat[1..], i + 1;
    forall j: nat ensures IsRow(f, double, one, rest, k, j) {
      assert IsRow(f, double, one, mat, i, j + 1);
      assert i + (j + 1) == k + j;
    }
  }

  /** The matrix of a linear operator stands for that operator. */
  lemma {:induction false} TimesIs<T(!new)>(plus: (T, T) -> T, zero: T, one: T, low: T -> T, half: T -> T, double: T -> T,
                                            f: T -> T, mat: seq<T>, v: T, i: nat)
    requires Binary(plus, zero, one, low, half, double) && Zero(plus, zero) && Linear(double, plus) && Linear(f, plus)
    requires Fits(zero, half, v, |mat|) && Rows(f, double, one, mat, i)
    ensures Times(plus, zero, low, half, mat, v) == f(Iter(double, v, i))
    decreases |mat|
  {
    LinearZero(f, plus, zero);
    IterZero(double, plus, zero, i);
    if v != zero {
      NextRows(f, double, one, mat, i);
      TimesIs(plus, zero, one, low, half, double, f, mat[1..], half(v), i + 1);
      assert Built(plus, zero, one, low, half, double, v);
      TimesStep(plus, double, f, low(v), half(v), v, i);
    }
  }

  lemma TimesStep<T(!new)>(plus: (T, T) -> T, double: T -> T, f: T -> T, bit: T, w: T, v: T, i: nat)
    requires Linear(double, plus) && Linear(f, plus) && plus(bit, double(w)) == v
    ensures f(Iter(double, v, i)) == plus(f(Iter(double, bit, i)), f(Iter(double, w, i + 1)))
  {
    IterLinear(double, plus, bit, double(w), i);
    Apart(f, plus, Iter(double, v, i), Iter(double, bit, i), Iter(double, w, i + 1));
  }
}

/** CRC-32C bit by bit (crc32c.c; section 12.1 of RFC 3720), and the facts its fast forms rest on. */
module CrcBits {
  import opened CrcAlgebra

  type Word = bv32
  type Bytes = seq<bv8>

  /** The CRC-32C polynomial in reversed bit order. */
  const POLY: Word := 0x82f63b78

  function Xor(a: Word, b: Word): Word { a ^ b }

  function Value(b: bv8): Word { b as bv32 }

  function Low8(x: Word): Word { x & 0xff }

  function Down8(x: Word): Word { x >> 8 }

  /** One bit: shift right, and add the polynomial if a one falls out. */
  function Step(c: Word): Word {
    if c & 1 == 1 then (c >> 1) ^ POLY else c >> 1
  }

  /** Eight bits. */
  function Step8(c: Word): Word {
    Step(Step(Step(Step(Step(Step(Step(Step(c))))))))
  }

  ghost predicate Agrees(f: Word -> Word, x: Word) {
    f(x) == Step8(x)
  }

  /** The operator that takes eight bits at once. */
  ghost predicate ByteStep(f: Word -> Word) {
    forall x :: Agrees(f, x)
  }

  /** The CRC register after a message, `f` taking the eight bits of a byte. */
  function Raw(f: Word -> Word, c: Word, d: Bytes): Word {
    Run(f, Xor, Value, c, d)
  }

  /** The CRC-32C of a message that continues one whose CRC is `crc`. */
  function Crc(f: Word -> Word, crc: Word, d: Bytes): Word {
    Not(Raw(f, Not(crc), d))
  }

  lemma XorAssoc(x: Word, y: Word, z: Word)
    ensures Xor(Xor(x, y), z) == Xor(x, Xor(y, z)) && Xor(x, 0) == x && Xor(0, x) == x && Xor(x, x) == 0
  {
  }

  lemma XorComm(x: Word, y: Word)
    ensures Xor(x, y) == Xor(y, x)
  {
  }

  lemma XorIsGroup()
    ensures Group(Xor, 0)
  {
    forall x ensures Xor(x, 0) == x && Xor(0, x) == x && Xor(x, x) == 0 { XorAssoc(x, x, x); }
    forall x, y, z ensures AssocAt(Xor, x, y, z) { XorAssoc(x, y, z); }
    forall x, y ensures CommAt(Xor, x, y) { XorComm(x, y); }
  }

  // ---------------------------------------------------------------- linearity

  lemma BitCases(x: Word, y: Word)
    ensures (x & 1 == 0 || x & 1 == 1) && (y & 1 == 0 || y & 1 == 1)
    ensures (x ^ y) & 1 == (x & 1) ^ (y & 1) && (x ^ y) >> 1 == (x >> 1) ^ (y >> 1)
  {
  }

  lemma XorMoves(a: Word, b: Word, p: Word)
    ensures (a ^ p) ^ (b ^ p) == a ^ b && (a ^ p) ^ b == (a ^ b) ^ p && a ^ (b ^ p) == (a ^ b) ^ p
  {
  }

  lemma StepLinear(x: Word, y: Word)
    ensures Step(x ^ y) == Step(x) ^ Step(y)
  {
    BitCases(x, y);
    XorMoves(x >> 1, y >> 1, POLY);
    if x & 1 == 1 {
      if y & 1 == 1 {
        assert (x ^ y) & 1 == 0;
        calc {
          Step(x) ^ Step(y);
          ((x >> 1) ^ POLY) ^ ((y >> 1) ^ POLY);
          (x >> 1) ^ (y >> 1);
          Step(x ^ y);
        }
      } else {
        assert (x ^ y) & 1 == 1;
      }
    } else if y & 1 == 1 {
      assert (x ^ y) & 1 == 1;
    } else {
      assert (x ^ y) & 1 == 0;
    }
  }

  lemma StepIsLinear()
    ensures Linear(Step, Xor)
  {
    forall x, y ensures Step(Xor(x, y)) == Xor(Step(x), Step(y)) { StepLinear(x, y); }
  }

  lemma Step8IsIter(x: Word)
    ensures Step8(x) == Iter(Step, x, 8)
  {
  }

  lemma Step8IsLinear()
    ensures Linear(Step8, Xor)
  {
    StepIsLinear();
    forall z ensures Step8(z) == Iter(Step, z, 8) { Step8IsIter(z); }
    PowerIsLinear(Step8, Step, Xor, 8);
  }

  // ---------------------------------------------------------------- eight steps by table

  lemma ShiftChain(x: Word)
    requires x & 0xff == 0
    ensures x & 1 == 0 && (x >> 1) & 1 == 0 && (x >> 2) & 1 == 0 && (x >> 3) & 1 == 0
    ensures (x >> 4) & 1 == 0 && (x >> 5) & 1 == 0 && (x >> 6) & 1 == 0 && (x >> 7) & 1 == 0
    ensures (x >> 1) >> 1 == x >> 2 && (x >> 2) >> 1 == x >> 3 && (x >> 3) >> 1 == x >> 4 && (x >> 4) >> 1 == x >> 5
    ensures (x >> 5) >> 1 == x >> 6 && (x >> 6) >> 1 == x >> 7 && (x >> 7) >> 1 == x >> 8
  {
  }

  /** Eight zero bits just fall out. */
  lemma EightZeros(x: Word)
    requires x & 0xff == 0
    ensures Step8(x) == Down8(x)
  {
    ShiftChain(x);
  }

  lemma LowHigh(x: Word)
    ensures Xor(Low8(x), x & 0xffffff00) == x && (x & 0xffffff00) & 0xff == 0 && Down8(x & 0xffffff00) == Down8(x)
  {
  }

  /** Only the low byte needs the eight steps; the rest moves down. */
  lemma Step8ByTable(x: Word)
    ensures Step8(x) == Xor(Step8(Low8(x)), Down8(x))
  {
    LowHigh(x);
    Step8IsLinear();
    EightZeros(x & 0xffffff00);
    Apart(Step8, Xor, x, Low8(x), x & 0xffffff00);
  }

  /** What the fast forms need to know about the byte operator. */
  ghost predicate ByteOp(f: Word -> Word) {
    Linear(f, Xor) && forall x :: f(x) == Xor(f(Low8(x)), Down8(x))
  }

  /** There is an operator that takes eight bits at once. */
  lemma ByteStepExists() returns (f: Word -> Word)
    ensures ByteStep(f)
  {
    f := Step8;
  }

  lemma SameLinear(f: Word -> Word, g: Word -> Word)
    requires Linear(g, Xor) && forall x :: f(x) == g(x)
    ensures Linear(f, Xor)
  {
  }

  lemma ByteStepIsByteOp(f: Word -> Word)
    requires ByteStep(f)
    ensures ByteOp(f)
  {
    Step8IsLinear();
    forall x ensures f(x) == Step8(x) { assert Agrees(f, x); }
    SameLinear(f, Step8);
    forall x ensures f(x) == Xor(f(Low8(x)), Down8(x)) { Step8ByTable(x); }
  }

  function Not(x: Word): Word { !x }

  lemma NotNot(r: Word)
    ensures Not(Not(r)) == r
  {
  }

  /** Feeding a message in pieces is feeding it whole. */
  lemma PiecesAreWhole(f: Word -> Word, crc: Word, a: Bytes, b: Bytes)
    ensures Crc(f, Crc(f, crc, a), b) == Crc(f, crc, a + b)
  {
    RunConcat(f, Xor, Value, Not(crc), a, b);
    NotNot(Raw(f, Not(crc), a));
  }
}

/** Slicing by eight: eight bytes of a message with eight table lookups. */
module CrcSlices {
  import opened Base
  import opened CrcAlgebra
  import opened CrcBits

  function Up8(x: Word): Word { x << 8 }

  lemma {:induction false} IterByte(f: Word -> Word, x: Word, n: nat)
    requires f(Up8(x)) == x
    ensures Iter(f, Up8(x), n + 1) == Iter(f, x, n)
  {
  }

  lemma UpDown(x: Word)
    requires x <= 0xffffff
    ensures Low8(Up8(x)) == 0 && Down8(Up8(x)) == x
  {
  }

  lemma UpIsUndone(f: Word -> Word, x: Word)
    requires ByteOp(f) && x <= 0xffffff
    ensures f(Up8(x)) == x
  {
    UpDown(x);
    XorIsGroup();
    LinearZero(f, Xor, 0);
    XorAssoc(x, x, x);
    var y := Up8(x);
    calc {
      f(y);
      Xor(f(Low8(y)), Down8(y));
      Xor(0, x);
      x;
    }
  }

  /** The bytes of a word. */
  function Byte0(x: Word): Word { x & 0xff }
  function Byte1(x: Word): Word { (x >> 8) & 0xff }
  function Byte2(x: Word): Word { (x >> 16) & 0xff }
  function Byte3(x: Word): Word { x >> 24 }

  lemma WordOfBytes(x: Word)
    ensures Xor(Byte0(x), Up8(Down8(x))) == x && Down8(x) <= 0xffffff
  {
  }

  lemma WordOfBytes1(x: Word)
    ensures Xor(Byte1(x), Up8(Down8(Down8(x)))) == Down8(x) && Down8(Down8(x)) <= 0xffffff
  {
  }

  lemma WordOfBytes2(x: Word)
    ensures Xor(Byte2(x), Up8(Byte3(x))) == Down8(Down8(x)) && Byte3(x) <= 0xffffff
  {
  }

  lemma ByteAndRest(f: Word -> Word, x: Word, b: Word, rest: Word, n: nat)
    requires ByteOp(f) && Xor(b, Up8(rest)) == x && rest <= 0xffffff
    ensures Iter(f, x, n + 1) == Xor(Iter(f, b, n + 1), Iter(f, rest, n))
  {
    UpIsUndone(f, rest);
    IterByte(f, rest, n);
    IterLinear(f, Xor, b, Up8(rest), n + 1);
  }

  /** Zeros after a word, byte by byte: each byte higher up has one zero byte less to go. */
  lemma WordByBytes(f: Word -> Word, x: Word, n: nat)
    requires ByteOp(f)
    ensures Iter(f, x, n + 4)
         == Xor(Iter(f, Byte0(x), n + 4), Xor(Iter(f, Byte1(x), n + 3), Xor(Iter(f, Byte2(x), n + 2), Iter(f, Byte3(x), n + 1))))
  {
    WordOfBytes(x);
    WordOfBytes1(x);
    WordOfBytes2(x);
    ByteAndRest(f, x, Byte0(x), Down8(x), n + 3);
    ByteAndRest(f, Down8(x), Byte1(x), Down8(Down8(x)), n + 2);
    ByteAndRest(f, Down8(Down8(x)), Byte2(x), Byte3(x), n + 1);
  }

  /** A byte as the index into a table. */
  function Index(x: Word): (n: nat)
    requires x <= 0xff
    ensures n < 256
  {
    x as nat
  }

  lemma IndexBack(x: Word)
    requires x <= 0xff
    ensures Index(x) as bv32 == x
  {
  }

  /** The register after one more piece of the message. */
  lemma RawExtend(f: Word -> Word, c: Word, d: Bytes, lo: nat, hi: nat)
    requires lo <= hi <= |d|
    ensures Raw(f, Raw(f, c, d[..lo]), d[lo..hi]) == Raw(f, c, d[..hi])
  {
    RunConcat(f, Xor, Value, c, d[..lo], d[lo..hi]);
    assert d[..lo] + d[lo..hi] == d[..hi];
  }

  // ---------------------------------------------------------------- eight bytes

  /** Eight bytes of a message by eight lookups, the first four with the bytes of the register mixed in. */
  lemma EightByTables(f: Word -> Word, c: Word, d: Bytes)
    requires ByteOp(f) && |d| == 8
    ensures Raw(f, c, d)
         == Xor(Iter(f, Xor(Byte0(c), Value(d[0])), 8), Xor(Iter(f, Xor(Byte1(c), Value(d[1])), 7),
            Xor(Iter(f, Xor(Byte2(c), Value(d[2])), 6), Xor(Iter(f, Xor(Byte3(c), Value(d[3])), 5),
            Tail4(f, Xor, Value, d, 4)))))
  {
    XorIsGroup();
    WordByBytes(f, c, 4);
    EightAtOnce(f, Xor, 0, Value, c, Byte0(c), Byte1(c), Byte2(c), Byte3(c), d);
  }
}
