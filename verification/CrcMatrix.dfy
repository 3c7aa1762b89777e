/**
 * The operator that appends zeros to a CRC, by repeated squaring of a matrix over GF(2), and its tables
 * (gf2_matrix_times, gf2_matrix_square, crc32c_zeros_op, crc32c_zeros and crc32c_shift in crc32c.c).
 */
module CrcMatrix {
  import opened Base
  import opened CrcAlgebra
  import opened CrcBits
  import opened CrcSlices

  // ---------------------------------------------------------------- bits of a word

  function Low1(x: Word): Word { x & 1 }

  function Half(x: Word): Word { x >> 1 }

  function Dbl(x: Word): Word { x << 1 }

  /** The single bit i. */
  function Bit(i: nat): Word { Iter(Dbl, 1, i) }

  lemma BuiltWord(v: Word)
    ensures (v & 1 == 0 || v & 1 == 1) && (v & 1) ^ ((v >> 1) << 1) == v
  {
  }

  lemma WordsAreBinary()
    ensures Binary(Xor, 0, 1, Low1, Half, Dbl)
  {
    forall v ensures Built(Xor, 0, 1, Low1, Half, Dbl, v) { BuiltWord(v); }
  }

  lemma DblXor(x: Word, y: Word)
    ensures Dbl(Xor(x, y)) == Xor(Dbl(x), Dbl(y))
  {
  }

  lemma DblIsLinear()
    ensures Linear(Dbl, Xor)
  {
    forall x, y ensures Dbl(Xor(x, y)) == Xor(Dbl(x), Dbl(y)) { DblXor(x, y); }
  }

  ghost predicate Narrow(v: Word, n: nat) { Fits(0, Half, v, n) }

  lemma NarrowUp(v: Word, n: nat)
    requires Narrow(Half(v), n)
    ensures Narrow(v, n + 1)
  {
  }

  lemma NarrowDown(v: Word, n: nat)
    requires Narrow(v, n + 1)
    ensures Narrow(Half(v), n)
  {
    assert Half(0) == 0;
  }

  lemma HalfEight(v: Word)
    ensures Half(Half(Half(Half(Half(Half(Half(Half(v)))))))) == Down8(v)
  {
  }

  lemma NarrowUp8(v: Word, n: nat)
    requires Narrow(Down8(v), n)
    ensures Narrow(v, n + 8)
  {
    HalfEight(v);
    var v1 := Half(v); var v2 := Half(v1); var v3 := Half(v2); var v4 := Half(v3);
    var v5 := Half(v4); var v6 := Half(v5); var v7 := Half(v6);
    NarrowUp(v7, n); NarrowUp(v6, n + 1); NarrowUp(v5, n + 2); NarrowUp(v4, n + 3);
    NarrowUp(v3, n + 4); NarrowUp(v2, n + 5); NarrowUp(v1, n + 6); NarrowUp(v, n + 7);
  }

  lemma NarrowDown8(v: Word, n: nat)
    requires Narrow(v, n + 8)
    ensures Narrow(Down8(v), n)
  {
    HalfEight(v);
    var v1 := Half(v); var v2 := Half(v1); var v3 := Half(v2); var v4 := Half(v3);
    var v5 := Half(v4); var v6 := Half(v5); var v7 := Half(v6);
    NarrowDown(v, n + 7); NarrowDown(v1, n + 6); NarrowDown(v2, n + 5); NarrowDown(v3, n + 4);
    NarrowDown(v4, n + 3); NarrowDown(v5, n + 2); NarrowDown(v6, n + 1); NarrowDown(v7, n);
  }

  lemma DownFour(v: Word)
    ensures Down8(Down8(Down8(Down8(v)))) == 0
  {
  }

  /** Every word has at most 32 bits. */
  lemma AllNarrow(v: Word)
    ensures Narrow(v, 32)
  {
    DownFour(v);
    NarrowUp8(Down8(Down8(Down8(v))), 0);
    NarrowUp8(Down8(Down8(v)), 8);
    NarrowUp8(Down8(v), 16);
    NarrowUp8(v, 24);
  }

  lemma TopOf(v: Word)
    requires Half(Half(Half(Half(Half(Half(Half(Down8(Down8(Down8(v)))))))))) == 0
    ensures Half(Dbl(v)) == v
  {
  }

  /** A word of at most 31 bits can be doubled. */
  lemma NarrowDoubles(v: Word)
    requires Narrow(v, 31)
    ensures Half(Dbl(v)) == v
  {
    NarrowDown8(v, 23);
    NarrowDown8(Down8(v), 15);
    NarrowDown8(Down8(Down8(v)), 7);
    var w := Down8(Down8(Down8(v)));
    var w1 := Half(w); var w2 := Half(w1); var w3 := Half(w2); var w4 := Half(w3);
    var w5 := Half(w4); var w6 := Half(w5);
    NarrowDown(w, 6); NarrowDown(w1, 5); NarrowDown(w2, 4); NarrowDown(w3, 3);
    NarrowDown(w4, 2); NarrowDown(w5, 1); NarrowDown(w6, 0);
    TopOf(v);
  }

  lemma {:induction false} NarrowMore(v: Word, n: nat, m: nat)
    requires Narrow(v, n) && n <= m
    ensures Narrow(v, m)
    decreases n
  {
    if v != 0 { NarrowMore(Half(v), n - 1, m - 1); }
  }

  /** Bit i for i up to 31, and what taking a step from it gives. */
  lemma {:induction false} BitIsNarrow(i: nat)
    requires i <= 31
    ensures Narrow(Bit(i), i + 1)
  {
    if i == 0 {
      assert Half(1) == 0;
    } else {
      BitIsNarrow(i - 1);
      IterLast(Dbl, 1, i - 1);
      NarrowMore(Bit(i - 1), i, 31);
      NarrowDoubles(Bit(i - 1));
      NarrowUp(Bit(i), i);
    }
  }

  lemma StepEven(b: Word)
    requires Half(Dbl(b)) == b
    ensures Step(Dbl(b)) == b
  {
    assert (b << 1) & 1 == 0;
  }

  lemma StepOfBit(i: nat)
    requires i <= 31
    ensures Step(Bit(i)) == if i == 0 then POLY else Bit(i - 1)
  {
    if i > 0 {
      IterLast(Dbl, 1, i - 1);
      BitIsNarrow(i - 1);
      NarrowMore(Bit(i - 1), i, 31);
      NarrowDoubles(Bit(i - 1));
      StepEven(Bit(i - 1));
    } else {
      assert Step(1) == POLY;
    }
  }

  // ---------------------------------------------------------------- matrices

  ghost predicate BitAgrees(s: Word -> Word, x: Word) { s(x) == Step(x) }

  /** The operator that takes one bit. */
  ghost predicate BitStep(s: Word -> Word) { forall x :: BitAgrees(s, x) }

  lemma BitStepExists() returns (s: Word -> Word)
    ensures BitStep(s)
  {
    s := Step;
  }

  lemma BitStepIsLinear(s: Word -> Word)
    requires BitStep(s)
    ensures Linear(s, Xor)
  {
    StepIsLinear();
    forall x ensures s(x) == Step(x) { assert BitAgrees(s, x); }
    SameLinear(s, Step);
  }

  ghost predicate RowAt(s: Word -> Word, n: nat, mat: seq<Word>, j: nat) {
    j < |mat| ==> mat[j] == Iter(s, Bit(j), n)
  }

  /** The matrix of n zero bits. */
  ghost predicate MatrixOf(s: Word -> Word, n: nat, mat: seq<Word>) {
    |mat| == 32 && forall j: nat :: RowAt(s, n, mat, j)
  }

  function MatTimes(mat: seq<Word>, v: Word): Word {
    Times(Xor, 0, Low1, Half, mat, v)
  }

  lemma PowerLinear(s: Word -> Word, n: nat, g: Word -> Word)
    requires Linear(s, Xor) && g == ((x: Word) => Iter(s, x, n))
    ensures Linear(g, Xor)
  {
    forall x, y ensures g(Xor(x, y)) == Xor(g(x), g(y)) { IterLinear(s, Xor, x, y, n); }
  }

  lemma PowerRows(s: Word -> Word, n: nat, g: Word -> Word, mat: seq<Word>)
    requires MatrixOf(s, n, mat) && g == ((x: Word) => Iter(s, x, n))
    ensures Rows(g, Dbl, 1, mat, 0)
  {
    forall j: nat ensures IsRow(g, Dbl, 1, mat, 0, j) {
      assert RowAt(s, n, mat, j);
      assert 0 + j == j;
    }
  }

  /** Multiplying by the matrix of n zero bits appends n zero bits. */
  lemma MatrixApplies(s: Word -> Word, n: nat, mat: seq<Word>, v: Word)
    requires MatrixOf(s, n, mat) && Linear(s, Xor)
    ensures MatTimes(mat, v) == Iter(s, v, n)
  {
    var g := (x: Word) => Iter(s, x, n);
    PowerLinear(s, n, g);
    PowerRows(s, n, g, mat);
    WordsAreBinary();
    XorIsGroup();
    DblIsLinear();
    AllNarrow(v);
    TimesIs(Xor, 0, 1, Low1, Half, Dbl, g, mat, v, 0);
  }

  /** gf2_matrix_times: the loop over the bits of the vector. */
  method MatrixTimes(mat: seq<Word>, vec0: Word) returns (sum: Word)
    requires |mat| == 32
    ensures sum == MatTimes(mat, vec0)
  {
    sum := 0;
    var vec, i := vec0, 0;
    AllNarrow(vec0);
    XorAssoc(MatTimes(mat, vec0), 0, 0);
    assert mat[0..] == mat;
    while vec != 0
      invariant 0 <= i <= 32 && Narrow(vec, 32 - i)
      invariant Xor(sum, MatTimes(mat[i..], vec)) == MatTimes(mat, vec0)
      decreases 32 - i
    {
      TimesNext(mat, i, vec, sum);
      if Low1(vec) != 0 { sum := Xor(sum, mat[i]); }
      vec := Half(vec);
      i := i + 1;
    }
    XorAssoc(sum, 0, 0);
  }

  lemma TimesNext(mat: seq<Word>, i: nat, vec: Word, sum: Word)
    requires i < |mat| && vec != 0
    ensures var add := if Low1(vec) != 0 then Xor(sum, mat[i]) else sum;
            Xor(add, MatTimes(mat[i + 1..], Half(vec))) == Xor(sum, MatTimes(mat[i..], vec))
  {
    var rest := MatTimes(mat[i + 1..], Half(vec));
    assert mat[i..][1..] == mat[i + 1..];
    XorAssoc(sum, mat[i], rest);
    XorAssoc(rest, rest, rest);
  }

  /** gf2_matrix_square: the matrix of twice as many zeros. */
  method MatrixSquare(square: array<Word>, mat: array<Word>, ghost s: Word -> Word, ghost n: nat)
    requires square.Length == 32 && square != mat && MatrixOf(s, n, mat[..]) && Linear(s, Xor)
    modifies square
    ensures MatrixOf(s, 2 * n, square[..])
  {
    var i := 0;
    while i < 32
      invariant 0 <= i <= 32 && MatrixOf(s, n, mat[..])
      invariant forall j: nat :: RowAt(s, 2 * n, square[..i], j)
    {
      var row := MatrixTimes(mat[..], mat[i]);
      SquareRow(s, n, mat[..], i);
      ghost var before := square[..i];
      square[i] := row;
      i := i + 1;
      assert square[..i] == before + [row];
      forall j: nat ensures RowAt(s, 2 * n, square[..i], j) { assert RowAt(s, 2 * n, before, j); }
    }
    assert square[..32] == square[..];
  }

  lemma SquareRow(s: Word -> Word, n: nat, mat: seq<Word>, j: nat)
    requires MatrixOf(s, n, mat) && Linear(s, Xor) && j < 32
    ensures MatTimes(mat, mat[j]) == Iter(s, Bit(j), 2 * n)
  {
    assert RowAt(s, n, mat, j);
    MatrixApplies(s, n, mat, mat[j]);
    IterAdd(s, Bit(j), n, n);
  }

  // ---------------------------------------------------------------- the zeros operator

  /** The largest power of two that is not above n, and 1 for 0. */
  function HighBit(n: nat): nat {
    if n <= 1 then 1 else 2 * HighBit(n / 2)
  }

  /** A power of two is its own highest bit. */
  lemma {:induction false} HighBitOfPower(k: nat)
    ensures HighBit(Power2(k)) == Power2(k)
  {
    if k > 0 { HighBitOfPower(k - 1); }
  }

  function Power2(k: nat): (n: nat)
    ensures n > 0
  {
    if k == 0 then 1 else 2 * Power2(k - 1)
  }

  /** The matrix of one zero bit. */
  method OneBit(odd: array<Word>, ghost s: Word -> Word)
    requires odd.Length == 32 && BitStep(s)
    modifies odd
    ensures MatrixOf(s, 1, odd[..])
  {
    odd[0] := POLY;
    var row: Word := 1;
    var n := 1;
    FirstRow(s, odd[..1]);
    while n < 32
      invariant 1 <= n <= 32 && row == Bit(n - 1)
      invariant forall j: nat :: RowAt(s, 1, odd[..n], j)
    {
      ghost var before := odd[..n];
      odd[n] := row;
      NextRow(s, before, n);
      assert odd[..n + 1] == before + [Bit(n - 1)];
      IterLast(Dbl, 1, n - 1);
      row := Dbl(row);
      n := n + 1;
    }
    assert odd[..32] == odd[..];
  }

  lemma FirstRow(s: Word -> Word, rows: seq<Word>)
    requires BitStep(s) && rows == [POLY]
    ensures forall j: nat :: RowAt(s, 1, rows, j)
  {
    StepOfBit(0);
    assert BitAgrees(s, Bit(0));
  }

  lemma NextRow(s: Word -> Word, rows: seq<Word>, n: nat)
    requires BitStep(s) && |rows| == n && 1 <= n < 32 && forall j: nat :: RowAt(s, 1, rows, j)
    ensures var more := rows + [Bit(n - 1)]; forall j: nat :: RowAt(s, 1, more, j)
  {
    StepOfBit(n);
    assert BitAgrees(s, Bit(n));
    var more := rows + [Bit(n - 1)];
    forall j: nat ensures RowAt(s, 1, more, j) { assert RowAt(s, 1, rows, j); }
  }

  /** The bits reached by squaring the matrix of `bits` zeros once, and once more for every halving of len. */
  function Reach(bits: nat, len: nat): nat
    decreases len
  {
    if len <= 1 then 2 * bits else Reach(2 * bits, len / 2)
  }

  lemma DoubleMoves(a: nat, h: nat)
    ensures 2 * (2 * a) * h == 2 * a * (2 * h)
  {
  }

  lemma {:induction false} ReachIs(bits: nat, len: nat)
    ensures Reach(bits, len) == 2 * bits * HighBit(len)
    decreases len
  {
    if len > 1 {
      ReachIs(2 * bits, len / 2);
      DoubleMoves(bits, HighBit(len / 2));
    }
  }

  /** The loop of crc32c_zeros_op, entered with the matrix of four zero bits in odd. */
  method SquareOn(even: array<Word>, odd: array<Word>, len0: nat, ghost s: Word -> Word) returns (inEven: bool)
    requires even.Length == 32 && odd.Length == 32 && even != odd && Linear(s, Xor) && MatrixOf(s, 4, odd[..])
    modifies even, odd
    ensures MatrixOf(s, Reach(4, len0), if inEven then even[..] else odd[..])
  {
    var len := len0;
    ghost var bits: nat := 4;
    while true
      invariant MatrixOf(s, bits, odd[..]) && Reach(bits, len) == Reach(4, len0)
      decreases len
    {
      MatrixSquare(even, odd, s, bits);
      len := len / 2;
      if len == 0 { return true; }
      MatrixSquare(odd, even, s, 2 * bits);
      bits := 4 * bits;
      len := len / 2;
      if len == 0 { return false; }
    }
  }

  /** crc32c_zeros_op: the matrix of len zero bytes, len rounded down to a power of two. */
  method ZerosOp(even: array<Word>, len: nat, ghost s: Word -> Word)
    requires even.Length == 32 && BitStep(s)
    modifies even
    ensures MatrixOf(s, 8 * HighBit(len), even[..])
  {
    BitStepIsLinear(s);
    var odd := new Word[32](i => 0);
    OneBit(odd, s);
    MatrixSquare(even, odd, s, 1);
    MatrixSquare(odd, even, s, 2);
    var inEven := SquareOn(even, odd, len, s);
    ReachIs(4, len);
    if !inEven {
      ghost var rows := odd[..];
      var n := 0;
      while n < 32
        invariant 0 <= n <= 32 && odd[..] == rows && forall j :: 0 <= j < n ==> even[j] == rows[j]
      {
        even[n] := odd[n];
        n := n + 1;
      }
      assert even[..] == rows;
    }
  }

  // ---------------------------------------------------------------- tables for the zeros operator

  /** A byte in place k of a word. */
  function Place(b: Word, k: nat): Word
    requires k < 4
  {
    if k == 0 then b else if k == 1 then b << 8 else if k == 2 then b << 16 else b << 24
  }

  ghost predicate EntryOk(s: Word -> Word, n: nat, t: seq<Word>, k: nat, i: nat)
    requires k < 4
  {
    i < 256 && i < |t| ==> t[i] == Iter(s, Place(i as bv32, k), n)
  }

  ghost predicate TableOk(s: Word -> Word, n: nat, t: seq<Word>, k: nat)
    requires k < 4
  {
    |t| == 256 && forall i: nat :: EntryOk(s, n, t, k, i)
  }

  /** Four tables for n zero bits, one for each byte of the operand. */
  ghost predicate ShiftOk(s: Word -> Word, n: nat, z: seq<seq<Word>>) {
    |z| == 4 && TableOk(s, n, z[0], 0) && TableOk(s, n, z[1], 1) && TableOk(s, n, z[2], 2) && TableOk(s, n, z[3], 3)
  }

  /** One of the tables of crc32c_zeros. */
  method ZerosTable(op: seq<Word>, k: nat, ghost s: Word -> Word, ghost n: nat) returns (t: seq<Word>)
    requires k < 4 && MatrixOf(s, n, op) && Linear(s, Xor)
    ensures TableOk(s, n, t, k)
  {
    t := [];
    var i := 0;
    while i < 256
      invariant 0 <= i <= 256 && |t| == i
      invariant forall j: nat :: EntryOk(s, n, t, k, j)
    {
      var e := MatrixTimes(op, Place(i as bv32, k));
      MatrixApplies(s, n, op, Place(i as bv32, k));
      ghost var before := t;
      t := t + [e];
      forall j: nat ensures EntryOk(s, n, t, k, j) { assert EntryOk(s, n, before, k, j); }
      i := i + 1;
    }
  }

  /** crc32c_zeros. */
  method ZerosTables(len: nat, ghost s: Word -> Word) returns (z: seq<seq<Word>>)
    requires BitStep(s)
    ensures ShiftOk(s, 8 * HighBit(len), z)
  {
    BitStepIsLinear(s);
    var op := new Word[32](i => 0);
    ZerosOp(op, len, s);
    var rows := op[..];
    ghost var n := 8 * HighBit(len);
    var z0 := ZerosTable(rows, 0, s, n);
    var z1 := ZerosTable(rows, 1, s, n);
    var z2 := ZerosTable(rows, 2, s, n);
    var z3 := ZerosTable(rows, 3, s, n);
    z := [z0, z1, z2, z3];
  }

  lemma ByteBounds(x: Word)
    ensures Byte0(x) <= 0xff && Byte1(x) <= 0xff && Byte2(x) <= 0xff && Byte3(x) <= 0xff
  {
  }

  /** crc32c_shift. */
  function Shift(z: seq<seq<Word>>, crc: Word): Word
    requires |z| == 4 && |z[0]| == 256 && |z[1]| == 256 && |z[2]| == 256 && |z[3]| == 256
  {
    ByteBounds(crc);
    Xor(z[0][Index(Byte0(crc))], Xor(z[1][Index(Byte1(crc))], Xor(z[2][Index(Byte2(crc))], z[3][Index(Byte3(crc))])))
  }

  lemma WordOfPlaces(x: Word)
    ensures Xor(Place(Byte0(x), 0), Xor(Place(Byte1(x), 1), Xor(Place(Byte2(x), 2), Place(Byte3(x), 3)))) == x
  {
  }

  lemma Lookup(s: Word -> Word, n: nat, t: seq<Word>, k: nat, b: Word)
    requires k < 4 && TableOk(s, n, t, k) && b <= 0xff
    ensures t[Index(b)] == Iter(s, Place(b, k), n)
  {
    IndexBack(b);
    assert EntryOk(s, n, t, k, Index(b));
  }

  lemma IterOfFour(s: Word -> Word, n: nat, a: Word, b: Word, c: Word, d: Word)
    requires Linear(s, Xor)
    ensures Iter(s, Xor(a, Xor(b, Xor(c, d))), n) == Xor(Iter(s, a, n), Xor(Iter(s, b, n), Xor(Iter(s, c, n), Iter(s, d, n))))
  {
    IterLinear(s, Xor, a, Xor(b, Xor(c, d)), n);
    IterLinear(s, Xor, b, Xor(c, d), n);
    IterLinear(s, Xor, c, d, n);
  }

  /** Four lookups append the zeros. */
  lemma ShiftIs(s: Word -> Word, n: nat, z: seq<seq<Word>>, crc: Word)
    requires ShiftOk(s, n, z) && Linear(s, Xor)
    ensures Shift(z, crc) == Iter(s, crc, n)
  {
    ByteBounds(crc);
    WordOfPlaces(crc);
    Lookup(s, n, z[0], 0, Byte0(crc));
    Lookup(s, n, z[1], 1, Byte1(crc));
    Lookup(s, n, z[2], 2, Byte2(crc));
    Lookup(s, n, z[3], 3, Byte3(crc));
    IterOfFour(s, n, Place(Byte0(crc), 0), Place(Byte1(crc), 1), Place(Byte2(crc), 2), Place(Byte3(crc), 3));
  }
}
