/**
 * A shift register with feedback computes the remainder of a division of polynomials over the field of two elements. A
 * polynomial is the sequence of its coefficients, highest power first.
 */
module CrcPolynomials {
  import opened CrcAlgebra

  type Poly = seq<bool>

  function Zeros(n: nat): (p: Poly)
    ensures |p| == n && forall i :: 0 <= i < n ==> !p[i]
  {
    seq(n, _ => false)
  }

  function Sum(a: Poly, b: Poly): (p: Poly)
    requires |a| == |b|
    ensures |p| == |a| && forall i :: 0 <= i < |a| ==> p[i] == (a[i] != b[i])
  {
    seq(|a|, i requires 0 <= i < |a| => a[i] != b[i])
  }

  /** The product of q with a polynomial g of power 32: times x and plus a coefficient, coefficient by coefficient. */
  function Times(q: Poly, g: Poly): (p: Poly)
    requires |g| == 33
    ensures |p| == |q| + 32
  {
    if q == [] then Zeros(32)
    else
      var n := |q| - 1;
      Sum(Times(q[..n], g) + [false], Zeros(n) + if q[n] then g else Zeros(33))
  }

  /** Words and what is done with them: their lowest bit, the other bits moved down, addition without carry. */
  datatype Words<!T> = Words(low: T -> bool, half: T -> T, plus: (T, T) -> T, zero: T, one: T, poly: T)

  /** Bit i of a word. */
  function Bit<T>(w: Words<T>, c: T, i: nat): bool
    decreases i
  {
    if i == 0 then w.low(c) else Bit(w, w.half(c), i - 1)
  }

  ghost predicate Adds<T>(w: Words<T>, x: T, y: T) {
    && w.low(w.plus(x, y)) == (w.low(x) != w.low(y)) && w.half(w.plus(x, y)) == w.plus(w.half(x), w.half(y))
  }

  /** The words have 32 bits, the one and the zero are what they should be. */
  ghost predicate Bits32<T(!new)>(w: Words<T>) {
    && (forall x, y :: Adds(w, x, y)) && (forall x :: !Bit(w, x, 32))
    && w.low(w.one) && w.half(w.one) == w.zero && !w.low(w.zero) && w.half(w.zero) == w.zero
  }

  /** The feedback is the polynomial g without its highest power, the lowest bit belonging to the highest power left. */
  ghost predicate FeedsBack<T>(w: Words<T>, g: Poly) {
    |g| == 33 && g[0] && forall i :: 1 <= i <= 32 ==> Bit(w, w.poly, i - 1) == g[i]
  }

  /** One bit of the message enters the register. */
  function Feed<T>(w: Words<T>, c: T, b: bool): T {
    var d := if b then w.plus(c, w.one) else c;
    if w.low(d) then w.plus(w.half(d), w.poly) else w.half(d)
  }

  function FeedAll<T>(w: Words<T>, c: T, m: Poly): T {
    if m == [] then c else Feed(w, FeedAll(w, c, m[..|m| - 1]), m[|m| - 1])
  }

  lemma {:induction false} BitOfSum<T(!new)>(w: Words<T>, x: T, y: T, i: nat)
    requires Bits32(w)
    ensures Bit(w, w.plus(x, y), i) == (Bit(w, x, i) != Bit(w, y, i))
    decreases i
  {
    assert Adds(w, x, y);
    if i > 0 { BitOfSum(w, w.half(x), w.half(y), i - 1); }
  }

  lemma {:induction false} BitOfZero<T(!new)>(w: Words<T>, i: nat)
    requires Bits32(w)
    ensures !Bit(w, w.zero, i)
    decreases i
  {
    if i > 0 { BitOfZero(w, i - 1); }
  }

  /** What comes out of the register decides whether the polynomial is added. */
  lemma FedBit<T(!new)>(w: Words<T>, g: Poly, c: T, b: bool, i: nat)
    requires Bits32(w) && FeedsBack(w, g) && 1 <= i <= 32
    ensures Bit(w, Feed(w, c, b), i - 1) == (Bit(w, c, i) != ((w.low(c) != b) && g[i]))
  {
    var d := if b then w.plus(c, w.one) else c;
    assert Adds(w, c, w.one);
    BitOfSum(w, c, w.one, i);
    BitOfZero(w, i - 1);
    BitOfSum(w, w.half(d), w.poly, i - 1);
  }

  /** The register as a polynomial. */
  function Coefs<T>(w: Words<T>, c: T): (p: Poly)
    ensures |p| == 32 && forall i :: 0 <= i < 32 ==> p[i] == Bit(w, c, i)
  {
    seq(32, i requires 0 <= i => Bit(w, c, i))
  }

  /** The message times x^32, with the register added to its first 32 coefficients. */
  function Dividend<T>(w: Words<T>, c: T, m: Poly): (p: Poly)
    ensures |p| == |m| + 32
  {
    Sum(m + Zeros(32), Coefs(w, c) + Zeros(|m|))
  }

  /** Dividend = quotient times g plus r, the power of r below 32. */
  ghost predicate Divides<T>(w: Words<T>, g: Poly, c: T, m: Poly, q: Poly, r: T)
    requires |g| == 33
  {
    |q| == |m| && Dividend(w, c, m) == Sum(Times(q, g), Zeros(|m|) + Coefs(w, r))
  }

  lemma ProductNext(q: Poly, g: Poly, k: bool, j: nat)
    requires |g| == 33 && j < |q| + 33
    ensures Times(q + [k], g)[j] == ((j < |q| + 32 && Times(q, g)[j]) != (k && j >= |q| && g[j - |q|]))
  {
    var n := |q|;
    assert (q + [k])[..n] == q;
    var product, more := Times(q, g) + [false], Zeros(n) + if k then g else Zeros(33);
    assert Times(q + [k], g) == Sum(product, more);
    assert more[j] == (k && j >= n && g[j - n]);
  }

  lemma DividendAt<T>(w: Words<T>, c: T, m: Poly, j: nat)
    requires j < |m| + 32
    ensures Dividend(w, c, m)[j] == ((j < |m| && m[j]) != (j < 32 && Bit(w, c, j)))
  {
    assert (m + Zeros(32))[j] == (j < |m| && m[j]);
    assert (Coefs(w, c) + Zeros(|m|))[j] == (j < 32 && Bit(w, c, j));
  }

  lemma RestAt<T>(w: Words<T>, g: Poly, q: Poly, r: T, j: nat)
    requires |g| == 33 && j < |q| + 32
    ensures Sum(Times(q, g), Zeros(|q|) + Coefs(w, r))[j] == (Times(q, g)[j] != (j >= |q| && Bit(w, r, j - |q|)))
  {
    assert (Zeros(|q|) + Coefs(w, r))[j] == (j >= |q| && Bit(w, r, j - |q|));
  }

  lemma NextCoefficient<T(!new)>(w: Words<T>, g: Poly, c: T, m: Poly, b: bool, q: Poly, r: T, j: nat)
    requires Bits32(w) && FeedsBack(w, g) && Divides(w, g, c, m, q, r) && j < |m| + 33
    ensures var k := w.low(r) != b;
            Dividend(w, c, m + [b])[j] == Sum(Times(q + [k], g), Zeros(|m| + 1) + Coefs(w, Feed(w, r, b)))[j]
  {
    var n, k := |m|, w.low(r) != b;
    DividendAt(w, c, m + [b], j);
    RestAt(w, g, q + [k], Feed(w, r, b), j);
    ProductNext(q, g, k, j);
    if j < n + 32 {
      DividendAt(w, c, m, j);
      RestAt(w, g, q, r, j);
      assert Dividend(w, c, m)[j] == Sum(Times(q, g), Zeros(n) + Coefs(w, r))[j];
    }
    if j > n {
      FedBit(w, g, r, b, j - n);
      assert !Bit(w, r, 32);
    }
  }

  /** The register after a message is the remainder. */
  lemma {:induction false} RegisterIsRemainder<T(!new)>(w: Words<T>, g: Poly, c: T, m: Poly) returns (q: Poly)
    requires Bits32(w) && FeedsBack(w, g)
    ensures Divides(w, g, c, m, q, FeedAll(w, c, m))
  {
    if m == [] {
      q := [];
      assert Dividend(w, c, m) == Coefs(w, c);
      assert Zeros(0) + Coefs(w, c) == Coefs(w, c);
      assert Sum(Zeros(32), Coefs(w, c)) == Coefs(w, c);
    } else {
      var n := |m| - 1;
      var front, b := m[..n], m[n];
      var r := FeedAll(w, c, front);
      var p := RegisterIsRemainder(w, g, c, front);
      q := p + [w.low(r) != b];
      assert m == front + [b];
      forall j | 0 <= j < |m| + 32
        ensures Dividend(w, c, m)[j] == Sum(Times(q, g), Zeros(|m|) + Coefs(w, FeedAll(w, c, m)))[j]
      {
        NextCoefficient(w, g, c, front, b, p, r, j);
      }
    }
  }

  lemma {:induction false} FeedAllConcat<T>(w: Words<T>, c: T, a: Poly, b: Poly)
    ensures FeedAll(w, c, a + b) == FeedAll(w, FeedAll(w, c, a), b)
  {
    if b == [] {
      assert a + b == a;
    } else {
      var n := |b| - 1;
      assert (a + b)[..|a + b| - 1] == a + b[..n];
      FeedAllConcat(w, c, a, b[..n]);
    }
  }

  // ---------------------------------------------------------------- no other remainder

  /** The first coefficient of a product with g is that of the other factor. */
  lemma {:induction false} FirstOfProduct(q: Poly, g: Poly)
    requires |g| == 33 && g[0] && q != []
    ensures Times(q, g)[0] == q[0]
  {
    var n := |q| - 1;
    if n > 0 {
      FirstOfProduct(q[..n], g);
      assert Times(q, g)[0] == (Times(q[..n], g) + [false])[0];
    } else {
      assert q[..0] == [];
      assert Times(q, g)[0] == (q[0] && g[0]);
    }
  }

  lemma {:induction false} ProductOfShorter(q: Poly, g: Poly)
    requires |g| == 33
    ensures Times([false] + q, g) == [false] + Times(q, g)
  {
    var f := [false] + q;
    var n := |q|;
    if n == 0 {
      assert f[..0] == [];
      assert Times(f, g) == Sum(Zeros(32) + [false], Zeros(0) + Zeros(33));
    } else {
      assert f[..n] == [false] + q[..n - 1] && f[n] == q[n - 1];
      ProductOfShorter(q[..n - 1], g);
      var add := if q[n - 1] then g else Zeros(33);
      assert Zeros(n) + add == [false] + (Zeros(n - 1) + add);
      assert Times(f, g) == Sum(([false] + Times(q[..n - 1], g)) + [false], Zeros(n) + add);
    }
  }

  /** A product that vanishes where its quotient has coefficients is a product with nothing. */
  lemma {:induction false} NoQuotient(q: Poly, g: Poly)
    requires |g| == 33 && g[0] && forall j :: 0 <= j < |q| ==> !Times(q, g)[j]
    ensures Times(q, g) == Zeros(|q| + 32)
  {
    if q != [] {
      FirstOfProduct(q, g);
      assert q == [false] + q[1..];
      ProductOfShorter(q[1..], g);
      forall j | 0 <= j < |q[1..]| ensures !Times(q[1..], g)[j] { assert !Times(q, g)[j + 1]; }
      NoQuotient(q[1..], g);
    }
  }

  lemma {:induction false} ProductOfSum(a: Poly, b: Poly, g: Poly)
    requires |g| == 33 && |a| == |b|
    ensures Times(Sum(a, b), g) == Sum(Times(a, g), Times(b, g))
  {
    if a != [] {
      var n := |a| - 1;
      assert Sum(a, b)[..n] == Sum(a[..n], b[..n]);
      ProductOfSum(a[..n], b[..n], g);
    }
  }

  /** No dividend has two remainders. */
  lemma OneRemainder<T>(w: Words<T>, g: Poly, c: T, m: Poly, p: Poly, q: Poly, r: T, t: T)
    requires |g| == 33 && g[0] && Divides(w, g, c, m, p, r) && Divides(w, g, c, m, q, t)
    ensures Coefs(w, r) == Coefs(w, t)
  {
    var n := |m|;
    ProductOfSum(p, q, g);
    var zero := Sum(Times(p, g), Times(q, g));
    forall j | 0 <= j < n + 32 ensures zero[j] == (j >= n && Coefs(w, r)[j - n] != Coefs(w, t)[j - n]) {
      assert Dividend(w, c, m)[j] == (Times(p, g)[j] != (Zeros(n) + Coefs(w, r))[j]);
      assert Dividend(w, c, m)[j] == (Times(q, g)[j] != (Zeros(n) + Coefs(w, t))[j]);
    }
    NoQuotient(Sum(p, q), g);
    forall i | 0 <= i < 32 ensures Coefs(w, r)[i] == Coefs(w, t)[i] { assert !zero[n + i]; }
  }

  // ---------------------------------------------------------------- bits at once

  /** One step of the register with nothing coming in. */
  function StepOf<T>(w: Words<T>, c: T): T {
    if w.low(c) then w.plus(w.half(c), w.poly) else w.half(c)
  }

  /** The n lowest bits of a word, lowest first. */
  function LowBits<T>(w: Words<T>, v: T, n: nat): (p: Poly)
    ensures |p| == n
    decreases n
  {
    if n == 0 then [] else [w.low(v)] + LowBits(w, w.half(v), n - 1)
  }

  ghost predicate Mixes<T>(w: Words<T>, x: T, y: T, z: T) {
    w.plus(w.plus(x, y), z) == w.plus(w.plus(x, z), y) && w.plus(x, w.zero) == x
  }

  lemma StepFeeds<T(!new)>(w: Words<T>, c: T, v: T)
    requires Bits32(w) && forall x, y, z :: Mixes(w, x, y, z)
    ensures StepOf(w, w.plus(c, v)) == w.plus(Feed(w, c, w.low(v)), w.half(v))
  {
    assert Adds(w, c, v) && Adds(w, c, w.one);
    assert Mixes(w, w.half(c), w.half(v), w.poly);
  }

  /** Bits added to the register all at once take effect as they come down. */
  lemma {:induction false} StepsFeed<T(!new)>(w: Words<T>, step: T -> T, c: T, v: T, n: nat)
    requires Bits32(w) && (forall x, y, z :: Mixes(w, x, y, z)) && forall x :: step(x) == StepOf(w, x)
    ensures Iter(step, w.plus(c, v), n) == w.plus(FeedAll(w, c, LowBits(w, v, n)), Iter(w.half, v, n))
    decreases n
  {
    if n > 0 {
      var b, rest := w.low(v), LowBits(w, w.half(v), n - 1);
      StepFeeds(w, c, v);
      StepsFeed(w, step, Feed(w, c, b), w.half(v), n - 1);
      FeedAllConcat(w, c, [b], rest);
      assert [b][..0] == [];
      assert FeedAll(w, c, [b]) == Feed(w, c, b);
    }
  }
}

/** The bit-by-bit CRC of the code is the remainder for the polynomial of section 12.1 of RFC 3720. */
module CrcDivision {
  import opened CrcAlgebra
  import opened CrcBits
  import opened CrcPolynomials

  /** The powers in the generator polynomial. */
  const POWERS: set<int> := {32, 28, 27, 26, 25, 23, 22, 20, 19, 18, 14, 13, 11, 10, 9, 8, 6, 0}

  function Generator(): (p: Poly)
    ensures |p| == 33 && forall i :: 0 <= i < 33 ==> (p[i] <==> 32 - i in POWERS)
  {
    seq(33, i => 32 - i in POWERS)
  }

  function Low(c: Word): bool { c & 1 == 1 }

  function Half(c: Word): Word { c >> 1 }

  function Registers(): Words<Word> {
    Words(Low, Half, Xor, 0, 1, POLY)
  }

  // ---------------------------------------------------------------- bits of words

  lemma LowOfXor(x: Word, y: Word)
    ensures Low(Xor(x, y)) == (Low(x) != Low(y))
  {
  }

  lemma HalfOfXor(x: Word, y: Word)
    ensures Half(Xor(x, y)) == Xor(Half(x), Half(y))
  {
  }

  lemma AddsIs<T>(w: Words<T>, x: T, y: T, z: T, low: bool, hx: T, hy: T, hz: T)
    requires w.plus(x, y) == z && w.low(z) == low && low == (w.low(x) != w.low(y))
    requires w.half(x) == hx && w.half(y) == hy && w.half(z) == hz && w.plus(hx, hy) == hz
    ensures Adds(w, x, y)
  {
  }

  lemma XorAdds(x: Word, y: Word)
    ensures Adds(Registers(), x, y)
  {
    LowOfXor(x, y);
    HalfOfXor(x, y);
    var z := Xor(x, y);
    AddsIs(Registers(), x, y, z, Low(z), Half(x), Half(y), Half(z));
  }

  /** Bit i of a word, without the bit-vectors it is made of. */
  lemma {:induction false} BitIsOfIter<T>(w: Words<T>, c: T, i: nat)
    ensures Bit(w, c, i) == w.low(Iter(w.half, c, i))
    decreases i
  {
    if i > 0 { BitIsOfIter(w, w.half(c), i - 1); }
  }

  lemma EightTimes<T>(f: T -> T, c: T, c1: T, c2: T, c3: T, c4: T, c5: T, c6: T, c7: T, c8: T)
    requires f(c) == c1 && f(c1) == c2 && f(c2) == c3 && f(c3) == c4 && f(c4) == c5 && f(c5) == c6 && f(c6) == c7 && f(c7) == c8
    ensures Iter(f, c, 8) == c8
  {
    assert Iter(f, c, 8) == Iter(f, c4, 4);
  }

  lemma FourOfEight<T>(f: T -> T, c: T, c1: T, c2: T, c3: T, c4: T)
    requires Iter(f, c, 8) == c1 && Iter(f, c1, 8) == c2 && Iter(f, c2, 8) == c3 && Iter(f, c3, 8) == c4
    ensures Iter(f, c, 32) == c4
  {
    IterAdd(f, c, 8, 24);
    IterAdd(f, c1, 8, 16);
    IterAdd(f, c2, 8, 8);
  }

  lemma Halves(c: Word)
    ensures Iter(Half, c, 8) == c >> 8
  {
    ShiftSteps(c);
    EightTimes(Half, c, c >> 1, c >> 2, c >> 3, c >> 4, c >> 5, c >> 6, c >> 7, c >> 8);
  }

  lemma ShiftSteps(c: Word)
    ensures (c >> 1) >> 1 == c >> 2 && (c >> 2) >> 1 == c >> 3 && (c >> 3) >> 1 == c >> 4 && (c >> 4) >> 1 == c >> 5
    ensures (c >> 5) >> 1 == c >> 6 && (c >> 6) >> 1 == c >> 7 && (c >> 7) >> 1 == c >> 8
  {
  }

  lemma Eights(a: Word, b: Word, c: Word, d: Word, e: Word)
    requires b == a >> 8 && c == b >> 8 && d == c >> 8 && e == d >> 8
    ensures Iter(Half, a, 32) == e
  {
    Halves(a);
    Halves(b);
    Halves(c);
    Halves(d);
    FourOfEight(Half, a, b, c, d, e);
  }

  lemma Last8(a: Word, b: Word, c: Word, d: Word)
    requires b == a >> 8 && c == b >> 8 && d == c >> 8
    ensures d >> 8 == 0
  {
  }

  lemma Down(c: Word) returns (d: Word)
    ensures d == c >> 8
  {
    d := c >> 8;
  }

  lemma AllShiftedOut(a: Word)
    ensures Iter(Half, a, 32) == 0
  {
    var b := Down(a);
    var c := Down(b);
    var d := Down(c);
    Last8(a, b, c, d);
    Eights(a, b, c, d, 0);
  }

  lemma Constants()
    ensures Low(1) && Half(1) == 0 && !Low(0) && Half(0) == 0
  {
  }

  lemma RegistersAre()
    ensures Bits32(Registers())
  {
    var w := Registers();
    Constants();
    forall x, y ensures Adds(w, x, y) { XorAdds(x, y); }
    forall x ensures !Bit(w, x, 32) {
      BitIsOfIter(w, x, 32);
      AllShiftedOut(x);
    }
  }

  // ---------------------------------------------------------------- the constant of the code

  lemma FirstBits<T>(w: Words<T>, c: T, c1: T, c2: T, c3: T, c4: T, c5: T, c6: T, c7: T, i: nat)
    requires i < 8 && w.half(c) == c1 && w.half(c1) == c2 && w.half(c2) == c3 && w.half(c3) == c4
    requires w.half(c4) == c5 && w.half(c5) == c6 && w.half(c6) == c7
    ensures Bit(w, c, i) == w.low([c, c1, c2, c3, c4, c5, c6, c7][i])
  {
    if i >= 1 { assert Bit(w, c, i) == Bit(w, c1, i - 1); }
    if i >= 2 { assert Bit(w, c1, i - 1) == Bit(w, c2, i - 2); }
    if i >= 3 { assert Bit(w, c2, i - 2) == Bit(w, c3, i - 3); }
    if i >= 4 { assert Bit(w, c3, i - 3) == Bit(w, c4, i - 4); }
    if i >= 5 { assert Bit(w, c4, i - 4) == Bit(w, c5, i - 5); }
    if i >= 6 { assert Bit(w, c5, i - 5) == Bit(w, c6, i - 6); }
    if i >= 7 { assert Bit(w, c6, i - 6) == Bit(w, c7, i - 7); }
  }

  lemma LaterBits<T>(w: Words<T>, c: T, d: T, i: nat)
    requires Iter(w.half, c, 8) == d
    ensures Bit(w, c, i + 8) == Bit(w, d, i)
  {
    BitIsOfIter(w, c, i + 8);
    BitIsOfIter(w, d, i);
    IterAdd(w.half, c, 8, i);
  }

  lemma HighBytes(c: Word, d: Word, i: nat)
    requires d == c >> 8
    ensures Bit(Registers(), c, i + 8) == Bit(Registers(), d, i)
  {
    Halves(c);
    LaterBits(Registers(), c, d, i);
  }

  lemma PolyBytes()
    ensures POLY >> 8 == 0x82f63b && (0x82f63b as Word) >> 8 == 0x82f6 && (0x82f6 as Word) >> 8 == 0x82
  {
  }

  lemma Byte0(i: nat)
    requires i < 8
    ensures Bit(Registers(), POLY, i) == (31 - i in POWERS)
  {
    FirstBits(Registers(), POLY, 0x417b1dbc, 0x20bd8ede, 0x105ec76f, 0x82f63b7, 0x417b1db, 0x20bd8ed, 0x105ec76, i);
  }

  lemma Byte1(i: nat)
    requires i < 8
    ensures Bit(Registers(), 0x82f63b, i) == (23 - i in POWERS)
  {
    FirstBits(Registers(), 0x82f63b, 0x417b1d, 0x20bd8e, 0x105ec7, 0x82f63, 0x417b1, 0x20bd8, 0x105ec, i);
  }

  lemma Byte2(i: nat)
    requires i < 8
    ensures Bit(Registers(), 0x82f6, i) == (15 - i in POWERS)
  {
    FirstBits(Registers(), 0x82f6, 0x417b, 0x20bd, 0x105e, 0x82f, 0x417, 0x20b, 0x105, i);
  }

  lemma Byte3(i: nat)
    requires i < 8
    ensures Bit(Registers(), 0x82, i) == (7 - i in POWERS)
  {
    FirstBits(Registers(), 0x82, 0x41, 0x20, 0x10, 0x8, 0x4, 0x2, 0x1, i);
  }

  lemma PolyBit(i: nat)
    requires i < 32
    ensures Bit(Registers(), POLY, i) == (31 - i in POWERS)
  {
    PolyBytes();
    if i < 8 {
      Byte0(i);
    } else {
      HighBytes(POLY, 0x82f63b, i - 8);
      if i < 16 {
        Byte1(i - 8);
      } else {
        HighBytes(0x82f63b, 0x82f6, i - 16);
        if i < 24 {
          Byte2(i - 16);
        } else {
          HighBytes(0x82f6, 0x82, i - 24);
          Byte3(i - 24);
        }
      }
    }
  }

  lemma PolyIsGenerator()
    ensures FeedsBack(Registers(), Generator())
  {
    forall i | 1 <= i <= 32 ensures Bit(Registers(), Registers().poly, i - 1) == Generator()[i] { PolyBit(i - 1); }
  }

  // ---------------------------------------------------------------- messages

  /** A message as a polynomial: the lowest bit of the first byte belongs to the highest power. */
  function MessageBits(d: Bytes): (p: Poly)
    ensures |p| == 8 * |d|
  {
    if d == [] then [] else MessageBits(d[..|d| - 1]) + LowBits(Registers(), Value(d[|d| - 1]), 8)
  }

  lemma XorMixes(x: Word, y: Word, z: Word)
    ensures Mixes(Registers(), x, y, z)
  {
    XorMoves(x, y, z);
    XorAssoc(x, y, z);
    XorAssoc(x, z, y);
    XorComm(y, z);
  }

  lemma ByteShiftsOut(b: bv8)
    ensures Value(b) >> 8 == 0
  {
  }

  lemma ByteFeeds(f: Word -> Word, c: Word, b: bv8)
    requires ByteStep(f)
    ensures f(Xor(c, Value(b))) == FeedAll(Registers(), c, LowBits(Registers(), Value(b), 8))
  {
    var w, v := Registers(), Value(b);
    RegistersAre();
    forall x, y, z ensures Mixes(w, x, y, z) { XorMixes(x, y, z); }
    StepsFeed(w, Step, c, v, 8);
    Halves(v);
    ByteShiftsOut(b);
    var r := FeedAll(w, c, LowBits(w, v, 8));
    XorAssoc(r, 0, 0);
    assert Agrees(f, Xor(c, v));
    Step8IsIter(Xor(c, v));
  }

  lemma {:induction false} RegisterIsFed(f: Word -> Word, c: Word, d: Bytes)
    requires ByteStep(f)
    ensures Raw(f, c, d) == FeedAll(Registers(), c, MessageBits(d))
  {
    if d != [] {
      var n := |d| - 1;
      RegisterIsFed(f, c, d[..n]);
      ByteFeeds(f, Raw(f, c, d[..n]), d[n]);
      FeedAllConcat(Registers(), c, MessageBits(d[..n]), LowBits(Registers(), Value(d[n]), 8));
    }
  }

  /**
   * The CRC-32C of a message: with the complement of the old CRC added to the first 32 coefficients of the message times
   * x^32, the complement of the new one is what is left over after the division by the generator.
   */
  lemma CrcIsRemainder(f: Word -> Word, crc: Word, d: Bytes) returns (q: Poly)
    requires ByteStep(f)
    ensures Divides(Registers(), Generator(), Not(crc), MessageBits(d), q, Not(Crc(f, crc, d)))
  {
    RegistersAre();
    PolyIsGenerator();
    RegisterIsFed(f, Not(crc), d);
    NotNot(Raw(f, Not(crc), d));
    q := RegisterIsRemainder(Registers(), Generator(), Not(crc), MessageBits(d));
  }
}
