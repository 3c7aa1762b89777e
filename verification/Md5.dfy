/**
 * MD5 fed in pieces (md5_init, md5_append and md5_finish in md5.c), against the one-shot padded message of
 * sections 3.1 and 3.2 of RFC 1321. The compression of one 64-byte block is left abstract.
 */
module Md5Spec {
  import opened Base

  type Data = seq<Byte>

  const BLOCK := 64
  const WORD := 0x1_0000_0000

  /** All whole blocks of a message through the compression function, in order. */
  function Absorb<S>(compress: (S, Data) -> S, s: S, d: Data): S
    decreases |d|
  {
    if |d| < BLOCK then s else Absorb(compress, compress(s, d[..BLOCK]), d[BLOCK..])
  }

  lemma {:induction false} AbsorbConcat<S>(compress: (S, Data) -> S, s: S, a: Data, b: Data, n: nat)
    requires |a| == BLOCK * n
    ensures Absorb(compress, s, a + b) == Absorb(compress, Absorb(compress, s, a), b)
    decreases n
  {
    if n == 0 {
      assert a + b == b;
    } else {
      SplitConcat(a, b, BLOCK);
      AbsorbConcat(compress, compress(s, a[..BLOCK]), a[BLOCK..], b, n - 1);
    }
  }

  lemma AbsorbOne<S>(compress: (S, Data) -> S, s: S, d: Data)
    requires |d| == BLOCK
    ensures Absorb(compress, s, d) == compress(s, d)
  {
    assert d[..BLOCK] == d && d[BLOCK..] == [];
  }

  // ---------------------------------------------------------------- padding

  /** How many bytes bring a message of n bytes to 56 modulo 64, one at least. */
  function PadLength(n: nat): (p: nat)
    ensures 1 <= p <= BLOCK && (n + p) % BLOCK == 56
  {
    (55 - n) % BLOCK + 1
  }

  /** No shorter padding will do. */
  lemma PadIsLeast(n: nat, q: nat)
    requires 1 <= q && (n + q) % BLOCK == 56
    ensures PadLength(n) <= q
  {
  }

  /** A one bit, then zero bits. */
  function Padding(n: nat): (d: Data)
    requires n > 0
    ensures |d| == n
  {
    [0x80] + seq(n - 1, i => 0)
  }

  function Bytes32(w: nat): (d: Data)
    ensures |d| == 4
  {
    [w % 0x100, w / 0x100 % 0x100, w / 0x1_0000 % 0x100, w / 0x100_0000 % 0x100]
  }

  /** The bytes of words in a row. */
  function Spread(words: seq<nat>): (d: Data)
    ensures |d| == 4 * |words|
  {
    if words == [] then [] else Bytes32(words[0]) + Spread(words[1..])
  }

  /** Byte k of a word. */
  function ByteOf(w: nat, k: nat): Byte {
    if k == 0 then w % 0x100 else ByteOf(w / 0x100, k - 1)
  }

  lemma ByteOfWord(w: nat, k: nat)
    requires k < 4
    ensures ByteOf(w, k) == Bytes32(w)[k]
  {
    assert w / 0x100 / 0x100 == w / 0x1_0000 && w / 0x1_0000 / 0x100 == w / 0x100_0000;
    if k > 1 { assert ByteOf(w, k) == ByteOf(w / 0x1_0000, k - 2); }
  }

  lemma {:induction false} SpreadAt(words: seq<nat>, i: nat)
    requires i < 4 * |words|
    ensures Spread(words)[i] == ByteOf(words[i / 4], i % 4)
  {
    if i < 4 {
      ByteOfWord(words[0], i);
    } else {
      SpreadAt(words[1..], i - 4);
      assert (i - 4) / 4 == i / 4 - 1;
    }
  }

  /** The four words a message is absorbed into. */
  datatype Chain = Chain(a: Word, b: Word, c: Word, d: Word)

  type Word = w: int | 0 <= w < WORD

  /** Section 3.3 of RFC 1321. */
  const START := Chain(0x67452301, 0xefcdab89, 0x98badcfe, 0x10325476)

  function WordsOf(c: Chain): seq<nat> {
    [c.a, c.b, c.c, c.d]
  }

  /** The message digest of section 3.5: all four words, low byte first. */
  function Digest(c: Chain): (d: Data)
    ensures |d| == 16
  {
    Spread(WordsOf(c))
  }

  /** The words of section 3.3, low byte first. */
  lemma StartBytes()
    ensures Digest(START) == [0x01, 0x23, 0x45, 0x67, 0x89, 0xab, 0xcd, 0xef, 0xfe, 0xdc, 0xba, 0x98, 0x76, 0x54, 0x32, 0x10]
  {
    var w := WordsOf(START);
    assert w[1..] == [0xefcdab89, 0x98badcfe, 0x10325476] && w[1..][1..] == [0x98badcfe, 0x10325476];
    assert w[1..][1..][1..] == [0x10325476] && w[1..][1..][1..][1..] == [];
    assert Bytes32(0x67452301) == [0x01, 0x23, 0x45, 0x67] && Bytes32(0xefcdab89) == [0x89, 0xab, 0xcd, 0xef];
    assert Bytes32(0x98badcfe) == [0xfe, 0xdc, 0xba, 0x98] && Bytes32(0x10325476) == [0x76, 0x54, 0x32, 0x10];
  }

  lemma WordValue(w: Word)
    ensures var d: seq<int> := Bytes32(w); w == d[0] + 0x100 * d[1] + 0x1_0000 * d[2] + 0x100_0000 * d[3]
  {
    var q := w / 0x100;
    var r := q / 0x100;
    assert w / 0x1_0000 == r && w / 0x100_0000 == r / 0x100;
    assert w == w % 0x100 + 0x100 * q && q == q % 0x100 + 0x100 * r;
  }

  lemma WordBack(w: Word, v: Word)
    requires Bytes32(w) == Bytes32(v)
    ensures w == v
  {
    WordValue(w);
    WordValue(v);
  }

  lemma {:induction false} SpreadBack(u: seq<nat>, v: seq<nat>)
    requires |u| == |v| && Spread(u) == Spread(v) && forall i :: 0 <= i < |u| ==> u[i] < WORD && v[i] < WORD
    ensures u == v
  {
    if u != [] {
      assert Spread(u)[..4] == Bytes32(u[0]) && Spread(v)[..4] == Bytes32(v[0]);
      assert Spread(u)[4..] == Spread(u[1..]) && Spread(v)[4..] == Spread(v[1..]);
      WordBack(u[0], v[0]);
      SpreadBack(u[1..], v[1..]);
    }
  }

  /** Nothing of the state is lost in the digest. */
  lemma DigestTellsChains(c: Chain, d: Chain)
    requires Digest(c) == Digest(d)
    ensures c == d
  {
    SpreadBack(WordsOf(c), WordsOf(d));
    assert WordsOf(c)[0] == WordsOf(d)[0] && WordsOf(c)[1] == WordsOf(d)[1];
    assert WordsOf(c)[2] == WordsOf(d)[2] && WordsOf(c)[3] == WordsOf(d)[3];
  }

  /** The number of bits of a message modulo 2^64, least significant byte first. */
  function BitLength(n: nat): (d: Data)
    ensures |d| == 8
  {
    var bits := 8 * n % (WORD * WORD);
    Bytes32(bits % WORD) + Bytes32(bits / WORD)
  }

  function Padded(msg: Data): Data {
    msg + Padding(PadLength(|msg|)) + BitLength(|msg|)
  }

  // ---------------------------------------------------------------- the padding bit by bit

  /** The bits of a byte, highest first. */
  function ByteBits(b: Byte): (p: seq<bool>)
    ensures |p| == 8
  {
    [b / 128 == 1, b / 64 % 2 == 1, b / 32 % 2 == 1, b / 16 % 2 == 1, b / 8 % 2 == 1, b / 4 % 2 == 1, b / 2 % 2 == 1, b % 2 == 1]
  }

  function BitsOf(d: Data): (p: seq<bool>)
    ensures |p| == 8 * |d|
  {
    if d == [] then [] else BitsOf(d[..|d| - 1]) + ByteBits(d[|d| - 1])
  }

  lemma {:induction false} BitsOfConcat(a: Data, b: Data)
    ensures BitsOf(a + b) == BitsOf(a) + BitsOf(b)
  {
    if b == [] {
      assert a + b == a;
    } else {
      var n := |b| - 1;
      var front, last := b[..n], ByteBits(b[n]);
      assert (a + b)[..|a + b| - 1] == a + front && (a + b)[|a + b| - 1] == b[n];
      BitsOfConcat(a, front);
      assert (BitsOf(a) + BitsOf(front)) + last == BitsOf(a) + (BitsOf(front) + last);
    }
  }

  function NoBits(n: nat): seq<bool> {
    seq(n, _ => false)
  }

  lemma {:induction false} BitsOfZeros(n: nat)
    ensures BitsOf(seq(n, _ => 0)) == NoBits(8 * n)
  {
    var d: Data := seq(n, _ => 0);
    if n > 0 {
      assert d[..n - 1] == seq(n - 1, _ => 0);
      BitsOfZeros(n - 1);
      assert ByteBits(0) == NoBits(8);
    }
  }

  lemma BitsOfPadding(n: nat)
    requires n > 0
    ensures BitsOf(Padding(n)) == [true] + NoBits(8 * n - 1)
  {
    var d: Data := seq(n - 1, _ => 0);
    assert Padding(n) == [0x80] + d;
    BitsOfConcat([0x80], d);
    BitsOfZeros(n - 1);
    BitsOfOne();
    assert ([true] + NoBits(7)) + NoBits(8 * (n - 1)) == [true] + NoBits(8 * n - 1);
  }

  lemma BitsOfOne()
    ensures BitsOf([0x80]) == [true] + NoBits(7)
  {
    assert [0x80 as Byte][..0] == [];
    assert ByteBits(0x80) == [true] + NoBits(7);
  }

  /** The number that bytes stand for, least significant first. */
  function Number(d: Data): nat {
    if d == [] then 0 else d[0] + 0x100 * Number(d[1..])
  }

  lemma NumberCons(x: Byte, d: Data)
    ensures Number([x] + d) == x as int + 0x100 * Number(d)
  {
    assert ([x] + d)[1..] == d;
  }

  lemma NumberOfWord(w: Word, rest: Data)
    ensures Number(Bytes32(w) + rest) == w + WORD * Number(rest)
  {
    var d := Bytes32(w);
    var c := [d[3]] + rest;
    var b := [d[2]] + c;
    var a := [d[1]] + b;
    NumberCons(d[3], rest);
    NumberCons(d[2], c);
    NumberCons(d[1], b);
    NumberCons(d[0], a);
    assert d + rest == [d[0]] + a;
    WordValue(w);
  }

  lemma NumberOfLength(n: nat)
    ensures Number(BitLength(n)) == 8 * n % (WORD * WORD)
  {
    var bits := 8 * n % (WORD * WORD);
    assert bits == bits % WORD + WORD * (bits / WORD);
    assert bits / WORD < WORD;
    NumberOfWord(bits % WORD, Bytes32(bits / WORD));
    NumberOfWord(bits / WORD, []);
    assert Bytes32(bits / WORD) + [] == Bytes32(bits / WORD);
  }

  /**
   * Sections 3.1 and 3.2 of RFC 1321: the message, a one bit, as few zero bits as bring the length to 448 modulo 512, and
   * the length in bits modulo 2^64 as eight bytes, least significant first.
   */
  lemma PaddedBits(msg: Data) returns (zeros: nat, length: Data)
    ensures BitsOf(Padded(msg)) == BitsOf(msg) + [true] + NoBits(zeros) + BitsOf(length)
    ensures zeros < 512 && (|BitsOf(msg)| + 1 + zeros) % 512 == 448
    ensures |length| == 8 && Number(length) == |BitsOf(msg)| % (WORD * WORD)
  {
    var n := PadLength(|msg|);
    zeros, length := 8 * n - 1, BitLength(|msg|);
    BitsOfConcat(msg, Padding(n));
    BitsOfConcat(msg + Padding(n), length);
    BitsOfPadding(n);
    NumberOfLength(|msg|);
    assert BitsOf(msg) + ([true] + NoBits(zeros)) + BitsOf(length) == BitsOf(msg) + [true] + NoBits(zeros) + BitsOf(length);
    TimesEight(|msg| + n);
  }

  lemma TimesEight(a: nat)
    requires a % 64 == 56
    ensures 8 * a % 512 == 448
  {
  }

  /** A padded message is made of whole blocks. */
  lemma PaddedIsWhole(msg: Data)
    ensures |Padded(msg)| % BLOCK == 0
  {
    var n := |msg| + PadLength(|msg|);
    assert n % BLOCK + 8 == BLOCK;
    ModFull(n, 8);
  }

  // ---------------------------------------------------------------- the two-word count

  /** lo and hi are the low and high word of a number of bits. */
  ghost predicate Counts(lo: nat, hi: nat, n: nat) {
    lo < WORD && hi < WORD && lo + WORD * hi == 8 * n % (WORD * WORD)
  }

  lemma ModWord(lo: nat, m: nat)
    requires lo < WORD
    ensures (lo + WORD * m) % WORD == lo
  {
  }

  lemma LowWord(lo: nat, hi: nat, n: nat)
    requires Counts(lo, hi, n)
    ensures lo == 8 * n % WORD
  {
    var k := 8 * n / (WORD * WORD);
    assert 8 * n == WORD * WORD * k + lo + WORD * hi;
    ModWord(lo, WORD * k + hi);
  }

  /** The offset the code computes is the number of bytes past the last whole block. */
  lemma OffsetIs(lo: nat, hi: nat, n: nat)
    requires Counts(lo, hi, n)
    ensures lo / 8 % BLOCK == n % BLOCK
  {
    LowWord(lo, hi, n);
    var k := 8 * n / WORD;
    assert 8 * n == WORD * k + lo;
    assert lo / 8 == n - (WORD / 8) * k;
  }

  /** The update of the two words: the carry and the bits shifted out of the low word go to the high word. */
  lemma CountAdds(lo: nat, hi: nat, n: nat, m: nat)
    requires Counts(lo, hi, n) && m < 0x8000_0000
    ensures var nbits := 8 * m % WORD;
            var lo' := (lo + nbits) % WORD;
            var hi' := (hi + m / 0x2000_0000 + if lo' < nbits then 1 else 0) % WORD;
            Counts(lo', hi', n + m)
  {
    var nbits := 8 * m % WORD;
    var up := m / 0x2000_0000;
    assert 8 * m == nbits + WORD * up;
    var lo' := (lo + nbits) % WORD;
    var carry := if lo' < nbits then 1 else 0;
    assert lo + nbits == lo' + WORD * carry;
    var high := hi + up + carry;
    var hi' := high % WORD;
    var over := high / WORD;
    var bits := 8 * n;
    var k := bits / (WORD * WORD);
    assert bits == WORD * WORD * k + lo + WORD * hi;
    assert 8 * (n + m) == WORD * WORD * (k + over) + lo' + WORD * hi';
    Remainder(8 * (n + m), k + over, lo' + WORD * hi');
  }

  lemma Remainder(x: nat, q: nat, r: nat)
    requires x == WORD * WORD * q + r && r < WORD * WORD
    ensures x % (WORD * WORD) == r
  {
  }

  // ---------------------------------------------------------------- a message that grows

  /** The bytes past the last whole block. */
  function Partial(m: Data): Data {
    m[|m| - |m| % BLOCK..]
  }

  function Whole(m: Data): Data {
    m[..|m| - |m| % BLOCK]
  }

  lemma AbsorbSplit<S>(compress: (S, Data) -> S, s: S, m: Data, x: Data)
    ensures Absorb(compress, s, m + x) == Absorb(compress, Absorb(compress, s, Whole(m)), Partial(m) + x)
  {
    assert m + x == Whole(m) + (Partial(m) + x);
    AbsorbConcat(compress, s, Whole(m), Partial(m) + x, |m| / BLOCK);
  }

  lemma AbsorbWhole<S>(compress: (S, Data) -> S, s: S, m: Data)
    ensures Absorb(compress, s, m) == Absorb(compress, s, Whole(m))
  {
    AbsorbSplit(compress, s, m, []);
    assert m + [] == m && Partial(m) + [] == Partial(m);
  }

  /** Bytes that do not fill the block under way change nothing yet. */
  lemma GrowsPartly<S>(compress: (S, Data) -> S, s: S, m: Data, x: Data)
    requires |m| % BLOCK + |x| < BLOCK
    ensures Absorb(compress, s, m + x) == Absorb(compress, s, m) && Partial(m + x) == Partial(m) + x
  {
    AbsorbSplit(compress, s, m, x);
    AbsorbWhole(compress, s, m);
    PartialGrows(m, x);
  }

  lemma ModAdd(n: nat, k: nat)
    requires n % BLOCK + k < BLOCK
    ensures (n + k) % BLOCK == n % BLOCK + k
  {
    var q := n / BLOCK;
    assert n + k == BLOCK * q + (n % BLOCK + k);
  }

  lemma PartialGrows(m: Data, x: Data)
    requires |m| % BLOCK + |x| < BLOCK
    ensures Partial(m + x) == Partial(m) + x
  {
    ModAdd(|m|, |x|);
    var at := |m| - |m| % BLOCK;
    assert Partial(m + x) == (m + x)[at..];
  }

  /** Bytes that fill it complete a block. */
  lemma GrowsToBlock<S>(compress: (S, Data) -> S, s: S, m: Data, x: Data)
    requires |m| % BLOCK + |x| == BLOCK
    ensures Absorb(compress, s, m + x) == compress(Absorb(compress, s, m), Partial(m) + x)
    ensures |m + x| % BLOCK == 0
  {
    AbsorbSplit(compress, s, m, x);
    AbsorbWhole(compress, s, m);
    AbsorbOne(compress, Absorb(compress, s, Whole(m)), Partial(m) + x);
    ModFull(|m|, |x|);
  }

  lemma ModFull(n: nat, k: nat)
    requires n % BLOCK + k == BLOCK
    ensures (n + k) % BLOCK == 0
  {
    var q := n / BLOCK;
    assert n + k == BLOCK * (q + 1);
  }

  lemma CarryLater(high: nat)
    ensures (high % WORD + 1) % WORD == (high + 1) % WORD
  {
    var q := high / WORD;
    assert high + 1 == WORD * q + (high % WORD + 1);
  }
}

module Md5 {
  import opened Base
  import opened Md5Spec

  /** The static pad of md5_finish. */
  function Pad(): (d: Data)
    ensures |d| == BLOCK
  {
    [0x80] + seq(BLOCK - 1, i => 0)
  }

  lemma PadPrefix(pad: Data, n: nat)
    requires pad == Pad() && 1 <= n <= BLOCK
    ensures pad[..n] == Padding(n)
  {
  }

  /** The loops of md5_finish that take words apart. */
  method PutWords(words: seq<nat>, out: array<Byte>)
    requires out.Length == 4 * |words|
    modifies out
    ensures out[..] == Spread(words)
  {
    var i := 0;
    while i < out.Length
      invariant 0 <= i <= out.Length && out[..i] == Spread(words)[..i]
    {
      out[i] := ByteOf(words[i / 4], i % 4);
      SpreadAt(words, i);
      i := i + 1;
    }
    assert out[..i] == out[..];
  }

  class State {
    const compress: (Chain, Data) -> Chain
    var lo: nat
    var hi: nat
    var abcd: Chain
    var buf: array<Byte>
    ghost var msg: Data

    ghost predicate Valid()
      reads this, buf
    {
      && buf.Length == BLOCK && Counts(lo, hi, |msg|)
      && abcd == Absorb(compress, START, msg) && buf[..|msg| % BLOCK] == Partial(msg)
    }

    /** md5_init. */
    constructor (compress: (Chain, Data) -> Chain)
      ensures Valid() && fresh(buf) && msg == [] && this.compress == compress
    {
      this.compress := compress;
      lo, hi, abcd, msg := 0, 0, START, [];
      buf := new Byte[BLOCK](i => 0);
    }

    /** memcpy into the block being accumulated. */
    method Accumulate(at: nat, d: Data)
      requires buf.Length == BLOCK && at + |d| <= BLOCK
      modifies buf
      ensures buf[..at + |d|] == old(buf[..at]) + d
    {
      var i := 0;
      while i < |d|
        invariant 0 <= i <= |d|
        invariant forall j :: 0 <= j < at ==> buf[j] == old(buf[j])
        invariant forall j :: 0 <= j < i ==> buf[at + j] == d[j]
      {
        buf[at + i] := d[i];
        i := i + 1;
      }
    }

    method CountUp(nbytes: nat)
      requires Counts(lo, hi, |msg|) && nbytes < 0x8000_0000
      modifies this`lo, this`hi
      ensures Counts(lo, hi, |msg| + nbytes)
    {
      CountAdds(lo, hi, |msg|, nbytes);
      CarryLater(hi + nbytes / 0x2000_0000);
      var nbits := 8 * nbytes % WORD;
      hi := (hi + nbytes / 0x2000_0000) % WORD;
      lo := (lo + nbits) % WORD;
      if lo < nbits { hi := (hi + 1) % WORD; }
    }

    /** The first part of md5_append: bytes that go to the block under way. */
    method Top(d: Data, offset: nat) returns (copied: nat)
      requires buf.Length == BLOCK && abcd == Absorb(compress, START, msg)
      requires offset == |msg| % BLOCK > 0 && buf[..offset] == Partial(msg)
      modifies this`abcd, this`msg, buf
      ensures copied <= |d| && msg == old(msg) + d[..copied] && abcd == Absorb(compress, START, msg)
      ensures if offset + |d| < BLOCK then copied == |d| && buf[..|msg| % BLOCK] == Partial(msg) else |msg| % BLOCK == 0
    {
      copied := if offset + |d| > BLOCK then BLOCK - offset else |d|;
      var x := d[..copied];
      Accumulate(offset, x);
      if offset + copied < BLOCK {
        GrowsPartly(compress, START, msg, x);
      } else {
        GrowsToBlock(compress, START, msg, x);
        assert buf[..] == buf[..offset + copied];
        abcd := compress(abcd, buf[..]);
      }
      msg := msg + x;
    }

    /** The rest of md5_append: whole blocks straight from the data, then what is left. */
    method Blocks(d: Data)
      requires buf.Length == BLOCK && abcd == Absorb(compress, START, msg) && |msg| % BLOCK == 0
      modifies this`abcd, this`msg, buf
      ensures msg == old(msg) + d && abcd == Absorb(compress, START, msg) && buf[..|msg| % BLOCK] == Partial(msg)
    {
      var p := 0;
      ghost var before := msg;
      assert d[..0] == [];
      while |d| - p >= BLOCK
        invariant 0 <= p <= |d| && |msg| % BLOCK == 0 && msg == before + d[..p] && abcd == Absorb(compress, START, msg)
      {
        Process(d[p..p + BLOCK]);
        assert before + d[..p + BLOCK] == before + d[..p] + d[p..p + BLOCK];
        p := p + BLOCK;
      }
      Rest(d[p..]);
      assert before + d == before + d[..p] + d[p..];
    }

    /** md5_process on a whole block of the data. */
    method Process(x: Data)
      requires abcd == Absorb(compress, START, msg) && |msg| % BLOCK == 0 && |x| == BLOCK
      modifies this`abcd, this`msg
      ensures msg == old(msg) + x && abcd == Absorb(compress, START, msg) && |msg| % BLOCK == 0
    {
      AbsorbConcat(compress, START, msg, x, |msg| / BLOCK);
      AbsorbOne(compress, Absorb(compress, START, msg), x);
      abcd := compress(abcd, x);
      msg := msg + x;
    }

    /** The final partial block. */
    method Rest(x: Data)
      requires buf.Length == BLOCK && abcd == Absorb(compress, START, msg) && |msg| % BLOCK == 0 && |x| < BLOCK
      modifies this`msg, buf
      ensures msg == old(msg) + x && abcd == Absorb(compress, START, msg) && buf[..|msg| % BLOCK] == Partial(msg)
    {
      Accumulate(0, x);
      GrowsPartly(compress, START, msg, x);
      ModAdd(|msg|, |x|);
      msg := msg + x;
    }

    /** md5_append, of pieces short enough for offset + nbytes to fit an int. */
    method Append(data: Data, nbytes: int)
      requires Valid() && nbytes <= |data| && nbytes < 0x8000_0000 - BLOCK
      modifies this`lo, this`hi, this`abcd, this`msg, buf
      ensures Valid() && msg == old(msg) + if nbytes <= 0 then [] else data[..nbytes]
    {
      if nbytes <= 0 { return; }
      OffsetIs(lo, hi, |msg|);
      var offset := lo / 8 % BLOCK;
      CountUp(nbytes);
      Feed(data[..nbytes], offset);
    }

    /** The data of one call: the block under way, whole blocks, and the block begun. */
    method Feed(d: Data, offset: nat)
      requires buf.Length == BLOCK && abcd == Absorb(compress, START, msg)
      requires offset == |msg| % BLOCK && buf[..offset] == Partial(msg)
      modifies this`abcd, this`msg, buf
      ensures msg == old(msg) + d && abcd == Absorb(compress, START, msg) && buf[..|msg| % BLOCK] == Partial(msg)
    {
      if offset == 0 {
        Blocks(d);
      } else {
        var copied := Top(d, offset);
        assert d[..copied] + d[copied..] == d;
        if offset + |d| < BLOCK { return; }
        Blocks(d[copied..]);
      }
    }

    /** The padding and the length: the state has taken exactly the blocks of the padded message. */
    method Complete()
      requires Valid()
      modifies this`lo, this`hi, this`abcd, this`msg, buf
      ensures Valid() && msg == Padded(old(msg))
    {
      var length := new Byte[8];
      PutWords([lo, hi], length);
      LengthBytes(lo, hi, |msg|);
      PadIs(lo, hi, |msg|);
      var n := (55 - lo / 8) % BLOCK + 1;
      var pad := Pad();
      PadPrefix(pad, n);
      Append(pad, n);
      Append(length[..], 8);
      assert length[..][..8] == length[..];
    }

    /** md5_finish: the digest is that of the padded message. */
    method Finish(digest: array<Byte>)
      requires Valid() && digest.Length == 16 && digest != buf
      modifies this`lo, this`hi, this`abcd, this`msg, buf, digest
      ensures Valid() && msg == Padded(old(msg)) && digest[..] == Digest(Absorb(compress, START, Padded(old(msg))))
    {
      Complete();
      PutWords(WordsOf(abcd), digest);
    }
  }

  /** A message in any pieces has the digest of the one-shot padded message. */
  method Hash(compress: (Chain, Data) -> Chain, pieces: seq<Data>, digest: array<Byte>)
    requires digest.Length == 16 && forall p :: p in pieces ==> |p| < 0x8000_0000 - BLOCK
    modifies digest
    ensures digest[..] == Digest(Absorb(compress, START, Padded(Concat(pieces))))
  {
    var state := new State(compress);
    var i := 0;
    while i < |pieces|
      invariant 0 <= i <= |pieces| && fresh(state) && fresh(state.buf) && state.Valid()
      invariant state.compress == compress && state.msg == Concat(pieces[..i])
    {
      state.Append(pieces[i], |pieces[i]|);
      assert pieces[..i + 1][..i] == pieces[..i];
      assert pieces[i][..|pieces[i]|] == pieces[i];
      i := i + 1;
    }
    assert pieces[..i] == pieces;
    state.Finish(digest);
  }

  lemma LengthBytes(lo: nat, hi: nat, n: nat)
    requires Counts(lo, hi, n)
    ensures Spread([lo, hi]) == BitLength(n)
  {
    var bits := 8 * n % (WORD * WORD);
    assert bits % WORD == lo && bits / WORD == hi;
    assert [lo, hi][1..] == [hi] && [hi][1..] == [];
  }

  lemma PadIs(lo: nat, hi: nat, n: nat)
    requires Counts(lo, hi, n)
    ensures (55 - lo / 8) % BLOCK + 1 == PadLength(n)
  {
    OffsetIs(lo, hi, n);
    SameRest(lo / 8, n);
  }

  lemma SameRest(a: nat, b: nat)
    requires a % BLOCK == b % BLOCK
    ensures (55 - a) % BLOCK == (55 - b) % BLOCK
  {
    var p, q := a / BLOCK, b / BLOCK;
    assert 55 - a == 55 - b + BLOCK * (q - p);
  }
}
