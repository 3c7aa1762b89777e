/** The software CRC-32C: tables and the slicing-by-eight loop (crc32c_init_sw_little and crc32c_sw_little in crc32c.c). */
module CrcSoftware {
  import opened Base
  import opened CrcAlgebra
  import opened CrcBits
  import opened CrcSlices

  // ---------------------------------------------------------------- tables

  /** Entry n of table k is byte n with k + 1 zero bytes after it. */
  ghost predicate EntryOk(f: Word -> Word, t: seq<Word>, k: nat, n: nat) {
    n < 256 && n < |t| ==> t[n] == Iter(f, n as bv32, k + 1)
  }

  ghost predicate TableOk(f: Word -> Word, t: seq<Word>, k: nat) {
    |t| == 256 && forall n: nat :: EntryOk(f, t, k, n)
  }

  lemma Lookup(f: Word -> Word, t: seq<Word>, k: nat, x: Word)
    requires TableOk(f, t, k) && x <= 0xff
    ensures t[Index(x)] == Iter(f, x, k + 1)
  {
    IndexBack(x);
    assert EntryOk(f, t, k, Index(x));
  }

  function Low(x: Word): (y: Word)
    ensures y <= 0xff && y == Low8(x)
  {
    x & 0xff
  }

  /** One byte by table. */
  function ByTable(t: seq<Word>, x: Word): Word
    requires |t| == 256
  {
    Xor(t[Index(Low(x))], Down8(x))
  }

  lemma ByTableIs(f: Word -> Word, t: seq<Word>, x: Word)
    requires ByteOp(f) && TableOk(f, t, 0)
    ensures ByTable(t, x) == f(x)
  {
    Lookup(f, t, 0, Low(x));
    IterOne(f, Low8(x));
  }

  lemma IterOne(f: Word -> Word, x: Word)
    ensures Iter(f, x, 1) == f(x)
  {
  }

  /** The first table: eight steps for each byte. */
  method InitFirst(ghost f: Word -> Word) returns (t: seq<Word>)
    requires ByteStep(f)
    ensures TableOk(f, t, 0)
  {
    t := [];
    var n := 0;
    while n < 256
      invariant 0 <= n <= 256 && |t| == n
      invariant forall i: nat :: EntryOk(f, t, 0, i)
    {
      var crc := n as bv32;
      var i := 0;
      ghost var start := crc;
      while i < 8
        invariant 0 <= i <= 8 && crc == Iter(Step, start, i)
      {
        IterLast(Step, start, i);
        crc := Step(crc);
        i := i + 1;
      }
      Step8IsIter(start);
      assert Agrees(f, start);
      IterOne(f, start);
      ghost var before := t;
      t := t + [crc];
      forall i: nat ensures EntryOk(f, t, 0, i) { assert EntryOk(f, before, 0, i); }
      n := n + 1;
    }
  }

  /** The next table from the first and the one before: one more zero byte for each entry. */
  method InitNext(t0: seq<Word>, prior: seq<Word>, ghost f: Word -> Word, ghost k: nat) returns (t: seq<Word>)
    requires ByteOp(f) && TableOk(f, t0, 0) && TableOk(f, prior, k)
    ensures TableOk(f, t, k + 1)
  {
    t := [];
    var n := 0;
    ghost var next := k + 1;
    while n < 256
      invariant 0 <= n <= 256 && |t| == n
      invariant forall i: nat :: EntryOk(f, t, next, i)
    {
      assert EntryOk(f, prior, k, n);
      ByTableIs(f, t0, prior[n]);
      IterLast(f, n as bv32, k + 1);
      ghost var before := t;
      t := t + [ByTable(t0, prior[n])];
      forall i: nat ensures EntryOk(f, t, next, i) { assert EntryOk(f, before, next, i); }
      n := n + 1;
    }
  }

  ghost predicate TablesOk(f: Word -> Word, t: seq<seq<Word>>) {
    |t| == 8 && forall k: nat :: k < 8 ==> TableOk(f, t[k], k)
  }

  method InitTables(ghost f: Word -> Word) returns (t: seq<seq<Word>>)
    requires ByteStep(f)
    ensures TablesOk(f, t)
  {
    ByteStepIsByteOp(f);
    var t0 := InitFirst(f);
    t := [t0];
    var k := 1;
    while k < 8
      invariant 1 <= k <= 8 && |t| == k && t[0] == t0
      invariant forall i: nat :: i < k ==> TableOk(f, t[i], i)
    {
      var next := InitNext(t0, t[k - 1], f, k - 1);
      t := t + [next];
      k := k + 1;
    }
  }

  // ---------------------------------------------------------------- eight bytes at a time

  /** Eight bytes read as a little-endian 64-bit word. */
  function Word64(b0: bv8, b1: bv8, b2: bv8, b3: bv8, b4: bv8, b5: bv8, b6: bv8, b7: bv8): bv64 {
    (b0 as bv64) | ((b1 as bv64) << 8) | ((b2 as bv64) << 16) | ((b3 as bv64) << 24)
    | ((b4 as bv64) << 32) | ((b5 as bv64) << 40) | ((b6 as bv64) << 48) | ((b7 as bv64) << 56)
  }

  function At0(w: bv64): (x: Word) ensures x <= 0xff { (w & 0xff) as bv32 }
  function At8(w: bv64): (x: Word) ensures x <= 0xff { ((w >> 8) & 0xff) as bv32 }
  function At16(w: bv64): (x: Word) ensures x <= 0xff { ((w >> 16) & 0xff) as bv32 }
  function At24(w: bv64): (x: Word) ensures x <= 0xff { ((w >> 24) & 0xff) as bv32 }
  function At32(w: bv64): (x: Word) ensures x <= 0xff { ((w >> 32) & 0xff) as bv32 }
  function At40(w: bv64): (x: Word) ensures x <= 0xff { ((w >> 40) & 0xff) as bv32 }
  function At48(w: bv64): (x: Word) ensures x <= 0xff { ((w >> 48) & 0xff) as bv32 }
  function At56(w: bv64): (x: Word) ensures x <= 0xff { (w >> 56) as bv32 }

  /** The bytes of the word with the register added to its low half. */
  lemma BytesOfWord(c: Word, b0: bv8, b1: bv8, b2: bv8, b3: bv8, b4: bv8, b5: bv8, b6: bv8, b7: bv8)
    ensures var w := (c as bv64) ^ Word64(b0, b1, b2, b3, b4, b5, b6, b7);
            && At0(w) == Xor(Byte0(c), Value(b0)) && At8(w) == Xor(Byte1(c), Value(b1))
            && At16(w) == Xor(Byte2(c), Value(b2)) && At24(w) == Xor(Byte3(c), Value(b3))
            && At32(w) == Value(b4) && At40(w) == Value(b5) && At48(w) == Value(b6) && At56(w) == Value(b7)
  {
  }

  function Lookups(t: seq<seq<Word>>, w: bv64): Word
    requires |t| == 8 && forall k: nat :: k < 8 ==> |t[k]| == 256
  {
    Xor(t[7][Index(At0(w))], Xor(t[6][Index(At8(w))], Xor(t[5][Index(At16(w))], Xor(t[4][Index(At24(w))],
    Xor(t[3][Index(At32(w))], Xor(t[2][Index(At40(w))], Xor(t[1][Index(At48(w))], t[0][Index(At56(w))])))))))
  }

  lemma LookupsAre(f: Word -> Word, t: seq<seq<Word>>, w: bv64)
    requires TablesOk(f, t)
    ensures Lookups(t, w)
         == Xor(Iter(f, At0(w), 8), Xor(Iter(f, At8(w), 7), Xor(Iter(f, At16(w), 6), Xor(Iter(f, At24(w), 5),
            Xor(Iter(f, At32(w), 4), Xor(Iter(f, At40(w), 3), Xor(Iter(f, At48(w), 2), Iter(f, At56(w), 1))))))))
  {
    Lookup(f, t[7], 7, At0(w));
    Lookup(f, t[6], 6, At8(w));
    Lookup(f, t[5], 5, At16(w));
    Lookup(f, t[4], 4, At24(w));
    Lookup(f, t[3], 3, At32(w));
    Lookup(f, t[2], 2, At40(w));
    Lookup(f, t[1], 1, At48(w));
    Lookup(f, t[0], 0, At56(w));
  }

  /** One turn of the slicing loop is eight bytes of the message. */
  lemma SliceStep(f: Word -> Word, t: seq<seq<Word>>, c: Word, d: Bytes, w: bv64)
    requires ByteOp(f) && TablesOk(f, t) && |d| == 8
    requires At0(w) == Xor(Byte0(c), Value(d[0])) && At8(w) == Xor(Byte1(c), Value(d[1]))
    requires At16(w) == Xor(Byte2(c), Value(d[2])) && At24(w) == Xor(Byte3(c), Value(d[3]))
    requires At32(w) == Value(d[4]) && At40(w) == Value(d[5]) && At48(w) == Value(d[6]) && At56(w) == Value(d[7])
    ensures Lookups(t, w) == Raw(f, c, d)
  {
    LookupsAre(f, t, w);
    EightByTables(f, c, d);
  }

  /** The register added to the next word of the message. */
  function Mixed(c: Word, d: Bytes): bv64
    requires |d| == 8
  {
    (c as bv64) ^ Word64(d[0], d[1], d[2], d[3], d[4], d[5], d[6], d[7])
  }

  lemma SliceWord(f: Word -> Word, t: seq<seq<Word>>, c: Word, d: Bytes, w: bv64)
    requires ByteOp(f) && TablesOk(f, t) && |d| == 8 && w == Mixed(c, d)
    ensures Lookups(t, w) == Raw(f, c, d)
  {
    BytesOfWord(c, d[0], d[1], d[2], d[3], d[4], d[5], d[6], d[7]);
    SliceStep(f, t, c, d, w);
  }

  lemma ByteStepTaken(f: Word -> Word, t: seq<Word>, c: Word, d: Bytes, i: nat)
    requires ByteOp(f) && TableOk(f, t, 0) && i < |d|
    ensures ByTable(t, Xor(Raw(f, c, d[..i]), Value(d[i]))) == Raw(f, c, d[..i + 1])
  {
    ByTableIs(f, t, Xor(Raw(f, c, d[..i]), Value(d[i])));
    RunSingle(f, Xor, Value, Raw(f, c, d[..i]), d[i]);
    assert d[i..i + 1] == [d[i]];
    RawExtend(f, c, d, i, i + 1);
  }

  /** A byte of the message by table, as the loops write it: only the register is shifted. */
  function ByteByTable(t: seq<Word>, c: Word, b: bv8): Word
    requires |t| == 256
  {
    Xor(t[Index(Low(Xor(c, Value(b))))], Down8(c))
  }

  lemma DownOfByte(c: Word, b: bv8)
    ensures Down8(Xor(c, Value(b))) == Down8(c)
  {
  }

  /** A byte added to the register is shifted out with the low byte. */
  lemma SameByTable(t: seq<Word>, c: Word, b: bv8)
    requires |t| == 256
    ensures ByteByTable(t, c, b) == ByTable(t, Xor(c, Value(b)))
  {
    DownOfByte(c, b);
  }

  method TakeByte(c: Word, buf: Bytes, next: nat, t: seq<Word>, ghost f: Word -> Word, ghost c0: Word) returns (r: Word)
    requires ByteOp(f) && TableOk(f, t, 0) && next < |buf| && c == Raw(f, c0, buf[..next])
    ensures r == Raw(f, c0, buf[..next + 1])
  {
    ByteStepTaken(f, t, c0, buf, next);
    r := ByteByTable(t, c, buf[next]);
    SameByTable(t, c, buf[next]);
  }

  method TakeWord(c: Word, buf: Bytes, next: nat, t: seq<seq<Word>>, ghost f: Word -> Word, ghost c0: Word) returns (r: Word)
    requires ByteOp(f) && TablesOk(f, t) && next + 8 <= |buf| && c == Raw(f, c0, buf[..next])
    ensures r == Raw(f, c0, buf[..next + 8])
  {
    var d := buf[next..next + 8];
    var w := Mixed(c, d);
    SliceWord(f, t, c, d, w);
    RawExtend(f, c0, buf, next, next + 8);
    r := Lookups(t, w);
  }

  /** The bytes up to an eight-byte boundary; `address` is where the buffer starts in memory. */
  method TakeUnaligned(c: Word, buf: Bytes, address: nat, t: seq<seq<Word>>, ghost f: Word -> Word) returns (r: Word, next: nat)
    requires ByteOp(f) && TablesOk(f, t)
    ensures next <= |buf| && r == Raw(f, c, buf[..next]) && (next == |buf| || (address + next) % 8 == 0)
  {
    r, next := c, 0;
    assert buf[..0] == [];
    while next < |buf| && (address + next) % 8 != 0
      invariant next <= |buf| && r == Raw(f, c, buf[..next])
    {
      r := TakeByte(r, buf, next, t[0], f, c);
      next := next + 1;
    }
  }

  method TakeWords(c: Word, buf: Bytes, from: nat, t: seq<seq<Word>>, ghost f: Word -> Word, ghost c0: Word) returns (r: Word, next: nat)
    requires ByteOp(f) && TablesOk(f, t) && from <= |buf| && c == Raw(f, c0, buf[..from])
    ensures next <= |buf| < next + 8 && r == Raw(f, c0, buf[..next])
  {
    r, next := c, from;
    while |buf| - next >= 8
      invariant next <= |buf| && r == Raw(f, c0, buf[..next])
    {
      r := TakeWord(r, buf, next, t, f, c0);
      next := next + 8;
    }
  }

  method TakeRest(c: Word, buf: Bytes, from: nat, t: seq<seq<Word>>, ghost f: Word -> Word, ghost c0: Word) returns (r: Word)
    requires ByteOp(f) && TablesOk(f, t) && from <= |buf| && c == Raw(f, c0, buf[..from])
    ensures r == Raw(f, c0, buf)
  {
    r := c;
    var next := from;
    while next < |buf|
      invariant next <= |buf| && r == Raw(f, c0, buf[..next])
    {
      r := TakeByte(r, buf, next, t[0], f, c0);
      next := next + 1;
    }
    assert buf[..next] == buf;
  }

  /** crc32c_sw_little: bytes up to an eight-byte boundary, then words, then the bytes that are left. */
  method SwLittle(crc: Word, buf: Bytes, address: nat, t: seq<seq<Word>>, ghost f: Word -> Word) returns (r: Word)
    requires ByteStep(f) && TablesOk(f, t)
    ensures r == Crc(f, crc, buf)
  {
    ByteStepIsByteOp(f);
    var c := Not(crc);
    var c1, next := TakeUnaligned(c, buf, address, t, f);
    var c2, rest := TakeWords(c1, buf, next, t, f, c);
    var c3 := TakeRest(c2, buf, rest, t, f, c);
    r := Not(c3);
  }
}

/** The hardware CRC-32C: three streams at once, folded with the zeros tables (crc32c_hw in crc32c.c, x86). */
module CrcHardware {
  import opened Base
  import opened CrcAlgebra
  import opened CrcBits
  import opened CrcSlices
  import opened CrcMatrix

  const LONG := 8192
  const SHORT := 256

  /** The crc32b and crc32q instructions on one and on eight bytes. */
  type Crc32b = (Word, bv8) -> Word
  type Crc32q = (Word, Bytes) -> Word

  ghost predicate ByteAt(op: Crc32b, f: Word -> Word, c: Word, b: bv8) {
    op(c, b) == f(Xor(c, Value(b)))
  }

  ghost predicate QuadAt(op: Crc32q, f: Word -> Word, c: Word, d: Bytes) {
    |d| == 8 ==> op(c, d) == Raw(f, c, d)
  }

  /** What the instructions do. */
  ghost predicate Instructions(b: Crc32b, q: Crc32q, f: Word -> Word) {
    (forall c, x :: ByteAt(b, f, c, x)) && (forall c, d :: QuadAt(q, f, c, d))
  }

  /** There are instructions that do it. */
  lemma InstructionsExist(f: Word -> Word) returns (b: Crc32b, q: Crc32q)
    ensures Instructions(b, q, f)
  {
    b, q := (c, x) => f(Xor(c, Value(x))), (c, d) => Raw(f, c, d);
  }

  // ---------------------------------------------------------------- bytes of zeros are bits of zeros

  lemma EightBits(f: Word -> Word, s: Word -> Word, x: Word)
    requires ByteStep(f) && BitStep(s)
    ensures f(x) == s(s(s(s(s(s(s(s(x))))))))
  {
    assert Agrees(f, x);
    var x1 := s(x); var x2 := s(x1); var x3 := s(x2); var x4 := s(x3);
    var x5 := s(x4); var x6 := s(x5); var x7 := s(x6);
    assert BitAgrees(s, x) && BitAgrees(s, x1) && BitAgrees(s, x2) && BitAgrees(s, x3);
    assert BitAgrees(s, x4) && BitAgrees(s, x5) && BitAgrees(s, x6) && BitAgrees(s, x7);
  }

  lemma IterEight(s: Word -> Word, x: Word, n: nat)
    ensures Iter(s, x, n + 8) == Iter(s, s(s(s(s(s(s(s(s(x)))))))), n)
  {
    var x1 := s(x); var x2 := s(x1); var x3 := s(x2); var x4 := s(x3);
    var x5 := s(x4); var x6 := s(x5); var x7 := s(x6);
    assert Iter(s, x, n + 8) == Iter(s, x2, n + 6);
    assert Iter(s, x2, n + 6) == Iter(s, x4, n + 4);
    assert Iter(s, x4, n + 4) == Iter(s, x6, n + 2);
  }

  lemma {:induction false} ZeroBytes(f: Word -> Word, s: Word -> Word, x: Word, n: nat)
    requires ByteStep(f) && BitStep(s)
    ensures Iter(f, x, n) == Iter(s, x, 8 * n)
    decreases n
  {
    if n > 0 {
      EightBits(f, s, x);
      ZeroBytes(f, s, f(x), n - 1);
      IterEight(s, x, 8 * (n - 1));
    }
  }

  // ---------------------------------------------------------------- three streams

  lemma QuadExtends(q: Crc32q, f: Word -> Word, c: Word, d: Bytes, k: nat, r: Word)
    requires k + 8 <= |d| && r == Raw(f, c, d[..k]) && forall c, x :: QuadAt(q, f, c, x)
    ensures q(r, d[k..k + 8]) == Raw(f, c, d[..k + 8])
  {
    assert QuadAt(q, f, r, d[k..k + 8]);
    RawExtend(f, c, d, k, k + 8);
  }

  /** The inner loop: three blocks of the same length side by side. */
  method ThreeStreams(crc: Word, a: Bytes, b: Bytes, d: Bytes, q: Crc32q, ghost f: Word -> Word, ghost words: nat)
    returns (crc0: Word, crc1: Word, crc2: Word)
    requires |a| == |b| == |d| == 8 * words && words > 0 && forall c, x :: QuadAt(q, f, c, x)
    ensures crc0 == Raw(f, crc, a) && crc1 == Raw(f, 0, b) && crc2 == Raw(f, 0, d)
  {
    crc0, crc1, crc2 := crc, 0, 0;
    var k := 0;
    ghost var i := 0;
    assert a[..0] == [] && b[..0] == [] && d[..0] == [];
    while k < |a|
      invariant 0 <= i <= words && k == 8 * i
      invariant crc0 == Raw(f, crc, a[..k])
      invariant crc1 == Raw(f, 0, b[..k])
      invariant crc2 == Raw(f, 0, d[..k])
      decreases words - i
    {
      QuadExtends(q, f, crc, a, k, crc0);
      QuadExtends(q, f, 0, b, k, crc1);
      QuadExtends(q, f, 0, d, k, crc2);
      crc0, crc1, crc2 := q(crc0, a[k..k + 8]), q(crc1, b[k..k + 8]), q(crc2, d[k..k + 8]);
      k, i := k + 8, i + 1;
    }
    assert a[..k] == a && b[..k] == b && d[..k] == d;
  }

  lemma ShiftBytes(f: Word -> Word, s: Word -> Word, z: seq<seq<Word>>, x: Word, n: nat)
    requires ByteStep(f) && BitStep(s) && ShiftOk(s, 8 * n, z)
    ensures Shift(z, x) == Iter(f, x, n)
  {
    BitStepIsLinear(s);
    ShiftIs(s, 8 * n, z, x);
    ZeroBytes(f, s, x, n);
  }

  lemma FoldedRaw(f: Word -> Word, crc: Word, a: Bytes, b: Bytes, d: Bytes)
    requires ByteOp(f) && |b| == |d|
    ensures Raw(f, crc, a + b + d) == Xor(Iter(f, Xor(Iter(f, Raw(f, crc, a), |b|), Raw(f, 0, b)), |b|), Raw(f, 0, d))
  {
    XorIsGroup();
    Fold(f, Xor, 0, Value, crc, a, b);
    Fold(f, Xor, 0, Value, crc, a + b, d);
  }

  /** The two shifts that put the streams together. */
  lemma Folded(f: Word -> Word, s: Word -> Word, z: seq<seq<Word>>, crc: Word, a: Bytes, b: Bytes, d: Bytes, c0: Word, c1: Word, c2: Word)
    requires ByteStep(f) && BitStep(s) && ShiftOk(s, 8 * |b|, z) && |b| == |d|
    requires c0 == Raw(f, crc, a) && c1 == Raw(f, 0, b) && c2 == Raw(f, 0, d)
    ensures Xor(Shift(z, Xor(Shift(z, c0), c1)), c2) == Raw(f, crc, a + b + d)
  {
    ByteStepIsByteOp(f);
    FoldedRaw(f, crc, a, b, d);
    ShiftBytes(f, s, z, c0, |b|);
    ShiftBytes(f, s, z, Xor(Iter(f, c0, |b|), c1), |b|);
  }

  // ---------------------------------------------------------------- the whole buffer

  lemma ThreeBlocks(d: Bytes, lo: nat, n: nat)
    requires lo + 3 * n <= |d|
    ensures d[lo..lo + n] + d[lo + n..lo + 2 * n] + d[lo + 2 * n..lo + 3 * n] == d[lo..lo + 3 * n]
  {
  }

  /** Sets of three blocks, for as long as there are any. */
  method TakeBlocks(crc: Word, buf: Bytes, from: nat, block: nat, z: seq<seq<Word>>, q: Crc32q,
                    ghost f: Word -> Word, ghost s: Word -> Word, ghost c0: Word) returns (r: Word, next: nat)
    requires ByteStep(f) && BitStep(s) && ShiftOk(s, 8 * block, z) && block > 0 && block % 8 == 0
    requires (forall c, x :: QuadAt(q, f, c, x)) && from <= |buf| && crc == Raw(f, c0, buf[..from])
    ensures from <= next <= |buf| < next + 3 * block && r == Raw(f, c0, buf[..next])
  {
    r, next := crc, from;
    while |buf| - next >= 3 * block
      invariant from <= next <= |buf| && r == Raw(f, c0, buf[..next])
    {
      r := TakeThree(r, buf, next, block, z, q, f, s, c0);
      next := next + 3 * block;
    }
  }

  method TakeThree(crc: Word, buf: Bytes, next: nat, block: nat, z: seq<seq<Word>>, q: Crc32q,
                   ghost f: Word -> Word, ghost s: Word -> Word, ghost c0: Word) returns (r: Word)
    requires ByteStep(f) && BitStep(s) && ShiftOk(s, 8 * block, z) && block > 0 && block % 8 == 0
    requires (forall c, x :: QuadAt(q, f, c, x)) && next + 3 * block <= |buf| && crc == Raw(f, c0, buf[..next])
    ensures r == Raw(f, c0, buf[..next + 3 * block])
  {
    var a, b, d := buf[next..next + block], buf[next + block..next + 2 * block], buf[next + 2 * block..next + 3 * block];
    var x0, x1, x2 := ThreeStreams(crc, a, b, d, q, f, block / 8);
    Folded(f, s, z, crc, a, b, d, x0, x1, x2);
    ThreeBlocks(buf, next, block);
    RawExtend(f, c0, buf, next, next + 3 * block);
    r := Xor(Shift(z, Xor(Shift(z, x0), x1)), x2);
  }

  lemma ByteExtends(b: Crc32b, f: Word -> Word, c: Word, d: Bytes, i: nat, r: Word)
    requires i < |d| && r == Raw(f, c, d[..i]) && forall c, x :: ByteAt(b, f, c, x)
    ensures b(r, d[i]) == Raw(f, c, d[..i + 1])
  {
    assert ByteAt(b, f, r, d[i]);
    RunSingle(f, Xor, Value, r, d[i]);
    assert d[i..i + 1] == [d[i]];
    RawExtend(f, c, d, i, i + 1);
  }

  /** Up to seven leading bytes, to an eight-byte boundary. */
  method TakeLeading(c: Word, buf: Bytes, address: nat, op: Crc32b, ghost f: Word -> Word) returns (r: Word, next: nat)
    requires forall c, x :: ByteAt(op, f, c, x)
    ensures next <= |buf| && r == Raw(f, c, buf[..next]) && (next == |buf| || (address + next) % 8 == 0)
  {
    r, next := c, 0;
    assert buf[..0] == [];
    while next < |buf| && (address + next) % 8 != 0
      invariant next <= |buf| && r == Raw(f, c, buf[..next])
    {
      ByteExtends(op, f, c, buf, next, r);
      r := op(r, buf[next]);
      next := next + 1;
    }
  }

  /** The eight-byte units that are left. */
  method TakeUnits(c: Word, buf: Bytes, from: nat, q: Crc32q, ghost f: Word -> Word, ghost c0: Word) returns (r: Word, next: nat)
    requires (forall c, x :: QuadAt(q, f, c, x)) && from <= |buf| && c == Raw(f, c0, buf[..from])
    ensures next <= |buf| < next + 8 && r == Raw(f, c0, buf[..next])
  {
    r, next := c, from;
    while |buf| - next >= 8
      invariant next <= |buf| && r == Raw(f, c0, buf[..next])
    {
      QuadExtends(q, f, c0, buf, next, r);
      r := q(r, buf[next..next + 8]);
      next := next + 8;
    }
  }

  /** Up to seven trailing bytes. */
  method TakeTrailing(c: Word, buf: Bytes, from: nat, op: Crc32b, ghost f: Word -> Word, ghost c0: Word) returns (r: Word)
    requires (forall c, x :: ByteAt(op, f, c, x)) && from <= |buf| && c == Raw(f, c0, buf[..from])
    ensures r == Raw(f, c0, buf)
  {
    r := c;
    var next := from;
    while next < |buf|
      invariant next <= |buf| && r == Raw(f, c0, buf[..next])
    {
      ByteExtends(op, f, c0, buf, next, r);
      r := op(r, buf[next]);
      next := next + 1;
    }
    assert buf[..next] == buf;
  }

  /** crc32c_init_hw: the tables for the two block sizes, which are powers of two. */
  method InitHw(ghost s: Word -> Word) returns (long: seq<seq<Word>>, short: seq<seq<Word>>)
    requires BitStep(s)
    ensures ShiftOk(s, 8 * LONG, long) && ShiftOk(s, 8 * SHORT, short)
  {
    BlockSizes();
    long := ZerosTables(LONG, s);
    short := ZerosTables(SHORT, s);
  }

  /** Five doublings. */
  lemma Doubled(k: nat, n: nat)
    requires Power2(k) == n
    ensures Power2(k + 5) == 32 * n
  {
    assert Power2(k + 1) == 2 * n;
    assert Power2(k + 2) == 4 * n;
    assert Power2(k + 3) == 8 * n;
    assert Power2(k + 4) == 16 * n;
  }

  lemma BlockSizes()
    ensures HighBit(LONG) == LONG && HighBit(SHORT) == SHORT
  {
    HighBitOfPower(13);
    HighBitOfPower(8);
    Doubled(3, 8);
    Doubled(8, 256);
  }

  /** crc32c_hw. */
  method Hw(crc: Word, buf: Bytes, address: nat, long: seq<seq<Word>>, short: seq<seq<Word>>, op: Crc32b, q: Crc32q,
            ghost f: Word -> Word, ghost s: Word -> Word) returns (r: Word)
    requires ByteStep(f) && BitStep(s) && Instructions(op, q, f)
    requires ShiftOk(s, 8 * LONG, long) && ShiftOk(s, 8 * SHORT, short)
    ensures r == Crc(f, crc, buf)
  {
    var c := Not(crc);
    var x0, n0 := TakeLeading(c, buf, address, op, f);
    var x1, n1 := TakeBlocks(x0, buf, n0, LONG, long, q, f, s, c);
    var x2, n2 := TakeBlocks(x1, buf, n1, SHORT, short, q, f, s, c);
    var x3, n3 := TakeUnits(x2, buf, n2, q, f, c);
    var x4 := TakeTrailing(x3, buf, n3, op, f, c);
    r := Not(x4);
  }
}
