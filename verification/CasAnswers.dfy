/** What the store commands and increments answer and leave in the cache, from the command and the cache it meets alone. */
module CasAnswers {
  import opened Base
  import opened ChunkData
  import opened Cas

  // ---------------------------------------------------------------- store commands

  /** There is an item under the key, and its time is not past. */
  predicate There(c: Cache, k: Key, gone: bool) {
    !gone && k in c.store
  }

  predicate Joins(comm: Comm) {
    comm in {Append, Prepend, AppendViv, PrependViv}
  }

  /** The client sent no CAS id, or the one the item has. */
  predicate TokenFits(c: Cache, cmd: Command)
    requires cmd.key in c.store
  {
    cmd.token == 0 || cmd.token == c.store[cmd.key].cas
  }

  /** For each command exactly when it is STORED, and what the others are told. */
  lemma StoreAnswer(c: Cache, cmd: Command, e: Env)
    requires ValuesOk(c) && |cmd.value| >= 2
    ensures var there := There(c, cmd.key, e.gone);
            StoreItem(c, cmd, e).1 == WasStored <==>
              match cmd.comm
              case Set => true
              case Add => !there
              case Replace => there
              case CompareAndSwap =>
                there && cmd.token != 0 && (TokenFits(c, cmd) || (e.stale && cmd.token < c.store[cmd.key].cas))
              case Append => there && TokenFits(c, cmd) && e.room
              case Prepend => there && TokenFits(c, cmd) && e.room
              case AppendViv => !there || (TokenFits(c, cmd) && e.room)
              case PrependViv => !there || (TokenFits(c, cmd) && e.room)
    ensures StoreItem(c, cmd, e).1 == NotFound <==> cmd.comm == CompareAndSwap && !There(c, cmd.key, e.gone)
    ensures StoreItem(c, cmd, e).1 == Exists <==>
              && There(c, cmd.key, e.gone)
              && if cmd.comm == CompareAndSwap then StoreItem(c, cmd, e).1 != WasStored
                 else Joins(cmd.comm) && !TokenFits(c, cmd)
  {
  }

  /** The bytes a STORED command leaves under its key, and the new id they have. */
  lemma StoredValue(c: Cache, cmd: Command, e: Env)
    requires ValuesOk(c) && |cmd.value| >= 2 && StoreItem(c, cmd, e).1 == WasStored
    ensures var d := StoreItem(c, cmd, e).0;
            && cmd.key in d.store && d.store[cmd.key].cas == d.casId == c.casId + 1 && d.store[cmd.key].chunked == cmd.chunked
            && var v := d.store[cmd.key].value;
            if There(c, cmd.key, e.gone) && Joins(cmd.comm) then
              var prior := c.store[cmd.key].value;
              if cmd.comm in {Append, AppendViv} then v == prior[..|prior| - 2] + cmd.value
              else v == cmd.value[..|cmd.value| - 2] + prior
            else v == cmd.value
  {
  }

  /** Any other answer leaves the cache as it was, but for an item whose time is past, which is gone. */
  lemma RefusedLeaves(c: Cache, cmd: Command, e: Env)
    requires ValuesOk(c) && |cmd.value| >= 2 && StoreItem(c, cmd, e).1 != WasStored
    ensures var d := StoreItem(c, cmd, e).0;
            d.casId == c.casId && d.store == if e.gone then c.store - {cmd.key} else c.store
  {
  }

  // ---------------------------------------------------------------- numbers as text

  /** The number that a string of decimal digits stands for. */
  function Decimal(d: Data): int {
    if d == [] then 0 else 10 * Decimal(d[..|d| - 1]) - 48 + d[|d| - 1]
  }

  /** Decimal digits, and no more of them than needed. */
  predicate IsDecimal(d: Data) {
    && d != [] && (forall i :: 0 <= i < |d| ==> 48 <= d[i] <= 57)
    && (d[0] == 48 ==> |d| == 1)
  }

  function Power10(n: nat): nat {
    if n == 0 then 1 else 10 * Power10(n - 1)
  }

  lemma {:induction false} DigitsAreDecimal(n: nat)
    ensures IsDecimal(Digits(n)) && Decimal(Digits(n)) == n && (n > 0 ==> Digits(n)[0] != 48)
    decreases n
  {
    if n < 10 {
      assert Digits(n)[..0] == [];
    } else {
      DigitsAreDecimal(n / 10);
      var front := Digits(n / 10);
      assert (front + [n % 10 + 48])[..|front|] == front;
    }
  }

  /** A number fits into n digits exactly when it is below that power of ten. */
  lemma {:induction false} DigitsFit(v: nat, n: nat)
    requires n > 0
    ensures |Digits(v)| <= n <==> v < Power10(n)
    decreases n
  {
    assert Power10(n) == 10 * Power10(n - 1);
    if v >= 10 {
      if n > 1 { DigitsFit(v / 10, n - 1); }
    } else {
      PowerPositive(n - 1);
    }
  }

  lemma {:induction false} PowerPositive(n: nat)
    ensures Power10(n) >= 1
  {
    if n > 0 { PowerPositive(n - 1); }
  }

  lemma {:induction false} SpacesAre(n: nat)
    ensures forall i :: 0 <= i < n ==> Spaces(n)[i] == 32
  {
    if n > 0 { SpacesAre(n - 1); }
  }

  /** `t` is the number v in decimal, then spaces, then these two bytes. */
  predicate ShowsNumber(t: Data, v: nat, digits: Data, end: Data) {
    && IsDecimal(digits) && Decimal(digits) == v
    && |t| >= |digits| + 2 && t[..|digits|] == digits && t[|t| - 2..] == end
    && forall i :: |digits| <= i < |t| - 2 ==> t[i] == 32
  }

  lemma PaddedShows(v: nat, n: nat, end: Data)
    requires |end| == 2
    ensures ShowsNumber(Digits(v) + Spaces(n) + end, v, Digits(v), end)
  {
    DigitsAreDecimal(v);
    SpacesAre(n);
    var d, t := Digits(v), Digits(v) + Spaces(n) + end;
    assert t[..|d|] == d && t[|t| - 2..] == end;
    forall i | |d| <= i < |t| - 2 ensures t[i] == 32 { assert t[i] == Spaces(n)[i - |d|]; }
  }

  // ---------------------------------------------------------------- increments

  /** 64-bit arithmetic: increments wrap around, decrements stop at zero. `delta` is taken modulo 2^64, as the code does. */
  ghost predicate DeltaOf(incr: bool, delta: int, n: nat, v: nat) {
    var amount := delta % TWO_64;
    if incr then v == (n + delta) % TWO_64
    else v <= n && (v + amount == n || (v == 0 && amount >= n))
  }

  /** The item found holds a number: it is flat, not empty, and safe_strtoull takes it. */
  predicate Numeric(c: Cache, parse: Parser, k: Key)
    requires k in c.store
  {
    |c.store[k].value| > 2 && !c.store[k].chunked && parse(c.store[k].value).Some?
  }

  /** When an increment or a decrement is refused, and how. */
  lemma DeltaRefused(c: Cache, parse: Parser, d: Delta)
    requires ValuesOk(c)
    ensures var r := AddDelta(c, parse, d).1; var there := There(c, d.key, d.gone);
            && (r == DeltaNotFound <==> !there)
            && (r == CasMismatch <==>
                  there && d.token != 0 && d.token != c.store[d.key].cas && |c.store[d.key].value| > 2 && !c.store[d.key].chunked)
            && (r == NonNumeric <==> there && !Numeric(c, parse, d.key) && r != CasMismatch)
    ensures !AddDelta(c, parse, d).1.DeltaOk? ==>
              var e := AddDelta(c, parse, d).0; e.casId == c.casId && e.store == if d.gone then c.store - {d.key} else c.store
  {
  }

  /**
   * An increment or decrement that is carried out: the number it answers with, and the text it leaves. The text takes the
   * place of the old one, padded with spaces, if nobody else holds the item and the number fits; otherwise it is a new item.
   */
  lemma DeltaAnswer(c: Cache, parse: Parser, d: Delta) returns (digits: Data)
    requires ValuesOk(c) && There(c, d.key, d.gone) && Numeric(c, parse, d.key)
    requires d.token == 0 || d.token == c.store[d.key].cas
    ensures var prior := c.store[d.key].value; var (e, r) := AddDelta(c, parse, d);
            && (r.DeltaOk? || r == OutOfMemory)
            && (r.DeltaOk? ==>
                  && DeltaOf(d.incr, d.delta, parse(prior).value, r.value)
                  && r.cas == e.casId == c.casId + 1 && d.key in e.store && e.store[d.key].cas == r.cas && !e.store[d.key].chunked
                  && var t := e.store[d.key].value;
                  if d.alone && r.value < Power10(|prior| - 2) then
                    |t| == |prior| && ShowsNumber(t, r.value, digits, prior[|prior| - 2..])
                  else d.room && ShowsNumber(t, r.value, digits, [13, 10]) && |t| == |digits| + 2)
            && (r == OutOfMemory ==> !d.room)
            && (d.room ==> r.DeltaOk?)
  {
    var prior := c.store[d.key].value;
    var v := Shifted(d, parse(prior).value);
    ShiftedIs(d, parse(prior).value);
    digits := Digits(v);
    DigitsFit(v, |prior| - 2);
    if |digits| + 2 <= |prior| && d.alone {
      PaddedShows(v, |prior| - |digits| - 2, prior[|prior| - 2..]);
    } else {
      PaddedShows(v, 0, [13, 10]);
      assert digits + Spaces(0) == digits;
    }
  }

  lemma ShiftedIs(d: Delta, n: nat)
    ensures DeltaOf(d.incr, d.delta, n, Shifted(d, n))
  {
    var amount := d.delta % TWO_64;
    var q := d.delta / TWO_64;
    assert n + d.delta == n + amount + TWO_64 * q;
    ModShift(n + amount, q);
  }

  lemma ModShift(a: int, q: int)
    ensures (a + TWO_64 * q) % TWO_64 == a % TWO_64
  {
    var m, k := a % TWO_64, a / TWO_64;
    assert a + TWO_64 * q == TWO_64 * (k + q) + m;
    ModUnique(a + TWO_64 * q, k + q, m);
  }

  lemma ModUnique(a: int, k: int, m: int)
    requires a == TWO_64 * k + m && 0 <= m < TWO_64
    ensures a % TWO_64 == m
  {
  }

  /** A decrement takes back an increment that did not wrap around. */
  lemma DecrUndoesIncr(delta: int, n: nat, v: nat, w: nat)
    requires DeltaOf(true, delta, n, v) && DeltaOf(false, delta, v, w) && 0 <= delta && n + delta < TWO_64
    ensures w == n
  {
  }

  /** A value is a whole line. */
  ghost predicate EndsWithCrlf(v: Data) {
    |v| >= 2 && v[|v| - 2..] == [13, 10]
  }

  lemma SameDigits(t: Data, v: nat, w: nat, c: Data, d: Data, end: Data)
    requires ShowsNumber(t, v, c, end) && ShowsNumber(t, w, d, end)
    ensures |c| <= |d|
  {
    var n := |d|;
    if n < |t| - 2 { assert t[n] == 32; }
    assert forall i :: 0 <= i < |c| ==> t[i] == c[i];
  }

  /** No text shows two numbers. */
  lemma OneReading(t: Data, v: nat, w: nat, c: Data, d: Data, end: Data)
    requires ShowsNumber(t, v, c, end) && ShowsNumber(t, w, d, end)
    ensures v == w
  {
    SameDigits(t, v, w, c, d, end);
    SameDigits(t, w, v, d, c, end);
  }

  /** The parser reads the lines that increments write. */
  ghost predicate ReadsNumbers(parse: Parser) {
    forall t, v: nat, digits {:trigger ShowsNumber(t, v, digits, [13, 10])} ::
      ShowsNumber(t, v, digits, [13, 10]) && v < TWO_64 ==> parse(t) == Some(v)
  }

  /** On the cache: an increment and the decrement by the same amount give the number back, whatever room its text takes. */
  lemma ThereAndBack(c: Cache, parse: Parser, up: Delta, down: Delta)
    requires ValuesOk(c) && ReadsNumbers(parse) && There(c, up.key, up.gone) && Numeric(c, parse, up.key)
    requires EndsWithCrlf(c.store[up.key].value)
    requires up.incr && !down.incr && up.key == down.key && up.delta == down.delta && !down.gone && up.room && down.room
    requires up.token == 0 || up.token == c.store[up.key].cas
    requires 0 <= up.delta && parse(c.store[up.key].value).value + up.delta < TWO_64
    requires var e := AddDelta(c, parse, up).0; ValuesOk(e) && (down.token == 0 || down.token == e.casId)
    ensures var e := AddDelta(c, parse, up).0; var (f, r) := AddDelta(e, parse, down);
            r.DeltaOk? && r.value == parse(c.store[up.key].value).value && up.key in f.store && parse(f.store[up.key].value) == Some(r.value)
  {
    var n := parse(c.store[up.key].value).value;
    var digits := DeltaAnswer(c, parse, up);
    var (e, r) := AddDelta(c, parse, up);
    assert parse(e.store[up.key].value) == Some(r.value);
    var more := DeltaAnswer(e, parse, down);
    var (f, q) := AddDelta(e, parse, down);
    DecrUndoesIncr(up.delta, n, r.value, q.value);
    assert parse(f.store[up.key].value) == Some(q.value);
  }

  // ---------------------------------------------------------------- runs

  ghost predicate AllLines(c: Cache) {
    forall k :: k in c.store ==> EndsWithCrlf(c.store[k].value)
  }

  lemma LineEnd(a: Data, b: Data)
    requires EndsWithCrlf(b)
    ensures EndsWithCrlf(a + b)
  {
    assert (a + b)[|a + b| - 2..] == b[|b| - 2..];
  }

  lemma StoredLine(c: Cache, cmd: Command, e: Env)
    requires ValuesOk(c) && AllLines(c) && EndsWithCrlf(cmd.value) && StoreItem(c, cmd, e).1 == WasStored
    ensures cmd.key in StoreItem(c, cmd, e).0.store && EndsWithCrlf(StoreItem(c, cmd, e).0.store[cmd.key].value)
  {
    StoredValue(c, cmd, e);
    if There(c, cmd.key, e.gone) {
      var prior := c.store[cmd.key].value;
      LineEnd(prior[..|prior| - 2], cmd.value);
      LineEnd(cmd.value[..|cmd.value| - 2], prior);
    }
  }

  lemma StoreKeepsLines(c: Cache, cmd: Command, e: Env)
    requires ValuesOk(c) && AllLines(c) && EndsWithCrlf(cmd.value)
    ensures AllLines(StoreItem(c, cmd, e).0)
  {
    StoreMoves(c, cmd, e);
    if StoreItem(c, cmd, e).1 == WasStored { StoredLine(c, cmd, e); } else { RefusedLeaves(c, cmd, e); }
    OthersKeepLines(c, StoreItem(c, cmd, e).0, cmd.key);
  }

  lemma OthersKeepLines(c: Cache, d: Cache, x: Key)
    requires AllLines(c) && OnlyKey(c, d, x) && (x in d.store ==> EndsWithCrlf(d.store[x].value))
    ensures AllLines(d)
  {
  }

  lemma DeltaKeepsLines(c: Cache, parse: Parser, d: Delta)
    requires ValuesOk(c) && AllLines(c)
    ensures AllLines(AddDelta(c, parse, d).0)
  {
    DeltaMoves(c, parse, d);
    DeltaRefused(c, parse, d);
    if AddDelta(c, parse, d).1.DeltaOk? { var digits := DeltaAnswer(c, parse, d); }
  }

  /** Commands that carry whole lines leave whole lines. */
  lemma {:induction false} RunKeepsLines(parse: Parser, states: seq<Cache>, ops: seq<Op>, n: nat)
    requires IsRun(parse, states, ops) && n <= |ops| && AllLines(states[0])
    requires forall i :: 0 <= i < |ops| && ops[i].DoStore? ==> EndsWithCrlf(ops[i].cmd.value)
    ensures AllLines(states[n])
  {
    if n > 0 {
      RunKeepsLines(parse, states, ops, n - 1);
      RunKeepsValues(parse, states, ops, n - 1);
      match ops[n - 1]
      case DoStore(cmd, e) => StoreKeepsLines(states[n - 1], cmd, e);
      case DoDelta(d) => DeltaKeepsLines(states[n - 1], parse, d);
      case DoRemove(_) =>
    }
  }

  /** What a key holds stays until the next command for that key. */
  lemma {:induction false} KeptUntilNext(parse: Parser, states: seq<Cache>, ops: seq<Op>, k: Key, m: nat, n: nat)
    requires IsRun(parse, states, ops) && m <= n <= |ops| && forall i :: m <= i < n ==> KeyOf(ops[i]) != k
    ensures k in states[n].store <==> k in states[m].store
    ensures k in states[m].store ==> states[n].store[k] == states[m].store[k]
    decreases n - m
  {
    if m < n {
      KeptUntilNext(parse, states, ops, k, m, n - 1);
      RunKeepsValues(parse, states, ops, n - 1);
      NextMoves(states[n - 1], parse, ops[n - 1]);
    }
  }

  /** In every run: what the last STORED command for a key wrote is what the key holds. */
  lemma LastStoredIsHeld(parse: Parser, states: seq<Cache>, ops: seq<Op>, m: nat, n: nat)
    requires IsRun(parse, states, ops) && m < n <= |ops| && ops[m].DoStore? && !Joins(ops[m].cmd.comm)
    requires ValuesOk(states[m]) && Enabled(ops[m]) && StoreItem(states[m], ops[m].cmd, ops[m].e).1 == WasStored
    requires forall i :: m < i < n ==> KeyOf(ops[i]) != ops[m].cmd.key
    ensures var k := ops[m].cmd.key; k in states[n].store && states[n].store[k].value == ops[m].cmd.value
  {
    StoredValue(states[m], ops[m].cmd, ops[m].e);
    KeptUntilNext(parse, states, ops, ops[m].cmd.key, m + 1, n);
  }

  /** In every run: a key that was removed is absent until the next command for it. */
  lemma RemovedIsAbsent(parse: Parser, states: seq<Cache>, ops: seq<Op>, m: nat, n: nat)
    requires IsRun(parse, states, ops) && m < n <= |ops| && ops[m].DoRemove?
    requires forall i :: m < i < n ==> KeyOf(ops[i]) != ops[m].k
    ensures ops[m].k !in states[n].store
  {
    RunKeepsValues(parse, states, ops, m);
    KeptUntilNext(parse, states, ops, ops[m].k, m + 1, n);
  }
}
