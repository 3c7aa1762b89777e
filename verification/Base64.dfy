/** Base64 encoding and decoding (base64.c; section 5.2 of RFC 1341, section 4 of RFC 4648). */
module Base64 {
  import opened Base

  type Data = seq<Byte>
  type Sextet = x: int | 0 <= x < 64

  const PAD: Byte := 61
  const INVALID := 128

  /** The encoding table: letters, small letters, digits, plus and slash. */
  function Letter(v: Sextet): Byte {
    if v < 26 then 65 + v else if v < 52 then 97 + (v - 26) else if v < 62 then 48 + (v - 52) else if v == 62 then 43 else 47
  }

  /** The decoding table: the padding character stands for zero, anything else outside the alphabet is invalid. */
  function Value(c: Byte): (v: int)
    ensures 0 <= v < 64 || v == INVALID
  {
    if 65 <= c <= 90 then c - 65 else if 97 <= c <= 122 then c - 97 + 26 else if 48 <= c <= 57 then c - 48 + 52
    else if c == 43 then 62 else if c == 47 then 63 else if c == PAD then 0 else INVALID
  }

  lemma LetterValue(v: Sextet)
    ensures Value(Letter(v)) == v && Letter(v) != PAD
  {
  }

  predicate Valid(c: Byte) { Value(c) != INVALID }

  // ---------------------------------------------------------------- three bytes and four letters

  function Quad(a: Byte, b: Byte, c: Byte): Data {
    [Letter(a / 4), Letter(a % 4 * 16 + b / 16), Letter(b % 16 * 4 + c / 64), Letter(c % 64)]
  }

  /** The last one or two bytes, padded. */
  function LastQuad(s: Data): Data
    requires |s| == 1 || |s| == 2
  {
    if |s| == 1 then [Letter(s[0] / 4), Letter(s[0] % 4 * 16), PAD, PAD]
    else [Letter(s[0] / 4), Letter(s[0] % 4 * 16 + s[1] / 16), Letter(s[1] % 16 * 4), PAD]
  }

  function Encoding(s: Data): Data {
    if s == [] then []
    else if |s| < 3 then LastQuad(s)
    else Quad(s[0], s[1], s[2]) + Encoding(s[3..])
  }

  /** Three bytes from four table values, in 8-bit arithmetic. */
  function Triple(v0: Sextet, v1: Sextet, v2: Sextet, v3: Sextet): (d: Data)
    ensures |d| == 3
  {
    [v0 * 4 % 256 + v1 / 16, v1 * 16 % 256 + v2 / 4, v2 * 64 % 256 + v3]
  }

  function Pads(e: Data): (n: nat)
    ensures n <= |e|
  {
    if e == [] then 0 else Pads(e[..|e| - 1]) + if e[|e| - 1] == PAD then 1 else 0
  }

  predicate QuadOk(e: Data) {
    |e| == 4 && Valid(e[0]) && Valid(e[1]) && Valid(e[2]) && Valid(e[3])
  }

  function Bytes(e: Data): (d: Data)
    requires QuadOk(e)
    ensures |d| == 3
  {
    Triple(Value(e[0]), Value(e[1]), Value(e[2]), Value(e[3]))
  }

  ghost predicate AllValid(e: Data) {
    forall i :: 0 <= i < |e| ==> Valid(e[i])
  }

  /** What a string over the alphabet decodes to; a block with padding is the last one looked at. */
  ghost function Decoding(e: Data): Option<Data>
    requires AllValid(e)
  {
    if |e| < 4 then Some([])
    else
      var q, p := e[..4], Pads(e[..4]);
      if p > 2 then None
      else if p > 0 then Some(Bytes(q)[..3 - p])
      else
        var rest := Decoding(e[4..]);
        if rest.None? then None else Some(Bytes(q) + rest.value)
  }

  // ---------------------------------------------------------------- the round trip

  function IsPad(c: Byte): nat { if c == PAD then 1 else 0 }

  lemma PadsOfFour(a: Byte, b: Byte, c: Byte, d: Byte)
    ensures Pads([a, b, c, d]) == IsPad(a) + IsPad(b) + IsPad(c) + IsPad(d)
  {
    assert [a, b, c, d][..3] == [a, b, c] && [a, b, c][..2] == [a, b] && [a, b][..1] == [a] && [a][..0] == [];
    assert Pads([a]) == IsPad(a);
    assert Pads([a, b]) == IsPad(a) + IsPad(b);
    assert Pads([a, b, c]) == IsPad(a) + IsPad(b) + IsPad(c);
  }

  lemma FirstBack(a: Byte, b: Byte)
    ensures a / 4 * 4 % 256 + (a % 4 * 16 + b / 16) / 16 == a
  {
  }

  lemma SecondBack(a: Byte, b: Byte, c: Byte)
    ensures (a % 4 * 16 + b / 16) * 16 % 256 + (b % 16 * 4 + c / 64) / 4 == b
  {
    assert (a % 4 * 16 + b / 16) * 16 == a % 4 * 256 + b / 16 * 16;
  }

  lemma ThirdBack(b: Byte, c: Byte)
    ensures (b % 16 * 4 + c / 64) * 64 % 256 + c % 64 == c
  {
    assert (b % 16 * 4 + c / 64) * 64 == b % 16 * 256 + c / 64 * 64;
  }

  lemma QuadBack(a: Byte, b: Byte, c: Byte)
    ensures QuadOk(Quad(a, b, c)) && Pads(Quad(a, b, c)) == 0 && Bytes(Quad(a, b, c)) == [a, b, c]
  {
    LetterValue(a / 4);
    LetterValue(a % 4 * 16 + b / 16);
    LetterValue(b % 16 * 4 + c / 64);
    LetterValue(c % 64);
    var q := Quad(a, b, c);
    PadsOfFour(q[0], q[1], q[2], q[3]);
    FirstBack(a, b);
    SecondBack(a, b, c);
    ThirdBack(b, c);
  }

  lemma LastBack(s: Data)
    requires |s| == 1 || |s| == 2
    ensures var e := LastQuad(s); QuadOk(e) && Pads(e) == 3 - |s| && Bytes(e)[..|s|] == s
  {
    LetterValue(s[0] / 4);
    var q := LastQuad(s);
    PadsOfFour(q[0], q[1], q[2], q[3]);
    if |s| == 1 {
      LetterValue(s[0] % 4 * 16);
      FirstBack(s[0], 0);
    } else {
      LetterValue(s[0] % 4 * 16 + s[1] / 16);
      LetterValue(s[1] % 16 * 4);
      FirstBack(s[0], s[1]);
      SecondBack(s[0], s[1], 0);
    }
  }

  lemma {:induction false} EncodingLength(s: Data)
    ensures |Encoding(s)| == (|s| + 2) / 3 * 4
  {
    if |s| >= 3 {
      EncodingLength(s[3..]);
      assert (|s| + 2) / 3 == (|s[3..]| + 2) / 3 + 1;
    }
  }

  lemma {:induction false} EncodingIsValid(s: Data)
    ensures AllValid(Encoding(s))
  {
    if s == [] {
    } else if |s| < 3 {
      LastBack(s);
    } else {
      QuadBack(s[0], s[1], s[2]);
      EncodingIsValid(s[3..]);
    }
  }

  /** Decoding undoes encoding. */
  lemma {:induction false} RoundTrip(s: Data)
    ensures AllValid(Encoding(s)) && Decoding(Encoding(s)) == Some(s)
  {
    EncodingIsValid(s);
    if s == [] {
    } else if |s| < 3 {
      LastBack(s);
      assert LastQuad(s)[..4] == LastQuad(s);
    } else {
      QuadBack(s[0], s[1], s[2]);
      EncodingIsValid(s[3..]);
      RoundTrip(s[3..]);
      var q, e := Quad(s[0], s[1], s[2]), Encoding(s);
      assert e[..4] == q && e[4..] == Encoding(s[3..]);
      assert s == [s[0], s[1], s[2]] + s[3..];
    }
  }

  // ---------------------------------------------------------------- the encoder

  /** The room base64_encode asks for: four letters for three bytes, some slack for line feeds, and a terminator. */
  function Room(len: nat): nat {
    var olen := len * 4 / 3 + 4;
    olen + olen / 72 + 1
  }

  lemma RoomIsEnough(s: Data)
    ensures |Encoding(s)| < Room(|s|)
  {
    EncodingLength(s);
  }

  lemma EncodingNext(s: Data, i: nat)
    requires i + 3 <= |s|
    ensures Encoding(s[i..]) == Quad(s[i], s[i + 1], s[i + 2]) + Encoding(s[i + 3..])
  {
    assert s[i..][3..] == s[i + 3..];
  }

  /** Four letters into the output. */
  method Put(out: array<Byte>, pos: nat, q: Data)
    requires |q| == 4 && pos + 4 <= out.Length
    modifies out
    ensures out[..pos + 4] == old(out[..pos]) + q
    ensures forall j :: pos + 4 <= j < out.Length ==> out[j] == old(out[j])
  {
    out[pos] := q[0];
    out[pos + 1] := q[1];
    out[pos + 2] := q[2];
    out[pos + 3] := q[3];
  }

  /** What is written so far and what is still to come make up the encoding. */
  ghost predicate Written(src: Data, i: nat, front: Data) {
    i <= |src| && front + Encoding(src[i..]) == Encoding(src)
  }

  lemma WriteNext(src: Data, i: nat, front: Data)
    requires Written(src, i, front) && i + 3 <= |src|
    ensures |front| + 4 <= |Encoding(src)| && Written(src, i + 3, front + Quad(src[i], src[i + 1], src[i + 2]))
  {
    EncodingNext(src, i);
    var q, rest := Quad(src[i], src[i + 1], src[i + 2]), Encoding(src[i + 3..]);
    assert front + (q + rest) == (front + q) + rest;
  }

  lemma WriteLast(src: Data, i: nat, front: Data)
    requires Written(src, i, front) && |src| - 3 < i
    ensures i == |src| ==> front == Encoding(src)
    ensures i < |src| ==> front + LastQuad(src[i..]) == Encoding(src)
  {
  }

  /** The loop over whole groups of three bytes. */
  method PutGroups(src: Data, out: array<Byte>) returns (i: nat, r: nat)
    requires |Encoding(src)| < out.Length
    modifies out
    ensures |src| - 3 < i && r <= out.Length && Written(src, i, out[..r])
    ensures forall j :: r <= j < out.Length ==> out[j] == old(out[j])
  {
    i, r := 0, 0;
    assert src[0..] == src && out[..0] == [];
    while |src| - i >= 3
      invariant r <= out.Length && Written(src, i, out[..r])
      invariant forall j :: r <= j < out.Length ==> out[j] == old(out[j])
    {
      WriteNext(src, i, out[..r]);
      Put(out, r, Quad(src[i], src[i + 1], src[i + 2]));
      i, r := i + 3, r + 4;
    }
  }

  /** The output behind a successful encoding: the letters, a terminator, and nothing else touched. */
  ghost predicate Encoded(src: Data, before: Data, after: Data, r: nat) {
    && r == |Encoding(src)| && |after| == |before| && r < |after|
    && after[..r] == Encoding(src) && after[r] == 0 && after[r + 1..] == before[r + 1..]
  }

  /** The encoder once there is room. */
  method EncodeInto(src: Data, out: array<Byte>) returns (r: nat)
    requires |Encoding(src)| < out.Length
    modifies out
    ensures Encoded(src, old(out[..]), out[..], r)
  {
    var i;
    i, r := PutGroups(src, out);
    WriteLast(src, i, out[..r]);
    if i < |src| {
      Put(out, r, LastQuad(src[i..]));
      r := r + 4;
    }
    assert out[..r] == Encoding(src);
    out[r] := 0;
  }

  /** base64_encode. */
  method Encode(src: Data, out: array?<Byte>, outLen: nat) returns (r: nat)
    requires out != null ==> outLen <= out.Length
    modifies out
    ensures Room(|src|) > outLen || out == null ==> r == 0 && (out != null ==> out[..] == old(out[..]))
    ensures Room(|src|) <= outLen && out != null ==> r < Room(|src|) && Encoded(src, old(out[..]), out[..], r)
  {
    if Room(|src|) > outLen || out == null { return 0; }
    RoomIsEnough(src);
    r := EncodeInto(src, out);
  }

  // ---------------------------------------------------------------- the decoder

  /** The characters the decoder does not skip. */
  function Strip(d: Data): Data {
    if d == [] then [] else Strip(d[..|d| - 1]) + if Valid(d[|d| - 1]) then [d[|d| - 1]] else []
  }

  lemma {:induction false} StripIsValid(d: Data)
    ensures AllValid(Strip(d))
  {
    if d != [] { StripIsValid(d[..|d| - 1]); }
  }

  lemma {:induction false} StripPrefix(d: Data, i: nat)
    requires i <= |d|
    ensures Strip(d[..i]) <= Strip(d)
  {
    if i == |d| {
      assert d[..i] == d;
    } else {
      StripPrefix(d[..|d| - 1], i);
      assert d[..|d| - 1][..i] == d[..i];
    }
  }

  lemma StripNext(d: Data, i: nat)
    requires i < |d|
    ensures Strip(d[..i + 1]) == Strip(d[..i]) + if Valid(d[i]) then [d[i]] else []
  {
    assert d[..i + 1][..i] == d[..i];
  }

  /** The first loop of base64_decode. */
  method CountValid(src: Data) returns (count: nat)
    ensures count == |Strip(src)|
  {
    count := 0;
    var i := 0;
    assert src[..0] == [];
    while i < |src|
      invariant 0 <= i <= |src| && count == |Strip(src[..i])|
    {
      StripNext(src, i);
      if Value(src[i]) != INVALID { count := count + 1; }
      i := i + 1;
    }
    assert src[..i] == src;
  }

  /** The rest of the decoding behind bytes already there. */
  ghost function Behind(front: Data, rest: Option<Data>): Option<Data> {
    if rest.None? then None else Some(front + rest.value)
  }

  lemma DecodingNext(e: Data, done: nat, front: Data)
    requires AllValid(e) && done + 4 <= |e|
    ensures QuadOk(e[done..done + 4])
    ensures var q := e[done..done + 4];
            Behind(front, Decoding(e[done..]))
            == if Pads(q) > 2 then None else if Pads(q) > 0 then Some(front + Bytes(q)[..3 - Pads(q)])
               else Behind(front + Bytes(q), Decoding(e[done + 4..]))
  {
    var f := e[done..];
    assert f[..4] == e[done..done + 4] && f[4..] == e[done + 4..];
    assert Valid(e[done]) && Valid(e[done + 1]) && Valid(e[done + 2]) && Valid(e[done + 3]);
    var rest := Decoding(e[done + 4..]);
    if Pads(f[..4]) == 0 && rest.Some? {
      assert front + (Bytes(f[..4]) + rest.value) == (front + Bytes(f[..4])) + rest.value;
    }
  }

  /** Three bytes into the output. */
  method Emit(out: array<Byte>, pos: nat, d: Data)
    requires |d| == 3 && pos + 3 <= out.Length
    modifies out
    ensures out[..pos + 3] == old(out[..pos]) + d
    ensures forall j :: pos + 3 <= j < out.Length ==> out[j] == old(out[j])
  {
    out[pos] := d[0];
    out[pos + 1] := d[1];
    out[pos + 2] := d[2];
  }

  /** The second loop's state: whole blocks decoded up to done, and part of the next block in hand. */
  ghost predicate Reading(e: Data, done: nat, block: Data, front: Data) {
    && AllValid(e) && done % 4 == 0 && |block| < 4 && done + |block| <= |e| && block == e[done..done + |block|]
    && |front| == done / 4 * 3 && Behind(front, Decoding(e[done..])) == Decoding(e)
  }

  lemma ReadStart(e: Data)
    requires AllValid(e)
    ensures Reading(e, 0, [], [])
  {
    assert e[0..] == e && e[0..0] == [];
    var d := Decoding(e);
    if d.Some? { assert [] + d.value == d.value; }
  }

  lemma ReadLetter(e: Data, done: nat, block: Data, front: Data)
    requires Reading(e, done, block, front) && |block| < 3 && done + |block| < |e|
    ensures Reading(e, done, block + [e[done + |block|]], front)
  {
    var k := done + |block|;
    assert e[done..k + 1] == e[done..k] + [e[k]];
  }

  lemma FullBlock(e: Data, done: nat, block: Data, front: Data)
    requires Reading(e, done, block, front) && |block| == 3 && done + 3 < |e|
    ensures QuadOk(block + [e[done + 3]]) && done + 4 <= |e| && block + [e[done + 3]] == e[done..done + 4]
  {
    assert e[done..done + 4] == e[done..done + 3] + [e[done + 3]];
    assert Valid(e[done]) && Valid(e[done + 1]) && Valid(e[done + 2]) && Valid(e[done + 3]);
  }

  lemma ReadOn(e: Data, done: nat, front: Data)
    requires AllValid(e) && done % 4 == 0 && done <= |e| && |front| == done / 4 * 3
    requires Behind(front, Decoding(e[done..])) == Decoding(e)
    ensures Reading(e, done, [], front)
  {
    assert e[done..done] == [];
  }

  /** What becomes of a full block. */
  lemma ReadBlock(e: Data, done: nat, block: Data, front: Data, q: Data)
    requires Reading(e, done, block, front) && done + 4 <= |e| && QuadOk(q) && q == e[done..done + 4]
    ensures Pads(q) == 0 ==> Reading(e, done + 4, [], front + Bytes(q))
    ensures Pads(q) > 0 ==> Decoding(e) == if Pads(q) > 2 then None else Some(front + Bytes(q)[..3 - Pads(q)])
  {
    DecodingNext(e, done, front);
    NextBlock(done);
    if Pads(q) == 0 {
      var more := front + Bytes(q);
      assert |more| == (done + 4) / 4 * 3;
      ReadOn(e, done + 4, more);
    }
  }

  lemma NextBlock(done: nat)
    requires done % 4 == 0
    ensures (done + 4) % 4 == 0 && (done + 4) / 4 * 3 == done / 4 * 3 + 3
  {
  }

  lemma ReadEnd(e: Data, done: nat, block: Data, front: Data)
    requires Reading(e, done, block, front) && done + |block| == |e| && |e| % 4 == 0
    ensures Decoding(e) == Some(front)
  {
    NothingInHand(done, |block|);
    assert e[done..] == [] && Decoding(e[done..]) == Some([]);
    assert front + [] == front;
  }

  lemma NothingInHand(done: nat, n: nat)
    requires done % 4 == 0 && n < 4 && (done + n) % 4 == 0
    ensures n == 0
  {
  }

  /** How far the decoder is among the valid characters. */
  ghost function Seen(src: Data, i: nat): nat
    requires i <= |src|
  {
    |Strip(src[..i])|
  }

  lemma SeenNext(src: Data, i: nat)
    requires i < |src|
    ensures Seen(src, i + 1) == Seen(src, i) + if Valid(src[i]) then 1 else 0
    ensures Valid(src[i]) ==> Seen(src, i) < |Strip(src)| && Strip(src)[Seen(src, i)] == src[i]
  {
    StripNext(src, i);
    StripPrefix(src, i + 1);
  }

  lemma SeenAll(src: Data)
    ensures Seen(src, 0) == 0 && Seen(src, |src|) == |Strip(src)|
  {
    assert src[..0] == [] && src[..|src|] == src;
  }

  /** The table values in hand and the padding among them stand for these letters. */
  ghost predicate Holds(values: seq<Sextet>, pad: nat, letters: Data) {
    && |values| == |letters| && pad == Pads(letters)
    && forall k :: 0 <= k < |values| ==> values[k] == Value(letters[k])
  }

  lemma HoldNext(values: seq<Sextet>, pad: nat, letters: Data, c: Byte)
    requires Holds(values, pad, letters) && Valid(c)
    ensures Holds(values + [Value(c)], pad + IsPad(c), letters + [c])
  {
    assert (letters + [c])[..|letters|] == letters;
  }

  lemma HoldsFour(values: seq<Sextet>, pad: nat, q: Data)
    requires Holds(values, pad, q) && QuadOk(q)
    ensures Triple(values[0], values[1], values[2], values[3]) == Bytes(q)
  {
  }

  /** A result of the decoder: the decoded bytes are in the buffer, or zero when the padding is wrong. */
  ghost predicate Decoded(e: Data, out: Data, r: nat)
    requires AllValid(e)
  {
    var d := Decoding(e);
    if d.None? then r == 0 else r == |d.value| <= |out| && out[..r] == d.value
  }

  /** A full block: its bytes go out, and padding ends the run. */
  method Flush(out: array<Byte>, pos: nat, values: seq<Sextet>, pad: nat, ghost e: Data, ghost done: nat, ghost block: Data)
    returns (next: nat)
    requires pos + 3 <= out.Length && Reading(e, done, block, out[..pos]) && |block| == 3 && done + 3 < |e|
    requires Holds(values, pad, block + [e[done + 3]])
    modifies out
    ensures pad == 0 ==> next == pos + 3 && Reading(e, done + 4, [], out[..next])
    ensures pad > 0 ==> Decoded(e, out[..], next)
    ensures forall j :: pos + 3 <= j < out.Length ==> out[j] == old(out[j])
  {
    FullBlock(e, done, block, out[..pos]);
    ReadBlock(e, done, block, out[..pos], block + [e[done + 3]]);
    HoldsFour(values, pad, block + [e[done + 3]]);
    Emit(out, pos, Triple(values[0], values[1], values[2], values[3]));
    next := if pad == 0 then pos + 3 else if pad == 1 then pos + 2 else if pad == 2 then pos + 1 else 0;
  }

  /** The second loop of base64_decode. */
  method DecodeBlocks(src: Data, out: array<Byte>) returns (pos: nat)
    requires AllValid(Strip(src)) && |Strip(src)| % 4 == 0 && |Strip(src)| / 4 * 3 <= out.Length
    modifies out
    ensures Decoded(Strip(src), out[..], pos)
    ensures forall j :: |Strip(src)| / 4 * 3 <= j < out.Length ==> out[j] == old(out[j])
  {
    ghost var e, done, block: Data := Strip(src), 0, [];
    var i, values: seq<Sextet>, pad := 0, [], 0;
    pos := 0;
    ReadStart(e);
    SeenAll(src);
    assert out[..0] == [];
    while i < |src|
      invariant i <= |src| && pos <= out.Length && Reading(e, done, block, out[..pos]) && Holds(values, pad, block)
      invariant done + |block| == Seen(src, i)
      invariant forall j :: |e| / 4 * 3 <= j < out.Length ==> out[j] == old(out[j])
    {
      SeenNext(src, i);
      if Value(src[i]) != INVALID {
        HoldNext(values, pad, block, src[i]);
        pad := pad + if src[i] == PAD then 1 else 0;
        values := values + [Value(src[i])];
        if |values| == 4 {
          pos := Flush(out, pos, values, pad, e, done, block);
          if pad > 0 { return; }
          values, block, done := [], [], done + 4;
        } else {
          ReadLetter(e, done, block, out[..pos]);
          block := block + [src[i]];
        }
      }
      i := i + 1;
    }
    ReadEnd(e, done, block, out[..pos]);
  }

  /** base64_decode. */
  method Decode(src: Data, out: array?<Byte>, outLen: nat) returns (r: nat)
    requires out != null ==> outLen <= out.Length
    modifies out
    ensures AllValid(Strip(src))
    ensures var n := |Strip(src)|;
            if n == 0 || n % 4 != 0 || n / 4 * 3 > outLen || out == null
            then r == 0 && (out != null ==> out[..] == old(out[..]))
            else && Decoded(Strip(src), out[..], r)
                 && forall j :: outLen <= j < out.Length ==> out[j] == old(out[j])
  {
    StripIsValid(src);
    var count := CountValid(src);
    if count == 0 || count % 4 != 0 || count / 4 * 3 > outLen || out == null { return 0; }
    r := DecodeBlocks(src, out);
  }

  lemma {:induction false} StripOfValid(e: Data)
    requires AllValid(e)
    ensures Strip(e) == e
  {
    if e != [] {
      StripOfValid(e[..|e| - 1]);
      assert e == e[..|e| - 1] + [e[|e| - 1]];
    }
  }

  /** Whatever invalid characters stand between the letters, decoding an encoded text gives the bytes back. */
  lemma JunkIsIgnored(s: Data, d: Data, out: Data, r: nat)
    requires Strip(d) == Encoding(s) && AllValid(Strip(d)) && Decoded(Strip(d), out, r)
    ensures r == |s| <= |out| && out[..r] == s
  {
    RoundTrip(s);
  }

  /** What the encoder leaves in its buffer is what the decoder turns back into the source. */
  lemma ThereAndBack(src: Data, before: Data, text: Data, n: nat, out: Data, r: nat)
    requires Encoded(src, before, text, n) && AllValid(Strip(text[..n])) && Decoded(Strip(text[..n]), out, r)
    ensures |Strip(text[..n])| == (|src| + 2) / 3 * 4 && r == |src| <= |out| && out[..r] == src
  {
    EncodingIsValid(src);
    EncodingLength(src);
    StripOfValid(text[..n]);
    JunkIsIgnored(src, text[..n], out, r);
  }
}

/** An encoding spells the bits of the data, six by six. */
module Base64Bits {
  import opened Base
  import opened Base64

  function Capitals(): string { "ABCDEFGHIJKLMNOPQRSTUVWXYZ" }

  function Smalls(): string { "abcdefghijklmnopqrstuvwxyz" }

  function Figures(): string { "0123456789+/" }

  /** The alphabet of table 1 of RFC 4648. */
  function Alphabet(): (a: string)
    ensures |a| == 64
  {
    Capitals() + Smalls() + Figures()
  }

  lemma CapitalsAre(v: int)
    requires 0 <= v < 26
    ensures |Capitals()| == 26 && Capitals()[v] as int == 65 + v
  {
    var s := Capitals();
    assert forall i :: 0 <= i < 26 ==> s[i] as int == 65 + i;
  }

  lemma SmallsAre(v: int)
    requires 0 <= v < 26
    ensures |Smalls()| == 26 && Smalls()[v] as int == 97 + v
  {
    var s := Smalls();
    assert forall i :: 0 <= i < 26 ==> s[i] as int == 97 + i;
  }

  lemma FiguresAre(v: int)
    requires 0 <= v < 12
    ensures |Figures()| == 12 && Figures()[v] as int == if v < 10 then 48 + v else if v == 10 then 43 else 47
  {
    var s := Figures();
    assert forall i :: 0 <= i < 10 ==> s[i] as int == 48 + i;
  }

  lemma LetterIsOfAlphabet(v: Sextet)
    ensures Letter(v) == Alphabet()[v] as int
  {
    if v < 26 { CapitalsAre(v); } else if v < 52 { SmallsAre(v - 26); } else { FiguresAre(v - 52); }
  }

  /** Bit k of a byte, the highest being bit 0. */
  function BitOf(b: Byte, k: nat): (r: nat)
    requires k < 8
    ensures r < 2
  {
    match k
    case 0 => b / 128
    case 1 => b / 64 % 2
    case 2 => b / 32 % 2
    case 3 => b / 16 % 2
    case 4 => b / 8 % 2
    case 5 => b / 4 % 2
    case 6 => b / 2 % 2
    case _ => b % 2
  }

  /** Bit k of the data, with zeros after its end. */
  function BitAt(s: Data, k: nat): (r: nat)
    ensures r < 2
  {
    if k / 8 < |s| then BitOf(s[k / 8], k % 8) else 0
  }

  /** The six bits from bit k on. */
  function SixFrom(s: Data, k: nat): Sextet {
    32 * BitAt(s, k) + 16 * BitAt(s, k + 1) + 8 * BitAt(s, k + 2) + 4 * BitAt(s, k + 3) + 2 * BitAt(s, k + 4) + BitAt(s, k + 5)
  }

  lemma Halved(b: Byte)
    ensures b / 2 / 2 == b / 4 && b / 4 / 2 == b / 8 && b / 8 / 2 == b / 16 && b / 16 / 2 == b / 32 && b / 32 / 2 == b / 64 && b / 64 / 2 == b / 128
  {
  }

  lemma HighBits(b: Byte)
    ensures 2 * BitOf(b, 0) + BitOf(b, 1) == b / 64
    ensures 8 * BitOf(b, 0) + 4 * BitOf(b, 1) + 2 * BitOf(b, 2) + BitOf(b, 3) == b / 16
    ensures 32 * BitOf(b, 0) + 16 * BitOf(b, 1) + 8 * BitOf(b, 2) + 4 * BitOf(b, 3) + 2 * BitOf(b, 4) + BitOf(b, 5) == b / 4
  {
    Halved(b);
    var b2, b3, b4, b5, b6, b7 := b / 4, b / 8, b / 16, b / 32, b / 64, b / 128;
    assert b2 == 2 * b3 + b2 % 2 && b3 == 2 * b4 + b3 % 2 && b4 == 2 * b5 + b4 % 2 && b5 == 2 * b6 + b5 % 2 && b6 == 2 * b7 + b6 % 2;
  }

  lemma Remainders(b: Byte)
    ensures b % 4 == b - 4 * (b / 4) && b % 16 == b - 16 * (b / 16) && b % 64 == b - 64 * (b / 64)
  {
  }

  lemma AllBits(b: Byte)
    ensures b == 4 * (b / 4) + 2 * BitOf(b, 6) + BitOf(b, 7)
  {
    assert b / 2 / 2 == b / 4;
    var b1 := b / 2;
    assert b == 2 * b1 + b % 2 && b1 == 2 * (b1 / 2) + b1 % 2;
  }

  lemma SplitByte(b: Byte)
    ensures 32 * BitOf(b, 0) + 16 * BitOf(b, 1) + 8 * BitOf(b, 2) + 4 * BitOf(b, 3) + 2 * BitOf(b, 4) + BitOf(b, 5) == b / 4
    ensures 2 * BitOf(b, 6) + BitOf(b, 7) == b % 4
    ensures 8 * BitOf(b, 0) + 4 * BitOf(b, 1) + 2 * BitOf(b, 2) + BitOf(b, 3) == b / 16
    ensures 8 * BitOf(b, 4) + 4 * BitOf(b, 5) + 2 * BitOf(b, 6) + BitOf(b, 7) == b % 16
    ensures 2 * BitOf(b, 0) + BitOf(b, 1) == b / 64
    ensures 32 * BitOf(b, 2) + 16 * BitOf(b, 3) + 8 * BitOf(b, 4) + 4 * BitOf(b, 5) + 2 * BitOf(b, 6) + BitOf(b, 7) == b % 64
  {
    HighBits(b);
    AllBits(b);
    Remainders(b);
  }

  lemma BitsOnward(s: Data, j: nat, k: nat, m: nat)
    requires j <= |s| && m == k + 8 * j
    ensures BitAt(s, m) == BitAt(s[j..], k)
  {
    assert m / 8 == k / 8 + j && m % 8 == k % 8;
  }

  lemma SixOnward(s: Data, j: nat, k: nat, m: nat)
    requires j <= |s| && m == k + 8 * j
    ensures SixFrom(s, m) == SixFrom(s[j..], k)
  {
    BitsOnward(s, j, k, m);
    BitsOnward(s, j, k + 1, m + 1);
    BitsOnward(s, j, k + 2, m + 2);
    BitsOnward(s, j, k + 3, m + 3);
    BitsOnward(s, j, k + 4, m + 4);
    BitsOnward(s, j, k + 5, m + 5);
  }

  /** Byte j of the data, zero after its end. */
  function ByteAt(s: Data, j: nat): Byte {
    if j < |s| then s[j] else 0
  }

  lemma BitInByte(s: Data, j: nat, t: nat, k: nat)
    requires t < 8 && k == 8 * j + t
    ensures BitAt(s, k) == BitOf(ByteAt(s, j), t)
  {
    assert k / 8 == j && k % 8 == t;
  }

  lemma BitsInByte(s: Data, j: nat, k: nat)
    requires k == 8 * j
    ensures BitAt(s, k) == BitOf(ByteAt(s, j), 0) && BitAt(s, k + 1) == BitOf(ByteAt(s, j), 1)
    ensures BitAt(s, k + 2) == BitOf(ByteAt(s, j), 2) && BitAt(s, k + 3) == BitOf(ByteAt(s, j), 3)
    ensures BitAt(s, k + 4) == BitOf(ByteAt(s, j), 4) && BitAt(s, k + 5) == BitOf(ByteAt(s, j), 5)
    ensures BitAt(s, k + 6) == BitOf(ByteAt(s, j), 6) && BitAt(s, k + 7) == BitOf(ByteAt(s, j), 7)
  {
    BitInByte(s, j, 0, k);
    BitInByte(s, j, 1, k + 1);
    BitInByte(s, j, 2, k + 2);
    BitInByte(s, j, 3, k + 3);
    BitInByte(s, j, 4, k + 4);
    BitInByte(s, j, 5, k + 5);
    BitInByte(s, j, 6, k + 6);
    BitInByte(s, j, 7, k + 7);
  }

  /** The twenty-four bits of three bytes, six by six. */
  lemma FourSextets(s: Data)
    ensures SixFrom(s, 0) == ByteAt(s, 0) / 4 && SixFrom(s, 6) == ByteAt(s, 0) % 4 * 16 + ByteAt(s, 1) / 16
    ensures SixFrom(s, 12) == ByteAt(s, 1) % 16 * 4 + ByteAt(s, 2) / 64 && SixFrom(s, 18) == ByteAt(s, 2) % 64
  {
    BitsInByte(s, 0, 0);
    BitsInByte(s, 1, 8);
    BitsInByte(s, 2, 16);
    SplitByte(ByteAt(s, 0));
    SplitByte(ByteAt(s, 1));
    SplitByte(ByteAt(s, 2));
  }

  /** The letter for the six bits from bit k on, or padding once there are none. */
  function Spelled(s: Data, k: nat): Byte {
    if k < 8 * |s| then Letter(SixFrom(s, k)) else PAD
  }

  lemma FullQuad(s: Data)
    requires |s| >= 3
    ensures Quad(s[0], s[1], s[2]) == [Spelled(s, 0), Spelled(s, 6), Spelled(s, 12), Spelled(s, 18)]
  {
    FourSextets(s);
  }

  lemma ShortQuad(s: Data)
    requires |s| == 1 || |s| == 2
    ensures LastQuad(s) == [Spelled(s, 0), Spelled(s, 6), Spelled(s, 12), Spelled(s, 18)]
  {
    FourSextets(s);
  }

  lemma FirstQuad(s: Data)
    requires s != []
    ensures Encoding(s)[..4] == [Spelled(s, 0), Spelled(s, 6), Spelled(s, 12), Spelled(s, 18)]
  {
    if |s| >= 3 { FullQuad(s); } else { ShortQuad(s); }
  }

  lemma FirstLetters(s: Data, i: nat)
    requires s != [] && i < 4 && i < |Encoding(s)|
    ensures Encoding(s)[i] == Spelled(s, 6 * i)
  {
    FirstQuad(s);
    assert Encoding(s)[i] == Encoding(s)[..4][i];
  }

  lemma SpelledOnward(s: Data, j: nat, k: nat, m: nat)
    requires j <= |s| && m == k + 8 * j
    ensures Spelled(s, m) == Spelled(s[j..], k)
  {
    SixOnward(s, j, k, m);
  }

  /** Group n of four letters is the first one of the data from byte 3 * n on. */
  lemma {:induction false} LaterGroup(s: Data, n: nat, i: nat)
    requires 4 * n <= i < |Encoding(s)|
    ensures 3 * n < |s| && i - 4 * n < |Encoding(s[3 * n..])| && Encoding(s)[i] == Encoding(s[3 * n..])[i - 4 * n]
  {
    if n == 0 {
      assert s[0..] == s;
    } else {
      var rest := s[3..];
      LaterGroup(rest, n - 1, i - 4);
      assert rest[3 * (n - 1)..] == s[3 * n..];
    }
  }

  lemma SpelledOut(s: Data, i: nat)
    requires i < |Encoding(s)|
    ensures Encoding(s)[i] == Spelled(s, 6 * i)
  {
    var n, t := i / 4, i % 4;
    LaterGroup(s, n, i);
    FirstLetters(s[3 * n..], t);
    SpelledOnward(s, 3 * n, 6 * t, 6 * i);
  }

  /** Letter i of an encoding is the one of the alphabet for the six bits from bit 6 * i on, or padding once there are none. */
  lemma EncodingSpells(s: Data, i: nat)
    requires i < |Encoding(s)|
    ensures Encoding(s)[i] == if 6 * i < 8 * |s| then Alphabet()[SixFrom(s, 6 * i)] as int else '=' as int
  {
    SpelledOut(s, i);
    LetterIsOfAlphabet(SixFrom(s, 6 * i));
  }

  // ---------------------------------------------------------------- what a text decodes to

  /** The blocks of four characters before the first one with padding. */
  function FullBlocks(e: Data): (n: nat)
    ensures 4 * n <= |e|
  {
    if |e| < 4 || Pads(e[..4]) > 0 then 0 else 1 + FullBlocks(e[4..])
  }

  function PadsFrom(e: Data, k: nat): nat {
    if k + 4 <= |e| then Pads(e[k..k + 4]) else 0
  }

  /** The padding characters in the block after those; none if there is no such block. */
  function EndPads(e: Data): nat {
    PadsFrom(e, 4 * FullBlocks(e))
  }

  lemma PadsOnward(e: Data, k: nat)
    requires |e| >= 4
    ensures PadsFrom(e, k + 4) == PadsFrom(e[4..], k)
  {
    if k + 8 <= |e| { assert e[4..][k..k + 4] == e[k + 4..k + 8]; }
  }

  lemma EndPadsOnward(e: Data)
    requires |e| >= 4 && Pads(e[..4]) == 0
    ensures FullBlocks(e) == 1 + FullBlocks(e[4..]) && EndPads(e) == EndPads(e[4..])
  {
    PadsOnward(e, 4 * FullBlocks(e[4..]));
  }

  lemma EndPadsHere(e: Data)
    requires |e| >= 4 && Pads(e[..4]) > 0
    ensures FullBlocks(e) == 0 && EndPads(e) == Pads(e[..4])
  {
    assert e[0..4] == e[..4];
  }

  /** A text is refused exactly when the first block with padding has more than two padding characters. */
  lemma {:induction false} DecodingLength(e: Data)
    requires AllValid(e)
    ensures Decoding(e).None? <==> EndPads(e) > 2
    ensures Decoding(e).Some? ==> |Decoding(e).value| == 3 * FullBlocks(e) + if EndPads(e) > 0 then 3 - EndPads(e) else 0
  {
    if |e| >= 4 {
      if Pads(e[..4]) == 0 {
        EndPadsOnward(e);
        DecodingLength(e[4..]);
      } else {
        EndPadsHere(e);
      }
    }
  }

  lemma SextetsOf(q: Data)
    requires QuadOk(q)
    ensures var d := Bytes(q);
            && SixFrom(d, 0) == Value(q[0]) && SixFrom(d, 6) == Value(q[1])
            && SixFrom(d, 12) == Value(q[2]) && SixFrom(d, 18) == Value(q[3])
  {
    FourSextets(Bytes(q));
    TripleBack(Value(q[0]), Value(q[1]), Value(q[2]), Value(q[3]));
  }

  lemma Joint(hi: nat, lo: nat)
    ensures lo < 4 ==> (hi * 4 + lo) / 4 == hi && (hi * 4 + lo) % 4 == lo
    ensures lo < 16 ==> (hi * 16 + lo) / 16 == hi && (hi * 16 + lo) % 16 == lo
    ensures lo < 64 ==> (hi * 64 + lo) / 64 == hi && (hi * 64 + lo) % 64 == lo
  {
  }

  lemma TripleIs(v0: Sextet, v1: Sextet, v2: Sextet, v3: Sextet)
    ensures Triple(v0, v1, v2, v3) == [v0 * 4 + v1 / 16, v1 % 16 * 16 + v2 / 4, v2 % 4 * 64 + v3]
  {
    assert v0 * 4 % 256 == v0 * 4 && v1 * 16 % 256 == v1 % 16 * 16 && v2 * 64 % 256 == v2 % 4 * 64;
  }

  lemma TripleBack(v0: Sextet, v1: Sextet, v2: Sextet, v3: Sextet)
    ensures var d := Triple(v0, v1, v2, v3);
            d[0] / 4 == v0 && d[0] % 4 * 16 + d[1] / 16 == v1 && d[1] % 16 * 4 + d[2] / 64 == v2 && d[2] % 64 == v3
  {
    TripleIs(v0, v1, v2, v3);
    Joint(v0, v1 / 16);
    Joint(v1 % 16, v2 / 4);
    Joint(v2 % 4, v3);
  }

  /** The sextets of the first i bytes do not depend on what follows. */
  lemma SixInFront(a: Data, b: Data, k: nat)
    requires k + 6 <= 8 * |a|
    ensures SixFrom(a + b, k) == SixFrom(a, k)
  {
    BitInFront(a, b, k);
    BitInFront(a, b, k + 1);
    BitInFront(a, b, k + 2);
    BitInFront(a, b, k + 3);
    BitInFront(a, b, k + 4);
    BitInFront(a, b, k + 5);
  }

  lemma BitInFront(a: Data, b: Data, k: nat)
    requires k < 8 * |a|
    ensures BitAt(a + b, k) == BitAt(a, k)
  {
    assert k / 8 < |a|;
  }

  lemma OneSextet(q: Data, t: nat, k: nat)
    requires QuadOk(q) && t < 4 && k == 6 * t
    ensures SixFrom(Bytes(q), k) == Value(q[t])
  {
    SextetsOf(q);
    if t == 0 { assert k == 0; } else if t == 1 { assert k == 6; } else if t == 2 { assert k == 12; } else { assert k == 18; }
  }

  lemma FirstBlock(q: Data, rest: Data, t: nat, k: nat)
    requires QuadOk(q) && t < 4 && k == 6 * t
    ensures SixFrom(Bytes(q) + rest, k) == Value(q[t])
  {
    OneSextet(q, t, k);
    SixInFront(Bytes(q), rest, k);
  }

  /** Block n of the text stands for three bytes. */
  lemma {:induction false} DecodedBlock(e: Data, n: nat)
    requires AllValid(e) && Decoding(e).Some? && n < FullBlocks(e)
    ensures var d := Decoding(e).value; var q := e[4 * n..4 * n + 4];
            QuadOk(q) && 3 * n + 3 <= |d| && Bytes(q) <= d[3 * n..]
  {
    var rest := e[4..];
    var d := Decoding(rest).value;
    var all := Decoding(e).value;
    assert all == Bytes(e[..4]) + d;
    if n == 0 {
      assert e[0..4] == e[..4] && all[0..] == all;
    } else {
      DecodedBlock(rest, n - 1);
      assert rest[4 * (n - 1)..4 * (n - 1) + 4] == e[4 * n..4 * n + 4];
      assert all[3..] == d && all[3 * n..] == d[3 * (n - 1)..];
    }
  }

  /** Character i of the blocks without padding stands for the six bits from bit 6 * i on. */
  lemma DecodingSpells(e: Data, i: nat)
    requires AllValid(e) && Decoding(e).Some? && i < 4 * FullBlocks(e)
    ensures SixFrom(Decoding(e).value, 6 * i) == Value(e[i])
  {
    var n, t := i / 4, i % 4;
    DecodedBlock(e, n);
    SpelledAt(Decoding(e).value, e[4 * n..4 * n + 4], n, t, i);
  }

  lemma SpelledAt(d: Data, q: Data, n: nat, t: nat, i: nat)
    requires QuadOk(q) && 3 * n <= |d| && Bytes(q) <= d[3 * n..] && t < 4 && i == 4 * n + t
    ensures SixFrom(d, 6 * i) == Value(q[t])
  {
    SpelledBlock(d[3 * n..], q, t, 6 * t);
    SixOnward(d, 3 * n, 6 * t, 6 * i);
  }

  lemma SpelledBlock(d: Data, q: Data, t: nat, k: nat)
    requires QuadOk(q) && Bytes(q) <= d && t < 4 && k == 6 * t
    ensures SixFrom(d, k) == Value(q[t])
  {
    assert d == Bytes(q) + d[3..];
    FirstBlock(q, d[3..], t, k);
  }
}
