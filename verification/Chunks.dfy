/** The bytes append and prepend make of two values. */
module ChunkData {
  import opened Base

  type Data = seq<Byte>

  /** Append puts the new bytes after the old ones without their CRLF; prepend the other way round. */
  function Joined(append: bool, prior: Data, add: Data): Data
    requires |prior| >= 2 && |add| >= 2
  {
    if append then prior[..|prior| - 2] + add else add[..|add| - 2] + prior
  }
}

/**
 * Large items kept as a chain of chunks, and the copying behind append and prepend
 * (_store_item_copy_chunks and _store_item_copy_data in memcached_SendBuffer.c, do_item_alloc_chunk in items.c).
 */
module Chunks {
  import opened Base
  import opened ChunkData

  /** `data` is the used part of a chunk that has room for `size` bytes. */
  datatype Chunk = Chunk(size: nat, data: Data)

  /** How an allocation goes: a chunk made to measure, one of the largest size instead, or none. */
  datatype Outcome = ToMeasure | Largest | NoMemory

  function Contents(q: seq<Chunk>): Data {
    if q == [] then [] else Contents(q[..|q| - 1]) + q[|q| - 1].data
  }

  predicate Full(c: Chunk) { |c.data| == c.size }

  /** Nothing overflows, and only the last chunk may have room left. */
  ghost predicate ChainOk(q: seq<Chunk>) {
    && q != []
    && (forall i :: 0 <= i < |q| ==> |q[i].data| <= q[i].size)
    && (forall i :: 0 <= i < |q| - 1 ==> Full(q[i]))
  }

  // ---------------------------------------------------------------- chains

  lemma ContentsAppend(q: seq<Chunk>, c: Chunk)
    ensures Contents(q + [c]) == Contents(q) + c.data
  {
    assert (q + [c])[..|q|] == q;
  }

  /** Bytes written at the end of the last chunk are at the end of the contents. */
  lemma ContentsWrite(q: seq<Chunk>, more: Data)
    requires q != []
    ensures var last := q[|q| - 1];
            Contents(q[|q| - 1 := last.(data := last.data + more)]) == Contents(q) + more
  {
    var k := |q| - 1;
    var r := q[k := q[k].(data := q[k].data + more)];
    assert r[..k] == q[..k];
    assert Contents(q[..k]) + (q[k].data + more) == Contents(q[..k]) + q[k].data + more;
  }

  lemma {:induction false} ContentsPrefix(q: seq<Chunk>, i: nat)
    requires i <= |q|
    ensures Contents(q[..i]) <= Contents(q)
  {
    if i == |q| {
      assert q[..i] == q;
    } else {
      ContentsPrefix(q[..|q| - 1], i);
      assert q[..|q| - 1][..i] == q[..i];
    }
  }

  /** The bytes of chunk i inside the contents. */
  lemma ContentsSlice(q: seq<Chunk>, i: nat, from: nat, n: nat)
    requires i < |q| && from + n <= |q[i].data|
    ensures var at := |Contents(q[..i])| + from;
            && at + n <= |Contents(q)|
            && Contents(q)[at..at + n] == q[i].data[from..from + n]
  {
    ContentsPrefix(q, i + 1);
    assert q[..i + 1][..i] == q[..i];
    PrefixSlice(Contents(q), Contents(q[..i]), q[i].data, from, from + n);
  }

  lemma SliceGrows(all: Data, a: nat, n: nat)
    requires a + n <= |all|
    ensures all[..a] + all[a..a + n] == all[..a + n]
  {
  }

  lemma AppendSlice(done: Data, all: Data, a: nat, n: nat)
    requires a + n <= |all|
    ensures (done + all[..a]) + all[a..a + n] == done + all[..a + n]
  {
    SliceGrows(all, a, n);
  }

  /** A piece of chunk i written after the first `done` bytes of the contents. */
  lemma CopyStep(base: Data, q: seq<Chunk>, i: nat, from: nat, avail: nat, n: nat)
    requires i < |q| && from + avail <= |q[i].data| && n <= avail
    ensures var done := |Contents(q[..i])| + from;
            && done + n <= |Contents(q)|
            && (base + Contents(q)[..done]) + q[i].data[from..from + avail][..n] == base + Contents(q)[..done + n]
  {
    SliceSlice(q[i].data, from, from + avail, 0, n);
    assert q[i].data[from..from + avail][0..n] == q[i].data[from..from + avail][..n];
    ContentsSlice(q, i, from, n);
    AppendSlice(base, Contents(q), |Contents(q[..i])| + from, n);
  }

  lemma NextChunk(q: seq<Chunk>, i: nat)
    requires i < |q|
    ensures |Contents(q[..i + 1])| == |Contents(q[..i])| + |q[i].data|
  {
    assert q[..i + 1][..i] == q[..i];
  }

  // ---------------------------------------------------------------- a chunked item being filled

  class Item {
    const max: nat
    const mem: nat -> Outcome
    var chunks: seq<Chunk>
    var calls: nat

    /** The header of a new chunked item: one embedded chunk without room. */
    constructor (max: nat, mem: nat -> Outcome)
      requires max > 0
      ensures Valid() && Bytes() == [] && this.max == max && this.mem == mem && calls == 0
    {
      this.max, this.mem := max, mem;
      chunks, calls := [Chunk(0, [])], 0;
      new;
      assert chunks[..0] == [];
    }

    ghost predicate Valid()
      reads this
    {
      max > 0 && ChainOk(chunks)
    }

    ghost function Bytes(): Data
      reads this
    {
      Contents(chunks)
    }

    /** do_item_alloc_chunk, called for the last chunk of the chain. */
    method AllocChunk(remain: nat) returns (ok: bool)
      requires Valid() && Full(chunks[|chunks| - 1])
      modifies this
      ensures Valid() && Bytes() == old(Bytes()) && calls == old(calls) + 1
      ensures ok <==> mem(old(calls)) != NoMemory
      ensures if ok then chunks[..|chunks| - 1] == old(chunks) && chunks[|chunks| - 1].data == [] else chunks == old(chunks)
      ensures ok && remain > 0 ==> !Full(chunks[|chunks| - 1])
    {
      var outcome := mem(calls);
      calls := calls + 1;
      ok := outcome != NoMemory;
      if ok {
        var size := if remain < max && outcome == ToMeasure then remain else max;
        ContentsAppend(chunks, Chunk(size, []));
        chunks := chunks + [Chunk(size, [])];
      }
    }

    /** memcpy into the free part of the last chunk. */
    method Write(more: Data)
      requires Valid() && |more| <= chunks[|chunks| - 1].size - |chunks[|chunks| - 1].data|
      modifies this`chunks
      ensures Valid() && Bytes() == old(Bytes()) + more && |chunks| == |old(chunks)|
      ensures var last := chunks[|chunks| - 1];
              last.size == old(chunks)[|chunks| - 1].size && |last.data| == |old(chunks)[|chunks| - 1].data| + |more|
    {
      var k := |chunks| - 1;
      ContentsWrite(chunks, more);
      chunks := chunks[k := chunks[k].(data := chunks[k].data + more)];
    }

    /** Advance dch until there is free space: that always ends at the last chunk. */
    method FindFree() returns (dch: nat)
      requires Valid()
      ensures dch == |chunks| - 1
    {
      dch := 0;
      while Full(chunks[dch]) && dch + 1 < |chunks|
        invariant dch < |chunks|
      {
        dch := dch + 1;
      }
    }

    /** Every allocation since the count stood at n has been granted. */
    ghost predicate Granted(n: nat)
      reads this
    {
      forall i :: n <= i < calls ==> mem(i) != NoMemory
    }

    /** One turn of either copy loop: as many bytes as both sides allow, then a new chunk if this one is full. */
    method Fill(from: Data, remain: nat) returns (todo: nat, ok: bool)
      requires Valid() && |from| <= remain
      modifies this
      ensures Valid() && todo <= |from| && Bytes() == old(Bytes()) + from[..todo] && calls >= old(calls)
      ensures ok <==> Granted(old(calls))
      ensures ok && remain > todo ==> !Full(chunks[|chunks| - 1])
      ensures todo < |from| && ok && todo == 0 ==> Full(old(chunks)[|old(chunks)| - 1])
    {
      var last := chunks[|chunks| - 1];
      todo := if last.size - |last.data| < |from| then last.size - |last.data| else |from|;
      Write(from[..todo]);
      ok := true;
      if Full(chunks[|chunks| - 1]) {
        ok := AllocChunk(remain - todo);
      }
    }

    /** _store_item_copy_chunks from an item in one piece. */
    method CopyFlat(src: Data, len: nat) returns (ok: bool)
      requires Valid() && len <= |src|
      modifies this
      ensures Valid() && calls >= old(calls) && (ok <==> Granted(old(calls)))
      ensures ok ==> Bytes() == old(Bytes()) + src[..len]
    {
      var dch := FindFree();
      ok := true;
      var done := 0;
      assert src[..0] == [];
      while len > done
        invariant Valid() && done <= len && calls >= old(calls) && Granted(old(calls))
        invariant Bytes() == old(Bytes()) + src[..done]
        decreases len - done, if Full(chunks[|chunks| - 1]) then 1 else 0
      {
        var todo;
        todo, ok := Fill(src[done..len], len - done);
        if !ok { return; }
        SliceSlice(src, done, len, 0, todo);
        AppendSlice(old(Bytes()), src, done, todo);
        done := done + todo;
      }
    }

    /** _store_item_copy_chunks from an item in chunks. */
    method CopyChunked(src: seq<Chunk>, len: nat) returns (ok: bool)
      requires Valid() && len <= |Contents(src)|
      modifies this
      ensures Valid() && calls >= old(calls) && (ok <==> Granted(old(calls)))
      ensures ok ==> Bytes() == old(Bytes()) + Contents(src)[..len]
    {
      var dch := FindFree();
      ok := true;
      var remain, sch, copied := len, 0, 0;
      ghost var all := Contents(src);
      assert src[..0] == [] && all[..0] == [];
      while sch < |src| && remain > 0
        invariant Valid() && 0 <= remain <= len <= |all| && 0 <= sch <= |src| && calls >= old(calls) && Granted(old(calls))
        invariant 0 <= copied <= if sch < |src| then |src[sch].data| else 0
        invariant len - remain == |Contents(src[..sch])| + copied
        invariant Bytes() == old(Bytes()) + all[..len - remain]
        decreases |src| - sch, remain, if Full(chunks[|chunks| - 1]) then 1 else 0
      {
        var avail := if |src[sch].data| - copied < remain then |src[sch].data| - copied else remain;
        var todo;
        todo, ok := Fill(src[sch].data[copied..copied + avail], remain);
        if !ok { return; }
        CopyStep(old(Bytes()), src, sch, copied, avail, todo);
        copied := copied + todo;
        remain := remain - todo;
        if copied == |src[sch].data| {
          NextChunk(src, sch);
          copied := 0;
          sch := sch + 1;
        }
      }
      assert sch == |src| ==> src[..sch] == src;
      assert remain == 0;
    }
  }

  // ---------------------------------------------------------------- append and prepend

  /** An item's bytes, in one piece or in chunks. */
  datatype Value = Flat(data: Data) | Chunked(chunks: seq<Chunk>)

  function BytesOf(v: Value): Data {
    match v
    case Flat(d) => d
    case Chunked(q) => Contents(q)
  }

  lemma JoinedParts(append: bool, prior: Data, add: Data)
    requires |prior| >= 2 && |add| >= 2
    ensures var first, second := if append then prior else add, if append then add else prior;
            ([] + first[..|first| - 2]) + second[..|second|] == Joined(append, prior, add)
  {
  }

  method Copy(d: Item, v: Value, len: nat) returns (ok: bool)
    requires d.Valid() && len <= |BytesOf(v)|
    modifies d
    ensures d.Valid() && d.calls >= old(d.calls) && (ok <==> d.Granted(old(d.calls)))
    ensures ok ==> d.Bytes() == old(d.Bytes()) + BytesOf(v)[..len]
  {
    match v
    case Flat(data) => ok := d.CopyFlat(data, len);
    case Chunked(chunks) => ok := d.CopyChunked(chunks, len);
  }

  /** _store_item_copy_data into a new chunked item. */
  method JoinChunked(append: bool, d: Item, prior: Value, add: Value) returns (ok: bool)
    requires d.Valid() && d.Bytes() == [] && |BytesOf(prior)| >= 2 && |BytesOf(add)| >= 2
    modifies d
    ensures d.Valid() && (ok <==> d.Granted(old(d.calls)))
    ensures ok ==> d.Bytes() == Joined(append, BytesOf(prior), BytesOf(add))
  {
    var first, second := if append then prior else add, if append then add else prior;
    var len := |BytesOf(first)| - 2;
    JoinedParts(append, BytesOf(prior), BytesOf(add));
    ok := Copy(d, first, len);
    if ok {
      ok := Copy(d, second, |BytesOf(second)|);
    }
  }

  /** _store_item_copy_data into a new item in one piece, which has room for both without one CRLF. */
  method JoinFlat(append: bool, buf: array<Byte>, prior: Data, add: Data)
    requires |prior| >= 2 && |add| >= 2 && buf.Length == |prior| + |add| - 2
    modifies buf
    ensures buf[..] == Joined(append, prior, add)
  {
    var first, second := if append then prior else add, if append then add else prior;
    CopyInto(buf, 0, first);
    CopyInto(buf, |first| - 2, second);
    assert buf[..] == first[..|first| - 2] + second;
  }

  /** memcpy. */
  method CopyInto(buf: array<Byte>, at: nat, d: Data)
    requires at + |d| <= buf.Length
    modifies buf
    ensures forall i :: 0 <= i < buf.Length ==> buf[i] == if at <= i < at + |d| then d[i - at] else old(buf[i])
  {
    var i := 0;
    while i < |d|
      invariant i <= |d|
      invariant forall j :: 0 <= j < buf.Length ==> buf[j] == if at <= j < at + i then d[j - at] else old(buf[j])
    {
      buf[at + i] := d[i];
      i := i + 1;
    }
  }
}
