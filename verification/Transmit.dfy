/**
 * The response queue of a connection and its transmission with partial sends
 * (resp_add_iov, _transmit_pre, _transmit_post and transmit in memcached_SendBuffer.c, TCP).
 */
module Transmit {
  import opened Base

  type Data = seq<Byte>

  const IOV_MAX := 1024
  const MC_RESP_IOVCOUNT := 4

  /** An iovec that points at bytes still to send, or that counts the bytes left of a chunked item. */
  datatype Iov = Plain(data: Data) | Chunked(left: nat)

  /**
   * A response. `chunkIov` is the place of the chunked item among the iovecs, 0 for none, `chunks` are the used
   * parts of that item's chunks and `total` is how much of them was to be sent at first.
   */
  datatype Resp = Resp(skip: bool, iov: seq<Iov>, chunkIov: nat, chunks: seq<Data>, total: nat, tosend: nat)

  function Len(v: Iov): nat {
    if v.Plain? then |v.data| else v.left
  }

  function Sum(q: seq<Iov>): nat {
    if q == [] then 0 else Sum(q[..|q| - 1]) + Len(q[|q| - 1])
  }

  /** What resp_add_iov and resp_add_chunked_iov build, and partial sends keep. */
  ghost predicate RespOk(r: Resp) {
    && |r.iov| <= MC_RESP_IOVCOUNT && r.tosend == Sum(r.iov)
    && (r.chunkIov > 0 ==> r.chunkIov < |r.iov| && r.total <= |Concat(r.chunks)|)
    && forall i: nat :: IovOk(r, i)
  }

  /** Every iovec is plain but the one for the chunked item. */
  ghost predicate IovOk(r: Resp, i: nat) {
    i < |r.iov| ==>
      if i > 0 && i == r.chunkIov then r.iov[i].Chunked? && r.iov[i].left <= r.total else r.iov[i].Plain?
  }

  ghost predicate OkAt(q: seq<Resp>, i: nat) {
    i < |q| ==> RespOk(q[i])
  }

  ghost predicate QueueOk(q: seq<Resp>) {
    forall i: nat :: OkAt(q, i)
  }

  // ---------------------------------------------------------------- the pending byte stream

  /** The bytes an iovec of the response still stands for. */
  ghost function Bytes(r: Resp, v: Iov): Data {
    match v
    case Plain(d) => d
    case Chunked(left) => if left <= r.total <= |Concat(r.chunks)| then Concat(r.chunks)[r.total - left..r.total] else []
  }

  ghost function Pieces(r: Resp): seq<Data> {
    PiecesOf(r, r.iov)
  }

  ghost function PiecesOf(r: Resp, iov: seq<Iov>): (d: seq<Data>)
    ensures |d| == |iov|
  {
    if iov == [] then [] else PiecesOf(r, iov[..|iov| - 1]) + [Bytes(r, iov[|iov| - 1])]
  }

  ghost function Unsent(r: Resp): Data {
    if r.skip then [] else Concat(Pieces(r))
  }

  ghost function Parts(q: seq<Resp>): (d: seq<Data>)
    ensures |d| == |q|
  {
    if q == [] then [] else Parts(q[..|q| - 1]) + [Unsent(q[|q| - 1])]
  }

  /** All that is still to be sent, in order. */
  ghost function Pending(q: seq<Resp>): Data {
    Concat(Parts(q))
  }

  // ---------------------------------------------------------------- sequences

  lemma {:induction false} JoinHead(q: seq<Data>)
    requires q != []
    ensures Concat(q) == q[0] + Concat(q[1..])
  {
    if |q| > 1 {
      var front := q[..|q| - 1];
      JoinHead(front);
      assert front[1..] == q[1..][..|q| - 2];
    }
  }

  lemma {:induction false} PieceAt(r: Resp, iov: seq<Iov>, i: nat)
    requires i < |iov|
    ensures PiecesOf(r, iov)[i] == Bytes(r, iov[i])
  {
    if i < |iov| - 1 { PieceAt(r, iov[..|iov| - 1], i); }
  }

  lemma {:induction false} PartAt(q: seq<Resp>, i: nat)
    requires i < |q|
    ensures Parts(q)[i] == Unsent(q[i])
  {
    if i < |q| - 1 { PartAt(q[..|q| - 1], i); }
  }

  lemma {:induction false} PartsPrefix(q: seq<Resp>, n: nat)
    requires n <= |q|
    ensures Parts(q[..n]) == Parts(q)[..n]
  {
    if n < |q| {
      PartsPrefix(q[..|q| - 1], n);
      assert q[..|q| - 1][..n] == q[..n];
    } else {
      assert q[..n] == q;
    }
  }

  lemma {:induction false} PartsSuffix(q: seq<Resp>, k: nat)
    requires k <= |q|
    ensures Parts(q[k..]) == Parts(q)[k..]
  {
    if k < |q| {
      PartsSuffix(q[..|q| - 1], k);
      assert q[k..][..|q| - 1 - k] == q[..|q| - 1][k..];
    }
  }

  lemma {:induction false} JoinLength(r: Resp, n: nat)
    requires RespOk(r) && n <= |r.iov|
    ensures |Concat(Pieces(r)[..n])| == Sum(r.iov[..n])
  {
    if n > 0 {
      JoinLength(r, n - 1);
      assert IovOk(r, n - 1);
      PieceAt(r, r.iov, n - 1);
      ConcatNext(Pieces(r), n - 1);
      assert r.iov[..n][..n - 1] == r.iov[..n - 1];
    }
  }

  lemma UnsentLength(r: Resp)
    requires RespOk(r)
    ensures |Unsent(r)| == if r.skip then 0 else r.tosend
  {
    JoinLength(r, |r.iov|);
    assert r.iov[..|r.iov|] == r.iov && Pieces(r)[..|r.iov|] == Pieces(r);
  }

  lemma PendingAppend(q: seq<Resp>, r: Resp)
    ensures Pending(q + [r]) == Pending(q) + Unsent(r)
  {
    assert (q + [r])[..|q|] == q;
    ConcatPush(Parts(q), Unsent(r));
  }

  lemma PendingNext(q: seq<Resp>, i: nat)
    requires i < |q|
    ensures Pending(q[..i + 1]) == Pending(q[..i]) + Unsent(q[i])
  {
    PendingAppend(q[..i], q[i]);
    assert q[..i] + [q[i]] == q[..i + 1];
  }

  lemma PendingPrefix(q: seq<Resp>, i: nat)
    requires i <= |q|
    ensures Pending(q[..i]) <= Pending(q)
  {
    PartsPrefix(q, i);
    ConcatPrefix(Parts(q), i);
  }

  lemma PendingHead(q: seq<Resp>)
    requires q != []
    ensures Pending(q) == Unsent(q[0]) + Pending(q[1..])
  {
    PartsSuffix(q, 1);
    PartAt(q, 0);
    JoinHead(Parts(q));
  }

  // ---------------------------------------------------------------- building a response

  function AddIov(r: Resp, d: Data): Resp {
    r.(iov := r.iov + [Plain(d)], tosend := r.tosend + |d|)
  }

  function AddChunkedIov(r: Resp, chunks: seq<Data>, len: nat): Resp {
    r.(chunkIov := |r.iov|, chunks := chunks, total := len, iov := r.iov + [Chunked(len)], tosend := r.tosend + len)
  }

  lemma SumAppend(q: seq<Iov>, v: Iov)
    ensures Sum(q + [v]) == Sum(q) + Len(v)
  {
    assert (q + [v])[..|q|] == q;
  }

  /** resp_add_iov puts its bytes at the end of the response. */
  lemma AddIovAppends(r: Resp, d: Data)
    requires RespOk(r) && !r.skip && |r.iov| < MC_RESP_IOVCOUNT
    ensures RespOk(AddIov(r, d)) && Unsent(AddIov(r, d)) == Unsent(r) + d
  {
    var t := AddIov(r, d);
    SumAppend(r.iov, Plain(d));
    forall i: nat ensures IovOk(t, i) { assert IovOk(r, i); }
    SamePieces(r, t, r.iov);
    assert t.iov[..|r.iov|] == r.iov;
    ConcatPush(Pieces(r), d);
  }

  lemma {:induction false} SamePieces(r: Resp, t: Resp, iov: seq<Iov>)
    requires (t.total == r.total && t.chunks == r.chunks) || forall i :: 0 <= i < |iov| ==> iov[i].Plain?
    ensures PiecesOf(t, iov) == PiecesOf(r, iov)
  {
    if iov != [] { SamePieces(r, t, iov[..|iov| - 1]); }
  }

  lemma ChunkedOk(r: Resp, chunks: seq<Data>, len: nat)
    requires RespOk(r) && 0 < |r.iov| < MC_RESP_IOVCOUNT && r.chunkIov == 0 && len <= |Concat(chunks)|
    ensures RespOk(AddChunkedIov(r, chunks, len))
  {
    var t := AddChunkedIov(r, chunks, len);
    SumAppend(r.iov, Chunked(len));
    forall i: nat ensures IovOk(t, i) { assert IovOk(r, i); }
  }

  /** The place of the chunked iovec is kept as a number of which zero means none: a first one is taken for a plain one. */
  lemma FirstIsNotChunked(r: Resp, chunks: seq<Data>, len: nat)
    requires r.iov == []
    ensures !RespOk(AddChunkedIov(r, chunks, len))
  {
    assert !IovOk(AddChunkedIov(r, chunks, len), 0);
  }

  lemma ChunkedAtEnd(r: Resp, chunks: seq<Data>, len: nat)
    requires RespOk(r) && !r.skip && 0 < |r.iov| && r.chunkIov == 0 && len <= |Concat(chunks)|
    ensures Unsent(AddChunkedIov(r, chunks, len)) == Unsent(r) + Concat(chunks)[..len]
  {
    var t := AddChunkedIov(r, chunks, len);
    forall i | 0 <= i < |r.iov| ensures r.iov[i].Plain? { assert IovOk(r, i); }
    SamePieces(r, t, r.iov);
    assert t.iov[..|r.iov|] == r.iov;
    ConcatPush(Pieces(r), Concat(chunks)[0..len]);
    assert Concat(chunks)[0..len] == Concat(chunks)[..len];
  }

  /** resp_add_chunked_iov makes a response to be sent exactly when it is not the first iovec: then its bytes are at the end. */
  lemma AddChunkedAppends(r: Resp, chunks: seq<Data>, len: nat)
    requires RespOk(r) && !r.skip && |r.iov| < MC_RESP_IOVCOUNT && r.chunkIov == 0 && len <= |Concat(chunks)|
    ensures RespOk(AddChunkedIov(r, chunks, len)) <==> r.iov != []
    ensures r.iov != [] ==> Unsent(AddChunkedIov(r, chunks, len)) == Unsent(r) + Concat(chunks)[..len]
  {
    if r.iov == [] {
      FirstIsNotChunked(r, chunks, len);
    } else {
      ChunkedOk(r, chunks, len);
      ChunkedAtEnd(r, chunks, len);
    }
  }

  // ---------------------------------------------------------------- gathering

  /** The loop over the chunks of an item: the iovecs gained, and whether the item was gathered to its end. */
  method GatherChunks(r: Resp, left: nat, iovs0: seq<Data>) returns (iovs: seq<Data>)
    requires left <= r.total <= |Concat(r.chunks)| && |iovs0| <= IOV_MAX - 1
    ensures |iovs| <= IOV_MAX - 1 && Concat(iovs) <= Concat(iovs0) + Bytes(r, Chunked(left))
    ensures |iovs| < IOV_MAX - 1 ==> Concat(iovs) == Concat(iovs0) + Bytes(r, Chunked(left))
  {
    iovs := iovs0;
    ghost var body, sent := Concat(r.chunks), r.total - left;
    ghost var upto := sent;
    var done, todo: int, ch := r.total - left, left, 0;
    assert r.chunks[..0] == [];
    while ch < |r.chunks| && todo > 0 && |iovs| < IOV_MAX - 1
      invariant 0 <= ch <= |r.chunks| && |iovs| <= IOV_MAX - 1 && 0 <= done && todo <= left
      invariant |Concat(r.chunks[..ch])| + done == sent + left - todo
      invariant done > 0 ==> todo == left
      invariant sent <= upto <= |body| && upto == if todo > 0 then r.total - todo else r.total
      invariant Concat(iovs) == Concat(iovs0) + body[sent..upto]
      decreases |r.chunks| - ch
    {
      var used := |r.chunks[ch]|;
      ConcatNext(r.chunks, ch);
      if used == 0 {
        ch := ch + 1;
        continue;
      }
      var skip := 0;
      if done >= used {
        done := done - used;
        ch := ch + 1;
        continue;
      } else if done > 0 {
        skip := done;
        done := 0;
      }
      var n := if used - skip > todo then todo else used - skip;
      assert upto == |Concat(r.chunks[..ch])| + skip;
      GatherStep(body, Concat(r.chunks[..ch]), r.chunks[ch], skip, n, sent, upto, Concat(iovs0));
      ConcatPush(iovs, r.chunks[ch][skip..skip + n]);
      iovs := iovs + [r.chunks[ch][skip..skip + n]];
      todo := todo - (used - skip);
      upto := upto + n;
      ch := ch + 1;
    }
    GatherEnd(r, ch, done, left, todo);
  }

  lemma Extend(before: Data, body: Data, lo: nat, mid: nat, hi: nat)
    requires lo <= mid <= hi <= |body|
    ensures (before + body[lo..mid]) + body[mid..hi] == before + body[lo..hi]
  {
    assert body[lo..mid] + body[mid..hi] == body[lo..hi];
  }

  /** A piece of a chunk gathered behind the bytes up to it; `a` is what comes before the chunk in `body`. */
  lemma GatherStep(body: Data, a: Data, chunk: Data, skip: nat, n: nat, sent: nat, at: nat, before: Data)
    requires a + chunk <= body && skip + n <= |chunk| && sent <= at == |a| + skip
    ensures (before + body[sent..at]) + chunk[skip..skip + n] == before + body[sent..at + n]
  {
    PrefixSlice(body, a, chunk, skip, skip + n);
    Extend(before, body, sent, at, at + n);
  }

  lemma GatherEnd(r: Resp, ch: nat, done: nat, left: nat, todo: int)
    requires ch <= |r.chunks| && todo <= left <= r.total <= |Concat(r.chunks)|
    requires |Concat(r.chunks[..ch])| + done == r.total - todo && (done > 0 ==> todo == left)
    ensures ch == |r.chunks| ==> todo <= 0
  {
    assert r.chunks[..|r.chunks|] == r.chunks;
  }

  /** The iovecs for one iovec of a response. */
  method GatherIov(r: Resp, x: nat, iovs0: seq<Data>) returns (iovs: seq<Data>)
    requires RespOk(r) && x < |r.iov| && |iovs0| < IOV_MAX - 1
    ensures |iovs| <= IOV_MAX - 1 && Concat(iovs) <= Concat(iovs0) + Bytes(r, r.iov[x])
    ensures |iovs| < IOV_MAX - 1 ==> Concat(iovs) == Concat(iovs0) + Bytes(r, r.iov[x])
  {
    assert IovOk(r, x);
    if r.chunkIov > 0 && x == r.chunkIov {
      iovs := GatherChunks(r, r.iov[x].left, iovs0);
    } else {
      ConcatPush(iovs0, r.iov[x].data);
      iovs := iovs0 + [r.iov[x].data];
    }
  }

  /** What one response adds; cut short only when the iovecs are used up. */
  method GatherResp(r: Resp, iovs0: seq<Data>) returns (iovs: seq<Data>)
    requires RespOk(r) && !r.skip && |iovs0| + |r.iov| < IOV_MAX - 1
    ensures |iovs| <= IOV_MAX - 1 && Concat(iovs) <= Concat(iovs0) + Unsent(r)
    ensures |iovs| < IOV_MAX - 1 ==> Concat(iovs) == Concat(iovs0) + Unsent(r)
  {
    iovs := iovs0;
    ghost var pieces := Pieces(r);
    assert pieces[..0] == [] && pieces[..|r.iov|] == pieces;
    var x := 0;
    while x < |r.iov|
      invariant 0 <= x <= |r.iov| && |iovs| < IOV_MAX - 1
      invariant Concat(iovs) == Concat(iovs0) + Concat(pieces[..x])
    {
      ConcatNext(pieces, x);
      PieceAt(r, r.iov, x);
      iovs := GatherIov(r, x, iovs);
      GatherPrefix(Concat(iovs0), Unsent(r), Concat(pieces[..x]), pieces[x], Concat(iovs));
      if |iovs| >= IOV_MAX - 1 {
        return;
      }
      x := x + 1;
    }
  }

  lemma GatherPrefix(before: Data, all: Data, sofar: Data, piece: Data, got: Data)
    requires sofar + piece <= all && got <= (before + sofar) + piece
    ensures got <= before + all
    ensures (before + sofar) + piece == before + (sofar + piece)
  {
  }

  lemma ShortIovs(q: seq<Resp>)
    requires QueueOk(q)
    ensures forall j :: 0 <= j < |q| ==> |q[j].iov| <= MC_RESP_IOVCOUNT
  {
    forall j: nat | j < |q| ensures |q[j].iov| <= MC_RESP_IOVCOUNT { assert OkAt(q, j); }
  }

  /** _transmit_pre: the gathered iovecs are a prefix of the pending byte stream. */
  method TransmitPre(q: seq<Resp>) returns (iovs: seq<Data>)
    requires QueueOk(q)
    ensures |iovs| < IOV_MAX && Concat(iovs) <= Pending(q)
    ensures iovs == [] ==> Pending(q) == []
  {
    iovs := [];
    var i := 0;
    assert q[..0] == [] && q[..|q|] == q;
    while i < |q| && |iovs| + |q[i].iov| < IOV_MAX - 1
      invariant 0 <= i <= |q| && |iovs| <= IOV_MAX - 1 && Concat(iovs) <= Pending(q)
      invariant |iovs| < IOV_MAX - 1 ==> Concat(iovs) == Pending(q[..i])
      invariant iovs == [] ==> Pending(q[..i]) == []
    {
      PendingNext(q, i);
      PendingPrefix(q, i + 1);
      if !q[i].skip {
        assert OkAt(q, i);
        iovs := GatherResp(q[i], iovs);
      }
      i := i + 1;
    }
    ShortIovs(q);
    assert iovs == [] ==> i == |q|;
  }

  // ---------------------------------------------------------------- after a send

  lemma {:induction false} SumUpdate(q: seq<Iov>, i: nat, v: Iov)
    requires i < |q|
    ensures Sum(q[i := v]) == Sum(q) - Len(q[i]) + Len(v)
  {
    var last := |q| - 1;
    if i == last {
      assert q[i := v][..last] == q[..last];
    } else {
      SumUpdate(q[..last], i, v);
      assert q[i := v][..last] == q[..last][i := v];
    }
  }

  lemma {:induction false} SumPrefix(q: seq<Iov>, i: nat)
    requires i < |q|
    ensures Sum(q[..i + 1]) == Sum(q[..i]) + Len(q[i]) <= Sum(q)
  {
    assert q[..i + 1][..i] == q[..i];
    if i + 1 < |q| {
      SumPrefix(q[..|q| - 1], i);
      assert q[..|q| - 1][..i + 1] == q[..i + 1];
      assert q[..|q| - 1][..i] == q[..i];
    } else {
      assert q[..i + 1] == q;
    }
  }

  /** An iovec with its first n bytes sent. */
  function Shortened(v: Iov, n: nat): Iov
    requires n <= Len(v)
  {
    match v
    case Plain(d) => Plain(d[n..])
    case Chunked(left) => Chunked(left - n)
  }

  lemma ShortenedBytes(r: Resp, x: nat, n: nat)
    requires RespOk(r) && x < |r.iov| && n <= Len(r.iov[x])
    ensures |Bytes(r, r.iov[x])| == Len(r.iov[x])
    ensures Bytes(r, Shortened(r.iov[x], n)) == Bytes(r, r.iov[x])[n..]
  {
    assert IovOk(r, x);
    if r.iov[x].Chunked? {
      var left := r.iov[x].left;
      SliceSlice(Concat(r.chunks), r.total - left, r.total, n, left);
    }
  }

  /** The response with iovec x shortened by n bytes. */
  function Advanced(r: Resp, x: nat, n: nat): Resp
    requires x < |r.iov| && n <= Len(r.iov[x]) && n <= r.tosend
  {
    r.(iov := r.iov[x := Shortened(r.iov[x], n)], tosend := r.tosend - n)
  }

  lemma AdvancedPieces(r: Resp, x: nat, n: nat)
    requires RespOk(r) && x < |r.iov| && n <= Len(r.iov[x]) && n <= r.tosend
    ensures n <= |Bytes(r, r.iov[x])| && Pieces(Advanced(r, x, n)) == Pieces(r)[x := Bytes(r, r.iov[x])[n..]]
  {
    ShortenedBytes(r, x, n);
    var t := Advanced(r, x, n);
    var p, d := Pieces(t), Pieces(r)[x := Bytes(r, r.iov[x])[n..]];
    forall i | 0 <= i < |p| ensures p[i] == d[i] {
      PieceAt(t, t.iov, i);
      PieceAt(r, r.iov, i);
    }
  }

  lemma AdvancedOk(r: Resp, x: nat, n: nat)
    requires RespOk(r) && x < |r.iov| && n <= Len(r.iov[x])
    ensures n <= r.tosend && RespOk(Advanced(r, x, n))
  {
    SumPrefix(r.iov, x);
    SumUpdate(r.iov, x, Shortened(r.iov[x], n));
    forall i: nat ensures IovOk(Advanced(r, x, n), i) { assert IovOk(r, i); }
  }

  /** When everything before element i is empty, shortening it shortens the whole. */
  lemma {:induction false} JoinShortened(q: seq<Data>, i: nat, n: nat)
    requires i < |q| && n <= |q[i]| && forall j :: 0 <= j < i ==> q[j] == []
    ensures n <= |Concat(q)| && Concat(q[i := q[i][n..]]) == Concat(q)[n..]
  {
    JoinHead(q);
    var r := q[i := q[i][n..]];
    JoinHead(r);
    if i == 0 {
      assert r[1..] == q[1..];
      assert (q[0] + Concat(q[1..]))[n..] == q[0][n..] + Concat(q[1..]);
    } else {
      JoinShortened(q[1..], i - 1, n);
      assert r[1..] == q[1..][i - 1 := q[i][n..]];
    }
  }

  lemma {:induction false} JoinEmpty(q: seq<Data>)
    requires forall j :: 0 <= j < |q| ==> q[j] == []
    ensures Concat(q) == []
  {
    if q != [] { JoinEmpty(q[..|q| - 1]); }
  }

  /** The iovecs before x have been sent. */
  ghost predicate Cleared(r: Resp, x: nat) {
    x <= |r.iov| && forall j :: 0 <= j < x ==> Pieces(r)[j] == []
  }

  lemma AllCleared(r: Resp)
    requires RespOk(r) && !r.skip && Cleared(r, |r.iov|)
    ensures r.tosend == 0
  {
    UnsentLength(r);
    JoinEmpty(Pieces(r));
  }

  /** One turn of the loop over the iovecs: as much as was sent of iovec x is taken off. */
  method ConsumeIov(r0: Resp, x: nat, res: nat, ghost all: Data, ghost sent: nat) returns (r: Resp, n: nat)
    requires RespOk(r0) && !r0.skip && x < |r0.iov| && Cleared(r0, x)
    requires sent <= |all| && Unsent(r0) == all[sent..]
    ensures n == if res >= Len(r0.iov[x]) then Len(r0.iov[x]) else res
    ensures RespOk(r) && !r.skip && |r.iov| == |r0.iov| && r.tosend == r0.tosend - n
    ensures sent + n <= |all| && Unsent(r) == all[sent + n..]
    ensures n == Len(r0.iov[x]) ==> Cleared(r, x + 1)
  {
    n := if res >= Len(r0.iov[x]) then Len(r0.iov[x]) else res;
    AdvancedOk(r0, x, n);
    AdvancedPieces(r0, x, n);
    ShortenedBytes(r0, x, n);
    PieceAt(r0, r0.iov, x);
    JoinShortened(Pieces(r0), x, n);
    SliceTail(all, sent, n);
    r := Advanced(r0, x, n);
  }

  /** The loop over the iovecs of a response that was not sent in full. */
  method Consume(r0: Resp, res0: nat) returns (r: Resp, res: nat)
    requires RespOk(r0) && !r0.skip
    ensures RespOk(r) && !r.skip
    ensures r.tosend == (if res0 >= r0.tosend then 0 else r0.tosend - res0)
    ensures res == res0 - (r0.tosend - r.tosend) && res0 - res <= |Unsent(r0)| && Unsent(r) == Unsent(r0)[res0 - res..]
  {
    r, res := r0, res0;
    ghost var all, sent := Unsent(r0), 0;
    assert all[0..] == all;
    var x, jammed := 0, false;
    while x < |r.iov| && !jammed
      invariant 0 <= x <= |r.iov| && RespOk(r) && !r.skip
      invariant 0 <= sent <= |all| && sent + res == res0 && Unsent(r) == all[sent..] && r.tosend + sent == r0.tosend
      invariant if jammed then res == 0 else Cleared(r, x)
      decreases |r.iov| - x, !jammed
    {
      var n;
      jammed := res < Len(r.iov[x]);
      r, n := ConsumeIov(r, x, res, all, sent);
      res, sent := res - n, sent + n;
      if !jammed { x := x + 1; }
    }
    if !jammed { AllCleared(r); }
  }

  lemma SliceTail(d: Data, a: nat, n: nat)
    requires a <= |d| && n <= |d[a..]|
    ensures d[a..][n..] == d[a + n..]
  {
  }

  lemma DropPart(all: Data, head: Data, rest: Data, a: nat, n: nat)
    requires a <= |all| && all[a..] == head + rest && n <= |head|
    ensures a + n <= |all| && all[a + n..] == head[n..] + rest
  {
    assert all[a + n..] == all[a..][n..] == (head + rest)[n..];
  }

  /** How many bytes of a response a send can still take. */
  function ToSend(r: Resp): nat {
    if r.skip then 0 else r.tosend
  }

  lemma JoinTail(q: seq<Data>, k: nat)
    requires k < |q|
    ensures Concat(q[k..]) == q[k] + Concat(q[k + 1..])
  {
    JoinHead(q[k..]);
    assert q[k..][1..] == q[k + 1..];
  }

  /**
   * The responses that are skipped or were sent in full are finished; `res` bytes are left for the next one.
   * `parts` is what each response stands for.
   */
  method FinishSent(q: seq<Resp>, res0: nat, ghost parts: seq<Data>) returns (k: nat, res: nat)
    requires |parts| == |q| && forall i :: 0 <= i < |q| ==> |parts[i]| == ToSend(q[i])
    requires res0 <= |Concat(parts)|
    ensures k <= |q| && res <= res0 && Concat(parts)[res0 - res..] == Concat(parts[k..])
    ensures k < |q| ==> !q[k].skip && res < q[k].tosend
  {
    k, res := 0, res0;
    ghost var all, sent := Concat(parts), 0;
    assert parts[0..] == parts && all[0..] == all;
    while k < |q| && (q[k].skip || res >= q[k].tosend)
      invariant k <= |q| && 0 <= sent && sent + res == res0 && all[sent..] == Concat(parts[k..])
    {
      JoinTail(parts, k);
      DropPart(all, parts[k], Concat(parts[k + 1..]), sent, ToSend(q[k]));
      if !q[k].skip {
        res := res - q[k].tosend;
      }
      sent := sent + ToSend(q[k]);
      k := k + 1;
    }
  }

  lemma PartsOf(q: seq<Resp>, k: nat)
    requires QueueOk(q) && k <= |q|
    ensures forall i :: 0 <= i < |q| ==> |Parts(q)[i]| == ToSend(q[i])
    ensures Concat(Parts(q)[k..]) == Pending(q[k..])
  {
    forall i | 0 <= i < |q| ensures |Parts(q)[i]| == ToSend(q[i]) {
      assert OkAt(q, i);
      UnsentLength(q[i]);
      PartAt(q, i);
    }
    PartsSuffix(q, k);
  }

  /** The same in terms of the queue. */
  method FinishQueue(q: seq<Resp>, res0: nat) returns (k: nat, res: nat)
    requires QueueOk(q) && res0 <= |Pending(q)|
    ensures k <= |q| && res <= res0 && Pending(q)[res0 - res..] == Pending(q[k..])
    ensures k < |q| ==> !q[k].skip && res < q[k].tosend
  {
    PartsOf(q, 0);
    assert q[0..] == q && Parts(q)[0..] == Parts(q);
    k, res := FinishSent(q, res0, Parts(q));
    PartsOf(q, k);
  }

  lemma Dropped(q: seq<Resp>, k: nat, a: nat, n: nat, rest: Resp)
    requires k < |q| && a <= |Pending(q)| && Pending(q)[a..] == Pending(q[k..])
    requires n <= |Unsent(q[k])| && Unsent(rest) == Unsent(q[k])[n..]
    ensures a + n <= |Pending(q)| && Pending([rest] + q[k + 1..]) == Pending(q)[a + n..]
  {
    PendingTail(q, k);
    DropPart(Pending(q), Unsent(q[k]), Pending(q[k + 1..]), a, n);
    PendingCons(rest, q[k + 1..]);
  }

  lemma AllSent(q: seq<Resp>, res0: nat, res: nat)
    requires res <= res0 <= |Pending(q)| && Pending(q)[res0 - res..] == Pending(q[|q|..])
    ensures Pending([]) == Pending(q)[res0..]
  {
    PendingNil();
    assert q[|q|..] == [];
  }

  lemma QueueCons(r: Resp, q: seq<Resp>, k: nat)
    requires RespOk(r) && QueueOk(q) && k <= |q|
    ensures QueueOk([r] + q[k..])
  {
    forall i: nat ensures OkAt([r] + q[k..], i) {
      if 0 < i { assert OkAt(q, k + i - 1); }
    }
  }

  lemma QueueAppend(q: seq<Resp>, r: Resp)
    requires RespOk(r) && QueueOk(q)
    ensures QueueOk(q + [r])
  {
    forall i: nat ensures OkAt(q + [r], i) { assert OkAt(q, i); }
  }

  /** The head of the queue after a send that stopped inside it. */
  method PostHead(q0: seq<Resp>, k: nat, res: nat, ghost sent: nat) returns (q: seq<Resp>)
    requires QueueOk(q0) && k < |q0| && !q0[k].skip && res < q0[k].tosend
    requires sent <= |Pending(q0)| && Pending(q0)[sent..] == Pending(q0[k..])
    ensures QueueOk(q) && q != [] && !q[0].skip && q[0].tosend > 0 && q[1..] == q0[k + 1..]
    ensures sent + res <= |Pending(q0)| && Pending(q) == Pending(q0)[sent + res..]
  {
    assert OkAt(q0, k);
    var rest, left := Consume(q0[k], res);
    Dropped(q0, k, sent, res, rest);
    QueueCons(rest, q0, k + 1);
    return [rest] + q0[k + 1..];
  }

  /** _transmit_post: exactly the bytes sent leave the stream, and the queue starts with unsent bytes if it is not empty. */
  method TransmitPost(q0: seq<Resp>, res0: nat) returns (q: seq<Resp>)
    requires QueueOk(q0) && res0 <= |Pending(q0)|
    ensures QueueOk(q) && Pending(q) == Pending(q0)[res0..]
    ensures q != [] ==> !q[0].skip && q[0].tosend > 0
    ensures q != [] ==> exists k :: 0 < k <= |q0| && q[1..] == q0[k..]
  {
    var k, res := FinishQueue(q0, res0);
    if k == |q0| {
      AllSent(q0, res0, res);
      return [];
    }
    q := PostHead(q0, k, res, res0 - res);
  }

  lemma PendingNil()
    ensures Pending([]) == []
  {
  }

  lemma PendingCons(r: Resp, q: seq<Resp>)
    ensures Pending([r] + q) == Unsent(r) + Pending(q)
  {
    PendingHead([r] + q);
    assert ([r] + q)[1..] == q;
  }

  lemma PendingTail(q: seq<Resp>, k: nat)
    requires k < |q|
    ensures Pending(q[k..]) == Unsent(q[k]) + Pending(q[k + 1..])
  {
    PendingHead(q[k..]);
    assert q[k..][1..] == q[k + 1..];
  }

  // ---------------------------------------------------------------- a connection

  datatype Result = Complete | Incomplete | Failed

  /** `queued` is every byte of every response that is not skipped, `wire` what the socket has taken. */
  class Conn {
    var resps: seq<Resp>
    ghost var queued: Data
    ghost var wire: Data

    ghost predicate Valid()
      reads this
    {
      QueueOk(resps) && wire + Pending(resps) == queued
    }

    constructor ()
      ensures Valid() && resps == [] && queued == []
    {
      resps, queued, wire := [], [], [];
    }

    /** A finished response joins the end of the queue. */
    method Add(r: Resp)
      requires Valid() && RespOk(r)
      modifies this
      ensures Valid() && queued == old(queued) + Unsent(r) && wire == old(wire)
    {
      PendingAppend(resps, r);
      QueueAppend(resps, r);
      resps := resps + [r];
      queued := queued + Unsent(r);
      assert wire + (old(Pending(resps)) + Unsent(r)) == (wire + old(Pending(resps))) + Unsent(r);
    }

    /** transmit; the socket takes up to `accepts` bytes of what it is offered, or fails. */
    method Transmit(accepts: Option<nat>) returns (result: Result)
      requires Valid()
      modifies this
      ensures Valid() && queued == old(queued) && old(wire) <= wire
      ensures result == Complete ==> resps == [] && wire == queued
      ensures result == Failed ==> wire == old(wire) && resps == old(resps)
    {
      var iovs := TransmitPre(resps);
      if iovs == [] {
        resps := TransmitPost(resps, 0);
        UnsentHead(resps);
        return Complete;
      }
      if accepts.None? { return Failed; }
      var res := if accepts.value < |Concat(iovs)| then accepts.value else |Concat(iovs)|;
      ghost var pending := Pending(resps);
      resps := TransmitPost(resps, res);
      wire := wire + Concat(iovs)[..res];
      Sent(old(wire), pending, Concat(iovs), res);
      UnsentHead(resps);
      result := if resps == [] then Complete else Incomplete;
    }
  }

  lemma Sent(wire: Data, pending: Data, offered: Data, res: nat)
    requires offered <= pending && res <= |offered|
    ensures (wire + offered[..res]) + pending[res..] == wire + pending
  {
  }

  /** A queue as a send leaves it has unsent bytes exactly when it is not empty. */
  lemma UnsentHead(q: seq<Resp>)
    requires QueueOk(q) && (q != [] ==> !q[0].skip && q[0].tosend > 0)
    ensures Pending(q) == [] <==> q == []
  {
    if q != [] {
      PendingHead(q);
      assert OkAt(q, 0);
      UnsentLength(q[0]);
    }
  }
}
