/**
 * Store commands and increments over the cache as a map of values (do_store_item and do_add_delta in
 * memcached_SendBuffer.c), with the compare-and-swap ids that get_cas_id hands out. CAS ids are switched on.
 */
module Cas {
  import opened Base
  import opened ChunkData

  type Key = seq<Byte>

  /** A value as stored, its CRLF included. */
  datatype Entry = Entry(value: Data, cas: nat, chunked: bool)

  datatype Cache = Cache(store: map<Key, Entry>, casId: nat)

  datatype Comm = Add | Set | Replace | Append | Prepend | CompareAndSwap | AppendViv | PrependViv

  /** The item of a store command; `token` is the CAS id the client sent, 0 for none. */
  datatype Command = Command(comm: Comm, key: Key, value: Data, token: nat, chunked: bool)

  datatype Stored = NotStored | WasStored | Exists | NotFound

  /**
   * What a command meets: whether the old item is past its time, whether a stale value may be set, and whether
   * there is memory for the item that append and prepend build.
   */
  datatype Env = Env(gone: bool, stale: bool, room: bool)

  /** A value enters the cache under a new CAS id. */
  function Put(c: Cache, k: Key, v: Data, chunked: bool): Cache {
    Cache(c.store[k := Entry(v, c.casId + 1, chunked)], c.casId + 1)
  }

  function Remove(c: Cache, k: Key): Cache {
    c.(store := c.store - {k})
  }

  /** do_item_get of an item whose time may be past. */
  function Fetch(c: Cache, k: Key, gone: bool): Cache {
    if gone then Remove(c, k) else c
  }

  predicate Appends(comm: Comm) {
    comm == Append || comm == AppendViv
  }

  predicate ValuesOk(c: Cache) {
    forall k :: k in c.store ==> |c.store[k].value| >= 2
  }

  // ---------------------------------------------------------------- do_store_item

  /** There is an old item. */
  function StoreOver(c: Cache, cmd: Command, e: Env): (Cache, Stored)
    requires cmd.key in c.store && ValuesOk(c) && |cmd.value| >= 2
  {
    var prior := c.store[cmd.key];
    match cmd.comm
    case Add => (c, NotStored)
    case CompareAndSwap =>
      if cmd.token != 0 && (cmd.token == prior.cas || (e.stale && cmd.token < prior.cas)) then
        (Put(c, cmd.key, cmd.value, cmd.chunked), WasStored)
      else (c, Exists)
    case Set => (Put(c, cmd.key, cmd.value, cmd.chunked), WasStored)
    case Replace => (Put(c, cmd.key, cmd.value, cmd.chunked), WasStored)
    case _ =>
      if cmd.token != 0 && cmd.token != prior.cas then (c, Exists)
      else if !e.room then (c, NotStored)
      else (Put(c, cmd.key, Joined(Appends(cmd.comm), prior.value, cmd.value), cmd.chunked), WasStored)
  }

  /** There is no old item. */
  function StoreNew(c: Cache, cmd: Command): (Cache, Stored) {
    match cmd.comm
    case CompareAndSwap => (c, NotFound)
    case Replace => (c, NotStored)
    case Append => (c, NotStored)
    case Prepend => (c, NotStored)
    case _ => (Put(c, cmd.key, cmd.value, cmd.chunked), WasStored)
  }

  function StoreItem(c: Cache, cmd: Command, e: Env): (Cache, Stored)
    requires ValuesOk(c) && |cmd.value| >= 2
  {
    var d := Fetch(c, cmd.key, e.gone);
    if cmd.key in d.store then StoreOver(d, cmd, e) else StoreNew(d, cmd)
  }

  // ---------------------------------------------------------------- do_add_delta

  const TWO_64 := 0x1_0000_0000_0000_0000

  function Digits(n: nat): (d: Data)
    ensures |d| >= 1
  {
    if n < 10 then [n + 48] else Digits(n / 10) + [n % 10 + 48]
  }

  function Spaces(n: nat): (d: Data)
    ensures |d| == n
  {
    if n == 0 then [] else [32] + Spaces(n - 1)
  }

  /** safe_strtoull: the number a value holds, if it holds one. */
  type Parser = Data -> Option<nat>

  /** `alone` says that nobody but the caller holds the item. */
  datatype Delta = Delta(key: Key, incr: bool, delta: int, token: nat, alone: bool, gone: bool, room: bool)

  datatype DeltaResult = DeltaOk(value: nat, cas: nat) | NonNumeric | CasMismatch | DeltaNotFound | OutOfMemory

  /** The 64-bit arithmetic: increments wrap around, decrements stop at zero. */
  function Shifted(d: Delta, n: nat): nat {
    var amount := d.delta % TWO_64;
    if d.incr then (n + amount) % TWO_64 else if amount > n then 0 else n - amount
  }

  function AddDelta(c: Cache, parse: Parser, d: Delta): (Cache, DeltaResult)
    requires ValuesOk(c)
  {
    var f := Fetch(c, d.key, d.gone);
    if d.key !in f.store then (f, DeltaNotFound)
    else
      var prior := f.store[d.key];
      if |prior.value| <= 2 || prior.chunked then (f, NonNumeric)
      else if d.token != 0 && prior.cas != d.token then (f, CasMismatch)
      else if parse(prior.value).None? then (f, NonNumeric)
      else
        var n := Shifted(d, parse(prior.value).value);
        var text := Digits(n);
        var len := |prior.value|;
        if |text| + 2 <= len && d.alone then
          (Put(f, d.key, text + Spaces(len - |text| - 2) + prior.value[len - 2..], false), DeltaOk(n, f.casId + 1))
        else if !d.room then (f, OutOfMemory)
        else (Put(f, d.key, text + [13, 10], false), DeltaOk(n, f.casId + 1))
  }

  // ---------------------------------------------------------------- runs

  /** Deletions, evictions and expiry of other callers are all a removal. */
  datatype Op = DoStore(cmd: Command, e: Env) | DoDelta(d: Delta) | DoRemove(k: Key)

  function KeyOf(op: Op): Key {
    match op
    case DoStore(cmd, _) => cmd.key
    case DoDelta(d) => d.key
    case DoRemove(k) => k
  }

  predicate Enabled(op: Op) {
    op.DoStore? ==> |op.cmd.value| >= 2
  }

  function Next(c: Cache, parse: Parser, op: Op): Cache
    requires ValuesOk(c) && Enabled(op)
  {
    match op
    case DoStore(cmd, e) => StoreItem(c, cmd, e).0
    case DoDelta(d) => AddDelta(c, parse, d).0
    case DoRemove(k) => Remove(c, k)
  }

  lemma NextKeepsValues(c: Cache, parse: Parser, op: Op)
    requires ValuesOk(c) && Enabled(op)
    ensures ValuesOk(Next(c, parse, op))
  {
  }

  /** Ids handed out so far bound those in the cache, and no two keys share one. */
  ghost predicate CasOk(c: Cache) {
    && (forall k :: k in c.store ==> 0 < c.store[k].cas <= c.casId)
    && (forall i, j :: i in c.store && j in c.store && c.store[i].cas == c.store[j].cas ==> i == j)
  }

  ghost predicate IsRun(parse: Parser, states: seq<Cache>, ops: seq<Op>) {
    && |states| == |ops| + 1 && ValuesOk(states[0]) && CasOk(states[0])
    && forall i {:trigger ops[i]} :: 0 <= i < |ops| && ValuesOk(states[i]) ==>
         Enabled(ops[i]) && states[i + 1] == Next(states[i], parse, ops[i])
  }

  lemma {:induction false} RunKeepsValues(parse: Parser, states: seq<Cache>, ops: seq<Op>, n: nat)
    requires IsRun(parse, states, ops) && n <= |ops|
    ensures ValuesOk(states[n])
  {
    if n > 0 {
      RunKeepsValues(parse, states, ops, n - 1);
      NextKeepsValues(states[n - 1], parse, ops[n - 1]);
    }
  }

  /** Whatever an operation does to a key, it leaves the entry alone, takes it out, or gives it a new CAS id. */
  ghost predicate Moves(c: Cache, d: Cache) {
    && c.casId <= d.casId <= c.casId + 1
    && forall k :: k in d.store ==>
         if k in c.store && d.store[k] == c.store[k] then true else d.store[k].cas == d.casId == c.casId + 1
  }

  /** At most one key is touched. */
  ghost predicate OnlyKey(c: Cache, d: Cache, x: Key) {
    forall k :: k != x ==> (k in c.store <==> k in d.store) && (k in c.store ==> c.store[k] == d.store[k])
  }

  lemma StoreMoves(c: Cache, cmd: Command, e: Env)
    requires ValuesOk(c) && |cmd.value| >= 2
    ensures Moves(c, StoreItem(c, cmd, e).0) && OnlyKey(c, StoreItem(c, cmd, e).0, cmd.key)
  {
    var f := Fetch(c, cmd.key, e.gone);
    if cmd.key in f.store {
      StoreOverIsPut(f, cmd, e);
    } else {
      StoreNewIsPut(f, cmd);
    }
    FreshMoves(c, e.gone, StoreItem(c, cmd, e).0, cmd.key);
  }

  /** A change of one entry under a new CAS id. */
  predicate Fresh(f: Cache, d: Cache, k: Key) {
    d.casId == f.casId + 1 && k in d.store && d.store == f.store[k := d.store[k]] && d.store[k].cas == d.casId
  }

  lemma StoreOverIsPut(f: Cache, cmd: Command, e: Env)
    requires cmd.key in f.store && ValuesOk(f) && |cmd.value| >= 2
    ensures var d := StoreOver(f, cmd, e).0; d == f || Fresh(f, d, cmd.key)
  {
  }

  lemma StoreNewIsPut(f: Cache, cmd: Command)
    ensures var d := StoreNew(f, cmd).0; d == f || Fresh(f, d, cmd.key)
  {
  }

  lemma DeltaIsPut(c: Cache, parse: Parser, d: Delta)
    requires ValuesOk(c)
    ensures var f, r := Fetch(c, d.key, d.gone), AddDelta(c, parse, d).0; r == f || Fresh(f, r, d.key)
  {
  }

  lemma FreshMoves(c: Cache, gone: bool, d: Cache, k: Key)
    requires var f := Fetch(c, k, gone); d == f || Fresh(f, d, k)
    ensures Moves(c, d) && OnlyKey(c, d, k)
  {
  }

  lemma DeltaMoves(c: Cache, parse: Parser, d: Delta)
    requires ValuesOk(c)
    ensures Moves(c, AddDelta(c, parse, d).0) && OnlyKey(c, AddDelta(c, parse, d).0, d.key)
  {
    DeltaIsPut(c, parse, d);
    FreshMoves(c, d.gone, AddDelta(c, parse, d).0, d.key);
  }

  lemma NextMoves(c: Cache, parse: Parser, op: Op)
    requires ValuesOk(c) && Enabled(op)
    ensures Moves(c, Next(c, parse, op)) && OnlyKey(c, Next(c, parse, op), KeyOf(op))
  {
    match op
    case DoStore(cmd, e) => StoreMoves(c, cmd, e);
    case DoDelta(d) => DeltaMoves(c, parse, d);
    case DoRemove(_) =>
  }

  lemma NextKeepsCas(c: Cache, d: Cache, x: Key)
    requires CasOk(c) && Moves(c, d) && OnlyKey(c, d, x)
    ensures CasOk(d)
  {
    forall i, j | i in d.store && j in d.store && d.store[i].cas == d.store[j].cas ensures i == j {
      assert i != x ==> i in c.store && c.store[i] == d.store[i];
      assert j != x ==> j in c.store && c.store[j] == d.store[j];
    }
  }

  lemma {:induction false} RunKeepsCas(parse: Parser, states: seq<Cache>, ops: seq<Op>, n: nat)
    requires IsRun(parse, states, ops) && n <= |ops|
    ensures CasOk(states[n])
  {
    if n > 0 {
      RunKeepsCas(parse, states, ops, n - 1);
      RunKeepsValues(parse, states, ops, n - 1);
      NextMoves(states[n - 1], parse, ops[n - 1]);
      NextKeepsCas(states[n - 1], states[n], KeyOf(ops[n - 1]));
    }
  }

  lemma RunMoves(parse: Parser, states: seq<Cache>, ops: seq<Op>, n: nat)
    requires IsRun(parse, states, ops) && n < |ops|
    ensures Moves(states[n], states[n + 1])
  {
    RunKeepsValues(parse, states, ops, n);
    NextMoves(states[n], parse, ops[n]);
  }

  // ---------------------------------------------------------------- lost updates

  ghost predicate Bears(c: Cache, k: Key, token: nat) {
    k in c.store && c.store[k].cas == token
  }

  /** A CAS id that a key does not bear, and that has been handed out, it never bears again. */
  lemma {:induction false} GoneForGood(parse: Parser, states: seq<Cache>, ops: seq<Op>, k: Key, token: nat, m: nat, n: nat)
    requires IsRun(parse, states, ops) && m <= n <= |ops|
    requires token <= states[m].casId && !Bears(states[m], k, token)
    ensures token <= states[n].casId && !Bears(states[n], k, token)
    decreases n - m
  {
    if m < n {
      GoneForGood(parse, states, ops, k, token, m, n - 1);
      RunMoves(parse, states, ops, n - 1);
    }
  }

  /** The entry a CAS id stands for does not change while its key bears that id. */
  lemma {:induction false} SameIdSameEntry(parse: Parser, states: seq<Cache>, ops: seq<Op>, k: Key, token: nat, m: nat, n: nat)
    requires IsRun(parse, states, ops) && m <= n <= |ops|
    requires Bears(states[m], k, token) && Bears(states[n], k, token)
    ensures states[m].store[k] == states[n].store[k]
    decreases n - m
  {
    RunKeepsCas(parse, states, ops, m);
    if m < n {
      if Bears(states[m + 1], k, token) {
        RunMoves(parse, states, ops, m);
        SameIdSameEntry(parse, states, ops, k, token, m + 1, n);
      } else {
        RunMoves(parse, states, ops, m);
        GoneForGood(parse, states, ops, k, token, m + 1, n);
      }
    }
  }

  /** When a CAS command is answered with STORED, for every state, command and environment. */
  lemma CasStoredIff(c: Cache, cmd: Command, e: Env)
    requires ValuesOk(c) && |cmd.value| >= 2 && cmd.comm == CompareAndSwap
    ensures StoreItem(c, cmd, e).1 == WasStored <==>
              && !e.gone && cmd.key in c.store && cmd.token != 0
              && (cmd.token == c.store[cmd.key].cas || (e.stale && cmd.token < c.store[cmd.key].cas))
    ensures StoreItem(c, cmd, e).1 == WasStored ==>
              Bears(StoreItem(c, cmd, e).0, cmd.key, c.casId + 1)
    ensures StoreItem(c, cmd, e).1 == NotFound <==> e.gone || cmd.key !in c.store
  {
  }

  predicate PlainCas(op: Op, k: Key, token: nat) {
    op.DoStore? && op.cmd.comm == CompareAndSwap && op.cmd.key == k && op.cmd.token == token && !op.e.stale
  }

  /** Lost-update freedom: a CAS that is STORED finds the very entry that bore its token, untouched ever since. */
  lemma StoredCasMeansUntouched(parse: Parser, states: seq<Cache>, ops: seq<Op>, k: Key, token: nat, i: nat, m: nat, j: nat)
    requires IsRun(parse, states, ops) && i <= m <= j < |ops|
    requires Bears(states[i], k, token)
    requires PlainCas(ops[j], k, token) && ValuesOk(states[j]) && Enabled(ops[j])
    requires StoreItem(states[j], ops[j].cmd, ops[j].e).1 == WasStored
    ensures Bears(states[m], k, token) && states[m].store[k] == states[i].store[k]
  {
    CasStoredIff(states[j], ops[j].cmd, ops[j].e);
    RunKeepsCas(parse, states, ops, i);
    if !Bears(states[m], k, token) {
      IdsGrow(parse, states, ops, i, m);
      GoneForGood(parse, states, ops, k, token, m, j);
    }
    SameIdSameEntry(parse, states, ops, k, token, i, m);
  }

  lemma {:induction false} IdsGrow(parse: Parser, states: seq<Cache>, ops: seq<Op>, i: nat, m: nat)
    requires IsRun(parse, states, ops) && i <= m <= |ops|
    ensures states[i].casId <= states[m].casId
    decreases m
  {
    if i < m {
      IdsGrow(parse, states, ops, i, m - 1);
      RunMoves(parse, states, ops, m - 1);
    }
  }

  /** Of all the CAS commands with one token for a key, at most one is STORED. */
  lemma OneCasPerToken(parse: Parser, states: seq<Cache>, ops: seq<Op>, k: Key, token: nat, i: nat, j: nat)
    requires IsRun(parse, states, ops) && i < j < |ops|
    requires PlainCas(ops[i], k, token) && ValuesOk(states[i]) && Enabled(ops[i])
    requires StoreItem(states[i], ops[i].cmd, ops[i].e).1 == WasStored
    requires PlainCas(ops[j], k, token) && ValuesOk(states[j]) && Enabled(ops[j])
    ensures StoreItem(states[j], ops[j].cmd, ops[j].e).1 != WasStored
  {
    CasStoredIff(states[i], ops[i].cmd, ops[i].e);
    CasStoredIff(states[j], ops[j].cmd, ops[j].e);
    RunKeepsCas(parse, states, ops, i);
    RunMoves(parse, states, ops, i);
    GoneForGood(parse, states, ops, k, token, i + 1, j);
  }

  /** A CAS id names one key and one value for the whole of a run. */
  lemma IdNamesOneValue(parse: Parser, states: seq<Cache>, ops: seq<Op>, k: Key, l: Key, token: nat, m: nat, n: nat)
    requires IsRun(parse, states, ops) && m <= n <= |ops|
    requires Bears(states[m], k, token) && Bears(states[n], l, token)
    ensures k == l && states[m].store[k] == states[n].store[l]
  {
    RunKeepsCas(parse, states, ops, m);
    if !Bears(states[m], l, token) {
      GoneForGood(parse, states, ops, l, token, m, n);
    }
    SameIdSameEntry(parse, states, ops, k, token, m, n);
  }

  // ---------------------------------------------------------------- the code

  datatype CasResult = CasNone | CasMatch | CasBadval | CasStale

  class Server {
    const parse: Parser
    var store: map<Key, Entry>
    var casId: nat

    constructor (parse: Parser)
      ensures this.parse == parse && Now() == Cache(map[], 0)
    {
      this.parse := parse;
      store, casId := map[], 0;
    }

    ghost function Now(): Cache
      reads this
    {
      Cache(store, casId)
    }

    method GetCasId() returns (id: nat)
      modifies this`casId
      ensures casId == old(casId) + 1 && id == casId
    {
      casId := casId + 1;
      id := casId;
    }

    /** do_item_link, for an item that takes the place of any other under its key. */
    method Link(key: Key, value: Data, chunked: bool) returns (cas: nat)
      modifies this
      ensures Now() == Put(old(Now()), key, value, chunked) && cas == casId
    {
      cas := GetCasId();
      store := store[key := Entry(value, cas, chunked)];
    }

    method Get(key: Key, gone: bool) returns (found: Option<Entry>)
      modifies this
      ensures Now() == Fetch(old(Now()), key, gone)
      ensures found == if key in store then Some(store[key]) else None
    {
      if key in store && gone { store := store - {key}; }
      assert key !in old(store) && gone ==> store - {key} == store;
      found := if key in store then Some(store[key]) else None;
    }

    method DoStoreItem(cmd: Command, e: Env) returns (stored: Stored, cas: Option<nat>)
      requires ValuesOk(Now()) && |cmd.value| >= 2
      modifies this
      ensures (Now(), stored) == StoreItem(old(Now()), cmd, e)
      ensures cas == if stored == WasStored then Some(store[cmd.key].cas) else None
    {
      stored, cas := NotStored, None;
      var prior := Get(cmd.key, e.gone);
      var doStore, value := false, cmd.value;
      if prior.Some? {
        var res :=
          if cmd.token == 0 then CasNone
          else if cmd.token == prior.value.cas then CasMatch
          else if e.stale && cmd.token < prior.value.cas then CasStale
          else CasBadval;
        match cmd.comm {
          case Add =>
          case CompareAndSwap =>
            if res == CasMatch || res == CasStale { doStore := true; } else { stored := Exists; }
          case Set => doStore := true;
          case Replace => doStore := true;
          case _ =>
            if res != CasNone && res != CasMatch {
              stored := Exists;
            } else if e.room {
              value := Joined(Appends(cmd.comm), prior.value.value, cmd.value);
              doStore := true;
            }
        }
      } else {
        match cmd.comm {
          case CompareAndSwap => stored := NotFound;
          case Replace =>
          case Append =>
          case Prepend =>
          case _ => doStore := true;
        }
      }
      if doStore {
        var id := Link(cmd.key, value, cmd.chunked);
        stored, cas := WasStored, Some(id);
      }
    }

    method DoAddDelta(d: Delta) returns (r: DeltaResult)
      requires ValuesOk(Now())
      modifies this
      ensures (Now(), r) == AddDelta(old(Now()), parse, d)
    {
      var found := Get(d.key, d.gone);
      if found.None? { return DeltaNotFound; }
      var it := found.value;
      if |it.value| <= 2 || it.chunked { return NonNumeric; }
      if d.token != 0 && it.cas != d.token { return CasMismatch; }
      var number := parse(it.value);
      if number.None? { return NonNumeric; }
      var n := Shifted(d, number.value);
      var text := Digits(n);
      var id;
      if |text| + 2 <= |it.value| && d.alone {
        var len := |it.value|;
        id := Link(d.key, text + Spaces(len - |text| - 2) + it.value[len - 2..], false);
      } else if !d.room {
        return OutOfMemory;
      } else {
        id := Link(d.key, text + [13, 10], false);
      }
      return DeltaOk(n, id);
    }

    /** A deletion, or an eviction. */
    method Delete(key: Key)
      modifies this
      ensures Now() == Remove(old(Now()), key)
    {
      store := store - {key};
    }

    /** Any command keeps the ids apart and the values whole, and is the step of the state machine. */
    method Perform(op: Op)
      requires ValuesOk(Now()) && CasOk(Now()) && Enabled(op)
      modifies this
      ensures ValuesOk(Now()) && CasOk(Now()) && Now() == Next(old(Now()), parse, op)
    {
      ghost var c := Now();
      NextKeepsValues(c, parse, op);
      NextMoves(c, parse, op);
      NextKeepsCas(c, Next(c, parse, op), KeyOf(op));
      match op
      case DoStore(cmd, e) => var stored, cas := DoStoreItem(cmd, e);
      case DoDelta(d) => var r := DoAddDelta(d);
      case DoRemove(k) => Delete(k);
    }
  }

  /** A fresh server serving any commands: what it goes through is a run. */
  method Drive(parse: Parser, ops: seq<Op>) returns (server: Server, ghost states: seq<Cache>)
    requires forall op :: op in ops ==> Enabled(op)
    ensures IsRun(parse, states, ops) && states[0] == Cache(map[], 0) && states[|ops|] == server.Now()
  {
    server := new Server(parse);
    states := [server.Now()];
    var i := 0;
    while i < |ops|
      invariant fresh(server) && server.parse == parse && 0 <= i <= |ops| && |states| == i + 1
      invariant states[0] == Cache(map[], 0) && states[i] == server.Now() && ValuesOk(server.Now()) && CasOk(server.Now())
      invariant IsRun(parse, states, ops[..i])
    {
      server.Perform(ops[i]);
      RunGrows(parse, states, ops, i, server.Now());
      states := states + [server.Now()];
      i := i + 1;
    }
    assert ops[..i] == ops;
  }

  lemma RunGrows(parse: Parser, states: seq<Cache>, ops: seq<Op>, i: nat, c: Cache)
    requires i < |ops| && IsRun(parse, states, ops[..i]) && ValuesOk(states[i]) && Enabled(ops[i])
    requires c == Next(states[i], parse, ops[i])
    ensures IsRun(parse, states + [c], ops[..i + 1])
  {
    var more, q := states + [c], ops[..i + 1];
    forall j {:trigger q[j]} | 0 <= j < |q| && ValuesOk(more[j])
      ensures Enabled(q[j]) && more[j + 1] == Next(more[j], parse, q[j])
    {
      if j < i { assert ops[..i][j] == q[j]; }
    }
  }
}
