/** The prefetcher: each key is read once, and a transaction is released when all its keys are cached. */
module Fetcher {
  import opened Bytes
  import opened StateKeys

  type TxID = nat

  type Parent = map<Key, Value>

  function Lookup(parent: Parent, k: Key): Maybe<Value> {
    if k in parent then Some(parent[k]) else Nothing
  }

  /** A key that was asked for: what was read, once it was, and who waits for it, with repetitions. */
  datatype KeyState = KeyState(cache: Maybe<Maybe<Value>>, blocked: seq<TxID>)

  /** The channel a reader waits on, with how often it was closed; none for a transaction never blocked. */
  datatype Waiter = None | Made(closes: nat)

  datatype Tx = Tx(blockers: int, waiter: Waiter, keys: seq<Key>)

  type KeyMap = map<Key, KeyState>
  type TxMap = map<TxID, Tx>

  datatype State = State(keys: KeyMap, txs: TxMap, tasks: multiset<Key>, done: multiset<Key>, failed: bool)

  const INIT := State(map[], map[], multiset{}, multiset{}, false)

  datatype Action =
    | Fetch(id: TxID, keys: seq<Key>)
    | Read(key: Key)          // a worker reads a key and stores what it found
    | ReadError(key: Key)     // a worker's read fails
    | Stop

  datatype Registered = Registered(keys: KeyMap, tasks: multiset<Key>, blockers: nat)

  /** One key of a fetch: a new key becomes a task, an unread one is waited for, a cached one is free. */
  function RegisterKey(r: Registered, id: TxID, k: Key): Registered {
    if k !in r.keys then
      Registered(r.keys[k := KeyState(Nothing, [id])], r.tasks + multiset{k}, r.blockers + 1)
    else if r.keys[k].cache.Some? then r
    else r.(keys := r.keys[k := r.keys[k].(blocked := r.keys[k].blocked + [id])], blockers := r.blockers + 1)
  }

  function Register(keys: KeyMap, id: TxID, ks: seq<Key>): Registered {
    if ks == [] then Registered(keys, multiset{}, 0)
    else RegisterKey(Register(keys, id, ks[..|ks| - 1]), id, ks[|ks| - 1])
  }

  /** One occurrence in a blocked list: counts down, and closes the waiter at zero. */
  function Unblock(tx: Tx): Tx {
    var n := tx.blockers - 1;
    Tx(n, if n == 0 && tx.waiter.Made? then Made(tx.waiter.closes + 1) else tx.waiter, tx.keys)
  }

  function Release(txs: TxMap, blocked: seq<TxID>): TxMap {
    if blocked == [] then txs
    else
      var r := Release(txs, blocked[..|blocked| - 1]);
      var id := blocked[|blocked| - 1];
      if id in r then r[id := Unblock(r[id])] else r
  }

  predicate Enabled(s: State, a: Action) {
    match a
    case Fetch(id, _) => !s.failed && id !in s.txs
    case Read(k) => k in s.tasks
    case ReadError(k) => k in s.tasks
    case Stop => true
  }

  function Apply(parent: Parent, s: State, a: Action): State {
    match a
    case Fetch(id, ks) =>
      var r := Register(s.keys, id, ks);
      var tx := Tx(r.blockers, if r.blockers > 0 then Made(0) else None, ks);
      s.(keys := r.keys, txs := s.txs[id := tx], tasks := s.tasks + r.tasks)
    case Read(k) =>
      var v := Lookup(parent, k);
      var t := s.(tasks := s.tasks - multiset{k}, done := s.done + multiset{k});
      if k !in s.keys || (v.Some? && NumChunks(v.value).Nothing?) then t.(failed := true)
      else t.(keys := s.keys[k := KeyState(Some(v), [])], txs := Release(s.txs, s.keys[k].blocked))
    case ReadError(k) =>
      s.(tasks := s.tasks - multiset{k}, done := s.done + multiset{k}, failed := true)
    case Stop => s.(failed := true)
  }

  /** How many of the keys, with repetitions, have not been read. */
  function Uncached(keys: KeyMap, ks: seq<Key>): nat {
    if ks == [] then 0
    else
      var k := ks[|ks| - 1];
      Uncached(keys, ks[..|ks| - 1]) + if k in keys && keys[k].cache.Some? then 0 else 1
  }

  function Wants(txs: TxMap, id: TxID, k: Key): nat {
    if id in txs then multiset(txs[id].keys)[k] else 0
  }

  /** A key is a task or was read, never both nor twice; unread, it blocks whoever wants it, that often. */
  ghost predicate KeyOk(parent: Parent, s: State, k: Key)
    requires k in s.keys
  {
    var key := s.keys[k];
    && s.tasks[k] + s.done[k] == 1
    && (key.cache.Some? ==> key.blocked == [] && key.cache.value == Lookup(parent, k) && s.done[k] == 1)
    && (key.cache.Nothing? ==> forall id :: multiset(key.blocked)[id] == Wants(s.txs, id, k))
  }

  /** A transaction waits exactly while some of its keys are unread, and is released exactly once. */
  ghost predicate TxOk(s: State, id: TxID)
    requires id in s.txs
  {
    var tx := s.txs[id];
    && (forall k | k in tx.keys :: k in s.keys)
    && tx.blockers == Uncached(s.keys, tx.keys)
    && (tx.waiter.None? ==> tx.blockers == 0)
    && (tx.waiter.Made? ==> tx.waiter.closes == if tx.blockers == 0 then 1 else 0)
  }

  ghost predicate Inv(parent: Parent, s: State) {
    && (forall k | k in s.keys :: KeyOk(parent, s, k))
    && (forall k | k !in s.keys :: s.tasks[k] == 0 && s.done[k] == 0)
    && (forall id | id in s.txs :: TxOk(s, id))
  }

  predicate IsCached(keys: KeyMap, k: Key) {
    k in keys && keys[k].cache.Some?
  }

  ghost predicate BlockedMore(keys: KeyMap, blocked: seq<TxID>, id: TxID, n: nat, k: Key) {
    forall i ::
      multiset(blocked)[i] == (if k in keys then multiset(keys[k].blocked)[i] else 0) + if i == id then n else 0
  }

  /** What registering a key `n` times does to it. */
  ghost predicate Effect(keys: KeyMap, r: Registered, id: TxID, n: nat, k: Key) {
    && (k in r.keys <==> k in keys || n > 0)
    && r.tasks[k] == (if k !in keys && n > 0 then 1 else 0)
    && (IsCached(keys, k) ==> r.keys[k] == keys[k])
    && (k in r.keys && !IsCached(keys, k) ==>
        r.keys[k].cache.Nothing? && BlockedMore(keys, r.keys[k].blocked, id, n, k))
  }

  lemma EffectStep(keys: KeyMap, r: Registered, id: TxID, n: nat, k: Key, x: Key)
    requires Effect(keys, r, id, n, k)
    ensures Effect(keys, RegisterKey(r, id, x), id, if x == k then n + 1 else n, k)
  {
  }

  lemma {:induction false} Registers(keys: KeyMap, id: TxID, ks: seq<Key>, k: Key)
    ensures Effect(keys, Register(keys, id, ks), id, multiset(ks)[k], k)
  {
    if ks != [] {
      var (init, x) := (ks[..|ks| - 1], ks[|ks| - 1]);
      Registers(keys, id, init, k);
      assert ks == init + [x];
      EffectStep(keys, Register(keys, id, init), id, multiset(init)[k], k, x);
    }
  }

  /** The blockers counted while registering are the keys that are still to be read. */
  lemma {:induction false} RegistersBlockers(keys: KeyMap, id: TxID, ks: seq<Key>)
    ensures Register(keys, id, ks).blockers == Uncached(keys, ks)
  {
    if ks != [] {
      RegistersBlockers(keys, id, ks[..|ks| - 1]);
      Registers(keys, id, ks[..|ks| - 1], ks[|ks| - 1]);
    }
  }

  /** Only what is cached matters to the count. */
  lemma {:induction false} UncachedSame(a: KeyMap, b: KeyMap, ks: seq<Key>)
    requires forall k | k in ks :: IsCached(a, k) <==> IsCached(b, k)
    ensures Uncached(a, ks) == Uncached(b, ks)
  {
    if ks != [] {
      UncachedSame(a, b, ks[..|ks| - 1]);
      assert IsCached(a, ks[|ks| - 1]) <==> IsCached(b, ks[|ks| - 1]);
    }
  }

  /** Caching a key takes its occurrences off the count. */
  lemma {:induction false} UncachedLess(keys: KeyMap, k: Key, cached: KeyState, ks: seq<Key>)
    requires !IsCached(keys, k) && cached.cache.Some?
    ensures Uncached(keys[k := cached], ks) == Uncached(keys, ks) - multiset(ks)[k]
  {
    if ks != [] {
      var (init, x) := (ks[..|ks| - 1], ks[|ks| - 1]);
      UncachedLess(keys, k, cached, init);
      assert ks == init + [x];
    }
  }

  lemma {:induction false} UncachedAtLeast(keys: KeyMap, k: Key, ks: seq<Key>)
    requires !IsCached(keys, k)
    ensures multiset(ks)[k] <= Uncached(keys, ks)
  {
    UncachedLess(keys, k, KeyState(Some(Nothing), []), ks);
  }

  /** Releasing a list counts each transaction down by its occurrences, and closes it on reaching zero. */
  lemma {:induction false} Releases(txs: TxMap, blocked: seq<TxID>, id: TxID)
    requires id in txs && multiset(blocked)[id] <= txs[id].blockers
    ensures
      var n := multiset(blocked)[id];
      var r := Release(txs, blocked);
      && id in r && r[id].keys == txs[id].keys && r[id].blockers == txs[id].blockers - n
      && (txs[id].waiter.None? ==> r[id].waiter.None?)
      && (txs[id].waiter.Made? ==>
            r[id].waiter == Made(txs[id].waiter.closes + if n > 0 && n == txs[id].blockers then 1 else 0))
  {
    if blocked != [] {
      var (init, x) := (blocked[..|blocked| - 1], blocked[|blocked| - 1]);
      assert blocked == init + [x];
      Releases(txs, init, id);
    }
  }

  lemma {:induction false} ReleaseKeepsKeys(txs: TxMap, blocked: seq<TxID>)
    ensures Release(txs, blocked).Keys == txs.Keys
  {
    if blocked != [] {
      ReleaseKeepsKeys(txs, blocked[..|blocked| - 1]);
    }
  }

  lemma FetchKeepsKey(parent: Parent, s: State, id: TxID, ks: seq<Key>, k: Key)
    requires Inv(parent, s) && Enabled(s, Fetch(id, ks))
    ensures
      var t := Apply(parent, s, Fetch(id, ks));
      if k in t.keys then KeyOk(parent, t, k) else t.tasks[k] == 0 && t.done[k] == 0
  {
    Registers(s.keys, id, ks, k);
    var t := Apply(parent, s, Fetch(id, ks));
    assert k in s.keys ==> KeyOk(parent, s, k);
    if k in t.keys && t.keys[k].cache.Nothing? {
      forall i
        ensures multiset(t.keys[k].blocked)[i] == Wants(t.txs, i, k)
      {
        if k !in s.keys && i in s.txs {
          assert TxOk(s, i);
          assert k !in s.txs[i].keys;
        }
      }
    }
  }

  lemma FetchKeepsTx(parent: Parent, s: State, id: TxID, ks: seq<Key>, i: TxID)
    requires Inv(parent, s) && Enabled(s, Fetch(id, ks)) && i in Apply(parent, s, Fetch(id, ks)).txs
    ensures TxOk(Apply(parent, s, Fetch(id, ks)), i)
  {
    var t := Apply(parent, s, Fetch(id, ks));
    var mine := t.txs[i].keys;
    forall k | k in mine
      ensures k in t.keys && (IsCached(s.keys, k) <==> IsCached(t.keys, k))
    {
      Registers(s.keys, id, ks, k);
      assert i != id ==> TxOk(s, i);
    }
    UncachedSame(s.keys, t.keys, mine);
    if i == id {
      RegistersBlockers(s.keys, id, ks);
    } else {
      assert TxOk(s, i);
    }
  }

  lemma FetchKeeps(parent: Parent, s: State, id: TxID, ks: seq<Key>)
    requires Inv(parent, s) && Enabled(s, Fetch(id, ks))
    ensures Inv(parent, Apply(parent, s, Fetch(id, ks)))
  {
    var t := Apply(parent, s, Fetch(id, ks));
    forall k
      ensures if k in t.keys then KeyOk(parent, t, k) else t.tasks[k] == 0 && t.done[k] == 0
    {
      FetchKeepsKey(parent, s, id, ks, k);
    }
    forall i | i in t.txs
      ensures TxOk(t, i)
    {
      FetchKeepsTx(parent, s, id, ks, i);
    }
  }

  /** The state after a worker found what it can store. */
  function Stored(parent: Parent, s: State, k: Key): State
    requires k in s.keys
  {
    s.(keys := s.keys[k := KeyState(Some(Lookup(parent, k)), [])], txs := Release(s.txs, s.keys[k].blocked),
       tasks := s.tasks - multiset{k}, done := s.done + multiset{k})
  }

  lemma ReadKeepsTx(parent: Parent, s: State, k: Key, i: TxID)
    requires Inv(parent, s) && k in s.tasks && k in s.keys && i in s.txs
    ensures var t := Stored(parent, s, k); i in t.txs && TxOk(t, i) && t.txs[i].keys == s.txs[i].keys
  {
    var blocked := s.keys[k].blocked;
    assert KeyOk(parent, s, k) && TxOk(s, i);
    var waiting: multiset<TxID> := multiset(blocked);
    assert waiting[i] == Wants(s.txs, i, k);
    UncachedAtLeast(s.keys, k, s.txs[i].keys);
    UncachedLess(s.keys, k, KeyState(Some(Lookup(parent, k)), []), s.txs[i].keys);
    Releases(s.txs, blocked, i);
  }

  lemma ReadKeepsKey(parent: Parent, s: State, k: Key, x: Key)
    requires Inv(parent, s) && k in s.tasks && k in s.keys && x in s.keys
    requires var t := Stored(parent, s, k); forall i :: Wants(t.txs, i, x) == Wants(s.txs, i, x)
    ensures KeyOk(parent, Stored(parent, s, k), x)
  {
    assert KeyOk(parent, s, x);
  }

  lemma StoreKeeps(parent: Parent, s: State, k: Key)
    requires Inv(parent, s) && k in s.tasks && k in s.keys
    ensures Inv(parent, Stored(parent, s, k))
  {
    hide KeyOk, TxOk;
    var t := Stored(parent, s, k);
    ReleaseKeepsKeys(s.txs, s.keys[k].blocked);
    forall i | i in s.txs
      ensures i in t.txs && TxOk(t, i) && t.txs[i].keys == s.txs[i].keys
    {
      ReadKeepsTx(parent, s, k, i);
    }
    forall x | x in t.keys
      ensures KeyOk(parent, t, x)
    {
      ReadKeepsKey(parent, s, k, x);
    }
  }

  lemma ReadKeeps(parent: Parent, s: State, k: Key)
    requires Inv(parent, s) && Enabled(s, Read(k)) && k in s.keys
    ensures Inv(parent, Apply(parent, s, Read(k)))
  {
    hide Inv;
    var v := Lookup(parent, k);
    if v.Some? && NumChunks(v.value).Nothing? {
      FailKeeps(parent, s, Apply(parent, s, Read(k)));
    } else {
      StoreKeeps(parent, s, k);
    }
  }

  lemma StepKeeps(parent: Parent, s: State, a: Action)
    requires Inv(parent, s) && Enabled(s, a)
    ensures Inv(parent, Apply(parent, s, a))
  {
    match a
    case Fetch(id, ks) => FetchKeeps(parent, s, id, ks);
    case Read(k) =>
      assert k in s.keys;
      ReadKeeps(parent, s, k);
    case ReadError(k) =>
      FailKeeps(parent, s, Apply(parent, s, a));
    case Stop =>
      FailKeeps(parent, s, Apply(parent, s, a));
  }

  lemma FailKeeps(parent: Parent, s: State, t: State)
    requires Inv(parent, s) && t.keys == s.keys && t.txs == s.txs
    requires forall k :: t.tasks[k] + t.done[k] == s.tasks[k] + s.done[k] && t.done[k] >= s.done[k]
    ensures Inv(parent, t)
  {
    forall k
      ensures if k in t.keys then KeyOk(parent, t, k) else t.tasks[k] == 0 && t.done[k] == 0
    {
      assert k in s.keys ==> KeyOk(parent, s, k);
    }
    forall i | i in t.txs
      ensures TxOk(t, i)
    {
      assert TxOk(s, i);
    }
  }

  predicate Runs(parent: Parent, s: State, actions: seq<Action>)
    decreases |actions|
  {
    actions == [] || (Enabled(s, actions[0]) && Runs(parent, Apply(parent, s, actions[0]), actions[1..]))
  }

  function After(parent: Parent, s: State, actions: seq<Action>): State
    decreases |actions|
  {
    if actions == [] then s else After(parent, Apply(parent, s, actions[0]), actions[1..])
  }

  lemma {:induction false} RunKeeps(parent: Parent, s: State, actions: seq<Action>)
    requires Inv(parent, s) && Runs(parent, s, actions)
    ensures Inv(parent, After(parent, s, actions))
    decreases |actions|
  {
    if actions != [] {
      StepKeeps(parent, s, actions[0]);
      RunKeeps(parent, Apply(parent, s, actions[0]), actions[1..]);
    }
  }

  lemma {:induction false} NoneUncached(keys: KeyMap, ks: seq<Key>, k: Key)
    requires Uncached(keys, ks) == 0 && k in ks
    ensures IsCached(keys, k)
  {
    if k != ks[|ks| - 1] {
      NoneUncached(keys, ks[..|ks| - 1], k);
    }
  }

  /** A transaction that need not wait, or whose waiter was closed. */
  predicate Released(s: State, id: TxID) {
    id in s.txs && (s.txs[id].waiter.None? || s.txs[id].waiter.closes > 0)
  }

  function Get(s: State, id: TxID): map<Key, Value>
    requires id in s.txs
  {
    map k | k in s.txs[id].keys && IsCached(s.keys, k) && s.keys[k].cache.value.Some? :: s.keys[k].cache.value.value
  }

  lemma ReadOnce(parent: Parent, s: State, id: TxID, k: Key)
    requires Inv(parent, s)
    ensures s.done[k] <= 1
    ensures id in s.txs && s.txs[id].waiter.Made? ==> s.txs[id].waiter.closes <= 1
  {
    assert k in s.keys ==> KeyOk(parent, s, k);
    assert id in s.txs ==> TxOk(s, id);
  }

  lemma GetRestricts(parent: Parent, s: State, id: TxID)
    requires Inv(parent, s) && Released(s, id)
    ensures Get(s, id) == map x | x in s.txs[id].keys && x in parent :: parent[x]
  {
    assert TxOk(s, id);
    forall x | x in s.txs[id].keys
      ensures IsCached(s.keys, x) && s.keys[x].cache.value == Lookup(parent, x)
    {
      NoneUncached(s.keys, s.txs[id].keys, x);
      assert KeyOk(parent, s, x);
    }
  }

  /**
   * In every run, a released transaction reads exactly the parent state restricted to its keys, it is
   * released at most once and only when nothing of it is unread, and no key is read twice.
   */
  lemma ReleasedReadsParent(parent: Parent, actions: seq<Action>, id: TxID, k: Key)
    requires Runs(parent, INIT, actions)
    ensures
      var s := After(parent, INIT, actions);
      && s.done[k] <= 1
      && (id in s.txs && s.txs[id].waiter.Made? ==> s.txs[id].waiter.closes <= 1)
      && (Released(s, id) ==> Get(s, id) == map x | x in s.txs[id].keys && x in parent :: parent[x])
  {
    RunKeeps(parent, INIT, actions);
    var s := After(parent, INIT, actions);
    ReadOnce(parent, s, id, k);
    if Released(s, id) {
      GetRestricts(parent, s, id);
    }
  }

  /** The step ends the prefetcher: it is stopped, a read fails, or a key holds a value too large to be one. */
  predicate Fails(parent: Parent, a: Action) {
    match a
    case Fetch(_, _) => false
    case Read(k) => k in parent && |parent[k]| >= 4194240
    case ReadError(_) => true
    case Stop => true
  }

  lemma StepFails(parent: Parent, s: State, a: Action)
    requires Inv(parent, s) && Enabled(s, a)
    ensures Apply(parent, s, a).failed <==> s.failed || Fails(parent, a)
  {
  }

  /** It can be stopped at any time, and any read that is due can fail. */
  lemma FailsAnyTime(s: State, k: Key)
    ensures Enabled(s, Stop) && (k in s.tasks ==> Enabled(s, ReadError(k)) && Enabled(s, Read(k)))
  {
  }

  /** In every run the prefetcher has failed exactly if some step failed; to find no value is no failure. */
  lemma {:induction false} FailedExactlyIf(parent: Parent, s: State, actions: seq<Action>)
    requires Inv(parent, s) && Runs(parent, s, actions)
    ensures After(parent, s, actions).failed
            <==> s.failed || exists i :: 0 <= i < |actions| && Fails(parent, actions[i])
    decreases |actions|
  {
    if actions != [] {
      var (a, rest) := (actions[0], actions[1..]);
      StepFails(parent, s, a);
      StepKeeps(parent, s, a);
      hide Apply, Inv, Fails, Enabled;
      FailedExactlyIf(parent, Apply(parent, s, a), rest);
      if i :| 0 <= i < |rest| && Fails(parent, rest[i]) {
        assert actions[i + 1] == rest[i];
      }
      if i :| 0 <= i < |actions| && Fails(parent, actions[i]) {
        assert i == 0 || rest[i - 1] == actions[i];
      }
    }
  }

  /** Without a failure, a key that was read is cached. */
  ghost predicate CachedOnceRead(s: State) {
    !s.failed ==> forall k | k in s.keys && s.done[k] > 0 :: IsCached(s.keys, k)
  }

  lemma FetchKeepsCached(parent: Parent, s: State, id: TxID, ks: seq<Key>)
    requires Inv(parent, s) && CachedOnceRead(s) && Enabled(s, Fetch(id, ks))
    ensures CachedOnceRead(Apply(parent, s, Fetch(id, ks)))
  {
    var r := Register(s.keys, id, ks);
    forall k | k in r.keys && s.done[k] > 0
      ensures IsCached(r.keys, k)
    {
      assert k in s.keys ==> IsCached(s.keys, k);
      Registers(s.keys, id, ks, k);
    }
  }

  lemma StepKeepsCached(parent: Parent, s: State, a: Action)
    requires Inv(parent, s) && CachedOnceRead(s) && Enabled(s, a)
    ensures CachedOnceRead(Apply(parent, s, a))
  {
    match a
    case Fetch(id, ks) => FetchKeepsCached(parent, s, id, ks);
    case Read(k) =>
    case ReadError(k) =>
    case Stop =>
  }

  lemma {:induction false} RunKeepsCached(parent: Parent, s: State, actions: seq<Action>)
    requires Inv(parent, s) && CachedOnceRead(s) && Runs(parent, s, actions)
    ensures CachedOnceRead(After(parent, s, actions))
    decreases |actions|
  {
    hide Apply, Inv, Enabled, CachedOnceRead;
    if actions != [] {
      StepKeepsCached(parent, s, actions[0]);
      StepKeeps(parent, s, actions[0]);
      RunKeepsCached(parent, Apply(parent, s, actions[0]), actions[1..]);
    }
  }

  lemma {:induction false} AllCached(keys: KeyMap, ks: seq<Key>)
    requires forall k | k in ks :: IsCached(keys, k)
    ensures Uncached(keys, ks) == 0
  {
    if ks != [] {
      AllCached(keys, ks[..|ks| - 1]);
      assert ks[|ks| - 1] in ks;
    }
  }

  /** Nothing waits for ever: in every run without a failure, once no read is left every transaction is released. */
  lemma AllReleased(parent: Parent, actions: seq<Action>, id: TxID)
    requires Runs(parent, INIT, actions)
    requires var s := After(parent, INIT, actions); !s.failed && s.tasks == multiset{} && id in s.txs
    ensures Released(After(parent, INIT, actions), id)
  {
    RunKeeps(parent, INIT, actions);
    RunKeepsCached(parent, INIT, actions);
    var s := After(parent, INIT, actions);
    assert TxOk(s, id);
    forall k | k in s.txs[id].keys
      ensures IsCached(s.keys, k)
    {
      assert KeyOk(parent, s, k);
    }
    AllCached(s.keys, s.txs[id].keys);
  }

  /** How often a transaction stands in the blocked lists of the listed keys. */
  function Occurrences(keys: KeyMap, order: seq<Key>, id: TxID): nat {
    if order == [] then 0
    else
      var k := order[|order| - 1];
      Occurrences(keys, order[..|order| - 1], id) + if k in keys then multiset(keys[k].blocked)[id] else 0
  }

  /** How often the unread keys among the listed ones are wanted. */
  function Wanted(keys: KeyMap, order: seq<Key>, ks: seq<Key>): nat {
    if order == [] then 0
    else
      var k := order[|order| - 1];
      Wanted(keys, order[..|order| - 1], ks) + if IsCached(keys, k) then 0 else multiset(ks)[k]
  }

  predicate Distinct(order: seq<Key>) {
    forall i, j | 0 <= i < j < |order| :: order[i] != order[j]
  }

  lemma {:induction false} WantedOneMore(keys: KeyMap, order: seq<Key>, ks: seq<Key>, x: Key)
    requires Distinct(order)
    ensures Wanted(keys, order, ks + [x]) == Wanted(keys, order, ks) + if x in order && !IsCached(keys, x) then 1 else 0
  {
    if order != [] {
      WantedOneMore(keys, order[..|order| - 1], ks, x);
      var (init, last) := (order[..|order| - 1], order[|order| - 1]);
      assert order == init + [last];
      assert x == last ==> x !in init;
    }
  }

  lemma {:induction false} WantedIsUncached(keys: KeyMap, order: seq<Key>, ks: seq<Key>)
    requires Distinct(order) && forall k | k in ks :: k in order
    ensures Wanted(keys, order, ks) == Uncached(keys, ks)
  {
    if ks == [] {
      WantedNone(keys, order);
    } else {
      var (init, x) := (ks[..|ks| - 1], ks[|ks| - 1]);
      assert ks == init + [x];
      WantedIsUncached(keys, order, init);
      WantedOneMore(keys, order, init, x);
    }
  }

  lemma {:induction false} WantedNone(keys: KeyMap, order: seq<Key>)
    ensures Wanted(keys, order, []) == 0
  {
    if order != [] {
      WantedNone(keys, order[..|order| - 1]);
    }
  }

  lemma {:induction false} OccurrencesAreWanted(parent: Parent, s: State, order: seq<Key>, id: TxID)
    requires Inv(parent, s) && id in s.txs && forall k | k in order :: k in s.keys
    ensures Occurrences(s.keys, order, id) == Wanted(s.keys, order, s.txs[id].keys)
  {
    if order != [] {
      var k := order[|order| - 1];
      OccurrencesAreWanted(parent, s, order[..|order| - 1], id);
      assert KeyOk(parent, s, k);
      var waiting: multiset<TxID> := multiset(s.keys[k].blocked);
      assert s.keys[k].cache.Nothing? ==> waiting[id] == Wants(s.txs, id, k);
    }
  }

  /** In every run, the blockers of a transaction are its occurrences in the blocked lists, repetitions included. */
  lemma BlockersAreOccurrences(parent: Parent, actions: seq<Action>, order: seq<Key>, id: TxID)
    requires Runs(parent, INIT, actions) && id in After(parent, INIT, actions).txs && Distinct(order)
    requires forall k :: k in order <==> k in After(parent, INIT, actions).keys
    ensures
      var s := After(parent, INIT, actions);
      Occurrences(s.keys, order, id) == s.txs[id].blockers
  {
    RunKeeps(parent, INIT, actions);
    var s := After(parent, INIT, actions);
    assert TxOk(s, id);
    OccurrencesAreWanted(parent, s, order, id);
    WantedIsUncached(s.keys, order, s.txs[id].keys);
  }
}

/** What the prefetcher hands to a transaction's view is what execution takes its storage to be. */
module Prefetching {
  import opened Bytes
  import opened StateKeys
  import opened Views
  import opened Executor
  import Fetcher

  /** Two storages that agree on the declared keys answer every operation alike: others are out of scope. */
  lemma RespondsAlike(v: View, keys: Keys, a: Store, b: Store, shared: Changes, op: Op)
    requires !op.Return? && forall k | k in keys :: ReadStore(a, k) == ReadStore(b, k)
    ensures Respond(v, Limited(keys), a, shared, op) == Respond(v, Limited(keys), b, shared, op)
  {
    hide NumChunks, MaxChunks, VerifyValue;
    WriterIsExclusive(NONE);
  }

  /**
   * In every run of the prefetcher, once a transaction is released, the storage it gets agrees with the
   * parent's state at each of its declared keys, whatever else was fetched along, and no operation on its
   * view can tell the two apart.
   */
  lemma FetchedIsPrefetched(parent: Store, actions: seq<Fetcher.Action>, id: Fetcher.TxID, keys: Keys, v: View,
                            shared: Changes, op: Op)
    requires Fetcher.Runs(parent, Fetcher.INIT, actions)
    requires var s := Fetcher.After(parent, Fetcher.INIT, actions);
             Fetcher.Released(s, id) && Lists(s.txs[id].keys, keys)
    ensures var got := Fetcher.Get(Fetcher.After(parent, Fetcher.INIT, actions), id);
            && (forall k | k in keys :: ReadStore(got, k) == ReadStore(Prefetched(parent, keys), k))
            && (forall k | k in got :: k in keys || k == [])
            && (!op.Return? ==>
                  Respond(v, Limited(keys), got, shared, op)
                  == Respond(v, Limited(keys), Prefetched(parent, keys), shared, op))
  {
    Fetcher.ReleasedReadsParent(parent, actions, id, []);
    var s := Fetcher.After(parent, Fetcher.INIT, actions);
    var got := Fetcher.Get(s, id);
    forall k
      ensures k in keys ==> ReadStore(got, k) == ReadStore(Prefetched(parent, keys), k)
      ensures k in got ==> k in keys || k == []
    {
      ListsMembers(s.txs[id].keys, keys, k);
    }
    if !op.Return? {
      RespondsAlike(v, keys, got, Prefetched(parent, keys), shared, op);
    }
  }
}
