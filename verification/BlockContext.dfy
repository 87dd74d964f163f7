/** The height, timestamp and fee entries that close a block, written by builder and processor differently. */
module BlockContext {
  import opened Bytes
  import opened StateKeys
  import opened Views
  import opened Units
  import Executor
  import ExecutorOrder
  import BlockAgreement
  import FeeManager
  import FeeRuns
  import Window

  const HEIGHT_KEY_CHUNKS := 1
  const TIMESTAMP_KEY_CHUNKS := 1
  const FEE_KEY_CHUNKS := 8

  datatype Meta = Meta(k: Key, value: Value)

  /** Inserts the entries one by one into a fresh view; stops at the first refusal. */
  function WriteContext(scope: Scope, storage: Store, shared: Changes, entries: seq<Meta>): (r: (View, Status)) {
    if entries == [] then (EMPTY, Ok)
    else
      var (v, st) := WriteContext(scope, storage, shared, entries[..|entries| - 1]);
      if st != Ok then (v, st)
      else
        var e := entries[|entries| - 1];
        Insert(v, scope, ReadThrough(storage, shared, e.k), e.k, e.value)
  }

  function Written(m: Store, entries: seq<Meta>): (r: Store) {
    if entries == [] then m
    else Written(m, entries[..|entries| - 1])[entries[|entries| - 1].k := entries[|entries| - 1].value]
  }

  predicate DistinctKeys(entries: seq<Meta>) {
    forall i, j | 0 <= i < j < |entries| :: entries[i].k != entries[j].k
  }

  /** What the view reads from already shows the new value of an entry, and the parent does not. */
  predicate Misread(storage: Store, base: Store, shared: Changes, e: Meta) {
    ReadThrough(storage, shared, e.k) == Some(e.value) && ReadThrough(base, shared, e.k) != Some(e.value)
  }

  predicate ReadRight(storage: Store, base: Store, shared: Changes, entries: seq<Meta>) {
    forall i | 0 <= i < |entries| :: !Misread(storage, base, shared, entries[i])
  }

  /** An accepted insertion of a key that is not pending. */
  lemma InsertAccepted(v: View, scope: Scope, pv: Maybe<Value>, k: Key, value: Value)
    requires Insert(v, scope, pv, k, value).1 == Ok && k !in v.pending
    ensures VerifyValue(k, value)
    ensures Insert(v, scope, pv, k, value).0.pending
            == if pv == Some(value) then v.pending else v.pending[k := Some(value)]
  {
    if pv == Some(value) {
      assert v.pending - {k} == v.pending;
    }
  }

  lemma InsertComplete(v: View, pv: Maybe<Value>, k: Key, value: Value)
    requires VerifyValue(k, value)
    ensures Insert(v, Complete, pv, k, value).1 == Ok
  {
  }

  predicate Listed(k: Key, entries: seq<Meta>) {
    exists i :: 0 <= i < |entries| && entries[i].k == k
  }

  lemma OneMoreEntry(base: Store, shared: Changes, pending: Changes, pending': Changes, pv: Maybe<Value>, e: Meta)
    requires pending' == if pv == Some(e.value) then pending else pending[e.k := Some(e.value)]
    requires e.k !in pending
    requires pv == Some(e.value) ==> ReadThrough(base, shared, e.k) == Some(e.value)
    ensures Overlay(base, shared + pending') == Overlay(base, shared + pending)[e.k := e.value]
  {
    StoresEqual(Overlay(base, shared + pending'), Overlay(base, shared + pending)[e.k := e.value]);
  }

  lemma InsertPending(v: View, scope: Scope, pv: Maybe<Value>, k: Key, value: Value)
    ensures Insert(v, scope, pv, k, value).0.pending.Keys <= v.pending.Keys + {k}
  {
  }

  lemma ListedMore(k: Key, most: seq<Meta>, e: Meta)
    requires Listed(k, most) || k == e.k
    ensures Listed(k, most + [e])
  {
    assert (most + [e])[|most|] == e;
    if Listed(k, most) {
      var i :| 0 <= i < |most| && most[i].k == k;
      assert (most + [e])[i].k == k;
    }
  }

  lemma {:induction false} PendingListed(scope: Scope, storage: Store, shared: Changes, entries: seq<Meta>)
    requires WriteContext(scope, storage, shared, entries).1 == Ok
    ensures forall k | k in WriteContext(scope, storage, shared, entries).0.pending :: Listed(k, entries)
  {
    if entries != [] {
      var most, e := entries[..|entries| - 1], entries[|entries| - 1];
      var v := WriteContext(scope, storage, shared, most).0;
      PendingListed(scope, storage, shared, most);
      InsertPending(v, scope, ReadThrough(storage, shared, e.k), e.k, e.value);
      hide Insert, ReadThrough, Listed;
      assert entries == most + [e];
      forall k | k in WriteContext(scope, storage, shared, entries).0.pending ensures Listed(k, entries) {
        ListedMore(k, most, e);
      }
    }
  }

  lemma MostDistinct(entries: seq<Meta>)
    requires entries != [] && DistinctKeys(entries)
    ensures var (most, e) := (entries[..|entries| - 1], entries[|entries| - 1]);
            DistinctKeys(most) && !Listed(e.k, most)
  {
    assert forall i | 0 <= i < |entries| - 1 :: entries[..|entries| - 1][i] == entries[i];
  }

  lemma MostRight(storage: Store, base: Store, shared: Changes, entries: seq<Meta>)
    requires entries != [] && ReadRight(storage, base, shared, entries)
    ensures var (most, e) := (entries[..|entries| - 1], entries[|entries| - 1]);
            ReadRight(storage, base, shared, most) && !Misread(storage, base, shared, e)
  {
    hide Misread;
    assert forall i | 0 <= i < |entries| - 1 :: entries[..|entries| - 1][i] == entries[i];
  }

  lemma {:induction false} ContextWritten(scope: Scope, storage: Store, base: Store, shared: Changes,
                                          entries: seq<Meta>)
    requires ReadRight(storage, base, shared, entries) && DistinctKeys(entries)
    requires WriteContext(scope, storage, shared, entries).1 == Ok
    ensures var v := WriteContext(scope, storage, shared, entries).0;
            && (forall k | k in v.pending :: Listed(k, entries))
            && Overlay(base, shared + v.pending) == Written(Overlay(base, shared), entries)
  {
    PendingListed(scope, storage, shared, entries);
    if entries == [] {
      assert shared + map[] == shared;
    } else {
      hide DistinctKeys, ReadRight, Listed, Overlay;
      var most, e := entries[..|entries| - 1], entries[|entries| - 1];
      MostDistinct(entries);
      MostRight(storage, base, shared, entries);
      ContextWritten(scope, storage, base, shared, most);
      var v := WriteContext(scope, storage, shared, most).0;
      var pv := ReadThrough(storage, shared, e.k);
      InsertAccepted(v, scope, pv, e.k, e.value);
      OneMoreEntry(base, shared, v.pending, Insert(v, scope, pv, e.k, e.value).0.pending, pv, e);
    }
  }

  lemma {:induction false} AcceptedFit(scope: Scope, storage: Store, shared: Changes, entries: seq<Meta>)
    requires WriteContext(scope, storage, shared, entries).1 == Ok
    ensures forall i | 0 <= i < |entries| :: VerifyValue(entries[i].k, entries[i].value)
  {
    if entries != [] {
      var most := entries[..|entries| - 1];
      AcceptedFit(scope, storage, shared, most);
      forall i | 0 <= i < |entries| ensures VerifyValue(entries[i].k, entries[i].value) {
        if i < |most| {
          assert most[i] == entries[i];
        }
      }
    }
  }

  lemma {:induction false} CompleteNeverRefuses(storage: Store, shared: Changes, entries: seq<Meta>)
    requires forall i | 0 <= i < |entries| :: VerifyValue(entries[i].k, entries[i].value)
    ensures WriteContext(Complete, storage, shared, entries).1 == Ok
  {
    if entries != [] {
      var most, e := entries[..|entries| - 1], entries[|entries| - 1];
      assert forall i | 0 <= i < |most| :: most[i] == entries[i];
      CompleteNeverRefuses(storage, shared, most);
      InsertComplete(WriteContext(Complete, storage, shared, most).0, ReadThrough(storage, shared, e.k), e.k, e.value);
    }
  }

  /** An entry that is read as unchanged leaves no trace in the view. */
  lemma {:induction false} ReadUnchanged(scope: Scope, storage: Store, shared: Changes, entries: seq<Meta>, i: nat)
    requires DistinctKeys(entries) && i < |entries| && WriteContext(scope, storage, shared, entries).1 == Ok
    requires ReadThrough(storage, shared, entries[i].k) == Some(entries[i].value)
    ensures entries[i].k !in WriteContext(scope, storage, shared, entries).0.pending
  {
    var most, e := entries[..|entries| - 1], entries[|entries| - 1];
    assert forall j | 0 <= j < |most| :: most[j] == entries[j];
    var v := WriteContext(scope, storage, shared, most).0;
    PendingListed(scope, storage, shared, most);
    assert !Listed(e.k, most);
    InsertAccepted(v, scope, ReadThrough(storage, shared, e.k), e.k, e.value);
    if i < |most| {
      ReadUnchanged(scope, storage, shared, most, i);
    }
  }

  lemma {:induction false} WrittenAt(m: Store, entries: seq<Meta>, i: nat)
    requires DistinctKeys(entries) && i < |entries|
    ensures ReadStore(Written(m, entries), entries[i].k) == Some(entries[i].value)
  {
    var most := entries[..|entries| - 1];
    assert forall j | 0 <= j < |most| :: most[j] == entries[j];
    if i < |most| {
      WrittenAt(m, most, i);
    }
  }

  /**
   * The builder writes the entries with write permission only, over what it takes the parent's values
   * to be; the processor writes them with every permission over an empty storage. Whenever the builder's
   * writes go through, so do the processor's, which set every entry; and both leave the same state if and
   * only if the builder takes no changed entry for unchanged.
   */
  lemma ContextWritesAgree(keys: Keys, base: Store, storage: Store, shared: Changes, entries: seq<Meta>)
    requires DistinctKeys(entries)
    requires WriteContext(Limited(keys), storage, shared, entries).1 == Ok
    ensures WriteContext(Complete, map[], shared, entries).1 == Ok
    ensures var built := Overlay(base, shared + WriteContext(Limited(keys), storage, shared, entries).0.pending);
            var verified := Overlay(base, shared + WriteContext(Complete, map[], shared, entries).0.pending);
            && verified == Written(Overlay(base, shared), entries)
            && (built == verified <==> ReadRight(storage, base, shared, entries))
  {
    AcceptedFit(Limited(keys), storage, shared, entries);
    CompleteNeverRefuses(map[], shared, entries);
    ContextWritten(Complete, map[], base, shared, entries);
    if ReadRight(storage, base, shared, entries) {
      ContextWritten(Limited(keys), storage, base, shared, entries);
    } else {
      var i :| 0 <= i < |entries| && Misread(storage, base, shared, entries[i]);
      ReadUnchanged(Limited(keys), storage, shared, entries, i);
      WrittenAt(Overlay(base, shared), entries, i);
      var pending := WriteContext(Limited(keys), storage, shared, entries).0.pending;
      assert ReadStore(Overlay(base, shared + pending), entries[i].k) == ReadThrough(base, shared, entries[i].k);
    }
  }

  /**
   * Where it fails: the builder takes the parent's time from its block, and the genesis block's is not
   * the 0 that its state holds. A first block at exactly that time leaves the state's time at 0.
   */
  lemma GenesisTimeMisread(k: Key, t: uint64)
    requires t > 0
    ensures var (zero, time) := (PutBigEndian(0, 8), PutBigEndian(t, 8));
            !ReadRight(map[k := time], map[k := zero], map[], [Meta(k, time)])
  {
    var (zero, time) := (PutBigEndian(0, 8), PutBigEndian(t, 8));
    Pow256Of8();
    DecodeEncode(0, 8);
    DecodeEncode(t, 8);
    assert Misread(map[k := time], map[k := zero], map[], [Meta(k, time)][0]);
  }

  // ---------------------------------------------------------------------------------------------
  // The entries fit, and the builder may write them
  // ---------------------------------------------------------------------------------------------

  function EncodeChunks(prefix: Bytes, chunks: nat): (k: Key)
    requires chunks <= MAX_UINT16
  {
    prefix + PutBigEndian(chunks, 2)
  }

  lemma EncodedChunks(prefix: Bytes, chunks: nat)
    requires chunks <= MAX_UINT16
    ensures MaxChunks(EncodeChunks(prefix, chunks)) == Some(chunks)
  {
    var k := EncodeChunks(prefix, chunks);
    assert Pow256(2) == 65536;
    DecodeEncode(chunks, 2);
    assert k[|k| - 2..] == PutBigEndian(chunks, 2);
  }

  /** A height or a timestamp fits the one chunk of its key, and a packed fee state the eight of its own. */
  lemma EntriesFit(prefix: Bytes, word: uint64, fees: Value)
    requires |fees| == 8 * FeeManager.STATE_WORDS
    ensures VerifyValue(EncodeChunks(prefix, HEIGHT_KEY_CHUNKS), PutBigEndian(word, 8))
    ensures VerifyValue(EncodeChunks(prefix, TIMESTAMP_KEY_CHUNKS), PutBigEndian(word, 8))
    ensures VerifyValue(EncodeChunks(prefix, FEE_KEY_CHUNKS), fees)
  {
    EncodedChunks(prefix, HEIGHT_KEY_CHUNKS);
    EncodedChunks(prefix, FEE_KEY_CHUNKS);
  }

  /** The builder's writes go through if it may write the keys, the values fit, and what it reads from has them. */
  lemma {:induction false} BuilderNeverRefused(keys: Keys, storage: Store, shared: Changes, entries: seq<Meta>)
    requires DistinctKeys(entries)
    requires forall i | 0 <= i < |entries| ::
               && Limited(keys).Grants(entries[i].k, WRITE)
               && VerifyValue(entries[i].k, entries[i].value)
               && ReadThrough(storage, shared, entries[i].k).Some?
    ensures WriteContext(Limited(keys), storage, shared, entries).1 == Ok
  {
    if entries != [] {
      var most, e := entries[..|entries| - 1], entries[|entries| - 1];
      assert forall i | 0 <= i < |most| :: most[i] == entries[i];
      BuilderNeverRefused(keys, storage, shared, most);
      PendingListed(Limited(keys), storage, shared, most);
      assert !Listed(e.k, most);
    }
  }

  // ---------------------------------------------------------------------------------------------
  // The whole block
  // ---------------------------------------------------------------------------------------------

  /**
   * One statement about the final state. Whatever a builder built, if it verifies to the end then the
   * processor's consumption is the builder's, so that both write the same entries (which are a function
   * of it), the processor's writes go through, and the two states are equal if and only if the builder
   * took no changed entry for unchanged.
   */
  lemma FinalStatesAgree(base: Store, max: Dimensions, target: Dimensions, shared0: Changes,
                         batches: seq<BlockAgreement.Batch>, maxDependencies: nat, acts: seq<Executor.Action>,
                         keys: Keys, storage: Store, entries: Dimensions -> seq<Meta>)
    requires BlockAgreement.Builds(base, max, target, BlockAgreement.Built(shared0, ZERO, [], []), batches)
    requires var empty := BlockAgreement.Built(shared0, ZERO, [], []);
             var built := BlockAgreement.BuildAll(base, max, target, empty, batches);
             && DistinctKeys(entries(built.consumed))
             && WriteContext(Limited(keys), storage, built.shared, entries(built.consumed)).1 == Ok
             && var cfg := Executor.Config(base, BlockAgreement.TxJobs(built.txs), maxDependencies, Executor.Process);
                var s0 := Executor.Init(shared0, ZERO);
                && ExecutorOrder.Runs(cfg, s0, acts) && ExecutorOrder.Timely(cfg, s0, acts)
                && BlockAgreement.NoStop(acts)
                && var s := ExecutorOrder.After(cfg, s0, acts);
                   |s.tasks| == |built.txs| && forall i | 0 <= i < |s.tasks| :: ExecutorOrder.BodyDone(s.tasks[i].phase)
    ensures var empty := BlockAgreement.Built(shared0, ZERO, [], []);
            var built := BlockAgreement.BuildAll(base, max, target, empty, batches);
            var cfg := Executor.Config(base, BlockAgreement.TxJobs(built.txs), maxDependencies, Executor.Process);
            var s := ExecutorOrder.After(cfg, Executor.Init(shared0, ZERO), acts);
            var consumed := ConsumeAll(ZERO, BlockAgreement.Declared(built.txs), max);
            && consumed.Some?
            && var (mine, theirs) := (WriteContext(Complete, map[], s.shared, entries(consumed.value)),
                                      WriteContext(Limited(keys), storage, built.shared, entries(built.consumed)));
               && mine.1 == Ok
               && (Overlay(base, s.shared + mine.0.pending) == Overlay(base, built.shared + theirs.0.pending)
                   <==> ReadRight(storage, base, built.shared, entries(built.consumed)))
  {
    hide ConsumeAll, ExecutorOrder.Runs, ExecutorOrder.Timely, ExecutorOrder.After, WriteContext;
    BlockAgreement.BuilderProcessorAgree(base, max, target, shared0, batches, maxDependencies, ZERO, acts);
    var built := BlockAgreement.BuildAll(base, max, target, BlockAgreement.Built(shared0, ZERO, [], []), batches);
    ContextWritesAgree(keys, base, storage, built.shared, entries(built.consumed));
  }

  // ---------------------------------------------------------------------------------------------
  // The three entries of a real block
  // ---------------------------------------------------------------------------------------------

  /** Where a chain keeps its metadata: the prefixes of the height, the timestamp and the fee state. */
  datatype Prefixes = Prefixes(height: Bytes, timestamp: Bytes, fee: Bytes) {
    function HeightKey(): Key { EncodeChunks(height, HEIGHT_KEY_CHUNKS) }
    function TimestampKey(): Key { EncodeChunks(timestamp, TIMESTAMP_KEY_CHUNKS) }
    function FeeKey(): Key { EncodeChunks(fee, FEE_KEY_CHUNKS) }

    predicate Valid() {
      height != timestamp
    }
  }

  /** What a block builds on: its parent's height and time, and the fee state in its parent's state. */
  datatype Parent = Parent(height: uint64, time: nat, fees: FeeManager.StateWords)

  /** The entries that close a block at `time` that consumed `used`. */
  function BlockEntries(p: Prefixes, parent: Parent, time: uint64, rules: FeeManager.Rules, used: Dimensions)
    : (r: seq<Meta>)
    requires parent.height < MAX_UINT64 && rules.Valid()
  {
    [Meta(p.HeightKey(), PutBigEndian(parent.height + 1, 8)),
     Meta(p.TimestampKey(), PutBigEndian(time, 8)),
     Meta(p.FeeKey(), FeeRuns.FeeBytes(parent.fees, time, rules, used))]
  }

  /** What the builder takes the parent's entries to be. */
  function BuilderStorage(p: Prefixes, parent: Parent): (m: Store)
    requires parent.time <= MAX_UINT64
  {
    map[p.HeightKey() := PutBigEndian(parent.height, 8)]
       [p.TimestampKey() := PutBigEndian(parent.time, 8)]
       [p.FeeKey() := Window.Packed(parent.fees)]
  }

  function BuilderKeys(p: Prefixes): (keys: Keys) {
    map[p.HeightKey() := WRITE][p.TimestampKey() := WRITE][p.FeeKey() := WRITE]
  }

  lemma EncodedApart(a: Bytes, b: Bytes, m: nat, n: nat)
    requires m <= MAX_UINT16 && n <= MAX_UINT16 && (a != b || m != n)
    ensures EncodeChunks(a, m) != EncodeChunks(b, n)
  {
    EncodedChunks(a, m);
    EncodedChunks(b, n);
    var (x, y) := (EncodeChunks(a, m), EncodeChunks(b, n));
    assert a == x[..|x| - 2] && b == y[..|y| - 2];
  }

  lemma WordsApart(m: uint64, n: uint64)
    requires m != n
    ensures PutBigEndian(m, 8) != PutBigEndian(n, 8)
  {
    Pow256Of8();
    DecodeEncode(m, 8);
    DecodeEncode(n, 8);
  }

  predicate Apart(p: Prefixes) {
    p.HeightKey() != p.TimestampKey() && p.HeightKey() != p.FeeKey() && p.TimestampKey() != p.FeeKey()
  }

  lemma KeysApart(p: Prefixes)
    requires p.Valid()
    ensures Apart(p)
  {
    EncodedApart(p.height, p.timestamp, HEIGHT_KEY_CHUNKS, TIMESTAMP_KEY_CHUNKS);
    EncodedApart(p.height, p.fee, HEIGHT_KEY_CHUNKS, FEE_KEY_CHUNKS);
    EncodedApart(p.timestamp, p.fee, TIMESTAMP_KEY_CHUNKS, FEE_KEY_CHUNKS);
  }

  lemma StorageReads(p: Prefixes, parent: Parent)
    requires Apart(p) && parent.time <= MAX_UINT64
    ensures ReadStore(BuilderStorage(p, parent), p.HeightKey()) == Some(PutBigEndian(parent.height, 8))
    ensures ReadStore(BuilderStorage(p, parent), p.TimestampKey()) == Some(PutBigEndian(parent.time, 8))
    ensures ReadStore(BuilderStorage(p, parent), p.FeeKey()) == Some(Window.Packed(parent.fees))
  {
    hide EncodeChunks, PutBigEndian, Window.Packed;
  }

  lemma NotMisread(storage: Store, base: Store, shared: Changes, e: Meta)
    requires ReadStore(storage, e.k) != Some(e.value) || ReadStore(storage, e.k) == ReadStore(base, e.k)
    ensures !Misread(storage, base, shared, e)
  {
  }

  lemma ThreeRight(storage: Store, base: Store, shared: Changes, a: Meta, b: Meta, c: Meta)
    requires a.k != b.k && a.k != c.k && b.k != c.k
    requires forall e | e in [a, b, c] :: !Misread(storage, base, shared, e)
    ensures DistinctKeys([a, b, c]) && ReadRight(storage, base, shared, [a, b, c])
  {
    hide Misread;
  }

  /** A block that is higher and later than its parent has no entry that the builder takes for unchanged. */
  lemma BlockReadRight(p: Prefixes, parent: Parent, time: uint64, rules: FeeManager.Rules, used: Dimensions,
                       base: Store, shared: Changes)
    requires p.Valid() && parent.height < MAX_UINT64 && parent.time < time && rules.Valid()
    requires ReadStore(base, p.FeeKey()) == Some(Window.Packed(parent.fees))
    ensures DistinctKeys(BlockEntries(p, parent, time, rules, used))
    ensures ReadRight(BuilderStorage(p, parent), base, shared, BlockEntries(p, parent, time, rules, used))
  {
    hide EncodeChunks, PutBigEndian, FeeRuns.FeeBytes, Window.Packed, BuilderStorage, Misread, DistinctKeys, ReadRight;
    KeysApart(p);
    StorageReads(p, parent);
    WordsApart(parent.height, parent.height + 1);
    WordsApart(parent.time, time);
    var (storage, entries) := (BuilderStorage(p, parent), BlockEntries(p, parent, time, rules, used));
    NotMisread(storage, base, shared, entries[0]);
    NotMisread(storage, base, shared, entries[1]);
    NotMisread(storage, base, shared, entries[2]);
    hide ReadStore;
    ThreeRight(storage, base, shared, entries[0], entries[1], entries[2]);
  }

  lemma {:induction false} WrittenElse(m: Store, entries: seq<Meta>, k: Key)
    requires !Listed(k, entries)
    ensures ReadStore(Written(m, entries), k) == ReadStore(m, k)
  {
    if entries != [] {
      var most := entries[..|entries| - 1];
      assert entries[|entries| - 1].k != k;
      assert forall j | 0 <= j < |most| :: most[j] == entries[j];
      WrittenElse(m, most, k);
    }
  }

  /** The key reads as this word. */
  ghost predicate Holds(m: Store, k: Key, n: nat) {
    ReadStore(m, k).Some? && |ReadStore(m, k).value| == 8 && BigEndian(ReadStore(m, k).value) == n
  }

  lemma WordHeld(m: Store, k: Key, n: uint64)
    requires ReadStore(m, k) == Some(PutBigEndian(n, 8))
    ensures Holds(m, k, n)
  {
    Pow256Of8();
    DecodeEncode(n, 8);
  }

  lemma EntriesApart(p: Prefixes, parent: Parent, time: uint64, rules: FeeManager.Rules, used: Dimensions)
    requires p.Valid() && parent.height < MAX_UINT64 && rules.Valid()
    ensures var entries := BlockEntries(p, parent, time, rules, used);
            && entries[0].k != entries[1].k && entries[0].k != entries[2].k && entries[1].k != entries[2].k
            && VerifyValue(entries[0].k, entries[0].value) && VerifyValue(entries[1].k, entries[1].value)
            && VerifyValue(entries[2].k, entries[2].value)
  {
    hide EncodeChunks, PutBigEndian, FeeRuns.FeeBytes, VerifyValue;
    KeysApart(p);
    EntriesFit(p.height, parent.height + 1, FeeRuns.FeeBytes(parent.fees, time, rules, used));
    EntriesFit(p.timestamp, time, FeeRuns.FeeBytes(parent.fees, time, rules, used));
    EntriesFit(p.fee, time, FeeRuns.FeeBytes(parent.fees, time, rules, used));
  }

  lemma ThreeWritten(base: Store, shared: Changes, a: Meta, b: Meta, c: Meta)
    requires a.k != b.k && a.k != c.k && b.k != c.k
    requires VerifyValue(a.k, a.value) && VerifyValue(b.k, b.value) && VerifyValue(c.k, c.value)
    ensures var v := WriteContext(Complete, map[], shared, [a, b, c]);
            var m := Overlay(base, shared + v.0.pending);
            && v.1 == Ok && ReadStore(m, a.k) == Some(a.value) && ReadStore(m, b.k) == Some(b.value)
            && ReadStore(m, c.k) == Some(c.value)
            && (forall k | k !in {a.k, b.k, c.k} :: ReadStore(m, k) == ReadThrough(base, shared, k))
  {
    hide VerifyValue, WriteContext, Written;
    var (entries, before) := ([a, b, c], Overlay(base, shared));
    CompleteNeverRefuses(map[], shared, entries);
    ContextWritten(Complete, map[], base, shared, entries);
    WrittenAt(before, entries, 0);
    WrittenAt(before, entries, 1);
    WrittenAt(before, entries, 2);
    forall k | k !in {a.k, b.k, c.k}
      ensures ReadStore(Written(before, entries), k) == ReadThrough(base, shared, k)
    {
      WrittenElse(before, entries, k);
    }
  }

  /**
   * What the next block reads back: the state after a block holds its height, one above its parent's, its
   * time and the fee state it computed, each under its own key, and every other key as the transactions
   * left it.
   */
  lemma MetadataReadBack(p: Prefixes, parent: Parent, time: uint64, rules: FeeManager.Rules, used: Dimensions,
                         base: Store, shared: Changes)
    requires p.Valid() && parent.height < MAX_UINT64 && rules.Valid()
    ensures var v := WriteContext(Complete, map[], shared, BlockEntries(p, parent, time, rules, used));
            var m := Overlay(base, shared + v.0.pending);
            && v.1 == Ok
            && Holds(m, EncodeChunks(p.height, HEIGHT_KEY_CHUNKS), parent.height + 1)
            && Holds(m, EncodeChunks(p.timestamp, TIMESTAMP_KEY_CHUNKS), time)
            && ReadStore(m, EncodeChunks(p.fee, FEE_KEY_CHUNKS))
               == Some(Window.Packed(FeeRuns.FeeWords(parent.fees, time, rules, used)))
            && (forall k | k !in {p.HeightKey(), p.TimestampKey(), p.FeeKey()} ::
                  ReadStore(m, k) == ReadThrough(base, shared, k))
  {
    hide EncodeChunks, PutBigEndian, Window.Packed, FeeRuns.FeeWords, VerifyValue;
    hide WriteContext, Overlay, Holds, ReadStore;
    EntriesApart(p, parent, time, rules, used);
    var entries := BlockEntries(p, parent, time, rules, used);
    ThreeWritten(base, shared, entries[0], entries[1], entries[2]);
    var m := Overlay(base, shared + WriteContext(Complete, map[], shared, entries).0.pending);
    WordHeld(m, entries[0].k, parent.height + 1);
    WordHeld(m, entries[1].k, time);
  }

  /** The builder may write the three entries, if no transaction removed one of them. */
  lemma BlockWritesGoThrough(p: Prefixes, parent: Parent, time: uint64, rules: FeeManager.Rules, used: Dimensions,
                             base: Store, shared: Changes)
    requires p.Valid() && parent.height < MAX_UINT64 && parent.time < time && rules.Valid()
    requires ReadStore(base, p.FeeKey()) == Some(Window.Packed(parent.fees))
    requires forall k | k in shared && k in {p.HeightKey(), p.TimestampKey(), p.FeeKey()} :: shared[k].Some?
    ensures WriteContext(Limited(BuilderKeys(p)), BuilderStorage(p, parent), shared,
                         BlockEntries(p, parent, time, rules, used)).1 == Ok
  {
    BlockReadRight(p, parent, time, rules, used, base, shared);
    EntriesFit(p.height, parent.height + 1, FeeRuns.FeeBytes(parent.fees, time, rules, used));
    EntriesFit(p.timestamp, time, FeeRuns.FeeBytes(parent.fees, time, rules, used));
    EntriesFit(p.fee, time, FeeRuns.FeeBytes(parent.fees, time, rules, used));
    WriteGranted(p);
    hide EncodeChunks, PutBigEndian, FeeRuns.FeeBytes, Window.Packed, WriteContext, VerifyValue, BuilderKeys;
    BuilderNeverRefused(BuilderKeys(p), BuilderStorage(p, parent), shared, BlockEntries(p, parent, time, rules, used));
  }

  lemma WriteGranted(p: Prefixes)
    ensures var scope := Limited(BuilderKeys(p));
            && scope.Grants(p.HeightKey(), WRITE) && scope.Grants(p.TimestampKey(), WRITE)
            && scope.Grants(p.FeeKey(), WRITE)
  {
  }

  /**
   * A block that was built is a block that verifies to the same state. Take any block built on a parent
   * from any batches in any interleavings, at a later time than its parent's, whose metadata the builder
   * could write. The processor consumes the units the transactions declare, runs them in any
   * interleaving, and writes the height, the time and the fee state it computed itself. It ends in the
   * builder's state.
   */
  lemma BuiltBlockVerifies(base: Store, max: Dimensions, rules: FeeManager.Rules, shared0: Changes,
                           batches: seq<BlockAgreement.Batch>, maxDependencies: nat, acts: seq<Executor.Action>,
                           p: Prefixes, parent: Parent, time: uint64)
    requires p.Valid() && parent.height < MAX_UINT64 && parent.time < time && rules.Valid()
    requires ReadStore(base, p.FeeKey()) == Some(Window.Packed(parent.fees))
    requires BlockAgreement.Builds(base, max, rules.target, BlockAgreement.Built(shared0, ZERO, [], []), batches)
    requires var empty := BlockAgreement.Built(shared0, ZERO, [], []);
             var built := BlockAgreement.BuildAll(base, max, rules.target, empty, batches);
             && WriteContext(Limited(BuilderKeys(p)), BuilderStorage(p, parent), built.shared,
                             BlockEntries(p, parent, time, rules, built.consumed)).1 == Ok
             && var cfg := Executor.Config(base, BlockAgreement.TxJobs(built.txs), maxDependencies, Executor.Process);
                var s0 := Executor.Init(shared0, ZERO);
                && ExecutorOrder.Runs(cfg, s0, acts) && ExecutorOrder.Timely(cfg, s0, acts)
                && BlockAgreement.NoStop(acts)
                && var s := ExecutorOrder.After(cfg, s0, acts);
                   |s.tasks| == |built.txs| && forall i | 0 <= i < |s.tasks| :: ExecutorOrder.BodyDone(s.tasks[i].phase)
    ensures var empty := BlockAgreement.Built(shared0, ZERO, [], []);
            var built := BlockAgreement.BuildAll(base, max, rules.target, empty, batches);
            var cfg := Executor.Config(base, BlockAgreement.TxJobs(built.txs), maxDependencies, Executor.Process);
            var s := ExecutorOrder.After(cfg, Executor.Init(shared0, ZERO), acts);
            var consumed := ConsumeAll(ZERO, BlockAgreement.Declared(built.txs), max);
            && consumed.Some?
            && var verified := WriteContext(Complete, map[], s.shared,
                                            BlockEntries(p, parent, time, rules, consumed.value));
               var mine := WriteContext(Limited(BuilderKeys(p)), BuilderStorage(p, parent), built.shared,
                                        BlockEntries(p, parent, time, rules, built.consumed));
               && verified.1 == Ok
               && Overlay(base, s.shared + verified.0.pending) == Overlay(base, built.shared + mine.0.pending)
  {
    hide ConsumeAll, ExecutorOrder.Runs, ExecutorOrder.Timely, ExecutorOrder.After, WriteContext, BlockEntries;
    hide BuilderStorage, BuilderKeys, Overlay, Window.Packed;
    var empty := BlockAgreement.Built(shared0, ZERO, [], []);
    var built := BlockAgreement.BuildAll(base, max, rules.target, empty, batches);
    BlockReadRight(p, parent, time, rules, built.consumed, base, built.shared);
    var entries := (used: Dimensions) => BlockEntries(p, parent, time, rules, used);
    FinalStatesAgree(base, max, rules.target, shared0, batches, maxDependencies, acts,
                     BuilderKeys(p), BuilderStorage(p, parent), entries);
  }
}
