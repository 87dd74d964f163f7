/**
 * A transaction as a task body: the pre-execution checks, the fee deduction, then the actions, rolled
 * back as a whole if one of them fails.
 */
module Transaction {
  import opened Bytes
  import opened StateKeys
  import opened Views
  import opened Units
  import opened Executor

  // ---------------------------------------------------------------------------------------------
  // Balances
  // ---------------------------------------------------------------------------------------------

  const BALANCE_CHUNKS := 1

  function BalanceKey(prefix: Bytes, addr: Bytes): (k: Key) {
    prefix + addr + PutBigEndian(BALANCE_CHUNKS, 2)
  }

  /** Every address has a balance key of its own, under the prefix and with one chunk reserved. */
  lemma BalanceKeysApart(prefix: Bytes, a: Bytes, b: Bytes)
    ensures BalanceKey(prefix, a) == BalanceKey(prefix, b) <==> a == b
    ensures BalanceKey(prefix, a) == prefix + a + [0, 1]
  {
    assert PutBigEndian(BALANCE_CHUNKS, 2) == [0, 1] by {
      assert PutBigEndian(0, 1) == [0];
    }
    var (x, y) := (BalanceKey(prefix, a), BalanceKey(prefix, b));
    if x == y {
      assert a == x[|prefix|..|x| - 2] && b == y[|prefix|..|y| - 2];
    }
  }

  function PackUint64(n: uint64): (v: Value) {
    PutBigEndian(n, 8)
  }

  function ParseUint64(v: Value): (n: Maybe<uint64>)
    ensures n.Some? ==> PackUint64(n.value) == v
  {
    if |v| != 8 then Nothing
    else
      BigEndianBound(v);
      Pow256Of8();
      EncodeDecode(v);
      Some(BigEndian(v))
  }

  /** `CanDeduct` on the account's stored value: a missing account counts as an empty one. */
  predicate CanDeduct(account: Maybe<Value>, amount: uint64) {
    match account
    case Nothing => amount == 0
    case Some(v) => ParseUint64(v).Some? && amount <= ParseUint64(v).value
  }

  /** `Deduct`'s new balance: a missing account is refused whatever the amount. */
  function Deduct(account: Maybe<Value>, amount: uint64): (r: Maybe<uint64>) {
    match account
    case Nothing => Nothing
    case Some(v) =>
      match ParseUint64(v)
      case Nothing => Nothing
      case Some(balance) => if balance < amount then Nothing else Some(balance - amount)
  }

  /**
   * A deduction that was checked goes through exactly when the account exists; the check alone accepts
   * a zero amount on a missing account.
   */
  lemma CheckedDeduction(account: Maybe<Value>, amount: uint64)
    requires CanDeduct(account, amount)
    ensures Deduct(account, amount).Some? <==> account.Some?
    ensures account.Nothing? ==> amount == 0
    ensures Deduct(account, amount).Some? ==>
              Deduct(account, amount).value + amount == ParseUint64(account.value).value
  {
  }

  /** A packed balance always fits the one chunk that its key reserves. */
  lemma BalanceFits(prefix: Bytes, addr: Bytes, n: uint64)
    ensures VerifyValue(BalanceKey(prefix, addr), PackUint64(n))
  {
    var k := BalanceKey(prefix, addr);
    assert Pow256(2) == 65536;
    DecodeEncode(BALANCE_CHUNKS, 2);
    assert k[|k| - 2..] == PutBigEndian(BALANCE_CHUNKS, 2);
  }

  lemma PackParse(n: uint64)
    ensures ParseUint64(PackUint64(n)) == Some(n)
  {
    Pow256Of8();
    DecodeEncode(n, 8);
  }

  // ---------------------------------------------------------------------------------------------
  // The task body
  // ---------------------------------------------------------------------------------------------

  /** What an action does next: use the view, or end. Actions see the state interface, not the undo log. */
  datatype ActionOp =
    | ActFetch(k: Key)
    | ActPut(k: Key, value: Value)
    | ActDelete(k: Key)
    | ActDone(output: Bytes)
    | ActFail(error: Bytes)

  /**
   * `valid` stands for the checks of the chain ID, the timestamps and the activation ranges; `fee` is
   * absent if the units or their price overflow.
   */
  datatype Tx = Tx(
    prefix: Bytes,
    sponsor: Bytes,
    valid: bool,
    units: Dimensions,
    fee: Maybe<uint64>,
    actions: seq<seq<Response> -> ActionOp>
  )

  datatype Stage =
    | Checking
    | Charging
    | Paying(balance: uint64)
    | Marking
    | Acting(start: nat, i: nat, heard: seq<Response>, outputs: seq<Bytes>)
    | Reverting(start: nat, error: Bytes, outputs: seq<Bytes>)
    | Ended(outcome: Outcome)

  function SponsorKey(tx: Tx): (k: Key) {
    BalanceKey(tx.prefix, tx.sponsor)
  }

  ghost function Success(tx: Tx, outputs: seq<Bytes>): (r: Result)
    requires tx.fee.Some?
  {
    Result(true, [], outputs, tx.units, tx.fee.value)
  }

  ghost function Failure(tx: Tx, error: Bytes, outputs: seq<Bytes>): (r: Result)
    requires tx.fee.Some?
  {
    Result(false, error, outputs, tx.units, tx.fee.value)
  }

  /** Moves past actions that have ended to the next one that uses the view. */
  ghost function Proceed(tx: Tx, start: nat, i: nat, heard: seq<Response>, outputs: seq<Bytes>): (r: Stage)
    requires tx.fee.Some? && i <= |tx.actions|
    decreases |tx.actions| - i
  {
    if i == |tx.actions| then Ended(Finish(Success(tx, outputs)))
    else
      match tx.actions[i](heard)
      case ActDone(out) => Proceed(tx, start, i + 1, [], outputs + [out])
      case ActFail(e) => Reverting(start, e, outputs)
      case _ => Acting(start, i, heard, outputs)
  }

  ghost function Account(resp: Response): (r: Maybe<Maybe<Value>>) {
    match resp
    case Got(v) => Some(Some(v))
    case Replied(st) => if st == NotFound then Some(Nothing) else Nothing
    case Position(_) => Nothing
  }

  ghost function Hear(tx: Tx, st: Stage, resp: Response): (r: Stage) {
    if tx.fee.Nothing? then st
    else
      match st
      case Checking =>
        if Account(resp).Some? && CanDeduct(Account(resp).value, tx.fee.value) then Charging else Ended(Refuse)
      case Charging =>
        if Account(resp).Some? && Deduct(Account(resp).value, tx.fee.value).Some?
        then Paying(Deduct(Account(resp).value, tx.fee.value).value)
        else Ended(Abort)
      case Paying(_) => if resp == Replied(Ok) then Marking else Ended(Abort)
      case Marking => if resp.Position? then Proceed(tx, resp.n, 0, [], []) else st
      case Acting(start, i, heard, outs) =>
        if i <= |tx.actions| then Proceed(tx, start, i, heard + [resp], outs) else st
      case Reverting(_, e, outs) => Ended(Finish(Failure(tx, e, outs)))
      case Ended(_) => st
  }

  ghost function Next(tx: Tx, st: Stage): (op: Op) {
    match st
    case Checking => if !tx.valid || tx.fee.Nothing? then Return(Refuse) else Fetch(SponsorKey(tx))
    case Charging => Fetch(SponsorKey(tx))
    case Paying(b) => Put(SponsorKey(tx), PackUint64(b))
    case Marking => Mark
    case Acting(_, i, heard, _) =>
      if i < |tx.actions| then
        match tx.actions[i](heard)
        case ActFetch(k) => Fetch(k)
        case ActPut(k, v) => Put(k, v)
        case ActDelete(k) => Delete(k)
        case _ => Mark
      else Mark
    case Reverting(start, _, _) => Restore(start)
    case Ended(o) => Return(o)
  }

  ghost function StageAfter(tx: Tx, heard: seq<Response>): (st: Stage) {
    if heard == [] then Checking
    else Hear(tx, StageAfter(tx, heard[..|heard| - 1]), heard[|heard| - 1])
  }

  ghost function Body(tx: Tx): (p: Program) {
    (heard: seq<Response>) => Next(tx, StageAfter(tx, heard))
  }

  ghost function TxJob(tx: Tx, keys: Keys): (job: Job) {
    Job(keys, Body(tx))
  }

  // ---------------------------------------------------------------------------------------------
  // A failed transaction pays its fee and does nothing else
  // ---------------------------------------------------------------------------------------------

  /** The parent's value of the sponsor's account. */
  ghost function SponsorAccount(tx: Tx, keys: Keys, base: Store, shared: Changes): (r: Maybe<Value>) {
    ReadThrough(Prefetched(base, keys), shared, SponsorKey(tx))
  }

  /** The sponsor's balance key is declared with read and write, as `SponsorStateKeys` does. */
  predicate Sponsored(tx: Tx, keys: Keys) {
    Has(PermissionOf(keys, SponsorKey(tx)), WRITE)
  }

  /** The view right after the deduction. */
  ghost function PaidView(tx: Tx, keys: Keys, account: Maybe<Value>, balance: uint64): (v: View) {
    Insert(EMPTY, Limited(keys), account, SponsorKey(tx), PackUint64(balance)).0
  }

  /** The view can be rolled back to just after the deduction. */
  ghost predicate Restorable(v: View, paid: View) {
    Tracked(v) && |paid.ops| <= |v.ops| && Same(Rollback(v, |paid.ops|), paid)
  }

  ghost predicate TxInv(tx: Tx, keys: Keys, account: Maybe<Value>, st: Stage, v: View)
  {
    if tx.fee.Nothing? || !tx.valid then st.Checking? && v == EMPTY
    else
      var due := Deduct(account, tx.fee.value);
      match st
      case Checking => v == EMPTY
      case Charging => v == EMPTY && CanDeduct(account, tx.fee.value)
      case Paying(b) => v == EMPTY && due == Some(b)
      case Marking => due.Some? && v == PaidView(tx, keys, account, due.value)
      case Acting(start, i, heard, _) =>
        && due.Some? && start == |PaidView(tx, keys, account, due.value).ops|
        && Restorable(v, PaidView(tx, keys, account, due.value))
        && i < |tx.actions| && !tx.actions[i](heard).ActDone? && !tx.actions[i](heard).ActFail?
      case Reverting(start, _, _) =>
        && due.Some? && start == |PaidView(tx, keys, account, due.value).ops|
        && Restorable(v, PaidView(tx, keys, account, due.value))
      case Ended(o) =>
        && (o.Abort? ==> CanDeduct(account, tx.fee.value) && account.Nothing?)
        && (o.Finish? ==> due.Some? && o.result.units == tx.units && o.result.fee == tx.fee.value)
        && (o.Finish? && !o.result.success ==> Same(v, PaidView(tx, keys, account, due.value)))
  }

  lemma {:induction false} ProceedInv(tx: Tx, keys: Keys, account: Maybe<Value>, v: View, start: nat, i: nat,
                                      heard: seq<Response>, outputs: seq<Bytes>)
    requires tx.valid && tx.fee.Some? && i <= |tx.actions|
    requires Deduct(account, tx.fee.value).Some?
    requires start == |PaidView(tx, keys, account, Deduct(account, tx.fee.value).value).ops|
    requires Restorable(v, PaidView(tx, keys, account, Deduct(account, tx.fee.value).value))
    ensures TxInv(tx, keys, account, Proceed(tx, start, i, heard, outputs), v)
    decreases |tx.actions| - i
  {
    if i < |tx.actions| && tx.actions[i](heard).ActDone? {
      ProceedInv(tx, keys, account, v, start, i + 1, [], outputs + [tx.actions[i](heard).output]);
    }
  }

  /** Reading, inserting and removing leave every earlier restore point as it was. */
  lemma RespondKeepsPast(v: View, keys: Keys, storage: Store, shared: Changes, op: Op, n: nat)
    requires Tracked(v) && n <= |v.ops| && (op.Fetch? || op.Put? || op.Delete?)
    ensures var r := Respond(v, Limited(keys), storage, shared, op).0;
            Tracked(r) && n <= |r.ops| && Same(Rollback(r, n), Rollback(v, n))
  {
    var r := Respond(v, Limited(keys), storage, shared, op).0;
    if op.Put? {
      UndoInsert(v, Limited(keys), ReadThrough(storage, shared, op.k), op.k, op.value);
    } else if op.Delete? {
      UndoRemove(v, Limited(keys), ReadThrough(storage, shared, op.k), op.k);
    }
    if r != v {
      RollbackCongruent(Undo(r), v, n);
    }
  }

  lemma ActingStep(tx: Tx, keys: Keys, base: Store, shared: Changes, st: Stage, v: View)
    requires st.Acting? && TxInv(tx, keys, SponsorAccount(tx, keys, base, shared), st, v)
    ensures var (v', resp) := Respond(v, Limited(keys), Prefetched(base, keys), shared, Next(tx, st));
            TxInv(tx, keys, SponsorAccount(tx, keys, base, shared), Hear(tx, st, resp), v')
  {
    var account := SponsorAccount(tx, keys, base, shared);
    var op := Next(tx, st);
    var paid := PaidView(tx, keys, account, Deduct(account, tx.fee.value).value);
    var (v', resp) := Respond(v, Limited(keys), Prefetched(base, keys), shared, op);
    RespondKeepsPast(v, keys, Prefetched(base, keys), shared, op, |paid.ops|);
    ProceedInv(tx, keys, account, v', st.start, st.i, st.heard + [resp], st.outputs);
  }

  lemma PaidTracked(tx: Tx, keys: Keys, account: Maybe<Value>, balance: uint64)
    ensures Tracked(PaidView(tx, keys, account, balance))
    ensures Restorable(PaidView(tx, keys, account, balance), PaidView(tx, keys, account, balance))
  {
    UndoInsert(EMPTY, Limited(keys), account, SponsorKey(tx), PackUint64(balance));
  }

  lemma ChargingStep(tx: Tx, keys: Keys, base: Store, shared: Changes, st: Stage, v: View)
    requires Sponsored(tx, keys) && !Next(tx, st).Return? && (st.Checking? || st.Charging? || st.Paying?)
    requires TxInv(tx, keys, SponsorAccount(tx, keys, base, shared), st, v)
    ensures var (v', resp) := Respond(v, Limited(keys), Prefetched(base, keys), shared, Next(tx, st));
            TxInv(tx, keys, SponsorAccount(tx, keys, base, shared), Hear(tx, st, resp), v')
  {
    var account := SponsorAccount(tx, keys, base, shared);
    WriterIsExclusive(PermissionOf(keys, SponsorKey(tx)));
    if st.Charging? {
      CheckedDeduction(account, tx.fee.value);
    }
    if st.Paying? {
      BalanceFits(tx.prefix, tx.sponsor, st.balance);
    }
  }

  lemma MarkingStep(tx: Tx, keys: Keys, base: Store, shared: Changes, st: Stage, v: View)
    requires (st.Marking? || st.Reverting?)
    requires TxInv(tx, keys, SponsorAccount(tx, keys, base, shared), st, v)
    ensures var (v', resp) := Respond(v, Limited(keys), Prefetched(base, keys), shared, Next(tx, st));
            TxInv(tx, keys, SponsorAccount(tx, keys, base, shared), Hear(tx, st, resp), v')
  {
    var account := SponsorAccount(tx, keys, base, shared);
    var due := Deduct(account, tx.fee.value).value;
    if st.Marking? {
      PaidTracked(tx, keys, account, due);
      ProceedInv(tx, keys, account, v, |v.ops|, 0, [], []);
    }
  }

  /** Every operation of the body keeps the invariant of its stage. */
  lemma StageStep(tx: Tx, keys: Keys, base: Store, shared: Changes, st: Stage, v: View)
    requires Sponsored(tx, keys) && !Next(tx, st).Return?
    requires TxInv(tx, keys, SponsorAccount(tx, keys, base, shared), st, v)
    ensures var (v', resp) := Respond(v, Limited(keys), Prefetched(base, keys), shared, Next(tx, st));
            TxInv(tx, keys, SponsorAccount(tx, keys, base, shared), Hear(tx, st, resp), v')
  {
    hide TxInv, Respond, Hear, SponsorAccount, Sponsored;
    match st
    case Acting(_, _, _, _) => ActingStep(tx, keys, base, shared, st, v);
    case Marking => MarkingStep(tx, keys, base, shared, st, v);
    case Reverting(_, _, _) => MarkingStep(tx, keys, base, shared, st, v);
    case Checking => ChargingStep(tx, keys, base, shared, st, v);
    case Charging => ChargingStep(tx, keys, base, shared, st, v);
    case Paying(_) => ChargingStep(tx, keys, base, shared, st, v);
  }

  lemma StageAppend(tx: Tx, heard: seq<Response>, resp: Response)
    ensures StageAfter(tx, heard + [resp]) == Hear(tx, StageAfter(tx, heard), resp)
  {
    assert (heard + [resp])[..|heard|] == heard;
  }

  /** What a body does next, at the stage its responses have led to. */
  lemma AdvanceStage(tx: Tx, keys: Keys, base: Store, shared: Changes, x: Session)
    ensures
      var op := Next(tx, StageAfter(tx, x.heard));
      var y := Advance(TxJob(tx, keys), base, shared, x);
      if op.Return? then y == x
      else
        var (v', resp) := Respond(x.view, Limited(keys), Prefetched(base, keys), shared, op);
        y == Session(v', x.heard + [resp]) && StageAfter(tx, y.heard) == Hear(tx, StageAfter(tx, x.heard), resp)
  {
    hide Next, Hear, Respond;
    var op := Next(tx, StageAfter(tx, x.heard));
    assert TxJob(tx, keys).prog(x.heard) == op;
    if !op.Return? {
      var (v', resp) := Respond(x.view, Limited(keys), Prefetched(base, keys), shared, op);
      StageAppend(tx, x.heard, resp);
    }
  }

  lemma FreshInv(tx: Tx, keys: Keys, base: Store, shared: Changes)
    ensures Alone(TxJob(tx, keys), base, shared, 0) == FRESH
    ensures TxInv(tx, keys, SponsorAccount(tx, keys, base, shared), StageAfter(tx, FRESH.heard), FRESH.view)
  {
    hide SponsorAccount;
  }

  lemma {:induction false} TxInvAlone(tx: Tx, keys: Keys, base: Store, shared: Changes, n: nat)
    requires Sponsored(tx, keys)
    ensures var x := Alone(TxJob(tx, keys), base, shared, n);
            TxInv(tx, keys, SponsorAccount(tx, keys, base, shared), StageAfter(tx, x.heard), x.view)
  {
    FreshInv(tx, keys, base, shared);
    hide TxInv, Respond, Next, Hear, SponsorAccount, Sponsored, Advance, StageAfter, TxJob, Prefetched;
    if n > 0 {
      TxInvAlone(tx, keys, base, shared, n - 1);
      var x := Alone(TxJob(tx, keys), base, shared, n - 1);
      AdvanceStage(tx, keys, base, shared, x);
      if !Next(tx, StageAfter(tx, x.heard)).Return? {
        StageStep(tx, keys, base, shared, StageAfter(tx, x.heard), x.view);
      }
    }
  }

  lemma PaidPending(tx: Tx, keys: Keys, account: Value, amount: uint64)
    requires Sponsored(tx, keys) && Deduct(Some(account), amount).Some?
    ensures var balance := Deduct(Some(account), amount).value;
            PaidView(tx, keys, Some(account), balance).pending
            == if amount == 0 then map[] else map[SponsorKey(tx) := Some(PackUint64(balance))]
  {
    var balance := Deduct(Some(account), amount).value;
    BalanceFits(tx.prefix, tx.sponsor, balance);
    PackParse(balance);
  }

  /**
   * A transaction whose action failed commits nothing but its fee: whatever the actions did, the only
   * pending change left is the sponsor's balance, lower by exactly the fee of the result (and there is
   * no change at all for a zero fee).
   */
  lemma FailedTxPaysOnlyItsFee(tx: Tx, keys: Keys, base: Store, shared: Changes, n: nat, result: Result)
    requires Sponsored(tx, keys)
    requires Body(tx)(Alone(TxJob(tx, keys), base, shared, n).heard) == Return(Finish(result)) && !result.success
    ensures var account := SponsorAccount(tx, keys, base, shared);
            && account.Some? && ParseUint64(account.value).Some? && result.fee <= ParseUint64(account.value).value
            && tx.fee == Some(result.fee) && result.units == tx.units
            && Alone(TxJob(tx, keys), base, shared, n).view.pending
               == if result.fee == 0 then map[]
                  else map[SponsorKey(tx) := Some(PackUint64(ParseUint64(account.value).value - result.fee))]
  {
    hide TxInv, Alone;
    TxInvAlone(tx, keys, base, shared, n);
    FailedEnd(tx, keys, SponsorAccount(tx, keys, base, shared),
              StageAfter(tx, Alone(TxJob(tx, keys), base, shared, n).heard),
              Alone(TxJob(tx, keys), base, shared, n).view, result);
  }

  lemma FailedEnd(tx: Tx, keys: Keys, account: Maybe<Value>, st: Stage, v: View, result: Result)
    requires Sponsored(tx, keys) && TxInv(tx, keys, account, st, v)
    requires Next(tx, st) == Return(Finish(result)) && !result.success
    ensures account.Some? && ParseUint64(account.value).Some? && result.fee <= ParseUint64(account.value).value
    ensures tx.fee == Some(result.fee) && result.units == tx.units
    ensures v.pending == if result.fee == 0 then map[]
                         else map[SponsorKey(tx) := Some(PackUint64(ParseUint64(account.value).value - result.fee))]
  {
    PaidPending(tx, keys, account.value, tx.fee.value);
  }

  lemma FirstSteps(tx: Tx, keys: Keys, base: Store, shared: Changes)
    requires Sponsored(tx, keys) && tx.valid && tx.fee == Some(0)
    requires SponsorAccount(tx, keys, base, shared).Nothing?
    ensures Body(tx)(Alone(TxJob(tx, keys), base, shared, 2).heard) == Return(Abort)
  {
    MissingReply(tx, keys, base, shared, Checking);
    MissingReply(tx, keys, base, shared, Charging);
    var job := TxJob(tx, keys);
    AdvanceStage(tx, keys, base, shared, FRESH);
    var x1 := Session(EMPTY, [Replied(NotFound)]);
    hide Respond, SponsorAccount, Sponsored;
    assert Alone(job, base, shared, 1) == Advance(job, base, shared, Alone(job, base, shared, 0)) == x1;
    AdvanceStage(tx, keys, base, shared, x1);
    assert Alone(job, base, shared, 2) == Advance(job, base, shared, x1);
  }

  /** Without an account, the balance reads as missing. */
  lemma MissingReply(tx: Tx, keys: Keys, base: Store, shared: Changes, st: Stage)
    requires Sponsored(tx, keys) && SponsorAccount(tx, keys, base, shared).Nothing?
    requires st.Checking? || st.Charging?
    requires Next(tx, st) == Fetch(SponsorKey(tx))
    ensures Respond(EMPTY, Limited(keys), Prefetched(base, keys), shared, Next(tx, st)) == (EMPTY, Replied(NotFound))
  {
    WriterIsExclusive(PermissionOf(keys, SponsorKey(tx)));
  }

  lemma AbortedStage(tx: Tx, keys: Keys, account: Maybe<Value>, st: Stage, v: View)
    requires TxInv(tx, keys, account, st, v) && Next(tx, st) == Return(Abort)
    ensures tx.valid && tx.fee == Some(0) && account.Nothing?
  {
    if tx.fee.Some? {
      CheckedDeduction(account, tx.fee.value);
    }
  }

  /**
   * The error that must be avoided, because it fails a whole block: a body that passed the checks aborts
   * exactly when the fee is zero and the sponsor has no account.
   */
  lemma AbortsExactlyWhenUnfunded(tx: Tx, keys: Keys, base: Store, shared: Changes)
    requires Sponsored(tx, keys)
    ensures (exists n: nat :: Body(tx)(Alone(TxJob(tx, keys), base, shared, n).heard) == Return(Abort))
            <==> (tx.valid && tx.fee == Some(0) && SponsorAccount(tx, keys, base, shared).Nothing?)
  {
    var job := TxJob(tx, keys);
    var account := SponsorAccount(tx, keys, base, shared);
    if n: nat :| Body(tx)(Alone(job, base, shared, n).heard) == Return(Abort) {
      TxInvAlone(tx, keys, base, shared, n);
      var x := Alone(job, base, shared, n);
      AbortedStage(tx, keys, account, StageAfter(tx, x.heard), x.view);
    }
    hide TxInv, Alone, SponsorAccount, Sponsored;
    if tx.valid && tx.fee == Some(0) && account.Nothing? {
      FirstSteps(tx, keys, base, shared);
    }
  }
}
