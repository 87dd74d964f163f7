/**
 * What a transaction does to the state, said without its stages: each action in order uses the state
 * until it is done or fails. Its body ends exactly as this says.
 */
module TransactionEffect {
  import opened Bytes
  import opened StateKeys
  import opened Views
  import opened Units
  import opened Executor
  import opened Transaction

  // ---------------------------------------------------------------------------------------------
  // Actions on a view
  // ---------------------------------------------------------------------------------------------

  type ActionBody = seq<Response> -> ActionOp

  predicate Ends(op: ActionOp) {
    op.ActDone? || op.ActFail?
  }

  /** The state that a transaction with these keys runs on: what its view leaves unchanged. */
  ghost function Behind(keys: Keys, base: Store, shared: Changes, k: Key): (pv: Maybe<Value>) {
    ReadThrough(Prefetched(base, keys), shared, k)
  }

  /** One use of the state: reading returns the value or why there is none, writing changes the view. */
  ghost function Use(keys: Keys, base: Store, shared: Changes, v: View, op: ActionOp): (r: (View, Response))
    requires !Ends(op)
  {
    match op
    case ActFetch(k) =>
      var got := Get(v, Limited(keys), Behind(keys, base, shared, k), k);
      (v, if got.1 == Ok then Got(got.0) else Replied(got.1))
    case ActPut(k, x) =>
      var put := Insert(v, Limited(keys), Behind(keys, base, shared, k), k, x);
      (put.0, Replied(put.1))
    case ActDelete(k) =>
      var deleted := Remove(v, Limited(keys), Behind(keys, base, shared, k), k);
      (deleted.0, Replied(deleted.1))
  }

  /** The view, and what an action has heard, after `n` uses of the state or at its end. */
  ghost function Uses(keys: Keys, base: Store, shared: Changes, act: ActionBody, v: View, n: nat)
    : (r: (View, seq<Response>))
  {
    if n == 0 then (v, [])
    else
      var (u, heard) := Uses(keys, base, shared, act, v, n - 1);
      if Ends(act(heard)) then (u, heard)
      else
        var (w, resp) := Use(keys, base, shared, u, act(heard));
        (w, heard + [resp])
  }

  /** The action ends with `end` when it starts on `v`, and leaves `w`. */
  ghost predicate EndsWith(keys: Keys, base: Store, shared: Changes, act: ActionBody, v: View, end: ActionOp, w: View) {
    && Ends(end)
    && exists n: nat :: Uses(keys, base, shared, act, v, n).0 == w && act(Uses(keys, base, shared, act, v, n).1) == end
  }

  /** The first actions are done, one after the other, with one output each, and lead from `v` to `w`. */
  ghost predicate AllDone(keys: Keys, base: Store, shared: Changes, acts: seq<ActionBody>, v: View, outputs: seq<Bytes>,
                          w: View)
    decreases |outputs|
  {
    && |outputs| <= |acts|
    && if outputs == [] then w == v
       else
         var i := |outputs| - 1;
         exists u ::
           && AllDone(keys, base, shared, acts, v, outputs[..i], u)
           && EndsWith(keys, base, shared, acts[i], u, ActDone(outputs[i]), w)
  }

  /** The action after those that are done fails. */
  ghost predicate OneFails(keys: Keys, base: Store, shared: Changes, acts: seq<ActionBody>, v: View,
                           outputs: seq<Bytes>, error: Bytes) {
    && |outputs| < |acts|
    && exists u, w ::
         && AllDone(keys, base, shared, acts, v, outputs, u)
         && EndsWith(keys, base, shared, acts[|outputs|], u, ActFail(error), w)
  }

  // ---------------------------------------------------------------------------------------------
  // From the body to its actions
  // ---------------------------------------------------------------------------------------------

  /** The checks pass, and the sponsor has an account to pay from. */
  ghost predicate Payable(tx: Tx, keys: Keys, base: Store, shared: Changes) {
    var account := SponsorAccount(tx, keys, base, shared);
    tx.valid && tx.fee.Some? && CanDeduct(account, tx.fee.value) && account.Some?
  }

  /** The view in which only the fee was taken from the sponsor's balance. */
  ghost function FeeTaken(tx: Tx, keys: Keys, base: Store, shared: Changes): (paid: View)
    requires Payable(tx, keys, base, shared)
  {
    var account := SponsorAccount(tx, keys, base, shared);
    PaidView(tx, keys, account, ParseUint64(account.value).value - tx.fee.value)
  }

  ghost predicate Underway(tx: Tx, keys: Keys, base: Store, shared: Changes, paid: View, i: nat, heard: seq<Response>,
                           outputs: seq<Bytes>, v: View) {
    && i == |outputs| < |tx.actions|
    && exists u, n: nat ::
         && AllDone(keys, base, shared, tx.actions, paid, outputs, u)
         && Uses(keys, base, shared, tx.actions[i], u, n) == (v, heard)
  }

  ghost predicate Traced(tx: Tx, keys: Keys, base: Store, shared: Changes, paid: View, st: Stage, v: View) {
    match st
    case Acting(_, i, heard, outputs) => Underway(tx, keys, base, shared, paid, i, heard, outputs, v)
    case Reverting(_, e, outputs) => OneFails(keys, base, shared, tx.actions, paid, outputs, e)
    case Ended(Finish(r)) =>
      if r.success then
        && tx.fee.Some? && r == Success(tx, r.outputs) && |r.outputs| == |tx.actions|
        && AllDone(keys, base, shared, tx.actions, paid, r.outputs, v)
      else
        && tx.fee.Some? && r == Failure(tx, r.error, r.outputs)
        && OneFails(keys, base, shared, tx.actions, paid, r.outputs, r.error)
    case _ => true
  }

  lemma DoneMore(tx: Tx, keys: Keys, base: Store, shared: Changes, paid: View, i: nat, heard: seq<Response>,
                 outputs: seq<Bytes>, v: View, out: Bytes)
    requires Underway(tx, keys, base, shared, paid, i, heard, outputs, v) && tx.actions[i](heard) == ActDone(out)
    ensures AllDone(keys, base, shared, tx.actions, paid, outputs + [out], v)
  {
    var u, n: nat :|
      && AllDone(keys, base, shared, tx.actions, paid, outputs, u)
      && Uses(keys, base, shared, tx.actions[i], u, n) == (v, heard);
    assert EndsWith(keys, base, shared, tx.actions[i], u, ActDone(out), v);
    assert (outputs + [out])[..i] == outputs;
  }

  lemma FailsNow(tx: Tx, keys: Keys, base: Store, shared: Changes, paid: View, i: nat, heard: seq<Response>,
                 outputs: seq<Bytes>, v: View, e: Bytes)
    requires Underway(tx, keys, base, shared, paid, i, heard, outputs, v) && tx.actions[i](heard) == ActFail(e)
    ensures OneFails(keys, base, shared, tx.actions, paid, outputs, e)
  {
    var u, n: nat :|
      && AllDone(keys, base, shared, tx.actions, paid, outputs, u)
      && Uses(keys, base, shared, tx.actions[i], u, n) == (v, heard);
    hide AllDone;
    assert EndsWith(keys, base, shared, tx.actions[i], u, ActFail(e), v);
  }

  lemma NextBegins(tx: Tx, keys: Keys, base: Store, shared: Changes, paid: View, outputs: seq<Bytes>, v: View)
    requires |outputs| < |tx.actions| && AllDone(keys, base, shared, tx.actions, paid, outputs, v)
    ensures Underway(tx, keys, base, shared, paid, |outputs|, [], outputs, v)
  {
    assert Uses(keys, base, shared, tx.actions[|outputs|], v, 0) == (v, []);
  }

  /** Moving past actions that end traces what they did. */
  lemma {:induction false} ProceedTraced(tx: Tx, keys: Keys, base: Store, shared: Changes, paid: View, start: nat,
                                         i: nat, heard: seq<Response>, outputs: seq<Bytes>, v: View)
    requires tx.fee.Some? && i <= |tx.actions| && i == |outputs|
    requires if i == |tx.actions| then AllDone(keys, base, shared, tx.actions, paid, outputs, v)
             else Underway(tx, keys, base, shared, paid, i, heard, outputs, v)
    ensures Traced(tx, keys, base, shared, paid, Proceed(tx, start, i, heard, outputs), v)
    decreases |tx.actions| - i
  {
    hide Underway, AllDone, OneFails;
    if i < |tx.actions| {
      match tx.actions[i](heard)
      case ActDone(out) =>
        DoneMore(tx, keys, base, shared, paid, i, heard, outputs, v, out);
        if i + 1 < |tx.actions| {
          NextBegins(tx, keys, base, shared, paid, outputs + [out], v);
        }
        ProceedTraced(tx, keys, base, shared, paid, start, i + 1, [], outputs + [out], v);
      case ActFail(e) =>
        FailsNow(tx, keys, base, shared, paid, i, heard, outputs, v, e);
      case _ =>
    }
  }

  /** What the body asks of the view for an action is what the action asks for. */
  lemma NextIsUse(tx: Tx, keys: Keys, base: Store, shared: Changes, st: Stage, v: View)
    requires st.Acting? && st.i < |tx.actions| && !Ends(tx.actions[st.i](st.heard))
    ensures !Next(tx, st).Return?
    ensures Respond(v, Limited(keys), Prefetched(base, keys), shared, Next(tx, st))
            == Use(keys, base, shared, v, tx.actions[st.i](st.heard))
  {
    hide Get, Insert, Remove;
  }

  lemma UsedOnce(keys: Keys, base: Store, shared: Changes, act: ActionBody, u: View, n: nat, v: View,
                 heard: seq<Response>)
    requires Uses(keys, base, shared, act, u, n) == (v, heard) && !Ends(act(heard))
    ensures var (w, resp) := Use(keys, base, shared, v, act(heard));
            Uses(keys, base, shared, act, u, n + 1) == (w, heard + [resp])
  {
    hide Use;
  }

  lemma UnderwayMore(tx: Tx, keys: Keys, base: Store, shared: Changes, paid: View, i: nat, heard: seq<Response>,
                     outputs: seq<Bytes>, v: View)
    requires Underway(tx, keys, base, shared, paid, i, heard, outputs, v) && !Ends(tx.actions[i](heard))
    ensures var (w, resp) := Use(keys, base, shared, v, tx.actions[i](heard));
            i == |outputs| && Underway(tx, keys, base, shared, paid, i, heard + [resp], outputs, w)
  {
    hide AllDone, Use;
    var u, n: nat :|
      && AllDone(keys, base, shared, tx.actions, paid, outputs, u)
      && Uses(keys, base, shared, tx.actions[i], u, n) == (v, heard);
    UsedOnce(keys, base, shared, tx.actions[i], u, n, v, heard);
    hide Uses;
    var (w, resp) := Use(keys, base, shared, v, tx.actions[i](heard));
    assert Uses(keys, base, shared, tx.actions[i], u, n + 1) == (w, heard + [resp]);
  }

  lemma StepTraced(tx: Tx, keys: Keys, base: Store, shared: Changes, paid: View, st: Stage, v: View)
    requires !Next(tx, st).Return? && Sponsored(tx, keys)
    requires TxInv(tx, keys, SponsorAccount(tx, keys, base, shared), st, v)
    requires st.Marking? ==> v == paid
    requires Traced(tx, keys, base, shared, paid, st, v)
    ensures var (v', resp) := Respond(v, Limited(keys), Prefetched(base, keys), shared, Next(tx, st));
            Traced(tx, keys, base, shared, paid, Hear(tx, st, resp), v')
  {
    hide Underway, AllDone, OneFails, Respond, SponsorAccount, Sponsored;
    match st
    case Acting(start, i, heard, outputs) =>
      NextIsUse(tx, keys, base, shared, st, v);
      UnderwayMore(tx, keys, base, shared, paid, i, heard, outputs, v);
      var (w, resp) := Use(keys, base, shared, v, tx.actions[i](heard));
      ProceedTraced(tx, keys, base, shared, paid, start, i, heard + [resp], outputs, w);
    case Marking =>
      Begins(tx, keys, base, shared, paid);
      Marked(keys, base, shared, v);
      ProceedTraced(tx, keys, base, shared, paid, |v.ops|, 0, [], [], v);
    case _ =>
  }

  lemma Marked(keys: Keys, base: Store, shared: Changes, v: View)
    ensures Respond(v, Limited(keys), Prefetched(base, keys), shared, Mark) == (v, Position(|v.ops|))
  {
  }

  lemma Begins(tx: Tx, keys: Keys, base: Store, shared: Changes, paid: View)
    ensures AllDone(keys, base, shared, tx.actions, paid, [], paid)
    ensures tx.actions != [] ==> Underway(tx, keys, base, shared, paid, 0, [], [], paid)
  {
    if tx.actions != [] {
      NextBegins(tx, keys, base, shared, paid, [], paid);
    }
  }

  lemma FreshTraced(tx: Tx, keys: Keys, base: Store, shared: Changes, paid: View)
    ensures var x := Alone(TxJob(tx, keys), base, shared, 0);
            Traced(tx, keys, base, shared, paid, StageAfter(tx, x.heard), x.view)
  {
  }

  lemma MarkingIsPaid(tx: Tx, keys: Keys, base: Store, shared: Changes, st: Stage, v: View)
    requires Payable(tx, keys, base, shared) && TxInv(tx, keys, SponsorAccount(tx, keys, base, shared), st, v)
    ensures st.Marking? ==> v == FeeTaken(tx, keys, base, shared)
  {
    hide SponsorAccount;
  }

  /** At every point of a body that runs alone, its stage tells what the actions did so far. */
  lemma {:induction false} TracedAlone(tx: Tx, keys: Keys, base: Store, shared: Changes, n: nat)
    requires Sponsored(tx, keys) && Payable(tx, keys, base, shared)
    ensures var x := Alone(TxJob(tx, keys), base, shared, n);
            Traced(tx, keys, base, shared, FeeTaken(tx, keys, base, shared), StageAfter(tx, x.heard), x.view)
  {
    hide TxInv, Respond, Next, Hear, SponsorAccount, Sponsored, Advance, StageAfter, TxJob, Prefetched, Traced, Payable;
    hide FeeTaken;
    var paid := FeeTaken(tx, keys, base, shared);
    if n == 0 {
      FreshTraced(tx, keys, base, shared, paid);
    } else {
      TracedAlone(tx, keys, base, shared, n - 1);
      TxInvAlone(tx, keys, base, shared, n - 1);
      var x := Alone(TxJob(tx, keys), base, shared, n - 1);
      AdvanceStage(tx, keys, base, shared, x);
      if !Next(tx, StageAfter(tx, x.heard)).Return? {
        MarkingIsPaid(tx, keys, base, shared, StageAfter(tx, x.heard), x.view);
        StepTraced(tx, keys, base, shared, paid, StageAfter(tx, x.heard), x.view);
      }
    }
  }

  // ---------------------------------------------------------------------------------------------
  // From the actions to the body
  // ---------------------------------------------------------------------------------------------

  /** After `n` operations the body is at this stage with this view. */
  ghost predicate At(tx: Tx, keys: Keys, base: Store, shared: Changes, n: nat, st: Stage, v: View) {
    var x := Alone(TxJob(tx, keys), base, shared, n);
    StageAfter(tx, x.heard) == st && x.view == v
  }

  lemma OneStep(tx: Tx, keys: Keys, base: Store, shared: Changes, n: nat, st: Stage, v: View)
    requires At(tx, keys, base, shared, n, st, v) && !Next(tx, st).Return?
    ensures var (w, resp) := Respond(v, Limited(keys), Prefetched(base, keys), shared, Next(tx, st));
            At(tx, keys, base, shared, n + 1, Hear(tx, st, resp), w)
  {
    hide Next, Hear, Respond, Prefetched, Advance, StageAfter, TxJob;
    AdvanceStage(tx, keys, base, shared, Alone(TxJob(tx, keys), base, shared, n));
  }

  lemma AccountReply(tx: Tx, keys: Keys, base: Store, shared: Changes)
    requires Sponsored(tx, keys) && SponsorAccount(tx, keys, base, shared).Some?
    ensures Respond(EMPTY, Limited(keys), Prefetched(base, keys), shared, Fetch(SponsorKey(tx)))
            == (EMPTY, Got(SponsorAccount(tx, keys, base, shared).value))
  {
    WriterIsExclusive(PermissionOf(keys, SponsorKey(tx)));
  }

  lemma PayReply(tx: Tx, keys: Keys, base: Store, shared: Changes, balance: uint64)
    requires Sponsored(tx, keys) && SponsorAccount(tx, keys, base, shared).Some?
    ensures Respond(EMPTY, Limited(keys), Prefetched(base, keys), shared, Put(SponsorKey(tx), PackUint64(balance)))
            == (PaidView(tx, keys, SponsorAccount(tx, keys, base, shared), balance), Replied(Ok))
  {
    BalanceFits(tx.prefix, tx.sponsor, balance);
  }

  lemma AccountHeard(tx: Tx, keys: Keys, base: Store, shared: Changes)
    requires Payable(tx, keys, base, shared)
    ensures var account := SponsorAccount(tx, keys, base, shared);
            && Hear(tx, Checking, Got(account.value)) == Charging
            && Hear(tx, Charging, Got(account.value)) == Paying(ParseUint64(account.value).value - tx.fee.value)
  {
    hide SponsorAccount, ParseUint64;
  }

  lemma Charged(tx: Tx, keys: Keys, base: Store, shared: Changes)
    requires Sponsored(tx, keys) && Payable(tx, keys, base, shared)
    ensures var account := SponsorAccount(tx, keys, base, shared);
            At(tx, keys, base, shared, 2, Paying(ParseUint64(account.value).value - tx.fee.value), EMPTY)
  {
    AccountReply(tx, keys, base, shared);
    AccountHeard(tx, keys, base, shared);
    FreshInv(tx, keys, base, shared);
    hide Respond, SponsorAccount, Sponsored, Prefetched, Alone, Hear, CanDeduct, ParseUint64;
    assert At(tx, keys, base, shared, 0, Checking, EMPTY);
    hide At;
    OneStep(tx, keys, base, shared, 0, Checking, EMPTY);
    OneStep(tx, keys, base, shared, 1, Charging, EMPTY);
  }

  /** A body that can pay reaches its first action with only the fee taken. */
  lemma PaidReached(tx: Tx, keys: Keys, base: Store, shared: Changes)
    requires Sponsored(tx, keys) && Payable(tx, keys, base, shared)
    ensures var paid := FeeTaken(tx, keys, base, shared);
            At(tx, keys, base, shared, 4, Proceed(tx, |paid.ops|, 0, [], []), paid)
  {
    hide At, Respond, SponsorAccount, Sponsored, Prefetched, PaidView, Proceed, ParseUint64;
    var account := SponsorAccount(tx, keys, base, shared);
    var (paid, balance) := (FeeTaken(tx, keys, base, shared), ParseUint64(account.value).value - tx.fee.value);
    Charged(tx, keys, base, shared);
    PayReply(tx, keys, base, shared, balance);
    OneStep(tx, keys, base, shared, 2, Paying(balance), EMPTY);
    Marked(keys, base, shared, paid);
    OneStep(tx, keys, base, shared, 3, Marking, paid);
  }

  lemma {:induction false} UsesReached(tx: Tx, keys: Keys, base: Store, shared: Changes, m: nat, start: nat,
                                       outputs: seq<Bytes>, u: View, n: nat) returns (k: nat)
    requires tx.fee.Some? && |outputs| < |tx.actions|
    requires At(tx, keys, base, shared, m, Proceed(tx, start, |outputs|, [], outputs), u)
    ensures var (v, heard) := Uses(keys, base, shared, tx.actions[|outputs|], u, n);
            At(tx, keys, base, shared, k, Proceed(tx, start, |outputs|, heard, outputs), v)
  {
    hide At, Use, Respond;
    if n == 0 {
      k := m;
    } else {
      k := UsesReached(tx, keys, base, shared, m, start, outputs, u, n - 1);
      var i := |outputs|;
      var (v, heard) := Uses(keys, base, shared, tx.actions[i], u, n - 1);
      if !Ends(tx.actions[i](heard)) {
        var st := Acting(start, i, heard, outputs);
        assert Proceed(tx, start, i, heard, outputs) == st;
        NextIsUse(tx, keys, base, shared, st, v);
        OneStep(tx, keys, base, shared, k, st, v);
        k := k + 1;
      }
    }
  }

  lemma {:induction false} DoneReached(tx: Tx, keys: Keys, base: Store, shared: Changes, outputs: seq<Bytes>, w: View)
    returns (k: nat)
    requires Sponsored(tx, keys) && Payable(tx, keys, base, shared)
    requires AllDone(keys, base, shared, tx.actions, FeeTaken(tx, keys, base, shared), outputs, w)
    ensures var start := |FeeTaken(tx, keys, base, shared).ops|;
            At(tx, keys, base, shared, k, Proceed(tx, start, |outputs|, [], outputs), w)
    decreases |outputs|
  {
    hide At, Sponsored, SponsorAccount, FeeTaken, Uses;
    var paid := FeeTaken(tx, keys, base, shared);
    if outputs == [] {
      PaidReached(tx, keys, base, shared);
      k := 4;
    } else {
      var i := |outputs| - 1;
      var u :|
        && AllDone(keys, base, shared, tx.actions, paid, outputs[..i], u)
        && EndsWith(keys, base, shared, tx.actions[i], u, ActDone(outputs[i]), w);
      k := DoneReached(tx, keys, base, shared, outputs[..i], u);
      var n: nat :|
        && Uses(keys, base, shared, tx.actions[i], u, n).0 == w
        && tx.actions[i](Uses(keys, base, shared, tx.actions[i], u, n).1) == ActDone(outputs[i]);
      k := UsesReached(tx, keys, base, shared, k, |paid.ops|, outputs[..i], u, n);
      assert outputs[..i] + [outputs[i]] == outputs;
    }
  }

  lemma FailReached(tx: Tx, keys: Keys, base: Store, shared: Changes, outputs: seq<Bytes>, e: Bytes)
    returns (k: nat, v: View)
    requires Sponsored(tx, keys) && Payable(tx, keys, base, shared)
    requires OneFails(keys, base, shared, tx.actions, FeeTaken(tx, keys, base, shared), outputs, e)
    ensures At(tx, keys, base, shared, k, Ended(Finish(Failure(tx, e, outputs))), v)
  {
    hide At, Sponsored, SponsorAccount, FeeTaken, Uses, AllDone, Respond;
    var paid := FeeTaken(tx, keys, base, shared);
    var u, w :|
      && AllDone(keys, base, shared, tx.actions, paid, outputs, u)
      && EndsWith(keys, base, shared, tx.actions[|outputs|], u, ActFail(e), w);
    k := DoneReached(tx, keys, base, shared, outputs, u);
    var act := tx.actions[|outputs|];
    var n: nat :|
      Uses(keys, base, shared, act, u, n).0 == w && act(Uses(keys, base, shared, act, u, n).1) == ActFail(e);
    k := UsesReached(tx, keys, base, shared, k, |paid.ops|, outputs, u, n);
    var st := Reverting(|paid.ops|, e, outputs);
    OneStep(tx, keys, base, shared, k, st, w);
    v := Respond(w, Limited(keys), Prefetched(base, keys), shared, Next(tx, st)).0;
    k := k + 1;
  }

  // ---------------------------------------------------------------------------------------------
  // How a transaction ends
  // ---------------------------------------------------------------------------------------------

  /** Run alone, the transaction ends with this outcome and leaves this view. */
  ghost predicate Ending(tx: Tx, keys: Keys, base: Store, shared: Changes, o: Outcome, v: View) {
    exists n: nat ::
      var x := Alone(TxJob(tx, keys), base, shared, n);
      Body(tx)(x.heard) == Return(o) && x.view == v
  }

  lemma EndingAt(tx: Tx, keys: Keys, base: Store, shared: Changes, n: nat, o: Outcome, v: View)
    requires At(tx, keys, base, shared, n, Ended(o), v)
    ensures Ending(tx, keys, base, shared, o, v)
  {
    hide Alone, StageAfter;
    var x := Alone(TxJob(tx, keys), base, shared, n);
    assert Body(tx)(x.heard) == Return(o);
  }

  lemma FinishedTrace(tx: Tx, keys: Keys, base: Store, shared: Changes, result: Result, v: View)
    requires Sponsored(tx, keys) && Ending(tx, keys, base, shared, Finish(result), v)
    ensures Payable(tx, keys, base, shared)
    ensures Traced(tx, keys, base, shared, FeeTaken(tx, keys, base, shared), Ended(Finish(result)), v)
  {
    hide Alone, Traced, SponsorAccount, Sponsored, StageAfter, Respond;
    var n: nat :| var x := Alone(TxJob(tx, keys), base, shared, n);
                  Body(tx)(x.heard) == Return(Finish(result)) && x.view == v;
    var x := Alone(TxJob(tx, keys), base, shared, n);
    TxInvAlone(tx, keys, base, shared, n);
    TracedAlone(tx, keys, base, shared, n);
  }

  /**
   * A transaction succeeds exactly when its fee can be taken and then no action fails: every action in
   * turn is done. It leaves what the actions left, and its result holds their outputs in order.
   */
  lemma SucceedsExactlyIfAllDone(tx: Tx, keys: Keys, base: Store, shared: Changes, result: Result, v: View)
    requires Sponsored(tx, keys)
    ensures Ending(tx, keys, base, shared, Finish(result), v) && result.success
            <==>
            && Payable(tx, keys, base, shared)
            && result == Result(true, [], result.outputs, tx.units, tx.fee.value) && |result.outputs| == |tx.actions|
            && AllDone(keys, base, shared, tx.actions, FeeTaken(tx, keys, base, shared), result.outputs, v)
  {
    hide Ending, AllDone, FeeTaken, SponsorAccount, Sponsored;
    if Ending(tx, keys, base, shared, Finish(result), v) && result.success {
      FinishedTrace(tx, keys, base, shared, result, v);
    }
    if && Payable(tx, keys, base, shared)
       && result == Result(true, [], result.outputs, tx.units, tx.fee.value) && |result.outputs| == |tx.actions|
       && AllDone(keys, base, shared, tx.actions, FeeTaken(tx, keys, base, shared), result.outputs, v) {
      var n := DoneReached(tx, keys, base, shared, result.outputs, v);
      EndingAt(tx, keys, base, shared, n, Finish(result), v);
    }
  }

  /** A transaction ends unsuccessfully exactly when its fee can be taken and then some action fails. */
  lemma FailsExactlyIfOneFails(tx: Tx, keys: Keys, base: Store, shared: Changes, result: Result)
    requires Sponsored(tx, keys)
    ensures (exists v :: Ending(tx, keys, base, shared, Finish(result), v)) && !result.success
            <==>
            && Payable(tx, keys, base, shared)
            && result == Result(false, result.error, result.outputs, tx.units, tx.fee.value)
            && OneFails(keys, base, shared, tx.actions, FeeTaken(tx, keys, base, shared), result.outputs, result.error)
  {
    hide Ending, OneFails, FeeTaken, SponsorAccount, Sponsored;
    if v :| Ending(tx, keys, base, shared, Finish(result), v) && !result.success {
      FinishedTrace(tx, keys, base, shared, result, v);
    }
    if && Payable(tx, keys, base, shared)
       && result == Result(false, result.error, result.outputs, tx.units, tx.fee.value)
       && OneFails(keys, base, shared, tx.actions, FeeTaken(tx, keys, base, shared), result.outputs, result.error) {
      var n, v := FailReached(tx, keys, base, shared, result.outputs, result.error);
      EndingAt(tx, keys, base, shared, n, Finish(result), v);
    }
  }

  lemma {:induction false} ChecksAlone(tx: Tx, keys: Keys, base: Store, shared: Changes, n: nat)
    requires Sponsored(tx, keys)
    ensures var x := Alone(TxJob(tx, keys), base, shared, n);
            Next(tx, StageAfter(tx, x.heard)) == Return(Refuse) ==> !Checks(tx, keys, base, shared)
  {
    hide TxInv, Respond, Next, Hear, Sponsored, Advance, StageAfter, TxJob, Prefetched, Checks;
    if n == 0 {
      FreshChecks(tx, keys, base, shared);
    } else {
      ChecksAlone(tx, keys, base, shared, n - 1);
      TxInvAlone(tx, keys, base, shared, n - 1);
      var x := Alone(TxJob(tx, keys), base, shared, n - 1);
      AdvanceStage(tx, keys, base, shared, x);
      if !Next(tx, StageAfter(tx, x.heard)).Return? {
        RefusedStep(tx, keys, base, shared, StageAfter(tx, x.heard), x.view);
      }
    }
  }

  /** The checks before the execution: validity, the fee, and the sponsor's balance. */
  ghost predicate Checks(tx: Tx, keys: Keys, base: Store, shared: Changes) {
    tx.valid && tx.fee.Some? && CanDeduct(SponsorAccount(tx, keys, base, shared), tx.fee.value)
  }

  lemma FreshChecks(tx: Tx, keys: Keys, base: Store, shared: Changes)
    ensures Alone(TxJob(tx, keys), base, shared, 0) == FRESH && StageAfter(tx, FRESH.heard) == Checking
    ensures Next(tx, Checking) == Return(Refuse) ==> !Checks(tx, keys, base, shared)
  {
  }

  lemma {:induction false} ProceedNotRefused(tx: Tx, start: nat, i: nat, heard: seq<Response>, outputs: seq<Bytes>)
    requires tx.fee.Some? && i <= |tx.actions|
    ensures Proceed(tx, start, i, heard, outputs) != Ended(Refuse) && !Proceed(tx, start, i, heard, outputs).Checking?
    decreases |tx.actions| - i
  {
    if i < |tx.actions| && tx.actions[i](heard).ActDone? {
      ProceedNotRefused(tx, start, i + 1, [], outputs + [tx.actions[i](heard).output]);
    }
  }

  lemma AnyAccountReply(tx: Tx, keys: Keys, base: Store, shared: Changes)
    requires Sponsored(tx, keys)
    ensures var (v, resp) := Respond(EMPTY, Limited(keys), Prefetched(base, keys), shared, Fetch(SponsorKey(tx)));
            v == EMPTY && Account(resp) == Some(SponsorAccount(tx, keys, base, shared))
  {
    WriterIsExclusive(PermissionOf(keys, SponsorKey(tx)));
  }

  lemma RefusedStep(tx: Tx, keys: Keys, base: Store, shared: Changes, st: Stage, v: View)
    requires Sponsored(tx, keys) && !Next(tx, st).Return?
    requires TxInv(tx, keys, SponsorAccount(tx, keys, base, shared), st, v)
    ensures var (v', resp) := Respond(v, Limited(keys), Prefetched(base, keys), shared, Next(tx, st));
            Next(tx, Hear(tx, st, resp)) == Return(Refuse) ==> !Checks(tx, keys, base, shared)
  {
    var (v', resp) := Respond(v, Limited(keys), Prefetched(base, keys), shared, Next(tx, st));
    hide Respond, SponsorAccount, Sponsored, Deduct, CanDeduct, Proceed, PaidView, Restorable;
    match st
    case Checking => AnyAccountReply(tx, keys, base, shared);
    case Marking => if resp.Position? { ProceedNotRefused(tx, resp.n, 0, [], []); }
    case Acting(start, i, heard, outputs) => ProceedNotRefused(tx, start, i, heard + [resp], outputs);
    case _ =>
  }

  /** A transaction is refused exactly when it does not pass the checks. */
  lemma RefusedExactlyIfUnchecked(tx: Tx, keys: Keys, base: Store, shared: Changes)
    requires Sponsored(tx, keys)
    ensures (exists v :: Ending(tx, keys, base, shared, Refuse, v)) <==> !Checks(tx, keys, base, shared)
  {
    hide Respond, SponsorAccount, Sponsored, Prefetched, CanDeduct;
    if v :| Ending(tx, keys, base, shared, Refuse, v) {
      hide Alone, StageAfter;
      var n: nat :| var x := Alone(TxJob(tx, keys), base, shared, n);
                    Body(tx)(x.heard) == Return(Refuse) && x.view == v;
      ChecksAlone(tx, keys, base, shared, n);
    }
    FreshChecks(tx, keys, base, shared);
    if !Checks(tx, keys, base, shared) {
      assert At(tx, keys, base, shared, 0, Checking, EMPTY);
      hide At;
      if tx.valid && tx.fee.Some? {
        AnyAccountReply(tx, keys, base, shared);
        OneStep(tx, keys, base, shared, 0, Checking, EMPTY);
        EndingAt(tx, keys, base, shared, 1, Refuse, EMPTY);
      } else {
        assert Body(tx)(Alone(TxJob(tx, keys), base, shared, 0).heard) == Return(Refuse);
        assert Ending(tx, keys, base, shared, Refuse, EMPTY);
      }
    }
  }
}
