/** Where every transaction that the builder took ends up, in one batch on one executor. */
module BuildLedger {
  import opened Bytes
  import opened Units
  import opened Views
  import opened Executor
  import opened ExecutorOrder
  import opened QueueOrder
  import opened BlockAgreement
  import ExecutorErrors

  /** The builder's bookkeeping: tasks that have not ended, tasks to put back, and tasks given up. */
  datatype Ledger = Ledger(pending: set<Id>, restored: set<Id>, dropped: set<Id>)

  const BLANK := Ledger({}, {}, {})

  /** What a body does to the books as it ends: in the block, to be restored, or dropped. */
  function Ending(l: Ledger, i: Id, o: Outcome, consumed: Dimensions, max: Dimensions): (r: Ledger) {
    var rest := l.(pending := l.pending - {i});
    match o
    case Abort => rest.(restored := l.restored + {i})
    case Refuse => rest.(dropped := l.dropped + {i})
    case Finish(result) => if Fits(consumed, result.units, max) then rest else rest.(restored := l.restored + {i})
  }

  ghost function Booking(cfg: Config, s: State, l: Ledger, a: Action): (r: Ledger)
    requires cfg.mode.Build? && Enabled(cfg, s, a)
  {
    match a
    case BeginRun => l.(pending := l.pending + {|s.tasks|})
    case EndBody(i) =>
      Ending(l, i, cfg.jobs[i].prog(s.tasks[i].phase.session.heard).outcome, s.consumed, cfg.mode.max)
    case _ => l
  }

  function One(b: bool): nat {
    if b then 1 else 0
  }

  /** A task is in exactly one place; it has not ended, or never ran because of an error, exactly if it is pending. */
  ghost predicate BookedOnce(s: State, l: Ledger, i: Id)
    requires i < |s.tasks|
  {
    && One(i in l.pending) + One(i in l.restored) + One(i in l.dropped) + One(i in Committed(s)) == 1
    && (!BodyDone(s.tasks[i].phase) ==> i in l.pending)
    && (BodyDone(s.tasks[i].phase) && i in l.pending ==> s.err.Some?)
  }

  ghost predicate Booked(s: State, l: Ledger) {
    && (forall i: Id | i in l.pending || i in l.restored || i in l.dropped || i in Committed(s) :: i < |s.tasks|)
    && (forall i | 0 <= i < |s.tasks| :: BookedOnce(s, l, i))
    && (forall p, q | 0 <= p < q < |s.log| :: s.log[p].id != s.log[q].id)
  }

  /** Nothing but an error makes a body that never ran count as over. */
  ghost predicate PhasesAdvance(s: State, r: State) {
    && |r.tasks| == |s.tasks| && (s.err.Some? ==> r.err.Some?)
    && forall i | 0 <= i < |s.tasks| ::
         && (BodyDone(s.tasks[i].phase) ==> BodyDone(r.tasks[i].phase))
         && (BodyDone(r.tasks[i].phase) ==> BodyDone(s.tasks[i].phase) || s.err.Some?)
  }

  lemma StartAdvances(cfg: Config, s: State, i: Id)
    requires Dispatch(cfg, s) && Enabled(cfg, s, Start(i))
    ensures PhasesAdvance(s, Apply(cfg, s, Start(i)))
  {
    assert Counted(cfg, s, i);
    hide Counted, Taken;
  }

  lemma OtherPhases(cfg: Config, s: State, a: Action)
    requires Enabled(cfg, s, a) && !a.EndBody? && !a.BeginRun? && !a.Start?
    ensures PhasesAdvance(s, Apply(cfg, s, a))
  {
    hide Advance, Blockers;
  }

  lemma OthersBooked(cfg: Config, s: State, l: Ledger, a: Action)
    requires Inv(cfg, s) && Enabled(cfg, s, a) && !a.EndBody? && !a.BeginRun? && Booked(s, l)
    ensures Booked(Apply(cfg, s, a), l)
  {
    if a.Start? {
      StartAdvances(cfg, s, a.id);
    } else {
      OtherPhases(cfg, s, a);
    }
    SameAccounts(cfg, s, a);
    hide Inv, Apply, Enabled;
    var r := Apply(cfg, s, a);
    assert Committed(r) == Committed(s);
    forall i | 0 <= i < |r.tasks| ensures BookedOnce(r, l, i) {
      assert BookedOnce(s, l, i);
    }
  }

  lemma BeginBooked(cfg: Config, s: State, l: Ledger)
    requires Enabled(cfg, s, BeginRun) && cfg.mode.Build? && Booked(s, l)
    ensures Booked(Apply(cfg, s, BeginRun), Booking(cfg, s, l, BeginRun))
  {
    var (r, m) := (Apply(cfg, s, BeginRun), Booking(cfg, s, l, BeginRun));
    assert Committed(r) == Committed(s);
    forall i | 0 <= i < |r.tasks| ensures BookedOnce(r, m, i) {
      assert i < |s.tasks| ==> BookedOnce(s, l, i);
    }
  }

  lemma EndPhases(cfg: Config, s: State, i: Id)
    requires cfg.mode.Build? && Enabled(cfg, s, EndBody(i))
    ensures var r := Apply(cfg, s, EndBody(i));
            var o := cfg.jobs[i].prog(s.tasks[i].phase.session.heard).outcome;
            && |r.tasks| == |s.tasks| && BodyDone(r.tasks[i].phase) && (s.err.Some? ==> r.err.Some?)
            && (forall j | 0 <= j < |s.tasks| && j != i :: r.tasks[j] == s.tasks[j])
            && (if o.Finish? && Fits(s.consumed, o.result.units, cfg.mode.max)
                then |r.log| == |s.log| + 1 && r.log[..|s.log|] == s.log && r.log[|s.log|].id == i
                else r.log == s.log)
  {
    hide FirstOver;
  }

  lemma EndBooked(cfg: Config, s: State, l: Ledger, i: Id)
    requires cfg.mode.Build? && Enabled(cfg, s, EndBody(i)) && Booked(s, l)
    ensures Booked(Apply(cfg, s, EndBody(i)), Booking(cfg, s, l, EndBody(i)))
  {
    EndPhases(cfg, s, i);
    var o := cfg.jobs[i].prog(s.tasks[i].phase.session.heard).outcome;
    var (r, m) := (Apply(cfg, s, EndBody(i)), Booking(cfg, s, l, EndBody(i)));
    assert BookedOnce(s, l, i);
    hide Apply, Enabled, Fits;
    if r.log == s.log {
      assert Committed(r) == Committed(s);
    } else {
      CommittedMore(s, r, i);
    }
    hide Committed;
    forall j | 0 <= j < |r.tasks| ensures BookedOnce(r, m, j) {
      assert BookedOnce(s, l, j);
    }
  }

  lemma CommittedMore(s: State, r: State, i: Id)
    requires |r.log| == |s.log| + 1 && r.log[..|s.log|] == s.log && r.log[|s.log|].id == i
    ensures Committed(r) == Committed(s) + {i}
    ensures i !in Committed(s) && (forall p, q | 0 <= p < q < |s.log| :: s.log[p].id != s.log[q].id) ==>
              forall p, q | 0 <= p < q < |r.log| :: r.log[p].id != r.log[q].id
  {
    assert forall p | 0 <= p < |s.log| :: r.log[p] == s.log[p] && s.log[p].id in Committed(s);
  }

  lemma StepBooked(cfg: Config, s: State, l: Ledger, a: Action)
    requires cfg.mode.Build? && Inv(cfg, s) && Enabled(cfg, s, a) && Booked(s, l)
    ensures Booked(Apply(cfg, s, a), Booking(cfg, s, l, a))
  {
    match a
    case BeginRun => BeginBooked(cfg, s, l);
    case EndBody(i) => EndBooked(cfg, s, l, i);
    case _ => OthersBooked(cfg, s, l, a);
  }

  ghost function Books(cfg: Config, s: State, l: Ledger, acts: seq<Action>): (r: Ledger)
    requires cfg.mode.Build? && Runs(cfg, s, acts)
    decreases |acts|
  {
    if acts == [] then l else Books(cfg, Apply(cfg, s, acts[0]), Booking(cfg, s, l, acts[0]), acts[1..])
  }

  lemma {:induction false} RunBooked(cfg: Config, s: State, l: Ledger, acts: seq<Action>)
    requires cfg.mode.Build? && Inv(cfg, s) && Runs(cfg, s, acts) && Timely(cfg, s, acts) && Booked(s, l)
    ensures Booked(After(cfg, s, acts), Books(cfg, s, l, acts))
    decreases |acts|
  {
    hide Inv, Apply, Enabled, Booked, Premature, Booking;
    if acts != [] {
      StepBooked(cfg, s, l, acts[0]);
      StepKeeps(cfg, s, acts[0]);
      RunBooked(cfg, Apply(cfg, s, acts[0]), Booking(cfg, s, l, acts[0]), acts[1..]);
    }
  }

  // ---------------------------------------------------------------------------------------------
  // Why a task is dropped or put back
  // ---------------------------------------------------------------------------------------------

  /** The step ends the body of task `i` with this outcome. */
  ghost predicate EndsAs(cfg: Config, s: State, a: Action, i: Id, o: Outcome)
    requires Enabled(cfg, s, a)
  {
    a == EndBody(i) && cfg.jobs[i].prog(s.tasks[i].phase.session.heard) == Return(o)
  }

  /** The step ends that body with an error, or with a result that does not fit what is left of the block. */
  ghost predicate SendsBack(cfg: Config, s: State, a: Action, i: Id)
    requires cfg.mode.Build? && Enabled(cfg, s, a)
  {
    || EndsAs(cfg, s, a, i, Abort)
    || exists result, d: nat | d < FEE_DIMENSIONS ::
         EndsAs(cfg, s, a, i, Finish(result)) && ExecutorErrors.Over(s.consumed, result.units, cfg.mode.max, d)
  }

  /** Some step of the run refuses task `i`, or sends it back. */
  ghost predicate Met(cfg: Config, s: State, acts: seq<Action>, i: Id, refused: bool)
    requires cfg.mode.Build? && Runs(cfg, s, acts)
    decreases |acts|
  {
    && acts != []
    && ((if refused then EndsAs(cfg, s, acts[0], i, Refuse) else SendsBack(cfg, s, acts[0], i))
        || Met(cfg, Apply(cfg, s, acts[0]), acts[1..], i, refused))
  }

  lemma StepReasons(cfg: Config, s: State, l: Ledger, a: Action, i: Id)
    requires cfg.mode.Build? && Enabled(cfg, s, a)
    ensures i in Booking(cfg, s, l, a).dropped <==> i in l.dropped || EndsAs(cfg, s, a, i, Refuse)
    ensures i in Booking(cfg, s, l, a).restored <==> i in l.restored || SendsBack(cfg, s, a, i)
  {
    if a == EndBody(i) {
      var o := cfg.jobs[i].prog(s.tasks[i].phase.session.heard).outcome;
      if o.Finish? {
        ExecutorErrors.FirstOverIs(s.consumed, o.result.units, cfg.mode.max);
        hide Fits, ExecutorErrors.Over;
        if !Fits(s.consumed, o.result.units, cfg.mode.max) {
          var d: nat :| d < FEE_DIMENSIONS && ExecutorErrors.Over(s.consumed, o.result.units, cfg.mode.max, d);
          assert EndsAs(cfg, s, a, i, Finish(o.result));
        }
      }
    }
  }

  /**
   * In every run a task is dropped exactly if its body was refused before it executed, and restored
   * exactly if its body failed or its result did not fit what was left of the block.
   */
  lemma {:induction false} LedgerReasons(cfg: Config, s: State, l: Ledger, acts: seq<Action>, i: Id)
    requires cfg.mode.Build? && Runs(cfg, s, acts)
    ensures i in Books(cfg, s, l, acts).dropped <==> i in l.dropped || Met(cfg, s, acts, i, true)
    ensures i in Books(cfg, s, l, acts).restored <==> i in l.restored || Met(cfg, s, acts, i, false)
    decreases |acts|
  {
    if acts != [] {
      StepReasons(cfg, s, l, acts[0], i);
      hide Apply, Enabled, Booking, EndsAs, SendsBack;
      LedgerReasons(cfg, Apply(cfg, s, acts[0]), Booking(cfg, s, l, acts[0]), acts[1..], i);
    }
  }

  /** Tasks to put back once the executor is done: those that asked for it, and after an error those that never ran. */
  function Restorable(l: Ledger, err: Maybe<Error>): (r: set<Id>) {
    if err.Some? then l.restored + l.pending else l.restored
  }

  /**
   * When the executor is done with a batch, in whatever interleaving and after whatever error, every task
   * is in the block, to be restored or dropped, exactly one of them, and in the block at most once.
   */
  lemma BatchSettles(cfg: Config, shared: Changes, consumed: Dimensions, acts: seq<Action>, i: Id)
    requires cfg.mode.Build? && Runs(cfg, Init(shared, consumed), acts) && Timely(cfg, Init(shared, consumed), acts)
    requires var s := After(cfg, Init(shared, consumed), acts);
             |s.tasks| == |cfg.jobs| && forall j | 0 <= j < |s.tasks| :: BodyDone(s.tasks[j].phase)
    ensures var s := After(cfg, Init(shared, consumed), acts);
            var l := Books(cfg, Init(shared, consumed), BLANK, acts);
            var back := Restorable(l, s.err);
            && One(i in Committed(s)) + One(i in back) + One(i in l.dropped) == One(i < |cfg.jobs|)
            && (forall p, q | 0 <= p < q < |s.log| :: s.log[p].id != s.log[q].id)
            && (forall p | 0 <= p < |s.log| :: s.log[p].id in Committed(s))
            && (s.err.Nothing? ==> l.pending == {})
  {
    var s0 := Init(shared, consumed);
    InitInv(cfg, shared, consumed);
    assert Booked(s0, BLANK);
    RunBooked(cfg, s0, BLANK, acts);
    var (s, l) := (After(cfg, s0, acts), Books(cfg, s0, BLANK, acts));
    hide After, Books, Runs, Timely, Inv;
    if i < |s.tasks| {
      assert BookedOnce(s, l, i);
    }
    forall x: Id | x in l.pending ensures s.err.Some? {
      assert BookedOnce(s, l, x);
    }
  }
}

/** A whole build: the mempool's stream, the batches and what is put back at the end. */
module BuildConservation {
  import opened Bytes
  import opened Views
  import opened Units
  import opened Heaps
  import opened ExpiryHeaps
  import opened Pools
  import PoolConservation
  import Executor
  import ExecutorOrder
  import QueueOrder
  import BlockAgreement
  import BuildLedger

  // ---------------------------------------------------------------------------------------------
  // Before a batch runs
  // ---------------------------------------------------------------------------------------------

  /** How many items are taken before their sizes together exceed the target. */
  function Cut(items: seq<Item>, target: nat): (n: nat)
    ensures n <= |items|
    ensures Size(items[..n]) <= target
    ensures n < |items| ==> Size(items[..n + 1]) > target
  {
    CutFrom(items, target, 0)
  }

  function CutFrom(items: seq<Item>, target: nat, i: nat): (n: nat)
    requires i <= |items| && Size(items[..i]) <= target
    ensures i <= n <= |items|
    ensures Size(items[..n]) <= target
    ensures n < |items| ==> Size(items[..n + 1]) > target
    decreases |items| - i
  {
    if i == |items| || Size(items[..i + 1]) > target then i else CutFrom(items, target, i + 1)
  }

  /** The items at the positions below `n` that are, or are not, among `given`. */
  function Among(items: seq<Item>, given: set<nat>, n: nat, inside: bool): (r: seq<Item>)
    requires n <= |items|
  {
    if n == 0 then []
    else if (n - 1 in given) == inside then Among(items, given, n - 1, inside) + [items[n - 1]]
    else Among(items, given, n - 1, inside)
  }

  /** How often `x` stands at the positions of `ids` below `n`. */
  function Count(items: seq<Item>, ids: set<nat>, n: nat, x: Item): nat
    requires n <= |items|
  {
    if n == 0 then 0 else Count(items, ids, n - 1, x) + if n - 1 in ids && items[n - 1] == x then 1 else 0
  }

  function Total(items: seq<Item>, n: nat, x: Item): nat
    requires n <= |items|
  {
    if n == 0 then 0 else Total(items, n - 1, x) + if items[n - 1] == x then 1 else 0
  }

  lemma OneMore(q: seq<Item>, y: Item, x: Item)
    ensures multiset(q + [y])[x] == multiset(q)[x] + if y == x then 1 else 0
  {
    assert multiset(q + [y]) == multiset(q) + multiset{y};
  }

  lemma {:induction false} TotalIs(items: seq<Item>, n: nat, x: Item)
    requires n <= |items|
    ensures multiset(items[..n])[x] == Total(items, n, x)
  {
    if n > 0 {
      TotalIs(items, n - 1, x);
      assert items[..n] == items[..n - 1] + [items[n - 1]];
      OneMore(items[..n - 1], items[n - 1], x);
    }
  }

  lemma {:induction false} AmongCount(items: seq<Item>, given: set<nat>, n: nat, x: Item)
    requires n <= |items|
    ensures multiset(Among(items, given, n, true))[x] == Count(items, given, n, x)
    ensures multiset(Among(items, given, n, true))[x] + multiset(Among(items, given, n, false))[x] == Total(items, n, x)
  {
    if n > 0 {
      AmongCount(items, given, n - 1, x);
      OneMore(Among(items, given, n - 1, true), items[n - 1], x);
      OneMore(Among(items, given, n - 1, false), items[n - 1], x);
    }
  }

  /** Those items are picked by their positions, in order. */
  lemma {:induction false} AmongPicks(items: seq<Item>, given: set<nat>, n: nat, inside: bool, marks: seq<bool>)
    requires n == |marks| <= |items| && forall i | 0 <= i < n :: marks[i] <==> ((i in given) <==> inside)
    ensures Among(items, given, n, inside) == Picked(items[..n], marks)
    decreases n
  {
    if n > 0 {
      AmongPicks(items, given, n - 1, inside, marks[..n - 1]);
      PickedMore(items[..n - 1], marks[..n - 1], items[n - 1], marks[n - 1]);
      assert items[..n] == items[..n - 1] + [items[n - 1]] && marks == marks[..n - 1] + [marks[n - 1]];
    }
  }

  /**
   * The loop over a streamed batch: repeats and transactions with malformed keys are dropped, the rest is
   * run, and from the first item on that would exceed the size target all are put back.
   */
  method SortOut(items: seq<Item>, repeats: set<nat>, malformed: set<nat>, target: nat)
    returns (run: seq<Item>, back: seq<Item>, dropped: seq<Item>)
    ensures var n := Cut(items, target);
            && run == Among(items, repeats + malformed, n, false) && back == items[n..]
            && dropped == Among(items, repeats + malformed, n, true)
    ensures multiset(run) + multiset(back) + multiset(dropped) == multiset(items)
  {
    run, back, dropped := [], [], [];
    var total := 0;
    var i := 0;
    while i < |items|
      invariant 0 <= i <= |items| && total == Size(items[..i]) <= target && back == []
      invariant run == Among(items, repeats + malformed, i, false)
      invariant dropped == Among(items, repeats + malformed, i, true)
      invariant Cut(items, target) == CutFrom(items, target, i)
    {
      assert items[..i + 1] == items[..i] + [items[i]];
      SizeConcat(items[..i], [items[i]]);
      total := total + items[i].size;
      if total > target {
        back := items[i..];
        break;
      }
      if i in repeats || i in malformed {
        dropped := dropped + [items[i]];
      } else {
        run := run + [items[i]];
      }
      i := i + 1;
    }
    SortedOut(items, repeats + malformed, i);
  }

  lemma SortedOut(items: seq<Item>, given: set<nat>, n: nat)
    requires n <= |items|
    ensures multiset(Among(items, given, n, false)) + multiset(items[n..]) + multiset(Among(items, given, n, true))
            == multiset(items)
  {
    assert multiset(items) == multiset(items[..n]) + multiset(items[n..]) by {
      assert items == items[..n] + items[n..];
    }
    forall x: Item
      ensures multiset(Among(items, given, n, false))[x] + multiset(Among(items, given, n, true))[x]
              == multiset(items[..n])[x]
    {
      AmongCount(items, given, n, x);
      TotalIs(items, n, x);
    }
  }

  // ---------------------------------------------------------------------------------------------
  // A batch
  // ---------------------------------------------------------------------------------------------

  /** Positions that are each in exactly one of three sets. */
  lemma {:induction false} ThreeWays(items: seq<Item>, a: set<nat>, b: set<nat>, c: set<nat>, n: nat, x: Item)
    requires n <= |items|
    requires forall i: nat | i < n :: BuildLedger.One(i in a) + BuildLedger.One(i in b) + BuildLedger.One(i in c) == 1
    ensures Count(items, a, n, x) + Count(items, b, n, x) + Count(items, c, n, x) == Total(items, n, x)
  {
    if n > 0 {
      ThreeWays(items, a, b, c, n - 1, x);
      var i: nat := n - 1;
      assert BuildLedger.One(i in a) + BuildLedger.One(i in b) + BuildLedger.One(i in c) == 1;
    }
  }

  /** The items of a log, in its order. */
  function Logged(items: seq<Item>, log: seq<Executor.Entry>): (r: seq<Item>)
    requires forall p | 0 <= p < |log| :: log[p].id < |items|
  {
    seq(|log|, p requires 0 <= p < |log| => items[log[p].id])
  }

  lemma {:induction false} CountMore(items: seq<Item>, ids: set<nat>, i: nat, n: nat, x: Item)
    requires i !in ids && n <= |items|
    ensures Count(items, ids + {i}, n, x) == Count(items, ids, n, x) + if i < n && items[i] == x then 1 else 0
  {
    if n > 0 {
      CountMore(items, ids, i, n - 1, x);
    }
  }

  lemma {:induction false} CountNone(items: seq<Item>, n: nat, x: Item)
    requires n <= |items|
    ensures Count(items, {}, n, x) == 0
  {
    if n > 0 {
      CountNone(items, n - 1, x);
    }
  }

  ghost function IdsOf(log: seq<Executor.Entry>): (ids: set<nat>) {
    set e | e in log :: e.id
  }

  lemma IdsOfMore(log: seq<Executor.Entry>)
    requires log != []
    ensures IdsOf(log) == IdsOf(log[..|log| - 1]) + {log[|log| - 1].id}
    ensures (forall p, q | 0 <= p < q < |log| :: log[p].id != log[q].id) ==>
              log[|log| - 1].id !in IdsOf(log[..|log| - 1])
  {
    var (most, last) := (log[..|log| - 1], log[|log| - 1]);
    assert log == most + [last];
    if last.id in IdsOf(most) {
      var e :| e in most && e.id == last.id;
      var p :| 0 <= p < |most| && most[p] == e;
      assert log[p].id == log[|log| - 1].id;
    }
  }

  lemma LoggedMore(items: seq<Item>, log: seq<Executor.Entry>, x: Item)
    requires log != [] && forall p | 0 <= p < |log| :: log[p].id < |items|
    ensures multiset(Logged(items, log))[x]
            == multiset(Logged(items, log[..|log| - 1]))[x] + if items[log[|log| - 1].id] == x then 1 else 0
  {
    var most := Logged(items, log[..|log| - 1]);
    assert Logged(items, log) == most + [items[log[|log| - 1].id]];
    OneMore(most, items[log[|log| - 1].id], x);
  }

  /** A log without repeats holds each of its items once. */
  lemma {:induction false} LoggedOnce(items: seq<Item>, log: seq<Executor.Entry>, x: Item)
    requires forall p | 0 <= p < |log| :: log[p].id < |items|
    requires forall p, q | 0 <= p < q < |log| :: log[p].id != log[q].id
    ensures multiset(Logged(items, log))[x] == Count(items, IdsOf(log), |items|, x)
  {
    if log == [] {
      assert IdsOf(log) == {};
      CountNone(items, |items|, x);
    } else {
      var (most, last) := (log[..|log| - 1], log[|log| - 1]);
      IdsOfMore(log);
      LoggedMore(items, log, x);
      hide Logged, IdsOf, Count;
      LoggedOnce(items, most, x);
      CountMore(items, IdsOf(most), last.id, |items|, x);
    }
  }

  /** The rules and the node's settings, and the transaction behind each item. */
  datatype Params = Params(limits: Limits, base: Store, max: Dimensions, target: Dimensions, sizeTarget: nat,
                           streamBatch: nat, tx: Item -> BlockAgreement.Signed)

  /** How a batch of items ran: the sentinel and the interleaving. */
  datatype Execution = Execution(maxDependencies: nat, acts: seq<Executor.Action>)

  ghost function BatchOf(p: Params, run: seq<Item>, e: Execution): (batch: BlockAgreement.Batch) {
    BlockAgreement.Batch(seq(|run|, i requires 0 <= i < |run| => p.tx(run[i])), e.maxDependencies, e.acts)
  }

  ghost function Outcome(p: Params, b: BlockAgreement.Built, run: seq<Item>, e: Execution): (s: Executor.State)
    requires BlockAgreement.BuildsBatch(p.base, p.max, p.target, b, BatchOf(p, run, e))
  {
    ExecutorOrder.After(BlockAgreement.Builder(p.base, p.max, p.target, BatchOf(p, run, e)),
                        Executor.Init(b.shared, b.consumed), e.acts)
  }

  ghost function LedgerOf(p: Params, b: BlockAgreement.Built, run: seq<Item>, e: Execution): (l: BuildLedger.Ledger)
    requires BlockAgreement.BuildsBatch(p.base, p.max, p.target, b, BatchOf(p, run, e))
  {
    BuildLedger.Books(BlockAgreement.Builder(p.base, p.max, p.target, BatchOf(p, run, e)),
                      Executor.Init(b.shared, b.consumed), BuildLedger.BLANK, e.acts)
  }

  /** The batch runs until the executor has waited for every task. */
  ghost predicate RunsOut(p: Params, b: BlockAgreement.Built, run: seq<Item>, e: Execution) {
    && BlockAgreement.BuildsBatch(p.base, p.max, p.target, b, BatchOf(p, run, e))
    && var s := Outcome(p, b, run, e);
       |s.tasks| == |run| && forall i | 0 <= i < |s.tasks| :: ExecutorOrder.BodyDone(s.tasks[i].phase)
  }

  ghost function Back(p: Params, b: BlockAgreement.Built, run: seq<Item>, e: Execution): (r: seq<Item>)
    requires RunsOut(p, b, run, e)
  {
    Among(run, BuildLedger.Restorable(LedgerOf(p, b, run, e), Outcome(p, b, run, e).err), |run|, true)
  }

  ghost function Dropped(p: Params, b: BlockAgreement.Built, run: seq<Item>, e: Execution): (r: seq<Item>)
    requires RunsOut(p, b, run, e)
  {
    Among(run, LedgerOf(p, b, run, e).dropped, |run|, true)
  }

  ghost function Blocked(p: Params, b: BlockAgreement.Built, run: seq<Item>, e: Execution): (r: seq<Item>)
    requires RunsOut(p, b, run, e)
  {
    LogInBatch(p, b, run, e);
    Logged(run, Outcome(p, b, run, e).log)
  }

  lemma LogInBatch(p: Params, b: BlockAgreement.Built, run: seq<Item>, e: Execution)
    requires RunsOut(p, b, run, e)
    ensures var s := Outcome(p, b, run, e);
            && (forall q | 0 <= q < |s.log| :: s.log[q].id < |run|)
            && (forall q, r | 0 <= q < r < |s.log| :: s.log[q].id != s.log[r].id)
    ensures forall i: nat | i < |run| ::
              BuildLedger.One(i in QueueOrder.Committed(Outcome(p, b, run, e)))
              + BuildLedger.One(i in BuildLedger.Restorable(LedgerOf(p, b, run, e), Outcome(p, b, run, e).err))
              + BuildLedger.One(i in LedgerOf(p, b, run, e).dropped) == 1
  {
    var cfg := BlockAgreement.Builder(p.base, p.max, p.target, BatchOf(p, run, e));
    assert |cfg.jobs| == |run|;
    hide BlockAgreement.TxJobs, ExecutorOrder.Runs, ExecutorOrder.Timely, ExecutorOrder.After, BuildLedger.Books;
    forall i: nat
      ensures BuildLedger.One(i in QueueOrder.Committed(Outcome(p, b, run, e)))
              + BuildLedger.One(i in BuildLedger.Restorable(LedgerOf(p, b, run, e), Outcome(p, b, run, e).err))
              + BuildLedger.One(i in LedgerOf(p, b, run, e).dropped) == BuildLedger.One(i < |run|)
    {
      BuildLedger.BatchSettles(cfg, b.shared, b.consumed, e.acts, i);
    }
    BuildLedger.BatchSettles(cfg, b.shared, b.consumed, e.acts, 0);
    var s := Outcome(p, b, run, e);
    forall q | 0 <= q < |s.log|
      ensures s.log[q].id < |run|
    {
      var i: nat := s.log[q].id;
      assert i in QueueOrder.Committed(s);
    }
  }

  /** Every item of a batch that ran out is in the block, to be put back or dropped, once in all. */
  lemma BatchConserves(p: Params, b: BlockAgreement.Built, run: seq<Item>, e: Execution)
    requires RunsOut(p, b, run, e)
    ensures multiset(Blocked(p, b, run, e)) + multiset(Back(p, b, run, e)) + multiset(Dropped(p, b, run, e))
            == multiset(run)
  {
    LogInBatch(p, b, run, e);
    var s := Outcome(p, b, run, e);
    var committed := IdsOf(s.log);
    var back := BuildLedger.Restorable(LedgerOf(p, b, run, e), s.err);
    var dropped := LedgerOf(p, b, run, e).dropped;
    hide RunsOut, Outcome, LedgerOf;
    forall x: Item
      ensures multiset(Blocked(p, b, run, e))[x] + multiset(Back(p, b, run, e))[x] + multiset(Dropped(p, b, run, e))[x]
              == multiset(run)[x]
    {
      LoggedOnce(run, s.log, x);
      AmongCount(run, back, |run|, x);
      AmongCount(run, dropped, |run|, x);
      ThreeWays(run, committed, back, dropped, |run|, x);
      TotalIs(run, |run|, x);
      assert run[..|run|] == run;
    }
  }
}

/** The rounds of a build on a mempool that others use meanwhile, and what is put back at the end. */
module BuildRounds {
  import Executor
  import BuildLedger
  import opened Bytes
  import opened Views
  import opened Units
  import opened ExpiryHeaps
  import opened Pools
  import opened PoolConservation
  import opened BuildConservation
  import BlockAgreement

  /**
   * One round: what others do to the pool until the batch is streamed, whether the check for repeats
   * failed, what is dropped before running, what others do until the next batch is prefetched, if it is,
   * and what they do from then on, how the batch ran, and the order in which its items are put back.
   */
  datatype Round = Round(
    before: seq<Action>, repeatsFail: bool, repeats: set<nat>, malformed: set<nat>, between: seq<Action>,
    prepare: bool, during: seq<Action>, execution: Execution, back: seq<Item>)

  /** Others insert and remove; only the builder streams. */
  predicate Quiet(actions: seq<Action>) {
    forall i | 0 <= i < |actions| :: actions[i].Insert? || actions[i].Take?
  }

  datatype Build = Build(
    session: Session, built: BlockAgreement.Built, block: seq<Item>, back: seq<Item>, dropped: seq<Item>)

  function Streamed(p: Params, g: Build, r: Round): (s: Session) {
    Apply(p.limits, After(p.limits, g.session, r.before), Next(p.streamBatch))
  }

  /** The pool once the next batch is prefetched, if it is. */
  function Prepared(p: Params, g: Build, r: Round): (s: Session) {
    var s := After(p.limits, Streamed(p, g, r), r.between);
    if r.prepare && !r.repeatsFail then Apply(p.limits, s, Prepare(p.streamBatch)) else s
  }

  function Batch(p: Params, g: Build, r: Round): (items: seq<Item>) {
    Stream(After(p.limits, g.session, r.before).pool, p.streamBatch).1
  }

  function Running(p: Params, g: Build, r: Round): (items: seq<Item>) {
    var items := Batch(p, g, r);
    Among(items, r.repeats + r.malformed, Cut(items, p.sizeTarget), false)
  }

  ghost predicate RoundOk(p: Params, g: Build, r: Round) {
    && Quiet(r.before) && Quiet(r.between) && Quiet(r.during)
    && (!r.repeatsFail ==>
          && RunsOut(p, g.built, Running(p, g, r), r.execution)
          && multiset(r.back) == multiset(Back(p, g.built, Running(p, g, r), r.execution)))
  }

  ghost function NextBuild(p: Params, g: Build, r: Round): (n: Build)
    requires RoundOk(p, g, r)
  {
    var (s, items, run) := (After(p.limits, Prepared(p, g, r), r.during), Batch(p, g, r), Running(p, g, r));
    if r.repeatsFail then g.(session := s, back := g.back + items)
    else
      var n := Cut(items, p.sizeTarget);
      Build(
        s,
        BlockAgreement.AddBatch(p.base, p.max, p.target, g.built, BatchOf(p, run, r.execution)),
        g.block + Blocked(p, g.built, run, r.execution),
        g.back + (items[n..] + r.back),
        g.dropped + (Among(items, r.repeats + r.malformed, n, true) + Dropped(p, g.built, run, r.execution)))
  }

  /** Everything streamed is accounted for, nothing is lost, and what was handed out is in exactly one place. */
  ghost predicate Balanced(p: Params, g: Build) {
    && Accounted(p.limits, g.session) && g.session.lost == []
    && multiset(g.session.handed) == multiset(g.block) + multiset(g.back) + multiset(g.dropped)
  }

  lemma {:induction false} QuietKeeps(limits: Limits, s: Session, actions: seq<Action>)
    requires Accounted(limits, s) && Quiet(actions)
    ensures var r := After(limits, s, actions);
            && Accounted(limits, r) && r.handed == s.handed && r.lost == s.lost
            && r.pool.next == s.pool.next && r.pool.fetched == s.pool.fetched
    decreases |actions|
  {
    if actions != [] {
      var a := actions[0];
      StepAccounted(limits, s, a);
      if a.Insert? {
        InsertKeepsStream(limits, s.pool, a.items, false);
      }
      assert Quiet(actions[1..]);
      hide Accounted;
      QuietKeeps(limits, Apply(limits, s, a), actions[1..]);
    }
  }

  /** Streaming hands a batch out and leaves no prefetch, so that the next one overwrites nothing. */
  lemma StreamedBatch(p: Params, g: Build, r: Round)
    requires Accounted(p.limits, g.session) && Quiet(r.before)
    ensures var s := Streamed(p, g, r);
            && Accounted(p.limits, s) && s.handed == g.session.handed + Batch(p, g, r) && s.lost == g.session.lost
            && s.pool.next == []
  {
    QuietKeeps(p.limits, g.session, r.before);
    var m := After(p.limits, g.session, r.before);
    StepAccounted(p.limits, m, Next(p.streamBatch));
    NextLeavesNothing(p.limits, m, p.streamBatch);
  }

  lemma NextLeavesNothing(limits: Limits, s: Session, count: nat)
    requires Accounted(limits, s)
    ensures Apply(limits, s, Next(count)).pool.next == []
    ensures Apply(limits, s, Next(count)).handed == s.handed + Stream(s.pool, count).1
  {
    hide Within, Distinct, IDs;
  }

  lemma AddBags(h: multiset<Item>, b: multiset<Item>, k: multiset<Item>, d: multiset<Item>,
                b1: multiset<Item>, k1: multiset<Item>, d1: multiset<Item>)
    requires h == b + k + d
    ensures h + (b1 + k1 + d1) == (b + b1) + (k + k1) + (d + d1)
  {
  }

  /** The items of a streamed batch, one by one: cut off, dropped before running, or run to one of three ends. */
  lemma RoundSplits(p: Params, g: Build, r: Round)
    requires RoundOk(p, g, r) && !r.repeatsFail
    ensures var (items, run) := (Batch(p, g, r), Running(p, g, r));
            var n := Cut(items, p.sizeTarget);
            multiset(Blocked(p, g.built, run, r.execution)) + multiset(items[n..] + r.back)
            + multiset(Among(items, r.repeats + r.malformed, n, true) + Dropped(p, g.built, run, r.execution))
            == multiset(items)
  {
    var (items, run) := (Batch(p, g, r), Running(p, g, r));
    var n := Cut(items, p.sizeTarget);
    SortedOut(items, r.repeats + r.malformed, n);
    BatchConserves(p, g.built, run, r.execution);
    var (a, b, c) := (Blocked(p, g.built, run, r.execution), Back(p, g.built, run, r.execution),
                      Dropped(p, g.built, run, r.execution));
    var (tail, early) := (items[n..], Among(items, r.repeats + r.malformed, n, true));
    hide Batch, Running, Blocked, Back, Dropped, Among, Cut, RoundOk;
    Regroup(multiset(a), multiset(b), multiset(c), multiset(tail), multiset(early), multiset(run));
    assert multiset(tail + r.back) == multiset(tail) + multiset(r.back);
    assert multiset(early + c) == multiset(early) + multiset(c);
  }

  lemma Regroup(a: multiset<Item>, b: multiset<Item>, c: multiset<Item>, tail: multiset<Item>, early: multiset<Item>,
                run: multiset<Item>)
    requires a + b + c == run
    ensures a + (tail + b) + (early + c) == run + tail + early
  {
  }

  lemma PreparedBatch(p: Params, g: Build, r: Round)
    requires Accounted(p.limits, g.session) && Quiet(r.before) && Quiet(r.between)
    ensures var s := Prepared(p, g, r);
            && Accounted(p.limits, s) && s.handed == g.session.handed + Batch(p, g, r) && s.lost == g.session.lost
  {
    StreamedBatch(p, g, r);
    QuietKeeps(p.limits, Streamed(p, g, r), r.between);
    StepAccounted(p.limits, After(p.limits, Streamed(p, g, r), r.between), Prepare(p.streamBatch));
  }

  lemma RoundBalanced(p: Params, g: Build, r: Round)
    requires Balanced(p, g) && RoundOk(p, g, r)
    ensures Balanced(p, NextBuild(p, g, r))
  {
    PreparedBatch(p, g, r);
    QuietKeeps(p.limits, Prepared(p, g, r), r.during);
    hide Accounted, Prepared;
    var (n, items) := (NextBuild(p, g, r), Batch(p, g, r));
    assert n.session == After(p.limits, Prepared(p, g, r), r.during);
    assert multiset(n.session.handed) == multiset(g.session.handed) + multiset(items);
    if r.repeatsFail {
      hide Batch;
      AddBags(multiset(g.session.handed), multiset(g.block), multiset(g.back), multiset(g.dropped),
              multiset{}, multiset(items), multiset{});
      assert multiset(g.back + items) == multiset(g.back) + multiset(items);
    } else {
      RoundSplits(p, g, r);
      BalancedMore(p, g, r);
    }
  }

  lemma BalancedMore(p: Params, g: Build, r: Round)
    requires RoundOk(p, g, r) && !r.repeatsFail
    requires multiset(g.session.handed) == multiset(g.block) + multiset(g.back) + multiset(g.dropped)
    requires var (items, run) := (Batch(p, g, r), Running(p, g, r));
             var n := Cut(items, p.sizeTarget);
             multiset(Blocked(p, g.built, run, r.execution)) + multiset(items[n..] + r.back)
             + multiset(Among(items, r.repeats + r.malformed, n, true) + Dropped(p, g.built, run, r.execution))
             == multiset(items)
    ensures var n := NextBuild(p, g, r);
            multiset(g.session.handed) + multiset(Batch(p, g, r))
            == multiset(n.block) + multiset(n.back) + multiset(n.dropped)
  {
    var (items, run) := (Batch(p, g, r), Running(p, g, r));
    var n := Cut(items, p.sizeTarget);
    var (b1, k1, d1) := (Blocked(p, g.built, run, r.execution), items[n..] + r.back,
                         Among(items, r.repeats + r.malformed, n, true) + Dropped(p, g.built, run, r.execution));
    var next := NextBuild(p, g, r);
    assert next.block == g.block + b1 && next.back == g.back + k1 && next.dropped == g.dropped + d1;
    hide NextBuild, Batch, Running, Blocked, Dropped, Among, Cut, RoundOk;
    AddBags(multiset(g.session.handed), multiset(g.block), multiset(g.back), multiset(g.dropped),
            multiset(b1), multiset(k1), multiset(d1));
    assert multiset(g.block + b1) == multiset(g.block) + multiset(b1);
    assert multiset(g.back + k1) == multiset(g.back) + multiset(k1);
    assert multiset(g.dropped + d1) == multiset(g.dropped) + multiset(d1);
  }

  ghost predicate RoundsOk(p: Params, g: Build, rounds: seq<Round>)
    decreases |rounds|
  {
    rounds != [] ==> RoundOk(p, g, rounds[0]) && RoundsOk(p, NextBuild(p, g, rounds[0]), rounds[1..])
  }

  ghost function BuildAfter(p: Params, g: Build, rounds: seq<Round>): (n: Build)
    requires RoundsOk(p, g, rounds)
    decreases |rounds|
  {
    if rounds == [] then g else BuildAfter(p, NextBuild(p, g, rounds[0]), rounds[1..])
  }

  /** In every build, whatever others do to the pool, what was streamed is in exactly one place and nothing is lost. */
  lemma {:induction false} BuildBalanced(p: Params, g: Build, rounds: seq<Round>)
    requires Balanced(p, g) && RoundsOk(p, g, rounds)
    ensures Balanced(p, BuildAfter(p, g, rounds))
    decreases |rounds|
  {
    if rounds != [] {
      RoundBalanced(p, g, rounds[0]);
      hide Balanced, RoundOk, NextBuild;
      BuildBalanced(p, NextBuild(p, g, rounds[0]), rounds[1..]);
    }
  }

  /** The transactions of some items. */
  ghost function Txs(p: Params, items: seq<Item>): (txs: seq<BlockAgreement.Signed>) {
    seq(|items|, i requires 0 <= i < |items| => p.tx(items[i]))
  }

  lemma BatchTxs(p: Params, b: BlockAgreement.Built, run: seq<Item>, e: Execution)
    requires RunsOut(p, b, run, e)
    ensures BlockAgreement.AddBatch(p.base, p.max, p.target, b, BatchOf(p, run, e)).txs
            == b.txs + Txs(p, Blocked(p, b, run, e))
  {
    LogInBatch(p, b, run, e);
    var (s, batch) := (Outcome(p, b, run, e), BatchOf(p, run, e));
    assert BlockAgreement.Picked(batch.txs, s.log) == Txs(p, Blocked(p, b, run, e));
  }

  lemma TxsConcat(p: Params, a: seq<Item>, b: seq<Item>)
    ensures Txs(p, a + b) == Txs(p, a) + Txs(p, b)
  {
  }

  lemma RoundTxs(p: Params, g: Build, r: Round)
    requires RoundOk(p, g, r) && g.built.txs == Txs(p, g.block)
    ensures var n := NextBuild(p, g, r); n.built.txs == Txs(p, n.block)
  {
    if !r.repeatsFail {
      var run := Running(p, g, r);
      BatchTxs(p, g.built, run, r.execution);
      hide Txs, Running, Batch, Prepared, RunsOut, Blocked, Dropped, BlockAgreement.AddBatch;
      TxsConcat(p, g.block, Blocked(p, g.built, run, r.execution));
    }
  }

  /** The items counted as in the block are those of the block that is built, in its order. */
  lemma {:induction false} BuildTxs(p: Params, g: Build, rounds: seq<Round>)
    requires RoundsOk(p, g, rounds) && g.built.txs == Txs(p, g.block)
    ensures var n := BuildAfter(p, g, rounds); n.built.txs == Txs(p, n.block)
    decreases |rounds|
  {
    if rounds != [] {
      hide NextBuild, RoundOk, Txs;
      RoundTxs(p, g, rounds[0]);
      BuildTxs(p, NextBuild(p, g, rounds[0]), rounds[1..]);
    }
  }

  // ---------------------------------------------------------------------------------------------
  // Reasons for dropping
  // ---------------------------------------------------------------------------------------------

  /** The round gives the item up: a repeat, or malformed, before the size target, or refused by its checks. */
  ghost predicate GivesUp(p: Params, g: Build, r: Round, x: Item)
    requires RoundOk(p, g, r)
  {
    && !r.repeatsFail
    && (|| (exists i: nat :: InCut(p, g, r, i, x) && (i in r.repeats || i in r.malformed))
        || exists i: nat :: InRun(p, g, r, i, x) && RefusedIn(p, g, r, i))
  }

  /** The item is at this position of the batch, before the sizes exceed the target. */
  predicate InCut(p: Params, g: Build, r: Round, i: nat, x: Item) {
    var items := Batch(p, g, r);
    i < |items| && items[i] == x && Size(items[..i + 1]) <= p.sizeTarget
  }

  predicate InRun(p: Params, g: Build, r: Round, i: nat, x: Item) {
    var run := Running(p, g, r);
    i < |run| && run[i] == x
  }

  /** The item at this position of what is run is refused by the checks before its execution. */
  ghost predicate RefusedIn(p: Params, g: Build, r: Round, i: nat)
    requires RoundOk(p, g, r) && !r.repeatsFail
  {
    BuildLedger.Met(BlockAgreement.Builder(p.base, p.max, p.target, BatchOf(p, Running(p, g, r), r.execution)),
                    Executor.Init(g.built.shared, g.built.consumed), r.execution.acts, i, true)
  }

  ghost predicate GivenUp(p: Params, g: Build, rounds: seq<Round>, x: Item)
    requires RoundsOk(p, g, rounds)
    decreases |rounds|
  {
    && rounds != []
    && (GivesUp(p, g, rounds[0], x) || GivenUp(p, NextBuild(p, g, rounds[0]), rounds[1..], x))
  }

  lemma {:induction false} AmongHas(items: seq<Item>, given: set<nat>, n: nat, x: Item)
    requires n <= |items|
    ensures x in Among(items, given, n, true) <==> exists i: nat :: i < n && i in given && items[i] == x
  {
    if n > 0 {
      AmongHas(items, given, n - 1, x);
    }
  }

  lemma {:induction false} SizeUpTo(items: seq<Item>, i: nat, n: nat)
    requires i <= n <= |items|
    ensures Size(items[..i]) <= Size(items[..n])
  {
    assert items[..n] == items[..i] + items[i..n];
    SizeConcat(items[..i], items[i..n]);
  }

  /** The cut is where the sizes first exceed the target. */
  lemma CutIff(items: seq<Item>, target: nat, i: nat)
    requires i < |items|
    ensures i < Cut(items, target) <==> Size(items[..i + 1]) <= target
  {
    var n := Cut(items, target);
    if i < n {
      SizeUpTo(items, i + 1, n);
    } else {
      SizeUpTo(items, n + 1, i + 1);
    }
  }

  lemma RoundGivesUp(p: Params, g: Build, r: Round, x: Item)
    requires RoundOk(p, g, r)
    ensures x in NextBuild(p, g, r).dropped <==> x in g.dropped || GivesUp(p, g, r, x)
  {
    if !r.repeatsFail {
      var (items, run) := (Batch(p, g, r), Running(p, g, r));
      var n := Cut(items, p.sizeTarget);
      var early := Among(items, r.repeats + r.malformed, n, true);
      var late := Dropped(p, g.built, run, r.execution);
      assert NextBuild(p, g, r).dropped == g.dropped + (early + late);
      EarlyGivenUp(p, g, r, x);
      LateGivenUp(p, g, r, x);
      hide NextBuild, RoundOk, Batch, Running, Among, Cut, Dropped, InCut, InRun, RefusedIn;
    }
  }

  lemma EarlyGivenUp(p: Params, g: Build, r: Round, x: Item)
    ensures var items := Batch(p, g, r);
            x in Among(items, r.repeats + r.malformed, Cut(items, p.sizeTarget), true)
            <==> exists i: nat :: InCut(p, g, r, i, x) && (i in r.repeats || i in r.malformed)
  {
    var items := Batch(p, g, r);
    var n := Cut(items, p.sizeTarget);
    AmongHas(items, r.repeats + r.malformed, n, x);
    forall i: nat
      ensures InCut(p, g, r, i, x) <==> i < n && items[i] == x
    {
      if i < |items| {
        CutIff(items, p.sizeTarget, i);
      }
    }
    hide InCut, Among, Cut, Batch;
  }

  lemma LateGivenUp(p: Params, g: Build, r: Round, x: Item)
    requires RoundOk(p, g, r) && !r.repeatsFail
    ensures x in Dropped(p, g.built, Running(p, g, r), r.execution)
            <==> exists i: nat :: InRun(p, g, r, i, x) && RefusedIn(p, g, r, i)
  {
    var run := Running(p, g, r);
    var cfg := BlockAgreement.Builder(p.base, p.max, p.target, BatchOf(p, run, r.execution));
    var s0 := Executor.Init(g.built.shared, g.built.consumed);
    var dropped := BuildLedger.Books(cfg, s0, BuildLedger.BLANK, r.execution.acts).dropped;
    assert Dropped(p, g.built, run, r.execution) == Among(run, dropped, |run|, true);
    forall i: nat
      ensures i in dropped <==> RefusedIn(p, g, r, i)
    {
      BuildLedger.LedgerReasons(cfg, s0, BuildLedger.BLANK, r.execution.acts, i);
    }
    AmongHas(run, dropped, |run|, x);
    hide RefusedIn, Among, Dropped, Running, BuildLedger.Books, RoundOk;
  }

  /** Over a whole build an item is dropped exactly if some round gave it up. */
  lemma {:induction false} DroppedExactlyIfGivenUp(p: Params, g: Build, rounds: seq<Round>, x: Item)
    requires RoundsOk(p, g, rounds)
    ensures x in BuildAfter(p, g, rounds).dropped <==> x in g.dropped || GivenUp(p, g, rounds, x)
    decreases |rounds|
  {
    if rounds != [] {
      RoundGivesUp(p, g, rounds[0], x);
      hide NextBuild, RoundOk, GivesUp;
      DroppedExactlyIfGivenUp(p, NextBuild(p, g, rounds[0]), rounds[1..], x);
    }
  }

  // ---------------------------------------------------------------------------------------------
  // Putting back
  // ---------------------------------------------------------------------------------------------

  /** What the pool holds, has prefetched and has handed out. */
  ghost function Bag(s: Session): (b: multiset<Item>) {
    multiset(s.pool.queue) + multiset(s.pool.next) + multiset(s.handed)
  }

  /** Nobody inserts meanwhile. */
  predicate NoInserts(actions: seq<Action>) {
    forall i | 0 <= i < |actions| :: !actions[i].Insert?
  }

  /** Nobody touches the pool meanwhile. */
  predicate Untouched(r: Round) {
    r.before == [] && r.between == [] && r.during == []
  }

  lemma StreamBag(limits: Limits, s: Session, count: nat)
    requires !s.pool.fetched ==> s.pool.next == []
    ensures Bag(Apply(limits, s, Next(count))) == Bag(s)
  {
    if !s.pool.fetched {
      var n := Min(count, |s.pool.queue|);
      assert s.pool.queue == s.pool.queue[..n] + s.pool.queue[n..];
    }
  }

  lemma PrepareBag(limits: Limits, s: Session, count: nat)
    requires s.pool.next == []
    ensures Bag(Apply(limits, s, Prepare(count))) == Bag(s)
  {
    var n := Min(count, |s.pool.queue|);
    assert s.pool.queue == s.pool.queue[..n] + s.pool.queue[n..];
  }

  lemma TakeBag(limits: Limits, s: Session, at: nat)
    ensures Bag(Apply(limits, s, Take(at))) <= Bag(s)
  {
    if at < |s.pool.queue| {
      SpliceBag(s.pool.queue, at);
    }
  }

  /** Others who only remove leave no more than there was. */
  lemma {:induction false} RemovedBag(limits: Limits, s: Session, actions: seq<Action>)
    requires Quiet(actions) && NoInserts(actions)
    ensures Bag(After(limits, s, actions)) <= Bag(s)
    decreases |actions|
  {
    if actions != [] {
      hide Bag, Apply;
      assert actions[0].Take?;
      TakeBag(limits, s, actions[0].at);
      RemovedBag(limits, Apply(limits, s, actions[0]), actions[1..]);
    }
  }

  predicate Undisturbed(r: Round) {
    NoInserts(r.before) && NoInserts(r.between) && NoInserts(r.during)
  }

  predicate AllUndisturbed(rounds: seq<Round>) {
    forall i | 0 <= i < |rounds| :: Undisturbed(rounds[i])
  }

  predicate AllUntouched(rounds: seq<Round>) {
    forall i | 0 <= i < |rounds| :: Untouched(rounds[i])
  }

  lemma RestToo(rounds: seq<Round>)
    requires rounds != []
    ensures AllUndisturbed(rounds) <==> Undisturbed(rounds[0]) && AllUndisturbed(rounds[1..])
    ensures AllUntouched(rounds) <==> Untouched(rounds[0]) && AllUntouched(rounds[1..])
  {
    hide Undisturbed, Untouched;
    assert forall i | 0 < i < |rounds| :: rounds[i] == rounds[1..][i - 1];
    assert forall i | 0 <= i < |rounds[1..]| :: rounds[1..][i] == rounds[i + 1];
  }

  lemma RoundBag(p: Params, g: Build, r: Round)
    requires Accounted(p.limits, g.session) && RoundOk(p, g, r) && Undisturbed(r)
    ensures Bag(NextBuild(p, g, r).session) <= Bag(g.session)
    ensures Untouched(r) ==> Bag(NextBuild(p, g, r).session) == Bag(g.session)
  {
    var s := After(p.limits, g.session, r.before);
    QuietKeeps(p.limits, g.session, r.before);
    RemovedBag(p.limits, g.session, r.before);
    StreamBag(p.limits, s, p.streamBatch);
    StreamedBatch(p, g, r);
    var t := Streamed(p, g, r);
    QuietKeeps(p.limits, t, r.between);
    RemovedBag(p.limits, t, r.between);
    PrepareBag(p.limits, After(p.limits, t, r.between), p.streamBatch);
    RemovedBag(p.limits, Prepared(p, g, r), r.during);
    hide Bag, Accounted;
  }

  lemma {:induction false} BuildBag(p: Params, g: Build, rounds: seq<Round>)
    requires Balanced(p, g) && RoundsOk(p, g, rounds) && AllUndisturbed(rounds)
    ensures Bag(BuildAfter(p, g, rounds).session) <= Bag(g.session)
    ensures AllUntouched(rounds) ==> Bag(BuildAfter(p, g, rounds).session) == Bag(g.session)
    decreases |rounds|
  {
    if rounds != [] {
      hide Bag, RoundOk, NextBuild, Undisturbed, Untouched, AllUndisturbed, AllUntouched;
      RestToo(rounds);
      RoundBag(p, g, rounds[0]);
      RoundBalanced(p, g, rounds[0]);
      hide Balanced;
      BuildBag(p, NextBuild(p, g, rounds[0]), rounds[1..]);
    }
  }

  /** Items that all come from a pool within its limits are all accepted back, the prefetched ones too. */
  lemma FinishRestores(limits: Limits, p: Pool, before: Pool, items: seq<Item>)
    requires Within(limits, before) && before.streamed == Nothing && (!p.fetched ==> p.next == [])
    requires multiset(p.queue) + multiset(p.next) + multiset(items) <= multiset(before.queue)
    ensures multiset(FinishStreaming(limits, p, items).queue) == multiset(p.queue) + multiset(p.next) + multiset(items)
  {
    hide Within;
    var q := p.(streamed := Nothing);
    assert Parts(items, p.queue, before.queue);
    RestoreAll(limits, q, before, items);
    ReversedSame(items);
    var r := q.(queue := Reversed(items) + p.queue);
    assert multiset(r.queue) == multiset(items) + multiset(p.queue);
    if p.fetched {
      assert Parts(r.next, r.queue, before.queue);
      RestoreAll(limits, r, before, r.next);
      ReversedSame(r.next);
    }
  }

  /** A build that begins on a pool that is not being streamed. */
  function Begun(pool: Pool, built: BlockAgreement.Built): (g: Build) {
    Build(Session(StartStreaming(pool), [], []), built, [], [], [])
  }

  lemma BegunBalanced(p: Params, pool: Pool, built: BlockAgreement.Built)
    requires Within(p.limits, pool) && !pool.fetched && pool.next == []
    ensures Balanced(p, Begun(pool, built)) && Bag(Begun(pool, built).session) == multiset(pool.queue)
  {
    SessionStarts(p.limits, pool);
    assert multiset(StartStreaming(pool).queue) == multiset(pool.queue);
  }

  /** What is put back at the end: the restorable items, and those of the block as well if the build failed. */
  function PutBack(g: Build, failed: bool): (items: seq<Item>) {
    if failed then g.block + g.back else g.back
  }

  /**
   * A whole build: as long as nobody inserts meanwhile, the pool afterwards, the block and the dropped items
   * together hold no item that the pool did not hold before, and all of those if nobody removes any; the
   * items counted as in the block are its transactions; a failed build returns them to the pool.
   */
  lemma BuildConserves(p: Params, pool: Pool, built: BlockAgreement.Built, rounds: seq<Round>, failed: bool)
    requires Within(p.limits, pool) && pool.streamed == Nothing && !pool.fetched && pool.next == []
    requires RoundsOk(p, Begun(pool, built), rounds) && built.txs == []
    requires AllUndisturbed(rounds)
    ensures var g := BuildAfter(p, Begun(pool, built), rounds);
            var after := FinishStreaming(p.limits, g.session.pool, PutBack(g, failed));
            var all := multiset(after.queue) + (if failed then multiset{} else multiset(g.block)) + multiset(g.dropped);
            && g.built.txs == Txs(p, g.block) && all == Bag(g.session) && all <= multiset(pool.queue)
            && (AllUntouched(rounds) ==> all == multiset(pool.queue))
  {
    BegunBalanced(p, pool, built);
    BuildBalanced(p, Begun(pool, built), rounds);
    BuildBag(p, Begun(pool, built), rounds);
    BuildTxs(p, Begun(pool, built), rounds);
    var g := BuildAfter(p, Begun(pool, built), rounds);
    assert !g.session.pool.fetched ==> g.session.pool.next == [];
    hide Within, Accounted, RoundsOk, BuildAfter, AllUndisturbed, AllUntouched, Begun;
    PutBackBag(g, failed);
    FinishRestores(p.limits, g.session.pool, pool, PutBack(g, failed));
  }

  lemma PutBackBag(g: Build, failed: bool)
    requires multiset(g.session.handed) == multiset(g.block) + multiset(g.back) + multiset(g.dropped)
    ensures var items := multiset(PutBack(g, failed));
            var held := multiset(g.session.pool.queue) + multiset(g.session.pool.next);
            && held + items <= Bag(g.session)
            && held + items + (if failed then multiset{} else multiset(g.block)) + multiset(g.dropped) == Bag(g.session)
  {
    assert multiset(g.block + g.back) == multiset(g.block) + multiset(g.back);
  }
}
