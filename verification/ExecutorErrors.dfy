/** What the end of a task body does, and which error a run reports, said without the bookkeeping. */
module ExecutorErrors {
  import opened Bytes
  import opened StateKeys
  import opened Views
  import opened Units
  import opened Executor
  import opened ExecutorOrder

  /** The units do not fit on top of what was consumed, in this dimension. */
  predicate Over(consumed: Dimensions, units: Dimensions, max: Dimensions, d: nat)
    requires d < FEE_DIMENSIONS
  {
    var (c: int, u: int) := (consumed[d], units[d]);
    c + u > max[d]
  }

  predicate NoneOver(consumed: Dimensions, units: Dimensions, max: Dimensions) {
    forall d: nat | d < FEE_DIMENSIONS :: !Over(consumed, units, max, d)
  }

  /** The first dimension in which the units do not fit has reached its target. */
  predicate Full(consumed: Dimensions, units: Dimensions, max: Dimensions, target: Dimensions) {
    exists d: nat | d < FEE_DIMENSIONS ::
      && Over(consumed, units, max, d) && (forall c: nat | c < d :: !Over(consumed, units, max, c))
      && consumed[d] >= target[d]
  }

  /** The step meets an error: stopping, a body that aborts, one refused in verification, or a full block. */
  ghost predicate Raises(cfg: Config, s: State, a: Action, e: Error)
    requires Enabled(cfg, s, a)
  {
    match a
    case Stop => e == Stopped
    case EndBody(i) =>
      (match cfg.jobs[i].prog(s.tasks[i].phase.session.heard).outcome
       case Abort => e == TaskFailed(i)
       case Refuse => cfg.mode == Process && e == TaskFailed(i)
       case Finish(result) =>
         cfg.mode.Build? && e == BlockFull && Full(s.consumed, result.units, cfg.mode.max, cfg.mode.target))
    case _ => false
  }

  /** Consumption never runs into the word size first, since the limits are words. */
  lemma FirstOverIs(consumed: Dimensions, units: Dimensions, max: Dimensions)
    ensures var d := FirstOver(consumed, units, max, 0);
            && (forall c: nat | c < d :: !Over(consumed, units, max, c))
            && (d < FEE_DIMENSIONS ==> Over(consumed, units, max, d))
            && (Fits(consumed, units, max) <==> NoneOver(consumed, units, max))
  {
    forall c: nat | c < FEE_DIMENSIONS
      ensures Over(consumed, units, max, c)
              <==> consumed[c] + units[c] > MAX_UINT64 || consumed[c] + units[c] > max[c]
    {
    }
  }

  lemma SettleRaises(cfg: Config, s: State, i: Id, result: Result)
    requires i < |s.tasks| && s.tasks[i].phase.Running? && s.err.Nothing? && cfg.mode.Build?
    ensures Settle(cfg, s, i, Finish(result)).err
            == if Full(s.consumed, result.units, cfg.mode.max, cfg.mode.target) then Some(BlockFull) else Nothing
  {
    FirstOverIs(s.consumed, result.units, cfg.mode.max);
    hide FirstOver, Fits, Over;
    var d := FirstOver(s.consumed, result.units, cfg.mode.max, 0);
    if Full(s.consumed, result.units, cfg.mode.max, cfg.mode.target) {
      var f: nat :|
        && f < FEE_DIMENSIONS && Over(s.consumed, result.units, cfg.mode.max, f)
        && (forall c: nat | c < f :: !Over(s.consumed, result.units, cfg.mode.max, c))
        && s.consumed[f] >= cfg.mode.target[f];
      assert f == d;
    }
  }

  lemma StepRaises(cfg: Config, s: State, a: Action, e: Error)
    requires Enabled(cfg, s, a)
    ensures s.err.Some? ==> Apply(cfg, s, a).err == s.err
    ensures s.err.Nothing? ==> (Apply(cfg, s, a).err == Some(e) <==> Raises(cfg, s, a, e))
  {
    if a.EndBody? {
      var o := cfg.jobs[a.id].prog(s.tasks[a.id].phase.session.heard).outcome;
      if o.Finish? && cfg.mode.Build? && s.err.Nothing? {
        SettleRaises(cfg, s, a.id, o.result);
      }
      hide FirstOver, Fits, Over, Full;
    }
  }

  /** The error is the one that the first step to meet any meets. */
  ghost predicate RaisedFirst(cfg: Config, s: State, acts: seq<Action>, e: Error)
    requires Runs(cfg, s, acts)
    decreases |acts|
  {
    && acts != []
    && (Raises(cfg, s, acts[0], e)
        || ((forall x :: !Raises(cfg, s, acts[0], x)) && RaisedFirst(cfg, Apply(cfg, s, acts[0]), acts[1..], e)))
  }

  lemma {:induction false} KeepsFirst(cfg: Config, s: State, acts: seq<Action>)
    requires Runs(cfg, s, acts) && s.err.Some?
    ensures After(cfg, s, acts).err == s.err
    decreases |acts|
  {
    if acts != [] {
      StepRaises(cfg, s, acts[0], s.err.value);
      hide Apply, Enabled;
      KeepsFirst(cfg, Apply(cfg, s, acts[0]), acts[1..]);
    }
  }

  /** In every run the error reported is the first one met, and there is none if none was met. */
  lemma {:induction false} ReportsFirstError(cfg: Config, s: State, acts: seq<Action>, e: Error)
    requires Runs(cfg, s, acts) && s.err.Nothing?
    ensures After(cfg, s, acts).err == Some(e) <==> RaisedFirst(cfg, s, acts, e)
    decreases |acts|
  {
    if acts != [] {
      var (a, rest) := (acts[0], acts[1..]);
      forall x
        ensures Apply(cfg, s, a).err == Some(x) <==> Raises(cfg, s, a, x)
      {
        StepRaises(cfg, s, a, x);
      }
      hide Apply, Enabled, Raises;
      var r := Apply(cfg, s, a);
      if r.err.Some? {
        KeepsFirst(cfg, r, rest);
        assert Raises(cfg, s, a, r.err.value);
      } else {
        ReportsFirstError(cfg, r, rest, e);
      }
    }
  }

  lemma ConsumedMore(consumed: Dimensions, units: Dimensions, max: Dimensions)
    requires Fits(consumed, units, max)
    ensures forall d: nat | d < FEE_DIMENSIONS :: Plus(consumed, units, max)[d] == consumed[d] + units[d]
  {
  }

  /** What settling a body changes, apart from errors. */
  lemma SettleCommits(cfg: Config, s: State, i: Id, o: Outcome)
    requires i < |s.tasks| && s.tasks[i].phase.Running?
    ensures
      var r := Settle(cfg, s, i, o);
      var x := s.tasks[i].phase.session;
      if o.Finish? && (cfg.mode.Build? ==> NoneOver(s.consumed, o.result.units, cfg.mode.max)) then
        && r.log == s.log + [Entry(i, o.result, |x.heard|)] && r.err == s.err
        && r.shared == s.shared + x.view.pending
        && (forall d: nat | d < FEE_DIMENSIONS ::
              r.consumed[d] == s.consumed[d] + if cfg.mode.Build? then o.result.units[d] else 0)
      else r.log == s.log && r.shared == s.shared && r.consumed == s.consumed
  {
    if o.Finish? && cfg.mode.Build? {
      FirstOverIs(s.consumed, o.result.units, cfg.mode.max);
      if Fits(s.consumed, o.result.units, cfg.mode.max) {
        ConsumedMore(s.consumed, o.result.units, cfg.mode.max);
      }
    }
    hide FirstOver, Fits, NoneOver, Plus;
  }

  /**
   * A body that ends is committed exactly if it finished and, in building, its units fit in every
   * dimension: others then see what its view showed, its result is logged, and what it uses is consumed.
   * Otherwise nothing changes but the error.
   */
  lemma EndBodyCommits(cfg: Config, s: State, i: Id)
    requires Enabled(cfg, s, EndBody(i))
    ensures
      var r := Apply(cfg, s, EndBody(i));
      var x := s.tasks[i].phase.session;
      var o := cfg.jobs[i].prog(x.heard).outcome;
      if o.Finish? && (cfg.mode.Build? ==> NoneOver(s.consumed, o.result.units, cfg.mode.max)) then
        && r.log == s.log + [Entry(i, o.result, |x.heard|)] && r.err == s.err
        && (forall k :: ReadThrough(cfg.base, r.shared, k) == Visible(x.view, ReadThrough(cfg.base, s.shared, k), k))
        && (forall d: nat | d < FEE_DIMENSIONS ::
              r.consumed[d] == s.consumed[d] + if cfg.mode.Build? then o.result.units[d] else 0)
      else r.log == s.log && r.shared == s.shared && r.consumed == s.consumed
  {
    SettleCommits(cfg, s, i, cfg.jobs[i].prog(s.tasks[i].phase.session.heard).outcome);
    hide Settle, NoneOver;
  }

  /** No body runs that did not run before, and only those add to the log. */
  ghost predicate StartsNone(s: State, r: State) {
    && |s.tasks| <= |r.tasks| && |s.log| <= |r.log| && r.log[..|s.log|] == s.log
    && (forall i | 0 <= i < |r.tasks| && r.tasks[i].phase.Running? :: i < |s.tasks| && s.tasks[i].phase.Running?)
    && (forall q | |s.log| <= q < |r.log| :: r.log[q].id < |s.tasks| && s.tasks[r.log[q].id].phase.Running?)
  }

  lemma EndBodyStartsNone(cfg: Config, s: State, i: Id)
    requires Enabled(cfg, s, EndBody(i))
    ensures StartsNone(s, Apply(cfg, s, EndBody(i)))
  {
    var o := cfg.jobs[i].prog(s.tasks[i].phase.session.heard).outcome;
    SettleEffect(cfg, s, i, o);
    SettleCommits(cfg, s, i, o);
    hide Settle;
  }

  lemma PhaseStartsNone(s: State, i: Id, p: Phase)
    requires i < |s.tasks| && (p.Running? ==> s.tasks[i].phase.Running?)
    ensures StartsNone(s, SetPhase(s, i, p))
  {
  }

  lemma RegisterStartsNone(cfg: Config, s: State, k: Key)
    requires Enabled(cfg, s, RegisterKey(k))
    ensures StartsNone(s, Register(cfg, s, k))
  {
    hide Blockers;
  }

  lemma StepStartsNone(cfg: Config, s: State, a: Action)
    requires Enabled(cfg, s, a) && s.err.Some?
    ensures StartsNone(s, Apply(cfg, s, a))
  {
    hide Settle, Advance, Register, Taken;
    match a
    case EndBody(i) => EndBodyStartsNone(cfg, s, i);
    case RegisterKey(k) => RegisterStartsNone(cfg, s, k);
    case Start(i) => PhaseStartsNone(s, i, Dropping);
    case Operate(i) =>
      PhaseStartsNone(s, i, Running(Advance(cfg.jobs[i], cfg.base, s.shared, s.tasks[i].phase.session)));
    case BeginNotify(i) => PhaseStartsNone(s, i, Notifying);
    case EndNotify(i) => PhaseStartsNone(s, i, Executed);
    case _ =>
  }

  lemma StartsNoneTwice(s: State, t: State, r: State)
    requires StartsNone(s, t) && StartsNone(t, r)
    ensures StartsNone(s, r)
  {
    assert r.log[..|s.log|] == r.log[..|t.log|][..|s.log|];
    forall q | |s.log| <= q < |r.log|
      ensures r.log[q].id < |s.tasks| && s.tasks[r.log[q].id].phase.Running?
    {
      if q < |t.log| {
        assert r.log[q] == r.log[..|t.log|][q] == t.log[q];
      } else {
        assert t.tasks[r.log[q].id].phase.Running?;
      }
    }
  }

  /**
   * After an error, and after stopping, which may come at any time, everything that has not begun is
   * skipped: no further body starts in any run, and nothing is committed but by the bodies then running.
   */
  lemma {:induction false} ErrorSkipsTheRest(cfg: Config, s: State, acts: seq<Action>)
    requires Runs(cfg, s, acts) && s.err.Some?
    ensures StartsNone(s, After(cfg, s, acts))
    decreases |acts|
  {
    if acts != [] {
      var t := Apply(cfg, s, acts[0]);
      StepStartsNone(cfg, s, acts[0]);
      StepRaises(cfg, s, acts[0], s.err.value);
      hide Apply, Enabled;
      ErrorSkipsTheRest(cfg, t, acts[1..]);
      StartsNoneTwice(s, t, After(cfg, t, acts[1..]));
    }
  }

  lemma StopAnyTime(cfg: Config, s: State)
    ensures Enabled(cfg, s, Stop) && Apply(cfg, s, Stop).err == Some(if s.err.Some? then s.err.value else Stopped)
  {
  }
}
