/**
 * What every interleaving of the scheduler keeps: the links between tasks are consistent, counters
 * equal the outstanding dependencies, each task is sent exactly once, and conflicting tasks run in
 * the order in which they were queued.
 */
module ExecutorOrder {
  import opened Bytes
  import opened StateKeys
  import opened Views
  import opened Units
  import opened Executor

  predicate IsCurrent(s: State, i: Id) {
    s.current.Some? && i + 1 == |s.tasks|
  }

  /** The body is over (or was skipped). */
  predicate BodyDone(p: Phase) {
    p.Dropping? || p.Notifying? || p.Executed?
  }

  /** The keys of task `i` that `Run` has registered so far. */
  function Registered(cfg: Config, s: State, i: Id): (ks: set<Key>)
    requires i < |cfg.jobs|
  {
    if IsCurrent(s, i) then cfg.jobs[i].keys.Keys - s.current.value else cfg.jobs[i].keys.Keys
  }

  /** Both tasks have registered `k`, and at least one does not hold exactly Read. */
  predicate Conflict(cfg: Config, s: State, i: Id, j: Id, k: Key)
    requires i < |cfg.jobs| && j < |cfg.jobs|
  {
    && k in Registered(cfg, s, i)
    && k in Registered(cfg, s, j)
    && !(cfg.jobs[i].keys[k] == READ && cfg.jobs[j].keys[k] == READ)
  }

  // ---------------------------------------------------------------------------------------------
  // Links
  // ---------------------------------------------------------------------------------------------

  predicate Linked(s: State, i: Id)
    requires i < |s.tasks|
  {
    Reading(s, i) && Waiting(s, i)
  }

  /** Readers and what they read refer to each other. */
  predicate Reading(s: State, i: Id)
    requires i < |s.tasks|
  {
    var t := s.tasks[i];
    && (forall x | x in t.reading :: x < i && i in s.tasks[x].readers)
    && (forall x | x in t.readers :: i < x < |s.tasks| && i in s.tasks[x].reading)
    && (t.phase.Notifying? || t.phase.Executed? ==> t.reading == {})
  }

  /** Waits and blocked sets refer to each other, and a dependency that is no longer waited for has notified. */
  predicate Waiting(s: State, i: Id)
    requires i < |s.tasks|
  {
    var t := s.tasks[i];
    && (forall x | x in t.blocked :: i < x < |s.tasks|)
    && (forall x | x in t.waits :: x < i && i in s.tasks[x].blocked)
    && (forall x | 0 <= x < |s.tasks| && i in s.tasks[x].blocked :: x in t.waits)
    && t.waits <= t.deps
    && (forall x | x in t.deps :: x < i && (x in t.waits || s.tasks[x].phase.Notifying? || s.tasks[x].phase.Executed?))
    && (t.phase.Executed? ==> t.blocked == {})
  }

  predicate Links(cfg: Config, s: State) {
    && |s.tasks| <= |cfg.jobs|
    && (s.current.Some? ==> s.tasks != [] && s.current.value <= cfg.jobs[|s.tasks| - 1].keys.Keys)
    && (forall k | k in s.nodes :: s.nodes[k] < |s.tasks| && k in Registered(cfg, s, s.nodes[k]))
    && (forall i | 0 <= i < |s.tasks| :: Linked(s, i))
  }

  // ---------------------------------------------------------------------------------------------
  // Dispatch
  // ---------------------------------------------------------------------------------------------

  predicate Counted(cfg: Config, s: State, i: Id)
    requires i < |s.tasks|
  {
    var t := s.tasks[i];
    && t.counter == (if IsCurrent(s, i) then cfg.maxDependencies - |t.deps| else 0) + |t.waits|
    && t.sends == (if !IsCurrent(s, i) && t.waits == {} then 1 else 0)
    && (!t.phase.Idle? ==> t.sends == 1)
    && (i in s.queue <==> t.sends == 1 && t.phase.Idle?)
  }

  predicate Dispatch(cfg: Config, s: State) {
    && (forall i | 0 <= i < |s.tasks| :: Counted(cfg, s, i))
    && (forall i | i in s.queue :: i < |s.tasks|)
    && NoRepeats(s.queue)
  }

  predicate NoRepeats(queue: seq<Id>) {
    forall p, q | 0 <= p < q < |queue| :: queue[p] != queue[q]
  }

  /**
   * A notification that uses the sentinel up while its receiver is still being registered: counting
   * this one, at least `maxDependencies` dependencies have notified it.
   */
  predicate Premature(cfg: Config, s: State, a: Action) {
    && a.Notify? && a.waiter < |s.tasks| && IsCurrent(s, a.waiter)
    && var t := s.tasks[a.waiter]; |t.deps| - |t.waits| + 1 >= cfg.maxDependencies
  }

  // ---------------------------------------------------------------------------------------------
  // Order
  // ---------------------------------------------------------------------------------------------

  /** A registered key has an owner, and every other holder is ahead of it or is one of its readers. */
  predicate Owned(cfg: Config, s: State, i: Id, k: Key)
    requires |s.tasks| <= |cfg.jobs| && i < |s.tasks| && k in Registered(cfg, s, i)
  {
    && k in s.nodes && s.nodes[k] < |s.tasks|
    && var o := s.nodes[k];
       || i == o
       || (i < o && k in cfg.jobs[o].keys && cfg.jobs[o].keys[k] != READ)
       || (o < i && cfg.jobs[i].keys[k] == READ && (i in s.tasks[o].readers || BodyDone(s.tasks[i].phase)))
  }

  predicate Owners(cfg: Config, s: State)
    requires |s.tasks| <= |cfg.jobs|
  {
    forall i, k | 0 <= i < |s.tasks| && k in Registered(cfg, s, i) :: Owned(cfg, s, i, k)
  }

  /** Task `i` is over, or will notify `j`. */
  predicate Ahead(s: State, i: Id, j: Id)
    requires i < |s.tasks|
  {
    BodyDone(s.tasks[i].phase) || j in s.tasks[i].blocked
  }

  /** An exclusive holder of `k` between `i` and `j` that is ahead of `j`. */
  predicate Between(cfg: Config, s: State, i: Id, m: Id, j: Id, k: Key)
    requires |s.tasks| <= |cfg.jobs|
  {
    i < m < j < |s.tasks| && k in Registered(cfg, s, m) && cfg.jobs[m].keys[k] != READ && Ahead(s, m, j)
  }

  ghost predicate Sequenced(cfg: Config, s: State, i: Id, j: Id, k: Key)
    requires |s.tasks| <= |cfg.jobs| && i < |s.tasks|
  {
    Ahead(s, i, j) || exists m: Id :: Between(cfg, s, i, m, j, k)
  }

  ghost predicate Order(cfg: Config, s: State)
    requires |s.tasks| <= |cfg.jobs|
  {
    forall i, j, k | 0 <= i < j < |s.tasks| && Conflict(cfg, s, i, j, k) ::
      && Sequenced(cfg, s, i, j, k)
      && (!s.tasks[j].phase.Idle? ==> BodyDone(s.tasks[i].phase))
  }

  ghost predicate Inv(cfg: Config, s: State) {
    Links(cfg, s) && Dispatch(cfg, s) && Owners(cfg, s) && Order(cfg, s)
  }

  // ---------------------------------------------------------------------------------------------
  // Preservation
  // ---------------------------------------------------------------------------------------------

  lemma BeginRunLinks(cfg: Config, s: State)
    requires Links(cfg, s) && Enabled(cfg, s, BeginRun)
    ensures Links(cfg, Apply(cfg, s, BeginRun))
  {
    var r := Apply(cfg, s, BeginRun);
    var n := |s.tasks|;
    forall x | 0 <= x < n ensures n !in s.tasks[x].blocked { assert Linked(s, x); }
    forall i | 0 <= i < |r.tasks| ensures Linked(r, i) {
      if i < n {
        assert Linked(s, i);
      }
    }
    assert forall i | 0 <= i < n :: Registered(cfg, r, i) == Registered(cfg, s, i);
  }

  lemma BeginRunDispatch(cfg: Config, s: State)
    requires Links(cfg, s) && Dispatch(cfg, s) && Enabled(cfg, s, BeginRun)
    ensures Dispatch(cfg, Apply(cfg, s, BeginRun))
  {
    var r := Apply(cfg, s, BeginRun);
    forall i | 0 <= i < |r.tasks| ensures Counted(cfg, r, i) {
      if i < |s.tasks| {
        assert Counted(cfg, s, i);
      }
    }
  }

  lemma BeginRunOrder(cfg: Config, s: State, r: State)
    requires |r.tasks| == |s.tasks| + 1 <= |cfg.jobs| && r.nodes == s.nodes
    requires forall i | 0 <= i < |s.tasks| :: r.tasks[i] == s.tasks[i] && Registered(cfg, r, i) == Registered(cfg, s, i)
    requires Registered(cfg, r, |s.tasks|) == {}
    requires Owners(cfg, s) && Order(cfg, s)
    ensures Owners(cfg, r) && Order(cfg, r)
  {
    forall i, k | 0 <= i < |r.tasks| && k in Registered(cfg, r, i) ensures Owned(cfg, r, i, k) {
      assert Owned(cfg, s, i, k);
    }
    forall i, j, k | 0 <= i < j < |r.tasks| && Conflict(cfg, r, i, j, k)
      ensures Sequenced(cfg, r, i, j, k) && (!r.tasks[j].phase.Idle? ==> BodyDone(r.tasks[i].phase))
    {
      assert Conflict(cfg, s, i, j, k);
      assert Sequenced(cfg, s, i, j, k);
      if !Ahead(s, i, j) {
        var m: Id :| Between(cfg, s, i, m, j, k);
        assert Between(cfg, r, i, m, j, k);
      }
    }
  }

  /** Nothing that orders tasks is lost between two states: only a task without outstanding waits may start. */
  predicate Advances(cfg: Config, s: State, r: State)
    requires |s.tasks| <= |cfg.jobs|
  {
    && |r.tasks| == |s.tasks|
    && r.nodes == s.nodes
    && forall i | 0 <= i < |s.tasks| :: AdvancesTask(cfg, s, r, i)
  }

  predicate AdvancesTask(cfg: Config, s: State, r: State, i: Id)
    requires i < |s.tasks| == |r.tasks| && |s.tasks| <= |cfg.jobs|
  {
    && Registered(cfg, r, i) == Registered(cfg, s, i)
    && (BodyDone(s.tasks[i].phase) ==> BodyDone(r.tasks[i].phase))
    && (!r.tasks[i].phase.Idle? ==> !s.tasks[i].phase.Idle? || s.tasks[i].waits == {})
    && (forall j | j in s.tasks[i].blocked :: j in r.tasks[i].blocked || BodyDone(r.tasks[i].phase))
    && (forall j | j in s.tasks[i].readers && j < |r.tasks| :: j in r.tasks[i].readers || BodyDone(r.tasks[j].phase))
  }

  /** A task without outstanding waits has every conflicting predecessor over. */
  lemma ReadyMeansOrdered(cfg: Config, s: State, i: Id, j: Id, k: Key)
    requires Links(cfg, s) && Order(cfg, s)
    requires i < j < |s.tasks| && Conflict(cfg, s, i, j, k)
    requires s.tasks[j].waits == {}
    ensures BodyDone(s.tasks[i].phase)
  {
    assert Linked(s, j);
    assert Sequenced(cfg, s, i, j, k);
    if !Ahead(s, i, j) {
      var m: Id :| Between(cfg, s, i, m, j, k);
      assert BodyDone(s.tasks[m].phase);
      assert Conflict(cfg, s, i, m, k);
    }
  }

  lemma OrderAdvances(cfg: Config, s: State, r: State)
    requires Links(cfg, s) && Owners(cfg, s) && Order(cfg, s) && Advances(cfg, s, r)
    ensures Owners(cfg, r) && Order(cfg, r)
  {
    forall i, k | 0 <= i < |r.tasks| && k in Registered(cfg, r, i) ensures Owned(cfg, r, i, k) {
      assert AdvancesTask(cfg, s, r, i);
      assert Owned(cfg, s, i, k);
      assert AdvancesTask(cfg, s, r, s.nodes[k]);
    }
    forall i, j, k | 0 <= i < j < |r.tasks| && Conflict(cfg, r, i, j, k)
      ensures Sequenced(cfg, r, i, j, k) && (!r.tasks[j].phase.Idle? ==> BodyDone(r.tasks[i].phase))
    {
      assert AdvancesTask(cfg, s, r, i) && AdvancesTask(cfg, s, r, j);
      assert Conflict(cfg, s, i, j, k);
      assert Sequenced(cfg, s, i, j, k);
      if !Ahead(s, i, j) {
        var m: Id :| Between(cfg, s, i, m, j, k);
        assert AdvancesTask(cfg, s, r, m);
        assert Between(cfg, r, i, m, j, k);
      }
      if !r.tasks[j].phase.Idle? && s.tasks[j].phase.Idle? {
        ReadyMeansOrdered(cfg, s, i, j, k);
      }
    }
  }

  lemma EndRunDispatch(cfg: Config, s: State)
    requires Links(cfg, s) && Dispatch(cfg, s) && Enabled(cfg, s, EndRun)
    ensures Dispatch(cfg, Apply(cfg, s, EndRun))
  {
    var r := Apply(cfg, s, EndRun);
    var n := |s.tasks|;
    assert Linked(s, n - 1) && Counted(cfg, s, n - 1);
    hide Linked, Links;
    forall i | 0 <= i < n ensures Counted(cfg, r, i) {
      assert Counted(cfg, s, i);
    }
    hide Counted;
  }

  lemma EndRunLinks(cfg: Config, s: State)
    requires Links(cfg, s) && Enabled(cfg, s, EndRun)
    ensures Links(cfg, Apply(cfg, s, EndRun)) && Advances(cfg, s, Apply(cfg, s, EndRun))
  {
    var r := Apply(cfg, s, EndRun);
    EndRunTasks(cfg, s);
    hide Apply;
    forall i | 0 <= i < |s.tasks| ensures Linked(r, i) {
      assert Linked(s, i);
    }
    hide Linked;
    assert forall i | 0 <= i < |s.tasks| :: Registered(cfg, r, i) == Registered(cfg, s, i);
  }

  /** Ending a registration changes no link. */
  lemma EndRunTasks(cfg: Config, s: State)
    requires Links(cfg, s) && Enabled(cfg, s, EndRun)
    ensures var r := Apply(cfg, s, EndRun);
            && |r.tasks| == |s.tasks| && r.nodes == s.nodes && r.current.Nothing?
            && forall i | 0 <= i < |s.tasks| ::
                 r.tasks[i] == s.tasks[i].(counter := r.tasks[i].counter, sends := r.tasks[i].sends)
  {
    hide Linked;
  }

  lemma {:induction false} TakenLeaves(queue: seq<Id>, i: Id)
    requires i in queue && NoRepeats(queue)
    ensures forall x: Id :: x in Taken(queue, i) <==> x in queue && x != i
    ensures NoRepeats(Taken(queue, i))
  {
    assert queue == [queue[0]] + queue[1..];
    assert NoRepeats(queue[1..]) && queue[0] !in queue[1..];
    if queue[0] != i {
      var rest := Taken(queue[1..], i);
      TakenLeaves(queue[1..], i);
      assert queue[0] !in rest;
      assert NoRepeats([queue[0]] + rest);
    }
  }

  lemma StartLinks(cfg: Config, s: State, h: Id)
    requires Links(cfg, s) && Dispatch(cfg, s) && Enabled(cfg, s, Start(h))
    ensures Links(cfg, Apply(cfg, s, Start(h))) && Advances(cfg, s, Apply(cfg, s, Start(h)))
  {
    var r := Apply(cfg, s, Start(h));
    assert Counted(cfg, s, h);
    hide Counted, Dispatch, Taken;
    forall i | 0 <= i < |s.tasks| ensures Linked(r, i) {
      assert Linked(s, i);
    }
    hide Linked;
    assert forall i | 0 <= i < |s.tasks| :: Registered(cfg, r, i) == Registered(cfg, s, i);
  }

  lemma StartDispatch(cfg: Config, s: State, h: Id)
    requires Dispatch(cfg, s) && Enabled(cfg, s, Start(h))
    ensures Dispatch(cfg, Apply(cfg, s, Start(h)))
  {
    var r := Apply(cfg, s, Start(h));
    TakenLeaves(s.queue, h);
    assert r.queue == Taken(s.queue, h);
    hide Taken;
    assert Counted(cfg, s, h);
    forall i | 0 <= i < |s.tasks| ensures Counted(cfg, r, i) {
      assert Counted(cfg, s, i);
    }
    forall i: Id | i in r.queue ensures i < |r.tasks| {
      assert i in s.queue;
    }
  }

  /** A step that only moves task `i` from one started phase to a later one. */
  lemma PhaseKeeps(cfg: Config, s: State, r: State, i: Id)
    requires Inv(cfg, s) && i < |s.tasks| == |r.tasks|
    requires r.tasks == s.tasks[i := s.tasks[i].(phase := r.tasks[i].phase)]
    requires r.nodes == s.nodes && r.current == s.current && r.queue == s.queue
    requires !s.tasks[i].phase.Idle? && !r.tasks[i].phase.Idle?
    requires BodyDone(s.tasks[i].phase) ==> BodyDone(r.tasks[i].phase)
    requires s.tasks[i].phase.Notifying? ==> r.tasks[i].phase.Executed? && s.tasks[i].blocked == {}
    requires !s.tasks[i].phase.Notifying? && r.tasks[i].phase.Notifying? ==> s.tasks[i].reading == {}
    requires r.tasks[i].phase.Executed? ==> s.tasks[i].phase.Notifying?
    requires !s.tasks[i].phase.Executed?
    ensures Inv(cfg, r)
  {
    hide Counted, Owned, Sequenced, Conflict;
    forall x | 0 <= x < |s.tasks| ensures Linked(r, x) {
      assert Linked(s, x);
    }
    hide Linked;
    assert forall x | 0 <= x < |s.tasks| :: Registered(cfg, r, x) == Registered(cfg, s, x);
    PhaseDispatch(cfg, s, r, i);
    OrderAdvances(cfg, s, r);
  }

  lemma PhaseDispatch(cfg: Config, s: State, r: State, i: Id)
    requires Dispatch(cfg, s) && i < |s.tasks| == |r.tasks|
    requires r.tasks == s.tasks[i := s.tasks[i].(phase := r.tasks[i].phase)]
    requires r.current == s.current && r.queue == s.queue
    requires !s.tasks[i].phase.Idle? && !r.tasks[i].phase.Idle?
    ensures Dispatch(cfg, r)
  {
    forall x | 0 <= x < |s.tasks| ensures Counted(cfg, r, x) {
      assert Counted(cfg, s, x);
    }
    hide Counted;
  }

  lemma DropReaderLinks(cfg: Config, s: State, r: State, i: Id, o: Id)
    requires Links(cfg, s) && |r.tasks| == |s.tasks| && r.nodes == s.nodes && r.current == s.current
    requires i < |s.tasks| && o < |s.tasks| && i != o && BodyDone(s.tasks[i].phase)
    requires r.tasks[i] == s.tasks[i].(reading := s.tasks[i].reading - {o})
    requires r.tasks[o] == s.tasks[o].(readers := s.tasks[o].readers - {i})
    requires forall x | 0 <= x < |s.tasks| && x != i && x != o :: r.tasks[x] == s.tasks[x]
    ensures Links(cfg, r) && Advances(cfg, s, r)
  {
    forall x | 0 <= x < |s.tasks| ensures Linked(r, x) {
      assert Linked(s, x);
      DropReaderReading(s, r, i, o, x);
      DropReaderWaiting(s, r, i, o, x);
    }
    hide Linked;
    assert forall x | 0 <= x < |s.tasks| :: Registered(cfg, r, x) == Registered(cfg, s, x);
  }

  lemma DropReaderReading(s: State, r: State, i: Id, o: Id, x: Id)
    requires |r.tasks| == |s.tasks| && i < |s.tasks| && o < |s.tasks| && i != o && x < |s.tasks| && Reading(s, x)
    requires r.tasks[i] == s.tasks[i].(reading := s.tasks[i].reading - {o})
    requires r.tasks[o] == s.tasks[o].(readers := s.tasks[o].readers - {i})
    requires forall y | 0 <= y < |s.tasks| && y != i && y != o :: r.tasks[y] == s.tasks[y]
    ensures Reading(r, x)
  {
  }

  lemma DropReaderWaiting(s: State, r: State, i: Id, o: Id, x: Id)
    requires |r.tasks| == |s.tasks| && i < |s.tasks| && o < |s.tasks| && i != o && x < |s.tasks| && Waiting(s, x)
    requires r.tasks[i] == s.tasks[i].(reading := s.tasks[i].reading - {o})
    requires r.tasks[o] == s.tasks[o].(readers := s.tasks[o].readers - {i})
    requires forall y | 0 <= y < |s.tasks| && y != i && y != o :: r.tasks[y] == s.tasks[y]
    ensures Waiting(r, x)
  {
  }

  lemma DropReaderDispatch(cfg: Config, s: State, i: Id, o: Id)
    requires Dispatch(cfg, s) && Enabled(cfg, s, DropReader(i, o))
    ensures Dispatch(cfg, Apply(cfg, s, DropReader(i, o)))
  {
    var r := Apply(cfg, s, DropReader(i, o));
    forall x | 0 <= x < |s.tasks| ensures Counted(cfg, r, x) {
      assert Counted(cfg, s, x);
    }
  }

  lemma NotifyLinks(cfg: Config, s: State, r: State, i: Id, b: Id)
    requires Links(cfg, s) && |r.tasks| == |s.tasks| && r.nodes == s.nodes && r.current == s.current
    requires i < |s.tasks| && b < |s.tasks| && i != b && b in s.tasks[i].blocked && s.tasks[i].phase.Notifying?
    requires r.tasks[i] == s.tasks[i].(blocked := s.tasks[i].blocked - {b})
    requires r.tasks[b]
             == s.tasks[b].(waits := s.tasks[b].waits - {i}, counter := r.tasks[b].counter, sends := r.tasks[b].sends)
    requires forall x | 0 <= x < |s.tasks| && x != i && x != b :: r.tasks[x] == s.tasks[x]
    ensures Links(cfg, r) && Advances(cfg, s, r)
  {
    forall x | 0 <= x < |s.tasks| ensures Linked(r, x) {
      assert Linked(s, x);
    }
    hide Linked;
    assert forall x | 0 <= x < |s.tasks| :: Registered(cfg, r, x) == Registered(cfg, s, x);
  }

  lemma NotifyDispatch(cfg: Config, s: State, i: Id, b: Id)
    requires Links(cfg, s) && Dispatch(cfg, s) && Enabled(cfg, s, Notify(i, b))
    ensures Dispatch(cfg, Apply(cfg, s, Notify(i, b))) <==> !Premature(cfg, s, Notify(i, b))
  {
    var r := Apply(cfg, s, Notify(i, b));
    assert Linked(s, b) && Linked(s, i) && Counted(cfg, s, b);
    assert i in s.tasks[b].waits;
    assert |s.tasks[b].waits - {i}| == |s.tasks[b].waits| - 1;
    hide Linked, Links;
    assert Counted(cfg, r, b) <==> !Premature(cfg, s, Notify(i, b));
    assert r.queue == s.queue || (r.queue == s.queue + [b] && b !in s.queue);
    NotifyCountsOthers(cfg, s, r, i, b);
    hide Apply, Counted;
  }

  lemma NotifyCountsOthers(cfg: Config, s: State, r: State, i: Id, b: Id)
    requires Dispatch(cfg, s) && |r.tasks| == |s.tasks| && r.current == s.current && i < |s.tasks|
    requires r.tasks[i] == s.tasks[i].(blocked := s.tasks[i].blocked - {b})
    requires forall x | 0 <= x < |s.tasks| && x != i && x != b :: r.tasks[x] == s.tasks[x]
    requires i != b && (r.queue == s.queue || r.queue == s.queue + [b])
    ensures forall x | 0 <= x < |s.tasks| && x != b :: Counted(cfg, r, x)
  {
    forall x | 0 <= x < |s.tasks| && x != b ensures Counted(cfg, r, x) {
      assert Counted(cfg, s, x);
    }
  }

  // Registering one key

  /** What registering `k` does to each task, for the owner `o` of `k` and the new waits `bs`. */
  predicate RegisterEffect(cfg: Config, s: State, k: Key, r: State, bs: set<Id>)
    requires s.current.Some? && 0 < |s.tasks| <= |cfg.jobs| && k in cfg.jobs[|s.tasks| - 1].keys
  {
    var j := |s.tasks| - 1;
    var shares := k in s.nodes && cfg.jobs[j].keys[k] == READ;
    && |r.tasks| == |s.tasks|
    && r.current == Some(s.current.value - {k})
    && r.queue == s.queue
    && r.nodes == (if shares then s.nodes else s.nodes[k := j])
    && forall i | 0 <= i < |s.tasks| ::
         r.tasks[i] == s.tasks[i].(
           blocked := if i in bs then s.tasks[i].blocked + {j} else s.tasks[i].blocked,
           readers := if shares && i == s.nodes[k] then s.tasks[i].readers + {j} else s.tasks[i].readers,
           reading := if shares && i == j then s.tasks[i].reading + {s.nodes[k]} else s.tasks[i].reading,
           deps := if i == j then s.tasks[i].deps + bs else s.tasks[i].deps,
           waits := if i == j then s.tasks[i].waits + bs else s.tasks[i].waits)
  }

  /** Whoever the new task waits for is earlier, and still has to notify. */
  predicate Earlier(s: State, bs: set<Id>) {
    forall x | x in bs :: x + 1 < |s.tasks| && !s.tasks[x].phase.Notifying? && !s.tasks[x].phase.Executed?
  }

  lemma BlockersEarlier(cfg: Config, s: State, k: Key)
    requires Links(cfg, s) && Enabled(cfg, s, RegisterKey(k))
    ensures Earlier(s, Blockers(cfg, s, k))
    ensures k in s.nodes ==> s.nodes[k] + 1 < |s.tasks|
  {
    if k in s.nodes {
      var o := s.nodes[k];
      assert Linked(s, o);
      forall x | x in s.tasks[o].readers && x + 1 < |s.tasks|
        ensures !s.tasks[x].phase.Notifying? && !s.tasks[x].phase.Executed?
      {
        assert Linked(s, x);
      }
    }
  }

  lemma RegisterHasEffect(cfg: Config, s: State, k: Key)
    requires |s.tasks| <= |cfg.jobs| && Enabled(cfg, s, RegisterKey(k))
    ensures RegisterEffect(cfg, s, k, Register(cfg, s, k), Blockers(cfg, s, k))
  {
    hide Blockers;
  }

  lemma RegisterReading(cfg: Config, s: State, k: Key, r: State, bs: set<Id>, i: Id)
    requires Links(cfg, s) && Enabled(cfg, s, RegisterKey(k)) && RegisterEffect(cfg, s, k, r, bs)
    requires k in s.nodes ==> s.nodes[k] + 1 < |s.tasks|
    requires !s.tasks[|s.tasks| - 1].phase.Notifying? && !s.tasks[|s.tasks| - 1].phase.Executed?
    requires i < |s.tasks|
    ensures Reading(r, i)
  {
    hide Waiting;
    assert Linked(s, i);
    var t := r.tasks[i];
    forall x | x in t.reading
      ensures x < i && i in r.tasks[x].readers
    {
      assert x in s.tasks[i].reading ==> i in s.tasks[x].readers;
    }
    forall x | x in t.readers
      ensures i < x < |s.tasks| && i in r.tasks[x].reading
    {
      assert x in s.tasks[i].readers ==> i in s.tasks[x].reading;
    }
  }

  lemma RegisterWaiting(cfg: Config, s: State, k: Key, r: State, bs: set<Id>, i: Id)
    requires Links(cfg, s) && Enabled(cfg, s, RegisterKey(k)) && RegisterEffect(cfg, s, k, r, bs) && Earlier(s, bs)
    requires i < |s.tasks|
    ensures Waiting(r, i)
  {
    hide Reading;
    var j := |s.tasks| - 1;
    assert Linked(s, i);
    var t := r.tasks[i];
    forall x | 0 <= x < |r.tasks| && i in r.tasks[x].blocked ensures x in t.waits {
      assert i in s.tasks[x].blocked || (i == j && x in bs);
    }
  }

  lemma RegisterLinked(cfg: Config, s: State, k: Key, r: State, bs: set<Id>, i: Id)
    requires Links(cfg, s) && Enabled(cfg, s, RegisterKey(k)) && RegisterEffect(cfg, s, k, r, bs) && Earlier(s, bs)
    requires k in s.nodes ==> s.nodes[k] + 1 < |s.tasks|
    requires !s.tasks[|s.tasks| - 1].phase.Notifying? && !s.tasks[|s.tasks| - 1].phase.Executed?
    requires i < |s.tasks|
    ensures Linked(r, i)
  {
    hide Reading, Waiting, RegisterEffect;
    RegisterReading(cfg, s, k, r, bs, i);
    RegisterWaiting(cfg, s, k, r, bs, i);
  }

  lemma RegisterLinks(cfg: Config, s: State, k: Key, r: State, bs: set<Id>)
    requires Links(cfg, s) && Enabled(cfg, s, RegisterKey(k)) && RegisterEffect(cfg, s, k, r, bs) && Earlier(s, bs)
    requires k in s.nodes ==> s.nodes[k] + 1 < |s.tasks|
    requires !s.tasks[|s.tasks| - 1].phase.Notifying? && !s.tasks[|s.tasks| - 1].phase.Executed?
    ensures Links(cfg, r)
  {
    var j := |s.tasks| - 1;
    forall i | 0 <= i < |r.tasks| ensures Linked(r, i) {
      RegisterLinked(cfg, s, k, r, bs, i);
    }
    assert k in Registered(cfg, r, j);
    assert forall i | 0 <= i < |s.tasks| :: Registered(cfg, s, i) <= Registered(cfg, r, i);
  }

  lemma SetGrowth(deps: set<Id>, waits: set<Id>, bs: set<Id>)
    requires waits <= deps && bs * (deps - waits) == {}
    ensures |deps + bs| - |waits + bs| == |deps| - |waits|
  {
    assert deps == waits + (deps - waits);
    assert deps + bs == (waits + bs) + (deps - waits);
  }

  lemma RegisterDispatch(cfg: Config, s: State, k: Key, r: State, bs: set<Id>)
    requires Links(cfg, s) && Dispatch(cfg, s) && Enabled(cfg, s, RegisterKey(k))
    requires RegisterEffect(cfg, s, k, r, bs) && Earlier(s, bs)
    ensures Dispatch(cfg, r)
  {
    var j := |s.tasks| - 1;
    forall i | 0 <= i < |r.tasks| ensures Counted(cfg, r, i) {
      assert Counted(cfg, s, i);
      if i == j {
        assert Linked(s, j);
        SetGrowth(s.tasks[j].deps, s.tasks[j].waits, bs);
      }
    }
  }

  lemma RegisterOwned(cfg: Config, s: State, k: Key, r: State, bs: set<Id>, i: Id, k': Key)
    requires |s.tasks| <= |cfg.jobs| && Enabled(cfg, s, RegisterKey(k)) && RegisterEffect(cfg, s, k, r, bs)
    requires i < |s.tasks| && k' in Registered(cfg, s, i) && Owned(cfg, s, i, k')
    requires k in s.nodes ==> s.nodes[k] + 1 < |s.tasks|
    ensures k' in Registered(cfg, r, i) && Owned(cfg, r, i, k')
  {
    var o := s.nodes[k'];
    assert s.tasks[o].readers <= r.tasks[o].readers;
    if k' == k {
      assert i + 1 < |s.tasks|;
    }
  }

  lemma RegisterOwners(cfg: Config, s: State, k: Key, r: State, bs: set<Id>)
    requires |s.tasks| <= |cfg.jobs| && Owners(cfg, s) && Enabled(cfg, s, RegisterKey(k))
    requires RegisterEffect(cfg, s, k, r, bs)
    requires k in s.nodes ==> s.nodes[k] + 1 < |s.tasks|
    ensures Owners(cfg, r)
  {
    var j := |s.tasks| - 1;
    forall i, k' | 0 <= i < |r.tasks| && k' in Registered(cfg, r, i) ensures Owned(cfg, r, i, k') {
      if i < j || k' != k {
        assert k' in Registered(cfg, s, i);
        RegisterOwned(cfg, s, k, r, bs, i, k');
      }
    }
  }

  /** The wait that a fresh registration of `k` gives task `j` behind an earlier conflicting holder. */
  lemma RegisterSequences(cfg: Config, s: State, k: Key, r: State, i: Id)
    requires Links(cfg, s) && Owners(cfg, s) && Enabled(cfg, s, RegisterKey(k))
    requires RegisterEffect(cfg, s, k, r, Blockers(cfg, s, k))
    requires k in s.nodes ==> s.nodes[k] + 1 < |s.tasks|
    requires i + 1 < |s.tasks| && k in Registered(cfg, s, i)
    requires !(cfg.jobs[i].keys[k] == READ && cfg.jobs[|s.tasks| - 1].keys[k] == READ)
    ensures Sequenced(cfg, r, i, |s.tasks| - 1, k)
  {
    var j := |s.tasks| - 1;
    assert Owned(cfg, s, i, k);
    var o := s.nodes[k];
    assert Ahead(r, o, j);
    if i < o {
      assert k in Registered(cfg, r, o);
      assert Between(cfg, r, i, o, j, k);
    }
  }

  /** Phases are as before; blocked sets and registrations only grow, the latter by `k` for the last task. */
  predicate Grows(cfg: Config, s: State, r: State, k: Key)
    requires |s.tasks| <= |cfg.jobs|
  {
    && |r.tasks| == |s.tasks|
    && forall x | 0 <= x < |s.tasks| ::
         && r.tasks[x].phase == s.tasks[x].phase
         && s.tasks[x].blocked <= r.tasks[x].blocked
         && Registered(cfg, s, x) <= Registered(cfg, r, x)
         && Registered(cfg, r, x) <= Registered(cfg, s, x) + (if x + 1 == |s.tasks| then {k} else {})
  }

  lemma RegisterGrows(cfg: Config, s: State, k: Key, r: State)
    requires |s.tasks| <= |cfg.jobs| && Enabled(cfg, s, RegisterKey(k))
    requires RegisterEffect(cfg, s, k, r, Blockers(cfg, s, k))
    ensures Grows(cfg, s, r, k)
  {
  }

  /** A pair that conflicted before stays in order. */
  lemma GrowsKeepsOrder(cfg: Config, s: State, r: State, k: Key, i: Id, j: Id, k': Key)
    requires |s.tasks| <= |cfg.jobs| && Grows(cfg, s, r, k) && Order(cfg, s)
    requires i < j < |s.tasks| && Conflict(cfg, s, i, j, k')
    ensures Sequenced(cfg, r, i, j, k') && (!r.tasks[j].phase.Idle? ==> BodyDone(r.tasks[i].phase))
  {
    assert Sequenced(cfg, s, i, j, k');
    if !Ahead(s, i, j) {
      var m: Id :| Between(cfg, s, i, m, j, k');
      assert Between(cfg, r, i, m, j, k');
    }
  }

  /** The last task is sequenced behind every earlier task that conflicts with it on `k`. */
  ghost predicate BehindAll(cfg: Config, s: State, r: State, k: Key)
    requires 0 < |s.tasks| == |r.tasks| && |s.tasks| <= |cfg.jobs| && k in cfg.jobs[|s.tasks| - 1].keys
  {
    forall i | 0 <= i < |s.tasks| - 1 && k in Registered(cfg, s, i)
               && !(cfg.jobs[i].keys[k] == READ && cfg.jobs[|s.tasks| - 1].keys[k] == READ) ::
      Sequenced(cfg, r, i, |s.tasks| - 1, k)
  }

  lemma RegisterBehindAll(cfg: Config, s: State, k: Key, r: State)
    requires Links(cfg, s) && Owners(cfg, s) && Enabled(cfg, s, RegisterKey(k))
    requires RegisterEffect(cfg, s, k, r, Blockers(cfg, s, k))
    requires k in s.nodes ==> s.nodes[k] + 1 < |s.tasks|
    ensures BehindAll(cfg, s, r, k)
  {
    forall i | 0 <= i < |s.tasks| - 1 && k in Registered(cfg, s, i)
               && !(cfg.jobs[i].keys[k] == READ && cfg.jobs[|s.tasks| - 1].keys[k] == READ)
      ensures Sequenced(cfg, r, i, |s.tasks| - 1, k)
    {
      RegisterSequences(cfg, s, k, r, i);
    }
  }

  lemma RegisterOrder(cfg: Config, s: State, k: Key, r: State)
    requires 0 < |s.tasks| <= |cfg.jobs| && Order(cfg, s) && Grows(cfg, s, r, k)
    requires k in cfg.jobs[|s.tasks| - 1].keys && BehindAll(cfg, s, r, k)
    requires s.tasks[|s.tasks| - 1].phase.Idle?
    ensures Order(cfg, r)
  {
    forall i, j, k' | 0 <= i < j < |r.tasks| && Conflict(cfg, r, i, j, k')
      ensures Sequenced(cfg, r, i, j, k') && (!r.tasks[j].phase.Idle? ==> BodyDone(r.tasks[i].phase))
    {
      if Conflict(cfg, s, i, j, k') {
        GrowsKeepsOrder(cfg, s, r, k, i, j, k');
      } else {
        NewConflict(cfg, s, r, k, i, j, k');
      }
    }
  }

  lemma NewConflict(cfg: Config, s: State, r: State, k: Key, i: Id, j: Id, k': Key)
    requires |s.tasks| <= |cfg.jobs| && Grows(cfg, s, r, k)
    requires i < j < |s.tasks| && Conflict(cfg, r, i, j, k') && !Conflict(cfg, s, i, j, k')
    ensures k' == k && j + 1 == |s.tasks| && k in Registered(cfg, s, i)
  {
  }

  lemma RegisterKeeps(cfg: Config, s: State, k: Key)
    requires Inv(cfg, s) && Enabled(cfg, s, RegisterKey(k))
    ensures Inv(cfg, Apply(cfg, s, RegisterKey(k)))
  {
    var r := Register(cfg, s, k);
    var bs := Blockers(cfg, s, k);
    BlockersEarlier(cfg, s, k);
    RegisterHasEffect(cfg, s, k);
    assert Counted(cfg, s, |s.tasks| - 1);
    hide Linked, Counted, Owned, Sequenced, Conflict, RegisterEffect, Earlier, Grows, BehindAll, Blockers, Register;
    RegisterLinks(cfg, s, k, r, bs);
    RegisterDispatch(cfg, s, k, r, bs);
    RegisterOwners(cfg, s, k, r, bs);
    RegisterGrows(cfg, s, k, r);
    RegisterBehindAll(cfg, s, k, r);
    RegisterOrder(cfg, s, k, r);
  }

  // ---------------------------------------------------------------------------------------------
  // Every run
  // ---------------------------------------------------------------------------------------------

  lemma InitInv(cfg: Config, shared: Changes, consumed: Dimensions)
    ensures Inv(cfg, Init(shared, consumed))
  {
  }

  lemma BeginRunKeeps(cfg: Config, s: State)
    requires Inv(cfg, s) && Enabled(cfg, s, BeginRun)
    ensures Inv(cfg, Apply(cfg, s, BeginRun))
  {
    BeginRunLinks(cfg, s);
    BeginRunDispatch(cfg, s);
    BeginRunOrder(cfg, s, Apply(cfg, s, BeginRun));
  }

  lemma SettleEffect(cfg: Config, s: State, i: Id, o: Outcome)
    requires i < |s.tasks| && s.tasks[i].phase.Running?
    ensures var r := Settle(cfg, s, i, o);
            r.tasks == s.tasks && r.nodes == s.nodes && r.current == s.current && r.queue == s.queue
  {
    hide Fits, FirstOver;
  }

  lemma PhaseStepKeeps(cfg: Config, s: State, a: Action)
    requires Inv(cfg, s) && Enabled(cfg, s, a)
    requires a.Operate? || a.BeginNotify? || a.EndNotify?
    ensures Inv(cfg, Apply(cfg, s, a))
  {
    PhaseKeeps(cfg, s, Apply(cfg, s, a), a.id);
  }

  lemma EndBodyKeeps(cfg: Config, s: State, i: Id)
    requires Inv(cfg, s) && Enabled(cfg, s, EndBody(i))
    ensures Inv(cfg, Apply(cfg, s, EndBody(i)))
  {
    SettleEffect(cfg, s, i, cfg.jobs[i].prog(s.tasks[i].phase.session.heard).outcome);
    PhaseKeeps(cfg, s, Apply(cfg, s, EndBody(i)), i);
  }

  lemma NotifyKeeps(cfg: Config, s: State, i: Id, b: Id)
    requires Inv(cfg, s) && Enabled(cfg, s, Notify(i, b)) && !Premature(cfg, s, Notify(i, b))
    ensures Inv(cfg, Apply(cfg, s, Notify(i, b)))
  {
    hide Linked, Counted, Owned, Sequenced, Conflict;
    var r := Apply(cfg, s, Notify(i, b));
    NotifyLinks(cfg, s, r, i, b);
    NotifyDispatch(cfg, s, i, b);
    OrderAdvances(cfg, s, r);
  }

  lemma DropReaderKeeps(cfg: Config, s: State, i: Id, o: Id)
    requires Inv(cfg, s) && Enabled(cfg, s, DropReader(i, o))
    ensures Inv(cfg, Apply(cfg, s, DropReader(i, o)))
  {
    hide Linked, Counted, Owned, Sequenced, Conflict;
    var r := Apply(cfg, s, DropReader(i, o));
    DropReaderLinks(cfg, s, r, i, o);
    DropReaderDispatch(cfg, s, i, o);
    OrderAdvances(cfg, s, r);
  }

  /** Every step keeps the invariant, unless it notifies prematurely. */
  lemma StepKeeps(cfg: Config, s: State, a: Action)
    requires Inv(cfg, s) && Enabled(cfg, s, a) && !Premature(cfg, s, a)
    ensures Inv(cfg, Apply(cfg, s, a))
  {
    match a
    case BeginRun => BeginRunKeeps(cfg, s);
    case RegisterKey(k) => RegisterKeeps(cfg, s, k);
    case EndRun => EndRunLinks(cfg, s); EndRunDispatch(cfg, s); OrderAdvances(cfg, s, Apply(cfg, s, a));
    case Start(h) => StartLinks(cfg, s, h); StartDispatch(cfg, s, h); OrderAdvances(cfg, s, Apply(cfg, s, a));
    case EndBody(i) => EndBodyKeeps(cfg, s, i);
    case DropReader(i, o) => DropReaderKeeps(cfg, s, i, o);
    case Notify(i, b) => NotifyKeeps(cfg, s, i, b);
    case Stop => StopKeeps(cfg, s);
    case _ => PhaseStepKeeps(cfg, s, a);
  }

  lemma StopKeeps(cfg: Config, s: State)
    requires Inv(cfg, s)
    ensures Inv(cfg, RaiseError(s, Stopped))
  {
    hide Owned, Sequenced, Conflict;
    var r := RaiseError(s, Stopped);
    forall i | 0 <= i < |s.tasks| ensures Linked(r, i) && Counted(cfg, r, i) {
      assert Linked(s, i) && Counted(cfg, s, i);
    }
    hide Linked, Counted;
    assert forall i | 0 <= i < |s.tasks| :: Registered(cfg, r, i) == Registered(cfg, s, i);
    OrderAdvances(cfg, s, r);
  }

  ghost predicate Runs(cfg: Config, s: State, acts: seq<Action>)
    decreases |acts|
  {
    acts != [] ==> Enabled(cfg, s, acts[0]) && Runs(cfg, Apply(cfg, s, acts[0]), acts[1..])
  }

  ghost function After(cfg: Config, s: State, acts: seq<Action>): (r: State)
    requires Runs(cfg, s, acts)
    decreases |acts|
  {
    if acts == [] then s else After(cfg, Apply(cfg, s, acts[0]), acts[1..])
  }

  /** No step of the run notifies prematurely. */
  ghost predicate Timely(cfg: Config, s: State, acts: seq<Action>)
    requires Runs(cfg, s, acts)
    decreases |acts|
  {
    acts != [] ==> !Premature(cfg, s, acts[0]) && Timely(cfg, Apply(cfg, s, acts[0]), acts[1..])
  }

  lemma {:induction false} RunKeeps(cfg: Config, s: State, acts: seq<Action>)
    requires Inv(cfg, s) && Runs(cfg, s, acts) && Timely(cfg, s, acts)
    ensures Inv(cfg, After(cfg, s, acts))
    decreases |acts|
  {
    if acts != [] {
      StepKeeps(cfg, s, acts[0]);
      RunKeeps(cfg, Apply(cfg, s, acts[0]), acts[1..]);
    }
  }

  // ---------------------------------------------------------------------------------------------
  // Exactly-once dispatch, exactly
  // ---------------------------------------------------------------------------------------------

  /**
   * What the channel is for: a task has been put on it once if its `Run` has returned and nothing it
   * depends on is left to notify it, and not at all before that.
   */
  predicate DispatchedOnce(s: State) {
    && NoRepeats(s.queue)
    && forall i | 0 <= i < |s.tasks| ::
         s.tasks[i].sends == (if !IsCurrent(s, i) && s.tasks[i].waits == {} then 1 else 0)
  }

  /** Every state of the run, the first and the last included. */
  ghost predicate AlwaysDispatchedOnce(cfg: Config, s: State, acts: seq<Action>)
    requires Runs(cfg, s, acts)
    decreases |acts|
  {
    DispatchedOnce(s) && (acts != [] ==> AlwaysDispatchedOnce(cfg, Apply(cfg, s, acts[0]), acts[1..]))
  }

  lemma InvDispatchedOnce(cfg: Config, s: State)
    requires Dispatch(cfg, s)
    ensures DispatchedOnce(s)
  {
    forall i | 0 <= i < |s.tasks|
      ensures s.tasks[i].sends == (if !IsCurrent(s, i) && s.tasks[i].waits == {} then 1 else 0)
    {
      assert Counted(cfg, s, i);
    }
  }

  /** A premature notification sends a task whose `Run` has not returned. */
  lemma PrematureSends(cfg: Config, s: State, i: Id, b: Id)
    requires Links(cfg, s) && Dispatch(cfg, s) && Enabled(cfg, s, Notify(i, b)) && Premature(cfg, s, Notify(i, b))
    ensures !DispatchedOnce(Apply(cfg, s, Notify(i, b)))
  {
    var r := Apply(cfg, s, Notify(i, b));
    assert Linked(s, b) && Linked(s, i) && Counted(cfg, s, b);
    hide Linked, Links;
    assert IsCurrent(r, b) && r.tasks[b].sends == 1;
  }

  /**
   * Exactly-once dispatch holds throughout a run if and only if no task that is still being registered
   * has been notified by `maxDependencies` of its dependencies.
   */
  lemma {:induction false} DispatchedOnceIffTimely(cfg: Config, s: State, acts: seq<Action>)
    requires Inv(cfg, s) && Runs(cfg, s, acts)
    ensures AlwaysDispatchedOnce(cfg, s, acts) <==> Timely(cfg, s, acts)
    decreases |acts|
  {
    InvDispatchedOnce(cfg, s);
    hide DispatchedOnce;
    if acts == [] {
    } else if Premature(cfg, s, acts[0]) {
      PrematureSends(cfg, s, acts[0].id, acts[0].waiter);
    } else {
      hide Premature;
      StepKeeps(cfg, s, acts[0]);
      DispatchedOnceIffTimely(cfg, Apply(cfg, s, acts[0]), acts[1..]);
    }
  }

  lemma {:induction false} CountBelow(ids: set<Id>, n: nat)
    requires forall x | x in ids :: x < n
    ensures |ids| <= n
  {
    if n > 0 {
      CountBelow(ids - {n - 1}, n - 1);
    } else {
      assert ids == {};
    }
  }

  /** With no more jobs than the sentinel, nothing is ever premature. */
  lemma NeverPremature(cfg: Config, s: State, a: Action)
    requires Links(cfg, s) && Enabled(cfg, s, a) && |cfg.jobs| <= cfg.maxDependencies
    ensures !Premature(cfg, s, a)
  {
    if Premature(cfg, s, a) {
      var t := s.tasks[a.waiter];
      assert Linked(s, a.waiter) && Linked(s, a.id);
      assert a.id in t.waits;
      CountBelow(t.deps, a.waiter);
    }
  }

  /**
   * The condition a caller can check: an executor given at most `maxDependencies` jobs meets the
   * hypothesis of every theorem about runs.
   */
  lemma {:induction false} FewJobsTimely(cfg: Config, s: State, acts: seq<Action>)
    requires Inv(cfg, s) && Runs(cfg, s, acts) && |cfg.jobs| <= cfg.maxDependencies
    ensures Timely(cfg, s, acts)
    decreases |acts|
  {
    if acts != [] {
      NeverPremature(cfg, s, acts[0]);
      StepKeeps(cfg, s, acts[0]);
      FewJobsTimely(cfg, Apply(cfg, s, acts[0]), acts[1..]);
    }
  }

  /** The executors of block building and of block verification: their sentinel is above their number of jobs. */
  lemma FewJobsDispatchedOnce(cfg: Config, shared: Changes, consumed: Dimensions, acts: seq<Action>)
    requires Runs(cfg, Init(shared, consumed), acts) && |cfg.jobs| <= cfg.maxDependencies
    ensures Timely(cfg, Init(shared, consumed), acts) && AlwaysDispatchedOnce(cfg, Init(shared, consumed), acts)
  {
    InitInv(cfg, shared, consumed);
    FewJobsTimely(cfg, Init(shared, consumed), acts);
    DispatchedOnceIffTimely(cfg, Init(shared, consumed), acts);
  }

  /**
   * Conflict ordering, in every interleaving: if two tasks share a key and not both hold exactly Read,
   * the later one does not start before the body of the earlier one is over.
   */
  lemma ConflictsRunInOrder(cfg: Config, shared: Changes, consumed: Dimensions, acts: seq<Action>, i: Id, j: Id, k: Key)
    requires Runs(cfg, Init(shared, consumed), acts) && Timely(cfg, Init(shared, consumed), acts)
    requires i < j < |After(cfg, Init(shared, consumed), acts).tasks|
    ensures var s := After(cfg, Init(shared, consumed), acts);
            && |s.tasks| <= |cfg.jobs|
            && (k in cfg.jobs[i].keys && k in cfg.jobs[j].keys
                && !(cfg.jobs[i].keys[k] == READ && cfg.jobs[j].keys[k] == READ)
                && !s.tasks[j].phase.Idle?
                ==> BodyDone(s.tasks[i].phase))
  {
    InitInv(cfg, shared, consumed);
    RunKeeps(cfg, Init(shared, consumed), acts);
    var s := After(cfg, Init(shared, consumed), acts);
    assert Counted(cfg, s, j);
    if k in cfg.jobs[i].keys && k in cfg.jobs[j].keys && !s.tasks[j].phase.Idle?
       && !(cfg.jobs[i].keys[k] == READ && cfg.jobs[j].keys[k] == READ) {
      assert Conflict(cfg, s, i, j, k);
    }
  }

  /**
   * Exactly-once dispatch: once `Run` has returned for a task, its counter is the number of its
   * dependencies that still have to notify it, and it was put on the channel once if there is none and
   * not at all otherwise; nothing is on the channel twice.
   */
  lemma SentExactlyOnce(cfg: Config, shared: Changes, consumed: Dimensions, acts: seq<Action>, i: Id)
    requires Runs(cfg, Init(shared, consumed), acts) && Timely(cfg, Init(shared, consumed), acts)
    requires i < |After(cfg, Init(shared, consumed), acts).tasks|
    ensures var s := After(cfg, Init(shared, consumed), acts);
            var t := s.tasks[i];
            && t.sends <= 1
            && (!t.phase.Idle? ==> t.sends == 1 && i !in s.queue)
            && (!IsCurrent(s, i) ==>
                  && t.counter == |t.waits|
                  && (t.sends == 1 <==> t.waits == {})
                  && (forall x :: x in t.waits <==> x in t.deps && x < |s.tasks| && i in s.tasks[x].blocked)
                  && (forall x | x in t.deps - t.waits ::
                        x < |s.tasks| && (s.tasks[x].phase.Notifying? || s.tasks[x].phase.Executed?)))
            && (forall p, q | 0 <= p < q < |s.queue| :: s.queue[p] != s.queue[q])
  {
    InitInv(cfg, shared, consumed);
    RunKeeps(cfg, Init(shared, consumed), acts);
    var s := After(cfg, Init(shared, consumed), acts);
    assert Counted(cfg, s, i);
    assert Linked(s, i);
  }

  /** The least task that is not executed. */
  lemma {:induction false} LeastOutstanding(s: State, i: Id) returns (l: Id)
    requires i < |s.tasks| && !s.tasks[i].phase.Executed?
    ensures l < |s.tasks| && !s.tasks[l].phase.Executed?
    ensures forall x | 0 <= x < l :: s.tasks[x].phase.Executed?
  {
    if x: Id :| x < i && !s.tasks[x].phase.Executed? {
      l := LeastOutstanding(s, x);
    } else {
      l := i;
    }
  }

  /** A task that has started and not finished can take its next step, or waits for a lock whose holder can. */
  lemma ActiveStep(cfg: Config, s: State, i: Id) returns (a: Action)
    requires Inv(cfg, s) && i < |s.tasks|
    requires !s.tasks[i].phase.Idle? && !s.tasks[i].phase.Executed?
    ensures Enabled(cfg, s, a) && a != Stop && a != BeginRun
  {
    assert Linked(s, i);
    match s.tasks[i].phase
    case Running(x) => a := if cfg.jobs[i].prog(x.heard).Return? then EndBody(i) else Operate(i);
    case Dropping =>
      if s.tasks[i].reading == {} {
        a := BeginNotify(i);
      } else {
        var o :| o in s.tasks[i].reading;
        if s.tasks[o].phase.Notifying? {
          a := NotifyingStep(cfg, s, o);
        } else {
          a := DropReader(i, o);
        }
      }
    case Notifying => a := NotifyingStep(cfg, s, i);
  }

  lemma NotifyingStep(cfg: Config, s: State, i: Id) returns (a: Action)
    requires Inv(cfg, s) && i < |s.tasks| && s.tasks[i].phase.Notifying?
    ensures Enabled(cfg, s, a) && a != Stop && a != BeginRun
  {
    assert Linked(s, i);
    if s.tasks[i].blocked == {} {
      a := EndNotify(i);
    } else {
      var b :| b in s.tasks[i].blocked;
      a := Notify(i, b);
    }
  }

  /** With no `Run` in progress, the least outstanding task is on the channel or with a worker. */
  lemma LeastIsActive(cfg: Config, s: State, l: Id)
    requires Inv(cfg, s) && s.current.Nothing? && l < |s.tasks| && !s.tasks[l].phase.Executed?
    requires forall x | 0 <= x < l :: s.tasks[x].phase.Executed?
    ensures l in s.queue || !s.tasks[l].phase.Idle?
  {
    assert Linked(s, l) && Counted(cfg, s, l);
    forall x | 0 <= x < l ensures l !in s.tasks[x].blocked { assert Linked(s, x); }
    assert s.tasks[l].waits == {};
  }

  /**
   * No deadlock, whatever failed or was stopped: while a task is outstanding or a `Run` is in progress,
   * some thread can take a step; and with no `Run` in progress some task is queued or running.
   */
  lemma NoDeadlock(cfg: Config, shared: Changes, consumed: Dimensions, acts: seq<Action>) returns (a: Action)
    requires Runs(cfg, Init(shared, consumed), acts) && Timely(cfg, Init(shared, consumed), acts)
    requires var s := After(cfg, Init(shared, consumed), acts);
             s.current.Some? || exists i: Id :: i < |s.tasks| && !s.tasks[i].phase.Executed?
    ensures var s := After(cfg, Init(shared, consumed), acts);
            && Enabled(cfg, s, a) && a != Stop && a != BeginRun
            && (s.current.Nothing? ==>
                  exists i: Id ::
                    i < |s.tasks| && (i in s.queue || (!s.tasks[i].phase.Idle? && !s.tasks[i].phase.Executed?)))
  {
    InitInv(cfg, shared, consumed);
    RunKeeps(cfg, Init(shared, consumed), acts);
    var s := After(cfg, Init(shared, consumed), acts);
    if s.current.Some? {
      if s.current.value == {} {
        a := EndRun;
      } else {
        var k :| k in s.current.value;
        if k in s.nodes && s.tasks[s.nodes[k]].phase.Notifying? {
          a := NotifyingStep(cfg, s, s.nodes[k]);
        } else {
          a := RegisterKey(k);
        }
      }
    } else {
      var i: Id :| i < |s.tasks| && !s.tasks[i].phase.Executed?;
      var l := LeastOutstanding(s, i);
      LeastIsActive(cfg, s, l);
      if l in s.queue {
        a := Start(l);
      } else {
        a := ActiveStep(cfg, s, l);
      }
    }
  }
}
