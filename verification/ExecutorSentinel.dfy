/**
 * Why the sentinel must exceed the dependencies of every task. The code's documentation allows a task
 * to have as many as `maxDependencies`; with exactly that many, all of them finishing while it is
 * still being registered, it is sent twice.
 */
module ExecutorSentinel {
  import opened Bytes
  import opened StateKeys
  import opened Views
  import opened Units
  import opened Executor
  import opened ExecutorOrder

  const KEY: Key := [0, 0]

  ghost function Idler(): (job: Job) {
    Job(map[KEY := WRITE], (heard: seq<Response>) => Return(Refuse))
  }

  ghost function TwoWriters(): (cfg: Config) {
    Config(map[], [Idler(), Idler()], 1, Build(ZERO, ZERO))
  }

  lemma {:induction false} RunsOneMore(cfg: Config, s: State, acts: seq<Action>, a: Action)
    requires Runs(cfg, s, acts) && Enabled(cfg, After(cfg, s, acts), a)
    ensures Runs(cfg, s, acts + [a])
    ensures After(cfg, s, acts + [a]) == Apply(cfg, After(cfg, s, acts), a)
    decreases |acts|
  {
    if acts == [] {
      assert acts + [a] == [a];
      assert [a][1..] == [];
    } else {
      RunsOneMore(cfg, Apply(cfg, s, acts[0]), acts[1..], a);
      assert (acts + [a])[1..] == acts[1..] + [a];
    }
  }

  /** The first writer is queued. */
  lemma FirstPart() returns (s: State)
    ensures Runs(TwoWriters(), Init(map[], ZERO), [BeginRun, RegisterKey(KEY), EndRun])
    ensures s == After(TwoWriters(), Init(map[], ZERO), [BeginRun, RegisterKey(KEY), EndRun])
    ensures s.tasks == [Task({}, {}, {}, {}, {}, 0, 1, Idle)]
    ensures s.nodes == map[KEY := 0] && s.current == Nothing && s.queue == [0] && s.err == Nothing
  {
    var cfg, s0 := TwoWriters(), Init(map[], ZERO);
    RunsOneMore(cfg, s0, [], BeginRun);
    var s1 := Apply(cfg, s0, BeginRun);
    assert cfg.jobs[0].keys.Keys == {KEY};
    assert s1.tasks == [NewTask(1)] && s1.current == Some({KEY});
    hide Register;
    FirstRegisters(s1);
    RunsOneMore(cfg, s0, [BeginRun], RegisterKey(KEY));
    var s2 := Apply(cfg, s1, RegisterKey(KEY));
    FirstEnds(s2);
    hide Apply, Enabled;
    RunsOneMore(cfg, s0, [BeginRun, RegisterKey(KEY)], EndRun);
    s := Apply(cfg, s2, EndRun);
  }

  lemma FirstRegisters(s: State)
    requires s.tasks == [NewTask(1)] && s.nodes == map[] && s.current == Some({KEY}) && s.queue == []
    requires s.err == Nothing
    ensures Enabled(TwoWriters(), s, RegisterKey(KEY))
    ensures
      var r := Register(TwoWriters(), s, KEY);
      && r.tasks == [NewTask(1)] && r.current == Some({}) && r.nodes == map[KEY := 0]
      && r.queue == [] && r.err == Nothing
  {
    var r := Register(TwoWriters(), s, KEY);
    assert {KEY} - {KEY} == {};
    assert Blockers(TwoWriters(), s, KEY) == {};
    assert r.tasks[0] == NewTask(1);
  }

  lemma FirstEnds(s: State)
    requires s.tasks == [NewTask(1)] && s.current == Some({}) && s.nodes == map[KEY := 0] && s.queue == []
    requires s.err == Nothing
    ensures Enabled(TwoWriters(), s, EndRun)
    ensures
      var r := Apply(TwoWriters(), s, EndRun);
      && r.tasks == [Task({}, {}, {}, {}, {}, 0, 1, Idle)]
      && r.nodes == map[KEY := 0] && r.current == Nothing && r.queue == [0] && r.err == Nothing
  {
  }

  /** The second registers behind it. */
  lemma SecondPart(s: State) returns (r: State)
    requires s.tasks == [Task({}, {}, {}, {}, {}, 0, 1, Idle)]
    requires s.nodes == map[KEY := 0] && s.current == Nothing && s.queue == [0] && s.err == Nothing
    ensures Runs(TwoWriters(), s, [BeginRun, RegisterKey(KEY)])
    ensures r == After(TwoWriters(), s, [BeginRun, RegisterKey(KEY)])
    ensures r.tasks == [Task({}, {}, {1}, {}, {}, 0, 1, Idle), Task({}, {}, {}, {0}, {0}, 1, 0, Idle)]
    ensures r.nodes == map[KEY := 1] && r.current == Some({}) && r.queue == [0] && r.err == Nothing
  {
    var cfg := TwoWriters();
    RunsOneMore(cfg, s, [], BeginRun);
    var s4 := Apply(cfg, s, BeginRun);
    assert cfg.jobs[1].keys.Keys == {KEY};
    assert s4.tasks == [Task({}, {}, {}, {}, {}, 0, 1, Idle), NewTask(1)];
    hide Register;
    SecondRegisters(s4);
    RunsOneMore(cfg, s, [BeginRun], RegisterKey(KEY));
    r := Apply(cfg, s4, RegisterKey(KEY));
  }

  /** Registering its key puts the second task behind the first. */
  lemma SecondRegisters(s: State)
    requires s.tasks == [Task({}, {}, {}, {}, {}, 0, 1, Idle), NewTask(1)]
    requires s.nodes == map[KEY := 0] && s.current == Some({KEY}) && s.queue == [0] && s.err == Nothing
    ensures Enabled(TwoWriters(), s, RegisterKey(KEY))
    ensures
      var r := Register(TwoWriters(), s, KEY);
      && r.tasks == [Task({}, {}, {1}, {}, {}, 0, 1, Idle), Task({}, {}, {}, {0}, {0}, 1, 0, Idle)]
      && r.nodes == map[KEY := 1] && r.current == Some({}) && r.queue == [0] && r.err == Nothing
  {
    var cfg := TwoWriters();
    var r := Register(cfg, s, KEY);
    assert Blockers(cfg, s, KEY) == {0};
    assert {KEY} - {KEY} == {};
    assert r.tasks[0] == Task({}, {}, {1}, {}, {}, 0, 1, Idle);
    assert r.tasks[1] == Task({}, {}, {}, {0}, {0}, 1, 0, Idle);
  }

  /** The first runs to the point where it notifies. */
  lemma ThirdPart(s: State) returns (r: State)
    requires s.tasks == [Task({}, {}, {1}, {}, {}, 0, 1, Idle), Task({}, {}, {}, {0}, {0}, 1, 0, Idle)]
    requires s.current == Some({}) && s.queue == [0] && s.err == Nothing
    ensures Runs(TwoWriters(), s, [Start(0), EndBody(0), BeginNotify(0)])
    ensures r == After(TwoWriters(), s, [Start(0), EndBody(0), BeginNotify(0)])
    ensures r.tasks == [Task({}, {}, {1}, {}, {}, 0, 1, Notifying), Task({}, {}, {}, {0}, {0}, 1, 0, Idle)]
    ensures r.current == Some({}) && r.queue == []
  {
    var cfg := TwoWriters();
    RunsOneMore(cfg, s, [], Start(0));
    var s1 := Apply(cfg, s, Start(0));
    assert s1.tasks == [Task({}, {}, {1}, {}, {}, 0, 1, Running(FRESH)), Task({}, {}, {}, {0}, {0}, 1, 0, Idle)];
    RunsOneMore(cfg, s, [Start(0)], EndBody(0));
    var s2 := Apply(cfg, s1, EndBody(0));
    assert s2.tasks == [Task({}, {}, {1}, {}, {}, 0, 1, Dropping), Task({}, {}, {}, {0}, {0}, 1, 0, Idle)];
    RunsOneMore(cfg, s, [Start(0), EndBody(0)], BeginNotify(0));
    r := Apply(cfg, s2, BeginNotify(0));
  }

  /** It notifies the second, whose registration then sends it again. */
  lemma FourthPart(s: State) returns (r: State)
    requires s.tasks == [Task({}, {}, {1}, {}, {}, 0, 1, Notifying), Task({}, {}, {}, {0}, {0}, 1, 0, Idle)]
    requires s.current == Some({}) && s.queue == []
    ensures Runs(TwoWriters(), s, [Notify(0, 1), EndRun])
    ensures r == After(TwoWriters(), s, [Notify(0, 1), EndRun])
    ensures r.queue == [1, 1] && |r.tasks| == 2 && r.tasks[1].sends == 2
    ensures |r.tasks[1].deps| == TwoWriters().maxDependencies
  {
    var cfg := TwoWriters();
    RunsOneMore(cfg, s, [], Notify(0, 1));
    var s1 := Apply(cfg, s, Notify(0, 1));
    assert s1.tasks[1] == Task({}, {}, {}, {0}, s.tasks[1].waits - {0}, 0, 1, Idle);
    assert s1.queue == [1];
    RunsOneMore(cfg, s, [Notify(0, 1)], EndRun);
    r := Apply(cfg, s1, EndRun);
  }

  lemma {:induction false} RunsConcat(cfg: Config, s: State, a: seq<Action>, b: seq<Action>)
    requires Runs(cfg, s, a) && Runs(cfg, After(cfg, s, a), b)
    ensures Runs(cfg, s, a + b) && After(cfg, s, a + b) == After(cfg, After(cfg, s, a), b)
    decreases |a|
  {
    hide Apply, Enabled;
    if a == [] {
      assert a + b == b;
    } else {
      RunsConcat(cfg, Apply(cfg, s, a[0]), a[1..], b);
      assert (a + b)[1..] == a[1..] + b;
    }
  }

  /** A run in which a task with as many dependencies as the sentinel is sent twice. */
  lemma SentTwice() returns (acts: seq<Action>)
    ensures Runs(TwoWriters(), Init(map[], ZERO), acts)
    ensures var s := After(TwoWriters(), Init(map[], ZERO), acts);
            && |s.tasks| == 2 && s.tasks[1].sends == 2 && s.queue == [1, 1]
            && |s.tasks[1].deps| == TwoWriters().maxDependencies
  {
    var s := FirstPart();
    var r := SecondPart(s);
    var q := ThirdPart(r);
    var e := FourthPart(q);
    var a, b := [BeginRun, RegisterKey(KEY), EndRun], [BeginRun, RegisterKey(KEY)];
    var c, d := [Start(0), EndBody(0), BeginNotify(0)], [Notify(0, 1), EndRun];
    RunsConcat(TwoWriters(), Init(map[], ZERO), a, b);
    RunsConcat(TwoWriters(), Init(map[], ZERO), a + b, c);
    RunsConcat(TwoWriters(), Init(map[], ZERO), a + b + c, d);
    acts := a + b + c + d;
  }
}
