/**
 * The dependency scheduler as a step system. The main thread registers the jobs in order, one key at
 * a time; workers take tasks from the channel, run them operation by operation against a view of the
 * shared changes, drop their reader marks and notify the tasks they block. A step is what the code
 * does under one lock (or one atomic operation), so a run of steps is an interleaving of the threads.
 */
module Executor {
  import opened Bytes
  import opened StateKeys
  import opened Views
  import opened Units

  type Id = nat

  // ---------------------------------------------------------------------------------------------
  // Task bodies
  // ---------------------------------------------------------------------------------------------

  datatype Response = Got(value: Value) | Position(n: nat) | Replied(status: Status)

  /** How a task body ends: with a result to commit, refused before execution, or with an error. */
  datatype Outcome = Finish(result: Result) | Refuse | Abort

  datatype Op =
    | Fetch(k: Key)
    | Put(k: Key, value: Value)
    | Delete(k: Key)
    | Mark
    | Restore(n: nat)
    | Return(outcome: Outcome)

  /** A task body: the next operation, given the responses heard so far. */
  type Program = seq<Response> -> Op

  datatype Job = Job(keys: Keys, prog: Program)

  /** A body in execution: its view and what it has heard. */
  datatype Session = Session(view: View, heard: seq<Response>)

  const FRESH := Session(EMPTY, [])

  /** The parent state restricted to the declared keys: what prefetching hands to the view. */
  function Prefetched(base: Store, keys: Keys): (m: Store) {
    map k | k in keys && k in base :: base[k]
  }

  function Respond(v: View, scope: Scope, storage: Store, shared: Changes, op: Op): (r: (View, Response))
    requires !op.Return?
  {
    match op
    case Fetch(k) =>
      var (x, st) := Get(v, scope, ReadThrough(storage, shared, k), k);
      (v, if st == Ok then Got(x) else Replied(st))
    case Put(k, x) =>
      var (v', st) := Insert(v, scope, ReadThrough(storage, shared, k), k, x);
      (v', Replied(st))
    case Delete(k) =>
      var (v', st) := Remove(v, scope, ReadThrough(storage, shared, k), k);
      (v', Replied(st))
    case Mark => (v, Position(|v.ops|))
    case Restore(n) => (if n <= |v.ops| then Rollback(v, n) else v, Replied(Ok))
  }

  /** One operation of a body; a body that has returned stays where it is. */
  function Advance(job: Job, base: Store, shared: Changes, x: Session): (r: Session) {
    var op := job.prog(x.heard);
    if op.Return? then x
    else
      var (v, resp) := Respond(x.view, Limited(job.keys), Prefetched(base, job.keys), shared, op);
      Session(v, x.heard + [resp])
  }

  /** A body run alone for `n` operations against fixed shared changes. */
  function Alone(job: Job, base: Store, shared: Changes, n: nat): (r: Session) {
    if n == 0 then FRESH else Advance(job, base, shared, Alone(job, base, shared, n - 1))
  }

  // ---------------------------------------------------------------------------------------------
  // The machine
  // ---------------------------------------------------------------------------------------------

  datatype Phase = Idle | Running(session: Session) | Dropping | Notifying | Executed

  /**
   * `waits` and `sends` are history: the dependencies that have not notified this task yet, and how
   * often it was put on the channel. `deps` is the local set of `Run`, kept after it returns.
   */
  datatype Task = Task(
    reading: set<Id>,
    readers: set<Id>,
    blocked: set<Id>,
    deps: set<Id>,
    waits: set<Id>,
    counter: int,
    sends: nat,
    phase: Phase
  )

  datatype Error = Stopped | TaskFailed(id: Id) | BlockFull

  datatype Entry = Entry(id: Id, result: Result, steps: nat)

  /** `current` holds the keys that the `Run` in progress, if any, has yet to register for the last task. */
  datatype State = State(
    tasks: seq<Task>,
    nodes: map<Key, Id>,
    current: Maybe<set<Key>>,
    queue: seq<Id>,
    err: Maybe<Error>,
    shared: Changes,
    consumed: Dimensions,
    log: seq<Entry>
  )

  /** Verifying a block commits every finished task; building one commits a task only while its units fit. */
  datatype Mode = Process | Build(max: Dimensions, target: Dimensions)

  datatype Config = Config(base: Store, jobs: seq<Job>, maxDependencies: nat, mode: Mode)

  function Init(shared: Changes, consumed: Dimensions): (s: State) {
    State([], map[], Nothing, [], Nothing, shared, consumed, [])
  }

  datatype Action =
    | BeginRun
    | RegisterKey(k: Key)
    | EndRun
    | Start(id: Id)
    | Operate(id: Id)
    | EndBody(id: Id)
    | DropReader(id: Id, owner: Id)
    | BeginNotify(id: Id)
    | Notify(id: Id, waiter: Id)
    | EndNotify(id: Id)
    | Stop

  ghost predicate Enabled(cfg: Config, s: State, a: Action) {
    var n := |s.tasks|;
    match a
    case BeginRun => s.current.Nothing? && n < |cfg.jobs|
    case RegisterKey(k) =>
      && s.current.Some? && 0 < n <= |cfg.jobs| && k in s.current.value && k in cfg.jobs[n - 1].keys
      && (k in s.nodes ==> s.nodes[k] < n && !s.tasks[s.nodes[k]].phase.Notifying?)
    case EndRun => s.current == Some({}) && n > 0
    case Start(i) => i in s.queue && i < n
    case Operate(i) =>
      && i < n <= |cfg.jobs| && s.tasks[i].phase.Running?
      && !cfg.jobs[i].prog(s.tasks[i].phase.session.heard).Return?
    case EndBody(i) =>
      && i < n <= |cfg.jobs| && s.tasks[i].phase.Running?
      && cfg.jobs[i].prog(s.tasks[i].phase.session.heard).Return?
    case DropReader(i, o) =>
      i < n && o < n && i != o && s.tasks[i].phase.Dropping? && o in s.tasks[i].reading && !s.tasks[o].phase.Notifying?
    case BeginNotify(i) => i < n && s.tasks[i].phase.Dropping? && s.tasks[i].reading == {}
    case Notify(i, b) => i < n && b < n && i != b && s.tasks[i].phase.Notifying? && b in s.tasks[i].blocked
    case EndNotify(i) => i < n && s.tasks[i].phase.Notifying? && s.tasks[i].blocked == {}
    case Stop => true
  }

  function NewTask(max: nat): (t: Task) {
    Task({}, {}, {}, {}, {}, max, 0, Idle)
  }

  /** The tasks that one being registered must wait for because of key `k`. */
  function Blockers(cfg: Config, s: State, k: Key): (bs: set<Id>)
    requires 0 < |s.tasks| <= |cfg.jobs| && k in cfg.jobs[|s.tasks| - 1].keys
    requires k in s.nodes ==> s.nodes[k] < |s.tasks|
  {
    if k !in s.nodes then {}
    else
      var j := |s.tasks| - 1;
      var owner := s.tasks[s.nodes[k]];
      (if cfg.jobs[j].keys[k] == READ then {} else owner.readers - {j})
      + (if owner.phase.Executed? then {} else {s.nodes[k]})
  }

  /** Registering a key: mark the owner read, or wait for its readers and take ownership; wait for the owner. */
  function Register(cfg: Config, s: State, k: Key): (r: State)
    requires s.current.Some? && 0 < |s.tasks| <= |cfg.jobs| && k in cfg.jobs[|s.tasks| - 1].keys
    requires k in s.nodes ==> s.nodes[k] < |s.tasks|
  {
    var j := |s.tasks| - 1;
    var bs := Blockers(cfg, s, k);
    var shares := k in s.nodes && cfg.jobs[j].keys[k] == READ;
    var tasks := seq(|s.tasks|, i requires 0 <= i < |s.tasks| =>
      var t := s.tasks[i];
      t.(blocked := if i in bs then t.blocked + {j} else t.blocked,
         readers := if shares && i == s.nodes[k] then t.readers + {j} else t.readers,
         reading := if shares && i == j then t.reading + {s.nodes[k]} else t.reading,
         deps := if i == j then t.deps + bs else t.deps,
         waits := if i == j then t.waits + bs else t.waits));
    s.(tasks := tasks,
       nodes := if shares then s.nodes else s.nodes[k := j],
       current := Some(s.current.value - {k}))
  }

  /**
   * The channel without the first occurrence of `i`. A task counts as queued until its worker has
   * looked for an error, so tasks may start in another order than they were received in.
   */
  function Taken(queue: seq<Id>, i: Id): (r: seq<Id>) {
    if queue == [] then []
    else if queue[0] == i then queue[1..]
    else [queue[0]] + Taken(queue[1..], i)
  }

  /** Puts a task on the channel. */
  function Send(s: State, i: Id): (r: State)
    requires i < |s.tasks|
  {
    s.(queue := s.queue + [i], tasks := s.tasks[i := s.tasks[i].(sends := s.tasks[i].sends + 1)])
  }

  function SetPhase(s: State, i: Id, p: Phase): (r: State)
    requires i < |s.tasks|
  {
    s.(tasks := s.tasks[i := s.tasks[i].(phase := p)])
  }

  function RaiseError(s: State, e: Error): (r: State) {
    if s.err.Some? then s else s.(err := Some(e))
  }

  function Commit(s: State, i: Id, result: Result): (r: State)
    requires i < |s.tasks| && s.tasks[i].phase.Running?
  {
    var x := s.tasks[i].phase.session;
    s.(shared := s.shared + x.view.pending, log := s.log + [Entry(i, result, |x.heard|)])
  }

  /** The end of a task body: commit, skip or fail. */
  function Settle(cfg: Config, s: State, i: Id, o: Outcome): (r: State)
    requires i < |s.tasks| && s.tasks[i].phase.Running?
  {
    match o
    case Abort => RaiseError(s, TaskFailed(i))
    case Refuse => if cfg.mode.Process? then RaiseError(s, TaskFailed(i)) else s
    case Finish(result) =>
      match cfg.mode
      case Process => Commit(s, i, result)
      case Build(max, target) =>
        if Fits(s.consumed, result.units, max) then
          Commit(s.(consumed := Plus(s.consumed, result.units, max)), i, result)
        else
          var d := FirstOver(s.consumed, result.units, max, 0);
          if d < FEE_DIMENSIONS && s.consumed[d] >= target[d] then RaiseError(s, BlockFull) else s
  }

  ghost function Apply(cfg: Config, s: State, a: Action): (r: State)
    requires Enabled(cfg, s, a)
  {
    var n := |s.tasks|;
    match a
    case BeginRun =>
      s.(tasks := s.tasks + [NewTask(cfg.maxDependencies)], current := Some(cfg.jobs[n].keys.Keys))
    case RegisterKey(k) => Register(cfg, s, k)
    case EndRun =>
      var t := s.tasks[n - 1];
      var left := t.counter - (cfg.maxDependencies - |t.deps|);
      var adjusted := s.(tasks := s.tasks[n - 1 := t.(counter := left)], current := Nothing);
      if left > 0 then adjusted else Send(adjusted, n - 1)
    case Start(i) =>
      SetPhase(s, i, if s.err.Some? then Dropping else Running(FRESH)).(queue := Taken(s.queue, i))
    case Operate(i) =>
      SetPhase(s, i, Running(Advance(cfg.jobs[i], cfg.base, s.shared, s.tasks[i].phase.session)))
    case EndBody(i) =>
      SetPhase(Settle(cfg, s, i, cfg.jobs[i].prog(s.tasks[i].phase.session.heard).outcome), i, Dropping)
    case DropReader(i, o) =>
      s.(tasks := s.tasks[i := s.tasks[i].(reading := s.tasks[i].reading - {o})]
                         [o := s.tasks[o].(readers := s.tasks[o].readers - {i})])
    case BeginNotify(i) => SetPhase(s, i, Notifying)
    case Notify(i, b) =>
      var left := s.tasks[b].counter - 1;
      var notified := s.(tasks := s.tasks[i := s.tasks[i].(blocked := s.tasks[i].blocked - {b})]
                                         [b := s.tasks[b].(counter := left, waits := s.tasks[b].waits - {i})]);
      if left > 0 then notified else Send(notified, b)
    case EndNotify(i) => SetPhase(s, i, Executed)
    case Stop => RaiseError(s, Stopped)
  }
}
