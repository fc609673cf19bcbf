/** Workers that run the loop of the source: what they hold, that every fair run of them finishes, and
    when they quit. Where a predicate names its conjunction `holds`, it is proved and used as one fact. */
module WorkerLoops {
  import opened Tasks
  import opened CoordinatorProgress
  import Runs = CoordinatorRuns
  import Strings

  /** Where a worker is: not registered yet, about to ask, with a reply whose phase told it to run a
      mapper or a reducer, about to report, or gone for good. */
  datatype Loop = New | Asking | Holding(reply: RequestReply) | Reporting(reply: RequestReply) | Quit

  /** Workers are processes, by number. */
  datatype System = System(coord: State, names: seq<string>, loops: seq<Loop>)

  /** A worker names itself by the microsecond it starts in, so two workers may have one name. */
  function WorkerName(micros: nat): string {
    "worker-" + Strings.Itoa(micros)
  }

  predicate IsWorker(s: System, w: nat) {
    w < |s.loops| == |s.names|
  }

  /** The next step of one worker. It goes on for ever as long as its replies name the map or the
      reduce phase, with a task in them or not, and quits at any other reply. */
  function Turn(s: System, w: nat): (r: System)
    requires IsWorker(s, w)
    ensures |r.loops| == |s.loops| && r.names == s.names
  {
    match s.loops[w]
    case New => s.(coord := Register(s.coord, Worker(s.names[w], "", "")), loops := s.loops[w := Asking])
    case Asking =>
      var (coord, reply) := Request(s.coord, s.names[w]);
      s.(coord := coord,
         loops := s.loops[w := if reply.phase == MapPhase || reply.phase == ReducePhase then Holding(reply) else Quit])
    case Holding(reply) => s.(loops := s.loops[w := Reporting(reply)])
    case Reporting(reply) =>
      var (coord, answer) := Update(s.coord, UpdateArgs(s.names[w], reply.taskId, reply.taskType));
      s.(coord := coord, loops := s.loops[w := if answer.phase != FinishedPhase then Asking else Quit])
    case Quit => s
  }

  /** The coordinator call a step makes, if any. */
  function CallOf(s: System, w: nat): (r: seq<Runs.Rpc>)
    requires IsWorker(s, w)
  {
    match s.loops[w]
    case New => [Runs.RegisterCall(Worker(s.names[w], "", ""))]
    case Asking => [Runs.RequestCall(s.names[w])]
    case Reporting(reply) => [Runs.UpdateCall(UpdateArgs(s.names[w], reply.taskId, reply.taskType))]
    case _ => []
  }

  predicate Scheduled(s: System, schedule: seq<nat>) {
    |s.loops| == |s.names| && forall k :: 0 <= k < |schedule| ==> schedule[k] < |s.loops|
  }

  /** Workers take their turns as the schedule says. */
  function Play(s: System, schedule: seq<nat>): (r: System)
    requires Scheduled(s, schedule)
    ensures |r.loops| == |s.loops| && r.names == s.names
    decreases |schedule|
  {
    if schedule == [] then s else Play(Turn(s, schedule[0]), schedule[1..])
  }

  lemma PlayFirst(s: System, schedule: seq<nat>)
    requires Scheduled(s, schedule) && schedule != []
    ensures Scheduled(Turn(s, schedule[0]), schedule[1..])
    ensures Play(s, schedule) == Play(Turn(s, schedule[0]), schedule[1..])
  {
  }

  lemma {:induction false} PlayMore(s: System, a: seq<nat>, b: seq<nat>)
    requires Scheduled(s, a) && Scheduled(s, b)
    ensures Play(s, a + b) == Play(Play(s, a), b)
    decreases |a|
  {
    if a == [] {
      assert a + b == b;
    } else {
      assert (a + b)[0] == a[0] && (a + b)[1..] == a[1..] + b;
      PlayFirst(s, a + b);
      PlayFirst(s, a);
      PlayMore(Turn(s, a[0]), a[1..], b);
    }
  }

  /** The workers that start, some time, in these microseconds. */
  function Begin(files: seq<string>, nReduce: int, started: seq<nat>): (s: System)
    ensures |s.loops| == |s.names| == |started|
  {
    System(Start(files, nReduce), seq(|started|, w requires 0 <= w < |started| => WorkerName(started[w])),
           seq(|started|, _ => New))
  }

  // ---------------------------------------------------------------- the invariant

  /** The worker has a reply that hands it task `i` of kind `t`. */
  predicate Has(loop: Loop, t: TaskType, i: nat) {
    && (loop.Holding? || loop.Reporting?)
    && loop.reply.available && loop.reply.taskType == t && loop.reply.taskId == TaskName(i)
  }

  predicate PendingAt(s: State, t: TaskType, i: nat, name: string) {
    i < |TasksOf(s, t)| && TasksOf(s, t)[i].status == Pending && TasksOf(s, t)[i].worker.workerId == name
  }

  predicate Carries(s: System, w: nat, name: string, t: TaskType, i: nat) {
    IsWorker(s, w) && s.names[w] == name && Has(s.loops[w], t, i)
  }

  /** Some worker of the name that owns a pending task is still at it. */
  ghost predicate OwnersWork(s: System) {
    forall t: TaskType, i: nat, name: string ::
      PendingAt(s.coord, t, i, name) ==> exists w: nat :: Carries(s, w, name, t, i)
  }

  /** A reply in hand is about a pending task of this name, or says that the reduce phase has no task. */
  ghost predicate HandOk(s: State, name: string, loop: Loop) {
    loop.Holding? || loop.Reporting? ==>
      if loop.reply.available then
        exists i: nat :: Has(loop, loop.reply.taskType, i) && PendingAt(s, loop.reply.taskType, i, name)
      else loop.reply.taskId == "" && s.phase != MapPhase
  }

  ghost predicate HandsOk(s: System) {
    forall w: nat {:trigger HandOk(s.coord, s.names[w], s.loops[w])} ::
      IsWorker(s, w) ==> HandOk(s.coord, s.names[w], s.loops[w])
  }

  predicate SameTask(a: Loop, b: Loop) {
    && (a.Holding? || a.Reporting?) && (b.Holding? || b.Reporting?)
    && a.reply.available && b.reply.available
    && a.reply.taskType == b.reply.taskType && a.reply.taskId == b.reply.taskId
  }

  /** No two workers are at one task, whatever their names. */
  ghost predicate Apart(s: System) {
    forall v: nat, w: nat {:trigger SameTask(s.loops[v], s.loops[w])} ::
      IsWorker(s, v) && IsWorker(s, w) && SameTask(s.loops[v], s.loops[w]) ==> v == w
  }

  ghost predicate Tended(s: System) {
    var holds := OwnersWork(s) && HandsOk(s) && Apart(s);
    holds
  }

  ghost predicate Known(s: System) {
    && |s.loops| == |s.names|
    && (forall w: nat :: IsWorker(s, w) ==> s.names[w] != "")
    && (forall w: nat :: IsWorker(s, w) && s.loops[w] != New ==>
          FindWorker(s.coord.workers, s.names[w]) < |s.coord.workers|)
  }

  /** Nobody has quit while a map task waits, and somebody is left in the reduce phase. */
  ghost predicate Enough(s: System) {
    && (s.coord.phase == MapPhase && SomeWaiting(s.coord.mapTasks) ==>
          forall w: nat :: IsWorker(s, w) ==> s.loops[w] != Quit)
    && (s.coord.phase == ReducePhase ==> exists w: nat :: IsWorker(s, w) && s.loops[w] != Quit)
  }

  ghost predicate Good(files: seq<string>, nReduce: int, s: System) {
    && |s.loops| == |s.names|
    && forall x: nat {:trigger Inside(x)} :: Inside(x) ==>
         Runs.Inv(files, nReduce, s.coord) && Known(s) && Tended(s) && Enough(s)
  }

  /** A proof that looks inside `Good` says `assert Inside(0)`. */
  ghost predicate Inside(x: nat) {
    true
  }

  lemma BeginGood(files: seq<string>, nReduce: int, started: seq<nat>)
    ensures Good(files, nReduce, Begin(files, nReduce, started))
  {
    Runs.StartInv(files, nReduce);
  }

  /** Only the worker whose turn it is changes. */
  ghost predicate OnlyWorker(s: System, u: System, w: nat) {
    && IsWorker(s, w) && u.names == s.names && |u.loops| == |s.loops|
    && forall v: nat :: IsWorker(s, v) && v != w ==> u.loops[v] == s.loops[v]
  }

  lemma FinishedIff(files: seq<string>, nReduce: int, s: System)
    requires Good(files, nReduce, s) && files != [] && nReduce >= 1
    ensures s.coord.phase == FinishedPhase <==> Remaining(s.coord) == 0
  {
    assert Inside(0);
    FinishedMeaning(files, nReduce, s.coord);
  }

  // ---------------------------------------------------------------- one turn

  lemma NewGood(files: seq<string>, nReduce: int, s: System, w: nat)
    requires Good(files, nReduce, s) && IsWorker(s, w) && s.loops[w] == New
    ensures Good(files, nReduce, Turn(s, w))
  {
    assert Inside(0);
    var u := Turn(s, w);
    var worker := Worker(s.names[w], "", "");
    Runs.StepInv(files, nReduce, s.coord, Runs.RegisterCall(worker));
    NewKnown(s, u, w, worker);
    SameTasks(s, u, w);
  }

  lemma NewKnown(s: System, u: System, w: nat, worker: Worker)
    requires Known(s) && OnlyWorker(s, u, w) && u.coord.workers == s.coord.workers + [worker]
             && worker.workerId == s.names[w]
    ensures Known(u)
  {
    assert u.coord.workers[|s.coord.workers|].workerId == s.names[w];
    forall v: nat | IsWorker(u, v) && u.loops[v] != New
      ensures FindWorker(u.coord.workers, u.names[v]) < |u.coord.workers|
    {
      if v != w {
        var k := FindWorker(s.coord.workers, s.names[v]);
        assert u.coord.workers[k].workerId == s.names[v];
      }
    }
  }

  /** A turn that changes no task and leaves in hand what was in hand. */
  lemma SameTasks(s: System, u: System, w: nat)
    requires Tended(s) && OnlyWorker(s, u, w)
    requires Runs.Idle(s.coord, u.coord)
    requires forall t, i: nat :: Has(s.loops[w], t, i) <==> Has(u.loops[w], t, i)
    requires forall loop :: SameTask(s.loops[w], loop) <==> SameTask(u.loops[w], loop)
    requires HandOk(s.coord, s.names[w], u.loops[w])
    ensures Tended(u)
  {
    SameOwners(s, u, w);
    forall v: nat | IsWorker(u, v) ensures HandOk(u.coord, u.names[v], u.loops[v]) {
      if v != w {
        assert HandOk(s.coord, s.names[v], s.loops[v]);
      }
      SameHand(s.coord, u.coord, u.names[v], u.loops[v]);
    }
    SameApart(s, u, w);
  }

  lemma SameOwners(s: System, u: System, w: nat)
    requires OwnersWork(s) && OnlyWorker(s, u, w)
    requires Runs.Idle(s.coord, u.coord)
    requires forall t, i: nat :: Has(s.loops[w], t, i) <==> Has(u.loops[w], t, i)
    ensures OwnersWork(u)
  {
    forall t: TaskType, i: nat, name: string | PendingAt(u.coord, t, i, name)
      ensures exists v: nat :: Carries(u, v, name, t, i)
    {
      assert PendingAt(s.coord, t, i, name);
      var v: nat :| Carries(s, v, name, t, i);
      assert Carries(u, v, name, t, i);
    }
  }

  lemma SameApart(s: System, u: System, w: nat)
    requires Apart(s) && OnlyWorker(s, u, w)
    requires forall loop :: SameTask(s.loops[w], loop) <== SameTask(u.loops[w], loop)
    ensures Apart(u)
  {
    forall a: nat, b: nat | IsWorker(u, a) && IsWorker(u, b) && a != b ensures !SameTask(u.loops[a], u.loops[b]) {
      assert !SameTask(s.loops[a], s.loops[b]) && !SameTask(s.loops[b], s.loops[a]);
    }
  }

  lemma SameHand(s: State, u: State, name: string, loop: Loop)
    requires HandOk(s, name, loop) && u.phase == s.phase
    requires forall t: TaskType, i: nat :: PendingAt(s, t, i, name) ==> PendingAt(u, t, i, name)
    ensures HandOk(u, name, loop)
  {
  }

  /** A request that finds nothing leaves the coordinator alone. */
  lemma AskedInVain(files: seq<string>, nReduce: int, s: System, w: nat)
    requires Good(files, nReduce, s) && IsWorker(s, w) && s.loops[w] == Asking
    requires Runs.EffectOfRequest(s.coord, s.names[w]) == Runs.Nothing
    ensures var (coord, reply) := Request(s.coord, s.names[w]);
            && coord == s.coord && !reply.available && reply.taskId == "" && reply.partition == 0
            && reply.phase == if s.coord.phase == MapPhase then NoPhase else s.coord.phase
    ensures !SomeWaiting(Current(s.coord))
  {
    assert Inside(0);
    assert s.loops[w] != New;
  }

  lemma VainGood(files: seq<string>, nReduce: int, s: System, w: nat)
    requires Good(files, nReduce, s) && IsWorker(s, w) && s.loops[w] == Asking
    requires Runs.EffectOfRequest(s.coord, s.names[w]) == Runs.Nothing
    ensures Good(files, nReduce, Turn(s, w))
  {
    assert Inside(0);
    AskedInVain(files, nReduce, s, w);
    var u := Turn(s, w);
    SameTasks(s, u, w);
    if s.coord.phase == ReducePhase {
      assert u.loops[w] != Quit;
    }
  }

  lemma KnownKept(s: System, u: System, w: nat)
    requires Known(s) && OnlyWorker(s, u, w) && s.loops[w] != New && u.coord.workers == s.coord.workers
    ensures Known(u)
  {
  }

  /** A task that is handed out goes to the worker that asked. */
  lemma HandedGood(files: seq<string>, nReduce: int, s: System, w: nat, t: TaskType, i: nat, worker: Worker)
    requires Good(files, nReduce, s) && IsWorker(s, w) && s.loops[w] == Asking
    requires Runs.HandsOut(s.coord, Runs.RequestCall(s.names[w]), Request(s.coord, s.names[w]).0, t, i, worker)
    ensures Good(files, nReduce, Turn(s, w))
  {
    assert Inside(0);
    var u, rpc := Turn(s, w), Runs.RequestCall(s.names[w]);
    Runs.StepInv(files, nReduce, s.coord, rpc);
    HandedLoop(s, w, t, i, worker);
    WorkersAfter(s.coord, rpc);
    KnownKept(s, u, w);
    HandedTended(s, u, w, t, i, worker);
    HandedEnough(s, u, w, t, i, worker);
  }

  lemma HandedTended(s: System, u: System, w: nat, t: TaskType, i: nat, worker: Worker)
    requires Tended(s) && OnlyWorker(s, u, w) && s.loops[w] == Asking
    requires Runs.HandsOut(s.coord, Runs.RequestCall(s.names[w]), u.coord, t, i, worker)
    requires worker.workerId == s.names[w]
    requires Has(u.loops[w], t, i) && PendingAt(u.coord, t, i, s.names[w])
    ensures Tended(u)
  {
    HandedOwners(s, u, w, t, i, worker);
    HandedHands(s, u, w, t, i, worker);
    HandedApart(s, u, w, t, i);
  }

  lemma HandedLoop(s: System, w: nat, t: TaskType, i: nat, worker: Worker)
    requires IsWorker(s, w) && s.loops[w] == Asking
    requires Runs.HandsOut(s.coord, Runs.RequestCall(s.names[w]), Request(s.coord, s.names[w]).0, t, i, worker)
    ensures worker.workerId == s.names[w] && Turn(s, w).loops == s.loops[w := Holding(Request(s.coord, s.names[w]).1)]
    ensures Has(Turn(s, w).loops[w], t, i) && PendingAt(Turn(s, w).coord, t, i, s.names[w])
  {
    assert Request(s.coord, s.names[w]).1.phase == s.coord.phase;
  }

  lemma HandedOwners(s: System, u: System, w: nat, t: TaskType, i: nat, worker: Worker)
    requires OwnersWork(s) && OnlyWorker(s, u, w) && s.loops[w] == Asking
    requires Runs.HandsOut(s.coord, Runs.RequestCall(s.names[w]), u.coord, t, i, worker)
    requires worker.workerId == s.names[w]
    requires Has(u.loops[w], t, i)
    ensures OwnersWork(u)
  {
    forall t': TaskType, j: nat, name: string | PendingAt(u.coord, t', j, name)
      ensures exists v: nat :: Carries(u, v, name, t', j)
    {
      if t' == t && j == i {
        assert Carries(u, w, name, t, i);
      } else {
        assert PendingAt(s.coord, t', j, name);
        var v: nat :| Carries(s, v, name, t', j);
        assert Carries(u, v, name, t', j);
      }
    }
  }

  lemma HandedHands(s: System, u: System, w: nat, t: TaskType, i: nat, worker: Worker)
    requires HandsOk(s) && OnlyWorker(s, u, w)
    requires Runs.HandsOut(s.coord, Runs.RequestCall(s.names[w]), u.coord, t, i, worker)
    requires Has(u.loops[w], t, i) && PendingAt(u.coord, t, i, s.names[w])
    ensures HandsOk(u)
  {
    forall v: nat | IsWorker(u, v) ensures HandOk(u.coord, u.names[v], u.loops[v]) {
      if v != w {
        assert HandOk(s.coord, s.names[v], s.loops[v]);
        HandKept(s.coord, u.coord, s.names[v], u.loops[v], t, i);
      }
    }
  }

  /** A task in hand is pending. */
  lemma HandedPending(s: State, name: string, loop: Loop, t: TaskType, i: nat)
    requires HandOk(s, name, loop) && Has(loop, t, i)
    ensures PendingAt(s, t, i, name)
  {
    var k: nat :| Has(loop, loop.reply.taskType, k) && PendingAt(s, loop.reply.taskType, k, name);
    TaskNameInjective(k, i);
  }

  /** A task that was waiting was with nobody. */
  lemma HandedApart(s: System, u: System, w: nat, t: TaskType, i: nat)
    requires HandsOk(s) && Apart(s) && OnlyWorker(s, u, w)
    requires i < |TasksOf(s.coord, t)| && TasksOf(s.coord, t)[i].status == Waiting
    requires Has(u.loops[w], t, i)
    ensures Apart(u)
  {
    forall v: nat | IsWorker(s, v) ensures !Has(s.loops[v], t, i) {
      if Has(s.loops[v], t, i) {
        assert HandOk(s.coord, s.names[v], s.loops[v]);
        HandedPending(s.coord, s.names[v], s.loops[v], t, i);
      }
    }
    forall a: nat, b: nat | IsWorker(u, a) && IsWorker(u, b) && SameTask(u.loops[a], u.loops[b]) ensures a == b {
      if a == w || b == w {
        assert Has(u.loops[a], t, i) && Has(u.loops[b], t, i);
      } else {
        assert SameTask(s.loops[a], s.loops[b]);
      }
    }
  }

  lemma HandedEnough(s: System, u: System, w: nat, t: TaskType, i: nat, worker: Worker)
    requires Enough(s) && OnlyWorker(s, u, w) && u.loops[w].Holding?
    requires Runs.HandsOut(s.coord, Runs.RequestCall(s.names[w]), u.coord, t, i, worker)
    ensures Enough(u)
  {
    if u.coord.phase == MapPhase && SomeWaiting(u.coord.mapTasks) {
      var k :| 0 <= k < |u.coord.mapTasks| && u.coord.mapTasks[k].status == Waiting;
      assert s.coord.mapTasks[k].status == Waiting;
    }
    assert IsWorker(u, w);
  }

  /** A pending task other than task `i` stays pending if only task `i` changes and no task starts waiting. */
  lemma HandKept(s: State, u: State, name: string, loop: Loop, t: TaskType, i: nat)
    requires HandOk(s, name, loop) && (s.phase != MapPhase ==> u.phase != MapPhase)
    requires forall t', j: nat :: (t' != t || j != i) && PendingAt(s, t', j, name) ==> PendingAt(u, t', j, name)
    requires PendingAt(s, t, i, name) && Has(loop, t, i) ==> PendingAt(u, t, i, name)
    ensures HandOk(u, name, loop)
  {
    if (loop.Holding? || loop.Reporting?) && loop.reply.available {
      var k: nat :| Has(loop, loop.reply.taskType, k) && PendingAt(s, loop.reply.taskType, k, name);
      assert PendingAt(u, loop.reply.taskType, k, name);
    }
  }

  lemma HoldingGood(files: seq<string>, nReduce: int, s: System, w: nat)
    requires Good(files, nReduce, s) && IsWorker(s, w) && s.loops[w].Holding?
    ensures Good(files, nReduce, Turn(s, w))
  {
    assert Inside(0);
    assert HandOk(s.coord, s.names[w], s.loops[w]);
    var u := Turn(s, w);
    assert forall t, i: nat :: Has(s.loops[w], t, i) <==> Has(u.loops[w], t, i);
    SameTasks(s, u, w);
    if s.coord.phase == ReducePhase {
      assert IsWorker(u, w) && u.loops[w] != Quit;
    }
  }

  /** A report without a task is refused. */
  lemma VainReportGood(files: seq<string>, nReduce: int, s: System, w: nat)
    requires Good(files, nReduce, s) && IsWorker(s, w) && s.loops[w].Reporting? && !s.loops[w].reply.available
    ensures Turn(s, w) == s.(loops := s.loops[w := Asking])
    ensures Good(files, nReduce, Turn(s, w))
  {
    assert Inside(0);
    assert HandOk(s.coord, s.names[w], s.loops[w]);
    var u := Turn(s, w);
    SameTasks(s, u, w);
    assert IsWorker(u, w) && u.loops[w] != Quit;
  }

  lemma Received(files: seq<string>, nReduce: int, s: State, name: string, t: TaskType, i: nat)
    requires Runs.Inv(files, nReduce, s) && PendingAt(s, t, i, name) && name != ""
    ensures Update(s, UpdateArgs(name, TaskName(i), t)).1 == UpdateReply(Done, RECEIVED, s.phase)
    ensures FindTask(TasksOf(s, t), TaskName(i)) == i
  {
    TaskNameInjective(i, i);
    Runs.FoundTask(TasksOf(s, t), i);
  }

  lemma Accepted(files: seq<string>, nReduce: int, s: State, name: string, t: TaskType, i: nat)
    requires Runs.Inv(files, nReduce, s) && PendingAt(s, t, i, name) && name != ""
    ensures var rpc := Runs.UpdateCall(UpdateArgs(name, TaskName(i), t));
            Runs.EffectOf(s, rpc) == Runs.Finishes(t, i) && Runs.Completed(s, rpc, Runs.Step(s, rpc), t, i)
    ensures Update(s, UpdateArgs(name, TaskName(i), t)).1.phase == s.phase != FinishedPhase
  {
    Received(files, nReduce, s, name, t, i);
    Runs.UpdateEffect(files, nReduce, s, UpdateArgs(name, TaskName(i), t));
  }

  /** A report of a task is accepted. */
  lemma ReportAccepted(files: seq<string>, nReduce: int, s: System, w: nat) returns (i: nat)
    requires Good(files, nReduce, s) && IsWorker(s, w) && s.loops[w].Reporting? && s.loops[w].reply.available
    ensures var t := s.loops[w].reply.taskType;
            && Has(s.loops[w], t, i) && PendingAt(s.coord, t, i, s.names[w])
            && Runs.Completed(s.coord, Runs.UpdateCall(UpdateArgs(s.names[w], TaskName(i), t)), Turn(s, w).coord, t, i)
            && Runs.EffectOf(s.coord, Runs.UpdateCall(UpdateArgs(s.names[w], TaskName(i), t))) == Runs.Finishes(t, i)
    ensures Turn(s, w).loops == s.loops[w := Asking]
  {
    assert Runs.Inv(files, nReduce, s.coord) by {
      assert Inside(0);
    }
    assert HandOk(s.coord, s.names[w], s.loops[w]) && s.names[w] != "" by {
      assert Inside(0);
    }
    var t := s.loops[w].reply.taskType;
    i :| Has(s.loops[w], t, i) && PendingAt(s.coord, t, i, s.names[w]);
    Accepted(files, nReduce, s.coord, s.names[w], t, i);
  }

  lemma ReportGood(files: seq<string>, nReduce: int, s: System, w: nat)
    requires Good(files, nReduce, s) && IsWorker(s, w) && s.loops[w].Reporting? && s.loops[w].reply.available
    ensures Good(files, nReduce, Turn(s, w))
  {
    assert Inside(0);
    var u, t := Turn(s, w), s.loops[w].reply.taskType;
    var i := ReportAccepted(files, nReduce, s, w);
    var rpc := Runs.UpdateCall(UpdateArgs(s.names[w], TaskName(i), t));
    Runs.StepInv(files, nReduce, s.coord, rpc);
    WorkersAfter(s.coord, rpc);
    KnownKept(s, u, w);
    ReportedRest(s, u, w, rpc, t, i);
  }

  lemma ReportedRest(s: System, u: System, w: nat, rpc: Runs.Rpc, t: TaskType, i: nat)
    requires Tended(s) && Enough(s) && OnlyWorker(s, u, w) && Has(s.loops[w], t, i) && u.loops[w] == Asking
    requires Runs.Completed(s.coord, rpc, u.coord, t, i) && (s.coord.phase == MapPhase ==> s.coord.reduceTasks == [])
    ensures Tended(u) && Enough(u)
  {
    CompletedTasks(s.coord, rpc, u.coord, t, i);
    ReportedHands(s, u, w, t, i);
    assert IsWorker(u, w) && u.loops[w] != Quit;
  }

  lemma ReportedHands(s: System, u: System, w: nat, t: TaskType, i: nat)
    requires Tended(s) && OnlyWorker(s, u, w) && Has(s.loops[w], t, i) && u.loops[w] == Asking
    requires forall t': TaskType, j: nat, name :: PendingAt(u.coord, t', j, name) ==>
             PendingAt(s.coord, t', j, name) && (t' != t || j != i)
    requires forall t': TaskType, j: nat, name :: PendingAt(s.coord, t', j, name) && (t' != t || j != i) ==>
             PendingAt(u.coord, t', j, name)
    requires s.coord.phase != MapPhase ==> u.coord.phase != MapPhase
    ensures Tended(u)
  {
    ReportedOwners(s, u, w, t, i);
    forall v: nat | IsWorker(u, v) ensures HandOk(u.coord, u.names[v], u.loops[v]) {
      if v != w {
        assert HandOk(s.coord, s.names[v], s.loops[v]);
        assert !Has(s.loops[v], t, i) by {
          if Has(s.loops[v], t, i) {
            assert SameTask(s.loops[v], s.loops[w]);
          }
        }
        HandKept(s.coord, u.coord, s.names[v], u.loops[v], t, i);
      }
    }
    SameApart(s, u, w);
  }

  lemma ReportedOwners(s: System, u: System, w: nat, t: TaskType, i: nat)
    requires OwnersWork(s) && OnlyWorker(s, u, w) && Has(s.loops[w], t, i)
    requires forall t': TaskType, j: nat, name :: PendingAt(u.coord, t', j, name) ==>
             PendingAt(s.coord, t', j, name) && (t' != t || j != i)
    ensures OwnersWork(u)
  {
    forall t': TaskType, j: nat, name: string | PendingAt(u.coord, t', j, name)
      ensures exists v: nat :: Carries(u, v, name, t', j)
    {
      assert PendingAt(s.coord, t', j, name);
      var v: nat :| Carries(s, v, name, t', j);
      TaskNameInjective(i, j);
      assert Carries(u, v, name, t', j);
    }
  }

  lemma CompletedTasks(s: State, rpc: Runs.Rpc, u: State, t: TaskType, i: nat)
    requires Runs.Completed(s, rpc, u, t, i) && (s.phase == MapPhase ==> s.reduceTasks == [])
    ensures forall t': TaskType, j: nat, v :: PendingAt(u, t', j, v) ==> PendingAt(s, t', j, v) && (t' != t || j != i)
    ensures forall t': TaskType, j: nat, v :: PendingAt(s, t', j, v) && (t' != t || j != i) ==> PendingAt(u, t', j, v)
    ensures s.phase != MapPhase ==> u.phase != MapPhase
    ensures u.phase == MapPhase && SomeWaiting(u.mapTasks) ==> s.phase == MapPhase && SomeWaiting(s.mapTasks)
  {
  }

  lemma TurnGood(files: seq<string>, nReduce: int, s: System, w: nat)
    requires Good(files, nReduce, s) && IsWorker(s, w)
    ensures Good(files, nReduce, Turn(s, w))
  {
    assert Runs.Inv(files, nReduce, s.coord) by {
      assert Inside(0);
    }
    match s.loops[w]
    case New => NewGood(files, nReduce, s, w);
    case Asking =>
      Runs.RequestEffect(files, nReduce, s.coord, s.names[w]);
      match Runs.EffectOfRequest(s.coord, s.names[w]) {
        case Hands(t, i, worker) => HandedGood(files, nReduce, s, w, t, i, worker);
        case _ => VainGood(files, nReduce, s, w);
      }
    case Holding(_) => HoldingGood(files, nReduce, s, w);
    case Reporting(reply) =>
      if reply.available {
        ReportGood(files, nReduce, s, w);
      } else {
        VainReportGood(files, nReduce, s, w);
      }
    case Quit =>
  }

  lemma {:induction false} PlayGood(files: seq<string>, nReduce: int, s: System, schedule: seq<nat>)
    requires Good(files, nReduce, s) && Scheduled(s, schedule)
    ensures Good(files, nReduce, Play(s, schedule))
    decreases |schedule|
  {
    if schedule != [] {
      TurnGood(files, nReduce, s, schedule[0]);
      PlayGood(files, nReduce, Turn(s, schedule[0]), schedule[1..]);
    }
  }

  // ---------------------------------------------------------------- progress

  predicate TurnCounts(s: System, w: nat)
    requires IsWorker(s, w)
  {
    CallOf(s, w) != [] && Effective(s.coord, CallOf(s, w)[0])
  }

  /** A turn lowers the remaining work by one, or changes no task and no phase. */
  lemma TurnProgress(files: seq<string>, nReduce: int, s: System, w: nat)
    requires Good(files, nReduce, s) && IsWorker(s, w)
    ensures Remaining(Turn(s, w).coord) + (if TurnCounts(s, w) then 1 else 0) == Remaining(s.coord)
    ensures !TurnCounts(s, w) ==> Runs.Idle(s.coord, Turn(s, w).coord)
  {
    assert Runs.Inv(files, nReduce, s.coord) by {
      assert Inside(0);
    }
    var call := CallOf(s, w);
    if call != [] {
      assert Turn(s, w).coord == Runs.Step(s.coord, call[0]);
      StepProgress(files, nReduce, s.coord, call[0]);
      Runs.StepEffect(files, nReduce, s.coord, call[0]);
    }
  }

  lemma {:induction false} PlayProgress(files: seq<string>, nReduce: int, s: System, schedule: seq<nat>)
    requires Good(files, nReduce, s) && Scheduled(s, schedule)
    ensures Remaining(Play(s, schedule).coord) <= Remaining(s.coord)
    decreases |schedule|
  {
    if schedule != [] {
      TurnGood(files, nReduce, s, schedule[0]);
      TurnProgress(files, nReduce, s, schedule[0]);
      PlayProgress(files, nReduce, Turn(s, schedule[0]), schedule[1..]);
    }
  }

  /** How many turns of its own a worker is away from an effective call. */
  function Distance(loop: Loop): nat {
    match loop
    case New => 2
    case Asking => 1
    case Holding(reply) => if reply.available then 2 else 3
    case Reporting(reply) => if reply.available then 1 else 2
    case Quit => 0
  }

  /** A worker that will make progress by itself: it has a task, or it will ask while a task waits. */
  ghost predicate Useful(s: System, w: nat) {
    && IsWorker(s, w) && s.loops[w] != Quit
    && (((s.loops[w].Holding? || s.loops[w].Reporting?) && s.loops[w].reply.available) || SomeWaiting(Current(s.coord)))
  }

  /** With nothing waiting, an unfinished job has a task in some hand. */
  lemma SomebodyHas(files: seq<string>, nReduce: int, s: System) returns (w: nat)
    requires Good(files, nReduce, s) && files != [] && nReduce >= 1 && s.coord.phase != FinishedPhase
    requires !SomeWaiting(Current(s.coord))
    ensures IsWorker(s, w) && (s.loops[w].Holding? || s.loops[w].Reporting?) && s.loops[w].reply.available
  {
    assert Inside(0);
    assert !AllDone(Current(s.coord));
    var i: nat :| i < |Current(s.coord)| && Current(s.coord)[i].status != Done;
    assert Runs.JobOk(Current(s.coord)[i]);
    var t := if s.coord.phase == MapPhase then MapTask else ReduceTask;
    var name := Current(s.coord)[i].worker.workerId;
    assert PendingAt(s.coord, t, i, name);
    w :| Carries(s, w, name, t, i);
  }

  /** In every state that is not finished somebody is useful. */
  lemma SomebodyUseful(files: seq<string>, nReduce: int, s: System) returns (w: nat)
    requires Good(files, nReduce, s) && files != [] && nReduce >= 1 && s.loops != [] && s.coord.phase != FinishedPhase
    ensures Useful(s, w)
  {
    assert Inside(0);
    if SomeWaiting(Current(s.coord)) {
      if s.coord.phase == MapPhase {
        w := 0;
        assert IsWorker(s, w);
      } else {
        w :| IsWorker(s, w) && s.loops[w] != Quit;
      }
    } else {
      w := SomebodyHas(files, nReduce, s);
    }
  }

  /** Its own turn is effective, or brings it closer. */
  lemma UsefulTurn(files: seq<string>, nReduce: int, s: System, w: nat)
    requires Good(files, nReduce, s) && Useful(s, w)
    ensures TurnCounts(s, w) || (Useful(Turn(s, w), w) && Distance(Turn(s, w).loops[w]) + 1 == Distance(s.loops[w]))
  {
    match s.loops[w]
    case New =>
    case Asking =>
      if !TurnCounts(s, w) {
        AskedInVain(files, nReduce, s, w);
      }
    case Holding(_) =>
    case Reporting(reply) =>
      if reply.available {
        var i := ReportAccepted(files, nReduce, s, w);
      } else {
        VainReportGood(files, nReduce, s, w);
      }
  }

  /** The turn of another worker is effective, or takes nothing away. */
  lemma OtherTurn(files: seq<string>, nReduce: int, s: System, w: nat, v: nat)
    requires Good(files, nReduce, s) && Useful(s, w) && IsWorker(s, v) && v != w
    ensures TurnCounts(s, v) || (Useful(Turn(s, v), w) && Turn(s, v).loops[w] == s.loops[w])
  {
    TurnProgress(files, nReduce, s, v);
    SameLoop(s, w, v);
  }

  lemma SameLoop(s: System, w: nat, v: nat)
    requires IsWorker(s, w) && IsWorker(s, v) && v != w
    ensures Turn(s, v).loops[w] == s.loops[w]
  {
  }

  function Turns(schedule: seq<nat>, w: nat): nat {
    if schedule == [] then 0 else (if schedule[0] == w then 1 else 0) + Turns(schedule[1..], w)
  }

  /** Whatever the others do, enough turns of a useful worker make progress. */
  lemma {:induction false} UsefulPlay(files: seq<string>, nReduce: int, s: System, w: nat, schedule: seq<nat>)
    requires Good(files, nReduce, s) && Useful(s, w) && Scheduled(s, schedule)
    requires Turns(schedule, w) >= Distance(s.loops[w]) > 0
    ensures Remaining(Play(s, schedule).coord) < Remaining(s.coord)
    decreases |schedule|
  {
    var v, rest := schedule[0], schedule[1..];
    var u := Turn(s, v);
    TurnGood(files, nReduce, s, v);
    TurnProgress(files, nReduce, s, v);
    if TurnCounts(s, v) {
      PlayProgress(files, nReduce, u, rest);
    } else {
      if v == w {
        UsefulTurn(files, nReduce, s, w);
      } else {
        OtherTurn(files, nReduce, s, w, v);
      }
      UsefulPlay(files, nReduce, u, w, rest);
    }
  }

  // ---------------------------------------------------------------- every fair run finishes

  /** Each of `n` workers gets three turns; workers that have quit do nothing with theirs. */
  predicate IsRound(n: nat, round: seq<nat>) {
    && (forall k :: 0 <= k < |round| ==> round[k] < n)
    && (forall w: nat :: w < n ==> Turns(round, w) >= 3)
  }

  function PlayRounds(s: System, rounds: seq<seq<nat>>): (r: System)
    requires |s.loops| == |s.names| && forall k :: 0 <= k < |rounds| ==> IsRound(|s.loops|, rounds[k])
    ensures |r.loops| == |s.loops| && r.names == s.names
    decreases |rounds|
  {
    if rounds == [] then s
    else
      assert IsRound(|s.loops|, rounds[0]);
      PlayRounds(Play(s, rounds[0]), rounds[1..])
  }

  lemma RoundProgress(files: seq<string>, nReduce: int, s: System, round: seq<nat>)
    requires Good(files, nReduce, s) && files != [] && nReduce >= 1 && s.loops != []
    requires IsRound(|s.loops|, round) && s.coord.phase != FinishedPhase
    ensures Scheduled(s, round) && Remaining(Play(s, round).coord) < Remaining(s.coord)
  {
    var w := SomebodyUseful(files, nReduce, s);
    UsefulPlay(files, nReduce, s, w, round);
  }

  lemma {:induction false} RoundsFinish(files: seq<string>, nReduce: int, s: System, rounds: seq<seq<nat>>)
    requires Good(files, nReduce, s) && files != [] && nReduce >= 1 && s.loops != []
    requires forall k :: 0 <= k < |rounds| ==> IsRound(|s.loops|, rounds[k])
    requires |rounds| >= Remaining(s.coord)
    ensures PlayRounds(s, rounds).coord.phase == FinishedPhase
    ensures Good(files, nReduce, PlayRounds(s, rounds))
    decreases |rounds|
  {
    FinishedIff(files, nReduce, s);
    if rounds != [] {
      assert IsRound(|s.loops|, rounds[0]);
      var u := Play(s, rounds[0]);
      PlayGood(files, nReduce, s, rounds[0]);
      PlayProgress(files, nReduce, s, rounds[0]);
      if s.coord.phase != FinishedPhase {
        RoundProgress(files, nReduce, s, rounds[0]);
      }
      RoundsFinish(files, nReduce, u, rounds[1..]);
    }
  }

  lemma AllRemains(files: seq<string>, nReduce: int)
    requires nReduce >= 0
    ensures Remaining(Start(files, nReduce)) == 2 * (|files| + nReduce)
  {
    RunProgress(files, nReduce, []);
  }

  /** With any workers, none of which crashes, twice as many rounds as there are tasks finish the job,
      whatever the interleaving within a round. */
  lemma WorkersFinish(files: seq<string>, nReduce: int, started: seq<nat>, rounds: seq<seq<nat>>)
    requires files != [] && nReduce >= 1 && started != []
    requires forall k :: 0 <= k < |rounds| ==> IsRound(|started|, rounds[k])
    requires |rounds| >= 2 * (|files| + nReduce)
    ensures PlayRounds(Begin(files, nReduce, started), rounds).coord.phase == FinishedPhase
  {
    BeginGood(files, nReduce, started);
    AllRemains(files, nReduce);
    RoundsFinish(files, nReduce, Begin(files, nReduce, started), rounds);
  }

  // ---------------------------------------------------------------- one worker by itself

  /** All other workers are still to come, and this one wastes no turn. */
  ghost predicate Lone(s: System, w: nat) {
    && IsWorker(s, w)
    && (forall v: nat :: IsWorker(s, v) && v != w ==> s.loops[v] == New)
    && (s.loops[w].Holding? || s.loops[w].Reporting? ==> s.loops[w].reply.available)
    && (s.loops[w] == Quit ==> s.coord.phase == FinishedPhase)
  }

  /** While there is work, it is this worker's. */
  lemma LoneUseful(files: seq<string>, nReduce: int, s: System, w: nat)
    requires Good(files, nReduce, s) && files != [] && nReduce >= 1 && s.coord.phase != FinishedPhase && Lone(s, w)
    ensures Useful(s, w)
  {
    if !SomeWaiting(Current(s.coord)) {
      var v := SomebodyHas(files, nReduce, s);
    }
  }

  lemma LoneTurn(files: seq<string>, nReduce: int, s: System, w: nat)
    requires Good(files, nReduce, s) && files != [] && nReduce >= 1 && Lone(s, w)
    ensures Lone(Turn(s, w), w)
  {
    assert Runs.Inv(files, nReduce, s.coord) by {
      assert Inside(0);
    }
    if s.coord.phase != FinishedPhase {
      LoneUseful(files, nReduce, s, w);
    }
    match s.loops[w]
    case Asking =>
      Runs.RequestEffect(files, nReduce, s.coord, s.names[w]);
      if Runs.EffectOfRequest(s.coord, s.names[w]) == Runs.Nothing {
        AskedInVain(files, nReduce, s, w);
      }
    case Reporting(_) =>
      var i := ReportAccepted(files, nReduce, s, w);
    case _ =>
  }

  /** One effective call more, by this worker alone. */
  lemma {:induction false} LoneAdvance(files: seq<string>, nReduce: int, s: System, w: nat) returns (schedule: seq<nat>)
    requires Good(files, nReduce, s) && files != [] && nReduce >= 1 && s.coord.phase != FinishedPhase && Lone(s, w)
    ensures Scheduled(s, schedule) && Lone(Play(s, schedule), w)
    ensures Good(files, nReduce, Play(s, schedule))
    ensures Remaining(Play(s, schedule).coord) + 1 == Remaining(s.coord)
    decreases Distance(s.loops[w])
  {
    var u := Turn(s, w);
    LoneUseful(files, nReduce, s, w);
    TurnGood(files, nReduce, s, w);
    TurnProgress(files, nReduce, s, w);
    LoneTurn(files, nReduce, s, w);
    UsefulTurn(files, nReduce, s, w);
    if TurnCounts(s, w) {
      schedule := [w];
      assert Play(s, schedule) == Play(u, []);
    } else {
      var rest := LoneAdvance(files, nReduce, u, w);
      schedule := [w] + rest;
      assert schedule[1..] == rest;
    }
  }

  /** One worker can bring the remaining work to any smaller number. */
  lemma {:induction false} LoneReaches(files: seq<string>, nReduce: int, s: System, w: nat, target: nat)
    returns (schedule: seq<nat>)
    requires Good(files, nReduce, s) && files != [] && nReduce >= 1 && Lone(s, w) && target <= Remaining(s.coord)
    ensures Scheduled(s, schedule) && Lone(Play(s, schedule), w)
    ensures Good(files, nReduce, Play(s, schedule)) && Remaining(Play(s, schedule).coord) == target
    decreases Remaining(s.coord)
  {
    schedule := [];
    if target < Remaining(s.coord) {
      FinishedIff(files, nReduce, s);
      var first := LoneAdvance(files, nReduce, s, w);
      var rest := LoneReaches(files, nReduce, Play(s, first), w, target);
      schedule := first + rest;
      PlayMore(s, first, rest);
    }
  }

  // ---------------------------------------------------------------- when workers quit

  /** A worker that asks quits exactly when the job is finished, or when the map phase has no task to give. */
  lemma QuitsWhen(files: seq<string>, nReduce: int, s: System, w: nat)
    requires Good(files, nReduce, s) && IsWorker(s, w) && s.loops[w] == Asking
    ensures Turn(s, w).loops[w] == Quit <==>
            s.coord.phase == FinishedPhase || (s.coord.phase == MapPhase && !SomeWaiting(s.coord.mapTasks))
  {
    assert Runs.Inv(files, nReduce, s.coord) by {
      assert Inside(0);
    }
    Runs.RequestEffect(files, nReduce, s.coord, s.names[w]);
    if Runs.EffectOfRequest(s.coord, s.names[w]) == Runs.Nothing {
      AskedInVain(files, nReduce, s, w);
    }
  }

  /** A worker that reports quits exactly when its report counts and the job was finished before. */
  lemma ReportQuits(s: System, w: nat)
    requires IsWorker(s, w) && s.loops[w].Reporting?
    ensures var args := UpdateArgs(s.names[w], s.loops[w].reply.taskId, s.loops[w].reply.taskType);
            Turn(s, w).loops[w] ==
            if s.coord.phase == FinishedPhase && args.taskId != "" && args.workerId != "" &&
               exists i: nat :: Owns(s.coord, args, i) && TasksOf(s.coord, args.taskType)[i].status != Done
            then Quit else Asking
  {
    var args := UpdateArgs(s.names[w], s.loops[w].reply.taskId, s.loops[w].reply.taskType);
    UpdateAnswer(s.coord, args);
    forall i: nat, j: nat | Owns(s.coord, args, i) && Owns(s.coord, args, j) ensures i == j {
    }
  }

  /** That never happens: the look at the phase after a report ends no worker's loop. */
  lemma ReportsGoOn(files: seq<string>, nReduce: int, s: System, w: nat)
    requires Good(files, nReduce, s) && IsWorker(s, w) && s.loops[w].Reporting?
    ensures Turn(s, w).loops[w] == Asking
  {
    assert Runs.Inv(files, nReduce, s.coord) by {
      assert Inside(0);
    }
    ReportQuits(s, w);
  }

  /** Once the job is finished every worker quits within three turns of its own. */
  lemma {:induction false} FinishedQuits(files: seq<string>, nReduce: int, s: System, w: nat, schedule: seq<nat>)
    requires Good(files, nReduce, s) && s.coord.phase == FinishedPhase && IsWorker(s, w) && Scheduled(s, schedule)
    requires Turns(schedule, w) >= Distance(s.loops[w])
    ensures Play(s, schedule).loops[w] == Quit
    decreases |schedule|
  {
    if schedule != [] {
      var v := schedule[0];
      TurnGood(files, nReduce, s, v);
      FinishedTurn(files, nReduce, s, v);
      FinishedQuits(files, nReduce, Turn(s, v), w, schedule[1..]);
    }
  }

  lemma FinishedTurn(files: seq<string>, nReduce: int, s: System, v: nat)
    requires Good(files, nReduce, s) && s.coord.phase == FinishedPhase && IsWorker(s, v)
    ensures Turn(s, v).coord.phase == FinishedPhase
    ensures Distance(Turn(s, v).loops[v]) == if s.loops[v] == Quit then 0 else Distance(s.loops[v]) - 1
    ensures forall w: nat :: IsWorker(s, w) && w != v ==> Turn(s, v).loops[w] == s.loops[w]
  {
    assert Runs.Inv(files, nReduce, s.coord) by {
      assert Inside(0);
    }
    assert HandOk(s.coord, s.names[v], s.loops[v]) && s.names[v] != "" by {
      assert Inside(0);
    }
    match s.loops[v]
    case New =>
    case Asking =>
      QuitsWhen(files, nReduce, s, v);
      Runs.RequestEffect(files, nReduce, s.coord, s.names[v]);
    case Holding(_) =>
    case Reporting(reply) =>
      if reply.available {
        var i := ReportAccepted(files, nReduce, s, v);
      } else {
        VainReportGood(files, nReduce, s, v);
      }
    case Quit =>
  }

  /** Somebody has quit and the job is not finished. */
  ghost predicate QuitEarly(s: System) {
    s.coord.phase != FinishedPhase && exists w: nat :: IsWorker(s, w) && s.loops[w] == Quit
  }

  ghost predicate CanQuitEarly(s: System) {
    exists schedule :: Scheduled(s, schedule) && QuitEarly(Play(s, schedule))
  }

  /** The work left when the only task in progress is the last map task. */
  lemma LastMap(files: seq<string>, nReduce: int, s: State)
    requires Runs.Inv(files, nReduce, s) && files != [] && nReduce >= 1 && Remaining(s) == 2 * nReduce + 1
    ensures s.phase == MapPhase && !SomeWaiting(s.mapTasks)
  {
    if s.phase == MapPhase {
      if i :| 0 <= i < |s.mapTasks| && s.mapTasks[i].status == Waiting {
        PointsAtLeast(s.mapTasks, i);
      }
    } else {
      PointsDone(s.mapTasks);
      PointsAtMost(s.reduceTasks);
    }
  }

  lemma {:induction false} PointsAtLeast(tasks: seq<Job>, i: nat)
    requires i < |tasks|
    ensures Points(tasks) >= 2 - Runs.Rank(tasks[i].status)
  {
    if i < |tasks| - 1 {
      PointsAtLeast(tasks[..|tasks| - 1], i);
    }
  }

  lemma {:induction false} PointsAtMost(tasks: seq<Job>)
    ensures Points(tasks) <= 2 * |tasks|
  {
    if tasks != [] {
      PointsAtMost(tasks[..|tasks| - 1]);
    }
  }

  /** Two workers: one brings the map phase to its last task, the other asks and quits. */
  lemma SecondQuits(files: seq<string>, nReduce: int, started: seq<nat>)
    requires files != [] && nReduce >= 1 && |started| >= 2
    ensures CanQuitEarly(Begin(files, nReduce, started))
  {
    var s := Begin(files, nReduce, started);
    BeginGood(files, nReduce, started);
    AllRemains(files, nReduce);
    var first := LoneReaches(files, nReduce, s, 0, 2 * nReduce + 1);
    var s1 := Play(s, first);
    assert Runs.Inv(files, nReduce, s1.coord) by {
      assert Inside(0);
    }
    LastMap(files, nReduce, s1.coord);
    JoinsAndQuits(files, nReduce, s1, 1);
    PlayMore(s, first, [1, 1]);
    assert Scheduled(s, first + [1, 1]);
  }

  /** Whoever joins when the map phase has no task left to give quits at once. */
  lemma JoinsAndQuits(files: seq<string>, nReduce: int, s: System, w: nat)
    requires Good(files, nReduce, s) && IsWorker(s, w) && s.loops[w] == New
    requires s.coord.phase == MapPhase && !SomeWaiting(s.coord.mapTasks)
    ensures Scheduled(s, [w, w]) && QuitEarly(Play(s, [w, w]))
  {
    var u := Turn(s, w);
    TurnGood(files, nReduce, s, w);
    QuitsWhen(files, nReduce, u, w);
    AskedInVain(files, nReduce, u, w);
    assert [w, w][1..] == [w] && [w][1..] == [];
    assert Play(s, [w, w]) == Play(u, [w]) == Turn(u, w);
    assert IsWorker(Turn(u, w), w);
  }

  lemma {:induction false} OnlyOneStays(files: seq<string>, nReduce: int, s: System, schedule: seq<nat>)
    requires Good(files, nReduce, s) && files != [] && nReduce >= 1 && |s.loops| == 1 && Lone(s, 0)
    requires Scheduled(s, schedule)
    ensures Lone(Play(s, schedule), 0)
    decreases |schedule|
  {
    if schedule != [] {
      TurnGood(files, nReduce, s, 0);
      LoneTurn(files, nReduce, s, 0);
      OnlyOneStays(files, nReduce, Turn(s, 0), schedule[1..]);
    }
  }

  /** A worker may quit before the job is finished exactly when it is not the only one. */
  lemma QuitsEarlyWhen(files: seq<string>, nReduce: int, started: seq<nat>)
    requires files != [] && nReduce >= 1
    ensures CanQuitEarly(Begin(files, nReduce, started)) <==> |started| >= 2
  {
    var s := Begin(files, nReduce, started);
    if |started| >= 2 {
      SecondQuits(files, nReduce, started);
    } else if schedule :| Scheduled(s, schedule) && QuitEarly(Play(s, schedule)) {
      BeginGood(files, nReduce, started);
      if |started| == 1 {
        OnlyOneStays(files, nReduce, s, schedule);
      }
      assert false;
    }
  }
}
