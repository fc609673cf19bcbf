/** Whole runs of the coordinator: remote calls arriving in any order. */
module CoordinatorRuns {
  import opened Tasks

  datatype Rpc = RegisterCall(worker: Worker) | RequestCall(workerId: string) | UpdateCall(args: UpdateArgs)

  function Step(s: State, rpc: Rpc): State {
    match rpc
    case RegisterCall(worker) => Register(s, worker)
    case RequestCall(workerId) => Request(s, workerId).0
    case UpdateCall(args) => Update(s, args).0
  }

  /** The state after a sequence of calls. */
  function After(s: State, rpcs: seq<Rpc>): State {
    if rpcs == [] then s else Step(After(s, rpcs[..|rpcs| - 1]), rpcs[|rpcs| - 1])
  }

  // ---------------------------------------------------------------- the invariant

  /** A task is waiting and has no owner, or was handed out; only an owner with a name completes. */
  predicate JobOk(job: Job) {
    && job.status in {Waiting, Pending, Done}
    && (job.status == Waiting ==> job.worker == NO_WORKER)
    && (job.status == Done ==> job.worker.workerId != "")
  }

  predicate MapTasksOk(files: seq<string>, nReduce: int, tasks: seq<Job>) {
    && |tasks| == |files|
    && (forall i :: 0 <= i < |tasks| ==> JobOk(tasks[i]))
    && (forall i :: 0 <= i < |tasks| ==>
          tasks[i].taskId == TaskName(i) && tasks[i].filePath == files[i] && tasks[i].nReduce == nReduce)
  }

  predicate ReduceTasksOk(tasks: seq<Job>) {
    && (forall p :: 0 <= p < |tasks| ==> JobOk(tasks[p]))
    && (forall p :: 0 <= p < |tasks| ==> tasks[p].taskId == TaskName(p) && tasks[p].partition == p)
  }

  predicate PhaseOk(files: seq<string>, s: State) {
    match s.phase
    case NoPhase => false
    case MapPhase => s.reduceTasks == [] && (files != [] ==> !AllDone(s.mapTasks))
    case ReducePhase =>
      && files != [] && AllDone(s.mapTasks)
      && |s.reduceTasks| == Count(s.nReduce) && (s.reduceTasks != [] ==> !AllDone(s.reduceTasks))
    case FinishedPhase =>
      && files != [] && AllDone(s.mapTasks)
      && |s.reduceTasks| == Count(s.nReduce) && s.reduceTasks != [] && AllDone(s.reduceTasks)
  }

  predicate Inv(files: seq<string>, nReduce: int, s: State) {
    && s.nReduce == nReduce
    && MapTasksOk(files, nReduce, s.mapTasks)
    && ReduceTasksOk(s.reduceTasks)
    && PhaseOk(files, s)
  }

  lemma StartInv(files: seq<string>, nReduce: int)
    ensures Inv(files, nReduce, Start(files, nReduce))
  {
    var s := Start(files, nReduce);
    assert files != [] ==> s.mapTasks[0].status == Waiting;
  }

  /** A task id names one task. */
  lemma FoundTask(tasks: seq<Job>, i: nat)
    requires i < |tasks| && forall j :: 0 <= j < |tasks| ==> tasks[j].taskId == TaskName(j)
    ensures FindTask(tasks, TaskName(i)) == i
  {
    var k := FindTask(tasks, TaskName(i));
    assert tasks[i].taskId == TaskName(i);
    TaskNameInjective(i, k);
  }

  lemma AssignedKeeps(tasks: seq<Job>, i: nat, worker: Worker)
    requires i < |tasks| && tasks[i].status == Waiting
    ensures !AllDone(Assigned(tasks, i, worker))
    ensures !AllDone(tasks)
  {
    assert Assigned(tasks, i, worker)[i].status == Pending;
  }

  lemma RequestInv(files: seq<string>, nReduce: int, s: State, workerId: string)
    requires Inv(files, nReduce, s)
    ensures Inv(files, nReduce, Request(s, workerId).0)
  {
    var w := FindWorker(s.workers, workerId);
    if w < |s.workers| {
      if s.phase == MapPhase && FirstWaiting(s.mapTasks) < |s.mapTasks| {
        AssignedKeeps(s.mapTasks, FirstWaiting(s.mapTasks), s.workers[w]);
      } else if s.phase == ReducePhase && FirstWaiting(s.reduceTasks) < |s.reduceTasks| {
        AssignedKeeps(s.reduceTasks, FirstWaiting(s.reduceTasks), s.workers[w]);
      }
    }
  }

  /** What an accepted update does: one task was pending and its owner has a name. */
  lemma AcceptedUpdate(files: seq<string>, nReduce: int, s: State, args: UpdateArgs) returns (i: nat)
    requires Inv(files, nReduce, s) && Update(s, args).1.message == RECEIVED
    ensures args.taskType in {MapTask, ReduceTask}
    ensures i < |TasksOf(s, args.taskType)|
    ensures TasksOf(s, args.taskType)[i].status == Pending && args.workerId != ""
    ensures TasksOf(s, args.taskType)[i].worker.workerId == args.workerId && args.taskId == TaskName(i)
    ensures Update(s, args).0 == Transition(WithDone(s, args.taskType, i), args.taskType)
    ensures s.phase == if args.taskType == MapTask then MapPhase else ReducePhase
  {
    Messages(args.workerId);
    i := FindTask(TasksOf(s, args.taskType), args.taskId);
    assert JobOk(TasksOf(s, args.taskType)[i]);
  }

  /** No other message is the acknowledgement. */
  lemma Messages(workerId: string)
    ensures RECEIVED != "Task not assigned to worker " + workerId
    ensures RECEIVED != "Task already completed" && RECEIVED != "Task not found"
    ensures RECEIVED != "Task ID is required" && RECEIVED != "Worker ID is required"
    ensures RECEIVED != "Provide task type ( MAP | REDUCE )" && RECEIVED != "Task type must be either MAP or REDUCE"
  {
    assert RECEIVED[5] == 'u' && ("Task not assigned to worker " + workerId)[5] == 'n';
    assert "Task already completed"[5] == 'a' && "Task not found"[5] == 'n' && "Task ID is required"[5] == 'I';
    assert "Worker ID is required"[0] == 'W' && RECEIVED[0] == 'T' && "Provide task type ( MAP | REDUCE )"[0] == 'P';
    assert "Task type must be either MAP or REDUCE"[5] == 't';
  }

  lemma RefusedUpdate(s: State, args: UpdateArgs)
    requires Update(s, args).1.message != RECEIVED
    ensures Update(s, args).0 == s
  {
  }

  lemma MapTransitionShape(t: State)
    requires forall j :: 0 <= j < |t.mapTasks| ==> JobOk(t.mapTasks[j])
    requires t.reduceTasks == []
    ensures Transition(t, MapTask) ==
            if AllDone(t.mapTasks) then t.(reduceTasks := NewReduceTasks(t.nReduce), phase := ReducePhase) else t
  {
    assert [] + NewReduceTasks(t.nReduce) == NewReduceTasks(t.nReduce);
    if !AllDone(t.mapTasks) {
      var i :| 0 <= i < |t.mapTasks| && t.mapTasks[i].status != Done;
      assert JobOk(t.mapTasks[i]);
    }
  }

  lemma NewReduceTasksOk(n: int)
    ensures ReduceTasksOk(NewReduceTasks(n))
    ensures NewReduceTasks(n) != [] ==> !AllDone(NewReduceTasks(n))
  {
    var tasks := NewReduceTasks(n);
    assert tasks != [] ==> tasks[0].status == Waiting;
  }

  lemma MapTransition(files: seq<string>, nReduce: int, s: State, i: nat)
    requires Inv(files, nReduce, s) && s.phase == MapPhase
    requires i < |s.mapTasks| && s.mapTasks[i].status == Pending && s.mapTasks[i].worker.workerId != ""
    ensures Inv(files, nReduce, Transition(WithDone(s, MapTask, i), MapTask))
    ensures var t := WithDone(s, MapTask, i);
            Transition(t, MapTask) ==
                if AllDone(t.mapTasks) then t.(reduceTasks := NewReduceTasks(nReduce), phase := ReducePhase) else t
  {
    var t := WithDone(s, MapTask, i);
    assert JobOk(t.mapTasks[i]);
    assert MapTasksOk(files, nReduce, t.mapTasks);
    MapTransitionShape(t);
    NewReduceTasksOk(nReduce);
  }

  lemma ReduceTransition(files: seq<string>, nReduce: int, s: State, i: nat)
    requires Inv(files, nReduce, s) && s.phase == ReducePhase
    requires i < |s.reduceTasks| && s.reduceTasks[i].status == Pending && s.reduceTasks[i].worker.workerId != ""
    ensures Inv(files, nReduce, Transition(WithDone(s, ReduceTask, i), ReduceTask))
  {
    var t := WithDone(s, ReduceTask, i);
    assert forall j :: 0 <= j < |t.reduceTasks| ==> JobOk(t.reduceTasks[j]);
  }

  lemma StepInv(files: seq<string>, nReduce: int, s: State, rpc: Rpc)
    requires Inv(files, nReduce, s)
    ensures Inv(files, nReduce, Step(s, rpc))
  {
    match rpc
    case RegisterCall(_) =>
    case RequestCall(workerId) => RequestInv(files, nReduce, s, workerId);
    case UpdateCall(args) =>
      if Update(s, args).1.message == RECEIVED {
        var i := AcceptedUpdate(files, nReduce, s, args);
        if args.taskType == MapTask {
          MapTransition(files, nReduce, s, i);
        } else {
          ReduceTransition(files, nReduce, s, i);
        }
      } else {
        RefusedUpdate(s, args);
      }
  }

  lemma {:induction false} RunInv(files: seq<string>, nReduce: int, rpcs: seq<Rpc>)
    ensures Inv(files, nReduce, After(Start(files, nReduce), rpcs))
  {
    if rpcs == [] {
      StartInv(files, nReduce);
    } else {
      RunInv(files, nReduce, rpcs[..|rpcs| - 1]);
      StepInv(files, nReduce, After(Start(files, nReduce), rpcs[..|rpcs| - 1]), rpcs[|rpcs| - 1]);
    }
  }

  /** In every reachable state the phase says exactly how far all tasks are. */
  lemma PhaseMeaning(files: seq<string>, nReduce: int, rpcs: seq<Rpc>, s: State)
    requires files != [] && nReduce >= 1 && s == After(Start(files, nReduce), rpcs)
    ensures s.phase == MapPhase <==> !AllDone(s.mapTasks)
    ensures s.phase == ReducePhase <==> AllDone(s.mapTasks) && !AllDone(s.reduceTasks)
    ensures s.phase == FinishedPhase <==> AllDone(s.mapTasks) && AllDone(s.reduceTasks)
    ensures |s.reduceTasks| == if AllDone(s.mapTasks) then nReduce else 0
  {
    RunInv(files, nReduce, rpcs);
  }

  /** No reduce task is handed out before the last map task is done. */
  lemma ReduceAfterMap(files: seq<string>, nReduce: int, rpcs: seq<Rpc>, workerId: string, s: State)
    requires s == After(Start(files, nReduce), rpcs)
    ensures var reply := Request(s, workerId).1;
            reply.available && reply.taskType == ReduceTask ==> AllDone(s.mapTasks)
  {
    RunInv(files, nReduce, rpcs);
  }

  // ---------------------------------------------------------------- what a call can do

  /** A call changes no task, hands one out, or completes one. */
  datatype Effect = Nothing | Hands(t: TaskType, i: nat, worker: Worker) | Finishes(t: TaskType, i: nat)

  predicate Idle(s: State, u: State) {
    u.mapTasks == s.mapTasks && u.reduceTasks == s.reduceTasks && u.phase == s.phase
  }

  function PhaseFor(t: TaskType): Phase {
    if t == MapTask then MapPhase else ReducePhase
  }

  /** A request hands out waiting task `i` of the current phase. */
  predicate HandsOut(s: State, rpc: Rpc, u: State, t: TaskType, i: nat, worker: Worker) {
    && t in {MapTask, ReduceTask} && s.phase == PhaseFor(t) == u.phase
    && i < |TasksOf(s, t)| && TasksOf(s, t)[i].status == Waiting
    && TasksOf(u, t) == Assigned(TasksOf(s, t), i, worker)
    && (if t == MapTask then u.reduceTasks == s.reduceTasks else u.mapTasks == s.mapTasks)
    && worker in s.workers && rpc == RequestCall(worker.workerId)
    && var reply := Request(s, worker.workerId).1;
       reply.available && reply.taskType == t && reply.taskId == TaskName(i)
  }

  /** An update by its owner completes pending task `i` of the current phase. */
  predicate Completed(s: State, rpc: Rpc, u: State, t: TaskType, i: nat) {
    && t in {MapTask, ReduceTask} && s.phase == PhaseFor(t)
    && i < |TasksOf(s, t)| && TasksOf(s, t)[i].status == Pending
    && TasksOf(s, t)[i].worker.workerId != ""
    && rpc == UpdateCall(UpdateArgs(TasksOf(s, t)[i].worker.workerId, TaskName(i), t))
    && TasksOf(u, t) == TasksOf(WithDone(s, t, i), t)
    && (if t == MapTask then u.reduceTasks == if AllDone(u.mapTasks) then NewReduceTasks(s.nReduce) else []
        else u.mapTasks == s.mapTasks)
    && u.phase == if !AllDone(TasksOf(u, t)) then s.phase else if t == MapTask then ReducePhase else FinishedPhase
  }

  predicate HasEffect(s: State, rpc: Rpc, u: State, e: Effect) {
    match e
    case Nothing => Idle(s, u)
    case Hands(t, i, worker) => HandsOut(s, rpc, u, t, i, worker)
    case Finishes(t, i) => Completed(s, rpc, u, t, i)
  }

  function EffectOfRequest(s: State, workerId: string): Effect {
    var w := FindWorker(s.workers, workerId);
    if w == |s.workers| then Nothing
    else if s.phase == MapPhase
        && FirstWaiting(s.mapTasks) < |s.mapTasks| then Hands(MapTask, FirstWaiting(s.mapTasks), s.workers[w])
    else if s.phase == ReducePhase
        && FirstWaiting(s.reduceTasks) < |s.reduceTasks| then Hands(ReduceTask, FirstWaiting(s.reduceTasks),
           s.workers[w])
    else Nothing
  }

  function EffectOf(s: State, rpc: Rpc): Effect {
    match rpc
    case RegisterCall(_) => Nothing
    case RequestCall(workerId) => EffectOfRequest(s, workerId)
    case UpdateCall(args) =>
      if Update(s, args).1.message ==
          RECEIVED then Finishes(args.taskType, FindTask(TasksOf(s, args.taskType), args.taskId)) else Nothing
  }

  lemma RequestEffect(files: seq<string>, nReduce: int, s: State, workerId: string)
    requires Inv(files, nReduce, s)
    ensures HasEffect(s, RequestCall(workerId), Step(s, RequestCall(workerId)), EffectOfRequest(s, workerId))
  {
  }

  lemma UpdateEffect(files: seq<string>, nReduce: int, s: State, args: UpdateArgs)
    requires Inv(files, nReduce, s)
    ensures HasEffect(s, UpdateCall(args), Step(s, UpdateCall(args)), EffectOf(s, UpdateCall(args)))
  {
    if Update(s, args).1.message == RECEIVED {
      var i := AcceptedUpdate(files, nReduce, s, args);
      FoundTask(TasksOf(s, args.taskType), i);
      if args.taskType == MapTask {
        MapTransition(files, nReduce, s, i);
      }
    } else {
      RefusedUpdate(s, args);
    }
  }

  lemma StepEffect(files: seq<string>, nReduce: int, s: State, rpc: Rpc)
    requires Inv(files, nReduce, s)
    ensures HasEffect(s, rpc, Step(s, rpc), EffectOf(s, rpc))
  {
    match rpc
    case RegisterCall(_) =>
    case RequestCall(workerId) => RequestEffect(files, nReduce, s, workerId);
    case UpdateCall(args) => UpdateEffect(files, nReduce, s, args);
  }

  // ---------------------------------------------------------------- tasks only move forward

  function Rank(status: TaskStatus): nat {
    match status
    case Waiting => 0
    case Pending => 1
    case _ => 2
  }

  /** The same task, later: its status did not go back, and once handed out it keeps its owner. */
  predicate Later(a: Job, b: Job) {
    && a.taskId == b.taskId
    && Rank(a.status) <= Rank(b.status)
    && (a.status != Waiting ==> b.worker == a.worker)
  }

  predicate AllLater(a: seq<Job>, b: seq<Job>) {
    |a| <= |b| && forall i :: 0 <= i < |a| ==> Later(a[i], b[i])
  }

  predicate Advances(s: State, t: State) {
    && |s.mapTasks| == |t.mapTasks| && AllLater(s.mapTasks, t.mapTasks)
    && AllLater(s.reduceTasks, t.reduceTasks)
  }

  lemma StepAdvances(files: seq<string>, nReduce: int, s: State, rpc: Rpc)
    requires Inv(files, nReduce, s)
    ensures Advances(s, Step(s, rpc))
  {
    StepEffect(files, nReduce, s, rpc);
    EffectAdvances(s, rpc, Step(s, rpc), EffectOf(s, rpc));
  }

  lemma EffectAdvances(s: State, rpc: Rpc, u: State, e: Effect)
    requires HasEffect(s, rpc, u, e)
    requires s.phase == MapPhase ==> s.reduceTasks == []
    ensures Advances(s, u)
  {
  }

  lemma AdvancesTransitive(s: State, t: State, u: State)
    requires Advances(s, t) && Advances(t, u)
    ensures Advances(s, u)
  {
    forall i | 0 <= i < |s.mapTasks| ensures Later(s.mapTasks[i], u.mapTasks[i]) {
      assert Later(s.mapTasks[i], t.mapTasks[i]) && Later(t.mapTasks[i], u.mapTasks[i]);
    }
    forall i | 0 <= i < |s.reduceTasks| ensures Later(s.reduceTasks[i], u.reduceTasks[i]) {
      assert Later(s.reduceTasks[i], t.reduceTasks[i]) && Later(t.reduceTasks[i], u.reduceTasks[i]);
    }
  }

  /** The state before call number `k` of a run. */
  function At(files: seq<string>, nReduce: int, rpcs: seq<Rpc>, k: nat): State
    requires k <= |rpcs|
  {
    After(Start(files, nReduce), rpcs[..k])
  }

  lemma AtNext(files: seq<string>, nReduce: int, rpcs: seq<Rpc>, k: nat)
    requires k < |rpcs|
    ensures At(files, nReduce, rpcs, k + 1) == Step(At(files, nReduce, rpcs, k), rpcs[k])
    ensures Inv(files, nReduce, At(files, nReduce, rpcs, k))
  {
    assert rpcs[..k + 1][..k] == rpcs[..k];
    RunInv(files, nReduce, rpcs[..k]);
  }

  lemma {:induction false} RunAdvances(files: seq<string>, nReduce: int, rpcs: seq<Rpc>, j: nat, k: nat)
    requires j <= k <= |rpcs|
    ensures Advances(At(files, nReduce, rpcs, j), At(files, nReduce, rpcs, k))
  {
    if j < k {
      RunAdvances(files, nReduce, rpcs, j, k - 1);
      AtNext(files, nReduce, rpcs, k - 1);
      StepAdvances(files, nReduce, At(files, nReduce, rpcs, k - 1), rpcs[k - 1]);
      AdvancesTransitive(At(files, nReduce, rpcs, j), At(files, nReduce, rpcs, k - 1), At(files, nReduce, rpcs, k));
    }
  }

  /** Call `k` hands out task `i` of kind `t` to worker `w`. */
  ghost predicate Grants(files: seq<string>, nReduce: int, rpcs: seq<Rpc>, k: nat, t: TaskType, i: nat, w: string) {
    && k < |rpcs|
    && rpcs[k] == RequestCall(w)
    && var reply := Request(At(files, nReduce, rpcs, k), w).1;
       reply.available && reply.taskType == t && reply.taskId == TaskName(i)
  }

  lemma GrantFacts(files: seq<string>, nReduce: int, rpcs: seq<Rpc>, k: nat, t: TaskType, i: nat, w: string)
    requires Grants(files, nReduce, rpcs, k, t, i, w)
    ensures var s, u := At(files, nReduce, rpcs, k), At(files, nReduce, rpcs, k + 1);
            && i < |TasksOf(s, t)| == |TasksOf(u, t)|
            && TasksOf(s, t)[i].status == Waiting
            && TasksOf(u, t)[i].status == Pending && TasksOf(u, t)[i].worker.workerId == w
  {
    var s := At(files, nReduce, rpcs, k);
    AtNext(files, nReduce, rpcs, k);
    var j := FirstWaiting(TasksOf(s, t));
    TaskNameInjective(i, j);
  }

  lemma JobsOk(files: seq<string>, nReduce: int, rpcs: seq<Rpc>, k: nat, t: TaskType, i: nat)
    requires k <= |rpcs| && i < |TasksOf(At(files, nReduce, rpcs, k), t)|
    ensures JobOk(TasksOf(At(files, nReduce, rpcs, k), t)[i])
  {
    RunInv(files, nReduce, rpcs[..k]);
  }

  /** The owner of a task never changes. */
  lemma OwnerFixed(files: seq<string>, nReduce: int, rpcs: seq<Rpc>, j: nat, k: nat, t: TaskType, i: nat, w: string)
    requires Grants(files, nReduce, rpcs, j, t, i, w) && j < k <= |rpcs|
    ensures i < |TasksOf(At(files, nReduce, rpcs, k), t)|
    ensures TasksOf(At(files, nReduce, rpcs, k), t)[i].worker.workerId == w
    ensures TasksOf(At(files, nReduce, rpcs, k), t)[i].status in {Pending, Done}
  {
    GrantFacts(files, nReduce, rpcs, j, t, i, w);
    RunAdvances(files, nReduce, rpcs, j + 1, k);
    LaterOwner(At(files, nReduce, rpcs, j + 1), At(files, nReduce, rpcs, k), t, i, w);
    JobsOk(files, nReduce, rpcs, k, t, i);
  }

  lemma LaterOwner(u: State, v: State, t: TaskType, i: nat, w: string)
    requires Advances(u, v) && i < |TasksOf(u, t)|
    requires TasksOf(u, t)[i].status == Pending && TasksOf(u, t)[i].worker.workerId == w
    ensures i < |TasksOf(v, t)| && TasksOf(v, t)[i].worker.workerId == w && Rank(TasksOf(v, t)[i].status) >= 1
  {
    assert Later(TasksOf(u, t)[i], TasksOf(v, t)[i]);
  }

  lemma NotGrantedAgain(files: seq<string>, nReduce: int, rpcs: seq<Rpc>, j: nat, k: nat, t: TaskType, i: nat,
        v: string, w: string)
    requires Grants(files, nReduce, rpcs, j, t, i, v) && j < k
    ensures !Grants(files, nReduce, rpcs, k, t, i, w)
  {
    if Grants(files, nReduce, rpcs, k, t, i, w) {
      OwnerFixed(files, nReduce, rpcs, j, k, t, i, v);
      GrantFacts(files, nReduce, rpcs, k, t, i, w);
    }
  }

  /** Over a whole run no task is handed out twice. */
  lemma GrantedOnce(files: seq<string>, nReduce: int, rpcs: seq<Rpc>, j: nat, k: nat, t: TaskType, i: nat, v: string,
        w: string)
    requires Grants(files, nReduce, rpcs, j, t, i, v) && Grants(files, nReduce, rpcs, k, t, i, w)
    ensures j == k && v == w
  {
    if j < k {
      NotGrantedAgain(files, nReduce, rpcs, j, k, t, i, v, w);
    } else if k < j {
      NotGrantedAgain(files, nReduce, rpcs, k, j, t, i, w, v);
    }
  }

  /** Call `k` completes task `i` of kind `t`. */
  ghost predicate Completes(files: seq<string>, nReduce: int, rpcs: seq<Rpc>, k: nat, t: TaskType, i: nat) {
    && k < |rpcs| && t in {MapTask, ReduceTask}
    && i < |TasksOf(At(files, nReduce, rpcs, k), t)|
    && TasksOf(At(files, nReduce, rpcs, k), t)[i].status != Done
    && (i < |TasksOf(At(files, nReduce, rpcs, k + 1), t)| ==>
          TasksOf(At(files, nReduce, rpcs, k + 1), t)[i].status == Done)
  }

  /** A task that is not waiting was handed out to its owner before. */
  lemma {:induction false} WasGranted(files: seq<string>, nReduce: int, rpcs: seq<Rpc>, k: nat, t: TaskType, i: nat)
    returns (j: nat)
    requires k <= |rpcs| && t in {MapTask, ReduceTask}
    requires i < |TasksOf(At(files, nReduce, rpcs, k), t)|
             && TasksOf(At(files, nReduce, rpcs, k), t)[i].status != Waiting
    ensures j < k && Grants(files, nReduce, rpcs, j, t, i, TasksOf(At(files, nReduce, rpcs, k), t)[i].worker.workerId)
  {
    if k > 0 {
      var s := At(files, nReduce, rpcs, k - 1);
      if i < |TasksOf(s, t)| && TasksOf(s, t)[i].status != Waiting {
        OwnerKept(files, nReduce, rpcs, k, t, i);
        j := WasGranted(files, nReduce, rpcs, k - 1, t, i);
      } else {
        j := k - 1;
        JustGranted(files, nReduce, rpcs, k, t, i);
      }
    }
  }

  lemma OwnerKept(files: seq<string>, nReduce: int, rpcs: seq<Rpc>, k: nat, t: TaskType, i: nat)
    requires 0 < k <= |rpcs| && i < |TasksOf(At(files, nReduce, rpcs, k - 1), t)|
    requires TasksOf(At(files, nReduce, rpcs, k - 1), t)[i].status != Waiting
    ensures i < |TasksOf(At(files, nReduce, rpcs, k), t)|
    ensures TasksOf(At(files, nReduce, rpcs, k), t)[i].worker == TasksOf(At(files, nReduce, rpcs, k - 1), t)[i].worker
  {
    AtNext(files, nReduce, rpcs, k - 1);
    var s, u := At(files, nReduce, rpcs, k - 1), At(files, nReduce, rpcs, k);
    StepAdvances(files, nReduce, s, rpcs[k - 1]);
    assert Later(TasksOf(s, t)[i], TasksOf(u, t)[i]);
  }

  lemma JustGranted(files: seq<string>, nReduce: int, rpcs: seq<Rpc>, k: nat, t: TaskType, i: nat)
    requires 0 < k <= |rpcs| && t in {MapTask, ReduceTask}
    requires i < |TasksOf(At(files, nReduce, rpcs, k), t)|
             && TasksOf(At(files, nReduce, rpcs, k), t)[i].status != Waiting
    requires i >= |TasksOf(At(files, nReduce, rpcs, k - 1), t)|
             || TasksOf(At(files, nReduce, rpcs, k - 1), t)[i].status == Waiting
    ensures Grants(files, nReduce, rpcs, k - 1, t, i, TasksOf(At(files, nReduce, rpcs, k), t)[i].worker.workerId)
  {
    AtNext(files, nReduce, rpcs, k - 1);
    NewlyPending(files, nReduce, At(files, nReduce, rpcs, k - 1), rpcs[k - 1], t, i);
  }

  /** Only a request changes a waiting task, and only new tasks come into being. */
  lemma NewlyPending(files: seq<string>, nReduce: int, s: State, rpc: Rpc, t: TaskType, i: nat)
    requires Inv(files, nReduce, s) && t in {MapTask, ReduceTask}
    requires i < |TasksOf(Step(s, rpc), t)| && TasksOf(Step(s, rpc), t)[i].status != Waiting
    requires i >= |TasksOf(s, t)| || TasksOf(s, t)[i].status == Waiting
    ensures rpc == RequestCall(TasksOf(Step(s, rpc), t)[i].worker.workerId)
    ensures var reply := Request(s, rpc.workerId).1;
            reply.available && reply.taskType == t && reply.taskId == TaskName(i)
  {
    StepEffect(files, nReduce, s, rpc);
    EffectPending(s, rpc, Step(s, rpc), EffectOf(s, rpc), t, i);
  }

  lemma EffectPending(s: State, rpc: Rpc, u: State, e: Effect, t: TaskType, i: nat)
    requires HasEffect(s, rpc, u, e) && t in {MapTask, ReduceTask}
    requires i < |TasksOf(u, t)| && TasksOf(u, t)[i].status != Waiting
    requires i >= |TasksOf(s, t)| || TasksOf(s, t)[i].status == Waiting
    ensures e.Hands? && e.t == t && e.i == i
  {
  }

  /** Only the owner completes a task, with an update under its own name, after it was handed out to it. */
  lemma OnlyOwnerCompletes(files: seq<string>, nReduce: int, rpcs: seq<Rpc>, k: nat, t: TaskType, i: nat)
    returns (w: string, j: nat)
    requires Completes(files, nReduce, rpcs, k, t, i)
    ensures rpcs[k] == UpdateCall(UpdateArgs(w, TaskName(i), t)) && w != ""
    ensures w == TasksOf(At(files, nReduce, rpcs, k), t)[i].worker.workerId
    ensures j < k && Grants(files, nReduce, rpcs, j, t, i, w)
  {
    var s := At(files, nReduce, rpcs, k);
    AtNext(files, nReduce, rpcs, k);
    StepAdvances(files, nReduce, s, rpcs[k]);
    assert JobOk(TasksOf(s, t)[i]);
    NewlyDone(files, nReduce, s, rpcs[k], t, i);
    w := TasksOf(s, t)[i].worker.workerId;
    j := WasGranted(files, nReduce, rpcs, k, t, i);
  }

  lemma NewlyDone(files: seq<string>, nReduce: int, s: State, rpc: Rpc, t: TaskType, i: nat)
    requires Inv(files, nReduce, s) && t in {MapTask, ReduceTask}
    requires i < |TasksOf(s, t)| && TasksOf(s, t)[i].status != Done
    requires i < |TasksOf(Step(s, rpc), t)| && TasksOf(Step(s, rpc), t)[i].status == Done
    ensures TasksOf(s, t)[i].status == Pending && TasksOf(s, t)[i].worker.workerId != ""
    ensures rpc == UpdateCall(UpdateArgs(TasksOf(s, t)[i].worker.workerId, TaskName(i), t))
  {
    StepEffect(files, nReduce, s, rpc);
    EffectDone(s, rpc, Step(s, rpc), EffectOf(s, rpc), t, i);
  }

  lemma EffectDone(s: State, rpc: Rpc, u: State, e: Effect, t: TaskType, i: nat)
    requires HasEffect(s, rpc, u, e) && t in {MapTask, ReduceTask}
    requires i < |TasksOf(s, t)| && TasksOf(s, t)[i].status != Done
    requires i < |TasksOf(u, t)| && TasksOf(u, t)[i].status == Done
    ensures e == Finishes(t, i)
  {
  }

  /** An update that was accepted once changes nothing when it arrives again, however much later. */
  lemma ReplayedUpdate(files: seq<string>, nReduce: int, rpcs: seq<Rpc>, j: nat, k: nat)
    requires j < k <= |rpcs| && rpcs[j].UpdateCall?
    requires Update(At(files, nReduce, rpcs, j), rpcs[j].args).1.status == Done
    ensures Step(At(files, nReduce, rpcs, k), rpcs[j]) == At(files, nReduce, rpcs, k)
    ensures Update(At(files, nReduce, rpcs, k), rpcs[j].args).1.message == "Task already completed"
  {
    var s, args := At(files, nReduce, rpcs, j), rpcs[j].args;
    AtNext(files, nReduce, rpcs, j);
    var i := DoneAfter(files, nReduce, s, args);
    RunAdvances(files, nReduce, rpcs, j + 1, k);
    var t, u := At(files, nReduce, rpcs, j + 1), At(files, nReduce, rpcs, k);
    assert Later(TasksOf(t, args.taskType)[i], TasksOf(u, args.taskType)[i]);
    JobsOk(files, nReduce, rpcs, k, args.taskType, i);
    StillDone(files, nReduce, rpcs, k, args, i);
  }

  lemma StillDone(files: seq<string>, nReduce: int, rpcs: seq<Rpc>, k: nat, args: UpdateArgs, i: nat)
    requires k <= |rpcs| && args.taskType in {MapTask, ReduceTask} && args.taskId == TaskName(i) && args.workerId != ""
    requires var tasks := TasksOf(At(files, nReduce, rpcs, k), args.taskType);
             i < |tasks| && tasks[i].status == Done && tasks[i].worker.workerId == args.workerId
    ensures var u := At(files, nReduce, rpcs, k);
            Update(u, args) == (u, UpdateReply(Done, "Task already completed", NoPhase))
  {
    RunInv(files, nReduce, rpcs[..k]);
    TaskNameInjective(i, i);
    FoundTask(TasksOf(At(files, nReduce, rpcs, k), args.taskType), i);
  }

  lemma DoneAfter(files: seq<string>, nReduce: int, s: State, args: UpdateArgs) returns (i: nat)
    requires Inv(files, nReduce, s) && Update(s, args).1.status == Done
    ensures args.taskType in {MapTask, ReduceTask} && args.taskId == TaskName(i) && args.workerId != ""
    ensures var tasks := TasksOf(Update(s, args).0, args.taskType);
            i < |tasks| && tasks[i].status == Done && tasks[i].worker.workerId == args.workerId
  {
    i := FindTask(TasksOf(s, args.taskType), args.taskId);
    if Update(s, args).1.message == RECEIVED {
      i := AcceptedUpdate(files, nReduce, s, args);
    }
  }
}
