/** The coordinator's state as a value, and what each remote call makes of it. */
module Tasks {
  import opened Strings

  /** `NoStatus`, `NoType` and `NoPhase` are fields left empty; `OtherType` is any other string. */
  datatype TaskStatus = NoStatus | Waiting | Pending | Done | Invalid

  datatype TaskType = NoType | MapTask | ReduceTask | OtherType

  datatype Phase = NoPhase | MapPhase | ReducePhase | FinishedPhase

  datatype Worker = Worker(workerId: string, address: string, port: string)

  const NO_WORKER := Worker("", "", "")

  datatype Job = Job(taskId: string, filePath: string, status: TaskStatus, worker: Worker, nReduce: int, partition: nat)

  datatype State = State(nReduce: int, mapTasks: seq<Job>, reduceTasks: seq<Job>, phase: Phase, workers: seq<Worker>)

  datatype RequestReply = RequestReply(taskId: string, taskType: TaskType, status: TaskStatus, filePath: string,
                                       available: bool, nReduce: int, phase: Phase, partition: nat)

  const NO_TASK := RequestReply("", NoType, NoStatus, "", false, 0, NoPhase, 0)

  datatype UpdateArgs = UpdateArgs(workerId: string, taskId: string, taskType: TaskType)

  datatype UpdateReply = UpdateReply(status: TaskStatus, message: string, phase: Phase)

  const RECEIVED := "Task update received successfully"

  function TaskName(i: nat): string {
    "task-" + Itoa(i)
  }

  lemma TaskNameInjective(i: nat, j: nat)
    ensures TaskName(i) == TaskName(j) ==> i == j
    ensures TaskName(i) != ""
  {
    ItoaInjective(i, j);
    assert TaskName(i)[5..] == Itoa(i) && TaskName(j)[5..] == Itoa(j);
  }

  function NewMapTask(files: seq<string>, nReduce: int, i: nat): Job
    requires i < |files|
  {
    Job(TaskName(i), files[i], Waiting, NO_WORKER, nReduce, 0)
  }

  function NewReduceTask(p: nat): Job {
    Job(TaskName(p), "", Waiting, NO_WORKER, 0, p)
  }

  function Count(n: int): nat {
    if n < 0 then 0 else n
  }

  function NewReduceTasks(n: int): (tasks: seq<Job>)
    ensures |tasks| == Count(n)
    ensures forall p :: 0 <= p < |tasks| ==> tasks[p] == NewReduceTask(p)
  {
    seq(Count(n), p requires 0 <= p => NewReduceTask(p))
  }

  function Start(files: seq<string>, nReduce: int): State {
    State(nReduce, seq(|files|, i requires 0 <= i < |files| => NewMapTask(files, nReduce, i)), [], MapPhase, [])
  }

  // ---------------------------------------------------------------- what the scanning loops find

  /** The first waiting task, or the number of tasks. */
  function FirstWaiting(tasks: seq<Job>): (i: nat)
    ensures i <= |tasks|
    ensures forall j :: 0 <= j < i ==> tasks[j].status != Waiting
    ensures i < |tasks| ==> tasks[i].status == Waiting
  {
    if tasks == [] || tasks[0].status == Waiting then 0 else 1 + FirstWaiting(tasks[1..])
  }

  /** The first task with that id, or the number of tasks. */
  function FindTask(tasks: seq<Job>, taskId: string): (i: nat)
    ensures i <= |tasks|
    ensures forall j :: 0 <= j < i ==> tasks[j].taskId != taskId
    ensures i < |tasks| ==> tasks[i].taskId == taskId
  {
    if tasks == [] || tasks[0].taskId == taskId then 0 else 1 + FindTask(tasks[1..], taskId)
  }

  /** The first worker registered under that id, or the number of workers. */
  function FindWorker(workers: seq<Worker>, workerId: string): (i: nat)
    ensures i <= |workers|
    ensures forall j :: 0 <= j < i ==> workers[j].workerId != workerId
    ensures i < |workers| ==> workers[i].workerId == workerId
  {
    if workers == [] || workers[0].workerId == workerId then 0 else 1 + FindWorker(workers[1..], workerId)
  }

  predicate AllDone(tasks: seq<Job>) {
    forall i :: 0 <= i < |tasks| ==> tasks[i].status == Done
  }

  // ---------------------------------------------------------------- the remote calls

  function Register(s: State, worker: Worker): State {
    s.(workers := s.workers + [worker])
  }

  function Assigned(tasks: seq<Job>, i: nat, worker: Worker): seq<Job>
    requires i < |tasks|
  {
    tasks[i := tasks[i].(status := Pending, worker := worker)]
  }

  function AssignMap(s: State, worker: Worker, reply: RequestReply): (State, RequestReply) {
    var i := FirstWaiting(s.mapTasks);
    if i == |s.mapTasks| then (s, reply)
    else (s.(mapTasks := Assigned(s.mapTasks, i, worker)),
          reply.(taskId := s.mapTasks[i].taskId, taskType := MapTask, status := Pending,
              filePath := s.mapTasks[i].filePath,
                 available := true, nReduce := s.mapTasks[i].nReduce, phase := s.phase))
  }

  function AssignReduce(s: State, worker: Worker, reply: RequestReply): (State, RequestReply) {
    var i := FirstWaiting(s.reduceTasks);
    if i == |s.reduceTasks| then (s, reply.(phase := s.phase, available := false))
    else (s.(reduceTasks := Assigned(s.reduceTasks, i, worker)),
          reply.(taskId := s.reduceTasks[i].taskId, taskType := ReduceTask, status := Pending,
                 available := true, phase := s.phase, partition := s.reduceTasks[i].partition))
  }

  function Request(s: State, workerId: string): (State, RequestReply) {
    var w := FindWorker(s.workers, workerId);
    if w == |s.workers| then (s, NO_TASK)
    else match s.phase
      case MapPhase => AssignMap(s, s.workers[w], NO_TASK)
      case ReducePhase => AssignReduce(s, s.workers[w], NO_TASK)
      case FinishedPhase => (s, NO_TASK.(phase := s.phase))
      case NoPhase => (s, NO_TASK)
  }

  /** After a completion the phase may change, and the reduce tasks come into being. */
  function Transition(s: State, t: TaskType): State {
    match t
    case MapTask =>
      if exists i :: 0 <= i < |s.mapTasks| && s.mapTasks[i].status in {Pending, Waiting} then s
      else s.(reduceTasks := s.reduceTasks + NewReduceTasks(s.nReduce), phase := ReducePhase)
    case ReduceTask => if AllDone(s.reduceTasks) then s.(phase := FinishedPhase) else s
    case _ => s
  }

  function TasksOf(s: State, t: TaskType): seq<Job> {
    match t
    case MapTask => s.mapTasks
    case ReduceTask => s.reduceTasks
    case _ => []
  }

  function WithDone(s: State, t: TaskType, i: nat): State
    requires i < |TasksOf(s, t)|
  {
    var tasks := TasksOf(s, t)[i := TasksOf(s, t)[i].(status := Done)];
    if t == MapTask then s.(mapTasks := tasks) else s.(reduceTasks := tasks)
  }

  function Update(s: State, args: UpdateArgs): (State, UpdateReply) {
    if args.taskId == "" then (s, UpdateReply(Invalid, "Task ID is required", NoPhase))
    else if args.workerId == "" then (s, UpdateReply(Invalid, "Worker ID is required", NoPhase))
    else if args.taskType == NoType then (s, UpdateReply(Invalid, "Provide task type ( MAP | REDUCE )", NoPhase))
    else if args.taskType == OtherType then (s, UpdateReply(Invalid, "Task type must be either MAP or REDUCE", NoPhase))
    else
      var tasks := TasksOf(s, args.taskType);
      var i := FindTask(tasks, args.taskId);
      if i == |tasks| then (s, UpdateReply(Invalid, "Task not found", NoPhase))
      else if tasks[i].worker.workerId != args.workerId then
        (s, UpdateReply(Invalid, "Task not assigned to worker " + args.workerId, NoPhase))
      else if tasks[i].status == Done then (s, UpdateReply(Done, "Task already completed", NoPhase))
      else (Transition(WithDone(s, args.taskType, i), args.taskType), UpdateReply(Done, RECEIVED, s.phase))
  }

  // ---------------------------------------------------------------- what replies say

  /** The first task with the id that an update names is task `i`, and it belongs to the worker it names. */
  predicate Owns(s: State, args: UpdateArgs, i: nat) {
    var tasks := TasksOf(s, args.taskType);
    && i < |tasks| && tasks[i].taskId == args.taskId && tasks[i].worker.workerId == args.workerId
    && forall j :: 0 <= j < i ==> tasks[j].taskId != args.taskId
  }

  /** An update is answered with DONE exactly when it names both parties and a task that is there and
      belongs to the worker; it counts exactly when that task was not done before, and then the reply
      carries the phase from before. Any other update changes nothing. */
  lemma UpdateAnswer(s: State, args: UpdateArgs)
    ensures var (u, reply) := Update(s, args);
            && (reply.status == Done || reply.status == Invalid)
            && (reply.status == Done <==>
                  args.taskId != "" && args.workerId != "" && exists i: nat :: Owns(s, args, i))
            && (reply.message == RECEIVED ==>
                  exists i: nat :: Owns(s, args, i) && TasksOf(s, args.taskType)[i].status != Done)
            && (reply.status == Done && reply.message != RECEIVED ==>
                  exists i: nat :: Owns(s, args, i) && TasksOf(s, args.taskType)[i].status == Done)
            && (reply.message == RECEIVED ==> reply.status == Done)
            && (if reply.message == RECEIVED then reply.phase == s.phase else reply.phase == NoPhase && u == s)
  {
    var tasks := TasksOf(s, args.taskType);
    var i := FindTask(tasks, args.taskId);
    forall j: nat | Owns(s, args, j) ensures j == i {
    }
    if i < |tasks| && tasks[i].worker.workerId == args.workerId {
      assert Owns(s, args, i);
    }
    MessagesDiffer(args.workerId);
  }

  lemma MessagesDiffer(workerId: string)
    ensures "Task not assigned to worker " + workerId != RECEIVED && "Task already completed" != RECEIVED
  {
    assert ("Task not assigned to worker " + workerId)[5] == 'n' && RECEIVED[5] == 'u';
    assert "Task already completed"[5] == 'a';
  }

  /** A reply with a task is about the first waiting task of the phase; any other is empty but for the phase. */
  lemma RequestAnswer(s: State, workerId: string)
    ensures var reply := Request(s, workerId).1;
            if reply.available then
              && reply.status == Pending && reply.phase == s.phase
              && (s.phase == MapPhase || s.phase == ReducePhase)
              && reply.taskType == (if s.phase == MapPhase then MapTask else ReduceTask)
              && exists i: nat :: i < |TasksOf(s, reply.taskType)| && TasksOf(s, reply.taskType)[i].status == Waiting
                   && (forall j :: 0 <= j < i ==> TasksOf(s, reply.taskType)[j].status != Waiting)
                   && var task := TasksOf(s, reply.taskType)[i];
                      && reply.taskId == task.taskId
                      && (if s.phase == MapPhase then reply.filePath == task.filePath && reply.nReduce == task.nReduce
                          else reply.partition == task.partition)
            else reply.(phase := NoPhase) == RequestReply("", NoType, NoStatus, "", false, 0, NoPhase, 0)
  {
    var w := FindWorker(s.workers, workerId);
    if w < |s.workers| && s.phase == MapPhase && FirstWaiting(s.mapTasks) < |s.mapTasks| {
      assert TasksOf(s, MapTask)[FirstWaiting(s.mapTasks)].status == Waiting;
    }
    if w < |s.workers| && s.phase == ReducePhase && FirstWaiting(s.reduceTasks) < |s.reduceTasks| {
      assert TasksOf(s, ReduceTask)[FirstWaiting(s.reduceTasks)].status == Waiting;
    }
  }
}
