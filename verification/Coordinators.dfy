/** The coordinator object: its fields are updated in place by the remote calls. */
module Coordinators {
  import opened Tasks

  class Coordinator {
    var noOfReduceTasks: int
    var mapTasks: seq<Job>
    var reduceTasks: seq<Job>
    var phase: Phase
    var workers: seq<Worker>

    function Contents(): State
      reads this
    {
      State(noOfReduceTasks, mapTasks, reduceTasks, phase, workers)
    }

    constructor (files: seq<string>, nReduce: int)
      ensures Contents() == Start(files, nReduce)
    {
      noOfReduceTasks := nReduce;
      phase := MapPhase;
      reduceTasks, workers := [], [];
      var tasks: seq<Job> := [];
      for idx := 0 to |files|
        invariant |tasks| == idx
        invariant forall i :: 0 <= i < idx ==> tasks[i] == NewMapTask(files, nReduce, i)
      {
        tasks := tasks + [Job(TaskName(idx), files[idx], Waiting, NO_WORKER, nReduce, 0)];
      }
      mapTasks := tasks;
      assert tasks == Start(files, nReduce).mapTasks;
    }

    method RegisterWorker(workerId: string, address: string, port: string) returns (registered: bool)
      modifies this
      ensures Contents() == Register(old(Contents()), Worker(workerId, address, port))
      ensures registered
    {
      workers := workers + [Worker(workerId, address, port)];
      registered := true;
    }

    method TaskTransitionManager(t: TaskType)
      modifies this
      ensures Contents() == Transition(old(Contents()), t)
    {
      match t {
        case MapTask =>
          var hasPendingTask := false;
          for i := 0 to |mapTasks|
            invariant !hasPendingTask ==> forall j :: 0 <= j < i ==> mapTasks[j].status !in {Pending, Waiting}
          {
            if mapTasks[i].status == Pending || mapTasks[i].status == Waiting {
              hasPendingTask := true;
              break;
            }
          }
          if !hasPendingTask {
            AddReduceTasks();
            phase := ReducePhase;
          }
        case ReduceTask =>
          var count := 0;
          for i := 0 to |reduceTasks|
            invariant count <= i
            invariant count == i <==> forall j :: 0 <= j < i ==> reduceTasks[j].status == Done
          {
            if reduceTasks[i].status == Done {
              count := count + 1;
            }
          }
          if count == |reduceTasks| {
            phase := FinishedPhase;
          }
        case _ =>
      }
    }

    method AddReduceTasks()
      modifies this
      ensures Contents() == old(Contents()).(reduceTasks := old(reduceTasks) + NewReduceTasks(noOfReduceTasks))
    {
      ghost var before := reduceTasks;
      var i := 0;
      while i < noOfReduceTasks
        invariant 0 <= i <= Count(noOfReduceTasks)
        invariant Contents() == old(Contents()).(reduceTasks := before + NewReduceTasks(noOfReduceTasks)[..i])
      {
        reduceTasks := reduceTasks + [Job(TaskName(i), "", Waiting, NO_WORKER, 0, i)];
        i := i + 1;
      }
    }

    method TaskUpdateByWorker(args: UpdateArgs) returns (reply: UpdateReply)
      modifies this
      ensures Contents() == Update(old(Contents()), args).0
      ensures reply == Update(old(Contents()), args).1
    {
      reply := UpdateReply(Invalid, "", NoPhase);
      if args.taskId == "" {
        return reply.(message := "Task ID is required");
      }
      if args.workerId == "" {
        return reply.(message := "Worker ID is required");
      }
      if args.taskType == NoType {
        return reply.(message := "Provide task type ( MAP | REDUCE )");
      }
      var jobs;
      match args.taskType {
        case MapTask => jobs := mapTasks;
        case ReduceTask => jobs := reduceTasks;
        case _ => return reply.(message := "Task type must be either MAP or REDUCE");
      }
      for i := 0 to |jobs|
        invariant FindTask(jobs, args.taskId) >= i
      {
        if jobs[i].taskId == args.taskId {
          if jobs[i].worker.workerId != args.workerId {
            return reply.(message := "Task not assigned to worker " + args.workerId);
          }
          if jobs[i].status == Done {
            return reply.(message := "Task already completed", status := Done);
          }
          if args.taskType == MapTask {
            mapTasks := mapTasks[i := mapTasks[i].(status := Done)];
          } else {
            reduceTasks := reduceTasks[i := reduceTasks[i].(status := Done)];
          }
          reply := UpdateReply(Done, RECEIVED, phase);
          TaskTransitionManager(args.taskType);
          return;
        }
      }
      reply := reply.(message := "Task not found");
    }

    method AssignMapTask(assignedWorker: Worker, reply0: RequestReply) returns (reply: RequestReply)
      modifies this
      ensures Contents() == AssignMap(old(Contents()), assignedWorker, reply0).0
      ensures reply == AssignMap(old(Contents()), assignedWorker, reply0).1
    {
      reply := reply0;
      for i := 0 to |mapTasks|
        invariant FirstWaiting(mapTasks) >= i
        invariant Contents() == old(Contents()) && reply == reply0
      {
        var task := mapTasks[i];
        if task.status == Waiting {
          task := task.(status := Pending, worker := assignedWorker);
          mapTasks := mapTasks[i := task];
          reply := reply.(available := true, taskId := task.taskId, filePath := task.filePath, status := task.status,
                          nReduce := task.nReduce, taskType := MapTask, phase := phase);
          break;
        }
      }
    }

    method AssignReduceTask(assignedWorker: Worker, reply0: RequestReply) returns (reply: RequestReply)
      modifies this
      ensures Contents() == AssignReduce(old(Contents()), assignedWorker, reply0).0
      ensures reply == AssignReduce(old(Contents()), assignedWorker, reply0).1
    {
      reply := reply0;
      for i := 0 to |reduceTasks|
        invariant FirstWaiting(reduceTasks) >= i
        invariant Contents() == old(Contents()) && reply == reply0
      {
        var task := reduceTasks[i];
        if task.status == Waiting {
          task := task.(status := Pending, worker := assignedWorker);
          reduceTasks := reduceTasks[i := task];
          return reply.(available := true, taskId := task.taskId, status := task.status, taskType := ReduceTask,
                        phase := phase, partition := task.partition);
        }
      }
      reply := reply.(phase := phase, available := false);
    }

    method TaskRequestByWorker(workerId: string) returns (reply: RequestReply)
      modifies this
      ensures Contents() == Request(old(Contents()), workerId).0
      ensures reply == Request(old(Contents()), workerId).1
    {
      reply := NO_TASK;
      var found := |workers|;
      for i := 0 to |workers|
        invariant FindWorker(workers, workerId) >= i
        invariant found == |workers|
      {
        if workers[i].workerId == workerId {
          found := i;
          break;
        }
      }
      if found == |workers| {
        return;
      }
      match phase {
        case MapPhase => reply := AssignMapTask(workers[found], reply);
        case ReducePhase => reply := AssignReduceTask(workers[found], reply);
        case FinishedPhase => reply := reply.(available := false, phase := phase);
        case NoPhase =>
      }
    }
  }
}
