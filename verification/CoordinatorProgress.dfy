/** How far a run of the coordinator is from its end, and when it can get there. */
module CoordinatorProgress {
  import opened Tasks
  import opened CoordinatorRuns

  function Points(tasks: seq<Job>): nat {
    if tasks == [] then 0 else Points(tasks[..|tasks| - 1]) + 2 - Rank(tasks[|tasks| - 1].status)
  }

  /** The hand-outs and completions still to come. */
  function Remaining(s: State): nat {
    Points(s.mapTasks) + if s.phase == MapPhase then 2 * Count(s.nReduce) else Points(s.reduceTasks)
  }

  predicate Effective(s: State, rpc: Rpc) {
    EffectOf(s, rpc) != Nothing
  }

  function EffectiveCount(s: State, rpcs: seq<Rpc>): nat {
    if rpcs == [] then 0
    else EffectiveCount(s, rpcs[..|rpcs| - 1]) +
         if Effective(After(s, rpcs[..|rpcs| - 1]), rpcs[|rpcs| - 1]) then 1 else 0
  }

  lemma {:induction false} PointsUpdate(tasks: seq<Job>, i: nat, job: Job)
    requires i < |tasks|
    ensures Points(tasks[i := job]) == Points(tasks) + Rank(tasks[i].status) - Rank(job.status)
  {
    var n := |tasks| - 1;
    if i < n {
      PointsUpdate(tasks[..n], i, job);
      assert tasks[i := job][..n] == tasks[..n][i := job];
    } else {
      assert tasks[i := job][..n] == tasks[..n];
    }
  }

  lemma {:induction false} PointsFresh(tasks: seq<Job>)
    requires forall i :: 0 <= i < |tasks| ==> tasks[i].status == Waiting
    ensures Points(tasks) == 2 * |tasks|
  {
    if tasks != [] {
      PointsFresh(tasks[..|tasks| - 1]);
    }
  }

  lemma {:induction false} PointsDone(tasks: seq<Job>)
    requires forall i :: 0 <= i < |tasks| ==> JobOk(tasks[i])
    ensures Points(tasks) == 0 <==> AllDone(tasks)
  {
    if tasks != [] {
      var before := tasks[..|tasks| - 1];
      PointsDone(before);
      assert AllDone(tasks) <==> AllDone(before) && tasks[|tasks| - 1].status == Done;
    }
  }

  /** Every effective call is one unit of progress, and no other call is any. */
  lemma StepProgress(files: seq<string>, nReduce: int, s: State, rpc: Rpc)
    requires Inv(files, nReduce, s)
    ensures Remaining(Step(s, rpc)) + (if Effective(s, rpc) then 1 else 0) == Remaining(s)
  {
    StepEffect(files, nReduce, s, rpc);
    var u := Step(s, rpc);
    assert u.nReduce == s.nReduce by {
      StepInv(files, nReduce, s, rpc);
    }
    EffectProgress(s, rpc, u, EffectOf(s, rpc));
  }

  lemma EffectProgress(s: State, rpc: Rpc, u: State, e: Effect)
    requires HasEffect(s, rpc, u, e) && u.nReduce == s.nReduce
    ensures Remaining(u) + (if e != Nothing then 1 else 0) == Remaining(s)
  {
    match e
    case Nothing =>
    case Hands(t, i, worker) =>
      PointsUpdate(TasksOf(s, t), i, TasksOf(s, t)[i].(status := Pending, worker := worker));
    case Finishes(t, i) =>
      PointsUpdate(TasksOf(s, t), i, TasksOf(s, t)[i].(status := Done));
      PointsFresh(NewReduceTasks(s.nReduce));
  }

  /** In every run the effective calls so far and the remaining work add up to
      twice the number of files and reduce tasks. */
  lemma {:induction false} RunProgress(files: seq<string>, nReduce: int, rpcs: seq<Rpc>)
    ensures Remaining(After(Start(files, nReduce), rpcs)) + EffectiveCount(Start(files, nReduce), rpcs) ==
            2 * (|files| + Count(nReduce))
  {
    var s := Start(files, nReduce);
    if rpcs == [] {
      PointsFresh(s.mapTasks);
    } else {
      var before := rpcs[..|rpcs| - 1];
      RunProgress(files, nReduce, before);
      RunInv(files, nReduce, before);
      StepProgress(files, nReduce, After(s, before), rpcs[|rpcs| - 1]);
    }
  }

  /** With a file and a reduce task, the run is finished exactly when nothing remains. */
  lemma FinishedMeaning(files: seq<string>, nReduce: int, s: State)
    requires Inv(files, nReduce, s) && files != [] && nReduce >= 1
    ensures s.phase == FinishedPhase <==> Remaining(s) == 0
  {
    PointsDone(s.mapTasks);
    PointsDone(s.reduceTasks);
  }

  /** Every run that finishes has made exactly twice as many effective calls as there are tasks. */
  lemma FinishedRun(files: seq<string>, nReduce: int, rpcs: seq<Rpc>)
    requires After(Start(files, nReduce), rpcs).phase == FinishedPhase
    ensures EffectiveCount(Start(files, nReduce), rpcs) == 2 * (|files| + nReduce)
  {
    RunInv(files, nReduce, rpcs);
    RunProgress(files, nReduce, rpcs);
    FinishedMeaning(files, nReduce, After(Start(files, nReduce), rpcs));
  }

  // ---------------------------------------------------------------- what can still happen

  function Current(s: State): seq<Job> {
    match s.phase
    case MapPhase => s.mapTasks
    case ReducePhase => s.reduceTasks
    case _ => []
  }

  predicate SomeWaiting(tasks: seq<Job>) {
    exists i :: 0 <= i < |tasks| && tasks[i].status == Waiting
  }

  /** A task handed out to a worker whose updates the coordinator accepts. */
  predicate SomeOwned(tasks: seq<Job>) {
    exists i :: 0 <= i < |tasks| && tasks[i].status == Pending && tasks[i].worker.workerId != ""
  }

  /** A task handed out to the worker without a name, whose updates the coordinator refuses. */
  predicate Stranded(tasks: seq<Job>) {
    exists i :: 0 <= i < |tasks| && tasks[i].status == Pending && tasks[i].worker.workerId == ""
  }

  lemma CanHandOut(files: seq<string>, nReduce: int, s: State, worker: Worker)
    requires Inv(files, nReduce, s) && SomeWaiting(Current(s)) && worker in s.workers
    ensures Effective(s, RequestCall(worker.workerId))
  {
    var w := FindWorker(s.workers, worker.workerId);
    var k :| 0 <= k < |s.workers| && s.workers[k] == worker;
    var i :| 0 <= i < |Current(s)| && Current(s)[i].status == Waiting;
    assert FirstWaiting(Current(s)) <= i;
  }

  lemma CanComplete(files: seq<string>, nReduce: int, s: State, i: nat)
    requires Inv(files, nReduce, s) && i < |Current(s)| && Current(s)[i].status == Pending
             && Current(s)[i].worker.workerId != ""
    ensures Effective(s, UpdateCall(UpdateArgs(Current(s)[i].worker.workerId, TaskName(i), if s.phase ==
            MapPhase then MapTask else ReduceTask)))
  {
    FoundTask(Current(s), i);
    TaskNameInjective(i, i);
  }

  /** An effective call is possible exactly when a task waits and somebody is registered, or a task
      is with an owner that has a name. */
  lemma EffectiveEnabled(files: seq<string>, nReduce: int, s: State)
    requires Inv(files, nReduce, s)
    ensures (exists rpc :: Effective(s, rpc)) <==> (SomeWaiting(Current(s)) && s.workers != []) || SomeOwned(Current(s))
  {
    if rpc :| Effective(s, rpc) {
      StepEffect(files, nReduce, s, rpc);
    }
    if SomeWaiting(Current(s)) && s.workers != [] {
      CanHandOut(files, nReduce, s, s.workers[0]);
    }
    if i: nat :| i < |Current(s)| && Current(s)[i].status == Pending && Current(s)[i].worker.workerId != "" {
      CanComplete(files, nReduce, s, i);
    }
  }

  predicate NothingStranded(s: State) {
    !Stranded(s.mapTasks) && !Stranded(s.reduceTasks)
  }

  /** With a named worker registered and nothing stranded, some call of this worker or of an owner
      makes progress and strands nothing. */
  lemma NextCall(files: seq<string>, nReduce: int, s: State, worker: Worker) returns (rpc: Rpc)
    requires Inv(files, nReduce, s) && files != [] && nReduce >= 1
    requires worker in s.workers && worker.workerId != "" && NothingStranded(s) && s.phase != FinishedPhase
    ensures Effective(s, rpc)
    ensures NothingStranded(Step(s, rpc)) && worker in Step(s, rpc).workers
  {
    assert !AllDone(Current(s));
    var i :| 0 <= i < |Current(s)| && Current(s)[i].status != Done;
    assert JobOk(Current(s)[i]);
    if Current(s)[i].status == Waiting {
      rpc := RequestCall(worker.workerId);
      CanHandOut(files, nReduce, s, worker);
    } else {
      rpc := UpdateCall(UpdateArgs(Current(s)[i].worker.workerId, TaskName(i), if s.phase == MapPhase then MapTask
          else ReduceTask));
      CanComplete(files, nReduce, s, i);
    }
    StepEffect(files, nReduce, s, rpc);
    StaysUnstranded(s, rpc, Step(s, rpc), EffectOf(s, rpc));
    WorkersStay(s, rpc);
  }

  lemma WorkersStay(s: State, rpc: Rpc)
    ensures s.workers <= Step(s, rpc).workers
  {
  }

  lemma StaysUnstranded(s: State, rpc: Rpc, u: State, e: Effect)
    requires HasEffect(s, rpc, u, e) && NothingStranded(s)
    requires e.Hands? ==> e.worker.workerId != ""
    ensures NothingStranded(u)
  {
  }

  /** From any reachable state with a named worker and nothing stranded, the finished phase is
      exactly as many effective calls away as remain. */
  lemma {:induction false} CanFinish(files: seq<string>, nReduce: int, s: State, worker: Worker)
    returns (rpcs: seq<Rpc>)
    requires Inv(files, nReduce, s) && files != [] && nReduce >= 1
    requires worker in s.workers && worker.workerId != "" && NothingStranded(s)
    ensures |rpcs| == Remaining(s) && After(s, rpcs).phase == FinishedPhase
    decreases Remaining(s)
  {
    FinishedMeaning(files, nReduce, s);
    if s.phase == FinishedPhase {
      rpcs := [];
    } else {
      var rpc := NextCall(files, nReduce, s, worker);
      StepInv(files, nReduce, s, rpc);
      StepProgress(files, nReduce, s, rpc);
      var rest := CanFinish(files, nReduce, Step(s, rpc), worker);
      rpcs := [rpc] + rest;
      AfterCons(s, rpc, rest);
    }
  }

  lemma {:induction false} AfterCons(s: State, rpc: Rpc, rest: seq<Rpc>)
    ensures After(s, [rpc] + rest) == After(Step(s, rpc), rest)
  {
    var all := [rpc] + rest;
    if rest == [] {
      assert all[..0] == [];
    } else {
      AfterCons(s, rpc, rest[..|rest| - 1]);
      assert all[..|all| - 1] == [rpc] + rest[..|rest| - 1];
    }
  }

  /** A stranded task is stranded for ever, and the run never finishes. */
  lemma {:induction false} StrandedForever(files: seq<string>, nReduce: int, s: State, rpcs: seq<Rpc>)
    requires Inv(files, nReduce, s) && !NothingStranded(s)
    ensures Inv(files, nReduce, After(s, rpcs)) && !NothingStranded(After(s, rpcs))
    ensures After(s, rpcs).phase != FinishedPhase
  {
    if rpcs != [] {
      var before := rpcs[..|rpcs| - 1];
      StrandedForever(files, nReduce, s, before);
      var t := After(s, before);
      StepInv(files, nReduce, t, rpcs[|rpcs| - 1]);
      StepEffect(files, nReduce, t, rpcs[|rpcs| - 1]);
      StaysStranded(t, rpcs[|rpcs| - 1], Step(t, rpcs[|rpcs| - 1]), EffectOf(t, rpcs[|rpcs| - 1]));
    }
  }

  lemma StaysStranded(s: State, rpc: Rpc, u: State, e: Effect)
    requires HasEffect(s, rpc, u, e) && !NothingStranded(s)
    requires s.phase == MapPhase ==> s.reduceTasks == []
    ensures !NothingStranded(u)
  {
    if Stranded(s.mapTasks) {
      var i :| 0 <= i < |s.mapTasks| && s.mapTasks[i].status == Pending && s.mapTasks[i].worker.workerId == "";
      assert u.mapTasks[i] == s.mapTasks[i];
      assert Stranded(u.mapTasks);
    } else {
      var i :| 0 <= i < |s.reduceTasks| && s.reduceTasks[i].status == Pending && s.reduceTasks[i].worker.workerId == "";
      assert u.reduceTasks[i] == s.reduceTasks[i];
      assert Stranded(u.reduceTasks);
    }
  }

  /** Without a file the map phase never ends; without a reduce task the reduce phase never does. */
  lemma {:induction false} NeverFinishes(files: seq<string>, nReduce: int, s: State, rpcs: seq<Rpc>)
    requires Inv(files, nReduce, s) && (files == [] || nReduce < 1)
    ensures Inv(files, nReduce, After(s, rpcs)) && After(s, rpcs).phase != FinishedPhase
  {
    if rpcs != [] {
      NeverFinishes(files, nReduce, s, rpcs[..|rpcs| - 1]);
      StepInv(files, nReduce, After(s, rpcs[..|rpcs| - 1]), rpcs[|rpcs| - 1]);
    }
  }

  ghost predicate CanReachFinished(s: State) {
    exists rpcs :: After(s, rpcs).phase == FinishedPhase
  }

  /** The finished phase can be reached from a reachable state exactly when there is a file, a reduce
      task, and no task handed out to a worker without a name. */
  lemma FinishReachable(files: seq<string>, nReduce: int, s: State)
    requires Inv(files, nReduce, s)
    ensures CanReachFinished(s) <==> files != [] && nReduce >= 1 && NothingStranded(s)
  {
    if files == [] || nReduce < 1 {
      forall rpcs ensures After(s, rpcs).phase != FinishedPhase {
        NeverFinishes(files, nReduce, s, rpcs);
      }
    } else if !NothingStranded(s) {
      forall rpcs ensures After(s, rpcs).phase != FinishedPhase {
        StrandedForever(files, nReduce, s, rpcs);
      }
    } else {
      var worker := Worker("worker", "", "");
      var t := Step(s, RegisterCall(worker));
      assert t.workers[|s.workers|] == worker;
      StepInv(files, nReduce, s, RegisterCall(worker));
      var rpcs := CanFinish(files, nReduce, t, worker);
      AfterCons(s, RegisterCall(worker), rpcs);
    }
  }

  /** No worker registers without a name. */
  predicate NamedRegistrations(rpcs: seq<Rpc>) {
    forall k :: 0 <= k < |rpcs| && rpcs[k].RegisterCall? ==> rpcs[k].worker.workerId != ""
  }

  predicate AllNamed(s: State) {
    forall k :: 0 <= k < |s.workers| ==> s.workers[k].workerId != ""
  }

  lemma WorkersAfter(s: State, rpc: Rpc)
    ensures Step(s, rpc).workers == if rpc.RegisterCall? then s.workers + [rpc.worker] else s.workers
  {
  }

  lemma NamedStep(files: seq<string>, nReduce: int, s: State, rpc: Rpc)
    requires Inv(files, nReduce, s) && AllNamed(s) && NothingStranded(s)
    requires rpc.RegisterCall? ==> rpc.worker.workerId != ""
    ensures AllNamed(Step(s, rpc)) && NothingStranded(Step(s, rpc))
  {
    WorkersAfter(s, rpc);
    StepEffect(files, nReduce, s, rpc);
    StaysUnstranded(s, rpc, Step(s, rpc), EffectOf(s, rpc));
  }

  lemma {:induction false} NamedRun(files: seq<string>, nReduce: int, rpcs: seq<Rpc>)
    requires NamedRegistrations(rpcs)
    ensures AllNamed(After(Start(files, nReduce), rpcs)) && NothingStranded(After(Start(files, nReduce), rpcs))
  {
    if rpcs != [] {
      var before, rpc := rpcs[..|rpcs| - 1], rpcs[|rpcs| - 1];
      NamedRun(files, nReduce, before);
      RunInv(files, nReduce, before);
      NamedStep(files, nReduce, After(Start(files, nReduce), before), rpc);
    }
  }

  /** What a caller can see to: as long as no worker registers without a name, the finished phase stays
      reachable, exactly if there is a file and a reduce task. */
  lemma NamedRunCanFinish(files: seq<string>, nReduce: int, rpcs: seq<Rpc>)
    requires NamedRegistrations(rpcs)
    ensures CanReachFinished(After(Start(files, nReduce), rpcs)) <==> files != [] && nReduce >= 1
  {
    RunInv(files, nReduce, rpcs);
    NamedRun(files, nReduce, rpcs);
    FinishReachable(files, nReduce, After(Start(files, nReduce), rpcs));
  }

  /** A worker registered without a name takes the only task and strands it. */
  lemma NamelessWorkerStrands()
    ensures var rpcs := [RegisterCall(NO_WORKER), RequestCall("")];
            !CanReachFinished(After(Start(["file"], 1), rpcs)) && CanReachFinished(Start(["file"], 1))
  {
    var s0 := Start(["file"], 1);
    var r1, r2 := RegisterCall(NO_WORKER), RequestCall("");
    var s1, s2 := Step(s0, r1), Step(Step(s0, r1), r2);
    AfterCons(s0, r1, [r2]);
    AfterCons(s1, r2, []);
    assert [r1] + [r2] == [r1, r2] && [r2] + [] == [r2];
    StartInv(["file"], 1);
    StepInv(["file"], 1, s0, r1);
    StepInv(["file"], 1, s1, r2);
    assert s1.workers == [NO_WORKER];
    assert FindWorker(s1.workers, "") == 0;
    assert s1.mapTasks[0].status == Waiting;
    assert FirstWaiting(s1.mapTasks) == 0;
    assert s2.mapTasks[0].status == Pending && s2.mapTasks[0].worker == NO_WORKER;
    FinishReachable(["file"], 1, s0);
    FinishReachable(["file"], 1, s2);
  }
}
