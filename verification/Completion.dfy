/** What becomes of a job: every fair run of its workers completes it and leaves the right files, and
    when the files may be read as soon as the coordinator has finished. */
module Completion {
  import opened Histories
  import opened Sorting
  import opened KeyValues
  import opened Outputs
  import opened Tasks
  import opened Jobs
  import opened Workers
  import opened CoordinatorProgress
  import opened WorkerLoops
  import opened MapReduce
  import Runs = CoordinatorRuns

  // ---------------------------------------------------------------- a worker can always go on

  lemma {:induction false} GlobExists(inter: Files<KeyValue>, p: nat, keys: set<string>) returns (names: seq<string>)
    requires keys <= inter.Keys
    ensures Distinct(names) && forall name :: name in names <==> name in keys && Matches(name, p)
    decreases |keys|
  {
    names := [];
    if keys != {} {
      var name :| name in keys;
      var before := GlobExists(inter, p, keys - {name});
      names := if Matches(name, p) then before + [name] else before;
    }
  }

  /** There is something for a reducer to write. */
  lemma ReducedExists(f: ReduceFunction, inter: Files<KeyValue>, p: nat) returns (lines: seq<string>)
    ensures Reduced(f, inter, p, lines)
  {
    var names := GlobExists(inter, p, inter.Keys);
    assert IsGlob(inter, p, names);
    assert forall k :: 0 <= k < |names| ==> names[k] in names;
    ByKeyIsOrder();
    var sorted := SortExists(Concat(inter, names), ByKey);
    lines := KeyLines(f, sorted);
  }

  function With(w: World, q: nat, stage: Stage): World
    requires q < |w.stages|
  {
    w.(stages := w.stages[q := stage])
  }

  lemma MapperGoesOn(job: MrJob, w: World, q: nat) returns (u: World)
    requires ValidJob(job) && Inv(job, w) && Working(w, q) && w.sys.loops[q].reply.phase == MapPhase
    ensures Works(job, w, u, q)
  {
    assert WorkerOk(job, w, q);
    var r := w.sys.loops[q].reply;
    var i: nat :| IsMapReply(job, r, i);
    match w.stages[q]
    case Got =>
      var kva := job.mapf(r.filePath, job.input[r.filePath]);
      u := With(w, q, Mapping(kva, 0, 0));
      assert MapReads(job, w, u, q, kva);
    case Mapping(kva, p, j) =>
      if p == job.nReduce {
        u := With(w, q, Ran);
        assert MapEnds(w, u, q);
      } else {
        var part := PartOf(kva, job.hash, job.nReduce, p);
        u := With(w, q, if j < |part| then Mapping(kva, p, j + 1) else Mapping(kva, p + 1, 0));
        u := u.(inter := Encoded(w.inter, r.taskId, part, p, j));
        assert MapWrites(job, w, u, q);
      }
  }

  lemma ReducerGoesOn(job: MrJob, w: World, q: nat) returns (u: World)
    requires ValidJob(job) && Inv(job, w) && Working(w, q) && w.sys.loops[q].reply.phase == ReducePhase
    ensures Works(job, w, u, q)
  {
    assert WorkerOk(job, w, q);
    var r := w.sys.loops[q].reply;
    match w.stages[q]
    case Got =>
      var lines := ReducedExists(job.reducef, w.inter, r.partition);
      u := With(w, q, Read(Flat(lines)));
      assert ReduceReads(job, w, u, q, lines);
    case Read(text) =>
      u := With(w, q, Writing(text, 0)).(out := w.out[OutName(r.partition) := ""]);
      assert Creates(w, u, q);
    case Writing(text, offset) =>
      if offset == |text| {
        u := With(w, q, Ran);
        assert ReduceEnds(w, u, q);
      } else {
        u := With(w, q, Writing(text, offset + 1));
        u := u.(out := w.out[OutName(r.partition) :=
                WriteAt(w.out[OutName(r.partition)], offset, text[offset..offset + 1])]);
        assert Writes(w, u, q, 1);
      }
  }

  lemma GoesOn(job: MrJob, w: World, q: nat) returns (u: World)
    requires ValidJob(job) && Inv(job, w) && Working(w, q)
    ensures Works(job, w, u, q)
  {
    assert WorkerOk(job, w, q);
    if w.sys.loops[q].reply.phase == MapPhase {
      u := MapperGoesOn(job, w, q);
    } else {
      u := ReducerGoesOn(job, w, q);
    }
  }

  /** No worker is ever stuck. */
  lemma AlwaysEnabled(job: MrJob, w: World, q: nat) returns (u: World)
    requires ValidJob(job) && Inv(job, w) && IsWorker(w.sys, q)
    ensures Step(job, w, u, q)
  {
    if Working(w, q) {
      u := GoesOn(job, w, q);
    } else {
      u := w.(sys := Turn(w.sys, q), stages := w.stages[q := Got]);
      assert Calls(w, u, q);
    }
  }

  // ---------------------------------------------------------------- and comes to the end of its task

  function StageRank(stage: Stage): nat {
    match stage
    case Got => 3
    case Mapping(_, _, _) => 2
    case Read(_) => 2
    case Writing(_, _) => 1
    case Ran => 0
  }

  function PartsLeft(job: MrJob, stage: Stage): nat {
    match stage
    case Mapping(_, p, _) => if p < job.nReduce then job.nReduce - p else 0
    case Writing(text, offset) => if offset < |text| then |text| - offset else 0
    case _ => 0
  }

  function PairsLeft(job: MrJob, stage: Stage): nat {
    if stage.Mapping? && stage.p < job.nReduce then
      var size := |PartOf(stage.kva, job.hash, job.nReduce, stage.p)|;
      if stage.j < size then size - stage.j else 0
    else 0
  }

  /** A stage that is nearer to the end. */
  predicate Nearer(job: MrJob, b: Stage, a: Stage) {
    || StageRank(b) < StageRank(a)
    || (StageRank(b) == StageRank(a) && PartsLeft(job, b) < PartsLeft(job, a))
    || (StageRank(b) == StageRank(a) && PartsLeft(job, b) == PartsLeft(job, a) && PairsLeft(job, b) < PairsLeft(job, a))
  }

  lemma WorksNearer(job: MrJob, w: World, u: World, q: nat)
    requires ValidJob(job) && Inv(job, w) && Works(job, w, u, q)
    ensures OnlyStage(w, u, q) && Nearer(job, u.stages[q], w.stages[q])
  {
    assert IsWorker(w.sys, q);
    assert WorkerOk(job, w, q);
    if kva :| MapReads(job, w, u, q, kva) {
    } else if MapWrites(job, w, u, q) {
      var i: nat :| IsMapReply(job, w.sys.loops[q].reply, i);
    } else if lines :| ReduceReads(job, w, u, q, lines) {
    } else if n :| Writes(w, u, q, n) {
    }
  }

  lemma LongerRun(job: MrJob, started: seq<nat>, run: seq<World>, u: World, q: nat)
    requires IsRun(job, started, run) && Step(job, run[|run| - 1], u, q)
    ensures IsRun(job, started, run + [u])
  {
    var more := run + [u];
    forall k | 0 < k < |more| ensures Follows(job, more[k - 1], more[k]) {
      if k < |run| {
        assert Follows(job, run[k - 1], run[k]);
      }
    }
  }

  /** The others are where they were. */
  ghost predicate OthersSame(w: World, u: World, q: nat) {
    && |u.stages| == |w.stages|
    && forall v: nat :: v < |w.stages| && v != q ==> u.stages[v] == w.stages[v]
  }

  /** A worker by itself can finish what it is at. */
  lemma {:induction false} TaskRuns(job: MrJob, started: seq<nat>, run: seq<World>, q: nat) returns (more: seq<World>)
    requires ValidJob(job) && IsRun(job, started, run) && Working(run[|run| - 1], q)
    ensures IsRun(job, started, more)
    ensures var w, u := run[|run| - 1], more[|more| - 1];
            u.sys == w.sys && OthersSame(w, u, q) && u.stages[q] == Ran
    decreases StageRank(run[|run| - 1].stages[q]), PartsLeft(job, run[|run| - 1].stages[q]),
              PairsLeft(job, run[|run| - 1].stages[q])
  {
    var w := run[|run| - 1];
    RunInv(job, started, run);
    var u := GoesOn(job, w, q);
    WorksNearer(job, w, u, q);
    LongerRun(job, started, run, u, q);
    more := run + [u];
    if u.stages[q] != Ran {
      more := TaskRuns(job, started, more, q);
    }
  }

  /** Every turn of the loop can be taken in the whole system. */
  lemma TurnRuns(job: MrJob, started: seq<nat>, run: seq<World>, q: nat) returns (more: seq<World>)
    requires ValidJob(job) && IsRun(job, started, run) && IsWorker(run[|run| - 1].sys, q)
    ensures IsRun(job, started, more)
    ensures var w, u := run[|run| - 1], more[|more| - 1];
            u.sys == Turn(w.sys, q) && OthersSame(w, u, q) && q < |u.stages| && u.stages[q] == Got
  {
    RunInv(job, started, run);
    var w := run[|run| - 1];
    more := run;
    if Working(w, q) {
      more := TaskRuns(job, started, run, q);
      RunInv(job, started, more);
    }
    var v := more[|more| - 1];
    var u := v.(sys := Turn(v.sys, q), stages := v.stages[q := Got]);
    assert Calls(v, u, q);
    LongerRun(job, started, more, u, q);
    more := more + [u];
  }

  /** And so can every schedule. */
  lemma {:induction false} ScheduleRuns(job: MrJob, started: seq<nat>, run: seq<World>, schedule: seq<nat>)
    returns (more: seq<World>)
    requires ValidJob(job) && IsRun(job, started, run) && Scheduled(run[|run| - 1].sys, schedule)
    ensures IsRun(job, started, more) && more[|more| - 1].sys == Play(run[|run| - 1].sys, schedule)
    decreases |schedule|
  {
    more := run;
    if schedule != [] {
      more := TurnRuns(job, started, run, schedule[0]);
      more := ScheduleRuns(job, started, more, schedule[1..]);
    }
  }

  // ---------------------------------------------------------------- reading the files too early

  /** The coordinator has finished, and not all files are right. */
  ghost predicate TooEarly(job: MrJob, started: seq<nat>, run: seq<World>)
    requires ValidJob(job)
  {
    && IsRun(job, started, run)
    && run[|run| - 1].sys.coord.phase == FinishedPhase
    && !AllRight(job, run[|run| - 1].out)
  }

  lemma {:induction false} OneWorkerRun(job: MrJob, started: seq<nat>, run: seq<World>)
    requires ValidJob(job) && IsRun(job, started, run) && |started| == 1
    ensures |run[|run| - 1].sys.loops| == 1 && Lone(run[|run| - 1].sys, 0)
  {
    var n := |run| - 1;
    if n > 0 {
      OneWorkerRun(job, started, run[..n]);
      RunInv(job, started, run[..n]);
      assert Follows(job, run[n - 1], run[n]);
      var q: nat :| Step(job, run[n - 1], run[n], q);
      if Calls(run[n - 1], run[n], q) {
        LoneTurn(job.files, job.nReduce, run[n - 1].sys, q);
      }
    }
  }

  lemma {:induction false} RunWorkers(job: MrJob, started: seq<nat>, run: seq<World>)
    requires IsRun(job, started, run)
    ensures |run[|run| - 1].sys.loops| == |started|
  {
    var n := |run| - 1;
    if n > 0 {
      RunWorkers(job, started, run[..n]);
      assert Follows(job, run[n - 1], run[n]);
      var q: nat :| Step(job, run[n - 1], run[n], q);
    }
  }

  /** It takes a second worker and a line in the first partition. */
  lemma NotTooEarly(job: MrJob, started: seq<nat>, run: seq<World>)
    requires ValidJob(job) && TooEarly(job, started, run)
    ensures |started| >= 2 && PairsAt(job, 0) != []
  {
    var w := run[|run| - 1];
    RunInv(job, started, run);
    FinishedFiles(job, w);
    var q: nat :| WritesTo(w, q, 0);
    LateWriters(job, w, q, 0);
    RunWorkers(job, started, run);
    if |started| == 1 {
      OneWorkerRun(job, started, run);
    }
    if PairsAt(job, 0) == [] {
      NoPairsNoText(job.reducef, PairsAt(job, 0));
      assert FileAt(job, w, 0);
      assert AllRight(job, w.out);
    }
  }

  /** The work left when the only task in progress is the last reduce task. */
  lemma LastReduce(files: seq<string>, nReduce: int, s: State)
    requires Runs.Inv(files, nReduce, s) && files != [] && nReduce >= 1 && Remaining(s) == 1
    ensures s.phase == ReducePhase && !SomeWaiting(s.reduceTasks)
  {
    FinishedMeaning(files, nReduce, s);
    if s.phase == ReducePhase {
      if i :| 0 <= i < |s.reduceTasks| && s.reduceTasks[i].status == Waiting {
        PointsAtLeast(s.reduceTasks, i);
      }
    }
  }

  /** One worker is about to report the last task. */
  lemma AboutToReport(files: seq<string>, nReduce: int, started: seq<nat>) returns (schedule: seq<nat>)
    requires files != [] && nReduce >= 1 && started != []
    ensures Scheduled(Begin(files, nReduce, started), schedule)
    ensures var s := Play(Begin(files, nReduce, started), schedule);
            && Good(files, nReduce, s) && Lone(s, 0) && Remaining(s.coord) == 1
            && s.loops[0].Reporting? && s.loops[0].reply.available
            && s.coord.phase == ReducePhase && !SomeWaiting(s.coord.reduceTasks)
  {
    var s := Begin(files, nReduce, started);
    BeginGood(files, nReduce, started);
    AllRemains(files, nReduce);
    schedule := LoneReaches(files, nReduce, s, 0, 1);
    var u := Play(s, schedule);
    assert Runs.Inv(files, nReduce, u.coord) by {
      assert Inside(0);
    }
    LastReduce(files, nReduce, u.coord);
    LoneUseful(files, nReduce, u, 0);
    if u.loops[0].Holding? {
      TurnGood(files, nReduce, u, 0);
      LoneTurn(files, nReduce, u, 0);
      PlayMore(s, schedule, [0]);
      assert Play(u, [0]) == Turn(u, 0) by {
        assert [0][1..] == [];
      }
      schedule := schedule + [0];
    }
  }

  /** A second worker comes, finds no task, and has emptied the first output file. */
  lemma Emptied(job: MrJob, started: seq<nat>, run: seq<World>) returns (more: seq<World>)
    requires ValidJob(job) && IsRun(job, started, run) && |started| >= 2
    requires var s := run[|run| - 1].sys;
             s.coord.phase == ReducePhase && !SomeWaiting(s.coord.reduceTasks) && |s.loops| >= 2 && s.loops[1] == New
    ensures IsRun(job, started, more)
    ensures var s, w := run[|run| - 1].sys, more[|more| - 1];
            && w.sys.names == s.names && |w.sys.loops| == |s.loops| == |w.stages| && w.sys.loops[0] == s.loops[0]
            && Runs.Idle(s.coord, w.sys.coord)
            && OutName(0) in w.out && w.out[OutName(0)] == ""
  {
    var s := run[|run| - 1].sys;
    RunInv(job, started, run);
    var run1 := TurnRuns(job, started, run, 1);
    var s1 := run1[|run1| - 1].sys;
    RunInv(job, started, run1);
    AskedInVain(job.files, job.nReduce, s1, 1);
    var run2 := TurnRuns(job, started, run1, 1);
    var w2 := run2[|run2| - 1];
    more := EmptiesFile(job, started, run2, 1);
  }

  lemma EmptiesFile(job: MrJob, started: seq<nat>, run: seq<World>, q: nat) returns (more: seq<World>)
    requires ValidJob(job) && IsRun(job, started, run)
    requires var w := run[|run| - 1];
             && IsWorker(w.sys, q) && |w.stages| == |w.sys.loops| && w.sys.loops[q].Holding? && w.stages[q] == Got
             && w.sys.loops[q].reply.phase == ReducePhase && w.sys.loops[q].reply.partition == 0
    ensures IsRun(job, started, more) && more[|more| - 1].sys == run[|run| - 1].sys
    ensures |more[|more| - 1].stages| == |run[|run| - 1].stages|
    ensures OutName(0) in more[|more| - 1].out && more[|more| - 1].out[OutName(0)] == ""
  {
    var w := run[|run| - 1];
    var lines := ReducedExists(job.reducef, w.inter, 0);
    var u := With(w, q, Read(Flat(lines)));
    assert ReduceReads(job, w, u, q, lines);
    LongerRun(job, started, run, u, q);
    var v := With(u, q, Writing(Flat(lines), 0)).(out := u.out[OutName(0) := ""]);
    assert Creates(u, v, q);
    LongerRun(job, started, run + [u], v, q);
    more := run + [u] + [v];
  }

  /** Then the first worker reports: the job is finished, and the first output file is empty. */
  lemma EmptyFile(job: MrJob, started: seq<nat>) returns (run: seq<World>)
    requires ValidJob(job) && |started| >= 2 && PairsAt(job, 0) != []
    ensures TooEarly(job, started, run)
  {
    var schedule := AboutToReport(job.files, job.nReduce, started);
    var opening := [Opening(job, started)];
    assert IsRun(job, started, opening);
    var run1 := ScheduleRuns(job, started, opening, schedule);
    var s1 := run1[|run1| - 1].sys;
    var run2 := Emptied(job, started, run1);
    var w := run2[|run2| - 1];
    RunInv(job, started, run2);
    var u := w.(sys := Turn(w.sys, 0), stages := w.stages[0 := Got]);
    assert Calls(w, u, 0);
    LongerRun(job, started, run2, u, 0);
    run := run2 + [u];
    LastReport(job, w.sys);
    NoPairsNoText(job.reducef, PairsAt(job, 0));
    assert u.out[OutName(0)] != TextAt(job, 0);
  }

  lemma LastReport(job: MrJob, s: System)
    requires ValidJob(job) && Good(job.files, job.nReduce, s) && IsWorker(s, 0) && Remaining(s.coord) == 1
    requires s.loops[0].Reporting? && s.loops[0].reply.available
    ensures Turn(s, 0).coord.phase == FinishedPhase
  {
    var i := ReportAccepted(job.files, job.nReduce, s, 0);
    TurnProgress(job.files, job.nReduce, s, 0);
    TurnGood(job.files, job.nReduce, s, 0);
    FinishedIff(job.files, job.nReduce, Turn(s, 0));
  }

  /** The files are right in every run as soon as the coordinator has finished, exactly when there is at
      most one worker or the first partition is empty. */
  lemma RightAtOnce(job: MrJob, started: seq<nat>)
    requires ValidJob(job)
    ensures (forall run :: !TooEarly(job, started, run)) <==> |started| <= 1 || PairsAt(job, 0) == []
  {
    if |started| >= 2 && PairsAt(job, 0) != [] {
      var run := EmptyFile(job, started);
    } else {
      forall run ensures !TooEarly(job, started, run) {
        if TooEarly(job, started, run) {
          NotTooEarly(job, started, run);
        }
      }
    }
  }

  // ---------------------------------------------------------------- every fair run completes the job

  /** A run that never ends; whose turn it is does not matter as long as every worker gets one again and again. */
  ghost predicate FairRun(job: MrJob, started: seq<nat>, run: nat -> World, who: nat -> nat) {
    && run(0) == Opening(job, started)
    && (forall k: nat {:trigger StepAt(job, run, who, k)} :: StepAt(job, run, who, k))
    && (forall q: nat, k: nat {:trigger ComesUp(who, q, k)} :: q < |started| ==> ComesUp(who, q, k))
  }

  ghost predicate StepAt(job: MrJob, run: nat -> World, who: nat -> nat, k: nat) {
    Step(job, run(k), run(k + 1), who(k))
  }

  /** Worker `q` gets a turn at time `k` or later. */
  ghost predicate ComesUp(who: nat -> nat, q: nat, k: nat) {
    exists m: nat :: k <= m && who(m) == q
  }

  lemma {:induction false} FairInv(job: MrJob, started: seq<nat>, run: nat -> World, who: nat -> nat, k: nat)
    requires ValidJob(job) && FairRun(job, started, run, who)
    ensures Inv(job, run(k)) && |run(k).sys.loops| == |started|
  {
    if k == 0 {
      OpeningInv(job, started);
    } else {
      FairInv(job, started, run, who, k - 1);
      assert StepAt(job, run, who, k - 1);
      StepInv(job, run(k - 1), run(k), who(k - 1));
    }
  }

  /** The next turn of a worker. */
  lemma NextTurn(who: nat -> nat, q: nat, k: nat) returns (j: nat)
    requires ComesUp(who, q, k)
    ensures k <= j && who(j) == q && forall i: nat :: k <= i < j ==> who(i) != q
  {
    var m: nat :| k <= m && who(m) == q;
    j := FirstTurn(who, q, k, m);
  }

  lemma {:induction false} FirstTurn(who: nat -> nat, q: nat, k: nat, m: nat) returns (j: nat)
    requires k <= m && who(m) == q
    ensures k <= j <= m && who(j) == q && forall i: nat :: k <= i < j ==> who(i) != q
    decreases m - k
  {
    if who(k) == q {
      j := k;
    } else {
      j := FirstTurn(who, q, k + 1, m);
    }
  }

  /** A step of the whole system is one of the loops, or leaves them alone. */
  lemma StepLoops(job: MrJob, w: World, u: World, q: nat)
    requires ValidJob(job) && Inv(job, w) && Step(job, w, u, q)
    ensures IsWorker(w.sys, q) && |u.stages| == |w.stages| == |w.sys.loops| == |u.sys.loops|
    ensures if Calls(w, u, q) then u.sys == Turn(w.sys, q)
            else u.sys == w.sys && Nearer(job, u.stages[q], w.stages[q])
    ensures forall v: nat :: v < |w.stages| && v != q ==>
              u.stages[v] == w.stages[v] && u.sys.loops[v] == w.sys.loops[v]
  {
    if !Calls(w, u, q) {
      WorksNearer(job, w, u, q);
    }
  }

  /** The same loop and the same stage. */
  predicate SamePlace(w: World, u: World, q: nat) {
    && q < |w.sys.loops| == |w.stages| && q < |u.sys.loops| == |u.stages|
    && u.sys.loops[q] == w.sys.loops[q] && u.stages[q] == w.stages[q]
  }

  lemma OthersStep(job: MrJob, w: World, u: World, v: nat, q: nat)
    requires ValidJob(job) && Inv(job, w) && Step(job, w, u, v) && Useful(w.sys, q) && v != q
    ensures Remaining(u.sys.coord) < Remaining(w.sys.coord)
            || (Remaining(u.sys.coord) == Remaining(w.sys.coord) && Useful(u.sys, q) && SamePlace(w, u, q))
  {
    StepLoops(job, w, u, v);
    if Calls(w, u, v) {
      TurnProgress(job.files, job.nReduce, w.sys, v);
      OtherTurn(job.files, job.nReduce, w.sys, q, v);
    }
  }

  /** Until its next turn a useful worker stays where it is, unless somebody else makes progress. */
  lemma {:induction false} OthersRun(job: MrJob, started: seq<nat>, run: nat -> World, who: nat -> nat, q: nat, k: nat,
        j: nat)
    returns (m: nat)
    requires ValidJob(job) && FairRun(job, started, run, who) && k <= j
    requires Useful(run(k).sys, q) && forall i: nat :: k <= i < j ==> who(i) != q
    ensures Remaining(run(m).sys.coord) < Remaining(run(k).sys.coord)
            || (m == j && Remaining(run(j).sys.coord) == Remaining(run(k).sys.coord)
                && Useful(run(j).sys, q) && SamePlace(run(k), run(j), q))
    ensures k <= m
    decreases j - k
  {
    FairInv(job, started, run, who, k);
    if k == j {
      m := k;
    } else {
      assert StepAt(job, run, who, k);
      OthersStep(job, run(k), run(k + 1), who(k), q);
      if Remaining(run(k + 1).sys.coord) < Remaining(run(k).sys.coord) {
        m := k + 1;
      } else {
        m := OthersRun(job, started, run, who, q, k + 1, j);
      }
    }
  }

  lemma OwnStep(job: MrJob, w: World, u: World, q: nat)
    requires ValidJob(job) && Inv(job, w) && Step(job, w, u, q) && Useful(w.sys, q)
    ensures Remaining(u.sys.coord) < Remaining(w.sys.coord)
            || (Remaining(u.sys.coord) == Remaining(w.sys.coord) && Useful(u.sys, q) && Closer(job, w, u, q))
  {
    StepLoops(job, w, u, q);
    if Calls(w, u, q) {
      TurnProgress(job.files, job.nReduce, w.sys, q);
      UsefulTurn(job.files, job.nReduce, w.sys, q);
    }
  }

  /** Closer to the next call that counts. */
  predicate Closer(job: MrJob, w: World, u: World, q: nat) {
    && q < |w.sys.loops| == |w.stages| && q < |u.sys.loops| == |u.stages|
    && (|| Distance(u.sys.loops[q]) < Distance(w.sys.loops[q])
        || (u.sys.loops[q] == w.sys.loops[q] && Nearer(job, u.stages[q], w.stages[q])))
  }

  /** A useful worker makes progress, or somebody else does before. */
  lemma {:induction false} Advances(job: MrJob, started: seq<nat>, run: nat -> World, who: nat -> nat, q: nat, k: nat)
    returns (m: nat)
    requires ValidJob(job) && FairRun(job, started, run, who) && Useful(run(k).sys, q)
    requires q < |started| && q < |run(k).stages|
    ensures Remaining(run(m).sys.coord) < Remaining(run(k).sys.coord)
    decreases Distance(run(k).sys.loops[q]), StageRank(run(k).stages[q]), PartsLeft(job, run(k).stages[q]),
              PairsLeft(job, run(k).stages[q])
  {
    assert ComesUp(who, q, k);
    var j := NextTurn(who, q, k);
    m := OthersRun(job, started, run, who, q, k, j);
    if Remaining(run(m).sys.coord) >= Remaining(run(k).sys.coord) {
      OwnTurn(job, started, run, who, q, j);
      if Remaining(run(j + 1).sys.coord) < Remaining(run(j).sys.coord) {
        m := j + 1;
      } else {
        m := Advances(job, started, run, who, q, j + 1);
      }
    }
  }

  lemma OwnTurn(job: MrJob, started: seq<nat>, run: nat -> World, who: nat -> nat, q: nat, j: nat)
    requires ValidJob(job) && FairRun(job, started, run, who) && Useful(run(j).sys, q) && who(j) == q
    ensures Remaining(run(j + 1).sys.coord) < Remaining(run(j).sys.coord)
            || (Remaining(run(j + 1).sys.coord) == Remaining(run(j).sys.coord)
                && Useful(run(j + 1).sys, q) && Closer(job, run(j), run(j + 1), q))
  {
    FairInv(job, started, run, who, j);
    assert StepAt(job, run, who, j);
    OwnStep(job, run(j), run(j + 1), q);
  }

  lemma {:induction false} Finishes(job: MrJob, started: seq<nat>, run: nat -> World, who: nat -> nat, k: nat)
    returns (m: nat)
    requires ValidJob(job) && FairRun(job, started, run, who) && started != []
    ensures run(m).sys.coord.phase == FinishedPhase
    decreases Remaining(run(k).sys.coord)
  {
    FairInv(job, started, run, who, k);
    if run(k).sys.coord.phase == FinishedPhase {
      m := k;
    } else {
      var q := SomebodyUseful(job.files, job.nReduce, run(k).sys);
      var next := Advances(job, started, run, who, q, k);
      m := Finishes(job, started, run, who, next);
    }
  }

  /** After the end every step of a worker brings it closer to quitting. */
  lemma FinishedStep(job: MrJob, w: World, u: World, q: nat)
    requires ValidJob(job) && Inv(job, w) && Step(job, w, u, q) && w.sys.coord.phase == FinishedPhase
    ensures u.sys.coord.phase == FinishedPhase
    ensures q < |w.sys.loops| == |u.sys.loops|
    ensures w.sys.loops[q] == Quit ==> u.sys.loops[q] == Quit
    ensures w.sys.loops[q] != Quit ==> Closer(job, w, u, q)
    ensures forall v: nat :: v < |w.sys.loops| && v != q ==> SamePlace(w, u, v)
  {
    StepLoops(job, w, u, q);
    if Calls(w, u, q) {
      FinishedTurn(job.files, job.nReduce, w.sys, q);
    }
  }

  lemma {:induction false} StaysFinished(job: MrJob, started: seq<nat>, run: nat -> World, who: nat -> nat, k: nat,
        m: nat)
    requires ValidJob(job) && FairRun(job, started, run, who) && k <= m && run(k).sys.coord.phase == FinishedPhase
    ensures run(m).sys.coord.phase == FinishedPhase && |run(k).sys.loops| == |run(m).sys.loops| == |started|
    ensures forall q: nat :: q < |started| && run(k).sys.loops[q] == Quit ==> run(m).sys.loops[q] == Quit
    decreases m - k
  {
    FairInv(job, started, run, who, k);
    if k < m {
      assert StepAt(job, run, who, k);
      FinishedStep(job, run(k), run(k + 1), who(k));
      StaysFinished(job, started, run, who, k + 1, m);
    }
  }

  /** Until its next turn a worker stays where it is. */
  lemma {:induction false} StaysThere(job: MrJob, started: seq<nat>, run: nat -> World, who: nat -> nat, q: nat, k: nat,
        j: nat)
    requires ValidJob(job) && FairRun(job, started, run, who) && k <= j && q < |started|
    requires run(k).sys.coord.phase == FinishedPhase && forall i: nat :: k <= i < j ==> who(i) != q
    ensures run(j).sys.coord.phase == FinishedPhase && SamePlace(run(k), run(j), q)
    decreases j - k
  {
    FairInv(job, started, run, who, k);
    if k < j {
      assert StepAt(job, run, who, k);
      FinishedStep(job, run(k), run(k + 1), who(k));
      StaysThere(job, started, run, who, q, k + 1, j);
    }
  }

  lemma {:induction false} Quits(job: MrJob, started: seq<nat>, run: nat -> World, who: nat -> nat, q: nat, k: nat)
    returns (m: nat)
    requires ValidJob(job) && FairRun(job, started, run, who) && q < |started|
    requires run(k).sys.coord.phase == FinishedPhase && q < |run(k).sys.loops| == |run(k).stages|
    ensures k <= m && run(m).sys.coord.phase == FinishedPhase
    ensures q < |run(m).sys.loops| && run(m).sys.loops[q] == Quit
    decreases Distance(run(k).sys.loops[q]), StageRank(run(k).stages[q]), PartsLeft(job, run(k).stages[q]),
              PairsLeft(job, run(k).stages[q])
  {
    m := k;
    if run(k).sys.loops[q] != Quit {
      assert ComesUp(who, q, k);
      var j := NextTurn(who, q, k);
      StaysThere(job, started, run, who, q, k, j);
      LastTurns(job, started, run, who, q, j);
      m := Quits(job, started, run, who, q, j + 1);
    }
  }

  lemma LastTurns(job: MrJob, started: seq<nat>, run: nat -> World, who: nat -> nat, q: nat, j: nat)
    requires ValidJob(job) && FairRun(job, started, run, who) && who(j) == q
    requires run(j).sys.coord.phase == FinishedPhase && q < |run(j).sys.loops| && run(j).sys.loops[q] != Quit
    ensures run(j + 1).sys.coord.phase == FinishedPhase && Closer(job, run(j), run(j + 1), q)
  {
    FairInv(job, started, run, who, j);
    assert StepAt(job, run, who, j);
    FinishedStep(job, run(j), run(j + 1), q);
  }

  lemma {:induction false} AllQuit(job: MrJob, started: seq<nat>, run: nat -> World, who: nat -> nat, k: nat, n: nat)
    returns (m: nat)
    requires ValidJob(job) && FairRun(job, started, run, who) && run(k).sys.coord.phase == FinishedPhase
    requires n <= |started|
    ensures k <= m && run(m).sys.coord.phase == FinishedPhase && |run(m).sys.loops| == |started|
    ensures forall q: nat :: q < n ==> run(m).sys.loops[q] == Quit
    decreases n
  {
    FairInv(job, started, run, who, k);
    m := k;
    if n > 0 {
      var before := AllQuit(job, started, run, who, k, n - 1);
      FairInv(job, started, run, who, before);
      m := Quits(job, started, run, who, n - 1, before);
      StaysFinished(job, started, run, who, before, m);
    }
  }

  /** The coordinator has finished, every worker has quit, and the files are right. */
  ghost predicate Over(job: MrJob, w: World)
    requires ValidJob(job)
  {
    && w.sys.coord.phase == FinishedPhase
    && (forall q: nat :: q < |w.sys.loops| ==> w.sys.loops[q] == Quit)
    && AllRight(job, w.out)
  }

  ghost predicate OverFrom(job: MrJob, run: nat -> World, end: nat)
    requires ValidJob(job)
  {
    forall k: nat :: k >= end ==> Over(job, run(k))
  }

  /** In every fair run of any workers, none of which crashes, there comes a time from which on the job is over. */
  lemma JobCompletes(job: MrJob, started: seq<nat>, run: nat -> World, who: nat -> nat)
    requires ValidJob(job) && FairRun(job, started, run, who) && started != []
    ensures exists end: nat :: OverFrom(job, run, end)
  {
    var m := Finishes(job, started, run, who, 0);
    var end := AllQuit(job, started, run, who, m, |started|);
    forall k: nat | k >= end ensures Over(job, run(k)) {
      StaysFinished(job, started, run, who, end, k);
      FairInv(job, started, run, who, k);
      FinishedFiles(job, run(k));
    }
    assert OverFrom(job, run, end);
  }
}
