/** The whole system: coordinator, worker loops, and files that are written piece by piece, in any
    interleaving. A worker that crashes takes no more steps. */
module MapReduce {
  import opened Jobs
  import opened KeyValues
  import opened Outputs
  import opened Tasks
  import opened Workers
  import opened WorkerLoops
  import Runs = CoordinatorRuns

  /** How far a worker with a reply in hand is: it has just got it; it writes pair `j` of partition `p`;
      it has read, sorted and reduced a partition; it has created the output file and written it up to
      an offset; it is done with the files. */
  datatype Stage =
    | Got
    | Mapping(kva: seq<KeyValue>, p: nat, j: nat)
    | Read(text: string)
    | Writing(text: string, offset: nat)
    | Ran

  datatype World = World(sys: System, stages: seq<Stage>, inter: Files<KeyValue>, out: map<string, string>)

  function Opening(job: MrJob, started: seq<nat>): World {
    World(Begin(job.files, job.nReduce, started), seq(|started|, _ => Got), map[], map[])
  }

  // ---------------------------------------------------------------- steps

  /** Worker `q` has a reply in hand, and its step changes nothing but its own stage and files. */
  ghost predicate OnlyStage(w: World, u: World, q: nat) {
    && IsWorker(w.sys, q) && |w.stages| == |w.sys.loops| && w.sys.loops[q].Holding?
    && u.sys == w.sys && |u.stages| == |w.stages| && u.stages == w.stages[q := u.stages[q]]
  }

  /** The mapper reads its file; a map function may list its pairs in any order. */
  ghost predicate MapReads(job: MrJob, w: World, u: World, q: nat, kva: seq<KeyValue>) {
    && OnlyStage(w, u, q) && w.stages[q] == Got
    && var reply := w.sys.loops[q].reply;
       && reply.phase == MapPhase && reply.filePath in job.input
       && multiset(kva) == multiset(job.mapf(reply.filePath, job.input[reply.filePath]))
       && u.stages[q] == Mapping(kva, 0, 0)
       && u.inter == w.inter && u.out == w.out
  }

  /** It creates the file of a partition or adds a pair to it. */
  ghost predicate MapWrites(job: MrJob, w: World, u: World, q: nat) {
    && OnlyStage(w, u, q) && w.stages[q].Mapping?
    && var reply, kva, p, j := w.sys.loops[q].reply, w.stages[q].kva, w.stages[q].p, w.stages[q].j;
       && p < reply.nReduce
       && var part := PartOf(kva, job.hash, reply.nReduce, p);
          && j <= |part|
          && u.inter == Encoded(w.inter, reply.taskId, part, p, j)
          && u.stages[q] == (if j < |part| then Mapping(kva, p, j + 1) else Mapping(kva, p + 1, 0))
          && u.out == w.out
  }

  ghost predicate MapEnds(w: World, u: World, q: nat) {
    && OnlyStage(w, u, q) && w.stages[q].Mapping? && w.stages[q].p >= w.sys.loops[q].reply.nReduce
    && u.stages[q] == Ran
    && u.inter == w.inter && u.out == w.out
  }

  /** The reducer reads, sorts and reduces its partition, whether it was given a task or not. */
  ghost predicate ReduceReads(job: MrJob, w: World, u: World, q: nat, lines: seq<string>) {
    && OnlyStage(w, u, q) && w.stages[q] == Got
    && var reply := w.sys.loops[q].reply;
       && reply.phase == ReducePhase && Reduced(job.reducef, w.inter, reply.partition, lines)
       && u.stages[q] == Read(Flat(lines))
       && u.inter == w.inter && u.out == w.out
  }

  /** It creates the output file, which empties it if it is there. */
  ghost predicate Creates(w: World, u: World, q: nat) {
    && OnlyStage(w, u, q) && w.stages[q].Read?
    && u.stages[q] == Writing(w.stages[q].text, 0)
    && u.inter == w.inter && u.out == w.out[OutName(w.sys.loops[q].reply.partition) := ""]
  }

  /** It writes the next `n` characters, from its own offset on. */
  ghost predicate Writes(w: World, u: World, q: nat, n: nat) {
    && OnlyStage(w, u, q) && w.stages[q].Writing?
    && var text, offset, name := w.stages[q].text, w.stages[q].offset, OutName(w.sys.loops[q].reply.partition);
       && 0 < n && offset + n <= |text| && name in w.out
       && u.stages[q] == Writing(text, offset + n)
       && u.inter == w.inter && u.out == w.out[name := WriteAt(w.out[name], offset, text[offset..offset + n])]
  }

  ghost predicate ReduceEnds(w: World, u: World, q: nat) {
    && OnlyStage(w, u, q) && w.stages[q].Writing? && w.stages[q].offset == |w.stages[q].text|
    && u.stages[q] == Ran
    && u.inter == w.inter && u.out == w.out
  }

  ghost predicate Works(job: MrJob, w: World, u: World, q: nat) {
    || (exists kva :: MapReads(job, w, u, q, kva))
    || MapWrites(job, w, u, q)
    || MapEnds(w, u, q)
    || (exists lines :: ReduceReads(job, w, u, q, lines))
    || Creates(w, u, q)
    || (exists n :: Writes(w, u, q, n))
    || ReduceEnds(w, u, q)
  }

  /** A worker in the middle of its task. */
  predicate Working(w: World, q: nat) {
    IsWorker(w.sys, q) && |w.stages| == |w.sys.loops| && w.sys.loops[q].Holding? && w.stages[q] != Ran
  }

  /** Any other step is one of the worker's loop. */
  ghost predicate Calls(w: World, u: World, q: nat) {
    && IsWorker(w.sys, q) && |w.stages| == |w.sys.loops| && !Working(w, q)
    && u == w.(sys := Turn(w.sys, q), stages := w.stages[q := Got])
  }

  ghost predicate Step(job: MrJob, w: World, u: World, q: nat) {
    Calls(w, u, q) || Works(job, w, u, q)
  }

  ghost predicate IsRun(job: MrJob, started: seq<nat>, run: seq<World>) {
    && run != []
    && run[0] == Opening(job, started)
    && forall k :: 0 < k < |run| ==> Follows(job, run[k - 1], run[k])
  }

  ghost predicate Follows(job: MrJob, w: World, u: World) {
    exists q: nat :: Step(job, w, u, q)
  }

  // ---------------------------------------------------------------- the invariant

  ghost predicate IsMapReply(job: MrJob, r: RequestReply, i: nat) {
    && i < |job.files| && r.available
    && r.taskId == TaskName(i) && r.taskType == MapTask && r.filePath == job.files[i] && r.nReduce == job.nReduce
  }

  /** What a reply says was true when it was given, and stays true. */
  ghost predicate ReplyOk(job: MrJob, s: State, r: RequestReply) {
    && r.phase in {MapPhase, ReducePhase}
    && (r.phase == MapPhase ==> exists i: nat :: IsMapReply(job, r, i))
    && (r.phase == ReducePhase ==>
          && AllDone(s.mapTasks) && r.partition < job.nReduce
          && (if r.available then r.taskId == TaskName(r.partition) && r.taskType == ReduceTask else r.partition == 0))
  }

  /** The file of partition `p` is there with these pairs. */
  ghost predicate Holds(inter: Files<KeyValue>, taskId: string, p: nat, pairs: seq<KeyValue>) {
    var name := IntermediateName(taskId, p);
    name in inter && inter[name] == pairs
  }

  /** A mapper has written all partitions before `p` and `j` times to partition `p`. */
  ghost predicate MappedUpTo(job: MrJob, inter: Files<KeyValue>, r: RequestReply, kva: seq<KeyValue>, p: nat, j: nat)
    requires job.nReduce > 0
  {
    && r.filePath in job.input && multiset(kva) == multiset(job.mapf(r.filePath, job.input[r.filePath]))
    && p <= job.nReduce
    && (forall b: nat :: b < p ==> Holds(inter, r.taskId, b, PartOf(kva, job.hash, job.nReduce, b)))
    && (if p == job.nReduce then j == 0
        else
          && j <= |PartOf(kva, job.hash, job.nReduce, p)|
          && (j > 0 ==> Holds(inter, r.taskId, p, PartOf(kva, job.hash, job.nReduce, p)[..j - 1])))
  }

  ghost predicate MapRan(job: MrJob, inter: Files<KeyValue>, r: RequestReply)
    requires ValidJob(job)
  {
    forall i: nat :: IsMapReply(job, r, i) ==> Complete(job, inter, i)
  }

  ghost predicate StageOk(job: MrJob, w: World, r: RequestReply, stage: Stage)
    requires ValidJob(job)
  {
    match stage
    case Got => true
    case Mapping(kva, p, j) => r.phase == MapPhase && MappedUpTo(job, w.inter, r, kva, p, j)
    case Read(text) => r.phase == ReducePhase && text == TextAt(job, r.partition)
    case Writing(text, offset) =>
      r.phase == ReducePhase && text == TextAt(job, r.partition) && offset <= |text| && OutName(r.partition) in w.out
    case Ran =>
      && (r.phase == MapPhase ==> MapRan(job, w.inter, r))
      && (r.phase == ReducePhase ==> OutName(r.partition) in w.out)
  }

  /** What worker `q` has in hand, and what it has made of it so far. */
  ghost predicate WorkerOk(job: MrJob, w: World, q: nat)
    requires ValidJob(job) && IsWorker(w.sys, q) && |w.stages| == |w.sys.loops|
  {
    match w.sys.loops[q]
    case Holding(r) => ReplyOk(job, w.sys.coord, r) && StageOk(job, w, r, w.stages[q])
    case Reporting(r) => ReplyOk(job, w.sys.coord, r) && StageOk(job, w, r, Ran)
    case _ => true
  }

  ghost predicate WorkersOk(job: MrJob, w: World)
    requires ValidJob(job) && |w.stages| == |w.sys.loops| == |w.sys.names|
  {
    forall q: nat {:trigger WorkerOk(job, w, q)} :: IsWorker(w.sys, q) ==> WorkerOk(job, w, q)
  }

  /** Intermediate files belong to tasks, and those of a task that is done are complete. */
  ghost predicate InterOk(job: MrJob, s: State, inter: Files<KeyValue>)
    requires ValidJob(job)
  {
    && |s.mapTasks| == |job.files|
    && Named(job, inter)
    && forall i: nat {:trigger CompleteIfDone(job, s, inter, i)} :: i < |job.files| ==> CompleteIfDone(job, s, inter, i)
  }

  ghost predicate CompleteIfDone(job: MrJob, s: State, inter: Files<KeyValue>, i: nat)
    requires ValidJob(job) && i < |job.files| == |s.mapTasks|
  {
    s.mapTasks[i].status == Done ==> Complete(job, inter, i)
  }

  /** Worker `q` is writing the file of partition `p`. */
  predicate WritesTo(w: World, q: nat, p: nat) {
    && IsWorker(w.sys, q) && |w.stages| == |w.sys.loops|
    && w.sys.loops[q].Holding? && w.sys.loops[q].reply.partition == p && w.stages[q].Writing?
  }

  /** Worker `q` will still write position `x` of the file of partition `p`. */
  predicate Covers(w: World, q: nat, p: nat, x: nat) {
    WritesTo(w, q, p) && w.stages[q].offset <= x
  }

  ghost predicate Covered(w: World, p: nat, x: nat) {
    exists q: nat :: Covers(w, q, p, x)
  }

  ghost predicate RightAt(file: string, text: string, x: nat) {
    x < |file| && x < |text| && file[x] == text[x]
  }

  /** Every position of an output file is right, or somebody will still write it. */
  ghost predicate FileOk(w: World, p: nat, file: string, text: string) {
    && |file| <= |text|
    && forall x: nat {:trigger RightAt(file, text, x)} :: x < |text| ==> RightAt(file, text, x) || Covered(w, p, x)
  }

  ghost predicate FileAt(job: MrJob, w: World, p: nat)
    requires ValidJob(job)
  {
    OutName(p) in w.out ==> FileOk(w, p, w.out[OutName(p)], TextAt(job, p))
  }

  ghost predicate OutOk(job: MrJob, w: World)
    requires ValidJob(job)
  {
    && (forall name :: name in w.out ==> exists p: nat :: p < job.nReduce && name == OutName(p))
    && (forall p: nat {:trigger FileAt(job, w, p)} :: p < job.nReduce ==> FileAt(job, w, p))
  }

  ghost predicate ThereIfDone(s: State, out: map<string, string>, p: nat)
    requires p < |s.reduceTasks|
  {
    s.reduceTasks[p].status == Done ==> OutName(p) in out
  }

  ghost predicate DoneOk(s: State, out: map<string, string>) {
    forall p: nat {:trigger ThereIfDone(s, out, p)} :: p < |s.reduceTasks| ==> ThereIfDone(s, out, p)
  }

  ghost predicate Inv(job: MrJob, w: World)
    requires ValidJob(job)
  {
    && Good(job.files, job.nReduce, w.sys)
    && |w.stages| == |w.sys.loops|
    && WorkersOk(job, w)
    && InterOk(job, w.sys.coord, w.inter)
    && OutOk(job, w)
    && DoneOk(w.sys.coord, w.out)
  }

  lemma OpeningInv(job: MrJob, started: seq<nat>)
    requires ValidJob(job)
    ensures Inv(job, Opening(job, started))
  {
    BeginGood(job.files, job.nReduce, started);
  }

  // ---------------------------------------------------------------- steps of the loop

  lemma TurnDone(files: seq<string>, nReduce: int, s: System, q: nat, t: TaskType, i: nat)
    requires Good(files, nReduce, s) && IsWorker(s, q)
    requires i < |TasksOf(Turn(s, q).coord, t)| && TasksOf(Turn(s, q).coord, t)[i].status == Done
    ensures (i < |TasksOf(s.coord, t)| && TasksOf(s.coord, t)[i].status == Done)
            || (s.loops[q].Reporting? && Has(s.loops[q], t, i))
  {
    assert Runs.Inv(files, nReduce, s.coord) by {
      assert Inside(0);
    }
    match s.loops[q]
    case Asking => Runs.RequestEffect(files, nReduce, s.coord, s.names[q]);
    case Reporting(_) => ReportDone(files, nReduce, s, q, t, i);
    case _ =>
  }

  lemma ReportDone(files: seq<string>, nReduce: int, s: System, q: nat, t: TaskType, i: nat)
    requires Good(files, nReduce, s) && IsWorker(s, q) && s.loops[q].Reporting?
    requires i < |TasksOf(Turn(s, q).coord, t)| && TasksOf(Turn(s, q).coord, t)[i].status == Done
    ensures (i < |TasksOf(s.coord, t)| && TasksOf(s.coord, t)[i].status == Done) || Has(s.loops[q], t, i)
  {
    if s.loops[q].reply.available {
      var j := ReportAccepted(files, nReduce, s, q);
    } else {
      VainReportGood(files, nReduce, s, q);
    }
  }

  lemma DoneStays(files: seq<string>, nReduce: int, s: System, q: nat)
    requires Good(files, nReduce, s) && IsWorker(s, q)
    ensures |Turn(s, q).coord.mapTasks| == |s.coord.mapTasks|
    ensures AllDone(s.coord.mapTasks) ==> AllDone(Turn(s, q).coord.mapTasks)
  {
    var call, u := CallOf(s, q), Turn(s, q).coord;
    if call != [] {
      assert Runs.Inv(files, nReduce, s.coord) by {
        assert Inside(0);
      }
      assert u == Runs.Step(s.coord, call[0]);
      Runs.StepAdvances(files, nReduce, s.coord, call[0]);
      Runs.StepInv(files, nReduce, s.coord, call[0]);
      if AllDone(s.coord.mapTasks) {
        forall i | 0 <= i < |u.mapTasks| ensures u.mapTasks[i].status == Done {
          assert Runs.Later(s.coord.mapTasks[i], u.mapTasks[i]) && Runs.JobOk(u.mapTasks[i]);
        }
      }
    }
  }

  /** Every reply is right when it is given. */
  lemma NewReply(job: MrJob, s: System, q: nat)
    requires ValidJob(job) && Good(job.files, job.nReduce, s) && IsWorker(s, q) && s.loops[q] == Asking
    ensures Turn(s, q).loops[q].Holding? ==> ReplyOk(job, Turn(s, q).coord, Turn(s, q).loops[q].reply)
  {
    DoneStays(job.files, job.nReduce, s, q);
    assert Runs.Inv(job.files, job.nReduce, s.coord) by {
      assert Inside(0);
    }
    var reply := Request(s.coord, s.names[q]).1;
    var i := FirstWaiting(s.coord.mapTasks);
    if reply.phase == MapPhase {
      assert IsMapReply(job, reply, i);
    }
  }

  lemma CallsWorkers(job: MrJob, w: World, u: World, q: nat)
    requires ValidJob(job) && Inv(job, w) && Calls(w, u, q)
    ensures |u.stages| == |u.sys.loops| == |u.sys.names| && WorkersOk(job, u)
  {
    DoneStays(job.files, job.nReduce, w.sys, q);
    forall v: nat | IsWorker(u.sys, v) ensures WorkerOk(job, u, v) {
      assert WorkerOk(job, w, v);
      if v != q {
        SameLoop(w.sys, v, q);
      } else if w.sys.loops[q] == Asking {
        NewReply(job, w.sys, q);
      }
    }
  }

  /** Only a task whose files are there gets completed. */
  lemma CallsDone(job: MrJob, w: World, u: World, q: nat)
    requires ValidJob(job) && Inv(job, w) && Calls(w, u, q)
    ensures InterOk(job, u.sys.coord, u.inter) && DoneOk(u.sys.coord, u.out)
  {
    DoneStays(job.files, job.nReduce, w.sys, q);
    assert WorkerOk(job, w, q);
    forall i: nat | i < |job.files| ensures CompleteIfDone(job, u.sys.coord, u.inter, i) {
      assert CompleteIfDone(job, w.sys.coord, w.inter, i);
      if u.sys.coord.mapTasks[i].status == Done {
        TurnDone(job.files, job.nReduce, w.sys, q, MapTask, i);
        if w.sys.coord.mapTasks[i].status != Done {
          MapReplyNames(job, w.sys.loops[q].reply, i);
        }
      }
    }
    forall p: nat | p < |u.sys.coord.reduceTasks| ensures ThereIfDone(u.sys.coord, u.out, p) {
      if u.sys.coord.reduceTasks[p].status == Done {
        TurnDone(job.files, job.nReduce, w.sys, q, ReduceTask, p);
        if w.sys.loops[q].Reporting? && Has(w.sys.loops[q], ReduceTask, p) {
          TaskNameInjective(p, w.sys.loops[q].reply.partition);
        } else {
          assert ThereIfDone(w.sys.coord, w.out, p);
        }
      }
    }
  }

  /** A reply that hands out map task `i` is a map reply for it. */
  lemma MapReplyNames(job: MrJob, r: RequestReply, i: nat)
    requires r.phase == MapPhase ==> exists k: nat :: IsMapReply(job, r, k)
    requires r.phase == ReducePhase && r.available ==> r.taskType == ReduceTask
    requires r.phase in {MapPhase, ReducePhase} && r.available && r.taskType == MapTask && r.taskId == TaskName(i)
    ensures IsMapReply(job, r, i) && r.phase == MapPhase
  {
    var k: nat :| IsMapReply(job, r, k);
    TaskNameInjective(i, k);
  }

  /** Whatever somebody would still write somebody will still write. */
  ghost predicate WritersKept(job: MrJob, w: World, u: World)
    requires ValidJob(job)
  {
    forall p: nat, x: nat {:trigger Covered(w, p, x)} ::
      p < job.nReduce && x < |TextAt(job, p)| && Covered(w, p, x) ==> Covered(u, p, x)
  }

  lemma SameFile(w: World, u: World, p: nat, file: string, text: string)
    requires FileOk(w, p, file, text)
    requires forall x: nat {:trigger Covered(w, p, x)} :: x < |text| && Covered(w, p, x) ==> Covered(u, p, x)
    ensures FileOk(u, p, file, text)
  {
    forall x: nat | x < |text| ensures RightAt(file, text, x) || Covered(u, p, x) {
      assert RightAt(file, text, x) || Covered(w, p, x);
    }
  }

  /** Then files that have not changed are as right as before. */
  lemma SameWriters(job: MrJob, w: World, u: World)
    requires ValidJob(job) && OutOk(job, w) && u.out == w.out && WritersKept(job, w, u)
    ensures OutOk(job, u)
  {
    forall p: nat | p < job.nReduce ensures FileAt(job, u, p) {
      assert FileAt(job, w, p);
      if OutName(p) in w.out {
        SameFile(w, u, p, w.out[OutName(p)], TextAt(job, p));
      }
    }
  }

  /** A worker that is not writing, or has written all, is missed by nobody. */
  lemma NotMissed(job: MrJob, w: World, u: World, q: nat)
    requires ValidJob(job) && OnlyStage(w, u, q)
    requires w.stages[q].Writing? ==>
             w.sys.loops[q].reply.partition < job.nReduce
             && w.stages[q].offset >= |TextAt(job, w.sys.loops[q].reply.partition)|
    ensures WritersKept(job, w, u)
  {
    forall p: nat, x: nat | p < job.nReduce && x < |TextAt(job, p)| && Covered(w, p, x) ensures Covered(u, p, x) {
      var v: nat :| Covers(w, v, p, x);
      assert Covers(u, v, p, x);
    }
  }

  lemma CallsInv(job: MrJob, w: World, u: World, q: nat)
    requires ValidJob(job) && Inv(job, w) && Calls(w, u, q)
    ensures Inv(job, u)
  {
    TurnGood(job.files, job.nReduce, w.sys, q);
    CallsWorkers(job, w, u, q);
    CallsDone(job, w, u, q);
    forall p: nat, x: nat | p < job.nReduce && x < |TextAt(job, p)| && Covered(w, p, x) ensures Covered(u, p, x) {
      var v: nat :| Covers(w, v, p, x);
      SameLoop(w.sys, v, q);
      assert Covers(u, v, p, x);
    }
    SameWriters(job, w, u);
  }

  // ---------------------------------------------------------------- steps of a mapper

  /** The other workers see what they saw. */
  lemma OthersKept(job: MrJob, w: World, u: World, q: nat)
    requires ValidJob(job) && |w.stages| == |w.sys.loops| == |w.sys.names| && WorkersOk(job, w) && OnlyStage(w, u, q)
    requires u.inter == w.inter && forall name :: name in w.out ==> name in u.out
    requires WorkerOk(job, u, q)
    ensures WorkersOk(job, u)
  {
    forall v: nat | IsWorker(u.sys, v) ensures WorkerOk(job, u, v) {
      assert WorkerOk(job, w, v);
    }
  }

  lemma MapReadsInv(job: MrJob, w: World, u: World, q: nat, kva: seq<KeyValue>)
    requires ValidJob(job) && Inv(job, w) && MapReads(job, w, u, q, kva)
    ensures Inv(job, u)
  {
    assert WorkerOk(job, w, q);
    OthersKept(job, w, u, q);
    NotMissed(job, w, u, q);
    SameWriters(job, w, u);
  }

  /** A mapper that wrote all partitions has left what its task is to leave. */
  lemma MappedAll(job: MrJob, inter: Files<KeyValue>, r: RequestReply, kva: seq<KeyValue>)
    requires ValidJob(job) && MappedUpTo(job, inter, r, kva, job.nReduce, 0)
    ensures MapRan(job, inter, r)
  {
    forall i: nat, p: nat | IsMapReply(job, r, i) && p < job.nReduce ensures ShareRight(job, inter, i, p) {
      assert Holds(inter, r.taskId, p, PartOf(kva, job.hash, job.nReduce, p));
      PartPermuted(kva, Mapped(job, i), job.hash, job.nReduce, p);
    }
  }

  lemma MapEndsInv(job: MrJob, w: World, u: World, q: nat)
    requires ValidJob(job) && Inv(job, w) && MapEnds(w, u, q)
    ensures Inv(job, u)
  {
    assert WorkerOk(job, w, q);
    MappedAll(job, w.inter, w.sys.loops[q].reply, w.stages[q].kva);
    OthersKept(job, w, u, q);
    NotMissed(job, w, u, q);
    SameWriters(job, w, u);
  }

  /** Files that a write to the file of task `a` and partition `p` leaves alone. */
  ghost predicate Untouched(inter: Files<KeyValue>, after: Files<KeyValue>, taskId: string, p: nat) {
    forall name :: name != IntermediateName(taskId, p) ==>
      (name in after <==> name in inter) && (name in inter ==> after[name] == inter[name])
  }

  lemma OtherTask(i: nat, a: nat, p: nat, b: nat)
    requires i != a || p != b
    ensures IntermediateName(TaskName(a), b) != IntermediateName(TaskName(i), p)
  {
    NamesDiffer(a, b, i, p);
  }

  lemma CompleteKept(job: MrJob, inter: Files<KeyValue>, after: Files<KeyValue>, i: nat, p: nat, a: nat)
    requires ValidJob(job) && Untouched(inter, after, TaskName(i), p) && a < |job.files| && a != i
    requires Complete(job, inter, a)
    ensures Complete(job, after, a)
  {
    forall b: nat | b < job.nReduce ensures ShareRight(job, after, a, b) {
      assert ShareRight(job, inter, a, b);
      OtherTask(i, a, p, b);
    }
  }

  lemma HoldsKept(inter: Files<KeyValue>, after: Files<KeyValue>, i: nat, p: nat, a: nat, b: nat, pairs: seq<KeyValue>)
    requires Untouched(inter, after, TaskName(i), p) && (a != i || b != p)
    requires Holds(inter, TaskName(a), b, pairs)
    ensures Holds(after, TaskName(a), b, pairs)
  {
    OtherTask(i, a, p, b);
  }

  /** The write of one mapper is nothing to another. */
  lemma OtherMapper(job: MrJob, inter: Files<KeyValue>, after: Files<KeyValue>, i: nat, p: nat, r: RequestReply, a: nat,
        kva: seq<KeyValue>, b: nat, j: nat)
    requires ValidJob(job) && Untouched(inter, after, TaskName(i), p) && r.taskId == TaskName(a) && a != i
    requires MappedUpTo(job, inter, r, kva, b, j)
    ensures MappedUpTo(job, after, r, kva, b, j)
  {
    forall c: nat | c < b ensures Holds(after, r.taskId, c, PartOf(kva, job.hash, job.nReduce, c)) {
      HoldsKept(inter, after, i, p, a, c, PartOf(kva, job.hash, job.nReduce, c));
    }
    if b < job.nReduce && j > 0 {
      HoldsKept(inter, after, i, p, a, b, PartOf(kva, job.hash, job.nReduce, b)[..j - 1]);
    }
  }

  lemma OtherStage(job: MrJob, w: World, u: World, i: nat, p: nat, r: RequestReply, stage: Stage)
    requires ValidJob(job) && Untouched(w.inter, u.inter, TaskName(i), p) && u.out == w.out
    requires ReplyOk(job, w.sys.coord, r) && !(r.available && r.taskType == MapTask && r.taskId == TaskName(i))
    requires StageOk(job, w, r, stage)
    ensures StageOk(job, u, r, stage)
  {
    if r.phase == MapPhase {
      var a: nat :| IsMapReply(job, r, a);
      match stage
      case Mapping(kva, b, j) => OtherMapper(job, w.inter, u.inter, i, p, r, a, kva, b, j);
      case Ran =>
        forall c: nat | IsMapReply(job, r, c) ensures Complete(job, u.inter, c) {
          CompleteKept(job, w.inter, u.inter, i, p, c);
        }
      case _ =>
    }
  }

  /** One more write of a mapper. */
  lemma MappedNext(job: MrJob, inter: Files<KeyValue>, r: RequestReply, i: nat, kva: seq<KeyValue>, p: nat, j: nat)
    requires ValidJob(job) && IsMapReply(job, r, i) && MappedUpTo(job, inter, r, kva, p, j) && p < job.nReduce
    ensures var part := PartOf(kva, job.hash, job.nReduce, p);
            var after := Encoded(inter, r.taskId, part, p, j);
            && Untouched(inter, after, r.taskId, p)
            && if j < |part| then MappedUpTo(job, after, r, kva, p, j + 1) else MappedUpTo(job, after, r, kva, p + 1, 0)
  {
    var part := PartOf(kva, job.hash, job.nReduce, p);
    var after := Encoded(inter, r.taskId, part, p, j);
    forall b: nat | b < p ensures Holds(after, r.taskId, b, PartOf(kva, job.hash, job.nReduce, b)) {
      HoldsKept(inter, after, i, p, i, b, PartOf(kva, job.hash, job.nReduce, b));
    }
    if j == 0 {
      assert part[..0] == [];
    } else {
      assert part[..j] == part[..j - 1] + [part[j - 1]];
    }
    assert Holds(after, r.taskId, p, part[..j]);
    assert part[..|part|] == part;
  }

  lemma MapWritesWorkers(job: MrJob, w: World, u: World, q: nat, i: nat)
    requires ValidJob(job) && Inv(job, w) && MapWrites(job, w, u, q) && IsMapReply(job, w.sys.loops[q].reply, i)
    ensures WorkersOk(job, u) && Untouched(w.inter, u.inter, TaskName(i), w.stages[q].p)
  {
    var r, kva, p, j := w.sys.loops[q].reply, w.stages[q].kva, w.stages[q].p, w.stages[q].j;
    assert WorkerOk(job, w, q);
    MappedNext(job, w.inter, r, i, kva, p, j);
    forall v: nat | IsWorker(u.sys, v) ensures WorkerOk(job, u, v) {
      assert WorkerOk(job, w, v);
      if v != q {
        NotMine(job, w, q, v, i);
        match w.sys.loops[v]
        case Holding(r') => OtherStage(job, w, u, i, p, r', w.stages[v]);
        case Reporting(r') => OtherStage(job, w, u, i, p, r', Ran);
        case _ =>
      }
    }
  }

  lemma NotMine(job: MrJob, w: World, q: nat, v: nat, i: nat)
    requires Good(job.files, job.nReduce, w.sys) && IsWorker(w.sys, q) && IsWorker(w.sys, v) && v != q
    requires w.sys.loops[q].Holding? && IsMapReply(job, w.sys.loops[q].reply, i)
    ensures !Has(w.sys.loops[v], MapTask, i)
  {
    assert Apart(w.sys) by {
      assert Inside(0);
    }
    assert !SameTask(w.sys.loops[v], w.sys.loops[q]);
  }

  lemma MineIsPending(job: MrJob, w: World, q: nat, i: nat)
    requires Good(job.files, job.nReduce, w.sys) && IsWorker(w.sys, q)
    requires w.sys.loops[q].Holding? && IsMapReply(job, w.sys.loops[q].reply, i)
    ensures i < |w.sys.coord.mapTasks| && w.sys.coord.mapTasks[i].status == Pending
  {
    assert HandOk(w.sys.coord, w.sys.names[q], w.sys.loops[q]) by {
      assert Inside(0);
    }
    HandedPending(w.sys.coord, w.sys.names[q], w.sys.loops[q], MapTask, i);
  }

  lemma MapWritesInter(job: MrJob, w: World, u: World, q: nat, i: nat)
    requires ValidJob(job) && Inv(job, w) && MapWrites(job, w, u, q) && IsMapReply(job, w.sys.loops[q].reply, i)
    requires Untouched(w.inter, u.inter, TaskName(i), w.stages[q].p)
    ensures InterOk(job, u.sys.coord, u.inter)
  {
    MineIsPending(job, w, q, i);
    forall a: nat | a < |job.files| ensures CompleteIfDone(job, u.sys.coord, u.inter, a) {
      assert CompleteIfDone(job, w.sys.coord, w.inter, a);
      if w.sys.coord.mapTasks[a].status == Done {
        CompleteKept(job, w.inter, u.inter, i, w.stages[q].p, a);
      }
    }
    forall name | name in u.inter ensures IsShare(job, name) {
      if name == IntermediateName(TaskName(i), w.stages[q].p) {
      }
    }
  }

  lemma MapWritesInv(job: MrJob, w: World, u: World, q: nat)
    requires ValidJob(job) && Inv(job, w) && MapWrites(job, w, u, q)
    ensures Inv(job, u)
  {
    assert WorkerOk(job, w, q);
    var i: nat :| IsMapReply(job, w.sys.loops[q].reply, i);
    MapWritesWorkers(job, w, u, q, i);
    MapWritesInter(job, w, u, q, i);
    NotMissed(job, w, u, q);
    SameWriters(job, w, u);
  }

  // ---------------------------------------------------------------- steps of a reducer

  /** In the reduce phase no mapper is at work, and what reducers read does not change any more. */
  lemma AllShuffled(job: MrJob, w: World)
    requires ValidJob(job) && Inv(job, w) && AllDone(w.sys.coord.mapTasks)
    ensures Shuffled(job, w.inter)
    ensures forall q: nat :: IsWorker(w.sys, q) && w.sys.loops[q].Holding? ==> !w.stages[q].Mapping?
  {
    forall i: nat | i < |job.files| ensures Complete(job, w.inter, i) {
      assert CompleteIfDone(job, w.sys.coord, w.inter, i);
    }
    forall q: nat | IsWorker(w.sys, q) && w.sys.loops[q].Holding? ensures !w.stages[q].Mapping? {
      assert WorkerOk(job, w, q);
      if w.stages[q].Mapping? {
        var i: nat :| IsMapReply(job, w.sys.loops[q].reply, i);
        MineIsPending(job, w, q, i);
      }
    }
  }

  lemma ReduceReadsInv(job: MrJob, w: World, u: World, q: nat, lines: seq<string>)
    requires ValidJob(job) && Inv(job, w) && ReduceReads(job, w, u, q, lines)
    ensures Inv(job, u)
  {
    assert WorkerOk(job, w, q);
    AllShuffled(job, w);
    ReducedRight(job, w.inter, w.sys.loops[q].reply.partition, lines);
    OthersKept(job, w, u, q);
    NotMissed(job, w, u, q);
    SameWriters(job, w, u);
  }

  /** A step of a reducer on partition `p` that changes at most the file of partition `p`. */
  lemma OneFile(job: MrJob, w: World, u: World, q: nat, p: nat, file: string)
    requires ValidJob(job) && OutOk(job, w) && OnlyStage(w, u, q) && w.sys.loops[q].reply.partition == p < job.nReduce
    requires u.out == w.out[OutName(p) := file] && FileOk(u, p, file, TextAt(job, p))
    ensures OutOk(job, u)
  {
    forall b: nat | b < job.nReduce ensures FileAt(job, u, b) {
      OutNameInjective(b, p);
      assert FileAt(job, w, b);
      if b != p && OutName(b) in w.out {
        forall x: nat | Covered(w, b, x) ensures Covered(u, b, x) {
          var v: nat :| Covers(w, v, b, x);
          assert Covers(u, v, b, x);
        }
        SameFile(w, u, b, w.out[OutName(b)], TextAt(job, b));
      }
    }
  }

  lemma MoreFiles(s: State, out: map<string, string>, more: map<string, string>)
    requires DoneOk(s, out) && forall name :: name in out ==> name in more
    ensures DoneOk(s, more)
  {
    forall p: nat | p < |s.reduceTasks| ensures ThereIfDone(s, more, p) {
      assert ThereIfDone(s, out, p);
    }
  }

  lemma CreatesOut(job: MrJob, w: World, u: World, q: nat, p: nat)
    requires ValidJob(job) && OutOk(job, w) && Creates(w, u, q) && w.sys.loops[q].reply.partition == p < job.nReduce
    ensures OutOk(job, u)
  {
    forall x: nat | x < |TextAt(job, p)| ensures Covered(u, p, x) {
      assert Covers(u, q, p, x);
    }
    assert FileOk(u, p, "", TextAt(job, p));
    OneFile(job, w, u, q, p, "");
  }

  lemma CreatesInv(job: MrJob, w: World, u: World, q: nat)
    requires ValidJob(job) && Inv(job, w) && Creates(w, u, q)
    ensures Inv(job, u)
  {
    assert WorkerOk(job, w, q);
    OthersKept(job, w, u, q);
    CreatesOut(job, w, u, q, w.sys.loops[q].reply.partition);
    MoreFiles(w.sys.coord, w.out, u.out);
  }

  /** What a write makes right stays right, and what it does not reach somebody else still covers. */
  lemma WrittenFile(w: World, u: World, q: nat, n: nat, p: nat, file: string, text: string)
    requires Writes(w, u, q, n) && w.sys.loops[q].reply.partition == p && w.stages[q].text == text
    requires FileOk(w, p, file, text)
    ensures FileOk(u, p, WriteAt(file, w.stages[q].offset, text[w.stages[q].offset..w.stages[q].offset + n]), text)
  {
    var offset := w.stages[q].offset;
    var after := WriteAt(file, offset, text[offset..offset + n]);
    forall x: nat | x < |text| ensures RightAt(after, text, x) || Covered(u, p, x) {
      if !(offset <= x < offset + n) && !RightAt(file, text, x) {
        var v: nat :| Covers(w, v, p, x);
        assert Covers(u, v, p, x);
      }
    }
  }

  lemma WritesOut(job: MrJob, w: World, u: World, q: nat, n: nat, p: nat)
    requires ValidJob(job) && OutOk(job, w) && Writes(w, u, q, n) && w.sys.loops[q].reply.partition == p < job.nReduce
    requires w.stages[q].text == TextAt(job, p)
    ensures OutOk(job, u)
  {
    assert FileAt(job, w, p);
    WrittenFile(w, u, q, n, p, w.out[OutName(p)], TextAt(job, p));
    OneFile(job, w, u, q, p, u.out[OutName(p)]);
  }

  lemma WritesInv(job: MrJob, w: World, u: World, q: nat, n: nat)
    requires ValidJob(job) && Inv(job, w) && Writes(w, u, q, n)
    ensures Inv(job, u)
  {
    assert WorkerOk(job, w, q);
    OthersKept(job, w, u, q);
    WritesOut(job, w, u, q, n, w.sys.loops[q].reply.partition);
    MoreFiles(w.sys.coord, w.out, u.out);
  }

  lemma ReduceEndsInv(job: MrJob, w: World, u: World, q: nat)
    requires ValidJob(job) && Inv(job, w) && ReduceEnds(w, u, q)
    ensures Inv(job, u)
  {
    assert WorkerOk(job, w, q);
    OthersKept(job, w, u, q);
    NotMissed(job, w, u, q);
    SameWriters(job, w, u);
  }

  // ---------------------------------------------------------------- whole runs

  lemma StepInv(job: MrJob, w: World, u: World, q: nat)
    requires ValidJob(job) && Inv(job, w) && Step(job, w, u, q)
    ensures Inv(job, u)
  {
    if Calls(w, u, q) {
      CallsInv(job, w, u, q);
    } else if kva :| MapReads(job, w, u, q, kva) {
      MapReadsInv(job, w, u, q, kva);
    } else if MapWrites(job, w, u, q) {
      MapWritesInv(job, w, u, q);
    } else if MapEnds(w, u, q) {
      MapEndsInv(job, w, u, q);
    } else if lines :| ReduceReads(job, w, u, q, lines) {
      ReduceReadsInv(job, w, u, q, lines);
    } else if Creates(w, u, q) {
      CreatesInv(job, w, u, q);
    } else if n :| Writes(w, u, q, n) {
      WritesInv(job, w, u, q, n);
    } else {
      ReduceEndsInv(job, w, u, q);
    }
  }

  lemma {:induction false} RunInv(job: MrJob, started: seq<nat>, run: seq<World>)
    requires ValidJob(job) && IsRun(job, started, run)
    ensures Inv(job, run[|run| - 1])
  {
    if |run| == 1 {
      OpeningInv(job, started);
    } else {
      RunInv(job, started, run[..|run| - 1]);
      assert Follows(job, run[|run| - 2], run[|run| - 1]);
      var q: nat :| Step(job, run[|run| - 2], run[|run| - 1], q);
      StepInv(job, run[|run| - 2], run[|run| - 1], q);
    }
  }

  // ---------------------------------------------------------------- what the files hold

  /** A file that nobody is writing is right, whoever wrote it and however often. */
  lemma QuietFile(job: MrJob, w: World, p: nat)
    requires ValidJob(job) && Inv(job, w) && p < job.nReduce && OutName(p) in w.out
    requires !exists q: nat :: WritesTo(w, q, p)
    ensures w.out[OutName(p)] == TextAt(job, p)
  {
    assert FileAt(job, w, p);
    NobodyWrites(w, p, w.out[OutName(p)], TextAt(job, p));
  }

  lemma NobodyWrites(w: World, p: nat, file: string, text: string)
    requires FileOk(w, p, file, text) && !exists q: nat :: WritesTo(w, q, p)
    ensures file == text
  {
    forall x: nat | x < |text| ensures RightAt(file, text, x) {
      assert !Covered(w, p, x);
    }
    if |text| > 0 {
      assert RightAt(file, text, |text| - 1);
    }
    forall x: nat | x < |text| ensures file[x] == text[x] {
      assert RightAt(file, text, x);
    }
  }

  /** After the end only workers without a task are still writing, and they write to partition 0. */
  lemma LateWriters(job: MrJob, w: World, q: nat, p: nat)
    requires ValidJob(job) && Inv(job, w) && w.sys.coord.phase == FinishedPhase && WritesTo(w, q, p)
    ensures p == 0 && !w.sys.loops[q].reply.available
  {
    assert WorkerOk(job, w, q);
    assert HandOk(w.sys.coord, w.sys.names[q], w.sys.loops[q]) && Runs.Inv(job.files, job.nReduce, w.sys.coord) by {
      assert Inside(0);
    }
    if w.sys.loops[q].reply.available {
      assert AllDone(w.sys.coord.reduceTasks);
      HandedPending(w.sys.coord, w.sys.names[q], w.sys.loops[q], ReduceTask, p);
    }
  }

  /** In the finished phase the output files are those of the partitions; all but the first hold the lines
      of their partition, and so does the first unless somebody is writing it. */
  lemma FinishedFiles(job: MrJob, w: World)
    requires ValidJob(job) && Inv(job, w) && w.sys.coord.phase == FinishedPhase
    ensures forall name :: name in w.out <==> exists p: nat :: p < job.nReduce && name == OutName(p)
    ensures forall p: nat :: 0 < p < job.nReduce ==> w.out[OutName(p)] == TextAt(job, p)
    ensures (!exists q: nat :: WritesTo(w, q, 0)) ==> AllRight(job, w.out)
  {
    assert Runs.Inv(job.files, job.nReduce, w.sys.coord) by {
      assert Inside(0);
    }
    forall p: nat | p < job.nReduce ensures OutName(p) in w.out {
      assert ThereIfDone(w.sys.coord, w.out, p) && w.sys.coord.reduceTasks[p].status == Done;
    }
    forall p: nat | p < job.nReduce && (p > 0 || !exists q: nat :: WritesTo(w, q, 0))
      ensures w.out[OutName(p)] == TextAt(job, p)
    {
      forall q: nat ensures !WritesTo(w, q, p) {
        if WritesTo(w, q, p) {
          LateWriters(job, w, q, p);
        }
      }
      QuietFile(job, w, p);
    }
    if !exists q: nat :: WritesTo(w, q, 0) {
      assert AllRight(job, w.out);
    }
  }

  /** So it is in every run. */
  lemma FinishedOutput(job: MrJob, started: seq<nat>, run: seq<World>, w: World)
    requires ValidJob(job) && IsRun(job, started, run) && w == run[|run| - 1] && w.sys.coord.phase == FinishedPhase
    ensures forall name :: name in w.out <==> exists p: nat :: p < job.nReduce && name == OutName(p)
    ensures forall p: nat :: 0 < p < job.nReduce ==> w.out[OutName(p)] == TextAt(job, p)
    ensures (!exists q: nat :: WritesTo(w, q, 0)) ==> AllRight(job, w.out)
  {
    RunInv(job, started, run);
    FinishedFiles(job, w);
  }

  /** When every worker has quit nobody is writing. */
  lemma QuitOutput(job: MrJob, started: seq<nat>, run: seq<World>, w: World)
    requires ValidJob(job) && IsRun(job, started, run) && w == run[|run| - 1] && w.sys.coord.phase == FinishedPhase
    requires forall q: nat :: q < |w.sys.loops| ==> w.sys.loops[q] == Quit
    ensures AllRight(job, w.out)
  {
    FinishedOutput(job, started, run, w);
  }

  /** If nobody is writing, the lines are those of the sequential program. */
  lemma MatchesSequential(job: MrJob, started: seq<nat>, run: seq<World>, w: World, lines: seq<string>)
    requires ValidJob(job) && IsRun(job, started, run) && w == run[|run| - 1] && w.sys.coord.phase == FinishedPhase
    requires !exists q: nat :: WritesTo(w, q, 0)
    requires OutputOf(job.reducef, AllPairs(job, |job.files|), multiset(lines))
    ensures AllRight(job, w.out) && Together(AllLinesOf(job)) == multiset(lines)
  {
    FinishedOutput(job, started, run, w);
    PartitionsMatch(job, lines);
  }
}
