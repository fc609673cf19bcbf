/** What a worker does with a task: intermediate files written by mappers, globbed by reducers. */
module Workers {
  import opened Histories
  import opened Sorting
  import opened KeyValues
  import opened Outputs
  import opened Tasks
  import Strings

  type Files<T> = map<string, seq<T>>

  type MapFunction = (string, string) -> seq<KeyValue>

  // ---------------------------------------------------------------- file names

  const INTERMEDIATE := "mr-data/intermediate/mr-"
  const TASKS := "mr-data/intermediate/mr-task-"

  function IntermediateName(taskId: string, p: nat): string {
    INTERMEDIATE + taskId + "-" + Strings.Itoa(p)
  }

  function OutName(p: nat): string {
    "mr-data/output/mr-out-" + Strings.Itoa(p)
  }

  lemma OutNameInjective(p: nat, q: nat)
    ensures OutName(p) == OutName(q) ==> p == q
  {
    Strings.ItoaInjective(p, q);
    assert OutName(p)[22..] == Strings.Itoa(p) && OutName(q)[22..] == Strings.Itoa(q);
  }

  /** A name that the pattern `mr-task-*-p` matches; the star does not match a slash. */
  predicate Matches(name: string, p: nat) {
    var ending := "-" + Strings.Itoa(p);
    && |TASKS| + |ending| <= |name|
    && name[..|TASKS|] == TASKS
    && name[|name| - |ending|..] == ending
    && '/' !in name[|TASKS|..|name| - |ending|]
  }

  /** The pattern with the star replaced by some text without a slash. */
  lemma MatchMeaning(name: string, p: nat)
    ensures Matches(name, p) <==> exists star: string :: '/' !in star && name == TASKS + star + "-" + Strings.Itoa(p)
  {
    var ending := "-" + Strings.Itoa(p);
    if Matches(name, p) {
      var star := name[|TASKS|..|name| - |ending|];
      assert name == TASKS + star + "-" + Strings.Itoa(p);
    }
    if star: string :| '/' !in star && name == TASKS + star + "-" + Strings.Itoa(p) {
      assert name == TASKS + star + ending;
      assert name[..|TASKS|] == TASKS && name[|name| - |ending|..] == ending;
      assert name[|TASKS|..|name| - |ending|] == star;
    }
  }

  lemma {:induction false} NoDash(n: nat)
    ensures '-' !in Strings.Itoa(n) && '/' !in Strings.Itoa(n)
  {
    forall k | 0 <= k < |Strings.Itoa(n)| ensures Strings.Itoa(n)[k] != '-' && Strings.Itoa(n)[k] != '/' {
      Strings.ItoaDigits(n, k);
    }
  }

  lemma DashAt(a: string, x: string, k: nat)
    requires '-' !in x && k < |a + "-" + x| && (a + "-" + x)[k] == '-'
    ensures k <= |a|
  {
    assert forall m :: 0 <= m < |x| ==> (a + "-" + x)[|a| + 1 + m] == x[m];
  }

  /** Where two dashes each end the rest of a string without dashes, they are the same dash. */
  lemma LastDash(a: string, x: string, b: string, y: string)
    requires a + "-" + x == b + "-" + y && '-' !in x && '-' !in y
    ensures x == y
  {
    assert (a + "-" + x)[|a|] == '-' && (b + "-" + y)[|b|] == '-';
    DashAt(a, x, |b|);
    DashAt(b, y, |a|);
    assert (a + "-" + x)[|a| + 1..] == x && (b + "-" + y)[|b| + 1..] == y;
  }

  lemma NameShape(i: nat, q: nat)
    ensures IntermediateName(TaskName(i), q) == TASKS + Strings.Itoa(i) + "-" + Strings.Itoa(q)
  {
    assert INTERMEDIATE + "task-" == TASKS;
    assert INTERMEDIATE + ("task-" + Strings.Itoa(i)) == TASKS + Strings.Itoa(i);
  }

  /** The pattern of partition `p` selects exactly the files of partition `p`. */
  lemma GlobSelects(i: nat, q: nat, p: nat)
    ensures Matches(IntermediateName(TaskName(i), q), p) <==> q == p
  {
    NameShape(i, q);
    var name, middle := IntermediateName(TaskName(i), q), Strings.Itoa(i);
    var ending, mine := "-" + Strings.Itoa(p), "-" + Strings.Itoa(q);
    NoDash(p);
    NoDash(q);
    NoDash(i);
    if q == p {
      assert name[..|TASKS|] == TASKS;
      assert name[|name| - |ending|..] == ending;
      assert name[|TASKS|..|name| - |ending|] == middle;
    } else if Matches(name, p) {
      var front := name[..|name| - |ending|];
      assert name == front + "-" + Strings.Itoa(p);
      assert name == (TASKS + middle) + "-" + Strings.Itoa(q);
      LastDash(front, Strings.Itoa(p), TASKS + middle, Strings.Itoa(q));
      Strings.ItoaInjective(p, q);
    }
  }

  /** Two tasks or two partitions have two files. */
  lemma NamesDiffer(i: nat, p: nat, j: nat, q: nat)
    ensures IntermediateName(TaskName(i), p) == IntermediateName(TaskName(j), q) ==> i == j && p == q
  {
    if IntermediateName(TaskName(i), p) == IntermediateName(TaskName(j), q) {
      GlobSelects(i, p, p);
      GlobSelects(j, q, p);
      NameShape(i, p);
      NameShape(j, q);
      var a, b := TASKS + Strings.Itoa(i), TASKS + Strings.Itoa(j);
      assert (a + "-" + Strings.Itoa(p))[|TASKS|..|a|] == Strings.Itoa(i);
      assert (b + "-" + Strings.Itoa(p))[|TASKS|..|b|] == Strings.Itoa(j);
      assert |a| == |b|;
      Strings.ItoaInjective(i, j);
    }
  }

  // ---------------------------------------------------------------- the mapper

  /** The files after the first `m` partitions of a task's pairs are written. */
  function Written(inter: Files<KeyValue>, taskId: string, kva: seq<KeyValue>, hash: HashFunction, n: nat,
        m: nat): Files<KeyValue>
    requires n > 0
  {
    if m == 0 then inter
    else Written(inter, taskId, kva, hash, n, m - 1)[IntermediateName(taskId, m - 1) := PartOf(kva, hash, n, m - 1)]
  }

  /** Write number `j` to the file of partition `p`: the first creates it, each other adds a pair. */
  function Encoded(inter: Files<KeyValue>, taskId: string, part: seq<KeyValue>, p: nat, j: nat): Files<KeyValue>
    requires j <= |part|
  {
    var name := IntermediateName(taskId, p);
    inter[name := if j == 0 then [] else (if name in inter then inter[name] else []) + [part[j - 1]]]
  }

  /** How a mapper ends: its input cannot be read, it divides by zero on the first pair when there is no
      partition, or it has written its files. */
  datatype MapperOutcome = CannotRead | DividesByZero | Wrote(inter: Files<KeyValue>)

  /** Splits the pairs of a task by hash and writes one file for each partition. */
  method MapperTask(reply: RequestReply, mapf: MapFunction, input: map<string, string>, hash: HashFunction,
        inter0: Files<KeyValue>)
    returns (r: MapperOutcome)
    ensures r.CannotRead? <==> reply.filePath !in input
    ensures r.DividesByZero? <==>
            reply.filePath in input && reply.nReduce == 0 && mapf(reply.filePath, input[reply.filePath]) != []
    ensures r.Wrote? && reply.nReduce <= 0 ==> r.inter == inter0
    ensures r.Wrote? && reply.nReduce > 0 ==>
              r.inter == Written(inter0, reply.taskId, mapf(reply.filePath, input[reply.filePath]), hash,
                  reply.nReduce, reply.nReduce)
  {
    if reply.filePath !in input {
      return CannotRead;
    }
    var kva := mapf(reply.filePath, input[reply.filePath]);
    var n := reply.nReduce;
    if n == 0 && kva != [] {
      return DividesByZero;
    }
    var modulus := if n < 0 then -n else n;
    var partitions: map<nat, seq<KeyValue>> := map[];
    if modulus > 0 {
      partitions := SplitByHash(kva, hash, modulus);
    }
    var inter := inter0;
    var partitionId := 0;
    while partitionId < n
      invariant 0 <= partitionId && (n > 0 ==> partitionId <= n) && (n <= 0 ==> inter == inter0)
      invariant n > 0 ==> inter == Written(inter0, reply.taskId, kva, hash, n, partitionId)
    {
      var kvs := if partitionId in partitions then partitions[partitionId] else [];
      inter := WritePartition(inter, reply.taskId, kvs, partitionId);
      partitionId := partitionId + 1;
    }
    r := Wrote(inter);
  }

  /** Creates the file of a partition and adds its pairs one by one. */
  method WritePartition(inter0: Files<KeyValue>, taskId: string, kvs: seq<KeyValue>, p: nat)
    returns (inter: Files<KeyValue>)
    ensures inter == inter0[IntermediateName(taskId, p) := kvs]
  {
    inter := Encoded(inter0, taskId, kvs, p, 0);
    for j := 0 to |kvs|
      invariant inter == inter0[IntermediateName(taskId, p) := kvs[..j]]
    {
      assert kvs[..j + 1] == kvs[..j] + [kvs[j]];
      inter := Encoded(inter, taskId, kvs, p, j + 1);
    }
    assert kvs[..|kvs|] == kvs;
  }

  method SplitByHash(kva: seq<KeyValue>, hash: HashFunction, n: nat) returns (partitions: map<nat, seq<KeyValue>>)
    requires n > 0
    ensures forall p: nat :: PartOf(kva, hash, n, p) == if p in partitions then partitions[p] else []
  {
    partitions := map[];
    for k := 0 to |kva|
      invariant forall p: nat :: PartOf(kva[..k], hash, n, p) == if p in partitions then partitions[p] else []
    {
      var p := hash(kva[k].key) % n;
      assert kva[..k + 1][..k] == kva[..k];
      partitions := partitions[p := (if p in partitions then partitions[p] else []) + [kva[k]]];
    }
    assert kva[..|kva|] == kva;
  }

  // ---------------------------------------------------------------- the reducer

  /** The pairs of the named files, one file after the other. */
  function Concat(inter: Files<KeyValue>, names: seq<string>): seq<KeyValue>
    requires forall k :: 0 <= k < |names| ==> names[k] in inter
  {
    if names == [] then [] else Concat(inter, names[..|names| - 1]) + inter[names[|names| - 1]]
  }

  /** `names` lists the files the pattern of partition `p` matches. */
  ghost predicate IsGlob(inter: Files<KeyValue>, p: nat, names: seq<string>) {
    && Distinct(names)
    && forall name :: name in names <==> name in inter && Matches(name, p)
  }

  /** What running the reducer on partition `p` may write: any order of reading, any sort. */
  ghost predicate Reduced(f: ReduceFunction, inter: Files<KeyValue>, p: nat, lines: seq<string>) {
    exists names, sorted ::
      && IsGlob(inter, p, names)
      && SortOf(ByKey, Concat(inter, names), sorted)
      && IsOutput(f, sorted, lines)
  }

  method Glob(inter: Files<KeyValue>, p: nat) returns (names: seq<string>)
    ensures IsGlob(inter, p, names)
  {
    names := [];
    var left := inter.Keys;
    while left != {}
      invariant left <= inter.Keys
      invariant Distinct(names)
      invariant forall name :: name in names <==> name in inter.Keys - left && Matches(name, p)
    {
      var name :| name in left;
      assert name !in names;
      if Matches(name, p) {
        names := names + [name];
      }
      left := left - {name};
    }
  }

  /** Overwrites a file from an offset on; what lies between its end and the offset reads as zeros. */
  function WriteAt(file: string, offset: nat, chunk: string): (r: string)
    ensures |r| == if |file| < offset + |chunk| then offset + |chunk| else |file|
    ensures forall x :: 0 <= x < |r| ==>
              r[x] == (if offset <= x < offset + |chunk| then chunk[x - offset]
                       else if x < |file| then file[x] else '\0')
  {
    var padded := if |file| < offset then file + seq(offset - |file|, _ => '\0') else file;
    padded[..offset] + chunk + if offset + |chunk| < |padded| then padded[offset + |chunk|..] else ""
  }

  lemma FlatNext(lines: seq<string>, k: nat)
    requires k < |lines|
    ensures Flat(lines[..k + 1]) == Flat(lines[..k]) + lines[k]
  {
    assert lines[..k + 1][..k] == lines[..k];
  }

  /** Reads a partition's files, sorts, groups, reduces, creates the partition's output file and writes
      it line by line, each line behind the last. */
  method ReducerTask(reply: RequestReply, reducef: ReduceFunction, inter: Files<KeyValue>, out0: map<string, string>)
    returns (out: map<string, string>)
    ensures exists lines ::
              && out == out0[OutName(reply.partition) := Flat(lines)]
              && Reduced(reducef, inter, reply.partition, lines)
  {
    var files := Glob(inter, reply.partition);
    var intermediate: seq<KeyValue> := [];
    for k := 0 to |files|
      invariant intermediate == Concat(inter, files[..k])
    {
      assert files[k] in files;
      assert files[..k + 1][..k] == files[..k];
      intermediate := intermediate + inter[files[k]];
    }
    assert files[..|files|] == files;
    ByKeyIsOrder();
    var sorted := Sort(intermediate, ByKey);
    var lines := ReduceGroups(reducef, sorted);
    assert Reduced(reducef, inter, reply.partition, lines);
    out := WriteLines(out0, OutName(reply.partition), lines);
  }

  method WriteLines(out0: map<string, string>, name: string, lines: seq<string>) returns (out: map<string, string>)
    ensures out == out0[name := Flat(lines)]
  {
    out := out0[name := ""];
    var offset := 0;
    for k := 0 to |lines|
      invariant out == out0[name := Flat(lines[..k])] && offset == |Flat(lines[..k])|
    {
      FlatNext(lines, k);
      var written := WriteAt(out[name], offset, lines[k]);
      assert written == Flat(lines[..k + 1]);
      out := out[name := written];
      offset := offset + |lines[k]|;
    }
    assert lines[..|lines|] == lines;
  }
}
