/** A job: its pairs, the sequential program, the files mappers leave and what a reducer makes of them. */
module Jobs {
  import opened Histories
  import opened Sorting
  import opened KeyValues
  import opened Outputs
  import opened Tasks
  import opened Workers

  /** A job: its input files with their contents, and the functions it runs. */
  datatype MrJob = MrJob(files: seq<string>, input: map<string, string>, nReduce: nat, mapf: MapFunction,
      reducef: ReduceFunction, hash: HashFunction)

  /** At least one file and one reduce task, all files readable, and a reduce function that ignores
      the order of its values. */
  ghost predicate ValidJob(job: MrJob) {
    && job.files != []
    && Readable(job)
    && Insensitive(job.reducef)
  }

  predicate Readable(job: MrJob) {
    job.nReduce >= 1 && InputsExist(job)
  }

  predicate InputsExist(job: MrJob) {
    forall i :: 0 <= i < |job.files| ==> job.files[i] in job.input
  }

  /** What the map function makes of file `i`. */
  function Mapped(job: MrJob, i: nat): seq<KeyValue>
    requires i < |job.files| && job.files[i] in job.input
  {
    job.mapf(job.files[i], job.input[job.files[i]])
  }

  /** The pairs of the first `m` files. */
  function AllPairs(job: MrJob, m: nat): seq<KeyValue>
    requires m <= |job.files| && InputsExist(job)
  {
    if m == 0 then [] else AllPairs(job, m - 1) + Mapped(job, m - 1)
  }

  // ---------------------------------------------------------------- the sequential program

  /** The sequential program; without a readable input it ends without output. */
  method Sequential(job: MrJob) returns (lines: Option<seq<string>>)
    ensures lines.Some? <==> InputsExist(job)
    ensures lines.Some? ==> exists sorted ::
              SortOf(ByKey, AllPairs(job, |job.files|), sorted) && IsOutput(job.reducef, sorted, lines.value)
    ensures lines.Some? && Insensitive(job.reducef) ==>
            OutputOf(job.reducef, AllPairs(job, |job.files|), multiset(lines.value))
  {
    for k := 0 to |job.files|
      invariant forall i :: 0 <= i < k ==> job.files[i] in job.input
    {
      if job.files[k] !in job.input {
        return None;
      }
    }
    var intermediate: seq<KeyValue> := [];
    for k := 0 to |job.files|
      invariant intermediate == AllPairs(job, k)
    {
      intermediate := intermediate + job.mapf(job.files[k], job.input[job.files[k]]);
    }
    ByKeyIsOrder();
    var sorted := Sort(intermediate, ByKey);
    var output := ReduceGroupsSequentially(job.reducef, sorted);
    LinesAreOutput(job.reducef, sorted, output);
    if Insensitive(job.reducef) {
      OutputPermuted(job.reducef, sorted, intermediate, multiset(output));
    }
    lines := Some(output);
  }

  // ---------------------------------------------------------------- intermediate files

  /** The pairs of partition `p`. */
  function PairsAt(job: MrJob, p: nat): seq<KeyValue>
    requires Readable(job)
  {
    PartOf(AllPairs(job, |job.files|), job.hash, job.nReduce, p)
  }

  ghost predicate IsShare(job: MrJob, name: string) {
    exists i: nat, p: nat :: i < |job.files| && p < job.nReduce && name == IntermediateName(TaskName(i), p)
  }

  /** An intermediate file holds its share of its task's pairs. */
  ghost predicate ShareRight(job: MrJob, inter: Files<KeyValue>, i: nat, p: nat)
    requires Readable(job) && i < |job.files|
  {
    var name := IntermediateName(TaskName(i), p);
    name in inter && multiset(inter[name]) == multiset(PartOf(Mapped(job, i), job.hash, job.nReduce, p))
  }

  /** Map task `i` has left all its files. */
  ghost predicate Complete(job: MrJob, inter: Files<KeyValue>, i: nat)
    requires Readable(job) && i < |job.files|
  {
    forall p: nat :: p < job.nReduce ==> ShareRight(job, inter, i, p)
  }

  ghost predicate Named(job: MrJob, inter: Files<KeyValue>) {
    forall name :: name in inter ==> IsShare(job, name)
  }

  /** All maps have been run to their end. */
  ghost predicate Shuffled(job: MrJob, inter: Files<KeyValue>)
    requires Readable(job)
  {
    Named(job, inter) && forall i: nat :: i < |job.files| ==> Complete(job, inter, i)
  }

  // ---------------------------------------------------------------- reading a partition

  /** `names` lists the names `share(0)` to `share(m - 1)`. */
  ghost predicate Lists(names: seq<string>, share: nat -> string, m: nat) {
    && Distinct(names)
    && (forall name :: name in names ==> exists i: nat :: i < m && name == share(i))
    && (forall i: nat :: i < m ==> share(i) in names)
  }

  ghost predicate Injective(share: nat -> string) {
    forall i: nat, j: nat :: share(i) == share(j) ==> i == j
  }

  /** Taking one name out of a list of different names. */
  lemma Without(names: seq<string>, x: nat, rest: seq<string>)
    requires Distinct(names) && x < |names| && rest == names[..x] + names[x + 1..]
    ensures Distinct(rest)
    ensures forall name :: name in rest <==> name in names && name != names[x]
  {
    assert forall k :: 0 <= k < |rest| ==> rest[k] == if k < x then names[k] else names[k + 1];
    forall name | name in names && name != names[x] ensures name in rest {
      var k :| 0 <= k < |names| && names[k] == name;
      assert rest[if k < x then k else k - 1] == name;
    }
  }

  lemma FewerNames(names: seq<string>, share: nat -> string, m: nat) returns (x: nat, rest: seq<string>)
    requires m > 0 && Lists(names, share, m) && Injective(share)
    ensures x < |names| && names[x] == share(m - 1)
    ensures rest == names[..x] + names[x + 1..] && Lists(rest, share, m - 1)
  {
    assert share(m - 1) in names;
    x :| 0 <= x < |names| && names[x] == share(m - 1);
    rest := names[..x] + names[x + 1..];
    Without(names, x, rest);
    forall name | name in rest ensures exists i: nat :: i < m - 1 && name == share(i) {
      var i: nat :| i < m && name == share(i);
    }
    forall i: nat | i < m - 1 ensures share(i) in rest {
      assert share(i) in names;
    }
  }

  lemma ListedSome(names: seq<string>, share: nat -> string, m: nat)
    requires Lists(names, share, m)
    ensures names != [] ==> m > 0
  {
    if names != [] {
      assert names[0] in names;
    }
  }

  // Adding up a number for each name, in the order of a list or in the order of all tasks.

  function Total(have: string -> nat, names: seq<string>): nat {
    if names == [] then 0 else Total(have, names[..|names| - 1]) + have(names[|names| - 1])
  }

  function Sum(want: nat -> nat, m: nat): nat {
    if m == 0 then 0 else Sum(want, m - 1) + want(m - 1)
  }

  lemma {:induction false} TotalAppend(have: string -> nat, a: seq<string>, b: seq<string>)
    ensures Total(have, a + b) == Total(have, a) + Total(have, b)
    decreases |b|
  {
    if b == [] {
      assert a + b == a;
    } else {
      TotalAppend(have, a, b[..|b| - 1]);
      assert (a + b)[..|a + b| - 1] == a + b[..|b| - 1];
    }
  }

  lemma TotalWithout(have: string -> nat, names: seq<string>, x: nat, rest: seq<string>)
    requires x < |names| && rest == names[..x] + names[x + 1..]
    ensures Total(have, names) == Total(have, rest) + have(names[x])
  {
    var a, b, one := names[..x], names[x + 1..], [names[x]];
    assert names == (a + one) + b;
    TotalAppend(have, a + one, b);
    TotalAppend(have, a, one);
    TotalAppend(have, a, b);
    assert one[..0] == [];
    assert Total(have, one) == Total(have, []) + have(names[x]);
  }

  /** The order of the list does not matter. */
  lemma {:induction false} TotalIsSum(have: string -> nat, want: nat -> nat, names: seq<string>, share: nat -> string,
        m: nat)
    requires Lists(names, share, m) && Injective(share)
    requires forall i: nat :: i < m ==> have(share(i)) == want(i)
    ensures Total(have, names) == Sum(want, m)
    decreases m
  {
    if m == 0 {
      ListedSome(names, share, 0);
    } else {
      var x, rest := FewerNames(names, share, m);
      TotalIsSum(have, want, rest, share, m - 1);
      TotalWithout(have, names, x, rest);
    }
  }

  // The numbers to add up: how often a pair occurs in a file, and in a task's share.

  function Times(s: seq<KeyValue>, kv: KeyValue): nat {
    if s == [] then 0 else Times(s[..|s| - 1], kv) + if s[|s| - 1] == kv then 1 else 0
  }

  lemma {:induction false} TimesConcat(s: seq<KeyValue>, t: seq<KeyValue>, kv: KeyValue)
    ensures Times(s + t, kv) == Times(s, kv) + Times(t, kv)
    decreases |t|
  {
    if t == [] {
      assert s + t == s;
    } else {
      TimesConcat(s, t[..|t| - 1], kv);
      assert (s + t)[..|s + t| - 1] == s + t[..|t| - 1];
    }
  }

  lemma {:induction false} TimesIsMultiplicity(s: seq<KeyValue>, kv: KeyValue)
    ensures multiset(s)[kv] == Times(s, kv)
  {
    if s != [] {
      TimesIsMultiplicity(s[..|s| - 1], kv);
      assert s == s[..|s| - 1] + [s[|s| - 1]];
    }
  }

  function InFile(inter: Files<KeyValue>, kv: KeyValue): string -> nat {
    (name: string) => if name in inter then Times(inter[name], kv) else 0
  }

  function InShare(job: MrJob, p: nat, kv: KeyValue): nat -> nat {
    (i: nat) => if Readable(job) && i < |job.files| then Times(PartOf(Mapped(job, i), job.hash, job.nReduce, p), kv)
        else 0
  }

  lemma {:induction false} FilesTotal(inter: Files<KeyValue>, names: seq<string>, kv: KeyValue)
    requires forall k :: 0 <= k < |names| ==> names[k] in inter
    ensures Times(Concat(inter, names), kv) == Total(InFile(inter, kv), names)
    decreases |names|
  {
    if names != [] {
      var n := |names| - 1;
      FilesTotal(inter, names[..n], kv);
      TimesConcat(Concat(inter, names[..n]), inter[names[n]], kv);
    }
  }

  lemma {:induction false} SharesSum(job: MrJob, p: nat, m: nat, kv: KeyValue)
    requires Readable(job) && m <= |job.files|
    ensures Times(PartOf(AllPairs(job, m), job.hash, job.nReduce, p), kv) == Sum(InShare(job, p, kv), m)
    decreases m
  {
    if m > 0 {
      SharesSum(job, p, m - 1, kv);
      OneMoreShare(job, p, m - 1, kv);
    }
  }

  lemma OneMoreShare(job: MrJob, p: nat, i: nat, kv: KeyValue)
    requires Readable(job) && i < |job.files|
    ensures Times(PartOf(AllPairs(job, i + 1), job.hash, job.nReduce, p), kv) ==
            Times(PartOf(AllPairs(job, i), job.hash, job.nReduce, p),
                kv) + Times(PartOf(Mapped(job, i), job.hash, job.nReduce, p), kv)
  {
    var before, more := AllPairs(job, i), Mapped(job, i);
    PartOfConcat(before, more, job.hash, job.nReduce, p);
    TimesConcat(PartOf(before, job.hash, job.nReduce, p), PartOf(more, job.hash, job.nReduce, p), kv);
  }

  /** The named files hold what each task has for partition `p`. */
  ghost predicate HoldShares(job: MrJob, inter: Files<KeyValue>, p: nat, share: nat -> string)
    requires Readable(job)
  {
    && Injective(share)
    && (forall i: nat :: i < |job.files| ==> share(i) in inter)
    && (forall i: nat :: i < |job.files| ==>
          multiset(inter[share(i)]) == multiset(PartOf(Mapped(job, i), job.hash, job.nReduce, p)))
  }

  lemma ShareAt(job: MrJob, inter: Files<KeyValue>, p: nat, share: nat -> string, i: nat, kv: KeyValue)
    requires Readable(job) && HoldShares(job, inter, p, share) && i < |job.files|
    ensures InFile(inter, kv)(share(i)) == InShare(job, p, kv)(i)
  {
    TimesIsMultiplicity(inter[share(i)], kv);
    TimesIsMultiplicity(PartOf(Mapped(job, i), job.hash, job.nReduce, p), kv);
  }

  lemma ListedInter(job: MrJob, inter: Files<KeyValue>, p: nat, names: seq<string>, share: nat -> string)
    requires Readable(job) && HoldShares(job, inter, p, share) && Lists(names, share, |job.files|)
    ensures forall k :: 0 <= k < |names| ==> names[k] in inter
  {
    forall k | 0 <= k < |names| ensures names[k] in inter {
      assert names[k] in names;
    }
  }

  lemma SharesTogether(job: MrJob, inter: Files<KeyValue>, p: nat, names: seq<string>, share: nat -> string,
        kv: KeyValue)
    requires Readable(job) && HoldShares(job, inter, p, share) && Lists(names, share, |job.files|)
    requires forall k :: 0 <= k < |names| ==> names[k] in inter
    ensures Times(Concat(inter, names), kv) == Times(PairsAt(job, p), kv)
  {
    forall i: nat | i < |job.files| ensures InFile(inter, kv)(share(i)) == InShare(job, p, kv)(i) {
      ShareAt(job, inter, p, share, i, kv);
    }
    FilesTotal(inter, names, kv);
    SharesSum(job, p, |job.files|, kv);
    TotalIsSum(InFile(inter, kv), InShare(job, p, kv), names, share, |job.files|);
  }

  /** The files of partition `p` hold, together, the pairs of partition `p`. */
  lemma AllShares(job: MrJob, inter: Files<KeyValue>, p: nat, names: seq<string>, share: nat -> string)
    requires Readable(job) && HoldShares(job, inter, p, share) && Lists(names, share, |job.files|)
    ensures forall k :: 0 <= k < |names| ==> names[k] in inter
    ensures multiset(Concat(inter, names)) == multiset(PairsAt(job, p))
  {
    ListedInter(job, inter, p, names, share);
    forall kv ensures multiset(Concat(inter, names))[kv] == multiset(PairsAt(job, p))[kv] {
      SharesTogether(job, inter, p, names, share, kv);
      TimesIsMultiplicity(Concat(inter, names), kv);
      TimesIsMultiplicity(PairsAt(job, p), kv);
    }
  }

  function ShareNames(p: nat): nat -> string {
    (i: nat) => IntermediateName(TaskName(i), p)
  }

  lemma SharesHeld(job: MrJob, inter: Files<KeyValue>, p: nat)
    requires Readable(job) && Shuffled(job, inter) && p < job.nReduce
    ensures HoldShares(job, inter, p, ShareNames(p))
  {
    var share := ShareNames(p);
    forall i: nat, j: nat ensures share(i) == share(j) ==> i == j {
      NamesDiffer(i, p, j, p);
    }
    forall i: nat | i < |job.files|
      ensures share(i) in inter
      ensures multiset(inter[share(i)]) == multiset(PartOf(Mapped(job, i), job.hash, job.nReduce, p))
    {
      assert Complete(job, inter, i);
      assert ShareRight(job, inter, i, p);
    }
  }

  lemma GlobLists(job: MrJob, inter: Files<KeyValue>, p: nat, names: seq<string>)
    requires Readable(job) && Shuffled(job, inter) && p < job.nReduce
    requires IsGlob(inter, p, names)
    ensures Lists(names, ShareNames(p), |job.files|)
  {
    forall name | name in names ensures exists i: nat :: i < |job.files| && name == ShareNames(p)(i) {
      assert IsShare(job, name);
      var i: nat, q: nat :| i < |job.files| && q < job.nReduce && name == IntermediateName(TaskName(i), q);
      GlobSelects(i, q, p);
      assert name == ShareNames(p)(i);
    }
    forall i: nat | i < |job.files| ensures ShareNames(p)(i) in names {
      assert Complete(job, inter, i);
      assert ShareRight(job, inter, i, p);
      GlobSelects(i, p, p);
    }
  }

  // ---------------------------------------------------------------- output files

  /** The lines of partition `p`, in the order of their keys. */
  ghost function LinesAt(job: MrJob, p: nat): seq<string>
    requires Readable(job)
  {
    KeyLines(job.reducef, PairsAt(job, p))
  }

  /** What the output file of partition `p` should hold. */
  ghost function TextAt(job: MrJob, p: nat): string
    requires Readable(job)
  {
    Flat(LinesAt(job, p))
  }

  /** Once all maps have been run, every reducer of a partition makes the same lines in the same order. */
  lemma ReducedRight(job: MrJob, inter: Files<KeyValue>, p: nat, lines: seq<string>)
    requires ValidJob(job) && Shuffled(job, inter) && p < job.nReduce
    requires Reduced(job.reducef, inter, p, lines)
    ensures lines == LinesAt(job, p)
  {
    var names, sorted :| IsGlob(inter, p, names) && SortOf(ByKey, Concat(inter, names), sorted)
        && IsOutput(job.reducef, sorted, lines);
    GlobLists(job, inter, p, names);
    SharesHeld(job, inter, p);
    AllShares(job, inter, p, names, ShareNames(p));
    LinesUnique(job.reducef, sorted, PairsAt(job, p), lines);
  }

  /** The output files are those of the partitions, and each holds the lines of its partition. */
  ghost predicate AllRight(job: MrJob, out: map<string, string>)
    requires Readable(job)
  {
    && (forall name :: name in out ==> exists p: nat :: p < job.nReduce && name == OutName(p))
    && (forall p: nat :: p < job.nReduce ==> OutName(p) in out && out[OutName(p)] == TextAt(job, p))
  }

  /** The lines of all partitions. */
  ghost function AllLinesOf(job: MrJob): seq<seq<string>>
    requires Readable(job)
  {
    seq(job.nReduce, p requires 0 <= p < job.nReduce => LinesAt(job, p))
  }

  /** The lines of all partitions together are one line for each key of all pairs. */
  lemma PartitionsTogether(job: MrJob)
    requires Readable(job)
    ensures OutputOf(job.reducef, AllPairs(job, |job.files|), Together(AllLinesOf(job)))
  {
    var files := AllLinesOf(job);
    forall p | 0 <= p < |files|
      ensures OutputOf(job.reducef, PartOf(AllPairs(job, |job.files|), job.hash, |files|, p), multiset(files[p]))
    {
      LinesAreOutput(job.reducef, PairsAt(job, p), files[p]);
    }
    PartitionTheorem(job.reducef, AllPairs(job, |job.files|), job.hash, files);
  }

  /** They are the lines of the sequential program. */
  lemma PartitionsMatch(job: MrJob, lines: seq<string>)
    requires Readable(job) && OutputOf(job.reducef, AllPairs(job, |job.files|), multiset(lines))
    ensures Together(AllLinesOf(job)) == multiset(lines)
  {
    PartitionsTogether(job);
    var all := AllPairs(job, |job.files|);
    BagUnique(job.reducef, all, KeysOf(all), Together(AllLinesOf(job)), multiset(lines));
  }
}
