/** What the visualizer shows of one partition: its operations, the replayed partial
    linearizations, and for each operation the longest one it takes part in.
    Where a predicate names its conjunction `holds`, it is proved and used as one fact. */
module Visualization {
  import opened Histories
  import opened Sorting
  import opened Entries
  import opened Search
  import ParallelChecker

  datatype HistoryElement = HistoryElement(clientId: int, start: int, end: int, description: string)

  datatype LinearizationStep = LinearizationStep(index: nat, stateDescription: string)

  /** `Panic` is the visualizer's own panic on a linearization the model does not accept. */
  datatype Outcome =
    | Panic
    | Data(history: seq<HistoryElement>, linearizations: seq<seq<LinearizationStep>>, largest: map<nat, nat>)

  predicate Longer(a: seq<nat>, b: seq<nat>) {
    |a| > |b|
  }

  // ---------------------------------------------------------------- the operations

  /** The values and the history elements of the entries before position `k`. */
  ghost predicate Filled<I, O>(h: seq<Entry<I, O>>, describe: (I, O) -> string, k: nat, history: seq<HistoryElement>,
                               callValue: map<int, I>, returnValue: map<int, O>)
    requires WellFormed(h)
  {
    && |history| == |h| / 2
    && (forall a: nat :: a < |h| / 2 && CallAt(h, a) < k ==>
          && a in callValue && callValue[a] == OpOf(h, a).input
          && history[a].clientId == OpOf(h, a).clientId && history[a].start == h[CallAt(h, a)].time)
    && (forall a: nat :: a < |h| / 2 && ReturnAt(h, a) < k ==>
          && a in returnValue && returnValue[a] == OpOf(h, a).output
          && history[a].end == h[ReturnAt(h, a)].time
             && history[a].description == describe(OpOf(h, a).input, OpOf(h, a).output))
  }

  lemma OnlyCall<I, O>(h: seq<Entry<I, O>>, k: nat)
    requires WellFormed(h) && k < |h|
    ensures 0 <= h[k].id < |h| / 2
    ensures forall a: nat :: a < |h| / 2 ==> (CallAt(h, a) == k <==> h[k].CallEntry? && h[k].id == a)
    ensures forall a: nat :: a < |h| / 2 ==> (ReturnAt(h, a) == k <==> h[k].ReturnEntry? && h[k].id == a)
    ensures h[k].ReturnEntry? ==> CallAt(h, h[k].id) < k
  {
    forall a: nat | a < |h| / 2
      ensures CallAt(h, a) == k <==> h[k].CallEntry? && h[k].id == a
      ensures ReturnAt(h, a) == k <==> h[k].ReturnEntry? && h[k].id == a
    {
      assert IsCall(h, CallAt(h, a), a) && IsReturn(h, ReturnAt(h, a), a);
      assert h[k].CallEntry? && h[k].id == a ==> IsCall(h, k, a);
      assert h[k].ReturnEntry? && h[k].id == a ==> IsReturn(h, k, a);
    }
    if h[k].ReturnEntry? {
      assert IsReturn(h, k, h[k].id) && IsCall(h, CallAt(h, h[k].id), h[k].id);
    }
  }

  method FillHistory<I, O>(h: seq<Entry<I, O>>, describe: (I, O) -> string)
    returns (history: seq<HistoryElement>, callValue: map<int, I>, returnValue: map<int, O>)
    requires WellFormed(h)
    ensures Filled(h, describe, |h|, history, callValue, returnValue)
  {
    var n := |h| / 2;
    history := seq(n, _ => HistoryElement(0, 0, 0, ""));
    callValue, returnValue := map[], map[];
    for k := 0 to |h|
      invariant Filled(h, describe, k, history, callValue, returnValue)
    {
      var elem := h[k];
      OnlyCall(h, k);
      match elem {
        case CallEntry(input, id, time, clientId) =>
          history := history[id := history[id].(clientId := clientId, start := time)];
          callValue := callValue[id := input];
        case ReturnEntry(output, id, time, _) =>
          history := history[id := history[id].(end := time, description := describe(callValue[id], output))];
          returnValue := returnValue[id := output];
      }
    }
  }

  // ---------------------------------------------------------------- the longest for each operation

  /** `index` sends ids to partials with them. Of what the loops have come by, the first `i`
      partials and the first `j` ids of the next, every id is there and no partial with it is longer. */
  ghost predicate Largest(partials: seq<seq<nat>>, i: nat, j: nat, index: map<nat, nat>, size: map<nat, nat>) {
    && index.Keys == size.Keys
    && (forall x :: x in index ==> index[x] < |partials| && x in partials[index[x]] && size[x] == |partials[index[x]]|)
    && (forall k: nat, l: nat :: k < |partials| && l < |partials[k]| && (k < i || (k == i && l < j)) ==>
          partials[k][l] in index && |partials[k]| <= size[partials[k][l]])
  }

  lemma LargestNew(partials: seq<seq<nat>>, i: nat, j: nat, index: map<nat, nat>, size: map<nat, nat>)
    requires i < |partials| && j < |partials[i]| && Largest(partials, i, j, index, size)
    requires var x := partials[i][j]; x in size ==> size[x] < |partials[i]|
    ensures Largest(partials, i, j + 1, index[partials[i][j] := i], size[partials[i][j] := |partials[i]|])
  {
    var x := partials[i][j];
    assert x in partials[i];
    assert index[x := i].Keys == index.Keys + {x} && size[x := |partials[i]|].Keys == size.Keys + {x};
  }

  lemma LargestSame(partials: seq<seq<nat>>, i: nat, j: nat, index: map<nat, nat>, size: map<nat, nat>)
    requires i < |partials| && j < |partials[i]| && Largest(partials, i, j, index, size)
    requires var x := partials[i][j]; x in size && size[x] >= |partials[i]|
    ensures Largest(partials, i, j + 1, index, size)
  {
  }

  // ---------------------------------------------------------------- replaying

  /** Step `j` is shown as the id it takes, with the state after it. */
  ghost predicate ShowsAt<S, I, O>(m: Model<S, I, O>, ops: seq<Operation<I, O>>, describe: S -> string,
        partial: seq<nat>, j: nat, step: LinearizationStep) {
    && j < |partial| && Replay(m, ops, partial[..j + 1]).Some?
    && step == LinearizationStep(partial[j], describe(Replay(m, ops, partial[..j + 1]).value))
  }

  /** The steps shown for a partial linearization. */
  ghost predicate Shows<S, I, O>(m: Model<S, I, O>, ops: seq<Operation<I, O>>, describe: S -> string,
        partial: seq<nat>, steps: seq<LinearizationStep>) {
    && |steps| <= |partial|
    && forall j :: 0 <= j < |steps| ==> ShowsAt(m, ops, describe, partial, j, steps[j])
  }

  lemma ShowsNext<S, I, O>(m: Model<S, I, O>, ops: seq<Operation<I, O>>, describe: S -> string, partial: seq<nat>,
        steps: seq<LinearizationStep>, state: S)
    requires Shows(m, ops, describe, partial, steps) && |steps| < |partial|
    requires Replay(m, ops, partial[..|steps| + 1]) == Some(state)
    ensures Shows(m, ops, describe, partial, steps + [LinearizationStep(partial[|steps|], describe(state))])
  {
    var more := steps + [LinearizationStep(partial[|steps|], describe(state))];
    forall j | 0 <= j < |more| ensures ShowsAt(m, ops, describe, partial, j, more[j]) {
      if j < |steps| {
        assert more[j] == steps[j];
      }
    }
  }

  /** The values are those of the operations. */
  ghost predicate Values<I, O>(ops: seq<Operation<I, O>>, callValue: map<int, I>, returnValue: map<int, O>) {
    forall a :: 0 <= a < |ops| ==>
        a in callValue && a in returnValue && callValue[a] == ops[a].input && returnValue[a] == ops[a].output
  }

  method ReplayPartial<S, I, O>(m: Model<S, I, O>, describe: S -> string, callValue: map<int, I>,
        returnValue: map<int, O>, ghost ops: seq<Operation<I, O>>, partials: seq<seq<nat>>, i: nat,
        index0: map<nat, nat>, size0: map<nat, nat>)
    returns (ok: bool, steps: seq<LinearizationStep>, index: map<nat, nat>, size: map<nat, nat>)
    requires i < |partials| && Largest(partials, i, 0, index0, size0)
    requires forall j :: 0 <= j < |partials[i]| ==> partials[i][j] < |ops|
    requires Values(ops, callValue, returnValue)
    ensures ok <==> Replay(m, ops, partials[i]).Some?
    ensures ok ==> ShowsFully(m, ops, describe, partials[i], steps)
    ensures ok ==> Largest(partials, i + 1, 0, index, size)
  {
    var partial := partials[i];
    steps, index, size := [], index0, size0;
    var state := m.init;
    for j := 0 to |partial|
      invariant |steps| == j && Shows(m, ops, describe, partial, steps)
      invariant Replay(m, ops, partial[..j]) == Some(state)
      invariant Largest(partials, i, j, index, size)
    {
      var histId := partial[j];
      ReplayNext(m, ops, partial, j);
      var (accepted, next) := m.step(state, callValue[histId], returnValue[histId]);
      if !accepted {
        ReplayStops(m, ops, partial, j + 1);
        return false, steps, index, size;
      }
      state := next;
      ShowsNext(m, ops, describe, partial, steps, state);
      steps := steps + [LinearizationStep(histId, describe(state))];
      if (if histId in size then size[histId] else 0) < |partial| {
        LargestNew(partials, i, j, index, size);
        size := size[histId := |partial|];
        index := index[histId := i];
      } else {
        LargestSame(partials, i, j, index, size);
      }
    }
    assert partial[..|partial|] == partial;
    ok := true;
  }

  lemma ReplayNext<S, I, O>(m: Model<S, I, O>, ops: seq<Operation<I, O>>, order: seq<nat>, j: nat)
    requires j < |order| && order[j] < |ops| && Replay(m, ops, order[..j]).Some?
    ensures var (ok, next) := m.step(Replay(m, ops, order[..j]).value, ops[order[j]].input, ops[order[j]].output);
            Replay(m, ops, order[..j + 1]) == if ok then Some(next) else None
  {
    assert order[..j + 1] == order[..j] + [order[j]];
    ReplaySnoc(m, ops, order[..j], order[j]);
  }

  /** A partial of which a prefix is refused is refused. */
  lemma ReplayStops<S, I, O>(m: Model<S, I, O>, ops: seq<Operation<I, O>>, order: seq<nat>, k: nat)
    requires k <= |order| && Replay(m, ops, order[..k]).None?
    ensures Replay(m, ops, order).None?
  {
    if Replay(m, ops, order).Some? {
      ReplayPrefix(m, ops, order, k);
    }
  }

  /** Every operation is described by its two entries. */
  ghost predicate Describes<I, O>(h: seq<Entry<I, O>>, describe: (I, O) -> string, history: seq<HistoryElement>)
    requires WellFormed(h)
  {
    && |history| == |h| / 2
    && forall a: nat :: a < |history| ==>
         history[a] == HistoryElement(OpOf(h, a).clientId, h[CallAt(h, a)].time, h[ReturnAt(h, a)].time,
                                      describe(OpOf(h, a).input, OpOf(h, a).output))
  }

  /** `largest` is defined on the ids of the partials, and points each at a longest partial with it. */
  ghost predicate PointsToLongest(partials: seq<seq<nat>>, largest: map<nat, nat>) {
    && (forall x :: x in largest ==> largest[x] < |partials| && x in partials[largest[x]])
    && (forall k, x :: 0 <= k < |partials| && x in partials[k] ==>
          x in largest && |partials[k]| <= |partials[largest[x]]|)
  }

  lemma LargestPoints(partials: seq<seq<nat>>, index: map<nat, nat>, size: map<nat, nat>)
    requires Largest(partials, |partials|, 0, index, size)
    ensures PointsToLongest(partials, index)
  {
    forall k, x | 0 <= k < |partials| && x in partials[k] ensures x in index && |partials[k]| <= |partials[index[x]]| {
      var l: nat :| l < |partials[k]| && partials[k][l] == x;
    }
  }

  /** All partials are shown in full. */
  ghost predicate ShowsAll<S, I, O>(m: Model<S, I, O>, ops: seq<Operation<I, O>>, describe: S -> string,
        partials: seq<seq<nat>>, linearizations: seq<seq<LinearizationStep>>) {
    && |linearizations| == |partials|
    && forall i :: 0 <= i < |partials| ==> ShowsFully(m, ops, describe, partials[i], linearizations[i])
  }

  ghost predicate ShowsFully<S, I, O>(m: Model<S, I, O>, ops: seq<Operation<I, O>>, describe: S -> string,
        partial: seq<nat>, steps: seq<LinearizationStep>) {
    var holds := |steps| == |partial| && Shows(m, ops, describe, partial, steps);
    holds
  }

  /** The first `i` partial linearizations replay, and are shown. */
  ghost predicate ShowsUpTo<S, I, O>(m: Model<S, I, O>, ops: seq<Operation<I, O>>, describe: S -> string,
        partials: seq<seq<nat>>, linearizations: seq<seq<LinearizationStep>>, i: nat) {
    && |linearizations| == i <= |partials|
    && (forall k :: 0 <= k < i ==> Replay(m, ops, partials[k]).Some?)
    && (forall k :: 0 <= k < i ==> ShowsFully(m, ops, describe, partials[k], linearizations[k]))
  }

  lemma ShowsOneMore<S, I, O>(m: Model<S, I, O>, ops: seq<Operation<I, O>>, describe: S -> string,
        partials: seq<seq<nat>>, linearizations: seq<seq<LinearizationStep>>, i: nat, steps: seq<LinearizationStep>)
    requires ShowsUpTo(m, ops, describe, partials, linearizations, i) && i < |partials|
    requires Replay(m, ops, partials[i]).Some? && ShowsFully(m, ops, describe, partials[i], steps)
    ensures ShowsUpTo(m, ops, describe, partials, linearizations + [steps], i + 1)
  {
    var more := linearizations + [steps];
    forall k | 0 <= k < i + 1 ensures ShowsFully(m, ops, describe, partials[k], more[k]) {
      if k < i {
        assert more[k] == linearizations[k];
      }
    }
  }

  method ReplayAll<S, I, O>(m: Model<S, I, O>, describe: S -> string, callValue: map<int, I>, returnValue: map<int, O>,
                            ghost ops: seq<Operation<I, O>>, partials: seq<seq<nat>>)
    returns (ok: bool, linearizations: seq<seq<LinearizationStep>>, largest: map<nat, nat>)
    requires Values(ops, callValue, returnValue)
    requires forall i, j :: 0 <= i < |partials| && 0 <= j < |partials[i]| ==> partials[i][j] < |ops|
    ensures ok <==> forall i :: 0 <= i < |partials| ==> Replay(m, ops, partials[i]).Some?
    ensures ok ==> ShowsAll(m, ops, describe, partials, linearizations)
    ensures ok ==> PointsToLongest(partials, largest)
  {
    linearizations, largest := [], map[];
    var size: map<nat, nat> := map[];
    for i := 0 to |partials|
      invariant ShowsUpTo(m, ops, describe, partials, linearizations, i)
      invariant Largest(partials, i, 0, largest, size)
    {
      var steps;
      ok, steps, largest, size := ReplayPartial(m, describe, callValue, returnValue, ops, partials, i, largest, size);
      if !ok {
        return;
      }
      ShowsOneMore(m, ops, describe, partials, linearizations, i, steps);
      linearizations := linearizations + [steps];
    }
    LargestPoints(partials, largest, size);
    ok := true;
  }

  lemma FilledValues<I, O>(h: seq<Entry<I, O>>, describe: (I, O) -> string, history: seq<HistoryElement>,
                           callValue: map<int, I>, returnValue: map<int, O>)
    requires WellFormed(h) && Filled(h, describe, |h|, history, callValue, returnValue)
    ensures Values(OpsOf(h), callValue, returnValue)
    ensures Describes(h, describe, history)
  {
    forall a: nat | a < |h| / 2 ensures CallAt(h, a) < |h| && ReturnAt(h, a) < |h| {
      assert IsCall(h, CallAt(h, a), a);
    }
  }

  /** One partition of `computeVisualizationData`: it panics exactly when one of the given partial
      linearizations is refused by the model. */
  method VisualizePartition<S(!new), I(!new), O(!new)>(m: Model<S, I, O>, describeOperation: (I, O) -> string,
        describeState: S -> string, h: seq<Entry<I, O>>, partials: seq<seq<nat>>)
    returns (r: Outcome, sorted: seq<seq<nat>>)
    requires WellFormed(h)
    requires forall i, j :: 0 <= i < |partials| && 0 <= j < |partials[i]| ==> partials[i][j] < |h| / 2
    ensures multiset(sorted) == multiset(partials)
    ensures forall i, j :: 0 <= i < j < |sorted| ==> |sorted[i]| >= |sorted[j]|
    ensures r.Panic? <==> exists i :: 0 <= i < |partials| && Replay(m, OpsOf(h), partials[i]).None?
    ensures r.Data? ==>
              && Describes(h, describeOperation, r.history)
              && ShowsAll(m, OpsOf(h), describeState, sorted, r.linearizations)
              && PointsToLongest(sorted, r.largest)
  {
    var history, callValue, returnValue := FillHistory(h, describeOperation);
    FilledValues(h, describeOperation, history, callValue, returnValue);
    ghost var ops := OpsOf(h);
    sorted := Sort(partials, Longer);
    SortedPartials(partials, sorted);
    var ok, linearizations, largest := ReplayAll(m, describeState, callValue, returnValue, ops, sorted);
    SameReplays(m, ops, partials, sorted);
    r := if ok then Data(history, linearizations, largest) else Panic;
  }

  lemma SameReplays<S, I, O>(m: Model<S, I, O>, ops: seq<Operation<I, O>>, partials: seq<seq<nat>>,
        sorted: seq<seq<nat>>)
    requires multiset(sorted) == multiset(partials)
    ensures (forall i :: 0 <= i < |sorted| ==> Replay(m, ops, sorted[i]).Some?) <==>
            !exists i :: 0 <= i < |partials| && Replay(m, ops, partials[i]).None?
  {
    SortedPartials(partials, sorted);
    if k :| 0 <= k < |sorted| && Replay(m, ops, sorted[k]).None? {
      var i :| 0 <= i < |partials| && partials[i] == sorted[k];
    }
    if k :| 0 <= k < |partials| && Replay(m, ops, partials[k]).None? {
      var i :| 0 <= i < |sorted| && sorted[i] == partials[k];
    }
  }

  lemma SortedPartials(partials: seq<seq<nat>>, sorted: seq<seq<nat>>)
    requires multiset(sorted) == multiset(partials)
    ensures forall k :: 0 <= k < |sorted| ==> sorted[k] in partials
    ensures forall k :: 0 <= k < |partials| ==> partials[k] in sorted
  {
    forall k | 0 <= k < |sorted| ensures sorted[k] in partials {
      PermutationMember(sorted, partials, sorted[k]);
    }
    forall k | 0 <= k < |partials| ensures partials[k] in sorted {
      PermutationMember(partials, sorted, partials[k]);
    }
  }

  /** What a checker collected, even when it was stopped, never makes the visualizer panic. */
  lemma CollectedReplays<S, I, O>(m: Model<S, I, O>, ops: seq<Operation<I, O>>, longest: ParallelChecker.Longest,
        partials: seq<seq<nat>>)
    requires LongestOk(m, ops, longest) && ParallelChecker.Collects(longest, partials)
    ensures forall i :: 0 <= i < |partials| ==> IsPartial(m, ops, partials[i]) && Replay(m, ops, partials[i]).Some?
    ensures forall i, j :: 0 <= i < |partials| && 0 <= j < |partials[i]| ==> partials[i][j] < |ops|
  {
    forall i | 0 <= i < |partials|
      ensures IsPartial(m, ops, partials[i]) && Replay(m, ops, partials[i]).Some?
      ensures forall j :: 0 <= j < |partials[i]| ==> partials[i][j] < |ops|
    {
      var a :| 0 <= a < |longest| && longest[a] == Some(partials[i]);
      PartialFacts(m, ops, partials[i]);
    }
  }

  /** What any verbose run of the parallel checker returns can be visualized without a panic. If the
      searches were not stopped, the operations shown are those of any legal partial linearization,
      and none with the operation is longer than the longest returned. */
  lemma ReturnedReplays<S, I, O>(c: ParallelChecker.Config<S, I, O>, run: seq<ParallelChecker.State>,
        s: ParallelChecker.State, i: nat)
    requires ParallelChecker.IsRun(c, run) && s == run[|run| - 1]
    requires s.place.Returned? && c.computeInfo && i < |c.parts|
    ensures |s.place.partials| == |c.parts| && WellFormed(c.parts[i])
    ensures forall k :: 0 <= k < |s.place.partials[i]| ==> Replay(c.m, OpsOf(c.parts[i]), s.place.partials[i][k]).Some?
    ensures forall k, j :: 0 <= k < |s.place.partials[i]| && 0 <= j < |s.place.partials[i][k]| ==>
            s.place.partials[i][k][j] < |c.parts[i]| / 2
    ensures !s.kill ==> forall p, a :: IsPartial(c.m, OpsOf(c.parts[i]), p) && a in p ==>
              exists k :: 0 <= k < |s.place.partials[i]| && a in s.place.partials[i][k]
                  && |p| <= |s.place.partials[i][k]|
  {
    ParallelChecker.RunInv(c, run);
    assert ParallelChecker.Honest(c, s, i);
    var ops, longest, partials := OpsOf(c.parts[i]), s.longest[i], s.place.partials[i];
    CollectedReplays(c.m, ops, longest, partials);
    if !s.kill {
      forall p, a | IsPartial(c.m, ops, p) && a in p
        ensures exists k :: 0 <= k < |partials| && a in partials[k] && |p| <= |partials[k]|
      {
        PartialFacts(c.m, ops, p);
        assert Recorded(longest, p);
        var k :| 0 <= k < |partials| && partials[k] == longest[a].value;
      }
    }
  }
}
