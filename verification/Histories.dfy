/** What porcupine decides: histories of timed operations, sequential models,
    and the orders of a history that a model accepts. */
module Histories {

  datatype Option<+T> = None | Some(value: T)

  /** One completed operation: its input, its output and the times of its call and its return. */
  datatype Operation<I, O> = Operation(clientId: int, input: I, call: int, output: O, ret: int)

  /** A sequential specification. `step` says whether the model can take an operation in a
      state, and the state it moves to; `equal` is the equality the checker memoises with. */
  datatype Model<!S, !I, !O> = Model(init: S, step: (S, I, O) -> (bool, S), equal: (S, S) -> bool)

  /** What the checker demands of a model: `equal` is an equivalence that `step` respects. */
  ghost predicate ValidModel<S(!new), I(!new), O(!new)>(m: Model<S, I, O>) {
    && (forall s :: m.equal(s, s))
    && (forall s, t :: m.equal(s, t) ==> m.equal(t, s))
    && (forall s, t, u :: m.equal(s, t) && m.equal(t, u) ==> m.equal(s, u))
    && (forall s, t, i, o :: m.equal(s, t) && m.step(s, i, o).0 ==>
          m.step(t, i, o).0 && m.equal(m.step(s, i, o).1, m.step(t, i, o).1))
  }

  // ---------------------------------------------------------------- sequences of ids

  ghost predicate Distinct<T>(s: seq<T>) {
    forall i, j :: 0 <= i < j < |s| ==> s[i] != s[j]
  }

  function Ids(s: seq<nat>): set<nat> {
    set x | x in s
  }

  lemma IdsOfSnoc(s: seq<nat>, a: nat)
    ensures Ids(s + [a]) == Ids(s) + {a}
  {
  }

  lemma {:induction false} DistinctSize(s: seq<nat>)
    requires Distinct(s)
    ensures |Ids(s)| == |s|
  {
    if s != [] {
      var p := s[..|s| - 1];
      DistinctSize(p);
      assert s == p + [s[|s| - 1]];
      IdsOfSnoc(p, s[|s| - 1]);
    }
  }

  function Below(n: nat): (r: set<nat>)
    ensures forall x: nat :: x in r <==> x < n
  {
    if n == 0 then {} else Below(n - 1) + {n - 1}
  }

  lemma {:induction false} BelowSize(n: nat)
    ensures |Below(n)| == n
  {
    if n > 0 {
      BelowSize(n - 1);
    }
  }

  lemma SubsetSize<T>(a: set<T>, b: set<T>)
    requires a <= b
    ensures |a| <= |b|
    ensures |a| == |b| ==> a == b
  {
    assert b == a + (b - a);
    assert |b| == |a| + |b - a|;
  }

  /** The pigeonhole fact behind both verdicts: a duplicate-free list of ids below n is no
      longer than n, and has length n exactly when it names every id. */
  lemma Pigeonhole(s: seq<nat>, n: nat)
    requires Distinct(s)
    requires forall k :: 0 <= k < |s| ==> s[k] < n
    ensures |s| <= n
    ensures |s| == n <==> Ids(s) == Below(n)
  {
    DistinctSize(s);
    BelowSize(n);
    assert Ids(s) <= Below(n);
    SubsetSize(Ids(s), Below(n));
  }

  // ---------------------------------------------------------------- orders of a history

  /** Real-time order: `a` had returned before `b` was called. */
  predicate Precedes<I, O>(ops: seq<Operation<I, O>>, a: nat, b: nat)
    requires a < |ops| && b < |ops|
  {
    ops[a].ret < ops[b].call
  }

  /** Every operation returns no earlier than it is called. */
  ghost predicate Timed<I, O>(ops: seq<Operation<I, O>>) {
    forall a :: 0 <= a < |ops| ==> ops[a].call <= ops[a].ret
  }

  /** The state after running `order` from the initial state, if the model accepts every step. */
  function Replay<S, I, O>(m: Model<S, I, O>, ops: seq<Operation<I, O>>, order: seq<nat>): Option<S> {
    if order == [] then Some(m.init)
    else
      var last := order[|order| - 1];
      var before := Replay(m, ops, order[..|order| - 1]);
      if before.None? || last >= |ops| then None
      else
        var (ok, next) := m.step(before.value, ops[last].input, ops[last].output);
        if ok then Some(next) else None
  }

  ghost predicate RespectsRealTime<I, O>(ops: seq<Operation<I, O>>, order: seq<nat>) {
    && (forall k :: 0 <= k < |order| ==> order[k] < |ops|)
    && (forall i, j :: 0 <= i < j < |order| ==> !Precedes(ops, order[j], order[i]))
  }

  /** `order` runs exactly the operations of `dom`, each once, legally, and never puts an
      operation before one that had returned before it was called. */
  ghost predicate LinearizesOn<S, I, O>(m: Model<S, I, O>, ops: seq<Operation<I, O>>, dom: set<nat>, order: seq<nat>) {
    && Distinct(order)
    && Ids(order) == dom
    && RespectsRealTime(ops, order)
    && Replay(m, ops, order).Some?
  }

  ghost predicate Linearizes<S, I, O>(m: Model<S, I, O>, ops: seq<Operation<I, O>>, order: seq<nat>) {
    LinearizesOn(m, ops, Below(|ops|), order)
  }

  ghost predicate Linearizable<S, I, O>(m: Model<S, I, O>, ops: seq<Operation<I, O>>) {
    exists order :: Linearizes(m, ops, order)
  }

  /** Operation `a` may come next after `done`: everything that returned before it is in `done`. */
  ghost predicate Minimal<I, O>(ops: seq<Operation<I, O>>, done: seq<nat>, a: nat) {
    && a < |ops|
    && a !in done
    && forall b: nat :: b < |ops| && Precedes(ops, b, a) ==> b in done
  }

  /** A legal partial linearization: each operation was minimal when it was appended. */
  ghost predicate IsPartial<S, I, O>(m: Model<S, I, O>, ops: seq<Operation<I, O>>, order: seq<nat>) {
    order == [] ||
    (var done := order[..|order| - 1];
     && IsPartial(m, ops, done)
     && Minimal(ops, done, order[|order| - 1])
     && Replay(m, ops, order).Some?)
  }

  lemma ReplaySnoc<S, I, O>(m: Model<S, I, O>, ops: seq<Operation<I, O>>, done: seq<nat>, a: nat)
    ensures Replay(m, ops, done + [a]) ==
            if Replay(m, ops, done).None? || a >= |ops| then None
            else
              var (ok, next) := m.step(Replay(m, ops, done).value, ops[a].input, ops[a].output);
              if ok then Some(next) else None
  {
    assert (done + [a])[..|done + [a]| - 1] == done;
  }

  lemma PartialSnoc<S, I, O>(m: Model<S, I, O>, ops: seq<Operation<I, O>>, done: seq<nat>, a: nat)
    ensures Replay(m, ops, done + [a]) ==
            if Replay(m, ops, done).None? || a >= |ops| then None
            else
              var (ok, next) := m.step(Replay(m, ops, done).value, ops[a].input, ops[a].output);
              if ok then Some(next) else None
    ensures IsPartial(m, ops, done + [a]) <==>
            IsPartial(m, ops, done) && Minimal(ops, done, a) && Replay(m, ops, done + [a]).Some?
  {
    assert (done + [a])[..|done + [a]| - 1] == done;
  }

  lemma {:induction false} PartialFacts<S, I, O>(m: Model<S, I, O>, ops: seq<Operation<I, O>>, order: seq<nat>)
    requires IsPartial(m, ops, order)
    ensures Distinct(order)
    ensures Replay(m, ops, order).Some?
    ensures forall k :: 0 <= k < |order| ==> order[k] < |ops|
    ensures forall k, b: nat :: 0 <= k < |order| && b < |ops| && Precedes(ops, b, order[k]) ==> b in order[..k]
  {
    if order != [] {
      var done := order[..|order| - 1];
      PartialFacts(m, ops, done);
      forall k, b: nat | 0 <= k < |order| && b < |ops| && Precedes(ops, b, order[k])
        ensures b in order[..k]
      {
        assert k < |done| ==> done[..k] == order[..k] && done[k] == order[k];
      }
    }
  }

  lemma {:induction false} PrefixPartial<S, I, O>(m: Model<S, I, O>, ops: seq<Operation<I, O>>, order: seq<nat>, k: nat)
    requires IsPartial(m, ops, order)
    requires k <= |order|
    ensures IsPartial(m, ops, order[..k])
  {
    if k == |order| {
      assert order[..k] == order;
    } else {
      var done := order[..|order| - 1];
      PrefixPartial(m, ops, done, k);
      assert done[..k] == order[..k];
    }
  }

  lemma {:induction false} ReplayPrefix<S, I, O>(m: Model<S, I, O>, ops: seq<Operation<I, O>>, order: seq<nat>, k: nat)
    requires Replay(m, ops, order).Some?
    requires k <= |order|
    ensures Replay(m, ops, order[..k]).Some?
  {
    if k == |order| {
      assert order[..k] == order;
    } else {
      var done := order[..|order| - 1];
      ReplayPrefix(m, ops, done, k);
      assert done[..k] == order[..k];
    }
  }

  /** Two readings of the same thing: a complete partial linearization is a linearization. */
  lemma CompletePartial<S, I, O>(m: Model<S, I, O>, ops: seq<Operation<I, O>>, order: seq<nat>)
    requires Timed(ops)
    ensures Linearizes(m, ops, order) <==> IsPartial(m, ops, order) && |order| == |ops|
  {
    if IsPartial(m, ops, order) && |order| == |ops| {
      PartialFacts(m, ops, order);
      Pigeonhole(order, |ops|);
      forall i, j | 0 <= i < j < |order|
        ensures !Precedes(ops, order[j], order[i])
      {
        assert order[j] !in order[..i];
      }
    }
    if Linearizes(m, ops, order) {
      Pigeonhole(order, |ops|);
      LinearizationIsPartial(m, ops, order, |order|);
      assert order[..|order|] == order;
    }
  }

  lemma {:induction false} LinearizationIsPartial<S, I, O>(m: Model<S, I, O>, ops: seq<Operation<I, O>>,
        order: seq<nat>, k: nat)
    requires Timed(ops)
    requires Linearizes(m, ops, order)
    requires k <= |order|
    ensures IsPartial(m, ops, order[..k])
  {
    if k > 0 {
      LinearizationIsPartial(m, ops, order, k - 1);
      var a := order[k - 1];
      forall b: nat | b < |ops| && Precedes(ops, b, a)
        ensures b in order[..k - 1]
      {
        assert b in Ids(order);
        var j :| 0 <= j < |order| && order[j] == b;
        assert j < k - 1;
      }
      ReplayPrefix(m, ops, order, k);
      assert order[..k] == order[..k - 1] + [a];
      PartialSnoc(m, ops, order[..k - 1], a);
    }
  }

  // ---------------------------------------------------------------- renaming operations

  function MapIds(f: seq<nat>, order: seq<nat>): (r: seq<nat>)
    requires forall k :: 0 <= k < |order| ==> order[k] < |f|
    ensures |r| == |order|
    ensures forall k :: 0 <= k < |order| ==> r[k] == f[order[k]]
  {
    seq(|order|, k requires 0 <= k < |order| => f[order[k]])
  }

  /** `f` sends each operation of `part` to a different operation of `whole` with the same input
      and output, and keeps and reflects the real-time order. */
  ghost predicate Embeds<I, O>(part: seq<Operation<I, O>>, whole: seq<Operation<I, O>>, f: seq<nat>) {
    && |f| == |part|
    && Distinct(f)
    && (forall a :: 0 <= a < |f| ==> f[a] < |whole|)
    && (forall a :: 0 <= a < |f| ==> part[a].input == whole[f[a]].input && part[a].output == whole[f[a]].output)
    && (forall a: nat, b: nat :: a < |f| && b < |f| ==> (Precedes(part, a, b) <==> Precedes(whole, f[a], f[b])))
  }

  lemma {:induction false} EmbeddedReplay<S, I, O>(m: Model<S, I, O>, part: seq<Operation<I, O>>,
        whole: seq<Operation<I, O>>, f: seq<nat>, order: seq<nat>)
    requires Embeds(part, whole, f)
    requires forall k :: 0 <= k < |order| ==> order[k] < |f|
    ensures Replay(m, part, order) == Replay(m, whole, MapIds(f, order))
  {
    if order != [] {
      var done := order[..|order| - 1];
      EmbeddedReplay(m, part, whole, f, done);
      assert MapIds(f, done) == MapIds(f, order)[..|order| - 1];
    }
  }

  /** An order linearizes the part exactly when its image linearizes those operations in the whole. */
  lemma EmbeddedOrder<S, I, O>(m: Model<S, I, O>, part: seq<Operation<I, O>>, whole: seq<Operation<I, O>>,
                               f: seq<nat>, order: seq<nat>)
    requires Embeds(part, whole, f)
    requires forall k :: 0 <= k < |order| ==> order[k] < |f|
    ensures Linearizes(m, part, order) <==> LinearizesOn(m, whole, Ids(f), MapIds(f, order))
  {
    EmbeddedReplay(m, part, whole, f, order);
    EmbeddedRealTime(part, whole, f, order);
    EmbeddedIds(part, whole, f, order);
  }

  lemma EmbeddedRealTime<I, O>(part: seq<Operation<I, O>>, whole: seq<Operation<I, O>>, f: seq<nat>, order: seq<nat>)
    requires Embeds(part, whole, f)
    requires forall k :: 0 <= k < |order| ==> order[k] < |f|
    ensures RespectsRealTime(part, order) <==> RespectsRealTime(whole, MapIds(f, order))
  {
    var image := MapIds(f, order);
    assert forall i, j :: 0 <= i < j < |order| ==>
        (Precedes(part, order[j], order[i]) <==> Precedes(whole, image[j], image[i]));
  }

  lemma EmbeddedIds<I, O>(part: seq<Operation<I, O>>, whole: seq<Operation<I, O>>, f: seq<nat>, order: seq<nat>)
    requires Embeds(part, whole, f)
    requires forall k :: 0 <= k < |order| ==> order[k] < |f|
    ensures Distinct(order) <==> Distinct(MapIds(f, order))
    ensures Ids(order) == Below(|part|) <==> Ids(MapIds(f, order)) == Ids(f)
  {
    var image := MapIds(f, order);
    assert forall i, j :: 0 <= i < j < |order| ==> (order[i] == order[j] <==> image[i] == image[j]);
    if Ids(order) == Below(|part|) {
      forall x | x in f ensures x in image {
        var a :| 0 <= a < |f| && f[a] == x;
        assert a in Below(|part|);
        var k :| 0 <= k < |order| && order[k] == a;
        assert image[k] == x;
      }
      assert Ids(image) == Ids(f);
    }
    if Ids(image) == Ids(f) {
      forall a | a in Below(|part|) ensures a in order {
        assert f[a] in Ids(f);
        var k :| 0 <= k < |image| && image[k] == f[a];
        assert order[k] == a;
      }
      assert Ids(order) == Below(|part|);
    }
  }

  /** Pulling a linearization of the embedded operations back to the part. */
  lemma PullBack<S, I, O>(m: Model<S, I, O>, part: seq<Operation<I, O>>, whole: seq<Operation<I, O>>,
                          f: seq<nat>, image: seq<nat>) returns (order: seq<nat>)
    requires Embeds(part, whole, f)
    requires LinearizesOn(m, whole, Ids(f), image)
    ensures forall k :: 0 <= k < |order| ==> order[k] < |f|
    ensures MapIds(f, order) == image
    ensures Linearizes(m, part, order)
  {
    order := [];
    for k := 0 to |image|
      invariant |order| == k
      invariant forall i :: 0 <= i < k ==> order[i] < |f| && f[order[i]] == image[i]
    {
      assert image[k] in Ids(image);
      var a: nat :| a < |f| && f[a] == image[k];
      order := order + [a];
    }
    EmbeddedOrder(m, part, whole, f, order);
  }

  /** Linearizability is invariant under renaming: the part is linearizable exactly when its
      operations, read in the whole history, have a legal order. */
  lemma EmbeddingTheorem<S, I, O>(m: Model<S, I, O>, part: seq<Operation<I, O>>, whole: seq<Operation<I, O>>,
        f: seq<nat>)
    requires Embeds(part, whole, f)
    ensures Linearizable(m, part) <==> exists image :: LinearizesOn(m, whole, Ids(f), image)
  {
    if Linearizable(m, part) {
      var order :| Linearizes(m, part, order);
      forall k | 0 <= k < |order| ensures order[k] < |f| {
        assert order[k] in Ids(order);
      }
      EmbeddedOrder(m, part, whole, f, order);
    }
    if image :| LinearizesOn(m, whole, Ids(f), image) {
      var order := PullBack(m, part, whole, f, image);
    }
  }

  /** When every operation of the whole is the image of one of the part, the verdicts agree. */
  lemma RenamingTheorem<S, I, O>(m: Model<S, I, O>, part: seq<Operation<I, O>>, whole: seq<Operation<I, O>>,
        f: seq<nat>)
    requires Embeds(part, whole, f)
    requires Ids(f) == Below(|whole|)
    ensures Linearizable(m, part) <==> Linearizable(m, whole)
  {
    EmbeddingTheorem(m, part, whole, f);
    if image :| LinearizesOn(m, whole, Ids(f), image) {
      assert Linearizes(m, whole, image);
    }
    if Linearizable(m, whole) {
      var order :| Linearizes(m, whole, order);
      assert LinearizesOn(m, whole, Ids(f), order);
    }
  }

  /** In particular when the two list the same operations. */
  lemma SameOperations<S, I, O>(m: Model<S, I, O>, part: seq<Operation<I, O>>, whole: seq<Operation<I, O>>, f: seq<nat>)
    requires |f| == |part|
    requires Distinct(f)
    requires Ids(f) == Below(|whole|)
    requires forall a :: 0 <= a < |f| ==> f[a] < |whole| && part[a] == whole[f[a]]
    ensures Linearizable(m, part) <==> Linearizable(m, whole)
  {
    RenamingTheorem(m, part, whole, f);
  }
}
