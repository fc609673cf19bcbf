/** Why the memoised depth-first search decides linearizability: the invariant of its
    states, what its three moves do to it, and what it gives at the end.
    Where a predicate names its conjunction `holds`, it is proved and used as one fact. */
module Search {
  import opened Histories
  import opened Entries

  // ---------------------------------------------------------------- states of the search

  /** `stack` is the partial linearization being extended, `cursor` the history position of the
      entry under consideration, `visited` every stack the search has entered so far, and
      `longest` the best partial linearization recorded for each operation. */
  datatype State = State(stack: seq<nat>, cursor: nat, visited: set<seq<nat>>, longest: seq<Option<seq<nat>>>)

  /** The entry at position `k` is still linked when the operations of `done` are lifted. */
  predicate Live<I, O>(h: seq<Entry<I, O>>, done: seq<nat>, k: int) {
    0 <= k < |h| && h[k].id !in done
  }

  /** The first linked position from `k` on, or the end. */
  function NextLive<I, O>(h: seq<Entry<I, O>>, done: seq<nat>, k: nat): (r: nat)
    requires k <= |h|
    ensures k <= r <= |h|
    ensures r < |h| ==> Live(h, done, r)
    ensures forall j :: k <= j < r ==> !Live(h, done, j)
    decreases |h| - k
  {
    if k == |h| || Live(h, done, k) then k else NextLive(h, done, k + 1)
  }

  /** Two stacks the cache cannot tell apart: same operations, equal states. */
  ghost predicate Same<S, I, O>(m: Model<S, I, O>, ops: seq<Operation<I, O>>, p: seq<nat>, q: seq<nat>) {
    && Ids(p) == Ids(q)
    && Replay(m, ops, p).Some?
    && Replay(m, ops, q).Some?
    && m.equal(Replay(m, ops, p).value, Replay(m, ops, q).value)
  }

  ghost predicate Covered<S, I, O>(m: Model<S, I, O>, ops: seq<Operation<I, O>>, visited: set<seq<nat>>, p: seq<nat>) {
    exists q :: q in visited && Same(m, ops, q, p)
  }

  /** Every extension of `q` by an operation called before `limit` is covered. */
  ghost predicate ClosedUpTo<S, I, O>(m: Model<S, I, O>, ops: seq<Operation<I, O>>, visited: set<seq<nat>>,
        q: seq<nat>, limit: int) {
    forall a: nat {:trigger IsPartial(m, ops, q + [a])} ::
      a < |ops| && ops[a].call < limit && IsPartial(m, ops, q + [a]) ==> Covered(m, ops, visited, q + [a])
  }

  /** `q` is recorded: each of its operations has a partial linearization at least as long. */
  ghost predicate Recorded(longest: seq<Option<seq<nat>>>, q: seq<nat>) {
    forall i :: i in q ==> i < |longest| && longest[i].Some? && |longest[i].value| >= |q|
  }

  /** The dead-end record: keep the longer of what is known and the stack. */
  function Record(longest: seq<Option<seq<nat>>>, stack: seq<nat>): (r: seq<Option<seq<nat>>>)
    ensures |r| == |longest|
    ensures forall i :: 0 <= i < |longest| ==>
              r[i] == if i in stack && (longest[i].None? || |stack| > |longest[i].value|) then Some(stack)
                  else longest[i]
  {
    seq(|longest|, i requires 0 <= i < |longest| =>
      if i in stack && (longest[i].None? || |stack| > |longest[i].value|) then Some(stack) else longest[i])
  }

  // ---------------------------------------------------------------- the invariant

  /** The stack as it was when it held `k` operations. */
  ghost function Prefix(stack: seq<nat>, k: nat): seq<nat>
    requires k <= |stack|
  {
    stack[..k]
  }

  ghost predicate StackOk<S, I, O>(m: Model<S, I, O>, ops: seq<Operation<I, O>>, stack: seq<nat>,
        visited: set<seq<nat>>) {
    && IsPartial(m, ops, stack)
    && (forall k {:trigger Prefix(stack, k)} :: 0 <= k <= |stack| ==> Prefix(stack, k) in visited)
    && (forall q :: q in visited ==> IsPartial(m, ops, q))
    && (forall q :: q in visited && |q| == |ops| ==> q == stack)
  }

  /** The cursor stands on a linked entry, or the list is empty; everything linked before it is a call. */
  ghost predicate CursorOk<I, O>(h: seq<Entry<I, O>>, stack: seq<nat>, cursor: nat) {
    && cursor <= |h|
    && (cursor < |h| ==> Live(h, stack, cursor))
    && (forall k :: 0 <= k < cursor && Live(h, stack, k) ==> h[k].CallEntry?)
    && (cursor == |h| ==> forall k :: 0 <= k < |h| ==> !Live(h, stack, k))
  }

  /** Nothing is left to look at beyond `q`. */
  ghost predicate Finished<S, I, O>(m: Model<S, I, O>, ops: seq<Operation<I, O>>, size: nat, partial: bool,
                                    visited: set<seq<nat>>, longest: seq<Option<seq<nat>>>, q: seq<nat>) {
    && ClosedUpTo(m, ops, visited, q, size)
    && (partial ==> Recorded(longest, q))
  }

  /** A visited stack is a prefix of the current one or finished. */
  ghost predicate Explored<S, I, O>(m: Model<S, I, O>, ops: seq<Operation<I, O>>, size: nat, partial: bool,
                                    stack: seq<nat>, visited: set<seq<nat>>, longest: seq<Option<seq<nat>>>) {
    forall q :: q in visited ==> q <= stack || Finished(m, ops, size, partial, visited, longest, q)
  }

  /** Each prefix of the stack has been scanned up to the call that was taken from it. */
  ghost predicate Scanned<S, I, O>(m: Model<S, I, O>, ops: seq<Operation<I, O>>, stack: seq<nat>,
        visited: set<seq<nat>>) {
    forall k {:trigger Prefix(stack, k)} :: 0 <= k < |stack| ==>
      stack[k] < |ops| && ClosedUpTo(m, ops, visited, Prefix(stack, k), ops[stack[k]].call)
  }

  /** Whatever is recorded is a legal partial linearization containing the operation. */
  ghost predicate LongestOk<S, I, O>(m: Model<S, I, O>, ops: seq<Operation<I, O>>, longest: seq<Option<seq<nat>>>) {
    && |longest| == |ops|
    && forall i :: 0 <= i < |longest| && longest[i].Some? ==>
       IsPartial(m, ops, longest[i].value) && i in longest[i].value
  }

  /** What does not depend on the cursor. */
  ghost predicate Coherent<S, I, O>(m: Model<S, I, O>, ops: seq<Operation<I, O>>, size: nat, partial: bool,
                                    stack: seq<nat>, visited: set<seq<nat>>, longest: seq<Option<seq<nat>>>) {
    && StackOk(m, ops, stack, visited)
    && Explored(m, ops, size, partial, stack, visited, longest)
    && Scanned(m, ops, stack, visited)
    && LongestOk(m, ops, longest)
  }

  ghost predicate Inv<S, I, O>(m: Model<S, I, O>, h: seq<Entry<I, O>>, partial: bool, s: State)
    requires WellFormed(h)
  {
    var ops := OpsOf(h);
    && Coherent(m, ops, |h|, partial, s.stack, s.visited, s.longest)
    && CursorOk(h, s.stack, s.cursor)
    && ClosedUpTo(m, ops, s.visited, s.stack, s.cursor)
  }

  // ---------------------------------------------------------------- monotonicity

  lemma CoveredMonotone<S, I, O>(m: Model<S, I, O>, ops: seq<Operation<I, O>>, small: set<seq<nat>>,
        large: set<seq<nat>>, p: seq<nat>)
    requires small <= large
    requires Covered(m, ops, small, p)
    ensures Covered(m, ops, large, p)
  {
  }

  lemma ClosedMonotone<S, I, O>(m: Model<S, I, O>, ops: seq<Operation<I, O>>, small: set<seq<nat>>,
        large: set<seq<nat>>, q: seq<nat>, limit: int, lower: int)
    requires small <= large
    requires lower <= limit
    requires ClosedUpTo(m, ops, small, q, limit)
    ensures ClosedUpTo(m, ops, large, q, lower)
  {
    forall a: nat | a < |ops| && ops[a].call < lower && IsPartial(m, ops, q + [a])
      ensures Covered(m, ops, large, q + [a])
    {
      CoveredMonotone(m, ops, small, large, q + [a]);
    }
  }

  lemma VisitedIsCovered<S(!new), I(!new), O(!new)>(m: Model<S, I, O>, ops: seq<Operation<I, O>>,
        visited: set<seq<nat>>, q: seq<nat>)
    requires ValidModel(m)
    requires q in visited
    requires IsPartial(m, ops, q)
    ensures Covered(m, ops, visited, q)
  {
    PartialFacts(m, ops, q);
    assert Same(m, ops, q, q);
  }

  // ---------------------------------------------------------------- positions and minimality

  /** A linked call with only calls linked before it is minimal. */
  lemma CursorMinimal<I, O>(h: seq<Entry<I, O>>, done: seq<nat>, p: nat)
    requires WellFormed(h)
    requires p < |h| && Live(h, done, p) && h[p].CallEntry?
    requires forall k :: 0 <= k < p && Live(h, done, k) ==> h[k].CallEntry?
    ensures CallAt(h, h[p].id) == p
    ensures Minimal(OpsOf(h), done, h[p].id)
  {
    var ops := OpsOf(h);
    var a := h[p].id;
    assert IsCall(h, p, a);
    forall b: nat | b < |ops| && Precedes(ops, b, a) ensures b in done {
      assert IsReturn(h, ReturnAt(h, b), b);
      assert !Live(h, done, ReturnAt(h, b));
    }
  }

  /** A linked return stops the scan: no operation called after it is minimal. */
  lemma ReturnBlocks<I, O>(h: seq<Entry<I, O>>, done: seq<nat>, p: nat, a: nat)
    requires WellFormed(h)
    requires Live(h, done, p) && h[p].ReturnEntry?
    requires a < |h| / 2
    requires CallAt(h, a) >= p
    ensures !Minimal(OpsOf(h), done, a)
  {
    var ops := OpsOf(h);
    var b := h[p].id;
    assert IsReturn(h, p, b);
    assert ReturnAt(h, b) == p;
    assert CallAt(h, a) != p;
    assert Precedes(ops, b, a);
  }

  /** An operation outside `done` is linked at its call. */
  lemma CallIsLive<I, O>(h: seq<Entry<I, O>>, done: seq<nat>, a: nat)
    requires WellFormed(h)
    requires a < |h| / 2
    requires a !in done
    ensures Live(h, done, CallAt(h, a))
  {
  }

  // ---------------------------------------------------------------- the three moves

  /** Moving past a call that cannot be taken or leads to a covered stack. */
  ghost predicate Skips<S, I, O>(m: Model<S, I, O>, h: seq<Entry<I, O>>, s: State, t: State)
    requires WellFormed(h)
  {
    var holds :=
      && s.cursor < |h| && h[s.cursor].CallEntry?
      && (IsPartial(m, OpsOf(h), s.stack + [h[s.cursor].id]) ==>
            Covered(m, OpsOf(h), s.visited, s.stack + [h[s.cursor].id]))
      && t == s.(cursor := NextLive(h, s.stack, s.cursor + 1));
    holds
  }

  /** Taking a call into a stack that is not covered. */
  ghost predicate Takes<S, I, O>(m: Model<S, I, O>, h: seq<Entry<I, O>>, s: State, t: State)
    requires WellFormed(h)
  {
    var holds :=
      && s.cursor < |h| && h[s.cursor].CallEntry?
      && IsPartial(m, OpsOf(h), s.stack + [h[s.cursor].id])
      && !Covered(m, OpsOf(h), s.visited, s.stack + [h[s.cursor].id])
      && t.stack == s.stack + [h[s.cursor].id]
      && t.cursor == NextLive(h, t.stack, 0)
      && t.visited == s.visited + {t.stack}
      && t.longest == s.longest;
    holds
  }

  /** The state after backing out of the top of `stack`. */
  ghost function BackedOut<I, O>(h: seq<Entry<I, O>>, partial: bool, stack: seq<nat>, visited: set<seq<nat>>,
        longest: seq<Option<seq<nat>>>): State
    requires WellFormed(h)
    requires stack != [] && stack[|stack| - 1] < |h| / 2
  {
    State(stack[..|stack| - 1], NextLive(h, stack[..|stack| - 1], CallAt(h, stack[|stack| - 1]) + 1), visited,
          if partial then Record(longest, stack) else longest)
  }

  /** Recording a dead end and backing out of the top call. */
  ghost predicate BacksOut<I, O>(h: seq<Entry<I, O>>, partial: bool, s: State, t: State)
    requires WellFormed(h)
  {
    var holds :=
      && s.cursor < |h| && h[s.cursor].ReturnEntry?
      && s.stack != [] && s.stack[|s.stack| - 1] < |h| / 2
      && t == BackedOut(h, partial, s.stack, s.visited, s.longest);
    holds
  }

  ghost predicate Moves<S, I, O>(m: Model<S, I, O>, h: seq<Entry<I, O>>, partial: bool, s: State, t: State)
    requires WellFormed(h)
  {
    var holds := Skips(m, h, s, t) || Takes(m, h, s, t) || BacksOut(h, partial, s, t);
    holds
  }

  lemma SkipKeepsInv<S, I, O>(m: Model<S, I, O>, h: seq<Entry<I, O>>, partial: bool, s: State, t: State)
    requires WellFormed(h)
    requires Inv(m, h, partial, s)
    requires Skips(m, h, s, t)
    ensures Inv(m, h, partial, t)
  {
    SkipCursor(h, s.stack, s.cursor);
    SkipClosed(m, h, s.visited, s.stack, s.cursor);
  }

  lemma SkipCursor<I, O>(h: seq<Entry<I, O>>, stack: seq<nat>, cursor: nat)
    requires WellFormed(h)
    requires CursorOk(h, stack, cursor)
    requires cursor < |h| && h[cursor].CallEntry?
    ensures NextLive(h, stack, cursor + 1) < |h|
    ensures CursorOk(h, stack, NextLive(h, stack, cursor + 1))
  {
    var a := h[cursor].id;
    assert IsCall(h, cursor, a);
    assert Live(h, stack, ReturnAt(h, a));
  }

  lemma SkipClosed<S, I, O>(m: Model<S, I, O>, h: seq<Entry<I, O>>, visited: set<seq<nat>>, stack: seq<nat>, p: nat)
    requires WellFormed(h)
    requires p < |h| && h[p].CallEntry?
    requires ClosedUpTo(m, OpsOf(h), visited, stack, p)
    requires IsPartial(m, OpsOf(h), stack + [h[p].id]) ==> Covered(m, OpsOf(h), visited, stack + [h[p].id])
    ensures ClosedUpTo(m, OpsOf(h), visited, stack, NextLive(h, stack, p + 1))
  {
    var ops := OpsOf(h);
    forall b: nat | b < |ops| && ops[b].call < NextLive(h, stack, p + 1) && IsPartial(m, ops, stack + [b])
      ensures Covered(m, ops, visited, stack + [b])
    {
      PartialSnoc(m, ops, stack, b);
      CallIsLive(h, stack, b);
      assert ops[b].call <= p;
    }
  }

  lemma TakeKeepsInv<S, I, O>(m: Model<S, I, O>, h: seq<Entry<I, O>>, partial: bool, s: State, t: State)
    requires WellFormed(h)
    requires Inv(m, h, partial, s)
    requires Takes(m, h, s, t)
    ensures Inv(m, h, partial, t)
  {
    var ops := OpsOf(h);
    var a := h[s.cursor].id;
    CursorMinimal(h, s.stack, s.cursor);
    PushKeepsStack(m, ops, s.stack, s.visited, a);
    PushKeepsExplored(m, ops, |h|, partial, s.stack, s.visited, s.longest, a);
    PushKeepsScanned(m, ops, s.stack, s.visited, a);
    NothingBeforeFirst(m, h, t.visited, t.stack);
  }

  lemma PushKeepsStack<S, I, O>(m: Model<S, I, O>, ops: seq<Operation<I, O>>, stack: seq<nat>, visited: set<seq<nat>>,
        a: nat)
    requires StackOk(m, ops, stack, visited)
    requires IsPartial(m, ops, stack + [a])
    ensures StackOk(m, ops, stack + [a], visited + {stack + [a]})
  {
    var t := stack + [a];
    PartialSnoc(m, ops, stack, a);
    PartialFacts(m, ops, t);
    Pigeonhole(t, |ops|);
    forall k | 0 <= k <= |t| ensures Prefix(t, k) in visited + {t} {
      assert k <= |stack| ==> Prefix(t, k) == Prefix(stack, k);
      assert k == |t| ==> Prefix(t, k) == t;
    }
  }

  lemma PushKeepsExplored<S, I, O>(m: Model<S, I, O>, ops: seq<Operation<I, O>>, size: nat, partial: bool,
                                   stack: seq<nat>, visited: set<seq<nat>>, longest: seq<Option<seq<nat>>>, a: nat)
    requires Explored(m, ops, size, partial, stack, visited, longest)
    ensures Explored(m, ops, size, partial, stack + [a], visited + {stack + [a]}, longest)
  {
    var t, now := stack + [a], visited + {stack + [a]};
    forall q | q in now && !(q <= t) ensures Finished(m, ops, size, partial, now, longest, q) {
      assert !(q <= stack);
      ClosedMonotone(m, ops, visited, now, q, size, size);
    }
  }

  lemma PushKeepsScanned<S, I, O>(m: Model<S, I, O>, ops: seq<Operation<I, O>>, stack: seq<nat>,
        visited: set<seq<nat>>, a: nat)
    requires Scanned(m, ops, stack, visited)
    requires a < |ops|
    requires ClosedUpTo(m, ops, visited, stack, ops[a].call)
    ensures Scanned(m, ops, stack + [a], visited + {stack + [a]})
  {
    var t, now := stack + [a], visited + {stack + [a]};
    forall k | 0 <= k < |t|
      ensures t[k] < |ops| && ClosedUpTo(m, ops, now, Prefix(t, k), ops[t[k]].call)
    {
      assert Prefix(t, k) == Prefix(stack, k);
      assert k == |stack| ==> Prefix(stack, k) == stack;
      ClosedMonotone(m, ops, visited, now, Prefix(stack, k), ops[t[k]].call, ops[t[k]].call);
    }
  }

  lemma NothingBeforeFirst<S, I, O>(m: Model<S, I, O>, h: seq<Entry<I, O>>, visited: set<seq<nat>>, stack: seq<nat>)
    requires WellFormed(h)
    ensures ClosedUpTo(m, OpsOf(h), visited, stack, NextLive(h, stack, 0))
  {
    forall b: nat | b < |OpsOf(h)| && IsPartial(m, OpsOf(h), stack + [b])
      ensures !(OpsOf(h)[b].call < NextLive(h, stack, 0))
    {
      PartialSnoc(m, OpsOf(h), stack, b);
      CallIsLive(h, stack, b);
    }
  }

  lemma BackOutKeepsInv<S(!new), I(!new), O(!new)>(m: Model<S, I, O>, h: seq<Entry<I, O>>, partial: bool, s: State,
        t: State)
    requires WellFormed(h) && ValidModel(m)
    requires Inv(m, h, partial, s)
    requires BacksOut(h, partial, s, t)
    ensures Inv(m, h, partial, t)
  {
    assert s.stack == Prefix(s.stack, |s.stack|);
    VisitedIsCovered(m, OpsOf(h), s.visited, s.stack);
    PopCovered(m, h, partial, s.stack, s.visited, s.longest, s.cursor);
  }

  lemma PopCovered<S, I, O>(m: Model<S, I, O>, h: seq<Entry<I, O>>, partial: bool,
                            stack: seq<nat>, visited: set<seq<nat>>, longest: seq<Option<seq<nat>>>, cursor: nat)
    requires WellFormed(h)
    requires Covered(m, OpsOf(h), visited, stack)
    requires Coherent(m, OpsOf(h), |h|, partial, stack, visited, longest)
    requires ClosedUpTo(m, OpsOf(h), visited, stack, cursor)
    requires Live(h, stack, cursor) && h[cursor].ReturnEntry?
    requires stack != [] && stack[|stack| - 1] < |h| / 2
    ensures Inv(m, h, partial, BackedOut(h, partial, stack, visited, longest))
  {
    PopKeepsCoherent(m, h, partial, stack, visited, longest, cursor);
    PopKeepsCursor(m, h, stack);
    PopClosed(m, h, visited, stack);
  }

  lemma PopKeepsCoherent<S, I, O>(m: Model<S, I, O>, h: seq<Entry<I, O>>, partial: bool,
                                  stack: seq<nat>, visited: set<seq<nat>>, longest: seq<Option<seq<nat>>>, cursor: nat)
    requires WellFormed(h)
    requires Coherent(m, OpsOf(h), |h|, partial, stack, visited, longest)
    requires Live(h, stack, cursor) && h[cursor].ReturnEntry?
    requires ClosedUpTo(m, OpsOf(h), visited, stack, cursor)
    requires stack != []
    ensures Coherent(m, OpsOf(h), |h|, partial, stack[..|stack| - 1], visited, if partial then Record(longest, stack)
            else longest)
  {
    NotFull(m, h, stack, cursor);
    DeadEndIsClosed(m, h, visited, stack, cursor);
    PopKeepsRest(m, OpsOf(h), |h|, partial, stack, visited, longest, if partial then Record(longest, stack)
        else longest);
  }

  lemma PopKeepsRest<S, I, O>(m: Model<S, I, O>, ops: seq<Operation<I, O>>, size: nat, partial: bool, stack: seq<nat>,
        visited: set<seq<nat>>, longest: seq<Option<seq<nat>>>, better: seq<Option<seq<nat>>>)
    requires Coherent(m, ops, size, partial, stack, visited, longest)
    requires ClosedUpTo(m, ops, visited, stack, size)
    requires 0 < |stack| < |ops|
    requires better == if partial then Record(longest, stack) else longest
    ensures Coherent(m, ops, size, partial, stack[..|stack| - 1], visited, better)
  {
    PopKeepsStack(m, ops, stack, visited);
    PopKeepsScanned(m, ops, stack, visited);
    PopKeepsExplored(m, ops, size, partial, stack, visited, longest, better);
  }

  lemma NotFull<S, I, O>(m: Model<S, I, O>, h: seq<Entry<I, O>>, stack: seq<nat>, cursor: nat)
    requires WellFormed(h)
    requires IsPartial(m, OpsOf(h), stack)
    requires Live(h, stack, cursor)
    ensures |stack| < |OpsOf(h)|
  {
    var ops := OpsOf(h);
    PartialFacts(m, ops, stack);
    Pigeonhole(stack, |ops|);
    assert h[cursor].id in Below(|ops|);
  }

  lemma PopKeepsStack<S, I, O>(m: Model<S, I, O>, ops: seq<Operation<I, O>>, stack: seq<nat>, visited: set<seq<nat>>)
    requires StackOk(m, ops, stack, visited)
    requires 0 < |stack| < |ops|
    ensures StackOk(m, ops, stack[..|stack| - 1], visited)
  {
    var t := stack[..|stack| - 1];
    forall k | 0 <= k <= |t| ensures Prefix(t, k) in visited {
      assert Prefix(t, k) == Prefix(stack, k);
    }
  }

  lemma PopKeepsCursor<S, I, O>(m: Model<S, I, O>, h: seq<Entry<I, O>>, stack: seq<nat>)
    requires WellFormed(h)
    requires IsPartial(m, OpsOf(h), stack)
    requires stack != []
    requires stack[|stack| - 1] < |h| / 2
    ensures var t := stack[..|stack| - 1];
            var p := NextLive(h, t, CallAt(h, stack[|stack| - 1]) + 1);
            p < |h| && CursorOk(h, t, p)
  {
    var ops := OpsOf(h);
    var t, a := stack[..|stack| - 1], stack[|stack| - 1];
    assert Minimal(ops, t, a);
    assert Live(h, t, ReturnAt(h, a));
    forall k | 0 <= k < NextLive(h, t, CallAt(h, a) + 1) && Live(h, t, k) ensures h[k].CallEntry? {
      var b := h[k].id;
      assert k <= CallAt(h, a);
      assert !Precedes(ops, b, a);
      assert !IsReturn(h, k, b);
    }
  }

  lemma PopKeepsScanned<S, I, O>(m: Model<S, I, O>, ops: seq<Operation<I, O>>, stack: seq<nat>, visited: set<seq<nat>>)
    requires Scanned(m, ops, stack, visited)
    requires stack != []
    ensures Scanned(m, ops, stack[..|stack| - 1], visited)
  {
    var t := stack[..|stack| - 1];
    forall k | 0 <= k < |t| ensures t[k] < |ops| && ClosedUpTo(m, ops, visited, Prefix(t, k), ops[t[k]].call) {
      assert Prefix(t, k) == Prefix(stack, k);
    }
  }

  lemma PopKeepsExplored<S, I, O>(m: Model<S, I, O>, ops: seq<Operation<I, O>>, size: nat, partial: bool,
        stack: seq<nat>, visited: set<seq<nat>>, longest: seq<Option<seq<nat>>>, better: seq<Option<seq<nat>>>)
    requires Explored(m, ops, size, partial, stack, visited, longest)
    requires LongestOk(m, ops, longest)
    requires IsPartial(m, ops, stack)
    requires ClosedUpTo(m, ops, visited, stack, size)
    requires stack != []
    requires better == if partial then Record(longest, stack) else longest
    ensures Explored(m, ops, size, partial, stack[..|stack| - 1], visited, better)
    ensures LongestOk(m, ops, better)
  {
    var t := stack[..|stack| - 1];
    PartialFacts(m, ops, stack);
    forall q | q in visited && !(q <= t) ensures Finished(m, ops, size, partial, visited, better, q) {
      if q != stack {
        assert !(q <= stack);
        assert Finished(m, ops, size, partial, visited, longest, q);
      }
      assert partial ==> Recorded(better, q);
    }
  }

  lemma PopClosed<S, I, O>(m: Model<S, I, O>, h: seq<Entry<I, O>>, visited: set<seq<nat>>, stack: seq<nat>)
    requires WellFormed(h)
    requires stack != [] && stack[|stack| - 1] < |h| / 2
    requires Covered(m, OpsOf(h), visited, stack)
    requires Scanned(m, OpsOf(h), stack, visited)
    ensures var t := stack[..|stack| - 1];
            ClosedUpTo(m, OpsOf(h), visited, t, NextLive(h, t, CallAt(h, stack[|stack| - 1]) + 1))
  {
    var t, p := stack[..|stack| - 1], CallAt(h, stack[|stack| - 1]);
    assert stack == t + [h[p].id];
    assert Prefix(stack, |stack| - 1) == t;
    SkipClosed(m, h, visited, t, p);
  }

  lemma DeadEndIsClosed<S, I, O>(m: Model<S, I, O>, h: seq<Entry<I, O>>, visited: set<seq<nat>>, stack: seq<nat>,
        cursor: nat)
    requires WellFormed(h)
    requires Live(h, stack, cursor) && h[cursor].ReturnEntry?
    requires ClosedUpTo(m, OpsOf(h), visited, stack, cursor)
    ensures ClosedUpTo(m, OpsOf(h), visited, stack, |h|)
  {
    var ops := OpsOf(h);
    forall b: nat | b < |ops| && ops[b].call < |h| && IsPartial(m, ops, stack + [b])
      ensures Covered(m, ops, visited, stack + [b])
    {
      PartialSnoc(m, ops, stack, b);
      assert ops[b].call < cursor by {
        if ops[b].call >= cursor {
          ReturnBlocks(h, stack, cursor, b);
        }
      }
    }
  }

  // ---------------------------------------------------------------- start and verdicts

  /** The search starts with the empty stack and the cursor on the first entry. */
  ghost function Start(n: nat): State {
    State([], 0, {[]}, seq(n, _ => None))
  }

  lemma StartInv<S, I, O>(m: Model<S, I, O>, h: seq<Entry<I, O>>, partial: bool)
    requires WellFormed(h)
    ensures Inv(m, h, partial, Start(|h| / 2))
  {
  }

  /** Nothing is linked any more: the stack is a linearization. */
  lemma FoundVerdict<S, I, O>(m: Model<S, I, O>, h: seq<Entry<I, O>>, partial: bool, s: State)
    requires WellFormed(h)
    requires Inv(m, h, partial, s)
    requires s.cursor == |h|
    ensures Linearizes(m, OpsOf(h), s.stack)
    ensures |s.stack| == |h| / 2
  {
    var ops := OpsOf(h);
    PartialFacts(m, ops, s.stack);
    forall a: nat | a < |ops| ensures a in s.stack {
      assert !Live(h, s.stack, CallAt(h, a));
    }
    assert Ids(s.stack) == Below(|ops|);
    Pigeonhole(s.stack, |ops|);
    CompletePartial(m, ops, s.stack);
  }

  /** If every visited stack is closed, every partial linearization is covered. */
  lemma {:induction false} ClosureCovers<S(!new), I(!new), O(!new)>(m: Model<S, I, O>, ops: seq<Operation<I, O>>,
                                                                    visited: set<seq<nat>>, size: int, p: seq<nat>)
    requires ValidModel(m)
    requires [] in visited
    requires forall q :: q in visited ==> IsPartial(m, ops, q) && ClosedUpTo(m, ops, visited, q, size)
    requires forall a :: 0 <= a < |ops| ==> ops[a].call < size
    requires IsPartial(m, ops, p)
    ensures Covered(m, ops, visited, p)
  {
    if p == [] {
      VisitedIsCovered(m, ops, visited, p);
    } else {
      var done, a := p[..|p| - 1], p[|p| - 1];
      assert p == done + [a];
      PartialSnoc(m, ops, done, a);
      ClosureCovers(m, ops, visited, size, done);
      var q :| q in visited && Same(m, ops, q, done);
      SameExtends(m, ops, q, done, a);
      assert Covered(m, ops, visited, q + [a]);
      var r :| r in visited && Same(m, ops, r, q + [a]);
      assert Same(m, ops, r, p);
    }
  }

  /** Stacks the cache cannot tell apart have the same extensions. */
  lemma SameExtends<S(!new), I(!new), O(!new)>(m: Model<S, I, O>, ops: seq<Operation<I, O>>, q: seq<nat>, p: seq<nat>,
        a: nat)
    requires ValidModel(m)
    requires IsPartial(m, ops, q) && IsPartial(m, ops, p + [a])
    requires Same(m, ops, q, p)
    ensures IsPartial(m, ops, q + [a])
    ensures Same(m, ops, q + [a], p + [a])
  {
    PartialSnoc(m, ops, p, a);
    PartialSnoc(m, ops, q, a);
    assert forall x :: x in p <==> x in q by {
      assert forall x :: x in p <==> x in Ids(p);
      assert forall x :: x in q <==> x in Ids(q);
    }
    assert Minimal(ops, q, a);
    IdsOfSnoc(p, a);
    IdsOfSnoc(q, a);
  }

  /** The scan reached a return with nothing to back out of: everything reachable is covered. */
  lemma ExhaustedCovers<S(!new), I(!new), O(!new)>(m: Model<S, I, O>, h: seq<Entry<I, O>>, partial: bool, s: State,
        p: seq<nat>)
    requires WellFormed(h) && ValidModel(m)
    requires Inv(m, h, partial, s)
    requires s.cursor < |h| && h[s.cursor].ReturnEntry?
    requires s.stack == []
    requires IsPartial(m, OpsOf(h), p)
    ensures exists q :: q in s.visited && Same(m, OpsOf(h), q, p) && |q| == |p| < |OpsOf(h)|
    ensures partial ==> Recorded(s.longest, p)
  {
    var ops := OpsOf(h);
    DeadEndIsClosed(m, h, s.visited, [], s.cursor);
    assert Prefix(s.stack, 0) in s.visited;
    forall q | q in s.visited ensures IsPartial(m, ops, q) && Finished(m, ops, |h|, partial, s.visited, s.longest, q) {
      assert q <= [] ==> q == [];
    }
    ClosureCovers(m, ops, s.visited, |h|, p);
    var q :| q in s.visited && Same(m, ops, q, p);
    PartialFacts(m, ops, p);
    PartialFacts(m, ops, q);
    DistinctSize(p);
    DistinctSize(q);
    Pigeonhole(q, |ops|);
    NotFull(m, h, [], s.cursor);
    forall i | i in p ensures i in q {
      assert i in Ids(p);
    }
    assert partial ==> Recorded(s.longest, q);
  }

  lemma ExhaustedVerdict<S(!new), I(!new), O(!new)>(m: Model<S, I, O>, h: seq<Entry<I, O>>, partial: bool, s: State)
    requires WellFormed(h) && ValidModel(m)
    requires Inv(m, h, partial, s)
    requires s.cursor < |h| && h[s.cursor].ReturnEntry?
    requires s.stack == []
    ensures !Linearizable(m, OpsOf(h))
    ensures partial ==> forall p :: IsPartial(m, OpsOf(h), p) ==> Recorded(s.longest, p)
  {
    forall p | Linearizes(m, OpsOf(h), p) ensures false {
      CompletePartial(m, OpsOf(h), p);
      ExhaustedCovers(m, h, partial, s, p);
    }
    forall p | IsPartial(m, OpsOf(h), p) ensures partial ==> Recorded(s.longest, p) {
      ExhaustedCovers(m, h, partial, s, p);
    }
  }

  // ---------------------------------------------------------------- runs

  /** `run` is a run of the search from its start. */
  ghost predicate IsRun<S, I, O>(m: Model<S, I, O>, h: seq<Entry<I, O>>, partial: bool, run: seq<State>)
    requires WellFormed(h)
  {
    if |run| < 2 then run == [Start(|h| / 2)]
    else Moves(m, h, partial, run[|run| - 2], run[|run| - 1]) && IsRun(m, h, partial, run[..|run| - 1])
  }

  lemma MoveKeepsInv<S(!new), I(!new), O(!new)>(m: Model<S, I, O>, h: seq<Entry<I, O>>, partial: bool, s: State,
        t: State)
    requires WellFormed(h) && ValidModel(m)
    requires Inv(m, h, partial, s)
    requires Moves(m, h, partial, s, t)
    ensures Inv(m, h, partial, t)
  {
    if Skips(m, h, s, t) {
      SkipKeepsInv(m, h, partial, s, t);
    } else if Takes(m, h, s, t) {
      TakeKeepsInv(m, h, partial, s, t);
    } else {
      BackOutKeepsInv(m, h, partial, s, t);
    }
  }

  /** Every run of the search ends in a state that satisfies the invariant. */
  lemma {:induction false} RunInv<S(!new), I(!new), O(!new)>(m: Model<S, I, O>, h: seq<Entry<I, O>>, partial: bool,
        run: seq<State>)
    requires WellFormed(h) && ValidModel(m)
    requires IsRun(m, h, partial, run)
    ensures run != [] && Inv(m, h, partial, run[|run| - 1])
  {
    if |run| < 2 {
      StartInv(m, h, partial);
    } else {
      var init, s, t := run[..|run| - 1], run[|run| - 2], run[|run| - 1];
      assert init[|init| - 1] == s;
      RunInv(m, h, partial, init);
      MoveKeepsInv(m, h, partial, s, t);
    }
  }

  lemma RunSnoc<S, I, O>(m: Model<S, I, O>, h: seq<Entry<I, O>>, partial: bool, run: seq<State>, t: State)
    requires WellFormed(h)
    requires IsRun(m, h, partial, run)
    requires run != [] && Moves(m, h, partial, run[|run| - 1], t)
    ensures IsRun(m, h, partial, run + [t])
  {
    var more := run + [t];
    assert more[..|more| - 1] == run;
    assert more[|more| - 2] == run[|run| - 1] && more[|more| - 1] == t;
  }

  // ---------------------------------------------------------------- the one run of the search

  /** Nothing is left to back out of. */
  predicate NothingLeft<I, O>(h: seq<Entry<I, O>>, s: State) {
    s.cursor < |h| && h[s.cursor].ReturnEntry? && s.stack == []
  }

  lemma MovesAgree<S, I, O>(m: Model<S, I, O>, h: seq<Entry<I, O>>, partial: bool, s: State, t: State, u: State)
    requires WellFormed(h) && Moves(m, h, partial, s, t) && Moves(m, h, partial, s, u)
    ensures t == u && s.cursor < |h| && !NothingLeft(h, s)
  {
  }

  lemma {:induction false} RunMove<S, I, O>(m: Model<S, I, O>, h: seq<Entry<I, O>>, partial: bool, run: seq<State>,
        k: nat)
    requires WellFormed(h) && IsRun(m, h, partial, run) && k < |run|
    ensures if k == 0 then run[0] == Start(|h| / 2) else Moves(m, h, partial, run[k - 1], run[k])
    decreases |run|
  {
    if k < |run| - 1 {
      RunMove(m, h, partial, run[..|run| - 1], k);
    }
  }

  /** Two runs do the same as long as both last. */
  lemma {:induction false} RunsAgree<S, I, O>(m: Model<S, I, O>, h: seq<Entry<I, O>>, partial: bool, a: seq<State>,
        b: seq<State>, k: nat)
    requires WellFormed(h) && IsRun(m, h, partial, a) && IsRun(m, h, partial, b) && k < |a| && k < |b|
    ensures a[k] == b[k]
  {
    if k > 0 {
      RunsAgree(m, h, partial, a, b, k - 1);
    }
    NextAgrees(m, h, partial, a, b, k);
  }

  lemma NextAgrees<S, I, O>(m: Model<S, I, O>, h: seq<Entry<I, O>>, partial: bool, a: seq<State>, b: seq<State>, k: nat)
    requires WellFormed(h) && IsRun(m, h, partial, a) && IsRun(m, h, partial, b) && k < |a| && k < |b|
    requires k > 0 ==> a[k - 1] == b[k - 1]
    ensures a[k] == b[k]
  {
    RunMove(m, h, partial, a, k);
    RunMove(m, h, partial, b, k);
    if k > 0 {
      MovesAgree(m, h, partial, a[k - 1], a[k], b[k]);
    }
  }

  /** The first `n` turns read the flag down. */
  ghost predicate DownBefore(kill: nat -> bool, n: nat) {
    forall t: nat :: t < n ==> !kill(t)
  }

  /** How a search ends whose turn `t` reads `kill(t)` from the stop flag: it makes its turns while the
      flag is down; when nothing is linked any more it answers yes with its stack for every operation;
      when the flag is up, or nothing is left to back out of, it answers no with what it has recorded. */
  ghost predicate Outcome<S, I, O>(m: Model<S, I, O>, h: seq<Entry<I, O>>, partial: bool, kill: nat -> bool,
        run: seq<State>, ok: bool, longest: seq<Option<seq<nat>>>)
    requires WellFormed(h)
  {
    && IsRun(m, h, partial, run) && run != []
    && DownBefore(kill, |run| - 1)
    && var last := run[|run| - 1];
       if last.cursor == |h| then ok && longest == seq(|h| / 2, _ => Some(last.stack))
       else !ok && longest == last.longest && (kill(|run| - 1) || NothingLeft(h, last))
  }

  lemma OutcomeOf<S, I, O>(m: Model<S, I, O>, h: seq<Entry<I, O>>, partial: bool, kill: nat -> bool, a: seq<State>,
        ok: bool, longest: seq<Option<seq<nat>>>, b: seq<State>, ok': bool, longest': seq<Option<seq<nat>>>)
    requires WellFormed(h) && |a| <= |b|
    requires Outcome(m, h, partial, kill, a, ok, longest) && Outcome(m, h, partial, kill, b, ok', longest')
    ensures ok == ok' && longest == longest' && |a| == |b|
  {
    var k := |a| - 1;
    RunsAgree(m, h, partial, a, b, k);
    if |a| < |b| {
      RunMove(m, h, partial, b, k + 1);
      MovesAgree(m, h, partial, b[k], b[k + 1], b[k + 1]);
    }
  }

  /** Model, history and flag leave one outcome. */
  lemma OneOutcome<S, I, O>(m: Model<S, I, O>, h: seq<Entry<I, O>>, partial: bool, kill: nat -> bool, a: seq<State>,
        ok: bool, longest: seq<Option<seq<nat>>>, b: seq<State>, ok': bool, longest': seq<Option<seq<nat>>>)
    requires WellFormed(h)
    requires Outcome(m, h, partial, kill, a, ok, longest) && Outcome(m, h, partial, kill, b, ok', longest')
    ensures ok == ok' && longest == longest' && |a| == |b|
  {
    if |a| <= |b| {
      OutcomeOf(m, h, partial, kill, a, ok, longest, b, ok', longest');
    } else {
      OutcomeOf(m, h, partial, kill, b, ok', longest', a, ok, longest);
    }
  }

  /** A search whose turn `t` reads the flag up makes no more than `t` turns; if it would have gone on
      after them, it answers no, with what it had recorded by then. */
  lemma StopsInTime<S, I, O>(m: Model<S, I, O>, h: seq<Entry<I, O>>, partial: bool, kill: nat -> bool, run: seq<State>,
        ok: bool, longest: seq<Option<seq<nat>>>, full: seq<State>, t: nat)
    requires WellFormed(h) && Outcome(m, h, partial, kill, run, ok, longest) && kill(t)
    requires IsRun(m, h, partial, full) && t < |full| - 1
    ensures |run| - 1 <= t && !ok && longest == full[|run| - 1].longest
  {
    var k := |run| - 1;
    RunsAgree(m, h, partial, run, full, k);
    RunMove(m, h, partial, full, k + 1);
    MovesAgree(m, h, partial, full[k], full[k + 1], full[k + 1]);
  }

  /** A search that finds the flag up at once has done nothing. */
  lemma StopsAtOnce<S, I, O>(m: Model<S, I, O>, h: seq<Entry<I, O>>, partial: bool, kill: nat -> bool, run: seq<State>,
        ok: bool, longest: seq<Option<seq<nat>>>)
    requires WellFormed(h) && Outcome(m, h, partial, kill, run, ok, longest) && kill(0) && h != []
    ensures !ok && longest == seq(|h| / 2, _ => None)
  {
    RunMove(m, h, partial, run, 0);
  }

  // ---------------------------------------------------------------- termination

  /** All lists over the ids below `n` of length at most `len`: a finite bound on what can be visited,
      whatever the type of model states. */
  ghost function Lists(n: nat, len: nat): set<seq<nat>> {
    if len == 0 then {[]}
    else Lists(n, len - 1) + set p, a | p in Lists(n, len - 1) && a in Below(n) :: p + [a]
  }

  lemma {:induction false} InLists(n: nat, len: nat, p: seq<nat>)
    requires |p| <= len
    requires forall k :: 0 <= k < |p| ==> p[k] < n
    ensures p in Lists(n, len)
  {
    if p == [] {
      if len > 0 {
        InLists(n, len - 1, p);
      }
    } else {
      var done, a := p[..|p| - 1], p[|p| - 1];
      InLists(n, len - 1, done);
      assert p == done + [a];
    }
  }

  lemma VisitedInLists<S, I, O>(m: Model<S, I, O>, ops: seq<Operation<I, O>>, visited: set<seq<nat>>)
    requires forall q :: q in visited ==> IsPartial(m, ops, q)
    ensures visited <= Lists(|ops|, |ops|)
  {
    forall q | q in visited ensures q in Lists(|ops|, |ops|) {
      PartialFacts(m, ops, q);
      Pigeonhole(q, |ops|);
      InLists(|ops|, |ops|, q);
    }
  }

  /** How many stacks are still to be entered. */
  ghost function Unvisited(n: nat, visited: set<seq<nat>>): nat {
    |Lists(n, n) - visited|
  }

  /** Entering a new stack leaves strictly fewer to enter. */
  lemma PushDecreases<S, I, O>(m: Model<S, I, O>, ops: seq<Operation<I, O>>, visited: set<seq<nat>>, p: seq<nat>)
    requires IsPartial(m, ops, p)
    requires p !in visited
    ensures Unvisited(|ops|, visited + {p}) < Unvisited(|ops|, visited)
  {
    VisitedInLists(m, ops, {p});
    assert Lists(|ops|, |ops|) - visited == (Lists(|ops|, |ops|) - (visited + {p})) + {p};
  }
}
