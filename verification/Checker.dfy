/** The linearizability checker for one history: the depth-first search with its linked list, its
    stack of calls, its bitset and its cache.
    Where a predicate names its conjunction `holds`, it is proved and used as one fact. */
module Checker {
  import opened Histories
  import opened Entries
  import opened Search
  import opened Caches
  import opened LinkedEntries
  import opened Weaving
  import Bitsets

  /** What to go back to: the call that was taken and the state before it. */
  datatype CallsEntry<S, I, O> = CallsEntry(entry: Node<I, O>, state: S)

  /** What does not change during one search. */
  datatype Setting<!S, !I, !O> = Setting(m: Model<S, I, O>, h: seq<Entry<I, O>>, ops: seq<Operation<I, O>>,
                                         l: Layout, nodes: seq<Node<I, O>>, head: Node<I, O>, partial: bool)

  ghost predicate ValidSetting<S(!new), I(!new), O(!new)>(c: Setting<S, I, O>) {
    var holds :=
      && ValidModel(c.m)
      && WellFormed(c.h)
      && c.ops == OpsOf(c.h)
      && c.l == LayoutOf(c.h)
      && Built(c.l, c.h, 0, c.nodes);
    holds
  }

  ghost predicate CallsOk<S, I, O>(c: Setting<S, I, O>, calls: seq<CallsEntry<S, I, O>>, stack: seq<nat>) {
    && |calls| == |stack|
    && forall k {:trigger calls[k]} :: 0 <= k < |calls| ==> CallOk(c, calls[k], stack[..k], stack[k])
  }

  ghost predicate CallOk<S, I, O>(c: Setting<S, I, O>, call: CallsEntry<S, I, O>, done: seq<nat>, a: nat) {
    && a < |c.l.call| && c.l.call[a] < |c.nodes|
    && call.entry == c.nodes[c.l.call[a]]
    && call.entry.id == a
    && Replay(c.m, c.ops, done) == Some(call.state)
  }

  /** The variables of the search stand for this stack, cursor and set of visited stacks. */
  ghost predicate Tied<S, I, O>(c: Setting<S, I, O>, stack: seq<nat>, cursor: nat, visited: set<seq<nat>>,
        entry: Node?<I, O>, state: S, calls: seq<CallsEntry<S, I, O>>, linearized: array<Bitsets.Word>,
        cache: Buckets<S>, origin: map<Bitsets.Word, seq<seq<nat>>>, arrays: set<array<Bitsets.Word>>)
    reads c.nodes, c.head, linearized, arrays
  {
    var holds :=
      && Woven(c.l, c.nodes, c.head, stack)
      && entry == NodeAt(0, c.nodes, cursor)
      && Replay(c.m, c.ops, stack) == Some(state)
      && CallsOk(c, calls, stack)
      && MemoTied(c.m, c.ops, stack, visited, linearized, cache, origin, arrays);
    holds
  }

  /** The stack is legal and its operations with its state are new. */
  ghost predicate NotYet<S, I, O>(m: Model<S, I, O>, ops: seq<Operation<I, O>>, visited: set<seq<nat>>, p: seq<nat>) {
    forall x: nat {:trigger Look(x)} :: Look(x) ==> IsPartial(m, ops, p) && !Covered(m, ops, visited, p)
  }

  /** The stack is not legal or there is nothing new to it. */
  ghost predicate Settled<S, I, O>(m: Model<S, I, O>, ops: seq<Operation<I, O>>, visited: set<seq<nat>>, p: seq<nat>) {
    forall x: nat {:trigger Look(x)} :: Look(x) ==> !IsPartial(m, ops, p) || Covered(m, ops, visited, p)
  }

  /** Steps the model over the call under the cursor and looks the result up in the cache; the
      result is the pair to remember when the call should be taken. */
  method Examine<S(!new), I(!new), O(!new)>(m: Model<S, I, O>, state: S, input: I, output: O, id: nat,
      linearized: array<Bitsets.Word>, cache: Buckets<S>,
      ghost ops: seq<Operation<I, O>>, ghost stack: seq<nat>, ghost origin: map<Bitsets.Word, seq<seq<nat>>>,
      ghost arrays: set<array<Bitsets.Word>>, ghost visited: set<seq<nat>>)
    returns (pair: Option<CacheEntry<S>>)
    requires ValidModel(m)
    requires IsPartial(m, ops, stack) && Minimal(ops, stack, id)
    requires input == ops[id].input && output == ops[id].output
    requires Replay(m, ops, stack) == Some(state)
    requires MemoTied(m, ops, stack, visited, linearized, cache, origin, arrays)
    ensures MemoTied(m, ops, stack, visited, linearized, cache, origin, arrays)
    ensures pair.None? ==> Settled(m, ops, visited, stack + [id])
    ensures pair.Some? ==>
              && fresh(pair.value.linearized)
              && NotYet(m, ops, visited, stack + [id])
              && EntryOk(m, ops, linearized.Length, pair.value, stack + [id], Bitsets.HashOf(pair.value.linearized[..]))
  {
    var (ok, newState) := m.step(state, input, output);
    PartialSnoc(m, ops, stack, id);
    if !ok {
      return None;
    }
    var newLinearized := Bitsets.Clone(linearized);
    Bitsets.Set(newLinearized, id, Ids(stack));
    IdsOfSnoc(stack, id);
    var entry := CacheEntry(newLinearized, newState);
    var found := CacheContains(m, cache, entry, ops, origin, arrays, visited, stack + [id]);
    return if found then None else Some(entry);
  }

  /** The variables that speak of the cache and the bitset only. */
  ghost predicate MemoTied<S, I, O>(m: Model<S, I, O>, ops: seq<Operation<I, O>>, stack: seq<nat>,
        visited: set<seq<nat>>, linearized: array<Bitsets.Word>, cache: Buckets<S>,
        origin: map<Bitsets.Word, seq<seq<nat>>>, arrays: set<array<Bitsets.Word>>)
    reads linearized, arrays
  {
    var holds :=
      && linearized.Length == Bitsets.Chunks(|ops|)
      && Bitsets.Represents(linearized[..], Ids(stack))
      && linearized !in arrays
      && CacheOk(m, ops, linearized.Length, cache, origin, arrays)
      && Remembers(origin, visited);
    holds
  }

  /** Taking a call: the pair goes into the cache, and the live bitset gains the operation. The
      cached clones are untouched. */
  method Memorise<S(!new), I(!new), O(!new)>(m: Model<S, I, O>, pair: CacheEntry<S>, id: nat,
        linearized: array<Bitsets.Word>, cache: Buckets<S>, ghost ops: seq<Operation<I, O>>, ghost stack: seq<nat>,
        ghost visited: set<seq<nat>>, ghost origin: map<Bitsets.Word, seq<seq<nat>>>,
        ghost arrays: set<array<Bitsets.Word>>)
    returns (cache': Buckets<S>, ghost origin': map<Bitsets.Word, seq<seq<nat>>>)
    requires MemoTied(m, ops, stack, visited, linearized, cache, origin, arrays)
    requires id < |ops|
    requires pair.linearized != linearized
    requires EntryOk(m, ops, linearized.Length, pair, stack + [id], Bitsets.HashOf(pair.linearized[..]))
    modifies linearized
    ensures MemoTied(m, ops, stack + [id], visited + {stack + [id]}, linearized, cache', origin',
            arrays + {pair.linearized})
  {
    cache', origin' := Insert(m, cache, pair, ops, origin, arrays, visited, stack + [id]);
    Bitsets.Set(linearized, id, Ids(stack));
    IdsOfSnoc(stack, id);
  }

  /** Backing out: the live bitset loses the operation, the cache stays. */
  method Forget<S(!new), I(!new), O(!new)>(m: Model<S, I, O>, id: nat, linearized: array<Bitsets.Word>,
        cache: Buckets<S>, ghost ops: seq<Operation<I, O>>, ghost stack: seq<nat>, ghost visited: set<seq<nat>>,
        ghost origin: map<Bitsets.Word, seq<seq<nat>>>, ghost arrays: set<array<Bitsets.Word>>)
    requires MemoTied(m, ops, stack + [id], visited, linearized, cache, origin, arrays)
    requires id < |ops| && id !in stack
    modifies linearized
    ensures MemoTied(m, ops, stack, visited, linearized, cache, origin, arrays)
  {
    IdsOfSnoc(stack, id);
    Bitsets.Clear(linearized, id, Ids(stack + [id]));
    assert Ids(stack + [id]) - {id} == Ids(stack);
  }

  // ---------------------------------------------------------------- the moves on the variables

  /** The ids on the stack of calls. */
  method CallIds<S, I, O>(calls: seq<CallsEntry<S, I, O>>, ghost stack: seq<nat>, ghost c: Setting<S, I, O>)
    returns (ids: seq<nat>)
    requires CallsOk(c, calls, stack)
    ensures ids == stack
  {
    ids := [];
    for i := 0 to |calls|
      invariant |ids| == i
      invariant forall k :: 0 <= k < i ==> ids[k] == stack[k]
    {
      assert CallOk(c, calls[i], stack[..i], stack[i]);
      ids := ids + [calls[i].entry.id];
    }
  }

  /** The records after the first `i` calls of the stack. */
  ghost function RecordUpTo(longest: seq<Option<seq<nat>>>, stack: seq<nat>, i: nat): (r: seq<Option<seq<nat>>>)
    requires i <= |stack|
    requires forall k :: 0 <= k < |stack| ==> stack[k] < |longest|
    ensures |r| == |longest|
  {
    if i == 0 then longest
    else
      var r := RecordUpTo(longest, stack, i - 1);
      var id := stack[i - 1];
      if r[id].None? || |stack| > |r[id].value| then r[id := Some(stack)] else r
  }

  lemma {:induction false} RecordsSoFar(longest: seq<Option<seq<nat>>>, stack: seq<nat>, i: nat)
    requires i <= |stack|
    requires forall k :: 0 <= k < |stack| ==> stack[k] < |longest|
    requires Distinct(stack)
    ensures forall k :: 0 <= k < |longest| ==>
              RecordUpTo(longest, stack, i)[k] == if k in stack[..i] then Record(longest, stack)[k] else longest[k]
  {
    if i > 0 {
      RecordsSoFar(longest, stack, i - 1);
      assert stack[..i] == stack[..i - 1] + [stack[i - 1]];
      assert stack[i - 1] !in stack[..i - 1];
    }
  }

  /** The dead-end update of `longest`; the sequence is made only if some operation needs it. */
  method RecordDeadEnd<S, I, O>(calls: seq<CallsEntry<S, I, O>>, longest: seq<Option<seq<nat>>>, ghost stack: seq<nat>,
        ghost c: Setting<S, I, O>)
    returns (r: seq<Option<seq<nat>>>)
    requires CallsOk(c, calls, stack)
    requires forall k :: 0 <= k < |stack| ==> stack[k] < |longest|
    requires Distinct(stack)
    ensures r == Record(longest, stack)
  {
    r := longest;
    var ids: Option<seq<nat>> := None;
    for i := 0 to |calls|
      invariant r == RecordUpTo(longest, stack, i)
      invariant ids.Some? ==> ids.value == stack
    {
      assert CallOk(c, calls[i], stack[..i], stack[i]);
      var id := calls[i].entry.id;
      if r[id].None? || |calls| > |r[id].value| {
        if ids.None? {
          var all := CallIds(calls, stack, c);
          ids := Some(all);
        }
        r := r[id := ids];
      }
    }
    RecordsSoFar(longest, stack, |stack|);
    assert stack[..|stack|] == stack;
  }

  lemma CallsSnoc<S, I, O>(c: Setting<S, I, O>, calls: seq<CallsEntry<S, I, O>>, stack: seq<nat>,
        call: CallsEntry<S, I, O>, a: nat)
    ensures CallsOk(c, calls + [call], stack + [a]) <==> CallsOk(c, calls, stack) && CallOk(c, call, stack, a)
  {
    var more := calls + [call];
    if |calls| == |stack| {
      assert forall k :: 0 <= k < |stack| ==> (stack + [a])[..k] == stack[..k] && more[k] == calls[k];
      assert (stack + [a])[..|stack|] == stack && more[|calls|] == call;
      if CallsOk(c, more, stack + [a]) {
        forall k | 0 <= k < |calls| ensures CallOk(c, calls[k], stack[..k], stack[k]) {
          assert CallOk(c, more[k], (stack + [a])[..k], (stack + [a])[k]);
        }
        assert CallOk(c, more[|calls|], (stack + [a])[..|stack|], (stack + [a])[|stack|]);
      }
      if CallsOk(c, calls, stack) && CallOk(c, call, stack, a) {
        forall k | 0 <= k < |more| ensures CallOk(c, more[k], (stack + [a])[..k], (stack + [a])[k]) {
        }
      }
    }
  }

  /** What the node at a call's position carries. */
  lemma CallNode<S(!new), I(!new), O(!new)>(c: Setting<S, I, O>, p: nat)
    requires ValidSetting(c)
    requires p < |c.h| && c.h[p].CallEntry?
    ensures var a := c.h[p].id;
            && 0 <= a < |c.ops| && |c.ops| == |c.l.call| == |c.l.ret| && c.l.call[a] == p
               && c.l.ret[a] < |c.nodes| == |c.h|
            && c.nodes[p].id == a
            && c.nodes[p].value == Input(c.ops[a].input)
            && c.nodes[p].mate == c.nodes[c.l.ret[a]]
            && c.nodes[c.l.ret[a]].value == Output(c.ops[a].output)
  {
    var h, a := c.h, c.h[p].id;
    assert IsCall(h, p, a) && CallAt(h, a) == p;
    var r := ReturnAt(h, a);
    assert IsReturn(h, r, a);
    assert Carries(c.nodes[p - 0], h[p], NodeAt(0, c.nodes, c.l.ret[c.l.owner[p]]));
    assert Carries(c.nodes[r - 0], h[r], NodeAt(0, c.nodes, c.l.ret[c.l.owner[r]]));
    assert c.ops[a] == OpOf(h, a);
  }

  lemma ReturnNode<S(!new), I(!new), O(!new)>(c: Setting<S, I, O>, p: nat)
    requires ValidSetting(c)
    requires p < |c.h| && c.h[p].ReturnEntry?
    ensures p < |c.nodes| && c.nodes[p].mate == null
  {
    assert Carries(c.nodes[p - 0], c.h[p], NodeAt(0, c.nodes, c.l.ret[c.l.owner[p]]));
  }

  /** Lifting does not touch bitsets. */
  method LiftBesideMemo<S(!new), I(!new), O(!new)>(entry: Node<I, O>, head: Node<I, O>, ghost l: Layout,
        ghost h: seq<Entry<I, O>>, ghost nodes: seq<Node<I, O>>, ghost stack: seq<nat>, ghost a: nat,
        ghost m: Model<S, I, O>, ghost ops: seq<Operation<I, O>>, ghost visited: set<seq<nat>>,
        ghost linearized: array<Bitsets.Word>, ghost cache: Buckets<S>, ghost origin: map<Bitsets.Word, seq<seq<nat>>>,
        ghost arrays: set<array<Bitsets.Word>>)
    returns (first: Node?<I, O>)
    requires Describes(l, h) && Woven(l, nodes, head, stack)
    requires a < |l.call| && a !in stack && entry == nodes[l.call[a]]
    requires MemoTied(m, ops, stack + [a], visited, linearized, cache, origin, arrays)
    modifies nodes, head
    ensures Woven(l, nodes, head, stack + [a])
    ensures first == NodeAt(0, nodes, NextLive(h, stack + [a], 0))
    ensures MemoTied(m, ops, stack + [a], visited, linearized, cache, origin, arrays)
  {
    first := LiftAndRestart(entry, head, l, h, nodes, stack, a);
  }

  /** Takes the call under the cursor: caches the pair, pushes the call, sets the bit, lifts the
      operation and restarts at the head. */
  method TakeCall<S(!new), I(!new), O(!new)>(m: Model<S, I, O>, entry: Node<I, O>, state: S,
        calls: seq<CallsEntry<S, I, O>>, pair: CacheEntry<S>, linearized: array<Bitsets.Word>, cache: Buckets<S>,
        head: Node<I, O>, ghost c: Setting<S, I, O>, ghost stack: seq<nat>, ghost cursor: nat,
        ghost visited: set<seq<nat>>, ghost a: nat, ghost origin: map<Bitsets.Word, seq<seq<nat>>>,
        ghost arrays: set<array<Bitsets.Word>>)
    returns (entry': Node?<I, O>, calls': seq<CallsEntry<S, I, O>>, cache': Buckets<S>,
               ghost origin': map<Bitsets.Word, seq<seq<nat>>>)
    requires c.m == m && c.head == head && Describes(c.l, c.h)
    requires Tied(c, stack, cursor, visited, entry, state, calls, linearized, cache, origin, arrays)
    requires a < |c.l.call| && a < |c.ops| && a !in stack && entry == c.nodes[c.l.call[a]] && entry.id == a
    requires pair.linearized != linearized
    requires EntryOk(m, c.ops, linearized.Length, pair, stack + [a], Bitsets.HashOf(pair.linearized[..]))
    modifies linearized, c.nodes, head
    ensures Tied(c, stack + [a], NextLive(c.h, stack + [a], 0), visited + {stack + [a]},
                 entry', pair.state, calls', linearized, cache', origin', arrays + {pair.linearized})
  {
    cache', origin' := Memorise(m, pair, entry.id, linearized, cache, c.ops, stack, visited, origin, arrays);
    calls' := calls + [CallsEntry(entry, state)];
    CallsSnoc(c, calls, stack, CallsEntry(entry, state), a);
    entry' := LiftBesideMemo(entry, head, c.l, c.h, c.nodes, stack, a, m, c.ops, visited + {stack + [a]}, linearized,
                             cache', origin', arrays + {pair.linearized});
  }

  /** Unlifting does not touch bitsets. */
  method UnliftBesideMemo<S(!new), I(!new), O(!new)>(entry: Node<I, O>, ghost head: Node<I, O>, ghost l: Layout,
        ghost h: seq<Entry<I, O>>, ghost nodes: seq<Node<I, O>>, ghost stack: seq<nat>, ghost a: nat,
        ghost m: Model<S, I, O>, ghost ops: seq<Operation<I, O>>, ghost visited: set<seq<nat>>,
        ghost linearized: array<Bitsets.Word>, ghost cache: Buckets<S>, ghost origin: map<Bitsets.Word, seq<seq<nat>>>,
        ghost arrays: set<array<Bitsets.Word>>)
    returns (next: Node?<I, O>)
    requires Describes(l, h) && Woven(l, nodes, head, stack + [a])
    requires Operations(l, stack) && a < |l.call| && a !in stack && entry == nodes[l.call[a]]
    requires MemoTied(m, ops, stack, visited, linearized, cache, origin, arrays)
    modifies nodes, head
    ensures Woven(l, nodes, head, stack)
    ensures next == NodeAt(0, nodes, NextLive(h, stack, l.call[a] + 1))
    ensures MemoTied(m, ops, stack, visited, linearized, cache, origin, arrays)
  {
    next := UnliftAndResume(entry, head, l, h, nodes, stack, a);
  }

  /** Clears the bit of an operation, puts it back on the list and goes on behind it. */
  method Undo<S(!new), I(!new), O(!new)>(m: Model<S, I, O>, entry: Node<I, O>, linearized: array<Bitsets.Word>,
        cache: Buckets<S>, ghost head: Node<I, O>, ghost l: Layout, ghost h: seq<Entry<I, O>>,
        ghost nodes: seq<Node<I, O>>, ghost stack: seq<nat>, ghost a: nat, ghost ops: seq<Operation<I, O>>,
        ghost visited: set<seq<nat>>, ghost origin: map<Bitsets.Word, seq<seq<nat>>>,
        ghost arrays: set<array<Bitsets.Word>>)
    returns (next: Node?<I, O>)
    requires Describes(l, h) && Woven(l, nodes, head, stack + [a])
    requires Operations(l, stack) && a < |l.call| && a !in stack && entry == nodes[l.call[a]] && entry.id == a < |ops|
    requires MemoTied(m, ops, stack + [a], visited, linearized, cache, origin, arrays)
    modifies linearized, nodes, head
    ensures Woven(l, nodes, head, stack)
    ensures next == NodeAt(0, nodes, NextLive(h, stack, l.call[a] + 1))
    ensures MemoTied(m, ops, stack, visited, linearized, cache, origin, arrays)
  {
    Forget(m, entry.id, linearized, cache, ops, stack, visited, origin, arrays);
    next := UnliftBesideMemo(entry, head, l, h, nodes, stack, a, m, ops, visited, linearized, cache, origin, arrays);
  }

  lemma CallsPop<S, I, O>(c: Setting<S, I, O>, calls: seq<CallsEntry<S, I, O>>, stack: seq<nat>, a: nat)
    requires CallsOk(c, calls, stack + [a])
    ensures |calls| == |stack| + 1
    ensures CallsOk(c, calls[..|calls| - 1], stack)
    ensures CallOk(c, calls[|calls| - 1], stack, a)
  {
    assert calls == calls[..|calls| - 1] + [calls[|calls| - 1]];
    CallsSnoc(c, calls[..|calls| - 1], stack, calls[|calls| - 1], a);
  }

  /** Backs out of the top call. */
  method BackOut<S(!new), I(!new), O(!new)>(m: Model<S, I, O>, entry: Node<I, O>, state: S,
        calls: seq<CallsEntry<S, I, O>>, linearized: array<Bitsets.Word>, cache: Buckets<S>, ghost c: Setting<S, I, O>,
        ghost stack: seq<nat>, ghost a: nat, ghost cursor: nat, ghost visited: set<seq<nat>>,
        ghost origin: map<Bitsets.Word, seq<seq<nat>>>, ghost arrays: set<array<Bitsets.Word>>)
    returns (entry': Node?<I, O>, state': S, calls': seq<CallsEntry<S, I, O>>)
    requires c.m == m && Describes(c.l, c.h)
    requires Tied(c, stack + [a], cursor, visited, entry, state, calls, linearized, cache, origin, arrays)
    requires a !in stack && a < |c.l.call| && a < |c.ops| && Operations(c.l, stack)
    modifies linearized, c.nodes, c.head
    ensures Tied(c, stack, NextLive(c.h, stack, c.l.call[a] + 1), visited, entry', state', calls', linearized, cache,
            origin, arrays)
  {
    CallsPop(c, calls, stack, a);
    var callsTop := calls[|calls| - 1];
    state', calls' := callsTop.state, calls[..|calls| - 1];
    entry' := Undo(m, callsTop.entry, linearized, cache, c.head, c.l, c.h, c.nodes, stack, a, c.ops, visited, origin,
        arrays);
  }

  // ---------------------------------------------------------------- the search

  /** What the variables rely on: the stack is a partial linearization and only calls lie before the cursor. */
  ghost predicate Sound<S, I, O>(c: Setting<S, I, O>, s: State) {
    var holds :=
      && IsPartial(c.m, c.ops, s.stack)
      && CursorOk(c.h, s.stack, s.cursor)
      && |s.longest| == |c.ops|;
    holds
  }

  /** The node under the cursor is the call of operation `a`, which may come next. */
  ghost predicate AtCall<S, I, O>(c: Setting<S, I, O>, stack: seq<nat>, cursor: nat, a: nat) {
    var holds :=
      && Describes(c.l, c.h)
      && |c.nodes| == |c.h| && |c.ops| == |c.l.call|
      && IsPartial(c.m, c.ops, stack)
      && Minimal(c.ops, stack, a)
      && Live(c.h, stack, cursor)
      && c.l.call[a] == cursor
      && c.nodes[cursor].id == a
      && c.nodes[cursor].value == Input(c.ops[a].input)
      && c.nodes[cursor].mate == c.nodes[c.l.ret[a]]
      && c.nodes[c.l.ret[a]].value == Output(c.ops[a].output);
    holds
  }

  lemma CursorAtCall<S(!new), I(!new), O(!new)>(c: Setting<S, I, O>, s: State)
    requires ValidSetting(c) && Sound(c, s)
    requires s.cursor < |c.h| && c.h[s.cursor].CallEntry?
    ensures AtCall(c, s.stack, s.cursor, c.h[s.cursor].id)
  {
    CallNode(c, s.cursor);
    CursorMinimal(c.h, s.stack, s.cursor);
  }

  /** Examining does not touch the list. */
  method ExamineBesideList<S(!new), I(!new), O(!new)>(m: Model<S, I, O>, state: S, input: I, output: O, id: nat,
      linearized: array<Bitsets.Word>, cache: Buckets<S>,
      ghost ops: seq<Operation<I, O>>, ghost stack: seq<nat>, ghost origin: map<Bitsets.Word, seq<seq<nat>>>,
      ghost arrays: set<array<Bitsets.Word>>, ghost visited: set<seq<nat>>,
      ghost l: Layout, ghost nodes: seq<Node<I, O>>, ghost head: Node<I, O>)
    returns (pair: Option<CacheEntry<S>>)
    requires ValidModel(m)
    requires Woven(l, nodes, head, stack)
    requires IsPartial(m, ops, stack) && Minimal(ops, stack, id)
    requires input == ops[id].input && output == ops[id].output
    requires Replay(m, ops, stack) == Some(state)
    requires MemoTied(m, ops, stack, visited, linearized, cache, origin, arrays)
    ensures Woven(l, nodes, head, stack)
    ensures MemoTied(m, ops, stack, visited, linearized, cache, origin, arrays)
    ensures pair.None? ==> Settled(m, ops, visited, stack + [id])
    ensures pair.Some? ==>
              && fresh(pair.value.linearized)
              && NotYet(m, ops, visited, stack + [id])
              && EntryOk(m, ops, linearized.Length, pair.value, stack + [id], Bitsets.HashOf(pair.value.linearized[..]))
  {
    pair := Examine(m, state, input, output, id, linearized, cache, ops, stack, origin, arrays, visited);
  }

  // What a turn on a call relies on and achieves, seen from outside: a proof that looks into one of
  // these predicates says `assert Look(0)`.

  ghost predicate Sealed<S(!new), I(!new), O(!new)>(c: Setting<S, I, O>, s: State) {
    forall x: nat {:trigger Look(x)} :: Look(x) ==> ValidSetting(c) && Sound(c, s)
  }

  ghost predicate Ready<S(!new), I(!new), O(!new)>(c: Setting<S, I, O>, stack: seq<nat>, cursor: nat, a: nat) {
    forall x: nat {:trigger Look(x)} :: Look(x) ==> ValidModel(c.m) && AtCall(c, stack, cursor, a)
  }

  ghost predicate Held<S, I, O>(c: Setting<S, I, O>, s: State, entry: Node?<I, O>, state: S,
        calls: seq<CallsEntry<S, I, O>>, linearized: array<Bitsets.Word>, cache: Buckets<S>,
        origin: map<Bitsets.Word, seq<seq<nat>>>, arrays: set<array<Bitsets.Word>>)
    reads c.nodes, c.head, linearized, arrays
  {
    forall x: nat {:trigger Look(x)} :: Look(x) ==>
      Tied(c, s.stack, s.cursor, s.visited, entry, state, calls, linearized, cache, origin, arrays)
  }

  lemma Hold<S, I, O>(c: Setting<S, I, O>, stack: seq<nat>, cursor: nat, visited: set<seq<nat>>,
        longest: seq<Option<seq<nat>>>, entry: Node?<I, O>, state: S, calls: seq<CallsEntry<S, I, O>>,
        linearized: array<Bitsets.Word>, cache: Buckets<S>, origin: map<Bitsets.Word, seq<seq<nat>>>,
        arrays: set<array<Bitsets.Word>>)
    returns (s: State)
    requires Tied(c, stack, cursor, visited, entry, state, calls, linearized, cache, origin, arrays)
    ensures s == State(stack, cursor, visited, longest)
    ensures Held(c, s, entry, state, calls, linearized, cache, origin, arrays)
  {
    s := State(stack, cursor, visited, longest);
  }

  ghost predicate Follows<S, I, O>(c: Setting<S, I, O>, s: State, t: State) {
    forall x: nat {:trigger Look(x)} :: Look(x) ==>
      WellFormed(c.h) && Moves(c.m, c.h, c.partial, s, t) && Closer(|c.ops|, |c.h|, t, s)
  }

  /** The search after taking operation `a`, whose call is under the cursor. */
  ghost function Took<I, O>(h: seq<Entry<I, O>>, s: State, a: nat): State {
    State(s.stack + [a], NextLive(h, s.stack + [a], 0), s.visited + {s.stack + [a]}, s.longest)
  }

  /** The search after moving past the call under the cursor. */
  ghost function Passed<I, O>(h: seq<Entry<I, O>>, s: State): State
    requires s.cursor < |h|
  {
    State(s.stack, NextLive(h, s.stack, s.cursor + 1), s.visited, s.longest)
  }

  /** Examines the call under the cursor. */
  method ExamineReady<S(!new), I(!new), O(!new)>(m: Model<S, I, O>, entry: Node<I, O>, state: S,
        linearized: array<Bitsets.Word>, cache: Buckets<S>, head: Node<I, O>, ghost c: Setting<S, I, O>,
        ghost s: State, ghost calls: seq<CallsEntry<S, I, O>>, ghost a: nat,
        ghost origin: map<Bitsets.Word, seq<seq<nat>>>, ghost arrays: set<array<Bitsets.Word>>)
    returns (pair: Option<CacheEntry<S>>)
    requires c.m == m && c.head == head && Ready(c, s.stack, s.cursor, a)
    requires Tied(c, s.stack, s.cursor, s.visited, entry, state, calls, linearized, cache, origin, arrays)
    ensures Tied(c, s.stack, s.cursor, s.visited, entry, state, calls, linearized, cache, origin, arrays)
    ensures pair.None? ==> Settled(c.m, c.ops, s.visited, s.stack + [a])
    ensures pair.Some? ==>
              && fresh(pair.value.linearized)
              && NotYet(c.m, c.ops, s.visited, s.stack + [a])
              && EntryOk(c.m, c.ops, linearized.Length, pair.value, s.stack + [a],
                         Bitsets.HashOf(pair.value.linearized[..]))
  {
    assert ValidModel(m) && AtCall(c, s.stack, s.cursor, a) by {
      assert Look(0);
    }
    pair := ExamineBesideList(m, state, entry.value.input, entry.mate.value.output, entry.id, linearized, cache,
                              c.ops, s.stack, origin, arrays, s.visited, c.l, c.nodes, head);
  }

  /** Takes it. */
  method TakeReady<S(!new), I(!new), O(!new)>(m: Model<S, I, O>, entry: Node<I, O>, state: S,
        calls: seq<CallsEntry<S, I, O>>, pair: CacheEntry<S>, linearized: array<Bitsets.Word>, cache: Buckets<S>,
        head: Node<I, O>, ghost c: Setting<S, I, O>, ghost s: State, ghost a: nat,
        ghost origin: map<Bitsets.Word, seq<seq<nat>>>, ghost arrays: set<array<Bitsets.Word>>)
    returns (entry': Node?<I, O>, calls': seq<CallsEntry<S, I, O>>, cache': Buckets<S>, ghost t: State,
               ghost origin': map<Bitsets.Word, seq<seq<nat>>>)
    requires c.m == m && c.head == head && Ready(c, s.stack, s.cursor, a)
    requires Tied(c, s.stack, s.cursor, s.visited, entry, state, calls, linearized, cache, origin, arrays)
    requires pair.linearized != linearized
    requires EntryOk(m, c.ops, linearized.Length, pair, s.stack + [a], Bitsets.HashOf(pair.linearized[..]))
    modifies linearized, c.nodes, head
    ensures t == Took(c.h, s, a)
    ensures Held(c, t, entry', pair.state, calls', linearized, cache', origin', arrays + {pair.linearized})
  {
    assert AtCall(c, s.stack, s.cursor, a) by {
      assert Look(0);
    }
    entry', calls', cache', origin' := TakeCall(m, entry, state, calls, pair, linearized, cache, head,
                                                c, s.stack, s.cursor, s.visited, a, origin, arrays);
    t := Hold(c, s.stack + [a], NextLive(c.h, s.stack + [a], 0), s.visited + {s.stack + [a]}, s.longest, entry',
              pair.state, calls', linearized, cache', origin', arrays + {pair.linearized});
  }

  /** Moving the cursor moves nothing else. */
  lemma PassedHeld<S(!new), I(!new), O(!new)>(c: Setting<S, I, O>, s: State, entry: Node<I, O>, entry': Node?<I, O>,
        state: S, calls: seq<CallsEntry<S, I, O>>, linearized: array<Bitsets.Word>, cache: Buckets<S>,
        origin: map<Bitsets.Word, seq<seq<nat>>>, arrays: set<array<Bitsets.Word>>)
    requires Tied(c, s.stack, s.cursor, s.visited, entry, state, calls, linearized, cache, origin, arrays)
    requires s.cursor < |c.h| && entry' == NodeAt(0, c.nodes, Passed(c.h, s).cursor)
    ensures Held(c, Passed(c.h, s), entry', state, calls, linearized, cache, origin, arrays)
  {
  }

  lemma ReadyPlace<S(!new), I(!new), O(!new)>(c: Setting<S, I, O>, stack: seq<nat>, cursor: nat, a: nat)
    requires Ready(c, stack, cursor, a)
    ensures Describes(c.l, c.h) && |c.nodes| == |c.h| && Live(c.h, stack, cursor)
  {
    assert Look(0);
  }

  lemma NextReady<S(!new), I(!new), O(!new)>(c: Setting<S, I, O>, stack: seq<nat>, cursor: nat, a: nat)
    requires Ready(c, stack, cursor, a) && Woven(c.l, c.nodes, c.head, stack)
    ensures cursor < |c.nodes| == |c.h|
    ensures c.nodes[cursor].next == NodeAt(0, c.nodes, NextLive(c.h, stack, cursor + 1))
  {
    ReadyPlace(c, stack, cursor, a);
    NextNode(c.l, c.h, c.nodes, c.head, stack, cursor);
  }

  /** Moves past it, to the next linked entry. */
  method PassReady<S(!new), I(!new), O(!new)>(entry: Node<I, O>, ghost state: S, ghost calls: seq<CallsEntry<S, I, O>>,
        ghost linearized: array<Bitsets.Word>, ghost cache: Buckets<S>, ghost c: Setting<S, I, O>, ghost s: State,
        ghost a: nat, ghost origin: map<Bitsets.Word, seq<seq<nat>>>, ghost arrays: set<array<Bitsets.Word>>)
    returns (entry': Node?<I, O>)
    requires s.cursor < |c.h| && Ready(c, s.stack, s.cursor, a)
    requires Tied(c, s.stack, s.cursor, s.visited, entry, state, calls, linearized, cache, origin, arrays)
    ensures Held(c, Passed(c.h, s), entry', state, calls, linearized, cache, origin, arrays)
  {
    NextReady(c, s.stack, s.cursor, a);
    entry' := entry.next;
    PassedHeld(c, s, entry, entry', state, calls, linearized, cache, origin, arrays);
  }

  /** Takes the call under the cursor, unless the model refuses it or its result is in the cache;
      then moves on. */
  method TryCall<S(!new), I(!new), O(!new)>(m: Model<S, I, O>, entry: Node<I, O>, state: S,
        calls: seq<CallsEntry<S, I, O>>, linearized: array<Bitsets.Word>, cache: Buckets<S>, head: Node<I, O>,
        ghost c: Setting<S, I, O>, ghost s: State, ghost a: nat,
        ghost origin: map<Bitsets.Word, seq<seq<nat>>>, ghost arrays: set<array<Bitsets.Word>>)
    returns (entry': Node?<I, O>, state': S, calls': seq<CallsEntry<S, I, O>>, cache': Buckets<S>, ghost t: State,
               ghost origin': map<Bitsets.Word, seq<seq<nat>>>, ghost arrays': set<array<Bitsets.Word>>)
    requires c.m == m && c.head == head && s.cursor < |c.h| && Ready(c, s.stack, s.cursor, a)
    requires Tied(c, s.stack, s.cursor, s.visited, entry, state, calls, linearized, cache, origin, arrays)
    modifies linearized, c.nodes, head
    ensures Held(c, t, entry', state', calls', linearized, cache', origin', arrays')
    ensures || (t == Took(c.h, s, a) && NotYet(c.m, c.ops, s.visited, s.stack + [a]))
            || (t == Passed(c.h, s) && Settled(c.m, c.ops, s.visited, s.stack + [a]))
  {
    var pair := ExamineReady(m, entry, state, linearized, cache, head, c, s, calls, a, origin, arrays);
    if pair.Some? {
      entry', calls', cache', t, origin' :=
        TakeReady(m, entry, state, calls, pair.value, linearized, cache, head, c, s, a, origin, arrays);
      state', arrays' := pair.value.state, arrays + {pair.value.linearized};
    } else {
      entry' := PassReady(entry, state, calls, linearized, cache, c, s, a, origin, arrays);
      state', calls', cache', t, origin', arrays' := state, calls, cache, Passed(c.h, s), origin, arrays;
    }
  }

  /** What backing out needs to know of the stack. */
  ghost predicate OnTop<S, I, O>(c: Setting<S, I, O>, done: seq<nat>, a: nat, longest: seq<Option<seq<nat>>>) {
    var holds :=
      && a !in done && a < |c.l.call| && a < |c.ops|
      && Operations(c.l, done)
      && Describes(c.l, c.h)
      && Distinct(done + [a])
      && forall k :: 0 <= k < |done + [a]| ==> (done + [a])[k] < |longest|;
    holds
  }

  /** Records the dead end and backs out of the top call. */
  method Retreat<S(!new), I(!new), O(!new)>(m: Model<S, I, O>, entry: Node<I, O>, state: S,
        calls: seq<CallsEntry<S, I, O>>, linearized: array<Bitsets.Word>, cache: Buckets<S>,
        longest: seq<Option<seq<nat>>>, computePartial: bool, ghost c: Setting<S, I, O>, ghost done: seq<nat>,
        ghost a: nat, ghost cursor: nat, ghost visited: set<seq<nat>>, ghost origin: map<Bitsets.Word, seq<seq<nat>>>,
        ghost arrays: set<array<Bitsets.Word>>)
    returns (entry': Node?<I, O>, state': S, calls': seq<CallsEntry<S, I, O>>, longest': seq<Option<seq<nat>>>)
    requires c.m == m
    requires OnTop(c, done, a, longest)
    requires Tied(c, done + [a], cursor, visited, entry, state, calls, linearized, cache, origin, arrays)
    modifies linearized, c.nodes, c.head
    ensures longest' == if computePartial then Record(longest, done + [a]) else longest
    ensures Tied(c, done, NextLive(c.h, done, c.l.call[a] + 1), visited, entry', state', calls', linearized, cache,
            origin, arrays)
  {
    longest' := longest;
    if computePartial {
      longest' := RecordDeadEnd(calls, longest, done + [a], c);
    }
    entry', state', calls' :=
        BackOut(m, entry, state, calls, linearized, cache, c, done, a, cursor, visited, origin, arrays);
  }

  /** The same stack under another name. */
  lemma TiedUnderName<S, I, O>(c: Setting<S, I, O>, stack: seq<nat>, name: seq<nat>, cursor: nat,
        visited: set<seq<nat>>, entry: Node?<I, O>, state: S, calls: seq<CallsEntry<S, I, O>>,
        linearized: array<Bitsets.Word>, cache: Buckets<S>, origin: map<Bitsets.Word, seq<seq<nat>>>,
        arrays: set<array<Bitsets.Word>>)
    requires stack == name
    requires Tied(c, stack, cursor, visited, entry, state, calls, linearized, cache, origin, arrays)
    ensures Tied(c, name, cursor, visited, entry, state, calls, linearized, cache, origin, arrays)
  {
  }

  /** A turn on a call gets closer to the end: fewer stacks to enter, or fewer entries ahead. */
  ghost predicate Closer(n: nat, size: nat, t: State, s: State) {
    var holds :=
      || Unvisited(n, t.visited) < Unvisited(n, s.visited)
      || (t.visited == s.visited && t.stack == s.stack && size >= t.cursor > s.cursor);
    holds
  }

  lemma TookCall<S(!new), I(!new), O(!new)>(c: Setting<S, I, O>, s: State, a: nat)
    requires ValidSetting(c)
    requires s.cursor < |c.h| && c.h[s.cursor].CallEntry? && a == c.h[s.cursor].id
    requires NotYet(c.m, c.ops, s.visited, s.stack + [a])
    ensures Follows(c, s, Took(c.h, s, a))
  {
    assert Look(0);
    assert Takes(c.m, c.h, s, Took(c.h, s, a));
    if s.stack + [a] in s.visited {
      VisitedIsCovered(c.m, c.ops, s.visited, s.stack + [a]);
    }
    PushDecreases(c.m, c.ops, s.visited, s.stack + [a]);
  }

  lemma PassedCall<S(!new), I(!new), O(!new)>(c: Setting<S, I, O>, s: State, a: nat)
    requires ValidSetting(c)
    requires s.cursor < |c.h| && c.h[s.cursor].CallEntry? && a == c.h[s.cursor].id
    requires Settled(c.m, c.ops, s.visited, s.stack + [a])
    ensures Follows(c, s, Passed(c.h, s))
  {
    assert Look(0);
    assert Skips(c.m, c.h, s, Passed(c.h, s));
  }

  /** Where the two outcomes of a turn on the call under the cursor lead. */
  lemma CallOutcome<S(!new), I(!new), O(!new)>(c: Setting<S, I, O>, s: State, a: nat, t: State)
    requires Sealed(c, s) && s.cursor < |c.h| && c.h[s.cursor].CallEntry? && a == c.h[s.cursor].id
    requires || (t == Took(c.h, s, a) && NotYet(c.m, c.ops, s.visited, s.stack + [a]))
             || (t == Passed(c.h, s) && Settled(c.m, c.ops, s.visited, s.stack + [a]))
    ensures t.longest == s.longest && Follows(c, s, t)
  {
    assert ValidSetting(c) by {
      assert Look(0);
    }
    if t == Took(c.h, s, a) && NotYet(c.m, c.ops, s.visited, s.stack + [a]) {
      TookCall(c, s, a);
    } else {
      PassedCall(c, s, a);
    }
  }

  lemma CallReady<S(!new), I(!new), O(!new)>(c: Setting<S, I, O>, s: State) returns (a: nat)
    requires Sealed(c, s) && s.cursor < |c.h| && c.h[s.cursor].CallEntry?
    ensures a == c.h[s.cursor].id && Ready(c, s.stack, s.cursor, a)
  {
    assert Look(0);
    CursorAtCall(c, s);
    a := c.h[s.cursor].id;
  }

  /** One turn on a call: take it or move on. */
  method OnCall<S(!new), I(!new), O(!new)>(m: Model<S, I, O>, entry: Node<I, O>, state: S,
        calls: seq<CallsEntry<S, I, O>>, linearized: array<Bitsets.Word>, cache: Buckets<S>, head: Node<I, O>,
        ghost c: Setting<S, I, O>, ghost s: State, ghost origin: map<Bitsets.Word, seq<seq<nat>>>,
        ghost arrays: set<array<Bitsets.Word>>)
    returns (entry': Node?<I, O>, state': S, calls': seq<CallsEntry<S, I, O>>, cache': Buckets<S>, ghost t: State,
               ghost origin': map<Bitsets.Word, seq<seq<nat>>>, ghost arrays': set<array<Bitsets.Word>>)
    requires c.m == m && c.head == head && Sealed(c, s)
    requires Tied(c, s.stack, s.cursor, s.visited, entry, state, calls, linearized, cache, origin, arrays)
    requires s.cursor < |c.h| && c.h[s.cursor].CallEntry?
    modifies linearized, c.nodes, head
    ensures Held(c, t, entry', state', calls', linearized, cache', origin', arrays')
    ensures t.longest == s.longest && Follows(c, s, t)
  {
    ghost var a := CallReady(c, s);
    entry', state', calls', cache', t, origin', arrays' :=
      TryCall(m, entry, state, calls, linearized, cache, head, c, s, a, origin, arrays);
    CallOutcome(c, s, a, t);
  }

  lemma StackTop<S(!new), I(!new), O(!new)>(c: Setting<S, I, O>, s: State) returns (done: seq<nat>, a: nat, t: State)
    requires ValidSetting(c) && Sound(c, s)
    requires s.cursor < |c.h| && c.h[s.cursor].ReturnEntry? && s.stack != []
    ensures s.stack == done + [a] && OnTop(c, done, a, s.longest)
    ensures t == State(done, NextLive(c.h, done, c.l.call[a] + 1), s.visited,
            if c.partial then Record(s.longest, done + [a]) else s.longest)
    ensures Moves(c.m, c.h, c.partial, s, t)
  {
    done, a := s.stack[..|s.stack| - 1], s.stack[|s.stack| - 1];
    PartialFacts(c.m, c.ops, s.stack);
    assert s.stack == done + [a];
    t := BackedOut(c.h, c.partial, s.stack, s.visited, s.longest);
    assert BacksOut(c.h, c.partial, s, t);
  }

  /** One turn on a return: record the dead end and back out. */
  method OnReturn<S(!new), I(!new), O(!new)>(m: Model<S, I, O>, entry: Node<I, O>, state: S,
        calls: seq<CallsEntry<S, I, O>>, linearized: array<Bitsets.Word>, cache: Buckets<S>,
        longest: seq<Option<seq<nat>>>, computePartial: bool, ghost c: Setting<S, I, O>, ghost s: State,
        ghost origin: map<Bitsets.Word, seq<seq<nat>>>, ghost arrays: set<array<Bitsets.Word>>)
    returns (entry': Node?<I, O>, state': S, calls': seq<CallsEntry<S, I, O>>, longest': seq<Option<seq<nat>>>,
               ghost t: State)
    requires c.m == m && c.partial == computePartial && longest == s.longest && ValidSetting(c) && Sound(c, s)
    requires Tied(c, s.stack, s.cursor, s.visited, entry, state, calls, linearized, cache, origin, arrays)
    requires s.cursor < |c.h| && c.h[s.cursor].ReturnEntry? && s.stack != []
    modifies linearized, c.nodes, c.head
    ensures Tied(c, t.stack, t.cursor, t.visited, entry', state', calls', linearized, cache, origin, arrays)
    ensures t.longest == longest' && Moves(m, c.h, c.partial, s, t) && t.visited == s.visited && |t.stack| < |s.stack|
  {
    ghost var done, a;
    done, a, t := StackTop(c, s);
    TiedUnderName(c, s.stack, done + [a], s.cursor, s.visited, entry, state, calls, linearized, cache, origin, arrays);
    entry', state', calls', longest' := Retreat(m, entry, state, calls, linearized, cache, longest, computePartial,
                                                c, done, a, s.cursor, s.visited, origin, arrays);
  }

  /** What a run knows of its last state. */
  lemma RunSound<S(!new), I(!new), O(!new)>(c: Setting<S, I, O>, run: seq<State>)
    requires ValidSetting(c)
    requires IsRun(c.m, c.h, c.partial, run)
    ensures run != [] && Sound(c, run[|run| - 1])
  {
    RunInv(c.m, c.h, c.partial, run);
  }

  /** The head tells whether anything is linked, and so whether the cursor stands on an entry; the
      node under the cursor tells whether it is a call. */
  lemma WhereAmI<S(!new), I(!new), O(!new)>(c: Setting<S, I, O>, s: State)
    requires ValidSetting(c) && Sound(c, s)
    requires Woven(c.l, c.nodes, c.head, s.stack)
    ensures c.head.next != null <==> s.cursor < |c.h|
    ensures s.cursor < |c.h| ==> s.cursor < |c.nodes| && (c.nodes[s.cursor].mate != null <==> c.h[s.cursor].CallEntry?)
  {
    FirstNode(c.l, c.h, c.nodes, c.head, s.stack);
    if s.cursor < |c.h| {
      if c.h[s.cursor].CallEntry? {
        CallNode(c, s.cursor);
      } else {
        ReturnNode(c, s.cursor);
      }
    }
  }

  /** What `longest` promises of a search that was not stopped: every partial linearization is
      matched, operation by operation, by one at least as long. */
  ghost predicate LongestCorrect<S, I, O>(m: Model<S, I, O>, ops: seq<Operation<I, O>>,
        longest: seq<Option<seq<nat>>>) {
    && LongestOk(m, ops, longest)
    && forall p :: IsPartial(m, ops, p) ==> Recorded(longest, p)
  }

  /** The search fell off the end of the stack: there is no linearization. */
  lemma NoAnswer<S(!new), I(!new), O(!new)>(c: Setting<S, I, O>, run: seq<State>)
    requires ValidSetting(c)
    requires IsRun(c.m, c.h, c.partial, run)
    requires run != [] && run[|run| - 1].stack == [] && run[|run| - 1].cursor < |c.h|
             && c.h[run[|run| - 1].cursor].ReturnEntry?
    ensures Answers(c.m, c.ops, c.partial, false, false, run[|run| - 1].longest)
  {
    NoVerdict(c, run);
  }

  lemma NoVerdict<S(!new), I(!new), O(!new)>(c: Setting<S, I, O>, run: seq<State>)
    requires ValidSetting(c)
    requires IsRun(c.m, c.h, c.partial, run)
    requires run != [] && (var s := run[|run| - 1]; s.stack == [] && s.cursor < |c.h| && c.h[s.cursor].ReturnEntry?)
    ensures !Linearizable(c.m, c.ops)
    ensures LongestOk(c.m, c.ops, run[|run| - 1].longest)
    ensures c.partial ==> LongestCorrect(c.m, c.ops, run[|run| - 1].longest)
  {
    RunInv(c.m, c.h, c.partial, run);
    ExhaustedVerdict(c.m, c.h, c.partial, run[|run| - 1]);
  }

  lemma CompleteIsLongest<S, I, O>(m: Model<S, I, O>, ops: seq<Operation<I, O>>, order: seq<nat>,
        longest: seq<Option<seq<nat>>>)
    requires Timed(ops)
    requires Linearizes(m, ops, order)
    requires |longest| == |ops| && forall i :: 0 <= i < |ops| ==> longest[i] == Some(order)
    ensures LongestCorrect(m, ops, longest)
  {
    CompletePartial(m, ops, order);
    forall i | 0 <= i < |ops| ensures i in order {
      assert i in Ids(order);
    }
    forall p | IsPartial(m, ops, p) ensures Recorded(longest, p) {
      PartialFacts(m, ops, p);
      Pigeonhole(p, |ops|);
    }
  }

  /** The list is empty: the stack is a linearization, and the longest for every operation. */
  lemma YesVerdict<S(!new), I(!new), O(!new)>(c: Setting<S, I, O>, run: seq<State>, longest: seq<Option<seq<nat>>>)
    requires ValidSetting(c)
    requires IsRun(c.m, c.h, c.partial, run)
    requires run != [] && run[|run| - 1].cursor == |c.h|
    requires |longest| == |c.ops| && forall i :: 0 <= i < |c.ops| ==> longest[i] == Some(run[|run| - 1].stack)
    ensures Linearizable(c.m, c.ops)
    ensures LongestCorrect(c.m, c.ops, longest)
  {
    RunInv(c.m, c.h, c.partial, run);
    FoundVerdict(c.m, c.h, c.partial, run[|run| - 1]);
    CompleteIsLongest(c.m, c.ops, run[|run| - 1].stack, longest);
  }

  /** A stopped search has recorded only legal partial linearizations. */
  lemma StoppedAnswer<S(!new), I(!new), O(!new)>(c: Setting<S, I, O>, run: seq<State>)
    requires ValidSetting(c)
    requires IsRun(c.m, c.h, c.partial, run)
    ensures run != [] && Answers(c.m, c.ops, c.partial, true, false, run[|run| - 1].longest)
  {
    RunInv(c.m, c.h, c.partial, run);
  }

  /** A proof that needs the inside of `AtEnd` says so with `assert Look(0)`; the loop does not. */
  ghost predicate Look(x: nat) {
    true
  }

  /** The variables are where the run has got to. */
  ghost predicate AtEnd<S(!new), I(!new), O(!new)>(c: Setting<S, I, O>, run: seq<State>, entry: Node?<I, O>, state: S,
        calls: seq<CallsEntry<S, I, O>>, linearized: array<Bitsets.Word>, cache: Buckets<S>,
        longest: seq<Option<seq<nat>>>, origin: map<Bitsets.Word, seq<seq<nat>>>, arrays: set<array<Bitsets.Word>>)
    reads c.nodes, c.head, linearized, arrays
  {
    && run != []
    && forall x: nat {:trigger Look(x)} :: Look(x) ==>
      && ValidSetting(c)
      && IsRun(c.m, c.h, c.partial, run)
      && longest == run[|run| - 1].longest
      && Tied(c, run[|run| - 1].stack, run[|run| - 1].cursor, run[|run| - 1].visited,
              entry, state, calls, linearized, cache, origin, arrays)
  }

  /** The measure of the search: stacks still to be entered, height of the stack, entries ahead. */
  ghost predicate Lower(n: nat, size: nat, t: State, s: State) {
    var holds :=
      || Unvisited(n, t.visited) < Unvisited(n, s.visited)
      || (t.visited == s.visited && |t.stack| < |s.stack|)
      || (t.visited == s.visited && t.stack == s.stack && s.cursor < t.cursor <= size);
    holds
  }

  lemma Ended<S(!new), I(!new), O(!new)>(c: Setting<S, I, O>, run: seq<State>, t: State, entry: Node?<I, O>, state: S,
        calls: seq<CallsEntry<S, I, O>>, linearized: array<Bitsets.Word>, cache: Buckets<S>,
        longest: seq<Option<seq<nat>>>, origin: map<Bitsets.Word, seq<seq<nat>>>, arrays: set<array<Bitsets.Word>>)
    requires ValidSetting(c)
    requires IsRun(c.m, c.h, c.partial, run) && run != [] && Moves(c.m, c.h, c.partial, run[|run| - 1], t)
    requires longest == t.longest
    requires Tied(c, t.stack, t.cursor, t.visited, entry, state, calls, linearized, cache, origin, arrays)
    ensures AtEnd(c, run + [t], entry, state, calls, linearized, cache, longest, origin, arrays)
  {
    RunSnoc(c.m, c.h, c.partial, run, t);
    assert (run + [t])[|run + [t]| - 1] == t;
  }

  /** One turn of the loop on a linked entry; `stuck` when it is a return and nothing is left to back out of. */
  method Turn<S(!new), I(!new), O(!new)>(m: Model<S, I, O>, entry: Node<I, O>, state: S,
        calls: seq<CallsEntry<S, I, O>>, linearized: array<Bitsets.Word>, cache: Buckets<S>,
        longest: seq<Option<seq<nat>>>, computePartial: bool, head: Node<I, O>, ghost c: Setting<S, I, O>,
        ghost run: seq<State>, ghost origin: map<Bitsets.Word, seq<seq<nat>>>, ghost arrays: set<array<Bitsets.Word>>)
    returns (stuck: bool, entry': Node?<I, O>, state': S, calls': seq<CallsEntry<S, I, O>>, cache': Buckets<S>,
               longest': seq<Option<seq<nat>>>, ghost t: State, ghost origin': map<Bitsets.Word, seq<seq<nat>>>,
               ghost arrays': set<array<Bitsets.Word>>)
    requires c.m == m && c.head == head && c.partial == computePartial
    requires AtEnd(c, run, entry, state, calls, linearized, cache, longest, origin, arrays)
    requires Sound(c, run[|run| - 1]) && run[|run| - 1].cursor < |c.h|
    requires entry.mate != null <==> c.h[run[|run| - 1].cursor].CallEntry?
    modifies linearized, c.nodes, head
    ensures stuck ==> longest' == longest && run[|run| - 1].stack == [] && c.h[run[|run| - 1].cursor].ReturnEntry?
    ensures !stuck ==>
              && AtEnd(c, run + [t], entry', state', calls', linearized, cache', longest', origin', arrays')
              && Lower(|c.ops|, |c.h|, t, run[|run| - 1])
  {
    assert Look(0);
    ghost var s := run[|run| - 1];
    stuck, entry', state', calls', cache', longest', t, origin', arrays' :=
      false, entry, state, calls, cache, longest, s, origin, arrays;
    if entry.mate != null {
      entry', state', calls', cache', t, origin', arrays' :=
        OnCall(m, entry, state, calls, linearized, cache, head, c, s, origin, arrays);
    } else if |calls| == 0 {
      stuck := true;
      return;
    } else {
      entry', state', calls', longest', t :=
        OnReturn(m, entry, state, calls, linearized, cache, longest, computePartial, c, s, origin, arrays);
    }
    Ended(c, run, t, entry', state', calls', linearized, cache', longest', origin', arrays');
  }

  lemma Begun<S(!new), I(!new), O(!new)>(c: Setting<S, I, O>, entry: Node?<I, O>, linearized: array<Bitsets.Word>,
        longest: seq<Option<seq<nat>>>)
    requires ValidSetting(c)
    requires Woven(c.l, c.nodes, c.head, [])
    requires entry == NodeAt(0, c.nodes, 0)
    requires linearized.Length == Bitsets.Chunks(|c.ops|) && Bitsets.Represents(linearized[..], {})
    requires longest == seq(|c.ops|, _ => None)
    ensures AtEnd(c, [Start(|c.ops|)], entry, c.m.init, [], linearized, map[], longest, map[], {})
  {
    MemoBegun(c.m, c.ops, linearized);
    TiedBegun(c, entry, linearized);
    AtBegin(c, entry, linearized, longest);
  }

  lemma AtBegin<S(!new), I(!new), O(!new)>(c: Setting<S, I, O>, entry: Node?<I, O>, linearized: array<Bitsets.Word>,
        longest: seq<Option<seq<nat>>>)
    requires ValidSetting(c) && longest == seq(|c.ops|, _ => None)
    requires Tied(c, [], 0, {[]}, entry, c.m.init, [], linearized, map[], map[], {})
    ensures AtEnd(c, [Start(|c.ops|)], entry, c.m.init, [], linearized, map[], longest, map[], {})
  {
    RunBegun(c);
  }

  lemma RunBegun<S(!new), I(!new), O(!new)>(c: Setting<S, I, O>)
    requires ValidSetting(c)
    ensures WellFormed(c.h) && IsRun(c.m, c.h, c.partial, [Start(|c.ops|)])
  {
  }

  lemma MemoBegun<S, I, O>(m: Model<S, I, O>, ops: seq<Operation<I, O>>, linearized: array<Bitsets.Word>)
    requires linearized.Length == Bitsets.Chunks(|ops|) && Bitsets.Represents(linearized[..], {})
    ensures MemoTied(m, ops, [], {[]}, linearized, map[], map[], {})
  {
    assert Ids([]) == {};
  }

  lemma TiedBegun<S, I, O>(c: Setting<S, I, O>, entry: Node?<I, O>, linearized: array<Bitsets.Word>)
    requires Woven(c.l, c.nodes, c.head, [])
    requires entry == NodeAt(0, c.nodes, 0)
    requires MemoTied(c.m, c.ops, [], {[]}, linearized, map[], map[], {})
    ensures Tied(c, [], 0, {[]}, entry, c.m.init, [], linearized, map[], map[], {})
  {
  }

  /** Builds the list, puts the sentinel in front and allocates the bitset. */
  method Begin<S(!new), I(!new), O(!new)>(m: Model<S, I, O>, h: seq<Entry<I, O>>, computePartial: bool)
    returns (entry: Node?<I, O>, n: nat, head: Node<I, O>, linearized: array<Bitsets.Word>,
               longest: seq<Option<seq<nat>>>, ghost c: Setting<S, I, O>)
    requires ValidModel(m) && WellFormed(h)
    ensures c.m == m && c.h == h && c.ops == OpsOf(h) && c.head == head && c.partial == computePartial && n == |c.ops|
    ensures fresh(linearized) && fresh(head) && forall k :: 0 <= k < |c.nodes| ==> fresh(c.nodes[k])
    ensures AtEnd(c, [Start(n)], entry, m.init, [], linearized, map[], longest, map[], {})
  {
    ghost var l := LayoutOf(h);
    ghost var nodes;
    entry, n, head, nodes := Weave(h, l);
    c := Setting(m, h, OpsOf(h), l, nodes, head, computePartial);
    linearized := Bitsets.NewBitset(n);
    longest := seq(n, _ => None);
    Begun(c, entry, linearized, longest);
  }

  /** What the last turn leaves for the answer yes. */
  method Conclude<S(!new), I(!new), O(!new)>(calls: seq<CallsEntry<S, I, O>>, n: nat, ghost c: Setting<S, I, O>,
        ghost run: seq<State>)
    returns (longest: seq<Option<seq<nat>>>)
    requires ValidSetting(c) && IsRun(c.m, c.h, c.partial, run) && run != [] && n == |c.ops|
    requires run[|run| - 1].cursor == |c.h|
    requires CallsOk(c, calls, run[|run| - 1].stack)
    ensures Answers(c.m, c.ops, c.partial, false, true, longest)
    ensures longest == seq(n, _ => Some(run[|run| - 1].stack))
  {
    var ids := CallIds(calls, run[|run| - 1].stack, c);
    longest := seq(n, _ => Some(ids));
    YesVerdict(c, run, longest);
  }

  /** Where the loop stands: at the end, or on a call or a return. */
  lemma Located<S(!new), I(!new), O(!new)>(c: Setting<S, I, O>, run: seq<State>, entry: Node?<I, O>, state: S,
        calls: seq<CallsEntry<S, I, O>>, linearized: array<Bitsets.Word>, cache: Buckets<S>,
        longest: seq<Option<seq<nat>>>, origin: map<Bitsets.Word, seq<seq<nat>>>, arrays: set<array<Bitsets.Word>>)
    requires AtEnd(c, run, entry, state, calls, linearized, cache, longest, origin, arrays)
    ensures Sound(c, run[|run| - 1])
    ensures c.head.next == null ==> run[|run| - 1].cursor == |c.h|
    ensures c.head.next != null ==>
              && run[|run| - 1].cursor < |c.h|
              && entry != null
              && (entry.mate != null <==> c.h[run[|run| - 1].cursor].CallEntry?)
  {
    assert Look(0);
    RunSound(c, run);
    WhereAmI(c, run[|run| - 1]);
  }

  /** What a search that ended, or was stopped, has found out. */
  ghost predicate Answers<S, I, O>(m: Model<S, I, O>, ops: seq<Operation<I, O>>, partial: bool, stopped: bool,
        ok: bool, longest: seq<Option<seq<nat>>>) {
    var holds :=
      && (ok ==> Linearizable(m, ops))
      && (!ok && !stopped ==> !Linearizable(m, ops))
      && LongestOk(m, ops, longest)
      && (partial && !stopped ==> LongestCorrect(m, ops, longest));
    holds
  }

  /** The run so far ends the search with the answer no. */
  ghost predicate Ends<S(!new), I(!new), O(!new)>(c: Setting<S, I, O>, run: seq<State>, kill: bool,
        longest: seq<Option<seq<nat>>>) {
    forall x: nat {:trigger Look(x)} :: Look(x) ==>
      && ValidSetting(c) && run != [] && IsRun(c.m, c.h, c.partial, run)
      && run[|run| - 1].cursor < |c.h|
      && longest == run[|run| - 1].longest
      && (kill || NothingLeft(c.h, run[|run| - 1]))
      && Answers(c.m, c.ops, c.partial, kill, false, longest)
  }

  ghost predicate Decided<S(!new), I(!new), O(!new)>(c: Setting<S, I, O>, kill: nat -> bool, run: seq<State>,
        stopped: bool, ok: bool, longest: seq<Option<seq<nat>>>) {
    forall x: nat {:trigger Look(x)} :: Look(x) ==>
      && WellFormed(c.h) && Outcome(c.m, c.h, c.partial, kill, run, ok, longest)
      && Answers(c.m, c.ops, c.partial, stopped, ok, longest)
      && (stopped ==> kill(|run| - 1))
  }

  lemma EndedOutcome<S(!new), I(!new), O(!new)>(c: Setting<S, I, O>, run: seq<State>, kill: nat -> bool,
        flag: bool, longest: seq<Option<seq<nat>>>)
    requires run != [] && DownBefore(kill, |run| - 1) && flag == kill(|run| - 1) && Ends(c, run, flag, longest)
    ensures Decided(c, kill, run, flag, false, longest)
  {
    assert Look(0);
  }

  lemma StillDown(kill: nat -> bool, n: nat)
    requires DownBefore(kill, n) && !kill(n)
    ensures DownBefore(kill, n + 1)
  {
  }

  /** The body of the loop: look at the stop flag, then take a turn. The search has ended when it
      was told to stop or is stuck. */
  method Round<S(!new), I(!new), O(!new)>(m: Model<S, I, O>, entry: Node?<I, O>, state: S,
        calls: seq<CallsEntry<S, I, O>>, linearized: array<Bitsets.Word>, cache: Buckets<S>,
        longest: seq<Option<seq<nat>>>, computePartial: bool, head: Node<I, O>, kill: bool, ghost c: Setting<S, I, O>,
        ghost run: seq<State>, ghost origin: map<Bitsets.Word, seq<seq<nat>>>, ghost arrays: set<array<Bitsets.Word>>)
    returns (ended: bool, entry': Node?<I, O>, state': S, calls': seq<CallsEntry<S, I, O>>, cache': Buckets<S>,
               longest': seq<Option<seq<nat>>>, ghost t: State, ghost origin': map<Bitsets.Word, seq<seq<nat>>>,
               ghost arrays': set<array<Bitsets.Word>>)
    requires c.m == m && c.head == head && c.partial == computePartial
    requires AtEnd(c, run, entry, state, calls, linearized, cache, longest, origin, arrays)
    requires head.next != null
    modifies linearized, c.nodes, head
    ensures ended ==> Ends(c, run, kill, longest')
    ensures kill ==> ended
    ensures !ended ==>
              && AtEnd(c, run + [t], entry', state', calls', linearized, cache', longest', origin', arrays')
              && Lower(|c.ops|, |c.h|, t, run[|run| - 1])
  {
    assert Look(0);
    Located(c, run, entry, state, calls, linearized, cache, longest, origin, arrays);
    if kill {
      StoppedAnswer(c, run);
      ended, entry', state', calls', cache', longest', t, origin', arrays' := true, entry, state, calls, cache,
          longest, run[|run| - 1], origin, arrays;
      return;
    }
    ended, entry', state', calls', cache', longest', t, origin', arrays' :=
      Turn(m, entry, state, calls, linearized, cache, longest, computePartial, head, c, run, origin, arrays);
    if ended {
      NoAnswer(c, run);
    }
  }

  lemma Finish<S(!new), I(!new), O(!new)>(c: Setting<S, I, O>, run: seq<State>, entry: Node?<I, O>, state: S,
        calls: seq<CallsEntry<S, I, O>>, linearized: array<Bitsets.Word>, cache: Buckets<S>,
        longest: seq<Option<seq<nat>>>, origin: map<Bitsets.Word, seq<seq<nat>>>, arrays: set<array<Bitsets.Word>>)
    requires AtEnd(c, run, entry, state, calls, linearized, cache, longest, origin, arrays)
    requires c.head.next == null
    ensures ValidSetting(c) && IsRun(c.m, c.h, c.partial, run) && run != []
    ensures run[|run| - 1].cursor == |c.h|
    ensures CallsOk(c, calls, run[|run| - 1].stack)
  {
    assert Look(0);
    Located(c, run, entry, state, calls, linearized, cache, longest, origin, arrays);
  }

  /** Nothing is linked any more: the answer is yes. */
  method Succeed<S(!new), I(!new), O(!new)>(ghost entry: Node?<I, O>, ghost state: S,
        calls: seq<CallsEntry<S, I, O>>, n: nat, ghost linearized: array<Bitsets.Word>, ghost cache: Buckets<S>,
        ghost longest0: seq<Option<seq<nat>>>, ghost kill: nat -> bool, ghost c: Setting<S, I, O>,
        ghost run: seq<State>, ghost origin: map<Bitsets.Word, seq<seq<nat>>>, ghost arrays: set<array<Bitsets.Word>>)
    returns (longest: seq<Option<seq<nat>>>)
    requires AtEnd(c, run, entry, state, calls, linearized, cache, longest0, origin, arrays)
    requires c.head.next == null && n == |c.ops|
    requires run != [] && DownBefore(kill, |run| - 1)
    ensures Decided(c, kill, run, false, true, longest)
  {
    Finish(c, run, entry, state, calls, linearized, cache, longest0, origin, arrays);
    longest := Conclude(calls, n, c, run);
  }

  /** How far the search is from its end; no run goes on for ever. */
  ghost function Measure(n: nat, size: nat, run: seq<State>): (nat, nat, nat)
    requires run != []
  {
    var s := run[|run| - 1];
    (Unvisited(n, s.visited), |s.stack|, if s.cursor <= size then size - s.cursor else 0)
  }

  /** The loop. */
  method Explore<S(!new), I(!new), O(!new)>(m: Model<S, I, O>, entry0: Node?<I, O>, n: nat, headEntry: Node<I, O>,
        linearized: array<Bitsets.Word>, longest0: seq<Option<seq<nat>>>, computePartial: bool, kill: nat -> bool,
        ghost c: Setting<S, I, O>)
    returns (ok: bool, longest: seq<Option<seq<nat>>>, ghost stopped: bool, ghost run: seq<State>)
    requires c.m == m && c.head == headEntry && c.partial == computePartial && n == |c.ops|
    requires AtEnd(c, [Start(n)], entry0, m.init, [], linearized, map[], longest0, map[], {})
    modifies linearized, headEntry, c.nodes
    ensures Decided(c, kill, run, stopped, ok, longest)
  {
    var entry, state, cache: Buckets<S>, calls: seq<CallsEntry<S, I, O>>, turn := entry0, m.init, map[], [], 0;
    longest, stopped := longest0, false;
    run := [Start(n)];
    ghost var origin: map<Bitsets.Word, seq<seq<nat>>> := map[];
    ghost var arrays: set<array<Bitsets.Word>> := {};
    while headEntry.next != null
      invariant turn == |run| - 1 && DownBefore(kill, turn)
      invariant AtEnd(c, run, entry, state, calls, linearized, cache, longest, origin, arrays)
      decreases Measure(|c.ops|, |c.h|, run).0, Measure(|c.ops|, |c.h|, run).1, Measure(|c.ops|, |c.h|, run).2
    {
      var flag, ended := kill(turn), false;
      stopped := flag;
      ghost var t;
      ended, entry, state, calls, cache, longest, t, origin, arrays :=
        Round(m, entry, state, calls, linearized, cache, longest, computePartial, headEntry, flag, c, run,
            origin, arrays);
      if ended {
        EndedOutcome(c, run, kill, flag, longest);
        return false, longest, stopped, run;
      }
      StillDown(kill, turn);
      turn := turn + 1;
      assert (run + [t])[|run + [t]| - 1] == t;
      run := run + [t];
    }
    longest := Succeed(entry, state, calls, n, linearized, cache, longest, kill, c, run, origin, arrays);
    return true, longest, false, run;
  }

  /** Decides whether a history is linearizable. `kill(t)` is what turn `t` of the loop reads from
      the stop flag. The search does what its one run does up to the first turn that reads the flag up.
      Without a stop the answer is right both ways, and so are the longest partial linearizations; a
      stopped search may wrongly answer no, but what it has recorded is legal. */
  method CheckSingle<S(!new), I(!new), O(!new)>(m: Model<S, I, O>, h: seq<Entry<I, O>>, computePartial: bool,
        kill: nat -> bool)
    returns (ok: bool, longest: seq<Option<seq<nat>>>)
    requires ValidModel(m) && WellFormed(h)
    ensures exists run :: Outcome(m, h, computePartial, kill, run, ok, longest)
    ensures h != [] && kill(0) ==> !ok && longest == seq(|h| / 2, _ => None)
    ensures ok ==> Linearizable(m, OpsOf(h))
    ensures (forall t :: !kill(t)) ==> (ok <==> Linearizable(m, OpsOf(h)))
    ensures LongestOk(m, OpsOf(h), longest)
    ensures computePartial && (forall t :: !kill(t)) ==> LongestCorrect(m, OpsOf(h), longest)
  {
    var entry, n, headEntry, linearized;
    ghost var c, stopped, run;
    entry, n, headEntry, linearized, longest, c := Begin(m, h, computePartial);
    ok, longest, stopped, run := Explore(m, entry, n, headEntry, linearized, longest, computePartial, kill, c);
    assert Look(0);
    if h != [] && kill(0) {
      StopsAtOnce(m, h, computePartial, kill, run, ok, longest);
    }
  }
}
