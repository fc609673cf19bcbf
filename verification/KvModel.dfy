/** The key/value model: one key's value as the state, and histories split by key. */
module KvModel {
  import opened Histories
  import opened Sorting
  import Strings

  /** `op` 0 is a get, 1 a put, anything else an append. */
  datatype KvInput = KvInput(op: nat, key: string, value: string)

  datatype KvOutput = KvOutput(value: string)

  type KvOp = Operation<KvInput, KvOutput>

  function KvStep(state: string, input: KvInput, output: KvOutput): (bool, string) {
    if input.op == 0 then (output.value == state, state)
    else if input.op == 1 then (true, input.value)
    else (true, state + input.value)
  }

  /** The model the checker runs: a single key's value. */
  function OneKey(): Model<string, KvInput, KvOutput> {
    Model("", KvStep, (s, t) => s == t)
  }

  lemma OneKeyIsValid()
    ensures ValidModel(OneKey())
  {
  }

  // ---------------------------------------------------------------- what running one key means

  /** Where the last put of an order stands; the length of the order if there is none. */
  function LastPut(history: seq<KvOp>, order: seq<nat>): (p: nat)
    requires InHistory(history, order)
    ensures p <= |order|
    ensures p < |order| ==> history[order[p]].input.op == 1
    ensures forall k :: (if p < |order| then p + 1 else 0) <= k < |order| ==> history[order[k]].input.op != 1
  {
    if order == [] then 0
    else if history[order[|order| - 1]].input.op == 1 then |order| - 1
    else
      var p := LastPut(history, order[..|order| - 1]);
      if p == |order| - 1 then |order| else p
  }

  predicate InHistory(history: seq<KvOp>, order: seq<nat>) {
    forall k :: 0 <= k < |order| ==> order[k] < |history|
  }

  /** The values written by the operations from position `i` on, one after the other. */
  function Writes(history: seq<KvOp>, order: seq<nat>, i: nat): string
    requires InHistory(history, order) && i <= |order|
    decreases |order| - i
  {
    if i == |order| then ""
    else (if history[order[i]].input.op == 0 then "" else history[order[i]].input.value) + Writes(history, order, i + 1)
  }

  /** What a key holds after an order: the value of the last put and of the appends behind it, or of
      all appends if there is no put. */
  function Held(history: seq<KvOp>, order: seq<nat>): string
    requires InHistory(history, order)
  {
    var p := LastPut(history, order);
    Writes(history, order, if p < |order| then p else 0)
  }

  lemma {:induction false} WritesSnoc(history: seq<KvOp>, done: seq<nat>, a: nat, i: nat)
    requires InHistory(history, done) && a < |history| && i <= |done|
    ensures Writes(history, done + [a], i) == Writes(history, done, i) + if history[a].input.op == 0 then ""
            else history[a].input.value
    decreases |done| - i
  {
    if i < |done| {
      WritesSnoc(history, done, a, i + 1);
    } else {
      assert Writes(history, done + [a], i + 1) == "";
    }
  }

  lemma HeldSnoc(history: seq<KvOp>, done: seq<nat>, a: nat)
    requires InHistory(history, done) && a < |history|
    ensures Held(history, done + [a]) ==
            if history[a].input.op == 0 then Held(history, done)
            else if history[a].input.op == 1 then history[a].input.value
            else Held(history, done) + history[a].input.value
  {
    var order := done + [a];
    assert order[..|order| - 1] == done;
    var p := LastPut(history, done);
    if history[a].input.op == 1 {
      WritesSnoc(history, done, a, |done|);
    } else {
      WritesSnoc(history, done, a, if p < |done| then p else 0);
    }
  }

  /** Every get in the order returned what the key held. */
  ghost predicate GetsAreRight(history: seq<KvOp>, order: seq<nat>)
    requires InHistory(history, order)
  {
    forall k :: 0 <= k < |order| && history[order[k]].input.op == 0 ==>
        history[order[k]].output.value == Held(history, order[..k])
  }

  /** An order is legal for one key exactly when every get returned what the key held, and it ends
      with what the key holds. */
  lemma {:induction false} OneKeyMeaning(history: seq<KvOp>, order: seq<nat>)
    requires InHistory(history, order)
    ensures Replay(OneKey(), history, order) == if GetsAreRight(history, order) then Some(Held(history, order))
            else None
  {
    if order != [] {
      var done, a := order[..|order| - 1], order[|order| - 1];
      assert order == done + [a];
      OneKeyMeaning(history, done);
      ReplaySnoc(OneKey(), history, done, a);
      HeldSnoc(history, done, a);
      GetsSnoc(history, done, a);
    }
  }

  lemma GetsSnoc(history: seq<KvOp>, done: seq<nat>, a: nat)
    requires InHistory(history, done) && a < |history|
    ensures GetsAreRight(history, done + [a]) <==>
            GetsAreRight(history, done) && (history[a].input.op == 0 ==> history[a].output.value == Held(history, done))
  {
    var order := done + [a];
    assert order[..|done|] == done;
    assert forall k :: 0 <= k < |done| ==> order[..k] == done[..k] && order[k] == done[k];
    if GetsAreRight(history, order) {
      forall k | 0 <= k < |done| && history[done[k]].input.op == 0
        ensures history[done[k]].output.value == Held(history, done[..k]) {
        assert order[k] == done[k];
      }
      assert order[|done|] == a;
    }
  }

  // ---------------------------------------------------------------- the store with all its keys

  function Lookup(store: map<string, string>, key: string): string {
    if key in store then store[key] else ""
  }

  function StoreStep(store: map<string, string>, input: KvInput, output: KvOutput): (bool, map<string, string>) {
    var (ok, value) := KvStep(Lookup(store, input.key), input, output);
    (ok, store[input.key := value])
  }

  /** What a history should be checked against: a map from keys to values. */
  function Store(): Model<map<string, string>, KvInput, KvOutput> {
    Model(map[], StoreStep, (s, t) => s == t)
  }

  // ---------------------------------------------------------------- splitting by key

  predicate HasKey(history: seq<KvOp>, key: string, a: nat) {
    a < |history| && history[a].input.key == key
  }

  /** The operations on one key, in the order of the history. */
  function Part(history: seq<KvOp>, key: string): seq<KvOp> {
    if history == [] then []
    else Part(history[..|history| - 1], key) +
         (if history[|history| - 1].input.key == key then [history[|history| - 1]] else [])
  }

  /** Their indices. */
  function Indices(history: seq<KvOp>, key: string): (r: seq<nat>)
    ensures |r| == |Part(history, key)|
    ensures forall i :: 0 <= i < |r| ==> HasKey(history, key, r[i]) && Part(history, key)[i] == history[r[i]]
    ensures forall i, j :: 0 <= i < j < |r| ==> r[i] < r[j]
  {
    if history == [] then []
    else Indices(history[..|history| - 1], key) +
         (if history[|history| - 1].input.key == key then [|history| - 1] else [])
  }

  lemma {:induction false} IndicesComplete(history: seq<KvOp>, key: string, a: nat)
    requires HasKey(history, key, a)
    ensures a in Indices(history, key)
  {
    if a < |history| - 1 {
      IndicesComplete(history[..|history| - 1], key, a);
    }
  }

  function KeysOf(history: seq<KvOp>): set<string> {
    set a | 0 <= a < |history| :: history[a].input.key
  }

  /** The part embeds into the whole history. */
  lemma PartEmbeds(history: seq<KvOp>, key: string)
    ensures Embeds(Part(history, key), history, Indices(history, key))
  {
  }

  /** The operations of one key, in the order they have in `order`. */
  function OfKey(history: seq<KvOp>, order: seq<nat>, key: string): (r: seq<nat>)
    ensures forall x :: x in r ==> x in order && HasKey(history, key, x)
  {
    if order == [] then []
    else OfKey(history, order[..|order| - 1], key) +
         (if HasKey(history, key, order[|order| - 1]) then [order[|order| - 1]] else [])
  }

  lemma OfKeySnoc(history: seq<KvOp>, order: seq<nat>, a: nat, key: string)
    ensures OfKey(history, order + [a], key) ==
            OfKey(history, order, key) + (if HasKey(history, key, a) then [a] else [])
  {
    assert (order + [a])[..|order + [a]| - 1] == order;
  }

  lemma {:induction false} OfKeyMember(history: seq<KvOp>, order: seq<nat>, key: string, x: nat)
    requires x in order && HasKey(history, key, x)
    ensures x in OfKey(history, order, key)
  {
    if x != order[|order| - 1] {
      assert order == order[..|order| - 1] + [order[|order| - 1]];
      OfKeyMember(history, order[..|order| - 1], key, x);
    }
  }

  // ---------------------------------------------------------------- the store key by key

  lemma StoreSnoc(history: seq<KvOp>, done: seq<nat>, a: nat)
    requires a < |history| && Replay(Store(), history, done).Some?
    ensures var (ok, next) := StoreStep(Replay(Store(), history, done).value, history[a].input, history[a].output);
            Replay(Store(), history, done + [a]) == if ok then Some(next) else None
  {
    ReplaySnoc(Store(), history, done, a);
  }

  lemma KeySnoc(history: seq<KvOp>, done: seq<nat>, a: nat)
    requires a < |history| && Replay(OneKey(), history, done).Some?
    ensures var (ok, next) := KvStep(Replay(OneKey(), history, done).value, history[a].input, history[a].output);
            Replay(OneKey(), history, done + [a]) == if ok then Some(next) else None
  {
    ReplaySnoc(OneKey(), history, done, a);
  }

  lemma OneStepOnEachKey(store: map<string, string>, input: KvInput, output: KvOutput, key: string)
    requires StoreStep(store, input, output).0
    ensures Lookup(StoreStep(store, input, output).1, key) ==
            if key == input.key then KvStep(Lookup(store, key), input, output).1 else Lookup(store, key)
  {
  }

  /** Running the store is running every key by itself. */
  lemma {:induction false} StoreRunsKeys(history: seq<KvOp>, order: seq<nat>, key: string)
    requires Replay(Store(), history, order).Some?
    ensures Replay(OneKey(), history, OfKey(history, order, key)) ==
            Some(Lookup(Replay(Store(), history, order).value, key))
  {
    if order != [] {
      var done, a := order[..|order| - 1], order[|order| - 1];
      assert order == done + [a];
      ReplaySnoc(Store(), history, done, a);
      StoreRunsKeys(history, done, key);
      StoreSnoc(history, done, a);
      OneStepOnEachKey(Replay(Store(), history, done).value, history[a].input, history[a].output, key);
      OfKeySnoc(history, done, a, key);
      if history[a].input.key == key {
        KeySnoc(history, OfKey(history, done, key), a);
      } else {
        assert OfKey(history, order, key) == OfKey(history, done, key);
      }
    }
  }

  lemma {:induction false} KeysRunStore(history: seq<KvOp>, order: seq<nat>)
    requires forall k :: 0 <= k < |order| ==> order[k] < |history|
    requires forall key :: Replay(OneKey(), history, OfKey(history, order, key)).Some?
    ensures Replay(Store(), history, order).Some?
  {
    if order != [] {
      var done, a := order[..|order| - 1], order[|order| - 1];
      assert order == done + [a];
      forall key ensures Replay(OneKey(), history, OfKey(history, done, key)).Some? {
        assert Replay(OneKey(), history, OfKey(history, order, key)).Some?;
        OfKeySnoc(history, done, a, key);
        if history[a].input.key == key {
          ReplaySnoc(OneKey(), history, OfKey(history, done, key), a);
        } else {
          assert OfKey(history, order, key) == OfKey(history, done, key);
        }
      }
      KeysRunStore(history, done);
      var key := history[a].input.key;
      StoreRunsKeys(history, done, key);
      OfKeySnoc(history, done, a, key);
      assert Replay(OneKey(), history, OfKey(history, order, key)).Some?;
      StoreSnoc(history, done, a);
      KeySnoc(history, OfKey(history, done, key), a);
    }
  }

  // ---------------------------------------------------------------- whole to parts

  lemma {:induction false} OfKeyOrder(history: seq<KvOp>, order: seq<nat>, key: string, i: nat, j: nat)
    returns (x: nat, y: nat)
    requires i < j < |OfKey(history, order, key)|
    ensures x < y < |order| && order[x] == OfKey(history, order, key)[i] && order[y] == OfKey(history, order, key)[j]
  {
    var done, a := order[..|order| - 1], order[|order| - 1];
    var sub := OfKey(history, done, key);
    if j < |sub| {
      x, y := OfKeyOrder(history, done, key, i, j);
    } else {
      assert sub[i] in done;
      x :| 0 <= x < |done| && done[x] == sub[i];
      y := |order| - 1;
    }
  }

  lemma OfKeyLinearizes(history: seq<KvOp>, order: seq<nat>, key: string)
    requires Linearizes(Store(), history, order)
    ensures LinearizesOn(OneKey(), history, Ids(Indices(history, key)), OfKey(history, order, key))
  {
    var sub := OfKey(history, order, key);
    forall k | 0 <= k < |sub| ensures sub[k] < |history| {
      assert sub[k] in sub;
    }
    forall i, j | 0 <= i < j < |sub| ensures sub[i] != sub[j] && !Precedes(history, sub[j], sub[i]) {
      var x, y := OfKeyOrder(history, order, key, i, j);
    }
    forall a ensures a in Ids(sub) <==> a in Ids(Indices(history, key)) {
      if a in Ids(sub) {
        IndicesComplete(history, key, a);
      }
      if a in Ids(Indices(history, key)) {
        assert a in Ids(order);
        OfKeyMember(history, order, key, a);
      }
    }
    StoreRunsKeys(history, order, key);
  }

  /** If the whole history is linearizable, so is the part of every key. */
  lemma WholeToPart(history: seq<KvOp>, key: string)
    requires Linearizable(Store(), history)
    ensures Linearizable(OneKey(), Part(history, key))
  {
    var order :| Linearizes(Store(), history, order);
    OfKeyLinearizes(history, order, key);
    PartEmbeds(history, key);
    EmbeddingTheorem(OneKey(), Part(history, key), history, Indices(history, key));
  }

  // ---------------------------------------------------------------- parts to whole

  /** A linearization of every key, as lists of indices of the whole history. */
  ghost predicate OrdersOf(history: seq<KvOp>, orders: map<string, seq<nat>>) {
    && orders.Keys == KeysOf(history)
    && forall key :: key in orders ==> LinearizesOn(OneKey(), history, Ids(Indices(history, key)), orders[key])
  }

  /** `merged` takes from every key's order a prefix, and nothing left over returned before the
      call of anything taken. */
  ghost predicate Merges(history: seq<KvOp>, orders: map<string, seq<nat>>, merged: seq<nat>) {
    && Distinct(merged)
    && RespectsRealTime(history, merged)
    && (forall k, z: nat :: 0 <= k < |merged| && z < |history| && z !in merged ==> !Precedes(history, z, merged[k]))
    && (forall key :: key in orders ==> OfKey(history, merged, key) <= orders[key])
  }

  /** The operation that returns first among those not taken yet. */
  lemma EarliestReturn(history: seq<KvOp>, merged: seq<nat>) returns (x: nat)
    requires exists z: nat :: z < |history| && z !in merged
    ensures x < |history| && x !in merged
    ensures forall z: nat :: z < |history| && z !in merged ==> history[x].ret <= history[z].ret
  {
    x :| x < |history| && x !in merged;
    for i := 0 to |history|
      invariant x < |history| && x !in merged
      invariant forall z: nat :: z < i && z !in merged ==> history[x].ret <= history[z].ret
    {
      if i !in merged && history[i].ret < history[x].ret {
        x := i;
      }
    }
  }

  /** The next operation of the key that owns the earliest return. */
  lemma NextOfKey(history: seq<KvOp>, order: seq<nat>, merged: seq<nat>, key: string, x: nat) returns (y: nat)
    requires LinearizesOn(OneKey(), history, Ids(Indices(history, key)), order)
    requires OfKey(history, merged, key) <= order
    requires x !in merged && HasKey(history, key, x)
    ensures HasKey(history, key, y) && y !in merged
    ensures y == x || !Precedes(history, x, y)
    ensures OfKey(history, merged, key) + [y] <= order
  {
    var taken := OfKey(history, merged, key);
    IndicesComplete(history, key, x);
    assert x in Ids(order);
    var i :| 0 <= i < |order| && order[i] == x;
    var n := |taken|;
    forall k | 0 <= k < n ensures order[k] != x {
      assert taken[k] in taken;
    }
    y := order[n];
    assert y in Ids(order);
    if y in merged {
      OfKeyMember(history, merged, key, y);
      assert false;
    }
  }

  /** Nothing left over precedes it. */
  lemma NextToMerge(history: seq<KvOp>, orders: map<string, seq<nat>>, merged: seq<nat>, x: nat) returns (y: nat)
    requires Timed(history)
    requires OrdersOf(history, orders) && Merges(history, orders, merged)
    requires x < |history| && x !in merged
    requires forall z: nat :: z < |history| && z !in merged ==> history[x].ret <= history[z].ret
    ensures y < |history| && y !in merged
    ensures forall z: nat :: z < |history| && z !in merged ==> !Precedes(history, z, y)
    ensures forall key :: key in orders ==> OfKey(history, merged + [y], key) <= orders[key]
  {
    var key := history[x].input.key;
    y := NextOfKey(history, orders[key], merged, key, x);
    forall k | k in orders ensures OfKey(history, merged + [y], k) <= orders[k] {
      OfKeySnoc(history, merged, y, k);
    }
  }

  lemma MergeOne(history: seq<KvOp>, orders: map<string, seq<nat>>, merged: seq<nat>, y: nat)
    requires Merges(history, orders, merged)
    requires y < |history| && y !in merged
    requires forall z: nat :: z < |history| && z !in merged ==> !Precedes(history, z, y)
    requires forall key :: key in orders ==> OfKey(history, merged + [y], key) <= orders[key]
    ensures Merges(history, orders, merged + [y])
  {
    var more := merged + [y];
    forall k, z: nat | 0 <= k < |more| && z < |history| && z !in more ensures !Precedes(history, z, more[k]) {
      assert z !in merged;
      assert k < |merged| ==> more[k] == merged[k];
    }
    forall i, j | 0 <= i < j < |more| ensures !Precedes(history, more[j], more[i]) {
      assert j == |merged| ==> more[j] == y && more[i] == merged[i];
    }
  }

  /** One more operation, as long as one is left. */
  lemma MergeStep(history: seq<KvOp>, orders: map<string, seq<nat>>, merged: seq<nat>) returns (y: nat)
    requires Timed(history)
    requires OrdersOf(history, orders) && Merges(history, orders, merged)
    requires exists z: nat :: z < |history| && z !in merged
    ensures Merges(history, orders, merged + [y])
  {
    var x := EarliestReturn(history, merged);
    y := NextToMerge(history, orders, merged, x);
    MergeOne(history, orders, merged, y);
  }

  lemma MergeSize(history: seq<KvOp>, orders: map<string, seq<nat>>, merged: seq<nat>)
    requires Merges(history, orders, merged)
    ensures |merged| <= |history|
    ensures |merged| == |history| <==> Ids(merged) == Below(|history|)
  {
    Pigeonhole(merged, |history|);
  }

  /** Merging the orders of all keys: always take the next operation of the key that owns the
      earliest remaining return. */
  lemma {:induction false} MergeAll(history: seq<KvOp>, orders: map<string, seq<nat>>, merged: seq<nat>)
    returns (all: seq<nat>)
    requires Timed(history)
    requires OrdersOf(history, orders) && Merges(history, orders, merged)
    ensures Merges(history, orders, all)
    ensures Ids(all) == Below(|history|)
    decreases |history| - |merged|
  {
    MergeSize(history, orders, merged);
    if |merged| == |history| {
      all := merged;
    } else {
      LeftOver(merged, |history|);
      var y := MergeStep(history, orders, merged);
      MergeSize(history, orders, merged + [y]);
      all := MergeAll(history, orders, merged + [y]);
    }
  }

  lemma LeftOver(merged: seq<nat>, n: nat)
    requires Distinct(merged) && |merged| < n
    ensures exists z: nat :: z < n && z !in merged
  {
    if forall z: nat :: z < n ==> z in merged {
      assert Below(n) <= Ids(merged);
      SubsetSize(Below(n), Ids(merged));
      BelowSize(n);
      DistinctSize(merged);
    }
  }

  lemma SomeKey(history: seq<KvOp>, order: seq<nat>, key: string)
    ensures OfKey(history, order, key) != [] ==> key in KeysOf(history)
  {
    var sub := OfKey(history, order, key);
    if sub != [] {
      assert sub[0] in sub;
    }
  }

  /** A merge of everything runs every key in that key's own order. */
  lemma MergedRuns(history: seq<KvOp>, orders: map<string, seq<nat>>, merged: seq<nat>, key: string)
    requires OrdersOf(history, orders) && Merges(history, orders, merged)
    requires Ids(merged) == Below(|history|)
    ensures Replay(OneKey(), history, OfKey(history, merged, key)).Some?
  {
    var sub := OfKey(history, merged, key);
    if sub != [] || key in orders {
      SomeKey(history, merged, key);
      forall k | 0 <= k < |orders[key]| ensures orders[key][k] in sub {
        assert orders[key][k] in Ids(orders[key]);
        assert orders[key][k] in Ids(merged);
        OfKeyMember(history, merged, key, orders[key][k]);
      }
      assert sub == orders[key];
    }
  }

  /** If the part of every key is linearizable, so is the whole history. */
  lemma PartsToWhole(history: seq<KvOp>)
    requires Timed(history)
    requires forall key :: key in KeysOf(history) ==> Linearizable(OneKey(), Part(history, key))
    ensures Linearizable(Store(), history)
  {
    var orders := ChooseOrders(history, KeysOf(history));
    var merged := MergeAll(history, orders, []);
    forall key ensures Replay(OneKey(), history, OfKey(history, merged, key)).Some? {
      MergedRuns(history, orders, merged, key);
    }
    KeysRunStore(history, merged);
    assert Linearizes(Store(), history, merged);
  }

  lemma ChooseOrders(history: seq<KvOp>, keys: set<string>) returns (orders: map<string, seq<nat>>)
    requires forall key :: key in keys ==> Linearizable(OneKey(), Part(history, key))
    ensures orders.Keys == keys
    ensures forall key :: key in keys ==> LinearizesOn(OneKey(), history, Ids(Indices(history, key)), orders[key])
  {
    orders := map[];
    var rest := keys;
    while rest != {}
      invariant rest <= keys && orders.Keys == keys - rest
      invariant forall key :: key in orders ==> LinearizesOn(OneKey(), history, Ids(Indices(history, key)), orders[key])
    {
      var key :| key in rest;
      PartEmbeds(history, key);
      EmbeddingTheorem(OneKey(), Part(history, key), history, Indices(history, key));
      var order :| LinearizesOn(OneKey(), history, Ids(Indices(history, key)), order);
      orders, rest := orders[key := order], rest - {key};
    }
  }

  /** Linearizability is local: a history of the store is linearizable exactly when every key's part
      is linearizable for the one-key model. */
  lemma Locality(history: seq<KvOp>)
    requires Timed(history)
    ensures Linearizable(Store(), history) <==> forall key :: key in KeysOf(history) ==>
            Linearizable(OneKey(), Part(history, key))
  {
    if Linearizable(Store(), history) {
      forall key | key in KeysOf(history) ensures Linearizable(OneKey(), Part(history, key)) {
        WholeToPart(history, key);
      }
    }
    if forall key :: key in KeysOf(history) ==> Linearizable(OneKey(), Part(history, key)) {
      PartsToWhole(history);
    }
  }

  // ---------------------------------------------------------------- Partition

  /** `parts` are the parts of the history's keys, one for each, in the order of `keys`. */
  ghost predicate PartsOf(history: seq<KvOp>, keys: seq<string>, parts: seq<seq<KvOp>>) {
    && Distinct(keys)
    && (forall key :: key in keys <==> key in KeysOf(history))
    && |parts| == |keys|
    && forall i :: 0 <= i < |keys| ==> parts[i] == Part(history, keys[i])
  }

  method Partition(history: seq<KvOp>) returns (ret: seq<seq<KvOp>>)
    ensures exists keys :: PartsOf(history, keys, ret) && Sorted(Strings.Less, keys)
  {
    var m: map<string, seq<KvOp>> := map[];
    for i := 0 to |history|
      invariant m.Keys == KeysOf(history[..i])
      invariant forall key :: key in m ==> m[key] == Part(history[..i], key)
    {
      var key := history[i].input.key;
      GroupSnoc(history, i);
      m := m[key := (if key in m then m[key] else []) + [history[i]]];
    }
    assert history[..|history|] == history;
    var keys := Collect(m.Keys);
    Strings.LessIsOrder();
    ghost var unsorted := keys;
    keys := Sort(keys, Strings.Less);
    SortedKeys(unsorted, keys);
    ret := [];
    for i := 0 to |keys|
      invariant |ret| == i
      invariant forall j :: 0 <= j < i ==> ret[j] == Part(history, keys[j])
    {
      assert keys[i] in keys;
      ret := ret + [m[keys[i]]];
    }
    assert PartsOf(history, keys, ret);
  }

  /** Ranging over a map: its keys, each once, in some order. */
  method Collect(all: set<string>) returns (keys: seq<string>)
    ensures Distinct(keys)
    ensures forall key :: key in keys <==> key in all
  {
    keys := [];
    var left := all;
    while left != {}
      invariant left <= all
      invariant Distinct(keys)
      invariant forall key :: key in keys <==> key in all - left
    {
      var k :| k in left;
      assert k !in keys;
      keys, left := keys + [k], left - {k};
    }
  }

  lemma SortedKeys(unsorted: seq<string>, keys: seq<string>)
    requires Distinct(unsorted)
    requires multiset(keys) == multiset(unsorted)
    ensures Distinct(keys)
    ensures forall key :: key in keys <==> key in unsorted
  {
    forall i, j | 0 <= i < j < |keys| ensures keys[i] != keys[j] {
      PermutationDistinct(unsorted, keys, i, j);
    }
    forall key ensures key in keys <==> key in unsorted {
      PermutationMember(keys, unsorted, key);
    }
  }

  lemma GroupSnoc(history: seq<KvOp>, i: nat)
    requires i < |history|
    ensures KeysOf(history[..i + 1]) == KeysOf(history[..i]) + {history[i].input.key}
    ensures history[i].input.key !in KeysOf(history[..i]) ==> Part(history[..i], history[i].input.key) == []
    ensures forall key :: Part(history[..i + 1], key) ==
                          Part(history[..i], key) + (if history[i].input.key == key then [history[i]] else [])
  {
    var before, more := history[..i], history[..i + 1];
    assert more[..|more| - 1] == before;
    forall key ensures key in KeysOf(more) <==> key in KeysOf(before) + {history[i].input.key} {
      if key in KeysOf(before) {
        var a :| 0 <= a < |before| && before[a].input.key == key;
        assert more[a].input.key == key;
      }
      assert more[i].input.key == history[i].input.key;
      if key in KeysOf(more) {
        var a :| 0 <= a < |more| && more[a].input.key == key;
        assert a < i ==> before[a].input.key == key;
      }
    }
    var key := history[i].input.key;
    if Part(before, key) != [] {
      assert HasKey(before, key, Indices(before, key)[0]);
    }
  }
}
