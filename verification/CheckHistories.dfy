/** From a history to a verdict: partition, make entries, check the parts in parallel. */
module CheckHistories {
  import opened Histories
  import opened Sorting
  import opened Entries
  import opened ParallelChecker
  import Kv = KvModel

  /** `l` holds the entries of the parts, in the order of the parts. */
  ghost predicate EntriesOfParts<I, O>(parts: seq<seq<Operation<I, O>>>, l: seq<seq<Entry<I, O>>>) {
    && |l| == |parts|
    && forall i :: 0 <= i < |parts| ==> SortOf(Earlier, Unsorted(parts[i]), l[i])
  }

  method MakeAllEntries<I(!new), O(!new)>(parts: seq<seq<Operation<I, O>>>) returns (l: seq<seq<Entry<I, O>>>)
    ensures EntriesOfParts(parts, l)
  {
    l := [];
    for i := 0 to |parts|
      invariant |l| == i
      invariant forall j :: 0 <= j < i ==> SortOf(Earlier, Unsorted(parts[j]), l[j])
    {
      var entries := MakeEntries(parts[i]);
      l := l + [entries];
    }
  }

  /** What the partition function of a model must deliver: the whole history is linearizable for
      `whole` exactly when every part is for the model, and parts are as well timed as the whole. */
  ghost predicate PartitionContract<S, T, I, O>(whole: Model<T, I, O>, m: Model<S, I, O>,
        history: seq<Operation<I, O>>, parts: seq<seq<Operation<I, O>>>) {
    && (forall i :: 0 <= i < |parts| ==> Timed(parts[i]))
    && (Linearizable(whole, history) <==> forall i :: 0 <= i < |parts| ==> Linearizable(m, parts[i]))
  }

  /** A verdict as the documentation promises it: Ok and Illegal are right, and unless a timer was set
      and has fired there is no other. */
  ghost predicate RightVerdict(linearizable: bool, timeout: bool, run: seq<State>, result: CheckResult) {
    && (result == Ok ==> linearizable)
    && (result == Illegal ==> !linearizable)
    && (result == Unknown ==> TimerFired(run))
    && (TimerFired(run) ==> timeout)
  }

  lemma PartsVerdict<S(!new), I(!new), O(!new)>(c: Config<S, I, O>, parts: seq<seq<Operation<I, O>>>)
    requires ValidModel(c.m) && EntriesOfParts(parts, c.parts)
    requires forall i :: 0 <= i < |parts| ==> Timed(parts[i])
    ensures ValidConfig(c)
    ensures (forall i: nat :: i < |c.parts| ==> Lin(c, i)) <==>
            (forall i :: 0 <= i < |parts| ==> Linearizable(c.m, parts[i]))
  {
    forall i: nat | i < |parts|
      ensures WellFormed(c.parts[i])
      ensures Lin(c, i) <==> Linearizable(c.m, parts[i])
    {
      SortedVerdict(c.m, parts[i], c.parts[i]);
    }
    assert (forall i :: 0 <= i < |parts| ==> Linearizable(c.m, parts[i])) ==> forall i: nat :: i < |c.parts| ==>
        Lin(c, i);
  }

  /** `checkOperations`, for any model whose partition function keeps its contract and for any run
      of the goroutines: the verdict is about the whole history. */
  lemma OperationsVerdict<S(!new), T, I(!new), O(!new)>(whole: Model<T, I, O>, history: seq<Operation<I, O>>,
        parts: seq<seq<Operation<I, O>>>, c: Config<S, I, O>, run: seq<State>)
    requires ValidModel(c.m) && PartitionContract(whole, c.m, history, parts)
    requires EntriesOfParts(parts, c.parts)
    requires IsRun(c, run) && run[|run| - 1].place.Returned?
    ensures RightVerdict(Linearizable(whole, history), c.timeout, run, run[|run| - 1].place.result)
  {
    PartsVerdict(c, parts);
    Safety(c, run);
  }

  /** A model without a partition function has one part, the history. */
  lemma NoPartitionContract<S, I, O>(m: Model<S, I, O>, history: seq<Operation<I, O>>)
    requires Timed(history)
    ensures PartitionContract(m, m, history, [history])
  {
    assert [history][0] == history;
  }

  // ---------------------------------------------------------------- the key/value store

  lemma {:induction false} PartTimed(history: seq<Kv.KvOp>, key: string)
    requires Timed(history)
    ensures Timed(Kv.Part(history, key))
  {
    assert forall i :: 0 <= i < |Kv.Indices(history, key)| ==>
        Kv.Part(history, key)[i] == history[Kv.Indices(history, key)[i]];
  }

  /** The key/value model's partition function keeps the contract. */
  lemma KvPartitionContract(history: seq<Kv.KvOp>, keys: seq<string>, parts: seq<seq<Kv.KvOp>>)
    requires Timed(history) && Kv.PartsOf(history, keys, parts)
    ensures PartitionContract(Kv.Store(), Kv.OneKey(), history, parts)
  {
    forall i | 0 <= i < |parts| ensures Timed(parts[i]) {
      PartTimed(history, keys[i]);
    }
    Kv.Locality(history);
    if Linearizable(Kv.Store(), history) {
      forall i | 0 <= i < |parts| ensures Linearizable(Kv.OneKey(), parts[i]) {
        assert keys[i] in keys;
      }
    }
    if forall i :: 0 <= i < |parts| ==> Linearizable(Kv.OneKey(), parts[i]) {
      forall key | key in Kv.KeysOf(history) ensures Linearizable(Kv.OneKey(), Kv.Part(history, key)) {
        var i :| 0 <= i < |keys| && keys[i] == key;
        assert parts[i] == Kv.Part(history, key);
      }
    }
  }

  /** `checkOperations` with the key/value model up to the start of the goroutines. */
  method PrepareStore(history: seq<Kv.KvOp>, computeInfo: bool, timeout: bool)
    returns (c: Config<string, Kv.KvInput, Kv.KvOutput>)
    requires Timed(history)
    ensures ValidConfig(c) && c.timeout == timeout && c.computeInfo == computeInfo
    ensures c.parts == [] <==> history == []
    ensures forall run: seq<State> :: IsRun(c, run) && run[|run| - 1].place.Returned? ==>
              RightVerdict(Linearizable(Kv.Store(), history), timeout, run, run[|run| - 1].place.result)
  {
    var parts := Kv.Partition(history);
    ghost var keys :| Kv.PartsOf(history, keys, parts);
    var l := MakeAllEntries(parts);
    c := Config(Kv.OneKey(), l, computeInfo, timeout);
    Kv.OneKeyIsValid();
    KvPartitionContract(history, keys, parts);
    PartsVerdict(c, parts);
    forall run: seq<State> | IsRun(c, run) && run[|run| - 1].place.Returned?
      ensures RightVerdict(Linearizable(Kv.Store(), history), timeout, run, run[|run| - 1].place.result)
    {
      OperationsVerdict(Kv.Store(), history, parts, c, run);
    }
    NoKeys(history, keys);
  }

  lemma NoKeys(history: seq<Kv.KvOp>, keys: seq<string>)
    requires forall key :: key in keys <==> key in Kv.KeysOf(history)
    ensures keys == [] <==> history == []
  {
    if history != [] {
      assert history[0].input.key in Kv.KeysOf(history);
    }
    if keys != [] {
      assert keys[0] in keys;
    }
  }

  /** An empty history has no keys, hence no partitions: without a timer `checkOperations` never returns,
      although the empty history is linearizable. Every other history gets its verdict. */
  lemma StoreReturns(history: seq<Kv.KvOp>, keys: seq<string>, parts: seq<seq<Kv.KvOp>>,
        c: Config<string, Kv.KvInput, Kv.KvOutput>, run: seq<State>, s: State)
    requires Timed(history) && Kv.PartsOf(history, keys, parts)
    requires c.m == Kv.OneKey() && EntriesOfParts(parts, c.parts)
    requires IsRun(c, run) && s == run[|run| - 1]
    ensures history != [] || c.timeout <==> s.place.Returned? || exists t :: Step(c, s, t)
    ensures |run| <= 3 * |c.parts| + 3
  {
    Kv.OneKeyIsValid();
    NoKeys(history, keys);
    forall i | 0 <= i < |parts| ensures Timed(parts[i]) {
      PartTimed(history, keys[i]);
    }
    PartsVerdict(c, parts);
    Returns(c, run, s);
    RunsEnd(c, run);
  }

  /** The empty history is linearizable all the same. */
  lemma EmptyIsLinearizable<S, I, O>(m: Model<S, I, O>)
    ensures Linearizable(m, [])
  {
    assert Linearizes(m, [], []);
  }

  // ---------------------------------------------------------------- events

  /** The operations of an event history, in some listing, have a legal order. */
  ghost predicate EventsLinearizable<S, I, O>(m: Model<S, I, O>, events: seq<Event<I, O>>) {
    exists listing :: Enumerates(events, listing) && Linearizable(m, EventOps(events, listing))
  }

  /** `h` holds the renumbered and converted events. */
  ghost predicate Converted<I(!new), O(!new)>(events: seq<Event<I, O>>, h: seq<Entry<I, O>>) {
    exists names, r :: EntriesOf(events, names, r, h)
  }

  ghost predicate EntriesOfEvents<I(!new), O(!new)>(parts: seq<seq<Event<I, O>>>, l: seq<seq<Entry<I, O>>>) {
    && |l| == |parts|
    && forall i :: 0 <= i < |parts| ==> Converted(parts[i], l[i])
  }

  /** What the event partition function of a model must deliver. */
  ghost predicate EventContract<S, T, I, O>(whole: Model<T, I, O>, m: Model<S, I, O>, events: seq<Event<I, O>>,
                                            parts: seq<seq<Event<I, O>>>) {
    && (forall i :: 0 <= i < |parts| ==> WellFormedEvents(parts[i]))
    && (EventsLinearizable(whole, events) <==> forall i :: 0 <= i < |parts| ==> EventsLinearizable(m, parts[i]))
  }

  method ConvertAll<I(!new), O(!new)>(parts: seq<seq<Event<I, O>>>) returns (l: seq<seq<Entry<I, O>>>)
    ensures EntriesOfEvents(parts, l)
  {
    l := [];
    for i := 0 to |parts|
      invariant |l| == i
      invariant forall j :: 0 <= j < i ==> Converted(parts[j], l[j])
    {
      var r := Renumber(parts[i]);
      var h := ConvertEntries(r);
      ghost var names :| Renumbers(parts[i], r, names);
      assert EntriesOf(parts[i], names, r, h);
      l := l + [h];
    }
  }

  /** The entries decide the question of the events, however these are listed. */
  lemma ConvertedVerdict<S, I(!new), O(!new)>(m: Model<S, I, O>, events: seq<Event<I, O>>, h: seq<Entry<I, O>>)
    requires WellFormedEvents(events) && Converted(events, h)
    ensures WellFormed(h)
    ensures Linearizable(m, OpsOf(h)) <==> EventsLinearizable(m, events)
  {
    var names, r :| EntriesOf(events, names, r, h);
    EntriesFacts(events, names, r, h);
    RenumberedVerdict(m, events, names, r, h, names);
    if listing :| Enumerates(events, listing) && Linearizable(m, EventOps(events, listing)) {
      RenumberedVerdict(m, events, names, r, h, listing);
    }
  }

  lemma EventPartsVerdict<S(!new), I(!new), O(!new)>(c: Config<S, I, O>, parts: seq<seq<Event<I, O>>>)
    requires ValidModel(c.m) && EntriesOfEvents(parts, c.parts)
    requires forall i :: 0 <= i < |parts| ==> WellFormedEvents(parts[i])
    ensures ValidConfig(c)
    ensures (forall i: nat :: i < |c.parts| ==> Lin(c, i)) <==>
            (forall i :: 0 <= i < |parts| ==> EventsLinearizable(c.m, parts[i]))
  {
    forall i: nat | i < |parts|
      ensures WellFormed(c.parts[i])
      ensures Lin(c, i) <==> EventsLinearizable(c.m, parts[i])
    {
      ConvertedVerdict(c.m, parts[i], c.parts[i]);
    }
    assert (forall i :: 0 <= i < |parts| ==> EventsLinearizable(c.m, parts[i])) ==> forall i: nat :: i < |c.parts| ==>
        Lin(c, i);
  }

  /** `checkEvents`, for any model whose event partition function keeps its contract and for any run of
      the goroutines: the verdict is about the whole history. */
  lemma EventsVerdict<S(!new), T, I(!new), O(!new)>(whole: Model<T, I, O>, events: seq<Event<I, O>>,
        parts: seq<seq<Event<I, O>>>, c: Config<S, I, O>, run: seq<State>)
    requires ValidModel(c.m) && EventContract(whole, c.m, events, parts)
    requires EntriesOfEvents(parts, c.parts)
    requires IsRun(c, run) && run[|run| - 1].place.Returned?
    ensures RightVerdict(EventsLinearizable(whole, events), c.timeout, run, run[|run| - 1].place.result)
  {
    EventPartsVerdict(c, parts);
    Safety(c, run);
  }

  /** A model without an event partition function has one part, the history. */
  lemma NoPartitionEventContract<S, I, O>(m: Model<S, I, O>, events: seq<Event<I, O>>)
    requires WellFormedEvents(events)
    ensures EventContract(m, m, events, [events])
  {
    assert [events][0] == events;
  }

  /** `checkEvents` up to the start of the goroutines; `parts` is what the event partition function gave. */
  method PrepareEvents<S(!new), T, I(!new), O(!new)>(m: Model<S, I, O>, parts: seq<seq<Event<I, O>>>,
        computeInfo: bool, timeout: bool, ghost whole: Model<T, I, O>, ghost events: seq<Event<I, O>>)
    returns (c: Config<S, I, O>)
    requires ValidModel(m) && EventContract(whole, m, events, parts)
    ensures ValidConfig(c) && |c.parts| == |parts| && c.timeout == timeout && c.computeInfo == computeInfo
    ensures forall run: seq<State> :: IsRun(c, run) && run[|run| - 1].place.Returned? ==>
              RightVerdict(EventsLinearizable(whole, events), timeout, run, run[|run| - 1].place.result)
  {
    var l := ConvertAll(parts);
    c := Config(m, l, computeInfo, timeout);
    EventPartsVerdict(c, parts);
    forall run: seq<State> | IsRun(c, run) && run[|run| - 1].place.Returned?
      ensures RightVerdict(EventsLinearizable(whole, events), timeout, run, run[|run| - 1].place.result)
    {
      EventsVerdict(whole, events, parts, c, run);
    }
  }

  // ---------------------------------------------------------------- events of the key/value store

  type KvEvent = Event<Kv.KvInput, Kv.KvOutput>

  /** All calls are on these keys. */
  predicate OnKeys(events: seq<KvEvent>, keys: set<string>) {
    forall k :: 0 <= k < |events| && events[k].CallEvent? ==> events[k].input.key in keys
  }

  /** A history on at most one key is the part of that key. */
  lemma OneKeyHistory(history: seq<Kv.KvOp>, keys: set<string>)
    requires Timed(history) && Kv.KeysOf(history) <= keys && forall a, b :: a in keys && b in keys ==> a == b
    ensures Linearizable(Kv.OneKey(), history) <==> Linearizable(Kv.Store(), history)
  {
    Kv.Locality(history);
    if history == [] {
      EmptyIsLinearizable(Kv.OneKey());
      EmptyIsLinearizable(Kv.Store());
    } else {
      var key := history[0].input.key;
      forall a | 0 <= a < |history| ensures history[a].input.key == key {
        assert history[a].input.key in Kv.KeysOf(history) && key in Kv.KeysOf(history);
      }
      WholePart(history, key);
    }
  }

  lemma {:induction false} WholePart(history: seq<Kv.KvOp>, key: string)
    requires forall a :: 0 <= a < |history| ==> history[a].input.key == key
    ensures Kv.Part(history, key) == history
  {
    if history != [] {
      WholePart(history[..|history| - 1], key);
    }
  }

  lemma EventOpsKeys(events: seq<KvEvent>, listing: seq<int>, keys: set<string>)
    requires Enumerates(events, listing) && OnKeys(events, keys)
    ensures Timed(EventOps(events, listing)) && Kv.KeysOf(EventOps(events, listing)) <= keys
  {
    forall a | 0 <= a < |listing|
      ensures EventOp(events, listing[a]).call <= EventOp(events, listing[a]).ret
      ensures EventOp(events, listing[a]).input.key in keys
    {
      assert Completes(events, listing[a]);
    }
  }

  lemma OneKeyEvents(events: seq<KvEvent>, keys: set<string>)
    requires OnKeys(events, keys) && forall a, b :: a in keys && b in keys ==> a == b
    ensures EventsLinearizable(Kv.OneKey(), events) <==> EventsLinearizable(Kv.Store(), events)
  {
    forall listing | Enumerates(events, listing)
      ensures Linearizable(Kv.OneKey(), EventOps(events, listing)) <==>
              Linearizable(Kv.Store(), EventOps(events, listing))
    {
      EventOpsKeys(events, listing, keys);
      OneKeyHistory(EventOps(events, listing), keys);
    }
  }

  /** A put on one key and, after it, a get on another that finds nothing. */
  function PutThenGet(a: string, b: string): seq<KvEvent> {
    [CallEvent(0, Kv.KvInput(1, a, "x"), 0), ReturnEvent(0, Kv.KvOutput(""), 0),
     CallEvent(0, Kv.KvInput(0, b, ""), 1), ReturnEvent(0, Kv.KvOutput(""), 1)]
  }

  lemma PutThenGetOps(a: string, b: string, listing: seq<int>)
    requires Enumerates(PutThenGet(a, b), listing)
    ensures |listing| == 2 && {listing[0], listing[1]} == {0, 1}
    ensures EventOp(PutThenGet(a, b), 0) == Operation(0, Kv.KvInput(1, a, "x"), 0, Kv.KvOutput(""), 1)
    ensures EventOp(PutThenGet(a, b), 1) == Operation(0, Kv.KvInput(0, b, ""), 2, Kv.KvOutput(""), 3)
  {
    var events := PutThenGet(a, b);
    assert EventCall(events, 0, 0) && EventReturn(events, 1, 0) && EventCall(events, 2, 1) && EventReturn(events, 3, 1);
    assert events[0].id == 0 && events[2].id == 1;
    forall k | 0 <= k < |listing| ensures listing[k] in {0, 1} {
      assert Completes(events, listing[k]);
    }
    assert 0 in listing && 1 in listing;
    TwoNumbers(listing);
  }

  lemma TwoNumbers(s: seq<int>)
    requires Distinct(s) && 0 in s && 1 in s && forall k :: 0 <= k < |s| ==> s[k] in {0, 1}
    ensures |s| == 2 && {s[0], s[1]} == {0, 1}
  {
    var i :| 0 <= i < |s| && s[i] == 0;
    var j :| 0 <= j < |s| && s[j] == 1;
    var t: seq<nat> := seq(|s|, k requires 0 <= k < |s| => if s[k] == 0 then 0 else 1);
    Pigeonhole(t, 2);
    assert i != j && s[0] != s[1];
  }

  /** `checkEvents` takes such a history for a read of a stale value. */
  lemma PutThenGetMisjudged(a: string, b: string)
    requires a != b
    ensures WellFormedEvents(PutThenGet(a, b))
    ensures EventsLinearizable(Kv.Store(), PutThenGet(a, b)) && !EventsLinearizable(Kv.OneKey(), PutThenGet(a, b))
  {
    var events := PutThenGet(a, b);
    assert EventCall(events, 0, 0) && EventReturn(events, 1, 0) && EventCall(events, 2, 1) && EventReturn(events, 3, 1);
    assert Completes(events, 0) && Completes(events, 1);
    assert Enumerates(events, [0, 1]);
    PutThenGetOps(a, b, [0, 1]);
    StoreAccepts(EventOps(events, [0, 1]), a, b);
    forall listing | Enumerates(events, listing) ensures !Linearizable(Kv.OneKey(), EventOps(events, listing)) {
      PutThenGetOps(a, b, listing);
      OneKeyRefuses(EventOps(events, listing), if listing[0] == 0 then 0 else 1, a, b);
    }
  }

  lemma StoreAccepts(ops: seq<Kv.KvOp>, a: string, b: string)
    requires a != b && ops == [Operation(0, Kv.KvInput(1, a, "x"), 0, Kv.KvOutput(""), 1),
                               Operation(0, Kv.KvInput(0, b, ""), 2, Kv.KvOutput(""), 3)]
    ensures Linearizable(Kv.Store(), ops)
  {
    ReplaySnoc(Kv.Store(), ops, [], 0);
    ReplaySnoc(Kv.Store(), ops, [0], 1);
    assert [] + [0] == [0] && [0] + [1] == [0, 1];
    assert Ids([0, 1]) == Below(2);
    assert Linearizes(Kv.Store(), ops, [0, 1]);
  }

  lemma OneKeyRefuses(ops: seq<Kv.KvOp>, p: nat, a: string, b: string)
    requires |ops| == 2 && p < 2
    requires ops[p] == Operation(0, Kv.KvInput(1, a, "x"), 0, Kv.KvOutput(""), 1)
    requires ops[1 - p] == Operation(0, Kv.KvInput(0, b, ""), 2, Kv.KvOutput(""), 3)
    ensures !Linearizable(Kv.OneKey(), ops)
  {
    forall order ensures !Linearizes(Kv.OneKey(), ops, order) {
      if Linearizes(Kv.OneKey(), ops, order) {
        Pigeonhole(order, 2);
        assert order[0] in Ids(order) && order[1] in Ids(order);
        assert Precedes(ops, p, 1 - p);
        assert order == [p] + [1 - p] && [] + [p] == [p];
        ReplaySnoc(Kv.OneKey(), ops, [], p);
        ReplaySnoc(Kv.OneKey(), ops, [p], 1 - p);
      }
    }
  }

  /** The key/value model has no event partition function, so `checkEvents` judges all keys as one.
      Over a set of keys it is right about the store for every history exactly when there are not two keys. */
  lemma EventsNeedOneKey(keys: set<string>)
    ensures (forall events :: WellFormedEvents(events) && OnKeys(events, keys) ==>
               (EventsLinearizable(Kv.OneKey(), events) <==> EventsLinearizable(Kv.Store(), events)))
            <==> (forall a, b :: a in keys && b in keys ==> a == b)
  {
    if forall a, b :: a in keys && b in keys ==> a == b {
      forall events | WellFormedEvents(events) && OnKeys(events, keys)
        ensures EventsLinearizable(Kv.OneKey(), events) <==> EventsLinearizable(Kv.Store(), events)
      {
        OneKeyEvents(events, keys);
      }
    } else {
      var a, b :| a in keys && b in keys && a != b;
      PutThenGetMisjudged(a, b);
      assert OnKeys(PutThenGet(a, b), keys);
    }
  }
}
