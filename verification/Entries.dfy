/** From operations, or events, to the time-ordered entries the checker searches. */
module Entries {
  import opened Histories
  import opened Sorting

  /** A call or a return of operation `id`. */
  datatype Entry<I, O> =
    | CallEntry(input: I, id: int, time: int, clientId: int)
    | ReturnEntry(output: O, id: int, time: int, clientId: int)

  // ---------------------------------------------------------------- well-formed histories

  ghost predicate IsCall<I, O>(h: seq<Entry<I, O>>, k: nat, a: int) {
    k < |h| && h[k].CallEntry? && h[k].id == a
  }

  ghost predicate IsReturn<I, O>(h: seq<Entry<I, O>>, k: nat, a: int) {
    k < |h| && h[k].ReturnEntry? && h[k].id == a
  }

  ghost predicate HasCall<I, O>(h: seq<Entry<I, O>>, a: int) {
    exists k: nat :: IsCall(h, k, a)
  }

  ghost predicate HasReturn<I, O>(h: seq<Entry<I, O>>, a: int) {
    exists k: nat :: IsReturn(h, k, a)
  }

  /** What the search demands: the ids are 0..n-1, and each has exactly one call and, after it,
      exactly one return. */
  ghost predicate WellFormed<I, O>(h: seq<Entry<I, O>>) {
    && |h| % 2 == 0
    && (forall k :: 0 <= k < |h| ==> 0 <= h[k].id < |h| / 2)
    && (forall a: nat :: a < |h| / 2 ==> HasCall(h, a) && HasReturn(h, a))
    && (forall a, j: nat, k: nat :: IsCall(h, j, a) && IsCall(h, k, a) ==> j == k)
    && (forall a, j: nat, k: nat :: IsReturn(h, j, a) && IsReturn(h, k, a) ==> j == k)
    && (forall a, j: nat, k: nat :: IsCall(h, j, a) && IsReturn(h, k, a) ==> j < k)
  }

  ghost function CallAt<I, O>(h: seq<Entry<I, O>>, a: nat): (k: nat)
    requires WellFormed(h) && a < |h| / 2
    ensures IsCall(h, k, a)
  {
    assert HasCall(h, a);
    var k: nat :| IsCall(h, k, a);
    k
  }

  ghost function ReturnAt<I, O>(h: seq<Entry<I, O>>, a: nat): (k: nat)
    requires WellFormed(h) && a < |h| / 2
    ensures IsReturn(h, k, a)
  {
    assert HasReturn(h, a);
    var k: nat :| IsReturn(h, k, a);
    k
  }

  /** The operation with id `a`, timed by the positions of its two entries. */
  ghost function OpOf<I, O>(h: seq<Entry<I, O>>, a: nat): (op: Operation<I, O>)
    requires WellFormed(h) && a < |h| / 2
  {
    var c, r := CallAt(h, a), ReturnAt(h, a);
    Operation(h[c].clientId, h[c].input, c, h[r].output, r)
  }

  /** The history the entries stand for. */
  ghost function OpsOf<I, O>(h: seq<Entry<I, O>>): (ops: seq<Operation<I, O>>)
    requires WellFormed(h)
    ensures |ops| == |h| / 2
    ensures forall a :: 0 <= a < |ops| ==> ops[a] == OpOf(h, a)
    ensures Timed(ops)
  {
    seq(|h| / 2, a requires 0 <= a < |h| / 2 => OpOf(h, a))
  }

  // ---------------------------------------------------------------- operations to entries

  /** byTime.Less: earlier first, and calls before returns at the same time. */
  predicate Earlier<I, O>(a: Entry<I, O>, b: Entry<I, O>) {
    if a.time != b.time then a.time < b.time else a.CallEntry? && b.ReturnEntry?
  }

  function CallOf<I, O>(history: seq<Operation<I, O>>, a: nat): Entry<I, O>
    requires a < |history|
  {
    CallEntry(history[a].input, a, history[a].call, history[a].clientId)
  }

  function ReturnOf<I, O>(history: seq<Operation<I, O>>, a: nat): Entry<I, O>
    requires a < |history|
  {
    ReturnEntry(history[a].output, a, history[a].ret, history[a].clientId)
  }

  /** The entries before sorting: each operation's call, then its return. */
  function Unsorted<I, O>(history: seq<Operation<I, O>>): (h: seq<Entry<I, O>>) {
    seq(2 * |history|, k requires 0 <= k < 2 * |history| =>
      if k % 2 == 0 then CallOf(history, k / 2) else ReturnOf(history, k / 2))
  }

  /** By time; at the same time calls stand before returns. */
  ghost predicate InTimeOrder<I, O>(h: seq<Entry<I, O>>) {
    forall i, j :: 0 <= i < j < |h| ==>
      h[i].time < h[j].time || (h[i].time == h[j].time && (h[i].CallEntry? || h[j].ReturnEntry?))
  }

  lemma MadeEntries<I, O>(history: seq<Operation<I, O>>, h: seq<Entry<I, O>>)
    requires SortOf(Earlier, Unsorted(history), h)
    ensures |h| == 2 * |history| && InTimeOrder(h) && forall a: nat :: a < |history| ==>
              && CallEntry(history[a].input, a, history[a].call, history[a].clientId) in h
              && ReturnEntry(history[a].output, a, history[a].ret, history[a].clientId) in h
  {
    var all := Unsorted(history);
    assert |multiset(h)| == |h| && |multiset(all)| == |all|;
    forall i, j | 0 <= i < j < |h|
      ensures h[i].time < h[j].time || (h[i].time == h[j].time && (h[i].CallEntry? || h[j].ReturnEntry?))
    {
      assert !Earlier(h[j], h[i]);
    }
    forall a: nat | a < |history|
      ensures CallEntry(history[a].input, a, history[a].call, history[a].clientId) in h
      ensures ReturnEntry(history[a].output, a, history[a].ret, history[a].clientId) in h
    {
      assert all[2 * a] in all && all[2 * a + 1] in all;
      PermutationMember(all, h, all[2 * a]);
      PermutationMember(all, h, all[2 * a + 1]);
    }
  }

  method MakeEntries<I(!new), O(!new)>(history: seq<Operation<I, O>>) returns (entries: seq<Entry<I, O>>)
    ensures SortOf(Earlier, Unsorted(history), entries)
    ensures |entries| == 2 * |history| && InTimeOrder(entries) && forall a: nat :: a < |history| ==>
              && CallEntry(history[a].input, a, history[a].call, history[a].clientId) in entries
              && ReturnEntry(history[a].output, a, history[a].ret, history[a].clientId) in entries
  {
    entries := [];
    var id := 0;
    for k := 0 to |history|
      invariant id == k
      invariant |entries| == 2 * k
      invariant forall j :: 0 <= j < 2 * k ==> entries[j] == Unsorted(history)[j]
    {
      var elem := history[k];
      entries := entries + [CallEntry(elem.input, id, elem.call, elem.clientId)];
      entries := entries + [ReturnEntry(elem.output, id, elem.ret, elem.clientId)];
      id := id + 1;
    }
    assert entries == Unsorted(history);
    entries := Sort(entries, Earlier);
    MadeEntries(history, entries);
  }

  /** Every call and every return of the history sits at exactly one place of a sorted result. */
  lemma UnsortedDistinct<I, O>(history: seq<Operation<I, O>>)
    ensures forall i, j :: 0 <= i < j < |Unsorted(history)| ==> Unsorted(history)[i] != Unsorted(history)[j]
  {
    var u := Unsorted(history);
    forall i, j | 0 <= i < j < |u| ensures u[i] != u[j] {
      assert u[i] == if i % 2 == 0 then CallOf(history, i / 2) else ReturnOf(history, i / 2);
      assert u[j] == if j % 2 == 0 then CallOf(history, j / 2) else ReturnOf(history, j / 2);
    }
  }

  lemma SortedElements<I, O>(history: seq<Operation<I, O>>, h: seq<Entry<I, O>>)
    requires SortOf(Earlier, Unsorted(history), h)
    ensures |h| == 2 * |history|
    ensures forall k :: 0 <= k < |h| ==> 0 <= h[k].id < |history| &&
                                         h[k] == if h[k].CallEntry? then CallOf(history, h[k].id)
                                             else ReturnOf(history, h[k].id)
    ensures forall a: nat :: a < |history| ==> CallOf(history, a) in h && ReturnOf(history, a) in h
    ensures forall i, j :: 0 <= i < j < |h| ==> h[i] != h[j]
  {
    var u := Unsorted(history);
    assert |multiset(h)| == |multiset(u)|;
    forall k | 0 <= k < |h|
      ensures 0 <= h[k].id < |history| && h[k] == if h[k].CallEntry? then CallOf(history, h[k].id)
              else ReturnOf(history, h[k].id)
    {
      PermutationMember(h, u, h[k]);
    }
    forall a: nat | a < |history| ensures CallOf(history, a) in h && ReturnOf(history, a) in h {
      assert u[2 * a] == CallOf(history, a) && u[2 * a + 1] == ReturnOf(history, a);
      PermutationMember(h, u, u[2 * a]);
      PermutationMember(h, u, u[2 * a + 1]);
    }
    UnsortedDistinct(history);
    forall i, j | 0 <= i < j < |h| ensures h[i] != h[j] {
      PermutationDistinct(u, h, i, j);
    }
  }

  /** Positions of a sorted result follow the times: a return comes before a call exactly when
      its time is strictly smaller. */
  lemma SortedPositions<I, O>(history: seq<Operation<I, O>>, h: seq<Entry<I, O>>, r: nat, c: nat)
    requires SortOf(Earlier, Unsorted(history), h)
    requires r < |h| && h[r].ReturnEntry?
    requires c < |h| && h[c].CallEntry?
    ensures r < c <==> h[r].time < h[c].time
  {
    if r < c {
      assert !Earlier(h[c], h[r]);
    } else {
      assert !Earlier(h[r], h[c]);
    }
  }

  /** The entries are well formed exactly when no operation returns before it is called. */
  lemma SortedWellFormed<I, O>(history: seq<Operation<I, O>>, h: seq<Entry<I, O>>)
    requires SortOf(Earlier, Unsorted(history), h)
    ensures WellFormed(h) <==> Timed(history)
  {
    SortedElements(history, h);
    forall a: nat | a < |history|
      ensures HasCall(h, a) && HasReturn(h, a)
    {
      var c: nat :| c < |h| && h[c] == CallOf(history, a);
      var r: nat :| r < |h| && h[r] == ReturnOf(history, a);
      assert IsCall(h, c, a) && IsReturn(h, r, a);
    }
    if Timed(history) {
      forall a, j: nat, k: nat | IsCall(h, j, a) && IsReturn(h, k, a) ensures j < k {
        SortedPositions(history, h, k, j);
      }
    }
    if WellFormed(h) {
      forall a | 0 <= a < |history| ensures history[a].call <= history[a].ret {
        SortedPositions(history, h, ReturnAt(h, a), CallAt(h, a));
      }
    }
  }

  function Identity(n: nat): (r: seq<nat>)
    ensures |r| == n
    ensures forall k :: 0 <= k < n ==> r[k] == k
  {
    seq(n, k requires 0 <= k => k)
  }

  /** In any sorted result, `a` returns before `b` is called exactly when it did so in time:
      ties do not matter. */
  lemma SortedOrder<I, O>(history: seq<Operation<I, O>>, h: seq<Entry<I, O>>)
    requires Timed(history)
    requires SortOf(Earlier, Unsorted(history), h)
    ensures WellFormed(h)
    ensures |OpsOf(h)| == |history|
    ensures Embeds(OpsOf(h), history, Identity(|history|))
  {
    SortedElements(history, h);
    SortedWellFormed(history, h);
    var ops := OpsOf(h);
    forall a: nat, b: nat | a < |ops| && b < |ops|
      ensures Precedes(ops, a, b) <==> Precedes(history, a, b)
    {
      SortedPositions(history, h, ReturnAt(h, a), CallAt(h, b));
    }
  }

  /** The entries decide the same question as the operations they came from. */
  lemma SortedVerdict<S, I, O>(m: Model<S, I, O>, history: seq<Operation<I, O>>, h: seq<Entry<I, O>>)
    requires Timed(history)
    requires SortOf(Earlier, Unsorted(history), h)
    ensures WellFormed(h)
    ensures Linearizable(m, OpsOf(h)) <==> Linearizable(m, history)
  {
    SortedOrder(history, h);
    var id := Identity(|history|);
    forall x: nat | x < |history| ensures x in id {
      assert id[x] == x;
    }
    assert Ids(id) == Below(|history|);
    RenamingTheorem(m, OpsOf(h), history, id);
  }

  // ---------------------------------------------------------------- events to entries

  /** A call or a return event; ids are arbitrary integers. */
  datatype Event<I, O> =
    | CallEvent(clientId: int, input: I, id: int)
    | ReturnEvent(clientId: int, output: O, id: int)

  ghost predicate EventCall<I, O>(events: seq<Event<I, O>>, k: nat, a: int) {
    k < |events| && events[k].CallEvent? && events[k].id == a
  }

  ghost predicate EventReturn<I, O>(events: seq<Event<I, O>>, k: nat, a: int) {
    k < |events| && events[k].ReturnEvent? && events[k].id == a
  }

  ghost predicate Completes<I, O>(events: seq<Event<I, O>>, a: int) {
    exists j: nat, k: nat :: EventCall(events, j, a) && EventReturn(events, k, a) && j < k
  }

  /** A complete event history: every id that occurs has exactly one call and, later, exactly one return. */
  ghost predicate WellFormedEvents<I, O>(events: seq<Event<I, O>>) {
    && (forall k :: 0 <= k < |events| ==> Completes(events, events[k].id))
    && (forall a, j: nat, k: nat :: EventCall(events, j, a) && EventCall(events, k, a) ==> j == k)
    && (forall a, j: nat, k: nat :: EventReturn(events, j, a) && EventReturn(events, k, a) ==> j == k)
  }

  /** The operation an id names in an event history, timed by the positions of its events. */
  ghost function EventOp<I, O>(events: seq<Event<I, O>>, a: int): Operation<I, O>
    requires Completes(events, a)
  {
    var j: nat, k: nat :| EventCall(events, j, a) && EventReturn(events, k, a) && j < k;
    Operation(events[j].clientId, events[j].input, j, events[k].output, k)
  }

  /** `names` lists each id of the history once. */
  ghost predicate Enumerates<I, O>(events: seq<Event<I, O>>, names: seq<int>) {
    && Distinct(names)
    && (forall k :: 0 <= k < |events| ==> events[k].id in names)
    && (forall i :: 0 <= i < |names| ==> Completes(events, names[i]))
  }

  /** The operations of an event history, listed as `names` lists their ids. */
  ghost function EventOps<I, O>(events: seq<Event<I, O>>, names: seq<int>): (ops: seq<Operation<I, O>>)
    requires Enumerates(events, names)
    ensures |ops| == |names|
    ensures forall i :: 0 <= i < |names| ==> ops[i] == EventOp(events, names[i])
  {
    seq(|names|, i requires 0 <= i < |names| => EventOp(events, names[i]))
  }

  function WithId<I, O>(e: Event<I, O>, id: int): Event<I, O> {
    e.(id := id)
  }

  /** `r` is `events` with ids replaced through the injective table `names`, which lists the
      original ids in the order of their first appearance. */
  ghost predicate Renumbers<I, O>(events: seq<Event<I, O>>, r: seq<Event<I, O>>, names: seq<int>) {
    && |r| == |events|
    && Distinct(names)
    && (forall k :: 0 <= k < |r| ==> 0 <= r[k].id < |names| && names[r[k].id] == events[k].id)
    && (forall k :: 0 <= k < |r| ==> r[k] == WithId(events[k], r[k].id))
    && (forall a: nat :: a < |names| ==> FirstAppears(r, a))
  }

  /** Id `a` appears, and everything before its first appearance has a smaller id. */
  ghost predicate FirstAppears<I, O>(r: seq<Event<I, O>>, a: int) {
    exists k :: 0 <= k < |r| && r[k].id == a && forall j :: 0 <= j < k ==> r[j].id < a
  }

  method Renumber<I, O>(events: seq<Event<I, O>>) returns (e: seq<Event<I, O>>)
    ensures exists names :: Renumbers(events, e, names)
    ensures |e| == |events| && forall k :: 0 <= k < |e| ==>
              && e[k].clientId == events[k].clientId
              && (if events[k].CallEvent? then e[k].CallEvent? && e[k].input == events[k].input
                  else e[k].ReturnEvent? && e[k].output == events[k].output)
  {
    e := [];
    ghost var names: seq<int> := [];
    var m: map<int, int> := map[];
    var id := 0;
    for k := 0 to |events|
      invariant id == |names|
      invariant |e| == k
      invariant forall x :: x in m ==> 0 <= m[x] < |names| && names[m[x]] == x
      invariant forall a :: 0 <= a < |names| ==> names[a] in m && m[names[a]] == a
      invariant forall j :: 0 <= j < k ==> 0 <= e[j].id < |names| && names[e[j].id] == events[j].id
      invariant forall j :: 0 <= j < k ==> e[j] == WithId(events[j], e[j].id)
      invariant forall a: nat :: a < |names| ==> FirstAppears(e, a)
    {
      var v := events[k];
      ghost var before := e;
      if v.id in m {
        e := e + [WithId(v, m[v.id])];
      } else {
        e := e + [WithId(v, id)];
        m := m[v.id := id];
        names := names + [v.id];
        id := id + 1;
        assert e[k].id == |names| - 1;
        assert FirstAppears(e, |names| - 1);
      }
      forall a: nat | a < |names| ensures FirstAppears(e, a) {
        if FirstAppears(before, a) {
          FirstAppearsSnoc(before, e[k], a);
        }
      }
    }
    assert Renumbers(events, e, names);
  }

  lemma FirstAppearsSnoc<I, O>(r: seq<Event<I, O>>, x: Event<I, O>, a: int)
    requires FirstAppears(r, a)
    ensures FirstAppears(r + [x], a)
  {
    var k :| 0 <= k < |r| && r[k].id == a && forall j :: 0 <= j < k ==> r[j].id < a;
    assert (r + [x])[k].id == a;
  }

  /** The entry for event number `i`; its index serves as its time. */
  function EntryOf<I, O>(e: Event<I, O>, i: int): Entry<I, O> {
    match e
    case CallEvent(c, x, id) => CallEntry(x, id, i, c)
    case ReturnEvent(c, y, id) => ReturnEntry(y, id, i, c)
  }

  method ConvertEntries<I, O>(events: seq<Event<I, O>>) returns (entries: seq<Entry<I, O>>)
    ensures |entries| == |events|
    ensures forall i :: 0 <= i < |events| ==> entries[i] == EntryOf(events[i], i)
    ensures forall i :: 0 <= i < |events| ==>
              && entries[i].time == i && entries[i].id == events[i].id && entries[i].clientId == events[i].clientId
              && (if events[i].CallEvent? then entries[i].CallEntry? && entries[i].input == events[i].input
                  else entries[i].ReturnEntry? && entries[i].output == events[i].output)
  {
    entries := [];
    for i := 0 to |events|
      invariant |entries| == i
      invariant forall j :: 0 <= j < i ==> entries[j] == EntryOf(events[j], j)
    {
      entries := entries + [EntryOf(events[i], i)];
    }
  }

  /** `h` holds the entries of `r`, which is `events` renumbered through `names`. */
  ghost predicate EntriesOf<I, O>(events: seq<Event<I, O>>, names: seq<int>, r: seq<Event<I, O>>, h: seq<Entry<I, O>>) {
    && Renumbers(events, r, names)
    && |h| == |r|
    && forall i :: 0 <= i < |r| ==> h[i] == EntryOf(r[i], i)
  }

  lemma EntryPositions<I, O>(events: seq<Event<I, O>>, names: seq<int>, r: seq<Event<I, O>>, h: seq<Entry<I, O>>,
        k: nat, a: nat)
    requires EntriesOf(events, names, r, h)
    requires a < |names|
    ensures IsCall(h, k, a) <==> EventCall(events, k, names[a])
    ensures IsReturn(h, k, a) <==> EventReturn(events, k, names[a])
  {
    if k < |h| {
      assert r[k] == WithId(events[k], r[k].id);
    }
  }

  lemma EntriesFacts<I, O>(events: seq<Event<I, O>>, names: seq<int>, r: seq<Event<I, O>>, h: seq<Entry<I, O>>)
    requires WellFormedEvents(events)
    requires EntriesOf(events, names, r, h)
    ensures Enumerates(events, names)
    ensures |h| == |events|
    ensures forall k :: 0 <= k < |h| ==> 0 <= h[k].id < |names| && names[h[k].id] == events[k].id
  {
    forall i | 0 <= i < |names| ensures Completes(events, names[i]) {
      assert FirstAppears(r, i);
    }
  }

  /** The two positions of every id, listed id by id. */
  ghost function PositionList<I, O>(ops: seq<Operation<I, O>>): (pos: seq<int>)
    ensures |pos| == 2 * |ops|
    ensures forall a :: 0 <= a < |ops| ==> pos[2 * a] == ops[a].call && pos[2 * a + 1] == ops[a].ret
  {
    if ops == [] then [] else
      var op := ops[|ops| - 1];
      PositionList(ops[..|ops| - 1]) + [op.call, op.ret]
  }

  lemma PositionOf<I, O>(events: seq<Event<I, O>>, names: seq<int>, i: nat)
    requires Enumerates(events, names)
    requires i < 2 * |names|
    ensures var p := PositionList(EventOps(events, names))[i];
            0 <= p && (if i % 2 == 0 then EventCall(events, p, names[i / 2]) else EventReturn(events, p, names[i / 2]))
  {
    var op := EventOp(events, names[i / 2]);
    assert EventOps(events, names)[i / 2] == op;
    assert i == if i % 2 == 0 then 2 * (i / 2) else 2 * (i / 2) + 1;
  }

  lemma PositionsDistinct<I, O>(events: seq<Event<I, O>>, names: seq<int>)
    requires Enumerates(events, names)
    ensures Distinct(PositionList(EventOps(events, names)))
  {
    var pos := PositionList(EventOps(events, names));
    forall i, j | 0 <= i < j < |pos| ensures pos[i] != pos[j] {
      PositionOf(events, names, i);
      PositionOf(events, names, j);
    }
  }

  /** The positions listed are all the positions there are, so there are two for each id. */
  lemma TwoEntriesEach<I, O>(events: seq<Event<I, O>>, names: seq<int>)
    requires WellFormedEvents(events)
    requires Enumerates(events, names)
    ensures |events| == 2 * |names|
  {
    var pos := PositionList(EventOps(events, names));
    PositionsDistinct(events, names);
    forall i | 0 <= i < |pos| ensures 0 <= pos[i] < |events| {
      PositionOf(events, names, i);
    }
    forall k: nat | k < |events| ensures k in pos {
      var a := IndexOf(names, events[k].id);
      PositionOf(events, names, 2 * a);
      PositionOf(events, names, 2 * a + 1);
      assert EventCall(events, k, names[a]) || EventReturn(events, k, names[a]);
    }
    var p: seq<nat> := seq(|pos|, i requires 0 <= i < |pos| => pos[i]);
    assert forall i :: 0 <= i < |pos| ==> p[i] == pos[i];
    forall k: nat | k < |events| ensures k in p {
      assert k in pos;
      var i :| 0 <= i < |pos| && pos[i] == k;
      assert p[i] == k;
    }
    Pigeonhole(p, |events|);
    assert Ids(p) == Below(|events|);
  }

  lemma EntriesWellFormed<I, O>(events: seq<Event<I, O>>, names: seq<int>, r: seq<Event<I, O>>, h: seq<Entry<I, O>>)
    requires WellFormedEvents(events)
    requires EntriesOf(events, names, r, h)
    ensures WellFormed(h)
    ensures |h| == 2 * |names|
  {
    EntriesFacts(events, names, r, h);
    TwoEntriesEach(events, names);
    forall a: nat | a < |h| / 2 ensures HasCall(h, a) && HasReturn(h, a) {
      var j: nat, k: nat :| EventCall(events, j, names[a]) && EventReturn(events, k, names[a]) && j < k;
      EntryPositions(events, names, r, h, j, a);
      EntryPositions(events, names, r, h, k, a);
    }
    forall a, j: nat, k: nat | IsCall(h, j, a) && IsCall(h, k, a) ensures j == k {
      EntryPositions(events, names, r, h, j, a);
      EntryPositions(events, names, r, h, k, a);
    }
    forall a, j: nat, k: nat | IsReturn(h, j, a) && IsReturn(h, k, a) ensures j == k {
      EntryPositions(events, names, r, h, j, a);
      EntryPositions(events, names, r, h, k, a);
    }
    forall a, j: nat, k: nat | IsCall(h, j, a) && IsReturn(h, k, a) ensures j < k {
      EntryPositions(events, names, r, h, j, a);
      EntryPositions(events, names, r, h, k, a);
      assert Completes(events, names[a]);
    }
  }

  lemma EntryOperation<I, O>(events: seq<Event<I, O>>, names: seq<int>, r: seq<Event<I, O>>, h: seq<Entry<I, O>>,
        a: nat)
    requires WellFormedEvents(events)
    requires EntriesOf(events, names, r, h)
    requires WellFormed(h) && |h| == 2 * |names| && a < |names|
    requires Completes(events, names[a])
    ensures OpOf(h, a) == EventOp(events, names[a])
  {
    EntryPositions(events, names, r, h, CallAt(h, a), a);
    EntryPositions(events, names, r, h, ReturnAt(h, a), a);
    assert r[CallAt(h, a)] == WithId(events[CallAt(h, a)], a);
    assert r[ReturnAt(h, a)] == WithId(events[ReturnAt(h, a)], a);
  }

  lemma IndexOf(names: seq<int>, x: int) returns (i: nat)
    requires x in names
    ensures i < |names| && names[i] == x
  {
    i :| 0 <= i < |names| && names[i] == x;
  }

  /** Renumbering does not change the verdict: the entries are linearizable exactly when the
      operations of the original events are, in whatever order these are listed. */
  lemma RenumberedVerdict<S, I, O>(m: Model<S, I, O>, events: seq<Event<I, O>>, names: seq<int>,
                                   r: seq<Event<I, O>>, h: seq<Entry<I, O>>, listing: seq<int>)
    requires WellFormedEvents(events)
    requires EntriesOf(events, names, r, h)
    requires Enumerates(events, listing)
    ensures WellFormed(h)
    ensures Linearizable(m, OpsOf(h)) <==> Linearizable(m, EventOps(events, listing))
  {
    EntriesFacts(events, names, r, h);
    EntriesWellFormed(events, names, r, h);
    var ops, whole := OpsOf(h), EventOps(events, listing);
    var f := Relist(events, names, listing);
    forall a: nat | a < |names| ensures ops[a] == whole[f[a]] {
      EntryOperation(events, names, r, h, a);
    }
    SameOperations(m, ops, whole, f);
  }

  /** Where each name stands in another listing of the same ids. */
  lemma Relist<I, O>(events: seq<Event<I, O>>, names: seq<int>, listing: seq<int>) returns (f: seq<nat>)
    requires Enumerates(events, names) && Enumerates(events, listing)
    ensures |f| == |names|
    ensures forall b :: 0 <= b < |f| ==> f[b] < |listing| && listing[f[b]] == names[b]
    ensures Distinct(f)
    ensures Ids(f) == Below(|listing|)
  {
    f := [];
    for a := 0 to |names|
      invariant |f| == a
      invariant forall b :: 0 <= b < a ==> f[b] < |listing| && listing[f[b]] == names[b]
    {
      assert Completes(events, names[a]);
      var i := IndexOf(listing, names[a]);
      f := f + [i];
    }
    assert forall b, c :: 0 <= b < c < |f| ==> names[b] != names[c];
    forall i: nat | i < |listing| ensures i in f {
      assert Completes(events, listing[i]);
      var a := IndexOf(names, listing[i]);
      assert f[a] == i;
    }
  }
}
