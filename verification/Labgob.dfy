/** The encoder's check of types: a walk over a finite, possibly cyclic graph that visits each type
    once and complains about every lower-case field it meets. */
module Labgob {
  import opened Histories

  type TypeId = nat

  datatype Field = Field(name: string, fieldType: TypeId)

  /** What matters of a type: its fields, its element (slices, arrays, pointers), its element and
      key (maps), or nothing. */
  datatype TypeInfo = Struct(fields: seq<Field>) | Sequence(elem: TypeId) | Map(elem: TypeId, key: TypeId) | Basic

  type Graph = seq<TypeInfo>

  function FieldTypes(fields: seq<Field>): set<TypeId> {
    set i | 0 <= i < |fields| :: fields[i].fieldType
  }

  function Children(g: Graph, t: TypeId): set<TypeId>
    requires t < |g|
  {
    match g[t]
    case Struct(fields) => FieldTypes(fields)
    case Sequence(elem) => {elem}
    case Map(elem, key) => {elem, key}
    case Basic => {}
  }

  ghost predicate ValidGraph(g: Graph) {
    forall t, u :: 0 <= t < |g| && u in Children(g, t) ==> u < |g|
  }

  function All(g: Graph): set<TypeId> {
    Below(|g|)
  }

  // ---------------------------------------------------------------- reachability

  ghost predicate IsPath(g: Graph, path: seq<TypeId>) {
    && path != []
    && (forall i :: 0 <= i < |path| ==> path[i] < |g|)
    && forall i :: 0 < i < |path| ==> path[i] in Children(g, path[i - 1])
  }

  ghost predicate Reaches(g: Graph, a: TypeId, b: TypeId) {
    exists path :: IsPath(g, path) && path[0] == a && path[|path| - 1] == b
  }

  lemma ReachesSelf(g: Graph, a: TypeId)
    requires a < |g|
    ensures Reaches(g, a, a)
  {
    assert IsPath(g, [a]);
  }

  lemma ReachesThrough(g: Graph, a: TypeId, b: TypeId, c: TypeId)
    requires a < |g| && b in Children(g, a) && Reaches(g, b, c)
    ensures Reaches(g, a, c)
  {
    var path :| IsPath(g, path) && path[0] == b && path[|path| - 1] == c;
    var longer := [a] + path;
    forall i | 0 < i < |longer| ensures longer[i] in Children(g, longer[i - 1]) {
      assert i > 1 ==> longer[i] == path[i - 1] && longer[i - 1] == path[i - 2];
    }
    assert IsPath(g, longer);
  }

  ghost predicate Closed(g: Graph, s: set<TypeId>) {
    forall t :: t in s && t < |g| ==> Children(g, t) <= s
  }

  lemma {:induction false} ClosedPath(g: Graph, s: set<TypeId>, path: seq<TypeId>, k: nat)
    requires Closed(g, s) && IsPath(g, path) && path[0] in s && k < |path|
    ensures path[k] in s
  {
    if k > 0 {
      ClosedPath(g, s, path, k - 1);
    }
  }

  /** A closed set holds whatever its members reach. */
  lemma ClosedReaches(g: Graph, s: set<TypeId>, a: TypeId, b: TypeId)
    requires Closed(g, s) && a in s && Reaches(g, a, b)
    ensures b in s
  {
    var path :| IsPath(g, path) && path[0] == a && path[|path| - 1] == b;
    ClosedPath(g, s, path, |path| - 1);
  }

  // ---------------------------------------------------------------- counting fields

  predicate LowerCase(isUpper: char -> bool, name: string) {
    name == "" || !isUpper(name[0])
  }

  function LowerFields(isUpper: char -> bool, fields: seq<Field>): nat {
    if fields == [] then 0
    else LowerFields(isUpper, fields[..|fields| - 1]) + if LowerCase(isUpper, fields[|fields| - 1].name) then 1 else 0
  }

  function LowerOf(isUpper: char -> bool, info: TypeInfo): nat {
    if info.Struct? then LowerFields(isUpper, info.fields) else 0
  }

  /** The lower-case fields of the structs of `s` among the first `n` types. */
  function LowerIn(isUpper: char -> bool, g: Graph, s: set<TypeId>, n: nat): nat
    requires n <= |g|
  {
    if n == 0 then 0 else LowerIn(isUpper, g, s, n - 1) + if n - 1 in s then LowerOf(isUpper, g[n - 1]) else 0
  }

  function Complaints(isUpper: char -> bool, g: Graph, s: set<TypeId>): nat {
    LowerIn(isUpper, g, s, |g|)
  }

  lemma {:induction false} LowerUnion(isUpper: char -> bool, g: Graph, a: set<TypeId>, b: set<TypeId>, n: nat)
    requires a !! b && n <= |g|
    ensures LowerIn(isUpper, g, a + b, n) == LowerIn(isUpper, g, a, n) + LowerIn(isUpper, g, b, n)
  {
    if n > 0 {
      LowerUnion(isUpper, g, a, b, n - 1);
    }
  }

  lemma {:induction false} LowerOne(isUpper: char -> bool, g: Graph, t: TypeId, n: nat)
    requires n <= |g|
    ensures LowerIn(isUpper, g, {t}, n) == if t < n then LowerOf(isUpper, g[t]) else 0
  {
    if n > 0 {
      LowerOne(isUpper, g, t, n - 1);
    }
  }

  lemma {:induction false} LowerNone(isUpper: char -> bool, g: Graph, n: nat)
    requires n <= |g|
    ensures LowerIn(isUpper, g, {}, n) == 0
  {
    if n > 0 {
      LowerNone(isUpper, g, n - 1);
    }
  }

  /** Going from `a` to `b` to `c`, the complaints add up. */
  lemma ComplaintsAdd(isUpper: char -> bool, g: Graph, a: set<TypeId>, b: set<TypeId>, c: set<TypeId>)
    requires a <= b <= c
    ensures Complaints(isUpper, g, c - a) == Complaints(isUpper, g, b - a) + Complaints(isUpper, g, c - b)
  {
    LowerUnion(isUpper, g, b - a, c - b, |g|);
    assert (b - a) + (c - b) == c - a;
  }

  /** The fields whose name is empty or does not begin with an upper-case letter. */
  ghost function LowerSet(isUpper: char -> bool, fields: seq<Field>): set<nat> {
    set i: nat | i < |fields| && (fields[i].name == "" || !isUpper(fields[i].name[0]))
  }

  lemma LowerSnoc(isUpper: char -> bool, fields: seq<Field>, n: nat)
    requires n == |fields| - 1
    ensures n !in LowerSet(isUpper, fields[..n])
    ensures forall i: nat :: i in LowerSet(isUpper, fields) <==>
              i in LowerSet(isUpper, fields[..n]) || (i == n && (fields[n].name == "" || !isUpper(fields[n].name[0])))
  {
  }

  lemma {:induction false} LowerFieldsCount(isUpper: char -> bool, fields: seq<Field>)
    ensures LowerFields(isUpper, fields) == |LowerSet(isUpper, fields)|
  {
    if fields == [] {
      assert LowerSet(isUpper, fields) == {};
    } else {
      var n := |fields| - 1;
      LowerFieldsCount(isUpper, fields[..n]);
      var lower := fields[n].name == "" || !isUpper(fields[n].name[0]);
      LowerSnoc(isUpper, fields, n);
      SizesAdd(LowerSet(isUpper, fields[..n]), if lower then {n} else {}, LowerSet(isUpper, fields));
    }
  }

  /** The same for all structs of `s` among the first `n` types. */
  ghost function LowerPairs(isUpper: char -> bool, g: Graph, s: set<TypeId>, n: nat): set<(TypeId, nat)>
    requires n <= |g|
  {
    set t: TypeId, i: nat | t in s && t < n && g[t].Struct? && i < |g[t].fields| && i in LowerSet(isUpper, g[t].fields)
      :: (t, i)
  }

  lemma {:induction false} PairedCount(t: TypeId, s: set<nat>, pairs: set<(TypeId, nat)>)
    requires forall p :: p in pairs <==> p.0 == t && p.1 in s
    ensures |pairs| == |s|
    decreases |s|
  {
    if s == {} {
      assert pairs == {};
    } else {
      var i :| i in s;
      PairedCount(t, s - {i}, pairs - {(t, i)});
    }
  }

  lemma {:induction false} LowerInCount(isUpper: char -> bool, g: Graph, s: set<TypeId>, n: nat)
    requires n <= |g|
    ensures LowerIn(isUpper, g, s, n) == |LowerPairs(isUpper, g, s, n)|
  {
    if n == 0 {
      assert LowerPairs(isUpper, g, s, 0) == {};
    } else {
      LowerInCount(isUpper, g, s, n - 1);
      if n - 1 in s {
        LastCount(isUpper, g, n - 1);
        PairsNext(isUpper, g, s, n);
        SizesAdd(LowerPairs(isUpper, g, s, n - 1), LastPairs(isUpper, g, n - 1), LowerPairs(isUpper, g, s, n));
      } else {
        PairsSame(isUpper, g, s, n);
      }
    }
  }

  lemma SizesAdd<T>(a: set<T>, b: set<T>, all: set<T>)
    requires a !! b && (forall x :: x in all <==> x in a || x in b)
    ensures |all| == |a| + |b|
  {
    assert all == a + b;
  }

  /** The lower-case fields of one type. */
  ghost function LastPairs(isUpper: char -> bool, g: Graph, t: TypeId): set<(TypeId, nat)>
    requires t < |g|
  {
    if g[t].Struct? then set i: nat | i in LowerSet(isUpper, g[t].fields) :: (t, i) else {}
  }

  lemma LastCount(isUpper: char -> bool, g: Graph, t: TypeId)
    requires t < |g|
    ensures LowerOf(isUpper, g[t]) == |LastPairs(isUpper, g, t)|
  {
    if g[t].Struct? {
      LowerFieldsCount(isUpper, g[t].fields);
      PairedCount(t, LowerSet(isUpper, g[t].fields), LastPairs(isUpper, g, t));
    }
  }

  lemma PairsNext(isUpper: char -> bool, g: Graph, s: set<TypeId>, n: nat)
    requires 0 < n <= |g| && n - 1 in s
    ensures LowerPairs(isUpper, g, s, n - 1) !! LastPairs(isUpper, g, n - 1)
    ensures forall x :: x in LowerPairs(isUpper, g, s, n) <==>
              x in LowerPairs(isUpper, g, s, n - 1) || x in LastPairs(isUpper, g, n - 1)
  {
  }

  lemma PairsSame(isUpper: char -> bool, g: Graph, s: set<TypeId>, n: nat)
    requires 0 < n <= |g| && n - 1 !in s
    ensures LowerPairs(isUpper, g, s, n) == LowerPairs(isUpper, g, s, n - 1)
  {
  }

  /** Complaints are the fields, counted once each. */
  lemma ComplaintsCount(isUpper: char -> bool, g: Graph, s: set<TypeId>)
    ensures Complaints(isUpper, g, s) == |LowerPairs(isUpper, g, s, |g|)|
  {
    LowerInCount(isUpper, g, s, |g|);
  }

  /** Every field of every struct of `s` begins with an upper-case letter. */
  ghost predicate AllUpper(isUpper: char -> bool, g: Graph, s: set<TypeId>) {
    forall t: TypeId, i: nat :: t in s && t < |g| && g[t].Struct? && i < |g[t].fields| ==>
      g[t].fields[i].name != "" && isUpper(g[t].fields[i].name[0])
  }

  lemma NoComplaints(isUpper: char -> bool, g: Graph, s: set<TypeId>)
    ensures Complaints(isUpper, g, s) == 0 <==> AllUpper(isUpper, g, s)
  {
    ComplaintsCount(isUpper, g, s);
    var pairs := LowerPairs(isUpper, g, s, |g|);
    if AllUpper(isUpper, g, s) {
      assert pairs == {};
    } else {
      var t: TypeId, i: nat :| t in s && t < |g| && g[t].Struct? && i < |g[t].fields|
        && !(g[t].fields[i].name != "" && isUpper(g[t].fields[i].name[0]));
      assert i in LowerSet(isUpper, g[t].fields);
      assert (t, i) in pairs;
    }
  }

  /** What a walk goes on to: the types of the fields, the element, or element and key. */
  lemma ChildMeaning(g: Graph, t: TypeId, u: TypeId)
    requires t < |g|
    ensures u in Children(g, t) <==>
            || (g[t].Struct? && exists i :: 0 <= i < |g[t].fields| && g[t].fields[i].fieldType == u)
            || (g[t].Sequence? && u == g[t].elem)
            || (g[t].Map? && (u == g[t].elem || u == g[t].key))
  {
  }

  // ---------------------------------------------------------------- the walk

  /** Between `before` and `after` a walk from the types of `roots` added only what they reach, and
      whatever it added it finished. */
  ghost predicate Walked(g: Graph, before: set<TypeId>, after: set<TypeId>, roots: set<TypeId>) {
    && before <= after <= All(g)
    && roots <= after
    && (forall u :: u in after && u !in before ==> Children(g, u) <= after)
    && (forall u :: u in after && u !in before ==> ReachedFrom(g, roots, u))
  }

  ghost predicate ReachedFrom(g: Graph, roots: set<TypeId>, u: TypeId) {
    exists r :: r in roots && Reaches(g, r, u)
  }

  lemma WalkedTwice(g: Graph, a: set<TypeId>, b: set<TypeId>, c: set<TypeId>, r: set<TypeId>, s: set<TypeId>)
    requires Walked(g, a, b, r) && Walked(g, b, c, s)
    ensures Walked(g, a, c, r + s)
  {
    forall u | u in c && u !in a ensures ReachedFrom(g, r + s, u) {
      if u in b {
        assert ReachedFrom(g, r, u);
        var x :| x in r && Reaches(g, x, u);
        assert x in r + s;
      } else {
        assert ReachedFrom(g, s, u);
        var x :| x in s && Reaches(g, x, u);
        assert x in r + s;
      }
    }
  }

  /** A walk from the children, after the type itself was marked, is a walk from the type. */
  lemma WalkedFrom(g: Graph, before: set<TypeId>, after: set<TypeId>, t: TypeId)
    requires ValidGraph(g) && t < |g| && before <= All(g) && t !in before
    requires Walked(g, before + {t}, after, Children(g, t))
    ensures Walked(g, before, after, {t})
  {
    forall u | u in after && u !in before ensures ReachedFrom(g, {t}, u) {
      if u == t {
        ReachesSelf(g, t);
        assert t in {t};
      } else {
        ReachedThrough(g, t, u);
      }
    }
  }

  lemma ReachedThrough(g: Graph, t: TypeId, u: TypeId)
    requires t < |g| && ReachedFrom(g, Children(g, t), u)
    ensures ReachedFrom(g, {t}, u)
  {
    var x :| x in Children(g, t) && Reaches(g, x, u);
    ReachesThrough(g, t, x, u);
    assert t in {t};
  }

  class Checker {
    const isUpper: char -> bool
    const graph: Graph
    var checked: set<TypeId>
    var errorCount: nat

    constructor (isUpper: char -> bool, graph: Graph)
      ensures this.isUpper == isUpper && this.graph == graph
      ensures checked == {} && errorCount == 0
    {
      this.isUpper, this.graph := isUpper, graph;
      checked, errorCount := {}, 0;
    }

    ghost predicate Valid()
      reads this
    {
      ValidGraph(graph) && checked <= All(graph)
    }

    method CheckType(t: TypeId)
      requires Valid() && t < |graph|
      modifies this
      ensures Valid()
      ensures Walked(graph, old(checked), checked, {t})
      ensures errorCount == old(errorCount) + Complaints(isUpper, graph, checked - old(checked))
      decreases All(graph) - checked, 1
    {
      if t in checked {
        LowerNone(isUpper, graph, |graph|);
        assert checked - old(checked) == {};
        return;
      }
      checked := checked + {t};
      CheckChildren(t);
      WalkedFrom(graph, old(checked), checked, t);
      ComplaintsAdd(isUpper, graph, old(checked), old(checked) + {t}, checked);
      assert (old(checked) + {t}) - old(checked) == {t};
      LowerOne(isUpper, graph, t, |graph|);
    }

    /** The switch on the kind of the type. */
    method CheckChildren(t: TypeId)
      requires Valid() && t in checked
      modifies this
      ensures Valid()
      ensures Walked(graph, old(checked), checked, Children(graph, t))
      ensures errorCount == old(errorCount) + LowerOf(isUpper, graph[t]) + Complaints(isUpper, graph,
              checked - old(checked))
      decreases All(graph) - checked, 3
    {
      assert t in All(graph);
      assert forall u :: u in Children(graph, t) ==> u < |graph|;
      match graph[t] {
        case Struct(fields) =>
          assert forall i :: 0 <= i < |fields| ==> fields[i].fieldType in Children(graph, t);
          CheckFields(fields);
        case Sequence(elem) =>
          assert elem in Children(graph, t);
          CheckType(elem);
        case Map(elem, key) =>
          assert elem in Children(graph, t) && key in Children(graph, t);
          CheckType(elem);
          ghost var middle := checked;
          CheckType(key);
          WalkedTwice(graph, old(checked), middle, checked, {elem}, {key});
          ComplaintsAdd(isUpper, graph, old(checked), middle, checked);
          assert {elem} + {key} == Children(graph, t);
        case Basic =>
          LowerNone(isUpper, graph, |graph|);
          assert checked - old(checked) == {};
      }
    }

    method CheckFields(fields: seq<Field>)
      requires Valid() && forall i :: 0 <= i < |fields| ==> fields[i].fieldType < |graph|
      modifies this
      ensures Valid()
      ensures Walked(graph, old(checked), checked, FieldTypes(fields))
      ensures errorCount == old(errorCount) + LowerFields(isUpper, fields) + Complaints(isUpper, graph,
              checked - old(checked))
      decreases All(graph) - checked, 2
    {
      LowerNone(isUpper, graph, |graph|);
      assert checked - old(checked) == {} && FieldTypes(fields[..0]) == {};
      for i := 0 to |fields|
        invariant Valid()
        invariant Walked(graph, old(checked), checked, FieldTypes(fields[..i]))
        invariant errorCount == old(errorCount) + LowerFields(isUpper, fields[..i]) + Complaints(isUpper, graph,
                  checked - old(checked))
      {
        var f := fields[i];
        FieldsSnoc(isUpper, fields, i);
        if LowerCase(isUpper, f.name) {
          errorCount := errorCount + 1;
        }
        ghost var before := checked;
        CheckType(f.fieldType);
        WalkedTwice(graph, old(checked), before, checked, FieldTypes(fields[..i]), {f.fieldType});
        ComplaintsAdd(isUpper, graph, old(checked), before, checked);
      }
      assert fields[..|fields|] == fields;
    }

    /** From a closed set the walk adds exactly what the type reaches, and stays closed. */
    method CheckValue(t: TypeId)
      requires Valid() && Closed(graph, checked) && t < |graph|
      modifies this
      ensures Valid() && Closed(graph, checked)
      ensures forall u :: u in checked <==> u in old(checked) || Reaches(graph, t, u)
      ensures errorCount == old(errorCount) + |LowerPairs(isUpper, graph, checked - old(checked), |graph|)|
      ensures errorCount == old(errorCount) <==> AllUpper(isUpper, graph, checked - old(checked))
      ensures errorCount == old(errorCount) + Complaints(isUpper, graph, checked - old(checked))
    {
      CheckType(t);
      WalkedClosed(graph, old(checked), checked, t);
      ComplaintsCount(isUpper, graph, checked - old(checked));
      NoComplaints(isUpper, graph, checked - old(checked));
    }

    /** Any sequence of values: every lower-case field of every type reached counts exactly once. */
    method CheckValues(ts: seq<TypeId>)
      requires Valid() && checked == {} && errorCount == 0
      requires forall i :: 0 <= i < |ts| ==> ts[i] < |graph|
      modifies this
      ensures forall u :: u in checked <==> exists i :: 0 <= i < |ts| && Reaches(graph, ts[i], u)
      ensures errorCount == |LowerPairs(isUpper, graph, checked, |graph|)|
      ensures errorCount == 0 <==> AllUpper(isUpper, graph, checked)
    {
      LowerNone(isUpper, graph, |graph|);
      for k := 0 to |ts|
        invariant Valid() && Closed(graph, checked)
        invariant forall u :: u in checked <==> exists i :: 0 <= i < k && Reaches(graph, ts[i], u)
        invariant errorCount == Complaints(isUpper, graph, checked)
      {
        ghost var before := checked;
        CheckValue(ts[k]);
        ComplaintsAdd(isUpper, graph, {}, before, checked);
        assert before - {} == before && checked - {} == checked;
      }
      ComplaintsCount(isUpper, graph, checked);
      NoComplaints(isUpper, graph, checked);
    }
  }

  lemma FieldsSnoc(isUpper: char -> bool, fields: seq<Field>, i: nat)
    requires i < |fields|
    ensures LowerFields(isUpper, fields[..i + 1]) ==
            LowerFields(isUpper, fields[..i]) + if LowerCase(isUpper, fields[i].name) then 1 else 0
    ensures FieldTypes(fields[..i + 1]) == FieldTypes(fields[..i]) + {fields[i].fieldType}
  {
    var more := fields[..i + 1];
    assert more[..|more| - 1] == fields[..i];
    forall u ensures u in FieldTypes(more) <==> u in FieldTypes(fields[..i]) + {fields[i].fieldType} {
      if u in FieldTypes(fields[..i]) {
        var k :| 0 <= k < i && fields[..i][k].fieldType == u;
        assert more[k].fieldType == u;
      }
      assert more[i].fieldType == fields[i].fieldType;
      if u in FieldTypes(more) {
        var k :| 0 <= k < |more| && more[k].fieldType == u;
        assert k < i ==> fields[..i][k].fieldType == u;
      }
    }
  }

  lemma WalkedClosed(g: Graph, before: set<TypeId>, after: set<TypeId>, t: TypeId)
    requires Closed(g, before) && Walked(g, before, after, {t})
    ensures Closed(g, after)
    ensures forall u :: u in after <==> u in before || Reaches(g, t, u)
  {
    assert Closed(g, after);
    forall u ensures u in after <==> u in before || Reaches(g, t, u) {
      if Reaches(g, t, u) {
        ClosedReaches(g, after, t, u);
      }
      if u in after && u !in before {
        assert ReachedFrom(g, {t}, u);
      }
    }
  }
}
