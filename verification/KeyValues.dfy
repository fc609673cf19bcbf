/** Key/value pairs, grouping sorted pairs by key, and the lines a reduce function makes of them. */
module KeyValues {
  import opened Sorting
  import Strings

  datatype KeyValue = KeyValue(key: string, value: string)

  type ReduceFunction = (string, seq<string>) -> string

  predicate ByKey(a: KeyValue, b: KeyValue) {
    Strings.Less(a.key, b.key)
  }

  lemma ByKeyIsOrder()
    ensures StrictWeakOrder(ByKey)
  {
    Strings.LessIsOrder();
  }

  /** The values under one key, in order. */
  function ValuesOf(s: seq<KeyValue>, key: string): seq<string> {
    if s == [] then []
    else ValuesOf(s[..|s| - 1], key) + if s[|s| - 1].key == key then [s[|s| - 1].value] else []
  }

  function KeysOf(s: seq<KeyValue>): set<string> {
    set i | 0 <= i < |s| :: s[i].key
  }

  function Line(f: ReduceFunction, s: seq<KeyValue>, key: string): string {
    key + " " + f(key, ValuesOf(s, key)) + "\n"
  }

  ghost predicate Increasing(keys: seq<string>) {
    forall i, j :: 0 <= i < j < |keys| ==> Strings.Less(keys[i], keys[j])
  }

  /** One line for every key of `s`, in the order of the keys. */
  ghost predicate LinesFor(f: ReduceFunction, s: seq<KeyValue>, keys: seq<string>, lines: seq<string>) {
    && Increasing(keys)
    && (forall key :: key in keys <==> key in KeysOf(s))
    && |lines| == |keys|
    && forall i :: 0 <= i < |keys| ==> lines[i] == Line(f, s, keys[i])
  }

  ghost predicate IsOutput(f: ReduceFunction, s: seq<KeyValue>, lines: seq<string>) {
    exists keys :: LinesFor(f, s, keys, lines)
  }

  // ---------------------------------------------------------------- groups of sorted pairs

  lemma ValuesSnoc(s: seq<KeyValue>, j: nat, key: string)
    requires j < |s|
    ensures ValuesOf(s[..j + 1], key) == ValuesOf(s[..j], key) + if s[j].key == key then [s[j].value] else []
  {
    assert s[..j + 1][..j] == s[..j];
  }

  lemma {:induction false} ValuesUnchanged(s: seq<KeyValue>, i: nat, j: nat, key: string)
    requires i <= j <= |s| && forall k :: i <= k < j ==> s[k].key != key
    ensures ValuesOf(s[..j], key) == ValuesOf(s[..i], key)
  {
    if i < j {
      ValuesUnchanged(s, i, j - 1, key);
      ValuesSnoc(s, j - 1, key);
    }
  }

  /** Pairs `i` to `j` of the sorted pairs are all those with the key of pair `i`. */
  ghost predicate Group(s: seq<KeyValue>, i: nat, j: nat) {
    && i < j <= |s|
    && (forall k :: 0 <= k < i ==> Strings.Less(s[k].key, s[i].key))
    && (forall k :: i <= k < j ==> s[k].key == s[i].key)
    && (forall k :: j <= k < |s| ==> Strings.Less(s[i].key, s[k].key))
  }

  /** Between groups: everything before has a smaller key than everything after. */
  ghost predicate Boundary(s: seq<KeyValue>, i: nat) {
    i <= |s| && forall a, b :: 0 <= a < i <= b < |s| ==> Strings.Less(s[a].key, s[b].key)
  }

  lemma LessOrEqual(s: string, t: string)
    requires !Strings.Less(t, s) && s != t
    ensures Strings.Less(s, t)
  {
    if !Strings.Less(s, t) {
      Strings.LessTotal(s, t);
    }
  }

  lemma LessTrans(s: string, t: string, u: string)
    requires Strings.Less(s, t) && !Strings.Less(u, t)
    ensures Strings.Less(s, u)
  {
    if !Strings.Less(s, u) {
      Strings.NotLessTransitive(s, u, t);
    }
  }

  /** Where a scan that started at a boundary stops, the group is complete and the next begins. */
  lemma GroupFound(s: seq<KeyValue>, i: nat, j: nat)
    requires Sorted(ByKey, s) && Boundary(s, i) && i < j <= |s|
    requires forall k :: i <= k < j ==> s[k].key == s[i].key
    requires j < |s| ==> s[j].key != s[i].key
    ensures Group(s, i, j) && Boundary(s, j)
  {
    forall k | j <= k < |s| ensures Strings.Less(s[i].key, s[k].key) {
      assert !ByKey(s[j], s[i]);
      LessOrEqual(s[i].key, s[j].key);
      if j < k {
        assert !ByKey(s[k], s[j]);
        LessTrans(s[i].key, s[j].key, s[k].key);
      }
    }
    forall a, b | 0 <= a < j <= b < |s| ensures Strings.Less(s[a].key, s[b].key) {
      assert i <= a ==> s[a].key == s[i].key;
    }
  }

  lemma IrreflexiveLess(s: string)
    ensures !Strings.Less(s, s)
  {
    if Strings.Less(s, s) {
      Strings.LessAsymmetric(s, s);
    }
  }

  lemma GroupValues(s: seq<KeyValue>, i: nat, j: nat)
    requires Group(s, i, j)
    ensures ValuesOf(s, s[i].key) == ValuesOf(s[..j], s[i].key)
    ensures ValuesOf(s[..i], s[i].key) == []
  {
    IrreflexiveLess(s[i].key);
    ValuesUnchanged(s, j, |s|, s[i].key);
    ValuesUnchanged(s, 0, i, s[i].key);
    assert s[..|s|] == s;
  }

  /** The lines for the keys of the first `i` pairs. */
  ghost predicate LinesUpTo(f: ReduceFunction, s: seq<KeyValue>, i: nat, keys: seq<string>, lines: seq<string>) {
    && i <= |s|
    && Increasing(keys)
    && (forall key :: key in keys <==> key in KeysOf(s[..i]))
    && |lines| == |keys|
    && forall k :: 0 <= k < |keys| ==> lines[k] == Line(f, s, keys[k])
  }

  lemma GroupDone(f: ReduceFunction, s: seq<KeyValue>, i: nat, j: nat, keys: seq<string>, lines: seq<string>)
    requires LinesUpTo(f, s, i, keys, lines) && Group(s, i, j)
    ensures LinesUpTo(f, s, j, keys + [s[i].key], lines + [Line(f, s, s[i].key)])
  {
    var more := keys + [s[i].key];
    forall key ensures key in more <==> key in KeysOf(s[..j]) {
      if key in KeysOf(s[..i]) {
        var a :| 0 <= a < i && s[..i][a].key == key;
        assert s[..j][a].key == key;
      }
      assert s[..j][i].key == s[i].key;
      if key in KeysOf(s[..j]) {
        var a :| 0 <= a < j && s[..j][a].key == key;
        if a < i {
          assert s[..i][a].key == key;
        }
      }
    }
    forall a, b | 0 <= a < b < |more| ensures Strings.Less(more[a], more[b]) {
      if b == |keys| {
        assert keys[a] in keys;
        var k :| 0 <= k < i && s[..i][k].key == keys[a];
      }
    }
  }

  lemma AllLines(f: ReduceFunction, s: seq<KeyValue>, keys: seq<string>, lines: seq<string>)
    requires LinesUpTo(f, s, |s|, keys, lines)
    ensures LinesFor(f, s, keys, lines)
  {
    assert s[..|s|] == s;
  }

  /** The worker's grouping loop: it collects the values while it looks for the end of a group. */
  method ReduceGroups(f: ReduceFunction, intermediate: seq<KeyValue>) returns (lines: seq<string>)
    requires Sorted(ByKey, intermediate)
    ensures IsOutput(f, intermediate, lines)
  {
    lines := [];
    ghost var keys: seq<string> := [];
    var i := 0;
    while i < |intermediate|
      invariant Boundary(intermediate, i)
      invariant LinesUpTo(f, intermediate, i, keys, lines)
    {
      var j, values := CollectGroup(intermediate, i);
      GroupDone(f, intermediate, i, j, keys, lines);
      keys := keys + [intermediate[i].key];
      lines := lines + [intermediate[i].key + " " + f(intermediate[i].key, values) + "\n"];
      i := j;
    }
    AllLines(f, intermediate, keys, lines);
  }

  lemma GroupBegins(s: seq<KeyValue>, i: nat)
    requires Boundary(s, i) && i < |s|
    ensures ValuesOf(s[..i + 1], s[i].key) == [s[i].value]
  {
    IrreflexiveLess(s[i].key);
    ValuesUnchanged(s, 0, i, s[i].key);
    ValuesSnoc(s, i, s[i].key);
    assert s[..0] == [];
  }

  method CollectGroup(s: seq<KeyValue>, i: nat) returns (j: nat, values: seq<string>)
    requires Sorted(ByKey, s) && Boundary(s, i) && i < |s|
    ensures Group(s, i, j) && Boundary(s, j)
    ensures values == ValuesOf(s, s[i].key)
  {
    GroupBegins(s, i);
    j, values := ScanGroup(s, i, s[i].key);
    GroupFound(s, i, j);
    GroupValues(s, i, j);
  }

  method ScanGroup(s: seq<KeyValue>, i: nat, key: string) returns (j: nat, values: seq<string>)
    requires i < |s| && s[i].key == key && ValuesOf(s[..i + 1], key) == [s[i].value]
    ensures i < j <= |s|
    ensures forall k :: i <= k < j ==> s[k].key == key
    ensures j < |s| ==> s[j].key != key
    ensures values == ValuesOf(s[..j], key)
  {
    j := i + 1;
    values := [s[i].value];
    while j < |s| && s[j].key == key
      invariant i < j <= |s|
      invariant forall k :: i <= k < j ==> s[k].key == key
      invariant values == ValuesOf(s[..j], key)
    {
      ValuesSnoc(s, j, key);
      values := values + [s[j].value];
      j := j + 1;
    }
  }

  /** The sequential program's grouping loop: it finds the end of a group, then collects the values. */
  method ReduceGroupsSequentially(f: ReduceFunction, intermediate: seq<KeyValue>) returns (lines: seq<string>)
    requires Sorted(ByKey, intermediate)
    ensures IsOutput(f, intermediate, lines)
  {
    lines := [];
    ghost var keys: seq<string> := [];
    var i := 0;
    while i < |intermediate|
      invariant Boundary(intermediate, i)
      invariant LinesUpTo(f, intermediate, i, keys, lines)
    {
      var j := i + 1;
      while j < |intermediate| && intermediate[j].key == intermediate[i].key
        invariant i < j <= |intermediate|
        invariant forall k :: i <= k < j ==> intermediate[k].key == intermediate[i].key
      {
        j := j + 1;
      }
      GroupFound(intermediate, i, j);
      var values := CollectBetween(intermediate, i, j);
      GroupDone(f, intermediate, i, j, keys, lines);
      keys := keys + [intermediate[i].key];
      lines := lines + [intermediate[i].key + " " + f(intermediate[i].key, values) + "\n"];
      i := j;
    }
    AllLines(f, intermediate, keys, lines);
  }

  method CollectBetween(s: seq<KeyValue>, i: nat, j: nat) returns (values: seq<string>)
    requires Group(s, i, j)
    ensures values == ValuesOf(s, s[i].key)
  {
    GroupValues(s, i, j);
    values := Between(s, i, j, s[i].key);
  }

  method Between(s: seq<KeyValue>, i: nat, j: nat, ghost key: string) returns (values: seq<string>)
    requires i <= j <= |s| && ValuesOf(s[..i], key) == []
    requires forall k :: i <= k < j ==> s[k].key == key
    ensures values == ValuesOf(s[..j], key)
  {
    values := [];
    for k := i to j
      invariant values == ValuesOf(s[..k], key)
    {
      ValuesSnoc(s, k, key);
      values := values + [s[k].value];
    }
  }
}
