/** The lines of an output as a bag, and the bags of a partitioned computation. */
module Outputs {
  import opened KeyValues
  import Strings

  /** A reduce function that does not look at the order of the values. */
  ghost predicate Insensitive(f: ReduceFunction) {
    forall key, v, w :: multiset(v) == multiset(w) ==> f(key, v) == f(key, w)
  }

  /** The keys that give a certain line. */
  ghost function KeysWith(f: ReduceFunction, s: seq<KeyValue>, keys: set<string>, line: string): set<string> {
    set key | key in keys && Line(f, s, key) == line
  }

  /** `bag` holds one line for each of the keys. */
  ghost predicate IsBag(f: ReduceFunction, s: seq<KeyValue>, keys: set<string>, bag: multiset<string>) {
    forall line :: bag[line] == |KeysWith(f, s, keys, line)|
  }

  /** The whole output, for any order of the pairs and any order of the lines. */
  ghost predicate OutputOf(f: ReduceFunction, s: seq<KeyValue>, bag: multiset<string>) {
    IsBag(f, s, KeysOf(s), bag)
  }

  /** The output is determined. */
  lemma BagUnique(f: ReduceFunction, s: seq<KeyValue>, keys: set<string>, a: multiset<string>, b: multiset<string>)
    requires IsBag(f, s, keys, a) && IsBag(f, s, keys, b)
    ensures a == b
  {
    assert forall line :: a[line] == b[line];
  }

  lemma BagUnion(f: ReduceFunction, s: seq<KeyValue>, a: set<string>, b: set<string>, x: multiset<string>,
        y: multiset<string>)
    requires a !! b && IsBag(f, s, a, x) && IsBag(f, s, b, y)
    ensures IsBag(f, s, a + b, x + y)
  {
    forall line ensures (x + y)[line] == |KeysWith(f, s, a + b, line)| {
      var ka, kb := KeysWith(f, s, a, line), KeysWith(f, s, b, line);
      assert KeysWith(f, s, a + b, line) == ka + kb && ka !! kb;
      assert (x + y)[line] == x[line] + y[line];
    }
  }

  lemma BagCongruence(f: ReduceFunction, s: seq<KeyValue>, t: seq<KeyValue>, keys: set<string>, bag: multiset<string>)
    requires forall key :: key in keys ==> Line(f, s, key) == Line(f, t, key)
    requires IsBag(f, s, keys, bag)
    ensures IsBag(f, t, keys, bag)
  {
    forall line ensures bag[line] == |KeysWith(f, t, keys, line)| {
      assert KeysWith(f, t, keys, line) == KeysWith(f, s, keys, line);
    }
  }

  lemma NoLines(f: ReduceFunction, s: seq<KeyValue>)
    ensures IsBag(f, s, {}, multiset{})
  {
  }

  lemma OneLine(f: ReduceFunction, s: seq<KeyValue>, key: string)
    ensures IsBag(f, s, {key}, multiset{Line(f, s, key)})
  {
    forall line ensures multiset{Line(f, s, key)}[line] == |KeysWith(f, s, {key}, line)| {
      if line == Line(f, s, key) {
        assert KeysWith(f, s, {key}, line) == {key};
      } else {
        assert KeysWith(f, s, {key}, line) == {};
      }
    }
  }

  // ---------------------------------------------------------------- lines as a bag

  function Names(keys: seq<string>): set<string> {
    set key | key in keys
  }

  lemma LastIsNew(keys: seq<string>)
    requires Increasing(keys) && keys != []
    ensures keys[|keys| - 1] !in keys[..|keys| - 1]
    ensures Names(keys) == Names(keys[..|keys| - 1]) + {keys[|keys| - 1]}
  {
    IrreflexiveLess(keys[|keys| - 1]);
    assert keys == keys[..|keys| - 1] + [keys[|keys| - 1]];
  }

  lemma {:induction false} ListedBag(f: ReduceFunction, s: seq<KeyValue>, keys: seq<string>, lines: seq<string>)
    requires Increasing(keys) && |lines| == |keys| && forall i :: 0 <= i < |keys| ==> lines[i] == Line(f, s, keys[i])
    ensures IsBag(f, s, Names(keys), multiset(lines))
    decreases |keys|
  {
    if keys == [] {
      NoLines(f, s);
      assert Names(keys) == {} && multiset(lines) == multiset{};
    } else {
      var n := |keys| - 1;
      ListedBag(f, s, keys[..n], lines[..n]);
      OneLine(f, s, keys[n]);
      LastIsNew(keys);
      BagUnion(f, s, Names(keys[..n]), {keys[n]}, multiset(lines[..n]), multiset{Line(f, s, keys[n])});
      assert lines == lines[..n] + [lines[n]];
    }
  }

  /** The lines of a grouping loop are the output of the pairs it was given. */
  lemma LinesAreOutput(f: ReduceFunction, s: seq<KeyValue>, lines: seq<string>)
    requires IsOutput(f, s, lines)
    ensures OutputOf(f, s, multiset(lines))
  {
    var keys :| LinesFor(f, s, keys, lines);
    ListedBag(f, s, keys, lines);
    assert Names(keys) == KeysOf(s);
  }

  // ---------------------------------------------------------------- the lines in order

  lemma {:induction false} LastKey(keys: set<string>) returns (last: string)
    requires keys != {}
    ensures last in keys && forall key :: key in keys && key != last ==> Strings.Less(key, last)
    decreases |keys|
  {
    var one :| one in keys;
    last := one;
    if keys != {one} {
      var rest := keys - {one};
      assert keys == rest + {one};
      var other := LastKey(rest);
      last := if Strings.Less(one, other) then other else one;
      forall key | key in keys && key != last ensures Strings.Less(key, last) {
        if last == one {
          LessOrEqual(other, one);
          if key != other {
            LessChain(key, other, one);
          }
        }
      }
    }
  }

  lemma LessChain(a: string, b: string, c: string)
    requires Strings.Less(a, b) && Strings.Less(b, c)
    ensures Strings.Less(a, c)
  {
    Strings.LessAsymmetric(b, c);
    LessTrans(a, b, c);
  }

  /** The keys in increasing order. */
  ghost function KeyOrder(keys: set<string>): (order: seq<string>)
    ensures Increasing(order) && forall key :: key in order <==> key in keys
  {
    if keys == {} then []
    else
      var last: string := LastOf(keys);
      KeyOrder(keys - {last}) + [last]
  }

  ghost function LastOf(keys: set<string>): (last: string)
    requires keys != {}
    ensures last in keys && forall key :: key in keys && key != last ==> Strings.Less(key, last)
  {
    assert exists last :: last in keys && forall key :: key in keys && key != last ==> Strings.Less(key, last) by {
      var last := LastKey(keys);
    }
    var last :| last in keys && forall key :: key in keys && key != last ==> Strings.Less(key, last);
    last
  }

  /** The lines of some pairs, in the order of their keys. */
  ghost function KeyLines(f: ReduceFunction, s: seq<KeyValue>): (lines: seq<string>)
    ensures IsOutput(f, s, lines)
  {
    var keys := KeyOrder(KeysOf(s));
    var lines := seq(|keys|, k requires 0 <= k < |keys| => Line(f, s, keys[k]));
    assert LinesFor(f, s, keys, lines);
    lines
  }

  lemma FirstIn(keys: seq<string>)
    requires keys != []
    ensures keys[0] in keys
  {
  }

  /** There is one way to put keys in increasing order. */
  lemma {:induction false} IncreasingUnique(a: seq<string>, b: seq<string>)
    requires Increasing(a) && Increasing(b) && forall key :: key in a <==> key in b
    ensures a == b
    decreases |a|
  {
    if a == [] {
      if b != [] {
        FirstIn(b);
      }
    } else {
      var m, n := |a| - 1, |b| - 1;
      assert a[m] in b;
      LastsAgree(a, b);
      LastIsNew(a);
      LastIsNew(b);
      forall key ensures key in a[..m] <==> key in b[..n] {
        assert key in a <==> key in a[..m] || key == a[m];
        assert key in b <==> key in b[..n] || key == b[n];
      }
      IncreasingUnique(a[..m], b[..n]);
      assert a == a[..m] + [a[m]] && b == b[..n] + [b[n]];
    }
  }

  lemma LastsAgree(a: seq<string>, b: seq<string>)
    requires Increasing(a) && Increasing(b) && a != [] && b != [] && forall key :: key in a <==> key in b
    ensures a[|a| - 1] == b[|b| - 1]
  {
    var x, y := a[|a| - 1], b[|b| - 1];
    assert x in b && y in a;
    var i :| 0 <= i < |b| && b[i] == x;
    var j :| 0 <= j < |a| && a[j] == y;
    if i < |b| - 1 && j < |a| - 1 {
      Strings.LessAsymmetric(x, y);
      assert false;
    }
  }

  /** Whatever the order of the pairs and the sort, the lines are the same, and in the same order. */
  lemma LinesUnique(f: ReduceFunction, s: seq<KeyValue>, t: seq<KeyValue>, lines: seq<string>)
    requires Insensitive(f) && multiset(s) == multiset(t) && IsOutput(f, s, lines)
    ensures lines == KeyLines(f, t)
  {
    var keys :| LinesFor(f, s, keys, lines);
    KeysPermuted(s, t);
    KeysPermuted(t, s);
    IncreasingUnique(keys, KeyOrder(KeysOf(t)));
    forall k | 0 <= k < |keys| ensures lines[k] == Line(f, t, keys[k]) {
      ValuesPermuted(s, t, keys[k]);
    }
  }

  /** Lines one after the other. */
  function Flat(lines: seq<string>): string {
    if lines == [] then "" else Flat(lines[..|lines| - 1]) + lines[|lines| - 1]
  }

  lemma NoPairsNoText(f: ReduceFunction, s: seq<KeyValue>)
    ensures Flat(KeyLines(f, s)) == "" <==> s == []
  {
    var lines := KeyLines(f, s);
    var keys :| LinesFor(f, s, keys, lines);
    if s != [] {
      assert s[0].key in KeysOf(s);
      assert keys != [];
      assert |lines[|lines| - 1]| > 0;
    }
  }

  // ---------------------------------------------------------------- the order of the pairs

  lemma {:induction false} ValueCount(s: seq<KeyValue>, key: string, v: string)
    ensures multiset(ValuesOf(s, key))[v] == multiset(s)[KeyValue(key, v)]
  {
    if s != [] {
      var n := |s| - 1;
      ValueCount(s[..n], key, v);
      assert s == s[..n] + [s[n]];
      assert s[n].key == key && s[n].value == v <==> s[n] == KeyValue(key, v);
    }
  }

  lemma ValuesPermuted(s: seq<KeyValue>, t: seq<KeyValue>, key: string)
    requires multiset(s) == multiset(t)
    ensures multiset(ValuesOf(s, key)) == multiset(ValuesOf(t, key))
  {
    forall v ensures multiset(ValuesOf(s, key))[v] == multiset(ValuesOf(t, key))[v] {
      ValueCount(s, key, v);
      ValueCount(t, key, v);
    }
  }

  lemma KeysPermuted(s: seq<KeyValue>, t: seq<KeyValue>)
    requires multiset(s) == multiset(t)
    ensures KeysOf(s) <= KeysOf(t)
  {
    forall key | key in KeysOf(s) ensures key in KeysOf(t) {
      var i :| 0 <= i < |s| && s[i].key == key;
      assert s[i] in multiset(t);
      var j :| 0 <= j < |t| && t[j] == s[i];
    }
  }

  /** The order of the pairs does not matter to a reduce function that ignores order. */
  lemma OutputPermuted(f: ReduceFunction, s: seq<KeyValue>, t: seq<KeyValue>, bag: multiset<string>)
    requires Insensitive(f) && multiset(s) == multiset(t) && OutputOf(f, s, bag)
    ensures OutputOf(f, t, bag)
  {
    KeysPermuted(s, t);
    KeysPermuted(t, s);
    assert KeysOf(s) == KeysOf(t);
    forall key | key in KeysOf(s) ensures Line(f, s, key) == Line(f, t, key) {
      ValuesPermuted(s, t, key);
    }
    BagCongruence(f, s, t, KeysOf(s), bag);
  }

  // ---------------------------------------------------------------- partitions

  type HashFunction = string -> nat

  /** The pairs of partition `p`, in order. */
  function PartOf(s: seq<KeyValue>, hash: HashFunction, n: nat, p: nat): seq<KeyValue>
    requires n > 0
  {
    if s == [] then []
    else PartOf(s[..|s| - 1], hash, n, p) + if hash(s[|s| - 1].key) % n == p then [s[|s| - 1]] else []
  }

  lemma {:induction false} PartOfConcat(s: seq<KeyValue>, t: seq<KeyValue>, hash: HashFunction, n: nat, p: nat)
    requires n > 0
    ensures PartOf(s + t, hash, n, p) == PartOf(s, hash, n, p) + PartOf(t, hash, n, p)
  {
    if t == [] {
      assert s + t == s;
    } else {
      PartOfConcat(s, t[..|t| - 1], hash, n, p);
      assert (s + t)[..|s + t| - 1] == s + t[..|t| - 1];
    }
  }

  lemma {:induction false} PartCount(s: seq<KeyValue>, hash: HashFunction, n: nat, p: nat, x: KeyValue)
    requires n > 0
    ensures multiset(PartOf(s, hash, n, p))[x] == if hash(x.key) % n == p then multiset(s)[x] else 0
  {
    if s != [] {
      PartCount(s[..|s| - 1], hash, n, p, x);
      assert s == s[..|s| - 1] + [s[|s| - 1]];
    }
  }

  lemma PartPermuted(s: seq<KeyValue>, t: seq<KeyValue>, hash: HashFunction, n: nat, p: nat)
    requires n > 0 && multiset(s) == multiset(t)
    ensures multiset(PartOf(s, hash, n, p)) == multiset(PartOf(t, hash, n, p))
  {
    forall x ensures multiset(PartOf(s, hash, n, p))[x] == multiset(PartOf(t, hash, n, p))[x] {
      PartCount(s, hash, n, p, x);
      PartCount(t, hash, n, p, x);
    }
  }

  lemma {:induction false} PartValues(s: seq<KeyValue>, hash: HashFunction, n: nat, p: nat, key: string)
    requires n > 0 && hash(key) % n == p
    ensures ValuesOf(PartOf(s, hash, n, p), key) == ValuesOf(s, key)
  {
    if s != [] {
      var last := s[|s| - 1];
      var before := PartOf(s[..|s| - 1], hash, n, p);
      PartValues(s[..|s| - 1], hash, n, p, key);
      if hash(last.key) % n == p {
        assert PartOf(s, hash, n, p)[..|before|] == before;
      } else {
        assert PartOf(s, hash, n, p) == before;
      }
    }
  }

  function KeysBelow(s: seq<KeyValue>, hash: HashFunction, n: nat, m: nat): set<string>
    requires n > 0
  {
    set key | key in KeysOf(s) && hash(key) % n < m
  }

  function KeysAt(s: seq<KeyValue>, hash: HashFunction, n: nat, p: nat): set<string>
    requires n > 0
  {
    set key | key in KeysOf(s) && hash(key) % n == p
  }

  lemma PartKeys(s: seq<KeyValue>, hash: HashFunction, n: nat, p: nat)
    requires n > 0
    ensures KeysOf(PartOf(s, hash, n, p)) == KeysAt(s, hash, n, p)
  {
    var part := PartOf(s, hash, n, p);
    forall key ensures key in KeysOf(part) <==> key in KeysAt(s, hash, n, p) {
      if key in KeysOf(part) {
        var i :| 0 <= i < |part| && part[i].key == key;
        assert part[i] in multiset(part);
        PartCount(s, hash, n, p, part[i]);
        assert part[i] in s;
      }
      if key in KeysAt(s, hash, n, p) {
        var i :| 0 <= i < |s| && s[i].key == key;
        assert s[i] in multiset(s);
        PartCount(s, hash, n, p, s[i]);
        assert s[i] in part;
      }
    }
  }

  /** The output of a partition is the part of the whole output for its keys. */
  lemma PartOutput(f: ReduceFunction, s: seq<KeyValue>, hash: HashFunction, n: nat, p: nat, bag: multiset<string>)
    requires n > 0 && OutputOf(f, PartOf(s, hash, n, p), bag)
    ensures IsBag(f, s, KeysAt(s, hash, n, p), bag)
  {
    PartKeys(s, hash, n, p);
    forall key | key in KeysAt(s, hash, n, p) ensures Line(f, PartOf(s, hash, n, p), key) == Line(f, s, key) {
      PartValues(s, hash, n, p, key);
    }
    BagCongruence(f, PartOf(s, hash, n, p), s, KeysAt(s, hash, n, p), bag);
  }

  /** All lines of the first `m` files together. */
  function Together(files: seq<seq<string>>): multiset<string> {
    if files == [] then multiset{} else Together(files[..|files| - 1]) + multiset(files[|files| - 1])
  }

  lemma {:induction false} PartOutputs(f: ReduceFunction, s: seq<KeyValue>, hash: HashFunction, n: nat,
        files: seq<seq<string>>)
    requires n > 0 && forall p :: 0 <= p < |files| ==> OutputOf(f, PartOf(s, hash, n, p), multiset(files[p]))
    ensures IsBag(f, s, KeysBelow(s, hash, n, |files|), Together(files))
    decreases |files|
  {
    if files == [] {
      NoLines(f, s);
      assert KeysBelow(s, hash, n, 0) == {};
    } else {
      var p := |files| - 1;
      PartOutputs(f, s, hash, n, files[..p]);
      PartOutput(f, s, hash, n, p, multiset(files[p]));
      BagUnion(f, s, KeysBelow(s, hash, n, p), KeysAt(s, hash, n, p), Together(files[..p]), multiset(files[p]));
      assert KeysBelow(s, hash, n, p + 1) == KeysBelow(s, hash, n, p) + KeysAt(s, hash, n, p);
    }
  }

  /** Splitting by hash loses no line and adds none. */
  lemma PartitionTheorem(f: ReduceFunction, s: seq<KeyValue>, hash: HashFunction, files: seq<seq<string>>)
    requires files != [] && forall p :: 0 <= p < |files| ==>
             OutputOf(f, PartOf(s, hash, |files|, p), multiset(files[p]))
    ensures OutputOf(f, s, Together(files))
  {
    PartOutputs(f, s, hash, |files|, files);
    assert KeysBelow(s, hash, |files|, |files|) == KeysOf(s);
  }
}
