/** What the program relies on from the Go sort package: some permutation without inversions.
    Nothing is promised about elements that compare equal. */
module Sorting {

  ghost predicate StrictWeakOrder<T(!new)>(less: (T, T) -> bool) {
    && (forall a, b :: less(a, b) ==> !less(b, a))
    && (forall a, b, c :: !less(a, b) && !less(b, c) ==> !less(a, c))
  }

  ghost predicate Sorted<T>(less: (T, T) -> bool, s: seq<T>) {
    forall i, j :: 0 <= i < j < |s| ==> !less(s[j], s[i])
  }

  /** `s` is a possible result of sorting `input`. */
  ghost predicate SortOf<T>(less: (T, T) -> bool, input: seq<T>, s: seq<T>) {
    multiset(s) == multiset(input) && Sorted(less, s)
  }

  method Sort<T(!new)>(input: seq<T>, less: (T, T) -> bool) returns (s: seq<T>)
    requires StrictWeakOrder(less)
    ensures SortOf(less, input, s)
  {
    s := [];
    for i := 0 to |input|
      invariant SortOf(less, input[..i], s)
    {
      s := Insert(s, input[i], less);
      assert input[..i + 1] == input[..i] + [input[i]];
    }
    assert input[..|input|] == input;
  }

  method Insert<T(!new)>(s: seq<T>, x: T, less: (T, T) -> bool) returns (r: seq<T>)
    requires StrictWeakOrder(less)
    requires Sorted(less, s)
    ensures SortOf(less, s + [x], r)
  {
    var k := |s|;
    while k > 0 && less(x, s[k - 1])
      invariant 0 <= k <= |s|
      invariant forall j :: k <= j < |s| ==> less(x, s[j])
    {
      k := k - 1;
    }
    r := s[..k] + [x] + s[k..];
    InsertSorts(s, x, less, k);
  }

  lemma InsertedSorted<T>(s: seq<T>, x: T, k: nat, less: (T, T) -> bool)
    requires Sorted(less, s)
    requires k <= |s|
    requires forall j :: 0 <= j < k ==> !less(x, s[j])
    requires forall j :: k <= j < |s| ==> !less(s[j], x)
    ensures Sorted(less, s[..k] + [x] + s[k..])
  {
    var r := s[..k] + [x] + s[k..];
    forall i, j | 0 <= i < j < |r| ensures !less(r[j], r[i]) {
      assert r[i] == if i < k then s[i] else if i == k then x else s[i - 1];
      assert r[j] == if j < k then s[j] else if j == k then x else s[j - 1];
    }
  }

  lemma {:induction false} InsertPlace<T(!new)>(s: seq<T>, x: T, less: (T, T) -> bool, m: nat) returns (k: nat)
    requires StrictWeakOrder(less) && Sorted(less, s) && m <= |s|
    requires forall j :: m <= j < |s| ==> less(x, s[j])
    ensures k <= |s| && (forall j :: k <= j < |s| ==> less(x, s[j])) && (k > 0 ==> !less(x, s[k - 1]))
    decreases m
  {
    if m > 0 && less(x, s[m - 1]) {
      k := InsertPlace(s, x, less, m - 1);
    } else {
      k := m;
    }
  }

  lemma InsertSorts<T(!new)>(s: seq<T>, x: T, less: (T, T) -> bool, k: nat)
    requires StrictWeakOrder(less) && Sorted(less, s) && k <= |s|
    requires (forall j :: k <= j < |s| ==> less(x, s[j])) && (k > 0 ==> !less(x, s[k - 1]))
    ensures SortOf(less, s + [x], s[..k] + [x] + s[k..])
  {
    forall j | 0 <= j < k ensures !less(x, s[j]) {
      assert j < k - 1 ==> !less(s[k - 1], s[j]);
    }
    InsertedSorted(s, x, k, less);
    InsertedSame(s, x, k);
  }

  lemma InsertedSame<T>(s: seq<T>, x: T, k: nat)
    requires k <= |s|
    ensures multiset(s[..k] + [x] + s[k..]) == multiset(s + [x])
  {
    assert s == s[..k] + s[k..];
  }

  /** Everything can be sorted. */
  lemma {:induction false} SortExists<T(!new)>(input: seq<T>, less: (T, T) -> bool) returns (s: seq<T>)
    requires StrictWeakOrder(less)
    ensures SortOf(less, input, s)
  {
    s := [];
    if input != [] {
      var n := |input| - 1;
      var before := SortExists(input[..n], less);
      var k := InsertPlace(before, input[n], less, |before|);
      InsertSorts(before, input[n], less, k);
      s := before[..k] + [input[n]] + before[k..];
      assert input == input[..n] + [input[n]];
    }
  }

  /** A permutation keeps every element, and keeps distinct elements distinct. */
  lemma PermutationMember<T>(s: seq<T>, t: seq<T>, x: T)
    requires multiset(s) == multiset(t)
    ensures x in s <==> x in t
  {
    assert x in s <==> x in multiset(s);
    assert x in t <==> x in multiset(t);
  }

  lemma {:induction false} Multiplicity<T>(s: seq<T>, x: T)
    requires forall i, j :: 0 <= i < j < |s| ==> s[i] != s[j]
    ensures multiset(s)[x] <= 1
  {
    if s != [] {
      var init, last := s[..|s| - 1], s[|s| - 1];
      assert s == init + [last];
      Multiplicity(init, x);
      assert last !in init;
    }
  }

  lemma PermutationDistinct<T>(s: seq<T>, t: seq<T>, i: nat, j: nat)
    requires multiset(s) == multiset(t)
    requires forall i, j :: 0 <= i < j < |s| ==> s[i] != s[j]
    requires i < j < |t|
    ensures t[i] != t[j]
  {
    Multiplicity(s, t[i]);
    assert t == t[..i] + [t[i]] + t[i + 1..j] + [t[j]] + t[j + 1..];
  }
}
