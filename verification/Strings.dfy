/** Strings as Go orders and prints them. */
module Strings {
  import opened Sorting

  /** Lexicographic order. */
  predicate Less(s: string, t: string) {
    if t == "" then false
    else if s == "" then true
    else if s[0] != t[0] then s[0] < t[0]
    else Less(s[1..], t[1..])
  }

  /** At `k` the strings first differ, and `s` has the smaller character. */
  ghost predicate SmallerAt(s: string, t: string, k: nat) {
    k < |s| && k < |t| && s[..k] == t[..k] && s[k] < t[k]
  }

  /** A string is less than its proper extensions, and than every string that has a greater character
      where the two first differ. */
  lemma {:induction false} LessMeaning(s: string, t: string)
    ensures Less(s, t) <==> s < t || exists k: nat :: SmallerAt(s, t, k)
  {
    if s != "" && t != "" {
      if s[0] == t[0] {
        LessMeaning(s[1..], t[1..]);
        LessTails(s, t);
      } else if s[0] < t[0] {
        assert SmallerAt(s, t, 0);
      } else {
        forall k: nat ensures !SmallerAt(s, t, k) {
          assert 0 < k < |s| && k < |t| ==> s[..k][0] == s[0] && t[..k][0] == t[0];
        }
      }
    }
  }

  lemma LessTails(s: string, t: string)
    requires s != "" && t != "" && s[0] == t[0]
    ensures s < t <==> s[1..] < t[1..]
    ensures (exists k: nat :: SmallerAt(s, t, k)) <==> exists k: nat :: SmallerAt(s[1..], t[1..], k)
  {
    assert s == [s[0]] + s[1..] && t == [t[0]] + t[1..];
    if k: nat :| SmallerAt(s[1..], t[1..], k) {
      assert s[..k + 1] == [s[0]] + s[1..][..k] && t[..k + 1] == [t[0]] + t[1..][..k];
      assert SmallerAt(s, t, k + 1);
    }
    if k: nat :| SmallerAt(s, t, k) {
      assert k > 0;
      assert s[1..][..k - 1] == s[..k][1..] && t[1..][..k - 1] == t[..k][1..];
      assert SmallerAt(s[1..], t[1..], k - 1);
    }
    if s < t {
      assert t[..|s|] == s;
      assert t[1..][..|s| - 1] == t[..|s|][1..];
    }
    if s[1..] < t[1..] {
      assert t[..|s|] == [t[0]] + t[1..][..|s| - 1];
    }
  }

  lemma LessAsymmetric(s: string, t: string)
    requires Less(s, t)
    ensures !Less(t, s)
  {
  }

  lemma {:induction false} NotLessTransitive(s: string, t: string, u: string)
    requires !Less(s, t) && !Less(t, u)
    ensures !Less(s, u)
  {
    if s != "" && t != "" && u != "" && s[0] == t[0] == u[0] {
      NotLessTransitive(s[1..], t[1..], u[1..]);
    }
  }

  lemma LessIsOrder()
    ensures StrictWeakOrder(Less)
  {
    forall s, t | Less(s, t) ensures !Less(t, s) {
      LessAsymmetric(s, t);
    }
    forall s, t, u | !Less(s, t) && !Less(t, u) ensures !Less(s, u) {
      NotLessTransitive(s, t, u);
    }
  }

  /** Strings that are not ordered are equal. */
  lemma {:induction false} LessTotal(s: string, t: string)
    requires !Less(s, t) && !Less(t, s)
    ensures s == t
  {
    if s != "" && t != "" {
      LessTotal(s[1..], t[1..]);
      assert s == [s[0]] + s[1..] && t == [t[0]] + t[1..];
    }
  }

  // ---------------------------------------------------------------- decimal numbers

  function Digit(d: nat): char
    requires d < 10
  {
    '0' + d as char
  }

  /** What `%d` prints. */
  function Itoa(n: nat): string {
    if n < 10 then [Digit(n)] else Itoa(n / 10) + [Digit(n % 10)]
  }

  ghost function Atoi(s: string): int {
    if s == "" then 0 else 10 * Atoi(s[..|s| - 1]) + (s[|s| - 1] as int - '0' as int)
  }

  lemma {:induction false} ItoaRoundTrip(n: nat)
    ensures Atoi(Itoa(n)) == n
  {
    if n < 10 {
      assert [Digit(n)][..0] == "";
      assert Atoi([Digit(n)]) == 10 * Atoi("") + n;
    } else {
      ItoaRoundTrip(n / 10);
      var s := Itoa(n);
      assert s[..|s| - 1] == Itoa(n / 10);
    }
  }

  lemma ItoaInjective(m: nat, n: nat)
    ensures Itoa(m) == Itoa(n) ==> m == n
  {
    ItoaRoundTrip(m);
    ItoaRoundTrip(n);
  }

  lemma {:induction false} ItoaDigits(n: nat, k: nat)
    requires k < |Itoa(n)|
    ensures '0' <= Itoa(n)[k] <= '9'
  {
    if n >= 10 && k < |Itoa(n / 10)| {
      ItoaDigits(n / 10, k);
    }
  }

  /** The decimal numeral of `n`: digits only, no zero in front, and `n` is its value. */
  lemma {:induction false} ItoaMeaning(n: nat)
    ensures Itoa(n) != "" && (|Itoa(n)| > 1 ==> Itoa(n)[0] != '0')
    ensures forall k :: 0 <= k < |Itoa(n)| ==> '0' <= Itoa(n)[k] <= '9'
    ensures Atoi(Itoa(n)) == n
  {
    ItoaRoundTrip(n);
    ItoaLeads(n);
    forall k | 0 <= k < |Itoa(n)| ensures '0' <= Itoa(n)[k] <= '9' {
      ItoaDigits(n, k);
    }
  }

  lemma {:induction false} ItoaLeads(n: nat)
    ensures Itoa(n) != "" && (n > 0 ==> Itoa(n)[0] != '0') && (n == 0 ==> |Itoa(n)| == 1)
  {
    if n >= 10 {
      ItoaLeads(n / 10);
    }
  }
}
