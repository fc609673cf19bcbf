/** The checker's bitset: an array of 64-bit words, changed in place. */
module Bitsets {

  // ---------------------------------------------------------------- 64-bit words

  const WORD: nat := 64

  /** A 64-bit unsigned word; the bitwise operators below work on its binary digits. */
  type Word = w: nat | w < 0x1_0000_0000_0000_0000

  /** Binary digit `k`. */
  predicate Bit(w: nat, k: nat) {
    if k == 0 then w % 2 == 1 else Bit(w / 2, k - 1)
  }

  /** `1 << k` */
  function Mask(k: nat): (r: nat)
    ensures r > 0
  {
    if k == 0 then 1 else 2 * Mask(k - 1)
  }

  /** `a | b` */
  function Or(a: nat, b: nat): nat {
    if a == 0 && b == 0 then 0
    else 2 * Or(a / 2, b / 2) + (if a % 2 == 1 || b % 2 == 1 then 1 else 0)
  }

  /** `a &^ b` */
  function AndNot(a: nat, b: nat): (r: nat)
    ensures r <= a
  {
    if a == 0 then 0
    else 2 * AndNot(a / 2, b / 2) + (if a % 2 == 1 && b % 2 == 0 then 1 else 0)
  }

  /** `a & b` */
  function And(a: nat, b: nat): nat {
    if a == 0 then 0
    else 2 * And(a / 2, b / 2) + (if a % 2 == 1 && b % 2 == 1 then 1 else 0)
  }

  /** `a ^ b` */
  function Xor(a: nat, b: nat): nat {
    if a == 0 && b == 0 then 0
    else 2 * Xor(a / 2, b / 2) + (if a % 2 != b % 2 then 1 else 0)
  }

  lemma MaskBit(k: nat, j: nat)
    ensures Bit(Mask(k), j) <==> j == k
  {
    if j == 0 || k == 0 {
      ZeroHasNoBit(if j == 0 then 0 else j - 1);
    } else {
      MaskBit(k - 1, j - 1);
    }
  }

  lemma ZeroHasNoBit(k: nat)
    ensures !Bit(0, k)
  {
  }

  lemma {:induction false} OrBit(a: nat, b: nat, k: nat)
    ensures Bit(Or(a, b), k) <==> Bit(a, k) || Bit(b, k)
  {
    OrHalves(a, b);
    if k > 0 {
      OrBit(a / 2, b / 2, k - 1);
    }
  }

  lemma OrHalves(a: nat, b: nat)
    ensures Or(a, b) / 2 == Or(a / 2, b / 2)
    ensures Or(a, b) % 2 == 1 <==> a % 2 == 1 || b % 2 == 1
  {
  }

  lemma AndNotHalves(a: nat, b: nat)
    ensures AndNot(a, b) / 2 == AndNot(a / 2, b / 2)
    ensures AndNot(a, b) % 2 == 1 <==> a % 2 == 1 && b % 2 == 0
  {
  }

  lemma {:induction false} AndNotBit(a: nat, b: nat, k: nat)
    ensures Bit(AndNot(a, b), k) <==> Bit(a, k) && !Bit(b, k)
  {
    AndNotHalves(a, b);
    if k > 0 {
      AndNotBit(a / 2, b / 2, k - 1);
    }
  }

  lemma {:induction false} AndMask(w: nat, k: nat)
    ensures And(w, Mask(k)) != 0 <==> Bit(w, k)
  {
    if w == 0 {
      ZeroHasNoBit(k);
    } else if k > 0 {
      AndMask(w / 2, k - 1);
    } else {
      AndZero(w / 2);
    }
  }

  lemma AndZero(w: nat)
    ensures And(w, 0) == 0
  {
  }

  /** Bitwise operators stay within the width of their operands. */
  lemma {:induction false} Width(a: nat, b: nat, n: nat)
    requires a < Mask(n) && b < Mask(n)
    ensures Or(a, b) < Mask(n)
    ensures Xor(a, b) < Mask(n)
  {
    if n > 0 && (a != 0 || b != 0) {
      Width(a / 2, b / 2, n - 1);
    }
  }

  lemma {:induction false} MaskGrows(k: nat, n: nat)
    requires k < n
    ensures Mask(k) < Mask(n)
  {
    if k > 0 {
      MaskGrows(k - 1, n - 1);
    } else if n > 1 {
      MaskGrows(0, n - 1);
    }
  }

  lemma WordWidth()
    ensures Mask(WORD) == 0x1_0000_0000_0000_0000
  {
    assert Mask(8) == 0x100;
    assert Mask(16) == 0x1_0000;
    assert Mask(24) == 0x100_0000;
    assert Mask(32) == 0x1_0000_0000;
    assert Mask(40) == 0x100_0000_0000;
    assert Mask(48) == 0x1_0000_0000_0000;
    assert Mask(56) == 0x100_0000_0000_0000;
  }

  function WordOr(a: Word, b: Word): Word {
    WordWidth();
    Width(a, b, WORD);
    Or(a, b)
  }

  function WordXor(a: Word, b: Word): Word {
    WordWidth();
    Width(a, b, WORD);
    Xor(a, b)
  }

  function WordMask(k: nat): (r: Word)
    requires k < WORD
  {
    WordWidth();
    MaskGrows(k, WORD);
    Mask(k)
  }

  /** Different words differ in some digit below the word size. */
  lemma {:induction false} DifferingBit(v: nat, w: nat, n: nat) returns (k: nat)
    requires v != w
    requires v < Mask(n) && w < Mask(n)
    ensures k < n
    ensures Bit(v, k) != Bit(w, k)
  {
    if v % 2 != w % 2 {
      k := 0;
      assert n > 0;
    } else {
      var j := DifferingBit(v / 2, w / 2, n - 1);
      k := j + 1;
    }
  }

  // ---------------------------------------------------------------- positions

  function Major(pos: nat): nat {
    pos / WORD
  }

  function Minor(pos: nat): (r: nat)
    ensures r < WORD
  {
    pos % WORD
  }

  predicate Member(words: seq<Word>, pos: nat) {
    Major(pos) < |words| && Bit(words[Major(pos)], Minor(pos))
  }

  /** The bitset `words` stands for the set of ids `ids`. */
  ghost predicate Represents(words: seq<Word>, ids: set<nat>) {
    forall p: nat :: Member(words, p) <==> p in ids
  }

  lemma DifferingPosition(v: seq<Word>, w: seq<Word>, i: nat) returns (p: nat)
    requires i < |v| && i < |w| && v[i] != w[i]
    ensures Member(v, p) != Member(w, p)
  {
    WordWidth();
    var k := DifferingBit(v[i], w[i], WORD);
    p := WORD * i + k;
    assert Major(p) == i && Minor(p) == k;
  }

  /** A bitset of a given length is determined by the set it stands for. */
  lemma RepresentationIsUnique(v: seq<Word>, w: seq<Word>, ids: set<nat>)
    requires |v| == |w|
    requires Represents(v, ids) && Represents(w, ids)
    ensures v == w
  {
    if i :| 0 <= i < |v| && v[i] != w[i] {
      var p := DifferingPosition(v, w, i);
      assert false;
    }
  }

  /** The number of words for `bits` positions: every position below `bits` has a word. */
  function Chunks(bits: nat): (r: nat)
    ensures forall p: nat :: p < bits ==> Major(p) < r
  {
    bits / WORD + (if bits % WORD != 0 then 1 else 0)
  }

  function Included(words: seq<Word>, pos: nat): seq<Word>
    requires Major(pos) < |words|
  {
    words[Major(pos) := WordOr(words[Major(pos)], WordMask(Minor(pos)))]
  }

  function Excluded(words: seq<Word>, pos: nat): seq<Word>
    requires Major(pos) < |words|
  {
    words[Major(pos) := AndNot(words[Major(pos)], WordMask(Minor(pos)))]
  }

  lemma IncludedMember(words: seq<Word>, pos: nat, p: nat)
    requires Major(pos) < |words|
    ensures Member(Included(words, pos), p) <==> p == pos || Member(words, p)
  {
    OrBit(words[Major(pos)], Mask(Minor(pos)), Minor(p));
    MaskBit(Minor(pos), Minor(p));
  }

  lemma ExcludedMember(words: seq<Word>, pos: nat, p: nat)
    requires Major(pos) < |words|
    ensures Member(Excluded(words, pos), p) <==> p != pos && Member(words, p)
  {
    AndNotBit(words[Major(pos)], Mask(Minor(pos)), Minor(p));
    MaskBit(Minor(pos), Minor(p));
  }

  // ---------------------------------------------------------------- population count and hash

  /** The number of ones among the digits of a word. */
  function OnesCount(w: nat): nat {
    if w == 0 then 0 else OnesCount(w / 2) + w % 2
  }

  ghost function DigitsBelow(w: nat, n: nat): nat {
    if n == 0 then 0 else DigitsBelow(w, n - 1) + (if Bit(w, n - 1) then 1 else 0)
  }

  lemma {:induction false} DigitsShift(w: nat, n: nat)
    requires n > 0
    ensures DigitsBelow(w, n) == DigitsBelow(w / 2, n - 1) + w % 2
  {
    if n > 1 {
      DigitsShift(w, n - 1);
    }
  }

  lemma {:induction false} OnesCountIsDigits(w: nat, n: nat)
    requires w < Mask(n)
    ensures OnesCount(w) == DigitsBelow(w, n)
  {
    if n > 0 {
      OnesCountIsDigits(w / 2, n - 1);
      DigitsShift(w, n);
    }
  }

  function PopCount(words: seq<Word>): nat {
    if words == [] then 0
    else PopCount(words[..|words| - 1]) + OnesCount(words[|words| - 1])
  }

  function Xors(words: seq<Word>, seed: Word): Word {
    if words == [] then seed else WordXor(Xors(words[..|words| - 1], seed), words[|words| - 1])
  }

  /** The bucket key: the population count, as a 64-bit number, xored with every word. */
  function HashOf(words: seq<Word>): Word {
    Xors(words, PopCount(words) % 0x1_0000_0000_0000_0000)
  }

  ghost function CountBelow(words: seq<Word>, n: nat): nat {
    if n == 0 then 0 else CountBelow(words, n - 1) + (if Member(words, n - 1) then 1 else 0)
  }

  lemma {:induction false} CountOfLastWord(words: seq<Word>, w: Word, n: nat)
    requires n <= WORD
    ensures CountBelow(words + [w], WORD * |words| + n) == CountBelow(words + [w], WORD * |words|) + DigitsBelow(w, n)
  {
    if n > 0 {
      CountOfLastWord(words, w, n - 1);
      var p := WORD * |words| + (n - 1);
      assert Major(p) == |words| && Minor(p) == n - 1;
      assert Member(words + [w], p) <==> Bit(w, n - 1);
    }
  }

  lemma {:induction false} CountOfPrefix(words: seq<Word>, w: Word, n: nat)
    requires n <= WORD * |words|
    ensures CountBelow(words + [w], n) == CountBelow(words, n)
  {
    if n > 0 {
      CountOfPrefix(words, w, n - 1);
      assert Major(n - 1) < |words|;
    }
  }

  lemma CountSnoc(words: seq<Word>, w: Word)
    ensures CountBelow(words + [w], WORD * |words| + WORD) == CountBelow(words, WORD * |words|) + OnesCount(w)
  {
    WordWidth();
    CountOfLastWord(words, w, WORD);
    CountOfPrefix(words, w, WORD * |words|);
    OnesCountIsDigits(w, WORD);
  }

  lemma {:induction false} PopCountOfWords(words: seq<Word>)
    ensures PopCount(words) == CountBelow(words, WORD * |words|)
  {
    if words != [] {
      var init, w := words[..|words| - 1], words[|words| - 1];
      PopCountOfWords(init);
      CountSnoc(init, w);
      assert words == init + [w];
    }
  }

  lemma {:induction false} CountIsSize(words: seq<Word>, n: nat, ids: set<nat>)
    requires forall p: nat :: p in ids <==> p < n && Member(words, p)
    ensures CountBelow(words, n) == |ids|
  {
    if n > 0 {
      CountIsSize(words, n - 1, ids - {n - 1});
    }
  }

  /** `popcnt` is the size of the set the bitset stands for. */
  lemma PopCountIsSize(words: seq<Word>, ids: set<nat>)
    requires Represents(words, ids)
    ensures PopCount(words) == |ids|
  {
    PopCountOfWords(words);
    assert forall p: nat :: Member(words, p) ==> p < WORD * |words|;
    CountIsSize(words, WORD * |words|, ids);
  }

  // ---------------------------------------------------------------- the operations

  method NewBitset(bits: nat) returns (b: array<Word>)
    ensures fresh(b)
    ensures b.Length == Chunks(bits) == (bits + 63) / 64
    ensures Represents(b[..], {})
  {
    b := new Word[Chunks(bits)](_ => 0);
    forall p: nat ensures !Member(b[..], p) {
      ZeroHasNoBit(Minor(p));
    }
  }

  method Clone(b: array<Word>) returns (c: array<Word>)
    ensures fresh(c)
    ensures c[..] == b[..]
  {
    c := new Word[b.Length](i requires 0 <= i < b.Length reads b => b[i]);
    assert forall i :: 0 <= i < b.Length ==> c[i] == b[i];
  }

  method Set(b: array<Word>, pos: nat, ghost ids: set<nat>)
    requires Major(pos) < b.Length
    requires Represents(b[..], ids)
    modifies b
    ensures Represents(b[..], ids + {pos})
  {
    b[Major(pos)] := WordOr(b[Major(pos)], WordMask(Minor(pos)));
    assert b[..] == Included(old(b[..]), pos);
    forall p: nat ensures Member(b[..], p) <==> p in ids + {pos} {
      IncludedMember(old(b[..]), pos, p);
    }
  }

  method Clear(b: array<Word>, pos: nat, ghost ids: set<nat>)
    requires Major(pos) < b.Length
    requires Represents(b[..], ids)
    modifies b
    ensures Represents(b[..], ids - {pos})
  {
    b[Major(pos)] := AndNot(b[Major(pos)], WordMask(Minor(pos)));
    assert b[..] == Excluded(old(b[..]), pos);
    forall p: nat ensures Member(b[..], p) <==> p in ids - {pos} {
      ExcludedMember(old(b[..]), pos, p);
    }
  }

  method Get(b: array<Word>, pos: nat, ghost ids: set<nat>) returns (r: bool)
    requires Major(pos) < b.Length
    requires Represents(b[..], ids)
    ensures r <==> pos in ids
  {
    AndMask(b[Major(pos)], Minor(pos));
    assert Member(b[..], pos) <==> Bit(b[Major(pos)], Minor(pos));
    r := And(b[Major(pos)], WordMask(Minor(pos))) != 0;
  }

  method PopCnt(b: array<Word>, ghost ids: set<nat>) returns (total: nat)
    requires Represents(b[..], ids)
    ensures total == PopCount(b[..]) == |ids|
  {
    total := 0;
    for i := 0 to b.Length
      invariant total == PopCount(b[..i])
    {
      assert b[..i + 1][..i] == b[..i];
      total := total + OnesCount(b[i]);
    }
    assert b[..b.Length] == b[..];
    PopCountIsSize(b[..], ids);
  }

  /** The hash depends on the set and the width only. */
  lemma SameHash(words: seq<Word>, ids: set<nat>)
    requires Represents(words, ids)
    ensures forall c: seq<Word> :: |c| == |words| && Represents(c, ids) ==> HashOf(c) == HashOf(words)
  {
    forall c: seq<Word> | |c| == |words| && Represents(c, ids) ensures HashOf(c) == HashOf(words) {
      RepresentationIsUnique(c, words, ids);
    }
  }

  lemma XorHalves(a: nat, b: nat)
    ensures Xor(a, b) / 2 == Xor(a / 2, b / 2)
    ensures Xor(a, b) % 2 == 1 <==> a % 2 != b % 2
  {
  }

  lemma {:induction false} XorBit(a: nat, b: nat, k: nat)
    ensures Bit(Xor(a, b), k) <==> Bit(a, k) != Bit(b, k)
  {
    XorHalves(a, b);
    if k > 0 {
      XorBit(a / 2, b / 2, k - 1);
    }
  }

  /** The words that have digit `k`. */
  ghost function WordsWith(words: seq<Word>, k: nat): set<nat> {
    set i: nat | i < |words| && Bit(words[i], k)
  }

  lemma WordsWithSnoc(words: seq<Word>, k: nat)
    requires words != []
    ensures var n := |words| - 1;
            |WordsWith(words, k)| == |WordsWith(words[..n], k)| + if Bit(words[n], k) then 1 else 0
  {
    var n := |words| - 1;
    var before := WordsWith(words[..n], k);
    assert n !in before;
    assert WordsWith(words, k) == before + if Bit(words[n], k) then {n} else {};
  }

  lemma {:induction false} XorsBit(words: seq<Word>, seed: Word, k: nat)
    ensures Bit(Xors(words, seed), k) <==> Bit(seed, k) != (|WordsWith(words, k)| % 2 == 1)
  {
    if words == [] {
      assert WordsWith(words, k) == {};
    } else {
      var n := |words| - 1;
      XorsBit(words[..n], seed, k);
      XorBit(Xors(words[..n], seed), words[n], k);
      WordsWithSnoc(words, k);
    }
  }

  /** Digit `k` of the hash is that of the size of the set, flipped once for each word that has it. */
  lemma HashMeaning(words: seq<Word>, ids: set<nat>, k: nat)
    requires Represents(words, ids)
    ensures Bit(HashOf(words), k) <==>
            Bit(|ids| % 0x1_0000_0000_0000_0000, k) != (|WordsWith(words, k)| % 2 == 1)
  {
    PopCountIsSize(words, ids);
    XorsBit(words, PopCount(words) % 0x1_0000_0000_0000_0000, k);
  }

  lemma DivideTwice(w: nat, m: nat)
    requires m > 0
    ensures w / (2 * m) == w / 2 / m
  {
    var h := w / 2;
    var q, r := h / m, h % m;
    assert h == q * m + r;
    assert w == q * (2 * m) + (2 * r + w % 2);
    Quotient(w, 2 * m, q, 2 * r + w % 2);
  }

  lemma Quotient(a: nat, b: nat, q: nat, r: nat)
    requires b > 0 && a == q * b + r && r < b
    ensures a / b == q
  {
    var p := a / b;
    assert a == p * b + a % b;
    if p < q {
      Multiples(p, q, b);
    } else if q < p {
      Multiples(q, p, b);
    }
  }

  lemma Multiples(p: nat, q: nat, b: nat)
    requires p < q
    ensures p * b + b <= q * b
  {
    var d := q - p - 1;
    assert q * b == (p + 1 + d) * b == p * b + b + d * b;
  }

  /** Digits count from the low end. */
  lemma {:induction false} BitMeaning(w: nat, k: nat)
    ensures Bit(w, k) <==> w / Mask(k) % 2 == 1
  {
    if k > 0 {
      BitMeaning(w / 2, k - 1);
      DivideTwice(w, Mask(k - 1));
    }
  }

  /** Position `pos` is digit `pos % 64` of word `pos / 64`. */
  lemma MemberMeaning(words: seq<Word>, pos: nat)
    ensures Member(words, pos) <==> pos / 64 < |words| && words[pos / 64] / Mask(pos % 64) % 2 == 1
  {
    if pos / 64 < |words| {
      BitMeaning(words[pos / 64], pos % 64);
    }
  }

  method Hash(b: array<Word>, ghost ids: set<nat>) returns (hash: Word)
    requires Represents(b[..], ids)
    ensures hash == HashOf(b[..])
    ensures forall c: seq<Word> :: |c| == b.Length && Represents(c, ids) ==> HashOf(c) == hash
  {
    SameHash(b[..], ids);
    var count := PopCnt(b, ids);
    var seed: Word := count % 0x1_0000_0000_0000_0000;
    hash := seed;
    for i := 0 to b.Length
      invariant hash == Xors(b[..i], seed)
    {
      assert b[..i + 1][..i] == b[..i];
      hash := WordXor(hash, b[i]);
    }
    assert b[..b.Length] == b[..];
  }

  method Equals(b: array<Word>, c: array<Word>, ghost bIds: set<nat>, ghost cIds: set<nat>) returns (same: bool)
    requires Represents(b[..], bIds) && Represents(c[..], cIds)
    ensures same <==> b[..] == c[..]
    ensures b.Length == c.Length ==> (same <==> bIds == cIds)
  {
    same := b.Length == c.Length;
    if same {
      var i := 0;
      while i < b.Length && b[i] == c[i]
        invariant 0 <= i <= b.Length
        invariant b[..i] == c[..i]
      {
        i := i + 1;
      }
      same := i == b.Length;
      assert same ==> b[..] == b[..i] && c[..] == c[..i];
      assert !same ==> b[..][i] != c[..][i];
      if bIds == cIds {
        RepresentationIsUnique(b[..], c[..], bIds);
      }
      if same {
        forall p: nat ensures p in bIds <==> p in cIds {
          assert Member(b[..], p) <==> p in bIds;
        }
      }
    }
  }
}
