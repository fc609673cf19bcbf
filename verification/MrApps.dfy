/** The word-count and indexer applications: their map functions, and why their reduce functions do
    not depend on the order of the values.
    Where a predicate names its conjunction `holds`, it is proved and used as one fact. */
module MrApps {
  import opened Histories
  import opened Sorting
  import opened KeyValues
  import opened Outputs
  import Strings

  // ---------------------------------------------------------------- words

  /** The maximal runs of letters: `word` is the run that ends right before the rest of the text. */
  function Fields(text: string, isLetter: char -> bool, word: string): seq<string> {
    var ended := if word == "" then [] else [word];
    if text == "" then ended
    else if isLetter(text[0]) then Fields(text[1..], isLetter, word + [text[0]])
    else ended + Fields(text[1..], isLetter, "")
  }

  function WordsOf(text: string, isLetter: char -> bool): seq<string> {
    Fields(text, isLetter, "")
  }

  function Letters(text: string, isLetter: char -> bool): string {
    if text == "" then "" else (if isLetter(text[0]) then [text[0]] else "") + Letters(text[1..], isLetter)
  }

  function Flat(words: seq<string>): string {
    if words == [] then "" else words[0] + Flat(words[1..])
  }

  /** Words are not empty, consist of letters only, and together spell the letters of the text. */
  lemma {:induction false} FieldsSpell(text: string, isLetter: char -> bool, word: string)
    requires forall k :: 0 <= k < |word| ==> isLetter(word[k])
    ensures forall i :: 0 <= i < |Fields(text, isLetter, word)| ==> Fields(text, isLetter, word)[i] != ""
    ensures forall i, k :: 0 <= i < |Fields(text, isLetter, word)| && 0 <= k < |Fields(text, isLetter, word)[i]| ==>
              isLetter(Fields(text, isLetter, word)[i][k])
    ensures Flat(Fields(text, isLetter, word)) == word + Letters(text, isLetter)
    decreases |text|
  {
    if text != "" {
      if isLetter(text[0]) {
        FieldsSpell(text[1..], isLetter, word + [text[0]]);
      } else {
        FieldsSpell(text[1..], isLetter, "");
        var rest := Fields(text[1..], isLetter, "");
        if word != "" {
          assert ([word] + rest)[1..] == rest;
        } else {
          assert [] + rest == rest;
        }
      }
    }
  }

  /** A maximal run of letters. */
  predicate IsWordAt(text: string, isLetter: char -> bool, i: nat, j: nat) {
    && i < j <= |text|
    && (forall p :: i <= p < j ==> isLetter(text[p]))
    && (i > 0 ==> !isLetter(text[i - 1]))
    && (j < |text| ==> !isLetter(text[j]))
  }

  datatype Span = Span(from: nat, to: nat)

  predicate RunAt(text: string, isLetter: char -> bool, span: Span, word: string) {
    IsWordAt(text, isLetter, span.from, span.to) && word == text[span.from..span.to]
  }

  predicate Ordered(start: nat, spans: seq<Span>) {
    && (forall k :: 0 <= k < |spans| ==> start <= spans[k].from)
    && (forall k, l :: 0 <= k < l < |spans| ==> spans[k].to <= spans[l].from)
  }

  ghost predicate Spanned(spans: seq<Span>, p: nat) {
    exists k :: 0 <= k < |spans| && spans[k].from <= p < spans[k].to
  }

  ghost predicate Complete(text: string, isLetter: char -> bool, start: nat, spans: seq<Span>) {
    forall p: nat :: start <= p < |text| && isLetter(text[p]) ==> Spanned(spans, p)
  }

  /** `words` are the maximal runs of letters of the text from `start` on, all of them, in order; `spans`
      says where they stand. */
  ghost predicate AreRuns(text: string, isLetter: char -> bool, start: nat, spans: seq<Span>, words: seq<string>) {
    var holds :=
      && |spans| == |words|
      && (forall k :: 0 <= k < |spans| ==> RunAt(text, isLetter, spans[k], words[k]))
      && Ordered(start, spans)
      && Complete(text, isLetter, start, spans);
    holds
  }

  /** The three ways to go on from position `k`, behind the letters from `start` on. */
  lemma FieldsStep(text: string, isLetter: char -> bool, start: nat, k: nat)
    requires start <= k <= |text|
    ensures var ended := if start < k then [text[start..k]] else [];
            Fields(text[k..], isLetter, text[start..k]) ==
            if k == |text| then ended
            else if isLetter(text[k]) then Fields(text[k + 1..], isLetter, text[start..k + 1])
            else ended + Fields(text[k + 1..], isLetter, text[k + 1..k + 1])
  {
    if k < |text| {
      assert text[k..][1..] == text[k + 1..] && text[k + 1..k + 1] == "";
      assert text[start..k] + [text[k]] == text[start..k + 1];
    }
  }

  lemma {:induction false} FieldsAreRuns(text: string, isLetter: char -> bool, start: nat, k: nat)
    returns (spans: seq<Span>)
    requires start <= k <= |text| && (start > 0 ==> !isLetter(text[start - 1]))
    requires forall p :: start <= p < k ==> isLetter(text[p])
    ensures AreRuns(text, isLetter, start, spans, Fields(text[k..], isLetter, text[start..k]))
    decreases |text| - k
  {
    var words := Fields(text[k..], isLetter, text[start..k]);
    FieldsStep(text, isLetter, start, k);
    if k == |text| {
      spans := FieldsEnd(text, isLetter, start, words);
    } else if isLetter(text[k]) {
      spans := FieldsAreRuns(text, isLetter, start, k + 1);
    } else {
      spans := FieldsAreRuns(text, isLetter, k + 1, k + 1);
      spans := RunsBefore(text, isLetter, start, k, spans, Fields(text[k + 1..], isLetter, text[k + 1..k + 1]));
    }
  }

  lemma FieldsEnd(text: string, isLetter: char -> bool, start: nat, words: seq<string>) returns (spans: seq<Span>)
    requires start <= |text| && (start > 0 ==> !isLetter(text[start - 1]))
    requires forall p :: start <= p < |text| ==> isLetter(text[p])
    requires words == if start < |text| then [text[start..|text|]] else []
    ensures AreRuns(text, isLetter, start, spans, words)
  {
    spans := LastRun(text, isLetter, start);
    assert text[start..|text|] == text[start..];
  }

  lemma LastRun(text: string, isLetter: char -> bool, start: nat) returns (spans: seq<Span>)
    requires start <= |text| && (start > 0 ==> !isLetter(text[start - 1]))
    requires forall p :: start <= p < |text| ==> isLetter(text[p])
    ensures AreRuns(text, isLetter, start, spans, if start < |text| then [text[start..]] else [])
  {
    spans := if start < |text| then [Span(start, |text|)] else [];
    forall p: nat | start <= p < |text| ensures Spanned(spans, p) {
      assert spans[0] == Span(start, |text|);
    }
  }

  /** The runs behind position `k`, and before them the run that ends there if there is one. */
  lemma RunsBefore(text: string, isLetter: char -> bool, start: nat, k: nat, rest: seq<Span>, words: seq<string>)
    returns (spans: seq<Span>)
    requires start <= k < |text| && (start > 0 ==> !isLetter(text[start - 1])) && !isLetter(text[k])
    requires forall p :: start <= p < k ==> isLetter(text[p])
    requires AreRuns(text, isLetter, k + 1, rest, words)
    ensures AreRuns(text, isLetter, start, spans, (if start < k then [text[start..k]] else []) + words)
  {
    if start < k {
      spans := [Span(start, k)] + rest;
      OrderedBefore(Span(start, k), rest);
      CompleteBefore(text, isLetter, start, k, rest);
      RunsCons(text, isLetter, Span(start, k), rest, words);
    } else {
      spans := rest;
      assert [] + words == words;
    }
  }

  lemma RunsCons(text: string, isLetter: char -> bool, span: Span, rest: seq<Span>, words: seq<string>)
    requires IsWordAt(text, isLetter, span.from, span.to)
    requires |rest| == |words| && forall k :: 0 <= k < |rest| ==> RunAt(text, isLetter, rest[k], words[k])
    ensures forall k :: 0 <= k < |rest| + 1 ==>
              RunAt(text, isLetter, ([span] + rest)[k], ([text[span.from..span.to]] + words)[k])
  {
    var spans, all := [span] + rest, [text[span.from..span.to]] + words;
    forall k | 0 <= k < |rest| + 1 ensures RunAt(text, isLetter, spans[k], all[k]) {
      if k > 0 {
        assert RunAt(text, isLetter, rest[k - 1], words[k - 1]);
      }
    }
  }

  lemma OrderedBefore(span: Span, rest: seq<Span>)
    requires span.from <= span.to && Ordered(span.to + 1, rest)
    ensures Ordered(span.from, [span] + rest)
  {
    var spans := [span] + rest;
    forall k | 0 <= k < |spans| ensures span.from <= spans[k].from {
      if k > 0 {
        assert spans[k] == rest[k - 1];
      }
    }
    forall k, l | 0 <= k < l < |spans| ensures spans[k].to <= spans[l].from {
      assert spans[l] == rest[l - 1];
      if k > 0 {
        assert spans[k] == rest[k - 1];
      }
    }
  }

  lemma CompleteBefore(text: string, isLetter: char -> bool, start: nat, k: nat, rest: seq<Span>)
    requires start < k < |text| && !isLetter(text[k]) && Complete(text, isLetter, k + 1, rest)
    ensures Complete(text, isLetter, start, [Span(start, k)] + rest)
  {
    var spans := [Span(start, k)] + rest;
    forall p: nat | start <= p < |text| && isLetter(text[p]) ensures Spanned(spans, p) {
      if p < k {
        assert spans[0] == Span(start, k);
      } else {
        assert Spanned(rest, p);
        var l :| 0 <= l < |rest| && rest[l].from <= p < rest[l].to;
        assert spans[l + 1] == rest[l];
      }
    }
  }

  /** The words of a text are its maximal runs of letters. */
  lemma WordsAreRuns(text: string, isLetter: char -> bool) returns (spans: seq<Span>)
    ensures AreRuns(text, isLetter, 0, spans, WordsOf(text, isLetter))
  {
    spans := FieldsAreRuns(text, isLetter, 0, 0);
    assert text[0..] == text && text[0..0] == "";
  }

  ghost function Occurrences(words: seq<string>, w: string): nat {
    multiset(words)[w]
  }

  // ---------------------------------------------------------------- word count

  /** One pair for each word, in order. */
  function WcPairs(contents: string, isLetter: char -> bool): (kva: seq<KeyValue>)
    ensures |kva| == |WordsOf(contents, isLetter)|
    ensures forall i :: 0 <= i < |kva| ==> kva[i] == KeyValue(WordsOf(contents, isLetter)[i], "1")
  {
    var words := WordsOf(contents, isLetter);
    seq(|words|, i requires 0 <= i < |words| => KeyValue(words[i], "1"))
  }

  method WcMap(contents: string, isLetter: char -> bool) returns (kva: seq<KeyValue>)
    ensures kva == WcPairs(contents, isLetter)
  {
    var words := WordsOf(contents, isLetter);
    kva := [];
    for i := 0 to |words|
      invariant |kva| == i
      invariant forall j :: 0 <= j < i ==> kva[j] == KeyValue(words[j], "1")
    {
      kva := kva + [KeyValue(words[i], "1")];
    }
  }

  function WcReduce(key: string, values: seq<string>): string {
    Strings.Itoa(|values|)
  }

  lemma WcInsensitive()
    ensures Insensitive(WcReduce)
  {
    forall key, v: seq<string>, w: seq<string> | multiset(v) == multiset(w)
      ensures WcReduce(key, v) == WcReduce(key, w) {
      assert |multiset(v)| == |v| && |multiset(w)| == |w|;
    }
  }

  /** The line for a word says how often it occurs in the text. */
  lemma {:induction false} WcCounts(words: seq<string>, kva: seq<KeyValue>, w: string)
    requires |kva| == |words| && forall i :: 0 <= i < |kva| ==> kva[i] == KeyValue(words[i], "1")
    ensures |ValuesOf(kva, w)| == Occurrences(words, w)
    ensures Line(WcReduce, kva, w) == w + " " + Strings.Itoa(Occurrences(words, w)) + "\n"
  {
    if words != [] {
      var n := |words| - 1;
      WcCounts(words[..n], kva[..n], w);
      assert words == words[..n] + [words[n]];
    }
  }

  // ---------------------------------------------------------------- indexer

  /** One pair for every different word of the document, in any order. */
  ghost predicate IndexPairs(document: string, words: seq<string>, res: seq<KeyValue>) {
    && Distinct(res)
    && forall kv :: kv in res <==> kv.value == document && kv.key in words
  }

  method IndexerMap(document: string, value: string, isLetter: char -> bool) returns (res: seq<KeyValue>)
    ensures IndexPairs(document, WordsOf(value, isLetter), res)
  {
    var words := WordsOf(value, isLetter);
    var m := CollectWords(words);
    res := PairsFor(document, m.Keys);
  }

  method CollectWords(words: seq<string>) returns (m: map<string, bool>)
    ensures forall w :: w in m <==> w in words
  {
    m := map[];
    for i := 0 to |words|
      invariant forall w :: w in m <==> w in words[..i]
    {
      assert words[..i + 1] == words[..i] + [words[i]];
      m := m[words[i] := true];
    }
    assert words[..|words|] == words;
  }

  /** Ranging over the words of a map. */
  method PairsFor(document: string, words: set<string>) returns (res: seq<KeyValue>)
    ensures Distinct(res)
    ensures forall kv :: kv in res <==> kv.value == document && kv.key in words
  {
    res := [];
    var left := words;
    while left != {}
      invariant left <= words && Distinct(res)
      invariant forall kv :: kv in res <==> kv.value == document && kv.key in words && kv.key !in left
    {
      var w :| w in left;
      assert KeyValue(w, document) !in res;
      res, left := res + [KeyValue(w, document)], left - {w};
    }
  }

  /** However the map is ranged over, the pairs are the same up to their order. */
  lemma IndexPairsPermuted(document: string, words: seq<string>, a: seq<KeyValue>, b: seq<KeyValue>)
    requires IndexPairs(document, words, a) && IndexPairs(document, words, b)
    ensures multiset(a) == multiset(b)
  {
    forall kv ensures multiset(a)[kv] == multiset(b)[kv] {
      Multiplicity(a, kv);
      Multiplicity(b, kv);
      assert kv in multiset(a) <==> kv in a;
      assert kv in multiset(b) <==> kv in b;
    }
  }

  function InsertString(s: seq<string>, x: string): seq<string> {
    if s == [] || Strings.Less(x, s[0]) then [x] + s else [s[0]] + InsertString(s[1..], x)
  }

  function SortStrings(s: seq<string>): seq<string> {
    if s == [] then [] else InsertString(SortStrings(s[..|s| - 1]), s[|s| - 1])
  }

  lemma FrontOfSorted(s: seq<string>, x: string, j: nat)
    requires Sorted(Strings.Less, s) && j < |s| && Strings.Less(x, s[0])
    ensures !Strings.Less(s[j], x)
  {
    Strings.LessAsymmetric(x, s[0]);
    IrreflexiveLess(s[0]);
    if Strings.Less(s[j], x) {
      LessTrans(s[j], x, s[0]);
    }
  }

  lemma {:induction false} InsertStringBag(s: seq<string>, x: string)
    ensures multiset(InsertString(s, x)) == multiset(s) + multiset{x}
  {
    if s != [] && !Strings.Less(x, s[0]) {
      InsertStringBag(s[1..], x);
      assert s == [s[0]] + s[1..];
    }
  }

  lemma InsertedIs(s: seq<string>, x: string, j: nat)
    requires j < |InsertString(s, x)|
    ensures InsertString(s, x)[j] in s || InsertString(s, x)[j] == x
  {
    InsertStringBag(s, x);
    var y := InsertString(s, x)[j];
    assert y in multiset(InsertString(s, x));
    assert y in multiset(s) || y == x;
  }

  lemma {:induction false} InsertStringSorted(s: seq<string>, x: string)
    requires Sorted(Strings.Less, s)
    ensures Sorted(Strings.Less, InsertString(s, x))
  {
    if s == [] {
    } else if Strings.Less(x, s[0]) {
      forall j | 0 <= j < |s| ensures !Strings.Less(s[j], x) {
        FrontOfSorted(s, x, j);
      }
    } else {
      InsertStringSorted(s[1..], x);
      forall j | 0 <= j < |InsertString(s[1..], x)| ensures !Strings.Less(InsertString(s[1..], x)[j], s[0]) {
        InsertedIs(s[1..], x, j);
      }
    }
  }

  lemma {:induction false} SortStringsSorts(s: seq<string>)
    ensures SortOf(Strings.Less, s, SortStrings(s))
  {
    if s != [] {
      SortStringsSorts(s[..|s| - 1]);
      InsertStringSorted(SortStrings(s[..|s| - 1]), s[|s| - 1]);
      InsertStringBag(SortStrings(s[..|s| - 1]), s[|s| - 1]);
      assert s == s[..|s| - 1] + [s[|s| - 1]];
    }
  }

  /** Strings have one sorted order: the first of each is a smallest of the same strings. */
  lemma {:induction false} SortedUnique(a: seq<string>, b: seq<string>)
    requires Sorted(Strings.Less, a) && Sorted(Strings.Less, b) && multiset(a) == multiset(b)
    ensures a == b
    decreases |a|
  {
    assert |multiset(a)| == |a| && |multiset(b)| == |b|;
    if a != [] {
      FirstsAgree(a, b);
      assert a == [a[0]] + a[1..] && b == [b[0]] + b[1..];
      assert multiset(a[1..]) == multiset(a) - multiset{a[0]};
      assert multiset(b[1..]) == multiset(b) - multiset{b[0]};
      SortedUnique(a[1..], b[1..]);
    }
  }

  lemma FirstsAgree(a: seq<string>, b: seq<string>)
    requires Sorted(Strings.Less, a) && Sorted(Strings.Less, b) && multiset(a) == multiset(b) && a != [] && b != []
    ensures a[0] == b[0]
  {
    PermutationMember(a, b, a[0]);
    PermutationMember(a, b, b[0]);
    var i :| 0 <= i < |b| && b[i] == a[0];
    var j :| 0 <= j < |a| && a[j] == b[0];
    IrreflexiveLess(a[0]);
    Strings.LessTotal(a[0], b[0]);
  }

  function Join(parts: seq<string>, separator: string): string {
    if parts == [] then "" else if |parts| == 1 then parts[0]
        else Join(parts[..|parts| - 1], separator) + separator + parts[|parts| - 1]
  }

  /** Where part `k` of a join begins. */
  function PartAt(parts: seq<string>, separator: string, k: nat): nat
    requires k <= |parts|
  {
    if k == 0 then 0 else PartAt(parts, separator, k - 1) + |parts[k - 1]| + |separator|
  }

  /** The text is the parts in order, with a separator between each and the next, and nothing else. */
  ghost predicate IsJoin(parts: seq<string>, separator: string, text: string) {
    && |text| == (if parts == [] then 0 else PartAt(parts, separator, |parts| - 1) + |parts[|parts| - 1]|)
    && forall k :: 0 <= k < |parts| ==> PartStands(parts, separator, text, k)
  }

  ghost predicate PartStands(parts: seq<string>, separator: string, text: string, k: nat)
    requires k < |parts|
  {
    var from, to := PartAt(parts, separator, k), PartAt(parts, separator, k) + |parts[k]|;
    && to <= |text| && text[from..to] == parts[k]
    && (k + 1 < |parts| ==> to + |separator| <= |text| && text[to..to + |separator|] == separator)
  }

  lemma {:induction false} PartAtPrefix(parts: seq<string>, separator: string, n: nat, k: nat)
    requires k <= n <= |parts|
    ensures PartAt(parts[..n], separator, k) == PartAt(parts, separator, k)
  {
    if k > 0 {
      PartAtPrefix(parts, separator, n, k - 1);
    }
  }

  lemma {:induction false} JoinMeaning(parts: seq<string>, separator: string)
    ensures IsJoin(parts, separator, Join(parts, separator))
    decreases |parts|
  {
    if |parts| > 1 {
      var n := |parts| - 1;
      var before, text := Join(parts[..n], separator), Join(parts, separator);
      JoinMeaning(parts[..n], separator);
      PartAtPrefix(parts, separator, n, n - 1);
      forall k | 0 <= k < |parts| ensures PartStands(parts, separator, text, k) {
        if k < n {
          PartAtPrefix(parts, separator, n, k);
          JoinedPart(parts, separator, before, text, n, k);
        } else {
          assert text[|before| + |separator|..] == parts[n];
        }
      }
    } else if |parts| == 1 {
      assert PartAt(parts, separator, 0) == 0;
      assert PartStands(parts, separator, parts[0], 0);
    }
  }

  lemma JoinedPart(parts: seq<string>, separator: string, before: string, text: string, n: nat, k: nat)
    requires 0 < n == |parts| - 1 && k < n && text == before + separator + parts[n]
    requires |before| == PartAt(parts, separator, n - 1) + |parts[n - 1]|
    requires PartAt(parts[..n], separator, k) == PartAt(parts, separator, k)
    requires PartStands(parts[..n], separator, before, k)
    ensures PartStands(parts, separator, text, k)
  {
    var from, to := PartAt(parts, separator, k), PartAt(parts, separator, k) + |parts[k]|;
    assert parts[..n][k] == parts[k];
    assert text[from..to] == before[from..to];
    if k + 1 < n {
      assert text[to..to + |separator|] == before[to..to + |separator|];
    } else {
      assert text[to..to + |separator|] == separator;
    }
  }

  function IndexerReduce(key: string, values: seq<string>): string {
    Strings.Itoa(|values|) + " " + Join(SortStrings(values), ",")
  }

  /** The indexer's reduce sorts its argument in place; any sort gives the same answer. */
  method IndexerReduceInPlace(key: string, values0: seq<string>) returns (result: string, values: seq<string>)
    ensures SortOf(Strings.Less, values0, values)
    ensures result == IndexerReduce(key, values0)
  {
    Strings.LessIsOrder();
    values := Sort(values0, Strings.Less);
    SortStringsSorts(values0);
    SortedUnique(values, SortStrings(values0));
    assert |multiset(values)| == |values| && |multiset(values0)| == |values0|;
    result := Strings.Itoa(|values|) + " " + Join(values, ",");
  }

  /** The answer is the number of documents and the documents in any sorted order. */
  lemma IndexerMeaning(key: string, values: seq<string>, sorted: seq<string>)
    requires SortOf(Strings.Less, values, sorted)
    ensures IndexerReduce(key, values) == Strings.Itoa(|sorted|) + " " + Join(sorted, ",")
    ensures IsJoin(sorted, ",", Join(sorted, ","))
  {
    JoinMeaning(sorted, ",");
    SortStringsSorts(values);
    SortedUnique(sorted, SortStrings(values));
    assert |multiset(sorted)| == |sorted| && |multiset(values)| == |values|;
  }

  lemma IndexerInsensitive()
    ensures Insensitive(IndexerReduce)
  {
    forall key, v: seq<string>, w: seq<string> | multiset(v) == multiset(w)
      ensures IndexerReduce(key, v) == IndexerReduce(key, w) {
      assert |multiset(v)| == |v| && |multiset(w)| == |w|;
      SortStringsSorts(v);
      SortStringsSorts(w);
      SortedUnique(SortStrings(v), SortStrings(w));
    }
  }
}
