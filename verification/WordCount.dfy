/** Word count run as a MapReduce job: what its output files say. */
module WordCount {
  import opened KeyValues
  import opened Outputs
  import opened Jobs
  import opened Completion
  import opened MapReduce
  import opened MrApps
  import Tasks
  import Strings

  /** A job with word count's map and reduce functions. */
  ghost predicate CountsWords(job: MrJob, isLetter: char -> bool) {
    && (forall name, text :: job.mapf(name, text) == WcPairs(text, isLetter))
    && job.reducef == WcReduce
  }

  function WordsIn(job: MrJob, isLetter: char -> bool, i: nat): seq<string>
    requires InputsExist(job) && i < |job.files|
  {
    WordsOf(job.input[job.files[i]], isLetter)
  }

  /** How often a word occurs in the first `m` files. */
  ghost function CountIn(job: MrJob, isLetter: char -> bool, w: string, m: nat): nat
    requires InputsExist(job) && m <= |job.files|
  {
    if m == 0 then 0 else CountIn(job, isLetter, w, m - 1) + Occurrences(WordsIn(job, isLetter, m - 1), w)
  }

  ghost predicate Occurs(job: MrJob, isLetter: char -> bool, w: string)
    requires InputsExist(job)
  {
    exists i: nat :: i < |job.files| && w in WordsIn(job, isLetter, i)
  }

  /** The line of a word: the word and how often it occurs in all files. */
  ghost function WordLine(job: MrJob, isLetter: char -> bool, w: string): string
    requires InputsExist(job)
  {
    w + " " + Strings.Itoa(CountIn(job, isLetter, w, |job.files|)) + "\n"
  }

  lemma {:induction false} ValuesConcat(a: seq<KeyValue>, b: seq<KeyValue>, key: string)
    ensures ValuesOf(a + b, key) == ValuesOf(a, key) + ValuesOf(b, key)
    decreases |b|
  {
    if b == [] {
      assert a + b == a;
    } else {
      ValuesConcat(a, b[..|b| - 1], key);
      assert (a + b)[..|a + b| - 1] == a + b[..|b| - 1];
    }
  }

  lemma {:induction false} CountsAdd(job: MrJob, isLetter: char -> bool, w: string, m: nat)
    requires InputsExist(job) && CountsWords(job, isLetter) && m <= |job.files|
    ensures |ValuesOf(AllPairs(job, m), w)| == CountIn(job, isLetter, w, m)
    decreases m
  {
    if m > 0 {
      CountsAdd(job, isLetter, w, m - 1);
      ValuesConcat(AllPairs(job, m - 1), Mapped(job, m - 1), w);
      WcCounts(WordsIn(job, isLetter, m - 1), Mapped(job, m - 1), w);
    }
  }

  lemma CountedLine(job: MrJob, isLetter: char -> bool, w: string)
    requires InputsExist(job) && CountsWords(job, isLetter)
    ensures Line(WcReduce, AllPairs(job, |job.files|), w) == WordLine(job, isLetter, w)
  {
    CountsAdd(job, isLetter, w, |job.files|);
  }

  lemma {:induction false} KeysAreWords(job: MrJob, isLetter: char -> bool, w: string, m: nat)
    requires InputsExist(job) && CountsWords(job, isLetter) && m <= |job.files|
    ensures w in KeysOf(AllPairs(job, m)) <==> exists i: nat :: i < m && w in WordsIn(job, isLetter, i)
    decreases m
  {
    if m > 0 {
      KeysAreWords(job, isLetter, w, m - 1);
      var before, more, words := AllPairs(job, m - 1), Mapped(job, m - 1), WordsIn(job, isLetter, m - 1);
      KeysConcat(before, more);
      assert more == WcPairs(job.input[job.files[m - 1]], isLetter);
      assert w in KeysOf(more) <==> w in words;
    }
  }

  lemma KeysConcat(a: seq<KeyValue>, b: seq<KeyValue>)
    ensures KeysOf(a + b) == KeysOf(a) + KeysOf(b)
  {
    forall key ensures key in KeysOf(a + b) <==> key in KeysOf(a) + KeysOf(b) {
      if key in KeysOf(a) {
        var i :| 0 <= i < |a| && a[i].key == key;
        assert (a + b)[i].key == key;
      }
      if key in KeysOf(b) {
        var i :| 0 <= i < |b| && b[i].key == key;
        assert (a + b)[|a| + i].key == key;
      }
    }
  }

  lemma SpaceAt(v: string, x: string, k: nat)
    requires ' ' !in v && k < |v + " " + x| && (v + " " + x)[k] == ' '
    ensures k >= |v|
  {
    assert forall m :: 0 <= m < |v| ==> (v + " " + x)[m] == v[m];
  }

  /** Words without a space have different lines. */
  lemma LinesDiffer(v: string, w: string, x: string, y: string)
    requires ' ' !in v && ' ' !in w && v + " " + x == w + " " + y
    ensures v == w
  {
    assert (v + " " + x)[|v|] == ' ' && (w + " " + y)[|w|] == ' ';
    SpaceAt(v, x, |w|);
    SpaceAt(w, y, |v|);
    assert (v + " " + x)[..|v|] == v && (w + " " + y)[..|w|] == w;
  }

  lemma NoSpace(job: MrJob, isLetter: char -> bool, w: string)
    requires InputsExist(job) && Occurs(job, isLetter, w) && !isLetter(' ')
    ensures ' ' !in w
  {
    var i: nat :| i < |job.files| && w in WordsIn(job, isLetter, i);
    FieldsSpell(job.input[job.files[i]], isLetter, "");
    var k :| 0 <= k < |WordsIn(job, isLetter, i)| && WordsIn(job, isLetter, i)[k] == w;
  }

  /** The lines are one for every word of the input, saying how often it occurs in all files, and no
      other. If a space is not a letter, each of them is there exactly once. */
  ghost predicate Counted(job: MrJob, isLetter: char -> bool, lines: multiset<string>)
    requires InputsExist(job)
  {
    && (forall line :: line in lines <==>
          exists word :: Occurs(job, isLetter, word) && line == WordLine(job, isLetter, word))
    && (!isLetter(' ') ==> forall word :: Occurs(job, isLetter, word) ==> lines[WordLine(job, isLetter, word)] == 1)
  }

  lemma LinesCounted(job: MrJob, isLetter: char -> bool)
    requires Readable(job) && CountsWords(job, isLetter)
    ensures Counted(job, isLetter, Together(AllLinesOf(job)))
  {
    PartitionsTogether(job);
    var all, lines := AllPairs(job, |job.files|), Together(AllLinesOf(job));
    forall word ensures word in KeysOf(all) <==> Occurs(job, isLetter, word) {
      KeysAreWords(job, isLetter, word, |job.files|);
    }
    forall word ensures Line(WcReduce, all, word) == WordLine(job, isLetter, word) {
      CountedLine(job, isLetter, word);
    }
    forall line ensures line in lines <==>
        exists word :: Occurs(job, isLetter, word) && line == WordLine(job, isLetter, word) {
      LineFrom(all, KeysOf(all), lines, line);
    }
    if !isLetter(' ') {
      forall word | Occurs(job, isLetter, word) ensures lines[WordLine(job, isLetter, word)] == 1 {
        OnlyOne(job, isLetter, all, lines, word);
      }
    }
  }

  /** In every run of word count that reaches the finished phase, the files count the words, unless
      somebody is writing the first of them. */
  lemma WordsCounted(job: MrJob, isLetter: char -> bool, started: seq<nat>, run: seq<World>, w: World)
    requires ValidJob(job) && CountsWords(job, isLetter)
    requires IsRun(job, started, run) && w == run[|run| - 1] && w.sys.coord.phase == Tasks.FinishedPhase
    requires !exists q: nat :: WritesTo(w, q, 0)
    ensures AllRight(job, w.out) && Counted(job, isLetter, Together(AllLinesOf(job)))
  {
    FinishedOutput(job, started, run, w);
    LinesCounted(job, isLetter);
  }

  /** Every fair run of word count comes to that. */
  lemma WordsGetCounted(job: MrJob, isLetter: char -> bool, started: seq<nat>, run: nat -> World, who: nat -> nat)
    requires ValidJob(job) && CountsWords(job, isLetter) && FairRun(job, started, run, who) && started != []
    ensures exists end: nat :: OverFrom(job, run, end)
    ensures Counted(job, isLetter, Together(AllLinesOf(job)))
  {
    JobCompletes(job, started, run, who);
    LinesCounted(job, isLetter);
  }

  lemma LineFrom(s: seq<KeyValue>, keys: set<string>, bag: multiset<string>, line: string)
    requires IsBag(WcReduce, s, keys, bag)
    ensures line in bag <==> exists key :: key in keys && Line(WcReduce, s, key) == line
  {
    var from := KeysWith(WcReduce, s, keys, line);
    assert bag[line] == |from|;
    if line in bag {
      var key :| key in from;
    }
    if key :| key in keys && Line(WcReduce, s, key) == line {
      assert key in from;
    }
  }

  lemma OnlyOne(job: MrJob, isLetter: char -> bool, s: seq<KeyValue>, bag: multiset<string>, word: string)
    requires InputsExist(job) && OutputOf(WcReduce, s, bag) && !isLetter(' ') && Occurs(job, isLetter, word)
    requires forall key :: key in KeysOf(s) <==> Occurs(job, isLetter, key)
    requires forall key :: Line(WcReduce, s, key) == WordLine(job, isLetter, key)
    ensures bag[WordLine(job, isLetter, word)] == 1
  {
    var line := WordLine(job, isLetter, word);
    var from := KeysWith(WcReduce, s, KeysOf(s), line);
    forall key ensures key in from <==> key == word {
      if key in from {
        NoSpace(job, isLetter, key);
        NoSpace(job, isLetter, word);
        assert Line(WcReduce, s, key) == key + " " + (WcReduce(key, ValuesOf(s, key)) + "\n");
        assert Line(WcReduce, s, word) == word + " " + (WcReduce(word, ValuesOf(s, word)) + "\n");
        LinesDiffer(key, word, WcReduce(key, ValuesOf(s, key)) + "\n", WcReduce(word, ValuesOf(s, word)) + "\n");
      }
    }
    assert from == {word};
  }
}
