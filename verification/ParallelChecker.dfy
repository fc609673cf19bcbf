/** One checker goroutine per partition, and the loop that collects their verdicts: a state
    machine over the steps of all of them. */
module ParallelChecker {
  import opened Histories
  import opened Entries
  import opened Search
  import opened Checker

  datatype CheckResult = Unknown | Ok | Illegal

  /** What a call of `checkParallel` is given; `timeout` says whether a timer was started. */
  datatype Config<!S, !I, !O> = Config(m: Model<S, I, O>, parts: seq<seq<Entry<I, O>>>, computeInfo: bool,
      timeout: bool)

  ghost predicate ValidConfig<S(!new), I(!new), O(!new)>(c: Config<S, I, O>) {
    && ValidModel(c.m)
    && forall i :: 0 <= i < |c.parts| ==> WellFormed(c.parts[i])
  }

  /** A goroutine searches, has stored its longest linearizations, or has sent its verdict. */
  datatype Goroutine = Running | Stored(ok: bool) | Sent(ok: bool)

  /** A verdict in the channel. The collecting loop looks at `ok` only. */
  datatype Message = Message(from: nat, ok: bool)

  /** Where the collecting loop is: in its select, waiting for the rest, or returned. */
  datatype Place = Selecting | Waiting | Returned(result: CheckResult, partials: seq<seq<seq<nat>>>)

  type Longest = seq<Option<seq<nat>>>

  datatype State = State(go: seq<Goroutine>, longest: seq<Longest>, results: seq<Message>, kill: bool,
                         ok: bool, timedOut: bool, count: nat, place: Place)

  ghost predicate Lin<S, I, O>(c: Config<S, I, O>, i: nat)
    requires i < |c.parts|
  {
    WellFormed(c.parts[i]) && Linearizable(c.m, OpsOf(c.parts[i]))
  }

  /** What a search may report; `killed` says whether the flag is up when it ends. */
  ghost predicate Reports<S, I, O>(m: Model<S, I, O>, h: seq<Entry<I, O>>, computeInfo: bool, killed: bool, ok: bool,
        longest: Longest) {
    && WellFormed(h)
    && (ok ==> Linearizable(m, OpsOf(h)))
    && (!killed ==> (ok <==> Linearizable(m, OpsOf(h))))
    && LongestOk(m, OpsOf(h), longest)
    && (computeInfo && !killed ==> LongestCorrect(m, OpsOf(h), longest))
  }

  /** The body of a goroutine: the flag never goes down again, so a search that read it up at some
      turn ends with it up. */
  method RunGoroutine<S(!new), I(!new), O(!new)>(m: Model<S, I, O>, h: seq<Entry<I, O>>, computeInfo: bool,
        kill: nat -> bool, ghost killed: bool)
    returns (ok: bool, longest: Longest)
    requires ValidModel(m) && WellFormed(h)
    requires forall t :: kill(t) ==> killed
    ensures Reports(m, h, computeInfo, killed, ok, longest)
  {
    ok, longest := CheckSingle(m, h, computeInfo, kill);
  }

  // ---------------------------------------------------------------- steps

  ghost predicate Init<S, I, O>(c: Config<S, I, O>, s: State) {
    && |s.go| == |s.longest| == |c.parts|
    && (forall i :: 0 <= i < |s.go| ==> s.go[i] == Running && s.longest[i] == [])
    && s.results == []
    && !s.kill && s.ok && !s.timedOut && s.count == 0 && s.place == Selecting
  }

  /** Goroutine `i` ends its search and stores its longest linearizations. */
  ghost predicate Searches<S, I, O>(c: Config<S, I, O>, s: State, t: State, i: nat, ok: bool, l: Longest) {
    && i < |s.go| == |s.longest| == |c.parts|
    && s.go[i] == Running
    && Reports(c.m, c.parts[i], c.computeInfo, s.kill, ok, l)
    && t == s.(go := s.go[i := Stored(ok)], longest := s.longest[i := l])
  }

  /** It sends its verdict; the channel has room for one verdict from each. */
  ghost predicate Sends<S, I, O>(c: Config<S, I, O>, s: State, t: State, i: nat) {
    && i < |s.go|
    && s.go[i].Stored?
    && |s.results| < |c.parts|
    && t == s.(go := s.go[i := Sent(s.go[i].ok)], results := s.results + [Message(i, s.go[i].ok)])
  }

  function Verdict(ok: bool, timedOut: bool): CheckResult {
    if !ok then Illegal else if timedOut then Unknown else Ok
  }

  /** Leaving the select: with `computeInfo` the loop then waits for the other goroutines. */
  function Leave(computeInfo: bool, s: State): State {
    s.(place := if computeInfo then Waiting else Returned(Verdict(s.ok, s.timedOut), []))
  }

  ghost predicate Receives<S, I, O>(c: Config<S, I, O>, s: State, t: State) {
    && s.place == Selecting
    && s.results != []
    && var got := s.(results := s.results[1..], count := s.count + 1, ok := s.ok && s.results[0].ok);
       t == if !got.ok && !c.computeInfo then Leave(c.computeInfo, got.(kill := true))
            else if got.count >= |c.parts| then Leave(c.computeInfo, got)
            else got
  }

  ghost predicate TimesOut<S, I, O>(c: Config<S, I, O>, s: State, t: State) {
    && s.place == Selecting
    && c.timeout
    && t == Leave(c.computeInfo, s.(timedOut := true, kill := true))
  }

  /** Waiting for the rest: the verdicts are dropped. */
  ghost predicate Drains<S, I, O>(c: Config<S, I, O>, s: State, t: State) {
    && s.place == Waiting
    && s.count < |c.parts|
    && s.results != []
    && t == s.(results := s.results[1..], count := s.count + 1)
  }

  /** `partials` lists the different linearizations of `longest`. */
  ghost predicate Collects(longest: Longest, partials: seq<seq<nat>>) {
    && (forall k :: 0 <= k < |partials| ==> Some(partials[k]) in longest)
    && (forall i :: 0 <= i < |longest| && longest[i].Some? ==> longest[i].value in partials)
  }

  /** Reading every slot of `longest` and returning. */
  ghost predicate Reads<S, I, O>(c: Config<S, I, O>, s: State, t: State, partials: seq<seq<seq<nat>>>) {
    && s.place == Waiting
    && s.count >= |c.parts|
    && |partials| == |s.longest|
    && (forall i :: 0 <= i < |partials| ==> Collects(s.longest[i], partials[i]))
    && t == s.(place := Returned(Verdict(s.ok, s.timedOut), partials))
  }

  ghost predicate Step<S, I, O>(c: Config<S, I, O>, s: State, t: State) {
    || (exists i: nat, ok, l :: Searches(c, s, t, i, ok, l))
    || (exists i: nat :: Sends(c, s, t, i))
    || Receives(c, s, t)
    || TimesOut(c, s, t)
    || Drains(c, s, t)
    || (exists partials :: Reads(c, s, t, partials))
  }

  ghost predicate IsRun<S, I, O>(c: Config<S, I, O>, run: seq<State>) {
    && run != []
    && Init(c, run[0])
    && forall k :: 0 < k < |run| ==> Step(c, run[k - 1], run[k])
  }

  // ---------------------------------------------------------------- the invariant

  function SentCount(go: seq<Goroutine>): nat {
    if go == [] then 0 else SentCount(go[..|go| - 1]) + if go[|go| - 1].Sent? then 1 else 0
  }

  ghost predicate InChannel(s: State, i: nat) {
    exists k :: 0 <= k < |s.results| && s.results[k].from == i
  }

  /** What goroutine `i` has said is true, unless it was told to stop. */
  ghost predicate Honest<S, I, O>(c: Config<S, I, O>, s: State, i: nat)
    requires i < |s.go| == |s.longest| == |c.parts|
  {
    s.go[i] != Running ==> Reports(c.m, c.parts[i], c.computeInfo, s.kill, s.go[i].ok, s.longest[i])
  }

  ghost predicate ChannelOk(s: State) {
    forall k :: 0 <= k < |s.results| ==> s.results[k].from < |s.go| && s.go[s.results[k].from] == Sent(s.results[k].ok)
  }

  /** While the loop selects, nobody was told to stop, and every verdict taken out was a yes if
      `ok` still holds. */
  ghost predicate SelectingOk(s: State) {
    s.place == Selecting ==>
      && !s.kill && !s.timedOut
      && (s.ok ==> forall i :: 0 <= i < |s.go| && s.go[i].Sent? && !InChannel(s, i) ==> s.go[i].ok)
  }

  ghost predicate VerdictOk<S, I, O>(c: Config<S, I, O>, s: State) {
    && (!s.ok ==> exists i: nat :: i < |c.parts| && !Lin(c, i))
    && (s.timedOut ==> c.timeout)
    && (s.place != Selecting && s.ok && !s.timedOut ==> forall i: nat :: i < |c.parts| ==> Lin(c, i))
    && (s.place.Returned? ==> s.place.result == Verdict(s.ok, s.timedOut))
  }

  /** The loop goes on selecting only while a verdict is missing. */
  ghost predicate Inv<S, I, O>(c: Config<S, I, O>, s: State) {
    && Sound(c, s)
    && (s.place == Selecting && s.count >= |c.parts| ==> c.parts == [])
  }

  ghost predicate Sound<S, I, O>(c: Config<S, I, O>, s: State) {
    && |s.go| == |s.longest| == |c.parts|
    && (forall i: nat :: i < |s.go| ==> Honest(c, s, i))
    && ChannelOk(s)
    && s.count + |s.results| == SentCount(s.go)
    && SelectingOk(s)
    && VerdictOk(c, s)
    && ReturnedOk(c, s)
  }

  /** What was read of `longest` was complete: every goroutine had reported. */
  ghost predicate ReturnedOk<S, I, O>(c: Config<S, I, O>, s: State)
    requires |s.go| == |s.longest| == |c.parts|
  {
    s.place.Returned? && c.computeInfo ==>
      && (forall i :: 0 <= i < |s.go| ==> s.go[i].Sent?)
      && |s.place.partials| == |s.longest|
      && forall i :: 0 <= i < |s.longest| ==> Collects(s.longest[i], s.place.partials[i])
  }

  lemma {:induction false} SentUpdate(go: seq<Goroutine>, i: nat, g: Goroutine)
    requires i < |go|
    ensures SentCount(go[i := g]) == SentCount(go) - (if go[i].Sent? then 1 else 0) + if g.Sent? then 1 else 0
  {
    var n := |go| - 1;
    if i < n {
      SentUpdate(go[..n], i, g);
      assert go[i := g][..n] == go[..n][i := g];
    } else {
      assert go[i := g][..n] == go[..n];
    }
  }

  lemma {:induction false} SentBound(go: seq<Goroutine>)
    ensures SentCount(go) <= |go|
    ensures SentCount(go) == |go| <==> forall i :: 0 <= i < |go| ==> go[i].Sent?
  {
    if go != [] {
      SentBound(go[..|go| - 1]);
      assert forall i :: 0 <= i < |go| - 1 ==> go[i] == go[..|go| - 1][i];
    }
  }

  lemma {:induction false} NoneSent(go: seq<Goroutine>)
    requires forall i :: 0 <= i < |go| ==> go[i] == Running
    ensures SentCount(go) == 0
  {
    if go != [] {
      NoneSent(go[..|go| - 1]);
    }
  }

  lemma InitInv<S, I, O>(c: Config<S, I, O>, s: State)
    requires Init(c, s)
    ensures Inv(c, s)
  {
    NoneSent(s.go);
  }

  lemma SearchesInv<S, I, O>(c: Config<S, I, O>, s: State, t: State, i: nat, ok: bool, l: Longest)
    requires Inv(c, s) && Searches(c, s, t, i, ok, l)
    ensures Inv(c, t)
  {
    SentUpdate(s.go, i, Stored(ok));
    forall j: nat | j < |t.go| ensures Honest(c, t, j) {
      assert Honest(c, s, j);
    }
    assert forall j: nat :: InChannel(t, j) ==> InChannel(s, j);
    assert forall j: nat :: InChannel(s, j) ==> InChannel(t, j);
  }

  lemma SendsInv<S, I, O>(c: Config<S, I, O>, s: State, t: State, i: nat)
    requires Inv(c, s) && Sends(c, s, t, i)
    ensures Inv(c, t)
  {
    SentUpdate(s.go, i, Sent(s.go[i].ok));
    forall j: nat | j < |t.go| ensures Honest(c, t, j) {
      assert Honest(c, s, j);
    }
    var n := |s.results|;
    assert t.results[n].from == i;
    forall j: nat | InChannel(s, j) ensures InChannel(t, j) {
      var k :| 0 <= k < n && s.results[k].from == j;
      assert t.results[k].from == j;
    }
  }

  /** The loop takes one verdict; what remains is what was behind it. */
  lemma ChannelAfter(s: State, t: State)
    requires s.results != [] && t.results == s.results[1..]
    ensures forall j: nat :: InChannel(s, j) && j != s.results[0].from ==> InChannel(t, j)
  {
    forall j: nat | InChannel(s, j) && j != s.results[0].from ensures InChannel(t, j) {
      var k :| 0 <= k < |s.results| && s.results[k].from == j;
      assert t.results[k - 1].from == j;
    }
  }

  /** The state right after a receipt, before the loop decides whether to leave. */
  lemma TakenVerdict<S, I, O>(c: Config<S, I, O>, s: State, got: State)
    requires Inv(c, s) && s.place == Selecting && s.results != []
    requires got == s.(results := s.results[1..], count := s.count + 1, ok := s.ok && s.results[0].ok)
    ensures Sound(c, got)
  {
    ChannelAfter(s, got);
    var i := s.results[0].from;
    assert s.go[i] == Sent(s.results[0].ok);
    assert Honest(c, s, i);
    assert !s.results[0].ok ==> !Lin(c, i);
    forall j: nat | j < |got.go| ensures Honest(c, got, j) {
      assert Honest(c, s, j);
    }
    forall k | 0 <= k < |got.results|
      ensures got.results[k].from < |got.go| && got.go[got.results[k].from] == Sent(got.results[k].ok)
    {
      assert got.results[k] == s.results[k + 1];
    }
  }

  /** Once every verdict is in and all were yes, every partition is linearizable. */
  lemma AllIn<S, I, O>(c: Config<S, I, O>, s: State)
    requires Sound(c, s) && s.place == Selecting && s.ok && s.count >= |c.parts|
    ensures forall i: nat :: i < |c.parts| ==> Lin(c, i)
  {
    SentBound(s.go);
    forall i: nat | i < |c.parts| ensures Lin(c, i) {
      assert s.go[i].Sent? && !InChannel(s, i);
      assert Honest(c, s, i);
    }
  }

  lemma KillKeepsHonest<S, I, O>(c: Config<S, I, O>, s: State, t: State)
    requires |s.go| == |s.longest| == |c.parts|
    requires forall i: nat :: i < |s.go| ==> Honest(c, s, i)
    requires t.go == s.go && t.longest == s.longest && (s.kill ==> t.kill)
    ensures forall i: nat :: i < |t.go| ==> Honest(c, t, i)
  {
    forall i: nat | i < |t.go| ensures Honest(c, t, i) {
      assert Honest(c, s, i);
    }
  }

  lemma ReceivesInv<S, I, O>(c: Config<S, I, O>, s: State, t: State)
    requires Inv(c, s) && Receives(c, s, t)
    ensures Inv(c, t)
  {
    var got := s.(results := s.results[1..], count := s.count + 1, ok := s.ok && s.results[0].ok);
    TakenVerdict(c, s, got);
    KillKeepsHonest(c, got, t);
    if got.ok && got.count >= |c.parts| {
      AllIn(c, got);
    }
  }

  lemma TimesOutInv<S, I, O>(c: Config<S, I, O>, s: State, t: State)
    requires Inv(c, s) && TimesOut(c, s, t)
    ensures Inv(c, t)
  {
    KillKeepsHonest(c, s, t);
  }

  lemma DrainsInv<S, I, O>(c: Config<S, I, O>, s: State, t: State)
    requires Inv(c, s) && Drains(c, s, t)
    ensures Inv(c, t)
  {
    KillKeepsHonest(c, s, t);
    forall k | 0 <= k < |t.results|
      ensures t.results[k].from < |t.go| && t.go[t.results[k].from] == Sent(t.results[k].ok)
    {
      assert t.results[k] == s.results[k + 1];
    }
  }

  lemma ReadsInv<S, I, O>(c: Config<S, I, O>, s: State, t: State, partials: seq<seq<seq<nat>>>)
    requires Inv(c, s) && Reads(c, s, t, partials)
    ensures Inv(c, t)
  {
    KillKeepsHonest(c, s, t);
    SentBound(s.go);
  }

  lemma StepInv<S, I, O>(c: Config<S, I, O>, s: State, t: State)
    requires Inv(c, s) && Step(c, s, t)
    ensures Inv(c, t)
  {
    if i: nat, ok, l :| Searches(c, s, t, i, ok, l) {
      SearchesInv(c, s, t, i, ok, l);
    } else if i: nat :| Sends(c, s, t, i) {
      SendsInv(c, s, t, i);
    } else if Receives(c, s, t) {
      ReceivesInv(c, s, t);
    } else if TimesOut(c, s, t) {
      TimesOutInv(c, s, t);
    } else if Drains(c, s, t) {
      DrainsInv(c, s, t);
    } else {
      var partials :| Reads(c, s, t, partials);
      ReadsInv(c, s, t, partials);
    }
  }

  lemma {:induction false} RunInv<S, I, O>(c: Config<S, I, O>, run: seq<State>)
    requires IsRun(c, run)
    ensures Inv(c, run[|run| - 1])
  {
    if |run| == 1 {
      InitInv(c, run[0]);
    } else {
      var before := run[..|run| - 1];
      RunInv(c, before);
      StepInv(c, run[|run| - 2], run[|run| - 1]);
    }
  }

  // ---------------------------------------------------------------- what every run delivers

  // What happens in a run is told by counters and places alone: the loop hears a verdict when it takes
  // one out of the channel in its select, and the timer fires when it leaves the select without one.

  predicate Hears(s: State, t: State) {
    s.place == Selecting && t.count > s.count
  }

  predicate HearsNo(s: State, t: State) {
    Hears(s, t) && s.results != [] && !s.results[0].ok
  }

  predicate TimerFires(s: State, t: State) {
    s.place == Selecting && t.place != Selecting && t.count == s.count
  }

  /** What a step does to flags and places, by what the loop hears in it. */
  ghost predicate Keeps<S, I, O>(c: Config<S, I, O>, s: State, t: State) {
    && (t.timedOut <==> s.timedOut || TimerFires(s, t))
    && (TimerFires(s, t) ==> c.timeout)
    && (t.ok <==> s.ok && !HearsNo(s, t))
    && (t.kill <==> s.kill || TimerFires(s, t) || (!c.computeInfo && Hears(s, t) && !t.ok))
    && (s.place == Selecting ==>
          (t.place != Selecting <==>
             || TimerFires(s, t)
             || (Hears(s, t) && (t.count >= |c.parts| || (!c.computeInfo && !t.ok)))))
    && (s.place != Selecting ==> t.place != Selecting)
  }

  lemma SelectMeaning<S, I, O>(c: Config<S, I, O>, s: State, t: State)
    requires Receives(c, s, t) || TimesOut(c, s, t)
    ensures Keeps(c, s, t) && (t.count > s.count ==> t.timedOut == s.timedOut)
    ensures t.count > s.count ==> s.results != [] && t.results == s.results[1..] && t.count == s.count + 1
  {
  }

  /** A verdict moves from the channel into the loop and changes nothing about the timer. */
  lemma StepMeaning<S, I, O>(c: Config<S, I, O>, s: State, t: State)
    requires Step(c, s, t)
    ensures Keeps(c, s, t) && (t.count > s.count ==> t.timedOut == s.timedOut)
    ensures t.count > s.count ==> s.results != [] && t.results == s.results[1..] && t.count == s.count + 1
  {
    if Receives(c, s, t) || TimesOut(c, s, t) {
      SelectMeaning(c, s, t);
    }
  }

  /** Some step of the run is one of these. */
  ghost predicate Happens(run: seq<State>, event: (State, State) -> bool) {
    exists k :: 0 < k < |run| && event(run[k - 1], run[k])
  }

  lemma HappensSnoc(run: seq<State>, event: (State, State) -> bool)
    requires |run| >= 2
    ensures Happens(run, event) <==> Happens(run[..|run| - 1], event) || event(run[|run| - 2], run[|run| - 1])
  {
    var before := run[..|run| - 1];
    if k :| 0 < k < |before| && event(before[k - 1], before[k]) {
      assert event(run[k - 1], run[k]);
    }
    if k :| 0 < k < |run| && event(run[k - 1], run[k]) {
      assert k < |run| - 1 ==> event(before[k - 1], before[k]);
    }
  }

  function HearsLast(n: nat): (State, State) -> bool {
    (s, t) => Hears(s, t) && t.count >= n
  }

  ghost predicate HeardNo(run: seq<State>) {
    Happens(run, HearsNo)
  }

  ghost predicate TimerFired(run: seq<State>) {
    Happens(run, TimerFires)
  }

  ghost predicate HeardAll<S, I, O>(c: Config<S, I, O>, run: seq<State>) {
    Happens(run, HearsLast(|c.parts|))
  }

  /** When the flag goes up and when the select ends: at the timer, at the first no unless information is
      asked for, and at the last verdict. */
  lemma {:induction false} RunMeaning<S, I, O>(c: Config<S, I, O>, run: seq<State>)
    requires IsRun(c, run)
    ensures var s := run[|run| - 1];
            && (s.ok <==> !HeardNo(run))
            && (s.timedOut <==> TimerFired(run))
            && (s.kill <==> TimerFired(run) || (!c.computeInfo && HeardNo(run)))
            && (s.place != Selecting <==>
                  TimerFired(run) || (!c.computeInfo && HeardNo(run)) || HeardAll(c, run))
  {
    if |run| > 1 {
      var before := run[..|run| - 1];
      RunMeaning(c, before);
      StepMeaning(c, run[|run| - 2], run[|run| - 1]);
      HappensSnoc(run, HearsNo);
      HappensSnoc(run, TimerFires);
      HappensSnoc(run, HearsLast(|c.parts|));
    }
  }

  /** What every run returns: Illegal if the loop has heard a no, also when the timer fired later;
      otherwise Unknown if the timer has fired; otherwise Ok. */
  lemma ResultMeaning<S, I, O>(c: Config<S, I, O>, run: seq<State>)
    requires IsRun(c, run) && run[|run| - 1].place.Returned?
    ensures run[|run| - 1].place.result == (if HeardNo(run) then Illegal else if TimerFired(run) then Unknown else Ok)
  {
    RunInv(c, run);
    RunMeaning(c, run);
  }

  /** Whatever the interleaving: Ok means that all partitions are linearizable, Illegal that one is
      not, and Unknown that the timer has fired; if it has not, Ok is returned exactly when all are. */
  lemma Safety<S, I, O>(c: Config<S, I, O>, run: seq<State>)
    requires IsRun(c, run) && run[|run| - 1].place.Returned?
    ensures var result := run[|run| - 1].place.result;
            && (result == Ok ==> forall i: nat :: i < |c.parts| ==> Lin(c, i))
            && (result == Illegal ==> exists i: nat :: i < |c.parts| && !Lin(c, i))
            && (result == Unknown ==> TimerFired(run))
            && (TimerFired(run) ==> c.timeout)
            && (!TimerFired(run) ==> (result == Ok <==> forall i: nat :: i < |c.parts| ==> Lin(c, i)))
            && (!c.timeout ==> (result == Ok <==> forall i: nat :: i < |c.parts| ==> Lin(c, i)))
  {
    RunInv(c, run);
    RunMeaning(c, run);
    ResultMeaning(c, run);
  }

  /** When the slots of `longest` are read, every goroutine has reported, and every slot holds what
      its goroutine stored: legal partial linearizations, and the longest unless it was told to stop. */
  lemma ReadAfterReport<S, I, O>(c: Config<S, I, O>, run: seq<State>, s: State, t: State, partials: seq<seq<seq<nat>>>)
    requires IsRun(c, run) && s == run[|run| - 1] && Reads(c, s, t, partials)
    ensures |s.go| == |s.longest| == |c.parts|
    ensures forall i :: 0 <= i < |c.parts| ==> s.go[i].Sent?
    ensures forall i :: 0 <= i < |c.parts| ==> Reports(c.m, c.parts[i], c.computeInfo, s.kill, s.go[i].ok, s.longest[i])
  {
    RunInv(c, run);
    SentBound(s.go);
    forall i | 0 <= i < |c.parts|
      ensures Reports(c.m, c.parts[i], c.computeInfo, s.kill, s.go[i].ok, s.longest[i])
    {
      assert Honest(c, s, i);
    }
  }

  // ---------------------------------------------------------------- every run ends

  function Work(go: seq<Goroutine>): nat {
    if go == [] then 0
    else Work(go[..|go| - 1]) + match go[|go| - 1] case Running => 3 case Stored(_) => 2 case Sent(_) => 0
  }

  function Left(s: State): nat {
    Work(s.go) + |s.results| + match s.place case Selecting => 2 case Waiting => 1 case Returned(_, _) => 0
  }

  lemma {:induction false} WorkUpdate(go: seq<Goroutine>, i: nat, g: Goroutine)
    requires i < |go|
    requires (go[i].Running? && g.Stored?) || (go[i].Stored? && g.Sent?)
    ensures Work(go[i := g]) + (if g.Stored? then 1 else 2) == Work(go)
  {
    var n := |go| - 1;
    if i < n {
      WorkUpdate(go[..n], i, g);
      assert go[i := g][..n] == go[..n][i := g];
    } else {
      assert go[i := g][..n] == go[..n];
    }
  }

  lemma GoroutineCosts<S, I, O>(c: Config<S, I, O>, s: State, t: State)
    requires (exists i: nat, ok, l :: Searches(c, s, t, i, ok, l)) || (exists i: nat :: Sends(c, s, t, i))
    ensures Left(t) < Left(s)
  {
    if i: nat, ok, l :| Searches(c, s, t, i, ok, l) {
      WorkUpdate(s.go, i, Stored(ok));
    } else {
      var i: nat :| Sends(c, s, t, i);
      WorkUpdate(s.go, i, Sent(s.go[i].ok));
    }
  }

  lemma LoopCosts<S, I, O>(c: Config<S, I, O>, s: State, t: State)
    requires Receives(c, s, t) || TimesOut(c, s, t) || Drains(c, s, t)
    ensures Left(t) < Left(s)
  {
  }

  /** Every step leaves less to do. */
  lemma StepCosts<S, I, O>(c: Config<S, I, O>, s: State, t: State)
    requires Step(c, s, t)
    ensures Left(t) < Left(s)
  {
    if Receives(c, s, t) || TimesOut(c, s, t) || Drains(c, s, t) {
      LoopCosts(c, s, t);
    } else if partials :| Reads(c, s, t, partials) {
    } else {
      GoroutineCosts(c, s, t);
    }
  }

  lemma {:induction false} AllRunning(go: seq<Goroutine>)
    requires forall i :: 0 <= i < |go| ==> go[i] == Running
    ensures Work(go) == 3 * |go|
  {
    if go != [] {
      AllRunning(go[..|go| - 1]);
    }
  }

  /** No run is longer than three steps a partition and two more. */
  lemma {:induction false} RunsEnd<S, I, O>(c: Config<S, I, O>, run: seq<State>)
    requires IsRun(c, run)
    ensures |run| + Left(run[|run| - 1]) <= 3 * |c.parts| + 3
  {
    if |run| == 1 {
      AllRunning(run[0].go);
    } else {
      RunsEnd(c, run[..|run| - 1]);
      StepCosts(c, run[|run| - 2], run[|run| - 1]);
    }
  }

  // ---------------------------------------------------------------- no run gets stuck

  /** The longest partial linearization with operation `a`, among those of at most `n` operations. */
  lemma {:induction false} LongestWith<S, I, O>(m: Model<S, I, O>, ops: seq<Operation<I, O>>, a: nat, n: nat)
    returns (best: Option<seq<nat>>)
    ensures best.Some? ==> IsPartial(m, ops, best.value) && a in best.value
    ensures forall p :: IsPartial(m, ops, p) && a in p && |p| <= n ==> best.Some? && |p| <= |best.value|
  {
    if p :| IsPartial(m, ops, p) && a in p && |p| == n {
      best := Some(p);
    } else if n > 0 {
      best := LongestWith(m, ops, a, n - 1);
    } else {
      best := None;
    }
  }

  /** An answer to `computePartial` exists. */
  lemma LongestExists<S, I, O>(m: Model<S, I, O>, ops: seq<Operation<I, O>>) returns (longest: Longest)
    ensures LongestCorrect(m, ops, longest)
  {
    longest := [];
    for a := 0 to |ops|
      invariant |longest| == a
      invariant forall i :: 0 <= i < a && longest[i].Some? ==>
                IsPartial(m, ops, longest[i].value) && i in longest[i].value
      invariant forall i, p :: 0 <= i < a && IsPartial(m, ops, p) && i in p && |p| <= |ops| ==>
                longest[i].Some? && |p| <= |longest[i].value|
    {
      var best := LongestWith(m, ops, a, |ops|);
      longest := longest + [best];
    }
    forall p | IsPartial(m, ops, p) ensures Recorded(longest, p) {
      PartialFacts(m, ops, p);
      Pigeonhole(p, |ops|);
      forall k | 0 <= k < |p| ensures p[k] in p {
      }
    }
  }

  /** A search that is still running can end. */
  lemma CanSearch<S, I, O>(c: Config<S, I, O>, s: State, i: nat)
    requires i < |s.go| == |s.longest| == |c.parts| && s.go[i] == Running && WellFormed(c.parts[i])
    ensures exists t :: Step(c, s, t)
  {
    var ops := OpsOf(c.parts[i]);
    var l := LongestExists(c.m, ops);
    var ok := Linearizable(c.m, ops);
    var t := s.(go := s.go[i := Stored(ok)], longest := s.longest[i := l]);
    assert Searches(c, s, t, i, ok, l);
    assert Step(c, s, t);
  }

  /** A verdict always has room in the channel. */
  lemma CanSend<S, I, O>(c: Config<S, I, O>, s: State, i: nat)
    requires Inv(c, s) && i < |s.go| && s.go[i].Stored?
    ensures exists t :: Sends(c, s, t, i)
  {
    SentBound(s.go);
    assert Sends(c, s, s.(go := s.go[i := Sent(s.go[i].ok)], results := s.results + [Message(i, s.go[i].ok)]), i);
  }

  /** Deduplicating a slot. */
  lemma CanCollect(longest: Longest) returns (partials: seq<seq<nat>>)
    ensures Collects(longest, partials)
  {
    partials := [];
    for i := 0 to |longest|
      invariant forall k :: 0 <= k < |partials| ==> Some(partials[k]) in longest
      invariant forall j :: 0 <= j < i && longest[j].Some? ==> longest[j].value in partials
    {
      if longest[i].Some? {
        assert longest[i] == Some(longest[i].value);
        partials := partials + [longest[i].value];
      }
    }
  }

  lemma CanRead<S, I, O>(c: Config<S, I, O>, s: State)
    requires s.place == Waiting && s.count >= |c.parts|
    ensures exists t :: Step(c, s, t)
  {
    var partials: seq<seq<seq<nat>>> := [];
    for i := 0 to |s.longest|
      invariant |partials| == i
      invariant forall j :: 0 <= j < i ==> Collects(s.longest[j], partials[j])
    {
      var more := CanCollect(s.longest[i]);
      partials := partials + [more];
    }
    var t := s.(place := Returned(Verdict(s.ok, s.timedOut), partials));
    assert Reads(c, s, t, partials);
    assert Step(c, s, t);
  }

  /** When all goroutines have reported, the collecting loop can go on. */
  lemma CanCollectVerdicts<S, I, O>(c: Config<S, I, O>, s: State)
    requires Inv(c, s) && c.parts != [] && !s.place.Returned?
    requires forall i :: 0 <= i < |s.go| ==> s.go[i].Sent?
    ensures exists t :: Step(c, s, t)
  {
    SentBound(s.go);
    if s.place == Selecting {
      var got := s.(results := s.results[1..], count := s.count + 1, ok := s.ok && s.results[0].ok);
      var t := if !got.ok && !c.computeInfo then Leave(c.computeInfo, got.(kill := true))
               else if got.count >= |c.parts| then Leave(c.computeInfo, got)
               else got;
      assert Receives(c, s, t);
      assert Step(c, s, t);
    } else if s.count < |c.parts| {
      var t := s.(results := s.results[1..], count := s.count + 1);
      assert Drains(c, s, t);
      assert Step(c, s, t);
    } else {
      CanRead(c, s);
    }
  }

  /** A state that is not the end has a next step, unless the loop selects with neither a partition
      to hear from nor a timer. */
  lemma Stuck<S(!new), I(!new), O(!new)>(c: Config<S, I, O>, s: State)
    requires ValidConfig(c) && Inv(c, s) && !s.place.Returned?
    ensures (exists t :: Step(c, s, t)) <==> c.parts != [] || c.timeout || s.place == Waiting
  {
    if c.parts != [] {
      if i: nat :| i < |s.go| && s.go[i] == Running {
        CanSearch(c, s, i);
      } else if i: nat :| i < |s.go| && s.go[i].Stored? {
        CanSend(c, s, i);
        var t :| Sends(c, s, t, i);
        assert Step(c, s, t);
      } else {
        CanCollectVerdicts(c, s);
      }
    } else if s.place == Waiting {
      CanRead(c, s);
    } else if c.timeout {
      var t := Leave(c.computeInfo, s.(timedOut := true, kill := true));
      assert TimesOut(c, s, t);
      assert Step(c, s, t);
    } else {
      SentBound(s.go);
    }
  }

  /** `checkParallel` returns, from every reachable state, exactly when it was given a partition or a
      timer: with neither, the select waits for ever. */
  lemma Returns<S(!new), I(!new), O(!new)>(c: Config<S, I, O>, run: seq<State>, s: State)
    requires ValidConfig(c) && IsRun(c, run) && s == run[|run| - 1]
    ensures c.parts != [] || c.timeout <==> s.place.Returned? || exists t :: Step(c, s, t)
  {
    RunInv(c, run);
    if c.parts == [] && !c.timeout {
      NeverLeaves(c, run);
    }
    if !s.place.Returned? {
      Stuck(c, s);
    }
  }

  lemma {:induction false} NeverLeaves<S, I, O>(c: Config<S, I, O>, run: seq<State>)
    requires IsRun(c, run) && c.parts == [] && !c.timeout
    ensures run[|run| - 1].place == Selecting
  {
    if |run| > 1 {
      NeverLeaves(c, run[..|run| - 1]);
      RunInv(c, run[..|run| - 1]);
      SentBound(run[|run| - 2].go);
    }
  }
}
