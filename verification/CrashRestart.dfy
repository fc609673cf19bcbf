/** Crashes, restarts and requests in any interleaving: when an answered request is never forgotten.
    Where a predicate names its conjunction `holds`, it is proved and used as one fact. */
module CrashRestart {
  import opened Histories
  import opened Networks

  type RequestId = nat
  type CallId = nat
  type Update = nat

  /** Where a call of ShutdownServer or StartServer is. Shutting down deletes the server and then copies
      what it saved, or the other way round, all under the tester's lock. Starting copies under the
      lock, and then, without it, makes the instance and adds it to the network. */
  datatype Call =
    | StopCalled(name: ServerName)
    | StopDeleted(name: ServerName)
    | StopCopied(name: ServerName)
    | StartCalled(name: ServerName)
    | StartCopied(name: ServerName)
    | StartMade(name: ServerName, server: ServerId)

  /** Where a request is: sent to an instance, its update saved by the handler, found to come from a
      server that is alive, answered with true, or failed. */
  datatype Request =
    | Dispatched(endname: EndName, name: ServerName, server: ServerId)
    | Handled(endname: EndName, name: ServerName, server: ServerId, update: Update)
    | Cleared(name: ServerName, update: Update)
    | Answered(name: ServerName, update: Update)
    | Failed

  /** An instance knows its name and writes to its own persister, by number. */
  datatype Instance = Instance(name: ServerName, persister: nat)

  /** `calls` are the tester's calls in progress, any number of them, and `started` the servers that were
      started and not shut down since. */
  datatype State = State(net: Tables, shelf: Shelf, instances: seq<Instance>, calls: map<CallId, Call>,
                         started: set<ServerName>, requests: map<RequestId, Request>)

  /** `updates` says which updates a saved state holds. The flags are the rules the tester keeps: shut a
      server down before starting it again, delete a server before copying what it saved, and do not
      begin a call for a server while another call for it is in progress. */
  datatype Rules = Rules(updates: Saved -> set<Update>, shutdownFirst: bool, deleteFirst: bool, oneAtATime: bool)

  predicate Keeps(rules: Rules) {
    rules.shutdownFirst && rules.deleteFirst && rules.oneAtATime
  }

  ghost predicate Init(s: State) {
    && s.shelf == Shelf([], map[]) && s.instances == [] && s.calls == map[] && s.started == {}
    && s.requests == map[] && s.net.servers == map[]
  }

  // ---------------------------------------------------------------- the tester's calls

  predicate Busy(s: State, i: ServerName) {
    exists c :: c in s.calls && s.calls[c].name == i
  }

  /** A shutdown in the middle of its work holds the lock. */
  predicate Locked(s: State) {
    exists c :: c in s.calls && (s.calls[c].StopDeleted? || s.calls[c].StopCopied?)
  }

  /** ShutdownServer copies only if anything was saved. */
  function StopCopy(s: State, i: ServerName): State {
    if i in s.shelf.saved then s.(shelf := CopySaved(s.shelf, i)) else s
  }

  ghost predicate BeginsStop(rules: Rules, s: State, t: State, c: CallId, i: ServerName) {
    && c !in s.calls && (rules.oneAtATime ==> !Busy(s, i))
    && t == s.(calls := s.calls[c := StopCalled(i)])
  }

  ghost predicate BeginsStart(rules: Rules, s: State, t: State, c: CallId, i: ServerName) {
    && c !in s.calls && (rules.oneAtATime ==> !Busy(s, i)) && (rules.shutdownFirst ==> i !in s.started)
    && t == s.(calls := s.calls[c := StartCalled(i)], started := s.started + {i})
  }

  /** The next step of a call in progress. */
  ghost predicate GoesOn(rules: Rules, s: State, t: State, c: CallId) {
    && c in s.calls
    && match s.calls[c]
       case StopCalled(i) =>
         && !Locked(s)
         && if rules.deleteFirst then t == s.(net := WithoutServer(s.net, i), calls := s.calls[c := StopDeleted(i)])
            else t == StopCopy(s, i).(calls := s.calls[c := StopCopied(i)])
       case StopDeleted(i) => t == StopCopy(s, i).(calls := s.calls - {c}, started := s.started - {i})
       case StopCopied(i) => t == s.(net := WithoutServer(s.net, i), calls := s.calls - {c}, started := s.started - {i})
       case StartCalled(i) => !Locked(s)
           && t == s.(shelf := CopySaved(s.shelf, i), calls := s.calls[c := StartCopied(i)])
       case StartCopied(i) =>
         && i in s.shelf.saved
         && t == s.(instances := s.instances + [Instance(i, s.shelf.saved[i])],
            calls := s.calls[c := StartMade(i, |s.instances|)])
       case StartMade(i, server) => t == s.(net := WithServer(s.net, i, server), calls := s.calls - {c})
  }

  // ---------------------------------------------------------------- network, instances and requests

  /** Enabling and connecting ends, at any time. */
  ghost predicate Rewires(s: State, t: State) {
    t == s.(net := t.net) && t.net.servers == s.net.servers
  }

  /** Any instance, also one that was replaced long ago, may save a state that extends what it had saved. */
  ghost predicate Saves(rules: Rules, s: State, t: State, server: ServerId, contents: Saved) {
    && server < |s.instances| && s.instances[server].persister < |s.shelf.disks|
    && rules.updates(s.shelf.disks[s.instances[server].persister]) <= rules.updates(contents)
    && t == s.(shelf := SaveOn(s.shelf, s.instances[server].persister, contents))
  }

  ghost predicate Dispatches(s: State, t: State, r: RequestId, endname: EndName) {
    && r !in s.requests
    && var target := Target(s.net, endname);
       t == s.(requests := s.requests[r := if target.Some? then Dispatched(endname, target.value.0, target.value.1)
           else Failed])
  }

  /** The handler saves a state with the request's update and returns. */
  ghost predicate Handles(rules: Rules, s: State, t: State, r: RequestId, update: Update, contents: Saved) {
    && r in s.requests && s.requests[r].Dispatched?
    && var q := s.requests[r];
       && update in rules.updates(contents)
       && Saves(rules, s, t.(requests := s.requests), q.server, contents)
       && t.requests == s.requests[r := Handled(q.endname, q.name, q.server, update)]
  }

  /** The last look at the tables before the answer. */
  ghost predicate Checks(s: State, t: State, r: RequestId) {
    && r in s.requests && s.requests[r].Handled?
    && var q := s.requests[r];
       t == s.(requests := s.requests[r := if ServerAlive(s.net, q.endname, q.name, q.server) then Cleared(q.name,
           q.update) else Failed])
  }

  ghost predicate Answers(s: State, t: State, r: RequestId) {
    && r in s.requests && s.requests[r].Cleared?
    && t == s.(requests := s.requests[r := Answered(s.requests[r].name, s.requests[r].update)])
  }

  /** A request may be given up on the way: dropped, or its server found dead while it waits. */
  ghost predicate Drops(s: State, t: State, r: RequestId) {
    && r in s.requests && !s.requests[r].Answered?
    && t == s.(requests := s.requests[r := Failed])
  }

  ghost predicate Step(rules: Rules, s: State, t: State) {
    var steps :=
      || (exists c, i :: BeginsStop(rules, s, t, c, i))
      || (exists c, i :: BeginsStart(rules, s, t, c, i))
      || (exists c :: GoesOn(rules, s, t, c))
      || Rewires(s, t)
      || (exists server, contents :: Saves(rules, s, t, server, contents))
      || (exists r, endname :: Dispatches(s, t, r, endname))
      || (exists r, update, contents :: Handles(rules, s, t, r, update, contents))
      || (exists r :: Checks(s, t, r))
      || (exists r :: Answers(s, t, r))
      || (exists r :: Drops(s, t, r));
    steps
  }

  ghost predicate IsRun(rules: Rules, run: seq<State>) {
    && run != []
    && Init(run[0])
    && forall k :: 0 < k < |run| ==> Follows(rules, run[k - 1], run[k])
  }

  /** A step, seen from outside: a proof that looks at which step it is says `assert Open(0)`. */
  ghost predicate Follows(rules: Rules, s: State, t: State) {
    forall x: nat {:trigger Open(x)} :: Open(x) ==> Step(rules, s, t)
  }

  ghost predicate Open(x: nat) {
    true
  }

  // ---------------------------------------------------------------- the invariant

  /** What is saved for `i` holds the update, and so will whatever replaces it. */
  ghost predicate Durable(rules: Rules, s: State, i: ServerName, update: Update) {
    && i in s.shelf.saved && s.shelf.saved[i] < |s.shelf.disks|
    && update in rules.updates(s.shelf.disks[s.shelf.saved[i]])
  }

  ghost predicate Numbers(s: State) {
    && (forall i :: i in s.shelf.saved ==> s.shelf.saved[i] < |s.shelf.disks|)
    && (forall k :: 0 <= k < |s.instances| ==> s.instances[k].persister < |s.shelf.disks|)
  }

  /** An instance writes to the persister that is saved for its name. */
  ghost predicate Current(s: State, i: ServerName, server: ServerId) {
    && server < |s.instances| && s.instances[server].name == i
    && i in s.shelf.saved && s.shelf.saved[i] == s.instances[server].persister
  }

  /** The heart: whoever serves a name writes to the persister that is saved for that name. */
  ghost predicate Serving(s: State) {
    forall i :: i in s.net.servers ==> Current(s, i, s.net.servers[i])
  }

  /** So does whoever has been made to serve it. */
  ghost predicate CallOk(s: State, call: Call) {
    match call
    case StartCopied(i) => i in s.shelf.saved
    case StartMade(i, server) => Current(s, i, server)
    case _ => true
  }

  ghost predicate CallsOk(s: State) {
    forall c :: c in s.calls ==> CallOk(s, s.calls[c])
  }

  ghost predicate RequestOk(rules: Rules, s: State, q: Request) {
    match q
    case Dispatched(_, _, server) => server < |s.instances|
    case Handled(_, _, server, update) =>
      && server < |s.instances| && s.instances[server].persister < |s.shelf.disks|
      && update in rules.updates(s.shelf.disks[s.instances[server].persister])
    case Cleared(i, update) => Durable(rules, s, i, update)
    case Answered(i, update) => Durable(rules, s, i, update)
    case Failed => true
  }

  ghost predicate Inv(rules: Rules, s: State) {
    var holds :=
      && Numbers(s)
      && Serving(s)
      && CallsOk(s)
      && forall r :: r in s.requests ==> RequestOk(rules, s, s.requests[r]);
    holds
  }

  /** What nothing takes away: instances stay, and what an instance or a name has saved only grows. */
  ghost predicate Grows(rules: Rules, s: State, t: State) {
    && s.instances <= t.instances
    && (forall k :: 0 <= k < |s.instances| && s.instances[k].persister < |s.shelf.disks| ==>
          && t.instances[k].persister < |t.shelf.disks|
          && rules.updates(s.shelf.disks[s.instances[k].persister])
             <= rules.updates(t.shelf.disks[t.instances[k].persister]))
    && (forall i :: i in s.shelf.saved && s.shelf.saved[i] < |s.shelf.disks| ==>
          && i in t.shelf.saved && t.shelf.saved[i] < |t.shelf.disks|
          && rules.updates(s.shelf.disks[s.shelf.saved[i]]) <= rules.updates(t.shelf.disks[t.shelf.saved[i]]))
  }

  lemma GrowsKeeps(rules: Rules, s: State, t: State, q: Request)
    requires Grows(rules, s, t) && RequestOk(rules, s, q)
    ensures RequestOk(rules, t, q)
  {
  }

  lemma RequestsKept(rules: Rules, s: State, t: State)
    requires Grows(rules, s, t) && t.requests == s.requests
    requires forall r :: r in s.requests ==> RequestOk(rules, s, s.requests[r])
    ensures forall r :: r in t.requests ==> RequestOk(rules, t, t.requests[r])
  {
    forall r | r in t.requests ensures RequestOk(rules, t, t.requests[r]) {
      GrowsKeeps(rules, s, t, s.requests[r]);
    }
  }

  // ---------------------------------------------------------------- when a persister is replaced

  /** What is saved for `i` becomes another persister. */
  predicate Replaces(s: State, t: State, i: ServerName) {
    i in t.shelf.saved && (i in s.shelf.saved ==> t.shelf.saved[i] != s.shelf.saved[i])
  }

  /** Nobody serves the name, and nobody has been made to serve it. */
  predicate Quiet(s: State, i: ServerName) {
    i !in s.net.servers && forall c :: c in s.calls ==> !(s.calls[c].StartMade? && s.calls[c].name == i)
  }

  ghost predicate QuietStep(s: State, t: State) {
    forall i :: Replaces(s, t, i) ==> Quiet(s, i)
  }

  /** No persister is replaced while an instance serves its name, or has been made to serve it. */
  ghost predicate QuietRun(run: seq<State>) {
    forall k :: 0 < k < |run| ==> QuietStep(run[k - 1], run[k])
  }

  lemma CopyGrows(rules: Rules, s: State, t: State, i: ServerName)
    requires Numbers(s) && t.shelf == CopySaved(s.shelf, i) && t.instances == s.instances
    ensures Grows(rules, s, t) && Numbers(t)
    ensures forall j, server :: j != i && Current(s, j, server) ==> Current(t, j, server)
  {
  }

  /** A copy in a quiet moment. */
  lemma CopiesInv(rules: Rules, s: State, t: State, c: CallId, i: ServerName)
    requires Inv(rules, s) && Quiet(s, i) && t.shelf == CopySaved(s.shelf, i)
    requires t.instances == s.instances && t.net == s.net && t.requests == s.requests
    requires forall d :: d in t.calls && d != c ==> d in s.calls && t.calls[d] == s.calls[d]
    requires c in t.calls ==> t.calls[c].name == i && !t.calls[c].StartMade?
    ensures Inv(rules, t) && Grows(rules, s, t)
  {
    CopyGrows(rules, s, t, i);
    forall d | d in t.calls ensures CallOk(t, t.calls[d]) {
      if d != c {
        assert CallOk(s, s.calls[d]);
      }
    }
    RequestsKept(rules, s, t);
  }

  /** A step of the tester that copies nothing. */
  lemma TesterInv(rules: Rules, s: State, t: State, c: CallId)
    requires Inv(rules, s) && t.shelf == s.shelf && s.instances <= t.instances && t.requests == s.requests
    requires Numbers(t) && Serving(t)
    requires forall d :: d in t.calls && d != c ==> d in s.calls && t.calls[d] == s.calls[d]
    requires c in t.calls ==> CallOk(t, t.calls[c])
    ensures Inv(rules, t) && Grows(rules, s, t)
  {
    forall d | d in t.calls ensures CallOk(t, t.calls[d]) {
      if d != c {
        assert CallOk(s, s.calls[d]);
      }
    }
    RequestsKept(rules, s, t);
  }

  lemma StopsInv(rules: Rules, s: State, t: State, c: CallId)
    requires Inv(rules, s) && GoesOn(rules, s, t, c) && QuietStep(s, t)
             && (s.calls[c].StopCalled? || s.calls[c].StopDeleted? || s.calls[c].StopCopied?)
    ensures Inv(rules, t) && Grows(rules, s, t)
  {
    var i := s.calls[c].name;
    if t.shelf == s.shelf {
      TesterInv(rules, s, t, c);
    } else {
      assert Replaces(s, t, i);
      CopiesInv(rules, s, t, c, i);
    }
  }

  lemma StartsInv(rules: Rules, s: State, t: State, c: CallId)
    requires Inv(rules, s) && GoesOn(rules, s, t, c) && QuietStep(s, t)
             && (s.calls[c].StartCalled? || s.calls[c].StartCopied? || s.calls[c].StartMade?)
    ensures Inv(rules, t) && Grows(rules, s, t)
  {
    assert CallOk(s, s.calls[c]);
    if s.calls[c].StartCalled? {
      assert Replaces(s, t, s.calls[c].name);
      CopiesInv(rules, s, t, c, s.calls[c].name);
    } else {
      TesterInv(rules, s, t, c);
    }
  }

  lemma GoesOnInv(rules: Rules, s: State, t: State, c: CallId)
    requires Inv(rules, s) && GoesOn(rules, s, t, c) && QuietStep(s, t)
    ensures Inv(rules, t) && Grows(rules, s, t)
  {
    match s.calls[c]
    case StartCalled(_) => StartsInv(rules, s, t, c);
    case StartCopied(_) => StartsInv(rules, s, t, c);
    case StartMade(_, _) => StartsInv(rules, s, t, c);
    case _ => StopsInv(rules, s, t, c);
  }

  /** A step that changes neither tables nor calls nor what is saved for whom. */
  lemma SameTester(s: State, t: State)
    requires Serving(s) && CallsOk(s)
    requires t.net.servers == s.net.servers && t.calls == s.calls
    requires t.instances == s.instances && t.shelf.saved == s.shelf.saved
    ensures Serving(t) && CallsOk(t)
  {
    forall d | d in t.calls ensures CallOk(t, t.calls[d]) {
      assert CallOk(s, s.calls[d]);
    }
  }

  lemma SavesInv(rules: Rules, s: State, t: State, server: ServerId, contents: Saved)
    requires Inv(rules, s) && Saves(rules, s, t, server, contents)
    ensures Inv(rules, t) && Grows(rules, s, t)
  {
    SameTester(s, t);
    RequestsKept(rules, s, t);
  }

  lemma HandlesInv(rules: Rules, s: State, t: State, r: RequestId, update: Update, contents: Saved)
    requires Inv(rules, s) && Handles(rules, s, t, r, update, contents)
    ensures Inv(rules, t) && Grows(rules, s, t)
  {
    var u := t.(requests := s.requests);
    SavesInv(rules, s, u, s.requests[r].server, contents);
    SameTester(u, t);
    forall x | x in t.requests ensures RequestOk(rules, t, t.requests[x]) {
      if x != r {
        GrowsKeeps(rules, u, t, u.requests[x]);
      }
    }
  }

  /** A step that only moves a request on. */
  lemma RequestInv(rules: Rules, s: State, t: State, r: RequestId, q: Request)
    requires Inv(rules, s) && t == s.(requests := s.requests[r := q]) && RequestOk(rules, s, q)
    ensures Inv(rules, t) && Grows(rules, s, t)
  {
    SameTester(s, t);
    forall x | x in t.requests ensures RequestOk(rules, t, t.requests[x]) {
      GrowsKeeps(rules, s, t, if x == r then q else s.requests[x]);
    }
  }

  lemma RewiresInv(rules: Rules, s: State, t: State)
    requires Inv(rules, s) && Rewires(s, t)
    ensures Inv(rules, t) && Grows(rules, s, t)
  {
    SameTester(s, t);
    RequestsKept(rules, s, t);
  }

  lemma ChecksInv(rules: Rules, s: State, t: State, r: RequestId)
    requires Inv(rules, s) && Checks(s, t, r)
    ensures Inv(rules, t) && Grows(rules, s, t)
  {
    assert RequestOk(rules, s, s.requests[r]);
    RequestInv(rules, s, t, r, t.requests[r]);
  }

  lemma StepInv(rules: Rules, s: State, t: State)
    requires Inv(rules, s) && Step(rules, s, t) && QuietStep(s, t)
    ensures Inv(rules, t) && Grows(rules, s, t)
  {
    if c, i :| BeginsStop(rules, s, t, c, i) || BeginsStart(rules, s, t, c, i) {
      TesterInv(rules, s, t, c);
    } else if c :| GoesOn(rules, s, t, c) {
      GoesOnInv(rules, s, t, c);
    } else if Rewires(s, t) {
      RewiresInv(rules, s, t);
    } else if server, contents :| Saves(rules, s, t, server, contents) {
      SavesInv(rules, s, t, server, contents);
    } else if r, endname :| Dispatches(s, t, r, endname) {
      RequestInv(rules, s, t, r, t.requests[r]);
    } else if r, update, contents :| Handles(rules, s, t, r, update, contents) {
      HandlesInv(rules, s, t, r, update, contents);
    } else if r :| Checks(s, t, r) {
      ChecksInv(rules, s, t, r);
    } else if r :| Answers(s, t, r) {
      assert RequestOk(rules, s, s.requests[r]);
      RequestInv(rules, s, t, r, t.requests[r]);
    } else {
      var r :| Drops(s, t, r);
      RequestInv(rules, s, t, r, Failed);
    }
  }

  lemma {:induction false} RunInv(rules: Rules, run: seq<State>, k: nat)
    requires IsRun(rules, run) && QuietRun(run) && k < |run|
    ensures Inv(rules, run[k])
  {
    if k > 0 {
      RunInv(rules, run, k - 1);
      assert Open(0);
      StepInv(rules, run[k - 1], run[k]);
    }
  }

  // ---------------------------------------------------------------- answered means saved

  /** Every instance of `i` that was made after the first `n` holds the update. */
  ghost predicate LaterHold(rules: Rules, s: State, n: nat, i: ServerName, update: Update) {
    forall k :: n <= k < |s.instances| && s.instances[k].name == i ==>
      && s.instances[k].persister < |s.shelf.disks|
      && update in rules.updates(s.shelf.disks[s.instances[k].persister])
  }

  /** What is saved for `i`, and every instance of `i` made after the first `n`, hold the update. */
  ghost predicate Remembered(rules: Rules, s: State, n: nat, i: ServerName, update: Update) {
    var holds := Durable(rules, s, i, update) && LaterHold(rules, s, n, i, update);
    holds
  }

  /** A step that is not the tester's leaves the tester's part alone. */
  lemma OtherSteps(rules: Rules, s: State, t: State)
    requires Step(rules, s, t)
    requires (forall c, i :: !BeginsStop(rules, s, t, c, i) && !BeginsStart(rules, s, t, c, i))
             && forall c :: !GoesOn(rules, s, t, c)
    ensures t.net.servers == s.net.servers && t.calls == s.calls && t.started == s.started
    ensures t.shelf.saved == s.shelf.saved && |t.shelf.disks| == |s.shelf.disks| && t.instances == s.instances
  {
    if Rewires(s, t) {
    } else if server, contents :| Saves(rules, s, t, server, contents) {
    } else if r, update, contents :| Handles(rules, s, t, r, update, contents) {
      var u := t.(requests := s.requests);
      assert u.net == t.net && u.calls == t.calls && u.shelf == t.shelf && u.instances == t.instances;
    } else {
    }
  }

  /** Only a call of StartServer makes an instance. */
  lemma SameInstances(rules: Rules, s: State, t: State)
    requires Step(rules, s, t) && !exists c :: GoesOn(rules, s, t, c)
    ensures t.instances == s.instances
  {
    if c, i :| BeginsStop(rules, s, t, c, i) || BeginsStart(rules, s, t, c, i) {
    } else {
      OtherSteps(rules, s, t);
    }
  }

  /** A new instance starts on what is saved for its name. */
  lemma NewInstances(rules: Rules, s: State, t: State, k: nat)
    requires Step(rules, s, t) && |s.instances| <= k < |t.instances|
    ensures t.instances[k].name in s.shelf.saved && t.shelf == s.shelf
    ensures t.instances[k].persister == s.shelf.saved[t.instances[k].name]
  {
    if c :| GoesOn(rules, s, t, c) {
    } else {
      SameInstances(rules, s, t);
    }
  }

  lemma LaterStep(rules: Rules, s: State, t: State, n: nat, i: ServerName, update: Update)
    requires Inv(rules, s) && Follows(rules, s, t) && QuietStep(s, t)
    requires Remembered(rules, s, n, i, update)
    ensures Remembered(rules, t, n, i, update)
  {
    assert Open(0);
    StepInv(rules, s, t);
    forall k | n <= k < |t.instances| && t.instances[k].name == i
      ensures t.instances[k].persister < |t.shelf.disks|
      ensures update in rules.updates(t.shelf.disks[t.instances[k].persister])
    {
      if k >= |s.instances| {
        NewInstances(rules, s, t, k);
      } else {
        assert t.instances[k] == s.instances[k];
      }
    }
  }

  lemma NextRemembered(rules: Rules, run: seq<State>, k: nat, s: State, t: State, n: nat, i: ServerName, update: Update)
    requires IsRun(rules, run) && QuietRun(run) && 0 < k < |run| && s == run[k - 1] && t == run[k]
    requires Remembered(rules, s, n, i, update)
    ensures Remembered(rules, t, n, i, update)
  {
    RunInv(rules, run, k - 1);
    LaterStep(rules, s, t, n, i, update);
  }

  lemma AnsweredNow(rules: Rules, run: seq<State>, j: nat, r: RequestId)
    requires IsRun(rules, run) && QuietRun(run) && j < |run|
    requires r in run[j].requests && run[j].requests[r].Answered?
    ensures Remembered(rules, run[j], |run[j].instances|, run[j].requests[r].name, run[j].requests[r].update)
  {
    RunInv(rules, run, j);
    assert RequestOk(rules, run[j], run[j].requests[r]);
  }

  lemma {:induction false} StaysRemembered(rules: Rules, run: seq<State>, j: nat, k: nat, n: nat, i: ServerName,
        update: Update)
    requires IsRun(rules, run) && QuietRun(run) && j <= k < |run|
    requires Remembered(rules, run[j], n, i, update)
    ensures Remembered(rules, run[k], n, i, update)
    decreases k
  {
    if j < k {
      StaysRemembered(rules, run, j, k - 1, n, i, update);
      NextRemembered(rules, run, k, run[k - 1], run[k], n, i, update);
    }
  }

  /** Once a request is answered with true, what its handler saved is in what is saved for the
      server, now and at any later time, and in the persister of every instance made later. */
  lemma AnsweredIsSaved(rules: Rules, run: seq<State>, j: nat, k: nat, r: RequestId)
    requires IsRun(rules, run) && QuietRun(run) && j <= k < |run|
    requires r in run[j].requests && run[j].requests[r].Answered?
    ensures Remembered(rules, run[k], |run[j].instances|, run[j].requests[r].name, run[j].requests[r].update)
  {
    AnsweredNow(rules, run, j, r);
    StaysRemembered(rules, run, j, k, |run[j].instances|, run[j].requests[r].name, run[j].requests[r].update);
  }

  // ---------------------------------------------------------------- the tester's rules keep every run quiet

  /** What the tester's calls know of each other while the rules are kept. */
  ghost predicate Orderly(s: State, call: Call) {
    match call
    case StopCalled(i) => true
    case StopDeleted(i) => i !in s.net.servers
    case StopCopied(i) => false
    case StartCalled(i) => i in s.started && i !in s.net.servers
    case StartCopied(i) => i in s.started && i !in s.net.servers
    case StartMade(i, _) => i in s.started && i !in s.net.servers
  }

  ghost predicate InOrder(s: State) {
    && (forall i :: i in s.net.servers ==> i in s.started)
    && (forall c :: c in s.calls ==> Orderly(s, s.calls[c]))
    && (forall c, d :: c in s.calls && d in s.calls && s.calls[c].name == s.calls[d].name ==> c == d)
  }

  /** Only the call in question and what concerns its server change. */
  ghost predicate OnlyAt(s: State, t: State, c: CallId, i: ServerName) {
    && (forall d :: d != c ==> (d in t.calls <==> d in s.calls))
    && (forall d :: d != c && d in s.calls ==> t.calls[d] == s.calls[d] && s.calls[d].name != i)
    && (c in t.calls ==> t.calls[c].name == i)
    && (forall j :: j != i ==> (j in t.net.servers <==> j in s.net.servers))
    && (forall j :: j != i ==> (j in t.started <==> j in s.started))
  }

  lemma OthersInOrder(s: State, t: State, c: CallId, i: ServerName)
    requires InOrder(s) && OnlyAt(s, t, c, i)
    requires i in t.net.servers ==> i in t.started
    requires c in t.calls ==> Orderly(t, t.calls[c])
    ensures InOrder(t)
  {
    forall d | d in t.calls ensures Orderly(t, t.calls[d]) {
      if d != c {
        assert Orderly(s, s.calls[d]);
      }
    }
  }

  lemma GoesOnInOrder(rules: Rules, s: State, t: State, c: CallId)
    requires Keeps(rules) && InOrder(s) && GoesOn(rules, s, t, c)
    ensures InOrder(t) && QuietStep(s, t)
  {
    var i := s.calls[c].name;
    assert Orderly(s, s.calls[c]);
    OthersInOrder(s, t, c, i);
  }

  lemma StepInOrder(rules: Rules, s: State, t: State)
    requires Keeps(rules) && InOrder(s) && Step(rules, s, t)
    ensures InOrder(t) && QuietStep(s, t)
  {
    if c, i :| BeginsStop(rules, s, t, c, i) || BeginsStart(rules, s, t, c, i) {
      OthersInOrder(s, t, c, i);
    } else if c :| GoesOn(rules, s, t, c) {
      GoesOnInOrder(rules, s, t, c);
    } else {
      SameOrder(rules, s, t);
    }
  }

  /** Any other step leaves the tester's part alone. */
  lemma SameOrder(rules: Rules, s: State, t: State)
    requires Step(rules, s, t) && InOrder(s)
    requires (forall c, i :: !BeginsStop(rules, s, t, c, i) && !BeginsStart(rules, s, t, c, i))
             && forall c :: !GoesOn(rules, s, t, c)
    ensures InOrder(t) && t.shelf.saved == s.shelf.saved
  {
    OtherSteps(rules, s, t);
    forall d | d in t.calls ensures Orderly(t, t.calls[d]) {
      assert Orderly(s, s.calls[d]);
    }
  }

  lemma {:induction false} RunInOrder(rules: Rules, run: seq<State>, k: nat)
    requires Keeps(rules) && IsRun(rules, run) && k < |run|
    ensures InOrder(run[k]) && (k > 0 ==> QuietStep(run[k - 1], run[k]))
  {
    if k > 0 {
      RunInOrder(rules, run, k - 1);
      assert Open(0);
      StepInOrder(rules, run[k - 1], run[k]);
    }
  }

  /** The rules are enough. */
  lemma RulesKeepQuiet(rules: Rules, run: seq<State>)
    requires Keeps(rules) && IsRun(rules, run)
    ensures QuietRun(run)
  {
    forall k | 0 < k < |run| ensures QuietStep(run[k - 1], run[k]) {
      RunInOrder(rules, run, k);
    }
  }

  // ---------------------------------------------------------------- what the rules are for

  /** A state that holds an update a fresh persister does not hold. */
  ghost predicate Tells(rules: Rules, contents: Saved, update: Update) {
    && rules.updates(EMPTY) <= rules.updates(contents)
    && update in rules.updates(contents) && update !in rules.updates(EMPTY)
  }

  lemma RunMore(rules: Rules, run: seq<State>, s: State)
    requires IsRun(rules, run) && Step(rules, run[|run| - 1], s)
    ensures IsRun(rules, run + [s])
  {
    var more := run + [s];
    forall k | 0 < k < |more| ensures Follows(rules, more[k - 1], more[k]) {
      assert k < |run| ==> more[k - 1] == run[k - 1] && more[k] == run[k];
    }
  }

  /** The tables when an end is enabled and connected to server 0, and server 0 is as given. */
  function Wired(servers: map<ServerName, ServerId>): Tables {
    Tables(map["end" := true], map["end" := 0], servers, true, false)
  }

  /** StartServer has made instance 0 on persister 0, and has not added it yet. */
  lemma MadeRun(rules: Rules) returns (run: seq<State>, s: State)
    ensures IsRun(rules, run) && s == run[|run| - 1]
    ensures s == State(Wired(map[]), Shelf([EMPTY], map[0 := 0]), [Instance(0, 0)], map[0 := StartMade(0, 0)], {0},
            map[])
  {
    var s0 := State(Wired(map[]), Shelf([], map[]), [], map[], {}, map[]);
    var s1 := s0.(calls := map[0 := StartCalled(0)], started := {0});
    var s2 := s1.(shelf := Shelf([EMPTY], map[0 := 0]), calls := map[0 := StartCopied(0)]);
    s := s2.(instances := [Instance(0, 0)], calls := map[0 := StartMade(0, 0)]);
    assert BeginsStart(rules, s0, s1, 0, 0);
    assert [] + [EMPTY] == [EMPTY] && [] + [Instance(0, 0)] == [Instance(0, 0)];
    assert GoesOn(rules, s1, s2, 0);
    assert GoesOn(rules, s2, s, 0);
    run := [s0, s1, s2, s];
  }

  /** A server is up. */
  lemma StartedRun(rules: Rules) returns (run: seq<State>, s: State)
    ensures IsRun(rules, run) && s == run[|run| - 1]
    ensures s == State(Wired(map[0 := 0]), Shelf([EMPTY], map[0 := 0]), [Instance(0, 0)], map[], {0}, map[])
  {
    var before, made := MadeRun(rules);
    s := made.(net := Wired(map[0 := 0]), calls := map[]);
    assert made.calls - {0} == map[];
    assert GoesOn(rules, made, s, 0);
    RunMore(rules, before, s);
    run := before + [s];
  }

  /** Instance 0 serves, and what is saved for its name is no longer what it writes to. */
  ghost predicate Superseded(s: State) {
    && s.net == Wired(map[0 := 0]) && s.shelf == Shelf([EMPTY, EMPTY], map[0 := 1])
    && s.instances == [Instance(0, 0)] && s.requests == map[]
  }

  /** Without a shutdown before the second start. */
  lemma RestartedRun(rules: Rules) returns (run: seq<State>, s: State)
    requires !rules.shutdownFirst
    ensures IsRun(rules, run) && s == run[|run| - 1] && Superseded(s)
  {
    var before, up := StartedRun(rules);
    var called := up.(calls := map[0 := StartCalled(0)]);
    s := called.(shelf := Shelf([EMPTY, EMPTY], map[0 := 1]), calls := map[0 := StartCopied(0)]);
    assert BeginsStart(rules, up, called, 0, 0);
    assert [EMPTY] + [EMPTY] == [EMPTY, EMPTY];
    assert GoesOn(rules, called, s, 0);
    RunMore(rules, before, called);
    RunMore(rules, before + [called], s);
    run := before + [called] + [s];
  }

  /** With the copy before the deletion. */
  lemma CopiedFirstRun(rules: Rules) returns (run: seq<State>, s: State)
    requires !rules.deleteFirst
    ensures IsRun(rules, run) && s == run[|run| - 1] && Superseded(s)
  {
    var before, up := StartedRun(rules);
    var called := up.(calls := map[0 := StopCalled(0)]);
    s := called.(shelf := Shelf([EMPTY, EMPTY], map[0 := 1]), calls := map[0 := StopCopied(0)]);
    assert BeginsStop(rules, up, called, 0, 0);
    assert [EMPTY] + [EMPTY] == [EMPTY, EMPTY];
    assert GoesOn(rules, called, s, 0);
    RunMore(rules, before, called);
    RunMore(rules, before + [called], s);
    run := before + [called] + [s];
  }

  /** With a shutdown between the making of an instance and its addition to the network. */
  lemma OverlappingRun(rules: Rules) returns (run: seq<State>, s: State)
    requires rules.deleteFirst && !rules.oneAtATime
    ensures IsRun(rules, run) && s == run[|run| - 1] && Superseded(s)
  {
    var before, made := MadeRun(rules);
    var start := StartMade(0, 0);
    var called := made.(calls := map[0 := start, 1 := StopCalled(0)]);
    var deleted := called.(calls := map[0 := start, 1 := StopDeleted(0)]);
    var copied := made.(shelf := Shelf([EMPTY, EMPTY], map[0 := 1]), started := {});
    s := copied.(net := Wired(map[0 := 0]), calls := map[]);
    assert BeginsStop(rules, made, called, 1, 0);
    assert WithoutServer(called.net, 0) == called.net;
    assert GoesOn(rules, called, deleted, 1);
    assert [EMPTY] + [EMPTY] == [EMPTY, EMPTY];
    assert deleted.calls - {1} == copied.calls && {0} - {0} == {};
    assert GoesOn(rules, deleted, copied, 1);
    assert copied.calls - {0} == map[];
    assert GoesOn(rules, copied, s, 0);
    RunMore(rules, before, called);
    RunMore(rules, before + [called], deleted);
    RunMore(rules, before + [called] + [deleted], copied);
    RunMore(rules, before + [called] + [deleted] + [copied], s);
    run := before + [called] + [deleted] + [copied] + [s];
  }

  lemma SupersededRun(rules: Rules) returns (run: seq<State>, s: State)
    requires !Keeps(rules)
    ensures IsRun(rules, run) && s == run[|run| - 1] && Superseded(s)
  {
    if !rules.shutdownFirst {
      run, s := RestartedRun(rules);
    } else if !rules.deleteFirst {
      run, s := CopiedFirstRun(rules);
    } else {
      run, s := OverlappingRun(rules);
    }
  }

  /** If any rule is broken, a request can be answered with true and what it saved be lost to the next instance. */
  lemma Forgets(rules: Rules, contents: Saved, update: Update) returns (run: seq<State>, s: State)
    requires !Keeps(rules) && Tells(rules, contents, update)
    ensures IsRun(rules, run) && s == run[|run| - 1]
    ensures s.requests == map[0 := Answered(0, update)] && !Durable(rules, s, 0, update)
  {
    var before, s0 := SupersededRun(rules);
    var s1 := s0.(requests := map[0 := Dispatched("end", 0, 0)]);
    var s2 := s1.(shelf := Shelf([contents, EMPTY], map[0 := 1]), requests := map[0 := Handled("end", 0, 0, update)]);
    var s3 := s2.(requests := map[0 := Cleared(0, update)]);
    s := s3.(requests := map[0 := Answered(0, update)]);
    assert Dispatches(s0, s1, 0, "end");
    assert s1.shelf.disks[0 := contents] == s2.shelf.disks;
    assert Saves(rules, s1, s2.(requests := s1.requests), 0, contents);
    assert Handles(rules, s1, s2, 0, update, contents);
    assert Checks(s2, s3, 0);
    assert Answers(s3, s, 0);
    RunMore(rules, before, s1);
    RunMore(rules, before + [s1], s2);
    RunMore(rules, before + [s1] + [s2], s3);
    RunMore(rules, before + [s1] + [s2] + [s3], s);
    run := before + [s1] + [s2] + [s3] + [s];
  }

  /** Request `r` was answered in a run that ends in `s`, and its update is not saved there. */
  ghost predicate Forgotten(rules: Rules, run: seq<State>, s: State, r: RequestId) {
    && IsRun(rules, run) && s == run[|run| - 1]
    && r in s.requests && s.requests[r].Answered?
    && !Durable(rules, s, s.requests[r].name, s.requests[r].update)
  }

  /** The three rules are exactly what it takes. */
  lemma RulesAreNeeded(rules: Rules, contents: Saved, update: Update)
    requires Tells(rules, contents, update)
    ensures (exists run, s, r :: Forgotten(rules, run, s, r)) <==>
            !rules.shutdownFirst || !rules.deleteFirst || !rules.oneAtATime
  {
    if Keeps(rules) {
      forall run, s, r ensures !Forgotten(rules, run, s, r) {
        if Forgotten(rules, run, s, r) {
          RulesKeepQuiet(rules, run);
          AnsweredIsSaved(rules, run, |run| - 1, |run| - 1, r);
        }
      }
    } else {
      var run, s := Forgets(rules, contents, update);
      assert Forgotten(rules, run, s, 0);
    }
  }

  // ---------------------------------------------------------------- the weakest rule

  ghost predicate Outgrows(rules: Rules, a: Saved, b: Saved, contents: Saved, update: Update) {
    && rules.updates(a) <= rules.updates(contents)
    && update in rules.updates(contents) && update !in rules.updates(b)
  }

  ghost predicate CanOutgrow(rules: Rules, a: Saved, b: Saved) {
    exists contents, update :: Outgrows(rules, a, b, contents, update)
  }

  /** There is always room for an update that some saved state does not hold. */
  ghost predicate Roomy(rules: Rules) {
    forall a, b {:trigger CanOutgrow(rules, a, b)} :: CanOutgrow(rules, a, b)
  }

  /** The run goes on, and what is saved for whom is not changed any more. */
  ghost predicate Continues(rules: Rules, run: seq<State>, more: seq<State>) {
    && IsRun(rules, more) && run != [] && run <= more
    && forall k :: |run| <= k < |more| ==> more[k].shelf.saved == more[k - 1].shelf.saved
  }

  lemma ContinuesMore(rules: Rules, run: seq<State>, more: seq<State>, t: State)
    requires Continues(rules, run, more) && Step(rules, more[|more| - 1], t)
    requires t.shelf.saved == more[|more| - 1].shelf.saved
    ensures Continues(rules, run, more + [t])
  {
    RunMore(rules, more, t);
  }

  /** Instances are known by their numbers, whatever the tester does. */
  ghost predicate Numbered(s: State) {
    && Numbers(s)
    && (forall i :: i in s.net.servers ==> s.net.servers[i] < |s.instances|)
    && (forall c :: c in s.calls && s.calls[c].StartMade? ==> s.calls[c].server < |s.instances|)
  }

  lemma CallNumbered(rules: Rules, s: State, t: State, c: CallId)
    requires Numbered(s) && GoesOn(rules, s, t, c)
    ensures Numbered(t)
  {
  }

  lemma StepNumbered(rules: Rules, s: State, t: State)
    requires Numbered(s) && Step(rules, s, t)
    ensures Numbered(t)
  {
    if c, i :| BeginsStop(rules, s, t, c, i) || BeginsStart(rules, s, t, c, i) {
    } else if c :| GoesOn(rules, s, t, c) {
      CallNumbered(rules, s, t, c);
    } else {
      OtherSteps(rules, s, t);
    }
  }

  lemma {:induction false} RunNumbered(rules: Rules, run: seq<State>, k: nat)
    requires IsRun(rules, run) && k < |run|
    ensures Numbered(run[k])
  {
    if k > 0 {
      RunNumbered(rules, run, k - 1);
      assert Open(0);
      StepNumbered(rules, run[k - 1], run[k]);
    }
  }

  lemma {:induction false} FreshId(ids: set<RequestId>) returns (r: RequestId)
    ensures r !in ids && forall x :: x in ids ==> x < r
    decreases |ids|
  {
    r := 0;
    if ids != {} {
      var x :| x in ids;
      var y := FreshId(ids - {x});
      r := if x < y then y else x + 1;
      assert forall z :: z in ids ==> z == x || z in ids - {x};
    }
  }

  /** A request arrives at whoever serves the name. */
  lemma Arrives(rules: Rules, run: seq<State>, before: seq<State>, i: ServerName)
    returns (more: seq<State>, r: RequestId)
    requires Continues(rules, run, before) && i in before[|before| - 1].net.servers
    ensures Continues(rules, run, more)
    ensures var s, t := before[|before| - 1], more[|more| - 1];
            && t.shelf == s.shelf && t.instances == s.instances && t.net.servers == s.net.servers
            && IsEnabled(t.net, "end")
            && r in t.requests && t.requests[r] == Dispatched("end", i, s.net.servers[i])
  {
    var s := before[|before| - 1];
    r := FreshId(s.requests.Keys);
    var s0 := s.(net := s.net.(enabled := s.net.enabled["end" := true], connections := s.net.connections["end" := i]));
    var s1 := s0.(requests := s0.requests[r := Dispatched("end", i, s.net.servers[i])]);
    assert Rewires(s, s0);
    assert Dispatches(s0, s1, r, "end");
    ContinuesMore(rules, run, before, s0);
    ContinuesMore(rules, run, before + [s0], s1);
    more := before + [s0] + [s1];
  }

  /** Its handler saves it, and it is answered. */
  lemma GetsAnswer(rules: Rules, run: seq<State>, before: seq<State>, i: ServerName, r: RequestId, contents: Saved,
        update: Update)
    returns (more: seq<State>)
    requires Continues(rules, run, before)
    requires var s := before[|before| - 1];
             && i in s.net.servers && s.net.servers[i] < |s.instances| && IsEnabled(s.net, "end")
             && r in s.requests && s.requests[r] == Dispatched("end", i, s.net.servers[i])
             && s.instances[s.net.servers[i]].persister < |s.shelf.disks|
             && rules.updates(s.shelf.disks[s.instances[s.net.servers[i]].persister]) <= rules.updates(contents)
             && update in rules.updates(contents)
    ensures Continues(rules, run, more)
    ensures var s, t := before[|before| - 1], more[|more| - 1];
            && t.shelf == SaveOn(s.shelf, s.instances[s.net.servers[i]].persister, contents)
            && r in t.requests && t.requests[r] == Answered(i, update)
  {
    var s1 := before[|before| - 1];
    var server := s1.net.servers[i];
    var s2 := s1.(shelf := SaveOn(s1.shelf, s1.instances[server].persister, contents));
    var s3 := s2.(requests := s2.requests[r := Handled("end", i, server, update)]);
    var s4 := s3.(requests := s3.requests[r := Cleared(i, update)]);
    var s5 := s4.(requests := s4.requests[r := Answered(i, update)]);
    assert s3.(requests := s1.requests) == s2;
    assert Handles(rules, s1, s3, r, update, contents);
    assert Checks(s3, s4, r);
    assert Answers(s4, s5, r);
    ContinuesMore(rules, run, before, s3);
    ContinuesMore(rules, run, before + [s3], s4);
    ContinuesMore(rules, run, before + [s3] + [s4], s5);
    more := before + [s3] + [s4] + [s5];
  }

  /** An answered update is lost in a continuation of the run. */
  ghost predicate ForgetsIn(rules: Rules, run: seq<State>, more: seq<State>, r: RequestId) {
    Continues(rules, run, more) && Forgotten(rules, more, more[|more| - 1], r)
  }

  /** An instance serves a name and writes to a persister that is not the one saved for it: the next
      request can be answered and lost. */
  lemma LosesNext(rules: Rules, run: seq<State>, before: seq<State>, i: ServerName)
    returns (more: seq<State>, r: RequestId)
    requires Continues(rules, run, before) && Roomy(rules)
    requires var s := before[|before| - 1];
             && Numbered(s) && i in s.net.servers && i in s.shelf.saved
             && s.shelf.saved[i] != s.instances[s.net.servers[i]].persister
    ensures ForgetsIn(rules, run, more, r)
  {
    var s := before[|before| - 1];
    var disk, kept := s.instances[s.net.servers[i]].persister, s.shelf.saved[i];
    assert CanOutgrow(rules, s.shelf.disks[disk], s.shelf.disks[kept]);
    var contents, update :| Outgrows(rules, s.shelf.disks[disk], s.shelf.disks[kept], contents, update);
    var arrived;
    arrived, r := Arrives(rules, run, before, i);
    more := GetsAnswer(rules, run, arrived, i, r, contents, update);
  }

  /** A persister is only ever replaced by a new one, by a step that leaves servers and instances alone. */
  lemma ReplacingStep(rules: Rules, s: State, t: State, i: ServerName)
    requires Step(rules, s, t) && Replaces(s, t, i)
    ensures t.shelf.saved[i] == |s.shelf.disks| && t.net.servers == s.net.servers && t.instances == s.instances
    ensures forall c :: c in s.calls && s.calls[c].StartMade? ==> c in t.calls && t.calls[c] == s.calls[c]
  {
    if c, j :| BeginsStop(rules, s, t, c, j) || BeginsStart(rules, s, t, c, j) {
    } else if c :| GoesOn(rules, s, t, c) {
    } else {
      OtherSteps(rules, s, t);
    }
  }

  /** After a persister was replaced at a loud moment an answered update can be lost, without any further
      call of the tester. */
  lemma LoudForgets(rules: Rules, run: seq<State>, i: ServerName) returns (more: seq<State>, r: RequestId)
    requires IsRun(rules, run) && |run| >= 2 && Roomy(rules)
    requires Replaces(run[|run| - 2], run[|run| - 1], i) && !Quiet(run[|run| - 2], i)
    ensures ForgetsIn(rules, run, more, r)
  {
    var s, t := run[|run| - 2], run[|run| - 1];
    assert Step(rules, s, t) by {
      assert Follows(rules, s, t);
      assert Open(0);
    }
    RunNumbered(rules, run, |run| - 2);
    StepNumbered(rules, s, t);
    ReplacingStep(rules, s, t, i);
    if i in s.net.servers {
      more, r := LosesNext(rules, run, run, i);
    } else {
      var c :| c in s.calls && s.calls[c].StartMade? && s.calls[c].name == i;
      var u := t.(net := WithServer(t.net, i, s.calls[c].server), calls := t.calls - {c});
      assert GoesOn(rules, t, u, c);
      ContinuesMore(rules, run, run, u);
      StepNumbered(rules, t, u);
      more, r := LosesNext(rules, run, run + [u], i);
    }
  }

  /** From here an answered update can be lost without a further change of what is saved for whom. */
  ghost predicate CanForget(rules: Rules, run: seq<State>) {
    exists more, r :: ForgetsIn(rules, run, more, r)
  }

  lemma QuietCannotForget(rules: Rules, run: seq<State>)
    requires QuietRun(run)
    ensures !CanForget(rules, run)
  {
    forall more, r ensures !ForgetsIn(rules, run, more, r) {
      if ForgetsIn(rules, run, more, r) {
        forall k | 0 < k < |more| ensures QuietStep(more[k - 1], more[k]) {
          if k < |run| {
            assert more[k - 1] == run[k - 1] && more[k] == run[k];
          }
        }
        AnsweredIsSaved(rules, more, |more| - 1, |more| - 1, r);
      }
    }
  }

  /** The weakest rule: a run is quiet exactly when at no point of it an answered update could be lost. */
  lemma QuietIsWeakest(rules: Rules, run: seq<State>)
    requires IsRun(rules, run) && Roomy(rules)
    ensures QuietRun(run) <==> forall k :: 0 < k <= |run| ==> !CanForget(rules, run[..k])
  {
    if QuietRun(run) {
      forall k | 0 < k <= |run| ensures !CanForget(rules, run[..k]) {
        QuietCannotForget(rules, run[..k]);
      }
    } else {
      var k :| 0 < k < |run| && !QuietStep(run[k - 1], run[k]);
      var i :| Replaces(run[k - 1], run[k], i) && !Quiet(run[k - 1], i);
      var before := run[..k + 1];
      assert before[|before| - 2] == run[k - 1] && before[|before| - 1] == run[k];
      var more, r := LoudForgets(rules, before, i);
      assert CanForget(rules, run[..k + 1]);
    }
  }

  // ---------------------------------------------------------------- what an answer went through

  /** A request through this end reaches this instance. */
  predicate Connected(net: Tables, endname: EndName, name: ServerName, server: ServerId) {
    && endname in net.enabled && net.enabled[endname]
    && endname in net.connections && net.connections[endname] == name
    && name in net.servers && net.servers[name] == server
  }

  /** The end is enabled, and the instance still serves the name. */
  predicate StillServed(net: Tables, endname: EndName, name: ServerName, server: ServerId) {
    && endname in net.enabled && net.enabled[endname]
    && name in net.servers && net.servers[name] == server
  }

  /** How a request came to be what it is. */
  ghost predicate CameFrom(s: State, r: RequestId, q: Request) {
    match q
    case Dispatched(endname, name, server) => Connected(s.net, endname, name, server)
    case Handled(endname, name, server, update) => r in s.requests && s.requests[r] == Dispatched(endname, name, server)
    case Cleared(name, update) =>
      && r in s.requests && s.requests[r].Handled? && s.requests[r].name == name && s.requests[r].update == update
      && StillServed(s.net, s.requests[r].endname, name, s.requests[r].server)
    case Answered(name, update) => r in s.requests && s.requests[r] == Cleared(name, update)
    case Failed => true
  }

  lemma RequestMoves(rules: Rules, s: State, t: State, r: RequestId)
    requires Step(rules, s, t) && r in t.requests
    ensures (r in s.requests && t.requests[r] == s.requests[r]) || CameFrom(s, r, t.requests[r])
  {
    if c, i :| BeginsStop(rules, s, t, c, i) || BeginsStart(rules, s, t, c, i) {
    } else if c :| GoesOn(rules, s, t, c) {
    } else if x, endname :| Dispatches(s, t, x, endname) {
    } else if x, update, contents :| Handles(rules, s, t, x, update, contents) {
    } else if x :| Checks(s, t, x) {
    } else {
    }
  }

  /** When a request became what it is. */
  lemma {:induction false} Became(rules: Rules, run: seq<State>, k: nat, r: RequestId) returns (j: nat)
    requires IsRun(rules, run) && k < |run| && r in run[k].requests
    ensures j < k && CameFrom(run[j], r, run[k].requests[r])
  {
    MovedAt(rules, run, k, r);
    if CameFrom(run[k - 1], r, run[k].requests[r]) {
      j := k - 1;
    } else {
      j := Became(rules, run, k - 1, r);
    }
  }

  lemma MovedAt(rules: Rules, run: seq<State>, k: nat, r: RequestId)
    requires IsRun(rules, run) && k < |run| && r in run[k].requests
    ensures k > 0
    ensures (r in run[k - 1].requests && run[k].requests[r] == run[k - 1].requests[r])
            || CameFrom(run[k - 1], r, run[k].requests[r])
  {
    assert k > 0 by {
      assert Init(run[0]);
    }
    assert Step(rules, run[k - 1], run[k]) by {
      assert Follows(rules, run[k - 1], run[k]);
      assert Open(0);
    }
    RequestMoves(rules, run[k - 1], run[k], r);
  }

  /** An answered request went, through an end that was enabled then, to the instance that served its name,
      and at the last look before the answer the end was enabled and that instance still served it. */
  lemma AnsweredThrough(rules: Rules, run: seq<State>, k: nat, r: RequestId)
    returns (i: nat, j: nat, endname: EndName, server: ServerId)
    requires IsRun(rules, run) && k < |run| && r in run[k].requests && run[k].requests[r].Answered?
    ensures i < j < k
    ensures var name := run[k].requests[r].name;
            Connected(run[i].net, endname, name, server) && StillServed(run[j].net, endname, name, server)
  {
    var a := Became(rules, run, k, r);
    j := Became(rules, run, a, r);
    endname, server := run[j].requests[r].endname, run[j].requests[r].server;
    var b := Became(rules, run, j, r);
    i := Became(rules, run, b, r);
  }

  // ---------------------------------------------------------------- what the lock is for

  predicate HoldsLock(s: State, c: CallId) {
    c in s.calls && (s.calls[c].StopDeleted? || s.calls[c].StopCopied?)
  }

  ghost predicate OneHolder(s: State) {
    forall c, d :: HoldsLock(s, c) && HoldsLock(s, d) ==> c == d
  }

  lemma HolderStep(rules: Rules, s: State, t: State)
    requires OneHolder(s) && Step(rules, s, t)
    ensures OneHolder(t)
  {
    if c, i :| BeginsStop(rules, s, t, c, i) || BeginsStart(rules, s, t, c, i) {
      assert forall d :: HoldsLock(t, d) ==> HoldsLock(s, d);
    } else if c :| GoesOn(rules, s, t, c) {
      assert forall d :: HoldsLock(t, d) && d != c ==> HoldsLock(s, d);
    } else {
      OtherSteps(rules, s, t);
      assert forall d :: HoldsLock(t, d) ==> HoldsLock(s, d);
    }
  }

  /** In every run at most one call is between its two locked steps. */
  lemma {:induction false} OneAtALock(rules: Rules, run: seq<State>, k: nat)
    requires IsRun(rules, run) && k < |run|
    ensures OneHolder(run[k])
  {
    if k > 0 {
      OneAtALock(rules, run, k - 1);
      assert Open(0);
      HolderStep(rules, run[k - 1], run[k]);
    }
  }

  /** While it is, no other call replaces a persister. */
  lemma NoneReplaced(rules: Rules, run: seq<State>, k: nat, c: CallId, i: ServerName)
    requires IsRun(rules, run) && 0 < k < |run| && HoldsLock(run[k - 1], c) && HoldsLock(run[k], c)
    ensures !Replaces(run[k - 1], run[k], i)
  {
    var s, t := run[k - 1], run[k];
    OneAtALock(rules, run, k - 1);
    assert Open(0);
    if a, j :| BeginsStop(rules, s, t, a, j) || BeginsStart(rules, s, t, a, j) {
    } else if a :| GoesOn(rules, s, t, a) {
      assert Locked(s);
      assert HoldsLock(s, a) ==> a == c;
    } else {
      OtherSteps(rules, s, t);
    }
  }

  // ---------------------------------------------------------------- who makes the first persister

  /** Nothing was saved for `i` and now something is: a call to start it went on. */
  lemma SavedStep(rules: Rules, s: State, t: State, i: ServerName)
    requires Follows(rules, s, t) && i !in s.shelf.saved && i in t.shelf.saved
    ensures exists c :: c in s.calls && s.calls[c] == StartCalled(i)
  {
    assert Open(0);
    var c :| GoesOn(rules, s, t, c);
    assert s.calls[c] == StartCalled(i);
  }

  /** Only starting a server makes its first persister: shutting down what was never started saves nothing. */
  lemma {:induction false} SavedByStart(rules: Rules, run: seq<State>, k: nat, i: ServerName)
    requires IsRun(rules, run) && k < |run| && i in run[k].shelf.saved
    ensures exists j, c :: 0 <= j < k && c in run[j].calls && run[j].calls[c] == StartCalled(i)
  {
    assert k != 0;
    assert Follows(rules, run[k - 1], run[k]);
    if i in run[k - 1].shelf.saved {
      SavedByStart(rules, run, k - 1, i);
    } else {
      SavedStep(rules, run[k - 1], run[k], i);
    }
  }
}
