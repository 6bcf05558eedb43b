/**
 `Stop` is documented to wait until what was added has been processed. From which
 states every run keeps that promise, and how it is broken from all the others.
 */
module DeleterShutdown {
  import opened Records
  import opened Sums
  import opened DeleterProtocol
  import opened DeleterTheorems

  // Every addition to the set was answered by a DeleteRecord call.
  predicate AllProcessed(s: State) { multiset(s.added) == multiset(Map(s.calls, CallKey)) }

  // Some key is in the set or with an undelivered `Pop`.
  predicate Leftover(s: State) { s.keys != {} || exists p :: 0 <= p < |s.pops| && Taken(s.pops[p]) == 1 }

  // The fetch loop is over and nothing it added is waiting.
  predicate Settled(s: State) { s.fetcher.FetcherDone? && !Leftover(s) }

  lemma {:induction false} SettledStays(c: Config, s: State, steps: seq<Step>)
    requires Settled(s) && CanRun(c, s, steps)
    ensures Settled(After(c, s, steps))
    decreases |steps|
  {
    if steps != [] {
      SettledStep(c, s, steps[0]);
      SettledStays(c, Apply(c, s, steps[0]), steps[1..]);
    }
  }

  lemma SettledStep(c: Config, s: State, step: Step)
    requires Settled(s) && Enabled(c, s, step)
    ensures Settled(Apply(c, s, step))
  {
    assert forall p :: 0 <= p < |s.pops| ==> Taken(s.pops[p]) == 0;
  }

  // ---------------------------------------------------------------- leading Stop to return

  function Rank(popper: Popper): nat {
    match popper
    case Got(_) => 6
    case Acquiring(_) => 5
    case Sleeping => 4
    case Looping => 3
    case Selecting => 2
    case Grabbing(_) => 1
    case PopperDone => 0
  }

  // How many actions a delete goroutine still has to take.
  function Left(w: Worker): int { if w.phase.Deleting? then 2 else if w.phase.Deleted? then 1 else 0 }

  // The popper stays where it is only to take permits or to wait for them.
  predicate Closer(c: Config, s: State, t: State) {
    Rank(t.popper) < Rank(s.popper)
    || (Rank(t.popper) == Rank(s.popper)
        && (Grabbed(c, t.popper) > Grabbed(c, s.popper)
            || (t.popper == s.popper && ISum(t.workers, Left) < ISum(s.workers, Left))))
  }

  // Nothing is on its way to a DeleteRecord call.
  predicate NoDeletes(s: State) { s.workers == [] && !s.popper.Got? && !s.popper.Acquiring? }

  // The fetch loop is over, the stop channel is closed, and something is left in the set or with a `Pop`.
  ghost predicate Abandoning(c: Config, s: State) {
    Inv(c, s) && s.fetcher.FetcherDone? && s.stop == Closed && Leftover(s)
  }

  // The popper's own next action, when it does not need a permit or there is one.
  function NextAct(c: Config, s: State): PopperAct {
    match s.popper
    case Got(_) => LowerGauge
    case Acquiring(_) => Spawn
    case Sleeping => Wake
    case Looping => EnterSelect
    case Selecting => SeeStop
    case Grabbing(taken) => if taken < c.maxWorkers then Grab else GrabbedAll
    case PopperDone => GrabbedAll
  }

  lemma PopperMoves(c: Config, s: State)
    requires Abandoning(c, s) && PopperEnabled(c, s, NextAct(c, s))
    ensures var t := PopperApply(c, s, NextAct(c, s));
            && Abandoning(c, t) && Closer(c, s, t) && t.added == s.added && t.calls == s.calls
            && (NoDeletes(s) ==> NoDeletes(t))
  {
    var step := Looped(NextAct(c, s));
    assert Apply(c, s, step) == PopperApply(c, s, NextAct(c, s));
    assert Inv(c, Apply(c, s, step)) by { StepKeepsInv(c, s, step); }
    PopperKeepsLeftover(c, s);
  }

  lemma PopperKeepsLeftover(c: Config, s: State)
    requires Control(c, s) && s.stop == Closed && Leftover(s) && PopperEnabled(c, s, NextAct(c, s))
    ensures var t := PopperApply(c, s, NextAct(c, s));
            && Leftover(t) && Closer(c, s, t) && t.fetcher == s.fetcher && t.stop == s.stop
            && t.added == s.added && t.calls == s.calls && (NoDeletes(s) ==> NoDeletes(t))
  {
    var t := PopperApply(c, s, NextAct(c, s));
    assert forall p :: 0 <= p < |s.pops| ==> t.pops[p] == s.pops[p];
  }

  // When no permit is left, some delete goroutine has an action to take.
  lemma WorkerMoves(c: Config, s: State) returns (step: Step)
    requires Abandoning(c, s) && !s.popper.PopperDone? && !PopperEnabled(c, s, NextAct(c, s))
    ensures Enabled(c, s, step) && !NoDeletes(s)
    ensures var t := Apply(c, s, step); Abandoning(c, t) && Closer(c, s, t) && t.added == s.added
  {
    assert s.permits == 0 && Grabbed(c, s.popper) < c.maxWorkers;
    var w := SomeActive(s.workers);
    step := Work(w, if s.workers[w].phase.Deleting? then DeleteReturns(false, None) else Release);
    StepKeepsInv(c, s, step);
    ISumUpdate(s.workers, w, Apply(c, s, step).workers[w], Left);
  }

  lemma SomeActive(workers: seq<Worker>) returns (w: nat)
    requires ISum(workers, Active) > 0
    ensures w < |workers| && !workers[w].phase.Released?
  {
    if forall i :: 0 <= i < |workers| ==> workers[i].phase.Released? {
      ISumZero(workers, Active);
    }
    w :| w < |workers| && !workers[w].phase.Released?;
  }

  // `Stop` has returned and left something; if no delete was under way, none was made.
  ghost predicate ReturnedWithLeftover(c: Config, s: State, t: State) {
    Inv(c, t) && t.stop.Returned? && Leftover(t) && (NoDeletes(s) ==> t.calls == s.calls)
  }

  // Every delete goroutine finishes, the popper takes every permit, and what is left stays where it is.
  lemma {:induction false} StopAbandons(c: Config, s: State) returns (steps: seq<Step>)
    requires Abandoning(c, s)
    ensures CanRun(c, s, steps) && ReturnedWithLeftover(c, s, After(c, s, steps)) && After(c, s, steps).added == s.added
    decreases Rank(s.popper), c.maxWorkers - Grabbed(c, s.popper), ISum(s.workers, Left)
  {
    var step;
    if s.popper.PopperDone? {
      step := Halt(StopReturn);
      StepKeepsInv(c, s, step);
      steps := [];
    } else {
      if PopperEnabled(c, s, NextAct(c, s)) {
        step := Looped(NextAct(c, s));
        PopperMoves(c, s);
      } else {
        step := WorkerMoves(c, s);
      }
      ISumNonNegative(s.workers, Left);
      steps := StopAbandons(c, Apply(c, s, step));
    }
    RunConcat(c, s, [step], steps);
    steps := [step] + steps;
  }

  // ---------------------------------------------------------------- leading the fetch loop there

  function ToAdd(f: Fetcher): int { if f.Adding? || f.Raising? then |f.vals| - f.next else 0 }

  const BLANK: Record := Record(0, "", 0, 0, [], [], "", "", "")

  // A row expires, is fetched and is added to the empty set.
  lemma AddOne(c: Config, s: State) returns (steps: seq<Step>)
    requires Inv(c, s) && s.fetcher == Waiting && s.keys == {} && c.getLimit >= 1
    ensures CanRun(c, s, steps)
    ensures var t := After(c, s, steps);
            && Inv(c, t) && t.keys != {} && t.fetcher.Raising? && t.calls == s.calls && s.added < t.added
            && (NoDeletes(s) ==> NoDeletes(t))
  {
    var row := Row(c.shard, Key(1, 1), BLANK);
    StepKeepsInv(c, s, Insert(row));
    steps := Extend(c, s, [], Insert(row));
    var more := FetchAndAdd(c, After(c, s, steps), |s.table|);
    RunConcat(c, s, steps, more);
    steps := steps + more;
  }

  // A row of the shard is fetched and added to the empty set.
  lemma FetchAndAdd(c: Config, s: State, i: nat) returns (steps: seq<Step>)
    requires Inv(c, s) && s.fetcher == Waiting && s.keys == {} && c.getLimit >= 1
    requires i < |s.table| && s.table[i].shard == c.shard
    ensures CanRun(c, s, steps)
    ensures var t := After(c, s, steps);
            && Inv(c, t) && t.keys != {} && t.fetcher.Raising? && t.added == s.added + [s.table[i].key]
            && t.calls == s.calls && t.workers == s.workers && t.popper == s.popper
  {
    var f, picks := FetchFirst(c, s.table, i);
    var fetched := Fetching(Fetched(f.time, picks));
    StepKeepsInv(c, s, fetched);
    steps := Extend(c, s, [], fetched);
    StepKeepsInv(c, After(c, s, steps), Fetching(AddNew));
    steps := Extend(c, s, steps, Fetching(AddNew));
  }

  // The fetch loop goes on with what it fetched, adding no more of it.
  lemma FetcherMoves(c: Config, s: State) returns (steps: seq<Step>)
    requires Inv(c, s) && (s.fetcher.Adding? || s.fetcher.Raising?)
    ensures CanRun(c, s, steps)
    ensures var t := After(c, s, steps);
            && Inv(c, t) && !t.fetcher.FetcherDone? && ToAdd(t.fetcher) < ToAdd(s.fetcher)
            && t.keys == s.keys && t.calls == s.calls && t.added == s.added && (NoDeletes(s) ==> NoDeletes(t))
  {
    var step := Fetching(if s.fetcher.Adding? then AddRefused else RaiseGauge);
    StepKeepsInv(c, s, step);
    steps := Extend(c, s, [], step);
  }

  lemma CloseAndAbandon(c: Config, s: State) returns (steps: seq<Step>)
    requires Inv(c, s) && s.fetcher == Waiting && s.keys != {}
    ensures CanRun(c, s, steps) && ReturnedWithLeftover(c, s, After(c, s, steps)) && After(c, s, steps).added == s.added
  {
    steps := [];
    if s.stop == NotCalled {
      StepKeepsInv(c, s, Halt(Close));
      steps := Extend(c, s, steps, Halt(Close));
    }
    var closed := After(c, s, steps);
    StepKeepsInv(c, closed, Fetching(FetcherStop));
    steps := Extend(c, s, steps, Fetching(FetcherStop));
    var more := StopAbandons(c, After(c, s, steps));
    RunConcat(c, s, steps, more);
    steps := steps + more;
  }

  /** If anything is fetched at all, from every state whose fetch loop still runs `Stop` can abandon an addition. */
  lemma {:induction false} StopCanAbandon(c: Config, s: State) returns (steps: seq<Step>)
    requires Inv(c, s) && !s.fetcher.FetcherDone? && c.getLimit >= 1
    ensures CanRun(c, s, steps) && ReturnedWithLeftover(c, s, After(c, s, steps))
    ensures s.added <= After(c, s, steps).added && (s.keys == {} ==> s.added < After(c, s, steps).added)
    decreases if s.keys == {} then 1 else 0, ToAdd(s.fetcher)
  {
    if s.fetcher == Waiting && s.keys != {} {
      steps := CloseAndAbandon(c, s);
      return;
    }
    if s.fetcher == Waiting {
      steps := AddOne(c, s);
    } else {
      steps := FetcherMoves(c, s);
    }
    var more := StopCanAbandon(c, After(c, s, steps));
    RunConcat(c, s, steps, more);
    steps := steps + more;
  }

  // ---------------------------------------------------------------- when the promise is kept

  /**
   From any reachable state, every run in which `Stop` has returned has processed
   all that was added exactly when nothing is ever fetched, or the fetch loop is
   over and nothing it added is waiting.
   */
  lemma AllProcessedIff(c: Config, s: State)
    requires Inv(c, s)
    ensures (forall steps :: CanRun(c, s, steps) && After(c, s, steps).stop.Returned? ==>
               AllProcessed(After(c, s, steps)))
       <==> c.getLimit == 0 || Settled(s)
  {
    if c.getLimit == 0 || Settled(s) {
      forall steps | CanRun(c, s, steps) && After(c, s, steps).stop.Returned? ensures AllProcessed(After(c, s, steps)) {
        RunKeepsInv(c, s, steps);
        if c.getLimit == 0 { NothingFetched(c, After(c, s, steps)); }
        else { SettledStays(c, s, steps); ProcessedAtEndIff(c, After(c, s, steps)); }
      }
    } else {
      var steps := SomeAbandons(c, s);
      assert CanRun(c, s, steps) && After(c, s, steps).stop.Returned? && !AllProcessed(After(c, s, steps));
    }
  }

  lemma SomeAbandons(c: Config, s: State) returns (steps: seq<Step>)
    requires Inv(c, s) && c.getLimit >= 1 && !Settled(s)
    ensures CanRun(c, s, steps) && After(c, s, steps).stop.Returned? && !AllProcessed(After(c, s, steps))
  {
    if !s.fetcher.FetcherDone? { steps := StopCanAbandon(c, s); }
    else if s.stop == Closed { steps := StopAbandons(c, s); }
    else { steps := []; }
    ProcessedAtEndIff(c, After(c, s, steps));
  }

  /**
   Before `Stop` is called, whatever the deleter is doing, its promise holds of every
   run to come exactly when it never fetches.
   */
  lemma StopProcessesAllIff(c: Config, s: State)
    requires Inv(c, s) && s.stop == NotCalled
    ensures (forall steps :: CanRun(c, s, steps) && After(c, s, steps).stop.Returned? ==>
               AllProcessed(After(c, s, steps)))
       <==> c.getLimit == 0
  {
    AllProcessedIff(c, s);
  }

  // Once `Stop` has returned, everything was processed if and only if nothing is left.
  lemma ProcessedAtEndIff(c: Config, s: State)
    requires Inv(c, s) && s.stop.Returned?
    ensures AllProcessed(s) <==> !Leftover(s)
  {
    ShutdownAccounting(c, s);
    StoppedIsQuiet(c, s);
    assert s.pops == [s.pops[0]] && [s.pops[0]][..0] == [];
    assert Flat(s.pops, HeldByPop) == HeldByPop(s.pops[0]);
    assert |multiset(s.added)| == |multiset(Map(s.calls, CallKey))| + |multiset(s.keys)| + |HeldByPop(s.pops[0])|;
    if s.keys != {} { var k :| k in s.keys; }
  }
}
