/**
 The batch deleter itself: an object whose fields its goroutines update in place.
 As in BatchInsertion, each body lets others run a slice of `env` at every
 scheduling point, and is proved to stay on a run of the protocol.
 */
module BatchDeletion {
  import opened Records
  import opened Sums
  import opened DeleterProtocol
  import opened DeleterTheorems

  const MIN_MAX_WORKERS := 1
  const DEFAULT_MAX_WORKERS := 5
  const MIN_GET_LIMIT := 0
  const DEFAULT_GET_LIMIT := 10

  /** The constructor's repair of bad settings. */
  function Repaired(c: Config): (r: Config)
    ensures ValidConfig(r) && r.shard == c.shard
    ensures ValidConfig(c) ==> r == c
    ensures r.maxWorkers == c.maxWorkers || (c.maxWorkers < 1 && r.maxWorkers == 5)
    ensures r.getLimit == c.getLimit || (c.getLimit < 0 && r.getLimit == 10)
  {
    c.(maxWorkers := if c.maxWorkers < MIN_MAX_WORKERS then DEFAULT_MAX_WORKERS else c.maxWorkers,
       getLimit := if c.getLimit < MIN_GET_LIMIT then DEFAULT_GET_LIMIT else c.getLimit)
  }

  /** What the pruner answers to one fetch. */
  datatype Answer = Rows(time: int, picks: seq<nat>) | Failed

  datatype Thread = FetcherThread | PopperThread | WorkerThread(w: nat) | Stopper

  // The goroutine's own actions; the others can take all the rest.
  predicate Acts(me: Thread, step: Step) {
    match me
    case FetcherThread => step.Fetching?
    case PopperThread => step.Looped?
    case WorkerThread(w) => step.Work? && step.w == w
    case Stopper => step.Halt?
  }

  // What another goroutine's turn leads to: its action, if it is possible.
  function AfterTurn(c: Config, me: Thread, s: State, step: Step): State {
    if Enabled(c, s, step) && !Acts(me, step) then Apply(c, s, step) else s
  }

  // All the turns of a slice.
  function AfterTurns(c: Config, me: Thread, s: State, slice: seq<Step>): State {
    if slice == [] then s
    else AfterTurn(c, me, AfterTurns(c, me, s, slice[..|slice| - 1]), slice[|slice| - 1])
  }

  // What stays as it was while others run.
  predicate Steady(me: Thread, s: State, t: State) {
    match me
    case FetcherThread => t.fetcher == s.fetcher
    case PopperThread => t.popper == s.popper
    case WorkerThread(w) => |s.workers| <= |t.workers| && (w < |s.workers| ==> t.workers[w] == s.workers[w])
    case Stopper => t.stop == s.stop
  }

  lemma ForeignIsSteady(c: Config, me: Thread, s: State, step: Step)
    requires Enabled(c, s, step) && !Acts(me, step)
    ensures Steady(me, s, Apply(c, s, step))
  {
  }

  // The goroutine has no action of its own to take until others have run; the ticker aside.
  predicate Blocked(me: Thread, s: State) {
    match me
    case FetcherThread => s.fetcher.Waiting? && s.stop == NotCalled
    case PopperThread =>
      (s.popper.Selecting? && s.stop == NotCalled && !ItemReady(s))
      || ((s.popper.Acquiring? || s.popper.Grabbing?) && s.permits <= 0)
    case WorkerThread(_) => false
    case Stopper => s.stop == Closed && !(s.fetcher.FetcherDone? && s.popper.PopperDone?)
  }

  // Where a goroutine is when it may have to wait.
  predicate UnderWay(c: Config, me: Thread, s: State) {
    match me
    case FetcherThread => !s.fetcher.FetcherDone? && (s.fetcher.Adding? ==> s.fetcher.next < |s.fetcher.vals|)
    case PopperThread => !s.popper.PopperDone? && (s.popper.Grabbing? ==> s.popper.taken < c.maxWorkers)
    case WorkerThread(w) => w < |s.workers| && !s.workers[w].phase.Released?
    case Stopper => s.stop == Closed
  }

  // Action `n` of the run is worker `w`'s call, with the outcome given if the table then allowed it, or else an error.
  ghost predicate DeleteMade(
    c: Config, initial: seq<Row>, history: seq<Step>, n: nat,
    w: nat, key: Key, ok: bool, at: Option<nat>, called: WorkerAct)
    requires ValidConfig(c)
  {
    n < |history| && history[n] == Work(w, called) && CanRun(c, Init(c, initial), history[..n])
    && called == if DeleteOutcome(c, After(c, Init(c, initial), history[..n]).table, key, ok, at)
                 then DeleteReturns(ok, at) else DeleteReturns(false, None)
  }

  lemma DeleteMadeLater(
    c: Config, initial: seq<Row>, history: seq<Step>, more: seq<Step>, n: nat,
    w: nat, key: Key, ok: bool, at: Option<nat>, called: WorkerAct)
    requires ValidConfig(c) && history <= more && DeleteMade(c, initial, history, n, w, key, ok, at, called)
    ensures DeleteMade(c, initial, more, n, w, key, ok, at, called)
  {
    assert more[..n] == history[..n];
  }

  // An action that the ticker starts.
  predicate Ticked(step: Step) { step.Fetching? && (step.fetcher.Fetched? || step.fetcher.FetchFailed?) }

  // The fetches among the actions, whatever their outcome.
  function Asks(steps: seq<Step>): seq<FetcherAct> {
    if steps == [] then []
    else Asks(steps[..|steps| - 1]) + if Ticked(steps[|steps| - 1]) then [steps[|steps| - 1].fetcher] else []
  }

  // The fetches got the first of the answers, in order; a failure may stand for an answer that is none.
  predicate Answered(asks: seq<FetcherAct>, answers: seq<Answer>) {
    && |asks| <= |answers|
    && forall k :: 0 <= k < |asks| ==>
         asks[k] == FetchFailed || (answers[k].Rows? && asks[k] == Fetched(answers[k].time, answers[k].picks))
  }

  lemma AnsweredSnoc(asks: seq<FetcherAct>, answers: seq<Answer>, act: FetcherAct)
    requires Answered(asks, answers) && |asks| < |answers|
    requires var answer := answers[|asks|];
             act == FetchFailed || (answer.Rows? && act == Fetched(answer.time, answer.picks))
    ensures Answered(asks + [act], answers)
  {
  }

  lemma AsksSnoc(steps: seq<Step>, step: Step)
    ensures Asks(steps + [step]) == Asks(steps) + if Ticked(step) then [step.fetcher] else []
  {
    assert (steps + [step])[..|steps|] == steps;
  }

  /** A goroutine is blocked exactly when no action of its own is possible, the ticker's aside. */
  lemma BlockedIff(c: Config, me: Thread, s: State)
    requires UnderWay(c, me, s)
    ensures Blocked(me, s) <==> forall step :: Acts(me, step) && !Ticked(step) ==> !Enabled(c, s, step)
  {
    if !Blocked(me, s) {
      var step := PossibleAct(c, me, s);
      assert Acts(me, step) && Enabled(c, s, step);
    }
  }

  lemma PossibleAct(c: Config, me: Thread, s: State) returns (step: Step)
    requires UnderWay(c, me, s) && !Blocked(me, s)
    ensures Acts(me, step) && Enabled(c, s, step) && !Ticked(step)
  {
    match me
    case FetcherThread =>
      var act := match s.fetcher
                 case Adding(_, _) => AddRefused
                 case Raising(_, _) => RaiseGauge
                 case _ => FetcherStop;
      step := Fetching(act);
    case PopperThread =>
      var act := match s.popper
                 case Looping => EnterSelect
                 case Selecting =>
                   if s.stop != NotCalled then SeeStop else if Item(s).Some? then TakeItem else SkipNil
                 case Got(_) => LowerGauge
                 case Acquiring(_) => Spawn
                 case Sleeping => Wake
                 case Grabbing(_) => Grab
                 case PopperDone => Wake;
      step := Looped(act);
    case WorkerThread(w) =>
      step := Work(w, if s.workers[w].phase.Deleting? then DeleteReturns(false, None) else Release);
    case Stopper => step := Halt(StopReturn);
  }

  lemma SteadyTransitive(me: Thread, s: State, t: State, u: State)
    requires Steady(me, s, t) && Steady(me, t, u)
    ensures Steady(me, s, u)
  {
  }

  // Through all the turns of a slice the goroutine's own part stays as it was.
  lemma {:induction false} TurnsAreSteady(c: Config, me: Thread, s: State, slice: seq<Step>)
    ensures Steady(me, s, AfterTurns(c, me, s, slice))
  {
    if slice != [] {
      var t, step := AfterTurns(c, me, s, slice[..|slice| - 1]), slice[|slice| - 1];
      TurnsAreSteady(c, me, s, slice[..|slice| - 1]);
      if AfterTurn(c, me, t, step) != t {
        ForeignIsSteady(c, me, t, step);
        SteadyTransitive(me, s, t, Apply(c, t, step));
      }
    }
  }

  class BatchDeleter {
    const config: Config
    var table: seq<Row>
    var deleteSet: set<Key>
    var fetcher: Fetcher
    var pops: seq<Pop>
    var popper: Popper
    var workers: seq<Worker>
    var deleteWorkers: int
    var deletingQueue: int
    var stop: StopPhase
    const initial: seq<Row>
    var inserted: seq<Row>
    var fetches: seq<Fetch>
    var added: seq<Key>
    var calls: seq<DeleteCall>
    ghost var history: seq<Step>    // every action taken since Start
    // About the goroutine whose body is running, since it began:
    ghost var own: seq<Step>        // its own actions
    ghost var turns: nat            // how often others were let run
    ghost var waits: nat            // how often that was because it was blocked
    ghost var acted: bool           // whether it has acted since they last were

    function Snapshot(): State
      reads this
    {
      State(table, deleteSet, fetcher, pops, popper, workers, deleteWorkers, deletingQueue, stop,
            initial, inserted, fetches, added, calls)
    }

    ghost predicate At(s: State)
      reads this`history
    {
      ValidConfig(config)
      && CanRun(config, Init(config, initial), history) && After(config, Init(config, initial), history) == s
    }

    // The object is where a run of the protocol led, and `own` is part of that run.
    ghost predicate Valid()
      reads this
    {
      At(Snapshot()) && Within(own, history)
    }

    // The goroutine took this one action.
    twostate predicate Did(step: Step)
      reads this
    {
      && history == old(history) + [step] && own == old(own) + [step]
      && acted && turns == old(turns) && waits == old(waits)
    }

    // All its actions are those of `me`, and it has acted at each of its turns unless blocked.
    ghost predicate RunsAs(me: Thread)
      reads this
    {
      && turns + (if acted then 1 else 0) <= |own| + waits + 1
      && forall k :: 0 <= k < |own| ==> Acts(me, own[k])
    }

    // A goroutine begins, and owes nothing yet.
    ghost method Begin(me: Thread)
      requires Valid()
      modifies this`own, this`turns, this`waits, this`acted
      ensures Valid() && RunsAs(me) && acted && own == [] && turns == waits == 0
    {
      own, turns, waits, acted := [], 0, 0, true;
    }

    /** NewBatchDeleter followed by Start, on a table as it is then. */
    constructor (config: Config, table: seq<Row>)
      ensures Valid() && this.config == Repaired(config) && initial == table && history == own == []
    {
      var c := Repaired(config);
      this.config := c;
      this.table, deleteSet, fetcher, pops, popper, workers := table, {}, Waiting, [], Looping, [];
      deleteWorkers, deletingQueue, stop := c.maxWorkers, 0, NotCalled;
      initial, inserted, fetches, added, calls := table, [], [], [], [];
      history, own, turns, waits, acted := [], [], 0, 0, true;
    }

    // The state has moved by one action of the protocol.
    ghost method Happen(before: State, step: Step)
      requires At(before) && Within(own, history)
      requires Enabled(config, before, step) && Snapshot() == Apply(config, before, step)
      modifies this`history
      ensures Valid() && history == old(history) + [step]
    {
      RunSnoc(config, Init(config, initial), history, step);
      WithinMore(own, history, step);
      history := history + [step];
    }

    // It was the action of the goroutine whose body is running.
    ghost method Log(before: State, step: Step)
      requires At(before) && Within(own, history)
      requires Enabled(config, before, step) && Snapshot() == Apply(config, before, step)
      modifies this`history, this`own, this`acted
      ensures Valid() && acted && history == old(history) + [step] && own == old(own) + [step]
    {
      WithinBoth(own, history, step);
      Happen(before, step);
      own, acted := own + [step], true;
    }

    method Load(t: State)
      requires t.initial == initial
      modifies this`table, this`deleteSet, this`deleteWorkers, this`deletingQueue, this`stop, this`fetcher, this`pops
      modifies this`popper, this`workers, this`inserted, this`fetches, this`added, this`calls
      ensures Snapshot() == t
    {
      table, deleteSet, deleteWorkers, deletingQueue, stop := t.table, t.keys, t.permits, t.gauge, t.stop;
      LoadRest(t);
    }

    method LoadRest(t: State)
      modifies this`fetcher, this`pops, this`popper, this`workers, this`inserted, this`fetches, this`added, this`calls
      ensures fetcher == t.fetcher && pops == t.pops && popper == t.popper && workers == t.workers
      ensures inserted == t.inserted && fetches == t.fetches && added == t.added && calls == t.calls
    {
      fetcher, pops, popper, workers := t.fetcher, t.pops, t.popper, t.workers;
      inserted, fetches, added, calls := t.inserted, t.fetches, t.added, t.calls;
    }

    // Another goroutine or another client takes the action, if it can.
    method Interfere(me: Thread, step: Step)
      requires Valid()
      modifies this
      ensures Valid() && old(history) <= history
      ensures Snapshot() == AfterTurn(config, me, old(Snapshot()), step)
      ensures own == old(own) && turns == old(turns) && waits == old(waits) && acted == old(acted)
    {
      var s := Snapshot();
      if Enabled(config, s, step) && !Acts(me, step) {
        Load(Apply(config, s, step));
        Happen(s, step);
      }
    }

    /**
     Other goroutines and other clients take the actions of `slice` that are possible
     when their turn comes. A goroutine gives up its own turn only when it has acted
     or is blocked.
     */
    method Yield(me: Thread, slice: seq<Step>)
      requires Valid() && (acted || Blocked(me, Snapshot()))
      modifies this
      ensures Valid() && old(history) <= history && own == old(own) && Steady(me, old(Snapshot()), Snapshot())
      ensures Snapshot() == AfterTurns(config, me, old(Snapshot()), slice)
      ensures !acted && turns == old(turns) + 1 && waits == old(waits) + if old(acted) then 0 else 1
      ensures old(RunsAs(me)) ==> RunsAs(me)
    {
      for i := 0 to |slice|
        invariant Valid() && old(history) <= history && own == old(own)
        invariant turns == old(turns) && waits == old(waits) && acted == old(acted)
        invariant Snapshot() == AfterTurns(config, me, old(Snapshot()), slice[..i])
      {
        assert slice[..i + 1][..i] == slice[..i];
        Interfere(me, slice[i]);
      }
      assert slice[..|slice|] == slice;
      TurnsAreSteady(config, me, old(Snapshot()), slice);
      turns, waits, acted := turns + 1, waits + if acted then 0 else 1, false;
    }

    // ------------------------------------------------------------ the fetch loop

    // GetRecordsToDelete: the keys of the rows answered, in order; an error, or an answer that is none, yields no keys.
    method Query(answer: Answer) returns (vals: seq<Key>, act: FetcherAct)
      requires Valid() && fetcher == Waiting
      modifies this
      ensures Valid() && Did(Fetching(act)) && fetcher == Resume(vals, 0)
      ensures act == if answer.Rows? && IsAnswer(config, old(table), answer.time, answer.picks)
                     then Fetched(answer.time, answer.picks) else FetchFailed
      ensures act == FetchFailed ==> vals == [] && Snapshot() == old(Snapshot())
      ensures act.Fetched? ==>
                && |vals| == |act.picks| && |vals| <= config.getLimit
                && (forall i :: 0 <= i < |vals| ==>
                      && act.picks[i] < |table| && vals[i] == table[act.picks[i]].key
                      && table[act.picks[i]].shard == config.shard && vals[i].deathDate < act.time)
                && fetches == old(fetches) + [Fetch(act.time, RowsAt(table, act.picks))]
      ensures act.Fetched? && |vals| < config.getLimit ==>
                forall i: nat :: i < |table| && table[i].shard == config.shard && table[i].key.deathDate < act.time ==>
                  i in act.picks
      ensures Snapshot() == old(Snapshot()).(fetcher := fetcher, fetches := fetches)
    {
      ghost var s := Snapshot();
      if answer.Failed? || !IsAnswer(config, table, answer.time, answer.picks) {
        vals, act := [], FetchFailed;
        assert Snapshot() == FetcherApply(config, s, act);
        Log(s, Fetching(act));
        return;
      }
      var rows := RowsAt(table, answer.picks);
      vals, act := Map(rows, KeyOf), Fetched(answer.time, answer.picks);
      fetcher, fetches := Resume(vals, 0), fetches + [Fetch(answer.time, rows)];
      assert Snapshot() == FetcherApply(config, s, act);
      Log(s, Fetching(act));
    }

    // deleteSet.Add; `accepted` says whether the set had room for a new item.
    method Add(vals: seq<Key>, next: nat, accepted: bool) returns (ok: bool)
      requires Valid() && fetcher == Adding(vals, next) && next < |vals|
      modifies this
      ensures Valid() && Did(Fetching(if ok then AddNew else AddRefused))
      ensures ok == (accepted && vals[next] !in old(deleteSet))
      ensures fetcher == if ok then Raising(vals, next) else Resume(vals, next + 1)
      ensures deleteSet == if ok then old(deleteSet) + {vals[next]} else old(deleteSet)
      ensures Snapshot() == old(Snapshot()).(
                              keys := deleteSet, fetcher := fetcher,
                              added := old(added) + if ok then [vals[next]] else [])
    {
      ghost var s := Snapshot();
      ok := accepted && vals[next] !in deleteSet;
      if ok {
        deleteSet, added, fetcher := deleteSet + {vals[next]}, added + [vals[next]], Raising(vals, next);
        assert Snapshot() == FetcherApply(config, s, AddNew);
        Log(s, Fetching(AddNew));
      } else {
        fetcher := Resume(vals, next + 1);
        assert Snapshot() == FetcherApply(config, s, AddRefused);
        Log(s, Fetching(AddRefused));
      }
    }

    method CountAdded(vals: seq<Key>, next: nat)
      requires Valid() && fetcher == Raising(vals, next)
      modifies this
      ensures Valid() && Did(Fetching(RaiseGauge)) && fetcher == Resume(vals, next + 1)
      ensures Snapshot() == old(Snapshot()).(gauge := old(deletingQueue) + 1, fetcher := fetcher)
    {
      ghost var s := Snapshot();
      deletingQueue, fetcher := deletingQueue + 1, Resume(vals, next + 1);
      assert Snapshot() == FetcherApply(config, s, RaiseGauge);
      Log(s, Fetching(RaiseGauge));
    }

    method AddAll(vals: seq<Key>, room: seq<bool>, env: seq<seq<Step>>, from: nat) returns (i: nat, finished: bool)
      requires Valid() && acted && RunsAs(FetcherThread) && fetcher == Resume(vals, 0) && from <= |env|
      modifies this
      ensures Valid() && acted && RunsAs(FetcherThread) && old(history) <= history
      ensures from <= i <= |env| && turns == old(turns) + (i - from)
      ensures if finished then fetcher == Waiting else i == |env|
      ensures waits == old(waits) && Asks(own) == old(Asks(own))
    {
      i := from;
      var next := 0;
      while next < |vals|
        invariant Valid() && acted && RunsAs(FetcherThread) && old(history) <= history
        invariant from <= i <= |env| && turns == old(turns) + (i - from)
        invariant 0 <= next <= |vals| && fetcher == Resume(vals, next)
        invariant waits == old(waits) && Asks(own) == old(Asks(own))
      {
        i, finished := AddOne(vals, next, if next < |room| then room[next] else true, env, i);
        if !finished { return; }
        next := next + 1;
      }
      finished := true;
    }

    // One key is offered to the set; if it joins, the gauge goes up.
    method AddOne(vals: seq<Key>, next: nat, accepted: bool, env: seq<seq<Step>>, from: nat)
      returns (i: nat, finished: bool)
      requires Valid() && acted && RunsAs(FetcherThread) && fetcher == Adding(vals, next) && next < |vals|
      requires from <= |env|
      modifies this
      ensures Valid() && acted && RunsAs(FetcherThread) && old(history) <= history
      ensures from <= i <= |env| && turns == old(turns) + (i - from)
      ensures if finished then fetcher == Resume(vals, next + 1) else i == |env|
      ensures waits == old(waits) && Asks(own) == old(Asks(own))
    {
      i, finished := from, false;
      if i == |env| { return; }
      Yield(FetcherThread, env[i]);
      i := i + 1;
      ghost var before := own;
      var ok := Add(vals, next, accepted);
      AsksSnoc(before, Fetching(if ok then AddNew else AddRefused));
      if ok {
        if i == |env| { return; }
        CountInTurn(vals, next, env[i]);
        i := i + 1;
      }
      finished := true;
    }

    // Others run, then the gauge goes up for the key added.
    method CountInTurn(vals: seq<Key>, next: nat, slice: seq<Step>)
      requires Valid() && acted && RunsAs(FetcherThread) && fetcher == Raising(vals, next)
      modifies this
      ensures Valid() && acted && RunsAs(FetcherThread) && old(history) <= history && fetcher == Resume(vals, next + 1)
      ensures turns == old(turns) + 1 && waits == old(waits) && Asks(own) == old(Asks(own))
    {
      Yield(FetcherThread, slice);
      AsksSnoc(own, Fetching(RaiseGauge));
      CountAdded(vals, next);
    }

    // A tick: the next answer is fetched, and its keys are added.
    method FetchOnce(answers: seq<Answer>, a: nat, room: seq<bool>, env: seq<seq<Step>>, from: nat)
      returns (i: nat, finished: bool)
      requires Valid() && RunsAs(FetcherThread) && fetcher == Waiting && from <= |env|
      requires Answered(Asks(own), answers) && |Asks(own)| == a < |answers|
      modifies this
      ensures Valid() && acted && RunsAs(FetcherThread) && old(history) <= history
      ensures from <= i <= |env| && turns == old(turns) + (i - from)
      ensures if finished then fetcher == Waiting else i == |env|
      ensures waits == old(waits) && Answered(Asks(own), answers) && |Asks(own)| == a + 1
    {
      ghost var before := own;
      var vals, act := Query(answers[a]);
      AsksSnoc(before, Fetching(act));
      AnsweredSnoc(Asks(before), answers, act);
      i, finished := AddAll(vals, room, env, from);
    }

    method EndFetching()
      requires Valid() && fetcher == Waiting && stop != NotCalled
      modifies this
      ensures Valid() && Did(Fetching(FetcherStop)) && fetcher == FetcherDone && stop == old(stop)
      ensures Snapshot() == old(Snapshot()).(fetcher := FetcherDone)
    {
      ghost var s := Snapshot();
      fetcher := FetcherDone;
      assert Snapshot() == FetcherApply(config, s, FetcherStop);
      Log(s, Fetching(FetcherStop));
    }

    /** getRecordsToDelete. `done` says it returned; otherwise `env` ran out first. */
    method GetRecordsToDelete(answers: seq<Answer>, room: seq<bool>, env: seq<seq<Step>>) returns (done: bool)
      requires Valid() && fetcher == Waiting
      modifies this
      ensures Valid() && RunsAs(FetcherThread) && old(history) <= history
      ensures done ==> fetcher == FetcherDone && stop != NotCalled
      ensures done ==> own != [] && own[|own| - 1] == Fetching(FetcherStop)
      ensures !done ==> turns == |env|
      ensures Answered(Asks(own), answers) && (waits > 0 ==> |Asks(own)| == |answers|)
    {
      Begin(FetcherThread);
      var i, a := 0, 0;
      while i < |env|
        invariant Valid() && RunsAs(FetcherThread) && old(history) <= history && fetcher == Waiting
        invariant 0 <= i <= |env| && turns == i
        invariant acted || Blocked(FetcherThread, Snapshot())
        invariant Answered(Asks(own), answers) && |Asks(own)| == a && (waits > 0 || !acted ==> a == |answers|)
      {
        Yield(FetcherThread, env[i]);
        i := i + 1;
        if {
          case stop != NotCalled =>
            AsksSnoc(own, Fetching(FetcherStop));
            EndFetching();
            return true;
          case a < |answers| =>    // the ticker fires
            var finished;
            i, finished := FetchOnce(answers, a, room, env, i);
            a := a + 1;
            if !finished { return false; }
          case stop == NotCalled && a >= |answers| =>
        }
      }
      done := false;
    }

    // ------------------------------------------------------------ the pop loop

    // The popper moves on its own; `act` is one of its actions without a shared effect.
    method MoveTo(act: PopperAct)
      requires Valid() && (act.SeeStop? || act.Wake? || act.GrabbedAll?) && PopperEnabled(config, Snapshot(), act)
      modifies this
      ensures Valid() && Did(Looped(act))
      ensures popper == if act.SeeStop? then Grabbing(0) else if act.Wake? then Looping else PopperDone
      ensures Snapshot() == old(Snapshot()).(popper := popper)
    {
      ghost var s := Snapshot();
      popper := if act.SeeStop? then Grabbing(0) else if act.Wake? then Looping else PopperDone;
      assert Snapshot() == PopperApply(config, s, act);
      Log(s, Looped(act));
    }

    method StartPop()
      requires Valid() && popper == Looping
      modifies this
      ensures Valid() && Did(Looped(EnterSelect)) && popper == Selecting
      ensures Snapshot() == old(Snapshot()).(popper := Selecting, pops := old(pops) + [InPop])
    {
      ghost var s := Snapshot();
      popper, pops := Selecting, pops + [InPop];
      assert Snapshot() == PopperApply(config, s, EnterSelect);
      Log(s, Looped(EnterSelect));
    }

    method ReceiveItem() returns (item: Option<Key>)
      requires Valid() && popper == Selecting && ItemReady(Snapshot())
      modifies this
      ensures Valid() && Did(Looped(if item.Some? then TakeItem else SkipNil))
      ensures popper == if item.Some? then Got(item.value) else Looping
      ensures old(pops) == pops + [Delivering(item)]
      ensures Snapshot() == old(Snapshot()).(popper := popper, pops := pops)
    {
      ghost var s := Snapshot();
      item := pops[|pops| - 1].item;
      pops, popper := pops[..|pops| - 1], if item.Some? then Got(item.value) else Looping;
      ghost var act := if item.Some? then TakeItem else SkipNil;
      assert Snapshot() == PopperApply(config, s, act);
      Log(s, Looped(act));
    }

    method CountReceived(record: Key)
      requires Valid() && popper == Got(record)
      modifies this
      ensures Valid() && Did(Looped(LowerGauge)) && popper == Acquiring(record)
      ensures Snapshot() == old(Snapshot()).(popper := popper, gauge := old(deletingQueue) - 1)
    {
      ghost var s := Snapshot();
      deletingQueue, popper := deletingQueue - 1, Acquiring(record);
      assert Snapshot() == PopperApply(config, s, LowerGauge);
      Log(s, Looped(LowerGauge));
    }

    method SpawnWorker(record: Key)
      requires Valid() && popper == Acquiring(record) && deleteWorkers > 0
      modifies this
      ensures Valid() && Did(Looped(Spawn)) && popper == Sleeping
      ensures workers == old(workers) + [Worker(record, Deleting)]
      ensures Snapshot() == old(Snapshot()).(popper := popper, permits := old(deleteWorkers) - 1, workers := workers)
    {
      ghost var s := Snapshot();
      deleteWorkers, workers, popper := deleteWorkers - 1, workers + [Worker(record, Deleting)], Sleeping;
      assert Snapshot() == PopperApply(config, s, Spawn);
      Log(s, Looped(Spawn));
    }

    method GrabPermit(k: nat)
      requires Valid() && popper == Grabbing(k) && k < config.maxWorkers && deleteWorkers > 0
      modifies this
      ensures Valid() && Did(Looped(Grab)) && popper == Grabbing(k + 1)
      ensures Snapshot() == old(Snapshot()).(popper := popper, permits := old(deleteWorkers) - 1)
    {
      ghost var s := Snapshot();
      deleteWorkers, popper := deleteWorkers - 1, Grabbing(k + 1);
      assert Snapshot() == PopperApply(config, s, Grab);
      Log(s, Looped(Grab));
    }

    method AwaitPermit(env: seq<seq<Step>>, from: nat) returns (i: nat)
      requires Valid() && RunsAs(PopperThread) && from <= |env| && (popper.Acquiring? || popper.Grabbing?)
      modifies this
      ensures Valid() && RunsAs(PopperThread) && old(history) <= history && popper == old(popper)
      ensures from <= i <= |env| && (deleteWorkers > 0 || i == |env|) && turns == old(turns) + (i - from)
    {
      i := from;
      while i < |env| && deleteWorkers <= 0
        invariant Valid() && RunsAs(PopperThread) && old(history) <= history && popper == old(popper)
        invariant from <= i <= |env| && turns == old(turns) + (i - from)
      {
        Yield(PopperThread, env[i]);
        i := i + 1;
      }
    }

    // A received record goes to a delete goroutine, and the loop sleeps.
    method HandOver(record: Key, env: seq<seq<Step>>, from: nat) returns (i: nat, finished: bool)
      requires Valid() && RunsAs(PopperThread) && popper == Got(record) && from <= |env|
      modifies this
      ensures Valid() && RunsAs(PopperThread) && old(history) <= history
      ensures from <= i <= |env| && turns == old(turns) + (i - from)
      ensures if finished then acted && popper == Looping else i == |env|
    {
      CountReceived(record);
      i := AwaitPermit(env, from);
      if deleteWorkers <= 0 { return i, false; }
      SpawnWorker(record);
      if i == |env| { return i, false; }
      Yield(PopperThread, env[i]);
      i := i + 1;
      MoveTo(Wake);
      finished := true;
    }

    // The result of a `Pop` is received and dealt with, and the next `Pop` starts.
    method TakeOne(env: seq<seq<Step>>, from: nat) returns (i: nat, finished: bool)
      requires Valid() && RunsAs(PopperThread) && popper == Selecting && ItemReady(Snapshot()) && from <= |env|
      modifies this
      ensures Valid() && RunsAs(PopperThread) && old(history) <= history
      ensures from <= i <= |env| && turns == old(turns) + (i - from)
      ensures if finished then acted && popper == Selecting else i == |env|
    {
      i, finished := from, true;
      var item := ReceiveItem();
      if item.Some? { i, finished := HandOver(item.value, env, from); }
      if finished { StartPop(); }
    }

    // deleteLoop
    method PopLoop(env: seq<seq<Step>>) returns (i: nat, stopped: bool)
      requires Valid() && RunsAs(PopperThread) && acted && turns == 0 && popper == Looping
      modifies this
      ensures Valid() && RunsAs(PopperThread) && old(history) <= history && i <= |env| && turns == i
      ensures if stopped then popper == Grabbing(0) else i == |env|
    {
      i := 0;
      StartPop();
      while i < |env|
        invariant Valid() && RunsAs(PopperThread) && old(history) <= history && popper == Selecting
        invariant i <= |env| && turns == i
        invariant acted || Blocked(PopperThread, Snapshot())
      {
        Yield(PopperThread, env[i]);
        i := i + 1;
        if {
          case stop != NotCalled =>
            MoveTo(SeeStop);
            return i, true;
          case ItemReady(Snapshot()) =>
            var finished;
            i, finished := TakeOne(env, i);
            if !finished { return i, false; }
          case stop == NotCalled && !ItemReady(Snapshot()) =>    // nothing is ready yet
        }
      }
      stopped := false;
    }

    /** delete: the pop loop, then every permit, so that no delete goroutine is left. */
    method Delete(env: seq<seq<Step>>) returns (done: bool)
      requires Valid() && popper == Looping
      modifies this
      ensures Valid() && RunsAs(PopperThread) && old(history) <= history
      ensures done ==> own != [] && own[|own| - 1] == Looped(GrabbedAll) && popper == PopperDone
      ensures done ==> forall w :: 0 <= w < |workers| ==> workers[w].phase.Released?
      ensures !done ==> turns == |env|
    {
      Begin(PopperThread);
      var i, stopped := PopLoop(env);
      if !stopped { return false; }
      done := GrabAll(env, i);
      if done {
        InvHolds();
        NoneActive(workers);
      }
    }

    // Every permit is taken.
    method GrabAll(env: seq<seq<Step>>, from: nat) returns (done: bool)
      requires Valid() && RunsAs(PopperThread) && popper == Grabbing(0) && from <= |env| && turns == from
      modifies this
      ensures Valid() && RunsAs(PopperThread) && old(history) <= history
      ensures if done then popper == PopperDone && own != [] && own[|own| - 1] == Looped(GrabbedAll) else turns == |env|
    {
      var i, k := from, 0;
      while k < config.maxWorkers
        invariant Valid() && RunsAs(PopperThread) && old(history) <= history && i <= |env| && turns == i
        invariant 0 <= k <= config.maxWorkers && popper == Grabbing(k)
      {
        i := AwaitPermit(env, i);
        if deleteWorkers <= 0 { return false; }
        GrabPermit(k);
        k := k + 1;
      }
      MoveTo(GrabbedAll);
      done := true;
    }

    lemma NoneActive(workers: seq<Worker>)
      requires ISum(workers, Active) <= 0
      ensures forall w :: 0 <= w < |workers| ==> workers[w].phase.Released?
    {
      ISumNonNegative(workers, Active);
    }

    // ------------------------------------------------------------ delete goroutines and Stop

    /**
     deleteWorker: one DeleteRecord call, whose outcome is the database's (an outcome
     the table does not allow counts as an error), then the permit goes back whether
     or not the call succeeded.
     */
    method DeleteWorker(w: nat, ok: bool, at: Option<nat>, env: seq<seq<Step>>)
      returns (done: bool, called: WorkerAct, ghost n: nat)
      requires Valid() && w < |workers| && workers[w].phase == Deleting
      modifies this
      ensures Valid() && RunsAs(WorkerThread(w)) && old(history) <= history
      ensures own == [] || DeleteMade(config, initial, history, n, w, old(workers)[w].key, ok, at, called)
      ensures var all := [Work(w, called), Work(w, Release)]; if done then own == all else own < all
      ensures done ==> w < |workers| && workers[w] == old(workers)[w].(phase := Released)
      ensures !done ==> turns == |env|
    {
      Begin(WorkerThread(w));
      called, n, done := DeleteReturns(ok, at), 0, false;
      if |env| == 0 { return; }
      called, n := CallInTurn(w, ok, at, env[0]);
      if |env| == 1 { return; }
      ghost var reached := history;
      Yield(WorkerThread(w), env[1]);
      ReleasePermit(w);
      DeleteMadeLater(config, initial, reached, history, n, w, old(workers)[w].key, ok, at, called);
      done := true;
    }

    // Others run, then DeleteRecord returns.
    method CallInTurn(w: nat, ok: bool, at: Option<nat>, slice: seq<Step>) returns (called: WorkerAct, ghost n: nat)
      requires Valid() && acted && RunsAs(WorkerThread(w)) && w < |workers| && workers[w].phase == Deleting
      modifies this
      ensures Valid() && acted && RunsAs(WorkerThread(w)) && old(history) <= history && turns == old(turns) + 1
      ensures own == old(own) + [Work(w, called)]
      ensures w < |workers| && workers[w] == old(workers)[w].(phase := Deleted)
      ensures DeleteMade(config, initial, history, n, w, old(workers)[w].key, ok, at, called)
    {
      Yield(WorkerThread(w), slice);
      n := |history|;
      ghost var before := history;
      called := CallDelete(w, ok, at);
      assert history[..n] == before;
    }

    method ReleasePermit(w: nat)
      requires Valid() && w < |workers| && workers[w].phase == Deleted
      modifies this
      ensures Valid() && Did(Work(w, Release))
      ensures workers == old(workers)[w := old(workers)[w].(phase := Released)]
      ensures Snapshot() == old(Snapshot()).(permits := old(deleteWorkers) + 1, workers := workers)
    {
      ghost var s := Snapshot();
      workers, deleteWorkers := workers[w := workers[w].(phase := Released)], deleteWorkers + 1;
      assert Snapshot() == WorkerApply(config, s, w, Release);
      Log(s, Work(w, Release));
    }

    method CallDelete(w: nat, ok: bool, at: Option<nat>) returns (called: WorkerAct)
      requires Valid() && w < |workers| && workers[w].phase == Deleting
      modifies this
      ensures called == if old(DeleteOutcome(config, table, workers[w].key, ok, at)) then DeleteReturns(ok, at)
                        else DeleteReturns(false, None)
      ensures Valid() && Did(Work(w, called)) && workers == old(workers)[w := old(workers)[w].(phase := Deleted)]
    {
      called := if DeleteOutcome(config, table, workers[w].key, ok, at) then DeleteReturns(ok, at)
                else DeleteReturns(false, None);
      RecordCall(w, called.ok, called.at);
    }

    method RecordCall(w: nat, ok: bool, at: Option<nat>)
      requires Valid() && w < |workers| && workers[w].phase == Deleting
      requires DeleteOutcome(config, table, workers[w].key, ok, at)
      modifies this
      ensures Valid() && Did(Work(w, DeleteReturns(ok, at)))
      ensures workers == old(workers)[w := old(workers)[w].(phase := Deleted)]
      ensures Snapshot() == old(Snapshot()).(
                              workers := workers,
                              table := if at.None? then old(table)
                                       else old(table)[..at.value] + old(table)[at.value + 1..],
                              calls := old(calls) + [DeleteCall(old(workers)[w].key, ok,
                                                                if at.Some? then Some(old(table)[at.value]) else None,
                                                                |old(fetches)|)])
    {
      ghost var s := Snapshot();
      calls := calls + [DeleteCall(workers[w].key, ok, if at.Some? then Some(table[at.value]) else None, |fetches|)];
      table := if at.Some? then Without(table, at.value) else table;
      workers := workers[w := workers[w].(phase := Deleted)];
      assert Snapshot() == WorkerApply(config, s, w, DeleteReturns(ok, at));
      Log(s, Work(w, DeleteReturns(ok, at)));
    }

    /** Stop: it waits for both loops; what it leaves unprocessed is accounted for exactly. */
    method Stop(env: seq<seq<Step>>) returns (done: bool)
      requires Valid() && stop == NotCalled
      modifies this
      ensures Valid() && RunsAs(Stopper) && old(history) <= history
      ensures done ==> stop == Returned && multiset(added) == multiset(Map(calls, CallKey)) + Abandoned(Snapshot())
      ensures !done ==> turns == |env|
    {
      Begin(Stopper);
      MoveStop(Close);
      var joined := WaitForLoops(env);
      if !joined { return false; }
      MoveStop(StopReturn);
      InvHolds();
      ShutdownAccounting(config, Snapshot());
      done := true;
    }

    method MoveStop(act: StopAct)
      requires Valid() && StopEnabled(Snapshot(), act)
      modifies this
      ensures Valid() && Did(Halt(act)) && stop == if act.Close? then Closed else Returned
      ensures Snapshot() == old(Snapshot()).(stop := stop)
    {
      ghost var s := Snapshot();
      stop := if act.Close? then Closed else Returned;
      assert Snapshot() == StopApply(s, act);
      Log(s, Halt(act));
    }

    // The wait group: both loops have ended.
    method WaitForLoops(env: seq<seq<Step>>) returns (joined: bool)
      requires Valid() && RunsAs(Stopper) && acted && stop == Closed && turns == 0
      modifies this
      ensures Valid() && RunsAs(Stopper) && old(history) <= history && stop == Closed
      ensures if joined then fetcher.FetcherDone? && popper.PopperDone? else turns == |env|
    {
      var i := 0;
      while i < |env| && !(fetcher.FetcherDone? && popper.PopperDone?)
        invariant Valid() && RunsAs(Stopper) && old(history) <= history && stop == Closed && i <= |env| && turns == i
        invariant acted || Blocked(Stopper, Snapshot()) || (fetcher.FetcherDone? && popper.PopperDone?)
      {
        Yield(Stopper, env[i]);
        i := i + 1;
      }
      joined := fetcher.FetcherDone? && popper.PopperDone?;
    }

    lemma InvHolds()
      requires Valid()
      ensures Inv(config, Snapshot())
    {
      Reached(config, initial, history);
    }
  }
}
