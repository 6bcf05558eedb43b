/**
 The batch inserter itself: an object whose fields the goroutines update in
 place. Each goroutine body is written out; at every scheduling point it lets
 other goroutines run a slice of `env`, an arbitrary list of their actions. What
 each body does, together with that interference, is proved to be a run of the
 protocol, so the protocol's theorems hold of the object.
 */
module BatchInsertion {
  import opened Records
  import opened Sums
  import opened InserterProtocol
  import opened InserterTheorems

  datatype InsertError = NoError | BadBeginning | BadData

  const MIN_PARSE_WORKERS := 1
  const MIN_INSERT_WORKERS := 1
  const DEFAULT_INSERT_WORKERS := 5
  const MIN_MAX_BATCH_SIZE := 0
  const DEFAULT_MAX_BATCH_SIZE := 1
  const DEFAULT_MIN_QUEUE_SIZE := 5

  /** The constructor's repair of bad settings. */
  function Repaired(c: Config): (r: Config)
    ensures ValidConfig(r) && r.tracking == c.tracking
    ensures ValidConfig(c) ==> r == c
    ensures r.parseWorkers == c.parseWorkers || (c.parseWorkers < 1 && r.parseWorkers == 1)
    ensures r.maxInsertWorkers == c.maxInsertWorkers || (c.maxInsertWorkers < 1 && r.maxInsertWorkers == 5)
    ensures r.maxBatchSize == c.maxBatchSize || (c.maxBatchSize < 0 && r.maxBatchSize == 1)
    ensures r.queueSize == c.queueSize || (c.queueSize < 5 && r.queueSize == 5)
  {
    c.(parseWorkers := if c.parseWorkers < MIN_PARSE_WORKERS then MIN_PARSE_WORKERS else c.parseWorkers,
       maxInsertWorkers :=
         if c.maxInsertWorkers < MIN_INSERT_WORKERS then DEFAULT_INSERT_WORKERS else c.maxInsertWorkers,
       maxBatchSize := if c.maxBatchSize < MIN_MAX_BATCH_SIZE then DEFAULT_MAX_BATCH_SIZE else c.maxBatchSize,
       queueSize := if c.queueSize < DEFAULT_MIN_QUEUE_SIZE then DEFAULT_MIN_QUEUE_SIZE else c.queueSize)
  }

  /** The goroutine whose body is running; `Pending` is a producer between its send and its gauge update. */
  datatype Thread = BatcherThread(b: nat) | WorkerThread(w: nat) | Stopper | Sender | Pending

  // The goroutine's own actions.
  predicate Acts(me: Thread, step: Step) {
    match me
    case BatcherThread(b) => step.Batch? && step.b == b
    case WorkerThread(w) => step.Work? && step.w == w
    case Stopper => step.Halt?
    case Sender => step.Produce?
    case Pending => step == Produce(GaugeUp)
  }

  // The actions other goroutines can take. While a producer is inserting, nobody calls Stop.
  predicate Foreign(me: Thread, s: State, step: Step) {
    match me
    case BatcherThread(_) => !Acts(me, step)
    case WorkerThread(_) => !Acts(me, step)
    case Stopper => !Acts(me, step)
    case Sender => step != Halt(Close)
    case Pending => step == Produce(GaugeUp) ==> s.adding > 1
  }

  // What another goroutine's turn leads to: its action, if it is possible.
  function AfterTurn(c: Config, me: Thread, s: State, step: Step): State {
    if Enabled(c, s, step) && Foreign(me, s, step) then Apply(c, s, step) else s
  }

  // All the turns of a slice.
  function AfterTurns(c: Config, me: Thread, s: State, slice: seq<Step>): State {
    if slice == [] then s
    else AfterTurn(c, me, AfterTurns(c, me, s, slice[..|slice| - 1]), slice[|slice| - 1])
  }

  /**
   Others can take every possible action that is not the goroutine's own; while a
   producer inserts, every one but Stop's first and the gauge update it owes itself.
   */
  lemma OthersCanActIff(c: Config, me: Thread, s: State, step: Step)
    requires Enabled(c, s, step) && Apply(c, s, step) != s
    ensures me.BatcherThread? || me.WorkerThread? || me.Stopper? ==>
              (AfterTurn(c, me, s, step) == Apply(c, s, step) <==> !Acts(me, step))
    ensures me == Sender ==> (AfterTurn(c, me, s, step) == Apply(c, s, step) <==> step != Halt(Close))
    ensures me == Pending ==>
              (AfterTurn(c, me, s, step) == Apply(c, s, step) <==> step != Produce(GaugeUp) || s.adding > 1)
  {
  }

  // What stays as it was while others run.
  predicate Steady(me: Thread, s: State, t: State) {
    match me
    case BatcherThread(b) =>
      |t.batchers| == |s.batchers| && (b < |s.batchers| ==> t.batchers[b] == s.batchers[b])
    case WorkerThread(w) =>
      |s.workers| <= |t.workers| && (w < |s.workers| ==> t.workers[w] == s.workers[w])
    case Stopper => t.stop == s.stop
    case Sender => s.closed == t.closed
    case Pending => s.adding > 0 ==> t.adding > 0
  }

  // The goroutine has no action of its own to take until others have run; the ticker aside.
  predicate Blocked(c: Config, me: Thread, s: State) {
    match me
    case BatcherThread(b) =>
      b < |s.batchers|
      && (((s.batchers[b].Idle? || s.batchers[b].Select?) && s.queue == [] && !s.closed)
          || (s.batchers[b].Acquiring? && s.permits <= 0))
    case WorkerThread(_) => false
    case Stopper => (s.stop == Joining && !AllDone(s)) || (s.stop.Grabbing? && s.permits <= 0)
    case Sender => |s.queue| >= c.queueSize
    case Pending => false
  }

  // Where a goroutine is when it may have to wait.
  predicate UnderWay(c: Config, me: Thread, s: State) {
    match me
    case BatcherThread(b) => b < |s.batchers| && !s.batchers[b].Done?
    case WorkerThread(w) => w < |s.workers| && GoodWorker(c, s.workers[w]) && !s.workers[w].phase.Released?
    case Stopper => s.stop == Joining || (s.stop.Grabbing? && s.stop.taken < c.maxInsertWorkers)
    case _ => false
  }

  /** A goroutine is blocked exactly when no action of its own is possible, the ticker's aside. */
  lemma BlockedIff(c: Config, me: Thread, s: State)
    requires UnderWay(c, me, s)
    ensures Blocked(c, me, s) <==>
            forall step :: Acts(me, step) && !(step.Batch? && step.batch == Tick) ==> !Enabled(c, s, step)
  {
    if !Blocked(c, me, s) {
      var step := PossibleAct(c, me, s);
      assert Acts(me, step) && Enabled(c, s, step);
    }
  }

  lemma PossibleAct(c: Config, me: Thread, s: State) returns (step: Step)
    requires UnderWay(c, me, s) && !Blocked(c, me, s)
    ensures Acts(me, step) && Enabled(c, s, step) && !(step.Batch? && step.batch == Tick)
  {
    match me
    case BatcherThread(b) =>
      var act := match s.batchers[b]
                 case Idle => if s.queue != [] then Take else Finish
                 case First(_) => CountFirst
                 case Select(_, _) => if s.queue != [] then TakeMore else SeeClosed
                 case More(_, _, _) => CountMore
                 case Acquiring(_, _) => Dispatch
                 case Done => Finish;
      step := Batch(b, act);
    case WorkerThread(w) =>
      var act := match s.workers[w].phase
                 case Inserting => Return(true, 0)
                 case Failed => CountDropped(0)
                 case Tracking(_, next, _) => if c.tracking && next < |s.workers[w].times| then Track else Release
                 case Released(_) => Release;
      step := Work(w, act);
    case Stopper =>
      step := Halt(if s.stop == Joining then Join else Grab);
  }

  // The goroutine is about to take a permit.
  predicate AtSemaphore(me: Thread, s: State) {
    (me.BatcherThread? && me.b < |s.batchers| && s.batchers[me.b].Acquiring?) || (me.Stopper? && s.stop.Grabbing?)
  }

  lemma SteadyTransitive(me: Thread, s: State, t: State, u: State)
    requires Steady(me, s, t) && Steady(me, t, u)
    ensures Steady(me, s, u)
  {
  }

  lemma ForeignIsSteady(c: Config, me: Thread, s: State, step: Step)
    requires Enabled(c, s, step) && Foreign(me, s, step)
    ensures Steady(me, s, Apply(c, s, step))
  {
  }

  // Through all the turns of a slice the goroutine's own part stays as it was.
  lemma {:induction false} TurnsAreSteady(c: Config, me: Thread, s: State, slice: seq<Step>)
    ensures Steady(me, s, AfterTurns(c, me, s, slice)) && s.tracked <= AfterTurns(c, me, s, slice).tracked
  {
    if slice != [] {
      var t, step := AfterTurns(c, me, s, slice[..|slice| - 1]), slice[|slice| - 1];
      TurnsAreSteady(c, me, s, slice[..|slice| - 1]);
      if AfterTurn(c, me, t, step) != t {
        ForeignIsSteady(c, me, t, step);
        SteadyTransitive(me, s, t, Apply(c, t, step));
      }
    }
  }

  class BatchInserter {
    const config: Config
    var insertQueue: seq<RecordWithTime>
    var closed: bool
    var insertWorkers: int
    var insertingQueue: int
    var droppedEvents: int
    var adding: nat
    var batchers: seq<Batcher>
    var workers: seq<Worker>
    var stop: StopPhase
    var accepted: seq<RecordWithTime>
    var routes: seq<nat>
    var calls: seq<DbCall>
    var tracked: seq<TrackCall>
    ghost var history: seq<Step>    // every action taken since Start
    // About the goroutine whose body is running, since it began:
    ghost var own: seq<Step>        // its own actions
    ghost var turns: nat            // how often others were let run
    ghost var waits: nat            // how often that was because it was blocked
    ghost var acted: bool           // whether it has acted since they last were

    function Snapshot(): State
      reads this
    {
      State(insertQueue, closed, insertWorkers, insertingQueue, droppedEvents, adding, batchers, workers, stop,
            accepted, routes, calls, tracked)
    }

    ghost predicate At(s: State)
      reads this`history
    {
      ValidConfig(config) && CanRun(config, Init(config), history) && After(config, Init(config), history) == s
    }

    // The object is where a run of the protocol led, and `own` is part of that run.
    ghost predicate Valid()
      reads this
    {
      At(Snapshot()) && Within(own, history)
    }

    // The goroutine took this one action.
    twostate predicate Did(step: Step)
      reads this
    {
      && history == old(history) + [step] && own == old(own) + [step]
      && acted && turns == old(turns) && waits == old(waits)
    }

    // All its actions are those of `me`, and it has acted at each of its turns unless blocked.
    ghost predicate RunsAs(me: Thread)
      reads this
    {
      && turns + (if acted then 1 else 0) <= |own| + waits + 1
      && forall k :: 0 <= k < |own| ==> Acts(me, own[k])
    }

    // A goroutine begins, and owes nothing yet.
    ghost method Begin(me: Thread)
      requires Valid()
      modifies this`own, this`turns, this`waits, this`acted
      ensures Valid() && RunsAs(me) && acted && own == [] && turns == waits == 0
    {
      own, turns, waits, acted := [], 0, 0, true;
    }

    /** NewBatchInserter followed by Start. */
    constructor (config: Config)
      ensures Valid() && this.config == Repaired(config) && history == own == []
    {
      var c := Repaired(config);
      this.config := c;
      insertQueue, closed, insertWorkers := [], false, c.maxInsertWorkers;
      insertingQueue, droppedEvents, adding := 0, 0, 0;
      batchers, workers, stop := seq(c.parseWorkers, _ => Idle), [], NotCalled;
      accepted, routes, calls, tracked := [], [], [], [];
      history, own, turns, waits, acted := [], [], 0, 0, true;
    }

    // The state has moved by one action of the protocol.
    ghost method Happen(before: State, step: Step)
      requires At(before) && Within(own, history)
      requires Enabled(config, before, step) && Snapshot() == Apply(config, before, step)
      modifies this`history
      ensures Valid() && history == old(history) + [step]
    {
      RunSnoc(config, Init(config), history, step);
      WithinMore(own, history, step);
      history := history + [step];
    }

    // It was the action of the goroutine whose body is running.
    ghost method Log(before: State, step: Step)
      requires At(before) && Within(own, history)
      requires Enabled(config, before, step) && Snapshot() == Apply(config, before, step)
      modifies this`history, this`own, this`acted
      ensures Valid() && acted && history == old(history) + [step] && own == old(own) + [step]
    {
      WithinBoth(own, history, step);
      Happen(before, step);
      own, acted := own + [step], true;
    }

    method Load(t: State)
      modifies this`insertQueue, this`closed, this`insertWorkers, this`insertingQueue, this`droppedEvents, this`adding
      modifies this`batchers, this`workers, this`stop, this`accepted, this`routes, this`calls, this`tracked
      ensures Snapshot() == t
    {
      insertQueue, closed, insertWorkers := t.queue, t.closed, t.permits;
      insertingQueue, droppedEvents, adding := t.gauge, t.dropped, t.adding;
      LoadRest(t);
    }

    method LoadRest(t: State)
      modifies this`batchers, this`workers, this`stop, this`accepted, this`routes, this`calls, this`tracked
      ensures batchers == t.batchers && workers == t.workers && stop == t.stop
      ensures accepted == t.accepted && routes == t.routes && calls == t.calls && tracked == t.tracked
    {
      batchers, workers, stop := t.batchers, t.workers, t.stop;
      accepted, routes, calls, tracked := t.accepted, t.routes, t.calls, t.tracked;
    }

    // Another goroutine takes the action, if it can.
    method Interfere(me: Thread, step: Step)
      requires Valid()
      modifies this
      ensures Valid() && old(history) <= history
      ensures Snapshot() == AfterTurn(config, me, old(Snapshot()), step)
      ensures own == old(own) && turns == old(turns) && waits == old(waits) && acted == old(acted)
    {
      var s := Snapshot();
      if Enabled(config, s, step) && Foreign(me, s, step) {
        Load(Apply(config, s, step));
        Happen(s, step);
      }
    }

    /**
     Other goroutines take the actions of `slice` that are possible when their turn
     comes. A goroutine gives up its own turn only when it has acted or is blocked.
     */
    method Yield(me: Thread, slice: seq<Step>)
      requires Valid() && (acted || Blocked(config, me, Snapshot()))
      modifies this
      ensures Valid() && old(history) <= history && own == old(own) && Steady(me, old(Snapshot()), Snapshot())
      ensures old(tracked) <= tracked && Snapshot() == AfterTurns(config, me, old(Snapshot()), slice)
      ensures !acted && turns == old(turns) + 1 && waits == old(waits) + if old(acted) then 0 else 1
      ensures old(RunsAs(me)) ==> RunsAs(me)
    {
      for i := 0 to |slice|
        invariant Valid() && old(history) <= history && own == old(own)
        invariant turns == old(turns) && waits == old(waits) && acted == old(acted)
        invariant Snapshot() == AfterTurns(config, me, old(Snapshot()), slice[..i])
      {
        assert slice[..i + 1][..i] == slice[..i];
        Interfere(me, slice[i]);
      }
      assert slice[..|slice|] == slice;
      TurnsAreSteady(config, me, old(Snapshot()), slice);
      turns, waits, acted := turns + 1, waits + if acted then 0 else 1, false;
    }

    // ------------------------------------------------------------ producers

    /**
     Insert: a bad record is refused and nothing changes; otherwise the record is
     sent once, when the channel has room.
     */
    method Insert(rwt: RecordWithTime, env: seq<seq<Step>>) returns (err: InsertError, done: bool)
      requires Valid() && !closed
      modifies this
      ensures Valid() && old(history) <= history
      ensures err == if config.tracking && rwt.beginning == 0 then BadBeginning
                     else if rwt.record.data == [] then BadData else NoError
      ensures err != NoError ==> Snapshot() == old(Snapshot())
      ensures own == if done && err == NoError then [Produce(Send(rwt)), Produce(GaugeUp)] else []
      ensures env == [] ==> history == old(history) + own
      ensures !done ==> turns == |env|
    {
      Begin(Sender);
      if config.tracking && IsZero(rwt.beginning) { return BadBeginning, true; }
      if |rwt.record.data| == 0 { return BadData, true; }
      err := NoError;
      var i := AwaitRoom(env);
      if |insertQueue| >= config.queueSize { return NoError, false; }
      SendRecord(rwt);
      if i < |env| { Yield(Pending, env[i]); }
      CountSent();
      done := true;
    }

    // Wait until the channel has room.
    method AwaitRoom(env: seq<seq<Step>>) returns (i: nat)
      requires Valid() && !closed && own == [] && turns == 0
      modifies this
      ensures Valid() && old(history) <= history && !closed && own == [] && i <= |env| && turns == i
      ensures |insertQueue| < config.queueSize || i == |env|
      ensures i == 0 ==> history == old(history)
    {
      i := 0;
      while i < |env| && |insertQueue| >= config.queueSize
        invariant Valid() && old(history) <= history && !closed && own == [] && i <= |env| && turns == i
        invariant i == 0 ==> history == old(history)
      {
        Yield(Sender, env[i]);
        i := i + 1;
      }
    }

    method SendRecord(rwt: RecordWithTime)
      requires Valid() && !closed && |insertQueue| < config.queueSize && Acceptable(config, rwt)
      modifies this
      ensures Valid() && Did(Produce(Send(rwt))) && adding > old(adding)
      ensures Snapshot() == old(Snapshot()).(queue := old(insertQueue) + [rwt], accepted := old(accepted) + [rwt],
                                             adding := old(adding) + 1)
    {
      ghost var s := Snapshot();
      insertQueue, accepted, adding := insertQueue + [rwt], accepted + [rwt], adding + 1;
      Log(s, Produce(Send(rwt)));
    }

    method CountSent()
      requires Valid() && adding > 0
      modifies this
      ensures Valid() && Did(Produce(GaugeUp))
      ensures Snapshot() == old(Snapshot()).(gauge := old(insertingQueue) + 1, adding := old(adding) - 1)
    {
      ghost var s := Snapshot();
      insertingQueue, adding := insertingQueue + 1, adding - 1;
      assert Snapshot() == ProducerApply(config, s, GaugeUp);
      Log(s, Produce(GaugeUp));
    }

    // ------------------------------------------------------------ batchers

    predicate BatcherAt(b: nat, x: Batcher)
      reads this
    {
      b < |batchers| && batchers[b] == x
    }

    method ReceiveFirst(b: nat) returns (rwt: RecordWithTime)
      requires Valid() && BatcherAt(b, Idle) && insertQueue != []
      modifies this
      ensures Valid() && Did(Batch(b, Take)) && BatcherAt(b, First(rwt)) && rwt == old(insertQueue)[0]
      ensures Snapshot() == old(Snapshot()).(queue := old(insertQueue)[1..], routes := old(routes) + [b],
                                             batchers := old(batchers)[b := First(rwt)])
    {
      ghost var s := Snapshot();
      rwt := insertQueue[0];
      insertQueue, routes, batchers := insertQueue[1..], routes + [b], batchers[b := First(rwt)];
      assert Snapshot() == BatcherApply(config, s, b, Take);
      Log(s, Batch(b, Take));
    }

    method ReceiveNext(b: nat, records: seq<Record>, beginTimes: seq<Time>) returns (rwt: RecordWithTime)
      requires Valid() && BatcherAt(b, Select(records, beginTimes)) && insertQueue != []
      modifies this
      ensures Valid() && Did(Batch(b, TakeMore))
      ensures BatcherAt(b, More(records, beginTimes, rwt)) && rwt == old(insertQueue)[0]
      ensures Snapshot() == old(Snapshot()).(queue := old(insertQueue)[1..], routes := old(routes) + [b],
                                             batchers := old(batchers)[b := More(records, beginTimes, rwt)])
    {
      ghost var s := Snapshot();
      rwt := insertQueue[0];
      insertQueue, routes, batchers := insertQueue[1..], routes + [b], batchers[b := More(records, beginTimes, rwt)];
      assert Snapshot() == BatcherApply(config, s, b, TakeMore);
      Log(s, Batch(b, TakeMore));
    }

    // The gauge goes down for a received record, and the batcher's slices are as `x` says.
    method CountReceived(b: nat, act: BatcherAct, x: Batcher)
      requires Valid() && b < |batchers| && Counts(act) && BatcherEnabled(Snapshot(), batchers[b], act)
      requires x == NextBatcher(config, Snapshot(), batchers[b], act)
      modifies this
      ensures Valid() && Did(Batch(b, act)) && BatcherAt(b, x)
      ensures Snapshot() == old(Snapshot()).(gauge := old(insertingQueue) - 1, batchers := old(batchers)[b := x])
    {
      ghost var s := Snapshot();
      insertingQueue, batchers := insertingQueue - 1, batchers[b := x];
      assert Snapshot() == BatcherApply(config, s, b, act);
      Log(s, Batch(b, act));
    }

    // The batcher moves without touching anything shared.
    method MoveTo(b: nat, act: BatcherAct, x: Batcher)
      requires Valid() && b < |batchers| && (act.Tick? || act.SeeClosed? || act.Finish?)
      requires BatcherEnabled(Snapshot(), batchers[b], act) && x == NextBatcher(config, Snapshot(), batchers[b], act)
      modifies this
      ensures Valid() && Did(Batch(b, act)) && BatcherAt(b, x)
      ensures Snapshot() == old(Snapshot()).(batchers := old(batchers)[b := x])
    {
      ghost var s := Snapshot();
      batchers := batchers[b := x];
      assert Snapshot() == BatcherApply(config, s, b, act);
      Log(s, Batch(b, act));
    }

    // A permit is taken and a goroutine starts inserting the batch.
    method Spawn(b: nat, records: seq<Record>, beginTimes: seq<Time>)
      requires Valid() && BatcherAt(b, Acquiring(records, beginTimes)) && insertWorkers > 0
      modifies this
      ensures Valid() && Did(Batch(b, Dispatch)) && BatcherAt(b, Idle)
      ensures workers == old(workers) + [Worker(b, records, beginTimes, Inserting)]
      ensures Snapshot() == old(Snapshot()).(permits := old(insertWorkers) - 1, batchers := old(batchers)[b := Idle],
                                             workers := workers)
    {
      ghost var s := Snapshot();
      insertWorkers, batchers := insertWorkers - 1, batchers[b := Idle];
      workers := workers + [Worker(b, records, beginTimes, Inserting)];
      assert Snapshot() == BatcherApply(config, s, b, Dispatch);
      Log(s, Batch(b, Dispatch));
    }

    // Wait until the semaphore has a permit.
    method AwaitPermit(me: Thread, env: seq<seq<Step>>, from: nat) returns (i: nat)
      requires Valid() && RunsAs(me) && from <= |env| && AtSemaphore(me, Snapshot())
      modifies this
      ensures Valid() && RunsAs(me) && old(history) <= history
      ensures own == old(own) && Steady(me, old(Snapshot()), Snapshot())
      ensures from <= i <= |env| && (insertWorkers > 0 || i == |env|) && turns == old(turns) + (i - from)
    {
      i := from;
      while i < |env| && insertWorkers <= 0
        invariant Valid() && RunsAs(me) && old(history) <= history
        invariant own == old(own) && Steady(me, old(Snapshot()), Snapshot())
        invariant from <= i <= |env| && turns == old(turns) + (i - from)
      {
        ghost var s := Snapshot();
        Yield(me, env[i]);
        SteadyTransitive(me, old(Snapshot()), s, Snapshot());
        i := i + 1;
      }
    }

    /**
     batchRecords: the body of batcher `b`; `ticks(i)` says whether its ticker has fired
     at turn `i`. `done` says it returned; otherwise it is still going when `env` runs
     out. Whatever the others do, the object stays on a run of the protocol, and the
     batcher acts at each of its turns unless blocked.
     */
    method BatchRecords(b: nat, ticks: nat -> bool, env: seq<seq<Step>>) returns (done: bool)
      requires Valid() && BatcherAt(b, Idle)
      modifies this
      ensures Valid() && RunsAs(BatcherThread(b)) && old(history) <= history
      ensures done ==> BatcherAt(b, Done) && own != [] && own[|own| - 1] == Batch(b, Finish)
      ensures !done ==> turns == |env|
    {
      Begin(BatcherThread(b));
      var i := 0;
      while i < |env|
        invariant Valid() && RunsAs(BatcherThread(b)) && old(history) <= history && BatcherAt(b, Idle)
        invariant 0 <= i <= |env| && turns == i
        invariant acted || Blocked(config, BatcherThread(b), Snapshot())
      {
        Yield(BatcherThread(b), env[i]);
        i := i + 1;
        if insertQueue == [] && closed {
          MoveTo(b, Finish, Done);
          return true;
        }
        if insertQueue != [] {
          var dispatched;
          dispatched, i := OneBatch(b, ticks, env, i);
          if !dispatched { return false; }
        }
      }
      done := false;
    }

    // From the first record of a batch to its dispatch.
    method OneBatch(b: nat, ticks: nat -> bool, env: seq<seq<Step>>, from: nat) returns (dispatched: bool, i: nat)
      requires Valid() && RunsAs(BatcherThread(b)) && BatcherAt(b, Idle) && insertQueue != [] && from <= |env|
      modifies this
      ensures Valid() && RunsAs(BatcherThread(b)) && old(history) <= history
      ensures from <= i <= |env| && turns == old(turns) + (i - from)
      ensures if dispatched then acted && BatcherAt(b, Idle) else i == |env|
    {
      var rwt := ReceiveFirst(b);
      if from == |env| { return false, from; }
      Yield(BatcherThread(b), env[from]);
      dispatched, i := FillBatch(b, rwt, ticks, env, from + 1);
    }

    // The inner loop: collect one batch and hand it to an insert goroutine.
    method FillBatch(b: nat, rwt: RecordWithTime, ticks: nat -> bool, env: seq<seq<Step>>, from: nat)
      returns (dispatched: bool, i: nat)
      requires Valid() && RunsAs(BatcherThread(b)) && BatcherAt(b, First(rwt)) && from <= |env|
      modifies this
      ensures Valid() && RunsAs(BatcherThread(b)) && old(history) <= history
      ensures from <= i <= |env| && turns == old(turns) + (i - from)
      ensures dispatched ==> acted && BatcherAt(b, Idle) && own != [] && own[|own| - 1] == Batch(b, Dispatch)
      ensures !dispatched ==> i == |env|
    {
      var insertRecords := false;
      var records, beginTimes := [rwt.record], [rwt.beginning];
      i := from;
      CountReceived(b, CountFirst, Select(records, beginTimes));
      while i < |env|
        invariant Valid() && RunsAs(BatcherThread(b)) && old(history) <= history && !insertRecords
        invariant from <= i <= |env| && turns == old(turns) + (i - from)
        invariant BatcherAt(b, Select(records, beginTimes))
        invariant acted || Blocked(config, BatcherThread(b), Snapshot())
      {
        records, beginTimes, insertRecords, i := SelectOnce(b, records, beginTimes, ticks(i), env, i);
        if insertRecords {
          dispatched, i := DispatchBatch(b, records, beginTimes, env, i);
          return;
        } else if batchers[b].More? {
          return false, i;
        }
      }
      dispatched := false;
    }

    // A permit is awaited, and the batch goes to a goroutine.
    method DispatchBatch(b: nat, records: seq<Record>, beginTimes: seq<Time>, env: seq<seq<Step>>, from: nat)
      returns (dispatched: bool, i: nat)
      requires Valid() && RunsAs(BatcherThread(b)) && BatcherAt(b, Acquiring(records, beginTimes)) && from <= |env|
      requires acted || Blocked(config, BatcherThread(b), Snapshot())
      modifies this
      ensures Valid() && RunsAs(BatcherThread(b)) && old(history) <= history
      ensures from <= i <= |env| && turns == old(turns) + (i - from)
      ensures dispatched ==> acted && BatcherAt(b, Idle) && own != [] && own[|own| - 1] == Batch(b, Dispatch)
      ensures !dispatched ==> i == |env|
    {
      i := AwaitPermit(BatcherThread(b), env, from);
      dispatched := insertWorkers > 0;
      if dispatched { Spawn(b, records, beginTimes); }
    }

    // One pass through the inner select; any ready case may be chosen, the ticker's when it has fired.
    method SelectOnce(
      b: nat, records: seq<Record>, beginTimes: seq<Time>, tick: bool, env: seq<seq<Step>>, from: nat)
      returns (records': seq<Record>, beginTimes': seq<Time>, insertRecords: bool, i: nat)
      requires Valid() && RunsAs(BatcherThread(b)) && from < |env| && BatcherAt(b, Select(records, beginTimes))
      requires acted || Blocked(config, BatcherThread(b), Snapshot())
      modifies this
      ensures Valid() && RunsAs(BatcherThread(b)) && old(history) <= history
      ensures from < i <= |env| && turns == old(turns) + (i - from)
      ensures insertRecords ==> BatcherAt(b, Acquiring(records', beginTimes'))
      ensures !insertRecords ==>
                BatcherAt(b, Select(records', beginTimes')) || (b < |batchers| && batchers[b].More? && i == |env|)
      ensures acted || Blocked(config, BatcherThread(b), Snapshot())
      ensures insertRecords ==>
                own != [] && match own[|own| - 1].batch
                             case Tick => true
                             case SeeClosed => closed && insertQueue == []
                             case CountMore => config.maxBatchSize != 0 && |records'| >= config.maxBatchSize
                             case _ => false
      ensures !insertRecords && own != old(own) && BatcherAt(b, Select(records', beginTimes')) ==>
                |records'| == |records| + 1 && !(config.maxBatchSize != 0 && |records'| >= config.maxBatchSize)
      ensures own == old(own) ==> !tick && insertQueue == [] && !closed
      ensures insertRecords && own[|own| - 1] == Batch(b, Tick) ==> tick && records' == records
    {
      records', beginTimes', insertRecords, i := records, beginTimes, false, from + 1;
      Yield(BatcherThread(b), env[from]);
      if {
        case tick =>
          insertRecords := true;
          MoveTo(b, Tick, Acquiring(records, beginTimes));
        case insertQueue == [] && closed =>
          insertRecords := true;
          MoveTo(b, SeeClosed, Acquiring(records, beginTimes));
        case !tick && insertQueue == [] && !closed =>    // nothing is ready yet
        case insertQueue != [] =>
          records', beginTimes', insertRecords, i := ReceiveMore(b, records, beginTimes, env, i);
      }
    }

    // A further record is received; the size is checked once it has been appended.
    method ReceiveMore(b: nat, records: seq<Record>, beginTimes: seq<Time>, env: seq<seq<Step>>, from: nat)
      returns (records': seq<Record>, beginTimes': seq<Time>, insertRecords: bool, i: nat)
      requires Valid() && RunsAs(BatcherThread(b)) && from <= |env|
      requires BatcherAt(b, Select(records, beginTimes)) && insertQueue != []
      modifies this
      ensures Valid() && RunsAs(BatcherThread(b)) && old(history) <= history
      ensures acted && from <= i <= |env| && turns == old(turns) + (i - from)
      ensures insertRecords ==> BatcherAt(b, Acquiring(records', beginTimes'))
      ensures !insertRecords ==>
                BatcherAt(b, Select(records', beginTimes')) || (b < |batchers| && batchers[b].More? && i == |env|)
      ensures |own| > |old(own)|
      ensures insertRecords || BatcherAt(b, Select(records', beginTimes')) ==>
                && records' == records + [old(insertQueue)[0].record]
                && beginTimes' == beginTimes + [old(insertQueue)[0].beginning]
                && own[|own| - 1] == Batch(b, CountMore)
                && (insertRecords <==> config.maxBatchSize != 0 && |records'| >= config.maxBatchSize)
    {
      records', beginTimes', insertRecords, i := records, beginTimes, false, from;
      var rwt := ReceiveNext(b, records, beginTimes);
      if i == |env| { return; }
      Yield(BatcherThread(b), env[i]);
      i := i + 1;
      records', beginTimes' := records + [rwt.record], beginTimes + [rwt.beginning];
      insertRecords := config.maxBatchSize != 0 && |records'| >= config.maxBatchSize;
      var next := if insertRecords then Acquiring(records', beginTimes') else Select(records', beginTimes');
      CountReceived(b, CountMore, next);
    }

    // ------------------------------------------------------------ insert goroutines

    predicate WorkerAt(w: nat, records: seq<Record>, beginTimes: seq<Time>, p: Phase)
      reads this
    {
      w < |workers| && workers[w].records == records && workers[w].times == beginTimes && workers[w].phase == p
    }

    // Of the goroutines before, at most the phase of `w` has changed.
    predicate OnlyPhase(w: nat, before: seq<Worker>)
      reads this
    {
      && |workers| == |before| && w < |workers|
      && workers == before[w := before[w].(phase := workers[w].phase)]
    }

    // InsertRecords returns; its outcome is not ours to choose.
    method CallInserter(w: nat, records: seq<Record>, beginTimes: seq<Time>, ok: bool, now: Time)
      requires Valid() && WorkerAt(w, records, beginTimes, Inserting)
      modifies this
      ensures Valid() && Did(Work(w, Return(ok, now)))
      ensures WorkerAt(w, records, beginTimes, if ok then Tracking(now, 0, true) else Failed)
      ensures calls == old(calls) + [DbCall(records, ok)]
      ensures Snapshot() == old(Snapshot()).(calls := calls, workers := workers)
      ensures OnlyPhase(w, old(workers))
    {
      ghost var s := Snapshot();
      workers := workers[w := workers[w].(phase := if ok then Tracking(now, 0, true) else Failed)];
      calls := calls + [DbCall(records, ok)];
      assert Snapshot() == WorkerApply(config, s, w, Return(ok, now));
      Log(s, Work(w, Return(ok, now)));
    }

    method AddDropped(w: nat, records: seq<Record>, beginTimes: seq<Time>, now: Time)
      requires Valid() && WorkerAt(w, records, beginTimes, Failed)
      modifies this
      ensures Valid() && Did(Work(w, CountDropped(now)))
      ensures WorkerAt(w, records, beginTimes, Tracking(now, 0, false))
      ensures Snapshot() == old(Snapshot()).(dropped := old(droppedEvents) + |records|, workers := workers)
      ensures OnlyPhase(w, old(workers))
    {
      ghost var s := Snapshot();
      workers := workers[w := workers[w].(phase := Tracking(now, 0, false))];
      droppedEvents := droppedEvents + |records|;
      assert Snapshot() == WorkerApply(config, s, w, CountDropped(now));
      Log(s, Work(w, CountDropped(now)));
    }

    method TrackTime(w: nat, records: seq<Record>, beginTimes: seq<Time>, end: Time, next: nat, ok: bool)
      requires Valid() && config.tracking && WorkerAt(w, records, beginTimes, Tracking(end, next, ok))
      requires next < |beginTimes| && next < |records|
      modifies this
      ensures Valid() && Did(Work(w, Track))
      ensures WorkerAt(w, records, beginTimes, Tracking(end, next + 1, ok))
      ensures tracked == old(tracked) + [TrackCall(records[next], beginTimes[next], end)]
      ensures Snapshot() == old(Snapshot()).(tracked := tracked, workers := workers)
      ensures OnlyPhase(w, old(workers))
    {
      ghost var s := Snapshot();
      ghost var x := workers[w];
      assert NextPhase(config, x, Track) == Tracking(end, next + 1, ok);
      workers := workers[w := workers[w].(phase := Tracking(end, next + 1, ok))];
      tracked := tracked + [TrackCall(records[next], beginTimes[next], end)];
      assert Snapshot() == WorkerApply(config, s, w, Track);
      Log(s, Work(w, Track));
    }

    method ReleasePermit(w: nat, records: seq<Record>, beginTimes: seq<Time>, end: Time, next: nat, ok: bool)
      requires Valid() && WorkerAt(w, records, beginTimes, Tracking(end, next, ok))
      requires config.tracking ==> next >= |beginTimes|
      modifies this
      ensures Valid() && Did(Work(w, Release))
      ensures WorkerAt(w, records, beginTimes, Released(ok))
      ensures Snapshot() == old(Snapshot()).(permits := old(insertWorkers) + 1, workers := workers)
      ensures OnlyPhase(w, old(workers))
    {
      ghost var s := Snapshot();
      workers := workers[w := workers[w].(phase := Released(ok))];
      insertWorkers := insertWorkers + 1;
      assert Snapshot() == WorkerApply(config, s, w, Release);
      Log(s, Work(w, Release));
    }

    // The actions of one insert goroutine: the call, the drop counter on error, `times` calls of TrackTime, the permit.
    function Script(w: nat, ok: bool, now: Time, times: nat): seq<Step> {
      Outcome(w, ok, now) + (Tracks(w, times) + [Work(w, Release)])
    }

    function Outcome(w: nat, ok: bool, now: Time): seq<Step> {
      if ok then [Work(w, Return(ok, now))] else [Work(w, Return(ok, now)), Work(w, CountDropped(now))]
    }

    function Tracks(w: nat, times: nat): seq<Step> { seq(times, _ => Work(w, Track)) }

    // Others run, then one time is tracked: the call at `n`.
    method TrackNext(
      w: nat, records: seq<Record>, beginTimes: seq<Time>, end: Time, next: nat, ok: bool, slice: seq<Step>)
      returns (ghost n: nat)
      requires Valid() && acted && RunsAs(WorkerThread(w)) && config.tracking
      requires WorkerAt(w, records, beginTimes, Tracking(end, next, ok)) && next < |beginTimes| == |records|
      modifies this
      ensures Valid() && acted && RunsAs(WorkerThread(w)) && old(history) <= history
      ensures turns == old(turns) + 1 && own == old(own) + [Work(w, Track)]
      ensures WorkerAt(w, records, beginTimes, Tracking(end, next + 1, ok))
      ensures old(tracked) <= tracked && |old(tracked)| <= n < |tracked|
      ensures n == |tracked| - 1 && tracked[n] == TrackCall(records[next], beginTimes[next], end)
    {
      Yield(WorkerThread(w), slice);
      TrackTime(w, records, beginTimes, end, next, ok);
      n := |tracked| - 1;
    }

    /**
     sendTimes, with other goroutines running between the calls of TrackTime. The calls
     made are those for the first `next` records, in order and all with the one end
     time: `at` says where they are among all such calls.
     */
    method SendTimes(
      w: nat, records: seq<Record>, beginTimes: seq<Time>, end: Time, ok: bool, env: seq<seq<Step>>, from: nat)
      returns (i: nat, next: nat, ghost at: seq<nat>)
      requires Valid() && WorkerAt(w, records, beginTimes, Tracking(end, 0, ok)) && |records| == |beginTimes|
      requires from <= |env| && acted && RunsAs(WorkerThread(w))
      modifies this
      ensures Valid() && acted && RunsAs(WorkerThread(w)) && old(history) <= history
      ensures own == old(own) + Tracks(w, next)
      ensures from <= i <= |env| && turns == old(turns) + (i - from)
      ensures next <= |beginTimes| && WorkerAt(w, records, beginTimes, Tracking(end, next, ok))
      ensures if config.tracking then i < |env| ==> next == |beginTimes| else next == 0
      ensures |at| == next && forall k :: 0 <= k < next ==>
                |old(tracked)| <= at[k] < |tracked| && (k > 0 ==> at[k - 1] < at[k])
                && tracked[at[k]] == TrackCall(records[k], beginTimes[k], end)
    {
      i, next, at := from, 0, [];
      if config.tracking {
        while next < |beginTimes| && i < |env|
          invariant Valid() && acted && RunsAs(WorkerThread(w)) && old(history) <= history
          invariant own == old(own) + Tracks(w, next)
          invariant from <= i <= |env| && turns == old(turns) + (i - from)
          invariant next <= |beginTimes| && WorkerAt(w, records, beginTimes, Tracking(end, next, ok))
          invariant old(tracked) <= tracked && |at| == next
          invariant forall k :: 0 <= k < next ==>
                      |old(tracked)| <= at[k] < |tracked| && (k > 0 ==> at[k - 1] < at[k])
                      && tracked[at[k]] == TrackCall(records[k], beginTimes[k], end)
        {
          ghost var n := TrackNext(w, records, beginTimes, end, next, ok, env[i]);
          i, next, at := i + 1, next + 1, at + [n];
        }
      }
    }

    /**
     insertRecords: the goroutine of batch `w`. Its actions are exactly the script: one
     call, the drop counter on error, every begin time on both paths, and the permit.
     */
    method InsertRecords(w: nat, records: seq<Record>, beginTimes: seq<Time>, ok: bool, now: Time, env: seq<seq<Step>>)
      returns (done: bool)
      requires Valid() && WorkerAt(w, records, beginTimes, Inserting)
      modifies this
      ensures Valid() && RunsAs(WorkerThread(w)) && old(history) <= history
      ensures var all := Script(w, ok, now, if config.tracking then |beginTimes| else 0);
              if done then own == all else own < all
      ensures done ==> WorkerAt(w, records, beginTimes, Released(ok))
      ensures !done ==> turns == |env|
    {
      Begin(WorkerThread(w));
      var i, called := CallAndCount(w, records, beginTimes, ok, now, env);
      if !called { return false; }
      done := Report(w, records, beginTimes, ok, now, env, i);
    }

    // The call; if it fails, its records are counted as dropped.
    method CallAndCount(w: nat, records: seq<Record>, beginTimes: seq<Time>, ok: bool, now: Time, env: seq<seq<Step>>)
      returns (i: nat, called: bool)
      requires Valid() && acted && RunsAs(WorkerThread(w)) && own == [] && turns == 0
      requires WorkerAt(w, records, beginTimes, Inserting)
      modifies this
      ensures Valid() && acted && RunsAs(WorkerThread(w)) && old(history) <= history && i <= |env| && turns == i
      ensures if called then own == Outcome(w, ok, now) else own < Outcome(w, ok, now) && i == |env|
      ensures called ==> WorkerAt(w, records, beginTimes, Tracking(now, 0, ok))
    {
      i, called := 0, false;
      if |env| == 0 { return; }
      Yield(WorkerThread(w), env[0]);
      CallInserter(w, records, beginTimes, ok, now);
      i := 1;
      if !ok {
        if |env| == 1 { return; }
        Yield(WorkerThread(w), env[1]);
        AddDropped(w, records, beginTimes, now);
        i := 2;
      }
      called := true;
    }

    method Report(
      w: nat, records: seq<Record>, beginTimes: seq<Time>, ok: bool, now: Time, env: seq<seq<Step>>, from: nat)
      returns (done: bool)
      requires Valid() && acted && RunsAs(WorkerThread(w)) && WorkerAt(w, records, beginTimes, Tracking(now, 0, ok))
      requires from <= |env|
      modifies this
      ensures Valid() && RunsAs(WorkerThread(w)) && old(history) <= history
      ensures var all := old(own) + (Tracks(w, if config.tracking then |beginTimes| else 0) + [Work(w, Release)]);
              if done then own == all else own < all
      ensures done ==> WorkerAt(w, records, beginTimes, Released(ok))
      ensures !done ==> turns == old(turns) + (|env| - from)
    {
      InvHolds();
      var i, next, at := SendTimes(w, records, beginTimes, now, ok, env, from);
      if i == |env| { return false; }
      Yield(WorkerThread(w), env[i]);
      ReleasePermit(w, records, beginTimes, now, next, ok);
      done := true;
    }

    lemma InvHolds()
      requires Valid()
      ensures Inv(config, Snapshot())
    {
      InitKeepsInv(config);
      RunKeepsInv(config, Init(config), history);
    }

    // ------------------------------------------------------------ stop

    method MoveStop(act: StopAct)
      requires Valid() && StopEnabled(config, Snapshot(), act)
      modifies this
      ensures Valid() && Did(Halt(act))
      ensures Snapshot() == match act
                            case Close => old(Snapshot()).(closed := true, stop := Joining)
                            case Join => old(Snapshot()).(stop := Grabbing(0))
                            case Grab => old(Snapshot()).(permits := old(insertWorkers) - 1,
                                                          stop := Grabbing(old(Snapshot()).stop.taken + 1))
                            case StopReturn => old(Snapshot()).(stop := Returned)
    {
      ghost var s := Snapshot();
      match act {
        case Close => closed, stop := true, Joining;
        case Join => stop := Grabbing(0);
        case Grab => insertWorkers, stop := insertWorkers - 1, Grabbing(stop.taken + 1);
        case StopReturn => stop := Returned;
      }
      assert Snapshot() == StopApply(config, s, act);
      Log(s, Halt(act));
    }

    /**
     Stop: close the channel, wait for the batchers, then take every permit. If it
     returns, exactly the accepted records have been passed to InsertRecords and no
     goroutine is left.
     */
    method Stop(env: seq<seq<Step>>) returns (done: bool)
      requires Valid() && stop == NotCalled
      modifies this
      ensures Valid() && RunsAs(Stopper) && old(history) <= history
      ensures done ==> stop.Returned? && insertQueue == [] && AllDone(Snapshot()) && AllReleased(Snapshot())
      ensures done ==> multiset(Map(accepted, RecordOf)) == multiset(Flat(calls, PassedTo))
      ensures !done ==> turns == |env|
    {
      Begin(Stopper);
      MoveStop(Close);
      var i, joined := WaitForBatchers(env);
      if !joined { return false; }
      done := GrabAll(env, i);
      if done {
        InvHolds();
        StoppedIsQuiet(config, Snapshot());
        StopHasInsertedAll(config, Snapshot());
      }
    }

    // The wait group: every batcher has returned.
    method WaitForBatchers(env: seq<seq<Step>>) returns (i: nat, joined: bool)
      requires Valid() && RunsAs(Stopper) && acted && stop == Joining && turns == 0
      modifies this
      ensures Valid() && RunsAs(Stopper) && old(history) <= history && i <= |env| && turns == i
      ensures if joined then stop == Grabbing(0) else i == |env|
    {
      i := 0;
      while i < |env| && !AllDone(Snapshot())
        invariant Valid() && RunsAs(Stopper) && old(history) <= history && stop == Joining
        invariant i <= |env| && turns == i
        invariant acted || Blocked(config, Stopper, Snapshot()) || AllDone(Snapshot())
      {
        Yield(Stopper, env[i]);
        i := i + 1;
      }
      joined := AllDone(Snapshot());
      if joined { MoveStop(Join); }
    }

    // Every permit is taken.
    method GrabAll(env: seq<seq<Step>>, from: nat) returns (done: bool)
      requires Valid() && RunsAs(Stopper) && stop == Grabbing(0) && from <= |env| && turns == from
      modifies this
      ensures Valid() && RunsAs(Stopper) && old(history) <= history
      ensures if done then stop == Returned else turns == |env|
    {
      var i, k := from, 0;
      while k < config.maxInsertWorkers
        invariant Valid() && RunsAs(Stopper) && old(history) <= history && i <= |env| && turns == i
        invariant 0 <= k <= config.maxInsertWorkers && stop == Grabbing(k)
      {
        i := AwaitPermit(Stopper, env, i);
        if insertWorkers <= 0 { return false; }
        MoveStop(Grab);
        k := k + 1;
      }
      MoveStop(StopReturn);
      done := true;
    }
  }
}
