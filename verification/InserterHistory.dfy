/**
 What the inserter's run says of itself: the histories in a state are read off the
 list of steps, and every batch is cut for a reason found there.
 */
module InserterHistory {
  import opened Records
  import opened Sums
  import opened InserterProtocol
  import opened InserterTheorems

  // ---------------------------------------------------------------- what was sent and received

  // The records sent, in order.
  function Sends(steps: seq<Step>): seq<RecordWithTime> {
    if steps == [] then []
    else
      var step := steps[|steps| - 1];
      Sends(steps[..|steps| - 1]) + if step.Produce? && step.produce.Send? then [step.produce.rwt] else []
  }

  // The batchers that received, in order of receipt.
  function Receivers(steps: seq<Step>): seq<nat> {
    if steps == [] then []
    else
      var step := steps[|steps| - 1];
      Receivers(steps[..|steps| - 1])
        + if step.Batch? && (step.batch == Take || step.batch == TakeMore) then [step.b] else []
  }

  lemma {:induction false} RunFront(c: Config, s: State, steps: seq<Step>)
    requires steps != [] && CanRun(c, s, steps)
    ensures var front, last := steps[..|steps| - 1], steps[|steps| - 1];
            && CanRun(c, s, front) && Enabled(c, After(c, s, front), last)
            && After(c, s, steps) == Apply(c, After(c, s, front), last)
    decreases |steps|
  {
    if |steps| > 1 {
      RunFront(c, Apply(c, s, steps[0]), steps[1..]);
      assert steps[1..][..|steps| - 2] == steps[..|steps| - 1][1..];
    }
  }

  /** The records accepted are those sent, in order, and each was received by the batcher whose action it was. */
  lemma {:induction false} AcceptedAreSent(c: Config, steps: seq<Step>)
    requires ValidConfig(c) && CanRun(c, Init(c), steps)
    ensures var s := After(c, Init(c), steps); s.accepted == Sends(steps) && s.routes == Receivers(steps)
  {
    if steps != [] {
      RunFront(c, Init(c), steps);
      AcceptedAreSent(c, steps[..|steps| - 1]);
    }
  }

  /** A record can be sent exactly when the queue is open and has room, and it has data and a beginning to track. */
  lemma SendIff(c: Config, s: State, rwt: RecordWithTime)
    ensures Enabled(c, s, Produce(Send(rwt))) <==>
            !s.closed && |s.queue| < c.queueSize && rwt.record.data != [] && (c.tracking ==> rwt.beginning != 0)
  {
  }

  /** What is accepted has data and, with a tracker, a beginning; and the queue never holds more than its capacity. */
  lemma AcceptedAreGood(c: Config, steps: seq<Step>)
    requires ValidConfig(c) && CanRun(c, Init(c), steps)
    ensures forall i :: 0 <= i < |Sends(steps)| ==>
              Sends(steps)[i].record.data != [] && (c.tracking ==> Sends(steps)[i].beginning != 0)
    ensures |After(c, Init(c), steps).queue| <= c.queueSize
  {
    AcceptedAreSent(c, steps);
    InitKeepsInv(c);
    RunKeepsInv(c, Init(c), steps);
  }

  /** Once `Stop` has returned, the records sent are exactly those passed to InsertRecords, with multiplicity. */
  lemma SentAreInserted(c: Config, steps: seq<Step>)
    requires ValidConfig(c) && CanRun(c, Init(c), steps) && After(c, Init(c), steps).stop.Returned?
    ensures multiset(Map(Sends(steps), RecordOf)) == multiset(Flat(After(c, Init(c), steps).calls, PassedTo))
  {
    AcceptedAreSent(c, steps);
    InitKeepsInv(c);
    RunKeepsInv(c, Init(c), steps);
    StopHasInsertedAll(c, After(c, Init(c), steps));
  }

  // ---------------------------------------------------------------- calls

  // The returns of InsertRecords, in order: whose it was, and the outcome.
  function Returns(steps: seq<Step>): seq<(nat, bool)> {
    if steps == [] then []
    else
      var step := steps[|steps| - 1];
      Returns(steps[..|steps| - 1]) + if step.Work? && step.work.Return? then [(step.w, step.work.ok)] else []
  }

  // One call for each return, with the whole batch of the goroutine that made it.
  predicate CallsMatch(s: State, outcomes: seq<(nat, bool)>) {
    && |s.calls| == |outcomes|
    && forall i :: 0 <= i < |outcomes| ==>
         outcomes[i].0 < |s.workers| && s.calls[i] == DbCall(s.workers[outcomes[i].0].records, outcomes[i].1)
  }

  lemma CallsMatchStep(c: Config, s: State, step: Step, outcomes: seq<(nat, bool)>)
    requires CallsMatch(s, outcomes) && Enabled(c, s, step)
    ensures CallsMatch(Apply(c, s, step),
                       outcomes + if step.Work? && step.work.Return? then [(step.w, step.work.ok)] else [])
  {
    match step
    case Produce(act) => assert Apply(c, s, step) == ProducerApply(c, s, act);
    case Batch(b, act) => assert s.workers <= BatcherApply(c, s, b, act).workers;
    case Work(w, act) => CallsMatchWork(c, s, w, act, outcomes);
    case Halt(act) => assert Apply(c, s, step) == StopApply(c, s, act);
  }

  lemma CallsMatchWork(c: Config, s: State, w: nat, act: WorkerAct, outcomes: seq<(nat, bool)>)
    requires CallsMatch(s, outcomes) && w < |s.workers| && WorkerEnabled(c, s.workers[w], act)
    ensures CallsMatch(WorkerApply(c, s, w, act), outcomes + if act.Return? then [(w, act.ok)] else [])
  {
    var t := WorkerApply(c, s, w, act);
    assert forall v :: 0 <= v < |s.workers| ==> t.workers[v].records == s.workers[v].records;
  }

  lemma {:induction false} CallsAreReturns(c: Config, steps: seq<Step>)
    requires ValidConfig(c) && CanRun(c, Init(c), steps)
    ensures CallsMatch(After(c, Init(c), steps), Returns(steps))
  {
    if steps != [] {
      RunFront(c, Init(c), steps);
      CallsAreReturns(c, steps[..|steps| - 1]);
      CallsMatchStep(c, After(c, Init(c), steps[..|steps| - 1]), steps[|steps| - 1], Returns(steps[..|steps| - 1]));
    }
  }

  // ---------------------------------------------------------------- why a batch is cut

  /**
   A batch is complete exactly when the ticker fires, the closed queue is found empty,
   or a size is set and the record just appended reaches it.
   */
  lemma CompleteIff(c: Config, s: State, step: Step, b: nat)
    requires Enabled(c, s, step) && b < |s.batchers| && !s.batchers[b].Acquiring?
    ensures |Apply(c, s, step).batchers| == |s.batchers|
    ensures Apply(c, s, step).batchers[b].Acquiring? <==>
            || step == Batch(b, Tick)
            || (step == Batch(b, SeeClosed) && s.closed && s.queue == [])
            || (step == Batch(b, CountMore) && c.maxBatchSize != 0 && |s.batchers[b].records| + 1 >= c.maxBatchSize)
  {
  }

  // The last action of the batcher.
  function LastAct(steps: seq<Step>, b: nat): Option<BatcherAct> {
    if steps == [] then None
    else
      var step := steps[|steps| - 1];
      if step.Batch? && step.b == b then Some(step.batch) else LastAct(steps[..|steps| - 1], b)
  }

  // Why batcher `b`, whose batch is complete, completed it.
  predicate CutReason(c: Config, steps: seq<Step>, s: State, b: nat)
    requires b < |s.batchers| && s.batchers[b].Acquiring?
  {
    || LastAct(steps, b) == Some(Tick)
    || (LastAct(steps, b) == Some(SeeClosed) && s.closed && s.queue == [])
    || (LastAct(steps, b) == Some(CountMore) && c.maxBatchSize != 0 && |s.batchers[b].records| >= c.maxBatchSize)
  }

  lemma CutReasonStays(c: Config, steps: seq<Step>, s: State, step: Step, b: nat)
    requires Enabled(c, s, step) && b < |s.batchers|
    requires s.batchers[b].Acquiring? ==> CutReason(c, steps, s, b)
    ensures var t := Apply(c, s, step);
            b < |t.batchers| && (t.batchers[b].Acquiring? ==> CutReason(c, steps + [step], t, b))
  {
    assert (steps + [step])[..|steps|] == steps;
    if !s.batchers[b].Acquiring? { CompleteIff(c, s, step, b); }
  }

  lemma {:induction false} CompleteForAReason(c: Config, steps: seq<Step>, b: nat)
    requires ValidConfig(c) && CanRun(c, Init(c), steps) && b < c.parseWorkers
    ensures var s := After(c, Init(c), steps);
            b < |s.batchers| && (s.batchers[b].Acquiring? ==> CutReason(c, steps, s, b))
  {
    if steps != [] {
      var front, last := steps[..|steps| - 1], steps[|steps| - 1];
      RunFront(c, Init(c), steps);
      CompleteForAReason(c, front, b);
      CutReasonStays(c, front, After(c, Init(c), front), last, b);
      assert steps == front + [last];
    }
  }

  /**
   No batch is cut early: one that is dispatched with fewer records than the size
   asks for, or with no size set, follows a tick of its own batcher, or its finding
   the queue closed and empty.
   */
  lemma ShortBatchHasReason(c: Config, steps: seq<Step>, b: nat)
    requires ValidConfig(c) && CanRun(c, Init(c), steps) && Enabled(c, After(c, Init(c), steps), Batch(b, Dispatch))
    ensures var s := After(c, Init(c), steps);
            var t := Apply(c, s, Batch(b, Dispatch));
            && |t.workers| == |s.workers| + 1 && t.workers[..|s.workers|] == s.workers
            && var batch := t.workers[|s.workers|];
               && batch.owner == b && batch.phase == Inserting
               && (c.maxBatchSize == 0 || |batch.records| < c.maxBatchSize ==>
                     LastAct(steps, b) == Some(Tick)
                     || (LastAct(steps, b) == Some(SeeClosed) && s.closed && s.queue == []))
  {
    InitKeepsInv(c);
    RunKeepsInv(c, Init(c), steps);
    CompleteForAReason(c, steps, b);
  }
}
