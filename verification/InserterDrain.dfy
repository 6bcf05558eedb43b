/** `Stop` drains: a closed inserter takes boundedly many more steps and is never stuck before `Stop` returns. */
module InserterDrain {
  import opened Records
  import opened Sums
  import opened InserterProtocol
  import opened InserterTheorems

  // Steps a batcher can still cause, through the release of the batch it holds.
  function BatcherWork(b: Batcher): int {
    match b
    case Idle => 1
    case First(_) => 8
    case Select(_, times) => 6 + |times|
    case More(_, times, _) => 8 + |times|
    case Acquiring(_, times) => 5 + |times|
    case Done => 0
  }

  function WorkerWork(w: Worker): int {
    match w.phase
    case Inserting => 3 + |w.times|
    case Failed => 2 + |w.times|
    case Tracking(_, next, _) => if next <= |w.times| then 1 + |w.times| - next else 1
    case Released(_) => 0
  }

  function StopWork(c: Config, p: StopPhase): int {
    match p
    case NotCalled => c.maxInsertWorkers + 3
    case Joining => c.maxInsertWorkers + 2
    case Grabbing(taken) => c.maxInsertWorkers + 1 - taken
    case Returned => 0
  }

  const SEND_COST: int := 10

  // An upper bound on the steps left if nothing more is sent.
  function Measure(c: Config, s: State): int {
    8 * |s.queue| + s.adding + ISum(s.batchers, BatcherWork) + ISum(s.workers, WorkerWork) + StopWork(c, s.stop)
  }

  lemma MeasureNonNegative(c: Config, s: State)
    requires Inv(c, s)
    ensures Measure(c, s) >= 0
  {
    ISumNonNegative(s.batchers, BatcherWork);
    ISumNonNegative(s.workers, WorkerWork);
  }

  predicate Sends(step: Step) { step.Produce? && step.produce.Send? }

  lemma MeasureStep(c: Config, s: State, step: Step)
    requires Inv(c, s) && Enabled(c, s, step)
    ensures Measure(c, Apply(c, s, step)) + 1 <= Measure(c, s) + if Sends(step) then SEND_COST else 0
  {
    match step
    case Produce(act) =>
    case Batch(b, act) => MeasureBatch(c, s, b, act);
    case Work(w, act) => MeasureWork(c, s, w, act);
    case Halt(act) =>
  }

  lemma MeasureBatch(c: Config, s: State, b: nat, act: BatcherAct)
    requires Shape(c, s) && b < |s.batchers| && BatcherEnabled(s, s.batchers[b], act)
    ensures Measure(c, BatcherApply(c, s, b, act)) + 1 <= Measure(c, s)
  {
    var x := s.batchers[b];
    ISumUpdate(s.batchers, b, NextBatcher(c, s, x, act), BatcherWork);
    if act.Dispatch? { ISumAppend(s.workers, Worker(b, x.records, x.times, Inserting), WorkerWork); }
  }

  lemma MeasureWork(c: Config, s: State, w: nat, act: WorkerAct)
    requires w < |s.workers| && GoodWorker(c, s.workers[w]) && WorkerEnabled(c, s.workers[w], act)
    ensures Measure(c, WorkerApply(c, s, w, act)) + 1 <= Measure(c, s)
  {
    ISumUpdate(s.workers, w, s.workers[w].(phase := NextPhase(c, s.workers[w], act)), WorkerWork);
  }

  function SendCount(steps: seq<Step>): nat {
    if steps == [] then 0 else SendCount(steps[1..]) + if Sends(steps[0]) then 1 else 0
  }

  /** Every run is short: each accepted record costs at most ten steps beyond those already due. */
  lemma {:induction false} RunIsBounded(c: Config, s: State, steps: seq<Step>)
    requires Inv(c, s) && CanRun(c, s, steps)
    ensures |steps| + Measure(c, After(c, s, steps)) <= Measure(c, s) + SEND_COST * SendCount(steps)
    decreases |steps|
  {
    if steps != [] {
      MeasureStep(c, s, steps[0]);
      StepKeepsInv(c, s, steps[0]);
      RunIsBounded(c, Apply(c, s, steps[0]), steps[1..]);
    }
  }

  lemma {:induction false} NoSendOnceClosed(c: Config, s: State, steps: seq<Step>)
    requires s.closed && CanRun(c, s, steps)
    ensures SendCount(steps) == 0 && After(c, s, steps).closed
    decreases |steps|
  {
    if steps != [] { NoSendOnceClosed(c, Apply(c, s, steps[0]), steps[1..]); }
  }

  /** Before `Stop` returns some goroutine can move, without waiting for the ticker. */
  lemma Progress(c: Config, s: State) returns (step: Step)
    requires Inv(c, s) && s.closed && !s.stop.Returned?
    ensures Enabled(c, s, step) && !step.Produce? && (step.Batch? ==> !step.batch.Tick?)
  {
    if w :| 0 <= w < |s.workers| && !s.workers[w].phase.Released? {
      step := MoveWorker(c, s, w);
    } else {
      ISumZero(s.workers, Active);
      if s.stop == Joining {
        if b :| 0 <= b < |s.batchers| && !s.batchers[b].Done? {
          step := MoveBatcher(c, s, b);
        } else {
          step := Halt(Join);
        }
      } else {
        step := Halt(if s.stop.taken < c.maxInsertWorkers then Grab else StopReturn);
      }
    }
  }

  lemma MoveWorker(c: Config, s: State, w: nat) returns (step: Step)
    requires w < |s.workers| && GoodWorker(c, s.workers[w]) && !s.workers[w].phase.Released?
    ensures Enabled(c, s, step) && step.Work?
  {
    var x := s.workers[w];
    step := Work(w, match x.phase
                    case Inserting => Return(true, 0)
                    case Failed => CountDropped(0)
                    case Tracking(_, next, _) => if c.tracking && next < |x.times| then Track else Release
                    case Released(_) => Release);
  }

  lemma MoveBatcher(c: Config, s: State, b: nat) returns (step: Step)
    requires b < |s.batchers| && !s.batchers[b].Done? && s.closed && s.permits > 0
    ensures Enabled(c, s, step) && step.Batch? && !step.batch.Tick?
  {
    step := Batch(b, match s.batchers[b]
                     case Idle => if s.queue == [] then Finish else Take
                     case First(_) => CountFirst
                     case Select(_, _) => if s.queue == [] then SeeClosed else TakeMore
                     case More(_, _, _) => CountMore
                     case _ => Dispatch);
  }

  lemma {:induction false} DrainFrom(c: Config, s: State) returns (steps: seq<Step>)
    requires Inv(c, s) && s.closed
    ensures CanRun(c, s, steps) && After(c, s, steps).stop.Returned?
    decreases Measure(c, s)
  {
    if s.stop.Returned? {
      steps := [];
    } else {
      var step := Progress(c, s);
      MeasureStep(c, s, step);
      StepKeepsInv(c, s, step);
      MeasureNonNegative(c, s);
      MeasureNonNegative(c, Apply(c, s, step));
      var rest := DrainFrom(c, Apply(c, s, step));
      steps := [step] + rest;
      assert steps[1..] == rest;
    }
  }

  /**
   Drain: from any reachable closed state, every schedule ends after at most
   `Measure` steps, and it can only end with `Stop` returned and every accepted
   record passed to InsertRecords. (Calls of InsertRecords are taken to return.)
   */
  lemma StopReturnsAndDrains(c: Config, before: seq<Step>, after: seq<Step>)
    requires ValidConfig(c) && CanRun(c, Init(c), before) && After(c, Init(c), before).closed
    requires CanRun(c, After(c, Init(c), before), after)
    ensures var s := After(c, Init(c), before);
            var t := After(c, s, after);
            && |after| <= Measure(c, s)
            && ((forall step :: !Enabled(c, t, step)) ==>
                  t.stop.Returned? && multiset(Map(t.accepted, RecordOf)) == multiset(Flat(t.calls, PassedTo)))
            && (exists more :: CanRun(c, t, more) && After(c, t, more).stop.Returned?)
  {
    var s := After(c, Init(c), before);
    var t := After(c, s, after);
    InitKeepsInv(c);
    RunKeepsInv(c, Init(c), before);
    RunKeepsInv(c, s, after);
    RunIsBounded(c, s, after);
    NoSendOnceClosed(c, s, after);
    MeasureNonNegative(c, t);
    var more := DrainFrom(c, t);
    if forall step :: !Enabled(c, t, step) {
      if !t.stop.Returned? { var step := Progress(c, t); }
      StopHasInsertedAll(c, t);
    }
  }
}
