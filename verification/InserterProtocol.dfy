/**
 The batch inserter as a transition system. Every atomic action of every
 goroutine (producers, batchers, insert workers, `Stop`) is one `Step`; a run is
 any sequence of enabled steps, so it covers every interleaving of any number of
 producers, batchers and workers.
 */
module InserterProtocol {
  import opened Records
  import opened Sums

  datatype Config = Config(
    parseWorkers: int, maxInsertWorkers: int, maxBatchSize: int, queueSize: int, tracking: bool)

  predicate ValidConfig(c: Config) {
    c.parseWorkers >= 1 && c.maxInsertWorkers >= 1 && c.maxBatchSize >= 0 && c.queueSize >= 5
  }

  /** Where a batcher goroutine is; `records` and `times` are its two local slices. */
  datatype Batcher =
    | Idle                                                                      // at the outer channel receive
    | First(rwt: RecordWithTime)                                                // received, gauge not lowered yet
    | Select(records: seq<Record>, times: seq<Time>)                            // at the inner select
    | More(records: seq<Record>, times: seq<Time>, rwt: RecordWithTime)         // received, gauge not lowered yet
    | Acquiring(records: seq<Record>, times: seq<Time>)                         // batch complete, needs a permit
    | Done

  datatype Phase =
    | Inserting                                   // inside InsertRecords
    | Failed                                      // InsertRecords returned an error
    | Tracking(end: Time, next: nat, ok: bool)    // inside sendTimes
    | Released(ok: bool)

  /** One dispatched batch and the goroutine inserting it. */
  datatype Worker = Worker(owner: nat, records: seq<Record>, times: seq<Time>, phase: Phase)

  datatype StopPhase = NotCalled | Joining | Grabbing(taken: nat) | Returned

  datatype DbCall = DbCall(records: seq<Record>, ok: bool)
  datatype TrackCall = TrackCall(record: Record, beginning: Time, end: Time)

  /**
   The shared state and every goroutine's own. `workers` keeps one entry per
   dispatched batch, in dispatch order. The last four fields are histories:
   `accepted` lists what was sent on the channel, `routes[i]` is the batcher that
   received `accepted[i]`, `calls` and `tracked` are the calls that have returned.
   */
  datatype State = State(
    queue: seq<RecordWithTime>, closed: bool, permits: int, gauge: int, dropped: int,
    adding: nat, batchers: seq<Batcher>, workers: seq<Worker>, stop: StopPhase,
    accepted: seq<RecordWithTime>, routes: seq<nat>, calls: seq<DbCall>, tracked: seq<TrackCall>)

  datatype ProducerAct = Send(rwt: RecordWithTime) | GaugeUp
  datatype BatcherAct = Take | CountFirst | Tick | TakeMore | SeeClosed | CountMore | Dispatch | Finish
  datatype WorkerAct = Return(ok: bool, now: Time) | CountDropped(now: Time) | Track | Release
  datatype StopAct = Close | Join | Grab | StopReturn

  /** One atomic action, by some producer, batcher `b`, the goroutine of batch `w`, or `Stop`. */
  datatype Step =
    | Produce(produce: ProducerAct)
    | Batch(b: nat, batch: BatcherAct)
    | Work(w: nat, work: WorkerAct)
    | Halt(halt: StopAct)

  function Init(c: Config): State
    requires ValidConfig(c)
  {
    State([], false, c.maxInsertWorkers, 0, 0, 0, seq(c.parseWorkers, _ => Idle), [], NotCalled, [], [], [], [])
  }

  // What `Insert` checks before it touches the channel.
  predicate Acceptable(c: Config, rwt: RecordWithTime) {
    (c.tracking ==> !IsZero(rwt.beginning)) && |rwt.record.data| > 0
  }

  predicate Full(c: Config, records: seq<Record>) {
    c.maxBatchSize != 0 && |records| >= c.maxBatchSize
  }

  predicate ProducerEnabled(c: Config, s: State, act: ProducerAct) {
    match act
    case Send(rwt) => !s.closed && |s.queue| < c.queueSize && Acceptable(c, rwt)
    case GaugeUp => s.adding > 0
  }

  function ProducerApply(c: Config, s: State, act: ProducerAct): State
    requires ProducerEnabled(c, s, act)
  {
    match act
    case Send(rwt) => s.(queue := s.queue + [rwt], accepted := s.accepted + [rwt], adding := s.adding + 1)
    case GaugeUp => s.(gauge := s.gauge + 1, adding := s.adding - 1)
  }

  predicate Receives(act: BatcherAct) { act.Take? || act.TakeMore? }

  predicate Counts(act: BatcherAct) { act.CountFirst? || act.CountMore? }

  // Whether a batcher in state `x` can take the action; both receives need a queued record.
  predicate BatcherEnabled(s: State, x: Batcher, act: BatcherAct) {
    match act
    case Take => x.Idle? && s.queue != []
    case CountFirst => x.First?
    case Tick => x.Select?
    case TakeMore => x.Select? && s.queue != []
    case SeeClosed => x.Select? && s.closed && s.queue == []
    case CountMore => x.More?
    case Dispatch => x.Acquiring? && s.permits > 0
    case Finish => x.Idle? && s.closed && s.queue == []
  }

  function NextBatcher(c: Config, s: State, x: Batcher, act: BatcherAct): Batcher
    requires BatcherEnabled(s, x, act)
  {
    match act
    case Take => First(s.queue[0])
    case CountFirst => Select([x.rwt.record], [x.rwt.beginning])
    case Tick => Acquiring(x.records, x.times)
    case TakeMore => More(x.records, x.times, s.queue[0])
    case SeeClosed => Acquiring(x.records, x.times)
    case CountMore =>
      var records, times := x.records + [x.rwt.record], x.times + [x.rwt.beginning];
      if Full(c, records) then Acquiring(records, times) else Select(records, times)
    case Dispatch => Idle
    case Finish => Done
  }

  function BatcherApply(c: Config, s: State, b: nat, act: BatcherAct): State
    requires b < |s.batchers| && BatcherEnabled(s, s.batchers[b], act)
  {
    var x := s.batchers[b];
    s.(batchers := s.batchers[b := NextBatcher(c, s, x, act)],
       queue := if Receives(act) then s.queue[1..] else s.queue,
       routes := if Receives(act) then s.routes + [b] else s.routes,
       gauge := if Counts(act) then s.gauge - 1 else s.gauge,
       permits := if act.Dispatch? then s.permits - 1 else s.permits,
       workers := if act.Dispatch? then s.workers + [Worker(b, x.records, x.times, Inserting)] else s.workers)
  }

  predicate WorkerEnabled(c: Config, x: Worker, act: WorkerAct) {
    match act
    case Return(_, _) => x.phase.Inserting?
    case CountDropped(_) => x.phase.Failed?
    case Track =>
      c.tracking && x.phase.Tracking? && x.phase.next < |x.times| && x.phase.next < |x.records|
    case Release => x.phase.Tracking? && (c.tracking ==> x.phase.next >= |x.times|)
  }

  function NextPhase(c: Config, x: Worker, act: WorkerAct): Phase
    requires WorkerEnabled(c, x, act)
  {
    match act
    case Return(ok, now) => if ok then Tracking(now, 0, true) else Failed
    case CountDropped(now) => Tracking(now, 0, false)
    case Track => x.phase.(next := x.phase.next + 1)
    case Release => Released(x.phase.ok)
  }

  function WorkerApply(c: Config, s: State, w: nat, act: WorkerAct): State
    requires w < |s.workers| && WorkerEnabled(c, s.workers[w], act)
  {
    var x := s.workers[w];
    s.(workers := s.workers[w := x.(phase := NextPhase(c, x, act))],
       calls := if act.Return? then s.calls + [DbCall(x.records, act.ok)] else s.calls,
       dropped := if act.CountDropped? then s.dropped + |x.records| else s.dropped,
       tracked :=
         if act.Track? then s.tracked + [TrackCall(x.records[x.phase.next], x.times[x.phase.next], x.phase.end)]
         else s.tracked,
       permits := if act.Release? then s.permits + 1 else s.permits)
  }

  predicate AllDone(s: State) { forall b :: 0 <= b < |s.batchers| ==> s.batchers[b].Done? }

  predicate StopEnabled(c: Config, s: State, act: StopAct) {
    match act
    case Close => s.stop == NotCalled
    case Join => s.stop == Joining && AllDone(s)
    case Grab => s.stop.Grabbing? && s.stop.taken < c.maxInsertWorkers && s.permits > 0
    case StopReturn => s.stop.Grabbing? && s.stop.taken >= c.maxInsertWorkers
  }

  function StopApply(c: Config, s: State, act: StopAct): State
    requires StopEnabled(c, s, act)
  {
    match act
    case Close => s.(closed := true, stop := Joining)
    case Join => s.(stop := Grabbing(0))
    case Grab => s.(permits := s.permits - 1, stop := Grabbing(s.stop.taken + 1))
    case StopReturn => s.(stop := Returned)
  }

  predicate Enabled(c: Config, s: State, step: Step) {
    match step
    case Produce(act) => ProducerEnabled(c, s, act)
    case Batch(b, act) => b < |s.batchers| && BatcherEnabled(s, s.batchers[b], act)
    case Work(w, act) => w < |s.workers| && WorkerEnabled(c, s.workers[w], act)
    case Halt(act) => StopEnabled(c, s, act)
  }

  function Apply(c: Config, s: State, step: Step): State
    requires Enabled(c, s, step)
  {
    match step
    case Produce(act) => ProducerApply(c, s, act)
    case Batch(b, act) => BatcherApply(c, s, b, act)
    case Work(w, act) => WorkerApply(c, s, w, act)
    case Halt(act) => StopApply(c, s, act)
  }

  predicate CanRun(c: Config, s: State, steps: seq<Step>)
    decreases |steps|
  {
    steps == [] || (Enabled(c, s, steps[0]) && CanRun(c, Apply(c, s, steps[0]), steps[1..]))
  }

  function After(c: Config, s: State, steps: seq<Step>): State
    requires CanRun(c, s, steps)
    decreases |steps|
  {
    if steps == [] then s else After(c, Apply(c, s, steps[0]), steps[1..])
  }

  lemma {:induction false} RunSnoc(c: Config, s: State, steps: seq<Step>, step: Step)
    requires CanRun(c, s, steps) && Enabled(c, After(c, s, steps), step)
    ensures CanRun(c, s, steps + [step])
    ensures After(c, s, steps + [step]) == Apply(c, After(c, s, steps), step)
    decreases |steps|
  {
    if steps == [] {
      assert [] + [step] == [step] && [step][1..] == [];
    } else {
      assert (steps + [step])[1..] == steps[1..] + [step];
      RunSnoc(c, Apply(c, s, steps[0]), steps[1..], step);
    }
  }

  // ---------------------------------------------------------------- what each goroutine holds

  // A batch's two parallel slices, zipped.
  function Pairs(records: seq<Record>, times: seq<Time>): (r: seq<RecordWithTime>)
    ensures |records| == |times| ==> |r| == |records|
  {
    if records == [] || times == [] then []
    else
      var n, m := |records| - 1, |times| - 1;
      Pairs(records[..n], times[..m]) + [RecordWithTime(records[n], times[m])]
  }

  lemma PairsAppend(records: seq<Record>, times: seq<Time>, rwt: RecordWithTime)
    ensures Pairs(records + [rwt.record], times + [rwt.beginning]) == Pairs(records, times) + [rwt]
  {
    assert (records + [rwt.record])[..|records|] == records;
    assert (times + [rwt.beginning])[..|times|] == times;
  }

  lemma {:induction false} PairsAt(records: seq<Record>, times: seq<Time>, i: nat)
    requires |records| == |times| && i < |records|
    ensures Pairs(records, times)[i] == RecordWithTime(records[i], times[i])
  {
    var n := |records| - 1;
    if i < n { PairsAt(records[..n], times[..n], i); }
  }

  function Open(b: Batcher): seq<RecordWithTime> {
    match b
    case Idle => []
    case First(rwt) => [rwt]
    case Select(records, times) => Pairs(records, times)
    case More(records, times, rwt) => Pairs(records, times) + [rwt]
    case Acquiring(records, times) => Pairs(records, times)
    case Done => []
  }

  function Held(r: RecordWithTime): Batcher -> int { (b: Batcher) => Count(Open(b), r) }

  function Carried(r: RecordWithTime): Worker -> int { (w: Worker) => Count(Pairs(w.records, w.times), r) }

  function Uncounted(b: Batcher): int { if b.First? || b.More? then 1 else 0 }

  function Active(w: Worker): int { if w.phase.Released? then 0 else 1 }

  function Taken(c: Config, p: StopPhase): int {
    match p
    case Grabbing(taken) => taken
    case Returned => c.maxInsertWorkers
    case _ => 0
  }

  function Called(r: Record): Worker -> int {
    (w: Worker) => if w.phase.Inserting? then 0 else Count(w.records, r)
  }

  function CallRecords(r: Record): DbCall -> int { (call: DbCall) => Count(call.records, r) }

  function Succeeded(w: Worker): int {
    if (w.phase.Tracking? || w.phase.Released?) && w.phase.ok then |w.records| else 0
  }

  function CallInserted(call: DbCall): int { if call.ok then |call.records| else 0 }

  function CountedDropped(w: Worker): int {
    if (w.phase.Tracking? || w.phase.Released?) && !w.phase.ok then |w.records| else 0
  }

  function SizeOf(w: Worker): int { |w.records| }

  function OpenSize(b: Batcher): int { |Open(b)| }

  // How many of the batch's begin times have been passed to TrackTime.
  function Progress(w: Worker): nat {
    match w.phase
    case Inserting => 0
    case Failed => 0
    case Tracking(_, next, _) => next
    case Released(_) => |w.times|
  }

  function TrackedPart(w: Worker): seq<RecordWithTime> {
    var pairs := Pairs(w.records, w.times);
    if Progress(w) <= |pairs| then pairs[..Progress(w)] else []
  }

  function Tracked(r: RecordWithTime): Worker -> int { (w: Worker) => Count(TrackedPart(w), r) }

  function TrackedCall(r: RecordWithTime): TrackCall -> int {
    (t: TrackCall) => if RecordWithTime(t.record, t.beginning) == r then 1 else 0
  }

  // ---------------------------------------------------------------- order of receipt

  // The accepted records that batcher `b` received, in order: a subsequence of `accepted`.
  function Share(accepted: seq<RecordWithTime>, routes: seq<nat>, b: nat): seq<RecordWithTime>
    requires |routes| <= |accepted|
  {
    if routes == [] then []
    else
      var n := |routes| - 1;
      Share(accepted, routes[..n], b) + if routes[n] == b then [accepted[n]] else []
  }

  // The batches batcher `b` dispatched, concatenated in dispatch order.
  function DispatchedBy(workers: seq<Worker>, b: nat): seq<RecordWithTime> {
    if workers == [] then []
    else
      var n := |workers| - 1;
      DispatchedBy(workers[..n], b) + if workers[n].owner == b then Pairs(workers[n].records, workers[n].times) else []
  }

  lemma {:induction false} ShareOfLonger(accepted: seq<RecordWithTime>, rwt: RecordWithTime, routes: seq<nat>, b: nat)
    requires |routes| <= |accepted|
    ensures Share(accepted + [rwt], routes, b) == Share(accepted, routes, b)
  {
    if routes != [] { ShareOfLonger(accepted, rwt, routes[..|routes| - 1], b); }
  }

  lemma ShareReceive(accepted: seq<RecordWithTime>, routes: seq<nat>, owner: nat, b: nat)
    requires |routes| < |accepted|
    ensures Share(accepted, routes + [owner], b)
         == Share(accepted, routes, b) + if owner == b then [accepted[|routes|]] else []
  {
    assert (routes + [owner])[..|routes|] == routes;
  }

  lemma {:induction false} DispatchedPhase(workers: seq<Worker>, w: nat, p: Phase, b: nat)
    requires w < |workers|
    ensures DispatchedBy(workers[w := workers[w].(phase := p)], b) == DispatchedBy(workers, b)
  {
    var n := |workers| - 1;
    var changed := workers[w := workers[w].(phase := p)];
    if w == n {
      assert changed[..n] == workers[..n];
    } else {
      assert changed[..n] == workers[..n][w := workers[..n][w].(phase := p)];
      DispatchedPhase(workers[..n], w, p, b);
    }
  }

  lemma DispatchedAppend(workers: seq<Worker>, x: Worker, b: nat)
    ensures DispatchedBy(workers + [x], b)
         == DispatchedBy(workers, b) + if x.owner == b then Pairs(x.records, x.times) else []
  {
    assert (workers + [x])[..|workers|] == workers;
  }

  // ---------------------------------------------------------------- the invariant

  // The largest batch the code can build; 1 and 2 give the same bound.
  function Bound(c: Config): int { if c.maxBatchSize < 2 then 2 else c.maxBatchSize }

  predicate WellSized(c: Config, n: int) { n >= 1 && (c.maxBatchSize != 0 ==> n <= Bound(c)) }

  predicate GoodBatcher(c: Config, b: Batcher) {
    match b
    case Select(records, times) =>
      |records| == |times| && WellSized(c, |records|) && (c.maxBatchSize != 0 ==> |records| < Bound(c))
    case More(records, times, _) =>
      |records| == |times| && WellSized(c, |records|) && (c.maxBatchSize != 0 ==> |records| < Bound(c))
    case Acquiring(records, times) => |records| == |times| && WellSized(c, |records|)
    case _ => true
  }

  predicate GoodWorker(c: Config, w: Worker) {
    w.owner < c.parseWorkers && |w.records| == |w.times| && WellSized(c, |w.records|)
    && (w.phase.Tracking? ==> w.phase.next <= |w.times| && (!c.tracking ==> w.phase.next == 0))
  }

  predicate Shape(c: Config, s: State) {
    && |s.batchers| == c.parseWorkers
    && (forall b :: 0 <= b < |s.batchers| ==> GoodBatcher(c, s.batchers[b]))
    && (forall w :: 0 <= w < |s.workers| ==> GoodWorker(c, s.workers[w]))
    && |s.queue| <= c.queueSize
    && (forall i :: 0 <= i < |s.accepted| ==> Acceptable(c, s.accepted[i]))
  }

  predicate Stopping(c: Config, s: State) {
    && (s.closed <==> s.stop != NotCalled)
    && (forall b :: 0 <= b < |s.batchers| && s.batchers[b].Done? ==> s.closed && s.queue == [])
    && (s.stop.Grabbing? || s.stop.Returned? ==> AllDone(s))
    && 0 <= Taken(c, s.stop) <= c.maxInsertWorkers
  }

  // Permits left, running workers and permits `Stop` holds always add up to the configured maximum.
  predicate Permits(c: Config, s: State) {
    s.permits >= 0 && s.permits + ISum(s.workers, Active) + Taken(c, s.stop) == c.maxInsertWorkers
  }

  predicate Gauge(s: State) { s.gauge == |s.queue| - s.adding + ISum(s.batchers, Uncounted) }

  ghost predicate ConservedAt(s: State, r: RecordWithTime) {
    Count(s.accepted, r) == Count(s.queue, r) + ISum(s.batchers, Held(r)) + ISum(s.workers, Carried(r))
  }

  // Every accepted record is in the queue, in one open batch or in one dispatched batch.
  ghost predicate Conserved(s: State) { forall r :: ConservedAt(s, r) }

  predicate Counted(s: State) {
    && |s.accepted| == |s.queue| + ISum(s.batchers, OpenSize) + ISum(s.workers, SizeOf)
    && s.dropped == ISum(s.workers, CountedDropped)
    && ISum(s.calls, CallInserted) == ISum(s.workers, Succeeded)
  }

  ghost predicate CalledAt(s: State, r: Record) { ISum(s.calls, CallRecords(r)) == ISum(s.workers, Called(r)) }

  // The records passed to InsertRecords so far are those of the batches whose call has returned.
  ghost predicate CalledOnce(s: State) { forall r :: CalledAt(s, r) }

  ghost predicate TrackedAt(s: State, r: RecordWithTime) {
    ISum(s.tracked, TrackedCall(r)) == ISum(s.workers, Tracked(r))
  }

  ghost predicate TimesTracked(c: Config, s: State) {
    if c.tracking then forall r :: TrackedAt(s, r) else s.tracked == []
  }

  predicate Ordered(s: State) {
    && |s.routes| <= |s.accepted|
    && s.accepted[|s.routes|..] == s.queue
    && (forall i :: 0 <= i < |s.routes| ==> s.routes[i] < |s.batchers|)
    && (forall b :: 0 <= b < |s.batchers| ==>
          Share(s.accepted, s.routes, b) == DispatchedBy(s.workers, b) + Open(s.batchers[b]))
  }

  ghost predicate Inv(c: Config, s: State) {
    && ValidConfig(c)
    && Shape(c, s)
    && Stopping(c, s)
    && Permits(c, s)
    && Gauge(s)
    && Conserved(s)
    && Counted(s)
    && CalledOnce(s)
    && TimesTracked(c, s)
    && Ordered(s)
  }

  lemma InitKeepsInv(c: Config)
    requires ValidConfig(c)
    ensures Inv(c, Init(c))
  {
    var s := Init(c);
    ISumZero(s.batchers, Uncounted);
    ISumZero(s.batchers, OpenSize);
    forall r ensures ConservedAt(s, r) { ISumZero(s.batchers, Held(r)); }
  }

  // What a batcher's own action does to what it holds.
  lemma OpenStep(c: Config, s: State, x: Batcher, act: BatcherAct)
    requires GoodBatcher(c, x) && BatcherEnabled(s, x, act)
    ensures Receives(act) ==> Open(NextBatcher(c, s, x, act)) == Open(x) + [s.queue[0]]
    ensures act.Dispatch? ==> Open(NextBatcher(c, s, x, act)) == [] && Open(x) == Pairs(x.records, x.times)
    ensures !Receives(act) && !act.Dispatch? ==> Open(NextBatcher(c, s, x, act)) == Open(x)
  {
    var next := NextBatcher(c, s, x, act);
    match act
    case CountFirst => PairsOfOne(x.rwt);
    case CountMore => OpenMore(c, s, x);
    case Take => assert next == First(s.queue[0]);
    case TakeMore => assert next == More(x.records, x.times, s.queue[0]);
    case Tick => assert next == Acquiring(x.records, x.times);
    case SeeClosed => assert next == Acquiring(x.records, x.times);
    case Dispatch => assert next == Idle;
    case Finish => assert next == Done;
  }

  lemma OpenMore(c: Config, s: State, x: Batcher)
    requires x.More?
    ensures Open(NextBatcher(c, s, x, CountMore)) == Open(x)
  {
    var records, times := x.records + [x.rwt.record], x.times + [x.rwt.beginning];
    assert Pairs(records, times) == Open(x) by { PairsAppend(x.records, x.times, x.rwt); }
    assert NextBatcher(c, s, x, CountMore)
        == if Full(c, records) then Acquiring(records, times) else Select(records, times);
  }

  lemma PairsOfOne(rwt: RecordWithTime)
    ensures Pairs([rwt.record], [rwt.beginning]) == [rwt]
  {
    PairsAppend([], [], rwt);
    assert [] + [rwt.record] == [rwt.record] && [] + [rwt.beginning] == [rwt.beginning];
  }

  lemma ShapeStep(c: Config, s: State, step: Step)
    requires ValidConfig(c) && Shape(c, s) && Stopping(c, s) && Enabled(c, s, step)
    ensures Shape(c, Apply(c, s, step)) && Stopping(c, Apply(c, s, step))
  {
    match step
    case Produce(act) => assert Apply(c, s, step) == ProducerApply(c, s, act);
    case Batch(b, act) => ShapeBatch(c, s, b, act);
    case Work(w, act) => ShapeWork(c, s, w, act);
    case Halt(act) => assert Apply(c, s, step) == StopApply(c, s, act);
  }

  lemma ShapeWork(c: Config, s: State, w: nat, act: WorkerAct)
    requires Shape(c, s) && Stopping(c, s) && w < |s.workers| && WorkerEnabled(c, s.workers[w], act)
    ensures Shape(c, WorkerApply(c, s, w, act)) && Stopping(c, WorkerApply(c, s, w, act))
  {
    var t := WorkerApply(c, s, w, act);
    assert GoodWorker(c, t.workers[w]);
    assert forall v :: 0 <= v < |t.workers| && v != w ==> t.workers[v] == s.workers[v];
  }

  lemma ShapeBatch(c: Config, s: State, b: nat, act: BatcherAct)
    requires ValidConfig(c) && Shape(c, s) && Stopping(c, s)
    requires b < |s.batchers| && BatcherEnabled(s, s.batchers[b], act)
    ensures Shape(c, BatcherApply(c, s, b, act)) && Stopping(c, BatcherApply(c, s, b, act))
  {
    assert GoodBatcher(c, NextBatcher(c, s, s.batchers[b], act));
  }

  lemma PermitsStep(c: Config, s: State, step: Step)
    requires Permits(c, s) && Stopping(c, s) && Enabled(c, s, step)
    ensures Permits(c, Apply(c, s, step))
  {
    match step
    case Produce(act) => assert Apply(c, s, step) == ProducerApply(c, s, act);
    case Batch(b, act) => PermitsBatch(c, s, b, act);
    case Work(w, act) => PermitsWork(c, s, w, act);
    case Halt(act) => assert Apply(c, s, step) == StopApply(c, s, act);
  }

  lemma PermitsBatch(c: Config, s: State, b: nat, act: BatcherAct)
    requires Permits(c, s) && b < |s.batchers| && BatcherEnabled(s, s.batchers[b], act)
    ensures Permits(c, BatcherApply(c, s, b, act))
  {
    if act.Dispatch? {
      ISumAppend(s.workers, Worker(b, s.batchers[b].records, s.batchers[b].times, Inserting), Active);
    }
  }

  lemma PermitsWork(c: Config, s: State, w: nat, act: WorkerAct)
    requires Permits(c, s) && w < |s.workers| && WorkerEnabled(c, s.workers[w], act)
    ensures Permits(c, WorkerApply(c, s, w, act))
  {
    ISumUpdate(s.workers, w, s.workers[w].(phase := NextPhase(c, s.workers[w], act)), Active);
  }

  lemma GaugeStep(c: Config, s: State, step: Step)
    requires Gauge(s) && Enabled(c, s, step)
    ensures Gauge(Apply(c, s, step))
  {
    match step
    case Produce(act) => assert Apply(c, s, step) == ProducerApply(c, s, act);
    case Batch(b, act) => ISumUpdate(s.batchers, b, NextBatcher(c, s, s.batchers[b], act), Uncounted);
    case Work(w, act) => assert Apply(c, s, step) == WorkerApply(c, s, w, act);
    case Halt(act) => assert Apply(c, s, step) == StopApply(c, s, act);
  }

  lemma ConservedStep(c: Config, s: State, step: Step, r: RecordWithTime)
    requires Shape(c, s) && ConservedAt(s, r) && Enabled(c, s, step)
    ensures ConservedAt(Apply(c, s, step), r)
  {
    match step
    case Produce(act) => ConservedProduce(c, s, act, r);
    case Batch(b, act) => ConservedBatch(c, s, b, act, r);
    case Work(w, act) => ConservedWork(c, s, w, act, r);
    case Halt(act) => assert Apply(c, s, step) == StopApply(c, s, act);
  }

  lemma ConservedProduce(c: Config, s: State, act: ProducerAct, r: RecordWithTime)
    requires ConservedAt(s, r) && ProducerEnabled(c, s, act)
    ensures ConservedAt(ProducerApply(c, s, act), r)
  {
    if act.Send? {
      CountAppend(s.queue, act.rwt, r);
      CountAppend(s.accepted, act.rwt, r);
    }
  }

  lemma ConservedWork(c: Config, s: State, w: nat, act: WorkerAct, r: RecordWithTime)
    requires ConservedAt(s, r) && w < |s.workers| && WorkerEnabled(c, s.workers[w], act)
    ensures ConservedAt(WorkerApply(c, s, w, act), r)
  {
    ISumUpdate(s.workers, w, s.workers[w].(phase := NextPhase(c, s.workers[w], act)), Carried(r));
  }

  lemma ConservedBatch(c: Config, s: State, b: nat, act: BatcherAct, r: RecordWithTime)
    requires Shape(c, s) && ConservedAt(s, r) && b < |s.batchers| && BatcherEnabled(s, s.batchers[b], act)
    ensures ConservedAt(BatcherApply(c, s, b, act), r)
  {
    var x := s.batchers[b];
    OpenStep(c, s, x, act);
    ISumUpdate(s.batchers, b, NextBatcher(c, s, x, act), Held(r));
    if Receives(act) { CountTail(s.queue, r); CountAppend(Open(x), s.queue[0], r); }
    if act.Dispatch? { ISumAppend(s.workers, Worker(b, x.records, x.times, Inserting), Carried(r)); }
  }

  lemma CountedStep(c: Config, s: State, step: Step)
    requires Shape(c, s) && Counted(s) && Enabled(c, s, step)
    ensures Counted(Apply(c, s, step))
  {
    match step
    case Produce(act) => assert Apply(c, s, step) == ProducerApply(c, s, act);
    case Batch(b, act) => CountedBatch(c, s, b, act);
    case Work(w, act) => CountedWork(c, s, w, act);
    case Halt(act) => assert Apply(c, s, step) == StopApply(c, s, act);
  }

  lemma CountedBatch(c: Config, s: State, b: nat, act: BatcherAct)
    requires Shape(c, s) && Counted(s) && b < |s.batchers| && BatcherEnabled(s, s.batchers[b], act)
    ensures Counted(BatcherApply(c, s, b, act))
  {
    var x := s.batchers[b];
    var size := |Open(NextBatcher(c, s, x, act))|;
    assert size == |Open(x)| + (if Receives(act) then 1 else if act.Dispatch? then -|x.records| else 0) by {
      OpenStep(c, s, x, act);
    }
    ISumUpdate(s.batchers, b, NextBatcher(c, s, x, act), OpenSize);
    if act.Dispatch? { CountedDispatch(s.workers, Worker(b, x.records, x.times, Inserting)); }
  }

  lemma CountedDispatch(workers: seq<Worker>, x: Worker)
    requires x.phase == Inserting
    ensures ISum(workers + [x], SizeOf) == ISum(workers, SizeOf) + |x.records|
    ensures ISum(workers + [x], CountedDropped) == ISum(workers, CountedDropped)
    ensures ISum(workers + [x], Succeeded) == ISum(workers, Succeeded)
  {
    ISumAppend(workers, x, SizeOf);
    ISumAppend(workers, x, CountedDropped);
    ISumAppend(workers, x, Succeeded);
  }

  lemma CountedWork(c: Config, s: State, w: nat, act: WorkerAct)
    requires Counted(s) && w < |s.workers| && WorkerEnabled(c, s.workers[w], act)
    ensures Counted(WorkerApply(c, s, w, act))
  {
    var x := s.workers[w].(phase := NextPhase(c, s.workers[w], act));
    ISumUpdate(s.workers, w, x, SizeOf);
    DroppedWork(c, s, w, act);
    InsertedWork(c, s, w, act);
  }

  lemma DroppedWork(c: Config, s: State, w: nat, act: WorkerAct)
    requires s.dropped == ISum(s.workers, CountedDropped) && w < |s.workers| && WorkerEnabled(c, s.workers[w], act)
    ensures var t := WorkerApply(c, s, w, act); t.dropped == ISum(t.workers, CountedDropped)
  {
    ISumUpdate(s.workers, w, s.workers[w].(phase := NextPhase(c, s.workers[w], act)), CountedDropped);
  }

  lemma InsertedWork(c: Config, s: State, w: nat, act: WorkerAct)
    requires ISum(s.calls, CallInserted) == ISum(s.workers, Succeeded)
    requires w < |s.workers| && WorkerEnabled(c, s.workers[w], act)
    ensures var t := WorkerApply(c, s, w, act); ISum(t.calls, CallInserted) == ISum(t.workers, Succeeded)
  {
    var x := s.workers[w].(phase := NextPhase(c, s.workers[w], act));
    ISumUpdate(s.workers, w, x, Succeeded);
    if act.Return? { ISumAppend(s.calls, DbCall(x.records, act.ok), CallInserted); }
  }

  lemma CalledStep(c: Config, s: State, step: Step, r: Record)
    requires CalledAt(s, r) && Enabled(c, s, step)
    ensures CalledAt(Apply(c, s, step), r)
  {
    match step
    case Produce(act) => assert Apply(c, s, step) == ProducerApply(c, s, act);
    case Batch(b, act) =>
      if act.Dispatch? {
        ISumAppend(s.workers, Worker(b, s.batchers[b].records, s.batchers[b].times, Inserting), Called(r));
      }
    case Work(w, act) =>
      ISumUpdate(s.workers, w, s.workers[w].(phase := NextPhase(c, s.workers[w], act)), Called(r));
      if act.Return? { ISumAppend(s.calls, DbCall(s.workers[w].records, act.ok), CallRecords(r)); }
    case Halt(act) => assert Apply(c, s, step) == StopApply(c, s, act);
  }

  lemma TrackedStep(c: Config, s: State, step: Step, r: RecordWithTime)
    requires Shape(c, s) && TrackedAt(s, r) && c.tracking && Enabled(c, s, step)
    ensures TrackedAt(Apply(c, s, step), r)
  {
    match step
    case Produce(act) => assert Apply(c, s, step) == ProducerApply(c, s, act);
    case Batch(b, act) => TrackedBatch(c, s, b, act, r);
    case Work(w, act) => TrackedWork(c, s, w, act, r);
    case Halt(act) => assert Apply(c, s, step) == StopApply(c, s, act);
  }

  lemma TrackedBatch(c: Config, s: State, b: nat, act: BatcherAct, r: RecordWithTime)
    requires TrackedAt(s, r) && b < |s.batchers| && BatcherEnabled(s, s.batchers[b], act)
    ensures TrackedAt(BatcherApply(c, s, b, act), r)
  {
    if act.Dispatch? {
      ISumAppend(s.workers, Worker(b, s.batchers[b].records, s.batchers[b].times, Inserting), Tracked(r));
    }
  }

  lemma TrackedWork(c: Config, s: State, w: nat, act: WorkerAct, r: RecordWithTime)
    requires TrackedAt(s, r) && c.tracking && w < |s.workers| && GoodWorker(c, s.workers[w])
    requires WorkerEnabled(c, s.workers[w], act)
    ensures TrackedAt(WorkerApply(c, s, w, act), r)
  {
    var x := s.workers[w];
    TrackedPhase(c, x, act, r);
    ISumUpdate(s.workers, w, x.(phase := NextPhase(c, x, act)), Tracked(r));
    if act.Track? {
      ISumAppend(s.tracked, TrackCall(x.records[x.phase.next], x.times[x.phase.next], x.phase.end), TrackedCall(r));
    }
  }

  lemma TrackedPhase(c: Config, x: Worker, act: WorkerAct, r: RecordWithTime)
    requires GoodWorker(c, x) && c.tracking && WorkerEnabled(c, x, act)
    ensures Tracked(r)(x.(phase := NextPhase(c, x, act)))
         == Tracked(r)(x)
            + if act.Track? && r == RecordWithTime(x.records[x.phase.next], x.times[x.phase.next]) then 1 else 0
  {
    var pairs := Pairs(x.records, x.times);
    if act.Track? {
      var next := x.phase.next;
      PairsAt(x.records, x.times, next);
      assert pairs[..next + 1] == pairs[..next] + [pairs[next]];
      CountAppend(pairs[..next], pairs[next], r);
    }
  }

  lemma OrderedStep(c: Config, s: State, step: Step)
    requires Shape(c, s) && Ordered(s) && Enabled(c, s, step)
    ensures Ordered(Apply(c, s, step))
  {
    match step
    case Produce(act) => OrderedProduce(c, s, act);
    case Batch(b, act) => OrderedBatch(c, s, b, act);
    case Work(w, act) => OrderedWork(c, s, w, act);
    case Halt(act) => assert Apply(c, s, step) == StopApply(c, s, act);
  }

  lemma OrderedProduce(c: Config, s: State, act: ProducerAct)
    requires Ordered(s) && ProducerEnabled(c, s, act)
    ensures Ordered(ProducerApply(c, s, act))
  {
    if act.Send? {
      forall b | 0 <= b < |s.batchers|
        ensures Share(s.accepted + [act.rwt], s.routes, b) == Share(s.accepted, s.routes, b)
      {
        ShareOfLonger(s.accepted, act.rwt, s.routes, b);
      }
    }
  }

  lemma OrderedWork(c: Config, s: State, w: nat, act: WorkerAct)
    requires Ordered(s) && w < |s.workers| && WorkerEnabled(c, s.workers[w], act)
    ensures Ordered(WorkerApply(c, s, w, act))
  {
    var t := WorkerApply(c, s, w, act);
    forall b | 0 <= b < |s.batchers| ensures DispatchedBy(t.workers, b) == DispatchedBy(s.workers, b) {
      DispatchedPhase(s.workers, w, t.workers[w].phase, b);
    }
  }

  lemma OrderedBatch(c: Config, s: State, i: nat, act: BatcherAct)
    requires Shape(c, s) && Ordered(s) && i < |s.batchers| && BatcherEnabled(s, s.batchers[i], act)
    ensures Ordered(BatcherApply(c, s, i, act))
  {
    OpenStep(c, s, s.batchers[i], act);
    if Receives(act) {
      OrderedReceive(s, i, NextBatcher(c, s, s.batchers[i], act));
    } else if act.Dispatch? {
      OrderedDispatch(s, i);
    }
  }

  lemma OrderedReceive(s: State, i: nat, x: Batcher)
    requires Ordered(s) && i < |s.batchers| && s.queue != [] && Open(x) == Open(s.batchers[i]) + [s.queue[0]]
    ensures Ordered(s.(batchers := s.batchers[i := x], queue := s.queue[1..], routes := s.routes + [i]))
  {
    forall b | 0 <= b < |s.batchers|
      ensures Share(s.accepted, s.routes + [i], b) == DispatchedBy(s.workers, b) + Open(s.batchers[i := x][b])
    {
      ShareReceive(s.accepted, s.routes, i, b);
      assert s.accepted[|s.routes|] == s.queue[0];
    }
  }

  lemma OrderedDispatch(s: State, i: nat)
    requires Ordered(s) && i < |s.batchers| && s.batchers[i].Acquiring?
    ensures var x := Worker(i, s.batchers[i].records, s.batchers[i].times, Inserting);
            Ordered(s.(batchers := s.batchers[i := Idle], workers := s.workers + [x]))
  {
    var x := Worker(i, s.batchers[i].records, s.batchers[i].times, Inserting);
    forall b | 0 <= b < |s.batchers|
      ensures Share(s.accepted, s.routes, b) == DispatchedBy(s.workers + [x], b) + Open(s.batchers[i := Idle][b])
    {
      DispatchedAppend(s.workers, x, b);
    }
  }

  // Each record is where it should be after the step, and has been passed on as often as it should.
  lemma RecordsStep(c: Config, s: State, step: Step)
    requires Shape(c, s) && Conserved(s) && CalledOnce(s) && TimesTracked(c, s) && Enabled(c, s, step)
    ensures Conserved(Apply(c, s, step)) && CalledOnce(Apply(c, s, step)) && TimesTracked(c, Apply(c, s, step))
  {
    var t := Apply(c, s, step);
    assert Conserved(t) by { forall r ensures ConservedAt(t, r) { ConservedStep(c, s, step, r); } }
    assert CalledOnce(t) by { forall r ensures CalledAt(t, r) { CalledStep(c, s, step, r); } }
    assert TimesTracked(c, t) by {
      if c.tracking { forall r ensures TrackedAt(t, r) { TrackedStep(c, s, step, r); } }
    }
  }

  /** Every step of every goroutine keeps the invariant. */
  lemma StepKeepsInv(c: Config, s: State, step: Step)
    requires Inv(c, s) && Enabled(c, s, step)
    ensures Inv(c, Apply(c, s, step))
  {
    ShapeStep(c, s, step);
    PermitsStep(c, s, step);
    GaugeStep(c, s, step);
    RecordsStep(c, s, step);
    CountedStep(c, s, step);
    OrderedStep(c, s, step);
  }

  lemma {:induction false} RunKeepsInv(c: Config, s: State, steps: seq<Step>)
    requires Inv(c, s) && CanRun(c, s, steps)
    ensures Inv(c, After(c, s, steps))
    decreases |steps|
  {
    if steps != [] {
      StepKeepsInv(c, s, steps[0]);
      RunKeepsInv(c, Apply(c, s, steps[0]), steps[1..]);
    }
  }
}
