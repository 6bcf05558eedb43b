/** What the batch inserter's protocol guarantees about every run. */
module InserterTheorems {
  import opened Records
  import opened Sums
  import opened InserterProtocol

  // ---------------------------------------------------------------- exactly once

  function RecordOf(rwt: RecordWithTime): Record { rwt.record }

  function InFlight(w: Worker): seq<Record> { if w.phase.Inserting? then w.records else [] }

  function RecordsOf(w: Worker): seq<Record> { w.records }

  function PairsOf(w: Worker): seq<RecordWithTime> { Pairs(w.records, w.times) }

  function PassedTo(call: DbCall): seq<Record> { call.records }

  lemma {:induction false} PairsRecords(records: seq<Record>, times: seq<Time>)
    requires |records| == |times|
    ensures Map(Pairs(records, times), RecordOf) == records
  {
    forall i | 0 <= i < |records| ensures Pairs(records, times)[i].record == records[i] {
      PairsAt(records, times, i);
    }
  }

  // Accepted records, as pairs: queued, in an open batch, or dispatched.
  lemma PairsConserved(c: Config, s: State)
    requires Inv(c, s)
    ensures multiset(s.accepted) == multiset(s.queue + Flat(s.batchers, Open) + Flat(s.workers, PairsOf))
  {
    var all := s.queue + Flat(s.batchers, Open) + Flat(s.workers, PairsOf);
    forall r ensures Count(s.accepted, r) == Count(all, r) {
      assert ConservedAt(s, r);
      CountFlat(s.batchers, Open, Held(r), r);
      CountFlat(s.workers, PairsOf, Carried(r), r);
      CountConcat(s.queue, Flat(s.batchers, Open), r);
      CountConcat(s.queue + Flat(s.batchers, Open), Flat(s.workers, PairsOf), r);
    }
    SameMultiset(s.accepted, all);
  }

  // A dispatched record is in a call that is still running or was passed to one that returned.
  lemma DispatchedSplit(s: State)
    requires CalledOnce(s)
    ensures multiset(Flat(s.workers, RecordsOf)) == multiset(Flat(s.workers, InFlight) + Flat(s.calls, PassedTo))
  {
    var passed := Flat(s.workers, InFlight) + Flat(s.calls, PassedTo);
    forall r ensures Count(Flat(s.workers, RecordsOf), r) == Count(passed, r) {
      assert CalledAt(s, r);
      var all := (w: Worker) => Count(w.records, r);
      var running := (w: Worker) => Count(InFlight(w), r);
      ISumAdd(s.workers, running, Called(r), all);
      CountFlat(s.workers, RecordsOf, all, r);
      CountFlat(s.workers, InFlight, running, r);
      CountFlat(s.calls, PassedTo, CallRecords(r), r);
      CountConcat(Flat(s.workers, InFlight), Flat(s.calls, PassedTo), r);
    }
    SameMultiset(Flat(s.workers, RecordsOf), passed);
  }

  lemma DispatchedRecords(c: Config, s: State)
    requires Shape(c, s)
    ensures Map(Flat(s.workers, PairsOf), RecordOf) == Flat(s.workers, RecordsOf)
  {
    forall w | w in s.workers ensures RecordsOf(w) == Map(PairsOf(w), RecordOf) {
      PairsRecords(w.records, w.times);
    }
    FlatMap(s.workers, PairsOf, RecordOf, RecordsOf);
  }

  lemma RecordsConserved(c: Config, s: State)
    requires Inv(c, s)
    ensures multiset(Map(s.accepted, RecordOf))
         == multiset(Map(s.queue, RecordOf) + Map(Flat(s.batchers, Open), RecordOf) + Flat(s.workers, RecordsOf))
  {
    var queued, open, sent := s.queue, Flat(s.batchers, Open), Flat(s.workers, PairsOf);
    PairsConserved(c, s);
    MapKeepsMultiset(s.accepted, queued + open + sent, RecordOf);
    MapConcat(queued + open, sent, RecordOf);
    MapConcat(queued, open, RecordOf);
    DispatchedRecords(c, s);
  }

  lemma ExactlyOnceAt(c: Config, s: State)
    requires Inv(c, s)
    ensures multiset(Map(s.accepted, RecordOf))
         == multiset(Map(s.queue, RecordOf)) + multiset(Map(Flat(s.batchers, Open), RecordOf))
            + multiset(Flat(s.workers, InFlight)) + multiset(Flat(s.calls, PassedTo))
  {
    RecordsConserved(c, s);
    DispatchedSplit(s);
  }

  /**
   Exactly once: in every reachable state the accepted records are, with
   multiplicity, those queued, those in open batches, those inside a running
   InsertRecords call and those already passed to one.
   */
  lemma ExactlyOnce(c: Config, steps: seq<Step>)
    requires ValidConfig(c) && CanRun(c, Init(c), steps)
    ensures var s := After(c, Init(c), steps);
            multiset(Map(s.accepted, RecordOf))
            == multiset(Map(s.queue, RecordOf)) + multiset(Map(Flat(s.batchers, Open), RecordOf))
               + multiset(Flat(s.workers, InFlight)) + multiset(Flat(s.calls, PassedTo))
  {
    InitKeepsInv(c);
    RunKeepsInv(c, Init(c), steps);
    ExactlyOnceAt(c, After(c, Init(c), steps));
  }

  predicate AllReleased(s: State) { forall w :: 0 <= w < |s.workers| ==> s.workers[w].phase.Released? }

  // Once `Stop` holds every permit, no insert goroutine is left.
  lemma StoppedIsQuiet(c: Config, s: State)
    requires Inv(c, s) && s.stop.Returned?
    ensures AllReleased(s) && AllDone(s) && s.queue == [] && s.permits == 0
  {
    ISumNonNegative(s.workers, Active);
  }

  /** When `Stop` has returned, the accepted records are exactly those passed to InsertRecords. */
  lemma StopHasInsertedAll(c: Config, s: State)
    requires Inv(c, s) && s.stop.Returned?
    ensures multiset(Map(s.accepted, RecordOf)) == multiset(Flat(s.calls, PassedTo))
  {
    StoppedIsQuiet(c, s);
    ExactlyOnceAt(c, s);
    FlatEmpty(s.batchers, Open);
    FlatEmpty(s.workers, InFlight);
    assert Map(s.queue, RecordOf) == [] && Map(Flat(s.batchers, Open), RecordOf) == [];
  }

  /**
   After `Stop` has returned nothing is running and nothing can start: the only
   action left is a producer's late gauge update, and it makes no database call.
   */
  lemma NothingAfterStop(c: Config, s: State, step: Step)
    requires Inv(c, s) && s.stop.Returned? && Enabled(c, s, step)
    ensures step == Produce(GaugeUp)
    ensures Apply(c, s, step).calls == s.calls && Apply(c, s, step).stop.Returned?
  {
    StoppedIsQuiet(c, s);
  }

  // ---------------------------------------------------------------- outcomes and times

  /** Accepted = inserted + dropped, counted when `Stop` has returned. */
  lemma AcceptedIsInsertedPlusDropped(c: Config, s: State)
    requires Inv(c, s) && s.stop.Returned?
    ensures |s.accepted| == ISum(s.calls, CallInserted) + s.dropped
  {
    StoppedIsQuiet(c, s);
    ISumZero(s.batchers, OpenSize);
    ISumAdd(s.workers, Succeeded, CountedDropped, SizeOf);
  }

  function TrackedPair(t: TrackCall): RecordWithTime { RecordWithTime(t.record, t.beginning) }

  /**
   With a tracker set, TrackTime is called once per accepted record, with that
   record's own beginning; without one it is never called.
   */
  lemma TrackedOncePerRecord(c: Config, s: State)
    requires Inv(c, s) && s.stop.Returned?
    ensures c.tracking ==> multiset(s.accepted) == multiset(Map(s.tracked, TrackedPair))
    ensures !c.tracking ==> s.tracked == []
  {
    StoppedIsQuiet(c, s);
    if c.tracking {
      PairsConserved(c, s);
      FlatEmpty(s.batchers, Open);
      assert s.queue + Flat(s.batchers, Open) + Flat(s.workers, PairsOf) == Flat(s.workers, PairsOf);
      forall r ensures Count(Flat(s.workers, PairsOf), r) == Count(Map(s.tracked, TrackedPair), r) {
        assert TrackedAt(s, r);
        ReleasedAreTracked(s, r);
      }
      SameMultiset(Flat(s.workers, PairsOf), Map(s.tracked, TrackedPair));
    }
  }

  lemma ReleasedAreTracked(s: State, r: RecordWithTime)
    requires AllReleased(s) && TrackedAt(s, r) && forall w :: w in s.workers ==> |w.records| == |w.times|
    ensures Count(Flat(s.workers, PairsOf), r) == Count(Map(s.tracked, TrackedPair), r)
  {
    forall w | w in s.workers ensures Tracked(r)(w) == Count(PairsOf(w), r) {
      assert PairsOf(w)[..|PairsOf(w)|] == PairsOf(w);
    }
    CountFlat(s.workers, PairsOf, Tracked(r), r);
    CountMap(s.tracked, TrackedPair, TrackedCall(r), r);
  }

  // ---------------------------------------------------------------- order

  /** With one batcher, dispatch order is acceptance order at every step. */
  lemma OneBatcherKeepsOrder(c: Config, s: State)
    requires Inv(c, s) && c.parseWorkers == 1
    ensures s.accepted == Flat(s.workers, PairsOf) + Open(s.batchers[0]) + s.queue
  {
    assert Share(s.accepted, s.routes, 0) == DispatchedBy(s.workers, 0) + Open(s.batchers[0]);
    ShareOfAll(s.accepted, s.routes);
    DispatchedByOnly(s.workers);
    assert s.accepted == s.accepted[..|s.routes|] + s.accepted[|s.routes|..];
  }

  lemma {:induction false} ShareOfAll(accepted: seq<RecordWithTime>, routes: seq<nat>)
    requires |routes| <= |accepted| && forall i :: 0 <= i < |routes| ==> routes[i] == 0
    ensures Share(accepted, routes, 0) == accepted[..|routes|]
  {
    if routes != [] { ShareOfAll(accepted, routes[..|routes| - 1]); }
  }

  lemma {:induction false} DispatchedByOnly(workers: seq<Worker>)
    requires forall w :: 0 <= w < |workers| ==> workers[w].owner == 0
    ensures DispatchedBy(workers, 0) == Flat(workers, PairsOf)
  {
    if workers != [] { DispatchedByOnly(workers[..|workers| - 1]); }
  }

  /**
   With many batchers, what each has dispatched followed by what it still holds is
   exactly its share of the accepted sequence, in acceptance order; every accepted
   record that left the queue belongs to exactly one share.
   */
  lemma EachBatcherKeepsOrder(c: Config, steps: seq<Step>, b: nat)
    requires ValidConfig(c) && CanRun(c, Init(c), steps) && b < c.parseWorkers
    ensures var s := After(c, Init(c), steps);
            && |s.routes| + |s.queue| == |s.accepted| && s.accepted[|s.routes|..] == s.queue
            && (forall i :: 0 <= i < |s.routes| ==> s.routes[i] < c.parseWorkers)
            && |s.batchers| == c.parseWorkers
            && Share(s.accepted, s.routes, b) == DispatchedBy(s.workers, b) + Open(s.batchers[b])
  {
    InitKeepsInv(c);
    RunKeepsInv(c, Init(c), steps);
  }

  // The positions routed to `b`, in order.
  function Positions(routes: seq<nat>, b: nat): (at: seq<nat>)
    ensures forall k :: 0 <= k < |at| ==> at[k] < |routes| && routes[at[k]] == b
    ensures forall j, k :: 0 <= j < k < |at| ==> at[j] < at[k]
    ensures forall i :: 0 <= i < |routes| && routes[i] == b ==> i in at
  {
    if routes == [] then []
    else
      var n := |routes| - 1;
      var front := Positions(routes[..n], b);
      if routes[n] == b then front + [n] else front
  }

  /** A share is the subsequence of the accepted records at the positions routed to its batcher. */
  lemma {:induction false} ShareIsSubsequence(accepted: seq<RecordWithTime>, routes: seq<nat>, b: nat)
    requires |routes| <= |accepted|
    ensures |Share(accepted, routes, b)| == |Positions(routes, b)|
    ensures forall k :: 0 <= k < |Positions(routes, b)| ==>
              Share(accepted, routes, b)[k] == accepted[Positions(routes, b)[k]]
  {
    if routes != [] { ShareIsSubsequence(accepted, routes[..|routes| - 1], b); }
  }

  // ---------------------------------------------------------------- permits and gauge

  /** Insert goroutines never outnumber the configured maximum, and blocked dispatch means one is running. */
  lemma WorkerBound(c: Config, s: State)
    requires Inv(c, s)
    ensures 0 <= ISum(s.workers, Active) <= c.maxInsertWorkers
    ensures s.permits == 0 && !AllDone(s) ==> exists w :: 0 <= w < |s.workers| && !s.workers[w].phase.Released?
  {
    ISumNonNegative(s.workers, Active);
    if AllReleased(s) { ISumZero(s.workers, Active); }
  }

  /**
   The queue gauge lags the queue by the updates still to come; it equals the
   queue length when none is, and is zero after `Stop` with no producer pending.
   */
  lemma GaugeIsQueueLength(c: Config, s: State)
    requires Inv(c, s)
    ensures s.adding == 0 && (forall b :: 0 <= b < |s.batchers| ==> !s.batchers[b].First? && !s.batchers[b].More?)
            ==> s.gauge == |s.queue|
    ensures s.stop.Returned? ==> s.gauge + s.adding == 0
    ensures 0 <= s.gauge + s.adding <= |s.queue| + |s.batchers|
  {
    if forall b :: 0 <= b < |s.batchers| ==> !s.batchers[b].First? && !s.batchers[b].More? {
      ISumZero(s.batchers, Uncounted);
    }
    ISumNonNegative(s.batchers, Uncounted);
    UncountedBound(s.batchers);
  }

  lemma {:induction false} UncountedBound(batchers: seq<Batcher>)
    ensures ISum(batchers, Uncounted) <= |batchers|
  {
    if batchers != [] { UncountedBound(batchers[..|batchers| - 1]); }
  }

  // ---------------------------------------------------------------- batch size

  predicate BatchesWithin(s: State, n: int) { forall w :: 0 <= w < |s.workers| ==> |s.workers[w].records| <= n }

  lemma BatchBounds(c: Config, steps: seq<Step>)
    requires ValidConfig(c) && CanRun(c, Init(c), steps)
    ensures var s := After(c, Init(c), steps);
            && (forall w :: 0 <= w < |s.workers| ==> s.workers[w].records != [])
            && (c.maxBatchSize != 0 ==> BatchesWithin(s, Bound(c)))
  {
    InitKeepsInv(c);
    RunKeepsInv(c, Init(c), steps);
  }

  const SAMPLE := RecordWithTime(Record(0, "device", 1, 2, [1], [], "", "", ""), 1)

  // A configured size of one still lets a batch of two out.
  lemma SizeOneOverflows(c: Config) returns (steps: seq<Step>)
    requires ValidConfig(c) && c.maxBatchSize == 1
    ensures CanRun(c, Init(c), steps) && !BatchesWithin(After(c, Init(c), steps), 1)
  {
    steps := [];
    var s2 := Extend(c, steps, Produce(Send(SAMPLE)));
    steps := steps + [Produce(Send(SAMPLE))];
    var s3 := Extend(c, steps, Produce(Send(SAMPLE)));
    steps := steps + [Produce(Send(SAMPLE))];
    assert s3.queue == [SAMPLE, SAMPLE];
    var s4 := Extend(c, steps, Batch(0, Take));
    steps := steps + [Batch(0, Take)];
    var s5 := Extend(c, steps, Batch(0, CountFirst));
    steps := steps + [Batch(0, CountFirst)];
    var s6 := Extend(c, steps, Batch(0, TakeMore));
    steps := steps + [Batch(0, TakeMore)];
    var s7 := Extend(c, steps, Batch(0, CountMore));
    steps := steps + [Batch(0, CountMore)];
    var s8 := Extend(c, steps, Batch(0, Dispatch));
    steps := steps + [Batch(0, Dispatch)];
    assert |s8.workers[0].records| == 2;
  }

  lemma Extend(c: Config, steps: seq<Step>, step: Step) returns (s: State)
    requires ValidConfig(c) && CanRun(c, Init(c), steps) && Enabled(c, After(c, Init(c), steps), step)
    ensures CanRun(c, Init(c), steps + [step])
    ensures s == After(c, Init(c), steps + [step]) == Apply(c, After(c, Init(c), steps), step)
  {
    RunSnoc(c, Init(c), steps, step);
    s := After(c, Init(c), steps + [step]);
  }

  /** The queue gauge does dip below zero: a record may be received and counted before its sender counts it. */
  lemma GaugeCanDip(c: Config) returns (steps: seq<Step>)
    requires ValidConfig(c)
    ensures CanRun(c, Init(c), steps) && After(c, Init(c), steps).gauge < 0
  {
    var s1 := Extend(c, [], Produce(Send(SAMPLE)));
    steps := [] + [Produce(Send(SAMPLE))];
    var s2 := Extend(c, steps, Batch(0, Take));
    steps := steps + [Batch(0, Take)];
    var s3 := Extend(c, steps, Batch(0, CountFirst));
    steps := steps + [Batch(0, CountFirst)];
  }

  /** The documented batch bound holds in every run exactly for configured sizes other than one. */
  lemma DocumentedBoundIff(c: Config)
    requires ValidConfig(c) && c.maxBatchSize != 0
    ensures (forall steps :: CanRun(c, Init(c), steps) ==> BatchesWithin(After(c, Init(c), steps), c.maxBatchSize))
            <==> c.maxBatchSize != 1
  {
    if c.maxBatchSize == 1 {
      var steps := SizeOneOverflows(c);
    } else {
      forall steps | CanRun(c, Init(c), steps)
        ensures BatchesWithin(After(c, Init(c), steps), c.maxBatchSize)
      {
        BatchBounds(c, steps);
      }
    }
  }
}
