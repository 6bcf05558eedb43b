/**
 What the deleter's run says of itself: what a fetch returns, that each key it
 returned is offered to the set once and in order, and that the histories in a state
 are read off the list of steps.
 */
module DeleterHistory {
  import opened Records
  import opened Sums
  import opened DeleterProtocol
  import opened DeleterTheorems

  // ---------------------------------------------------------------- one fetch

  // The row is of the configured shard, and died before the time.
  predicate DeadBy(c: Config, time: int, row: Row) { row.shard == c.shard && row.key.deathDate < time }

  /**
   A fetch returns dead rows of the shard, each position once, no more than the limit,
   and all of them unless the limit is reached; anything of that kind may be returned.
   */
  lemma FetchedIff(c: Config, s: State, time: int, picks: seq<nat>)
    ensures Enabled(c, s, Fetching(Fetched(time, picks))) <==>
            && s.fetcher == Waiting && |picks| <= c.getLimit
            && (forall i :: 0 <= i < |picks| ==> picks[i] < |s.table| && DeadBy(c, time, s.table[picks[i]]))
            && (forall i, j :: 0 <= i < |picks| && 0 <= j < |picks| && i != j ==> picks[i] != picks[j])
            && (|picks| < c.getLimit ==> forall i: nat :: i < |s.table| && DeadBy(c, time, s.table[i]) ==> i in picks)
  {
    if Enabled(c, s, Fetching(Fetched(time, picks))) {
      assert forall i: nat :: i < |s.table| && DeadBy(c, time, s.table[i]) ==> Expired(c, time, s.table[i]);
    } else if forall i: nat :: i < |s.table| && DeadBy(c, time, s.table[i]) ==> i in picks {
      assert forall i: nat :: i < |s.table| && Expired(c, time, s.table[i]) ==> DeadBy(c, time, s.table[i]);
    }
  }

  /** It starts the loop over exactly the keys of the rows returned, in their order. */
  lemma FetchStartsLoop(c: Config, s: State, time: int, picks: seq<nat>)
    requires Enabled(c, s, Fetching(Fetched(time, picks)))
    ensures var t := Apply(c, s, Fetching(Fetched(time, picks)));
            && |t.fetches| == |s.fetches| + 1 && t.fetches[..|s.fetches|] == s.fetches
            && var f := t.fetches[|s.fetches|];
               && f.time == time && |f.rows| == |picks|
               && (forall i :: 0 <= i < |picks| ==> f.rows[i] == s.table[picks[i]])
               && if picks == [] then t.fetcher == Waiting
                  else && t.fetcher.Adding? && t.fetcher.next == 0 && |t.fetcher.vals| == |picks|
                       && forall i :: 0 <= i < |picks| ==> t.fetcher.vals[i] == s.table[picks[i]].key
  {
  }

  // ---------------------------------------------------------------- histories

  // The rows other clients inserted.
  function Inserts(steps: seq<Step>): seq<Row> {
    if steps == [] then []
    else
      var step := steps[|steps| - 1];
      Inserts(steps[..|steps| - 1]) + if step.Insert? then [step.row] else []
  }

  // The times of the fetches that succeeded.
  function FetchTimes(steps: seq<Step>): seq<int> {
    if steps == [] then []
    else
      var step := steps[|steps| - 1];
      FetchTimes(steps[..|steps| - 1]) + if step.Fetching? && step.fetcher.Fetched? then [step.fetcher.time] else []
  }

  // The calls of Add: whether the set took the key.
  function Offers(steps: seq<Step>): seq<bool> {
    if steps == [] then []
    else
      var step := steps[|steps| - 1];
      Offers(steps[..|steps| - 1])
        + if step == Fetching(AddNew) then [true] else if step == Fetching(AddRefused) then [false] else []
  }

  // The outcomes of the DeleteRecord calls.
  function Outcomes(steps: seq<Step>): seq<bool> {
    if steps == [] then []
    else
      var step := steps[|steps| - 1];
      Outcomes(steps[..|steps| - 1]) + if step.Work? && step.work.DeleteReturns? then [step.work.ok] else []
  }

  lemma {:induction false} RunFront(c: Config, s: State, steps: seq<Step>)
    requires steps != [] && CanRun(c, s, steps)
    ensures var front, last := steps[..|steps| - 1], steps[|steps| - 1];
            && CanRun(c, s, front) && Enabled(c, After(c, s, front), last)
            && After(c, s, steps) == Apply(c, After(c, s, front), last)
    decreases |steps|
  {
    if |steps| > 1 {
      RunFront(c, Apply(c, s, steps[0]), steps[1..]);
      assert steps[1..][..|steps| - 2] == steps[..|steps| - 1][1..];
    }
  }

  function TimeOf(f: Fetch): int { f.time }

  function OkOf(call: DeleteCall): bool { call.ok }

  /** The rows inserted, the times of the fetches and the outcomes of the calls are those of the steps, in order. */
  lemma {:induction false} HistoriesAreSteps(c: Config, table: seq<Row>, steps: seq<Step>)
    requires ValidConfig(c) && CanRun(c, Init(c, table), steps)
    ensures var s := After(c, Init(c, table), steps);
            && s.inserted == Inserts(steps) && Map(s.fetches, TimeOf) == FetchTimes(steps)
            && Map(s.calls, OkOf) == Outcomes(steps)
  {
    if steps != [] {
      var front, last := steps[..|steps| - 1], steps[|steps| - 1];
      RunFront(c, Init(c, table), steps);
      HistoriesAreSteps(c, table, front);
      HistoryStep(c, After(c, Init(c, table), front), last);
    }
  }

  lemma HistoryStep(c: Config, s: State, step: Step)
    requires Enabled(c, s, step)
    ensures var t := Apply(c, s, step);
            && t.inserted == s.inserted + (if step.Insert? then [step.row] else [])
            && Map(t.fetches, TimeOf) == Map(s.fetches, TimeOf)
                 + (if step.Fetching? && step.fetcher.Fetched? then [step.fetcher.time] else [])
            && Map(t.calls, OkOf) == Map(s.calls, OkOf)
                 + (if step.Work? && step.work.DeleteReturns? then [step.work.ok] else [])
  {
    match step
    case Insert(row) => assert Apply(c, s, step) == InsertRow(s, row);
    case Fetching(act) => assert Apply(c, s, step) == FetcherApply(c, s, act);
    case Popping(p, act) => assert Apply(c, s, step) == PopApply(s, p, act);
    case Looped(act) => assert Apply(c, s, step) == PopperApply(c, s, act);
    case Work(w, act) => assert Apply(c, s, step) == WorkerApply(c, s, w, act);
    case Halt(act) => assert Apply(c, s, step) == StopApply(s, act);
  }

  // ---------------------------------------------------------------- every fetched key is offered

  function RowsOf(f: Fetch): seq<Row> { f.rows }

  // The keys of all rows fetched, in order.
  function FetchedKeys(fetches: seq<Fetch>): seq<Key> { Map(Flat(fetches, RowsOf), KeyOf) }

  // The keys at the offers that were taken.
  function Taking(offers: seq<bool>, keys: seq<Key>): seq<Key>
    requires |offers| <= |keys|
  {
    if offers == [] then []
    else
      var n := |offers| - 1;
      Taking(offers[..n], keys) + if offers[n] then [keys[n]] else []
  }

  // The keys the loop has still to offer.
  function ToOffer(f: Fetcher): seq<Key> {
    match f
    case Adding(vals, next) => if next <= |vals| then vals[next..] else []
    case Raising(vals, next) => if next < |vals| then vals[next + 1..] else []
    case _ => []
  }

  // The keys fetched are those offered so far and then those to be offered; those added are the ones taken.
  predicate Offered(s: State, offers: seq<bool>) {
    var keys := FetchedKeys(s.fetches);
    |offers| <= |keys| && keys[|offers|..] == ToOffer(s.fetcher) && s.added == Taking(offers, keys)
  }

  lemma {:induction false} TakingOfMore(offers: seq<bool>, keys: seq<Key>, more: seq<Key>)
    requires |offers| <= |keys|
    ensures Taking(offers, keys + more) == Taking(offers, keys)
  {
    if offers != [] { TakingOfMore(offers[..|offers| - 1], keys, more); }
  }

  lemma OfferedFetch(c: Config, s: State, offers: seq<bool>, time: int, picks: seq<nat>)
    requires Offered(s, offers) && FetcherEnabled(c, s, Fetched(time, picks))
    ensures Offered(FetcherApply(c, s, Fetched(time, picks)), offers)
  {
    var t := FetcherApply(c, s, Fetched(time, picks));
    var f := t.fetches[|s.fetches|];
    assert t.fetches == s.fetches + [f] && t.fetches[..|s.fetches|] == s.fetches;
    MapConcat(Flat(s.fetches, RowsOf), f.rows, KeyOf);
    assert FetchedKeys(t.fetches) == FetchedKeys(s.fetches) + Map(f.rows, KeyOf);
    TakingOfMore(offers, FetchedKeys(s.fetches), Map(f.rows, KeyOf));
    assert ToOffer(t.fetcher) == Map(f.rows, KeyOf);
  }

  lemma OfferedOne(c: Config, s: State, offers: seq<bool>, ok: bool)
    requires Offered(s, offers) && FetcherEnabled(c, s, if ok then AddNew else AddRefused)
    ensures Offered(FetcherApply(c, s, if ok then AddNew else AddRefused), offers + [ok])
  {
    var t := FetcherApply(c, s, if ok then AddNew else AddRefused);
    var keys := FetchedKeys(s.fetches);
    assert (offers + [ok])[..|offers|] == offers;
    assert keys[|offers|..][0] == keys[|offers|] == s.fetcher.vals[s.fetcher.next];
    assert keys[|offers| + 1..] == keys[|offers|..][1..] == ToOffer(t.fetcher);
  }

  lemma OfferedStep(c: Config, s: State, step: Step, offers: seq<bool>)
    requires Offered(s, offers) && Control(c, s) && Enabled(c, s, step)
    ensures Offered(Apply(c, s, step), offers
                    + if step == Fetching(AddNew) then [true] else if step == Fetching(AddRefused) then [false] else [])
  {
    assert offers + [] == offers;
    if step.Fetching? {
      match step.fetcher
      case Fetched(time, picks) => OfferedFetch(c, s, offers, time, picks);
      case AddNew => OfferedOne(c, s, offers, true);
      case AddRefused => OfferedOne(c, s, offers, false);
      case RaiseGauge => assert ToOffer(FetcherApply(c, s, RaiseGauge).fetcher) == ToOffer(s.fetcher);
      case _ =>
    } else {
      OtherSteps(c, s, step);
    }
  }

  lemma OtherSteps(c: Config, s: State, step: Step)
    requires Enabled(c, s, step) && !step.Fetching?
    ensures var t := Apply(c, s, step); t.fetches == s.fetches && t.fetcher == s.fetcher && t.added == s.added
  {
  }

  lemma {:induction false} RunOffers(c: Config, table: seq<Row>, steps: seq<Step>)
    requires ValidConfig(c) && CanRun(c, Init(c, table), steps)
    ensures Offered(After(c, Init(c, table), steps), Offers(steps))
  {
    if steps != [] {
      var front, last := steps[..|steps| - 1], steps[|steps| - 1];
      RunFront(c, Init(c, table), steps);
      RunOffers(c, table, front);
      Reached(c, table, front);
      OfferedStep(c, After(c, Init(c, table), front), last, Offers(front));
    }
  }

  /**
   Every key fetched is offered to the set once, in the order of the fetches and of
   their rows; the keys added are those at the offers the set took. While the fetch
   loop waits, or is over, no fetched key remains to be offered.
   */
  lemma EveryFetchedKeyIsOffered(c: Config, table: seq<Row>, steps: seq<Step>)
    requires ValidConfig(c) && CanRun(c, Init(c, table), steps)
    ensures var s := After(c, Init(c, table), steps);
            var keys := FetchedKeys(s.fetches);
            && |Offers(steps)| <= |keys| && s.added == Taking(Offers(steps), keys)
            && (s.fetcher == Waiting || s.fetcher == FetcherDone ==> |Offers(steps)| == |keys|)
  {
    RunOffers(c, table, steps);
  }
}
