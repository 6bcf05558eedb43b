/**
 The batch deleter over a table of rows, as a transition system: a fetch loop, a
 set of keys, a pop loop, delete workers, `Stop`, and other clients inserting rows.

 The key set comes from another library. What is used of it: `Add` answers true
 exactly when it inserted an absent item, otherwise it changes nothing; `Pop`
 removes and returns one element, or returns nil and changes nothing;
 `SendToChannel` runs one `Pop` in a goroutine of its own and delivers its result.
 */
module DeleterProtocol {
  import opened Records
  import opened Sums

  datatype Key = Key(deathDate: int, recordID: int)

  datatype Row = Row(shard: int, key: Key, content: Record)

  datatype Config = Config(shard: int, maxWorkers: int, getLimit: int)

  predicate ValidConfig(c: Config) { c.maxWorkers >= 1 && c.getLimit >= 0 }

  datatype Fetcher =
    | Waiting                                  // at the select
    | Adding(vals: seq<Key>, next: nat)        // in the loop over the fetched keys
    | Raising(vals: seq<Key>, next: nat)       // Add answered true, gauge not raised yet
    | FetcherDone

  /** A goroutine started by SendToChannel. */
  datatype Pop = InPop | Delivering(item: Option<Key>)

  datatype Popper =
    | Looping                   // about to enter the select
    | Selecting
    | Got(key: Key)             // received, gauge not lowered yet
    | Acquiring(key: Key)       // needs a permit
    | Sleeping
    | Grabbing(taken: nat)
    | PopperDone

  datatype Phase = Deleting | Deleted | Released

  datatype Worker = Worker(key: Key, phase: Phase)

  datatype StopPhase = NotCalled | Closed | Returned

  datatype Fetch = Fetch(time: int, rows: seq<Row>)
  datatype DeleteCall = DeleteCall(key: Key, ok: bool, removed: Option<Row>, fetchesBefore: nat)

  /** `inserted`, `fetches`, `added` and `calls` are histories; `initial` is the table at the start. */
  datatype State = State(
    table: seq<Row>, keys: set<Key>, fetcher: Fetcher, pops: seq<Pop>, popper: Popper, workers: seq<Worker>,
    permits: int, gauge: int, stop: StopPhase,
    initial: seq<Row>, inserted: seq<Row>, fetches: seq<Fetch>, added: seq<Key>, calls: seq<DeleteCall>)

  datatype FetcherAct =
    | Fetched(time: int, picks: seq<nat>) | FetchFailed | AddNew | AddRefused | RaiseGauge | FetcherStop
  datatype PopAct = PopTake(key: Key) | PopNil
  datatype PopperAct =
    | EnterSelect | SeeStop | TakeItem | SkipNil | LowerGauge | Spawn | Wake | Grab | GrabbedAll
  datatype WorkerAct = DeleteReturns(ok: bool, at: Option<nat>) | Release
  datatype StopAct = Close | StopReturn

  datatype Step =
    | Insert(row: Row)
    | Fetching(fetcher: FetcherAct)
    | Popping(p: nat, pop: PopAct)
    | Looped(popper: PopperAct)
    | Work(w: nat, work: WorkerAct)
    | Halt(halt: StopAct)

  function Init(c: Config, table: seq<Row>): State
    requires ValidConfig(c)
  {
    State(table, {}, Waiting, [], Looping, [], c.maxWorkers, 0, NotCalled, table, [], [], [], [])
  }

  // ---------------------------------------------------------------- the two queries

  // WHERE shard = ? AND death_date < ?
  predicate Expired(c: Config, time: int, row: Row) { row.shard == c.shard && row.key.deathDate < time }

  // WHERE shard = ? AND death_date = ? AND record_id = ?
  predicate Matches(c: Config, key: Key, row: Row) { row.shard == c.shard && row.key == key }

  // The positions a SELECT with that condition and LIMIT may return, in any order.
  predicate IsAnswer(c: Config, table: seq<Row>, time: int, picks: seq<nat>) {
    && (forall i :: 0 <= i < |picks| ==> picks[i] < |table| && Expired(c, time, table[picks[i]]))
    && (forall i, j :: 0 <= i < j < |picks| ==> picks[i] != picks[j])
    && |picks| <= c.getLimit
    && (|picks| < c.getLimit ==> forall i: nat :: i < |table| && Expired(c, time, table[i]) ==> i in picks)
  }

  function RowsAt(table: seq<Row>, picks: seq<nat>): (rows: seq<Row>)
    requires forall i :: 0 <= i < |picks| ==> picks[i] < |table|
    ensures |rows| == |picks| && forall i :: 0 <= i < |picks| ==> rows[i] == table[picks[i]]
  {
    seq(|picks|, i requires 0 <= i < |picks| => table[picks[i]])
  }

  function KeyOf(row: Row): Key { row.key }

  function Without(table: seq<Row>, at: nat): seq<Row>
    requires at < |table|
  {
    table[..at] + table[at + 1..]
  }

  // DELETE with LIMIT 1: a success removes one matching row if there is one; an error may or may not have.
  predicate DeleteOutcome(c: Config, table: seq<Row>, key: Key, ok: bool, at: Option<nat>) {
    match at
    case Some(i) => i < |table| && Matches(c, key, table[i])
    case None => ok ==> forall i :: 0 <= i < |table| ==> !Matches(c, key, table[i])
  }

  // ---------------------------------------------------------------- steps

  function Resume(vals: seq<Key>, next: nat): Fetcher {
    if next < |vals| then Adding(vals, next) else Waiting
  }

  predicate FetcherEnabled(c: Config, s: State, act: FetcherAct) {
    match act
    case Fetched(time, picks) => s.fetcher.Waiting? && IsAnswer(c, s.table, time, picks)
    case FetchFailed => s.fetcher.Waiting?
    case AddNew => s.fetcher.Adding? && s.fetcher.next < |s.fetcher.vals| && s.fetcher.vals[s.fetcher.next] !in s.keys
    case AddRefused => s.fetcher.Adding? && s.fetcher.next < |s.fetcher.vals|
    case RaiseGauge => s.fetcher.Raising?
    case FetcherStop => s.fetcher.Waiting? && s.stop != NotCalled
  }

  function FetcherApply(c: Config, s: State, act: FetcherAct): State
    requires FetcherEnabled(c, s, act)
  {
    match act
    case Fetched(time, picks) =>
      var rows := RowsAt(s.table, picks);
      s.(fetcher := Resume(Map(rows, KeyOf), 0), fetches := s.fetches + [Fetch(time, rows)])
    case FetchFailed => s
    case AddNew =>
      var key := s.fetcher.vals[s.fetcher.next];
      s.(keys := s.keys + {key}, added := s.added + [key], fetcher := Raising(s.fetcher.vals, s.fetcher.next))
    case AddRefused => s.(fetcher := Resume(s.fetcher.vals, s.fetcher.next + 1))
    case RaiseGauge => s.(gauge := s.gauge + 1, fetcher := Resume(s.fetcher.vals, s.fetcher.next + 1))
    case FetcherStop => s.(fetcher := FetcherDone)
  }

  predicate PopEnabled(s: State, p: nat, act: PopAct) {
    p < |s.pops| && s.pops[p].InPop? && (act.PopTake? ==> act.key in s.keys)
  }

  function PopApply(s: State, p: nat, act: PopAct): State
    requires PopEnabled(s, p, act)
  {
    match act
    case PopTake(key) => s.(keys := s.keys - {key}, pops := s.pops[p := Delivering(Some(key))])
    case PopNil => s.(pops := s.pops[p := Delivering(None)])
  }

  // The popper listens to the goroutine it started last.
  predicate ItemReady(s: State) { s.pops != [] && s.pops[|s.pops| - 1].Delivering? }

  function Item(s: State): Option<Key>
    requires ItemReady(s)
  {
    s.pops[|s.pops| - 1].item
  }

  predicate PopperEnabled(c: Config, s: State, act: PopperAct) {
    match act
    case EnterSelect => s.popper.Looping?
    case SeeStop => s.popper.Selecting? && s.stop != NotCalled
    case TakeItem => s.popper.Selecting? && ItemReady(s) && Item(s).Some?
    case SkipNil => s.popper.Selecting? && ItemReady(s) && Item(s).None?
    case LowerGauge => s.popper.Got?
    case Spawn => s.popper.Acquiring? && s.permits > 0
    case Wake => s.popper.Sleeping?
    case Grab => s.popper.Grabbing? && s.popper.taken < c.maxWorkers && s.permits > 0
    case GrabbedAll => s.popper.Grabbing? && s.popper.taken >= c.maxWorkers
  }

  function PopperApply(c: Config, s: State, act: PopperAct): State
    requires PopperEnabled(c, s, act)
  {
    match act
    case EnterSelect => s.(popper := Selecting, pops := s.pops + [InPop])
    case SeeStop => s.(popper := Grabbing(0))
    case TakeItem => s.(popper := Got(Item(s).value), pops := s.pops[..|s.pops| - 1])
    case SkipNil => s.(popper := Looping, pops := s.pops[..|s.pops| - 1])
    case LowerGauge => s.(popper := Acquiring(s.popper.key), gauge := s.gauge - 1)
    case Spawn =>
      s.(popper := Sleeping, permits := s.permits - 1, workers := s.workers + [Worker(s.popper.key, Deleting)])
    case Wake => s.(popper := Looping)
    case Grab => s.(popper := Grabbing(s.popper.taken + 1), permits := s.permits - 1)
    case GrabbedAll => s.(popper := PopperDone)
  }

  predicate WorkerEnabled(c: Config, s: State, x: Worker, act: WorkerAct) {
    match act
    case DeleteReturns(ok, at) => x.phase.Deleting? && DeleteOutcome(c, s.table, x.key, ok, at)
    case Release => x.phase.Deleted?
  }

  function WorkerApply(c: Config, s: State, w: nat, act: WorkerAct): State
    requires w < |s.workers| && WorkerEnabled(c, s, s.workers[w], act)
  {
    var x := s.workers[w];
    match act
    case DeleteReturns(ok, at) =>
      s.(workers := s.workers[w := x.(phase := Deleted)],
         table := if at.Some? then Without(s.table, at.value) else s.table,
         calls := s.calls + [DeleteCall(x.key, ok, if at.Some? then Some(s.table[at.value]) else None, |s.fetches|)])
    case Release => s.(workers := s.workers[w := x.(phase := Released)], permits := s.permits + 1)
  }

  predicate StopEnabled(s: State, act: StopAct) {
    match act
    case Close => s.stop == NotCalled
    case StopReturn => s.stop == Closed && s.fetcher.FetcherDone? && s.popper.PopperDone?
  }

  function StopApply(s: State, act: StopAct): State { s.(stop := if act.Close? then Closed else Returned) }

  predicate Enabled(c: Config, s: State, step: Step) {
    match step
    case Insert(_) => true
    case Fetching(act) => FetcherEnabled(c, s, act)
    case Popping(p, act) => PopEnabled(s, p, act)
    case Looped(act) => PopperEnabled(c, s, act)
    case Work(w, act) => w < |s.workers| && WorkerEnabled(c, s, s.workers[w], act)
    case Halt(act) => StopEnabled(s, act)
  }

  function InsertRow(s: State, row: Row): State { s.(table := s.table + [row], inserted := s.inserted + [row]) }

  function Apply(c: Config, s: State, step: Step): State
    requires Enabled(c, s, step)
  {
    match step
    case Insert(row) => InsertRow(s, row)
    case Fetching(act) => FetcherApply(c, s, act)
    case Popping(p, act) => PopApply(s, p, act)
    case Looped(act) => PopperApply(c, s, act)
    case Work(w, act) => WorkerApply(c, s, w, act)
    case Halt(act) => StopApply(s, act)
  }

  predicate CanRun(c: Config, s: State, steps: seq<Step>)
    decreases |steps|
  {
    steps == [] || (Enabled(c, s, steps[0]) && CanRun(c, Apply(c, s, steps[0]), steps[1..]))
  }

  function After(c: Config, s: State, steps: seq<Step>): State
    requires CanRun(c, s, steps)
    decreases |steps|
  {
    if steps == [] then s else After(c, Apply(c, s, steps[0]), steps[1..])
  }

  lemma {:induction false} RunSnoc(c: Config, s: State, steps: seq<Step>, step: Step)
    requires CanRun(c, s, steps) && Enabled(c, After(c, s, steps), step)
    ensures CanRun(c, s, steps + [step])
    ensures After(c, s, steps + [step]) == Apply(c, After(c, s, steps), step)
    decreases |steps|
  {
    if steps == [] {
      assert [] + [step] == [step] && [step][1..] == [];
    } else {
      assert (steps + [step])[1..] == steps[1..] + [step];
      RunSnoc(c, Apply(c, s, steps[0]), steps[1..], step);
    }
  }

  lemma Extend(c: Config, s: State, steps: seq<Step>, step: Step) returns (more: seq<Step>)
    requires CanRun(c, s, steps) && Enabled(c, After(c, s, steps), step)
    ensures CanRun(c, s, more) && After(c, s, more) == Apply(c, After(c, s, steps), step)
  {
    RunSnoc(c, s, steps, step);
    more := steps + [step];
  }

  lemma {:induction false} RunConcat(c: Config, s: State, steps: seq<Step>, more: seq<Step>)
    requires CanRun(c, s, steps) && CanRun(c, After(c, s, steps), more)
    ensures CanRun(c, s, steps + more) && After(c, s, steps + more) == After(c, After(c, s, steps), more)
    decreases |steps|
  {
    if steps == [] {
      assert [] + more == more;
    } else {
      assert (steps + more)[1..] == steps[1..] + more;
      RunConcat(c, Apply(c, s, steps[0]), steps[1..], more);
    }
  }

  // ---------------------------------------------------------------- the invariant

  function One(b: bool): int { if b then 1 else 0 }

  function Carrying(k: Key): Worker -> int { (w: Worker) => One(w.key == k) }

  function HasCalled(k: Key): Worker -> int { (w: Worker) => One(w.key == k && !w.phase.Deleting?) }

  function CalledFor(k: Key): DeleteCall -> int { (call: DeleteCall) => One(call.key == k) }

  function Holding(k: Key): Pop -> int { (p: Pop) => One(p == Delivering(Some(k))) }

  function Taken(p: Pop): int { One(p.Delivering? && p.item.Some?) }

  function Active(w: Worker): int { One(!w.phase.Released?) }

  function InHand(popper: Popper, k: Key): int { One((popper.Got? || popper.Acquiring?) && popper.key == k) }

  function Grabbed(c: Config, popper: Popper): int {
    if popper.Grabbing? then popper.taken else if popper.PopperDone? then c.maxWorkers else 0
  }

  // Some fetch returned a row with this key.
  ghost predicate WasFetched(fetches: seq<Fetch>, k: Key) {
    exists i, j :: 0 <= i < |fetches| && 0 <= j < |fetches[i].rows| && fetches[i].rows[j].key == k
  }

  predicate Control(c: Config, s: State) {
    && (s.popper.Looping? || s.popper.Got? || s.popper.Acquiring? || s.popper.Sleeping? ==> s.pops == [])
    && (s.popper.Selecting? || s.popper.Grabbing? || s.popper.PopperDone? ==> |s.pops| == 1)
    && (s.fetcher.FetcherDone? || s.popper.Grabbing? || s.popper.PopperDone? ==> s.stop != NotCalled)
    && (s.stop.Returned? ==> s.fetcher.FetcherDone? && s.popper.PopperDone?)
    && 0 <= Grabbed(c, s.popper) <= c.maxWorkers
    && (s.fetcher.Adding? || s.fetcher.Raising? ==> s.fetcher.next < |s.fetcher.vals|)
  }

  predicate Permits(c: Config, s: State) {
    s.permits >= 0 && s.permits + ISum(s.workers, Active) + Grabbed(c, s.popper) == c.maxWorkers
  }

  predicate Gauge(s: State) {
    s.gauge == |s.keys| - One(s.fetcher.Raising?) + ISum(s.pops, Taken) + One(s.popper.Got?)
  }

  // Where the additions of a key are: the set, a Pop's result, the popper's hand, a worker.
  ghost predicate AccountedAt(s: State, k: Key) {
    Count(s.added, k)
    == One(k in s.keys) + ISum(s.pops, Holding(k)) + InHand(s.popper, k) + ISum(s.workers, Carrying(k))
  }

  ghost predicate Accounted(s: State) { forall k :: AccountedAt(s, k) }

  ghost predicate CalledAt(s: State, k: Key) { ISum(s.calls, CalledFor(k)) == ISum(s.workers, HasCalled(k)) }

  ghost predicate CalledOnce(s: State) { forall k :: CalledAt(s, k) }

  predicate GoodFetch(c: Config, f: Fetch) {
    |f.rows| <= c.getLimit && forall j :: 0 <= j < |f.rows| ==> Expired(c, f.time, f.rows[j])
  }

  // Every key on its way to a delete came out of a fetch.
  ghost predicate Provenance(c: Config, s: State) {
    && (forall i :: 0 <= i < |s.fetches| ==> GoodFetch(c, s.fetches[i]))
    && (s.fetcher.Adding? || s.fetcher.Raising? ==>
          forall i :: 0 <= i < |s.fetcher.vals| ==> WasFetched(s.fetches, s.fetcher.vals[i]))
    && (forall k :: k in s.keys ==> WasFetched(s.fetches, k))
    && (forall p :: 0 <= p < |s.pops| && Taken(s.pops[p]) == 1 ==> WasFetched(s.fetches, s.pops[p].item.value))
    && (s.popper.Got? || s.popper.Acquiring? ==> WasFetched(s.fetches, s.popper.key))
    && (forall w :: 0 <= w < |s.workers| ==> WasFetched(s.fetches, s.workers[w].key))
  }

  // A call's key came out of a fetch made before it, and it removed a row with that key only.
  ghost predicate GoodCall(c: Config, fetches: seq<Fetch>, call: DeleteCall) {
    && call.fetchesBefore <= |fetches|
    && WasFetched(fetches[..call.fetchesBefore], call.key)
    && (call.removed.Some? ==> Matches(c, call.key, call.removed.value))
  }

  ghost predicate GoodCalls(c: Config, s: State) {
    forall i :: 0 <= i < |s.calls| ==> GoodCall(c, s.fetches, s.calls[i])
  }

  function RemovedBy(r: Row): DeleteCall -> int { (call: DeleteCall) => One(call.removed == Some(r)) }

  // Rows are neither lost nor duplicated: what is not in the table was removed by a call.
  ghost predicate TableAt(s: State, r: Row) {
    Count(s.table, r) + ISum(s.calls, RemovedBy(r)) == Count(s.initial, r) + Count(s.inserted, r)
  }

  ghost predicate TableKept(s: State) { forall r :: TableAt(s, r) }

  predicate UniqueKeys(table: seq<Row>) {
    forall i, j :: 0 <= i < j < |table| ==> table[i].shard != table[j].shard || table[i].key != table[j].key
  }

  // While keys are unique and nothing is inserted, a successful call leaves no row with its key.
  predicate GoneForGood(c: Config, s: State) {
    s.inserted == [] && UniqueKeys(s.initial) ==>
      && UniqueKeys(s.table)
      && forall i, j :: 0 <= i < |s.calls| && 0 <= j < |s.table| && s.calls[i].ok ==>
           !Matches(c, s.calls[i].key, s.table[j])
  }

  predicate Origin(s: State, row: Row) { row in s.initial || row in s.inserted }

  // Every row in the table, in a fetch or removed by a call was there at the start or was inserted.
  predicate Known(s: State) {
    && (forall i :: 0 <= i < |s.table| ==> Origin(s, s.table[i]))
    && (forall f, j :: 0 <= f < |s.fetches| && 0 <= j < |s.fetches[f].rows| ==> Origin(s, s.fetches[f].rows[j]))
    && (forall i :: 0 <= i < |s.calls| && s.calls[i].removed.Some? ==> Origin(s, s.calls[i].removed.value))
  }

  ghost predicate Inv(c: Config, s: State) {
    && ValidConfig(c)
    && Control(c, s)
    && Permits(c, s)
    && Gauge(s)
    && Accounted(s)
    && CalledOnce(s)
    && Provenance(c, s)
    && GoodCalls(c, s)
    && TableKept(s)
    && Known(s)
    && GoneForGood(c, s)
  }

  lemma InitKeepsInv(c: Config, table: seq<Row>)
    requires ValidConfig(c)
    ensures Inv(c, Init(c, table))
  {
  }

  lemma ControlStep(c: Config, s: State, step: Step)
    requires ValidConfig(c) && Control(c, s) && Enabled(c, s, step)
    ensures Control(c, Apply(c, s, step))
  {
  }

  lemma PermitsStep(c: Config, s: State, step: Step)
    requires Permits(c, s) && Control(c, s) && Enabled(c, s, step)
    ensures Permits(c, Apply(c, s, step))
  {
    match step
    case Insert(row) => assert Apply(c, s, step) == InsertRow(s, row);
    case Fetching(act) => assert Permits(c, FetcherApply(c, s, act));
    case Popping(p, act) => assert Permits(c, PopApply(s, p, act));
    case Looped(act) => PermitsPopper(c, s, act);
    case Work(w, act) => PermitsWork(c, s, w, act);
    case Halt(act) => assert Apply(c, s, step) == StopApply(s, act);
  }

  lemma PermitsPopper(c: Config, s: State, act: PopperAct)
    requires Permits(c, s) && Control(c, s) && PopperEnabled(c, s, act)
    ensures Permits(c, PopperApply(c, s, act))
  {
    if act.Spawn? { ISumAppend(s.workers, Worker(s.popper.key, Deleting), Active); }
  }

  lemma PermitsWork(c: Config, s: State, w: nat, act: WorkerAct)
    requires Permits(c, s) && w < |s.workers| && WorkerEnabled(c, s, s.workers[w], act)
    ensures Permits(c, WorkerApply(c, s, w, act))
  {
    ISumUpdate(s.workers, w, s.workers[w].(phase := if act.Release? then Released else Deleted), Active);
  }

  lemma GaugeStep(c: Config, s: State, step: Step)
    requires Gauge(s) && Control(c, s) && Enabled(c, s, step)
    ensures Gauge(Apply(c, s, step))
  {
    match step
    case Insert(row) => assert Apply(c, s, step) == InsertRow(s, row);
    case Fetching(act) => assert Gauge(FetcherApply(c, s, act));
    case Popping(p, act) => GaugePop(s, p, act);
    case Looped(act) => GaugePopper(c, s, act);
    case Work(w, act) => assert Gauge(WorkerApply(c, s, w, act));
    case Halt(act) => assert Apply(c, s, step) == StopApply(s, act);
  }

  lemma GaugePop(s: State, p: nat, act: PopAct)
    requires Gauge(s) && PopEnabled(s, p, act)
    ensures Gauge(PopApply(s, p, act))
  {
    ISumUpdate(s.pops, p, PopApply(s, p, act).pops[p], Taken);
  }

  lemma GaugePopper(c: Config, s: State, act: PopperAct)
    requires Gauge(s) && Control(c, s) && PopperEnabled(c, s, act)
    ensures Gauge(PopperApply(c, s, act))
  {
    match act
    case EnterSelect => ISumAppend(s.pops, InPop, Taken);
    case TakeItem => OnlyPop(s);
    case SkipNil => OnlyPop(s);
    case _ =>
  }

  lemma OnlyPop(s: State)
    requires |s.pops| == 1 && ItemReady(s)
    ensures ISum(s.pops, Taken) == One(Item(s).Some?) && ISum(s.pops[..0], Taken) == 0
  {
    assert s.pops == [Delivering(Item(s))];
  }

  lemma AccountedStep(c: Config, s: State, step: Step, k: Key)
    requires AccountedAt(s, k) && Control(c, s) && Enabled(c, s, step)
    ensures AccountedAt(Apply(c, s, step), k)
  {
    match step
    case Insert(row) => assert Apply(c, s, step) == InsertRow(s, row);
    case Fetching(act) => AccountedFetcher(c, s, act, k);
    case Popping(p, act) => AccountedPop(s, p, act, k);
    case Looped(act) => AccountedPopper(c, s, act, k);
    case Work(w, act) => AccountedWork(c, s, w, act, k);
    case Halt(act) => assert Apply(c, s, step) == StopApply(s, act);
  }

  lemma AccountedFetcher(c: Config, s: State, act: FetcherAct, k: Key)
    requires AccountedAt(s, k) && FetcherEnabled(c, s, act)
    ensures AccountedAt(FetcherApply(c, s, act), k)
  {
    if act.AddNew? { CountAppend(s.added, s.fetcher.vals[s.fetcher.next], k); }
  }

  lemma AccountedPop(s: State, p: nat, act: PopAct, k: Key)
    requires AccountedAt(s, k) && PopEnabled(s, p, act)
    ensures AccountedAt(PopApply(s, p, act), k)
  {
    ISumUpdate(s.pops, p, PopApply(s, p, act).pops[p], Holding(k));
  }

  lemma AccountedPopper(c: Config, s: State, act: PopperAct, k: Key)
    requires AccountedAt(s, k) && Control(c, s) && PopperEnabled(c, s, act)
    ensures AccountedAt(PopperApply(c, s, act), k)
  {
    match act
    case EnterSelect => ISumAppend(s.pops, InPop, Holding(k));
    case TakeItem => TakenIsInHand(s, k);
    case SkipNil => TakenIsInHand(s, k);
    case Spawn => AccountedSpawn(c, s, k);
    case _ =>
  }

  lemma AccountedSpawn(c: Config, s: State, k: Key)
    requires AccountedAt(s, k) && PopperEnabled(c, s, Spawn)
    ensures AccountedAt(PopperApply(c, s, Spawn), k)
  {
    ISumAppend(s.workers, Worker(s.popper.key, Deleting), Carrying(k));
  }

  // The popper takes over what the only outstanding Pop holds.
  lemma TakenIsInHand(s: State, k: Key)
    requires |s.pops| == 1 && ItemReady(s)
    ensures ISum(s.pops, Holding(k)) == One(Item(s) == Some(k)) && ISum(s.pops[..0], Holding(k)) == 0
  {
    assert s.pops == [Delivering(Item(s))];
  }

  lemma AccountedWork(c: Config, s: State, w: nat, act: WorkerAct, k: Key)
    requires AccountedAt(s, k) && w < |s.workers| && WorkerEnabled(c, s, s.workers[w], act)
    ensures AccountedAt(WorkerApply(c, s, w, act), k)
  {
    ISumUpdate(s.workers, w, s.workers[w].(phase := if act.Release? then Released else Deleted), Carrying(k));
  }

  lemma CalledStep(c: Config, s: State, step: Step, k: Key)
    requires CalledAt(s, k) && Enabled(c, s, step)
    ensures CalledAt(Apply(c, s, step), k)
  {
    match step
    case Insert(row) => assert Apply(c, s, step) == InsertRow(s, row);
    case Fetching(act) => assert CalledAt(FetcherApply(c, s, act), k);
    case Popping(p, act) => assert CalledAt(PopApply(s, p, act), k);
    case Looped(act) => CalledPopper(c, s, act, k);
    case Work(w, act) => CalledWork(c, s, w, act, k);
    case Halt(act) => assert Apply(c, s, step) == StopApply(s, act);
  }

  lemma CalledPopper(c: Config, s: State, act: PopperAct, k: Key)
    requires CalledAt(s, k) && PopperEnabled(c, s, act)
    ensures CalledAt(PopperApply(c, s, act), k)
  {
    if act.Spawn? { ISumAppend(s.workers, Worker(s.popper.key, Deleting), HasCalled(k)); }
  }

  lemma CalledWork(c: Config, s: State, w: nat, act: WorkerAct, k: Key)
    requires CalledAt(s, k) && w < |s.workers| && WorkerEnabled(c, s, s.workers[w], act)
    ensures CalledAt(WorkerApply(c, s, w, act), k)
  {
    var t := WorkerApply(c, s, w, act);
    ISumUpdate(s.workers, w, t.workers[w], HasCalled(k));
    if act.DeleteReturns? { ISumAppend(s.calls, t.calls[|s.calls|], CalledFor(k)); }
  }

  lemma FetchedStays(fetches: seq<Fetch>, f: Fetch, k: Key)
    requires WasFetched(fetches, k)
    ensures WasFetched(fetches + [f], k)
  {
    var i, j :| 0 <= i < |fetches| && 0 <= j < |fetches[i].rows| && fetches[i].rows[j].key == k;
    assert (fetches + [f])[i].rows[j].key == k;
  }

  lemma ProvenanceStep(c: Config, s: State, step: Step)
    requires Provenance(c, s) && GoodCalls(c, s) && Control(c, s) && Enabled(c, s, step)
    ensures Provenance(c, Apply(c, s, step)) && GoodCalls(c, Apply(c, s, step))
  {
    match step
    case Insert(row) => assert Apply(c, s, step) == InsertRow(s, row);
    case Fetching(act) => ProvenanceFetcher(c, s, act);
    case Popping(p, act) => ProvenancePop(c, s, p, act);
    case Looped(act) => ProvenancePopper(c, s, act);
    case Work(w, act) => ProvenanceWork(c, s, w, act);
    case Halt(act) => assert Apply(c, s, step) == StopApply(s, act);
  }

  lemma ProvenancePop(c: Config, s: State, p: nat, act: PopAct)
    requires Provenance(c, s) && GoodCalls(c, s) && PopEnabled(s, p, act)
    ensures Provenance(c, PopApply(s, p, act)) && GoodCalls(c, PopApply(s, p, act))
  {
  }

  lemma ProvenancePopper(c: Config, s: State, act: PopperAct)
    requires Provenance(c, s) && GoodCalls(c, s) && Control(c, s) && PopperEnabled(c, s, act)
    ensures Provenance(c, PopperApply(c, s, act)) && GoodCalls(c, PopperApply(c, s, act))
  {
  }

  lemma ProvenanceWork(c: Config, s: State, w: nat, act: WorkerAct)
    requires Provenance(c, s) && GoodCalls(c, s) && w < |s.workers| && WorkerEnabled(c, s, s.workers[w], act)
    ensures Provenance(c, WorkerApply(c, s, w, act)) && GoodCalls(c, WorkerApply(c, s, w, act))
  {
    assert s.fetches[..|s.fetches|] == s.fetches;
  }

  lemma ProvenanceFetcher(c: Config, s: State, act: FetcherAct)
    requires Provenance(c, s) && GoodCalls(c, s) && Control(c, s) && FetcherEnabled(c, s, act)
    ensures Provenance(c, FetcherApply(c, s, act)) && GoodCalls(c, FetcherApply(c, s, act))
  {
    if act.Fetched? {
      var t := FetcherApply(c, s, act);
      var f := t.fetches[|s.fetches|];
      forall k | WasFetched(s.fetches, k) ensures WasFetched(t.fetches, k) { FetchedStays(s.fetches, f, k); }
      forall j | 0 <= j < |f.rows| ensures WasFetched(t.fetches, f.rows[j].key) {
        assert t.fetches[|s.fetches|].rows[j].key == f.rows[j].key;
      }
      forall i | 0 <= i < |s.calls| ensures GoodCall(c, t.fetches, s.calls[i]) {
        var n := s.calls[i].fetchesBefore;
        assert t.fetches[..n] == s.fetches[..n];
      }
    }
  }

  lemma TableStep(c: Config, s: State, step: Step, r: Row)
    requires TableAt(s, r) && Enabled(c, s, step)
    ensures TableAt(Apply(c, s, step), r)
  {
    match step
    case Insert(row) => TableInsert(s, row, r);
    case Fetching(act) => assert TableAt(FetcherApply(c, s, act), r);
    case Popping(p, act) => assert TableAt(PopApply(s, p, act), r);
    case Looped(act) => assert TableAt(PopperApply(c, s, act), r);
    case Work(w, act) => TableWork(c, s, w, act, r);
    case Halt(act) => assert TableAt(StopApply(s, act), r);
  }

  lemma TableInsert(s: State, row: Row, r: Row)
    requires TableAt(s, r)
    ensures TableAt(InsertRow(s, row), r)
  {
    CountAppend(s.table, row, r);
    CountAppend(s.inserted, row, r);
  }

  lemma TableWork(c: Config, s: State, w: nat, act: WorkerAct, r: Row)
    requires TableAt(s, r) && w < |s.workers| && WorkerEnabled(c, s, s.workers[w], act)
    ensures TableAt(WorkerApply(c, s, w, act), r)
  {
    if act.DeleteReturns? {
      ISumAppend(s.calls, WorkerApply(c, s, w, act).calls[|s.calls|], RemovedBy(r));
      if act.at.Some? { CountRemove(s.table, act.at.value, r); }
    }
  }

  lemma KnownStep(c: Config, s: State, step: Step)
    requires Known(s) && Enabled(c, s, step)
    ensures Known(Apply(c, s, step))
  {
    match step
    case Insert(row) => assert Known(InsertRow(s, row));
    case Fetching(act) => assert Known(FetcherApply(c, s, act));
    case Popping(p, act) => assert Known(PopApply(s, p, act));
    case Looped(act) => assert Known(PopperApply(c, s, act));
    case Work(w, act) => KnownWork(c, s, w, act);
    case Halt(act) => assert Known(StopApply(s, act));
  }

  lemma KnownWork(c: Config, s: State, w: nat, act: WorkerAct)
    requires Known(s) && w < |s.workers| && WorkerEnabled(c, s, s.workers[w], act)
    ensures Known(WorkerApply(c, s, w, act))
  {
    var t := WorkerApply(c, s, w, act);
    forall j | 0 <= j < |t.table| ensures Origin(t, t.table[j]) {
      if act.DeleteReturns? && act.at.Some? { assert t.table[j] == s.table[if j < act.at.value then j else j + 1]; }
    }
  }

  lemma GoneStep(c: Config, s: State, step: Step)
    requires GoneForGood(c, s) && Enabled(c, s, step)
    ensures GoneForGood(c, Apply(c, s, step))
  {
    match step
    case Insert(row) => assert InsertRow(s, row).inserted != [];
    case Work(w, act) => GoneWork(c, s, w, act);
    case _ =>
  }

  lemma GoneWork(c: Config, s: State, w: nat, act: WorkerAct)
    requires GoneForGood(c, s) && w < |s.workers| && WorkerEnabled(c, s, s.workers[w], act)
    ensures GoneForGood(c, WorkerApply(c, s, w, act))
  {
    if act.DeleteReturns? && s.inserted == [] && UniqueKeys(s.initial) {
      var t := WorkerApply(c, s, w, act);
      if act.at.Some? { WithoutOne(c, s.table, s.workers[w].key, act.at.value); }
      forall i, j | 0 <= i < |t.calls| && 0 <= j < |t.table| && t.calls[i].ok
        ensures !Matches(c, t.calls[i].key, t.table[j])
      {
        if i < |s.calls| {
          assert t.calls[i] == s.calls[i];
          assert t.table[j] in s.table;
        }
      }
    }
  }

  // Removing the row with a key from a table with unique keys leaves none with that key.
  lemma WithoutOne(c: Config, table: seq<Row>, key: Key, at: nat)
    requires at < |table| && UniqueKeys(table) && Matches(c, key, table[at])
    ensures UniqueKeys(Without(table, at))
    ensures forall j :: 0 <= j < |Without(table, at)| ==>
              Without(table, at)[j] in table && !Matches(c, key, Without(table, at)[j])
  {
    var t := Without(table, at);
    assert forall j :: 0 <= j < |t| ==> t[j] == table[if j < at then j else j + 1];
  }

  /** Every step of every goroutine, and every row another client inserts, keeps the invariant. */
  lemma StepKeepsInv(c: Config, s: State, step: Step)
    requires Inv(c, s) && Enabled(c, s, step)
    ensures Inv(c, Apply(c, s, step))
  {
    var t := Apply(c, s, step);
    assert Control(c, t) by { ControlStep(c, s, step); }
    assert Permits(c, t) by { PermitsStep(c, s, step); }
    assert Gauge(t) by { GaugeStep(c, s, step); }
    assert Accounted(t) by { forall k ensures AccountedAt(t, k) { AccountedStep(c, s, step, k); } }
    assert CalledOnce(t) by { forall k ensures CalledAt(t, k) { CalledStep(c, s, step, k); } }
    assert Provenance(c, t) && GoodCalls(c, t) by { ProvenanceStep(c, s, step); }
    assert TableKept(t) by { forall r ensures TableAt(t, r) { TableStep(c, s, step, r); } }
    assert Known(t) by { KnownStep(c, s, step); }
    assert GoneForGood(c, t) by { GoneStep(c, s, step); }
  }

  lemma {:induction false} RunKeepsInv(c: Config, s: State, steps: seq<Step>)
    requires Inv(c, s) && CanRun(c, s, steps)
    ensures Inv(c, After(c, s, steps))
    ensures After(c, s, steps).initial == s.initial
    decreases |steps|
  {
    if steps != [] {
      StepKeepsInv(c, s, steps[0]);
      RunKeepsInv(c, Apply(c, s, steps[0]), steps[1..]);
    }
  }
}
