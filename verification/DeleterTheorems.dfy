/** What the batch deleter's protocol guarantees about the table and about shutdown. */
module DeleterTheorems {
  import opened Records
  import opened Sums
  import opened Selections
  import opened DeleterProtocol

  lemma Reached(c: Config, table: seq<Row>, steps: seq<Step>)
    requires ValidConfig(c) && CanRun(c, Init(c, table), steps)
    ensures Inv(c, After(c, Init(c, table), steps)) && After(c, Init(c, table), steps).initial == table
  {
    InitKeepsInv(c, table);
    RunKeepsInv(c, Init(c, table), steps);
  }

  // A fetch that returns row `i` first.
  lemma FetchFirst(c: Config, table: seq<Row>, i: nat) returns (f: Fetch, picks: seq<nat>)
    requires ValidConfig(c) && c.getLimit >= 1 && i < |table| && table[i].shard == c.shard
    ensures IsAnswer(c, table, f.time, picks) && f.rows == RowsAt(table, picks)
    ensures |f.rows| >= 1 && f.rows[0] == table[i] && forall j :: 0 <= j < |f.rows| ==> f.rows[j] in table
  {
    var time := table[i].key.deathDate + 1;
    var keep := (j: nat) => j < |table| && Expired(c, time, table[j]);
    picks := Leading(|table|, c.getLimit, keep, i);
    assert forall a :: 0 <= a < |picks| ==> picks[a] < |table| && keep(picks[a]);
    f := Fetch(time, RowsAt(table, picks));
  }

  // ---------------------------------------------------------------- safety over the table

  // Fetch `f` returned a row with key `k`, in the configured shard and dead before the fetch.
  ghost predicate FetchedBy(c: Config, fetches: seq<Fetch>, k: Key, i: nat, j: nat) {
    i < |fetches| && j < |fetches[i].rows| && fetches[i].rows[j].key == k
    && fetches[i].rows[j].shard == c.shard && k.deathDate < fetches[i].time
  }

  // Among the shard's rows, a key tells which row it is.
  predicate KeysTellRows(c: Config, rows: seq<Row>) {
    forall i, j :: 0 <= i < |rows| && 0 <= j < |rows| && rows[i].shard == c.shard && Matches(c, rows[i].key, rows[j])
      ==> rows[i] == rows[j]
  }

  /**
   Every row removed was in the configured shard and had a death date below the
   time of a fetch, made before the call, that returned its key; and returned the
   row itself, if keys tell rows apart.
   */
  lemma OnlyExpiredRowsGo(c: Config, table: seq<Row>, steps: seq<Step>, i: nat)
    returns (f: nat, j: nat)
    requires ValidConfig(c) && CanRun(c, Init(c, table), steps)
    requires var s := After(c, Init(c, table), steps); i < |s.calls| && s.calls[i].removed.Some?
    ensures var s := After(c, Init(c, table), steps);
            var row := s.calls[i].removed.value;
            && row.shard == c.shard && row.key == s.calls[i].key
            && f < s.calls[i].fetchesBefore && FetchedBy(c, s.fetches, row.key, f, j)
            && (KeysTellRows(c, table + s.inserted) ==> s.fetches[f].rows[j] == row)
  {
    Reached(c, table, steps);
    var s := After(c, Init(c, table), steps);
    var k := s.calls[i].key;
    assert GoodCall(c, s.fetches, s.calls[i]);
    var before := s.fetches[..s.calls[i].fetchesBefore];
    f, j :| 0 <= f < |before| && 0 <= j < |before[f].rows| && before[f].rows[j].key == k;
    assert GoodFetch(c, s.fetches[f]);
    if KeysTellRows(c, table + s.inserted) { SameRow(c, s, s.fetches[f].rows[j], s.calls[i].removed.value); }
  }

  lemma SameRow(c: Config, s: State, a: Row, b: Row)
    requires KeysTellRows(c, s.initial + s.inserted) && Origin(s, a) && Origin(s, b)
    requires a.shard == c.shard && Matches(c, a.key, b)
    ensures a == b
  {
    var all := s.initial + s.inserted;
    assert a in all && b in all;
    var i :| 0 <= i < |all| && all[i] == a;
    var j :| 0 <= j < |all| && all[j] == b;
  }

  function RemovedRows(call: DeleteCall): seq<Row> { if call.removed.Some? then [call.removed.value] else [] }

  /** The table is the initial one, plus what others inserted, minus what the calls removed. */
  lemma TableIsInitialMinusRemoved(c: Config, table: seq<Row>, steps: seq<Step>)
    requires ValidConfig(c) && CanRun(c, Init(c, table), steps)
    ensures var s := After(c, Init(c, table), steps);
            multiset(s.table) + multiset(Flat(s.calls, RemovedRows)) == multiset(table) + multiset(s.inserted)
  {
    Reached(c, table, steps);
    var s := After(c, Init(c, table), steps);
    forall r ensures Count(s.table + Flat(s.calls, RemovedRows), r) == Count(table + s.inserted, r) {
      assert TableAt(s, r);
      forall call | call in s.calls ensures RemovedBy(r)(call) == Count(RemovedRows(call), r) {
        if call.removed.Some? { assert [call.removed.value][..0] == []; }
      }
      CountFlat(s.calls, RemovedRows, RemovedBy(r), r);
      CountConcat(s.table, Flat(s.calls, RemovedRows), r);
      CountConcat(table, s.inserted, r);
    }
    SameMultiset(s.table + Flat(s.calls, RemovedRows), table + s.inserted);
  }

  lemma FetchedPrefix(fetches: seq<Fetch>, n: nat, k: Key)
    requires n <= |fetches| && WasFetched(fetches[..n], k)
    ensures WasFetched(fetches, k)
  {
    var i, j :| 0 <= i < n && 0 <= j < |fetches[..n][i].rows| && fetches[..n][i].rows[j].key == k;
    assert fetches[i].rows[j].key == k;
  }

  /** Rows of other shards, and rows whose key no fetch has returned, survive with their multiplicity. */
  lemma UnfetchedKeysSurvive(c: Config, table: seq<Row>, steps: seq<Step>, row: Row)
    requires ValidConfig(c) && CanRun(c, Init(c, table), steps)
    requires var s := After(c, Init(c, table), steps); row.shard != c.shard || !WasFetched(s.fetches, row.key)
    ensures var s := After(c, Init(c, table), steps);
            multiset(s.table)[row] == multiset(table)[row] + multiset(s.inserted)[row]
  {
    Reached(c, table, steps);
    var s := After(c, Init(c, table), steps);
    forall i | 0 <= i < |s.calls| ensures s.calls[i].removed != Some(row) {
      assert GoodCall(c, s.fetches, s.calls[i]);
      FetchedPrefix(s.fetches, s.calls[i].fetchesBefore, s.calls[i].key);
    }
    UnremovedSurvives(c, s, row);
  }

  /** If keys tell rows apart, every row that no fetch has returned survives with its multiplicity. */
  lemma UnfetchedRowsSurvive(c: Config, table: seq<Row>, steps: seq<Step>, row: Row)
    requires ValidConfig(c) && CanRun(c, Init(c, table), steps)
    requires KeysTellRows(c, table + After(c, Init(c, table), steps).inserted)
    requires var s := After(c, Init(c, table), steps); forall f :: 0 <= f < |s.fetches| ==> row !in s.fetches[f].rows
    ensures var s := After(c, Init(c, table), steps);
            multiset(s.table)[row] == multiset(table)[row] + multiset(s.inserted)[row]
  {
    Reached(c, table, steps);
    var s := After(c, Init(c, table), steps);
    forall i | 0 <= i < |s.calls| ensures s.calls[i].removed != Some(row) {
      if s.calls[i].removed == Some(row) { var f, j := OnlyExpiredRowsGo(c, table, steps, i); }
    }
    UnremovedSurvives(c, s, row);
  }

  lemma UnremovedSurvives(c: Config, s: State, row: Row)
    requires Inv(c, s) && Survives(s, row)
    ensures multiset(s.table)[row] == multiset(s.initial)[row] + multiset(s.inserted)[row]
  {
    assert TableAt(s, row);
    ISumZero(s.calls, RemovedBy(row));
    CountIsMultiplicity(s.table, row);
    CountIsMultiplicity(s.initial, row);
    CountIsMultiplicity(s.inserted, row);
  }

  // The rows of the initial table that no call has removed.
  predicate Survives(s: State, row: Row) {
    forall i :: 0 <= i < |s.calls| ==> s.calls[i].removed != Some(row)
  }

  /**
   With unique keys and nothing inserted, the table holds exactly the initial rows
   no call removed; and a row is gone once a call for its key has succeeded,
   whatever the interleaving and however often the key was fetched again.
   */
  lemma FinalTable(c: Config, table: seq<Row>, steps: seq<Step>, row: Row)
    requires ValidConfig(c) && CanRun(c, Init(c, table), steps) && UniqueKeys(table)
    requires After(c, Init(c, table), steps).inserted == []
    ensures var s := After(c, Init(c, table), steps);
            && (row in s.table <==> row in table && Survives(s, row))
            && ((row.shard == c.shard && exists i :: 0 <= i < |s.calls| && s.calls[i].ok && s.calls[i].key == row.key)
                ==> row !in s.table)
  {
    Reached(c, table, steps);
    var s := After(c, Init(c, table), steps);
    SurvivorsRemain(s, row);
    assert GoneForGood(c, s);
  }

  lemma SurvivorsRemain(s: State, row: Row)
    requires TableAt(s, row) && UniqueKeys(s.initial) && s.inserted == []
    ensures row in s.table <==> row in s.initial && Survives(s, row)
  {
    UniqueCount(s.initial, row);
    CountIn(s.table, row);
    CountIn(s.initial, row);
    if Survives(s, row) {
      ISumZero(s.calls, RemovedBy(row));
    } else {
      var i :| 0 <= i < |s.calls| && s.calls[i].removed == Some(row);
      ISumNonNegative(s.calls, RemovedBy(row));
      assert RemovedBy(row)(s.calls[i]) == 1;
    }
  }

  lemma {:induction false} CountIn<T>(s: seq<T>, x: T)
    ensures x in s <==> Count(s, x) > 0
  {
    if s != [] {
      CountIn(s[..|s| - 1], x);
      assert s == s[..|s| - 1] + [s[|s| - 1]];
    }
  }

  lemma {:induction false} UniqueCount(table: seq<Row>, row: Row)
    requires UniqueKeys(table)
    ensures Count(table, row) <= 1
  {
    if table != [] {
      UniqueCount(table[..|table| - 1], row);
      CountIn(table[..|table| - 1], row);
    }
  }

  /** A limit of zero, which the settings allow, means nothing is ever added or deleted. */
  lemma ZeroLimitDeletesNothing(c: Config, table: seq<Row>, steps: seq<Step>)
    requires ValidConfig(c) && CanRun(c, Init(c, table), steps) && c.getLimit == 0
    ensures var s := After(c, Init(c, table), steps);
            && s.added == [] && s.calls == [] && multiset(s.table) == multiset(table) + multiset(s.inserted)
  {
    Reached(c, table, steps);
    var s := After(c, Init(c, table), steps);
    NothingFetched(c, s);
    TableIsInitialMinusRemoved(c, table, steps);
  }

  lemma NothingFetched(c: Config, s: State)
    requires Inv(c, s) && c.getLimit == 0
    ensures s.added == [] && s.calls == []
  {
    forall k ensures !WasFetched(s.fetches, k) { NoKey(c, s, k); }
    if s.calls != [] {
      assert GoodCall(c, s.fetches, s.calls[0]);
      FetchedPrefix(s.fetches, s.calls[0].fetchesBefore, s.calls[0].key);
    }
    if s.added != [] {
      assert s.added[0] in s.added;
      NoneAdded(c, s, s.added[0]);
    }
  }

  lemma NoKey(c: Config, s: State, k: Key)
    requires Inv(c, s) && c.getLimit == 0
    ensures !WasFetched(s.fetches, k)
  {
    assert forall f :: 0 <= f < |s.fetches| ==> GoodFetch(c, s.fetches[f]);
  }

  lemma NoneAdded(c: Config, s: State, k: Key)
    requires Inv(c, s) && !WasFetched(s.fetches, k)
    ensures k !in s.added
  {
    assert AccountedAt(s, k);
    forall p | p in s.pops ensures Holding(k)(p) == 0 {
      var i :| 0 <= i < |s.pops| && s.pops[i] == p;
    }
    ISumZero(s.pops, Holding(k));
    ISumZero(s.workers, Carrying(k));
    CountIn(s.added, k);
  }

  // ---------------------------------------------------------------- shutdown

  /** At most one `Pop` is outstanding, and delete workers stay within the configured maximum. */
  lemma OnePopAndWorkerBound(c: Config, s: State)
    requires Inv(c, s)
    ensures |s.pops| <= 1
    ensures 0 <= ISum(s.workers, Active) <= c.maxWorkers
  {
    ISumNonNegative(s.workers, Active);
  }

  function HeldByPop(p: Pop): seq<Key> { if p.Delivering? && p.item.Some? then [p.item.value] else [] }

  function CallKey(call: DeleteCall): Key { call.key }

  // The keys whose additions no DeleteRecord call answers: left in the set or with the abandoned Pop.
  function Abandoned(s: State): multiset<Key> { multiset(s.keys) + multiset(Flat(s.pops, HeldByPop)) }

  /**
   Accounting at shutdown: the keys added are those passed to DeleteRecord, those
   left in the set and at most one held by the abandoned `Pop`.
   */
  lemma ShutdownAccounting(c: Config, s: State)
    requires Inv(c, s) && s.stop.Returned?
    ensures multiset(s.added) == multiset(Map(s.calls, CallKey)) + Abandoned(s)
    ensures |Flat(s.pops, HeldByPop)| <= 1
  {
    StoppedIsQuiet(c, s);
    assert s.pops == [s.pops[0]] && [s.pops[0]][..0] == [];
    forall k ensures multiset(s.added)[k] == (multiset(Map(s.calls, CallKey)) + Abandoned(s))[k] {
      assert AccountedAt(s, k) && CalledAt(s, k);
      AllCalled(s, k);
      CountIsMultiplicity(s.added, k);
      CountIsMultiplicity(Map(s.calls, CallKey), k);
      CountIsMultiplicity(Flat(s.pops, HeldByPop), k);
      PopHolds(s.pops[0], k);
    }
  }

  lemma PopHolds(p: Pop, k: Key)
    ensures ISum([p], Holding(k)) == Count(Flat([p], HeldByPop), k)
  {
    assert [p][..0] == [];
    assert Flat([p], HeldByPop) == HeldByPop(p);
  }

  lemma AllCalled(s: State, k: Key)
    requires CalledAt(s, k) && forall w :: 0 <= w < |s.workers| ==> s.workers[w].phase.Released?
    ensures Count(Map(s.calls, CallKey), k) == ISum(s.workers, Carrying(k))
  {
    ISumEqual(s.workers, HasCalled(k), Carrying(k));
    CountMap(s.calls, CallKey, CalledFor(k), k);
  }

  lemma StoppedIsQuiet(c: Config, s: State)
    requires Inv(c, s) && s.stop.Returned?
    ensures |s.pops| == 1 && s.permits == 0
    ensures forall w :: 0 <= w < |s.workers| ==> s.workers[w].phase.Released?
  {
    ISumNonNegative(s.workers, Active);
  }

  /** Once `Stop` has returned no database call is running and none can start. */
  lemma NothingAfterStop(c: Config, s: State, step: Step)
    requires Inv(c, s) && s.stop.Returned? && Enabled(c, s, step)
    ensures step.Insert? || step.Popping?
    ensures var t := Apply(c, s, step); t.calls == s.calls && t.fetches == s.fetches && t.stop.Returned?
  {
    StoppedIsQuiet(c, s);
  }

  /** The gauge counts the set, plus at most one item in transit; after `Stop`, what was abandoned. */
  lemma GaugeAtShutdown(c: Config, s: State)
    requires Inv(c, s)
    ensures |s.keys| - 1 <= s.gauge <= |s.keys| + 1
    ensures s.stop.Returned? ==> s.gauge == |Abandoned(s)|
  {
    if |s.pops| == 1 {
      assert s.pops == [s.pops[0]] && [s.pops[0]][..0] == [];
      assert ISum(s.pops, Taken) == Taken(s.pops[0]);
      assert Flat(s.pops, HeldByPop) == HeldByPop(s.pops[0]);
    }
  }
}
