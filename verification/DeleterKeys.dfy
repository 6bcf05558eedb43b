/**
 A delete names a row by shard, death date and record id, which nothing in the
 repository makes unique. When the row removed is one a fetch returned, and how a
 row no fetch returned is removed otherwise.
 */
module DeleterKeys {
  import opened Records
  import opened DeleterProtocol
  import opened DeleterTheorems

  // Each row a call removed is among the rows of a fetch made before the call.
  predicate RemovedWereFetched(s: State) {
    forall i :: 0 <= i < |s.calls| && s.calls[i].removed.Some? ==> Returned(s.fetches, s.calls[i])
  }

  predicate Returned(fetches: seq<Fetch>, call: DeleteCall)
    requires call.removed.Some?
  {
    exists f :: 0 <= f < |fetches| && f < call.fetchesBefore && call.removed.value in fetches[f].rows
  }

  // Two different rows of the shard have the same key.
  predicate Clash(c: Config, rows: seq<Row>, i: nat, j: nat) {
    i < j < |rows| && rows[i].shard == c.shard && Matches(c, rows[i].key, rows[j]) && rows[i] != rows[j]
  }

  lemma {:induction false} FirstClash(c: Config, rows: seq<Row>) returns (i: nat, j: nat)
    requires !KeysTellRows(c, rows)
    ensures Clash(c, rows, i, j) && KeysTellRows(c, rows[..j])
  {
    var front := rows[..|rows| - 1];
    assert forall a :: 0 <= a < |front| ==> front[a] == rows[a];
    if KeysTellRows(c, front) {
      var a, b :| 0 <= a < |rows| && 0 <= b < |rows| && rows[a].shard == c.shard
                  && Matches(c, rows[a].key, rows[b]) && rows[a] != rows[b];
      i, j := if a < b then a else b, |front|;
    } else {
      i, j := FirstClash(c, front);
      assert front[..j] == rows[..j];
    }
  }

  lemma {:induction false} InsertRows(c: Config, s: State, rows: seq<Row>) returns (steps: seq<Step>)
    ensures CanRun(c, s, steps)
    ensures After(c, s, steps) == s.(table := s.table + rows, inserted := s.inserted + rows)
    decreases |rows|
  {
    steps := [];
    if rows != [] {
      var n := |rows| - 1;
      steps := InsertRows(c, s, rows[..n]);
      steps := Extend(c, s, steps, Insert(rows[n]));
      assert rows == rows[..n] + [rows[n]];
    }
  }

  // From a fetched list of keys, the first is added, popped and passed to a delete goroutine.
  lemma FirstKeyToWorker(c: Config, s: State, key: Key) returns (steps: seq<Step>)
    requires ValidConfig(c) && s.keys == {} && s.pops == [] && s.popper == Looping && s.workers == [] && s.permits >= 1
    requires s.fetcher.Adding? && s.fetcher.next == 0 && |s.fetcher.vals| >= 1 && s.fetcher.vals[0] == key
    ensures CanRun(c, s, steps)
    ensures var t := After(c, s, steps);
            && t.workers == [Worker(key, Deleting)] && t.table == s.table && t.inserted == s.inserted
            && t.fetches == s.fetches && t.calls == s.calls
  {
    steps := [];
    steps := Extend(c, s, steps, Fetching(AddNew));
    steps := Extend(c, s, steps, Looped(EnterSelect));
    steps := Extend(c, s, steps, Popping(0, PopTake(key)));
    steps := Extend(c, s, steps, Looped(TakeItem));
    steps := Extend(c, s, steps, Looped(LowerGauge));
    steps := Extend(c, s, steps, Looped(Spawn));
  }

  // A delete goroutine has the key of row `i`, which a fetch returned before the rows from `j` on were inserted.
  lemma FetchThenInsert(c: Config, all: seq<Row>, i: nat, j: nat) returns (f: Fetch, steps: seq<Step>)
    requires ValidConfig(c) && c.getLimit >= 1 && i < j <= |all| && all[i].shard == c.shard
    ensures CanRun(c, Init(c, all[..j]), steps)
    ensures var s := After(c, Init(c, all[..j]), steps);
            && s.workers == [Worker(all[i].key, Deleting)] && s.table == all && s.inserted == all[j..]
            && s.fetches == [f] && s.calls == []
    ensures forall a :: 0 <= a < |f.rows| ==> f.rows[a] in all[..j]
  {
    var s0 := Init(c, all[..j]);
    var picks;
    f, picks := FetchFirst(c, all[..j], i);
    steps := Extend(c, s0, [], Fetching(Fetched(f.time, picks)));
    var more := InsertRows(c, After(c, s0, steps), all[j..]);
    RunConcat(c, s0, steps, more);
    steps := steps + more;
    assert all[..j] + all[j..] == all;
    more := FirstKeyToWorker(c, After(c, s0, steps), all[i].key);
    RunConcat(c, s0, steps, more);
    steps := steps + more;
  }

  /** Two rows with one key: a run in which a fetch returns the first and the delete removes the second. */
  lemma ClashRemovesUnfetched(c: Config, all: seq<Row>) returns (table: seq<Row>, steps: seq<Step>)
    requires ValidConfig(c) && c.getLimit >= 1 && !KeysTellRows(c, all)
    ensures CanRun(c, Init(c, table), steps)
    ensures var s := After(c, Init(c, table), steps); table + s.inserted == all && !RemovedWereFetched(s)
  {
    var i, j := FirstClash(c, all);
    var f;
    table := all[..j];
    f, steps := FetchThenInsert(c, all, i, j);
    steps := Extend(c, Init(c, table), steps, Work(0, DeleteReturns(true, Some(j))));
    NotFetched(c, all, i, j, f);
    var call := After(c, Init(c, table), steps).calls[0];
    assert call.removed == Some(all[j]) && !Returned([f], call);
  }

  lemma NotFetched(c: Config, all: seq<Row>, i: nat, j: nat, f: Fetch)
    requires Clash(c, all, i, j) && KeysTellRows(c, all[..j]) && forall a :: 0 <= a < |f.rows| ==> f.rows[a] in all[..j]
    ensures all[j] !in f.rows
  {
    forall b | 0 <= b < j ensures all[b] != all[j] {
      assert all[..j][b] == all[b] && all[..j][i] == all[i];
    }
  }

  /**
   Given all the rows there ever are, every run removes only rows that an earlier
   fetch returned exactly when keys tell the shard's rows apart, or nothing is fetched.
   */
  lemma RemovedWereFetchedIff(c: Config, all: seq<Row>)
    requires ValidConfig(c)
    ensures (forall table, steps ::
               CanRun(c, Init(c, table), steps) && table + After(c, Init(c, table), steps).inserted == all ==>
                 RemovedWereFetched(After(c, Init(c, table), steps)))
       <==> c.getLimit == 0 || KeysTellRows(c, all)
  {
    if c.getLimit == 0 || KeysTellRows(c, all) {
      forall table, steps |
        CanRun(c, Init(c, table), steps) && table + After(c, Init(c, table), steps).inserted == all
        ensures RemovedWereFetched(After(c, Init(c, table), steps))
      {
        Reached(c, table, steps);
        var s := After(c, Init(c, table), steps);
        if c.getLimit == 0 { NothingFetched(c, s); }
        forall i | 0 <= i < |s.calls| && s.calls[i].removed.Some? ensures Returned(s.fetches, s.calls[i]) {
          var f, j := OnlyExpiredRowsGo(c, table, steps, i);
        }
      }
    } else {
      var table, steps := ClashRemovesUnfetched(c, all);
    }
  }
}
