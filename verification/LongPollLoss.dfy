/** Which rows the polls to come can still deliver: what the scheme loses and what it repeats. */
module LongPollLoss {
  import opened Records
  import opened TimeUuid
  import opened StateHash
  import opened LongPoll
  import opened Selections

  // The limit lets rows through, and the row's id comes after the cursor if there is one.
  predicate Deliverable(st: Store, limit: nat, s: State, row: StoredRow) {
    limit >= 1
    && (s.cursor != "" ==>
          row.id.Some? && CursorId(st, s).Some? && st.later(row.id.value, CursorId(st, s).value))
  }

  // Some poll of the run delivers the row.
  predicate Delivers(st: Store, f: Filter, limit: nat, s: State, steps: seq<Step>, row: StoredRow) {
    CanRun(st, f, limit, s, steps)
    && var t := After(st, f, limit, s, steps); s.delivered <= t.delivered && row in t.delivered[|s.delivered|..]
  }

  /** A row not after the cursor is never delivered afterwards, in any continuation. */
  lemma {:induction false} SkippedForGood(st: Store, f: Filter, limit: nat, s: State, steps: seq<Step>, row: StoredRow)
    requires ValidStore(st) && Sound(st, f, s) && CanRun(st, f, limit, s, steps) && !Deliverable(st, limit, s, row)
    ensures var t := After(st, f, limit, s, steps);
            s.delivered <= t.delivered && row !in t.delivered[|s.delivered|..]
    decreases |steps|
  {
    if steps != [] {
      var t := Apply(st, f, limit, s, steps[0]);
      if steps[0].Poll? {
        SoundPoll(st, f, limit, s, steps[0].picks, steps[0].gen);
        SkippedNow(st, f, limit, s, steps[0].picks, steps[0].gen, row);
      }
      SkippedForGood(st, f, limit, t, steps[1..], row);
    }
  }

  lemma SkippedNow(st: Store, f: Filter, limit: nat, s: State, picks: seq<nat>, gen: Generator, row: StoredRow)
    requires ValidStore(st) && Sound(st, f, s) && Enabled(st, f, limit, s, Poll(picks, gen))
    requires !Deliverable(st, limit, s, row)
    ensures var t := Apply(st, f, limit, s, Poll(picks, gen));
            !Deliverable(st, limit, t, row) && t.delivered == s.delivered + RowsAt(s.table, picks)
            && row !in RowsAt(s.table, picks)
  {
    if picks != [] { CursorRises(st, f, limit, s, picks, gen); }
    forall k | 0 <= k < |picks| ensures s.table[picks[k]] != row {
      assert Wanted(st, f, s.cursor, s.table[picks[k]]);
    }
  }

  lemma OnePollDelivers(st: Store, f: Filter, limit: nat, s: State, i: nat) returns (steps: seq<Step>)
    requires i < |s.table| && Selected(f, s.table[i]) && Deliverable(st, limit, s, s.table[i])
    ensures Delivers(st, f, limit, s, steps, s.table[i])
  {
    var poll := PollFor(st, f, limit, s, i);
    RunSnoc(st, f, limit, s, [], poll);
    steps := [] + [poll];
  }

  // One poll that brings row `i`.
  lemma PollFor(st: Store, f: Filter, limit: nat, s: State, i: nat) returns (poll: Step)
    requires i < |s.table| && Selected(f, s.table[i]) && Deliverable(st, limit, s, s.table[i])
    ensures Enabled(st, f, limit, s, poll)
    ensures var t := Apply(st, f, limit, s, poll);
            s.delivered <= t.delivered && s.table[i] in t.delivered[|s.delivered|..]
  {
    var node: seq<Byte> := [0, 0, 0, 0, 0, 0];
    FallbackBound(1, 0, node);
    var keep := (j: nat) => j < |s.table| && Wanted(st, f, s.cursor, s.table[j]);
    var picks := Leading(|s.table|, limit, keep, i);
    assert forall a :: 0 <= a < |picks| ==> picks[a] < |s.table| && keep(picks[a]);
    poll := Poll(picks, Generator(0, 0, node, FromBirthDate(1, 0, node)));
    var t := Apply(st, f, limit, s, poll);
    assert t.delivered[|s.delivered|] == RowsAt(s.table, picks)[0] == s.table[i];
    assert t.delivered[|s.delivered|] in t.delivered[|s.delivered|..];
  }

  /**
   A selected row of the table will be delivered in some continuation exactly when its
   id comes after the cursor, if there is one.
   */
  lemma DeliverableIff(st: Store, f: Filter, limit: nat, s: State, row: StoredRow)
    requires ValidStore(st) && Sound(st, f, s) && row in s.table && Selected(f, row)
    ensures (exists steps :: Delivers(st, f, limit, s, steps, row))
       <==> Deliverable(st, limit, s, row)
  {
    if Deliverable(st, limit, s, row) {
      var i :| 0 <= i < |s.table| && s.table[i] == row;
      var steps := OnePollDelivers(st, f, limit, s, i);
    } else {
      forall steps | CanRun(st, f, limit, s, steps) ensures !Delivers(st, f, limit, s, steps, row) {
        SkippedForGood(st, f, limit, s, steps, row);
      }
    }
  }

  // The run ends with the row delivered.
  predicate EndsWith(st: Store, f: Filter, limit: nat, s: State, steps: seq<Step>, row: StoredRow) {
    CanRun(st, f, limit, s, steps) && row in After(st, f, limit, s, steps).delivered
  }

  /**
   Loss: an undelivered row is lost, delivered by no continuation, exactly when there
   is a cursor and the row has no id or one that is not after the cursor.
   */
  lemma LostIff(st: Store, f: Filter, limit: nat, s: State, row: StoredRow)
    requires ValidStore(st) && Sound(st, f, s) && limit >= 1
    requires row in s.table && Selected(f, row) && row !in s.delivered
    ensures (forall steps :: !EndsWith(st, f, limit, s, steps, row))
       <==> s.cursor != "" && (row.id.Some? ==> !st.later(row.id.value, CursorId(st, s).value))
  {
    DeliverableIff(st, f, limit, s, row);
    if Deliverable(st, limit, s, row) {
      var steps :| Delivers(st, f, limit, s, steps, row);
      assert EndsWith(st, f, limit, s, steps, row);
    } else {
      forall steps ensures !EndsWith(st, f, limit, s, steps, row) {
        if CanRun(st, f, limit, s, steps) {
          SkippedForGood(st, f, limit, s, steps, row);
          var t := After(st, f, limit, s, steps);
          assert t.delivered == s.delivered + t.delivered[|s.delivered|..];
        }
      }
    }
  }

  /**
   Repetition: a delivered row can be delivered again exactly when it ties with the
   cursor in time and is later in the tie.
   */
  lemma RepeatedIff(st: Store, f: Filter, limit: nat, s: State, row: StoredRow)
    requires ValidStore(st) && Sound(st, f, s) && limit >= 1 && row in s.delivered && row.id.Some?
    ensures s.cursor != "" && CursorId(st, s).Some?
    ensures (exists steps :: Delivers(st, f, limit, s, steps, row))
       <==> Ticks(row.id.value) == Ticks(CursorId(st, s).value) && st.later(row.id.value, CursorId(st, s).value)
  {
    var k :| 0 <= k < |s.delivered| && s.delivered[k] == row;
    assert AnyId(s.delivered);
    DeliverableIff(st, f, limit, s, row);
  }

  /** The limit does lose rows: newest first with a limit of one, the older of two rows is never delivered. */
  lemma LimitLosesRows(st: Store, f: Filter, older: StoredRow, newer: StoredRow, gen: Generator)
    returns (steps: seq<Step>)
    requires ValidStore(st) && |gen.node| == 6 && InRange(gen.now)
    requires Plausible(older) && Plausible(newer) && Selected(f, older) && Selected(f, newer)
    requires older.id.Some? && newer.id.Some? && Ticks(older.id.value) < Ticks(newer.id.value)
    ensures CanRun(st, f, 1, START, steps)
    ensures var s := After(st, f, 1, START, steps);
            s.table == [older, newer] && s.delivered == [newer]
            && forall more :: !EndsWith(st, f, 1, s, more, older)
  {
    steps := NewestFirst(st, f, older, newer, gen);
    var s := After(st, f, 1, START, steps);
    assert s.delivered[0].id.Some? && older in s.table;
    LostIff(st, f, 1, s, older);
  }

  lemma NewestFirst(st: Store, f: Filter, older: StoredRow, newer: StoredRow, gen: Generator)
    returns (steps: seq<Step>)
    requires ValidStore(st) && |gen.node| == 6 && InRange(gen.now)
    requires Plausible(older) && Plausible(newer) && Selected(f, older) && Selected(f, newer)
    ensures CanRun(st, f, 1, START, steps)
    ensures var s := After(st, f, 1, START, steps);
            s.table == [older, newer] && s.delivered == [newer] && Sound(st, f, s)
  {
    steps := InsertTwo(st, f, 1, older, newer);
    var poll := Poll([1], gen);
    RunSnoc(st, f, 1, START, steps, poll);
    assert RowsAt([older, newer], [1]) == [newer];
    steps := steps + [poll];
    RunIsSound(st, f, 1, START, steps);
  }
}
