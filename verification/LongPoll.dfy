/**
 Long polling over Cassandra: GetRecords (or GetRecordsOfType) with the last state
 hash as cursor, then GetStateHash of what came back, repeated while other clients
 insert rows. The client polls again with whatever hash it was given and keeps its
 hash when nothing came back.
 */
module LongPoll {
  import opened Records
  import opened TimeUuid
  import opened StateHash

  datatype StoredRow = StoredRow(content: Record, id: Option<UUID>)

  datatype Filter = OfDevice(deviceID: string) | OfType(deviceID: string, eventType: int)

  /** `later(u, v)` is the database's `u > v` on time UUIDs. */
  datatype Store = Store(codec: Codec, later: (UUID, UUID) -> bool)

  // Time UUIDs are ordered by time first; how ties are broken is left open.
  ghost predicate ValidStore(st: Store) {
    && Faithful(st.codec)
    && (forall u, v :: Ticks(u) > Ticks(v) ==> st.later(u, v))
    && (forall u, v :: Ticks(u) < Ticks(v) ==> !st.later(u, v))
    && (forall u :: !st.later(u, u))
    && (forall u, v, w :: st.later(u, v) && st.later(v, w) ==> st.later(u, w))
  }

  predicate Selected(f: Filter, row: StoredRow) {
    row.content.deviceID == f.deviceID && (f.OfType? ==> row.content.eventType == f.eventType)
  }

  // The record a scan of the row yields; a null id reads as the empty string.
  function Scanned(codec: Codec, row: StoredRow): Record {
    row.content.(rowID := if row.id.Some? then codec.show(row.id.value) else "")
  }

  function ScanAll(codec: Codec, rows: seq<StoredRow>): (r: seq<Record>)
    ensures |r| == |rows| && forall i :: 0 <= i < |r| ==> r[i] == Scanned(codec, rows[i])
  {
    seq(|rows|, i requires 0 <= i < |rows| => Scanned(codec, rows[i]))
  }

  // The WHERE clause: with a cursor, `row_id > ?` as well, which no null id satisfies.
  predicate Wanted(st: Store, f: Filter, cursor: string, row: StoredRow) {
    Selected(f, row)
    && (cursor != "" ==> st.codec.parse(cursor).Some? && row.id.Some?
                         && st.later(row.id.value, st.codec.parse(cursor).value))
  }

  // What a SELECT with LIMIT may return: distinct wanted rows in any order, all of them unless the limit is hit.
  predicate IsAnswer(st: Store, f: Filter, limit: nat, table: seq<StoredRow>, cursor: string, picks: seq<nat>) {
    && (forall i :: 0 <= i < |picks| ==> picks[i] < |table| && Wanted(st, f, cursor, table[picks[i]]))
    && (forall i, j :: 0 <= i < j < |picks| ==> picks[i] != picks[j])
    && |picks| <= limit
    && (|picks| < limit ==> forall i: nat :: i < |table| && Wanted(st, f, cursor, table[i]) ==> i in picks)
  }

  function RowsAt(table: seq<StoredRow>, picks: seq<nat>): (rows: seq<StoredRow>)
    requires forall i :: 0 <= i < |picks| ==> picks[i] < |table|
    ensures |rows| == |picks| && forall i :: 0 <= i < |picks| ==> rows[i] == table[picks[i]]
  {
    seq(|picks|, i requires 0 <= i < |picks| => table[picks[i]])
  }

  datatype State = State(table: seq<StoredRow>, cursor: string, delivered: seq<StoredRow>)

  datatype Step = Insert(row: StoredRow) | Poll(picks: seq<nat>, gen: Generator) | PollFails

  // Ids come from the database's clock, birth dates are int64.
  predicate Plausible(row: StoredRow) {
    (row.id.Some? ==> InRange(row.id.value)) && row.content.birthDate < TWO_63
  }

  predicate Enabled(st: Store, f: Filter, limit: nat, s: State, step: Step) {
    match step
    case Insert(row) => Plausible(row)
    case Poll(picks, gen) =>
      IsAnswer(st, f, limit, s.table, s.cursor, picks) && |gen.node| == 6 && InRange(gen.now)
    case PollFails => true
  }

  function Apply(st: Store, f: Filter, limit: nat, s: State, step: Step): State
    requires Enabled(st, f, limit, s, step)
  {
    match step
    case Insert(row) => s.(table := s.table + [row])
    case Poll(picks, gen) =>
      var rows := RowsAt(s.table, picks);
      if rows == [] then s
      else s.(cursor := Hash(st.codec, gen, ScanAll(st.codec, rows)).hash, delivered := s.delivered + rows)
    case PollFails => s
  }

  const START := State([], "", [])

  predicate CanRun(st: Store, f: Filter, limit: nat, s: State, steps: seq<Step>)
    decreases |steps|
  {
    steps == []
    || (Enabled(st, f, limit, s, steps[0]) && CanRun(st, f, limit, Apply(st, f, limit, s, steps[0]), steps[1..]))
  }

  function After(st: Store, f: Filter, limit: nat, s: State, steps: seq<Step>): State
    requires CanRun(st, f, limit, s, steps)
    decreases |steps|
  {
    if steps == [] then s else After(st, f, limit, Apply(st, f, limit, s, steps[0]), steps[1..])
  }

  lemma {:induction false} RunSnoc(st: Store, f: Filter, limit: nat, s: State, steps: seq<Step>, step: Step)
    requires CanRun(st, f, limit, s, steps) && Enabled(st, f, limit, After(st, f, limit, s, steps), step)
    ensures CanRun(st, f, limit, s, steps + [step])
    ensures After(st, f, limit, s, steps + [step]) == Apply(st, f, limit, After(st, f, limit, s, steps), step)
    decreases |steps|
  {
    if steps == [] {
      assert [] + [step] == [step] && [step][1..] == [];
    } else {
      assert (steps + [step])[1..] == steps[1..] + [step];
      RunSnoc(st, f, limit, Apply(st, f, limit, s, steps[0]), steps[1..], step);
    }
  }

  // ---------------------------------------------------------------- one poll

  // The row is of the device and, if one is asked for, of the event type, with an id after the cursor, if there is one.
  predicate AskedFor(st: Store, f: Filter, cursor: string, row: StoredRow) {
    && row.content.deviceID == f.deviceID
    && (f.OfType? ==> row.content.eventType == f.eventType)
    && (cursor == "" || match (row.id, st.codec.parse(cursor))
                        case (Some(id), Some(last)) => st.later(id, last)
                        case _ => false)
  }

  /**
   A poll returns rows asked for, each position once, no more than the limit, and all
   of them unless the limit is reached; and it delivers them as they are in the table.
   */
  lemma PollIff(st: Store, f: Filter, limit: nat, s: State, picks: seq<nat>, gen: Generator)
    requires |gen.node| == 6 && InRange(gen.now)
    ensures Enabled(st, f, limit, s, Poll(picks, gen)) <==>
            && |picks| <= limit
            && (forall i :: 0 <= i < |picks| ==> picks[i] < |s.table| && AskedFor(st, f, s.cursor, s.table[picks[i]]))
            && (forall i, j :: 0 <= i < |picks| && 0 <= j < |picks| && i != j ==> picks[i] != picks[j])
            && (|picks| < limit ==>
                  forall i: nat :: i < |s.table| && AskedFor(st, f, s.cursor, s.table[i]) ==> i in picks)
    ensures Enabled(st, f, limit, s, Poll(picks, gen)) ==>
            var t := Apply(st, f, limit, s, Poll(picks, gen));
            && t.table == s.table && |t.delivered| == |s.delivered| + |picks| && s.delivered <= t.delivered
            && (forall k :: 0 <= k < |picks| ==> t.delivered[|s.delivered| + k] == s.table[picks[k]])
            && (picks == [] ==> t.cursor == s.cursor)
  {
    forall i: nat | i < |s.table|
      ensures AskedFor(st, f, s.cursor, s.table[i]) <==> Wanted(st, f, s.cursor, s.table[i])
    {
    }
  }

  /** A row can be inserted exactly when its birth date is an int64 and its id, if any, in the working range. */
  lemma InsertIff(st: Store, f: Filter, limit: nat, s: State, row: StoredRow)
    ensures Enabled(st, f, limit, s, Insert(row)) <==>
            && row.content.birthDate < TWO_63
            && (row.id.Some? ==> Version(row.id.value) == 1 && SENTINEL_NANO < Instant(Ticks(row.id.value)) < TWO_63)
    ensures Enabled(st, f, limit, s, PollFails) && Apply(st, f, limit, s, PollFails) == s
  {
  }

  // The rows inserted by the steps.
  function Inserts(steps: seq<Step>): seq<StoredRow> {
    if steps == [] then []
    else (if steps[0].Insert? then [steps[0].row] else []) + Inserts(steps[1..])
  }

  /**
   The table holds the rows inserted, as they were inserted; every row delivered is one
   of them, and of the device and type asked for.
   */
  lemma {:induction false} DeliveredWereAskedFor(st: Store, f: Filter, limit: nat, steps: seq<Step>)
    requires CanRun(st, f, limit, START, steps)
    ensures var s := After(st, f, limit, START, steps);
            && s.table == Inserts(steps)
            && forall k :: 0 <= k < |s.delivered| ==>
                 && s.delivered[k] in Inserts(steps) && s.delivered[k].content.deviceID == f.deviceID
                 && (f.OfType? ==> s.delivered[k].content.eventType == f.eventType)
  {
    DeliveredFrom(st, f, limit, START, steps);
  }

  lemma {:induction false} DeliveredFrom(st: Store, f: Filter, limit: nat, s: State, steps: seq<Step>)
    requires CanRun(st, f, limit, s, steps) && FromTable(f, s.table, s.delivered)
    ensures var t := After(st, f, limit, s, steps);
            t.table == s.table + Inserts(steps) && FromTable(f, t.table, t.delivered)
    decreases |steps|
  {
    if steps != [] {
      var t := Apply(st, f, limit, s, steps[0]);
      if steps[0].Poll? {
        assert forall i :: 0 <= i < |steps[0].picks| ==> Wanted(st, f, s.cursor, s.table[steps[0].picks[i]]);
      }
      DeliveredFrom(st, f, limit, t, steps[1..]);
    }
  }

  // ---------------------------------------------------------------- the cursor a poll leaves

  // `u` is the id of one of the rows, and none of them has a later time.
  ghost predicate IsTop(rows: seq<StoredRow>, u: UUID) {
    && (exists k :: 0 <= k < |rows| && rows[k].id == Some(u))
    && (forall j :: 0 <= j < |rows| && rows[j].id.Some? ==> Ticks(rows[j].id.value) <= Ticks(u))
  }

  predicate AnyId(rows: seq<StoredRow>) { exists k :: 0 <= k < |rows| && rows[k].id.Some? }

  lemma NanoOrder(u: UUID, v: UUID)
    requires InRange(u) && InRange(v)
    ensures UnixNano(u) <= UnixNano(v) <==> Ticks(u) <= Ticks(v)
  {
    InRangeBeats(u);
    InRangeBeats(v);
  }

  lemma TopOfLoop(st: Store, gen: Generator, rows: seq<StoredRow>) returns (top: UUID)
    requires ValidStore(st) && |gen.node| == 6 && AnyId(rows) && AllPlausible(rows)
    ensures IsTop(rows, top) && LoopHash(st.codec, gen, ScanAll(st.codec, rows)).hash == st.codec.show(top)
  {
    var records := ScanAll(st.codec, rows);
    var ts := Times(st.codec, records);
    forall i | 0 <= i < |rows| ensures IdOf(st.codec, records[i]) == rows[i].id {}
    BestIsFirstGreatest(ts);
    var k :| 0 <= k < |rows| && rows[k].id.Some?;
    InRangeBeats(rows[k].id.value);
    assert ts[k].Some? && ts[k].value > SENTINEL_NANO;
    var best := Best(ts).value;
    top := rows[best].id.value;
    forall j | 0 <= j < |rows| && rows[j].id.Some? ensures Ticks(rows[j].id.value) <= Ticks(top) {
      assert ts[j].Some? && ts[j].value <= ts[best].value;
      NanoOrder(rows[j].id.value, top);
    }
  }

  /**
   GetStateHash of a non-empty answer is a usable cursor: the id of a row of
   greatest time if any row has one, otherwise some UUID of the working range.
   */
  lemma PollCursor(st: Store, gen: Generator, rows: seq<StoredRow>) returns (cursor: UUID)
    requires ValidStore(st) && |gen.node| == 6 && InRange(gen.now)
    requires rows != [] && AllPlausible(rows)
    ensures var hash := Hash(st.codec, gen, ScanAll(st.codec, rows)).hash;
            hash != "" && st.codec.parse(hash) == Some(cursor)
    ensures InRange(cursor) && (AnyId(rows) ==> IsTop(rows, cursor))
  {
    var records := ScanAll(st.codec, rows);
    if AnyId(rows) {
      if Shortcut(records) {
        cursor := rows[0].id.value;
      } else {
        cursor := TopOfLoop(st, gen, rows);
      }
    } else {
      cursor := FallbackCursor(st, gen, rows);
    }
    assert st.codec.parse(st.codec.show(cursor)) == Some(cursor);
  }

  lemma FallbackCursor(st: Store, gen: Generator, rows: seq<StoredRow>) returns (cursor: UUID)
    requires ValidStore(st) && |gen.node| == 6 && InRange(gen.now)
    requires rows != [] && !AnyId(rows) && AllPlausible(rows)
    ensures InRange(cursor) && Hash(st.codec, gen, ScanAll(st.codec, rows)).hash == st.codec.show(cursor)
  {
    var records := ScanAll(st.codec, rows);
    assert forall i :: 0 <= i < |rows| ==> IdOf(st.codec, records[i]) == None;
    LoopOutcomes(st.codec, gen, records);
    BestBirthDateIsGreatest(st.codec, records);
    var birthDate := BestBirthDate(st.codec, records);
    if birthDate != 0 {
      cursor := FromBirthDate(birthDate, gen.fallbackClock, gen.node);
      FallbackBound(birthDate, gen.fallbackClock, gen.node);
    } else {
      cursor := gen.now;
    }
  }

  /** The fallback cursor loses nothing newer: a row whose id is past every birth date returned is wanted next. */
  lemma FallbackStillWants(st: Store, f: Filter, gen: Generator, rows: seq<StoredRow>, row: StoredRow)
    requires ValidStore(st) && |gen.node| == 6 && !AnyId(rows) && AllPlausible(rows)
    requires exists i :: 0 <= i < |rows| && rows[i].content.birthDate > 0
    requires Selected(f, row) && row.id.Some? && InRange(row.id.value)
    requires forall i :: 0 <= i < |rows| ==> rows[i].content.birthDate < UnixNano(row.id.value)
    ensures Wanted(st, f, Hash(st.codec, gen, ScanAll(st.codec, rows)).hash, row)
  {
    var records := ScanAll(st.codec, rows);
    assert forall i :: 0 <= i < |rows| ==> IdOf(st.codec, records[i]) == None;
    LoopOutcomes(st.codec, gen, records);
    BestBirthDateIsGreatest(st.codec, records);
    var birthDate := BestBirthDate(st.codec, records);
    var i :| 0 <= i < |rows| && rows[i].content.birthDate > 0;
    assert records[i].birthDate <= birthDate;
    var cursor := FromBirthDate(birthDate, gen.fallbackClock, gen.node);
    assert Hash(st.codec, gen, records).hash == st.codec.show(cursor);
    LaterIdIsGreater(birthDate, gen.fallbackClock, gen.node, row.id.value);
    assert st.codec.parse(st.codec.show(cursor)) == Some(cursor);
  }

  // ---------------------------------------------------------------- invariant

  // The UUID the cursor stands for.
  function CursorId(st: Store, s: State): Option<UUID> { st.codec.parse(s.cursor) }

  predicate AllPlausible(rows: seq<StoredRow>) { forall i :: 0 <= i < |rows| ==> Plausible(rows[i]) }

  // Deliveries are selected rows of the table.
  predicate FromTable(f: Filter, table: seq<StoredRow>, rows: seq<StoredRow>) {
    forall k :: 0 <= k < |rows| ==> rows[k] in table && Selected(f, rows[k])
  }

  // The cursor is readable and, once ids have been delivered, is the greatest of them in time.
  ghost predicate CursorOnTop(st: Store, s: State) {
    if s.cursor == "" then s.delivered == []
    else CursorId(st, s).Some? && InRange(CursorId(st, s).value)
         && (AnyId(s.delivered) ==> IsTop(s.delivered, CursorId(st, s).value))
  }

  ghost predicate Sound(st: Store, f: Filter, s: State) {
    AllPlausible(s.table) && FromTable(f, s.table, s.delivered) && CursorOnTop(st, s)
  }

  /** A poll that brings rows moves the cursor up in the database's own order, and never back in time. */
  lemma CursorRises(st: Store, f: Filter, limit: nat, s: State, picks: seq<nat>, gen: Generator)
    requires ValidStore(st) && Sound(st, f, s) && s.cursor != "" && picks != []
    requires Enabled(st, f, limit, s, Poll(picks, gen))
    ensures var t := Apply(st, f, limit, s, Poll(picks, gen));
            && t.cursor != "" && CursorId(st, t).Some? && IsTop(RowsAt(s.table, picks), CursorId(st, t).value)
            && st.later(CursorId(st, t).value, CursorId(st, s).value)
            && Ticks(CursorId(st, t).value) >= Ticks(CursorId(st, s).value)
  {
    var rows := RowsAt(s.table, picks);
    assert rows[0].id.Some?;
    var cursor := PollCursor(st, gen, rows);
  }

  lemma TopOfMore(rows: seq<StoredRow>, more: seq<StoredRow>, u: UUID, v: UUID)
    requires (AnyId(rows) ==> IsTop(rows, u)) && IsTop(more, v) && Ticks(u) <= Ticks(v)
    ensures IsTop(rows + more, v)
  {
    var k :| 0 <= k < |more| && more[k].id == Some(v);
    assert (rows + more)[|rows| + k].id == Some(v);
  }

  lemma SoundPoll(st: Store, f: Filter, limit: nat, s: State, picks: seq<nat>, gen: Generator)
    requires ValidStore(st) && Sound(st, f, s) && Enabled(st, f, limit, s, Poll(picks, gen))
    ensures Sound(st, f, Apply(st, f, limit, s, Poll(picks, gen)))
  {
    var rows := RowsAt(s.table, picks);
    var t := Apply(st, f, limit, s, Poll(picks, gen));
    assert AllPlausible(rows) && FromTable(f, s.table, rows);
    if rows != [] {
      var cursor := PollCursor(st, gen, rows);
      assert CursorOnTop(st, t) by {
        if s.cursor == "" {
          assert t.delivered == rows;
        } else {
          CursorRises(st, f, limit, s, picks, gen);
          TopOfMore(s.delivered, rows, CursorId(st, s).value, cursor);
        }
      }
    }
  }

  lemma {:induction false} RunIsSound(st: Store, f: Filter, limit: nat, s: State, steps: seq<Step>)
    requires ValidStore(st) && Sound(st, f, s) && CanRun(st, f, limit, s, steps)
    ensures Sound(st, f, After(st, f, limit, s, steps))
    decreases |steps|
  {
    if steps != [] {
      if steps[0].Poll? { SoundPoll(st, f, limit, s, steps[0].picks, steps[0].gen); }
      RunIsSound(st, f, limit, Apply(st, f, limit, s, steps[0]), steps[1..]);
    }
  }

  // ---------------------------------------------------------------- never twice

  predicate DistinctTimes(f: Filter, rows: seq<StoredRow>) {
    forall i, j :: 0 <= i < j < |rows| && Selected(f, rows[i]) && Selected(f, rows[j])
                   && rows[i].id.Some? && rows[j].id.Some? ==>
      Ticks(rows[i].id.value) != Ticks(rows[j].id.value)
  }

  predicate NoRepeat(rows: seq<StoredRow>) {
    forall i, j :: 0 <= i < j < |rows| && rows[i].id.Some? && rows[j].id.Some? ==> rows[i].id != rows[j].id
  }

  // Rows picked at different positions have different ids.
  lemma PicksDiffer(st: Store, f: Filter, limit: nat, table: seq<StoredRow>, cursor: string, picks: seq<nat>)
    requires IsAnswer(st, f, limit, table, cursor, picks) && DistinctTimes(f, table)
    ensures NoRepeat(RowsAt(table, picks))
  {
    var rows := RowsAt(table, picks);
    forall i, j | 0 <= i < j < |rows| && rows[i].id.Some? && rows[j].id.Some? ensures rows[i].id != rows[j].id {
      var p, q := picks[i], picks[j];
      assert p != q && table[p] == rows[i] && table[q] == rows[j];
    }
  }

  lemma NoRepeatPoll(st: Store, f: Filter, limit: nat, s: State, picks: seq<nat>, gen: Generator)
    requires ValidStore(st) && Sound(st, f, s) && NoRepeat(s.delivered) && DistinctTimes(f, s.table)
    requires Enabled(st, f, limit, s, Poll(picks, gen))
    ensures NoRepeat(Apply(st, f, limit, s, Poll(picks, gen)).delivered)
  {
    var rows := RowsAt(s.table, picks);
    PicksDiffer(st, f, limit, s.table, s.cursor, picks);
    forall i, j | 0 <= i < |s.delivered| && 0 <= j < |rows| && s.delivered[i].id.Some? && rows[j].id.Some?
      ensures s.delivered[i].id != rows[j].id
    {
      DeliveredIsNotLater(st, f, s, i);
      assert Wanted(st, f, s.cursor, s.table[picks[j]]);
    }
    NoRepeatConcat(s.delivered, rows);
  }

  lemma NoRepeatConcat(xs: seq<StoredRow>, ys: seq<StoredRow>)
    requires NoRepeat(xs) && NoRepeat(ys)
    requires forall i, j :: 0 <= i < |xs| && 0 <= j < |ys| && xs[i].id.Some? && ys[j].id.Some? ==> xs[i].id != ys[j].id
    ensures NoRepeat(xs + ys)
  {
  }

  // With distinct times, a delivered id is the cursor or before it.
  lemma DeliveredIsNotLater(st: Store, f: Filter, s: State, k: nat)
    requires ValidStore(st) && Sound(st, f, s) && DistinctTimes(f, s.table)
    requires k < |s.delivered| && s.delivered[k].id.Some?
    ensures s.cursor != "" && CursorId(st, s).Some? && !st.later(s.delivered[k].id.value, CursorId(st, s).value)
  {
    assert AnyId(s.delivered);
    var c :| 0 <= c < |s.delivered| && s.delivered[c].id == CursorId(st, s);
    if Ticks(s.delivered[k].id.value) == Ticks(CursorId(st, s).value) {
      SameTimeSameId(f, s.table, s.delivered[k], s.delivered[c]);
    }
  }

  // Selected rows of the table, given by members, with one time have one id.
  lemma SameTimeSameId(f: Filter, table: seq<StoredRow>, a: StoredRow, b: StoredRow)
    requires DistinctTimes(f, table) && a in table && b in table && a.id.Some? && b.id.Some?
    requires Selected(f, a) && Selected(f, b)
    requires Ticks(a.id.value) == Ticks(b.id.value)
    ensures a.id == b.id
  {
    var p :| 0 <= p < |table| && table[p] == a;
    var q :| 0 <= q < |table| && table[q] == b;
    assert p == q;
  }

  /**
   When the times of the selected rows are distinct, once an id has been delivered
   every poll that brings rows moves the cursor strictly forward in time.
   */
  lemma CursorTimeRises(st: Store, f: Filter, limit: nat, s: State, picks: seq<nat>, gen: Generator)
    requires ValidStore(st) && Sound(st, f, s) && DistinctTimes(f, s.table) && AnyId(s.delivered) && picks != []
    requires Enabled(st, f, limit, s, Poll(picks, gen))
    ensures var t := Apply(st, f, limit, s, Poll(picks, gen));
            CursorId(st, s).Some? && CursorId(st, t).Some?
            && Ticks(CursorId(st, t).value) > Ticks(CursorId(st, s).value)
  {
    CursorRises(st, f, limit, s, picks, gen);
    var before, rows := CursorId(st, s).value, RowsAt(s.table, picks);
    var after := CursorId(st, Apply(st, f, limit, s, Poll(picks, gen))).value;
    var k :| 0 <= k < |rows| && rows[k].id == Some(after);
    var c :| 0 <= c < |s.delivered| && s.delivered[c].id == Some(before);
    if Ticks(after) == Ticks(before) {
      SameTimeSameId(f, s.table, s.table[picks[k]], s.delivered[c]);
    }
  }

  lemma {:induction false} TableGrows(st: Store, f: Filter, limit: nat, s: State, steps: seq<Step>)
    requires CanRun(st, f, limit, s, steps)
    ensures s.table <= After(st, f, limit, s, steps).table
    decreases |steps|
  {
    if steps != [] { TableGrows(st, f, limit, Apply(st, f, limit, s, steps[0]), steps[1..]); }
  }

  lemma {:induction false} RunNeverRepeats(st: Store, f: Filter, limit: nat, s: State, steps: seq<Step>)
    requires ValidStore(st) && Sound(st, f, s) && NoRepeat(s.delivered) && CanRun(st, f, limit, s, steps)
    requires DistinctTimes(f, After(st, f, limit, s, steps).table)
    ensures NoRepeat(After(st, f, limit, s, steps).delivered)
    decreases |steps|
  {
    if steps != [] {
      var t := Apply(st, f, limit, s, steps[0]);
      TableGrows(st, f, limit, s, steps);
      if steps[0].Poll? {
        SoundPoll(st, f, limit, s, steps[0].picks, steps[0].gen);
        NoRepeatPoll(st, f, limit, s, steps[0].picks, steps[0].gen);
      }
      RunNeverRepeats(st, f, limit, t, steps[1..]);
    }
  }

  /**
   When the times of the selected rows are distinct, no row with an id is ever
   delivered twice, whatever the limit and the inserts.
   */
  lemma NeverTwice(st: Store, f: Filter, limit: nat, steps: seq<Step>)
    requires ValidStore(st) && CanRun(st, f, limit, START, steps)
    requires DistinctTimes(f, After(st, f, limit, START, steps).table)
    ensures NoRepeat(After(st, f, limit, START, steps).delivered)
  {
    RunNeverRepeats(st, f, limit, START, steps);
  }

  /** The tie does happen: two rows of one instant, and the second poll repeats one of them. */
  lemma TieIsRepeated(st: Store, f: Filter, limit: nat, first: StoredRow, second: StoredRow, gen: Generator)
    returns (steps: seq<Step>)
    requires ValidStore(st) && limit >= 2 && |gen.node| == 6 && InRange(gen.now)
    requires Plausible(first) && Plausible(second) && Selected(f, first) && Selected(f, second)
    requires first.id.Some? && second.id.Some? && Ticks(first.id.value) == Ticks(second.id.value)
    requires st.later(second.id.value, first.id.value)
    ensures CanRun(st, f, limit, START, steps) && !NoRepeat(After(st, f, limit, START, steps).delivered)
  {
    steps := PollBoth(st, f, limit, first, second, gen);
    var poll := Poll([1], gen);
    assert 1 in poll.picks;
    RunSnoc(st, f, limit, START, steps, poll);
    assert RowsAt([first, second], [1]) == [second];
    steps := steps + [poll];
    var s := After(st, f, limit, START, steps);
    assert s.delivered[1].id == s.delivered[2].id;
  }

  // Two rows of one instant are inserted and polled; the cursor becomes the id of the first.
  lemma PollBoth(st: Store, f: Filter, limit: nat, first: StoredRow, second: StoredRow, gen: Generator)
    returns (steps: seq<Step>)
    requires ValidStore(st) && limit >= 2 && |gen.node| == 6 && InRange(gen.now)
    requires Plausible(first) && Plausible(second) && Selected(f, first) && Selected(f, second)
    requires first.id.Some? && second.id.Some? && Ticks(first.id.value) == Ticks(second.id.value)
    ensures CanRun(st, f, limit, START, steps)
    ensures var s := After(st, f, limit, START, steps);
            s.table == s.delivered == [first, second] && s.cursor != "" && CursorId(st, s) == first.id
  {
    steps := InsertTwo(st, f, limit, first, second);
    var poll := Poll([0, 1], gen);
    assert IsAnswer(st, f, limit, [first, second], "", [0, 1]) by { assert 0 in [0, 1] && 1 in [0, 1]; }
    FirstOfTie(st, gen, first, second);
    RunSnoc(st, f, limit, START, steps, poll);
    assert RowsAt([first, second], [0, 1]) == [first, second];
    steps := steps + [poll];
    assert st.codec.parse(st.codec.show(first.id.value)) == first.id;
  }

  lemma InsertTwo(st: Store, f: Filter, limit: nat, first: StoredRow, second: StoredRow) returns (steps: seq<Step>)
    requires Plausible(first) && Plausible(second)
    ensures CanRun(st, f, limit, START, steps)
    ensures After(st, f, limit, START, steps) == State([first, second], "", [])
  {
    RunSnoc(st, f, limit, START, [], Insert(first));
    RunSnoc(st, f, limit, START, [] + [Insert(first)], Insert(second));
    steps := [] + [Insert(first)] + [Insert(second)];
  }

  lemma FirstOfTie(st: Store, gen: Generator, first: StoredRow, second: StoredRow)
    requires ValidStore(st) && |gen.node| == 6 && Plausible(first) && Plausible(second)
    requires first.id.Some? && second.id.Some? && Ticks(first.id.value) == Ticks(second.id.value)
    ensures Hash(st.codec, gen, ScanAll(st.codec, [first, second])).hash == st.codec.show(first.id.value)
  {
    var records := ScanAll(st.codec, [first, second]);
    var ts := Times(st.codec, records);
    assert IdOf(st.codec, records[0]) == first.id && IdOf(st.codec, records[1]) == second.id;
    InRangeBeats(first.id.value);
    InRangeBeats(second.id.value);
    assert ts[0] == ts[1] && ts[0].value > SENTINEL_NANO;
    BestIsFirstGreatest(ts);
    assert Best(ts) == Some(0);
  }

  // ---------------------------------------------------------------- every row, when the limit is not hit

  // The step stays below the limit and inserts only rows later than the cursor.
  predicate Orderly(st: Store, f: Filter, limit: nat, s: State, step: Step) {
    match step
    case Insert(row) =>
      s.cursor != "" && Selected(f, row) && row.id.Some? && CursorId(st, s).Some? ==>
        st.later(row.id.value, CursorId(st, s).value)
    case Poll(picks, _) => |picks| < limit
    case PollFails => true
  }

  predicate OrderlyRun(st: Store, f: Filter, limit: nat, s: State, steps: seq<Step>)
    requires CanRun(st, f, limit, s, steps)
    decreases |steps|
  {
    steps == []
    || (Orderly(st, f, limit, s, steps[0])
        && OrderlyRun(st, f, limit, Apply(st, f, limit, s, steps[0]), steps[1..]))
  }

  // A selected row with an id has been delivered or the next poll wants it.
  predicate NothingMissed(st: Store, f: Filter, s: State) {
    s.cursor != "" ==> forall i :: 0 <= i < |s.table| && Selected(f, s.table[i]) && s.table[i].id.Some? ==>
      s.table[i] in s.delivered || Wanted(st, f, s.cursor, s.table[i])
  }

  predicate AllDelivered(f: Filter, s: State) {
    forall i :: 0 <= i < |s.table| && Selected(f, s.table[i]) && s.table[i].id.Some? ==> s.table[i] in s.delivered
  }

  lemma OrderlyStep(st: Store, f: Filter, limit: nat, s: State, step: Step)
    requires ValidStore(st) && Sound(st, f, s) && NothingMissed(st, f, s)
    requires Enabled(st, f, limit, s, step) && Orderly(st, f, limit, s, step)
    ensures NothingMissed(st, f, Apply(st, f, limit, s, step))
    ensures step.Poll? ==> AllDelivered(f, Apply(st, f, limit, s, step))
  {
    match step
    case Insert(row) => OrderlyInsert(st, f, limit, s, row);
    case Poll(picks, gen) =>
      forall i | 0 <= i < |s.table| && Selected(f, s.table[i]) && s.table[i].id.Some?
        ensures s.table[i] in Apply(st, f, limit, s, step).delivered
      {
        OrderlyPoll(st, f, limit, s, picks, gen, i);
      }
    case PollFails => assert Apply(st, f, limit, s, step) == s;
  }

  lemma OrderlyInsert(st: Store, f: Filter, limit: nat, s: State, row: StoredRow)
    requires CursorOnTop(st, s) && NothingMissed(st, f, s)
    requires Enabled(st, f, limit, s, Insert(row)) && Orderly(st, f, limit, s, Insert(row))
    ensures NothingMissed(st, f, Apply(st, f, limit, s, Insert(row)))
  {
  }

  lemma OrderlyPoll(st: Store, f: Filter, limit: nat, s: State, picks: seq<nat>, gen: Generator, i: nat)
    requires CursorOnTop(st, s) && NothingMissed(st, f, s)
    requires Enabled(st, f, limit, s, Poll(picks, gen)) && |picks| < limit
    requires i < |s.table| && Selected(f, s.table[i]) && s.table[i].id.Some?
    ensures s.table[i] in Apply(st, f, limit, s, Poll(picks, gen)).delivered
  {
    if s.table[i] !in s.delivered {
      assert Wanted(st, f, s.cursor, s.table[i]) && i in picks;
      var p :| 0 <= p < |picks| && picks[p] == i;
      assert Apply(st, f, limit, s, Poll(picks, gen)).delivered[|s.delivered| + p] == RowsAt(s.table, picks)[p];
    }
  }

  /**
   If no poll hits the limit and new ids come after the cursor, then after every
   poll each selected row with an id has been delivered, and between polls each has
   been delivered or is about to be. With distinct times that is exactly once.
   */
  lemma {:induction false} EveryRowDelivered(st: Store, f: Filter, limit: nat, s: State, steps: seq<Step>)
    requires ValidStore(st) && Sound(st, f, s) && NothingMissed(st, f, s) && CanRun(st, f, limit, s, steps)
    requires OrderlyRun(st, f, limit, s, steps)
    ensures NothingMissed(st, f, After(st, f, limit, s, steps))
    ensures steps != [] && steps[|steps| - 1].Poll? ==> AllDelivered(f, After(st, f, limit, s, steps))
    decreases |steps|
  {
    if steps != [] {
      OrderlyStep(st, f, limit, s, steps[0]);
      if steps[0].Poll? { SoundPoll(st, f, limit, s, steps[0].picks, steps[0].gen); }
      EveryRowDelivered(st, f, limit, Apply(st, f, limit, s, steps[0]), steps[1..]);
    }
  }

  lemma ExactlyOnceFromStart(st: Store, f: Filter, limit: nat, steps: seq<Step>)
    requires ValidStore(st) && CanRun(st, f, limit, START, steps) && OrderlyRun(st, f, limit, START, steps)
    requires steps != [] && steps[|steps| - 1].Poll?
    requires DistinctTimes(f, After(st, f, limit, START, steps).table)
    ensures AllDelivered(f, After(st, f, limit, START, steps)) && NoRepeat(After(st, f, limit, START, steps).delivered)
  {
    EveryRowDelivered(st, f, limit, START, steps);
    NeverTwice(st, f, limit, steps);
  }
}
