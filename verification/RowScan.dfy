/**
 The Cassandra scan loops. The destination variables are shared by all rows, and
 byte slices are references: the driver leaves a variable alone when the column is
 null, and may write into the buffer it is handed when that has the capacity.
 */
module RowScan {
  import opened Records

  /** A Go byte slice: the first `len` bytes of a shared buffer; the buffer's length is the capacity. */
  datatype Slice = Slice(buffer: array<Byte>, len: nat)

  predicate ValidSlice(s: Slice) { s.len <= s.buffer.Length }

  function Content(s: Slice): seq<Byte>
    requires ValidSlice(s)
    reads s.buffer
  {
    s.buffer[..s.len]
  }

  /** A row as the database holds it; any column may be null. */
  datatype Row = Row(
    device: Option<string>, eventType: Option<int>, birthDate: Option<int>, deathDate: Option<int>,
    data: Option<seq<Byte>>, nonce: Option<seq<Byte>>, alg: Option<string>, kid: Option<string>, rowID: Option<string>)

  datatype ScannedRecord = ScannedRecord(
    deviceID: string, eventType: int, birthDate: int, deathDate: int,
    data: Slice, nonce: Slice, alg: string, kid: string, rowID: string)

  function Or<T>(cell: Option<T>, otherwise: T): T { if cell.Some? then cell.value else otherwise }

  // The value is the cell's, or the zero value for a null.
  predicate Reads<T(==)>(value: T, cell: Option<T>, zero: T) {
    match cell
    case Some(v) => value == v
    case None => value == zero
  }

  // The record is the row, with nulls as zero values.
  predicate Holds(r: ScannedRecord, row: Row)
    reads r.data.buffer, r.nonce.buffer
  {
    && Reads(r.deviceID, row.device, "") && Reads(r.eventType, row.eventType, 0)
    && Reads(r.birthDate, row.birthDate, 0) && Reads(r.deathDate, row.deathDate, 0)
    && ValidSlice(r.data) && Reads(Content(r.data), row.data, [])
    && ValidSlice(r.nonce) && Reads(Content(r.nonce), row.nonce, [])
    && Reads(r.alg, row.alg, "") && Reads(r.kid, row.kid, "") && Reads(r.rowID, row.rowID, "")
  }

  // No two of the records' slices share a buffer.
  predicate Separate(records: seq<ScannedRecord>) {
    && (forall i :: 0 <= i < |records| ==> records[i].data.buffer != records[i].nonce.buffer)
    && (forall i, j :: 0 <= i < j < |records| ==>
          && records[i].data.buffer != records[j].data.buffer && records[i].data.buffer != records[j].nonce.buffer
          && records[i].nonce.buffer != records[j].data.buffer && records[i].nonce.buffer != records[j].nonce.buffer)
  }

  /** The driver's part for a byte column. Whether it reuses a buffer that is large enough is its own choice. */
  method ScanBytes(cell: Option<seq<Byte>>, dst: Slice) returns (s: Slice)
    requires ValidSlice(dst)
    modifies dst.buffer
    ensures ValidSlice(s) && (s.buffer == dst.buffer || fresh(s.buffer))
    ensures cell.None? ==> s == dst && Content(s) == old(Content(dst))
    ensures cell.Some? ==> Content(s) == cell.value
  {
    if cell.None? { return dst; }
    var bytes := cell.value;
    var reuse: bool := *;
    if reuse && |bytes| <= dst.buffer.Length {
      forall i | 0 <= i < |bytes| { dst.buffer[i] := bytes[i]; }
      s := Slice(dst.buffer, |bytes|);
    } else {
      var spare: int :| 0 <= spare;
      var buffer := new Byte[|bytes| + spare];
      forall i | 0 <= i < |bytes| { buffer[i] := bytes[i]; }
      s := Slice(buffer, |bytes|);
    }
  }

  method EmptySlice() returns (s: Slice)
    ensures fresh(s.buffer) && s.buffer.Length == 0 && s.len == 0
  {
    var buffer := new Byte[0];
    s := Slice(buffer, 0);
  }

  predicate IsZero(v: ScannedRecord) {
    && v.deviceID == v.alg == v.kid == v.rowID == "" && v.eventType == v.birthDate == v.deathDate == 0
    && v.data.len == 0 && v.data.buffer.Length == 0 && v.nonce.len == 0 && v.nonce.buffer.Length == 0
  }

  /** iter.Scan: nulls leave their destination alone. */
  method Scan(row: Row, vars: ScannedRecord) returns (v: ScannedRecord)
    requires ValidSlice(vars.data) && ValidSlice(vars.nonce) && vars.data.buffer != vars.nonce.buffer
    modifies vars.data.buffer, vars.nonce.buffer
    ensures v.data.buffer == vars.data.buffer || fresh(v.data.buffer)
    ensures v.nonce.buffer == vars.nonce.buffer || fresh(v.nonce.buffer)
    ensures v.data.buffer != v.nonce.buffer
    ensures IsZero(vars) ==> Holds(v, row)
    ensures Reads(v.deviceID, row.device, vars.deviceID) && Reads(v.alg, row.alg, vars.alg)
    ensures row.data.None? ==> v.data == vars.data && ValidSlice(v.data) && Content(v.data) == old(Content(vars.data))
  {
    var data := ScanBytes(row.data, vars.data);
    var nonce := ScanBytes(row.nonce, vars.nonce);
    v := ScannedRecord(
      Or(row.device, vars.deviceID), Or(row.eventType, vars.eventType),
      Or(row.birthDate, vars.birthDate), Or(row.deathDate, vars.deathDate), data, nonce,
      Or(row.alg, vars.alg), Or(row.kid, vars.kid), Or(row.rowID, vars.rowID));
  }

  method ZeroVars() returns (v: ScannedRecord)
    ensures IsZero(v) && fresh(v.data.buffer) && fresh(v.nonce.buffer) && v.data.buffer != v.nonce.buffer
  {
    var data := EmptySlice();
    var nonce := EmptySlice();
    v := ScannedRecord("", 0, 0, 0, data, nonce, "", "", "");
  }

  // No earlier record refers to the buffers of the variables.
  predicate Apart(v: ScannedRecord, records: seq<ScannedRecord>) {
    forall i :: 0 <= i < |records| ==>
      && v.data.buffer != records[i].data.buffer && v.data.buffer != records[i].nonce.buffer
      && v.nonce.buffer != records[i].data.buffer && v.nonce.buffer != records[i].nonce.buffer
  }

  /**
   findRecords, the loop. Every record is its own row, whatever the driver does with
   the buffers and whichever columns are null, and no record shares a buffer with another.
   */
  method FindRecords(rows: seq<Row>) returns (records: seq<ScannedRecord>)
    ensures |records| == |rows| && forall i :: 0 <= i < |rows| ==> Holds(records[i], rows[i])
    ensures Separate(records)
    ensures forall i :: 0 <= i < |records| ==> fresh(records[i].data.buffer) && fresh(records[i].nonce.buffer)
  {
    records := [];
    var vars := ZeroVars();
    for n := 0 to |rows|
      invariant |records| == n && IsZero(vars)
      invariant fresh(vars.data.buffer) && fresh(vars.nonce.buffer) && vars.data.buffer != vars.nonce.buffer
      invariant forall i :: 0 <= i < n ==> fresh(records[i].data.buffer) && fresh(records[i].nonce.buffer)
      invariant Apart(vars, records) && Separate(records)
      invariant forall i :: 0 <= i < n ==> Holds(records[i], rows[i])
    {
      vars := Scan(rows[n], vars);
      records := records + [vars];
      vars := ZeroVars();
    }
  }

  datatype BlacklistRow = BlacklistRow(device: Option<string>, reason: Option<string>)

  /** findBlacklist, the loop: a null reason reads as empty, not as the previous row's. */
  method FindBlacklist(rows: seq<BlacklistRow>) returns (items: seq<(string, string)>)
    ensures |items| == |rows|
    ensures forall i :: 0 <= i < |rows| ==>
              Reads(items[i].0, rows[i].device, "") && Reads(items[i].1, rows[i].reason, "")
  {
    items := [];
    var device, reason := "", "";
    for n := 0 to |rows|
      invariant |items| == n && device == reason == ""
      invariant forall i :: 0 <= i < n ==>
                  Reads(items[i].0, rows[i].device, "") && Reads(items[i].1, rows[i].reason, "")
    {
      device, reason := Or(rows[n].device, device), Or(rows[n].reason, reason);
      items := items + [(device, reason)];
      device, reason := "", "";
    }
  }
}
