/**
 The Postgres multi-row insert: records become a column list, numbered
 placeholders and one flat list of variables. Placeholder `n` stands for the n-th
 variable, counting from 1, as the database reads `$n`.
 */
module InsertCompiler {
  import opened Records

  datatype Value = Text(text: string) | Number(number: int) | Bytes(bytes: seq<Byte>) | Nil

  // The ORM's notion of a blank field.
  predicate Blank(v: Value) { v == Text("") || v == Number(0) || v == Bytes([]) || v == Nil }

  /** What the ORM knows of a struct field; it is the same for every record of one type. */
  datatype Column = Column(name: string, primaryKey: bool, ignored: bool)

  type Schema = seq<Column>

  // A record as its field values, in declaration order.
  type Fields = seq<Value>

  predicate Skipped(col: Column, v: Value) { (col.primaryKey && Blank(v)) || col.ignored }

  predicate Fits(schema: Schema, records: seq<Fields>) {
    forall i :: 0 <= i < |records| ==> |records[i]| == |schema|
  }

  predicate DistinctNames(schema: Schema) {
    forall i, j :: 0 <= i < j < |schema| ==> schema[i].name != schema[j].name
  }

  /** The statement, before its parts are joined into text. */
  datatype Statement = Statement(columns: seq<string>, rows: seq<seq<nat>>, vars: seq<Value>)

  datatype Compiled = NoEvents | Sql(statement: Statement)

  // ---------------------------------------------------------------- specification

  // The positions among the first `n` that are not skipped, in order.
  function Kept(schema: Schema, fields: Fields, n: nat): (r: seq<nat>)
    requires n <= |schema| == |fields|
    ensures forall k :: 0 <= k < |r| ==> r[k] < n && !Skipped(schema[r[k]], fields[r[k]])
    ensures forall i :: 0 <= i < n && !Skipped(schema[i], fields[i]) ==> i in r
  {
    if n == 0 then []
    else Kept(schema, fields, n - 1) + if Skipped(schema[n - 1], fields[n - 1]) then [] else [n - 1]
  }

  function Names(schema: Schema, kept: seq<nat>): (r: seq<string>)
    requires forall k :: 0 <= k < |kept| ==> kept[k] < |schema|
    ensures |r| == |kept| && forall k :: 0 <= k < |r| ==> r[k] == schema[kept[k]].name
  {
    seq(|kept|, k requires 0 <= k < |kept| => schema[kept[k]].name)
  }

  function ValuesAt(fields: Fields, kept: seq<nat>): (r: seq<Value>)
    requires forall k :: 0 <= k < |kept| ==> kept[k] < |fields|
    ensures |r| == |kept| && forall k :: 0 <= k < |r| ==> r[k] == fields[kept[k]]
  {
    seq(|kept|, k requires 0 <= k < |kept| => fields[kept[k]])
  }

  function KeptOf(schema: Schema, fields: Fields): seq<nat>
    requires |schema| == |fields|
  {
    Kept(schema, fields, |schema|)
  }

  function KeptValues(schema: Schema, fields: Fields): seq<Value>
    requires |schema| == |fields|
  {
    ValuesAt(fields, KeptOf(schema, fields))
  }

  // All variables of the records, in order.
  function Vars(schema: Schema, records: seq<Fields>): seq<Value>
    requires Fits(schema, records)
  {
    if records == [] then []
    else Vars(schema, records[..|records| - 1]) + KeptValues(schema, records[|records| - 1])
  }

  // Numbers from + 1 up to from + count.
  function Numbers(from: nat, count: nat): (r: seq<nat>)
    ensures |r| == count && forall j :: 0 <= j < count ==> r[j] == from + j + 1
  {
    seq(count, j requires 0 <= j < count => from + j + 1)
  }

  function Rows(schema: Schema, records: seq<Fields>): (r: seq<seq<nat>>)
    requires Fits(schema, records)
    ensures |r| == |records|
  {
    if records == [] then []
    else
      var front, last := records[..|records| - 1], records[|records| - 1];
      Rows(schema, front) + [Numbers(|Vars(schema, front)|, |KeptOf(schema, last)|)]
  }

  function Compile(schema: Schema, records: seq<Fields>): Statement
    requires Fits(schema, records) && records != []
  {
    Statement(Names(schema, KeptOf(schema, records[0])), Rows(schema, records), Vars(schema, records))
  }

  // ---------------------------------------------------------------- the code

  // scope.AddToVars: the value joins the variables and its number is the placeholder.
  method AddToVars(vars: seq<Value>, v: Value) returns (vars': seq<Value>, placeholder: nat)
    ensures vars' == vars + [v] && placeholder == |vars'|
  {
    vars' := vars + [v];
    placeholder := |vars'|;
  }

  // The column list, from the first record.
  method QuotedColumns(schema: Schema, mainFields: Fields) returns (quoted: seq<string>)
    requires |schema| == |mainFields|
    ensures quoted == Names(schema, KeptOf(schema, mainFields))
  {
    quoted := [];
    for i := 0 to |mainFields|
      invariant quoted == Names(schema, Kept(schema, mainFields, i))
    {
      if (schema[i].primaryKey && Blank(mainFields[i])) || schema[i].ignored { continue; }
      quoted := quoted + [schema[i].name];
    }
  }

  // The variables after the first `n` fields.
  function Emitted(schema: Schema, fields: Fields, vars: seq<Value>, n: nat): seq<Value>
    requires n <= |schema| == |fields|
  {
    vars + ValuesAt(fields, Kept(schema, fields, n))
  }

  lemma EmitOne(schema: Schema, fields: Fields, vars: seq<Value>, n: nat)
    requires n < |schema| == |fields|
    ensures Emitted(schema, fields, vars, n + 1)
         == Emitted(schema, fields, vars, n) + if Skipped(schema[n], fields[n]) then [] else [fields[n]]
  {
    var kept := Kept(schema, fields, n);
    if Skipped(schema[n], fields[n]) {
      assert Kept(schema, fields, n + 1) == kept;
    } else {
      assert Kept(schema, fields, n + 1) == kept + [n];
      assert ValuesAt(fields, kept + [n]) == ValuesAt(fields, kept) + [fields[n]];
    }
  }

  lemma NumbersSnoc(from: nat, count: nat)
    ensures Numbers(from, count + 1) == Numbers(from, count) + [from + count + 1]
  {
  }

  // One record's placeholders; its values join the variables.
  method Placeholders(schema: Schema, fields: Fields, vars: seq<Value>)
    returns (placeholders: seq<nat>, sqlVars: seq<Value>)
    requires |schema| == |fields|
    ensures sqlVars == Emitted(schema, fields, vars, |fields|)
    ensures placeholders == Numbers(|vars|, |sqlVars| - |vars|)
  {
    placeholders, sqlVars := [], vars;
    assert Emitted(schema, fields, vars, 0) == vars;
    for i := 0 to |fields|
      invariant sqlVars == Emitted(schema, fields, vars, i)
      invariant placeholders == Numbers(|vars|, |sqlVars| - |vars|)
    {
      EmitOne(schema, fields, vars, i);
      if (schema[i].primaryKey && Blank(fields[i])) || schema[i].ignored { continue; }
      NumbersSnoc(|vars|, |sqlVars| - |vars|);
      var placeholder;
      sqlVars, placeholder := AddToVars(sqlVars, fields[i]);
      placeholders := placeholders + [placeholder];
    }
  }

  /** insert, up to the call of Exec. */
  method Insert(schema: Schema, records: seq<Fields>) returns (r: Compiled)
    requires Fits(schema, records)
    ensures r == if records == [] then NoEvents else Sql(Compile(schema, records))
  {
    if |records| == 0 { return NoEvents; }
    var quoted := QuotedColumns(schema, records[0]);
    var placeholdersArr: seq<seq<nat>> := [];
    var sqlVars: seq<Value> := [];
    for n := 0 to |records|
      invariant placeholdersArr == Rows(schema, records[..n])
      invariant sqlVars == Vars(schema, records[..n])
    {
      var placeholders;
      placeholders, sqlVars := Placeholders(schema, records[n], sqlVars);
      placeholdersArr := placeholdersArr + [placeholders];
      assert records[..n + 1][..n] == records[..n];
    }
    assert records[..|records|] == records;
    r := Sql(Statement(quoted, placeholdersArr, sqlVars));
  }

  // ---------------------------------------------------------------- what the database makes of it

  // A row as it is stored: the columns named get the values, in parallel.
  function Assigned(columns: seq<string>, values: seq<Value>): map<string, Value>
    requires |columns| == |values|
  {
    if columns == [] then map[]
    else Assigned(columns[..|columns| - 1], values[..|values| - 1])[columns[|columns| - 1] := values[|values| - 1]]
  }

  // What a record means: its kept fields under their names.
  function Meaning(schema: Schema, fields: Fields): map<string, Value>
    requires |schema| == |fields|
  {
    Assigned(Names(schema, KeptOf(schema, fields)), KeptValues(schema, fields))
  }

  predicate NumbersBound(stmt: Statement) {
    forall i, j :: 0 <= i < |stmt.rows| && 0 <= j < |stmt.rows[i]| ==> 1 <= stmt.rows[i][j] <= |stmt.vars|
  }

  function Substituted(stmt: Statement, i: nat): (r: seq<Value>)
    requires NumbersBound(stmt) && i < |stmt.rows|
    ensures |r| == |stmt.rows[i]| && forall j :: 0 <= j < |r| ==> r[j] == stmt.vars[stmt.rows[i][j] - 1]
  {
    seq(|stmt.rows[i]|, j requires 0 <= j < |stmt.rows[i]| => stmt.vars[stmt.rows[i][j] - 1])
  }

  // One tuple of VALUES; it must be as long as the column list.
  function EvalRow(stmt: Statement, i: nat): Option<map<string, Value>>
    requires NumbersBound(stmt) && i < |stmt.rows|
  {
    if |stmt.rows[i]| != |stmt.columns| then None else Some(Assigned(stmt.columns, Substituted(stmt, i)))
  }

  predicate Accepted(stmt: Statement) {
    forall i :: 0 <= i < |stmt.rows| ==> |stmt.rows[i]| == |stmt.columns|
  }

  // ---------------------------------------------------------------- numbering

  // How many variables come before those of record `i`.
  function Offset(schema: Schema, records: seq<Fields>, i: nat): nat
    requires Fits(schema, records) && i <= |records|
  {
    if i == 0 then 0 else Offset(schema, records, i - 1) + |KeptOf(schema, records[i - 1])|
  }

  lemma {:induction false} OffsetOfFront(schema: Schema, records: seq<Fields>, n: nat, i: nat)
    requires Fits(schema, records) && i <= n <= |records|
    ensures Offset(schema, records[..n], i) == Offset(schema, records, i)
  {
    if i > 0 { OffsetOfFront(schema, records, n, i - 1); }
  }

  lemma {:induction false} VarsLength(schema: Schema, records: seq<Fields>)
    requires Fits(schema, records)
    ensures |Vars(schema, records)| == Offset(schema, records, |records|)
  {
    if records != [] {
      var n := |records| - 1;
      VarsLength(schema, records[..n]);
      OffsetOfFront(schema, records, n, n);
    }
  }

  lemma {:induction false} RowIs(schema: Schema, records: seq<Fields>, i: nat)
    requires Fits(schema, records) && i < |records|
    ensures Rows(schema, records)[i] == Numbers(Offset(schema, records, i), |KeptOf(schema, records[i])|)
  {
    var n := |records| - 1;
    OffsetOfFront(schema, records, n, i);
    if i == n {
      VarsLength(schema, records[..n]);
    } else {
      RowIs(schema, records[..n], i);
    }
  }

  lemma {:induction false} VarsHold(schema: Schema, records: seq<Fields>, i: nat)
    requires Fits(schema, records) && i < |records|
    ensures Offset(schema, records, i) + |KeptValues(schema, records[i])| <= |Vars(schema, records)|
    ensures var at, kept := Offset(schema, records, i), KeptValues(schema, records[i]);
            Vars(schema, records)[at..at + |kept|] == kept
  {
    var n := |records| - 1;
    var front := Vars(schema, records[..n]);
    OffsetOfFront(schema, records, n, i);
    if i == n {
      VarsLength(schema, records[..n]);
      Suffix(front, KeptValues(schema, records[n]));
    } else {
      VarsHold(schema, records[..n], i);
      Prefix(front, KeptValues(schema, records[n]), Offset(schema, records, i),
             Offset(schema, records, i) + |KeptValues(schema, records[i])|);
    }
  }

  lemma SliceAt(vars: seq<Value>, from: nat, values: seq<Value>, j: nat)
    requires from + |values| <= |vars| && vars[from..from + |values|] == values && j < |values|
    ensures vars[from + j] == values[j]
  {
    assert vars[from..from + |values|][j] == vars[from + j];
  }

  lemma Suffix(a: seq<Value>, b: seq<Value>)
    ensures (a + b)[|a|..|a| + |b|] == b
  {
  }

  lemma Prefix(a: seq<Value>, b: seq<Value>, from: nat, to: nat)
    requires from <= to <= |a|
    ensures (a + b)[from..to] == a[from..to]
  {
  }

  /** Placeholder j of row i has number Offset(i) + j + 1, and that variable is kept field j of record i. */
  lemma Numbering(schema: Schema, records: seq<Fields>, i: nat, j: nat)
    requires Fits(schema, records) && i < |records| && j < |KeptOf(schema, records[i])|
    ensures |Rows(schema, records)[i]| == |KeptOf(schema, records[i])|
    ensures Rows(schema, records)[i][j] == Offset(schema, records, i) + j + 1 <= |Vars(schema, records)|
    ensures Vars(schema, records)[Offset(schema, records, i) + j] == records[i][KeptOf(schema, records[i])[j]]
  {
    RowIs(schema, records, i);
    VarsHold(schema, records, i);
    SliceAt(Vars(schema, records), Offset(schema, records, i), KeptValues(schema, records[i]), j);
  }

  lemma RowLength(schema: Schema, records: seq<Fields>, i: nat)
    requires Fits(schema, records) && i < |records|
    ensures |Rows(schema, records)[i]| == |KeptOf(schema, records[i])|
  {
    RowIs(schema, records, i);
  }

  lemma CompiledIsBound(schema: Schema, records: seq<Fields>)
    requires Fits(schema, records) && records != []
    ensures NumbersBound(Compile(schema, records))
  {
    var stmt := Compile(schema, records);
    forall i, j | 0 <= i < |stmt.rows| && 0 <= j < |stmt.rows[i]| ensures 1 <= stmt.rows[i][j] <= |stmt.vars| {
      RowLength(schema, records, i);
      Numbering(schema, records, i, j);
    }
  }

  /** When all records keep as many fields, placeholder (i, j) has number i * k + j + 1. */
  lemma {:induction false} EvenOffsets(schema: Schema, records: seq<Fields>, i: nat, k: nat)
    requires Fits(schema, records) && i <= |records|
    requires forall m :: 0 <= m < |records| ==> |KeptOf(schema, records[m])| == k
    ensures Offset(schema, records, i) == i * k
  {
    if i > 0 {
      EvenOffsets(schema, records, i - 1, k);
      assert (i - 1) * k + k == i * k;
    }
  }

  // ---------------------------------------------------------------- meaning is preserved

  // Records that skip the same fields as the first one.
  predicate Agrees(schema: Schema, records: seq<Fields>, i: nat)
    requires Fits(schema, records) && i < |records|
  {
    KeptOf(schema, records[i]) == KeptOf(schema, records[0])
  }

  lemma SubstitutedSlice(stmt: Statement, i: nat, from: nat, count: nat)
    requires NumbersBound(stmt) && i < |stmt.rows| && stmt.rows[i] == Numbers(from, count)
    requires from + count <= |stmt.vars|
    ensures Substituted(stmt, i) == stmt.vars[from..from + count]
  {
  }

  lemma SubstitutedIsKept(schema: Schema, records: seq<Fields>, i: nat)
    requires Fits(schema, records) && i < |records|
    ensures NumbersBound(Compile(schema, records))
    ensures Substituted(Compile(schema, records), i) == KeptValues(schema, records[i])
  {
    CompiledIsBound(schema, records);
    RowIs(schema, records, i);
    VarsHold(schema, records, i);
    SubstitutedSlice(Compile(schema, records), i, Offset(schema, records, i), |KeptOf(schema, records[i])|);
  }

  lemma {:induction false} AssignedKeys(columns: seq<string>, values: seq<Value>)
    requires |columns| == |values|
    ensures forall name :: name in Assigned(columns, values) <==> name in columns
  {
    if columns != [] {
      var n := |columns| - 1;
      AssignedKeys(columns[..n], values[..n]);
      assert columns == columns[..n] + [columns[n]];
    }
  }

  // Two records whose kept names agree keep the same positions.
  lemma {:induction false} SameKept(schema: Schema, a: Fields, b: Fields, n: nat)
    requires n <= |schema| == |a| == |b|
    requires forall i :: 0 <= i < n ==> (Skipped(schema[i], a[i]) <==> Skipped(schema[i], b[i]))
    ensures Kept(schema, a, n) == Kept(schema, b, n)
  {
    if n > 0 { SameKept(schema, a, b, n - 1); }
  }

  lemma NamesDetermineKept(schema: Schema, a: Fields, b: Fields)
    requires |schema| == |a| == |b| && DistinctNames(schema)
    requires forall name :: name in Names(schema, KeptOf(schema, a)) <==> name in Names(schema, KeptOf(schema, b))
    ensures KeptOf(schema, a) == KeptOf(schema, b)
  {
    forall i | 0 <= i < |schema| ensures Skipped(schema[i], a[i]) <==> Skipped(schema[i], b[i]) {
      KeptByName(schema, a, i);
      KeptByName(schema, b, i);
    }
    SameKept(schema, a, b, |schema|);
  }

  lemma KeptByName(schema: Schema, a: Fields, i: nat)
    requires i < |schema| == |a| && DistinctNames(schema)
    ensures schema[i].name in Names(schema, KeptOf(schema, a)) <==> !Skipped(schema[i], a[i])
  {
    var kept := KeptOf(schema, a);
    if !Skipped(schema[i], a[i]) {
      var k :| 0 <= k < |kept| && kept[k] == i;
      assert Names(schema, kept)[k] == schema[i].name;
    }
  }

  /**
   Row i of the statement evaluates to record i exactly when that record skips the
   same fields as the first one, from which the column list was made.
   */
  lemma RowFaithfulIff(schema: Schema, records: seq<Fields>, i: nat)
    requires Fits(schema, records) && i < |records| && DistinctNames(schema)
    ensures NumbersBound(Compile(schema, records))
    ensures EvalRow(Compile(schema, records), i) == Some(Meaning(schema, records[i])) <==> Agrees(schema, records, i)
  {
    var stmt := Compile(schema, records);
    SubstitutedIsKept(schema, records, i);
    RowLength(schema, records, i);
    if EvalRow(stmt, i) == Some(Meaning(schema, records[i])) {
      AssignedKeys(stmt.columns, Substituted(stmt, i));
      AssignedKeys(Names(schema, KeptOf(schema, records[i])), KeptValues(schema, records[i]));
      NamesDetermineKept(schema, records[i], records[0]);
    }
  }

  /** The statement yields exactly the records, in order, if and only if all of them skip the same fields. */
  lemma StatementFaithfulIff(schema: Schema, records: seq<Fields>)
    requires Fits(schema, records) && records != [] && DistinctNames(schema)
    ensures NumbersBound(Compile(schema, records))
    ensures (forall i :: 0 <= i < |records| ==>
               EvalRow(Compile(schema, records), i) == Some(Meaning(schema, records[i])))
            <==> forall i :: 0 <= i < |records| ==> Agrees(schema, records, i)
  {
    CompiledIsBound(schema, records);
    forall i | 0 <= i < |records|
      ensures EvalRow(Compile(schema, records), i) == Some(Meaning(schema, records[i])) <==> Agrees(schema, records, i)
    {
      RowFaithfulIff(schema, records, i);
    }
  }

  /** The database rejects it exactly when some record keeps another number of fields than the first. */
  lemma AcceptedIff(schema: Schema, records: seq<Fields>)
    requires Fits(schema, records) && records != []
    ensures Accepted(Compile(schema, records)) <==>
            forall i :: 0 <= i < |records| ==> |KeptOf(schema, records[i])| == |KeptOf(schema, records[0])|
  {
    forall i | 0 <= i < |records| ensures |Rows(schema, records)[i]| == |KeptOf(schema, records[i])| {
      RowLength(schema, records, i);
    }
  }

  /** A type without a primary key, as the event record is, always agrees. */
  lemma NoPrimaryKeyAlwaysAgrees(schema: Schema, records: seq<Fields>, i: nat)
    requires Fits(schema, records) && i < |records|
    requires forall c :: 0 <= c < |schema| ==> !schema[c].primaryKey
    ensures Agrees(schema, records, i)
  {
    SameKept(schema, records[i], records[0], |schema|);
  }

  // The empty string, zero, no bytes, and nil.
  const BLANKS := [Text(""), Number(0), Bytes([]), Nil]

  // Every field is stored but the ignored ones and a blank primary key.
  predicate Stored(col: Column, v: Value) { !col.ignored && !(col.primaryKey && v in BLANKS) }

  lemma StoredIff(col: Column, v: Value)
    ensures Stored(col, v) <==> !Skipped(col, v)
  {
  }

  /** What a record means, field by field: a stored field is found under its name, and no other is mentioned. */
  lemma MeaningByField(schema: Schema, fields: Fields, i: nat)
    requires i < |schema| == |fields| && DistinctNames(schema)
    ensures schema[i].name in Meaning(schema, fields) <==> Stored(schema[i], fields[i])
    ensures schema[i].name in Meaning(schema, fields) ==> Meaning(schema, fields)[schema[i].name] == fields[i]
  {
    var kept := KeptOf(schema, fields);
    StoredIff(schema[i], fields[i]);
    KeptByName(schema, fields, i);
    AssignedKeys(Names(schema, kept), KeptValues(schema, fields));
    if !Skipped(schema[i], fields[i]) {
      var k :| 0 <= k < |kept| && kept[k] == i;
      KeptOnce(schema, fields, |schema|);
      AssignedAt(Names(schema, kept), KeptValues(schema, fields), k);
    }
  }

  /** The columns are those stored of the first record, in order. */
  lemma ColumnsAre(schema: Schema, records: seq<Fields>) returns (at: seq<nat>)
    requires Fits(schema, records) && records != []
    ensures forall i, j :: 0 <= i < j < |at| ==> at[i] < at[j]
    ensures forall i :: i in at <==> 0 <= i < |schema| && Stored(schema[i], records[0][i])
    ensures |Compile(schema, records).columns| == |at|
    ensures forall k :: 0 <= k < |at| ==> at[k] < |schema| && Compile(schema, records).columns[k] == schema[at[k]].name
  {
    KeptOnce(schema, records[0], |schema|);
    at := KeptOf(schema, records[0]);
    forall i | 0 <= i < |schema| ensures Stored(schema[i], records[0][i]) <==> !Skipped(schema[i], records[0][i]) {
      StoredIff(schema[i], records[0][i]);
    }
  }

  /** A record agrees with the first one exactly when the two have the same fields stored. */
  lemma AgreesIff(schema: Schema, records: seq<Fields>, i: nat)
    requires Fits(schema, records) && i < |records|
    ensures Agrees(schema, records, i) <==>
            forall j :: 0 <= j < |schema| ==> (Stored(schema[j], records[i][j]) <==> Stored(schema[j], records[0][j]))
  {
    forall j | 0 <= j < |schema|
      ensures j in KeptOf(schema, records[i]) <==> Stored(schema[j], records[i][j])
      ensures j in KeptOf(schema, records[0]) <==> Stored(schema[j], records[0][j])
      ensures Skipped(schema[j], records[i][j]) <==> !Stored(schema[j], records[i][j])
      ensures Skipped(schema[j], records[0][j]) <==> !Stored(schema[j], records[0][j])
    {
      StoredIff(schema[j], records[i][j]);
      StoredIff(schema[j], records[0][j]);
    }
    if forall j :: 0 <= j < |schema| ==> (Stored(schema[j], records[i][j]) <==> Stored(schema[j], records[0][j])) {
      SameKept(schema, records[i], records[0], |schema|);
    }
  }

  // No field of the type can be skipped.
  predicate Plain(schema: Schema) {
    forall j :: 0 <= j < |schema| ==> !schema[j].primaryKey && !schema[j].ignored
  }

  lemma {:induction false} PlainKeepsAll(schema: Schema, fields: Fields, n: nat)
    requires Plain(schema) && n <= |schema| == |fields|
    ensures |Kept(schema, fields, n)| == n && forall j :: 0 <= j < n ==> Kept(schema, fields, n)[j] == j
  {
    if n > 0 { PlainKeepsAll(schema, fields, n - 1); }
  }

  lemma PlainOffsets(schema: Schema, records: seq<Fields>, i: nat)
    requires Plain(schema) && Fits(schema, records) && i < |records|
    ensures Offset(schema, records, i) == i * |schema| && |KeptOf(schema, records[i])| == |schema|
  {
    forall m | 0 <= m < |records| ensures |KeptOf(schema, records[m])| == |schema| {
      PlainKeepsAll(schema, records[m], |schema|);
    }
    EvenOffsets(schema, records, i, |schema|);
  }

  /**
   Records of a type without primary key or ignored field, as the event record is: all
   columns are named in order, placeholder j of row i has number i * k + j + 1 for k
   columns, and that variable is field j of record i.
   */
  lemma PlainStatement(schema: Schema, records: seq<Fields>, i: nat, j: nat, at: nat)
    requires Plain(schema) && Fits(schema, records) && i < |records| && j < |schema| && at == i * |schema| + j
    ensures var stmt := Compile(schema, records);
            && |stmt.columns| == |schema| && stmt.columns[j] == schema[j].name
            && |stmt.rows| == |records| && |stmt.rows[i]| == |schema| && stmt.rows[i][j] == at + 1
            && at < |stmt.vars| && stmt.vars[at] == records[i][j]
  {
    PlainKeepsAll(schema, records[0], |schema|);
    PlainKeepsAll(schema, records[i], |schema|);
    PlainOffsets(schema, records, i);
    Numbering(schema, records, i, j);
  }

  /** The database then stores exactly the records' fields, each under its own name. */
  lemma PlainRowsAreRecords(schema: Schema, records: seq<Fields>, i: nat)
    requires Plain(schema) && Fits(schema, records) && i < |records| && DistinctNames(schema)
    ensures NumbersBound(Compile(schema, records)) && EvalRow(Compile(schema, records), i).Some?
    ensures var row := EvalRow(Compile(schema, records), i).value;
            && (forall name :: name in row ==> exists j :: 0 <= j < |schema| && schema[j].name == name)
            && (forall j :: 0 <= j < |schema| ==> schema[j].name in row && row[schema[j].name] == records[i][j])
  {
    NoPrimaryKeyAlwaysAgrees(schema, records, i);
    RowFaithfulIff(schema, records, i);
    var kept := KeptOf(schema, records[i]);
    AssignedKeys(Names(schema, kept), KeptValues(schema, records[i]));
    var row := Meaning(schema, records[i]);
    forall j | 0 <= j < |schema| ensures schema[j].name in row && row[schema[j].name] == records[i][j] {
      MeaningByField(schema, records[i], j);
    }
  }

  lemma {:induction false} KeptOnce(schema: Schema, fields: Fields, n: nat)
    requires n <= |schema| == |fields|
    ensures forall j, k :: 0 <= j < k < |Kept(schema, fields, n)| ==>
              Kept(schema, fields, n)[j] < Kept(schema, fields, n)[k]
  {
    if n > 0 { KeptOnce(schema, fields, n - 1); }
  }

  lemma {:induction false} AssignedAt(columns: seq<string>, values: seq<Value>, k: nat)
    requires k < |columns| == |values|
    requires forall i, j :: 0 <= i < j < |columns| ==> columns[i] != columns[j]
    ensures columns[k] in Assigned(columns, values) && Assigned(columns, values)[columns[k]] == values[k]
  {
    var n := |columns| - 1;
    if k < n { AssignedAt(columns[..n], values[..n], k); }
  }
}
