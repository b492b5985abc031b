/** What an insert of the API says: which value goes under which column, row by row, and what an upsert assigns. */
module SqlInsertIntent {
  import opened Wrappers
  import opened SqlAst
  import opened SqlIntent
  import opened SqlInsertText

  predicate AssignMeans(m: Model, a: Assignable, r: RAssign) {
    match a
    case Assignment(col, v) => r.SetValue? && col in m.fieldMap && r.col == m.fieldMap[col] && r.val == v
    case AssignColumn(name) => r.SetColumn? && name in m.fieldMap && r.col == m.fieldMap[name]
    case OtherAssignable => false
  }

  predicate AssignsMean(m: Model, assigns: seq<Assignable>, rs: seq<RAssign>) {
    |rs| == |assigns| && forall i :: 0 <= i < |assigns| ==> AssignMeans(m, assigns[i], rs[i])
  }

  /** Conflict columns are written by SQLite only. */
  predicate UpsertMeans(m: Model, d: Dialect, u: Upsert, r: RUpsert) {
    r.dialect == d && AssignsMean(m, u.assigns, r.assigns)
    && if d.MySQL? then r.conflict == [] else NamesMean(m, u.conflictColumns, r.conflict)
  }

  /** Each field's value, in the order of the fields. */
  predicate RowMeans(fields: seq<string>, row: Row, vals: seq<Value>) {
    |vals| == |fields| && forall k :: 0 <= k < |fields| ==> fields[k] in row && vals[k] == row[fields[k]]
  }

  predicate RowsMean(fields: seq<string>, rows: seq<Row>, vals: seq<seq<Value>>) {
    |vals| == |rows| && forall j :: 0 <= j < |rows| ==> RowMeans(fields, rows[j], vals[j])
  }

  /** Under each field's column stands that field's value, in every row; the fields are all of them or the ones named. */
  predicate InsertMeans(m: Model, d: Dialect, columns: seq<string>, rows: seq<Row>, upsert: Option<Upsert>, r: RInsert) {
    var fields := if columns == [] then m.fields else columns;
    && r.table == m.tableName
    && NamesMean(m, fields, r.cols)
    && RowsMean(fields, rows, r.rows)
    && (if upsert.None? then r.upsert == None else r.upsert.Some? && UpsertMeans(m, d, upsert.value, r.upsert.value))
  }

  lemma {:induction false} AssignsIff(m: Model, assigns: seq<Assignable>, rs: seq<RAssign>)
    ensures AssignsMean(m, assigns, rs) <==> ResolveAssigns(m, assigns) == Ok(rs)
  {
    if assigns != [] && rs != [] {
      AssignsIff(m, assigns[1..], rs[1..]);
      assert rs == [rs[0]] + rs[1..] && assigns == [assigns[0]] + assigns[1..];
    } else if assigns != [] && ResolveAssigns(m, assigns).Ok? {
      assert |ResolveAssigns(m, assigns).value| > 0;
    }
  }

  lemma UpsertIff(m: Model, d: Dialect, u: Upsert, r: RUpsert)
    ensures UpsertMeans(m, d, u, r) <==> ResolveUpsert(m, d, u) == Ok(r)
  {
    AssignsIff(m, u.assigns, r.assigns);
    NamesIff(m, u.conflictColumns, r.conflict);
  }

  lemma {:induction false} RowIff(fields: seq<string>, row: Row, vals: seq<Value>)
    ensures RowMeans(fields, row, vals) <==> RowValues(row, fields) == Ok(vals)
  {
    if fields != [] && vals != [] {
      RowIff(fields[1..], row, vals[1..]);
      assert vals == [vals[0]] + vals[1..] && fields == [fields[0]] + fields[1..];
    } else if fields != [] && RowValues(row, fields).Ok? {
      assert |RowValues(row, fields).value| > 0;
    }
  }

  lemma {:induction false} RowsIff(fields: seq<string>, rows: seq<Row>, vals: seq<seq<Value>>)
    ensures RowsMean(fields, rows, vals) <==> AllRows(rows, fields) == Ok(vals)
  {
    if rows != [] && vals != [] {
      RowIff(fields, rows[0], vals[0]);
      RowsIff(fields, rows[1..], vals[1..]);
      assert vals == [vals[0]] + vals[1..] && rows == [rows[0]] + rows[1..];
    } else if rows != [] && AllRows(rows, fields).Ok? {
      assert |AllRows(rows, fields).value| > 0;
    }
  }

  lemma {:induction false} CheckIff(m: Model, columns: seq<string>)
    ensures CheckColumns(m, columns).Ok? <==> forall k :: 0 <= k < |columns| ==> columns[k] in m.fieldMap
  {
    if columns != [] {
      CheckIff(m, columns[1..]);
      assert columns == [columns[0]] + columns[1..];
    }
  }

  /** A column that is no field is refused, and the first such column is the one named. */
  lemma {:induction false} FirstUnknownColumn(m: Model, columns: seq<string>, k: nat)
    requires k < |columns| && columns[k] !in m.fieldMap && forall i :: 0 <= i < k ==> columns[i] in m.fieldMap
    ensures FieldsFor(m, columns) == Err(UnknownColumn(columns[k])) && CheckColumns(m, columns) == Err(UnknownColumn(columns[k]))
  {
    if k > 0 {
      FirstUnknownColumn(m, columns[1..], k - 1);
    }
  }

  lemma FieldsIff(m: Model, columns: seq<string>, cols: seq<string>)
    requires WellFormed(m)
    ensures var fields := if columns == [] then m.fields else columns;
            NamesMean(m, fields, cols)
            <==> FieldsFor(m, columns) == Ok(fields) && (FieldsExist(m, columns); cols == ColumnsOf(m, fields))
  {
    CheckIff(m, columns);
    if columns != [] && CheckColumns(m, columns).Ok? {
      CheckedColumns(m, columns);
    }
  }

  /** The insert that is built is the one that is meant, and there is none exactly when Build fails. */
  lemma InsertIff(m: Model, d: Dialect, columns: seq<string>, rows: seq<Row>, upsert: Option<Upsert>, r: RInsert)
    requires WellFormed(m)
    ensures InsertMeans(m, d, columns, rows, upsert, r) <==> ResolveInsert(m, d, columns, rows, upsert) == Ok(r)
  {
    var fields := if columns == [] then m.fields else columns;
    FieldsIff(m, columns, r.cols);
    RowsIff(fields, rows, r.rows);
    if upsert.Some? && r.upsert.Some? {
      UpsertIff(m, d, upsert.value, r.upsert.value);
    }
    if columns != [] && FieldsFor(m, columns).Ok? {
      CheckedColumns(m, columns);
    }
  }
}
