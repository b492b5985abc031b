/** INSERT statements: names resolved, printed in two dialects, and the arguments they take. */
module SqlInsertText {
  import opened Wrappers
  import opened SqlAst
  import opened SqlText
  import opened SqlBuilder

  datatype Dialect = MySQL | SQLite

  datatype Assignable = Assignment(col: string, val: Value) | AssignColumn(name: string) | OtherAssignable

  datatype Upsert = Upsert(assigns: seq<Assignable>, conflictColumns: seq<string>)

  /** The values of a struct, by field. */
  type Row = map<string, Value>

  // ---- Names resolved ----

  datatype RAssign = SetValue(col: string, val: Value) | SetColumn(col: string)

  datatype RUpsert = RUpsert(dialect: Dialect, conflict: seq<string>, assigns: seq<RAssign>)

  datatype RInsert = RInsert(table: string, cols: seq<string>, rows: seq<seq<Value>>, upsert: Option<RUpsert>)

  /** The fields to write: all of them, or the ones named, each of which must exist. */
  function CheckColumns(m: Model, columns: seq<string>): Res<seq<string>> {
    if columns == [] then Ok([])
    else if columns[0] !in m.fieldMap then Err(UnknownColumn(columns[0]))
    else
      var rest :- CheckColumns(m, columns[1..]);
      Ok([columns[0]] + rest)
  }

  function FieldsFor(m: Model, columns: seq<string>): Res<seq<string>> {
    if columns == [] then Ok(m.fields) else CheckColumns(m, columns)
  }

  function RowValues(row: Row, fields: seq<string>): Res<seq<Value>> {
    if fields == [] then Ok([])
    else if fields[0] !in row then Err(UnknownField(fields[0]))
    else
      var rest :- RowValues(row, fields[1..]);
      Ok([row[fields[0]]] + rest)
  }

  function AllRows(rows: seq<Row>, fields: seq<string>): Res<seq<seq<Value>>> {
    if rows == [] then Ok([])
    else
      var first :- RowValues(rows[0], fields);
      var rest :- AllRows(rows[1..], fields);
      Ok([first] + rest)
  }

  function ResolveAssign(m: Model, a: Assignable): Res<RAssign> {
    match a
    case Assignment(col, v) =>
      var c :- FieldOf(m, col);
      Ok(SetValue(c, v))
    case AssignColumn(name) =>
      var c :- FieldOf(m, name);
      Ok(SetColumn(c))
    case OtherAssignable => Err(UnsupportedAssignable)
  }

  function ResolveAssigns(m: Model, assigns: seq<Assignable>): Res<seq<RAssign>> {
    if assigns == [] then Ok([])
    else
      var first :- ResolveAssign(m, assigns[0]);
      var rest :- ResolveAssigns(m, assigns[1..]);
      Ok([first] + rest)
  }

  function ConflictOf(m: Model, d: Dialect, names: seq<string>): Res<seq<string>> {
    if d.MySQL? then Ok([]) else ResolveAll(m, names)
  }

  function ResolveUpsert(m: Model, d: Dialect, u: Upsert): Res<RUpsert> {
    var conflict :- ConflictOf(m, d, u.conflictColumns);
    var assigns :- ResolveAssigns(m, u.assigns);
    Ok(RUpsert(d, conflict, assigns))
  }

  /** The model holds every one of its fields, as registering a struct leaves it. */
  predicate WellFormed(m: Model) {
    forall i :: 0 <= i < |m.fields| ==> m.fields[i] in m.fieldMap
  }

  function ColumnsOf(m: Model, fields: seq<string>): seq<string>
    requires forall i :: 0 <= i < |fields| ==> fields[i] in m.fieldMap
  {
    seq(|fields|, i requires 0 <= i < |fields| => m.fieldMap[fields[i]])
  }

  lemma {:induction false} CheckedColumns(m: Model, columns: seq<string>)
    requires CheckColumns(m, columns).Ok?
    ensures CheckColumns(m, columns).value == columns && forall i :: 0 <= i < |columns| ==> columns[i] in m.fieldMap
  {
    if columns != [] {
      CheckedColumns(m, columns[1..]);
      assert [columns[0]] + columns[1..] == columns;
    }
  }

  lemma FieldsExist(m: Model, columns: seq<string>)
    requires WellFormed(m)
    ensures var fields := FieldsFor(m, columns);
            fields.Ok? ==> forall i :: 0 <= i < |fields.value| ==> fields.value[i] in m.fieldMap
  {
    if columns != [] && CheckColumns(m, columns).Ok? {
      CheckedColumns(m, columns);
    }
  }

  function ResolveInsert(m: Model, d: Dialect, columns: seq<string>, rows: seq<Row>, upsert: Option<Upsert>): Res<RInsert>
    requires WellFormed(m)
  {
    var fields :- FieldsFor(m, columns);
    FieldsExist(m, columns);
    var values :- AllRows(rows, fields);
    if upsert.None? then Ok(RInsert(m.tableName, ColumnsOf(m, fields), values, None))
    else
      var u :- ResolveUpsert(m, d, upsert.value);
      Ok(RInsert(m.tableName, ColumnsOf(m, fields), values, Some(u)))
  }

  // ---- Printing ----

  /** Parts with commas between them. */
  function Joined(parts: seq<Tokens>): Tokens {
    if parts == [] then []
    else if |parts| == 1 then parts[0]
    else Joined(parts[..|parts| - 1]) + [Comma] + parts[|parts| - 1]
  }

  function NameParts(names: seq<string>): (parts: seq<Tokens>)
    ensures |parts| == |names|
  {
    seq(|names|, i requires 0 <= i < |names| => [Ident(names[i])])
  }

  function MarkParts(vals: seq<Value>): (parts: seq<Tokens>)
    ensures |parts| == |vals|
  {
    seq(|vals|, i requires 0 <= i < |vals| => [Mark([vals[i]])])
  }

  function PrintRow(vals: seq<Value>): Tokens {
    [LParen] + Joined(MarkParts(vals)) + [RParen]
  }

  function RowParts(rows: seq<seq<Value>>): (parts: seq<Tokens>)
    ensures |parts| == |rows|
  {
    seq(|rows|, i requires 0 <= i < |rows| => PrintRow(rows[i]))
  }

  function PrintAssign(d: Dialect, a: RAssign): Tokens {
    match a
    case SetValue(col, v) => [Ident(col), Assign, Mark([v])]
    case SetColumn(col) => [Ident(col), Assign] + PrintProposed(d, col)
  }

  /** The value the row would have had: `VALUES(col)`, or `excluded.col`. */
  function PrintProposed(d: Dialect, col: string): Tokens {
    if d.MySQL? then [Fn("VALUES"), LParen, Ident(col), RParen] else [Bare("excluded"), Dot, Ident(col)]
  }

  function AssignParts(d: Dialect, assigns: seq<RAssign>): (parts: seq<Tokens>)
    ensures |parts| == |assigns|
  {
    seq(|assigns|, i requires 0 <= i < |assigns| => PrintAssign(d, assigns[i]))
  }

  function UpsertHead(d: Dialect, conflict: seq<string>): Tokens {
    if d.MySQL? then [Kw(OnDuplicate)] else [Kw(OnConflict), LParen] + PrintNames(conflict) + [RParen, Kw(DoUpdate)]
  }

  function PrintUpsert(u: RUpsert): Tokens {
    UpsertHead(u.dialect, u.conflict) + Joined(AssignParts(u.dialect, u.assigns))
  }

  function InsertHead(table: string, cols: seq<string>): Tokens {
    [Kw(Insert), Ident(table), LParen] + Joined(NameParts(cols)) + [RParen, Kw(Values)]
  }

  function PrintInsert(r: RInsert): Tokens {
    InsertHead(r.table, r.cols) + Joined(RowParts(r.rows)) + (if r.upsert.None? then [] else PrintUpsert(r.upsert.value)) + [Semi]
  }

  // ---- Arguments ----

  function Concat(rows: seq<seq<Value>>): seq<Value> {
    if rows == [] then [] else Concat(rows[..|rows| - 1]) + rows[|rows| - 1]
  }

  /** The values an upsert assigns, in order; a column assigned from itself takes none. */
  function AssignedValues(assigns: seq<RAssign>): seq<Value> {
    if assigns == [] then []
    else
      var last := assigns[|assigns| - 1];
      AssignedValues(assigns[..|assigns| - 1]) + (if last.SetValue? then [last.val] else [])
  }

  /** A text and the arguments it takes, one for each of its placeholders. */
  ghost predicate Takes(ts: Tokens, vals: seq<Value>) {
    Holes(ts) == vals && WellMarked(ts)
  }

  lemma TakesBoth(a: Tokens, x: seq<Value>, b: Tokens, y: seq<Value>)
    requires Takes(a, x) && Takes(b, y)
    ensures Takes(a + b, x + y)
  {
    HolesConcat(a, b);
    WellMarkedConcat(a, b);
  }

  lemma {:induction false} PlainTakesNone(ts: Tokens)
    requires forall i :: 0 <= i < |ts| ==> Plain(ts[i])
    ensures Takes(ts, [])
  {
    if ts != [] {
      PlainTakesNone(ts[1..]);
    }
  }

  lemma TakesOne(v: Value)
    ensures Takes([Mark([v])], [v])
  {
    assert [Mark([v])][1..] == [];
  }

  /** Adding a part, and its comma, to a list. */
  lemma JoinedTakes(parts: seq<Tokens>, x: seq<Value>, y: seq<Value>)
    requires parts != [] && Takes(Joined(parts[..|parts| - 1]), x) && Takes(parts[|parts| - 1], y)
    requires |parts| == 1 ==> x == []
    ensures Takes(Joined(parts), x + y)
  {
    if |parts| == 1 {
      assert x + y == y;
    } else {
      TakesAround(Joined(parts[..|parts| - 1]), x, Comma, parts[|parts| - 1], y);
    }
  }

  lemma TakesAround(a: Tokens, x: seq<Value>, t: Token, b: Tokens, y: seq<Value>)
    requires Takes(a, x) && Takes(b, y) && Plain(t)
    ensures Takes(a + [t] + b, x + y)
  {
    PlainTakesNone([t]);
    TakesBoth(a, x, [t], []);
    assert x + [] == x;
    TakesBoth(a + [t], x, b, y);
  }

  lemma {:induction false} NamesTake(names: seq<string>)
    ensures Takes(Joined(NameParts(names)), [])
  {
    if names == [] {
      PlainTakesNone([]);
    } else {
      var front := names[..|names| - 1];
      NamesTake(front);
      assert NameParts(names)[..|names| - 1] == NameParts(front);
      PlainTakesNone([Ident(names[|names| - 1])]);
      JoinedTakes(NameParts(names), [], []);
    }
  }

  lemma {:induction false} MarksTake(vals: seq<Value>)
    ensures Takes(Joined(MarkParts(vals)), vals)
  {
    if vals == [] {
      PlainTakesNone([]);
    } else {
      var front, last := vals[..|vals| - 1], vals[|vals| - 1];
      MarksTake(front);
      assert MarkParts(vals)[..|vals| - 1] == MarkParts(front);
      TakesOne(last);
      JoinedTakes(MarkParts(vals), front, [last]);
      assert front + [last] == vals;
    }
  }

  lemma RowTakes(vals: seq<Value>)
    ensures Takes(PrintRow(vals), vals)
  {
    MarksTake(vals);
    PlainTakesNone([LParen]);
    PlainTakesNone([RParen]);
    TakesBoth([LParen], [], Joined(MarkParts(vals)), vals);
    TakesBoth([LParen] + Joined(MarkParts(vals)), [] + vals, [RParen], []);
    assert [] + vals + [] == vals;
  }

  lemma {:induction false} RowsTake(rows: seq<seq<Value>>)
    ensures Takes(Joined(RowParts(rows)), Concat(rows))
  {
    if rows == [] {
      PlainTakesNone([]);
    } else {
      var front := rows[..|rows| - 1];
      RowsTake(front);
      assert RowParts(rows)[..|rows| - 1] == RowParts(front);
      RowTakes(rows[|rows| - 1]);
      JoinedTakes(RowParts(rows), Concat(front), rows[|rows| - 1]);
    }
  }

  lemma AssignTakes(d: Dialect, a: RAssign)
    ensures Takes(PrintAssign(d, a), if a.SetValue? then [a.val] else [])
  {
    if a.SetValue? {
      PlainTakesNone([Ident(a.col), Assign]);
      TakesOne(a.val);
      TakesBoth([Ident(a.col), Assign], [], [Mark([a.val])], [a.val]);
      assert [Ident(a.col), Assign] + [Mark([a.val])] == PrintAssign(d, a);
      assert [] + [a.val] == [a.val];
    } else {
      PlainTakesNone(PrintAssign(d, a));
    }
  }

  lemma {:induction false} AssignsTake(d: Dialect, assigns: seq<RAssign>)
    ensures Takes(Joined(AssignParts(d, assigns)), AssignedValues(assigns))
  {
    if assigns == [] {
      PlainTakesNone([]);
    } else {
      var front, last := assigns[..|assigns| - 1], assigns[|assigns| - 1];
      AssignsTake(d, front);
      assert AssignParts(d, assigns)[..|assigns| - 1] == AssignParts(d, front);
      AssignTakes(d, last);
      JoinedTakes(AssignParts(d, assigns), AssignedValues(front), if last.SetValue? then [last.val] else []);
    }
  }

  lemma {:induction false} ConflictTakes(names: seq<string>)
    ensures Takes(PrintMore(names), []) && Takes(PrintNames(names), [])
  {
    if names == [] {
      PlainTakesNone([]);
    } else {
      ConflictTakes(names[1..]);
      PlainTakesNone([Comma, Ident(names[0])]);
      PlainTakesNone([Ident(names[0])]);
      TakesBoth([Comma, Ident(names[0])], [], PrintMore(names[1..]), []);
      TakesBoth([Ident(names[0])], [], PrintMore(names[1..]), []);
    }
  }

  lemma UpsertHeadTakes(d: Dialect, conflict: seq<string>)
    ensures Takes(UpsertHead(d, conflict), [])
  {
    if d.MySQL? {
      PlainTakesNone(UpsertHead(d, conflict));
    } else {
      ConflictTakes(conflict);
      PlainTakesNone([Kw(OnConflict), LParen]);
      PlainTakesNone([RParen, Kw(DoUpdate)]);
      TakesBoth([Kw(OnConflict), LParen], [], PrintNames(conflict), []);
      TakesBoth([Kw(OnConflict), LParen] + PrintNames(conflict), [], [RParen, Kw(DoUpdate)], []);
    }
  }

  lemma UpsertTakes(u: RUpsert)
    ensures Takes(PrintUpsert(u), AssignedValues(u.assigns))
  {
    AssignsTake(u.dialect, u.assigns);
    UpsertHeadTakes(u.dialect, u.conflict);
    TakesBoth(UpsertHead(u.dialect, u.conflict), [], Joined(AssignParts(u.dialect, u.assigns)), AssignedValues(u.assigns));
    assert [] + AssignedValues(u.assigns) == AssignedValues(u.assigns);
  }

  /** The arguments of an insert: all rows, row by row, then the assigned values; as many as there are placeholders. */
  function InsertArgs(r: RInsert): seq<Value> {
    Concat(r.rows) + (if r.upsert.None? then [] else AssignedValues(r.upsert.value.assigns))
  }

  lemma InsertTakes(r: RInsert)
    ensures Takes(PrintInsert(r), InsertArgs(r))
  {
    PlainTakesNone([]);
    NamesTake(r.cols);
    RowsTake(r.rows);
    if r.upsert.Some? {
      UpsertTakes(r.upsert.value);
    }
    HeadTakes(r.table, r.cols);
    StatementTakes(InsertHead(r.table, r.cols),
                   Joined(RowParts(r.rows)), Concat(r.rows),
                   if r.upsert.None? then [] else PrintUpsert(r.upsert.value),
                   if r.upsert.None? then [] else AssignedValues(r.upsert.value.assigns));
  }

  lemma HeadTakes(table: string, cols: seq<string>)
    ensures Takes(InsertHead(table, cols), [])
  {
    NamesTake(cols);
    PlainTakesNone([Kw(Insert), Ident(table), LParen]);
    PlainTakesNone([RParen, Kw(Values)]);
    TakesBoth([Kw(Insert), Ident(table), LParen], [], Joined(NameParts(cols)), []);
    TakesBoth([Kw(Insert), Ident(table), LParen] + Joined(NameParts(cols)), [], [RParen, Kw(Values)], []);
  }

  lemma StatementTakes(head: Tokens, rows: Tokens, x: seq<Value>, upsert: Tokens, y: seq<Value>)
    requires Takes(head, []) && Takes(rows, x) && Takes(upsert, y)
    ensures Takes(head + rows + upsert + [Semi], x + y)
  {
    PlainTakesNone([Semi]);
    TakesBoth(head, [], rows, x);
    assert [] + x == x;
    TakesBoth(head + rows, x, upsert, y);
    TakesBoth(head + rows + upsert, x + y, [Semi], []);
    assert x + y + [] == x + y;
  }

  // ---- Row-major order ----

  lemma {:induction false} ConcatIndex(rows: seq<seq<Value>>, n: nat, j: nat, k: nat)
    requires (forall i :: 0 <= i < |rows| ==> |rows[i]| == n) && j < |rows| && k < n
    ensures |Concat(rows)| == |rows| * n && 0 <= j * n + k < |rows| * n
    ensures Concat(rows)[j * n + k] == rows[j][k]
  {
    var last := |rows| - 1;
    var front := rows[..last];
    ConcatLength(front, n);
    assert |rows| * n == last * n + n;
    if j < last {
      ConcatIndex(front, n, j, k);
    }
  }

  lemma {:induction false} ConcatLength(rows: seq<seq<Value>>, n: nat)
    requires forall i :: 0 <= i < |rows| ==> |rows[i]| == n
    ensures |Concat(rows)| == |rows| * n
  {
    if rows != [] {
      ConcatLength(rows[..|rows| - 1], n);
      assert |rows| * n == (|rows| - 1) * n + n;
    }
  }

  lemma {:induction false} RowValuesAre(row: Row, fields: seq<string>)
    requires RowValues(row, fields).Ok?
    ensures |RowValues(row, fields).value| == |fields|
    ensures forall k :: 0 <= k < |fields| ==> fields[k] in row && RowValues(row, fields).value[k] == row[fields[k]]
  {
    if fields != [] {
      RowValuesAre(row, fields[1..]);
    }
  }

  lemma {:induction false} AllRowsAre(rows: seq<Row>, fields: seq<string>)
    requires AllRows(rows, fields).Ok?
    ensures |AllRows(rows, fields).value| == |rows|
    ensures forall j :: 0 <= j < |rows| ==>
              RowValues(rows[j], fields).Ok? && AllRows(rows, fields).value[j] == RowValues(rows[j], fields).value
  {
    if rows != [] {
      AllRowsAre(rows[1..], fields);
    }
  }

  /**
    Argument `j * ncols + k` is field `k` of row `j`; after all rows come exactly the values the upsert
    assigns, in order.
   */
  lemma RowMajor(m: Model, d: Dialect, columns: seq<string>, rows: seq<Row>, upsert: Option<Upsert>, j: nat, k: nat)
    requires WellFormed(m) && ResolveInsert(m, d, columns, rows, upsert).Ok?
    requires j < |rows| && k < |FieldsFor(m, columns).value|
    ensures var args := InsertArgs(ResolveInsert(m, d, columns, rows, upsert).value);
            var fields := FieldsFor(m, columns).value; var n := |fields|;
            && 0 <= j * n + k < |rows| * n <= |args|
            && fields[k] in rows[j] && args[j * n + k] == rows[j][fields[k]]
            && args[|rows| * n..] == (if upsert.None? then []
                                      else AssignedValues(ResolveUpsert(m, d, upsert.value).value.assigns))
  {
    var r := ResolveInsert(m, d, columns, rows, upsert).value;
    var fields := FieldsFor(m, columns).value;
    AllRowsAre(rows, fields);
    forall i | 0 <= i < |rows|
      ensures |r.rows[i]| == |fields|
    {
      RowValuesAre(rows[i], fields);
    }
    RowValuesAre(rows[j], fields);
    ConcatIndex(r.rows, |fields|, j, k);
  }

  /** Both dialects, when both accept the insert, take the same arguments. */
  lemma DialectsTakeTheSame(m: Model, columns: seq<string>, rows: seq<Row>, upsert: Option<Upsert>)
    requires WellFormed(m)
    requires ResolveInsert(m, MySQL, columns, rows, upsert).Ok? && ResolveInsert(m, SQLite, columns, rows, upsert).Ok?
    ensures Holes(PrintInsert(ResolveInsert(m, MySQL, columns, rows, upsert).value))
         == Holes(PrintInsert(ResolveInsert(m, SQLite, columns, rows, upsert).value))
  {
    SameArgs(m, columns, rows, upsert);
    InsertTakes(ResolveInsert(m, MySQL, columns, rows, upsert).value);
    InsertTakes(ResolveInsert(m, SQLite, columns, rows, upsert).value);
  }

  lemma SameArgs(m: Model, columns: seq<string>, rows: seq<Row>, upsert: Option<Upsert>)
    requires WellFormed(m)
    requires ResolveInsert(m, MySQL, columns, rows, upsert).Ok? && ResolveInsert(m, SQLite, columns, rows, upsert).Ok?
    ensures InsertArgs(ResolveInsert(m, MySQL, columns, rows, upsert).value)
         == InsertArgs(ResolveInsert(m, SQLite, columns, rows, upsert).value)
  {
  }
}
