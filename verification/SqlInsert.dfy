/** `Inserter`: the loops over rows, columns and the upsert clause of two dialects. */
module SqlInsert {
  import opened Wrappers
  import opened SqlAst
  import opened SqlText
  import opened SqlBuilder
  import opened SqlInsertText
  import opened SqlInsertParser
  import opened SqlInsertIntent

  lemma JoinedNext(parts: seq<Tokens>, i: nat)
    requires i < |parts|
    ensures Joined(parts[..i + 1]) == Joined(parts[..i]) + (if i > 0 then [Comma] else []) + parts[i]
  {
    assert parts[..i + 1][..i] == parts[..i];
    if i == 0 {
      assert [] + [] + parts[0] == parts[0];
    }
  }

  class Inserter {
    const b: Builder
    const entity: string
    const dialect: Dialect
    var values: seq<Row>
    var columns: seq<string>
    var onDuplicateKey: Option<Upsert>

    constructor (registry: map<string, Model>, entity: string, dialect: Dialect)
      ensures fresh(b) && b.registry == registry && b.model == None && b.Valid()
      ensures this.entity == entity && this.dialect == dialect && values == [] && columns == [] && onDuplicateKey == None
    {
      b := new Builder(registry);
      this.entity, this.dialect := entity, dialect;
      values, columns, onDuplicateKey := [], [], None;
    }

    method WriteComma(i: nat)
      requires b.Valid()
      modifies b
      ensures b.Valid() && b.model == old(b.model)
      ensures b.written == old(b.written) + if i > 0 then [Comma] else []
    {
      if i > 0 {
        b.Write(Comma);
      }
    }

    /** `(a,b,...)`: the columns. */
    method BuildColumnList(cols: seq<string>)
      requires b.Valid()
      modifies b
      ensures b.Valid() && b.model == old(b.model)
      ensures b.written == old(b.written) + Joined(NameParts(cols))
    {
      var i := 0;
      ghost var parts := NameParts(cols);
      while i < |cols|
        invariant i <= |cols| && b.Valid() && b.model == old(b.model)
        invariant b.written == old(b.written) + Joined(parts[..i])
      {
        NextNameText(old(b.written), cols, i);
        WriteComma(i);
        b.Quote(cols[i]);
        i := i + 1;
      }
      assert parts[..i] == parts;
    }

    /** One `?` and its argument. */
    method BuildMark(k: nat, v: Value, ghost start: Tokens, ghost vals: seq<Value>)
      requires b.Valid() && k == |vals| && b.written == start + Joined(MarkParts(vals))
      modifies b
      ensures b.Valid() && b.model == old(b.model) && b.written == start + Joined(MarkParts(vals + [v]))
    {
      NextMark(vals, v);
      WriteComma(k);
      b.WriteMark(v);
      Regroup3(start, Joined(MarkParts(vals)), if k > 0 then [Comma] else [], [Mark([v])]);
    }

    /** `(?,?,...)` and the arguments of one row. */
    method BuildRow(row: Row, fields: seq<string>) returns (status: Res<()>)
      requires b.Valid()
      modifies b
      ensures b.Valid() && b.model == old(b.model)
      ensures status == StatusOf(RowValues(row, fields))
      ensures status.Ok? ==> b.written == old(b.written) + PrintRow(RowValues(row, fields).value)
    {
      b.Write(LParen);
      ghost var start, vals := b.written, [];
      var k := 0;
      NoMarks(start);
      RowStart(row, fields);
      while k < |fields|
        invariant k <= |fields| && |vals| == k && b.Valid() && b.model == old(b.model)
        invariant RowSoFar(row, fields, k, vals)
        invariant b.written == start + Joined(MarkParts(vals))
      {
        RowStep(row, fields, k, vals);
        if fields[k] !in row {
          return Err(UnknownField(fields[k]));
        }
        BuildMark(k, row[fields[k]], start, vals);
        vals := vals + [row[fields[k]]];
        k := k + 1;
      }
      RowDone(row, fields, vals);
      b.Write(RParen);
      status := Ok(());
      RowText(old(b.written), vals);
    }

    method BuildNthRow(j: nat, fields: seq<string>, ghost start: Tokens, ghost done: seq<seq<Value>>) returns (status: Res<()>)
      requires b.Valid() && j == |done| && j < |values| && b.written == start + Joined(RowParts(done))
      modifies b
      ensures b.Valid() && b.model == old(b.model) && status == StatusOf(RowValues(values[j], fields))
      ensures status.Ok? ==> b.written == start + Joined(RowParts(done + [RowValues(values[j], fields).value]))
    {
      WriteComma(j);
      status := BuildRow(values[j], fields);
      if status.Ok? {
        NextRowText(start, done, RowValues(values[j], fields).value);
      }
    }

    method BuildRows(fields: seq<string>) returns (status: Res<()>)
      requires b.Valid()
      modifies b
      ensures b.Valid() && b.model == old(b.model)
      ensures status == StatusOf(AllRows(values, fields))
      ensures status.Ok? ==> b.written == old(b.written) + Joined(RowParts(AllRows(values, fields).value))
    {
      ghost var start, done: seq<seq<Value>> := b.written, [];
      var j := 0;
      NoRowsYet(start, values, fields);
      while j < |values|
        invariant j <= |values| && |done| == j && b.Valid() && b.model == old(b.model)
        invariant RowsSoFar(values, fields, j, done)
        invariant b.written == start + Joined(RowParts(done))
      {
        RowsStep(values, fields, j, done);
        status := BuildNthRow(j, fields, start, done);
        if !status.Ok? {
          return;
        }
        done := done + [RowValues(values[j], fields).value];
        j := j + 1;
      }
      RowsDone(values, fields, done);
      status := Ok(());
    }

    method BuildAssign(a: Assignable) returns (status: Res<()>)
      requires b.Valid() && b.model.Some?
      modifies b
      ensures b.Valid() && b.model == old(b.model)
      ensures status == StatusOf(ResolveAssign(b.model.value, a))
      ensures status.Ok? ==> b.written == old(b.written) + PrintAssign(dialect, ResolveAssign(b.model.value, a).value)
    {
      var m := b.model.value;
      status := Ok(());
      match a {
        case Assignment(col, val) =>
          if col !in m.fieldMap {
            return Err(UnknownField(col));
          }
          b.Quote(m.fieldMap[col]);
          b.Write(Assign);
          b.WriteMark(val);
        case AssignColumn(name) =>
          if name !in m.fieldMap {
            return Err(UnknownField(name));
          }
          b.Quote(m.fieldMap[name]);
          b.Write(Assign);
          WriteProposed(m.fieldMap[name]);
          ProposedText(old(b.written), dialect, m.fieldMap[name]);
        case OtherAssignable =>
          status := Err(UnsupportedAssignable);
      }
    }

    method WriteProposed(col: string)
      requires b.Valid()
      modifies b
      ensures b.Valid() && b.model == old(b.model)
      ensures b.written == old(b.written) + PrintProposed(dialect, col)
    {
      if dialect.MySQL? {
        WriteValuesOf(col);
      } else {
        WriteExcluded(col);
      }
    }

    method WriteValuesOf(col: string)
      requires b.Valid()
      modifies b
      ensures b.Valid() && b.model == old(b.model)
      ensures b.written == old(b.written) + [Fn("VALUES"), LParen, Ident(col), RParen]
    {
      b.Write(Fn("VALUES"));
      b.Write(LParen);
      b.Quote(col);
      b.Write(RParen);
    }

    method WriteExcluded(col: string)
      requires b.Valid()
      modifies b
      ensures b.Valid() && b.model == old(b.model)
      ensures b.written == old(b.written) + [Bare("excluded"), Dot, Ident(col)]
    {
      b.Write(Bare("excluded"));
      b.Write(Dot);
      b.Quote(col);
    }

    method BuildNthAssign(i: nat, a: Assignable, ghost start: Tokens, ghost done: seq<RAssign>) returns (status: Res<()>)
      requires b.Valid() && b.model.Some? && i == |done| && b.written == start + Joined(AssignParts(dialect, done))
      modifies b
      ensures b.Valid() && b.model == old(b.model) && status == StatusOf(ResolveAssign(b.model.value, a))
      ensures status.Ok? ==>
                b.written == start + Joined(AssignParts(dialect, done + [ResolveAssign(b.model.value, a).value]))
    {
      WriteComma(i);
      status := BuildAssign(a);
      if status.Ok? {
        NextAssignText(start, dialect, done, ResolveAssign(b.model.value, a).value);
      }
    }

    method BuildAssigns(assigns: seq<Assignable>) returns (status: Res<()>)
      requires b.Valid() && b.model.Some?
      modifies b
      ensures b.Valid() && b.model == old(b.model)
      ensures status == StatusOf(ResolveAssigns(b.model.value, assigns))
      ensures status.Ok? ==>
                b.written == old(b.written) + Joined(AssignParts(dialect, ResolveAssigns(b.model.value, assigns).value))
    {
      ghost var m, start, done: seq<RAssign> := b.model.value, b.written, [];
      var i := 0;
      NoAssignsYet(start, dialect, m, assigns);
      while i < |assigns|
        invariant i <= |assigns| && |done| == i && b.Valid() && b.model == old(b.model)
        invariant AssignsSoFar(m, assigns, i, done)
        invariant b.written == start + Joined(AssignParts(dialect, done))
      {
        AssignsStep(m, assigns, i, done);
        status := BuildNthAssign(i, assigns[i], start, done);
        if !status.Ok? {
          return;
        }
        done := done + [ResolveAssign(m, assigns[i]).value];
        i := i + 1;
      }
      AssignsDone(m, assigns, done);
      status := Ok(());
    }

    /** `buildUpsert` of the dialect. */
    method BuildUpsert(u: Upsert) returns (status: Res<()>)
      requires b.Valid() && b.model.Some?
      modifies b
      ensures b.Valid() && b.model == old(b.model)
      ensures status == StatusOf(ResolveUpsert(b.model.value, dialect, u))
      ensures status.Ok? ==> b.written == old(b.written) + PrintUpsert(ResolveUpsert(b.model.value, dialect, u).value)
    {
      ghost var m, start := b.model.value, b.written;
      status := BuildUpsertHead(u.conflictColumns);
      if !status.Ok? {
        return;
      }
      status := BuildAssigns(u.assigns);
      if status.Ok? {
        UpsertText(start, ResolveUpsert(m, dialect, u).value);
      }
    }

    method BuildUpsertHead(names: seq<string>) returns (status: Res<()>)
      requires b.Valid() && b.model.Some?
      modifies b
      ensures b.Valid() && b.model == old(b.model)
      ensures status == StatusOf(ConflictOf(b.model.value, dialect, names))
      ensures status.Ok? ==>
                b.written == old(b.written) + UpsertHead(dialect, ConflictOf(b.model.value, dialect, names).value)
    {
      status := Ok(());
      if dialect.MySQL? {
        b.Write(Kw(OnDuplicate));
      } else {
        b.Write(Kw(OnConflict));
        b.Write(LParen);
        status := b.BuildNames(names);
        if !status.Ok? {
          return;
        }
        b.Write(RParen);
        b.Write(Kw(DoUpdate));
        ConflictText(old(b.written), ResolveAll(b.model.value, names).value);
      }
    }

    /** The model a Build works with. */
    ghost function Own(): Res<Model>
      reads this, b
    {
      if b.model.Some? then Ok(b.model.value)
      else if entity in b.registry then Ok(b.registry[entity]) else Err(NoModel)
    }

    ghost predicate ModelsWellFormed()
      reads this, b
    {
      (b.model.Some? ==> WellFormed(b.model.value)) && (entity in b.registry ==> WellFormed(b.registry[entity]))
    }

    /** What a Build is asked for. */
    ghost function Asked(): Res<RInsert>
      requires ModelsWellFormed()
      reads this, b
    {
      if values == [] then Err(NoRows)
      else
        var own :- Own();
        ResolveInsert(own, dialect, columns, values, onDuplicateKey)
    }

    /**
      The buffer starts empty every time, so building again gives an equal query; its arguments are the
      rows in order and then the assigned values, each is bound to the placeholder written for it, and the
      bound text parses to exactly the insert that was asked for.
     */
    method Build() returns (q: Res<Query>)
      requires b.Valid() && ModelsWellFormed()
      modifies b
      ensures b.Valid() && ModelsWellFormed() && Asked() == old(Asked())
      ensures StatusOf(q) == StatusOf(Asked())
      ensures values == [] ==> q == Err(NoRows)
      ensures values != [] && b.model.None? ==> q == Err(NoModel)
      ensures q.Ok? ==>
                var r := Asked().value;
                q.value == Query(Erase(PrintInsert(r)), InsertArgs(r)) && Marks(q.value.sql) == |q.value.args|
                && Bind(q.value.sql, q.value.args) == Some(PrintInsert(r))
                && ParseInsert(dialect, PrintInsert(r)) == Some(r)
                && b.model.Some? && InsertMeans(b.model.value, dialect, columns, values, onDuplicateKey, r)
      ensures b.model == if old(b.model).Some? || values == [] then old(b.model)
                         else if entity in b.registry then Some(b.registry[entity]) else None
      ensures q.Ok? <==>
                && values != [] && b.model.Some?
                && exists meant :: InsertMeans(b.model.value, dialect, columns, values, onDuplicateKey, meant)
    {
      if |values| == 0 {
        return Err(NoRows);
      }
      b.Reset();
      if b.model.None? {
        if entity !in b.registry {
          return Err(NoModel);
        }
        b.model := Some(b.registry[entity]);
      }
      MeantIff(b.model.value);
      var status := BuildClauses();
      if !status.Ok? {
        return status.PropagateFailure();
      }
      ghost var r := Asked().value;
      InsertTakes(r);
      BindRestores(PrintInsert(r));
      ResolvedFits(b.model.value, dialect, columns, values, onDuplicateKey);
      InsertRoundTrip(dialect, r);
      q := Ok(Query(b.sb, b.args));
    }

    lemma MeantIff(m: Model)
      requires WellFormed(m)
      ensures ResolveInsert(m, dialect, columns, values, onDuplicateKey).Ok?
         <==> exists meant :: InsertMeans(m, dialect, columns, values, onDuplicateKey, meant)
      ensures var r := ResolveInsert(m, dialect, columns, values, onDuplicateKey);
              r.Ok? ==> InsertMeans(m, dialect, columns, values, onDuplicateKey, r.value)
    {
      var r := ResolveInsert(m, dialect, columns, values, onDuplicateKey);
      if r.Ok? {
        InsertIff(m, dialect, columns, values, onDuplicateKey, r.value);
      }
      if meant :| InsertMeans(m, dialect, columns, values, onDuplicateKey, meant) {
        InsertIff(m, dialect, columns, values, onDuplicateKey, meant);
      }
    }

    /** The columns the caller named, each looked up, or all of them. */
    method PickFields(m: Model) returns (fields: Res<seq<string>>)
      ensures fields == FieldsFor(m, columns)
    {
      if |columns| == 0 {
        return Ok(m.fields);
      }
      var picked: seq<string> := [];
      var i := 0;
      assert columns[0..] == columns;
      while i < |columns|
        invariant i <= |columns| && picked == columns[..i]
        invariant StatusOf(CheckColumns(m, columns)) == StatusOf(CheckColumns(m, columns[i..]))
      {
        assert columns[i..][0] == columns[i] && columns[i..][1..] == columns[i + 1..];
        if columns[i] !in m.fieldMap {
          return Err(UnknownColumn(columns[i]));
        }
        picked := picked + [columns[i]];
        i := i + 1;
      }
      assert columns[i..] == [] && columns[..i] == columns;
      CheckedColumns(m, columns);
      fields := Ok(picked);
    }

    method BuildHead(table: string, cols: seq<string>)
      requires b.Valid() && b.written == []
      modifies b
      ensures b.Valid() && b.model == old(b.model) && b.written == InsertHead(table, cols)
    {
      b.Write(Kw(Insert));
      b.Quote(table);
      b.Write(LParen);
      assert b.written == [Kw(Insert), Ident(table), LParen];
      BuildColumnList(cols);
      b.Write(RParen);
      b.Write(Kw(Values));
      Regroup2([Kw(Insert), Ident(table), LParen] + Joined(NameParts(cols)), [RParen], [Kw(Values)]);
    }

    method BuildClauses() returns (status: Res<()>)
      requires b.Valid() && b.model.Some? && WellFormed(b.model.value) && b.written == []
      modifies b
      ensures b.Valid() && b.model == old(b.model)
      ensures status == StatusOf(ResolveInsert(b.model.value, dialect, columns, values, onDuplicateKey))
      ensures status.Ok? ==>
                b.written == PrintInsert(ResolveInsert(b.model.value, dialect, columns, values, onDuplicateKey).value)
    {
      var m := b.model.value;
      var fields := PickFields(m);
      if !fields.Ok? {
        return fields.PropagateFailure();
      }
      FieldsExist(m, columns);
      BuildHead(m.tableName, ColumnsOf(m, fields.value));
      status := BuildRows(fields.value);
      if !status.Ok? {
        return;
      }
      status := BuildEnd();
    }

    /** The upsert clause, if there is one, and the end of the statement. */
    method BuildEnd() returns (status: Res<()>)
      requires b.Valid() && b.model.Some?
      modifies b
      ensures b.Valid() && b.model == old(b.model)
      ensures onDuplicateKey.None? ==> status == Ok(()) && b.written == old(b.written) + [] + [Semi]
      ensures onDuplicateKey.Some? ==>
                var u := ResolveUpsert(b.model.value, dialect, onDuplicateKey.value);
                status == StatusOf(u) && (u.Ok? ==> b.written == old(b.written) + PrintUpsert(u.value) + [Semi])
    {
      status := Ok(());
      if onDuplicateKey.Some? {
        status := BuildUpsert(onDuplicateKey.value);
        if !status.Ok? {
          return;
        }
      }
      b.Write(Semi);
    }
  }

  lemma NextNameText(start: Tokens, cols: seq<string>, i: nat)
    requires i < |cols|
    ensures start + Joined(NameParts(cols)[..i]) + (if i > 0 then [Comma] else []) + [Ident(cols[i])]
         == start + Joined(NameParts(cols)[..i + 1])
  {
    JoinedNext(NameParts(cols), i);
    Regroup3(start, Joined(NameParts(cols)[..i]), if i > 0 then [Comma] else [], [Ident(cols[i])]);
  }

  lemma NextAssign(d: Dialect, done: seq<RAssign>, a: RAssign)
    ensures Joined(AssignParts(d, done + [a]))
         == Joined(AssignParts(d, done)) + (if |done| > 0 then [Comma] else []) + PrintAssign(d, a)
  {
    var parts := AssignParts(d, done + [a]);
    assert parts[..|done|] == AssignParts(d, done) && parts[..|done| + 1] == parts;
    JoinedNext(parts, |done|);
  }

  lemma NextAssignText(start: Tokens, d: Dialect, done: seq<RAssign>, a: RAssign)
    ensures start + Joined(AssignParts(d, done)) + (if |done| > 0 then [Comma] else []) + PrintAssign(d, a)
         == start + Joined(AssignParts(d, done + [a]))
  {
    NextAssign(d, done, a);
    Regroup3(start, Joined(AssignParts(d, done)), if |done| > 0 then [Comma] else [], PrintAssign(d, a));
  }

  lemma ProposedText(start: Tokens, d: Dialect, col: string)
    ensures start + [Ident(col)] + [Assign] + PrintProposed(d, col) == start + PrintAssign(d, SetColumn(col))
  {
    assert start + [Ident(col)] + [Assign] == start + [Ident(col), Assign];
    Regroup2(start, [Ident(col), Assign], PrintProposed(d, col));
  }

  ghost predicate AssignsSoFar(m: Model, assigns: seq<Assignable>, i: nat, done: seq<RAssign>) {
    i <= |assigns|
    && StatusOf(ResolveAssigns(m, assigns)) == StatusOf(ResolveAssigns(m, assigns[i..]))
    && (ResolveAssigns(m, assigns).Ok? ==> ResolveAssigns(m, assigns).value == done + ResolveAssigns(m, assigns[i..]).value)
  }

  lemma NoAssignsYet(start: Tokens, d: Dialect, m: Model, assigns: seq<Assignable>)
    ensures AssignsSoFar(m, assigns, 0, []) && start + Joined(AssignParts(d, [])) == start
  {
    assert assigns[0..] == assigns;
  }

  lemma AssignsStep(m: Model, assigns: seq<Assignable>, i: nat, done: seq<RAssign>)
    requires i < |assigns| && AssignsSoFar(m, assigns, i, done)
    ensures var first := ResolveAssign(m, assigns[i]);
            if first.Ok? then AssignsSoFar(m, assigns, i + 1, done + [first.value])
            else StatusOf(ResolveAssigns(m, assigns)) == StatusOf(first)
  {
    assert assigns[i..][0] == assigns[i] && assigns[i..][1..] == assigns[i + 1..];
    if ResolveAssigns(m, assigns).Ok? {
      var first, rest := ResolveAssign(m, assigns[i]).value, ResolveAssigns(m, assigns[i + 1..]).value;
      assert done + ([first] + rest) == done + [first] + rest;
    }
  }

  lemma AssignsDone(m: Model, assigns: seq<Assignable>, done: seq<RAssign>)
    requires AssignsSoFar(m, assigns, |assigns|, done)
    ensures ResolveAssigns(m, assigns) == Ok(done)
  {
    assert assigns[|assigns|..] == [];
    assert done + [] == done;
  }

  lemma ConflictText(start: Tokens, names: seq<string>)
    ensures start + [Kw(OnConflict)] + [LParen] + PrintNames(names) + [RParen] + [Kw(DoUpdate)]
         == start + UpsertHead(SQLite, names)
  {
    var a, c := [Kw(OnConflict), LParen], [RParen, Kw(DoUpdate)];
    assert start + [Kw(OnConflict)] + [LParen] == start + a;
    assert start + a + PrintNames(names) + [RParen] + [Kw(DoUpdate)] == start + a + PrintNames(names) + c;
    Regroup3(start, a, PrintNames(names), c);
  }

  lemma UpsertText(start: Tokens, u: RUpsert)
    ensures start + UpsertHead(u.dialect, u.conflict) + Joined(AssignParts(u.dialect, u.assigns)) == start + PrintUpsert(u)
  {
    Regroup2(start, UpsertHead(u.dialect, u.conflict), Joined(AssignParts(u.dialect, u.assigns)));
  }

  lemma NoMarks(start: Tokens)
    ensures start + Joined(MarkParts([])) == start
  {
  }

  /** The first `k` fields have been read; the rest decide whether the row can be written. */
  ghost predicate RowSoFar(row: Row, fields: seq<string>, k: nat, vals: seq<Value>) {
    k <= |fields|
    && StatusOf(RowValues(row, fields)) == StatusOf(RowValues(row, fields[k..]))
    && (RowValues(row, fields).Ok? ==> RowValues(row, fields).value == vals + RowValues(row, fields[k..]).value)
  }

  lemma RowStart(row: Row, fields: seq<string>)
    ensures RowSoFar(row, fields, 0, [])
  {
    assert fields[0..] == fields;
  }

  lemma RowStep(row: Row, fields: seq<string>, k: nat, vals: seq<Value>)
    requires k < |fields| && RowSoFar(row, fields, k, vals)
    ensures if fields[k] in row then RowSoFar(row, fields, k + 1, vals + [row[fields[k]]])
            else StatusOf(RowValues(row, fields)) == Err(UnknownField(fields[k]))
  {
    assert fields[k..][0] == fields[k] && fields[k..][1..] == fields[k + 1..];
    if RowValues(row, fields).Ok? {
      var first, rest := row[fields[k]], RowValues(row, fields[k + 1..]).value;
      assert vals + ([first] + rest) == vals + [first] + rest;
    }
  }

  lemma RowDone(row: Row, fields: seq<string>, vals: seq<Value>)
    requires RowSoFar(row, fields, |fields|, vals)
    ensures RowValues(row, fields) == Ok(vals)
  {
    assert fields[|fields|..] == [];
    assert vals + [] == vals;
  }

  ghost predicate RowsSoFar(rows: seq<Row>, fields: seq<string>, j: nat, done: seq<seq<Value>>) {
    j <= |rows|
    && StatusOf(AllRows(rows, fields)) == StatusOf(AllRows(rows[j..], fields))
    && (AllRows(rows, fields).Ok? ==> AllRows(rows, fields).value == done + AllRows(rows[j..], fields).value)
  }

  lemma NoRowsYet(start: Tokens, rows: seq<Row>, fields: seq<string>)
    ensures RowsSoFar(rows, fields, 0, []) && start + Joined(RowParts([])) == start
  {
    assert rows[0..] == rows;
  }

  lemma RowsStep(rows: seq<Row>, fields: seq<string>, j: nat, done: seq<seq<Value>>)
    requires j < |rows| && RowsSoFar(rows, fields, j, done)
    ensures var first := RowValues(rows[j], fields);
            if first.Ok? then RowsSoFar(rows, fields, j + 1, done + [first.value])
            else StatusOf(AllRows(rows, fields)) == StatusOf(first)
  {
    assert rows[j..][0] == rows[j] && rows[j..][1..] == rows[j + 1..];
    if AllRows(rows, fields).Ok? {
      var first, rest := RowValues(rows[j], fields).value, AllRows(rows[j + 1..], fields).value;
      assert done + ([first] + rest) == done + [first] + rest;
    }
  }

  lemma RowsDone(rows: seq<Row>, fields: seq<string>, done: seq<seq<Value>>)
    requires RowsSoFar(rows, fields, |rows|, done)
    ensures AllRows(rows, fields) == Ok(done)
  {
    assert rows[|rows|..] == [];
    assert done + [] == done;
  }

  lemma NextMark(vals: seq<Value>, v: Value)
    ensures Joined(MarkParts(vals + [v])) == Joined(MarkParts(vals)) + (if |vals| > 0 then [Comma] else []) + [Mark([v])]
  {
    var parts := MarkParts(vals + [v]);
    assert parts[..|vals|] == MarkParts(vals) && parts[..|vals| + 1] == parts;
    JoinedNext(parts, |vals|);
  }

  lemma NextRow(rows: seq<seq<Value>>, row: seq<Value>)
    ensures Joined(RowParts(rows + [row])) == Joined(RowParts(rows)) + (if |rows| > 0 then [Comma] else []) + PrintRow(row)
  {
    var parts := RowParts(rows + [row]);
    assert parts[..|rows|] == RowParts(rows) && parts[..|rows| + 1] == parts;
    JoinedNext(parts, |rows|);
  }

  lemma NextRowText(start: Tokens, rows: seq<seq<Value>>, row: seq<Value>)
    ensures start + Joined(RowParts(rows)) + (if |rows| > 0 then [Comma] else []) + PrintRow(row)
         == start + Joined(RowParts(rows + [row]))
  {
    NextRow(rows, row);
    Regroup3(start, Joined(RowParts(rows)), if |rows| > 0 then [Comma] else [], PrintRow(row));
  }

  lemma RowText(start: Tokens, vals: seq<Value>)
    ensures start + [LParen] + Joined(MarkParts(vals)) + [RParen] == start + PrintRow(vals)
  {
    Regroup3(start, [LParen], Joined(MarkParts(vals)), [RParen]);
  }
}
