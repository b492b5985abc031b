/** `Selector`: the recursive builder of SELECT statements. */
module SqlSelect {
  import opened Wrappers
  import opened SqlAst
  import opened SqlText
  import opened SqlParser
  import opened SqlStatements
  import opened SqlIntent
  import opened SqlBuilder

  class Selector {
    const b: Builder
    const entity: string
    var columns: seq<Selectable>
    var table: TableRef
    var wheres: seq<Expr>

    constructor (registry: map<string, Model>, entity: string)
      ensures fresh(b) && b.registry == registry && b.model == None && b.written == [] && b.Valid()
      ensures this.entity == entity && columns == [] && table == NoTable && wheres == []
    {
      b := new Builder(registry);
      this.entity := entity;
      columns, table, wheres := [], NoTable, [];
    }

    method BuildExpression(e: Expr) returns (status: Res<()>)
      requires b.Valid() && b.model.Some?
      modifies b
      ensures b.Valid() && b.model == old(b.model) && |old(b.written)| <= |b.written|
      ensures status == StatusOf(Resolve(b.EnvOf(), e))
      ensures status.Ok? ==> b.written == old(b.written) + Print(Resolve(b.EnvOf(), e).value)
      decreases e, 1
    {
      status := Ok(());
      match e {
        case Nil =>
        case Pred(_, _, _) =>
          status := BuildPredicate(e);
        case Col(c) =>
          var name := b.BuildColumn(c.(alias := ""));
          status := StatusOf(name);
          if name.Ok? {
            assert PrintName(name.value) + [] == PrintName(name.value);
          }
        case Raw(f, vals) =>
          WriteGroup(f, vals);
        case Val(v) =>
          b.WriteMark(v);
        case OtherExpr =>
          status := Err(UnsupportedExpression);
      }
    }

    /** A raw fragment in parentheses. */
    method WriteGroup(f: Fragment, vals: seq<Value>)
      requires b.Valid()
      modifies b
      ensures b.Valid() && b.model == old(b.model) && b.written == old(b.written) + [LParen, RawText(f, vals), RParen]
    {
      b.Write(LParen);
      b.WriteRaw(f, vals);
      b.Write(RParen);
    }

    method BuildPredicate(e: Expr) returns (status: Res<()>)
      requires b.Valid() && b.model.Some? && e.Pred?
      modifies b
      ensures b.Valid() && b.model == old(b.model) && |old(b.written)| <= |b.written|
      ensures status == StatusOf(Resolve(b.EnvOf(), e))
      ensures status.Ok? ==> b.written == old(b.written) + Print(Resolve(b.EnvOf(), e).value)
      decreases e, 0
    {
      ghost var env, start := b.EnvOf(), b.written;
      status := BuildSide(e.left);
      if !status.Ok? {
        return;
      }
      ghost var l := Resolve(env, e.left).value;
      WriteOperator(e.op);
      status := BuildSide(e.right);
      if status.Ok? {
        ghost var r := Resolve(env, e.right).value;
        assert b.written == start + PrintSide(l) + PrintOp(e.op) + PrintSide(r);
        PredicateText(start, RPred(l, e.op, r));
      }
    }

    method WriteOperator(op: Op)
      requires b.Valid()
      modifies b
      ensures b.Valid() && b.model == old(b.model) && b.written == old(b.written) + PrintOp(op)
    {
      if !op.NoOp? {
        b.Write(Operator(op));
      }
    }

    /** One side of a predicate, in parentheses if it is a predicate itself. */
    method BuildSide(e: Expr) returns (status: Res<()>)
      requires b.Valid() && b.model.Some?
      modifies b
      ensures b.Valid() && b.model == old(b.model) && |old(b.written)| <= |b.written|
      ensures status == StatusOf(Resolve(b.EnvOf(), e))
      ensures status.Ok? ==> b.written == old(b.written) + PrintSide(Resolve(b.EnvOf(), e).value)
      decreases e, 2
    {
      if e.Pred? {
        b.Write(LParen);
      }
      status := BuildExpression(e);
      if e.Pred? && status.Ok? {
        ghost var x := Resolve(b.EnvOf(), e).value;
        assert b.written == old(b.written) + [LParen] + Print(x);
        b.Write(RParen);
        SideText(old(b.written), x);
      }
    }

    /** The loop over the ON predicates, bounded by the number of WHERE predicates; `Panic` is an index out of range. */
    method FoldOn(on: seq<Expr>) returns (p: Res<Expr>)
      requires on != []
      ensures p == OnPredicate(on, |wheres|)
    {
      var q := on[0];
      var i := 1;
      assert on[..1] == [on[0]];
      while i < |wheres|
        invariant 1 <= i <= |on| && q == FoldAnd(on[..i]) && (|wheres| <= 1 ==> i == 1) && (i <= |wheres| || i == 1)
      {
        if i >= |on| {
          return Panic;
        }
        q := AndOf(q, on[i]);
        assert on[..i + 1][..i] == on[..i];
        i := i + 1;
      }
      p := Ok(q);
    }

    method BuildOn(on: seq<Expr>) returns (status: Res<()>)
      requires b.Valid() && b.model.Some?
      modifies b
      ensures b.Valid() && b.model == old(b.model) && |old(b.written)| <= |b.written|
      ensures status == StatusOf(ResolveOn(b.EnvOf(), on, |wheres|))
      ensures status.Ok? ==> b.written == old(b.written) + PrintOn(ResolveOn(b.EnvOf(), on, |wheres|).value)
    {
      status := Ok(());
      if |on| > 0 {
        b.Write(Kw(On));
        var p := FoldOn(on);
        if !p.Ok? {
          return p.PropagateFailure();
        }
        status := BuildExpression(p.value);
        if status.Ok? {
          Regroup2(old(b.written), [Kw(On)], Print(Resolve(b.EnvOf(), p.value).value));
        }
      }
    }

    method BuildTable(t: TableRef) returns (status: Res<()>)
      requires b.Valid() && b.model.Some?
      modifies b
      ensures b.Valid() && b.model == old(b.model) && |old(b.written)| <= |b.written|
      ensures status == StatusOf(ResolveTable(b.EnvOf(), t, |wheres|))
      ensures status.Ok? ==> b.written == old(b.written) + PrintTable(ResolveTable(b.EnvOf(), t, |wheres|).value)
      decreases t, 1
    {
      status := Ok(());
      match t {
        case NoTable =>
          b.Quote(b.model.value.tableName);
        case Table(entity, alias) =>
          if entity !in b.registry {
            return Err(NoModel);
          }
          b.Quote(b.registry[entity].tableName);
          b.WriteAlias(alias);
        case Join(_, _, _, _, _) =>
          status := BuildJoin(t);
        case OtherTable =>
          status := Err(UnsupportedTable);
      }
    }

    method BuildJoin(t: TableRef) returns (status: Res<()>)
      requires b.Valid() && b.model.Some? && t.Join?
      modifies b
      ensures b.Valid() && b.model == old(b.model) && |old(b.written)| <= |b.written|
      ensures status == StatusOf(ResolveTable(b.EnvOf(), t, |wheres|))
      ensures status.Ok? ==> b.written == old(b.written) + PrintTable(ResolveTable(b.EnvOf(), t, |wheres|).value)
      decreases t, 0
    {
      ghost var env, start := b.EnvOf(), b.written;
      b.Write(LParen);
      status := BuildTable(t.left);
      if !status.Ok? {
        return;
      }
      b.Write(JoinWord(t.kind));
      status := BuildTable(t.right);
      if !status.Ok? {
        return;
      }
      ghost var l, r := ResolveTable(env, t.left, |wheres|).value, ResolveTable(env, t.right, |wheres|).value;
      assert b.written == start + [LParen] + PrintTable(l) + [JoinWord(t.kind)] + PrintTable(r);
      status := BuildJoinEnd(t, start, l, r);
    }

    method BuildJoinEnd(t: TableRef, ghost start: Tokens, ghost l: RTable, ghost r: RTable) returns (status: Res<()>)
      requires b.Valid() && b.model.Some? && t.Join?
      requires b.written == start + [LParen] + PrintTable(l) + [JoinWord(t.kind)] + PrintTable(r)
      modifies b
      ensures b.Valid() && b.model == old(b.model) && |old(b.written)| <= |b.written|
      ensures status == StatusOf(ResolveEnd(b.EnvOf(), t, |wheres|, l, r))
      ensures status.Ok? ==> b.written == start + PrintTable(ResolveEnd(b.EnvOf(), t, |wheres|, l, r).value)
    {
      ghost var env, mid := b.EnvOf(), b.written;
      status := b.BuildUsing(t.using);
      if !status.Ok? {
        return;
      }
      ghost var using := ResolveAll(env.own, t.using).value;
      assert b.written == mid + PrintUsing(using);
      status := BuildOn(t.on);
      if !status.Ok? {
        return;
      }
      b.Write(RParen);
      JoinText(start, mid, RJoin(l, t.kind, r, using, ResolveOn(env, t.on, |wheres|).value));
    }

    method BuildItem(c: Selectable) returns (status: Res<()>)
      requires b.Valid() && b.model.Some?
      modifies b
      ensures b.Valid() && b.model == old(b.model) && |old(b.written)| <= |b.written|
      ensures status == StatusOf(ResolveItem(b.EnvOf(), c))
      ensures status.Ok? ==> b.written == old(b.written) + PrintItem(ResolveItem(b.EnvOf(), c).value)
    {
      status := Ok(());
      match c {
        case SelColumn(column) =>
          var name := b.BuildColumn(column);
          status := StatusOf(name);
        case SelAggregate(_, _, _) =>
          status := BuildAggregate(c);
        case SelRaw(f, vals) =>
          b.WriteRaw(f, vals);
      }
    }

    method BuildAggregate(c: Selectable) returns (status: Res<()>)
      requires b.Valid() && b.model.Some? && c.SelAggregate?
      modifies b
      ensures b.Valid() && b.model == old(b.model) && |old(b.written)| <= |b.written|
      ensures status == StatusOf(ResolveItem(b.EnvOf(), c))
      ensures status.Ok? ==> b.written == old(b.written) + PrintItem(ResolveItem(b.EnvOf(), c).value)
    {
      b.Write(Fn(c.fn));
      b.Write(LParen);
      var name := b.BuildColumn(Column(OwnTable, c.arg, ""));
      b.Write(RParen);
      if !name.Ok? {
        return name.PropagateFailure();
      }
      ghost var call := [Fn(c.fn), LParen, Ident(name.value.column), RParen];
      assert b.written == old(b.written) + call;
      b.WriteAlias(c.alias);
      Regroup2(old(b.written), call, PrintAlias(c.alias));
      status := Ok(());
    }

    method BuildColumns() returns (status: Res<()>)
      requires b.Valid() && b.model.Some?
      modifies b
      ensures b.Valid() && b.model == old(b.model) && |old(b.written)| <= |b.written|
      ensures status == StatusOf(ResolveItems(b.EnvOf(), columns))
      ensures status.Ok? ==> b.written == old(b.written) + PrintItems(ResolveItems(b.EnvOf(), columns).value)
    {
      if |columns| == 0 {
        b.Write(Star);
        return Ok(());
      }
      ghost var env, start := b.EnvOf(), b.written;
      ghost var all := ResolveItems(env, columns);
      assert columns[0..] == columns;
      var i := 0;
      while i < |columns|
        invariant i <= |columns| && b.Valid() && b.model == old(b.model) && |old(b.written)| <= |b.written|
        invariant StatusOf(all) == StatusOf(ResolveItems(env, columns[i..]))
        invariant i < |columns| && all.Ok? ==> ResolveItems(env, columns[i..]).value != []
        invariant all.Ok? ==> start + PrintItems(all.value)
                              == b.written + RestOfItems(i, ResolveItems(env, columns[i..]).value)
      {
        NextItem(env, columns, i);
        ghost var before := b.written;
        status := BuildNthItem(i, columns[i]);
        if !status.Ok? {
          return;
        }
        if all.Ok? {
          RestOfItemsStep(before, i, ResolveItem(env, columns[i]).value, ResolveItems(env, columns[i + 1..]).value);
        }
        i := i + 1;
      }
      assert columns[i..] == [];
      status := Ok(());
    }

    method BuildNthItem(i: nat, c: Selectable) returns (status: Res<()>)
      requires b.Valid() && b.model.Some?
      modifies b
      ensures b.Valid() && b.model == old(b.model) && |old(b.written)| <= |b.written|
      ensures status == StatusOf(ResolveItem(b.EnvOf(), c))
      ensures status.Ok? ==>
                b.written == old(b.written) + ((if i > 0 then [Comma] else []) + PrintItem(ResolveItem(b.EnvOf(), c).value))
    {
      if i > 0 {
        b.Write(Comma);
      }
      status := BuildItem(c);
      if i > 0 && status.Ok? {
        Regroup2(old(b.written), [Comma], PrintItem(ResolveItem(b.EnvOf(), c).value));
      }
    }

    method BuildWhere() returns (status: Res<()>)
      requires b.Valid() && b.model.Some?
      modifies b
      ensures b.Valid() && b.model == old(b.model) && |old(b.written)| <= |b.written|
      ensures status == StatusOf(ResolveWhere(b.EnvOf(), wheres))
      ensures status.Ok? ==> b.written == old(b.written) + PrintWhere(ResolveWhere(b.EnvOf(), wheres).value)
    {
      status := Ok(());
      if |wheres| > 0 {
        b.Write(Kw(Where));
        var p := wheres[0];
        var i := 1;
        assert wheres[..1] == [wheres[0]];
        while i < |wheres|
          invariant 1 <= i <= |wheres| && p == FoldAnd(wheres[..i])
        {
          p := AndOf(p, wheres[i]);
          assert wheres[..i + 1][..i] == wheres[..i];
          i := i + 1;
        }
        assert wheres[..i] == wheres;
        status := BuildExpression(p);
        if status.Ok? {
          Regroup2(old(b.written), [Kw(Where)], Print(Resolve(b.EnvOf(), p).value));
        }
      }
    }

    /** The model a Build works with: the one already looked up, or the registry's for the entity. */
    ghost function Own(): Res<Model>
      reads this, b
    {
      if b.model.Some? then Ok(b.model.value) else ModelOf(Env(b.registry, Model("", [], map[])), entity)
    }

    /** What a Build is asked for. */
    ghost function Asked(): Res<RSelect>
      reads this, b
    {
      var own :- Own();
      ResolveSelect(Env(b.registry, own), columns, table, wheres)
    }

    /** What the caller means by it: every ON predicate at every join. */
    ghost function Intended(): Res<RSelect>
      reads this, b
    {
      var own :- Own();
      FullSelect(Env(b.registry, own), columns, table, wheres)
    }

    /**
      The statement is appended to whatever the buffer already holds.  For predicates and joins the API
      can build, binding and parsing the result gives a query, exactly the one asked for, if and only if
      the buffer was empty; a Build that fails after its model was found leaves it not empty.
     */
    method Build() returns (q: Res<Query>)
      requires b.Valid()
      modifies b
      ensures b.Valid()
      ensures StatusOf(q) == StatusOf(old(Asked()))
      ensures OnsComplete(table, |wheres|) ==> old(Asked()) == old(Intended())
      ensures b.model == if old(b.model).Some? then old(b.model)
                         else if entity in b.registry then Some(b.registry[entity]) else None
      ensures b.model.None? ==> q == Err(NoModel)
      ensures q.Ok? <==> b.model.Some? && exists meant :: SelectMeans(b.EnvOf(), columns, table, wheres, meant)
      ensures q.Ok? ==> SelectMeans(b.EnvOf(), columns, table, wheres, old(Asked()).value)
      ensures old(Own()).Ok? ==> b.written != []
      ensures q.Ok? ==>
                var all := old(b.written) + PrintSelect(old(Asked()).value);
                b.written == all && q.value == Query(Erase(all), Holes(all))
      ensures q.Ok? && old(b.written) != [] ==>
                forall args :: Bind(q.value.sql, args).Some? ==> ParseSelect(Bind(q.value.sql, args).value) == None
      ensures q.Ok? && old(b.written) == [] && SelectRawsFit(old(Asked()).value)
              && BuiltTable(table) && (forall i :: 0 <= i < |wheres| ==> Built(wheres[i]))
              ==> Marks(q.value.sql) == |q.value.args| && Bind(q.value.sql, q.value.args).Some?
                  && ParseSelect(Bind(q.value.sql, q.value.args).value) == Some(old(Asked()).value)
    {
      if b.model.None? {
        if entity !in b.registry {
          return Err(NoModel);
        }
        b.model := Some(b.registry[entity]);
      }
      ghost var env, start := b.EnvOf(), b.written;
      assert old(Asked()) == ResolveSelect(env, columns, table, wheres);
      SelectAgreesIff(env, columns, table, wheres);
      MeantIff(env);
      var status := BuildClauses();
      if !status.Ok? {
        return status.PropagateFailure();
      }
      q := Ok(Query(b.sb, b.args));
      ghost var x := ResolveSelect(env, columns, table, wheres).value;
      if start != [] {
        forall args | Bind(q.value.sql, args).Some?
          ensures ParseSelect(Bind(q.value.sql, args).value) == None
        {
          NoArgsMakeItAQuery(start, x, args);
        }
      } else if SelectRawsFit(x) && BuiltTable(table) && forall i :: 0 <= i < |wheres| ==> Built(wheres[i]) {
        assert [] + PrintSelect(x) == PrintSelect(x);
        BuiltSelectResolves(env, columns, table, wheres);
        TextMeansQuery(x);
      }
    }

    lemma MeantIff(env: Env)
      ensures ResolveSelect(env, columns, table, wheres).Ok?
         <==> exists meant :: SelectMeans(env, columns, table, wheres, meant)
      ensures ResolveSelect(env, columns, table, wheres).Ok?
              ==> SelectMeans(env, columns, table, wheres, ResolveSelect(env, columns, table, wheres).value)
    {
      if ResolveSelect(env, columns, table, wheres).Ok? {
        SelectIff(env, columns, table, wheres, ResolveSelect(env, columns, table, wheres).value);
      }
      if meant :| SelectMeans(env, columns, table, wheres, meant) {
        SelectIff(env, columns, table, wheres, meant);
      }
    }

    method BuildClauses() returns (status: Res<()>)
      requires b.Valid() && b.model.Some?
      modifies b
      ensures b.Valid() && b.model == old(b.model) && |old(b.written)| < |b.written|
      ensures status == StatusOf(ResolveSelect(b.EnvOf(), columns, table, wheres))
      ensures status.Ok? ==> b.written == old(b.written) + PrintSelect(ResolveSelect(b.EnvOf(), columns, table, wheres).value)
    {
      ghost var env, start := b.EnvOf(), b.written;
      b.Write(Kw(Select));
      status := BuildColumns();
      if !status.Ok? {
        return;
      }
      b.Write(Kw(From));
      ghost var items := ResolveItems(env, columns).value;
      status := BuildTableAndWhere(start, items);
    }

    method BuildTableAndWhere(ghost start: Tokens, ghost items: seq<RItem>) returns (status: Res<()>)
      requires b.Valid() && b.model.Some?
      requires b.written == start + [Kw(Select)] + PrintItems(items) + [Kw(From)]
      modifies b
      ensures b.Valid() && b.model == old(b.model) && |old(b.written)| <= |b.written|
      ensures status == StatusOf(ResolveFrom(b.EnvOf(), items, table, wheres))
      ensures status.Ok? ==> b.written == start + PrintSelect(ResolveFrom(b.EnvOf(), items, table, wheres).value)
    {
      ghost var env := b.EnvOf();
      status := BuildTable(table);
      if !status.Ok? {
        return;
      }
      status := BuildWhere();
      if !status.Ok? {
        return;
      }
      b.Write(Semi);
      SelectText(start, ResolveFrom(env, items, table, wheres).value);
    }
  }

  lemma NextItem(env: Env, items: seq<Selectable>, i: nat)
    requires i < |items|
    ensures var one, rest := ResolveItem(env, items[i]), ResolveItems(env, items[i + 1..]);
            ResolveItems(env, items[i..])
            == if !one.Ok? then one.PropagateFailure() else if !rest.Ok? then rest else Ok([one.value] + rest.value)
    ensures i + 1 < |items| && ResolveItems(env, items[i + 1..]).Ok? ==> ResolveItems(env, items[i + 1..]).value != []
  {
    assert items[i..][0] == items[i] && items[i..][1..] == items[i + 1..];
  }

  /** What is still to be written of the select list. */
  function RestOfItems(i: nat, rest: seq<RItem>): Tokens {
    if i == 0 then PrintItems(rest) else PrintMoreItems(rest)
  }

  lemma RestOfItemsStep(start: Tokens, i: nat, item: RItem, rest: seq<RItem>)
    ensures start + RestOfItems(i, [item] + rest)
         == start + ((if i > 0 then [Comma] else []) + PrintItem(item)) + RestOfItems(i + 1, rest)
  {
    assert ([item] + rest)[1..] == rest;
    if i > 0 {
      Regroup2(start, [Comma] + PrintItem(item), PrintMoreItems(rest));
    } else {
      assert [] + PrintItem(item) == PrintItem(item);
      Regroup2(start, PrintItem(item), PrintMoreItems(rest));
    }
  }

  lemma SelectText(start: Tokens, q: RSelect)
    ensures start + [Kw(Select)] + PrintItems(q.items) + [Kw(From)] + PrintTable(q.from) + PrintWhere(q.filter) + [Semi]
         == start + PrintSelect(q)
  {
    Prefix7(start, [], [Kw(Select)], PrintItems(q.items), [Kw(From)], PrintTable(q.from), PrintWhere(q.filter), [Semi]);
    assert start + [] == start;
    assert [] + [Kw(Select)] == [Kw(Select)];
  }

  lemma JoinText(start: Tokens, mid: Tokens, t: RTable)
    requires t.RJoin? && mid == start + [LParen] + PrintTable(t.left) + [JoinWord(t.kind)] + PrintTable(t.right)
    ensures mid + PrintUsing(t.using) + PrintOn(t.on) + [RParen] == start + PrintTable(t)
  {
    Prefix7(start, [LParen], PrintTable(t.left), [JoinWord(t.kind)], PrintTable(t.right), PrintUsing(t.using),
            PrintOn(t.on), [RParen]);
  }

  lemma PredicateText(start: Tokens, x: Rx)
    requires x.RPred?
    ensures start + PrintSide(x.left) + PrintOp(x.op) + PrintSide(x.right) == start + Print(x)
  {
    Regroup3(start, PrintSide(x.left), PrintOp(x.op), PrintSide(x.right));
    Regroup3(PrintSide(x.left), PrintOp(x.op), PrintSide(x.right), []);
  }

  lemma SideText(start: Tokens, x: Rx)
    requires x.RPred?
    ensures start + [LParen] + Print(x) + [RParen] == start + PrintSide(x)
  {
    Regroup3(start, [LParen], Print(x), [RParen]);
  }
}
