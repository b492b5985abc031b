/**
  What a query tree of the API says, as a relation to the tree a database reads: which column of which
  table each name stands for, and where every alias, operator, value and argument goes.
 */
module SqlIntent {
  import opened Wrappers
  import opened SqlAst

  /** A column of a table is qualified by the table's alias; any other is the selector's own, and bare. */
  predicate ColumnMeans(env: Env, c: Column, n: Name) {
    match c.table
    case OwnTable => n.qualifier == "" && c.name in env.own.fieldMap && n.column == env.own.fieldMap[c.name]
    case OfTable(entity, alias) =>
      n.qualifier == alias && entity in env.registry
      && c.name in env.registry[entity].fieldMap && n.column == env.registry[entity].fieldMap[c.name]
    case OtherReference => false
  }

  predicate ExprMeans(env: Env, e: Expr, x: Rx) {
    match e
    case Nil => x.RNil?
    case Pred(l, op, r) => x.RPred? && x.op == op && ExprMeans(env, l, x.left) && ExprMeans(env, r, x.right)
    case Col(c) => x.RCol? && ColumnMeans(env, c, x.name)
    case Raw(f, args) => x.RRaw? && x.fragment == f && x.args == args
    case Val(v) => x.RVal? && x.val == v
    case OtherExpr => false
  }

  /** All of them, joined by AND from the left. */
  predicate AllMean(env: Env, ps: seq<Expr>, x: Rx)
    requires ps != []
  {
    var n := |ps| - 1;
    if n == 0 then ExprMeans(env, ps[0], x)
    else x.RPred? && x.op == And && AllMean(env, ps[..n], x.left) && ExprMeans(env, ps[n], x.right)
  }

  predicate ConditionMeans(env: Env, ps: seq<Expr>, x: Option<Rx>) {
    if ps == [] then x == None else x.Some? && AllMean(env, ps, x.value)
  }

  predicate NamesMean(m: Model, names: seq<string>, cols: seq<string>) {
    |cols| == |names| && forall i :: 0 <= i < |names| ==> names[i] in m.fieldMap && cols[i] == m.fieldMap[names[i]]
  }

  /** Of a join's ON predicates as many are written as there are WHERE predicates, and at least one. */
  predicate OnMeans(env: Env, on: seq<Expr>, wheres: nat, x: Option<Rx>) {
    if on == [] then x == None
    else
      var n := if wheres > 1 then wheres else 1;
      n <= |on| && ConditionMeans(env, on[..n], x)
  }

  predicate TableMeans(env: Env, t: TableRef, wheres: nat, rt: RTable) {
    match t
    case NoTable => rt.RTab? && rt.name == env.own.tableName && rt.alias == ""
    case Table(entity, alias) =>
      rt.RTab? && entity in env.registry && rt.name == env.registry[entity].tableName && rt.alias == alias
    case Join(l, r, kind, on, using) =>
      rt.RJoin? && rt.kind == kind && TableMeans(env, l, wheres, rt.left) && TableMeans(env, r, wheres, rt.right)
      && NamesMean(env.own, using, rt.using) && OnMeans(env, on, wheres, rt.on)
    case OtherTable => false
  }

  predicate ItemMeans(env: Env, s: Selectable, i: RItem) {
    match s
    case SelColumn(c) => i.ItemCol? && ColumnMeans(env, c, i.name) && i.alias == c.alias
    case SelAggregate(fn, arg, alias) =>
      i.ItemFn? && i.fn == fn && arg in env.own.fieldMap && i.column == env.own.fieldMap[arg] && i.alias == alias
    case SelRaw(f, args) => i.ItemRaw? && i.fragment == f && i.args == args
  }

  predicate ItemsMean(env: Env, items: seq<Selectable>, rs: seq<RItem>) {
    |rs| == |items| && forall i :: 0 <= i < |items| ==> ItemMeans(env, items[i], rs[i])
  }

  predicate SelectMeans(env: Env, items: seq<Selectable>, table: TableRef, wheres: seq<Expr>, q: RSelect) {
    ItemsMean(env, items, q.items) && TableMeans(env, table, |wheres|, q.from) && ConditionMeans(env, wheres, q.filter)
  }

  // ---- Resolving does exactly that, and fails exactly when nothing is meant ----

  lemma ColumnIff(env: Env, c: Column, n: Name)
    ensures ColumnMeans(env, c, n) <==> ResolveColumn(env, c) == Ok(n)
  {
  }

  lemma {:induction false} ExprIff(env: Env, e: Expr, x: Rx)
    ensures ExprMeans(env, e, x) <==> Resolve(env, e) == Ok(x)
  {
    match e {
      case Pred(l, op, r) =>
        if x.RPred? {
          ExprIff(env, l, x.left);
          ExprIff(env, r, x.right);
        }
      case Col(c) =>
        if x.RCol? {
          ColumnIff(env, c, x.name);
        }
      case _ =>
    }
  }

  lemma {:induction false} AllIff(env: Env, ps: seq<Expr>, x: Rx)
    requires ps != []
    ensures AllMean(env, ps, x) <==> Resolve(env, FoldAnd(ps)) == Ok(x)
  {
    var n := |ps| - 1;
    ExprIff(env, ps[n], if n > 0 && x.RPred? then x.right else x);
    if n > 0 && x.RPred? {
      AllIff(env, ps[..n], x.left);
    }
  }

  lemma ConditionIff(env: Env, ps: seq<Expr>, x: Option<Rx>)
    ensures ConditionMeans(env, ps, x) <==> ResolveWhere(env, ps) == Ok(x)
  {
    if ps != [] && x.Some? {
      AllIff(env, ps, x.value);
    }
  }

  lemma OnIff(env: Env, on: seq<Expr>, wheres: nat, x: Option<Rx>)
    ensures OnMeans(env, on, wheres, x) <==> ResolveOn(env, on, wheres) == Ok(x)
  {
    var n := if wheres > 1 then wheres else 1;
    if on != [] && n <= |on| {
      ConditionIff(env, on[..n], x);
      assert wheres <= 1 ==> on[..n] == [on[0]];
    }
  }

  lemma {:induction false} NamesIff(m: Model, names: seq<string>, cols: seq<string>)
    ensures NamesMean(m, names, cols) <==> ResolveAll(m, names) == Ok(cols)
  {
    if names != [] && cols != [] {
      NamesIff(m, names[1..], cols[1..]);
      assert cols == [cols[0]] + cols[1..] && names == [names[0]] + names[1..];
    } else if names != [] && ResolveAll(m, names).Ok? {
      assert |ResolveAll(m, names).value| > 0;
    }
  }

  lemma {:induction false} TableIff(env: Env, t: TableRef, wheres: nat, rt: RTable)
    ensures TableMeans(env, t, wheres, rt) <==> ResolveTable(env, t, wheres) == Ok(rt)
  {
    if t.Join? && rt.RJoin? {
      TableIff(env, t.left, wheres, rt.left);
      TableIff(env, t.right, wheres, rt.right);
      NamesIff(env.own, t.using, rt.using);
      OnIff(env, t.on, wheres, rt.on);
    }
  }

  lemma ItemIff(env: Env, s: Selectable, i: RItem)
    ensures ItemMeans(env, s, i) <==> ResolveItem(env, s) == Ok(i)
  {
    if s.SelColumn? && i.ItemCol? {
      ColumnIff(env, s.column, i.name);
    }
  }

  lemma {:induction false} ItemsIff(env: Env, items: seq<Selectable>, rs: seq<RItem>)
    ensures ItemsMean(env, items, rs) <==> ResolveItems(env, items) == Ok(rs)
  {
    if items != [] && rs != [] {
      ItemIff(env, items[0], rs[0]);
      ItemsIff(env, items[1..], rs[1..]);
      assert rs == [rs[0]] + rs[1..] && items == [items[0]] + items[1..];
    } else if items != [] && ResolveItems(env, items).Ok? {
      assert |ResolveItems(env, items).value| > 0;
    }
  }

  /** The query that is built is the one that is meant, down to every name; and there is none exactly when Build fails. */
  lemma SelectIff(env: Env, items: seq<Selectable>, table: TableRef, wheres: seq<Expr>, q: RSelect)
    ensures SelectMeans(env, items, table, wheres, q) <==> ResolveSelect(env, items, table, wheres) == Ok(q)
  {
    ItemsIff(env, items, q.items);
    TableIff(env, table, |wheres|, q.from);
    ConditionIff(env, wheres, q.filter);
  }

  /** Which error a column is refused with. */
  lemma ColumnErrors(env: Env, c: Column)
    ensures c.table.OtherReference? ==> ResolveColumn(env, c) == Err(UnsupportedTable)
    ensures c.table.OwnTable? && c.name !in env.own.fieldMap ==> ResolveColumn(env, c) == Err(UnknownField(c.name))
    ensures c.table.OfTable? && c.table.entity !in env.registry ==> ResolveColumn(env, c) == Err(NoModel)
    ensures c.table.OfTable? && c.table.entity in env.registry && c.name !in env.registry[c.table.entity].fieldMap
            ==> ResolveColumn(env, c) == Err(UnknownField(c.name))
  {
  }

  /** A predicate is refused with the error of its first bad operand, from the left. */
  lemma {:induction false} ExprErrors(env: Env, e: Expr)
    ensures !Resolve(env, e).Panic? && (Resolve(env, e).Err? <==> FirstBad(env, e).Some?)
    ensures Resolve(env, e).Err? ==> Resolve(env, e).error == FirstBad(env, e).value
  {
    if e.Pred? {
      ExprErrors(env, e.left);
      ExprErrors(env, e.right);
    } else if e.Col? {
      ColumnErrors(env, e.column);
    }
  }

  function Complaint(env: Env, e: Expr): Option<Error> {
    match e
    case OtherExpr => Some(UnsupportedExpression)
    case Col(c) =>
      (match c.table
       case OtherReference => Some(UnsupportedTable)
       case OwnTable => if c.name in env.own.fieldMap then None else Some(UnknownField(c.name))
       case OfTable(entity, _) =>
         if entity !in env.registry then Some(NoModel)
         else if c.name in env.registry[entity].fieldMap then None else Some(UnknownField(c.name)))
    case _ => None
  }

  /** The complaint about the leftmost operand there is one about. */
  function FirstBad(env: Env, e: Expr): Option<Error> {
    if e.Pred? then (if FirstBad(env, e.left).Some? then FirstBad(env, e.left) else FirstBad(env, e.right))
    else Complaint(env, e)
  }

  /** So no tree is read in two ways. */
  lemma OneMeaning(env: Env, items: seq<Selectable>, table: TableRef, wheres: seq<Expr>, q: RSelect, q': RSelect)
    requires SelectMeans(env, items, table, wheres, q) && SelectMeans(env, items, table, wheres, q')
    ensures q == q'
  {
    SelectIff(env, items, table, wheres, q);
    SelectIff(env, items, table, wheres, q');
  }
}
