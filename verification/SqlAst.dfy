/** Query trees as the API builds them, and as they stand once their names are resolved. */
module SqlAst {
  import opened Wrappers

  /** What a database value can be; `any` on the Go side. */
  datatype Value = Null | Num(n: int) | Text(s: string)

  datatype Error = NoModel | UnknownField(name: string) | UnknownColumn(name: string)
                 | UnsupportedTable | UnsupportedExpression | UnsupportedAssignable | NoRows

  /** A result, an error the code returns, or an index out of range. */
  datatype Res<+T> = Ok(value: T) | Err(error: Error) | Panic {
    predicate IsFailure() { !Ok? }

    function PropagateFailure<U>(): Res<U>
      requires !Ok?
    {
      if Err? then Err(error) else Panic
    }

    function Extract(): T
      requires Ok?
    {
      value
    }
  }

  // ---- What the API builds ----

  datatype Op = Eq | Lt | Gt | Not | And | Or | NoOp

  /** The table a column was taken from: none given, a `Table`, or a reference columns do not support. */
  datatype ColumnTable = OwnTable | OfTable(entity: string, alias: string) | OtherReference

  /** An alias of "" is no alias. */
  datatype Column = Column(table: ColumnTable, name: string, alias: string)

  /** Raw SQL and how many placeholders its text has. */
  datatype Fragment = Fragment(text: string, marks: nat)

  datatype Expr =
    | Nil
    | Pred(left: Expr, op: Op, right: Expr)
    | Col(column: Column)
    | Raw(fragment: Fragment, args: seq<Value>)
    | Val(val: Value)
    | OtherExpr

  datatype JoinKind = InnerJoin | LeftJoin | RightJoin

  datatype TableRef =
    | NoTable
    | Table(entity: string, alias: string)
    | Join(left: TableRef, right: TableRef, kind: JoinKind, on: seq<Expr>, using: seq<string>)
    | OtherTable

  datatype Selectable =
    | SelColumn(column: Column)
    | SelAggregate(fn: string, arg: string, alias: string)
    | SelRaw(fragment: Fragment, args: seq<Value>)

  /** The table, the struct's fields in order, and the column of each. */
  datatype Model = Model(tableName: string, fields: seq<string>, fieldMap: map<string, string>)

  /** What the registry knows, by entity, and the selector's own model. */
  datatype Env = Env(registry: map<string, Model>, own: Model)

  function EqTo(c: Column, arg: Expr): Expr { Pred(Col(c), Eq, arg) }

  function LtVal(c: Column, v: Value): Expr { Pred(Col(c), Lt, Val(v)) }

  function GtVal(c: Column, v: Value): Expr { Pred(Col(c), Gt, Val(v)) }

  function NotOf(p: Expr): Expr { Pred(Nil, Not, p) }

  function AndOf(p: Expr, q: Expr): Expr { Pred(p, And, q) }

  function OrOf(p: Expr, q: Expr): Expr { Pred(p, Or, q) }

  function AsPredicate(f: Fragment, args: seq<Value>): Expr { Pred(Raw(f, args), NoOp, Nil) }

  /** The predicates that can be built with `Eq`, `Lt`, `Gt`, `Not`, `And`, `Or` and `AsPredicate`. */
  predicate Built(e: Expr) {
    e.Pred?
    && match e.op
       case NoOp => e.left.Raw? && e.right.Nil?
       case Not => e.left.Nil? && Built(e.right)
       case And => Built(e.left) && Built(e.right)
       case Or => Built(e.left) && Built(e.right)
       case Eq => e.left.Col? && (e.right.Col? || e.right.Raw? || e.right.Val? || e.right.OtherExpr? || Built(e.right))
       case _ => e.left.Col? && e.right.Val?
  }

  lemma ApiBuilds(c: Column, arg: Expr, v: Value, p: Expr, q: Expr, f: Fragment, args: seq<Value>)
    requires Built(p) && Built(q) && (arg.Col? || arg.Raw? || arg.Val? || arg.OtherExpr? || arg == p)
    ensures Built(EqTo(c, arg)) && Built(LtVal(c, v)) && Built(GtVal(c, v))
    ensures Built(NotOf(p)) && Built(AndOf(p, q)) && Built(OrOf(p, q)) && Built(AsPredicate(f, args))
  {
  }

  predicate BuiltTable(t: TableRef) {
    t.Join? ==> BuiltTable(t.left) && BuiltTable(t.right) && forall i :: 0 <= i < |t.on| ==> Built(t.on[i])
  }

  /** `p[0].And(p[1]).And(p[2])...` */
  function FoldAnd(ps: seq<Expr>): Expr
    requires ps != []
  {
    if |ps| == 1 then ps[0] else AndOf(FoldAnd(ps[..|ps| - 1]), ps[|ps| - 1])
  }

  // ---- Names resolved ----

  /** A qualifier of "" is no qualifier. */
  datatype Name = Name(qualifier: string, column: string)

  datatype Rx =
    | RNil
    | RPred(left: Rx, op: Op, right: Rx)
    | RCol(name: Name)
    | RRaw(fragment: Fragment, args: seq<Value>)
    | RVal(val: Value)

  datatype RTable =
    | RTab(name: string, alias: string)
    | RJoin(left: RTable, kind: JoinKind, right: RTable, using: seq<string>, on: Option<Rx>)

  datatype RItem =
    | ItemCol(name: Name, alias: string)
    | ItemFn(fn: string, column: string, alias: string)
    | ItemRaw(fragment: Fragment, args: seq<Value>)

  /** No items is `*`. */
  datatype RSelect = RSelect(items: seq<RItem>, from: RTable, filter: Option<Rx>)

  function FieldOf(m: Model, name: string): Res<string> {
    if name in m.fieldMap then Ok(m.fieldMap[name]) else Err(UnknownField(name))
  }

  function ModelOf(env: Env, entity: string): Res<Model> {
    if entity in env.registry then Ok(env.registry[entity]) else Err(NoModel)
  }

  function ResolveColumn(env: Env, c: Column): Res<Name> {
    match c.table
    case OwnTable =>
      var col :- FieldOf(env.own, c.name);
      Ok(Name("", col))
    case OfTable(entity, alias) =>
      var m :- ModelOf(env, entity);
      var col :- FieldOf(m, c.name);
      Ok(Name(alias, col))
    case OtherReference => Err(UnsupportedTable)
  }

  function Resolve(env: Env, e: Expr): Res<Rx> {
    match e
    case Nil => Ok(RNil)
    case Pred(l, op, r) =>
      var left :- Resolve(env, l);
      var right :- Resolve(env, r);
      Ok(RPred(left, op, right))
    case Col(c) =>
      var name :- ResolveColumn(env, c);
      Ok(RCol(name))
    case Raw(f, args) => Ok(RRaw(f, args))
    case Val(v) => Ok(RVal(v))
    case OtherExpr => Err(UnsupportedExpression)
  }

  function ResolveAll(m: Model, names: seq<string>): Res<seq<string>> {
    if names == [] then Ok([])
    else
      var first :- FieldOf(m, names[0]);
      var rest :- ResolveAll(m, names[1..]);
      Ok([first] + rest)
  }

  /**
    The ON predicate the code arrives at: its loop runs to the number of WHERE predicates instead of the
    number of ON predicates.
   */
  function OnPredicate(on: seq<Expr>, wheres: nat): Res<Expr>
    requires on != []
  {
    if wheres <= 1 then Ok(on[0])
    else if wheres > |on| then Panic
    else Ok(FoldAnd(on[..wheres]))
  }

  function ResolveOn(env: Env, on: seq<Expr>, wheres: nat): Res<Option<Rx>> {
    if on == [] then Ok(None)
    else
      var p :- OnPredicate(on, wheres);
      var x :- Resolve(env, p);
      Ok(Some(x))
  }

  /** USING and ON, once both sides of the join are there. */
  function ResolveEnd(env: Env, t: TableRef, wheres: nat, left: RTable, right: RTable): Res<RTable>
    requires t.Join?
  {
    var cols :- ResolveAll(env.own, t.using);
    var on :- ResolveOn(env, t.on, wheres);
    Ok(RJoin(left, t.kind, right, cols, on))
  }

  function ResolveTable(env: Env, t: TableRef, wheres: nat): Res<RTable> {
    match t
    case NoTable => Ok(RTab(env.own.tableName, ""))
    case Table(entity, alias) =>
      var m :- ModelOf(env, entity);
      Ok(RTab(m.tableName, alias))
    case Join(l, r, _, _, _) =>
      var left :- ResolveTable(env, l, wheres);
      var right :- ResolveTable(env, r, wheres);
      ResolveEnd(env, t, wheres, left, right)
    case OtherTable => Err(UnsupportedTable)
  }

  function ResolveItem(env: Env, s: Selectable): Res<RItem> {
    match s
    case SelColumn(c) =>
      var name :- ResolveColumn(env, c);
      Ok(ItemCol(name, c.alias))
    case SelAggregate(fn, arg, alias) =>
      var col :- FieldOf(env.own, arg);
      Ok(ItemFn(fn, col, alias))
    case SelRaw(f, args) => Ok(ItemRaw(f, args))
  }

  function ResolveItems(env: Env, items: seq<Selectable>): Res<seq<RItem>> {
    if items == [] then Ok([])
    else
      var first :- ResolveItem(env, items[0]);
      var rest :- ResolveItems(env, items[1..]);
      Ok([first] + rest)
  }

  function ResolveWhere(env: Env, wheres: seq<Expr>): Res<Option<Rx>> {
    if wheres == [] then Ok(None)
    else
      var x :- Resolve(env, FoldAnd(wheres));
      Ok(Some(x))
  }

  function ResolveSelect(env: Env, items: seq<Selectable>, table: TableRef, wheres: seq<Expr>): Res<RSelect> {
    var cols :- ResolveItems(env, items);
    ResolveFrom(env, cols, table, wheres)
  }

  /** FROM and WHERE, once the select list is there. */
  function ResolveFrom(env: Env, items: seq<RItem>, table: TableRef, wheres: seq<Expr>): Res<RSelect> {
    var from :- ResolveTable(env, table, |wheres|);
    var filter :- ResolveWhere(env, wheres);
    Ok(RSelect(items, from, filter))
  }

  // ---- Shapes ----

  predicate ApiPred(x: Rx) {
    x.RPred?
    && match x.op
       case NoOp => x.left.RRaw? && x.right.RNil?
       case Not => x.left.RNil? && ApiPred(x.right)
       case And => ApiPred(x.left) && ApiPred(x.right)
       case Or => ApiPred(x.left) && ApiPred(x.right)
       case Eq => x.left.RCol? && (x.right.RCol? || x.right.RRaw? || x.right.RVal? || ApiPred(x.right))
       case _ => x.left.RCol? && x.right.RVal?
  }

  predicate ApiTable(t: RTable) {
    t.RJoin? ==> ApiTable(t.left) && ApiTable(t.right) && (t.on.Some? ==> ApiPred(t.on.value))
  }

  predicate ApiSelect(q: RSelect) {
    ApiTable(q.from) && (q.filter.Some? ==> ApiPred(q.filter.value))
  }

  lemma {:induction false} BuiltResolves(env: Env, e: Expr)
    requires Built(e) && Resolve(env, e).Ok?
    ensures ApiPred(Resolve(env, e).value)
  {
    match e.op {
      case NoOp =>
      case Not => BuiltResolves(env, e.right);
      case And =>
        BuiltResolves(env, e.left);
        BuiltResolves(env, e.right);
      case Or =>
        BuiltResolves(env, e.left);
        BuiltResolves(env, e.right);
      case Eq =>
        if e.right.Pred? {
          BuiltResolves(env, e.right);
        }
      case _ =>
    }
  }

  lemma {:induction false} FoldIsBuilt(ps: seq<Expr>)
    requires ps != [] && forall i :: 0 <= i < |ps| ==> Built(ps[i])
    ensures Built(FoldAnd(ps))
  {
    if |ps| > 1 {
      FoldIsBuilt(ps[..|ps| - 1]);
    }
  }

  lemma {:induction false} BuiltTableResolves(env: Env, t: TableRef, wheres: nat)
    requires BuiltTable(t) && ResolveTable(env, t, wheres).Ok?
    ensures ApiTable(ResolveTable(env, t, wheres).value)
  {
    if t.Join? {
      BuiltTableResolves(env, t.left, wheres);
      BuiltTableResolves(env, t.right, wheres);
      if t.on != [] {
        var p := OnPredicate(t.on, wheres).value;
        if wheres > 1 {
          FoldIsBuilt(t.on[..wheres]);
        }
        BuiltResolves(env, p);
      }
    }
  }

  lemma BuiltSelectResolves(env: Env, items: seq<Selectable>, table: TableRef, wheres: seq<Expr>)
    requires BuiltTable(table) && (forall i :: 0 <= i < |wheres| ==> Built(wheres[i]))
    requires ResolveSelect(env, items, table, wheres).Ok?
    ensures ApiSelect(ResolveSelect(env, items, table, wheres).value)
  {
    BuiltTableResolves(env, table, |wheres|);
    if wheres != [] {
      FoldIsBuilt(wheres);
      BuiltResolves(env, FoldAnd(wheres));
    }
  }

  // ---- The ON loop ----

  function Size(e: Expr): nat {
    match e
    case Pred(l, _, r) => 1 + Size(l) + Size(r)
    case _ => 0
  }

  lemma {:induction false} FoldGrows(ps: seq<Expr>, k: nat)
    requires 0 < k <= |ps|
    ensures Size(FoldAnd(ps[..k])) + (|ps| - k) <= Size(FoldAnd(ps))
    decreases |ps| - k
  {
    if k < |ps| {
      FoldGrows(ps, k + 1);
      assert ps[..k + 1][..k] == ps[..k];
    } else {
      assert ps[..k] == ps;
    }
  }

  /** The text carries every ON predicate exactly when there are as many of them as WHERE predicates (or one and none). */
  lemma OnIsCompleteIff(on: seq<Expr>, wheres: nat)
    requires on != []
    ensures OnPredicate(on, wheres) == Ok(FoldAnd(on)) <==> |on| == if wheres == 0 then 1 else wheres
  {
    if wheres <= 1 {
      FoldGrows(on, 1);
      assert on[..1] == [on[0]];
    } else if wheres <= |on| {
      FoldGrows(on, wheres);
      assert wheres == |on| ==> on[..wheres] == on;
    }
  }

  // ---- What the caller means: every ON predicate at every join ----

  function FullOn(env: Env, on: seq<Expr>): Res<Option<Rx>> {
    if on == [] then Ok(None)
    else
      var x :- Resolve(env, FoldAnd(on));
      Ok(Some(x))
  }

  function FullEnd(env: Env, t: TableRef, left: RTable, right: RTable): Res<RTable>
    requires t.Join?
  {
    var cols :- ResolveAll(env.own, t.using);
    var on :- FullOn(env, t.on);
    Ok(RJoin(left, t.kind, right, cols, on))
  }

  function FullTable(env: Env, t: TableRef): Res<RTable> {
    match t
    case Join(l, r, _, _, _) =>
      var left :- FullTable(env, l);
      var right :- FullTable(env, r);
      FullEnd(env, t, left, right)
    case _ => ResolveTable(env, t, 0)
  }

  function FullSelect(env: Env, items: seq<Selectable>, table: TableRef, wheres: seq<Expr>): Res<RSelect> {
    var cols :- ResolveItems(env, items);
    var from :- FullTable(env, table);
    var filter :- ResolveWhere(env, wheres);
    Ok(RSelect(cols, from, filter))
  }

  /** At every join there are as many ON predicates as WHERE predicates, or one and none, or no ON at all. */
  predicate OnsComplete(t: TableRef, wheres: nat) {
    t.Join? ==>
      && OnsComplete(t.left, wheres) && OnsComplete(t.right, wheres)
      && (t.on != [] ==> |t.on| == if wheres == 0 then 1 else wheres)
  }

  function RSize(x: Rx): nat {
    match x
    case RPred(l, _, r) => 1 + RSize(l) + RSize(r)
    case _ => 0
  }

  lemma {:induction false} ResolvedSize(env: Env, e: Expr)
    requires Resolve(env, e).Ok?
    ensures RSize(Resolve(env, e).value) == Size(e)
  {
    if e.Pred? {
      ResolvedSize(env, e.left);
      ResolvedSize(env, e.right);
    }
  }

  lemma OnAgreesIff(env: Env, on: seq<Expr>, wheres: nat)
    requires on != []
    ensures |on| == (if wheres == 0 then 1 else wheres) ==> ResolveOn(env, on, wheres) == FullOn(env, on)
    ensures FullOn(env, on).Ok? && ResolveOn(env, on, wheres) == FullOn(env, on)
            ==> |on| == if wheres == 0 then 1 else wheres
  {
    OnIsCompleteIff(on, wheres);
    if FullOn(env, on).Ok? && ResolveOn(env, on, wheres) == FullOn(env, on) {
      var p := OnPredicate(on, wheres).value;
      ResolvedSize(env, FoldAnd(on));
      ResolvedSize(env, p);
      FoldGrows(on, if wheres <= 1 then 1 else wheres);
      assert on[..1] == [on[0]];
    }
  }

  lemma {:induction false} TableAgreesIff(env: Env, t: TableRef, wheres: nat)
    ensures OnsComplete(t, wheres) ==> ResolveTable(env, t, wheres) == FullTable(env, t)
    ensures FullTable(env, t).Ok? && ResolveTable(env, t, wheres) == FullTable(env, t) ==> OnsComplete(t, wheres)
  {
    if t.Join? {
      TableAgreesIff(env, t.left, wheres);
      TableAgreesIff(env, t.right, wheres);
      if t.on != [] {
        OnAgreesIff(env, t.on, wheres);
      }
    }
  }

  /** The query the code builds is the one the caller means exactly when no join's ON list is cut short or overrun. */
  lemma SelectAgreesIff(env: Env, items: seq<Selectable>, table: TableRef, wheres: seq<Expr>)
    ensures OnsComplete(table, |wheres|) ==> ResolveSelect(env, items, table, wheres) == FullSelect(env, items, table, wheres)
    ensures FullSelect(env, items, table, wheres).Ok?
            ==> (ResolveSelect(env, items, table, wheres) == FullSelect(env, items, table, wheres)
                 <==> OnsComplete(table, |wheres|))
  {
    TableAgreesIff(env, table, |wheres|);
  }
}
