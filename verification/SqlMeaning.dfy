/** Three-valued logic, and what a WHERE clause selects. */
module SqlMeaning {
  import opened Wrappers
  import opened SqlAst
  import opened SqlText
  import opened SqlIntent
  import opened SqlParser

  datatype Truth = True | False | Unknown

  /** A row, and what the database makes of comparisons, raw fragments and values used as conditions. */
  datatype Database = Database(
    row: Name -> Value,
    raw: (Fragment, seq<Value>) -> Value,
    compare: (Op, Value, Value) -> Truth,
    truth: Value -> Truth,
    asValue: Truth -> Value)

  function Both(a: Truth, b: Truth): Truth {
    if a.False? || b.False? then False else if a.Unknown? || b.Unknown? then Unknown else True
  }

  function Either(a: Truth, b: Truth): Truth {
    if a.True? || b.True? then True else if a.Unknown? || b.Unknown? then Unknown else False
  }

  function Negate(a: Truth): Truth {
    match a case True => False case False => True case Unknown => Unknown
  }

  function ValueOf(db: Database, x: Rx): Value
    decreases x, 1
  {
    match x
    case RNil => Null
    case RCol(n) => db.row(n)
    case RRaw(f, args) => db.raw(f, args)
    case RVal(v) => v
    case RPred(_, _, _) => db.asValue(Holds(db, x))
  }

  function Holds(db: Database, x: Rx): Truth
    requires x.RPred?
    decreases x, 0
  {
    match x.op
    case NoOp => db.truth(ValueOf(db, x.left))
    case Not => Negate(Condition(db, x.right))
    case And => Both(Condition(db, x.left), Condition(db, x.right))
    case Or => Either(Condition(db, x.left), Condition(db, x.right))
    case op => db.compare(op, ValueOf(db, x.left), ValueOf(db, x.right))
  }

  function Condition(db: Database, x: Rx): Truth
    decreases x, 2
  {
    if x.RPred? then Holds(db, x) else db.truth(ValueOf(db, x))
  }

  /** The conjunction of a list: false if any is false, else unknown if any is unknown, else true. */
  ghost predicate IsConjunction(ts: seq<Truth>, t: Truth) {
    match t
    case False => False in ts
    case Unknown => False !in ts && Unknown in ts
    case True => False !in ts && Unknown !in ts
  }

  /** What each of the predicates given to `Where` says about the row. */
  function Verdicts(db: Database, env: Env, ps: seq<Expr>): (ts: seq<Truth>)
    requires forall i :: 0 <= i < |ps| ==> Resolve(env, ps[i]).Ok?
    ensures |ts| == |ps|
  {
    seq(|ps|, i requires 0 <= i < |ps| => Condition(db, Resolve(env, ps[i]).value))
  }

  lemma {:induction false} FoldResolves(env: Env, ps: seq<Expr>)
    requires ps != []
    ensures Resolve(env, FoldAnd(ps)).Ok? <==> forall i :: 0 <= i < |ps| ==> Resolve(env, ps[i]).Ok?
  {
    if |ps| > 1 {
      FoldResolves(env, ps[..|ps| - 1]);
    }
  }

  lemma {:induction false} FoldMeansConjunction(db: Database, env: Env, ps: seq<Expr>)
    requires ps != [] && forall i :: 0 <= i < |ps| ==> Resolve(env, ps[i]).Ok?
    ensures Resolve(env, FoldAnd(ps)).Ok?
    ensures IsConjunction(Verdicts(db, env, ps), Condition(db, Resolve(env, FoldAnd(ps)).value))
  {
    FoldResolves(env, ps);
    var last := |ps| - 1;
    var ts := Verdicts(db, env, ps);
    if last > 0 {
      var front := ps[..last];
      FoldMeansConjunction(db, env, front);
      var ts' := Verdicts(db, env, front);
      assert ts == ts' + [ts[last]];
      var x, y := Resolve(env, FoldAnd(front)).value, Resolve(env, ps[last]).value;
      assert Resolve(env, FoldAnd(ps)).value == RPred(x, And, y);
      assert Condition(db, RPred(x, And, y)) == Both(Condition(db, x), ts[last]);
      ConjunctionOfOneMore(ts', Condition(db, x), ts[last]);
    } else {
      assert ts == [Condition(db, Resolve(env, ps[0]).value)];
    }
  }

  lemma ConjunctionOfOneMore(ts: seq<Truth>, t: Truth, u: Truth)
    requires IsConjunction(ts, t)
    ensures IsConjunction(ts + [u], Both(t, u))
  {
  }

  lemma FilterIsFold(env: Env, items: seq<Selectable>, table: TableRef, wheres: seq<Expr>)
    requires wheres != [] && ResolveSelect(env, items, table, wheres).Ok?
    ensures Resolve(env, FoldAnd(wheres)).Ok?
    ensures ResolveSelect(env, items, table, wheres).value.filter == Some(Resolve(env, FoldAnd(wheres)).value)
  {
  }

  /**
    The WHERE text of a query, read by an SQL parser and evaluated in three-valued logic, is the
    conjunction of all predicates given to `Where`: precedence never changes what they mean.
   */
  lemma WhereMeansConjunction(db: Database, env: Env, items: seq<Selectable>, table: TableRef, wheres: seq<Expr>)
    requires BuiltTable(table) && wheres != [] && forall i :: 0 <= i < |wheres| ==> Built(wheres[i])
    requires ResolveSelect(env, items, table, wheres).Ok?
    ensures forall i :: 0 <= i < |wheres| ==> Resolve(env, wheres[i]).Ok?
    ensures var q := ParseSelect(PrintSelect(ResolveSelect(env, items, table, wheres).value));
            q.Some? && q.value.filter.Some?
            && IsConjunction(Verdicts(db, env, wheres), Condition(db, q.value.filter.value))
  {
    FilterIsFold(env, items, table, wheres);
    BuiltSelectResolves(env, items, table, wheres);
    SelectRoundTrip(ResolveSelect(env, items, table, wheres).value);
    FoldResolves(env, wheres);
    FoldMeansConjunction(db, env, wheres);
  }

  /** What each constructor of the API says of a row, in three-valued logic. */
  lemma ConstructorsMean(db: Database, env: Env, c: Column, n: Name, v: Value, x: Rx)
    requires ColumnMeans(env, c, n)
    ensures ExprMeans(env, EqTo(c, Val(v)), x) ==> Condition(db, x) == db.compare(Eq, db.row(n), v)
    ensures ExprMeans(env, LtVal(c, v), x) ==> Condition(db, x) == db.compare(Lt, db.row(n), v)
    ensures ExprMeans(env, GtVal(c, v), x) ==> Condition(db, x) == db.compare(Gt, db.row(n), v)
  {
    ColumnIff(env, c, n);
    if x.RPred? && x.left.RCol? {
      ColumnIff(env, c, x.left.name);
      assert ExprMeans(env, Col(c), x.left) ==> ValueOf(db, x.left) == db.row(n);
      assert ExprMeans(env, Val(v), x.right) ==> ValueOf(db, x.right) == v;
    } else {
      assert !ExprMeans(env, EqTo(c, Val(v)), x) && !ExprMeans(env, LtVal(c, v), x) && !ExprMeans(env, GtVal(c, v), x) by {
        assert x.RPred? ==> !ExprMeans(env, Col(c), x.left);
      }
    }
  }

  lemma ConnectivesMean(db: Database, env: Env, p: Expr, px: Rx, q: Expr, qx: Rx, x: Rx)
    requires ExprMeans(env, p, px) && ExprMeans(env, q, qx)
    ensures ExprMeans(env, NotOf(p), x) ==>
              && (Condition(db, x) == True <==> Condition(db, px) == False)
              && (Condition(db, x) == False <==> Condition(db, px) == True)
    ensures ExprMeans(env, AndOf(p, q), x) ==>
              && (Condition(db, x) == True <==> Condition(db, px) == True && Condition(db, qx) == True)
              && (Condition(db, x) == False <==> Condition(db, px) == False || Condition(db, qx) == False)
    ensures ExprMeans(env, OrOf(p, q), x) ==>
              && (Condition(db, x) == True <==> Condition(db, px) == True || Condition(db, qx) == True)
              && (Condition(db, x) == False <==> Condition(db, px) == False && Condition(db, qx) == False)
  {
    ExprIff(env, p, px);
    ExprIff(env, q, qx);
    if x.RPred? {
      ExprIff(env, p, x.left);
      ExprIff(env, p, x.right);
      ExprIff(env, q, x.right);
    }
  }

  lemma RawMeans(db: Database, env: Env, f: Fragment, args: seq<SqlAst.Value>, x: Rx)
    ensures ExprMeans(env, AsPredicate(f, args), x) ==> Condition(db, x) == db.truth(db.raw(f, args))
  {
    if x.RPred? {
      assert ExprMeans(env, Raw(f, args), x.left) ==> ValueOf(db, x.left) == db.raw(f, args);
    }
  }
}
