/** Statements token by token, as the repository's own examples spell them, for any names and values. */
module SqlSamples {
  import opened Wrappers
  import opened SqlAst
  import opened SqlText
  import opened SqlInsertText

  /** `(order AS t1 JOIN order_detail AS t2 ON t1.id = t2.order_id)` */
  lemma JoinText(order: string, t1: string, id: string, detail: string, t2: string, orderId: string)
    requires t1 != "" && t2 != ""
    ensures var on := RPred(RCol(Name(t1, id)), Eq, RCol(Name(t2, orderId)));
            PrintTable(RJoin(RTab(order, t1), InnerJoin, RTab(detail, t2), [], Some(on)))
            == [LParen, Ident(order), Kw(As), Ident(t1), JoinWord(InnerJoin), Ident(detail), Kw(As), Ident(t2),
                Kw(On), Ident(t1), Dot, Ident(id), Operator(Eq), Ident(t2), Dot, Ident(orderId), RParen]
  {
    OnText(t1, id, t2, orderId);
    TableText(order, t1);
    TableText(detail, t2);
  }

  lemma TableText(name: string, alias: string)
    requires alias != ""
    ensures PrintTable(RTab(name, alias)) == [Ident(name), Kw(As), Ident(alias)]
  {
  }

  lemma OnText(t1: string, id: string, t2: string, orderId: string)
    requires t1 != "" && t2 != ""
    ensures Print(RPred(RCol(Name(t1, id)), Eq, RCol(Name(t2, orderId))))
         == [Ident(t1), Dot, Ident(id), Operator(Eq), Ident(t2), Dot, Ident(orderId)]
  {
    var x := RPred(RCol(Name(t1, id)), Eq, RCol(Name(t2, orderId)));
    assert Print(x.left) == [Ident(t1), Dot, Ident(id)] && Print(x.right) == [Ident(t2), Dot, Ident(orderId)];
  }

  /** `col AS a,FN(arg) AS b` */
  lemma ItemsText(col: string, a: string, fn: string, arg: string, b: string)
    requires a != "" && b != ""
    ensures PrintItems([ItemCol(Name("", col), a), ItemFn(fn, arg, b)])
         == [Ident(col), Kw(As), Ident(a), Comma, Fn(fn), LParen, Ident(arg), RParen, Kw(As), Ident(b)]
  {
    var i, j := ItemCol(Name("", col), a), ItemFn(fn, arg, b);
    assert PrintItem(i) == [Ident(col), Kw(As), Ident(a)];
    assert PrintItem(j) == [Fn(fn), LParen, Ident(arg), RParen, Kw(As), Ident(b)];
    assert [i, j][1..] == [j] && [j][1..] == [];
    assert PrintMoreItems([j]) == [Comma] + PrintItem(j) + [];
  }

  /** `(x<?) AND (NOT (y>?))` */
  lemma ConditionText(x: string, v: Value, y: string, w: Value)
    ensures var lt, gt := RPred(RCol(Name("", x)), Lt, RVal(v)), RPred(RCol(Name("", y)), Gt, RVal(w));
            Print(RPred(lt, And, RPred(RNil, Not, gt)))
            == [LParen, Ident(x), Operator(Lt), Mark([v]), RParen, Operator(And),
                LParen, Operator(Not), LParen, Ident(y), Operator(Gt), Mark([w]), RParen, RParen]
  {
    var lt, gt := RPred(RCol(Name("", x)), Lt, RVal(v)), RPred(RCol(Name("", y)), Gt, RVal(w));
    CompareText(x, Lt, v);
    CompareText(y, Gt, w);
    var not := RPred(RNil, Not, gt);
    assert Print(not) == [] + [Operator(Not)] + ([LParen] + Print(gt) + [RParen]);
    assert Print(RPred(lt, And, not)) == ([LParen] + Print(lt) + [RParen]) + [Operator(And)] + ([LParen] + Print(not) + [RParen]);
  }

  /** `SELECT ... FROM t WHERE ...;` */
  lemma SelectText(items: seq<RItem>, t: string, filter: Rx)
    ensures PrintSelect(RSelect(items, RTab(t, ""), Some(filter)))
         == [Kw(Select)] + PrintItems(items) + [Kw(From), Ident(t), Kw(Where)] + Print(filter) + [Semi]
  {
    assert PrintTable(RTab(t, "")) == [Ident(t)];
  }

  lemma CompareText(x: string, op: Op, v: Value)
    requires op.Lt? || op.Gt?
    ensures Print(RPred(RCol(Name("", x)), op, RVal(v))) == [Ident(x), Operator(op), Mark([v])]
  {
    var p := RPred(RCol(Name("", x)), op, RVal(v));
    assert Print(p.left) == [Ident(x)] && Print(p.right) == [Mark([v])];
  }

  /** `INSERT INTO t(a,b) VALUES (?,?),(?,?);` */
  lemma InsertText(t: string, a: string, b: string, u: Value, v: Value, w: Value, x: Value)
    ensures PrintInsert(RInsert(t, [a, b], [[u, v], [w, x]], None))
         == [Kw(Insert), Ident(t), LParen, Ident(a), Comma, Ident(b), RParen, Kw(Values),
             LParen, Mark([u]), Comma, Mark([v]), RParen, Comma, LParen, Mark([w]), Comma, Mark([x]), RParen, Semi]
  {
    HeadText(t, a, b);
    RowText(u, v);
    RowText(w, x);
    TwoJoined(PrintRow([u, v]), PrintRow([w, x]));
    assert RowParts([[u, v], [w, x]]) == [PrintRow([u, v]), PrintRow([w, x])];
  }

  lemma HeadText(t: string, a: string, b: string)
    ensures InsertHead(t, [a, b]) == [Kw(Insert), Ident(t), LParen, Ident(a), Comma, Ident(b), RParen, Kw(Values)]
  {
    TwoJoined([Ident(a)], [Ident(b)]);
    assert NameParts([a, b]) == [[Ident(a)], [Ident(b)]];
  }

  lemma RowText(u: Value, v: Value)
    ensures PrintRow([u, v]) == [LParen, Mark([u]), Comma, Mark([v]), RParen]
  {
    TwoJoined([Mark([u])], [Mark([v])]);
    assert MarkParts([u, v]) == [[Mark([u])], [Mark([v])]];
  }

  lemma TwoJoined(p: Tokens, q: Tokens)
    ensures Joined([p, q]) == p + [Comma] + q
  {
    assert [p, q][..1] == [p];
  }

  /** ` ON DUPLICATE KEY UPDATE a=?,b=VALUES(b)` */
  lemma MySQLUpsertText(a: string, v: Value, b: string)
    ensures PrintUpsert(RUpsert(MySQL, [], [SetValue(a, v), SetColumn(b)]))
         == [Kw(OnDuplicate), Ident(a), Assign, Mark([v]), Comma, Ident(b), Assign, Fn("VALUES"), LParen, Ident(b), RParen]
  {
    var x, y := SetValue(a, v), SetColumn(b);
    TwoJoined(PrintAssign(MySQL, x), PrintAssign(MySQL, y));
    assert AssignParts(MySQL, [x, y]) == [PrintAssign(MySQL, x), PrintAssign(MySQL, y)];
  }

  /** `ON CONFLICT(c) DO UPDATE SET a=?,b=excluded.b` */
  lemma SQLiteUpsertText(c: string, a: string, v: Value, b: string)
    ensures PrintUpsert(RUpsert(SQLite, [c], [SetValue(a, v), SetColumn(b)]))
         == [Kw(OnConflict), LParen, Ident(c), RParen, Kw(DoUpdate),
             Ident(a), Assign, Mark([v]), Comma, Ident(b), Assign, Bare("excluded"), Dot, Ident(b)]
  {
    var x, y := SetValue(a, v), SetColumn(b);
    TwoJoined(PrintAssign(SQLite, x), PrintAssign(SQLite, y));
    assert AssignParts(SQLite, [x, y]) == [PrintAssign(SQLite, x), PrintAssign(SQLite, y)];
    assert [c][1..] == [];
    assert UpsertHead(SQLite, [c]) == [Kw(OnConflict), LParen, Ident(c), RParen, Kw(DoUpdate)];
  }
}
