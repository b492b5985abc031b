/**
  What the text means: a recursive-descent SQL parser with the usual precedence
  (comparison over NOT over AND over OR, left to right), and the proof that it reads every printed query back.
 */
module SqlParser {
  import opened Wrappers
  import opened SqlAst
  import opened SqlText

  type Parse<T> = Option<(T, Tokens)>

  predicate StartsWith(ts: Tokens, t: Token) {
    ts != [] && ts[0] == t
  }

  predicate Comparison(ts: Tokens) {
    ts != [] && ts[0].Operator? && (ts[0].op.Eq? || ts[0].op.Lt? || ts[0].op.Gt?)
  }

  function AsPred(x: Rx): Rx {
    if x.RPred? then x else RPred(x, NoOp, RNil)
  }

  function ParseAtom(ts: Tokens): (r: Parse<Rx>)
    ensures r.Some? ==> |r.value.1| < |ts|
    decreases |ts|, 0
  {
    if ts == [] then None
    else match ts[0]
      case Ident(name) =>
        if |ts| >= 3 && ts[1].Dot? && ts[2].Ident? then Some((RCol(Name(name, ts[2].name)), ts[3..]))
        else Some((RCol(Name("", name)), ts[1..]))
      case Mark(vals) => if |vals| == 1 then Some((RVal(vals[0]), ts[1..])) else None
      case LParen =>
        if |ts| >= 3 && ts[1].RawText? then
          (if ts[2].RParen? then Some((RRaw(ts[1].fragment, ts[1].vals), ts[3..])) else None)
        else
          (match ParseOr(ts[1..])
           case None => None
           case Some((x, rest)) => if StartsWith(rest, RParen) then Some((AsPred(x), rest[1..])) else None)
      case _ => None
  }

  function CompareTail(left: Rx, ts: Tokens): (r: Parse<Rx>)
    ensures r.Some? ==> |r.value.1| <= |ts|
    decreases |ts|, 1
  {
    if !Comparison(ts) then Some((left, ts))
    else match ParseAtom(ts[1..])
      case None => None
      case Some((right, rest)) => CompareTail(RPred(left, ts[0].op, right), rest)
  }

  function ParseCompare(ts: Tokens): (r: Parse<Rx>)
    ensures r.Some? ==> |r.value.1| < |ts|
    decreases |ts|, 2
  {
    match ParseAtom(ts)
    case None => None
    case Some((left, rest)) => CompareTail(left, rest)
  }

  function ParseNot(ts: Tokens): (r: Parse<Rx>)
    ensures r.Some? ==> |r.value.1| < |ts|
    decreases |ts|, 3
  {
    if StartsWith(ts, Operator(Not)) then
      match ParseNot(ts[1..])
      case None => None
      case Some((x, rest)) => Some((RPred(RNil, Not, x), rest))
    else ParseCompare(ts)
  }

  function AndTail(left: Rx, ts: Tokens): (r: Parse<Rx>)
    ensures r.Some? ==> |r.value.1| <= |ts|
    decreases |ts|, 4
  {
    if !StartsWith(ts, Operator(And)) then Some((left, ts))
    else match ParseNot(ts[1..])
      case None => None
      case Some((right, rest)) => AndTail(RPred(left, And, right), rest)
  }

  function ParseAnd(ts: Tokens): (r: Parse<Rx>)
    ensures r.Some? ==> |r.value.1| < |ts|
    decreases |ts|, 5
  {
    match ParseNot(ts)
    case None => None
    case Some((left, rest)) => AndTail(left, rest)
  }

  function OrTail(left: Rx, ts: Tokens): (r: Parse<Rx>)
    ensures r.Some? ==> |r.value.1| <= |ts|
    decreases |ts|, 6
  {
    if !StartsWith(ts, Operator(Or)) then Some((left, ts))
    else match ParseAnd(ts[1..])
      case None => None
      case Some((right, rest)) => OrTail(RPred(left, Or, right), rest)
  }

  function ParseOr(ts: Tokens): (r: Parse<Rx>)
    ensures r.Some? ==> |r.value.1| < |ts|
    decreases |ts|, 7
  {
    match ParseAnd(ts)
    case None => None
    case Some((left, rest)) => OrTail(left, rest)
  }

  // ---- The expression round trip ----

  /** Nothing that could continue an expression. */
  predicate Stops(ts: Tokens) {
    ts == [] || (!ts[0].Operator? && !ts[0].Dot?)
  }

  /** ... or an operator that closes a parenthesised or single operand. */
  predicate EndsAtom(ts: Tokens) {
    ts == [] || !ts[0].Dot?
  }

  predicate Operand(x: Rx) {
    x.RCol? || x.RRaw? || x.RVal? || ApiPred(x)
  }

  /** What the parser makes of a printed predicate before it is taken as one: a lone raw fragment stays raw. */
  function Core(x: Rx): Rx
    requires x.RPred?
  {
    if x.op.NoOp? then x.left else x
  }

  lemma PlainAtom(x: Rx, rest: Tokens)
    requires (x.RCol? || x.RRaw? || x.RVal?) && EndsAtom(rest)
    ensures ParseAtom(PrintSide(x) + rest) == Some((x, rest))
  {
    var ts := PrintSide(x) + rest;
    match x {
      case RCol(n) =>
        if n.qualifier == "" {
          assert ts[1..] == rest;
        } else {
          assert ts[3..] == rest;
        }
      case RRaw(f, args) => assert ts[3..] == rest;
      case RVal(v) => assert ts[1..] == rest;
    }
  }

  /** An operand on its own. */
  lemma ClimbAtom(ts: Tokens, x: Rx, rest: Tokens)
    requires ParseAtom(ts) == Some((x, rest)) && !Comparison(rest)
    ensures ParseNot(ts) == Some((x, rest))
  {
    assert CompareTail(x, rest) == Some((x, rest));
    assert ParseCompare(ts) == Some((x, rest));
  }

  lemma ClimbNot(ts: Tokens, x: Rx, rest: Tokens)
    requires ParseNot(ts) == Some((x, rest)) && Stops(rest)
    ensures ParseOr(ts) == Some((x, rest))
  {
    assert AndTail(x, rest) == Some((x, rest));
    assert ParseAnd(ts) == Some((x, rest));
    assert OrTail(x, rest) == Some((x, rest));
  }

  /** A comparison of two operands. */
  lemma ClimbCompare(ts: Tokens, l: Rx, op: Op, mid: Tokens, r: Rx, rest: Tokens)
    requires (op.Eq? || op.Lt? || op.Gt?) && ParseAtom(ts) == Some((l, [Operator(op)] + mid))
    requires ParseAtom(mid) == Some((r, rest)) && Stops(rest)
    ensures ParseOr(ts) == Some((RPred(l, op, r), rest))
  {
    var tail := [Operator(op)] + mid;
    assert tail[1..] == mid;
    assert CompareTail(RPred(l, op, r), rest) == Some((RPred(l, op, r), rest));
    assert CompareTail(l, tail) == Some((RPred(l, op, r), rest));
    assert ParseNot(ts) == Some((RPred(l, op, r), rest));
    ClimbNot(ts, RPred(l, op, r), rest);
  }

  lemma ClimbAnd(ts: Tokens, l: Rx, mid: Tokens, r: Rx, rest: Tokens)
    requires ParseAtom(ts) == Some((l, [Operator(And)] + mid)) && ParseAtom(mid) == Some((r, rest)) && Stops(rest)
    ensures ParseOr(ts) == Some((RPred(l, And, r), rest))
  {
    var tail, x := [Operator(And)] + mid, RPred(l, And, r);
    assert tail[1..] == mid;
    ClimbAtom(ts, l, tail);
    ClimbAtom(mid, r, rest);
    assert AndTail(x, rest) == Some((x, rest));
    assert AndTail(l, tail) == Some((x, rest));
    assert ParseAnd(ts) == Some((x, rest));
    assert OrTail(x, rest) == Some((x, rest));
  }

  lemma ClimbOr(ts: Tokens, l: Rx, mid: Tokens, r: Rx, rest: Tokens)
    requires ParseAtom(ts) == Some((l, [Operator(Or)] + mid)) && ParseAtom(mid) == Some((r, rest)) && Stops(rest)
    ensures ParseOr(ts) == Some((RPred(l, Or, r), rest))
  {
    var tail, x := [Operator(Or)] + mid, RPred(l, Or, r);
    assert tail[1..] == mid;
    ClimbAtom(ts, l, tail);
    ClimbAtom(mid, r, rest);
    assert AndTail(l, tail) == Some((l, tail));
    assert ParseAnd(ts) == Some((l, tail));
    assert AndTail(r, rest) == Some((r, rest));
    assert ParseAnd(mid) == Some((r, rest));
    assert OrTail(x, rest) == Some((x, rest));
    assert OrTail(l, tail) == Some((x, rest));
  }

  lemma ClimbNegation(mid: Tokens, x: Rx, rest: Tokens)
    requires ParseAtom(mid) == Some((x, rest)) && Stops(rest)
    ensures ParseOr([Operator(Not)] + mid) == Some((RPred(RNil, Not, x), rest))
  {
    var ts := [Operator(Not)] + mid;
    assert ts[1..] == mid;
    ClimbAtom(mid, x, rest);
    ClimbNot(ts, RPred(RNil, Not, x), rest);
  }

  /** A printed operand, parenthesised if it is a predicate, is read back whole. */
  lemma {:induction false} AtomRoundTrip(x: Rx, rest: Tokens)
    requires Operand(x) && EndsAtom(rest)
    ensures ParseAtom(PrintSide(x) + rest) == Some((x, rest))
    decreases x, 1
  {
    if !x.RPred? {
      PlainAtom(x, rest);
    } else {
      var tail := [RParen] + rest;
      PredRoundTrip(x, tail);
      PrintStart(x);
      Parenthesised(Print(x) + tail, Core(x), rest);
      Regroup3([LParen], Print(x), [RParen], rest);
    }
  }

  lemma Parenthesised(inner: Tokens, x: Rx, rest: Tokens)
    requires inner != [] && !inner[0].RawText? && ParseOr(inner) == Some((x, [RParen] + rest))
    ensures ParseAtom([LParen] + inner) == Some((AsPred(x), rest))
  {
    Behead(LParen, inner);
    Behead(RParen, rest);
  }

  lemma PrintStart(x: Rx)
    requires ApiPred(x)
    ensures Print(x) != [] && !Print(x)[0].RawText?
  {
  }

  lemma PrintParts(x: Rx, rest: Tokens)
    requires x.RPred?
    ensures Print(x) + rest == PrintSide(x.left) + (PrintOp(x.op) + (PrintSide(x.right) + rest))
  {
    Regroup3(PrintSide(x.left), PrintOp(x.op), PrintSide(x.right), rest);
  }

  lemma Regroup7(a: Tokens, b: Tokens, c: Tokens, d: Tokens, e: Tokens, f: Tokens, g: Tokens, rest: Tokens)
    ensures a + b + c + d + e + f + g + rest == a + (b + (c + (d + (e + (f + (g + rest))))))
  {
    Regroup3(a, b, c, d + e + f + g + rest);
    Regroup3(d, e, f, g + rest);
    assert a + b + c + d + e + f + g + rest == a + b + c + (d + e + f + g + rest);
  }

  /** A printed predicate is read back, however deep and however its operators nest. */
  lemma {:induction false} PredRoundTrip(x: Rx, rest: Tokens)
    requires ApiPred(x) && Stops(rest)
    ensures ParseOr(Print(x) + rest) == Some((Core(x), rest))
    decreases x, 0
  {
    var l, r, ts := x.left, x.right, Print(x) + rest;
    var mid := PrintSide(r) + rest;
    PrintParts(x, rest);
    if x.op.NoOp? {
      assert mid == rest && ts == PrintSide(l) + rest;
      PlainAtom(l, rest);
      ClimbAtom(ts, l, rest);
      ClimbNot(ts, l, rest);
    } else {
      AtomRoundTrip(r, rest);
      if x.op.Not? {
        assert ts == [Operator(Not)] + mid;
        ClimbNegation(mid, r, rest);
      } else {
        AtomRoundTrip(l, [Operator(x.op)] + mid);
        Climb(ts, l, x.op, mid, r, rest);
      }
    }
  }

  lemma Climb(ts: Tokens, l: Rx, op: Op, mid: Tokens, r: Rx, rest: Tokens)
    requires !op.NoOp? && !op.Not? && ParseAtom(ts) == Some((l, [Operator(op)] + mid))
    requires ParseAtom(mid) == Some((r, rest)) && Stops(rest)
    ensures ParseOr(ts) == Some((RPred(l, op, r), rest))
  {
    if op.And? {
      ClimbAnd(ts, l, mid, r, rest);
    } else if op.Or? {
      ClimbOr(ts, l, mid, r, rest);
    } else {
      ClimbCompare(ts, l, op, mid, r, rest);
    }
  }

  lemma Prefix7(start: Tokens, a: Tokens, b: Tokens, c: Tokens, d: Tokens, e: Tokens, f: Tokens, g: Tokens)
    ensures start + a + b + c + d + e + f + g == start + (a + b + c + d + e + f + g)
  {
    Regroup7(start, a, b, c, d, e, f, g);
    Regroup7(a, b, c, d, e, f, g, []);
    assert g + [] == g;
  }

  // ---- Tables ----

  /** A predicate after ON or WHERE. */
  function ParsePredicate(ts: Tokens): (r: Parse<Rx>)
    ensures r.Some? ==> |r.value.1| < |ts|
  {
    match ParseOr(ts)
    case None => None
    case Some((x, rest)) => Some((AsPred(x), rest))
  }

  function ParseAlias(ts: Tokens): (r: (string, Tokens))
    ensures |r.1| <= |ts|
  {
    if |ts| >= 2 && ts[0] == Kw(As) && ts[1].Ident? then (ts[1].name, ts[2..]) else ("", ts)
  }

  function ParseMore(ts: Tokens): (r: (seq<string>, Tokens))
    ensures |r.1| <= |ts|
    decreases |ts|
  {
    if |ts| >= 2 && ts[0].Comma? && ts[1].Ident? then
      var (names, rest) := ParseMore(ts[2..]);
      ([ts[1].name] + names, rest)
    else ([], ts)
  }

  function ParseUsing(ts: Tokens): (r: Parse<seq<string>>)
    ensures r.Some? ==> |r.value.1| <= |ts|
  {
    if !StartsWith(ts, Kw(Using)) then Some(([], ts))
    else if |ts| < 3 || !ts[1].LParen? || !ts[2].Ident? then None
    else
      var (names, rest) := ParseMore(ts[3..]);
      if StartsWith(rest, RParen) then Some(([ts[2].name] + names, rest[1..])) else None
  }

  function ParseOn(ts: Tokens): (r: Parse<Option<Rx>>)
    ensures r.Some? ==> |r.value.1| <= |ts|
  {
    if !StartsWith(ts, Kw(On)) then Some((None, ts))
    else match ParsePredicate(ts[1..])
      case None => None
      case Some((x, rest)) => Some((Some(x), rest))
  }

  function ParseTable(ts: Tokens): (r: Parse<RTable>)
    ensures r.Some? ==> |r.value.1| < |ts|
    decreases |ts|
  {
    if ts == [] then None
    else if ts[0].Ident? then
      var (alias, rest) := ParseAlias(ts[1..]);
      Some((RTab(ts[0].name, alias), rest))
    else if !ts[0].LParen? then None
    else match ParseTable(ts[1..])
      case None => None
      case Some((left, t1)) =>
        if t1 == [] || !t1[0].JoinWord? then None
        else match ParseTable(t1[1..])
          case None => None
          case Some((right, t2)) => ParseJoinEnd(left, t1[0].kind, right, t2)
  }

  function ParseJoinEnd(left: RTable, kind: JoinKind, right: RTable, ts: Tokens): (r: Parse<RTable>)
    ensures r.Some? ==> |r.value.1| < |ts|
  {
    match ParseUsing(ts)
    case None => None
    case Some((using, t1)) =>
      match ParseOn(t1)
      case None => None
      case Some((on, t2)) =>
        if StartsWith(t2, RParen) then Some((RJoin(left, kind, right, using, on), t2[1..])) else None
  }

  lemma PredicateRoundTrip(x: Rx, rest: Tokens)
    requires ApiPred(x) && Stops(rest)
    ensures ParsePredicate(Print(x) + rest) == Some((x, rest))
  {
    PredRoundTrip(x, rest);
  }

  predicate NoAlias(ts: Tokens) {
    !StartsWith(ts, Kw(As))
  }

  lemma AliasRoundTrip(alias: string, rest: Tokens)
    requires NoAlias(rest)
    ensures ParseAlias(PrintAlias(alias) + rest) == (alias, rest)
  {
    if alias == "" {
      assert PrintAlias(alias) + rest == rest;
    } else {
      assert (PrintAlias(alias) + rest)[2..] == rest;
    }
  }

  lemma MoreHead(name: string, ts: Tokens)
    ensures var (names, rest) := ParseMore(ts); ParseMore([Comma, Ident(name)] + ts) == ([name] + names, rest)
  {
    assert ([Comma, Ident(name)] + ts)[2..] == ts;
  }

  lemma {:induction false} MoreRoundTrip(names: seq<string>, rest: Tokens)
    requires rest != [] && !rest[0].Comma?
    ensures ParseMore(PrintMore(names) + rest) == (names, rest)
  {
    if names == [] {
      assert PrintMore(names) + rest == rest;
    } else {
      MoreRoundTrip(names[1..], rest);
      Regroup2([Comma, Ident(names[0])], PrintMore(names[1..]), rest);
      MoreHead(names[0], PrintMore(names[1..]) + rest);
      assert [names[0]] + names[1..] == names;
    }
  }

  lemma UsingRoundTrip(names: seq<string>, rest: Tokens)
    requires !StartsWith(rest, Kw(Using))
    ensures ParseUsing(PrintUsing(names) + rest) == Some((names, rest))
  {
    if names == [] {
      assert PrintUsing(names) + rest == rest;
    } else {
      var tail, more := [RParen] + rest, PrintMore(names[1..]);
      MoreRoundTrip(names[1..], tail);
      UsingHead(names[0], more + tail, names[1..], rest);
      Regroup3([Kw(Using), LParen], PrintNames(names), [RParen], rest);
      Regroup2([Ident(names[0])], more, tail);
      assert [names[0]] + names[1..] == names;
    }
  }

  lemma UsingHead(name: string, more: Tokens, names: seq<string>, rest: Tokens)
    requires ParseMore(more) == (names, [RParen] + rest)
    ensures ParseUsing([Kw(Using), LParen] + ([Ident(name)] + more)) == Some(([name] + names, rest))
  {
    var ts := [Kw(Using), LParen] + ([Ident(name)] + more);
    assert ts[0] == Kw(Using) && ts[1] == LParen && ts[2] == Ident(name) && ts[3..] == more;
    Behead(RParen, rest);
  }

  lemma OnRoundTrip(on: Option<Rx>, rest: Tokens)
    requires (on.Some? ==> ApiPred(on.value)) && StartsWith(rest, RParen)
    ensures ParseOn(PrintOn(on) + rest) == Some((on, rest))
  {
    if on.None? {
      assert PrintOn(on) + rest == rest;
    } else {
      PredicateRoundTrip(on.value, rest);
      Regroup2([Kw(On)], Print(on.value), rest);
      Behead(Kw(On), Print(on.value) + rest);
    }
  }

  lemma JoinEndRoundTrip(t: RTable, rest: Tokens)
    requires t.RJoin? && (t.on.Some? ==> ApiPred(t.on.value))
    ensures ParseJoinEnd(t.left, t.kind, t.right, PrintUsing(t.using) + (PrintOn(t.on) + ([RParen] + rest))) == Some((t, rest))
  {
    var tail := [RParen] + rest;
    var on := PrintOn(t.on) + tail;
    OnRoundTrip(t.on, tail);
    assert on[0] == if t.on.None? then RParen else Kw(On);
    UsingRoundTrip(t.using, on);
    assert tail[1..] == rest;
  }

  lemma JoinParts(t: RTable, rest: Tokens)
    requires t.RJoin?
    ensures PrintTable(t) + rest
         == [LParen] + (PrintTable(t.left) + ([JoinWord(t.kind)]
              + (PrintTable(t.right) + (PrintUsing(t.using) + (PrintOn(t.on) + ([RParen] + rest))))))
  {
    Regroup7([LParen], PrintTable(t.left), [JoinWord(t.kind)], PrintTable(t.right), PrintUsing(t.using),
             PrintOn(t.on), [RParen], rest);
  }

  /** A printed join tree is read back. */
  lemma {:induction false} TableRoundTrip(t: RTable, rest: Tokens)
    requires ApiTable(t) && NoAlias(rest)
    ensures ParseTable(PrintTable(t) + rest) == Some((t, rest))
    decreases t
  {
    if t.RTab? {
      AliasRoundTrip(t.alias, rest);
      Regroup2([Ident(t.name)], PrintAlias(t.alias), rest);
      Behead(Ident(t.name), PrintAlias(t.alias) + rest);
    } else {
      var end := PrintUsing(t.using) + (PrintOn(t.on) + ([RParen] + rest));
      var right := PrintTable(t.right) + end;
      EndHasNoAlias(t, rest);
      TableRoundTrip(t.right, end);
      Behead(JoinWord(t.kind), right);
      TableRoundTrip(t.left, [JoinWord(t.kind)] + right);
      JoinEndRoundTrip(t, rest);
      JoinIsRead(t, PrintTable(t.left) + ([JoinWord(t.kind)] + right), right, end, rest);
      JoinParts(t, rest);
    }
  }

  lemma EndHasNoAlias(t: RTable, rest: Tokens)
    requires t.RJoin?
    ensures NoAlias(PrintUsing(t.using) + (PrintOn(t.on) + ([RParen] + rest)))
  {
    var end := PrintUsing(t.using) + (PrintOn(t.on) + ([RParen] + rest));
    assert end[0] == if t.using != [] then Kw(Using) else if t.on.Some? then Kw(On) else RParen;
  }

  lemma JoinIsRead(t: RTable, left: Tokens, right: Tokens, end: Tokens, rest: Tokens)
    requires t.RJoin? && ParseTable(left) == Some((t.left, [JoinWord(t.kind)] + right))
    requires ParseTable(right) == Some((t.right, end)) && ParseJoinEnd(t.left, t.kind, t.right, end) == Some((t, rest))
    ensures ParseTable([LParen] + left) == Some((t, rest))
  {
    Behead(LParen, left);
    Behead(JoinWord(t.kind), right);
  }

  // ---- Whole queries ----

  function ParseItem(ts: Tokens): (r: Parse<RItem>)
    ensures r.Some? ==> |r.value.1| < |ts|
  {
    if ts == [] then None
    else match ts[0]
      case Ident(name) =>
        if |ts| >= 3 && ts[1].Dot? && ts[2].Ident? then
          var (alias, rest) := ParseAlias(ts[3..]);
          Some((ItemCol(Name(name, ts[2].name), alias), rest))
        else
          var (alias, rest) := ParseAlias(ts[1..]);
          Some((ItemCol(Name("", name), alias), rest))
      case Fn(fn) =>
        if |ts| >= 4 && ts[1].LParen? && ts[2].Ident? && ts[3].RParen? then
          var (alias, rest) := ParseAlias(ts[4..]);
          Some((ItemFn(fn, ts[2].name, alias), rest))
        else None
      case RawText(f, vals) => Some((ItemRaw(f, vals), ts[1..]))
      case _ => None
  }

  function ParseMoreItems(ts: Tokens): (r: Parse<seq<RItem>>)
    ensures r.Some? ==> |r.value.1| <= |ts|
    decreases |ts|
  {
    if !StartsWith(ts, Comma) then Some(([], ts))
    else match ParseItem(ts[1..])
      case None => None
      case Some((item, rest)) =>
        match ParseMoreItems(rest)
        case None => None
        case Some((items, rest')) => Some(([item] + items, rest'))
  }

  function ParseItems(ts: Tokens): Parse<seq<RItem>> {
    if StartsWith(ts, Star) then Some(([], ts[1..]))
    else match ParseItem(ts)
      case None => None
      case Some((item, rest)) =>
        match ParseMoreItems(rest)
        case None => None
        case Some((items, rest')) => Some(([item] + items, rest'))
  }

  function ParseWhere(ts: Tokens): Parse<Option<Rx>> {
    if !StartsWith(ts, Kw(Where)) then Some((None, ts))
    else match ParsePredicate(ts[1..])
      case None => None
      case Some((x, rest)) => Some((Some(x), rest))
  }

  function ParseStatement(ts: Tokens): Parse<RSelect> {
    if !StartsWith(ts, Kw(Select)) then None
    else match ParseItems(ts[1..])
      case None => None
      case Some((items, t1)) =>
        if !StartsWith(t1, Kw(From)) then None
        else match ParseTable(t1[1..])
          case None => None
          case Some((from, t2)) =>
            match ParseWhere(t2)
            case None => None
            case Some((filter, t3)) =>
              if StartsWith(t3, Semi) then Some((RSelect(items, from, filter), t3[1..])) else None
  }

  /** A whole statement and nothing after it. */
  function ParseSelect(ts: Tokens): Option<RSelect> {
    match ParseStatement(ts)
    case None => None
    case Some((q, rest)) => if rest == [] then Some(q) else None
  }

  predicate EndsItem(ts: Tokens) {
    ts != [] && (ts[0].Comma? || ts[0] == Kw(From))
  }

  lemma ItemRoundTrip(i: RItem, rest: Tokens)
    requires EndsItem(rest)
    ensures ParseItem(PrintItem(i) + rest) == Some((i, rest))
  {
    match i {
      case ItemCol(n, alias) =>
        AliasRoundTrip(alias, rest);
        var tail := PrintAlias(alias) + rest;
        assert !tail[0].Dot?;
        Regroup2(PrintName(n), PrintAlias(alias), rest);
        ColumnIsRead(n, tail);
      case ItemFn(fn, col, alias) =>
        AliasRoundTrip(alias, rest);
        var tail := PrintAlias(alias) + rest;
        Regroup2([Fn(fn), LParen, Ident(col), RParen], PrintAlias(alias), rest);
        assert ([Fn(fn), LParen, Ident(col), RParen] + tail)[4..] == tail;
      case ItemRaw(f, args) =>
        Behead(RawText(f, args), rest);
    }
  }

  lemma ColumnIsRead(n: Name, tail: Tokens)
    requires tail != [] && !tail[0].Dot?
    ensures var (alias, rest) := ParseAlias(tail); ParseItem(PrintName(n) + tail) == Some((ItemCol(n, alias), rest))
  {
    if n.qualifier == "" {
      Behead(Ident(n.column), tail);
    } else {
      assert (PrintName(n) + tail)[3..] == tail;
    }
  }

  lemma {:induction false} MoreItemsRoundTrip(items: seq<RItem>, rest: Tokens)
    requires StartsWith(rest, Kw(From))
    ensures ParseMoreItems(PrintMoreItems(items) + rest) == Some((items, rest))
  {
    if items == [] {
      assert PrintMoreItems(items) + rest == rest;
    } else {
      var tail := PrintMoreItems(items[1..]) + rest;
      MoreItemsRoundTrip(items[1..], rest);
      ItemRoundTrip(items[0], tail);
      Regroup3([Comma], PrintItem(items[0]), PrintMoreItems(items[1..]), rest);
      Behead(Comma, PrintItem(items[0]) + tail);
      assert [items[0]] + items[1..] == items;
    }
  }

  lemma ItemsAreRead(ts: Tokens, item: RItem, tail: Tokens, items: seq<RItem>, rest: Tokens)
    requires ParseItem(ts) == Some((item, tail)) && ParseMoreItems(tail) == Some((items, rest))
    ensures ParseItems(ts) == Some(([item] + items, rest))
  {
  }

  lemma ItemsRoundTrip(items: seq<RItem>, rest: Tokens)
    requires StartsWith(rest, Kw(From))
    ensures ParseItems(PrintItems(items) + rest) == Some((items, rest))
  {
    if items == [] {
      Behead(Star, rest);
    } else {
      var tail := PrintMoreItems(items[1..]) + rest;
      MoreItemsRoundTrip(items[1..], rest);
      ItemRoundTrip(items[0], tail);
      Regroup2(PrintItem(items[0]), PrintMoreItems(items[1..]), rest);
      ItemsAreRead(PrintItem(items[0]) + tail, items[0], tail, items[1..], rest);
      assert [items[0]] + items[1..] == items;
    }
  }

  lemma WhereRoundTrip(filter: Option<Rx>, rest: Tokens)
    requires (filter.Some? ==> ApiPred(filter.value)) && StartsWith(rest, Semi)
    ensures ParseWhere(PrintWhere(filter) + rest) == Some((filter, rest))
  {
    if filter.None? {
      assert PrintWhere(filter) + rest == rest;
    } else {
      PredicateRoundTrip(filter.value, rest);
      Regroup2([Kw(Where)], Print(filter.value), rest);
      Behead(Kw(Where), Print(filter.value) + rest);
    }
  }

  lemma SelectParts(q: RSelect, rest: Tokens)
    ensures PrintSelect(q) + rest
         == [Kw(Select)] + (PrintItems(q.items) + ([Kw(From)] + (PrintTable(q.from) + (PrintWhere(q.filter) + ([Semi] + rest)))))
  {
    var a, b, c, d, e := [Kw(Select)], PrintItems(q.items), [Kw(From)], PrintTable(q.from), PrintWhere(q.filter);
    Regroup3(a, b, c, d + (e + ([Semi] + rest)));
    Regroup3(a + b + c, d, e, [Semi] + rest);
    Regroup2(a + b + c + d + e, [Semi], rest);
  }

  /** Printing then parsing gives back the select list, the join tree and the WHERE predicate. */
  lemma StatementRoundTrip(q: RSelect, rest: Tokens)
    requires ApiSelect(q)
    ensures ParseStatement(PrintSelect(q) + rest) == Some((q, rest))
  {
    var t4 := [Semi] + rest;
    var t3 := PrintWhere(q.filter) + t4;
    var t2 := PrintTable(q.from) + t3;
    var t1 := [Kw(From)] + t2;
    var ts := [Kw(Select)] + (PrintItems(q.items) + t1);
    SelectParts(q, rest);
    assert ts[1..] == PrintItems(q.items) + t1 && t1[1..] == t2 && t4[1..] == rest;
    ItemsRoundTrip(q.items, t1);
    assert t3[0] == if q.filter.None? then Semi else Kw(Where);
    TableRoundTrip(q.from, t3);
    WhereRoundTrip(q.filter, t4);
  }

  lemma SelectRoundTrip(q: RSelect)
    requires ApiSelect(q)
    ensures ParseSelect(PrintSelect(q)) == Some(q)
  {
    StatementRoundTrip(q, []);
    assert PrintSelect(q) + [] == PrintSelect(q);
  }

  /**
    What a database makes of the text and the arguments of a query whose raw fragments fit: binding the
    arguments in order and parsing gives the query that was asked for, values and all.
   */
  lemma TextMeansQuery(q: RSelect)
    requires ApiSelect(q) && SelectRawsFit(q)
    ensures var text := Erase(PrintSelect(q)); var args := Holes(PrintSelect(q));
            Marks(text) == |args| && Bind(text, args).Some? && ParseSelect(Bind(text, args).value) == Some(q)
  {
    SelectIsWellMarked(q);
    BindRestores(PrintSelect(q));
    SelectRoundTrip(q);
  }
}
