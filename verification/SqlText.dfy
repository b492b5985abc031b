/**
  SQL text as tokens, and its arguments.  A placeholder token, and a raw fragment, carry the values they
  were written for; the text itself is what is left when those are erased, and the argument list is
  those values in order.
 */
module SqlText {
  import opened Wrappers
  import opened SqlAst

  datatype Keyword = Select | From | Where | As | On | Using | Insert | Values | OnDuplicate | OnConflict | DoUpdate

  datatype Token =
    | Kw(keyword: Keyword)
    | Ident(name: string)                // quoted
    | Fn(name: string)
    | Bare(text: string)                 // an unquoted word such as `excluded`
    | LParen | RParen | Comma | Dot | Star | Semi | Assign
    | Operator(op: Op)
    | JoinWord(kind: JoinKind)
    | Mark(vals: seq<Value>)             // `?`
    | RawText(fragment: Fragment, vals: seq<Value>)

  type Tokens = seq<Token>

  // ---- Text and arguments ----

  function EraseOne(t: Token): Token {
    match t
    case Mark(_) => Mark([])
    case RawText(f, _) => RawText(f, [])
    case _ => t
  }

  function Erase(ts: Tokens): Tokens {
    if ts == [] then [] else [EraseOne(ts[0])] + Erase(ts[1..])
  }

  function ValsOf(t: Token): seq<Value> {
    match t
    case Mark(vs) => vs
    case RawText(_, vs) => vs
    case _ => []
  }

  function Holes(ts: Tokens): seq<Value> {
    if ts == [] then [] else ValsOf(ts[0]) + Holes(ts[1..])
  }

  /** How many placeholders a token has in the text. */
  function MarksOf(t: Token): nat {
    match t
    case Mark(_) => 1
    case RawText(f, _) => f.marks
    case _ => 0
  }

  function Marks(ts: Tokens): nat {
    if ts == [] then 0 else MarksOf(ts[0]) + Marks(ts[1..])
  }

  ghost predicate WellMarked(ts: Tokens) {
    forall i :: 0 <= i < |ts| ==> |ValsOf(ts[i])| == MarksOf(ts[i])
  }

  function BindOne(t: Token, vals: seq<Value>): Token {
    match t
    case Mark(_) => Mark(vals)
    case RawText(f, _) => RawText(f, vals)
    case _ => t
  }

  /** How a driver binds arguments: left to right, one to each placeholder; `None` unless they come out even. */
  function Bind(ts: Tokens, args: seq<Value>): Option<Tokens> {
    if ts == [] then (if args == [] then Some([]) else None)
    else
      var n := MarksOf(ts[0]);
      if |args| < n then None
      else
        match Bind(ts[1..], args[n..])
        case None => None
        case Some(rest) => Some([BindOne(ts[0], args[..n])] + rest)
  }

  lemma {:induction false} EraseConcat(a: Tokens, b: Tokens)
    ensures Erase(a + b) == Erase(a) + Erase(b)
  {
    if a == [] {
      assert a + b == b;
    } else {
      EraseConcat(a[1..], b);
      assert (a + b)[0] == a[0] && (a + b)[1..] == a[1..] + b;
      var e := EraseOne(a[0]);
      assert [e] + (Erase(a[1..]) + Erase(b)) == [e] + Erase(a[1..]) + Erase(b);
    }
  }

  lemma {:induction false} HolesConcat(a: Tokens, b: Tokens)
    ensures Holes(a + b) == Holes(a) + Holes(b)
  {
    if a == [] {
      assert a + b == b;
    } else {
      HolesConcat(a[1..], b);
      assert (a + b)[0] == a[0] && (a + b)[1..] == a[1..] + b;
      var vs := ValsOf(a[0]);
      assert vs + (Holes(a[1..]) + Holes(b)) == vs + Holes(a[1..]) + Holes(b);
    }
  }

  lemma BindOneMore(t: Token, text: Tokens, args: seq<Value>)
    requires |ValsOf(t)| == MarksOf(t) && Bind(text, args).Some?
    ensures Bind([EraseOne(t)] + text, ValsOf(t) + args) == Some([t] + Bind(text, args).value)
  {
    var all, vals := [EraseOne(t)] + text, ValsOf(t) + args;
    assert all[1..] == text && vals[..MarksOf(t)] == ValsOf(t) && vals[MarksOf(t)..] == args;
  }

  lemma MarksOneMore(t: Token, text: Tokens)
    ensures Marks([EraseOne(t)] + text) == MarksOf(t) + Marks(text)
  {
    assert ([EraseOne(t)] + text)[1..] == text;
  }

  /** The i-th placeholder of the text is the one written for the i-th argument. */
  lemma {:induction false} BindRestores(ts: Tokens)
    requires WellMarked(ts)
    ensures Bind(Erase(ts), Holes(ts)) == Some(ts)
    ensures Marks(Erase(ts)) == |Holes(ts)|
  {
    if ts == [] {
      assert Erase(ts) == [];
    } else {
      var t, rest := ts[0], ts[1..];
      assert |ValsOf(t)| == MarksOf(t) && WellMarked(rest);
      BindRestores(rest);
      BindOneMore(t, Erase(rest), Holes(rest));
      MarksOneMore(t, Erase(rest));
      assert Erase(ts) == [EraseOne(t)] + Erase(rest);
      assert [t] + rest == ts;
    }
  }

  lemma WellMarkedConcat(a: Tokens, b: Tokens)
    requires WellMarked(a) && WellMarked(b)
    ensures WellMarked(a + b)
  {
  }

  // ---- Printing ----

  function PrintAlias(alias: string): Tokens {
    if alias == "" then [] else [Kw(As), Ident(alias)]
  }

  function PrintName(n: Name): Tokens {
    if n.qualifier == "" then [Ident(n.column)] else [Ident(n.qualifier), Dot, Ident(n.column)]
  }

  function PrintOp(op: Op): Tokens {
    if op.NoOp? then [] else [Operator(op)]
  }

  function Print(x: Rx): Tokens {
    match x
    case RNil => []
    case RPred(l, op, r) =>
      (if l.RPred? then [LParen] + Print(l) + [RParen] else Print(l)) + PrintOp(op)
      + (if r.RPred? then [LParen] + Print(r) + [RParen] else Print(r))
    case RCol(n) => PrintName(n)
    case RRaw(f, args) => [LParen, RawText(f, args), RParen]
    case RVal(v) => [Mark([v])]
  }

  function PrintSide(x: Rx): Tokens {
    if x.RPred? then [LParen] + Print(x) + [RParen] else Print(x)
  }

  function PrintMore(names: seq<string>): Tokens {
    if names == [] then [] else [Comma, Ident(names[0])] + PrintMore(names[1..])
  }

  function PrintNames(names: seq<string>): Tokens {
    if names == [] then [] else [Ident(names[0])] + PrintMore(names[1..])
  }

  function PrintUsing(names: seq<string>): Tokens {
    if names == [] then [] else [Kw(Using), LParen] + PrintNames(names) + [RParen]
  }

  function PrintOn(on: Option<Rx>): Tokens {
    if on.None? then [] else [Kw(On)] + Print(on.value)
  }

  function PrintTable(t: RTable): Tokens {
    match t
    case RTab(name, alias) => [Ident(name)] + PrintAlias(alias)
    case RJoin(l, kind, r, using, on) =>
      [LParen] + PrintTable(l) + [JoinWord(kind)] + PrintTable(r) + PrintUsing(using) + PrintOn(on) + [RParen]
  }

  function PrintItem(i: RItem): Tokens {
    match i
    case ItemCol(n, alias) => PrintName(n) + PrintAlias(alias)
    case ItemFn(fn, col, alias) => [Fn(fn), LParen, Ident(col), RParen] + PrintAlias(alias)
    case ItemRaw(f, args) => [RawText(f, args)]
  }

  function PrintMoreItems(items: seq<RItem>): Tokens {
    if items == [] then [] else [Comma] + PrintItem(items[0]) + PrintMoreItems(items[1..])
  }

  function PrintItems(items: seq<RItem>): Tokens {
    if items == [] then [Star] else PrintItem(items[0]) + PrintMoreItems(items[1..])
  }

  function PrintWhere(filter: Option<Rx>): Tokens {
    if filter.None? then [] else [Kw(Where)] + Print(filter.value)
  }

  function PrintSelect(q: RSelect): Tokens {
    [Kw(Select)] + PrintItems(q.items) + [Kw(From)] + PrintTable(q.from) + PrintWhere(q.filter) + [Semi]
  }

  // ---- Which queries are well marked ----

  /** Every raw fragment comes with as many arguments as its text has placeholders. */
  predicate RawsFit(x: Rx) {
    match x
    case RPred(l, _, r) => RawsFit(l) && RawsFit(r)
    case RRaw(f, args) => |args| == f.marks
    case _ => true
  }

  predicate TableRawsFit(t: RTable) {
    t.RJoin? ==> TableRawsFit(t.left) && TableRawsFit(t.right) && (t.on.Some? ==> RawsFit(t.on.value))
  }

  predicate SelectRawsFit(q: RSelect) {
    && TableRawsFit(q.from) && (q.filter.Some? ==> RawsFit(q.filter.value))
    && forall i :: 0 <= i < |q.items| ==> ItemRawsFit(q.items[i])
  }

  lemma {:induction false} PrintIsWellMarked(x: Rx)
    requires RawsFit(x)
    ensures WellMarked(Print(x))
  {
    if x.RPred? {
      PrintIsWellMarked(x.left);
      PrintIsWellMarked(x.right);
    }
  }

  lemma {:induction false} MoreIsWellMarked(names: seq<string>)
    ensures WellMarked(PrintMore(names))
  {
    if names != [] {
      MoreIsWellMarked(names[1..]);
    }
  }

  lemma UsingIsWellMarked(names: seq<string>)
    ensures WellMarked(PrintUsing(names))
  {
    if names != [] {
      MoreIsWellMarked(names[1..]);
      WellMarkedConcat([Ident(names[0])], PrintMore(names[1..]));
      WellMarkedConcat([Kw(Using), LParen], PrintNames(names));
      WellMarkedConcat([Kw(Using), LParen] + PrintNames(names), [RParen]);
    }
  }

  lemma {:induction false} TableIsWellMarked(t: RTable)
    requires TableRawsFit(t)
    ensures WellMarked(PrintTable(t))
  {
    if t.RJoin? {
      TableIsWellMarked(t.left);
      TableIsWellMarked(t.right);
      UsingIsWellMarked(t.using);
      if t.on.Some? {
        PrintIsWellMarked(t.on.value);
        WellMarkedConcat([Kw(On)], Print(t.on.value));
      }
      JoinIsWellMarked(PrintTable(t.left), t.kind, PrintTable(t.right), PrintUsing(t.using), PrintOn(t.on));
    }
  }

  lemma JoinIsWellMarked(l: Tokens, kind: JoinKind, r: Tokens, u: Tokens, o: Tokens)
    requires WellMarked(l) && WellMarked(r) && WellMarked(u) && WellMarked(o)
    ensures WellMarked([LParen] + l + [JoinWord(kind)] + r + u + o + [RParen])
  {
    var a := [LParen] + l + [JoinWord(kind)];
    assert WellMarked(a);
    WellMarkedConcat(a, r);
    WellMarkedConcat(a + r, u);
    WellMarkedConcat(a + r + u, o);
    WellMarkedConcat(a + r + u + o, [RParen]);
  }

  predicate ItemRawsFit(i: RItem) {
    i.ItemRaw? ==> |i.args| == i.fragment.marks
  }

  lemma ItemIsWellMarked(i: RItem)
    requires ItemRawsFit(i)
    ensures WellMarked(PrintItem(i))
  {
  }

  lemma {:induction false} MoreItemsAreWellMarked(items: seq<RItem>)
    requires forall i :: 0 <= i < |items| ==> ItemRawsFit(items[i])
    ensures WellMarked(PrintMoreItems(items))
  {
    if items != [] {
      MoreItemsAreWellMarked(items[1..]);
      ItemIsWellMarked(items[0]);
      WellMarkedConcat([Comma], PrintItem(items[0]));
      WellMarkedConcat([Comma] + PrintItem(items[0]), PrintMoreItems(items[1..]));
    }
  }

  lemma ItemsAreWellMarked(items: seq<RItem>)
    requires forall i :: 0 <= i < |items| ==> ItemRawsFit(items[i])
    ensures WellMarked(PrintItems(items))
  {
    if items != [] {
      ItemIsWellMarked(items[0]);
      MoreItemsAreWellMarked(items[1..]);
      WellMarkedConcat(PrintItem(items[0]), PrintMoreItems(items[1..]));
    }
  }

  lemma WhereIsWellMarked(filter: Option<Rx>)
    requires filter.Some? ==> RawsFit(filter.value)
    ensures WellMarked(PrintWhere(filter))
  {
    if filter.Some? {
      PrintIsWellMarked(filter.value);
      WellMarkedConcat([Kw(Where)], Print(filter.value));
    }
  }

  lemma SelectIsWellMarked(q: RSelect)
    requires SelectRawsFit(q)
    ensures WellMarked(PrintSelect(q))
  {
    ItemsAreWellMarked(q.items);
    TableIsWellMarked(q.from);
    WhereIsWellMarked(q.filter);
    WellMarkedAround(PrintItems(q.items), PrintTable(q.from), PrintWhere(q.filter));
  }

  lemma WellMarkedAround(a: Tokens, b: Tokens, c: Tokens)
    requires WellMarked(a) && WellMarked(b) && WellMarked(c)
    ensures WellMarked([Kw(Select)] + a + [Kw(From)] + b + c + [Semi])
  {
  }

  // ---- Regrouping long texts ----

  lemma Behead(t: Token, ts: Tokens)
    ensures ([t] + ts)[0] == t && ([t] + ts)[1..] == ts
  {
  }

  lemma Regroup2(a: Tokens, b: Tokens, rest: Tokens)
    ensures a + b + rest == a + (b + rest)
  {
  }

  lemma Regroup3(a: Tokens, b: Tokens, c: Tokens, rest: Tokens)
    ensures a + b + c + rest == a + (b + (c + rest))
  {
  }
}
