/** What is left in the buffer before a Build: a statement is only a query when nothing is. */
module SqlStatements {
  import opened Wrappers
  import opened SqlAst
  import opened SqlText
  import opened SqlParser

  /** How often a text says SELECT. */
  function Selects(ts: Tokens): nat {
    if ts == [] then 0 else (if ts[0] == Kw(Select) then 1 else 0) + Selects(ts[1..])
  }

  lemma {:induction false} SelectsConcat(a: Tokens, b: Tokens)
    ensures Selects(a + b) == Selects(a) + Selects(b)
  {
    if a == [] {
      assert a + b == b;
    } else {
      SelectsConcat(a[1..], b);
      assert (a + b)[0] == a[0] && (a + b)[1..] == a[1..] + b;
    }
  }

  lemma {:induction false} SelectsAfter(ts: Tokens, k: nat)
    requires k <= |ts| && forall i :: 0 <= i < k ==> ts[i] != Kw(Select)
    ensures Selects(ts[k..]) == Selects(ts)
  {
    if k > 0 {
      SelectsAfter(ts[1..], k - 1);
      assert ts[1..][k - 1..] == ts[k..];
    } else {
      assert ts[0..] == ts;
    }
  }

  // ---- No rule but the first takes a SELECT ----

  lemma {:induction false} AtomTakesNoSelect(ts: Tokens)
    ensures ParseAtom(ts).Some? ==> Selects(ParseAtom(ts).value.1) == Selects(ts)
    decreases |ts|, 0
  {
    if ParseAtom(ts).Some? {
      var rest := ParseAtom(ts).value.1;
      if ts[0].LParen? && !(|ts| >= 3 && ts[1].RawText?) {
        OrTakesNoSelect(ts[1..]);
      } else if ts[0].LParen? || (ts[0].Ident? && |ts| >= 3 && ts[1].Dot? && ts[2].Ident?) {
        SelectsAfter(ts, 3);
      }
    }
  }

  lemma {:induction false} CompareTailTakesNoSelect(left: Rx, ts: Tokens)
    ensures CompareTail(left, ts).Some? ==> Selects(CompareTail(left, ts).value.1) == Selects(ts)
    decreases |ts|, 1
  {
    if Comparison(ts) && ParseAtom(ts[1..]).Some? {
      AtomTakesNoSelect(ts[1..]);
      var (right, rest) := ParseAtom(ts[1..]).value;
      CompareTailTakesNoSelect(RPred(left, ts[0].op, right), rest);
    }
  }

  lemma {:induction false} NotTakesNoSelect(ts: Tokens)
    ensures ParseNot(ts).Some? ==> Selects(ParseNot(ts).value.1) == Selects(ts)
    decreases |ts|, 3
  {
    if StartsWith(ts, Operator(Not)) {
      NotTakesNoSelect(ts[1..]);
    } else if ParseAtom(ts).Some? {
      AtomTakesNoSelect(ts);
      var (left, rest) := ParseAtom(ts).value;
      CompareTailTakesNoSelect(left, rest);
    }
  }

  lemma {:induction false} AndTailTakesNoSelect(left: Rx, ts: Tokens)
    ensures AndTail(left, ts).Some? ==> Selects(AndTail(left, ts).value.1) == Selects(ts)
    decreases |ts|, 4
  {
    if StartsWith(ts, Operator(And)) && ParseNot(ts[1..]).Some? {
      NotTakesNoSelect(ts[1..]);
      var (right, rest) := ParseNot(ts[1..]).value;
      AndTailTakesNoSelect(RPred(left, And, right), rest);
    }
  }

  lemma {:induction false} AndTakesNoSelect(ts: Tokens)
    ensures ParseAnd(ts).Some? ==> Selects(ParseAnd(ts).value.1) == Selects(ts)
    decreases |ts|, 5
  {
    if ParseNot(ts).Some? {
      NotTakesNoSelect(ts);
      var (left, rest) := ParseNot(ts).value;
      AndTailTakesNoSelect(left, rest);
    }
  }

  lemma {:induction false} OrTailTakesNoSelect(left: Rx, ts: Tokens)
    ensures OrTail(left, ts).Some? ==> Selects(OrTail(left, ts).value.1) == Selects(ts)
    decreases |ts|, 6
  {
    if StartsWith(ts, Operator(Or)) && ParseAnd(ts[1..]).Some? {
      AndTakesNoSelect(ts[1..]);
      var (right, rest) := ParseAnd(ts[1..]).value;
      OrTailTakesNoSelect(RPred(left, Or, right), rest);
    }
  }

  lemma {:induction false} OrTakesNoSelect(ts: Tokens)
    ensures ParseOr(ts).Some? ==> Selects(ParseOr(ts).value.1) == Selects(ts)
    decreases |ts|, 7
  {
    if ParseAnd(ts).Some? {
      AndTakesNoSelect(ts);
      var (left, rest) := ParseAnd(ts).value;
      OrTailTakesNoSelect(left, rest);
    }
  }

  lemma AliasTakesNoSelect(ts: Tokens)
    ensures Selects(ParseAlias(ts).1) == Selects(ts)
  {
    if |ts| >= 2 && ts[0] == Kw(As) && ts[1].Ident? {
      SelectsAfter(ts, 2);
    }
  }

  lemma {:induction false} MoreTakesNoSelect(ts: Tokens)
    ensures Selects(ParseMore(ts).1) == Selects(ts)
    decreases |ts|
  {
    if |ts| >= 2 && ts[0].Comma? && ts[1].Ident? {
      SelectsAfter(ts, 2);
      MoreTakesNoSelect(ts[2..]);
    }
  }

  lemma UsingTakesNoSelect(ts: Tokens)
    ensures ParseUsing(ts).Some? ==> Selects(ParseUsing(ts).value.1) == Selects(ts)
  {
    if StartsWith(ts, Kw(Using)) && ParseUsing(ts).Some? {
      SelectsAfter(ts, 3);
      MoreTakesNoSelect(ts[3..]);
    }
  }

  lemma OnTakesNoSelect(ts: Tokens)
    ensures ParseOn(ts).Some? ==> Selects(ParseOn(ts).value.1) == Selects(ts)
  {
    if StartsWith(ts, Kw(On)) {
      OrTakesNoSelect(ts[1..]);
    }
  }

  lemma JoinEndTakesNoSelect(left: RTable, kind: JoinKind, right: RTable, ts: Tokens)
    ensures var r := ParseJoinEnd(left, kind, right, ts); r.Some? ==> Selects(r.value.1) == Selects(ts)
  {
    if ParseUsing(ts).Some? {
      UsingTakesNoSelect(ts);
      OnTakesNoSelect(ParseUsing(ts).value.1);
    }
  }

  lemma {:induction false} TableTakesNoSelect(ts: Tokens)
    ensures ParseTable(ts).Some? ==> Selects(ParseTable(ts).value.1) == Selects(ts)
    decreases |ts|
  {
    if ts != [] && ts[0].Ident? {
      AliasTakesNoSelect(ts[1..]);
    } else if ts != [] && ts[0].LParen? && ParseTable(ts).Some? {
      TableTakesNoSelect(ts[1..]);
      var (left, t1) := ParseTable(ts[1..]).value;
      TableTakesNoSelect(t1[1..]);
      var (right, t2) := ParseTable(t1[1..]).value;
      JoinEndTakesNoSelect(left, t1[0].kind, right, t2);
    }
  }

  lemma ItemTakesNoSelect(ts: Tokens)
    ensures ParseItem(ts).Some? ==> Selects(ParseItem(ts).value.1) == Selects(ts)
  {
    if ParseItem(ts).Some? && !ts[0].RawText? {
      var k := if ts[0].Fn? then 4 else if |ts| >= 3 && ts[1].Dot? && ts[2].Ident? then 3 else 1;
      SelectsAfter(ts, k);
      AliasTakesNoSelect(ts[k..]);
    }
  }

  lemma {:induction false} MoreItemsTakeNoSelect(ts: Tokens)
    ensures ParseMoreItems(ts).Some? ==> Selects(ParseMoreItems(ts).value.1) == Selects(ts)
    decreases |ts|
  {
    if StartsWith(ts, Comma) && ParseItem(ts[1..]).Some? {
      ItemTakesNoSelect(ts[1..]);
      MoreItemsTakeNoSelect(ParseItem(ts[1..]).value.1);
    }
  }

  lemma ItemsTakeNoSelect(ts: Tokens)
    ensures ParseItems(ts).Some? ==> Selects(ParseItems(ts).value.1) == Selects(ts)
  {
    if !StartsWith(ts, Star) && ParseItem(ts).Some? {
      ItemTakesNoSelect(ts);
      MoreItemsTakeNoSelect(ParseItem(ts).value.1);
    }
  }

  lemma WhereTakesNoSelect(ts: Tokens)
    ensures ParseWhere(ts).Some? ==> Selects(ParseWhere(ts).value.1) == Selects(ts)
  {
    if StartsWith(ts, Kw(Where)) {
      OrTakesNoSelect(ts[1..]);
    }
  }

  /** A query says SELECT once. */
  lemma QuerySelectsOnce(ts: Tokens)
    requires ParseSelect(ts).Some?
    ensures ts[0] == Kw(Select) && Selects(ts) == 1
  {
    ItemsTakeNoSelect(ts[1..]);
    var t1 := ParseItems(ts[1..]).value.1;
    TableTakesNoSelect(t1[1..]);
    var t2 := ParseTable(t1[1..]).value.1;
    WhereTakesNoSelect(t2);
  }

  lemma NotAQuery(ts: Tokens)
    requires ts == [] || ts[0] != Kw(Select) || Selects(ts) != 1
    ensures ParseSelect(ts) == None
  {
    if ParseSelect(ts).Some? {
      QuerySelectsOnce(ts);
    }
  }

  lemma PrintedSelects(q: RSelect)
    ensures Selects(PrintSelect(q)) >= 1
  {
    assert PrintSelect(q)[0] == Kw(Select);
  }

  /** A text with anything at all before a statement is no query, whether or not that was a statement itself. */
  lemma NothingMayComeBefore(before: Tokens, rest: Tokens)
    requires before != [] && Selects(rest) >= 1
    ensures ParseSelect(before + rest) == None
  {
    SelectsConcat(before, rest);
    assert (before + rest)[0] == before[0];
    NotAQuery(before + rest);
  }

  /**
    What a Build appends to the buffer is a query, and then the one asked for, if and only if the
    buffer was empty: neither a complete statement nor what a failed Build left may stand before it.
   */
  lemma QueryIffBufferWasEmpty(before: Tokens, q: RSelect)
    requires ApiSelect(q)
    ensures ParseSelect(before + PrintSelect(q)).Some? <==> before == []
    ensures before == [] ==> ParseSelect(before + PrintSelect(q)) == Some(q)
  {
    if before == [] {
      assert before + PrintSelect(q) == PrintSelect(q);
      SelectRoundTrip(q);
    } else {
      PrintedSelects(q);
      NothingMayComeBefore(before, PrintSelect(q));
    }
  }

  // ---- The same of the text, whatever is bound to it ----

  lemma {:induction false} EraseKeepsSelects(ts: Tokens)
    ensures Selects(Erase(ts)) == Selects(ts)
  {
    if ts != [] {
      EraseKeepsSelects(ts[1..]);
      Behead(EraseOne(ts[0]), Erase(ts[1..]));
    }
  }

  lemma {:induction false} BindKeepsSelects(ts: Tokens, args: seq<Value>)
    ensures Bind(ts, args).Some? ==> Selects(Bind(ts, args).value) == Selects(ts) && |Bind(ts, args).value| == |ts|
    ensures Bind(ts, args).Some? && ts != [] ==> (Bind(ts, args).value[0] == Kw(Select) <==> ts[0] == Kw(Select))
  {
    if ts != [] && Bind(ts, args).Some? {
      var n := MarksOf(ts[0]);
      BindKeepsSelects(ts[1..], args[n..]);
      Behead(BindOne(ts[0], args[..n]), Bind(ts[1..], args[n..]).value);
    }
  }

  /** No arguments whatever make a query of a text that was appended to a buffer that was not empty. */
  lemma NoArgsMakeItAQuery(before: Tokens, q: RSelect, args: seq<Value>)
    requires before != []
    ensures var bound := Bind(Erase(before + PrintSelect(q)), args); bound.Some? ==> ParseSelect(bound.value) == None
  {
    var text := Erase(before + PrintSelect(q));
    if Bind(text, args).Some? {
      BindKeepsSelects(text, args);
      EraseKeepsSelects(before + PrintSelect(q));
      SelectsConcat(before, PrintSelect(q));
      PrintedSelects(q);
      assert text[0] == EraseOne(before[0]);
      NotAQuery(Bind(text, args).value);
    }
  }
}
