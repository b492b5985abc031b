/** What the text of an INSERT means: a parser for both dialects, and the proof that it reads every printed one back. */
module SqlInsertParser {
  import opened Wrappers
  import opened SqlAst
  import opened SqlText
  import opened SqlParser
  import opened SqlInsertText

  // ---- Lists with commas, whatever their items ----

  /** `, item` as often as it comes. */
  function ParseMoreOf<T>(item: Tokens -> Parse<T>, ts: Tokens): (r: (seq<T>, Tokens))
    decreases |ts|
  {
    if !StartsWith(ts, Comma) then ([], ts)
    else match item(ts[1..])
      case None => ([], ts)
      case Some((x, rest)) =>
        if |rest| >= |ts| then ([], ts)
        else
          var (xs, rest') := ParseMoreOf(item, rest);
          ([x] + xs, rest')
  }

  /** No item, or one and as many more as come. */
  function ParseList<T>(item: Tokens -> Parse<T>, ts: Tokens): (seq<T>, Tokens) {
    match item(ts)
    case None => ([], ts)
    case Some((x, rest)) =>
      var (xs, rest') := ParseMoreOf(item, rest);
      ([x] + xs, rest')
  }

  function MoreParts(parts: seq<Tokens>): Tokens {
    if parts == [] then [] else [Comma] + parts[0] + MoreParts(parts[1..])
  }

  lemma {:induction false} MorePartsLast(parts: seq<Tokens>, last: Tokens)
    ensures MoreParts(parts + [last]) == MoreParts(parts) + [Comma] + last
  {
    if parts == [] {
      assert (parts + [last])[1..] == [];
    } else {
      MorePartsLast(parts[1..], last);
      assert (parts + [last])[0] == parts[0] && (parts + [last])[1..] == parts[1..] + [last];
      Regroup3([Comma] + parts[0], MoreParts(parts[1..]), [Comma], last);
      Regroup2(MoreParts(parts[1..]), [Comma], last);
    }
  }

  lemma {:induction false} JoinedIsFirstAndMore(parts: seq<Tokens>)
    requires parts != []
    ensures Joined(parts) == parts[0] + MoreParts(parts[1..])
  {
    if |parts| == 1 {
      assert parts[0] + [] == parts[0];
    } else {
      var n := |parts| - 1;
      JoinedIsFirstAndMore(parts[..n]);
      assert parts[..n][1..] + [parts[n]] == parts[1..];
      MorePartsLast(parts[..n][1..], parts[n]);
      Regroup3(parts[0], MoreParts(parts[..n][1..]), [Comma], parts[n]);
      Regroup2(MoreParts(parts[..n][1..]), [Comma], parts[n]);
    }
  }

  /** The parser reads this text back as this item, whatever follows. */
  ghost predicate Reads<T(!new)>(item: Tokens -> Parse<T>, part: Tokens, x: T) {
    forall rest :: item(part + rest) == Some((x, rest))
  }

  ghost predicate AllRead<T(!new)>(item: Tokens -> Parse<T>, parts: seq<Tokens>, xs: seq<T>) {
    |parts| == |xs| && forall i :: 0 <= i < |xs| ==> Reads(item, parts[i], xs[i])
  }

  lemma {:induction false} MoreOfRoundTrip<T(!new)>(item: Tokens -> Parse<T>, parts: seq<Tokens>, xs: seq<T>, rest: Tokens)
    requires AllRead(item, parts, xs) && !StartsWith(rest, Comma)
    ensures ParseMoreOf(item, MoreParts(parts) + rest) == (xs, rest)
    decreases |parts|
  {
    if parts == [] {
      assert MoreParts(parts) + rest == rest;
    } else {
      var tail := MoreParts(parts[1..]) + rest;
      MoreOfRoundTrip(item, parts[1..], xs[1..], rest);
      Regroup3([Comma], parts[0], MoreParts(parts[1..]), rest);
      Behead(Comma, parts[0] + tail);
      assert Reads(item, parts[0], xs[0]);
      assert item(parts[0] + tail) == Some((xs[0], tail));
      assert [xs[0]] + xs[1..] == xs;
    }
  }

  lemma ListRoundTrip<T(!new)>(item: Tokens -> Parse<T>, parts: seq<Tokens>, xs: seq<T>, rest: Tokens)
    requires AllRead(item, parts, xs) && !StartsWith(rest, Comma) && item(rest) == None
    ensures ParseList(item, Joined(parts) + rest) == (xs, rest)
  {
    if parts == [] {
      assert Joined(parts) + rest == rest;
    } else {
      var tail := MoreParts(parts[1..]) + rest;
      JoinedIsFirstAndMore(parts);
      Regroup2(parts[0], MoreParts(parts[1..]), rest);
      assert Reads(item, parts[0], xs[0]);
      assert item(parts[0] + tail) == Some((xs[0], tail));
      MoreOfRoundTrip(item, parts[1..], xs[1..], rest);
      assert [xs[0]] + xs[1..] == xs;
    }
  }

  // ---- Items ----

  function ParseName(ts: Tokens): Parse<string> {
    if ts != [] && ts[0].Ident? then Some((ts[0].name, ts[1..])) else None
  }

  function ParseMark(ts: Tokens): Parse<Value> {
    if ts != [] && ts[0].Mark? && |ts[0].vals| == 1 then Some((ts[0].vals[0], ts[1..])) else None
  }

  function ParseRow(ts: Tokens): Parse<seq<Value>> {
    if !StartsWith(ts, LParen) then None
    else
      var (vals, rest) := ParseList(ParseMark, ts[1..]);
      if StartsWith(rest, RParen) then Some((vals, rest[1..])) else None
  }

  /** `col = ?`, or `col =` the proposed value of that same column, in the dialect's words. */
  function ParseAssign(d: Dialect, ts: Tokens): Parse<RAssign> {
    if |ts| < 3 || !ts[0].Ident? || !ts[1].Assign? then None
    else if ts[2].Mark? then (if |ts[2].vals| == 1 then Some((SetValue(ts[0].name, ts[2].vals[0]), ts[3..])) else None)
    else match d
      case MySQL =>
        if |ts| >= 6 && ts[2] == Fn("VALUES") && ts[3].LParen? && ts[4] == ts[0] && ts[5].RParen?
        then Some((SetColumn(ts[0].name), ts[6..])) else None
      case SQLite =>
        if |ts| >= 5 && ts[2] == Bare("excluded") && ts[3].Dot? && ts[4] == ts[0]
        then Some((SetColumn(ts[0].name), ts[5..])) else None
  }

  lemma NamesRead(names: seq<string>)
    ensures AllRead(ParseName, NameParts(names), names)
  {
    forall i | 0 <= i < |names|
      ensures Reads(ParseName, NameParts(names)[i], names[i])
    {
      forall rest: Tokens
        ensures ParseName([Ident(names[i])] + rest) == Some((names[i], rest))
      {
        Behead(Ident(names[i]), rest);
      }
    }
  }

  lemma MarksRead(vals: seq<Value>)
    ensures AllRead(ParseMark, MarkParts(vals), vals)
  {
    forall i | 0 <= i < |vals|
      ensures Reads(ParseMark, MarkParts(vals)[i], vals[i])
    {
      forall rest: Tokens
        ensures ParseMark([Mark([vals[i]])] + rest) == Some((vals[i], rest))
      {
        Behead(Mark([vals[i]]), rest);
      }
    }
  }

  lemma RowRoundTrip(vals: seq<Value>, rest: Tokens)
    ensures ParseRow(PrintRow(vals) + rest) == Some((vals, rest))
  {
    var tail := [RParen] + rest;
    MarksRead(vals);
    Behead(RParen, rest);
    ListRoundTrip(ParseMark, MarkParts(vals), vals, tail);
    Regroup3([LParen], Joined(MarkParts(vals)), [RParen], rest);
    Behead(LParen, Joined(MarkParts(vals)) + tail);
  }

  lemma RowsRead(rows: seq<seq<Value>>)
    ensures AllRead(ParseRow, RowParts(rows), rows)
  {
    forall i | 0 <= i < |rows|
      ensures Reads(ParseRow, RowParts(rows)[i], rows[i])
    {
      forall rest
        ensures ParseRow(PrintRow(rows[i]) + rest) == Some((rows[i], rest))
      {
        RowRoundTrip(rows[i], rest);
      }
    }
  }

  lemma AssignRoundTrip(d: Dialect, a: RAssign, rest: Tokens)
    ensures ParseAssign(d, PrintAssign(d, a) + rest) == Some((a, rest))
  {
    var ts := PrintAssign(d, a) + rest;
    if a.SetValue? {
      assert ts[3..] == rest;
    } else {
      assert ts[if d.MySQL? then 6 else 5..] == rest;
    }
  }

  lemma AssignsRead(d: Dialect, assigns: seq<RAssign>)
    ensures AllRead(ts => ParseAssign(d, ts), AssignParts(d, assigns), assigns)
  {
    forall i | 0 <= i < |assigns|
      ensures Reads(ts => ParseAssign(d, ts), AssignParts(d, assigns)[i], assigns[i])
    {
      forall rest
        ensures ParseAssign(d, PrintAssign(d, assigns[i]) + rest) == Some((assigns[i], rest))
      {
        AssignRoundTrip(d, assigns[i], rest);
      }
    }
  }

  // ---- Statements ----

  function ParseUpsertHead(d: Dialect, ts: Tokens): Parse<seq<string>> {
    if d.MySQL? then (if StartsWith(ts, Kw(OnDuplicate)) then Some(([], ts[1..])) else None)
    else if |ts| < 2 || ts[0] != Kw(OnConflict) || !ts[1].LParen? then None
    else
      var (names, rest) := ParseList(ParseName, ts[2..]);
      if |rest| >= 2 && rest[0].RParen? && rest[1] == Kw(DoUpdate) then Some((names, rest[2..])) else None
  }

  function ParseUpsert(d: Dialect, ts: Tokens): Parse<RUpsert> {
    match ParseUpsertHead(d, ts)
    case None => None
    case Some((conflict, rest)) =>
      var (assigns, rest') := ParseList(t => ParseAssign(d, t), rest);
      Some((RUpsert(d, conflict, assigns), rest'))
  }

  function ParseInsertHead(ts: Tokens): Parse<(string, seq<string>)> {
    if |ts| < 3 || ts[0] != Kw(Insert) || !ts[1].Ident? || !ts[2].LParen? then None
    else
      var (cols, rest) := ParseList(ParseName, ts[3..]);
      if |rest| >= 2 && rest[0].RParen? && rest[1] == Kw(Values) then Some(((ts[1].name, cols), rest[2..])) else None
  }

  /** A whole statement and nothing after it. */
  function ParseInsert(d: Dialect, ts: Tokens): Option<RInsert> {
    match ParseInsertHead(ts)
    case None => None
    case Some(((table, cols), t1)) =>
      var (rows, t2) := ParseList(ParseRow, t1);
      if t2 == [Semi] then Some(RInsert(table, cols, rows, None))
      else match ParseUpsert(d, t2)
        case None => None
        case Some((u, t3)) => if t3 == [Semi] then Some(RInsert(table, cols, rows, Some(u))) else None
  }

  /** What resolving yields: the dialect's own upsert, and conflict columns only where they are written. */
  predicate Fits(d: Dialect, r: RInsert) {
    r.upsert.Some? ==> r.upsert.value.dialect == d && (d.MySQL? ==> r.upsert.value.conflict == [])
  }

  lemma {:induction false} PrintMoreIsMoreParts(names: seq<string>)
    ensures PrintMore(names) == MoreParts(NameParts(names))
  {
    if names != [] {
      PrintMoreIsMoreParts(names[1..]);
      assert NameParts(names)[1..] == NameParts(names[1..]);
      assert [Comma, Ident(names[0])] == [Comma] + [Ident(names[0])];
    }
  }

  lemma PrintNamesIsJoined(names: seq<string>)
    ensures PrintNames(names) == Joined(NameParts(names))
  {
    if names != [] {
      JoinedIsFirstAndMore(NameParts(names));
      PrintMoreIsMoreParts(names[1..]);
      assert NameParts(names)[1..] == NameParts(names[1..]);
    }
  }

  /** A list of names in front of two closing tokens. */
  lemma NamesRoundTrip(names: seq<string>, close: Tokens, rest: Tokens)
    requires |close| == 2 && close[0] == RParen
    ensures var (ns, tail) := ParseList(ParseName, Joined(NameParts(names)) + (close + rest));
            ns == names && tail == close + rest && tail[0] == RParen && tail[1] == close[1] && tail[2..] == rest
  {
    NamesRead(names);
    ListRoundTrip(ParseName, NameParts(names), names, close + rest);
  }

  lemma UpsertHeadRoundTrip(d: Dialect, conflict: seq<string>, rest: Tokens)
    requires d.MySQL? ==> conflict == []
    ensures ParseUpsertHead(d, UpsertHead(d, conflict) + rest) == Some((conflict, rest))
  {
    if d.MySQL? {
      Behead(Kw(OnDuplicate), rest);
    } else {
      var open, close := [Kw(OnConflict), LParen], [RParen, Kw(DoUpdate)];
      PrintNamesIsJoined(conflict);
      NamesRoundTrip(conflict, close, rest);
      Regroup3(open, Joined(NameParts(conflict)), close, rest);
      assert (open + (Joined(NameParts(conflict)) + (close + rest)))[2..] == Joined(NameParts(conflict)) + (close + rest);
    }
  }

  lemma UpsertRoundTrip(u: RUpsert)
    requires u.dialect.MySQL? ==> u.conflict == []
    ensures ParseUpsert(u.dialect, PrintUpsert(u) + [Semi]) == Some((u, [Semi]))
  {
    var assigns := Joined(AssignParts(u.dialect, u.assigns));
    Regroup2(UpsertHead(u.dialect, u.conflict), assigns, [Semi]);
    UpsertHeadRoundTrip(u.dialect, u.conflict, assigns + [Semi]);
    AssignsRead(u.dialect, u.assigns);
    ListRoundTrip(t => ParseAssign(u.dialect, t), AssignParts(u.dialect, u.assigns), u.assigns, [Semi]);
  }

  lemma InsertHeadRoundTrip(table: string, cols: seq<string>, rest: Tokens)
    ensures ParseInsertHead(InsertHead(table, cols) + rest) == Some(((table, cols), rest))
  {
    var open, close := [Kw(Insert), Ident(table), LParen], [RParen, Kw(Values)];
    NamesRoundTrip(cols, close, rest);
    Regroup3(open, Joined(NameParts(cols)), close, rest);
    assert (open + (Joined(NameParts(cols)) + (close + rest)))[3..] == Joined(NameParts(cols)) + (close + rest);
  }

  function PrintEnd(r: RInsert): Tokens {
    (if r.upsert.None? then [] else PrintUpsert(r.upsert.value)) + [Semi]
  }

  lemma EndStart(r: RInsert)
    ensures PrintEnd(r) != [] && !PrintEnd(r)[0].Comma? && !PrintEnd(r)[0].LParen?
    ensures r.upsert.Some? ==> PrintEnd(r)[0] != Semi
  {
    if r.upsert.Some? {
      var u := r.upsert.value;
      assert UpsertHead(u.dialect, u.conflict)[0] == if u.dialect.MySQL? then Kw(OnDuplicate) else Kw(OnConflict);
      assert PrintEnd(r)[0] == UpsertHead(u.dialect, u.conflict)[0];
    }
  }

  /** Printing then parsing gives back the table, the columns, every row and the upsert, in either dialect. */
  lemma InsertRoundTrip(d: Dialect, r: RInsert)
    requires Fits(d, r)
    ensures ParseInsert(d, PrintInsert(r)) == Some(r)
  {
    var head, rows, end := InsertHead(r.table, r.cols), Joined(RowParts(r.rows)), PrintEnd(r);
    var upsert := if r.upsert.None? then [] else PrintUpsert(r.upsert.value);
    Regroup2(head + rows, upsert, [Semi]);
    Regroup2(head, rows, end);
    InsertHeadRoundTrip(r.table, r.cols, rows + end);
    EndStart(r);
    RowsRead(r.rows);
    ListRoundTrip(ParseRow, RowParts(r.rows), r.rows, end);
    if r.upsert.Some? {
      UpsertRoundTrip(r.upsert.value);
    } else {
      assert end == [Semi];
    }
  }

  /** So two inserts with the same text and values are the same insert. */
  lemma InsertTextIsInjective(d: Dialect, a: RInsert, b: RInsert)
    requires Fits(d, a) && Fits(d, b) && PrintInsert(a) == PrintInsert(b)
    ensures a == b
  {
    InsertRoundTrip(d, a);
    InsertRoundTrip(d, b);
  }

  lemma ResolvedFits(m: Model, d: Dialect, columns: seq<string>, rows: seq<Row>, upsert: Option<Upsert>)
    requires WellFormed(m) && ResolveInsert(m, d, columns, rows, upsert).Ok?
    ensures Fits(d, ResolveInsert(m, d, columns, rows, upsert).value)
  {
  }

  /** What a database makes of the text and the arguments of an insert: exactly the insert that was asked for. */
  lemma TextMeansInsert(d: Dialect, r: RInsert)
    requires Fits(d, r)
    ensures var text := Erase(PrintInsert(r));
            Marks(text) == |InsertArgs(r)| && Bind(text, InsertArgs(r)).Some?
            && ParseInsert(d, Bind(text, InsertArgs(r)).value) == Some(r)
  {
    InsertTakes(r);
    BindRestores(PrintInsert(r));
    InsertRoundTrip(d, r);
  }
}
