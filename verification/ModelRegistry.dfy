/** Column names of struct fields, and the registry that indexes a struct's fields by name and by column. */
module ModelRegistry {
  import opened Wrappers
  import opened Strings

  datatype Error = PointerOnly | InvalidTag(pair: string) | UnknownField(name: string)

  datatype Result<T> = Ok(value: T) | Err(error: Error)

  // ---- underscoreName ----

  /** What Go's `unicode` package says of a code point. */
  datatype Unicode = Unicode(isUpper: char -> bool, toLower: char -> char)

  predicate IsUpper(c: char) { 'A' <= c <= 'Z' }

  predicate IsLower(c: char) { 'a' <= c <= 'z' }

  function ToLower(c: char): char { if IsUpper(c) then c + ' ' else c }

  function ToUpper(c: char): char { if IsLower(c) then c - ' ' else c }

  predicate Ascii(name: string) {
    forall i :: 0 <= i < |name| ==> name[i] as int < 128
  }

  /** On ASCII the tables know the capital letters and their small ones. */
  ghost predicate OnAscii(u: Unicode) {
    forall c: char :: c as int < 128 ==> (u.isUpper(c) <==> IsUpper(c)) && (IsUpper(c) ==> u.toLower(c) == ToLower(c))
  }

  /** A code point cut to a byte. */
  function Byte(c: char): char {
    (c as int % 256) as char
  }

  /** What is written for one code point. */
  function Spelled(u: Unicode, c: char, first: bool): string {
    if u.isUpper(c) then (if first then "" else "_") + [Byte(u.toLower(c))] else [Byte(c)]
  }

  function SpelledRest(u: Unicode, name: string): string {
    if name == "" then "" else Spelled(u, name[0], false) + SpelledRest(u, name[1..])
  }

  function Underscore(u: Unicode, name: string): string {
    if name == "" then "" else Spelled(u, name[0], true) + SpelledRest(u, name[1..])
  }

  /** Reading a column name back: an underscore goes, and a small letter behind one becomes a capital. */
  function CamelRest(col: string): (name: string)
    ensures '_' !in name
  {
    if col == "" then ""
    else if col[0] != '_' then [col[0]] + CamelRest(col[1..])
    else if |col| > 1 && IsLower(col[1]) then [ToUpper(col[1])] + CamelRest(col[2..])
    else CamelRest(col[1..])
  }

  function Camel(col: string): (name: string)
    ensures '_' !in name
    ensures name != "" ==> col != "" && (col[0] != '_' ==> !IsLower(name[0]))
  {
    if col == "" || col[0] == '_' then CamelRest(col) else [ToUpper(col[0])] + CamelRest(col[1..])
  }

  predicate Clean(name: string) {
    '_' !in name && (name == "" || !IsLower(name[0]))
  }

  lemma {:induction false} CamelRestOfSpelled(u: Unicode, name: string)
    requires OnAscii(u) && Ascii(name) && '_' !in name
    ensures CamelRest(SpelledRest(u, name)) == name
  {
    if name != "" {
      CamelRestOfSpelled(u, name[1..]);
      var c, rest := name[0], SpelledRest(u, name[1..]);
      assert c in name;
      if u.isUpper(c) {
        assert SpelledRest(u, name) == ['_', ToLower(c)] + rest;
        assert SpelledRest(u, name)[2..] == rest;
      } else {
        assert SpelledRest(u, name) == [c] + rest;
      }
      assert name == [c] + name[1..];
    }
  }

  /** On ASCII names the column name gives back the field name exactly when that has no underscore and no small first letter. */
  lemma CamelOfUnderscoreIff(u: Unicode, name: string)
    requires OnAscii(u) && Ascii(name)
    ensures Camel(Underscore(u, name)) == name <==> Clean(name)
  {
    if name != "" {
      var c := name[0];
      assert Underscore(u, name) == [ToLower(c)] + SpelledRest(u, name[1..]);
      assert name == [c] + name[1..];
      if Clean(name) {
        CamelRestOfSpelled(u, name[1..]);
      } else if c == '_' {
        assert '_' in name;
      }
    }
  }

  /** So clean names have distinct columns, while an underscore or a small first letter can collide. */
  lemma CleanNamesDoNotCollide(u: Unicode, a: string, b: string)
    requires OnAscii(u) && Ascii(a) && Ascii(b) && Clean(a) && Clean(b)
    ensures Underscore(u, a) == Underscore(u, b) ==> a == b
  {
    CamelOfUnderscoreIff(u, a);
    CamelOfUnderscoreIff(u, b);
  }

  lemma UncleanNamesCollide(u: Unicode)
    requires OnAscii(u)
    ensures "A_b" != "AB" && Underscore(u, "A_b") == Underscore(u, "AB") == "a_b"
    ensures "id" != "Id" && Underscore(u, "id") == Underscore(u, "Id") == "id"
  {
    assert SpelledRest(u, "b") == "b" && SpelledRest(u, "_b") == "_b" && SpelledRest(u, "B") == "_b";
    assert SpelledRest(u, "d") == "d";
  }

  /** Outside ASCII, cutting to a byte makes clean names collide: `\u0161` is written as `a`. */
  lemma CutNamesCollide(u: Unicode)
    requires OnAscii(u) && !u.isUpper('\U{0161}')
    ensures Clean("A\U{0161}") && Clean("Aa") && Underscore(u, "A\U{0161}") == Underscore(u, "Aa")
  {
    assert SpelledRest(u, "\U{0161}") == "a" && SpelledRest(u, "a") == "a";
  }

  lemma {:induction false} SpelledRestSnoc(u: Unicode, name: string, c: char)
    ensures SpelledRest(u, name + [c]) == SpelledRest(u, name) + Spelled(u, c, false)
  {
    if name == "" {
      assert (name + [c])[1..] == "";
    } else {
      SpelledRestSnoc(u, name[1..], c);
      assert (name + [c])[1..] == name[1..] + [c];
    }
  }

  lemma UnderscoreSnoc(u: Unicode, name: string, c: char)
    ensures Underscore(u, name + [c]) == Underscore(u, name) + Spelled(u, c, name == "")
  {
    if name == "" {
      assert (name + [c])[1..] == "";
    } else {
      SpelledRestSnoc(u, name[1..], c);
      assert (name + [c])[1..] == name[1..] + [c];
    }
  }

  method UnderscoreName(u: Unicode, name: string) returns (buf: string)
    ensures buf == Underscore(u, name)
  {
    buf := "";
    var i := 0;
    while i < |name|
      invariant i <= |name| && buf == Underscore(u, name[..i])
    {
      var v := name[i];
      UnderscoreSnoc(u, name[..i], v);
      assert name[..i + 1] == name[..i] + [v];
      if u.isUpper(v) {
        if i != 0 {
          buf := buf + "_";
        }
        buf := buf + [Byte(u.toLower(v))];
      } else {
        buf := buf + [Byte(v)];
      }
      i := i + 1;
    }
    assert name[..i] == name;
  }

  // ---- parseTag ----

  type Pairs = map<string, string>

  /** The pairs of a tag one by one, the last of a key winning. */
  function ParsePairs(pairs: seq<string>): Result<Pairs> {
    if pairs == [] then Ok(map[])
    else
      var last := pairs[|pairs| - 1];
      var segs := Split(last, '=');
      match ParsePairs(pairs[..|pairs| - 1])
      case Err(e) => Err(e)
      case Ok(m) => if |segs| == 2 then Ok(m[segs[0] := segs[1]]) else Err(InvalidTag(last))
  }

  /** No tag is no pairs; an empty tag is one pair that is not well-formed. */
  function ParseTag(tag: Option<string>): Result<Pairs> {
    if tag.None? then Ok(map[]) else ParsePairs(Split(tag.value, ','))
  }

  lemma {:induction false} ParseStops(pairs: seq<string>, n: nat)
    requires n <= |pairs| && ParsePairs(pairs[..n]).Err?
    ensures ParsePairs(pairs) == ParsePairs(pairs[..n])
    decreases |pairs| - n
  {
    if n < |pairs| {
      assert pairs[..n + 1][..n] == pairs[..n];
      ParseStops(pairs, n + 1);
    } else {
      assert pairs[..n] == pairs;
    }
  }

  predicate OneEquals(pair: string) {
    Occurrences(pair, '=') == 1
  }

  /** A tag is taken exactly when each of its pairs holds exactly one `=`, ... */
  lemma {:induction false} ParseSucceedsIff(pairs: seq<string>)
    ensures ParsePairs(pairs).Ok? <==> forall i :: 0 <= i < |pairs| ==> OneEquals(pairs[i])
  {
    if pairs != [] {
      var n := |pairs| - 1;
      ParseSucceedsIff(pairs[..n]);
      SplitCount(pairs[n], '=');
      assert pairs == pairs[..n] + [pairs[n]];
    }
  }

  /** ... and is otherwise refused over the first that does not. */
  lemma ParseNamesFirstBadPair(pairs: seq<string>, i: nat)
    requires i < |pairs| && !OneEquals(pairs[i]) && forall j :: 0 <= j < i ==> OneEquals(pairs[j])
    ensures ParsePairs(pairs) == Err(InvalidTag(pairs[i]))
  {
    ParseSucceedsIff(pairs[..i]);
    SplitCount(pairs[i], '=');
    assert pairs[..i + 1][..i] == pairs[..i];
    ParseStops(pairs, i + 1);
  }

  datatype Setting = Setting(key: string, val: string)

  function Written(settings: seq<Setting>): seq<string> {
    seq(|settings|, i requires 0 <= i < |settings| => settings[i].key + "=" + settings[i].val)
  }

  function Settings(settings: seq<Setting>): Pairs {
    if settings == [] then map[]
    else var last := settings[|settings| - 1]; Settings(settings[..|settings| - 1])[last.key := last.val]
  }

  predicate Plain(s: string) {
    ',' !in s && '=' !in s
  }

  lemma SplitSetting(s: Setting)
    requires Plain(s.key) && Plain(s.val)
    ensures Split(s.key + "=" + s.val, '=') == [s.key, s.val]
  {
    SplitOfJoin([s.key, s.val], '=');
    assert Join([s.key, s.val][1..], '=') == s.val;
    assert Join([s.key, s.val], '=') == s.key + "=" + s.val;
  }

  lemma {:induction false} PairsRoundTrip(settings: seq<Setting>)
    requires forall i :: 0 <= i < |settings| ==> Plain(settings[i].key) && Plain(settings[i].val)
    ensures ParsePairs(Written(settings)) == Ok(Settings(settings))
  {
    if settings != [] {
      var n := |settings| - 1;
      PairsRoundTrip(settings[..n]);
      assert Written(settings)[..n] == Written(settings[..n]);
      SplitSetting(settings[n]);
    }
  }

  /** A tag written from settings is read back as those settings. */
  lemma TagRoundTrip(settings: seq<Setting>)
    requires settings != [] && forall i :: 0 <= i < |settings| ==> Plain(settings[i].key) && Plain(settings[i].val)
    ensures ParseTag(Some(Join(Written(settings), ','))) == Ok(Settings(settings))
  {
    SplitOfJoin(Written(settings), ',');
    PairsRoundTrip(settings);
  }

  method ParseTagText(tag: Option<string>) returns (r: Result<Pairs>)
    ensures r == ParseTag(tag)
  {
    if tag.None? {
      return Ok(map[]);
    }
    var pairs := Split(tag.value, ',');
    var res: Pairs := map[];
    var i := 0;
    while i < |pairs|
      invariant i <= |pairs| && ParsePairs(pairs[..i]) == Ok(res)
    {
      var segs := Split(pairs[i], '=');
      assert pairs[..i + 1][..i] == pairs[..i];
      if |segs| != 2 {
        ParseStops(pairs, i + 1);
        return Err(InvalidTag(pairs[i]));
      }
      res := res[segs[0] := segs[1]];
      i := i + 1;
    }
    assert pairs[..i] == pairs;
    r := Ok(res);
  }

  // ---- Register ----

  /** The type and the offset only travel along. */
  datatype FieldDef = FieldDef(name: string, tag: Option<string>, typ: int, offset: nat)

  datatype Field = Field(colName: string, typ: int, goName: string, offset: nat)

  /** The three hold the same field pointers, which here are positions in `fields`. */
  datatype Model = Model(tableName: string, fields: seq<Field>, fieldMap: map<string, nat>, columnMap: map<string, nat>)

  function ColumnOf(u: Unicode, pairs: Pairs, name: string): string {
    if "column" in pairs && pairs["column"] != "" then pairs["column"] else Underscore(u, name)
  }

  function FieldOf(u: Unicode, def: FieldDef): Result<Field> {
    match ParseTag(def.tag)
    case Err(e) => Err(e)
    case Ok(pairs) => Ok(Field(ColumnOf(u, pairs, def.name), def.typ, def.name, def.offset))
  }

  /** All fields, or the error of the first tag that is refused. */
  function FieldsOf(u: Unicode, defs: seq<FieldDef>): Result<seq<Field>> {
    if defs == [] then Ok([])
    else
      match FieldsOf(u, defs[..|defs| - 1])
      case Err(e) => Err(e)
      case Ok(fields) =>
        match FieldOf(u, defs[|defs| - 1])
        case Err(e) => Err(e)
        case Ok(f) => Ok(fields + [f])
  }

  function Names(fields: seq<Field>): seq<string> {
    seq(|fields|, i requires 0 <= i < |fields| => fields[i].goName)
  }

  function Columns(fields: seq<Field>): seq<string> {
    seq(|fields|, i requires 0 <= i < |fields| => fields[i].colName)
  }

  /** The map a loop of assignments leaves: each key to the last position that has it. */
  function IndexMap(keys: seq<string>): map<string, nat> {
    if keys == [] then map[] else IndexMap(keys[..|keys| - 1])[keys[|keys| - 1] := |keys| - 1]
  }

  ghost predicate Indexes(m: map<string, nat>, keys: seq<string>) {
    (forall k :: k in m <==> k in keys)
    && (forall k :: k in m ==> m[k] < |keys| && keys[m[k]] == k && forall j :: m[k] < j < |keys| ==> keys[j] != k)
  }

  /** Every position has a key, and no two keys have the same position. */
  ghost predicate Bijection(m: map<string, nat>, n: nat) {
    (forall i: nat :: i < n <==> i in m.Values) && (forall a, b :: a in m && b in m && m[a] == m[b] ==> a == b)
  }

  lemma {:induction false} IndexMapIndexes(keys: seq<string>)
    ensures Indexes(IndexMap(keys), keys)
  {
    if keys != [] {
      var n := |keys| - 1;
      IndexMapIndexes(keys[..n]);
      assert keys == keys[..n] + [keys[n]];
    }
  }

  /** An index is a bijection exactly when no key repeats. */
  lemma BijectionIff(m: map<string, nat>, keys: seq<string>)
    requires Indexes(m, keys)
    ensures Bijection(m, |keys|) <==> Distinct(keys)
    ensures Distinct(keys) ==> forall i :: 0 <= i < |keys| ==> keys[i] in m && m[keys[i]] == i
  {
    if Distinct(keys) {
      forall i: nat | i < |keys|
        ensures keys[i] in m && m[keys[i]] == i && i in m.Values
      {
        assert keys[i] in keys;
      }
    } else {
      var i, j :| 0 <= i < j < |keys| && keys[i] == keys[j];
      assert forall k :: k in m ==> m[k] != i;
      assert i !in m.Values;
    }
  }

  datatype Shape = Struct(name: string, fields: seq<FieldDef>, table: Option<string>) | Other

  /** A value handed to the registry: its type, and what a pointer to it points at. */
  datatype Entity = Entity(typ: nat, shape: Shape)

  function Built(u: Unicode, shape: Shape): Result<Model> {
    match shape
    case Other => Err(PointerOnly)
    case Struct(name, defs, table) =>
      match FieldsOf(u, defs)
      case Err(e) => Err(e)
      case Ok(fields) =>
        Ok(Model(if table.Some? && table.value != "" then table.value else Underscore(u, name),
                 fields, IndexMap(Names(fields)), IndexMap(Columns(fields))))
  }

  lemma {:induction false} FieldsMatch(u: Unicode, defs: seq<FieldDef>)
    ensures FieldsOf(u, defs).Ok? <==> forall i :: 0 <= i < |defs| ==> ParseTag(defs[i].tag).Ok?
    ensures FieldsOf(u, defs).Ok? ==>
              |FieldsOf(u, defs).value| == |defs|
              && forall i :: 0 <= i < |defs| ==> FieldOf(u, defs[i]) == Ok(FieldsOf(u, defs).value[i])
  {
    if defs != [] {
      FieldsMatch(u, defs[..|defs| - 1]);
    }
  }

  lemma {:induction false} FieldsStop(u: Unicode, defs: seq<FieldDef>, n: nat)
    requires n <= |defs| && FieldsOf(u, defs[..n]).Err?
    ensures FieldsOf(u, defs) == FieldsOf(u, defs[..n])
    decreases |defs| - n
  {
    if n < |defs| {
      assert defs[..n + 1][..n] == defs[..n];
      FieldsStop(u, defs, n + 1);
    } else {
      assert defs[..n] == defs;
    }
  }

  /** Registration fails on nothing but a value that is no pointer to a struct, or a tag that is refused. */
  lemma BuiltIff(u: Unicode, shape: Shape)
    ensures Built(u, shape).Ok? <==> shape.Struct? && forall i :: 0 <= i < |shape.fields| ==> ParseTag(shape.fields[i].tag).Ok?
  {
    if shape.Struct? {
      FieldsMatch(u, shape.fields);
    }
  }

  /** The column index is a bijection exactly when no two columns coincide, the name index when no two names do. */
  lemma BuiltIndexes(u: Unicode, shape: Shape)
    requires Built(u, shape).Ok?
    ensures var m := Built(u, shape).value;
            (Bijection(m.fieldMap, |m.fields|) <==> Distinct(Names(m.fields)))
            && (Bijection(m.columnMap, |m.fields|) <==> Distinct(Columns(m.fields)))
            && Indexes(m.fieldMap, Names(m.fields)) && Indexes(m.columnMap, Columns(m.fields))
  {
    var m := Built(u, shape).value;
    IndexMapIndexes(Names(m.fields));
    IndexMapIndexes(Columns(m.fields));
    BijectionIff(m.fieldMap, Names(m.fields));
    BijectionIff(m.columnMap, Columns(m.fields));
  }

  ghost predicate UntaggedAndClean(defs: seq<FieldDef>) {
    (forall i :: 0 <= i < |defs| ==> defs[i].tag.None? && Ascii(defs[i].name) && Clean(defs[i].name))
    && forall i, j :: 0 <= i < j < |defs| ==> defs[i].name != defs[j].name
  }

  lemma UntaggedFields(u: Unicode, defs: seq<FieldDef>)
    requires OnAscii(u) && UntaggedAndClean(defs)
    ensures FieldsOf(u, defs).Ok? && |FieldsOf(u, defs).value| == |defs|
    ensures forall i :: 0 <= i < |defs| ==>
              var f := FieldsOf(u, defs).value[i]; f.goName == defs[i].name && f.colName == Underscore(u, defs[i].name)
  {
    FieldsMatch(u, defs);
    forall i | 0 <= i < |defs|
      ensures var f := FieldsOf(u, defs).value[i]; f.goName == defs[i].name && f.colName == Underscore(u, defs[i].name)
    {
      assert FieldOf(u, defs[i]) == Ok(FieldsOf(u, defs).value[i]);
    }
  }

  lemma UntaggedAreDistinct(u: Unicode, defs: seq<FieldDef>)
    requires OnAscii(u) && UntaggedAndClean(defs)
    ensures FieldsOf(u, defs).Ok? && Distinct(Names(FieldsOf(u, defs).value)) && Distinct(Columns(FieldsOf(u, defs).value))
  {
    UntaggedFields(u, defs);
    var fields := FieldsOf(u, defs).value;
    forall i, j | 0 <= i < j < |fields|
      ensures Names(fields)[i] != Names(fields)[j] && Columns(fields)[i] != Columns(fields)[j]
    {
      CleanNamesDoNotCollide(u, defs[i].name, defs[j].name);
    }
  }

  /** An untagged struct with clean, distinct names gets three views of the same fields, each in bijection with them. */
  lemma UntaggedStructIsIndexed(u: Unicode, name: string, defs: seq<FieldDef>, table: Option<string>)
    requires OnAscii(u) && UntaggedAndClean(defs)
    ensures var r := Built(u, Struct(name, defs, table));
            r.Ok? && |r.value.fields| == |defs|
            && Bijection(r.value.fieldMap, |defs|) && Bijection(r.value.columnMap, |defs|)
            && forall i :: 0 <= i < |defs| ==>
                 var n := defs[i].name;
                 r.value.fields[i].goName == n && r.value.fields[i].colName == Underscore(u, n)
                 && n in r.value.fieldMap && r.value.fieldMap[n] == i
                 && Underscore(u, n) in r.value.columnMap && r.value.columnMap[Underscore(u, n)] == i
  {
    UntaggedFields(u, defs);
    UntaggedAreDistinct(u, defs);
    BuiltIndexes(u, Struct(name, defs, table));
    var m := Built(u, Struct(name, defs, table)).value;
    BijectionIff(m.fieldMap, Names(m.fields));
    BijectionIff(m.columnMap, Columns(m.fields));
    forall i | 0 <= i < |defs|
      ensures Names(m.fields)[i] == defs[i].name && Columns(m.fields)[i] == Underscore(u, defs[i].name)
    {
    }
  }

  // ---- Columns and tables, written out ----

  /** The settings' last word on a key. */
  predicate LastSetting(settings: seq<Setting>, key: string, j: nat) {
    j < |settings| && settings[j].key == key && forall i :: j < i < |settings| ==> settings[i].key != key
  }

  lemma {:induction false} SettingsAre(settings: seq<Setting>, key: string)
    ensures key in Settings(settings) <==> exists i :: 0 <= i < |settings| && settings[i].key == key
    ensures forall j: nat :: LastSetting(settings, key, j) ==> key in Settings(settings) && Settings(settings)[key] == settings[j].val
  {
    if settings != [] {
      var n := |settings| - 1;
      SettingsAre(settings[..n], key);
      forall j: nat | LastSetting(settings, key, j)
        ensures key in Settings(settings) && Settings(settings)[key] == settings[j].val
      {
        assert j < n ==> LastSetting(settings[..n], key, j);
      }
    }
  }

  /** What is built of each field, and the table: the type's own name for it if it has one, else its name in underscores. */
  lemma BuiltInWords(u: Unicode, shape: Shape, i: nat)
    requires Built(u, shape).Ok? && i < |shape.fields|
    ensures var m := Built(u, shape).value; var def := shape.fields[i];
            && m.tableName == (if shape.table.Some? && shape.table.value != "" then shape.table.value else Underscore(u, shape.name))
            && |m.fields| == |shape.fields|
            && m.fields[i].goName == def.name && m.fields[i].typ == def.typ && m.fields[i].offset == def.offset
            && (def.tag == None ==> m.fields[i].colName == Underscore(u, def.name))
  {
    FieldsMatch(u, shape.fields);
    assert FieldOf(u, shape.fields[i]) == Ok(Built(u, shape).value.fields[i]);
  }

  /** A `column` setting in the tag, the last one if there are more, names the column unless it is empty. */
  lemma TagNamesColumn(u: Unicode, shape: Shape, i: nat, settings: seq<Setting>)
    requires Built(u, shape).Ok? && i < |shape.fields| && settings != []
    requires forall k :: 0 <= k < |settings| ==> Plain(settings[k].key) && Plain(settings[k].val)
    requires shape.fields[i].tag == Some(Join(Written(settings), ','))
    ensures |Built(u, shape).value.fields| == |shape.fields|
    ensures forall j: nat :: LastSetting(settings, "column", j) ==>
              Built(u, shape).value.fields[i].colName
              == if settings[j].val != "" then settings[j].val else Underscore(u, shape.fields[i].name)
    ensures (forall j :: 0 <= j < |settings| ==> settings[j].key != "column")
            ==> Built(u, shape).value.fields[i].colName == Underscore(u, shape.fields[i].name)
  {
    FieldsMatch(u, shape.fields);
    assert FieldOf(u, shape.fields[i]) == Ok(Built(u, shape).value.fields[i]);
    TagRoundTrip(settings);
    SettingsAre(settings, "column");
  }

  // ---- Options ----

  datatype Opt = WithColumnName(field: string, column: string) | WithTableName(table: string)

  ghost predicate InRange(m: Model) {
    forall k :: k in m.fieldMap ==> m.fieldMap[k] < |m.fields|
  }

  /** Renaming a column goes through the shared field; the column index keeps its old key. */
  function ApplyOpt(m: Model, opt: Opt): (r: Result<Model>)
    requires InRange(m)
    ensures r.Ok? ==> InRange(r.value)
  {
    match opt
    case WithTableName(t) => Ok(m.(tableName := t))
    case WithColumnName(f, c) =>
      if f !in m.fieldMap then Err(UnknownField(f))
      else
        var i := m.fieldMap[f];
        Ok(m.(fields := m.fields[i := m.fields[i].(colName := c)]))
  }

  function ApplyOpts(m: Model, opts: seq<Opt>): (r: Result<Model>)
    requires InRange(m)
    ensures r.Ok? ==> InRange(r.value)
    decreases |opts|
  {
    if opts == [] then Ok(m)
    else
      match ApplyOpt(m, opts[0])
      case Err(e) => Err(e)
      case Ok(m') => ApplyOpts(m', opts[1..])
  }

  /** The column a field ends with: the last one given to it. */
  function FinalColumn(opts: seq<Opt>, name: string, column: string): string
    decreases |opts|
  {
    if opts == [] then column
    else FinalColumn(opts[1..], name, if opts[0].WithColumnName? && opts[0].field == name then opts[0].column else column)
  }

  /** Every field's own column leads back to it. */
  ghost predicate Consistent(m: Model) {
    forall i :: 0 <= i < |m.fields| ==> m.fields[i].colName in m.columnMap && m.columnMap[m.fields[i].colName] == i
  }

  lemma {:induction false} OptionsRename(m: Model, opts: seq<Opt>)
    requires InRange(m) && Indexes(m.fieldMap, Names(m.fields)) && Distinct(Names(m.fields))
    requires ApplyOpts(m, opts).Ok?
    ensures var r := ApplyOpts(m, opts).value;
            r.fieldMap == m.fieldMap && r.columnMap == m.columnMap && |r.fields| == |m.fields|
            && forall i :: 0 <= i < |m.fields| ==>
                 r.fields[i] == m.fields[i].(colName := FinalColumn(opts, m.fields[i].goName, m.fields[i].colName))
    decreases |opts|
  {
    if opts != [] {
      var m' := ApplyOpt(m, opts[0]).value;
      OneOptionRenames(m, opts[0]);
      OptionsRename(m', opts[1..]);
      assert forall i :: 0 <= i < |m.fields| ==> m'.fields[i].goName == m.fields[i].goName;
    }
  }

  lemma OneOptionRenames(m: Model, opt: Opt)
    requires InRange(m) && Indexes(m.fieldMap, Names(m.fields)) && Distinct(Names(m.fields)) && ApplyOpt(m, opt).Ok?
    ensures var r := ApplyOpt(m, opt).value;
            r.fieldMap == m.fieldMap && r.columnMap == m.columnMap && Names(r.fields) == Names(m.fields)
            && forall i :: 0 <= i < |m.fields| ==>
                 r.fields[i] == m.fields[i].(colName :=
                   if opt.WithColumnName? && opt.field == m.fields[i].goName then opt.column else m.fields[i].colName)
  {
    BijectionIff(m.fieldMap, Names(m.fields));
    assert forall i :: 0 <= i < |m.fields| ==> Names(m.fields)[i] == m.fields[i].goName;
  }

  /** The last table option names the table, and no other option touches it. */
  lemma {:induction false} OptionsNameTable(m: Model, opts: seq<Opt>)
    requires InRange(m) && ApplyOpts(m, opts).Ok?
    ensures forall j :: 0 <= j < |opts| && opts[j].WithTableName? && (forall i :: j < i < |opts| ==> !opts[i].WithTableName?)
                        ==> ApplyOpts(m, opts).value.tableName == opts[j].table
    ensures (forall i :: 0 <= i < |opts| ==> !opts[i].WithTableName?) ==> ApplyOpts(m, opts).value.tableName == m.tableName
    decreases |opts|
  {
    if opts != [] {
      var rest := opts[1..];
      OptionsNameTable(ApplyOpt(m, opts[0]).value, rest);
      assert forall i :: 0 < i < |opts| ==> opts[i] == rest[i - 1];
    }
  }

  /** Options leave the column index right exactly when each field ends with the column it began with. */
  lemma OptionsKeepIndexIff(u: Unicode, shape: Shape, opts: seq<Opt>)
    requires Built(u, shape).Ok?
    requires Distinct(Names(Built(u, shape).value.fields)) && Distinct(Columns(Built(u, shape).value.fields))
    ensures var m := Built(u, shape).value;
            InRange(m) && (ApplyOpts(m, opts).Ok? ==>
              (Consistent(ApplyOpts(m, opts).value)
               <==> forall i :: 0 <= i < |m.fields| ==> FinalColumn(opts, m.fields[i].goName, m.fields[i].colName) == m.fields[i].colName))
  {
    var m := Built(u, shape).value;
    BuiltIndexes(u, shape);
    if ApplyOpts(m, opts).Ok? {
      OptionsRename(m, opts);
      BijectionIff(m.columnMap, Columns(m.fields));
      var r := ApplyOpts(m, opts).value;
      forall i | 0 <= i < |m.fields|
        ensures (r.fields[i].colName in m.columnMap && m.columnMap[r.fields[i].colName] == i)
                <==> r.fields[i].colName == m.fields[i].colName
      {
        assert Columns(m.fields)[i] == m.fields[i].colName;
        assert Columns(m.fields)[i] in m.columnMap;
      }
    }
  }

  // ---- The code ----

  type Models = map<nat, Model>

  /** Only a registration that succeeds is remembered. */
  function Registered(u: Unicode, models: Models, entity: Entity, opts: seq<Opt>): (Models, Result<Model>) {
    match Built(u, entity.shape)
    case Err(e) => (models, Err(e))
    case Ok(m) =>
      BuiltInRange(u, entity.shape);
      match ApplyOpts(m, opts)
      case Err(e) => (models, Err(e))
      case Ok(r) => (models[entity.typ := r], Ok(r))
  }

  lemma BuiltInRange(u: Unicode, shape: Shape)
    requires Built(u, shape).Ok?
    ensures InRange(Built(u, shape).value)
  {
    BuiltIndexes(u, shape);
  }

  function Gotten(u: Unicode, models: Models, entity: Entity): (Models, Result<Model>) {
    if entity.typ in models then (models, Ok(models[entity.typ])) else Registered(u, models, entity, [])
  }

  /** After a registration, options and all, every Get of the type gives that model and changes nothing. */
  lemma GetAfterRegister(u: Unicode, models: Models, entity: Entity, opts: seq<Opt>, again: Entity)
    requires again.typ == entity.typ && Registered(u, models, entity, opts).1.Ok?
    ensures Gotten(u, Registered(u, models, entity, opts).0, again) == Registered(u, models, entity, opts)
  {
  }

  /** A registration that succeeds is remembered for its type and no other; one that fails changes nothing. */
  lemma RegisterRemembers(u: Unicode, models: Models, entity: Entity, opts: seq<Opt>)
    ensures var (after, r) := Registered(u, models, entity, opts);
            if r.Ok? then after == models[entity.typ := r.value] else after == models
    ensures opts == [] ==> Registered(u, models, entity, opts).1 == Built(u, entity.shape)
  {
  }

  /** A Get of a type that is not there registers it without options; of one that is, it looks no further. */
  lemma GetRegistersOnce(u: Unicode, models: Models, entity: Entity)
    ensures entity.typ in models ==> Gotten(u, models, entity) == (models, Ok(models[entity.typ]))
    ensures entity.typ !in models ==>
              var (after, r) := Gotten(u, models, entity);
              r == Built(u, entity.shape) && after == if r.Ok? then models[entity.typ := r.value] else models
  {
  }

  class Registry {
    const u: Unicode
    var models: Models

    constructor (u: Unicode)
      ensures this.u == u && models == map[]
    {
      this.u, models := u, map[];
    }

    method GetModel(entity: Entity) returns (r: Result<Model>)
      modifies this
      ensures (models, r) == Gotten(u, old(models), entity)
    {
      if entity.typ in models {
        return Ok(models[entity.typ]);
      }
      r := Register(entity, []);
    }

    method Register(entity: Entity, opts: seq<Opt>) returns (r: Result<Model>)
      modifies this
      ensures (models, r) == Registered(u, old(models), entity, opts)
    {
      if entity.shape.Other? {
        return Err(PointerOnly);
      }
      r := BuildModel(u, entity.shape);
      if r.Err? {
        return;
      }
      BuiltInRange(u, entity.shape);
      r := RunOptions(r.value, opts);
      if r.Ok? {
        models := models[entity.typ := r.value];
      }
    }
  }

  method ParseField(u: Unicode, def: FieldDef) returns (r: Result<Field>)
    ensures r == FieldOf(u, def)
  {
    var pairs := ParseTagText(def.tag);
    if pairs.Err? {
      return Err(pairs.error);
    }
    var colName := if "column" in pairs.value then pairs.value["column"] else "";
    if colName == "" {
      colName := UnderscoreName(u, def.name);
    }
    r := Ok(Field(colName, def.typ, def.name, def.offset));
  }

  lemma IndexMapSnoc(keys: seq<string>, key: string)
    ensures IndexMap(keys + [key]) == IndexMap(keys)[key := |keys|]
  {
    assert (keys + [key])[..|keys|] == keys;
  }

  lemma IndexesSnoc(fields: seq<Field>, f: Field)
    ensures IndexMap(Names(fields + [f])) == IndexMap(Names(fields))[f.goName := |fields|]
    ensures IndexMap(Columns(fields + [f])) == IndexMap(Columns(fields))[f.colName := |fields|]
  {
    assert Names(fields + [f]) == Names(fields) + [f.goName];
    assert Columns(fields + [f]) == Columns(fields) + [f.colName];
    IndexMapSnoc(Names(fields), f.goName);
    IndexMapSnoc(Columns(fields), f.colName);
  }

  /** The loop over the fields, which fills the list and both maps as it goes. */
  method BuildModel(u: Unicode, shape: Shape) returns (r: Result<Model>)
    requires shape.Struct?
    ensures r == Built(u, shape)
  {
    var defs := shape.fields;
    var fields: seq<Field> := [];
    var fieldMap: map<string, nat> := map[];
    var columnMap: map<string, nat> := map[];
    for i := 0 to |defs|
      invariant FieldsOf(u, defs[..i]) == Ok(fields) && |fields| == i
      invariant fieldMap == IndexMap(Names(fields)) && columnMap == IndexMap(Columns(fields))
    {
      assert defs[..i + 1][..i] == defs[..i];
      var f := ParseField(u, defs[i]);
      if f.Err? {
        FieldsStop(u, defs, i + 1);
        return Err(f.error);
      }
      IndexesSnoc(fields, f.value);
      fieldMap := fieldMap[f.value.goName := i];
      columnMap := columnMap[f.value.colName := i];
      fields := fields + [f.value];
    }
    assert defs[..|defs|] == defs;
    var tableName := if shape.table.Some? then shape.table.value else "";
    if tableName == "" {
      tableName := UnderscoreName(u, shape.name);
    }
    r := Ok(Model(tableName, fields, fieldMap, columnMap));
  }

  method RunOptions(m: Model, opts: seq<Opt>) returns (r: Result<Model>)
    requires InRange(m)
    ensures r == ApplyOpts(m, opts)
  {
    var res := m;
    var i := 0;
    while i < |opts|
      invariant i <= |opts| && InRange(res)
      invariant ApplyOpts(m, opts) == ApplyOpts(res, opts[i..])
    {
      assert opts[i..][0] == opts[i] && opts[i..][1..] == opts[i + 1..];
      var step := ApplyOpt(res, opts[i]);
      if step.Err? {
        return step;
      }
      res := step.value;
      i := i + 1;
    }
    r := Ok(res);
  }
}
