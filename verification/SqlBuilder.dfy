/** `builder`: the text buffer and argument list that selects and inserts share. */
module SqlBuilder {
  import opened Wrappers
  import opened SqlAst
  import opened SqlText
  import opened SqlIntent

  datatype Query = Query(sql: Tokens, args: seq<Value>)

  function StatusOf<T>(r: Res<T>): Res<()> {
    if r.Ok? then Ok(()) else r.PropagateFailure()
  }

  /** A token that stands for itself. */
  predicate Plain(t: Token) {
    !t.Mark? && !t.RawText?
  }

  class Builder {
    const registry: map<string, Model>
    var model: Option<Model>
    var sb: Tokens
    var args: seq<Value>
    /** Everything written so far, each placeholder with the values it was written for. */
    ghost var written: Tokens

    ghost predicate Valid()
      reads this
    {
      sb == Erase(written) && args == Holes(written)
    }

    constructor (registry: map<string, Model>)
      ensures this.registry == registry && model == None && sb == [] && args == [] && written == [] && Valid()
    {
      this.registry, model := registry, None;
      sb, args, written := [], [], [];
    }

    function EnvOf(): Env
      requires model.Some?
      reads this`model
    {
      Env(registry, model.value)
    }

    method Reset()
      modifies this`sb, this`args, this`written
      ensures written == [] && Valid()
    {
      sb, args, written := [], [], [];
    }

    method Write(t: Token)
      requires Valid() && Plain(t)
      modifies this`sb, this`written
      ensures Valid() && written == old(written) + [t]
    {
      OneToken(written, t);
      sb, written := sb + [t], written + [t];
    }

    /** A quoted name. */
    method Quote(name: string)
      requires Valid()
      modifies this`sb, this`written
      ensures Valid() && written == old(written) + [Ident(name)]
    {
      Write(Ident(name));
    }

    /** `?` and its argument. */
    method WriteMark(v: Value)
      requires Valid()
      modifies this`sb, this`args, this`written
      ensures Valid() && written == old(written) + [Mark([v])]
    {
      OneToken(written, Mark([v]));
      sb := sb + [Mark([])];
      AddArgs([v]);
      written := written + [Mark([v])];
    }

    /** Raw text and its arguments. */
    method WriteRaw(f: Fragment, vals: seq<Value>)
      requires Valid()
      modifies this`sb, this`args, this`written
      ensures Valid() && written == old(written) + [RawText(f, vals)]
    {
      OneToken(written, RawText(f, vals));
      sb := sb + [RawText(f, [])];
      AddArgs(vals);
      written := written + [RawText(f, vals)];
    }

    method AddArgs(vals: seq<Value>)
      modifies this`args
      ensures args == old(args) + vals
    {
      if |vals| == 0 {
        return;
      }
      args := args + vals;
    }

    method WriteAlias(alias: string)
      requires Valid()
      modifies this`sb, this`written
      ensures Valid() && written == old(written) + PrintAlias(alias)
    {
      if alias != "" {
        Write(Kw(As));
        Quote(alias);
      }
    }

    method BuildColumn(c: Column) returns (name: Res<Name>)
      requires Valid() && model.Some?
      modifies this`sb, this`written
      ensures Valid() && name == ResolveColumn(EnvOf(), c) && |old(written)| <= |written|
      ensures name.Ok? ==>
                ColumnMeans(EnvOf(), c, name.value) && written == old(written) + (PrintName(name.value) + PrintAlias(c.alias))
    {
      match c.table {
        case OwnTable =>
          var m := model.value;
          if c.name !in m.fieldMap {
            return Err(UnknownField(c.name));
          }
          name := Ok(Name("", m.fieldMap[c.name]));
        case OfTable(entity, alias) =>
          if entity !in registry {
            return Err(NoModel);
          }
          var m := registry[entity];
          if c.name !in m.fieldMap {
            return Err(UnknownField(c.name));
          }
          name := Ok(Name(alias, m.fieldMap[c.name]));
          if alias != "" {
            Quote(alias);
            Write(Dot);
          }
        case OtherReference =>
          return Err(UnsupportedTable);
      }
      Quote(name.value.column);
      assert written == old(written) + PrintName(name.value);
      WriteAlias(c.alias);
      Regroup2(old(written), PrintName(name.value), PrintAlias(c.alias));
    }

    method BuildNthName(i: nat, name: string) returns (col: Res<Name>)
      requires Valid() && model.Some?
      modifies this`sb, this`args, this`written
      ensures Valid() && model == old(model) && |old(written)| <= |written|
      ensures StatusOf(col) == StatusOf(FieldOf(model.value, name))
      ensures col.Ok? ==> col.value.column == FieldOf(model.value, name).value
      ensures col.Ok? ==> written == old(written) + ((if i > 0 then [Comma] else []) + [Ident(col.value.column)])
    {
      if i > 0 {
        Write(Comma);
      }
      col := BuildColumn(Column(OwnTable, name, ""));
    }

    method BuildNames(names: seq<string>) returns (status: Res<()>)
      requires Valid() && model.Some?
      modifies this`sb, this`args, this`written
      ensures Valid() && model == old(model) && |old(written)| <= |written|
      ensures status == StatusOf(ResolveAll(EnvOf().own, names))
      ensures status.Ok? ==> written == old(written) + PrintNames(ResolveAll(EnvOf().own, names).value)
    {
      ghost var m := model.value;
      ghost var all := ResolveAll(m, names);
      assert names[0..] == names;
      var i := 0;
      while i < |names|
        invariant i <= |names| && Valid() && model == old(model) && |old(written)| <= |written|
        invariant StatusOf(all) == StatusOf(ResolveAll(m, names[i..]))
        invariant all.Ok? ==> old(written) + PrintNames(all.value)
                              == written + RestOfNames(i, ResolveAll(m, names[i..]).value)
      {
        assert names[i..][0] == names[i] && names[i..][1..] == names[i + 1..];
        ghost var before := written;
        var name := BuildNthName(i, names[i]);
        if !name.Ok? {
          return name.PropagateFailure();
        }
        if all.Ok? {
          RestOfNamesStep(before, i, name.value.column, ResolveAll(m, names[i + 1..]).value);
        }
        i := i + 1;
      }
      assert names[i..] == [];
      status := Ok(());
    }

    /** ` USING (a,b,...)` */
    method BuildUsing(using: seq<string>) returns (status: Res<()>)
      requires Valid() && model.Some?
      modifies this`sb, this`args, this`written
      ensures Valid() && model == old(model) && |old(written)| <= |written|
      ensures status == StatusOf(ResolveAll(EnvOf().own, using))
      ensures status.Ok? ==> written == old(written) + PrintUsing(ResolveAll(EnvOf().own, using).value)
    {
      status := Ok(());
      if |using| == 0 {
        return;
      }
      Write(Kw(Using));
      Write(LParen);
      status := BuildNames(using);
      if status.Ok? {
        Write(RParen);
        UsingText(old(written), ResolveAll(EnvOf().own, using).value);
      }
    }
  }

  lemma UsingText(start: Tokens, names: seq<string>)
    requires names != []
    ensures start + [Kw(Using)] + [LParen] + PrintNames(names) + [RParen] == start + PrintUsing(names)
  {
    var u := [Kw(Using), LParen];
    assert start + [Kw(Using)] + [LParen] == start + u;
    Regroup3(start, u, PrintNames(names), [RParen]);
  }

  lemma RestOfNamesStep(start: Tokens, i: nat, name: string, rest: seq<string>)
    ensures start + RestOfNames(i, [name] + rest)
         == start + ((if i > 0 then [Comma] else []) + [Ident(name)]) + RestOfNames(i + 1, rest)
  {
    assert ([name] + rest)[1..] == rest;
    if i > 0 {
      assert [Comma, Ident(name)] == [Comma] + [Ident(name)];
      Regroup2(start, [Comma, Ident(name)], PrintMore(rest));
    } else {
      Regroup2(start, [Ident(name)], PrintMore(rest));
    }
  }

  /** What is still to be written of a list of names. */
  function RestOfNames(i: nat, rest: seq<string>): Tokens {
    if i == 0 then PrintNames(rest) else PrintMore(rest)
  }

  lemma OneToken(ts: Tokens, t: Token)
    ensures Erase(ts + [t]) == Erase(ts) + [EraseOne(t)] && Holes(ts + [t]) == Holes(ts) + ValsOf(t)
  {
    EraseConcat(ts, [t]);
    HolesConcat(ts, [t]);
    assert [t][1..] == [];
    assert Erase([t]) == [EraseOne(t)] && Holes([t]) == ValsOf(t);
  }
}
