/**
 The schema a write needs: columns are added to the table's schema, by name, and never removed,
 by every writer at once. What a write was promised when it began still holds when it commits.
 */
module Evolve {
  import opened Wrappers
  import opened CommitRetry
  import opened NullRate

  // ── types ───────────────────────────────────────────────────────────────────

  datatype Type =
    | Primitive(name: string)
    | ListOf(id: nat, required: bool, element: Type)
    | MapOf(keyId: nat, key: Type, valueId: nat, valueRequired: bool, value: Type)
    | StructOf(fields: seq<Nested>)

  datatype Nested = Nested(id: nat, name: string, required: bool, ty: Type)

  /** The comparison of column types that decides a mismatch. */
  predicate SameType(a: Type, b: Type) {
    match (a, b)
    case (Primitive(x), Primitive(y)) => x == y
    case (ListOf(_, r, x), ListOf(_, s, y)) => r == s && SameType(x, y)
    case (MapOf(_, k, _, _, v), MapOf(_, l, _, _, w)) => SameType(k, l) && SameType(v, w)
    case (StructOf(xs), StructOf(ys)) => |xs| == |ys| && SameFields(xs, ys)
    case _ => false
  }

  predicate SameFields(xs: seq<Nested>, ys: seq<Nested>)
    requires |xs| == |ys|
  {
    xs == [] || (xs[0].name == ys[0].name && SameType(xs[0].ty, ys[0].ty) && SameFields(xs[1..], ys[1..]))
  }

  /** A type without what the check does not look at: the ids of nested fields, whether a map's
      value is required, and whether a struct's field is. */
  function Erase(t: Type): Type {
    match t
    case Primitive(_) => t
    case ListOf(_, r, x) => ListOf(0, r, Erase(x))
    case MapOf(_, k, _, _, v) => MapOf(0, Erase(k), 0, false, Erase(v))
    case StructOf(fs) => StructOf(EraseFields(fs))
  }

  function EraseFields(fs: seq<Nested>): (r: seq<Nested>)
    ensures |r| == |fs|
  {
    if fs == [] then [] else [Nested(0, fs[0].name, false, Erase(fs[0].ty))] + EraseFields(fs[1..])
  }

  /** The check is exactly equality of the erased types, hence reflexive, symmetric and
      transitive. */
  lemma {:induction false} SameTypeIsErasure(a: Type, b: Type)
    ensures SameType(a, b) <==> Erase(a) == Erase(b)
    decreases a
  {
    match (a, b)
    case (ListOf(_, _, x), ListOf(_, _, y)) => SameTypeIsErasure(x, y);
    case (MapOf(_, k, _, _, v), MapOf(_, l, _, _, w)) =>
      SameTypeIsErasure(k, l);
      SameTypeIsErasure(v, w);
    case (StructOf(xs), StructOf(ys)) =>
      if |xs| == |ys| {
        SameFieldsIsErasure(xs, ys);
      }
    case _ =>
  }

  lemma {:induction false} SameFieldsIsErasure(xs: seq<Nested>, ys: seq<Nested>)
    requires |xs| == |ys|
    ensures SameFields(xs, ys) <==> EraseFields(xs) == EraseFields(ys)
    decreases xs
  {
    if xs != [] {
      SameTypeIsErasure(xs[0].ty, ys[0].ty);
      SameFieldsIsErasure(xs[1..], ys[1..]);
      var e, f := EraseFields(xs), EraseFields(ys);
      assert e[1..] == EraseFields(xs[1..]) && f[1..] == EraseFields(ys[1..]);
      assert e == [e[0]] + e[1..] && f == [f[0]] + f[1..];
    }
  }

  lemma SameTypeTransitive(a: Type, b: Type, c: Type)
    requires SameType(a, b) && SameType(b, c)
    ensures SameType(a, c) && SameType(c, a) && SameType(a, a)
  {
    SameTypeIsErasure(a, b);
    SameTypeIsErasure(b, c);
    SameTypeIsErasure(a, c);
    SameTypeIsErasure(c, a);
    SameTypeIsErasure(a, a);
  }

  /** More than ids is ignored: a struct whose field is required is the same as one whose field
      is optional, and a map of required values as one of optional values. */
  lemma RequiredIsIgnored()
    ensures SameType(StructOf([Nested(1, "x", true, Primitive("int"))]),
                     StructOf([Nested(1, "x", false, Primitive("int"))]))
    ensures SameType(MapOf(1, Primitive("int"), 2, true, Primitive("int")),
                     MapOf(1, Primitive("int"), 2, false, Primitive("int")))
  {
    var x, y := [Nested(1, "x", true, Primitive("int"))], [Nested(1, "x", false, Primitive("int"))];
    assert SameFields(x[1..], y[1..]);
  }

  /** What is not: the name of a primitive type, the required mark of a list's element, a struct's
      field names, and the types within. */
  lemma WhatMatters(i: nat, j: nat, x: Type, y: Type, m: string, n: string, r: bool, q: bool)
    requires m != n
    ensures !SameType(Primitive(m), Primitive(n)) && !SameType(ListOf(i, true, x), ListOf(j, false, y))
    ensures !SameType(StructOf([Nested(i, m, r, x)]), StructOf([Nested(j, n, q, y)]))
    ensures SameType(x, y) <==> SameType(ListOf(i, r, x), ListOf(j, r, y))
    ensures SameType(x, y) <==> SameType(MapOf(i, x, j, r, x), MapOf(j, y, i, q, y))
    ensures SameType(x, y) <==> SameType(StructOf([Nested(i, m, r, x)]), StructOf([Nested(j, m, q, y)]))
  {
    var (a, b, c) := ([Nested(i, m, r, x)], [Nested(j, m, q, y)], [Nested(j, n, q, y)]);
    assert a[0] == Nested(i, m, r, x) && a[1..] == [] && b[0] == Nested(j, m, q, y) && b[1..] == [];
    assert c[0] == Nested(j, n, q, y);
    assert SameFields(a[1..], b[1..]);
    assert SameFields(a, b) <==> SameType(x, y);
  }

  // ── schemas ─────────────────────────────────────────────────────────────────

  datatype Field = Field(name: string, ty: Type, required: bool)

  type Schema = seq<Field>

  ghost predicate Named(s: Schema) {
    forall i, j :: 0 <= i < j < |s| ==> s[i].name != s[j].name
  }

  function Lookup(s: Schema, name: string): Option<Field> {
    if s == [] then None else if s[0].name == name then Some(s[0]) else Lookup(s[1..], name)
  }

  /** The schema has a column of that name, of another type. */
  predicate Differs(s: Schema, w: Field) {
    Lookup(s, w.name).Some? && !SameType(Lookup(s, w.name).value.ty, w.ty)
  }

  /** The table has every wanted column, with the same type. */
  predicate Has(s: Schema, want: Schema) {
    forall w :: w in want ==> Lookup(s, w.name).Some? && SameType(Lookup(s, w.name).value.ty, w.ty)
  }

  /** What a peQL writer may do to a schema: columns added at its end, none of them required. */
  ghost predicate Grows(s: Schema, s': Schema) {
    && Named(s') && s <= s'
    && forall i :: |s| <= i < |s'| ==> !s'[i].required
  }

  datatype SchemaError = Mismatch(column: string, raced: bool) | Refused | Conflict(attempts: nat)

  /** The columns of `want` that `s` lacks; refused at the first whose type differs. */
  function Missing(s: Schema, want: Schema, raced: bool): (r: Result<seq<Field>, SchemaError>) {
    if want == [] then Ok([])
    else
      var have := Lookup(s, want[0].name);
      if have.Some? && !SameType(have.value.ty, want[0].ty) then Err(Mismatch(want[0].name, raced))
      else
        var rest := Missing(s, want[1..], raced);
        if rest.Err? then rest
        else if have.Some? then rest
        else Ok([Field(want[0].name, want[0].ty, false)] + rest.value)
  }

  /** The columns to add to `s` for `want`, if any. */
  function SchemaChange(s: Schema, want: Schema, raced: bool): Result<Option<seq<Field>>, SchemaError> {
    var missing := Missing(s, want, raced);
    if missing.Err? then Err(missing.error)
    else if missing.value == [] then Ok(None)
    else Ok(Some(missing.value))
  }

  lemma {:induction false} LookupIs(s: Schema, name: string)
    ensures Lookup(s, name).Some? ==> Lookup(s, name).value in s && Lookup(s, name).value.name == name
    ensures Lookup(s, name).None? ==> forall f :: f in s ==> f.name != name
  {
    if s != [] {
      LookupIs(s[1..], name);
      assert s == [s[0]] + s[1..];
    }
  }

  lemma {:induction false} LookupGrows(s: Schema, t: Schema, name: string)
    ensures Lookup(s + t, name) == if Lookup(s, name).Some? then Lookup(s, name) else Lookup(t, name)
  {
    if s == [] {
      assert s + t == t;
    } else {
      assert (s + t)[1..] == s[1..] + t;
      LookupGrows(s[1..], t, name);
    }
  }

  /** The column a refusal names is the first wanted one that the schema has with another type. */
  ghost predicate FirstToDiffer(s: Schema, want: Schema, column: string) {
    exists i :: 0 <= i < |want| && want[i].name == column && Differs(s, want[i])
                && forall j :: 0 <= j < i ==> !Differs(s, want[j])
  }

  lemma {:induction false} MissingErr(s: Schema, want: Schema, raced: bool)
    ensures var r := Missing(s, want, raced);
      && (r.Err? <==> exists w :: w in want && Differs(s, w))
      && (r.Err? ==> r.error.Mismatch? && r.error.raced == raced && FirstToDiffer(s, want, r.error.column))
  {
    if want != [] {
      MissingErr(s, want[1..], raced);
      assert forall w :: w in want <==> w == want[0] || w in want[1..];
      if Differs(s, want[0]) {
        assert want[0].name == Missing(s, want, raced).error.column;
      } else if Missing(s, want, raced).Err? {
        var i :| 0 <= i < |want[1..]| && want[1..][i].name == Missing(s, want[1..], raced).error.column
                 && Differs(s, want[1..][i]) && forall j :: 0 <= j < i ==> !Differs(s, want[1..][j]);
        forall j | 0 <= j < i + 1
          ensures !Differs(s, want[j])
        {
          if j > 0 {
            assert want[1..][j - 1] == want[j];
          }
        }
        assert want[i + 1] == want[1..][i];
      }
    }
  }

  /** What is missing is each wanted column the schema has no column of that name for, in order, none
      of them required. */
  lemma {:induction false} MissingInOrder(s: Schema, want: Schema, raced: bool)
    requires Missing(s, want, raced).Ok?
    ensures Missing(s, want, raced).value ==
            Chosen(want, (w: Field) => Lookup(s, w.name).None?, (w: Field) => w.(required := false))
  {
    if want != [] {
      MissingInOrder(s, want[1..], raced);
    }
  }

  /** What is missing: each wanted column the schema has no column of that name for, once; a refusal
      names the first wanted column the schema has with another type. */
  lemma {:induction false} MissingIs(s: Schema, want: Schema, raced: bool)
    requires Named(want)
    ensures var r := Missing(s, want, raced);
      && (r.Err? <==> exists w :: w in want && Differs(s, w))
      && (r.Err? ==> r.error.Mismatch? && r.error.raced == raced && FirstToDiffer(s, want, r.error.column))
      && (r.Ok? ==> Named(r.value))
      && (r.Ok? ==> forall f :: f in r.value <==> Lookup(s, f.name).None? && !f.required
                                                   && exists w :: w in want && w.name == f.name && w.ty == f.ty)
  {
    MissingErr(s, want, raced);
    if want != [] {
      assert forall w :: w in want <==> w == want[0] || w in want[1..];
      assert Named(want[1..]) by {
        assert forall i :: 0 <= i < |want[1..]| ==> want[1..][i] == want[i + 1];
      }
      MissingIs(s, want[1..], raced);
      var r := Missing(s, want, raced);
      if r.Ok? {
        var rest := Missing(s, want[1..], raced).value;
        forall f | f in rest
          ensures f.name != want[0].name
        {
          var w :| w in want[1..] && w.name == f.name && w.ty == f.ty;
          var i :| 0 <= i < |want[1..]| && want[1..][i] == w;
          assert want[i + 1] == w && want[0].name != want[i + 1].name;
        }
      }
    }
  }

  lemma NothingMissing(s: Schema, want: Schema, raced: bool)
    requires Named(want)
    ensures SchemaChange(s, want, raced) == Ok(None) <==> Has(s, want)
  {
    MissingIs(s, want, raced);
    var r := Missing(s, want, raced);
    if r.Ok? && r.value != [] {
      var f := r.value[0];
      assert f in r.value;
      var w :| w in want && w.name == f.name && w.ty == f.ty;
      assert Lookup(s, w.name).None?;
    }
    if r.Ok? && !Has(s, want) {
      var w :| w in want && !(Lookup(s, w.name).Some? && SameType(Lookup(s, w.name).value.ty, w.ty));
      assert Field(w.name, w.ty, false) in r.value;
    }
  }

  /** What is added makes the schema have every wanted column, and only grows it. */
  lemma ChangeGrows(s: Schema, want: Schema, raced: bool)
    requires Named(s) && Named(want) && Missing(s, want, raced).Ok?
    ensures var t := s + Missing(s, want, raced).value; Grows(s, t) && Has(t, want)
  {
    MissingIs(s, want, raced);
    var added := Missing(s, want, raced).value;
    var t := s + added;
    assert Named(t) by {
      forall i, j | 0 <= i < j < |t|
        ensures t[i].name != t[j].name
      {
        if i < |s| <= j {
          assert added[j - |s|] in added;
          LookupIs(s, t[j].name);
        }
      }
    }
    forall i | |s| <= i < |t|
      ensures !t[i].required
    {
      assert added[i - |s|] in added;
    }
    forall w | w in want
      ensures Lookup(t, w.name).Some? && SameType(Lookup(t, w.name).value.ty, w.ty)
    {
      LookupGrows(s, added, w.name);
      if Lookup(s, w.name).None? {
        assert Field(w.name, w.ty, false) in added;
        LookupIs(added, w.name);
        var f := Lookup(added, w.name).value;
        var x :| x in want && x.name == f.name && x.ty == f.ty;
        assert x == w;
        SameTypeTransitiveSelf(w.ty);
      }
    }
  }

  lemma SameTypeTransitiveSelf(t: Type)
    ensures SameType(t, t)
  {
    SameTypeIsErasure(t, t);
  }

  // ── what growth keeps ───────────────────────────────────────────────────────

  /** Every required column of the table is one the contract writes. */
  predicate RequiredWritten(s: Schema, want: Schema) {
    forall f :: f in s && f.required ==> Lookup(want, f.name).Some?
  }

  lemma GrowsTogether(a: Schema, b: Schema, c: Schema)
    requires Grows(a, b) && Grows(b, c)
    ensures Grows(a, c)
  {
    forall i | |a| <= i < |c|
      ensures !c[i].required
    {
      if i < |b| {
        assert c[i] == b[i];
      }
    }
  }

  /** A schema that grew keeps every column with its type, so it still has what a write was
      promised, and still requires nothing the write does not write. */
  lemma GrownKeeps(s: Schema, s': Schema, want: Schema)
    requires Grows(s, s')
    ensures forall f :: f in s ==> f in s'
    ensures forall name :: Lookup(s, name).Some? ==> Lookup(s', name) == Lookup(s, name)
    ensures Has(s, want) ==> Has(s', want)
    ensures RequiredWritten(s, want) ==> RequiredWritten(s', want)
  {
    var t := s'[|s|..];
    assert s' == s + t;
    forall name | Lookup(s, name).Some?
      ensures Lookup(s', name) == Lookup(s, name)
    {
      LookupGrows(s, t, name);
    }
    forall f | f in s' && f.required
      ensures f in s
    {
      var i :| 0 <= i < |s'| && s'[i] == f;
      assert i < |s| && s[i] == f;
    }
  }

  // ── the loop ────────────────────────────────────────────────────────────────

  /** Other writers only grow the schema. */
  ghost predicate OnlyGrow(others: seq<Schema -> Schema>) {
    forall k :: 0 <= k < |others| ==> Grower(others[k])
  }

  ghost predicate Grower(other: Schema -> Schema) {
    forall s: Schema {:trigger other(s)} :: Named(s) ==> Grows(s, other(s))
  }

  /** A look at which nobody changes the schema. */
  ghost predicate Still(other: Schema -> Schema) {
    forall s: Schema {:trigger other(s)} :: Named(s) ==> other(s) == s
  }

  /** At how many of the looks to come others may change the schema. */
  ghost function Busy(others: seq<Schema -> Schema>): nat {
    if others == [] then 0 else (if Still(others[0]) then 0 else 1) + Busy(others[1..])
  }

  lemma NextLook(others: seq<Schema -> Schema>, s: Schema)
    requires OnlyGrow(others) && others != [] && Named(s)
    ensures Grows(s, others[0](s)) && OnlyGrow(others[1..])
    ensures Busy(others[1..]) <= Busy(others) && (Busy(others[1..]) == Busy(others) ==> others[0](s) == s)
  {
    assert Grower(others[0]);
    assert forall k :: 0 <= k < |others[1..]| ==> others[1..][k] == others[k + 1];
  }

  /** A catalog's entry for one table: whether it exists, and its columns. The rest is interference:
      a rival creation, one change to the columns per look, and refusals of the catalog's own. */
  class SchemaCatalog {
    var there: bool
    var schema: Schema
    var rival: Option<Schema>
    var others: seq<Schema -> Schema>
    var refusals: seq<bool>

    ghost predicate Valid()
      reads this
    {
      Named(schema) && (rival.Some? ==> Named(rival.value)) && OnlyGrow(others)
    }

    /** Nobody else is at work, and the catalog refuses nothing. */
    ghost predicate Alone()
      reads this
    {
      others == [] && true !in refusals
    }

    method Load() returns (s: Schema)
      requires Valid()
      modifies this`schema, this`others
      ensures Valid() && s == schema && Grows(old(schema), schema)
      ensures Busy(others) <= Busy(old(others)) && (Busy(others) == Busy(old(others)) ==> schema == old(schema))
      ensures old(Alone()) ==> Alone() && schema == old(schema)
    {
      if others != [] {
        s := others[0](schema);
        NextLook(others, schema);
        schema, others := s, others[1..];
      } else {
        s := schema;
      }
    }

    /** Makes the table with just these columns; refused when another writer has made it. */
    method CreateTable(columns: Schema) returns (ok: bool)
      requires Valid() && !there && Named(columns)
      modifies this`there, this`schema
      ensures Valid() && there && (ok <==> rival.None?)
      ensures schema == if ok then columns else rival.value
    {
      ok := rival.None?;
      there, schema := true, if ok then columns else rival.value;
    }

    /** The crate's commit of added columns, made over the schema as it is then: refused when
        one of them is there by then, or by the catalog. */
    method AddColumns(added: seq<Field>) returns (ok: bool)
      requires Valid() && Named(added) && forall f :: f in added ==> !f.required
      modifies this`schema, this`others, this`refusals
      ensures Valid() && Grows(old(schema), schema) && Busy(others) <= Busy(old(others))
      ensures Busy(others) == Busy(old(others)) ==> schema == if ok then old(schema) + added else old(schema)
      ensures ok ==> forall f :: f in added ==> f in schema
      ensures !ok && true !in old(refusals) ==> exists f :: f in added && Lookup(schema, f.name).Some?
      ensures true !in old(refusals) ==> true !in refusals
      ensures old(Alone()) ==> Alone() && schema == if ok then old(schema) + added else old(schema)
    {
      var now := Load();
      var refuse := refusals != [] && refusals[0];
      refusals := if refusals == [] then [] else refusals[1..];
      if refuse || exists f :: f in added && Lookup(now, f.name).Some? {
        return false;
      }
      AddedNamed(now, added);
      schema := now + added;
      GrowsTogether(old(schema), now, schema);
      ok := true;
    }
  }

  lemma AddedNamed(s: Schema, added: seq<Field>)
    requires Named(s) && Named(added) && forall f :: f in added ==> !f.required && Lookup(s, f.name).None?
    ensures Grows(s, s + added)
  {
    var t := s + added;
    forall i, j | 0 <= i < j < |t|
      ensures t[i].name != t[j].name
    {
      if i < |s| <= j {
        assert added[j - |s|] in added;
        LookupIs(s, t[j].name);
      }
    }
    assert forall i :: |s| <= i < |t| ==> t[i] == added[i - |s|] && added[i - |s|] in added;
  }

  lemma MismatchStays(s: Schema, s': Schema, want: Schema, raced: bool)
    requires Named(want) && Grows(s, s') && SchemaChange(s, want, raced).Err?
    ensures Clashes(s', want, SchemaChange(s, want, raced).error)
  {
    MissingIs(s, want, raced);
    GrownKeeps(s, s', want);
    var e := Missing(s, want, raced).error;
    var i :| 0 <= i < |want| && want[i].name == e.column && Differs(s, want[i]);
    assert want[i] in want && Differs(s', want[i]);
  }

  /** A refusal names a wanted column that the schema has with another type. */
  ghost predicate Clashes(s: Schema, want: Schema, e: SchemaError) {
    e.Mismatch? && exists w :: w in want && w.name == e.column && Differs(s, w)
  }

  lemma LookupOf(s: Schema, f: Field)
    requires Named(s) && f in s
    ensures Lookup(s, f.name) == Some(f)
  {
    LookupIs(s, f.name);
    var i :| 0 <= i < |s| && s[i] == f;
    var g := Lookup(s, f.name).value;
    var j :| 0 <= j < |s| && s[j] == g;
  }

  /** A schema that grew from one, and has what was missing from it, needs no more. */
  lemma NoMoreMissing(s: Schema, s': Schema, want: Schema, raced: bool)
    requires Named(want) && Grows(s, s') && Missing(s, want, raced).Ok?
    requires forall f :: f in Missing(s, want, raced).value ==> f in s'
    ensures SchemaChange(s', want, raced) == Ok(None)
  {
    MissingIs(s, want, raced);
    GrownKeeps(s, s', want);
    NothingMissing(s', want, raced);
    forall w | w in want
      ensures Lookup(s', w.name).Some? && SameType(Lookup(s', w.name).value.ty, w.ty)
    {
      assert !Differs(s, w);
      if Lookup(s, w.name).None? {
        assert Field(w.name, w.ty, false) in Missing(s, want, raced).value;
        LookupOf(s', Field(w.name, w.ty, false));
        SameTypeTransitiveSelf(w.ty);
      }
    }
  }

  lemma AddedIsNew(s: Schema, s': Schema, want: Schema, raced: bool)
    requires Named(want) && Grows(s, s') && Missing(s, want, raced).Ok?
    requires exists f :: f in Missing(s, want, raced).value && Lookup(s', f.name).Some?
    ensures s' != s
  {
    MissingIs(s, want, raced);
  }

  datatype Looked = Done(schema: Schema) | Failed(error: SchemaError) | Again

  /** One attempt at the change over the schema `t`, as last loaded: whether the table has the
      columns now, the change cannot be made, or the schema was changed first. */
  method TryChange(cat: SchemaCatalog, t: Schema, want: Schema, raced: bool)
    returns (r: Looked, now: Schema, refused: bool, committed: bool)
    requires cat.Valid() && Named(t) && Grows(t, cat.schema) && Named(want)
    modifies cat`schema, cat`others, cat`refusals
    ensures cat.Valid() && Grows(old(cat.schema), cat.schema) && Busy(cat.others) <= Busy(old(cat.others))
    ensures Named(now) && Grows(t, now) && Grows(now, cat.schema)
    ensures r.Done? ==> r.schema == now && Has(now, want)
    ensures r.Failed? ==>
              r.error.Refused? || (Clashes(cat.schema, want, r.error) && r.error.raced == raced && !committed)
    ensures true !in old(cat.refusals) ==> true !in cat.refusals && r != Failed(Refused)
    ensures committed <==> Missing(t, want, raced).Ok? && Missing(t, want, raced).value != []
    ensures (r == Again ==> committed) && (refused <==> raced || r == Again)
    ensures t == old(cat.schema) && r == Again ==> Busy(cat.others) < Busy(old(cat.others))
    ensures old(cat.Alone()) && t == old(cat.schema) ==>
              match Missing(t, want, raced)
              case Ok(missing) => r == Done(t + missing) && cat.schema == t + missing
              case Err(e) => r == Failed(e)
  {
    NothingMissing(t, want, raced);
    MissingIs(t, want, raced);
    assert t + [] == t;
    var change := SchemaChange(t, want, raced);
    now, refused, committed := t, raced, false;
    if change.Err? {
      MismatchStays(t, cat.schema, want, raced);
      return Failed(change.error), now, refused, committed;
    }
    if change.value.None? {
      return Done(t), now, refused, committed;
    }
    committed := true;
    ChangeGrows(t, want, raced);
    var ok := cat.AddColumns(change.value.value);
    GrowsTogether(t, old(cat.schema), cat.schema);
    if ok {
      // What was committed may rest on columns that came in between.
      now := cat.schema;
      NoMoreMissing(t, now, want, raced);
      NothingMissing(now, want, raced);
      r := match SchemaChange(now, want, raced)
        case Err(e) => Failed(e)
        case Ok(None) => Done(now)
        case Ok(Some(_)) => Again;
    } else {
      ghost var at := cat.schema;
      now := cat.Load();
      GrowsTogether(old(cat.schema), at, now);
      GrowsTogether(t, at, now);
      if true !in old(cat.refusals) {
        AddedIsNew(t, at, want, raced);
      }
      refused := now != t || raced;
      r := if now == t then Failed(Refused) else Again;
    }
  }

  /** An attempt, and where the schema was changed first, the wait for the next and a fresh look. */
  method TryAndWait(cat: SchemaCatalog, t: Schema, want: Schema, raced: bool, retry: Retrying, units: seq<real>)
    returns (r: Looked, now: Schema, refused: bool, committed: bool, again: bool)
    requires cat.Valid() && Named(t) && Grows(t, cat.schema) && Named(want) && retry.Valid()
    modifies cat`schema, cat`others, cat`refusals, retry, retry.clock
    ensures cat.Valid() && Grows(old(cat.schema), cat.schema) && Busy(cat.others) <= Busy(old(cat.others))
    ensures Named(now) && Grows(t, now) && Grows(now, cat.schema) && (again ==> now == cat.schema)
    ensures r.Done? ==> r.schema == now && Has(now, want)
    ensures r.Failed? ==>
              r.error.Refused? || (Clashes(cat.schema, want, r.error) && r.error.raced == raced && !committed)
    ensures true !in old(cat.refusals) ==> true !in cat.refusals && r != Failed(Refused)
    ensures committed <==> Missing(t, want, raced).Ok? && Missing(t, want, raced).value != []
    ensures (r == Again ==> committed) && (refused <==> raced || r == Again)
    ensures t == old(cat.schema) && r == Again ==> Busy(cat.others) < Busy(old(cat.others))
    ensures old(cat.Alone()) && t == old(cat.schema) ==>
              match Missing(t, want, raced)
              case Ok(missing) => r == Done(t + missing) && cat.schema == t + missing
              case Err(e) => r == Failed(e)
    ensures retry.Valid() && retry.retried == old(retry.retried) + if again then 1 else 0
    ensures again ==> r == Again
    ensures r == Again && !again ==> retry.Exhausted(units)
    ensures old(retry.OnTime(units)) ==> retry.OnTime(units)
    ensures old(retry.OnTime(units)) && r == Again && !again ==> retry.retried == retry.policy.retries
  {
    r, now, refused, committed := TryChange(cat, t, want, raced);
    again := false;
    if r == Again {
      again := retry.WaitNext(units);
      if again {
        ghost var before, was := cat.schema, now;
        now := cat.Load();
        GrowsTogether(old(cat.schema), before, now);
        GrowsTogether(was, before, now);
        GrowsTogether(t, was, now);
      }
    }
  }

  /** Others change the schema at no more looks than there are retries, the catalog refuses nothing, and
      every wait fits. */
  ghost predicate Granted(cat: SchemaCatalog, retry: Retrying, units: seq<real>)
    requires Rounds(retry.fl)
    reads cat, retry, retry.clock
  {
    Busy(cat.others) <= retry.policy.retries && true !in cat.refusals && retry.OnTime(units)
  }

  /** With no attempt left, the schema last seen may have what is wanted after all. */
  method LastLook(t: Schema, want: Schema, attempts: nat, ghost grown: Schema) returns (r: Result<Schema, SchemaError>)
    requires Named(t) && Named(want) && Grows(t, grown)
    ensures r.Ok? ==> r.value == t && Has(t, want)
    ensures r.Err? ==> !Has(t, want)
    ensures r.Err? ==> r.error == Conflict(attempts) || (Clashes(grown, want, r.error) && r.error.raced)
  {
    NothingMissing(t, want, true);
    MissingIs(t, want, true);
    var last := SchemaChange(t, want, true);
    if last.Err? {
      MismatchStays(t, grown, want, true);
      r := Err(last.error);
    } else {
      r := if last.value.None? then Ok(t) else Err(Conflict(attempts));
    }
  }

  /** Brings the table's columns up to `want`, one optimistic commit at a time, within the retry
      policy. It gives up on a schema that keeps changing only when no attempt is left. */
  method Evolve(cat: SchemaCatalog, table: Schema, want: Schema, retry: Retrying, units: seq<real>)
    returns (r: Result<Schema, SchemaError>, commits: nat)
    requires cat.Valid() && Grows(table, cat.schema) && Named(table) && Named(want)
    requires retry.Valid() && retry.retried == 0
    modifies cat`schema, cat`others, cat`refusals, retry, retry.clock
    ensures cat.Valid() && Grows(old(cat.schema), cat.schema) && retry.Valid()
    ensures retry.retried <= commits <= retry.retried + 1
    ensures r.Ok? ==> Grows(table, r.value) && Grows(r.value, cat.schema) && Has(r.value, want)
    ensures r.Err? ==> match r.error
                       case Mismatch(_, _) => Clashes(cat.schema, want, r.error)
                       case Conflict(attempts) => attempts == retry.retried + 1 && retry.Exhausted(units)
                       case Refused => true in old(cat.refusals)
    ensures table == old(cat.schema) && r.Err? && r.error.Conflict? ==>
              Busy(cat.others) + r.error.attempts <= Busy(old(cat.others))
    ensures r.Err? && r.error.Mismatch? ==> (r.error.raced <==> commits > 0)
    ensures table == old(cat.schema) && old(Granted(cat, retry, units)) ==> r.Ok? || r.error.Mismatch?
    ensures old(cat.Alone()) && table == old(cat.schema) ==>
              match Missing(table, want, false)
              case Ok(missing) =>
                r == Ok(table + missing) && cat.schema == table + missing && commits == (if missing == [] then 0 else 1)
              case Err(e) => r == Err(e) && commits == 0
  {
    var t, refused := table, false;
    commits := 0;
    while true
      invariant cat.Valid() && Grows(old(cat.schema), cat.schema) && retry.Valid()
      invariant Named(t) && Grows(table, t) && Grows(t, cat.schema)
      invariant commits == retry.retried
      invariant true !in old(cat.refusals) ==> true !in cat.refusals
      invariant old(retry.OnTime(units)) ==> retry.OnTime(units)
      invariant table == old(cat.schema) ==> t == cat.schema && Busy(cat.others) + commits <= Busy(old(cat.others))
      invariant refused <==> commits > 0
      invariant old(cat.Alone()) && table == old(cat.schema) ==>
                  cat.Alone() && t == table && cat.schema == table && !refused
      decreases retry.policy.retries - retry.retried
    {
      ghost var before, was := cat.schema, t;
      var look, committed, again;
      look, t, refused, committed, again := TryAndWait(cat, t, want, refused, retry, units);
      GrowsTogether(old(cat.schema), before, cat.schema);
      GrowsTogether(table, was, t);
      commits := commits + if committed then 1 else 0;
      if look.Done? {
        return Ok(t), commits;
      }
      if look.Failed? {
        return Err(look.error), commits;
      }
      if !again {
        break;
      }
    }
    r := LastLook(t, want, retry.Attempts(), cat.schema);
  }

  datatype BeginError = OfSchema(error: SchemaError) | Unwritten(column: string) | AlreadyThere

  /** A schema has its own columns, and requires none it does not have. */
  lemma HasItself(s: Schema)
    requires Named(s)
    ensures Has(s, s) && RequiredWritten(s, s)
  {
    forall f | f in s
      ensures Lookup(s, f.name) == Some(f) && SameType(f.ty, f.ty)
    {
      LookupIs(s, f.name);
      var i :| 0 <= i < |s| && s[i] == f;
      SameTypeTransitiveSelf(f.ty);
    }
  }

  /** The table with every column wanted: made, when the catalog has none, or evolved. */
  method TableFor(cat: SchemaCatalog, want: Schema, retry: Retrying, units: seq<real>)
    returns (r: Result<Schema, BeginError>)
    requires cat.Valid() && Named(want) && retry.Valid() && retry.retried == 0
    modifies cat, retry, retry.clock
    ensures cat.Valid() && retry.Valid() && cat.there && (old(cat.there) ==> Grows(old(cat.schema), cat.schema))
    ensures r.Ok? ==> Grows(r.value, cat.schema) && Has(r.value, want)
    ensures r.Err? ==> !r.error.Unwritten?
    ensures r.Err? && r.error.OfSchema? && r.error.error.Mismatch? ==> Clashes(cat.schema, want, r.error.error)
    ensures r.Err? && r.error.OfSchema? && r.error.error.Conflict? ==> retry.Exhausted(units)
    ensures old(cat.there) && old(Granted(cat, retry, units)) ==>
              r.Ok? || (r.error.OfSchema? && r.error.error.Mismatch?)
    ensures !old(cat.there) ==>
              (r == Ok(want) <==> old(cat.rival).None?) && (r == Err(AlreadyThere) <==> old(cat.rival).Some?)
    ensures old(cat.there) && old(cat.Alone()) ==>
              match Missing(old(cat.schema), want, false)
              case Ok(missing) => r == Ok(old(cat.schema) + missing)
              case Err(e) => r == Err(OfSchema(e))
  {
    if !cat.there {
      var ok := cat.CreateTable(want);
      HasItself(want);
      return if ok then Ok(want) else Err(AlreadyThere);
    }
    ghost var before := cat.schema;
    var table := cat.Load();
    var evolved, commits := Evolve(cat, table, want, retry, units);
    GrowsTogether(before, table, cat.schema);
    r := if evolved.Ok? then Ok(evolved.value) else Err(OfSchema(evolved.error));
  }

  /** Begin a write of the columns `want`: the table is made to have them, and, unless the write
      rewrites rows as stored, may not require a column the write has no value for. */
  method BeginWrite(cat: SchemaCatalog, want: Schema, rewrite: bool, retry: Retrying, units: seq<real>)
    returns (r: Result<Schema, BeginError>)
    requires cat.Valid() && Named(want) && retry.Valid() && retry.retried == 0
    modifies cat, retry, retry.clock
    ensures cat.Valid() && retry.Valid() && cat.there && (old(cat.there) ==> Grows(old(cat.schema), cat.schema))
    ensures r.Ok? ==> Grows(r.value, cat.schema) && Has(r.value, want) && (rewrite || RequiredWritten(r.value, want))
    ensures r.Err? && r.error.Unwritten? ==>
              !rewrite && Lookup(want, r.error.column).None?
              && exists f :: f in cat.schema && f.required && f.name == r.error.column
    ensures r.Err? && r.error.OfSchema? && r.error.error.Mismatch? ==> Clashes(cat.schema, want, r.error.error)
    ensures r.Err? && r.error.OfSchema? && r.error.error.Conflict? ==> retry.Exhausted(units)
    ensures old(cat.there) && old(Granted(cat, retry, units)) && r.Err? ==>
              r.error.Unwritten? || (r.error.OfSchema? && r.error.error.Mismatch?)
    ensures !old(cat.there) ==> r == if old(cat.rival).None? then Ok(want) else Err(AlreadyThere)
    ensures old(cat.there) && old(cat.Alone()) ==>
              var missing := Missing(old(cat.schema), want, false);
              r.Ok? <==> missing.Ok? && (rewrite || RequiredWritten(old(cat.schema) + missing.value, want))
  {
    var table := TableFor(cat, want, retry, units);
    if table.Err? {
      return table;
    }
    var s := table.value;
    HasItself(want);
    GrownKeeps(s, cat.schema, want);
    if !rewrite {
      for i := 0 to |s|
        invariant forall j :: 0 <= j < i && s[j].required ==> Lookup(want, s[j].name).Some?
      {
        if s[i].required && Lookup(want, s[i].name).None? {
          assert s[i] in s && s[i] in cat.schema;
          return Err(Unwritten(s[i].name));
        }
      }
    }
    r := Ok(s);
  }

  /** What a write was promised when it began holds when it commits, however many writers
      changed the schema between: every column it writes is there with its type, every column
      there was is there, and no column it does not write is required. */
  lemma PromiseKept(begun: Schema, committed: Schema, want: Schema)
    requires Grows(begun, committed) && Has(begun, want)
    ensures Has(committed, want) && begun <= committed
    ensures RequiredWritten(begun, want) <==> RequiredWritten(committed, want)
  {
    GrownKeeps(begun, committed, want);
    if RequiredWritten(committed, want) {
      forall f | f in begun && f.required
        ensures Lookup(want, f.name).Some?
      {
        assert f in committed;
      }
    }
  }
}
