/** Where nulls come from: a null that an error put somewhere in a response was raised by a failing position below it,
    through non-null positions only, and that failing position is in the errors of the response. */
module GraphQLNulls {
  import opened GraphQLSchema
  import opened GraphQLSpec

  /** Following `chain` down from a value being completed at type t, every position passed is non-null and the last
      one fails by itself: its resolver failed, it is null, or its value is not of its type. */
  ghost predicate ValueFails(r: Resolver, t: TypeRef, v: Internal, f: Field, chain: Path)
    decreases |chain|, 1, t
  {
    match t
    case NonNull(u) => (v.Null? && chain == []) || ValueFails(r, u, v, f, chain)
    case ListOf(u) =>
      if v.Items? then
        && u.NonNull? && chain != [] && chain[0].Index? && chain[0].index < |v.items|
        && ValueFails(r, u, v.items[chain[0].index], f, chain[1..])
      else !v.Null? && chain == []
    case Leaf => !v.Null? && !v.Plain? && chain == []
    case Obj(o) =>
      if v.Ref? then SelectionFails(r, o, v.target, f.sub, chain) else !v.Null? && chain == []
  }

  ghost predicate SelectionFails(r: Resolver, o: ObjectType, x: Object, fs: seq<Field>, chain: Path)
    decreases |chain|, 0
  {
    chain != [] && exists i :: 0 <= i < |fs| && chain[0] == Key(fs[i].key) && FieldFails(r, o, x, fs[i], chain[1..])
  }

  ghost predicate FieldFails(r: Resolver, o: ObjectType, x: Object, f: Field, chain: Path)
    decreases |chain|, 2
  {
    && f.name != Typename
    && match DeclaredType(o, f.name)
       case None => chain == []
       case Some(t) =>
         && t.NonNull?
         && match r(o, x, f)
            case Failed => chain == []
            case Got(v) => ValueFails(r, t, v, f, chain)
  }

  lemma {:induction false} ErrorsInclude(rs: seq<Result>, i: nat)
    requires i < |rs|
    ensures rs[i].errors <= AllErrors(rs)
    decreases |rs|
  {
    if i < |rs| - 1 {
      ErrorsInclude(rs[..|rs| - 1], i);
    }
  }

  lemma {:induction false} ChainIn(path: Path, chain: Path)
    requires chain != []
    ensures Below(path, chain[0]) + chain[1..] == path + chain
  {
  }

  /** A failing chain raises its error to the top, and the failing position is in the errors. */
  lemma {:induction false} ChainRaises(r: Resolver, t: TypeRef, v: Internal, f: Field, path: Path, chain: Path)
    requires ValueFails(r, t, v, f, chain)
    ensures var c := Complete(r, t, v, f, path); c.completion.Raised? && path + chain in c.errors
    decreases |chain|, 1, t
  {
    match t
    case NonNull(u) =>
      if ValueFails(r, u, v, f, chain) {
        ChainRaises(r, u, v, f, path, chain);
      } else {
        assert path + chain == path;
      }
    case ListOf(u) =>
      if v.Items? {
        var i := chain[0].index;
        ChainRaises(r, u, v.items[i], f, Below(path, Index(i)), chain[1..]);
        ChainIn(path, chain);
        ErrorsInclude(Elements(r, u, v.items, f, path), i);
      } else {
        assert path + chain == path;
      }
    case Leaf => assert path + chain == path;
    case Obj(o) =>
      if v.Ref? {
        SelectionRaises(r, o, v.target, f.sub, path, chain);
      } else {
        assert path + chain == path;
      }
  }

  lemma {:induction false} SelectionRaises(r: Resolver, o: ObjectType, x: Object, fs: seq<Field>, path: Path, chain: Path)
    requires SelectionFails(r, o, x, fs, chain)
    ensures var c := ObjectResult(fs, Selection(r, o, x, fs, path)); c.completion.Raised? && path + chain in c.errors
    decreases |chain|, 0
  {
    var i :| 0 <= i < |fs| && chain[0] == Key(fs[i].key) && FieldFails(r, o, x, fs[i], chain[1..]);
    FieldRaises(r, o, x, fs[i], path, chain[1..]);
    ChainIn(path, chain);
    ErrorsInclude(Selection(r, o, x, fs, path), i);
  }

  lemma {:induction false} FieldRaises(r: Resolver, o: ObjectType, x: Object, f: Field, path: Path, chain: Path)
    requires FieldFails(r, o, x, f, chain)
    ensures var c := FieldResult(r, o, x, f, path);
            c.completion.Raised? && Below(path, Key(f.key)) + chain in c.errors
    decreases |chain|, 2
  {
    var p := Below(path, Key(f.key));
    if DeclaredType(o, f.name).Some? && r(o, x, f).Got? {
      ChainRaises(r, DeclaredType(o, f.name).value, r(o, x, f).value, f, p, chain);
    } else {
      assert p + chain == p;
    }
  }

  /** A raised error comes from a failing chain. */
  lemma {:induction false} RaisedByChain(r: Resolver, t: TypeRef, v: Internal, f: Field, path: Path) returns (chain: Path)
    requires Complete(r, t, v, f, path).completion.Raised?
    ensures ValueFails(r, t, v, f, chain)
    decreases f, t, 0
  {
    match t
    case NonNull(u) =>
      if Complete(r, u, v, f, path).completion.Raised? {
        chain := RaisedByChain(r, u, v, f, path);
      } else {
        NullOnlyFromNull(r, u, v, f, path);
        chain := [];
      }
    case ListOf(u) =>
      if v.Items? {
        var rs := Elements(r, u, v.items, f, path);
        var i :| 0 <= i < |rs| && rs[i].completion.Raised?;
        var rest := RaisedByChain(r, u, v.items[i], f, Below(path, Index(i)));
        chain := [Index(i)] + rest;
        assert chain[1..] == rest;
      } else {
        chain := [];
      }
    case Leaf => chain := [];
    case Obj(o) =>
      if v.Ref? {
        chain := SelectionRaisedByChain(r, o, v.target, f.sub, path);
      } else {
        chain := [];
      }
  }

  lemma {:induction false} NullOnlyFromNull(r: Resolver, u: TypeRef, v: Internal, f: Field, path: Path)
    ensures Complete(r, u, v, f, path).completion == Gave(JNull) <==> v.Null? && !u.NonNull?
  {
    match u
    case NonNull(_) =>
    case ListOf(_) =>
    case Leaf =>
    case Obj(_) =>
  }

  lemma {:induction false} SelectionRaisedByChain(r: Resolver, o: ObjectType, x: Object, fs: seq<Field>, path: Path) returns (chain: Path)
    requires AnyRaised(Selection(r, o, x, fs, path))
    ensures SelectionFails(r, o, x, fs, chain)
    decreases fs
  {
    var rs := Selection(r, o, x, fs, path);
    var i :| 0 <= i < |rs| && rs[i].completion.Raised?;
    var rest := FieldRaisedByChain(r, o, x, fs[i], path);
    chain := [Key(fs[i].key)] + rest;
    assert chain[1..] == rest;
  }

  lemma {:induction false} FieldRaisedByChain(r: Resolver, o: ObjectType, x: Object, f: Field, path: Path) returns (chain: Path)
    requires FieldResult(r, o, x, f, path).completion.Raised?
    ensures FieldFails(r, o, x, f, chain)
    decreases f
  {
    chain := [];
    if DeclaredType(o, f.name).Some? && r(o, x, f).Got? {
      chain := RaisedByChain(r, DeclaredType(o, f.name).value, r(o, x, f).value, f, Below(path, Key(f.key)));
    }
  }

  /** The data of a response is null exactly when some failing position is joined to the root by non-null positions
      only; every such position is in the errors. */
  lemma {:induction false} DataNullExactly(r: Resolver, o: ObjectType, fs: seq<Field>)
    ensures var (data, errors) := Response(r, o, fs);
            && (data == JNull <==> exists chain :: SelectionFails(r, o, Root, fs, chain))
            && forall chain :: SelectionFails(r, o, Root, fs, chain) ==> chain in errors
  {
    if AnyRaised(Selection(r, o, Root, fs, [])) {
      var chain := SelectionRaisedByChain(r, o, Root, fs, []);
      assert SelectionFails(r, o, Root, fs, chain);
    }
    forall chain | SelectionFails(r, o, Root, fs, chain)
      ensures AnyRaised(Selection(r, o, Root, fs, [])) && chain in Response(r, o, fs).1
    {
      SelectionRaises(r, o, Root, fs, [], chain);
      assert [] + chain == chain;
    }
  }

  /** Some position below this value fails and is joined to it by non-null positions only. */
  ghost predicate FailsBelow(r: Resolver, t: TypeRef, v: Internal, f: Field) {
    exists chain :: ValueFails(r, t, v, f, chain)
  }

  lemma {:induction false} RaisedExactly(r: Resolver, t: TypeRef, v: Internal, f: Field, path: Path)
    ensures var c := Complete(r, t, v, f, path);
            && (c.completion.Raised? <==> FailsBelow(r, t, v, f))
            && forall chain :: ValueFails(r, t, v, f, chain) ==> path + chain in c.errors
  {
    if Complete(r, t, v, f, path).completion.Raised? {
      var chain := RaisedByChain(r, t, v, f, path);
      assert ValueFails(r, t, v, f, chain);
    }
    forall chain | ValueFails(r, t, v, f, chain)
      ensures Complete(r, t, v, f, path).completion.Raised? && path + chain in Complete(r, t, v, f, path).errors
    {
      ChainRaises(r, t, v, f, path, chain);
    }
  }

  /** A nullable field is null exactly when its resolver failed or gave null, or a failing position below it is joined
      to it by non-null positions only: an error moves to the nearest nullable ancestor and no further. */
  lemma {:induction false} NullableFieldNullExactly(r: Resolver, o: ObjectType, x: Object, f: Field, path: Path)
    requires f.name != Typename && DeclaredType(o, f.name).Some? && !DeclaredType(o, f.name).value.NonNull?
    ensures var c := FieldResult(r, o, x, f, path); var t := DeclaredType(o, f.name).value; var a := r(o, x, f);
            && c.completion.Gave?
            && (c.completion.json == JNull <==>
                  a.Failed? || a.value.Null? || FailsBelow(r, t, a.value, f))
            && (a.Failed? ==> Below(path, Key(f.key)) in c.errors)
            && (a.Got? ==> forall chain :: ValueFails(r, t, a.value, f, chain) ==> Below(path, Key(f.key)) + chain in c.errors)
  {
    var t, a, p := DeclaredType(o, f.name).value, r(o, x, f), Below(path, Key(f.key));
    if a.Got? {
      RaisedExactly(r, t, a.value, f, p);
      NullOnlyFromNull(r, t, a.value, f, p);
      assert FieldResult(r, o, x, f, path) == Caught(t, Complete(r, t, a.value, f, p));
    }
  }
}
