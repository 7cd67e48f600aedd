/** Where the executor departs from the specification: a nil slice at a field whose list is required is answered with
    an empty list, while every other nil is a null. The strict response has one more error for each such field that the
    selection reaches, so the two responses are equal exactly when it reaches none. */
module GraphQLReadings {
  import opened GraphQLSchema
  import opened GraphQLSpec
  import opened GraphQLExecutor
  import opened GraphQLNulls

  /** The executor and the specification complete a field's value alike unless it is a nil slice for a required list;
      then the specification raises an error and the executor answers an empty list. */
  lemma {:induction false} DeviationIsNilSlice(r: Resolver, m: Marshaller, v: GoValue, f: Field, path: Path)
    requires Fits(m, v)
    ensures var t := MarshalledType(m);
            var ours, strict := Complete(r, t, Read(m.required && m.Many?, v), f, path), Complete(r, t, Read(false, v), f, path);
            && (ours == strict <==> !(m.required && m.Many? && v.NilSlice?))
            && (ours != strict ==> ours == Result(Gave(JList([])), multiset{}) && strict == Result(Raised, multiset{path}))
  {
    if m.required && m.Many? && v.NilSlice? {
      NullCompletes(r, m, f, path);
      CompleteMany(r, m, v, f, path);
      var rs := Elements(r, NonNull(ElementType(m.element)), ReadItems([]), f, path);
      assert rs == [] && Jsons(rs) == [] && !AnyRaised(rs);
    }
  }

  // ---- The nil lists that a selection reaches -----------------------------------------------------------

  function Total(ms: seq<multiset<Path>>): multiset<Path> {
    if ms == [] then multiset{} else Total(ms[..|ms| - 1]) + ms[|ms| - 1]
  }

  /** The fields below a value whose required list was answered with a nil slice, by their paths. */
  function NilsInValue(go: GoResolver, t: TypeRef, v: Internal, f: Field, path: Path): multiset<Path>
    decreases f, t, 0
  {
    match t
    case NonNull(u) => NilsInValue(go, u, v, f, path)
    case ListOf(u) => if v.Items? then Total(NilsInItems(go, u, v.items, f, path)) else multiset{}
    case Leaf => multiset{}
    case Obj(o) => if v.Ref? then NilsInSelection(go, o, v.target, f.sub, path) else multiset{}
  }

  function NilsInItems(go: GoResolver, u: TypeRef, items: seq<Internal>, f: Field, path: Path): (ms: seq<multiset<Path>>)
    ensures |ms| == |items|
    decreases f, u, 1
  {
    seq(|items|, i requires 0 <= i < |items| => NilsInValue(go, u, items[i], f, Below(path, Index(i))))
  }

  function NilsInSelection(go: GoResolver, o: ObjectType, x: Object, fs: seq<Field>, path: Path): multiset<Path>
    decreases fs, 1
  {
    Total(NilsInFields(go, o, x, fs, path))
  }

  function NilsInFields(go: GoResolver, o: ObjectType, x: Object, fs: seq<Field>, path: Path): (ms: seq<multiset<Path>>)
    ensures |ms| == |fs|
    decreases fs, 0
  {
    seq(|fs|, i requires 0 <= i < |fs| => NilsInField(go, o, x, fs[i], path))
  }

  function NilsInField(go: GoResolver, o: ObjectType, x: Object, f: Field, path: Path): multiset<Path>
    decreases f
  {
    if f.name == Typename || DeclaredType(o, f.name).None? || go(o, x, f).Error? then multiset{}
    else if RequiredList(o, f.name) && go(o, x, f).value.NilSlice? then multiset{Below(path, Key(f.key))}
    else NilsInValue(go, DeclaredType(o, f.name).value, Read(false, go(o, x, f).value), f, Below(path, Key(f.key)))
  }

  /** The strict result has the errors of the executor's and one for each nil; without nils they are equal. */
  ghost predicate Apart(ours: Result, strict: Result, nils: multiset<Path>) {
    strict.errors == ours.errors + nils && (nils == multiset{} ==> ours == strict)
  }

  lemma {:induction false} PartOfTotal(ms: seq<multiset<Path>>, i: nat)
    requires i < |ms|
    ensures ms[i] <= Total(ms)
    decreases |ms|
  {
    if i < |ms| - 1 {
      PartOfTotal(ms[..|ms| - 1], i);
    }
  }

  lemma {:induction false} ErrorsApart(ours: seq<Result>, strict: seq<Result>, nils: seq<multiset<Path>>)
    requires |ours| == |strict| == |nils| && forall i :: 0 <= i < |ours| ==> strict[i].errors == ours[i].errors + nils[i]
    ensures AllErrors(strict) == AllErrors(ours) + Total(nils)
    decreases |ours|
  {
    if ours != [] {
      var n := |ours| - 1;
      ErrorsApart(ours[..n], strict[..n], nils[..n]);
    }
  }

  lemma {:induction false} AllApart(ours: seq<Result>, strict: seq<Result>, nils: seq<multiset<Path>>)
    requires |ours| == |strict| == |nils| && forall i :: 0 <= i < |ours| ==> Apart(ours[i], strict[i], nils[i])
    ensures AllErrors(strict) == AllErrors(ours) + Total(nils)
    ensures Total(nils) == multiset{} ==> ours == strict
  {
    ErrorsApart(ours, strict, nils);
    if Total(nils) == multiset{} {
      forall i | 0 <= i < |ours| ensures ours[i] == strict[i] {
        PartOfTotal(nils, i);
      }
    }
  }

  lemma {:induction false} ValueApart(go: GoResolver, t: TypeRef, v: Internal, f: Field, path: Path)
    ensures Apart(Complete(Reading(go), t, v, f, path), Complete(StrictReading(go), t, v, f, path), NilsInValue(go, t, v, f, path))
    decreases f, t, 0
  {
    match t
    case NonNull(u) =>
      ValueApart(go, u, v, f, path);
      NullOnlyFromNull(Reading(go), u, v, f, path);
      NullOnlyFromNull(StrictReading(go), u, v, f, path);
    case ListOf(u) =>
      if v.Items? {
        ItemsApart(go, u, v.items, f, path);
      }
    case Leaf =>
    case Obj(o) =>
      if v.Ref? {
        SelectionApart(go, o, v.target, f.sub, path);
      }
  }

  lemma {:induction false} ItemsApart(go: GoResolver, u: TypeRef, items: seq<Internal>, f: Field, path: Path)
    ensures Apart(ListResult(Elements(Reading(go), u, items, f, path)), ListResult(Elements(StrictReading(go), u, items, f, path)),
                  Total(NilsInItems(go, u, items, f, path)))
    decreases f, u, 1
  {
    var ours, strict := Elements(Reading(go), u, items, f, path), Elements(StrictReading(go), u, items, f, path);
    var nils := NilsInItems(go, u, items, f, path);
    forall i | 0 <= i < |items| ensures Apart(ours[i], strict[i], nils[i]) {
      ValueApart(go, u, items[i], f, Below(path, Index(i)));
    }
    AllApart(ours, strict, nils);
  }

  lemma {:induction false} SelectionApart(go: GoResolver, o: ObjectType, x: Object, fs: seq<Field>, path: Path)
    ensures Apart(ObjectResult(fs, Selection(Reading(go), o, x, fs, path)),
                  ObjectResult(fs, Selection(StrictReading(go), o, x, fs, path)), NilsInSelection(go, o, x, fs, path))
    decreases fs
  {
    var ours, strict := Selection(Reading(go), o, x, fs, path), Selection(StrictReading(go), o, x, fs, path);
    var nils := NilsInFields(go, o, x, fs, path);
    forall i | 0 <= i < |fs| ensures Apart(ours[i], strict[i], nils[i]) {
      FieldApart(go, o, x, fs[i], path);
    }
    AllApart(ours, strict, nils);
  }

  lemma {:induction false} FieldApart(go: GoResolver, o: ObjectType, x: Object, f: Field, path: Path)
    ensures Apart(FieldResult(Reading(go), o, x, f, path), FieldResult(StrictReading(go), o, x, f, path),
                  NilsInField(go, o, x, f, path))
    decreases f
  {
    if f.name != Typename && DeclaredType(o, f.name).Some? && go(o, x, f).Returned? {
      AnswerApart(go, o, x, f, path, DeclaredType(o, f.name).value);
    }
  }

  lemma {:induction false} AnswerApart(go: GoResolver, o: ObjectType, x: Object, f: Field, path: Path, t: TypeRef)
    requires f.name != Typename && DeclaredType(o, f.name) == Some(t) && go(o, x, f).Returned?
    ensures Apart(FieldResult(Reading(go), o, x, f, path), FieldResult(StrictReading(go), o, x, f, path),
                  NilsInField(go, o, x, f, path))
    decreases f, t, 1
  {
    var v, here := go(o, x, f).value, Below(path, Key(f.key));
    var ours, strict := Read(RequiredList(o, f.name), v), Read(false, v);
    assert FieldResult(Reading(go), o, x, f, path) == Caught(t, Complete(Reading(go), t, ours, f, here));
    assert FieldResult(StrictReading(go), o, x, f, path) == Caught(t, Complete(StrictReading(go), t, strict, f, here));
    if RequiredList(o, f.name) && v.NilSlice? {
      EmptyOrNull(Reading(go), StrictReading(go), t, f, here);
    } else {
      assert ours == strict;
      ValueApart(go, t, strict, f, here);
    }
  }

  /** A required list completes empty without errors, and null with one. */
  lemma {:induction false} EmptyOrNull(r: Resolver, q: Resolver, t: TypeRef, f: Field, path: Path)
    requires t.NonNull? && t.inner.ListOf?
    ensures Complete(r, t, Items([]), f, path) == Result(Gave(JList([])), multiset{})
    ensures Complete(q, t, Null, f, path) == Result(Raised, multiset{path})
  {
    var rs := Elements(r, t.inner.element, [], f, path);
    assert rs == [] && Jsons(rs) == [] && !AnyRaised(rs);
    assert Complete(q, t.inner, Null, f, path) == Result(Gave(JNull), multiset{});
  }

  /** The response equals the one the specification prescribes with every nil a null if and only if the selection
      reaches no required list that was answered with a nil slice; the strict errors are the executor's and one at each
      such field. */
  lemma {:induction false} StrictExactly(go: GoResolver, o: ObjectType, fs: seq<Field>)
    ensures var ours, strict, nils := Response(Reading(go), o, fs), Response(StrictReading(go), o, fs), NilsInSelection(go, o, Root, fs, []);
            && strict.1 == ours.1 + nils
            && (ours == strict <==> nils == multiset{})
  {
    SelectionApart(go, o, Root, fs, []);
    var ours, nils := Response(Reading(go), o, fs).1, NilsInSelection(go, o, Root, fs, []);
    if ours + nils == ours {
      assert (ours + nils) - ours == nils;
    }
  }

  // ---- Resolvers without nil lists ----------------------------------------------------------------------

  /** No resolver returns a nil slice for a required list. */
  ghost predicate NoNilLists(go: GoResolver) {
    forall o: ObjectType, x: Object, f: Field :: RequiredList(o, f.name) ==> go(o, x, f) != Returned(NilSlice)
  }

  lemma {:induction false} TotalNone(ms: seq<multiset<Path>>)
    requires forall i :: 0 <= i < |ms| ==> ms[i] == multiset{}
    ensures Total(ms) == multiset{}
    decreases |ms|
  {
    if ms != [] {
      TotalNone(ms[..|ms| - 1]);
    }
  }

  lemma {:induction false} NoNilsInValue(go: GoResolver, t: TypeRef, v: Internal, f: Field, path: Path)
    requires NoNilLists(go)
    ensures NilsInValue(go, t, v, f, path) == multiset{}
    decreases f, t, 0
  {
    match t
    case NonNull(u) => NoNilsInValue(go, u, v, f, path);
    case ListOf(u) =>
      if v.Items? {
        forall i | 0 <= i < |v.items| ensures NilsInValue(go, u, v.items[i], f, Below(path, Index(i))) == multiset{} {
          NoNilsInValue(go, u, v.items[i], f, Below(path, Index(i)));
        }
        TotalNone(NilsInItems(go, u, v.items, f, path));
      }
    case Leaf =>
    case Obj(o) =>
      if v.Ref? {
        NoNilsInSelection(go, o, v.target, f.sub, path);
      }
  }

  lemma {:induction false} NoNilsInSelection(go: GoResolver, o: ObjectType, x: Object, fs: seq<Field>, path: Path)
    requires NoNilLists(go)
    ensures NilsInSelection(go, o, x, fs, path) == multiset{}
    decreases fs
  {
    forall i | 0 <= i < |fs| ensures NilsInField(go, o, x, fs[i], path) == multiset{} {
      NoNilsInField(go, o, x, fs[i], path);
    }
    TotalNone(NilsInFields(go, o, x, fs, path));
  }

  lemma {:induction false} NoNilsInField(go: GoResolver, o: ObjectType, x: Object, f: Field, path: Path)
    requires NoNilLists(go)
    ensures NilsInField(go, o, x, f, path) == multiset{}
    decreases f
  {
    if f.name != Typename && DeclaredType(o, f.name).Some? && go(o, x, f).Returned? {
      assert RequiredList(o, f.name) ==> go(o, x, f) != Returned(NilSlice);
      NoNilsInValue(go, DeclaredType(o, f.name).value, Read(false, go(o, x, f).value), f, Below(path, Key(f.key)));
    }
  }

  /** With such resolvers every response is the strict one. */
  lemma {:induction false} StrictWithoutNilLists(go: GoResolver, o: ObjectType, fs: seq<Field>)
    requires NoNilLists(go)
    ensures Response(Reading(go), o, fs) == Response(StrictReading(go), o, fs)
  {
    NoNilsInSelection(go, o, Root, fs, []);
    StrictExactly(go, o, fs);
  }
}
