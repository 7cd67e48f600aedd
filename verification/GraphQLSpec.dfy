/** Value completion and error handling as the GraphQL specification (October 2021) states them in sections 6.4.3 and
    6.4.4, over resolvers that are arbitrary functions, and what follows for nulls and errors. */
module GraphQLSpec {
  import opened GraphQLSchema

  /** A resolved value before completion. */
  datatype Internal = Null | Plain(value: Scalar) | Ref(target: Object) | Items(items: seq<Internal>)

  datatype Answer = Failed | Got(value: Internal)

  type Resolver = (ObjectType, Object, Field) -> Answer

  /** Completion either gives a response value or raises a field error to the parent. */
  datatype Completion = Raised | Gave(json: Json)

  datatype Result = Result(completion: Completion, errors: multiset<Path>)

  function AsNull(c: Completion): Json {
    if c.Raised? then JNull else c.json
  }

  predicate AnyRaised(rs: seq<Result>) {
    exists i :: 0 <= i < |rs| && rs[i].completion.Raised?
  }

  function AllErrors(rs: seq<Result>): multiset<Path> {
    if rs == [] then multiset{} else AllErrors(rs[..|rs| - 1]) + rs[|rs| - 1].errors
  }

  function Jsons(rs: seq<Result>): (js: seq<Json>)
    ensures |js| == |rs| && forall i :: 0 <= i < |rs| ==> js[i] == AsNull(rs[i].completion)
  {
    seq(|rs|, i requires 0 <= i < |rs| => AsNull(rs[i].completion))
  }

  function Members(fs: seq<Field>, js: seq<Json>): (ms: seq<(string, Json)>)
    requires |fs| == |js|
    ensures |ms| == |fs| && forall i :: 0 <= i < |fs| ==> ms[i] == (fs[i].key, js[i])
  {
    seq(|fs|, i requires 0 <= i < |fs| => (fs[i].key, js[i]))
  }

  /** A nullable position stops a raised error: the position becomes null. */
  function Caught(t: TypeRef, r: Result): Result {
    if r.completion.Raised? && !t.NonNull? then r.(completion := Gave(JNull)) else r
  }

  function ListResult(rs: seq<Result>): Result {
    Result(if AnyRaised(rs) then Raised else Gave(JList(Jsons(rs))), AllErrors(rs))
  }

  function ObjectResult(fs: seq<Field>, rs: seq<Result>): Result
    requires |fs| == |rs|
  {
    Result(if AnyRaised(rs) then Raised else Gave(JObject(Members(fs, Jsons(rs)))), AllErrors(rs))
  }

  function Below(path: Path, s: Segment): Path {
    path + [s]
  }

  /** CompleteValue of section 6.4.3, without the catching that the position does. */
  function Complete(r: Resolver, t: TypeRef, v: Internal, f: Field, path: Path): Result
    decreases f, t, 0
  {
    match t
    case NonNull(u) =>
      var c := Complete(r, u, v, f, path);
      if c.completion == Gave(JNull) then Result(Raised, c.errors + multiset{path}) else c
    case ListOf(u) =>
      if v.Null? then Result(Gave(JNull), multiset{})
      else if v.Items? then ListResult(Elements(r, u, v.items, f, path))
      else Result(Raised, multiset{path})
    case Leaf =>
      if v.Null? then Result(Gave(JNull), multiset{})
      else if v.Plain? then Result(Gave(JScalar(v.value)), multiset{})
      else Result(Raised, multiset{path})
    case Obj(o) =>
      if v.Null? then Result(Gave(JNull), multiset{})
      else if v.Ref? then ObjectResult(f.sub, Selection(r, o, v.target, f.sub, path))
      else Result(Raised, multiset{path})
  }

  function Elements(r: Resolver, u: TypeRef, items: seq<Internal>, f: Field, path: Path): (rs: seq<Result>)
    ensures |rs| == |items|
    decreases f, u, 1
  {
    seq(|items|, i requires 0 <= i < |items| => Caught(u, Complete(r, u, items[i], f, Below(path, Index(i)))))
  }

  /** ExecuteSelectionSet of section 6.2: the result of each field, in order. */
  function Selection(r: Resolver, o: ObjectType, x: Object, fs: seq<Field>, path: Path): (rs: seq<Result>)
    ensures |rs| == |fs|
    decreases fs
  {
    seq(|fs|, i requires 0 <= i < |fs| => FieldResult(r, o, x, fs[i], path))
  }

  /** ExecuteField of section 6.4: the result at the field's own position. */
  function FieldResult(r: Resolver, o: ObjectType, x: Object, f: Field, path: Path): Result
    decreases f
  {
    if f.name == Typename then Result(Gave(JScalar(Text(TypeName(o)))), multiset{})
    else
      match DeclaredType(o, f.name)
      case None => Result(Raised, multiset{Below(path, Key(f.key))})
      case Some(t) =>
        match r(o, x, f)
        case Failed => Caught(t, Result(Raised, multiset{Below(path, Key(f.key))}))
        case Got(v) => Caught(t, Complete(r, t, v, f, Below(path, Key(f.key))))
  }

  /** The response to an operation: its data, null if an error reached the root, and its errors. */
  function Response(r: Resolver, o: ObjectType, fs: seq<Field>): (Json, multiset<Path>) {
    var result := ObjectResult(fs, Selection(r, o, Root, fs, []));
    (AsNull(result.completion), result.errors)
  }

  // ---- No non-null position holds a null ----------------------------------------------------------------

  /** A response value has the shape of its type and selection, with null only where the type allows it. */
  ghost predicate Conforms(t: TypeRef, f: Field, j: Json)
    decreases f, t, 0
  {
    match t
    case NonNull(u) => j != JNull && Conforms(u, f, j)
    case ListOf(u) => j != JNull ==> j.JList? && forall i :: 0 <= i < |j.items| ==> Conforms(u, f, j.items[i])
    case Leaf => j != JNull ==> j.JScalar?
    case Obj(o) => j != JNull ==> j.JObject? && ConformingObject(o, f.sub, j.members)
  }

  ghost predicate ConformingObject(o: ObjectType, fs: seq<Field>, ms: seq<(string, Json)>)
    decreases fs
  {
    && |ms| == |fs|
    && forall i :: 0 <= i < |fs| ==> ms[i].0 == fs[i].key && ConformingField(o, fs[i], ms[i].1)
  }

  ghost predicate ConformingField(o: ObjectType, f: Field, j: Json)
    decreases f
  {
    if f.name == Typename then j == JScalar(Text(TypeName(o)))
    else DeclaredType(o, f.name).Some? && Conforms(DeclaredType(o, f.name).value, f, j)
  }

  lemma {:induction false} CompleteConforms(r: Resolver, t: TypeRef, v: Internal, f: Field, path: Path)
    ensures var c := Complete(r, t, v, f, path).completion; c.Gave? ==> Conforms(t, f, c.json)
    decreases f, t, 0
  {
    match t
    case NonNull(u) => CompleteConforms(r, u, v, f, path);
    case ListOf(u) =>
      if v.Items? {
        forall i | 0 <= i < |v.items|
          ensures var c := Caught(u, Complete(r, u, v.items[i], f, Below(path, Index(i)))).completion;
                  c.Gave? ==> Conforms(u, f, c.json)
        {
          CompleteConforms(r, u, v.items[i], f, Below(path, Index(i)));
        }
      }
    case Leaf =>
    case Obj(o) =>
      if v.Ref? {
        SelectionConforms(r, o, v.target, f.sub, path);
      }
  }

  lemma {:induction false} SelectionConforms(r: Resolver, o: ObjectType, x: Object, fs: seq<Field>, path: Path)
    ensures var rs := Selection(r, o, x, fs, path);
            !AnyRaised(rs) ==> ConformingObject(o, fs, Members(fs, Jsons(rs)))
    decreases fs
  {
    forall i | 0 <= i < |fs|
      ensures var c := FieldResult(r, o, x, fs[i], path).completion; c.Gave? ==> ConformingField(o, fs[i], c.json)
    {
      FieldConforms(r, o, x, fs[i], path);
    }
  }

  lemma {:induction false} FieldConforms(r: Resolver, o: ObjectType, x: Object, f: Field, path: Path)
    ensures var c := FieldResult(r, o, x, f, path).completion; c.Gave? ==> ConformingField(o, f, c.json)
    decreases f
  {
    if f.name != Typename && DeclaredType(o, f.name).Some? && r(o, x, f).Got? {
      CompleteConforms(r, DeclaredType(o, f.name).value, r(o, x, f).value, f, Below(path, Key(f.key)));
    }
  }

  /** The data of every response is null or conforms: no non-null position anywhere in it holds a null. */
  lemma {:induction false} ResponseConforms(r: Resolver, o: ObjectType, fs: seq<Field>)
    ensures var data := Response(r, o, fs).0;
            data == JNull || (data.JObject? && ConformingObject(o, fs, data.members))
  {
    SelectionConforms(r, o, Root, fs, []);
  }
}
