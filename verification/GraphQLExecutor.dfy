/** The generated executor: object functions fill an array and count invalid fields, list marshallers fill an array from
    goroutines, nils are told apart by their Go type. It refines the specification whatever order closures complete
    in, except that a nil slice counts as an empty list where the list is required. */
module GraphQLExecutor {
  import opened GraphQLSchema
  import opened GraphQLSpec

  /** A resolver's `interface{}` value: a bare nil, a nil inside a pointer or slice type, or a value. */
  datatype GoValue =
    | UntypedNil
    | NilPointer
    | NilSlice
    | Basic(value: Scalar)
    | Pointer(target: Object)
    | Slice(items: seq<GoValue>)

  datatype GoAnswer = Error | Returned(value: GoValue)

  type GoResolver = (ObjectType, Object, Field) -> GoAnswer

  // ---- Go types -----------------------------------------------------------------------------------------

  predicate OneFits(required: bool, e: Element, v: GoValue) {
    match e
    case LeafElement => v.Basic? || (v.NilPointer? && !required)
    case ObjectElement(_) => v.Pointer? || v.NilPointer?
  }

  /** Only the slice of tasks has pointer elements. */
  predicate ItemFits(e: Element, v: GoValue) {
    match e
    case LeafElement => v.Basic?
    case ObjectElement(o) => v.Pointer? || (v.NilPointer? && o == TaskType)
  }

  /** The value passes the type assertion in front of this marshaller. */
  predicate Fits(m: Marshaller, v: GoValue) {
    match m
    case One(required, e) => OneFits(required, e, v)
    case Many(_, e) => v.NilSlice? || (v.Slice? && forall i :: 0 <= i < |v.items| ==> ItemFits(e, v.items[i]))
  }

  ghost predicate Typed(go: GoResolver) {
    forall o: ObjectType, x: Object, f: Field ::
      MarshallerOf(o, f.name).Some? && go(o, x, f).Returned? ==>
        go(o, x, f).value.UntypedNil? || Fits(MarshallerOf(o, f.name).value, go(o, x, f).value)
  }

  // ---- What a Go value means ----------------------------------------------------------------------------

  function ReadItem(v: GoValue): Internal {
    match v
    case Basic(s) => Plain(s)
    case Pointer(x) => Ref(x)
    case _ => Null
  }

  /** Every nil is null, except that a nil slice may stand for an empty list. */
  function Read(emptyForNil: bool, v: GoValue): Internal {
    match v
    case NilSlice => if emptyForNil then Items([]) else Null
    case Slice(items) => Items(seq(|items|, i requires 0 <= i < |items| => ReadItem(items[i])))
    case _ => ReadItem(v)
  }

  predicate RequiredList(o: ObjectType, n: FieldName) {
    var t := DeclaredType(o, n);
    t.Some? && t.value.NonNull? && t.value.inner.ListOf?
  }

  /** The executor's reading of a resolver: a nil slice is an empty list where the list is required. */
  function Reading(go: GoResolver): Resolver {
    (o: ObjectType, x: Object, f: Field) =>
      match go(o, x, f)
      case Error => Failed
      case Returned(v) => Got(Read(RequiredList(o, f.name), v))
  }

  /** The reading in which every nil is null. */
  function StrictReading(go: GoResolver): Resolver {
    (o: ObjectType, x: Object, f: Field) =>
      match go(o, x, f)
      case Error => Failed
      case Returned(v) => Got(Read(false, v))
  }

  // ---- Errors and closures ------------------------------------------------------------------------------

  /** The log has no error at or below this path. */
  ghost predicate Clear(log: seq<Path>, path: Path) {
    forall e <- log :: !(path <= e)
  }

  /** The log grew by exactly these errors, all at or below this path. */
  ghost predicate Grew(before: seq<Path>, after: seq<Path>, path: Path, added: multiset<Path>) {
    && before <= after
    && multiset(after[|before|..]) == added
    && forall e <- after[|before|..] :: path <= e
  }

  lemma {:induction false} GrewNot(log: seq<Path>, path: Path)
    ensures Grew(log, log, path, multiset{})
  {
    assert log[|log|..] == [];
  }

  lemma {:induction false} GrewTwice(a: seq<Path>, b: seq<Path>, c: seq<Path>, path: Path, q: Path, es: multiset<Path>, fs: multiset<Path>)
    requires Grew(a, b, path, es) && Grew(b, c, q, fs) && path <= q
    ensures Grew(a, c, path, es + fs)
  {
    assert c[|a|..] == b[|a|..] + c[|b|..];
  }

  /** Errors added below one segment leave a sibling's path clear. */
  lemma {:induction false} SiblingClear(before: seq<Path>, after: seq<Path>, path: Path, s: Segment, sibling: Segment, es: multiset<Path>)
    requires Grew(before, after, Below(path, s), es) && Clear(before, Below(path, sibling)) && s != sibling
    ensures Clear(after, Below(path, sibling))
  {
    forall e | e in after ensures !(Below(path, sibling) <= e) {
      if e in after[|before|..] {
        assert e[|path|] == s;
      } else {
        assert e in before;
      }
    }
  }

  /** Errors and counted nulls of the closures that have completed, whatever order they completed in. */
  function Tally(rs: seq<Result>, flags: seq<bool>): (multiset<Path>, nat)
    requires |rs| == |flags|
  {
    if rs == [] then (multiset{}, 0)
    else
      var n := |rs| - 1;
      var (errors, invalids) := Tally(rs[..n], flags[..n]);
      if flags[n] then (errors + rs[n].errors, if rs[n].completion.Raised? then invalids + 1 else invalids)
      else (errors, invalids)
  }

  lemma {:induction false} TallyNone(rs: seq<Result>, flags: seq<bool>)
    requires |rs| == |flags| && forall i :: 0 <= i < |flags| ==> !flags[i]
    ensures Tally(rs, flags) == (multiset{}, 0)
    decreases |rs|
  {
    if rs != [] {
      TallyNone(rs[..|rs| - 1], flags[..|rs| - 1]);
    }
  }

  lemma {:induction false} TallyOneMore(rs: seq<Result>, flags: seq<bool>, i: nat)
    requires |rs| == |flags| && i < |rs| && !flags[i]
    ensures var (errors, invalids) := Tally(rs, flags);
            Tally(rs, flags[i := true])
            == (errors + rs[i].errors, if rs[i].completion.Raised? then invalids + 1 else invalids)
    decreases |rs|
  {
    var n := |rs| - 1;
    if i == n {
      assert flags[i := true][..n] == flags[..n];
    } else {
      assert flags[i := true][..n] == flags[..n][i := true];
      TallyOneMore(rs[..n], flags[..n], i);
      var e := Tally(rs[..n], flags[..n]).0;
      assert (e + rs[i].errors) + rs[n].errors == (e + rs[n].errors) + rs[i].errors;
    }
  }

  lemma {:induction false} TallyAll(rs: seq<Result>, flags: seq<bool>)
    requires |rs| == |flags| && forall i :: 0 <= i < |flags| ==> flags[i]
    ensures Tally(rs, flags).0 == AllErrors(rs)
    ensures Tally(rs, flags).1 > 0 <==> AnyRaised(rs)
    decreases |rs|
  {
    if rs != [] {
      var n := |rs| - 1;
      TallyAll(rs[..n], flags[..n]);
      assert AnyRaised(rs[..n]) ==> AnyRaised(rs);
      assert forall i :: 0 <= i < n ==> rs[..n][i] == rs[i];
    }
  }

  /** Part of a field set is filled: the completed slots hold their results' values, the log and the counter are
      theirs, and the remaining slots' paths are still clear. */
  ghost predicate Filled(segments: seq<Segment>, rs: seq<Result>, flags: seq<bool>, values: seq<Json>, invalids: nat,
                         before: seq<Path>, log: seq<Path>, path: Path) {
    && |segments| == |rs| == |flags| == |values|
    && (forall i :: 0 <= i < |rs| && flags[i] ==> values[i] == AsNull(rs[i].completion))
    && invalids == Tally(rs, flags).1
    && Grew(before, log, path, Tally(rs, flags).0)
    && forall i :: 0 <= i < |rs| && !flags[i] ==> Clear(log, Below(path, segments[i]))
  }

  ghost predicate AllDistinct(segments: seq<Segment>) {
    forall i, j :: 0 <= i < j < |segments| ==> segments[i] != segments[j]
  }

  /** Completing any one of the remaining slots fills it. */
  lemma {:induction false} FillOne(segments: seq<Segment>, rs: seq<Result>, flags: seq<bool>, values: seq<Json>, invalids: nat,
                                   before: seq<Path>, log: seq<Path>, path: Path, i: nat, out: Json, log': seq<Path>)
    requires AllDistinct(segments) && Filled(segments, rs, flags, values, invalids, before, log, path)
    requires i < |rs| && !flags[i] && out == AsNull(rs[i].completion)
    requires Grew(log, log', Below(path, segments[i]), rs[i].errors)
    ensures Filled(segments, rs, flags[i := true], values[i := out],
                   if rs[i].completion.Raised? then invalids + 1 else invalids, before, log', path)
  {
    TallyOneMore(rs, flags, i);
    GrewTwice(before, log, log', path, Below(path, segments[i]), Tally(rs, flags).0, rs[i].errors);
    forall j | 0 <= j < |rs| && !flags[i := true][j] ensures Clear(log', Below(path, segments[j])) {
      SiblingClear(log, log', path, segments[i], segments[j], rs[i].errors);
    }
  }

  lemma {:induction false} FillNone(segments: seq<Segment>, rs: seq<Result>, flags: seq<bool>, values: seq<Json>, log: seq<Path>, path: Path)
    requires |segments| == |rs| == |flags| == |values| && Clear(log, path)
    requires forall i :: 0 <= i < |flags| ==> !flags[i]
    ensures Filled(segments, rs, flags, values, 0, log, log, path)
  {
    TallyNone(rs, flags);
    assert log[|log|..] == [];
    forall i | 0 <= i < |rs| ensures Clear(log, Below(path, segments[i])) {
      ClearBelow(log, path, segments[i]);
    }
  }

  lemma {:induction false} ClearBelow(log: seq<Path>, path: Path, s: Segment)
    requires Clear(log, path)
    ensures Clear(log, Below(path, s))
  {
    forall e | e in log ensures !(Below(path, s) <= e) {
      PrefixOf(path, s, e);
    }
  }

  lemma {:induction false} PrefixOf(path: Path, s: Segment, e: Path)
    ensures Below(path, s) <= e ==> path <= e
  {
    assert path <= Below(path, s);
  }

  // ---- The executor -------------------------------------------------------------------------------------

  function KeysOf(fs: seq<Field>): (ss: seq<Segment>)
    ensures |ss| == |fs| && forall i :: 0 <= i < |fs| ==> ss[i] == Key(fs[i].key)
  {
    seq(|fs|, i requires 0 <= i < |fs| => Key(fs[i].key))
  }

  function Indices(n: nat): (ss: seq<Segment>)
    ensures |ss| == n && forall i :: 0 <= i < n ==> ss[i] == Index(i)
  {
    seq(n, i requires 0 <= i < n => Index(i))
  }

  function Positions(n: nat): (s: set<int>)
    ensures forall i :: i in s <==> 0 <= i < n
  {
    if n == 0 then {} else Positions(n - 1) + {n - 1}
  }

  function ReadItems(items: seq<GoValue>): (vs: seq<Internal>)
    ensures |vs| == |items| && forall i :: 0 <= i < |items| ==> vs[i] == ReadItem(items[i])
  {
    seq(|items|, i requires 0 <= i < |items| => ReadItem(items[i]))
  }

  /** Completion of a list field's value, in terms of its elements. */
  lemma {:induction false} CompleteMany(r: Resolver, m: Marshaller, v: GoValue, f: Field, path: Path)
    requires m.Many? && Fits(m, v)
    ensures var items := if v.NilSlice? then [] else v.items;
            Complete(r, MarshalledType(m), Read(m.required, v), f, path)
            == if v.NilSlice? && !m.required then Result(Gave(JNull), multiset{})
               else ListResult(Elements(r, NonNull(ElementType(m.element)), ReadItems(items), f, path))
  {
    var items := if v.NilSlice? then [] else v.items;
    var t := ListOf(NonNull(ElementType(m.element)));
    if m.required || v.Slice? {
      assert Read(m.required, v) == Items(ReadItems(items)) by {
        assert ReadItems([]) == [];
      }
    }
  }

  /** The result of a field whose resolver answered a, at the type its marshaller is for. */
  function AnswerResult(r: Resolver, m: Marshaller, a: GoAnswer, f: Field, path: Path): Result {
    Caught(MarshalledType(m),
           if a.Error? then Result(Raised, multiset{path})
           else Complete(r, MarshalledType(m), Read(m.required && m.Many?, a.value), f, path))
  }

  lemma {:induction false} FieldUnfolds(go: GoResolver, o: ObjectType, x: Object, f: Field, path: Path)
    requires f.name != Typename && MarshallerOf(o, f.name).Some?
    ensures FieldResult(Reading(go), o, x, f, path)
         == AnswerResult(Reading(go), MarshallerOf(o, f.name).value, go(o, x, f), f, Below(path, Key(f.key)))
  {
    GeneratedFromSchema(o, f.name);
  }

  lemma {:induction false} NullCompletes(r: Resolver, m: Marshaller, f: Field, path: Path)
    ensures Complete(r, MarshalledType(m), Null, f, path)
            == if m.required then Result(Raised, multiset{path}) else Result(Gave(JNull), multiset{})
  {
    var t := if m.Many? then ListOf(NonNull(ElementType(m.element))) else ElementType(m.element);
    assert Complete(r, t, Null, f, path) == Result(Gave(JNull), multiset{});
  }

  /** Counting the nulls of the counted fields counts the raised errors. */
  lemma {:induction false} CountedIsRaised(r: Resolver, o: ObjectType, x: Object, f: Field, path: Path)
    requires f.name != Typename && MarshallerOf(o, f.name).Some?
    ensures var c := FieldResult(r, o, x, f, path).completion;
            c.Raised? <==> Counted(o, f.name) && AsNull(c) == JNull
  {
    GeneratedFromSchema(o, f.name);
  }

  lemma {:induction false} RequiredNeverNull(r: Resolver, t: TypeRef, items: seq<Internal>, f: Field, path: Path)
    ensures var rs := Elements(r, NonNull(t), items, f, path);
            forall i :: 0 <= i < |rs| ==> rs[i].completion != Gave(JNull)
  {
  }

  class Executor {
    var go: GoResolver
    var log: seq<Path>

    constructor (go: GoResolver)
      ensures this.go == go && log == []
    {
      this.go, log := go, [];
    }

    method Report(path: Path)
      modifies `log
      ensures log == old(log) + [path]
      ensures Grew(old(log), log, path, multiset{path})
    {
      log := log + [path];
      assert log[|old(log)|..] == [path];
    }

    /** Reports a null, unless an error is already on this path. */
    method ReportNull(path: Path)
      requires Clear(log, path)
      modifies `log
      ensures Grew(old(log), log, path, multiset{path})
    {
      if path !in log {
        Report(path);
      }
    }

    /** The function of one field. */
    method RunField(o: ObjectType, x: Object, f: Field, path: Path) returns (out: Json)
      requires Typed(go) && f.name != Typename && ValidField(o, f) && Clear(log, Below(path, Key(f.key)))
      modifies `log
      ensures var r := FieldResult(Reading(go), o, x, f, path);
              out == AsNull(r.completion) && Grew(old(log), log, Below(path, Key(f.key)), r.errors)
      decreases f, 7
    {
      FieldUnfolds(go, o, x, f, path);
      out := RunAnswer(MarshallerOf(o, f.name).value, go(o, x, f), f, Below(path, Key(f.key)));
    }

    /** What a field function does with its resolver's answer. */
    method RunAnswer(m: Marshaller, a: GoAnswer, f: Field, path: Path) returns (out: Json)
      requires Typed(go) && (a.Returned? ==> a.value.UntypedNil? || Fits(m, a.value)) && Clear(log, path)
      requires m.element.ObjectElement? ==> ValidSelection(m.element.o, f.sub)
      modifies `log
      ensures var r := AnswerResult(Reading(go), m, a, f, path);
              out == AsNull(r.completion) && Grew(old(log), log, path, r.errors)
      decreases f, 6
    {
      if a.Error? {
        Report(path);
        return JNull;
      }
      out := RunValue(m, a.value, f, path);
    }

    /** What a field function does with its resolver's value. */
    method RunValue(m: Marshaller, v: GoValue, f: Field, path: Path) returns (out: Json)
      requires Typed(go) && (v.UntypedNil? || Fits(m, v)) && Clear(log, path)
      requires m.element.ObjectElement? ==> ValidSelection(m.element.o, f.sub)
      modifies `log
      ensures var r := Complete(Reading(go), MarshalledType(m), Read(m.required && m.Many?, v), f, path);
              out == AsNull(r.completion) && Grew(old(log), log, path, r.errors)
      decreases f, 5
    {
      if v.UntypedNil? {
        NullCompletes(Reading(go), m, f, path);
        if m.required {
          ReportNull(path);
        } else {
          GrewNot(log, path);
        }
        return JNull;
      }
      out := Marshal(m, v, f, path);
    }

    method Marshal(m: Marshaller, v: GoValue, f: Field, path: Path) returns (out: Json)
      requires Typed(go) && Fits(m, v) && Clear(log, path)
      requires m.element.ObjectElement? ==> ValidSelection(m.element.o, f.sub)
      modifies `log
      ensures var r := Complete(Reading(go), MarshalledType(m), Read(m.required && m.Many?, v), f, path);
              out == AsNull(r.completion) && Grew(old(log), log, path, r.errors)
      decreases f, 4
    {
      match m
      case One(required, e) => out := MarshalOne(required, e, v, f, path);
      case Many(required, e) =>
        CompleteMany(Reading(go), m, v, f, path);
        if !required && v.NilSlice? {
          out := JNull;
          GrewNot(log, path);
        } else {
          out := MarshalItems(e, if v.NilSlice? then [] else v.items, f, path);
        }
    }

    method MarshalOne(required: bool, e: Element, v: GoValue, f: Field, path: Path) returns (out: Json)
      requires Typed(go) && OneFits(required, e, v) && Clear(log, path)
      requires e.ObjectElement? ==> ValidSelection(e.o, f.sub)
      modifies `log
      ensures var t := if required then NonNull(ElementType(e)) else ElementType(e);
              var r := Complete(Reading(go), t, ReadItem(v), f, path);
              out == AsNull(r.completion) && Grew(old(log), log, path, r.errors)
      decreases f, 0
    {
      if v.NilPointer? {
        if required {
          ReportNull(path);
        } else {
          GrewNot(log, path);
        }
        return JNull;
      }
      match e
      case LeafElement =>
        out := JScalar(v.value);
        GrewNot(log, path);
      case ObjectElement(o) => out := RunObject(o, v.target, f.sub, path);
    }

    /** The closure of one element. */
    method RunElement(e: Element, items: seq<GoValue>, f: Field, path: Path, i: nat, ret: array<Json>,
                      ghost rs: seq<Result>, ghost flags: seq<bool>, ghost invalids: nat, ghost start: seq<Path>)
      returns (ghost invalids': nat)
      requires Typed(go) && i < |items| && ItemFits(e, items[i]) && ret.Length == |items|
      requires e.ObjectElement? ==> ValidSelection(e.o, f.sub)
      requires rs == Elements(Reading(go), NonNull(ElementType(e)), ReadItems(items), f, path)
      requires Filled(Indices(|items|), rs, flags, ret[..], invalids, start, log, path) && !flags[i]
      modifies `log, ret
      ensures Filled(Indices(|items|), rs, flags[i := true], ret[..], invalids', start, log, path)
      decreases f, 1
    {
      var item := MarshalOne(true, e, items[i], f, Below(path, Index(i)));
      FillOne(Indices(|items|), rs, flags, ret[..], invalids, start, old(log), path, i, item, log);
      ret[i] := item;
      invalids' := if rs[i].completion.Raised? then invalids + 1 else invalids;
      assert ret[..] == old(ret[..])[i := item];
    }

    /** One closure per element, each run once, in any order. */
    method RunElements(e: Element, items: seq<GoValue>, f: Field, path: Path, ret: array<Json>, ghost rs: seq<Result>)
      returns (ghost flags: seq<bool>, ghost invalids: nat)
      requires Typed(go) && (forall i :: 0 <= i < |items| ==> ItemFits(e, items[i])) && ret.Length == |items|
      requires e.ObjectElement? ==> ValidSelection(e.o, f.sub)
      requires rs == Elements(Reading(go), NonNull(ElementType(e)), ReadItems(items), f, path) && Clear(log, path)
      modifies `log, ret
      ensures Filled(Indices(|items|), rs, flags, ret[..], invalids, old(log), log, path)
      ensures forall i :: 0 <= i < |flags| ==> flags[i]
      decreases f, 2
    {
      var n := |items|;
      var pending := Positions(n);
      flags, invalids := seq(n, _ => false), 0;
      FillNone(Indices(n), rs, flags, ret[..], log, path);
      while pending != {}
        invariant |flags| == n && forall i :: 0 <= i < n ==> (flags[i] <==> i !in pending)
        invariant forall i <- pending :: 0 <= i < n
        invariant Filled(Indices(n), rs, flags, ret[..], invalids, old(log), log, path)
        decreases |pending|
      {
        assert (forall j :: j !in pending) ==> pending == {};
        var i :| i in pending;
        invalids := RunElement(e, items, f, path, i, ret, rs, flags, invalids, old(log));
        pending, flags := pending - {i}, flags[i := true];
      }
    }

    /** The list marshaller; a single element is completed without a goroutine, which is one of the orders. */
    method MarshalItems(e: Element, items: seq<GoValue>, f: Field, path: Path) returns (out: Json)
      requires Typed(go) && (forall i :: 0 <= i < |items| ==> ItemFits(e, items[i])) && Clear(log, path)
      requires e.ObjectElement? ==> ValidSelection(e.o, f.sub)
      modifies `log
      ensures var r := ListResult(Elements(Reading(go), NonNull(ElementType(e)), ReadItems(items), f, path));
              out == AsNull(r.completion) && Grew(old(log), log, path, r.errors)
      decreases f, 3
    {
      ghost var rs := Elements(Reading(go), NonNull(ElementType(e)), ReadItems(items), f, path);
      var ret := new Json[|items|](_ => JNull);
      ghost var flags, invalids := RunElements(e, items, f, path, ret, rs);
      TallyAll(rs, flags);
      RequiredNeverNull(Reading(go), ElementType(e), ReadItems(items), f, path);
      out := NullOrList(ret, rs);
    }

    method NullOrList(ret: array<Json>, ghost rs: seq<Result>) returns (out: Json)
      requires ret.Length == |rs| && forall i :: 0 <= i < |rs| ==> ret[i] == AsNull(rs[i].completion)
      requires forall i :: 0 <= i < |rs| ==> rs[i].completion != Gave(JNull)
      ensures out == AsNull(ListResult(rs).completion)
    {
      for i := 0 to ret.Length
        invariant forall j :: 0 <= j < i ==> !rs[j].completion.Raised?
      {
        if ret[i] == JNull {
          return JNull;
        }
      }
      assert ret[..] == Jsons(rs);
      return JList(ret[..]);
    }
  
    /** The value of one field of an object, and whether its null is counted. */
    method RunCase(o: ObjectType, x: Object, f: Field, path: Path) returns (out: Json, counted: bool)
      requires Typed(go) && ValidField(o, f) && Clear(log, Below(path, Key(f.key)))
      modifies `log
      ensures var r := FieldResult(Reading(go), o, x, f, path);
              && out == AsNull(r.completion) && Grew(old(log), log, Below(path, Key(f.key)), r.errors)
              && counted == r.completion.Raised?
      decreases f, 8
    {
      if f.name == Typename {
        out, counted := JScalar(Text(TypeName(o))), false;
        GrewNot(log, Below(path, Key(f.key)));
      } else {
        out := RunField(o, x, f, path);
        counted := Counted(o, f.name) && out == JNull;
        CountedIsRaised(Reading(go), o, x, f, path);
      }
    }

    /** Fills one slot of an object's field set. */
    method RunSlot(o: ObjectType, x: Object, fs: seq<Field>, path: Path, i: nat, values: array<Json>, invalids: nat,
                   ghost rs: seq<Result>, ghost flags: seq<bool>, ghost start: seq<Path>)
      returns (invalids': nat)
      requires Typed(go) && ValidSelection(o, fs) && i < |fs| == values.Length
      requires rs == Selection(Reading(go), o, x, fs, path)
      requires Filled(KeysOf(fs), rs, flags, values[..], invalids, start, log, path) && !flags[i]
      modifies `log, values
      ensures Filled(KeysOf(fs), rs, flags[i := true], values[..], invalids', start, log, path)
      decreases fs, 0
    {
      var value, counted := RunCase(o, x, fs[i], path);
      FillOne(KeysOf(fs), rs, flags, values[..], invalids, start, old(log), path, i, value, log);
      values[i] := value;
      invalids' := if counted then invalids + 1 else invalids;
      assert values[..] == old(values[..])[i := value];
    }

    /** The function of an object type: one field after another. */
    method RunObject(o: ObjectType, x: Object, fs: seq<Field>, path: Path) returns (out: Json)
      requires Typed(go) && ValidSelection(o, fs) && Clear(log, path)
      modifies `log
      ensures var r := ObjectResult(fs, Selection(Reading(go), o, x, fs, path));
              out == AsNull(r.completion) && Grew(old(log), log, path, r.errors)
      decreases fs, 1
    {
      var n := |fs|;
      ghost var rs := Selection(Reading(go), o, x, fs, path);
      var values := new Json[n](_ => JNull);
      var invalids := 0;
      ghost var flags := seq(n, _ => false);
      FillNone(KeysOf(fs), rs, flags, values[..], log, path);
      for i := 0 to n
        invariant |flags| == n && forall j :: 0 <= j < n ==> (flags[j] <==> j < i)
        invariant Filled(KeysOf(fs), rs, flags, values[..], invalids, old(log), log, path)
      {
        invalids := RunSlot(o, x, fs, path, i, values, invalids, rs, flags, old(log));
        flags := flags[i := true];
      }
      out := NullOrObject(fs, values, invalids, rs, flags);
    }

    method NullOrObject(fs: seq<Field>, values: array<Json>, invalids: nat, ghost rs: seq<Result>, ghost flags: seq<bool>)
      returns (out: Json)
      requires values.Length == |fs| == |rs| == |flags| && invalids == Tally(rs, flags).1
      requires forall i :: 0 <= i < |rs| ==> flags[i] && values[i] == AsNull(rs[i].completion)
      ensures out == AsNull(ObjectResult(fs, rs).completion) && Tally(rs, flags).0 == ObjectResult(fs, rs).errors
    {
      TallyAll(rs, flags);
      if invalids > 0 {
        return JNull;
      }
      assert values[..] == Jsons(rs);
      return JObject(Members(fs, values[..]));
    }

    /** The query root: introspection fields and `__typename` in order, then the closures of `tasks` and `task`, which
        were only registered, in any order. */
    method RunQuery(fs: seq<Field>) returns (out: Json)
      requires Typed(go) && ValidSelection(QueryType, fs) && log == []
      modifies `log
      ensures (out, multiset(log)) == Response(Reading(go), QueryType, fs)
    {
      var n := |fs|;
      ghost var rs := Selection(Reading(go), QueryType, Root, fs, []);
      var values := new Json[n](_ => JNull);
      var invalids, pending := 0, {};
      ghost var flags := seq(n, _ => false);
      FillNone(KeysOf(fs), rs, flags, values[..], log, []);
      for i := 0 to n
        invariant |flags| == n && forall j :: 0 <= j < n ==> (flags[j] <==> j < i && j !in pending)
        invariant forall j <- pending :: 0 <= j < i
        invariant Filled(KeysOf(fs), rs, flags, values[..], invalids, [], log, [])
      {
        if fs[i].name in {Tasks, TaskById} {
          pending := pending + {i};
        } else {
          invalids := RunSlot(QueryType, Root, fs, [], i, values, invalids, rs, flags, []);
          flags := flags[i := true];
        }
      }
      flags, invalids := Dispatch(fs, pending, values, invalids, rs, flags);
      out := NullOrObject(fs, values, invalids, rs, flags);
      assert log[0..] == log;
    }

    /** The registered closures, each run once, in any order. */
    method Dispatch(fs: seq<Field>, closures: set<int>, values: array<Json>, before: nat, ghost rs: seq<Result>, ghost filled: seq<bool>)
      returns (ghost flags: seq<bool>, invalids: nat)
      requires Typed(go) && ValidSelection(QueryType, fs) && values.Length == |fs|
      requires rs == Selection(Reading(go), QueryType, Root, fs, [])
      requires |filled| == |fs| && forall i :: 0 <= i < |fs| ==> (filled[i] <==> i !in closures)
      requires forall i <- closures :: 0 <= i < |fs|
      requires Filled(KeysOf(fs), rs, filled, values[..], before, [], log, [])
      modifies `log, values
      ensures Filled(KeysOf(fs), rs, flags, values[..], invalids, [], log, [])
      ensures forall i :: 0 <= i < |flags| ==> flags[i]
    {
      var pending := closures;
      flags, invalids := filled, before;
      while pending != {}
        invariant |flags| == |fs| && forall i :: 0 <= i < |fs| ==> (flags[i] <==> i !in pending)
        invariant forall i <- pending :: 0 <= i < |fs|
        invariant Filled(KeysOf(fs), rs, flags, values[..], invalids, [], log, [])
        decreases |pending|
      {
        assert (forall j :: j !in pending) ==> pending == {};
        var i :| i in pending;
        invalids := RunSlot(QueryType, Root, fs, [], i, values, invalids, rs, flags, []);
        pending, flags := pending - {i}, flags[i := true];
      }
    }
  }
}
