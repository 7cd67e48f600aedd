/** Mutation operations: fields run one after another against the store, each completing over the task its write
    returned. The operation is the left fold of its fields' writes, and a failing field nulls the data only. */
module GraphQLMutations {
  import opened GraphQLSchema
  import opened GraphQLSpec
  import opened GraphQLExecutor
  import opened GraphQLTasks
  import Heap = TaskStoreHeap
  import Store = TaskStore

  predicate IsWrite(f: Field) {
    f.name in {CreateTask, UpdateTask, DeleteTask} && ArgumentFits(f.name, f.argument)
  }

  function WriteOf(f: Field): Store.Write
    requires IsWrite(f)
  {
    if f.name == CreateTask then Store.Create(f.argument.title, f.argument.description)
    else if f.name == UpdateTask then
      Store.Update(f.argument.key, f.argument.newTitle, f.argument.newDescription, f.argument.newDone)
    else Store.Delete(f.argument.id)
  }

  /** What the mutation resolvers return. */
  function AnswerFor(result: Store.Result): GoAnswer {
    match result
    case Stored(t) => Returned(Pointer(TaskObject(t)))
    case Deleted => Returned(Basic(Flag(true)))
    case NotFound => Error
  }

  /** The resolvers while one mutation field runs, after its own resolver has returned. */
  function FieldResolver(name: FieldName, answer: GoAnswer, meta: GoResolver): GoResolver {
    (o: ObjectType, x: Object, f: Field) =>
      match o
      case MutationType => if f.name == name then answer else Error
      case TaskType => if x.TaskObject? then TaskFieldValue(x.task, f.name) else Error
      case _ => meta(o, x, f)
  }

  lemma {:induction false} FieldResolverTyped(f: Field, s: Store.Store, meta: GoResolver)
    requires Typed(meta) && IsWrite(f)
    ensures Typed(FieldResolver(f.name, AnswerFor(Store.Apply(s, WriteOf(f)).1), meta))
  {
    var go := FieldResolver(f.name, AnswerFor(Store.Apply(s, WriteOf(f)).1), meta);
    forall o: ObjectType, x: Object, g: Field | MarshallerOf(o, g.name).Some? && go(o, x, g).Returned?
      ensures go(o, x, g).value.UntypedNil? || Fits(MarshallerOf(o, g.name).value, go(o, x, g).value)
    {
      if go(o, x, g) == meta(o, x, g) {
        assert meta(o, x, g).value.UntypedNil? || Fits(MarshallerOf(o, g.name).value, meta(o, x, g).value);
      }
    }
  }

  // ---- The specification of an operation ----------------------------------------------------------------

  /** The writes of a selection, in order. */
  function Writes(fs: seq<Field>): seq<Store.Write> {
    if fs == [] then []
    else
      var n := |fs| - 1;
      Writes(fs[..n]) + if IsWrite(fs[n]) then [WriteOf(fs[n])] else []
  }

  /** A valid mutation field is a write or `__typename`. */
  lemma {:induction false} ValidIsWrite(f: Field)
    requires ValidField(MutationType, f)
    ensures f.name == Typename <==> !IsWrite(f)
  {
  }

  /** The result of a mutation field that runs in this state. */
  function WriteResult(s: Store.Store, f: Field, meta: GoResolver): Result
  {
    var answer := if IsWrite(f) then AnswerFor(Store.Apply(s, WriteOf(f)).1) else Error;
    FieldResult(Reading(FieldResolver(f.name, answer, meta)), MutationType, Root, f, [])
  }

  function StateBefore(s: Store.Store, fs: seq<Field>, i: nat): Store.Store
    requires i <= |fs|
  {
    Store.ApplyAll(s, Writes(fs[..i]))
  }

  function MutationResults(s: Store.Store, fs: seq<Field>, meta: GoResolver): (rs: seq<Result>)
    ensures |rs| == |fs| && forall i :: 0 <= i < |fs| ==> rs[i] == WriteResult(StateBefore(s, fs, i), fs[i], meta)
  {
    seq(|fs|, i requires 0 <= i < |fs| => WriteResult(StateBefore(s, fs, i), fs[i], meta))
  }

  lemma {:induction false} StateAfterField(s: Store.Store, fs: seq<Field>, i: nat)
    requires i < |fs|
    ensures var before := StateBefore(s, fs, i);
            StateBefore(s, fs, i + 1) == if IsWrite(fs[i]) then Store.Apply(before, WriteOf(fs[i])).0 else before
  {
    assert fs[..i + 1][..i] == fs[..i];
    if IsWrite(fs[i]) {
      Heap.ApplyAllSnoc(s, Writes(fs[..i]), WriteOf(fs[i]));
    } else {
      assert Writes(fs[..i + 1]) == Writes(fs[..i]);
    }
  }

  // ---- What one field does and answers ------------------------------------------------------------------

  predicate FieldFails(s: Store.Store, f: Field) {
    IsWrite(f) && Store.Apply(s, WriteOf(f)).1.NotFound?
  }

  /** What a succeeding field answers: the returned task's record restricted to the selection, or true. */
  function SuccessJson(s: Store.Store, f: Field): Json
    requires !FieldFails(s, f)
  {
    if !IsWrite(f) then JScalar(Text("Mutation"))
    else
      match Store.Apply(s, WriteOf(f)).1
      case Stored(t) => JObject(Projected(TaskRecord(t), f.sub))
      case _ => JScalar(Flag(true))
  }

  lemma {:induction false} FieldResolverReadsTasks(name: FieldName, answer: GoAnswer, meta: GoResolver)
    ensures ReadsTasks(Reading(FieldResolver(name, answer, meta)))
  {
    var go := FieldResolver(name, answer, meta);
    forall t: Store.Task, f: Field
      ensures Reading(go)(TaskType, TaskObject(t), f) == AnswerOf(TaskFieldValue(t, f.name))
    {
      assert go(TaskType, TaskObject(t), f) == TaskFieldValue(t, f.name);
      assert !RequiredList(TaskType, f.name);
    }
  }

  /** A field fails with one error at its own key exactly when its task is not found; otherwise it answers without
      errors. */
  lemma {:induction false} FieldOutcome(s: Store.Store, f: Field, meta: GoResolver)
    requires ValidField(MutationType, f)
    ensures WriteResult(s, f, meta)
         == if FieldFails(s, f) then Result(Raised, multiset{[Key(f.key)]}) else Result(Gave(SuccessJson(s, f)), multiset{})
  {
    ValidIsWrite(f);
    if f.name != Typename {
      var result := Store.Apply(s, WriteOf(f)).1;
      var go := FieldResolver(f.name, AnswerFor(result), meta);
      assert go(MutationType, Root, f) == AnswerFor(result);
      FieldUnfolds(go, MutationType, Root, f, []);
      assert Below([], Key(f.key)) == [Key(f.key)];
      match result
      case NotFound =>
      case Deleted => LeafCompletes(Reading(go), Flag(true), f, [Key(f.key)]);
      case Stored(t) =>
        FieldResolverReadsTasks(f.name, AnswerFor(result), meta);
        TaskCompletes(Reading(go), t, f, [Key(f.key)]);
    }
  }

  /** What a mutation field does to the store and answers, in terms of its arguments: `createTask` appends a task and
      answers it, `updateTask` writes the given fields of the first task with its id and answers it, `deleteTask` takes
      the first task with its id away and answers true. Without such a task nothing changes and the field fails. */
  ghost predicate FieldEffect(f: Field, s: Store.Store, s': Store.Store, r: Result)
    requires IsWrite(f)
  {
    var a, failed := f.argument, s' == s && r == Result(Raised, multiset{[Key(f.key)]});
    match f.name
    case CreateTask => exists t :: Store.Creates(s, a.title, a.description, s', t) && Answered(t, f, r)
    case UpdateTask =>
      if Store.Unknown(s.tasks, a.key) then failed
      else s'.next == s.next && exists p: nat :: UpdatedBy(f, s.tasks, s'.tasks, p) && Answered(s'.tasks[p], f, r)
    case DeleteTask =>
      if Store.Unknown(s.tasks, a.id) then failed
      else
        && s'.next == s.next && r == Result(Gave(JScalar(Flag(true))), multiset{})
        && exists p: nat :: Store.RemovedAt(s.tasks, a.id, s'.tasks, p)
  }

  predicate Answered(t: Store.Task, f: Field, r: Result) {
    r.completion.Gave? && AnswersTask(t, f.sub, r.completion.json) && r.errors == multiset{}
  }

  predicate UpdatedBy(f: Field, before: seq<Store.Task>, after: seq<Store.Task>, p: nat)
    requires f.argument.Changes?
  {
    var a := f.argument;
    && p < |after| && Store.ReplacedAt(before, a.key, after[p], after, p)
    && Store.Updates(before[p], a.newTitle, a.newDescription, a.newDone, after[p])
  }

  lemma {:induction false} FieldHasEffect(s: Store.Store, f: Field, meta: GoResolver)
    requires ValidField(MutationType, f) && IsWrite(f)
    ensures FieldEffect(f, s, Store.Apply(s, WriteOf(f)).0, WriteResult(s, f, meta))
    ensures FieldFails(s, f) <==>
              || (f.name == UpdateTask && Store.Unknown(s.tasks, f.argument.key))
              || (f.name == DeleteTask && Store.Unknown(s.tasks, f.argument.id))
  {
    var (s', result) := Store.Apply(s, WriteOf(f));
    Store.WriteEffect(s, WriteOf(f), s', result);
    FieldOutcome(s, f, meta);
    if result.Stored? {
      ProjectionAnswers(result.task, f.sub);
      assert Answered(result.task, f, WriteResult(s, f, meta));
    }
    if f.name == UpdateTask && result.Stored? {
      var a := f.argument;
      var p: nat :| Store.ReplacedAt(s.tasks, a.key, result.task, s'.tasks, p)
                    && Store.Updates(s.tasks[p], a.newTitle, a.newDescription, a.newDone, result.task);
      assert UpdatedBy(f, s.tasks, s'.tasks, p);
    }
  }

  /** The operation's fields, one after the other, take the store through these states and give these results. */
  ghost predicate Stepwise(fs: seq<Field>, states: seq<Store.Store>, rs: seq<Result>) {
    && |states| == |fs| + 1 && |rs| == |fs|
    && forall i :: 0 <= i < |fs| ==>
         if IsWrite(fs[i]) then FieldEffect(fs[i], states[i], states[i + 1], rs[i])
         else states[i + 1] == states[i] && rs[i] == Result(Gave(JScalar(Text("Mutation"))), multiset{})
  }

  lemma {:induction false} OperationSteps(s: Store.Store, fs: seq<Field>, meta: GoResolver) returns (states: seq<Store.Store>)
    requires ValidSelection(MutationType, fs)
    ensures Stepwise(fs, states, MutationResults(s, fs, meta))
    ensures states[0] == s && states[|fs|] == Store.ApplyAll(s, Writes(fs))
  {
    states := seq(|fs| + 1, i requires 0 <= i <= |fs| => StateBefore(s, fs, i));
    forall i | 0 <= i < |fs|
      ensures if IsWrite(fs[i]) then FieldEffect(fs[i], states[i], states[i + 1], MutationResults(s, fs, meta)[i])
              else states[i + 1] == states[i]
                   && MutationResults(s, fs, meta)[i] == Result(Gave(JScalar(Text("Mutation"))), multiset{})
    {
      assert ValidField(MutationType, fs[i]);
      StateAfterField(s, fs, i);
      FieldOutcome(states[i], fs[i], meta);
      if IsWrite(fs[i]) {
        FieldHasEffect(states[i], fs[i], meta);
      }
    }
    assert fs[..0] == [] && fs[..|fs|] == fs;
  }

  // ---- The operation run on the store -------------------------------------------------------------------

  /** Completes a mutation field once its resolver has returned. */
  method CompleteWrite(ec: Executor, meta: GoResolver, f: Field, result: Store.Result, ghost s: Store.Store)
    returns (out: Json, counted: bool)
    requires Typed(meta) && ValidField(MutationType, f) && IsWrite(f) && result == Store.Apply(s, WriteOf(f)).1
    requires Clear(ec.log, Below([], Key(f.key)))
    modifies ec
    ensures var r := WriteResult(s, f, meta);
            && out == AsNull(r.completion) && Grew(old(ec.log), ec.log, Below([], Key(f.key)), r.errors)
            && counted == r.completion.Raised?
  {
    FieldResolverTyped(f, s, meta);
    ec.go := FieldResolver(f.name, AnswerFor(result), meta);
    out, counted := ec.RunCase(MutationType, Root, f, []);
  }

  /** The write through the store, and the completion of its result. */
  method WriteAndComplete(store: Heap.StoreObject, ec: Executor, meta: GoResolver, f: Field) returns (out: Json, counted: bool)
    requires store.Valid() && Typed(meta) && ValidField(MutationType, f) && IsWrite(f)
    requires Clear(ec.log, Below([], Key(f.key)))
    modifies store, store.slots, Heap.Objects(store.Slice()), ec
    ensures store.Valid() && (store.slots == old(store.slots) || fresh(store.slots))
    ensures fresh(Heap.Objects(store.Slice()) - old(Heap.Objects(store.Slice())))
    ensures store.View() == Store.Apply(old(store.View()), WriteOf(f)).0
    ensures var r := WriteResult(old(store.View()), f, meta);
            && out == AsNull(r.completion) && Grew(old(ec.log), ec.log, Below([], Key(f.key)), r.errors)
            && counted == r.completion.Raised?
  {
    ghost var s := store.View();
    var result := Heap.Perform(store, WriteOf(f));
    ghost var after := store.View();
    assert ec.log == old(ec.log);
    out, counted := CompleteWrite(ec, meta, f, result, s);
    assert store.View() == after;
  }

  /** Runs one mutation field: its resolver writes to the store, then its result is completed. */
  method RunWrite(store: Heap.StoreObject, ec: Executor, meta: GoResolver, f: Field) returns (out: Json, counted: bool)
    requires store.Valid() && Typed(meta) && ValidField(MutationType, f) && IsWrite(f)
    requires Clear(ec.log, Below([], Key(f.key)))
    modifies store, store.slots, Heap.Objects(store.Slice()), ec
    ensures store.Valid() && (store.slots == old(store.slots) || fresh(store.slots))
    ensures fresh(Heap.Objects(store.Slice()) - old(Heap.Objects(store.Slice())))
    ensures store.View() == Store.Apply(old(store.View()), WriteOf(f)).0
    ensures var r := WriteResult(old(store.View()), f, meta);
            && out == AsNull(r.completion) && Grew(old(ec.log), ec.log, Below([], Key(f.key)), r.errors)
            && counted == r.completion.Raised?
    ensures FieldEffect(f, old(store.View()), store.View(), WriteResult(old(store.View()), f, meta))
  {
    ghost var s := store.View();
    out, counted := WriteAndComplete(store, ec, meta, f);
    FieldHasEffect(s, f, meta);
  }

  /** The i-th field of the operation. */
  method RunMember(store: Heap.StoreObject, ec: Executor, meta: GoResolver, fs: seq<Field>, i: nat, ghost s: Store.Store)
    returns (value: Json, counted: bool)
    requires store.Valid() && Typed(meta) && ValidSelection(MutationType, fs)
    requires i < |fs| && store.View() == StateBefore(s, fs, i) && Clear(ec.log, Below([], Key(fs[i].key)))
    modifies store, store.slots, Heap.Objects(store.Slice()), ec
    ensures store.Valid() && (store.slots == old(store.slots) || fresh(store.slots))
    ensures fresh(Heap.Objects(store.Slice()) - old(Heap.Objects(store.Slice())))
    ensures store.View() == StateBefore(s, fs, i + 1)
    ensures var r := MutationResults(s, fs, meta)[i];
            && value == AsNull(r.completion) && Grew(old(ec.log), ec.log, Below([], Key(fs[i].key)), r.errors)
            && counted == r.completion.Raised?
  {
    StateAfterField(s, fs, i);
    ValidIsWrite(fs[i]);
    if fs[i].name == Typename {
      value, counted := JScalar(Text(TypeName(MutationType))), false;
      GrewNot(ec.log, Below([], Key(fs[i].key)));
    } else {
      value, counted := RunWrite(store, ec, meta, fs[i]);
    }
  }

  /** The slots of the first i fields. */
  function FirstSlots(n: nat, i: nat): (flags: seq<bool>)
    ensures |flags| == n && forall j :: 0 <= j < n ==> (flags[j] <==> j < i)
  {
    seq(n, j => j < i)
  }

  /** The slots of the operation's first i fields hold their values, and the log their errors. */
  ghost predicate FirstFilled(s: Store.Store, fs: seq<Field>, meta: GoResolver, i: nat, values: seq<Json>, invalids: nat,
                              log: seq<Path>) {
    Filled(KeysOf(fs), MutationResults(s, fs, meta), FirstSlots(|fs|, i), values, invalids, [], log, [])
  }

  /** Fills slot i. */
  method RunSlot(store: Heap.StoreObject, ec: Executor, meta: GoResolver, fs: seq<Field>, i: nat, ghost s: Store.Store,
                 values: seq<Json>, invalids: nat)
    returns (values': seq<Json>, invalids': nat)
    requires store.Valid() && Typed(meta) && ValidSelection(MutationType, fs)
    requires i < |fs| && store.View() == StateBefore(s, fs, i)
    requires FirstFilled(s, fs, meta, i, values, invalids, ec.log)
    modifies store, store.slots, Heap.Objects(store.Slice()), ec
    ensures store.Valid() && (store.slots == old(store.slots) || fresh(store.slots))
    ensures fresh(Heap.Objects(store.Slice()) - old(Heap.Objects(store.Slice())))
    ensures store.View() == StateBefore(s, fs, i + 1)
    ensures FirstFilled(s, fs, meta, i + 1, values', invalids', ec.log)
  {
    ghost var flags := FirstSlots(|fs|, i);
    assert flags[i := true] == FirstSlots(|fs|, i + 1);
    var value, counted := RunMember(store, ec, meta, fs, i, s);
    FillOne(KeysOf(fs), MutationResults(s, fs, meta), flags, values, invalids, [], old(ec.log), [], i, value, ec.log);
    values' := values[i := value];
    invalids' := if counted then invalids + 1 else invalids;
  }

  lemma {:induction false} NothingRunYet(s: Store.Store, fs: seq<Field>, meta: GoResolver)
    ensures StateBefore(s, fs, 0) == s
    ensures FirstFilled(s, fs, meta, 0, seq(|fs|, _ => JNull), 0, [])
  {
    assert fs[..0] == [];
    FillNone(KeysOf(fs), MutationResults(s, fs, meta), FirstSlots(|fs|, 0), seq(|fs|, _ => JNull), [], []);
  }

  /** The fields of the operation in order, each filling its slot. */
  method RunMembers(store: Heap.StoreObject, ec: Executor, meta: GoResolver, fs: seq<Field>, ghost s: Store.Store)
    returns (values: seq<Json>, invalids: nat)
    requires store.Valid() && Typed(meta) && ValidSelection(MutationType, fs) && ec.log == []
    requires store.View() == s
    modifies store, store.slots, Heap.Objects(store.Slice()), ec
    ensures store.Valid() && store.View() == StateBefore(s, fs, |fs|)
    ensures FirstFilled(s, fs, meta, |fs|, values, invalids, ec.log)
  {
    NothingRunYet(s, fs, meta);
    values, invalids := seq(|fs|, _ => JNull), 0;
    for i := 0 to |fs|
      invariant store.Valid() && (store.slots == old(store.slots) || fresh(store.slots))
      invariant fresh(Heap.Objects(store.Slice()) - old(Heap.Objects(store.Slice())))
      invariant store.View() == StateBefore(s, fs, i)
      invariant FirstFilled(s, fs, meta, i, values, invalids, ec.log)
    {
      values, invalids := RunSlot(store, ec, meta, fs, i, s, values, invalids);
    }
  }

  /** The mutation root. */
  method RunMutation(store: Heap.StoreObject, ec: Executor, meta: GoResolver, fs: seq<Field>) returns (out: Json)
    requires store.Valid() && Typed(meta) && ValidSelection(MutationType, fs) && ec.log == []
    modifies store, store.slots, Heap.Objects(store.Slice()), ec
    ensures store.Valid() && store.View() == Store.ApplyAll(old(store.View()), Writes(fs))
    ensures var r := ObjectResult(fs, MutationResults(old(store.View()), fs, meta));
            out == AsNull(r.completion) && multiset(ec.log) == r.errors
    ensures exists states :: Stepwise(fs, states, MutationResults(old(store.View()), fs, meta))
                             && states[0] == old(store.View()) && states[|fs|] == store.View()
  {
    ghost var states := OperationSteps(store.View(), fs, meta);
    ghost var rs := MutationResults(store.View(), fs, meta);
    var values, invalids := RunMembers(store, ec, meta, fs, store.View());
    assert fs[..|fs|] == fs && ec.log[0..] == ec.log;
    TallyAll(rs, FirstSlots(|fs|, |fs|));
    if invalids > 0 {
      return JNull;
    }
    assert values == Jsons(rs);
    return JObject(Members(fs, values));
  }
}
