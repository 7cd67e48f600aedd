/** Reading tasks through the two interfaces: for any store and any selection, the GraphQL answer is the REST record
    restricted to the selected fields. */
module GraphQLTasks {
  import opened GraphQLSchema
  import opened GraphQLSpec
  import opened GraphQLExecutor
  import opened GraphQLReadings
  import opened GraphQLSchedules
  import Heap = TaskStoreHeap
  import Store = TaskStore

  // ---- Resolvers ----------------------------------------------------------------------------------------

  /** The struct fields of a task. */
  function TaskFieldValue(t: Store.Task, n: FieldName): GoAnswer {
    match n
    case Id => Returned(Basic(Text(t.id)))
    case Title => Returned(Basic(Text(t.title)))
    case Description => Returned(if t.description.Some? then Basic(Text(t.description.value)) else NilPointer)
    case Done => Returned(Basic(Flag(t.done)))
    case _ => Error
  }

  function TaskPointers(ts: seq<Store.Task>): (vs: seq<GoValue>)
    ensures |vs| == |ts| && forall i :: 0 <= i < |ts| ==> vs[i] == Pointer(TaskObject(ts[i]))
  {
    seq(|ts|, i requires 0 <= i < |ts| => Pointer(TaskObject(ts[i])))
  }

  /** The resolvers over one state of the store; introspection is answered by `meta`. */
  function TaskResolver(s: Store.Store, meta: GoResolver): GoResolver {
    (o: ObjectType, x: Object, f: Field) =>
      match o
      case QueryType => (
        match f.name
        case Tasks => Returned(Slice(TaskPointers(s.tasks)))
        case TaskById =>
          var t := if f.argument.ById? then Store.Get(s, f.argument.id) else Store.None;
          Returned(if t.Some? then Pointer(TaskObject(t.value)) else NilPointer)
        case _ => meta(o, x, f))
      case TaskType => if x.TaskObject? then TaskFieldValue(x.task, f.name) else Error
      case MutationType => Error
      case _ => meta(o, x, f)
  }

  /** The `tasks` resolver: the listed clones, converted one by one; an empty store gives an empty slice, not nil. */
  method ResolveTasks(store: Heap.StoreObject) returns (answer: GoAnswer)
    requires store.Valid()
    ensures answer == Returned(Slice(TaskPointers(store.View().tasks)))
  {
    var items := store.List();
    var out: seq<GoValue> := [];
    for i := 0 to |items|
      invariant |out| == i && forall j :: 0 <= j < i ==> out[j] == Pointer(TaskObject(items[j].Value()))
    {
      out := out + [Pointer(TaskObject(items[i].Value()))];
    }
    answer := Returned(Slice(out));
    assert Heap.ValuesOf(items) == store.View().tasks;
    assert out == TaskPointers(store.View().tasks);
  }

  /** The `task` resolver: nil for an unknown id. */
  method ResolveTask(store: Heap.StoreObject, id: string) returns (answer: GoAnswer)
    requires store.Valid()
    ensures var t := Store.Get(store.View(), id);
            answer == Returned(if t.Some? then Pointer(TaskObject(t.value)) else NilPointer)
    ensures var tasks := store.View().tasks;
            if Store.Unknown(tasks, id) then answer == Returned(NilPointer)
            else exists p: nat :: Store.FirstAt(tasks, id, p) && answer == Returned(Pointer(TaskObject(tasks[p])))
  {
    Store.GetReads(store.View(), id);
    var t := store.GetTask(id);
    answer := Returned(if t == null then NilPointer else Pointer(TaskObject(t.Value())));
  }

  /** The task resolvers return values of their Go types and never a nil slice: a nil slice can only come from
      introspection. */
  lemma {:induction false} TaskResolverTyped(s: Store.Store, meta: GoResolver)
    requires Typed(meta)
    ensures Typed(TaskResolver(s, meta))
    ensures NoNilLists(meta) ==> NoNilLists(TaskResolver(s, meta))
  {
    var go := TaskResolver(s, meta);
    forall o: ObjectType, x: Object, f: Field | MarshallerOf(o, f.name).Some? && go(o, x, f).Returned?
      ensures go(o, x, f).value.UntypedNil? || Fits(MarshallerOf(o, f.name).value, go(o, x, f).value)
    {
      if go(o, x, f) == meta(o, x, f) {
        assert meta(o, x, f).value.UntypedNil? || Fits(MarshallerOf(o, f.name).value, meta(o, x, f).value);
      }
    }
    if NoNilLists(meta) {
      forall o: ObjectType, x: Object, f: Field | RequiredList(o, f.name) ensures go(o, x, f) != Returned(NilSlice) {
        assert meta(o, x, f) != Returned(NilSlice);
      }
    }
  }

  // ---- REST ---------------------------------------------------------------------------------------------

  type Record = seq<(string, Json)>

  datatype Reply = Reply(status: int, body: Json)

  /** The JSON object of a task: a nil description is omitted. */
  function TaskRecord(t: Store.Task): Record {
    [("id", JScalar(Text(t.id))), ("title", JScalar(Text(t.title)))]
    + (if t.description.Some? then [("description", JScalar(Text(t.description.value)))] else [])
    + [("done", JScalar(Flag(t.done)))]
  }

  function ErrorReply(status: int, message: string): Reply {
    Reply(status, JObject([("error", JScalar(Text(message)))]))
  }

  function TaskRecords(ts: seq<Store.Task>): (js: seq<Json>)
    ensures |js| == |ts| && forall i :: 0 <= i < |ts| ==> js[i] == JObject(TaskRecord(ts[i]))
  {
    seq(|ts|, i requires 0 <= i < |ts| => JObject(TaskRecord(ts[i])))
  }

  function RestList(s: Store.Store): Reply {
    Reply(200, JList(TaskRecords(s.tasks)))
  }

  function RestGet(s: Store.Store, id: string): Reply {
    var t := Store.Get(s, id);
    if t.None? then ErrorReply(404, "task not found") else Reply(200, JObject(TaskRecord(t.value)))
  }

  /** The object of a task has these members, in this order, and no description if the task has none. */
  predicate IsRecord(t: Store.Task, r: Record) {
    && |r| == (if t.description.Some? then 4 else 3)
    && r[0] == ("id", JScalar(Text(t.id))) && r[1] == ("title", JScalar(Text(t.title)))
    && (t.description.Some? ==> r[2] == ("description", JScalar(Text(t.description.value))))
    && r[|r| - 1] == ("done", JScalar(Flag(t.done)))
  }

  predicate IsTaskBody(t: Store.Task, body: Json) {
    body.JObject? && IsRecord(t, body.members)
  }

  lemma {:induction false} RecordOfTask(t: Store.Task)
    ensures IsRecord(t, TaskRecord(t))
    ensures t.description.None? ==> forall m <- TaskRecord(t) :: m.0 != "description"
  {
    assert |"id"| == 2 && |"title"| == 5 && |"description"| == 11 && |"done"| == 4;
  }

  /** GET by id answers 200 with the first task that has the id, or 404 exactly when there is none. */
  lemma {:induction false} RestGetReads(s: Store.Store, id: string)
    ensures var reply := RestGet(s, id);
            if Store.Unknown(s.tasks, id) then
              reply == Reply(404, JObject([("error", JScalar(Text("task not found")))]))
            else
              reply.status == 200 && exists p: nat :: Store.FirstAt(s.tasks, id, p) && IsTaskBody(s.tasks[p], reply.body)
  {
    Store.GetReads(s, id);
    if !Store.Unknown(s.tasks, id) {
      var p: nat :| Store.FirstAt(s.tasks, id, p) && s.tasks[p] == Store.Get(s, id).value;
      RecordOfTask(s.tasks[p]);
      assert IsTaskBody(s.tasks[p], RestGet(s, id).body);
    }
  }

  /** GET of the list answers 200 with every task, in the store's order. */
  lemma {:induction false} RestListReads(s: Store.Store)
    ensures var reply := RestList(s);
            && reply.status == 200 && reply.body.JList? && |reply.body.items| == |s.tasks|
            && forall i :: 0 <= i < |s.tasks| ==> IsTaskBody(s.tasks[i], reply.body.items[i])
  {
    forall i | 0 <= i < |s.tasks| ensures IsTaskBody(s.tasks[i], RestList(s).body.items[i]) {
      RecordOfTask(s.tasks[i]);
    }
  }

  // ---- Projection ---------------------------------------------------------------------------------------

  /** A record's member, null if it is omitted. */
  function Member(r: Record, name: string): Json {
    if r == [] then JNull else if r[0].0 == name then r[0].1 else Member(r[1..], name)
  }

  function RecordName(n: FieldName): string {
    match n
    case Id => "id"
    case Title => "title"
    case Description => "description"
    case Done => "done"
    case _ => ""
  }

  /** A REST record restricted to the selected fields, in selection order, under their response keys. */
  function Projected(r: Record, fs: seq<Field>): (ms: Record)
    ensures |ms| == |fs|
    ensures forall i :: 0 <= i < |fs| ==>
              ms[i] == (fs[i].key, if fs[i].name == Typename then JScalar(Text("Task")) else Member(r, RecordName(fs[i].name)))
  {
    seq(|fs|, i requires 0 <= i < |fs| =>
      (fs[i].key, if fs[i].name == Typename then JScalar(Text("Task")) else Member(r, RecordName(fs[i].name))))
  }

  function Projection(record: Json, fs: seq<Field>): Json {
    if record.JObject? then JObject(Projected(record.members, fs)) else JNull
  }

  function Projections(records: seq<Json>, fs: seq<Field>): (js: seq<Json>)
    ensures |js| == |records| && forall i :: 0 <= i < |records| ==> js[i] == Projection(records[i], fs)
  {
    seq(|records|, i requires 0 <= i < |records| => Projection(records[i], fs))
  }

  /** Objects that answer as the task's struct fields do. */
  ghost predicate ReadsTasks(r: Resolver) {
    forall t: Store.Task, f: Field :: r(TaskType, TaskObject(t), f) == AnswerOf(TaskFieldValue(t, f.name))
  }

  function AnswerOf(a: GoAnswer): Answer {
    match a
    case Error => Failed
    case Returned(v) => Got(ReadItem(v))
  }

  /** The k-th member, or null past the end, when no earlier member has the name. */
  lemma {:induction false} MemberAt(r: Record, k: nat, name: string)
    requires k <= |r| && (forall i :: 0 <= i < k ==> r[i].0 != name) && (k < |r| ==> r[k].0 == name)
    ensures Member(r, name) == if k < |r| then r[k].1 else JNull
    decreases k
  {
    if k > 0 {
      MemberAt(r[1..], k - 1, name);
    }
  }

  lemma {:induction false} MembersOfRecord(t: Store.Task)
    ensures var r := TaskRecord(t);
            && Member(r, "id") == JScalar(Text(t.id)) && Member(r, "title") == JScalar(Text(t.title))
            && Member(r, "done") == JScalar(Flag(t.done))
            && Member(r, "description") == if t.description.Some? then JScalar(Text(t.description.value)) else JNull
  {
    var r := TaskRecord(t);
    assert |"id"| == 2 && |"title"| == 5 && |"description"| == 11 && |"done"| == 4;
    MemberAt(r, 0, "id");
    MemberAt(r, 1, "title");
    MemberAt(r, |r| - 1, "done");
    MemberAt(r, if t.description.Some? then 2 else |r|, "description");
  }

  /** A task completes without errors to its REST record restricted to the selected fields. */
  lemma {:induction false} TaskIsProjection(r: Resolver, t: Store.Task, fs: seq<Field>, path: Path)
    requires ReadsTasks(r) && ValidSelection(TaskType, fs)
    ensures ObjectResult(fs, Selection(r, TaskType, TaskObject(t), fs, path))
         == Result(Gave(JObject(Projected(TaskRecord(t), fs))), multiset{})
  {
    var rs := Selection(r, TaskType, TaskObject(t), fs, path);
    forall i | 0 <= i < |fs| ensures rs[i] == Result(Gave(Projected(TaskRecord(t), fs)[i].1), multiset{}) {
      FieldIsMember(r, t, fs[i], path);
    }
    NoErrors(rs);
    assert Members(fs, Jsons(rs)) == Projected(TaskRecord(t), fs);
  }

  lemma {:induction false} NoErrors(rs: seq<Result>)
    requires forall i :: 0 <= i < |rs| ==> rs[i].errors == multiset{}
    ensures AllErrors(rs) == multiset{}
    decreases |rs|
  {
    if rs != [] {
      NoErrors(rs[..|rs| - 1]);
    }
  }

  lemma {:induction false} LeafCompletes(r: Resolver, value: Scalar, f: Field, path: Path)
    ensures Complete(r, Leaf, Plain(value), f, path) == Result(Gave(JScalar(value)), multiset{})
    ensures Complete(r, NonNull(Leaf), Plain(value), f, path) == Result(Gave(JScalar(value)), multiset{})
  {
  }

  lemma {:induction false} FieldIsMember(r: Resolver, t: Store.Task, f: Field, path: Path)
    requires ReadsTasks(r) && ValidField(TaskType, f)
    ensures var json := if f.name == Typename then JScalar(Text("Task")) else Member(TaskRecord(t), RecordName(f.name));
            FieldResult(r, TaskType, TaskObject(t), f, path) == Result(Gave(json), multiset{})
  {
    if f.name != Typename {
      MembersOfRecord(t);
      var a, here := AnswerOf(TaskFieldValue(t, f.name)), Below(path, Key(f.key));
      assert r(TaskType, TaskObject(t), f) == a;
      if a.Got? && a.value.Plain? {
        LeafCompletes(r, a.value.value, f, here);
      }
    }
  }

  lemma {:induction false} ReadingReadsTasks(s: Store.Store, meta: GoResolver)
    ensures ReadsTasks(Reading(TaskResolver(s, meta)))
  {
    forall t: Store.Task, f: Field
      ensures Reading(TaskResolver(s, meta))(TaskType, TaskObject(t), f) == AnswerOf(TaskFieldValue(t, f.name))
    {
      assert TaskResolver(s, meta)(TaskType, TaskObject(t), f) == TaskFieldValue(t, f.name);
      assert !RequiredList(TaskType, f.name);
    }
  }

  /** What a selected field of a task answers. */
  predicate AnswersField(t: Store.Task, n: FieldName, json: Json) {
    match n
    case Typename => json == JScalar(Text("Task"))
    case Id => json == JScalar(Text(t.id))
    case Title => json == JScalar(Text(t.title))
    case Description => json == if t.description.Some? then JScalar(Text(t.description.value)) else JNull
    case Done => json == JScalar(Flag(t.done))
    case _ => false
  }

  /** A task's answer: one member per selected field, under its response key. */
  predicate AnswersTask(t: Store.Task, fs: seq<Field>, json: Json) {
    && json.JObject? && |json.members| == |fs|
    && forall i :: 0 <= i < |fs| ==>
         json.members[i].0 == fs[i].key && AnswersField(t, fs[i].name, json.members[i].1)
  }

  lemma {:induction false} ProjectionAnswers(t: Store.Task, fs: seq<Field>)
    requires ValidSelection(TaskType, fs)
    ensures AnswersTask(t, fs, JObject(Projected(TaskRecord(t), fs)))
  {
    MembersOfRecord(t);
    forall i | 0 <= i < |fs| ensures AnswersField(t, fs[i].name, Projected(TaskRecord(t), fs)[i].1) {
      assert ValidField(TaskType, fs[i]);
    }
  }

  /** What a query field about tasks answers, in terms of the stored tasks and the field's argument. */
  ghost predicate AnswersRead(tasks: seq<Store.Task>, f: Field, json: Json)
    requires AboutTasks(f)
  {
    if f.name == Tasks then
      && json.JList? && |json.items| == |tasks|
      && forall i :: 0 <= i < |tasks| ==> AnswersTask(tasks[i], f.sub, json.items[i])
    else if f.name == TaskById then
      if Store.Unknown(tasks, f.argument.id) then json == JNull
      else exists p: nat :: Store.FirstAt(tasks, f.argument.id, p) && AnswersTask(tasks[p], f.sub, json)
    else json == JScalar(Text("Query"))
  }

  lemma {:induction false} FromRestReads(s: Store.Store, f: Field)
    requires AboutTasks(f) && ValidField(QueryType, f)
    ensures AnswersRead(s.tasks, f, FromRest(s, f))
  {
    if f.name == Tasks {
      forall i | 0 <= i < |s.tasks| ensures AnswersTask(s.tasks[i], f.sub, FromRest(s, f).items[i]) {
        ProjectionAnswers(s.tasks[i], f.sub);
      }
    } else if f.name == TaskById {
      Store.GetReads(s, f.argument.id);
      if !Store.Unknown(s.tasks, f.argument.id) {
        var p: nat :| Store.FirstAt(s.tasks, f.argument.id, p) && s.tasks[p] == Store.Get(s, f.argument.id).value;
        ProjectionAnswers(s.tasks[p], f.sub);
      }
    }
  }

  /** What the REST replies say about a query field: the list in the same order, null for a 404, and otherwise the
      records restricted to the selection. */
  function FromRest(s: Store.Store, f: Field): Json
    requires f.name == TaskById ==> f.argument.ById?
  {
    if f.name == Tasks then JList(Projections(RestList(s).body.items, f.sub))
    else if f.name == TaskById then
      var reply := RestGet(s, f.argument.id);
      if reply.status == 404 then JNull else Projection(reply.body, f.sub)
    else JScalar(Text("Query"))
  }

  predicate AboutTasks(f: Field) {
    f.name in {Typename, Tasks, TaskById} && ArgumentFits(f.name, f.argument)
  }

  /** In every store state and in every valid query, introspection included, the data is an object, and each of its
      members about tasks is, without errors, the REST replies' records restricted to the selected fields in selection
      order. */
  lemma {:induction false} QueryIsProjection(s: Store.Store, meta: GoResolver, fs: seq<Field>)
    requires ValidSelection(QueryType, fs)
    ensures var (data, errors) := Response(Reading(TaskResolver(s, meta)), QueryType, fs);
            && data.JObject? && |data.members| == |fs|
            && (forall i :: 0 <= i < |fs| && AboutTasks(fs[i]) ==>
                  data.members[i] == (fs[i].key, FromRest(s, fs[i])) && AnswersRead(s.tasks, fs[i], data.members[i].1))
            && (forall e, i :: e in errors && 0 <= i < |fs| && AboutTasks(fs[i]) ==> !(Below([], Key(fs[i].key)) <= e))
            && ((forall i :: 0 <= i < |fs| ==> AboutTasks(fs[i])) ==> errors == multiset{})
  {
    var rs := Selection(Reading(TaskResolver(s, meta)), QueryType, Root, fs, []);
    RootResults(s, meta, fs);
    forall i | 0 <= i < |fs| && AboutTasks(fs[i]) ensures AnswersRead(s.tasks, fs[i], FromRest(s, fs[i])) {
      assert ValidField(QueryType, fs[i]);
      FromRestReads(s, fs[i]);
    }
    if forall i :: 0 <= i < |fs| ==> AboutTasks(fs[i]) {
      NoErrors(rs);
    }
    forall e, i | e in AllErrors(rs) && 0 <= i < |fs| && AboutTasks(fs[i]) ensures !(Below([], Key(fs[i].key)) <= e) {
      ErrorElsewhere(Reading(TaskResolver(s, meta)), fs, e, i);
    }
  }

  lemma {:induction false} RootResults(s: Store.Store, meta: GoResolver, fs: seq<Field>)
    requires ValidSelection(QueryType, fs)
    ensures var rs := Selection(Reading(TaskResolver(s, meta)), QueryType, Root, fs, []);
            forall i :: 0 <= i < |fs| ==>
              rs[i].completion.Gave? && (AboutTasks(fs[i]) ==> rs[i] == Result(Gave(FromRest(s, fs[i])), multiset{}))
  {
    forall i | 0 <= i < |fs|
      ensures var r := FieldResult(Reading(TaskResolver(s, meta)), QueryType, Root, fs[i], []);
              r.completion.Gave? && (AboutTasks(fs[i]) ==> r == Result(Gave(FromRest(s, fs[i])), multiset{}))
    {
      assert ValidField(QueryType, fs[i]);
      RootNeverRaises(s, meta, fs[i]);
    }
  }

  /** An error below a root field's key comes from that field. */
  lemma {:induction false} ErrorElsewhere(r: Resolver, fs: seq<Field>, e: Path, i: nat)
    requires ValidSelection(QueryType, fs) && i < |fs|
    requires var rs := Selection(r, QueryType, Root, fs, []); e in AllErrors(rs) && e !in rs[i].errors
    ensures !(Below([], Key(fs[i].key)) <= e)
  {
    SelectionOnce(r, QueryType, Root, fs, []);
    KeysDistinct(fs);
    ErrorOfAnother(Selection(r, QueryType, Root, fs, []), KeysOf(fs), [], e, i);
  }

  lemma {:induction false} ErrorOfAnother(rs: seq<Result>, segments: seq<Segment>, path: Path, e: Path, i: nat)
    requires OnceEach(rs, segments, path) && AllDistinct(segments) && i < |rs|
    requires e in AllErrors(rs) && e !in rs[i].errors
    ensures !(Below(path, segments[i]) <= e)
  {
    var j := ErrorFrom(rs, e);
    assert Once(rs[j].errors, Below(path, segments[j]));
    if Below(path, segments[i]) <= e {
      BelowOne(path, segments[i], segments[j], e);
    }
  }

  lemma {:induction false} ErrorFrom(rs: seq<Result>, e: Path) returns (j: nat)
    requires e in AllErrors(rs)
    ensures j < |rs| && e in rs[j].errors
    decreases |rs|
  {
    if e in rs[|rs| - 1].errors {
      j := |rs| - 1;
    } else {
      j := ErrorFrom(rs[..|rs| - 1], e);
    }
  }

  /** No field of a query raises an error to the root: the required one, `tasks`, completes without errors. */
  lemma {:induction false} RootNeverRaises(s: Store.Store, meta: GoResolver, f: Field)
    requires ValidField(QueryType, f)
    ensures var r := FieldResult(Reading(TaskResolver(s, meta)), QueryType, Root, f, []);
            && r.completion.Gave?
            && (AboutTasks(f) ==> r == Result(Gave(FromRest(s, f)), multiset{}))
  {
    if AboutTasks(f) {
      AnswersAreProjections(s, meta, f);
    } else {
      GeneratedFromSchema(QueryType, f.name);
      assert !Counted(QueryType, f.name);
    }
  }

  lemma {:induction false} AnswersAreProjections(s: Store.Store, meta: GoResolver, f: Field)
    requires f.name in {Typename, Tasks, TaskById} && ValidField(QueryType, f) && ArgumentFits(f.name, f.argument)
    ensures FieldResult(Reading(TaskResolver(s, meta)), QueryType, Root, f, []) == Result(Gave(FromRest(s, f)), multiset{})
  {
    ReadingReadsTasks(s, meta);
    if f.name == Tasks {
      TasksAreProjections(s, meta, f);
    } else if f.name == TaskById {
      TaskIsProjected(s, meta, f);
    } else {
      assert TypeName(QueryType) == "Query";
    }
  }

  lemma {:induction false} ListOfProjections(r: Resolver, ts: seq<Store.Task>, f: Field, path: Path)
    requires ReadsTasks(r) && ValidSelection(TaskType, f.sub)
    ensures ListResult(Elements(r, NonNull(Obj(TaskType)), ReadItems(TaskPointers(ts)), f, path))
         == Result(Gave(JList(Projections(TaskRecords(ts), f.sub))), multiset{})
  {
    var rs := Elements(r, NonNull(Obj(TaskType)), ReadItems(TaskPointers(ts)), f, path);
    forall i | 0 <= i < |rs| ensures rs[i] == Result(Gave(Projections(TaskRecords(ts), f.sub)[i]), multiset{}) {
      TaskCompletes(r, ts[i], f, Below(path, Index(i)));
    }
    NoErrors(rs);
    assert Jsons(rs) == Projections(TaskRecords(ts), f.sub);
  }

  lemma {:induction false} TaskCompletes(r: Resolver, t: Store.Task, f: Field, path: Path)
    requires ReadsTasks(r) && ValidSelection(TaskType, f.sub)
    ensures var result := Result(Gave(JObject(Projected(TaskRecord(t), f.sub))), multiset{});
            && Complete(r, Obj(TaskType), Ref(TaskObject(t)), f, path) == result
            && Complete(r, NonNull(Obj(TaskType)), Ref(TaskObject(t)), f, path) == result
  {
    TaskIsProjection(r, t, f.sub, path);
  }

  lemma {:induction false} TasksAreProjections(s: Store.Store, meta: GoResolver, f: Field)
    requires f.name == Tasks && ValidField(QueryType, f) && ReadsTasks(Reading(TaskResolver(s, meta)))
    ensures FieldResult(Reading(TaskResolver(s, meta)), QueryType, Root, f, [])
         == Result(Gave(JList(Projections(TaskRecords(s.tasks), f.sub))), multiset{})
  {
    var go := TaskResolver(s, meta);
    var v := Slice(TaskPointers(s.tasks));
    assert go(QueryType, Root, f) == Returned(v);
    FieldUnfolds(go, QueryType, Root, f, []);
    CompleteMany(Reading(go), Many(true, ObjectElement(TaskType)), v, f, Below([], Key(f.key)));
    ListOfProjections(Reading(go), s.tasks, f, Below([], Key(f.key)));
  }

  lemma {:induction false} TaskIsProjected(s: Store.Store, meta: GoResolver, f: Field)
    requires f.name == TaskById && ValidField(QueryType, f) && ReadsTasks(Reading(TaskResolver(s, meta)))
    ensures var reply := RestGet(s, f.argument.id);
            FieldResult(Reading(TaskResolver(s, meta)), QueryType, Root, f, [])
            == Result(Gave(if reply.status == 404 then JNull else Projection(reply.body, f.sub)), multiset{})
  {
    var go, here := TaskResolver(s, meta), Below([], Key(f.key));
    FieldUnfolds(go, QueryType, Root, f, []);
    var t := Store.Get(s, f.argument.id);
    if t.Some? {
      TaskCompletes(Reading(go), t.value, f, here);
    }
  }
}
