/** What a mutation operation does and answers: its effects are those of the fields that succeed, its data is null
    exactly when some field fails, and its writes agree with the REST handlers up to the empty title. */
module GraphQLMutationLaws {
  import opened GraphQLSchema
  import opened GraphQLSpec
  import opened GraphQLExecutor
  import opened GraphQLTasks
  import opened GraphQLMutations
  import Store = TaskStore

  function FailureAt(s: Store.Store, fs: seq<Field>, i: nat): multiset<Path>
    requires i < |fs|
  {
    if FieldFails(StateBefore(s, fs, i), fs[i]) then multiset{[Key(fs[i].key)]} else multiset{}
  }

  /** One error per failing field, at its key. */
  function Failures(s: Store.Store, fs: seq<Field>, n: nat): multiset<Path>
    requires n <= |fs|
  {
    if n == 0 then multiset{} else Failures(s, fs, n - 1) + FailureAt(s, fs, n - 1)
  }

  lemma {:induction false} ErrorsAreFailures(s: Store.Store, fs: seq<Field>, rs: seq<Result>)
    requires |rs| <= |fs| && forall i :: 0 <= i < |rs| ==> rs[i].errors == FailureAt(s, fs, i)
    ensures AllErrors(rs) == Failures(s, fs, |rs|)
    decreases |rs|
  {
    if rs != [] {
      ErrorsAreFailures(s, fs, rs[..|rs| - 1]);
    }
  }

  /** The data of an operation is null exactly when some field fails in the state its predecessors left, whatever
      fails is reported once, and otherwise every field answers its write. */
  lemma {:induction false} OperationOutcome(s: Store.Store, fs: seq<Field>, meta: GoResolver)
    requires ValidSelection(MutationType, fs)
    ensures var r := ObjectResult(fs, MutationResults(s, fs, meta));
            && (r.completion.Raised? <==> exists i :: 0 <= i < |fs| && FieldFails(StateBefore(s, fs, i), fs[i]))
            && r.errors == Failures(s, fs, |fs|)
            && (r.completion.Gave? ==>
                  && r.completion.json.JObject? && |r.completion.json.members| == |fs|
                  && forall i :: 0 <= i < |fs| ==>
                       && !FieldFails(StateBefore(s, fs, i), fs[i])
                       && r.completion.json.members[i] == (fs[i].key, SuccessJson(StateBefore(s, fs, i), fs[i])))
  {
    var rs := MutationResults(s, fs, meta);
    forall i | 0 <= i < |fs|
      ensures rs[i] == Result(if FieldFails(StateBefore(s, fs, i), fs[i]) then Raised
                              else Gave(SuccessJson(StateBefore(s, fs, i), fs[i])), FailureAt(s, fs, i))
    {
      FieldOutcome(StateBefore(s, fs, i), fs[i], meta);
    }
    ErrorsAreFailures(s, fs, rs);
  }

  /** The writes of a run that found their task. */
  function Succeeding(s: Store.Store, ws: seq<Store.Write>): seq<Store.Write>
    decreases |ws|
  {
    if ws == [] then []
    else
      var (s', result) := Store.Apply(s, ws[0]);
      (if result.NotFound? then [] else [ws[0]]) + Succeeding(s', ws[1..])
  }

  /** The effects of all the other fields remain: the operation leaves the store that its succeeding writes alone would
      leave, and all of those succeed there. */
  lemma {:induction false} EffectsRemain(s: Store.Store, ws: seq<Store.Write>)
    ensures Store.ApplyAll(s, ws) == Store.ApplyAll(s, Succeeding(s, ws))
    ensures Succeeding(s, Succeeding(s, ws)) == Succeeding(s, ws)
    decreases |ws|
  {
    if ws != [] {
      var (s', result) := Store.Apply(s, ws[0]);
      EffectsRemain(s', ws[1..]);
      if !result.NotFound? {
        assert Succeeding(s, ws)[0] == ws[0] && Succeeding(s, ws)[1..] == Succeeding(s', ws[1..]);
      } else {
        assert Succeeding(s, ws) == Succeeding(s, ws[1..]);
      }
    }
  }

  /** `deleteTask` fails exactly when no stored task has the id it is given; otherwise it answers true, the first task
      with that id is gone and every other task stays in its order. */
  lemma {:induction false} DeleteTakesFirst(s: Store.Store, f: Field, meta: GoResolver)
    requires f.name == DeleteTask && ValidField(MutationType, f)
    ensures var (id, after, r) := (f.argument.id, StateBefore(s, [f], 1), WriteResult(s, f, meta));
            && (r.completion.Raised? <==> forall t <- s.tasks :: t.id != id)
            && (r.completion.Raised? ==> after == s && r.errors == multiset{[Key(f.key)]})
            && (r.completion.Gave? ==>
                  && r == Result(Gave(JScalar(Flag(true))), multiset{}) && after.next == s.next
                  && exists p: nat :: p < |s.tasks| && s.tasks[p].id == id && (forall t <- s.tasks[..p] :: t.id != id)
                                      && after.tasks == s.tasks[..p] + s.tasks[p + 1..])
  {
    FieldHasEffect(s, f, meta);
    StateAfterField(s, [f], 0);
    assert [f][..0] == [] && [f][..1] == [f];
    var id, after := f.argument.id, StateBefore(s, [f], 1);
    if !Store.Unknown(s.tasks, id) {
      var p: nat :| Store.RemovedAt(s.tasks, id, after.tasks, p);
      assert s.tasks[p].id == id && after.tasks == s.tasks[..p] + s.tasks[p + 1..];
    }
  }

  // ---- Agreement with REST ------------------------------------------------------------------------------

  function RestCreate(s: Store.Store, title: string, description: Store.Option<string>): (Store.Store, Reply) {
    if title == "" then (s, ErrorReply(400, "title is required"))
    else
      var (s', result) := Store.Apply(s, Store.Create(title, description));
      (s', Reply(201, JObject(TaskRecord(result.task))))
  }

  function RestPatch(s: Store.Store, id: string, title: Store.Option<string>, description: Store.Option<string>,
                     done: Store.Option<bool>): (Store.Store, Reply) {
    var (s', result) := Store.Apply(s, Store.Update(id, title, description, done));
    (s', if result.Stored? then Reply(200, JObject(TaskRecord(result.task))) else ErrorReply(404, "task not found"))
  }

  /** POST answers 400 and stores nothing for an empty title; else it answers 201 with the task it appended. */
  lemma {:induction false} RestCreateEffect(s: Store.Store, title: string, description: Store.Option<string>)
    ensures var (s', reply) := RestCreate(s, title, description);
            if title == "" then s' == s && reply == Reply(400, JObject([("error", JScalar(Text("title is required")))]))
            else reply.status == 201 && exists t :: Store.Creates(s, title, description, s', t) && IsTaskBody(t, reply.body)
  {
    if title != "" {
      var (s', result) := Store.Apply(s, Store.Create(title, description));
      Store.WriteEffect(s, Store.Create(title, description), s', result);
      RecordOfTask(result.task);
      assert IsTaskBody(result.task, RestCreate(s, title, description).1.body);
    }
  }

  /** PATCH answers 404 and changes nothing when no task has the id; else it answers 200 with the first such task, the
      given fields written. */
  lemma {:induction false} RestPatchEffect(s: Store.Store, id: string, title: Store.Option<string>,
                                           description: Store.Option<string>, done: Store.Option<bool>)
    ensures var (s', reply) := RestPatch(s, id, title, description, done);
            if Store.Unknown(s.tasks, id) then
              s' == s && reply == Reply(404, JObject([("error", JScalar(Text("task not found")))]))
            else
              && reply.status == 200 && s'.next == s.next
              && exists t, p: nat :: Store.ReplacedAt(s.tasks, id, t, s'.tasks, p)
                                     && Store.Updates(s.tasks[p], title, description, done, t) && IsTaskBody(t, reply.body)
  {
    var w := Store.Update(id, title, description, done);
    var (s', result) := Store.Apply(s, w);
    Store.WriteEffect(s, w, s', result);
    if !Store.Unknown(s.tasks, id) {
      RecordOfTask(result.task);
      assert IsTaskBody(result.task, RestPatch(s, id, title, description, done).1.body);
    }
  }

  /** `createTask` stores and answers what the POST handler does exactly when the title is not empty: REST refuses an
      empty title, GraphQL stores a task under it. */
  lemma {:induction false} CreateAgreesUnlessEmpty(s: Store.Store, f: Field, meta: GoResolver)
    requires f.name == CreateTask && ValidField(MutationType, f)
    ensures var (restStore, reply) := RestCreate(s, f.argument.title, f.argument.description);
            var (store, r) := (Store.Apply(s, WriteOf(f)).0, WriteResult(s, f, meta));
            && r.completion.Gave? && r.errors == multiset{} && |store.tasks| == |s.tasks| + 1
            && (store == restStore && r.completion.json == Projection(reply.body, f.sub) <==> f.argument.title != "")
            && (f.argument.title == "" ==> reply.status == 400 && restStore == s)
  {
    FieldOutcome(s, f, meta);
  }

  /** `updateTask` stores and answers what the PATCH handler does, an error standing for its 404. */
  lemma {:induction false} UpdateAgrees(s: Store.Store, f: Field, meta: GoResolver)
    requires f.name == UpdateTask && ValidField(MutationType, f)
    ensures var a := f.argument;
            var (restStore, reply) := RestPatch(s, a.key, a.newTitle, a.newDescription, a.newDone);
            && Store.Apply(s, WriteOf(f)).0 == restStore
            && WriteResult(s, f, meta)
               == if reply.status == 404 then Result(Raised, multiset{[Key(f.key)]})
                  else Result(Gave(Projection(reply.body, f.sub)), multiset{})
  {
    FieldOutcome(s, f, meta);
  }
}
