/** The task store shared by the REST and GraphQL interfaces, as values: a list in creation order with a counter
    from which ids are printed. It refines an ordered map from creation numbers to tasks, and never reuses an id. */
module TaskStore {
  import opened Decimal
  import Ids = TaskRepo

  datatype Option<+T> = None | Some(value: T)

  datatype Task = Task(id: string, title: string, description: Option<string>, done: bool)

  datatype Store = Store(tasks: seq<Task>, next: nat)

  function TaskId(k: nat): string {
    "t_" + Pad3(k)
  }

  const FIRST_TASKS: seq<Task> :=
    [Task("t_001", "Первая задача", Some("Учебный пример"), false), Task("t_002", "Вторая задача", Some("Проверка API"), true)]

  const NEW_STORE := Store(FIRST_TASKS, 3)

  /** Position p holds the first task with this id. */
  predicate FirstAt(tasks: seq<Task>, id: string, p: nat) {
    p < |tasks| && tasks[p].id == id && forall i :: 0 <= i < p ==> tasks[i].id != id
  }

  predicate Unknown(tasks: seq<Task>, id: string) {
    forall i :: 0 <= i < |tasks| ==> tasks[i].id != id
  }

  /** Position of the first task with this id. */
  function Find(tasks: seq<Task>, id: string): (p: Option<nat>)
    ensures if p.None? then Unknown(tasks, id) else FirstAt(tasks, id, p.value)
  {
    if tasks == [] then None
    else if tasks[0].id == id then Some(0)
    else
      var p := Find(tasks[1..], id);
      if p.None? then None else Some(p.value + 1)
  }

  function Without<T>(s: seq<T>, p: nat): (r: seq<T>)
    requires p < |s|
    ensures |r| == |s| - 1 && forall i :: 0 <= i < |r| ==> r[i] == if i < p then s[i] else s[i + 1]
  {
    s[..p] + s[p + 1..]
  }

  function Get(s: Store, id: string): Option<Task> {
    var p := Find(s.tasks, id);
    if p.None? then None else Some(s.tasks[p.value])
  }

  datatype Write =
    | Create(title: string, description: Option<string>)
    | Update(id: string, newTitle: Option<string>, newDescription: Option<string>, newDone: Option<bool>)
    | Delete(id: string)

  datatype Result = Stored(task: Task) | Deleted | NotFound

  /** A nil argument leaves its field alone. */
  function Patch(t: Task, title: Option<string>, description: Option<string>, done: Option<bool>): Task {
    Task(t.id,
         if title.Some? then title.value else t.title,
         if description.Some? then description else t.description,
         if done.Some? then done.value else t.done)
  }

  function Apply(s: Store, w: Write): (Store, Result) {
    match w
    case Create(title, description) =>
      var t := Task(TaskId(s.next), title, description, false);
      (Store(s.tasks + [t], s.next + 1), Stored(t))
    case Update(id, title, description, done) =>
      var p := Find(s.tasks, id);
      if p.None? then (s, NotFound)
      else
        var t := Patch(s.tasks[p.value], title, description, done);
        (s.(tasks := s.tasks[p.value := t]), Stored(t))
    case Delete(id) =>
      var p := Find(s.tasks, id);
      if p.None? then (s, NotFound) else (s.(tasks := Without(s.tasks, p.value)), Deleted)
  }

  function ApplyAll(s: Store, ws: seq<Write>): Store
    decreases |ws|
  {
    if ws == [] then s else ApplyAll(Apply(s, ws[0]).0, ws[1..])
  }

  // ---- What reads and writes do ---------------------------------------------------------------------------

  /** A read of this id: the first stored task that has it, and nothing exactly when none has. */
  ghost predicate Reads(tasks: seq<Task>, id: string, t: Option<Task>) {
    && (t.None? <==> Unknown(tasks, id))
    && (t.Some? ==> t.value in tasks && t.value.id == id && exists p: nat :: FirstAt(tasks, id, p) && tasks[p] == t.value)
  }

  lemma {:induction false} GetReads(s: Store, id: string)
    ensures Reads(s.tasks, id, Get(s, id))
  {
    var p := Find(s.tasks, id);
    if p.Some? {
      assert FirstAt(s.tasks, id, p.value) && Get(s, id) == Some(s.tasks[p.value]);
    }
  }

  /** The updated task: the given values, and the old ones where none is given. */
  predicate Updates(was: Task, title: Option<string>, description: Option<string>, done: Option<bool>, t: Task) {
    && t.id == was.id
    && (title.Some? ==> t.title == title.value) && (title.None? ==> t.title == was.title)
    && (description.Some? ==> t.description == description) && (description.None? ==> t.description == was.description)
    && (done.Some? ==> t.done == done.value) && (done.None? ==> t.done == was.done)
  }

  /** The first task with the id is replaced by t, and no other is touched. */
  predicate ReplacedAt(before: seq<Task>, id: string, t: Task, after: seq<Task>, p: nat) {
    && FirstAt(before, id, p) && |after| == |before| && after[p] == t
    && forall i :: 0 <= i < |before| && i != p ==> after[i] == before[i]
  }

  /** The first task with the id is gone, and the others keep their order. */
  predicate RemovedAt(before: seq<Task>, id: string, after: seq<Task>, p: nat) {
    FirstAt(before, id, p) && after == before[..p] + before[p + 1..]
  }

  predicate Creates(s: Store, title: string, description: Option<string>, s': Store, t: Task) {
    && s'.tasks == s.tasks + [t] && s'.next == s.next + 1
    && t.id == TaskId(s.next) && t.title == title && t.description == description && !t.done
  }

  /** What a write may do to the store and answer, field by field. */
  ghost predicate Effect(s: Store, w: Write, s': Store, r: Result) {
    match w
    case Create(title, description) => r.Stored? && Creates(s, title, description, s', r.task)
    case Update(id, title, description, done) =>
      if Unknown(s.tasks, id) then s' == s && r == NotFound
      else
        && r.Stored? && s'.next == s.next
        && exists p: nat :: ReplacedAt(s.tasks, id, r.task, s'.tasks, p)
                            && Updates(s.tasks[p], title, description, done, r.task)
    case Delete(id) =>
      if Unknown(s.tasks, id) then s' == s && r == NotFound
      else r == Deleted && s'.next == s.next && exists p: nat :: RemovedAt(s.tasks, id, s'.tasks, p)
  }

  lemma {:induction false} OneFirst(tasks: seq<Task>, id: string, p: nat)
    requires FirstAt(tasks, id, p)
    ensures Find(tasks, id) == Some(p)
  {
  }

  /** A write has exactly this effect. */
  lemma {:induction false} WriteEffect(s: Store, w: Write, s': Store, r: Result)
    ensures Effect(s, w, s', r) <==> (s', r) == Apply(s, w)
  {
    match w
    case Create(_, _) =>
    case Update(id, _, _, _) => UpdateEffect(s, w, s', r);
    case Delete(id) => DeleteEffect(s, w, s', r);
  }

  lemma {:induction false} UpdateEffect(s: Store, w: Write, s': Store, r: Result)
    requires w.Update?
    ensures Effect(s, w, s', r) <==> (s', r) == Apply(s, w)
  {
    var found := Find(s.tasks, w.id);
    if found.Some? {
      var p := found.value;
      var t := Patch(s.tasks[p], w.newTitle, w.newDescription, w.newDone);
      assert !Unknown(s.tasks, w.id) && Updates(s.tasks[p], w.newTitle, w.newDescription, w.newDone, t);
      assert ReplacedAt(s.tasks, w.id, t, s.tasks[p := t], p);
      if Effect(s, w, s', r) {
        var q: nat :| ReplacedAt(s.tasks, w.id, r.task, s'.tasks, q)
                      && Updates(s.tasks[q], w.newTitle, w.newDescription, w.newDone, r.task);
        OneFirst(s.tasks, w.id, q);
        assert r.task == t && s'.tasks == s.tasks[p := t];
      }
    }
  }

  lemma {:induction false} DeleteEffect(s: Store, w: Write, s': Store, r: Result)
    requires w.Delete?
    ensures Effect(s, w, s', r) <==> (s', r) == Apply(s, w)
  {
    var found := Find(s.tasks, w.id);
    if found.Some? {
      var p := found.value;
      assert !Unknown(s.tasks, w.id) && Without(s.tasks, p) == s.tasks[..p] + s.tasks[p + 1..];
      assert RemovedAt(s.tasks, w.id, Without(s.tasks, p), p);
      if Effect(s, w, s', r) {
        var q: nat :| RemovedAt(s.tasks, w.id, s'.tasks, q);
        OneFirst(s.tasks, w.id, q);
      }
    }
  }

  // ---- Numbering ----------------------------------------------------------------------------------------

  /** The creation numbers behind the ids, in list order. */
  ghost predicate NumberedBy(s: Store, ks: seq<int>) {
    && |ks| == |s.tasks| && Ids.Increasing(ks)
    && forall i :: 0 <= i < |ks| ==> 0 <= ks[i] < s.next && s.tasks[i].id == TaskId(ks[i])
  }

  ghost predicate Numbered(s: Store) {
    exists ks: seq<int> :: NumberedBy(s, ks)
  }

  lemma {:induction false} TaskIdInjective(j: nat, k: nat)
    ensures TaskId(j) == TaskId(k) <==> j == k
  {
    assert Pad3(j) == TaskId(j)[2..] && Pad3(k) == TaskId(k)[2..];
    Pad3Injective(j, k);
  }

  lemma {:induction false} NewStoreNumbered()
    ensures NumberedBy(NEW_STORE, [1, 2])
  {
    assert Digits(1) == "1" && Digits(2) == "2";
    PaddedTwice(1);
    PaddedTwice(2);
    assert TaskId(1) == "t_001" && TaskId(2) == "t_002";
  }

  /** The numbering after a write: the new number at the end, or the deleted one left out. */
  ghost function KeysAfter(s: Store, ks: seq<int>, w: Write): seq<int>
    requires NumberedBy(s, ks)
  {
    match w
    case Create(_, _) => ks + [s.next]
    case Update(_, _, _, _) => ks
    case Delete(id) =>
      var p := Find(s.tasks, id);
      if p.None? then ks else Without(ks, p.value)
  }

  lemma {:induction false} WriteKeepsNumbering(s: Store, ks: seq<int>, w: Write)
    requires NumberedBy(s, ks)
    ensures NumberedBy(Apply(s, w).0, KeysAfter(s, ks, w))
  {
    match w
    case Create(_, _) => CreateKeepsNumbering(s, ks, w);
    case Update(_, _, _, _) =>
    case Delete(id) => DeleteKeepsNumbering(s, ks, id);
  }

  lemma {:induction false} CreateKeepsNumbering(s: Store, ks: seq<int>, w: Write)
    requires NumberedBy(s, ks) && w.Create?
    ensures NumberedBy(Apply(s, w).0, ks + [s.next])
  {
  }

  lemma {:induction false} DeleteKeepsNumbering(s: Store, ks: seq<int>, id: string)
    requires NumberedBy(s, ks)
    ensures NumberedBy(Apply(s, Delete(id)).0, KeysAfter(s, ks, Delete(id)))
  {
    var found := Find(s.tasks, id);
    if found.Some? {
      var p, tasks', ks' := found.value, Without(s.tasks, found.value), Without(ks, found.value);
      WithoutIncreasing(ks, p);
      forall i | 0 <= i < |ks'| ensures 0 <= ks'[i] < s.next && tasks'[i].id == TaskId(ks'[i]) {
        WithoutNumbered(s, ks, p, i);
      }
    }
  }

  lemma {:induction false} WithoutNumbered(s: Store, ks: seq<int>, p: nat, i: nat)
    requires NumberedBy(s, ks) && p < |ks| && i < |ks| - 1
    ensures 0 <= Without(ks, p)[i] < s.next && Without(s.tasks, p)[i].id == TaskId(Without(ks, p)[i])
  {
    var j := if i < p then i else i + 1;
    var k, t := ks[j], s.tasks[j];
    assert Without(ks, p)[i] == k && Without(s.tasks, p)[i] == t;
    assert 0 <= k < s.next && t.id == TaskId(k);
  }

  lemma {:induction false} WithoutIncreasing(ks: seq<int>, p: nat)
    requires Ids.Increasing(ks) && p < |ks|
    ensures Ids.Increasing(Without(ks, p))
  {
  }

  /** In every reachable store the ids are pairwise distinct, in creation order, and all were issued before. */
  lemma {:induction false} AlwaysNumbered(s: Store, ws: seq<Write>)
    requires Numbered(s)
    ensures Numbered(ApplyAll(s, ws))
    decreases |ws|
  {
    if ws != [] {
      var ks: seq<int> :| NumberedBy(s, ks);
      WriteKeepsNumbering(s, ks, ws[0]);
      AlwaysNumbered(Apply(s, ws[0]).0, ws[1..]);
    }
  }

  lemma {:induction false} IdsDistinct(s: Store, i: nat, j: nat)
    requires Numbered(s) && i < j < |s.tasks|
    ensures s.tasks[i].id != s.tasks[j].id
  {
    var ks: seq<int> :| NumberedBy(s, ks);
    TaskIdInjective(ks[i], ks[j]);
  }

  /** The ids that a run of writes issues, in order. */
  function Issued(s: Store, ws: seq<Write>): seq<string>
    decreases |ws|
  {
    if ws == [] then []
    else (if ws[0].Create? then [TaskId(s.next)] else []) + Issued(Apply(s, ws[0]).0, ws[1..])
  }

  /** The i-th id issued is printed from the i-th number after the counter. */
  lemma {:induction false} IssuedNumber(s: Store, ws: seq<Write>, i: nat)
    requires i < |Issued(s, ws)|
    ensures Issued(s, ws)[i] == TaskId(s.next + i)
    decreases |ws|
  {
    var s' := Apply(s, ws[0]).0;
    NextAfter(s, ws[0]);
    IssuedFirst(s, ws);
    if !ws[0].Create? {
      IssuedNumber(s', ws[1..], i);
    } else if i > 0 {
      IssuedNumber(s', ws[1..], i - 1);
    }
  }

  lemma {:induction false} NextAfter(s: Store, w: Write)
    ensures Apply(s, w).0.next == s.next + if w.Create? then 1 else 0
  {
  }

  lemma {:induction false} IssuedFirst(s: Store, ws: seq<Write>)
    requires ws != []
    ensures var rest := Issued(Apply(s, ws[0]).0, ws[1..]);
            Issued(s, ws) == if ws[0].Create? then [TaskId(s.next)] + rest else rest
  {
  }

  /** Ids are never reused: the ids issued over a run are pairwise distinct, whatever was deleted in between, and
      none of them is the id of a task that was there before. */
  lemma {:induction false} IdsNeverReused(s: Store, ws: seq<Write>)
    requires Numbered(s)
    ensures var issued := Issued(s, ws);
            && (forall i, j :: 0 <= i < j < |issued| ==> issued[i] != issued[j])
            && (forall i, t :: 0 <= i < |issued| && t in s.tasks ==> issued[i] != t.id)
  {
    var issued := Issued(s, ws);
    forall i, j | 0 <= i < j < |issued| ensures issued[i] != issued[j] {
      IssuedApart(s, ws, i, j);
    }
    forall i, t | 0 <= i < |issued| && t in s.tasks ensures issued[i] != t.id {
      IssuedNumber(s, ws, i);
      FutureIdUnused(s, i, t);
    }
  }

  lemma {:induction false} IssuedApart(s: Store, ws: seq<Write>, i: nat, j: nat)
    requires i < j < |Issued(s, ws)|
    ensures Issued(s, ws)[i] != Issued(s, ws)[j]
  {
    IssuedNumber(s, ws, i);
    IssuedNumber(s, ws, j);
    TaskIdInjective(s.next + i, s.next + j);
  }

  /** A number not yet issued names no stored task. */
  lemma {:induction false} FutureIdUnused(s: Store, i: nat, t: Task)
    requires Numbered(s) && t in s.tasks
    ensures TaskId(s.next + i) != t.id
  {
    var ks: seq<int> :| NumberedBy(s, ks);
    var n :| 0 <= n < |s.tasks| && s.tasks[n] == t;
    TaskIdInjective(s.next + i, ks[n]);
  }

  // ---- The ordered map ----------------------------------------------------------------------------------

  datatype Body = Body(title: string, description: Option<string>, done: bool)

  /** Tasks by creation number. */
  datatype OrderedMap = OrderedMap(bodies: map<int, Body>, next: nat)

  function Named(k: nat, b: Body): Task {
    Task(TaskId(k), b.title, b.description, b.done)
  }

  function BodyOf(t: Task): Body {
    Body(t.title, t.description, t.done)
  }

  ghost predicate Natural(m: OrderedMap) {
    forall k <- m.bodies :: 0 <= k
  }

  /** The map's tasks in key order. */
  ghost function Listing(m: OrderedMap): (ts: seq<Task>)
    requires Natural(m)
    ensures var ks := Ids.SortedIds(m.bodies.Keys);
            |ts| == |ks| && forall i :: 0 <= i < |ts| ==> ts[i] == Named(ks[i], m.bodies[ks[i]])
  {
    var ks := Ids.SortedIds(m.bodies.Keys);
    seq(|ks|, i requires 0 <= i < |ks| => Named(ks[i], m.bodies[ks[i]]))
  }

  /** The body with the given fields written over. */
  function BodyWith(b: Body, title: Option<string>, description: Option<string>, done: Option<bool>): Body {
    var b1 := if title.Some? then b.(title := title.value) else b;
    var b2 := if description.Some? then b1.(description := description) else b1;
    if done.Some? then b2.(done := done.value) else b2
  }

  ghost predicate HasKey(m: OrderedMap, id: string, k: int) {
    k in m.bodies && k >= 0 && TaskId(k) == id
  }

  /** A write on the map: creation binds the next number, an update or deletion acts on the key of its id. */
  ghost function ApplyMap(m: OrderedMap, w: Write): (OrderedMap, Result)
    requires Natural(m)
  {
    match w
    case Create(title, description) =>
      var b := Body(title, description, false);
      (OrderedMap(m.bodies[m.next := b], m.next + 1), Stored(Named(m.next, b)))
    case Update(id, title, description, done) =>
      if !exists k :: HasKey(m, id, k) then (m, NotFound)
      else
        var k :| HasKey(m, id, k);
        var b := BodyWith(m.bodies[k], title, description, done);
        (m.(bodies := m.bodies[k := b]), Stored(Named(k, b)))
    case Delete(id) =>
      if !exists k :: HasKey(m, id, k) then (m, NotFound)
      else
        var k :| HasKey(m, id, k);
        (m.(bodies := m.bodies - {k}), Deleted)
  }

  /** The i-th task's body is the map's entry under the i-th number, and the map has no other entries. */
  ghost predicate Holds(bodies: map<int, Body>, ks: seq<int>, tasks: seq<Task>) {
    && |ks| == |tasks|
    && (forall k :: k in bodies <==> k in ks)
    && forall i :: 0 <= i < |ks| ==> ks[i] in bodies && bodies[ks[i]] == BodyOf(tasks[i])
  }

  /** The list represents the map. */
  ghost predicate Represents(s: Store, ks: seq<int>, m: OrderedMap) {
    NumberedBy(s, ks) && m.next == s.next && Natural(m) && Holds(m.bodies, ks, s.tasks)
  }

  lemma {:induction false} KeysAreSorted(s: Store, ks: seq<int>, m: OrderedMap)
    requires Represents(s, ks, m)
    ensures Ids.SortedIds(m.bodies.Keys) == ks
  {
    Ids.SortedUnique(Ids.SortedIds(m.bodies.Keys), ks);
  }

  lemma {:induction false} ListingIsList(s: Store, ks: seq<int>, m: OrderedMap)
    requires Represents(s, ks, m)
    ensures Listing(m) == s.tasks
  {
    KeysAreSorted(s, ks, m);
    forall i | 0 <= i < |ks| ensures Listing(m)[i] == s.tasks[i] {
      NamedBack(s.tasks[i], ks[i]);
    }
  }

  lemma {:induction false} NamedBack(t: Task, k: nat)
    requires t.id == TaskId(k)
    ensures Named(k, BodyOf(t)) == t
  {
  }

  lemma {:induction false} KeyOfFound(s: Store, ks: seq<int>, m: OrderedMap, id: string, k: int)
    requires Represents(s, ks, m)
    ensures HasKey(m, id, k) <==> Find(s.tasks, id).Some? && k == ks[Find(s.tasks, id).value]
  {
    var p := Find(s.tasks, id);
    if HasKey(m, id, k) {
      var i :| 0 <= i < |ks| && ks[i] == k;
      assert s.tasks[i].id == id;
      TaskIdInjective(ks[p.value], k);
    }
  }

  lemma {:induction false} NoKeyWhenAbsent(s: Store, ks: seq<int>, m: OrderedMap, id: string)
    requires Represents(s, ks, m)
    ensures (exists k :: HasKey(m, id, k)) <==> Find(s.tasks, id).Some?
  {
    if Find(s.tasks, id).Some? {
      KeyOfFound(s, ks, m, id, ks[Find(s.tasks, id).value]);
    }
    if k :| HasKey(m, id, k) {
      KeyOfFound(s, ks, m, id, k);
    }
  }

  lemma {:induction false} CreateRepresents(s: Store, ks: seq<int>, m: OrderedMap, w: Write)
    requires Represents(s, ks, m) && w.Create?
    ensures Represents(Apply(s, w).0, KeysAfter(s, ks, w), ApplyMap(m, w).0) && Apply(s, w).1 == ApplyMap(m, w).1
  {
    WriteKeepsNumbering(s, ks, w);
    CreateHolds(m.bodies, ks, s.tasks, s.next, Apply(s, w).1.task);
  }

  lemma {:induction false} CreateHolds(bodies: map<int, Body>, ks: seq<int>, tasks: seq<Task>, next: int, t: Task)
    requires Holds(bodies, ks, tasks) && forall i :: 0 <= i < |ks| ==> ks[i] < next
    ensures Holds(bodies[next := BodyOf(t)], ks + [next], tasks + [t])
  {
    var ks' := ks + [next];
    forall k ensures k in ks' <==> k in ks || k == next {
      if k == next {
        assert ks'[|ks|] == k;
      }
    }
  }

  lemma {:induction false} UpdateHolds(bodies: map<int, Body>, ks: seq<int>, tasks: seq<Task>, p: nat, t: Task)
    requires Holds(bodies, ks, tasks) && Ids.Increasing(ks) && p < |ks|
    ensures Holds(bodies[ks[p] := BodyOf(t)], ks, tasks[p := t])
  {
    assert forall i :: 0 <= i < |ks| && i != p ==> ks[i] != ks[p];
    assert ks[p] in ks;
  }

  lemma {:induction false} DeleteHolds(bodies: map<int, Body>, ks: seq<int>, tasks: seq<Task>, p: nat)
    requires Holds(bodies, ks, tasks) && Ids.Increasing(ks) && p < |ks|
    ensures Holds(bodies - {ks[p]}, Without(ks, p), Without(tasks, p))
  {
    var ks', tasks' := Without(ks, p), Without(tasks, p);
    WithoutPosition(ks, p);
    forall i | 0 <= i < |ks'|
      ensures ks'[i] in bodies - {ks[p]} && (bodies - {ks[p]})[ks'[i]] == BodyOf(tasks'[i])
    {
      var j := if i < p then i else i + 1;
      assert ks'[i] == ks[j] && tasks'[i] == tasks[j] && ks[j] != ks[p];
    }
  }

  lemma {:induction false} UpdateRepresents(s: Store, ks: seq<int>, m: OrderedMap, w: Write)
    requires Represents(s, ks, m) && w.Update?
    ensures Represents(Apply(s, w).0, KeysAfter(s, ks, w), ApplyMap(m, w).0) && Apply(s, w).1 == ApplyMap(m, w).1
  {
    NoKeyWhenAbsent(s, ks, m, w.id);
    if k :| HasKey(m, w.id, k) {
      var p := Find(s.tasks, w.id).value;
      forall k ensures HasKey(m, w.id, k) <==> k == ks[p] {
        KeyOfFound(s, ks, m, w.id, k);
      }
      var b := BodyWith(m.bodies[ks[p]], w.newTitle, w.newDescription, w.newDone);
      assert ApplyMap(m, w) == (m.(bodies := m.bodies[ks[p] := b]), Stored(Named(ks[p], b)));
      RewriteRepresents(s, ks, m, w, p);
    }
  }

  lemma {:induction false} RewriteRepresents(s: Store, ks: seq<int>, m: OrderedMap, w: Write, p: nat)
    requires Represents(s, ks, m) && w.Update? && Find(s.tasks, w.id) == Some(p)
    ensures var b := BodyWith(m.bodies[ks[p]], w.newTitle, w.newDescription, w.newDone);
            && Represents(Apply(s, w).0, ks, m.(bodies := m.bodies[ks[p] := b]))
            && Apply(s, w).1 == Stored(Named(ks[p], b))
  {
    var t, k := Apply(s, w).1.task, ks[p];
    WriteKeepsNumbering(s, ks, w);
    BodyPatched(s.tasks[p], k, w.newTitle, w.newDescription, w.newDone);
    UpdateHolds(m.bodies, ks, s.tasks, p, t);
  }

  lemma {:induction false} BodyPatched(t: Task, k: nat, title: Option<string>, description: Option<string>, done: Option<bool>)
    requires t.id == TaskId(k)
    ensures var b := BodyWith(BodyOf(t), title, description, done);
            Patch(t, title, description, done) == Named(k, b) && BodyOf(Named(k, b)) == b
  {
  }

  lemma {:induction false} DeleteRepresents(s: Store, ks: seq<int>, m: OrderedMap, w: Write)
    requires Represents(s, ks, m) && w.Delete?
    ensures Represents(Apply(s, w).0, KeysAfter(s, ks, w), ApplyMap(m, w).0) && Apply(s, w).1 == ApplyMap(m, w).1
  {
    NoKeyWhenAbsent(s, ks, m, w.id);
    if k :| HasKey(m, w.id, k) {
      KeyOfFound(s, ks, m, w.id, k);
      forall l ensures HasKey(m, w.id, l) <==> l == k {
        KeyOfFound(s, ks, m, w.id, l);
      }
      MapDeletes(m, w.id, k);
      RemoveRepresents(s, ks, m, w.id);
    }
  }

  lemma {:induction false} MapDeletes(m: OrderedMap, id: string, k: int)
    requires Natural(m) && forall l :: HasKey(m, id, l) <==> l == k
    ensures ApplyMap(m, Delete(id)) == (m.(bodies := m.bodies - {k}), Deleted)
  {
    assert HasKey(m, id, k);
  }

  lemma {:induction false} RemoveRepresents(s: Store, ks: seq<int>, m: OrderedMap, id: string)
    requires Represents(s, ks, m) && Find(s.tasks, id).Some?
    ensures var p := Find(s.tasks, id).value;
            Represents(Apply(s, Delete(id)).0, KeysAfter(s, ks, Delete(id)), m.(bodies := m.bodies - {ks[p]}))
  {
    DeleteKeepsNumbering(s, ks, id);
    DeleteHolds(m.bodies, ks, s.tasks, Find(s.tasks, id).value);
  }

  lemma {:induction false} WithoutPosition(ks: seq<int>, p: nat)
    requires Ids.Increasing(ks) && p < |ks|
    ensures forall k :: k in Without(ks, p) <==> k in ks && k != ks[p]
  {
    var rest := Without(ks, p);
    forall k ensures k in rest <==> k in ks && k != ks[p] {
      if k in rest {
        var i :| 0 <= i < |rest| && rest[i] == k;
        assert k == if i < p then ks[i] else ks[i + 1];
      }
      if k in ks && k != ks[p] {
        var i :| 0 <= i < |ks| && ks[i] == k;
        assert rest[if i < p then i else i - 1] == k;
      }
    }
  }

  lemma {:induction false} WriteRepresents(s: Store, ks: seq<int>, m: OrderedMap, w: Write)
    requires Represents(s, ks, m)
    ensures Represents(Apply(s, w).0, KeysAfter(s, ks, w), ApplyMap(m, w).0) && Apply(s, w).1 == ApplyMap(m, w).1
  {
    match w
    case Create(_, _) => CreateRepresents(s, ks, m, w);
    case Update(_, _, _, _) => UpdateRepresents(s, ks, m, w);
    case Delete(_) => DeleteRepresents(s, ks, m, w);
  }

  /** The store's answers to a run of writes, each with the listing after it. */
  function Answers(s: Store, ws: seq<Write>): seq<(Result, seq<Task>)>
    decreases |ws|
  {
    if ws == [] then []
    else
      var (s', r) := Apply(s, ws[0]);
      [(r, s'.tasks)] + Answers(s', ws[1..])
  }

  lemma {:induction false} MapStaysNatural(m: OrderedMap, w: Write)
    requires Natural(m)
    ensures Natural(ApplyMap(m, w).0)
  {
  }

  /** The same run on the ordered map. */
  ghost function MapAnswers(m: OrderedMap, ws: seq<Write>): seq<(Result, seq<Task>)>
    requires Natural(m)
    decreases |ws|
  {
    if ws == [] then []
    else
      MapStaysNatural(m, ws[0]);
      var (m', r) := ApplyMap(m, ws[0]);
      [(r, Listing(m'))] + MapAnswers(m', ws[1..])
  }

  /** Refinement: over every run the store gives the results and the listings of the ordered map. */
  lemma {:induction false} StoreRefinesMap(s: Store, ks: seq<int>, m: OrderedMap, ws: seq<Write>)
    requires Represents(s, ks, m)
    ensures Answers(s, ws) == MapAnswers(m, ws)
    decreases |ws|
  {
    if ws != [] {
      var s', m', ks' := Apply(s, ws[0]).0, ApplyMap(m, ws[0]).0, KeysAfter(s, ks, ws[0]);
      WriteRepresents(s, ks, m, ws[0]);
      ListingIsList(s', ks', m');
      StoreRefinesMap(s', ks', m', ws[1..]);
    }
  }

  /** The task under the key of this id, if there is one. */
  ghost function MapGet(m: OrderedMap, id: string): Option<Task>
    requires Natural(m)
  {
    if !exists k :: HasKey(m, id, k) then None
    else
      var k :| HasKey(m, id, k);
      Some(Named(k, m.bodies[k]))
  }

  /** A read of the list is a read of the map, and the map has at most one key for an id. */
  lemma {:induction false} GetRepresents(s: Store, ks: seq<int>, m: OrderedMap, id: string)
    requires Represents(s, ks, m)
    ensures Get(s, id) == MapGet(m, id)
    ensures forall k :: HasKey(m, id, k) ==> Get(s, id) == Some(Named(k, m.bodies[k]))
    ensures Get(s, id).None? ==> forall k :: !HasKey(m, id, k)
  {
    NoKeyWhenAbsent(s, ks, m, id);
    forall k | HasKey(m, id, k) ensures Get(s, id) == Some(Named(k, m.bodies[k])) {
      KeyOfFound(s, ks, m, id, k);
      NamedBack(s.tasks[Find(s.tasks, id).value], k);
    }
  }

  ghost function MapAfter(m: OrderedMap, ws: seq<Write>): (m': OrderedMap)
    requires Natural(m)
    ensures Natural(m')
    decreases |ws|
  {
    if ws == [] then m
    else
      MapStaysNatural(m, ws[0]);
      MapAfter(ApplyMap(m, ws[0]).0, ws[1..])
  }

  lemma {:induction false} RunRepresents(s: Store, ks: seq<int>, m: OrderedMap, ws: seq<Write>) returns (ks': seq<int>)
    requires Represents(s, ks, m)
    ensures Represents(ApplyAll(s, ws), ks', MapAfter(m, ws))
    decreases |ws|
  {
    ks' := ks;
    if ws != [] {
      WriteRepresents(s, ks, m, ws[0]);
      ks' := RunRepresents(Apply(s, ws[0]).0, KeysAfter(s, ks, ws[0]), ApplyMap(m, ws[0]).0, ws[1..]);
    }
  }

  /** The map a new server starts with. */
  const NEW_MAP := OrderedMap(map[1 := BodyOf(FIRST_TASKS[0]), 2 := BodyOf(FIRST_TASKS[1])], 3)

  /** Every run of a new server is a run of the ordered map that starts with the two sample tasks. */
  lemma {:induction false} NewStoreRefinesMap(ws: seq<Write>)
    ensures Numbered(NEW_STORE) && Natural(NEW_MAP) && Answers(NEW_STORE, ws) == MapAnswers(NEW_MAP, ws)
  {
    NewRepresents();
    StoreRefinesMap(NEW_STORE, [1, 2], NEW_MAP, ws);
  }

  lemma {:induction false} NewRepresents()
    ensures Represents(NEW_STORE, [1, 2], NEW_MAP)
  {
    NewStoreNumbered();
    assert forall k :: k in NEW_MAP.bodies <==> k in [1, 2];
  }

  /** After every run of a new server a read answers as the ordered map does. */
  lemma {:induction false} NewStoreReadsMap(ws: seq<Write>, id: string)
    ensures Natural(NEW_MAP) && Get(ApplyAll(NEW_STORE, ws), id) == MapGet(MapAfter(NEW_MAP, ws), id)
  {
    NewRepresents();
    var ks := RunRepresents(NEW_STORE, [1, 2], NEW_MAP, ws);
    GetRepresents(ApplyAll(NEW_STORE, ws), ks, MapAfter(NEW_MAP, ws), id);
  }

  /** The first id a new server issues. */
  lemma {:induction false} FirstIssued(ws: seq<Write>)
    requires Issued(NEW_STORE, ws) != []
    ensures Issued(NEW_STORE, ws)[0] == "t_003"
  {
    IssuedNumber(NEW_STORE, ws, 0);
    assert Digits(3) == "3";
    PaddedTwice(3);
  }

  lemma {:induction false} PaddedTwice(n: nat)
    requires n < 10
    ensures Pad3(n) == "00" + Digits(n)
  {
    assert Zeros(2) == "00" by {
      assert Zeros(1) == "0" + Zeros(0);
      assert Zeros(2) == "0" + Zeros(1);
    }
  }
}
