/** The task store as heap objects: a slice of task pointers shifted in place, tasks whose fields are assigned in
    place, descriptions behind pointers, and clones handed out to callers. */
module TaskStoreHeap {
  import opened TaskStore

  /** A string behind a pointer. */
  class StringCell {
    var text: string

    constructor (text: string)
      ensures this.text == text
    {
      this.text := text;
    }
  }

  function TextOf(cell: StringCell?): Option<string>
    reads cell
  {
    if cell == null then None else Some(cell.text)
  }

  class TaskObject {
    var id: string
    var title: string
    var description: StringCell?
    var done: bool

    constructor (id: string, title: string, description: StringCell?, done: bool)
      ensures this.id == id && this.title == title && this.description == description && this.done == done
    {
      this.id, this.title, this.description, this.done := id, title, description, done;
    }

    function Value(): Task
      reads this, description
    {
      Task(id, title, TextOf(description), done)
    }
  }

  /** A task object and a description cell of its own, none of them existing before. */
  twostate predicate FreshTask(new t: TaskObject)
    reads t
  {
    fresh(t) && (t.description != null ==> fresh(t.description))
  }

  method CloneTask(t: TaskObject) returns (clone: TaskObject)
    ensures FreshTask(clone) && clone.Value() == t.Value()
    ensures clone.id == t.id && clone.title == t.title && clone.done == t.done
    ensures if t.description == null then clone.description == null
            else clone.description != null && clone.description.text == t.description.text
  {
    var cell: StringCell? := null;
    if t.description != null {
      cell := new StringCell(t.description.text);
    }
    clone := new TaskObject(t.id, t.title, cell, t.done);
  }

  /** The task objects of a slice and their description cells. */
  ghost function Objects(ts: seq<TaskObject>): set<object> {
    set t | t in ts
  }

  ghost function Cells(ts: seq<TaskObject>): set<object?>
    reads Objects(ts)
  {
    set t | t in ts :: t.description
  }

  /** The values of a slice of task objects. */
  ghost function ValuesOf(ts: seq<TaskObject>): (vs: seq<Task>)
    reads Objects(ts), Cells(ts)
    ensures |vs| == |ts| && forall i :: 0 <= i < |ts| ==> vs[i] == ts[i].Value()
  {
    seq(|ts|, i requires 0 <= i < |ts| reads Objects(ts), Cells(ts) => ts[i].Value())
  }

  lemma {:induction false} ValuesSnoc(ts: seq<TaskObject>, t: TaskObject)
    ensures ValuesOf(ts + [t]) == ValuesOf(ts) + [t.Value()]
  {
  }

  lemma {:induction false} ValuesWithout(ts: seq<TaskObject>, p: nat)
    requires p < |ts|
    ensures ValuesOf(Without(ts, p)) == Without(ValuesOf(ts), p)
  {
  }

  method PatchObject(t: TaskObject, title: Option<string>, description: StringCell?, done: Option<bool>)
    modifies t
    ensures t.Value() == Patch(old(t.Value()), title, TextOf(description), done)
    ensures t.id == old(t.id)
    ensures t.title == if title.Some? then title.value else old(t.title)
    ensures t.description == if description != null then description else old(t.description)
    ensures t.done == if done.Some? then done.value else old(t.done)
  {
    if title.Some? {
      t.title := title.value;
    }
    if description != null {
      t.description := description;
    }
    if done.Some? {
      t.done := done.value;
    }
  }

  class StoreObject {
    var slots: array<TaskObject>
    var len: nat
    var next: nat

    /** The slice holds `len` distinct task objects. */
    ghost predicate Valid()
      reads this, slots
    {
      len <= slots.Length && forall i, j :: 0 <= i < j < len ==> slots[i] != slots[j]
    }

    ghost function Slice(): seq<TaskObject>
      requires len <= slots.Length
      reads this, slots
    {
      slots[..len]
    }

    ghost function View(): Store
      requires len <= slots.Length
      reads this, slots, Objects(Slice()), Cells(Slice())
    {
      Store(ValuesOf(Slice()), next)
    }

    constructor ()
      ensures Valid() && fresh(slots) && forall t <- Slice() :: FreshTask(t)
      ensures View() == NEW_STORE
    {
      var d1 := new StringCell("Учебный пример");
      var d2 := new StringCell("Проверка API");
      var t1 := new TaskObject("t_001", "Первая задача", d1, false);
      var t2 := new TaskObject("t_002", "Вторая задача", d2, true);
      slots := new TaskObject[] [t1, t2];
      len, next := 2, 3;
      new;
      assert Slice() == [t1, t2];
    }

    method List() returns (out: seq<TaskObject>)
      requires Valid()
      ensures |out| == len && forall t <- out :: FreshTask(t)
      ensures ValuesOf(out) == View().tasks
    {
      out := [];
      for i := 0 to len
        invariant |out| == i && forall t <- out :: FreshTask(t)
        invariant forall j :: 0 <= j < i ==> out[j].Value() == View().tasks[j]
      {
        var t := CloneTask(slots[i]);
        assert Slice()[i] == slots[i];
        out := out + [t];
      }
    }

    /** Index of the first task with this id, or -1. */
    method IndexOf(id: string) returns (index: int)
      requires Valid()
      ensures index == if Find(View().tasks, id).Some? then Find(View().tasks, id).value else -1
    {
      index := 0;
      while index < len
        invariant 0 <= index <= len
        invariant forall j :: 0 <= j < index ==> View().tasks[j].id != id
      {
        assert Slice()[index] == slots[index];
        if slots[index].id == id {
          FindIs(View().tasks, id, index);
          return;
        }
        index := index + 1;
      }
      index := -1;
    }

    method GetTask(id: string) returns (t: TaskObject?)
      requires Valid()
      ensures t == null <==> Get(View(), id).None?
      ensures t != null ==> FreshTask(t) && t.Value() == Get(View(), id).value
      ensures Reads(View().tasks, id, if t == null then None else Some(t.Value()))
      ensures t != null ==> t.id == id
    {
      GetReads(View(), id);
      var i := IndexOf(id);
      if i < 0 {
        return null;
      }
      assert Slice()[i] == slots[i];
      t := CloneTask(slots[i]);
    }

    /** Stores the caller's description pointer itself; only the returned clone has a cell of its own. */
    method CreateTask(title: string, description: StringCell?) returns (t: TaskObject, ghost stored: TaskObject)
      requires Valid()
      modifies this, slots
      ensures Valid() && (slots == old(slots) || fresh(slots))
      ensures FreshTask(t) && fresh(stored) && t != stored && stored.description == description
      ensures Slice() == old(Slice()) + [stored]
      ensures (View(), Stored(t.Value())) == Apply(old(View()), Create(title, TextOf(description)))
      ensures Creates(old(View()), title, TextOf(description), View(), t.Value())
    {
      var created := new TaskObject(TaskId(next), title, description, false);
      stored := created;
      assert View().tasks == old(View()).tasks;
      AddObject(created);
      ghost var after := View();
      t := CloneTask(created);
      assert View().tasks == after.tasks;
    }

    method AddObject(t: TaskObject)
      requires Valid() && t !in Slice()
      modifies this, slots
      ensures Valid() && Slice() == old(Slice()) + [t]
      ensures slots == old(slots) || fresh(slots)
      ensures View() == Store(old(View()).tasks + [t.Value()], old(View()).next + 1)
    {
      Append(t);
      next := next + 1;
      ValuesSnoc(old(Slice()), t);
    }

    /** Go's append: in place when there is room, else into a larger copy. */
    method Append(t: TaskObject)
      requires Valid() && t !in Slice()
      modifies this`slots, this`len, slots
      ensures Valid() && Slice() == old(Slice()) + [t]
      ensures slots == old(slots) || fresh(slots)
    {
      if len == slots.Length {
        var larger := new TaskObject[2 * len + 1](_ => t);
        for i := 0 to len
          invariant slots == old(slots) && len == old(len) && slots[..] == old(slots[..])
          invariant forall j :: 0 <= j < i ==> larger[j] == slots[j]
        {
          larger[i] := slots[i];
        }
        assert larger[..len] == slots[..len];
        slots := larger;
      }
      slots[len] := t;
      len := len + 1;
    }

    method UpdateTask(id: string, title: Option<string>, description: StringCell?, done: Option<bool>) returns (t: TaskObject?)
      requires Valid()
      modifies Objects(Slice())
      ensures Slice() == old(Slice())
      ensures t != null ==> FreshTask(t)
      ensures (View(), if t == null then NotFound else Stored(t.Value()))
           == Apply(old(View()), Update(id, title, TextOf(description), done))
      ensures t == null <==> Unknown(old(View()).tasks, id)
      ensures t == null ==> View() == old(View())
      ensures t != null ==> t.id == id && View().next == old(View()).next
      ensures t != null ==> exists p: nat ::
                ReplacedAt(old(View()).tasks, id, t.Value(), View().tasks, p)
                && Updates(old(View()).tasks[p], title, TextOf(description), done, t.Value())
    {
      var i := IndexOf(id);
      assert View().tasks == old(View()).tasks;
      if i < 0 {
        return null;
      }
      t := PatchAndClone(i, title, description, done);
      WriteEffect(old(View()), Update(id, title, TextOf(description), done), View(), Stored(t.Value()));
    }

    method PatchAndClone(i: nat, title: Option<string>, description: StringCell?, done: Option<bool>) returns (t: TaskObject)
      requires Valid() && i < len
      modifies slots[i]
      ensures FreshTask(t) && t.Value() == View().tasks[i]
      ensures var before := old(View());
              View() == before.(tasks := before.tasks[i := Patch(before.tasks[i], title, TextOf(description), done)])
    {
      ReplaceAt(i, title, description, done);
      ghost var after := View();
      assert Slice()[i] == slots[i];
      t := CloneTask(slots[i]);
      assert View().tasks == after.tasks;
    }

    method ReplaceAt(i: nat, title: Option<string>, description: StringCell?, done: Option<bool>)
      requires Valid() && i < len
      modifies slots[i]
      ensures slots[i].description == old(slots[i].description) || slots[i].description == description
      ensures var before := old(View());
              View() == before.(tasks := before.tasks[i := Patch(before.tasks[i], title, TextOf(description), done)])
    {
      ghost var before := View();
      assert Slice()[i] == slots[i];
      PatchObject(slots[i], title, description, done);
      forall j | 0 <= j < len && j != i ensures Slice()[j].Value() == before.tasks[j] {
        assert Slice()[j] == slots[j] != slots[i];
      }
    }

    method DeleteTask(id: string) returns (ok: bool)
      requires Valid()
      modifies this`len, slots
      ensures Valid() && slots == old(slots) && forall t <- Slice() :: t in old(Slice())
      ensures (View(), if ok then Deleted else NotFound) == Apply(old(View()), Delete(id))
      ensures ok <==> !Unknown(old(View()).tasks, id)
      ensures if ok then View().next == old(View()).next && exists p: nat :: RemovedAt(old(View()).tasks, id, View().tasks, p)
              else View() == old(View())
    {
      var i := IndexOf(id);
      assert View().tasks == old(View()).tasks;
      if i < 0 {
        return false;
      }
      RemoveAt(i);
      WriteEffect(old(View()), Delete(id), View(), Deleted);
      return true;
    }

    method RemoveAt(i: nat)
      requires Valid() && i < len
      modifies this`len, slots
      ensures Valid() && slots == old(slots) && forall t <- Slice() :: t in old(Slice())
      ensures View() == old(View()).(tasks := Without(old(View()).tasks, i))
    {
      ghost var ts := Slice();
      ShiftLeft(i);
      ValuesWithout(ts, i);
      assert ValuesOf(ts) == old(View()).tasks;
      assert forall k :: 0 <= k < |ts| - 1 ==> Without(ts, i)[k] in ts;
    }

    /** Go's append(s[:i], s[i+1:]...): the elements after position i move one place down, in place. */
    method ShiftLeft(i: nat)
      requires Valid() && i < len
      modifies this`len, slots
      ensures Valid() && slots == old(slots) && Slice() == Without(old(Slice()), i)
    {
      for j := i to len - 1
        invariant slots == old(slots) && len == old(len)
        invariant forall k :: 0 <= k < slots.Length ==>
                    slots[k] == if i <= k < j then old(slots[k + 1]) else old(slots[k])
      {
        slots[j] := slots[j + 1];
      }
      len := len - 1;
    }
  }

  method CellFor(text: Option<string>) returns (cell: StringCell?)
    ensures cell != null ==> fresh(cell)
    ensures TextOf(cell) == text
  {
    cell := null;
    if text.Some? {
      cell := new StringCell(text.value);
    }
  }

  /** Carries out one write given as a value, with pointers of its own. */
  method Perform(store: StoreObject, w: Write) returns (result: Result)
    requires store.Valid()
    modifies store, store.slots, Objects(store.Slice())
    ensures store.Valid() && (store.slots == old(store.slots) || fresh(store.slots))
    ensures fresh(Objects(store.Slice()) - old(Objects(store.Slice())))
    ensures (store.View(), result) == Apply(old(store.View()), w)
  {
    match w
    case Create(title, description) =>
      var cell := CellFor(description);
      assert store.View().tasks == old(store.View()).tasks;
      var t, _ := store.CreateTask(title, cell);
      result := Stored(t.Value());
    case Update(id, title, description, done) =>
      var cell := CellFor(description);
      assert store.View().tasks == old(store.View()).tasks;
      var t := store.UpdateTask(id, title, cell, done);
      result := if t == null then NotFound else Stored(t.Value());
    case Delete(id) =>
      var ok := store.DeleteTask(id);
      result := if ok then Deleted else NotFound;
  }

  /** Snapshot isolation: task objects that are not the store's own, such as every object the store ever
      returned, keep their value through any later run of writes. */
  method PerformAll(store: StoreObject, ws: seq<Write>, ghost snapshot: seq<TaskObject>)
    requires store.Valid() && forall t <- snapshot :: t !in store.Slice()
    modifies store, store.slots, Objects(store.Slice())
    ensures store.Valid()
    ensures store.View() == ApplyAll(old(store.View()), ws)
    ensures ValuesOf(snapshot) == old(ValuesOf(snapshot)) && forall t <- snapshot :: t !in store.Slice()
  {
    for i := 0 to |ws|
      invariant store.Valid() && (store.slots == old(store.slots) || fresh(store.slots))
      invariant fresh(Objects(store.Slice()) - old(Objects(store.Slice())))
      invariant store.View() == ApplyAll(old(store.View()), ws[..i])
      invariant ValuesOf(snapshot) == old(ValuesOf(snapshot))
    {
      var _ := Perform(store, ws[i]);
      ApplyAllNext(old(store.View()), ws, i);
    }
    assert ws[..|ws|] == ws;
  }

  lemma {:induction false} ApplyAllNext(s: Store, ws: seq<Write>, i: nat)
    requires i < |ws|
    ensures ApplyAll(s, ws[..i + 1]) == Apply(ApplyAll(s, ws[..i]), ws[i]).0
  {
    ApplyAllSnoc(s, ws[..i], ws[i]);
    assert ws[..i + 1] == ws[..i] + [ws[i]];
  }

  lemma {:induction false} ApplyAllSnoc(s: Store, ws: seq<Write>, w: Write)
    ensures ApplyAll(s, ws + [w]) == Apply(ApplyAll(s, ws), w).0
    decreases |ws|
  {
    if ws == [] {
      assert ws + [w] == [w] && [w][1..] == [];
    } else {
      assert (ws + [w])[0] == ws[0] && (ws + [w])[1..] == ws[1..] + [w];
      ApplyAllSnoc(Apply(s, ws[0]).0, ws[1..], w);
    }
  }

  lemma {:induction false} FindIs(tasks: seq<Task>, id: string, p: nat)
    requires p < |tasks| && tasks[p].id == id && forall j :: 0 <= j < p ==> tasks[j].id != id
    ensures Find(tasks, id) == Some(p)
  {
  }
}
