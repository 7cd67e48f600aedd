/** What each call of the task service does whatever its Redis commands do: which answer it gives, which commands it
    issues, which entries it writes and for how long, and which keys it deletes. */
module CacheFaults {
  import opened CacheKeys
  import opened TaskRepo
  import opened CacheModel

  // ---- Reads --------------------------------------------------------------------------------------------

  predicate Live(w: World, key: string) {
    w.connected && key in w.cache && w.now < w.cache[key].expiry
  }

  /** The answer was stored under the key, if the write was applied, to live for the base and at most the extra time. */
  predicate Cached(w: World, key: string, payload: Payload, base: int, extra: int, env: Env, w': World) {
    && w' == w.(cache := w'.cache)
    && if !env.outcome.Applied() then w'.cache == w.cache
       else
         && key in w'.cache && w'.cache == w.cache[key := w'.cache[key]]
         && w'.cache[key].payload == payload
         && w.now + base <= w'.cache[key].expiry <= w.now + base + (if extra > 0 then extra else 0)
  }

  /** A read that was not answered from the cache: one command to look and one to store, or none without Redis. */
  predicate Missed(w: World, key: string, payload: Payload, base: int, extra: int, envs: nat -> Env, i: nat,
                   w': World, i': nat) {
    if w.connected then i' == i + 2 && Cached(w, key, payload, base, extra, envs(i + 1), w') else i' == i && w' == w
  }

  /** A get answers a live task or marker of its key if the command succeeds, and otherwise what the repository has. */
  predicate GotTask(w: World, id: int, envs: nat -> Env, i: nat, w': World, reply: Reply, i': nat) {
    var key := TaskByID(id);
    if Live(w, key) && envs(i).outcome.Ok? && !w.cache[key].payload.ListJson? then
      && w' == w && i' == i + 1
      && reply == if w.cache[key].payload.TaskJson? then Found(w.cache[key].payload.task) else NotFound
    else if id in w.data then
      && reply == Found(w.data[id])
      && Missed(w, key, TaskJson(w.data[id]), w.cfg.cacheTtl, w.cfg.jitter, envs, i, w', i')
    else
      reply == NotFound && Missed(w, key, Marker, w.cfg.negativeTtl, w.cfg.jitter / 2, envs, i, w', i')
  }

  /** A list answers a live page of its key if the command succeeds, and otherwise the repository's page. */
  ghost predicate ListedPage(w: World, page: int, limit: int, envs: nat -> Env, i: nat, w': World, reply: Reply, i': nat) {
    var key := TasksListPaged(page, limit);
    if Live(w, key) && envs(i).outcome.Ok? && w.cache[key].payload.ListJson? then
      w' == w && i' == i + 1 && reply == Items(w.cache[key].payload.tasks)
    else
      && reply == Items(ListPage(w.data, page, limit))
      && Missed(w, key, ListJson(ListPage(w.data, page, limit)), w.cfg.listTtl, w.cfg.jitter, envs, i, w', i')
  }

  lemma {:induction false} StoreCaches(w: World, key: string, payload: Payload, base: int, extra: int, env: Env)
    requires w.connected
    ensures Cached(w, key, payload, base, extra, env, Store(w, key, payload, TTLWithJitter(base, extra, env.draw), env))
  {
  }

  /** The rest of a list call that missed. */
  lemma {:induction false} ListMisses(w: World, page: int, limit: int, envs: nat -> Env, i: nat)
    ensures var payload := ListJson(ListPage(w.data, page, limit));
            var w' := Store(w, TasksListPaged(page, limit), payload, TTLWithJitter(w.cfg.listTtl, w.cfg.jitter, envs(i).draw), envs(i));
            RunCall(w, ListRepo(page, limit), envs, i) == (w', Items(payload.tasks), if w.connected then i + 1 else i)
  {
    RunUnfold(w, ListRepo(page, limit), envs, i);
    RunUnfold(w, ListStore(page, limit, ListPage(w.data, page, limit)), envs, i);
  }

  lemma {:induction false} GetUnderFaults(w: World, id: int, envs: nat -> Env, i: nat)
    ensures var (w', reply, i') := RunCall(w, GetStart(id), envs, i); GotTask(w, id, envs, i, w', reply, i')
  {
    RunUnfold(w, GetStart(id), envs, i);
    if Advance(w, GetStart(id), envs(i)).1 == GetRepo(id) {
      var i1 := if w.connected then i + 1 else i;
      var found := GetByID(w.data, id);
      RunUnfold(w, GetRepo(id), envs, i1);
      RunUnfold(w, GetStore(id, found), envs, i1);
    }
  }

  /** A list call answers from the cache, or goes on to the repository. */
  lemma {:induction false} ListLooks(w: World, page: int, limit: int, envs: nat -> Env, i: nat)
    ensures var key := TasksListPaged(page, limit);
            RunCall(w, ListStart(page, limit), envs, i)
            == if Live(w, key) && envs(i).outcome.Ok? && w.cache[key].payload.ListJson? then
                 (w, Items(w.cache[key].payload.tasks), i + 1)
               else RunCall(w, ListRepo(page, limit), envs, if w.connected then i + 1 else i)
  {
    RunUnfold(w, ListStart(page, limit), envs, i);
  }

  lemma {:induction false} ListUnderFaults(w: World, page: int, limit: int, envs: nat -> Env, i: nat)
    ensures var (w', reply, i') := RunCall(w, ListStart(page, limit), envs, i);
            ListedPage(w, page, limit, envs, i, w', reply, i')
  {
    var i1, payload := if w.connected then i + 1 else i, ListJson(ListPage(w.data, page, limit));
    ListLooks(w, page, limit, envs, i);
    ListMisses(w, page, limit, envs, i1);
    if w.connected {
      StoreCaches(w, TasksListPaged(page, limit), payload, w.cfg.listTtl, w.cfg.jitter, envs(i1));
    }
  }

  // ---- Invalidation -------------------------------------------------------------------------------------

  /** The key is this page's, and its delete was applied: the pages' deletes are issued page by page after two others. */
  ghost predicate PageDroppedAt(key: string, envs: nat -> Env, i: nat, page: int, limit: int) {
    && 1 <= page <= 5 && 1 <= limit <= 20 && key == TasksListPaged(page, limit)
    && envs(i + 2 + 20 * (page - 1) + limit - 1).outcome.Applied()
  }

  ghost predicate PageDropped(key: string, envs: nat -> Env, i: nat) {
    exists page: int, limit: int :: PageDroppedAt(key, envs, i, page, limit)
  }

  /** The key's own delete was applied; the list keys' deletes are issued only if the task key's returned no error. */
  ghost predicate Dropped(key: string, id: int, envs: nat -> Env, i: nat) {
    || (key == TaskByID(id) && envs(i).outcome.Applied())
    || (envs(i).outcome.Ok? && key == "tasks:list" && envs(i + 1).outcome.Applied())
    || (envs(i).outcome.Ok? && PageDropped(key, envs, i))
  }

  /** Invalidating task `id`: with no error on the task's key 102 commands, with one just that command, and none
      without Redis; the cache loses exactly the keys whose own delete was applied. */
  ghost predicate Invalidated(w: World, id: int, envs: nat -> Env, i: nat, w': World, i': nat) {
    && w' == w.(cache := w'.cache)
    && if !w.connected then w' == w && i' == i
       else
         && i' == i + (if envs(i).outcome.Ok? then 102 else 1)
         && (forall key :: key in w'.cache <==> key in w.cache && !Dropped(key, id, envs, i))
         && forall key <- w'.cache :: w'.cache[key] == w.cache[key]
  }

  /** What a delete takes away. */
  function Gone(key: string, env: Env): set<string> {
    if env.outcome.Applied() then {key} else {}
  }

  function AllGone(keys: seq<string>, envs: nat -> Env, i: nat): set<string> {
    if keys == [] then {} else Gone(keys[0], envs(i)) + AllGone(keys[1..], envs, i + 1)
  }

  lemma {:induction false} DropLoses(w: World, key: string, env: Env)
    requires w.connected
    ensures Drop(w, key, env) == w.(cache := w.cache - Gone(key, env))
  {
    assert w.cache - {} == w.cache;
  }

  lemma {:induction false} LostTwice(cache: map<string, Entry>, first: set<string>, second: set<string>)
    ensures cache - first - second == cache - (first + second)
  {
  }

  lemma {:induction false} PagesUnderFaults(w: World, keys: seq<string>, envs: nat -> Env, i: nat)
    requires w.connected
    ensures RunCall(w, DropPaged(keys), envs, i) == (w.(cache := w.cache - AllGone(keys, envs, i)), Done, i + |keys|)
    decreases |keys|
  {
    RunUnfold(w, DropPaged(keys), envs, i);
    if keys == [] {
      assert w.cache - {} == w.cache;
    } else {
      DropLoses(w, keys[0], envs(i));
      LostTwice(w.cache, Gone(keys[0], envs(i)), AllGone(keys[1..], envs, i + 1));
      PagesUnderFaults(Drop(w, keys[0], envs(i)), keys[1..], envs, i + 1);
    }
  }

  /** The n-th of these keys is this one, and its delete was applied. */
  ghost predicate GoneAt(key: string, keys: seq<string>, envs: nat -> Env, i: nat, n: nat) {
    n < |keys| && keys[n] == key && envs(i + n).outcome.Applied()
  }

  lemma {:induction false} GoneSomewhere(key: string, keys: seq<string>, envs: nat -> Env, i: nat) returns (n: nat)
    requires key in AllGone(keys, envs, i)
    ensures GoneAt(key, keys, envs, i, n)
    decreases |keys|
  {
    n := 0;
    if key !in Gone(keys[0], envs(i)) {
      var m := GoneSomewhere(key, keys[1..], envs, i + 1);
      n := m + 1;
    }
  }

  lemma {:induction false} GoneThere(key: string, keys: seq<string>, envs: nat -> Env, i: nat, n: nat)
    requires GoneAt(key, keys, envs, i, n)
    ensures key in AllGone(keys, envs, i)
    decreases n
  {
    if n > 0 {
      assert keys[1..][n - 1] == key && i + 1 + (n - 1) == i + n;
      GoneThere(key, keys[1..], envs, i + 1, n - 1);
    }
  }

  lemma {:induction false} WindowIndex(page: int, limit: int)
    requires InWindow(page, limit)
    ensures var n := 20 * (page - 1) + limit - 1; 0 <= n < 100 && WindowKeys()[n] == TasksListPaged(page, limit)
  {
    var n: nat := 20 * (page - 1) + limit - 1;
    assert n / 20 == page - 1 && n % 20 == limit - 1;
    assert WindowKeys()[n] == WindowKey(n);
  }

  lemma {:induction false} IndexWindow(n: nat) returns (page: int, limit: int)
    requires n < 100
    ensures InWindow(page, limit) && n == 20 * (page - 1) + limit - 1 && WindowKeys()[n] == TasksListPaged(page, limit)
  {
    page, limit := n / 20 + 1, n % 20 + 1;
    assert WindowKeys()[n] == WindowKey(n);
  }

  lemma {:induction false} PageOfKey(key: string, keys: seq<string>, envs: nat -> Env, i: nat, n: nat)
    requires keys == WindowKeys() && GoneAt(key, keys, envs, i + 2, n)
    ensures PageDropped(key, envs, i)
  {
    var page, limit := IndexWindow(n);
    assert PageDroppedAt(key, envs, i, page, limit);
  }

  lemma {:induction false} KeyOfPage(key: string, keys: seq<string>, envs: nat -> Env, i: nat, page: int, limit: int)
    returns (n: nat)
    requires keys == WindowKeys() && PageDroppedAt(key, envs, i, page, limit)
    ensures GoneAt(key, keys, envs, i + 2, n)
  {
    WindowIndex(page, limit);
    n := 20 * (page - 1) + limit - 1;
  }

  lemma {:induction false} WindowGone(key: string, keys: seq<string>, envs: nat -> Env, i: nat)
    requires keys == WindowKeys()
    ensures key in AllGone(keys, envs, i + 2) <==> PageDropped(key, envs, i)
  {
    if key in AllGone(keys, envs, i + 2) {
      var n := GoneSomewhere(key, keys, envs, i + 2);
      PageOfKey(key, keys, envs, i, n);
    }
    if page: int, limit: int :| PageDroppedAt(key, envs, i, page, limit) {
      var n := KeyOfPage(key, keys, envs, i, page, limit);
      GoneThere(key, keys, envs, i + 2, n);
    }
  }

  lemma {:induction false} ListsUnderFaults(w: World, id: int, envs: nat -> Env, i: nat) returns (gone: set<string>)
    requires w.connected && envs(i).outcome.Ok?
    ensures RunCall(w, DropTask(id), envs, i) == (w.(cache := w.cache - gone), Done, i + 102)
    ensures gone == Gone(TaskByID(id), envs(i)) + (Gone(TASKS_LIST, envs(i + 1)) + AllGone(WindowKeys(), envs, i + 2))
  {
    var first, second := Gone(TaskByID(id), envs(i)), Gone(TASKS_LIST, envs(i + 1));
    var third := AllGone(WindowKeys(), envs, i + 2);
    gone := first + (second + third);
    var w1 := w.(cache := w.cache - first);
    var w2 := w1.(cache := w1.cache - second);
    DropLoses(w, TaskByID(id), envs(i));
    DropLoses(w1, TASKS_LIST, envs(i + 1));
    RunUnfold(w, DropTask(id), envs, i);
    RunUnfold(w1, DropList, envs, i + 1);
    PagesUnderFaults(w2, WindowKeys(), envs, i + 2);
    LostTwice(w1.cache, second, third);
    LostTwice(w.cache, first, second + third);
  }

  /** Invalidation under every outcome of every command. A failed delete of the task's key leaves all list keys alone; a
      failed delete of a list key stops nothing. */
  lemma {:induction false} InvalidationUnderFaults(w: World, id: int, envs: nat -> Env, i: nat)
    ensures var (w', reply, i') := RunCall(w, DropTask(id), envs, i);
            reply == Done && Invalidated(w, id, envs, i, w', i')
  {
    RunUnfold(w, DropTask(id), envs, i);
    if w.connected {
      DropLoses(w, TaskByID(id), envs(i));
      if envs(i).outcome.Ok? {
        var gone := ListsUnderFaults(w, id, envs, i);
        forall key ensures key in gone <==> Dropped(key, id, envs, i) {
          WindowGone(key, WindowKeys(), envs, i);
        }
      }
    }
  }

  // ---- Writes -------------------------------------------------------------------------------------------

  /** An update or delete changes the repository and answers whatever Redis does, and invalidates what it changed. */
  ghost predicate Wrote(w: World, id: int, task: Option<Task>, envs: nat -> Env, i: nat, w': World, reply: Reply, i': nat) {
    if id !in w.data then w' == w && reply == NotFound && i' == i
    else
      && reply == Done
      && w'.data == (if task.Some? then w.data[id := task.value] else w.data - {id})
      && Invalidated(w.(data := w'.data), id, envs, i, w', i')
  }

  lemma {:induction false} UpdateUnderFaults(w: World, t: Task, envs: nat -> Env, i: nat)
    ensures var (w', reply, i') := RunCall(w, UpdateStart(t), envs, i); Wrote(w, t.id, Some(t), envs, i, w', reply, i')
  {
    RunUnfold(w, UpdateStart(t), envs, i);
    if t.id in w.data {
      InvalidationUnderFaults(w.(data := w.data[t.id := t]), t.id, envs, i);
    }
  }

  lemma {:induction false} DeleteUnderFaults(w: World, id: int, envs: nat -> Env, i: nat)
    ensures var (w', reply, i') := RunCall(w, DeleteStart(id), envs, i); Wrote(w, id, None, envs, i, w', reply, i')
  {
    RunUnfold(w, DeleteStart(id), envs, i);
    if id in w.data {
      InvalidationUnderFaults(w.(data := w.data - {id}), id, envs, i);
    }
  }
}
