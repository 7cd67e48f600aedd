/** Calls run one at a time, Redis commands that succeed: the service then answers exactly as the repository
    would, for every task and for exactly those pages that updates invalidate or that lie beyond the repository's
    last task. */
module CacheAgreement {
  import opened CacheKeys
  import opened TaskRepo
  import opened CacheModel

  ghost predicate AllOk(envs: nat -> Env) {
    forall i :: envs(i).outcome == Ok
  }

  predicate PositiveTtls(cfg: Config) {
    cfg.cacheTtl > 0 && cfg.listTtl > 0 && cfg.negativeTtl > 0
  }

  function TaskPayload(data: Data, id: int): Payload {
    if id in data then TaskJson(data[id]) else Marker
  }

  /** The page is invalidated by writes, or has been empty since the repository held n tasks. */
  predicate AlwaysListed(page: int, limit: int, n: nat) {
    InWindow(page, limit) || PageStart(page, limit) >= n
  }

  /** In a repository of at most n tasks every cached task agrees with the repository, and so does every cached page
      that is invalidated or lies beyond n. */
  ghost predicate Coherent(w: World, n: nat) {
    && |w.data| <= n
    && (forall id: int {:trigger TaskByID(id)} :: TaskByID(id) in w.cache ==>
          w.cache[TaskByID(id)].payload == TaskPayload(w.data, id))
    && (forall page: int, limit: int {:trigger TasksListPaged(page, limit)} ::
          AlwaysListed(page, limit, n) && TasksListPaged(page, limit) in w.cache ==>
            w.cache[TasksListPaged(page, limit)].payload == ListJson(ListPage(w.data, page, limit)))
  }

  lemma {:induction false} BeyondLast(data: Data, page: int, limit: int)
    requires PageStart(page, limit) >= |data|
    ensures ListPage(data, page, limit) == []
  {
    assert |SortedIds(data.Keys)| == |data|;
  }

  // ---- Invalidation -------------------------------------------------------------------------------------

  lemma {:induction false} DropThenDrop(cache: map<string, Entry>, key: string, keys: set<string>)
    ensures (cache - {key}) - keys == cache - ({key} + keys)
  {
  }

  function Elements(keys: seq<string>): set<string> {
    set key | key in keys
  }

  lemma {:induction false} DropPagedEffect(w: World, keys: seq<string>, envs: nat -> Env, i: nat)
    requires w.connected && AllOk(envs)
    ensures RunCall(w, DropPaged(keys), envs, i) == (w.(cache := w.cache - Elements(keys)), Done, i + |keys|)
    decreases |keys|
  {
    RunUnfold(w, DropPaged(keys), envs, i);
    if keys == [] {
      assert Elements(keys) == {} && w.cache - {} == w.cache;
    } else {
      assert envs(i).outcome == Ok;
      assert Elements(keys) == {keys[0]} + Elements(keys[1..]);
      DropThenDrop(w.cache, keys[0], Elements(keys[1..]));
      DropPagedEffect(Drop(w, keys[0], envs(i)), keys[1..], envs, i + 1);
    }
  }

  /** The keys that invalidating task `id` removes. */
  function DroppedFor(id: int): set<string> {
    {TaskByID(id)} + ({TASKS_LIST} + Elements(WindowKeys()))
  }

  /** Invalidation removes the task's key, the unpaged list key and the window's paged keys, and nothing else. */
  lemma {:induction false} InvalidationExact(w: World, id: int, envs: nat -> Env, i: nat)
    requires w.connected && AllOk(envs)
    ensures RunCall(w, DropTask(id), envs, i) == (w.(cache := w.cache - DroppedFor(id)), Done, i + 102)
  {
    var w1 := Drop(w, TaskByID(id), envs(i));
    var w2 := Drop(w1, TASKS_LIST, envs(i + 1));
    assert envs(i).outcome == Ok && envs(i + 1).outcome == Ok;
    RunUnfold(w, DropTask(id), envs, i);
    RunUnfold(w1, DropList, envs, i + 1);
    DropPagedEffect(w2, WindowKeys(), envs, i + 2);
    DropThenDrop(w1.cache, TASKS_LIST, Elements(WindowKeys()));
    DropThenDrop(w.cache, TaskByID(id), {TASKS_LIST} + Elements(WindowKeys()));
  }

  lemma {:induction false} DroppedKeys(id: int, page: int, limit: int)
    ensures InWindow(page, limit) <==> TasksListPaged(page, limit) in DroppedFor(id)
  {
    WindowKeysExact(page, limit);
    KeyFamiliesDisjoint(id, page, limit);
  }

  // ---- Coherence is kept --------------------------------------------------------------------------------

  lemma {:induction false} StoreTaskCoherent(w: World, n: nat, id: int, ttl: int, env: Env)
    requires Coherent(w, n)
    ensures Coherent(Store(w, TaskByID(id), TaskPayload(w.data, id), ttl, env), n)
  {
    var w' := Store(w, TaskByID(id), TaskPayload(w.data, id), ttl, env);
    forall j: int | TaskByID(j) in w'.cache ensures w'.cache[TaskByID(j)].payload == TaskPayload(w.data, j) {
      TaskKeysInjective(id, j);
    }
    forall page: int, limit: int | AlwaysListed(page, limit, n) && TasksListPaged(page, limit) in w'.cache
      ensures w'.cache[TasksListPaged(page, limit)].payload == ListJson(ListPage(w.data, page, limit))
    {
      KeyFamiliesDisjoint(id, page, limit);
    }
  }

  lemma {:induction false} StoreListCoherent(w: World, n: nat, page: int, limit: int, ttl: int, env: Env)
    requires Coherent(w, n)
    ensures Coherent(Store(w, TasksListPaged(page, limit), ListJson(ListPage(w.data, page, limit)), ttl, env), n)
  {
    var w' := Store(w, TasksListPaged(page, limit), ListJson(ListPage(w.data, page, limit)), ttl, env);
    forall j: int | TaskByID(j) in w'.cache ensures w'.cache[TaskByID(j)].payload == TaskPayload(w.data, j) {
      KeyFamiliesDisjoint(j, page, limit);
    }
    forall p: int, l: int | AlwaysListed(p, l, n) && TasksListPaged(p, l) in w'.cache
      ensures w'.cache[TasksListPaged(p, l)].payload == ListJson(ListPage(w.data, p, l))
    {
      PagedKeysInjective(page, limit, p, l);
    }
  }

  /** Whatever happens to task `id` in the repository, invalidating it restores coherence. */
  lemma {:induction false} InvalidateCoherent(w: World, n: nat, data: Data, id: int)
    requires Coherent(w, n) && |data| <= n
    requires forall j: int :: j != id ==> (j in data <==> j in w.data) && (j in data ==> data[j] == w.data[j])
    ensures Coherent(w.(data := data, cache := w.cache - DroppedFor(id)), n)
  {
    var w' := w.(data := data, cache := w.cache - DroppedFor(id));
    forall j: int | TaskByID(j) in w'.cache ensures w'.cache[TaskByID(j)].payload == TaskPayload(data, j) {
      TaskKeysInjective(id, j);
    }
    forall page: int, limit: int | AlwaysListed(page, limit, n) && TasksListPaged(page, limit) in w'.cache
      ensures w'.cache[TasksListPaged(page, limit)].payload == ListJson(ListPage(data, page, limit))
    {
      DroppedKeys(id, page, limit);
      BeyondLast(data, page, limit);
      BeyondLast(w.data, page, limit);
    }
  }

  // ---- One call -----------------------------------------------------------------------------------------

  lemma {:induction false} GetAgrees(w: World, n: nat, id: int, envs: nat -> Env, i: nat)
    requires w.connected && AllOk(envs) && Coherent(w, n)
    ensures var (w', reply, _) := RunCall(w, GetStart(id), envs, i);
            Coherent(w', n) && w' == w.(cache := w'.cache) && reply == Answer(w.data, Get(id))
  {
    assert envs(i).outcome == Ok;
    var (_, c1) := Advance(w, GetStart(id), envs(i));
    if c1 == GetRepo(id) {
      var c2 := GetStore(id, GetByID(w.data, id));
      var (w3, c3) := Advance(w, c2, envs(i + 1));
      assert RunCall(w, GetRepo(id), envs, i + 1) == RunCall(w, c2, envs, i + 1);
      assert RunCall(w, c2, envs, i + 1) == RunCall(w3, c3, envs, i + 2);
      StoreTaskCoherent(w, n, id, TTLWithJitter(w.cfg.cacheTtl, w.cfg.jitter, envs(i + 1).draw), envs(i + 1));
      StoreTaskCoherent(w, n, id, TTLWithJitter(w.cfg.negativeTtl, Half(w.cfg.jitter), envs(i + 1).draw), envs(i + 1));
    }
  }

  /** The world after the page was read from the repository and stored. */
  ghost function StoredPage(w: World, page: int, limit: int, env: Env): World {
    var ttl := TTLWithJitter(w.cfg.listTtl, w.cfg.jitter, env.draw);
    Store(w, TasksListPaged(page, limit), ListJson(ListPage(w.data, page, limit)), ttl, env)
  }

  lemma {:induction false} ListMiss(w: World, page: int, limit: int, envs: nat -> Env, i: nat)
    requires w.connected
    ensures RunCall(w, ListRepo(page, limit), envs, i)
         == (StoredPage(w, page, limit, envs(i)), Items(ListPage(w.data, page, limit)), i + 1)
  {
    var c2 := ListStore(page, limit, ListPage(w.data, page, limit));
    var (w3, c3) := Advance(w, c2, envs(i));
    assert RunCall(w, c2, envs, i) == RunCall(w3, c3, envs, i + 1);
  }

  /** A list call answers from a decodable cached page, or else reads the repository and stores the page. */
  lemma {:induction false} ListOutcome(w: World, page: int, limit: int, envs: nat -> Env, i: nat)
    requires w.connected && AllOk(envs)
    ensures var hit := Lookup(w, TasksListPaged(page, limit));
            RunCall(w, ListStart(page, limit), envs, i) ==
            (if hit.Some? && hit.value.ListJson? then (w, Items(hit.value.tasks), i + 1)
             else (StoredPage(w, page, limit, envs(i + 1)), Items(ListPage(w.data, page, limit)), i + 2))
  {
    assert envs(i).outcome == Ok;
    ListMiss(w, page, limit, envs, i + 1);
  }

  lemma {:induction false} ListCall(w: World, n: nat, page: int, limit: int, envs: nat -> Env, i: nat)
    requires w.connected && AllOk(envs) && Coherent(w, n)
    ensures var (w', reply, _) := RunCall(w, ListStart(page, limit), envs, i);
            && Coherent(w', n) && w' == w.(cache := w'.cache)
            && (AlwaysListed(page, limit, n) ==> reply == Answer(w.data, List(page, limit)))
  {
    ListOutcome(w, page, limit, envs, i);
    StoreListCoherent(w, n, page, limit, TTLWithJitter(w.cfg.listTtl, w.cfg.jitter, envs(i + 1).draw), envs(i + 1));
  }

  lemma {:induction false} WriteAgrees(w: World, n: nat, r: Request, envs: nat -> Env, i: nat)
    requires w.connected && AllOk(envs) && Coherent(w, n) && (r.Update? || r.Delete?)
    ensures var (w', reply, _) := RunCall(w, Start(r), envs, i);
            && Coherent(w', n) && (w'.data, reply) == Bare(w.data, r)
            && w' == w.(data := w'.data, cache := w'.cache)
  {
    var id := if r.Update? then r.task.id else r.id;
    if id in w.data {
      var data := Bare(w.data, r).0;
      assert RunCall(w, Start(r), envs, i) == RunCall(w.(data := data), DropTask(id), envs, i);
      InvalidationExact(w.(data := data), id, envs, i);
      InvalidateCoherent(w, n, data, id);
    }
  }

  // ---- Every sequence of calls --------------------------------------------------------------------------

  datatype Op = Do(r: Request) | Tick(d: nat)

  /** The service's replies to a sequence of calls and clock ticks. */
  ghost function Served(w: World, ops: seq<Op>, envs: nat -> Env, i: nat): seq<Reply>
    decreases |ops|
  {
    if ops == [] then []
    else if ops[0].Tick? then Served(w.(now := w.now + ops[0].d), ops[1..], envs, i)
    else
      var (w', reply, i') := RunCall(w, Start(ops[0].r), envs, i);
      [reply] + Served(w', ops[1..], envs, i')
  }

  /** The bare repository's replies to the same sequence. */
  ghost function BareReplies(data: Data, ops: seq<Op>): seq<Reply>
    decreases |ops|
  {
    if ops == [] then []
    else if ops[0].Tick? then BareReplies(data, ops[1..])
    else
      var (data', reply) := Bare(data, ops[0].r);
      [reply] + BareReplies(data', ops[1..])
  }

  predicate ListsKept(ops: seq<Op>, n: nat) {
    forall i :: 0 <= i < |ops| && ops[i].Do? && ops[i].r.List? ==> AlwaysListed(ops[i].r.page, ops[i].r.limit, n)
  }

  lemma {:induction false} CoherentAgrees(w: World, n: nat, ops: seq<Op>, envs: nat -> Env, i: nat)
    requires w.connected && AllOk(envs) && Coherent(w, n) && ListsKept(ops, n)
    ensures Served(w, ops, envs, i) == BareReplies(w.data, ops)
    decreases |ops|
  {
    if ops != [] {
      if ops[0].Tick? {
        CoherentAgrees(w.(now := w.now + ops[0].d), n, ops[1..], envs, i);
      } else {
        var r := ops[0].r;
        match r {
          case Get(id) => GetAgrees(w, n, id, envs, i);
          case List(page, limit) => ListCall(w, n, page, limit, envs, i);
          case _ => WriteAgrees(w, n, r, envs, i);
        }
        var (w', _, i') := RunCall(w, Start(r), envs, i);
        CoherentAgrees(w', n, ops[1..], envs, i');
      }
    }
  }

  ghost function Boot(data: Data, now: int, connected: bool, cfg: Config): World {
    World(data, map[], now, connected, cfg)
  }

  /** Exact agreement: from an empty cache, every sequence of gets, updates, deletes, clock ticks and lists of pages
      that are invalidated or lie beyond the last task is answered as by the bare repository. */
  lemma {:induction false} ServiceRefinesRepo(data: Data, now: int, cfg: Config, ops: seq<Op>, envs: nat -> Env)
    requires AllOk(envs) && ListsKept(ops, |data|)
    ensures Served(Boot(data, now, true, cfg), ops, envs, 0) == BareReplies(data, ops)
  {
    CoherentAgrees(Boot(data, now, true, cfg), |data|, ops, envs, 0);
  }

  /** Without Redis the service is the repository, for every page and limit. */
  lemma {:induction false} DisconnectedAgrees(w: World, ops: seq<Op>, envs: nat -> Env, i: nat)
    requires !w.connected
    ensures Served(w, ops, envs, i) == BareReplies(w.data, ops)
    decreases |ops|
  {
    if ops != [] {
      if ops[0].Tick? {
        DisconnectedAgrees(w.(now := w.now + ops[0].d), ops[1..], envs, i);
      } else {
        var next := RunCall(w, Start(ops[0].r), envs, i);
        assert ops == [Do(ops[0].r)] + ops[1..];
        DisconnectedCall(w, ops[0].r, envs, i);
        ServedFirst(w, ops[0].r, ops[1..], envs, i, next);
        BareFirst(w.data, ops[0].r, ops[1..]);
        DisconnectedAgrees(next.0, ops[1..], envs, next.2);
      }
    }
  }

  lemma {:induction false} DisconnectedCall(w: World, r: Request, envs: nat -> Env, i: nat)
    requires !w.connected
    ensures var (w', reply, i') := RunCall(w, Start(r), envs, i);
            (w'.data, reply) == Bare(w.data, r) && !w'.connected
  {
    match r
    case Get(id) => DisconnectedGet(w, id, envs, i);
    case List(page, limit) => DisconnectedList(w, page, limit, envs, i);
    case Update(t) => DisconnectedDrop(w.(data := Bare(w.data, r).0), t.id, envs, i);
    case Delete(id) => DisconnectedDrop(w.(data := Bare(w.data, r).0), id, envs, i);
  }

  lemma {:induction false} DisconnectedGet(w: World, id: int, envs: nat -> Env, i: nat)
    requires !w.connected
    ensures RunCall(w, GetStart(id), envs, i) == (w, Answer(w.data, Get(id)), i)
  {
    var c2 := GetStore(id, GetByID(w.data, id));
    assert RunCall(w, GetStart(id), envs, i) == RunCall(w, GetRepo(id), envs, i);
    assert RunCall(w, GetRepo(id), envs, i) == RunCall(w, c2, envs, i);
    assert RunCall(w, c2, envs, i) == RunCall(w, Returned(Answer(w.data, Get(id))), envs, i);
  }

  lemma {:induction false} DisconnectedList(w: World, page: int, limit: int, envs: nat -> Env, i: nat)
    requires !w.connected
    ensures RunCall(w, ListStart(page, limit), envs, i) == (w, Answer(w.data, List(page, limit)), i)
  {
    RunUnfold(w, ListStart(page, limit), envs, i);
    RunUnfold(w, ListRepo(page, limit), envs, i);
    DisconnectedListStore(w, page, limit, ListPage(w.data, page, limit), envs, i);
  }

  lemma {:induction false} DisconnectedListStore(w: World, page: int, limit: int, items: seq<Task>, envs: nat -> Env, i: nat)
    requires !w.connected
    ensures RunCall(w, ListStore(page, limit, items), envs, i) == (w, Items(items), i)
  {
    RunUnfold(w, ListStore(page, limit, items), envs, i);
  }

  lemma {:induction false} DisconnectedDrop(w: World, id: int, envs: nat -> Env, i: nat)
    requires !w.connected
    ensures RunCall(w, DropTask(id), envs, i) == (w, Done, i)
  {
    assert RunCall(w, DropTask(id), envs, i) == RunCall(w, Returned(Done), envs, i);
  }

  // ---- The window is exact ------------------------------------------------------------------------------

  /** The first task of the page, with another title. */
  ghost function Retitled(data: Data, page: int, limit: int): Task
    requires PageStart(page, limit) < |AllTasks(data)|
  {
    var t := AllTasks(data)[PageStart(page, limit)];
    t.(title := t.title + "!")
  }

  /** Cache the page, retitle its first task, and read the page again. */
  ghost function StaleOps(data: Data, page: int, limit: int): seq<Op>
    requires PageStart(page, limit) < |AllTasks(data)|
  {
    [Do(List(page, limit)), Do(Update(Retitled(data, page, limit))), Do(List(page, limit))]
  }

  lemma {:induction false} FirstOfPage(data: Data, page: int, limit: int)
    requires PageStart(page, limit) < |AllTasks(data)|
    ensures ListPage(data, page, limit) != [] && ListPage(data, page, limit)[0] == AllTasks(data)[PageStart(page, limit)]
  {
    OffsetOnPage(AllTasks(data), PageStart(page, limit), EffectiveLimit(limit), 0);
  }

  lemma {:induction false} RetitledPage(data: Data, page: int, limit: int)
    requires Keyed(data) && PageStart(page, limit) < |AllTasks(data)|
    ensures var t := Retitled(data, page, limit);
            t.id in data && ListPage(data[t.id := t], page, limit) != ListPage(data, page, limit)
  {
    var t, n := Retitled(data, page, limit), PageStart(page, limit);
    var ids, data' := SortedIds(data.Keys), data[t.id := t];
    assert data[ids[n]] == AllTasks(data)[n] && ids[n] in data;
    assert data'.Keys == data.Keys;
    assert AllTasks(data')[n] == data'[ids[n]] == t;
    FirstOfPage(data, page, limit);
    FirstOfPage(data', page, limit);
    assert |t.title| == |data[ids[n]].title| + 1;
  }

  lemma {:induction false} OutsideWindowStale(data: Data, page: int, limit: int, now: int, cfg: Config, envs: nat -> Env)
    requires Keyed(data) && PositiveTtls(cfg) && AllOk(envs)
    requires !InWindow(page, limit) && PageStart(page, limit) < |AllTasks(data)|
    ensures Served(Boot(data, now, true, cfg), StaleOps(data, page, limit), envs, 0)
         != BareReplies(data, StaleOps(data, page, limit))
  {
    var t := Retitled(data, page, limit);
    RetitledPage(data, page, limit);
    ThirdReplyStale(Boot(data, now, true, cfg), page, limit, t, envs);
  }

  /** Outside the window a list repeated around an update returns the page as it was before. */
  lemma {:induction false} ThirdReplyStale(w0: World, page: int, limit: int, t: Task, envs: nat -> Env)
    requires w0.connected && AllOk(envs) && PositiveTtls(w0.cfg) && w0.cache == map[]
    requires !InWindow(page, limit) && t.id in w0.data
    ensures var ops := [Do(List(page, limit)), Do(Update(t)), Do(List(page, limit))];
            && |Served(w0, ops, envs, 0)| == |BareReplies(w0.data, ops)| == 3
            && Served(w0, ops, envs, 0)[2] == Items(ListPage(w0.data, page, limit))
            && BareReplies(w0.data, ops)[2] == Items(ListPage(w0.data[t.id := t], page, limit))
  {
    ThreeReplies(w0, List(page, limit), Update(t), List(page, limit), envs);
    var w1 := StoredPage(w0, page, limit, envs(1));
    FirstListCaches(w0, page, limit, envs);
    var (w2, r2, i2) := RunCall(w1, UpdateStart(t), envs, 2);
    UpdateKeepsOutside(w1, t, page, limit, envs, 2);
    ListOutcome(w2, page, limit, envs, i2);
  }

  lemma {:induction false} UpdateKeepsOutside(w: World, t: Task, page: int, limit: int, envs: nat -> Env, i: nat)
    requires w.connected && AllOk(envs) && !InWindow(page, limit) && t.id in w.data
    ensures var (w', _, _) := RunCall(w, UpdateStart(t), envs, i);
            Lookup(w', TasksListPaged(page, limit)) == Lookup(w, TasksListPaged(page, limit)) && w'.connected
  {
    var w1 := w.(data := w.data[t.id := t]);
    assert RunCall(w, UpdateStart(t), envs, i) == RunCall(w1, DropTask(t.id), envs, i);
    InvalidationExact(w1, t.id, envs, i);
    DroppedKeys(t.id, page, limit);
  }

  lemma {:induction false} ServedFirst(w: World, r: Request, rest: seq<Op>, envs: nat -> Env, i: nat, next: (World, Reply, nat))
    requires RunCall(w, Start(r), envs, i) == next
    ensures Served(w, [Do(r)] + rest, envs, i) == [next.1] + Served(next.0, rest, envs, next.2)
  {
    var ops := [Do(r)] + rest;
    assert ops[0] == Do(r) && ops[1..] == rest;
  }

  lemma {:induction false} BareFirst(data: Data, r: Request, rest: seq<Op>)
    ensures BareReplies(data, [Do(r)] + rest) == [Bare(data, r).1] + BareReplies(Bare(data, r).0, rest)
  {
    var ops := [Do(r)] + rest;
    assert ops[0] == Do(r) && ops[1..] == rest;
  }

  lemma {:induction false} ThreeServed(w: World, a: Request, b: Request, c: Request, envs: nat -> Env,
                                       x: (World, Reply, nat), y: (World, Reply, nat), z: (World, Reply, nat))
    requires RunCall(w, Start(a), envs, 0) == x && RunCall(x.0, Start(b), envs, x.2) == y
    requires RunCall(y.0, Start(c), envs, y.2) == z
    ensures Served(w, [Do(a)] + ([Do(b)] + ([Do(c)] + [])), envs, 0) == [x.1, y.1, z.1]
  {
    ServedFirst(w, a, [Do(b)] + ([Do(c)] + []), envs, 0, x);
    ServedFirst(x.0, b, [Do(c)] + [], envs, x.2, y);
    ServedFirst(y.0, c, [], envs, y.2, z);
  }

  lemma {:induction false} ThreeBare(data: Data, a: Request, b: Request, c: Request)
    ensures var (d1, r1) := Bare(data, a);
            var (d2, r2) := Bare(d1, b);
            BareReplies(data, [Do(a)] + ([Do(b)] + ([Do(c)] + []))) == [r1, r2, Bare(d2, c).1]
  {
    var d1 := Bare(data, a).0;
    var d2 := Bare(d1, b).0;
    BareFirst(data, a, [Do(b)] + ([Do(c)] + []));
    BareFirst(d1, b, [Do(c)] + []);
    BareFirst(d2, c, []);
  }

  lemma {:induction false} ThreeReplies(w0: World, a: Request, b: Request, c: Request, envs: nat -> Env)
    ensures var (w1, r1, i1) := RunCall(w0, Start(a), envs, 0);
            var (w2, r2, i2) := RunCall(w1, Start(b), envs, i1);
            var (w3, r3, i3) := RunCall(w2, Start(c), envs, i2);
            Served(w0, [Do(a), Do(b), Do(c)], envs, 0) == [r1, r2, r3]
    ensures var (d1, r1) := Bare(w0.data, a);
            var (d2, r2) := Bare(d1, b);
            var (d3, r3) := Bare(d2, c);
            BareReplies(w0.data, [Do(a), Do(b), Do(c)]) == [r1, r2, r3]
  {
    var x := RunCall(w0, Start(a), envs, 0);
    var y := RunCall(x.0, Start(b), envs, x.2);
    assert [Do(a), Do(b), Do(c)] == [Do(a)] + ([Do(b)] + ([Do(c)] + []));
    ThreeServed(w0, a, b, c, envs, x, y, RunCall(y.0, Start(c), envs, y.2));
    ThreeBare(w0.data, a, b, c);
  }

  lemma {:induction false} FirstListCaches(w: World, page: int, limit: int, envs: nat -> Env)
    requires w.connected && AllOk(envs) && PositiveTtls(w.cfg) && w.cache == map[]
    ensures var w' := StoredPage(w, page, limit, envs(1));
            && RunCall(w, ListStart(page, limit), envs, 0) == (w', Items(ListPage(w.data, page, limit)), 2)
            && Lookup(w', TasksListPaged(page, limit)) == Some(ListJson(ListPage(w.data, page, limit)))
            && w'.connected && w'.data == w.data
  {
    assert envs(0).outcome == Ok && envs(1).outcome == Ok;
    ListOutcome(w, page, limit, envs, 0);
  }

  /** The service over this repository lists the page as the repository does, whatever calls came before. */
  ghost predicate ListsExactly(data: Data, page: int, limit: int, now: int, cfg: Config, envs: nat -> Env) {
    forall ops: seq<Op> | OnlyLists(ops, page, limit) ::
      Served(Boot(data, now, true, cfg), ops, envs, 0) == BareReplies(data, ops)
  }

  predicate OnlyLists(ops: seq<Op>, page: int, limit: int) {
    forall i :: 0 <= i < |ops| && ops[i].Do? && ops[i].r.List? ==> ops[i].r == List(page, limit)
  }

  /** For every repository, the pages that are always listed correctly are exactly those of the window and those beyond
      the last task. */
  lemma {:induction false} WindowIsExact(data: Data, page: int, limit: int, now: int, cfg: Config, envs: nat -> Env)
    requires Keyed(data) && PositiveTtls(cfg) && AllOk(envs)
    ensures ListsExactly(data, page, limit, now, cfg, envs) <==> InWindow(page, limit) || PageStart(page, limit) >= |data|
  {
    assert |SortedIds(data.Keys)| == |data|;
    if AlwaysListed(page, limit, |data|) {
      KeptPageAgrees(data, page, limit, now, cfg, envs);
    } else {
      OtherPageDeviates(data, page, limit, now, cfg, envs);
    }
  }

  lemma {:induction false} KeptPageAgrees(data: Data, page: int, limit: int, now: int, cfg: Config, envs: nat -> Env)
    requires AllOk(envs) && AlwaysListed(page, limit, |data|)
    ensures ListsExactly(data, page, limit, now, cfg, envs)
  {
    forall ops: seq<Op> | OnlyLists(ops, page, limit)
      ensures Served(Boot(data, now, true, cfg), ops, envs, 0) == BareReplies(data, ops)
    {
      ServiceRefinesRepo(data, now, cfg, ops, envs);
    }
  }

  lemma {:induction false} OtherPageDeviates(data: Data, page: int, limit: int, now: int, cfg: Config, envs: nat -> Env)
    requires Keyed(data) && PositiveTtls(cfg) && AllOk(envs)
    requires !InWindow(page, limit) && PageStart(page, limit) < |AllTasks(data)|
    ensures !ListsExactly(data, page, limit, now, cfg, envs)
  {
    OutsideWindowStale(data, page, limit, now, cfg, envs);
    assert OnlyLists(StaleOps(data, page, limit), page, limit);
  }

  /** The repository a server starts with; due dates in seconds since 1970. */
  const NEW_REPO: Data :=
    map[1 := Task(1, "Изучить Redis", "Освоить cache-aside", 1768867200),
        2 := Task(2, "Написать кэш", "Инвалидация кэша по id", 1768953600)]

  /** For the repository a server starts with: page 1 of size 21 goes stale, page 6 of size 1 never does. */
  lemma {:induction false} NewRepoPages(now: int, cfg: Config, envs: nat -> Env)
    requires PositiveTtls(cfg) && AllOk(envs)
    ensures !ListsExactly(NEW_REPO, 1, 21, now, cfg, envs) && ListsExactly(NEW_REPO, 6, 1, now, cfg, envs)
  {
    assert NEW_REPO.Keys == {1, 2} && |NEW_REPO| == 2;
    PageOffsetIsProduct(1, 21);
    PageOffsetIsProduct(6, 1);
    WindowIsExact(NEW_REPO, 1, 21, now, cfg, envs);
    WindowIsExact(NEW_REPO, 6, 1, now, cfg, envs);
  }
}
