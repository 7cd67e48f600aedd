/** The task service, its Redis client and its repository as objects. Every method does, in one go, the steps of
    the call it implements, whatever the Redis commands do. */
module CacheService {
  import opened CacheKeys
  import opened TaskRepo
  import opened CacheModel
  import opened CacheAgreement
  import opened CacheFaults

  /** A Redis server seen through its client. `envs(i)` decides the outcome of the i-th command and the random
      draw made for it. */
  class Redis {
    var entries: map<string, Entry>
    var now: int
    var ops: nat
    const envs: nat -> Env

    constructor (envs: nat -> Env, now: int)
      ensures entries == map[] && this.now == now && ops == 0 && this.envs == envs
    {
      entries, this.now, ops := map[], now, 0;
      this.envs := envs;
    }

    /** The stored value, or nothing when the key is missing, expired, or the command failed. */
    method Get(key: string) returns (value: Option<Payload>)
      modifies this`ops
      ensures ops == old(ops) + 1
      ensures value == if envs(old(ops)).outcome.Ok? && key in entries && now < entries[key].expiry
                       then Some(entries[key].payload) else None
    {
      var ok := envs(ops).outcome.Ok?;
      ops := ops + 1;
      value := if ok && key in entries && now < entries[key].expiry then Some(entries[key].payload) else None;
    }

    method Set(key: string, payload: Payload, ttl: int) returns (err: bool)
      modifies this`ops, this`entries
      ensures ops == old(ops) + 1 && err == !envs(old(ops)).outcome.Ok?
      ensures entries == if envs(old(ops)).outcome.Applied() then old(entries)[key := Entry(payload, now + ttl)]
                         else old(entries)
    {
      var outcome := envs(ops).outcome;
      ops := ops + 1;
      if outcome.Applied() {
        entries := entries[key := Entry(payload, now + ttl)];
      }
      err := !outcome.Ok?;
    }

    method Del(key: string) returns (err: bool)
      modifies this`ops, this`entries
      ensures ops == old(ops) + 1 && err == !envs(old(ops)).outcome.Ok?
      ensures entries == if envs(old(ops)).outcome.Applied() then old(entries) - {key} else old(entries)
    {
      var outcome := envs(ops).outcome;
      ops := ops + 1;
      if outcome.Applied() {
        entries := entries - {key};
      }
      err := !outcome.Ok?;
    }

    method Sleep(d: nat)
      modifies this`now
      ensures now == old(now) + d
    {
      now := now + d;
    }
  }

  lemma {:induction false} AgreesFromBoot(w: World, calls: seq<Op>, envs: nat -> Env, i: nat)
    requires w.connected
    ensures AllOk(envs) && w.cache == map[] && i == 0 && ListsKept(calls, |w.data|) ==>
              Served(w, calls, envs, i) == BareReplies(w.data, calls)
  {
    if AllOk(envs) && w.cache == map[] && i == 0 && ListsKept(calls, |w.data|) {
      ServiceRefinesRepo(w.data, w.now, w.cfg, calls, envs);
    }
  }

  class TaskService {
    const repo: Repo
    const redis: Redis?
    const cfg: Config

    constructor (repo: Repo, redis: Redis?, cfg: Config)
      ensures this.repo == repo && this.redis == redis && this.cfg == cfg
    {
      this.repo, this.redis, this.cfg := repo, redis, cfg;
    }

    ghost function View(): World
      reads repo, redis
    {
      if redis == null then World(repo.data, map[], 0, false, cfg)
      else World(repo.data, redis.entries, redis.now, true, cfg)
    }

    ghost function Envs(): nat -> Env {
      if redis == null then _ => Env(Ok, 0) else redis.envs
    }

    ghost function Ops(): nat
      reads redis
    {
      if redis == null then 0 else redis.ops
    }

    /** The outcome of running `c` from here on. */
    ghost function Outcome(c: Call): (World, Reply, nat)
      reads repo, redis
    {
      RunCall(View(), c, Envs(), Ops())
    }

    /** A session: calls one after another with the clock running in between. Its replies are those of the small steps,
        and the repository's own when Redis does not fail and only kept pages are listed. */
    method Serve(calls: seq<Op>) returns (replies: seq<Reply>)
      requires redis != null
      modifies repo, redis
      ensures replies == old(Served(View(), calls, Envs(), Ops()))
      ensures AllOk(Envs()) && old(redis.entries == map[] && redis.ops == 0) && ListsKept(calls, |old(repo.data)|) ==>
                replies == BareReplies(old(repo.data), calls)
    {
      replies := [];
      for i := 0 to |calls|
        invariant replies + Served(View(), calls[i..], Envs(), Ops()) == old(Served(View(), calls, Envs(), Ops()))
      {
        assert calls[i..][0] == calls[i] && calls[i..][1..] == calls[i + 1..];
        ghost var before := Served(View(), calls[i..], Envs(), Ops());
        match calls[i]
        case Tick(d) =>
          redis.Sleep(d);
          assert Served(View(), calls[i + 1..], Envs(), Ops()) == before;
        case Do(r) =>
          var reply := Call(r);
          assert before == [reply] + Served(View(), calls[i + 1..], Envs(), Ops());
          replies := replies + [reply];
      }
      AgreesFromBoot(old(View()), calls, Envs(), old(Ops()));
    }

    method Call(r: Request) returns (reply: Reply)
      modifies repo, if redis == null then {} else {redis}
      ensures (View(), reply, Ops()) == old(Outcome(Start(r)))
    {
      match r
      case Get(id) => reply := GetTaskByID(id);
      case List(page, limit) => reply := ListTasks(page, limit);
      case Update(t) => reply := UpdateTask(t);
      case Delete(id) => reply := DeleteTask(id);
    }

    method GetTaskByID(id: int) returns (reply: Reply)
      modifies if redis == null then {} else {redis}
      ensures (View(), reply, Ops()) == old(Outcome(GetStart(id)))
      ensures GotTask(old(View()), id, Envs(), old(Ops()), View(), reply, Ops())
    {
      GetUnderFaults(View(), id, Envs(), Ops());
      RunUnfold(View(), GetStart(id), Envs(), Ops());
      var key := TaskByID(id);
      if redis != null {
        var cached := redis.Get(key);
        if cached.Some? {
          if cached.value.Marker? {
            return NotFound;
          }
          if cached.value.TaskJson? {
            return Found(cached.value.task);
          }
        }
      }
      assert Outcome(GetRepo(id)) == old(Outcome(GetStart(id)));
      RunUnfold(View(), GetRepo(id), Envs(), Ops());
      var found := repo.Get(id);
      assert Outcome(GetStore(id, found)) == old(Outcome(GetStart(id)));
      RunUnfold(View(), GetStore(id, found), Envs(), Ops());
      if found.None? {
        CacheNotFound(key);
        return NotFound;
      }
      CacheTask(key, found.value, cfg.cacheTtl, cfg.jitter);
      return Found(found.value);
    }

    method ListTasks(page: int, limit: int) returns (reply: Reply)
      modifies if redis == null then {} else {redis}
      ensures (View(), reply, Ops()) == old(Outcome(ListStart(page, limit)))
      ensures ListedPage(old(View()), page, limit, Envs(), old(Ops()), View(), reply, Ops())
    {
      ListUnderFaults(View(), page, limit, Envs(), Ops());
      RunUnfold(View(), ListStart(page, limit), Envs(), Ops());
      var key := TasksListPaged(page, limit);
      if redis != null {
        var cached := redis.Get(key);
        if cached.Some? && cached.value.ListJson? {
          return Items(cached.value.tasks);
        }
      }
      assert Outcome(ListRepo(page, limit)) == old(Outcome(ListStart(page, limit)));
      var items := LoadPage(key, page, limit);
      return Items(items);
    }

    /** The rest of a list call that missed: reads the repository and caches the page. */
    method LoadPage(key: string, page: int, limit: int) returns (items: seq<Task>)
      requires key == TasksListPaged(page, limit)
      modifies if redis == null then {} else {redis}
      ensures (View(), Items(items), Ops()) == old(Outcome(ListRepo(page, limit)))
    {
      RunUnfold(View(), ListRepo(page, limit), Envs(), Ops());
      items := repo.List(page, limit);
      RunUnfold(View(), ListStore(page, limit, items), Envs(), Ops());
      CacheTaskList(key, items, cfg.listTtl, cfg.jitter);
    }

    method UpdateTask(t: Task) returns (reply: Reply)
      modifies repo, if redis == null then {} else {redis}
      ensures (View(), reply, Ops()) == old(Outcome(UpdateStart(t)))
      ensures Wrote(old(View()), t.id, Some(t), Envs(), old(Ops()), View(), reply, Ops())
    {
      UpdateUnderFaults(View(), t, Envs(), Ops());
      RunUnfold(View(), UpdateStart(t), Envs(), Ops());
      var ok := repo.Update(t);
      if !ok {
        return NotFound;
      }
      assert Outcome(DropTask(t.id)) == old(Outcome(UpdateStart(t)));
      InvalidateTask(t.id);
      return Done;
    }

    method DeleteTask(id: int) returns (reply: Reply)
      modifies repo, if redis == null then {} else {redis}
      ensures (View(), reply, Ops()) == old(Outcome(DeleteStart(id)))
      ensures Wrote(old(View()), id, None, Envs(), old(Ops()), View(), reply, Ops())
    {
      DeleteUnderFaults(View(), id, Envs(), Ops());
      RunUnfold(View(), DeleteStart(id), Envs(), Ops());
      var ok := repo.Delete(id);
      if !ok {
        return NotFound;
      }
      assert Outcome(DropTask(id)) == old(Outcome(DeleteStart(id)));
      InvalidateTask(id);
      return Done;
    }

    method CacheTask(key: string, t: Task, base: int, jitter: int)
      modifies if redis == null then {} else {redis}
      ensures Ops() == old(Ops()) + if redis == null then 0 else 1
      ensures View() == old(Store(View(), key, TaskJson(t), TTLWithJitter(base, jitter, Envs()(Ops()).draw), Envs()(Ops())))
    {
      if redis == null {
        return;
      }
      var ttl := TTLWithJitter(base, jitter, redis.envs(redis.ops).draw);
      var _ := redis.Set(key, TaskJson(t), ttl);
    }

    method CacheTaskList(key: string, items: seq<Task>, base: int, jitter: int)
      modifies if redis == null then {} else {redis}
      ensures Ops() == old(Ops()) + if redis == null then 0 else 1
      ensures View() == old(Store(View(), key, ListJson(items), TTLWithJitter(base, jitter, Envs()(Ops()).draw), Envs()(Ops())))
    {
      if redis == null {
        return;
      }
      var ttl := TTLWithJitter(base, jitter, redis.envs(redis.ops).draw);
      var _ := redis.Set(key, ListJson(items), ttl);
    }

    method CacheNotFound(key: string)
      modifies if redis == null then {} else {redis}
      ensures Ops() == old(Ops()) + if redis == null then 0 else 1
      ensures View() == old(Store(View(), key, Marker, TTLWithJitter(cfg.negativeTtl, Half(cfg.jitter), Envs()(Ops()).draw),
                                  Envs()(Ops())))
    {
      if redis == null {
        return;
      }
      var ttl := TTLWithJitter(cfg.negativeTtl, Half(cfg.jitter), redis.envs(redis.ops).draw);
      var _ := redis.Set(key, Marker, ttl);
    }

    method InvalidateTask(id: int)
      modifies if redis == null then {} else {redis}
      ensures (View(), Done, Ops()) == old(Outcome(DropTask(id)))
      ensures Invalidated(old(View()), id, Envs(), old(Ops()), View(), Ops())
    {
      InvalidationUnderFaults(View(), id, Envs(), Ops());
      RunUnfold(View(), DropTask(id), Envs(), Ops());
      if redis == null {
        return;
      }
      assert View().connected;
      var err := redis.Del(TaskByID(id));
      if err {
        return;
      }
      assert Outcome(DropList) == old(Outcome(DropTask(id)));
      DropLists();
    }

    /** The unpaged list key, then the paged keys page by page. */
    method DropLists()
      requires redis != null
      modifies redis
      ensures (View(), Done, Ops()) == old(Outcome(DropList))
    {
      RunUnfold(View(), DropList, Envs(), Ops());
      var _ := redis.Del(TASKS_LIST);
      assert WindowKeys()[0..] == WindowKeys();
      var page := 1;
      while page <= 5
        invariant 1 <= page <= 6
        invariant Outcome(DropPaged(WindowKeys()[20 * (page - 1)..])) == old(Outcome(DropList))
      {
        DropPagesOf(page);
        page := page + 1;
      }
      assert WindowKeys()[100..] == [];
      RunUnfold(View(), DropPaged([]), Envs(), Ops());
    }

    /** The inner loop: deletes the list keys of one page. */
    method DropPagesOf(page: int)
      requires redis != null && 1 <= page <= 5
      modifies redis
      ensures Outcome(DropPaged(WindowKeys()[20 * page..])) == old(Outcome(DropPaged(WindowKeys()[20 * (page - 1)..])))
    {
      var limit := 1;
      while limit <= 20
        invariant 1 <= limit <= 21
        invariant Outcome(DropPaged(WindowKeys()[20 * (page - 1) + limit - 1..]))
               == old(Outcome(DropPaged(WindowKeys()[20 * (page - 1)..])))
      {
        WindowPosition(page, limit);
        DropKey(TasksListPaged(page, limit), WindowKeys()[20 * (page - 1) + limit - 1..]);
        limit := limit + 1;
      }
    }

    method DropKey(key: string, ghost keys: seq<string>)
      requires redis != null && keys != [] && keys[0] == key
      modifies redis
      ensures Outcome(DropPaged(keys[1..])) == old(Outcome(DropPaged(keys)))
    {
      RunUnfold(View(), DropPaged(keys), Envs(), Ops());
      var _ := redis.Del(key);
    }
  }

  /** The loops' page and limit point at the n-th window key. */
  lemma {:induction false} WindowPosition(page: int, limit: int)
    requires InWindow(page, limit)
    ensures var n := 20 * (page - 1) + limit - 1;
            && 0 <= n < 100 && WindowKeys()[n..][0] == TasksListPaged(page, limit)
            && WindowKeys()[n..][1..] == WindowKeys()[n + 1..]
  {
    var n := 20 * (page - 1) + limit - 1;
    assert n / 20 == page - 1 && n % 20 == limit - 1;
    assert WindowKeys()[n] == WindowKey(n);
  }
}
