/** The cache-aside task service in small steps. A call is a program counter: each step is one Redis command or
    one repository call, so calls can be run one at a time or interleaved step by step. */
module CacheModel {
  import opened CacheKeys
  import opened TaskRepo

  /** What the serializer writes: the not-found marker, a task or a list of tasks. Decoding one kind as another
      is a decode error, and decoding undoes encoding. */
  datatype Payload = Marker | TaskJson(task: Task) | ListJson(tasks: seq<Task>)

  datatype Entry = Entry(payload: Payload, expiry: int)

  /** Durations in the service's time unit. */
  datatype Config = Config(cacheTtl: int, jitter: int, listTtl: int, negativeTtl: int)

  /** What one Redis command did. A failing write or delete may still have been applied by the server. */
  datatype Outcome = Ok | Failed(applied: bool) {
    predicate Applied() { Ok? || applied }
  }

  /** The environment's choices for one Redis command: its outcome and the random draw of its jitter. */
  datatype Env = Env(outcome: Outcome, draw: nat)

  datatype World = World(data: Data, cache: map<string, Entry>, now: int, connected: bool, cfg: Config)

  datatype Request = Get(id: int) | List(page: int, limit: int) | Update(task: Task) | Delete(id: int)

  datatype Reply = Found(task: Task) | NotFound | Items(tasks: seq<Task>) | Done

  datatype Call =
    | GetStart(id: int)
    | GetRepo(id: int)
    | GetStore(id: int, found: Option<Task>)
    | ListStart(page: int, limit: int)
    | ListRepo(page: int, limit: int)
    | ListStore(page: int, limit: int, items: seq<Task>)
    | UpdateStart(task: Task)
    | DeleteStart(id: int)
    | DropTask(id: int)
    | DropList
    | DropPaged(keys: seq<string>)
    | Returned(reply: Reply)

  function Start(r: Request): Call {
    match r
    case Get(id) => GetStart(id)
    case List(page, limit) => ListStart(page, limit)
    case Update(t) => UpdateStart(t)
    case Delete(id) => DeleteStart(id)
  }

  /** A draw from 0 .. jitter is added to the base, unless there is no positive jitter. */
  function TTLWithJitter(base: int, jitter: int, draw: nat): (ttl: int)
    ensures base <= ttl <= base + if jitter <= 0 then 0 else jitter
    ensures draw <= jitter ==> ttl - base == draw
  {
    if jitter <= 0 then base else base + draw % (jitter + 1)
  }

  /** Integer division by two, truncated toward zero. */
  function Half(n: int): (h: int)
    ensures if n >= 0 then n - 1 <= 2 * h <= n else n <= 2 * h <= n + 1
  {
    if n >= 0 then n / 2 else -(-n / 2)
  }

  function Lookup(w: World, key: string): Option<Payload> {
    if key in w.cache && w.now < w.cache[key].expiry then Some(w.cache[key].payload) else None
  }

  function Store(w: World, key: string, payload: Payload, ttl: int, env: Env): World {
    if w.connected && env.outcome.Applied() then w.(cache := w.cache[key := Entry(payload, w.now + ttl)]) else w
  }

  function Drop(w: World, key: string, env: Env): World {
    if w.connected && env.outcome.Applied() then w.(cache := w.cache - {key}) else w
  }

  /** The value a cached payload gives a get: nothing when it does not decode as a task. */
  function DecodeTask(p: Payload): Option<Reply> {
    match p
    case Marker => Some(NotFound)
    case TaskJson(t) => Some(Found(t))
    case ListJson(_) => None
  }

  function DecodeList(p: Payload): Option<Reply> {
    match p
    case ListJson(ts) => Some(Items(ts))
    case _ => None
  }

  function FromCache(w: World, key: string, env: Env): Option<Payload> {
    if w.connected && env.outcome.Ok? then Lookup(w, key) else None
  }

  /** One step of a call. */
  ghost function Advance(w: World, c: Call, env: Env): (World, Call) {
    match c
    case GetStart(id) =>
      var hit := FromCache(w, TaskByID(id), env);
      if hit.Some? && DecodeTask(hit.value).Some? then (w, Returned(DecodeTask(hit.value).value)) else (w, GetRepo(id))
    case GetRepo(id) => (w, GetStore(id, GetByID(w.data, id)))
    case GetStore(id, None) =>
      var ttl := TTLWithJitter(w.cfg.negativeTtl, Half(w.cfg.jitter), env.draw);
      (Store(w, TaskByID(id), Marker, ttl, env), Returned(NotFound))
    case GetStore(id, Some(t)) =>
      var ttl := TTLWithJitter(w.cfg.cacheTtl, w.cfg.jitter, env.draw);
      (Store(w, TaskByID(id), TaskJson(t), ttl, env), Returned(Found(t)))
    case ListStart(page, limit) =>
      var hit := FromCache(w, TasksListPaged(page, limit), env);
      if hit.Some? && DecodeList(hit.value).Some? then (w, Returned(DecodeList(hit.value).value))
      else (w, ListRepo(page, limit))
    case ListRepo(page, limit) => (w, ListStore(page, limit, ListPage(w.data, page, limit)))
    case ListStore(page, limit, items) =>
      var ttl := TTLWithJitter(w.cfg.listTtl, w.cfg.jitter, env.draw);
      (Store(w, TasksListPaged(page, limit), ListJson(items), ttl, env), Returned(Items(items)))
    case UpdateStart(t) =>
      if t.id in w.data then (w.(data := w.data[t.id := t]), DropTask(t.id)) else (w, Returned(NotFound))
    case DeleteStart(id) =>
      if id in w.data then (w.(data := w.data - {id}), DropTask(id)) else (w, Returned(NotFound))
    case DropTask(id) =>
      // a failed delete of the task key gives up: the list keys are left alone
      (Drop(w, TaskByID(id), env), if w.connected && env.outcome.Ok? then DropList else Returned(Done))
    case DropList => (Drop(w, TASKS_LIST, env), DropPaged(WindowKeys()))
    case DropPaged(keys) =>
      if keys == [] then (w, Returned(Done)) else (Drop(w, keys[0], env), DropPaged(keys[1..]))
    case Returned(_) => (w, c)
  }

  /** The step issues a Redis command. */
  predicate UsesRedis(w: World, c: Call) {
    w.connected && !(c.GetRepo? || c.ListRepo? || c.UpdateStart? || c.DeleteStart? || c.Returned? || c == DropPaged([]))
  }

  /** Steps a call still has to take. */
  function Remaining(c: Call): nat {
    match c
    case GetStart(_) => 3
    case GetRepo(_) => 2
    case GetStore(_, _) => 1
    case ListStart(_, _) => 3
    case ListRepo(_, _) => 2
    case ListStore(_, _, _) => 1
    case UpdateStart(_) => 104
    case DeleteStart(_) => 104
    case DropTask(_) => 103
    case DropList => 102
    case DropPaged(keys) => 1 + |keys|
    case Returned(_) => 0
  }

  /** A call run to completion with nothing in between: the final world, the reply, and the index of the next
      unused environment choice. `envs(i)` decides the i-th Redis command. */
  ghost function RunCall(w: World, c: Call, envs: nat -> Env, i: nat): (World, Reply, nat)
    decreases Remaining(c)
  {
    if c.Returned? then (w, c.reply, i)
    else
      var (w', c') := Advance(w, c, envs(i));
      RunCall(w', c', envs, if UsesRedis(w, c) then i + 1 else i)
  }

  lemma {:induction false} RunUnfold(w: World, c: Call, envs: nat -> Env, i: nat)
    requires !c.Returned?
    ensures var (w', c') := Advance(w, c, envs(i));
            RunCall(w, c, envs, i) == RunCall(w', c', envs, if UsesRedis(w, c) then i + 1 else i)
  {
  }

  /** What the bare repository answers and becomes. */
  ghost function Bare(data: Data, r: Request): (Data, Reply) {
    match r
    case Get(id) => (data, if id in data then Found(data[id]) else NotFound)
    case List(page, limit) => (data, Items(ListPage(data, page, limit)))
    case Update(t) => if t.id in data then (data[t.id := t], Done) else (data, NotFound)
    case Delete(id) => if id in data then (data - {id}, Done) else (data, NotFound)
  }

  ghost function Answer(data: Data, r: Request): Reply {
    Bare(data, r).1
  }
}
