/** Any number of calls interleaved step by step, Redis commands that may fail, keys that may be evicted, and a
    running clock. What the service then still guarantees: bounded staleness, and negative answers that are never
    wrong. */
module CacheStaleness {
  import opened CacheKeys
  import opened TaskRepo
  import opened CacheModel

  datatype Event =
    | Booted
    | Began(call: nat, request: Request)
    | Moved(call: nat, before: Call)
    | Ticked
    | Evicted

  /** The clock and the repository right after an event. */
  datatype Moment = Moment(now: int, data: Data, event: Event)

  /** Where a cache entry came from: the call that wrote it, and the moments at which that call began, read the
      repository and wrote the entry. */
  datatype Origin = Origin(call: nat, began: nat, read: nat, wrote: nat)

  datatype Source = Unknown | Direct(read: nat) | Cached(origin: Origin)

  /** A call under way or returned; `ended` is the moment of its last step. */
  datatype Flight = Flight(request: Request, call: Call, began: nat, source: Source, ended: nat)

  datatype System = System(world: World, flights: seq<Flight>, origins: map<string, Origin>, history: seq<Moment>)

  datatype Action = Begin(r: Request) | Move(call: nat, env: Env) | Tick(d: nat) | Evict(key: string)

  ghost function Boot(data: Data, now: int, connected: bool, cfg: Config): System {
    System(World(data, map[], now, connected, cfg), [], map[], [Moment(now, data, Booted)])
  }

  ghost predicate Can(s: System, a: Action) {
    a.Move? ==> a.call < |s.flights| && !s.flights[a.call].call.Returned?
  }

  ghost function Do(s: System, a: Action): System
    requires Can(s, a)
  {
    match a
    case Begin(r) =>
      s.(flights := s.flights + [Flight(r, Start(r), |s.history|, Unknown, 0)],
      history := s.history + [Moment(s.world.now, s.world.data, Began(|s.flights|, r))])
    case Move(k, env) => DoMove(s, k, env)
    case Tick(d) =>
      s.(world := s.world.(now := s.world.now + d),
      history := s.history + [Moment(s.world.now + d, s.world.data, Ticked)])
    case Evict(key) =>
      s.(world := s.world.(cache := s.world.cache - {key}),
      history := s.history + [Moment(s.world.now, s.world.data, Evicted)])
  }

  /** The cache key a get or list uses. */
  function KeyOf(r: Request): string
    requires r.Get? || r.List?
  {
    if r.Get? then TaskByID(r.id) else TasksListPaged(r.page, r.limit)
  }

  ghost function DoMove(s: System, k: nat, env: Env): System
    requires k < |s.flights|
  {
    var f, here := s.flights[k], |s.history|;
    var (w, c) := Advance(s.world, f.call, env);
    var moved := f.(call := c, ended := here, source := SourceAfter(s, f, c));
    var wrote := (f.call.GetStore? || f.call.ListStore?) && f.source.Direct? && (f.request.Get? || f.request.List?);
    System(w, s.flights[k := moved],
           if wrote && w.cache != s.world.cache
           then s.origins[KeyOf(f.request) := Origin(k, f.began, f.source.read, here)] else s.origins,
           s.history + [Moment(w.now, w.data, Moved(k, f.call))])
  }

  /** A repository read is a direct source; a call that returns from its first step returns a cached value. */
  ghost function SourceAfter(s: System, f: Flight, c: Call): Source {
    if f.call.GetRepo? || f.call.ListRepo? then Direct(|s.history|)
    else if (f.call.GetStart? || f.call.ListStart?) && (f.request.Get? || f.request.List?)
            && c.Returned? && KeyOf(f.request) in s.origins then Cached(s.origins[KeyOf(f.request)])
    else f.source
  }

  ghost predicate Runnable(s: System, acts: seq<Action>)
    decreases |acts|
  {
    acts == [] || (Can(s, acts[0]) && Runnable(Do(s, acts[0]), acts[1..]))
  }

  ghost function Exec(s: System, acts: seq<Action>): System
    requires Runnable(s, acts)
    decreases |acts|
  {
    if acts == [] then s else Exec(Do(s, acts[0]), acts[1..])
  }

  // ---- The invariant ------------------------------------------------------------------------------------

  function Positive(n: int): int {
    if n <= 0 then 0 else n
  }

  /** Longest life of a cache entry holding `reply`. */
  function MaxAge(cfg: Config, reply: Reply): int {
    match reply
    case NotFound => cfg.negativeTtl + Positive(Half(cfg.jitter))
    case Items(_) => cfg.listTtl + Positive(cfg.jitter)
    case _ => cfg.cacheTtl + Positive(cfg.jitter)
  }

  function Encode(reply: Reply): Payload {
    match reply
    case Found(t) => TaskJson(t)
    case Items(ts) => ListJson(ts)
    case _ => Marker
  }

  ghost predicate Chronicle(s: System) {
    && |s.history| > 0
    && s.history[|s.history| - 1].now == s.world.now && s.history[|s.history| - 1].data == s.world.data
    && (forall i, j :: 0 <= i <= j < |s.history| ==>
          s.history[i].now <= s.history[j].now && s.history[j].data.Keys <= s.history[i].data.Keys)
  }

  predicate Began?(h: seq<Moment>, m: nat, call: nat, r: Request) {
    m < |h| && h[m].event == Began(call, r)
  }

  /** At moment `m` call `call` read the repository for request `r`. */
  predicate Read?(h: seq<Moment>, m: nat, call: nat, r: Request)
    requires r.Get? || r.List?
  {
    m < |h| && h[m].event == Moved(call, if r.Get? then GetRepo(r.id) else ListRepo(r.page, r.limit))
  }

  /** At moment `m` call `call` wrote the reply it had read for request `r` to the cache. */
  predicate Wrote?(h: seq<Moment>, m: nat, call: nat, r: Request)
    requires r.Get? || r.List?
  {
    m < |h| && h[m].event.Moved? && h[m].event.call == call &&
    if r.Get? then h[m].event.before.GetStore? && h[m].event.before.id == r.id
    else h[m].event.before.ListStore? && h[m].event.before.page == r.page && h[m].event.before.limit == r.limit
  }

  /** The origin names three moments of one call for request `r`, in order. */
  predicate Sound(h: seq<Moment>, o: Origin, r: Request)
    requires r.Get? || r.List?
  {
    o.began < o.read < o.wrote < |h|
    && Began?(h, o.began, o.call, r) && Read?(h, o.read, o.call, r) && Wrote?(h, o.wrote, o.call, r)
  }

  /** The cached value for `r` is the repository's answer at the read moment, and expires in time. */
  ghost predicate EntryExplained(s: System, r: Request)
    requires r.Get? || r.List?
  {
    KeyOf(r) in s.world.cache ==>
      && KeyOf(r) in s.origins
      && var o, e := s.origins[KeyOf(r)], s.world.cache[KeyOf(r)];
         && Sound(s.history, o, r)
         && var answer := Answer(s.history[o.read].data, r);
            e.payload == Encode(answer) && e.expiry <= s.history[o.wrote].now + MaxAge(s.world.cfg, answer)
  }

  /** The reply of a returned get or list was the repository's answer at a moment of this very call, or at a
      moment of the call that cached it, and then it was cached less than its maximal age ago. */
  ghost predicate Explained(s: System, k: nat, reply: Reply)
    requires k < |s.flights| && (s.flights[k].request.Get? || s.flights[k].request.List?)
  {
    var f := s.flights[k];
    && f.began < f.ended < |s.history|
    && match f.source
       case Unknown => false
       case Direct(read) =>
         && f.began < read < f.ended && Read?(s.history, read, k, f.request)
         && reply == Answer(s.history[read].data, f.request)
       case Cached(o) =>
         && Sound(s.history, o, f.request) && o.wrote < f.ended
         && reply == Answer(s.history[o.read].data, f.request)
         && s.history[f.ended].now < s.history[o.wrote].now + MaxAge(s.world.cfg, reply)
  }

  /** The flight's program counter fits its request, and what it carries was read when it says. */
  ghost predicate FlightFits(s: System, k: nat)
    requires k < |s.flights|
  {
    var f := s.flights[k];
    && Began?(s.history, f.began, k, f.request)
    && match f.call
       case GetStart(id) => f.request == Get(id)
       case GetRepo(id) => f.request == Get(id)
       case GetStore(id, found) => f.request == Get(id) && Carries(s, k, if found.Some? then Found(found.value) else NotFound)
       case ListStart(page, limit) => f.request == List(page, limit)
       case ListRepo(page, limit) => f.request == List(page, limit)
       case ListStore(page, limit, items) => f.request == List(page, limit) && Carries(s, k, Items(items))
       case Returned(reply) => f.request.Get? || f.request.List? ==> Explained(s, k, reply)
       case _ => f.request.Update? || f.request.Delete?
  }

  ghost predicate Carries(s: System, k: nat, reply: Reply)
    requires k < |s.flights| && (s.flights[k].request.Get? || s.flights[k].request.List?)
  {
    var f := s.flights[k];
    && f.source.Direct? && f.began < f.source.read < |s.history|
    && Read?(s.history, f.source.read, k, f.request)
    && reply == Answer(s.history[f.source.read].data, f.request)
  }

  ghost predicate Inv(s: System) {
    && Chronicle(s)
    && (forall k: nat :: k < |s.flights| ==> FlightFits(s, k))
    && (forall id: int :: EntryExplained(s, Get(id)))
    && (forall page: int, limit: int :: EntryExplained(s, List(page, limit)))
  }

  // ---- The invariant is kept ----------------------------------------------------------------------------

  /** A step that appends one moment keeps every flight it does not touch. */
  lemma {:induction false} FlightKept(s: System, t: System, k: nat)
    requires k < |s.flights| && k < |t.flights| && t.flights[k] == s.flights[k] && FlightFits(s, k)
    requires |t.history| == |s.history| + 1 && t.history[..|s.history|] == s.history && t.world.cfg == s.world.cfg
    ensures FlightFits(t, k)
  {
    HistoryExtended(s.history, t.history);
    match s.flights[k].call
    case GetStore(id, found) => CarriesKept(s, t, k, if found.Some? then Found(found.value) else NotFound);
    case ListStore(_, _, items) => CarriesKept(s, t, k, Items(items));
    case Returned(reply) =>
      if s.flights[k].request.Get? || s.flights[k].request.List? {
        ExplainedKept(s, t, k, reply);
      }
    case _ =>
  }

  /** The second history starts with the first. */
  predicate Extends(h: seq<Moment>, later: seq<Moment>) {
    |h| <= |later| && forall i :: 0 <= i < |h| ==> later[i] == h[i]
  }

  lemma {:induction false} HistoryExtended(h: seq<Moment>, later: seq<Moment>)
    requires |h| <= |later| && later[..|h|] == h
    ensures Extends(h, later)
  {
    assert forall i :: 0 <= i < |h| ==> later[i] == later[..|h|][i];
  }

  lemma {:induction false} CarriesKept(s: System, t: System, k: nat, reply: Reply)
    requires k < |s.flights| && k < |t.flights| && t.flights[k] == s.flights[k] && Extends(s.history, t.history)
    requires (s.flights[k].request.Get? || s.flights[k].request.List?) && Carries(s, k, reply)
    ensures Carries(t, k, reply)
  {
  }

  lemma {:induction false} ExplainedKept(s: System, t: System, k: nat, reply: Reply)
    requires k < |s.flights| && k < |t.flights| && t.flights[k] == s.flights[k] && Extends(s.history, t.history)
    requires (s.flights[k].request.Get? || s.flights[k].request.List?) && Explained(s, k, reply)
    requires t.world.cfg == s.world.cfg
    ensures Explained(t, k, reply)
  {
    match s.flights[k].source
    case Unknown =>
    case Direct(read) =>
    case Cached(o) => SoundKept(s.history, t.history, o, s.flights[k].request);
  }

  lemma {:induction false} SoundKept(h: seq<Moment>, later: seq<Moment>, o: Origin, r: Request)
    requires (r.Get? || r.List?) && Extends(h, later) && Sound(h, o, r)
    ensures Sound(later, o, r)
  {
  }

  lemma {:induction false} EntryKept(s: System, t: System, r: Request)
    requires (r.Get? || r.List?) && EntryExplained(s, r)
    requires |t.history| == |s.history| + 1 && t.history[..|s.history|] == s.history && t.world.cfg == s.world.cfg
    requires KeyOf(r) in t.world.cache ==> KeyOf(r) in s.world.cache && t.world.cache[KeyOf(r)] == s.world.cache[KeyOf(r)]
    requires KeyOf(r) in s.origins ==> KeyOf(r) in t.origins && t.origins[KeyOf(r)] == s.origins[KeyOf(r)]
    ensures EntryExplained(t, r)
  {
    assert forall i :: 0 <= i < |s.history| ==> t.history[i] == t.history[..|s.history|][i] == s.history[i];
  }

  lemma {:induction false} ChronicleGrows(s: System, t: System, m: Moment)
    requires Chronicle(s) && t.history == s.history + [m]
    requires m.now == t.world.now >= s.world.now && m.data == t.world.data && t.world.data.Keys <= s.world.data.Keys
    ensures Chronicle(t) && t.history[..|s.history|] == s.history
  {
    var n := |s.history|;
    forall i, j | 0 <= i <= j < |t.history|
      ensures t.history[i].now <= t.history[j].now && t.history[j].data.Keys <= t.history[i].data.Keys
    {
      if j == n && i < n {
        assert s.history[i].now <= s.history[n - 1].now && s.history[n - 1].data.Keys <= s.history[i].data.Keys;
      }
    }
  }

  lemma {:induction false} KeysDistinct(r: Request, q: Request)
    requires (r.Get? || r.List?) && (q.Get? || q.List?)
    ensures KeyOf(r) == KeyOf(q) <==> r == q
  {
    if r.Get? && q.Get? {
      TaskKeysInjective(r.id, q.id);
    } else if r.List? && q.List? {
      PagedKeysInjective(r.page, r.limit, q.page, q.limit);
    } else if r.Get? {
      KeyFamiliesDisjoint(r.id, q.page, q.limit);
    } else {
      KeyFamiliesDisjoint(q.id, r.page, r.limit);
    }
  }

  /** Beginning a call, letting time pass, or losing a key. */
  lemma {:induction false} QuietKeepsInv(s: System, a: Action)
    requires Inv(s) && !a.Move?
    ensures Inv(Do(s, a))
  {
    var t := Do(s, a);
    ChronicleGrows(s, t, t.history[|s.history|]);
    forall k: nat | k < |t.flights| ensures FlightFits(t, k) {
      if k < |s.flights| {
        FlightKept(s, t, k);
      }
    }
    forall id: int ensures EntryExplained(t, Get(id)) {
      EntryKept(s, t, Get(id));
    }
    forall page: int, limit: int ensures EntryExplained(t, List(page, limit)) {
      EntryKept(s, t, List(page, limit));
    }
  }

  /** One step never adds a task to the repository, and leaves clock and configuration alone. */
  lemma {:induction false} AdvanceFrame(w: World, c: Call, env: Env)
    ensures var (w', _) := Advance(w, c, env);
            w'.now == w.now && w'.cfg == w.cfg && w'.connected == w.connected && w'.data.Keys <= w.data.Keys
  {
  }

  /** Only the storing step of a get or list adds or changes a cache entry, and only the one of its own key. */
  lemma {:induction false} AdvanceCache(w: World, c: Call, env: Env, key: string)
    requires var (w', _) := Advance(w, c, env); key in w'.cache
    requires c.GetStore? ==> key != TaskByID(c.id)
    requires c.ListStore? ==> key != TasksListPaged(c.page, c.limit)
    ensures key in w.cache && Advance(w, c, env).0.cache[key] == w.cache[key]
  {
  }

  lemma {:induction false} StoredEntry(s: System, k: nat, env: Env)
    requires Inv(s) && k < |s.flights| && (s.flights[k].call.GetStore? || s.flights[k].call.ListStore?)
    requires DoMove(s, k, env).world.cache != s.world.cache
    ensures s.flights[k].request.Get? || s.flights[k].request.List?
    ensures EntryExplained(DoMove(s, k, env), s.flights[k].request)
  {
    var f, t, n := s.flights[k], DoMove(s, k, env), |s.history|;
    assert FlightFits(s, k);
    assert forall i :: 0 <= i < n ==> t.history[i] == s.history[i];
    assert Wrote?(t.history, n, k, f.request);
    assert t.origins[KeyOf(f.request)] == Origin(k, f.began, f.source.read, n);
  }

  lemma {:induction false} StoreReturns(s: System, k: nat, env: Env)
    requires Inv(s) && k < |s.flights| && (s.flights[k].call.GetStore? || s.flights[k].call.ListStore?)
    ensures FlightFits(DoMove(s, k, env), k)
  {
    var t, n := DoMove(s, k, env), |s.history|;
    assert FlightFits(s, k);
    assert forall i :: 0 <= i < n ==> t.history[i] == s.history[i];
  }

  /** A hit returns the explained entry, unexpired. */
  lemma {:induction false} HitExplained(s: System, k: nat, env: Env)
    requires Inv(s) && k < |s.flights| && (s.flights[k].call.GetStart? || s.flights[k].call.ListStart?)
    ensures FlightFits(DoMove(s, k, env), k)
  {
    var f, t, n := s.flights[k], DoMove(s, k, env), |s.history|;
    var r := f.request;
    assert FlightFits(s, k);
    assert forall i :: 0 <= i < n ==> t.history[i] == s.history[i];
    RequestExplained(s, k);
  }

  lemma {:induction false} RequestExplained(s: System, k: nat)
    requires Inv(s) && k < |s.flights| && (s.flights[k].call.GetStart? || s.flights[k].call.ListStart?)
    ensures var r := s.flights[k].request; (r.Get? || r.List?) && EntryExplained(s, r)
  {
    var r := s.flights[k].request;
    assert FlightFits(s, k);
    if r.Get? {
      assert EntryExplained(s, Get(r.id));
    } else {
      assert EntryExplained(s, List(r.page, r.limit));
    }
  }

  lemma {:induction false} ReadCarries(s: System, k: nat, env: Env)
    requires Inv(s) && k < |s.flights| && (s.flights[k].call.GetRepo? || s.flights[k].call.ListRepo?)
    ensures FlightFits(DoMove(s, k, env), k)
  {
    assert FlightFits(s, k);
    var t, n := DoMove(s, k, env), |s.history|;
    assert forall i :: 0 <= i < n ==> t.history[i] == s.history[i];
  }

  lemma {:induction false} WriteMoves(s: System, k: nat, env: Env)
    requires Inv(s) && k < |s.flights| && (s.flights[k].request.Update? || s.flights[k].request.Delete?)
    ensures FlightFits(DoMove(s, k, env), k)
  {
    assert FlightFits(s, k);
    var t, n := DoMove(s, k, env), |s.history|;
    assert forall i :: 0 <= i < n ==> t.history[i] == s.history[i];
  }

  lemma {:induction false} MovedFlightFits(s: System, k: nat, env: Env)
    requires Inv(s) && Can(s, Move(k, env))
    ensures FlightFits(DoMove(s, k, env), k)
  {
    assert FlightFits(s, k);
    var c := s.flights[k].call;
    if c.GetStart? || c.ListStart? {
      HitExplained(s, k, env);
    } else if c.GetRepo? || c.ListRepo? {
      ReadCarries(s, k, env);
    } else if c.GetStore? || c.ListStore? {
      StoreReturns(s, k, env);
    } else {
      WriteMoves(s, k, env);
    }
  }

  lemma {:induction false} MovedEntries(s: System, k: nat, env: Env, r: Request)
    requires Inv(s) && Can(s, Move(k, env)) && (r.Get? || r.List?) && EntryExplained(s, r)
    ensures EntryExplained(DoMove(s, k, env), r)
  {
    var f, t := s.flights[k], DoMove(s, k, env);
    assert FlightFits(s, k);
    AdvanceFrame(s.world, f.call, env);
    assert t.history[..|s.history|] == s.history;
    if f.request == r && (f.call.GetStore? || f.call.ListStore?) && t.world.cache != s.world.cache {
      StoredEntry(s, k, env);
    } else {
      if f.request.Get? || f.request.List? {
        KeysDistinct(r, f.request);
      }
      if KeyOf(r) in t.world.cache && t.world.cache != s.world.cache {
        AdvanceCache(s.world, f.call, env, KeyOf(r));
      }
      EntryKept(s, t, r);
    }
  }

  lemma {:induction false} MoveKeepsInv(s: System, k: nat, env: Env)
    requires Inv(s) && Can(s, Move(k, env))
    ensures Inv(DoMove(s, k, env))
  {
    var t := DoMove(s, k, env);
    AdvanceFrame(s.world, s.flights[k].call, env);
    ChronicleGrows(s, t, t.history[|s.history|]);
    forall j: nat | j < |t.flights| ensures FlightFits(t, j) {
      if j == k {
        MovedFlightFits(s, k, env);
      } else {
        FlightKept(s, t, j);
      }
    }
    forall id: int ensures EntryExplained(t, Get(id)) {
      MovedEntries(s, k, env, Get(id));
    }
    forall page: int, limit: int ensures EntryExplained(t, List(page, limit)) {
      MovedEntries(s, k, env, List(page, limit));
    }
  }

  lemma {:induction false} InvStep(s: System, a: Action)
    requires Inv(s) && Can(s, a)
    ensures Inv(Do(s, a)) && Do(s, a).world.cfg == s.world.cfg
  {
    if a.Move? {
      MoveKeepsInv(s, a.call, a.env);
      AdvanceFrame(s.world, s.flights[a.call].call, a.env);
    } else {
      QuietKeepsInv(s, a);
    }
  }

  lemma {:induction false} InvFrom(s: System, acts: seq<Action>)
    requires Inv(s) && Runnable(s, acts)
    ensures Inv(Exec(s, acts)) && Exec(s, acts).world.cfg == s.world.cfg
    decreases |acts|
  {
    if acts != [] {
      InvStep(s, acts[0]);
      InvFrom(Do(s, acts[0]), acts[1..]);
    }
  }

  // ---- What every run guarantees ------------------------------------------------------------------------

  /** Call `reader`, begun at moment `began`, read the repository's answer to the k-th call's request at moment
      `read`. Either it is the k-th call itself, or it wrote that answer to the cache at moment `wrote`, less than
      the entry's base TTL plus jitter before the k-th call returned. */
  ghost predicate AnsweredBy(s: System, k: nat, reader: nat, began: nat, read: nat, wrote: nat)
    requires k < |s.flights| && s.flights[k].call.Returned? && (s.flights[k].request.Get? || s.flights[k].request.List?)
  {
    var (f, h) := (s.flights[k], s.history);
    && began < read < f.ended < |h| && Began?(h, began, reader, f.request) && Read?(h, read, reader, f.request)
    && f.call.reply == Answer(h[read].data, f.request)
    && (|| (reader == k && began == f.began)
        || (&& read < wrote < f.ended && Wrote?(h, wrote, reader, f.request)
            && h[f.ended].now < h[wrote].now + MaxAge(s.world.cfg, f.call.reply)))
  }

  lemma {:induction false} AnswerExplained(s: System, k: nat)
    requires Inv(s)
    requires k < |s.flights| && s.flights[k].call.Returned? && (s.flights[k].request.Get? || s.flights[k].request.List?)
    ensures exists reader, began, read, wrote :: AnsweredBy(s, k, reader, began, read, wrote)
  {
    var f := s.flights[k];
    assert FlightFits(s, k);
    match f.source
    case Direct(read) => ReadDirectly(s, k, read);
    case Cached(o) => ReadFromCache(s, k, o);
  }

  lemma {:induction false} ReadDirectly(s: System, k: nat, read: nat)
    requires k < |s.flights| && FlightFits(s, k) && s.flights[k].source == Direct(read)
    requires s.flights[k].call.Returned? && (s.flights[k].request.Get? || s.flights[k].request.List?)
    ensures exists reader, began, read, wrote :: AnsweredBy(s, k, reader, began, read, wrote)
  {
    assert AnsweredBy(s, k, k, s.flights[k].began, read, 0);
  }

  lemma {:induction false} ReadFromCache(s: System, k: nat, o: Origin)
    requires k < |s.flights| && FlightFits(s, k) && s.flights[k].source == Cached(o)
    requires s.flights[k].call.Returned? && (s.flights[k].request.Get? || s.flights[k].request.List?)
    ensures exists reader, began, read, wrote :: AnsweredBy(s, k, reader, began, read, wrote)
  {
    assert AnsweredBy(s, k, o.call, o.began, o.read, o.wrote);
  }

  /** Bounded staleness: whatever fails and however calls interleave, the reply of every returned get or list was
      the repository's answer at a moment no earlier than the start of the call that read it; if it came from the
      cache, that call cached it less than its base TTL plus jitter ago. */
  lemma {:induction false} BoundedStaleness(data: Data, now: int, connected: bool, cfg: Config, acts: seq<Action>, k: nat)
    requires Runnable(Boot(data, now, connected, cfg), acts)
    requires var s := Exec(Boot(data, now, connected, cfg), acts);
             k < |s.flights| && s.flights[k].call.Returned? && (s.flights[k].request.Get? || s.flights[k].request.List?)
    ensures var s := Exec(Boot(data, now, connected, cfg), acts);
            s.world.cfg == cfg && exists reader, began, read, wrote :: AnsweredBy(s, k, reader, began, read, wrote)
  {
    InvFrom(Boot(data, now, connected, cfg), acts);
    AnswerExplained(Exec(Boot(data, now, connected, cfg), acts), k);
  }

  lemma {:induction false} AbsentAfter(s: System, k: nat, id: int)
    requires Inv(s)
    requires k < |s.flights| && s.flights[k].request == Get(id) && s.flights[k].call == Returned(NotFound)
    ensures forall m: nat :: s.flights[k].ended <= m < |s.history| ==> id !in s.history[m].data
  {
    assert FlightFits(s, k);
    var read := if s.flights[k].source.Direct? then s.flights[k].source.read else s.flights[k].source.origin.read;
    assert id !in s.history[read].data;
  }

  lemma {:induction false} MarkerMeansAbsent(s: System, id: int)
    requires Inv(s) && TaskByID(id) in s.world.cache && s.world.cache[TaskByID(id)].payload == Marker
    ensures id !in s.world.data
  {
    assert EntryExplained(s, Get(id));
    var read := s.origins[TaskByID(id)].read;
    assert id !in s.history[read].data;
    assert s.history[|s.history| - 1].data.Keys <= s.history[read].data.Keys;
  }

  /** Negative answers are never wrong: once a get was answered "not found", and as long as a not-found marker is
      cached for a task, the task is absent from the repository, then and at every later moment. */
  lemma {:induction false} NegativeNeverWrong(data: Data, now: int, connected: bool, cfg: Config, acts: seq<Action>, id: int)
    requires Runnable(Boot(data, now, connected, cfg), acts)
    ensures var s := Exec(Boot(data, now, connected, cfg), acts);
            && (TaskByID(id) in s.world.cache && s.world.cache[TaskByID(id)].payload == Marker ==> id !in s.world.data)
            && (forall k: nat :: k < |s.flights| && s.flights[k].request == Get(id) && s.flights[k].call == Returned(NotFound) ==>
                  forall m: nat :: s.flights[k].ended <= m < |s.history| ==> id !in s.history[m].data)
  {
    InvFrom(Boot(data, now, connected, cfg), acts);
    var s := Exec(Boot(data, now, connected, cfg), acts);
    if TaskByID(id) in s.world.cache && s.world.cache[TaskByID(id)].payload == Marker {
      MarkerMeansAbsent(s, id);
    }
    forall k: nat | k < |s.flights| && s.flights[k].request == Get(id) && s.flights[k].call == Returned(NotFound)
      ensures forall m: nat :: s.flights[k].ended <= m < |s.history| ==> id !in s.history[m].data
    {
      AbsentAfter(s, k, id);
    }
  }
}
