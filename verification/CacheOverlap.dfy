/** Overlapping calls that do agree. Redis commands succeed and calls interleave step by step, with the clock running
    and keys evicted. For one task, or one page of the window, every answer is then the repository's at a moment of the
    call itself, provided that no write changes the answer while a reader is about to store it, and that the cache is
    not hit while the invalidation after such a write is pending. */
module CacheOverlap {
  import opened CacheKeys
  import opened TaskRepo
  import opened CacheModel
  import opened CacheStaleness

  /** The reads whose cache entries invalidation covers. */
  predicate Guarded(r: Request) {
    r.Get? || (r.List? && InWindow(r.page, r.limit))
  }

  /** The call has read the repository for r and is about to store the answer. */
  predicate Storing(c: Call, r: Request) {
    match c
    case GetStore(id, _) => r == Get(id)
    case ListStore(page, limit, _) => r == List(page, limit)
    case _ => false
  }

  function Carried(c: Call): Payload
    requires c.GetStore? || c.ListStore?
  {
    if c.ListStore? then ListJson(c.items) else if c.found.Some? then TaskJson(c.found.value) else Marker
  }

  /** The call will still delete the cache entry of r. */
  predicate Pending(c: Call, r: Request)
    requires r.Get? || r.List?
  {
    match c
    case DropTask(id) => r.List? || r.id == id
    case DropList => r.List?
    case DropPaged(keys) => r.List? && KeyOf(r) in keys
    case _ => false
  }

  ghost predicate SomeStoring(s: System, r: Request) {
    exists k: nat :: k < |s.flights| && Storing(s.flights[k].call, r)
  }

  ghost predicate SomePending(s: System, r: Request)
    requires r.Get? || r.List?
  {
    exists k: nat :: k < |s.flights| && Pending(s.flights[k].call, r)
  }

  /** This step of flight k changes what the repository answers to r. */
  ghost predicate Changes(s: System, k: nat, env: Env, r: Request)
    requires k < |s.flights|
  {
    Answer(DoMove(s, k, env).world.data, r) != Answer(s.world.data, r)
  }

  /** This step of flight k answers r from the cache. */
  ghost predicate Hits(s: System, k: nat, env: Env, r: Request)
    requires k < |s.flights|
  {
    s.flights[k].call == Start(r) && DoMove(s, k, env).flights[k].call.Returned?
  }

  /** What a step must not do: change the answer to r under a reader that is about to store the old one, or hit the
      cache entry of r while its invalidation is pending. */
  ghost predicate Orderly(s: System, a: Action, r: Request)
    requires Can(s, a) && (r.Get? || r.List?)
  {
    a.Move? ==>
      && a.env.outcome.Ok?
      && (Changes(s, a.call, a.env, r) ==> !SomeStoring(s, r))
      && (Hits(s, a.call, a.env, r) ==> !SomePending(s, r))
  }

  ghost predicate Calm(s: System, acts: seq<Action>, r: Request)
    requires Runnable(s, acts) && (r.Get? || r.List?)
    decreases |acts|
  {
    acts == [] || (Orderly(s, acts[0], r) && Calm(Do(s, acts[0]), acts[1..], r))
  }

  // ---- The invariant ------------------------------------------------------------------------------------

  /** A reader about to store carries the repository's answer. */
  ghost predicate ReadersCurrent(s: System, r: Request) {
    forall k: nat :: k < |s.flights| && Storing(s.flights[k].call, r) ==>
      Carried(s.flights[k].call) == Encode(Answer(s.world.data, r))
  }

  predicate EntryHolds(cache: map<string, Entry>, key: string, payload: Payload) {
    key in cache ==> cache[key].payload == payload
  }

  ghost predicate EntryFits(w: World, r: Request)
    requires r.Get? || r.List?
  {
    EntryHolds(w.cache, KeyOf(r), Encode(Answer(w.data, r)))
  }

  /** A cached answer is the repository's unless its invalidation is pending. */
  ghost predicate EntryCurrent(s: System, r: Request)
    requires r.Get? || r.List?
  {
    EntryFits(s.world, r) || SomePending(s, r)
  }

  /** Answers given from the cache were the repository's when they were given. */
  ghost predicate HitsCurrent(s: System, r: Request) {
    forall k: nat :: k < |s.flights| && s.flights[k].request == r && s.flights[k].call.Returned? && s.flights[k].source.Cached? ==>
      s.flights[k].ended < |s.history| && s.flights[k].call.reply == Answer(s.history[s.flights[k].ended].data, r)
  }

  ghost predicate Current(s: System, r: Request)
    requires r.Get? || r.List?
  {
    s.world.connected && ReadersCurrent(s, r) && EntryCurrent(s, r) && HitsCurrent(s, r)
  }

  lemma {:induction false} QuietKeepsCurrent(s: System, a: Action, r: Request)
    requires Guarded(r) && Current(s, r) && !a.Move?
    ensures Current(Do(s, a), r)
  {
    var t := Do(s, a);
    forall k: nat | k < |s.flights| ensures t.flights[k] == s.flights[k] {
    }
    if SomePending(s, r) {
      var k: nat :| k < |s.flights| && Pending(s.flights[k].call, r);
      assert Pending(t.flights[k].call, r);
    }
  }

  /** The other flights stay as they are, and pending invalidations with them. */
  lemma {:induction false} OthersPending(s: System, k: nat, env: Env, r: Request)
    requires k < |s.flights| && (r.Get? || r.List?)
    requires SomePending(s, r) && !Pending(s.flights[k].call, r)
    ensures SomePending(DoMove(s, k, env), r)
  {
    var j: nat :| j < |s.flights| && Pending(s.flights[j].call, r);
    assert DoMove(s, k, env).flights[j] == s.flights[j];
  }

  /** The repository step hands over the repository's answer. */
  lemma {:induction false} ReadCarries(w: World, c: Call, env: Env, r: Request)
    requires Storing(Advance(w, c, env).1, r)
    ensures Advance(w, c, env).0 == w && Carried(Advance(w, c, env).1) == Encode(Answer(w.data, r))
  {
    assert c.GetRepo? || c.ListRepo?;
  }

  lemma {:induction false} ReadersStayCurrent(s: System, k: nat, env: Env, r: Request)
    requires Guarded(r) && Current(s, r) && Can(s, Move(k, env)) && Orderly(s, Move(k, env), r)
    ensures ReadersCurrent(DoMove(s, k, env), r)
  {
    var t := DoMove(s, k, env);
    forall j: nat | j < |t.flights| && Storing(t.flights[j].call, r)
      ensures Carried(t.flights[j].call) == Encode(Answer(t.world.data, r))
    {
      if j == k {
        ReadCarries(s.world, s.flights[k].call, env, r);
      } else {
        assert t.flights[j] == s.flights[j];
        assert SomeStoring(s, r) && !Changes(s, k, env, r);
      }
    }
  }

  /** What one step leaves of the entry of r: a fitting entry, a pending invalidation, or what was there. */
  ghost predicate EntryAfter(w: World, c: Call, env: Env, r: Request)
    requires r.Get? || r.List?
  {
    var (w', c') := Advance(w, c, env);
    || Pending(c', r)
    || EntryFits(w', r)
    || (!Pending(c, r) && !EntryFits(w, r))
  }

  lemma {:induction false} ReadLeavesEntry(w: World, c: Call, env: Env, r: Request)
    requires Guarded(r) && (c.GetStart? || c.GetRepo? || c.ListStart? || c.ListRepo? || c.Returned?)
    ensures EntryAfter(w, c, env, r)
  {
    assert Advance(w, c, env).0 == w;
  }

  lemma {:induction false} StoreLeavesEntry(w: World, c: Call, env: Env, r: Request)
    requires Guarded(r) && (c.GetStore? || c.ListStore?) && w.connected && env.outcome.Ok?
    requires Storing(c, r) ==> Carried(c) == Encode(Answer(w.data, r))
    ensures EntryAfter(w, c, env, r)
  {
    var q := if c.GetStore? then Get(c.id) else List(c.page, c.limit);
    var w' := Advance(w, c, env).0;
    StoreWrites(w, c, env, q);
    if q != r {
      KeysDistinct(q, r);
      assert KeyOf(r) in w'.cache ==> KeyOf(r) in w.cache && w'.cache[KeyOf(r)] == w.cache[KeyOf(r)];
    }
  }

  lemma {:induction false} StoreWrites(w: World, c: Call, env: Env, q: Request)
    requires w.connected && env.outcome.Ok?
    requires (c.GetStore? && q == Get(c.id)) || (c.ListStore? && q == List(c.page, c.limit))
    ensures var w' := Advance(w, c, env).0;
            && w' == w.(cache := w'.cache)
            && exists expiry :: w'.cache == w.cache[KeyOf(q) := Entry(Carried(c), expiry)]
  {
    var ttl := if c.ListStore? then TTLWithJitter(w.cfg.listTtl, w.cfg.jitter, env.draw)
               else if c.found.Some? then TTLWithJitter(w.cfg.cacheTtl, w.cfg.jitter, env.draw)
               else TTLWithJitter(w.cfg.negativeTtl, Half(w.cfg.jitter), env.draw);
    assert Advance(w, c, env).0 == Store(w, KeyOf(q), Carried(c), ttl, env);
    assert Advance(w, c, env).0.cache == w.cache[KeyOf(q) := Entry(Carried(c), w.now + ttl)];
  }

  /** A write that changes the answer to r goes on to delete its entry. */
  lemma {:induction false} WriteLeavesEntry(w: World, c: Call, env: Env, r: Request)
    requires Guarded(r) && (c.UpdateStart? || c.DeleteStart?)
    ensures EntryAfter(w, c, env, r)
  {
    var id := if c.UpdateStart? then c.task.id else c.id;
    var (w', c') := Advance(w, c, env);
    if id !in w.data {
      assert w' == w;
    } else if r.List? || r.id == id {
      assert c' == DropTask(id);
    } else {
      assert r.id in w'.data <==> r.id in w.data;
      assert Answer(w'.data, r) == Answer(w.data, r);
    }
  }

  /** A pending invalidation deletes the entry, or is still pending. */
  lemma {:induction false} DropLeavesEntry(w: World, c: Call, env: Env, r: Request)
    requires Guarded(r) && (c.DropTask? || c.DropList? || c.DropPaged?) && w.connected && env.outcome.Ok?
    ensures EntryAfter(w, c, env, r)
  {
    var (w', c') := Advance(w, c, env);
    assert w'.data == w.data && forall key :: key in w'.cache ==> key in w.cache && w'.cache[key] == w.cache[key];
    if Pending(c, r) && KeyOf(r) in w'.cache {
      StillPending(w, c, env, r);
    }
  }

  lemma {:induction false} StillPending(w: World, c: Call, env: Env, r: Request)
    requires Guarded(r) && w.connected && env.outcome.Ok? && Pending(c, r)
    requires KeyOf(r) in Advance(w, c, env).0.cache
    ensures Pending(Advance(w, c, env).1, r)
  {
    if r.List? {
      WindowKeysExact(r.page, r.limit);
    }
  }

  lemma {:induction false} StepLeavesEntry(w: World, c: Call, env: Env, r: Request)
    requires Guarded(r) && w.connected && env.outcome.Ok?
    requires Storing(c, r) ==> Carried(c) == Encode(Answer(w.data, r))
    ensures EntryAfter(w, c, env, r)
  {
    if c.GetStore? || c.ListStore? {
      StoreLeavesEntry(w, c, env, r);
    } else if c.UpdateStart? || c.DeleteStart? {
      WriteLeavesEntry(w, c, env, r);
    } else if c.DropTask? || c.DropList? || c.DropPaged? {
      DropLeavesEntry(w, c, env, r);
    } else {
      ReadLeavesEntry(w, c, env, r);
    }
  }

  lemma {:induction false} EntryStaysCurrent(s: System, k: nat, env: Env, r: Request)
    requires Guarded(r) && Current(s, r) && Can(s, Move(k, env)) && env.outcome.Ok?
    ensures EntryCurrent(DoMove(s, k, env), r)
  {
    var c, t := s.flights[k].call, DoMove(s, k, env);
    StepLeavesEntry(s.world, c, env, r);
    if Pending(t.flights[k].call, r) {
      assert SomePending(t, r);
    } else if !EntryFits(t.world, r) {
      OthersPending(s, k, env, r);
    }
  }

  lemma {:induction false} HitsStayCurrent(s: System, k: nat, env: Env, r: Request)
    requires Guarded(r) && Current(s, r) && Can(s, Move(k, env)) && Orderly(s, Move(k, env), r) && FlightFits(s, k)
    ensures HitsCurrent(DoMove(s, k, env), r)
  {
    var t, n := DoMove(s, k, env), |s.history|;
    assert forall i :: 0 <= i < n ==> t.history[i] == s.history[i];
    forall j: nat | j < |t.flights| && t.flights[j].request == r && t.flights[j].call.Returned? && t.flights[j].source.Cached?
      ensures t.flights[j].ended < |t.history| && t.flights[j].call.reply == Answer(t.history[t.flights[j].ended].data, r)
    {
      if j == k {
        if s.flights[k].call == Start(r) {
          HitIsCurrent(s, k, env, r);
        }
      } else {
        assert t.flights[j] == s.flights[j];
      }
    }
  }

  /** A hit answers what the repository holds at that moment. */
  lemma {:induction false} HitIsCurrent(s: System, k: nat, env: Env, r: Request)
    requires Guarded(r) && Current(s, r) && Can(s, Move(k, env)) && Hits(s, k, env, r) && !SomePending(s, r)
    ensures DoMove(s, k, env).flights[k].call == Returned(Answer(s.world.data, r))
    ensures DoMove(s, k, env).world == s.world
  {
  }

  lemma {:induction false} CurrentStep(s: System, a: Action, r: Request)
    requires Guarded(r) && Current(s, r) && Can(s, a) && Orderly(s, a, r) && (a.Move? ==> FlightFits(s, a.call))
    ensures Current(Do(s, a), r)
  {
    if a.Move? {
      AdvanceFrame(s.world, s.flights[a.call].call, a.env);
      ReadersStayCurrent(s, a.call, a.env, r);
      EntryStaysCurrent(s, a.call, a.env, r);
      HitsStayCurrent(s, a.call, a.env, r);
    } else {
      QuietKeepsCurrent(s, a, r);
    }
  }

  lemma {:induction false} CurrentFrom(s: System, acts: seq<Action>, r: Request)
    requires Guarded(r) && Inv(s) && Current(s, r) && Runnable(s, acts) && Calm(s, acts, r)
    ensures Current(Exec(s, acts), r)
    decreases |acts|
  {
    if acts != [] {
      CurrentStep(s, acts[0], r);
      InvStep(s, acts[0]);
      CurrentFrom(Do(s, acts[0]), acts[1..], r);
    }
  }

  /** At moment m, during the k-th call, the repository gave that call's answer. */
  ghost predicate AnswerAt(s: System, k: nat, m: nat)
    requires k < |s.flights| && s.flights[k].call.Returned?
  {
    var f := s.flights[k];
    f.began < m <= f.ended < |s.history| && f.call.reply == Answer(s.history[m].data, f.request)
  }

  /** Linearizability: in a calm run every answered call for r was answered as by the repository at a moment between its
      begin and its end. */
  lemma {:induction false} CalmRunsAgree(data: Data, now: int, cfg: Config, acts: seq<Action>, r: Request, k: nat)
    requires Guarded(r) && Runnable(Boot(data, now, true, cfg), acts) && Calm(Boot(data, now, true, cfg), acts, r)
    requires var s := Exec(Boot(data, now, true, cfg), acts);
             k < |s.flights| && s.flights[k].request == r && s.flights[k].call.Returned?
    ensures var s := Exec(Boot(data, now, true, cfg), acts); exists m :: AnswerAt(s, k, m)
  {
    var s := Exec(Boot(data, now, true, cfg), acts);
    InvFrom(Boot(data, now, true, cfg), acts);
    CurrentFrom(Boot(data, now, true, cfg), acts, r);
    assert FlightFits(s, k);
    AnsweredInTime(s, k, r);
  }

  lemma {:induction false} AnsweredInTime(s: System, k: nat, r: Request)
    requires Guarded(r) && HitsCurrent(s, r) && k < |s.flights| && FlightFits(s, k)
    requires s.flights[k].request == r && s.flights[k].call.Returned?
    ensures exists m :: AnswerAt(s, k, m)
  {
    match s.flights[k].source
    case Direct(read) => assert AnswerAt(s, k, read);
    case Cached(_) => assert AnswerAt(s, k, s.flights[k].ended);
  }

  /** A hit in a calm run, taken while no invalidation is pending, answers what the repository holds right then. */
  lemma {:induction false} CalmHitsAreCurrent(data: Data, now: int, cfg: Config, acts: seq<Action>, r: Request, k: nat, env: Env)
    requires Guarded(r) && Runnable(Boot(data, now, true, cfg), acts) && Calm(Boot(data, now, true, cfg), acts, r)
    requires var s := Exec(Boot(data, now, true, cfg), acts);
             Can(s, Move(k, env)) && Hits(s, k, env, r) && !SomePending(s, r)
    ensures var s := Exec(Boot(data, now, true, cfg), acts);
            DoMove(s, k, env).flights[k].call == Returned(Answer(s.world.data, r))
  {
    InvFrom(Boot(data, now, true, cfg), acts);
    CurrentFrom(Boot(data, now, true, cfg), acts, r);
    HitIsCurrent(Exec(Boot(data, now, true, cfg), acts), k, env, r);
  }
}
