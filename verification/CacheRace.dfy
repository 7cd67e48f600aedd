/** The two ways in which overlapping calls disagree with the repository, with every Redis command succeeding: a reader
    that pauses between its repository read and its cache write stores the old answer after the invalidation, and a
    reader that comes between a write and its invalidation is answered from the cache. Both exist for every repository,
    every task or page and every write that changes its answer, so neither proviso of calm runs can be dropped. */
module CacheRace {
  import opened CacheKeys
  import opened TaskRepo
  import opened CacheModel
  import opened CacheOverlap
  import opened CacheStaleness

  const FINE := Env(Ok, 0)

  /** Every Redis command succeeds. */
  predicate AllFine(acts: seq<Action>) {
    forall i :: 0 <= i < |acts| && acts[i].Move? ==> acts[i].env == FINE
  }

  function Moves(call: nat, n: nat): seq<Action> {
    seq(n, _ => Move(call, FINE))
  }

  lemma {:induction false} ExecConcat(s: System, first: seq<Action>, rest: seq<Action>)
    requires Runnable(s, first) && Runnable(Exec(s, first), rest)
    ensures Runnable(s, first + rest) && Exec(s, first + rest) == Exec(Exec(s, first), rest)
    decreases |first|
  {
    if first == [] {
      assert first + rest == rest;
    } else {
      assert (first + rest)[0] == first[0] && (first + rest)[1..] == first[1..] + rest;
      ExecConcat(Do(s, first[0]), first[1..], rest);
    }
  }

  lemma {:induction false} OneStep(s: System, a: Action)
    requires Can(s, a)
    ensures Runnable(s, [a]) && Exec(s, [a]) == Do(s, a)
  {
    assert [a][1..] == [];
    assert Runnable(Do(s, a), []) && Exec(Do(s, a), []) == Do(s, a);
  }

  predicate Invalidating(c: Call) {
    c.DropTask? || c.DropList? || c.DropPaged?
  }

  /** On an empty cache an invalidation runs to its end and changes nothing but its own flight. */
  lemma {:induction false} InvalidationRuns(s: System, k: nat)
    requires k < |s.flights| && s.world.connected && s.world.cache == map[]
    requires Invalidating(s.flights[k].call)
    ensures var acts := Moves(k, Remaining(s.flights[k].call));
            && Runnable(s, acts)
            && var t := Exec(s, acts);
               && t.world == s.world && |t.flights| == |s.flights| && t.flights[k].call == Returned(Done)
               && |t.history| > |s.history| && t.flights[k].ended < |t.history|
               && forall j: nat :: j < |s.flights| && j != k ==> t.flights[j] == s.flights[j]
    decreases Remaining(s.flights[k].call)
  {
    var c := s.flights[k].call;
    var n := Remaining(c);
    var acts, t := Moves(k, n), Do(s, Move(k, FINE));
    assert acts[0] == Move(k, FINE) && acts[1..] == Moves(k, n - 1);
    EmptyStaysEmpty(s, k);
    if n == 1 {
      assert acts[1..] == [];
    } else {
      InvalidationRuns(t, k);
    }
  }

  lemma {:induction false} EmptyStaysEmpty(s: System, k: nat)
    requires k < |s.flights| && s.world.connected && s.world.cache == map[] && Invalidating(s.flights[k].call)
    ensures var (c, t) := (s.flights[k].call, DoMove(s, k, FINE));
            && t.world == s.world && |t.flights| == |s.flights| && |t.history| == |s.history| + 1
            && t.flights[k].ended == |s.history|
            && Remaining(t.flights[k].call) == Remaining(c) - 1
            && (Remaining(c) == 1 ==> t.flights[k].call == Returned(Done))
            && (Remaining(c) > 1 ==> Invalidating(t.flights[k].call))
            && forall j: nat :: j < |s.flights| && j != k ==> t.flights[j] == s.flights[j]
  {
    assert forall keys: set<string> :: s.world.cache - keys == map[];
  }

  predicate IsRead(r: Request) {
    r.Get? || r.List?
  }

  predicate IsWrite(q: Request) {
    q.Update? || q.Delete?
  }

  /** The write changes what the repository answers to r. */
  ghost predicate Matters(data: Data, q: Request, r: Request) {
    IsWrite(q) && IsRead(r) && Answer(Bare(data, q).0, r) != Answer(data, r)
  }

  /** The write finds its task. */
  predicate Applies(data: Data, q: Request) {
    (q.Update? && q.task.id in data) || (q.Delete? && q.id in data)
  }

  /** No write turns a missing task into a stored one, and a write that does not find its task changes nothing. */
  lemma {:induction false} MattersFound(data: Data, q: Request, r: Request)
    requires Matters(data, q, r)
    ensures Applies(data, q) && Answers(r, Answer(data, r)) && !Answer(data, r).NotFound?
  {
  }

  predicate PositiveTtl(cfg: Config, r: Request) {
    if r.Get? then cfg.cacheTtl > 0 else cfg.listTtl > 0
  }

  /** The reply has the form of an answer to r. */
  predicate Answers(r: Request, reply: Reply) {
    (r.Get? && (reply.Found? || reply.NotFound?)) || (r.List? && reply.Items?)
  }

  /** The reader of r about to store `reply`. */
  function StoringCall(r: Request, reply: Reply): Call
    requires Answers(r, reply)
  {
    if r.List? then ListStore(r.page, r.limit, reply.tasks)
    else GetStore(r.id, if reply.Found? then Some(reply.task) else None)
  }

  function DropCall(q: Request): Call
    requires IsWrite(q)
  {
    DropTask(if q.Update? then q.task.id else q.id)
  }

  lemma {:induction false} CalmConcat(s: System, first: seq<Action>, rest: seq<Action>, r: Request)
    requires IsRead(r) && Runnable(s, first) && Runnable(Exec(s, first), rest) && Runnable(s, first + rest)
    requires Calm(s, first, r) && Calm(Exec(s, first), rest, r)
    ensures Calm(s, first + rest, r)
    decreases |first|
  {
    if first == [] {
      assert first + rest == rest;
    } else {
      assert (first + rest)[0] == first[0] && (first + rest)[1..] == first[1..] + rest;
      CalmConcat(Do(s, first[0]), first[1..], rest, r);
    }
  }

  /** A fault-free run, a calm one if asked for, leads from s to t. */
  ghost predicate Leads(s: System, acts: seq<Action>, t: System, r: Request, calm: bool)
    requires IsRead(r)
  {
    AllFine(acts) && Runnable(s, acts) && Exec(s, acts) == t && (calm ==> Calm(s, acts, r))
  }

  ghost predicate Reaches(s: System, t: System, r: Request, calm: bool)
    requires IsRead(r)
  {
    exists acts: seq<Action> :: Leads(s, acts, t, r, calm)
  }

  lemma {:induction false} ReachesItself(s: System, r: Request, calm: bool)
    requires IsRead(r)
    ensures Reaches(s, s, r, calm)
  {
    assert Leads(s, [], s, r, calm);
  }

  lemma {:induction false} LeadsOn(s: System, first: seq<Action>, t: System, a: Action, r: Request, calm: bool)
    requires IsRead(r) && Leads(s, first, t, r, calm) && Can(t, a) && (a.Move? ==> a.env == FINE)
    requires calm ==> Orderly(t, a, r)
    ensures Leads(s, first + [a], Do(t, a), r, calm)
  {
    OneStep(t, a);
    ExecConcat(s, first, [a]);
    if calm {
      assert [a][1..] == [];
      assert Calm(t, [a], r);
      CalmConcat(s, first, [a], r);
    }
  }

  lemma {:induction false} ReachesNext(s: System, t: System, a: Action, r: Request, calm: bool)
    requires IsRead(r) && Reaches(s, t, r, calm) && Can(t, a) && (a.Move? ==> a.env == FINE)
    requires calm ==> Orderly(t, a, r)
    ensures Reaches(s, Do(t, a), r, calm)
  {
    var first: seq<Action> :| Leads(s, first, t, r, calm);
    LeadsOn(s, first, t, a, r, calm);
  }

  /** A read's first two steps change nothing and answer nothing. */
  lemma {:induction false} MissIsOrderly(s: System, k: nat, r: Request)
    requires IsRead(r) && k < |s.flights|
    requires s.flights[k].call.GetStart? || s.flights[k].call.GetRepo? || s.flights[k].call.ListStart? || s.flights[k].call.ListRepo?
    requires !DoMove(s, k, FINE).flights[k].call.Returned?
    ensures Orderly(s, Move(k, FINE), r)
  {
    assert DoMove(s, k, FINE).world == s.world;
  }

  /** A reader on an empty cache, up to its store. */
  lemma {:induction false} ReaderMisses(s: System, r: Request) returns (t: System)
    requires IsRead(r) && s.world.connected && s.world.cache == map[] && s.flights == []
    ensures Reaches(s, t, r, true)
    ensures t.world == s.world && |t.flights| == 1 && t.flights[0].request == r && t.flights[0].source.Direct?
    ensures var reply := Answer(s.world.data, r); Answers(r, reply) && t.flights[0].call == StoringCall(r, reply)
  {
    var s1 := Do(s, Begin(r));
    var s2 := Do(s1, Move(0, FINE));
    t := Do(s2, Move(0, FINE));
    MissIsOrderly(s1, 0, r);
    MissIsOrderly(s2, 0, r);
    ReachesItself(s, r, true);
    ReachesNext(s, s, Begin(r), r, true);
    ReachesNext(s, s1, Move(0, FINE), r, true);
    ReachesNext(s, s2, Move(0, FINE), r, true);
  }

  /** A write that finds its task reaches the repository; its invalidation is still to come. */
  lemma {:induction false} WriterWrites(s0: System, s: System, q: Request, r: Request, calm: bool) returns (t: System)
    requires IsRead(r) && Reaches(s0, s, r, calm) && (calm ==> !SomeStoring(s, r))
    requires Applies(s.world.data, q) && |s.flights| == 1
    ensures Reaches(s0, t, r, calm)
    ensures t.world == s.world.(data := Bare(s.world.data, q).0) && |t.flights| == 2
    ensures t.flights[0] == s.flights[0] && t.flights[1].call == DropCall(q)
  {
    var s1 := Do(s, Begin(q));
    t := Do(s1, Move(1, FINE));
    ReachesNext(s0, s, Begin(q), r, calm);
    if calm {
      forall k: nat | k < |s1.flights| ensures !Storing(s1.flights[k].call, r) {
        assert k == 0 ==> s1.flights[k] == s.flights[k];
      }
      assert !SomeStoring(s1, r);
    }
    ReachesNext(s0, s1, Move(1, FINE), r, calm);
  }

  lemma {:induction false} StoredLookup(w: World, r: Request, reply: Reply)
    requires Answers(r, reply) && !reply.NotFound? && w.connected && PositiveTtl(w.cfg, r)
    ensures var (w', c') := Advance(w, StoringCall(r, reply), FINE);
            && Lookup(w', KeyOf(r)) == Some(Encode(reply)) && c'.Returned?
            && w' == w.(cache := w'.cache)
  {
    if r.Get? {
      var ttl := TTLWithJitter(w.cfg.cacheTtl, w.cfg.jitter, 0);
      assert Advance(w, StoringCall(r, reply), FINE) == (Store(w, KeyOf(r), Encode(reply), ttl, FINE), Returned(reply));
    } else {
      var ttl := TTLWithJitter(w.cfg.listTtl, w.cfg.jitter, 0);
      assert Advance(w, StoringCall(r, reply), FINE) == (Store(w, KeyOf(r), Encode(reply), ttl, FINE), Returned(reply));
    }
  }

  /** The reader stores the answer it carries. */
  lemma {:induction false} ReaderStores(s0: System, s: System, r: Request, reply: Reply, calm: bool) returns (t: System)
    requires IsRead(r) && Reaches(s0, s, r, calm)
    requires Answers(r, reply) && !reply.NotFound? && s.world.connected && PositiveTtl(s.world.cfg, r)
    requires |s.flights| >= 1 && s.flights[0].call == StoringCall(r, reply)
    ensures Reaches(s0, t, r, calm)
    ensures t.world == s.world.(cache := t.world.cache) && Lookup(t.world, KeyOf(r)) == Some(Encode(reply))
    ensures |t.flights| == |s.flights| && t.flights[0].call.Returned? && |t.history| == |s.history| + 1
    ensures forall k: nat :: 0 < k < |s.flights| ==> t.flights[k] == s.flights[k]
  {
    t := Do(s, Move(0, FINE));
    StoredLookup(s.world, r, reply);
    assert t.world.data == s.world.data && Orderly(s, Move(0, FINE), r);
    ReachesNext(s0, s, Move(0, FINE), r, calm);
  }

  lemma {:induction false} HitReply(w: World, r: Request, reply: Reply)
    requires Answers(r, reply) && w.connected && Lookup(w, KeyOf(r)) == Some(Encode(reply))
    ensures Advance(w, Start(r), FINE) == (w, Returned(reply))
  {
    if r.Get? {
      assert FromCache(w, TaskByID(r.id), FINE) == Some(Encode(reply));
    } else {
      assert FromCache(w, TasksListPaged(r.page, r.limit), FINE) == Some(Encode(reply));
    }
  }

  /** At no moment of the k-th call did the repository give its answer. */
  ghost predicate NeverAnswered(s: System, k: nat)
    requires k < |s.flights| && s.flights[k].call.Returned?
  {
    forall m: nat :: !AnswerAt(s, k, m)
  }

  /** A third call begins, and hits the old answer. */
  lemma {:induction false} ThirdHits(s: System, r: Request, reply: Reply) returns (v: System)
    requires Answers(r, reply) && s.world.connected && |s.flights| == 2
    requires Lookup(s.world, KeyOf(r)) == Some(Encode(reply)) && Answer(s.world.data, r) != reply
    ensures var s1 := Do(s, Begin(r)); Can(s1, Move(2, FINE)) && v == Do(s1, Move(2, FINE))
    ensures v.world == s.world && |v.flights| == 3 && v.flights[0] == s.flights[0] && v.flights[1] == s.flights[1]
    ensures v.flights[2].request == r && v.flights[2].call == Returned(reply) && v.flights[2].began == |s.history|
    ensures NeverAnswered(v, 2)
  {
    var s1 := Do(s, Begin(r));
    HitReply(s.world, r, reply);
    v := Do(s1, Move(2, FINE));
    assert v.flights[2].ended == |s.history| + 1 && v.history[|s.history| + 1].data == s.world.data;
  }

  /** The invalidation after a write, run to its end on an empty cache. */
  lemma {:induction false} WriterInvalidates(s0: System, s: System, q: Request, r: Request) returns (t: System)
    requires IsRead(r) && IsWrite(q) && Reaches(s0, s, r, false)
    requires s.world.connected && s.world.cache == map[] && |s.flights| == 2 && s.flights[1].call == DropCall(q)
    ensures Reaches(s0, t, r, false)
    ensures t.world == s.world && |t.flights| == 2 && t.flights[0] == s.flights[0]
    ensures t.flights[1].call == Returned(Done) && t.flights[1].ended < |t.history|
  {
    var drop := Moves(1, Remaining(s.flights[1].call));
    InvalidationRuns(s, 1);
    t := Exec(s, drop);
    var first: seq<Action> :| Leads(s0, first, s, r, false);
    ExecConcat(s0, first, drop);
    assert Leads(s0, first + drop, t, r, false);
  }

  /** The paused reader: for every repository, every read and every write that changes its answer there is a fault-free
      run in which a read begun after the write returned, with no invalidation pending, still gets the old answer,
      which was the repository's at no moment of that read. */
  lemma {:induction false} PausedReaderBreaksAgreement(data: Data, now: int, cfg: Config, r: Request, q: Request)
    returns (acts: seq<Action>)
    requires Matters(data, q, r) && PositiveTtl(cfg, r)
    ensures AllFine(acts)
    ensures Runnable(Boot(data, now, true, cfg), acts)
    ensures var v := Exec(Boot(data, now, true, cfg), acts);
            && v.world.data == Bare(data, q).0 && |v.flights| == 3 && !SomePending(v, r)
            && v.flights[1].call == Returned(Done) && v.flights[1].ended < v.flights[2].began
            && v.flights[2].request == r && v.flights[2].call == Returned(Answer(data, r)) && NeverAnswered(v, 2)
  {
    MattersFound(data, q, r);
    var s := Boot(data, now, true, cfg);
    var storing := ReaderMisses(s, r);
    Hasten(s, storing, r);
    var written := WriterWrites(s, storing, q, r, false);
    var dropped := WriterInvalidates(s, written, q, r);
    var v := StoreThenHit(s, dropped, r, Answer(data, r));
    acts :| Leads(s, acts, v, r, false);
  }

  lemma {:induction false} Hasten(s: System, t: System, r: Request)
    requires IsRead(r) && Reaches(s, t, r, true)
    ensures Reaches(s, t, r, false)
  {
    var acts: seq<Action> :| Leads(s, acts, t, r, true);
    assert Leads(s, acts, t, r, false);
  }

  /** The paused reader stores, and a third call hits. */
  lemma {:induction false} StoreThenHit(s0: System, s: System, r: Request, reply: Reply) returns (v: System)
    requires IsRead(r) && Reaches(s0, s, r, false)
    requires Answers(r, reply) && !reply.NotFound? && s.world.connected && PositiveTtl(s.world.cfg, r)
    requires |s.flights| == 2 && s.flights[0].call == StoringCall(r, reply) && s.flights[1].call.Returned?
    requires Answer(s.world.data, r) != reply
    ensures Reaches(s0, v, r, false)
    ensures v.world.data == s.world.data && |v.flights| == 3 && !SomePending(v, r)
    ensures v.flights[1] == s.flights[1] && v.flights[2].began == |s.history| + 1
    ensures v.flights[2].request == r && v.flights[2].call == Returned(reply) && NeverAnswered(v, 2)
  {
    var stored := ReaderStores(s0, s, r, reply, false);
    v := ThirdReaches(s0, stored, r, reply);
  }

  lemma {:induction false} ThirdReaches(s0: System, s: System, r: Request, reply: Reply) returns (v: System)
    requires IsRead(r) && Reaches(s0, s, r, false)
    requires Answers(r, reply) && s.world.connected && |s.flights| == 2
    requires Lookup(s.world, KeyOf(r)) == Some(Encode(reply)) && Answer(s.world.data, r) != reply
    ensures Reaches(s0, v, r, false)
    ensures v.world == s.world && |v.flights| == 3 && v.flights[0] == s.flights[0] && v.flights[1] == s.flights[1]
    ensures v.flights[2].request == r && v.flights[2].call == Returned(reply) && v.flights[2].began == |s.history|
    ensures NeverAnswered(v, 2)
    ensures s.flights[0].call.Returned? && s.flights[1].call.Returned? ==> !SomePending(v, r)
  {
    v := ThirdHits(s, r, reply);
    if s.flights[0].call.Returned? && s.flights[1].call.Returned? {
      AllReturned(v, r);
    }
    ReachesNext(s0, s, Begin(r), r, false);
    ReachesNext(s0, Do(s, Begin(r)), Move(2, FINE), r, false);
  }

  lemma {:induction false} AllReturned(s: System, r: Request)
    requires IsRead(r) && forall k: nat :: k < |s.flights| ==> s.flights[k].call.Returned?
    ensures !SomePending(s, r)
  {
  }

  /** A read that misses and stores its answer, then a write up to its invalidation, then a third call: a calm run. */
  lemma {:induction false} WriteAfterReader(data: Data, now: int, cfg: Config, r: Request, q: Request) returns (t: System)
    requires Applies(data, q) && Answers(r, Answer(data, r)) && !Answer(data, r).NotFound? && PositiveTtl(cfg, r)
    ensures Reaches(Boot(data, now, true, cfg), t, r, true)
    ensures t.world.data == Bare(data, q).0 && t.world.connected && |t.flights| == 2
    ensures Lookup(t.world, KeyOf(r)) == Some(Encode(Answer(data, r))) && t.flights[1].call == DropCall(q)
  {
    var s := Boot(data, now, true, cfg);
    var storing := ReaderMisses(s, r);
    var stored := ReaderStores(s, storing, r, Answer(data, r), true);
    NoneStoring(stored, r);
    t := WriterWrites(s, stored, q, r, true);
  }

  lemma {:induction false} NoneStoring(s: System, r: Request)
    requires forall k: nat :: k < |s.flights| ==> s.flights[k].call.Returned?
    ensures !SomeStoring(s, r)
  {
  }

  /** The pending invalidation: likewise there is a run, calm up to its last step, whose last step answers the old value
      from the cache after the repository has changed. */
  lemma {:induction false} PendingDropBreaksAgreement(data: Data, now: int, cfg: Config, r: Request, q: Request)
    returns (calm: seq<Action>, last: Action)
    requires Matters(data, q, r) && PositiveTtl(cfg, r)
    ensures last.Move? && last.env == FINE && AllFine(calm)
    ensures Runnable(Boot(data, now, true, cfg), calm) && Calm(Boot(data, now, true, cfg), calm, r)
    ensures Runnable(Boot(data, now, true, cfg), calm + [last])
    ensures var v := Exec(Boot(data, now, true, cfg), calm + [last]);
            && v.world.data == Bare(data, q).0 && |v.flights| == 3 && v.flights[1].call == DropCall(q)
            && v.flights[2].request == r && v.flights[2].call == Returned(Answer(data, r)) && NeverAnswered(v, 2)
  {
    MattersFound(data, q, r);
    var s := Boot(data, now, true, cfg);
    var written := WriteAfterReader(data, now, cfg, r, q);
    var v := ThirdHits(written, r, Answer(data, r));
    ReachesNext(s, written, Begin(r), r, true);
    calm :| Leads(s, calm, Do(written, Begin(r)), r, true);
    last := Move(2, FINE);
    assert Leads(s, calm, Do(written, Begin(r)), r, false);
    LeadsOn(s, calm, Do(written, Begin(r)), last, r, false);
  }
}
