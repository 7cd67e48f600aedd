/** Safety of the job system over every run, with crashes between any two sub-steps and publishes that may fail:
    an exact conservation law for message copies, from which the copy bound and the loss accounting follow, and
    the guarantees of the idempotency check and of the retry counter. */
module JobQueueSafety {
  import opened JobQueue

  lemma {:induction false} CopiesConcat(p: seq<Job>, q: seq<Job>, id: string)
    ensures Copies(p + q, id) == Copies(p, id) + Copies(q, id)
  {
    if p == [] {
      assert p + q == q;
    } else {
      assert (p + q)[0] == p[0] && (p + q)[1..] == p[1..] + q;
      CopiesConcat(p[1..], q, id);
    }
  }

  lemma {:induction false} TallySnoc(ids: seq<string>, x: string, id: string)
    ensures Tally(ids + [x], id) == Tally(ids, id) + if x == id then 1 else 0
  {
    if ids == [] {
      assert ids + [x] == [x];
    } else {
      assert (ids + [x])[0] == ids[0] && (ids + [x])[1..] == ids[1..] + [x];
      TallySnoc(ids[1..], x, id);
    }
  }

  lemma {:induction false} SuccessesSnoc(es: seq<Execution>, e: Execution, id: string)
    ensures Successes(es + [e], id) == Successes(es, id) + if e.ok && e.messageId == id then 1 else 0
  {
    if es == [] {
      assert es + [e] == [e];
    } else {
      assert (es + [e])[0] == es[0] && (es + [e])[1..] == es[1..] + [e];
      SuccessesSnoc(es[1..], e, id);
    }
  }

  lemma {:induction false} TallyBound(ids: seq<string>, id: string)
    ensures Tally(ids, id) <= |ids|
    ensures Tally(ids, id) > 0 <==> id in ids
  {
    if ids != [] {
      TallyBound(ids[1..], id);
      assert ids == [ids[0]] + ids[1..];
    }
  }

  lemma {:induction false} SuccessesWitness(es: seq<Execution>, id: string)
    ensures Successes(es, id) > 0 <==> exists i :: 0 <= i < |es| && es[i].ok && es[i].messageId == id
  {
    if es != [] {
      SuccessesWitness(es[1..], id);
      if i :| 0 <= i < |es| && es[i].ok && es[i].messageId == id {
        if i > 0 {
          assert es[1..][i - 1] == es[i];
        }
      }
      if Successes(es[1..], id) > 0 {
        var i :| 0 <= i < |es[1..]| && es[1..][i].ok && es[1..][i].messageId == id;
        assert es[i + 1] == es[1..][i];
      }
    }
  }

  lemma {:induction false} CopiesWitness(q: seq<Job>, id: string)
    ensures Copies(q, id) > 0 <==> exists i :: 0 <= i < |q| && q[i].messageId == id
  {
    if q != [] {
      CopiesWitness(q[1..], id);
      if i :| 0 <= i < |q| && q[i].messageId == id {
        if i > 0 {
          assert q[1..][i - 1] == q[i];
        }
      }
      if Copies(q[1..], id) > 0 {
        var i :| 0 <= i < |q[1..]| && q[1..][i].messageId == id;
        assert q[i + 1] == q[1..][i];
      }
    }
  }

  /** The current delivery of `id` has had its effect but is not yet acknowledged. */
  function Window(s: State, id: string): nat {
    if s.unacked != [] && InWindow(s) && s.unacked[0].messageId == id then 1 else 0
  }

  /** Everything that became of message `id`: its copies, its successful runs, and the deliveries of it that
      were acknowledged without either. */
  function Accounted(s: State, id: string): nat {
    Live(s, id) + Copies(s.dlq, id) + Successes(s.log.executions, id) + Tally(s.log.lost, id) + Tally(s.log.skipped, id)
  }

  function Owed(s: State, id: string): nat {
    (if id in s.log.entered then 1 else 0) + Tally(s.log.repeated, id) + Window(s, id)
  }

  /** Conservation: a message is never created or destroyed except by the publish that entered it, by a crash
      after its effect, and by an acknowledgement. */
  ghost predicate Balanced(s: State) {
    forall id :: Accounted(s, id) == Owed(s, id)
  }

  /** A copy of a job agrees with what the API issued. */
  predicate Genuine(s: State, j: Job) {
    j.messageId in s.log.entered && j.messageId in s.log.issued && j.taskId == s.log.issued[j.messageId]
  }

  predicate Shaped(s: State) {
    && (s.phase != Idle ==> s.unacked != [])
    && (forall j <- s.jobs :: Genuine(s, j) && 1 <= j.attempt <= MAX_ATTEMPTS)
    && (forall j <- s.unacked :: Genuine(s, j) && 1 <= j.attempt <= MAX_ATTEMPTS)
    && (forall j <- s.dlq :: Genuine(s, j) && j.attempt == MAX_ATTEMPTS + 1 && TaskFails(j.taskId))
    && (s.phase == Failed || s.phase.Republished? ==> TaskFails(s.unacked[0].taskId))
    && (s.phase == Succeeded || s.phase == Marked ==> !TaskFails(s.unacked[0].taskId))
    && (forall e <- s.log.executions :: e.messageId in s.log.entered && e.messageId in s.log.issued
          && 1 <= e.attempt <= MAX_ATTEMPTS && e.ok == !TaskFails(s.log.issued[e.messageId]))
    && s.log.entered <= s.log.issued.Keys
    && (forall id <- s.log.accepted :: id in s.log.entered || id in s.log.unsent)
    && (forall id <- s.log.unsent :: id in s.log.issued && id !in s.log.entered)
    && |s.log.repeated| <= s.log.crashes
    && |s.log.unsent| <= s.log.dropped
    && |s.log.lost| + |s.log.unsent| + (if s.phase == Republished(false) then 1 else 0)
       <= s.log.publishErrors + s.log.dropped
  }

  /** `id` completed in the current worker process. */
  predicate CompletedHere(s: State, id: string) {
    exists e <- s.log.executions :: e.ok && e.messageId == id && e.process == s.log.crashes
  }

  /** The processed set is exactly what completed in this process, once the current completion is marked. */
  predicate ProcessedExact(s: State) {
    && (forall id <- s.processed :: CompletedHere(s, id))
    && (forall e <- s.log.executions :: e.process <= s.log.crashes)
    && (forall e <- s.log.executions :: e.ok && e.process == s.log.crashes ==>
          e.messageId in s.processed || (s.phase == Succeeded && s.unacked != [] && s.unacked[0].messageId == e.messageId))
    && (s.phase == Fresh && s.unacked != [] ==> s.unacked[0].messageId !in s.processed)
    && (s.phase == Succeeded && s.unacked != [] ==> CompletedHere(s, s.unacked[0].messageId))
    && (s.phase == Duplicate && s.unacked != [] ==> s.unacked[0].messageId in s.processed)
    && (forall id <- s.log.skipped :: exists e <- s.log.executions :: e.ok && e.messageId == id)
  }

  /** No message completes twice within one worker process. */
  predicate OncePerProcess(es: seq<Execution>) {
    forall i, j :: 0 <= i < j < |es| && es[i].ok && es[j].ok && es[i].messageId == es[j].messageId ==>
        es[i].process < es[j].process
  }

  ghost predicate Safe(s: State) {
    Shaped(s) && Balanced(s) && ProcessedExact(s) && OncePerProcess(s.log.executions)
  }

  lemma {:induction false} ShapedStep(s: State, a: Action)
    requires Shaped(s) && Enabled(s, a)
    ensures Shaped(Step(s, a))
  {
    match a
    case Submit(m, taskId, fate) =>
    case Publish(fate) => ShapedPublish(s, fate);
    case Run => ShapedRun(s);
    case Ack => ShapedAck(s);
    case Crash => ShapedCrash(s);
    case _ =>
  }

  lemma {:induction false} ShapedPublish(s: State, fate: Fate)
    requires Shaped(s) && Enabled(s, Publish(fate))
    ensures Shaped(DoPublish(s, fate))
  {
  }

  lemma {:induction false} ShapedRun(s: State)
    requires Shaped(s) && Enabled(s, Run)
    ensures Shaped(DoRun(s))
  {
  }

  lemma {:induction false} ShapedAck(s: State)
    requires Shaped(s) && Enabled(s, Ack)
    ensures Shaped(DoAck(s))
  {
  }

  lemma {:induction false} ShapedCrash(s: State)
    requires Shaped(s)
    ensures Shaped(DoCrash(s))
  {
  }

  lemma {:induction false} BalancedStep(s: State, a: Action)
    requires Shaped(s) && Balanced(s) && Enabled(s, a)
    ensures Balanced(Step(s, a))
  {
    var t := Step(s, a);
    forall id ensures Accounted(t, id) == Owed(t, id) {
      assert Accounted(s, id) == Owed(s, id);
      BalancedStepFor(s, a, id);
    }
  }

  lemma {:induction false} BalancedStepFor(s: State, a: Action, id: string)
    requires (s.phase != Idle ==> s.unacked != []) && s.log.entered <= s.log.issued.Keys
    requires Enabled(s, a) && Accounted(s, id) == Owed(s, id)
    ensures Accounted(Step(s, a), id) == Owed(Step(s, a), id)
  {
    match a
    case Submit(m, taskId, fate) => BalancedSubmit(s, m, taskId, fate, id);
    case Deliver => BalancedDeliver(s, id);
    case Check =>
    case Run => BalancedRun(s, id);
    case Publish(fate) => BalancedPublish(s, fate, id);
    case MarkDone =>
    case Ack => BalancedAck(s, id);
    case Crash => BalancedCrash(s, id);
  }

  lemma {:induction false} BalancedSubmit(s: State, m: string, taskId: string, fate: Fate, id: string)
    requires m !in s.log.entered && Accounted(s, id) == Owed(s, id)
    ensures Accounted(DoSubmit(s, m, taskId, fate), id) == Owed(DoSubmit(s, m, taskId, fate), id)
  {
    CopiesConcat(s.jobs, [Job(taskId, 1, m)], id);
  }

  lemma {:induction false} BalancedDeliver(s: State, id: string)
    requires Enabled(s, Deliver) && (InWindow(s) ==> s.unacked != []) && Accounted(s, id) == Owed(s, id)
    ensures Accounted(Step(s, Deliver), id) == Owed(Step(s, Deliver), id)
  {
    CopiesConcat(s.unacked, [s.jobs[0]], id);
    assert s.unacked != [] ==> (s.unacked + [s.jobs[0]])[0] == s.unacked[0];
  }

  lemma {:induction false} BalancedRun(s: State, id: string)
    requires Enabled(s, Run) && Accounted(s, id) == Owed(s, id)
    ensures Accounted(DoRun(s), id) == Owed(DoRun(s), id)
  {
    var job := s.unacked[0];
    SuccessesSnoc(s.log.executions, Execution(job.messageId, job.attempt, !TaskFails(job.taskId), s.log.crashes), id);
  }

  lemma {:induction false} BalancedPublish(s: State, fate: Fate, id: string)
    requires Enabled(s, Publish(fate)) && Accounted(s, id) == Owed(s, id)
    ensures Accounted(DoPublish(s, fate), id) == Owed(DoPublish(s, fate), id)
  {
    var job, t := Next(s.unacked[0]), DoPublish(s, fate);
    CopiesConcat(s.jobs, [job], id);
    CopiesConcat(s.dlq, [job], id);
    assert Copies([job], id) == if s.unacked[0].messageId == id then 1 else 0;
    if !fate.Stored() {
      assert t.jobs == s.jobs && t.dlq == s.dlq;
    } else if job.attempt <= MAX_ATTEMPTS {
      assert t.jobs == s.jobs + [job] && t.dlq == s.dlq;
    } else {
      assert t.jobs == s.jobs && t.dlq == s.dlq + [job];
    }
  }

  lemma {:induction false} BalancedCrash(s: State, id: string)
    requires Accounted(s, id) == Owed(s, id)
    ensures Accounted(DoCrash(s), id) == Owed(DoCrash(s), id)
  {
    CopiesConcat(s.unacked, s.jobs, id);
    if s.unacked != [] {
      TallySnoc(s.log.repeated, s.unacked[0].messageId, id);
    }
  }

  lemma {:induction false} BalancedAck(s: State, id: string)
    requires Enabled(s, Ack) && Accounted(s, id) == Owed(s, id)
    ensures Accounted(DoAck(s), id) == Owed(DoAck(s), id)
  {
    TallySnoc(s.log.lost, s.unacked[0].messageId, id);
    TallySnoc(s.log.skipped, s.unacked[0].messageId, id);
  }

  lemma {:induction false} ProcessedStep(s: State, a: Action)
    requires Shaped(s) && ProcessedExact(s) && OncePerProcess(s.log.executions) && Enabled(s, a)
    ensures ProcessedExact(Step(s, a)) && OncePerProcess(Step(s, a).log.executions)
  {
    match a
    case Run => ProcessedRun(s);
    case MarkDone => ProcessedMark(s);
    case Ack => ProcessedAck(s);
    case Crash =>
    case _ =>
  }

  lemma {:induction false} ProcessedAck(s: State)
    requires ProcessedExact(s) && Enabled(s, Ack)
    ensures ProcessedExact(DoAck(s))
  {
    assert s.phase == Duplicate ==> CompletedHere(s, s.unacked[0].messageId);
  }

  lemma {:induction false} ProcessedRun(s: State)
    requires ProcessedExact(s) && OncePerProcess(s.log.executions) && Enabled(s, Run)
    ensures ProcessedExact(DoRun(s)) && OncePerProcess(DoRun(s).log.executions)
  {
    var t := DoRun(s);
    var es, fs := s.log.executions, t.log.executions;
    var e := fs[|es|];
    assert fs == es + [e];
    assert forall x :: x in fs <==> x in es || x == e;
    OnceMore(s);
  }

  lemma {:induction false} OnceMore(s: State)
    requires ProcessedExact(s) && OncePerProcess(s.log.executions) && Enabled(s, Run)
    ensures OncePerProcess(DoRun(s).log.executions)
  {
    var es, fs := s.log.executions, DoRun(s).log.executions;
    assert forall i :: 0 <= i < |es| ==> fs[i] == es[i] && es[i] in es;
  }

  lemma {:induction false} ProcessedMark(s: State)
    requires ProcessedExact(s) && Enabled(s, MarkDone)
    requires CompletedHere(s, s.unacked[0].messageId)
    ensures ProcessedExact(Step(s, MarkDone))
  {
  }

  /** Every state of every run is safe. */
  lemma {:induction false} AlwaysSafe(prefetch: nat, acts: seq<Action>)
    requires Runnable(Initial(prefetch), acts)
    ensures Safe(Exec(Initial(prefetch), acts))
  {
    SafeFrom(Initial(prefetch), acts);
  }

  lemma {:induction false} SafeFrom(s: State, acts: seq<Action>)
    requires Safe(s) && Runnable(s, acts)
    ensures Safe(Exec(s, acts))
    decreases |acts|
  {
    if acts != [] {
      ShapedStep(s, acts[0]);
      BalancedStep(s, acts[0]);
      ProcessedStep(s, acts[0]);
      SafeFrom(Step(s, acts[0]), acts[1..]);
    }
  }

  /** Copy bound: live copies, dead-lettered copies and successful runs of one message together never exceed one
      plus the crashes so far, plus one only while its delivery is between its effect and its acknowledgement. */
  lemma {:induction false} CopyBound(prefetch: nat, acts: seq<Action>, id: string)
    requires Runnable(Initial(prefetch), acts)
    ensures var s := Exec(Initial(prefetch), acts);
            Live(s, id) + Copies(s.dlq, id) + Successes(s.log.executions, id) <= 1 + s.log.crashes + Window(s, id)
  {
    AlwaysSafe(prefetch, acts);
    var s := Exec(Initial(prefetch), acts);
    assert Accounted(s, id) == Owed(s, id);
    TallyBound(s.log.repeated, id);
  }

  /** The accepted messages of which nothing is left: no copy anywhere and no successful run. */
  function Missing(s: State): set<string> {
    set id | id in s.log.accepted && Live(s, id) == 0 && Copies(s.dlq, id) == 0 && Successes(s.log.executions, id) == 0
  }

  lemma {:induction false} SetOfSeqBound(ids: seq<string>, xs: set<string>)
    requires forall x <- xs :: x in ids
    ensures |xs| <= |ids|
  {
    if ids == [] {
      assert xs == {};
    } else {
      SetOfSeqBound(ids[1..], xs - {ids[0]});
    }
  }

  /** Loss accounting: an accepted message goes missing only through a publish that stored nothing, the API's own or
      that of an acknowledged delivery. So no more messages are missing than publishes that returned an error or
      silently stored nothing; when a publish that returns no error always stores, than publishes that returned one. */
  lemma {:induction false} LossAccounting(prefetch: nat, acts: seq<Action>)
    requires Runnable(Initial(prefetch), acts)
    ensures var s := Exec(Initial(prefetch), acts);
            && (forall id <- Missing(s) :: id in s.log.lost || id in s.log.unsent)
            && |Missing(s)| <= |s.log.lost| + |s.log.unsent| <= s.log.publishErrors + s.log.dropped
            && (s.log.dropped == 0 ==> |Missing(s)| <= s.log.publishErrors)
            && (s.log.publishErrors == 0 && s.log.dropped == 0 ==> Missing(s) == {})
  {
    AlwaysSafe(prefetch, acts);
    var s := Exec(Initial(prefetch), acts);
    forall id | id in Missing(s) ensures id in s.log.lost + s.log.unsent {
      if id !in s.log.unsent {
        assert Accounted(s, id) == Owed(s, id);
        TallyBound(s.log.lost, id);
        TallyBound(s.log.skipped, id);
        SuccessesWitness(s.log.executions, id);
      }
    }
    SetOfSeqBound(s.log.lost + s.log.unsent, Missing(s));
  }

  /** Idempotency: two successful runs of one message are always separated by a crash of the worker. */
  lemma {:induction false} AtMostOncePerProcess(prefetch: nat, acts: seq<Action>, i: nat, j: nat)
    requires Runnable(Initial(prefetch), acts)
    requires var es := Exec(Initial(prefetch), acts).log.executions;
             i < j < |es| && es[i].ok && es[j].ok && es[i].messageId == es[j].messageId
    ensures var s := Exec(Initial(prefetch), acts);
            s.log.executions[i].process < s.log.executions[j].process <= s.log.crashes
  {
    AlwaysSafe(prefetch, acts);
  }

  /** No message is both completed and dead-lettered, whatever crashes and publish failures happened. */
  lemma {:induction false} CompletedOrDead(prefetch: nat, acts: seq<Action>, id: string)
    requires Runnable(Initial(prefetch), acts)
    ensures var s := Exec(Initial(prefetch), acts);
            Successes(s.log.executions, id) == 0 || Copies(s.dlq, id) == 0
  {
    AlwaysSafe(prefetch, acts);
    var s := Exec(Initial(prefetch), acts);
    SuccessesWitness(s.log.executions, id);
    CopiesWitness(s.dlq, id);
  }

  /** Message `id` was executed, unsuccessfully, with attempts 1, 2, .., n at increasing moments. */
  predicate FailedThrough(es: seq<Execution>, id: string, n: nat)
    decreases n
  {
    n == 0 || exists i :: 0 <= i < |es| && es[i].messageId == id && es[i].attempt == n && !es[i].ok
                          && FailedThrough(es[..i], id, n - 1)
  }

  lemma {:induction false} FailedThroughGrows(es: seq<Execution>, e: Execution, id: string, n: nat)
    requires FailedThrough(es, id, n)
    ensures FailedThrough(es + [e], id, n)
  {
    if n > 0 {
      var i :| 0 <= i < |es| && es[i].messageId == id && es[i].attempt == n && !es[i].ok && FailedThrough(es[..i], id, n - 1);
      assert (es + [e])[i] == es[i] && (es + [e])[..i] == es[..i];
    }
  }

  /** Every copy has earned its attempt number. */
  predicate Earned(s: State) {
    && (forall j <- s.jobs :: j.attempt > 0 && FailedThrough(s.log.executions, j.messageId, j.attempt - 1))
    && (forall j <- s.unacked :: j.attempt > 0 && FailedThrough(s.log.executions, j.messageId, j.attempt - 1))
    && (forall j <- s.dlq :: j.attempt > 0 && FailedThrough(s.log.executions, j.messageId, j.attempt - 1))
    && (s.phase == Failed && s.unacked != [] ==>
          FailedThrough(s.log.executions, s.unacked[0].messageId, s.unacked[0].attempt))
  }

  lemma {:induction false} EarnedRun(s: State)
    requires Earned(s) && Enabled(s, Run)
    ensures Earned(DoRun(s))
  {
    var es, job := s.log.executions, s.unacked[0];
    var e := Execution(job.messageId, job.attempt, !TaskFails(job.taskId), s.log.crashes);
    forall j: Job | (j in s.jobs || j in s.unacked || j in s.dlq) && j.attempt > 0
      ensures FailedThrough(es + [e], j.messageId, j.attempt - 1)
    {
      FailedThroughGrows(es, e, j.messageId, j.attempt - 1);
    }
    assert (es + [e])[|es|] == e && (es + [e])[..|es|] == es;
  }

  lemma {:induction false} EarnedStep(s: State, a: Action)
    requires Earned(s) && Enabled(s, a) && (s.phase != Idle ==> s.unacked != [])
    ensures Earned(Step(s, a))
  {
    match a
    case Run => EarnedRun(s);
    case Publish(fate) => EarnedPublish(s, fate);
    case Crash => EarnedCrash(s);
    case _ =>
  }

  lemma {:induction false} EarnedPublish(s: State, fate: Fate)
    requires Earned(s) && Enabled(s, Publish(fate))
    ensures Earned(DoPublish(s, fate))
  {
  }

  lemma {:induction false} EarnedCrash(s: State)
    requires Earned(s)
    ensures Earned(DoCrash(s))
  {
  }

  lemma {:induction false} EarnedFrom(s: State, acts: seq<Action>)
    requires Shaped(s) && Earned(s) && Runnable(s, acts)
    ensures Earned(Exec(s, acts))
    decreases |acts|
  {
    if acts != [] {
      ShapedStep(s, acts[0]);
      EarnedStep(s, acts[0]);
      EarnedFrom(Step(s, acts[0]), acts[1..]);
    }
  }

  /** A job reaches the DLQ only after failing with attempts 1, 2 and 3, in that order, under every crash. */
  lemma {:induction false} DeadLettersEarned(prefetch: nat, acts: seq<Action>, j: Job)
    requires Runnable(Initial(prefetch), acts) && j in Exec(Initial(prefetch), acts).dlq
    ensures j.attempt == MAX_ATTEMPTS + 1 && TaskFails(j.taskId)
    ensures FailedThrough(Exec(Initial(prefetch), acts).log.executions, j.messageId, MAX_ATTEMPTS)
  {
    AlwaysSafe(prefetch, acts);
    EarnedFrom(Initial(prefetch), acts);
  }
}
