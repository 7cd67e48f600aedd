/** What the job system achieves: it always terminates and drains, and without crashes and publish errors the
    drained system holds exactly the right outcome for every accepted message. */
module JobQueueDrain {
  import opened JobQueue
  import opened JobQueueExact
  import opened JobQueueSafety

  lemma {:induction false} AttemptsSnoc(es: seq<Execution>, e: Execution, id: string)
    ensures AttemptsOf(es + [e], id) == AttemptsOf(es, id) + if e.messageId == id then [e.attempt] else []
  {
    if es == [] {
      assert es + [e] == [e];
    } else {
      assert (es + [e])[0] == es[0] && (es + [e])[1..] == es[1..] + [e];
      AttemptsSnoc(es[1..], e, id);
      var head := if es[0].messageId == id then [es[0].attempt] else [];
      var last := if e.messageId == id then [e.attempt] else [];
      Associate(head, AttemptsOf(es[1..], id), last);
    }
  }

  lemma {:induction false} Associate(a: seq<nat>, b: seq<nat>, c: seq<nat>)
    ensures a + (b + c) == (a + b) + c
  {
  }

  lemma {:induction false} NoAttempts(es: seq<Execution>, id: string)
    requires forall e <- es :: e.messageId != id
    ensures AttemptsOf(es, id) == []
  {
    if es != [] {
      NoAttempts(es[1..], id);
    }
  }

  // ---- Outcome of a run without faults ------------------------------------------------------------------

  predicate FaultFree(s: State) {
    s.log.crashes == 0 && s.log.publishErrors == 0 && s.log.dropped == 0
  }

  /** The current delivery has been executed. */
  predicate Executed(s: State) {
    s.unacked != [] && (s.phase == Failed || s.phase.Republished? || s.phase == Succeeded || s.phase == Marked)
  }

  /** The job was executed with every attempt number below its own, in order, and with no other. */
  predicate RanBefore(s: State, j: Job) {
    j.attempt > 0 && AttemptsOf(s.log.executions, j.messageId) == UpTo(j.attempt - 1)
  }

  /** Every copy's history is exactly [1, .., attempt - 1], the executed delivery's [1, .., attempt], and a
      completed message's [1]. */
  predicate Punctual(s: State) {
    && (forall j <- s.jobs :: RanBefore(s, j))
    && (forall j <- s.dlq :: RanBefore(s, j))
    && (forall i :: 0 <= i < |s.unacked| && (i > 0 || !Executed(s)) ==> RanBefore(s, s.unacked[i]))
    && (Executed(s) ==> AttemptsOf(s.log.executions, s.unacked[0].messageId) == UpTo(s.unacked[0].attempt))
    && (s.phase == Succeeded || s.phase == Marked ==> s.unacked != [] && s.unacked[0].attempt == 1)
    && (forall e <- s.log.executions :: e.ok ==> AttemptsOf(s.log.executions, e.messageId) == UpTo(1))
    && s.log.skipped == [] && s.log.lost == [] && s.log.repeated == []
    && s.log.entered == s.log.accepted == s.log.issued.Keys
  }

  /** In a fault-free state a message about to run has no other copy, and never ran successfully. */
  lemma {:induction false} SoleCopy(s: State)
    requires Safe(s) && Punctual(s) && Enabled(s, Run)
    ensures var id := s.unacked[0].messageId;
            && Copies(s.jobs, id) == 0 && Copies(s.dlq, id) == 0 && Copies(s.unacked[1..], id) == 0
            && Successes(s.log.executions, id) == 0
  {
    var id := s.unacked[0].messageId;
    assert Accounted(s, id) == Owed(s, id);
  }

  /** Running the sole copy of a message changes the history of that message only. */
  lemma {:induction false} HistoryAfterRun(s: State, m: string)
    requires Enabled(s, Run)
    ensures var job := s.unacked[0];
            AttemptsOf(DoRun(s).log.executions, m)
              == AttemptsOf(s.log.executions, m) + if m == job.messageId then [job.attempt] else []
  {
    var job := s.unacked[0];
    AttemptsSnoc(s.log.executions, Execution(job.messageId, job.attempt, !TaskFails(job.taskId), s.log.crashes), m);
  }

  lemma {:induction false} PunctualRun(s: State)
    requires Safe(s) && Punctual(s) && Enabled(s, Run)
    ensures Punctual(DoRun(s))
  {
    var t, job := DoRun(s), s.unacked[0];
    var es, id := s.log.executions, job.messageId;
    forall m ensures AttemptsOf(t.log.executions, m) == AttemptsOf(es, m) + if m == id then [job.attempt] else [] {
      HistoryAfterRun(s, m);
    }
    assert UpTo(job.attempt) == UpTo(job.attempt - 1) + [job.attempt];
    OthersElsewhere(s);
    if !TaskFails(job.taskId) && job.attempt > 1 {
      SoleCopy(s);
      RanMeansFailed(s, job);
    }
    PunctualAfterRun(s);
  }

  lemma {:induction false} OthersElsewhere(s: State)
    requires Safe(s) && Punctual(s) && Enabled(s, Run)
    ensures var id := s.unacked[0].messageId;
            && (forall j <- s.jobs :: j.messageId != id)
            && (forall j <- s.dlq :: j.messageId != id)
            && (forall i :: 0 < i < |s.unacked| ==> s.unacked[i].messageId != id)
            && (forall e <- s.log.executions :: e.ok ==> e.messageId != id)
  {
    var id := s.unacked[0].messageId;
    SoleCopy(s);
    CopiesWitness(s.jobs, id);
    CopiesWitness(s.dlq, id);
    CopiesWitness(s.unacked[1..], id);
    SuccessesWitness(s.log.executions, id);
    assert forall i :: 0 < i < |s.unacked| ==> s.unacked[i] == s.unacked[1..][i - 1];
  }

  lemma {:induction false} PunctualAfterRun(s: State)
    requires Punctual(s) && Enabled(s, Run)
    requires var job, t := s.unacked[0], DoRun(s);
             && (forall m: string {:trigger AttemptsOf(t.log.executions, m)} :: AttemptsOf(t.log.executions, m)
                   == AttemptsOf(s.log.executions, m) + if m == job.messageId then [job.attempt] else [])
             && UpTo(job.attempt) == UpTo(job.attempt - 1) + [job.attempt]
             && (forall j <- s.jobs :: j.messageId != job.messageId)
             && (forall j <- s.dlq :: j.messageId != job.messageId)
             && (forall i :: 0 < i < |s.unacked| ==> s.unacked[i].messageId != job.messageId)
             && (forall e <- s.log.executions :: e.ok ==> e.messageId != job.messageId)
             && (TaskFails(job.taskId) || job.attempt == 1)
    ensures Punctual(DoRun(s))
  {
  }

  /** A job past its first attempt has failed before, so its task fails. */
  lemma {:induction false} RanMeansFailed(s: State, j: Job)
    requires Shaped(s) && Genuine(s, j) && RanBefore(s, j) && j.attempt > 1
    requires Successes(s.log.executions, j.messageId) == 0
    ensures TaskFails(j.taskId)
  {
    SuccessesWitness(s.log.executions, j.messageId);
    if !TaskFails(j.taskId) {
      NoAttempts(s.log.executions, j.messageId);
    }
  }

  lemma {:induction false} PunctualSubmit(s: State, m: string, taskId: string)
    requires Shaped(s) && Punctual(s) && Enabled(s, Submit(m, taskId, Confirmed))
    ensures Punctual(DoSubmit(s, m, taskId, Confirmed))
  {
    NoAttempts(s.log.executions, m);
  }

  lemma {:induction false} PunctualPublish(s: State)
    requires Punctual(s) && Enabled(s, Publish(Confirmed))
    ensures Punctual(DoPublish(s, Confirmed))
  {
  }

  lemma {:induction false} PunctualAck(s: State)
    requires Shaped(s) && Punctual(s) && Enabled(s, Ack) && s.phase != Republished(false)
    requires s.phase != Duplicate
    ensures Punctual(DoAck(s))
  {
  }

  lemma {:induction false} PunctualDeliver(s: State)
    requires Shaped(s) && Punctual(s) && Enabled(s, Deliver)
    ensures Punctual(Step(s, Deliver))
  {
    var t := Step(s, Deliver);
    assert s.jobs[0] in s.jobs;
    assert s.unacked != [] ==> t.unacked[0] == s.unacked[0];
  }

  ghost predicate Good(s: State) {
    Safe(s) && Exact(s) && (FaultFree(s) ==> Punctual(s) && s.phase != Republished(false))
  }

  lemma {:induction false} FaultFreeBefore(s: State, a: Action)
    requires Enabled(s, a) && FaultFree(Step(s, a))
    ensures FaultFree(s) && a != Crash
    ensures (a.Submit? ==> a.fate == Confirmed) && (a.Publish? ==> a.fate == Confirmed)
  {
  }

  lemma {:induction false} PunctualStep(s: State, a: Action)
    requires Good(s) && Enabled(s, a)
    ensures var t := Step(s, a);
            FaultFree(t) ==> Punctual(t) && t.phase != Republished(false)
  {
    if FaultFree(Step(s, a)) {
      FaultFreeBefore(s, a);
      match a
      case Submit(m, taskId, fate) => PunctualSubmit(s, m, taskId);
      case Deliver => PunctualDeliver(s);
      case Check =>
      case Run => PunctualRun(s);
      case Publish(fate) => PunctualPublish(s);
      case MarkDone =>
      case Ack => PunctualAck(s);
      case Crash =>
    }
  }

  lemma {:induction false} GoodStep(s: State, a: Action)
    requires Good(s) && Enabled(s, a)
    ensures Good(Step(s, a))
  {
    ShapedStep(s, a);
    BalancedStep(s, a);
    ProcessedStep(s, a);
    ExactStep(s, a);
    PunctualStep(s, a);
  }

  lemma {:induction false} GoodFrom(s: State, acts: seq<Action>)
    requires Good(s) && Runnable(s, acts)
    ensures Good(Exec(s, acts))
    decreases |acts|
  {
    if acts != [] {
      GoodStep(s, acts[0]);
      GoodFrom(Step(s, acts[0]), acts[1..]);
    }
  }

  /** What the drained system must hold for message `id`, if it was accepted: a task that succeeds ran exactly
      once and left nothing; a task that fails ran with attempts 1, 2, 3 and left exactly one dead letter. */
  predicate Settled(s: State, id: string)
    requires s.log.accepted <= s.log.issued.Keys
  {
    if id !in s.log.accepted then
      AttemptsOf(s.log.executions, id) == [] && Copies(s.dlq, id) == 0
    else if TaskFails(s.log.issued[id]) then
      && AttemptsOf(s.log.executions, id) == [1, 2, 3] && Successes(s.log.executions, id) == 0
      && Copies(s.dlq, id) == 1
    else
      && AttemptsOf(s.log.executions, id) == [1] && Successes(s.log.executions, id) == 1
      && Copies(s.dlq, id) == 0
  }

  /** Drain correctness: after any fault-free run that emptied the queue, every message is settled. */
  lemma {:induction false} DrainCorrect(prefetch: nat, acts: seq<Action>, id: string)
    requires Runnable(Initial(prefetch), acts)
    requires FaultFree(Exec(Initial(prefetch), acts)) && Drained(Exec(Initial(prefetch), acts))
    ensures Exec(Initial(prefetch), acts).log.accepted <= Exec(Initial(prefetch), acts).log.issued.Keys
    ensures Settled(Exec(Initial(prefetch), acts), id)
  {
    GoodFrom(Initial(prefetch), acts);
    SettledWhenDrained(Exec(Initial(prefetch), acts), id);
  }

  lemma {:induction false} SettledWhenDrained(s: State, id: string)
    requires Good(s) && FaultFree(s) && Drained(s)
    ensures Settled(s, id)
  {
    var es := s.log.executions;
    assert Accounted(s, id) == Owed(s, id);
    SuccessesWitness(es, id);
    CopiesWitness(s.dlq, id);
    if id !in s.log.accepted {
      NoAttempts(es, id);
    } else if Copies(s.dlq, id) > 0 {
      var i :| 0 <= i < |s.dlq| && s.dlq[i].messageId == id;
      DeadLetterHistory(s, i);
    } else {
      var i :| 0 <= i < |es| && es[i].ok && es[i].messageId == id;
      assert es[i] in es && UpTo(1) == [1];
    }
  }

  lemma {:induction false} DeadLetterHistory(s: State, i: nat)
    requires Shaped(s) && Punctual(s) && i < |s.dlq|
    ensures var id := s.dlq[i].messageId;
            && AttemptsOf(s.log.executions, id) == [1, 2, 3]
            && id in s.log.issued && TaskFails(s.log.issued[id])
  {
    assert s.dlq[i] in s.dlq && RanBefore(s, s.dlq[i]);
    assert UpTo(3) == [1, 2, 3];
  }

  // ---- Termination --------------------------------------------------------------------------------------

  /** Deliveries a queued job may still need. */
  function Weight(q: seq<Job>): nat {
    if q == [] then 0 else (if q[0].attempt < 4 then 4 - q[0].attempt else 0) + Weight(q[1..])
  }

  lemma {:induction false} WeightConcat(p: seq<Job>, q: seq<Job>)
    ensures Weight(p + q) == Weight(p) + Weight(q)
  {
    if p == [] {
      assert p + q == q;
    } else {
      assert (p + q)[0] == p[0] && (p + q)[1..] == p[1..] + q;
      WeightConcat(p[1..], q);
    }
  }

  lemma {:induction false} WeightAtLeastLength(q: seq<Job>)
    requires forall j <- q :: j.attempt <= MAX_ATTEMPTS
    ensures Weight(q) >= |q|
  {
    if q != [] {
      WeightAtLeastLength(q[1..]);
    }
  }

  /** Deliveries still needed by the whole system; a re-published delivery only needs its acknowledgement. */
  function Work(s: State): nat {
    Weight(s.jobs) +
    if s.unacked == [] then 0
    else if s.phase.Republished? then 1 + Weight(s.unacked[1..])
    else Weight(s.unacked)
  }

  predicate Quiet(a: Action) {
    !a.Submit? && !a.Crash?
  }

  lemma {:induction false} WorkStep(s: State, a: Action)
    requires Shaped(s) && Enabled(s, a)
    ensures Quiet(a) ==> Work(Step(s, a)) + (if a == Ack then 1 else 0) <= Work(s)
    ensures a == Crash ==> Work(Step(s, a)) <= Work(s) + 2
    ensures a.Submit? ==> Work(Step(s, a)) <= Work(s) + 3
  {
    match a
    case Submit(m, taskId, fate) => WeightConcat(s.jobs, [Job(taskId, 1, m)]);
    case Deliver => WorkDeliver(s);
    case Publish(fate) => WorkPublish(s, fate);
    case Crash => WeightConcat(s.unacked, s.jobs);
    case _ =>
  }

  lemma {:induction false} WorkDeliver(s: State)
    requires Shaped(s) && Enabled(s, Deliver)
    ensures Work(Step(s, Deliver)) == Work(s)
  {
    var t := Step(s, Deliver);
    WeightConcat(s.unacked, [s.jobs[0]]);
    if s.unacked != [] {
      assert t.unacked[1..] == s.unacked[1..] + [s.jobs[0]];
      WeightConcat(s.unacked[1..], [s.jobs[0]]);
    }
  }

  lemma {:induction false} WorkPublish(s: State, fate: Fate)
    requires Shaped(s) && Enabled(s, Publish(fate))
    ensures Work(DoPublish(s, fate)) <= Work(s)
  {
    WeightConcat(s.jobs, [Next(s.unacked[0])]);
  }

  /** Number of actions of one kind in a run. */
  function Crashes(acts: seq<Action>): nat {
    if acts == [] then 0 else (if acts[0] == Crash then 1 else 0) + Crashes(acts[1..])
  }

  function Submits(acts: seq<Action>): nat {
    if acts == [] then 0 else (if acts[0].Submit? then 1 else 0) + Submits(acts[1..])
  }

  function Acks(acts: seq<Action>): nat {
    if acts == [] then 0 else (if acts[0] == Ack then 1 else 0) + Acks(acts[1..])
  }

  lemma {:induction false} AckBudget(s: State, acts: seq<Action>)
    requires Shaped(s) && Runnable(s, acts)
    ensures Acks(acts) + Work(Exec(s, acts)) <= Work(s) + 3 * Submits(acts) + 2 * Crashes(acts)
    decreases |acts|
  {
    if acts != [] {
      ShapedStep(s, acts[0]);
      WorkStep(s, acts[0]);
      AckBudget(Step(s, acts[0]), acts[1..]);
    }
  }

  /** Over every run at most three deliveries are completed per submitted job, plus two per crash. */
  lemma {:induction false} DeliveriesBounded(prefetch: nat, acts: seq<Action>)
    requires Runnable(Initial(prefetch), acts)
    ensures Acks(acts) <= 3 * Submits(acts) + 2 * Crashes(acts)
  {
    AckBudget(Initial(prefetch), acts);
  }

  function PhaseRank(p: Phase): nat {
    match p
    case Idle => 4
    case Fresh => 3
    case Duplicate => 3
    case Failed => 2
    case Succeeded => 2
    case Marked => 1
    case Republished(_) => 0
  }

  /** Steps the system can still take without a crash or a submission. */
  function Fuel(s: State): nat {
    6 * Work(s) + |s.jobs| + PhaseRank(s.phase)
  }

  lemma {:induction false} FuelStep(s: State, a: Action)
    requires Shaped(s) && Enabled(s, a)
    ensures Quiet(a) ==> Fuel(Step(s, a)) < Fuel(s)
    ensures a == Crash ==> Fuel(Step(s, a)) <= 2 * Fuel(s) + 16
  {
    WorkStep(s, a);
    if a == Crash {
      if s.phase.Republished? {
        WeightAtLeastLength(s.unacked[1..]);
      } else {
        WeightAtLeastLength(s.unacked);
      }
    }
  }

  /** Longest run with `crashes` crashes and no submission from a state with `fuel`. */
  function MaxSteps(fuel: nat, crashes: nat): nat
    decreases crashes
  {
    if crashes == 0 then fuel else fuel + 1 + MaxSteps(2 * fuel + 16, crashes - 1)
  }

  lemma {:induction false} MaxStepsMonotone(small: nat, large: nat, crashes: nat)
    requires small <= large
    ensures MaxSteps(small, crashes) + large - small <= MaxSteps(large, crashes)
    decreases crashes
  {
    if crashes > 0 {
      MaxStepsMonotone(2 * small + 16, 2 * large + 16, crashes - 1);
    }
  }

  /** Termination: once submissions stop, a run with finitely many crashes is finite, with an explicit bound. */
  lemma {:induction false} RunsAreFinite(s: State, acts: seq<Action>)
    requires Shaped(s) && Runnable(s, acts) && Submits(acts) == 0
    ensures |acts| <= MaxSteps(Fuel(s), Crashes(acts))
    decreases |acts|
  {
    if acts != [] {
      var t := Step(s, acts[0]);
      ShapedStep(s, acts[0]);
      FuelStep(s, acts[0]);
      RunsAreFinite(t, acts[1..]);
      OneStepLess(Fuel(s), Fuel(t), Crashes(acts), acts[0] == Crash);
    }
  }

  /** One step more than the longest run after it. */
  lemma {:induction false} OneStepLess(before: nat, after: nat, crashes: nat, crash: bool)
    requires if crash then crashes > 0 && after <= 2 * before + 16 else after < before
    ensures 1 + MaxSteps(after, if crash then crashes - 1 else crashes) <= MaxSteps(before, crashes)
  {
    if crash {
      MaxStepsMonotone(after, 2 * before + 16, crashes - 1);
    } else {
      MaxStepsMonotone(after, before, crashes);
    }
  }

  /** Progress: a system that can take no step but a crash or a submission is drained. */
  lemma {:induction false} StuckMeansDrained(prefetch: nat, acts: seq<Action>)
    requires Runnable(Initial(prefetch), acts)
    ensures var s := Exec(Initial(prefetch), acts);
            (forall a :: Quiet(a) ==> !Enabled(s, a)) <==> Drained(s)
  {
    AlwaysSafe(prefetch, acts);
    PrefetchKept(Initial(prefetch), acts);
    var s := Exec(Initial(prefetch), acts);
    if !Drained(s) {
      assert Enabled(s, Deliver) || Enabled(s, Check) || Enabled(s, Run) || Enabled(s, Publish(Confirmed))
          || Enabled(s, MarkDone) || Enabled(s, Ack);
      assert Quiet(Deliver) && Quiet(Check) && Quiet(Run) && Quiet(Publish(Confirmed)) && Quiet(MarkDone) && Quiet(Ack);
    }
  }

  lemma {:induction false} PrefetchKept(s: State, acts: seq<Action>)
    requires Runnable(s, acts) && (s.prefetch == 0 || |s.unacked| <= s.prefetch)
    ensures var t := Exec(s, acts); t.prefetch == s.prefetch && (t.prefetch == 0 || |t.unacked| <= t.prefetch)
    decreases |acts|
  {
    if acts != [] {
      PrefetchKept(Step(s, acts[0]), acts[1..]);
    }
  }
}
