/** The worker process, the API handler and the objects they share, in imperative form. Each method is proved
    against the transition system: its effect is that of the steps it stands for. */
module JobWorker {
  import opened JobQueue
  import opened JobQueueSafety
  import opened JobQueueDrain
  import opened JobQueueExact

  /** The in-memory idempotency store of one worker process. */
  class ProcessedStore {
    var items: map<string, bool>

    ghost function Ids(): set<string>
      reads this
    {
      set id | id in items && items[id]
    }

    constructor ()
      ensures Ids() == {}
    {
      items := map[];
    }

    method Exists(id: string) returns (found: bool)
      ensures found <==> id in Ids()
    {
      found := id in items && items[id];
    }

    method MarkDone(id: string)
      modifies this
      ensures Ids() == old(Ids()) + {id}
    {
      items := items[id := true];
    }
  }

  /** The message broker: the jobs queue, the deliveries handed to the worker, and the dead-letter queue. */
  class Broker {
    var jobs: seq<Job>
    var unacked: seq<Job>
    var dlq: seq<Job>
    const prefetch: nat
    ghost var log: Log

    ghost function View(processed: set<string>, phase: Phase): State
      reads this
    {
      State(jobs, unacked, dlq, processed, phase, prefetch, log)
    }

    constructor (prefetch: nat)
      ensures this.prefetch == prefetch
      ensures forall ids, phase :: View(ids, phase) == Initial(prefetch).(processed := ids, phase := phase)
    {
      jobs, unacked, dlq, log := [], [], [], EMPTY_LOG;
      this.prefetch := prefetch;
    }

    method Deliver()
      requires jobs != [] && (prefetch == 0 || |unacked| < prefetch)
      modifies this`jobs, this`unacked
      ensures jobs == old(jobs[1..]) && unacked == old(unacked + [jobs[0]])
    {
      unacked := unacked + [jobs[0]];
      jobs := jobs[1..];
    }

    method PublishJob(toDlq: bool, job: Job, fate: Fate) returns (err: bool)
      modifies this`jobs, this`dlq
      ensures err == fate.Failed()
      ensures jobs == if fate.Stored() && !toDlq then old(jobs) + [job] else old(jobs)
      ensures dlq == if fate.Stored() && toDlq then old(dlq) + [job] else old(dlq)
    {
      err := fate == ErrorLost || fate == ErrorStored;
      if fate == Confirmed || fate == ErrorStored {
        if toDlq {
          dlq := dlq + [job];
        } else {
          jobs := jobs + [job];
        }
      }
    }

    method AckFirst()
      requires unacked != []
      modifies this`unacked
      ensures unacked == old(unacked[1..])
    {
      unacked := unacked[1..];
    }

    /** The consumer's connection closed: its unacknowledged deliveries go back to the head of the queue. */
    method Requeue()
      modifies this`jobs, this`unacked
      ensures jobs == old(unacked + jobs) && unacked == []
    {
      jobs := unacked + jobs;
      unacked := [];
    }
  }

  datatype Option<T> = None | Some(value: T)

  /** The handler of POST /v1/jobs/process-task. `taskId` is what decoding the body yielded. */
  method PostProcessTask(broker: Broker, authorized: bool, taskId: Option<string>, messageId: string, fate: Fate)
    returns (status: int)
    requires messageId !in broker.log.issued
    modifies broker`jobs, broker`dlq, broker`log
    ensures status in {202, 400, 401, 500}
    ensures status == 401 <==> !authorized
    ensures status == 400 <==> authorized && (taskId.None? || taskId.value == "")
    ensures status == 500 <==> authorized && taskId.Some? && taskId.value != "" && (fate == ErrorLost || fate == ErrorStored)
    ensures status == 202 <==> authorized && taskId.Some? && taskId.value != "" && (fate == Confirmed || fate == Dropped)
    ensures broker.jobs == if status in {202, 500} && (fate == Confirmed || fate == ErrorStored)
                           then old(broker.jobs) + [Job(taskId.value, 1, messageId)] else old(broker.jobs)
    ensures broker.dlq == old(broker.dlq)
    ensures status in {400, 401} ==> forall ids, phase :: broker.View(ids, phase) == old(broker.View(ids, phase))
    ensures status in {202, 500} ==> forall ids, phase ::
                && Enabled(old(broker.View(ids, phase)), Submit(messageId, taskId.value, fate))
                && broker.View(ids, phase) == Step(old(broker.View(ids, phase)), Submit(messageId, taskId.value, fate))
    ensures broker.log.accepted == old(broker.log.accepted) + if status == 202 then {messageId} else {}
  {
    if !authorized {
      return 401;
    }
    if taskId.None? || taskId.value == "" {
      return 400;
    }
    var job := Job(taskId.value, 1, messageId);
    ghost var before := broker.View({}, Idle);
    var err := broker.PublishJob(false, job, fate);
    broker.log := DoSubmit(before, messageId, taskId.value, fate).log;
    status := if err then 500 else 202;
  }

  /** The steps one delivery takes from its idempotency check to its acknowledgement. */
  function HandlingSteps(s: State, fate: Fate): seq<Action>
    requires Enabled(s, Check)
  {
    if s.unacked[0].messageId in s.processed then [Check, Ack]
    else if TaskFails(s.unacked[0].taskId) then [Check, Run, Publish(fate), Ack]
    else [Check, Run, MarkDone, Ack]
  }

  /** The state those steps lead to. */
  function Handled(s: State, fate: Fate): State
    requires Enabled(s, Check)
  {
    var checked := Step(s, Check);
    if checked.phase == Duplicate then
      Step(checked, Ack)
    else
      var ran := Step(checked, Run);
      if ran.phase == Failed then Step(Step(ran, Publish(fate)), Ack) else Step(Step(ran, MarkDone), Ack)
  }

  /** The job went back to the end of the queue, or into the dead letters, with this attempt, if the publish stored it. */
  predicate PassedOn(s: State, t: State, job: Job, fate: Fate) {
    if fate != Confirmed && fate != ErrorStored then t.jobs == s.jobs && t.dlq == s.dlq
    else if job.attempt <= 3 then t.jobs == s.jobs + [job] && t.dlq == s.dlq
    else t.dlq == s.dlq + [job] && t.jobs == s.jobs
  }

  /** What the loop body does with the delivery at hand: nothing if its message is processed; if its task is "t_fail", a
      failure is recorded and the job is passed on with the next attempt; for any other task a success is recorded and
      the message is processed. In all cases the delivery is acknowledged. */
  predicate HandledJob(s: State, t: State, fate: Fate)
    requires s.unacked != []
  {
    var job := s.unacked[0];
    && t.unacked == s.unacked[1..] && t.phase == Idle && t.log.acks == s.log.acks + 1
    && if job.messageId in s.processed then
         t.jobs == s.jobs && t.dlq == s.dlq && t.processed == s.processed && t.log.executions == s.log.executions
       else if job.taskId == "t_fail" then
         && PassedOn(s, t, Job(job.taskId, job.attempt + 1, job.messageId), fate) && t.processed == s.processed
         && t.log.executions == s.log.executions + [Execution(job.messageId, job.attempt, false, s.log.crashes)]
       else
         && t.jobs == s.jobs && t.dlq == s.dlq && t.processed == s.processed + {job.messageId}
         && t.log.executions == s.log.executions + [Execution(job.messageId, job.attempt, true, s.log.crashes)]
  }

  lemma {:induction false} HandledEffect(s: State, fate: Fate)
    requires Enabled(s, Check)
    ensures HandledJob(s, Handled(s, fate), fate)
  {
  }

  lemma {:induction false} HandledIsRun(s: State, fate: Fate)
    requires Enabled(s, Check)
    ensures Runnable(s, HandlingSteps(s, fate)) && Exec(s, HandlingSteps(s, fate)) == Handled(s, fate)
    ensures forall a <- HandlingSteps(s, fate) :: Quiet(a)
  {
    var s1 := Step(s, Check);
    if s1.phase == Duplicate {
      RunsTwo(s, Check, Ack);
    } else {
      var s2 := Step(s1, Run);
      RunsFour(s, Check, Run, if s2.phase == Failed then Publish(fate) else MarkDone, Ack);
    }
  }

  lemma {:induction false} RunsTwo(s: State, a: Action, b: Action)
    requires Enabled(s, a) && Enabled(Step(s, a), b)
    ensures Runnable(s, [a, b]) && Exec(s, [a, b]) == Step(Step(s, a), b)
  {
    assert [a, b][1..] == [b] && [b][1..] == [];
    assert Runnable(Step(s, a), [b]) && Exec(Step(s, a), [b]) == Step(Step(s, a), b);
  }

  lemma {:induction false} RunsFour(s: State, a: Action, b: Action, c: Action, d: Action)
    requires Enabled(s, a) && Enabled(Step(s, a), b) && Enabled(Step(Step(s, a), b), c)
    requires Enabled(Step(Step(Step(s, a), b), c), d)
    ensures Runnable(s, [a, b, c, d]) && Exec(s, [a, b, c, d]) == Step(Step(Step(Step(s, a), b), c), d)
  {
    RunsTwo(s, a, b);
    RunsTwo(Step(Step(s, a), b), c, d);
    ExecConcat(s, [a, b], [c, d]);
    assert [a, b] + [c, d] == [a, b, c, d];
  }

  /** The state after the broker has pushed a job, if it could. */
  function Delivered(s: State): State {
    if Enabled(s, Deliver) then Step(s, Deliver) else s
  }

  function TurnSteps(s: State, fate: Fate): seq<Action>
    requires Enabled(Delivered(s), Check)
  {
    (if Enabled(s, Deliver) then [Deliver] else []) + HandlingSteps(Delivered(s), fate)
  }

  lemma {:induction false} DeliveredKeeps(s: State)
    requires Good(s) && s.phase == Idle && WithinPrefetch(s) && !Drained(s)
    ensures var t := Delivered(s);
            && Good(t) && Enabled(t, Check) && WithinPrefetch(t) && Work(t) <= Work(s)
            && (FaultFree(s) ==> FaultFree(t))
  {
    if Enabled(s, Deliver) {
      GoodStep(s, Deliver);
      WorkStep(s, Deliver);
    }
  }

  /** One turn of the loop leaves less work. */
  lemma {:induction false} TurnKeeps(s: State, fate: Fate)
    requires Good(s) && s.phase == Idle && WithinPrefetch(s) && !Drained(s)
    ensures var t := Delivered(s);
            && Enabled(t, Check) && Good(Handled(t, fate)) && Handled(t, fate).phase == Idle && WithinPrefetch(Handled(t, fate))
            && Work(Handled(t, fate)) < Work(s)
            && (fate == Confirmed && FaultFree(s) ==> FaultFree(Handled(t, fate)))
  {
    DeliveredKeeps(s);
    HandledKeeps(Delivered(s), fate);
    HandledShape(Delivered(s), fate);
  }

  /** One turn of the loop is a run of quiet steps. */
  lemma {:induction false} TurnIsRun(s: State, fate: Fate)
    requires Enabled(Delivered(s), Check)
    ensures Runnable(s, TurnSteps(s, fate)) && Exec(s, TurnSteps(s, fate)) == Handled(Delivered(s), fate)
    ensures forall a <- TurnSteps(s, fate) :: Quiet(a)
  {
    var steps := HandlingSteps(Delivered(s), fate);
    HandledIsRun(Delivered(s), fate);
    if Enabled(s, Deliver) {
      RunsFirst(s, Deliver, steps);
    } else {
      assert [] + steps == steps;
    }
  }

  lemma {:induction false} RunsFirst(s: State, a: Action, rest: seq<Action>)
    requires Enabled(s, a) && Runnable(Step(s, a), rest)
    ensures Runnable(s, [a] + rest) && Exec(s, [a] + rest) == Exec(Step(s, a), rest)
  {
    assert ([a] + rest)[0] == a && ([a] + rest)[1..] == rest;
  }

  /** What the worker's loop meets next: a job posted to the API with a new message id, or a turn of its own. */
  datatype Event = Arrive(messageId: string, taskId: string, fate: Fate) | Turn(fate: Fate)

  function Arrivals(events: seq<Event>): nat {
    if events == [] then 0
    else Arrivals(events[..|events| - 1]) + if events[|events| - 1].Arrive? then 1 else 0
  }

  /** The arriving ids were never issued and are pairwise distinct; their jobs name a task. */
  ghost predicate NewIds(s: State, events: seq<Event>) {
    && (forall i :: 0 <= i < |events| && events[i].Arrive? ==>
          events[i].messageId !in s.log.issued && events[i].taskId != "")
    && (forall i, j :: 0 <= i < j < |events| && events[i].Arrive? && events[j].Arrive? ==>
          events[i].messageId != events[j].messageId)
  }

  lemma {:induction false} NewIdsApart(s: State, e: Event, rest: seq<Event>)
    requires NewIds(s, [e] + rest) && e.Arrive?
    ensures Enabled(s, Submit(e.messageId, e.taskId, e.fate))
    ensures NewIds(DoSubmit(s, e.messageId, e.taskId, e.fate), rest)
  {
    var all := [e] + rest;
    assert all[0] == e && forall i :: 0 <= i < |rest| ==> rest[i] == all[i + 1];
  }

  lemma {:induction false} NewIdsLater(s: State, t: State, e: Event, rest: seq<Event>)
    requires NewIds(s, [e] + rest) && t.log.issued == s.log.issued
    ensures NewIds(t, rest)
  {
    var all := [e] + rest;
    assert forall i :: 0 <= i < |rest| ==> rest[i] == all[i + 1];
  }

  lemma {:induction false} IssuedKept(s: State, acts: seq<Action>)
    requires Runnable(s, acts) && forall a <- acts :: Quiet(a)
    ensures Exec(s, acts).log.issued == s.log.issued
    decreases |acts|
  {
    if acts != [] {
      assert Quiet(acts[0]);
      IssuedKept(Step(s, acts[0]), acts[1..]);
    }
  }

  lemma {:induction false} QuietCounts(acts: seq<Action>)
    requires forall a <- acts :: Quiet(a)
    ensures Crashes(acts) == 0 && Submits(acts) == 0
    decreases |acts|
  {
    if acts != [] {
      assert Quiet(acts[0]);
      QuietCounts(acts[1..]);
    }
  }

  lemma {:induction false} CountsConcat(first: seq<Action>, rest: seq<Action>)
    ensures Crashes(first + rest) == Crashes(first) + Crashes(rest)
    ensures Submits(first + rest) == Submits(first) + Submits(rest)
    decreases |first|
  {
    if first == [] {
      assert first + rest == rest;
    } else {
      assert first + rest == [first[0]] + (first[1..] + rest) && first == [first[0]] + first[1..];
      CountsFirst(first[0], first[1..] + rest);
      CountsFirst(first[0], first[1..]);
      CountsConcat(first[1..], rest);
    }
  }

  lemma {:induction false} NextEvent(events: seq<Event>, i: nat)
    requires i < |events|
    ensures events[i..] == [events[i]] + events[i + 1..]
    ensures Arrivals(events[..i + 1]) == Arrivals(events[..i]) + if events[i].Arrive? then 1 else 0
  {
    assert events[..i + 1][..i] == events[..i];
  }

  lemma {:induction false} Appended(s: State, first: seq<Action>, rest: seq<Action>)
    requires Runnable(s, first) && Runnable(Exec(s, first), rest)
    ensures Runnable(s, first + rest) && Exec(s, first + rest) == Exec(Exec(s, first), rest)
    ensures Crashes(first + rest) == Crashes(first) + Crashes(rest)
    ensures Submits(first + rest) == Submits(first) + Submits(rest)
  {
    ExecConcat(s, first, rest);
    CountsConcat(first, rest);
  }

  class Worker {
    const broker: Broker
    const processed: ProcessedStore
    ghost var phase: Phase

    ghost function View(): State
      reads this, broker, processed
    {
      broker.View(processed.Ids(), phase)
    }

    /** A worker process starts on a broker that owes it nothing, with an empty processed store. */
    constructor (broker: Broker)
      ensures this.broker == broker && fresh(processed)
      ensures View() == broker.View({}, Idle)
    {
      this.broker := broker;
      processed := new ProcessedStore();
      phase := Idle;
    }

    /** The loop body: check, run, publish or mark, and acknowledge last, whatever the publish returned. */
    method HandleDelivery(fate: Fate)
      requires Enabled(View(), Check)
      modifies this, broker, processed
      ensures View() == Handled(old(View()), fate)
      ensures HandledJob(old(View()), View(), fate)
    {
      HandledEffect(View(), fate);
      ghost var s0 := View();
      var job := broker.unacked[0];
      var duplicate := processed.Exists(job.messageId);
      phase := Step(s0, Check).phase;
      ghost var s1 := View();
      assert s1 == Step(s0, Check);
      if duplicate {
        AckCurrent();
        return;
      }
      var failed := job.taskId == "t_fail";
      broker.log, phase := DoRun(s1).log, DoRun(s1).phase;
      ghost var s2 := View();
      assert s2 == Step(s1, Run);
      if failed {
        RetryOrBury(job, fate);
        assert View() == Step(s2, Publish(fate));
      } else {
        processed.MarkDone(job.messageId);
        phase := Marked;
        assert View() == Step(s2, MarkDone);
      }
      AckCurrent();
    }

    /** Increments the attempt and publishes the job for a retry, or to the DLQ after the last attempt. */
    method RetryOrBury(job: Job, fate: Fate)
      requires Enabled(View(), Publish(fate)) && job == broker.unacked[0]
      modifies this, broker
      ensures View() == DoPublish(old(View()), fate)
      ensures PassedOn(old(View()), View(), Job(job.taskId, job.attempt + 1, job.messageId), fate)
    {
      ghost var before := View();
      var retry := job.(attempt := job.attempt + 1);
      var _ := broker.PublishJob(retry.attempt > MAX_ATTEMPTS, retry, fate);
      broker.log, phase := DoPublish(before, fate).log, Republished(fate.Stored());
    }

    method AckCurrent()
      requires Enabled(View(), Ack)
      modifies this, broker
      ensures View() == DoAck(old(View()))
    {
      ghost var before := View();
      broker.AckFirst();
      broker.log, phase := DoAck(before).log, Idle;
    }

    /** One turn of the loop: the broker pushes a job if its prefetch limit allows, and the first delivery
        is handled. */
    method ConsumeOne(fate: Fate) returns (ghost steps: seq<Action>)
      requires Good(View()) && phase == Idle && WithinPrefetch(View()) && !Drained(View())
      modifies this, broker, processed
      ensures Runnable(old(View()), steps) && View() == Exec(old(View()), steps)
      ensures forall a <- steps :: Quiet(a)
      ensures Good(View()) && phase == Idle && WithinPrefetch(View())
      ensures Work(View()) < Work(old(View()))
      ensures fate == Confirmed && FaultFree(old(View())) ==> FaultFree(View())
    {
      ghost var before := View();
      if broker.jobs != [] && (broker.prefetch == 0 || |broker.unacked| < broker.prefetch) {
        broker.Deliver();
      }
      ghost var ready := View();
      assert ready == Delivered(before);
      TurnKeeps(before, fate);
      TurnIsRun(before, fate);
      HandleDelivery(fate);
      steps := TurnSteps(before, fate);
    }

    /** The delivery loop, run until the broker has nothing left. `fates` says what the publish call of the
        n-th handled delivery does. Returns how many deliveries were handled. */
    method ConsumeAll(fates: nat -> Fate) returns (handled: nat, ghost steps: seq<Action>)
      requires Good(View()) && phase == Idle && WithinPrefetch(View())
      modifies this, broker, processed
      ensures Runnable(old(View()), steps) && View() == Exec(old(View()), steps)
      ensures forall a <- steps :: Quiet(a)
      ensures Drained(View()) && Good(View())
      ensures handled <= Work(old(View()))
      ensures FaultFree(old(View())) && (forall n :: fates(n) == Confirmed) ==>
                FaultFree(View()) && forall id :: Settled(View(), id)
    {
      handled, steps := 0, [];
      while broker.jobs != [] || broker.unacked != []
        invariant Runnable(old(View()), steps) && View() == Exec(old(View()), steps)
        invariant forall a <- steps :: Quiet(a)
        invariant Good(View()) && phase == Idle && WithinPrefetch(View())
        invariant handled + Work(View()) <= Work(old(View()))
        invariant FaultFree(old(View())) && (forall n :: fates(n) == Confirmed) ==> FaultFree(View())
        decreases Work(View())
      {
        ghost var turn := ConsumeOne(fates(handled));
        ExecConcat(old(View()), steps, turn);
        steps := steps + turn;
        handled := handled + 1;
      }
      SettledIfFaultFree(View());
    }

    /** The delivery loop over any finite stretch of its life: jobs arrive through the API between its turns, and a
        turn with nothing delivered waits. */
    method Serve(events: seq<Event>) returns (handled: nat, ghost steps: seq<Action>)
      requires Good(View()) && phase == Idle && WithinPrefetch(View()) && NewIds(View(), events)
      modifies this, broker, processed
      ensures Runnable(old(View()), steps) && View() == Exec(old(View()), steps)
      ensures Good(View()) && phase == Idle && WithinPrefetch(View())
      ensures Crashes(steps) == 0 && Submits(steps) == Arrivals(events)
      ensures handled + Work(View()) <= Work(old(View())) + 3 * Arrivals(events)
    {
      handled, steps := 0, [];
      for i := 0 to |events|
        invariant Runnable(old(View()), steps) && View() == Exec(old(View()), steps)
        invariant Good(View()) && phase == Idle && WithinPrefetch(View()) && NewIds(View(), events[i..])
        invariant Crashes(steps) == 0 && Submits(steps) == Arrivals(events[..i])
        invariant handled + Work(View()) <= Work(old(View())) + 3 * Arrivals(events[..i])
      {
        NextEvent(events, i);
        var waited, turn := ServeOne(events[i], events[i + 1..]);
        Appended(old(View()), steps, turn);
        steps := steps + turn;
        handled := if waited then handled else handled + 1;
      }
      assert events[..|events|] == events;
    }

    method ServeOne(event: Event, ghost rest: seq<Event>) returns (waited: bool, ghost steps: seq<Action>)
      requires Good(View()) && phase == Idle && WithinPrefetch(View()) && NewIds(View(), [event] + rest)
      modifies this, broker, processed
      ensures Runnable(old(View()), steps) && View() == Exec(old(View()), steps)
      ensures Good(View()) && phase == Idle && WithinPrefetch(View()) && NewIds(View(), rest)
      ensures Crashes(steps) == 0 && Submits(steps) == if event.Arrive? then 1 else 0
      ensures (if waited then 0 else 1) + Work(View()) <= Work(old(View())) + if event.Arrive? then 3 else 0
    {
      ghost var before := View();
      match event
      case Arrive(id, taskId, fate) =>
        waited, steps := true, [Submit(id, taskId, fate)];
        NewIdsApart(before, event, rest);
        GoodStep(before, steps[0]);
        WorkStep(before, steps[0]);
        var _ := PostProcessTask(broker, true, Some(taskId), id, fate);
      case Turn(fate) =>
        waited, steps := true, [];
        NewIdsLater(before, before, event, rest);
        if broker.jobs != [] || broker.unacked != [] {
          waited := false;
          steps := ConsumeOne(fate);
          IssuedKept(before, steps);
          QuietCounts(steps);
          NewIdsLater(before, View(), event, rest);
        }
    }
  }

  predicate WithinPrefetch(s: State) {
    s.prefetch == 0 || |s.unacked| <= s.prefetch
  }

  lemma {:induction false} SettledIfFaultFree(s: State)
    requires Good(s) && Drained(s)
    ensures s.log.accepted <= s.log.issued.Keys
    ensures FaultFree(s) ==> forall id :: Settled(s, id)
  {
    if FaultFree(s) {
      forall id ensures Settled(s, id) {
        SettledWhenDrained(s, id);
      }
    }
  }

  lemma {:induction false} HandledKeeps(s: State, fate: Fate)
    requires Good(s) && Enabled(s, Check)
    ensures Good(Handled(s, fate)) && Work(Handled(s, fate)) < Work(s)
  {
    HandledIsRun(s, fate);
    GoodFrom(s, HandlingSteps(s, fate));
    HandlingCounts(s, fate);
    AckBudget(s, HandlingSteps(s, fate));
  }

  lemma {:induction false} HandlingCounts(s: State, fate: Fate)
    requires Enabled(s, Check)
    ensures var steps := HandlingSteps(s, fate); Acks(steps) == 1 && Submits(steps) == 0 && Crashes(steps) == 0
  {
    var steps := HandlingSteps(s, fate);
    CountsFirst(Ack, []);
    CountsFirst(Check, [Ack]);
    if |steps| > 2 {
      var effect := steps[2];
      CountsFirst(effect, [Ack]);
      CountsFirst(Run, [effect, Ack]);
      CountsFirst(Check, [Run, effect, Ack]);
      assert steps == [Check] + [Run, effect, Ack] && [Run, effect, Ack] == [Run] + [effect, Ack];
      assert [effect, Ack] == [effect] + [Ack];
    } else {
      assert steps == [Check] + [Ack];
    }
  }

  lemma {:induction false} CountsFirst(a: Action, rest: seq<Action>)
    ensures Acks([a] + rest) == Acks(rest) + if a == Ack then 1 else 0
    ensures Submits([a] + rest) == Submits(rest) + if a.Submit? then 1 else 0
    ensures Crashes([a] + rest) == Crashes(rest) + if a == Crash then 1 else 0
  {
    assert ([a] + rest)[0] == a && ([a] + rest)[1..] == rest;
  }

  lemma {:induction false} HandledShape(s: State, fate: Fate)
    requires Enabled(s, Check)
    ensures var t := Handled(s, fate);
            && t.phase == Idle && t.prefetch == s.prefetch && |t.unacked| == |s.unacked| - 1
            && (fate == Confirmed && FaultFree(s) ==> FaultFree(t))
  {
  }

  /** A crash of the worker and its restart: the step `Crash`, with a new processed store. */
  method Restart(crashed: Worker) returns (worker: Worker)
    modifies crashed.broker
    ensures worker.broker == crashed.broker && fresh(worker) && fresh(worker.processed)
    ensures worker.View() == Step(old(crashed.View()), Crash)
    ensures worker.broker.jobs == old(crashed.broker.unacked + crashed.broker.jobs) && worker.broker.unacked == []
    ensures worker.broker.dlq == old(crashed.broker.dlq) && worker.processed.Ids() == {} && worker.phase == Idle
  {
    ghost var before := crashed.View();
    crashed.broker.Requeue();
    crashed.broker.log := DoCrash(before).log;
    worker := new Worker(crashed.broker);
  }

  // ---- The bounds are attained --------------------------------------------------------------------------

  /** Submit a job, deliver it, check it and run it. */
  function Opening(taskId: string): seq<Action> {
    [Submit("m", taskId, Confirmed), Deliver, Check, Run]
  }

  lemma {:induction false} AfterOpening(taskId: string) returns (ran: State)
    requires taskId != ""
    ensures Runnable(Initial(1), Opening(taskId)) && Exec(Initial(1), Opening(taskId)) == ran
    ensures ran.jobs == [] && ran.unacked == [Job(taskId, 1, "m")] && ran.dlq == [] && ran.processed == {}
    ensures ran.phase == (if TaskFails(taskId) then Failed else Succeeded)
    ensures ran.log.executions == [Execution("m", 1, !TaskFails(taskId), 0)] && ran.log.accepted == {"m"}
    ensures ran.log.crashes == 0 && ran.log.publishErrors == 0
  {
    var acts := Opening(taskId);
    var queued := Step(Initial(1), acts[0]);
    var delivered := Step(queued, Deliver);
    var checked := Step(delivered, Check);
    ran := Step(checked, Run);
    Prepend(checked, acts, 3, ran, ran);
    Prepend(delivered, acts, 2, checked, ran);
    Prepend(queued, acts, 1, delivered, ran);
    Prepend(Initial(1), acts, 0, queued, ran);
    assert acts[0..] == acts;
  }

  /** The delivery of "m" has just succeeded, for the (n + 1)-st time, after n crashes. */
  predicate WonAgain(s: State, n: nat) {
    && s.jobs == [] && s.unacked == [Job("t_001", 1, "m")] && s.phase == Succeeded
    && s.log.crashes == n && Successes(s.log.executions, "m") == n + 1
  }

  /** Crashes after the effect repeat a task without limit: for every n a run with n crashes completes one message
      n + 1 times, which attains the copy bound. */
  lemma {:induction false} CrashesRepeatWork(n: nat) returns (acts: seq<Action>)
    ensures Runnable(Initial(1), acts) && WonAgain(Exec(Initial(1), acts), n)
    decreases n
  {
    if n == 0 {
      acts := Opening("t_001");
      var ran := AfterOpening("t_001");
      SuccessesSnoc([], Execution("m", 1, true, 0), "m");
      assert ran.log.executions == [] + [Execution("m", 1, true, 0)];
    } else {
      var before := CrashesRepeatWork(n - 1);
      var again := [MarkDone, Crash, Deliver, Check, Run];
      var end := CrashAndRunAgain(Exec(Initial(1), before), n - 1);
      ExecConcat(Initial(1), before, again);
      acts := before + again;
    }
  }

  lemma {:induction false} CrashAndRunAgain(ran: State, n: nat) returns (end: State)
    requires WonAgain(ran, n)
    ensures var acts := [MarkDone, Crash, Deliver, Check, Run]; Runnable(ran, acts) && Exec(ran, acts) == end
    ensures WonAgain(end, n + 1)
  {
    var acts := [MarkDone, Crash, Deliver, Check, Run];
    var marked := Step(ran, MarkDone);
    var crashed := Step(marked, Crash);
    end := RunAgain(acts, crashed);
    Prepend(marked, acts, 1, crashed, end);
    Prepend(ran, acts, 0, marked, end);
    assert acts[0..] == acts;
    SuccessesSnoc(ran.log.executions, Execution("m", 1, true, n + 1), "m");
  }

  lemma {:induction false} RunAgain(acts: seq<Action>, crashed: State) returns (end: State)
    requires |acts| == 5 && acts[2] == Deliver && acts[3] == Check && acts[4] == Run
    requires crashed.unacked == [] && crashed.jobs == [Job("t_001", 1, "m")] && crashed.phase == Idle && crashed.processed == {}
    ensures Runnable(crashed, acts[2..]) && Exec(crashed, acts[2..]) == end
    ensures end.jobs == [] && end.unacked == [Job("t_001", 1, "m")] && end.phase == Succeeded
    ensures end.log.executions == crashed.log.executions + [Execution("m", 1, true, crashed.log.crashes)]
    ensures end.log.crashes == crashed.log.crashes
  {
    var again := Step(crashed, Deliver);
    end := Step(again.(phase := Fresh), Run);
    Prepend(again.(phase := Fresh), acts, 4, end, end);
    Prepend(again, acts, 3, again.(phase := Fresh), end);
    Prepend(crashed, acts, 2, again, end);
  }

  /** A retry whose publish is lost is acknowledged all the same, and the accepted message is gone. */
  lemma {:induction false} FailedPublishLosesWork()
    ensures var acts := Opening("t_fail") + [Publish(ErrorLost), Ack];
            && Runnable(Initial(1), acts)
            && Missing(Exec(Initial(1), acts)) == {"m"}
            && Exec(Initial(1), acts).log.publishErrors == 1
  {
    var ran := AfterOpening("t_fail");
    var acts := [Publish(ErrorLost), Ack];
    var unsent := Step(ran, Publish(ErrorLost));
    var end := Step(unsent, Ack);
    Prepend(unsent, acts, 1, end, end);
    Prepend(ran, acts, 0, unsent, end);
    assert acts[0..] == acts;
    ExecConcat(Initial(1), Opening("t_fail"), acts);
    MissingNow(end);
  }

  lemma {:induction false} MissingNow(end: State)
    requires end.jobs == [] && end.unacked == [] && end.dlq == [] && end.log.accepted == {"m"}
    requires end.log.executions == [Execution("m", 1, false, 0)]
    ensures Missing(end) == {"m"}
  {
    SuccessesSnoc([], Execution("m", 1, false, 0), "m");
    assert end.log.executions == [] + [Execution("m", 1, false, 0)];
  }

  /** One step in front of a run of the rest of `acts`. */
  lemma {:induction false} Prepend(s: State, acts: seq<Action>, i: nat, t: State, end: State)
    requires i < |acts| && Enabled(s, acts[i]) && Step(s, acts[i]) == t
    requires i + 1 < |acts| ==> Runnable(t, acts[i + 1..]) && Exec(t, acts[i + 1..]) == end
    requires i + 1 == |acts| ==> t == end
    ensures Runnable(s, acts[i..]) && Exec(s, acts[i..]) == end
  {
    assert acts[i..][0] == acts[i] && acts[i..][1..] == acts[i + 1..];
  }
}
