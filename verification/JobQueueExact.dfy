/** What became of each message, exactly, in every run with any crashes and any publish failures. With one worker and
    the API as the only source of jobs the idempotency check never fires: a message that completed has no copy left
    to be delivered in the same process, and a crash empties the processed store. So a task is repeated by crashes
    and a job is gone by lost publishes, and by nothing else. */
module JobQueueExact {
  import opened JobQueue
  import opened JobQueueSafety

  predicate Entered(s: State, id: string) {
    id in s.log.entered && id in s.log.issued
  }

  /** A message whose task succeeds is never re-published, so it has at most one live copy. */
  ghost predicate SingleCopies(s: State) {
    forall id :: Entered(s, id) && !TaskFails(s.log.issued[id]) ==> Live(s, id) <= 1
  }

  /** A completed message has no live copy, except the delivery that just completed. */
  ghost predicate NoCopyOfProcessed(s: State) {
    forall id <- s.processed ::
      && Entered(s, id) && !TaskFails(s.log.issued[id])
      && (Live(s, id) == 0 || (s.phase == Marked && s.unacked != [] && s.unacked[0].messageId == id))
  }

  predicate OnlyFailuresLost(s: State) {
    forall id <- s.log.lost :: Entered(s, id) && TaskFails(s.log.issued[id])
  }

  ghost predicate Exact(s: State) {
    SingleCopies(s) && NoCopyOfProcessed(s) && OnlyFailuresLost(s) && s.log.skipped == [] && s.phase != Duplicate
  }

  lemma {:induction false} CopiesOfStranger(s: State, id: string)
    requires Shaped(s) && id !in s.log.entered
    ensures Live(s, id) == 0
  {
    CopiesWitness(s.jobs, id);
    CopiesWitness(s.unacked, id);
  }

  lemma {:induction false} FirstIsLive(s: State)
    requires s.unacked != []
    ensures Live(s, s.unacked[0].messageId) >= 1
  {
  }

  lemma {:induction false} ExactStep(s: State, a: Action)
    requires Shaped(s) && Exact(s) && Enabled(s, a)
    ensures Exact(Step(s, a))
  {
    match a
    case Submit(m, taskId, fate) => ExactSubmit(s, m, taskId, fate);
    case Deliver => ExactDeliver(s);
    case Check => FirstIsLive(s);
    case Run => ExactRun(s);
    case Publish(fate) => ExactPublish(s, fate);
    case MarkDone => ExactMark(s);
    case Ack => ExactAck(s);
    case Crash => ExactCrash(s);
  }

  lemma {:induction false} ExactSubmit(s: State, m: string, taskId: string, fate: Fate)
    requires Shaped(s) && Exact(s) && Enabled(s, Submit(m, taskId, fate))
    ensures Exact(DoSubmit(s, m, taskId, fate))
  {
    var t := DoSubmit(s, m, taskId, fate);
    CopiesOfStranger(s, m);
    forall id ensures Live(t, id) == Live(s, id) + if id == m && fate.Stored() then 1 else 0 {
      CopiesConcat(s.jobs, [Job(taskId, 1, m)], id);
    }
  }

  lemma {:induction false} ExactDeliver(s: State)
    requires Shaped(s) && Exact(s) && Enabled(s, Deliver)
    ensures Exact(Step(s, Deliver))
  {
    var t := Step(s, Deliver);
    forall id ensures Live(t, id) == Live(s, id) {
      CopiesConcat(s.unacked, [s.jobs[0]], id);
    }
    assert s.unacked != [] ==> t.unacked[0] == s.unacked[0];
  }

  lemma {:induction false} ExactRun(s: State)
    requires Shaped(s) && Exact(s) && Enabled(s, Run)
    ensures Exact(DoRun(s))
  {
    assert forall id :: Live(DoRun(s), id) == Live(s, id);
  }

  lemma {:induction false} ExactPublish(s: State, fate: Fate)
    requires Shaped(s) && Exact(s) && Enabled(s, Publish(fate))
    ensures Exact(DoPublish(s, fate))
  {
    var t, job := DoPublish(s, fate), Next(s.unacked[0]);
    assert Genuine(s, s.unacked[0]) && TaskFails(s.unacked[0].taskId);
    forall id ensures id != job.messageId ==> Live(t, id) == Live(s, id) {
      CopiesConcat(s.jobs, [job], id);
    }
  }

  lemma {:induction false} ExactMark(s: State)
    requires Shaped(s) && Exact(s) && Enabled(s, MarkDone)
    ensures Exact(Step(s, MarkDone))
  {
    assert forall id :: Live(Step(s, MarkDone), id) == Live(s, id);
    assert Genuine(s, s.unacked[0]);
  }

  lemma {:induction false} ExactAck(s: State)
    requires Shaped(s) && Exact(s) && Enabled(s, Ack)
    ensures Exact(DoAck(s))
  {
    var t, m := DoAck(s), s.unacked[0].messageId;
    assert Genuine(s, s.unacked[0]);
    assert forall id :: Live(t, id) == Live(s, id) - if id == m then 1 else 0;
    if s.phase == Marked && m in s.processed {
      assert Live(s, m) <= 1;
    }
  }

  lemma {:induction false} ExactCrash(s: State)
    requires Exact(s)
    ensures Exact(DoCrash(s))
  {
    forall id ensures Live(DoCrash(s), id) == Live(s, id) {
      CopiesConcat(s.unacked, s.jobs, id);
    }
  }

  lemma {:induction false} ExactFrom(s: State, acts: seq<Action>)
    requires Shaped(s) && Exact(s) && Runnable(s, acts)
    ensures Exact(Exec(s, acts))
    decreases |acts|
  {
    if acts != [] {
      ShapedStep(s, acts[0]);
      ExactStep(s, acts[0]);
      ExactFrom(Step(s, acts[0]), acts[1..]);
    }
  }

  /** The idempotency check never fires, and nothing is ever skipped, in any run. */
  lemma {:induction false} NeverDuplicate(prefetch: nat, acts: seq<Action>)
    requires Runnable(Initial(prefetch), acts)
    ensures var s := Exec(Initial(prefetch), acts);
            && s.phase != Duplicate && s.log.skipped == []
            && (Enabled(s, Check) ==> s.unacked[0].messageId !in s.processed)
  {
    ExactFrom(Initial(prefetch), acts);
    var s := Exec(Initial(prefetch), acts);
    if Enabled(s, Check) {
      FirstIsLive(s);
    }
  }

  /** What became of message `id`: one copy entered and every crash after an effect added one. If its task fails they
      are queued, dead-lettered or lost; if it succeeds they completed, all but at most one. */
  ghost predicate Resolved(s: State, id: string)
    requires Entered(s, id)
  {
    var (added, lost, won) := (1 + Tally(s.log.repeated, id) + Window(s, id), Tally(s.log.lost, id), Successes(s.log.executions, id));
    if TaskFails(s.log.issued[id]) then
      won == 0 && Live(s, id) + Copies(s.dlq, id) + lost == added
    else
      Copies(s.dlq, id) == 0 && lost == 0 && Live(s, id) <= 1 && Live(s, id) + won == added
  }

  lemma {:induction false} AlwaysResolved(prefetch: nat, acts: seq<Action>, id: string)
    requires Runnable(Initial(prefetch), acts) && id in Exec(Initial(prefetch), acts).log.entered
    ensures var s := Exec(Initial(prefetch), acts); Entered(s, id) && Resolved(s, id)
  {
    AlwaysSafe(prefetch, acts);
    ExactFrom(Initial(prefetch), acts);
    SafeResolved(Exec(Initial(prefetch), acts), id);
  }

  lemma {:induction false} SafeResolved(s: State, id: string)
    requires Safe(s) && Exact(s) && id in s.log.entered
    ensures Entered(s, id) && Resolved(s, id)
  {
    assert Accounted(s, id) == Owed(s, id);
    TallyBound(s.log.lost, id);
    SuccessesWitness(s.log.executions, id);
    CopiesWitness(s.dlq, id);
  }

  predicate Drained(s: State) {
    s.jobs == [] && s.unacked == []
  }

  /** Nothing is left of a message: no copy anywhere and no successful run. */
  predicate Gone(s: State, id: string) {
    Live(s, id) == 0 && Copies(s.dlq, id) == 0 && Successes(s.log.executions, id) == 0
  }

  /** In a drained state an entered message completed more than once exactly when its task succeeds and a crash hit one
      of its deliveries after the effect; nothing is left of it exactly when its task fails and every copy that
      entered or was added by a crash was lost by a publish. */
  lemma {:induction false} DrainedExactly(prefetch: nat, acts: seq<Action>, id: string)
    requires Runnable(Initial(prefetch), acts)
    requires var s := Exec(Initial(prefetch), acts); Drained(s) && id in s.log.entered
    ensures var s := Exec(Initial(prefetch), acts);
            var won := Successes(s.log.executions, id);
            && id in s.log.issued
            && (won > 1 <==> !TaskFails(s.log.issued[id]) && id in s.log.repeated)
            && (won == 1 <==> !TaskFails(s.log.issued[id]) && id !in s.log.repeated)
            && (Gone(s, id) <==> TaskFails(s.log.issued[id]) && Tally(s.log.lost, id) == 1 + Tally(s.log.repeated, id))
  {
    AlwaysResolved(prefetch, acts, id);
    TallyBound(Exec(Initial(prefetch), acts).log.repeated, id);
  }

  /** The missing messages of a drained state, exactly: accepted by an API whose publish stored nothing, or lost with
      every copy of theirs. */
  lemma {:induction false} MissingExactly(prefetch: nat, acts: seq<Action>, id: string)
    requires Runnable(Initial(prefetch), acts) && Drained(Exec(Initial(prefetch), acts))
    ensures var s := Exec(Initial(prefetch), acts);
            id in Missing(s) <==>
              && id in s.log.accepted
              && (id in s.log.unsent || (id in s.log.entered && id in s.log.issued && TaskFails(s.log.issued[id])
                                         && Tally(s.log.lost, id) == 1 + Tally(s.log.repeated, id)))
  {
    AlwaysSafe(prefetch, acts);
    var s := Exec(Initial(prefetch), acts);
    if id in s.log.entered {
      DrainedExactly(prefetch, acts, id);
    } else {
      NothingOfStranger(s, id);
    }
  }

  lemma {:induction false} NothingOfStranger(s: State, id: string)
    requires Shaped(s) && id !in s.log.entered
    ensures Gone(s, id)
  {
    CopiesOfStranger(s, id);
    CopiesWitness(s.dlq, id);
    SuccessesWitness(s.log.executions, id);
  }
}
