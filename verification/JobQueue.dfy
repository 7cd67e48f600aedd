/** The background-job system as a transition system: an HTTP API that publishes jobs, a broker with a jobs
    queue and a dead-letter queue (DLQ), and one worker process that checks, runs, re-publishes and acknowledges.
    Every atomic effect of the worker's delivery loop is one step, so a crash can fall between any two of them. */
module JobQueue {

  datatype Job = Job(taskId: string, attempt: nat, messageId: string)

  const MAX_ATTEMPTS: nat := 3

  /** The simulated processing outcome: it depends on the task id only. */
  predicate TaskFails(taskId: string) {
    taskId == "t_fail"
  }

  /** What one publish call did. A call that returns an error may still have reached the broker, and without
      publisher confirms a call that returns none may have not. */
  datatype Fate = Confirmed | Dropped | ErrorLost | ErrorStored {
    predicate Stored() { this == Confirmed || this == ErrorStored }
    predicate Failed() { this == ErrorLost || this == ErrorStored }
  }

  /** Where the worker's loop body stands; every phase but `Idle` is about the delivery `unacked[0]`.
      `Fresh` and `Duplicate` are the two answers of the idempotency check, `Failed` and `Succeeded` the two
      outcomes of the task, `Republished` follows the retry or DLQ publish and `Marked` follows `MarkDone`. */
  datatype Phase = Idle | Fresh | Duplicate | Failed | Succeeded | Republished(stored: bool) | Marked

  /** One execution of a task: which message, which attempt, its outcome, and in which worker process. */
  datatype Execution = Execution(messageId: string, attempt: nat, ok: bool, process: nat)

  /** Everything that happened so far. `issued` maps every message id the API minted to its task id, `entered`
      holds the ids whose first publish reached the broker, `accepted` those answered with 202 and `unsent` those
      answered with 202 although their first publish did not reach the broker. `lost` and `skipped` list the ids of
      acknowledged deliveries that left no copy behind because the publish lost it, or because the id was already
      processed; `repeated` lists the ids whose delivery crashed after its effect. `dropped` counts the publishes
      that returned no error and yet stored nothing. */
  datatype Log = Log(
    issued: map<string, string>, entered: set<string>, accepted: set<string>, unsent: seq<string>,
    executions: seq<Execution>, lost: seq<string>, skipped: seq<string>, repeated: seq<string>,
    acks: nat, crashes: nat, publishErrors: nat, dropped: nat)

  datatype State = State(
    jobs: seq<Job>, unacked: seq<Job>, dlq: seq<Job>, processed: set<string>, phase: Phase, prefetch: nat, log: Log)

  const EMPTY_LOG := Log(map[], {}, {}, [], [], [], [], [], 0, 0, 0, 0)

  function Initial(prefetch: nat): State {
    State([], [], [], {}, Idle, prefetch, EMPTY_LOG)
  }

  datatype Action =
    | Submit(messageId: string, taskId: string, fate: Fate)
    | Deliver
    | Check
    | Run
    | Publish(fate: Fate)
    | MarkDone
    | Ack
    | Crash

  predicate Enabled(s: State, a: Action) {
    match a
    case Submit(id, taskId, _) => id !in s.log.issued && taskId != ""
    case Deliver => s.jobs != [] && (s.prefetch == 0 || |s.unacked| < s.prefetch)
    case Check => s.unacked != [] && s.phase == Idle
    case Run => s.unacked != [] && s.phase == Fresh
    case Publish(_) => s.unacked != [] && s.phase == Failed
    case MarkDone => s.unacked != [] && s.phase == Succeeded
    case Ack => s.unacked != [] && (s.phase == Duplicate || s.phase.Republished? || s.phase == Marked)
    case Crash => true
  }

  /** True between a delivery's effect (a stored re-publish or a successful run) and its acknowledgement. */
  predicate InWindow(s: State) {
    s.phase == Succeeded || s.phase == Marked || s.phase == Republished(true)
  }

  function Step(s: State, a: Action): State
    requires Enabled(s, a)
  {
    match a
    case Submit(id, taskId, fate) => DoSubmit(s, id, taskId, fate)
    case Deliver => s.(jobs := s.jobs[1..], unacked := s.unacked + [s.jobs[0]])
    case Check => s.(phase := if s.unacked[0].messageId in s.processed then Duplicate else Fresh)
    case Run => DoRun(s)
    case Publish(fate) => DoPublish(s, fate)
    case MarkDone => s.(processed := s.processed + {s.unacked[0].messageId}, phase := Marked)
    case Ack => DoAck(s)
    case Crash => DoCrash(s)
  }

  /** The log after a publish call: its error, or its silent loss, is counted. */
  function Counted(log: Log, fate: Fate): Log {
    log.(publishErrors := log.publishErrors + (if fate.Failed() then 1 else 0),
    dropped := log.dropped + (if fate == Dropped then 1 else 0))
  }

  function DoSubmit(s: State, id: string, taskId: string, fate: Fate): State {
    var log := Counted(s.log, fate).(
      issued := s.log.issued[id := taskId],
      entered := if fate.Stored() then s.log.entered + {id} else s.log.entered,
      accepted := if fate.Failed() then s.log.accepted else s.log.accepted + {id},
      unsent := if fate == Dropped then s.log.unsent + [id] else s.log.unsent);
    s.(jobs := if fate.Stored() then s.jobs + [Job(taskId, 1, id)] else s.jobs, log := log)
  }

  function DoRun(s: State): State
    requires s.unacked != []
  {
    var job := s.unacked[0];
    var ok := !TaskFails(job.taskId);
    s.(phase := if ok then Succeeded else Failed,
    log := s.log.(executions := s.log.executions + [Execution(job.messageId, job.attempt, ok, s.log.crashes)]))
  }

  function Next(job: Job): Job {
    job.(attempt := job.attempt + 1)
  }

  function DoPublish(s: State, fate: Fate): State
    requires s.unacked != []
  {
    var job := Next(s.unacked[0]);
    var t := s.(phase := Republished(fate.Stored()), log := Counted(s.log, fate));
    if !fate.Stored() then t
    else if job.attempt <= MAX_ATTEMPTS then t.(jobs := s.jobs + [job])
    else t.(dlq := s.dlq + [job])
  }

  function DoAck(s: State): State
    requires s.unacked != []
  {
    var id := s.unacked[0].messageId;
    var log := s.log.(
      acks := s.log.acks + 1,
      lost := if s.phase == Republished(false) then s.log.lost + [id] else s.log.lost,
      skipped := if s.phase == Duplicate then s.log.skipped + [id] else s.log.skipped);
    s.(unacked := s.unacked[1..], phase := Idle, log := log)
  }

  /** The process dies: the broker takes the unacknowledged deliveries back, in order, to the head of the
      queue, and the restarted worker begins with an empty processed set. */
  function DoCrash(s: State): State {
    var log := s.log.(
      crashes := s.log.crashes + 1,
      repeated := if InWindow(s) && s.unacked != [] then s.log.repeated + [s.unacked[0].messageId] else s.log.repeated);
    s.(jobs := s.unacked + s.jobs, unacked := [], processed := {}, phase := Idle, log := log)
  }

  /** `acts` can be taken one after the other from `s`. */
  predicate Runnable(s: State, acts: seq<Action>)
    decreases |acts|
  {
    acts == [] || (Enabled(s, acts[0]) && Runnable(Step(s, acts[0]), acts[1..]))
  }

  function Exec(s: State, acts: seq<Action>): State
    requires Runnable(s, acts)
    decreases |acts|
  {
    if acts == [] then s else Exec(Step(s, acts[0]), acts[1..])
  }

  lemma {:induction false} ExecConcat(s: State, first: seq<Action>, rest: seq<Action>)
    requires Runnable(s, first) && Runnable(Exec(s, first), rest)
    ensures Runnable(s, first + rest)
    ensures Exec(s, first + rest) == Exec(Exec(s, first), rest)
    decreases |first|
  {
    if first == [] {
      assert first + rest == rest;
    } else {
      assert (first + rest)[0] == first[0] && (first + rest)[1..] == first[1..] + rest;
      ExecConcat(Step(s, first[0]), first[1..], rest);
    }
  }

  /** Copies of message `id` in a queue. */
  function Copies(q: seq<Job>, id: string): nat {
    if q == [] then 0 else (if q[0].messageId == id then 1 else 0) + Copies(q[1..], id)
  }

  /** Occurrences of `id` in a list of ids. */
  function Tally(ids: seq<string>, id: string): nat {
    if ids == [] then 0 else (if ids[0] == id then 1 else 0) + Tally(ids[1..], id)
  }

  /** Successful executions of message `id`. */
  function Successes(es: seq<Execution>, id: string): nat {
    if es == [] then 0 else (if es[0].ok && es[0].messageId == id then 1 else 0) + Successes(es[1..], id)
  }

  function Live(s: State, id: string): nat {
    Copies(s.jobs, id) + Copies(s.unacked, id)
  }

  /** The attempt numbers with which message `id` was executed, in order. */
  function AttemptsOf(es: seq<Execution>, id: string): seq<nat> {
    if es == [] then []
    else (if es[0].messageId == id then [es[0].attempt] else []) + AttemptsOf(es[1..], id)
  }

  /** [1, 2, .., n] */
  function UpTo(n: nat): (r: seq<nat>)
    ensures |r| == n
    ensures forall i :: 0 <= i < n ==> r[i] == i + 1
  {
    if n == 0 then [] else UpTo(n - 1) + [n]
  }
}
