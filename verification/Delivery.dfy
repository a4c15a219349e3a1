/** Webhook delivery: a log table and a job queue, with bounded retries and manual
    retry. Every awaited call of the coordinator is one step; workers, event
    routing and manual retries interleave freely. The queue is the default one, which
    puts a job that throws back up to three times. */
module Delivery {
  import opened Sequences

  const MAX_RETRIES := 3

  /** How often the queue puts a job back that throws. */
  const MAX_THROWS := 3

  // ---------------------------------------------------------------- the steps

  datatype Status = Pending | Retrying | Success | Failed

  datatype Log = Log(subscription: int, status: Status, attempts: nat)

  /** How far one delivery job has come. A job is in the queue (`Queued`), or held by
      whoever is about to enqueue it, by a worker, or by a manual retry. `Closing` is a
      worker that has written the failure and still has to signal it. */
  datatype Phase =
    | ToEnqueue(delay: nat)
    | Queued(delay: nat)
    | Taken
    | Calling
    | Delivered
    | Announcing
    | Caught
    | Deciding(attempts: nat)
    | Closing
    | Resetting

  /** `throws` counts the runs of the queued job that ended in an exception. */
  datatype Job = Job(log: int, phase: Phase, throws: nat)

  /** `calls` is a history variable: provider calls made for a log since it was last
      created or reset. Job keys are numbered from 0. */
  datatype State = State(logs: map<int, Log>, jobs: map<nat, Job>, calls: map<int, nat>, next: nat)

  datatype Step =
    | Insert(key: nat, log: int, subscription: int)  // routeEvent writes a log row
    | Enqueue(key: nat)
    | Refuse(key: nat)                               // ... or the queue is full: the enqueue throws
    | Take(key: nat)                                 // a worker dequeues the job
    | Drop(key: nat)                                 // ... and finds no provider: it throws
    | Mark(key: nat)                                 // ... or marks the attempt
    | Call(key: nat, ok: bool)                       // the provider's answer
    | Settle(key: nat)                               // the success is written
    | Announce(key: nat, ok: bool)                   // the success signal, which may throw
    | Look(key: nat)                                 // the catch block reads `attempts`
    | Decide(key: nat)                               // ... and schedules a retry or writes the failure
    | Close(key: nat, ok: bool)                      // the failure signal, which may throw
    | AskRetry(key: nat, log: int)                   // a manual retry reads a failed log
    | Abandon(key: nat)                              // ... and finds no subscription
    | Reset(key: nat)                                // ... or resets the log
    | Delete(log: int)                               // the row goes with its subscription

  /** `RETRY_DELAYS.at(attempts - 1)`, falling back to the last entry; `at(-1)` is the last too. */
  function RetryDelay(attempts: nat): nat {
    if attempts == 1 then 60000 else if attempts == 2 then 300000 else 900000
  }

  /** When the queue looks again for a job that threw, at the latest: after two to the power
      of `throws` seconds. The job is due at once, so any look before that runs it too. */
  function Backoff(throws: nat): nat { if throws == 0 then 1000 else 2 * Backoff(throws - 1) }

  function CallsOf(s: State, log: int): nat { if log in s.calls then s.calls[log] else 0 }

  function WithLog(s: State, log: int, status: Status, attempts: nat): State {
    if log in s.logs then s.(logs := s.logs[log := s.logs[log].(status := status, attempts := attempts)]) else s
  }

  function WithStatus(s: State, log: int, status: Status): State {
    if log in s.logs then WithLog(s, log, status, s.logs[log].attempts) else s
  }

  function WithPhase(s: State, key: nat, phase: Phase): State
    requires key in s.jobs
  {
    s.(jobs := s.jobs[key := s.jobs[key].(phase := phase)])
  }

  function Without(s: State, key: nat): State { s.(jobs := s.jobs - {key}) }

  /** The queue after a worker threw: the same job again, or no more. */
  function ThrownJobs(jobs: map<nat, Job>, key: nat): map<nat, Job>
    requires key in jobs
  {
    var throws := jobs[key].throws + 1;
    if throws <= MAX_THROWS then jobs[key := Job(jobs[key].log, Queued(Backoff(throws)), throws)] else jobs - {key}
  }

  function Thrown(s: State, key: nat): State
    requires key in s.jobs
  {
    s.(jobs := ThrownJobs(s.jobs, key))
  }

  predicate Enabled(s: State, step: Step) {
    match step
    case Insert(k, log, _) => k == s.next && k !in s.jobs && log !in s.logs
    case AskRetry(k, log) => k == s.next && k !in s.jobs && log in s.logs && s.logs[log].status == Failed
    case Delete(log) => log in s.logs
    case Enqueue(k) => k in s.jobs && s.jobs[k].phase.ToEnqueue?
    case Refuse(k) => k in s.jobs && s.jobs[k].phase.ToEnqueue?
    case Take(k) => k in s.jobs && s.jobs[k].phase.Queued?
    case Drop(k) => k in s.jobs && s.jobs[k].phase.Taken?
    case Mark(k) => k in s.jobs && s.jobs[k].phase.Taken?
    case Call(k, _) => k in s.jobs && s.jobs[k].phase.Calling?
    case Settle(k) => k in s.jobs && s.jobs[k].phase.Delivered?
    case Announce(k, _) => k in s.jobs && s.jobs[k].phase.Announcing?
    case Look(k) => k in s.jobs && s.jobs[k].phase.Caught?
    case Decide(k) => k in s.jobs && s.jobs[k].phase.Deciding?
    case Close(k, _) => k in s.jobs && s.jobs[k].phase.Closing?
    case Abandon(k) => k in s.jobs && s.jobs[k].phase.Resetting?
    case Reset(k) => k in s.jobs && s.jobs[k].phase.Resetting?
  }

  /** Only a worker's enqueue has a delay: it throws inside the queue's handler, those of
      `routeEvent` and of a manual retry throw at their callers. */
  function Next(s: State, step: Step): State
    requires Enabled(s, step)
  {
    match step
    case Insert(k, log, sub) =>
      State(s.logs[log := Log(sub, Pending, 0)], s.jobs[k := Job(log, ToEnqueue(0), 0)], s.calls[log := 0], k + 1)
    case Enqueue(k) => s.(jobs := s.jobs[k := Job(s.jobs[k].log, Queued(s.jobs[k].phase.delay), 0)])
    case Refuse(k) => if s.jobs[k].phase.delay > 0 then Thrown(s, k) else Without(s, k)
    case Take(k) => WithPhase(s, k, Taken)
    case Drop(k) => Thrown(s, k)
    case Mark(k) =>
      var id := s.jobs[k].log;
      WithPhase(if id in s.logs then WithLog(s, id, Retrying, s.logs[id].attempts + 1) else s, k, Calling)
    case Call(k, ok) =>
      var id := s.jobs[k].log;
      WithPhase(s.(calls := s.calls[id := CallsOf(s, id) + 1]), k, if ok then Delivered else Caught)
    case Settle(k) => WithPhase(WithStatus(s, s.jobs[k].log, Success), k, Announcing)
    case Announce(k, ok) => if ok then Without(s, k) else WithPhase(s, k, Caught)
    case Look(k) =>
      var id := s.jobs[k].log;
      WithPhase(s, k, Deciding(if id in s.logs then s.logs[id].attempts else 1))
    case Decide(k) =>
      var n := s.jobs[k].phase.attempts;
      if n < MAX_RETRIES then WithPhase(WithStatus(s, s.jobs[k].log, Retrying), k, ToEnqueue(RetryDelay(n)))
      else WithPhase(WithStatus(s, s.jobs[k].log, Failed), k, Closing)
    case Close(k, ok) => if ok then Without(s, k) else Thrown(s, k)
    case AskRetry(k, log) => s.(jobs := s.jobs[k := Job(log, Resetting, 0)], next := k + 1)
    case Abandon(k) => Without(s, k)
    case Reset(k) =>
      var id := s.jobs[k].log;
      WithPhase(WithLog(s, id, Pending, 0).(calls := s.calls[id := 0]), k, ToEnqueue(0))
    case Delete(log) => s.(logs := s.logs - {log})
  }

  // ------------------------------------------------- what every run maintains

  /** No job works on the log; one that has only its failure to signal does not. */
  predicate Unheld(s: State, id: int) { forall k <- s.jobs :: s.jobs[k].log == id ==> s.jobs[k].phase.Closing? }

  /** What may go wrong, from least to most. `Settling`: a throw that the queue makes up for.
      `ThreeCalls`: also providers that stay away, queues that stay full and success signals that
      throw. `SixCalls`: also failure signals whose exception runs a failed delivery again.
      `Any`: everything. */
  datatype Regime = Settling | ThreeCalls | SixCalls | Any

  /** Running the job of a throwing failure signal again does no harm to the log. */
  predicate MayRunAgain(s: State, k: nat, r: Regime)
    requires k in s.jobs
  {
    var id := s.jobs[k].log;
    && id in s.logs && Unheld(s, id)
    && (|| Waiting(s.logs[id], CallsOf(s, id))
        || (r.SixCalls? && s.logs[id].status == Failed && s.logs[id].attempts <= MAX_RETRIES + s.jobs[k].throws))
  }

  predicate Tolerated(s: State, step: Step, r: Regime)
    requires Enabled(s, step)
  {
    match step
    case Refuse(k) => r.Settling? ==> s.jobs[k].phase.delay > 0 && s.jobs[k].throws < MAX_THROWS
    case Drop(k) => r.Settling? ==> s.jobs[k].throws < MAX_THROWS
    case Announce(_, ok) => r.Settling? ==> ok
    case Close(k, ok) => ok || s.jobs[k].throws >= MAX_THROWS || MayRunAgain(s, k, r)
    case Delete(log) => Unheld(s, log)
    case AskRetry(_, log) => Unheld(s, log)
    case _ => true
  }

  predicate Allowed(s: State, step: Step, r: Regime) { Enabled(s, step) && (r.Any? || Tolerated(s, step, r)) }

  ghost predicate Path(s: State, steps: seq<Step>, t: State, r: Regime)
    decreases |steps|
  {
    if steps == [] then s == t
    else Allowed(s, steps[0], r) && Path(Next(s, steps[0]), steps[1..], t, r)
  }

  /** A run in which every throw is made up for. */
  ghost predicate Runs(s: State, steps: seq<Step>, t: State) { Path(s, steps, t, Settling) }

  /** Any run at all. */
  ghost predicate Follows(s: State, steps: seq<Step>, t: State) { Path(s, steps, t, Any) }

  const START := State(map[], map[], map[], 0)

  /** The delay a job waits: none for a first attempt, the backoff after a throw. */
  function DelayBefore(attempts: nat, throws: nat): nat {
    if throws > 0 then Backoff(throws) else if attempts == 0 then 0 else RetryDelay(attempts)
  }

  predicate Waiting(log: Log, calls: nat) {
    && log.attempts < MAX_RETRIES && calls == log.attempts
    && log.status == if log.attempts == 0 then Pending else Retrying
  }

  /** A failed delivery that a throwing signal put back into the queue. */
  predicate Rerun(r: Regime, throws: nat, log: Log, calls: nat) {
    r.SixCalls? && log.status == Failed && calls == log.attempts && MAX_RETRIES <= log.attempts < MAX_RETRIES + throws
  }

  /** Attempts a job can have made: each one past the third cost it a throw. */
  predicate Within(r: Regime, throws: nat, log: Log) {
    1 <= log.attempts <= if r.SixCalls? then MAX_RETRIES + throws else MAX_RETRIES
  }

  function Top(r: Regime): nat { if r.SixCalls? then MAX_RETRIES + MAX_THROWS else MAX_RETRIES }

  predicate Fits(r: Regime, job: Job, log: Log, calls: nat) {
    match job.phase
    case ToEnqueue(d) => Waiting(log, calls) && d == DelayBefore(log.attempts, 0)
    case Queued(d) =>
      || (Waiting(log, calls) && d == DelayBefore(log.attempts, job.throws))
      || (Rerun(r, job.throws, log, calls) && d == Backoff(job.throws))
    case Taken => Waiting(log, calls) || Rerun(r, job.throws, log, calls)
    case Calling => log.status == Retrying && Within(r, job.throws, log) && calls + 1 == log.attempts
    case Delivered => log.status == Retrying && Within(r, job.throws, log) && calls == log.attempts
    case Announcing => log.status == Success && Within(r, job.throws, log) && calls == log.attempts
    case Caught => Failing(r, job.throws, log, calls)
    case Deciding(n) => Failing(r, job.throws, log, calls) && n == calls
    case Closing => true
    case Resetting => log.status == Failed
  }

  /** In the catch block, where a throwing success signal leads too. */
  predicate Failing(r: Regime, throws: nat, log: Log, calls: nat) {
    && (log.status == Retrying || (log.status == Success && !r.Settling?))
    && Within(r, throws, log) && calls == log.attempts
  }

  ghost predicate JobOk(s: State, k: nat, r: Regime)
    requires k in s.jobs
  {
    var job := s.jobs[k];
    && k < s.next && job.throws <= MAX_THROWS
    && (job.phase.Closing? || (job.log in s.logs && Fits(r, job, s.logs[job.log], CallsOf(s, job.log))))
  }

  ghost predicate Held(s: State, id: int) { exists k :: k in s.jobs && s.jobs[k].log == id && !s.jobs[k].phase.Closing? }

  /** A finished delivery made exactly the calls its attempts say; a failed one made
      at least three. Only beyond `Settling` one can stop with attempts left. */
  predicate Ended(r: Regime, log: Log, calls: nat) {
    match log.status
    case Success => 1 <= log.attempts <= Top(r) && calls == log.attempts
    case Failed => MAX_RETRIES <= log.attempts <= Top(r) && calls == log.attempts
    case _ => !r.Settling? && Waiting(log, calls)
  }

  ghost predicate LogOk(s: State, id: int, r: Regime)
    requires id in s.logs
  {
    Ended(r, s.logs[id], CallsOf(s, id)) || (s.logs[id].status in {Pending, Retrying} && Held(s, id))
  }

  ghost predicate OneJobPerLog(s: State) {
    forall j, k | j in s.jobs && k in s.jobs && !s.jobs[j].phase.Closing? && !s.jobs[k].phase.Closing? ::
      s.jobs[j].log == s.jobs[k].log ==> j == k
  }

  ghost predicate Inv(s: State, r: Regime) {
    && (forall k :: k in s.jobs ==> JobOk(s, k, r))
    && (forall id :: id in s.logs ==> LogOk(s, id, r))
    && OneJobPerLog(s)
  }

  /** The step works on an existing job and its log. */
  predicate Works(step: Step) { !step.Insert? && !step.AskRetry? && !step.Delete? && !step.Close? }

  /** The key a step works for; a deletion works for none. */
  predicate Touches(step: Step, key: nat) { !step.Delete? && step.key == key }

  /** A step that works on an existing job changes that job, its log and its call
      count, and nothing else; `job` is `None` when the job is done. */
  ghost predicate Moved(s: State, t: State, k: nat, job: Option<Job>, log: Log, calls: nat)
    requires k in s.jobs
  {
    var id := s.jobs[k].log;
    && !s.jobs[k].phase.Closing?
    && t.jobs == (if job.Some? then s.jobs[k := job.value] else s.jobs - {k}) && (job.Some? ==> job.value.log == id)
    && id in t.logs && t.logs == s.logs[id := log]
    && CallsOf(t, id) == calls && (forall other :: other != id ==> CallsOf(t, other) == CallsOf(s, other))
    && t.next == s.next
  }

  /** The job still fits its log, or is done with it. */
  predicate Sound(r: Regime, job: Option<Job>, log: Log, calls: nat) {
    && (job.Some? ==> job.value.throws <= MAX_THROWS && Fits(r, job.value, log, calls))
    && (job == None || job.value.phase.Closing? || log.status in {Success, Failed} ==> Ended(r, log, calls))
  }

  lemma StepOnJob(s: State, step: Step, r: Regime) returns (job: Option<Job>, log: Log, calls: nat)
    requires !r.Any? && Allowed(s, step, r) && Works(step)
    requires step.key in s.jobs && JobOk(s, step.key, r) && LogOk(s, s.jobs[step.key].log, r)
    ensures Moved(s, Next(s, step), step.key, job, log, calls) && Sound(r, job, log, calls)
  {
    if step.Drop? || step.Refuse? {
      job := ThrowOnJob(s, step, r);
    } else if step.Mark? || step.Call? || step.Settle? {
      job := CallOnJob(s, step, r);
    } else {
      job := WorkOnJob(s, step, r);
    }
    var t := Next(s, step);
    log, calls := t.logs[s.jobs[step.key].log], CallsOf(t, s.jobs[step.key].log);
  }

  lemma CallOnJob(s: State, step: Step, r: Regime) returns (job: Option<Job>)
    requires !r.Any? && Allowed(s, step, r) && (step.Mark? || step.Call? || step.Settle?)
    requires step.key in s.jobs && JobOk(s, step.key, r) && LogOk(s, s.jobs[step.key].log, r)
    ensures var t, id := Next(s, step), s.jobs[step.key].log;
      id in t.logs && Moved(s, t, step.key, job, t.logs[id], CallsOf(t, id)) && Sound(r, job, t.logs[id], CallsOf(t, id))
  {
    var t := Next(s, step);
    job := if step.key in t.jobs then Some(t.jobs[step.key]) else None;
  }

  lemma WorkOnJob(s: State, step: Step, r: Regime) returns (job: Option<Job>)
    requires !r.Any? && Allowed(s, step, r) && Works(step) && !step.Drop? && !step.Refuse?
    requires !step.Mark? && !step.Call? && !step.Settle?
    requires step.key in s.jobs && JobOk(s, step.key, r) && LogOk(s, s.jobs[step.key].log, r)
    ensures var t, id := Next(s, step), s.jobs[step.key].log;
      id in t.logs && Moved(s, t, step.key, job, t.logs[id], CallsOf(t, id)) && Sound(r, job, t.logs[id], CallsOf(t, id))
  {
    var t := Next(s, step);
    job := if step.key in t.jobs then Some(t.jobs[step.key]) else None;
  }

  lemma ThrowOnJob(s: State, step: Step, r: Regime) returns (job: Option<Job>)
    requires !r.Any? && Allowed(s, step, r) && (step.Drop? || step.Refuse?) && JobOk(s, step.key, r)
    ensures var t, id := Next(s, step), s.jobs[step.key].log;
      id in t.logs && Moved(s, t, step.key, job, t.logs[id], CallsOf(t, id)) && Sound(r, job, t.logs[id], CallsOf(t, id))
  {
    var t := Next(s, step);
    job := if step.key in t.jobs then Some(t.jobs[step.key]) else None;
  }

  lemma OwnStep(s: State, step: Step, r: Regime) returns (job: Option<Job>, log: Log, calls: nat)
    requires !r.Any? && Inv(s, r) && Allowed(s, step, r) && Works(step)
    ensures step.key in s.jobs && Moved(s, Next(s, step), step.key, job, log, calls) && Sound(r, job, log, calls)
  {
    assert JobOk(s, step.key, r);
    assert LogOk(s, s.jobs[step.key].log, r);
    job, log, calls := StepOnJob(s, step, r);
  }

  lemma MovedKeepsJobs(s: State, t: State, k: nat, job: Option<Job>, log: Log, calls: nat, r: Regime)
    requires Inv(s, r) && k in s.jobs && Moved(s, t, k, job, log, calls) && Sound(r, job, log, calls)
    ensures OneJobPerLog(t) && forall j :: j in t.jobs ==> JobOk(t, j, r)
  {
    assert JobOk(s, k, r);
    forall j | j in t.jobs ensures JobOk(t, j, r) {
      assert JobOk(s, j, r);
    }
  }

  lemma MovedKeepsLogs(s: State, t: State, k: nat, job: Option<Job>, log: Log, calls: nat, r: Regime)
    requires Inv(s, r) && k in s.jobs && Moved(s, t, k, job, log, calls) && Sound(r, job, log, calls)
    ensures forall id :: id in t.logs ==> LogOk(t, id, r)
  {
    var own := s.jobs[k].log;
    forall id | id in t.logs ensures LogOk(t, id, r) {
      if id == own {
        if job.Some? {
          assert t.jobs[k].log == own;
        }
        assert JobOk(s, k, r) && LogOk(s, id, r);
      } else {
        assert LogOk(s, id, r);
        if Held(s, id) {
          var j :| j in s.jobs && s.jobs[j].log == id && !s.jobs[j].phase.Closing?;
          assert j in t.jobs && t.jobs[j] == s.jobs[j];
        }
      }
    }
  }

  lemma InsertKeepsInv(s: State, t: State, k: nat, id: int, sub: int, r: Regime)
    requires Inv(s, r) && k == s.next && id !in s.logs && k !in s.jobs
    requires t == State(s.logs[id := Log(sub, Pending, 0)], s.jobs[k := Job(id, ToEnqueue(0), 0)], s.calls[id := 0], k + 1)
    ensures Inv(t, r)
  {
    forall j | j in t.jobs ensures JobOk(t, j, r) && (j != k && !t.jobs[j].phase.Closing? ==> t.jobs[j].log != id) {
      if j != k {
        assert JobOk(s, j, r);
      }
    }
    forall other | other in t.logs ensures LogOk(t, other, r) {
      if other == id {
        assert t.jobs[k].log == id;
      } else {
        assert LogOk(s, other, r);
        StillHeld(s, t, other);
      }
    }
  }

  /** Whoever held a log still does when the jobs at work are still there. */
  lemma StillHeld(s: State, t: State, id: int)
    requires forall j :: j in s.jobs && s.jobs[j].log == id && !s.jobs[j].phase.Closing? ==> j in t.jobs && t.jobs[j] == s.jobs[j]
    ensures Held(s, id) ==> Held(t, id)
  {
    if Held(s, id) {
      var j :| j in s.jobs && s.jobs[j].log == id && !s.jobs[j].phase.Closing?;
      assert j in t.jobs && t.jobs[j] == s.jobs[j];
    }
  }

  lemma AskKeepsInv(s: State, t: State, k: nat, id: int, r: Regime)
    requires Inv(s, r) && k == s.next && k !in s.jobs && id in s.logs && s.logs[id].status == Failed && Unheld(s, id)
    requires t == s.(jobs := s.jobs[k := Job(id, Resetting, 0)], next := k + 1)
    ensures Inv(t, r)
  {
    assert LogOk(s, id, r);
    forall j | j in t.jobs ensures JobOk(t, j, r) && (j != k && !t.jobs[j].phase.Closing? ==> t.jobs[j].log != id) {
      if j != k {
        assert JobOk(s, j, r);
      }
    }
    forall other | other in t.logs ensures LogOk(t, other, r) {
      assert LogOk(s, other, r);
      StillHeld(s, t, other);
    }
  }

  lemma DeleteKeepsInv(s: State, t: State, id: int, r: Regime)
    requires Inv(s, r) && Unheld(s, id) && t == s.(logs := s.logs - {id})
    ensures Inv(t, r)
  {
    forall j | j in t.jobs ensures JobOk(t, j, r) {
      assert JobOk(s, j, r);
    }
    forall other | other in t.logs ensures LogOk(t, other, r) {
      assert LogOk(s, other, r);
      StillHeld(s, t, other);
    }
  }

  /** A closing job ends, or is put back for a log it may run again. */
  lemma CloseKeepsInv(s: State, t: State, k: nat, r: Regime)
    requires Inv(s, r) && !r.Any? && k in s.jobs && s.jobs[k].phase.Closing?
    requires t == Without(s, k) || (t == Thrown(s, k) && (s.jobs[k].throws >= MAX_THROWS || MayRunAgain(s, k, r)))
    ensures Inv(t, r)
  {
    forall j | j in t.jobs
      ensures JobOk(t, j, r) && (j != k && k in t.jobs && !t.jobs[j].phase.Closing? ==> t.jobs[j].log != t.jobs[k].log)
    {
      assert JobOk(s, j, r);
      if j == k {
        assert LogOk(s, s.jobs[k].log, r);
      }
    }
    forall other | other in t.logs ensures LogOk(t, other, r) {
      assert LogOk(s, other, r);
      StillHeld(s, t, other);
    }
  }

  lemma StepKeepsInv(s: State, step: Step, r: Regime)
    requires Inv(s, r) && !r.Any? && Allowed(s, step, r)
    ensures Inv(Next(s, step), r)
  {
    var t := Next(s, step);
    if step.Insert? {
      InsertKeepsInv(s, t, step.key, step.log, step.subscription, r);
    } else if step.AskRetry? {
      AskKeepsInv(s, t, step.key, step.log, r);
    } else if step.Delete? {
      DeleteKeepsInv(s, t, step.log, r);
    } else if step.Close? {
      CloseKeepsInv(s, t, step.key, r);
    } else {
      var job, log, calls := OwnStep(s, step, r);
      MovedKeepsJobs(s, t, step.key, job, log, calls, r);
      MovedKeepsLogs(s, t, step.key, job, log, calls, r);
    }
  }

  lemma {:induction false} InvariantOverRuns(s: State, steps: seq<Step>, t: State, r: Regime)
    requires Inv(s, r) && !r.Any? && Path(s, steps, t, r)
    ensures Inv(t, r)
    decreases |steps|
  {
    if steps != [] {
      StepKeepsInv(s, steps[0], r);
      InvariantOverRuns(Next(s, steps[0]), steps[1..], t, r);
    }
  }

  /** With no job left, every log ended: delivered in one to three calls, or failed
      after exactly three. While a log is neither, exactly one job works on it. */
  lemma DeliveriesSettle(steps: seq<Step>, t: State, id: int)
    requires Runs(START, steps, t) && id in t.logs
    ensures CallsOf(t, id) <= MAX_RETRIES && t.logs[id].attempts <= MAX_RETRIES
    ensures t.logs[id].status in {Pending, Retrying} ==> Held(t, id)
    ensures t.logs[id].status == Failed ==> t.logs[id].attempts == MAX_RETRIES && CallsOf(t, id) == MAX_RETRIES
    ensures OneJobPerLog(t)
    ensures t.jobs == map[] ==>
      t.logs[id].status in {Success, Failed} && CallsOf(t, id) == t.logs[id].attempts >= 1
  {
    InvariantOverRuns(START, steps, t, Settling);
    assert LogOk(t, id, Settling);
    if Held(t, id) {
      var k :| k in t.jobs && t.jobs[k].log == id && !t.jobs[k].phase.Closing?;
      assert JobOk(t, k, Settling);
    }
  }

  /** However often providers are gone, queues are full and success signals throw, no
      delivery makes a fourth call; with throwing failure signals none makes a seventh. */
  lemma CallsAreBounded(steps: seq<Step>, t: State, id: int, r: Regime)
    requires !r.Any? && Path(START, steps, t, r) && id in t.logs
    ensures CallsOf(t, id) <= Top(r) && t.logs[id].attempts <= Top(r)
  {
    InvariantOverRuns(START, steps, t, r);
    SoundIsBounded(t, id, r);
  }

  lemma SoundIsBounded(t: State, id: int, r: Regime)
    requires !r.Any? && Inv(t, r) && id in t.logs
    ensures CallsOf(t, id) <= Top(r) && t.logs[id].attempts <= Top(r)
  {
    assert LogOk(t, id, r);
    if !Ended(r, t.logs[id], CallsOf(t, id)) {
      var k :| k in t.jobs && t.jobs[k].log == id && !t.jobs[k].phase.Closing?;
      assert JobOk(t, k, r);
    }
  }

  /** A queued job that has not thrown waits 0, 1 or 5 minutes, exactly as its log has 0, 1 or 2
      attempts; after its first, second or third throw it waits at most 2, 4 or 8 seconds. The
      third entry of the delay table is never used. */
  lemma LongestDelayIsFiveMinutes(steps: seq<Step>, t: State, k: nat, r: Regime)
    requires !r.Any? && Path(START, steps, t, r) && k in t.jobs && t.jobs[k].phase.Queued?
    ensures t.jobs[k].log in t.logs && t.jobs[k].throws <= 3
    ensures var d, n := t.jobs[k].phase.delay, t.logs[t.jobs[k].log].attempts;
      match t.jobs[k].throws
      case 0 => (n == 0 && d == 0) || (n == 1 && d == 60000) || (n == 2 && d == 300000)
      case 1 => d == 2000
      case 2 => d == 4000
      case _ => d == 8000
  {
    InvariantOverRuns(START, steps, t, r);
    assert JobOk(t, k, r);
    BackoffIs();
  }

  lemma BackoffIs()
    ensures Backoff(1) == 2000 && Backoff(2) == 4000 && Backoff(3) == 8000
  {
    assert Backoff(0) == 1000 && Backoff(1) == 2000;
  }

  /** What the queue does with a job that threw: again after at most 2, 4 or 8 seconds, and
      after the fourth throw no more. */
  ghost predicate PutBack(jobs: map<nat, Job>, k: nat, after: map<nat, Job>)
    requires k in jobs
  {
    var job := jobs[k];
    match job.throws
    case 0 => after == jobs[k := Job(job.log, Queued(2000), 1)]
    case 1 => after == jobs[k := Job(job.log, Queued(4000), 2)]
    case 2 => after == jobs[k := Job(job.log, Queued(8000), 3)]
    case _ => after == jobs - {k}
  }

  lemma ThrownIsPutBack(jobs: map<nat, Job>, k: nat)
    requires k in jobs
    ensures PutBack(jobs, k, ThrownJobs(jobs, k))
  {
    BackoffIs();
  }

  // -------------------------------------------------------------- termination

  /** Steps that so many attempts of a delivery can take. */
  function Weight(r: Regime, attempts: int): int { if r.Settling? then 12 * attempts else 14 * attempts }

  /** The most steps a delivery takes from a manual retry to its end. */
  function Longest(r: Regime): int { Weight(r, Top(r)) + 2 }

  /** Steps a job can still take. */
  function PhaseRank(r: Regime, phase: Phase, throws: nat, attempts: nat): int {
    var more := if r.Settling? then 0 else 2;
    if phase.Resetting? then Longest(r)
    else
      Weight(r, Top(r) - attempts) +
      match phase
      case ToEnqueue(_) => 1
      case Queued(_) => 2 * (MAX_THROWS - throws) - 6
      case Taken => 2 * (MAX_THROWS - throws) - 7
      case Calling => 4 + more
      case Delivered => 3 + more
      case Announcing => 2 + more
      case Caught => 3
      case Deciding(_) => 2
      case _ => 1
  }

  /** A closing job ends with its signal where every throw is made up for; elsewhere a
      throwing signal can give it the steps again that its log has attempts left for. */
  function Rank(s: State, k: nat, r: Regime): int {
    if k !in s.jobs then 0
    else if s.jobs[k].phase.Closing? && (r.Settling? || s.jobs[k].log !in s.logs) then 1
    else if s.jobs[k].log in s.logs then PhaseRank(r, s.jobs[k].phase, s.jobs[k].throws, s.logs[s.jobs[k].log].attempts)
    else 0
  }

  lemma RankBounds(s: State, k: nat, r: Regime)
    requires Inv(s, r) && !r.Any?
    ensures 0 <= Rank(s, k, r) <= Longest(r) && (k in s.jobs ==> Rank(s, k, r) > 0)
  {
    if k in s.jobs {
      var id := s.jobs[k].log;
      assert JobOk(s, k, r);
      if id in s.logs {
        SoundIsBounded(s, id, r);
        RankOfPhase(s.jobs[k], s.logs[id], CallsOf(s, id), r);
      }
    }
  }

  lemma RankOfPhase(job: Job, log: Log, calls: nat, r: Regime)
    requires !r.Any? && job.throws <= MAX_THROWS && log.attempts <= Top(r)
    requires job.phase.Closing? || Fits(r, job, log, calls)
    ensures 0 < PhaseRank(r, job.phase, job.throws, log.attempts) <= Longest(r)
  {
  }

  lemma StepOnJobLowersRank(s: State, step: Step, r: Regime)
    requires !r.Any? && Allowed(s, step, r) && Works(step)
    requires step.key in s.jobs && JobOk(s, step.key, r) && LogOk(s, s.jobs[step.key].log, r)
    requires s.logs[s.jobs[step.key].log].attempts <= Top(r)
    ensures Rank(Next(s, step), step.key, r) < Rank(s, step.key, r)
  {
    if step.Mark? || step.Call? || step.Settle? {
      CallLowersRank(s, step, r);
    } else {
      WorkLowersRank(s, step, r);
    }
  }

  lemma CallLowersRank(s: State, step: Step, r: Regime)
    requires !r.Any? && Allowed(s, step, r) && (step.Mark? || step.Call? || step.Settle?)
    requires step.key in s.jobs && JobOk(s, step.key, r) && s.logs[s.jobs[step.key].log].attempts <= Top(r)
    ensures Rank(Next(s, step), step.key, r) < Rank(s, step.key, r)
  {
  }

  lemma WorkLowersRank(s: State, step: Step, r: Regime)
    requires !r.Any? && Allowed(s, step, r) && Works(step) && !step.Mark? && !step.Call? && !step.Settle?
    requires step.key in s.jobs && JobOk(s, step.key, r) && LogOk(s, s.jobs[step.key].log, r)
    requires s.logs[s.jobs[step.key].log].attempts <= Top(r)
    ensures Rank(Next(s, step), step.key, r) < Rank(s, step.key, r)
  {
  }

  lemma OwnStepLowersRank(s: State, step: Step, r: Regime)
    requires !r.Any? && Inv(s, r) && Allowed(s, step, r) && Works(step)
    ensures Rank(Next(s, step), step.key, r) < Rank(s, step.key, r)
  {
    assert JobOk(s, step.key, r);
    assert LogOk(s, s.jobs[step.key].log, r);
    SoundIsBounded(s, s.jobs[step.key].log, r);
    StepOnJobLowersRank(s, step, r);
  }

  /** A step of another job gives the log of a closing one new attempts: a manual retry
      resets it, or a deleted row's id is used again. */
  predicate Renews(s: State, step: Step, k: nat, r: Regime) {
    !r.Settling? && k in s.jobs && s.jobs[k].phase.Closing? &&
    match step
    case Insert(_, log, _) => log == s.jobs[k].log
    case Reset(j) => j in s.jobs && s.jobs[j].log == s.jobs[k].log
    case _ => false
  }

  /** How often that happens to a job on a path. */
  ghost function Renewals(s: State, steps: seq<Step>, k: nat, r: Regime): nat
    decreases |steps|
  {
    if steps == [] || !Enabled(s, steps[0]) then 0
    else (if Renews(s, steps[0], k, r) then 1 else 0) + Renewals(Next(s, steps[0]), steps[1..], k, r)
  }

  /** Only a reset takes attempts back. */
  lemma AttemptsGrow(s: State, step: Step)
    requires Enabled(s, step) && Works(step) && !step.Reset?
    ensures var id, t := s.jobs[step.key].log, Next(s, step);
      t.logs.Keys == s.logs.Keys && (id in s.logs ==> t.logs[id].attempts >= s.logs[id].attempts)
  {
  }

  lemma OtherStepsKeepRank(s: State, step: Step, k: nat, r: Regime)
    requires !r.Any? && Inv(s, r) && Allowed(s, step, r) && Works(step) && step.key != k
    ensures Rank(Next(s, step), k, r) <= Rank(s, k, r) + if Renews(s, step, k, r) then Weight(r, Top(r)) else 0
  {
    var job, log, calls := OwnStep(s, step, r);
    RankBounds(s, k, r);
    if k in s.jobs && s.jobs[k].log == s.jobs[step.key].log {
      assert s.jobs[k].phase.Closing?;
      if !step.Reset? {
        AttemptsGrow(s, step);
      }
    }
  }

  /** A closing job ends, or runs again with the attempts its log has left. */
  lemma ClosingLowersRank(s: State, step: Step, r: Regime)
    requires !r.Any? && Inv(s, r) && Allowed(s, step, r) && step.Close?
    ensures Rank(Next(s, step), step.key, r) < Rank(s, step.key, r)
    ensures forall k :: k != step.key ==> Rank(Next(s, step), k, r) == Rank(s, k, r)
  {
    RankBounds(s, step.key, r);
    var id := s.jobs[step.key].log;
    if id in s.logs {
      assert LogOk(s, id, r);
    }
  }

  /** Steps taken for one job. */
  function StepsFor(steps: seq<Step>, k: nat): nat {
    if steps == [] then 0 else (if Touches(steps[0], k) then 1 else 0) + StepsFor(steps[1..], k)
  }

  /** However the other deliveries interleave, the steps one job takes use up its rank,
      which only renewals of its log raise. */
  lemma {:induction false} StepsUseUpRank(s: State, steps: seq<Step>, t: State, k: nat, r: Regime)
    requires !r.Any? && Inv(s, r) && Path(s, steps, t, r) && k < s.next
    ensures StepsFor(steps, k) + Rank(t, k, r) <= Rank(s, k, r) + Weight(r, Top(r)) * Renewals(s, steps, k, r)
    decreases |steps|
  {
    if steps != [] {
      StepUsesUpRank(s, steps[0], k, r);
      StepKeepsInv(s, steps[0], r);
      StepsUseUpRank(Next(s, steps[0]), steps[1..], t, k, r);
      RenewalsCons(s, steps, k, r);
    }
  }

  lemma RenewalsCons(s: State, steps: seq<Step>, k: nat, r: Regime)
    requires steps != [] && Enabled(s, steps[0])
    ensures Weight(r, Top(r)) * Renewals(s, steps, k, r) ==
      (if Renews(s, steps[0], k, r) then Weight(r, Top(r)) else 0) +
      Weight(r, Top(r)) * Renewals(Next(s, steps[0]), steps[1..], k, r)
  {
  }

  lemma StepUsesUpRank(s: State, step: Step, k: nat, r: Regime)
    requires !r.Any? && Inv(s, r) && Allowed(s, step, r) && k < s.next
    ensures (if Touches(step, k) then 1 else 0) + Rank(Next(s, step), k, r)
      <= Rank(s, k, r) + if Renews(s, step, k, r) then Weight(r, Top(r)) else 0
    ensures k < Next(s, step).next
  {
    if step.Close? {
      ClosingLowersRank(s, step, r);
    } else if !Works(step) {
      NewJobKeepsRank(s, step, k, r);
    } else {
      var job, log, calls := OwnStep(s, step, r);
      if step.key == k {
        OwnStepLowersRank(s, step, r);
      } else {
        OtherStepsKeepRank(s, step, k, r);
      }
    }
  }

  lemma NewJobKeepsRank(s: State, step: Step, k: nat, r: Regime)
    requires !r.Any? && Inv(s, r) && Allowed(s, step, r) && !Works(step) && !step.Close? && k < s.next
    ensures Rank(Next(s, step), k, r) <= Rank(s, k, r) + if Renews(s, step, k, r) then Weight(r, Top(r)) else 0
    ensures k < Next(s, step).next && !Touches(step, k)
  {
    RankBounds(s, k, r);
    if k in s.jobs {
      assert JobOk(s, k, r);
      if s.jobs[k].log in s.logs {
        SoundIsBounded(s, s.jobs[k].log, r);
      }
    }
  }

  /** No delivery takes more than 38 steps where every throw is made up for. Elsewhere it is
      44, or 86 with throwing failure signals, and less than as many again each time its log
      is renewed while its failure waits to be signalled. */
  lemma DeliveriesEnd(s: State, steps: seq<Step>, t: State, k: nat, r: Regime)
    requires !r.Any? && Inv(s, r) && Path(s, steps, t, r) && k < s.next
    ensures StepsFor(steps, k) <= Longest(r) + Weight(r, Top(r)) * Renewals(s, steps, k, r)
    ensures Longest(r) == match r case Settling => 38 case ThreeCalls => 44 case _ => 86
    ensures r.Settling? ==> StepsFor(steps, k) <= 38
  {
    StepsAreRanked(s, steps, t, k, r);
    if r.Settling? {
      NeverRenewed(s, steps, k);
    }
  }

  lemma StepsAreRanked(s: State, steps: seq<Step>, t: State, k: nat, r: Regime)
    requires !r.Any? && Inv(s, r) && Path(s, steps, t, r) && k < s.next
    ensures StepsFor(steps, k) <= Longest(r) + Weight(r, Top(r)) * Renewals(s, steps, k, r)
  {
    StepsUseUpRank(s, steps, t, k, r);
    InvariantOverRuns(s, steps, t, r);
    RankBounds(s, k, r);
    RankBounds(t, k, r);
  }

  lemma {:induction false} NeverRenewed(s: State, steps: seq<Step>, k: nat)
    ensures Renewals(s, steps, k, Settling) == 0
    decreases |steps|
  {
    if steps != [] && Enabled(s, steps[0]) {
      NeverRenewed(Next(s, steps[0]), steps[1..], k);
    }
  }

  /** Steps taken for the jobs numbered below `n`. */
  function StepsBelow(steps: seq<Step>, n: nat): nat {
    if n == 0 then 0 else StepsBelow(steps, n - 1) + StepsFor(steps, n - 1)
  }

  lemma {:induction false} StepsBelowCons(steps: seq<Step>, n: nat)
    requires steps != []
    ensures StepsBelow(steps, n) == (if !steps[0].Delete? && steps[0].key < n then 1 else 0) + StepsBelow(steps[1..], n)
    decreases n
  {
    if n > 0 {
      StepsBelowCons(steps, n - 1);
    }
  }

  lemma {:induction false} NoStepsBelow(n: nat)
    ensures StepsBelow([], n) == 0
    decreases n
  {
    if n > 0 {
      NoStepsBelow(n - 1);
    }
  }

  ghost predicate Quiet(steps: seq<Step>) {
    forall i | 0 <= i < |steps| :: !steps[i].Insert? && !steps[i].AskRetry?
  }

  /** A manual retry that will reset the log of the closing job `k`. */
  ghost predicate Renewing(s: State, k: nat) {
    k in s.jobs && exists j :: j in s.jobs && s.jobs[j].log == s.jobs[k].log && s.jobs[j].phase.Resetting?
  }

  /** Only one retry can be under way for a log, and a quiet run starts no other. */
  lemma {:induction false} RenewedOnce(s: State, steps: seq<Step>, t: State, k: nat, r: Regime)
    requires !r.Any? && Inv(s, r) && Path(s, steps, t, r) && Quiet(steps) && k < s.next
    ensures Renewals(s, steps, k, r) <= if Renewing(s, k) then 1 else 0
    decreases |steps|
  {
    if steps != [] {
      StepKeepsInv(s, steps[0], r);
      RenewingStep(s, steps[0], k, r);
      RenewedOnce(Next(s, steps[0]), steps[1..], t, k, r);
    }
  }

  lemma RenewingStep(s: State, step: Step, k: nat, r: Regime)
    requires !r.Any? && Inv(s, r) && Allowed(s, step, r) && !step.Insert? && !step.AskRetry? && k < s.next
    ensures k < Next(s, step).next
    ensures Renewing(Next(s, step), k) ==> Renewing(s, k)
    ensures Renews(s, step, k, r) ==> Renewing(s, k) && !Renewing(Next(s, step), k)
  {
    var t := Next(s, step);
    NoNewRetry(s, step);
    if Renewing(t, k) {
      var j :| j in t.jobs && t.jobs[j].log == t.jobs[k].log && t.jobs[j].phase.Resetting?;
      assert j in s.jobs && k in s.jobs;
    }
    if Renews(s, step, k, r) {
      assert s.jobs[step.key].phase.Resetting?;
      forall j | j in t.jobs && t.jobs[j].log == t.jobs[k].log ensures !t.jobs[j].phase.Resetting? {
        assert j in s.jobs;
      }
    }
  }

  /** A quiet step starts no job and no retry, and moves no job to another log. */
  lemma NoNewRetry(s: State, step: Step)
    requires Enabled(s, step) && !step.Insert? && !step.AskRetry?
    ensures var t := Next(s, step);
      && t.next == s.next && (forall j :: j in t.jobs ==> j in s.jobs && t.jobs[j].log == s.jobs[j].log)
      && (forall j :: j in t.jobs && t.jobs[j].phase.Resetting? ==> s.jobs[j].phase.Resetting?)
      && (step.Reset? ==> step.key in t.jobs && !t.jobs[step.key].phase.Resetting?)
  {
    if !step.Delete? {
      var k, t := step.key, Next(s, step);
      OwnJobOnly(s, step);
      assert t.next == s.next;
      assert k in t.jobs ==> t.jobs[k].log == s.jobs[k].log && !t.jobs[k].phase.Resetting?;
    }
  }

  lemma OwnJobOnly(s: State, step: Step)
    requires Enabled(s, step) && !step.Insert? && !step.AskRetry? && !step.Delete?
    ensures step.key in s.jobs && Next(s, step).jobs.Keys <= s.jobs.Keys
    ensures forall j :: j in Next(s, step).jobs && j != step.key ==> Next(s, step).jobs[j] == s.jobs[j]
  {
  }

  /** A quiet step works on a job, or deletes one of the logs. */
  lemma QuietStep(s: State, step: Step, r: Regime)
    requires !r.Any? && Inv(s, r) && Allowed(s, step, r) && !step.Insert? && !step.AskRetry?
    ensures Next(s, step).next == s.next
    ensures if step.Delete? then |Next(s, step).logs| == |s.logs| - 1
      else step.key < s.next && |Next(s, step).logs| == |s.logs|
  {
    if step.Delete? {
      OneLess(s.logs, step.log);
    } else {
      assert JobOk(s, step.key, r);
      if !step.Close? {
        var job, log, calls := OwnStep(s, step, r);
        SameNumber(s.logs, Next(s, step).logs);
      }
    }
  }

  lemma OneLess(logs: map<int, Log>, id: int)
    requires id in logs
    ensures |logs - {id}| == |logs| - 1
  {
    assert (logs - {id}).Keys == logs.Keys - {id};
    assert |logs - {id}| == |(logs - {id}).Keys| && |logs| == |logs.Keys|;
  }

  lemma SameNumber(a: map<int, Log>, b: map<int, Log>)
    requires a.Keys == b.Keys
    ensures |a| == |b|
  {
    assert |a| == |a.Keys| && |b| == |b.Keys|;
  }

  lemma {:induction false} EveryStepHasAKey(s: State, steps: seq<Step>, t: State, r: Regime)
    requires !r.Any? && Inv(s, r) && Path(s, steps, t, r) && Quiet(steps)
    ensures |steps| + |t.logs| == StepsBelow(steps, s.next) + |s.logs|
    decreases |steps|
  {
    if steps == [] {
      NoStepsBelow(s.next);
    } else {
      var u := FirstQuietStep(s, steps, t, r);
      EveryStepHasAKey(u, steps[1..], t, r);
    }
  }

  lemma FirstQuietStep(s: State, steps: seq<Step>, t: State, r: Regime) returns (u: State)
    requires steps != [] && !r.Any? && Inv(s, r) && Path(s, steps, t, r) && Quiet(steps)
    ensures Inv(u, r) && Path(u, steps[1..], t, r) && Quiet(steps[1..])
    ensures StepsBelow(steps, s.next) + |s.logs| == 1 + StepsBelow(steps[1..], u.next) + |u.logs|
  {
    u := Next(s, steps[0]);
    StepKeepsInv(s, steps[0], r);
    QuietStep(s, steps[0], r);
    StepsBelowCons(steps, s.next);
  }

  /** Steps of one delivery in a quiet run, one renewal included. */
  function QuietBound(r: Regime): int { if r.Settling? then 38 else Longest(r) + Weight(r, Top(r)) }

  lemma {:induction false} FewStepsBelow(s: State, steps: seq<Step>, t: State, n: nat, r: Regime)
    requires !r.Any? && Inv(s, r) && Path(s, steps, t, r) && Quiet(steps) && n <= s.next
    ensures StepsBelow(steps, n) <= QuietBound(r) * n
    decreases n
  {
    if n > 0 {
      FewStepsBelow(s, steps, t, n - 1, r);
      DeliveriesEnd(s, steps, t, n - 1, r);
      RenewedOnce(s, steps, t, n - 1, r);
      OnceMore(StepsFor(steps, n - 1), Renewals(s, steps, n - 1, r), r);
      assert QuietBound(r) * n == QuietBound(r) * (n - 1) + QuietBound(r);
    }
  }

  lemma OnceMore(taken: nat, renewals: nat, r: Regime)
    requires renewals <= 1 && taken <= Longest(r) + Weight(r, Top(r)) * renewals && (r.Settling? ==> taken <= 38)
    ensures taken <= QuietBound(r)
  {
  }

  /** Without new events and manual retries every run ends, whatever the regime tolerates:
      after at most 38, 86 or 170 steps a job and one deletion a log. */
  lemma QuietRunsEnd(s: State, steps: seq<Step>, t: State, r: Regime)
    requires !r.Any? && Inv(s, r) && Path(s, steps, t, r) && Quiet(steps)
    ensures |steps| <= QuietBound(r) * s.next + |s.logs|
    ensures QuietBound(r) == match r case Settling => 38 case ThreeCalls => 86 case _ => 170
  {
    EveryStepHasAKey(s, steps, t, r);
    FewStepsBelow(s, steps, t, s.next, r);
  }

  /** ... and as long as a job is left, some step of it is possible without any fault: a
      quiet system can only stop with every delivery ended. */
  lemma NeverStuck(s: State, k: nat) returns (step: Step)
    requires k in s.jobs
    ensures Allowed(s, step, Settling) && Touches(step, k)
  {
    step := match s.jobs[k].phase
      case ToEnqueue(_) => Enqueue(k)
      case Queued(_) => Take(k)
      case Taken => Mark(k)
      case Calling => Call(k, true)
      case Delivered => Settle(k)
      case Announcing => Announce(k, true)
      case Caught => Look(k)
      case Deciding(_) => Decide(k)
      case Closing => Close(k, true)
      case Resetting => Reset(k);
  }

  // ------------------------------------------------- which step breaks what

  lemma DeleteKeepsInvIff(s: State, log: int, r: Regime)
    requires Inv(s, r) && !r.Any? && log in s.logs
    ensures Inv(Next(s, Delete(log)), r) <==> !Held(s, log)
  {
    var t := Next(s, Delete(log));
    if Held(s, log) {
      var k :| k in s.jobs && s.jobs[k].log == log && !s.jobs[k].phase.Closing?;
      assert !JobOk(t, k, r);
    } else {
      DeleteKeepsInv(s, t, log, r);
    }
  }

  lemma AskRetryKeepsInvIff(s: State, k: nat, log: int, r: Regime)
    requires Inv(s, r) && !r.Any? && Enabled(s, AskRetry(k, log))
    ensures Inv(Next(s, AskRetry(k, log)), r) <==> !Held(s, log)
  {
    var t := Next(s, AskRetry(k, log));
    if Held(s, log) {
      var j :| j in s.jobs && s.jobs[j].log == log && !s.jobs[j].phase.Closing?;
      assert JobOk(s, j, r);
      assert j in t.jobs && k in t.jobs && t.jobs[j].log == t.jobs[k].log && j != k;
      assert !t.jobs[j].phase.Closing? && !t.jobs[k].phase.Closing?;
    } else {
      AskKeepsInv(s, t, k, log, r);
    }
  }

  /** The exception of a failure signal keeps it exactly when the queue gives the job up,
      or may run it again. */
  lemma CloseKeepsInvIff(s: State, k: nat, r: Regime)
    requires Inv(s, r) && !r.Any? && Enabled(s, Close(k, false))
    ensures Inv(Next(s, Close(k, false)), r) <==> s.jobs[k].throws >= MAX_THROWS || MayRunAgain(s, k, r)
  {
    var t := Next(s, Close(k, false));
    if s.jobs[k].throws >= MAX_THROWS || MayRunAgain(s, k, r) {
      CloseKeepsInv(s, t, k, r);
    } else if Inv(t, r) {
      assert JobOk(t, k, r);
      forall j | j in s.jobs && s.jobs[j].log == s.jobs[k].log ensures s.jobs[j].phase.Closing? {
        assert j in t.jobs && (j != k ==> t.jobs[j] == s.jobs[j]);
      }
    }
  }

  /** From a state that is sound in a regime a step keeps that exactly when the regime
      tolerates it: each excluded fault really breaks it, and nothing else does. */
  lemma StepKeepsInvIff(s: State, step: Step, r: Regime)
    requires Inv(s, r) && !r.Any? && Enabled(s, step)
    ensures Inv(Next(s, step), r) <==> Tolerated(s, step, r)
  {
    if Tolerated(s, step, r) {
      StepKeepsInv(s, step, r);
    } else {
      FaultBreaksInv(s, step, r);
    }
  }

  lemma FaultBreaksInv(s: State, step: Step, r: Regime)
    requires Inv(s, r) && !r.Any? && Enabled(s, step) && !Tolerated(s, step, r)
    ensures !Inv(Next(s, step), r)
  {
    match step
    case Drop(k) =>
      LostJobBreaksInv(s, k);
    case Refuse(k) =>
      LostJobBreaksInv(s, k);
    case Announce(k, _) =>
      assert JobOk(s, k, r);
      assert !JobOk(Next(s, step), k, r);
    case Close(k, _) =>
      CloseKeepsInvIff(s, k, r);
    case Delete(log) =>
      assert Held(s, log);
      DeleteKeepsInvIff(s, log, r);
    case AskRetry(k, log) =>
      assert Held(s, log);
      AskRetryKeepsInvIff(s, k, log, r);
    case _ =>
  }

  lemma LostJobBreaksInv(s: State, k: nat)
    requires Inv(s, Settling) && k in s.jobs && (s.jobs[k].phase.Taken? || s.jobs[k].phase.ToEnqueue?)
    ensures !Inv(Without(s, k), Settling)
  {
    var t, log := Without(s, k), s.jobs[k].log;
    assert JobOk(s, k, Settling);
    assert !Held(t, log);
    assert !LogOk(t, log, Settling);
  }

  // ----------------------------------------------------- a provider that is gone

  /** No job can come back to the log: at most signals are left that the queue gives up on. */
  predicate Lost(s: State, id: int) {
    forall k <- s.jobs :: s.jobs[k].log == id ==> s.jobs[k].phase.Closing? && s.jobs[k].throws >= MAX_THROWS
  }

  lemma LostStays(t: State, step: Step, log: int)
    requires log in t.logs && t.logs[log].status in {Pending, Retrying} && Lost(t, log)
    requires Enabled(t, step) && step != Delete(log)
    ensures log in Next(t, step).logs && Next(t, step).logs[log] == t.logs[log] && Lost(Next(t, step), log)
  {
    if Works(step) {
      assert t.jobs[step.key].log != log;
    }
  }

  lemma {:induction false} LostForever(t: State, steps: seq<Step>, u: State, log: int)
    requires log in t.logs && t.logs[log].status in {Pending, Retrying} && Lost(t, log)
    requires Follows(t, steps, u) && Delete(log) !in steps
    ensures log in u.logs && u.logs[log] == t.logs[log]
    decreases |steps|
  {
    if steps != [] {
      assert steps[0] in steps && forall x <- steps[1..] :: x in steps;
      LostStays(t, steps[0], log);
      LostForever(Next(t, steps[0]), steps[1..], u, log);
    }
  }

  /** Over every run that does not delete it the log stays as it is. */
  ghost predicate Stranded(t: State, log: int) {
    forall steps, u :: Follows(t, steps, u) && Delete(log) !in steps ==>
      log in u.logs && log in t.logs && u.logs[log] == t.logs[log]
  }

  /** A provider that is gone strands the delivery exactly when the job threw three
      times before: then nothing but a deletion ever changes the log. Before that the
      job is still queued, and is delivered if the provider comes back. (A signal still
      under way for an earlier failure of the log can also bring it back.) */
  lemma MissingProviderStrandsIff(s: State, k: nat, r: Regime)
    requires r in {Settling, ThreeCalls} && Inv(s, r) && k in s.jobs && s.jobs[k].phase.Taken?
    ensures var log, t := s.jobs[k].log, Next(s, Drop(k));
      && log in s.logs && t.logs == s.logs && s.logs[log].status in {Pending, Retrying}
      && (Stranded(t, log) <==> s.jobs[k].throws == MAX_THROWS && Lost(Without(s, k), log))
      && (s.jobs[k].throws < MAX_THROWS ==>
           t.jobs == s.jobs[k := Job(log, Queued(Backoff(s.jobs[k].throws + 1)), s.jobs[k].throws + 1)])
  {
    var log, t := s.jobs[k].log, Next(s, Drop(k));
    assert JobOk(s, k, r);
    if s.jobs[k].throws == MAX_THROWS && Lost(Without(s, k), log) {
      forall steps, u | Follows(t, steps, u) && Delete(log) !in steps ensures log in u.logs && u.logs[log] == t.logs[log] {
        LostForever(t, steps, u, log);
      }
    } else if s.jobs[k].throws < MAX_THROWS {
      QueuedIsNotStranded(t, k, log);
    } else {
      var j :| j in t.jobs && t.jobs[j].log == log && !(t.jobs[j].phase.Closing? && t.jobs[j].throws >= MAX_THROWS);
      assert t.jobs[j] == s.jobs[j];
      SignalBringsItBack(t, j, log);
    }
  }

  /** The job that was put back delivers as soon as the provider is there and answers. */
  lemma ReturnedProviderDelivers(s: State, k: nat) returns (steps: seq<Step>, t: State)
    requires k in s.jobs && s.jobs[k].phase.Queued? && s.jobs[k].log in s.logs
    ensures Runs(s, steps, t) && t.jobs == s.jobs - {k}
    ensures var id := s.jobs[k].log; t.logs == s.logs[id := s.logs[id].(status := Success, attempts := s.logs[id].attempts + 1)]
  {
    var s3 := RunOnce(s, k, true, Settling);
    var s4 := Next(s3, Settle(k));
    t := Next(s4, Announce(k, true));
    TakenStep(s3, Settle(k), s4, Settling);
    TakenStep(s4, Announce(k, true), t, Settling);
    PathAppend(s3, [Settle(k)], s4, [Announce(k, true)], t, Settling);
    steps := [Settle(k)] + [Announce(k, true)];
    PathAppend(s, [Take(k), Mark(k), Call(k, true)], s3, steps, t, Settling);
    steps := [Take(k), Mark(k), Call(k, true)] + steps;
  }

  lemma QueuedIsNotStranded(t: State, k: nat, log: int)
    requires k in t.jobs && t.jobs[k].phase.Queued? && t.jobs[k].log == log && log in t.logs
    ensures !Stranded(t, log)
  {
    var u := Next(Next(t, Take(k)), Mark(k));
    TwoSteps(t, Take(k), Next(t, Take(k)), Mark(k), u);
    assert u.logs[log].attempts == t.logs[log].attempts + 1;
    assert Delete(log) !in [Take(k), Mark(k)];
  }

  lemma SignalBringsItBack(t: State, j: nat, log: int)
    requires j in t.jobs && t.jobs[j].phase.Closing? && t.jobs[j].throws < MAX_THROWS && t.jobs[j].log == log && log in t.logs
    ensures !Stranded(t, log)
  {
    var v := Next(t, Close(j, false));
    var u := Next(Next(v, Take(j)), Mark(j));
    TakenStep(t, Close(j, false), v, Any);
    TwoSteps(v, Take(j), Next(v, Take(j)), Mark(j), u);
    PathAppend(t, [Close(j, false)], v, [Take(j), Mark(j)], u, Any);
    assert u.logs[log].attempts == t.logs[log].attempts + 1;
    assert Delete(log) !in [Close(j, false)] + [Take(j), Mark(j)];
  }

  // ---------------------------------------------------------- the fourth call

  /** The queue's run of a job up to the provider's answer. */
  lemma RunOnce(s: State, k: nat, ok: bool, r: Regime) returns (t: State)
    requires k in s.jobs && s.jobs[k].phase.Queued? && s.jobs[k].log in s.logs
    ensures Path(s, [Take(k), Mark(k), Call(k, ok)], t, r)
    ensures var id := s.jobs[k].log;
      && t.logs == s.logs[id := s.logs[id].(status := Retrying, attempts := s.logs[id].attempts + 1)]
      && t.jobs == s.jobs[k := s.jobs[k].(phase := if ok then Delivered else Caught)]
      && t.calls == s.calls[id := CallsOf(s, id) + 1] && t.next == s.next
  {
    var s1 := Next(s, Take(k));
    var s2 := Next(s1, Mark(k));
    t := Next(s2, Call(k, ok));
    assert Path(t, [], t, r);
    var all := [Take(k), Mark(k), Call(k, ok)];
    assert all[1..] == [Mark(k), Call(k, ok)] && all[1..][1..] == [Call(k, ok)] && [Call(k, ok)][1..] == [];
    assert Path(s2, [Call(k, ok)], t, r);
    assert Path(s1, [Mark(k), Call(k, ok)], t, r);
  }

  /** Some run that the regime tolerates makes a fourth call for the log. */
  ghost predicate FourthCall(t: State, log: int, r: Regime) {
    exists steps, u :: Path(t, steps, u, r) && log in u.logs && CallsOf(u, log) > MAX_RETRIES
  }

  /** After a delivery failed, an exception of its failure signal leads to a fourth call
      exactly when the queue puts the job back: when it threw less than three times before. */
  lemma FourthCallIff(s: State, k: nat, r: Regime)
    requires r in {Settling, ThreeCalls} && Inv(s, r) && k in s.jobs && s.jobs[k].phase.Closing?
    requires var id := s.jobs[k].log; id in s.logs && s.logs[id].status == Failed && Unheld(s, id)
    ensures FourthCall(Next(s, Close(k, false)), s.jobs[k].log, r) <==> s.jobs[k].throws < MAX_THROWS
    ensures !FourthCall(Next(s, Close(k, true)), s.jobs[k].log, r)
  {
    var id := s.jobs[k].log;
    assert LogOk(s, id, r);
    CloseKeepsInv(s, Next(s, Close(k, true)), k, r);
    NoFourthCall(Next(s, Close(k, true)), id, r);
    var t := Next(s, Close(k, false));
    if s.jobs[k].throws < MAX_THROWS {
      var u := RunOnce(t, k, false, r);
      assert CallsOf(u, id) > MAX_RETRIES;
    } else {
      CloseKeepsInv(s, t, k, r);
      NoFourthCall(t, id, r);
    }
  }

  lemma NoFourthCall(t: State, log: int, r: Regime)
    requires r in {Settling, ThreeCalls} && Inv(t, r)
    ensures !FourthCall(t, log, r)
  {
    forall steps, u | Path(t, steps, u, r) && log in u.logs ensures CallsOf(u, log) <= MAX_RETRIES {
      InvariantOverRuns(t, steps, u, r);
      SoundIsBounded(u, log, r);
    }
  }

  /** One more exception of the failure signal, one more call: the log fails again. */
  lemma ExtraCall(s: State, k: nat) returns (steps: seq<Step>, t: State)
    requires k in s.jobs && s.jobs[k].phase.Closing? && s.jobs[k].throws < MAX_THROWS
    requires var id := s.jobs[k].log;
      id in s.logs && s.logs[id].status == Failed && Unheld(s, id) && s.logs[id].attempts == MAX_RETRIES + s.jobs[k].throws
    ensures Path(s, steps, t, SixCalls)
    ensures var id := s.jobs[k].log;
      && t.logs == s.logs[id := s.logs[id].(attempts := s.logs[id].attempts + 1)]
      && t.jobs == s.jobs[k := s.jobs[k].(throws := s.jobs[k].throws + 1)]
      && CallsOf(t, id) == CallsOf(s, id) + 1
  {
    var s1 := Next(s, Close(k, false));
    TakenStep(s, Close(k, false), s1, SixCalls);
    var s2 := RunOnce(s1, k, false, SixCalls);
    PathAppend(s, [Close(k, false)], s1, [Take(k), Mark(k), Call(k, false)], s2, SixCalls);
    t := FailsAgain(s2, k);
    steps := [Close(k, false)] + [Take(k), Mark(k), Call(k, false)];
    PathAppend(s, steps, s2, [Look(k)] + [Decide(k)], t, SixCalls);
    steps := steps + ([Look(k)] + [Decide(k)]);
  }

  lemma FailsAgain(s: State, k: nat) returns (t: State)
    requires k in s.jobs && s.jobs[k].phase.Caught?
    requires s.jobs[k].log in s.logs && s.logs[s.jobs[k].log].attempts >= MAX_RETRIES
    ensures Path(s, [Look(k)] + [Decide(k)], t, SixCalls) && t.calls == s.calls
    ensures var id := s.jobs[k].log;
      t.logs == s.logs[id := s.logs[id].(status := Failed)] && t.jobs == s.jobs[k := s.jobs[k].(phase := Closing)]
  {
    var s1 := Next(s, Look(k));
    TakenStep(s, Look(k), s1, SixCalls);
    t := Next(s1, Decide(k));
    TakenStep(s1, Decide(k), t, SixCalls);
    PathAppend(s, [Look(k)], s1, [Decide(k)], t, SixCalls);
  }

  /** The bound of six is met: after three failed attempts of a job that never threw, three
      exceptions of the failure signal make three more calls. */
  lemma SixCallsHappen(s: State, k: nat) returns (steps: seq<Step>, t: State)
    requires Inv(s, Settling) && k in s.jobs && s.jobs[k].phase.Closing? && s.jobs[k].throws == 0
    requires var id := s.jobs[k].log; id in s.logs && s.logs[id].status == Failed && Unheld(s, id)
    ensures Path(s, steps, t, SixCalls) && CallsOf(t, s.jobs[k].log) == Top(SixCalls) == 6
  {
    assert LogOk(s, s.jobs[k].log, Settling);
    var a, s1 := ExtraCall(s, k);
    var b, s2 := ExtraCall(s1, k);
    var c, s3 := ExtraCall(s2, k);
    PathAppend(s, a, s1, b, s2, SixCalls);
    PathAppend(s, a + b, s2, c, s3, SixCalls);
    steps, t := a + b + c, s3;
  }

  // --------------------------------------- what the other faults would break

  /** If the success signal throws, the catch block takes the delivery for a failed one:
      the log leaves `success`, and is sent again unless that was the third attempt. */
  lemma ThrowingSignalUndoesSuccess(s: State, k: nat, r: Regime) returns (t: State)
    requires Inv(s, r) && !r.Any? && k in s.jobs && s.jobs[k].phase.Announcing?
    ensures Follows(s, [Announce(k, false), Look(k), Decide(k)], t)
    ensures var log := s.jobs[k].log;
      && log in s.logs && log in t.logs && s.logs[log].status == Success
      && (t.logs[log].status == if s.logs[log].attempts < MAX_RETRIES then Retrying else Failed)
      && k in t.jobs && (t.jobs[k].phase.ToEnqueue? <==> s.logs[log].attempts < MAX_RETRIES)
  {
    assert JobOk(s, k, r);
    var u := Next(s, Announce(k, false));
    var v := Next(u, Look(k));
    t := Next(v, Decide(k));
    assert Follows(t, [], t);
    assert [Announce(k, false), Look(k), Decide(k)][1..] == [Look(k), Decide(k)];
    assert [Look(k), Decide(k)][1..] == [Decide(k)] && [Decide(k)][1..] == [];
    assert Follows(v, [Decide(k)], t);
    assert Follows(u, [Look(k), Decide(k)], t);
  }

  lemma {:induction false} PathAppend(s: State, a: seq<Step>, u: State, b: seq<Step>, t: State, r: Regime)
    requires Path(s, a, u, r) && Path(u, b, t, r)
    ensures Path(s, a + b, t, r)
    decreases |a|
  {
    if a == [] {
      assert a + b == b;
    } else {
      PathAppend(Next(s, a[0]), a[1..], u, b, t, r);
      assert (a + b)[1..] == a[1..] + b;
    }
  }

  lemma TakenStep(s: State, a: Step, t: State, r: Regime)
    requires Allowed(s, a, r) && t == Next(s, a)
    ensures Path(s, [a], t, r)
  {
    assert [a][1..] == [] && Path(t, [], t, r);
  }

  lemma TwoSteps(s: State, a: Step, u: State, b: Step, t: State)
    requires Enabled(s, a) && u == Next(s, a) && Enabled(u, b) && t == Next(u, b)
    ensures Follows(s, [a, b], t)
  {
    assert [a, b][1..] == [b] && [b][1..] == [];
    assert Path(t, [], t, Any);
    assert Path(u, [b], t, Any);
  }

  /** A round of a failing delivery. */
  function FailingRound(k: nat): seq<Step> {
    [Take(k), Mark(k)] + [Call(k, false), Look(k)] + [Decide(k), Enqueue(k)]
  }

  lemma RoundWithoutLog(s: State, k: nat) returns (t: State)
    requires k in s.jobs && s.jobs[k].phase == Queued(60000) && s.jobs[k].throws == 0 && s.jobs[k].log !in s.logs
    ensures Follows(s, FailingRound(k), t)
    ensures t == s.(calls := s.calls[s.jobs[k].log := CallsOf(s, s.jobs[k].log) + 1])
  {
    var u := AttemptWithoutLog(s, k);
    var s5 := WithPhase(u, k, ToEnqueue(60000));
    t := s.(calls := u.calls);
    assert t.jobs == s5.jobs[k := Job(s5.jobs[k].log, Queued(60000), 0)];
    TwoSteps(u, Decide(k), s5, Enqueue(k), t);
    PathAppend(s, [Take(k), Mark(k)] + [Call(k, false), Look(k)], u, [Decide(k), Enqueue(k)], t, Any);
  }

  lemma AttemptWithoutLog(s: State, k: nat) returns (u: State)
    requires k in s.jobs && s.jobs[k].phase == Queued(60000) && s.jobs[k].log !in s.logs
    ensures Follows(s, [Take(k), Mark(k)] + [Call(k, false), Look(k)], u)
    ensures u == WithPhase(s.(calls := s.calls[s.jobs[k].log := CallsOf(s, s.jobs[k].log) + 1]), k, Deciding(1))
  {
    var id := s.jobs[k].log;
    var called := s.calls[id := CallsOf(s, id) + 1];
    var s1, s2 := WithPhase(s, k, Taken), WithPhase(s, k, Calling);
    TwoSteps(s, Take(k), s1, Mark(k), s2);
    var s3 := WithPhase(s.(calls := called), k, Caught);
    u := WithPhase(s.(calls := called), k, Deciding(1));
    TwoSteps(s2, Call(k, false), s3, Look(k), u);
    PathAppend(s, [Take(k), Mark(k)], s2, [Call(k, false), Look(k)], u, Any);
  }

  lemma {:induction false} RoundsWithoutLog(s: State, k: nat, n: nat) returns (steps: seq<Step>, t: State)
    requires k in s.jobs && s.jobs[k].phase == Queued(60000) && s.jobs[k].throws == 0 && s.jobs[k].log !in s.logs
    ensures Follows(s, steps, t) && CallsOf(t, s.jobs[k].log) == CallsOf(s, s.jobs[k].log) + n
    ensures t.jobs == s.jobs && t.logs == s.logs
    decreases n
  {
    if n == 0 {
      steps, t := [], s;
    } else {
      var u := RoundWithoutLog(s, k);
      var rest;
      rest, t := RoundsWithoutLog(u, k, n - 1);
      steps := FailingRound(k) + rest;
      PathAppend(s, FailingRound(k), u, rest, t, Any);
    }
  }

  /** A new delivery up to its first retry: one failed call, and the job waits a minute. */
  lemma FirstRetry(log: int, subscription: int) returns (steps: seq<Step>, t: State)
    ensures Follows(START, steps, t)
    ensures t == State(map[log := Log(subscription, Retrying, 1)], map[0 := Job(log, Queued(60000), 0)], map[log := 1], 1)
  {
    var pending, marked := map[log := Log(subscription, Pending, 0)], map[log := Log(subscription, Retrying, 1)];
    var s1 := State(pending, map[0 := Job(log, ToEnqueue(0), 0)], map[log := 0], 1);
    var s2 := WithPhase(s1, 0, Queued(0));
    TwoSteps(START, Insert(0, log, subscription), s1, Enqueue(0), s2);
    var s3, s4 := WithPhase(s2, 0, Taken), WithPhase(s2.(logs := marked), 0, Calling);
    TwoSteps(s2, Take(0), s3, Mark(0), s4);
    var s5 := WithPhase(s4.(calls := map[log := 1]), 0, Caught);
    var s6 := WithPhase(s5, 0, Deciding(1));
    TwoSteps(s4, Call(0, false), s5, Look(0), s6);
    var s7 := WithPhase(s6, 0, ToEnqueue(60000));
    t := WithPhase(s7, 0, Queued(60000));
    TwoSteps(s6, Decide(0), s7, Enqueue(0), t);
    PathAppend(START, [Insert(0, log, subscription), Enqueue(0)], s2, [Take(0), Mark(0)], s4, Any);
    steps := [Insert(0, log, subscription), Enqueue(0)] + [Take(0), Mark(0)];
    PathAppend(START, steps, s4, [Call(0, false), Look(0)], s6, Any);
    steps := steps + [Call(0, false), Look(0)];
    PathAppend(START, steps, s6, [Decide(0), Enqueue(0)], t, Any);
    steps := steps + [Decide(0), Enqueue(0)];
  }

  /** If the log row is deleted while its job waits, the attempt counter always reads as
      one and a failing delivery is retried for ever: from the start, any number of calls
      can be made for one delivery. */
  lemma DeletedLogRetriesForever(log: int, subscription: int, n: nat) returns (steps: seq<Step>, t: State)
    ensures Follows(START, steps, t) && CallsOf(t, log) == n + 1 && log !in t.logs && Held(t, log)
  {
    var first, s := FirstRetry(log, subscription);
    var gone := s.(logs := map[]);
    assert s.logs - {log} == map[];
    assert Path(gone, [], gone, Any) && [Delete(log)][1..] == [];
    assert Follows(s, [Delete(log)], gone);
    PathAppend(START, first, s, [Delete(log)], gone, Any);
    var rest;
    rest, t := RoundsWithoutLog(gone, 0, n);
    PathAppend(START, first + [Delete(log)], gone, rest, t, Any);
    steps := first + [Delete(log)] + rest;
    assert t.jobs[0].log == log;
  }

  /** If two manual retries of one log overlap, it ends up with two jobs. */
  lemma OverlappingRetriesDuplicate(s: State, log: int, r: Regime) returns (t: State)
    requires Inv(s, r) && log in s.logs && s.logs[log].status == Failed
    ensures Follows(s, [AskRetry(s.next, log), AskRetry(s.next + 1, log), Reset(s.next), Reset(s.next + 1)], t)
    ensures !OneJobPerLog(t)
  {
    var j, k := s.next, s.next + 1;
    assert forall i | i in s.jobs :: JobOk(s, i, r) && i < s.next;
    var r := [AskRetry(j, log), AskRetry(k, log), Reset(j), Reset(k)];
    var s1 := Next(s, AskRetry(j, log));
    var s2 := Next(s1, AskRetry(k, log));
    var s3 := Next(s2, Reset(j));
    t := Next(s3, Reset(k));
    assert Follows(t, r[4..], t);
    assert r[3..][1..] == r[4..] && Follows(s3, r[3..], t);
    assert r[2..][1..] == r[3..] && Follows(s2, r[2..], t);
    assert r[1..][1..] == r[2..] && Follows(s1, r[1..], t);
    assert j in t.jobs && k in t.jobs && t.jobs[j].log == t.jobs[k].log;
  }

  // ---------------------------------------------------------- the coordinator

  datatype Subscription = Subscription(id: int, enabled: bool, eventId: string, systemFilter: seq<string>, provider: string)

  datatype Event = Event(id: string, systemId: Option<string>)

  /** Registered providers; a provider that lists no events supports them all. */
  type Providers = map<string, Option<set<string>>>

  predicate Matches(providers: Providers, event: Event, sub: Subscription) {
    && sub.enabled && sub.eventId == event.id
    && (sub.systemFilter != [] ==>
         event.systemId.Some? && event.systemId.value != "" && event.systemId.value in sub.systemFilter)
    && sub.provider in providers
    && (providers[sub.provider].Some? ==> event.id in providers[sub.provider].value)
  }

  function Suits(providers: Providers, event: Event): Subscription -> bool {
    (sub: Subscription) => Matches(providers, event, sub)
  }

  function Matching(providers: Providers, event: Event, subs: seq<Subscription>): seq<Subscription> {
    Filter(Suits(providers, event), subs)
  }

  /** Why a subscription gets nothing: it is switched off, waits for another event, watches
      other systems, or its provider is gone or lists other events only. */
  predicate PassedOver(providers: Providers, event: Event, sub: Subscription) {
    || !sub.enabled
    || sub.eventId != event.id
    || (sub.systemFilter != [] && forall s <- sub.systemFilter :: s == "" || event.systemId != Some(s))
    || sub.provider !in providers
    || exists listed <- providers.Values :: providers[sub.provider] == listed && listed.Some? && event.id !in listed.value
  }

  /** Each subscription is passed over, or it is among those routed; never both. */
  lemma MatchingOrPassedOver(providers: Providers, event: Event, subs: seq<Subscription>)
    ensures forall sub <- subs :: sub in Matching(providers, event, subs) <==> !PassedOver(providers, event, sub)
    ensures forall sub <- Matching(providers, event, subs) :: sub in subs
  {
    var suits := Suits(providers, event);
    forall sub | sub in subs ensures sub in Matching(providers, event, subs) <==> !PassedOver(providers, event, sub) {
      assert suits(sub) <==> !PassedOver(providers, event, sub);
      if suits(sub) {
        FilterKeeps(suits, subs, sub);
      }
    }
  }

  datatype RetryResult = Requeued | LogNotFound | NotFailed | SubscriptionNotFound

  /** One more step on a path. */
  lemma Took(s0: State, steps: seq<Step>, s: State, step: Step, t: State, r: Regime)
    requires Path(s0, steps, s, r) && Allowed(s, step, r) && t == Next(s, step)
    ensures Path(s0, steps + [step], t, r)
  {
    TakenStep(s, step, t, r);
    PathAppend(s0, steps, s, [step], t, r);
  }

  /** A run without any fault, or any run. */
  function Under(fine: bool): Regime { if fine then Settling else Any }

  lemma Relax(s: State, steps: seq<Step>, t: State, fine: bool, finer: bool)
    requires Path(s, steps, t, Under(fine)) && (finer ==> fine)
    ensures Path(s, steps, t, Under(finer))
  {
    if fine && !finer {
      FaultlessIsAllowed(s, steps, t);
    }
  }

  lemma {:induction false} FaultlessIsAllowed(s: State, steps: seq<Step>, t: State)
    requires Runs(s, steps, t)
    ensures Follows(s, steps, t)
    decreases |steps|
  {
    if steps != [] {
      FaultlessIsAllowed(Next(s, steps[0]), steps[1..], t);
    }
  }

  /** What routing one subscription does: a log row and a queued job. */
  function RoutedOne(s: State, log: int, subscription: int): State {
    State(s.logs[log := Log(subscription, Pending, 0)], s.jobs[s.next := Job(log, Queued(0), 0)], s.calls[log := 0], s.next + 1)
  }

  function Routed(s: State, ids: seq<int>, subs: seq<Subscription>, n: nat): State
    requires n <= |ids| && n <= |subs|
    decreases n
  {
    if n == 0 then s else RoutedOne(Routed(s, ids, subs, n - 1), ids[n - 1], subs[n - 1].id)
  }

  ghost predicate FreshIds(s: State, ids: seq<int>) {
    && (forall i, j | 0 <= i < j < |ids| :: ids[i] != ids[j])
    && forall i | 0 <= i < |ids| :: ids[i] !in s.logs
  }

  ghost predicate KeysBelowNext(s: State) { forall k :: k in s.jobs ==> k < s.next }

  /** `t` is `s` with one more pending log and queued job for each of the first `n`. */
  ghost predicate Routes(s: State, ids: seq<int>, subs: seq<Subscription>, n: nat, t: State)
    requires n <= |ids| && n <= |subs|
  {
    t.next == s.next + n && NewLogs(s, ids, subs, n, t) && NewJobs(s, ids, n, t)
  }

  ghost predicate NewLogs(s: State, ids: seq<int>, subs: seq<Subscription>, n: nat, t: State)
    requires n <= |ids| && n <= |subs|
  {
    && (forall i :: 0 <= i < n ==> ids[i] in t.logs && t.logs[ids[i]] == Log(subs[i].id, Pending, 0))
    && (forall id :: id in t.logs <==> id in s.logs || id in ids[..n])
    && (forall id :: id in s.logs ==> id in t.logs && t.logs[id] == s.logs[id])
  }

  ghost predicate NewJobs(s: State, ids: seq<int>, n: nat, t: State)
    requires n <= |ids|
  {
    && (forall i :: 0 <= i < n ==> s.next + i in t.jobs && t.jobs[s.next + i] == Job(ids[i], Queued(0), 0))
    && (forall k :: k in t.jobs <==> k in s.jobs || s.next <= k < s.next + n)
    && (forall k :: k in s.jobs ==> k in t.jobs && t.jobs[k] == s.jobs[k])
  }

  lemma RoutesNone(s: State, ids: seq<int>, subs: seq<Subscription>)
    ensures Routes(s, ids, subs, 0, s)
  {
  }

  lemma RoutesOneMore(s: State, ids: seq<int>, subs: seq<Subscription>, n: nat, t: State, u: State)
    requires n < |ids| && n < |subs| && Routes(s, ids, subs, n, t) && FreshIds(s, ids) && KeysBelowNext(s)
    requires u == RoutedOne(t, ids[n], subs[n].id)
    ensures Routes(s, ids, subs, n + 1, u)
  {
    OneMoreLog(s, ids, subs, n, t, u);
    OneMoreJob(s, ids, n, t, u);
  }

  lemma OneMoreLog(s: State, ids: seq<int>, subs: seq<Subscription>, n: nat, t: State, u: State)
    requires n < |ids| && n < |subs| && NewLogs(s, ids, subs, n, t) && FreshIds(s, ids)
    requires u.logs == t.logs[ids[n] := Log(subs[n].id, Pending, 0)]
    ensures NewLogs(s, ids, subs, n + 1, u)
  {
    assert ids[..n + 1] == ids[..n] + [ids[n]];
  }

  lemma OneMoreJob(s: State, ids: seq<int>, n: nat, t: State, u: State)
    requires n < |ids| && NewJobs(s, ids, n, t) && KeysBelowNext(s)
    requires u.jobs == t.jobs[s.next + n := Job(ids[n], Queued(0), 0)]
    ensures NewJobs(s, ids, n + 1, u)
  {
  }

  /** Routing gives each subscription exactly one pending log and one queued job, and
      touches no other row or job. */
  lemma {:induction false} RoutedMeaning(s: State, ids: seq<int>, subs: seq<Subscription>, n: nat, t: State)
    requires n <= |ids| && n <= |subs| && FreshIds(s, ids) && KeysBelowNext(s)
    requires t == Routed(s, ids, subs, n)
    ensures Routes(s, ids, subs, n, t)
    decreases n
  {
    if n == 0 {
      RoutesNone(s, ids, subs);
    } else {
      var u := Routed(s, ids, subs, n - 1);
      RoutedMeaning(s, ids, subs, n - 1, u);
      RoutesOneMore(s, ids, subs, n - 1, u, t);
    }
  }

  /** The next row and job are new. */
  lemma RoutedIsFresh(s: State, ids: seq<int>, subs: seq<Subscription>, n: nat, t: State)
    requires n < |ids| && n <= |subs| && FreshIds(s, ids) && KeysBelowNext(s) && t == Routed(s, ids, subs, n)
    ensures ids[n] !in t.logs && t.next !in t.jobs
  {
    RoutedMeaning(s, ids, subs, n, t);
  }

  /** How the outside world meets one run of a job: whether the provider is there and
      delivers, the signals get through and the queue has room. */
  datatype World = World(registered: bool, delivers: bool, announced: bool, room: bool, closed: bool)

  predicate Fine(w: World) { w.registered && w.announced && w.room && w.closed }

  /** What one attempt leaves: the log one attempt on, and success and no job, or a new
      job after the delay while attempts remain, or failure and no job. When the queue
      is full or the failure signal throws, the run throws and the queue decides. */
  ghost predicate Outcome(s: State, k: nat, w: World, t: State, threw: bool)
    requires k in s.jobs
  {
    var id := s.jobs[k].log;
    id in s.logs ==>
      var attempts := s.logs[id].attempts + 1;
      var success := w.delivers && w.announced;
      var again := !success && attempts < MAX_RETRIES;
      && t.logs == s.logs[id := s.logs[id].(
           status := if success then Success else if again then Retrying else Failed, attempts := attempts)]
      && (threw <==> !success && if again then !w.room else !w.closed)
      && t.jobs == if threw then ThrownJobs(s.jobs, k)
           else if again then s.jobs[k := Job(id, Queued(RetryDelay(attempts)), 0)] else s.jobs - {k}
  }

  /** A failed try, and then the catch block. */
  lemma TriedAndFailed(s: State, k: nat, w: World, status: Status, mid: State, t: State, threw: bool)
    requires k in s.jobs && mid.jobs == s.jobs[k := s.jobs[k].(phase := Caught)] && !(w.delivers && w.announced)
    requires var id := s.jobs[k].log;
      id in s.logs ==>
        var attempts := s.logs[id].attempts + 1;
        var again := attempts < MAX_RETRIES;
        && mid.logs == s.logs[id := s.logs[id].(status := status, attempts := attempts)]
        && t.logs == mid.logs[id := mid.logs[id].(status := if again then Retrying else Failed)]
        && (threw <==> if again then !w.room else !w.closed)
        && t.jobs == if threw then ThrownJobs(mid.jobs, k)
             else if again then mid.jobs[k := Job(id, Queued(RetryDelay(attempts)), 0)] else mid.jobs - {k}
    ensures Outcome(s, k, w, t, threw)
  {
    assert ThrownJobs(mid.jobs, k) == ThrownJobs(s.jobs, k);
  }

  lemma SameOutcome(s: State, taken: State, k: nat, w: World, t: State, threw: bool)
    requires k in s.jobs && taken == WithPhase(s, k, Taken) && Outcome(taken, k, w, t, threw)
    ensures Outcome(s, k, w, t, threw)
  {
    assert ThrownJobs(taken.jobs, k) == ThrownJobs(s.jobs, k);
  }

  /** The coordinator's methods, each run without interruption. `steps` is the path of
      the state machine that a call took. */
  class Coordinator {
    var logs: map<int, Log>
    var jobs: map<nat, Job>
    ghost var calls: map<int, nat>
    var next: nat

    constructor ()
      ensures Now() == START
    {
      logs, jobs, calls, next := map[], map[], map[], 0;
    }

    ghost function Now(): State
      reads this
    {
      State(logs, jobs, calls, next)
    }

    /** From a dequeued job to the provider's answer. */
    method Attempt(k: nat, ok: bool) returns (ghost steps: seq<Step>)
      requires k in jobs && jobs[k].phase.Taken?
      modifies this`logs, this`jobs, this`calls
      ensures Runs(old(Now()), steps, Now())
      ensures var id := old(jobs[k].log);
        && (logs == if id in old(logs)
            then old(logs)[id := old(logs[id]).(status := Retrying, attempts := old(logs[id]).attempts + 1)] else old(logs))
        && jobs == old(jobs)[k := old(jobs[k]).(phase := if ok then Delivered else Caught)]
        && calls == old(calls)[id := old(CallsOf(Now(), id)) + 1]
    {
      ghost var s0 := Now();
      var job := jobs[k];
      var id := job.log;
      if id in logs {
        logs := logs[id := logs[id].(status := Retrying, attempts := logs[id].attempts + 1)];
      }
      jobs := jobs[k := job.(phase := Calling)];
      ghost var s1 := Now();
      Took(s0, [], s0, Mark(k), s1, Settling);
      calls := calls[id := CallsOf(s1, id) + 1];
      jobs := jobs[k := job.(phase := if ok then Delivered else Caught)];
      Took(s0, [Mark(k)], s1, Call(k, ok), Now(), Settling);
      steps := [Mark(k)] + [Call(k, ok)];
    }

    /** The catch block with attempts left: a new job after the delay, or the queue is full. */
    method Retry(k: nat, room: bool) returns (ghost steps: seq<Step>)
      requires k in jobs && jobs[k].phase.Deciding? && jobs[k].phase.attempts < MAX_RETRIES
      modifies this`logs, this`jobs
      ensures Path(old(Now()), steps, Now(), Under(room))
      ensures var id := old(jobs[k].log);
        && logs == (if id in old(logs) then old(logs)[id := old(logs[id]).(status := Retrying)] else old(logs))
        && jobs == if room then old(jobs)[k := Job(id, Queued(RetryDelay(old(jobs[k].phase.attempts))), 0)]
             else ThrownJobs(old(jobs), k)
    {
      ghost var s0 := Now();
      var job := jobs[k];
      var delay := RetryDelay(job.phase.attempts);
      if job.log in logs {
        logs := logs[job.log := logs[job.log].(status := Retrying)];
      }
      jobs := jobs[k := job.(phase := ToEnqueue(delay))];
      ghost var s1 := Now();
      Took(s0, [], s0, Decide(k), s1, Under(room));
      if room {
        jobs := jobs[k := Job(job.log, Queued(delay), 0)];
        Took(s0, [Decide(k)], s1, Enqueue(k), Now(), Settling);
        steps := [Decide(k)] + [Enqueue(k)];
      } else {
        jobs := ThrownJobs(jobs, k);
        Took(s0, [Decide(k)], s1, Refuse(k), Now(), Any);
        steps := [Decide(k)] + [Refuse(k)];
        assert jobs == ThrownJobs(s0.jobs, k);
      }
    }

    /** The catch block with no attempts left: the failure, and its signal. */
    method GiveUp(k: nat, closed: bool) returns (ghost steps: seq<Step>)
      requires k in jobs && jobs[k].phase.Deciding? && jobs[k].phase.attempts >= MAX_RETRIES
      modifies this`logs, this`jobs
      ensures Path(old(Now()), steps, Now(), Under(closed))
      ensures var id := old(jobs[k].log);
        && logs == (if id in old(logs) then old(logs)[id := old(logs[id]).(status := Failed)] else old(logs))
        && jobs == if closed then old(jobs) - {k} else ThrownJobs(old(jobs), k)
    {
      ghost var s0 := Now();
      var job := jobs[k];
      if job.log in logs {
        logs := logs[job.log := logs[job.log].(status := Failed)];
      }
      jobs := jobs[k := job.(phase := Closing)];
      ghost var s1 := Now();
      Took(s0, [], s0, Decide(k), s1, Under(closed));
      jobs := if closed then jobs - {k} else ThrownJobs(jobs, k);
      Took(s0, [Decide(k)], s1, Close(k, closed), Now(), Under(closed));
      steps := [Decide(k)] + [Close(k, closed)];
      assert !closed ==> jobs == ThrownJobs(s0.jobs, k);
    }

    /** The catch block: read the attempts, then schedule a retry or give up. It throws
        when the queue is full or the failure signal throws. */
    method HandleFailure(k: nat, room: bool, closed: bool) returns (threw: bool, ghost steps: seq<Step>)
      requires k in jobs && jobs[k].phase.Caught?
      modifies this`logs, this`jobs
      ensures Path(old(Now()), steps, Now(), Under(room && closed))
      ensures var id := old(jobs[k].log);
        var attempts := if id in old(logs) then old(logs[id]).attempts else 1;
        var again := attempts < MAX_RETRIES;
        && (logs == if id in old(logs)
            then old(logs)[id := old(logs[id]).(status := if again then Retrying else Failed)] else old(logs))
        && (threw <==> if again then !room else !closed)
        && (jobs == if threw then ThrownJobs(old(jobs), k)
            else if again then old(jobs)[k := Job(id, Queued(RetryDelay(attempts)), 0)] else old(jobs) - {k})
        && (attempts == 1 && room ==> jobs == old(jobs)[k := Job(id, Queued(60000), 0)])
        && (attempts == 2 && room ==> jobs == old(jobs)[k := Job(id, Queued(300000), 0)])
      ensures threw ==> PutBack(old(jobs), k, jobs)
    {
      ThrownIsPutBack(jobs, k);
      ghost var s0, fine := Now(), Under(room && closed);
      var id := jobs[k].log;
      var attempts := if id in logs then logs[id].attempts else 1;
      jobs := jobs[k := jobs[k].(phase := Deciding(attempts))];
      ghost var s1 := Now();
      Took(s0, [], s0, Look(k), s1, fine);
      if attempts < MAX_RETRIES {
        threw := !room;
        steps := Retry(k, room);
        Relax(s1, steps, Now(), room, room && closed);
      } else {
        threw := !closed;
        steps := GiveUp(k, closed);
        Relax(s1, steps, Now(), closed, room && closed);
      }
      PathAppend(s0, [Look(k)], s1, steps, Now(), fine);
      steps := [Look(k)] + steps;
      assert ThrownJobs(s1.jobs, k) == ThrownJobs(s0.jobs, k);
    }

    /** A delivered result: write the success, then signal it. */
    method Finish(k: nat, announced: bool) returns (ghost steps: seq<Step>)
      requires k in jobs && jobs[k].phase.Delivered?
      modifies this`logs, this`jobs
      ensures Path(old(Now()), steps, Now(), Under(announced))
      ensures var id := old(jobs[k].log);
        && (logs == if id in old(logs) then old(logs)[id := old(logs[id]).(status := Success)] else old(logs))
        && (jobs == if announced then old(jobs) - {k} else old(jobs)[k := old(jobs[k]).(phase := Caught)])
    {
      ghost var s0 := Now();
      var job := jobs[k];
      if job.log in logs {
        logs := logs[job.log := logs[job.log].(status := Success)];
      }
      jobs := jobs[k := job.(phase := Announcing)];
      ghost var s1 := Now();
      Took(s0, [], s0, Settle(k), s1, Under(announced));
      if announced {
        jobs := jobs - {k};
      } else {
        jobs := jobs[k := job.(phase := Caught)];
      }
      Took(s0, [Settle(k)], s1, Announce(k, announced), Now(), Under(announced));
      steps := [Settle(k)] + [Announce(k, announced)];
    }

    /** The `try` block: it leaves the job done or caught. */
    method Try(k: nat, delivers: bool, announced: bool) returns (ghost steps: seq<Step>)
      requires k in jobs && jobs[k].phase.Taken?
      modifies this`logs, this`jobs, this`calls
      ensures Path(old(Now()), steps, Now(), Under(announced))
      ensures calls == old(calls)[old(jobs[k].log) := old(CallsOf(Now(), jobs[k].log)) + 1]
      ensures jobs == if delivers && announced then old(jobs) - {k} else old(jobs)[k := old(jobs[k]).(phase := Caught)]
      ensures var id := old(jobs[k].log);
        (logs == if id in old(logs)
         then old(logs)[id := old(logs[id]).(status := if delivers then Success else Retrying,
                                             attempts := old(logs[id]).attempts + 1)]
         else old(logs))
    {
      ghost var s0 := Now();
      steps := Attempt(k, delivers);
      Relax(s0, steps, Now(), true, announced);
      if delivers {
        ghost var s1 := Now();
        ghost var more := Finish(k, announced);
        PathAppend(s0, steps, s1, more, Now(), Under(announced));
        steps := steps + more;
      }
    }

    /** The worker once it has found the provider. */
    method Deliver(k: nat, w: World) returns (threw: bool, ghost steps: seq<Step>)
      requires k in jobs && jobs[k].phase.Taken? && w.registered
      modifies this`logs, this`jobs, this`calls
      ensures Path(old(Now()), steps, Now(), Under(Fine(w)))
      ensures calls == old(calls)[old(jobs[k].log) := old(CallsOf(Now(), jobs[k].log)) + 1]
      ensures Outcome(old(Now()), k, w, Now(), threw)
    {
      ghost var s0 := Now();
      steps := Try(k, w.delivers, w.announced);
      Relax(s0, steps, Now(), w.announced, Fine(w));
      threw := false;
      if !(w.delivers && w.announced) {
        ghost var s1 := Now();
        ghost var more;
        threw, more := HandleFailure(k, w.room, w.closed);
        Relax(s1, more, Now(), w.room && w.closed, Fine(w));
        PathAppend(s0, steps, s1, more, Now(), Under(Fine(w)));
        steps := steps + more;
        TriedAndFailed(s0, k, w, if w.delivers then Success else Retrying, s1, Now(), threw);
      }
    }

    /** One run of the worker on a queued job. It throws when the provider is gone. The
        job goes again until it was delivered and signalled, or three attempts failed;
        a run that throws goes again until the queue gives the job up. */
    method ExecuteDelivery(k: nat, w: World) returns (threw: bool, ghost steps: seq<Step>)
      requires k in jobs && jobs[k].phase.Queued?
      modifies this`logs, this`jobs, this`calls
      ensures Path(old(Now()), steps, Now(), Under(Fine(w)))
      ensures !w.registered ==> threw && logs == old(logs) && jobs == ThrownJobs(old(jobs), k) && calls == old(calls)
      ensures w.registered ==> calls == old(calls)[old(jobs[k].log) := old(CallsOf(Now(), jobs[k].log)) + 1]
      ensures w.registered ==> Outcome(old(Now()), k, w, Now(), threw)
      ensures threw && (!w.registered || old(jobs[k].log) in old(logs)) ==> PutBack(old(jobs), k, jobs)
      ensures var id := old(jobs[k].log);
        w.registered && id in old(logs) && !(w.delivers && w.announced) && w.room ==>
          && (old(logs)[id].attempts == 0 ==> jobs == old(jobs)[k := Job(id, Queued(60000), 0)])
          && (old(logs)[id].attempts == 1 ==> jobs == old(jobs)[k := Job(id, Queued(300000), 0)])
    {
      ThrownIsPutBack(jobs, k);
      ghost var s0, fine := Now(), Under(Fine(w));
      jobs := jobs[k := jobs[k].(phase := Taken)];
      ghost var s1 := Now();
      Took(s0, [], s0, Take(k), s1, fine);
      if w.registered {
        threw, steps := Deliver(k, w);
        PathAppend(s0, [Take(k)], s1, steps, Now(), fine);
        steps := [Take(k)] + steps;
        SameOutcome(s0, s1, k, w, Now(), threw);
      } else {
        threw, jobs := true, ThrownJobs(jobs, k);
        Took(s0, [Take(k)], s1, Drop(k), Now(), fine);
        steps := [Take(k)] + [Drop(k)];
        assert jobs == ThrownJobs(s0.jobs, k);
      }
    }

    /** The reset of a failed log and its new job. */
    method ResetLog(k: nat, ghost r: Regime) returns (ghost steps: seq<Step>)
      requires k in jobs && jobs[k].phase.Resetting? && jobs[k].log in logs
      modifies this`logs, this`jobs, this`calls
      ensures Path(old(Now()), steps, Now(), r)
      ensures logs == old(logs)[old(jobs[k].log) := Log(old(logs[jobs[k].log]).subscription, Pending, 0)]
      ensures jobs == old(jobs)[k := Job(old(jobs[k].log), Queued(0), 0)] && calls == old(calls)[old(jobs[k].log) := 0]
    {
      ghost var s0 := Now();
      var log := jobs[k].log;
      logs := logs[log := logs[log].(status := Pending, attempts := 0)];
      calls := calls[log := 0];
      jobs := jobs[k := jobs[k].(phase := ToEnqueue(0))];
      ghost var s1 := Now();
      Took(s0, [], s0, Reset(k), s1, r);
      jobs := jobs[k := Job(log, Queued(0), 0)];
      Took(s0, [Reset(k)], s1, Enqueue(k), Now(), r);
      steps := [Reset(k)] + [Enqueue(k)];
    }

    /** Manual retry: only of a failed log whose subscription still exists. */
    method RetryDelivery(log: int, subscriptions: set<int>) returns (r: RetryResult, ghost steps: seq<Step>)
      requires next !in jobs
      modifies this
      ensures Follows(old(Now()), steps, Now())
      ensures r == if log !in old(logs) then LogNotFound
        else if old(logs)[log].status != Failed then NotFailed
        else if old(logs)[log].subscription !in subscriptions then SubscriptionNotFound
        else Requeued
      ensures r != Requeued ==> logs == old(logs) && jobs == old(jobs) && calls == old(calls)
      ensures r == Requeued ==>
        && logs == old(logs)[log := Log(old(logs)[log].subscription, Pending, 0)]
        && jobs == old(jobs)[old(next) := Job(log, Queued(0), 0)]
        && calls == old(calls)[log := 0]
      ensures old(Unheld(Now(), log)) ==> Runs(old(Now()), steps, Now())
    {
      ghost var s0 := Now();
      ghost var alone := Under(Unheld(s0, log));
      steps := [];
      if log !in logs {
        return LogNotFound, steps;
      }
      if logs[log].status != Failed {
        return NotFailed, steps;
      }
      var k := next;
      jobs, next := jobs[k := Job(log, Resetting, 0)], k + 1;
      ghost var s1 := Now();
      Took(s0, [], s0, AskRetry(k, log), s1, alone);
      steps := [AskRetry(k, log)];
      if logs[log].subscription !in subscriptions {
        jobs := jobs - {k};
        assert jobs == s0.jobs;
        Took(s0, steps, s1, Abandon(k), Now(), alone);
        r, steps := SubscriptionNotFound, steps + [Abandon(k)];
      } else {
        ghost var more := ResetLog(k, alone);
        PathAppend(s0, steps, s1, more, Now(), alone);
        r, steps := Requeued, steps + more;
      }
      if Unheld(s0, log) {
        FaultlessIsAllowed(s0, steps, Now());
      }
    }

    method RouteOne(log: int, subscription: int) returns (ghost steps: seq<Step>)
      requires log !in logs && next !in jobs
      modifies this
      ensures Runs(old(Now()), steps, Now()) && Now() == RoutedOne(old(Now()), log, subscription)
    {
      ghost var s0 := Now();
      var k := next;
      logs := logs[log := Log(subscription, Pending, 0)];
      jobs, next := jobs[k := Job(log, ToEnqueue(0), 0)], k + 1;
      calls := calls[log := 0];
      ghost var s1 := Now();
      Took(s0, [], s0, Insert(k, log, subscription), s1, Settling);
      jobs := jobs[k := Job(log, Queued(0), 0)];
      Took(s0, [Insert(k, log, subscription)], s1, Enqueue(k), Now(), Settling);
      steps := [Insert(k, log, subscription)] + [Enqueue(k)];
    }

    /** Each subscription that matches the event, and no other, is routed. `ids` are
        the random identifiers the new rows receive. */
    method RouteEvent(providers: Providers, subs: seq<Subscription>, event: Event, ids: seq<int>) returns (ghost steps: seq<Step>)
      requires |ids| >= |Matching(providers, event, subs)|
      requires FreshIds(Now(), ids) && KeysBelowNext(Now())
      modifies this
      ensures Runs(old(Now()), steps, Now())
      ensures var m := Matching(providers, event, subs); Routes(old(Now()), ids, m, |m|, Now())
      ensures forall sub <- subs :: sub in Matching(providers, event, subs) <==> !PassedOver(providers, event, sub)
    {
      ghost var s0 := Now();
      var m := Matching(providers, event, subs);
      steps := RouteAll(ids, m);
      RoutedMeaning(s0, ids, m, |m|, Now());
      MatchingOrPassedOver(providers, event, subs);
    }

    method RouteAll(ids: seq<int>, m: seq<Subscription>) returns (ghost steps: seq<Step>)
      requires |ids| >= |m| && FreshIds(Now(), ids) && KeysBelowNext(Now())
      modifies this
      ensures Runs(old(Now()), steps, Now()) && Now() == Routed(old(Now()), ids, m, |m|)
    {
      ghost var s0 := Now();
      steps := [];
      for i := 0 to |m|
        invariant Runs(s0, steps, Now()) && Now() == Routed(s0, ids, m, i)
      {
        ghost var s1 := Now();
        RoutedIsFresh(s0, ids, m, i, s1);
        ghost var more := RouteOne(ids[i], m[i].id);
        PathAppend(s0, steps, s1, more, Now(), Settling);
        steps := steps + more;
      }
    }
  }
}
