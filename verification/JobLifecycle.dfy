/** Jobs from submission to their final status: the store's status rules, the bounded
    queue, workers that execute jobs step by step, and users who cancel, retry and clear
    at any moment in between. */
module JobLifecycle {
  import opened Text

  datatype Status = Pending | Running | WaitingOci | Verifying | Success | Failed | Retrying | Cancelled | RollbackRequired | ManualRequired

  datatype Job = Job(status: Status, retryCount: nat, maxRetries: nat)

  type Jobs = map<nat, Job>

  const QUEUE_CAPACITY: nat := 128

  predicate IsActive(status: Status) {
    status == Running || status == WaitingOci || status == Verifying
  }

  predicate CanStart(status: Status) {
    status == Pending || status == Retrying
  }

  predicate CanCancel(status: Status) {
    CanStart(status) || IsActive(status)
  }

  predicate CanRetry(status: Status) {
    status == Failed || status == Cancelled || status == ManualRequired || status == RollbackRequired
  }

  predicate IsFinal(status: Status) {
    !CanStart(status) && !IsActive(status)
  }

  // The store's operations; None is an error and changes nothing ------------------------

  function Marked(jobs: Jobs, id: nat, status: Status): Jobs
    requires id in jobs
  {
    jobs[id := jobs[id].(status := status)]
  }

  function Started(jobs: Jobs, id: nat): Option<Jobs> {
    if id in jobs && CanStart(jobs[id].status) then Some(Marked(jobs, id, Running)) else None
  }

  /** For the statuses of a job at work, and for success. */
  function MarkedIfActive(jobs: Jobs, id: nat, status: Status): Option<Jobs> {
    if id in jobs && IsActive(jobs[id].status) then Some(Marked(jobs, id, status)) else None
  }

  /** Failing a job does not ask what status it has. */
  function MarkedFailed(jobs: Jobs, id: nat): Option<Jobs> {
    if id in jobs then Some(Marked(jobs, id, Failed)) else None
  }

  function MarkedCancelled(jobs: Jobs, id: nat): Option<Jobs> {
    if id in jobs && CanCancel(jobs[id].status) then Some(Marked(jobs, id, Cancelled)) else None
  }

  function Retried(jobs: Jobs, id: nat, newId: nat): Option<Jobs> {
    if id in jobs && CanRetry(jobs[id].status) && jobs[id].retryCount < jobs[id].maxRetries then
      Some(jobs[newId := Job(Pending, jobs[id].retryCount + 1, jobs[id].maxRetries)])
    else None
  }

  function Cleared(jobs: Jobs): Jobs {
    map id | id in jobs && !IsFinal(jobs[id].status) :: jobs[id]
  }

  datatype StatusWrite = StatusWrite(job: nat, status: Status)

  /** `written` records every status that a job was given. */
  class JobStore {
    var jobs: Jobs
    ghost var written: seq<StatusWrite>

    constructor (jobs: Jobs)
      ensures this.jobs == jobs && written == []
    {
      this.jobs := jobs;
      written := [];
    }

    method StartJob(id: nat) returns (ok: bool)
      modifies this
      ensures ok == Started(old(jobs), id).Some? && jobs == if ok then Started(old(jobs), id).value else old(jobs)
      ensures written == old(written) + if ok then [StatusWrite(id, Running)] else []
    {
      if id !in jobs || (jobs[id].status != Pending && jobs[id].status != Retrying) {
        return false;
      }
      jobs := jobs[id := jobs[id].(status := Running)];
      written := written + [StatusWrite(id, Running)];
      ok := true;
    }

    method MarkIfActive(id: nat, status: Status) returns (ok: bool)
      modifies this
      ensures ok == MarkedIfActive(old(jobs), id, status).Some?
      ensures jobs == if ok then MarkedIfActive(old(jobs), id, status).value else old(jobs)
      ensures written == old(written) + if ok then [StatusWrite(id, status)] else []
    {
      if id !in jobs || !IsActive(jobs[id].status) {
        return false;
      }
      jobs := jobs[id := jobs[id].(status := status)];
      written := written + [StatusWrite(id, status)];
      ok := true;
    }

    method FailJob(id: nat) returns (ok: bool)
      modifies this
      ensures ok == MarkedFailed(old(jobs), id).Some? && jobs == if ok then MarkedFailed(old(jobs), id).value else old(jobs)
      ensures written == old(written) + if ok then [StatusWrite(id, Failed)] else []
    {
      if id !in jobs {
        return false;
      }
      jobs := jobs[id := jobs[id].(status := Failed)];
      written := written + [StatusWrite(id, Failed)];
      ok := true;
    }

    method CancelJob(id: nat) returns (ok: bool)
      modifies this
      ensures ok == MarkedCancelled(old(jobs), id).Some? && jobs == if ok then MarkedCancelled(old(jobs), id).value else old(jobs)
      ensures written == old(written) + if ok then [StatusWrite(id, Cancelled)] else []
    {
      if id !in jobs || !CanCancel(jobs[id].status) {
        return false;
      }
      jobs := jobs[id := jobs[id].(status := Cancelled)];
      written := written + [StatusWrite(id, Cancelled)];
      ok := true;
    }
  }

  /** The queue is a buffered channel; a job that does not fit is failed at once. */
  class Runner {
    var queue: seq<nat>
    const store: JobStore

    constructor (store: JobStore)
      ensures queue == [] && this.store == store
    {
      this.store := store;
      queue := [];
    }

    method Enqueue(id: nat)
      requires |queue| <= QUEUE_CAPACITY
      modifies this, store
      ensures |queue| <= QUEUE_CAPACITY
      ensures (queue, store.jobs) == Enqueued(old(queue), old(store.jobs), id)
    {
      if |queue| < QUEUE_CAPACITY {
        queue := queue + [id];
      } else {
        var _ := store.FailJob(id);
      }
    }

    method Take() returns (id: nat)
      requires queue != []
      modifies this`queue
      ensures old(queue) == [id] + queue
    {
      id := queue[0];
      queue := queue[1..];
    }
  }

  function Enqueued(queue: seq<nat>, jobs: Jobs, id: nat): (seq<nat>, Jobs) {
    if |queue| < QUEUE_CAPACITY then (queue + [id], jobs)
    else (queue, if id in jobs then Marked(jobs, id, Failed) else jobs)
  }

  /** One execution that nobody disturbs. `prepared` tells whether the checks before the cloud
      call passed, `verified` whether the cloud's result was verified: a startable job ends
      successful exactly when both hold, and failed otherwise, after the statuses given here.
      Any other job is left alone, and so are all other jobs. */
  method Execute(store: JobStore, id: nat) returns (ok: bool, prepared: bool, verified: bool)
    modifies store
    ensures Started(old(store.jobs), id).None? ==> !ok && store.jobs == old(store.jobs) && store.written == old(store.written)
    ensures Started(old(store.jobs), id).Some? ==>
      && ok == (prepared && verified)
      && store.jobs == old(store.jobs)[id := old(store.jobs)[id].(status := if prepared && verified then Success else Failed)]
      && store.written == old(store.written) + [StatusWrite(id, Running)]
           + (if prepared then [StatusWrite(id, WaitingOci), StatusWrite(id, Verifying)] else [])
           + [StatusWrite(id, if prepared && verified then Success else Failed)]
  {
    prepared, verified := *, *;
    var done := store.StartJob(id);
    if !done {
      return false, prepared, verified;
    }
    if !prepared {
      done := store.FailJob(id);
      return false, prepared, verified;
    }
    done := store.MarkIfActive(id, WaitingOci);
    done := store.MarkIfActive(id, Verifying);
    if !verified {
      done := store.FailJob(id);
      return false, prepared, verified;
    }
    ok := store.MarkIfActive(id, Success);
  }

  // Everybody at once --------------------------------------------------------------------

  /** Where a worker is in the execution of a job. */
  datatype Phase = Starting | Preparing | Recording | MarkingWaiting | MarkingVerifying | Finishing

  datatype Worker = Worker(job: nat, phase: Phase)

  /** `used` are all identifiers ever given out. The logs record what was accepted into
      and taken from the queue, which jobs were started, for which a cloud call was made,
      and to which an executor gave a final status. */
  datatype System = System(
    jobs: Jobs, used: set<nat>, queue: seq<nat>, workers: map<nat, Worker>,
    accepted: seq<nat>, taken: seq<nat>, started: seq<nat>, called: seq<nat>, judged: seq<nat>)

  datatype Step =
    | Submit(id: nat, maxRetries: nat)
    | Enqueue(id: nat)
    | Take(worker: nat)
    | Work(worker: nat, succeeds: bool)
    | Cancel(id: nat)
    | Retry(id: nat, newId: nat)
    | Clear

  function Released(s: System, w: nat): System {
    s.(workers := s.workers - {w})
  }

  function AdvancedTo(s: System, w: nat, phase: Phase): System
    requires w in s.workers
  {
    s.(workers := s.workers[w := s.workers[w].(phase := phase)])
  }

  /** The executor gives up on a job or finishes it; either way the worker is free. */
  function Judged(s: System, w: nat, jobs: Jobs): System
    requires w in s.workers
  {
    Released(s.(jobs := jobs, judged := s.judged + [s.workers[w].job]), w)
  }

  /** One request of a worker. A store error ends the execution without another write. */
  function WorkStep(s: System, w: nat, succeeds: bool): System
    requires w in s.workers
  {
    var id := s.workers[w].job;
    match s.workers[w].phase
    case Starting =>
      var next := Started(s.jobs, id);
      if next.None? then Released(s, w)
      else AdvancedTo(s.(jobs := next.value, started := s.started + [id]), w, Preparing)
    case Preparing =>
      if succeeds then AdvancedTo(s.(called := s.called + [id]), w, Recording)
      else
        var next := MarkedFailed(s.jobs, id);
        if next.None? then Released(s, w) else Judged(s, w, next.value)
    case Recording =>
      if id in s.jobs then AdvancedTo(s, w, MarkingWaiting) else Released(s, w)
    case MarkingWaiting =>
      var next := MarkedIfActive(s.jobs, id, WaitingOci);
      if next.None? then Released(s, w) else AdvancedTo(s.(jobs := next.value), w, MarkingVerifying)
    case MarkingVerifying =>
      var next := MarkedIfActive(s.jobs, id, Verifying);
      if next.None? then Released(s, w) else AdvancedTo(s.(jobs := next.value), w, Finishing)
    case Finishing =>
      var next := if succeeds then MarkedIfActive(s.jobs, id, Success) else MarkedFailed(s.jobs, id);
      if next.None? then Released(s, w) else Judged(s, w, next.value)
  }

  function OrElse(next: Option<Jobs>, jobs: Jobs): Jobs {
    if next.Some? then next.value else jobs
  }

  /** Steps that are not possible leave the system alone. Identifiers are never reused;
      apart from that anything may be enqueued, even twice. */
  function Next(s: System, step: Step): System {
    match step
    case Submit(id, maxRetries) =>
      if id in s.used then s else s.(jobs := s.jobs[id := Job(Pending, 0, maxRetries)], used := s.used + {id})
    case Enqueue(id) =>
      var (queue, jobs) := Enqueued(s.queue, s.jobs, id);
      s.(queue := queue, jobs := jobs, accepted := if |s.queue| < QUEUE_CAPACITY then s.accepted + [id] else s.accepted)
    case Take(w) =>
      if w in s.workers || s.queue == [] then s
      else s.(queue := s.queue[1..], taken := s.taken + [s.queue[0]], workers := s.workers[w := Worker(s.queue[0], Starting)])
    case Work(w, succeeds) =>
      if w in s.workers then WorkStep(s, w, succeeds) else s
    case Cancel(id) => s.(jobs := OrElse(MarkedCancelled(s.jobs, id), s.jobs))
    case Retry(id, newId) =>
      if newId in s.used || Retried(s.jobs, id, newId).None? then s
      else s.(jobs := Retried(s.jobs, id, newId).value, used := s.used + {newId})
    case Clear => s.(jobs := Cleared(s.jobs))
  }

  const EMPTY := System(map[], {}, [], map[], [], [], [], [], [])

  function Run(steps: seq<Step>): System {
    if steps == [] then EMPTY else Next(Run(steps[..|steps| - 1]), steps[|steps| - 1])
  }

  // What every step keeps -------------------------------------------------------------------

  ghost predicate NoDuplicates(ids: seq<nat>) {
    forall i, j :: 0 <= i < j < |ids| ==> ids[i] != ids[j]
  }

  ghost predicate QueueIsFair(s: System) {
    |s.queue| <= QUEUE_CAPACITY && s.accepted == s.taken + s.queue
  }

  /** A started job is never startable again. */
  ghost predicate StartedOnce(s: System) {
    && NoDuplicates(s.started)
    && (forall id :: id in s.jobs ==> id in s.used)
    && (forall id :: id in s.started ==> id in s.used && (id in s.jobs ==> !CanStart(s.jobs[id].status)))
  }

  /** The worker has got past the start of its job. */
  predicate AtWork(s: System, w: nat) {
    w in s.workers && s.workers[w].phase != Starting
  }

  /** A job in execution belongs to one worker, and what has been logged for it fits the phase. */
  ghost predicate WorkersAreSound(s: System) {
    && (forall w :: AtWork(s, w) ==>
          && s.workers[w].job in s.started
          && s.workers[w].job !in s.judged
          && (s.workers[w].phase == Preparing <==> s.workers[w].job !in s.called))
    && (forall v, w :: AtWork(s, v) && AtWork(s, w) && v != w ==> s.workers[v].job != s.workers[w].job)
  }

  ghost predicate LogsAreSound(s: System) {
    && NoDuplicates(s.called) && NoDuplicates(s.judged)
    && (forall id :: id in s.called || id in s.judged ==> id in s.started)
    && (forall id :: id in s.jobs && s.jobs[id].status == Success ==> id in s.called && id in s.judged)
  }

  ghost predicate Inv(s: System) {
    QueueIsFair(s) && StartedOnce(s) && WorkersAreSound(s) && LogsAreSound(s)
  }

  lemma TakeKeepsQueue(s: System, w: nat)
    requires QueueIsFair(s) && w !in s.workers && s.queue != []
    ensures QueueIsFair(Next(s, Take(w)))
  {
    assert s.taken + s.queue == s.taken + [s.queue[0]] + s.queue[1..];
  }

  lemma AppendFresh(ids: seq<nat>, id: nat)
    requires id !in ids
    ensures NoDuplicates(ids) ==> NoDuplicates(ids + [id])
    ensures forall x :: x in ids + [id] <==> x in ids || x == id
  {
  }

  /** New statuses that the invariant allows: nothing started becomes startable, and
      success is only for jobs that were called and judged. */
  ghost predicate JobsAllowed(s: System, jobs: Jobs, used: set<nat>) {
    && s.used <= used
    && (forall id :: id in jobs ==> id in used && (id in s.started ==> !CanStart(jobs[id].status)))
    && (forall id :: id in jobs && jobs[id].status == Success ==> id in s.called && id in s.judged)
  }

  lemma AllowedJobsKeepInv(s: System, jobs: Jobs, used: set<nat>)
    requires Inv(s) && JobsAllowed(s, jobs, used)
    ensures Inv(s.(jobs := jobs, used := used))
  {
    hide NoDuplicates;
  }

  lemma MarkingIsAllowed(s: System, id: nat, status: Status)
    requires Inv(s) && id in s.jobs && !CanStart(status) && status != Success
    ensures JobsAllowed(s, Marked(s.jobs, id, status), s.used)
  {
    hide NoDuplicates;
  }

  lemma ReleaseKeepsInv(s: System, w: nat)
    requires Inv(s)
    ensures Inv(Released(s, w))
  {
    hide NoDuplicates, QueueIsFair, StartedOnce, LogsAreSound;
    assert forall v :: AtWork(Released(s, w), v) ==> AtWork(s, v);
    SameElsewhere(s, Released(s, w));
  }

  lemma SameElsewhere(s: System, t: System)
    requires t == s.(workers := t.workers)
    ensures QueueIsFair(s) ==> QueueIsFair(t)
    ensures StartedOnce(s) ==> StartedOnce(t)
    ensures LogsAreSound(s) ==> LogsAreSound(t)
  {
  }

  lemma StartKeepsInv(s: System, w: nat)
    requires Inv(s) && w in s.workers && s.workers[w].phase == Starting && Started(s.jobs, s.workers[w].job).Some?
    ensures Inv(WorkStep(s, w, true)) && WorkStep(s, w, true) == WorkStep(s, w, false)
  {
    hide NoDuplicates;
    var id := s.workers[w].job;
    AppendFresh(s.started, id);
  }

  lemma CallKeepsInv(s: System, w: nat)
    requires Inv(s) && w in s.workers && s.workers[w].phase == Preparing
    ensures Inv(WorkStep(s, w, true))
  {
    hide NoDuplicates, QueueIsFair;
    assert AtWork(s, w);
    AppendFresh(s.called, s.workers[w].job);
    assert QueueIsFair(WorkStep(s, w, true)) by { SameQueue(s, WorkStep(s, w, true)); }
  }

  lemma SameQueue(s: System, t: System)
    requires QueueIsFair(s) && t.queue == s.queue && t.accepted == s.accepted && t.taken == s.taken
    ensures QueueIsFair(t)
  {
  }

  /** A worker past its call moves on. */
  lemma AdvanceKeepsInv(s: System, w: nat, phase: Phase)
    requires Inv(s) && AtWork(s, w) && s.workers[w].phase != Preparing && phase != Starting && phase != Preparing
    ensures Inv(AdvancedTo(s, w, phase))
  {
    hide NoDuplicates, QueueIsFair, StartedOnce, LogsAreSound;
    var t := AdvancedTo(s, w, phase);
    assert forall v :: AtWork(t, v) ==> AtWork(s, v) && t.workers[v].job == s.workers[v].job;
    SameElsewhere(s, t);
  }

  /** A final status; success only after the call. */
  lemma JudgeKeepsInv(s: System, w: nat, status: Status)
    requires Inv(s) && AtWork(s, w) && s.workers[w].job in s.jobs
    requires status == Failed || (status == Success && s.workers[w].phase == Finishing)
    ensures Inv(Judged(s, w, Marked(s.jobs, s.workers[w].job, status)))
  {
    hide NoDuplicates, QueueIsFair;
    var t := Judged(s, w, Marked(s.jobs, s.workers[w].job, status));
    AppendFresh(s.judged, s.workers[w].job);
    SameQueue(s, t);
    assert forall v :: AtWork(t, v) ==> AtWork(s, v) && v != w;
  }

  lemma WorkKeepsInv(s: System, w: nat, succeeds: bool)
    requires Inv(s) && w in s.workers
    ensures Inv(WorkStep(s, w, succeeds))
  {
    hide Inv, JobsAllowed;
    var id := s.workers[w].job;
    ReleaseKeepsInv(s, w);
    match s.workers[w].phase
    case Starting =>
      if Started(s.jobs, id).Some? {
        StartKeepsInv(s, w);
      }
    case Preparing =>
      if succeeds {
        CallKeepsInv(s, w);
      } else if id in s.jobs {
        JudgeKeepsInv(s, w, Failed);
      }
    case Recording =>
      AdvanceKeepsInv(s, w, MarkingWaiting);
    case MarkingWaiting =>
      MarkAndAdvanceKeepsInv(s, w, WaitingOci, MarkingVerifying);
    case MarkingVerifying =>
      MarkAndAdvanceKeepsInv(s, w, Verifying, Finishing);
    case Finishing =>
      if id in s.jobs {
        JudgeKeepsInv(s, w, if succeeds then Success else Failed);
      }
  }

  lemma MarkAndAdvanceKeepsInv(s: System, w: nat, status: Status, phase: Phase)
    requires Inv(s) && AtWork(s, w) && s.workers[w].phase != Preparing && phase != Starting && phase != Preparing
    requires IsActive(status)
    ensures s.workers[w].job in s.jobs ==> Inv(AdvancedTo(s.(jobs := Marked(s.jobs, s.workers[w].job, status)), w, phase))
  {
    if s.workers[w].job in s.jobs {
      hide Inv, JobsAllowed;
      var jobs := Marked(s.jobs, s.workers[w].job, status);
      MarkingIsAllowed(s, s.workers[w].job, status);
      AllowedJobsKeepInv(s, jobs, s.used);
      AdvanceKeepsInv(s.(jobs := jobs), w, phase);
    }
  }

  lemma EnqueueKeepsInv(s: System, id: nat)
    requires Inv(s)
    ensures Inv(Next(s, Enqueue(id)))
  {
    hide NoDuplicates;
    if |s.queue| < QUEUE_CAPACITY {
      assert s.taken + (s.queue + [id]) == s.taken + s.queue + [id];
    } else if id in s.jobs {
      MarkingIsAllowed(s, id, Failed);
      AllowedJobsKeepInv(s, Marked(s.jobs, id, Failed), s.used);
    }
  }

  lemma TakeKeepsInv(s: System, w: nat)
    requires Inv(s) && w !in s.workers && s.queue != []
    ensures Inv(Next(s, Take(w)))
  {
    hide NoDuplicates, QueueIsFair, StartedOnce, LogsAreSound;
    var t := Next(s, Take(w));
    TakeKeepsQueue(s, w);
    assert forall v :: AtWork(t, v) ==> AtWork(s, v) && t.workers[v] == s.workers[v];
    SameElsewhere(s, s.(workers := t.workers));
    SameJobs(s, t);
  }

  lemma SameJobs(s: System, t: System)
    requires t == s.(workers := t.workers, queue := t.queue, taken := t.taken)
    ensures StartedOnce(s) ==> StartedOnce(t)
    ensures LogsAreSound(s) ==> LogsAreSound(t)
  {
  }

  lemma UserStepIsAllowed(s: System, step: Step)
    requires Inv(s) && (step.Submit? || step.Cancel? || step.Retry? || step.Clear?)
    ensures Next(s, step) == s.(jobs := Next(s, step).jobs, used := Next(s, step).used)
    ensures JobsAllowed(s, Next(s, step).jobs, Next(s, step).used)
  {
    hide NoDuplicates, QueueIsFair, WorkersAreSound;
  }

  lemma NextKeepsInv(s: System, step: Step)
    requires Inv(s)
    ensures Inv(Next(s, step))
  {
    hide Inv, WorkStep, JobsAllowed;
    match step
    case Enqueue(id) => EnqueueKeepsInv(s, id);
    case Take(w) =>
      if w !in s.workers && s.queue != [] {
        TakeKeepsInv(s, w);
      }
    case Work(w, succeeds) =>
      if w in s.workers {
        WorkKeepsInv(s, w, succeeds);
      }
    case _ =>
      UserStepIsAllowed(s, step);
      AllowedJobsKeepInv(s, Next(s, step).jobs, Next(s, step).used);
  }

  lemma {:induction false} RunKeepsInv(steps: seq<Step>)
    ensures Inv(Run(steps))
  {
    hide Next;
    if steps != [] {
      RunKeepsInv(steps[..|steps| - 1]);
      NextKeepsInv(Run(steps[..|steps| - 1]), steps[|steps| - 1]);
    }
  }

  // Main results ------------------------------------------------------------------------------

  /** However often a job is enqueued, with any number of workers and users at any moment:
      at most one cloud call and one executor verdict per job, and success only after both. */
  lemma NoJobRunsTwice(steps: seq<Step>)
    ensures NoDuplicates(Run(steps).called) && NoDuplicates(Run(steps).judged)
    ensures forall id :: id in Run(steps).jobs && Run(steps).jobs[id].status == Success ==>
      id in Run(steps).called && id in Run(steps).judged
  {
    RunKeepsInv(steps);
  }

  /** Jobs leave the queue in the order in which they were accepted, and none is lost. */
  lemma QueueIsBoundedAndFair(steps: seq<Step>)
    ensures |Run(steps).queue| <= 128 && Run(steps).accepted == Run(steps).taken + Run(steps).queue
  {
    RunKeepsInv(steps);
  }

  /** The verdict of a worker: an execution that could not be prepared or whose result was not
      verified fails its job, whatever its status; a verified result makes an active job
      successful and leaves any other as it is. Either way the worker is done. */
  lemma VerdictFollowsResult(s: System, w: nat)
    requires w in s.workers && s.workers[w].job in s.jobs
    ensures var id := s.workers[w].job;
      var bad := Next(s, Work(w, false));
      s.workers[w].phase in {Preparing, Finishing} ==>
        bad == s.(jobs := s.jobs[id := s.jobs[id].(status := Failed)], judged := s.judged + [id], workers := s.workers - {w})
    ensures var id := s.workers[w].job;
      var good := Next(s, Work(w, true));
      s.workers[w].phase == Finishing ==>
        if s.jobs[id].status in {Running, WaitingOci, Verifying} then
          good == s.(jobs := s.jobs[id := s.jobs[id].(status := Success)], judged := s.judged + [id], workers := s.workers - {w})
        else good == s.(workers := s.workers - {w})
  {
  }

  /** Left alone, a worker takes a waiting job through these statuses, calling the cloud once. */
  lemma UndisturbedWorker(s: System, w: nat, verified: bool)
    requires w in s.workers && s.workers[w].phase == Starting
    requires s.workers[w].job in s.jobs && s.jobs[s.workers[w].job].status in {Pending, Retrying}
    ensures var id := s.workers[w].job;
      var running := Next(s, Work(w, true));
      var called := Next(running, Work(w, true));
      var waiting := Next(Next(called, Work(w, true)), Work(w, true));
      var verifying := Next(waiting, Work(w, true));
      var end := Next(verifying, Work(w, verified));
      && running.jobs == called.jobs == s.jobs[id := s.jobs[id].(status := Running)]
      && waiting.jobs == s.jobs[id := s.jobs[id].(status := WaitingOci)]
      && verifying.jobs == s.jobs[id := s.jobs[id].(status := Verifying)]
      && end == s.(jobs := s.jobs[id := s.jobs[id].(status := if verified then Success else Failed)],
                   workers := s.workers - {w},
                   started := s.started + [id], called := s.called + [id], judged := s.judged + [id])
  {
    hide Next;
    var started := WorkMoves(s, w);
    var called := WorkMoves(started, w);
    var recorded := WorkMoves(called, w);
    var waiting := WorkMoves(recorded, w);
    var verifying := WorkMoves(waiting, w);
    VerdictFollowsResult(verifying, w);
  }

  lemma WorkMoves(s: System, w: nat) returns (t: System)
    requires w in s.workers && s.workers[w].job in s.jobs
    ensures t == Next(s, Work(w, true))
    ensures var id := s.workers[w].job;
      var job := s.jobs[id];
      match s.workers[w].phase
      case Starting => CanStart(job.status) ==>
        t == s.(jobs := s.jobs[id := job.(status := Running)], started := s.started + [id], workers := s.workers[w := Worker(id, Preparing)])
      case Preparing => t == s.(called := s.called + [id], workers := s.workers[w := Worker(id, Recording)])
      case Recording => t == s.(workers := s.workers[w := Worker(id, MarkingWaiting)])
      case MarkingWaiting => IsActive(job.status) ==>
        t == s.(jobs := s.jobs[id := job.(status := WaitingOci)], workers := s.workers[w := Worker(id, MarkingVerifying)])
      case MarkingVerifying => IsActive(job.status) ==>
        t == s.(jobs := s.jobs[id := job.(status := Verifying)], workers := s.workers[w := Worker(id, Finishing)])
      case Finishing => true
  {
    t := Next(s, Work(w, true));
  }

  /** The k-th step is a worker's, at the end of the job, with a verified result. */
  predicate VerifiesAt(steps: seq<Step>, k: nat, id: nat)
    requires k < |steps|
  {
    && steps[k].Work? && steps[k].succeeds
    && steps[k].worker in Run(steps[..k]).workers
    && Run(steps[..k]).workers[steps[k].worker] == Worker(id, Finishing)
  }

  lemma BecomesSuccessful(s: System, step: Step, id: nat)
    requires id in Next(s, step).jobs && Next(s, step).jobs[id].status == Success
    ensures || (id in s.jobs && s.jobs[id].status == Success)
            || (step.Work? && step.succeeds && step.worker in s.workers && s.workers[step.worker] == Worker(id, Finishing))
  {
  }

  /** Over every run a job is successful only if some worker finished it with a verified result. */
  lemma {:induction false} SuccessWasVerified(steps: seq<Step>, id: nat)
    requires id in Run(steps).jobs && Run(steps).jobs[id].status == Success
    ensures exists k :: 0 <= k < |steps| && VerifiesAt(steps, k, id)
  {
    hide Next, Run;
    if steps == [] {
      RunOfNothing();
    } else {
      var n := |steps| - 1;
      assert steps == steps[..n] + [steps[n]];
      RunOfMore(steps[..n], steps[n]);
      BecomesSuccessful(Run(steps[..n]), steps[n], id);
      if id in Run(steps[..n]).jobs && Run(steps[..n]).jobs[id].status == Success {
        SuccessWasVerified(steps[..n], id);
        var k :| 0 <= k < n && VerifiesAt(steps[..n], k, id);
        assert steps[..n][..k] == steps[..k];
        assert VerifiesAt(steps, k, id);
      } else {
        assert VerifiesAt(steps, n, id);
      }
    }
  }

  /** What users can do with a job in each status. */
  lemma UsersStepByStatus(s: System, id: nat, newId: nat)
    requires id in s.jobs
    ensures Next(s, Cancel(id))
         == if s.jobs[id].status in {Pending, Retrying, Running, WaitingOci, Verifying}
            then s.(jobs := s.jobs[id := s.jobs[id].(status := Cancelled)]) else s
    ensures Next(s, Retry(id, newId))
         == if && newId !in s.used && s.jobs[id].retryCount < s.jobs[id].maxRetries
               && s.jobs[id].status in {Failed, Cancelled, ManualRequired, RollbackRequired}
            then s.(jobs := s.jobs[newId := Job(Pending, s.jobs[id].retryCount + 1, s.jobs[id].maxRetries)], used := s.used + {newId})
            else s
    ensures id in Next(s, Clear).jobs <==> s.jobs[id].status in {Pending, Retrying, Running, WaitingOci, Verifying}
  {
  }

  predicate WithinLimits(jobs: Jobs) {
    forall id :: id in jobs ==> jobs[id].retryCount <= jobs[id].maxRetries
  }

  lemma NextKeepsLimits(s: System, step: Step)
    requires WithinLimits(s.jobs)
    ensures WithinLimits(Next(s, step).jobs)
  {
  }

  /** No chain of retries exceeds its limit. */
  lemma {:induction false} RetriesAreBounded(steps: seq<Step>)
    ensures WithinLimits(Run(steps).jobs)
  {
    hide Next, WithinLimits;
    if steps != [] {
      RetriesAreBounded(steps[..|steps| - 1]);
      NextKeepsLimits(Run(steps[..|steps| - 1]), steps[|steps| - 1]);
    } else {
      assert WithinLimits(map[]) by { NoJobsYet(); }
    }
  }

  lemma NoJobsYet()
    ensures WithinLimits(map[])
  {
  }

  /** The steps that overwrite a final status: an enqueue that finds the queue full, and a
      worker that fails the job it holds. */
  predicate FailsJob(s: System, step: Step, id: nat) {
    match step
    case Enqueue(other) => other == id && |s.queue| >= QUEUE_CAPACITY
    case Work(w, succeeds) =>
      && w in s.workers && s.workers[w].job == id && !succeeds
      && (s.workers[w].phase == Preparing || s.workers[w].phase == Finishing)
    case _ => false
  }

  /** A final status changes exactly by such a step, and then to failed; otherwise the job
      keeps it or is cleared away. */
  lemma FinalStatusChanges(s: System, step: Step, id: nat)
    requires Inv(s) && id in s.jobs && IsFinal(s.jobs[id].status)
    ensures FailsJob(s, step, id) ==> id in Next(s, step).jobs && Next(s, step).jobs[id].status == Failed
    ensures !FailsJob(s, step, id) ==> id !in Next(s, step).jobs || Next(s, step).jobs[id] == s.jobs[id]
  {
    hide NoDuplicates, QueueIsFair, WorkersAreSound, LogsAreSound;
  }

  lemma RunOfMore(steps: seq<Step>, step: Step)
    ensures Run(steps + [step]) == Next(Run(steps), step)
  {
    assert (steps + [step])[..|steps|] == steps;
  }

  /** A job that is over stays over: it is never active or startable again, and only a job
      that had succeeded is ever successful. In particular a cancelled job never succeeds. */
  lemma {:induction false} FinishedJobsStayFinished(steps: seq<Step>, more: seq<Step>, id: nat)
    requires id in Run(steps).jobs && IsFinal(Run(steps).jobs[id].status)
    ensures id in Run(steps + more).used
    ensures id in Run(steps + more).jobs ==>
      && IsFinal(Run(steps + more).jobs[id].status)
      && (Run(steps + more).jobs[id].status == Success ==> Run(steps).jobs[id].status == Success)
    decreases |more|
  {
    hide Next, Inv;
    if more == [] {
      assert steps + more == steps;
      RunKeepsInv(steps);
      JobsAreUsed(Run(steps));
    } else {
      var n := |more| - 1;
      var s := Run(steps + more[..n]);
      FinishedJobsStayFinished(steps, more[..n], id);
      assert steps + more == steps + more[..n] + [more[n]];
      RunOfMore(steps + more[..n], more[n]);
      RunKeepsInv(steps + more[..n]);
      if id in s.jobs {
        FinalStatusChanges(s, more[n], id);
      }
      ClearedStaysAway(s, more[n], id);
    }
  }

  lemma JobsAreUsed(s: System)
    requires Inv(s)
    ensures forall id :: id in s.jobs ==> id in s.used
  {
  }

  /** Identifiers are not given out again. */
  lemma ClearedStaysAway(s: System, step: Step, id: nat)
    requires Inv(s) && id in s.used
    ensures id in Next(s, step).used
    ensures id !in s.jobs ==> id !in Next(s, step).jobs
  {
    hide NoDuplicates, QueueIsFair, WorkersAreSound, LogsAreSound;
  }

  /** A job that is over, or gone, before any worker has started it. */
  predicate NeverToStart(s: System, id: nat) {
    id in s.used && id !in s.started && id !in s.called && (id in s.jobs ==> IsFinal(s.jobs[id].status))
  }

  lemma NeverToStartStays(s: System, step: Step, id: nat)
    requires Inv(s) && NeverToStart(s, id)
    ensures NeverToStart(Next(s, step), id)
  {
    ClearedStaysAway(s, step, id);
    if id in s.jobs {
      FinalStatusChanges(s, step, id);
    }
    LogsOfOthers(s, step, id);
    hide Next, Inv;
  }

  lemma LogsOfOthers(s: System, step: Step, id: nat)
    requires Inv(s) && NeverToStart(s, id)
    ensures id !in Next(s, step).started && id !in Next(s, step).called
  {
    hide NoDuplicates, QueueIsFair, LogsAreSound;
    if step.Work? && step.worker in s.workers && s.workers[step.worker].phase != Starting {
      assert AtWork(s, step.worker);
    }
  }

  /** A job cancelled before it was started never reaches the cloud. */
  lemma {:induction false} CancelledInTimeIsNeverCalled(steps: seq<Step>, more: seq<Step>, id: nat)
    requires NeverToStart(Run(steps), id)
    ensures id !in Run(steps + more).called && NeverToStart(Run(steps + more), id)
    decreases |more|
  {
    hide Next, Inv;
    if more == [] {
      assert steps + more == steps;
    } else {
      var n := |more| - 1;
      CancelledInTimeIsNeverCalled(steps, more[..n], id);
      assert steps + more == steps + more[..n] + [more[n]];
      RunOfMore(steps + more[..n], more[n]);
      RunKeepsInv(steps + more[..n]);
      NeverToStartStays(Run(steps + more[..n]), more[n], id);
    }
  }

  /** Submitted, queued, taken and started: a run that leaves a job with a worker. */
  lemma JobAtWork() returns (steps: seq<Step>)
    ensures Run(steps).jobs == map[1 := Job(Running, 0, 3)] && Run(steps).workers == map[0 := Worker(1, Preparing)]
  {
    hide Run;
    RunOfNothing();
    var a, b, c, d := Submit(1, 3), Enqueue(1), Take(0), Work(0, true);
    RunOfMore([], a);
    assert Run([] + [a]).jobs == map[1 := Job(Pending, 0, 3)];
    RunOfMore([] + [a], b);
    assert Run([] + [a] + [b]).queue == [1];
    RunOfMore([] + [a] + [b], c);
    assert Run([] + [a] + [b] + [c]).workers == map[0 := Worker(1, Starting)];
    RunOfMore([] + [a] + [b] + [c], d);
    steps := [] + [a] + [b] + [c] + [d];
  }

  /** A cancel does not always last: a worker that fails afterwards replaces it. */
  lemma CancelledJobCanEndFailed()
    ensures exists steps, id ::
      && id in Run(steps).jobs && Run(steps).jobs[id].status == Cancelled
      && id in Run(steps + [Work(0, false)]).jobs && Run(steps + [Work(0, false)]).jobs[id].status == Failed
  {
    hide Run;
    var working := JobAtWork();
    RunOfMore(working, Cancel(1));
    var steps := working + [Cancel(1)];
    RunOfMore(steps, Work(0, false));
    assert 1 in Run(steps).jobs && Run(steps).jobs[1].status == Cancelled;
  }

  lemma RunOfNothing()
    ensures Run([]) == EMPTY
  {
  }
}
