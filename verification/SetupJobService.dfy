/**
 The job service over the in-memory storage: dictionaries that the methods
 update in place, with a check before every change of status.
 */
module SetupJobService {
  import opened Wrappers
  import opened Text
  import opened SetupJobs

  /** The fields that a transition sets. */
  datatype Change = Change(status: Status, finishedAt: Option<int>, nodeId: Option<nat>, error: Option<string>)

  /** A job after its fields were set; fields not named keep their values. */
  function Changed(j: Job, c: Change): Job {
    var e := Entered(j, c.status);
    var f := if c.finishedAt.Some? then e.(finishedAt := c.finishedAt) else e;
    var g := if c.nodeId.Some? then f.(nodeId := c.nodeId) else f;
    if c.error.Some? then g.(error := c.error) else g
  }

  class JobStorage {
    var jobs: map<nat, Job>
    var order: seq<nat>
    var events: map<nat, seq<JobEvent>>

    constructor ()
      ensures jobs == map[] && order == [] && events == map[]
    {
      jobs, order, events := map[], [], map[];
    }

    method AddSetupJob(id: nat, job: Job)
      requires id !in jobs
      modifies this
      ensures jobs == old(jobs)[id := job] && order == old(order) + [id]
      ensures events == old(events)[id := if id in old(events) then old(events)[id] else []]
    {
      jobs := jobs[id := job];
      order := order + [id];
      if id !in events { events := events[id := []]; } else { assert events == events[id := events[id]]; }
    }

    method AddSetupEvent(id: nat, e: JobEvent)
      modifies this`events
      ensures events == old(events)[id := (if id in old(events) then old(events)[id] else []) + [e]]
    {
      if id !in events { events := events[id := []]; }
      events := events[id := events[id] + [e]];
    }

    /** The queued job created first, the earlier one in the list on a tie. */
    method NextQueued() returns (best: Option<nat>)
      ensures best == Oldest(jobs, order)
    {
      best := None;
      for i := 0 to |order|
        invariant best == Oldest(jobs, order[..i])
      {
        assert order[..i + 1][..i] == order[..i];
        var id := order[i];
        if id in jobs && jobs[id].status.Queued?
           && (best.None? || best.value !in jobs || jobs[id].created < jobs[best.value].created) {
          best := Some(id);
        }
      }
      assert order[..|order|] == order;
    }

    method ClaimNextSetupJob(at: int) returns (claimed: Option<nat>)
      modifies this`jobs
      ensures claimed == Oldest(old(jobs), order) || claimed.None?
      ensures claimed.Some? <==> Oldest(old(jobs), order).Some? && CanMove(Store(old(jobs), order, events, map[]), Oldest(old(jobs), order).value, {Queued})
      ensures claimed.Some? ==> jobs == old(jobs)[claimed.value := Entered(old(jobs)[claimed.value], CheckingSsh).(startedAt := Some(at))]
      ensures claimed.None? ==> jobs == old(jobs)
    {
      claimed := NextQueued();
      if claimed.None? { return; }
      QueuedOldest(jobs, order);
      var job := jobs[claimed.value];
      jobs := jobs[claimed.value := Entered(job, CheckingSsh).(startedAt := Some(at))];
    }

    /** Changes the job only if its status is one of the expected ones. */
    method TransitionSetupJob(id: nat, expected: set<Status>, change: Change) returns (ok: bool)
      modifies this`jobs
      ensures ok <==> id in old(jobs) && old(jobs)[id].status in expected
      ensures jobs == if ok then old(jobs)[id := Changed(old(jobs)[id], change)] else old(jobs)
    {
      if id !in jobs || jobs[id].status !in expected { return false; }
      var job := Entered(jobs[id], change.status);
      if change.finishedAt.Some? { job := job.(finishedAt := change.finishedAt); }
      if change.nodeId.Some? { job := job.(nodeId := change.nodeId); }
      if change.error.Some? { job := job.(error := change.error); }
      jobs := jobs[id := job];
      return true;
    }
  }

  lemma {:induction false} QueuedOldest(jobs: map<nat, Job>, order: seq<nat>)
    ensures var r := Oldest(jobs, order); r.Some? ==> r.value in jobs && jobs[r.value].status.Queued?
  {
    if order != [] { QueuedOldest(jobs, order[..|order| - 1]); }
  }

  class JobService {
    const storage: JobStorage
    const workerEnabled: bool
    var secrets: map<nat, string>

    constructor (storage: JobStorage, workerEnabled: bool)
      ensures this.storage == storage && this.workerEnabled == workerEnabled && secrets == map[]
    {
      this.storage, this.workerEnabled, secrets := storage, workerEnabled, map[];
    }

    ghost function S(): Store
      reads this, storage
    {
      Store(storage.jobs, storage.order, storage.events, secrets)
    }

    method ForgetSecret(id: nat)
      modifies this`secrets
      ensures S() == Forget(old(S()), id)
    {
      secrets := secrets - {id};
    }

    method CreateJob(id: nat, options: Options, secret: string, now: int) returns (ok: bool)
      requires id !in storage.jobs
      modifies this, storage
      ensures (S(), ok) == Create(old(S()), id, options, secret, workerEnabled, now)
    {
      hide TrimSpace;
      if TrimSpace(secret) == "" { return false; }
      if !workerEnabled { return false; }
      var job := Job(now, options, Queued, [Queued], None, None, None, None);
      secrets := secrets[id := secret];
      storage.AddSetupJob(id, job);
      storage.AddSetupEvent(id, JobEvent(Info, Queued, "queued"));
      return true;
    }

    method CancelJob(id: nat, now: int) returns (ok: bool)
      modifies this, storage
      ensures (S(), ok) == Cancel(old(S()), id, now)
    {
      hide NonTerminal, CanMove;
      ok := Transition(id, NonTerminal(), Change(Cancelled, Some(now), None, None));
      if !ok { return; }
      ForgetSecret(id);
      storage.AddSetupEvent(id, JobEvent(Warning, Cancelled, "cancelled"));
    }

    method ClaimJob(now: int) returns (claimed: Option<nat>)
      modifies this, storage
      ensures (S(), claimed) == ClaimNext(old(S()), now)
    {
      hide Oldest;
      claimed := storage.ClaimNextSetupJob(now);
      if claimed.None? { return; }
      storage.AddSetupEvent(claimed.value, JobEvent(Info, CheckingSsh, "checking"));
    }

    method AdvanceStep(id: nat, expected: set<Status>, status: Status, message: string) returns (ok: bool)
      modifies this, storage
      ensures (S(), ok) == SetStep(old(S()), id, expected, status, message)
    {
      hide CanMove;
      ok := Transition(id, expected, Change(status, None, None, None));
      if !ok { return; }
      storage.AddSetupEvent(id, JobEvent(Info, status, message));
    }

    method Succeed(id: nat, node: nat, now: int) returns (ok: bool)
      modifies this, storage
      ensures (S(), ok) == FinishSuccess(old(S()), id, node, now)
    {
      hide CanMove;
      ok := Transition(id, {Verifying}, Change(Success, Some(now), Some(node), None));
      ForgetSecret(id);
      if !ok { return; }
      storage.AddSetupEvent(id, JobEvent(Info, Success, "installed"));
    }

    method Fail(id: nat, message: string, now: int) returns (ok: bool)
      modifies this, storage
      ensures (S(), ok) == FinishFailed(old(S()), id, message, now)
    {
      hide NonTerminal, CanMove;
      ok := Transition(id, NonTerminal(), Change(Failed, Some(now), None, Some(message)));
      ForgetSecret(id);
      if !ok { return; }
      storage.AddSetupEvent(id, JobEvent(Error, Failed, message));
    }

    /** The storage's transition, seen from the service. */
    method Transition(id: nat, expected: set<Status>, change: Change) returns (ok: bool)
      modifies storage`jobs
      ensures ok <==> CanMove(old(S()), id, expected)
      ensures ok ==> id in old(storage.jobs)
                     && S() == old(S()).(jobs := old(storage.jobs)[id := Changed(old(storage.jobs)[id], change)])
      ensures !ok ==> S() == old(S())
    {
      ok := storage.TransitionSetupJob(id, expected, change);
    }
  }
}
