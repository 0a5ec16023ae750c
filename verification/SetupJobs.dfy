/**
 Server-setup jobs: the store of jobs, events and passwords, its compare-and-set
 transitions, and the job service that performs them.
 */
module SetupJobs {
  import opened Wrappers
  import opened Text

  datatype Status =
    | Draft | Queued | CheckingSsh | InstallingAgent | InstallingVpn | Verifying
    | Success | Failed | Cancelled

  function Rank(s: Status): nat {
    match s
    case Draft => 0
    case Queued => 1
    case CheckingSsh => 2
    case InstallingAgent => 3
    case InstallingVpn => 4
    case Verifying => 5
    case _ => 6
  }

  predicate Terminal(s: Status) {
    s.Success? || s.Failed? || s.Cancelled?
  }

  function NonTerminal(): (r: set<Status>)
    ensures forall s :: s in r <==> !Terminal(s)
  {
    {Draft, Queued, CheckingSsh, InstallingAgent, InstallingVpn, Verifying}
  }

  datatype Level = Info | Warning | Error

  /** An event names its step by a status. */
  datatype JobEvent = JobEvent(level: Level, step: Status, message: string)

  datatype Options = Options(verifyFirst: bool, installAwg: bool, wantsAvailable: bool)

  /** A job, with the statuses it has gone through so far. */
  datatype Job = Job(created: int, options: Options, status: Status, trail: seq<Status>, startedAt: Option<int>,
                     finishedAt: Option<int>, nodeId: Option<nat>, error: Option<string>)

  /** Jobs by id and in order of insertion, their events, and the passwords
      that live only in memory. */
  datatype Store = Store(jobs: map<nat, Job>, order: seq<nat>, events: map<nat, seq<JobEvent>>, secrets: map<nat, string>)

  // ----- Transitions -----

  function EventsOf(s: Store, id: nat): seq<JobEvent> {
    if id in s.events then s.events[id] else []
  }

  function AddEvent(s: Store, id: nat, e: JobEvent): Store {
    s.(events := s.events[id := EventsOf(s, id) + [e]])
  }

  function Forget(s: Store, id: nat): Store {
    s.(secrets := s.secrets - {id})
  }

  function Entered(j: Job, status: Status): Job {
    j.(status := status, trail := j.trail + [status])
  }

  function Finished(j: Job, status: Status, now: int): Job {
    Entered(j, status).(finishedAt := Some(now))
  }

  predicate CanMove(s: Store, id: nat, expected: set<Status>) {
    id in s.jobs && s.jobs[id].status in expected
  }

  function Create(s: Store, id: nat, options: Options, secret: string, enabled: bool, now: int): (Store, bool) {
    if TrimSpace(secret) == "" || !enabled then (s, false)
    else
      var job := Job(now, options, Queued, [Queued], None, None, None, None);
      var added := Store(s.jobs[id := job], s.order + [id], s.events[id := EventsOf(s, id)], s.secrets[id := secret]);
      (AddEvent(added, id, JobEvent(Info, Queued, "queued")), true)
  }

  /** Whether a queued job is taken before another one found earlier. */
  predicate Better(jobs: map<nat, Job>, best: Option<nat>, id: nat) {
    && id in jobs && jobs[id].status.Queued?
    && (best.None? || best.value !in jobs || jobs[id].created < jobs[best.value].created)
  }

  /** The queued job created first, the earlier one in insertion order on a tie. */
  function Oldest(jobs: map<nat, Job>, order: seq<nat>): Option<nat> {
    if order == [] then None
    else
      var best := Oldest(jobs, order[..|order| - 1]);
      if Better(jobs, best, order[|order| - 1]) then Some(order[|order| - 1]) else best
  }

  /** Claims one job if it is still queued. */
  function Claim(s: Store, id: nat, now: int): (Store, bool) {
    if !CanMove(s, id, {Queued}) then (s, false)
    else
      var job := Entered(s.jobs[id], CheckingSsh).(startedAt := Some(now));
      (AddEvent(s.(jobs := s.jobs[id := job]), id, JobEvent(Info, CheckingSsh, "checking")), true)
  }

  function ClaimNext(s: Store, now: int): (Store, Option<nat>) {
    match Oldest(s.jobs, s.order)
    case None => (s, None)
    case Some(id) => if Claim(s, id, now).1 then (Claim(s, id, now).0, Some(id)) else (s, None)
  }

  function SetStep(s: Store, id: nat, expected: set<Status>, status: Status, message: string): (Store, bool) {
    if !CanMove(s, id, expected) then (s, false)
    else (AddEvent(s.(jobs := s.jobs[id := Entered(s.jobs[id], status)]), id, JobEvent(Info, status, message)), true)
  }

  function Cancel(s: Store, id: nat, now: int): (Store, bool) {
    if !CanMove(s, id, NonTerminal()) then (s, false)
    else
      var job := Finished(s.jobs[id], Cancelled, now);
      (AddEvent(Forget(s.(jobs := s.jobs[id := job]), id), id, JobEvent(Warning, Cancelled, "cancelled")), true)
  }

  function FinishSuccess(s: Store, id: nat, node: nat, now: int): (Store, bool) {
    if !CanMove(s, id, {Verifying}) then (Forget(s, id), false)
    else
      var job := Finished(s.jobs[id], Success, now).(nodeId := Some(node));
      (AddEvent(Forget(s.(jobs := s.jobs[id := job]), id), id, JobEvent(Info, Success, "installed")), true)
  }

  function FinishFailed(s: Store, id: nat, message: string, now: int): (Store, bool) {
    if !CanMove(s, id, NonTerminal()) then (Forget(s, id), false)
    else
      var job := Finished(s.jobs[id], Failed, now).(error := Some(message));
      (AddEvent(Forget(s.(jobs := s.jobs[id := job]), id), id, JobEvent(Error, Failed, message)), true)
  }

  // ----- What every transition keeps -----

  /** The terminal statuses among the events, in order. */
  function Endings(evs: seq<JobEvent>): seq<Status> {
    if evs == [] then []
    else Endings(evs[..|evs| - 1]) + if Terminal(evs[|evs| - 1].step) then [evs[|evs| - 1].step] else []
  }

  predicate TrailOk(j: Job) {
    && j.trail != [] && j.trail[0] == Queued && j.trail[|j.trail| - 1] == j.status
    && forall i, k :: 0 <= i < k < |j.trail| ==> Rank(j.trail[i]) < Rank(j.trail[k])
  }

  predicate JobOk(j: Job, evs: seq<JobEvent>) {
    && TrailOk(j)
    && (j.startedAt.Some? <==> CheckingSsh in j.trail)
    && (j.finishedAt.Some? <==> Terminal(j.status))
    && (j.nodeId.Some? <==> j.status.Success?)
    && (j.error.Some? <==> j.status.Failed?)
    && Endings(evs) == if Terminal(j.status) then [j.status] else []
  }

  /** The order lists every job once, and every job has a list of events. */
  ghost predicate Listed(s: Store) {
    && s.events.Keys == s.jobs.Keys
    && (forall id :: id in s.order <==> id in s.jobs)
    && (forall i, k :: 0 <= i < k < |s.order| ==> s.order[i] != s.order[k])
  }

  /** Passwords are held only for jobs that have not ended. */
  ghost predicate SecretsOk(s: Store) {
    forall id :: id in s.secrets ==> id in s.jobs && !Terminal(s.jobs[id].status)
  }

  ghost predicate StoreOk(s: Store) {
    && Listed(s) && SecretsOk(s)
    && (forall id :: id in s.jobs ==> JobOk(s.jobs[id], EventsOf(s, id)))
  }

  /** A job moves on: its trail grows, and once it is terminal nothing changes. */
  predicate JobAdvances(j: Job, j': Job) {
    && j.trail <= j'.trail && j.options == j'.options && j.created == j'.created
    && (j.status == j'.status ==> j == j')
    && (Terminal(j.status) ==> j == j')
    && (j.status != j'.status ==> Rank(j.status) < Rank(j'.status))
  }

  ghost predicate Advances(s: Store, s': Store) {
    forall id :: id in s.jobs ==> id in s'.jobs && JobAdvances(s.jobs[id], s'.jobs[id])
  }

  lemma EndingsSnoc(evs: seq<JobEvent>, e: JobEvent)
    ensures Endings(evs + [e]) == Endings(evs) + if Terminal(e.step) then [e.step] else []
  {
    assert (evs + [e])[..|evs|] == evs;
  }

  lemma EnteredOk(j: Job, status: Status)
    requires TrailOk(j) && Rank(j.status) < Rank(status)
    ensures TrailOk(Entered(j, status))
    ensures CheckingSsh in Entered(j, status).trail <==> CheckingSsh in j.trail || status == CheckingSsh
    ensures j.trail <= Entered(j, status).trail
  {}

  /** The store after one compare-and-set of a job, with its event and, at the
      end, the loss of its password. */
  function MoveJob(s: Store, id: nat, job: Job, e: JobEvent): Store {
    Store(s.jobs[id := job], s.order, s.events[id := EventsOf(s, id) + [e]],
          if Terminal(job.status) then s.secrets - {id} else s.secrets)
  }

  lemma MoveOk(s: Store, id: nat, job: Job, e: JobEvent)
    requires StoreOk(s) && id in s.jobs && JobAdvances(s.jobs[id], job) && JobOk(job, EventsOf(s, id) + [e])
    ensures StoreOk(MoveJob(s, id, job, e)) && Advances(s, MoveJob(s, id, job, e))
  {
    MoveListed(s, id, job, e);
    MoveSecrets(s, id, job, e);
    MoveAdvances(s, id, job, e);
    hide JobOk, Listed, SecretsOk, JobAdvances, Advances;
    forall other | other in s.jobs ensures JobOk(MoveJob(s, id, job, e).jobs[other], EventsOf(MoveJob(s, id, job, e), other)) {
      MoveOther(s, id, job, e, other);
    }
  }

  lemma MoveOther(s: Store, id: nat, job: Job, e: JobEvent, other: nat)
    requires id in s.jobs && other in s.jobs
    ensures var s' := MoveJob(s, id, job, e);
            && s'.jobs.Keys == s.jobs.Keys
            && s'.jobs[other] == (if other == id then job else s.jobs[other])
            && EventsOf(s', other) == if other == id then EventsOf(s, id) + [e] else EventsOf(s, other)
  {}

  lemma MoveAdvances(s: Store, id: nat, job: Job, e: JobEvent)
    requires id in s.jobs && JobAdvances(s.jobs[id], job)
    ensures Advances(s, MoveJob(s, id, job, e))
  {
    Standstill();
    hide JobAdvances;
  }

  lemma MoveListed(s: Store, id: nat, job: Job, e: JobEvent)
    requires Listed(s) && id in s.jobs
    ensures Listed(MoveJob(s, id, job, e))
  {
    assert MoveJob(s, id, job, e).events.Keys == MoveJob(s, id, job, e).jobs.Keys;
  }

  lemma MoveSecrets(s: Store, id: nat, job: Job, e: JobEvent)
    requires SecretsOk(s) && id in s.jobs
    ensures SecretsOk(MoveJob(s, id, job, e))
  {
    hide Terminal;
  }

  lemma Standstill()
    ensures forall j :: JobAdvances(j, j)
  {}

  lemma StepJobOk(j: Job, evs: seq<JobEvent>, status: Status, e: JobEvent)
    requires JobOk(j, evs) && Rank(j.status) < Rank(status) && e.step == status
    requires !Terminal(status) && status != CheckingSsh
    ensures JobOk(Entered(j, status), evs + [e]) && JobAdvances(j, Entered(j, status))
  {
    EnteredOk(j, status);
    EndingsSnoc(evs, e);
    EndsBelow(j.status, status);
    hide Rank, Endings, TrailOk;
  }

  lemma EndsBelow(a: Status, b: Status)
    requires Rank(a) < Rank(b)
    ensures !Terminal(a)
  {}

  lemma ClaimJobOk(j: Job, evs: seq<JobEvent>, e: JobEvent, now: int)
    requires JobOk(j, evs) && j.status.Queued? && e.step == CheckingSsh
    ensures var j' := Entered(j, CheckingSsh).(startedAt := Some(now)); JobOk(j', evs + [e]) && JobAdvances(j, j')
  {
    EnteredOk(j, CheckingSsh);
    EndingsSnoc(evs, e);
    hide Endings, TrailOk;
  }

  lemma EndJobOk(j: Job, evs: seq<JobEvent>, status: Status, e: JobEvent, now: int, node: Option<nat>, error: Option<string>)
    requires JobOk(j, evs) && !Terminal(j.status) && Terminal(status) && e.step == status
    requires (node.Some? <==> status.Success?) && (error.Some? <==> status.Failed?)
    ensures var j' := Finished(j, status, now).(nodeId := node, error := error);
            JobOk(j', evs + [e]) && JobAdvances(j, j')
  {
    EndsAbove(j.status, status);
    EnteredOk(j, status);
    EndingsSnoc(evs, e);
    NotClaimedNow(status);
    hide Endings, TrailOk, Rank;
    assert Endings(evs) == [] && [] + [status] == [status];
  }

  lemma NotClaimedNow(status: Status)
    requires Terminal(status)
    ensures status != CheckingSsh
  {}

  lemma EndsAbove(a: Status, b: Status)
    requires !Terminal(a) && Terminal(b)
    ensures Rank(a) < Rank(b)
  {}

  lemma NewJobOk(options: Options, now: int)
    ensures JobOk(Job(now, options, Queued, [Queued], None, None, None, None), [JobEvent(Info, Queued, "queued")])
  {
    EndingsSnoc([], JobEvent(Info, Queued, "queued"));
    assert [] + [JobEvent(Info, Queued, "queued")] == [JobEvent(Info, Queued, "queued")];
  }

  lemma CreateOk(s: Store, id: nat, options: Options, secret: string, enabled: bool, now: int)
    requires StoreOk(s) && id !in s.jobs
    ensures var s' := Create(s, id, options, secret, enabled, now).0; StoreOk(s') && Advances(s, s')
  {
    hide TrimSpace, JobOk, JobAdvances, Listed, SecretsOk, Advances;
    NewJobOk(options, now);
    NotListed(s, id);
    var s' := Create(s, id, options, secret, enabled, now).0;
    if TrimSpace(secret) != "" && enabled {
      assert [] + [JobEvent(Info, Queued, "queued")] == [JobEvent(Info, Queued, "queued")];
      CreateListed(s, s', id);
      CreateAdvances(s, s', id);
      CreateJobs(s, s', id);
    } else {
      NothingAdvances(s);
    }
  }

  lemma NothingAdvances(s: Store)
    ensures Advances(s, s)
  {
    Standstill();
    hide JobAdvances;
  }

  lemma CreateAdvances(s: Store, s': Store, id: nat)
    requires id !in s.jobs && id in s'.jobs && s'.jobs == s.jobs[id := s'.jobs[id]]
    ensures Advances(s, s')
  {
    Standstill();
    hide JobAdvances;
  }

  lemma CreateJobs(s: Store, s': Store, id: nat)
    requires (forall other :: other in s.jobs ==> JobOk(s.jobs[other], EventsOf(s, other))) && id !in s.jobs && id in s'.jobs
    requires s'.jobs == s.jobs[id := s'.jobs[id]] && s'.events == s.events[id := EventsOf(s', id)] && JobOk(s'.jobs[id], EventsOf(s', id))
    ensures forall other :: other in s'.jobs ==> JobOk(s'.jobs[other], EventsOf(s', other))
  {
    hide JobOk;
    forall other | other in s'.jobs ensures JobOk(s'.jobs[other], EventsOf(s', other)) {
      if other != id { assert EventsOf(s', other) == EventsOf(s, other); }
    }
  }

  lemma NotListed(s: Store, id: nat)
    requires Listed(s) && id !in s.jobs
    ensures EventsOf(s, id) == []
  {}

  lemma CreateListed(s: Store, s': Store, id: nat)
    requires Listed(s) && SecretsOk(s) && id !in s.jobs && s'.order == s.order + [id]
    requires s'.jobs.Keys == s.jobs.Keys + {id} && s'.events.Keys == s.events.Keys + {id} && s'.secrets.Keys == s.secrets.Keys + {id}
    requires (forall other :: other in s.jobs ==> s'.jobs[other] == s.jobs[other]) && id in s'.jobs && !Terminal(s'.jobs[id].status)
    ensures Listed(s') && SecretsOk(s')
  {
    assert s'.order[|s.order|] == id && forall i :: 0 <= i < |s.order| ==> s'.order[i] == s.order[i];
    forall other ensures other in s'.order <==> other in s'.jobs {
      assert other in s.order <==> other in s.jobs;
    }
  }

  lemma ClaimOk(s: Store, id: nat, now: int)
    requires StoreOk(s)
    ensures var s' := Claim(s, id, now).0; StoreOk(s') && Advances(s, s')
  {
    Standstill();
    if CanMove(s, id, {Queued}) {
      var e := JobEvent(Info, CheckingSsh, "checking");
      ClaimJobOk(s.jobs[id], EventsOf(s, id), e, now);
      hide JobOk, JobAdvances, Listed, SecretsOk, NonTerminal;
      MoveOk(s, id, Entered(s.jobs[id], CheckingSsh).(startedAt := Some(now)), e);
    }
  }

  lemma SetStepOk(s: Store, id: nat, expected: set<Status>, status: Status, message: string)
    requires StoreOk(s) && !Terminal(status) && status != CheckingSsh
    requires forall e :: e in expected ==> Rank(e) < Rank(status)
    ensures var s' := SetStep(s, id, expected, status, message).0; StoreOk(s') && Advances(s, s')
  {
    Standstill();
    if CanMove(s, id, expected) {
      var e := JobEvent(Info, status, message);
      StepJobOk(s.jobs[id], EventsOf(s, id), status, e);
      hide JobOk, JobAdvances, Listed, SecretsOk, NonTerminal;
      MoveOk(s, id, Entered(s.jobs[id], status), e);
    }
  }

  lemma ForgetOk(s: Store, id: nat)
    requires StoreOk(s)
    ensures StoreOk(Forget(s, id)) && Advances(s, Forget(s, id))
  {
    hide JobOk;
  }

  /** Ending a job in one of the three ways. */
  lemma EndOk(s: Store, id: nat, now: int, status: Status, e: JobEvent, node: Option<nat>, error: Option<string>)
    requires StoreOk(s) && CanMove(s, id, NonTerminal()) && Terminal(status) && e.step == status
    requires (node.Some? <==> status.Success?) && (error.Some? <==> status.Failed?)
    ensures var s' := MoveJob(s, id, Finished(s.jobs[id], status, now).(nodeId := node, error := error), e);
            StoreOk(s') && Advances(s, s')
  {
    EndJobOk(s.jobs[id], EventsOf(s, id), status, e, now, node, error);
    hide JobOk, JobAdvances, Listed, SecretsOk, NonTerminal;
    MoveOk(s, id, Finished(s.jobs[id], status, now).(nodeId := node, error := error), e);
  }

  lemma CancelOk(s: Store, id: nat, now: int)
    requires StoreOk(s)
    ensures var s' := Cancel(s, id, now).0; StoreOk(s') && Advances(s, s')
  {
    ForgetOk(s, id);
    Standstill();
    if CanMove(s, id, NonTerminal()) {
      NothingYet(s.jobs[id], EventsOf(s, id));
      hide JobOk, JobAdvances, Listed, SecretsOk, NonTerminal;
      EndOk(s, id, now, Cancelled, JobEvent(Warning, Cancelled, "cancelled"), None, None);
    }
  }

  lemma FinishSuccessOk(s: Store, id: nat, node: nat, now: int)
    requires StoreOk(s)
    ensures var s' := FinishSuccess(s, id, node, now).0; StoreOk(s') && Advances(s, s')
  {
    ForgetOk(s, id);
    if CanMove(s, id, {Verifying}) {
      NothingYet(s.jobs[id], EventsOf(s, id));
      hide JobOk, JobAdvances, Listed, SecretsOk, NonTerminal;
      EndOk(s, id, now, Success, JobEvent(Info, Success, "installed"), Some(node), None);
    }
  }

  lemma FinishFailedOk(s: Store, id: nat, message: string, now: int)
    requires StoreOk(s)
    ensures var s' := FinishFailed(s, id, message, now).0; StoreOk(s') && Advances(s, s')
  {
    ForgetOk(s, id);
    if CanMove(s, id, NonTerminal()) {
      NothingYet(s.jobs[id], EventsOf(s, id));
      hide JobOk, JobAdvances, Listed, SecretsOk, NonTerminal;
      EndOk(s, id, now, Failed, JobEvent(Error, Failed, message), None, Some(message));
    }
  }

  lemma NothingYet(j: Job, evs: seq<JobEvent>)
    requires JobOk(j, evs) && !Terminal(j.status)
    ensures j.nodeId.None? && j.error.None?
  {}

  /** A trail never holds more than six statuses, so no job ever makes more than
      five transitions, and only its last one can be terminal. */
  lemma AtMostFive(j: Job)
    requires TrailOk(j)
    ensures |j.trail| <= 6
    ensures forall i :: 0 <= i < |j.trail| - 1 ==> !Terminal(j.trail[i])
  {
    TrailRanks(j, |j.trail| - 1);
    forall i | 0 <= i < |j.trail| - 1 ensures !Terminal(j.trail[i]) {
      assert Rank(j.trail[i]) < Rank(j.trail[i + 1]);
    }
  }

  lemma {:induction false} TrailRanks(j: Job, i: nat)
    requires TrailOk(j) && i < |j.trail|
    ensures Rank(j.trail[i]) >= i + 1
  {
    if i > 0 {
      TrailRanks(j, i - 1);
      assert Rank(j.trail[i - 1]) < Rank(j.trail[i]);
    }
  }

  // ----- Oldest first -----

  /** The job at position i is queued, no queued job was created before it, and
      those created at the same time come after it. */
  ghost predicate FirstAmong(jobs: map<nat, Job>, order: seq<nat>, i: nat) {
    && i < |order| && order[i] in jobs && jobs[order[i]].status.Queued?
    && forall k :: 0 <= k < |order| && order[k] in jobs && jobs[order[k]].status.Queued? ==>
         || jobs[order[i]].created < jobs[order[k]].created
         || (jobs[order[i]].created == jobs[order[k]].created && i <= k)
  }

  /** Claiming takes exactly the job that is first in this sense, if any. */
  lemma {:induction false} OldestFirst(jobs: map<nat, Job>, order: seq<nat>)
    ensures var r := Oldest(jobs, order);
            && (r.None? ==> forall id :: id in order && id in jobs ==> !jobs[id].status.Queued?)
            && (r.Some? ==> (exists i: nat :: FirstAmong(jobs, order, i) && order[i] == r.value))
  {
    if order != [] {
      var n := |order| - 1;
      var init, last := order[..n], order[n];
      OldestFirst(jobs, init);
      var best := Oldest(jobs, init);
      if best.Some? {
        var i: nat :| FirstAmong(jobs, init, i) && init[i] == best.value;
        assert forall k :: 0 <= k < n ==> init[k] == order[k];
        if Better(jobs, best, last) { assert FirstAmong(jobs, order, n); } else { assert FirstAmong(jobs, order, i); }
      } else if Better(jobs, best, last) {
        assert forall k :: 0 <= k < n ==> order[k] in init;
        assert FirstAmong(jobs, order, n);
      }
    }
  }

  /** Whatever happens after a claim, no claim of the same job succeeds again:
      the compare-and-set makes this true for any number of claimants. */
  lemma ClaimedOnce(s: Store, id: nat, now: int, s': Store, later: int)
    requires Claim(s, id, now).1 && Advances(Claim(s, id, now).0, s')
    ensures !Claim(s', id, later).1
  {
    var j := Claim(s, id, now).0.jobs[id];
    assert JobAdvances(j, s'.jobs[id]) && j.status == CheckingSsh;
  }

  /** Once a transition has happened, no later one that expects this or an
      earlier status can: of several that race from one status, one wins. */
  lemma OneWinner(s: Store, id: nat, expected: set<Status>, status: Status, message: string,
                  s': Store, later: set<Status>, next: Status, note: string)
    requires SetStep(s, id, expected, status, message).1 && Advances(SetStep(s, id, expected, status, message).0, s')
    requires forall x :: x in later ==> Rank(x) < Rank(status)
    ensures !SetStep(s', id, later, next, note).1
  {
    var s1 := SetStep(s, id, expected, status, message).0;
    assert s1.jobs[id].status == status && JobAdvances(s1.jobs[id], s'.jobs[id]);
    hide Rank;
  }
}
