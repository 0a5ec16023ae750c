/**
 Where the records of a job come from: its options and its three times are those
 of the steps that created, claimed and ended it, and every status that it has
 entered has an event.
 */
module SetupRecords {
  import opened Wrappers
  import opened SetupJobs
  import opened SetupMachine
  import opened SetupTheorems
  import opened SetupTraces

  // ----- One job changes -----

  /** Only this job changed: it kept what it was created and claimed with, it
      ended now if it ended, and each status it entered got an event. */
  ghost predicate Moved(s: Store, s': Store, id: nat, now: int) {
    && s'.jobs.Keys == s.jobs.Keys && (forall other :: other in s.jobs && other != id ==> s'.jobs[other] == s.jobs[other])
    && (forall other :: other != id ==> EventsOf(s', other) == EventsOf(s, other))
    && (id in s.jobs ==> Kept(s.jobs[id], s'.jobs[id], now) && EventsOf(s, id) <= EventsOf(s', id)
                         && (Covered(s.jobs[id].trail, EventsOf(s, id)) ==> Covered(s'.jobs[id].trail, EventsOf(s', id))))
  }

  predicate Kept(j: Job, j': Job, now: int) {
    && j'.created == j.created && j'.options == j.options && j'.startedAt == j.startedAt
    && (j'.finishedAt == j.finishedAt || (j.finishedAt.None? && j'.finishedAt == Some(now)))
  }

  /** Each of these statuses is named by an event. */
  ghost predicate Covered(trail: seq<Status>, evs: seq<JobEvent>) {
    forall st :: st in trail ==> Named(st, evs)
  }

  ghost predicate Named(st: Status, evs: seq<JobEvent>) {
    exists k :: 0 <= k < |evs| && evs[k].step == st
  }

  lemma NamedMore(st: Status, evs: seq<JobEvent>, e: JobEvent)
    ensures Named(st, evs + [e]) <==> Named(st, evs) || e.step == st
  {
    var all := evs + [e];
    if Named(st, evs) {
      var k :| 0 <= k < |evs| && evs[k].step == st;
      assert all[k].step == st;
    }
    assert all[|evs|] == e;
  }

  lemma MovedTrans(a: Store, b: Store, c: Store, id: nat, now: int)
    requires Moved(a, b, id, now) && Moved(b, c, id, now)
    ensures Moved(a, c, id, now)
  {
    hide Covered;
  }

  lemma NotMoved(s: Store, id: nat, now: int)
    ensures Moved(s, s, id, now)
  {
    hide Covered;
  }

  lemma SameJobs(s: Store, s': Store, id: nat, now: int)
    requires s'.jobs == s.jobs && s'.events == s.events
    ensures Moved(s, s', id, now)
  {
    hide Covered;
  }

  lemma NoteMoved(s: Store, id: nat, level: Level, step: Status, now: int)
    ensures Moved(s, Note(s, id, level, step), id, now)
  {
    hide Named;
    forall st { NamedMore(st, EventsOf(s, id), JobEvent(level, step, "note")); }
  }

  /** The job enters a status with an event of its name. */
  lemma EnteredMoved(s: Store, s': Store, id: nat, j: Job, e: JobEvent, now: int)
    requires id in s.jobs && s'.jobs == s.jobs[id := j] && s'.events == s.events[id := EventsOf(s, id) + [e]]
    requires Kept(s.jobs[id], j, now) && j.trail == s.jobs[id].trail + [e.step]
    ensures Moved(s, s', id, now)
  {
    hide Named;
    forall st { NamedMore(st, EventsOf(s, id), e); }
  }

  lemma StepMoved(s: Store, id: nat, expected: set<Status>, status: Status, message: string, now: int)
    ensures Moved(s, SetStep(s, id, expected, status, message).0, id, now)
  {
    hide Moved;
    NotMoved(s, id, now);
    if CanMove(s, id, expected) {
      EnteredMoved(s, SetStep(s, id, expected, status, message).0, id, Entered(s.jobs[id], status), JobEvent(Info, status, message), now);
    }
  }

  lemma FailMoved(s: Store, id: nat, message: string, now: int)
    requires id in s.jobs ==> (s.jobs[id].finishedAt.Some? <==> Terminal(s.jobs[id].status))
    ensures Moved(s, FinishFailed(s, id, message, now).0, id, now)
  {
    hide Moved;
    SameJobs(s, Forget(s, id), id, now);
    if CanMove(s, id, NonTerminal()) {
      var j := Finished(s.jobs[id], Failed, now).(error := Some(message));
      EnteredMoved(s, FinishFailed(s, id, message, now).0, id, j, JobEvent(Error, Failed, message), now);
    }
  }

  lemma SucceedMoved(s: Store, id: nat, node: nat, now: int)
    requires id in s.jobs ==> (s.jobs[id].finishedAt.Some? <==> Terminal(s.jobs[id].status))
    ensures Moved(s, FinishSuccess(s, id, node, now).0, id, now)
  {
    hide Moved;
    SameJobs(s, Forget(s, id), id, now);
    if CanMove(s, id, {Verifying}) {
      var j := Finished(s.jobs[id], Success, now).(nodeId := Some(node));
      EnteredMoved(s, FinishSuccess(s, id, node, now).0, id, j, JobEvent(Info, Success, "installed"), now);
    }
  }

  lemma CancelMoved(s: Store, id: nat, now: int)
    requires id in s.jobs ==> (s.jobs[id].finishedAt.Some? <==> Terminal(s.jobs[id].status))
    ensures Moved(s, Cancel(s, id, now).0, id, now)
  {
    hide Moved;
    NotMoved(s, id, now);
    if CanMove(s, id, NonTerminal()) {
      EnteredMoved(s, Cancel(s, id, now).0, id, Finished(s.jobs[id], Cancelled, now), JobEvent(Warning, Cancelled, "cancelled"), now);
    }
  }

  // ----- A worker's step -----

  predicate EndTimed(s: Store, id: nat) {
    id in s.jobs ==> (s.jobs[id].finishedAt.Some? <==> Terminal(s.jobs[id].status))
  }

  lemma LaunchMoved(s: Store, nodes: map<nat, Node>, id: nat, preflight: bool, from: Status, now: int, n: nat)
    requires EndTimed(s, id)
    ensures Moved(s, LaunchAgent(s, nodes, id, preflight, now).store, id, now)
    ensures Moved(s, LaunchVpn(s, nodes, id).store, id, now) && Moved(s, LaunchHealth(s, nodes, id, from, n).store, id, now)
  {
    var s1, s2, s3 := SetStep(s, id, {CheckingSsh}, InstallingAgent, "installing agent"),
                      SetStep(s, id, {InstallingAgent}, InstallingVpn, "checking vpn"), SetStep(s, id, {from}, Verifying, "verifying");
    assert !s1.1 ==> s1.0 == s;
    hide Moved, SetStep, Note, FinishFailed, Forget, EndTimed;
    StepMoved(s, id, {CheckingSsh}, InstallingAgent, "installing agent", now);
    StepMoved(s, id, {InstallingAgent}, InstallingVpn, "checking vpn", now);
    StepMoved(s, id, {from}, Verifying, "verifying", now);
    NoteTrans(s, s1.0, id, Info, CheckingSsh, now);
    NoteTrans(s, s2.0, id, Info, InstallingAgent, now);
    NoteTrans(s, s3.0, id, Info, from, now);
    ForgetTrans(s, s2.0, id, now);
    ForgetTrans(s, s3.0, id, now);
    EndsIn(s, id, CrashMessage, now);
  }

  lemma NoteTrans(s: Store, s1: Store, id: nat, level: Level, step: Status, now: int)
    requires Moved(s, s1, id, now)
    ensures Moved(s, Note(s1, id, level, step), id, now)
  {
    hide Moved;
    NoteMoved(s1, id, level, step, now);
    MovedTrans(s, s1, Note(s1, id, level, step), id, now);
  }

  lemma ForgetTrans(s: Store, s1: Store, id: nat, now: int)
    requires Moved(s, s1, id, now)
    ensures Moved(s, Forget(s1, id), id, now)
  {
    hide Moved;
    SameJobs(s1, Forget(s1, id), id, now);
    MovedTrans(s, s1, Forget(s1, id), id, now);
  }

  lemma EndsIn(s: Store, id: nat, m: string, now: int)
    requires EndTimed(s, id)
    ensures Moved(s, FinishFailed(s, id, m, now).0, id, now)
  {
    FailMoved(s, id, m, now);
    hide Moved;
  }

  lemma ResumeMoved(s: Store, nodes: map<nat, Node>, k: Worker, now: int, n: nat)
    requires Waiting(k) && k.task.Some? && EndTimed(s, k.job)
    ensures Moved(s, Resume(s, nodes, k, now, n).store, k.job, now)
  {
    hide Moved, FinishFailed, FinishSuccess, LaunchAgent, LaunchVpn, LaunchHealth, Forget, EndTimed;
    var id := k.job;
    forall m { EndsIn(s, id, m, now); }
    NotMoved(s, id, now);
    ForgetTrans(s, s, id, now);
    LaunchMoved(s, nodes, id, true, InstallingAgent, now, n);
    LaunchMoved(s, nodes, id, true, InstallingVpn, now, n);
    if k.phase.HealthPhase? { SuccessIn(s, id, k.phase.node, now); }
  }

  lemma SuccessIn(s: Store, id: nat, n: nat, now: int)
    requires EndTimed(s, id)
    ensures Moved(s, FinishSuccess(s, id, n, now).0, id, now)
  {
    SucceedMoved(s, id, n, now);
    hide Moved;
  }

  lemma BeginMoved(s: Store, nodes: map<nat, Node>, id: nat, now: int)
    requires EndTimed(s, id)
    ensures Moved(s, Begin(s, nodes, id, now).store, id, now)
  {
    assert EndTimed(Note(s, id, Warning, CheckingSsh), id);
    hide Moved, FinishFailed, LaunchAgent, Note, EndTimed;
    EndsIn(s, id, "password no longer held", now);
    NotMoved(s, id, now);
    NoteMoved(s, id, Warning, CheckingSsh, now);
    var s1 := Note(s, id, Warning, CheckingSsh);
    LaunchMoved(s1, nodes, id, false, CheckingSsh, now, 0);
    MovedTrans(s, s1, LaunchAgent(s1, nodes, id, false, now).store, id, now);
  }

  // ----- Steps -----

  /** The job as it was, or as the one step at this time may leave it. */
  ghost predicate After(s: Sys, a: Action, now: int, s': Sys, id: nat)
    requires id in s'.store.jobs
  {
    var j' := s'.store.jobs[id];
    && (Covered(j'.trail, EventsOf(s'.store, id)) || (id in s.store.jobs && !Covered(s.store.jobs[id].trail, EventsOf(s.store, id))))
    && if id !in s.store.jobs then
         && a.CreateJob? && a.id == id && j'.options == a.options && j'.created == now && j'.startedAt.None? && j'.finishedAt.None?
       else
         var j := s.store.jobs[id];
         if a.ClaimJob? && a.id == id then Kept(j.(startedAt := Some(now)), j', now) else Kept(j, j', now)
  }

  lemma SameAfter(s: Sys, a: Action, now: int, s': Sys, id: nat)
    requires id in s.store.jobs && id in s'.store.jobs && s'.store.jobs[id] == s.store.jobs[id]
    requires EventsOf(s'.store, id) == EventsOf(s.store, id) && !(a.ClaimJob? && a.id == id)
    ensures After(s, a, now, s', id)
  {
    hide Covered;
  }

  lemma MovedAfter(s: Sys, a: Action, now: int, s': Sys, id: nat, moved: nat)
    requires Moved(s.store, s'.store, moved, now) && id in s'.store.jobs && !a.ClaimJob?
    ensures After(s, a, now, s', id)
  {
    hide Covered;
    if id != moved { assert s'.store.jobs[id] == s.store.jobs[id]; }
  }

  lemma EndsTimed(s: Sys)
    requires Inv(s)
    ensures forall id :: EndTimed(s.store, id)
  {
    hide Holding, PhasesOk, NodesKnown, Quarantine, Paths, TrailOk, Endings;
    forall id ensures EndTimed(s.store, id) {
      assert id in s.store.jobs ==> JobOk(s.store.jobs[id], EventsOf(s.store, id));
    }
  }

  lemma CreateAfter(s: Sys, a: Action, now: int, id: nat)
    requires Inv(s) && Enabled(s, a) && a.CreateJob? && id in Step(s, a, now).store.jobs
    ensures After(s, a, now, Step(s, a, now), id)
  {
    var s' := Step(s, a, now);
    NoEvents(s, a.id);
    CreateMeans(s.store, a.id, a.options, a.secret, a.enabled, now);
    hide Inv, Text.TrimSpace;
    if id in s.store.jobs {
      SameAfter(s, a, now, s', id);
    } else {
      assert EventsOf(s'.store, id) == [JobEvent(Info, Queued, "queued")];
      FirstEvent();
    }
  }

  lemma NoEvents(s: Sys, id: nat)
    requires Inv(s) && id !in s.store.jobs
    ensures EventsOf(s.store, id) == []
  {
    hide Holding, PhasesOk, NodesKnown, Quarantine, Paths, JobOk, SecretsOk;
    assert s.store.events.Keys == s.store.jobs.Keys;
  }

  lemma FirstEvent()
    ensures Covered([Queued], [JobEvent(Info, Queued, "queued")])
  {
    assert [JobEvent(Info, Queued, "queued")][0].step == Queued;
  }

  lemma ClaimAfter(s: Sys, w: nat, claimed: nat, now: int, id: nat)
    requires Inv(s) && Enabled(s, ClaimJob(w, claimed)) && id in Step(s, ClaimJob(w, claimed), now).store.jobs
    ensures After(s, ClaimJob(w, claimed), now, Step(s, ClaimJob(w, claimed), now), id)
  {
    EndsTimed(s);
    ClaimedOnly(s.store, claimed, now);
    hide Inv, Begin, Claim, Moved, ClaimOnly, EndTimed, After, CanMove;
    var s1 := Claim(s.store, claimed, now).0;
    BeginMoved(s1, s.nodes, claimed, now);
    ClaimThen(s, w, claimed, now, s1, Step(s, ClaimJob(w, claimed), now), id);
  }

  /** What the claim itself does to the store. */
  ghost predicate ClaimOnly(s: Store, s1: Store, id: nat, now: int) {
    && id in s.jobs && s1.jobs.Keys == s.jobs.Keys && (forall other :: other in s.jobs && other != id ==> s1.jobs[other] == s.jobs[other])
    && (forall other :: other != id ==> EventsOf(s1, other) == EventsOf(s, other))
    && s1.jobs[id] == Entered(s.jobs[id], CheckingSsh).(startedAt := Some(now))
    && (Covered(s.jobs[id].trail, EventsOf(s, id)) ==> Covered(s1.jobs[id].trail, EventsOf(s1, id)))
  }

  lemma ClaimedOnly(s: Store, id: nat, now: int)
    requires CanMove(s, id, {Queued}) && EndTimed(s, id)
    ensures var s1 := Claim(s, id, now).0; ClaimOnly(s, s1, id, now) && EndTimed(s1, id)
  {
    hide Named;
    forall st { NamedMore(st, EventsOf(s, id), JobEvent(Info, CheckingSsh, "checking")); }
  }

  lemma ClaimThen(s: Sys, w: nat, claimed: nat, now: int, s1: Store, s': Sys, id: nat)
    requires ClaimOnly(s.store, s1, claimed, now) && Moved(s1, s'.store, claimed, now) && id in s'.store.jobs
    ensures After(s, ClaimJob(w, claimed), now, s', id)
  {
    hide Covered;
  }

  lemma StepAfter(s: Sys, a: Action, now: int, id: nat)
    requires Inv(s) && Enabled(s, a) && id in Step(s, a, now).store.jobs
    ensures After(s, a, now, Step(s, a, now), id)
  {
    EndsTimed(s);
    hide Inv, After, Moved, EndTimed, Resume, Begin, Create, Cancel, Claim, Checked, SetDisabled, SetAvailable, CanMove;
    match a {
      case CreateJob(new_id, options, secret, enabled) => CreateAfter(s, a, now, id);
      case ClaimJob(w, claimed) => ClaimAfter(s, w, claimed, now, id);
      case CancelJob(other) =>
        assert EndTimed(s.store, other);
        CancelIn(s.store, other, now);
        MovedAfter(s, a, now, Step(s, a, now), id, other);
      case WakeUp(w, n) =>
        ResumeMoved(s.store, s.nodes, s.workers[w], now, n);
        MovedAfter(s, a, now, Step(s, a, now), id, s.workers[w].job);
      case _ => QuietAfter(s, a, now, id);
    }
  }

  lemma QuietAfter(s: Sys, a: Action, now: int, id: nat)
    requires Enabled(s, a) && !a.CreateJob? && !a.ClaimJob? && !a.CancelJob? && !a.WakeUp? && id in Step(s, a, now).store.jobs
    ensures After(s, a, now, Step(s, a, now), id)
  {
    hide After, Checked, SetDisabled, SetAvailable, CanMove;
    assert Step(s, a, now).store == s.store;
    SameAfter(s, a, now, Step(s, a, now), id);
  }

  lemma CancelIn(s: Store, id: nat, now: int)
    requires EndTimed(s, id)
    ensures Moved(s, Cancel(s, id, now).0, id, now)
  {
    CancelMoved(s, id, now);
    hide Moved;
  }

  // ----- Runs -----

  predicate CreatedAt(acts: seq<Action>, ts: seq<int>, i: nat, id: nat, j: Job) {
    i < |acts| && i < |ts| && acts[i].CreateJob? && acts[i].id == id && acts[i].options == j.options && ts[i] == j.created
  }

  predicate ClaimedAt(acts: seq<Action>, ts: seq<int>, i: nat, id: nat, t: int) {
    i < |acts| && i < |ts| && acts[i].ClaimJob? && acts[i].id == id && ts[i] == t
  }

  predicate EndedAt(ss: seq<Sys>, ts: seq<int>, i: nat, id: nat, t: int) {
    && i + 1 < |ss| && i < |ts| && ts[i] == t && id in ss[i + 1].store.jobs && Terminal(ss[i + 1].store.jobs[id].status)
    && (id in ss[i].store.jobs ==> !Terminal(ss[i].store.jobs[id].status))
  }

  /** The job's options and times are those of steps among the first k. */
  ghost predicate Recorded(ss: seq<Sys>, acts: seq<Action>, ts: seq<int>, k: nat, id: nat, j: Job) {
    && (exists i: nat :: i < k && CreatedAt(acts, ts, i, id, j))
    && (j.startedAt.Some? ==> exists i: nat :: i < k && ClaimedAt(acts, ts, i, id, j.startedAt.value))
    && (j.finishedAt.Some? ==> exists i: nat :: i < k && EndedAt(ss, ts, i, id, j.finishedAt.value))
  }

  lemma RecordedMore(ss: seq<Sys>, acts: seq<Action>, ts: seq<int>, k: nat, id: nat, j: Job, j': Job)
    requires Recorded(ss, acts, ts, k, id, j) && k < |acts| && |ts| == |acts| && |ss| == |acts| + 1
    requires j'.options == j.options && j'.created == j.created
    requires j'.startedAt == j.startedAt || (ClaimedAt(acts, ts, k, id, ts[k]) && j'.startedAt == Some(ts[k]))
    requires j'.finishedAt == j.finishedAt || (EndedAt(ss, ts, k, id, ts[k]) && j'.finishedAt == Some(ts[k]))
    ensures Recorded(ss, acts, ts, k + 1, id, j')
  {
    hide ClaimedAt, EndedAt;
    var i: nat :| i < k && CreatedAt(acts, ts, i, id, j);
    assert CreatedAt(acts, ts, i, id, j');
    hide CreatedAt;
  }

  /** In every run each job has the options and the time of the step that created
      it, the time of the step that claimed it, the time of the step in which it
      ended, and for each status that it has entered an event of that name. */
  lemma {:induction false} JobsAreRecorded(ss: seq<Sys>, acts: seq<Action>, ts: seq<int>, k: nat, id: nat)
    requires Trace(ss, acts, ts) && Init(ss[0]) && k < |ss| && id in ss[k].store.jobs
    ensures Recorded(ss, acts, ts, k, id, ss[k].store.jobs[id])
    ensures Covered(ss[k].store.jobs[id].trail, EventsOf(ss[k].store, id))
  {
    hide Step, Enabled, Inv, Covered, Recorded;
    if k > 0 {
      var i := k - 1;
      assert Enabled(ss[i], acts[i]) && ss[i + 1] == Step(ss[i], acts[i], ts[i]);
      TraceInv(ss, acts, ts, i);
      TraceInv(ss, acts, ts, k);
      EndsTimed(ss[i]);
      EndsTimed(ss[k]);
      StepAfter(ss[i], acts[i], ts[i], id);
      hide Trace, Init;
      if id in ss[i].store.jobs {
        JobsAreRecorded(ss, acts, ts, i, id);
        StaysRecorded(ss, acts, ts, i, id);
      } else {
        IsCreated(ss, acts, ts, i, id);
      }
    }
  }

  lemma StaysRecorded(ss: seq<Sys>, acts: seq<Action>, ts: seq<int>, i: nat, id: nat)
    requires i < |acts| && |ts| == |acts| && |ss| == |acts| + 1 && id in ss[i].store.jobs && id in ss[i + 1].store.jobs
    requires After(ss[i], acts[i], ts[i], ss[i + 1], id) && Recorded(ss, acts, ts, i, id, ss[i].store.jobs[id])
    requires EndTimed(ss[i].store, id) && EndTimed(ss[i + 1].store, id)
    ensures Recorded(ss, acts, ts, i + 1, id, ss[i + 1].store.jobs[id])
  {
    hide Recorded, Covered;
    RecordedMore(ss, acts, ts, i, id, ss[i].store.jobs[id], ss[i + 1].store.jobs[id]);
  }

  lemma IsCreated(ss: seq<Sys>, acts: seq<Action>, ts: seq<int>, i: nat, id: nat)
    requires i < |acts| && |ts| == |acts| && |ss| == |acts| + 1 && id !in ss[i].store.jobs && id in ss[i + 1].store.jobs
    requires After(ss[i], acts[i], ts[i], ss[i + 1], id)
    ensures Recorded(ss, acts, ts, i + 1, id, ss[i + 1].store.jobs[id])
  {
    hide Covered;
    assert CreatedAt(acts, ts, i, id, ss[i + 1].store.jobs[id]);
  }
}
