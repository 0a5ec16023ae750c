/**
 What the order of the steps decides: whether a stop ends its worker, whether a
 phase runs for a cancelled job, whether the code trips over a job that has
 gone, and who made a node available. Each deviation has a run that shows it.
 */
module SetupTraces {
  import opened Wrappers
  import opened Text
  import opened SetupJobs
  import opened SetupMachine
  import opened SetupTheorems

  /** Consecutive steps and their times. */
  ghost predicate Trace(ss: seq<Sys>, acts: seq<Action>, ts: seq<int>) {
    && |ss| == |acts| + 1 && |ts| == |acts|
    && forall i :: 0 <= i < |acts| ==> Enabled(ss[i], acts[i]) && ss[i + 1] == Step(ss[i], acts[i], ts[i])
  }

  lemma TraceRun(ss: seq<Sys>, acts: seq<Action>, ts: seq<int>)
    requires Trace(ss, acts, ts) && Init(ss[0])
    ensures Run(ss)
  {
    hide Init, Enabled, Step;
    forall i | 0 <= i < |ss| - 1 ensures SysNext(ss[i], ss[i + 1]) {
      assert Enabled(ss[i], acts[i]) && ss[i + 1] == Step(ss[i], acts[i], ts[i]);
    }
  }

  // ----- Steps of others -----

  /** Steps in which the worker itself goes on. */
  predicate Own(a: Action, w: nat) {
    (a.ClaimJob? || a.WakeUp?) && a.w == w
  }

  /** What may have happened to the store meanwhile: every change is one the
      store allows, and nobody but an administrator's cancel moves the job. */
  ghost predicate Interfered(s: Store, s': Store, id: nat) {
    && StoreOk(s') && Advances(s, s')
    && (id in s.jobs ==> id in s'.jobs && (s'.jobs[id] == s.jobs[id] || s'.jobs[id].status == Cancelled))
  }

  /** As long as a worker holds a job, every step but its own waking up is such
      an interference, and leaves the job in its hands. */
  lemma OtherStepsInterfere(s: Sys, a: Action, now: int, w: nat, id: nat)
    requires Inv(s) && Enabled(s, a) && w in s.workers && Holds(s.workers[w], id) && !Own(a, w)
    ensures Interfered(s.store, Step(s, a, now).store, id)
    ensures w in Step(s, a, now).workers && Holds(Step(s, a, now).workers[w], id)
  {
    StepInv(s, a, now);
    StepAdvances(s, a, now);
    HeldJob(s, w, id);
    JobLeftAlone(s, a, now, w, id);
    StillHeld(s, a, now, w, id);
    InvStore(Step(s, a, now));
    hide Inv, Step, Enabled, Holds, StoreOk, Advances;
  }

  lemma InvStore(s: Sys)
    requires Inv(s)
    ensures StoreOk(s.store)
  {
    hide StoreOk, Holding, PhasesOk, NodesKnown, Quarantine, Paths;
  }

  lemma HeldJob(s: Sys, w: nat, id: nat)
    requires Inv(s) && w in s.workers && Holds(s.workers[w], id)
    ensures id in s.store.jobs && !s.store.jobs[id].status.Queued?
    ensures forall v :: v in s.workers && v != w ==> !Holds(s.workers[v], id)
  {
    hide StoreOk, NodesKnown, Quarantine, Paths;
    assert WorkerOk(s.store, s.nodes, s.workers[w]);
  }

  lemma StillHeld(s: Sys, a: Action, now: int, w: nat, id: nat)
    requires Enabled(s, a) && w in s.workers && Holds(s.workers[w], id) && !Own(a, w)
    ensures w in Step(s, a, now).workers && Holds(Step(s, a, now).workers[w], id)
  {
    hide Resume, Begin, Create, Cancel, Claim, Checked, SetDisabled, SetAvailable, CanMove;
  }

  /** Only a cancel of the job itself moves it, and then it is cancelled. */
  lemma JobLeftAlone(s: Sys, a: Action, now: int, w: nat, id: nat)
    requires Inv(s) && Enabled(s, a) && w in s.workers && Holds(s.workers[w], id) && !Own(a, w)
    requires id in s.store.jobs && !s.store.jobs[id].status.Queued?
    requires forall v :: v in s.workers && v != w ==> !Holds(s.workers[v], id)
    ensures var s' := Step(s, a, now);
            && id in s'.store.jobs
            && (a == CancelJob(id) && !Terminal(s.store.jobs[id].status) ==> s'.store.jobs[id].status == Cancelled)
            && (a != CancelJob(id) || Terminal(s.store.jobs[id].status) ==> s'.store.jobs[id] == s.store.jobs[id])
  {
    hide Inv, Resume, Begin, Create, Cancel, Claim, Checked, SetDisabled, SetAvailable, NonTerminal;
    match a {
      case CreateJob(other, options, secret, enabled) => CreateMeans(s.store, other, options, secret, enabled, now);
      case CancelJob(other) =>
        CancelMeans(s.store, other, now);
        CancelHits(s.store, other, now);
      case ClaimJob(v, other) => ClaimLeaves(s, v, other, now, id);
      case WakeUp(v, n) =>
        WakeActs(s, v, n, now);
        WakeOnlyOwn(s, v, n, now, id);
        WakeIsOther(s, v, n, w, id);
        StepKeepsJobs(s, a, now, id);
      case _ =>
    }
  }

  lemma CancelHits(s: Store, id: nat, now: int)
    ensures Cancel(s, id, now).1 <==> id in s.jobs && !Terminal(s.jobs[id].status)
  {
    hide Terminal;
  }

  lemma WakeIsOther(s: Sys, v: nat, n: nat, w: nat, id: nat)
    requires Enabled(s, WakeUp(v, n)) && v != w && forall u :: u in s.workers && u != w ==> !Holds(s.workers[u], id)
    ensures s.workers[v].job != id
  {}

  lemma StepKeepsJobs(s: Sys, a: Action, now: int, id: nat)
    requires Inv(s) && Enabled(s, a) && id in s.store.jobs
    ensures id in Step(s, a, now).store.jobs
  {
    StepAdvances(s, a, now);
    hide Inv, Step, Enabled;
  }

  lemma ClaimLeaves(s: Sys, v: nat, other: nat, now: int, id: nat)
    requires Inv(s) && Enabled(s, ClaimJob(v, other)) && id in s.store.jobs && !s.store.jobs[id].status.Queued?
    ensures var s' := Step(s, ClaimJob(v, other), now); id in s'.store.jobs && s'.store.jobs[id] == s.store.jobs[id]
  {
    hide Begin, Claim, StoreOk, OwnNodes, NodesStep, WorkerOk, Holding, PhasesOk, OnPath;
    OwnOf(s, other);
    BeginOk(s.store, s.nodes, other, now);
    hide Advances;
  }

  // ----- Stopping a worker -----

  predicate Wakes(a: Action, w: nat) {
    a.WakeUp? && a.w == w
  }

  predicate Claims(a: Action, w: nat) {
    a.ClaimJob? && a.w == w
  }

  /** The phase has ended without an error of its own. */
  predicate Quiet(k: Worker) {
    Waiting(k) && k.task.Some? && (k.task.value.Returned? || k.task.value.TaskCancelled?)
  }

  /** One step after a stop: an idle worker claims nothing more, a worker ends
      its job only by waking up, and it ends itself if it was stopping quietly. */
  lemma StoppedStep(s: Sys, a: Action, now: int, w: nat)
    requires Enabled(s, a) && w in s.workers && a != StopWorker(w) && !Claims(a, w)
    ensures var k := s.workers[w]; var s' := Step(s, a, now);
            && w in s'.workers
            && var k' := s'.workers[w];
               && (k.Idle? || k.Stopped? ==> !Wakes(a, w) && k' == k)
               && (k.Draining? ==> if Wakes(a, w) then k'.Idle? else k'.Draining?)
               && (k.Stopping? ==> if !Wakes(a, w) then k'.Stopping? else if Quiet(k) then k'.Stopped? else k'.Idle?)
  {
    if Wakes(a, w) && s.workers[w].Stopping? { StopOutcome(s.store, s.nodes, s.workers[w], now, a.newNode); }
    hide Begin, Create, Cancel, Claim, Checked, SetDisabled, SetAvailable, CanMove, AfterPhase, FinishFailed;
  }

  lemma StopNow(s: Sys, now: int, w: nat)
    requires Enabled(s, StopWorker(w))
    ensures var k := s.workers[w]; var s' := Step(s, StopWorker(w), now);
            w in s'.workers && s'.workers[w] == Stop(k)
  {}

  /** Where a worker is some steps after a stop. */
  ghost predicate AfterStop(ss: seq<Sys>, acts: seq<Action>, i: nat, k: nat, w: nat)
    requires i < k < |ss| && |acts| == |ss| - 1
  {
    w in ss[i].workers && w in ss[k].workers &&
    var at0, at := ss[i].workers[w], ss[k].workers[w];
    && (at0.Idle? || at0.Stopped? ==> at.Stopped?)
    && (at0.Draining? ==> at.Draining? || at.Idle?)
    && (at0.Running? || at0.Stopping? ==>
          || (at.Stopping? && forall m :: i < m < k ==> !Wakes(acts[m], w))
          || (at.Stopped? && exists m :: i < m < k && QuietWake(ss[m], acts[m], w))
          || (at.Idle? && forall m :: i < m < k ==> !QuietWake(ss[m], acts[m], w)))
  }

  predicate QuietWake(s: Sys, a: Action, w: nat) {
    Wakes(a, w) && w in s.workers && Quiet(s.workers[w])
  }

  lemma {:induction false} StopRuns(ss: seq<Sys>, acts: seq<Action>, ts: seq<int>, i: nat, k: nat, w: nat)
    requires Trace(ss, acts, ts) && i < k <= |acts| && acts[i] == StopWorker(w)
    requires forall m :: i < m < k ==> acts[m] != StopWorker(w) && !Claims(acts[m], w)
    ensures AfterStop(ss, acts, i, k, w)
  {
    hide Enabled, Step, Quiet, Claims, Wakes;
    if k == i + 1 {
      assert Enabled(ss[i], acts[i]) && ss[i + 1] == Step(ss[i], acts[i], ts[i]);
      StopNow(ss[i], ts[i], w);
      EnabledStop(ss[i], w);
    } else {
      StopRuns(ss, acts, ts, i, k - 1, w);
      var j := k - 1;
      assert Enabled(ss[j], acts[j]) && ss[j + 1] == Step(ss[j], acts[j], ts[j]);
      assert !Claims(acts[j], w);
      StoppedStep(ss[j], acts[j], ts[j], w);
      StepAfter(ss, acts, i, k, w);
    }
  }

  lemma EnabledStop(s: Sys, w: nat)
    requires Enabled(s, StopWorker(w))
    ensures w in s.workers
  {}

  lemma StepAfter(ss: seq<Sys>, acts: seq<Action>, i: nat, k: nat, w: nat)
    requires i + 1 < k < |ss| && |acts| == |ss| - 1 && AfterStop(ss, acts, i, k - 1, w) && w in ss[k].workers
    requires var a, at, at' := acts[k - 1], ss[k - 1].workers[w], ss[k].workers[w];
             && (at.Idle? || at.Stopped? ==> !Wakes(a, w) && at' == at)
             && (at.Draining? ==> if Wakes(a, w) then at'.Idle? else at'.Draining?)
             && (at.Stopping? ==> if !Wakes(a, w) then at'.Stopping? else if Quiet(at) then at'.Stopped? else at'.Idle?)
    ensures AfterStop(ss, acts, i, k, w)
  {
    hide Wakes, Quiet;
    var at0, at, j := ss[i].workers[w], ss[k - 1].workers[w], k - 1;
    if at0.Running? || at0.Stopping? {
      if at.Stopped? {
        var m :| i < m < k - 1 && QuietWake(ss[m], acts[m], w);
        assert i < m < k && QuietWake(ss[m], acts[m], w);
      } else if at.Stopping? && Wakes(acts[j], w) && Quiet(at) {
        assert QuietWake(ss[j], acts[j], w);
      }
    }
  }

  /** A stop ends its worker exactly if it met it idle, or during a phase that
      then ends quietly; never if it met it draining the phase of a cancelled
      job. In the other cases the worker goes on as if it had not been stopped,
      and whoever stopped it waits for an end that does not come. */
  lemma StopObeyed(ss: seq<Sys>, acts: seq<Action>, ts: seq<int>, i: nat, k: nat, w: nat)
    requires Trace(ss, acts, ts) && i < k <= |acts| && acts[i] == StopWorker(w)
    requires forall m :: i < m < k ==> acts[m] != StopWorker(w) && !Claims(acts[m], w)
    ensures w in ss[i].workers && w in ss[k].workers
    ensures var at0, at := ss[i].workers[w], ss[k].workers[w];
            && (at.Stopped? <==>
                  (|| at0.Idle? || at0.Stopped?
                   || (!at0.Draining? && exists m :: i < m < k && Wakes(acts[m], w) && w in ss[m].workers && Quiet(ss[m].workers[w]))))
            && (at.Idle? ==> Waiting(at0) && exists m :: i < m < k && Wakes(acts[m], w))
  {
    StopRuns(ss, acts, ts, i, k, w);
    IdleWoke(ss, acts, ts, i, k, w);
    hide Trace, Quiet, Wakes;
    var at0 := ss[i].workers[w];
    if at0.Running? || at0.Stopping? {
      assert (exists m :: i < m < k && QuietWake(ss[m], acts[m], w))
        <==> (exists m :: i < m < k && Wakes(acts[m], w) && w in ss[m].workers && Quiet(ss[m].workers[w]));
    }
  }

  lemma {:induction false} IdleWoke(ss: seq<Sys>, acts: seq<Action>, ts: seq<int>, i: nat, k: nat, w: nat)
    requires Trace(ss, acts, ts) && i < k <= |acts| && acts[i] == StopWorker(w)
    requires forall m :: i < m < k ==> acts[m] != StopWorker(w) && !Claims(acts[m], w)
    ensures w in ss[i].workers && w in ss[k].workers
    ensures ss[k].workers[w].Idle? ==> Waiting(ss[i].workers[w]) && exists m :: i < m < k && Wakes(acts[m], w)
  {
    StopRuns(ss, acts, ts, i, k, w);
    hide Enabled, Step, Quiet, Claims, Wakes;
    if k > i + 1 {
      StopRuns(ss, acts, ts, i, k - 1, w);
      IdleWoke(ss, acts, ts, i, k - 1, w);
      var j := k - 1;
      assert Enabled(ss[j], acts[j]) && ss[j + 1] == Step(ss[j], acts[j], ts[j]);
      assert !Claims(acts[j], w);
      StoppedStep(ss[j], acts[j], ts[j], w);
    } else {
      assert Enabled(ss[i], acts[i]) && ss[i + 1] == Step(ss[i], acts[i], ts[i]);
      StopNow(ss[i], ts[i], w);
    }
  }

  // ----- A cancel between two steps of a worker -----

  /** What the worker does in a step of its own. */
  ghost function OwnOutcome(s: Sys, a: Action, now: int, w: nat): Outcome
    requires Enabled(s, a) && Own(a, w)
  {
    if a.WakeUp? then Resume(s.store, s.nodes, s.workers[w], now, a.newNode)
    else Begin(Claim(s.store, a.id, now).0, s.nodes, a.id, now)
  }

  function OwnJob(s: Sys, a: Action, w: nat): nat
    requires Enabled(s, a) && Own(a, w)
  {
    if a.WakeUp? then s.workers[w].job else a.id
  }

  lemma OwnActs(s: Sys, a: Action, now: int, w: nat)
    requires Inv(s) && Enabled(s, a) && Own(a, w)
    ensures Acted(s.store, s.nodes, OwnJob(s, a, w), OwnOutcome(s, a, now, w))
  {
    if a.WakeUp? {
      WakeActs(s, w, a.newNode, now);
    } else {
      ClaimActs(s, w, a.id, now);
    }
    hide Inv, Acted, Resume, Begin, Claim;
  }

  lemma OwnStep(s: Sys, a: Action, now: int, w: nat)
    requires Enabled(s, a) && Own(a, w)
    ensures w in s.workers && Step(s, a, now) == Apply(s, w, OwnOutcome(s, a, now, w))
  {
    hide Resume, Begin, Claim;
  }

  lemma ClaimActs(s: Sys, w: nat, id: nat, now: int)
    requires Inv(s) && Enabled(s, ClaimJob(w, id))
    ensures Acted(s.store, s.nodes, id, Begin(Claim(s.store, id, now).0, s.nodes, id, now))
  {
    hide StoreOk, OwnNodes, Begin, Claim, Reached, Holding, PhasesOk, NodesKnown, Acted;
    OwnOf(s, id);
    BeginOk(s.store, s.nodes, id, now);
  }

  /** A phase is launched for a job in that phase's status. */
  lemma OwnLaunches(s: Sys, a: Action, now: int, w: nat)
    requires Inv(s) && Enabled(s, a) && Own(a, w)
    ensures w in Step(s, a, now).workers
    ensures var s' := Step(s, a, now); var k := s'.workers[w];
            Waiting(k) ==> k.Running? && k.task.None? && w !in s'.begun
                           && k.job in s'.store.jobs && s'.store.jobs[k.job].status == PhaseStatus(k.phase)
  {
    OwnActs(s, a, now, w);
    OwnStep(s, a, now, w);
    hide Inv, Step, Enabled, Own, Acted, OwnOutcome, OwnJob;
    var o := OwnOutcome(s, a, now, w);
    if Waiting(o.worker) { LaunchedHolds(s.store, s.nodes, OwnJob(s, a, w), o); }
  }

  lemma LaunchedHolds(s0: Store, nodes0: map<nat, Node>, id: nat, o: Outcome)
    requires Acted(s0, nodes0, id, o) && Waiting(o.worker)
    ensures Launched(o, id) && o.worker.job == id
  {
    hide Reached, NodesStep, OwnNodes, OnPath, WorkerOk;
  }

  predicate CancelledWithin(acts: seq<Action>, i: nat, k: nat, id: nat) {
    exists m :: i < m < k && m < |acts| && acts[m] == CancelJob(id)
  }

  lemma CancelledMore(acts: seq<Action>, i: nat, k: nat, id: nat)
    requires i < k < |acts|
    ensures CancelledWithin(acts, i, k + 1, id) <==> CancelledWithin(acts, i, k, id) || acts[k] == CancelJob(id)
  {}

  lemma {:induction false} TraceInv(ss: seq<Sys>, acts: seq<Action>, ts: seq<int>, n: nat)
    requires Trace(ss, acts, ts) && Init(ss[0]) && n < |ss|
    ensures Inv(ss[n])
  {
    TraceRun(ss, acts, ts);
    RunInv(ss, n);
  }

  /** From the launch of a phase until its worker goes on, the job stays as it
      was launched if no cancel of it comes in between, and is cancelled
      otherwise. */
  lemma {:induction false} HeldMeanwhile(ss: seq<Sys>, acts: seq<Action>, ts: seq<int>, i: nat, k: nat, w: nat)
    requires Trace(ss, acts, ts) && Init(ss[0]) && i < k <= |acts| && Own(acts[i], w)
    requires w in ss[i + 1].workers && Waiting(ss[i + 1].workers[w])
    requires forall m :: i < m < k ==> !Own(acts[m], w)
    ensures w in ss[k].workers
    ensures var id := ss[i + 1].workers[w].job;
            && Holds(ss[k].workers[w], id) && id in ss[k].store.jobs && id in ss[i + 1].store.jobs
            && !Terminal(ss[i + 1].store.jobs[id].status)
            && (CancelledWithin(acts, i, k, id) ==> ss[k].store.jobs[id].status == Cancelled)
            && (!CancelledWithin(acts, i, k, id) ==> ss[k].store.jobs[id] == ss[i + 1].store.jobs[id])
  {
    hide Step, Enabled, Inv, Own, CancelledWithin;
    var id := ss[i + 1].workers[w].job;
    if k == i + 1 {
      assert Enabled(ss[i], acts[i]) && ss[i + 1] == Step(ss[i], acts[i], ts[i]);
      TraceInv(ss, acts, ts, i);
      OwnLaunches(ss[i], acts[i], ts[i], w);
      NoneWithin(acts, i, id);
    } else {
      HeldMeanwhile(ss, acts, ts, i, k - 1, w);
      var j := k - 1;
      assert Enabled(ss[j], acts[j]) && ss[j + 1] == Step(ss[j], acts[j], ts[j]);
      assert !Own(acts[j], w);
      TraceInv(ss, acts, ts, j);
      HeldJob(ss[j], w, id);
      JobLeftAlone(ss[j], acts[j], ts[j], w, id);
      StillHeld(ss[j], acts[j], ts[j], w, id);
      CancelledMore(acts, i, j, id);
    }
  }

  lemma NoneWithin(acts: seq<Action>, i: nat, id: nat)
    ensures !CancelledWithin(acts, i, i + 1, id)
  {}

  /** A phase begins to run for a cancelled job exactly if the cancel came
      between its launch and its begin. */
  lemma BeginsCancelled(ss: seq<Sys>, acts: seq<Action>, ts: seq<int>, i: nat, k: nat, w: nat)
    requires Trace(ss, acts, ts) && Init(ss[0]) && i < k < |acts| && Own(acts[i], w) && acts[k] == PhaseBegins(w)
    requires forall m :: i < m < k ==> !Own(acts[m], w)
    ensures w in ss[i + 1].workers && Waiting(ss[i + 1].workers[w])
    ensures var id := ss[i + 1].workers[w].job;
            && id in ss[k].store.jobs
            && (ss[k].store.jobs[id].status == Cancelled <==> exists m :: i < m < k && acts[m] == CancelJob(id))
  {
    MustHaveLaunched(ss, acts, ts, i, k, w);
    HeldMeanwhile(ss, acts, ts, i, k, w);
    hide Trace, Init;
  }

  /** A worker that waits was launched by its last step of its own. */
  lemma {:induction false} MustHaveLaunched(ss: seq<Sys>, acts: seq<Action>, ts: seq<int>, i: nat, k: nat, w: nat)
    requires Trace(ss, acts, ts) && i < k < |acts| && Own(acts[i], w)
    requires forall m :: i < m < k ==> !Own(acts[m], w)
    requires acts[k] == PhaseBegins(w) || Wakes(acts[k], w)
    ensures w in ss[i + 1].workers && Waiting(ss[i + 1].workers[w])
  {
    WaitingBack(ss, acts, ts, i, k, w);
  }

  lemma {:induction false} WaitingBack(ss: seq<Sys>, acts: seq<Action>, ts: seq<int>, i: nat, k: nat, w: nat)
    requires Trace(ss, acts, ts) && i < k <= |acts| && Own(acts[i], w)
    requires forall m :: i < m < k ==> !Own(acts[m], w)
    requires w in ss[k].workers && Waiting(ss[k].workers[w])
    ensures w in ss[i + 1].workers && Waiting(ss[i + 1].workers[w])
  {
    hide Step, Enabled, Own;
    if k > i + 1 {
      var j := k - 1;
      assert Enabled(ss[j], acts[j]) && ss[j + 1] == Step(ss[j], acts[j], ts[j]);
      assert !Own(acts[j], w);
      WaitedBefore(ss[j], acts[j], ts[j], w);
      WaitingBack(ss, acts, ts, i, j, w);
    }
  }

  lemma WaitedBefore(s: Sys, a: Action, now: int, w: nat)
    requires Enabled(s, a) && !Own(a, w) && w in Step(s, a, now).workers && Waiting(Step(s, a, now).workers[w])
    ensures w in s.workers && Waiting(s.workers[w])
  {
    hide Resume, Begin, Create, Cancel, Claim, Checked, SetDisabled, SetAvailable, CanMove;
  }

  /** The code is about to name a job that is no longer in the status that it
      expects: the SSH check has returned, and the move to the next status fails. */
  predicate Trips(s: Sys, w: nat) {
    && w in s.workers && s.workers[w].Running? && s.workers[w].phase.SshPhase? && s.workers[w].task == Some(Returned)
    && !CanMove(s.store, s.workers[w].job, {CheckingSsh})
  }

  /** A worker whose SSH check has returned trips over its job exactly if the
      job was cancelled since the check was launched. */
  lemma TripsCancelled(ss: seq<Sys>, acts: seq<Action>, ts: seq<int>, i: nat, k: nat, w: nat)
    requires Trace(ss, acts, ts) && Init(ss[0]) && i < k < |acts| && Own(acts[i], w) && Wakes(acts[k], w)
    requires forall m :: i < m < k ==> !Own(acts[m], w)
    requires w in ss[k].workers && ss[k].workers[w].Running? && ss[k].workers[w].phase.SshPhase? && ss[k].workers[w].task == Some(Returned)
    ensures w in ss[i + 1].workers && Waiting(ss[i + 1].workers[w])
    ensures Trips(ss[k], w) <==> exists m :: i < m < k && acts[m] == CancelJob(ss[i + 1].workers[w].job)
    ensures Trips(ss[k], w) ==> ss[k + 1].workers[w].Idle? && ss[k + 1].store.jobs == ss[k].store.jobs
  {
    MustHaveLaunched(ss, acts, ts, i, k, w);
    HeldMeanwhile(ss, acts, ts, i, k, w);
    TraceInv(ss, acts, ts, k);
    WorkersOk(ss[k]);
    hide Init, Inv, Enabled, Step, Own, Wakes, WorkerOk;
    assert Enabled(ss[k], acts[k]) && ss[k + 1] == Step(ss[k], acts[k], ts[k]);
    hide Trace;
    TripStatus(ss[k], w);
    if Trips(ss[k], w) { TripEnds(ss[k], acts[k], ts[k], w); }
  }

  lemma TripStatus(s: Sys, w: nat)
    requires w in s.workers && s.workers[w].Running? && s.workers[w].phase.SshPhase? && s.workers[w].task == Some(Returned)
    requires WorkerOk(s.store, s.nodes, s.workers[w])
    ensures s.workers[w].job in s.store.jobs
    ensures Trips(s, w) <==> s.store.jobs[s.workers[w].job].status == Cancelled
  {}

  lemma TripEnds(s: Sys, a: Action, now: int, w: nat)
    requires Enabled(s, a) && Wakes(a, w) && Trips(s, w) && WorkerOk(s.store, s.nodes, s.workers[w])
    ensures var s' := Step(s, a, now); w in s'.workers && s'.workers[w].Idle? && s'.store.jobs == s.store.jobs
  {}

  // ----- Runs that show it -----

  const Start := Sys(Store(map[], [], map[], map[]), map[], map[], {})
  const Wanted := Options(true, false, true)
  const Opening := [StartWorker(0), CreateJob(7, Wanted, "x", true), ClaimJob(0, 7)]

  /** Time 0 for every step. */
  function Zeros(n: nat): seq<int> {
    seq(n, _ => 0)
  }

  lemma Extends(ss: seq<Sys>, acts: seq<Action>, a: Action) returns (ss': seq<Sys>)
    requires Trace(ss, acts, Zeros(|acts|)) && Enabled(ss[|acts|], a)
    ensures Trace(ss', acts + [a], Zeros(|acts| + 1)) && ss'[0] == ss[0] && ss'[|acts| + 1] == Step(ss[|acts|], a, 0)
    ensures ss' == ss + [Step(ss[|acts|], a, 0)]
  {
    hide Enabled, Step;
    ss' := ss + [Step(ss[|acts|], a, 0)];
    var acts' := acts + [a];
    forall i | 0 <= i < |acts'| ensures Enabled(ss'[i], acts'[i]) && ss'[i + 1] == Step(ss'[i], acts'[i], 0) {
      if i < |acts| { assert Enabled(ss[i], acts[i]) && ss[i + 1] == Step(ss[i], acts[i], Zeros(|acts|)[i]); }
    }
  }

  /** The end of a trace after one more step. */
  ghost predicate From(ss: seq<Sys>, acts: seq<Action>) {
    Trace(ss, acts, Zeros(|acts|)) && ss[0] == Start
  }

  lemma Next(ss: seq<Sys>, acts: seq<Action>, a: Action) returns (ss': seq<Sys>, acts': seq<Action>)
    requires From(ss, acts) && Enabled(ss[|acts|], a)
    ensures acts' == acts + [a] && From(ss', acts') && ss <= ss' && ss'[|acts'|] == Step(ss[|acts|], a, 0)
  {
    acts' := acts + [a];
    ss' := Extends(ss, acts, a);
  }

  lemma BlankNo()
    ensures TrimSpace("x") != ""
  {}

  /** A worker has claimed a job and waits for its SSH check. */
  lemma Opened() returns (ss: seq<Sys>)
    ensures From(ss, Opening)
    ensures var s := ss[3];
            && s.workers == map[0 := Running(7, SshPhase, None)] && s.begun == {} && s.nodes == map[]
            && s.store.jobs.Keys == {7} && s.store.jobs[7].status == CheckingSsh && s.store.jobs[7].options == Wanted
  {
    BlankNo();
    ss := [Start];
    var acts: seq<Action> := [];
    ss, acts := Next(ss, acts, StartWorker(0));
    ss, acts := Next(ss, acts, CreateJob(7, Wanted, "x", true));
    ss, acts := Next(ss, acts, ClaimJob(0, 7));
    assert acts == Opening;
  }

  const Cancelling := Opening + [PhaseBegins(0), CancelJob(7), Poll(0)]

  lemma DrainedRun() returns (ss: seq<Sys>)
    ensures From(ss, Cancelling) && ss[6].workers == map[0 := Draining(7, SshPhase, None)] && ss[6].begun == {0} && ss[6].nodes == map[]
  {
    ss := Opened();
    var acts := Opening;
    ss, acts := Next(ss, acts, PhaseBegins(0));
    ss, acts := Next(ss, acts, CancelJob(7));
    ss, acts := Next(ss, acts, Poll(0));
    assert acts == Cancelling;
  }

  /** A stop that meets a worker draining the phase of a cancelled job is lost,
      although the phase ends as it was told to. */
  lemma StopLostDraining() returns (ss: seq<Sys>)
    ensures From(ss, Cancelling + [StopWorker(0), TaskEnds(0, TaskCancelled, NoAnswer("")), WakeUp(0, 0)])
    ensures ss[9].workers == map[0 := Idle]
  {
    ss := DrainedRun();
    var acts := Cancelling;
    ss, acts := Next(ss, acts, StopWorker(0));
    ss, acts := Next(ss, acts, TaskEnds(0, TaskCancelled, NoAnswer("")));
    ss, acts := Next(ss, acts, WakeUp(0, 0));
    assert acts == Cancelling + [StopWorker(0), TaskEnds(0, TaskCancelled, NoAnswer("")), WakeUp(0, 0)];
  }

  /** A stop during a phase that then ends in an error is lost, too. */
  lemma StopLostError() returns (ss: seq<Sys>)
    ensures From(ss, Opening + [PhaseBegins(0), StopWorker(0), TaskEnds(0, StepError("no"), NoAnswer("")), WakeUp(0, 0)])
    ensures ss[7].workers == map[0 := Idle]
  {
    ss := Opened();
    var acts := Opening;
    ss, acts := Next(ss, acts, PhaseBegins(0));
    ss, acts := Next(ss, acts, StopWorker(0));
    ss, acts := Next(ss, acts, TaskEnds(0, StepError("no"), NoAnswer("")));
    ss, acts := Next(ss, acts, WakeUp(0, 0));
    assert acts == Opening + [PhaseBegins(0), StopWorker(0), TaskEnds(0, StepError("no"), NoAnswer("")), WakeUp(0, 0)];
  }

  /** The SSH check begins to run for a job that is already cancelled. */
  lemma BeginsTooLate() returns (ss: seq<Sys>)
    ensures From(ss, Opening + [CancelJob(7), PhaseBegins(0)])
    ensures 7 in ss[4].store.jobs && ss[4].store.jobs[7].status == Cancelled && ss[5].begun == {0}
  {
    ss := Opened();
    var acts := Opening;
    ss, acts := Next(ss, acts, CancelJob(7));
    ss, acts := Next(ss, acts, PhaseBegins(0));
    assert acts == Opening + [CancelJob(7), PhaseBegins(0)];
  }

  const Returning := Opening + [PhaseBegins(0), CancelJob(7), TaskEnds(0, Returned, NoAnswer(""))]

  lemma ReturnedRun() returns (ss: seq<Sys>)
    ensures From(ss, Returning) && Trips(ss[6], 0) && ss[6].nodes == map[]
  {
    ss := Opened();
    var acts := Opening;
    ss, acts := Next(ss, acts, PhaseBegins(0));
    ss, acts := Next(ss, acts, CancelJob(7));
    ss, acts := Next(ss, acts, TaskEnds(0, Returned, NoAnswer("")));
    assert acts == Returning;
  }

  /** The worker trips over a job cancelled just before its check returned. */
  lemma TripsOverCancelled() returns (ss: seq<Sys>)
    ensures From(ss, Returning + [WakeUp(0, 0)]) && Trips(ss[6], 0)
  {
    ss := ReturnedRun();
    var acts;
    ss, acts := Next(ss, Returning, WakeUp(0, 0));
  }

  // ----- Who makes a node available -----

  /** What an administrator last said of the node's availability. */
  function LastSaid(acts: seq<Action>, n: nat): Option<bool> {
    if acts == [] then None
    else
      var a := acts[|acts| - 1];
      if a.OfferNode? && a.n == n then Some(a.available) else LastSaid(acts[..|acts| - 1], n)
  }

  /** A setup node whose job has not succeeded is available exactly if an
      administrator has said so, and has not taken it back. */
  ghost predicate AsSaid(s: Sys, acts: seq<Action>, n: nat) {
    if n !in s.nodes then LastSaid(acts, n).None?
    else
      s.nodes[n].job.Some? && s.nodes[n].job.value in s.store.jobs && s.store.jobs[s.nodes[n].job.value].status != Success ==>
        s.nodes[n].available == (LastSaid(acts, n) == Some(true))
  }

  /** How a worker's step treats the nodes: it registers one, or makes the one of
      a job that just succeeded available, or leaves them alone. */
  ghost predicate NodesAfter(nodes: map<nat, Node>, id: nat, n: nat, o: Outcome) {
    || o.nodes == nodes
    || o.nodes == nodes[n := Registered(id)]
    || (exists m, wants :: m in nodes && o.nodes == nodes[m := Activated(nodes[m], wants)]
          && id in o.store.jobs && o.store.jobs[id].status == Success && o.store.jobs[id].nodeId == Some(m))
  }

  lemma SettleNodes(s: Store, nodes: map<nat, Node>, id: nat, m: nat, wants: bool, now: int, n: nat)
    requires id in s.jobs
    ensures NodesAfter(nodes, id, n, Settle(s, nodes, id, m, wants, now))
  {
    SuccessMeans(s, id, m, now);
    hide FinishSuccess, FinishFailed;
  }

  lemma LaunchNodes(s: Store, nodes: map<nat, Node>, id: nat, now: int, n: nat)
    ensures LaunchAgent(s, nodes, id, true, now).nodes == nodes && LaunchVpn(s, nodes, id).nodes == nodes
    ensures forall from :: NodesAfter(nodes, id, n, LaunchHealth(s, nodes, id, from, n))
  {
    hide SetStep, FinishFailed, Note;
  }

  lemma FailingNodes(s: Store, nodes: map<nat, Node>, id: nat, now: int)
    ensures forall m, next :: Failing(s, nodes, id, m, now, next).nodes == nodes
  {
    hide FinishFailed;
  }

  lemma SameNodesAfter(nodes: map<nat, Node>, id: nat, n: nat)
    ensures forall o: Outcome :: o.nodes == nodes ==> NodesAfter(nodes, id, n, o)
  {}

  lemma ResumeNodes(s: Store, nodes: map<nat, Node>, k: Worker, now: int, n: nat)
    requires Waiting(k) && k.task.Some? && k.job in s.jobs
    ensures NodesAfter(nodes, k.job, n, Resume(s, nodes, k, now, n))
  {
    if k.phase.HealthPhase? { SettleNodes(s, nodes, k.job, k.phase.node, s.jobs[k.job].options.wantsAvailable, now, n); }
    LaunchNodes(s, nodes, k.job, now, n);
    FailingNodes(s, nodes, k.job, now);
    SameNodesAfter(nodes, k.job, n);
    hide LaunchAgent, LaunchVpn, LaunchHealth, Failing, Settle, Forget, NodesAfter;
  }

  lemma BeginNodes(s: Store, nodes: map<nat, Node>, id: nat, now: int)
    ensures Begin(s, nodes, id, now).nodes == nodes
  {
    hide SetStep, FinishFailed, Note;
  }

  lemma SaidMore(acts: seq<Action>, a: Action, n: nat)
    ensures LastSaid(acts + [a], n) == if a.OfferNode? && a.n == n then Some(a.available) else LastSaid(acts, n)
  {
    assert (acts + [a])[..|acts|] == acts;
  }

  /** A step that treats the node as it was, or says something about it. */
  ghost predicate SameOffer(s: Sys, s': Sys, n: nat) {
    && (n in s'.nodes <==> n in s.nodes)
    && (n in s.nodes ==> s'.nodes[n].job == s.nodes[n].job && s'.nodes[n].available == s.nodes[n].available)
  }

  lemma SameSaid(s: Sys, s': Sys, acts: seq<Action>, a: Action, n: nat)
    requires AsSaid(s, acts, n) && SameOffer(s, s', n) && NodesKnown(s) && Advances(s.store, s'.store) && !(a.OfferNode? && a.n == n)
    ensures AsSaid(s', acts + [a], n)
  {
    SaidMore(acts, a, n);
    hide LastSaid;
    if n in s.nodes && s.nodes[n].job.Some? {
      var id := s.nodes[n].job.value;
      assert JobAdvances(s.store.jobs[id], s'.store.jobs[id]);
    }
  }

  lemma NodesSaid(s: Sys, s': Sys, o: Outcome, id: nat, newNode: nat, acts: seq<Action>, a: Action, n: nat)
    requires NodesKnown(s) && Inv(s') && Advances(s.store, s'.store) && AsSaid(s, acts, n) && !a.OfferNode?
    requires NodesAfter(s.nodes, id, newNode, o) && s'.nodes == o.nodes && s'.store == o.store && newNode !in s.nodes
    ensures AsSaid(s', acts + [a], n)
  {
    hide Inv, AsSaid, LastSaid, Advances, NodesKnown;
    if o.nodes == s.nodes {
      SameSaid(s, s', acts, a, n);
    } else if o.nodes == s.nodes[newNode := Registered(id)] {
      if n == newNode { NewSaid(s, s', acts, a, n); } else { SameSaid(s, s', acts, a, n); }
    } else {
      var m, wants :| m in s.nodes && o.nodes == s.nodes[m := Activated(s.nodes[m], wants)]
                      && id in o.store.jobs && o.store.jobs[id].status == Success && o.store.jobs[id].nodeId == Some(m);
      if n == m {
        NamedNode(s', id);
        SucceededSaid(s', acts + [a], n);
      } else {
        SameSaid(s, s', acts, a, n);
      }
    }
  }

  lemma WakeSaid(s: Sys, w: nat, newNode: nat, now: int, acts: seq<Action>, n: nat)
    requires Inv(s) && Enabled(s, WakeUp(w, newNode)) && AsSaid(s, acts, n)
    ensures AsSaid(Step(s, WakeUp(w, newNode), now), acts + [WakeUp(w, newNode)], n)
  {
    var a, s' := WakeUp(w, newNode), Step(s, WakeUp(w, newNode), now);
    StepInv(s, a, now);
    StepAdvances(s, a, now);
    InvNodes(s);
    WakeIsResume(s, w, newNode, now);
    WakeKnown(s, w);
    hide Inv, Resume, AsSaid, Advances, NodesKnown, NodesAfter;
    ResumeNodes(s.store, s.nodes, s.workers[w], now, newNode);
    var o := Resume(s.store, s.nodes, s.workers[w], now, newNode);
    assert newNode !in s.nodes && s'.nodes == o.nodes && s'.store == o.store;
    NodesSaid(s, s', o, s.workers[w].job, newNode, acts, a, n);
  }

  lemma InvNodes(s: Sys)
    requires Inv(s)
    ensures NodesKnown(s)
  {
    hide StoreOk, Holding, PhasesOk, Quarantine, Paths, NodesKnown;
  }

  lemma NewSaid(s: Sys, s': Sys, acts: seq<Action>, a: Action, n: nat)
    requires AsSaid(s, acts, n) && n !in s.nodes && n in s'.nodes && !s'.nodes[n].available && !a.OfferNode?
    ensures AsSaid(s', acts + [a], n)
  {
    SaidMore(acts, a, n);
    hide LastSaid;
  }

  lemma SucceededSaid(s: Sys, acts: seq<Action>, n: nat)
    requires n in s.nodes && s.nodes[n].job.Some? && s.nodes[n].job.value in s.store.jobs
    requires s.store.jobs[s.nodes[n].job.value].status == Success
    ensures AsSaid(s, acts, n)
  {}

  lemma StepSameOffer(s: Sys, a: Action, now: int, n: nat)
    requires Enabled(s, a) && !a.WakeUp? && !((a.AddNode? || a.OfferNode?) && a.n == n)
    ensures SameOffer(s, Step(s, a, now), n)
  {
    CheckKeeps();
    if a.ClaimJob? { BeginNodes(Claim(s.store, a.id, now).0, s.nodes, a.id, now); }
    hide Create, Cancel, Claim, Begin, Checked, CanMove;
  }

  lemma SaysSo(s: Sys, a: Action, now: int, acts: seq<Action>, n: nat)
    requires Enabled(s, a) && (a.AddNode? || a.OfferNode?) && a.n == n && AsSaid(s, acts, n)
    ensures AsSaid(Step(s, a, now), acts + [a], n)
  {
    SaidMore(acts, a, n);
    hide LastSaid;
  }

  lemma SaidStep(s: Sys, a: Action, now: int, acts: seq<Action>, n: nat)
    requires Inv(s) && Enabled(s, a) && AsSaid(s, acts, n)
    ensures AsSaid(Step(s, a, now), acts + [a], n)
  {
    hide Inv, Enabled, Step, AsSaid, Advances, NodesKnown;
    if a.WakeUp? {
      WakeSaid(s, a.w, a.newNode, now, acts, n);
    } else if (a.AddNode? || a.OfferNode?) && a.n == n {
      SaysSo(s, a, now, acts, n);
    } else {
      StepAdvances(s, a, now);
      InvNodes(s);
      StepSameOffer(s, a, now, n);
      SameSaid(s, Step(s, a, now), acts, a, n);
    }
  }

  /** Until its setup job succeeds, a node is available exactly if an
      administrator said so last. */
  lemma {:induction false} AvailableAsSaid(ss: seq<Sys>, acts: seq<Action>, ts: seq<int>, k: nat, n: nat)
    requires Trace(ss, acts, ts) && Init(ss[0]) && k <= |acts| && n !in ss[0].nodes
    ensures AsSaid(ss[k], acts[..k], n)
  {
    hide Step, Enabled, Inv, AsSaid, LastSaid;
    if k == 0 {
      NothingSaid(ss[0], n);
      assert acts[..0] == [];
    } else {
      AvailableAsSaid(ss, acts, ts, k - 1, n);
      TraceInv(ss, acts, ts, k - 1);
      var j := k - 1;
      assert Enabled(ss[j], acts[j]) && ss[j + 1] == Step(ss[j], acts[j], ts[j]);
      SaidStep(ss[j], acts[j], ts[j], acts[..j], n);
      assert acts[..k] == acts[..j] + [acts[j]];
    }
  }

  lemma NothingSaid(s: Sys, n: nat)
    requires n !in s.nodes
    ensures AsSaid(s, [], n)
  {}

  const ToHealth := Opening + [PhaseBegins(0), TaskEnds(0, Returned, NoAnswer("")), WakeUp(0, 5),
                               PhaseBegins(0), TaskEnds(0, Returned, NoAnswer("")), WakeUp(0, 5)]

  lemma AgentRun() returns (ss: seq<Sys>)
    ensures From(ss, Opening + [PhaseBegins(0), TaskEnds(0, Returned, NoAnswer("")), WakeUp(0, 5)])
    ensures var s := ss[6];
            && s.workers == map[0 := Running(7, AgentPhase, None)] && s.begun == {} && s.nodes == map[]
            && s.store.jobs.Keys == {7} && s.store.jobs[7].status == InstallingAgent && s.store.jobs[7].options == Wanted
  {
    ss := Opened();
    var acts := Opening;
    ss, acts := Next(ss, acts, PhaseBegins(0));
    ss, acts := Next(ss, acts, TaskEnds(0, Returned, NoAnswer("")));
    ss, acts := Next(ss, acts, WakeUp(0, 5));
    assert acts == Opening + [PhaseBegins(0), TaskEnds(0, Returned, NoAnswer("")), WakeUp(0, 5)];
  }

  lemma HealthRun() returns (ss: seq<Sys>)
    ensures From(ss, ToHealth)
    ensures var s := ss[9];
            && s.workers == map[0 := Running(7, HealthPhase(5), None)] && s.nodes == map[5 := Registered(7)]
            && 7 in s.store.jobs && s.store.jobs[7].status == Verifying
  {
    ss := AgentRun();
    var acts := Opening + [PhaseBegins(0), TaskEnds(0, Returned, NoAnswer("")), WakeUp(0, 5)];
    ss, acts := Next(ss, acts, PhaseBegins(0));
    ss, acts := Next(ss, acts, TaskEnds(0, Returned, NoAnswer("")));
    ss, acts := Next(ss, acts, WakeUp(0, 5));
    assert acts == ToHealth;
  }

  /** An administrator's word lifts the quarantine while the job still runs. */
  lemma OfferedTooSoon() returns (ss: seq<Sys>)
    ensures From(ss, ToHealth + [OfferNode(5, true), CheckNode(5, Healthy(true, false))])
    ensures var s := ss[11];
            && 5 in s.nodes && s.nodes[5].status.Online? && s.nodes[5].available && s.nodes[5].job == Some(7)
            && 7 in s.store.jobs && s.store.jobs[7].status == Verifying
  {
    ss := HealthRun();
    var acts := ToHealth;
    ss, acts := Next(ss, acts, OfferNode(5, true));
    ss, acts := Next(ss, acts, CheckNode(5, Healthy(true, false)));
    assert acts == ToHealth + [OfferNode(5, true), CheckNode(5, Healthy(true, false))];
  }
}
