/**
 One worker as the program runs it: claim, run the phases in order with a
 cancellable wait for each, and settle the job on every way out. What it does
 between two waits is one step of the machine, and what happens during a wait
 is any steps of the others, so its life is part of a run of the machine.
 */
module SetupWorker {
  import opened Wrappers
  import opened SetupJobs
  import opened SetupJobService
  import opened SetupMachine
  import opened SetupTheorems
  import opened SetupTraces
  import opened ServerService

  // ----- Runs that go on -----

  lemma RunMore(ss: seq<Sys>, a: Action, now: int)
    requires Run(ss) && Enabled(ss[|ss| - 1], a)
    ensures Run(ss + [Step(ss[|ss| - 1], a, now)])
  {
    hide Init, Step, Enabled;
    var more := ss + [Step(ss[|ss| - 1], a, now)];
    forall i | 0 <= i < |more| - 1 ensures SysNext(more[i], more[i + 1]) {
      if i < |ss| - 1 { assert SysNext(ss[i], ss[i + 1]); } else { assert SysNext(ss[|ss| - 1], Step(ss[|ss| - 1], a, now)); }
    }
  }

  /** The same wait, further on: the phase may have ended, the worker may have
      been told to stop. */
  predicate Waits(k: Worker, k': Worker) {
    && Waiting(k) && Waiting(k') && k'.job == k.job && k'.phase == k.phase
    && (k.task.Some? ==> k'.task == k.task) && (k.Draining? <==> k'.Draining?) && (k.Stopping? ==> k'.Stopping?)
  }

  /** The run went on without a step of this worker's own. */
  ghost predicate Onward(run: seq<Sys>, run': seq<Sys>, w: nat, k: Worker) {
    run <= run' && forall i :: |run| <= i < |run'| ==> w in run'[i].workers && Waits(k, run'[i].workers[w])
  }

  /** The contract of a wait is what the machine allows: every step that is not
      the worker's own leaves it in the same wait. */
  lemma OtherStepsWait(s: Sys, a: Action, now: int, w: nat)
    requires Enabled(s, a) && w in s.workers && Waiting(s.workers[w]) && !Own(a, w) && a != Poll(w)
    ensures w in Step(s, a, now).workers && Waits(s.workers[w], Step(s, a, now).workers[w])
  {
    hide Resume, Begin, Create, Cancel, Claim, Checked, SetDisabled, SetAvailable, CanMove;
  }

  lemma OnwardStep(run: seq<Sys>, run': seq<Sys>, a: Action, now: int, w: nat, k: Worker)
    requires Onward(run, run', w, k) && run' != [] && Enabled(run'[|run'| - 1], a)
    requires w in run'[|run'| - 1].workers && Waits(k, run'[|run'| - 1].workers[w]) && !Own(a, w) && a != Poll(w)
    ensures Onward(run, run' + [Step(run'[|run'| - 1], a, now)], w, k)
    ensures w in Step(run'[|run'| - 1], a, now).workers && Waits(k, Step(run'[|run'| - 1], a, now).workers[w])
  {
    OtherStepsWait(run'[|run'| - 1], a, now, w);
    hide Step, Enabled, Own;
  }

  lemma OnwardStart(run: seq<Sys>, w: nat, k: Worker)
    ensures Onward(run, run, w, k)
  {}

  lemma OnwardPrefix(run: seq<Sys>, run': seq<Sys>, w: nat, k: Worker)
    requires Onward(run, run', w, k)
    ensures run <= run'
  {}

  /** A waiting worker's job is there. */
  lemma RunHolds(run: seq<Sys>, w: nat)
    requires Run(run) && w in run[|run| - 1].workers && Waiting(run[|run| - 1].workers[w])
    ensures run[|run| - 1].workers[w].job in run[|run| - 1].store.jobs
  {
    RunInv(run, |run| - 1);
    hide Run;
    WakeKnown(run[|run| - 1], w);
  }

  lemma RunOptions(run: seq<Sys>, start: nat, id: nat)
    requires Run(run) && start < |run| && id in run[start].store.jobs
    ensures var s := run[|run| - 1].store; id in s.jobs && s.jobs[id].options == run[start].store.jobs[id].options
  {
    RunAdvances(run, start, |run| - 1);
    hide Run;
    assert JobAdvances(run[start].store.jobs[id], run[|run| - 1].store.jobs[id]);
  }

  /** A worker that waits for a job holds it in its phase's status, or the job
      was cancelled; the node it checks is the job's own. */
  lemma RunWaits(run: seq<Sys>, w: nat)
    requires Run(run) && w in run[|run| - 1].workers
    ensures var s := run[|run| - 1]; WorkerOk(s.store, s.nodes, s.workers[w])
  {
    RunInv(run, |run| - 1);
    hide Run, Inv;
    WorkersOk(run[|run| - 1]);
  }

  // ----- What a step comes to -----

  /** How a wait for a phase, or the run of all phases, ended: Tripped is the
      crash over a job that is no longer there to be named. */
  datatype Waited = Completed | Abandoned | Raised(error: Ending) | Interrupted | Tripped

  /** How running one job ended. */
  datatype RunResult = Ended | Crash | WorkerStop

  /** What the wait makes of the end of its phase. */
  function WaitedFor(k: Worker): Waited
    requires Waiting(k) && k.task.Some?
  {
    match k.task.value
    case Returned => if k.Running? then Completed else if k.Draining? then Abandoned else Interrupted
    case TaskCancelled => if k.Draining? then Abandoned else Interrupted
    case e => Raised(e)
  }

  function MessageOf(e: Ending): string {
    if e.StepError? || e.AppFailure? then e.message else CrashMessage
  }

  /** What remains to be done after this end of the phases. */
  function Due(r: Waited, s: Store, nodes: map<nat, Node>, id: nat, now: int): Outcome {
    match r
    case Completed => Outcome(Forget(s, id), nodes, Idle)
    case Abandoned => Outcome(Forget(s, id), nodes, Idle)
    case Raised(e) => Failing(s, nodes, id, MessageOf(e), now, Idle)
    case Interrupted => Failing(s, nodes, id, StopMessage, now, Stopped)
    case Tripped => Failing(s, nodes, id, CrashMessage, now, Idle)
  }

  lemma ResumeDue(s: Store, nodes: map<nat, Node>, k: Worker, now: int, n: nat)
    requires Waiting(k) && k.task.Some? && !WaitedFor(k).Completed?
    ensures Resume(s, nodes, k, now, n) == Due(WaitedFor(k), s, nodes, k.job, now)
  {}

  lemma ForgetTwice(s: Store, id: nat, m: string, now: int, n: nat)
    ensures FinishFailed(Forget(s, id), id, m, now).0 == FinishFailed(s, id, m, now).0
    ensures Forget(FinishFailed(s, id, m, now).0, id) == FinishFailed(s, id, m, now).0
    ensures Forget(FinishSuccess(s, id, n, now).0, id) == FinishSuccess(s, id, n, now).0
  {
    assert s.secrets - {id} - {id} == s.secrets - {id};
    hide NonTerminal;
  }

  /** The statuses in which the phases run, by the options of the job. */
  ghost function PhasesFor(o: Options): seq<Status> {
    (if o.verifyFirst then [CheckingSsh] else []) + [InstallingAgent] + (if o.installAwg then [InstallingVpn] else []) + [Verifying]
  }

  /** The job was cancelled in time, or it succeeded and its node, which is up,
      is available as the job asked. */
  ghost predicate Delivered(s: Store, nodes: map<nat, Node>, id: nat) {
    id in s.jobs &&
    var j := s.jobs[id];
    || j.status.Cancelled?
    || (&& j.status.Success? && j.nodeId.Some? && j.nodeId.value in nodes
        && Up(nodes[j.nodeId.value]) && nodes[j.nodeId.value].available == j.options.wantsAvailable)
  }

  class SetupWorker {
    const me: nat
    const jobs: JobService
    const servers: ServerService
    var at: Worker
    var begun: bool
    ghost var run: seq<Sys>

    /** Starts a worker beside whatever has happened so far. */
    constructor (me: nat, jobs: JobService, servers: ServerService, ghost before: seq<Sys>)
      requires Run(before) && me !in before[|before| - 1].workers && me !in before[|before| - 1].begun
      requires before[|before| - 1].store == jobs.S() && before[|before| - 1].nodes == servers.nodes
      ensures this.me == me && this.jobs == jobs && this.servers == servers && Valid() && at.Idle? && before < run
    {
      this.me, this.jobs, this.servers, at, begun := me, jobs, servers, Idle, false;
      run := before + [Step(before[|before| - 1], StartWorker(me), 0)];
      RunMore(before, StartWorker(me), 0);
    }

    ghost function Now(): Sys
      reads this
      requires run != []
    {
      run[|run| - 1]
    }

    /** What the shared objects hold, and where this worker would be. */
    ghost function Here(w: Worker): Outcome
      reads this, jobs, jobs.storage, servers
    {
      Outcome(jobs.S(), servers.nodes, w)
    }

    ghost predicate Lives()
      reads this
    {
      && Run(run) && me in Now().workers && Now().workers[me] == at && (me in Now().begun <==> begun)
      && (Waiting(at) || !begun)
    }

    /** The shared objects are those of the run. */
    ghost predicate Valid()
      reads this, jobs, jobs.storage, servers
    {
      Lives() && Now().store == jobs.S() && Now().nodes == servers.nodes
    }

    /** This is what a step of the worker's own for this job comes to. */
    ghost predicate Lands(o: Outcome, id: nat)
      reads this
    {
      Lives() && exists a, t :: Enabled(Now(), a) && Own(a, me) && OwnJob(Now(), a, me) == id && OwnOutcome(Now(), a, t, me) == o
    }

    /** What the code has done since the last wait is a step of the machine, and
        if it lets go of its job, the job has ended and its password is gone. */
    lemma LandStep(o: Outcome, id: nat) returns (s': Sys)
      requires Lands(o, id)
      ensures Run(run + [s']) && s' == Apply(Now(), me, o)
      ensures Waiting(o.worker) || (id in o.store.jobs && Terminal(o.store.jobs[id].status) && id !in o.store.secrets)
    {
      var s := Now();
      hide Run, Inv, Enabled, Step, OwnOutcome, OwnJob, Own, Acted;
      var a, t :| Enabled(s, a) && Own(a, me) && OwnJob(s, a, me) == id && OwnOutcome(s, a, t, me) == o;
      RunMore(run, a, t);
      RunInv(run, |run| - 1);
      OwnStep(s, a, t, me);
      OwnActs(s, a, t, me);
      ActedSettles(s.store, s.nodes, id, o);
      s' := Step(s, a, t);
    }

    /** The worker gets to where its step leads. */
    method Land(w: Worker, ghost id: nat)
      requires Lands(Here(w), id)
      modifies this
      ensures Valid() && at == w && old(run) < run && |run| == |old(run)| + 1
      ensures Waiting(w) || (id in jobs.S().jobs && Terminal(jobs.S().jobs[id].status) && id !in jobs.S().secrets)
    {
      hide Run;
      ghost var s' := LandStep(Here(w), id);
      run := run + [s'];
      at, begun := w, false;
    }

    // ----- Waiting -----

    /** The wait that began with this run goes on. */
    ghost predicate StillWaits(before: seq<Sys>, k: Worker)
      reads this, jobs, jobs.storage, servers
    {
      Valid() && Onward(before, run, me, k) && Waits(k, at)
    }

    /** A step that is not the worker's own is taken beside it. */
    lemma Beside(before: seq<Sys>, k: Worker, a: Action, now: int)
      requires Lives() && Onward(before, run, me, k) && Waits(k, at) && Enabled(Now(), a) && !Own(a, me) && a != Poll(me)
      ensures var s' := Step(Now(), a, now);
              Run(run + [s']) && Onward(before, run + [s'], me, k) && me in s'.workers && Waits(k, s'.workers[me])
    {
      RunMore(run, a, now);
      OnwardStep(before, run, a, now, me, k);
      hide Run, Step, Enabled, Own;
    }

    /** An administrator cancels a job. */
    method SomeCancel(id: nat, now: int, ghost before: seq<Sys>, ghost k: Worker)
      requires StillWaits(before, k)
      modifies this`run, jobs, jobs.storage
      ensures StillWaits(before, k) && at == old(at)
    {
      Beside(before, k, CancelJob(id), now);
      hide Run, Cancel;
      var _ := jobs.CancelJob(id, now);
      run := run + [Step(Now(), CancelJob(id), now)];
    }

    /** The application shuts down. */
    method SomeStop(ghost before: seq<Sys>, ghost k: Worker)
      requires StillWaits(before, k)
      modifies this
      ensures StillWaits(before, k) && at == Stop(old(at)) && begun == old(begun)
    {
      Beside(before, k, StopWorker(me), 0);
      hide Run;
      run := run + [Step(Now(), StopWorker(me), 0)];
      at := Stop(at);
    }

    method BeginPhase(ghost before: seq<Sys>, ghost k: Worker)
      requires StillWaits(before, k)
      modifies this
      ensures StillWaits(before, k) && at == old(at) && (at.Running? && at.task.None? ==> begun)
    {
      if at.Running? && at.task.None? && !begun {
        Beside(before, k, PhaseBegins(me), 0);
        hide Run;
        run := run + [Step(Now(), PhaseBegins(me), 0)];
        begun := true;
      }
    }

    method AnyEnding() returns (e: Ending) {
      if * { e := Returned; } else if * { e := StepError("failed"); } else if * { e := AppFailure("failed"); }
      else if * { e := Crashed; } else { e := TaskCancelled; }
    }

    method AnyAnswer() returns (a: Answer) {
      if * { var running: bool := *; var warnings: bool := *; a := Healthy(running, warnings); } else { a := NoAnswer("no answer"); }
    }

    /** The phase's task ends; a health check that returned leaves its result on
        the node. A task cancelled before it began can only end as cancelled. */
    method EndPhase(ghost before: seq<Sys>, ghost k: Worker)
      requires StillWaits(before, k) && at.task.None? && (at.Running? ==> begun)
      modifies this, servers
      ensures StillWaits(before, k) && at.task.Some?
    {
      var e := AnyEnding();
      if !begun { e := TaskCancelled; }
      var answer := AnyAnswer();
      ghost var a := TaskEnds(me, e, answer);
      Beside(before, k, a, 0);
      hide Run, Checked;
      if at.phase.HealthPhase? && e.Returned? && at.phase.node in servers.nodes {
        servers.FinishHealthCheck(at.phase.node, answer);
      }
      run := run + [Step(Now(), a, 0)];
      at := at.(task := Some(e));
    }

    /** Other tasks run. Of what they do nothing is known but this contract: any
        steps of the machine except this worker's own, until, at the last, the
        awaited phase has ended. */
    method Await(left: nat)
      requires Valid() && Waiting(at)
      modifies this, jobs, jobs.storage, servers
      ensures Valid() && Onward(old(run), run, me, old(at)) && Waits(old(at), at)
      ensures left == 0 ==> at.task.Some?
    {
      hide Run, Onward;
      ghost var before, k := run, at;
      OnwardStart(run, me, k);
      if * { var id: nat := *; var now: int := *; SomeCancel(id, now, before, k); }
      BeginPhase(before, k);
      if * { SomeStop(before, k); }
      if left == 0 && at.task.None? { EndPhase(before, k); }
    }

    /** Waits for a phase's task, which lasts some number of polls, while
        watching for a cancelled job and for the stop of the worker. */
    method RunCancellable(id: nat, ghost phase: Phase) returns (r: Waited)
      requires Valid() && at == Running(id, phase, None)
      modifies this, jobs, jobs.storage, servers
      ensures Valid() && old(run) <= run
      ensures Waiting(at) && at.job == id && at.phase == phase && at.task.Some? && r == WaitedFor(at)
    {
      hide Run, Onward;
      var lasts: nat := *;
      var polls: nat := 0;
      while true
        invariant Valid() && old(run) <= run && at == Running(id, phase, None)
        decreases lasts - polls
      {
        label L:
        Await(if polls < lasts then lasts - polls else 0);
        OnwardPrefix(old@L(run), run, me, old@L(at));
        if at.Stopping? {
          r := Drain(Interrupted);
          return;
        }
        if at.task.Some? {
          match at.task.value {
            case Returned => return Completed;
            case TaskCancelled => return Interrupted;
            case error => return Raised(error);
          }
        }
        RunHolds(run, me);
        if jobs.storage.jobs[id].status.Cancelled? {
          Notice();
          r := Drain(Abandoned);
          return;
        }
        polls := polls + 1;
      }
    }

    /** The poll finds the job cancelled: the phase is told to end. */
    method Notice()
      requires Valid() && at.Running? && at.task.None? && at.job in jobs.S().jobs && jobs.S().jobs[at.job].status.Cancelled?
      modifies this
      ensures Valid() && old(run) <= run && at == Draining(old(at).job, old(at).phase, None)
    {
      RunMore(run, Poll(me), 0);
      hide Run;
      run := run + [Step(Now(), Poll(me), 0)];
      at := Draining(at.job, at.phase, None);
    }

    /** Waits for the end of the cancelled phase; its cancellation is swallowed,
        its other errors are not. */
    method Drain(quietly: Waited) returns (r: Waited)
      requires Valid() && (at.Draining? || at.Stopping?) && quietly == if at.Draining? then Abandoned else Interrupted
      modifies this, jobs, jobs.storage, servers
      ensures Valid() && old(run) <= run && Waits(old(at), at) && at.task.Some? && r == WaitedFor(at)
    {
      hide Run, Onward;
      Await(0);
      OnwardPrefix(old(run), run, me, old(at));
      r := if at.task.value.Returned? || at.task.value.TaskCancelled? then quietly else Raised(at.task.value);
    }

    // ----- Running a job -----

    /** The wait for the next phase can begin; afterwards it has returned, or
        what remains to be done is a step of the worker's own. `ran` are the
        phases that have returned so far. */
    method WaitPhase(id: nat, phase: Phase, ghost before: seq<Status>) returns (r: Waited, ghost ran: seq<Status>)
      requires Lands(Here(Running(id, phase, None)), id) && id in jobs.S().jobs
      modifies this, jobs, jobs.storage, servers
      ensures Valid() && old(run) <= run && !r.Tripped?
      ensures id in jobs.S().jobs && jobs.S().jobs[id].options == old(jobs.S()).jobs[id].options
      ensures r.Completed? ==> at == Running(id, phase, Some(Returned)) && ran == before + [PhaseStatus(phase)]
      ensures !r.Completed? ==> EndsLike(r, id)
    {
      hide Run, Resume;
      Land(Running(id, phase, None), id);
      ghost var start: nat := |run| - 1;
      r := RunCancellable(id, phase);
      RunOptions(run, start, id);
      ran := if r.Completed? then before + [PhaseStatus(phase)] else before;
      if !r.Completed? { WaitEnds(r, id); }
    }

    /** Whatever the time, what remains to be done is a step of the worker's own. */
    ghost predicate EndsLike(r: Waited, id: nat)
      reads this, jobs, jobs.storage, servers
    {
      forall t :: Lands(Due(r, jobs.S(), servers.nodes, id, t), id)
    }

    lemma SomeWake(id: nat, t: int) returns (n: nat)
      requires Valid() && Waiting(at) && at.task.Some? && at.job == id
      ensures n !in servers.nodes && Lands(Resume(jobs.S(), servers.nodes, at, t, n), id)
    {
      hide Run, Resume;
      SomeFresh(servers.nodes);
      n :| n !in servers.nodes;
      WakesAt(id, t, n);
    }

    lemma WakesAt(id: nat, t: int, n: nat)
      requires Valid() && Waiting(at) && at.task.Some? && at.job == id && n !in servers.nodes
      ensures Lands(Resume(jobs.S(), servers.nodes, at, t, n), id)
    {
      var s, a := Now(), WakeUp(me, n);
      hide Run, Resume;
      assert Enabled(s, a) && Own(a, me) && OwnJob(s, a, me) == id;
      assert OwnOutcome(s, a, t, me) == Resume(jobs.S(), servers.nodes, at, t, n);
    }

    lemma WaitEnds(r: Waited, id: nat)
      requires Valid() && Waiting(at) && at.task.Some? && at.job == id && r == WaitedFor(at) && !r.Completed?
      ensures EndsLike(r, id)
    {
      hide Run, Resume, Due;
      forall t ensures Lands(Due(r, jobs.S(), servers.nodes, id, t), id) {
        var n := SomeWake(id, t);
        ResumeDue(jobs.S(), servers.nodes, at, t, n);
      }
    }

    method AddNote(id: nat, level: Level, step: Status)
      modifies jobs.storage`events
      ensures jobs.S() == Note(old(jobs.S()), id, level, step)
    {
      jobs.storage.AddSetupEvent(id, JobEvent(level, step, "note"));
    }

    /** From the SSH check, or from the claim, on to the agent's installation. */
    method InstallAgent(id: nat, preflight: bool, ghost before: seq<Status>) returns (r: Waited, ghost ran: seq<Status>)
      requires id in jobs.S().jobs && forall t :: Lands(LaunchAgent(jobs.S(), servers.nodes, id, preflight, t), id)
      modifies this, jobs, jobs.storage, servers
      ensures old(run) <= run && id in jobs.S().jobs && jobs.S().jobs[id].options == old(jobs.S()).jobs[id].options
      ensures r.Completed? ==> Valid() && at == Running(id, AgentPhase, Some(Returned)) && ran == before + [InstallingAgent]
      ensures !r.Completed? ==> EndsLike(r, id)
    {
      hide Run, SetStep, Note, FinishFailed, Lives;
      ran := before;
      ghost var s0, nodes0 := jobs.S(), servers.nodes;
      SetStepMeans(s0, id, {CheckingSsh}, InstallingAgent, "installing agent");
      AgentLaunch(s0, nodes0, id, preflight);
      assert Lands(LaunchAgent(s0, nodes0, id, preflight, 0), id);
      var ok := jobs.AdvanceStep(id, {CheckingSsh}, InstallingAgent, "installing agent");
      if !ok { return Tripped, ran; }
      NoteJob(jobs.S(), id, Info, CheckingSsh);
      if preflight { AddNote(id, Info, CheckingSsh); }
      r, ran := WaitPhase(id, AgentPhase, before);
    }

    /** After the agent's installation: the VPN check if it is asked for, and
        the verification. */
    method AfterAgent(id: nat, options: Options, ghost before: seq<Status>) returns (r: Waited, ghost ran: seq<Status>)
      requires Valid() && at == Running(id, AgentPhase, Some(Returned)) && id in jobs.S().jobs && jobs.S().jobs[id].options == options
      modifies this, jobs, jobs.storage, servers
      ensures old(run) <= run && EndsLike(r, id)
      ensures r.Completed? ==> ran == before + (if options.installAwg then [InstallingVpn] else []) + [Verifying] && Delivered(jobs.S(), servers.nodes, id)
    {
      hide Run, SetStep, Note, FinishFailed, Delivered, LaunchHealth;
      ran := before;
      ghost var s0, nodes0 := jobs.S(), servers.nodes;
      SetStepMeans(s0, id, {InstallingAgent}, InstallingVpn, "checking vpn");
      PhaseReturned(id);
      hide Valid;
      if options.installAwg {
        VpnLaunch(s0, nodes0, id);
        assert Lands(LaunchVpn(s0, nodes0, id), id);
        var ok := jobs.AdvanceStep(id, {InstallingAgent}, InstallingVpn, "checking vpn");
        if !ok { return Abandoned, ran; }
        NoteJob(jobs.S(), id, Info, InstallingAgent);
        AddNote(id, Info, InstallingAgent);
        r, ran := WaitPhase(id, VpnPhase, before);
        if !r.Completed? { return; }
        PhaseReturned(id);
        r, ran := Verify(id, InstallingVpn, options.wantsAvailable, ran);
      } else {
        r, ran := Verify(id, InstallingAgent, options.wantsAvailable, ran);
      }
    }

    /** What follows a phase that has returned. */
    lemma PhaseReturned(id: nat)
      requires Valid() && at.Running? && at.job == id && at.task == Some(Returned) && id in jobs.S().jobs
      ensures var s, nodes := jobs.S(), servers.nodes; var o := s.jobs[id].options;
              && (at.phase.SshPhase? ==> forall t :: Lands(LaunchAgent(s, nodes, id, true, t), id))
              && (at.phase.AgentPhase? && o.installAwg ==> Lands(LaunchVpn(s, nodes, id), id))
              && (at.phase.AgentPhase? && !o.installAwg ==> forall n :: n !in nodes ==> Lands(LaunchHealth(s, nodes, id, InstallingAgent, n), id))
              && (at.phase.VpnPhase? ==> forall n :: n !in nodes ==> Lands(LaunchHealth(s, nodes, id, InstallingVpn, n), id))
              && (at.phase.HealthPhase? ==> forall t :: Lands(Settle(s, nodes, id, at.phase.node, o.wantsAvailable, t), id))
    {
      hide Run, LaunchAgent, LaunchVpn, LaunchHealth, Settle, Lands;
      var s, nodes := jobs.S(), servers.nodes;
      forall t, n | n !in nodes ensures Lands(AfterPhase(s, nodes, id, at.phase, t, n), id) {
        WakesAt(id, t, n);
        assert Resume(s, nodes, at, t, n) == AfterPhase(s, nodes, id, at.phase, t, n);
      }
      SomeFresh(nodes);
      var n: nat :| n !in nodes;
      forall t ensures at.phase.SshPhase? ==> Lands(LaunchAgent(s, nodes, id, true, t), id) {
        assert Lands(AfterPhase(s, nodes, id, at.phase, t, n), id);
      }
      forall t ensures at.phase.HealthPhase? ==> Lands(Settle(s, nodes, id, at.phase.node, s.jobs[id].options.wantsAvailable, t), id) {
        assert Lands(AfterPhase(s, nodes, id, at.phase, t, n), id);
      }
      assert forall n :: n !in nodes ==> Lands(AfterPhase(s, nodes, id, at.phase, 0, n), id);
    }

    /** Registers the node, waits for its health check and finishes the job. */
    method Verify(id: nat, from: Status, wants: bool, ghost before: seq<Status>) returns (r: Waited, ghost ran: seq<Status>)
      requires id in jobs.S().jobs && jobs.S().jobs[id].options.wantsAvailable == wants
      requires forall n :: n !in servers.nodes ==> Lands(LaunchHealth(jobs.S(), servers.nodes, id, from, n), id)
      modifies this, jobs, jobs.storage, servers
      ensures old(run) <= run && EndsLike(r, id)
      ensures r.Completed? ==> ran == before + [Verifying] && Delivered(jobs.S(), servers.nodes, id)
    {
      hide Run, SetStep, Note, FinishFailed, FinishSuccess, Delivered, Valid, Lives;
      ran := before;
      ghost var s0, nodes0 := jobs.S(), servers.nodes;
      SetStepMeans(s0, id, {from}, Verifying, "verifying");
      HealthLaunch(s0, nodes0, id, from);
      SomeFresh(nodes0);
      ghost var spare: nat :| spare !in nodes0;
      assert Lands(LaunchHealth(s0, nodes0, id, from, spare), id);
      var ok := jobs.AdvanceStep(id, {from}, Verifying, "verifying");
      if !ok { return Abandoned, ran; }
      NoteJob(jobs.S(), id, Info, from);
      AddNote(id, Info, from);
      var n := servers.CreateFromSetup(id);
      assert Lands(LaunchHealth(s0, nodes0, id, from, n), id);
      r, ran := WaitPhase(id, HealthPhase(n), before);
      if !r.Completed? { return; }
      PhaseReturned(id);
      NodeIsThere(id, n);
      r := SettleJob(id, n, wants);
    }

    lemma NodeIsThere(id: nat, n: nat)
      requires Valid() && at == Running(id, HealthPhase(n), Some(Returned))
      ensures n in servers.nodes && id in jobs.S().jobs && (jobs.S().jobs[id].status.Verifying? || jobs.S().jobs[id].status.Cancelled?)
    {
      RunWaits(run, me);
      hide Run;
    }

    /** The health check has returned: the job succeeds, and its node is made
        available, or the job fails. */
    method SettleJob(id: nat, n: nat, wants: bool) returns (r: Waited)
      requires n in servers.nodes && id in jobs.S().jobs && jobs.S().jobs[id].options.wantsAvailable == wants
      requires jobs.S().jobs[id].status.Verifying? || jobs.S().jobs[id].status.Cancelled?
      requires forall t :: Lands(Settle(jobs.S(), servers.nodes, id, n, wants, t), id)
      modifies jobs, jobs.storage, servers
      ensures EndsLike(r, id) && (r.Completed? ==> Delivered(jobs.S(), servers.nodes, id))
    {
      hide Run, FinishFailed, FinishSuccess, Lands;
      ghost var s0, nodes0 := jobs.S(), servers.nodes;
      if !Up(servers.nodes[n]) {
        r := Raised(StepError("health check failed"));
        forall t ensures Lands(Due(r, s0, nodes0, id, t), id) {
          assert Lands(Settle(s0, nodes0, id, n, wants, t), id);
        }
        return;
      }
      var now: int := *;
      SuccessMeans(s0, id, n, now);
      ForgetTwice(s0, id, "", now, n);
      hide Forget;
      assert Lands(Settle(s0, nodes0, id, n, wants, now), id);
      var finished := jobs.Succeed(id, n, now);
      if finished { var _ := servers.ActivateAfterSetup(n, wants); }
      r := Completed;
    }

    /** The job that this worker has just claimed. */
    ghost predicate Claimed(id: nat, now: int)
      reads this, jobs, jobs.storage, servers
    {
      && Lives() && at.Idle? && Enabled(Now(), ClaimJob(me, id)) && servers.nodes == Now().nodes
      && jobs.S() == Claim(Now().store, id, now).0
    }

    /** A claimed job begins as the machine says. */
    lemma Begins(id: nat, now: int)
      requires Claimed(id, now)
      ensures Lands(Begin(jobs.S(), servers.nodes, id, now), id)
      ensures id in jobs.S().jobs && jobs.S().jobs[id].status.CheckingSsh?
    {
      var s, a := Now(), ClaimJob(me, id);
      ClaimMeans(s.store, id, now);
      hide Run, Claim, Begin;
      assert Enabled(s, a) && Own(a, me) && OwnJob(s, a, me) == id;
      assert OwnOutcome(s, a, now, me) == Begin(jobs.S(), servers.nodes, id, now);
    }

    /** The status of a job just claimed is as expected, whatever the time. */
    lemma AnyTime(s: Store, nodes: map<nat, Node>, id: nat, now: int)
      requires id in s.jobs && s.jobs[id].status.CheckingSsh? && Lands(LaunchAgent(s, nodes, id, false, now), id)
      ensures forall t :: Lands(LaunchAgent(s, nodes, id, false, t), id)
    {
      hide Lands;
      AgentLaunch(s, nodes, id, false);
      hide LaunchAgent;
    }

    /** The try block: the phases in order, with the exceptions that leave it. */
    method Phases(id: nat, now: int) returns (r: Waited, ghost ran: seq<Status>)
      requires Claimed(id, now) && id in jobs.secrets && id in jobs.S().jobs
      modifies this, jobs, jobs.storage, servers
      ensures old(run) <= run && EndsLike(r, id)
      ensures r.Completed? ==> ran == PhasesFor(old(jobs.S()).jobs[id].options) && Delivered(jobs.S(), servers.nodes, id)
    {
      hide Run, Note, Delivered, LaunchAgent, Claim, Enabled;
      var options := jobs.storage.jobs[id].options;
      Begins(id, now);
      BeginIs(jobs.S(), servers.nodes, id, now);
      hide Begin, Valid, Lives;
      ran := [];
      if options.verifyFirst {
        r, ran := WaitPhase(id, SshPhase, []);
        if !r.Completed? { return; }
        PhaseReturned(id);
      } else {
        NoteJob(jobs.S(), id, Warning, CheckingSsh);
        AddNote(id, Warning, CheckingSsh);
        AnyTime(jobs.S(), servers.nodes, id, now);
      }
      r, ran := InstallAgent(id, options.verifyFirst, ran);
      if !r.Completed? { return; }
      r, ran := AfterAgent(id, options, ran);
    }

    /** Runs one claimed job; the errors of its steps end here. */
    method RunJob(id: nat, now: int) returns (r: RunResult)
      requires Claimed(id, now) && id in jobs.S().jobs
      modifies this, jobs, jobs.storage, servers
      ensures old(run) <= run
      ensures id !in old(jobs.secrets) ==> r.Ended? && id in jobs.S().jobs && jobs.S().jobs[id].status.Failed?
      ensures r.Ended? ==> Lands(Here(Idle), id) && id in jobs.S().jobs && Terminal(jobs.S().jobs[id].status) && id !in jobs.S().secrets
      ensures r.Crash? ==> forall t :: Lands(Failing(jobs.S(), servers.nodes, id, CrashMessage, t, Idle), id)
      ensures r.WorkerStop? ==> forall t :: Lands(Failing(jobs.S(), servers.nodes, id, StopMessage, t, Stopped), id)
    {
      hide Run, FinishFailed, Forget, Claim, Enabled;
      if id !in jobs.secrets {
        Begins(id, now);
        FailsFor(jobs.S(), id, now);
        var _ := jobs.Fail(id, "password no longer held", now);
        ghost var _ := LandStep(Here(Idle), id);
        return Ended;
      }
      ghost var ran;
      var w;
      w, ran := Phases(id, now);
      hide Lands;
      r := Settled(id, w);
      if r.Ended? { ghost var _ := LandStep(Here(Idle), id); }
    }

    /** The except and finally clauses. */
    method Settled(id: nat, w: Waited) returns (r: RunResult)
      requires EndsLike(w, id)
      modifies jobs, jobs.storage
      ensures r == if w.Interrupted? then WorkerStop
                   else if w.Tripped? || (w.Raised? && !w.error.StepError? && !w.error.AppFailure?) then Crash else Ended
      ensures r.Ended? ==> Lands(Here(Idle), id)
      ensures r.Crash? ==> forall t :: Lands(Failing(jobs.S(), servers.nodes, id, CrashMessage, t, Idle), id)
      ensures r.WorkerStop? ==> forall t :: Lands(Failing(jobs.S(), servers.nodes, id, StopMessage, t, Stopped), id)
    {
      hide Lands, Run, FinishFailed, Forget;
      ghost var s0, nodes0 := jobs.S(), servers.nodes;
      var now: int := *;
      assert Lands(Due(w, s0, nodes0, id, now), id);
      FailForgets(s0, id);
      if w.Raised? && (w.error.StepError? || w.error.AppFailure?) {
        var _ := jobs.Fail(id, w.error.message, now);
      }
      if !w.Tripped? { jobs.ForgetSecret(id); }
      r := if w.Interrupted? then WorkerStop
           else if w.Tripped? || (w.Raised? && !w.error.StepError? && !w.error.AppFailure?) then Crash else Ended;
      if !r.Ended? {
        forall t ensures Lands(Due(w, s0, nodes0, id, t), id)
          && FinishFailed(jobs.S(), id, CrashMessage, t).0 == FinishFailed(s0, id, CrashMessage, t).0
          && FinishFailed(jobs.S(), id, StopMessage, t).0 == FinishFailed(s0, id, StopMessage, t).0 {}
      }
    }

    /** The store since an earlier point of the run. */
    lemma KeptSince(before: seq<Sys>)
      requires Valid() && before <= run
      ensures run != [] && run[|run| - 1].store == jobs.S()
      ensures before != [] ==> StoreOk(jobs.S()) && Advances(before[|before| - 1].store, jobs.S())
      ensures before != [] ==> forall id :: id in jobs.S().jobs ==> OnPath(jobs.S().jobs[id])
    {
      if before != [] { RunKeeps(run, |before| - 1); }
      hide Run, StoreOk, Advances, OnPath;
    }

    method TakeJob(now: int) returns (claimed: Option<nat>)
      requires Valid() && at.Idle?
      modifies jobs, jobs.storage
      ensures claimed == ClaimNext(old(jobs.S()), now).1
      ensures if claimed.None? then Valid() else Claimed(claimed.value, now)
    {
      ghost var s := Now();
      hide Run, ClaimNext, Claim;
      ClaimTaken(s, me, now);
      claimed := jobs.ClaimJob(now);
    }

    /** Runs the claimed job; what it lets through fails the job here. */
    method HandleClaimed(id: nat, now: int)
      requires Claimed(id, now)
      modifies this, jobs, jobs.storage, servers
      ensures Valid() && old(run) < run && (at.Idle? || at.Stopped?)
      ensures id in jobs.S().jobs && Terminal(jobs.S().jobs[id].status) && id !in jobs.S().secrets
    {
      hide Run, FinishFailed, Claim, Enabled, Lands, Valid;
      Begins(id, now);
      hide Claimed;
      var r := RunJob(id, now);
      var later: int := *;
      if r.Crash? {
        assert Lands(Failing(jobs.S(), servers.nodes, id, CrashMessage, later, Idle), id);
        var _ := jobs.Fail(id, CrashMessage, later);
      } else if r.WorkerStop? {
        assert Lands(Failing(jobs.S(), servers.nodes, id, StopMessage, later, Stopped), id);
        var _ := jobs.Fail(id, StopMessage, later);
      }
      Land(if r.WorkerStop? then Stopped else Idle, id);
    }

    /** One turn of the worker's loop. Whatever the others do meanwhile, it adds
        to the run, and when it is over the worker is idle or has stopped, and
        the job it claimed has ended and its password is gone. */
    method Turn(now: int) returns (claimed: Option<nat>)
      requires Valid() && at.Idle?
      modifies this, jobs, jobs.storage, servers
      ensures Valid() && old(run) <= run && (at.Idle? || at.Stopped?)
      ensures StoreOk(jobs.S()) && Advances(old(jobs.S()), jobs.S())
      ensures claimed == ClaimNext(old(jobs.S()), now).1
      ensures claimed.Some? ==> old(run) < run && claimed.value in jobs.S().jobs && Terminal(jobs.S().jobs[claimed.value].status)
                                && claimed.value !in jobs.S().secrets && OnPath(jobs.S().jobs[claimed.value])
    {
      ghost var before := run;
      hide ClaimNext, StoreOk, Advances, OnPath, Lives;
      KeptSince(before);
      claimed := TakeTurn(now);
      KeptSince(before);
    }

    method TakeTurn(now: int) returns (claimed: Option<nat>)
      requires Valid() && at.Idle?
      modifies this, jobs, jobs.storage, servers
      ensures Valid() && (at.Idle? || at.Stopped?) && old(run) <= run
      ensures claimed == ClaimNext(old(jobs.S()), now).1
      ensures claimed.Some? ==> old(run) < run && claimed.value in jobs.S().jobs && Terminal(jobs.S().jobs[claimed.value].status)
                                && claimed.value !in jobs.S().secrets
    {
      hide Valid, ClaimNext, Claimed;
      claimed := TakeJob(now);
      if claimed.Some? { HandleClaimed(claimed.value, now); }
    }
  }

  lemma RunKeeps(run: seq<Sys>, start: nat)
    requires Run(run) && start < |run|
    ensures var s := run[|run| - 1].store;
            StoreOk(s) && Advances(run[start].store, s) && forall id :: id in s.jobs ==> OnPath(s.jobs[id])
  {
    RunAdvances(run, start, |run| - 1);
    RunInv(run, |run| - 1);
    hide Run, StoreOk, Advances, Holding, PhasesOk, NodesKnown, Quarantine, OnPath;
  }

  lemma ClaimTaken(s: Sys, w: nat, now: int)
    requires w in s.workers && s.workers[w].Idle?
    ensures var (s1, r) := ClaimNext(s.store, now);
            && (r.None? ==> s1 == s.store)
            && (r.Some? ==> Enabled(s, ClaimJob(w, r.value)) && s1 == Claim(s.store, r.value, now).0)
  {
    hide Oldest, Claim;
    if ClaimNext(s.store, now).1.Some? { ClaimsOldest(s, w, now); }
  }

  lemma FailForgets(s: Store, id: nat)
    ensures forall m, t :: FinishFailed(Forget(s, id), id, m, t).0 == FinishFailed(s, id, m, t).0
                           && Forget(FinishFailed(s, id, m, t).0, id) == FinishFailed(s, id, m, t).0
    ensures Forget(Forget(s, id), id) == Forget(s, id)
  {
    forall m, t { ForgetTwice(s, id, m, t, 0); }
    assert s.secrets - {id} - {id} == s.secrets - {id};
  }

  lemma BeginIs(s: Store, nodes: map<nat, Node>, id: nat, now: int)
    requires id in s.jobs && id in s.secrets
    ensures Begin(s, nodes, id, now) ==
              if s.jobs[id].options.verifyFirst then Outcome(s, nodes, Running(id, SshPhase, None))
              else LaunchAgent(Note(s, id, Warning, CheckingSsh), nodes, id, false, now)
  {
    hide LaunchAgent, Note;
  }

  lemma AgentLaunch(s: Store, nodes: map<nat, Node>, id: nat, preflight: bool)
    requires id in s.jobs
    ensures var (s1, ok) := SetStep(s, id, {CheckingSsh}, InstallingAgent, "installing agent");
            && (!ok ==> s1 == s && forall t :: LaunchAgent(s, nodes, id, preflight, t) == Due(Tripped, s, nodes, id, t))
            && (ok ==> forall t :: LaunchAgent(s, nodes, id, preflight, t) ==
                         Outcome(if preflight then Note(s1, id, Info, CheckingSsh) else s1, nodes, Running(id, AgentPhase, None)))
  {
    hide Note, FinishFailed;
  }

  lemma VpnLaunch(s: Store, nodes: map<nat, Node>, id: nat)
    ensures var (s1, ok) := SetStep(s, id, {InstallingAgent}, InstallingVpn, "checking vpn");
            && (!ok ==> s1 == s)
            && LaunchVpn(s, nodes, id) ==
                 if ok then Outcome(Note(s1, id, Info, InstallingAgent), nodes, Running(id, VpnPhase, None))
                 else Outcome(Forget(s, id), nodes, Idle)
  {
    hide Note;
  }

  lemma HealthLaunch(s: Store, nodes: map<nat, Node>, id: nat, from: Status)
    ensures var (s1, ok) := SetStep(s, id, {from}, Verifying, "verifying");
            && (!ok ==> s1 == s)
            && forall n :: LaunchHealth(s, nodes, id, from, n) ==
                 if ok then Outcome(Note(s1, id, Info, from), nodes[n := Registered(id)], Running(id, HealthPhase(n), None))
                 else Outcome(Forget(s, id), nodes, Idle)
  {
    hide Note;
  }
}
