/**
 Setup workers, cancellations and node administration, interleaved at the
 points where the code awaits. Everything between two awaits is one step.
 */
module SetupMachine {
  import opened Wrappers
  import opened Text
  import opened SetupJobs

  // ----- Nodes -----

  datatype NodeStatus = Fresh | SetupRunning | Online | Warned | Offline | Disabled

  /** A node; `job` tells which setup job created it, if one did, and `byHand`
      whether an administrator was the last to say if it is available. */
  datatype Node = Node(status: NodeStatus, available: bool, job: Option<nat>, lastError: Option<string>, byHand: bool)

  /** A node as a setup job registers it. */
  function Registered(job: nat): Node {
    Node(SetupRunning, false, Some(job), None, false)
  }

  /** Available, and not because an administrator said so. */
  predicate Released(n: Node) {
    n.available && !n.byHand
  }

  /** What the agent answers to a health check. */
  datatype Answer = Healthy(running: bool, warnings: bool) | NoAnswer(message: string)

  /** The effect of a finished health check on the shared node. */
  function Checked(n: Node, a: Answer): Node {
    match a
    case NoAnswer(m) => n.(status := if n.status.Disabled? then Disabled else Offline, lastError := Some(m))
    case Healthy(running, warnings) =>
      n.(status := if n.status.Disabled? then Disabled else if running && !warnings then Online else Warned, lastError := None)
  }

  function SetDisabled(n: Node, disabled: bool): Node {
    if disabled then n.(status := Disabled) else if n.status.Disabled? then n.(status := Fresh) else n
  }

  function SetAvailable(n: Node, available: bool): Node {
    n.(available := available, byHand := true)
  }

  function Activated(n: Node, available: bool): Node {
    n.(available := available, byHand := false)
  }

  // ----- Workers -----

  datatype Phase = SshPhase | AgentPhase | VpnPhase | HealthPhase(node: nat)

  /** How a phase's task ended. */
  datatype Ending = Returned | StepError(message: string) | AppFailure(message: string) | Crashed | TaskCancelled

  /** Where a worker waits. While it waits for a phase, `task` says how the
      phase has ended, once it has. */
  datatype Worker =
    | Idle
    | Running(job: nat, phase: Phase, task: Option<Ending>)
    | Draining(job: nat, phase: Phase, task: Option<Ending>)
    | Stopping(job: nat, phase: Phase, task: Option<Ending>)
    | Stopped

  /** The worker has launched a phase and waits for its end. */
  predicate Waiting(w: Worker) {
    w.Running? || w.Draining? || w.Stopping?
  }

  /** A worker that waits for a phase is in `begun` once the phase's coroutine
      has begun to run. */
  datatype Sys = Sys(store: Store, nodes: map<nat, Node>, workers: map<nat, Worker>, begun: set<nat>)

  /** The status of a job while this phase runs for it. */
  function PhaseStatus(p: Phase): Status {
    match p
    case SshPhase => CheckingSsh
    case AgentPhase => InstallingAgent
    case VpnPhase => InstallingVpn
    case HealthPhase(_) => Verifying
  }

  predicate Holds(w: Worker, id: nat) {
    Waiting(w) && w.job == id
  }

  /** What is decided in one step outside the worker's own place. */
  datatype Outcome = Outcome(store: Store, nodes: map<nat, Node>, worker: Worker)

  const CrashMessage := "internal error"
  const StopMessage := "worker stopped"

  function Failing(s: Store, nodes: map<nat, Node>, id: nat, message: string, now: int, next: Worker): Outcome {
    Outcome(FinishFailed(s, id, message, now).0, nodes, next)
  }

  function Note(s: Store, id: nat, level: Level, step: Status): Store {
    AddEvent(s, id, JobEvent(level, step, "note"))
  }

  /** Leaves the SSH phase: start installing the agent. If somebody else has
      ended the job, the code trips over the missing job and the worker's loop
      catches the crash. */
  function LaunchAgent(s: Store, nodes: map<nat, Node>, id: nat, preflight: bool, now: int): Outcome {
    var (s1, ok) := SetStep(s, id, {CheckingSsh}, InstallingAgent, "installing agent");
    if !ok then Failing(s1, nodes, id, CrashMessage, now, Idle)
    else Outcome(if preflight then Note(s1, id, Info, CheckingSsh) else s1, nodes, Running(id, AgentPhase, None))
  }

  /** Registers the node, quarantined, and starts its health check. */
  function LaunchHealth(s: Store, nodes: map<nat, Node>, id: nat, from: Status, newNode: nat): Outcome {
    var (s1, ok) := SetStep(s, id, {from}, Verifying, "verifying");
    if !ok then Outcome(Forget(s1, id), nodes, Idle)
    else
      Outcome(Note(s1, id, Info, from), nodes[newNode := Registered(id)], Running(id, HealthPhase(newNode), None))
  }

  function LaunchVpn(s: Store, nodes: map<nat, Node>, id: nat): Outcome {
    var (s1, ok) := SetStep(s, id, {InstallingAgent}, InstallingVpn, "checking vpn");
    if !ok then Outcome(Forget(s1, id), nodes, Idle)
    else Outcome(Note(s1, id, Info, InstallingAgent), nodes, Running(id, VpnPhase, None))
  }

  /** The last phase has returned: read the node and settle the job. */
  function Settle(s: Store, nodes: map<nat, Node>, id: nat, node: nat, wants: bool, now: int): Outcome {
    if node !in nodes || !(nodes[node].status.Online? || nodes[node].status.Warned?) then
      Failing(s, nodes, id, "health check failed", now, Idle)
    else
      var (s1, ok) := FinishSuccess(s, id, node, now);
      Outcome(s1, if ok then nodes[node := Activated(nodes[node], wants)] else nodes, Idle)
  }

  /** A phase has returned normally. */
  function AfterPhase(s: Store, nodes: map<nat, Node>, id: nat, phase: Phase, now: int, newNode: nat): Outcome {
    var o := if id in s.jobs then s.jobs[id].options else Options(false, false, false);
    match phase
    case SshPhase => LaunchAgent(s, nodes, id, true, now)
    case AgentPhase => if o.installAwg then LaunchVpn(s, nodes, id) else LaunchHealth(s, nodes, id, InstallingAgent, newNode)
    case VpnPhase => LaunchHealth(s, nodes, id, InstallingVpn, newNode)
    case HealthPhase(n) => Settle(s, nodes, id, n, o.wantsAvailable, now)
  }

  /** The worker wakes up because the phase it waits for has ended. */
  function Resume(s: Store, nodes: map<nat, Node>, w: Worker, now: int, newNode: nat): Outcome
    requires Waiting(w) && w.task.Some?
  {
    match w.task.value
    case StepError(m) => Failing(s, nodes, w.job, m, now, Idle)
    case AppFailure(m) => Failing(s, nodes, w.job, m, now, Idle)
    case Crashed => Failing(s, nodes, w.job, CrashMessage, now, Idle)
    case Returned =>
      if w.Running? then AfterPhase(s, nodes, w.job, w.phase, now, newNode)
      else if w.Draining? then Outcome(Forget(s, w.job), nodes, Idle)
      else Failing(s, nodes, w.job, StopMessage, now, Stopped)
    case TaskCancelled =>
      if w.Draining? then Outcome(Forget(s, w.job), nodes, Idle)
      else Failing(s, nodes, w.job, StopMessage, now, Stopped)
  }

  /** The worker has claimed a job. */
  function Begin(s: Store, nodes: map<nat, Node>, id: nat, now: int): Outcome {
    if id !in s.secrets then Failing(s, nodes, id, "password no longer held", now, Idle)
    else if id in s.jobs && s.jobs[id].options.verifyFirst then Outcome(s, nodes, Running(id, SshPhase, None))
    else LaunchAgent(Note(s, id, Warning, CheckingSsh), nodes, id, false, now)
  }

  // ----- Steps -----

  datatype Action =
    | StartWorker(w: nat)
    | CreateJob(id: nat, options: Options, secret: string, enabled: bool)
    | CancelJob(id: nat)
    | ClaimJob(w: nat, id: nat)
    | PhaseBegins(w: nat)
    | TaskEnds(w: nat, ending: Ending, answer: Answer)
    | WakeUp(w: nat, newNode: nat)
    | Poll(w: nat)
    | StopWorker(w: nat)
    | AddNode(n: nat, available: bool)
    | CheckNode(n: nat, answer: Answer)
    | DisableNode(n: nat, disabled: bool)
    | OfferNode(n: nat, available: bool)

  /** When an action can happen. Ids of new jobs and nodes are fresh; a worker
      claims any queued job, the in-memory one always the oldest. A phase that was
      cancelled before it began never begins, it just ends. */
  predicate Enabled(s: Sys, a: Action) {
    match a
    case StartWorker(w) => w !in s.workers
    case CreateJob(id, _, _, _) => id !in s.store.jobs
    case CancelJob(id) => true
    case ClaimJob(w, id) => w in s.workers && s.workers[w].Idle? && CanMove(s.store, id, {Queued})
    case PhaseBegins(w) => w in s.workers && s.workers[w].Running? && s.workers[w].task.None? && w !in s.begun
    case TaskEnds(w, ending, _) =>
      && w in s.workers && Waiting(s.workers[w]) && s.workers[w].task.None?
      && (w in s.begun || (ending.TaskCancelled? && !s.workers[w].Running?))
    case WakeUp(w, n) => w in s.workers && Waiting(s.workers[w]) && s.workers[w].task.Some? && n !in s.nodes
    case Poll(w) => w in s.workers && s.workers[w].Running? && s.workers[w].task.None?
    case StopWorker(w) => w in s.workers
    case AddNode(n, _) => n !in s.nodes
    case CheckNode(n, _) => n in s.nodes
    case DisableNode(n, _) => n in s.nodes
    case OfferNode(n, _) => n in s.nodes
  }

  function Stop(w: Worker): Worker {
    match w
    case Idle => Stopped
    case Running(j, p, t) => Stopping(j, p, t)
    case _ => w
  }

  function Apply(s: Sys, w: nat, o: Outcome): Sys {
    Sys(o.store, o.nodes, s.workers[w := o.worker], s.begun - {w})
  }

  function Step(s: Sys, a: Action, now: int): Sys
    requires Enabled(s, a)
  {
    match a
    case StartWorker(w) => s.(workers := s.workers[w := Idle])
    case CreateJob(id, options, secret, enabled) => s.(store := Create(s.store, id, options, secret, enabled, now).0)
    case CancelJob(id) => s.(store := Cancel(s.store, id, now).0)
    case ClaimJob(w, id) => Apply(s, w, Begin(Claim(s.store, id, now).0, s.nodes, id, now))
    case PhaseBegins(w) => s.(begun := s.begun + {w})
    case TaskEnds(w, ending, answer) =>
      var k := s.workers[w];
      var nodes := if k.phase.HealthPhase? && ending.Returned? && k.phase.node in s.nodes
                   then s.nodes[k.phase.node := Checked(s.nodes[k.phase.node], answer)] else s.nodes;
      s.(nodes := nodes, workers := s.workers[w := k.(task := Some(ending))])
    case WakeUp(w, n) => Apply(s, w, Resume(s.store, s.nodes, s.workers[w], now, n))
    case Poll(w) =>
      var k := s.workers[w];
      if CanMove(s.store, k.job, {Cancelled}) then s.(workers := s.workers[w := Draining(k.job, k.phase, None)]) else s
    case StopWorker(w) => s.(workers := s.workers[w := Stop(s.workers[w])])
    case AddNode(n, available) => s.(nodes := s.nodes[n := Node(Fresh, available, None, None, true)])
    case CheckNode(n, answer) => s.(nodes := s.nodes[n := Checked(s.nodes[n], answer)])
    case DisableNode(n, disabled) => s.(nodes := s.nodes[n := SetDisabled(s.nodes[n], disabled)])
    case OfferNode(n, available) => s.(nodes := s.nodes[n := SetAvailable(s.nodes[n], available)])
  }

  // ----- The invariant -----

  /** The job of a waiting worker is in the phase's status, unless it was
      cancelled meanwhile; a worker drains only cancelled jobs. */
  predicate WorkerOk(s: Store, nodes: map<nat, Node>, w: Worker) {
    Waiting(w) ==>
      && w.job in s.jobs
      && (s.jobs[w.job].status == Cancelled || (!w.Draining? && s.jobs[w.job].status == PhaseStatus(w.phase)))
      && (w.phase.HealthPhase? ==> w.phase.node in nodes && nodes[w.phase.node].job == Some(w.job))
  }

  predicate Busy(st: Status) {
    !Terminal(st) && !st.Queued?
  }

  /** The statuses on the way to this one, with these options, if the job is not
      ended early. */
  function Path(o: Options, st: Status): seq<Status>
    decreases Rank(st)
  {
    match st
    case CheckingSsh => [Queued, CheckingSsh]
    case InstallingAgent => [Queued, CheckingSsh, InstallingAgent]
    case InstallingVpn => [Queued, CheckingSsh, InstallingAgent, InstallingVpn]
    case Verifying => [Queued, CheckingSsh, InstallingAgent] + (if o.installAwg then [InstallingVpn] else []) + [Verifying]
    case Success => Path(o, Verifying) + [Success]
    case _ => [Queued]
  }

  /** Unless it failed or was cancelled, the job has gone exactly the way that
      its options ask for. */
  predicate OnPath(j: Job) {
    j.status.Failed? || j.status.Cancelled? || (j.trail == Path(j.options, j.status) && (j.status.InstallingVpn? ==> j.options.installAwg))
  }

  /** The next status on the way. */
  predicate Follows(o: Options, from: Status, to: Status) {
    || (from.Queued? && to.CheckingSsh?)
    || (from.CheckingSsh? && to.InstallingAgent?)
    || (from.InstallingAgent? && to == if o.installAwg then InstallingVpn else Verifying)
    || (from.InstallingVpn? && to.Verifying?)
    || (from.Verifying? && to.Success?)
  }

  lemma PathStep(j: Job, to: Status)
    requires OnPath(j) && Follows(j.options, j.status, to)
    ensures OnPath(Entered(j, to))
  {}

  /** The nodes made by a job: at most one, which exists only once the job
      verifies it, is released only if the job succeeded, named it and asked for
      it, and is the one that a successful job names. */
  ghost predicate OwnNodes(s: Store, nodes: map<nat, Node>, id: nat)
    requires id in s.jobs
  {
    var j := s.jobs[id];
    && (forall n, m :: n in nodes && m in nodes && nodes[n].job == Some(id) && nodes[m].job == Some(id) ==> n == m)
    && (forall n :: n in nodes && nodes[n].job == Some(id) ==>
          Rank(j.status) >= Rank(Verifying)
          && (Released(nodes[n]) ==> j.status == Success && j.nodeId == Some(n) && j.options.wantsAvailable))
    && (j.nodeId.Some? ==> j.nodeId.value in nodes && nodes[j.nodeId.value].job == Some(id))
  }

  /** Different workers hold different jobs, and every job under way is held. */
  ghost predicate Holding(s: Sys) {
    && (forall v, w, id :: v in s.workers && w in s.workers && Holds(s.workers[v], id) && Holds(s.workers[w], id) ==> v == w)
    && (forall id :: id in s.store.jobs && Busy(s.store.jobs[id].status) ==> (exists w :: w in s.workers && Holds(s.workers[w], id)))
  }

  ghost predicate PhasesOk(s: Sys) {
    forall w :: w in s.workers ==> WorkerOk(s.store, s.nodes, s.workers[w])
  }

  ghost predicate NodesKnown(s: Sys) {
    forall n :: n in s.nodes && s.nodes[n].job.Some? ==> s.nodes[n].job.value in s.store.jobs
  }

  ghost predicate Quarantine(s: Sys) {
    forall id :: id in s.store.jobs ==> OwnNodes(s.store, s.nodes, id)
  }

  ghost predicate Paths(s: Store) {
    forall id :: id in s.jobs ==> OnPath(s.jobs[id])
  }

  ghost predicate Inv(s: Sys) {
    StoreOk(s.store) && Holding(s) && PhasesOk(s) && NodesKnown(s) && Quarantine(s) && Paths(s.store)
  }

  // ----- Steps of one job -----

  /** From s0 to s, everything that happened concerns this job. */
  ghost predicate Reached(s0: Store, s: Store, id: nat) {
    && StoreOk(s) && Advances(s0, s) && s.jobs.Keys == s0.jobs.Keys && id in s0.jobs
    && forall other :: other in s0.jobs && other != id ==> s.jobs[other] == s0.jobs[other]
  }

  /** No node changed but the job's own, which may be new. */
  ghost predicate NodesStep(nodes0: map<nat, Node>, nodes: map<nat, Node>, id: nat) {
    && (forall n :: n in nodes0 ==> n in nodes && nodes[n].job == nodes0[n].job && (nodes[n].job != Some(id) ==> nodes[n] == nodes0[n]))
    && (forall n :: n in nodes && n !in nodes0 ==> nodes[n].job == Some(id))
  }

  ghost predicate OutcomeOk(s0: Store, nodes0: map<nat, Node>, id: nat, o: Outcome) {
    && Reached(s0, o.store, id) && NodesStep(nodes0, o.nodes, id) && OwnNodes(o.store, o.nodes, id)
    && OnPath(o.store.jobs[id]) && WorkerOk(o.store, o.nodes, o.worker)
    && (o.worker.Idle? || o.worker.Stopped? || Holds(o.worker, id))
    && (Busy(o.store.jobs[id].status) ==> Holds(o.worker, id))
  }

  lemma AdvancesTrans(a: Store, b: Store, c: Store)
    requires Advances(a, b) && Advances(b, c)
    ensures Advances(a, c)
  {
    forall id | id in a.jobs ensures id in c.jobs && JobAdvances(a.jobs[id], c.jobs[id]) {
      assert JobAdvances(a.jobs[id], b.jobs[id]) && JobAdvances(b.jobs[id], c.jobs[id]);
    }
  }

  lemma Further(s0: Store, s: Store, s': Store, id: nat)
    requires Reached(s0, s, id) && StoreOk(s') && Advances(s, s') && s'.jobs.Keys == s.jobs.Keys
    requires forall other :: other in s.jobs && other != id ==> s'.jobs[other] == s.jobs[other]
    ensures Reached(s0, s', id)
  {
    hide StoreOk, JobAdvances;
    AdvancesTrans(s0, s, s');
    hide Advances;
  }

  lemma NoteOk(s: Store, id: nat, level: Level, step: Status)
    requires StoreOk(s) && id in s.jobs && !Terminal(step)
    ensures StoreOk(Note(s, id, level, step)) && Advances(s, Note(s, id, level, step))
  {
    var e := JobEvent(level, step, "note");
    EndingsSnoc(EventsOf(s, id), e);
    assert Endings(EventsOf(s, id)) + [] == Endings(EventsOf(s, id));
    Standstill();
    NoteIsMove(s, id, e);
    hide TrailOk, JobAdvances, Endings, Listed, SecretsOk, Advances;
    MoveOk(s, id, s.jobs[id], e);
  }

  lemma NoteIsMove(s: Store, id: nat, e: JobEvent)
    requires SecretsOk(s) && id in s.jobs
    ensures MoveJob(s, id, s.jobs[id], e) == AddEvent(s, id, e)
  {
    assert s.jobs[id := s.jobs[id]] == s.jobs;
    assert Terminal(s.jobs[id].status) ==> s.secrets - {id} == s.secrets;
  }

  lemma NoteReached(s0: Store, s: Store, id: nat, level: Level, step: Status)
    requires Reached(s0, s, id) && !Terminal(step)
    ensures Reached(s0, Note(s, id, level, step), id)
  {
    hide StoreOk, Advances;
    NoteOk(s, id, level, step);
    Further(s0, s, Note(s, id, level, step), id);
  }

  lemma SetStepReached(s0: Store, s: Store, id: nat, expected: set<Status>, status: Status, message: string)
    requires Reached(s0, s, id) && !Terminal(status) && status != CheckingSsh
    requires forall e :: e in expected ==> Rank(e) < Rank(status)
    ensures Reached(s0, SetStep(s, id, expected, status, message).0, id)
  {
    hide StoreOk, Advances, Rank;
    SetStepOk(s, id, expected, status, message);
    Further(s0, s, SetStep(s, id, expected, status, message).0, id);
  }

  lemma ForgetReached(s0: Store, s: Store, id: nat)
    requires Reached(s0, s, id)
    ensures Reached(s0, Forget(s, id), id)
  {
    hide StoreOk, Advances;
    ForgetOk(s, id);
    Further(s0, s, Forget(s, id), id);
  }

  lemma FailedReached(s0: Store, s: Store, id: nat, message: string, now: int)
    requires Reached(s0, s, id)
    ensures Reached(s0, FinishFailed(s, id, message, now).0, id)
    ensures Terminal(FinishFailed(s, id, message, now).0.jobs[id].status)
    ensures id !in FinishFailed(s, id, message, now).0.secrets
  {
    hide StoreOk, Advances, NonTerminal;
    FinishFailedOk(s, id, message, now);
    Further(s0, s, FinishFailed(s, id, message, now).0, id);
  }

  lemma SucceededReached(s0: Store, s: Store, id: nat, node: nat, now: int)
    requires Reached(s0, s, id)
    ensures Reached(s0, FinishSuccess(s, id, node, now).0, id)
    ensures id !in FinishSuccess(s, id, node, now).0.secrets
  {
    hide StoreOk, Advances;
    FinishSuccessOk(s, id, node, now);
    Further(s0, s, FinishSuccess(s, id, node, now).0, id);
  }

  /** The state in which a worker acts on its job. */
  ghost predicate Acting(s0: Store, s: Store, nodes: map<nat, Node>, id: nat) {
    Reached(s0, s, id) && id in s.jobs && OwnNodes(s, nodes, id) && OnPath(s.jobs[id])
  }

  /** A job that gains no node and does not leave success keeps its nodes. */
  lemma OwnKept(s: Store, s': Store, nodes: map<nat, Node>, id: nat)
    requires id in s.jobs && id in s'.jobs && OwnNodes(s, nodes, id)
    requires var j, j' := s.jobs[id], s'.jobs[id];
             j'.nodeId == j.nodeId && j'.options == j.options && Rank(j'.status) >= Rank(j.status) && (j.status == Success ==> j' == j)
    ensures OwnNodes(s', nodes, id)
  {
    hide Rank;
  }

  lemma SameNodes(nodes: map<nat, Node>, id: nat)
    ensures NodesStep(nodes, nodes, id)
  {}

  lemma FailingOk(s0: Store, s: Store, nodes: map<nat, Node>, id: nat, message: string, now: int, next: Worker)
    requires Acting(s0, s, nodes, id) && (next.Idle? || next.Stopped?)
    ensures OutcomeOk(s0, nodes, id, Failing(s, nodes, id, message, now, next))
    ensures id !in Failing(s, nodes, id, message, now, next).store.secrets
  {
    hide Reached, Rank, OwnNodes, FinishFailed, NodesStep;
    FailedReached(s0, s, id, message, now);
    JobFails(s, id, message, now);
    SameNodes(nodes, id);
    OwnKept(s, FinishFailed(s, id, message, now).0, nodes, id);
  }

  /** Failing a job names no node and takes nothing back from a successful job. */
  lemma JobFails(s: Store, id: nat, message: string, now: int)
    requires id in s.jobs
    ensures var r := FinishFailed(s, id, message, now).0; var j := s.jobs[id];
            && id in r.jobs && r.jobs[id].nodeId == j.nodeId && r.jobs[id].options == j.options
            && Rank(r.jobs[id].status) >= Rank(j.status) && (j.status == Success ==> r.jobs[id] == j)
            && (r.jobs[id].status.Failed? || r.jobs[id] == j)
  {}

  /** The phase that a worker launches is that of a job in that status. */
  ghost predicate Launched(o: Outcome, id: nat) {
    o.worker.Running? && o.worker.task.None? && id in o.store.jobs && o.store.jobs[id].status == PhaseStatus(o.worker.phase)
  }

  /** Gone: the worker has let go of an ended job whose password is lost. */
  ghost predicate Gone(o: Outcome, id: nat) {
    (o.worker.Idle? || o.worker.Stopped?) && id in o.store.jobs && Terminal(o.store.jobs[id].status) && id !in o.store.secrets
  }

  /** What a worker does between two waits: go on to a phase, or let go. */
  ghost predicate Acted(s0: Store, nodes0: map<nat, Node>, id: nat, o: Outcome) {
    OutcomeOk(s0, nodes0, id, o) && (Launched(o, id) || Gone(o, id))
  }

  lemma LaunchAgentOk(s0: Store, s: Store, nodes: map<nat, Node>, id: nat, preflight: bool, now: int)
    requires Acting(s0, s, nodes, id) && (s.jobs[id].status == CheckingSsh || s.jobs[id].status == Cancelled)
    ensures Acted(s0, nodes, id, LaunchAgent(s, nodes, id, preflight, now))
  {
    hide Reached, OwnNodes, NodesStep, SetStep, Note, Failing, OutcomeOk;
    var (s1, ok) := SetStep(s, id, {CheckingSsh}, InstallingAgent, "installing agent");
    SetStepReached(s0, s, id, {CheckingSsh}, InstallingAgent, "installing agent");
    SetStepMeans(s, id, {CheckingSsh}, InstallingAgent, "installing agent");
    if ok { PathStep(s.jobs[id], InstallingAgent); }
    OwnKept(s, s1, nodes, id);
    if !ok {
      FailingOk(s0, s1, nodes, id, CrashMessage, now, Idle);
      FailingGone(s1, nodes, id, now, Idle);
    } else {
      NoteReached(s0, s1, id, Info, CheckingSsh);
      NoteJob(s1, id, Info, CheckingSsh);
      SameNodes(nodes, id);
      var o := LaunchAgent(s, nodes, id, preflight, now);
      OwnKept(s1, o.store, nodes, id);
      LaunchOk(s0, nodes, id, o);
    }
  }

  lemma SetStepMeans(s: Store, id: nat, expected: set<Status>, status: Status, message: string)
    requires id in s.jobs
    ensures var (s1, ok) := SetStep(s, id, expected, status, message);
            && (ok <==> s.jobs[id].status in expected) && id in s1.jobs && s1.jobs.Keys == s.jobs.Keys
            && s1.jobs[id] == if ok then Entered(s.jobs[id], status) else s.jobs[id]
  {}

  lemma NoteJob(s: Store, id: nat, level: Level, step: Status)
    ensures Note(s, id, level, step).jobs == s.jobs
  {}

  lemma FailingGone(s: Store, nodes: map<nat, Node>, id: nat, now: int, next: Worker)
    requires id in s.jobs && (next.Idle? || next.Stopped?)
    ensures forall m :: Gone(Failing(s, nodes, id, m, now, next), id)
  {
    hide NonTerminal;
  }

  lemma LaunchOk(s0: Store, nodes0: map<nat, Node>, id: nat, o: Outcome)
    requires Reached(s0, o.store, id) && NodesStep(nodes0, o.nodes, id) && OwnNodes(o.store, o.nodes, id) && OnPath(o.store.jobs[id])
    requires o.worker.Running? && o.worker.job == id && o.worker.task.None? && o.store.jobs[id].status == PhaseStatus(o.worker.phase)
    requires o.worker.phase.HealthPhase? ==> o.worker.phase.node in o.nodes && o.nodes[o.worker.phase.node].job == Some(id)
    ensures Acted(s0, nodes0, id, o)
  {
    hide NodesStep, OwnNodes, StoreOk, Advances;
  }

  lemma ForgetGone(s0: Store, s: Store, nodes: map<nat, Node>, id: nat)
    requires Acting(s0, s, nodes, id) && Terminal(s.jobs[id].status)
    ensures Acted(s0, nodes, id, Outcome(Forget(s, id), nodes, Idle))
  {
    hide Reached, OwnNodes, NodesStep;
    ForgetReached(s0, s, id);
    SameNodes(nodes, id);
    OwnKept(s, Forget(s, id), nodes, id);
  }

  lemma LaunchVpnOk(s0: Store, s: Store, nodes: map<nat, Node>, id: nat)
    requires Acting(s0, s, nodes, id) && (s.jobs[id].status == InstallingAgent || s.jobs[id].status == Cancelled)
    requires s.jobs[id].options.installAwg
    ensures Acted(s0, nodes, id, LaunchVpn(s, nodes, id))
  {
    hide Reached, OwnNodes, NodesStep, SetStep, Note, OutcomeOk, Forget;
    var (s1, ok) := SetStep(s, id, {InstallingAgent}, InstallingVpn, "checking vpn");
    SetStepReached(s0, s, id, {InstallingAgent}, InstallingVpn, "checking vpn");
    SetStepMeans(s, id, {InstallingAgent}, InstallingVpn, "checking vpn");
    if ok { PathStep(s.jobs[id], InstallingVpn); }
    OwnKept(s, s1, nodes, id);
    if !ok {
      ForgetGone(s0, s1, nodes, id);
    } else {
      NoteReached(s0, s1, id, Info, InstallingAgent);
      NoteJob(s1, id, Info, InstallingAgent);
      SameNodes(nodes, id);
      var o := LaunchVpn(s, nodes, id);
      OwnKept(s1, o.store, nodes, id);
      LaunchOk(s0, nodes, id, o);
    }
  }

  /** A node registered for a job that had none yet is its only one. */
  lemma NewNodeOk(s: Store, s': Store, nodes: map<nat, Node>, id: nat, n: nat)
    requires id in s.jobs && id in s'.jobs && OwnNodes(s, nodes, id) && n !in nodes
    requires Rank(s.jobs[id].status) < Rank(Verifying) && s'.jobs[id].status == Verifying
    requires s'.jobs[id].nodeId == s.jobs[id].nodeId
    ensures var nodes' := nodes[n := Registered(id)];
            OwnNodes(s', nodes', id) && NodesStep(nodes, nodes', id)
  {}

  lemma LaunchHealthOk(s0: Store, s: Store, nodes: map<nat, Node>, id: nat, from: Status, n: nat)
    requires Acting(s0, s, nodes, id) && (from.InstallingAgent? || from.InstallingVpn?) && n !in nodes
    requires s.jobs[id].status == from || s.jobs[id].status == Cancelled
    requires from.InstallingAgent? ==> !s.jobs[id].options.installAwg
    ensures Acted(s0, nodes, id, LaunchHealth(s, nodes, id, from, n))
  {
    hide Reached, OwnNodes, NodesStep, SetStep, Note, OutcomeOk, Forget;
    var (s1, ok) := SetStep(s, id, {from}, Verifying, "verifying");
    SetStepReached(s0, s, id, {from}, Verifying, "verifying");
    SetStepMeans(s, id, {from}, Verifying, "verifying");
    if !ok {
      OwnKept(s, s1, nodes, id);
      ForgetGone(s0, s1, nodes, id);
    } else {
      PathStep(s.jobs[id], Verifying);
      NoteReached(s0, s1, id, Info, from);
      NoteJob(s1, id, Info, from);
      var o := LaunchHealth(s, nodes, id, from, n);
      NewNodeOk(s, o.store, nodes, id, n);
      LaunchOk(s0, nodes, id, o);
    }
  }

  /** A success names the job's node and offers it as the job asked. */
  lemma OfferOk(s: Store, s': Store, nodes: map<nat, Node>, id: nat, n: nat)
    requires id in s.jobs && id in s'.jobs && OwnNodes(s, nodes, id) && n in nodes && nodes[n].job == Some(id)
    requires s'.jobs[id].status == Success && s'.jobs[id].nodeId == Some(n) && s'.jobs[id].options == s.jobs[id].options
    ensures var nodes' := nodes[n := Activated(nodes[n], s.jobs[id].options.wantsAvailable)];
            OwnNodes(s', nodes', id) && NodesStep(nodes, nodes', id)
  {}

  lemma SuccessMeans(s: Store, id: nat, n: nat, now: int)
    requires id in s.jobs
    ensures var (s1, ok) := FinishSuccess(s, id, n, now);
            && (ok <==> s.jobs[id].status == Verifying) && id in s1.jobs
            && s1.jobs[id] == if ok then Finished(s.jobs[id], Success, now).(nodeId := Some(n)) else s.jobs[id]
  {}

  lemma SettleOk(s0: Store, s: Store, nodes: map<nat, Node>, id: nat, n: nat, now: int)
    requires Acting(s0, s, nodes, id) && (s.jobs[id].status == Verifying || s.jobs[id].status == Cancelled)
    requires n in nodes && nodes[n].job == Some(id)
    ensures Acted(s0, nodes, id, Settle(s, nodes, id, n, s.jobs[id].options.wantsAvailable, now))
  {
    hide Reached, OwnNodes, NodesStep, FinishSuccess, Failing;
    if !(nodes[n].status.Online? || nodes[n].status.Warned?) {
      hide OutcomeOk;
      FailingOk(s0, s, nodes, id, "health check failed", now, Idle);
      FailingGone(s, nodes, id, now, Idle);
    } else {
      var (s1, ok) := FinishSuccess(s, id, n, now);
      SucceededReached(s0, s, id, n, now);
      SuccessMeans(s, id, n, now);
      if ok {
        PathStep(s.jobs[id], Success);
        OfferOk(s, s1, nodes, id, n);
      } else {
        SameNodes(nodes, id);
        OwnKept(s, s1, nodes, id);
      }
    }
  }

  lemma AfterPhaseOk(s: Store, nodes: map<nat, Node>, id: nat, phase: Phase, now: int, n: nat)
    requires Acting(s, s, nodes, id) && WorkerOk(s, nodes, Running(id, phase, Some(Returned))) && n !in nodes
    ensures Acted(s, nodes, id, AfterPhase(s, nodes, id, phase, now, n))
  {
    hide Reached, OwnNodes, Acted, LaunchAgent, LaunchVpn, LaunchHealth, Settle;
    match phase
    case SshPhase => LaunchAgentOk(s, s, nodes, id, true, now);
    case AgentPhase =>
      if s.jobs[id].options.installAwg { LaunchVpnOk(s, s, nodes, id); } else { LaunchHealthOk(s, s, nodes, id, InstallingAgent, n); }
    case VpnPhase => LaunchHealthOk(s, s, nodes, id, InstallingVpn, n);
    case HealthPhase(k) => SettleOk(s, s, nodes, id, k, now);
  }

  lemma ResumeOk(s: Store, nodes: map<nat, Node>, w: Worker, now: int, n: nat)
    requires Waiting(w) && w.task.Some? && n !in nodes
    requires Acting(s, s, nodes, w.job) && WorkerOk(s, nodes, w)
    ensures Acted(s, nodes, w.job, Resume(s, nodes, w, now, n))
  {
    hide Reached, OwnNodes, AfterPhase, Failing, Forget, OutcomeOk;
    FailingGone(s, nodes, w.job, now, Idle);
    FailingGone(s, nodes, w.job, now, Stopped);
    forall m { FailingOk(s, s, nodes, w.job, m, now, Idle); }
    FailingOk(s, s, nodes, w.job, StopMessage, now, Stopped);
    if w.Running? { AfterPhaseOk(s, nodes, w.job, w.phase, now, n); }
    if w.Draining? { ForgetGone(s, s, nodes, w.job); }
  }

  lemma ClaimMeans(s: Store, id: nat, now: int)
    requires CanMove(s, id, {Queued})
    ensures var s1 := Claim(s, id, now).0;
            && s1.jobs.Keys == s.jobs.Keys && (forall other :: other in s.jobs && other != id ==> s1.jobs[other] == s.jobs[other])
            && id in s.jobs && s.jobs[id].status.Queued? && id in s1.jobs && s1.jobs[id].status == CheckingSsh
            && s1.jobs[id].nodeId == s.jobs[id].nodeId && s1.jobs[id].options == s.jobs[id].options
            && s1.jobs[id].trail == s.jobs[id].trail + [CheckingSsh]
  {}

  lemma ClaimReached(s: Store, id: nat, now: int)
    requires StoreOk(s) && CanMove(s, id, {Queued})
    ensures Reached(s, Claim(s, id, now).0, id)
  {
    hide StoreOk, Advances, Claim;
    ClaimOk(s, id, now);
    ClaimMeans(s, id, now);
  }

  lemma ClaimActing(s: Store, nodes: map<nat, Node>, id: nat, now: int)
    requires StoreOk(s) && CanMove(s, id, {Queued}) && OwnNodes(s, nodes, id) && OnPath(s.jobs[id])
    ensures var s1 := Claim(s, id, now).0;
            Acting(s, s1, nodes, id) && s1.jobs[id].status == CheckingSsh
  {
    hide StoreOk, Advances, Claim, Reached, OwnNodes;
    ClaimReached(s, id, now);
    ClaimMeans(s, id, now);
    OwnKept(s, Claim(s, id, now).0, nodes, id);
  }

  lemma BeginOk(s: Store, nodes: map<nat, Node>, id: nat, now: int)
    requires StoreOk(s) && CanMove(s, id, {Queued}) && OwnNodes(s, nodes, id) && OnPath(s.jobs[id])
    ensures Acted(s, nodes, id, Begin(Claim(s, id, now).0, nodes, id, now))
  {
    hide StoreOk, Reached, OwnNodes, NodesStep, Note, Failing, LaunchAgent, OutcomeOk, Claim, Acted;
    ClaimActing(s, nodes, id, now);
    BegunOk(s, Claim(s, id, now).0, nodes, id, now);
  }

  lemma BegunOk(s: Store, s1: Store, nodes: map<nat, Node>, id: nat, now: int)
    requires Acting(s, s1, nodes, id) && s1.jobs[id].status == CheckingSsh
    ensures Acted(s, nodes, id, Begin(s1, nodes, id, now))
  {
    hide Reached, OwnNodes, NodesStep, Note, Failing, LaunchAgent, OutcomeOk;
    if id !in s1.secrets {
      FailingOk(s, s1, nodes, id, "password no longer held", now, Idle);
      FailingGone(s1, nodes, id, now, Idle);
    } else if s1.jobs[id].options.verifyFirst {
      SameNodes(nodes, id);
      LaunchOk(s, nodes, id, Outcome(s1, nodes, Running(id, SshPhase, None)));
    } else {
      NoteReached(s, s1, id, Warning, CheckingSsh);
      NoteJob(s1, id, Warning, CheckingSsh);
      OwnKept(s1, Note(s1, id, Warning, CheckingSsh), nodes, id);
      LaunchAgentOk(s, Note(s1, id, Warning, CheckingSsh), nodes, id, false, now);
    }
  }
}
