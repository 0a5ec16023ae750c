/**
 What holds in every run of setup workers, cancellations and node
 administration, whatever the order of their steps.
 */
module SetupTheorems {
  import opened Wrappers
  import opened SetupJobs
  import opened SetupMachine

  // ----- One job's worker acts -----

  lemma OthersOwn(s0: Store, s: Store, nodes0: map<nat, Node>, nodes: map<nat, Node>, id: nat, other: nat)
    requires Reached(s0, s, id) && NodesStep(nodes0, nodes, id) && other in s0.jobs && other != id && OwnNodes(s0, nodes0, other)
    ensures other in s.jobs && OwnNodes(s, nodes, other)
  {
    hide StoreOk, Advances, Rank;
  }

  lemma OthersWork(s0: Store, s: Store, nodes0: map<nat, Node>, nodes: map<nat, Node>, id: nat, w: Worker)
    requires Reached(s0, s, id) && NodesStep(nodes0, nodes, id) && WorkerOk(s0, nodes0, w) && !Holds(w, id)
    ensures WorkerOk(s, nodes, w)
  {
    hide StoreOk, Advances;
  }

  lemma ActedHolding(s: Sys, w: nat, id: nat, o: Outcome)
    requires Holding(s) && w in s.workers && Reached(s.store, o.store, id)
    requires s.workers[w].Idle? || Holds(s.workers[w], id)
    requires forall v :: v in s.workers && v != w ==> !Holds(s.workers[v], id)
    requires o.worker.Idle? || o.worker.Stopped? || Holds(o.worker, id)
    requires Busy(o.store.jobs[id].status) ==> Holds(o.worker, id)
    ensures Holding(Apply(s, w, o))
  {
    hide StoreOk, Advances, Busy;
    var s' := Apply(s, w, o);
    forall other | other in s'.store.jobs && Busy(s'.store.jobs[other].status)
      ensures exists v :: v in s'.workers && Holds(s'.workers[v], other)
    {
      if other == id {
        assert Holds(s'.workers[w], id);
      } else {
        var v :| v in s.workers && Holds(s.workers[v], other);
        assert s'.workers[v] == s.workers[v];
      }
    }
  }

  lemma ActedQuarantine(s: Sys, w: nat, id: nat, o: Outcome)
    requires Quarantine(s) && Reached(s.store, o.store, id) && NodesStep(s.nodes, o.nodes, id)
    requires id in o.store.jobs && OwnNodes(o.store, o.nodes, id) && o.store.jobs.Keys == s.store.jobs.Keys
    ensures Quarantine(Apply(s, w, o))
  {
    hide Reached, NodesStep, OwnNodes;
    forall other | other in s.store.jobs && other != id ensures OwnNodes(o.store, o.nodes, other) {
      OthersOwn(s.store, o.store, s.nodes, o.nodes, id, other);
    }
  }

  lemma ActedPhases(s: Sys, w: nat, id: nat, o: Outcome)
    requires PhasesOk(s) && Reached(s.store, o.store, id) && NodesStep(s.nodes, o.nodes, id) && WorkerOk(o.store, o.nodes, o.worker)
    requires forall v :: v in s.workers && v != w ==> !Holds(s.workers[v], id)
    ensures PhasesOk(Apply(s, w, o))
  {
    hide Reached, NodesStep, WorkerOk, Holds;
    forall v | v in s.workers && v != w ensures WorkerOk(o.store, o.nodes, s.workers[v]) {
      OthersWork(s.store, o.store, s.nodes, o.nodes, id, s.workers[v]);
    }
  }

  lemma ActedInv(s: Sys, w: nat, id: nat, o: Outcome)
    requires Inv(s) && w in s.workers && Acted(s.store, s.nodes, id, o)
    requires s.workers[w].Idle? || Holds(s.workers[w], id)
    requires forall v :: v in s.workers && v != w ==> !Holds(s.workers[v], id)
    ensures Inv(Apply(s, w, o))
  {
    hide Acted, Reached, NodesStep, OwnNodes, WorkerOk, Launched, Gone, Holding, PhasesOk, NodesKnown, Quarantine, Paths, OnPath, Holds, Busy, StoreOk;
    ActedParts(s.store, s.nodes, id, o);
    ActedHolding(s, w, id, o);
    ActedQuarantine(s, w, id, o);
    ActedPhases(s, w, id, o);
    ActedPaths(s.store, o.store, id);
    NodeJobs(s, w, id, o);
  }

  lemma ActedPaths(s0: Store, s: Store, id: nat)
    requires Paths(s0) && Reached(s0, s, id) && id in s.jobs && OnPath(s.jobs[id])
    ensures Paths(s)
  {
    hide StoreOk, Advances, OnPath;
  }

  lemma ActedParts(s0: Store, nodes0: map<nat, Node>, id: nat, o: Outcome)
    requires Acted(s0, nodes0, id, o)
    ensures Reached(s0, o.store, id) && NodesStep(nodes0, o.nodes, id) && id in o.store.jobs && OwnNodes(o.store, o.nodes, id)
    ensures WorkerOk(o.store, o.nodes, o.worker) && StoreOk(o.store) && o.store.jobs.Keys == s0.jobs.Keys && OnPath(o.store.jobs[id])
    ensures (o.worker.Idle? || o.worker.Stopped? || Holds(o.worker, id)) && (Busy(o.store.jobs[id].status) ==> Holds(o.worker, id))
  {
    hide StoreOk, Advances, OwnNodes, WorkerOk, NodesStep, Launched, Gone;
  }

  lemma NodeJobs(s: Sys, w: nat, id: nat, o: Outcome)
    requires NodesStep(s.nodes, o.nodes, id) && o.store.jobs.Keys == s.store.jobs.Keys && id in o.store.jobs && NodesKnown(s)
    ensures NodesKnown(Apply(s, w, o))
  {}

  // ----- Jobs come and go -----

  lemma NoNodesYet(s: Sys, store: Store, id: nat)
    requires NodesKnown(s) && id !in s.store.jobs && id in store.jobs && store.jobs[id].nodeId.None?
    ensures OwnNodes(store, s.nodes, id)
  {
    hide Rank;
    assert forall n :: n in s.nodes ==> s.nodes[n].job != Some(id);
  }

  /** What creating a job does to the set of jobs. */
  lemma CreateMeans(s: Store, id: nat, options: Options, secret: string, enabled: bool, now: int)
    requires id !in s.jobs
    ensures var (s', ok) := Create(s, id, options, secret, enabled, now);
            && (!ok ==> s' == s)
            && (ok ==> s'.jobs.Keys == s.jobs.Keys + {id} && s'.jobs[id].status.Queued? && s'.jobs[id].nodeId.None? && OnPath(s'.jobs[id]))
            && (forall other :: other in s.jobs ==> other in s'.jobs && s'.jobs[other] == s.jobs[other])
  {}

  lemma SameJobOwn(s: Store, s': Store, nodes: map<nat, Node>, id: nat)
    requires id in s.jobs && id in s'.jobs && s'.jobs[id] == s.jobs[id] && OwnNodes(s, nodes, id)
    ensures OwnNodes(s', nodes, id)
  {
    hide Rank;
  }

  lemma CreateInv(s: Sys, id: nat, options: Options, secret: string, enabled: bool, now: int)
    requires Inv(s) && id !in s.store.jobs
    ensures Inv(s.(store := Create(s.store, id, options, secret, enabled, now).0))
  {
    hide Create, StoreOk, OwnNodes, Advances, Holding, PhasesOk, NodesKnown, Quarantine, Paths;
    var (store, ok) := Create(s.store, id, options, secret, enabled, now);
    CreateOk(s.store, id, options, secret, enabled, now);
    CreateMeans(s.store, id, options, secret, enabled, now);
    if ok {
      NoNodesYet(s, store, id);
      GrownHolding(s, store, id);
      KeptPhases(s, store);
      GrownQuarantine(s, store, id);
      GrownPaths(s.store, store, id);
    } else {
      assert s.(store := store) == s;
    }
  }

  lemma GrownPaths(s: Store, store: Store, id: nat)
    requires Paths(s) && id in store.jobs && OnPath(store.jobs[id]) && store.jobs.Keys <= s.jobs.Keys + {id}
    requires forall other :: other in s.jobs && other != id ==> other in store.jobs && store.jobs[other] == s.jobs[other]
    ensures Paths(store)
  {
    hide OnPath;
  }

  lemma KeptPhases(s: Sys, store: Store)
    requires PhasesOk(s) && NodesKnown(s) && s.store.jobs.Keys <= store.jobs.Keys
    requires forall id :: id in s.store.jobs ==> store.jobs[id] == s.store.jobs[id] || store.jobs[id].status == Cancelled
    ensures PhasesOk(s.(store := store)) && NodesKnown(s.(store := store))
  {
    forall w | w in s.workers ensures WorkerOk(store, s.nodes, s.workers[w]) { assert WorkerOk(s.store, s.nodes, s.workers[w]); }
  }

  lemma GrownQuarantine(s: Sys, store: Store, id: nat)
    requires Quarantine(s) && id in store.jobs && OwnNodes(store, s.nodes, id) && store.jobs.Keys <= s.store.jobs.Keys + {id}
    requires forall other :: other in s.store.jobs && other != id ==> other in store.jobs && store.jobs[other] == s.store.jobs[other]
    ensures Quarantine(s.(store := store))
  {
    hide OwnNodes;
    forall other | other in s.store.jobs && other != id ensures OwnNodes(store, s.nodes, other) { SameJobOwn(s.store, store, s.nodes, other); }
  }

  lemma GrownHolding(s: Sys, store: Store, id: nat)
    requires Holding(s) && store.jobs.Keys == s.store.jobs.Keys + {id} && !Busy(store.jobs[id].status)
    requires forall other :: other in s.store.jobs ==> store.jobs[other] == s.store.jobs[other]
    ensures Holding(s.(store := store))
  {
    hide Busy, Holds;
  }

  lemma CancelMeans(s: Store, id: nat, now: int)
    ensures var (s', ok) := Cancel(s, id, now);
            && (!ok ==> s' == s) && s'.jobs.Keys == s.jobs.Keys
            && (ok ==> id in s.jobs && !Terminal(s.jobs[id].status) && s'.jobs[id].status.Cancelled? && id !in s'.secrets
                       && s'.jobs[id].nodeId == s.jobs[id].nodeId && s'.jobs[id].options == s.jobs[id].options)
            && (forall other :: other in s.jobs && other != id ==> s'.jobs[other] == s.jobs[other])
  {
    hide NonTerminal;
  }

  lemma CancelInv(s: Sys, id: nat, now: int)
    requires Inv(s)
    ensures Inv(s.(store := Cancel(s.store, id, now).0))
  {
    hide Cancel, StoreOk, OwnNodes, Advances, Rank, Holding, PhasesOk, NodesKnown, Quarantine, Paths, Terminal;
    var (store, ok) := Cancel(s.store, id, now);
    CancelOk(s.store, id, now);
    CancelMeans(s.store, id, now);
    if ok {
      OwnOf(s, id);
      CancelledTerminal();
      CancelledOwn(s.store, store, s.nodes, id);
      CancelHolding(s, store, id);
      KeptPhases(s, store);
      GrownQuarantine(s, store, id);
      GrownPaths(s.store, store, id);
    } else {
      assert s.(store := store) == s;
    }
  }

  lemma OwnOf(s: Sys, id: nat)
    requires Quarantine(s) && Paths(s.store) && id in s.store.jobs
    ensures OwnNodes(s.store, s.nodes, id) && OnPath(s.store.jobs[id])
  {}

  lemma CancelledTerminal()
    ensures Terminal(Cancelled)
  {}

  lemma CancelledOwn(s: Store, s': Store, nodes: map<nat, Node>, id: nat)
    requires id in s.jobs && id in s'.jobs && OwnNodes(s, nodes, id)
    requires !Terminal(s.jobs[id].status) && Terminal(s'.jobs[id].status)
    requires s'.jobs[id].nodeId == s.jobs[id].nodeId && s'.jobs[id].options == s.jobs[id].options
    ensures OwnNodes(s', nodes, id)
  {
    OwnKept(s, s', nodes, id);
  }

  lemma CancelHolding(s: Sys, store: Store, id: nat)
    requires Holding(s) && store.jobs.Keys == s.store.jobs.Keys && id in store.jobs && Terminal(store.jobs[id].status)
    requires forall other :: other in s.store.jobs && other != id ==> store.jobs[other] == s.store.jobs[other]
    ensures Holding(s.(store := store))
  {
    hide Holds;
  }

  // ----- Nodes and waiting workers -----

  /** Health checks, the switch and an administrator's offer change no node's
      origin and release none. */
  lemma TouchedInv(s: Sys, nodes: map<nat, Node>)
    requires Inv(s) && nodes.Keys == s.nodes.Keys
    requires forall n :: n in nodes ==> nodes[n].job == s.nodes[n].job && (Released(nodes[n]) ==> Released(s.nodes[n]))
    ensures Inv(s.(nodes := nodes))
  {
    hide StoreOk, Rank, Holding, OwnNodes, Busy;
    forall id | id in s.store.jobs ensures OwnNodes(s.store, nodes, id) { TouchedOwn(s.store, s.nodes, nodes, id); }
    HoldingSame(s, s.(nodes := nodes));
  }

  lemma HoldingSame(s: Sys, s': Sys)
    requires Holding(s) && s'.store == s.store && s'.workers == s.workers
    ensures Holding(s')
  {
    hide Busy, Holds;
  }

  lemma TouchedOwn(s: Store, nodes0: map<nat, Node>, nodes: map<nat, Node>, id: nat)
    requires id in s.jobs && OwnNodes(s, nodes0, id)
    requires forall n :: n in nodes && nodes[n].job.Some? ==>
               n in nodes0 && nodes[n].job == nodes0[n].job && (Released(nodes[n]) ==> Released(nodes0[n]))
    requires forall n :: n in nodes0 && nodes0[n].job.Some? ==> n in nodes && nodes[n].job == nodes0[n].job
    ensures OwnNodes(s, nodes, id)
  {
    hide Rank;
  }

  lemma AddNodeInv(s: Sys, n: nat, node: Node)
    requires Inv(s) && n !in s.nodes && node.job.None?
    ensures Inv(s.(nodes := s.nodes[n := node]))
  {
    hide StoreOk, Rank, Holding, OwnNodes, Busy;
    var nodes := s.nodes[n := node];
    forall id | id in s.store.jobs ensures OwnNodes(s.store, nodes, id) { TouchedOwn(s.store, s.nodes, nodes, id); }
    HoldingSame(s, s.(nodes := nodes));
  }

  /** A worker moves to another waiting state for the same job. */
  lemma WaitInv(s: Sys, w: nat, k: Worker)
    requires Inv(s) && w in s.workers && WorkerOk(s.store, s.nodes, k)
    requires forall id :: Holds(k, id) <==> Holds(s.workers[w], id)
    ensures Inv(s.(workers := s.workers[w := k]))
  {
    hide StoreOk, OwnNodes, WorkerOk, Busy;
    var s' := s.(workers := s.workers[w := k]);
    forall id | id in s.store.jobs && Busy(s.store.jobs[id].status) ensures exists v :: v in s'.workers && Holds(s'.workers[v], id) {
      var v :| v in s.workers && Holds(s.workers[v], id);
      assert Holds(s'.workers[v], id);
    }
  }

  lemma StartInv(s: Sys, w: nat)
    requires Inv(s) && w !in s.workers
    ensures Inv(s.(workers := s.workers[w := Idle]))
  {
    hide StoreOk, OwnNodes, Busy;
    var s' := s.(workers := s.workers[w := Idle]);
    forall id | id in s.store.jobs && Busy(s.store.jobs[id].status) ensures exists v :: v in s'.workers && Holds(s'.workers[v], id) {
      var v :| v in s.workers && Holds(s.workers[v], id);
      assert Holds(s'.workers[v], id);
    }
  }

  lemma TaskEndsInv(s: Sys, w: nat, ending: Ending, answer: Answer, now: int)
    requires Inv(s) && Enabled(s, TaskEnds(w, ending, answer))
    ensures Inv(Step(s, TaskEnds(w, ending, answer), now))
  {
    hide Inv, Checked;
    var k := s.workers[w];
    var nodes := Step(s, TaskEnds(w, ending, answer), now).nodes;
    CheckKeeps();
    TouchedInv(s, nodes);
    var s1 := s.(nodes := nodes);
    WorkersOk(s1);
    WaitInv(s1, w, k.(task := Some(ending)));
  }

  lemma CheckKeeps()
    ensures forall n: Node, a :: Checked(n, a).job == n.job && Checked(n, a).available == n.available && Checked(n, a).byHand == n.byHand
  {}

  lemma WorkersOk(s: Sys)
    requires Inv(s)
    ensures forall w :: w in s.workers ==> WorkerOk(s.store, s.nodes, s.workers[w])
  {}

  lemma ClaimInv(s: Sys, w: nat, id: nat, now: int)
    requires Inv(s) && Enabled(s, ClaimJob(w, id))
    ensures Inv(Step(s, ClaimJob(w, id), now))
  {
    hide StoreOk, OwnNodes, Holding, Begin, Claim, OnPath;
    BeginOk(s.store, s.nodes, id, now);
    assert forall v :: v in s.workers ==> WorkerOk(s.store, s.nodes, s.workers[v]);
    hide Inv;
    ActedInv(s, w, id, Begin(Claim(s.store, id, now).0, s.nodes, id, now));
  }

  lemma WakeInv(s: Sys, w: nat, n: nat, now: int)
    requires Inv(s) && Enabled(s, WakeUp(w, n))
    ensures Inv(Step(s, WakeUp(w, n), now))
  {
    hide StoreOk, OwnNodes, Resume, Reached, OnPath;
    var k := s.workers[w];
    assert WorkerOk(s.store, s.nodes, k);
    StandingReached(s.store, k.job);
    ResumeOk(s.store, s.nodes, k, now, n);
    assert forall v :: v in s.workers && v != w ==> !Holds(s.workers[v], k.job) by { assert Holds(k, k.job); }
    hide Inv;
    ActedInv(s, w, k.job, Resume(s.store, s.nodes, k, now, n));
  }

  lemma StandingReached(s: Store, id: nat)
    requires StoreOk(s) && id in s.jobs
    ensures Reached(s, s, id)
  {
    hide StoreOk;
    Standstill();
  }

  lemma DrainOk(s: Store, nodes: map<nat, Node>, k: Worker)
    requires k.Running? && WorkerOk(s, nodes, k) && CanMove(s, k.job, {Cancelled})
    ensures WorkerOk(s, nodes, Draining(k.job, k.phase, None))
  {}

  lemma StopOk(s: Store, nodes: map<nat, Node>, k: Worker)
    requires WorkerOk(s, nodes, k)
    ensures WorkerOk(s, nodes, Stop(k))
  {}

  lemma PollInv(s: Sys, w: nat, now: int)
    requires Inv(s) && Enabled(s, Poll(w))
    ensures Inv(Step(s, Poll(w), now))
  {
    hide Inv, WorkerOk;
    WorkersOk(s);
    var k := s.workers[w];
    if CanMove(s.store, k.job, {Cancelled}) {
      DrainOk(s.store, s.nodes, k);
      WaitInv(s, w, Draining(k.job, k.phase, None));
    }
  }

  lemma StopInv(s: Sys, w: nat, now: int)
    requires Inv(s) && Enabled(s, StopWorker(w))
    ensures Inv(Step(s, StopWorker(w), now))
  {
    hide Inv, WorkerOk;
    WorkersOk(s);
    StopOk(s.store, s.nodes, s.workers[w]);
    WaitInv(s, w, Stop(s.workers[w]));
  }

  lemma BegunInv(s: Sys, begun: set<nat>)
    requires Inv(s)
    ensures Inv(s.(begun := begun))
  {
    hide StoreOk, OwnNodes, WorkerOk, Busy, Holding;
    HoldingSame(s, s.(begun := begun));
  }

  lemma NodeInv(s: Sys, n: nat, answer: Answer, disabled: bool, now: int)
    requires Inv(s) && n in s.nodes
    ensures Inv(Step(s, CheckNode(n, answer), now)) && Inv(Step(s, DisableNode(n, disabled), now))
  {
    hide Inv;
    TouchedInv(s, s.nodes[n := Checked(s.nodes[n], answer)]);
    TouchedInv(s, s.nodes[n := SetDisabled(s.nodes[n], disabled)]);
  }

  lemma OfferInv(s: Sys, n: nat, available: bool, now: int)
    requires Inv(s) && n in s.nodes
    ensures Inv(Step(s, OfferNode(n, available), now))
  {
    hide Inv;
    TouchedInv(s, s.nodes[n := SetAvailable(s.nodes[n], available)]);
  }

  lemma StepInv(s: Sys, a: Action, now: int)
    requires Inv(s) && Enabled(s, a)
    ensures Inv(Step(s, a, now))
  {
    hide Inv, Resume, Begin, Create, Cancel, Claim, Checked, SetDisabled, CanMove, Stop;
    match a
    case StartWorker(w) => StartInv(s, w);
    case CreateJob(id, options, secret, enabled) => CreateInv(s, id, options, secret, enabled, now);
    case CancelJob(id) => CancelInv(s, id, now);
    case ClaimJob(w, id) => ClaimInv(s, w, id, now);
    case TaskEnds(w, ending, answer) => TaskEndsInv(s, w, ending, answer, now);
    case WakeUp(w, n) => WakeInv(s, w, n, now);
    case Poll(w) => PollInv(s, w, now);
    case StopWorker(w) => StopInv(s, w, now);
    case AddNode(n, available) => AddNodeInv(s, n, Node(Fresh, available, None, None, true));
    case CheckNode(n, answer) => NodeInv(s, n, answer, false, now);
    case DisableNode(n, disabled) => NodeInv(s, n, NoAnswer(""), disabled, now);
    case OfferNode(n, available) => OfferInv(s, n, available, now);
    case PhaseBegins(w) => BegunInv(s, s.begun + {w});
  }

  // ----- Each step -----

  /** Whatever happens, no step takes a job backwards: its trail only grows, its
      rank rises whenever its status changes, and an ended job never changes. */
  lemma StepAdvances(s: Sys, a: Action, now: int)
    requires Inv(s) && Enabled(s, a)
    ensures Advances(s.store, Step(s, a, now).store)
  {
    Standstill();
    match a {
      case CreateJob(id, options, secret, enabled) => CreateOk(s.store, id, options, secret, enabled, now);
      case CancelJob(id) => CancelOk(s.store, id, now);
      case ClaimJob(w, id) =>
        OwnOf(s, id);
        BeginOk(s.store, s.nodes, id, now);
      case WakeUp(w, n) =>
        WakeActs(s, w, n, now);
      case _ =>
    }
  }

  /** What a waking worker does is one of the ways to act on its job. */
  lemma WakeActs(s: Sys, w: nat, n: nat, now: int)
    requires Inv(s) && Enabled(s, WakeUp(w, n))
    ensures var k := s.workers[w]; Acted(s.store, s.nodes, k.job, Resume(s.store, s.nodes, k, now, n))
  {
    hide StoreOk, OwnNodes, Resume, Reached, Holding, OnPath;
    var k := s.workers[w];
    assert WorkerOk(s.store, s.nodes, k);
    StandingReached(s.store, k.job);
    ResumeOk(s.store, s.nodes, k, now, n);
  }

  /** A job that ends in success names a node that is online or has warnings at
      that very moment. */
  ghost predicate GoodEnd(s: Store, o: Outcome, id: nat) {
    id in s.jobs && id in o.store.jobs && !s.jobs[id].status.Success? && o.store.jobs[id].status.Success? ==>
      && o.store.jobs[id].nodeId.Some? && o.store.jobs[id].nodeId.value in o.nodes
      && var n := o.nodes[o.store.jobs[id].nodeId.value];
         (n.status.Online? || n.status.Warned?) && n.available == o.store.jobs[id].options.wantsAvailable
  }

  ghost predicate NoSuccess(s: Store, o: Outcome, id: nat) {
    id in s.jobs && !s.jobs[id].status.Success? ==> id in o.store.jobs && !o.store.jobs[id].status.Success?
  }

  lemma FailingNoSuccess(s: Store, nodes: map<nat, Node>, id: nat, m: string, now: int, next: Worker)
    ensures NoSuccess(s, Failing(s, nodes, id, m, now, next), id)
  {
    hide NonTerminal;
  }

  lemma LaunchNoSuccess(s: Store, nodes: map<nat, Node>, id: nat, preflight: bool, from: Status, now: int, n: nat)
    ensures NoSuccess(s, LaunchAgent(s, nodes, id, preflight, now), id)
    ensures NoSuccess(s, LaunchVpn(s, nodes, id), id) && NoSuccess(s, LaunchHealth(s, nodes, id, from, n), id)
  {
    hide NonTerminal;
  }

  lemma SettleGood(s: Store, nodes: map<nat, Node>, id: nat, n: nat, now: int)
    requires id in s.jobs
    ensures GoodEnd(s, Settle(s, nodes, id, n, s.jobs[id].options.wantsAvailable, now), id)
  {
    FailingNoSuccess(s, nodes, id, "health check failed", now, Idle);
    SuccessMeans(s, id, n, now);
    hide FinishSuccess, Failing;
  }

  lemma ResumeGood(s: Store, nodes: map<nat, Node>, w: Worker, now: int, n: nat)
    requires Waiting(w) && w.task.Some? && w.job in s.jobs
    ensures GoodEnd(s, Resume(s, nodes, w, now, n), w.job)
  {
    hide LaunchAgent, LaunchVpn, LaunchHealth, Settle, Failing, GoodEnd, NoSuccess, Forget;
    NoSuccessIsGood(s, w.job);
    forall m { FailingNoSuccess(s, nodes, w.job, m, now, Idle); }
    FailingNoSuccess(s, nodes, w.job, StopMessage, now, Stopped);
    LaunchNoSuccess(s, nodes, w.job, true, InstallingAgent, now, n);
    LaunchNoSuccess(s, nodes, w.job, true, InstallingVpn, now, n);
    if w.phase.HealthPhase? { SettleGood(s, nodes, w.job, w.phase.node, now); }
    ForgetNoSuccess(s, nodes, w.job);
  }

  lemma NoSuccessIsGood(s: Store, id: nat)
    ensures forall o :: NoSuccess(s, o, id) ==> GoodEnd(s, o, id)
  {}

  lemma ForgetNoSuccess(s: Store, nodes: map<nat, Node>, id: nat)
    ensures NoSuccess(s, Outcome(Forget(s, id), nodes, Idle), id)
  {}

  /** Only a waking worker can end a job in success, and the node is then up. */
  lemma SuccessfulNodeIsUp(s: Sys, a: Action, now: int, id: nat)
    requires Inv(s) && Enabled(s, a) && id in s.store.jobs
    requires !s.store.jobs[id].status.Success?
    requires id in Step(s, a, now).store.jobs && Step(s, a, now).store.jobs[id].status.Success?
    ensures a.WakeUp?
    ensures var s' := Step(s, a, now); var j := s'.store.jobs[id];
            && j.nodeId.Some? && j.nodeId.value in s'.nodes && s'.nodes[j.nodeId.value].job == Some(id)
            && (s'.nodes[j.nodeId.value].status.Online? || s'.nodes[j.nodeId.value].status.Warned?)
            && s'.nodes[j.nodeId.value].available == j.options.wantsAvailable
  {
    hide Resume, Begin, NonTerminal, Inv;
    match a {
      case CreateJob(other, options, secret, enabled) => CreateMeans(s.store, other, options, secret, enabled, now);
      case CancelJob(other) => CancelMeans(s.store, other, now);
      case ClaimJob(w, other) => ClaimNoSuccess(s, w, other, now, id);
      case WakeUp(w, n) =>
        StepInv(s, a, now);
        WakeActs(s, w, n, now);
        WakeOnlyOwn(s, w, n, now, id);
        assert s.workers[w].job in s.store.jobs by { WakeKnown(s, w); }
        ResumeGood(s.store, s.nodes, s.workers[w], now, n);
        NamedNode(Step(s, a, now), id);
      case _ =>
    }
  }

  lemma WakeKnown(s: Sys, w: nat)
    requires Inv(s) && w in s.workers && Waiting(s.workers[w])
    ensures s.workers[w].job in s.store.jobs
  {
    hide StoreOk, Holding, Quarantine;
    assert WorkerOk(s.store, s.nodes, s.workers[w]);
  }

  lemma NamedNode(s: Sys, id: nat)
    requires Inv(s) && id in s.store.jobs && s.store.jobs[id].nodeId.Some?
    ensures s.store.jobs[id].nodeId.value in s.nodes && s.nodes[s.store.jobs[id].nodeId.value].job == Some(id)
  {
    hide StoreOk, Holding, PhasesOk, Rank;
    assert OwnNodes(s.store, s.nodes, id);
  }

  lemma WakeOnlyOwn(s: Sys, w: nat, n: nat, now: int, id: nat)
    requires Enabled(s, WakeUp(w, n)) && id in s.store.jobs
    requires Acted(s.store, s.nodes, s.workers[w].job, Resume(s.store, s.nodes, s.workers[w], now, n))
    ensures id == s.workers[w].job || Step(s, WakeUp(w, n), now).store.jobs[id] == s.store.jobs[id]
  {
    hide Resume, StoreOk, Advances, OwnNodes, NodesStep, WorkerOk;
  }

  lemma BeginNoSuccess(s: Store, nodes: map<nat, Node>, id: nat, now: int)
    ensures NoSuccess(s, Begin(s, nodes, id, now), id)
  {
    FailingNoSuccess(s, nodes, id, "password no longer held", now, Idle);
    NoteJob(s, id, Warning, CheckingSsh);
    LaunchNoSuccess(Note(s, id, Warning, CheckingSsh), nodes, id, false, CheckingSsh, now, 0);
    hide LaunchAgent, Failing, Note;
  }

  lemma ClaimNoSuccess(s: Sys, w: nat, other: nat, now: int, id: nat)
    requires Inv(s) && Enabled(s, ClaimJob(w, other)) && id in s.store.jobs && !s.store.jobs[id].status.Success?
    ensures id in Step(s, ClaimJob(w, other), now).store.jobs && !Step(s, ClaimJob(w, other), now).store.jobs[id].status.Success?
  {
    hide Begin, Claim, StoreOk, Advances, OwnNodes, NodesStep, WorkerOk, Holding, PhasesOk;
    OwnOf(s, other);
    BeginOk(s.store, s.nodes, other, now);
    ClaimMeans(s.store, other, now);
    BeginNoSuccess(Claim(s.store, other, now).0, s.nodes, other, now);
  }

  // ----- Runs -----

  ghost predicate SysNext(s: Sys, s': Sys) {
    exists a, now :: Enabled(s, a) && s' == Step(s, a, now)
  }

  /** No jobs, no workers, and only nodes that no setup made. */
  ghost predicate Init(s: Sys) {
    && s.store == Store(map[], [], map[], map[]) && s.workers == map[] && s.begun == {}
    && forall n :: n in s.nodes ==> s.nodes[n].job.None?
  }

  ghost predicate Run(ss: seq<Sys>) {
    ss != [] && Init(ss[0]) && forall i :: 0 <= i < |ss| - 1 ==> SysNext(ss[i], ss[i + 1])
  }

  lemma {:induction false} RunInv(ss: seq<Sys>, n: nat)
    requires Run(ss) && n < |ss|
    ensures Inv(ss[n])
  {
    hide Inv, SysNext;
    if n == 0 {
      InitInv(ss[0]);
    } else {
      RunInv(ss, n - 1);
      assert SysNext(ss[n - 1], ss[n - 1 + 1]);
      NextInv(ss[n - 1], ss[n]);
    }
  }

  lemma InitInv(s: Sys)
    requires Init(s)
    ensures Inv(s)
  {}

  lemma NextInv(s: Sys, s': Sys)
    requires Inv(s) && SysNext(s, s')
    ensures Inv(s') && Advances(s.store, s'.store)
  {
    hide Inv, Step, Enabled;
    var a, now :| Enabled(s, a) && s' == Step(s, a, now);
    StepInv(s, a, now);
    StepAdvances(s, a, now);
  }

  lemma {:induction false} RunAdvances(ss: seq<Sys>, m: nat, n: nat)
    requires Run(ss) && m <= n < |ss|
    ensures Advances(ss[m].store, ss[n].store)
  {
    hide Inv, SysNext, JobAdvances;
    if m == n {
      Standstill();
    } else {
      RunAdvances(ss, m, n - 1);
      RunInv(ss, n - 1);
      assert SysNext(ss[n - 1], ss[n - 1 + 1]);
      NextInv(ss[n - 1], ss[n]);
      AdvancesTrans(ss[m].store, ss[n - 1].store, ss[n].store);
    }
  }

  /** Over any run a job goes through strictly rising ranks, so it makes at most
      five transitions and is claimed at most once; an ended job stays as it is. */
  lemma JobLife(ss: seq<Sys>, m: nat, n: nat, id: nat)
    requires Run(ss) && m <= n < |ss| && id in ss[m].store.jobs
    ensures id in ss[n].store.jobs
    ensures var j, j' := ss[m].store.jobs[id], ss[n].store.jobs[id];
            && j.trail <= j'.trail && |j'.trail| <= 6
            && (Terminal(j.status) ==> j' == j)
            && (forall i, k :: 0 <= i < k < |j'.trail| ==> Rank(j'.trail[i]) < Rank(j'.trail[k]))
            && (forall i, k :: 0 <= i < |j'.trail| && 0 <= k < |j'.trail| && j'.trail[i] == CheckingSsh && j'.trail[k] == CheckingSsh ==> i == k)
  {
    RunInv(ss, n);
    RunAdvances(ss, m, n);
    hide Run, Holding, PhasesOk, NodesKnown, Quarantine, Rank;
    assert JobAdvances(ss[m].store.jobs[id], ss[n].store.jobs[id]);
    assert JobOk(ss[n].store.jobs[id], EventsOf(ss[n].store, id));
    AtMostFive(ss[n].store.jobs[id]);
  }

  /** At every step: an end time exactly for ended jobs, a node exactly for
      successful ones, a message exactly for failed ones, one ending event
      exactly for ended ones and of the same name, and no password for any. */
  lemma JobRecords(ss: seq<Sys>, n: nat, id: nat)
    requires Run(ss) && n < |ss| && id in ss[n].store.jobs
    ensures var j := ss[n].store.jobs[id];
            && (j.finishedAt.Some? <==> Terminal(j.status))
            && (j.nodeId.Some? <==> j.status == Success)
            && (j.error.Some? <==> j.status == Failed)
            && (Endings(EventsOf(ss[n].store, id)) == if Terminal(j.status) then [j.status] else [])
            && (id in ss[n].store.secrets ==> !Terminal(j.status))
  {
    RunInv(ss, n);
    hide Run, Holding, PhasesOk, NodesKnown, Quarantine, TrailOk, Endings;
  }

  /** Quarantine: unless an administrator made it available, a node made by a
      setup job is so only if that job succeeded, names it and asked for it; no
      other node is of the same job. */
  lemma NodeQuarantine(ss: seq<Sys>, n: nat, node: nat, id: nat)
    requires Run(ss) && n < |ss| && node in ss[n].nodes && ss[n].nodes[node].job == Some(id)
    ensures id in ss[n].store.jobs
    ensures ss[n].nodes[node].available && !ss[n].nodes[node].byHand ==>
              var j := ss[n].store.jobs[id]; j.status == Success && j.nodeId == Some(node) && j.options.wantsAvailable
    ensures forall other :: other in ss[n].nodes && ss[n].nodes[other].job == Some(id) ==> other == node
  {
    RunInv(ss, n);
    hide Run, StoreOk, Holding, PhasesOk, Rank;
    OwnOf(ss[n], id);
  }

  /** Every job under way is in the hands of exactly one worker, in the phase
      that its status names unless it was cancelled, and a node being checked
      is the job's own. */
  lemma OneWorkerEach(ss: seq<Sys>, n: nat, id: nat)
    requires Run(ss) && n < |ss| && id in ss[n].store.jobs && Busy(ss[n].store.jobs[id].status)
    ensures exists w :: w in ss[n].workers && Holds(ss[n].workers[w], id)
              && PhaseStatus(ss[n].workers[w].phase) == ss[n].store.jobs[id].status
              && forall v :: v in ss[n].workers && Holds(ss[n].workers[v], id) ==> v == w
  {
    RunInv(ss, n);
    hide Run, StoreOk, Quarantine, NodesKnown;
    var w :| w in ss[n].workers && Holds(ss[n].workers[w], id);
    assert WorkerOk(ss[n].store, ss[n].nodes, ss[n].workers[w]);
  }

  lemma ActedSettles(s0: Store, nodes0: map<nat, Node>, id: nat, o: Outcome)
    requires Acted(s0, nodes0, id, o)
    ensures id in o.store.jobs
    ensures (o.worker.Running? && o.worker.job == id && o.worker.task.None? && o.store.jobs[id].status == PhaseStatus(o.worker.phase))
            || ((o.worker.Idle? || o.worker.Stopped?) && Terminal(o.store.jobs[id].status) && id !in o.store.secrets)
  {
    hide Reached, OwnNodes, NodesStep, WorkerOk;
  }

  /** However a phase ends, its worker goes on to a phase of a job that is in
      that phase's status, hence not cancelled, or lets go of a job that has
      ended and whose password is gone. */
  lemma WorkerSettles(ss: seq<Sys>, n: nat, w: nat, node: nat, now: int)
    requires Run(ss) && n < |ss| && Enabled(ss[n], WakeUp(w, node))
    ensures var id := ss[n].workers[w].job; var s' := Step(ss[n], WakeUp(w, node), now); var k := s'.workers[w];
            && id in s'.store.jobs
            && ((k.Running? && k.job == id && k.task.None? && s'.store.jobs[id].status == PhaseStatus(k.phase))
                || ((k.Idle? || k.Stopped?) && Terminal(s'.store.jobs[id].status) && id !in s'.store.secrets))
  {
    hide Run, Inv, Resume, Acted, Checked;
    RunInv(ss, n);
    WakeActs(ss[n], w, node, now);
    ActedSettles(ss[n].store, ss[n].nodes, ss[n].workers[w].job, Resume(ss[n].store, ss[n].nodes, ss[n].workers[w], now, node));
  }

  /** A worker that claims a job starts a phase for it or ends it at once. */
  lemma ClaimSettles(ss: seq<Sys>, n: nat, w: nat, id: nat, now: int)
    requires Run(ss) && n < |ss| && Enabled(ss[n], ClaimJob(w, id))
    ensures var s' := Step(ss[n], ClaimJob(w, id), now); var k := s'.workers[w];
            && id in s'.store.jobs
            && ((k.Running? && k.job == id && k.task.None? && s'.store.jobs[id].status == PhaseStatus(k.phase))
                || ((k.Idle? || k.Stopped?) && Terminal(s'.store.jobs[id].status) && id !in s'.store.secrets))
  {
    RunInv(ss, n);
    hide Run, Begin, Claim, Acted, Holding, PhasesOk, NodesKnown, StoreOk, OwnNodes;
    OwnOf(ss[n], id);
    BeginOk(ss[n].store, ss[n].nodes, id, now);
    ActedSettles(ss[n].store, ss[n].nodes, id, Begin(Claim(ss[n].store, id, now).0, ss[n].nodes, id, now));
  }

  /** A job that was neither failed nor cancelled has gone exactly the way that
      its options ask for; a successful one has gone all of it. */
  lemma JobPath(ss: seq<Sys>, n: nat, id: nat)
    requires Run(ss) && n < |ss| && id in ss[n].store.jobs
    ensures var j := ss[n].store.jobs[id];
            && (!j.status.Failed? && !j.status.Cancelled? ==> j.trail == Path(j.options, j.status))
            && (j.status.Success? ==>
                  j.trail == [Queued, CheckingSsh, InstallingAgent] + (if j.options.installAwg then [InstallingVpn] else []) + [Verifying, Success])
  {
    RunInv(ss, n);
    PathOf(ss[n], id);
    hide Run, Inv;
    PathToSuccess(ss[n].store.jobs[id].options);
    hide Path;
  }

  lemma PathOf(s: Sys, id: nat)
    requires Inv(s) && id in s.store.jobs
    ensures OnPath(s.store.jobs[id])
  {
    hide StoreOk, Holding, PhasesOk, NodesKnown, Quarantine, OnPath;
  }

  lemma PathToSuccess(o: Options)
    ensures Path(o, Success) ==
              [Queued, CheckingSsh, InstallingAgent] + (if o.installAwg then [InstallingVpn] else []) + [Verifying, Success]
  {
    assert [Verifying] + [Success] == [Verifying, Success];
  }

  /** What a phase's end leads to, for a job that was not cancelled: if the phase
      returned, the next phase by the options, and after the health check success
      exactly if the node is up; in every other case failure, with the message of
      the error, or of the stop. */
  lemma PhaseEnds(ss: seq<Sys>, n: nat, w: nat, node: nat, now: int)
    requires Run(ss) && n < |ss| && Enabled(ss[n], WakeUp(w, node)) && ss[n].workers[w].Running?
    requires ss[n].workers[w].job in ss[n].store.jobs && !ss[n].store.jobs[ss[n].workers[w].job].status.Cancelled?
    ensures var k := ss[n].workers[w]; var s' := Step(ss[n], WakeUp(w, node), now);
            EndsAs(ss[n].store.jobs[k.job].options, ss[n].nodes, k, node, Outcome(s'.store, s'.nodes, s'.workers[w]))
  {
    RunInv(ss, n);
    WakeIsResume(ss[n], w, node, now);
    hide *;
    WorkersOk(ss[n]);
    ResumeEnds(ss[n].store, ss[n].nodes, ss[n].workers[w], now, node);
  }

  lemma WakeIsResume(s: Sys, w: nat, node: nat, now: int)
    requires Enabled(s, WakeUp(w, node))
    ensures w in s.workers && Waiting(s.workers[w]) && s.workers[w].task.Some?
    ensures var s' := Step(s, WakeUp(w, node), now);
            w in s'.workers && Outcome(s'.store, s'.nodes, s'.workers[w]) == Resume(s.store, s.nodes, s.workers[w], now, node)
  {
    hide Resume;
  }

  /** The outcome that a phase's end has, by the options of the job. */
  ghost predicate EndsAs(options: Options, nodes: map<nat, Node>, k: Worker, node: nat, o: Outcome)
    requires k.Running? && k.task.Some?
  {
    k.job in o.store.jobs &&
    var j := o.store.jobs[k.job];
    if !k.task.value.Returned? then
      && j.status.Failed? && o.worker == (if k.task.value.TaskCancelled? then Stopped else Idle)
      && j.error == Some(match k.task.value
                         case StepError(m) => m
                         case AppFailure(m) => m
                         case TaskCancelled => StopMessage
                         case _ => CrashMessage)
    else match k.phase
         case SshPhase => o.worker == Running(k.job, AgentPhase, None)
         case AgentPhase => o.worker == Running(k.job, if options.installAwg then VpnPhase else HealthPhase(node), None)
         case VpnPhase => o.worker == Running(k.job, HealthPhase(node), None)
         case HealthPhase(m) =>
           m in nodes && o.worker.Idle?
           && (if nodes[m].status.Online? || nodes[m].status.Warned? then j.status.Success? && j.nodeId == Some(m) else j.status.Failed?)
  }

  lemma ResumeEnds(s: Store, nodes: map<nat, Node>, k: Worker, now: int, node: nat)
    requires k.Running? && k.task.Some? && WorkerOk(s, nodes, k) && !s.jobs[k.job].status.Cancelled?
    ensures EndsAs(s.jobs[k.job].options, nodes, k, node, Resume(s, nodes, k, now, node))
  {
    hide SetStep, FinishSuccess, Note, FinishFailed;
    var id := k.job;
    FailsFor(s, id, now);
    if k.task.value.Returned? {
      match k.phase {
        case SshPhase => LaunchMeans(s, id, CheckingSsh, InstallingAgent, "installing agent");
        case AgentPhase =>
          LaunchMeans(s, id, InstallingAgent, InstallingVpn, "checking vpn");
          LaunchMeans(s, id, InstallingAgent, Verifying, "verifying");
        case VpnPhase => LaunchMeans(s, id, InstallingVpn, Verifying, "verifying");
        case HealthPhase(m) => SuccessMeans(s, id, m, now);
      }
    }
  }

  lemma FailsFor(s: Store, id: nat, now: int)
    requires id in s.jobs && !Terminal(s.jobs[id].status)
    ensures forall m :: id in FinishFailed(s, id, m, now).0.jobs && FinishFailed(s, id, m, now).0.jobs[id].status.Failed?
                        && FinishFailed(s, id, m, now).0.jobs[id].error == Some(m)
  {
    hide NonTerminal;
  }

  lemma LaunchMeans(s: Store, id: nat, from: Status, to: Status, message: string)
    requires id in s.jobs && s.jobs[id].status == from
    ensures var (s1, ok) := SetStep(s, id, {from}, to, message);
            ok && id in s1.jobs && forall level, step :: Note(s1, id, level, step).jobs == s1.jobs
  {}

  /** A worker leaves its job in no other way than by waking up. */
  lemma OnlyWakingLetsGo(s: Sys, a: Action, now: int, w: nat, id: nat)
    requires Enabled(s, a) && w in s.workers && Holds(s.workers[w], id)
    requires w !in Step(s, a, now).workers || !Holds(Step(s, a, now).workers[w], id)
    ensures exists node :: a == WakeUp(w, node)
  {
    hide Resume, Begin, Create, Cancel, Claim, Checked, SetDisabled, CanMove;
  }

  /** The in-memory store hands out the oldest job: what it claims is what a
      worker's claim step does to that job. */
  lemma ClaimsOldest(s: Sys, w: nat, now: int)
    requires w in s.workers && s.workers[w].Idle? && ClaimNext(s.store, now).1.Some?
    ensures var id := ClaimNext(s.store, now).1.value;
            && Enabled(s, ClaimJob(w, id)) && Claim(s.store, id, now).0 == ClaimNext(s.store, now).0
            && exists i: nat :: FirstAmong(s.store.jobs, s.store.order, i) && s.store.order[i] == id
  {
    OldestFirst(s.store.jobs, s.store.order);
    hide Oldest, FirstAmong;
  }

  /** How a claimed job begins: without a held password it fails at once, with
      one its first phase is the SSH check or, if that is not wanted, the agent's
      installation. */
  lemma ClaimStarts(s: Sys, w: nat, id: nat, now: int)
    requires Enabled(s, ClaimJob(w, id))
    ensures var s' := Step(s, ClaimJob(w, id), now);
            && id in s'.store.jobs
            && if id !in s.store.secrets then s'.workers[w].Idle? && s'.store.jobs[id].status.Failed? && s'.store.jobs[id].error.Some?
               else s'.workers[w] == Running(id, if s.store.jobs[id].options.verifyFirst then SshPhase else AgentPhase, None)
  {
    ClaimMeans(s.store, id, now);
    ClaimSecrets(s.store, id, now);
    var s1 := Claim(s.store, id, now).0;
    hide Claim, SetStep, FinishFailed, Note;
    FailsFor(s1, id, now);
    NoteJob(s1, id, Warning, CheckingSsh);
    LaunchMeans(Note(s1, id, Warning, CheckingSsh), id, CheckingSsh, InstallingAgent, "installing agent");
  }

  lemma ClaimSecrets(s: Store, id: nat, now: int)
    ensures Claim(s, id, now).0.secrets == s.secrets
  {}

  /** A cancel is noticed at the worker's next poll: it abandons the phase. */
  lemma CancelIsNoticed(s: Sys, w: nat, now: int, later: int)
    requires w in s.workers && s.workers[w].Running? && s.workers[w].task.None?
    requires s.workers[w].job in s.store.jobs && !Terminal(s.store.jobs[s.workers[w].job].status)
    ensures var k := s.workers[w];
            var s1 := Step(s, CancelJob(k.job), now);
            && Enabled(s1, Poll(w))
            && Step(s1, Poll(w), later).workers[w] == Draining(k.job, k.phase, None)
            && k.job !in s1.store.secrets
  {
    hide NonTerminal;
  }

  /** A stopped worker ends exactly if the phase it cancelled ends quietly; an
      error of the phase takes the place of the stop, and the worker goes on. */
  lemma StopOutcome(s: Store, nodes: map<nat, Node>, k: Worker, now: int, n: nat)
    requires k.Stopping? && k.task.Some?
    ensures Resume(s, nodes, k, now, n).worker.Stopped? <==> k.task.value.Returned? || k.task.value.TaskCancelled?
    ensures Resume(s, nodes, k, now, n).worker.Idle? <==> !Resume(s, nodes, k, now, n).worker.Stopped?
  {
    hide FinishFailed;
  }
}
