/**
 What holds in every run of any number of agent processes: the file is always
 valid, the transactions take effect one after another, a completed rollback is
 exact, and a revoke undoes the issue of its key.
 */
module AgentTheorems {
  import opened Wrappers
  import opened Text
  import opened Netip
  import opened AwgConfig
  import opened AwgRules
  import opened AwgAllocation
  import opened AwgRuntime
  import opened AgentMachine
  import opened AgentAddress
  import T = ClientsTable

  // ----- The invariant -----

  /** The snapshot after the last transaction. */
  function Last(s0: Snapshot, h: seq<Entry>): Snapshot {
    if h == [] then s0 else h[|h| - 1].after
  }

  /** Every transaction starts from what the one before it left. */
  ghost predicate Linked(lib: Library, s0: Snapshot, h: seq<Entry>) {
    forall i :: 0 <= i < |h| ==>
      && h[i].before == Last(s0, h[..i])
      && EndOk(lib, h[i].op, h[i].result, h[i].before, h[i].after)
  }

  /** The history lists exactly what the processes report: each entry is of a
      finished process, each process has at most one, and a process without one
      was refused before it got the lock. */
  ghost predicate Reported(s: Sys) {
    && (forall i :: 0 <= i < |s.history| ==>
          var e := s.history[i]; e.proc in s.procs && s.procs[e.proc] == Proc(e.op, Finished(e.result)))
    && (forall i, j :: 0 <= i < j < |s.history| ==> s.history[i].proc != s.history[j].proc)
    && (forall p :: p in s.procs && s.procs[p].pc.Finished? && s.procs[p].pc.result != Refused ==>
          (exists i :: 0 <= i < |s.history| && s.history[i].proc == p))
  }

  /** Exactly the holder of the lock is inside a transaction. */
  ghost predicate Exclusive(s: Sys) {
    forall p: nat :: (p in s.procs && InCritical(s.procs[p].pc)) <==> s.w.lock == Some(p)
  }

  /** Where the holder of the lock stands. */
  ghost predicate Progress(lib: Library, s0: Snapshot, s: Sys) {
    if s.w.lock.None? then Snap(s.w) == Last(s0, s.history)
    else
      && s.atLock == Last(s0, s.history) && s.w.lock.value in s.procs
      && Stage(lib, s.w, s.atLock, s.procs[s.w.lock.value].op, s.procs[s.w.lock.value].pc)
  }

  ghost predicate Inv(lib: Library, s0: Snapshot, s: Sys) {
    && FileGood(lib, s.w) && PskOk(s.w) && SnapGood(lib, Last(s0, s.history))
    && Exclusive(s) && Reported(s) && Linked(lib, s0, s.history) && Progress(lib, s0, s)
  }

  ghost predicate Init(lib: Library, s: Sys) {
    FileGood(lib, s.w) && PskOk(s.w) && s.w.lock.None? && s.procs == map[] && s.history == []
  }

  lemma InitInv(lib: Library, s: Sys)
    requires Init(lib, s)
    ensures Inv(lib, Snap(s.w), s)
  {
    hide Good;
  }

  lemma StartInv(lib: Library, s0: Snapshot, s: Sys, p: nat, op: Op)
    requires Inv(lib, s0, s) && p !in s.procs
    ensures Inv(lib, s0, s.(procs := s.procs[p := Proc(op, Starting)]))
  {
    hide FileGood, PskOk, SnapGood, Linked, Stage;
    var s' := s.(procs := s.procs[p := Proc(op, Starting)]);
    assert Exclusive(s');
    assert Reported(s') by {
      forall q | q in s'.procs && s'.procs[q].pc.Finished? && s'.procs[q].pc.result != Refused
        ensures exists i :: 0 <= i < |s'.history| && s'.history[i].proc == q
      {
        assert q in s.procs;
      }
    }
  }

  /** A step of one process outside the lock: it stays outside, or takes the
      free lock. */
  lemma OutsideStep(lib: Library, p: nat, op: Op, w: World, pc: Pc, ev: Event)
    requires !InCritical(pc)
    ensures var (w', pc') := Next(lib, p, op, w, pc, ev);
            || (w' == w && !InCritical(pc') && (pc'.Finished? ==> pc' == pc || pc'.result == Refused) && (pc.Finished? ==> pc' == pc))
            || (w.lock.None? && w' == w.(lock := Some(p)) && pc.Locking? && pc' == ReadingConfig)
  {
    hide TrimSpace;
  }

  /** The system after process p moved to pc. */
  function Moved(s: Sys, p: nat, pc: Pc): Sys
    requires p in s.procs
  {
    s.(procs := s.procs[p := Proc(s.procs[p].op, pc)])
  }

  lemma QuietInv(lib: Library, s0: Snapshot, s: Sys, p: nat, pc: Pc)
    requires Inv(lib, s0, s) && p in s.procs && !InCritical(s.procs[p].pc) && !InCritical(pc)
    requires if s.procs[p].pc.Finished? then pc == s.procs[p].pc else pc.Finished? ==> pc.result == Refused
    ensures Inv(lib, s0, Moved(s, p, pc))
  {
    hide FileGood, PskOk, SnapGood, Linked, Stage;
    var s' := Moved(s, p, pc);
    assert Exclusive(s');
    assert Reported(s') by {
      forall q | q in s'.procs && s'.procs[q].pc.Finished? && s'.procs[q].pc.result != Refused
        ensures exists i :: 0 <= i < |s'.history| && s'.history[i].proc == q
      {
        assert s'.procs[q] == s.procs[q];
      }
    }
  }

  lemma TakeInv(lib: Library, s0: Snapshot, s: Sys, p: nat)
    requires Inv(lib, s0, s) && p in s.procs && s.procs[p].pc.Locking? && s.w.lock.None?
    ensures Inv(lib, s0, Moved(s, p, ReadingConfig).(w := s.w.(lock := Some(p)), atLock := Snap(s.w)))
  {
    hide Good, SnapGood, Linked, EndOk, Parse;
    var s' := Moved(s, p, ReadingConfig).(w := s.w.(lock := Some(p)), atLock := Snap(s.w));
    assert Exclusive(s');
    MovedReported(s, p, ReadingConfig);
    assert Snap(s'.w) == Snap(s.w);
  }

  lemma MovedReported(s: Sys, p: nat, pc: Pc)
    requires Reported(s) && p in s.procs && !s.procs[p].pc.Finished? && !pc.Finished?
    ensures Reported(Moved(s, p, pc))
  {
    var s' := Moved(s, p, pc);
    forall q | q in s'.procs && s'.procs[q].pc.Finished? && s'.procs[q].pc.result != Refused
      ensures exists i :: 0 <= i < |s'.history| && s'.history[i].proc == q
    {
      assert s'.procs[q] == s.procs[q];
    }
  }

  lemma InsideInv(lib: Library, s0: Snapshot, s: Sys, p: nat, w': World, pc: Pc)
    requires Inv(lib, s0, s) && p in s.procs && InCritical(s.procs[p].pc)
    requires StageKept(lib, s.w, s.atLock, s.procs[p].op, (w', pc))
    ensures Inv(lib, s0, Moved(s, p, pc).(w := w'))
  {
    hide Stage, Linked, SnapGood, FileGood, PskOk;
    MovedReported(s, p, pc);
    hide Reported;
    var s' := Moved(s, p, pc).(w := w');
    assert s.w.lock == Some(p);
    assert Exclusive(s');
  }

  lemma LinkedSnoc(lib: Library, s0: Snapshot, h: seq<Entry>, e: Entry)
    requires Linked(lib, s0, h) && e.before == Last(s0, h) && EndOk(lib, e.op, e.result, e.before, e.after)
    ensures Linked(lib, s0, h + [e]) && Last(s0, h + [e]) == e.after
  {
    hide EndOk, Last;
    var all := h + [e];
    assert all[..|h|] == h && forall i :: 0 <= i < |h| ==> all[..i] == h[..i] && all[i] == h[i];
    assert Last(s0, all) == e.after by { LastSnoc(s0, h, e); }
  }

  lemma LastSnoc(s0: Snapshot, h: seq<Entry>, e: Entry)
    ensures Last(s0, h + [e]) == e.after
  {}

  lemma ReleasingEnd(lib: Library, s0: Snapshot, s: Sys, p: nat)
    requires Inv(lib, s0, s) && p in s.procs && s.procs[p].pc.Releasing?
    ensures s.w.lock == Some(p) && s.atLock == Last(s0, s.history) && SnapGood(lib, Snap(s.w))
    ensures EndOk(lib, s.procs[p].op, s.procs[p].pc.result, s.atLock, Snap(s.w))
  {
    hide EndOk, SnapGood, Linked, Reported, FileGood;
    FileSnap(lib, s.w);
  }

  lemma ReleaseInv(lib: Library, s0: Snapshot, s: Sys, p: nat)
    requires Inv(lib, s0, s) && p in s.procs && s.procs[p].pc.Releasing?
    ensures var r := s.procs[p].pc.result;
            var e := Entry(p, s.procs[p].op, r, s.atLock, Snap(s.w));
            Inv(lib, s0, Moved(s, p, Finished(r)).(w := s.w.(lock := None), history := s.history + [e]))
  {
    hide Good, EndOk, SnapGood, Stage, Linked, Last;
    var r := s.procs[p].pc.result;
    var e := Entry(p, s.procs[p].op, r, s.atLock, Snap(s.w));
    var s' := Moved(s, p, Finished(r)).(w := s.w.(lock := None), history := s.history + [e]);
    ReleasingEnd(lib, s0, s, p);
    LinkedSnoc(lib, s0, s.history, e);
    ReleaseReported(s, s', p, e);
    hide Reported;
    assert Exclusive(s');
    assert Snap(s'.w) == Snap(s.w);
  }

  lemma HolderLeaves(lib: Library, s0: Snapshot, s: Sys, p: nat)
    requires Inv(lib, s0, s) && p in s.procs && InCritical(s.procs[p].pc)
    ensures s.w.lock == Some(p) && s.atLock == Last(s0, s.history) && SnapGood(lib, s.atLock) && SnapGood(lib, Snap(s.w))
    ensures LeftOver(lib, s.atLock, s.procs[p].op, Snap(s.w))
  {
    hide SnapGood, Linked, Reported, FileGood, Stage, LeftOver;
    FileSnap(lib, s.w);
    StageLeftOver(lib, s.w, s.atLock, s.procs[p].op, s.procs[p].pc);
  }

  lemma DieInv(lib: Library, s0: Snapshot, s: Sys, p: nat)
    requires Inv(lib, s0, s) && p in s.procs && InCritical(s.procs[p].pc)
    ensures Inv(lib, s0, Die(s, p))
  {
    hide Good, LeftOver, SnapGood, Stage, Linked, Last;
    HolderLeaves(lib, s0, s, p);
    var e := Entry(p, s.procs[p].op, Died, s.atLock, Snap(s.w));
    assert EndOk(lib, e.op, Died, e.before, e.after);
    hide EndOk;
    LinkedSnoc(lib, s0, s.history, e);
    ReleaseReported(s, Die(s, p), p, e);
    hide Reported;
    assert Exclusive(Die(s, p));
    assert Snap(Die(s, p).w) == Snap(s.w);
  }

  lemma FileSnap(lib: Library, w: World)
    requires FileGood(lib, w)
    ensures SnapGood(lib, Snap(w))
  {
    hide Good;
  }

  lemma ReleaseReported(s: Sys, s': Sys, p: nat, e: Entry)
    requires Reported(s) && p in s.procs && !s.procs[p].pc.Finished? && e.proc == p && e.op == s.procs[p].op
    requires s'.procs == s.procs[p := Proc(e.op, Finished(e.result))] && s'.history == s.history + [e]
    ensures Reported(s')
  {
    forall q | q in s'.procs && s'.procs[q].pc.Finished? && s'.procs[q].pc.result != Refused
      ensures exists i :: 0 <= i < |s'.history| && s'.history[i].proc == q
    {
      if q == p {
        assert s'.history[|s.history|].proc == q;
      } else {
        assert s'.procs[q] == s.procs[q];
        var i :| 0 <= i < |s.history| && s.history[i].proc == q;
        assert s'.history[i].proc == q;
      }
    }
  }

  lemma FireInv(lib: Library, s0: Snapshot, s: Sys, p: nat, ev: Event)
    requires Inv(lib, s0, s) && p in s.procs && EventOk(s.procs[p].pc, ev)
    ensures Inv(lib, s0, Fire(lib, s, p, ev))
  {
    var Proc(op, pc) := s.procs[p];
    var (w', pc') := Next(lib, p, op, s.w, pc, ev);
    var s' := Fire(lib, s, p, ev);
    if pc.Releasing? {
      ReleaseNext(lib, p, op, s.w, pc.result, ev);
      hide Next, Inv;
      ReleaseInv(lib, s0, s, p);
    } else if InCritical(pc) {
      HolderStage(lib, s0, s, p);
      hide Next, Inv, Stage, StageKept, Ready;
      StageStep(lib, p, s.w, s.atLock, op, pc, ev);
      InsideInv(lib, s0, s, p, w', pc');
    } else {
      OutsideStep(lib, p, op, s.w, pc, ev);
      hide Next, Inv;
      if pc.Locking? && pc' == ReadingConfig {
        assert Snap(w') == Snap(s.w);
        TakeInv(lib, s0, s, p);
      } else {
        QuietInv(lib, s0, s, p, pc');
      }
    }
  }

  lemma ReleaseNext(lib: Library, p: nat, op: Op, w: World, r: Report, ev: Event)
    ensures Next(lib, p, op, w, Releasing(r), ev) == (w.(lock := None), Finished(r))
  {}

  lemma HolderStage(lib: Library, s0: Snapshot, s: Sys, p: nat)
    requires Inv(lib, s0, s) && p in s.procs && InCritical(s.procs[p].pc)
    ensures Ready(lib, s.w, s.atLock) && Stage(lib, s.w, s.atLock, s.procs[p].op, s.procs[p].pc)
  {
    hide Stage, Linked, Reported, SnapGood, FileGood, PskOk;
  }

  lemma NextInv(lib: Library, s0: Snapshot, s: Sys, s': Sys)
    requires Inv(lib, s0, s) && SysNext(lib, s, s')
    ensures Inv(lib, s0, s')
  {
    hide Inv, Fire, Die;
    if p: nat, op :| p !in s.procs && s' == s.(procs := s.procs[p := Proc(op, Starting)]) {
      StartInv(lib, s0, s, p, op);
    } else if p: nat, ev :| p in s.procs && EventOk(s.procs[p].pc, ev) && s' == Fire(lib, s, p, ev) {
      FireInv(lib, s0, s, p, ev);
    } else {
      var p: nat :| p in s.procs && InCritical(s.procs[p].pc) && s' == Die(s, p);
      DieInv(lib, s0, s, p);
    }
  }

  // ----- Runs -----

  ghost predicate Run(lib: Library, ss: seq<Sys>) {
    && ss != [] && Init(lib, ss[0])
    && forall i :: 0 <= i < |ss| - 1 ==> SysNext(lib, ss[i], ss[i + 1])
  }

  lemma {:induction false} RunInv(lib: Library, ss: seq<Sys>, n: nat)
    requires Run(lib, ss) && n < |ss|
    ensures Inv(lib, Snap(ss[0].w), ss[n])
  {
    hide Init, SysNext, Inv, Snap;
    if n == 0 {
      InitInv(lib, ss[0]);
    } else {
      RunInv(lib, ss, n - 1);
      assert SysNext(lib, ss[n - 1], ss[n - 1 + 1]);
      NextInv(lib, Snap(ss[0].w), ss[n - 1], ss[n]);
    }
  }

  /** At every step of every run the file exists, parses, names an address and
      a port, lists well-formed peers with different keys, and no address
      belongs to two peers. */
  lemma AlwaysValid(lib: Library, ss: seq<Sys>, n: nat)
    requires Run(lib, ss) && n < |ss|
    ensures ConfigFile in ss[n].w.files && Parse(ss[n].w.files[ConfigFile]).Ok?
    ensures var c := Parse(ss[n].w.files[ConfigFile]).value;
            && InterfaceAddress(c).Some? && ListenPort(c) != ""
            && (forall i :: 0 <= i < |c.peers| ==> WellFormedPeer(lib.v6, c.peers[i]))
            && (forall i, j :: 0 <= i < j < |c.peers| ==> c.peers[i].publicKey != c.peers[j].publicKey)
            && (forall i, j, a :: 0 <= i < j < |c.peers| && ValidAddr(a) ==>
                  !(PeerCovers(lib.v6, c.peers[i], a) && PeerCovers(lib.v6, c.peers[j], a)))
  {
    RunInv(lib, ss, n);
    FileIsValid(lib, Snap(ss[0].w), ss[n]);
    hide Run, Parse, InterfaceAddress, ListenPort, PeerCovers, WellFormedPeer, ValidAddr;
    var c := Parse(ss[n].w.files[ConfigFile]).value;
    forall i, j, a | 0 <= i < j < |c.peers| && ValidAddr(a)
      ensures !(PeerCovers(lib.v6, c.peers[i], a) && PeerCovers(lib.v6, c.peers[j], a))
    {
      assert Apart(lib.v6, c.peers[i], c.peers[j]) && !SharedAddress(lib.v6, c.peers[i], c.peers[j], a);
    }
    assert forall i, j :: 0 <= i < j < |c.peers| ==> Apart(lib.v6, c.peers[i], c.peers[j]);
  }

  lemma FileIsValid(lib: Library, s0: Snapshot, s: Sys)
    requires Inv(lib, s0, s)
    ensures ConfigFile in s.w.files && Parse(s.w.files[ConfigFile]).Ok? && ValidConfig(lib.v6, Parse(s.w.files[ConfigFile]).value)
  {
    hide Exclusive, Reported, Linked, Progress, PskOk, SnapGood, ValidConfig, Parse;
  }

  /** At most one process is inside a transaction, and it holds the lock. */
  lemma MutualExclusion(lib: Library, ss: seq<Sys>, n: nat, p: nat, q: nat)
    requires Run(lib, ss) && n < |ss| && p in ss[n].procs && q in ss[n].procs
    requires InCritical(ss[n].procs[p].pc) && InCritical(ss[n].procs[q].pc)
    ensures p == q && ss[n].w.lock == Some(p)
  {
    RunInv(lib, ss, n);
    hide Run, FileGood, Reported, Linked, Progress, PskOk, SnapGood, InCritical;
  }

  /** While one process holds the lock, no step of another one touches the
      files, the interface, the lock or the holder's place: a transaction under
      the lock runs as if it were alone. */
  lemma LockProtects(lib: Library, ss: seq<Sys>, n: nat, p: nat, q: nat, ev: Event)
    requires Run(lib, ss) && n < |ss| && ss[n].w.lock == Some(p) && q in ss[n].procs && q != p
    ensures p in ss[n].procs
    ensures var s' := Fire(lib, ss[n], q, ev);
            s'.w == ss[n].w && s'.atLock == ss[n].atLock && s'.history == ss[n].history && s'.procs[p] == ss[n].procs[p]
  {
    RunInv(lib, ss, n);
    hide Run, Inv, Fire;
    BesideHolder(lib, Snap(ss[0].w), ss[n], p, q, ev);
  }

  lemma BesideHolder(lib: Library, s0: Snapshot, s: Sys, p: nat, q: nat, ev: Event)
    requires Inv(lib, s0, s) && s.w.lock == Some(p) && q in s.procs && q != p
    ensures p in s.procs
    ensures var s' := Fire(lib, s, q, ev);
            s'.w == s.w && s'.atLock == s.atLock && s'.history == s.history && p in s'.procs && s'.procs[p] == s.procs[p]
  {
    HolderKnown(lib, s0, s, p, q);
    FireParts(lib, s, q, ev);
    hide Inv, Next, Fire;
    OutsideStep(lib, q, s.procs[q].op, s.w, s.procs[q].pc, ev);
  }

  lemma FireParts(lib: Library, s: Sys, q: nat, ev: Event)
    requires q in s.procs
    ensures var (w', pc') := Next(lib, q, s.procs[q].op, s.w, s.procs[q].pc, ev); var s' := Fire(lib, s, q, ev);
            && s'.w == w' && (forall p :: p != q ==> (p in s'.procs <==> p in s.procs) && (p in s.procs ==> s'.procs[p] == s.procs[p]))
            && (!(s.procs[q].pc.Locking? && pc'.ReadingConfig?) ==> s'.atLock == s.atLock)
            && (!s.procs[q].pc.Releasing? ==> s'.history == s.history)
  {
    hide Next;
  }

  lemma HolderKnown(lib: Library, s0: Snapshot, s: Sys, p: nat, q: nat)
    requires Inv(lib, s0, s) && s.w.lock == Some(p) && q in s.procs && q != p
    ensures p in s.procs && !InCritical(s.procs[q].pc)
  {
    hide FileGood, PskOk, SnapGood, Reported, Linked, Progress, InCritical;
  }

  // ----- Serial effect -----

  /** The peers after an operation reported this result. */
  function Apply(ps: seq<Peer>, r: Report): seq<Peer> {
    match r
    case Issued(peer, _, _) => ps + [peer]
    case Revoked(key) => AwgRules.Without(ps, key)
    case _ => ps
  }

  /** The peers after these transactions, one after another. */
  function Replay(ps: seq<Peer>, h: seq<Entry>): seq<Peer> {
    if h == [] then ps else Apply(Replay(ps, h[..|h| - 1]), h[|h| - 1].result)
  }

  /** No rollback failed, and no process died inside its transaction. */
  predicate Orderly(h: seq<Entry>) {
    forall i :: 0 <= i < |h| ==> !h[i].result.RollbackFailed? && !h[i].result.Died?
  }

  /** What one transaction does to the peers and the interface lines. */
  lemma EndPeers(lib: Library, op: Op, r: Report, before: Snapshot, after: Snapshot)
    requires EndOk(lib, op, r, before, after) && !r.RollbackFailed? && !r.Died?
    ensures SnapGood(lib, after)
    ensures Base(after).peers == Apply(Base(before).peers, r)
    ensures TrimTrailing(Base(after).iface) == TrimTrailing(Base(before).iface)
  {
    if r.Issued? || r.Revoked? {
      var plan := CommittedPlan(lib, op, r, before, after);
      hide EndOk, Parse, Render, Good, Normal, TrimSpace, NextAddress, HostPeer, Printable, ValidConfig;
      PlanValid(lib, before, op, plan);
      NormalIface(plan.next);
    }
  }

  lemma NormalIface(c: ConfigData)
    ensures TrimTrailing(Normal(c).iface) == TrimTrailing(c.iface)
  {
    TrimTrailingBlank(c.iface);
  }

  lemma CommittedPlan(lib: Library, op: Op, r: Report, before: Snapshot, after: Snapshot) returns (plan: Plan)
    requires EndOk(lib, op, r, before, after) && (r.Issued? || r.Revoked?)
    ensures PlanOk(lib, before, op, plan) && plan.result == r && Committed(lib, plan, after)
  {
    hide PlanOk, Committed, SnapGood;
    plan :| PlanOk(lib, before, op, plan) && plan.result == r && Committed(lib, plan, after);
  }

  lemma {:induction false} ReplayHistory(lib: Library, s0: Snapshot, h: seq<Entry>)
    requires Linked(lib, s0, h) && Orderly(h)
    ensures Base(Last(s0, h)).peers == Replay(Base(s0).peers, h)
    ensures TrimTrailing(Base(Last(s0, h)).iface) == TrimTrailing(Base(s0).iface)
  {
    hide EndOk, Base, Apply, TrimTrailing;
    if h != [] {
      var init := h[..|h| - 1];
      assert forall i :: 0 <= i < |init| ==> init[i] == h[i] && init[..i] == h[..i];
      ReplayHistory(lib, s0, init);
      var e := h[|h| - 1];
      EndPeers(lib, e.op, e.result, e.before, e.after);
    }
  }

  /** No lost update: while no rollback has failed and no process has died inside
      its transaction, the peers in the file are the first ones with exactly the reported issues and revokes applied, in
      the order in which their transactions held the lock, and the interface
      settings are the first ones. While a transaction is under way, this holds
      of the state in which it took the lock. */
  lemma NoLostUpdates(lib: Library, ss: seq<Sys>, n: nat)
    requires Run(lib, ss) && n < |ss| && Orderly(ss[n].history)
    ensures var first := Base(Snap(ss[0].w));
            var now := Base(if ss[n].w.lock.None? then Snap(ss[n].w) else ss[n].atLock);
            && now.peers == Replay(first.peers, ss[n].history)
            && TrimTrailing(now.iface) == TrimTrailing(first.iface)
  {
    RunInv(lib, ss, n);
    var s0 := Snap(ss[0].w);
    hide Run, Exclusive, Reported, Base, Stage, SnapGood, FileGood, PskOk, TrimTrailing, Linked, Orderly, Replay, Last, Snap;
    ReplayHistory(lib, s0, ss[n].history);
  }

  /** How processes ended is what the history says, once for each. */
  lemma ReportsAreHistory(lib: Library, ss: seq<Sys>, n: nat, p: nat)
    requires Run(lib, ss) && n < |ss| && p in ss[n].procs
    requires ss[n].procs[p].pc.Finished? && ss[n].procs[p].pc.result != Refused
    ensures exists i :: 0 <= i < |ss[n].history|
              && ss[n].history[i].proc == p && ss[n].history[i].op == ss[n].procs[p].op
              && ss[n].history[i].result == ss[n].procs[p].pc.result
              && forall j :: 0 <= j < |ss[n].history| && ss[n].history[j].proc == p ==> j == i
  {
    RunInv(lib, ss, n);
    hide Run, FileGood, Exclusive, Linked, Progress, PskOk, SnapGood, Snap;
    assert Reported(ss[n]);
    assert exists i :: 0 <= i < |ss[n].history| && ss[n].history[i].proc == p;
    hide Inv, Reported;
    var i :| 0 <= i < |ss[n].history| && ss[n].history[i].proc == p;
    EntryOf(ss[n], i, p);
  }

  lemma EntryOf(s: Sys, i: nat, p: nat)
    requires Reported(s) && i < |s.history| && s.history[i].proc == p
    ensures p in s.procs && s.procs[p] == Proc(s.history[i].op, Finished(s.history[i].result))
    ensures forall j :: 0 <= j < |s.history| && s.history[j].proc == p ==> j == i
  {}

  /** Every error is clean: a refused transaction changed nothing, a completed
      rollback brought back the bytes of both files, or the absence of the
      table, with the runtime peers of the restored file. A failed rollback, or
      a process that died at any point, leaves each file either as it was or
      complete and new, and the interface with the peers it had, those of the old
      file or those of the new one. */
  lemma RollbackExact(lib: Library, ss: seq<Sys>, n: nat, i: nat)
    requires Run(lib, ss) && n < |ss| && i < |ss[n].history|
    ensures var e := ss[n].history[i];
            && e.before == Last(Snap(ss[0].w), ss[n].history[..i])
            && (e.result == Refused ==> e.after == e.before)
            && (e.result == RolledBack ==> e.after.config == e.before.config && e.after.table == e.before.table
                                           && e.after.runtime == Base(e.before).peers)
            && (e.result == RollbackFailed ==> HalfDone(lib, e.before, e.op, e.after))
            && (e.result == Died ==> LeftOver(lib, e.before, e.op, e.after))
            && (e.result.Issued? || e.result.Revoked? ==> e.after.runtime == Base(e.after).peers)
  {
    RunInv(lib, ss, n);
    hide Run, FileGood, Exclusive, Reported, Progress, PskOk, SnapGood, HalfDone, LeftOver, Base, Last, Snap, PlanOk, Committed;
    var e := ss[n].history[i];
    if e.result.Issued? || e.result.Revoked? { CommittedRuntime(lib, e); }
  }

  lemma CommittedRuntime(lib: Library, e: Entry)
    requires EndOk(lib, e.op, e.result, e.before, e.after) && (e.result.Issued? || e.result.Revoked?)
    ensures e.after.runtime == Base(e.after).peers
  {
    var plan := CommittedPlan(lib, e.op, e.result, e.before, e.after);
    hide EndOk, PlanOk, Parse, Render;
    PlanValid(lib, e.before, e.op, plan);
  }

  // ----- Issue, then revoke -----

  /** The codec reads back what it writes. */
  ghost predicate CodecFaithful(lib: Library) {
    forall t :: lib.renderTable(t).Some? ==> lib.parseTable(lib.renderTable(t).value) == Some(t)
  }

  lemma IssuedPlan(lib: Library, op: Op, r: Report, before: Snapshot, after: Snapshot)
    requires EndOk(lib, op, r, before, after) && r.Issued?
    ensures !AwgRules.HasKey(Base(before).peers, r.peer.publicKey)
    ensures Base(after).peers == Base(before).peers + [r.peer] && TrimTrailing(Base(after).iface) == TrimTrailing(Base(before).iface)
    ensures lib.parseTable(TableOf(before)).Some? && after.table.Some?
    ensures exists name, ip, created ::
              lib.renderTable(T.AddOrUpdate(lib.parseTable(TableOf(before)).value, r.peer.publicKey, name, ip, created)) == after.table
  {
    EndPeers(lib, op, r, before, after);
    var plan := CommittedPlan(lib, op, r, before, after);
    hide EndOk, Base, TrimTrailing;
    IssuedTable(lib, op, r, before, plan);
    hide PlanOk;
  }

  lemma IssuedTable(lib: Library, op: Op, r: Report, before: Snapshot, plan: Plan)
    requires PlanOk(lib, before, op, plan) && plan.result == r && r.Issued?
    ensures !AwgRules.HasKey(Base(before).peers, r.peer.publicKey) && lib.parseTable(TableOf(before)).Some?
    ensures exists name, ip, created ::
              plan.table == T.AddOrUpdate(lib.parseTable(TableOf(before)).value, r.peer.publicKey, name, ip, created)
  {
    hide Base, FormatIPv4, HostPeer, NextAddress, Printable, ValidConfig, T.AddOrUpdate, AwgRules.HasKey, TrimSpace;
    assert op.Issue?;
  }

  lemma RevokedPlan(lib: Library, op: Op, r: Report, before: Snapshot, after: Snapshot)
    requires EndOk(lib, op, r, before, after) && r.Revoked?
    ensures exists next :: after.config == Some(Render(next)) && Printable(next) && next.iface == Base(before).iface
                           && next.peers == AwgRules.Without(Base(before).peers, r.key)
    ensures lib.parseTable(TableOf(before)).Some?
    ensures after.table == lib.renderTable(T.Without(lib.parseTable(TableOf(before)).value, r.key)) && after.table.Some?
  {
    var plan := CommittedPlan(lib, op, r, before, after);
    hide EndOk, Parse, Render, Base, T.Without, AwgRules.Without, Printable, ValidConfig, TrimSpace, AwgRules.HasKey;
    assert plan.next.iface == Base(before).iface;
  }

  /** Rendering depends on the interface lines only up to trailing blank ones. */
  lemma RenderTrimmed(a: ConfigData, b: ConfigData)
    requires a.peers == b.peers && TrimTrailing(a.iface) == TrimTrailing(b.iface)
    ensures Render(a) == Render(b)
  {}

  /** Issuing a peer and then revoking its key leaves exactly the normal form of
      the original file, with the other peers in their order, and the original
      client records, unless the key already had one. */
  lemma IssueThenRevoke(lib: Library, s0: Snapshot, issue: Entry, revoke: Entry)
    requires Linked(lib, s0, [issue, revoke]) && CodecFaithful(lib)
    requires issue.result.Issued? && revoke.result == Revoked(issue.result.peer.publicKey)
    ensures revoke.after.config == Some(Render(Base(s0)))
    ensures Base(revoke.after).peers == Base(s0).peers
    ensures lib.parseTable(TableOf(s0)).Some? && revoke.after.table.Some?
    ensures var t0 := lib.parseTable(TableOf(s0)).value; var key := issue.result.peer.publicKey;
            lib.parseTable(revoke.after.table.value) == Some(if T.HasClient(t0, key) then T.Without(t0, key) else t0)
  {
    var h := [issue, revoke];
    hide EndOk, Parse, Render, Base, TrimTrailing, AwgRules.Without, AwgRules.HasKey, T.Without, T.HasClient, T.AddOrUpdate;
    assert h[..0] == [] && h[..1] == [issue] && h[0] == issue && h[1] == revoke;
    assert issue.before == s0 && revoke.before == issue.after;
    var key := issue.result.peer.publicKey;
    IssuedPlan(lib, issue.op, issue.result, issue.before, issue.after);
    EndPeers(lib, revoke.op, revoke.result, revoke.before, revoke.after);
    RevokedPlan(lib, revoke.op, revoke.result, revoke.before, revoke.after);
    WithoutAdded(Base(s0).peers, issue.result.peer);
    var next :| revoke.after.config == Some(Render(next)) && Printable(next) && next.iface == Base(revoke.before).iface
                && next.peers == AwgRules.Without(Base(revoke.before).peers, key);
    RenderTrimmed(next, Base(s0));
    var t0 := lib.parseTable(TableOf(s0)).value;
    var name, ip, created :| lib.renderTable(T.AddOrUpdate(t0, key, name, ip, created)) == issue.after.table;
    T.AddThenRemove(t0, key, name, ip, created);
  }

  // ----- The check against the running interface -----

  /** The status lists the running peers, whatever counters it shows. */
  predicate HonestStatus(st: Status, running: seq<Peer>) {
    && ShowableStatus(st) && |st.peers| == |running|
    && forall i :: 0 <= i < |running| ==> st.peers[i].publicKey == running[i].publicKey && st.peers[i].allowedIPs == running[i].allowedIPs
  }

  /** The printed interface is found to have a key exactly when it has it. */
  lemma ShownKeys(st: Status, running: seq<Peer>, key: string)
    requires HonestStatus(st, running)
    ensures AwgRuntime.HasPeer(ParseShow(ShowText(st)), key) <==> AwgRules.HasKey(running, key)
  {
    ShowReadsBack(st);
    hide ParseShow, ShowText, Showable;
  }

  /** If the interface prints its peers truthfully, a transaction that reached
      the check is accepted: it was the truth that the check looks for. */
  lemma HonestCheckPasses(lib: Library, w: World, o: Snapshot, op: Op, plan: Plan, bk: Backups, st: Status)
    requires Ready(lib, w, o) && Stage(lib, w, o, op, Verifying(plan, bk)) && HonestStatus(st, w.runtime)
    ensures Verified(plan, ShowText(st))
  {
    hide Good, Parse, Render, ParseShow, ShowText, Base, TrimSpace, HostPeer, NextAddress, ValidConfig, HonestStatus, HalfDone;
    assert PlanOk(lib, o, op, plan) && w.runtime == plan.next.peers;
    PlanKeyPresent(lib, o, op, plan);
    hide PlanOk;
    ShownKeys(st, plan.next.peers, PlanKey(plan));
  }

  lemma PlanKeyPresent(lib: Library, o: Snapshot, op: Op, plan: Plan)
    requires PlanOk(lib, o, op, plan)
    ensures AwgRules.HasKey(plan.next.peers, PlanKey(plan)) <==> plan.result.Issued?
  {
    hide Parse, Base, TrimSpace, HostPeer, NextAddress, PrintablePeer, PrintableLine, ValidConfig, AwgRules.Without;
    if op.Issue? {
      assert plan.next.peers[|plan.next.peers| - 1].publicKey == PlanKey(plan);
    } else {
      WithoutLacks(Base(o).peers, TrimSpace(op.publicKey));
    }
  }

  lemma {:induction false} WithoutLacks(ps: seq<Peer>, key: string)
    ensures !AwgRules.HasKey(AwgRules.Without(ps, key), key)
  {
    if ps != [] { WithoutLacks(ps[1..], key); }
  }
}
