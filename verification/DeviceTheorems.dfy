/**
 Runs of the device service: creation and revocation under one lock, reads of
 issued configs and administration at any time; and how far the choice of the
 least loaded node lets loads drift apart.
 */
module DeviceTheorems {
  import opened Wrappers
  import opened PeerPath
  import opened Devices

  // ----- Interleavings -----

  datatype Lock = Free | Creating(id: nat) | Revoking(id: nat)

  datatype Sys = Sys(st: State, lock: Lock)

  /** A new device must not take the lock before the one under way has ended. */
  ghost predicate Inv(s: Sys) {
    && Sound(s.st)
    && (forall id :: id in s.st.devices && s.st.devices[id].status.Provisioning? ==> s.lock == Creating(id))
    && (s.lock.Creating? ==> s.lock.id in s.st.devices && s.st.devices[s.lock.id].status.Provisioning? && s.st.devices[s.lock.id].key.None?)
    && (s.lock.Revoking? ==> s.lock.id in s.st.devices)
  }

  ghost predicate BeginsCreate(s: Sys, s': Sys) {
    s.lock.Free? && exists user, choice, id ::
      id !in s.st.devices && StartCreate(s.st, user, choice, id).Ok?
      && s' == Sys(StartCreate(s.st, user, choice, id).value, Creating(id))
  }

  ghost predicate EndsCreate(s: Sys, s': Sys) {
    s.lock.Creating? && s.lock.id in s.st.devices && s.st.devices[s.lock.id].node in s.st.nodes
    && exists key: Option<Bytes>, now: int, lifetime: int ::
      (key.Some? ==> FreshKey(s.st, key.value)) && s' == Sys(EndCreate(s.st, s.lock.id, key, now, lifetime), Free)
  }

  ghost predicate BeginsRevoke(s: Sys, s': Sys) {
    s.lock.Free? && exists id :: id in s.st.devices && s' == s.(lock := Revoking(id))
  }

  ghost predicate EndsRevoke(s: Sys, s': Sys) {
    s.lock.Revoking? && s.lock.id in s.st.devices && exists reachable :: s' == Sys(Revoke(s.st, s.lock.id, reachable), Free)
  }

  ghost predicate Reads(s: Sys, s': Sys) {
    exists id, now :: s' == s.(st := ReadIssue(s.st, id, now).0)
  }

  ghost predicate SysNext(s: Sys, s': Sys) {
    || BeginsCreate(s, s') || EndsCreate(s, s') || BeginsRevoke(s, s') || EndsRevoke(s, s') || Reads(s, s')
    || (Administered(s.st, s'.st) && s'.lock == s.lock)
  }

  lemma NextInv(s: Sys, s': Sys)
    requires Inv(s) && SysNext(s, s')
    ensures Inv(s')
  {
    hide Sound;
    if BeginsCreate(s, s') {
      BeginCreateInv(s, s');
    } else if EndsCreate(s, s') {
      EndCreateInv(s, s');
    } else if BeginsRevoke(s, s') {
    } else if EndsRevoke(s, s') {
      EndRevokeInv(s, s');
    } else if Reads(s, s') {
      ReadInv(s, s');
    } else {
      AdministeredSound(s.st, s'.st);
    }
  }

  lemma BeginCreateInv(s: Sys, s': Sys)
    requires Inv(s) && BeginsCreate(s, s')
    ensures Inv(s')
  {
    var user, choice, id :| id !in s.st.devices && StartCreate(s.st, user, choice, id).Ok?
                            && s' == Sys(StartCreate(s.st, user, choice, id).value, Creating(id));
    StartCreateSound(s.st, user, choice, id);
    OthersStay(s.st, user, choice, id);
    hide Sound, StartCreate;
  }

  lemma OthersStay(st: State, user: nat, choice: Option<nat>, id: nat)
    requires id !in st.devices
    ensures var r := StartCreate(st, user, choice, id);
            r.Ok? ==> r.value.devices.Keys == st.devices.Keys + {id} && forall i :: i in st.devices ==> r.value.devices[i] == st.devices[i]
  {
    hide Pick, WithinLimit;
  }

  lemma EndCreateInv(s: Sys, s': Sys)
    requires Inv(s) && EndsCreate(s, s')
    ensures Inv(s')
  {
    hide FreshKey, Sound;
    var key: Option<Bytes>, now: int, lifetime: int :| (key.Some? ==> FreshKey(s.st, key.value)) && s' == Sys(EndCreate(s.st, s.lock.id, key, now, lifetime), Free);
    EndCreateSound(s.st, s.lock.id, key, now, lifetime);
  }

  lemma EndRevokeInv(s: Sys, s': Sys)
    requires Inv(s) && EndsRevoke(s, s')
    ensures Inv(s')
  {
    hide Sound;
    var reachable :| s' == Sys(Revoke(s.st, s.lock.id, reachable), Free);
    RevokeSound(s.st, s.lock.id, reachable);
  }

  lemma ReadInv(s: Sys, s': Sys)
    requires Inv(s) && Reads(s, s')
    ensures Inv(s')
  {
    hide Sound;
    var id, now :| s' == s.(st := ReadIssue(s.st, id, now).0);
    ReadIssueSound(s.st, id, now);
  }

  ghost predicate Init(s: Sys) {
    && s.lock.Free? && s.st.devices == map[] && s.st.issues == map[] && s.st.agents == map[]
    && forall n :: n in s.st.order ==> n in s.st.nodes
  }

  ghost predicate Run(ss: seq<Sys>) {
    ss != [] && Init(ss[0]) && forall i :: 0 <= i < |ss| - 1 ==> SysNext(ss[i], ss[i + 1])
  }

  lemma InitInv(s: Sys)
    requires Init(s)
    ensures Inv(s)
  {
    forall u ensures OfUser(s.st.devices, u) == {} {}
  }

  lemma {:induction false} RunInv(ss: seq<Sys>, n: nat)
    requires Run(ss) && n < |ss|
    ensures Inv(ss[n])
  {
    hide Inv, SysNext, Init;
    if n == 0 {
      InitInv(ss[0]);
    } else {
      RunInv(ss, n - 1);
      assert SysNext(ss[n - 1], ss[n - 1 + 1]);
      NextInv(ss[n - 1], ss[n]);
    }
  }

  /** Active devices and the agents' peers correspond one to one, by URL, key
      and address. */
  lemma DevicesMatchPeers(ss: seq<Sys>, n: nat)
    requires Run(ss) && n < |ss|
    ensures var st := ss[n].st;
            && (forall id :: id in st.devices && st.devices[id].status.Active? ==>
                  var d := st.devices[id]; var a := AgentAt(st, UrlOf(st, d));
                  d.key.Some? && d.ip.Some? && d.key.value in a.peers && a.peers[d.key.value] == d.ip.value)
            && (forall url, key :: url in st.agents && key in st.agents[url].peers ==>
                  (exists id :: IsPeer(st, id, url, key, st.agents[url].peers[key])))
            && (forall i, j, url, key, a, b :: IsPeer(st, i, url, key, a) && IsPeer(st, j, url, key, b) ==> i == j)
  {
    RunInv(ss, n);
    hide Run, DevicesOk, LimitsKept, IssuesOk;
    var st := ss[n].st;
    forall i, j, url, key, a, b | IsPeer(st, i, url, key, a) && IsPeer(st, j, url, key, b) ensures i == j {
      assert i == j || Apart(st, st.devices[i], st.devices[j]);
    }
  }

  /** No agent hands out an address twice, not even that of a revoked device. */
  lemma NoAddressTwice(ss: seq<Sys>, n: nat, i: nat, j: nat)
    requires Run(ss) && n < |ss| && i in ss[n].st.devices && j in ss[n].st.devices && i != j
    requires var st := ss[n].st; st.devices[i].ip.Some? && st.devices[j].ip.Some? && UrlOf(st, st.devices[i]) == UrlOf(st, st.devices[j])
    ensures ss[n].st.devices[i].ip != ss[n].st.devices[j].ip
  {
    RunInv(ss, n);
    hide Run, DevicesOk, LimitsKept, IssuesOk, DevicesArePeers, PeersAreDevices;
    assert Apart(ss[n].st, ss[n].st.devices[i], ss[n].st.devices[j]);
  }

  /** Config issues exist only for active devices, no user is above a limit,
      and while the lock is free nothing is half created. */
  lemma IssuesAndLimits(ss: seq<Sys>, n: nat)
    requires Run(ss) && n < |ss|
    ensures forall id :: id in ss[n].st.issues ==> id in ss[n].st.devices && ss[n].st.devices[id].status.Active?
    ensures forall u :: u in ss[n].st.limits && ss[n].st.limits[u].Some? ==> |OfUser(ss[n].st.devices, u)| <= ss[n].st.limits[u].value
    ensures ss[n].lock.Free? ==> forall id :: id in ss[n].st.devices ==> !ss[n].st.devices[id].status.Provisioning?
  {
    RunInv(ss, n);
    hide Run, DevicesOk, HandedOut, DevicesArePeers, PeersAreDevices;
  }

  // ----- Spread of loads -----

  /** No available node is more loaded than another by more than k. */
  ghost predicate SpreadWithin(st: State, k: nat) {
    forall a, b :: a in st.order && b in st.order && Selectable(st, a) && Selectable(st, b) ==> Load(st, a) - Load(st, b) <= k
  }

  /** One auto-placed creation from start to end, with whatever the agent says. */
  ghost predicate AutoPlaced(st: State, st': State) {
    exists user, id, key: Option<Bytes>, now: int, lifetime: int, mid ::
      && id !in st.devices && StartCreate(st, user, None, id) == Ok(mid)
      && id in mid.devices && mid.devices[id].node in mid.nodes
      && st' == EndCreate(mid, id, key, now, lifetime)
  }

  lemma AutoLoads(st: State, user: nat, id: nat, key: Option<Bytes>, now: int, lifetime: int, mid: State, n: nat)
    requires id !in st.devices && StartCreate(st, user, None, id) == Ok(mid) && id in mid.devices && mid.devices[id].node in mid.nodes
    ensures Pick(st, st.order).Some?
    ensures var p := Pick(st, st.order).value;
            && Load(mid, n) == Load(st, n) + (if n == p then 1 else 0)
            && (var st' := EndCreate(mid, id, key, now, lifetime);
                && Load(st', n) == Load(st, n) + (if n == p && key.Some? && st.nodes[p].credentials then 1 else 0)
                && st'.order == st.order && st'.nodes == st.nodes)
    ensures mid.order == st.order && mid.nodes == st.nodes && Pick(st, st.order).value in st.nodes
  {
    hide Pick, OfNode, OfUser, WithinLimit;
    var p := Pick(st, st.order).value;
    var d := Device(user, p, Provisioning, None, None);
    assert mid.devices == st.devices[id := d];
    StartCounts(st.devices, id, d, user, n);
    var st' := EndCreate(mid, id, key, now, lifetime);
    UpdateCounts(mid.devices, id, st'.devices[id], user, n);
    if !Counts(st'.devices[id]) { Restored(st.devices, id, d, n); }
  }

  lemma Restored(devices: map<nat, Device>, id: nat, d: Device, n: nat)
    requires id !in devices
    ensures OfNode(devices[id := d], n) - {id} == OfNode(devices, n)
  {}

  lemma AutoSpread(st: State, st': State, k: nat)
    requires SpreadWithin(st, k) && AutoPlaced(st, st')
    ensures SpreadWithin(st', if k > 1 then k else 1) && st'.order == st.order && st'.nodes == st.nodes
  {
    hide StartCreate, EndCreate, Pick, Load;
    var user, id, key: Option<Bytes>, now: int, lifetime: int, mid :|
      && id !in st.devices && StartCreate(st, user, None, id) == Ok(mid)
      && id in mid.devices && mid.devices[id].node in mid.nodes
      && st' == EndCreate(mid, id, key, now, lifetime);
    PickIsLeast(st, st.order);
    AutoLoads(st, user, id, key, now, lifetime, mid, 0);
    forall a, b | a in st'.order && b in st'.order && Selectable(st', a) && Selectable(st', b)
      ensures Load(st', a) - Load(st', b) <= if k > 1 then k else 1
    {
      AutoLoads(st, user, id, key, now, lifetime, mid, a);
      AutoLoads(st, user, id, key, now, lifetime, mid, b);
    }
  }

  /** Over any run of auto-placed creations, successful or not, with the same
      available nodes, the difference between the most and the least loaded node
      never exceeds the larger of its starting value and one. */
  lemma {:induction false} SpreadBound(ss: seq<State>, k: nat, n: nat)
    requires ss != [] && SpreadWithin(ss[0], k) && n < |ss|
    requires forall i :: 0 <= i < |ss| - 1 ==> AutoPlaced(ss[i], ss[i + 1])
    ensures SpreadWithin(ss[n], if k > 1 then k else 1)
  {
    hide AutoPlaced, Selectable, Load;
    if n > 0 {
      SpreadBound(ss, k, n - 1);
      assert AutoPlaced(ss[n - 1], ss[n - 1 + 1]);
      AutoSpread(ss[n - 1], ss[n], if k > 1 then k else 1);
    }
  }
}
