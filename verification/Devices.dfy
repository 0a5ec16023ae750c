/**
 Devices and the agents' peers: issuing and revoking under the storage lock, the
 limit of a user and the choice of a node.
 */
module Devices {
  import opened Wrappers
  import opened PeerPath

  datatype DeviceStatus = Provisioning | Active | Revoked | Failed

  datatype Device = Device(user: nat, node: nat, status: DeviceStatus, key: Option<Bytes>, ip: Option<nat>)

  /** A node as far as devices are concerned. */
  datatype NodeInfo = NodeInfo(url: string, credentials: bool, selectable: bool)

  /** An agent: the address of each key, and the next address to hand out. */
  datatype Agent = Agent(peers: map<Bytes, nat>, nextIp: nat)

  /** The storage: limits by user, nodes in order of creation, devices, the end
      of validity of each config issue; and the agents by URL. */
  datatype State = State(limits: map<nat, Option<nat>>, order: seq<nat>, nodes: map<nat, NodeInfo>,
                         devices: map<nat, Device>, issues: map<nat, int>, agents: map<string, Agent>)

  // ----- Counting -----

  predicate Counts(d: Device) {
    d.status.Provisioning? || d.status.Active?
  }

  /** The devices that count toward the limit of a user. */
  function OfUser(devices: map<nat, Device>, user: nat): set<nat> {
    set id | id in devices && devices[id].user == user && Counts(devices[id])
  }

  /** The devices that load a node. */
  function OfNode(devices: map<nat, Device>, node: nat): set<nat> {
    set id | id in devices && devices[id].node == node && Counts(devices[id])
  }

  function Load(st: State, node: nat): nat {
    |OfNode(st.devices, node)|
  }

  predicate WithinLimit(st: State, user: nat) {
    user in st.limits && st.limits[user].Some? ==> |OfUser(st.devices, user)| < st.limits[user].value
  }

  // ----- The choice of a node -----

  predicate Selectable(st: State, node: nat) {
    node in st.nodes && st.nodes[node].selectable
  }

  /** The first of the least loaded selectable nodes. */
  function Pick(st: State, order: seq<nat>): Option<nat> {
    if order == [] then None
    else
      var best := Pick(st, order[..|order| - 1]);
      var last := order[|order| - 1];
      if Selectable(st, last) && (best.None? || Load(st, last) < Load(st, best.value)) then Some(last) else best
  }

  /** The picked node is selectable, and no selectable node is less loaded;
      nothing is picked only if nothing can be. */
  lemma {:induction false} PickIsLeast(st: State, order: seq<nat>)
    ensures var r := Pick(st, order);
            && (r.Some? ==> r.value in order && Selectable(st, r.value)
                            && forall n :: n in order && Selectable(st, n) ==> Load(st, r.value) <= Load(st, n))
            && (r.None? ==> forall n :: n in order ==> !Selectable(st, n))
  {
    hide Load, Selectable;
    if order != [] { PickIsLeast(st, order[..|order| - 1]); }
  }

  // ----- The agent -----

  const NewAgent := Agent(map[], 2)

  function AgentAt(st: State, url: string): Agent {
    if url in st.agents then st.agents[url] else NewAgent
  }

  function Issued(a: Agent, key: Bytes): Agent {
    Agent(a.peers[key := a.nextIp], a.nextIp + 1)
  }

  /** The delete request carries the encoded key in its path. */
  function Deleted(a: Agent, path: string): Agent {
    match ReceivedKey(path)
    case Some(key) => a.(peers := map k | k in a.peers && k != key :: a.peers[k])
    case None => a
  }

  // ----- Operations -----

  datatype CreateError = LimitReached | UnknownNode | NotSelectable | NoServer

  function ChooseNode(st: State, choice: Option<nat>): Result<nat, CreateError> {
    match choice
    case Some(n) => if n !in st.nodes then Err(UnknownNode) else if Selectable(st, n) then Ok(n) else Err(NotSelectable)
    case None => match Pick(st, st.order) case Some(n) => Ok(n) case None => Err(NoServer)
  }

  /** Checks the limit, chooses the node and adds the device. */
  function StartCreate(st: State, user: nat, choice: Option<nat>, id: nat): Result<State, CreateError> {
    if !WithinLimit(st, user) then Err(LimitReached)
    else match ChooseNode(st, choice)
         case Err(e) => Err(e)
         case Ok(n) => Ok(st.(devices := st.devices[id := Device(user, n, Provisioning, None, None)]))
  }

  /** The agent has answered: a key and its address, or an error. */
  function EndCreate(st: State, id: nat, key: Option<Bytes>, now: int, lifetime: int): State
    requires id in st.devices && st.devices[id].node in st.nodes
  {
    var d := st.devices[id];
    var node := st.nodes[d.node];
    if key.None? || !node.credentials then st.(devices := st.devices[id := d.(status := Failed)])
    else
      var a := AgentAt(st, node.url);
      State(st.limits, st.order, st.nodes, st.devices[id := d.(status := Active, key := key, ip := Some(a.nextIp))],
            st.issues[id := now + lifetime], st.agents[node.url := Issued(a, key.value)])
  }

  /** Revokes a device: the agent's peer first, if it can be reached. */
  function Revoke(st: State, id: nat, reachable: bool): State
    requires id in st.devices
  {
    var d := st.devices[id];
    if d.status.Revoked? then st
    else
      var gone := st.(devices := st.devices[id := d.(status := Revoked)], issues := st.issues - {id});
      if d.key.None? || d.node !in st.nodes || !st.nodes[d.node].credentials then gone
      else if !reachable then st
      else
        var url := st.nodes[d.node].url;
        gone.(agents := st.agents[url := Deleted(AgentAt(st, url), PathOf(d.key.value))])
  }

  /** Reading a config issue drops it once it has expired. */
  function ReadIssue(st: State, id: nat, now: int): (State, bool) {
    if id !in st.issues then (st, false)
    else if st.issues[id] <= now then (st.(issues := st.issues - {id}), false)
    else (st, true)
  }

  // ----- What holds whenever the lock is free -----

  function UrlOf(st: State, d: Device): string {
    if d.node in st.nodes then st.nodes[d.node].url else ""
  }

  /** The device is active with this key and address at this agent. */
  predicate IsPeer(st: State, id: nat, url: string, key: Bytes, ip: nat) {
    id in st.devices && st.devices[id].status.Active? && st.devices[id].key == Some(key) && st.devices[id].ip == Some(ip)
    && UrlOf(st, st.devices[id]) == url
  }

  /** Each device has a key and an address exactly if it was issued; a device
      that was issued is on a known node with credentials. */
  predicate DeviceOk(st: State, d: Device) {
    && d.node in st.nodes
    && (d.key.Some? <==> d.ip.Some?)
    && (d.status.Active? ==> d.key.Some?)
    && (d.key.Some? ==> (d.status.Active? || d.status.Revoked?) && st.nodes[d.node].credentials)
  }

  /** Every active device is a peer of its agent, with its key and address. */
  ghost predicate DevicesArePeers(st: State) {
    forall id :: id in st.devices && st.devices[id].status.Active? ==>
      var d := st.devices[id]; var a := AgentAt(st, UrlOf(st, d));
      d.key.Some? && d.ip.Some? && d.key.value in a.peers && a.peers[d.key.value] == d.ip.value
  }

  /** Every peer of an agent is the peer of exactly one active device. */
  ghost predicate PeersAreDevices(st: State) {
    forall url, key :: url in st.agents && key in st.agents[url].peers ==>
      (exists id :: IsPeer(st, id, url, key, st.agents[url].peers[key]))
  }

  predicate Apart(st: State, d: Device, e: Device) {
    d.ip.Some? && e.ip.Some? && UrlOf(st, d) == UrlOf(st, e) ==> d.ip != e.ip && d.key != e.key
  }

  /** Devices of one agent, revoked ones included, differ in key and address,
      and the next address is above all that were handed out. */
  ghost predicate HandedOut(st: State) {
    && (forall i, j :: i in st.devices && j in st.devices && i != j ==> Apart(st, st.devices[i], st.devices[j]))
    && (forall i :: i in st.devices && st.devices[i].ip.Some? ==>
          2 <= st.devices[i].ip.value < AgentAt(st, UrlOf(st, st.devices[i])).nextIp)
    && (forall url :: url in st.agents ==> st.agents[url].nextIp >= 2)
  }

  ghost predicate IssuesOk(st: State) {
    forall id :: id in st.issues ==> id in st.devices && st.devices[id].status.Active?
  }

  ghost predicate LimitsKept(st: State) {
    forall u :: u in st.limits && st.limits[u].Some? ==> |OfUser(st.devices, u)| <= st.limits[u].value
  }

  ghost predicate DevicesOk(st: State) {
    && (forall id :: id in st.devices ==> DeviceOk(st, st.devices[id]))
    && (forall n :: n in st.order ==> n in st.nodes)
  }

  ghost predicate Sound(st: State) {
    DevicesOk(st) && DevicesArePeers(st) && PeersAreDevices(st) && HandedOut(st) && IssuesOk(st) && LimitsKept(st)
  }

  // ----- Counting lemmas -----

  lemma Fewer(a: set<nat>, b: set<nat>)
    requires a <= b
    ensures |a| <= |b|
  {
    assert b == a + (b - a);
  }

  lemma StartCounts(devices: map<nat, Device>, id: nat, d: Device, u: nat, n: nat)
    requires id !in devices && d.status.Provisioning?
    ensures |OfUser(devices[id := d], u)| == |OfUser(devices, u)| + if d.user == u then 1 else 0
    ensures |OfNode(devices[id := d], n)| == |OfNode(devices, n)| + if d.node == n then 1 else 0
  {
    StartUser(devices, id, d, u);
    StartNode(devices, id, d, n);
  }

  lemma StartUser(devices: map<nat, Device>, id: nat, d: Device, u: nat)
    requires id !in devices && d.status.Provisioning?
    ensures |OfUser(devices[id := d], u)| == |OfUser(devices, u)| + if d.user == u then 1 else 0
  {
    var more: set<nat> := if d.user == u then {id} else {};
    assert OfUser(devices[id := d], u) == OfUser(devices, u) + more;
  }

  lemma StartNode(devices: map<nat, Device>, id: nat, d: Device, n: nat)
    requires id !in devices && d.status.Provisioning?
    ensures |OfNode(devices[id := d], n)| == |OfNode(devices, n)| + if d.node == n then 1 else 0
  {
    var more: set<nat> := if d.node == n then {id} else {};
    assert OfNode(devices[id := d], n) == OfNode(devices, n) + more;
  }

  /** A device keeps its owner and node for life. */
  lemma UpdateCounts(devices: map<nat, Device>, id: nat, d: Device, u: nat, n: nat)
    requires id in devices && d.user == devices[id].user && d.node == devices[id].node
    requires Counts(d) ==> Counts(devices[id])
    ensures |OfUser(devices[id := d], u)| <= |OfUser(devices, u)| && |OfNode(devices[id := d], n)| <= |OfNode(devices, n)|
    ensures Counts(d) ==> OfUser(devices[id := d], u) == OfUser(devices, u) && OfNode(devices[id := d], n) == OfNode(devices, n)
    ensures !Counts(d) ==> OfNode(devices[id := d], n) == OfNode(devices, n) - {id}
  {
    Fewer(OfUser(devices[id := d], u), OfUser(devices, u));
    Fewer(OfNode(devices[id := d], n), OfNode(devices, n));
  }

  // ----- What every operation keeps -----

  /** The device was never issued. */
  predicate Unissued(d: Device) {
    d.key.None? && d.ip.None? && !d.status.Active?
  }

  /** A change that touches no agent and only devices that were never issued. */
  ghost predicate Quiet(st: State, st': State) {
    && st'.agents == st.agents && st'.nodes == st.nodes && st'.order == st.order
    && (forall id :: id in st.devices ==> id in st'.devices && (st'.devices[id] == st.devices[id] || (Unissued(st.devices[id]) && Unissued(st'.devices[id]))))
    && (forall id :: id in st'.devices && (id !in st.devices || st'.devices[id] != st.devices[id]) ==>
          Unissued(st'.devices[id]) && st'.devices[id].node in st.nodes)
    && (forall id :: id in st'.issues ==> id in st.issues)
  }

  lemma QuietOk(st: State, st': State)
    requires Quiet(st, st') && DevicesOk(st)
    ensures DevicesOk(st')
  {
    forall id | id in st'.devices ensures DeviceOk(st', st'.devices[id]) {
      if id in st.devices { assert DeviceOk(st, st.devices[id]); }
    }
  }

  lemma QuietDevices(st: State, st': State)
    requires Quiet(st, st') && DevicesArePeers(st)
    ensures DevicesArePeers(st')
  {
    forall id | id in st'.devices && st'.devices[id].status.Active?
      ensures var d := st'.devices[id]; var a := AgentAt(st', UrlOf(st', d));
              d.key.Some? && d.ip.Some? && d.key.value in a.peers && a.peers[d.key.value] == d.ip.value
    {
      assert st'.devices[id] == st.devices[id];
    }
  }

  lemma QuietPeers(st: State, st': State)
    requires Quiet(st, st') && PeersAreDevices(st)
    ensures PeersAreDevices(st')
  {
    forall url, key | url in st.agents && key in st.agents[url].peers
      ensures exists i :: IsPeer(st', i, url, key, st.agents[url].peers[key])
    {
      var i :| IsPeer(st, i, url, key, st.agents[url].peers[key]);
      assert IsPeer(st', i, url, key, st.agents[url].peers[key]);
    }
  }

  lemma QuietHandedOut(st: State, st': State)
    requires Quiet(st, st') && HandedOut(st)
    ensures HandedOut(st')
  {
    forall i, j | i in st'.devices && j in st'.devices && i != j ensures Apart(st', st'.devices[i], st'.devices[j]) {
      if i in st.devices && j in st.devices { assert Apart(st, st.devices[i], st.devices[j]); }
    }
    forall i | i in st'.devices && st'.devices[i].ip.Some?
      ensures 2 <= st'.devices[i].ip.value < AgentAt(st', UrlOf(st', st'.devices[i])).nextIp
    {
      assert st'.devices[i] == st.devices[i];
    }
  }

  lemma QuietSound(st: State, st': State)
    requires Quiet(st, st') && Sound(st) && LimitsKept(st')
    ensures Sound(st')
  {
    hide Quiet, DevicesOk, DevicesArePeers, PeersAreDevices, HandedOut, LimitsKept, IssuesOk;
    QuietOk(st, st');
    QuietDevices(st, st');
    QuietPeers(st, st');
    QuietHandedOut(st, st');
    QuietIssues(st, st');
  }

  lemma QuietIssues(st: State, st': State)
    requires Quiet(st, st') && IssuesOk(st)
    ensures IssuesOk(st')
  {
    forall id | id in st'.issues ensures id in st'.devices && st'.devices[id].status.Active? {
      assert st.devices[id].status.Active?;
    }
  }

  lemma PickKnown(st: State)
    requires forall n :: n in st.order ==> n in st.nodes
    ensures Pick(st, st.order).Some? ==> Pick(st, st.order).value in st.nodes
  {
    PickIsLeast(st, st.order);
  }

  lemma StartCreateMeans(st: State, user: nat, choice: Option<nat>, id: nat)
    requires (forall n :: n in st.order ==> n in st.nodes) && id !in st.devices
    ensures var r := StartCreate(st, user, choice, id);
            r.Ok? ==> && WithinLimit(st, user) && ChooseNode(st, choice).Ok? && ChooseNode(st, choice).value in st.nodes
                      && r.value == st.(devices := st.devices[id := Device(user, ChooseNode(st, choice).value, Provisioning, None, None)])
                      && Quiet(st, r.value)
  {
    PickKnown(st);
    hide Pick, WithinLimit;
  }

  lemma StartCreateSound(st: State, user: nat, choice: Option<nat>, id: nat)
    requires Sound(st) && id !in st.devices
    ensures var r := StartCreate(st, user, choice, id);
            r.Ok? ==> Sound(r.value) && id in r.value.devices && r.value.devices[id].status.Provisioning? && r.value.devices[id].key.None?
  {
    hide Quiet, DevicesArePeers, PeersAreDevices, HandedOut, LimitsKept, IssuesOk, WithinLimit, ChooseNode;
    var r := StartCreate(st, user, choice, id);
    StartCreateMeans(st, user, choice, id);
    hide DevicesOk, StartCreate;
    if r.Ok? {
      StartLimits(st, r.value, user, id);
      QuietSound(st, r.value);
    }
  }

  lemma StartLimits(st: State, st': State, user: nat, id: nat)
    requires LimitsKept(st) && WithinLimit(st, user) && id !in st.devices && st'.limits == st.limits
    requires id in st'.devices && st'.devices[id].status.Provisioning? && st'.devices[id].user == user
    requires st'.devices == st.devices[id := st'.devices[id]]
    ensures LimitsKept(st')
  {
    forall u | u in st.limits && st.limits[u].Some? ensures |OfUser(st'.devices, u)| <= st.limits[u].value {
      StartCounts(st.devices, id, st'.devices[id], u, 0);
    }
  }

  lemma UpdateLimits(st: State, st': State, id: nat)
    requires LimitsKept(st) && id in st.devices && st'.limits == st.limits && id in st'.devices
    requires st'.devices == st.devices[id := st'.devices[id]]
    requires st'.devices[id].user == st.devices[id].user && st'.devices[id].node == st.devices[id].node
    requires Counts(st'.devices[id]) ==> Counts(st.devices[id])
    ensures LimitsKept(st')
  {
    forall u | u in st.limits && st.limits[u].Some? ensures |OfUser(st'.devices, u)| <= st.limits[u].value {
      UpdateCounts(st.devices, id, st'.devices[id], u, 0);
    }
  }

  /** Keys are drawn at random; they are taken to be new. */
  ghost predicate FreshKey(st: State, key: Bytes) {
    forall i :: i in st.devices ==> st.devices[i].key != Some(key)
  }

  lemma IssuePeers(st: State, st': State, id: nat, key: Bytes, url: string)
    requires PeersAreDevices(st) && FreshKey(st, key) && id in st.devices && st.devices[id].status.Provisioning? && st'.nodes == st.nodes
    requires id in st'.devices && st'.devices == st.devices[id := st'.devices[id]]
    requires st'.agents == st.agents[url := Issued(AgentAt(st, url), key)]
    requires IsPeer(st', id, url, key, AgentAt(st, url).nextIp)
    ensures PeersAreDevices(st')
  {
    forall u, k | u in st'.agents && k in st'.agents[u].peers
      ensures exists i :: IsPeer(st', i, u, k, st'.agents[u].peers[k])
    {
      if u == url && k == key {
        assert IsPeer(st', id, u, k, st'.agents[u].peers[k]);
      } else {
        assert u in st.agents && k in st.agents[u].peers && st.agents[u].peers[k] == st'.agents[u].peers[k];
        var i :| IsPeer(st, i, u, k, st.agents[u].peers[k]);
        assert IsPeer(st', i, u, k, st'.agents[u].peers[k]);
      }
    }
  }

  lemma IssueHandedOut(st: State, st': State, id: nat, key: Bytes, url: string)
    requires HandedOut(st) && FreshKey(st, key) && id in st.devices && st.devices[id].ip.None? && st'.nodes == st.nodes
    requires id in st'.devices && st'.devices == st.devices[id := st'.devices[id]]
    requires st'.agents == st.agents[url := Issued(AgentAt(st, url), key)] && AgentAt(st, url).nextIp >= 2
    requires IsPeer(st', id, url, key, AgentAt(st, url).nextIp)
    ensures HandedOut(st')
  {
    forall i, j | i in st'.devices && j in st'.devices && i != j ensures Apart(st', st'.devices[i], st'.devices[j]) {
      if i != id && j != id { assert Apart(st, st.devices[i], st.devices[j]); }
    }
  }

  lemma IssueDevices(st: State, st': State, id: nat, key: Bytes, url: string)
    requires DevicesArePeers(st) && FreshKey(st, key) && id in st.devices && st'.nodes == st.nodes
    requires id in st'.devices && st'.devices == st.devices[id := st'.devices[id]]
    requires st'.agents == st.agents[url := Issued(AgentAt(st, url), key)]
    requires IsPeer(st', id, url, key, AgentAt(st, url).nextIp)
    ensures DevicesArePeers(st')
  {}

  lemma IssueOk(st: State, st': State, id: nat)
    requires DevicesOk(st) && IssuesOk(st) && id in st.devices && st'.nodes == st.nodes && st'.order == st.order
    requires st.devices[id].node in st.nodes && st.nodes[st.devices[id].node].credentials
    requires id in st'.devices && st'.devices == st.devices[id := st'.devices[id]] && st'.devices[id].node == st.devices[id].node
    requires st'.devices[id].status.Active? && st'.devices[id].key.Some? && st'.devices[id].ip.Some?
    requires st'.issues.Keys == st.issues.Keys + {id}
    ensures DevicesOk(st') && IssuesOk(st')
  {
    forall i | i in st'.devices ensures DeviceOk(st', st'.devices[i]) {
      if i != id { assert DeviceOk(st, st.devices[i]); }
    }
  }

  lemma NextIpStart(st: State, url: string)
    requires HandedOut(st)
    ensures AgentAt(st, url).nextIp >= 2
  {}

  lemma EndCreateSound(st: State, id: nat, key: Option<Bytes>, now: int, lifetime: int)
    requires Sound(st) && id in st.devices && st.devices[id].status.Provisioning? && st.devices[id].key.None?
    requires key.Some? ==> FreshKey(st, key.value)
    ensures st.devices[id].node in st.nodes
    ensures var st' := EndCreate(st, id, key, now, lifetime);
            Sound(st') && (st'.devices[id].status.Active? || st'.devices[id].status.Failed?)
  {
    hide Quiet, DevicesArePeers, PeersAreDevices, HandedOut, LimitsKept, IssuesOk, FreshKey;
    var d := st.devices[id];
    assert DeviceOk(st, d);
    hide DevicesOk;
    var st' := EndCreate(st, id, key, now, lifetime);
    UpdateLimits(st, st', id);
    if st'.devices[id].status.Active? {
      var url := st.nodes[d.node].url;
      NextIpStart(st, url);
      assert IsPeer(st', id, url, key.value, AgentAt(st, url).nextIp);
      IssuePeers(st, st', id, key.value, url);
      IssueHandedOut(st, st', id, key.value, url);
      IssueDevices(st, st', id, key.value, url);
      IssueOk(st, st', id);
    } else {
      FailQuiet(st, st', id);
      QuietSound(st, st');
    }
  }

  /** A device that was never issued changes its status. */
  lemma FailQuiet(st: State, st': State, id: nat)
    requires id in st.devices && Unissued(st.devices[id]) && st.devices[id].node in st.nodes
    requires id in st'.devices && Unissued(st'.devices[id]) && st'.devices[id].node == st.devices[id].node
    requires st' == st.(devices := st.devices[id := st'.devices[id]], issues := st'.issues) && st'.issues.Keys <= st.issues.Keys
    ensures Quiet(st, st')
  {}

  /** The delete request removes exactly the peer of the device's key. */
  lemma DeletedMeans(a: Agent, key: Bytes)
    ensures var b := Deleted(a, PathOf(key));
            && b.nextIp == a.nextIp && b.peers.Keys == a.peers.Keys - {key}
            && forall k :: k in b.peers ==> b.peers[k] == a.peers[k]
  {
    PathReadsBack(key, key);
  }

  lemma RevokeHandedOut(st: State, st': State, id: nat)
    requires HandedOut(st) && id in st.devices && id in st'.devices && st'.nodes == st.nodes
    requires st'.devices == st.devices[id := st.devices[id].(status := Revoked)]
    requires forall url :: AgentAt(st', url).nextIp == AgentAt(st, url).nextIp && (url in st'.agents ==> st'.agents[url].nextIp >= 2)
    ensures HandedOut(st')
  {
    hide AgentAt;
    forall i, j | i in st'.devices && j in st'.devices && i != j ensures Apart(st', st'.devices[i], st'.devices[j]) {
      assert Apart(st, st.devices[i], st.devices[j]);
    }
    hide Apart;
    forall i | i in st'.devices && st'.devices[i].ip.Some?
      ensures 2 <= st'.devices[i].ip.value < AgentAt(st', UrlOf(st', st'.devices[i])).nextIp
    {
      assert st'.devices[i].ip == st.devices[i].ip && UrlOf(st', st'.devices[i]) == UrlOf(st, st.devices[i]);
    }
  }

  /** How the agents look once one key of one agent is deleted. */
  ghost predicate KeyGone(st: State, st': State, url: string, key: Bytes) {
    && (forall u, k :: u in st'.agents && k in st'.agents[u].peers ==>
          u in st.agents && k in st.agents[u].peers && st'.agents[u].peers[k] == st.agents[u].peers[k] && !(u == url && k == key))
    && (forall u, k :: k in AgentAt(st, u).peers && !(u == url && k == key) ==>
          k in AgentAt(st', u).peers && AgentAt(st', u).peers[k] == AgentAt(st, u).peers[k])
  }

  lemma DeleteGone(st: State, st': State, url: string, key: Bytes)
    requires st'.agents == st.agents[url := Deleted(AgentAt(st, url), PathOf(key))]
    ensures KeyGone(st, st', url, key)
  {
    DeletedMeans(AgentAt(st, url), key);
    hide Deleted, PathOf;
  }

  lemma RevokePeers(st: State, st': State, id: nat, key: Bytes, url: string)
    requires PeersAreDevices(st) && id in st.devices && st'.nodes == st.nodes && KeyGone(st, st', url, key)
    requires st'.devices == st.devices[id := st.devices[id].(status := Revoked)]
    requires st.devices[id].key == Some(key) && UrlOf(st, st.devices[id]) == url
    ensures PeersAreDevices(st')
  {
    forall u, k | u in st'.agents && k in st'.agents[u].peers
      ensures exists i :: IsPeer(st', i, u, k, st'.agents[u].peers[k])
    {
      var i :| IsPeer(st, i, u, k, st.agents[u].peers[k]);
      assert IsPeer(st', i, u, k, st'.agents[u].peers[k]);
    }
  }

  lemma RevokeDevices(st: State, st': State, id: nat, key: Bytes, url: string)
    requires DevicesArePeers(st) && HandedOut(st) && id in st.devices && st'.nodes == st.nodes && KeyGone(st, st', url, key)
    requires st'.devices == st.devices[id := st.devices[id].(status := Revoked)]
    requires st.devices[id].key == Some(key) && st.devices[id].ip.Some? && UrlOf(st, st.devices[id]) == url
    ensures DevicesArePeers(st')
  {
    hide AgentAt;
    forall i | i in st'.devices && st'.devices[i].status.Active?
      ensures var d := st'.devices[i]; var a := AgentAt(st', UrlOf(st', d));
              d.key.Some? && d.ip.Some? && d.key.value in a.peers && a.peers[d.key.value] == d.ip.value
    {
      assert i != id && st'.devices[i] == st.devices[i] && Apart(st, st.devices[i], st.devices[id]);
    }
  }

  lemma RevokeOk(st: State, st': State, id: nat)
    requires DevicesOk(st) && IssuesOk(st) && id in st.devices && st'.nodes == st.nodes && st'.order == st.order
    requires st'.devices == st.devices[id := st.devices[id].(status := Revoked)] && st'.issues == st.issues - {id}
    ensures DevicesOk(st') && IssuesOk(st')
  {
    forall i | i in st'.devices ensures DeviceOk(st', st'.devices[i]) { assert DeviceOk(st, st.devices[i]); }
  }

  lemma RevokeSound(st: State, id: nat, reachable: bool)
    requires Sound(st) && id in st.devices
    ensures var st' := Revoke(st, id, reachable);
            Sound(st') && (reachable ==> st'.devices[id].status.Revoked? && id !in st'.issues)
  {
    hide Quiet, DevicesArePeers, PeersAreDevices, HandedOut, LimitsKept;
    var st' := Revoke(st, id, reachable);
    var d := st.devices[id];
    assert DeviceOk(st, d);
    assert d.status.Revoked? ==> id !in st.issues;
    hide IssuesOk, DevicesOk;
    if st' != st {
      UpdateLimits(st, st', id);
      if d.key.Some? {
        DeletedMeans(AgentAt(st, UrlOf(st, d)), d.key.value);
        DeleteGone(st, st', UrlOf(st, d), d.key.value);
        RevokePeers(st, st', id, d.key.value, UrlOf(st, d));
        RevokeDevices(st, st', id, d.key.value, UrlOf(st, d));
        hide Deleted, KeyGone;
        NextIpStart(st, UrlOf(st, d));
        AgentsKept(st, st', UrlOf(st, d));
        RevokeHandedOut(st, st', id);
        RevokeOk(st, st', id);
      } else {
        FailQuiet(st, st', id);
        QuietSound(st, st');
      }
    }
  }

  lemma AgentsKept(st: State, st': State, url: string)
    requires HandedOut(st) && st'.agents.Keys == st.agents.Keys + {url} && AgentAt(st', url).nextIp == AgentAt(st, url).nextIp
    requires forall u :: u in st.agents && u != url ==> st'.agents[u] == st.agents[u]
    ensures forall u :: AgentAt(st', u).nextIp == AgentAt(st, u).nextIp && (u in st'.agents ==> st'.agents[u].nextIp >= 2)
  {}

  lemma ReadIssueSound(st: State, id: nat, now: int)
    requires Sound(st)
    ensures Sound(ReadIssue(st, id, now).0)
  {
    var st' := ReadIssue(st, id, now).0;
    hide DevicesOk, DevicesArePeers, PeersAreDevices, HandedOut, IssuesOk, OfUser;
    assert Quiet(st, st');
    hide Quiet;
    assert LimitsKept(st');
    hide LimitsKept;
    QuietSound(st, st');
  }

  /** Users, nodes and limits may be added, nodes switched, limits raised. */
  ghost predicate Administered(st: State, st': State) {
    && st'.devices == st.devices && st'.issues == st.issues && st'.agents == st.agents
    && (forall n :: n in st.nodes ==> n in st'.nodes && st'.nodes[n].url == st.nodes[n].url && st'.nodes[n].credentials == st.nodes[n].credentials)
    && (forall n :: n in st'.order ==> n in st'.nodes)
    && (forall u :: u in st'.limits && st'.limits[u].Some? ==>
          if u in st.limits then st.limits[u].Some? && st.limits[u].value <= st'.limits[u].value
          else OfUser(st.devices, u) == {})
  }

  lemma AdministeredUrls(st: State, st': State)
    requires DevicesOk(st) && Administered(st, st')
    ensures DevicesOk(st') && forall id :: id in st.devices ==> UrlOf(st', st.devices[id]) == UrlOf(st, st.devices[id])
  {
    hide OfUser;
    forall id | id in st.devices ensures DeviceOk(st', st'.devices[id]) && UrlOf(st', st.devices[id]) == UrlOf(st, st.devices[id]) {
      assert DeviceOk(st, st.devices[id]);
    }
  }

  lemma SameUrls(st: State, st': State)
    requires DevicesArePeers(st) && HandedOut(st) && st'.devices == st.devices && st'.agents == st.agents
    requires forall id :: id in st.devices ==> UrlOf(st', st.devices[id]) == UrlOf(st, st.devices[id])
    ensures DevicesArePeers(st') && HandedOut(st')
  {
    hide UrlOf;
    assert forall url :: AgentAt(st', url) == AgentAt(st, url);
    hide AgentAt;
    forall i, j | i in st'.devices && j in st'.devices && i != j ensures Apart(st', st'.devices[i], st'.devices[j]) {
      assert Apart(st, st.devices[i], st.devices[j]);
    }
  }

  lemma AdministeredSound(st: State, st': State)
    requires Sound(st) && Administered(st, st')
    ensures Sound(st')
  {
    hide OfUser, PeersAreDevices, HandedOut, DevicesArePeers, DevicesOk;
    AdministeredPeers(st, st');
    AdministeredUrls(st, st');
    SameUrls(st, st');
  }

  lemma AdministeredPeers(st: State, st': State)
    requires PeersAreDevices(st) && DevicesOk(st) && Administered(st, st')
    ensures PeersAreDevices(st')
  {
    hide OfUser;
    forall url, key | url in st.agents && key in st.agents[url].peers
      ensures exists i :: IsPeer(st', i, url, key, st.agents[url].peers[key])
    {
      var i :| IsPeer(st, i, url, key, st.agents[url].peers[key]);
      assert DeviceOk(st, st.devices[i]);
      assert IsPeer(st', i, url, key, st.agents[url].peers[key]);
    }
  }
}
