/**
 When a device can be created, where it is put, how long its config can be read
 and when it is revoked, said of the stored state alone; and that in every run
 each device was put on a node that could be chosen at that moment.
 */
module DeviceRules {
  import opened Wrappers
  import opened PeerPath
  import opened Devices
  import opened DeviceTheorems

  // ----- Creation -----

  /** The user's devices that are being made or in use. */
  function Held(st: State, user: nat): set<nat> {
    set d | d in st.devices && st.devices[d].user == user && (st.devices[d].status.Provisioning? || st.devices[d].status.Active?)
  }

  /** The devices on a node that are being made or in use. */
  function On(st: State, node: nat): set<nat> {
    set d | d in st.devices && st.devices[d].node == node && (st.devices[d].status.Provisioning? || st.devices[d].status.Active?)
  }

  /** The user has no limit, or fewer devices than it. */
  predicate Below(st: State, user: nat) {
    user !in st.limits || st.limits[user].None? || |Held(st, user)| < st.limits[user].value
  }

  predicate Open(st: State, n: nat) {
    n in st.nodes && st.nodes[n].selectable
  }

  lemma SameCounts(st: State, user: nat, node: nat)
    ensures Held(st, user) == OfUser(st.devices, user) && On(st, node) == OfNode(st.devices, node)
    ensures WithinLimit(st, user) <==> Below(st, user)
  {
    assert Held(st, user) == OfUser(st.devices, user);
  }

  /** A device on a chosen node can be created exactly if the user is below the
      limit and the node exists and is selectable; each error says which of these
      is the first that does not hold, and the device is then on that node. */
  lemma ChosenNode(st: State, user: nat, n: nat, id: nat)
    requires id !in st.devices
    ensures var r := StartCreate(st, user, Some(n), id);
            && (r.Ok? <==> Below(st, user) && n in st.nodes && st.nodes[n].selectable)
            && (r == Err(LimitReached) <==> !Below(st, user))
            && (r == Err(UnknownNode) <==> Below(st, user) && n !in st.nodes)
            && (r == Err(NotSelectable) <==> Below(st, user) && n in st.nodes && !st.nodes[n].selectable)
            && (r.Ok? ==> r.value == st.(devices := st.devices[id := Device(user, n, Provisioning, None, None)]))
  {
    SameCounts(st, user, n);
    hide WithinLimit, Below;
  }

  /** The first of the open nodes of a list with the fewest devices. */
  ghost predicate FirstLeast(st: State, order: seq<nat>, n: nat) {
    exists i :: 0 <= i < |order| && order[i] == n && Open(st, n)
      && (forall j :: 0 <= j < |order| && Open(st, order[j]) ==> |On(st, n)| <= |On(st, order[j])|)
      && (forall j :: 0 <= j < i && Open(st, order[j]) ==> |On(st, n)| < |On(st, order[j])|)
  }

  lemma {:induction false} PickIsFirst(st: State, order: seq<nat>)
    ensures var r := Pick(st, order);
            && (r.Some? ==> FirstLeast(st, order, r.value))
            && (r.None? <==> forall i :: 0 <= i < |order| ==> !Open(st, order[i]))
  {
    if order != [] {
      var k := |order| - 1;
      var init, last := order[..k], order[k];
      PickIsFirst(st, init);
      var best := Pick(st, init);
      SameCounts(st, 0, last);
      assert forall i :: 0 <= i < k ==> init[i] == order[i];
      if best.Some? {
        SameCounts(st, 0, best.value);
        hide OfNode, On;
        var i :| 0 <= i < |init| && init[i] == best.value && Open(st, best.value)
          && (forall j :: 0 <= j < |init| && Open(st, init[j]) ==> |On(st, best.value)| <= |On(st, init[j])|)
          && (forall j :: 0 <= j < i && Open(st, init[j]) ==> |On(st, best.value)| < |On(st, init[j])|);
        assert order[i] == best.value;
      }
    }
  }

  /** Without a chosen node a device is put on the first of the least loaded
      open ones, and there is a server exactly if one is open. */
  lemma AutoNode(st: State, user: nat, id: nat)
    requires id !in st.devices
    ensures var r := StartCreate(st, user, None, id);
            && (r.Ok? <==> Below(st, user) && exists i :: 0 <= i < |st.order| && Open(st, st.order[i]))
            && (r == Err(LimitReached) <==> !Below(st, user))
            && (r == Err(NoServer) <==> Below(st, user) && forall i :: 0 <= i < |st.order| ==> !Open(st, st.order[i]))
            && (r.Ok? ==> exists n :: FirstLeast(st, st.order, n)
                                      && r.value == st.(devices := st.devices[id := Device(user, n, Provisioning, None, None)]))
  {
    SameCounts(st, user, 0);
    PickIsFirst(st, st.order);
    hide WithinLimit, Below, Pick, FirstLeast;
  }

  /** The agent's answer: without a key, or on a node without credentials, the
      device has failed and nothing else changes; otherwise the device is in use
      with that key and the agent's next address, the agent has the peer, and
      the config can be read for its lifetime. */
  lemma CreationEnds(st: State, id: nat, key: Option<Bytes>, now: int, lifetime: int)
    requires id in st.devices && st.devices[id].node in st.nodes
    ensures var d, st' := st.devices[id], EndCreate(st, id, key, now, lifetime); var node := st.nodes[d.node];
            if key.None? || !node.credentials then st' == st.(devices := st.devices[id := d.(status := Failed)])
            else
              var ip := if node.url in st.agents then st.agents[node.url].nextIp else 2;
              && st'.devices == st.devices[id := Device(d.user, d.node, Active, key, Some(ip))]
              && st'.issues == st.issues[id := now + lifetime] && st'.limits == st.limits && st'.order == st.order && st'.nodes == st.nodes
              && st'.agents.Keys == st.agents.Keys + {node.url}
              && (forall url :: url in st.agents && url != node.url ==> st'.agents[url] == st.agents[url])
              && st'.agents[node.url].nextIp == ip + 1
              && st'.agents[node.url].peers == (if node.url in st.agents then st.agents[node.url].peers else map[])[key.value := ip]
  {}

  // ----- Reading a config -----

  /** The config of a device created at `now` can be read at any time before
      `now` plus its lifetime, and at no other; and reading takes nothing away
      before then. */
  lemma ReadableForLifetime(st: State, id: nat, key: Option<Bytes>, now: int, lifetime: int, at: int)
    requires id in st.devices && st.devices[id].node in st.nodes && st.nodes[st.devices[id].node].credentials && key.Some?
    ensures var st' := EndCreate(st, id, key, now, lifetime);
            && (ReadIssue(st', id, at).1 <==> at < now + lifetime)
            && (ReadIssue(st', id, at).1 ==> ReadIssue(st', id, at).0 == st')
            && (!ReadIssue(st', id, at).1 ==> ReadIssue(st', id, at).0 == st'.(issues := st'.issues - {id}))
  {
    hide AgentAt, Devices.Issued;
  }

  /** In general: readable exactly if there is an issue that has not expired. */
  lemma ReadIff(st: State, id: nat, at: int)
    ensures ReadIssue(st, id, at).1 <==> id in st.issues && at < st.issues[id]
    ensures ReadIssue(st, id, at).0 == if id in st.issues && st.issues[id] <= at then st.(issues := st.issues - {id}) else st
  {}

  // ----- Revoking -----

  /** A device is revoked afterwards exactly if it was before, or its agent could
      be reached, or there is no agent to be asked: it has no key, or its node
      is gone or has no credentials. Otherwise nothing changes. */
  lemma RevokedIff(st: State, id: nat, reachable: bool)
    requires id in st.devices
    ensures var d, st' := st.devices[id], Revoke(st, id, reachable);
            && id in st'.devices
            && (st'.devices[id].status.Revoked? <==>
                  d.status.Revoked? || reachable || d.key.None? || d.node !in st.nodes || !st.nodes[d.node].credentials)
            && (!st'.devices[id].status.Revoked? || d.status.Revoked? ==> st' == st)
            && st'.devices == (if st'.devices[id].status.Revoked? then st.devices[id := d.(status := Revoked)] else st.devices)
            && (st'.devices[id].status.Revoked? && !d.status.Revoked? ==> st'.issues == st.issues - {id})
            && st'.limits == st.limits && st'.order == st.order && st'.nodes == st.nodes
  {
    assert st.devices[id].status.Revoked? ==> st.devices == st.devices[id := st.devices[id].(status := Revoked)];
    hide Deleted, PathOf;
  }

  // ----- Runs -----

  /** In this step the device was created, on a node that was open. */
  ghost predicate Placed(s: Sys, s': Sys, id: nat, d: Device) {
    && id !in s.st.devices && id in s'.st.devices && s'.st.devices[id].user == d.user && s'.st.devices[id].node == d.node
    && Below(s.st, d.user) && Open(s.st, d.node)
  }

  lemma CreatePlaces(s: Sys, s': Sys, id: nat)
    requires BeginsCreate(s, s') && id in s'.st.devices
    ensures id in s.st.devices ==> s'.st.devices[id] == s.st.devices[id]
    ensures id !in s.st.devices ==> Placed(s, s', id, s'.st.devices[id])
  {
    hide StartCreate, Pick, Below, FirstLeast;
    var user, choice, new_id :| new_id !in s.st.devices && StartCreate(s.st, user, choice, new_id).Ok?
                               && s' == Sys(StartCreate(s.st, user, choice, new_id).value, Creating(new_id));
    if choice.Some? {
      ChosenNode(s.st, user, choice.value, new_id);
    } else {
      AutoNode(s.st, user, new_id);
      FirstIsOpen(s.st, s.st.order);
    }
  }

  lemma FirstIsOpen(st: State, order: seq<nat>)
    ensures forall n :: FirstLeast(st, order, n) ==> Open(st, n)
  {}

  /** No other step creates a device or moves one to another user or node. */
  lemma StepKeepsPlace(s: Sys, s': Sys, id: nat)
    requires SysNext(s, s') && !BeginsCreate(s, s') && id in s'.st.devices
    ensures id in s.st.devices && s'.st.devices[id].user == s.st.devices[id].user && s'.st.devices[id].node == s.st.devices[id].node
  {
    hide OfUser, Deleted, PathOf, AgentAt, FreshKey;
    if EndsRevoke(s, s') {
      var reachable :| s' == Sys(Revoke(s.st, s.lock.id, reachable), Free);
      RevokedIff(s.st, s.lock.id, reachable);
    }
  }

  /** At some step the device came to be, on a node open at that moment. */
  ghost predicate PlacedBy(ss: seq<Sys>, n: nat, id: nat, d: Device) {
    exists m: nat :: m < n && n < |ss| && PlacedAt(ss, m, id, d)
  }

  ghost predicate PlacedAt(ss: seq<Sys>, m: nat, id: nat, d: Device) {
    m + 1 < |ss| && Placed(ss[m], ss[m + 1], id, d)
  }

  /** Over any run, every device was created while its user was below the limit,
      on a node that was selectable at that step, and has stayed on it. */
  lemma {:induction false} EveryDeviceWasPlaced(ss: seq<Sys>, n: nat, id: nat)
    requires Run(ss) && n < |ss| && id in ss[n].st.devices
    ensures PlacedBy(ss, n, id, ss[n].st.devices[id])
  {
    hide SysNext, Placed, BeginsCreate;
    if n > 0 {
      var i := n - 1;
      assert SysNext(ss[i], ss[i + 1]);
      var d := ss[n].st.devices[id];
      if BeginsCreate(ss[i], ss[n]) {
        CreatePlaces(ss[i], ss[n], id);
        if id !in ss[i].st.devices { assert PlacedAt(ss, i, id, d); }
      } else {
        StepKeepsPlace(ss[i], ss[n], id);
      }
      if id in ss[i].st.devices {
        EveryDeviceWasPlaced(ss, i, id);
        var e := ss[i].st.devices[id];
        var m: nat :| m < i && PlacedAt(ss, m, id, e);
        SamePlace(ss[m], ss[m + 1], id, e, d);
        assert PlacedAt(ss, m, id, d);
      }
    }
  }

  lemma SamePlace(s: Sys, s': Sys, id: nat, e: Device, d: Device)
    requires Placed(s, s', id, e) && d.user == e.user && d.node == e.node
    ensures Placed(s, s', id, d)
  {}
}
