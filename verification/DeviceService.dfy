/**
 The device service over dictionaries that its methods update in place, with the
 in-process agent that keeps peers by URL.
 */
module DeviceService {
  import opened Wrappers
  import opened PeerPath
  import opened Devices
  import opened DeviceRules

  /** The in-process agent: one state per URL, created on first use. */
  class FakeAgent {
    var agents: map<string, Agent>

    constructor ()
      ensures agents == map[]
    {
      agents := map[];
    }

    method Touch(url: string) returns (a: Agent)
      modifies this
      ensures a == if url in old(agents) then old(agents)[url] else NewAgent
      ensures agents == old(agents)[url := a]
    {
      if url !in agents { agents := agents[url := NewAgent]; }
      a := agents[url];
      assert agents == agents[url := a];
    }

    method IssuePeer(url: string, key: Bytes) returns (ip: nat)
      modifies this
      ensures var a := if url in old(agents) then old(agents)[url] else NewAgent;
              ip == a.nextIp && agents == old(agents)[url := Issued(a, key)]
    {
      var a := Touch(url);
      ip := a.nextIp;
      agents := agents[url := Agent(a.peers[key := ip], a.nextIp + 1)];
    }

    /** The key arrives as the last segment of the path. */
    method DeletePeer(url: string, path: string) returns (found: bool)
      modifies this
      ensures var a := if url in old(agents) then old(agents)[url] else NewAgent;
              && agents == old(agents)[url := Deleted(a, path)]
              && (found <==> ReceivedKey(path).Some? && ReceivedKey(path).value in a.peers)
    {
      hide ReceivedKey;
      var a := Touch(url);
      var key := ReceivedKey(path);
      if key.None? || key.value !in a.peers {
        assert Deleted(a, path) == a;
        return false;
      }
      var left := map k | k in a.peers && k != key.value :: a.peers[k];
      agents := agents[url := a.(peers := left)];
      return true;
    }
  }

  class DeviceStorage {
    var limits: map<nat, Option<nat>>
    var order: seq<nat>
    var nodes: map<nat, NodeInfo>
    var devices: map<nat, Device>
    var issues: map<nat, int>

    constructor ()
      ensures limits == map[] && order == [] && nodes == map[] && devices == map[] && issues == map[]
    {
      limits, order, nodes, devices, issues := map[], [], map[], map[], map[];
    }

    method CountTowardLimit(user: nat) returns (n: nat)
      ensures n == |OfUser(devices, user)|
    {
      hide OfUser;
      OfUserMembers(devices, user);
      ghost var all := OfUser(devices, user);
      var left := devices.Keys;
      ghost var seen: set<nat> := {};
      n := 0;
      while left != {}
        invariant left <= devices.Keys && n == |all * seen|
        invariant forall x :: x in seen <==> x in devices && x !in left
        decreases |left|
      {
        var id :| id in left;
        var d := devices[id];
        CountStep(all, seen, id);
        if d.user == user && (d.status.Provisioning? || d.status.Active?) { n := n + 1; }
        seen := seen + {id};
        left := left - {id};
      }
      assert seen == devices.Keys;
      assert all * seen == all;
    }

    method CountForServer(node: nat) returns (n: nat)
      ensures n == |OfNode(devices, node)|
    {
      hide OfNode;
      OfNodeMembers(devices, node);
      ghost var all := OfNode(devices, node);
      var left := devices.Keys;
      ghost var seen: set<nat> := {};
      n := 0;
      while left != {}
        invariant left <= devices.Keys && n == |all * seen|
        invariant forall x :: x in seen <==> x in devices && x !in left
        decreases |left|
      {
        var id :| id in left;
        var d := devices[id];
        CountStep(all, seen, id);
        if d.node == node && (d.status.Provisioning? || d.status.Active?) { n := n + 1; }
        seen := seen + {id};
        left := left - {id};
      }
      assert seen == devices.Keys;
      assert all * seen == all;
    }
  }

  lemma OfUserMembers(devices: map<nat, Device>, user: nat)
    ensures OfUser(devices, user) <= devices.Keys
    ensures forall id :: id in devices ==> (id in OfUser(devices, user) <==> devices[id].user == user && Counts(devices[id]))
  {}

  lemma OfNodeMembers(devices: map<nat, Device>, node: nat)
    ensures OfNode(devices, node) <= devices.Keys
    ensures forall id :: id in devices ==> (id in OfNode(devices, node) <==> devices[id].node == node && Counts(devices[id]))
  {}

  lemma CountStep(all: set<nat>, seen: set<nat>, id: nat)
    requires id !in seen
    ensures |all * (seen + {id})| == |all * seen| + if id in all then 1 else 0
  {
    if id in all {
      assert all * (seen + {id}) == all * seen + {id};
    } else {
      assert all * (seen + {id}) == all * seen;
    }
  }

  class DeviceService {
    const storage: DeviceStorage
    const agent: FakeAgent

    constructor (storage: DeviceStorage, agent: FakeAgent)
      ensures this.storage == storage && this.agent == agent
    {
      this.storage, this.agent := storage, agent;
    }

    ghost function S(): State
      reads storage, agent
    {
      State(storage.limits, storage.order, storage.nodes, storage.devices, storage.issues, agent.agents)
    }

    method EnforceLimit(user: nat) returns (ok: bool)
      ensures ok <==> WithinLimit(S(), user)
    {
      hide OfUser;
      if user !in storage.limits || storage.limits[user].None? { return true; }
      var used := storage.CountTowardLimit(user);
      return used < storage.limits[user].value;
    }

    /** The least loaded of the available nodes, the first one on a tie. */
    method PickForNewDevice() returns (best: Option<nat>)
      ensures best == Pick(S(), storage.order)
    {
      hide OfNode;
      ghost var st := S();
      best := None;
      var least := 0;
      for i := 0 to |storage.order|
        invariant best == Pick(st, storage.order[..i])
        invariant best.Some? ==> least == Load(st, best.value)
      {
        assert storage.order[..i + 1][..i] == storage.order[..i];
        var n := storage.order[i];
        if n in storage.nodes && storage.nodes[n].selectable {
          var load := storage.CountForServer(n);
          if best.None? || load < least { best, least := Some(n), load; }
        }
      }
      assert storage.order[..|storage.order|] == storage.order;
    }

    /** Creates a device: the limit, the node, the device, the agent, the result.
        `key` is what the agent draws, None if it cannot be reached. */
    method CreateDevice(user: nat, choice: Option<nat>, id: nat, key: Option<Bytes>, now: int, lifetime: int) returns (e: Option<CreateError>)
      requires id !in storage.devices && forall n :: n in storage.order ==> n in storage.nodes
      modifies storage, agent
      ensures var r := StartCreate(old(S()), user, choice, id);
              && (r.Err? ==> e == Some(r.error) && S() == old(S()))
              && (r.Ok? ==> e == None && id in r.value.devices && r.value.devices[id].node in r.value.nodes
                            && S() == EndCreate(r.value, id, key, now, lifetime))
      ensures e == Some(LimitReached) <==> !Below(old(S()), user)
      ensures e.None? ==> id in storage.devices && storage.devices[id].user == user
      ensures choice.Some? ==>
                && (e == Some(UnknownNode) <==> Below(old(S()), user) && choice.value !in old(storage.nodes))
                && (e == Some(NotSelectable) <==>
                      Below(old(S()), user) && choice.value in old(storage.nodes) && !old(storage.nodes)[choice.value].selectable)
                && (e.None? ==> storage.devices[id].node == choice.value) && e != Some(NoServer)
      ensures choice.None? ==>
                && (e == Some(NoServer) <==>
                      Below(old(S()), user) && forall i :: 0 <= i < |old(storage.order)| ==> !Open(old(S()), old(storage.order)[i]))
                && (e.None? ==> FirstLeast(old(S()), old(storage.order), storage.devices[id].node))
                && e != Some(UnknownNode) && e != Some(NotSelectable)
    {
      hide WithinLimit, Pick, Below, FirstLeast, Open;
      CreatedHow(S(), user, choice, id, key, now, lifetime);
      StartCreateMeans(S(), user, choice, id);
      var ok := EnforceLimit(user);
      if !ok { return Some(LimitReached); }
      var node: nat;
      if choice.Some? {
        node := choice.value;
        if node !in storage.nodes { return Some(UnknownNode); }
        if !storage.nodes[node].selectable { return Some(NotSelectable); }
      } else {
        var picked := PickForNewDevice();
        if picked.None? { return Some(NoServer); }
        node := picked.value;
      }
      var device := Device(user, node, Provisioning, None, None);
      storage.devices := storage.devices[id := device];
      ghost var mid := S();
      var info := storage.nodes[node];
      if key.None? || !info.credentials {
        storage.devices := storage.devices[id := device.(status := Failed)];
        return None;
      }
      var ip := agent.IssuePeer(info.url, key.value);
      storage.devices := storage.devices[id := device.(status := Active, key := key, ip := Some(ip))];
      storage.issues := storage.issues[id := now + lifetime];
      assert S() == EndCreate(mid, id, key, now, lifetime);
      return None;
    }

    /** Revokes a device; an agent that cannot be reached leaves all as it is. */
    method RevokeDevice(id: nat, reachable: bool) returns (ok: bool)
      requires id in storage.devices
      modifies storage, agent
      ensures S() == Revoke(old(S()), id, reachable)
      ensures ok <==> S().devices[id].status.Revoked?
    {
      hide Deleted;
      var d := storage.devices[id];
      if d.status.Revoked? { return true; }
      if d.key.Some? && d.node in storage.nodes && storage.nodes[d.node].credentials {
        if !reachable { return false; }
        var _ := agent.DeletePeer(storage.nodes[d.node].url, PathOf(d.key.value));
      }
      storage.devices := storage.devices[id := d.(status := Revoked)];
      storage.issues := storage.issues - {id};
      return true;
    }

    method IssueResult(id: nat, now: int) returns (found: bool)
      modifies storage`issues
      ensures (S(), found) == ReadIssue(old(S()), id, now)
    {
      if id !in storage.issues { return false; }
      if storage.issues[id] <= now {
        storage.issues := storage.issues - {id};
        return false;
      }
      return true;
    }
  }

  /** What a creation comes to, by its choice of a node. */
  lemma CreatedHow(st: State, user: nat, choice: Option<nat>, id: nat, key: Option<Bytes>, now: int, lifetime: int)
    requires id !in st.devices && forall n :: n in st.order ==> n in st.nodes
    ensures var r := StartCreate(st, user, choice, id);
            && (r == Err(LimitReached) <==> !Below(st, user))
            && (choice.Some? ==>
                  && (r == Err(UnknownNode) <==> Below(st, user) && choice.value !in st.nodes)
                  && (r == Err(NotSelectable) <==> Below(st, user) && choice.value in st.nodes && !st.nodes[choice.value].selectable)
                  && r != Err(NoServer))
            && (choice.None? ==>
                  && (r == Err(NoServer) <==> Below(st, user) && forall i :: 0 <= i < |st.order| ==> !Open(st, st.order[i]))
                  && r != Err(UnknownNode) && r != Err(NotSelectable))
            && (r.Ok? ==>
                  && id in r.value.devices && r.value.devices[id].node in r.value.nodes
                  && var st' := EndCreate(r.value, id, key, now, lifetime);
                     && id in st'.devices && st'.devices[id].user == user
                     && (choice.Some? ==> st'.devices[id].node == choice.value)
                     && (choice.None? ==> FirstLeast(st, st.order, st'.devices[id].node)))
  {
    hide Pick, Below, FirstLeast, Open;
    StartCreateMeans(st, user, choice, id);
    if choice.Some? { ChosenNode(st, user, choice.value, id); } else { AutoNode(st, user, id); }
    hide StartCreate;
  }
}
