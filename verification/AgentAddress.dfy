/**
 The address that an issue hands out: which ones are taken, by the
 configuration or by what the running interface shows, and the next free one.
 */
module AgentAddress {
  import opened Wrappers
  import opened Text
  import opened Netip
  import opened AwgConfig
  import opened AwgRules
  import opened AwgAllocation
  import opened AwgRuntime

  /** The address belongs to the server, or is written in an entry of a peer of
      the configuration or of a peer that the interface showed. */
  ghost predicate TakenBy(v6: V6Reader, c: ConfigData, shown: seq<RuntimePeer>, a: nat) {
    || (Subnet(v6, c).Some? && a == Subnet(v6, c).value.addr.value)
    || (exists i, k :: 0 <= i < |c.peers| && 0 <= k < |c.peers[i].allowedIPs| && AllowedIPv4(v6, c.peers[i].allowedIPs[k]) == Some(a))
    || (exists i, k :: 0 <= i < |shown| && 0 <= k < |shown[i].allowedIPs| && AllowedIPv4(v6, shown[i].allowedIPs[k]) == Some(a))
  }

  /** The least address strictly inside the server's subnet that is not taken, or
      the base of a subnet of one or two addresses. */
  ghost predicate NextAddress(v6: V6Reader, c: ConfigData, shown: seq<RuntimePeer>, ip: nat) {
    Subnet(v6, c).Some? &&
    var p := Subnet(v6, c).value;
    && ValidPrefix(p) && !TakenBy(v6, c, shown, ip)
    && if p.bits <= 30 then
         Network(p) < ip < Network(p) + Size(p) - 1 && forall a: nat :: Network(p) < a < ip ==> TakenBy(v6, c, shown, a)
       else ip == Network(p)
  }

  /** Reserving the runtime's entries besides the configuration's takes exactly
      these addresses. */
  lemma UsedIsTaken(v6: V6Reader, c: ConfigData, shown: seq<RuntimePeer>, a: nat)
    requires Subnet(v6, c).Some?
    ensures a in Used(v6, Subnet(v6, c).value.addr.value, c.peers, RuntimeUsed(shown)) <==> TakenBy(v6, c, shown, a)
  {
    hide AllowedIPv4, Subnet, Bases, PeerBases;
    PeerBasesMembers(v6, c.peers, a);
    BasesMembers(v6, RuntimeUsed(shown), a);
    ShownEntries(v6, shown, a);
  }

  lemma ShownEntries(v6: V6Reader, shown: seq<RuntimePeer>, a: nat)
    ensures (exists k :: 0 <= k < |RuntimeUsed(shown)| && AllowedIPv4(v6, RuntimeUsed(shown)[k]) == Some(a))
       <==> (exists i, k :: 0 <= i < |shown| && 0 <= k < |shown[i].allowedIPs| && AllowedIPv4(v6, shown[i].allowedIPs[k]) == Some(a))
  {
    hide AllowedIPv4, RuntimeUsed;
    var used := RuntimeUsed(shown);
    if k :| 0 <= k < |used| && AllowedIPv4(v6, used[k]) == Some(a) {
      RuntimeUsedMembers(shown, used[k]);
    }
    if i, k :| 0 <= i < |shown| && 0 <= k < |shown[i].allowedIPs| && AllowedIPv4(v6, shown[i].allowedIPs[k]) == Some(a) {
      RuntimeUsedMembers(shown, shown[i].allowedIPs[k]);
      var m :| 0 <= m < |used| && used[m] == shown[i].allowedIPs[k];
    }
  }

  /** The allocator, given the runtime's entries, hands out that address, and
      fails exactly if there is none. */
  lemma AllocatesFree(v6: V6Reader, c: ConfigData, shown: seq<RuntimePeer>, ip: nat)
    ensures Allocate(v6, c, RuntimeUsed(shown)) == Ok(ip) <==> NextAddress(v6, c, shown, ip)
  {
    hide Allocate, Used, Network, Size, Pick, Subnet, TakenBy, RuntimeUsed;
    AllocateIsPick(v6, c, RuntimeUsed(shown));
    if Subnet(v6, c).Some? {
      var p := Subnet(v6, c).value;
      var used := Used(v6, p.addr.value, c.peers, RuntimeUsed(shown));
      forall a: nat ensures a in used <==> TakenBy(v6, c, shown, a) { UsedIsTaken(v6, c, shown, a); }
      PickIsLeast(p, used);
    }
  }
}
