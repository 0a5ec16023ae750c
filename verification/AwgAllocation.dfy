/**
 First-fit allocation of a client's IPv4 address inside the server's subnet.
 */
module AwgAllocation {
  import opened Wrappers
  import opened Text
  import opened Netip
  import opened AwgConfig
  import opened AwgRules

  datatype AllocError = NoAddress | BadAddress | NotIPv4 | BadBits | Exhausted

  /** The IPv4 address written at the front of an allowed-IPs entry. */
  function AllowedIPv4(v6: V6Reader, text: string): Option<nat> {
    var t := TrimSpace(text);
    if t == "" then None
    else
      var p := ParsePrefix(v6, t);
      if p.Some? && p.value.addr.family.V4? then Some(p.value.addr.value)
      else
        var a := ParseAddr(v6, t);
        if a.Some? && a.value.family.V4? then Some(a.value.value) else None
  }

  /** The addresses written in a list of entries. */
  function Bases(v6: V6Reader, texts: seq<string>): set<nat> {
    if texts == [] then {}
    else
      var a := AllowedIPv4(v6, texts[0]);
      (if a.Some? then {a.value} else {}) + Bases(v6, texts[1..])
  }

  function PeerBases(v6: V6Reader, ps: seq<Peer>): set<nat> {
    if ps == [] then {} else Bases(v6, ps[0].allowedIPs) + PeerBases(v6, ps[1..])
  }

  /** The least number from lo up to but not including hi that is not used. */
  function FirstFree(used: set<nat>, lo: nat, hi: nat): Option<nat>
    decreases hi - lo
  {
    if lo >= hi then None else if lo !in used then Some(lo) else FirstFree(used, lo + 1, hi)
  }

  /** The addresses that may not be handed out. */
  function Used(v6: V6Reader, server: nat, ps: seq<Peer>, extra: seq<string>): set<nat> {
    {server} + PeerBases(v6, ps) + Bases(v6, extra)
  }

  function Network(p: Prefix): nat
    requires ValidPrefix(p)
  {
    Masked(p.addr, p.bits).value
  }

  function Allocate(v6: V6Reader, c: ConfigData, extra: seq<string>): Result<nat, AllocError> {
    match InterfaceAddress(c)
    case None => Err(NoAddress)
    case Some(text) =>
      ParsePrefixValid(v6, text);
      match ParsePrefix(v6, text)
      case None => Err(BadAddress)
      case Some(p) =>
        if !p.addr.family.V4? then Err(NotIPv4)
        else if p.bits == 0 then Err(BadBits)
        else Pick(p, Used(v6, p.addr.value, c.peers, extra))
  }

  /** The choice inside a subnet, given the addresses that are taken. */
  function Pick(p: Prefix, used: set<nat>): Result<nat, AllocError>
    requires ValidPrefix(p)
  {
    if Size(p) <= 2 then
      if Network(p) !in used then Ok(Network(p)) else Err(Exhausted)
    else
      match FirstFree(used, Network(p) + 1, Network(p) + Size(p) - 1)
      case Some(a) => Ok(a)
      case None => Err(Exhausted)
  }

  lemma {:induction false} FirstFreeIsLeast(used: set<nat>, lo: nat, hi: nat)
    ensures var r := FirstFree(used, lo, hi);
            && (r.Some? ==> lo <= r.value < hi && r.value !in used
                            && forall a :: lo <= a < r.value ==> a in used)
            && (r.None? ==> forall a :: lo <= a < hi ==> a in used)
    decreases hi - lo
  {
    if lo < hi && lo in used { FirstFreeIsLeast(used, lo + 1, hi); }
  }

  lemma {:induction false} BasesMembers(v6: V6Reader, texts: seq<string>, a: nat)
    ensures a in Bases(v6, texts) <==> exists k :: 0 <= k < |texts| && AllowedIPv4(v6, texts[k]) == Some(a)
  {
    hide AllowedIPv4;
    if texts != [] {
      BasesMembers(v6, texts[1..], a);
      if k :| 0 <= k < |texts| && AllowedIPv4(v6, texts[k]) == Some(a) {
        if k > 0 { assert texts[1..][k - 1] == texts[k]; }
      }
    }
  }

  lemma {:induction false} PeerBasesMembers(v6: V6Reader, ps: seq<Peer>, a: nat)
    ensures a in PeerBases(v6, ps) <==>
            exists i, k :: 0 <= i < |ps| && 0 <= k < |ps[i].allowedIPs| && AllowedIPv4(v6, ps[i].allowedIPs[k]) == Some(a)
  {
    hide AllowedIPv4;
    if ps != [] {
      BasesMembers(v6, ps[0].allowedIPs, a);
      PeerBasesMembers(v6, ps[1..], a);
      if i, k :| 0 <= i < |ps| && 0 <= k < |ps[i].allowedIPs| && AllowedIPv4(v6, ps[i].allowedIPs[k]) == Some(a) {
        if i > 0 { assert ps[1..][i - 1] == ps[i]; }
      }
    }
  }

  /** A usable client address: strictly inside the subnet, not the server's,
      and not written in the config or in the extra list. */
  ghost predicate Usable(v6: V6Reader, p: Prefix, ps: seq<Peer>, extra: seq<string>, a: nat)
    requires ValidPrefix(p)
  {
    && Network(p) < a < Network(p) + Size(p) - 1
    && a != p.addr.value
    && !(exists i, k :: 0 <= i < |ps| && 0 <= k < |ps[i].allowedIPs| && AllowedIPv4(v6, ps[i].allowedIPs[k]) == Some(a))
    && !(exists k :: 0 <= k < |extra| && AllowedIPv4(v6, extra[k]) == Some(a))
  }

  /** The server's own prefix, when the interface has a usable IPv4 one. */
  function Subnet(v6: V6Reader, c: ConfigData): Option<Prefix> {
    match InterfaceAddress(c)
    case None => None
    case Some(text) =>
      match ParsePrefix(v6, text)
      case Some(p) => if p.addr.family.V4? && p.bits > 0 then Some(p) else None
      case None => None
  }

  lemma SubnetValid(v6: V6Reader, c: ConfigData)
    ensures Subnet(v6, c).Some? ==> ValidPrefix(Subnet(v6, c).value)
  {
    if InterfaceAddress(c).Some? { ParsePrefixValid(v6, InterfaceAddress(c).value); }
  }

  lemma AllocateIsPick(v6: V6Reader, c: ConfigData, extra: seq<string>)
    ensures Subnet(v6, c).None? ==> Allocate(v6, c, extra).Err?
    ensures Subnet(v6, c).Some? ==>
            var p := Subnet(v6, c).value;
            && ValidPrefix(p) && p.addr.family.V4?
            && Allocate(v6, c, extra) == Pick(p, Used(v6, p.addr.value, c.peers, extra))
  {
    SubnetValid(v6, c);
    hide Pick, Used, ParsePrefix, InterfaceAddress;
  }

  /** The pick is the least free address strictly inside the subnet. */
  lemma PickIsLeast(p: Prefix, used: set<nat>)
    requires ValidPrefix(p) && p.addr.family.V4?
    ensures var r := Pick(p, used);
            && (r.Ok? ==> r.value !in used)
            && (p.bits <= 30 && r.Ok? ==>
                  Network(p) < r.value < Network(p) + Size(p) - 1
                  && forall a :: Network(p) < a < r.value ==> a in used)
            && (p.bits <= 30 && r.Err? ==>
                  r.error == Exhausted && forall a :: Network(p) < a < Network(p) + Size(p) - 1 ==> a in used)
            && (p.bits > 30 ==> r == if Network(p) in used then Err(Exhausted) else Ok(Network(p)))
  {
    SizeUpTo30(p);
    hide Network, Size, FirstFree;
    FirstFreeIsLeast(used, Network(p) + 1, Network(p) + Size(p) - 1);
  }

  lemma UsableUsed(v6: V6Reader, p: Prefix, ps: seq<Peer>, extra: seq<string>, a: nat)
    requires ValidPrefix(p)
    ensures Usable(v6, p, ps, extra, a) <==>
            Network(p) < a < Network(p) + Size(p) - 1 && a !in Used(v6, p.addr.value, ps, extra)
  {
    hide Network, Size, PeerBases, Bases, AllowedIPv4;
    PeerBasesMembers(v6, ps, a);
    BasesMembers(v6, extra, a);
  }

  lemma SizeUpTo30(p: Prefix)
    requires ValidPrefix(p) && p.addr.family.V4?
    ensures Size(p) > 2 <==> p.bits <= 30
  {
    assert Pow2(0) == 1 && Pow2(1) == 2 && Pow2(2) == 4;
    if p.bits <= 30 { Pow2Sum(2, 30 - p.bits); }
  }

  /** Exact first fit: the result is the least usable address, and allocation
      fails only when there is none. */
  lemma AllocateFirstFit(v6: V6Reader, c: ConfigData, extra: seq<string>)
    requires Subnet(v6, c).Some? && Subnet(v6, c).value.bits <= 30
    ensures var p := Subnet(v6, c).value;
            var r := Allocate(v6, c, extra);
            && ValidPrefix(p)
            && (r.Ok? ==> Usable(v6, p, c.peers, extra, r.value)
                          && forall a: nat :: a < r.value ==> !Usable(v6, p, c.peers, extra, a))
            && (r.Err? ==> r.error == Exhausted && forall a: nat :: !Usable(v6, p, c.peers, extra, a))
  {
    AllocateIsPick(v6, c, extra);
    hide Allocate, Usable, Used, Network, Size, Pick, Subnet;
    var p := Subnet(v6, c).value;
    PickIsLeast(p, Used(v6, p.addr.value, c.peers, extra));
    forall a: nat ensures Usable(v6, p, c.peers, extra, a) <==>
      Network(p) < a < Network(p) + Size(p) - 1 && a !in Used(v6, p.addr.value, c.peers, extra) {
      UsableUsed(v6, p, c.peers, extra, a);
    }
  }

  /** Prefix lengths 31 and 32 hand out the subnet's base address or nothing. */
  lemma AllocateTiny(v6: V6Reader, c: ConfigData, extra: seq<string>)
    requires Subnet(v6, c).Some? && Subnet(v6, c).value.bits > 30
    ensures var p := Subnet(v6, c).value;
            ValidPrefix(p) &&
            Allocate(v6, c, extra) ==
            if Network(p) in Used(v6, p.addr.value, c.peers, extra) then Err(Exhausted) else Ok(Network(p))
  {
    AllocateIsPick(v6, c, extra);
    hide Allocate, Used, Network, Pick, Subnet;
    var p := Subnet(v6, c).value;
    PickIsLeast(p, Used(v6, p.addr.value, c.peers, extra));
  }

  /** The numbers from lo up to but not including hi. */
  function Range(lo: nat, hi: nat): (s: set<nat>)
    ensures forall x: nat :: x in s <==> lo <= x < hi
    decreases hi - lo
  {
    if lo >= hi then {} else {lo} + Range(lo + 1, hi)
  }

  lemma {:induction false} RangeCount(lo: nat, hi: nat)
    requires lo <= hi
    ensures |Range(lo, hi)| == hi - lo
    decreases hi - lo
  {
    if lo < hi {
      RangeCount(lo + 1, hi);
      assert lo !in Range(lo + 1, hi);
    }
  }

  /** The usable addresses that are already taken. */
  function Taken(p: Prefix, used: set<nat>): set<nat>
    requires ValidPrefix(p)
  {
    set x | x in used && Network(p) < x < Network(p) + Size(p) - 1
  }

  /** Allocation succeeds exactly while fewer than Size - 2 usable addresses are taken. */
  lemma AllocateHasRoom(v6: V6Reader, c: ConfigData, extra: seq<string>)
    requires Subnet(v6, c).Some? && Subnet(v6, c).value.bits <= 30
    ensures var p := Subnet(v6, c).value;
            && ValidPrefix(p) && Size(p) > 2
            && (Allocate(v6, c, extra).Ok? <==>
                |Taken(p, Used(v6, p.addr.value, c.peers, extra))| < Size(p) - 2)
  {
    AllocateIsPick(v6, c, extra);
    hide Allocate, Used, Network, Size, Pick, Subnet;
    var p := Subnet(v6, c).value;
    var used := Used(v6, p.addr.value, c.peers, extra);
    SizeUpTo30(p);
    PickIsLeast(p, used);
    var all := Range(Network(p) + 1, Network(p) + Size(p) - 1);
    RangeCount(Network(p) + 1, Network(p) + Size(p) - 1);
    if Pick(p, used).Ok? {
      SmallerSet(Taken(p, used), all, Pick(p, used).value);
    } else {
      assert all == Taken(p, used);
    }
  }

  lemma SmallerSet(s: set<nat>, t: set<nat>, x: nat)
    requires s <= t && x in t && x !in s
    ensures |s| < |t|
  {
    assert s <= t - {x};
    SubsetCount(s, t - {x});
  }

  lemma SubsetCount(s: set<nat>, t: set<nat>)
    requires s <= t
    ensures |s| <= |t|
  {
    if s != {} {
      var x :| x in s;
      SubsetCount(s - {x}, t - {x});
    }
  }

  /** Every allocated address fits in 32 bits, so the conversion from the
      64-bit loop counter never wraps. */
  lemma AllocateInRange(v6: V6Reader, c: ConfigData, extra: seq<string>)
    ensures Allocate(v6, c, extra).Ok? ==> Allocate(v6, c, extra).value < 4294967296
  {
    AllocateIsPick(v6, c, extra);
    hide Allocate, Used, Network, Size, Pick, Subnet;
    if Subnet(v6, c).Some? {
      var p := Subnet(v6, c).value;
      SubnetEnd(p);
      PickIsLeast(p, Used(v6, p.addr.value, c.peers, extra));
    }
  }

  lemma SubnetEnd(p: Prefix)
    requires ValidPrefix(p) && p.addr.family.V4?
    ensures Network(p) + Size(p) <= 4294967296 && Size(p) > 0
  {
    var d := Size(p);
    var v := p.addr.value;
    Pow2Values();
    Pow2Sum(p.bits, 32 - p.bits);
    assert Pow2(p.bits) * d == 4294967296;
    DivBounds(v, d);
    MulMono(Pow2(p.bits), v / d, d);
    MulMono(v / d + 1, Pow2(p.bits), d);
    assert (v / d + 1) * d == v / d * d + d;
  }

  // ----- Allocation and validity -----

  /** Every IPv4 entry of the peer is a single host. */
  predicate HostsOnly(v6: V6Reader, p: Peer) {
    forall k :: 0 <= k < |p.allowedIPs| ==>
      var r := ParsePrefix(v6, p.allowedIPs[k]); r.Some? && r.value.addr.family.V4? ==> r.value.bits == 32
  }

  /** With host routes only, an address is covered only if it is written. */
  lemma CoveredIsWritten(v6: V6Reader, p: Peer, ip: nat)
    requires HostsOnly(v6, p) && PeerCovers(v6, p, Addr(V4, ip))
    requires forall x :: x in p.allowedIPs ==> Trimmed(x)
    ensures exists k :: 0 <= k < |p.allowedIPs| && AllowedIPv4(v6, p.allowedIPs[k]) == Some(ip)
  {
    var k :| 0 <= k < |p.allowedIPs| && RouteCovers(v6, p.allowedIPs[k], Addr(V4, ip));
    hide RouteCovers, AllowedIPv4, Trimmed, ParsePrefix;
    assert p.allowedIPs[k] in p.allowedIPs;
    HostRouteIsWritten(v6, p.allowedIPs[k], ip);
  }

  lemma HostRouteIsWritten(v6: V6Reader, x: string, ip: nat)
    requires Trimmed(x) && RouteCovers(v6, x, Addr(V4, ip))
    requires ParsePrefix(v6, x).Some? && (ParsePrefix(v6, x).value.addr.family.V4? ==> ParsePrefix(v6, x).value.bits == 32)
    ensures AllowedIPv4(v6, x) == Some(ip)
  {
    EmptyIsNoPrefix(v6);
    hide ParsePrefix, TrimSpace, ParseAddr, Trimmed;
    TrimSpaceFacts(x);
    var r := ParsePrefix(v6, x).value;
    assert Size(r) == 1;
    assert r.addr == Addr(V4, ip);
  }

  lemma EmptyIsNoPrefix(v6: V6Reader)
    ensures ParsePrefix(v6, "").None?
  {
    assert LastIndexOf("", '/') == -1;
  }

  /** If the config validates and all its IPv4 entries are single hosts, then
      the allocated address can always be added for a fresh key, whatever
      addresses the runtime uses besides. */
  lemma AllocationKeepsValid(v6: V6Reader, c: ConfigData, extra: seq<string>, key: string, psk: string)
    requires ValidConfig(v6, c) && PrintablePeers(c.peers)
    requires forall i :: 0 <= i < |c.peers| ==> HostsOnly(v6, c.peers[i])
    requires key != "" && !HasKey(c.peers, key)
    ensures Allocate(v6, c, extra).Ok? ==>
            && Allocate(v6, c, extra).value < 4294967296
            && ValidConfig(v6, c.(peers := c.peers + [HostPeer(key, psk, Allocate(v6, c, extra).value)]))
  {
    if Allocate(v6, c, extra).Ok? {
      AllocateInRange(v6, c, extra);
      var ip := Allocate(v6, c, extra).value;
      AllocatedIsUnwritten(v6, c, extra);
      hide Allocate, HostPeer, PeerCovers, HostsOnly, AllowedIPv4;
      forall i | 0 <= i < |c.peers| ensures !PeerCovers(v6, c.peers[i], Addr(V4, ip)) {
        if PeerCovers(v6, c.peers[i], Addr(V4, ip)) {
          PeerTrimmed(c.peers[i]);
          CoveredIsWritten(v6, c.peers[i], ip);
          assert false;
        }
      }
      HostPeerValid(v6, c, key, psk, ip);
    }
  }

  lemma PeerTrimmed(p: Peer)
    requires PrintablePeer(p)
    ensures forall x :: x in p.allowedIPs ==> Trimmed(x)
  {}

  lemma AllocatedIsUnwritten(v6: V6Reader, c: ConfigData, extra: seq<string>)
    requires Allocate(v6, c, extra).Ok?
    ensures var ip := Allocate(v6, c, extra).value;
            forall i, k :: 0 <= i < |c.peers| && 0 <= k < |c.peers[i].allowedIPs| ==>
              AllowedIPv4(v6, c.peers[i].allowedIPs[k]) != Some(ip)
  {
    AllocateIsPick(v6, c, extra);
    hide Allocate, Network, Size, Pick, Subnet, AllowedIPv4, Bases, PeerBases;
    var p := Subnet(v6, c).value;
    PickIsLeast(p, Used(v6, p.addr.value, c.peers, extra));
    PeerBasesMembers(v6, c.peers, Allocate(v6, c, extra).value);
  }

  /** In general the new peer is accepted exactly when its key is new and no
      prefix in the config covers the allocated address. The allocator itself
      avoids only the addresses that are written. */
  lemma AllocatedIsAccepted(v6: V6Reader, c: ConfigData, extra: seq<string>, key: string, psk: string)
    requires ValidConfig(v6, c) && Allocate(v6, c, extra).Ok?
    ensures var ip := Allocate(v6, c, extra).value;
            && ip < 4294967296
            && (ValidConfig(v6, c.(peers := c.peers + [HostPeer(key, psk, ip)])) <==>
                && key != "" && !HasKey(c.peers, key)
                && forall i, k :: 0 <= i < |c.peers| && 0 <= k < |c.peers[i].allowedIPs| ==>
                     !RouteCovers(v6, c.peers[i].allowedIPs[k], Addr(V4, ip)))
  {
    AllocateInRange(v6, c, extra);
    var ip := Allocate(v6, c, extra).value;
    hide Allocate, HostPeer, ValidConfig, RouteCovers, HasKey;
    HostPeerValid(v6, c, key, psk, ip);
  }

  /** The address that a new client is due: the least usable one, or the base
      address of a subnet that has only one or two. */
  ghost predicate DueAddress(v6: V6Reader, c: ConfigData, extra: seq<string>, a: nat) {
    Subnet(v6, c).Some? &&
    var p := Subnet(v6, c).value;
    && ValidPrefix(p)
    && if p.bits <= 30 then Usable(v6, p, c.peers, extra, a) && forall b: nat :: b < a ==> !Usable(v6, p, c.peers, extra, b)
       else a == Network(p) && a !in Used(v6, p.addr.value, c.peers, extra)
  }

  lemma AllocatesNext(v6: V6Reader, c: ConfigData, extra: seq<string>, a: nat)
    ensures DueAddress(v6, c, extra, a) <==> Allocate(v6, c, extra) == Ok(a)
  {
    SubnetValid(v6, c);
    NoSubnet(v6, c, extra);
    hide Allocate, Usable, Used, Network, Subnet;
    if Subnet(v6, c).Some? {
      if Subnet(v6, c).value.bits <= 30 { AllocateFirstFit(v6, c, extra); } else { AllocateTiny(v6, c, extra); }
    }
  }

  lemma NoSubnet(v6: V6Reader, c: ConfigData, extra: seq<string>)
    ensures Subnet(v6, c).None? ==> Allocate(v6, c, extra).Err?
  {
    hide ParsePrefix, Pick, Used;
  }

  /** A new client can be added at the address it is due exactly if there is such
      an address, the key is new, and no prefix of another peer covers it. */
  lemma NewClientFits(v6: V6Reader, c: ConfigData, extra: seq<string>, key: string, psk: string)
    requires ValidConfig(v6, c)
    ensures (var r := Allocate(v6, c, extra);
             r.Ok? && r.value < 4294967296 && ValidConfig(v6, c.(peers := c.peers + [HostPeer(key, psk, r.value)])))
            <==> (&& key != "" && !HasKey(c.peers, key)
                  && exists a: nat :: DueAddress(v6, c, extra, a)
                       && forall i, k :: 0 <= i < |c.peers| && 0 <= k < |c.peers[i].allowedIPs| ==>
                            !RouteCovers(v6, c.peers[i].allowedIPs[k], Addr(V4, a)))
  {
    forall a: nat { AllocatesNext(v6, c, extra, a); }
    hide Allocate, HostPeer, ValidConfig, RouteCovers, HasKey, DueAddress;
    if Allocate(v6, c, extra).Ok? {
      AllocatedIsAccepted(v6, c, extra, key, psk);
      assert DueAddress(v6, c, extra, Allocate(v6, c, extra).value);
    }
  }

  /** A server whose only peer holds one prefix. */
  function OnePeer(server: string, held: string): ConfigData {
    var address := InterfaceLine("", "Address", server, false, true);
    var port := InterfaceLine("", "ListenPort", "51820", false, true);
    ConfigData([address, port], [Peer("k", "", [held], [])])
  }

  /** The texts name 10.8.0.1/24 and 10.8.0.2/31. */
  predicate WideTexts(v6: V6Reader, server: string, held: string) {
    && CleanItem(server) && ParsePrefix(v6, server) == Some(Prefix(Addr(V4, 168296449), 24))
    && CleanItem(held) && ParsePrefix(v6, held) == Some(Prefix(Addr(V4, 168296450), 31))
  }

  lemma OnePeerInterface(server: string, held: string)
    requires CleanItem(server)
    ensures var c := OnePeer(server, held); InterfaceAddress(c) == Some(server) && ListenPort(c) != ""
  {
    hide TrimSpace, IndexOf;
    IndexOfAbsent(server, ',');
    TrimSpaceFacts(server);
    assert server[..|server|] == server;
    var ls := OnePeer(server, held).iface;
    assert ls[1..][0] == ls[1];
    assert Fold("Address") != Fold("ListenPort") by { assert |Fold("Address")| == 7 && |Fold("ListenPort")| == 10; }
    assert FirstValue(ls[1..], "ListenPort") == Some("51820");
  }

  lemma HeldPrefix(v6: V6Reader, server: string, held: string)
    requires WideTexts(v6, server, held)
    ensures AllowedIPv4(v6, held) == Some(168296450)
    ensures RouteCovers(v6, held, Addr(V4, 168296451)) && !RouteCovers(v6, held, Addr(V4, 168296452))
  {
    hide ParsePrefix, TrimSpace, ParseAddr;
    TrimSpaceFacts(held);
    Pow2Values();
    assert Pow2(0) == 1 && Pow2(1) == 2;
  }

  lemma WideAllocates(v6: V6Reader, server: string, held: string)
    requires WideTexts(v6, server, held)
    ensures Allocate(v6, OnePeer(server, held), []) == Ok(168296451)
  {
    var c := OnePeer(server, held);
    OnePeerInterface(server, held);
    HeldPrefix(v6, server, held);
    hide ParsePrefix, TrimSpace, Allocate, AllowedIPv4, InterfaceAddress, Usable;
    AllocateFirstFit(v6, c, []);
    var p := Prefix(Addr(V4, 168296449), 24);
    assert Subnet(v6, c) == Some(p);
    hide Subnet;
    WideUsable(v6, c.peers, p);
  }

  lemma WideUsable(v6: V6Reader, ps: seq<Peer>, p: Prefix)
    requires p == Prefix(Addr(V4, 168296449), 24)
    requires |ps| == 1 && |ps[0].allowedIPs| == 1 && AllowedIPv4(v6, ps[0].allowedIPs[0]) == Some(168296450)
    ensures ValidPrefix(p) && Usable(v6, p, ps, [], 168296451)
    ensures forall a: nat :: a < 168296451 ==> !Usable(v6, p, ps, [], a)
  {
    hide AllowedIPv4;
    Pow2Values();
    assert Network(p) == 168296448 && Size(p) == 256;
  }

  /** The server is at 10.8.0.1/24 and its only peer holds 10.8.0.2/31. The
      allocator picks 10.8.0.3, which the peer covers, so no peer can be added,
      although 10.8.0.4 is free: the first fit is not always a fit. */
  lemma WidePrefixBlocks(v6: V6Reader, key: string, psk: string)
    ensures var c := OnePeer(FormatIPv4(168296449) + "/" + Dec(24), FormatIPv4(168296450) + "/" + Dec(31));
            && ValidConfig(v6, c) && Allocate(v6, c, []) == Ok(168296451)
            && !ValidConfig(v6, c.(peers := c.peers + [HostPeer(key, psk, 168296451)]))
            && (key != "" && key != "k" ==> ValidConfig(v6, c.(peers := c.peers + [HostPeer(key, psk, 168296452)])))
  {
    PrefixReadsBack(v6, 168296449, 24);
    PrefixReadsBack(v6, 168296450, 31);
    hide FormatIPv4, Dec, ParsePrefix, Allocate, CleanItem, ValidConfig, HostPeer, OnePeer;
    WideTextsBlock(v6, FormatIPv4(168296449) + "/" + Dec(24), FormatIPv4(168296450) + "/" + Dec(31), key, psk);
  }

  lemma SinglePeer(v6: V6Reader, p: Peer, held: string)
    requires p.publicKey != "" && p.allowedIPs == [held] && ParsePrefix(v6, held).Some?
    ensures PeersOk(v6, [p])
    ensures forall a :: PeerCovers(v6, p, a) <==> RouteCovers(v6, held, a)
  {
    hide ParsePrefix, RouteCovers, Apart;
    assert p.allowedIPs[0] == held;
    assert WellFormedPeer(v6, p);
  }

  lemma OnePeerValid(v6: V6Reader, server: string, held: string)
    requires WideTexts(v6, server, held)
    ensures var c := OnePeer(server, held);
            && ValidConfig(v6, c) && |c.peers| == 1 && c.peers[0].publicKey == "k"
            && forall a :: PeerCovers(v6, c.peers[0], a) <==> RouteCovers(v6, held, a)
  {
    hide InterfaceAddress, ListenPort, ParsePrefix, RouteCovers, PeersOk, PeerCovers, CleanItem;
    OnePeerInterface(server, held);
    SinglePeer(v6, Peer("k", "", [held], []), held);
  }

  lemma WideTextsBlock(v6: V6Reader, server: string, held: string, key: string, psk: string)
    requires WideTexts(v6, server, held)
    ensures var c := OnePeer(server, held);
            && ValidConfig(v6, c) && Allocate(v6, c, []) == Ok(168296451)
            && !ValidConfig(v6, c.(peers := c.peers + [HostPeer(key, psk, 168296451)]))
            && (key != "" && key != "k" ==> ValidConfig(v6, c.(peers := c.peers + [HostPeer(key, psk, 168296452)])))
  {
    hide OnePeer, ParsePrefix, AllowedIPv4, Allocate, HostPeer, RouteCovers, PeerCovers, ValidConfig, CleanItem;
    var c := OnePeer(server, held);
    OnePeerValid(v6, server, held);
    HeldPrefix(v6, server, held);
    WideAllocates(v6, server, held);
    HostPeerValid(v6, c, key, psk, 168296451);
    HostPeerValid(v6, c, key, psk, 168296452);
  }
}
