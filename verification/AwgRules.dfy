/**
 When a configuration is valid: what the validator accepts, in terms of the
 addresses each peer may use, and how adding or removing a peer affects it.
 */
module AwgRules {
  import opened Wrappers
  import opened Text
  import opened Netip
  import opened AwgConfig

  // ----- Interface settings -----

  function InterfaceAddress(c: ConfigData): Option<string> {
    match FirstValue(c.iface, "Address")
    case None => None
    case Some(v) =>
      var t := TrimSpace(v[..IndexOf(v, ',')]);
      if t == "" then None else Some(t)
  }

  function ListenPort(c: ConfigData): string {
    match FirstValue(c.iface, "ListenPort")
    case None => ""
    case Some(v) => v
  }

  // ----- Validity -----

  /** The text is a prefix that contains the address. */
  predicate RouteCovers(v6: V6Reader, text: string, a: Addr) {
    var r := ParsePrefix(v6, text);
    r.Some? && ValidPrefix(r.value) && Covers(r.value, a)
  }

  ghost predicate PeerCovers(v6: V6Reader, p: Peer, a: Addr) {
    exists k :: 0 <= k < |p.allowedIPs| && RouteCovers(v6, p.allowedIPs[k], a)
  }

  ghost predicate SharedAddress(v6: V6Reader, p: Peer, q: Peer, a: Addr) {
    ValidAddr(a) && PeerCovers(v6, p, a) && PeerCovers(v6, q, a)
  }

  predicate WellFormedPeer(v6: V6Reader, p: Peer) {
    && p.publicKey != "" && p.allowedIPs != []
    && forall k :: 0 <= k < |p.allowedIPs| ==> ParsePrefix(v6, p.allowedIPs[k]).Some?
  }

  /** Different keys, and no address that both peers cover. */
  ghost predicate Apart(v6: V6Reader, p: Peer, q: Peer) {
    p.publicKey != q.publicKey && forall a :: !SharedAddress(v6, p, q, a)
  }

  ghost predicate PeersOk(v6: V6Reader, ps: seq<Peer>) {
    && (forall i :: 0 <= i < |ps| ==> WellFormedPeer(v6, ps[i]))
    && (forall i, j :: 0 <= i < j < |ps| ==> Apart(v6, ps[i], ps[j]))
  }

  ghost predicate ValidConfig(v6: V6Reader, c: ConfigData) {
    InterfaceAddress(c).Some? && ListenPort(c) != "" && PeersOk(v6, c.peers)
  }

  predicate HasKey(ps: seq<Peer>, key: string) {
    exists i :: 0 <= i < |ps| && ps[i].publicKey == key
  }

  /** The peers without those of one key, in order. */
  function Without(ps: seq<Peer>, key: string): seq<Peer> {
    if ps == [] then []
    else (if ps[0].publicKey == key then [] else [ps[0]]) + Without(ps[1..], key)
  }

  lemma PeersOkAppend(v6: V6Reader, ps: seq<Peer>, p: Peer)
    ensures PeersOk(v6, ps + [p]) <==>
            PeersOk(v6, ps) && WellFormedPeer(v6, p) && forall i :: 0 <= i < |ps| ==> Apart(v6, ps[i], p)
  {
    hide Apart, WellFormedPeer;
    var all := ps + [p];
    assert all[|ps|] == p && forall i :: 0 <= i < |ps| ==> all[i] == ps[i];
  }

  /** The positions of the peers that survive, counted from n. */
  function KeptAt(ps: seq<Peer>, key: string, n: nat): seq<nat> {
    if ps == [] then []
    else (if ps[0].publicKey == key then [] else [n]) + KeptAt(ps[1..], key, n + 1)
  }

  lemma {:induction false} KeptAtRange(ps: seq<Peer>, key: string, n: nat)
    ensures |KeptAt(ps, key, n)| == |Without(ps, key)|
    ensures forall i :: 0 <= i < |KeptAt(ps, key, n)| ==> n <= KeptAt(ps, key, n)[i] < n + |ps|
    ensures forall i, j :: 0 <= i < j < |KeptAt(ps, key, n)| ==> KeptAt(ps, key, n)[i] < KeptAt(ps, key, n)[j]
  {
    if ps != [] { KeptAtRange(ps[1..], key, n + 1); }
  }

  lemma {:induction false} KeptAtPeers(ps: seq<Peer>, key: string, n: nat, all: seq<Peer>)
    requires n + |ps| == |all| && all[n..] == ps
    ensures |KeptAt(ps, key, n)| == |Without(ps, key)|
    ensures forall i :: 0 <= i < |KeptAt(ps, key, n)| ==>
      var k := KeptAt(ps, key, n)[i]; n <= k < |all| && Without(ps, key)[i] == all[k] && all[k].publicKey != key
    ensures forall m :: n <= m < |all| && all[m].publicKey != key ==> m in KeptAt(ps, key, n)
  {
    if ps != [] {
      assert all[n + 1..] == ps[1..] && all[n] == ps[0];
      KeptAtPeers(ps[1..], key, n + 1, all);
    }
  }

  /** Removing keeps exactly the other peers, each once and in their order. */
  lemma WithoutOrder(ps: seq<Peer>, key: string) returns (at: seq<nat>)
    ensures |at| == |Without(ps, key)|
    ensures forall i :: 0 <= i < |at| ==> at[i] < |ps| && Without(ps, key)[i] == ps[at[i]] && ps[at[i]].publicKey != key
    ensures forall i, j :: 0 <= i < j < |at| ==> at[i] < at[j]
    ensures forall m :: 0 <= m < |ps| && ps[m].publicKey != key ==> m in at
  {
    at := KeptAt(ps, key, 0);
    assert ps[0..] == ps;
    KeptAtRange(ps, key, 0);
    KeptAtPeers(ps, key, 0, ps);
  }

  /** Removing a peer keeps the rest valid. */
  lemma WithoutKeepsOk(v6: V6Reader, ps: seq<Peer>, key: string)
    requires PeersOk(v6, ps)
    ensures PeersOk(v6, Without(ps, key)) && !HasKey(Without(ps, key), key)
  {
    hide Apart, WellFormedPeer;
    var at := WithoutOrder(ps, key);
    assert forall i, j :: 0 <= i < j < |at| ==> Apart(v6, ps[at[i]], ps[at[j]]);
  }

  lemma {:induction false} WithoutAbsent(ps: seq<Peer>, key: string)
    requires !HasKey(ps, key)
    ensures Without(ps, key) == ps
  {
    if ps != [] {
      assert forall i :: 0 <= i < |ps[1..]| ==> ps[1..][i] == ps[i + 1];
      WithoutAbsent(ps[1..], key);
    }
  }

  lemma {:induction false} WithoutAppend(ps: seq<Peer>, qs: seq<Peer>, key: string)
    ensures Without(ps + qs, key) == Without(ps, key) + Without(qs, key)
  {
    if ps == [] {
      assert ps + qs == qs;
    } else {
      assert (ps + qs)[1..] == ps[1..] + qs;
      WithoutAppend(ps[1..], qs, key);
    }
  }

  /** Removing the key that was just added gives the peers back. */
  lemma WithoutAdded(ps: seq<Peer>, p: Peer)
    requires !HasKey(ps, p.publicKey)
    ensures Without(ps + [p], p.publicKey) == ps
  {
    WithoutAppend(ps, [p], p.publicKey);
    WithoutAbsent(ps, p.publicKey);
  }

  lemma {:induction false} WithoutPrintable(ps: seq<Peer>, key: string)
    requires PrintablePeers(ps)
    ensures PrintablePeers(Without(ps, key))
  {
    if ps != [] { WithoutPrintable(ps[1..], key); }
  }

  // ----- Adding the peer of one host -----

  /** The peer that issuing adds for one IPv4 address. */
  function HostPeer(key: string, psk: string, ip: nat): Peer
    requires ip < 4294967296
  {
    Peer(key, psk, [FormatIPv4(ip) + "/32"], [])
  }

  lemma HostPeerCovers(v6: V6Reader, key: string, psk: string, ip: nat, a: Addr)
    requires ip < 4294967296
    ensures WellFormedPeer(v6, HostPeer(key, psk, ip)) <==> key != ""
    ensures PeerCovers(v6, HostPeer(key, psk, ip), a) <==> a == Addr(V4, ip)
    ensures ValidAddr(Addr(V4, ip))
  {
    HostRouteReadsBack(v6, ip);
    HostRouteCovers(ip, a);
    var p := HostPeer(key, psk, ip);
    hide FormatIPv4, ParsePrefix, Covers;
    assert p.allowedIPs[0] == FormatIPv4(ip) + "/32";
    assert RouteCovers(v6, p.allowedIPs[0], a) <==> a == Addr(V4, ip);
  }

  lemma HostRouteCovers(ip: nat, a: Addr)
    requires ip < 4294967296
    ensures ValidPrefix(Prefix(Addr(V4, ip), 32)) && ValidAddr(Addr(V4, ip))
    ensures Covers(Prefix(Addr(V4, ip), 32), a) <==> a == Addr(V4, ip)
  {
    Pow2Values();
    assert Pow2(0) == 1;
  }

  /** A valid config stays valid with a new host peer exactly when the key is
      new and non-empty and no present peer covers the address. */
  lemma HostPeerValid(v6: V6Reader, c: ConfigData, key: string, psk: string, ip: nat)
    requires ValidConfig(v6, c) && ip < 4294967296
    ensures ValidConfig(v6, c.(peers := c.peers + [HostPeer(key, psk, ip)])) <==>
            && key != "" && !HasKey(c.peers, key)
            && forall i :: 0 <= i < |c.peers| ==> !PeerCovers(v6, c.peers[i], Addr(V4, ip))
  {
    var p := HostPeer(key, psk, ip);
    PeersOkAppend(v6, c.peers, p);
    HostPeerCovers(v6, key, psk, ip, Addr(V4, ip));
    HostPeerKey(key, psk, ip);
    hide HostPeer, PeerCovers, WellFormedPeer;
    forall a ensures PeerCovers(v6, p, a) <==> a == Addr(V4, ip) {
      HostPeerCovers(v6, key, psk, ip, a);
    }
    forall i | 0 <= i < |c.peers|
      ensures Apart(v6, c.peers[i], p) <==> c.peers[i].publicKey != key && !PeerCovers(v6, c.peers[i], Addr(V4, ip))
    {
      assert SharedAddress(v6, c.peers[i], p, Addr(V4, ip)) <==> PeerCovers(v6, c.peers[i], Addr(V4, ip));
    }
    assert InterfaceAddress(c.(peers := c.peers + [p])) == InterfaceAddress(c);
    assert ListenPort(c.(peers := c.peers + [p])) == ListenPort(c);
  }

  lemma HostPeerKey(key: string, psk: string, ip: nat)
    requires ip < 4294967296
    ensures HostPeer(key, psk, ip).publicKey == key
  {}

  lemma HostPeerPrintable(key: string, psk: string, ip: nat)
    requires ip < 4294967296
    ensures PrintablePeer(HostPeer(key, psk, ip)) <==> Token(key) && Token(psk)
  {
    HostRouteReadsBack((s: string) => None, ip);
    hide FormatIPv4;
  }

  /** Keys are trimmed when they are read. The file then gives the new peer back
      exactly when both keys are single lines; a key file of several lines is
      written out as several lines and read as something else. */
  lemma HostPeerFaithful(c: ConfigData, key: string, psk: string, ip: nat)
    requires Printable(c) && ip < 4294967296 && Trimmed(key) && Trimmed(psk)
    ensures var next := c.(peers := c.peers + [HostPeer(key, psk, ip)]);
            var r := Parse(Render(next));
            ('\n' !in key && '\n' !in psk) <==>
            (r.Ok? && r.value.peers == next.peers && TrimTrailing(r.value.iface) == TrimTrailing(next.iface))
  {
    var next := c.(peers := c.peers + [HostPeer(key, psk, ip)]);
    FaithfulIffPrintable(next);
    HostPeerPrintable(key, psk, ip);
    hide Render, Parse, HostPeer, PrintablePeer, PrintableLine;
    assert next.peers[|c.peers|] == HostPeer(key, psk, ip);
    assert forall i :: 0 <= i < |c.peers| ==> next.peers[i] == c.peers[i];
  }

  /** The failing side at an input: a key file whose two lines were trimmed but
      not told apart is not read back. */
  lemma TwoLineKeyLost(c: ConfigData, ip: nat)
    requires Printable(c) && ip < 4294967296
    ensures var next := c.(peers := c.peers + [HostPeer("k", "a\nb", ip)]);
            var r := Parse(Render(next));
            !(r.Ok? && r.value.peers == next.peers && TrimTrailing(r.value.iface) == TrimTrailing(next.iface))
  {
    var psk := "a\nb";
    assert psk[1] == '\n' && '\n' !in "k";
    EndsAreTrimmed("k");
    EndsAreTrimmed(psk);
    hide Parse, Render, HostPeer, Printable, TrimTrailing;
    HostPeerFaithful(c, "k", psk, ip);
  }

  lemma EndsAreTrimmed(s: string)
    requires s != "" && !IsSpace(s[0]) && !IsSpace(s[|s| - 1])
    ensures Trimmed(s)
  {}

  // ----- Normal forms -----

  /** A round trip through the file keeps validity. */
  lemma NormalValid(v6: V6Reader, c: ConfigData)
    requires PrintableLines(c.iface)
    ensures ValidConfig(v6, Normal(c)) <==> ValidConfig(v6, c)
  {
    NormalKeepsValues(c, "Address");
    NormalKeepsValues(c, "ListenPort");
    hide PeersOk, FirstValue, Normal;
    assert Normal(c).peers == c.peers by { NormalPeers(c); }
  }

  lemma NormalPeers(c: ConfigData)
    ensures Normal(c).peers == c.peers
  {}
}
