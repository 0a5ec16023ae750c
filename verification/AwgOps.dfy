/**
 The configuration object and its operations, written as the agent performs
 them: scanning loops, a string builder, nested checks, and a peer slice that
 is appended to and compacted in place.
 */
module AwgOps {
  import opened Wrappers
  import opened Text
  import opened Netip
  import opened AwgConfig
  import opened AwgRules
  import opened AwgAllocation

  // ----- Parsing -----

  /** Reads a configuration text line by line. */
  method ParseConfig(input: string) returns (r: Result<ConfigData, ParseError>)
    ensures r == Parse(input)
  {
    var lines := Lines(input);
    var section := NoSection;
    var iface: seq<InterfaceLine>, peers: seq<Peer>, current: Option<Peer> := [], [], None;
    var i := 0;
    assert lines[0..] == lines;
    while i < |lines|
      invariant i <= |lines|
      invariant Parse(input) == FinishScan(FeedLines(lines[i..], Scan(section, iface, peers, current), i))
    {
      hide Lines, Header, ParseAssignment, TrimSpace, SplitCSV, Lower;
      var line := lines[i];
      i := i + 1;
      assert lines[i - 1..][1..] == lines[i..];
      var trimmed := TrimSpace(line);
      var header := Header(trimmed);
      if header.Some? {
        var name := header.value;
        if Lower(name) == "interface" {
          if current.Some? { peers := peers + [current.value]; } else { assert peers + [] == peers; }
          current := None;
          section := InterfaceSection;
        } else if Lower(name) == "peer" {
          if current.Some? { peers := peers + [current.value]; } else { assert peers + [] == peers; }
          section := PeerSection;
          current := Some(Peer("", "", [], []));
        } else {
          return Err(UnsupportedSection(name, i));
        }
        continue;
      }
      match section {
        case InterfaceSection =>
          var a := ParseAssignment(line);
          iface := iface + [InterfaceLine(line, a.key, a.value, a.commented, a.ok)];
        case PeerSection =>
          if current.None? || trimmed == "" { continue; }
          var p := current.value;
          if trimmed[0] == '#' {
            current := Some(p.(extra := p.extra + [trimmed]));
            continue;
          }
          var a := ParseAssignment(line);
          if !a.ok {
            current := Some(p.(extra := p.extra + [trimmed]));
            continue;
          }
          if a.key == "PublicKey" {
            current := Some(p.(publicKey := a.value));
          } else if a.key == "PresharedKey" || a.key == "PreSharedKey" {
            current := Some(p.(presharedKey := a.value));
          } else if a.key == "AllowedIPs" {
            current := Some(p.(allowedIPs := SplitCSV(a.value)));
          } else {
            current := Some(p.(extra := p.extra + [trimmed]));
          }
        case NoSection =>
          if trimmed != "" { return Err(BeforeSection(i)); }
      }
    }
    assert lines[i..] == [];
    if current.Some? { peers := peers + [current.value]; } else { assert peers + [] == peers; }
    if |iface| == 0 { return Err(MissingInterface); }
    return Ok(ConfigData(iface, peers));
  }

  lemma SplitUnfold(rest: string)
    ensures var i := IndexOf(rest, ',');
            var part := TrimSpace(rest[..i]);
            var tail := if i < |rest| then SplitCSV(rest[i + 1..]) else [];
            SplitCSV(rest) == if part != "" then [part] + tail else tail
  {
    hide TrimSpace, IndexOf;
  }

  lemma SplitAdvance(out: seq<string>, rest: string)
    ensures var i := IndexOf(rest, ',');
            var part := TrimSpace(rest[..i]);
            out + SplitCSV(rest) == (if part != "" then out + [part] else out)
                                    + if i < |rest| then SplitCSV(rest[i + 1..]) else []
  {
    hide TrimSpace, IndexOf, SplitCSV;
    SplitUnfold(rest);
    var i := IndexOf(rest, ',');
    ConcatAssoc(out, [TrimSpace(rest[..i])], if i < |rest| then SplitCSV(rest[i + 1..]) else []);
  }

  /** The comma-separated list, field by field. */
  method SplitList(value: string) returns (out: seq<string>)
    ensures out == SplitCSV(value)
  {
    hide TrimSpace, IndexOf, SplitCSV;
    out := [];
    var rest, more := value, true;
    assert [] + SplitCSV(value) == SplitCSV(value);
    while more
      invariant SplitCSV(value) == out + (if more then SplitCSV(rest) else [])
      decreases more, |rest|
    {
      SplitAdvance(out, rest);
      var i := IndexOf(rest, ',');
      var part := TrimSpace(rest[..i]);
      if part != "" { out := out + [part]; }
      if i < |rest| { rest := rest[i + 1..]; } else { more := false; }
    }
    assert out + [] == out;
  }

  // ----- Printing -----

  method TrimTrailingLines(lines: seq<InterfaceLine>) returns (r: seq<InterfaceLine>)
    ensures r == TrimTrailing(lines)
  {
    var end := |lines|;
    assert lines[..end] == lines;
    hide TrimSpace;
    while end > 0 && TrimSpace(lines[end - 1].raw) == ""
      invariant end <= |lines| && TrimTrailing(lines) == TrimTrailing(lines[..end])
    {
      assert lines[..end][..end - 1] == lines[..end - 1];
      end := end - 1;
    }
    r := lines[..end];
  }

  lemma UnlinesSnoc(ls: seq<string>, l: string)
    ensures Unlines(ls + [l]) == Unlines(ls) + l + "\n"
  {
    UnlinesAppend(ls, [l]);
    assert Unlines([l]) == l + "\n" + "" by { assert [l][1..] == []; }
    assert l + "\n" + "" == l + "\n";
  }

  lemma {:induction false} RawsSnoc(ls: seq<InterfaceLine>, l: InterfaceLine)
    ensures Raws(ls + [l]) == Raws(ls) + [l.raw]
  {
    if ls != [] {
      assert (ls + [l])[1..] == ls[1..] + [l];
      RawsSnoc(ls[1..], l);
    }
  }

  lemma {:induction false} PeersTextSnoc(ps: seq<Peer>, p: Peer)
    ensures PeersText(ps + [p]) == PeersText(ps) + PeerText(p)
  {
    if ps == [] {
      assert [p][1..] == [] && PeerText(p) + [] == PeerText(p);
    } else {
      hide PeerText;
      assert (ps + [p])[1..] == ps[1..] + [p];
      PeersTextSnoc(ps[1..], p);
      assert PeerText(ps[0]) + (PeersText(ps[1..]) + PeerText(p)) == PeerText(ps[0]) + PeersText(ps[1..]) + PeerText(p);
    }
  }

  /** Appends one line to the builder. */
  method WriteLine(b: string, line: string, ghost written: seq<string>) returns (r: string)
    requires b == Unlines(written)
    ensures r == Unlines(written + [line])
  {
    UnlinesSnoc(written, line);
    r := b + line + "\n";
  }

  method RenderConfig(cfg: ConfigData) returns (b: string)
    ensures b == Render(cfg)
  {
    hide Unlines, Raws, PeersText, PeerText, TrimTrailing;
    b := "[Interface]\n";
    assert b == Unlines(["[Interface]"]) by { UnlinesHeader(); }
    var lines := TrimTrailingLines(cfg.iface);
    RawsNone();
    ghost var done := ["[Interface]"];
    for i := 0 to |lines|
      invariant done == ["[Interface]"] + Raws(lines[..i]) && b == Unlines(done)
    {
      b := WriteLine(b, lines[i].raw, done);
      RawsSnoc(lines[..i], lines[i]);
      assert lines[..i + 1] == lines[..i] + [lines[i]];
      done := done + [lines[i].raw];
    }
    assert lines[..|lines|] == lines;
    b := WriteLine(b, "", done);
    done := done + [""];
    ghost var head := done;
    for i := 0 to |cfg.peers|
      invariant done == head + PeersText(cfg.peers[..i]) && b == Unlines(done)
    {
      b := RenderPeer(b, cfg.peers[i], done);
      PeersTextSnoc(cfg.peers[..i], cfg.peers[i]);
      assert cfg.peers[..i + 1] == cfg.peers[..i] + [cfg.peers[i]];
      done := done + PeerText(cfg.peers[i]);
    }
    assert cfg.peers[..|cfg.peers|] == cfg.peers;
  }

  lemma RawsNone()
    ensures Raws([]) == [] && PeersText([]) == []
  {}

  lemma UnlinesHeader()
    ensures Unlines(["[Interface]"]) == "[Interface]\n"
  {
    UnlinesSnoc([], "[Interface]");
    assert [] + ["[Interface]"] == ["[Interface]"];
  }

  method RenderPeer(b0: string, p: Peer, ghost before: seq<string>) returns (b: string)
    requires b0 == Unlines(before)
    ensures b == Unlines(before + PeerText(p))
  {
    hide Unlines, Join;
    b := WriteLine(b0, "[Peer]", before);
    ghost var done := before + ["[Peer]"];
    b := WriteLine(b, "PublicKey = " + p.publicKey, done);
    done := done + ["PublicKey = " + p.publicKey];
    if p.presharedKey != "" {
      b := WriteLine(b, "PresharedKey = " + p.presharedKey, done);
      done := done + ["PresharedKey = " + p.presharedKey];
    }
    b := WriteLine(b, "AllowedIPs = " + Join(p.allowedIPs), done);
    done := done + ["AllowedIPs = " + Join(p.allowedIPs)];
    ghost var head := done;
    assert head == before + ["[Peer]", "PublicKey = " + p.publicKey] + PskText(p.presharedKey)
                   + ["AllowedIPs = " + Join(p.allowedIPs)];
    for i := 0 to |p.extra|
      invariant done == head + p.extra[..i] && b == Unlines(done)
    {
      b := WriteLine(b, p.extra[i], done);
      done := done + [p.extra[i]];
    }
    b := WriteLine(b, "", done);
    assert p.extra[..|p.extra|] == p.extra;
    assert done + [""] == before + PeerText(p);
  }

  // ----- Validation -----

  datatype ValidateError =
    | AddressRequired
    | ListenPortRequired
    | EmptyKey(index: nat)
    | DuplicateKey(key: string)
    | NoAllowedIPs(key: string)
    | InvalidAllowedIPs(key: string, text: string)
    | OverlappingAllowedIPs(key: string, text: string, other: string)

  /** What each validation error says about the configuration. */
  ghost predicate Explains(v6: V6Reader, c: ConfigData, e: ValidateError) {
    match e
    case AddressRequired => InterfaceAddress(c).None?
    case ListenPortRequired => ListenPort(c) == ""
    case EmptyKey(n) => 0 < n <= |c.peers| && c.peers[n - 1].publicKey == ""
    case DuplicateKey(key) => exists i, j :: 0 <= i < j < |c.peers| && c.peers[i].publicKey == c.peers[j].publicKey == key
    case NoAllowedIPs(key) => exists i :: 0 <= i < |c.peers| && c.peers[i].publicKey == key && c.peers[i].allowedIPs == []
    case InvalidAllowedIPs(key, text) =>
      exists i :: 0 <= i < |c.peers| && c.peers[i].publicKey == key && text in c.peers[i].allowedIPs && ParsePrefix(v6, text).None?
    case OverlappingAllowedIPs(key, text, other) =>
      key != other &&
      exists i, j, a :: 0 <= i < |c.peers| && 0 <= j < |c.peers| && c.peers[i].publicKey == key && c.peers[j].publicKey == other
                        && text in c.peers[i].allowedIPs && RouteCovers(v6, text, a) && SharedAddress(v6, c.peers[i], c.peers[j], a)
  }

  lemma ExplainsInvalid(v6: V6Reader, c: ConfigData, e: ValidateError)
    requires Explains(v6, c, e)
    ensures !ValidConfig(v6, c)
  {
    hide InterfaceAddress, ListenPort, ParsePrefix;
    match e {
      case EmptyKey(n) => assert !WellFormedPeer(v6, c.peers[n - 1]);
      case DuplicateKey(key) =>
        var i, j :| 0 <= i < j < |c.peers| && c.peers[i].publicKey == c.peers[j].publicKey == key;
        assert !Apart(v6, c.peers[i], c.peers[j]);
      case NoAllowedIPs(key) =>
        var i :| 0 <= i < |c.peers| && c.peers[i].publicKey == key && c.peers[i].allowedIPs == [];
        assert !WellFormedPeer(v6, c.peers[i]);
      case InvalidAllowedIPs(key, text) =>
        var i :| 0 <= i < |c.peers| && c.peers[i].publicKey == key && text in c.peers[i].allowedIPs && ParsePrefix(v6, text).None?;
        assert !WellFormedPeer(v6, c.peers[i]);
      case OverlappingAllowedIPs(key, text, other) =>
        hide PeerCovers, RouteCovers;
        var i, j, a :| 0 <= i < |c.peers| && 0 <= j < |c.peers| && c.peers[i].publicKey == key && c.peers[j].publicKey == other
                        && text in c.peers[i].allowedIPs && RouteCovers(v6, text, a) && SharedAddress(v6, c.peers[i], c.peers[j], a);
        SharedInvalid(v6, c.peers, i, j, a);
      case _ =>
    }
  }

  lemma SharedInvalid(v6: V6Reader, ps: seq<Peer>, i: nat, j: nat, a: Addr)
    requires i < |ps| && j < |ps| && i != j && SharedAddress(v6, ps[i], ps[j], a)
    ensures !PeersOk(v6, ps)
  {
    hide PeerCovers, WellFormedPeer;
    assert SharedAddress(v6, ps[j], ps[i], a);
    assert !Apart(v6, ps[i], ps[j]) && !Apart(v6, ps[j], ps[i]);
  }

  datatype SeenPrefix = SeenPrefix(prefix: Prefix, owner: string)

  /** Entry k of peer i, read as a prefix. */
  predicate Entry(v6: V6Reader, ps: seq<Peer>, i: nat, k: nat, p: Prefix) {
    i < |ps| && k < |ps[i].allowedIPs| && ParsePrefix(v6, ps[i].allowedIPs[k]) == Some(p)
  }

  /** Entry (i, k) comes before entry (n, m). */
  predicate Before(i: nat, k: nat, n: nat, m: nat) {
    i < n || (i == n && k < m)
  }

  /** The list holds the prefixes of all entries before (n, m), and only those. */
  ghost predicate SeenBefore(v6: V6Reader, ps: seq<Peer>, n: nat, m: nat, seen: seq<SeenPrefix>) {
    && (forall s :: s in seen ==>
          (exists i: nat, k: nat :: Before(i, k, n, m) && Entry(v6, ps, i, k, s.prefix) && ps[i].publicKey == s.owner))
    && (forall i: nat, k: nat, p :: Before(i, k, n, m) && Entry(v6, ps, i, k, p) ==> SeenPrefix(p, ps[i].publicKey) in seen)
  }

  lemma EntryValid(v6: V6Reader, ps: seq<Peer>, i: nat, k: nat, p: Prefix)
    requires Entry(v6, ps, i, k, p)
    ensures ValidPrefix(p)
    ensures forall a :: RouteCovers(v6, ps[i].allowedIPs[k], a) <==> Covers(p, a)
  {
    ParsePrefixValid(v6, ps[i].allowedIPs[k]);
  }

  /** The first m entries of peer n are prefixes and share no address with an
      earlier peer. */
  ghost predicate ClearUpTo(v6: V6Reader, ps: seq<Peer>, n: nat, m: nat)
    requires n < |ps| && m <= |ps[n].allowedIPs|
  {
    && (forall k :: 0 <= k < m ==> ParsePrefix(v6, ps[n].allowedIPs[k]).Some?)
    && (forall i, k, a :: 0 <= i < n && 0 <= k < m && ValidAddr(a) && RouteCovers(v6, ps[n].allowedIPs[k], a)
          ==> !PeerCovers(v6, ps[i], a))
  }

  /** Entry m of peer n shares an address with an earlier peer of that key. */
  ghost predicate Clashes(v6: V6Reader, ps: seq<Peer>, n: nat, m: nat, owner: string)
    requires n < |ps| && m < |ps[n].allowedIPs|
  {
    owner != ps[n].publicKey &&
    exists i, a :: 0 <= i < n && ps[i].publicKey == owner
      && RouteCovers(v6, ps[n].allowedIPs[m], a) && SharedAddress(v6, ps[n], ps[i], a)
  }

  /** Compares one new entry with every prefix seen for other peers. */
  method CheckEntry(v6: V6Reader, ps: seq<Peer>, n: nat, m: nat, prefix: Prefix, seen: seq<SeenPrefix>)
    returns (clash: Option<SeenPrefix>)
    requires Entry(v6, ps, n, m, prefix) && SeenBefore(v6, ps, n, m, seen)
    requires forall i :: 0 <= i < n ==> ps[i].publicKey != ps[n].publicKey
    requires ClearUpTo(v6, ps, n, m)
    ensures clash.None? ==> ClearUpTo(v6, ps, n, m + 1)
    ensures clash.Some? ==> Clashes(v6, ps, n, m, clash.value.owner)
  {
    hide Covers, ParsePrefix, Overlaps, ValidPrefix;
    EntryValid(v6, ps, n, m, prefix);
    for j := 0 to |seen|
      invariant forall h :: 0 <= h < j && seen[h].owner != ps[n].publicKey ==>
                  ValidPrefix(seen[h].prefix) && !Overlaps(prefix, seen[h].prefix)
    {
      var other := seen[j];
      assert other in seen;
      ghost var i: nat, k: nat :| Before(i, k, n, m) && Entry(v6, ps, i, k, other.prefix) && ps[i].publicKey == other.owner;
      EntryValid(v6, ps, i, k, other.prefix);
      if other.owner == ps[n].publicKey { continue; }
      OverlapsIffShared(prefix, other.prefix);
      if Overlaps(prefix, other.prefix) {
        ghost var a :| ValidAddr(a) && Covers(prefix, a) && Covers(other.prefix, a);
        assert RouteCovers(v6, ps[n].allowedIPs[m], a) && RouteCovers(v6, ps[i].allowedIPs[k], a);
        assert SharedAddress(v6, ps[n], ps[i], a);
        return Some(other);
      }
    }
    forall i, a | 0 <= i < n && ValidAddr(a) && RouteCovers(v6, ps[n].allowedIPs[m], a)
      ensures !PeerCovers(v6, ps[i], a)
    {
      if PeerCovers(v6, ps[i], a) {
        NotSeenOverlap(v6, ps, n, m, prefix, seen, i, a);
      }
    }
    return None;
  }

  lemma NotSeenOverlap(v6: V6Reader, ps: seq<Peer>, n: nat, m: nat, prefix: Prefix, seen: seq<SeenPrefix>, i: nat, a: Addr)
    requires Entry(v6, ps, n, m, prefix) && SeenBefore(v6, ps, n, m, seen)
    requires i < n && ps[i].publicKey != ps[n].publicKey
    requires ValidAddr(a) && PeerCovers(v6, ps[i], a) && RouteCovers(v6, ps[n].allowedIPs[m], a)
    ensures exists h :: 0 <= h < |seen| && seen[h].owner != ps[n].publicKey
              && ValidPrefix(seen[h].prefix) && ValidPrefix(prefix) && Overlaps(prefix, seen[h].prefix)
  {
    hide Covers, Overlaps, ValidPrefix, ParsePrefix;
    var k :| 0 <= k < |ps[i].allowedIPs| && RouteCovers(v6, ps[i].allowedIPs[k], a);
    var q := ParsePrefix(v6, ps[i].allowedIPs[k]).value;
    assert Entry(v6, ps, i, k, q) && Before(i, k, n, m);
    EntryValid(v6, ps, i, k, q);
    EntryValid(v6, ps, n, m, prefix);
    OverlapsIffShared(prefix, q);
    assert SeenPrefix(q, ps[i].publicKey) in seen;
    var h :| 0 <= h < |seen| && seen[h] == SeenPrefix(q, ps[i].publicKey);
  }

  lemma ValidateStart(v6: V6Reader, ps: seq<Peer>)
    ensures SeenBefore(v6, ps, 0, 0, []) && PeersOk(v6, ps[..0])
  {
    assert forall i: nat, k: nat :: !Before(i, k, 0, 0);
  }

  lemma SeenNext(v6: V6Reader, ps: seq<Peer>, n: nat, m: nat, p: Prefix, seen: seq<SeenPrefix>)
    requires Entry(v6, ps, n, m, p) && SeenBefore(v6, ps, n, m, seen)
    ensures SeenBefore(v6, ps, n, m + 1, seen + [SeenPrefix(p, ps[n].publicKey)])
  {
    hide ParsePrefix;
    assert Before(n, m, n, m + 1);
    assert forall i: nat, k: nat :: Before(i, k, n, m) ==> Before(i, k, n, m + 1);
  }

  lemma SeenNextPeer(v6: V6Reader, ps: seq<Peer>, n: nat, seen: seq<SeenPrefix>)
    requires n < |ps| && SeenBefore(v6, ps, n, |ps[n].allowedIPs|, seen)
    ensures SeenBefore(v6, ps, n + 1, 0, seen)
  {
    hide ParsePrefix;
    forall s | s in seen ensures exists i: nat, k: nat ::
      Before(i, k, n + 1, 0) && Entry(v6, ps, i, k, s.prefix) && ps[i].publicKey == s.owner
    {
      var i: nat, k: nat :| Before(i, k, n, |ps[n].allowedIPs|) && Entry(v6, ps, i, k, s.prefix) && ps[i].publicKey == s.owner;
      assert Before(i, k, n + 1, 0);
    }
  }

  lemma PrefixOk(v6: V6Reader, ps: seq<Peer>, n: nat)
    requires n < |ps| && PeersOk(v6, ps[..n]) && ps[n].publicKey != "" && ps[n].allowedIPs != []
    requires forall i :: 0 <= i < n ==> ps[i].publicKey != ps[n].publicKey
    requires ClearUpTo(v6, ps, n, |ps[n].allowedIPs|)
    ensures PeersOk(v6, ps[..n + 1])
  {
    hide RouteCovers, ValidAddr, ParsePrefix;
    assert WellFormedPeer(v6, ps[n]);
    hide WellFormedPeer;
    forall i | 0 <= i < n ensures Apart(v6, ps[..n][i], ps[n]) {}
    PeersOkAppend(v6, ps[..n], ps[n]);
    assert ps[..n + 1] == ps[..n] + [ps[n]];
  }

  lemma RemoveStart(key: string)
    ensures Without([], key) == [] && !HasKey([], key)
  {}

  lemma RemoveStep(ps: seq<Peer>, p: Peer, key: string)
    ensures Without(ps + [p], key) == if p.publicKey == key then Without(ps, key) else Without(ps, key) + [p]
    ensures HasKey(ps + [p], key) <==> HasKey(ps, key) || p.publicKey == key
  {
    WithoutAppend(ps, [p], key);
    assert [p][1..] == [];
    var all := ps + [p];
    assert all[|ps|] == p && forall i :: 0 <= i < |ps| ==> all[i] == ps[i];
  }

  /** Checks the entries of one peer against each other peer's seen prefixes. */
  method ValidateEntries(v6: V6Reader, ghost c: ConfigData, ps: seq<Peer>, n: nat, before: seq<SeenPrefix>)
    returns (e: Option<ValidateError>, seen: seq<SeenPrefix>)
    requires ps == c.peers && n < |ps| && SeenBefore(v6, ps, n, 0, before)
    requires forall i :: 0 <= i < n ==> ps[i].publicKey != ps[n].publicKey
    ensures e.None? ==>
      SeenBefore(v6, ps, n, |ps[n].allowedIPs|, seen) && ClearUpTo(v6, ps, n, |ps[n].allowedIPs|)
    ensures e.Some? ==> Explains(v6, c, e.value)
  {
    seen := before;
    var peer := ps[n];
    ClearStart(v6, ps, n);
    hide ParsePrefix, SeenBefore, ClearUpTo, RouteCovers, SharedAddress, Explains, Clashes;
    for k := 0 to |peer.allowedIPs|
      invariant SeenBefore(v6, ps, n, k, seen) && ClearUpTo(v6, ps, n, k)
    {
      var r := ParsePrefix(v6, peer.allowedIPs[k]);
      if r.None? {
        ExplainsEntry(v6, c, n, k);
        return Some(InvalidAllowedIPs(peer.publicKey, peer.allowedIPs[k])), seen;
      }
      var clash := CheckEntry(v6, ps, n, k, r.value, seen);
      if clash.Some? {
        ExplainsClash(v6, c, n, k, clash.value.owner);
        return Some(OverlappingAllowedIPs(peer.publicKey, peer.allowedIPs[k], clash.value.owner)), seen;
      }
      SeenNext(v6, ps, n, k, r.value, seen);
      seen := seen + [SeenPrefix(r.value, peer.publicKey)];
    }
    return None, seen;
  }

  lemma ExplainsEntry(v6: V6Reader, c: ConfigData, n: nat, k: nat)
    requires n < |c.peers| && k < |c.peers[n].allowedIPs| && ParsePrefix(v6, c.peers[n].allowedIPs[k]).None?
    ensures Explains(v6, c, InvalidAllowedIPs(c.peers[n].publicKey, c.peers[n].allowedIPs[k]))
  {
    hide ParsePrefix;
  }

  lemma ExplainsClash(v6: V6Reader, c: ConfigData, n: nat, k: nat, other: string)
    requires n < |c.peers| && k < |c.peers[n].allowedIPs|
    requires Clashes(v6, c.peers, n, k, other)
    ensures Explains(v6, c, OverlappingAllowedIPs(c.peers[n].publicKey, c.peers[n].allowedIPs[k], other))
  {
    hide RouteCovers, SharedAddress;
    assert c.peers[n].allowedIPs[k] in c.peers[n].allowedIPs;
  }

  lemma ClearStart(v6: V6Reader, ps: seq<Peer>, n: nat)
    requires n < |ps|
    ensures ClearUpTo(v6, ps, n, 0)
  {}

  /** Accepts exactly the peer lists in which no address has two owners. */
  method ValidatePeers(v6: V6Reader, ghost c: ConfigData, ps: seq<Peer>) returns (e: Option<ValidateError>)
    requires ps == c.peers
    ensures e.None? ==> PeersOk(v6, ps)
    ensures e.Some? ==> Explains(v6, c, e.value)
  {
    var keys: set<string>, seen: seq<SeenPrefix> := {}, [];
    ValidateStart(v6, ps);
    hide ParsePrefix, SeenBefore, PeersOk, ClearUpTo, RouteCovers, SharedAddress;
    for i := 0 to |ps|
      invariant PeersOk(v6, ps[..i])
      invariant forall key :: key in keys <==> exists j :: 0 <= j < i && ps[j].publicKey == key
      invariant SeenBefore(v6, ps, i, 0, seen)
    {
      var peer := ps[i];
      if peer.publicKey == "" { return Some(EmptyKey(i + 1)); }
      if peer.publicKey in keys { return Some(DuplicateKey(peer.publicKey)); }
      keys := keys + {peer.publicKey};
      if |peer.allowedIPs| == 0 { return Some(NoAllowedIPs(peer.publicKey)); }
      e, seen := ValidateEntries(v6, c, ps, i, seen);
      if e.Some? { return; }
      PrefixOk(v6, ps, i);
      SeenNextPeer(v6, ps, i, seen);
    }
    assert ps[..|ps|] == ps;
    return None;
  }

  // ----- The configuration object -----

  /** A parsed configuration whose peer list is a slice over a backing array. */
  class Config {
    var iface: seq<InterfaceLine>
    var peers: array<Peer>
    var count: nat

    ghost predicate Valid()
      reads this
    {
      count <= peers.Length
    }

    ghost function Data(): ConfigData
      reads this, peers
      requires Valid()
    {
      ConfigData(iface, peers[..count])
    }

    constructor (data: ConfigData)
      ensures Valid() && fresh(peers) && Data() == data
    {
      iface := data.iface;
      count := |data.peers|;
      peers := new Peer[|data.peers|](i requires 0 <= i < |data.peers| => data.peers[i]);
    }

    /** The value of the first interface line with that key. */
    method InterfaceValue(key: string) returns (value: Option<string>)
      requires Valid()
      ensures value == FirstValue(Data().iface, key)
    {
      assert iface[0..] == iface;
      for i := 0 to |iface|
        invariant FirstValue(iface, key) == FirstValue(iface[i..], key)
      {
        hide Matches;
        assert iface[i..][1..] == iface[i + 1..];
        if Matches(iface[i], key) { return Some(iface[i].value); }
      }
      return None;
    }

    method AddPeer(peer: Peer)
      requires Valid()
      modifies this, peers
      ensures Valid() && (peers == old(peers) || fresh(peers))
      ensures Data() == old(Data()).(peers := old(Data()).peers + [peer])
    {
      if count == peers.Length {
        var held := peers[..count];
        peers := new Peer[2 * count + 1](i => if 0 <= i < |held| then held[i] else peer);
      }
      peers[count] := peer;
      count := count + 1;
    }

    /** Compacts the slice in place over the peers that stay. */
    method RemovePeer(publicKey: string) returns (removed: bool)
      requires Valid()
      modifies this, peers
      ensures Valid() && peers == old(peers)
      ensures Data() == old(Data()).(peers := Without(old(Data()).peers, publicKey))
      ensures removed <==> HasKey(old(Data()).peers, publicKey)
    {
      hide Without, HasKey;
      ghost var was := peers[..count];
      RemoveStart(publicKey);
      assert was[..0] == [];
      var next := 0;
      removed := false;
      for i := 0 to count
        invariant next <= i && peers == old(peers) && count == old(count) && iface == old(iface)
        invariant peers[..next] == Without(was[..i], publicKey)
        invariant forall k :: i <= k < count ==> peers[k] == was[k]
        invariant removed <==> HasKey(was[..i], publicKey)
      {
        assert was[..i + 1] == was[..i] + [was[i]];
        RemoveStep(was[..i], was[i], publicKey);
        if peers[i].publicKey == publicKey {
          removed := true;
        } else {
          peers[next] := peers[i];
          next := next + 1;
        }
      }
      assert was[..count] == was;
      count := next;
    }

    method FindPeer(publicKey: string) returns (found: Option<Peer>)
      requires Valid()
      ensures found.Some? <==> HasKey(Data().peers, publicKey)
      ensures found.Some? ==>
        (exists i :: 0 <= i < |Data().peers| && Data().peers[i] == found.value
          && found.value.publicKey == publicKey && !HasKey(Data().peers[..i], publicKey))
    {
      for i := 0 to count
        invariant !HasKey(peers[..i], publicKey)
      {
        if peers[i].publicKey == publicKey {
          assert Data().peers[i] == peers[i] && Data().peers[..i] == peers[..i];
          return Some(peers[i]);
        }
      }
      return None;
    }

    /** Accepts exactly the valid configurations; an error says what is wrong. */
    method Validate(v6: V6Reader) returns (e: Option<ValidateError>)
      requires Valid()
      ensures e.None? <==> ValidConfig(v6, Data())
      ensures e.Some? ==> Explains(v6, Data(), e.value)
    {
      ghost var c := Data();
      var address := InterfaceValue("Address");
      if address.None? || TrimSpace(address.value[..IndexOf(address.value, ',')]) == "" {
        ExplainsInvalid(v6, c, AddressRequired);
        return Some(AddressRequired);
      }
      var port := InterfaceValue("ListenPort");
      if port.None? || port.value == "" {
        ExplainsInvalid(v6, c, ListenPortRequired);
        return Some(ListenPortRequired);
      }
      e := ValidatePeers(v6, c, peers[..count]);
      if e.Some? { ExplainsInvalid(v6, c, e.value); }
    }

    /** First-fit allocation, as a set of used addresses and a counting loop. */
    method AllocateFreeIPv4(v6: V6Reader, extraUsed: seq<string>) returns (r: Result<nat, AllocError>)
      requires Valid()
      ensures r == Allocate(v6, Data(), extraUsed)
      ensures r.Ok? ==> r.value < 4294967296
    {
      ghost var c := Data();
      AllocateInRange(v6, c, extraUsed);
      var value := InterfaceValue("Address");
      if value.None? { return Err(NoAddress); }
      var text := TrimSpace(value.value[..IndexOf(value.value, ',')]);
      if text == "" { return Err(NoAddress); }
      var parsed := ParsePrefix(v6, text);
      if parsed.None? { return Err(BadAddress); }
      var prefix := parsed.value;
      ParsePrefixValid(v6, text);
      if !prefix.addr.family.V4? { return Err(NotIPv4); }
      var used := CollectUsed(v6, prefix.addr.value, extraUsed);
      if prefix.bits == 0 { return Err(BadBits); }
      hide Used, ParsePrefix, InterfaceAddress, Pick;
      r := PickFree(prefix, used);
    }

    method CollectUsed(v6: V6Reader, server: nat, extraUsed: seq<string>) returns (used: set<nat>)
      requires Valid()
      ensures used == Used(v6, server, Data().peers, extraUsed)
    {
      hide Bases;
      used := {server};
      for i := 0 to count
        invariant used == {server} + PeerBases(v6, peers[..i])
      {
        assert peers[..i + 1] == peers[..i] + [peers[i]];
        PeerBasesSnoc(v6, peers[..i], peers[i]);
        used := AddBases(v6, used, peers[i].allowedIPs);
      }
      used := AddBases(v6, used, extraUsed);
    }
  }

  /** Marks the address of every entry that has one. */
  method AddBases(v6: V6Reader, before: set<nat>, texts: seq<string>) returns (used: set<nat>)
    ensures used == before + Bases(v6, texts)
  {
    hide AllowedIPv4;
    used := before;
    for k := 0 to |texts|
      invariant used == before + Bases(v6, texts[..k])
    {
      assert texts[..k + 1] == texts[..k] + [texts[k]];
      BasesSnoc(v6, texts[..k], texts[k]);
      var a := AllowedIPv4(v6, texts[k]);
      if a.Some? { used := used + {a.value}; }
    }
    assert texts[..|texts|] == texts;
  }

  lemma {:induction false} BasesSnoc(v6: V6Reader, texts: seq<string>, t: string)
    ensures Bases(v6, texts + [t]) ==
            Bases(v6, texts) + (if AllowedIPv4(v6, t).Some? then {AllowedIPv4(v6, t).value} else {})
  {
    hide AllowedIPv4;
    if texts == [] {
      assert [t][1..] == [];
    } else {
      assert (texts + [t])[1..] == texts[1..] + [t];
      BasesSnoc(v6, texts[1..], t);
    }
  }

  lemma {:induction false} PeerBasesSnoc(v6: V6Reader, ps: seq<Peer>, p: Peer)
    ensures PeerBases(v6, ps + [p]) == PeerBases(v6, ps) + Bases(v6, p.allowedIPs)
  {
    hide Bases;
    if ps == [] {
      assert [p][1..] == [];
    } else {
      assert (ps + [p])[1..] == ps[1..] + [p];
      PeerBasesSnoc(v6, ps[1..], p);
    }
  }

  method PickFree(prefix: Prefix, used: set<nat>) returns (r: Result<nat, AllocError>)
    requires ValidPrefix(prefix) && prefix.addr.family.V4?
    ensures r == Pick(prefix, used)
  {
    SubnetEnd(prefix);
    hide Network, Size, FirstFree;
    var network, size := Network(prefix), Size(prefix);
    if size <= 2 {
      if network !in used { return Ok(network); }
      return Err(Exhausted);
    }
    var found := TryCandidates(used, network + 1, network + size - 1);
    if found.None? { return Err(Exhausted); }
    return Ok(found.value);
  }

  /** Tries the candidates one by one in 64-bit arithmetic; each address is the
      candidate reduced to 32 bits, which changes nothing inside a subnet. */
  method TryCandidates(used: set<nat>, first: nat, lastExclusive: nat) returns (r: Option<nat>)
    requires first <= lastExclusive <= 4294967296
    ensures r == FirstFree(used, first, lastExclusive)
  {
    var candidate := first;
    while candidate < lastExclusive
      invariant first <= candidate <= lastExclusive
      invariant FirstFree(used, first, lastExclusive) == FirstFree(used, candidate, lastExclusive)
    {
      var addr := candidate % 4294967296;
      assert addr == candidate;
      if addr !in used { return Some(addr); }
      candidate := candidate + 1;
    }
    return None;
  }
}
