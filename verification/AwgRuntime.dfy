/**
 The status text of the running interface and the peers read from it.
 */
module AwgRuntime {
  import opened Wrappers
  import opened Text
  import opened AwgConfig

  datatype RuntimePeer = RuntimePeer(publicKey: string, endpoint: string, allowedIPs: seq<string>,
                                     latestHandshake: string, received: string, sent: string)

  datatype Status = Status(interfaceName: string, publicKey: string, listenPort: string, peers: seq<RuntimePeer>)

  function After(line: string, prefix: string): string
    requires StartsWith(line, prefix)
  {
    TrimSpace(line[|prefix|..])
  }

  function TrimSuffix(s: string, suffix: string): string {
    if EndsWith(s, suffix) then s[..|s| - |suffix|] else s
  }

  function NewRuntimePeer(key: string): RuntimePeer {
    RuntimePeer(key, "", [], "", "", "")
  }

  /** One trimmed line below a peer line. */
  function RuntimePeerLine(p: RuntimePeer, line: string): RuntimePeer {
    if StartsWith(line, "endpoint:") then p.(endpoint := After(line, "endpoint:"))
    else if StartsWith(line, "allowed ips:") then p.(allowedIPs := SplitCSV(After(line, "allowed ips:")))
    else if StartsWith(line, "latest handshake:") then p.(latestHandshake := After(line, "latest handshake:"))
    else if StartsWith(line, "transfer:") then
      var value := After(line, "transfer:");
      var i := IndexOf(value, ',');
      var q := p.(received := TrimSpace(TrimSuffix(value[..i], " received")));
      if i == |value| then q
      else
        var tail := value[i + 1..];
        q.(sent := TrimSpace(TrimSuffix(tail[..IndexOf(tail, ',')], " sent")))
    else p
  }

  datatype ShowScan = ShowScan(status: Status, current: Option<RuntimePeer>)

  function FlushedStatus(st: ShowScan): Status {
    if st.current.None? then st.status else st.status.(peers := st.status.peers + [st.current.value])
  }

  function ShowLine(st: ShowScan, raw: string): ShowScan {
    var line := TrimSpace(raw);
    if StartsWith(line, "interface:") then
      ShowScan(FlushedStatus(st).(interfaceName := After(line, "interface:")), None)
    else if StartsWith(line, "peer:") then
      ShowScan(FlushedStatus(st), Some(NewRuntimePeer(After(line, "peer:"))))
    else if StartsWith(line, "public key:") && st.current.None? then
      st.(status := st.status.(publicKey := After(line, "public key:")))
    else if StartsWith(line, "listening port:") && st.current.None? then
      st.(status := st.status.(listenPort := After(line, "listening port:")))
    else if st.current.Some? then st.(current := Some(RuntimePeerLine(st.current.value, line)))
    else st
  }

  function ShowLines(ls: seq<string>, st: ShowScan): ShowScan {
    if ls == [] then st else ShowLines(ls[1..], ShowLine(st, ls[0]))
  }

  const NoStatus := ShowScan(Status("", "", "", []), None)

  function ParseShow(text: string): Status {
    FlushedStatus(ShowLines(Lines(text), NoStatus))
  }

  predicate HasPeer(s: Status, key: string) {
    exists i :: 0 <= i < |s.peers| && s.peers[i].publicKey == key
  }

  /** The allowed-IPs entries of all runtime peers, in order. */
  function RuntimeUsed(ps: seq<RuntimePeer>): seq<string> {
    if ps == [] then [] else ps[0].allowedIPs + RuntimeUsed(ps[1..])
  }

  /** They are exactly the entries that some peer has. */
  lemma {:induction false} RuntimeUsedMembers(ps: seq<RuntimePeer>, x: string)
    ensures x in RuntimeUsed(ps) <==> exists i, k :: 0 <= i < |ps| && 0 <= k < |ps[i].allowedIPs| && ps[i].allowedIPs[k] == x
  {
    if ps != [] {
      RuntimeUsedMembers(ps[1..], x);
      if i, k :| 0 <= i < |ps| && 0 <= k < |ps[i].allowedIPs| && ps[i].allowedIPs[k] == x {
        if i > 0 { assert ps[1..][i - 1] == ps[i]; }
      }
    }
  }

  // ----- Operations -----

  method ParseAWGShow(input: string) returns (status: Status)
    ensures status == ParseShow(input)
  {
    hide ShowLine, Lines;
    var lines := Lines(input);
    var st := NoStatus;
    assert lines[0..] == lines;
    for i := 0 to |lines|
      invariant ShowLines(lines, NoStatus) == ShowLines(lines[i..], st)
    {
      assert lines[i..][1..] == lines[i + 1..];
      st := FeedShow(st, lines[i]);
    }
    assert lines[|lines|..] == [];
    status := FlushedStatus(st);
  }

  method FeedShow(st: ShowScan, raw: string) returns (next: ShowScan)
    ensures next == ShowLine(st, raw)
  {
    hide TrimSpace, RuntimePeerLine;
    var line := TrimSpace(raw);
    var status, current := st.status, st.current;
    if StartsWith(line, "interface:") {
      if current.Some? { status := status.(peers := status.peers + [current.value]); current := None; }
      status := status.(interfaceName := After(line, "interface:"));
    } else if StartsWith(line, "peer:") {
      if current.Some? { status := status.(peers := status.peers + [current.value]); }
      current := Some(NewRuntimePeer(After(line, "peer:")));
    } else if StartsWith(line, "public key:") && current.None? {
      status := status.(publicKey := After(line, "public key:"));
    } else if StartsWith(line, "listening port:") && current.None? {
      status := status.(listenPort := After(line, "listening port:"));
    } else if current.Some? {
      current := Some(RuntimePeerLine(current.value, line));
    }
    next := ShowScan(status, current);
  }

  method FindRuntimePeer(s: Status, publicKey: string) returns (found: bool)
    ensures found <==> HasPeer(s, publicKey)
  {
    for i := 0 to |s.peers|
      invariant forall k :: 0 <= k < i ==> s.peers[k].publicKey != publicKey
    {
      if s.peers[i].publicKey == publicKey { return true; }
    }
    return false;
  }

  // ----- Reading back what the interface prints -----

  function OptionalLine(prefix: string, value: string): seq<string> {
    if value == "" then [] else ["  " + prefix + " " + value]
  }

  function TransferLine(p: RuntimePeer): seq<string> {
    if p.received == "" then [] else ["  transfer: " + (p.received + " received, " + p.sent + " sent")]
  }

  /** How the interface lists one peer. */
  function ShownPeer(p: RuntimePeer): seq<string> {
    ["", "peer: " + p.publicKey, "  preshared key: (hidden)"]
    + OptionalLine("endpoint:", p.endpoint)
    + ["  allowed ips: " + Join(p.allowedIPs)]
    + OptionalLine("latest handshake:", p.latestHandshake)
    + TransferLine(p)
  }

  function ShownPeers(ps: seq<RuntimePeer>): seq<string> {
    if ps == [] then [] else ShownPeer(ps[0]) + ShownPeers(ps[1..])
  }

  function ShownHeader(st: Status): seq<string> {
    ["interface: " + st.interfaceName, "  public key: " + st.publicKey, "  private key: (hidden)",
     "  listening port: " + st.listenPort]
  }

  function ShowText(st: Status): string {
    Unlines(ShownHeader(st) + ShownPeers(st.peers))
  }

  /** A text that the interface prints after a field's name. */
  predicate Showable(p: RuntimePeer) {
    && Token(p.publicKey) && Token(p.endpoint) && Token(p.latestHandshake)
    && (forall x :: x in p.allowedIPs ==> CleanItem(x) && '\n' !in x)
    && Token(p.received) && Token(p.sent) && ',' !in p.received && ',' !in p.sent
    && (p.received == "" <==> p.sent == "")
  }

  predicate ShowableStatus(st: Status) {
    && Token(st.interfaceName) && Token(st.publicKey) && Token(st.listenPort)
    && forall i :: 0 <= i < |st.peers| ==> Showable(st.peers[i])
  }

  lemma BlankLead(s: string)
    ensures TrimSpace([' '] + s) == TrimSpace(s)
  {
    TrimSpaceSkipsLead(' ', s);
  }

  /** A field's name and value, trimmed. */
  function FieldText(k: string, v: string): string {
    if v == "" then k else k + " " + v
  }

  lemma FieldTrimmed(k: string, v: string)
    requires k != "" && Trimmed(k) && Trimmed(v)
    ensures TrimSpace(k + " " + v) == FieldText(k, v) && TrimSpace("  " + k + " " + v) == FieldText(k, v)
  {
    hide TrimSpace, IsSpace;
    if v == "" {
      assert k + " " + v == k + " ";
      TrimLead(k);
    } else {
      var t := k + " " + v;
      assert t[0] == k[0] && t[|t| - 1] == v[|v| - 1];
      TrimSpaceFacts(t);
    }
    assert "  " + k + " " + v == [' '] + ([' '] + (k + " " + v));
    BlankLead(k + " " + v);
    BlankLead([' '] + (k + " " + v));
  }

  /** The value of a field reads back. */
  lemma FieldReads(k: string, v: string)
    requires k != "" && Trimmed(k) && Trimmed(v)
    ensures StartsWith(FieldText(k, v), k) && After(FieldText(k, v), k) == v && FieldText(k, v)[..|k|] == k
  {
    hide TrimSpace, IsSpace;
    TrimSpaceFacts(v);
    var t := FieldText(k, v);
    assert t[..|k|] == k;
    if v == "" { assert t[|k|..] == v; } else { assert t[|k|..] == [' '] + v; BlankLead(v); }
  }

  /** A line of a field, as read: its name, its first letters and its value. */
  lemma FieldLine(k: string, v: string)
    requires k != "" && Trimmed(k) && Trimmed(v)
    ensures forall line :: line == k + " " + v || line == "  " + k + " " + v ==>
              var t := TrimSpace(line); StartsWith(t, k) && After(t, k) == v && |t| >= |k| && t[..|k|] == k
  {
    FieldTrimmed(k, v);
    FieldReads(k, v);
    hide TrimSpace, FieldText;
  }

  /** Texts that begin with words that differ do not begin with each other's. */
  lemma OtherWord(t: string, k: string, other: string, i: nat)
    requires |t| >= |k| && t[..|k|] == k && i < |k| && i < |other| && k[i] != other[i]
    ensures !StartsWith(t, other)
  {
    assert t[i] == k[i];
    assert |t| >= |other| ==> t[..|other|][i] == t[i];
  }

  lemma Names()
    ensures Trimmed("interface:") && Trimmed("peer:") && Trimmed("public key:") && Trimmed("private key:") && Trimmed("listening port:")
    ensures Trimmed("preshared key:") && Trimmed("endpoint:") && Trimmed("allowed ips:") && Trimmed("latest handshake:")
    ensures Trimmed("transfer:") && Trimmed("(hidden)")
  {}

  // ----- Each line -----

  lemma PeerShown(st: ShowScan, key: string)
    requires Trimmed(key)
    ensures ShowLine(st, "peer: " + key) == ShowScan(FlushedStatus(st), Some(NewRuntimePeer(key)))
  {
    Names();
    FieldLine("peer:", key);
    assert "peer:" + " " + key == "peer: " + key;
    var t := TrimSpace("peer: " + key);
    OtherWord(t, "peer:", "interface:", 0);
    hide TrimSpace, Trimmed;
  }

  lemma InterfaceShown(st: ShowScan, name: string)
    requires Trimmed(name)
    ensures ShowLine(st, "interface: " + name) == ShowScan(FlushedStatus(st).(interfaceName := name), None)
  {
    Names();
    FieldLine("interface:", name);
    assert "interface:" + " " + name == "interface: " + name;
    hide TrimSpace, Trimmed;
  }

  lemma PublicKeyShown(st: ShowScan, key: string)
    requires Trimmed(key) && st.current.None?
    ensures ShowLine(st, "  public key: " + key) == st.(status := st.status.(publicKey := key))
  {
    Names();
    FieldLine("public key:", key);
    assert "  " + "public key:" + " " + key == "  public key: " + key;
    var t := TrimSpace("  public key: " + key);
    OtherWord(t, "public key:", "interface:", 0);
    OtherWord(t, "public key:", "peer:", 1);
    hide TrimSpace, Trimmed;
  }

  lemma PortShown(st: ShowScan, port: string)
    requires Trimmed(port) && st.current.None?
    ensures ShowLine(st, "  listening port: " + port) == st.(status := st.status.(listenPort := port))
  {
    Names();
    FieldLine("listening port:", port);
    assert "  " + "listening port:" + " " + port == "  listening port: " + port;
    var t := TrimSpace("  listening port: " + port);
    OtherWord(t, "listening port:", "interface:", 0);
    OtherWord(t, "listening port:", "peer:", 0);
    OtherWord(t, "listening port:", "public key:", 0);
    hide TrimSpace, Trimmed;
  }

  lemma PrivateShown(st: ShowScan)
    requires st.current.None?
    ensures ShowLine(st, "  private key: (hidden)") == st
  {
    Names();
    hide TrimSpace, Trimmed;
    FieldLine("private key:", "(hidden)");
    assert "  " + "private key:" + " " + "(hidden)" == "  private key: (hidden)";
    var t := TrimSpace("  private key: (hidden)");
    OtherWord(t, "private key:", "interface:", 0);
    OtherWord(t, "private key:", "peer:", 1);
    OtherWord(t, "private key:", "public key:", 1);
    OtherWord(t, "private key:", "listening port:", 0);
  }

  lemma PresharedShown(st: ShowScan)
    requires st.current.Some?
    ensures ShowLine(st, "  preshared key: (hidden)") == st
  {
    Names();
    hide TrimSpace, Trimmed, RuntimePeerLine;
    FieldLine("preshared key:", "(hidden)");
    assert "  " + "preshared key:" + " " + "(hidden)" == "  preshared key: (hidden)";
    var t := TrimSpace("  preshared key: (hidden)");
    OtherWord(t, "preshared key:", "interface:", 0);
    OtherWord(t, "preshared key:", "peer:", 1);
    NotPeerField(t, "preshared key:");
  }

  lemma NotPeerField(t: string, k: string)
    requires k != "" && |t| >= |k| && t[..|k|] == k && k[0] !in "ealt"
    ensures forall p :: RuntimePeerLine(p, t) == p
  {
    OtherWord(t, k, "endpoint:", 0);
    OtherWord(t, k, "allowed ips:", 0);
    OtherWord(t, k, "latest handshake:", 0);
    OtherWord(t, k, "transfer:", 0);
  }

  /** A field of the current peer goes to the peer. */
  lemma FieldShown(st: ShowScan, k: string, v: string)
    requires st.current.Some? && Trimmed(v)
    requires k == "endpoint:" || k == "allowed ips:" || k == "latest handshake:" || k == "transfer:"
    ensures var t := TrimSpace("  " + k + " " + v);
            && ShowLine(st, "  " + k + " " + v) == st.(current := Some(RuntimePeerLine(st.current.value, t)))
            && StartsWith(t, k) && After(t, k) == v && |t| >= |k| && t[..|k|] == k
  {
    Names();
    FieldLine(k, v);
    var t := TrimSpace("  " + k + " " + v);
    OtherWord(t, k, "interface:", 0);
    OtherWord(t, k, "peer:", 0);
    hide TrimSpace, Trimmed, RuntimePeerLine;
  }

  lemma EndpointShown(st: ShowScan, v: string)
    requires st.current.Some? && Trimmed(v)
    ensures ShowLine(st, "  endpoint: " + v) == st.(current := Some(st.current.value.(endpoint := v)))
  {
    FieldShown(st, "endpoint:", v);
    assert "  " + "endpoint:" + " " + v == "  endpoint: " + v;
    hide TrimSpace, Trimmed, ShowLine;
  }

  lemma AllowedShown(st: ShowScan, ips: seq<string>)
    requires st.current.Some? && forall x :: x in ips ==> CleanItem(x)
    ensures ShowLine(st, "  allowed ips: " + Join(ips)) == st.(current := Some(st.current.value.(allowedIPs := ips)))
  {
    JoinFacts(ips);
    SplitOfJoin(ips);
    var v := Join(ips);
    hide Join, TrimSpace, Trimmed, ShowLine, SplitCSV, After, RuntimePeerLine, CleanItem;
    FieldShown(st, "allowed ips:", v);
    assert "  " + "allowed ips:" + " " + v == "  allowed ips: " + v;
    var t := TrimSpace("  allowed ips: " + v);
    OtherWord(t, "allowed ips:", "endpoint:", 0);
    AllowedField(st.current.value, t, v);
  }

  lemma HandshakeShown(st: ShowScan, v: string)
    requires st.current.Some? && Trimmed(v)
    ensures ShowLine(st, "  latest handshake: " + v) == st.(current := Some(st.current.value.(latestHandshake := v)))
  {
    hide TrimSpace, Trimmed, ShowLine, After, RuntimePeerLine;
    FieldShown(st, "latest handshake:", v);
    assert "  " + "latest handshake:" + " " + v == "  latest handshake: " + v;
    var t := TrimSpace("  latest handshake: " + v);
    OtherWord(t, "latest handshake:", "endpoint:", 0);
    OtherWord(t, "latest handshake:", "allowed ips:", 0);
    HandshakeField(st.current.value, t, v);
  }

  lemma HandshakeField(p: RuntimePeer, t: string, v: string)
    requires StartsWith(t, "latest handshake:") && After(t, "latest handshake:") == v
    requires !StartsWith(t, "endpoint:") && !StartsWith(t, "allowed ips:")
    ensures RuntimePeerLine(p, t) == p.(latestHandshake := v)
  {
    hide TrimSpace, After;
  }

  lemma AllowedField(p: RuntimePeer, t: string, v: string)
    requires StartsWith(t, "allowed ips:") && After(t, "allowed ips:") == v && !StartsWith(t, "endpoint:")
    ensures RuntimePeerLine(p, t) == p.(allowedIPs := SplitCSV(v))
  {
    hide TrimSpace, After, SplitCSV;
  }

  lemma TransferText(r: string, s: string)
    requires r != "" && s != "" && Trimmed(r) && Trimmed(s) && ',' !in r && ',' !in s
    ensures var v := r + " received, " + s + " sent"; var i := IndexOf(v, ',');
            && Trimmed(v) && i < |v| && TrimSpace(TrimSuffix(v[..i], " received")) == r
            && (var tail := v[i + 1..]; TrimSpace(TrimSuffix(tail[..IndexOf(tail, ',')], " sent")) == s)
  {
    hide TrimSpace, IsSpace, IndexOf;
    var v, a, b := r + " received, " + s + " sent", r + " received", " " + s + " sent";
    assert v[0] == r[0] && v[|v| - 1] == 't';
    NotBlank();
    assert v == a + [','] + b;
    IndexOfAfter(a, ',', b);
    IndexOfAbsent(b, ',');
    assert b[..|b|] == b;
    assert a[|a| - 9..] == " received" && a[..|a| - 9] == r;
    assert b[|b| - 5..] == " sent" && b[..|b| - 5] == [' '] + s;
    TrimSpaceFacts(r);
    TrimSpaceFacts(s);
    BlankLead(s);
  }

  lemma NotBlank()
    ensures !IsSpace('t')
  {}

  lemma TransferShown(st: ShowScan, r: string, s: string)
    requires st.current.Some? && r != "" && s != "" && Trimmed(r) && Trimmed(s) && ',' !in r && ',' !in s
    ensures ShowLine(st, "  transfer: " + (r + " received, " + s + " sent")) ==
            st.(current := Some(st.current.value.(received := r, sent := s)))
  {
    var v := r + " received, " + s + " sent";
    hide TrimSpace, Trimmed, ShowLine, IndexOf, TrimSuffix;
    TransferText(r, s);
    FieldShown(st, "transfer:", v);
    assert "  " + "transfer:" + " " + v == "  transfer: " + v;
    var t := TrimSpace("  transfer: " + v);
    OtherWord(t, "transfer:", "endpoint:", 0);
    OtherWord(t, "transfer:", "allowed ips:", 0);
    OtherWord(t, "transfer:", "latest handshake:", 0);
  }

  lemma BlankShown(st: ShowScan)
    ensures FlushedStatus(ShowLine(st, "")) == FlushedStatus(st)
  {}

  // ----- All lines -----

  lemma {:induction false} ShowAppend(a: seq<string>, b: seq<string>, st: ShowScan)
    ensures ShowLines(a + b, st) == ShowLines(b, ShowLines(a, st))
  {
    hide ShowLine;
    if a == [] {
      assert a + b == b;
    } else {
      assert (a + b)[1..] == a[1..] + b;
      ShowAppend(a[1..], b, ShowLine(st, a[0]));
    }
  }

  lemma ShowOne(l: string, st: ShowScan)
    ensures ShowLines([l], st) == ShowLine(st, l)
  {
    hide ShowLine;
    assert [l][1..] == [];
  }

  lemma OptionalShown(prefix: string, v: string, st: ShowScan)
    ensures v == "" ==> ShowLines(OptionalLine(prefix, v), st) == st
    ensures v != "" ==> ShowLines(OptionalLine(prefix, v), st) == ShowLine(st, "  " + prefix + " " + v)
  {
    hide ShowLine;
    if v != "" { ShowOne("  " + prefix + " " + v, st); }
  }

  lemma OptionalEndpoint(v: string, st: ShowScan)
    requires st.current.Some? && Trimmed(v) && st.current.value.endpoint == ""
    ensures ShowLines(OptionalLine("endpoint:", v), st) == st.(current := Some(st.current.value.(endpoint := v)))
  {
    hide ShowLine, ShowLines, Trimmed;
    OptionalShown("endpoint:", v, st);
    EndpointShown(st, v);
    assert "  " + "endpoint:" + " " + v == "  endpoint: " + v;
  }

  lemma OptionalHandshake(v: string, st: ShowScan)
    requires st.current.Some? && Trimmed(v) && st.current.value.latestHandshake == ""
    ensures ShowLines(OptionalLine("latest handshake:", v), st) == st.(current := Some(st.current.value.(latestHandshake := v)))
  {
    hide ShowLine, ShowLines, Trimmed;
    OptionalShown("latest handshake:", v, st);
    HandshakeShown(st, v);
    assert "  " + "latest handshake:" + " " + v == "  latest handshake: " + v;
  }

  lemma TransferLineShown(p: RuntimePeer, st: ShowScan)
    requires Showable(p) && st.current.Some? && st.current.value.received == "" && st.current.value.sent == ""
    ensures ShowLines(TransferLine(p), st) == st.(current := Some(st.current.value.(received := p.received, sent := p.sent)))
  {
    if p.received != "" {
      ShowOne("  transfer: " + (p.received + " received, " + p.sent + " sent"), st);
      TransferShown(st, p.received, p.sent);
    }
    hide ShowLine, Trimmed;
  }

  /** One shown peer adds exactly that peer. */
  lemma ShownPeerReads(p: RuntimePeer, st: ShowScan)
    requires Showable(p)
    ensures ShowLines(ShownPeer(p), st) == ShowScan(FlushedStatus(st), Some(p))
  {
    hide ShowLines, ShowLine, Join, Trimmed, OptionalLine, TransferLine;
    var a, b, c := "", "peer: " + p.publicKey, "  preshared key: (hidden)";
    var e, i, h, x := OptionalLine("endpoint:", p.endpoint), ["  allowed ips: " + Join(p.allowedIPs)],
                      OptionalLine("latest handshake:", p.latestHandshake), TransferLine(p);
    assert ShownPeer(p) == [a] + ([b] + ([c] + (e + (i + (h + x)))));
    ShowAppend([a], [b] + ([c] + (e + (i + (h + x)))), st);
    ShowOne(a, st);
    BlankShown(st);
    var s1 := ShowLine(st, a);
    ShowAppend([b], [c] + (e + (i + (h + x))), s1);
    ShowOne(b, s1);
    PeerShown(s1, p.publicKey);
    var s2 := ShowScan(FlushedStatus(st), Some(NewRuntimePeer(p.publicKey)));
    ShowAppend([c], e + (i + (h + x)), s2);
    ShowOne(c, s2);
    PresharedShown(s2);
    ShowAppend(e, i + (h + x), s2);
    OptionalEndpoint(p.endpoint, s2);
    var s3 := s2.(current := Some(s2.current.value.(endpoint := p.endpoint)));
    ShowAppend(i, h + x, s3);
    ShowOne("  allowed ips: " + Join(p.allowedIPs), s3);
    AllowedShown(s3, p.allowedIPs);
    var s4 := s3.(current := Some(s3.current.value.(allowedIPs := p.allowedIPs)));
    ShowAppend(h, x, s4);
    OptionalHandshake(p.latestHandshake, s4);
    TransferLineShown(p, s4.(current := Some(s4.current.value.(latestHandshake := p.latestHandshake))));
  }

  lemma {:induction false} ShownPeersRead(ps: seq<RuntimePeer>, st: ShowScan)
    requires forall i :: 0 <= i < |ps| ==> Showable(ps[i])
    ensures FlushedStatus(ShowLines(ShownPeers(ps), st)) == FlushedStatus(st).(peers := FlushedStatus(st).peers + ps)
    decreases |ps|
  {
    if ps == [] {
      assert FlushedStatus(st).peers + [] == FlushedStatus(st).peers;
    } else {
      hide ShowLine, Showable, ShownPeer;
      ShowAppend(ShownPeer(ps[0]), ShownPeers(ps[1..]), st);
      ShownPeerReads(ps[0], st);
      var mid := ShowScan(FlushedStatus(st), Some(ps[0]));
      hide ShowLines;
      ShownPeersRead(ps[1..], mid);
      ConcatAssoc(FlushedStatus(st).peers, [ps[0]], ps[1..]);
      assert [ps[0]] + ps[1..] == ps;
    }
  }

  lemma HeaderReads(st: Status)
    requires Token(st.interfaceName) && Token(st.publicKey) && Token(st.listenPort)
    ensures ShowLines(ShownHeader(st), NoStatus) == ShowScan(st.(peers := []), None)
  {
    hide ShowLines, ShowLine, Trimmed;
    var a, b, c, d := "interface: " + st.interfaceName, "  public key: " + st.publicKey, "  private key: (hidden)",
                      "  listening port: " + st.listenPort;
    assert ShownHeader(st) == [a] + ([b] + ([c] + [d]));
    var s1 := ShowScan(Status(st.interfaceName, "", "", []), None);
    var s2 := s1.(status := s1.status.(publicKey := st.publicKey));
    ShowAppend([a], [b] + ([c] + [d]), NoStatus);
    ShowOne(a, NoStatus);
    InterfaceShown(NoStatus, st.interfaceName);
    ShowAppend([b], [c] + [d], s1);
    ShowOne(b, s1);
    PublicKeyShown(s1, st.publicKey);
    ShowAppend([c], [d], s2);
    ShowOne(c, s2);
    PrivateShown(s2);
    ShowOne(d, s2);
    PortShown(s2, st.listenPort);
  }

  lemma OptionalOk(prefix: string, v: string)
    requires LineOk("  " + prefix + " ") && Token(v)
    ensures forall l :: l in OptionalLine(prefix, v) ==> LineOk(l)
  {
    TokenLineOk("  " + prefix + " ", v);
  }

  lemma TransferOk(p: RuntimePeer)
    requires Showable(p)
    ensures forall l :: l in TransferLine(p) ==> LineOk(l)
  {
    hide LineOk, Trimmed, IsSpace;
    if p.received != "" {
      TransferToken(p.received, p.sent);
      PrefixesOk();
      TokenLineOk("  transfer: ", p.received + " received, " + p.sent + " sent");
    }
  }

  lemma TransferToken(r: string, s: string)
    requires r != "" && s != "" && Token(r) && Token(s) && ',' !in r && ',' !in s
    ensures Token(r + " received, " + s + " sent")
  {
    hide Trimmed, IndexOf, TrimSuffix, TrimSpace;
    TransferText(r, s);
    assert '\n' !in " received, " && '\n' !in " sent";
  }

  lemma ShownPeerOk(p: RuntimePeer)
    requires Showable(p)
    ensures forall l :: l in ShownPeer(p) ==> LineOk(l)
  {
    hide Join, LineOk, Trimmed, IsSpace, OptionalLine, TransferLine;
    JoinFacts(p.allowedIPs);
    PrefixesOk();
    TokenLineOk("peer: ", p.publicKey);
    TokenLineOk("  allowed ips: ", Join(p.allowedIPs));
    OptionalOk("endpoint:", p.endpoint);
    OptionalOk("latest handshake:", p.latestHandshake);
    TransferOk(p);
  }

  lemma PrefixesOk()
    ensures LineOk("") && LineOk("peer: ") && LineOk("  preshared key: (hidden)") && LineOk("  allowed ips: ") && LineOk("  transfer: ")
    ensures LineOk("  " + "endpoint:" + " ") && LineOk("  " + "latest handshake:" + " ")
  {
    assert "  " + "endpoint:" + " " == "  endpoint: " && "  " + "latest handshake:" + " " == "  latest handshake: ";
  }

  lemma HeaderPrefixesOk()
    ensures LineOk("interface: ") && LineOk("  public key: ") && LineOk("  private key: (hidden)") && LineOk("  listening port: ")
  {}

  lemma {:induction false} ShownPeersOk(ps: seq<RuntimePeer>)
    requires forall i :: 0 <= i < |ps| ==> Showable(ps[i])
    ensures forall l :: l in ShownPeers(ps) ==> LineOk(l)
  {
    hide ShownPeer, Showable, LineOk;
    if ps != [] {
      ShownPeerOk(ps[0]);
      ShownPeersOk(ps[1..]);
    }
  }

  lemma HeaderOk(st: Status)
    requires Token(st.interfaceName) && Token(st.publicKey) && Token(st.listenPort)
    ensures forall l :: l in ShownHeader(st) ==> LineOk(l)
  {
    HeaderPrefixesOk();
    hide LineOk, Trimmed;
    TokenLineOk("interface: ", st.interfaceName);
    TokenLineOk("  public key: ", st.publicKey);
    TokenLineOk("  listening port: ", st.listenPort);
  }

  /** Reading the shown text gives back the whole status: the interface and
      every peer in order, with all fields. */
  lemma ShowReadsBack(st: Status)
    requires ShowableStatus(st)
    ensures ParseShow(ShowText(st)) == st
  {
    HeaderOk(st);
    ShownPeersOk(st.peers);
    HeaderReads(st);
    hide ShowLines, ShownHeader, ShownPeers, Lines, Unlines, LineOk, Showable, Trimmed;
    LinesOfUnlines(ShownHeader(st) + ShownPeers(st.peers));
    ShowAppend(ShownHeader(st), ShownPeers(st.peers), NoStatus);
    ShownPeersRead(st.peers, ShowScan(st.(peers := []), None));
    assert [] + st.peers == st.peers;
  }
}
