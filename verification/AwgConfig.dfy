/**
 The server's configuration file: its data, the line-oriented parser and the
 printer, and the proof that each undoes the other.
 */
module AwgConfig {
  import opened Wrappers
  import opened Text

  datatype InterfaceLine = InterfaceLine(raw: string, key: string, value: string, commented: bool, hasKV: bool)

  datatype Peer = Peer(publicKey: string, presharedKey: string, allowedIPs: seq<string>, extra: seq<string>)

  datatype ConfigData = ConfigData(iface: seq<InterfaceLine>, peers: seq<Peer>)

  datatype ParseError =
    | UnsupportedSection(name: string, lineNo: nat)
    | BeforeSection(lineNo: nat)
    | MissingInterface

  // ----- Lines -----

  /** Lower case as far as it can yield an ASCII letter. */
  function LowerChar(c: char): char {
    if 'A' <= c <= 'Z' then (c as int + 32) as char
    else if c == '\U{0130}' then 'i'
    else if c == '\U{212A}' then 'k'
    else c
  }

  function Lower(s: string): string {
    seq(|s|, i requires 0 <= i < |s| => LowerChar(s[i]))
  }

  /** The name inside a section header, None for any other trimmed line. */
  function Header(trimmed: string): Option<string> {
    if |trimmed| >= 2 && trimmed[0] == '[' && trimmed[|trimmed| - 1] == ']'
    then Some(TrimSpace(trimmed[1..|trimmed| - 1])) else None
  }

  datatype Assignment = Assignment(key: string, value: string, commented: bool, ok: bool)

  /** Reads "key = value", possibly behind a comment mark. */
  function ParseAssignment(line: string): Assignment {
    var trimmed := TrimSpace(line);
    if trimmed == "" then Assignment("", "", false, false)
    else
      var commented := trimmed[0] == '#';
      var body := if commented then TrimSpace(trimmed[1..]) else trimmed;
      var i := IndexOf(body, '=');
      if i == |body| then Assignment("", "", commented, false)
      else
        var key, value := TrimSpace(body[..i]), TrimSpace(body[i + 1..]);
        if key == "" then Assignment("", "", commented, false)
        else Assignment(key, value, commented, true)
  }

  function ReadInterfaceLine(line: string): InterfaceLine {
    var a := ParseAssignment(line);
    InterfaceLine(line, a.key, a.value, a.commented, a.ok)
  }

  // ----- Parser -----

  datatype Section = NoSection | InterfaceSection | PeerSection

  datatype Scan = Scan(section: Section, iface: seq<InterfaceLine>, peers: seq<Peer>, current: Option<Peer>)

  const StartScan := Scan(NoSection, [], [], None)

  /** The peers so far, counting the one still being read. */
  function Flushed(st: Scan): seq<Peer> {
    st.peers + if st.current.Some? then [st.current.value] else []
  }

  /** One line inside a peer section. */
  function PeerLine(p: Peer, line: string): Peer {
    var trimmed := TrimSpace(line);
    if trimmed == "" then p
    else if trimmed[0] == '#' then p.(extra := p.extra + [trimmed])
    else
      var a := ParseAssignment(line);
      if !a.ok then p.(extra := p.extra + [trimmed])
      else if a.key == "PublicKey" then p.(publicKey := a.value)
      else if a.key == "PresharedKey" || a.key == "PreSharedKey" then p.(presharedKey := a.value)
      else if a.key == "AllowedIPs" then p.(allowedIPs := SplitCSV(a.value))
      else p.(extra := p.extra + [trimmed])
  }

  function FeedLine(st: Scan, line: string, lineNo: nat): Result<Scan, ParseError> {
    var trimmed := TrimSpace(line);
    match Header(trimmed)
    case Some(name) =>
      if Lower(name) == "interface" then Ok(Scan(InterfaceSection, st.iface, Flushed(st), None))
      else if Lower(name) == "peer" then Ok(Scan(PeerSection, st.iface, Flushed(st), Some(Peer("", "", [], []))))
      else Err(UnsupportedSection(name, lineNo))
    case None =>
      match st.section
      case InterfaceSection => Ok(st.(iface := st.iface + [ReadInterfaceLine(line)]))
      case PeerSection =>
        if st.current.None? then Ok(st) else Ok(st.(current := Some(PeerLine(st.current.value, line))))
      case NoSection => if trimmed != "" then Err(BeforeSection(lineNo)) else Ok(st)
  }

  /** Feeds the lines in order; n lines came before them. */
  function FeedLines(ls: seq<string>, st: Scan, n: nat): Result<Scan, ParseError> {
    if ls == [] then Ok(st)
    else match FeedLine(st, ls[0], n + 1)
         case Err(e) => Err(e)
         case Ok(next) => FeedLines(ls[1..], next, n + 1)
  }

  function FinishScan(r: Result<Scan, ParseError>): Result<ConfigData, ParseError> {
    match r
    case Err(e) => Err(e)
    case Ok(st) => if st.iface == [] then Err(MissingInterface) else Ok(ConfigData(st.iface, Flushed(st)))
  }

  function Parse(input: string): Result<ConfigData, ParseError> {
    FinishScan(FeedLines(Lines(input), StartScan, 0))
  }

  // ----- Printer -----

  predicate BlankLine(l: InterfaceLine) {
    TrimSpace(l.raw) == ""
  }

  function TrimTrailing(ls: seq<InterfaceLine>): (r: seq<InterfaceLine>)
    ensures r <= ls && (r == [] || !BlankLine(r[|r| - 1]))
    ensures forall i :: |r| <= i < |ls| ==> BlankLine(ls[i])
  {
    if ls != [] && BlankLine(ls[|ls| - 1]) then TrimTrailing(ls[..|ls| - 1]) else ls
  }

  function Raws(ls: seq<InterfaceLine>): seq<string> {
    if ls == [] then [] else [ls[0].raw] + Raws(ls[1..])
  }

  function PeerText(p: Peer): seq<string> {
    ["[Peer]", "PublicKey = " + p.publicKey]
    + PskText(p.presharedKey)
    + ["AllowedIPs = " + Join(p.allowedIPs)]
    + p.extra + [""]
  }

  function PeersText(ps: seq<Peer>): seq<string> {
    if ps == [] then [] else PeerText(ps[0]) + PeersText(ps[1..])
  }

  function RenderLines(c: ConfigData): seq<string> {
    ["[Interface]"] + Raws(TrimTrailing(c.iface)) + [""] + PeersText(c.peers)
  }

  function Render(c: ConfigData): string {
    Unlines(RenderLines(c))
  }

  // ----- What the parser produces -----

  predicate Managed(key: string) {
    key == "PublicKey" || key == "PresharedKey" || key == "PreSharedKey" || key == "AllowedIPs"
  }

  predicate PrintableLine(l: InterfaceLine) {
    LineOk(l.raw) && Header(TrimSpace(l.raw)).None? && l == ReadInterfaceLine(l.raw)
  }

  predicate PrintableExtra(x: string) {
    && x != "" && Trimmed(x) && '\n' !in x && Header(x).None?
    && (x[0] == '#' || var a := ParseAssignment(x); !a.ok || !Managed(a.key))
  }

  /** A trimmed text on one line. */
  predicate Token(s: string) {
    Trimmed(s) && '\n' !in s
  }

  predicate PrintablePeer(p: Peer) {
    && Token(p.publicKey) && Token(p.presharedKey)
    && (forall x :: x in p.allowedIPs ==> CleanItem(x) && '\n' !in x)
    && (forall x :: x in p.extra ==> PrintableExtra(x))
  }

  predicate PrintablePeers(ps: seq<Peer>) {
    forall i :: 0 <= i < |ps| ==> PrintablePeer(ps[i])
  }

  predicate PrintableLines(ls: seq<InterfaceLine>) {
    forall i :: 0 <= i < |ls| ==> PrintableLine(ls[i])
  }

  predicate Printable(c: ConfigData) {
    PrintableLines(c.iface) && PrintablePeers(c.peers)
  }

  predicate PrintableScan(st: Scan) {
    && PrintableLines(st.iface) && PrintablePeers(st.peers)
    && (st.current.Some? ==> PrintablePeer(st.current.value))
    && (st.section.PeerSection? <==> st.current.Some?)
  }

  lemma TrimToken(s: string, i: nat, j: nat)
    requires '\n' !in s && i <= j <= |s|
    ensures Token(TrimSpace(s[i..j])) && '\n' !in s[i..j]
  {
    TrimSpaceFacts(s[i..j]);
  }

  lemma AssignmentFacts(line: string)
    requires '\n' !in line
    ensures var a := ParseAssignment(line); Token(a.key) && Token(a.value)
  {
    hide TrimSpace, IndexOf;
    TrimToken(line, 0, |line|);
    assert line[0..|line|] == line;
    var trimmed := TrimSpace(line);
    if trimmed != "" {
      TrimToken(trimmed, 1, |trimmed|);
      assert trimmed[1..|trimmed|] == trimmed[1..];
      BodyFacts(if trimmed[0] == '#' then TrimSpace(trimmed[1..]) else trimmed);
    }
  }

  lemma BodyFacts(body: string)
    requires '\n' !in body
    ensures var i := IndexOf(body, '='); i < |body| ==> Token(TrimSpace(body[..i])) && Token(TrimSpace(body[i + 1..]))
  {
    hide TrimSpace, IndexOf;
    var i := IndexOf(body, '=');
    if i < |body| {
      TrimToken(body, 0, i);
      TrimToken(body, i + 1, |body|);
      assert body[0..i] == body[..i] && body[i + 1..|body|] == body[i + 1..];
    }
  }

  lemma AssignmentOfTrimmed(line: string)
    ensures ParseAssignment(TrimSpace(line)) == ParseAssignment(line)
  {
    hide TrimSpace, IndexOf;
    TrimSpaceFacts(line);
    TrimSpaceFacts(TrimSpace(line));
  }

  lemma PeerLinePrintable(p: Peer, line: string)
    requires PrintablePeer(p) && LineOk(line) && Header(TrimSpace(line)).None?
    ensures PrintablePeer(PeerLine(p, line))
  {
    hide TrimSpace, ParseAssignment, SplitCSV, Header, IsSpace;
    AssignmentFacts(line);
    AssignmentOfTrimmed(line);
    TrimSpaceFacts(line);
    SplitCSVFacts(ParseAssignment(line).value);
  }

  lemma FeedLinePrintable(st: Scan, line: string, lineNo: nat)
    requires PrintableScan(st) && LineOk(line)
    ensures var r := FeedLine(st, line, lineNo); r.Ok? ==> PrintableScan(r.value)
  {
    if Header(TrimSpace(line)).None? && st.current.Some? {
      PeerLinePrintable(st.current.value, line);
    }
  }

  lemma {:induction false} FeedLinesPrintable(ls: seq<string>, st: Scan, n: nat)
    requires PrintableScan(st) && forall l :: l in ls ==> LineOk(l)
    ensures var r := FeedLines(ls, st, n); r.Ok? ==> PrintableScan(r.value)
  {
    if ls != [] {
      assert LineOk(ls[0]) by { assert ls[0] in ls; }
      FeedLinePrintable(st, ls[0], n + 1);
      var r := FeedLine(st, ls[0], n + 1);
      if r.Ok? { FeedLinesPrintable(ls[1..], r.value, n + 1); }
    }
  }

  /** Whatever text is accepted, the parsed config can be printed faithfully. */
  lemma ParsePrintable(input: string)
    ensures Parse(input).Ok? ==> Printable(Parse(input).value) && Parse(input).value.iface != []
  {
    FeedLinesPrintable(Lines(input), StartScan, 0);
  }

  // ----- Parsing printed text -----

  /** Feeding these lines takes the scan from one state to the other. */
  ghost predicate Reads(ls: seq<string>, st: Scan, next: Scan) {
    forall n: nat :: FeedLines(ls, st, n) == Ok(next)
  }

  lemma {:induction false} FeedLinesAppend(a: seq<string>, b: seq<string>, st: Scan, n: nat)
    requires FeedLines(a, st, n).Ok?
    ensures FeedLines(a + b, st, n) == FeedLines(b, FeedLines(a, st, n).value, n + |a|)
  {
    if a == [] {
      assert a + b == b;
    } else {
      assert (a + b)[1..] == a[1..] + b && (a + b)[0] == a[0];
      FeedLinesAppend(a[1..], b, FeedLine(st, a[0], n + 1).value, n + 1);
    }
  }

  lemma ReadsChain(a: seq<string>, b: seq<string>, st: Scan, mid: Scan, end: Scan)
    requires Reads(a, st, mid) && Reads(b, mid, end)
    ensures Reads(a + b, st, end)
  {
    forall n: nat ensures FeedLines(a + b, st, n) == Ok(end) {
      FeedLinesAppend(a, b, st, n);
    }
  }

  lemma FeedNothing(st: Scan)
    ensures Reads([], st, st)
  {}

  lemma ReadsOne(line: string, st: Scan, next: Scan)
    requires forall n: nat :: FeedLine(st, line, n) == Ok(next)
    ensures Reads([line], st, next)
  {
    forall n: nat ensures FeedLines([line], st, n) == Ok(next) {
      assert FeedLine(st, line, n + 1) == Ok(next);
      assert [line][1..] == [];
    }
  }

  lemma PlainText(s: string)
    requires forall i :: 0 <= i < |s| ==> '!' <= s[i] <= '~'
    ensures TrimSpace(s) == s
  {
    TrimSpaceFacts(s);
  }

  lemma InterfaceHeader()
    ensures TrimSpace("[Interface]") == "[Interface]" && Header("[Interface]") == Some("Interface")
    ensures Lower("Interface") == "interface"
  {
    hide TrimSpace, Lower, IsSpace;
    LowerNames();
    PlainText("[Interface]");
    PlainText("Interface");
    assert "[Interface]"[1..10] == "Interface";
  }

  lemma PeerHeader()
    ensures TrimSpace("[Peer]") == "[Peer]" && Header("[Peer]") == Some("Peer")
    ensures Lower("Peer") == "peer"
  {
    hide TrimSpace, Lower, IsSpace;
    LowerNames();
    PlainText("[Peer]");
    PlainText("Peer");
    assert "[Peer]"[1..5] == "Peer";
  }

  lemma LowerNames()
    ensures Lower("Interface") == "interface" && Lower("Peer") == "peer"
  {}

  lemma TrimLead(k: string)
    requires k != "" && Trimmed(k)
    ensures TrimSpace(k + " ") == k
  {
    TrimSpaceFacts(k);
    assert (k + " ")[..|k|] == k;
  }

  /** A printed assignment reads back as its key and value. */
  lemma AssignmentReadsBack(k: string, v: string)
    requires k != "" && Trimmed(k) && '=' !in k && k[0] != '#' && k[0] != '[' && Trimmed(v)
    ensures ParseAssignment(k + " = " + v) == Assignment(k, v, false, true)
    ensures var t := TrimSpace(k + " = " + v); t != "" && t[0] == k[0] && Header(t).None?
  {
    hide TrimSpace, IndexOf, Trimmed;
    var t := if v == "" then k + " =" else k + " = " + v;
    TrimmedAssignment(k, v, t);
    var rest := if v == "" then "" else [' '] + v;
    assert t == (k + " ") + ['='] + rest;
    IndexOfAfter(k + " ", '=', rest);
    TrimLead(k);
    TrimSpaceFacts(v);
    if v != "" { TrimSpaceSkipsLead(' ', v); }
  }

  lemma TrimmedAssignment(k: string, v: string, t: string)
    requires k != "" && Trimmed(k) && Trimmed(v)
    requires t == if v == "" then k + " =" else k + " = " + v
    ensures TrimSpace(k + " = " + v) == t
  {
    var line := k + " = " + v;
    if v == "" {
      assert line[..|line| - 1] == t;
    }
    TrimSpaceFacts(t);
  }

  lemma ExtraReadsBack(p: Peer, x: string)
    requires PrintableExtra(x)
    ensures PeerLine(p, x) == p.(extra := p.extra + [x])
    ensures Header(TrimSpace(x)).None?
  {
    TrimSpaceFacts(x);
  }

  lemma {:induction false} ExtrasReadBack(xs: seq<string>, st: Scan, p: Peer)
    requires forall x :: x in xs ==> PrintableExtra(x)
    requires st.section.PeerSection? && st.current == Some(p)
    ensures Reads(xs, st, st.(current := Some(p.(extra := p.extra + xs))))
  {
    hide FeedLines, PeerLine, PrintableExtra, TrimSpace, Header;
    if xs == [] {
      FeedNothing(st);
      assert p.extra + xs == p.extra;
    } else {
      assert PrintableExtra(xs[0]) by { assert xs[0] in xs; }
      ExtraReadsBack(p, xs[0]);
      var q := p.(extra := p.extra + [xs[0]]);
      var mid := st.(current := Some(q));
      ReadsOne(xs[0], st, mid);
      ExtrasReadBack(xs[1..], mid, q);
      assert q.extra + xs[1..] == p.extra + xs;
      ReadsChain([xs[0]], xs[1..], st, mid, st.(current := Some(p.(extra := p.extra + xs))));
      assert [xs[0]] + xs[1..] == xs;
    }
  }

  /** The effect of a managed assignment. */
  function Assigned(p: Peer, k: string, v: string): Peer {
    if k == "PublicKey" then p.(publicKey := v)
    else if k == "PresharedKey" then p.(presharedKey := v)
    else p.(allowedIPs := SplitCSV(v))
  }

  lemma ManagedKeys(k: string)
    requires k == "PublicKey" || k == "PresharedKey" || k == "AllowedIPs"
    ensures k != "" && Trimmed(k) && '=' !in k && k[0] != '#' && k[0] != '['
  {}

  lemma ManagedLine(p: Peer, k: string, v: string)
    requires k == "PublicKey" || k == "PresharedKey" || k == "AllowedIPs"
    requires Trimmed(v)
    ensures PeerLine(p, k + " = " + v) == Assigned(p, k, v)
    ensures Header(TrimSpace(k + " = " + v)).None?
  {
    hide TrimSpace, ParseAssignment, SplitCSV, Header, Trimmed;
    ManagedKeys(k);
    AssignmentReadsBack(k, v);
  }

  lemma ManagedReadsBack(st: Scan, p: Peer, k: string, v: string)
    requires st.section.PeerSection? && st.current == Some(p)
    requires k == "PublicKey" || k == "PresharedKey" || k == "AllowedIPs"
    requires Trimmed(v)
    ensures Reads([k + " = " + v], st, st.(current := Some(Assigned(p, k, v))))
  {
    ManagedLine(p, k, v);
    hide TrimSpace, PeerLine, Assigned, FeedLines, Reads, Header, Trimmed;
    ReadsOne(k + " = " + v, st, st.(current := Some(Assigned(p, k, v))));
  }

  const NewPeer := Peer("", "", [], [])

  lemma PeerHeaderReads(st: Scan)
    ensures Reads(["[Peer]"], st, Scan(PeerSection, st.iface, Flushed(st), Some(NewPeer)))
  {
    PeerHeader();
    ReadsOne("[Peer]", st, Scan(PeerSection, st.iface, Flushed(st), Some(NewPeer)));
  }

  function PskText(psk: string): seq<string> {
    if psk != "" then ["PresharedKey = " + psk] else []
  }

  lemma PskReadsBack(st: Scan, p: Peer, psk: string)
    requires st.section.PeerSection? && st.current == Some(p) && p.presharedKey == "" && Trimmed(psk)
    ensures Reads(PskText(psk), st, st.(current := Some(p.(presharedKey := psk))))
  {
    hide FeedLines;
    assert "PresharedKey" + " = " == "PresharedKey = ";
    if psk != "" { ManagedReadsBack(st, p, "PresharedKey", psk); } else { FeedNothing(st); }
  }

  lemma AllowedReadsBack(st: Scan, p: Peer, ips: seq<string>)
    requires st.section.PeerSection? && st.current == Some(p)
    requires forall x :: x in ips ==> CleanItem(x)
    ensures Reads(["AllowedIPs = " + Join(ips)], st, st.(current := Some(p.(allowedIPs := ips))))
  {
    hide Reads, Join, SplitCSV;
    assert "AllowedIPs" + " = " == "AllowedIPs = ";
    JoinFacts(ips);
    SplitOfJoin(ips);
    ManagedReadsBack(st, p, "AllowedIPs", Join(ips));
    assert Assigned(p, "AllowedIPs", Join(ips)) == p.(allowedIPs := ips);
  }

  lemma BlankReads(st: Scan)
    requires st.section.PeerSection?
    ensures Reads([""], st, st)
  {
    ReadsOne("", st, st);
  }

  /** A printed peer reads back as itself after the peers already read. */
  lemma PeerReadsBack(p: Peer, st: Scan)
    requires PrintablePeer(p)
    ensures Reads(PeerText(p), st, Scan(PeerSection, st.iface, Flushed(st), Some(p)))
  {
    hide Reads, Join, Flushed, Trimmed, PskText, CleanItem, PrintableExtra;
    var s0 := Scan(PeerSection, st.iface, Flushed(st), Some(NewPeer));
    var p1 := NewPeer.(publicKey := p.publicKey);
    var p2 := p1.(presharedKey := p.presharedKey);
    var p3 := p2.(allowedIPs := p.allowedIPs);
    var s1, s2, s3, s4 := s0.(current := Some(p1)), s0.(current := Some(p2)), s0.(current := Some(p3)), s0.(current := Some(p));
    PeerHeaderReads(st);
    assert "PublicKey" + " = " == "PublicKey = ";
    ManagedReadsBack(s0, NewPeer, "PublicKey", p.publicKey);
    PskReadsBack(s1, p1, p.presharedKey);
    AllowedReadsBack(s2, p2, p.allowedIPs);
    ExtrasReadBack(p.extra, s3, p3);
    assert p3.extra + p.extra == p.extra;
    BlankReads(s4);
    var a, b, c := ["[Peer]"], ["PublicKey = " + p.publicKey], ["AllowedIPs = " + Join(p.allowedIPs)];
    ReadsChain(a, b, st, s0, s1);
    ReadsChain(a + b, PskText(p.presharedKey), st, s1, s2);
    ReadsChain(a + b + PskText(p.presharedKey), c, st, s2, s3);
    ReadsChain(a + b + PskText(p.presharedKey) + c, p.extra, st, s3, s4);
    ReadsChain(a + b + PskText(p.presharedKey) + c + p.extra, [""], st, s4, s4);
    assert PeerText(p) == a + b + PskText(p.presharedKey) + c + p.extra + [""];
  }

  /** Printed peers read back in order after the peers already read. */
  lemma {:induction false} PeersReadBack(ps: seq<Peer>, st: Scan) returns (end: Scan)
    requires PrintablePeers(ps)
    ensures Reads(PeersText(ps), st, end) && end.iface == st.iface && Flushed(end) == Flushed(st) + ps
  {
    if ps == [] {
      end := st;
    } else {
      var mid := Scan(PeerSection, st.iface, Flushed(st), Some(ps[0]));
      PeerReadsBack(ps[0], st);
      end := PeersReadBack(ps[1..], mid);
      ReadsChain(PeerText(ps[0]), PeersText(ps[1..]), st, mid, end);
      assert Flushed(st) + [ps[0]] + ps[1..] == Flushed(st) + ps;
    }
  }

  lemma {:induction false} InterfaceReadsBack(ls: seq<InterfaceLine>, st: Scan)
    requires PrintableLines(ls) && st.section.InterfaceSection?
    ensures Reads(Raws(ls), st, st.(iface := st.iface + ls))
  {
    hide FeedLines, ParseAssignment, TrimSpace, Header;
    if ls == [] {
      FeedNothing(st);
      assert st.iface + ls == st.iface;
    } else {
      var mid := st.(iface := st.iface + [ls[0]]);
      assert PrintableLine(ls[0]);
      ReadsOne(ls[0].raw, st, mid);
      InterfaceReadsBack(ls[1..], mid);
      assert st.iface + [ls[0]] + ls[1..] == st.iface + ls;
      ReadsChain([ls[0].raw], Raws(ls[1..]), st, mid, st.(iface := st.iface + ls));
    }
  }

  const Blank := InterfaceLine("", "", "", false, false)

  /** The normal form that printing and parsing again leads to. */
  function Normal(c: ConfigData): ConfigData {
    ConfigData(TrimTrailing(c.iface) + [Blank], c.peers)
  }

  lemma InterfaceHeaderReads(s1: Scan, s2: Scan, s3: Scan)
    requires s1 == Scan(InterfaceSection, [], [], None)
    requires s2.section.InterfaceSection? && s3 == s2.(iface := s2.iface + [Blank])
    ensures Reads(["[Interface]"], StartScan, s1) && Reads([""], s2, s3)
  {
    hide FeedLines, Reads, Lower;
    InterfaceHeader();
    assert Flushed(StartScan) == [];
    ReadsOne("[Interface]", StartScan, s1);
    ReadsOne("", s2, s3);
  }

  lemma RenderLinesReadBack(c: ConfigData)
    requires PrintableLines(TrimTrailing(c.iface)) && PrintablePeers(c.peers)
    ensures FinishScan(FeedLines(RenderLines(c), StartScan, 0)) == Ok(Normal(c))
  {
    var kept := TrimTrailing(c.iface);
    var s1 := Scan(InterfaceSection, [], [], None);
    var s2 := s1.(iface := kept);
    var s3 := s1.(iface := kept + [Blank]);
    InterfaceHeaderReads(s1, s2, s3);
    hide FeedLine, PeersText, Raws, TrimTrailing, PrintablePeers, PrintableLines;
    InterfaceReadsBack(kept, s1);
    assert s1.iface + kept == kept;
    var end := PeersReadBack(c.peers, s3);
    ReadsChain(["[Interface]"], Raws(kept), StartScan, s1, s2);
    ReadsChain(["[Interface]"] + Raws(kept), [""], StartScan, s2, s3);
    ReadsChain(["[Interface]"] + Raws(kept) + [""], PeersText(c.peers), StartScan, s3, end);
    assert FeedLines(RenderLines(c), StartScan, 0) == Ok(end);
    assert Flushed(s3) + c.peers == c.peers;
  }

  lemma {:induction false} RawsOk(ls: seq<InterfaceLine>)
    requires PrintableLines(ls)
    ensures forall l :: l in Raws(ls) ==> LineOk(l)
  {
    if ls != [] { RawsOk(ls[1..]); }
  }

  lemma {:induction false} PeersTextOk(ps: seq<Peer>)
    requires PrintablePeers(ps)
    ensures forall l :: l in PeersText(ps) ==> LineOk(l)
  {
    if ps != [] {
      PeerTextOk(ps[0]);
      PeersTextOk(ps[1..]);
    }
  }

  lemma HeadsOk()
    ensures LineOk("[Peer]") && LineOk("PublicKey = ") && LineOk("PresharedKey = ") && LineOk("AllowedIPs = ")
    ensures LineOk("")
  {}

  lemma PeerTextOk(p: Peer)
    requires PrintablePeer(p)
    ensures forall l :: l in PeerText(p) ==> LineOk(l)
  {
    HeadsOk();
    hide Join, Trimmed, Header, ParseAssignment, LineOk;
    JoinFacts(p.allowedIPs);
    TokenLineOk("PublicKey = ", p.publicKey);
    TokenLineOk("PresharedKey = ", p.presharedKey);
    TokenLineOk("AllowedIPs = ", Join(p.allowedIPs));
    forall x | x in p.extra ensures LineOk(x) { TokenLineOk("", x); assert "" + x == x; }
  }

  lemma TokenLineOk(p: string, v: string)
    requires LineOk(p) && Token(v)
    ensures LineOk(p + v)
  {}

  /** Printing and parsing again yields the same peers and the same interface
      lines, up to blank lines at the end of the interface section. */
  lemma ParseOfRender(c: ConfigData)
    requires PrintableLines(TrimTrailing(c.iface)) && PrintablePeers(c.peers)
    ensures Parse(Render(c)) == Ok(Normal(c))
  {
    RawsOk(TrimTrailing(c.iface));
    PeersTextOk(c.peers);
    LinesOfUnlines(RenderLines(c));
    RenderLinesReadBack(c);
  }

  lemma {:induction false} TrimTrailingBlank(ls: seq<InterfaceLine>)
    ensures TrimTrailing(TrimTrailing(ls) + [Blank]) == TrimTrailing(ls)
  {
    var t := TrimTrailing(ls);
    assert (t + [Blank])[..|t|] == t;
    assert TrimTrailing(t) == t;
  }

  /** Printing again after a round trip gives the same text. */
  lemma RenderOfNormal(c: ConfigData)
    ensures Render(Normal(c)) == Render(c)
  {
    TrimTrailingBlank(c.iface);
  }

  /** A config is read back with its own peers and its own interface lines, up
      to trailing blank ones, exactly when every line and peer is printable. */
  lemma FaithfulIffPrintable(c: ConfigData)
    ensures (PrintableLines(TrimTrailing(c.iface)) && PrintablePeers(c.peers))
            <==> (var r := Parse(Render(c));
                  r.Ok? && r.value.peers == c.peers && TrimTrailing(r.value.iface) == TrimTrailing(c.iface))
  {
    if PrintableLines(TrimTrailing(c.iface)) && PrintablePeers(c.peers) {
      ParseOfRender(c);
      TrimTrailingBlank(c.iface);
    }
    ParsePrintable(Render(c));
  }

  // ----- Reading interface values -----

  /** Case folding as far as it can relate a character to an ASCII letter. */
  function FoldChar(c: char): char {
    if 'A' <= c <= 'Z' then (c as int + 32) as char
    else if c == '\U{017F}' then 's'
    else if c == '\U{212A}' then 'k'
    else c
  }

  function Fold(s: string): string {
    seq(|s|, i requires 0 <= i < |s| => FoldChar(s[i]))
  }

  predicate Matches(l: InterfaceLine, key: string) {
    l.hasKV && Fold(l.key) == Fold(key)
  }

  /** The value of the first line with that key, commented or not. */
  function FirstValue(ls: seq<InterfaceLine>, key: string): Option<string> {
    if ls == [] then None
    else if Matches(ls[0], key) then Some(ls[0].value)
    else FirstValue(ls[1..], key)
  }

  lemma {:induction false} FirstValuePrefix(a: seq<InterfaceLine>, b: seq<InterfaceLine>, key: string)
    requires forall i :: 0 <= i < |b| ==> !b[i].hasKV
    ensures FirstValue(a + b, key) == FirstValue(a, key)
  {
    if a == [] {
      assert a + b == b;
      if b != [] { FirstValuePrefix([], b[1..], key); assert [] + b[1..] == b[1..]; }
    } else {
      assert (a + b)[1..] == a[1..] + b;
      FirstValuePrefix(a[1..], b, key);
    }
  }

  lemma BlankHasNoValue(l: InterfaceLine)
    requires PrintableLine(l) && BlankLine(l)
    ensures !l.hasKV
  {}

  /** A round trip keeps the value of every interface key. */
  lemma NormalKeepsValues(c: ConfigData, key: string)
    requires PrintableLines(c.iface)
    ensures FirstValue(Normal(c).iface, key) == FirstValue(c.iface, key)
  {
    var t := TrimTrailing(c.iface);
    var rest := c.iface[|t|..];
    assert c.iface == t + rest;
    hide FirstValue, PrintableLine, BlankLine, TrimTrailing;
    forall i | 0 <= i < |rest| ensures !rest[i].hasKV {
      assert rest[i] == c.iface[|t| + i] && BlankLine(c.iface[|t| + i]);
      BlankHasNoValue(rest[i]);
    }
    FirstValuePrefix(t, rest, key);
    FirstValuePrefix(t, [Blank], key);
  }

  /** Every accepted text has a stable, value-preserving normal form. */
  lemma ParseRenderRoundTrip(input: string, key: string)
    requires Parse(input).Ok?
    ensures var c := Parse(input).value;
            var again := Parse(Render(c));
            && again.Ok? && again.value.peers == c.peers
            && TrimTrailing(again.value.iface) == TrimTrailing(c.iface)
            && FirstValue(again.value.iface, key) == FirstValue(c.iface, key)
            && Render(again.value) == Render(c)
  {
    var c := Parse(input).value;
    ParsePrintable(input);
    ParseOfRender(c);
    TrimTrailingBlank(c.iface);
    RenderOfNormal(c);
    NormalKeepsValues(c, key);
  }
}
