/**
 The sections of a configuration text: which texts are accepted, which line
 decides a value of the interface, and which lines make up each peer.
 */
module AwgSections {
  import opened Wrappers
  import opened Text
  import opened AwgConfig
  import opened AwgRules
  import opened AwgReading

  // ----- Headers -----

  /** The line is a section header with this name. */
  ghost predicate Heads(line: string, name: string) {
    Trimmed(name) && exists a, b, c, d :: HeadPieces(line, a, b, name, c, d)
  }

  predicate HeadPieces(line: string, a: string, b: string, name: string, c: string, d: string) {
    AllBlank(a) && AllBlank(b) && AllBlank(c) && AllBlank(d) && line == a + "[" + b + name + c + "]" + d
  }

  lemma HeadsIsRead(line: string, name: string)
    requires Heads(line, name)
    ensures Header(TrimSpace(line)) == Some(name)
  {
    hide Trimmed, TrimSpace, AllBlank;
    var a, b, c, d :| HeadPieces(line, a, b, name, c, d);
    var t := "[" + b + name + c + "]";
    BracketTrimmed(t);
    TrimPads(a, t, d);
    assert line == a + t + d;
    assert t[1..|t| - 1] == b + name + c;
    TrimPads(b, name, c);
  }

  lemma BracketTrimmed(t: string)
    requires t != "" && t[0] == '[' && t[|t| - 1] == ']'
    ensures Trimmed(t)
  {}

  lemma ReadIsHeaded(line: string)
    requires Header(TrimSpace(line)).Some?
    ensures Heads(line, Header(TrimSpace(line)).value)
  {
    hide Trimmed, TrimSpace, AllBlank;
    var t := TrimSpace(line);
    var a, d := TrimRest(line);
    var inner := t[1..|t| - 1];
    var b, c := TrimRest(inner);
    assert t == "[" + inner + "]";
    assert HeadPieces(line, a, b, TrimSpace(inner), c, d);
  }

  /** A letter in either case; two other characters fold to an ASCII letter. */
  predicate LetterOf(c: char, l: char) {
    c == l || c as int + 32 == l as int || (l == 'i' && c == '\U{0130}') || (l == 'k' && c == '\U{212A}')
  }

  predicate SameLetters(x: string, name: string) {
    |x| == |name| && forall i :: 0 <= i < |x| ==> LetterOf(x[i], name[i])
  }

  lemma LowerIs(x: string, name: string)
    requires forall i :: 0 <= i < |name| ==> 'a' <= name[i] <= 'z'
    ensures Lower(x) == name <==> SameLetters(x, name)
  {
    if Lower(x) == name {
      forall i | 0 <= i < |x| ensures LetterOf(x[i], name[i]) { assert Lower(x)[i] == name[i]; }
    }
    if SameLetters(x, name) {
      forall i | 0 <= i < |x| ensures Lower(x)[i] == name[i] { assert LetterOf(x[i], name[i]); }
    }
  }

  ghost predicate IsHead(line: string) {
    exists name :: Heads(line, name)
  }

  ghost predicate HeadsInterface(line: string) {
    exists name :: Heads(line, name) && SameLetters(name, "interface")
  }

  ghost predicate HeadsPeer(line: string) {
    exists name :: Heads(line, name) && SameLetters(name, "peer")
  }

  /** What the parser makes of a line's header is what the line says. */
  lemma HeadMeans(line: string)
    ensures var h := Header(TrimSpace(line));
            && (h.Some? <==> IsHead(line)) && (h.Some? ==> Heads(line, h.value))
            && (HeadsInterface(line) <==> h.Some? && Lower(h.value) == "interface")
            && (HeadsPeer(line) <==> h.Some? && Lower(h.value) == "peer")
            && !(HeadsInterface(line) && HeadsPeer(line))
  {
    hide Header, TrimSpace, Heads, Lower;
    forall name { LowerIs(name, "interface"); }
    forall name { LowerIs(name, "peer"); }
    forall name | Heads(line, name) ensures Header(TrimSpace(line)) == Some(name) { HeadsIsRead(line, name); }
    if Header(TrimSpace(line)).Some? { ReadIsHeaded(line); }
  }

  // ----- Sections -----

  /** The section that a line is in, by the last header before it. */
  ghost function SectionAt(ls: seq<string>, i: nat): Section
    requires i <= |ls|
  {
    if i == 0 then NoSection
    else if HeadsInterface(ls[i - 1]) then InterfaceSection
    else if HeadsPeer(ls[i - 1]) then PeerSection
    else SectionAt(ls, i - 1)
  }

  /** A line that no accepted text has: a header of another name, or something
      before the first header. */
  ghost predicate Bad(ls: seq<string>, i: nat)
    requires i < |ls|
  {
    if IsHead(ls[i]) then !HeadsInterface(ls[i]) && !HeadsPeer(ls[i])
    else SectionAt(ls, i).NoSection? && !AllBlank(ls[i])
  }

  ghost predicate InInterface(ls: seq<string>, i: nat) {
    i < |ls| && SectionAt(ls, i).InterfaceSection? && !IsHead(ls[i])
  }

  /** Where the section that begins at lo ends, among the first n lines. */
  ghost function SectionEnd(ls: seq<string>, lo: nat, n: nat): nat
    requires lo <= n <= |ls|
    decreases n - lo
  {
    if lo == n || IsHead(ls[lo]) then lo else SectionEnd(ls, lo + 1, n)
  }

  /** The peer headers among the first n lines. */
  ghost function PeerHeads(ls: seq<string>, n: nat): (r: seq<nat>)
    requires n <= |ls|
    ensures forall m :: 0 <= m < |r| ==> r[m] < n && HeadsPeer(ls[r[m]])
  {
    if n == 0 then []
    else if HeadsPeer(ls[n - 1]) then PeerHeads(ls, n - 1) + [n - 1]
    else PeerHeads(ls, n - 1)
  }

  /** The peer that these lines make. */
  ghost function PeerOver(ls: seq<string>, lo: nat, hi: nat): Peer
    requires lo <= hi <= |ls|
    decreases hi
  {
    if lo == hi then NewPeer else PeerLine(PeerOver(ls, lo, hi - 1), ls[hi - 1])
  }

  ghost function PeerAt(ls: seq<string>, head: nat, n: nat): Peer
    requires head < n <= |ls|
  {
    PeerOver(ls, head + 1, SectionEndOf(ls, head, n))
  }

  ghost function SectionEndOf(ls: seq<string>, head: nat, n: nat): (e: nat)
    requires head < n <= |ls|
    ensures head + 1 <= e <= n && (e < n ==> IsHead(ls[e])) && forall i :: head < i < e ==> !IsHead(ls[i])
  {
    SectionEndFacts(ls, head + 1, n);
    SectionEnd(ls, head + 1, n)
  }

  lemma {:induction false} SectionEndFacts(ls: seq<string>, lo: nat, n: nat)
    requires lo <= n <= |ls|
    ensures var e := SectionEnd(ls, lo, n); lo <= e <= n && (e < n ==> IsHead(ls[e])) && forall i :: lo <= i < e ==> !IsHead(ls[i])
    decreases n - lo
  {
    hide IsHead;
    if lo < n && !IsHead(ls[lo]) { SectionEndFacts(ls, lo + 1, n); }
  }

  /** There is only one such end. */
  lemma EndIs(ls: seq<string>, head: nat, n: nat, e: nat)
    requires head < e <= n <= |ls| && (e < n ==> IsHead(ls[e])) && forall i :: head < i < e ==> !IsHead(ls[i])
    ensures SectionEndOf(ls, head, n) == e
  {
    hide IsHead, SectionEnd;
    var f := SectionEndOf(ls, head, n);
  }

  // ----- The scan, line by line -----

  ghost function After(ls: seq<string>, n: nat): Result<Scan, ParseError>
    requires n <= |ls|
  {
    FeedLines(ls[..n], StartScan, 0)
  }

  lemma {:induction false} FeedError(a: seq<string>, b: seq<string>, st: Scan, n: nat)
    requires FeedLines(a, st, n).Err?
    ensures FeedLines(a + b, st, n) == FeedLines(a, st, n)
  {
    hide FeedLine;
    assert (a + b)[1..] == a[1..] + b && (a + b)[0] == a[0];
    if FeedLine(st, a[0], n + 1).Ok? { FeedError(a[1..], b, FeedLine(st, a[0], n + 1).value, n + 1); }
  }

  lemma AfterStep(ls: seq<string>, n: nat)
    requires n < |ls|
    ensures After(ls, n + 1) == match After(ls, n) case Ok(st) => FeedLine(st, ls[n], n + 1) case Err(e) => Err(e)
  {
    hide FeedLine;
    assert ls[..n + 1] == ls[..n] + [ls[n]];
    if After(ls, n).Ok? {
      FeedLinesAppend(ls[..n], [ls[n]], StartScan, 0);
      var st := After(ls, n).value;
      assert [ls[n]][1..] == [];
      assert FeedLines([ls[n]], st, n) == FeedLine(st, ls[n], n + 1);
    } else {
      FeedError(ls[..n], [ls[n]], StartScan, 0);
    }
  }

  /** The first offending line is the one that is reported. */
  ghost predicate Reports(ls: seq<string>, n: nat, e: ParseError) {
    match e
    case UnsupportedSection(name, lineNo) =>
      0 < lineNo <= n <= |ls| && Bad(ls, lineNo - 1) && Heads(ls[lineNo - 1], name) && forall j :: 0 <= j < lineNo - 1 ==> !Bad(ls, j)
    case BeforeSection(lineNo) =>
      0 < lineNo <= n <= |ls| && Bad(ls, lineNo - 1) && !IsHead(ls[lineNo - 1]) && forall j :: 0 <= j < lineNo - 1 ==> !Bad(ls, j)
    case MissingInterface => false
  }

  ghost predicate Scanned(ls: seq<string>, n: nat, st: Scan)
    requires n <= |ls|
  {
    && st.section == SectionAt(ls, n)
    && (st.section.PeerSection? <==> st.current.Some?)
    && PeersAre(ls, n, Flushed(st))
    && (st.section.PeerSection? ==> OpenPeer(ls, n))
    && (!st.section.PeerSection? ==> AllClosed(ls, n))
  }

  /** The peers are those of the peer headers so far, in order. */
  ghost predicate PeersAre(ls: seq<string>, n: nat, ps: seq<Peer>)
    requires n <= |ls|
  {
    |ps| == |PeerHeads(ls, n)| && forall m :: 0 <= m < |ps| ==> ps[m] == PeerAt(ls, PeerHeads(ls, n)[m], n)
  }

  /** The last peer's section goes on; all others have ended. */
  ghost predicate OpenPeer(ls: seq<string>, n: nat)
    requires n <= |ls|
  {
    var heads := PeerHeads(ls, n);
    && heads != [] && SectionEndOf(ls, heads[|heads| - 1], n) == n
    && forall m :: 0 <= m < |heads| - 1 ==> SectionEndOf(ls, heads[m], n) < n
  }

  ghost predicate AllClosed(ls: seq<string>, n: nat)
    requires n <= |ls|
  {
    forall m :: 0 <= m < |PeerHeads(ls, n)| ==> SectionEndOf(ls, PeerHeads(ls, n)[m], n) < n
  }

  lemma EndNext(ls: seq<string>, head: nat, n: nat)
    requires head < n < |ls|
    ensures SectionEndOf(ls, head, n + 1) ==
              if SectionEndOf(ls, head, n) < n || IsHead(ls[n]) then SectionEndOf(ls, head, n) else n + 1
  {
    hide IsHead, SectionEnd;
    EndIs(ls, head, n + 1, if SectionEndOf(ls, head, n) < n || IsHead(ls[n]) then SectionEndOf(ls, head, n) else n + 1);
  }

  lemma HeadsSame(ls: seq<string>, n: nat)
    requires n < |ls| && !HeadsPeer(ls[n])
    ensures PeerHeads(ls, n + 1) == PeerHeads(ls, n)
  {
    hide HeadsPeer;
  }

  /** Peers whose sections end where they did are as they were. */
  lemma PeersKept(ls: seq<string>, n: nat, ps: seq<Peer>)
    requires n < |ls| && PeersAre(ls, n, ps) && !HeadsPeer(ls[n]) && (IsHead(ls[n]) || AllClosed(ls, n))
    ensures PeersAre(ls, n + 1, ps) && AllClosed(ls, n + 1)
  {
    hide HeadsPeer, IsHead, PeerHeads;
    HeadsSame(ls, n);
    forall m | 0 <= m < |ps| ensures SectionEndOf(ls, PeerHeads(ls, n)[m], n + 1) == SectionEndOf(ls, PeerHeads(ls, n)[m], n) {
      EndNext(ls, PeerHeads(ls, n)[m], n);
    }
  }

  lemma PeerBegins(ls: seq<string>, n: nat, ps: seq<Peer>)
    requires n < |ls| && PeersAre(ls, n, ps) && HeadsPeer(ls[n]) && IsHead(ls[n])
    ensures PeersAre(ls, n + 1, ps + [NewPeer]) && OpenPeer(ls, n + 1)
  {
    hide HeadsPeer, IsHead;
    var heads := PeerHeads(ls, n);
    assert PeerHeads(ls, n + 1) == heads + [n];
    hide PeerHeads;
    EndIs(ls, n, n + 1, n + 1);
    forall m | 0 <= m < |ps| ensures SectionEndOf(ls, heads[m], n + 1) == SectionEndOf(ls, heads[m], n) {
      EndNext(ls, heads[m], n);
    }
  }

  lemma PeerGoesOn(ls: seq<string>, n: nat, ps: seq<Peer>, p: Peer)
    requires n < |ls| && PeersAre(ls, n, ps + [p]) && !IsHead(ls[n]) && !HeadsPeer(ls[n]) && OpenPeer(ls, n)
    ensures PeersAre(ls, n + 1, ps + [PeerLine(p, ls[n])]) && OpenPeer(ls, n + 1)
  {
    hide HeadsPeer, IsHead, PeerLine;
    HeadsSame(ls, n);
    hide PeerHeads;
    var heads := PeerHeads(ls, n);
    forall m | 0 <= m < |heads|
      ensures SectionEndOf(ls, heads[m], n + 1) == if m < |ps| then SectionEndOf(ls, heads[m], n) else n + 1
    {
      EndNext(ls, heads[m], n);
    }
    assert (ps + [p])[|ps|] == p;
  }

  /** What an error says of the line after the first n. */
  ghost predicate ErrorAt(ls: seq<string>, n: nat, e: ParseError)
    requires n < |ls|
  {
    match e
    case UnsupportedSection(name, lineNo) => lineNo == n + 1 && Heads(ls[n], name)
    case BeforeSection(lineNo) => lineNo == n + 1 && !IsHead(ls[n])
    case MissingInterface => false
  }

  lemma SectionNext(ls: seq<string>, n: nat)
    requires n < |ls|
    ensures SectionAt(ls, n + 1) ==
              if HeadsInterface(ls[n]) then InterfaceSection else if HeadsPeer(ls[n]) then PeerSection else SectionAt(ls, n)
  {
    hide HeadsInterface, HeadsPeer;
  }

  lemma ScanHead(ls: seq<string>, n: nat, st: Scan)
    requires n < |ls| && Scanned(ls, n, st) && IsHead(ls[n])
    ensures match FeedLine(st, ls[n], n + 1)
            case Ok(next) => !Bad(ls, n) && Scanned(ls, n + 1, next)
            case Err(e) => Bad(ls, n) && ErrorAt(ls, n, e)
  {
    OpenIffPeer(ls, n, st);
    HeadMeans(ls[n]);
    FeedMeans(st, ls[n], n + 1);
    hide Heads, HeadsPeer, HeadsInterface, IsHead, Header, TrimSpace, Lower, Scanned, FeedLine, SectionAt;
    if HeadsInterface(ls[n]) {
      ScanInterfaceHead(ls, n, st);
    } else if HeadsPeer(ls[n]) {
      ScanPeerHead(ls, n, st);
    }
  }

  lemma OpenIffPeer(ls: seq<string>, n: nat, st: Scan)
    requires n <= |ls| && Scanned(ls, n, st)
    ensures st.section.PeerSection? <==> st.current.Some?
  {
    hide PeersAre, OpenPeer, AllClosed, SectionAt;
  }

  lemma ScanInterfaceHead(ls: seq<string>, n: nat, st: Scan)
    requires n < |ls| && Scanned(ls, n, st) && IsHead(ls[n]) && HeadsInterface(ls[n]) && !HeadsPeer(ls[n])
    ensures Scanned(ls, n + 1, Scan(InterfaceSection, st.iface, Flushed(st), None))
  {
    SectionNext(ls, n);
    hide HeadsPeer, HeadsInterface, IsHead, PeersAre, OpenPeer, AllClosed, SectionAt;
    PeersKept(ls, n, Flushed(st));
    assert Flushed(st) + [] == Flushed(st);
  }

  lemma ScanPeerHead(ls: seq<string>, n: nat, st: Scan)
    requires n < |ls| && Scanned(ls, n, st) && IsHead(ls[n]) && HeadsPeer(ls[n]) && !HeadsInterface(ls[n])
    ensures Scanned(ls, n + 1, Scan(PeerSection, st.iface, Flushed(st), Some(NewPeer)))
  {
    SectionNext(ls, n);
    hide HeadsPeer, HeadsInterface, IsHead, PeersAre, OpenPeer, AllClosed, SectionAt;
    PeerBegins(ls, n, Flushed(st));
  }

  lemma ScanBody(ls: seq<string>, n: nat, st: Scan)
    requires n < |ls| && Scanned(ls, n, st) && !IsHead(ls[n])
    ensures match FeedLine(st, ls[n], n + 1)
            case Ok(next) => !Bad(ls, n) && Scanned(ls, n + 1, next)
            case Err(e) => Bad(ls, n) && ErrorAt(ls, n, e)
  {
    HeadMeans(ls[n]);
    BlankTrims(ls[n]);
    FeedMeans(st, ls[n], n + 1);
    SectionNext(ls, n);
    hide Heads, HeadsPeer, HeadsInterface, IsHead, Header, TrimSpace, Lower, PeersAre, OpenPeer, AllClosed, PeerLine, ReadInterfaceLine, FeedLine, PeerHeads, SectionAt;
    if st.section.PeerSection? {
      PeerGoesOn(ls, n, st.peers, st.current.value);
    } else {
      PeersKept(ls, n, Flushed(st));
    }
  }

  lemma ScanStep(ls: seq<string>, n: nat, st: Scan)
    requires n < |ls| && Scanned(ls, n, st)
    ensures match FeedLine(st, ls[n], n + 1)
            case Ok(next) => !Bad(ls, n) && Scanned(ls, n + 1, next)
            case Err(e) => Bad(ls, n) && ErrorAt(ls, n, e)
  {
    hide IsHead, Scanned, Bad, FeedLine, ErrorAt;
    if IsHead(ls[n]) { ScanHead(ls, n, st); } else { ScanBody(ls, n, st); }
  }

  /** What the parser does with one line, by its header and the section. */
  lemma FeedMeans(st: Scan, line: string, lineNo: nat)
    requires st.section.PeerSection? <==> st.current.Some?
    ensures var r := FeedLine(st, line, lineNo);
            match Header(TrimSpace(line))
            case Some(name) =>
              if Lower(name) == "interface" then r == Ok(Scan(InterfaceSection, st.iface, Flushed(st), None))
              else if Lower(name) == "peer" then r == Ok(Scan(PeerSection, st.iface, Flushed(st), Some(NewPeer)))
              else r == Err(UnsupportedSection(name, lineNo))
            case None =>
              if st.section.InterfaceSection? then r == Ok(st.(iface := st.iface + [ReadInterfaceLine(line)]))
              else if st.section.PeerSection? then r == Ok(st.(current := Some(PeerLine(st.current.value, line))))
              else if TrimSpace(line) == "" then r == Ok(st) else r == Err(BeforeSection(lineNo))
  {
    hide Header, TrimSpace, Lower, PeerLine, ReadInterfaceLine;
  }

  lemma ScanStart(ls: seq<string>)
    ensures After(ls, 0) == Ok(StartScan) && Scanned(ls, 0, StartScan)
  {
    assert ls[..0] == [];
  }

  lemma {:induction false} ScanAll(ls: seq<string>, n: nat)
    requires n <= |ls|
    ensures match After(ls, n)
            case Ok(st) => Scanned(ls, n, st) && forall j :: 0 <= j < n ==> !Bad(ls, j)
            case Err(e) => Reports(ls, n, e)
  {
    hide Scanned, Bad, Heads, IsHead, FeedLine;
    if n == 0 {
      ScanStart(ls);
    } else {
      ScanAll(ls, n - 1);
      AfterStep(ls, n - 1);
      hide After;
      if After(ls, n - 1).Ok? { ScanStep(ls, n - 1, After(ls, n - 1).value); }
    }
  }

  // ----- Values of the interface -----

  /** The two cases of an ASCII letter, and the two other characters that fold to
      one, are the same. */
  predicate SameChar(c: char, d: char) {
    || c == d
    || ('A' <= c <= 'Z' && d as int == c as int + 32) || ('A' <= d <= 'Z' && c as int == d as int + 32)
    || (c in "Ss\U{017F}" && d in "Ss\U{017F}") || (c in "Kk\U{212A}" && d in "Kk\U{212A}")
  }

  predicate SameKey(a: string, b: string) {
    |a| == |b| && forall i :: 0 <= i < |a| ==> SameChar(a[i], b[i])
  }

  lemma FoldSame(a: string, b: string)
    ensures Fold(a) == Fold(b) <==> SameKey(a, b)
  {
    forall c, d ensures FoldChar(c) == FoldChar(d) <==> SameChar(c, d) { CharsFold(c, d); }
    hide FoldChar, SameChar;
    if Fold(a) == Fold(b) {
      assert |Fold(a)| == |a| && |Fold(b)| == |b|;
      forall i | 0 <= i < |a| ensures SameChar(a[i], b[i]) { assert Fold(a)[i] == Fold(b)[i]; }
    }
  }

  lemma CharsFold(c: char, d: char)
    ensures FoldChar(c) == FoldChar(d) <==> SameChar(c, d)
  {}

  /** The line is in the interface section and assigns v to the key, commented
      or not. */
  ghost predicate Assigns(ls: seq<string>, i: nat, key: string, v: string) {
    InInterface(ls, i) && exists k, commented :: Says(ls[i], k, v, commented) && SameKey(k, key)
  }

  ghost predicate AssignsAny(ls: seq<string>, i: nat, key: string) {
    exists v :: Assigns(ls, i, key, v)
  }

  /** Among the first n lines, the first that assigns to the key assigns v. */
  ghost predicate Decides(ls: seq<string>, n: nat, key: string, v: string) {
    exists i: nat :: i < n && Assigns(ls, i, key, v) && forall j: nat :: j < i ==> !AssignsAny(ls, j, key)
  }

  lemma MatchesSays(line: string, key: string)
    ensures var l := ReadInterfaceLine(line);
            && (Matches(l, key) ==> exists k, commented :: Says(line, k, l.value, commented) && SameKey(k, key))
            && (forall k, v, commented :: Says(line, k, v, commented) && SameKey(k, key) ==> Matches(l, key) && l.value == v)
  {
    hide ParseAssignment, Says, SameKey;
    forall k { FoldSame(k, key); }
    hide Fold;
    var a := ParseAssignment(line);
    forall k, v, commented | Says(line, k, v, commented) ensures a == Assignment(k, v, commented, true) { SaysIsRead(line, k, v, commented); }
    if a.ok { ReadIsSaid(line); }
  }

  lemma {:induction false} FirstValueSnoc(ls: seq<InterfaceLine>, l: InterfaceLine, key: string)
    ensures FirstValue(ls + [l], key) ==
              if FirstValue(ls, key).Some? then FirstValue(ls, key) else if Matches(l, key) then Some(l.value) else None
  {
    hide Matches;
    if ls == [] {
      assert ls + [l] == [l] && [l][1..] == [];
    } else {
      assert (ls + [l])[1..] == ls[1..] + [l];
      FirstValueSnoc(ls[1..], l, key);
    }
  }

  ghost predicate Valued(ls: seq<string>, n: nat, key: string, value: Option<string>) {
    && (forall v :: value == Some(v) <==> Decides(ls, n, key, v))
    && (value.None? ==> forall j: nat :: j < n ==> !AssignsAny(ls, j, key))
  }

  lemma ValueStep(ls: seq<string>, n: nat, key: string, value: Option<string>)
    requires Valued(ls, n, key, value)
    ensures value.Some? ==> Valued(ls, n + 1, key, value)
    ensures value.None? && !AssignsAny(ls, n, key) ==> Valued(ls, n + 1, key, None)
    ensures forall v :: value.None? && Assigns(ls, n, key, v) && (forall u :: Assigns(ls, n, key, u) ==> u == v) ==> Valued(ls, n + 1, key, Some(v))
  {
    hide Assigns;
    if value.Some? {
      var i: nat :| i < n && Assigns(ls, i, key, value.value) && forall j: nat :: j < i ==> !AssignsAny(ls, j, key);
      assert Decides(ls, n + 1, key, value.value);
      var next := n + 1;
      forall v | Decides(ls, next, key, v) ensures v == value.value {
        var m: nat :| m < next && Assigns(ls, m, key, v) && forall j: nat :: j < m ==> !AssignsAny(ls, j, key);
        assert AssignsAny(ls, m, key) && AssignsAny(ls, i, key);
        assert m == i;
        assert Decides(ls, n, key, v);
      }
    }
  }

  lemma IfaceStep(ls: seq<string>, n: nat)
    requires n < |ls| && After(ls, n + 1).Ok?
    ensures After(ls, n).Ok?
    ensures var iface := After(ls, n).value.iface;
            After(ls, n + 1).value.iface == if InInterface(ls, n) then iface + [ReadInterfaceLine(ls[n])] else iface
  {
    AfterStep(ls, n);
    ScanAll(ls, n);
    hide After, Bad, Reports;
    if After(ls, n).Ok? {
      var st := After(ls, n).value;
      HeadMeans(ls[n]);
      FeedMeans(st, ls[n], n + 1);
      hide FeedLine, Header, Heads, HeadsPeer, HeadsInterface, IsHead, TrimSpace, Lower, PeersAre, OpenPeer, AllClosed, PeerLine, ReadInterfaceLine, SectionAt;
    }
  }

  lemma NoValues(ls: seq<string>, key: string)
    ensures Valued(ls, 0, key, None)
  {}

  lemma {:induction false} ValuesAll(ls: seq<string>, n: nat, key: string)
    requires n <= |ls| && After(ls, n).Ok?
    ensures Valued(ls, n, key, FirstValue(After(ls, n).value.iface, key))
  {
    if n == 0 {
      ScanStart(ls);
      NoValues(ls, key);
    } else {
      var i := n - 1;
      IfaceStep(ls, i);
      ValuesAll(ls, i, key);
      var iface := After(ls, i).value.iface;
      hide After;
      ValueStep(ls, i, key, FirstValue(iface, key));
      LineAssigns(ls, i, key);
      hide Valued, FirstValue, Matches, ReadInterfaceLine, InInterface, Assigns, AssignsAny;
      FirstValueSnoc(iface, ReadInterfaceLine(ls[i]), key);
    }
  }

  /** What one line of the interface section assigns. */
  lemma LineAssigns(ls: seq<string>, i: nat, key: string)
    requires i < |ls|
    ensures var l := ReadInterfaceLine(ls[i]);
            && (InInterface(ls, i) && Matches(l, key) ==> Assigns(ls, i, key, l.value) && forall u :: Assigns(ls, i, key, u) ==> u == l.value)
            && (!InInterface(ls, i) || !Matches(l, key) ==> !AssignsAny(ls, i, key))
  {
    MatchesSays(ls[i], key);
    hide Matches, ReadInterfaceLine, Says, SameKey, InInterface;
  }

  lemma {:induction false} IfaceAny(ls: seq<string>, n: nat)
    requires n <= |ls| && After(ls, n).Ok?
    ensures After(ls, n).value.iface == [] <==> forall j: nat :: j < n ==> !InInterface(ls, j)
  {
    if n == 0 {
      ScanStart(ls);
    } else {
      IfaceStep(ls, n - 1);
      IfaceAny(ls, n - 1);
      hide After, ReadInterfaceLine, InInterface;
    }
  }

  // ----- Peers -----

  datatype Field = KeyField | PskField | IpField

  /** The names of a field; one field has two. */
  predicate Names(k: string, f: Field) {
    match f
    case KeyField => k == "PublicKey"
    case PskField => k == "PresharedKey" || k == "PreSharedKey"
    case IpField => k == "AllowedIPs"
  }

  /** The line assigns v to the field, and not behind a comment mark. */
  ghost predicate Gives(line: string, f: Field, v: string) {
    exists k :: Names(k, f) && Says(line, k, v, false)
  }

  ghost predicate GivesAny(line: string, f: Field) {
    exists v :: Gives(line, f, v)
  }

  /** A blank line, or one that gives a field. */
  ghost predicate Taken(line: string) {
    AllBlank(line) || GivesAny(line, KeyField) || GivesAny(line, PskField) || GivesAny(line, IpField)
  }

  /** The last of the lines from lo up to hi that gives the field
      gives v. */
  ghost predicate Last(ls: seq<string>, lo: nat, hi: nat, f: Field, v: string) {
    exists i: nat :: lo <= i < hi && i < |ls| && Gives(ls[i], f, v) && forall j: nat :: i < j < hi && j < |ls| ==> !GivesAny(ls[j], f)
  }

  ghost predicate NoneGives(ls: seq<string>, lo: nat, hi: nat, f: Field) {
    forall j: nat :: lo <= j < hi && j < |ls| ==> !GivesAny(ls[j], f)
  }

  /** The field holds the last value given, or its first value if none is. */
  ghost predicate Holds(ls: seq<string>, lo: nat, hi: nat, f: Field, value: string) {
    Last(ls, lo, hi, f, value) || (NoneGives(ls, lo, hi, f) && value == "")
  }

  /** All other lines that are not blank, without the blanks around them. */
  ghost function Others(ls: seq<string>, lo: nat, hi: nat): seq<string>
    requires lo <= hi <= |ls|
    decreases hi
  {
    if lo == hi then []
    else
      var line := ls[hi - 1];
      Others(ls, lo, hi - 1)
      + if Taken(line) then [] else [TrimSpace(line)]
  }

  /** The peer's fields are what the lines say. */
  ghost predicate PeerSays(ls: seq<string>, lo: nat, hi: nat, p: Peer)
    requires lo <= hi <= |ls|
  {
    && Holds(ls, lo, hi, KeyField, p.publicKey) && Holds(ls, lo, hi, PskField, p.presharedKey)
    && (exists v :: Holds(ls, lo, hi, IpField, v) && p.allowedIPs == SplitCSV(v))
    && p.extra == Others(ls, lo, hi)
  }

  /** What one line does to a peer. */
  lemma PeerLineMeans(p: Peer, line: string)
    ensures var q := PeerLine(p, line);
            && (forall v :: Gives(line, KeyField, v) ==> q == p.(publicKey := v))
            && (forall v :: Gives(line, PskField, v) ==> q == p.(presharedKey := v))
            && (forall v :: Gives(line, IpField, v) ==> q == p.(allowedIPs := SplitCSV(v)))
            && (AllBlank(line) ==> q == p)
            && (!AllBlank(line) && !GivesAny(line, KeyField) && !GivesAny(line, PskField) && !GivesAny(line, IpField) ==>
                  q == p.(extra := p.extra + [TrimSpace(line)]))
  {
    BlankTrims(line);
    MarkIsNoted(line);
    hide ParseAssignment, Says, TrimSpace, SplitCSV;
    var a := ParseAssignment(line);
    forall k, v | Says(line, k, v, false) ensures a == Assignment(k, v, false, true) { SaysIsRead(line, k, v, false); }
    if a.ok { ReadIsSaid(line); }
    BlankSaysNothing(line);
    assert a.ok && !a.commented ==> Says(line, a.key, a.value, false);
    assert a.ok && !a.commented && Names(a.key, KeyField) ==> Gives(line, KeyField, a.value);
    assert a.ok && !a.commented && Names(a.key, PskField) ==> Gives(line, PskField, a.value);
    assert a.ok && !a.commented && Names(a.key, IpField) ==> Gives(line, IpField, a.value);
  }

  lemma BlankSaysNothing(line: string)
    ensures TrimSpace(line) == "" ==> !ParseAssignment(line).ok
  {}

  /** A line that gives one of the fields gives no other. */
  lemma GivesOne(line: string)
    ensures !(GivesAny(line, KeyField) && GivesAny(line, PskField))
    ensures !(GivesAny(line, KeyField) && GivesAny(line, IpField)) && !(GivesAny(line, PskField) && GivesAny(line, IpField))
    ensures AllBlank(line) ==> !GivesAny(line, KeyField) && !GivesAny(line, PskField) && !GivesAny(line, IpField)
  {
    BlankTrims(line);
    BlankSaysNothing(line);
    hide Says, ParseAssignment, TrimSpace;
    forall k, v | Says(line, k, v, false) ensures ParseAssignment(line) == Assignment(k, v, false, true) { SaysIsRead(line, k, v, false); }
  }

  /** One more line, which gives the field this value or leaves it. */
  lemma HoldsStep(ls: seq<string>, lo: nat, hi: nat, f: Field, value: string, next: string)
    requires lo <= hi < |ls| && Holds(ls, lo, hi, f, value)
    requires if GivesAny(ls[hi], f) then Gives(ls[hi], f, next) else next == value
    ensures Holds(ls, lo, hi + 1, f, next)
  {
    hide Gives;
    if GivesAny(ls[hi], f) {
      assert Last(ls, lo, hi + 1, f, next);
    } else if Last(ls, lo, hi, f, value) {
      var i: nat :| lo <= i < hi && i < |ls| && Gives(ls[i], f, value) && forall j: nat :: i < j < hi && j < |ls| ==> !GivesAny(ls[j], f);
      assert Last(ls, lo, hi + 1, f, next);
    }
  }

  /** The fields after one more line. */
  lemma FieldsNext(p: Peer, line: string)
    ensures var q := PeerLine(p, line);
            && (if GivesAny(line, KeyField) then Gives(line, KeyField, q.publicKey) else q.publicKey == p.publicKey)
            && (if GivesAny(line, PskField) then Gives(line, PskField, q.presharedKey) else q.presharedKey == p.presharedKey)
            && (if GivesAny(line, IpField) then exists v :: Gives(line, IpField, v) && q.allowedIPs == SplitCSV(v)
                else q.allowedIPs == p.allowedIPs)
            && q.extra == p.extra + if Taken(line) then [] else [TrimSpace(line)]
  {
    PeerLineMeans(p, line);
    GivesOne(line);
    hide Gives, PeerLine, SplitCSV, TrimSpace, AllBlank;
    assert p.extra + [] == p.extra;
  }

  lemma OthersNext(ls: seq<string>, lo: nat, hi: nat)
    requires lo <= hi < |ls|
    ensures Others(ls, lo, hi + 1) == Others(ls, lo, hi) + if Taken(ls[hi]) then [] else [TrimSpace(ls[hi])]
  {
    hide Taken, TrimSpace;
  }

  lemma PeerNext(ls: seq<string>, lo: nat, hi: nat, p: Peer)
    requires lo <= hi < |ls| && PeerSays(ls, lo, hi, p)
    ensures PeerSays(ls, lo, hi + 1, PeerLine(p, ls[hi]))
  {
    FieldsNext(p, ls[hi]);
    OthersNext(ls, lo, hi);
    hide Gives, GivesAny, Holds, PeerLine, SplitCSV, TrimSpace, Taken, Others;
    var q := PeerLine(p, ls[hi]);
    HoldsStep(ls, lo, hi, KeyField, p.publicKey, q.publicKey);
    HoldsStep(ls, lo, hi, PskField, p.presharedKey, q.presharedKey);
    var v :| Holds(ls, lo, hi, IpField, v) && p.allowedIPs == SplitCSV(v);
    var u := v;
    if GivesAny(ls[hi], IpField) { u :| Gives(ls[hi], IpField, u) && q.allowedIPs == SplitCSV(u); }
    HoldsStep(ls, lo, hi, IpField, v, u);
  }

  lemma {:induction false} PeerOverSays(ls: seq<string>, lo: nat, hi: nat)
    requires lo <= hi <= |ls|
    ensures PeerSays(ls, lo, hi, PeerOver(ls, lo, hi))
    decreases hi
  {
    hide PeerSays, PeerLine, Others;
    if lo == hi {
      NothingGiven(ls, lo);
    } else {
      PeerOverSays(ls, lo, hi - 1);
      PeerNext(ls, lo, hi - 1, PeerOver(ls, lo, hi - 1));
    }
  }

  lemma NothingGiven(ls: seq<string>, lo: nat)
    requires lo <= |ls|
    ensures PeerSays(ls, lo, lo, NewPeer)
  {
    hide Gives;
    BlankTrims("");
    assert Holds(ls, lo, lo, IpField, "") && IndexOf("", ',') == 0 && ""[..0] == "";
  }

  // ----- Texts -----

  /** A text is accepted exactly if no line of it is bad and some line is in an
      interface section; otherwise the first bad line is reported. */
  lemma AcceptedIff(input: string)
    ensures var ls, r := Lines(input), Parse(input);
            && (r.Ok? <==> (forall i: nat :: i < |ls| ==> !Bad(ls, i)) && exists i: nat :: InInterface(ls, i))
            && (r.Err? ==> r.error.MissingInterface? || Reports(ls, |ls|, r.error))
            && (r.Err? && r.error.MissingInterface? ==> forall i: nat :: !InInterface(ls, i))
  {
    var ls := Lines(input);
    ScanAll(ls, |ls|);
    assert ls[..|ls|] == ls;
    if After(ls, |ls|).Ok? { IfaceAny(ls, |ls|); }
    hide Bad, InInterface, FeedLines, Scanned, Heads, IsHead;
  }

  /** The value of an interface key is that of the first line in an interface
      section that assigns to it, in either case and commented or not; there is
      none if no such line does. */
  lemma ValueIsSaid(input: string, key: string)
    requires Parse(input).Ok?
    ensures var ls, value := Lines(input), FirstValue(Parse(input).value.iface, key);
            && (forall v :: value == Some(v) <==> Decides(ls, |ls|, key, v))
            && (value.None? <==> forall i: nat :: !AssignsAny(ls, i, key))
  {
    var ls := Lines(input);
    assert ls[..|ls|] == ls;
    ValuesAll(ls, |ls|, key);
    hide FeedLines, FirstValue, Assigns;
    var value := FirstValue(Parse(input).value.iface, key);
    AssignsWithin(ls, key);
    if value.Some? {
      assert Decides(ls, |ls|, key, value.value);
      var i: nat :| i < |ls| && Assigns(ls, i, key, value.value);
      assert AssignsAny(ls, i, key);
    }
  }

  lemma AssignsWithin(ls: seq<string>, key: string)
    ensures forall i: nat :: AssignsAny(ls, i, key) ==> i < |ls|
  {
    hide Says;
  }

  /** An accepted text has one peer for each peer header, in order, and each is
      what the lines up to the next header say: every field holds the last value
      given to it, the pre-shared key under either spelling, and the other lines
      that are not blank are kept in order. */
  lemma PeersAreSaid(input: string)
    requires Parse(input).Ok?
    ensures var ls, ps := Lines(input), Parse(input).value.peers; var heads := PeerHeads(ls, |ls|);
            && |ps| == |heads|
            && forall m :: 0 <= m < |ps| ==> PeerSays(ls, heads[m] + 1, SectionEndOf(ls, heads[m], |ls|), ps[m])
  {
    PeersOfText(input);
    hide Parse, PeerSays, PeerHeads, SectionEndOf, PeerOver;
    var ls := Lines(input);
    var ps, heads := Parse(input).value.peers, PeerHeads(ls, |ls|);
    forall m | 0 <= m < |ps| ensures PeerSays(ls, heads[m] + 1, SectionEndOf(ls, heads[m], |ls|), ps[m]) {
      PeerOverSays(ls, heads[m] + 1, SectionEndOf(ls, heads[m], |ls|));
    }
  }

  lemma PeersOfText(input: string)
    requires Parse(input).Ok?
    ensures PeersAre(Lines(input), |Lines(input)|, Parse(input).value.peers)
  {
    var ls := Lines(input);
    ScanAll(ls, |ls|);
    assert ls[..|ls|] == ls;
    hide FeedLines, PeersAre, SectionAt, OpenPeer, AllClosed, Bad;
  }

  // ----- Settings of the interface -----

  /** The first item of a comma list, without the blanks around it; None if it
      is blank. */
  ghost predicate FirstItem(v: string, item: Option<string>) {
    exists head, rest :: Split(v, head, rest) && Blanked(head, item)
  }

  predicate Split(v: string, head: string, rest: string) {
    ',' !in head && (v == head || v == head + "," + rest)
  }

  ghost predicate Blanked(head: string, item: Option<string>) {
    match item
    case None => AllBlank(head)
    case Some(x) => x != "" && Trimmed(x) && exists a, e :: Around(head, a, x, e)
  }

  predicate Around(head: string, a: string, x: string, e: string) {
    AllBlank(a) && AllBlank(e) && head == a + x + e
  }

  lemma ItemFound(v: string)
    ensures var t := TrimSpace(v[..IndexOf(v, ',')]); FirstItem(v, if t == "" then None else Some(t))
  {
    hide TrimSpace, IndexOf, Trimmed, IsSpace;
    var i := IndexOf(v, ',');
    var head := v[..i];
    var rest := if i < |v| then v[i + 1..] else "";
    var a, e := TrimRest(head);
    BlankTrims(head);
    assert Split(v, head, rest);
    assert Around(head, a, TrimSpace(head), e);
  }

  /** In an accepted text, the listening port is the value decided for its key,
      or empty, and the interface's address is the first item of the value
      decided for its key, if that is not blank. */
  lemma SettingsAreSaid(input: string)
    requires Parse(input).Ok?
    ensures var ls, c := Lines(input), Parse(input).value;
            && (forall v :: Decides(ls, |ls|, "ListenPort", v) ==> ListenPort(c) == v)
            && ((forall i: nat :: !AssignsAny(ls, i, "ListenPort")) ==> ListenPort(c) == "")
            && (forall v :: Decides(ls, |ls|, "Address", v) ==> FirstItem(v, InterfaceAddress(c)))
            && ((forall i: nat :: !AssignsAny(ls, i, "Address")) ==> InterfaceAddress(c).None?)
  {
    ValueIsSaid(input, "ListenPort");
    ValueIsSaid(input, "Address");
    forall v { ItemFound(v); }
    hide Parse, Decides, AssignsAny, FirstItem, FirstValue, TrimSpace, IndexOf;
  }
}
