/**
 IP addresses and CIDR prefixes as the agent's standard library gives them.
 IPv4 text is modelled character by character; the reading of IPv6 address
 text is a parameter, so every law here holds for any such reader.
 */
module Netip {
  import opened Wrappers
  import opened Text

  datatype Family = V4 | V6

  datatype Addr = Addr(family: Family, value: nat)

  /** An address and the number of its leading bits that matter (RFC 4632, section 3.1). */
  datatype Prefix = Prefix(addr: Addr, bits: nat)

  /** Reads the text of an IPv6 address without a zone; None means malformed. */
  type V6Reader = string -> Option<nat>

  function Width(f: Family): nat {
    if f.V4? then 32 else 128
  }

  function Pow2(n: nat): (p: nat)
    ensures p > 0
  {
    if n == 0 then 1 else 2 * Pow2(n - 1)
  }

  predicate ValidAddr(a: Addr) {
    a.value < Pow2(Width(a.family))
  }

  predicate ValidPrefix(p: Prefix) {
    ValidAddr(p.addr) && p.bits <= Width(p.addr.family)
  }

  /** Number of addresses that share the prefix. */
  function Size(p: Prefix): nat
    requires ValidPrefix(p)
  {
    Pow2(Width(p.addr.family) - p.bits)
  }

  /** The address with its host bits cleared after the first n bits. */
  function Masked(a: Addr, n: nat): Addr
    requires n <= Width(a.family)
  {
    Addr(a.family, Floor(a.value, Pow2(Width(a.family) - n)))
  }

  /** The largest multiple of d that is at most x. */
  function Floor(x: nat, d: nat): nat
    requires d > 0
  {
    DivBounds(x, d);
    x / d * d
  }

  /** The addresses whose first bits agree with the prefix. */
  predicate Covers(p: Prefix, a: Addr)
    requires ValidPrefix(p)
  {
    a.family == p.addr.family && a.value / Size(p) == p.addr.value / Size(p)
  }

  /** The standard library's overlap test: compare at the shorter mask. */
  predicate Overlaps(p: Prefix, q: Prefix)
    requires ValidPrefix(p) && ValidPrefix(q)
  {
    || p == q
    || (&& p.addr.family == q.addr.family
        && var n := if p.bits < q.bits then p.bits else q.bits;
           n == 0 || Masked(p.addr, n) == Masked(q.addr, n))
  }

  // ----- Arithmetic of blocks -----

  lemma MulMono(a: int, b: int, d: nat)
    ensures a <= b ==> a * d <= b * d
  {}

  lemma MulAssoc(a: int, b: int, c: int)
    ensures (a * b) * c == a * (c * b)
  {}

  lemma DivUnique(x: nat, d: nat, q: int)
    requires d > 0 && q * d <= x < (q + 1) * d
    ensures x / d == q
  {
    DivBounds(x, d);
    MulMono(x / d + 1, q, d);
    MulMono(q + 1, x / d, d);
  }

  lemma DivBounds(x: nat, d: nat)
    requires d > 0
    ensures 0 <= x / d * d <= x < (x / d + 1) * d
  {
    MulMono(0, x / d, d);
  }

  lemma DivDiv(x: nat, d: nat, e: nat)
    requires d > 0 && e > 0 && d * e > 0
    ensures (x / d) / e == x / (d * e)
  {
    var y := x / d;
    var q := y / e;
    DivBounds(x, d);
    DivBounds(y, e);
    MulMono(q * e, y, d);
    MulMono(y + 1, (q + 1) * e, d);
    MulAssoc(q, e, d);
    MulAssoc(q + 1, e, d);
    DivUnique(x, d * e, q);
  }

  /** Two quotients agree exactly when the floors do. */
  lemma FloorAgrees(x: nat, y: nat, d: nat)
    requires d > 0
    ensures Floor(x, d) == Floor(y, d) <==> x / d == y / d
  {
    DivBounds(x, d);
    DivUnique(x, d, x / d);
    if Floor(x, d) == Floor(y, d) {
      DivBounds(y, d);
      MulMono(x / d + 1, y / d, d);
      MulMono(y / d + 1, x / d, d);
    }
  }

  /** y lies in the block of x exactly when it is less than d above x's floor. */
  lemma FloorBlock(x: nat, y: nat, d: nat)
    requires d > 0
    ensures Floor(x, d) <= y < Floor(x, d) + d <==> y / d == x / d
  {
    DivBounds(x, d);
    DivBounds(y, d);
    if Floor(x, d) <= y < Floor(x, d) + d { DivUnique(y, d, x / d); }
  }

  lemma {:induction false} Pow2Sum(m: nat, n: nat)
    ensures Pow2(m + n) == Pow2(m) * Pow2(n)
  {
    if n > 0 { Pow2Sum(m, n - 1); }
  }

  lemma Pow2Values()
    ensures Pow2(8) == 256 && Pow2(16) == 65536 && Pow2(32) == 4294967296
  {
    assert Pow2(2) == 4;
    Pow2Sum(2, 2);
    Pow2Sum(4, 4);
    Pow2Sum(8, 8);
    Pow2Sum(16, 16);
  }

  /** A prefix covers exactly an aligned range of Size addresses around its own. */
  lemma CoversIsRange(p: Prefix, a: Addr)
    requires ValidPrefix(p)
    ensures var lo := Masked(p.addr, p.bits).value;
            Covers(p, a) <==> a.family == p.addr.family && lo <= a.value < lo + Size(p)
  {
    FloorBlock(p.addr.value, a.value, Size(p));
  }

  /** Agreement at n bits implies agreement at fewer bits. */
  lemma CoarserAgrees(w: nat, m: nat, n: nat, x: nat, y: nat)
    requires m <= n <= w && x / Pow2(w - n) == y / Pow2(w - n)
    ensures x / Pow2(w - m) == y / Pow2(w - m)
  {
    var d, e := Pow2(w - n), Pow2(n - m);
    Pow2Sum(w - n, n - m);
    assert (w - n) + (n - m) == w - m;
    assert d * e > 0;
    DivDiv(x, d, e);
    DivDiv(y, d, e);
  }

  /** The shorter-mask test is exactly non-empty intersection of the two ranges. */
  lemma OverlapsIffShared(p: Prefix, q: Prefix)
    requires ValidPrefix(p) && ValidPrefix(q)
    ensures Overlaps(p, q) <==> exists a :: ValidAddr(a) && Covers(p, a) && Covers(q, a)
  {
    if p.bits <= q.bits { OverlapsOrdered(p, q); } else { OverlapsOrdered(q, p); }
  }

  lemma OverlapsOrdered(p: Prefix, q: Prefix)
    requires ValidPrefix(p) && ValidPrefix(q) && p.bits <= q.bits
    ensures Overlaps(p, q) <==> exists a :: ValidAddr(a) && Covers(p, a) && Covers(q, a)
    ensures Overlaps(q, p) <==> exists a :: ValidAddr(a) && Covers(p, a) && Covers(q, a)
  {
    hide Pow2, Floor;
    if p.addr.family == q.addr.family {
      var w := Width(p.addr.family);
      FloorAgrees(p.addr.value, q.addr.value, Pow2(w - p.bits));
      if p.bits == 0 {
        DivUnique(p.addr.value, Pow2(w), 0);
        DivUnique(q.addr.value, Pow2(w), 0);
      }
      assert Overlaps(p, q) <==> Covers(p, q.addr);
      assert Covers(q, q.addr);
      forall a | Covers(p, a) && Covers(q, a) ensures Covers(p, q.addr) {
        CoarserAgrees(w, p.bits, q.bits, a.value, q.addr.value);
      }
    }
  }

  // ----- Text -----

  /** Up to three decimal digits without a leading zero, at most 255. */
  function ParseOctet(s: string): Option<nat> {
    if 1 <= |s| && AllDigits(s) && (|s| == 1 || s[0] != '0') && DecValue(s) <= 255
    then Some(DecValue(s)) else None
  }

  /** The text before and after the first dot. */
  function CutDot(s: string): Option<(string, string)> {
    var i := IndexOf(s, '.');
    if i == |s| then None else Some((s[..i], s[i + 1..]))
  }

  function ParseIPv4(s: string): Option<nat> {
    match CutDot(s)
    case None => None
    case Some((a, t)) =>
      match CutDot(t)
      case None => None
      case Some((b, u)) =>
        match CutDot(u)
        case None => None
        case Some((c, d)) => Quad(ParseOctet(a), ParseOctet(b), ParseOctet(c), ParseOctet(d))
  }

  function Quad(a: Option<nat>, b: Option<nat>, c: Option<nat>, d: Option<nat>): Option<nat> {
    if a.Some? && b.Some? && c.Some? && d.Some?
    then Some(((a.value * 256 + b.value) * 256 + c.value) * 256 + d.value) else None
  }

  function FormatIPv4(v: nat): string
    requires v < 4294967296
  {
    Dec(v / 16777216) + "." + (Dec(v / 65536 % 256) + "." + (Dec(v / 256 % 256) + "." + Dec(v % 256)))
  }

  /** The kind of address is decided by the first dot, colon or percent sign. */
  function ParseAddr(v6: V6Reader, s: string): Option<Addr> {
    var dot, colon, percent := IndexOf(s, '.'), IndexOf(s, ':'), IndexOf(s, '%');
    if dot < colon && dot < percent then
      match ParseIPv4(s)
      case Some(v) => Some(Addr(V4, v))
      case None => None
    else if colon < dot && colon < percent then
      match v6(s)
      case Some(v) => if v < Pow2(128) then Some(Addr(V6, v)) else None
      case None => None
    else None
  }

  function LastIndexOf(s: string, c: char): int {
    if s == "" then -1 else if s[|s| - 1] == c then |s| - 1 else LastIndexOf(s[..|s| - 1], c)
  }

  lemma {:induction false} LastIndexOfFacts(s: string, c: char)
    ensures -1 <= LastIndexOf(s, c) < |s|
    ensures c in s <==> LastIndexOf(s, c) >= 0
  {
    if s != "" && s[|s| - 1] != c { LastIndexOfFacts(s[..|s| - 1], c); }
  }

  function ParsePrefix(v6: V6Reader, s: string): Option<Prefix> {
    LastIndexOfFacts(s, '/');
    var i := LastIndexOf(s, '/');
    if i < 0 then None else
    match ParseAddr(v6, s[..i])
    case None => None
    case Some(a) =>
      var b := s[i + 1..];
      if b != "" && AllDigits(b) && (|b| == 1 || b[0] != '0') && DecValue(b) <= Width(a.family)
      then Some(Prefix(a, DecValue(b))) else None
  }

  lemma ParsePrefixValid(v6: V6Reader, s: string)
    ensures ParsePrefix(v6, s).Some? ==> ValidPrefix(ParsePrefix(v6, s).value)
  {
    Pow2Values();
  }

  lemma OctetReadsBack(n: nat)
    requires n < 256
    ensures ParseOctet(Dec(n)) == Some(n)
    ensures '.' !in Dec(n) && ':' !in Dec(n) && '%' !in Dec(n) && '/' !in Dec(n)
  {
    DecReadsBack(n);
  }

  lemma CutDotAt(p: string, s: string)
    requires '.' !in p
    ensures CutDot(p + "." + s) == Some((p, s)) && CutDot(p + ("." + s)) == Some((p, s))
  {
    IndexOfAfter(p, '.', s);
    assert p + ("." + s) == p + "." + s;
  }

  /** Four dotted fields read back as the number they spell. */
  lemma QuadReadsBack(sa: string, sb: string, sc: string, sd: string)
    requires '.' !in sa && '.' !in sb && '.' !in sc
    ensures ParseIPv4(sa + "." + (sb + "." + (sc + "." + sd)))
            == Quad(ParseOctet(sa), ParseOctet(sb), ParseOctet(sc), ParseOctet(sd))
  {
    CutDotAt(sc, sd);
    CutDotAt(sb, sc + "." + sd);
    CutDotAt(sa, sb + "." + (sc + "." + sd));
  }

  lemma BaseDigits(v: nat)
    requires v < 4294967296
    ensures v / 16777216 < 256
    ensures (((v / 16777216) * 256 + v / 65536 % 256) * 256 + v / 256 % 256) * 256 + v % 256 == v
  {}

  lemma FieldsReadBack(a: nat, b: nat, c: nat, d: nat)
    requires a < 256 && b < 256 && c < 256 && d < 256
    ensures ParseIPv4(Dec(a) + "." + (Dec(b) + "." + (Dec(c) + "." + Dec(d))))
            == Quad(Some(a), Some(b), Some(c), Some(d))
  {
    OctetReadsBack(a);
    OctetReadsBack(b);
    OctetReadsBack(c);
    OctetReadsBack(d);
    QuadReadsBack(Dec(a), Dec(b), Dec(c), Dec(d));
  }

  /** Dotted-quad text reads back as the address it was printed from. */
  lemma IPv4ReadsBack(v: nat)
    requires v < 4294967296
    ensures ParseIPv4(FormatIPv4(v)) == Some(v)
  {
    hide ParseIPv4, Dec;
    BaseDigits(v);
    var a, b, c, d := v / 16777216, v / 65536 % 256, v / 256 % 256, v % 256;
    FieldsReadBack(a, b, c, d);
  }

  /** The last c of a concatenation whose right part is free of c. */
  lemma {:induction false} LastIndexBefore(s: string, c: char, d: string)
    requires c !in d
    ensures LastIndexOf(s + [c] + d, c) == |s|
  {
    var t := s + [c] + d;
    if d != "" {
      LastIndexBefore(s, c, d[..|d| - 1]);
      assert t[..|t| - 1] == s + [c] + d[..|d| - 1];
    }
  }

  /** Dotted-quad text with a mask length reads back as that prefix. */
  lemma PrefixReadsBack(v6: V6Reader, v: nat, bits: nat)
    requires v < 4294967296 && bits <= 32
    ensures ParsePrefix(v6, FormatIPv4(v) + "/" + Dec(bits)) == Some(Prefix(Addr(V4, v), bits))
    ensures CleanItem(FormatIPv4(v) + "/" + Dec(bits)) && '\n' !in FormatIPv4(v) + "/" + Dec(bits)
  {
    IPv4ReadsBack(v);
    FormatFacts(v);
    DecReadsBack(bits);
    hide FormatIPv4, Dec, ParseIPv4, DecValue, ParsePrefix, ParseAddr, LastIndexOf, CleanItem, DottedText;
    FormatHasDot(v);
    var s, d := FormatIPv4(v), Dec(bits);
    DottedIsV4(v6, s, v);
    SlashClean(s, d);
    var t := s + ['/'] + d;
    LastIndexBefore(s, '/', d);
    assert t[..|s|] == s && t[|s| + 1..] == d;
    PrefixOfParts(v6, t, |s|, Addr(V4, v));
  }

  lemma FormatHasDot(v: nat)
    requires v < 4294967296
    ensures var s := FormatIPv4(v); '.' in s && ':' !in s && '%' !in s && '/' !in s
  {
    FormatFacts(v);
    hide FormatIPv4;
  }

  lemma SlashClean(s: string, d: string)
    requires DottedText(s) && d != "" && AllDigits(d)
    ensures CleanItem(s + "/" + d) && '\n' !in s + "/" + d
  {
    var t := s + "/" + d;
    assert forall i :: 0 <= i < |t| ==> IsDigit(t[i]) || t[i] == '.' || t[i] == '/';
  }

  /** The text of one host route reads back as that address with all 32 bits. */
  lemma HostRouteReadsBack(v6: V6Reader, v: nat)
    requires v < 4294967296
    ensures ParsePrefix(v6, FormatIPv4(v) + "/32") == Some(Prefix(Addr(V4, v), 32))
    ensures CleanItem(FormatIPv4(v) + "/32") && '\n' !in FormatIPv4(v) + "/32"
  {
    hide FormatIPv4, ParsePrefix, Dec, CleanItem;
    PrefixReadsBack(v6, v, 32);
    ThirtyTwo();
    assert FormatIPv4(v) + "/" + "32" == FormatIPv4(v) + "/32";
  }

  lemma ThirtyTwo()
    ensures Dec(32) == "32"
  {
    assert Dec(3) == "3" && Dec(32) == Dec(3) + [DigitChar(2)];
  }

  lemma DottedIsV4(v6: V6Reader, s: string, v: nat)
    requires ParseIPv4(s) == Some(v) && '.' in s && ':' !in s && '%' !in s
    ensures ParseAddr(v6, s) == Some(Addr(V4, v))
  {
    IndexOfAbsent(s, ':');
    IndexOfAbsent(s, '%');
    assert s[..|s|] == s;
  }

  predicate DottedText(s: string) {
    && s != "" && IsDigit(s[0]) && '.' in s
    && forall i :: 0 <= i < |s| ==> IsDigit(s[i]) || s[i] == '.'
  }

  lemma PrefixOfParts(v6: V6Reader, s: string, i: nat, a: Addr)
    requires i < |s| && LastIndexOf(s, '/') == i && ParseAddr(v6, s[..i]) == Some(a)
    requires var b := s[i + 1..]; b != "" && AllDigits(b) && (|b| == 1 || b[0] != '0') && DecValue(b) <= Width(a.family)
    ensures ParsePrefix(v6, s) == Some(Prefix(a, DecValue(s[i + 1..])))
  {}

  /** Dotted-quad text consists of digits and dots and starts with a digit. */
  lemma FormatFacts(v: nat)
    requires v < 4294967296
    ensures DottedText(FormatIPv4(v))
  {
    var s := FormatIPv4(v);
    DecReadsBack(v / 16777216);
    DecReadsBack(v / 65536 % 256);
    DecReadsBack(v / 256 % 256);
    DecReadsBack(v % 256);
    assert s[|Dec(v / 16777216)|] == '.';
  }
}
