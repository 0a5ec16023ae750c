/**
 The string operations the agent builds on: white-space trimming, line
 scanning, comma lists and decimal numerals, with the inverse laws that the
 parser and printer need.
 */
module Text {
  import opened Wrappers

  // ----- White space -----

  /** White space as the Unicode property used by the agent's trimming. */
  predicate IsSpace(c: char) {
    var n := c as int;
    || 0x09 <= n <= 0x0D || n == 0x20 || n == 0x85 || n == 0xA0 || n == 0x1680
    || 0x2000 <= n <= 0x200A || n == 0x2028 || n == 0x2029 || n == 0x202F
    || n == 0x205F || n == 0x3000
  }

  function TrimLeft(s: string): string {
    if s != "" && IsSpace(s[0]) then TrimLeft(s[1..]) else s
  }

  function TrimRight(s: string): string {
    if s != "" && IsSpace(s[|s| - 1]) then TrimRight(s[..|s| - 1]) else s
  }

  function TrimSpace(s: string): string {
    TrimRight(TrimLeft(s))
  }

  predicate Trimmed(s: string) {
    s == "" || (!IsSpace(s[0]) && !IsSpace(s[|s| - 1]))
  }

  lemma {:induction false} TrimLeftSlice(s: string) returns (i: nat)
    ensures i <= |s| && TrimLeft(s) == s[i..]
    ensures TrimLeft(s) != "" ==> !IsSpace(TrimLeft(s)[0])
  {
    if s != "" && IsSpace(s[0]) {
      var j := TrimLeftSlice(s[1..]);
      i := j + 1;
      assert s[1..][j..] == s[i..];
    } else {
      i := 0;
    }
  }

  lemma {:induction false} TrimRightSlice(s: string) returns (j: nat)
    ensures j <= |s| && TrimRight(s) == s[..j]
    ensures TrimRight(s) != "" ==> !IsSpace(s[j - 1])
  {
    if s != "" && IsSpace(s[|s| - 1]) {
      j := TrimRightSlice(s[..|s| - 1]);
      assert s[..|s| - 1][..j] == s[..j];
    } else {
      j := |s|;
    }
  }

  /** Trimming yields a trimmed slice of its argument, and fixes trimmed text. */
  lemma TrimSpaceFacts(s: string)
    ensures Trimmed(TrimSpace(s))
    ensures forall c :: c in TrimSpace(s) ==> c in s
    ensures Trimmed(s) ==> TrimSpace(s) == s
  {
    var i := TrimLeftSlice(s);
    var t := TrimLeft(s);
    var j := TrimRightSlice(t);
    assert TrimSpace(s) == s[i..][..j];
  }

  /** One leading blank disappears. */
  lemma TrimSpaceSkipsLead(c: char, s: string)
    requires IsSpace(c)
    ensures TrimSpace([c] + s) == TrimSpace(s)
  {
    assert ([c] + s)[1..] == s;
  }

  /** A text that is only white space trims to nothing, and conversely. */
  lemma {:induction false} BlankTrims(s: string)
    ensures TrimSpace(s) == "" <==> forall c :: c in s ==> IsSpace(c)
  {
    if forall c :: c in s ==> IsSpace(c) {
      TrimSpaceFacts(s);
      var t := TrimSpace(s);
      assert t != "" ==> t[0] in t;
    } else {
      NonBlankSurvives(s);
    }
  }

  lemma {:induction false} NonBlankSurvives(s: string)
    requires exists c :: c in s && !IsSpace(c)
    ensures TrimSpace(s) != ""
  {
    if IsSpace(s[0]) {
      var c :| c in s && !IsSpace(c);
      assert c in s[1..];
      NonBlankSurvives(s[1..]);
    } else {
      NonBlankHeadSurvives(s);
    }
  }

  lemma {:induction false} NonBlankHeadSurvives(s: string)
    requires s != "" && !IsSpace(s[0])
    ensures TrimRight(s) != "" && TrimRight(s)[0] == s[0]
  {
    if IsSpace(s[|s| - 1]) { NonBlankHeadSurvives(s[..|s| - 1]); }
  }

  // ----- Searching -----

  /** Index of the first c in s, or |s| when there is none. */
  function IndexOf(s: string, c: char): (i: nat)
    ensures i <= |s| && (i < |s| ==> s[i] == c)
    ensures c !in s[..i] && forall k :: 0 <= k < i ==> s[k] != c
  {
    if s == "" || s[0] == c then 0 else 1 + IndexOf(s[1..], c)
  }

  /** The first c of a concatenation whose left part is free of c. */
  lemma IndexOfAfter(p: string, c: char, s: string)
    requires c !in p
    ensures IndexOf(p + [c] + s, c) == |p|
    ensures (p + [c] + s)[..|p|] == p && (p + [c] + s)[|p| + 1..] == s
  {
    var t := p + [c] + s;
    var i := IndexOf(t, c);
    assert t[..|p|] == p && t[|p|] == c;
    assert forall k :: 0 <= k < |p| ==> t[k] == p[k];
  }

  lemma IndexOfAbsent(s: string, c: char)
    requires c !in s
    ensures IndexOf(s, c) == |s|
  {}

  predicate StartsWith(s: string, p: string) {
    |p| <= |s| && s[..|p|] == p
  }

  predicate EndsWith(s: string, p: string) {
    |p| <= |s| && s[|s| - |p|..] == p
  }

  lemma ConcatAssoc<T>(a: seq<T>, b: seq<T>, c: seq<T>)
    ensures a + (b + c) == a + b + c
  {}

  // ----- Lines -----

  /** Drops every trailing carriage return. */
  function StripCR(s: string): (r: string)
    ensures r <= s && (r != "" ==> r[|r| - 1] != '\r')
    ensures s == "" || s[|s| - 1] != '\r' ==> r == s
  {
    if s != "" && s[|s| - 1] == '\r' then StripCR(s[..|s| - 1]) else s
  }

  /** A line that scanning can produce. */
  predicate LineOk(l: string) {
    '\n' !in l && (l == "" || l[|l| - 1] != '\r')
  }

  /** The lines a scanner reads, each without its line end. */
  function Lines(s: string): (ls: seq<string>)
    ensures forall l :: l in ls ==> LineOk(l)
  {
    if s == "" then []
    else
      var i := IndexOf(s, '\n');
      [StripCR(s[..i])] + if i < |s| then Lines(s[i + 1..]) else []
  }

  function Unlines(ls: seq<string>): string {
    if ls == [] then "" else ls[0] + "\n" + Unlines(ls[1..])
  }

  /** Scanning undoes printing one line per entry. */
  lemma {:induction false} LinesOfUnlines(ls: seq<string>)
    requires forall l :: l in ls ==> LineOk(l)
    ensures Lines(Unlines(ls)) == ls
  {
    if ls != [] {
      var rest := Unlines(ls[1..]);
      assert LineOk(ls[0]) by { assert ls[0] in ls; }
      IndexOfAfter(ls[0], '\n', rest);
      assert Unlines(ls) == ls[0] + ['\n'] + rest;
      LinesOfUnlines(ls[1..]);
    }
  }

  lemma {:induction false} UnlinesAppend(a: seq<string>, b: seq<string>)
    ensures Unlines(a + b) == Unlines(a) + Unlines(b)
  {
    if a == [] {
      assert a + b == b;
    } else {
      assert (a + b)[1..] == a[1..] + b;
      UnlinesAppend(a[1..], b);
    }
  }

  // ----- Comma lists -----

  /** The non-blank trimmed fields of a comma-separated list. */
  function SplitCSV(value: string): seq<string>
    decreases |value|
  {
    var i := IndexOf(value, ',');
    var part := TrimSpace(value[..i]);
    var rest := if i < |value| then SplitCSV(value[i + 1..]) else [];
    if part != "" then [part] + rest else rest
  }

  /** Every field is clean and made of the list's characters. */
  lemma {:induction false} SplitCSVFacts(value: string)
    ensures forall x :: x in SplitCSV(value) ==> CleanItem(x) && forall c :: c in x ==> c in value
    decreases |value|
  {
    hide IndexOf, TrimSpace, Trimmed;
    var i := IndexOf(value, ',');
    TrimSpaceFacts(value[..i]);
    assert forall c :: c in value[..i] ==> c in value;
    if i < |value| {
      SplitCSVFacts(value[i + 1..]);
      assert forall c :: c in value[i + 1..] ==> c in value;
    }
  }

  predicate CleanItem(x: string) {
    x != "" && Trimmed(x) && ',' !in x
  }

  function Join(xs: seq<string>): string {
    if xs == [] then ""
    else if |xs| == 1 then xs[0]
    else xs[0] + ", " + Join(xs[1..])
  }

  /** Splitting off a first field that trims to x. */
  lemma SplitFirst(p: string, x: string, rest: string, whole: string)
    requires ',' !in p && TrimSpace(p) == x && x != ""
    requires whole == p + [','] + rest
    ensures SplitCSV(whole) == [x] + SplitCSV(rest)
  {
    IndexOfAfter(p, ',', rest);
  }

  lemma SplitOnly(p: string, x: string)
    requires ',' !in p && TrimSpace(p) == x && x != ""
    ensures SplitCSV(p) == [x]
  {
    IndexOfAbsent(p, ',');
    assert p[..|p|] == p;
  }

  /** A clean first field, with or without a leading blank. */
  lemma SplitClean(x: string, tail: string)
    requires CleanItem(x)
    ensures SplitCSV(x + ", " + tail) == [x] + SplitCSV([' '] + tail)
    ensures SplitCSV([' '] + (x + ", " + tail)) == [x] + SplitCSV([' '] + tail)
    ensures SplitCSV(x) == [x] && SplitCSV([' '] + x) == [x]
  {
    hide TrimSpace, SplitCSV;
    TrimSpaceFacts(x);
    TrimSpaceSkipsLead(' ', x);
    SplitFirst(x, x, [' '] + tail, x + ", " + tail);
    SplitFirst([' '] + x, x, [' '] + tail, [' '] + (x + ", " + tail));
    SplitOnly(x, x);
    SplitOnly([' '] + x, x);
  }

  lemma SplitBlank()
    ensures SplitCSV("") == [] && SplitCSV([' '] + "") == []
  {
    BlankTrims(" ");
    assert IndexOf(" ", ',') == 1 && " "[..1] == " ";
    assert [' '] + "" == " ";
  }

  /** Splitting undoes joining with a comma and a blank, also after a blank. */
  lemma {:induction false} SplitOfJoin(xs: seq<string>)
    requires forall x :: x in xs ==> CleanItem(x)
    ensures SplitCSV(Join(xs)) == xs
    ensures SplitCSV([' '] + Join(xs)) == xs
  {
    if xs == [] {
      SplitBlank();
    } else {
      assert CleanItem(xs[0]) by { assert xs[0] in xs; }
      SplitClean(xs[0], Join(xs[1..]));
      SplitOfJoin(xs[1..]);
      assert [xs[0]] + xs[1..] == xs;
    }
  }

  /** A joined list of clean items is trimmed and only uses their characters. */
  lemma {:induction false} JoinFacts(xs: seq<string>)
    requires forall x :: x in xs ==> CleanItem(x)
    ensures Trimmed(Join(xs))
    ensures xs != [] ==> Join(xs) != ""
    ensures (forall x :: x in xs ==> '\n' !in x) ==> '\n' !in Join(xs)
  {
    assert xs != [] ==> xs[0] in xs && CleanItem(xs[0]);
    if |xs| > 1 {
      JoinFacts(xs[1..]);
      assert xs[1] in xs[1..];
      var tail := Join(xs[1..]);
      assert Join(xs) == xs[0] + ", " + tail;
      assert Join(xs)[|Join(xs)| - 1] == tail[|tail| - 1];
    }
  }

  // ----- Decimal numerals -----

  function DigitChar(d: nat): char
    requires d < 10
  {
    (d + '0' as int) as char
  }

  predicate IsDigit(c: char) {
    '0' <= c <= '9'
  }

  predicate AllDigits(s: string) {
    forall i :: 0 <= i < |s| ==> IsDigit(s[i])
  }

  function DecValue(s: string): nat
    requires AllDigits(s)
  {
    if s == "" then 0
    else DecValue(s[..|s| - 1]) * 10 + (s[|s| - 1] as int - '0' as int)
  }

  function Dec(n: nat): string {
    if n < 10 then [DigitChar(n)] else Dec(n / 10) + [DigitChar(n % 10)]
  }

  /** A numeral is non-empty, has no leading zero and reads back as its number. */
  lemma {:induction false} DecReadsBack(n: nat)
    ensures Dec(n) != "" && AllDigits(Dec(n)) && DecValue(Dec(n)) == n
    ensures |Dec(n)| > 1 ==> Dec(n)[0] != '0'
    ensures n > 0 ==> Dec(n)[0] != '0'
  {
    if n < 10 {
      assert Dec(n)[..0] == "";
    } else {
      DecReadsBack(n / 10);
      assert Dec(n)[..|Dec(n)| - 1] == Dec(n / 10);
    }
  }
}
