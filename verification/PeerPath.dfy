/**
 The path of a peer: its key as one percent-encoded segment (RFC 3986, section
 2.1), and the receiver that decodes it. Texts are sequences of bytes.
 */
module PeerPath {
  import opened Wrappers

  type Bytes = s: string | forall i :: 0 <= i < |s| ==> s[i] as int < 256

  /** Letters, digits and the four marks of section 2.3 are never encoded. */
  predicate Unreserved(c: char) {
    'a' <= c <= 'z' || 'A' <= c <= 'Z' || '0' <= c <= '9' || c == '_' || c == '.' || c == '-' || c == '~'
  }

  function HexDigit(n: nat): char
    requires n < 16
  {
    if n < 10 then ('0' as int + n) as char else ('A' as int + n - 10) as char
  }

  function HexValue(c: char): Option<nat> {
    if '0' <= c <= '9' then Some(c as int - '0' as int)
    else if 'A' <= c <= 'F' then Some(c as int - 'A' as int + 10)
    else if 'a' <= c <= 'f' then Some(c as int - 'a' as int + 10)
    else None
  }

  function QuoteChar(c: char): string
    requires c as int < 256
  {
    if Unreserved(c) then [c] else ['%', HexDigit(c as int / 16), HexDigit(c as int % 16)]
  }

  function Quote(s: Bytes): string {
    if s == "" then "" else QuoteChar(s[0]) + Quote(s[1..])
  }

  /** Decodes every percent sign that two hexadecimal digits follow. */
  function Unquote(s: string): string {
    if s == "" then ""
    else if s[0] == '%' && |s| >= 3 && HexValue(s[1]).Some? && HexValue(s[2]).Some?
    then [(HexValue(s[1]).value * 16 + HexValue(s[2]).value) as char] + Unquote(s[3..])
    else [s[0]] + Unquote(s[1..])
  }

  const Prefix := "/peers/"

  function PathOf(key: Bytes): string {
    Prefix + Quote(key)
  }

  /** What the receiver takes for the key. */
  function ReceivedKey(path: string): Option<string> {
    if |path| >= |Prefix| && path[..|Prefix|] == Prefix then Some(Unquote(path[|Prefix|..])) else None
  }

  lemma HexReadsBack(n: nat)
    requires n < 16
    ensures HexValue(HexDigit(n)) == Some(n)
  {}

  lemma UnquoteChar(c: char, rest: string)
    requires c as int < 256
    ensures Unquote(QuoteChar(c) + rest) == [c] + Unquote(rest)
  {
    if Unreserved(c) {
      assert ([c] + rest)[1..] == rest;
    } else {
      HexReadsBack(c as int / 16);
      HexReadsBack(c as int % 16);
      assert (QuoteChar(c) + rest)[3..] == rest;
    }
  }

  /** The numbers of the letters, the digits and the four marks. */
  predicate KeptByte(n: nat) {
    0x61 <= n <= 0x7A || 0x41 <= n <= 0x5A || 0x30 <= n <= 0x39 || n == 0x5F || n == 0x2E || n == 0x2D || n == 0x7E
  }

  /** An encoded text byte by byte: letters, digits and the four marks stand for
      themselves, every other byte is a percent sign and two hexadecimal digits,
      of which the letters are upper case. */
  lemma QuoteSpells(s: Bytes)
    ensures s == "" ==> Quote(s) == ""
    ensures s != "" ==>
              var n := s[0] as int; var hex := "0123456789ABCDEF";
              Quote(s) == (if KeptByte(n) then [s[0]] else ['%', hex[n / 16], hex[n % 16]]) + Quote(s[1..])
  {
    if s != "" {
      HexDigitIs(s[0] as int / 16);
      HexDigitIs(s[0] as int % 16);
    }
  }

  lemma HexDigitIs(n: nat)
    requires n < 16
    ensures HexDigit(n) == "0123456789ABCDEF"[n]
  {}

  /** Hexadecimal digits are read in either case, and nothing else is one. */
  lemma HexEitherCase(c: char)
    ensures forall n: nat :: n < 16 ==> (HexValue(c) == Some(n) <==> c == "0123456789ABCDEF"[n] || c == "0123456789abcdef"[n])
    ensures HexValue(c).Some? ==> HexValue(c).value < 16
  {
    forall n: nat | n < 16 ensures HexValue(c) == Some(n) <==> c == "0123456789ABCDEF"[n] || c == "0123456789abcdef"[n] {
      HexDigitIs(n);
      LowDigitIs(n);
    }
  }

  lemma LowDigitIs(n: nat)
    requires n < 16
    ensures "0123456789abcdef"[n] == if n < 10 then HexDigit(n) else (HexDigit(n) as int + 32) as char
  {}

  /** The path is the fixed prefix and the encoded key, and nothing is taken for
      a peer's path that does not begin with that prefix. */
  lemma PathSpells(key: Bytes, path: string)
    ensures PathOf(key) == "/peers/" + Quote(key)
    ensures ReceivedKey(path).Some? <==> |path| >= 7 && path[..7] == "/peers/"
  {}

  /** Decoding undoes encoding. */
  lemma {:induction false} UnquoteOfQuote(s: Bytes)
    ensures Unquote(Quote(s)) == s
  {
    if s != "" {
      UnquoteChar(s[0], Quote(s[1..]));
      UnquoteOfQuote(s[1..]);
    }
  }

  /** The encoded key is a single segment: it has no delimiter of any kind. */
  lemma {:induction false} QuoteIsOneSegment(s: Bytes)
    ensures forall i :: 0 <= i < |Quote(s)| ==> Unreserved(Quote(s)[i]) || Quote(s)[i] == '%'
    ensures '/' !in Quote(s) && '?' !in Quote(s) && '#' !in Quote(s)
  {
    if s != "" { QuoteIsOneSegment(s[1..]); }
  }

  /** The receiver of a peer's path gets the peer's key, whatever it contains,
      and different keys have different paths. */
  lemma PathReadsBack(key: Bytes, other: Bytes)
    ensures ReceivedKey(PathOf(key)) == Some(key)
    ensures PathOf(key) == PathOf(other) ==> key == other
  {
    UnquoteOfQuote(key);
    UnquoteOfQuote(other);
    assert PathOf(key)[|Prefix|..] == Quote(key) && PathOf(other)[|Prefix|..] == Quote(other);
  }
}
