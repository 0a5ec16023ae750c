/**
 What a configuration text says, told without the parser: how a line spells an
 assignment or a section header, which line decides a value of the interface,
 and which lines make a peer; and that the parser reads exactly that.
 */
module AwgReading {
  import opened Wrappers
  import opened Text
  import opened AwgConfig

  // ----- Blanks -----

  predicate AllBlank(s: string) {
    forall c :: c in s ==> IsSpace(c)
  }

  lemma {:induction false} TrimLeftPads(a: string, s: string)
    requires AllBlank(a) && s != "" && !IsSpace(s[0])
    ensures TrimLeft(a + s) == s
  {
    if a == "" {
      assert a + s == s;
    } else {
      assert a[0] in a && (a + s)[1..] == a[1..] + s;
      assert forall c :: c in a[1..] ==> c in a;
      TrimLeftPads(a[1..], s);
    }
  }

  lemma {:induction false} TrimRightPads(s: string, e: string)
    requires AllBlank(e) && s != "" && !IsSpace(s[|s| - 1])
    ensures TrimRight(s + e) == s
  {
    if e == "" {
      assert s + e == s;
    } else {
      var init := e[..|e| - 1];
      assert e[|e| - 1] in e && (s + e)[..|s + e| - 1] == s + init;
      assert forall c :: c in init ==> c in e;
      TrimRightPads(s, init);
    }
  }

  /** Trimming takes off exactly the blanks around a trimmed text. */
  lemma TrimPads(a: string, s: string, e: string)
    requires AllBlank(a) && AllBlank(e) && Trimmed(s)
    ensures TrimSpace(a + s + e) == s
  {
    if s == "" {
      assert forall c :: c in a + s + e ==> c in a || c in e;
      BlankTrims(a + s + e);
    } else {
      TrimLeftPads(a, s + e);
      assert a + s + e == a + (s + e) && (s + e)[0] == s[0];
      TrimRightPads(s, e);
    }
  }

  /** Blanks at either end of a text show there. */
  lemma EndsBlank(a: string, s: string)
    requires AllBlank(a)
    ensures a != "" ==> IsSpace((a + s)[0]) && IsSpace((s + a)[|s + a| - 1])
  {
    if a != "" { assert a[0] in a && a[|a| - 1] in a; }
  }

  lemma BlankJoin(a: string, b: string)
    requires AllBlank(a) && AllBlank(b)
    ensures AllBlank(a + b)
  {
    assert forall x :: x in a + b ==> x in a || x in b;
  }

  lemma {:induction false} TrimLeftRest(s: string) returns (a: string)
    ensures AllBlank(a) && s == a + TrimLeft(s)
  {
    if s != "" && IsSpace(s[0]) {
      var b := TrimLeftRest(s[1..]);
      a := [s[0]] + b;
      hide IsSpace;
      BlankJoin([s[0]], b);
      assert s == [s[0]] + s[1..];
    } else {
      a := "";
    }
  }

  lemma {:induction false} TrimRightRest(s: string) returns (e: string)
    ensures AllBlank(e) && s == TrimRight(s) + e
  {
    if s != "" && IsSpace(s[|s| - 1]) {
      var f := TrimRightRest(s[..|s| - 1]);
      e := f + [s[|s| - 1]];
      hide IsSpace;
      BlankJoin(f, [s[|s| - 1]]);
      assert s == s[..|s| - 1] + [s[|s| - 1]];
    } else {
      e := "";
    }
  }

  lemma TrimRest(s: string) returns (a: string, e: string)
    ensures AllBlank(a) && AllBlank(e) && s == a + TrimSpace(s) + e && Trimmed(TrimSpace(s))
  {
    TrimSpaceFacts(s);
    a := TrimLeftRest(s);
    e := TrimRightRest(TrimLeft(s));
  }

  // ----- Assignments -----

  function Spelled(a: string, commented: bool, b: string, k: string, c: string, d: string, v: string, e: string): string {
    a + (if commented then "#" + b else "") + k + c + "=" + d + v + e
  }

  /** Behind blanks and perhaps a comment mark, the line assigns v to k. */
  ghost predicate Says(line: string, k: string, v: string, commented: bool) {
    && k != "" && Trimmed(k) && '=' !in k && (commented || k[0] != '#') && Trimmed(v)
    && exists a, b, c, d, e :: Pieces(line, a, commented, b, k, c, d, v, e)
  }

  predicate Pieces(line: string, a: string, commented: bool, b: string, k: string, c: string, d: string, v: string, e: string) {
    && AllBlank(a) && AllBlank(b) && AllBlank(c) && AllBlank(d) && AllBlank(e)
    && line == Spelled(a, commented, b, k, c, d, v, e)
  }

  /** The part of an assignment from the key on, without blanks at its end. */
  function Core(k: string, c: string, d: string, v: string): string {
    k + c + "=" + if v == "" then "" else d + v
  }

  lemma CoreTrimmed(k: string, c: string, d: string, v: string)
    requires k != "" && Trimmed(k) && Trimmed(v)
    ensures Trimmed(Core(k, c, d, v)) && Core(k, c, d, v) != "" && Core(k, c, d, v)[0] == k[0]
  {
    var s := Core(k, c, d, v);
    assert s[0] == k[0];
    assert s[|s| - 1] == if v == "" then '=' else v[|v| - 1];
  }

  lemma CoreReads(k: string, c: string, d: string, v: string)
    requires k != "" && Trimmed(k) && '=' !in k && Trimmed(v) && AllBlank(c) && AllBlank(d)
    ensures var s := Core(k, c, d, v); var i := IndexOf(s, '=');
            i < |s| && TrimSpace(s[..i]) == k && TrimSpace(s[i + 1..]) == v
  {
    hide TrimSpace, Trimmed, IndexOf;
    var s, rest := Core(k, c, d, v), if v == "" then "" else d + v;
    assert s == (k + c) + ['='] + rest;
    assert forall x :: x in k + c ==> x in k || x in c;
    IndexOfAfter(k + c, '=', rest);
    TrimPads("", k, c);
    assert "" + k + c == k + c;
    if v == "" { TrimPads("", "", ""); assert "" + "" + "" == rest == ""; } else { TrimPads(d, v, ""); assert d + v + "" == rest; }
  }

  /** Such a line is read as that assignment. */
  lemma SaysIsRead(line: string, k: string, v: string, commented: bool)
    requires Says(line, k, v, commented)
    ensures ParseAssignment(line) == Assignment(k, v, commented, true)
  {
    hide Trimmed, AllBlank, ParseAssignment, Core, Spelled, IndexOf, TrimSpace;
    var a, b, c, d, e :| Pieces(line, a, commented, b, k, c, d, v, e);
    CoreTrimmed(k, c, d, v);
    CoreReads(k, c, d, v);
    LineCore(line, a, commented, b, k, c, d, v, e);
    CoreIsRead(line, commented, b, Core(k, c, d, v), k, v);
  }

  lemma CoreIsRead(line: string, commented: bool, b: string, core: string, k: string, v: string)
    requires core != "" && TrimSpace(line) == (if commented then "#" + b + core else core) && TrimSpace(b + core) == core
    requires var i := IndexOf(core, '='); i < |core| && TrimSpace(core[..i]) == k && TrimSpace(core[i + 1..]) == v
    requires k != "" && (commented || core[0] != '#')
    ensures ParseAssignment(line) == Assignment(k, v, commented, true)
  {
    hide TrimSpace, IndexOf;
    Unmarked(b, core);
  }

  lemma Unmarked(b: string, core: string)
    ensures ("#" + b + core)[1..] == b + core && ("#" + b + core)[0] == '#' && "#" + b + core != ""
  {}

  lemma LineCore(line: string, a: string, commented: bool, b: string, k: string, c: string, d: string, v: string, e: string)
    requires k != "" && Trimmed(k) && Trimmed(v) && AllBlank(a) && AllBlank(b) && AllBlank(d) && AllBlank(e)
    requires line == Spelled(a, commented, b, k, c, d, v, e)
    ensures TrimSpace(line) == if commented then "#" + b + Core(k, c, d, v) else Core(k, c, d, v)
    ensures TrimSpace(b + Core(k, c, d, v)) == Core(k, c, d, v)
  {
    hide TrimSpace, AllBlank, Trimmed, Core;
    var core := Core(k, c, d, v);
    CoreTrimmed(k, c, d, v);
    MarkTrimmed(b, core);
    var mark := if commented then "#" + b else "";
    var tail := if v == "" then d + e else e;
    BlankJoin(d, e);
    SpelledCore(a, commented, b, k, c, d, v, e);
    TrimPads(a, mark + core, tail);
    TrimPads(b, core, "");
    BlankEmpty();
    assert b + core + "" == b + core && "" + core == core;
  }

  lemma MarkTrimmed(b: string, core: string)
    requires core != "" && Trimmed(core)
    ensures Trimmed("#" + b + core)
  {
    var s := "#" + b + core;
    assert s[|s| - 1] == core[|core| - 1];
  }

  lemma SpelledCore(a: string, commented: bool, b: string, k: string, c: string, d: string, v: string, e: string)
    ensures Spelled(a, commented, b, k, c, d, v, e)
            == a + ((if commented then "#" + b else "") + Core(k, c, d, v)) + if v == "" then d + e else e
  {
    var mark := if commented then "#" + b else "";
    if v == "" {
      assert a + mark + k + c + "=" + d + v + e == a + (mark + (k + c + "=" + "")) + (d + e);
    } else {
      assert a + mark + k + c + "=" + d + v + e == a + (mark + (k + c + "=" + (d + v))) + e;
    }
  }

  /** And every line that is read as an assignment is such a line. */
  lemma ReadIsSaid(line: string)
    requires ParseAssignment(line).ok
    ensures var r := ParseAssignment(line); Says(line, r.key, r.value, r.commented)
  {
    hide TrimSpace, IndexOf, AllBlank, Trimmed, Says, IsSpace;
    var r := ParseAssignment(line);
    var a, e := TrimRest(line);
    var t := TrimSpace(line);
    if t[0] == '#' {
      var b, e2 := TrimRest(t[1..]);
      var body := TrimSpace(t[1..]);
      var c, d, e3 := BodySaid(body);
      MarkedSaid(line, a, t, e, t[1..], b, body, e2, r.key, c, d, r.value, e3);
    } else {
      var c, d, e3 := BodySaid(t);
      PlainSaid(line, a, t, e, r.key, c, d, r.value, e3);
    }
  }

  lemma MarkedSaid(line: string, a: string, t: string, e: string, t1: string, b: string, body: string, e2: string,
                   k: string, c: string, d: string, v: string, e3: string)
    requires AllBlank(a) && AllBlank(b) && AllBlank(c) && AllBlank(d) && AllBlank(e3) && AllBlank(e2) && AllBlank(e)
    requires k != "" && Trimmed(k) && '=' !in k && Trimmed(v) && body == k + c + "=" + d + v + e3
    requires line == a + t + e && t != "" && t[0] == '#' && t1 == t[1..] && t1 == b + body + e2
    ensures Says(line, k, v, true)
  {
    hide AllBlank, Trimmed, Says;
    assert t == "#" + (b + body + e2);
    Padded(line, a, true, b, k, c, d, v, e3, e2, e, body);
  }

  lemma PlainSaid(line: string, a: string, t: string, e: string, k: string, c: string, d: string, v: string, e3: string)
    requires AllBlank(a) && AllBlank(c) && AllBlank(d) && AllBlank(e3) && AllBlank(e)
    requires k != "" && k[0] != '#' && Trimmed(k) && '=' !in k && Trimmed(v) && t == k + c + "=" + d + v + e3 && line == a + t + e
    ensures Says(line, k, v, false)
  {
    BlankEmpty();
    hide AllBlank, Trimmed, Says;
    Padded(line, a, false, "", k, c, d, v, e3, "", e, t);
  }

  lemma BlankEmpty()
    ensures AllBlank("")
  {}

  lemma Padded(line: string, a: string, commented: bool, b: string, k: string, c: string, d: string, v: string,
               e3: string, e2: string, e: string, body: string)
    requires AllBlank(a) && AllBlank(b) && AllBlank(c) && AllBlank(d) && AllBlank(e3) && AllBlank(e2) && AllBlank(e)
    requires k != "" && Trimmed(k) && '=' !in k && (commented || k[0] != '#') && Trimmed(v)
    requires body == k + c + "=" + d + v + e3
    requires line == a + (if commented then "#" + (b + body + e2) else body) + e && (commented || e2 == "")
    ensures Says(line, k, v, commented)
  {
    hide Trimmed;
    assert forall x :: x in e3 + e2 + e ==> x in e3 || x in e2 || x in e;
    assert Pieces(line, a, commented, b, k, c, d, v, e3 + e2 + e);
  }

  lemma BodySaid(body: string) returns (c: string, d: string, e: string)
    requires Trimmed(body) && IndexOf(body, '=') < |body| && TrimSpace(body[..IndexOf(body, '=')]) != ""
    ensures var i := IndexOf(body, '='); var k, v := TrimSpace(body[..i]), TrimSpace(body[i + 1..]);
            && AllBlank(c) && AllBlank(d) && AllBlank(e) && Trimmed(k) && Trimmed(v) && '=' !in k
            && body == k + c + "=" + d + v + e && k[0] == body[0]
  {
    hide TrimSpace, IndexOf, Trimmed, AllBlank;
    var i := IndexOf(body, '=');
    var a;
    a, c := TrimRest(body[..i]);
    d, e := TrimRest(body[i + 1..]);
    var k, v := TrimSpace(body[..i]), TrimSpace(body[i + 1..]);
    assert body == body[..i] + "=" + body[i + 1..];
    BodyPieces(body, body[..i], body[i + 1..], a, k, c, d, v, e);
  }

  lemma BodyPieces(body: string, head: string, tail: string, a: string, k: string, c: string, d: string, v: string, e: string)
    requires Trimmed(body) && body == head + "=" + tail && head == a + k + c && tail == d + v + e && '=' !in head && k != "" && AllBlank(a)
    ensures body == k + c + "=" + d + v + e && k[0] == body[0] && '=' !in k
  {
    EndsBlank(a, k + c + "=" + tail);
    assert body == a + (k + c + "=" + tail);
  }

  /** A line is an assignment exactly if it has an equals sign and something
      besides blanks and one comment mark before the first one. */
  lemma AssignmentIff(line: string)
    ensures ParseAssignment(line).ok <==>
              '=' in line && TrimSpace(line[..IndexOf(line, '=')]) != "" && TrimSpace(line[..IndexOf(line, '=')]) != "#"
    ensures ParseAssignment(line).ok <==> exists k, v, commented :: Says(line, k, v, commented)
  {
    hide TrimSpace, IndexOf, Says, ParseAssignment;
    if k, v, commented :| Says(line, k, v, commented) {
      SaysIsRead(line, k, v, commented);
      KeyBefore(line, k, v, commented);
    }
    if ParseAssignment(line).ok { ReadIsSaid(line); }
    if '=' in line && TrimSpace(line[..IndexOf(line, '=')]) != "" && TrimSpace(line[..IndexOf(line, '=')]) != "#" {
      var k, v, commented := KeySays(line);
    }
  }

  lemma KeyBefore(line: string, k: string, v: string, commented: bool)
    requires Says(line, k, v, commented)
    ensures '=' in line && TrimSpace(line[..IndexOf(line, '=')]) !in ["", "#"]
  {
    hide TrimSpace, IndexOf, Trimmed, AllBlank, IsSpace;
    var a, b, c, d, e :| Pieces(line, a, commented, b, k, c, d, v, e);
    var mark := if commented then "#" + b else "";
    var p := a + (mark + k) + c;
    assert line == p + ['='] + (d + v + e);
    NoEquals(a);
    NoEquals(b);
    NoEquals(c);
    assert '=' !in p;
    IndexOfAfter(p, '=', d + v + e);
    assert line[..|p|] == p && '=' in line;
    MarkedKey(mark, b, k);
    TrimPads(a, mark + k, c);
  }

  lemma NoEquals(a: string)
    requires AllBlank(a)
    ensures '=' !in a
  {}

  lemma MarkedKey(mark: string, b: string, k: string)
    requires k != "" && Trimmed(k) && (mark == "#" + b || (mark == "" && k[0] != '#'))
    ensures Trimmed(mark + k) && mark + k != "" && mark + k != "#"
  {
    var s := mark + k;
    assert s[0] == if mark == "" then k[0] else '#';
    assert s[|s| - 1] == k[|k| - 1];
  }

  lemma KeySays(line: string) returns (k: string, v: string, commented: bool)
    requires '=' in line && TrimSpace(line[..IndexOf(line, '=')]) != "" && TrimSpace(line[..IndexOf(line, '=')]) != "#"
    ensures Says(line, k, v, commented)
  {
    hide TrimSpace, IndexOf, Trimmed, AllBlank, IsSpace, Pieces;
    var i := IndexOf(line, '=');
    assert i < |line|;
    var a, c := TrimRest(line[..i]);
    var d, e := TrimRest(line[i + 1..]);
    var t := TrimSpace(line[..i]);
    v := TrimSpace(line[i + 1..]);
    BlankEmpty();
    assert line == line[..i] + "=" + line[i + 1..];
    assert line[..i] == a + t + c && '=' !in t;
    if t[0] == '#' {
      commented := true;
      var b, f := TrimRest(t[1..]);
      k := TrimSpace(t[1..]);
      assert t == "#" + t[1..] && t[1..] == b + k + f;
      LastBlank(b, k, f, t);
      assert '=' !in k;
      Assembled(line, line[..i], line[i + 1..], t, a, true, b, k, c, d, v, e);
    } else {
      commented := false;
      k := t;
      Assembled(line, line[..i], line[i + 1..], t, a, false, "", k, c, d, v, e);
    }
  }

  lemma Assembled(line: string, head: string, tail: string, t: string,
                  a: string, commented: bool, b: string, k: string, c: string, d: string, v: string, e: string)
    requires AllBlank(a) && AllBlank(b) && AllBlank(c) && AllBlank(d) && AllBlank(e)
    requires line == head + "=" + tail && head == a + t + c && tail == d + v + e
    requires t == if commented then "#" + b + k else k
    ensures Pieces(line, a, commented, b, k, c, d, v, e)
  {
    hide AllBlank;
  }

  /** A trimmed text of more than its mark has no blanks at its end. */
  lemma LastBlank(b: string, k: string, f: string, t: string)
    requires t == "#" + (b + k + f) && Trimmed(t) && |t| > 1 && AllBlank(b) && AllBlank(f) && Trimmed(k)
    ensures f == "" && k != ""
  {
    assert t == ("#" + b + k) + f;
    EndsBlank(f, "#" + b + k);
    EndsBlank(b, "#");
    assert f == "" && k == "" ==> t == "#" + b;
  }

  /** The comment mark is noted on every line that has one. */
  lemma MarkIsNoted(line: string)
    ensures ParseAssignment(line).commented <==> TrimSpace(line) != "" && TrimSpace(line)[0] == '#'
  {}
}
