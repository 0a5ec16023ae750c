/**
 The directory of source images: a recursive walk that lists, in order of name,
 the files with a known extension, and what the list holds.
 */
module ImageTree {
  import opened Wrappers
  import opened Images

  /** An entry of a directory; other kinds of entries are passed over. */
  datatype Entry = File(name: string, content: string) | Dir(name: string, entries: seq<Entry>) | Other(name: string)

  // ----- Order of names -----

  /** Code units are compared one by one, and a prefix comes first. */
  predicate AtMost(a: string, b: string) {
    a == "" || (b != "" && (a[0] < b[0] || (a[0] == b[0] && AtMost(a[1..], b[1..]))))
  }

  lemma {:induction false} AtMostTotal(a: string, b: string)
    ensures AtMost(a, b) || AtMost(b, a)
    ensures AtMost(a, b) && AtMost(b, a) ==> a == b
  {
    if a != "" && b != "" && a[0] == b[0] {
      AtMostTotal(a[1..], b[1..]);
      assert a == [a[0]] + a[1..] && b == [b[0]] + b[1..];
    }
  }

  lemma {:induction false} AtMostTrans(a: string, b: string, c: string)
    requires AtMost(a, b) && AtMost(b, c)
    ensures AtMost(a, c)
  {
    if a != "" && a[0] == b[0] == c[0] { AtMostTrans(a[1..], b[1..], c[1..]); }
  }

  function Insert(e: Entry, es: seq<Entry>): seq<Entry> {
    if es == [] || AtMost(e.name, es[0].name) then [e] + es else [es[0]] + Insert(e, es[1..])
  }

  function Sorted(es: seq<Entry>): seq<Entry> {
    if es == [] then [] else Insert(es[0], Sorted(es[1..]))
  }

  lemma {:induction false} InsertMembers(e: Entry, es: seq<Entry>)
    ensures multiset(Insert(e, es)) == multiset{e} + multiset(es)
  {
    if es != [] {
      InsertMembers(e, es[1..]);
      assert es == [es[0]] + es[1..];
    }
  }

  lemma {:induction false} SortedMembers(es: seq<Entry>)
    ensures multiset(Sorted(es)) == multiset(es)
  {
    if es != [] {
      SortedMembers(es[1..]);
      InsertMembers(es[0], Sorted(es[1..]));
      assert es == [es[0]] + es[1..];
    }
  }

  lemma SortedSame(es: seq<Entry>)
    ensures forall e :: e in Sorted(es) <==> e in es
  {
    SortedMembers(es);
    forall e ensures e in Sorted(es) <==> e in es { assert e in multiset(Sorted(es)) <==> e in multiset(es); }
  }

  predicate InOrder(es: seq<Entry>) {
    forall i, k :: 0 <= i < k < |es| ==> AtMost(es[i].name, es[k].name)
  }

  lemma {:induction false} InsertInOrder(e: Entry, es: seq<Entry>)
    requires InOrder(es)
    ensures InOrder(Insert(e, es))
  {
    if es != [] {
      var rest := es[1..];
      AtMostTotal(e.name, es[0].name);
      if AtMost(e.name, es[0].name) {
        forall k | 0 <= k < |es| ensures AtMost(e.name, es[k].name) { if k > 0 { AtMostTrans(e.name, es[0].name, es[k].name); } }
      } else {
        InsertInOrder(e, rest);
        InsertMembers(e, rest);
        var more := Insert(e, rest);
        forall k | 0 <= k < |more| ensures AtMost(es[0].name, more[k].name) {
          assert more[k] in multiset(more);
          if more[k] != e { assert more[k] in rest; }
        }
      }
    }
  }

  lemma {:induction false} SortedInOrder(es: seq<Entry>)
    ensures InOrder(Sorted(es))
  {
    if es != [] {
      SortedInOrder(es[1..]);
      InsertInOrder(es[0], Sorted(es[1..]));
    }
  }

  // ----- The walk -----

  function JoinPath(prefix: string, name: string): string {
    if prefix == "" then name else prefix + "/" + name
  }

  predicate Known(t: Tools, name: string) {
    t.lower(ExtName(name)) in CopyExtensions
  }

  /** The files below a directory that the pipeline takes up. */
  function Found(t: Tools, es: seq<Entry>, prefix: string): seq<Source>
    decreases es, 1, 0
  {
    SortedSame(es);
    FoundIn(t, Sorted(es), es, prefix)
  }

  /** The same for some of its entries, in this order. */
  function FoundIn(t: Tools, es: seq<Entry>, all: seq<Entry>, prefix: string): seq<Source>
    requires forall e :: e in es ==> e in all
    decreases all, 0, |es|
  {
    if es == [] then []
    else
      var init, e := es[..|es| - 1], es[|es| - 1];
      FoundIn(t, init, all, prefix) + FoundOne(t, e, all, prefix)
  }

  function FoundOne(t: Tools, e: Entry, all: seq<Entry>, prefix: string): seq<Source>
    requires e in all
    decreases all, 0, 0
  {
    match e
    case File(name, content) => if Known(t, name) then [Source(JoinPath(prefix, name), content)] else []
    case Dir(name, inner) => Found(t, inner, JoinPath(prefix, name))
    case Other(_) => []
  }

  /** A file at some path below a directory. */
  ghost predicate Below(es: seq<Entry>, prefix: string, s: Source)
    decreases es
  {
    exists e :: e in es && Gives(e, prefix, s)
  }

  ghost predicate Gives(e: Entry, prefix: string, s: Source)
    decreases e
  {
    match e
    case File(name, content) => s == Source(JoinPath(prefix, name), content)
    case Dir(name, inner) => Below(inner, JoinPath(prefix, name), s)
    case Other(_) => false
  }

  /** Names are not empty and hold no separator. */
  ghost predicate NamesOk(es: seq<Entry>)
    decreases es
  {
    forall e :: e in es ==> e.name != "" && '/' !in e.name && (e.Dir? ==> NamesOk(e.entries))
  }

  lemma {:induction false} ExtNameJoin(p: string, name: string)
    requires '/' !in name
    ensures ExtName(p + "/" + name) == ExtName(name)
  {
    var path := p + "/" + name;
    if name == "" {
      assert path[|path| - 1] == '/';
    } else {
      var init := name[..|name| - 1];
      assert path[..|path| - 1] == p + "/" + init && path[|path| - 1] == name[|name| - 1];
      ExtNameJoin(p, init);
      if |name| > 1 { assert path[|path| - 2] == name[|name| - 2] && name[|name| - 2] in name; } else { assert path[|path| - 2] == '/'; }
      assert name[|name| - 1] in name;
    }
  }

  lemma KnownPath(t: Tools, prefix: string, name: string, content: string)
    requires '/' !in name
    ensures Discovered(t, Source(JoinPath(prefix, name), content)) <==> Known(t, name)
  {
    if prefix != "" { ExtNameJoin(prefix, name); }
  }

  /** The walk finds exactly the files with a known extension, at whatever depth. */
  lemma {:induction false} FoundExact(t: Tools, es: seq<Entry>, prefix: string, s: Source)
    requires NamesOk(es)
    ensures s in Found(t, es, prefix) <==> Below(es, prefix, s) && Discovered(t, s)
    decreases es, 1, 0
  {
    SortedSame(es);
    FoundInExact(t, Sorted(es), es, prefix, s);
  }

  lemma {:induction false} FoundInExact(t: Tools, es: seq<Entry>, all: seq<Entry>, prefix: string, s: Source)
    requires NamesOk(all) && forall e :: e in es ==> e in all
    ensures s in FoundIn(t, es, all, prefix) <==> (exists e :: e in es && Gives(e, prefix, s)) && Discovered(t, s)
    decreases all, 0, |es|
  {
    if es != [] {
      var init, e := es[..|es| - 1], es[|es| - 1];
      FoundInExact(t, init, all, prefix, s);
      FoundOneExact(t, e, all, prefix, s);
      assert es == init + [e];
      hide FoundOne, Gives, Discovered;
    }
  }

  lemma {:induction false} FoundOneExact(t: Tools, e: Entry, all: seq<Entry>, prefix: string, s: Source)
    requires NamesOk(all) && e in all
    ensures s in FoundOne(t, e, all, prefix) <==> Gives(e, prefix, s) && Discovered(t, s)
    decreases all, 0, 0
  {
    match e
    case File(name, content) => KnownPath(t, prefix, name, content);
    case Dir(name, inner) => FoundExact(t, inner, JoinPath(prefix, name), s);
    case Other(_) =>
  }

  // ----- The listing's own order -----

  predicate DistinctNames(es: seq<Entry>) {
    forall i, k :: 0 <= i < k < |es| ==> es[i].name != es[k].name
  }

  lemma NamesDiffer(a: seq<Entry>)
    requires DistinctNames(a)
    ensures forall d, e :: d in a && e in a && d.name == e.name ==> d == e
  {}

  lemma FirstOnce(a: seq<Entry>, b: seq<Entry>)
    requires InOrder(a) && InOrder(b) && multiset(a) == multiset(b) && DistinctNames(a) && a != []
    ensures b != [] && a[0] == b[0]
  {
    assert a[0] in multiset(b);
    var i :| 0 <= i < |b| && b[i] == a[0];
    assert b[0] in multiset(a);
    var k :| 0 <= k < |a| && a[k] == b[0];
    AtMostSelf(a[0].name);
    AtMostTotal(a[0].name, b[0].name);
    NamesDiffer(a);
    hide AtMost, DistinctNames;
    assert AtMost(b[0].name, b[i].name) && AtMost(a[0].name, a[k].name);
  }

  lemma TailMembers(a: seq<Entry>)
    requires a != []
    ensures multiset(a[1..]) == multiset(a) - multiset{a[0]}
  {
    assert a == [a[0]] + a[1..];
  }

  lemma {:induction false} SortedOnce(a: seq<Entry>, b: seq<Entry>)
    requires InOrder(a) && InOrder(b) && multiset(a) == multiset(b) && DistinctNames(a)
    ensures a == b
  {
    assert b != [] ==> b[0] in multiset(a);
    if a != [] {
      FirstOnce(a, b);
      TailMembers(a);
      TailMembers(b);
      hide AtMost;
      SortedOnce(a[1..], b[1..]);
      assert a == [a[0]] + a[1..] && b == [b[0]] + b[1..];
    }
  }

  lemma {:induction false} AtMostSelf(a: string)
    ensures AtMost(a, a)
  {
    if a != "" { AtMostSelf(a[1..]); }
  }

  lemma {:induction false} FoundInOnly(t: Tools, es: seq<Entry>, all: seq<Entry>, all': seq<Entry>, prefix: string)
    requires forall e :: e in es ==> e in all && e in all'
    ensures FoundIn(t, es, all, prefix) == FoundIn(t, es, all', prefix)
  {
    if es != [] { FoundInOnly(t, es[..|es| - 1], all, all', prefix); }
  }

  /** The order in which a directory is listed does not matter. */
  lemma ListingOrderIsLost(t: Tools, es: seq<Entry>, es': seq<Entry>, prefix: string)
    requires multiset(es) == multiset(es') && DistinctNames(es)
    ensures Found(t, es, prefix) == Found(t, es', prefix)
  {
    SortedMembers(es);
    SortedMembers(es');
    SortedInOrder(es);
    SortedInOrder(es');
    SortedDistinct(es);
    SortedOnce(Sorted(es), Sorted(es'));
    SortedSame(es);
    SortedSame(es');
    FoundInOnly(t, Sorted(es), es, es', prefix);
  }

  /** How often a name is used. */
  function Uses(es: seq<Entry>, name: string): nat {
    if es == [] then 0 else Uses(es[1..], name) + if es[0].name == name then 1 else 0
  }

  lemma {:induction false} InsertUses(e: Entry, es: seq<Entry>, name: string)
    ensures Uses(Insert(e, es), name) == Uses([e] + es, name)
  {
    assert ([e] + es)[1..] == es;
    if es != [] && !AtMost(e.name, es[0].name) {
      InsertUses(e, es[1..], name);
      assert ([e] + es[1..])[1..] == es[1..];
      assert ([es[0]] + Insert(e, es[1..]))[1..] == Insert(e, es[1..]);
    }
  }

  lemma {:induction false} SortedUses(es: seq<Entry>, name: string)
    ensures Uses(Sorted(es), name) == Uses(es, name)
  {
    if es != [] {
      SortedUses(es[1..], name);
      InsertUses(es[0], Sorted(es[1..]), name);
      assert ([es[0]] + Sorted(es[1..]))[1..] == Sorted(es[1..]);
    }
  }

  lemma {:induction false} UsesAt(es: seq<Entry>, i: nat)
    requires i < |es|
    ensures Uses(es, es[i].name) >= 1
    ensures forall k :: i < k < |es| && es[k].name == es[i].name ==> Uses(es, es[i].name) >= 2
  {
    if i > 0 {
      UsesAt(es[1..], i - 1);
      assert forall k :: 0 < k < |es| ==> es[k] == es[1..][k - 1];
    } else {
      forall k | 0 < k < |es| && es[k].name == es[0].name ensures Uses(es, es[0].name) >= 2 { UsesAt(es[1..], k - 1); }
    }
  }

  lemma {:induction false} DistinctUses(es: seq<Entry>, name: string)
    requires DistinctNames(es)
    ensures Uses(es, name) <= 1 && (Uses(es, name) == 1 ==> exists i :: 0 <= i < |es| && es[i].name == name)
  {
    if es != [] { DistinctUses(es[1..], name); }
  }

  lemma SortedDistinct(es: seq<Entry>)
    requires DistinctNames(es)
    ensures DistinctNames(Sorted(es))
  {
    var s := Sorted(es);
    forall i, k | 0 <= i < k < |s| ensures s[i].name != s[k].name {
      DistinctUses(es, s[i].name);
      SortedUses(es, s[i].name);
      UsesAt(s, i);
    }
  }

  // ----- From a directory to its outputs -----

  /** The path's extension is one that is taken up. */
  predicate TakenUp(t: Tools, path: string, i: nat) {
    ExtAt(path, i) && t.lower(path[i..]) in [".avif", ".gif", ".ico", ".jpeg", ".jpg", ".png", ".svg", ".webp"]
  }

  lemma DiscoveredIff(t: Tools, s: Source)
    requires t.lower("") == ""
    ensures Discovered(t, s) <==> exists i: nat :: TakenUp(t, s.path, i)
  {
    var i := |s.path| - |ExtName(s.path)|;
    ExtNameIsSuffix(s.path);
    forall k { ExtNameAt(s.path, k); }
    hide ExtName, ExtAt;
    if Discovered(t, s) { assert TakenUp(t, s.path, i); }
  }

  /** The sources of a directory are exactly the files below it whose extension
      is taken up. */
  lemma SourcesAre(t: Tools, tree: seq<Entry>, s: Source)
    requires NamesOk(tree) && t.lower("") == ""
    ensures s in Found(t, tree, "") <==> Below(tree, "", s) && exists i: nat :: TakenUp(t, s.path, i)
  {
    FoundExact(t, tree, "", s);
    DiscoveredIff(t, s);
  }

  /** A completed run over a directory from an honest state: every file below it
      with a known extension is copied, if copies are asked for, and every one
      with the extension of a raster image is encoded in each format asked for,
      at that format's quality and effort. */
  lemma DirectoryLeaves(t: Tools, e: Encoder, c: Config, d: Disk, tree: seq<Entry>)
    requires GoodTools(t) && t.lower("") == "" && OneLine(e.sharp) && OneLine(e.vips) && Honest(t, d) && NamesOk(tree)
    requires RunOutputs(t, d, Outputs(t, e, c, Found(t, tree, ""))).1.Ok?
    ensures var files := RunOutputs(t, d, Outputs(t, e, c, Found(t, tree, ""))).0.files;
            && (c.copyOriginals ==> forall s, i: nat :: Below(tree, "", s) && TakenUp(t, s.path, i) ==>
                  s.path in files && files[s.path] == s.content)
            && (Webp in c.formats ==> forall s, i: nat :: Below(tree, "", s) && i <= |s.path| && Convertible(t, s.path, i) ==>
                  var path := s.path[..i] + ".webp";
                  path in files && t.convert(e, s.content, Webp, c.webpQuality, c.webpEffort) == Some(files[path]))
            && (Avif in c.formats ==> forall s, i: nat :: Below(tree, "", s) && i <= |s.path| && Convertible(t, s.path, i) ==>
                  var path := s.path[..i] + ".avif";
                  path in files && t.convert(e, s.content, Avif, c.avifQuality, c.avifEffort) == Some(files[path]))
  {
    forall s { SourcesAre(t, tree, s); }
    RunLeaves(t, e, c, d, Found(t, tree, ""));
    forall s: Source, i: nat | Convertible(t, s.path, i) ensures TakenUp(t, s.path, i) {}
    hide Found, Outputs, RunOutputs, Honest, GoodTools, Convertible, TakenUp, Below, IsCopy, IsConversion;
  }
}
