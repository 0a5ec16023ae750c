/**
 The incremental image pipeline: outputs and their fingerprints, the cache kept
 in the manifest, and the proof that a completed run leaves what a clean build
 would.
 */
module Images {
  import opened Wrappers
  import opened Text

  datatype Format = Webp | Avif

  /** What the model takes from elsewhere: the digest, the encoder, the check of
      an encoded file's signature, and lower-casing. */
  datatype Tools = Tools(sha: string -> string, convert: (Encoder, string, Format, nat, nat) -> Option<string>,
                         magic: (string, Format) -> bool, lower: string -> string)

  /** The versions of the encoder and of its library. */
  datatype Encoder = Encoder(sharp: string, vips: string)

  datatype Config = Config(copyOriginals: bool, formats: seq<Format>, webpQuality: nat, avifQuality: nat, webpEffort: nat, avifEffort: nat)

  datatype Source = Source(path: string, content: string)

  datatype Task = Copy | Convert(encoder: Encoder, format: Format, quality: nat, effort: nat)

  /** One output: where it goes, what it is made from and how. */
  datatype Output = Output(path: string, content: string, task: Task)

  type Files = map<string, string>

  // ----- Outputs -----

  const CopyExtensions := {".avif", ".gif", ".ico", ".jpeg", ".jpg", ".png", ".svg", ".webp"}
  const RasterExtensions := {".jpeg", ".jpg", ".png"}

  /** The extension: from the last dot of the last path component, unless the
      component begins with it. */
  function ExtName(path: string): string {
    if path == "" || path[|path| - 1] == '/' then ""
    else if path[|path| - 1] == '.' then if |path| == 1 || path[|path| - 2] == '/' then "" else "."
    else
      var e := ExtName(path[..|path| - 1]);
      if e == "" then "" else e + [path[|path| - 1]]
  }

  lemma {:induction false} ExtNameIsSuffix(path: string)
    ensures |ExtName(path)| <= |path| && path[|path| - |ExtName(path)|..] == ExtName(path)
  {
    if path != "" { ExtNameIsSuffix(path[..|path| - 1]); }
  }

  /** A dot in the last component, not its first character. */
  predicate ExtDot(path: string, i: nat) {
    0 < i < |path| && path[i] == '.' && '/' !in path[i..] && path[i - 1] != '/'
  }

  lemma ExtDotStep(init: string, c: char)
    ensures forall i: nat :: i < |init| ==> (ExtDot(init + [c], i) <==> ExtDot(init, i) && c != '/')
    ensures ExtDot(init + [c], |init|) <==> init != "" && c == '.' && init[|init| - 1] != '/'
  {
    var path := init + [c];
    forall i: nat | i < |init| ensures ExtDot(path, i) <==> ExtDot(init, i) && c != '/' { assert path[i..] == init[i..] + [c]; }
    assert path[|init|..] == [c];
  }

  /** The extension starts at the last such dot; without one there is none. */
  lemma {:induction false} ExtNameMeans(path: string)
    ensures var e := ExtName(path);
            && (e != "" ==> |e| < |path| && ExtDot(path, |path| - |e|) && '.' !in e[1..])
            && (e == "" ==> forall i: nat :: !ExtDot(path, i))
  {
    if path != "" {
      var init, c := path[..|path| - 1], path[|path| - 1];
      assert path == init + [c];
      ExtNameStep(init, c);
      ExtNameIsSuffix(init);
      ExtDotStep(init, c);
      ExtDotBounds(path);
      hide ExtDot, ExtName;
      ExtNameMeans(init);
    }
  }

  lemma ExtNameStep(init: string, c: char)
    ensures ExtName(init + [c]) ==
              if c == '/' then ""
              else if c == '.' then if init == "" || init[|init| - 1] == '/' then "" else "."
              else if ExtName(init) == "" then "" else ExtName(init) + [c]
  {
    assert (init + [c])[..|init|] == init;
  }

  lemma ExtDotBounds(path: string)
    ensures forall i: nat :: ExtDot(path, i) ==> i < |path|
  {}

  function FormatName(f: Format): string {
    if f.Webp? then "webp" else "avif"
  }

  function ConvertedPath(path: string, f: Format): string {
    ExtNameIsSuffix(path);
    path[..|path| - |ExtName(path)|] + "." + FormatName(f)
  }

  function Quality(c: Config, f: Format): nat {
    if f.Webp? then c.webpQuality else c.avifQuality
  }

  function Effort(c: Config, f: Format): nat {
    if f.Webp? then c.webpEffort else c.avifEffort
  }

  predicate Discovered(t: Tools, s: Source) {
    t.lower(ExtName(s.path)) in CopyExtensions
  }

  predicate Raster(t: Tools, s: Source) {
    t.lower(ExtName(s.path)) in RasterExtensions
  }

  function Conversions(e: Encoder, c: Config, s: Source, formats: seq<Format>): seq<Output> {
    if formats == [] then []
    else
      var f := formats[|formats| - 1];
      Conversions(e, c, s, formats[..|formats| - 1]) + [Output(ConvertedPath(s.path, f), s.content, Convert(e, f, Quality(c, f), Effort(c, f)))]
  }

  function OutputsOf(t: Tools, e: Encoder, c: Config, s: Source): seq<Output> {
    (if c.copyOriginals then [Output(s.path, s.content, Copy)] else [])
    + (if Raster(t, s) then Conversions(e, c, s, c.formats) else [])
  }

  /** The outputs of a run, in the order in which they are made. */
  function Outputs(t: Tools, e: Encoder, c: Config, files: seq<Source>): seq<Output> {
    if files == [] then []
    else Outputs(t, e, c, files[..|files| - 1]) + OutputsOf(t, e, c, files[|files| - 1])
  }

  // ----- Fingerprints -----

  function ImageLines(e: Encoder, digest: string, f: Format, quality: nat, effort: nat): seq<string> {
    ["pipeline:1", "sharp:" + e.sharp, "libvips:" + e.vips, "source:" + digest, "format:" + FormatName(f),
     "quality:" + Dec(quality), "effort:" + Dec(effort), "autoOrient:true"]
  }

  function JoinLines(ls: seq<string>): string {
    if ls == [] then "" else if |ls| == 1 then ls[0] else ls[0] + "\n" + JoinLines(ls[1..])
  }

  function Fingerprint(t: Tools, o: Output): string {
    match o.task
    case Copy => t.sha(JoinLines(["copy:v1", "source:" + t.sha(o.content)]))
    case Convert(e, f, q, x) => t.sha(JoinLines(ImageLines(e, t.sha(o.content), f, q, x)))
  }

  /** What a clean build writes for the output, None if the encoder fails. */
  function Clean(t: Tools, o: Output): Option<string> {
    match o.task
    case Copy => Some(o.content)
    case Convert(e, f, q, x) =>
      var r := t.convert(e, o.content, f, q, x);
      if r.Some? && t.magic(r.value, f) then r else None
  }

  predicate OneLine(s: string) {
    '\n' !in s
  }

  /** Digests are single lines and never collide. */
  ghost predicate GoodTools(t: Tools) {
    (forall s :: OneLine(t.sha(s))) && (forall s, u :: t.sha(s) == t.sha(u) ==> s == u)
  }

  predicate OutputOk(o: Output) {
    o.task.Convert? ==> OneLine(o.task.encoder.sharp) && OneLine(o.task.encoder.vips)
  }

  lemma {:induction false} JoinLinesInjective(a: seq<string>, b: seq<string>)
    requires a != [] && b != [] && (forall l :: l in a ==> OneLine(l)) && (forall l :: l in b ==> OneLine(l))
    requires JoinLines(a) == JoinLines(b)
    ensures a == b
  {
    var s := JoinLines(a);
    assert a[0] in a && b[0] in b;
    if |a| > 1 { IndexOfAfter(a[0], '\n', JoinLines(a[1..])); } else { IndexOfAbsent(a[0], '\n'); }
    if |b| > 1 { IndexOfAfter(b[0], '\n', JoinLines(b[1..])); } else { IndexOfAbsent(b[0], '\n'); }
    if |a| > 1 {
      assert forall l :: l in a[1..] ==> l in a;
      assert forall l :: l in b[1..] ==> l in b;
      JoinLinesInjective(a[1..], b[1..]);
      assert a == [a[0]] + a[1..] && b == [b[0]] + b[1..];
    } else {
      assert a == [a[0]] && b == [b[0]];
    }
  }

  lemma DecOneLine(n: nat)
    ensures OneLine(Dec(n))
  {
    DecReadsBack(n);
    hide Dec;
  }

  lemma ImageLinesOk(e: Encoder, digest: string, f: Format, quality: nat, effort: nat)
    requires OneLine(e.sharp) && OneLine(e.vips) && OneLine(digest)
    ensures forall l :: l in ImageLines(e, digest, f, quality, effort) ==> OneLine(l)
  {
    DecOneLine(quality);
    DecOneLine(effort);
    hide Dec;
    assert OneLine("sharp:") && OneLine("libvips:") && OneLine("source:") && OneLine("quality:") && OneLine("effort:");
  }

  lemma ImageLinesInjective(e: Encoder, d: string, f: Format, q: nat, x: nat, e': Encoder, d': string, f': Format, q': nat, x': nat)
    requires ImageLines(e, d, f, q, x) == ImageLines(e', d', f', q', x')
    ensures e == e' && d == d' && f == f' && q == q' && x == x'
  {
    hide Dec;
    var a, b := ImageLines(e, d, f, q, x), ImageLines(e', d', f', q', x');
    DecReadsBack(q);
    DecReadsBack(q');
    DecReadsBack(x);
    DecReadsBack(x');
    assert a[1][6..] == e.sharp && b[1][6..] == e'.sharp;
    assert a[2][8..] == e.vips && b[2][8..] == e'.vips;
    assert a[3][7..] == d && b[3][7..] == d';
    assert a[4][7..] == FormatName(f) && b[4][7..] == FormatName(f');
    assert a[5][8..] == Dec(q) && b[5][8..] == Dec(q');
    assert a[6][7..] == Dec(x) && b[6][7..] == Dec(x');
  }

  /** Equal fingerprints mean the same source and the same way to make it. */
  lemma FingerprintFixes(t: Tools, o: Output, p: Output)
    requires GoodTools(t) && OutputOk(o) && OutputOk(p) && Fingerprint(t, o) == Fingerprint(t, p)
    ensures o.content == p.content && o.task == p.task && Clean(t, o) == Clean(t, p)
  {
    hide JoinLines, ImageLines;
    var a, b := FingerprintLines(t, o), FingerprintLines(t, p);
    LinesAreSingle(t, o);
    LinesAreSingle(t, p);
    JoinLinesInjective(a, b);
    LinesFix(t, o, p);
  }

  function FingerprintLines(t: Tools, o: Output): seq<string> {
    match o.task
    case Copy => ["copy:v1", "source:" + t.sha(o.content)]
    case Convert(e, f, q, x) => ImageLines(e, t.sha(o.content), f, q, x)
  }

  lemma LinesAreSingle(t: Tools, o: Output)
    requires GoodTools(t) && OutputOk(o)
    ensures FingerprintLines(t, o) != [] && forall l :: l in FingerprintLines(t, o) ==> OneLine(l)
  {
    if o.task.Convert? { ImageLinesOk(o.task.encoder, t.sha(o.content), o.task.format, o.task.quality, o.task.effort); }
  }

  lemma LinesFix(t: Tools, o: Output, p: Output)
    requires GoodTools(t) && FingerprintLines(t, o) == FingerprintLines(t, p)
    ensures o.content == p.content && o.task == p.task
  {
    if o.task.Copy? && p.task.Copy? {
      assert FingerprintLines(t, o)[1][7..] == t.sha(o.content) && FingerprintLines(t, p)[1][7..] == t.sha(p.content);
    } else if o.task.Convert? && p.task.Convert? {
      var a, b := o.task, p.task;
      hide ImageLines;
      ImageLinesInjective(a.encoder, t.sha(o.content), a.format, a.quality, a.effort, b.encoder, t.sha(p.content), b.format, b.quality, b.effort);
    }
  }

  // ----- One run -----

  /** The output directory and the manifest of the last completed run. */
  datatype Disk = Disk(files: Files, manifest: Files)

  datatype Work = Work(files: Files, next: Files, written: nat, kept: nat)

  datatype RunError = NoSources | Collision | EncoderFailed

  /** Writes unless the same content is there already. */
  function WriteIfChanged(w: Work, path: string, content: string): Work {
    if path in w.files && w.files[path] == content then w.(kept := w.kept + 1)
    else w.(files := w.files[path := content], written := w.written + 1)
  }

  /** The cache is believed when the last run left this fingerprint and the
      file still exists. */
  predicate Hit(t: Tools, manifest: Files, files: Files, o: Output) {
    o.path in manifest && manifest[o.path] == Fingerprint(t, o) && o.path in files
  }

  /** One output, None if the encoder fails. */
  function Make(t: Tools, manifest: Files, w: Work, o: Output): (Work, bool) {
    var w1 := w.(next := w.next[o.path := Fingerprint(t, o)]);
    if Hit(t, manifest, w.files, o) then (w1.(kept := w.kept + 1), true)
    else match Clean(t, o)
         case None => (w1, false)
         case Some(content) => (WriteIfChanged(w1, o.path, content), true)
  }

  /** All outputs in order, up to the first failure. */
  function MakeAll(t: Tools, manifest: Files, w: Work, outs: seq<Output>): (Work, bool) {
    if outs == [] then (w, true)
    else
      var (w1, ok) := MakeAll(t, manifest, w, outs[..|outs| - 1]);
      if ok then Make(t, manifest, w1, outs[|outs| - 1]) else (w1, false)
  }

  /** Files that the last run managed and this one does not. */
  function Stale(manifest: Files, next: Files): set<string> {
    manifest.Keys - next.Keys
  }

  ghost predicate NoCollisions(t: Tools, outs: seq<Output>) {
    forall i, k :: 0 <= i < k < |outs| ==> t.lower(outs[i].path) != t.lower(outs[k].path)
  }

  datatype Stats = Stats(written: nat, kept: nat, pruned: nat)

  /** The disk after a run, and its counts or its error. A failed run has
      written what came before the failure, but no manifest. */
  ghost function RunOutputs(t: Tools, d: Disk, outs: seq<Output>): (Disk, Result<Stats, RunError>) {
    if !NoCollisions(t, outs) then (d, Err(Collision))
    else
      var (w, ok) := MakeAll(t, d.manifest, Work(d.files, map[], 0, 0), outs);
      if !ok then (d.(files := w.files), Err(EncoderFailed))
      else
        var gone := Stale(d.manifest, w.next);
        (Disk(w.files - gone, w.next), Ok(Stats(w.written, w.kept, |gone * w.files.Keys|)))
  }

  // ----- What a run leaves -----

  /** The path's output, after these outputs were made. */
  ghost predicate Makes(outs: seq<Output>, path: string, o: Output) {
    o in outs && o.path == path
  }

  ghost predicate DistinctPaths(outs: seq<Output>) {
    forall i, k :: 0 <= i < k < |outs| ==> outs[i].path != outs[k].path
  }

  lemma NoCollisionsDistinct(t: Tools, outs: seq<Output>)
    requires NoCollisions(t, outs)
    ensures DistinctPaths(outs)
  {
    assert forall i, k :: 0 <= i < k < |outs| && outs[i].path == outs[k].path ==> t.lower(outs[i].path) == t.lower(outs[k].path);
  }

  /** A believed cache entry is right. */
  predicate HonestHit(t: Tools, d: Disk, o: Output) {
    Hit(t, d.manifest, d.files, o) ==> Clean(t, o) == Some(d.files[o.path])
  }

  /** Exactly the paths of these outputs are noted, with their fingerprints. */
  ghost predicate Noted(t: Tools, w: Work, outs: seq<Output>) {
    && (forall o :: o in outs ==> o.path in w.next && w.next[o.path] == Fingerprint(t, o) && o.path in w.files)
    && (forall path :: path in w.next ==> (exists o :: Makes(outs, path, o)))
  }

  /** Each output holds its old content on a hit and its clean content otherwise. */
  ghost predicate Filled(t: Tools, d: Disk, w: Work, outs: seq<Output>) {
    forall o :: o in outs && o.path in w.files ==>
      if Hit(t, d.manifest, d.files, o) then w.files[o.path] == d.files[o.path] else Clean(t, o) == Some(w.files[o.path])
  }

  /** All other files are as they were. */
  ghost predicate OthersSame(d: Disk, w: Work) {
    forall path :: path !in w.next ==> (path in w.files <==> path in d.files) && (path in d.files ==> w.files[path] == d.files[path])
  }

  /** The state of the work after these outputs, each of which is counted. */
  ghost predicate Made(t: Tools, d: Disk, w: Work, outs: seq<Output>) {
    Noted(t, w, outs) && Filled(t, d, w, outs) && OthersSame(d, w) && w.written + w.kept == |outs|
  }

  lemma {:induction false} MakeAllMade(t: Tools, d: Disk, outs: seq<Output>)
    requires DistinctPaths(outs)
    ensures MakeAll(t, d.manifest, Work(d.files, map[], 0, 0), outs).1 ==>
              Made(t, d, MakeAll(t, d.manifest, Work(d.files, map[], 0, 0), outs).0, outs)
  {
    if outs == [] {
      NothingMade(t, d);
    } else {
      hide Made, Make, DistinctPaths, MakeAll;
      MakeAllStep(t, d.manifest, Work(d.files, map[], 0, 0), outs);
      LastIsNew(outs);
      MakeAllMade(t, d, outs[..|outs| - 1]);
      var at := MakeAll(t, d.manifest, Work(d.files, map[], 0, 0), outs[..|outs| - 1]);
      if at.1 && Make(t, d.manifest, at.0, outs[|outs| - 1]).1 {
        assert outs == outs[..|outs| - 1] + [outs[|outs| - 1]];
        MakeMade(t, d, at.0, outs[..|outs| - 1], outs[|outs| - 1]);
      }
    }
  }

  lemma MakeAllStep(t: Tools, manifest: Files, w: Work, outs: seq<Output>)
    requires outs != []
    ensures var (w1, ok) := MakeAll(t, manifest, w, outs[..|outs| - 1]);
            MakeAll(t, manifest, w, outs) == if ok then Make(t, manifest, w1, outs[|outs| - 1]) else (w1, false)
  {
    hide Make;
  }

  lemma NothingMade(t: Tools, d: Disk)
    ensures Made(t, d, Work(d.files, map[], 0, 0), [])
  {
    hide Fingerprint, Clean;
  }

  lemma LastIsNew(outs: seq<Output>)
    requires outs != [] && DistinctPaths(outs)
    ensures DistinctPaths(outs[..|outs| - 1])
    ensures forall p :: p in outs[..|outs| - 1] ==> p.path != outs[|outs| - 1].path
  {
    var init := outs[..|outs| - 1];
    assert forall i :: 0 <= i < |init| ==> init[i] == outs[i];
  }

  lemma NotNotedYet(t: Tools, w: Work, outs: seq<Output>, o: Output)
    requires Noted(t, w, outs) && forall p :: p in outs ==> p.path != o.path
    ensures o.path !in w.next
  {
    hide Fingerprint;
    forall path | path in w.next ensures path != o.path { var p :| Makes(outs, path, p); }
  }

  lemma MakeNoted(t: Tools, manifest: Files, w: Work, outs: seq<Output>, o: Output)
    requires Noted(t, w, outs) && (forall p :: p in outs ==> p.path != o.path) && Make(t, manifest, w, o).1
    ensures Noted(t, Make(t, manifest, w, o).0, outs + [o])
  {
    hide Fingerprint, Clean;
    var w' := Make(t, manifest, w, o).0;
    var all := outs + [o];
    assert all[|outs|] == o;
    forall path | path in w'.next ensures exists p :: Makes(all, path, p) {
      if path == o.path { assert Makes(all, path, o); } else { var p :| Makes(outs, path, p); assert Makes(all, path, p); }
    }
  }

  /** What making one output does to the files. */
  lemma MakeMeans(t: Tools, manifest: Files, w: Work, o: Output)
    requires Make(t, manifest, w, o).1
    ensures var w' := Make(t, manifest, w, o).0;
            && w'.next == w.next[o.path := Fingerprint(t, o)] && o.path in w'.files
            && (if Hit(t, manifest, w.files, o) then w'.files == w.files else Clean(t, o) == Some(w'.files[o.path]))
            && w'.written + w'.kept == w.written + w.kept + 1
            && forall path :: path != o.path ==> (path in w'.files <==> path in w.files) && (path in w.files ==> w'.files[path] == w.files[path])
  {
    hide Fingerprint, Clean;
  }

  lemma MakeMade(t: Tools, d: Disk, w: Work, outs: seq<Output>, o: Output)
    requires Made(t, d, w, outs) && (forall p :: p in outs ==> p.path != o.path) && Make(t, d.manifest, w, o).1
    ensures Made(t, d, Make(t, d.manifest, w, o).0, outs + [o])
  {
    MakeNoted(t, d.manifest, w, outs, o);
    NotNotedYet(t, w, outs, o);
    MakeMeans(t, d.manifest, w, o);
    hide Fingerprint, Clean, Noted, Make;
    assert Hit(t, d.manifest, w.files, o) <==> Hit(t, d.manifest, d.files, o);
    hide Hit;
  }

  // ----- Completed runs -----

  /** What a clean build of these outputs would hold at each path. */
  ghost predicate IsClean(t: Tools, files: Files, outs: seq<Output>) {
    forall o :: o in outs ==> o.path in files && Clean(t, o) == Some(files[o.path])
  }

  /** A completed run leaves what a clean build would exactly if every cache
      entry that it believed was right. */
  lemma CleanIffHonest(t: Tools, d: Disk, outs: seq<Output>)
    requires RunOutputs(t, d, outs).1.Ok?
    ensures IsClean(t, RunOutputs(t, d, outs).0.files, outs) <==> forall o :: o in outs ==> HonestHit(t, d, o)
  {
    hide Fingerprint, Clean, RunOutputs, Hit, MakeAll, Made, DistinctPaths;
    var w := Completed(t, d, outs);
    forall o | o in outs
      ensures o.path in RunOutputs(t, d, outs).0.files
      ensures Clean(t, o) == Some(RunOutputs(t, d, outs).0.files[o.path]) <==> HonestHit(t, d, o)
    {
      OutputLeft(t, d, w, outs, o);
    }
  }

  /** What a completed run leaves at the path of an output. */
  lemma OutputLeft(t: Tools, d: Disk, w: Work, outs: seq<Output>, o: Output)
    requires Made(t, d, w, outs) && o in outs
    ensures o.path in w.next && w.next[o.path] == Fingerprint(t, o)
    ensures o.path in w.files - Stale(d.manifest, w.next) && (w.files - Stale(d.manifest, w.next))[o.path] == w.files[o.path]
    ensures if Hit(t, d.manifest, d.files, o) then w.files[o.path] == d.files[o.path] else Clean(t, o) == Some(w.files[o.path])
  {
    hide Fingerprint, Clean, Hit, OthersSame;
  }

  /** The work of a completed run, and its result. */
  lemma Completed(t: Tools, d: Disk, outs: seq<Output>) returns (w: Work)
    requires RunOutputs(t, d, outs).1.Ok?
    ensures Made(t, d, w, outs) && DistinctPaths(outs)
    ensures RunOutputs(t, d, outs) == (Disk(w.files - Stale(d.manifest, w.next), w.next),
                                       Ok(Stats(w.written, w.kept, |Stale(d.manifest, w.next) * w.files.Keys|)))
  {
    NoCollisionsDistinct(t, outs);
    MakeAllMade(t, d, outs);
    w := MakeAll(t, d.manifest, Work(d.files, map[], 0, 0), outs).0;
  }

  /** Every managed file that exists is the clean output of some task with the
      fingerprint in the manifest. */
  ghost predicate Honest(t: Tools, d: Disk) {
    forall path :: path in d.manifest && path in d.files ==> (exists o :: Explains(t, d, path, o))
  }

  ghost predicate Explains(t: Tools, d: Disk, path: string, o: Output)
    requires path in d.manifest && path in d.files
  {
    OutputOk(o) && Fingerprint(t, o) == d.manifest[path] && Clean(t, o) == Some(d.files[path])
  }

  ghost predicate OutputsOk(outs: seq<Output>) {
    forall o :: o in outs ==> OutputOk(o)
  }

  /** Where managed files are honest, believing the cache is right. */
  lemma HonestHits(t: Tools, d: Disk, o: Output)
    requires GoodTools(t) && Honest(t, d) && OutputOk(o)
    ensures HonestHit(t, d, o)
  {
    hide Fingerprint, Clean, GoodTools, OutputOk;
    if Hit(t, d.manifest, d.files, o) {
      var p :| Explains(t, d, o.path, p);
      FingerprintFixes(t, o, p);
    }
  }

  /** A completed run from an honest state: each output holds what a clean build
      would write, the manifest lists exactly the outputs, files managed before
      and no longer produced are gone, unmanaged files are untouched, every
      output is counted once, and the state is honest again. */
  lemma IncrementalIsClean(t: Tools, d: Disk, outs: seq<Output>)
    requires GoodTools(t) && Honest(t, d) && OutputsOk(outs) && RunOutputs(t, d, outs).1.Ok?
    ensures var (d', r) := RunOutputs(t, d, outs);
            && IsClean(t, d'.files, outs)
            && (forall o :: o in outs ==> o.path in d'.manifest && d'.manifest[o.path] == Fingerprint(t, o))
            && (forall path :: path in d'.manifest ==> (exists o :: Makes(outs, path, o)))
            && (forall path :: path in d.manifest && path !in d'.manifest ==> path !in d'.files)
            && (forall path :: path !in d.manifest && path !in d'.manifest ==>
                  (path in d'.files <==> path in d.files) && (path in d.files ==> d'.files[path] == d.files[path]))
            && r.value.written + r.value.kept == |outs|
            && Honest(t, d')
  {
    hide Fingerprint, Clean, Hit, MakeAll, RunOutputs, Honest, GoodTools, HonestHit, OutputOk, DistinctPaths;
    var w := Completed(t, d, outs);
    forall o | o in outs ensures HonestHit(t, d, o) { HonestHits(t, d, o); }
    CleanIffHonest(t, d, outs);
    RunHonest(t, RunOutputs(t, d, outs).0, w, outs);
    hide Filled, IsClean;
  }

  lemma RunHonest(t: Tools, d: Disk, w: Work, outs: seq<Output>)
    requires Noted(t, w, outs) && d.manifest == w.next && IsClean(t, d.files, outs) && OutputsOk(outs)
    ensures Honest(t, d)
  {
    hide Fingerprint, Clean, OutputOk;
    forall path | path in d.manifest && path in d.files ensures exists o :: Explains(t, d, path, o) {
      var o :| Makes(outs, path, o);
      assert Explains(t, d, path, o);
    }
  }

  lemma {:induction false} AllHits(t: Tools, d: Disk, outs: seq<Output>)
    requires forall o :: o in outs ==> Hit(t, d.manifest, d.files, o)
    ensures var (w, ok) := MakeAll(t, d.manifest, Work(d.files, map[], 0, 0), outs);
            ok && w.files == d.files && w.written == 0 && w.kept == |outs|
  {
    hide Fingerprint, Clean;
    if outs != [] {
      AllHits(t, d, outs[..|outs| - 1]);
      MakeAllStep(t, d.manifest, Work(d.files, map[], 0, 0), outs);
      hide MakeAll;
      assert Hit(t, d.manifest, d.files, outs[|outs| - 1]);
    }
  }

  lemma IdleWork(t: Tools, d: Disk, w: Work, outs: seq<Output>)
    requires Noted(t, w, outs) && d.manifest == w.next && DistinctPaths(outs) && forall o :: o in outs ==> o.path in d.files
    ensures MakeAll(t, d.manifest, Work(d.files, map[], 0, 0), outs) == (Work(d.files, d.manifest, 0, |outs|), true)
  {
    hide Fingerprint, Clean, MakeAll, DistinctPaths, Noted;
    NotedHits(t, d, w, outs);
    AllHits(t, d, outs);
    MakeAllMade(t, d, outs);
    SameNotes(t, w, MakeAll(t, d.manifest, Work(d.files, map[], 0, 0), outs).0, outs);
  }

  lemma NotedHits(t: Tools, d: Disk, w: Work, outs: seq<Output>)
    requires Noted(t, w, outs) && d.manifest == w.next && forall o :: o in outs ==> o.path in d.files
    ensures forall o :: o in outs ==> Hit(t, d.manifest, d.files, o)
  {
    hide Fingerprint;
  }

  /** Running again at once writes nothing, prunes nothing and changes nothing. */
  lemma SecondRunIsIdle(t: Tools, d: Disk, outs: seq<Output>)
    requires RunOutputs(t, d, outs).1.Ok?
    ensures var d' := RunOutputs(t, d, outs).0;
            RunOutputs(t, d', outs) == (d', Ok(Stats(0, |outs|, 0)))
  {
    var d' := RunOutputs(t, d, outs).0;
    RunChecked(t, d, outs);
    hide *;
    var w := Completed(t, d, outs);
    forall o | o in outs ensures o.path in d'.files { OutputLeft(t, d, w, outs, o); }
    MadeNoted(t, d, w, outs);
    IdleWork(t, d', w, outs);
    IdleRun(t, d', outs);
  }

  lemma RunChecked(t: Tools, d: Disk, outs: seq<Output>)
    requires RunOutputs(t, d, outs).1.Ok?
    ensures NoCollisions(t, outs)
  {
    hide NoCollisions, MakeAll;
  }

  lemma MadeNoted(t: Tools, d: Disk, w: Work, outs: seq<Output>)
    requires Made(t, d, w, outs)
    ensures Noted(t, w, outs)
  {
    hide Noted, Filled, OthersSame;
  }

  lemma IdleRun(t: Tools, d: Disk, outs: seq<Output>)
    requires NoCollisions(t, outs)
    requires MakeAll(t, d.manifest, Work(d.files, map[], 0, 0), outs) == (Work(d.files, d.manifest, 0, |outs|), true)
    ensures RunOutputs(t, d, outs) == (d, Ok(Stats(0, |outs|, 0)))
  {
    hide NoCollisions, MakeAll;
    assert Stale(d.manifest, d.manifest) == {} && d.files - {} == d.files;
    assert {} * d.files.Keys == {};
  }

  lemma SameNotes(t: Tools, w: Work, w': Work, outs: seq<Output>)
    requires Noted(t, w, outs) && Noted(t, w', outs)
    ensures w.next == w'.next
  {
    hide Fingerprint;
    forall path | path in w.next ensures path in w'.next && w'.next[path] == w.next[path] { var o :| Makes(outs, path, o); }
    forall path | path in w'.next ensures path in w.next { var o :| Makes(outs, path, o); }
  }

  // ----- Histories -----

  /** Between runs anybody may change what the pipeline does not manage, and
      delete what it does. */
  ghost predicate Edited(d: Disk, d': Disk) {
    && d'.manifest == d.manifest
    && forall path :: path in d.manifest && path in d'.files ==> path in d.files && d'.files[path] == d.files[path]
  }

  lemma EditedHonest(t: Tools, d: Disk, d': Disk)
    requires Honest(t, d) && Edited(d, d')
    ensures Honest(t, d')
  {
    hide Fingerprint, Clean, OutputOk;
    forall path | path in d'.manifest && path in d'.files ensures exists o :: Explains(t, d', path, o) {
      var o :| Explains(t, d, path, o);
      assert Explains(t, d', path, o);
    }
  }

  /** One edit and one completed run. */
  ghost predicate Built(t: Tools, d: Disk, outs: seq<Output>, d': Disk) {
    OutputsOk(outs) && exists e :: Edited(d, e) && RunOutputs(t, e, outs).1.Ok? && RunOutputs(t, e, outs).0 == d'
  }

  /** The manifest lists exactly the outputs. */
  ghost predicate Lists(manifest: Files, outs: seq<Output>) {
    && (forall path :: path in manifest ==> (exists o :: Makes(outs, path, o)))
    && (forall o :: o in outs ==> o.path in manifest)
  }

  /** Over any sequence of edits and completed runs, with sources and settings
      changing freely, each run leaves exactly what a clean build would. */
  lemma {:induction false} EveryBuildIsClean(t: Tools, ds: seq<Disk>, builds: seq<seq<Output>>, n: nat)
    requires GoodTools(t) && |ds| == |builds| + 1 && n < |builds| && ds[0].manifest == map[]
    requires forall i :: 0 <= i < |builds| ==> Built(t, ds[i], builds[i], ds[i + 1])
    ensures IsClean(t, ds[n + 1].files, builds[n]) && Honest(t, ds[n + 1])
    ensures Lists(ds[n + 1].manifest, builds[n])
  {
    hide GoodTools, Honest, Edited, OutputsOk, RunOutputs, IsClean;
    if n == 0 { EmptyHonest(t, ds[0]); } else { EveryBuildIsClean(t, ds, builds, n - 1); }
    assert Built(t, ds[n], builds[n], ds[n + 1]);
    var e :| Edited(ds[n], e) && RunOutputs(t, e, builds[n]).1.Ok? && RunOutputs(t, e, builds[n]).0 == ds[n + 1];
    EditedHonest(t, ds[n], e);
    IncrementalIsClean(t, e, builds[n]);
  }

  lemma EmptyHonest(t: Tools, d: Disk)
    requires d.manifest == map[]
    ensures Honest(t, d)
  {}

  // ----- Runs that fail -----

  lemma MakeAllOne(t: Tools, manifest: Files, w: Work, o: Output)
    ensures MakeAll(t, manifest, w, [o]) == Make(t, manifest, w, o)
  {
    hide Make;
    assert [o][..0] == [];
  }

  lemma MakeAllTwo(t: Tools, manifest: Files, w: Work, o: Output, p: Output)
    ensures MakeAll(t, manifest, w, [o, p]) ==
            if Make(t, manifest, w, o).1 then Make(t, manifest, Make(t, manifest, w, o).0, p) else Make(t, manifest, w, o)
  {
    hide Make;
    MakeAllOne(t, manifest, w, o);
    assert [o, p][..1] == [o];
  }

  /** A first build makes `o`. A second one with another content for the same
      path fails on a later output, after it wrote that content but before it
      wrote the manifest. Once the source is as at first, the next run completes
      and believes the cache, so it leaves the wrong content. */
  lemma StaleAfterFailure(t: Tools, o: Output, changed: Output, bad: Output)
    requires GoodTools(t) && o.task.Copy? && changed == o.(content := changed.content) && changed.content != o.content
    requires Clean(t, bad).None? && t.lower(bad.path) != t.lower(o.path)
    ensures var d1 := RunOutputs(t, Disk(map[], map[]), [o]).0;
            var d2 := RunOutputs(t, d1, [changed, bad]).0;
            var (d3, r3) := RunOutputs(t, d2, [o]);
            && RunOutputs(t, d1, [changed, bad]).1 == Err(EncoderFailed)
            && r3.Ok? && !IsClean(t, d3.files, [o])
  {
    var f := Fingerprint(t, o);
    FirstBuild(t, o);
    var d1 := Disk(map[o.path := o.content], map[o.path := f]);
    FailedBuild(t, d1, o, changed, bad);
    var d2 := Disk(map[o.path := changed.content], map[o.path := f]);
    hide Fingerprint, MakeAll, Make;
    MakeAllOne(t, d2.manifest, Work(d2.files, map[], 0, 0), o);
    assert Hit(t, d2.manifest, d2.files, o);
    HitMakes(t, d2.manifest, Work(d2.files, map[], 0, 0), o);
    CleanIffHonest(t, d2, [o]);
    assert o in [o] && !HonestHit(t, d2, o);
  }

  lemma HitMakes(t: Tools, manifest: Files, w: Work, o: Output)
    requires Hit(t, manifest, w.files, o)
    ensures Make(t, manifest, w, o).1
  {
    hide Fingerprint;
  }

  lemma FirstBuild(t: Tools, o: Output)
    requires o.task.Copy?
    ensures RunOutputs(t, Disk(map[], map[]), [o]).0 == Disk(map[o.path := o.content], map[o.path := Fingerprint(t, o)])
  {
    MakeAllOne(t, map[], Work(map[], map[], 0, 0), o);
    hide Fingerprint, MakeAll;
    var w := Work(map[o.path := o.content], map[o.path := Fingerprint(t, o)], 1, 0);
    assert Make(t, map[], Work(map[], map[], 0, 0), o) == (w, true);
    hide Make;
    assert Stale(map[], w.next) == {} && w.files - {} == w.files;
  }

  lemma FailedBuild(t: Tools, d: Disk, o: Output, changed: Output, bad: Output)
    requires GoodTools(t) && o.task.Copy? && changed == o.(content := changed.content) && changed.content != o.content
    requires Clean(t, bad).None? && t.lower(bad.path) != t.lower(o.path)
    requires d == Disk(map[o.path := o.content], map[o.path := Fingerprint(t, o)])
    ensures RunOutputs(t, d, [changed, bad]) == (Disk(map[o.path := changed.content], d.manifest), Err(EncoderFailed))
  {
    if Fingerprint(t, changed) == Fingerprint(t, o) { FingerprintFixes(t, changed, o); }
    MakeAllTwo(t, d.manifest, Work(d.files, map[], 0, 0), changed, bad);
    hide Fingerprint, MakeAll, GoodTools;
    assert bad.path != o.path;
    assert d.files[o.path := changed.content] == map[o.path := changed.content];
  }

  /** What a run that got this far has written, by path: the outputs made before
      the failure, except those for which it believed the cache. */
  ghost function Rewrites(t: Tools, d: Disk, outs: seq<Output>): map<string, Output> {
    if outs == [] then map[]
    else
      var init, o := outs[..|outs| - 1], outs[|outs| - 1];
      var before := Rewrites(t, d, init);
      if MakeAll(t, d.manifest, Work(d.files, map[], 0, 0), outs).1 && !Hit(t, d.manifest, d.files, o) then before[o.path := o]
      else before
  }

  /** The files are as they were but for these outputs. */
  ghost predicate Rewritten(t: Tools, files: Files, files': Files, r: map<string, Output>) {
    && (forall path :: path in r ==> path in files' && Clean(t, r[path]) == Some(files'[path]))
    && (forall path :: path !in r ==> (path in files' <==> path in files) && (path in files ==> files'[path] == files[path]))
  }

  /** A run's part up to a failure rewrites exactly those paths. */
  lemma {:induction false} FailedFiles(t: Tools, d: Disk, outs: seq<Output>)
    requires DistinctPaths(outs)
    ensures Rewritten(t, d.files, MakeAll(t, d.manifest, Work(d.files, map[], 0, 0), outs).0.files, Rewrites(t, d, outs))
    ensures forall path :: path in Rewrites(t, d, outs) ==> exists o :: Makes(outs, path, o)
  {
    var start := Work(d.files, map[], 0, 0);
    if outs == [] {
      NothingDone(t, d.manifest, start);
      hide MakeAll;
    } else {
      RewritesStep(t, d, outs);
      hide Clean, Hit, Make, DistinctPaths, MakeAll, Makes, Rewrites, Rewritten;
      var init, o := outs[..|outs| - 1], outs[|outs| - 1];
      LastIsNew(outs);
      FailedFiles(t, d, init);
      MakeAllStep(t, d.manifest, start, outs);
      var (w1, ok) := MakeAll(t, d.manifest, start, init);
      assert outs == init + [o];
      MakesMore(init, o);
      if ok {
        NotMadeYet(t, d, init, o);
        MakeRewritten(t, d, w1, o, Rewrites(t, d, init));
      }
    }
  }

  lemma RewritesStep(t: Tools, d: Disk, outs: seq<Output>)
    requires outs != []
    ensures var init, o := outs[..|outs| - 1], outs[|outs| - 1];
            Rewrites(t, d, outs) ==
              if MakeAll(t, d.manifest, Work(d.files, map[], 0, 0), outs).1 && !Hit(t, d.manifest, d.files, o)
              then Rewrites(t, d, init)[o.path := o] else Rewrites(t, d, init)
  {
    hide MakeAll, Hit;
  }

  lemma MakeRewritten(t: Tools, d: Disk, w: Work, o: Output, r: map<string, Output>)
    requires Rewritten(t, d.files, w.files, r) && o.path !in r
    ensures var (w', ok) := Make(t, d.manifest, w, o);
            Rewritten(t, d.files, w'.files, if ok && !Hit(t, d.manifest, d.files, o) then r[o.path := o] else r)
  {
    MakeFiles(t, d, w, o);
    hide Make, Hit, Clean;
  }

  lemma NothingDone(t: Tools, manifest: Files, w: Work)
    ensures MakeAll(t, manifest, w, []) == (w, true)
  {}

  lemma MakesMore(outs: seq<Output>, o: Output)
    ensures forall path, p :: Makes(outs, path, p) ==> Makes(outs + [o], path, p)
    ensures Makes(outs + [o], o.path, o)
  {
    assert (outs + [o])[|outs|] == o;
  }

  lemma NotMadeYet(t: Tools, d: Disk, outs: seq<Output>, o: Output)
    requires (forall p :: p in outs ==> p.path != o.path) && forall path :: path in Rewrites(t, d, outs) ==> exists p :: Makes(outs, path, p)
    ensures o.path !in Rewrites(t, d, outs)
  {
    hide Rewrites;
    assert !(exists p :: Makes(outs, o.path, p));
  }

  /** One output, made or failed, when its path is still as at the start. */
  lemma MakeFiles(t: Tools, d: Disk, w: Work, o: Output)
    requires (o.path in w.files <==> o.path in d.files) && (o.path in d.files ==> w.files[o.path] == d.files[o.path])
    ensures var (w', ok) := Make(t, d.manifest, w, o);
            if ok && !Hit(t, d.manifest, d.files, o)
            then o.path in w'.files && Clean(t, o) == Some(w'.files[o.path])
                 && (forall path :: path != o.path ==> (path in w'.files <==> path in w.files) && (path in w.files ==> w'.files[path] == w.files[path]))
            else w'.files == w.files
  {
    hide Fingerprint, Clean;
  }

  /** What failed runs have left at managed paths: by path, the output that was
      written there last. Every other managed file is the clean output of some
      task with the fingerprint in the manifest. */
  ghost predicate Traced(t: Tools, d: Disk, left: map<string, Output>) {
    forall path :: path in d.manifest && path in d.files ==>
      if path in left then Clean(t, left[path]) == Some(d.files[path]) else exists o :: Explains(t, d, path, o)
  }

  /** The manifest still holds this output's fingerprint, but a failed run has
      put something else in its place. */
  ghost predicate Spoiled(t: Tools, d: Disk, left: map<string, Output>, o: Output) {
    Hit(t, d.manifest, d.files, o) && o.path in left && Clean(t, left[o.path]) != Clean(t, o)
  }

  /** What failed runs have left after one more run. */
  ghost function LeftAfter(t: Tools, d: Disk, left: map<string, Output>, outs: seq<Output>): map<string, Output> {
    match RunOutputs(t, d, outs).1
    case Err(EncoderFailed) => left + Rewrites(t, d, outs)
    case Err(_) => left
    case Ok(_) => map path | path in left && (exists o :: Makes(outs, path, o) && Spoiled(t, d, left, o)) :: left[path]
  }

  lemma TracedHit(t: Tools, d: Disk, left: map<string, Output>, o: Output)
    requires GoodTools(t) && Traced(t, d, left) && OutputOk(o)
    ensures HonestHit(t, d, o) <==> !Spoiled(t, d, left, o)
  {
    hide Fingerprint, Clean, GoodTools, OutputOk;
    if Hit(t, d.manifest, d.files, o) && o.path !in left {
      var p :| Explains(t, d, o.path, p);
      FingerprintFixes(t, o, p);
    }
  }

  /** A completed run leaves what a clean build would exactly if no output that
      it believes to be cached was spoiled by a failed run. */
  lemma CompletedExact(t: Tools, d: Disk, left: map<string, Output>, outs: seq<Output>)
    requires GoodTools(t) && Traced(t, d, left) && OutputsOk(outs) && RunOutputs(t, d, outs).1.Ok?
    ensures IsClean(t, RunOutputs(t, d, outs).0.files, outs) <==> forall o :: o in outs ==> !Spoiled(t, d, left, o)
    ensures Traced(t, RunOutputs(t, d, outs).0, LeftAfter(t, d, left, outs))
  {
    hide GoodTools, Traced, RunOutputs, HonestHit, Spoiled, OutputOk, IsClean, LeftAfter;
    CleanIffHonest(t, d, outs);
    forall o | o in outs ensures HonestHit(t, d, o) <==> !Spoiled(t, d, left, o) { TracedHit(t, d, left, o); }
    CompletedTraced(t, d, left, outs);
  }

  lemma CompletedTraced(t: Tools, d: Disk, left: map<string, Output>, outs: seq<Output>)
    requires GoodTools(t) && Traced(t, d, left) && OutputsOk(outs) && RunOutputs(t, d, outs).1.Ok?
    ensures Traced(t, RunOutputs(t, d, outs).0, LeftAfter(t, d, left, outs))
  {
    hide GoodTools, Traced, RunOutputs, Spoiled, OutputOk, LeftAfter, Clean, Fingerprint, Hit, Made, DistinctPaths, Explains, Filled;
    var w := Completed(t, d, outs);
    MadeNoted(t, d, w, outs);
    var d' := RunOutputs(t, d, outs).0;
    var left' := LeftAfter(t, d, left, outs);
    LeftMeans(t, d, left, outs);
    forall path | path in d'.manifest && path in d'.files
      ensures if path in left' then Clean(t, left'[path]) == Some(d'.files[path]) else exists o :: Explains(t, d', path, o)
    {
      var o :| Makes(outs, path, o);
      OutputLeft(t, d, w, outs, o);
      OutputTraced(t, d, left, d', o);
      OneMakes(outs, path, o);
      SpoiledLeft(t, d, left, o);
    }
    TracedIf(t, d', left');
  }

  lemma SpoiledLeft(t: Tools, d: Disk, left: map<string, Output>, o: Output)
    ensures Spoiled(t, d, left, o) ==> o.path in left
  {}

  lemma TracedIf(t: Tools, d: Disk, left: map<string, Output>)
    requires forall path :: path in d.manifest && path in d.files ==>
               if path in left then Clean(t, left[path]) == Some(d.files[path]) else exists o :: Explains(t, d, path, o)
    ensures Traced(t, d, left)
  {
    hide Clean, Explains;
  }

  lemma LeftMeans(t: Tools, d: Disk, left: map<string, Output>, outs: seq<Output>)
    requires RunOutputs(t, d, outs).1.Ok?
    ensures var left' := LeftAfter(t, d, left, outs);
            && (forall path :: path in left' <==> path in left && exists o :: Makes(outs, path, o) && Spoiled(t, d, left, o))
            && (forall path :: path in left' ==> left'[path] == left[path])
  {
    hide RunOutputs, Makes, Spoiled;
  }

  lemma OneMakes(outs: seq<Output>, path: string, o: Output)
    requires DistinctPaths(outs) && Makes(outs, path, o)
    ensures forall p :: Makes(outs, path, p) ==> p == o
  {}

  /** A completed run and one of its outputs. */
  lemma OutputTraced(t: Tools, d: Disk, left: map<string, Output>, d': Disk, o: Output)
    requires GoodTools(t) && Traced(t, d, left) && OutputOk(o)
    requires o.path in d'.manifest && d'.manifest[o.path] == Fingerprint(t, o) && o.path in d'.files
    requires if Hit(t, d.manifest, d.files, o) then d'.files[o.path] == d.files[o.path] else Clean(t, o) == Some(d'.files[o.path])
    ensures if Spoiled(t, d, left, o) then Clean(t, left[o.path]) == Some(d'.files[o.path]) else Explains(t, d', o.path, o)
  {
    hide Fingerprint, Clean, GoodTools, OutputOk;
    TracedHit(t, d, left, o);
  }

  /** A failed run. */
  lemma FailedTraced(t: Tools, d: Disk, left: map<string, Output>, outs: seq<Output>)
    requires Traced(t, d, left) && RunOutputs(t, d, outs).1.Err?
    ensures Traced(t, RunOutputs(t, d, outs).0, LeftAfter(t, d, left, outs)) && RunOutputs(t, d, outs).0.manifest == d.manifest
  {
    FailedRun(t, d, outs);
    hide Fingerprint, Clean, MakeAll, Rewrites, OutputOk, NoCollisions, Hit, RunOutputs;
    var d' := RunOutputs(t, d, outs).0;
    if RunOutputs(t, d, outs).1 == Err(EncoderFailed) {
      forall path | path in d'.manifest && path in d'.files && path !in left + Rewrites(t, d, outs) ensures exists o :: Explains(t, d', path, o) {
        var o :| Explains(t, d, path, o);
        assert Explains(t, d', path, o);
      }
    }
  }

  lemma FailedRun(t: Tools, d: Disk, outs: seq<Output>)
    requires RunOutputs(t, d, outs).1.Err?
    ensures var (d', r) := RunOutputs(t, d, outs);
            && d'.manifest == d.manifest
            && if r.error.EncoderFailed? then Rewritten(t, d.files, d'.files, Rewrites(t, d, outs)) else d' == d
  {
    if NoCollisions(t, outs) {
      NoCollisionsDistinct(t, outs);
      FailedFiles(t, d, outs);
    }
    hide Rewrites, MakeAll, NoCollisions, Rewritten;
  }

  lemma EditedTraced(t: Tools, d: Disk, d': Disk, left: map<string, Output>)
    requires Traced(t, d, left) && Edited(d, d')
    ensures Traced(t, d', left)
  {
    hide Fingerprint, Clean, OutputOk;
    forall path | path in d'.manifest && path in d'.files && path !in left ensures exists o :: Explains(t, d', path, o) {
      var o :| Explains(t, d, path, o);
      assert Explains(t, d', path, o);
    }
  }

  /** From an honest state, after a failed run and before a completed one: the
      completed run is clean exactly if none of its outputs has its fingerprint
      in the manifest and other content written in its place by the failed run. */
  lemma FailureSpoils(t: Tools, d: Disk, failed: seq<Output>, e: Disk, outs: seq<Output>)
    requires GoodTools(t) && Honest(t, d) && RunOutputs(t, d, failed).1 == Err(EncoderFailed)
    requires Edited(RunOutputs(t, d, failed).0, e) && OutputsOk(outs) && RunOutputs(t, e, outs).1.Ok?
    ensures IsClean(t, RunOutputs(t, e, outs).0.files, outs) <==>
              forall o :: o in outs ==>
                !(&& o.path in d.manifest && d.manifest[o.path] == Fingerprint(t, o) && o.path in e.files
                  && o.path in Rewrites(t, d, failed) && Clean(t, Rewrites(t, d, failed)[o.path]) != Clean(t, o))
  {
    var left := Rewrites(t, d, failed);
    FailureTraced(t, d, failed, e);
    CompletedExact(t, e, left, outs);
    hide GoodTools, Honest, RunOutputs, IsClean, Traced, Rewrites, Fingerprint, Clean, OutputOk, LeftAfter;
    assert forall o :: Spoiled(t, e, left, o) <==>
      (&& o.path in e.manifest && e.manifest[o.path] == Fingerprint(t, o) && o.path in e.files
       && o.path in left && Clean(t, left[o.path]) != Clean(t, o));
  }

  lemma FailureTraced(t: Tools, d: Disk, failed: seq<Output>, e: Disk)
    requires Honest(t, d) && RunOutputs(t, d, failed).1 == Err(EncoderFailed) && Edited(RunOutputs(t, d, failed).0, e)
    ensures Traced(t, e, Rewrites(t, d, failed)) && e.manifest == d.manifest
  {
    HonestTraced(t, d);
    FailedTraced(t, d, map[], failed);
    EditedTraced(t, RunOutputs(t, d, failed).0, e, LeftAfter(t, d, map[], failed));
    hide Honest, RunOutputs, Traced, Rewrites;
    assert map[] + Rewrites(t, d, failed) == Rewrites(t, d, failed);
  }

  /** The condition at the failing input: the second build spoils `o`. */
  lemma StaleIsSpoiled(t: Tools, o: Output, changed: Output, bad: Output)
    requires GoodTools(t) && o.task.Copy? && changed == o.(content := changed.content) && changed.content != o.content
    requires Clean(t, bad).None? && t.lower(bad.path) != t.lower(o.path)
    ensures var d1 := RunOutputs(t, Disk(map[], map[]), [o]).0;
            var d2 := RunOutputs(t, d1, [changed, bad]).0;
            Honest(t, d1) && Spoiled(t, d2, Rewrites(t, d1, [changed, bad]), o)
  {
    var d0 := Disk(map[], map[]);
    var d1 := RunOutputs(t, d0, [o]).0;
    var d2 := RunOutputs(t, d1, [changed, bad]).0;
    FirstOk(t, o);
    EmptyHonest(t, d0);
    SingleOk(o);
    EditedSelf(d2);
    hide GoodTools, Honest, RunOutputs, IsClean, Rewrites, Fingerprint, Clean, OutputsOk, Spoiled, Traced, LeftAfter, Edited;
    StaleAfterFailure(t, o, changed, bad);
    IncrementalIsClean(t, d0, [o]);
    FailureTraced(t, d1, [changed, bad], d2);
    CompletedExact(t, d2, Rewrites(t, d1, [changed, bad]), [o]);
  }

  lemma SingleOk(o: Output)
    requires o.task.Copy?
    ensures OutputsOk([o])
  {}

  lemma EditedSelf(d: Disk)
    ensures Edited(d, d)
  {}

  lemma FirstOk(t: Tools, o: Output)
    requires o.task.Copy?
    ensures RunOutputs(t, Disk(map[], map[]), [o]).1.Ok?
  {
    MakeAllOne(t, map[], Work(map[], map[], 0, 0), o);
    hide Fingerprint;
  }

  lemma HonestTraced(t: Tools, d: Disk)
    requires Honest(t, d)
    ensures Traced(t, d, map[])
  {
    hide Explains;
  }

  /** A history of edits and runs, completed or not, and what failed runs have
      left before each. */
  ghost predicate History(t: Tools, ds: seq<Disk>, es: seq<Disk>, builds: seq<seq<Output>>, lefts: seq<map<string, Output>>) {
    && |ds| == |builds| + 1 && |es| == |builds| && |lefts| == |ds|
    && ds[0].manifest == map[] && lefts[0] == map[]
    && forall i :: 0 <= i < |builds| ==> Happened(t, ds[i], lefts[i], es[i], builds[i], ds[i + 1], lefts[i + 1])
  }

  ghost predicate Happened(t: Tools, d: Disk, left: map<string, Output>, e: Disk, outs: seq<Output>, d': Disk, left': map<string, Output>) {
    OutputsOk(outs) && Edited(d, e) && d' == RunOutputs(t, e, outs).0 && left' == LeftAfter(t, e, left, outs)
  }

  lemma HappenedTraced(t: Tools, d: Disk, left: map<string, Output>, e: Disk, outs: seq<Output>, d': Disk, left': map<string, Output>)
    requires GoodTools(t) && Traced(t, d, left) && Happened(t, d, left, e, outs, d', left')
    ensures Traced(t, e, left) && Traced(t, d', left')
  {
    EditedTraced(t, d, e, left);
    hide GoodTools, Traced, RunOutputs, LeftAfter, Edited;
    if RunOutputs(t, e, outs).1.Ok? { CompletedExact(t, e, left, outs); } else { FailedTraced(t, e, left, outs); }
  }

  lemma {:induction false} HistoryTraced(t: Tools, ds: seq<Disk>, es: seq<Disk>, builds: seq<seq<Output>>, lefts: seq<map<string, Output>>, n: nat)
    requires GoodTools(t) && History(t, ds, es, builds, lefts) && n < |ds|
    ensures Traced(t, ds[n], lefts[n])
  {
    hide GoodTools, Traced, Happened;
    if n == 0 {
      EmptyHonest(t, ds[0]);
      HonestTraced(t, ds[0]);
    } else {
      HistoryTraced(t, ds, es, builds, lefts, n - 1);
      var i := n - 1;
      assert Happened(t, ds[i], lefts[i], es[i], builds[i], ds[i + 1], lefts[i + 1]);
      HappenedTraced(t, ds[i], lefts[i], es[i], builds[i], ds[i + 1], lefts[i + 1]);
    }
  }

  /** Over any history of edits, failed runs and completed runs, a completed run
      leaves what a clean build would exactly if none of its outputs was spoiled
      by a failed run before; in particular, if none has failed since the
      manifest was empty. */
  lemma EveryBuildExact(t: Tools, ds: seq<Disk>, es: seq<Disk>, builds: seq<seq<Output>>, lefts: seq<map<string, Output>>, n: nat)
    requires GoodTools(t) && History(t, ds, es, builds, lefts) && n < |builds| && RunOutputs(t, es[n], builds[n]).1.Ok?
    ensures IsClean(t, ds[n + 1].files, builds[n]) <==> forall o :: o in builds[n] ==> !Spoiled(t, es[n], lefts[n], o)
    ensures lefts[n] == map[] ==> IsClean(t, ds[n + 1].files, builds[n]) && lefts[n + 1] == map[]
  {
    HistoryTraced(t, ds, es, builds, lefts, n);
    assert Happened(t, ds[n], lefts[n], es[n], builds[n], ds[n + 1], lefts[n + 1]);
    HappenedTraced(t, ds[n], lefts[n], es[n], builds[n], ds[n + 1], lefts[n + 1]);
    LeftMeans(t, es[n], lefts[n], builds[n]);
    hide GoodTools, Traced, RunOutputs, IsClean, LeftAfter, Hit, Edited, OutputsOk;
    CompletedExact(t, es[n], lefts[n], builds[n]);
  }

  // ----- From sources to outputs -----

  lemma {:induction false} OutputsAreOk(t: Tools, e: Encoder, c: Config, files: seq<Source>)
    requires OneLine(e.sharp) && OneLine(e.vips)
    ensures OutputsOk(Outputs(t, e, c, files))
  {
    if files != [] {
      OutputsAreOk(t, e, c, files[..|files| - 1]);
      ConversionsAreOk(e, c, files[|files| - 1], c.formats);
    }
  }

  lemma {:induction false} ConversionsAreOk(e: Encoder, c: Config, s: Source, formats: seq<Format>)
    requires OneLine(e.sharp) && OneLine(e.vips)
    ensures OutputsOk(Conversions(e, c, s, formats))
  {
    if formats != [] { ConversionsAreOk(e, c, s, formats[..|formats| - 1]); }
  }

  // ----- What the outputs are -----

  /** The path's extension begins at this dot: the last one of its last
      component, and not the component's first character. */
  predicate ExtAt(path: string, i: nat) {
    ExtDot(path, i) && '.' !in path[i + 1..]
  }

  lemma ExtNameAt(path: string, i: nat)
    ensures ExtAt(path, i) <==> ExtName(path) != "" && i == |path| - |ExtName(path)|
    ensures ExtAt(path, i) ==> ExtName(path) == path[i..]
  {
    ExtNameMeans(path);
    ExtNameIsSuffix(path);
    var e := ExtName(path);
    hide ExtName;
    if e != "" {
      var k: nat := |path| - |e|;
      assert path[k + 1..] == e[1..];
      if ExtAt(path, i) {
        if i < k { DotAfter(path, i, k); }
        if k < i { DotAfter(path, k, i); }
      }
    }
  }

  lemma DotAfter(path: string, i: nat, k: nat)
    requires i < k < |path| && path[k] == '.'
    ensures '.' in path[i + 1..]
  {
    assert path[i + 1..][k - i - 1] == '.';
  }

  /** A source with an image extension that can be converted. */
  predicate Convertible(t: Tools, path: string, i: nat) {
    ExtAt(path, i) && t.lower(path[i..]) in [".jpeg", ".jpg", ".png"]
  }

  /** The copy of a source. */
  predicate IsCopy(c: Config, s: Source, o: Output) {
    c.copyOriginals && o == Output(s.path, s.content, Copy)
  }

  /** The conversion of a source to WebP or AVIF: at its path with the extension
      replaced, with that format's own quality and effort. */
  ghost predicate IsConversion(t: Tools, e: Encoder, c: Config, s: Source, o: Output) {
    exists i: nat :: Convertible(t, s.path, i) && o.content == s.content &&
      ((Webp in c.formats && o.path == s.path[..i] + ".webp" && o.task == Convert(e, Webp, c.webpQuality, c.webpEffort))
       || (Avif in c.formats && o.path == s.path[..i] + ".avif" && o.task == Convert(e, Avif, c.avifQuality, c.avifEffort)))
  }

  lemma {:induction false} ConversionsAre(e: Encoder, c: Config, s: Source, formats: seq<Format>, o: Output)
    ensures o in Conversions(e, c, s, formats) <==>
              exists f :: f in formats && o == Output(ConvertedPath(s.path, f), s.content, Convert(e, f, Quality(c, f), Effort(c, f)))
  {
    hide ConvertedPath, Quality, Effort;
    if formats != [] {
      var n := |formats| - 1;
      ConversionsAre(e, c, s, formats[..n], o);
      assert forall f :: f in formats <==> f in formats[..n] || f == formats[n];
    }
  }

  /** The one place where an output's path and settings come from the format. */
  lemma FormatOutput(t: Tools, e: Encoder, c: Config, s: Source, f: Format, o: Output, i: nat)
    requires ExtAt(s.path, i)
    ensures o == Output(ConvertedPath(s.path, f), s.content, Convert(e, f, Quality(c, f), Effort(c, f))) <==>
              && o.content == s.content
              && (if f.Webp? then o.path == s.path[..i] + ".webp" && o.task == Convert(e, Webp, c.webpQuality, c.webpEffort)
                  else o.path == s.path[..i] + ".avif" && o.task == Convert(e, Avif, c.avifQuality, c.avifEffort))
  {
    ExtNameAt(s.path, i);
    hide ExtName, ExtAt;
    assert s.path[..i] + "." + "webp" == s.path[..i] + ".webp" && s.path[..i] + "." + "avif" == s.path[..i] + ".avif";
  }

  lemma RasterExtAt(t: Tools, s: Source)
    requires t.lower("") == ""
    ensures Raster(t, s) ==> exists i: nat :: Convertible(t, s.path, i)
    ensures forall i: nat :: Convertible(t, s.path, i) ==> Raster(t, s)
  {
    var i := |s.path| - |ExtName(s.path)|;
    ExtNameIsSuffix(s.path);
    forall k { ExtNameAt(s.path, k); }
    hide ExtName, ExtAt;
    if Raster(t, s) { assert Convertible(t, s.path, i); }
  }

  lemma SourceOutputs(t: Tools, e: Encoder, c: Config, s: Source, o: Output)
    requires t.lower("") == ""
    ensures o in OutputsOf(t, e, c, s) <==> IsCopy(c, s, o) || IsConversion(t, e, c, s, o)
  {
    ConversionsAre(e, c, s, c.formats, o);
    RasterExtAt(t, s);
    hide Conversions, ConvertedPath, Quality, Effort, Raster, ExtAt;
    forall i: nat, f | Convertible(t, s.path, i)
      ensures o == Output(ConvertedPath(s.path, f), s.content, Convert(e, f, Quality(c, f), Effort(c, f))) <==>
              && o.content == s.content
              && (if f.Webp? then o.path == s.path[..i] + ".webp" && o.task == Convert(e, Webp, c.webpQuality, c.webpEffort)
                  else o.path == s.path[..i] + ".avif" && o.task == Convert(e, Avif, c.avifQuality, c.avifEffort))
    {
      FormatOutput(t, e, c, s, f, o, i);
    }
  }

  /** The outputs of a run are exactly the copies that are asked for, and the
      conversions of the sources that can be converted to the formats asked for. */
  lemma {:induction false} OutputsAre(t: Tools, e: Encoder, c: Config, files: seq<Source>, o: Output)
    requires t.lower("") == ""
    ensures o in Outputs(t, e, c, files) <==> exists s :: s in files && (IsCopy(c, s, o) || IsConversion(t, e, c, s, o))
  {
    hide OutputsOf, IsConversion, IsCopy;
    if files != [] {
      var n := |files| - 1;
      OutputsAre(t, e, c, files[..n], o);
      SourceOutputs(t, e, c, files[n], o);
      assert forall s :: s in files <==> s in files[..n] || s == files[n];
    }
  }

  /** What a file at this path should hold. */
  function Encoded(t: Tools, e: Encoder, c: Config, content: string, f: Format): Option<string> {
    if f.Webp? then t.convert(e, content, Webp, c.webpQuality, c.webpEffort) else t.convert(e, content, Avif, c.avifQuality, c.avifEffort)
  }

  /** A completed run from an honest state: every copy asked for holds its source,
      every conversion asked for holds the encoder's result at that format's own
      settings, and the manifest lists no other path. */
  lemma RunLeaves(t: Tools, e: Encoder, c: Config, d: Disk, files: seq<Source>)
    requires GoodTools(t) && t.lower("") == "" && OneLine(e.sharp) && OneLine(e.vips) && Honest(t, d)
    requires RunOutputs(t, d, Outputs(t, e, c, files)).1.Ok?
    ensures var d' := RunOutputs(t, d, Outputs(t, e, c, files)).0;
            && (c.copyOriginals ==> forall s :: s in files ==> s.path in d'.files && d'.files[s.path] == s.content)
            && (Webp in c.formats ==> forall s, i: nat :: s in files && i <= |s.path| && Convertible(t, s.path, i) ==>
                  s.path[..i] + ".webp" in d'.files && Encoded(t, e, c, s.content, Webp) == Some(d'.files[s.path[..i] + ".webp"]))
            && (Avif in c.formats ==> forall s, i: nat :: s in files && i <= |s.path| && Convertible(t, s.path, i) ==>
                  s.path[..i] + ".avif" in d'.files && Encoded(t, e, c, s.content, Avif) == Some(d'.files[s.path[..i] + ".avif"]))
            && (forall path :: path in d'.manifest ==> exists s, o: Output :: s in files && o.path == path && (IsCopy(c, s, o) || IsConversion(t, e, c, s, o)))
  {
    hide Outputs, RunOutputs, Honest, GoodTools, IsCopy, IsConversion, Convertible, Encoded;
    var d' := RunOutputs(t, d, Outputs(t, e, c, files)).0;
    forall s, o | s in files && (IsCopy(c, s, o) || IsConversion(t, e, c, s, o)) ensures o.path in d'.files && Clean(t, o) == Some(d'.files[o.path]) {
      LeavesOutput(t, e, c, d, files, s, o);
    }
    hide Clean;
    forall s | s in files && c.copyOriginals ensures s.path in d'.files && d'.files[s.path] == s.content { CopyOf(t, c, s); }
    forall s, i: nat | s in files && i <= |s.path| && Convertible(t, s.path, i) && Webp in c.formats
      ensures s.path[..i] + ".webp" in d'.files && Encoded(t, e, c, s.content, Webp) == Some(d'.files[s.path[..i] + ".webp"])
    {
      WebpOf(t, e, c, s, i);
    }
    forall s, i: nat | s in files && i <= |s.path| && Convertible(t, s.path, i) && Avif in c.formats
      ensures s.path[..i] + ".avif" in d'.files && Encoded(t, e, c, s.content, Avif) == Some(d'.files[s.path[..i] + ".avif"])
    {
      AvifOf(t, e, c, s, i);
    }
    LeavesListed(t, e, c, d, files);
  }

  lemma LeavesOutput(t: Tools, e: Encoder, c: Config, d: Disk, files: seq<Source>, s: Source, o: Output)
    requires GoodTools(t) && t.lower("") == "" && OneLine(e.sharp) && OneLine(e.vips) && Honest(t, d)
    requires RunOutputs(t, d, Outputs(t, e, c, files)).1.Ok?
    requires s in files && (IsCopy(c, s, o) || IsConversion(t, e, c, s, o))
    ensures var d' := RunOutputs(t, d, Outputs(t, e, c, files)).0; o.path in d'.files && Clean(t, o) == Some(d'.files[o.path])
  {
    hide Outputs, RunOutputs, Honest, GoodTools, IsCopy, IsConversion, Clean, OutputsOk, Fingerprint;
    OutputsAre(t, e, c, files, o);
    OutputsAreOk(t, e, c, files);
    IncrementalIsClean(t, d, Outputs(t, e, c, files));
  }

  lemma LeavesListed(t: Tools, e: Encoder, c: Config, d: Disk, files: seq<Source>)
    requires GoodTools(t) && t.lower("") == "" && OneLine(e.sharp) && OneLine(e.vips) && Honest(t, d)
    requires RunOutputs(t, d, Outputs(t, e, c, files)).1.Ok?
    ensures forall path :: path in RunOutputs(t, d, Outputs(t, e, c, files)).0.manifest ==>
              exists s, o: Output :: s in files && o.path == path && (IsCopy(c, s, o) || IsConversion(t, e, c, s, o))
  {
    hide Outputs, RunOutputs, Honest, GoodTools, IsCopy, IsConversion, OutputsOk, Fingerprint, IsClean;
    var outs := Outputs(t, e, c, files);
    OutputsAreOk(t, e, c, files);
    IncrementalIsClean(t, d, outs);
    forall path | path in RunOutputs(t, d, outs).0.manifest
      ensures exists s, o: Output :: s in files && o.path == path && (IsCopy(c, s, o) || IsConversion(t, e, c, s, o))
    {
      var o :| Makes(outs, path, o);
      OutputsAre(t, e, c, files, o);
    }
  }

  lemma CopyOf(t: Tools, c: Config, s: Source)
    requires c.copyOriginals
    ensures IsCopy(c, s, Output(s.path, s.content, Copy)) && Clean(t, Output(s.path, s.content, Copy)) == Some(s.content)
  {}

  lemma WebpOf(t: Tools, e: Encoder, c: Config, s: Source, i: nat)
    requires Webp in c.formats && i <= |s.path| && Convertible(t, s.path, i)
    ensures var o := Output(s.path[..i] + ".webp", s.content, Convert(e, Webp, c.webpQuality, c.webpEffort));
            IsConversion(t, e, c, s, o) && (Clean(t, o).Some? ==> Encoded(t, e, c, s.content, Webp) == Clean(t, o))
  {
    hide Convertible;
  }

  lemma AvifOf(t: Tools, e: Encoder, c: Config, s: Source, i: nat)
    requires Avif in c.formats && i <= |s.path| && Convertible(t, s.path, i)
    ensures var o := Output(s.path[..i] + ".avif", s.content, Convert(e, Avif, c.avifQuality, c.avifEffort));
            IsConversion(t, e, c, s, o) && (Clean(t, o).Some? ==> Encoded(t, e, c, s.content, Avif) == Clean(t, o))
  {
    hide Convertible;
  }
}
