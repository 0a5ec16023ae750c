/**
 The image pipeline as the program runs it: nested loops over files and formats,
 with the output directory, the new manifest and the counters updated on the way.
 */
module ImagePipeline {
  import opened Wrappers
  import opened Text
  import opened Images
  import opened ImageTree

  class OutputDir {
    var files: Files
    var manifest: Files

    constructor ()
      ensures files == map[] && manifest == map[]
    {
      files, manifest := map[], map[];
    }

    ghost function D(): Disk
      reads this
    {
      Disk(files, manifest)
    }

    /** Writes unless the same content is there; contents are compared by length
        and digest. */
    method WriteAtomicIfChanged(t: Tools, path: string, content: string) returns (changed: bool)
      requires GoodTools(t)
      modifies this`files
      ensures files == old(files)[path := content]
      ensures changed <==> !(path in old(files) && old(files)[path] == content)
    {
      if path in files {
        var existing := files[path];
        if |existing| == |content| && t.sha(existing) == t.sha(content) {
          assert files == files[path := content];
          return false;
        }
      }
      files := files[path := content];
      return true;
    }

    /** Removes what was managed before and is not any more. */
    method PruneManagedFiles(previous: Files, next: Files) returns (pruned: nat)
      modifies this`files
      ensures files == old(files) - Stale(previous, next)
      ensures pruned == |Stale(previous, next) * old(files).Keys|
    {
      var left := previous.Keys;
      ghost var gone: set<string>, was := {}, files;
      pruned := 0;
      PruneNone(was);
      hide Without, Stale;
      while left != {}
        invariant forall p :: p in gone <==> p in previous && p !in left && p !in next
        invariant left <= previous.Keys
        invariant files == Without(was, gone) && pruned == |gone * was.Keys|
        decreases |left|
      {
        var path :| path in left;
        left := left - {path};
        if path !in next {
          PruneStep(gone, was, path);
          PruneCount(gone, was.Keys, path);
          if path in files {
            files := files - {path};
            pruned := pruned + 1;
          }
          gone := gone + {path};
        }
      }
      PruneDone(was, previous, next, gone);
    }
  }

  /** The files without those that are gone. */
  function Without(files: Files, gone: set<string>): Files {
    files - gone
  }

  lemma PruneNone(files: Files)
    ensures Without(files, {}) == files && |{} * files.Keys| == 0
  {
    assert {} * files.Keys == {};
  }

  lemma PruneDone(files: Files, previous: Files, next: Files, gone: set<string>)
    requires forall p :: p in gone <==> p in previous && p !in next
    ensures gone == Stale(previous, next) && Without(files, gone) == files - gone
  {}

  lemma PruneStep(gone: set<string>, files: Files, path: string)
    requires path !in gone
    ensures path in Without(files, gone) <==> path in files
    ensures Without(files, gone + {path}) == if path in files then Without(files, gone) - {path} else Without(files, gone)
  {}

  lemma PruneCount(gone: set<string>, keys: set<string>, path: string)
    requires path !in gone
    ensures |(gone + {path}) * keys| == |gone * keys| + if path in keys then 1 else 0
  {
    if path in keys {
      assert (gone + {path}) * keys == gone * keys + {path};
    } else {
      assert (gone + {path}) * keys == gone * keys;
    }
  }

  lemma MakeAllSnoc(t: Tools, manifest: Files, w: Work, outs: seq<Output>, o: Output)
    ensures var (w1, ok) := MakeAll(t, manifest, w, outs);
            MakeAll(t, manifest, w, outs + [o]) == if ok then Make(t, manifest, w1, o) else (w1, false)
  {
    hide Make;
    assert (outs + [o])[..|outs|] == outs;
  }

  lemma {:induction false} MakeAllStops(t: Tools, manifest: Files, w: Work, outs: seq<Output>, more: seq<Output>)
    requires !MakeAll(t, manifest, w, outs).1
    ensures MakeAll(t, manifest, w, outs + more) == MakeAll(t, manifest, w, outs)
  {
    hide Make;
    if more == [] {
      assert outs + more == outs;
    } else {
      assert (outs + more)[..|outs + more| - 1] == outs + more[..|more| - 1];
      MakeAllStops(t, manifest, w, outs, more[..|more| - 1]);
    }
  }

  lemma {:induction false} OutputsAppend(t: Tools, e: Encoder, c: Config, a: seq<Source>, b: seq<Source>)
    ensures Outputs(t, e, c, a + b) == Outputs(t, e, c, a) + Outputs(t, e, c, b)
  {
    hide OutputsOf;
    if b == [] {
      assert a + b == a && Outputs(t, e, c, a) + [] == Outputs(t, e, c, a);
    } else {
      assert (a + b)[..|a + b| - 1] == a + b[..|b| - 1];
      OutputsAppend(t, e, c, a, b[..|b| - 1]);
      ConcatAssocOutputs(Outputs(t, e, c, a), Outputs(t, e, c, b[..|b| - 1]), OutputsOf(t, e, c, b[|b| - 1]));
    }
  }

  lemma ConcatAssocOutputs(a: seq<Output>, b: seq<Output>, c: seq<Output>)
    ensures (a + b) + c == a + (b + c)
  {}

  lemma {:induction false} ConversionsPrefix(e: Encoder, c: Config, s: Source, n: nat)
    requires n < |c.formats|
    ensures Conversions(e, c, s, c.formats[..n + 1]) == Conversions(e, c, s, c.formats[..n]) +
              [Output(ConvertedPath(s.path, c.formats[n]), s.content,
                      Convert(e, c.formats[n], Quality(c, c.formats[n]), Effort(c, c.formats[n])))]
  {
    assert c.formats[..n + 1][..n] == c.formats[..n];
  }

  /** The work so far, while no output has failed. */
  ghost predicate Underway(t: Tools, d: Disk, done: seq<Output>, files: Files, next: Files, written: nat, kept: nat) {
    MakeAll(t, d.manifest, Work(d.files, map[], 0, 0), done) == (Work(files, next, written, kept), true)
  }

  /** The pipeline's variables that change on the way. */
  datatype Progress = Progress(next: Files, written: nat, kept: nat)

  /** One output: believed, or made and written. */
  method MakeOne(t: Tools, dir: OutputDir, previous: Files, p: Progress, o: Output, ghost d: Disk, ghost done: seq<Output>)
    returns (q: Progress, ok: bool)
    requires GoodTools(t) && previous == d.manifest && Underway(t, d, done, dir.files, p.next, p.written, p.kept)
    modifies dir`files
    ensures ok ==> Underway(t, d, done + [o], dir.files, q.next, q.written, q.kept)
    ensures !ok ==> Failed(t, d, done + [o], dir.files)
  {
    hide MakeAll, GoodTools, Fingerprint, Clean;
    MakeAllSnoc(t, d.manifest, Work(d.files, map[], 0, 0), done, o);
    var fingerprint := Fingerprint(t, o);
    q, ok := p.(next := p.next[o.path := fingerprint]), true;
    if o.path in previous && previous[o.path] == fingerprint && o.path in dir.files {
      q := q.(kept := q.kept + 1);
      return;
    }
    var content := Clean(t, o);
    if content.None? { return q, false; }
    ghost var was := dir.files;
    var changed := dir.WriteAtomicIfChanged(t, o.path, content.value);
    if changed {
      q := q.(written := q.written + 1);
    } else {
      assert dir.files == was;
      q := q.(kept := q.kept + 1);
    }
  }

  /** The first formats' conversions come first. */
  lemma {:induction false} FirstConversions(e: Encoder, c: Config, s: Source, n: nat)
    requires n <= |c.formats|
    ensures Conversions(e, c, s, c.formats[..n]) <= Conversions(e, c, s, c.formats)
    decreases |c.formats| - n
  {
    if n == |c.formats| {
      assert c.formats[..n] == c.formats;
    } else {
      ConversionsPrefix(e, c, s, n);
      FirstConversions(e, c, s, n + 1);
    }
  }

  /** Converts one source to every format; `made` are the outputs it came to. */
  method MakeConversions(t: Tools, e: Encoder, c: Config, dir: OutputDir, previous: Files, p: Progress, s: Source, ghost d: Disk, ghost done: seq<Output>)
    returns (q: Progress, ok: bool, ghost made: seq<Output>)
    requires GoodTools(t) && previous == d.manifest && Underway(t, d, done, dir.files, p.next, p.written, p.kept)
    modifies dir`files
    ensures made <= Conversions(e, c, s, c.formats) && (ok ==> made == Conversions(e, c, s, c.formats))
    ensures ok ==> Underway(t, d, done + made, dir.files, q.next, q.written, q.kept)
    ensures !ok ==> Failed(t, d, done + made, dir.files)
  {
    hide MakeAll, GoodTools, Underway, ExtName, ConvertedPath, Conversions, Failed;
    made, q := [], p;
    NoConversions(e, c, s);
    assert c.formats[..0] == [] && done + [] == done;
    for i := 0 to |c.formats|
      invariant made == Conversions(e, c, s, c.formats[..i])
      invariant Underway(t, d, done + made, dir.files, q.next, q.written, q.kept)
    {
      var f := c.formats[i];
      var o := Output(ConvertedPath(s.path, f), s.content, Convert(e, f, Quality(c, f), Effort(c, f)));
      q, ok := MakeOne(t, dir, previous, q, o, d, done + made);
      ConversionsPrefix(e, c, s, i);
      assert (done + made) + [o] == done + (made + [o]);
      made := made + [o];
      FirstConversions(e, c, s, i + 1);
      if !ok { return; }
    }
    assert c.formats[..|c.formats|] == c.formats;
    ok := true;
  }

  /** All outputs of one source. */
  method MakeSource(t: Tools, e: Encoder, c: Config, dir: OutputDir, previous: Files, p: Progress, s: Source, ghost d: Disk, ghost done: seq<Output>)
    returns (q: Progress, ok: bool, ghost made: seq<Output>)
    requires GoodTools(t) && previous == d.manifest && Underway(t, d, done, dir.files, p.next, p.written, p.kept)
    modifies dir`files
    ensures made <= OutputsOf(t, e, c, s) && (ok ==> made == OutputsOf(t, e, c, s))
    ensures ok ==> Underway(t, d, done + made, dir.files, q.next, q.written, q.kept)
    ensures !ok ==> Failed(t, d, done + made, dir.files)
  {
    hide MakeAll, GoodTools, Underway, ExtName, Conversions, Failed;
    q, ok, made := p, true, [];
    assert done + [] == done;
    if c.copyOriginals {
      var copy := Output(s.path, s.content, Copy);
      q, ok := MakeOne(t, dir, previous, q, copy, d, done);
      made := [copy];
      if !ok { return; }
    }
    if !Raster(t, s) { return; }
    ghost var head, more := made, [];
    q, ok, more := MakeConversions(t, e, c, dir, previous, q, s, d, done + head);
    made := head + more;
    assert (done + head) + more == done + made;
  }

  lemma NoConversions(e: Encoder, c: Config, s: Source)
    ensures Conversions(e, c, s, []) == []
  {}

  /** The outputs so far, the last of which failed, left these files. */
  ghost predicate Failed(t: Tools, d: Disk, done: seq<Output>, files: Files) {
    var (w, fine) := MakeAll(t, d.manifest, Work(d.files, map[], 0, 0), done);
    !fine && w.files == files
  }

  /** After a failure nothing more is made. */
  lemma Stops(t: Tools, d: Disk, done: seq<Output>, all: seq<Output>, files: Files)
    requires Failed(t, d, done, files) && done <= all
    ensures Failed(t, d, all, files)
  {
    MakeAllStops(t, d.manifest, Work(d.files, map[], 0, 0), done, all[|done|..]);
    assert done + all[|done|..] == all;
  }

  /** Registers every output path in lower case; refuses the second of two. */
  method AssertNoOutputCollisions(t: Tools, e: Encoder, c: Config, files: seq<Source>) returns (ok: bool)
    ensures ok <==> NoCollisions(t, Outputs(t, e, c, files))
  {
    hide OutputsOf;
    var seen: set<string> := {};
    ghost var done: seq<Output> := [];
    ok := true;
    NothingCollides(t);
    for i := 0 to |files|
      invariant done == Outputs(t, e, c, files[..i])
      invariant NoCollisions(t, done) && Registered(t, done, seen)
    {
      hide Registered, NoCollisions, Outputs;
      ghost var made;
      ok, seen, made := RegisterSource(t, e, c, files[i], seen, done);
      OutputsStep(t, e, c, files, i);
      if !ok {
        OutputsPrefix(t, e, c, files, i + 1);
        CollidesFurther(t, done + made, Outputs(t, e, c, files));
        return;
      }
      done := done + made;
    }
    assert files[..|files|] == files;
  }

  /** The set holds exactly the lower-cased paths of these outputs. */
  ghost predicate Registered(t: Tools, done: seq<Output>, seen: set<string>) {
    forall p :: p in seen <==> exists i :: 0 <= i < |done| && t.lower(done[i].path) == p
  }

  lemma NothingCollides(t: Tools)
    ensures NoCollisions(t, []) && Registered(t, [], {})
  {}

  lemma RegisterOne(t: Tools, done: seq<Output>, seen: set<string>, o: Output)
    requires NoCollisions(t, done) && Registered(t, done, seen)
    ensures NoCollisions(t, done + [o]) <==> t.lower(o.path) !in seen
    ensures Registered(t, done + [o], seen + {t.lower(o.path)})
  {
    var all := done + [o];
    assert all[|done|] == o && forall i :: 0 <= i < |done| ==> all[i] == done[i];
  }

  lemma CollidesFurther(t: Tools, done: seq<Output>, all: seq<Output>)
    requires !NoCollisions(t, done) && done <= all
    ensures !NoCollisions(t, all)
  {}

  lemma OutputsStep(t: Tools, e: Encoder, c: Config, files: seq<Source>, i: nat)
    requires i < |files|
    ensures Outputs(t, e, c, files[..i + 1]) == Outputs(t, e, c, files[..i]) + OutputsOf(t, e, c, files[i])
  {
    hide OutputsOf;
    assert files[..i + 1][..i] == files[..i];
  }

  lemma OutputsPrefix(t: Tools, e: Encoder, c: Config, files: seq<Source>, n: nat)
    requires n <= |files|
    ensures Outputs(t, e, c, files[..n]) <= Outputs(t, e, c, files)
  {
    OutputsAppend(t, e, c, files[..n], files[n..]);
    assert files[..n] + files[n..] == files;
  }

  method RegisterSource(t: Tools, e: Encoder, c: Config, s: Source, seen0: set<string>, ghost done: seq<Output>)
    returns (ok: bool, seen: set<string>, ghost made: seq<Output>)
    requires NoCollisions(t, done) && Registered(t, done, seen0)
    ensures made <= OutputsOf(t, e, c, s)
    ensures ok ==> made == OutputsOf(t, e, c, s) && NoCollisions(t, done + made) && Registered(t, done + made, seen)
    ensures !ok ==> !NoCollisions(t, done + made)
  {
    hide NoCollisions, Registered, ExtName, ConvertedPath, Conversions;
    ok, seen, made := true, seen0, [];
    assert done + [] == done;
    if c.copyOriginals {
      ghost var copy := Output(s.path, s.content, Copy);
      RegisterOne(t, done, seen, copy);
      made := [copy];
      var normalized := t.lower(s.path);
      if normalized in seen { return false, seen, made; }
      seen := seen + {normalized};
    }
    if !Raster(t, s) { return; }
    ghost var head := made;
    NoConversions(e, c, s);
    assert c.formats[..0] == [] && head + [] == head;
    for i := 0 to |c.formats|
      invariant made == head + Conversions(e, c, s, c.formats[..i])
      invariant NoCollisions(t, done + made) && Registered(t, done + made, seen)
    {
      var f := c.formats[i];
      ghost var o := Output(ConvertedPath(s.path, f), s.content, Convert(e, f, Quality(c, f), Effort(c, f)));
      RegisterOne(t, done + made, seen, o);
      ConversionsPrefix(e, c, s, i);
      FirstConversions(e, c, s, i + 1);
      assert (done + made) + [o] == done + (made + [o]);
      assert made + [o] == head + Conversions(e, c, s, c.formats[..i + 1]);
      made := made + [o];
      var normalized := t.lower(ConvertedPath(s.path, f));
      if normalized in seen { return false, seen, made; }
      seen := seen + {normalized};
    }
    assert c.formats[..|c.formats|] == c.formats;
  }

  /** The whole run over the source directory, if there is one. */
  method RunImagePipeline(t: Tools, e: Encoder, c: Config, sources: Option<seq<Entry>>, dir: OutputDir) returns (r: Result<Stats, RunError>)
    requires GoodTools(t)
    modifies dir
    ensures (dir.D(), r) == if sources.None? then (old(dir.D()), Err(NoSources))
                            else RunOutputs(t, old(dir.D()), Outputs(t, e, c, Found(t, sources.value, "")))
  {
    hide GoodTools, OutputsOf, Outputs, Found, NoCollisions, Failed, MakeAll;
    ghost var d := dir.D();
    if sources.None? { return Err(NoSources); }
    var files := Discover(t, sources.value, "");
    ghost var all := Outputs(t, e, c, files);
    var distinct := AssertNoOutputCollisions(t, e, c, files);
    if !distinct { return Err(Collision); }
    var previous := dir.manifest;
    var p := Progress(map[], 0, 0);
    ghost var done: seq<Output> := [];
    NothingUnderway(t, d);
    NoOutputs(t, e, c);
    assert files[..0] == [];
    for i := 0 to |files|
      invariant done == Outputs(t, e, c, files[..i]) && dir.manifest == previous
      invariant Underway(t, d, done, dir.files, p.next, p.written, p.kept)
    {
      hide Underway;
      ghost var made;
      var ok;
      p, ok, made := MakeSource(t, e, c, dir, previous, p, files[i], d, done);
      OutputsStep(t, e, c, files, i);
      if !ok {
        OutputsPrefix(t, e, c, files, i + 1);
        assert done + made <= all;
        Stops(t, d, done + made, all, dir.files);
        FailedRun(t, d, all, dir.files);
        return Err(EncoderFailed);
      }
      done := done + made;
    }
    assert files[..|files|] == files;
    var pruned := dir.PruneManagedFiles(previous, p.next);
    dir.manifest := p.next;
    return Ok(Stats(p.written, p.kept, pruned));
  }

  lemma NothingUnderway(t: Tools, d: Disk)
    ensures Underway(t, d, [], d.files, map[], 0, 0)
  {}

  lemma NoOutputs(t: Tools, e: Encoder, c: Config)
    ensures Outputs(t, e, c, []) == []
  {}

  lemma FailedRun(t: Tools, d: Disk, all: seq<Output>, files: Files)
    requires Failed(t, d, all, files) && NoCollisions(t, all)
    ensures RunOutputs(t, d, all) == (d.(files := files), Err(EncoderFailed))
  {
    hide MakeAll, NoCollisions;
  }

  /** The files below a directory that have a known extension, by name. */
  method Discover(t: Tools, entries: seq<Entry>, prefix: string) returns (files: seq<Source>)
    ensures files == Found(t, entries, prefix)
    decreases entries
  {
    SortedSame(entries);
    var sorted := Sorted(entries);
    files := [];
    for i := 0 to |sorted|
      invariant files == FoundIn(t, sorted[..i], entries, prefix)
    {
      var e := sorted[i];
      assert e in sorted && e in entries;
      assert sorted[..i + 1][..i] == sorted[..i];
      var relativePath := JoinPath(prefix, e.name);
      match e {
        case Dir(_, inner) =>
          var more := Discover(t, inner, relativePath);
          files := files + more;
        case File(name, content) =>
          if t.lower(ExtName(name)) in CopyExtensions { files := files + [Source(relativePath, content)]; }
        case Other(_) =>
      }
    }
    assert sorted[..|sorted|] == sorted;
  }
}
