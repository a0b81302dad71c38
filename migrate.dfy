/**
 * The conversion run of migrate.py (migrate.py:68-148): classify every file
 * the directory walk finds, dispatch it to the conversion its extension calls
 * for, and add up the sizes before and after.
 */
module Migrate {
  import opened Wrappers
  import opened Paths
  import opened Formats
  import opened Storage

  /** One file found by the directory walk: the directory and the file name in it. */
  datatype Found = Found(dir: string, name: string)

  /** What the external tools do for one file: the `webpinfo` report (or its failure), dwebp, cjxl. */
  datatype Oracle = Oracle(probe: Option<string>, decode: ToolRun, encode: ToolRun)

  /** What happened to one file that did not abort the run. */
  datatype Outcome =
    | Unsupported(name: string)
    | Converted(format: Format, before: nat, after: nat)
    | Failed(format: Format, before: nat)

  /** The exceptions that escape `run` and end it before the totals are printed. */
  datatype Abort =
    | ProbeFailed(path: string)   // `check_output` raises when `webpinfo` fails (migrate.py:27-30, 121)
    | Vanished(path: string)      // `os.path.getsize` raises on a file that is no longer there (migrate.py:80)

  /** `fsbefore` and `fsafter`. */
  datatype Totals = Totals(before: nat, after: nat)

  /** The result of the per-extension dispatch for one supported file. */
  datatype Dispatched = Dispatched(files: Files, effects: seq<Effect>, result: Result<Option<string>, Abort>)

  /** The result of processing one found file. */
  datatype FileStep = FileStep(files: Files, effects: seq<Effect>, outcome: Result<Outcome, Abort>)

  /** The state of the run after a prefix of the found files. */
  datatype Progress = Progress(files: Files, effects: seq<Effect>, outcomes: seq<Outcome>, error: Option<Abort>)

  /** The `cjxl -d` values issued, in order. */
  function EncodeDistances(effects: seq<Effect>): seq<nat>
    decreases |effects|
  {
    if |effects| == 0 then []
    else
      var rest := EncodeDistances(effects[1..]);
      if effects[0].Exec? && effects[0].cmd.Cjxl? then [effects[0].cmd.distance] + rest else rest
  }

  lemma {:induction false} EncodeDistancesAppend(a: seq<Effect>, b: seq<Effect>)
    ensures EncodeDistances(a + b) == EncodeDistances(a) + EncodeDistances(b)
    decreases |a|
  {
    if |a| > 0 {
      assert (a + b)[0] == a[0];
      assert (a + b)[1..] == a[1..] + b;
      EncodeDistancesAppend(a[1..], b);
    } else {
      assert a + b == b;
    }
  }

  /** A `convert` or `decode` call encodes once with cjxl's distance, or not at all with dwebp. */
  lemma ProduceDistances(files: Files, input: string, output: string, cmd: Command, run: ToolRun)
    requires input in files
    ensures EncodeDistances(Produce(files, input, output, cmd, run).effects) ==
      if cmd.Cjxl? then [cmd.distance] else []
  {
    var e := Produce(files, input, output, cmd, run).effects;
    assert e[..1] == [Exec(cmd)];
    EncodeDistancesAppend(e[..1], e[1..]);
    assert e[..1] + e[1..] == e;
    if |e| > 1 {
      assert e[1..] == [e[1]] + [e[2]];
      EncodeDistancesAppend([e[1]], [e[2]]);
    }
  }

  /** Neither tool run on `path` would write its output over `path` itself. */
  predicate NoSelfOverwrite(path: string, fmt: Format)
  {
    OutputPath(path, "jxl") != path && (fmt.Webp? ==> OutputPath(path, "png") != path)
  }

  /**
   * A file classified as a supported source, joined to its directory, is
   * never its own conversion output: its raw extension is neither `jxl` nor,
   * for WebP, `png`.
   */
  lemma SourceNotOverwritten(dir: string, name: string, fmt: Format)
    requires Classify(Extension(name)) == Some(fmt)
    ensures NoSelfOverwrite(PathJoin(dir, name), fmt)
  {
    var path := PathJoin(dir, name);
    JoinedSegment(dir, name);
    OutputPathIsInput(path, "jxl");
    OutputPathIsInput(path, "png");
    assert Lower("jxl") == "jxl";
    assert Lower("png") == "png";
  }

  /**
   * The WebP branch of the dispatch (migrate.py:119-143): probe with
   * `webpinfo`, decode to png, then encode the png lossless exactly when the
   * report says the WebP was lossless, and lossy otherwise.
   */
  function WebpSpec(files: Files, path: string, o: Oracle): Dispatched
    requires path in files && NoSelfOverwrite(path, Webp)
  {
    if o.probe.None? then
      Dispatched(files, [Exec(Webpinfo(path))], Err(ProbeFailed(path)))
    else
      var probed := [Exec(Webpinfo(path))];
      var d := DecodeSpec(files, path, o.decode);
      if d.output.None? then
        Dispatched(d.files, probed + d.effects, Ok(None))
      else
        var a := ConvertSpec(d.files, OutputPath(path, "png"), !IsLosslessReport(o.probe.value), o.encode);
        Dispatched(a.files, probed + d.effects + a.effects, Ok(a.output))
  }

  /** A failing `webpinfo` raises out of `run`, and nothing but the probe has happened. */
  lemma WebpProbeFails(files: Files, path: string, o: Oracle)
    requires path in files && NoSelfOverwrite(path, Webp)
    ensures var d := WebpSpec(files, path, o);
      && (d.result.Err? <==> o.probe.None?)
      && (d.result.Err? ==>
            d.result.error == ProbeFailed(path) && d.files == files && d.effects == [Exec(Webpinfo(path))])
  {
  }

  /** When dwebp fails the `.webp` stays where it was and cjxl is never run. */
  lemma WebpDecodeFails(files: Files, path: string, o: Oracle)
    requires path in files && NoSelfOverwrite(path, Webp)
    requires o.probe.Some? && !Succeeds(files, OutputPath(path, "png"), o.decode)
    ensures var d := WebpSpec(files, path, o);
      && d.result == Ok(None)
      && path in d.files && d.files[path] == files[path]
      && EncodeDistances(d.effects) == []
  {
    var png := OutputPath(path, "png");
    var d := DecodeSpec(files, path, o.decode);
    ProduceDistances(files, path, png, Dwebp(path, png), o.decode);
    EncodeDistancesAppend([Exec(Webpinfo(path))], d.effects);
  }

  /**
   * Once dwebp has succeeded the `.webp` is gone and cjxl runs once, at
   * distance 0 when the report says lossless and 1 otherwise; if cjxl then
   * fails, the intermediate `.png` is what is left.
   */
  lemma WebpDecoded(files: Files, path: string, o: Oracle)
    requires path in files && NoSelfOverwrite(path, Webp)
    requires o.probe.Some? && Succeeds(files, OutputPath(path, "png"), o.decode)
    ensures var d := WebpSpec(files, path, o);
      && EncodeDistances(d.effects) == [if IsLosslessReport(o.probe.value) then 0 else 1]
      && path !in d.files
      && (d.result == Ok(None) ==> OutputPath(path, "png") in d.files)
  {
    var probed := [Exec(Webpinfo(path))];
    var png := OutputPath(path, "png");
    var jxl := OutputPath(png, "jxl");
    var lossless := IsLosslessReport(o.probe.value);
    var d := DecodeSpec(files, path, o.decode);
    ProduceDistances(files, path, png, Dwebp(path, png), o.decode);
    EncodeDistancesAppend(probed, d.effects);
    OutputPathSegment(path, "png");
    OutputPathIsInput(png, "jxl");
    OutputPathTwice(path, "png", "jxl");
    var a := ConvertSpec(d.files, png, !lossless, o.encode);
    ProduceDistances(d.files, png, jxl, Cjxl(png, jxl, Distance(!lossless)), o.encode);
    EncodeDistancesAppend(probed + d.effects, a.effects);
  }

  /**
   * A converted WebP ends as the `.jxl` next to it, stamped with the
   * `.webp`'s modification time, and the `.webp` is gone.
   */
  lemma WebpConverted(files: Files, path: string, o: Oracle)
    requires path in files && NoSelfOverwrite(path, Webp)
    ensures var d := WebpSpec(files, path, o);
      d.result.Ok? && d.result.value.Some? ==>
        && d.result.value.value == OutputPath(path, "jxl")
        && OutputPath(path, "jxl") in d.files
        && d.files[OutputPath(path, "jxl")].mtime == files[path].mtime
        && path !in d.files
  {
    if o.probe.Some? && Succeeds(files, OutputPath(path, "png"), o.decode) {
      OutputPathSegment(path, "png");
      OutputPathIsInput(OutputPath(path, "png"), "jxl");
      OutputPathTwice(path, "png", "jxl");
    }
  }

  /** The WebP branch deletes nothing before its replacement was written and stamped. */
  lemma WebpDeletesSafely(files: Files, path: string, o: Oracle)
    requires path in files && NoSelfOverwrite(path, Webp)
    ensures SafeDeletes(WebpSpec(files, path, o).effects)
  {
    if o.probe.Some? {
      var probed := [Exec(Webpinfo(path))];
      var d := DecodeSpec(files, path, o.decode);
      SafeDeletesAppend(probed, d.effects);
      if d.output.Some? {
        OutputPathSegment(path, "png");
        OutputPathIsInput(OutputPath(path, "png"), "jxl");
        var a := ConvertSpec(d.files, OutputPath(path, "png"), !IsLosslessReport(o.probe.value), o.encode);
        SafeDeletesAppend(probed + d.effects, a.effects);
      }
    }
  }

  /**
   * The per-extension dispatch of `run` for one supported file
   * (migrate.py:83-143): jpg, jpeg, png, apng and gif are encoded lossless
   * directly; webp takes the two-stage branch.
   */
  function DispatchSpec(files: Files, path: string, fmt: Format, o: Oracle): Dispatched
    requires path in files && NoSelfOverwrite(path, fmt)
  {
    if fmt.Webp? then WebpSpec(files, path, o)
    else
      var a := ConvertSpec(files, path, false, o.encode);
      Dispatched(a.files, a.effects, Ok(a.output))
  }

  /**
   * Whatever the format, a conversion ends as the `.jxl` next to the source,
   * stamped with the source's modification time, and the source is gone.
   */
  lemma DispatchConverted(files: Files, path: string, fmt: Format, o: Oracle)
    requires path in files && NoSelfOverwrite(path, fmt)
    ensures var d := DispatchSpec(files, path, fmt, o);
      d.result.Ok? && d.result.value.Some? ==>
        && d.result.value.value == OutputPath(path, "jxl")
        && OutputPath(path, "jxl") in d.files
        && d.files[OutputPath(path, "jxl")].mtime == files[path].mtime
        && path !in d.files
  {
    if fmt.Webp? {
      WebpConverted(files, path, o);
    }
  }

  /** Every format but WebP is encoded exactly once, lossless, and never raises. */
  lemma DispatchEncodes(files: Files, path: string, fmt: Format, o: Oracle)
    requires path in files && NoSelfOverwrite(path, fmt)
    requires !fmt.Webp?
    ensures var d := DispatchSpec(files, path, fmt, o);
      d.result.Ok? && EncodeDistances(d.effects) == [0]
  {
    ProduceDistances(files, path, OutputPath(path, "jxl"), Cjxl(path, OutputPath(path, "jxl"), 0), o.encode);
  }

  /**
   * A failed conversion of a non-WebP file leaves the source as it was; only
   * the WebP probe raises, and it changes nothing.
   */
  lemma DispatchFailed(files: Files, path: string, fmt: Format, o: Oracle)
    requires path in files && NoSelfOverwrite(path, fmt)
    ensures var d := DispatchSpec(files, path, fmt, o);
      && (!fmt.Webp? && d.result == Ok(None) ==> path in d.files && d.files[path] == files[path])
      && (d.result.Err? ==> fmt.Webp? && d.result.error == ProbeFailed(path) && d.files == files)
  {
    if fmt.Webp? {
      WebpProbeFails(files, path, o);
    }
  }

  /** The dispatch deletes nothing before its replacement was written and stamped. */
  lemma DispatchDeletesSafely(files: Files, path: string, fmt: Format, o: Oracle)
    requires path in files && NoSelfOverwrite(path, fmt)
    ensures SafeDeletes(DispatchSpec(files, path, fmt, o).effects)
  {
    if fmt.Webp? {
      WebpDeletesSafely(files, path, o);
    }
  }

  /**
   * Two sources that differ only in their extension share one `.jxl`. When
   * both convert, the second `cjxl` writes over the first one's output after
   * the first source was already deleted, so nothing of the first image is
   * left.
   */
  lemma SharedOutputOverwritten(files: Files, p: string, q: string, r1: ToolRun, r2: ToolRun)
    requires p in files && q in files && p != q
    requires OutputPath(p, "jxl") == OutputPath(q, "jxl")
    requires OutputPath(p, "jxl") != p && OutputPath(q, "jxl") != q
    requires Succeeds(files, OutputPath(p, "jxl"), r1)
    requires r2.exitCode == 0 && r2.wrote.Some?
    ensures var a := ConvertSpec(files, p, false, r1);
      && a.output == Some(OutputPath(p, "jxl"))
      && q in a.files
      && var b := ConvertSpec(a.files, q, false, r2);
        && b.output == Some(OutputPath(p, "jxl"))
        && p !in b.files && q !in b.files
        && b.files[OutputPath(p, "jxl")].size == r2.wrote.value.size
        && b.files[OutputPath(p, "jxl")].mtime == files[q].mtime
  {
  }

  /** `d/a.jpg` and `d/a.png` are two such sources. */
  lemma SharedOutputExample()
    ensures OutputPath("d/a.jpg", "jxl") == "d/a.jxl" == OutputPath("d/a.png", "jxl")
    ensures Classify(Extension("a.jpg")) == Some(Jpeg) && Classify(Extension("a.png")) == Some(Png)
  {
    hide Split, LastSegment, OutputPath, Extension, Lower;
    ReplacedExtension("d/a.jpg", "d/a.", "jpg");
    ReplacedExtension("d/a.png", "d/a.", "png");
    ReplacedExtension("a.jpg", "a.", "jpg");
    ReplacedExtension("a.png", "a.", "png");
    LowerOfLower("jpg");
    LowerOfLower("png");
  }

  /** A name made of a stem ending in '.' and a '.'-free extension. */
  lemma ReplacedExtension(p: string, stem: string, ext: string)
    requires |stem| > 0 && stem[|stem| - 1] == '.' && '.' !in ext && p == stem + ext
    ensures OutputPath(p, "jxl") == stem + "jxl"
    ensures Extension(p) == Lower(ext)
  {
    var k := |stem| - 1;
    assert p[k + 1..] == ext && p[..k + 1] == stem;
    OutputPathAtLastDot(p, k, "jxl");
    ExtensionAtLastDot(p, k);
  }

  /** Lower-case names are their own lower case. */
  lemma LowerOfLower(s: string)
    requires forall i :: 0 <= i < |s| ==> 'a' <= s[i] <= 'z'
    ensures Lower(s) == s
  {
  }

  /** One iteration of the loop in `run` over a found file (migrate.py:77-145). */
  function FileSpec(files: Files, f: Found, o: Oracle): (s: FileStep)
  {
    match Classify(Extension(f.name))
    case None => FileStep(files, [], Ok(Unsupported(f.name)))
    case Some(fmt) =>
      var path := PathJoin(f.dir, f.name);
      if path !in files then FileStep(files, [], Err(Vanished(path)))
      else
        SourceNotOverwritten(f.dir, f.name, fmt);
        var before := files[path].size;
        var d := DispatchSpec(files, path, fmt, o);
        DispatchConverted(files, path, fmt, o);
        match d.result
        case Err(e) => FileStep(d.files, d.effects, Err(e))
        case Ok(None) => FileStep(d.files, d.effects, Ok(Failed(fmt, before)))
        case Ok(Some(out)) => FileStep(d.files, d.effects, Ok(Converted(fmt, before, d.files[out].size)))
  }

  /**
   * A file is reported unsupported exactly when its extension is not one of
   * the supported ones, and then the iteration runs no tool and changes
   * nothing.
   */
  lemma FileSpecUnsupported(files: Files, f: Found, o: Oracle)
    ensures var s := FileSpec(files, f, o);
      && (s.outcome.Ok? && s.outcome.value.Unsupported? <==> Classify(Extension(f.name)).None?)
      && (Classify(Extension(f.name)).None? ==>
            s.outcome == Ok(Unsupported(f.name)) && s.files == files && s.effects == [])
  {
  }

  /**
   * What a supported file adds up to: `before` is the size of the source and
   * `after` the size of the `.jxl`; the walk's file having vanished is the one
   * exception raised before any tool runs.
   */
  lemma FileSpecSizes(files: Files, f: Found, o: Oracle)
    ensures var s := FileSpec(files, f, o); var path := PathJoin(f.dir, f.name);
      && (s.outcome.Ok? && !s.outcome.value.Unsupported? ==>
            && path in files
            && s.outcome.value.before == files[path].size
            && Classify(Extension(f.name)) == Some(s.outcome.value.format))
      && (s.outcome.Ok? && s.outcome.value.Converted? ==>
            && OutputPath(path, "jxl") in s.files
            && s.outcome.value.after == s.files[OutputPath(path, "jxl")].size)
      && (s.outcome == Err(Vanished(path)) <==> Classify(Extension(f.name)).Some? && path !in files)
      && (s.outcome == Err(Vanished(path)) ==> s.files == files && s.effects == [])
  {
    var path := PathJoin(f.dir, f.name);
    if Classify(Extension(f.name)).Some? && path in files {
      var fmt := Classify(Extension(f.name)).value;
      SourceNotOverwritten(f.dir, f.name, fmt);
      DispatchConverted(files, path, fmt, o);
      DispatchFailed(files, path, fmt, o);
    }
  }

  /** One iteration deletes nothing before its replacement was written and stamped. */
  lemma FileSpecDeletesSafely(files: Files, f: Found, o: Oracle)
    ensures SafeDeletes(FileSpec(files, f, o).effects)
  {
    var path := PathJoin(f.dir, f.name);
    if Classify(Extension(f.name)).Some? && path in files {
      var fmt := Classify(Extension(f.name)).value;
      SourceNotOverwritten(f.dir, f.name, fmt);
      DispatchDeletesSafely(files, path, fmt, o);
    }
  }


  /** The run state after one more file. */
  function Advance(prev: Progress, s: FileStep): Progress
  {
    match s.outcome
    case Ok(out) => Progress(s.files, prev.effects + s.effects, prev.outcomes + [out], None)
    case Err(e) => Progress(s.files, prev.effects + s.effects, prev.outcomes, Some(e))
  }

  /** The loop of `run` over the first `k` found files, stopping at the first exception. */
  function Runs(files: Files, found: seq<Found>, oracle: seq<Oracle>, k: nat): Progress
    requires |found| == |oracle| && k <= |found|
    decreases k
  {
    if k == 0 then Progress(files, [], [], None)
    else
      var prev := Runs(files, found, oracle, k - 1);
      if prev.error.Some? then prev
      else Advance(prev, FileSpec(prev.files, found[k - 1], oracle[k - 1]))
  }

  /** Before the first file the run has changed nothing. */
  lemma RunsStart(files: Files, found: seq<Found>, oracle: seq<Oracle>)
    requires |found| == |oracle|
    ensures Runs(files, found, oracle, 0) == Progress(files, [], [], None)
  {
  }

  /**
   * One more file advances the run by that file's step; an exception in
   * that step is where the run ends.
   */
  lemma RunsStep(files0: Files, found: seq<Found>, oracle: seq<Oracle>, k: nat,
                 files: Files, effects: seq<Effect>, outcomes: seq<Outcome>, s: FileStep)
    requires |found| == |oracle| && k < |found|
    requires Runs(files0, found, oracle, k) == Progress(files, effects, outcomes, None)
    requires s == FileSpec(files, found[k], oracle[k])
    ensures s.outcome.Ok? ==>
      Runs(files0, found, oracle, k + 1) == Progress(s.files, effects + s.effects, outcomes + [s.outcome.value], None)
    ensures s.outcome.Err? ==>
      Runs(files0, found, oracle, k + 1) == Progress(s.files, effects + s.effects, outcomes, Some(s.outcome.error))
  {
    hide FileSpec;
  }

  /** Once an exception has ended the run, the later files change nothing. */
  lemma {:induction false} RunsStopped(files: Files, found: seq<Found>, oracle: seq<Oracle>, n: nat, k: nat)
    requires |found| == |oracle| && n <= k <= |found|
    requires Runs(files, found, oracle, n).error.Some?
    ensures Runs(files, found, oracle, k) == Runs(files, found, oracle, n)
    decreases k
  {
    hide FileSpec;
    if n < k {
      RunsStopped(files, found, oracle, n, k - 1);
    }
  }

  /**
   * A run that no exception ended has one outcome per found file, in order,
   * and a file is reported unsupported exactly when its extension is not one
   * of the supported ones.
   */
  lemma {:induction false} RunsOutcomes(files: Files, found: seq<Found>, oracle: seq<Oracle>, k: nat)
    requires |found| == |oracle| && k <= |found|
    ensures var r := Runs(files, found, oracle, k);
      r.error.None? ==>
        && |r.outcomes| == k
        && forall i :: 0 <= i < k ==>
             (r.outcomes[i].Unsupported? <==> Classify(Extension(found[i].name)).None?)
    decreases k
  {
    hide FileSpec, Runs;
    if k == 0 {
      RunsStart(files, found, oracle);
    } else {
      RunsOutcomes(files, found, oracle, k - 1);
      var prev := Runs(files, found, oracle, k - 1);
      if prev.error.Some? {
        RunsStopped(files, found, oracle, k - 1, k);
      } else {
        FileSpecUnsupported(prev.files, found[k - 1], oracle[k - 1]);
        RunsStep(files, found, oracle, k - 1, prev.files, prev.effects, prev.outcomes,
                 FileSpec(prev.files, found[k - 1], oracle[k - 1]));
      }
    }
  }

  /** Over the whole run, no file is deleted before its replacement was written and stamped. */
  lemma {:induction false} RunsDeleteSafely(files: Files, found: seq<Found>, oracle: seq<Oracle>, k: nat)
    requires |found| == |oracle| && k <= |found|
    ensures SafeDeletes(Runs(files, found, oracle, k).effects)
    decreases k
  {
    hide FileSpec;
    if k > 0 {
      RunsDeleteSafely(files, found, oracle, k - 1);
      var prev := Runs(files, found, oracle, k - 1);
      if prev.error.None? {
        FileSpecDeletesSafely(prev.files, found[k - 1], oracle[k - 1]);
        SafeDeletesAppend(prev.effects, FileSpec(prev.files, found[k - 1], oracle[k - 1]).effects);
      }
    }
  }

  /** A run over files that are all unsupported runs no tool, changes no file and counts nothing. */
  lemma {:induction false} RunsUnsupportedOnly(files: Files, found: seq<Found>, oracle: seq<Oracle>, k: nat)
    requires |found| == |oracle| && k <= |found|
    requires forall i :: 0 <= i < |found| ==> Classify(Extension(found[i].name)).None?
    ensures var r := Runs(files, found, oracle, k);
      r.files == files && r.effects == [] && r.error.None? && Sum(r.outcomes) == Totals(0, 0)
    decreases k
  {
    hide FileSpec, Runs;
    if k == 0 {
      RunsStart(files, found, oracle);
    } else {
      RunsUnsupportedOnly(files, found, oracle, k - 1);
      var prev := Runs(files, found, oracle, k - 1);
      var s := FileSpec(files, found[k - 1], oracle[k - 1]);
      FileSpecUnsupported(files, found[k - 1], oracle[k - 1]);
      RunsStep(files, found, oracle, k - 1, files, [], prev.outcomes, s);
      SumSnoc(prev.outcomes, Unsupported(found[k - 1].name));
    }
  }

  lemma AppendAssoc<T>(a: seq<T>, b: seq<T>, c: seq<T>)
    ensures a + (b + c) == (a + b) + c
  {
  }

  /** What one outcome adds to `fsbefore` and `fsafter` (migrate.py:81, 88, 97, 106, 115, 129, 138). */
  function Contribution(o: Outcome): Totals
  {
    match o
    case Unsupported(_) => Totals(0, 0)
    case Converted(_, before, after) => Totals(before, after)
    case Failed(_, before) => Totals(before, 0)
  }

  function Plus(a: Totals, b: Totals): Totals
  {
    Totals(a.before + b.before, a.after + b.after)
  }

  /** The totals as a fold over the outcomes. */
  function Sum(os: seq<Outcome>): Totals
    decreases |os|
  {
    if |os| == 0 then Totals(0, 0)
    else
      Plus(Sum(os[..|os| - 1]), Contribution(os[|os| - 1]))
  }

  lemma SumSnoc(os: seq<Outcome>, x: Outcome)
    ensures Sum(os + [x]) == Plus(Sum(os), Contribution(x))
  {
    assert (os + [x])[..|os|] == os;
  }

  lemma {:induction false} SumAppend(a: seq<Outcome>, b: seq<Outcome>)
    ensures Sum(a + b) == Plus(Sum(a), Sum(b))
    decreases |b|
  {
    if |b| == 0 {
      assert a + b == a;
    } else {
      var n := |b| - 1;
      assert (a + b)[..|a + b| - 1] == a + b[..n];
      SumAppend(a, b[..n]);
    }
  }

  /** Taking one outcome out of a sequence takes its contribution out of the totals. */
  lemma SumRemove(b: seq<Outcome>, j: nat)
    requires j < |b|
    ensures Sum(b) == Plus(Sum(b[..j] + b[j + 1..]), Contribution(b[j]))
  {
    hide Sum;
    var left, x, right := b[..j], b[j], b[j + 1..];
    calc {
      Sum(b);
      { assert b == left + ([x] + right); }
      Sum(left + ([x] + right));
      { SumAppend(left, [x] + right); }
      Plus(Sum(left), Sum([x] + right));
      { SumAppend([x], right); SumOne(x); }
      Plus(Sum(left), Plus(Contribution(x), Sum(right)));
      Plus(Plus(Sum(left), Sum(right)), Contribution(x));
      { SumAppend(left, right); }
      Plus(Sum(left + right), Contribution(x));
    }
  }

  lemma SumOne(x: Outcome)
    ensures Sum([x]) == Contribution(x)
  {
    assert [x][..0] == [];
  }

  lemma MultisetRemove(a: seq<Outcome>, b: seq<Outcome>, j: nat)
    requires multiset(a) == multiset(b) && 0 < |a| && j < |b| && b[j] == a[|a| - 1]
    ensures multiset(a[..|a| - 1]) == multiset(b[..j] + b[j + 1..])
  {
    var x := b[j];
    assert a == a[..|a| - 1] + [x];
    assert b == b[..j] + [x] + b[j + 1..];
    calc {
      multiset(a[..|a| - 1]);
      multiset(a) - multiset{x};
      multiset(b) - multiset{x};
      multiset(b[..j] + b[j + 1..]);
    }
  }

  /**
   * The totals do not depend on the order of the outcomes. The order in which
   * files are processed can still change the outcomes themselves: a `.webp`
   * decoded to the `.png` next to it replaces that file, and a later visit to
   * the `.png` the walk listed then finds it gone.
   */
  lemma {:induction false} SumOrderFree(a: seq<Outcome>, b: seq<Outcome>)
    requires multiset(a) == multiset(b)
    ensures Sum(a) == Sum(b)
    decreases |a|
  {
    if |a| == 0 {
      assert |b| == |multiset(b)| == 0;
    } else {
      var n := |a| - 1;
      assert a[n] in multiset(b);
      var j :| 0 <= j < |b| && b[j] == a[n];
      MultisetRemove(a, b, j);
      SumOrderFree(a[..n], b[..j] + b[j + 1..]);
      SumRemove(b, j);
    }
  }

  /** A successful dwebp leaves the `.png` in place, ready to be encoded without overwriting itself. */
  lemma DecodedPng(files: Files, path: string, run: ToolRun)
    requires path in files && NoSelfOverwrite(path, Webp)
    ensures var d := DecodeSpec(files, path, run);
      d.output.Some? ==>
        && d.output.value == OutputPath(path, "png")
        && d.output.value in d.files
        && OutputPath(d.output.value, "jxl") != d.output.value
  {
    OutputPathSegment(path, "png");
    OutputPathIsInput(OutputPath(path, "png"), "jxl");
  }

  /** The WebP branch of the dispatch in `run` (migrate.py:119-143). */
  method ConvertWebp(fs: FileSystem, path: string, o: Oracle) returns (r: Result<Option<string>, Abort>)
    requires path in fs.files && NoSelfOverwrite(path, Webp)
    modifies fs
    ensures var d := WebpSpec(old(fs.files), path, o);
      fs.files == d.files && fs.trace == old(fs.trace) + d.effects && r == d.result
  {
    hide Produce, OutputPath, Contains, DecodeSpec, ConvertSpec;
    var lossless := fs.IsWebpLossless(path, o.probe);
    if lossless.None? {
      r := Err(ProbeFailed(path));
      return;
    }
    DecodedPng(fs.files, path, o.decode);
    var ret := fs.Decode(path, o.decode);
    if ret.None? {
      r := Ok(None);
    } else {
      if lossless.value {
        ret := fs.Convert(ret.value, false, o.encode);
      } else {
        ret := fs.Convert(ret.value, true, o.encode);
      }
      r := Ok(ret);
    }
  }

  /** The per-extension dispatch of `run` (migrate.py:83-143). */
  method Dispatch(fs: FileSystem, path: string, fmt: Format, o: Oracle) returns (r: Result<Option<string>, Abort>)
    requires path in fs.files && NoSelfOverwrite(path, fmt)
    modifies fs
    ensures var d := DispatchSpec(old(fs.files), path, fmt, o);
      fs.files == d.files && fs.trace == old(fs.trace) + d.effects && r == d.result
  {
    hide WebpSpec, ConvertSpec;
    if fmt.Webp? {
      r := ConvertWebp(fs, path, o);
    } else {
      var ret := fs.Convert(path, false, o.encode);
      r := Ok(ret);
    }
  }

  /**
   * One iteration of the loop in `run` (migrate.py:77-145): classify the
   * file, add its size to `fsbefore` when it is supported, dispatch it, and
   * add the output's size to `fsafter` when the conversion produced one.
   */
  method ProcessFile(fs: FileSystem, f: Found, o: Oracle, fsbefore: nat, fsafter: nat)
    returns (r: Result<Outcome, Abort>, before': nat, after': nat)
    modifies fs
    ensures var s := FileSpec(old(fs.files), f, o);
      && fs.files == s.files && fs.trace == old(fs.trace) + s.effects && r == s.outcome
      && (r.Ok? ==> Totals(before', after') == Plus(Totals(fsbefore, fsafter), Contribution(r.value)))
  {
    hide DispatchSpec;
    before', after' := fsbefore, fsafter;
    var extension := Extension(f.name);
    var fmt := Classify(extension);
    if fmt.None? {
      r := Ok(Unsupported(f.name));
      return;
    }
    var fullpath := PathJoin(f.dir, f.name);
    if fullpath !in fs.files {
      r := Err(Vanished(fullpath));
      return;
    }
    var filesize := fs.files[fullpath].size;
    var size := filesize;
    before' := before' + filesize;
    SourceNotOverwritten(f.dir, f.name, fmt.value);
    var ret := Dispatch(fs, fullpath, fmt.value, o);
    match ret {
      case Err(e) =>
        r := Err(e);
      case Ok(None) =>
        r := Ok(Failed(fmt.value, size));
      case Ok(Some(res)) =>
        DispatchConverted(old(fs.files), fullpath, fmt.value, o);
        filesize := fs.files[res].size;
        after' := after' + filesize;
        r := Ok(Converted(fmt.value, size, filesize));
    }
  }

  /**
   * `run` (migrate.py:68-148) over the files the walk found, with the tool
   * behaviour for each: the outcomes so far and, unless an exception ended
   * the loop, `fsbefore` and `fsafter`.
   */
  method Run(fs: FileSystem, found: seq<Found>, oracle: seq<Oracle>) returns (outcomes: seq<Outcome>, totals: Result<Totals, Abort>)
    requires |found| == |oracle|
    modifies fs
    ensures var r := Runs(old(fs.files), found, oracle, |found|);
      && fs.files == r.files
      && fs.trace == old(fs.trace) + r.effects
      && outcomes == r.outcomes
      && totals == if r.error.None? then Ok(Sum(r.outcomes)) else Err(r.error.value)
  {
    // The loop relies on RunsStep and SumSnoc for how one file extends the run.
    hide FileSpec, Runs;
    ghost var files0, trace0 := fs.files, fs.trace;
    RunsStart(files0, found, oracle);
    ghost var effects: seq<Effect> := [];
    var fsbefore: nat := 0;
    var fsafter: nat := 0;
    outcomes := [];
    var i := 0;
    while i < |found|
      invariant 0 <= i <= |found|
      invariant Runs(files0, found, oracle, i) == Progress(fs.files, effects, outcomes, None)
      invariant fs.trace == trace0 + effects
      invariant Totals(fsbefore, fsafter) == Sum(outcomes)
    {
      ghost var s := FileSpec(fs.files, found[i], oracle[i]);
      RunsStep(files0, found, oracle, i, fs.files, effects, outcomes, s);
      var r;
      r, fsbefore, fsafter := ProcessFile(fs, found[i], oracle[i], fsbefore, fsafter);
      AppendAssoc(trace0, effects, s.effects);
      effects := effects + s.effects;
      if r.Err? {
        totals := Err(r.error);
        RunsStopped(files0, found, oracle, i + 1, |found|);
        return;
      }
      SumSnoc(outcomes, r.value);
      outcomes := outcomes + [r.value];
      i := i + 1;
    }
    totals := Ok(Totals(fsbefore, fsafter));
  }
}
