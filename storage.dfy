/**
 * The filesystem as migrate.py sees it, and the two tool wrappers that change
 * it, `convert` (cjxl) and `decode` (dwebp), plus the `webpinfo` probe.
 * External processes are not modelled: what a tool run did is given as a
 * `ToolRun` (its exit code and the file it left at its output path, if any).
 */
module Storage {
  import opened Wrappers
  import opened Paths
  import opened Formats

  /** What `os.path.getsize` and `os.path.getmtime` report for a file. */
  datatype FileInfo = FileInfo(size: nat, mtime: int)

  type Files = map<string, FileInfo>

  /** The observable result of one external tool run. */
  datatype ToolRun = ToolRun(exitCode: int, wrote: Option<FileInfo>)

  /** The external commands migrate.py issues (migrate.py:27-30, 36-42, 54-59). */
  datatype Command =
    | Webpinfo(input: string)
    | Dwebp(input: string, output: string)
    | Cjxl(input: string, output: string, distance: nat)

  /** The side effects, in the order they happen. */
  datatype Effect =
    | Exec(cmd: Command)
    | SetMtime(path: string, mtime: int)
    | Delete(path: string)

  /** The result of one `convert` or `decode` call. */
  datatype Attempt = Attempt(files: Files, effects: seq<Effect>, output: Option<string>)

  /** The filesystem after a tool that may have written its output path. */
  function AfterTool(files: Files, output: string, run: ToolRun): Files
  {
    if run.wrote.Some? then files[output := run.wrote.value] else files
  }

  /** The success test of `convert` and `decode` (migrate.py:44, 61). */
  predicate Succeeds(files: Files, output: string, run: ToolRun)
  {
    run.exitCode == 0 && output in AfterTool(files, output, run)
  }

  /**
   * Every deletion comes right after a tool run that read the deleted file and
   * wrote a replacement, and after that replacement got its modification time.
   */
  predicate SafeDeletes(effects: seq<Effect>)
  {
    forall i :: 0 <= i < |effects| && effects[i].Delete? ==>
      && 2 <= i
      && effects[i - 2].Exec?
      && !effects[i - 2].cmd.Webpinfo?
      && effects[i - 2].cmd.input == effects[i].path
      && effects[i - 1].SetMtime?
      && effects[i - 1].path == effects[i - 2].cmd.output
  }

  lemma SafeDeletesAppend(a: seq<Effect>, b: seq<Effect>)
    requires SafeDeletes(a) && SafeDeletes(b)
    ensures SafeDeletes(a + b)
  {
    forall i | 0 <= i < |a + b| && (a + b)[i].Delete?
      ensures 2 <= i && (a + b)[i - 2].Exec? && !(a + b)[i - 2].cmd.Webpinfo?
      ensures (a + b)[i - 2].cmd.input == (a + b)[i].path
      ensures (a + b)[i - 1].SetMtime? && (a + b)[i - 1].path == (a + b)[i - 2].cmd.output
    {
      if i >= |a| {
        assert (a + b)[i] == b[i - |a|];
        assert (a + b)[i - 1] == b[i - |a| - 1];
        assert (a + b)[i - 2] == b[i - |a| - 2];
      }
    }
  }

  /**
   * The common body of `convert` and `decode` once the tool has run
   * (migrate.py:44-49, 61-66): fail without touching anything else unless
   * the exit code is 0 and the output exists; otherwise give the output the
   * input's modification time, then remove the input.
   */
  function Produce(files: Files, input: string, output: string, cmd: Command, run: ToolRun): (a: Attempt)
    requires input in files
    ensures a.output.Some? <==> Succeeds(files, output, run)
    ensures a.output.None? ==> a.files == AfterTool(files, output, run) && a.effects == [Exec(cmd)]
    ensures a.output.None? && input != output ==> input in a.files && a.files[input] == files[input]
    ensures a.output.Some? ==>
      && a.output.value == output
      && a.effects == [Exec(cmd), SetMtime(output, AfterTool(files, output, run)[input].mtime), Delete(input)]
      && input !in a.files
    ensures a.output.Some? && input != output ==>
      && output in a.files
      && a.files[output].size == AfterTool(files, output, run)[output].size
      && a.files[output].mtime == files[input].mtime
    ensures forall q :: q != input && q != output ==>
      (q in a.files <==> q in files) && (q in files ==> a.files[q] == files[q])
    ensures !cmd.Webpinfo? && cmd.input == input && cmd.output == output ==> SafeDeletes(a.effects)
  {
    var w := AfterTool(files, output, run);
    if run.exitCode != 0 || output !in w then Attempt(w, [Exec(cmd)], None)
    else
      var m := w[input].mtime;
      Attempt(w[output := w[output].(mtime := m)] - {input}, [Exec(cmd), SetMtime(output, m), Delete(input)], Some(output))
  }

  /** `convert(p, lossy)`: cjxl from `p` to `p` with its extension replaced by `jxl`. */
  function ConvertSpec(files: Files, p: string, lossy: bool, run: ToolRun): Attempt
    requires p in files
  {
    var res := OutputPath(p, "jxl");
    Produce(files, p, res, Cjxl(p, res, Distance(lossy)), run)
  }

  /** `decode(p)`: dwebp from `p` to `p` with its extension replaced by `png`. */
  function DecodeSpec(files: Files, p: string, run: ToolRun): Attempt
    requires p in files
  {
    var res := OutputPath(p, "png");
    Produce(files, p, res, Dwebp(p, res), run)
  }

  /**
   * The filesystem migrate.py works on: the files that exist, and, as ghost
   * bookkeeping with no counterpart in the script, the effects so far.
   */
  class FileSystem {
    var files: Files
    ghost var trace: seq<Effect>

    constructor (initial: Files)
      ensures files == initial && trace == []
    {
      files := initial;
      trace := [];
    }

    /** `is_webp_lossless(p)` (migrate.py:26-32); `None` when `webpinfo` fails and `check_output` raises. */
    method IsWebpLossless(p: string, report: Option<string>) returns (r: Option<bool>)
      modifies this
      ensures files == old(files) && trace == old(trace) + [Exec(Webpinfo(p))]
      ensures r.Some? <==> report.Some?
      ensures r.Some? ==> r.value == IsLosslessReport(report.value)
      ensures r.Some? ==> (r.value <==> exists i :: OccursAt(report.value, LosslessMarker, i))
    {
      trace := trace + [Exec(Webpinfo(p))];
      if report.None? {
        r := None;
      } else {
        ContainsIff(report.value, LosslessMarker);
        r := Some(IsLosslessReport(report.value));
      }
    }

    /** `convert(p, lossy)` (migrate.py:34-49). */
    method Convert(p: string, lossy: bool, run: ToolRun) returns (r: Option<string>)
      requires p in files
      modifies this
      ensures var a := ConvertSpec(old(files), p, lossy, run);
        files == a.files && trace == old(trace) + a.effects && r == a.output
    {
      var res := OutputPath(p, "jxl");
      trace := trace + [Exec(Cjxl(p, res, Distance(lossy)))];
      if run.wrote.Some? {
        files := files[res := run.wrote.value];
      }
      if run.exitCode != 0 || res !in files {
        r := None;
      } else {
        var m := files[p].mtime;
        files := files[res := files[res].(mtime := m)];
        trace := trace + [SetMtime(res, m)];
        files := files - {p};
        trace := trace + [Delete(p)];
        r := Some(res);
      }
    }

    /** `decode(p)` (migrate.py:51-66). */
    method Decode(p: string, run: ToolRun) returns (r: Option<string>)
      requires p in files
      modifies this
      ensures var a := DecodeSpec(old(files), p, run);
        files == a.files && trace == old(trace) + a.effects && r == a.output
    {
      var res := OutputPath(p, "png");
      trace := trace + [Exec(Dwebp(p, res))];
      if run.wrote.Some? {
        files := files[res := run.wrote.value];
      }
      if run.exitCode != 0 || res !in files {
        r := None;
      } else {
        var m := files[p].mtime;
        files := files[res := files[res].(mtime := m)];
        trace := trace + [SetMtime(res, m)];
        files := files - {p};
        trace := trace + [Delete(p)];
        r := Some(res);
      }
    }
  }
}
