# jxl-migrate conversion core in Dafny

jxl-migrate walks a directory tree and converts every JPEG, PNG, APNG, GIF and
WebP image to JPEG XL. For each converted image it calls `cjxl`. For a WebP it
first asks `webpinfo` whether the image is lossless, then decodes it to PNG
with `dwebp`. After a successful conversion it gives the output the source's
modification time and deletes the source. It also adds up the sizes before and
after.

This project models that core, as `migrate.py` implements it, in five modules:

- `Wrappers` (`wrappers.dfy`): `Option` and `Result`.
- `Paths` (`paths.dfy`): Python's `str.split('.')`, `'.'.join`, ASCII
  `lower()` and POSIX `os.path.join`. On top of those it defines the extension
  of a file name (migrate.py:77) and the output path of a conversion
  (migrate.py:35, 52), and proves what they are in terms of the last `'.'`.
- `Formats` (`formats.dfy`): which extensions are supported and which branch
  each takes. It also models the substring test `is_webp_lossless` applies to
  the `webpinfo` report, and the `-d` distance.
- `Storage` (`storage.dfy`): the filesystem as a class `FileSystem`. Its state
  is a map from path to size and mtime. A ghost field, which has no
  counterpart in the script, keeps the trace of effects so far: tool runs,
  mtime updates and deletions.
  - `Convert`, `Decode` and `IsWebpLossless` are methods that update it.
  - Each is proved against a specification function (`ConvertSpec`,
    `DecodeSpec`, both built on `Produce`).
  - The external tools are not run. What a tool did is an input (`ToolRun`):
    its exit code and the file, if any, it left at its output path. The
    `webpinfo` report is an input too, with `None` when the tool fails.
- `Migrate` (`migrate.dfy`): the body of `run`.
  - The per-extension dispatch (`Dispatch`, `ConvertWebp`) and one iteration
    of the loop (`ProcessFile`) are methods proved against the functions
    `DispatchSpec`, `WebpSpec` and `FileSpec`.
  - The whole loop (`Run`) is a `while` loop over the files the walk found,
    proved against the fold `Runs`.
  - `Run` keeps `fsbefore` and `fsafter` equal to `Sum` of the outcomes so
    far.

The effect trace is what the safety property is stated over: `SafeDeletes`
says every deletion comes right after a tool run that read the deleted file
and the setting of the replacement's mtime. `EncodeDistances` lists the `cjxl -d`
values issued.

What `migrate.py` does, and so what the model does:

- `migrate.py` has no command-line flags. Originals are always deleted on
  success, JPEG is always encoded lossless, and a lossless WebP is always
  re-encoded lossless.
- `.jxl` files are reported as not supported, like any other extension
  outside the six supported ones.
- The WebP is deleted as soon as `dwebp` succeeds, before `cjxl` has run. If
  `cjxl` then fails, the `.png` is what remains.
- The intermediate `.png` is removed only by a successful `cjxl`, which
  deletes its input. A failed `cjxl` leaves it.
- A failing `webpinfo` raises out of `run` and ends the whole run. So does a
  file that the walk listed but that is gone when `os.path.getsize` is
  called. Nothing catches an exception per file.
- Files are processed one after the other, and `fsbefore`/`fsafter` are
  plain accumulators. The totals are the same for any order of the same
  outcomes, but the processing order can change the outcomes themselves. A
  `.webp` decoded to the `.png` beside it replaces that file, and the
  successful `cjxl` of that `.png` deletes it. When the walk then reaches the
  `.png` it listed, the file is gone and the run ends.
- Two sources that differ only in their extension, such as `d/a.jpg` and
  `d/a.png`, share one output `d/a.jxl`. When both convert, the second
  `cjxl` writes over the first output after the first source was already
  deleted, so nothing of the first image remains.

## Model

| member | source | states |
|---|---|---|
| Paths.Split | migrate.py:35 | `str.split` always yields at least one piece, and no piece contains the separator |
| Paths.Join | migrate.py:35 | `sep.join(parts)`: the parts with one separator between neighbours (inverse of `Split`, by `Paths.SplitJoin`) |
| Paths.Lower | migrate.py:77 | `str.lower()` on ASCII: every letter A-Z replaced by its lower-case letter, every other character kept |
| Paths.LastSegment | migrate.py:77 | `s.split('.')[-1]`, the last piece of the split |
| Paths.Extension | migrate.py:77 | `filename.split('.')[-1].lower()`; by `Paths.ExtensionAtLastDot` and `Paths.ExtensionWithoutDot`, the lower-cased text after the last '.', or the whole lower-cased name |
| Paths.OutputPath | migrate.py:35 | `'.'.join(p.split('.')[0:-1]) + '.' + ext`; by `Paths.OutputPathAtLastDot`, the input up to its last '.' followed by `ext` |
| Paths.PathJoin | migrate.py:79 | POSIX `os.path.join(root, filename)`: the name alone when it is absolute, otherwise the two joined by one '/' unless the directory is empty or already ends in '/' |
| Paths.SplitJoin | migrate.py:35 | joining the pieces of a split with the same separator gives back the string |
| Paths.SplitNoSep | migrate.py:77 | a string without the separator splits into itself alone |
| Paths.SplitAround | migrate.py:35 | splitting `a + sep + b` splits `a` and `b` independently |
| Paths.SplitAtLastDot | migrate.py:35 | the split at '.' is the split of the text before the last '.' followed by the text after it |
| Paths.LastDot | migrate.py:77 | the index it finds is a '.' with no '.' after it |
| Paths.LastSegmentAtLastDot | migrate.py:77 | `split('.')[-1]` is the text after the last '.' |
| Paths.LastSegmentWithoutDot | migrate.py:77 | `split('.')[-1]` of a name without '.' is the whole name |
| Paths.ExtensionAtLastDot | migrate.py:77 | the extension is the lower-cased text after the last '.' of the file name |
| Paths.ExtensionWithoutDot | migrate.py:77 | a file name without '.' is its own lower-cased extension |
| Paths.OutputPathAtLastDot | migrate.py:35 | the output path keeps the input up to and including its last '.' and appends the new extension |
| Paths.OutputPathWithoutDot | migrate.py:52 | an input path without '.' gives the bare "." + extension |
| Paths.OutputPathSegment | migrate.py:35 | the output path's extension is the requested one |
| Paths.OutputPathIsInput | migrate.py:35 | the output path equals the input exactly when the input already ends in '.' + that extension |
| Paths.OutputPathTwice | migrate.py:52 | converting the decoded `.png` targets the same `.jxl` path as the `.webp` would (replacing the extension twice is replacing it once) |
| Paths.JoinedSegment | migrate.py:77-79 | the text after the last '.' of the joined path is the file name's own, unless the name has no '.' and that text then reaches into the directory part |
| Paths.DotlessNameOutput | migrate.py:77-79 | a file named just `png` in a directory without '.' is classified by its name, but its output path is the bare `.jxl` with no directory |
| Formats.Classify | migrate.py:78-145 | not supported exactly when the extension is outside jpg/jpeg/png/apng/gif/webp; jpg and jpeg share a branch, webp has its own; `jxl` is never supported |
| Formats.Contains | migrate.py:32 | Python's `pattern in text`, by recursion on the text; `Formats.ContainsIff` ties it to occurrence at an index |
| Formats.IsLosslessReport | migrate.py:32 | the report contains "Format: Lossless" |
| Formats.Distance | migrate.py:40-41 | the `cjxl -d` argument: 1 when lossy, 0 otherwise |
| Formats.OccursAtShift | migrate.py:32 | an occurrence in the tail is an occurrence one position later in the whole text |
| Formats.ContainsIff | migrate.py:32 | `pattern in text` holds exactly when the pattern occurs at some index |
| Storage.SafeDeletesAppend | migrate.py:47-48 | two effect sequences that delete safely still do so one after the other |
| Storage.Produce | migrate.py:44-49 | success exactly when the exit code is 0 and the output exists. On failure, nothing is deleted and the input is untouched. On success, the output gets the input's mtime and the input is removed, in that order. No other file changes. |
| Storage.ConvertSpec | migrate.py:34-49 | `convert(p, lossy)`: `Produce` with `cjxl` from `p` to its `.jxl` output path at `Distance(lossy)` |
| Storage.DecodeSpec | migrate.py:51-66 | `decode(p)`: `Produce` with `dwebp` from `p` to its `.png` output path |
| Storage.FileSystem.IsWebpLossless | migrate.py:26-32 | runs `webpinfo` only; fails exactly when the probe fails; otherwise lossless exactly when "Format: Lossless" occurs in the report |
| Storage.FileSystem.Convert | migrate.py:34-49 | the new files and trace are those of `ConvertSpec`, which is `Produce` with `cjxl` to the `.jxl` path at distance 1 when lossy and 0 otherwise |
| Storage.FileSystem.Decode | migrate.py:51-66 | the new files and trace are those of `DecodeSpec`, which is `Produce` with `dwebp` to the `.png` path |
| Migrate.ProduceDistances | migrate.py:36-42 | a `convert` call runs `cjxl` once with its distance, whether it succeeds or not; a `decode` runs no `cjxl` |
| Migrate.SourceNotOverwritten | migrate.py:77-79 | a file classified as supported is never its own `.jxl` or, for WebP, `.png` output |
| Migrate.WebpSpec | migrate.py:119-143 | the WebP branch: probe, then on success decode, then on success encode the `.png`, lossy exactly when the report lacks the marker; its properties are the `Migrate.Webp*` lemmas |
| Migrate.DispatchSpec | migrate.py:83-143 | the per-extension dispatch: `WebpSpec` for webp, otherwise one lossless `convert`; its properties are the `Migrate.Dispatch*` lemmas |
| Migrate.SharedOutputOverwritten | migrate.py:34-49 | when two sources with the same `.jxl` output both convert, both sources are gone and the `.jxl` holds what the second `cjxl` wrote, stamped with the second source's mtime |
| Migrate.SharedOutputExample | migrate.py:35 | `d/a.jpg` and `d/a.png` are both supported and both convert to `d/a.jxl` |
| Migrate.WebpProbeFails | migrate.py:121 | the WebP branch raises exactly when `webpinfo` fails, and then nothing but the probe has happened |
| Migrate.WebpDecodeFails | migrate.py:122-143 | when `dwebp` fails, the `.webp` is unchanged and no `cjxl` runs |
| Migrate.WebpDecoded | migrate.py:122-141 | once `dwebp` succeeds, the `.webp` is gone and `cjxl` runs once: at distance 0 when the report says lossless, 1 otherwise. If it fails, the `.png` is left |
| Migrate.WebpConverted | migrate.py:122-141 | a converted WebP ends as the `.jxl` beside it with the `.webp`'s mtime, and the `.webp` is gone |
| Migrate.WebpDeletesSafely | migrate.py:119-143 | the WebP branch deletes nothing before its replacement was written and stamped |
| Migrate.DecodedPng | migrate.py:52-66 | a successful `dwebp` leaves the `.png` at the decode output path, and encoding it does not overwrite it |
| Migrate.DispatchConverted | migrate.py:83-141 | for every format, a conversion returns the `.jxl` path beside the source, which exists and carries the source's mtime, and the source is gone |
| Migrate.DispatchEncodes | migrate.py:83-118 | jpg, jpeg, png, apng and gif run `cjxl` exactly once, lossless, and never raise |
| Migrate.DispatchFailed | migrate.py:83-143 | a failed non-WebP conversion leaves the source as it was; only the WebP probe raises, and it changes no file |
| Migrate.DispatchDeletesSafely | migrate.py:83-143 | the dispatch deletes nothing before its replacement was written and stamped |
| Migrate.FileSpecUnsupported | migrate.py:77-145 | a file is reported unsupported exactly when its extension is not supported, and then no tool runs and nothing changes |
| Migrate.FileSpecSizes | migrate.py:79-88 | `before` is the supported source's size and `after` the `.jxl`'s size; the file having vanished is the only exception raised before any tool runs |
| Migrate.FileSpecDeletesSafely | migrate.py:77-145 | one iteration deletes nothing before its replacement was written and stamped |
| Migrate.FileSpec | migrate.py:77-145 | one loop iteration: "Not supported" for an unclassified extension, `Vanished` when `getsize` would raise, otherwise the dispatch with its `before` and `after` sizes; its properties are the `Migrate.FileSpec*` lemmas |
| Migrate.Runs | migrate.py:74-145 | the loop over the first `k` found files, stopping at the first exception; its properties are the `Migrate.Runs*` lemmas |
| Migrate.RunsStopped | migrate.py:74-145 | once an exception has ended the run, the later files change nothing |
| Migrate.RunsOutcomes | migrate.py:74-145 | a run that no exception ended has one outcome per file, in order, and the unsupported ones are exactly the files with unsupported extensions |
| Migrate.RunsDeleteSafely | migrate.py:74-145 | over the whole run, no file is deleted before its replacement was written and stamped |
| Migrate.RunsUnsupportedOnly | migrate.py:71-145 | a run over unsupported files only runs no tool, changes no file and leaves both totals at 0 |
| Migrate.Contribution | migrate.py:81-88 | what one outcome adds: the source size to `fsbefore` for a supported file, the `.jxl` size to `fsafter` only for a conversion |
| Migrate.Sum | migrate.py:71-88 | `fsbefore` and `fsafter` as the sum of the contributions, starting from 0 |
| Migrate.SumAppend | migrate.py:74-81 | the totals of two runs one after the other are the sums of their totals |
| Migrate.SumRemove | migrate.py:74-81 | taking one outcome out of a sequence takes its contribution out of the totals |
| Migrate.SumOrderFree | migrate.py:74-81 | the totals are the same for every order of the same outcomes (the outcomes themselves can depend on the processing order) |
| Migrate.ConvertWebp | migrate.py:119-143 | the new files, trace and result are those of `WebpSpec` |
| Migrate.Dispatch | migrate.py:83-143 | the new files, trace and result are those of `DispatchSpec` |
| Migrate.ProcessFile | migrate.py:77-145 | the new files, trace and outcome are those of `FileSpec`; on no exception, `fsbefore`/`fsafter` grow by the outcome's contribution |
| Migrate.Run | migrate.py:68-148 | the final files, trace and outcomes are those of `Runs` over all found files; the totals are `Sum` of the outcomes, unless an exception ended the run |

## Left out

- Running `cjxl`, `dwebp` and `webpinfo`. What each run did is an input of the model.
- The directory walk (`os.walk`). `Run` takes the walk's result as a sequence of (directory, file name) pairs, in the order the walk yields them. It does not model the walk seeing files that the run itself created or deleted.
- `input('Root: ')`, every `print`, and the final `input()`.
- The `time.time()` access time passed to `os.utime`. Only the mtime is modelled.
- The KB figures and the reduction percentage (migrate.py:146-148). These are float arithmetic on the totals. The percentage raises `ZeroDivisionError` when `fsbefore` is 0, for instance when every file is unsupported (`Migrate.RunsUnsupportedOnly`).
- Paths.Lower: `str.lower()` is modelled for ASCII letters only. Other Unicode case mappings are not modelled.
- Paths.PathJoin: `os.path.join` is modelled for POSIX separators only.
- Storage.FileSystem.Convert: a file that is a directory, and `os.path.exists` on a broken link, are not distinguished from a missing path.
- `os.path.getsize` on the `.jxl` is modelled as reading the map. That the output exists there is proved (`Migrate.DispatchConverted`), so that call is never an exception in the model.
- Exceptions from `subprocess.run` when `cjxl` or `dwebp` cannot be started (`FileNotFoundError`, `PermissionError`, migrate.py:36, 54), and from `os.utime` or `os.remove` (migrate.py:47-48, 64-65). In `migrate.py` these end the whole run. The model has only an exit code, so a tool that could not be started reads as a non-zero exit and gives an ordinary failed outcome, and `os.utime` and `os.remove` always succeed.
- Sub-microsecond mtimes. Mtimes are modelled as exact integers. `migrate.py` copies them through the float `os.path.getmtime` returns, so the output's mtime equals the source's only up to float rounding, twice over on the WebP path.
- Concurrency. The source has none; the model processes files one after the other, as the source does.
