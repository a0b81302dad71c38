/**
 * The string manipulation migrate.py does on file names and paths:
 * `str.split('.')`, `'.'.join(...)`, `str.lower()`, the extension
 * `name.split('.')[-1].lower()`, the output path
 * `'.'.join(p.split('.')[0:-1]) + '.' + ext`, and `os.path.join`.
 */
module Paths {

  /** Python's `s.split(sep)` for a one-character separator. */
  function Split(s: string, sep: char): (parts: seq<string>)
    ensures |parts| >= 1
    ensures forall i :: 0 <= i < |parts| ==> sep !in parts[i]
    decreases |s|
  {
    if |s| == 0 then [""]
    else
      var rest := Split(s[1..], sep);
      if s[0] == sep then [""] + rest
      else [[s[0]] + rest[0]] + rest[1..]
  }

  /** Python's `sep.join(parts)`. */
  function Join(parts: seq<string>, sep: char): string
  {
    if |parts| == 0 then ""
    else if |parts| == 1 then parts[0]
    else parts[0] + [sep] + Join(parts[1..], sep)
  }

  /** Python's `str.lower()`, restricted to ASCII letters. */
  function LowerChar(c: char): char
  {
    if 'A' <= c <= 'Z' then (c as int + 32) as char else c
  }

  function Lower(s: string): string
  {
    seq(|s|, i requires 0 <= i < |s| => LowerChar(s[i]))
  }

  /** The text after the last '.', or the whole string when it has none: `s.split('.')[-1]`. */
  function LastSegment(s: string): string
  {
    var parts := Split(s, '.');
    parts[|parts| - 1]
  }

  /** The extension as migrate.py computes it (migrate.py:77). */
  function Extension(name: string): string
  {
    Lower(LastSegment(name))
  }

  /**
   * The output path of a conversion (migrate.py:35, 52): every '.'-separated
   * piece but the last, joined again with '.', followed by '.' and `ext`.
   */
  function OutputPath(p: string, ext: string): string
  {
    var parts := Split(p, '.');
    Join(parts[..|parts| - 1], '.') + "." + ext
  }

  /** Python's `os.path.join(dir, name)` on POSIX. */
  function PathJoin(dir: string, name: string): string
  {
    if |name| > 0 && name[0] == '/' then name
    else if dir == "" || dir[|dir| - 1] == '/' then dir + name
    else dir + "/" + name
  }

  /** `k` is the index of the last '.' in `s`. */
  predicate IsLastDot(s: string, k: int)
  {
    0 <= k < |s| && s[k] == '.' && '.' !in s[k + 1..]
  }

  /** Reference definition: the index of the last '.', searched from the end. */
  function LastDot(s: string): (k: nat)
    requires '.' in s
    ensures IsLastDot(s, k)
    decreases |s|
  {
    var n := |s| - 1;
    if s[n] == '.' then n
    else
      assert '.' in s[..n] by {
        var j :| 0 <= j < |s| && s[j] == '.';
        assert s[..n][j] == '.';
      }
      var k := LastDot(s[..n]);
      assert s[k + 1..] == s[..n][k + 1..] + [s[n]];
      k
  }

  /** Splitting and joining again gives back the string. */
  lemma {:induction false} SplitJoin(s: string, sep: char)
    ensures Join(Split(s, sep), sep) == s
    decreases |s|
  {
    if |s| > 0 {
      var rest := Split(s[1..], sep);
      SplitJoin(s[1..], sep);
      if s[0] == sep {
        assert ([""] + rest)[1..] == rest;
        assert s == [sep] + s[1..];
      } else {
        var parts := [[s[0]] + rest[0]] + rest[1..];
        assert parts[1..] == rest[1..];
        if |rest| == 1 {
          assert s == [s[0]] + s[1..];
        } else {
          assert s == [s[0]] + s[1..];
          assert s[1..] == rest[0] + [sep] + Join(rest[1..], sep);
        }
      }
    }
  }

  /** A string without the separator splits into itself alone. */
  lemma {:induction false} SplitNoSep(s: string, sep: char)
    requires sep !in s
    ensures Split(s, sep) == [s]
    decreases |s|
  {
    if |s| > 0 {
      SplitNoSep(s[1..], sep);
      assert s == [s[0]] + s[1..];
    }
  }

  /** Splitting around one separator splits both sides independently. */
  lemma {:induction false} SplitAround(a: string, b: string, sep: char)
    ensures Split(a + [sep] + b, sep) == Split(a, sep) + Split(b, sep)
    decreases |a|
  {
    var s := a + [sep] + b;
    if |a| == 0 {
      assert s == [sep] + b;
      assert s[1..] == b;
    } else {
      assert s[1..] == a[1..] + [sep] + b;
      SplitAround(a[1..], b, sep);
    }
  }

  /** Splitting at the last '.' leaves the text after it as the last piece. */
  lemma SplitAtLastDot(s: string, k: int)
    requires IsLastDot(s, k)
    ensures Split(s, '.') == Split(s[..k], '.') + [s[k + 1..]]
  {
    assert s == s[..k] + ['.'] + s[k + 1..];
    SplitAround(s[..k], s[k + 1..], '.');
    SplitNoSep(s[k + 1..], '.');
  }

  /** The raw extension is the text after the last '.'. */
  lemma LastSegmentAtLastDot(s: string, k: int)
    requires IsLastDot(s, k)
    ensures LastSegment(s) == s[k + 1..]
  {
    SplitAtLastDot(s, k);
  }

  /** Without a '.', the raw extension is the whole string. */
  lemma LastSegmentWithoutDot(s: string)
    requires '.' !in s
    ensures LastSegment(s) == s
  {
    SplitNoSep(s, '.');
  }

  /** The extension is the lower-cased text after the last '.' of the name. */
  lemma ExtensionAtLastDot(name: string, k: int)
    requires IsLastDot(name, k)
    ensures Extension(name) == Lower(name[k + 1..])
  {
    LastSegmentAtLastDot(name, k);
  }

  /** A name without any '.' is its own (lower-cased) extension. */
  lemma ExtensionWithoutDot(name: string)
    requires '.' !in name
    ensures Extension(name) == Lower(name)
  {
    LastSegmentWithoutDot(name);
  }

  /** The output path keeps everything up to and including the last '.'. */
  lemma OutputPathAtLastDot(p: string, k: int, ext: string)
    requires IsLastDot(p, k)
    ensures OutputPath(p, ext) == p[..k + 1] + ext
  {
    SplitAtLastDot(p, k);
    var parts := Split(p, '.');
    assert parts[..|parts| - 1] == Split(p[..k], '.');
    SplitJoin(p[..k], '.');
    assert p[..k + 1] == p[..k] + ".";
  }

  /** A path without any '.' becomes the bare '.' + ext. */
  lemma OutputPathWithoutDot(p: string, ext: string)
    requires '.' !in p
    ensures OutputPath(p, ext) == "." + ext
  {
    SplitNoSep(p, '.');
  }

  /** The output path ends in the requested extension. */
  lemma OutputPathSegment(p: string, ext: string)
    requires '.' !in ext
    ensures LastSegment(OutputPath(p, ext)) == ext
  {
    var q := OutputPath(p, ext);
    var prefix := q[..|q| - |ext| - 1];
    assert q == prefix + "." + ext;
    assert q[|prefix| + 1..] == ext;
    LastSegmentAtLastDot(q, |prefix|);
  }

  /** The output path equals the input exactly when the input already has that extension. */
  lemma OutputPathIsInput(p: string, ext: string)
    ensures OutputPath(p, ext) == p <==> '.' in p && LastSegment(p) == ext
  {
    if '.' in p {
      var k := LastDot(p);
      OutputPathAtLastDot(p, k, ext);
      LastSegmentAtLastDot(p, k);
      assert p == p[..k + 1] + p[k + 1..];
    } else {
      OutputPathWithoutDot(p, ext);
      assert OutputPath(p, ext)[0] == '.';
    }
  }

  /** Replacing the extension twice is the same as replacing it once with the second. */
  lemma OutputPathTwice(p: string, e1: string, e2: string)
    requires '.' !in e1
    ensures OutputPath(OutputPath(p, e1), e2) == OutputPath(p, e2)
  {
    var q := OutputPath(p, e1);
    var prefix := q[..|q| - |e1| - 1];
    assert q == prefix + "." + e1;
    assert IsLastDot(q, |prefix|);
    OutputPathAtLastDot(q, |prefix|, e2);
    if '.' in p {
      var k := LastDot(p);
      OutputPathAtLastDot(p, k, e1);
      OutputPathAtLastDot(p, k, e2);
    } else {
      OutputPathWithoutDot(p, e1);
      OutputPathWithoutDot(p, e2);
    }
  }

  /**
   * The raw extension of a joined path is the file name's own, unless the
   * name has no '.', in which case it reaches back past a '/' into the
   * directory part.
   */
  lemma JoinedSegment(dir: string, name: string)
    ensures var seg := LastSegment(PathJoin(dir, name));
      seg == LastSegment(name) || ('.' !in name && '/' in seg)
  {
    hide Split, LastSegment;
    var path := PathJoin(dir, name);
    var x := path[..|path| - |name|];
    assert path == x + name;
    assert x == "" || x[|x| - 1] == '/';
    if '.' in name {
      var k := LastDot(name);
      assert path[|x| + k + 1..] == name[k + 1..];
      LastSegmentAtLastDot(path, |x| + k);
      LastSegmentAtLastDot(name, k);
    } else if x == "" {
      assert path == name;
    } else if '.' in path {
      var j := LastDot(path);
      assert j < |x| - 1;
      LastSegmentAtLastDot(path, j);
      assert LastSegment(path)[|x| - 1 - (j + 1)] == '/';
    } else {
      LastSegmentWithoutDot(path);
      assert path[|x| - 1] == '/';
    }
  }

  /**
   * A file whose whole name is an extension, such as `png` in `photos`,
   * is classified by that name, yet its path has no '.', so every output
   * path built from it is the bare `.jxl` (or `.png`) with no directory.
   */
  lemma DotlessNameOutput(dir: string, name: string, ext: string)
    requires '.' !in dir && '.' !in name
    ensures Extension(name) == Lower(name)
    ensures OutputPath(PathJoin(dir, name), ext) == "." + ext
  {
    ExtensionWithoutDot(name);
    var path := PathJoin(dir, name);
    assert '.' !in path by {
      if |name| > 0 && name[0] == '/' {
      } else if dir == "" || dir[|dir| - 1] == '/' {
        assert path == dir + name;
      } else {
        assert path == dir + "/" + name;
      }
    }
    OutputPathWithoutDot(path, ext);
  }
}
