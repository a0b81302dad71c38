/**
 * Which files migrate.py handles, and how it reads the `webpinfo` report.
 */
module Formats {
  import opened Wrappers

  /** The source formats the per-extension dispatch of migrate.py distinguishes. */
  datatype Format = Jpeg | Png | Apng | Gif | Webp

  /** The extensions that are counted and converted (migrate.py:78). */
  const Supported: seq<string> := ["jpg", "jpeg", "png", "apng", "gif", "webp"]

  /**
   * The branch a lower-cased extension takes (migrate.py:78, 83, 92, 101, 110,
   * 119); `None` is the "Not supported" branch (migrate.py:144-145).
   */
  function Classify(ext: string): (f: Option<Format>)
    ensures f.None? <==> ext !in Supported
    ensures f == Some(Jpeg) <==> ext == "jpg" || ext == "jpeg"
    ensures f == Some(Webp) <==> ext == "webp"
    ensures f.Some? ==> ext != "jxl"
  {
    if ext == "jpg" || ext == "jpeg" then Some(Jpeg)
    else if ext == "png" then Some(Png)
    else if ext == "apng" then Some(Apng)
    else if ext == "gif" then Some(Gif)
    else if ext == "webp" then Some(Webp)
    else None
  }

  /** Python's `pattern in text` on strings. */
  predicate Contains(text: string, pattern: string)
    decreases |text|
  {
    if |text| < |pattern| then false
    else text[..|pattern|] == pattern || Contains(text[1..], pattern)
  }

  /** The pattern occurs in the text starting at index `i`. */
  predicate OccursAt(text: string, pattern: string, i: int)
  {
    0 <= i && i + |pattern| <= |text| && text[i..i + |pattern|] == pattern
  }

  lemma OccursAtShift(text: string, pattern: string, i: int)
    requires |text| > 0 && 0 <= i
    ensures OccursAt(text[1..], pattern, i) <==> OccursAt(text, pattern, i + 1)
  {
    if i + |pattern| <= |text[1..]| {
      assert text[1..][i..i + |pattern|] == text[i + 1..i + 1 + |pattern|];
    }
  }

  /** `Contains` holds exactly when the pattern occurs at some position. */
  lemma {:induction false} ContainsIff(text: string, pattern: string)
    ensures Contains(text, pattern) <==> exists i :: OccursAt(text, pattern, i)
    decreases |text|
  {
    if |text| < |pattern| {
      assert forall i :: !OccursAt(text, pattern, i);
    } else if text[..|pattern|] == pattern {
      assert OccursAt(text, pattern, 0);
    } else {
      ContainsIff(text[1..], pattern);
      if Contains(text, pattern) {
        var i :| OccursAt(text[1..], pattern, i);
        OccursAtShift(text, pattern, i);
      } else {
        forall i | OccursAt(text, pattern, i)
          ensures false
        {
          if i > 0 {
            OccursAtShift(text, pattern, i - 1);
          }
        }
      }
    }
  }

  /** The marker `is_webp_lossless` looks for in the report (migrate.py:32). */
  const LosslessMarker: string := "Format: Lossless"

  /** `is_webp_lossless` on the text `webpinfo` printed (migrate.py:32). */
  predicate IsLosslessReport(report: string)
  {
    Contains(report, LosslessMarker)
  }

  /** The `cjxl -d` argument: 1 when lossy, 0 for lossless (migrate.py:40-41). */
  function Distance(lossy: bool): nat
  {
    if lossy then 1 else 0
  }
}
