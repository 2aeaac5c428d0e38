/**
  The staging file name of a download (updater.py line 178, app.py line 67):
  `url.split("/")[-1]`, joined onto the data directory.
 */
module Staging {
  /** The inverse of `Split`: the parts with `sep` between them. */
  function Join(parts: seq<string>, sep: char): string
    requires |parts| >= 1
  {
    if |parts| == 1 then parts[0] else parts[0] + [sep] + Join(parts[1..], sep)
  }

  /** Python's `s.split(sep)` for a one-character separator. */
  function Split(s: string, sep: char): (parts: seq<string>)
    ensures |parts| >= 1
    ensures Join(parts, sep) == s
    ensures forall i :: 0 <= i < |parts| ==> sep !in parts[i]
  {
    if s == [] then [""]
    else
      var rest := Split(s[1..], sep);
      if s[0] == sep then
        assert ([""] + rest)[1..] == rest;
        [""] + rest
      else
        var parts := [[s[0]] + rest[0]] + rest[1..];
        assert |rest| > 1 ==> parts[1..] == rest[1..] && Join(rest, sep) == rest[0] + [sep] + Join(rest[1..], sep);
        parts
  }

  /** `name` is what follows the last '/' of `url` (all of it when there is none). */
  predicate IsLastSegment(url: string, name: string) {
    && '/' !in name
    && |name| <= |url|
    && url[|url| - |name|..] == name
    && (|name| < |url| ==> url[|url| - |name| - 1] == '/')
  }

  lemma {:induction false} LastPartIsLastSegment(parts: seq<string>, sep: char)
    requires |parts| >= 1
    requires forall i :: 0 <= i < |parts| ==> sep !in parts[i]
    ensures var s, last := Join(parts, sep), parts[|parts| - 1];
      && |last| <= |s| && s[|s| - |last|..] == last
      && (|last| < |s| ==> s[|s| - |last| - 1] == sep)
  {
    if |parts| > 1 {
      var tail := parts[1..];
      LastPartIsLastSegment(tail, sep);
      var s, t, last := Join(parts, sep), Join(tail, sep), parts[|parts| - 1];
      var head := parts[0] + [sep];
      assert s == head + t;
      assert tail[|tail| - 1] == last;
      assert s[|s| - |last|..] == t[|t| - |last|..];
      if |last| == |t| {
        assert s[|s| - |last| - 1] == head[|head| - 1] == sep;
      } else {
        assert s[|s| - |last| - 1] == t[|t| - |last| - 1];
      }
    }
  }

  /** `url.split("/")[-1]`: the last segment of the URL. */
  function FileName(url: string): (name: string)
    ensures IsLastSegment(url, name)
  {
    var parts := Split(url, '/');
    LastPartIsLastSegment(parts, '/');
    parts[|parts| - 1]
  }

  /** The last segment is unique, so `FileName` is exactly "the text after the last '/'". */
  lemma LastSegmentUnique(url: string, a: string, b: string)
    requires IsLastSegment(url, a) && IsLastSegment(url, b)
    ensures a == b
  {
    if |a| < |b| {
      assert false;
    } else if |b| < |a| {
      assert false;
    }
  }

  /** The edge cases: no '/' gives the whole URL, a trailing '/' the empty name. */
  lemma FileNameEdges(url: string)
    ensures '/' !in url ==> FileName(url) == url
    ensures |url| > 0 && url[|url| - 1] == '/' ==> FileName(url) == ""
  {
    var name := FileName(url);
    if '/' !in url && |name| < |url| {
      assert false;
    }
    if |url| > 0 && url[|url| - 1] == '/' && |name| > 0 {
      assert false;
    }
  }

  /**
    Names for which `data_dir / name` names a directory: pathlib drops an
    empty or "." part, leaving the data directory itself, and keeps "..",
    giving its parent. Opening a directory for writing fails.
   */
  predicate NamesDirectory(name: string) {
    name == "" || name == "." || name == ".."
  }
}
