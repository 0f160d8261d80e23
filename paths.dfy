/**
 * The part of Rust's `std::path::PathBuf` on Unix that builds the ESYM file
 * path: `push` (what `join` does to a copy) and `set_extension` (what
 * `with_extension` does to a copy), over paths held as strings.
 */
module Paths {
  import opened Wrappers

  /** `c` occurs nowhere in `s` between indices `from` (inclusive) and `to` (exclusive). */
  predicate AbsentBetween(s: string, c: char, from: nat, to: nat)
    requires to <= |s|
  {
    forall j :: from <= j < to ==> s[j] != c
  }

  /** Index of the last occurrence of `c` in `s[..n]`. */
  function LastIndexBefore(s: string, c: char, n: nat): (r: Option<nat>)
    requires n <= |s|
    ensures r.Some? ==> r.value < n && s[r.value] == c && AbsentBetween(s, c, r.value + 1, n)
    ensures r.None? <==> AbsentBetween(s, c, 0, n)
    decreases n
  {
    if n == 0 then None
    else if s[n - 1] == c then Some(n - 1)
    else LastIndexBefore(s, c, n - 1)
  }

  /**
   * `PathBuf::push`: an absolute `p` replaces the path; otherwise `p` is
   * appended, after a separator unless the path is empty or already ends
   * with one.
   */
  function Push(base: string, p: string): (r: string)
    ensures |r| >= |p| && r[|r| - |p|..] == p
    ensures |p| > 0 && p[0] == '/' ==> r == p
    ensures !(|p| > 0 && p[0] == '/') ==> |r| >= |base| && r[..|base|] == base
    ensures !(|p| > 0 && p[0] == '/') ==>
      |r| == |base| + |p| + (if base != [] && base[|base| - 1] != '/' then 1 else 0)
    ensures |r| > |base| + |p| ==> r[|base|] == '/'
  {
    if |p| > 0 && p[0] == '/' then p
    else if base == [] || base[|base| - 1] == '/' then base + p
    else base + "/" + p
  }

  /** The component `p[a..b]` is `.`. */
  predicate IsCurDir(p: string, a: nat, b: nat)
    requires a <= b <= |p|
  {
    b - a == 1 && p[a] == '.'
  }

  /** The component `p[a..b]` is `..`. */
  predicate IsParentDir(p: string, a: nat, b: nat)
    requires a <= b <= |p|
  {
    b - a == 2 && p[a] == '.' && p[a + 1] == '.'
  }

  /** `name` is a single, ordinary path component: non-empty, no separator, neither `.` nor `..`. */
  predicate IsPlainName(name: string)
  {
    name != [] && AbsentBetween(name, '/', 0, |name|) &&
    !IsCurDir(name, 0, |name|) && !IsParentDir(name, 0, |name|)
  }

  /**
   * `p[a..b]` is a whole normal component: it starts the path or follows a
   * separator, holds no separator, and is neither `.` nor `..`.
   */
  predicate IsComponent(p: string, a: nat, b: nat)
    requires a < b <= |p|
  {
    (a == 0 || p[a - 1] == '/') && AbsentBetween(p, '/', a, b) &&
    !IsCurDir(p, a, b) && !IsParentDir(p, a, b)
  }

  /**
   * Between `from` and `end` there are only separators and `.` components:
   * nothing that could be a later file name.
   */
  predicate OnlyTrailing(p: string, from: nat, end: nat)
    requires end <= |p|
  {
    forall j :: from <= j < end ==> TrailingAt(p, j, end)
  }

  /** `p[j]` is a separator or the whole of a `.` component of `p[..end]`. */
  predicate TrailingAt(p: string, j: nat, end: nat)
    requires j < end <= |p|
  {
    p[j] == '/' || (p[j] == '.' && 0 < j && p[j - 1] == '/' && (j + 1 == end || p[j + 1] == '/'))
  }

  /** A separator, optionally followed by a last `.` component, keeps `OnlyTrailing`. */
  lemma TrailingExtends(p: string, from: nat, i: nat, end: nat)
    requires from <= i < end <= |p| && p[i] == '/'
    requires i + 1 == end || IsCurDir(p, i + 1, end)
    requires OnlyTrailing(p, from, i)
    ensures OnlyTrailing(p, from, end)
  {
    forall j | from <= j < end
      ensures TrailingAt(p, j, end)
    {
      if j < i {
        assert TrailingAt(p, j, i);
      }
    }
  }

  /**
   * Where, in `p[..end]`, the component that `Path::file_name` reports
   * lies: trailing separators and `.` components are skipped, and there is
   * none when the last component is the root, a leading `.`, or `..`.
   */
  function FileNameIn(p: string, end: nat): (r: Option<(nat, nat)>)
    requires end <= |p|
    ensures r.Some? ==> r.value.0 < r.value.1 <= end
    ensures r.Some? ==> IsComponent(p, r.value.0, r.value.1)
    ensures r.Some? ==> OnlyTrailing(p, r.value.1, end)
    decreases end
  {
    match LastIndexBefore(p, '/', end)
    case None =>
      if end == 0 || IsCurDir(p, 0, end) || IsParentDir(p, 0, end) then None else Some((0, end))
    case Some(i) =>
      if i + 1 == end || IsCurDir(p, i + 1, end) then
        var r := FileNameIn(p, i);
        if r.Some? then TrailingExtends(p, r.value.1, i, end); r else r
      else if IsParentDir(p, i + 1, end) then None
      else Some((i + 1, end))
  }

  /** `Path::file_name` of `p`, as a span of `p`. */
  function FileName(p: string): (r: Option<(nat, nat)>)
    ensures r.Some? ==> r.value.0 < r.value.1 <= |p|
    ensures r.Some? ==> IsComponent(p, r.value.0, r.value.1)
    ensures r.Some? ==> OnlyTrailing(p, r.value.1, |p|)
  {
    FileNameIn(p, |p|)
  }

  /**
   * Conversely, a whole component of `p[..end]` followed only by separators
   * and `.` components is exactly the one `FileNameIn` reports.
   */
  lemma {:induction false} FileNameInFound(p: string, end: nat, a: nat, b: nat)
    requires end <= |p| && a < b <= end
    requires IsComponent(p, a, b) && OnlyTrailing(p, b, end)
    ensures FileNameIn(p, end) == Some((a, b))
    decreases end
  {
    if b < end {
      assert TrailingAt(p, b, end);
    }
    match LastIndexBefore(p, '/', end)
    case None =>
      assert a == 0 && b == end;
    case Some(i) =>
      if i < b {
        assert i < a;
        assert a == i + 1 && b == end;
      } else {
        if i + 1 < end {
          assert TrailingAt(p, i + 1, end);
          assert IsCurDir(p, i + 1, end);
        }
        forall j | b <= j < i
          ensures TrailingAt(p, j, i)
        {
          assert TrailingAt(p, j, end);
        }
        FileNameInFound(p, i, a, b);
      }
  }

  /** `Path::file_name` reports the last normal component whenever there is one. */
  lemma FileNameFound(p: string, a: nat, b: nat)
    requires a < b <= |p|
    requires IsComponent(p, a, b) && OnlyTrailing(p, b, |p|)
    ensures FileName(p) == Some((a, b))
  {
    FileNameInFound(p, |p|, a, b);
  }

  /**
   * Length of the file stem of a file name: up to its last `.`, unless that
   * `.` is the name's first character or there is none.
   */
  function StemLength(name: string): (n: nat)
    ensures n <= |name|
    ensures n < |name| ==> 0 < n && name[n] == '.' && AbsentBetween(name, '.', n + 1, |name|)
    ensures n == |name| ==> |name| == 0 || AbsentBetween(name, '.', 1, |name|)
  {
    match LastIndexBefore(name, '.', |name|)
    case Some(d) => if d > 0 then d else |name|
    case None => |name|
  }

  /** Where the file stem of `p` ends: everything before it is kept by `set_extension`. */
  function StemEnd(p: string): (n: nat)
    requires FileName(p).Some?
    ensures FileName(p).value.0 < n <= FileName(p).value.1
  {
    var (s, e) := FileName(p).value;
    s + StemLength(p[s..e])
  }

  /**
   * `PathBuf::set_extension`: with no file name the path is unchanged;
   * otherwise everything after the file stem is dropped and `.ext` appended
   * (nothing for an empty `ext`).
   */
  function SetExtension(p: string, ext: string): (r: string)
    ensures FileName(p).None? ==> r == p
    ensures FileName(p).Some? ==>
      |r| >= StemEnd(p) && r[..StemEnd(p)] == p[..StemEnd(p)] &&
      (ext != "" ==> r[StemEnd(p)..] == "." + ext) && (ext == "" ==> |r| == StemEnd(p))
  {
    if FileName(p).None? then p
    else p[..StemEnd(p)] + (if ext == "" then "" else "." + ext)
  }

  /** With a file name to work on, `set_extension` leaves the path ending in `.ext`, after a non-empty stem. */
  lemma ExtensionAppended(p: string, ext: string)
    requires FileName(p).Some? && ext != ""
    ensures var r := SetExtension(p, ext); |r| > |ext| + 1 && r[|r| - |ext| - 1..] == "." + ext
  {
  }

  /** In `a + [c] + b` with no `c` in `b`, the last `c` before any point past `a` is the one after `a`. */
  lemma {:induction false} LastIndexAfter(s: string, c: char, a: nat, n: nat)
    requires a < n <= |s| && s[a] == c && AbsentBetween(s, c, a + 1, |s|)
    ensures LastIndexBefore(s, c, n) == Some(a)
    decreases n
  {
    if n - 1 != a {
      LastIndexAfter(s, c, a, n - 1);
    }
  }

  /** A last component that is a plain name is the file name. */
  lemma FileNameOfLast(dir: string, name: string)
    requires IsPlainName(name)
    ensures FileName(dir + "/" + name) == Some((|dir| + 1, |dir| + 1 + |name|))
  {
    var p := dir + "/" + name;
    var i := |dir|;
    assert forall j :: i + 1 <= j < |p| ==> p[j] == name[j - i - 1];
    LastIndexAfter(p, '/', i, |p|);
    assert !IsCurDir(p, i + 1, |p|) && !IsParentDir(p, i + 1, |p|) by {
      assert p[i + 1] == name[0];
      if |name| >= 2 { assert p[i + 2] == name[1]; }
    }
  }

  /** Setting the extension of a path whose file name spans `p[a..b]` keeps everything up to the stem. */
  lemma SetExtensionAt(p: string, ext: string, a: nat, b: nat)
    requires FileName(p) == Some((a, b)) && ext != ""
    ensures SetExtension(p, ext) == p[..a + StemLength(p[a..b])] + "." + ext
  {
    assert StemEnd(p) == a + StemLength(p[a..b]);
  }

  /** Setting the extension of `dir/name` keeps `dir/` and the stem of `name`. */
  lemma SetExtensionOfLast(dir: string, name: string, ext: string)
    requires IsPlainName(name)
    requires ext != ""
    ensures SetExtension(dir + "/" + name, ext) == dir + "/" + name[..StemLength(name)] + "." + ext
  {
    FileNameOfLast(dir, name);
    SetExtensionOfParts(dir + "/" + name, dir + "/", name, ext);
  }

  /** `SetExtensionAt` for a path cut, at the start of its file name, into `head` and `name`. */
  lemma SetExtensionOfParts(p: string, head: string, name: string, ext: string)
    requires p == head + name && FileName(p) == Some((|head|, |p|)) && ext != ""
    ensures SetExtension(p, ext) == head + name[..StemLength(name)] + "." + ext
  {
    SetExtensionAt(p, ext, |head|, |p|);
    assert p[|head|..|p|] == name;
    assert p[..|head| + StemLength(name)] == head + name[..StemLength(name)];
  }
}
