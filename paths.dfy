/** Path strings as the script handles them: `os.path.splitext`, `os.path.join`,
    the default output name of `resize_image`, and the mapping from a path
    string to the component list that keys the file-system model. */
module Paths {

  /** One path component: what `os.listdir` returns. */
  type Name = string

  /** A path as the list of its components; `[]` is the empty path. */
  type Path = seq<Name>

  /** The suffix `resize_image` inserts when no output path is given. */
  const ResizedSuffix: string := "_1024x1024"

  /** A component that `os.listdir` can return: non-empty, without a separator. */
  predicate IsName(n: string) {
    n != [] && '/' !in n
  }

  /** A path string whose last character is a separator. It resolves to the
      same key as the string without that separator, but the OS opens an entry
      through it only when the entry is a directory. */
  predicate EndsWithSeparator(s: string) {
    |s| > 0 && s[|s| - 1] == '/'
  }

  /** Index of the last occurrence of `c` in `s` (Python's `s.rfind(c)`), or -1. */
  function LastIndex(s: string, c: char): (i: int)
    ensures -1 <= i < |s|
    ensures i >= 0 ==> s[i] == c
    ensures forall j :: i < j < |s| ==> s[j] != c
    ensures i < 0 <==> c !in s
  {
    if |s| == 0 then -1
    else if s[|s| - 1] == c then |s| - 1
    else LastIndex(s[..|s| - 1], c)
  }

  /** `rfind` over a concatenation whose right part lacks `c` looks only at the left part. */
  lemma LastIndexAppend(x: string, y: string, c: char)
    requires c !in y
    ensures LastIndex(x + y, c) == LastIndex(x, c)
  {
    var s, k := x + y, LastIndex(x, c);
    forall j | k < j < |s|
      ensures s[j] != c
    {
      if j < |x| {
        assert s[j] == x[j];
      } else {
        assert s[j] == y[j - |x|];
      }
    }
    if k >= 0 {
      assert s[k] == c;
    }
  }

  /** `rfind` over a concatenation whose right part holds `c` finds it there. */
  lemma LastIndexShift(x: string, y: string, c: char)
    requires c in y
    ensures LastIndex(x + y, c) == |x| + LastIndex(y, c)
  {
    var s, k := x + y, LastIndex(y, c);
    forall j | |x| + k < j < |s|
      ensures s[j] != c
    {
      assert s[j] == y[j - |x|];
    }
    assert s[|x| + k] == c;
  }

  /** `rfind` finds the separator that joins a left part to a right part without `c`. */
  lemma LastIndexJoin(x: string, y: string, c: char)
    requires c !in y
    ensures LastIndex(x + [c] + y, c) == |x|
  {
    LastIndexAppend(x + [c], y, c);
    LastIndexShift(x, [c], c);
  }

  /** The last component of `p` has a character other than '.' before the
      position `dot`: the leading dots of a name never start an extension. */
  predicate HasStemBefore(p: string, dot: int)
    requires dot <= |p|
  {
    exists k :: LastIndex(p, '/') < k < dot && p[k] != '.'
  }

  /** `os.path.splitext` for POSIX paths: the extension starts at the last '.'
      of the final component, unless only dots precede that '.' in the
      component; otherwise it is empty. */
  function SplitExt(p: string): (r: (string, string))
    ensures r.0 + r.1 == p
    ensures r.1 == [] || (r.1[0] == '.' && '.' !in r.1[1..] && '/' !in r.1)
    ensures r.1 != [] ==> HasStemBefore(p, |r.0|)
    ensures r.1 == [] ==>
      forall k :: LastIndex(p, '/') < k < |p| && p[k] == '.' ==> !HasStemBefore(p, k)
  {
    var sep, dot := LastIndex(p, '/'), LastIndex(p, '.');
    if dot > sep && HasStemBefore(p, dot) then (p[..dot], p[dot..]) else (p, [])
  }

  /** `resize_image`'s output path when none is given: the root of the input
      path, the fixed suffix "_1024x1024", then the input's extension. */
  function DefaultOutputPath(input: string): (out: string)
    ensures |out| == |input| + |ResizedSuffix|
    ensures out[..|SplitExt(input).0|] == SplitExt(input).0
    ensures out[|out| - |SplitExt(input).1|..] == SplitExt(input).1
  {
    SplitExt(input).0 + ResizedSuffix + SplitExt(input).1
  }

  /** The default output path never ends with a separator: it ends with the
      input's extension, which holds none, or with the suffix. */
  lemma DefaultOutputNoSeparator(input: string)
    ensures !EndsWithSeparator(DefaultOutputPath(input))
  {
    var out, ext := DefaultOutputPath(input), SplitExt(input).1;
    if ext == [] {
      assert out[|out| - 1] == ResizedSuffix[|ResizedSuffix| - 1];
    } else {
      assert out[|out| - 1] == ext[|ext| - 1];
    }
  }

  /** The derived name splits back into the input's root with the suffix
      appended and the input's own extension: the suffix lands just before the
      extension, and an input without an extension yields an output without one. */
  lemma {:induction false} DefaultOutputSplits(input: string)
    ensures SplitExt(DefaultOutputPath(input)) == (SplitExt(input).0 + ResizedSuffix, SplitExt(input).1)
  {
    if SplitExt(input).1 == [] {
      SplitsWithoutExtension(input);
    } else {
      SplitsWithExtension(input);
    }
  }

  /** `DefaultOutputSplits` for an input without an extension. */
  lemma {:induction false} SplitsWithoutExtension(input: string)
    requires SplitExt(input).1 == []
    ensures SplitExt(input + ResizedSuffix) == (input + ResizedSuffix, [])
  {
    var out := input + ResizedSuffix;
    assert '.' !in ResizedSuffix && '/' !in ResizedSuffix;
    LastIndexAppend(input, ResizedSuffix, '/');
    LastIndexAppend(input, ResizedSuffix, '.');
  }

  /** `DefaultOutputSplits` for an input with an extension. */
  lemma {:induction false} SplitsWithExtension(input: string)
    requires SplitExt(input).1 != []
    ensures SplitExt(SplitExt(input).0 + ResizedSuffix + SplitExt(input).1) == (SplitExt(input).0 + ResizedSuffix, SplitExt(input).1)
  {
    var (root, ext) := SplitExt(input);
    var out := root + ResizedSuffix + ext;
    var dot := |root| + |ResizedSuffix|;
    assert '/' !in ResizedSuffix;
    assert out == root + (ResizedSuffix + ext);
    LastIndexAppend(root, ResizedSuffix + ext, '/');
    assert out[|root|] == '_' && LastIndex(out, '/') < |root| < dot;
    assert out[..dot] == root + ResizedSuffix && out[dot..] == ext;
    SplitAt(out, dot);
  }

  /** A path splits at a dot with a stem before it in its component and
      neither a dot nor a separator after it. */
  lemma SplitAt(p: string, dot: int)
    requires 0 <= dot < |p| && p[dot] == '.'
    requires '.' !in p[dot + 1..] && '/' !in p[dot..]
    requires HasStemBefore(p, dot)
    ensures SplitExt(p) == (p[..dot], p[dot..])
  {
  }

  /** `splitext` of a path whose final component is `n` looks only at `n`. */
  lemma {:induction false} SplitExtFinalComponent(dir: string, n: string)
    requires '/' !in n
    ensures SplitExt(dir + "/" + n) == (dir + "/" + SplitExt(n).0, SplitExt(n).1)
  {
    LastIndexJoin(dir, n, '/');
    if '.' !in n {
      FinalWithoutDot(dir, n);
    } else if HasStemBefore(n, LastIndex(n, '.')) {
      FinalWithStem(dir, n);
    } else {
      FinalWithoutStem(dir, n);
    }
  }

  /** `SplitExtFinalComponent` when the final component has no dot. */
  lemma {:induction false} FinalWithoutDot(dir: string, n: string)
    requires '/' !in n && '.' !in n
    ensures SplitExt(dir + "/" + n) == (dir + "/" + n, [])
  {
    var q := dir + "/";
    LastIndexJoin(dir, n, '/');
    LastIndexAppend(q, n, '.');
  }

  /** `SplitExtFinalComponent` when the final component has an extension. */
  lemma {:induction false} FinalWithStem(dir: string, n: string)
    requires '/' !in n && '.' in n && HasStemBefore(n, LastIndex(n, '.'))
    ensures SplitExt(dir + "/" + n) == (dir + "/" + SplitExt(n).0, SplitExt(n).1)
  {
    var q := dir + "/";
    var p := q + n;
    var dn := LastIndex(n, '.');
    var dp := |q| + dn;
    LastIndexJoin(dir, n, '/');
    var k :| -1 < k < dn && n[k] != '.';
    assert p[|q| + k] == n[k];
    assert p[dp..] == n[dn..] && p[dp + 1..] == n[dn + 1..];
    assert '.' !in n[dn + 1..] && '/' !in n[dn..];
    assert p[..dp] == q + n[..dn];
    SplitAt(p, dp);
    SplitAt(n, dn);
  }

  /** `SplitExtFinalComponent` when the final component's dots are all leading. */
  lemma {:induction false} FinalWithoutStem(dir: string, n: string)
    requires '/' !in n && '.' in n && !HasStemBefore(n, LastIndex(n, '.'))
    ensures SplitExt(dir + "/" + n) == (dir + "/" + n, [])
  {
    var q := dir + "/";
    var p := q + n;
    LastIndexJoin(dir, n, '/');
    LastIndexShift(q, n, '.');
  }

  /** Only the final component of a path changes its name when the default
      output path is derived: the output goes to the input's directory. */
  lemma DefaultOutputSameDirectory(dir: string, n: string)
    requires '/' !in n
    ensures DefaultOutputPath(dir + "/" + n) == dir + "/" + DefaultOutputPath(n)
  {
    SplitExtFinalComponent(dir, n);
    var root, ext := SplitExt(n).0, SplitExt(n).1;
    DefaultOutputOf(dir + "/" + n, dir + "/" + root, ext);
    DefaultOutputOf(n, root, ext);
    Associate(dir + "/", root + ResizedSuffix, ext);
    Associate(dir + "/", root, ResizedSuffix);
  }

  /** The default output path from a known split of the input. */
  lemma DefaultOutputOf(p: string, root: string, ext: string)
    requires SplitExt(p) == (root, ext)
    ensures DefaultOutputPath(p) == root + ResizedSuffix + ext
  {
  }

  /** Concatenation is associative. */
  lemma Associate(a: string, b: string, c: string)
    ensures a + b + c == a + (b + c)
  {
  }

  /** `os.path.join(a, b)` for POSIX paths: an absolute `b` replaces `a`, a
      separator is inserted unless `a` is empty or already ends with one. */
  function Join(a: string, b: string): string
  {
    if |b| > 0 && b[0] == '/' then b
    else if a == [] || a[|a| - 1] == '/' then a + b
    else a + "/" + b
  }

  /** The shape of `os.path.join(a, b)`: it always ends with `b`; an absolute
      `b` is the whole result; otherwise the result starts with `a`, and a
      non-empty `a` is separated from `b` by exactly one '/': its own last
      character when it ends with one, and an added one otherwise. */
  lemma JoinShape(a: string, b: string)
    ensures var r := Join(a, b);
      && |b| <= |r| && r[|r| - |b|..] == b
      && (|b| > 0 && b[0] == '/' ==> r == b)
      && (!(|b| > 0 && b[0] == '/') ==> a <= r && |a| + |b| <= |r| <= |a| + |b| + 1)
      && (!(|b| > 0 && b[0] == '/') && a != [] ==> r[|r| - |b| - 1] == '/')
      && (!(|b| > 0 && b[0] == '/') && a == [] ==> r == b)
      && (!(|b| > 0 && b[0] == '/') && a != [] && a[|a| - 1] == '/' ==> |r| == |a| + |b|)
  {
  }

  /** `os.path.join(folder, name)` for a listed name ends with that name, so
      never with a separator. */
  lemma JoinNameNoSeparator(a: string, n: string)
    requires IsName(n)
    ensures !EndsWithSeparator(Join(a, n))
  {
    JoinShape(a, n);
    var r := Join(a, n);
    assert r[|r| - 1] == r[|r| - |n|..][|n| - 1];
  }

  /** The component list the file system resolves a path string to: the
      components between separators, empty ones dropped, with a leading "/"
      component for an absolute path. So "a//b" names what "a/b" names. "a/b/"
      resolves to the same key too, but opening a file through it fails: the
      callers that open files (`Resizer.ResizeSucceeds`) test the trailing
      separator on the string itself. */
  function Key(s: string): (k: Path)
    ensures forall i :: 0 < i < |k| ==> IsName(k[i])
    ensures |k| > 0 ==> IsName(k[0]) || k[0] == "/"
    ensures (|k| > 0 && k[0] == "/") <==> (|s| > 0 && s[0] == '/')
    ensures |k| == 0 <==> s == []
    decreases |s|
  {
    var i := LastIndex(s, '/');
    if i < 0 then
      (if s == [] then [] else [s])
    else
      var last := s[i + 1..];
      var tail := if last == [] then [] else [last];
      if i == 0 then
        ["/"] + tail
      else
        var head := Key(s[..i]);
        assert s[..i][0] == s[0];
        head + tail
  }

  /** A listed name resolves to itself. */
  lemma KeyOfName(n: string)
    requires IsName(n)
    ensures Key(n) == [n]
  {
  }

  /** Joining a listed name onto a path string appends that name to its key:
      `os.path.join(folder, filename)` names the entry `filename` of `folder`. */
  lemma {:induction false} KeyJoin(a: string, n: string)
    requires IsName(n)
    ensures Key(Join(a, n)) == Key(a) + [n]
  {
    assert n[0] != '/' by {
      assert n[0] in n;
    }
    if a == [] {
      assert Join(a, n) == n;
      KeyOfName(n);
    } else if a[|a| - 1] == '/' {
      KeyJoinAfterSeparator(a, n);
    } else {
      assert Join(a, n) == a + ['/'] + n;
      KeyAfterSeparator(a, n);
    }
  }

  /** `KeyJoin` for a folder string that already ends with a separator. */
  lemma {:induction false} KeyJoinAfterSeparator(a: string, n: string)
    requires IsName(n) && a != [] && a[|a| - 1] == '/'
    ensures Key(a + n) == Key(a) + [n]
  {
    var d := a[..|a| - 1];
    assert a == d + ['/'] + [];
    assert a + n == d + ['/'] + n;
    KeyAfterSeparator(d, []);
    KeyAfterSeparator(d, n);
  }

  /** The key of `d + "/" + m` for a last part `m` without a separator. */
  lemma KeyAfterSeparator(d: string, m: string)
    requires '/' !in m
    ensures Key(d + ['/'] + m) == (if d == [] then ["/"] else Key(d)) + (if m == [] then [] else [m])
  {
    var s := d + ['/'] + m;
    LastIndexJoin(d, m, '/');
    assert s[..|d|] == d;
    assert s[|d| + 1..] == m;
  }
}
