/** The `posixpath` functions the scripts use to build and take apart paths
    and URLs: `join`, `basename`, `dirname` and `splitext`. */
module Paths {

  /** The index of the last `c` in `s`, or -1 (Python's `str.rfind`). */
  function LastIndex(s: string, c: char): (i: int)
    ensures -1 <= i < |s|
    ensures i >= 0 ==> s[i] == c
    ensures forall j :: i < j < |s| ==> s[j] != c
  {
    if s == [] then -1
    else if s[|s| - 1] == c then |s| - 1
    else LastIndex(s[..|s| - 1], c)
  }

  /** `os.path.join(a, b)`: an absolute `b` replaces `a`; otherwise one
      '/' separates them unless `a` is empty or already ends with '/'. */
  function Join(a: string, b: string): string
  {
    if b != [] && b[0] == '/' then b
    else if a == [] || a[|a| - 1] == '/' then a + b
    else a + "/" + b
  }

  /** `os.path.basename(p)`: what follows the last '/'. */
  function Basename(p: string): (b: string)
    ensures '/' !in b
  {
    p[LastIndex(p, '/') + 1..]
  }

  function RStripSlashes(s: string): (r: string)
    ensures |r| <= |s| && r == s[..|r|]
  {
    if s != [] && s[|s| - 1] == '/' then RStripSlashes(s[..|s| - 1]) else s
  }

  predicate AllSlashes(s: string)
  {
    forall i :: 0 <= i < |s| ==> s[i] == '/'
  }

  /** `os.path.dirname(p)`: everything up to the last '/', with trailing
      slashes removed unless the head consists only of slashes. */
  function Dirname(p: string): string
  {
    var head := p[..LastIndex(p, '/') + 1];
    if head != [] && !AllSlashes(head) then RStripSlashes(head) else head
  }

  predicate AllDots(s: string)
  {
    s == [] || (s[0] == '.' && AllDots(s[1..]))
  }

  /** `os.path.splitext(p)`: the extension starts at the last '.' of the
      last path component, unless that component has only dots before it. */
  function Splitext(p: string): (r: (string, string))
    ensures r.0 + r.1 == p
  {
    var sepIndex := LastIndex(p, '/');
    var dotIndex := LastIndex(p, '.');
    if dotIndex > sepIndex && !AllDots(p[sepIndex + 1..dotIndex]) then
      (p[..dotIndex], p[dotIndex..])
    else
      (p, [])
  }

  /** The extension, when there is one, starts with '.' and holds no
      further '/' or '.'. */
  lemma SplitextShape(p: string)
    ensures var ext := Splitext(p).1;
      ext == [] || (ext[0] == '.' && '/' !in ext && '.' !in ext[1..])
  {
    var ext := Splitext(p).1;
    if ext != [] {
      var dotIndex := LastIndex(p, '.');
      assert ext == p[dotIndex..];
      forall i | 0 <= i < |ext| ensures ext[i] != '/' && (i > 0 ==> ext[i] != '.') {
        assert ext[i] == p[dotIndex + i];
      }
    }
  }

  lemma {:induction false} LastIndexAppend(a: string, c: char, b: string)
    requires c !in b
    ensures LastIndex(a + [c] + b, c) == |a|
  {
    var s := a + [c] + b;
    if b == [] {
      assert s[|s| - 1] == c;
    } else {
      assert s[|s| - 1] == b[|b| - 1];
      assert s[..|s| - 1] == a + [c] + b[..|b| - 1];
      LastIndexAppend(a, c, b[..|b| - 1]);
    }
  }

  /** The file name joined onto a directory is what `basename` returns. */
  lemma BasenameJoin(d: string, name: string)
    requires name != [] && '/' !in name
    ensures Basename(Join(d, name)) == name
  {
    var p := Join(d, name);
    if d == [] {
      assert p == name;
      assert LastIndex(p, '/') == -1;
    } else if d[|d| - 1] == '/' {
      assert p == d[..|d| - 1] + ['/'] + name;
      LastIndexAppend(d[..|d| - 1], '/', name);
    } else {
      assert p == d + ['/'] + name;
      LastIndexAppend(d, '/', name);
    }
  }

  /** The directory a file name was joined onto is what `dirname` returns,
      when that directory does not end with '/'. */
  lemma DirnameJoin(d: string, name: string)
    requires d != [] && d[|d| - 1] != '/'
    requires name != [] && '/' !in name
    ensures Dirname(Join(d, name)) == d
  {
    var p := Join(d, name);
    assert p == d + ['/'] + name;
    LastIndexAppend(d, '/', name);
    var head := p[..|d| + 1];
    assert head == d + ['/'];
    assert !AllSlashes(head) by { assert head[|d| - 1] != '/'; }
    assert head[..|head| - 1] == d;
    assert RStripSlashes(head) == RStripSlashes(d) == d;
  }

  /** Relative names joined onto the same directory give distinct paths
      exactly when the names are distinct. */
  lemma JoinInjective(d: string, a: string, b: string)
    requires (a == [] || a[0] != '/') && (b == [] || b[0] != '/')
    ensures Join(d, a) == Join(d, b) <==> a == b
  {
    var prefix := if d == [] || d[|d| - 1] == '/' then d else d + "/";
    assert Join(d, a) == prefix + a && Join(d, b) == prefix + b;
    if prefix + a == prefix + b {
      assert a == (prefix + a)[|prefix|..];
    }
  }
}
