/** POSIX `os.path`: `basename`, `dirname`, `split`, `join` and `splitext`,
    written after the definitions in Python's `posixpath` module. */
module PyPath {

  /** Index of the last `c` in `s`, or -1 (Python's `s.rfind(c)`). */
  function RFind(s: string, c: char): (i: int)
    ensures -1 <= i < |s|
    ensures i >= 0 ==> s[i] == c
    ensures forall j :: i < j < |s| ==> s[j] != c
  {
    if s == [] then -1
    else if s[|s| - 1] == c then |s| - 1
    else RFind(s[..|s| - 1], c)
  }

  /** `os.path.basename(p)`: what follows the last `/`. */
  function Basename(p: string): (r: string)
    ensures |r| <= |p| && r == p[|p| - |r|..]
    ensures '/' !in r
  {
    p[RFind(p, '/') + 1..]
  }

  predicate AllSlashes(s: string) { forall i :: 0 <= i < |s| ==> s[i] == '/' }

  function RStripSlashes(s: string): (r: string)
    ensures |r| <= |s| && r == s[..|r|]
  {
    if s != [] && s[|s| - 1] == '/' then RStripSlashes(s[..|s| - 1]) else s
  }

  /** `os.path.dirname(p)`: everything up to the last `/`, with trailing slashes
      removed unless the head is made of slashes only. */
  function Dirname(p: string): string
  {
    var head := p[..RFind(p, '/') + 1];
    if head != [] && !AllSlashes(head) then RStripSlashes(head) else head
  }

  /** `os.path.split(p)`. */
  function Split(p: string): (r: (string, string))
    ensures r.1 == Basename(p)
  {
    (Dirname(p), Basename(p))
  }

  /** `os.path.join(a, b)`. */
  function Join(a: string, b: string): (r: string)
    ensures |b| > 0 && b[0] == '/' ==> r == b
    ensures a == "" ==> r == b
  {
    if |b| > 0 && b[0] == '/' then b
    else if a == [] || a[|a| - 1] == '/' then a + b
    else a + "/" + b
  }

  /** The last component of `join(a, b)` is `b` when `b` holds no `/`. */
  lemma BasenameOfJoin(a: string, b: string)
    requires '/' !in b
    ensures Basename(Join(a, b)) == b
  {
    var j := Join(a, b);
    var k := |j| - |b|;
    assert j[k..] == b;
    assert k == 0 || j[k - 1] == '/';
    var i := RFind(j, '/');
    assert i + 1 == k;
  }

  /** Index where the extension starts, or |p| when `p` has none. */
  function ExtStart(p: string): (k: int)
    ensures 0 <= k <= |p|
    ensures k < |p| ==> p[k] == '.'
    ensures k < |p| ==> forall j :: k < j < |p| ==> p[j] != '.' && p[j] != '/'
  {
    var sepIndex := RFind(p, '/');
    var dotIndex := RFind(p, '.');
    if dotIndex > sepIndex && exists j :: sepIndex + 1 <= j < dotIndex && p[j] != '.'
    then dotIndex else |p|
  }

  /** `os.path.splitext(p)`: the extension starts at the last `.` of the last
      component, unless that component consists of leading dots up to there. */
  function SplitExt(p: string): (r: (string, string))
    ensures r.0 + r.1 == p
    ensures r.1 == "" || (r.1[0] == '.' && '/' !in r.1 && '.' !in r.1[1..])
  {
    var k := ExtStart(p);
    assert p[..k] + p[k..] == p;
    (p[..k], p[k..])
  }

  /** A last component `stem + ext` with one dot, starting `ext`, splits there. */
  lemma {:induction false} SplitExtOfStem(stem: string, ext: string)
    requires stem != "" && '.' !in stem && '/' !in stem
    requires |ext| > 0 && ext[0] == '.' && '.' !in ext[1..] && '/' !in ext
    ensures SplitExt(stem + ext) == (stem, ext)
  {
    var p := stem + ext;
    assert forall j :: 0 <= j < |p| ==> p[j] != '/' by {
      forall j | 0 <= j < |p| ensures p[j] != '/' {
        if j < |stem| { assert p[j] == stem[j]; } else { assert p[j] == ext[j - |stem|]; }
      }
    }
    assert RFind(p, '/') == -1;
    assert p[|stem|] == '.';
    forall j | |stem| < j < |p| ensures p[j] != '.' {
      assert p[j] == ext[1..][j - |stem| - 1];
    }
    assert RFind(p, '.') == |stem|;
    assert p[0] == stem[0] && p[0] != '.';
    assert ExtStart(p) == |stem|;
    assert p[..|stem|] == stem && p[|stem|..] == ext;
  }

  /** Below a directory prefix that ends in `/`, a last component `stem + ext`
      with one dot, starting `ext`, splits there too. */
  lemma {:induction false} SplitExtAfterSlash(p: string, pre: string, stem: string, ext: string)
    requires pre == [] || pre[|pre| - 1] == '/'
    requires stem != "" && '.' !in stem && '/' !in stem
    requires |ext| > 0 && ext[0] == '.' && '.' !in ext[1..] && '/' !in ext
    requires p == pre + stem + ext
    ensures SplitExt(p) == (pre + stem, ext)
  {
    var n := |pre|;
    forall j | n <= j < |p| ensures p[j] != '/' {
      if j < n + |stem| { assert p[j] == stem[j - n]; } else { assert p[j] == ext[j - n - |stem|]; }
    }
    if n > 0 {
      assert p[n - 1] == '/';
    }
    assert RFind(p, '/') == n - 1;
    assert p[n + |stem|] == '.';
    forall j | n + |stem| < j < |p| ensures p[j] != '.' {
      assert p[j] == ext[1..][j - n - |stem| - 1];
    }
    assert RFind(p, '.') == n + |stem|;
    assert p[n] == stem[0] && p[n] != '.';
    assert ExtStart(p) == n + |stem|;
    assert p[..n + |stem|] == pre + stem && p[n + |stem|..] == ext;
  }

  /** `join(dir, name)` is `dir` with a `/` put in front of `name` when needed. */
  lemma JoinPrefix(dir: string, name: string)
    requires name != "" && name[0] != '/'
    ensures var pre := if dir == [] || dir[|dir| - 1] == '/' then dir else dir + "/";
      Join(dir, name) == pre + name && (pre == [] || pre[|pre| - 1] == '/')
  {
  }

  /** Joining a file name `stem + ext` with one extension, and splitting off
      the extension again, gives the joined stem. */
  lemma {:induction false} SplitExtOfJoin(dir: string, stem: string, ext: string)
    requires stem != "" && '.' !in stem && '/' !in stem
    requires |ext| > 0 && ext[0] == '.' && '.' !in ext[1..] && '/' !in ext
    ensures SplitExt(Join(dir, stem + ext)) == (Join(dir, stem), ext)
  {
    var pre := if dir == [] || dir[|dir| - 1] == '/' then dir else dir + "/";
    JoinPrefix(dir, stem + ext);
    JoinPrefix(dir, stem);
    assert pre + (stem + ext) == pre + stem + ext;
    SplitExtAfterSlash(Join(dir, stem + ext), pre, stem, ext);
  }

  /** Text appended to a joined relative name extends that name. */
  lemma JoinAppend(a: string, b: string, c: string)
    requires b != "" && b[0] != '/'
    ensures Join(a, b) + c == Join(a, b + c)
  {
    JoinPrefix(a, b);
    JoinPrefix(a, b + c);
  }

  /** `join` of relative parts is associative. */
  lemma JoinAssoc(a: string, b: string, c: string)
    requires b == "" || b[0] != '/'
    requires c != "" && c[0] != '/'
    ensures Join(a, Join(b, c)) == Join(Join(a, b), c)
  {
    JoinPrefix(b, c);
    if b != "" {
      JoinPrefix(a, Join(b, c));
      JoinPrefix(a, b);
      JoinPrefix(Join(a, b), c);
    }
  }

  /** `split(a + "/" + b)` is `(a, b)` when `b` holds no `/` and `a` is not empty
      and does not end in `/`. */
  lemma {:induction false} SplitAtLastSlash(a: string, b: string, p: string)
    requires a != "" && a[|a| - 1] != '/' && '/' !in b
    requires p == a + "/" + b
    ensures Split(p) == (a, b)
  {
    forall j | |a| < j < |p| ensures p[j] != '/' {
      assert p[j] == b[j - |a| - 1];
    }
    assert p[|a|] == '/';
    assert RFind(p, '/') == |a|;
    var head := p[..|a| + 1];
    assert head == a + "/";
    assert head[|a| - 1] == a[|a| - 1];
    assert !AllSlashes(head);
    assert head[..|a|] == a;
    assert RStripSlashes(head) == RStripSlashes(a);
    assert p[|a| + 1..] == b;
  }
}
