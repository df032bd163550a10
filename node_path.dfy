/** Node's path.extname (POSIX flavour), which server.js uses to keep the extension of the
    uploaded file's original name. */
module NodePath {

  /** The index of the last occurrence of `ch` in `s`, or -1. */
  function LastIndexOf(s: string, ch: char): (i: int)
    ensures -1 <= i < |s|
    ensures i == -1 ==> forall k | 0 <= k < |s| :: s[k] != ch
    ensures 0 <= i ==> s[i] == ch && forall k | i < k < |s| :: s[k] != ch
  {
    if s == [] then -1
    else if s[|s| - 1] == ch then |s| - 1
    else LastIndexOf(s[..|s| - 1], ch)
  }

  /** The path with every trailing '/' removed. */
  function StripTrailingSlashes(p: string): (q: string)
    ensures |q| <= |p| && q == p[..|q|]
    ensures q == [] || q[|q| - 1] != '/'
  {
    if p != [] && p[|p| - 1] == '/' then StripTrailingSlashes(p[..|p| - 1]) else p
  }

  /** The last component of a path, ignoring trailing separators: the characters after the
      last '/' that still has a non-separator after it. */
  function LastComponent(p: string): (c: string)
    ensures '/' !in c
  {
    var q := StripTrailingSlashes(p);
    q[LastIndexOf(q, '/') + 1..]
  }

  /** path.extname: from the last '.' of the last component to its end; the empty string when
      that component has no '.', when its only leading '.' is the last one (a dot file such as
      ".png"), and for the component "..". An extension is thus empty or one '.' followed by
      characters that are neither '.' nor '/', taken from the end of the last component. */
  function ExtName(p: string): (e: string)
    ensures e == [] || e[0] == '.'
    ensures forall k | 1 <= k < |e| :: e[k] != '.' && e[k] != '/'
    ensures |e| <= |LastComponent(p)| && e == LastComponent(p)[|LastComponent(p)| - |e|..]
  {
    var c := LastComponent(p);
    var k := LastIndexOf(c, '.');
    if k <= 0 || c == ".." then "" else c[k..]
  }

  /** A character that does not occur has no last occurrence. */
  lemma {:induction false} LastIndexOfAbsent(s: string, ch: char)
    requires ch !in s
    ensures LastIndexOf(s, ch) == -1
  {
  }

  /** In "base.e", with no '/' in base or e and no '.' in e, there is no '/' and the last '.'
      is the one after base. */
  lemma {:induction false} FileNameSeparators(base: string, e: string)
    requires '/' !in base && '.' !in e && '/' !in e
    ensures '/' !in base + "." + e
    ensures LastIndexOf(base + "." + e, '.') == |base|
  {
    var p := base + "." + e;
    forall k | 0 <= k < |p| ensures p[k] != '/' && (k > |base| ==> p[k] != '.') {
      if k < |base| { assert p[k] == base[k]; }
      else if k > |base| { assert p[k] == e[k - |base| - 1]; }
    }
    var i := LastIndexOf(p, '.');
    assert p[|base|] == '.';
  }

  /** A plain file name "base.e" has the extension ".e". */
  lemma {:induction false} ExtNameOfFileName(base: string, e: string)
    requires base != [] && '/' !in base
    requires '.' !in e && '/' !in e
    requires base + "." + e != ".."
    ensures ExtName(base + "." + e) == "." + e
  {
    var p := base + "." + e;
    FileNameSeparators(base, e);
    assert p[|p| - 1] in p;
    assert StripTrailingSlashes(p) == p;
    LastIndexOfAbsent(p, '/');
    assert LastComponent(p) == p;
    assert p[|base|..] == "." + e;
  }

  /** A name without any '.' has no extension. */
  lemma {:induction false} ExtNameWithoutDot(p: string)
    requires '.' !in p
    ensures ExtName(p) == ""
  {
    var q := StripTrailingSlashes(p);
    assert '.' !in q by {
      assert q == p[..|q|];
    }
    var c := LastComponent(p);
    assert '.' !in c by {
      assert c == q[LastIndexOf(q, '/') + 1..];
    }
    assert LastIndexOf(c, '.') == -1;
  }
}
