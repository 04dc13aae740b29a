/** `os.path.join` and `os.path.basename` of Python's `posixpath`. */
module PosixPath {
  import opened Strings

  /** `os.path.join(a, b)`: an absolute `b` replaces `a`; otherwise a single
      '/' is inserted unless `a` is empty or already ends with one. */
  function Join(a: string, b: string): string {
    if StartsWith(b, "/") then b
    else if a == "" || EndsWith(a, "/") then a + b
    else a + "/" + b
  }

  /** `os.path.basename(p)`: everything after the last '/'. */
  function Basename(p: string): (r: string)
    ensures '/' !in r
  {
    if p == "" || p[|p| - 1] == '/' then "" else Basename(p[..|p| - 1]) + [p[|p| - 1]]
  }

  lemma {:induction false} BasenameAfterSeparator(x: string, n: string)
    requires x == "" || x[|x| - 1] == '/'
    requires '/' !in n
    ensures Basename(x + n) == n
  {
    if n != "" {
      var m := n[..|n| - 1];
      assert (x + n)[..|x + n| - 1] == x + m;
      BasenameAfterSeparator(x, m);
    } else {
      assert x + n == x;
    }
  }

  /** Joining a name that holds no '/' onto any base and taking the basename
      gives the name back. */
  lemma BasenameOfJoin(base: string, name: string)
    requires '/' !in name
    ensures Basename(Join(base, name)) == name
  {
    if |name| > 0 {
      assert name[0] in name;
      assert name[..1] == [name[0]];
    }
    assert !StartsWith(name, "/");
    if base == "" || EndsWith(base, "/") {
      if base != "" {
        assert base[|base| - 1] == base[|base| - 1..][0];
      }
      BasenameAfterSeparator(base, name);
    } else {
      assert base + "/" + name == (base + "/") + name;
      BasenameAfterSeparator(base + "/", name);
    }
  }

  /** A relative path joined onto a base stays under that base. */
  lemma JoinStaysUnderBase(base: string, rel: string)
    requires !StartsWith(rel, "/")
    ensures StartsWith(Join(base, rel), base)
  {
    if base == "" || EndsWith(base, "/") {
      assert (base + rel)[..|base|] == base;
    } else {
      assert (base + "/" + rel)[..|base|] == base;
    }
  }

  /** `os.path.join(p, '')` ends with a separator whenever `p` is non-empty,
      so rsync copies the directory's contents rather than the directory. */
  lemma JoinEmptyEndsWithSeparator(p: string)
    requires p != ""
    ensures EndsWith(Join(p, ""), "/")
  {
  }
}
