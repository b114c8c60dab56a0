/** POSIX `os.path.join` and `os.path.isabs`, on which every path the source
    builds depends. */
module Paths {

  /** `os.path.isabs`: the path starts with a separator. */
  predicate IsAbs(p: string) {
    |p| > 0 && p[0] == '/'
  }

  predicate EndsWithSep(p: string) {
    |p| > 0 && p[|p| - 1] == '/'
  }

  /** `p` ends with `suffix`. */
  predicate EndsWith(p: string, suffix: string) {
    |suffix| <= |p| && p[|p| - |suffix|..] == suffix
  }

  /** Two-argument `os.path.join`: an absolute component discards what came
      before; otherwise a separator is inserted unless the left part is empty or
      already ends with one. */
  function Join(a: string, b: string): string {
    if IsAbs(b) then b
    else if a == "" || EndsWithSep(a) then a + b
    else a + "/" + b
  }

  /** What `Join` keeps of its arguments: an absolute right part replaces the
      left; a relative one is appended to it, so the left part is a prefix and
      the right part a suffix of the result. */
  lemma JoinKeeps(a: string, b: string)
    ensures IsAbs(b) ==> Join(a, b) == b
    ensures !IsAbs(b) ==> a <= Join(a, b) && |Join(a, b)| >= |a| + |b|
    ensures !IsAbs(b) ==> Join(a, b)[|Join(a, b)| - |b|..] == b
  {
  }

  /** Joining a plain directory name and then a relative leaf ends the path in
      `<dir>/<leaf>`, whatever the base: the directory name never ends in a
      separator, so `os.path.join` inserts exactly one. */
  lemma JoinSuffix(base: string, dir: string, leaf: string)
    requires dir != "" && !IsAbs(dir) && !EndsWithSep(dir) && !IsAbs(leaf)
    ensures EndsWith(Join(Join(base, dir), leaf), dir + "/" + leaf)
  {
    var b := Join(base, dir);
    JoinKeeps(base, dir);
    assert b[|b| - 1] == b[|b| - |dir|..][|dir| - 1];
    assert !EndsWithSep(b);
    var r := b + "/" + leaf;
    assert Join(b, leaf) == r;
    assert r[|r| - |dir + "/" + leaf|..] == b[|b| - |dir|..] + "/" + leaf;
  }

  /** Variadic `os.path.join(parts[0], parts[1], ...)`, folded from the left. */
  function JoinAll(parts: seq<string>): string
    requires |parts| > 0
  {
    if |parts| == 1 then parts[0] else Join(JoinAll(parts[..|parts| - 1]), parts[|parts| - 1])
  }

  /** `JoinAll` of three and of five components, unfolded. */
  lemma JoinAll3(a: string, b: string, c: string)
    ensures JoinAll([a, b, c]) == Join(Join(a, b), c)
  {
    assert [a, b, c][..2] == [a, b];
    assert [a, b][..1] == [a];
    assert JoinAll([a, b]) == Join(a, b);
  }

  lemma JoinAll4(a: string, b: string, c: string, d: string)
    ensures JoinAll([a, b, c, d]) == Join(Join(Join(a, b), c), d)
  {
    assert [a, b, c, d][..3] == [a, b, c];
    JoinAll3(a, b, c);
  }

  lemma JoinAll5(a: string, b: string, c: string, d: string, e: string)
    ensures JoinAll([a, b, c, d, e]) == Join(Join(JoinAll([a, b, c]), d), e)
  {
    assert [a, b, c, d, e][..4] == [a, b, c, d];
    assert [a, b, c, d][..3] == [a, b, c];
  }

  /** `os.path.join` is associative, so a path built in one call equals the same
      path built in stages. */
  lemma JoinAssoc(a: string, b: string, c: string)
    ensures Join(Join(a, b), c) == Join(a, Join(b, c))
  {
    if IsAbs(c) {
    } else if IsAbs(b) {
      var bc := Join(b, c);
      assert bc[0] == b[0];
    } else if b == "" {
      JoinAssocEmptyMiddle(a, c);
    } else {
      JoinAssocRelative(a, b, c);
    }
  }

  lemma JoinAssocEmptyMiddle(a: string, c: string)
    requires !IsAbs(c)
    ensures Join(Join(a, ""), c) == Join(a, Join("", c))
  {
    assert Join("", c) == c;
    if a != "" && !EndsWithSep(a) {
      assert Join(a, "") == a + "/";
      assert EndsWithSep(a + "/");
      assert (a + "/") + c == a + "/" + c;
    }
  }

  lemma JoinAssocRelative(a: string, b: string, c: string)
    requires !IsAbs(b) && !IsAbs(c) && b != ""
    ensures Join(Join(a, b), c) == Join(a, Join(b, c))
  {
    var bc := Join(b, c);
    assert bc[0] == b[0];
    assert !IsAbs(bc);
    var sep := if a == "" || EndsWithSep(a) then "" else "/";
    var ab := Join(a, b);
    assert ab == a + sep + b;
    assert EndsWithSep(ab) == EndsWithSep(b) by {
      assert ab[|ab| - 1] == b[|b| - 1];
    }
    if EndsWithSep(b) {
      assert bc == b + c;
      assert Join(ab, c) == ab + c;
      assert ab + c == a + sep + (b + c);
    } else {
      assert bc == b + "/" + c;
      assert Join(ab, c) == ab + "/" + c;
      assert ab + "/" + c == a + sep + (b + "/" + c);
    }
  }
}
