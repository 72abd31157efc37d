// Canonical paths (server/paths.go) and the byte order of their string form.
//
// A path is the sequence of its components, so "p is d or lies inside d" is the
// prefix relation and cannot be confused with a mere string prefix.
module Paths {
  type Path = seq<string>

  // isUnder: p is one of roots, or lies inside one.
  predicate IsUnder(p: Path, roots: set<Path>) {
    exists r :: r in roots && r <= p
  }

  function Base(p: Path): string {
    if p == [] then "" else p[|p| - 1]
  }

  // The string form: every component led by a slash.
  function Join(p: Path): string {
    if p == [] then "" else "/" + p[0] + Join(p[1..])
  }

  // Byte order on strings, as Go compares them.
  predicate StrLess(a: string, b: string) {
    b != [] && (a == [] || a[0] < b[0] || (a[0] == b[0] && StrLess(a[1..], b[1..])))
  }

  predicate PathLess(p: Path, q: Path) {
    StrLess(Join(p), Join(q))
  }

  ghost predicate SlashFree(p: Path) {
    forall i :: 0 <= i < |p| ==> '/' !in p[i]
  }

  lemma {:induction false} StrLessTransitive(a: string, b: string, c: string)
    requires StrLess(a, b) && StrLess(b, c)
    ensures StrLess(a, c)
  {
    if a != [] && a[0] == b[0] && b[0] == c[0] {
      StrLessTransitive(a[1..], b[1..], c[1..]);
    }
  }

  lemma {:induction false} StrLessIrreflexive(a: string)
    ensures !StrLess(a, a)
  {
    if a != [] { StrLessIrreflexive(a[1..]); }
  }

  lemma {:induction false} StrLessTotal(a: string, b: string)
    ensures a == b || StrLess(a, b) || StrLess(b, a)
  {
    if a != [] && b != [] && a[0] == b[0] {
      StrLessTotal(a[1..], b[1..]);
      assert a == [a[0]] + a[1..] && b == [b[0]] + b[1..];
    }
  }

  lemma {:induction false} StrLessPrefixed(c: string, a: string, b: string)
    ensures StrLess(c + a, c + b) == StrLess(a, b)
  {
    if c == [] {
      assert c + a == a && c + b == b;
    } else {
      assert (c + a)[1..] == c[1..] + a && (c + b)[1..] == c[1..] + b;
      StrLessPrefixed(c[1..], a, b);
    }
  }

  lemma {:induction false} JoinAppend(p: Path, n: string)
    ensures Join(p + [n]) == Join(p) + "/" + n
  {
    if p == [] {
      assert p + [n] == [n];
      assert Join([n]) == "/" + n + "";
    } else {
      assert (p + [n])[1..] == p[1..] + [n];
      JoinAppend(p[1..], n);
    }
  }

  // Children of one directory compare as their names do: the order in which a
  // directory listing hands them out is the order of their paths.
  lemma SiblingOrder(p: Path, m: string, n: string)
    ensures PathLess(p + [m], p + [n]) == StrLess(m, n)
  {
    JoinAppend(p, m);
    JoinAppend(p, n);
    StrLessPrefixed(Join(p) + "/", m, n);
  }

  // Slash-free names make the string form one-to-one.
  lemma {:induction false} JoinInjective(p: Path, q: Path)
    requires SlashFree(p) && SlashFree(q) && Join(p) == Join(q)
    ensures p == q
  {
    if p != [] && q != [] {
      FirstComponent(p[0], Join(p[1..]), q[0], Join(q[1..]));
      JoinInjective(p[1..], q[1..]);
      assert p == [p[0]] + p[1..] && q == [q[0]] + q[1..];
    }
  }

  lemma {:induction false} FirstComponent(a: string, s: string, b: string, t: string)
    requires '/' !in a && '/' !in b
    requires s == "" || s[0] == '/'
    requires t == "" || t[0] == '/'
    requires "/" + a + s == "/" + b + t
    ensures a == b && s == t
  {
    var x, y := a + s, b + t;
    assert ("/" + a + s)[1..] == x && ("/" + b + t)[1..] == y;
    assert forall i :: 0 <= i < |a| ==> x[i] == a[i] && x[i] != '/';
    assert forall i :: 0 <= i < |b| ==> y[i] == b[i] && y[i] != '/';
    assert |x| == |a| || x[|a|] == '/';
    assert |y| == |b| || y[|b|] == '/';
    assert x[..|a|] == a && y[..|b|] == b && x[|a|..] == s && y[|b|..] == t;
  }
}
