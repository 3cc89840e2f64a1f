/** The string operations rules and paths are matched with. */
module Text {
  import opened Wrappers
  import opened JsonTree

  predicate DotFree(s: string) {
    '.' !in s
  }

  predicate SlashFree(s: string) {
    forall i :: 0 <= i < |s| ==> s[i] != '/'
  }

  ghost predicate AllDotFree(p: Path) {
    forall k :: k in p ==> DotFree(k)
  }

  /** strings.Join(segments, "."), the rendering of a split path. */
  function Join(p: Path): string {
    if p == [] then ""
    else if |p| == 1 then p[0]
    else p[0] + "." + Join(p[1..])
  }

  function FirstDot(s: string): (i: nat)
    requires !DotFree(s)
    ensures i < |s| && s[i] == '.' && DotFree(s[..i])
  {
    if s[0] == '.' then 0
    else
      assert s == [s[0]] + s[1..];
      var i := 1 + FirstDot(s[1..]);
      assert s[..i] == [s[0]] + s[1..][..i - 1];
      i
  }

  /** strings.Split(s, "."): never empty, and "" splits into one empty segment. */
  function Split(s: string): (p: Path)
    ensures p != []
    decreases |s|
  {
    if DotFree(s) then [s] else [s[..FirstDot(s)]] + Split(s[FirstDot(s) + 1..])
  }

  /** path equals a, or lies beneath it at a dot. */
  predicate Covers(a: string, path: string) {
    path == a || a + "." <= path
  }

  /** strings.TrimSuffix(s, ".*") */
  function TrimStar(s: string): string {
    if |s| >= 2 && s[|s| - 2..] == ".*" then s[..|s| - 2] else s
  }

  /** strings.CutPrefix */
  function CutPrefix(s: string, prefix: string): Option<string> {
    if prefix <= s then Some(s[|prefix|..]) else None
  }

  lemma FirstDotIs(a: string, rest: string)
    requires DotFree(a)
    ensures !DotFree(a + "." + rest) && FirstDot(a + "." + rest) == |a|
  {
    var s := a + "." + rest;
    assert s[|a|] == '.';
    var i := FirstDot(s);
    forall k | 0 <= k < i ensures s[k] != '.' {
      assert s[k] == s[..i][k];
    }
    forall k | 0 <= k < |a| ensures s[k] != '.' {
      assert s[k] == a[k];
    }
  }

  lemma BeforeDot(a: string, s: string)
    requires a + "." <= s
    ensures !DotFree(s)
  {
    assert s[|a|] == (a + ".")[|a|];
  }

  lemma SplitStep(a: string, rest: string)
    requires DotFree(a)
    ensures Split(a + "." + rest) == [a] + Split(rest)
  {
    FirstDotIs(a, rest);
    assert (a + "." + rest)[..|a|] == a && (a + "." + rest)[|a| + 1..] == rest;
  }

  lemma {:induction false} SplitJoin(p: Path)
    requires p != [] && AllDotFree(p)
    ensures Split(Join(p)) == p
  {
    assert p == [p[0]] + p[1..];
    if |p| > 1 {
      SplitJoin(p[1..]);
      SplitStep(p[0], Join(p[1..]));
    }
  }

  lemma {:induction false} JoinSplit(s: string)
    ensures Join(Split(s)) == s && AllDotFree(Split(s))
    decreases |s|
  {
    if !DotFree(s) {
      var i := FirstDot(s);
      JoinSplit(s[i + 1..]);
      assert Split(s)[1..] == Split(s[i + 1..]);
      assert s == s[..i] + "." + s[i + 1..];
    }
  }

  /** pathutil.Split: the empty path has no segments at all. */
  function SplitPath(path: string): Path {
    if path == "" then [] else Split(path)
  }

  /** Joining the segments of any path gives the path; only the empty one has none, and no
      segment holds a dot. */
  lemma SplitPathJoins(path: string)
    ensures Join(SplitPath(path)) == path && AllDotFree(SplitPath(path))
    ensures SplitPath(path) == [] <==> path == ""
  {
    if path != "" {
      JoinSplit(path);
    }
  }

  lemma {:induction false} JoinConcat(p: Path, q: Path)
    requires p != [] && q != []
    ensures Join(p + q) == Join(p) + "." + Join(q)
  {
    if |p| > 1 {
      assert (p + q)[1..] == p[1..] + q;
      JoinConcat(p[1..], q);
    } else {
      assert (p + q)[1..] == q;
    }
  }

  /** A segment prefix is always a string prefix at a dot: a string match never misses one. */
  lemma JoinPrefix(p: Path, q: Path)
    requires p != [] && p <= q
    ensures Covers(Join(p), Join(q))
  {
    if p != q {
      assert p + q[|p|..] == q;
      JoinConcat(p, q[|p|..]);
      assert Join(p) + "." <= Join(q);
    }
  }

  lemma CoversTransitive(a: string, b: string, c: string)
    requires Covers(a, b) && Covers(b, c)
    ensures Covers(a, c)
  {
  }

  /** Two cuts of one path: the shorter one covers the longer. */
  lemma CutsComparable(a: string, b: string, path: string)
    requires Covers(a, path) && Covers(b, path) && |a| <= |b|
    ensures Covers(a, b)
  {
    assert a == path[..|a|] && b == path[..|b|];
    if |a| < |b| {
      assert path[|a|] == (a + ".")[|a|] == '.';
      assert a + "." == b[..|a| + 1];
    }
  }

  lemma CoversSamePrefix(x: string, a: string, b: string)
    ensures Covers(x + a, x + b) <==> Covers(a, b)
  {
    assert (x + b)[|x|..] == b && (x + a)[|x|..] == a;
    assert x + a + "." == x + (a + ".");
    if Covers(x + a, x + b) && x + a != x + b {
      assert (x + (a + "."))[|x|..] == a + ".";
      assert x + (a + ".") <= x + b;
      assert a + "." == (x + b)[..|x| + |a| + 1][|x|..] == b[..|a| + 1];
    }
  }

  /** A string match at a dot inside dot-free segments is a match of segments: the matched
      path is made of whole leading segments. */
  lemma {:induction false} CutOfDotFree(a: string, p: Path) returns (j: nat)
    requires p != [] && AllDotFree(p) && Covers(a, Join(p))
    ensures 0 < j <= |p| && a == Join(p[..j])
  {
    j := 1;
    var head := p[0];
    assert p[..1] == [head];
    if |p| == 1 {
      if a + "." <= head {
        BeforeDot(a, head);
      }
    } else {
      var tail := Join(p[1..]);
      var path := head + "." + tail;
      if |a| < |head| {
        assert a + "." == path[..|a| + 1] == head[..|a| + 1];
        BeforeDot(a, head);
      } else if |a| == |head| {
        assert a == path[..|a|] == head;
      } else {
        assert a[|head|] == path[|head|] == '.';
        var rest := a[|head| + 1..];
        assert a == path[..|a|] == head + "." + rest;
        assert head + "." + rest == (head + ".") + rest && path == (head + ".") + tail;
        CoversSamePrefix(head + ".", rest, tail);
        var i := CutOfDotFree(rest, p[1..]);
        j := i + 1;
        assert p[..j][1..] == p[1..][..i];
        assert Join(p[..j]) == head + "." + Join(p[1..][..i]);
      }
    }
  }

  /** String and segment matching agree as long as the segments compared hold no dots. */
  lemma CoversSegments(d: Path, p: Path, n: nat)
    requires d != [] && AllDotFree(d) && |d| <= n <= |p| && AllDotFree(p[..n])
    requires Covers(Join(d), Join(p))
    ensures d <= p
  {
    var a, head := Join(d), p[..n];
    JoinPrefix(head, p);
    if |a| <= |Join(head)| {
      CutsComparable(a, Join(head), Join(p));
      var j := CutOfDotFree(a, head);
      SplitJoin(d);
      SplitJoin(head[..j]);
    } else {
      CutsComparable(Join(head), a, Join(p));
      var j := CutOfDotFree(Join(head), d);
      SplitJoin(head);
      SplitJoin(d[..j]);
      assert head == d[..j];
    }
  }
}
