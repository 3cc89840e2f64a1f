/** The byte order of strings, and Go's sort.Slice as far as its documentation goes: some
    permutation that respects the comparison, with no promise about equal elements. */
module Order {

  /** Go's `a < b` on strings. */
  predicate Less(a: string, b: string) {
    b != [] && (a == [] || a[0] < b[0] || (a[0] == b[0] && Less(a[1..], b[1..])))
  }

  lemma {:induction false} LessIrreflexive(a: string)
    ensures !Less(a, a)
  {
    if a != [] {
      LessIrreflexive(a[1..]);
    }
  }

  lemma {:induction false} LessTransitive(a: string, b: string, c: string)
    requires Less(a, b) && Less(b, c)
    ensures Less(a, c)
  {
    if a != [] && a[0] == b[0] && b[0] == c[0] {
      LessTransitive(a[1..], b[1..], c[1..]);
    }
  }

  lemma {:induction false} LessTotal(a: string, b: string)
    ensures Less(a, b) || Less(b, a) || a == b
  {
    if a != [] && b != [] && a[0] == b[0] {
      LessTotal(a[1..], b[1..]);
      assert a == [a[0]] + a[1..] && b == [b[0]] + b[1..];
    }
  }

  lemma {:induction false} LessSamePrefix(p: string, a: string, b: string)
    ensures Less(p + a, p + b) <==> Less(a, b)
  {
    if p == [] {
      assert p + a == a && p + b == b;
    } else {
      assert (p + a)[1..] == p[1..] + a && (p + b)[1..] == p[1..] + b;
      LessSamePrefix(p[1..], a, b);
    }
  }

  /** Strings of one length compare by their first parts, then by the rest. */
  lemma {:induction false} LessConcat(a: string, a': string, b: string, b': string)
    requires |a| == |b|
    ensures Less(a + a', b + b') <==> Less(a, b) || (a == b && Less(a', b'))
  {
    if a == [] {
      assert a + a' == a' && b + b' == b';
    } else {
      assert (a + a')[1..] == a[1..] + a' && (b + b')[1..] == b[1..] + b';
      LessConcat(a[1..], a', b[1..], b');
      assert a == [a[0]] + a[1..] && b == [b[0]] + b[1..];
    }
  }

  /** What sort.Slice asks of its comparison: a strict weak order. */
  ghost predicate WeakOrder<T(!new)>(less: (T, T) -> bool) {
    && (forall x, y :: less(x, y) ==> !less(y, x))
    && (forall x, y, z :: !less(x, y) && !less(y, z) ==> !less(x, z))
  }

  ghost predicate SortedBy<T>(less: (T, T) -> bool, s: seq<T>) {
    forall i, j :: 0 <= i < j < |s| ==> !less(s[j], s[i])
  }

  function Insert<T>(less: (T, T) -> bool, x: T, s: seq<T>): seq<T> {
    if s == [] then [x]
    else if less(s[0], x) then [s[0]] + Insert(less, x, s[1..])
    else [x] + s
  }

  lemma {:induction false} InsertSorted<T(!new)>(less: (T, T) -> bool, x: T, s: seq<T>)
    requires WeakOrder(less) && SortedBy(less, s)
    ensures SortedBy(less, Insert(less, x, s))
    ensures multiset(Insert(less, x, s)) == multiset(s) + multiset{x}
  {
    var r := Insert(less, x, s);
    if s != [] {
      assert s == [s[0]] + s[1..];
      if less(s[0], x) {
        InsertSorted(less, x, s[1..]);
        forall y | y in r[1..] ensures !less(y, s[0]) {
          assert r[1..] == Insert(less, x, s[1..]);
          assert y in multiset(s[1..]) + multiset{x};
        }
      } else {
        forall y | y in s ensures !less(y, x) {
          assert !less(y, s[0]);
        }
      }
    }
  }

  /** sort.Slice */
  method SortSlice<T(!new)>(s: seq<T>, less: (T, T) -> bool) returns (r: seq<T>)
    requires WeakOrder(less)
    ensures multiset(r) == multiset(s) && SortedBy(less, r)
  {
    r := [];
    var i := 0;
    while i < |s|
      invariant 0 <= i <= |s|
      invariant multiset(r) == multiset(s[..i]) && SortedBy(less, r)
    {
      InsertSorted(less, s[i], r);
      assert s[..i + 1] == s[..i] + [s[i]];
      r := Insert(less, s[i], r);
      i := i + 1;
    }
    assert s[..i] == s;
  }

  /** A comparison that tells the elements of s apart. */
  ghost predicate TellsApart<T(!new)>(less: (T, T) -> bool, s: seq<T>) {
    forall x, y :: x in s && y in s && !less(x, y) && !less(y, x) ==> x == y
  }

  lemma SameFirst<T(!new)>(less: (T, T) -> bool, s: seq<T>, r: seq<T>)
    requires TellsApart(less, s) && s != [] && r != []
    requires multiset(s) == multiset(r) && SortedBy(less, s) && SortedBy(less, r)
    ensures s[0] == r[0]
  {
    assert s[0] in multiset(r) && r[0] in multiset(s);
    var i :| 0 <= i < |s| && s[i] == r[0];
    var j :| 0 <= j < |r| && r[j] == s[0];
    assert i > 0 ==> !less(s[i], s[0]);
    assert j > 0 ==> !less(r[j], r[0]);
  }

  lemma SameRest<T>(s: seq<T>, r: seq<T>)
    requires s != [] && r != [] && s[0] == r[0] && multiset(s) == multiset(r)
    ensures multiset(s[1..]) == multiset(r[1..])
  {
    assert s == [s[0]] + s[1..] && r == [r[0]] + r[1..];
    assert multiset(s[1..]) == multiset(s) - multiset{s[0]};
    assert multiset(r[1..]) == multiset(r) - multiset{r[0]};
  }

  /** Under a comparison that tells all elements apart, there is one sorted order. */
  lemma {:induction false} SortedUnique<T(!new)>(less: (T, T) -> bool, s: seq<T>, r: seq<T>)
    requires TellsApart(less, s)
    requires multiset(s) == multiset(r) && SortedBy(less, s) && SortedBy(less, r)
    ensures s == r
  {
    assert |multiset(s)| == |s| && |multiset(r)| == |r|;
    if s != [] {
      SameFirst(less, s, r);
      SameRest(s, r);
      assert forall x :: x in s[1..] ==> x in s;
      SortedUnique(less, s[1..], r[1..]);
      assert s == [s[0]] + s[1..] && r == [r[0]] + r[1..];
    }
  }

  /** Elements that occur once differ. */
  lemma OnceEach<T(!new)>(s: seq<T>, i: nat, j: nat)
    requires i < j < |s| && forall x :: x in s ==> multiset(s)[x] <= 1
    ensures s[i] != s[j]
  {
    assert s == s[..j] + s[j..];
    assert s[i] in s[..j] && s[j] in s[j..];
    assert multiset(s)[s[j]] == multiset(s[..j])[s[j]] + multiset(s[j..])[s[j]];
  }

  /** sort.Strings */
  function SortStrings(s: seq<string>): seq<string> {
    if s == [] then [] else Insert((a, b) => Less(a, b), s[0], SortStrings(s[1..]))
  }

  lemma LessIsWeakOrder()
    ensures WeakOrder((a: string, b: string) => Less(a, b))
  {
    forall a: string, b: string | Less(a, b) ensures !Less(b, a) {
      if Less(b, a) {
        LessTransitive(a, b, a);
        LessIrreflexive(a);
      }
    }
    forall a: string, b: string, c: string | !Less(a, b) && !Less(b, c) ensures !Less(a, c) {
      LessTotal(a, b);
      LessTotal(b, c);
      if Less(a, c) {
        if a != b {
          LessTransitive(b, a, c);
        }
      }
    }
  }

  lemma {:induction false} SortStringsSorts(s: seq<string>)
    ensures multiset(SortStrings(s)) == multiset(s)
    ensures SortedBy((a: string, b: string) => Less(a, b), SortStrings(s))
  {
    if s != [] {
      var less, rest := (a: string, b: string) => Less(a, b), SortStrings(s[1..]);
      SortStringsSorts(s[1..]);
      LessIsWeakOrder();
      InsertSorted(less, s[0], rest);
      assert SortStrings(s) == Insert(less, s[0], rest);
      assert s == [s[0]] + s[1..];
    }
  }

  /** The sorted list of names depends on the names only, not on the order they were given in. */
  lemma SortStringsCanonical(s: seq<string>, r: seq<string>)
    requires multiset(s) == multiset(r)
    ensures SortStrings(s) == SortStrings(r)
  {
    SortStringsSorts(s);
    SortStringsSorts(r);
    forall a: string, b: string ensures !Less(a, b) && !Less(b, a) ==> a == b {
      LessTotal(a, b);
    }
    SortedUnique((a: string, b: string) => Less(a, b), SortStrings(s), SortStrings(r));
  }
}
