/** Generic JSON objects and the segment paths of internal/pathutil.

    A Go `map[string]any` is the `Obj` case. Paths are already split: a segment is one whole
    map key and may itself contain dots. The functions here are the meaning that the in-place
    operations of class `Document` are proved against. */
module JsonTree {
  import opened Wrappers

  type Path = seq<string>

  datatype JSON =
    | Null
    | Bool(flag: bool)
    | Num(digits: string)
    | Str(text: string)
    | List(items: seq<JSON>)
    | Obj(fields: map<string, JSON>)

  const EMPTY := Obj(map[])

  /** The value found by following p from v; the empty path names v itself. */
  function At(v: JSON, p: Path): Option<JSON> {
    if p == [] then Some(v)
    else if v.Obj? && p[0] in v.fields then At(v.fields[p[0]], p[1..])
    else None
  }

  function GetSegments(obj: JSON, segments: Path): Option<JSON> {
    if segments == [] then None else At(obj, segments)
  }

  predicate ObjAt(v: JSON, p: Path) {
    At(v, p).Some? && At(v, p).value.Obj?
  }

  /** A value that stops SetSegments: present, and neither a map nor null. */
  predicate Blocks(v: JSON, p: Path) {
    At(v, p).Some? && !At(v, p).value.Obj? && At(v, p).value != Null
  }

  predicate Comparable(p: Path, q: Path) {
    p <= q || q <= p
  }

  /** SetSegments succeeds: every intermediate segment is absent, null or a map. */
  predicate Settable(v: JSON, p: Path) {
    && p != []
    && v.Obj?
    && (|p| == 1 || p[0] !in v.fields || v.fields[p[0]] == Null || Settable(v.fields[p[0]], p[1..]))
  }

  /** The map a path step descends into; absent and null steps are created. */
  function Child(v: JSON, key: string): JSON
    requires v.Obj?
  {
    if key !in v.fields || v.fields[key] == Null then EMPTY else v.fields[key]
  }

  function SetAt(v: JSON, p: Path, x: JSON): (w: JSON)
    requires Settable(v, p)
    ensures w.Obj?
    decreases |p|
  {
    if |p| == 1 then Obj(v.fields[p[0] := x])
    else Obj(v.fields[p[0] := SetAt(Child(v, p[0]), p[1..], x)])
  }

  /** Delete with pruning: a map left empty by the deletion below it goes too. */
  function DeleteAt(v: JSON, p: Path): (w: JSON)
    requires v.Obj?
    ensures w.Obj?
  {
    if p == [] then v
    else if |p| == 1 then Obj(v.fields - {p[0]})
    else if p[0] in v.fields && v.fields[p[0]].Obj? then
      var next := DeleteAt(v.fields[p[0]], p[1..]);
      if next.fields == map[] then Obj(v.fields - {p[0]}) else Obj(v.fields[p[0] := next])
    else v
  }

  lemma {:induction false} AtConcat(v: JSON, p: Path, q: Path)
    ensures At(v, p + q) == (if At(v, p).Some? then At(At(v, p).value, q) else None)
  {
    if p == [] {
      assert p + q == q;
    } else if v.Obj? && p[0] in v.fields {
      assert (p + q)[1..] == p[1..] + q;
      AtConcat(v.fields[p[0]], p[1..], q);
    }
  }

  /** What a path names once one more segment is taken. */
  lemma AtStep(v: JSON, p: Path, key: string)
    ensures At(v, p + [key]) ==
            if ObjAt(v, p) && key in At(v, p).value.fields then Some(At(v, p).value.fields[key]) else None
  {
    AtConcat(v, p, [key]);
  }

  lemma {:induction false} AtPrefix(v: JSON, p: Path, n: nat)
    requires n <= |p| && At(v, p).Some?
    ensures At(v, p[..n]).Some?
    ensures n < |p| ==> At(v, p[..n]).value.Obj?
  {
    assert p[..n] + p[n..] == p;
    AtConcat(v, p[..n], p[n..]);
  }

  /** SetSegments fails exactly when some proper, non-empty prefix of the path holds a value
      that is neither a map nor null. */
  lemma {:induction false} SettableIff(v: JSON, p: Path)
    requires p != [] && v.Obj?
    ensures Settable(v, p) <==> forall n | 0 < n < |p| :: !Blocks(v, p[..n])
  {
    if |p| > 1 {
      var k, rest := p[0], p[1..];
      assert At(v, p[..1]) == if k in v.fields then Some(v.fields[k]) else None by {
        assert p[..1] == [] + [k];
        AtStep(v, [], k);
      }
      forall n | 1 < n < |p|
        ensures Blocks(v, p[..n]) <==> k in v.fields && Blocks(v.fields[k], rest[..n - 1])
      {
        assert p[..n][1..] == rest[..n - 1];
      }
      if k in v.fields && v.fields[k].Obj? {
        SettableIff(v.fields[k], rest);
        if forall n | 0 < n < |p| :: !Blocks(v, p[..n]) {
          forall n | 0 < n < |rest| ensures !Blocks(v.fields[k], rest[..n]) {
            assert !Blocks(v, p[..n + 1]);
          }
        }
      } else if k in v.fields && v.fields[k] == Null {
        forall n | 0 < n < |rest| ensures !Blocks(v.fields[k], rest[..n]) {
          assert rest[..n] != [];
        }
      } else if k in v.fields {
        assert Blocks(v, p[..1]);
      }
    }
  }

  /** The exact effect of one successful SetSegments on every path. */
  lemma {:induction false} SetAtEffect(v: JSON, p: Path, x: JSON, q: Path)
    requires Settable(v, p)
    ensures p <= q ==> At(SetAt(v, p, x), q) == At(x, q[|p|..])
    ensures q < p ==> ObjAt(SetAt(v, p, x), q)
    ensures !Comparable(p, q) ==> At(SetAt(v, p, x), q) == At(v, q)
    decreases |p|
  {
    if q != [] && q[0] == p[0] {
      if |p| > 1 {
        var next := Child(v, p[0]);
        SetAtEffect(next, p[1..], x, q[1..]);
        assert p[1..] <= q[1..] <==> p <= q;
        assert q[1..] < p[1..] <==> q < p;
        if p <= q {
          assert q[1..][|p| - 1..] == q[|p|..];
        }
        if !Comparable(p, q) {
          assert q[1..] != [];
        }
      }
    }
  }

  /** The exact effect of Delete: everything at or below p is gone, and a path p does not
      touch reads as before. */
  lemma {:induction false} DeleteAtEffect(v: JSON, p: Path, q: Path)
    requires p != [] && v.Obj?
    ensures p <= q ==> At(DeleteAt(v, p), q) == None
    ensures !Comparable(p, q) ==> At(DeleteAt(v, p), q) == At(v, q)
  {
    if q != [] && q[0] == p[0] && |p| > 1 {
      if p[0] in v.fields && v.fields[p[0]].Obj? {
        DeleteAtEffect(v.fields[p[0]], p[1..], q[1..]);
        assert p[1..] <= q[1..] <==> p <= q;
        if q[1..] <= p[1..] {
          assert q <= p;
        }
        var next := DeleteAt(v.fields[p[0]], p[1..]);
        if next.fields == map[] && q[1..] != [] {
          assert At(next, q[1..]) == None;
        }
      }
    }
  }

  /** What a path looks like without what lies beneath it. */
  datatype Shape = Absent | Object | Value(value: JSON)

  function ShapeAt(v: JSON, p: Path): Shape {
    match At(v, p)
    case None => Absent
    case Some(Obj(_)) => Object
    case Some(w) => Value(w)
  }

  /** A tree is determined by the shape of every path into it. */
  lemma {:induction false} SameShapesSameTree(v: JSON, w: JSON)
    requires forall p :: ShapeAt(v, p) == ShapeAt(w, p)
    ensures v == w
    decreases v
  {
    assert ShapeAt(v, []) == ShapeAt(w, []);
    if v.Obj? {
      forall k
        ensures k in v.fields <==> k in w.fields
        ensures k in v.fields ==> v.fields[k] == w.fields[k]
      {
        assert ShapeAt(v, [k]) == ShapeAt(w, [k]);
        AtStep(v, [], k);
        AtStep(w, [], k);
        assert [] + [k] == [k];
        if k in v.fields {
          forall p ensures ShapeAt(v.fields[k], p) == ShapeAt(w.fields[k], p) {
            assert ([k] + p)[1..] == p;
            assert ShapeAt(v, [k] + p) == ShapeAt(w, [k] + p);
          }
          SameShapesSameTree(v.fields[k], w.fields[k]);
        }
      }
    }
  }
}
