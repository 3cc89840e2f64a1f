/** Leaf-wise merging: WalkLeaves and the write loop of Plan.Apply, as functions on trees. */
module LeafMerge {
  import opened Wrappers
  import opened JsonTree

  /** One terminal value with its path, read by WalkLeaves or written by Apply. */
  datatype Leaf = Leaf(segments: Path, value: JSON)

  /** A leaf is anything but a non-empty map: scalars, lists, nulls and empty maps. */
  predicate IsTerminal(v: JSON) {
    v.Obj? ==> v.fields == map[]
  }

  predicate IsLeaf(v: JSON, l: Leaf) {
    l.segments != [] && At(v, l.segments) == Some(l.value) && IsTerminal(l.value)
  }

  /** The possible results of WalkLeaves: every leaf once, in any order, since Go does not
      fix the iteration order of a map. */
  ghost predicate IsWalk(v: JSON, leaves: seq<Leaf>) {
    && (forall l :: l in leaves <==> IsLeaf(v, l))
    && (forall i, j :: 0 <= i < j < |leaves| ==> leaves[i] != leaves[j])
  }

  /** No path in the list is a prefix of, or equal to, another. */
  ghost predicate Antichain(edits: seq<Leaf>) {
    && (forall i :: 0 <= i < |edits| ==> edits[i].segments != [])
    && (forall i, j :: 0 <= i < j < |edits| ==> !Comparable(edits[i].segments, edits[j].segments))
  }

  /** The writes of Apply in order; None when one of them is refused. */
  function Merge(v: JSON, edits: seq<Leaf>): (r: Option<JSON>)
    ensures r.Some? && v.Obj? ==> r.value.Obj?
    decreases |edits|
  {
    if edits == [] then Some(v)
    else if Settable(v, edits[0].segments) then Merge(SetAt(v, edits[0].segments, edits[0].value), edits[1..])
    else None
  }

  /** A change is refused by the original target itself. */
  ghost predicate Refused(v: JSON, e: Leaf) {
    exists n :: 0 < n < |e.segments| && Blocks(v, e.segments[..n])
  }

  /** What the merged tree reads at q, in terms of the original target and the changes. */
  ghost predicate EffectAt(v: JSON, w: JSON, edits: seq<Leaf>, q: Path) {
    && (forall e :: e in edits && e.segments <= q ==> At(w, q) == At(e.value, q[|e.segments|..]))
    && ((exists e :: e in edits && q < e.segments) ==> ObjAt(w, q))
    && ((forall e :: e in edits ==> !Comparable(e.segments, q)) ==> At(w, q) == At(v, q))
  }

  lemma PrefixTransitive(p: Path, q: Path, r: Path)
    requires p <= q <= r
    ensures p <= r
  {
  }

  lemma PrefixesComparable(p: Path, q: Path, r: Path)
    requires p <= r && q <= r
    ensures Comparable(p, q)
  {
    assert p == r[..|p|] && q == r[..|q|];
  }

  lemma LeavesIncomparable(v: JSON, a: Leaf, b: Leaf)
    requires IsLeaf(v, a) && IsLeaf(v, b) && a.segments <= b.segments
    ensures a == b
  {
    var n := |a.segments|;
    assert b.segments[..n] == a.segments;
    if n < |b.segments| {
      AtStep(v, a.segments, b.segments[n]);
      assert b.segments[..n + 1] == a.segments + [b.segments[n]];
      AtPrefix(v, b.segments, n + 1);
      assert false;
    } else {
      assert a.segments == b.segments;
    }
  }

  /** The leaves WalkLeaves yields have distinct paths, none of which is a prefix of another. */
  lemma WalkIsAntichain(v: JSON, leaves: seq<Leaf>)
    requires IsWalk(v, leaves)
    ensures Antichain(leaves)
  {
    forall i, j | 0 <= i < j < |leaves|
      ensures !Comparable(leaves[i].segments, leaves[j].segments)
    {
      var a, b := leaves[i], leaves[j];
      if a.segments <= b.segments {
        LeavesIncomparable(v, a, b);
      } else if b.segments <= a.segments {
        LeavesIncomparable(v, b, a);
      }
    }
    assert forall i :: 0 <= i < |leaves| ==> leaves[i] in leaves;
  }

  /** One write of an antichain leaves the refusal of every other change as it was. */
  lemma RefusalUnchanged(v: JSON, d: Leaf, e: Leaf)
    requires d.segments != [] && e.segments != [] && !Comparable(d.segments, e.segments)
    requires Settable(v, d.segments)
    ensures Refused(SetAt(v, d.segments, d.value), e) <==> Refused(v, e)
  {
    var w := SetAt(v, d.segments, d.value);
    forall n | 0 < n < |e.segments|
      ensures Blocks(w, e.segments[..n]) <==> Blocks(v, e.segments[..n])
    {
      var q := e.segments[..n];
      SetAtEffect(v, d.segments, d.value, q);
      SettableIff(v, d.segments);
      if q < d.segments {
        assert d.segments[..n] == q;
      } else if d.segments <= q {
        PrefixTransitive(d.segments, q, e.segments);
      }
    }
  }

  lemma AntichainTail(edits: seq<Leaf>)
    requires Antichain(edits) && edits != []
    ensures Antichain(edits[1..])
    ensures forall e :: e in edits[1..] ==> e.segments != [] && !Comparable(edits[0].segments, e.segments)
    ensures forall e :: e in edits <==> e == edits[0] || e in edits[1..]
  {
    assert edits == [edits[0]] + edits[1..];
  }

  /** Applying an antichain fails exactly when the original target refuses one of its changes. */
  lemma {:induction false} MergeFailsIff(v: JSON, edits: seq<Leaf>)
    requires v.Obj? && Antichain(edits)
    ensures Merge(v, edits) == None <==> exists e :: e in edits && Refused(v, e)
    decreases |edits|
  {
    if edits != [] {
      var d := edits[0];
      AntichainTail(edits);
      SettableIff(v, d.segments);
      if Settable(v, d.segments) {
        var w := SetAt(v, d.segments, d.value);
        MergeFailsIff(w, edits[1..]);
        forall e | e in edits[1..] ensures Refused(w, e) <==> Refused(v, e) {
          RefusalUnchanged(v, d, e);
        }
      }
    }
  }

  /** The exact effect of applying an antichain, path by path. */
  lemma {:induction false} MergeEffect(v: JSON, edits: seq<Leaf>, q: Path)
    requires v.Obj? && Antichain(edits) && Merge(v, edits).Some?
    ensures EffectAt(v, Merge(v, edits).value, edits, q)
    decreases |edits|
  {
    if edits != [] {
      var d, w := edits[0], Merge(v, edits).value;
      var u := SetAt(v, d.segments, d.value);
      AntichainTail(edits);
      MergeEffect(u, edits[1..], q);
      SetAtEffect(v, d.segments, d.value, q);
      if d.segments <= q {
        forall e | e in edits[1..] ensures !Comparable(e.segments, q) {
          if q <= e.segments {
            PrefixTransitive(d.segments, q, e.segments);
          } else if e.segments <= q {
            PrefixesComparable(d.segments, e.segments, q);
          }
        }
      }
    }
  }

  /** Two lists of the same writes, in any two orders, succeed together and build one tree. */
  lemma MergeOrderIndependent(v: JSON, a: seq<Leaf>, b: seq<Leaf>)
    requires v.Obj? && Antichain(a) && Antichain(b)
    requires forall e :: e in a <==> e in b
    ensures Merge(v, a) == Merge(v, b)
  {
    MergeFailsIff(v, a);
    MergeFailsIff(v, b);
    if Merge(v, a).Some? {
      var x, y := Merge(v, a).value, Merge(v, b).value;
      forall q ensures ShapeAt(x, q) == ShapeAt(y, q) {
        MergeEffect(v, a, q);
        MergeEffect(v, b, q);
      }
      SameShapesSameTree(x, y);
    }
  }

  /** Applying the same changes to the result changes nothing. */
  lemma MergeIdempotent(v: JSON, edits: seq<Leaf>)
    requires v.Obj? && Antichain(edits) && Merge(v, edits).Some?
    ensures Merge(Merge(v, edits).value, edits) == Merge(v, edits)
  {
    var w := Merge(v, edits).value;
    MergeFailsIff(w, edits);
    forall e, n | e in edits && 0 < n < |e.segments| ensures !Blocks(w, e.segments[..n]) {
      MergeEffect(v, edits, e.segments[..n]);
    }
    assert Merge(w, edits).Some?;
    forall q ensures ShapeAt(Merge(w, edits).value, q) == ShapeAt(w, q) {
      MergeEffect(v, edits, q);
      MergeEffect(w, edits, q);
    }
    SameShapesSameTree(Merge(w, edits).value, w);
  }

  /** Below every non-empty map there is a leaf. */
  lemma {:induction false} LeafBeneath(v: JSON, p: Path) returns (l: Leaf)
    requires ObjAt(v, p) && (p == [] ==> v != EMPTY)
    ensures IsLeaf(v, l) && p <= l.segments
    decreases At(v, p).value
  {
    var w := At(v, p).value;
    if w.fields == map[] {
      l := Leaf(p, w);
    } else {
      var k :| k in w.fields;
      AtStep(v, p, k);
      if w.fields[k].Obj? {
        l := LeafBeneath(v, p + [k]);
      } else {
        l := Leaf(p + [k], w.fields[k]);
      }
    }
  }

  /** Writing all leaves of an object into an empty map rebuilds it: dotted keys, nulls and
      empty maps included. */
  lemma LeafRoundTrip(v: JSON, leaves: seq<Leaf>)
    requires v.Obj? && IsWalk(v, leaves)
    ensures Merge(EMPTY, leaves) == Some(v)
  {
    WalkIsAntichain(v, leaves);
    MergeFailsIff(EMPTY, leaves);
    forall e, n | e in leaves && 0 < n < |e.segments| ensures !Blocks(EMPTY, e.segments[..n]) {
      assert e.segments[..n] != [];
    }
    var w := Merge(EMPTY, leaves).value;
    forall q ensures ShapeAt(w, q) == ShapeAt(v, q) {
      MergeEffect(EMPTY, leaves, q);
      LeavesDecideShape(v, leaves, q);
    }
    SameShapesSameTree(w, v);
  }

  /** Where a path stands relative to the leaves of a tree fixes what it names. */
  lemma LeavesDecideShape(v: JSON, leaves: seq<Leaf>, q: Path)
    requires v.Obj? && IsWalk(v, leaves)
    ensures forall e :: e in leaves && e.segments <= q ==> At(v, q) == At(e.value, q[|e.segments|..])
    ensures (exists e :: e in leaves && q < e.segments) ==> ObjAt(v, q)
    ensures (forall e :: e in leaves ==> !Comparable(e.segments, q)) ==> ShapeAt(v, q) == ShapeAt(EMPTY, q)
  {
    forall e | e in leaves && e.segments <= q
      ensures At(v, q) == At(e.value, q[|e.segments|..])
    {
      assert e.segments + q[|e.segments|..] == q;
      AtConcat(v, e.segments, q[|e.segments|..]);
    }
    forall e | e in leaves && q < e.segments ensures ObjAt(v, q) {
      AtPrefix(v, e.segments, |q|);
      assert e.segments[..|q|] == q;
    }
    if (forall e :: e in leaves ==> !Comparable(e.segments, q)) && q != [] && At(v, q).Some? {
      if ObjAt(v, q) {
        var _ := LeafBeneath(v, q);
      } else {
        assert IsLeaf(v, Leaf(q, At(v, q).value));
      }
    }
  }
}
