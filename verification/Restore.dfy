/** What applying a plan does to a cluster: the guarantees of internal/restore/plan.go. */
module Restore {
  import opened Wrappers
  import opened JsonTree
  import opened LeafMerge
  import opened Text
  import opened Order
  import opened Groups
  import opened Denylist
  import opened Snapshot
  import opened Extraction
  import opened Schema
  import opened PathCheck
  import opened Skip
  import opened Transforms
  import opened Plan
  import Docs = Documents

  function Edits(changes: seq<Change>): (edits: seq<Leaf>)
    ensures |edits| == |changes|
    ensures forall i :: 0 <= i < |changes| ==> edits[i] == Leaf(changes[i].segments, changes[i].value)
  {
    seq(|changes|, i requires 0 <= i < |changes| => Leaf(changes[i].segments, changes[i].value))
  }

  lemma MergeStep(v: JSON, edits: seq<Leaf>, i: nat)
    requires i < |edits|
    ensures Merge(v, edits[i..]) ==
            if Settable(v, edits[i].segments) then Merge(SetAt(v, edits[i].segments, edits[i].value), edits[i + 1..])
            else None
  {
    assert edits[i..][1..] == edits[i + 1..];
  }

  /** One write of the loop. */
  method WriteEdit(cluster: Docs.Document, edits: seq<Leaf>, i: nat, ghost goal: Option<JSON>) returns (ok: bool)
    requires cluster.Valid() && i < |edits| && IsTerminal(edits[i].value)
    requires Merge(cluster.view.tree, edits[i..]) == goal
    modifies cluster, cluster.view.nodes
    ensures cluster.Valid() && fresh(cluster.view.nodes - old(cluster.view.nodes))
    ensures !ok ==> goal == None
    ensures ok ==> Merge(cluster.view.tree, edits[i + 1..]) == goal
  {
    MergeStep(cluster.view.tree, edits, i);
    ok := cluster.SetSegments(edits[i].segments, edits[i].value);
  }

  /** Writes the edits onto a cluster; stops at the first refused one. */
  method WriteEdits(cluster: Docs.Document, edits: seq<Leaf>) returns (ok: bool)
    requires cluster.Valid() && forall i :: 0 <= i < |edits| ==> IsTerminal(edits[i].value)
    modifies cluster, cluster.view.nodes
    ensures cluster.Valid() && fresh(cluster.view.nodes - old(cluster.view.nodes))
    ensures ok <==> Merge(old(cluster.view.tree), edits).Some?
    ensures ok ==> cluster.view.tree == Merge(old(cluster.view.tree), edits).value
  {
    ghost var goal, before := Merge(cluster.view.tree, edits), cluster.view.nodes;
    var i := 0;
    while i < |edits|
      invariant 0 <= i <= |edits|
      invariant cluster.Valid() && fresh(cluster.view.nodes - before)
      invariant Merge(cluster.view.tree, edits[i..]) == goal
    {
      ok := WriteEdit(cluster, edits, i, goal);
      if !ok {
        return;
      }
      i := i + 1;
    }
    ok := true;
  }

  /** Applies a plan to a cluster. */
  method ApplyPlan(cluster: Docs.Document, plan: RestorePlan) returns (ok: bool)
    requires cluster.Valid() && forall c :: c in plan.changes ==> IsTerminal(c.value)
    modifies cluster, cluster.view.nodes
    ensures cluster.Valid() && fresh(cluster.view.nodes - old(cluster.view.nodes))
    ensures ok <==> Merge(old(cluster.view.tree), Edits(plan.changes)).Some?
    ensures ok ==> cluster.view.tree == Merge(old(cluster.view.tree), Edits(plan.changes)).value
  {
    EditsTerminal(plan.changes);
    ok := WriteEdits(cluster, Edits(plan.changes));
  }

  lemma EditsTerminal(changes: seq<Change>)
    requires forall c :: c in changes ==> IsTerminal(c.value)
    ensures forall e :: e in Edits(changes) ==> IsTerminal(e.value)
  {
    forall i | 0 <= i < |changes| ensures IsTerminal(Edits(changes)[i].value) {
      assert changes[i] in changes;
    }
  }

  /** Every change comes from a restored leaf of the snapshot. */
  lemma {:induction false} ChangesFromLeaves(leaves: seq<Leaf>, r: Rules, c: Change)
    ensures c in ChangesOf(leaves, r) <==> exists l :: l in leaves && RestoredLeaf(l, r) && c == ChangeOf(l, r)
  {
    if leaves != [] {
      ChangesFromLeaves(leaves[1..], r, c);
      var head := if RestoredLeaf(leaves[0], r) then [ChangeOf(leaves[0], r)] else [];
      assert ChangesOf(leaves, r) == head + ChangesOf(leaves[1..], r);
      assert leaves == [leaves[0]] + leaves[1..];
    }
  }

  /** And no two come from the same leaf. */
  lemma {:induction false} ChangesOnce(leaves: seq<Leaf>, r: Rules, c: Change)
    requires Antichain(leaves)
    ensures multiset(ChangesOf(leaves, r))[c] <= 1
  {
    if leaves != [] {
      AntichainTail(leaves);
      ChangesOnce(leaves[1..], r, c);
      var rest := ChangesOf(leaves[1..], r);
      if RestoredLeaf(leaves[0], r) {
        assert ChangesOf(leaves, r) == [ChangeOf(leaves[0], r)] + rest;
        ChangesFromLeaves(leaves[1..], r, ChangeOf(leaves[0], r));
        FirstLeafApart(leaves);
        assert ChangeOf(leaves[0], r) !in rest;
      }
    }
  }

  lemma FirstLeafApart(leaves: seq<Leaf>)
    requires leaves != [] && Antichain(leaves)
    ensures forall l :: l in leaves[1..] ==> l.segments != leaves[0].segments
  {
  }

  lemma PlanMembers(v: JSON, leaves: seq<Leaf>, r: Rules, plan: RestorePlan)
    requires IsWalk(v, leaves) && PlanOf(leaves, r, plan)
    ensures forall c :: c in plan.changes <==> exists l :: IsLeaf(v, l) && RestoredLeaf(l, r) && c == ChangeOf(l, r)
    ensures forall c :: c in plan.changes ==> multiset(plan.changes)[c] <= 1
  {
    WalkIsAntichain(v, leaves);
    forall c
      ensures c in plan.changes <==> exists l :: IsLeaf(v, l) && RestoredLeaf(l, r) && c == ChangeOf(l, r)
      ensures multiset(plan.changes)[c] <= 1
    {
      ChangesFromLeaves(leaves, r, c);
      ChangesOnce(leaves, r, c);
      assert c in plan.changes <==> c in multiset(ChangesOf(leaves, r));
    }
  }

  /** A change never writes a populated map. */
  lemma ChangesTerminal(v: JSON, leaves: seq<Leaf>, r: Rules, plan: RestorePlan)
    requires IsWalk(v, leaves) && PlanOf(leaves, r, plan)
    ensures forall c :: c in plan.changes ==> IsTerminal(c.value)
  {
    PlanMembers(v, leaves, r, plan);
  }

  lemma ChangesIncomparable(v: JSON, r: Rules, c: Change, d: Change)
    requires exists l :: IsLeaf(v, l) && RestoredLeaf(l, r) && c == ChangeOf(l, r)
    requires exists l :: IsLeaf(v, l) && RestoredLeaf(l, r) && d == ChangeOf(l, r)
    requires c != d
    ensures !Comparable(c.segments, d.segments)
  {
    var a :| IsLeaf(v, a) && RestoredLeaf(a, r) && c == ChangeOf(a, r);
    var b :| IsLeaf(v, b) && RestoredLeaf(b, r) && d == ChangeOf(b, r);
    if a.segments <= b.segments {
      LeavesIncomparable(v, a, b);
    } else if b.segments <= a.segments {
      LeavesIncomparable(v, b, a);
    }
  }

  /** The changes of a plan, in whatever order the sort left them, are the restored leaves, and
      none of their paths is a prefix of another. */
  lemma PlanChanges(v: JSON, leaves: seq<Leaf>, r: Rules, plan: RestorePlan)
    requires IsWalk(v, leaves) && PlanOf(leaves, r, plan)
    ensures forall c :: c in plan.changes <==> exists l :: IsLeaf(v, l) && RestoredLeaf(l, r) && c == ChangeOf(l, r)
    ensures Antichain(Edits(plan.changes))
  {
    var changes := plan.changes;
    PlanMembers(v, leaves, r, plan);
    forall i | 0 <= i < |changes| ensures changes[i].segments != [] {
      assert changes[i] in changes;
    }
    forall i, j | 0 <= i < j < |changes| ensures !Comparable(changes[i].segments, changes[j].segments) {
      OnceEach(changes, i, j);
      assert changes[i] in changes && changes[j] in changes;
      ChangesIncomparable(v, r, changes[i], changes[j]);
    }
  }

  /** A path into a restored cluster that no change may reach. */
  ghost predicate Protected(t: Tables, q: Path) {
    || q in t.deniedPaths
    || IsDeniedMetadataLeaf(q, t)
  }

  /** A restored leaf is never above, at or below a protected path. */
  lemma RestoredLeafClear(content: Content, r: Rules, l: Leaf, q: Path)
    requires DenylistFits(r.tables) && IsLeaf(RestorableTree(content), l) && RestoredLeaf(l, r)
    requires Protected(r.tables, q)
    ensures !Comparable(l.segments, q)
  {
    LeafForms(content, l);
    if q in r.tables.deniedPaths {
      assert DeniedFits(q);
      if q <= l.segments {
        JoinPrefix(q, l.segments);
      }
    } else {
      assert l.segments <= q ==> l.segments == q;
    }
  }

  /** Denylist frame: whatever the snapshot holds and whatever the rules, a successful restore
      leaves the subtree at every denied path, and every denied label or annotation, as it was. */
  lemma DenylistFrame(
    content: Content, r: Rules, leaves: seq<Leaf>, plan: RestorePlan, target: JSON, q: Path)
    requires DenylistFits(r.tables) && target.Obj?
    requires IsWalk(RestorableTree(content), leaves) && PlanOf(leaves, r, plan)
    requires Merge(target, Edits(plan.changes)).Some? && Protected(r.tables, q)
    ensures At(Merge(target, Edits(plan.changes)).value, q) == At(target, q)
  {
    var v, edits := RestorableTree(content), Edits(plan.changes);
    PlanChanges(v, leaves, r, plan);
    forall e | e in edits ensures !Comparable(e.segments, q) {
      var i :| 0 <= i < |edits| && edits[i] == e;
      assert plan.changes[i] in plan.changes;
      var l :| IsLeaf(v, l) && RestoredLeaf(l, r) && plan.changes[i] == ChangeOf(l, r);
      RestoredLeafClear(content, r, l, q);
    }
    MergeEffect(target, edits, q);
  }

  /** The exact effect of a plan on any path of any target, and exactly when it is refused. */
  lemma ApplyEffect(v: JSON, leaves: seq<Leaf>, r: Rules, plan: RestorePlan, target: JSON, q: Path)
    requires target.Obj? && IsWalk(v, leaves) && PlanOf(leaves, r, plan)
    ensures Merge(target, Edits(plan.changes)).None? <==>
              exists c, n :: c in plan.changes && 0 < n < |c.segments| && Blocks(target, c.segments[..n])
    ensures Merge(target, Edits(plan.changes)).Some? ==>
              var w := Merge(target, Edits(plan.changes)).value;
              && (forall c :: c in plan.changes && c.segments <= q ==> At(w, q) == At(c.value, q[|c.segments|..]))
              && ((exists c :: c in plan.changes && q < c.segments) ==> ObjAt(w, q))
              && ((forall c :: c in plan.changes ==> !Comparable(c.segments, q)) ==> At(w, q) == At(target, q))
  {
    var edits := Edits(plan.changes);
    PlanChanges(v, leaves, r, plan);
    MergeFailsIff(target, edits);
    forall c | c in plan.changes ensures Leaf(c.segments, c.value) in edits {
      var i :| 0 <= i < |plan.changes| && plan.changes[i] == c;
      assert edits[i] == Leaf(c.segments, c.value);
    }
    forall e | e in edits ensures exists c :: c in plan.changes && e == Leaf(c.segments, c.value) {
      var i :| 0 <= i < |edits| && edits[i] == e;
      assert plan.changes[i] in plan.changes;
    }
    if Merge(target, edits).Some? {
      MergeEffect(target, edits, q);
    }
  }

  /** A change stands where the target holds a populated map. */
  ghost predicate Erases(target: JSON, c: Change) {
    ObjAt(target, c.segments) && At(target, c.segments).value != EMPTY
  }

  lemma ErasedIsLost(v: JSON, leaves: seq<Leaf>, r: Rules, plan: RestorePlan, target: JSON, c: Change) returns (q: Path)
    requires target.Obj? && IsWalk(v, leaves) && PlanOf(leaves, r, plan) && Merge(target, Edits(plan.changes)).Some?
    requires c in plan.changes && IsTerminal(c.value) && Erases(target, c)
    ensures At(target, q).Some? && At(Merge(target, Edits(plan.changes)).value, q).None?
  {
    var fields := At(target, c.segments).value.fields;
    var k :| k in fields;
    q := c.segments + [k];
    AtStep(target, c.segments, k);
    ApplyEffect(v, leaves, r, plan, target, q);
    assert q[|c.segments|..] == [k];
  }

  lemma KeptUnlessErased(v: JSON, leaves: seq<Leaf>, r: Rules, plan: RestorePlan, target: JSON, q: Path)
    requires target.Obj? && IsWalk(v, leaves) && PlanOf(leaves, r, plan) && Merge(target, Edits(plan.changes)).Some?
    requires forall c :: c in plan.changes ==> !Erases(target, c)
    requires At(target, q).Some?
    ensures At(Merge(target, Edits(plan.changes)).value, q).Some?
  {
    ApplyEffect(v, leaves, r, plan, target, q);
    if c :| c in plan.changes && c.segments <= q {
      var n := |c.segments|;
      if n < |q| {
        BeneathIsMember(target, q, n);
        assert q[..n] == c.segments;
      } else {
        assert q[n..] == [];
      }
    }
  }

  lemma BeneathIsMember(target: JSON, q: Path, n: nat)
    requires n < |q| && At(target, q).Some?
    ensures ObjAt(target, q[..n]) && q[n] in At(target, q[..n]).value.fields
  {
    AtPrefix(target, q, n);
    AtPrefix(target, q, n + 1);
    AtStep(target, q[..n], q[n]);
    assert q[..n + 1] == q[..n] + [q[n]];
  }

  /** A restore deletes nothing the target held if and only if no change stands where the target
      holds a populated map; whoever has the plan and the target can see that beforehand. */
  lemma NothingDeletedIff(v: JSON, leaves: seq<Leaf>, r: Rules, plan: RestorePlan, target: JSON)
    requires target.Obj? && IsWalk(v, leaves) && PlanOf(leaves, r, plan) && Merge(target, Edits(plan.changes)).Some?
    ensures (forall q :: At(target, q).Some? ==> At(Merge(target, Edits(plan.changes)).value, q).Some?)
            <==> (forall c :: c in plan.changes ==> !Erases(target, c))
  {
    ChangesTerminal(v, leaves, r, plan);
    if c :| c in plan.changes && Erases(target, c) {
      var q := ErasedIsLost(v, leaves, r, plan, target, c);
      assert At(target, q).Some?;
    } else {
      forall q | At(target, q).Some? ensures At(Merge(target, Edits(plan.changes)).value, q).Some? {
        KeptUnlessErased(v, leaves, r, plan, target, q);
      }
    }
  }

  /** A snapshot of one field without entries of its own has that one leaf. */
  lemma OnlyLeaf(f: string, x: JSON, l: Leaf)
    requires IsTerminal(x)
    ensures IsLeaf(RestorableTree(Content(map[f := x], map[], map[])), l) <==> l == Leaf(["spec", f], x)
  {
    var spec: map<string, JSON> := map[f := x];
    var content := Content(spec, map[], map[]);
    var v, p := RestorableTree(content), ["spec", f];
    RestorableTreeAt(content);
    AtConcat(v, ["spec"], [f]);
    assert ["spec"] + [f] == p && At(v, p) == At(Obj(spec), [f]) == Some(x);
    if IsLeaf(v, l) {
      LeafForms(content, l);
      assert p <= l.segments by {
        assert l.segments[..2] == p;
      }
      LeavesIncomparable(v, Leaf(p, x), l);
    }
  }

  /** The additive reading fails on every such input: where the snapshot holds a null, a scalar, a
      list or an empty map and the target a map with an entry, the entry is gone. */
  lemma TerminalErasesMap(f: string, x: JSON, k: string, y: JSON, held: map<string, JSON>)
    requires IsTerminal(x) && k in held && held[k] == y
    ensures var content, r := Content(map[f := x], map[], map[]), NoRules(Tables([], [], [], [], {}, {}));
            var leaf, target := Leaf(["spec", f], x), Obj(map["spec" := Obj(map[f := Obj(held)])]);
            var plan := RestorePlan([ChangeOf(leaf, r)], []);
            && IsWalk(RestorableTree(content), [leaf]) && PlanOf([leaf], r, plan)
            && Merge(target, Edits(plan.changes)).Some?
            && At(target, ["spec", f, k]) == Some(y)
            && At(Merge(target, Edits(plan.changes)).value, ["spec", f, k]) == None
  {
    var r, leaf := NoRules(Tables([], [], [], [], {}, {})), Leaf(["spec", f], x);
    var target, q := Obj(map["spec" := Obj(map[f := Obj(held)])]), ["spec", f, k];
    var plan := RestorePlan([ChangeOf(leaf, r)], []);
    forall l ensures l in [leaf] <==> IsLeaf(RestorableTree(Content(map[f := x], map[], map[])), l) {
      OnlyLeaf(f, x, l);
    }
    OneChange(leaf, r, plan);
    ThreeDeep(target, f, k, held);
    MergeOne(target, leaf);
    SetAtEffect(target, leaf.segments, x, q);
    assert leaf.segments <= q && q[2..] == [k];
  }

  lemma OneChange(leaf: Leaf, r: Rules, plan: RestorePlan)
    requires RestoredLeaf(leaf, r) && plan == RestorePlan([ChangeOf(leaf, r)], [])
    ensures PlanOf([leaf], r, plan)
  {
    var leaves := [leaf];
    assert leaves[1..] == [];
    assert ChangesOf(leaves[1..], r) == [] && ExclusionsOf(leaves[1..], r) == [];
    assert ChangesOf(leaves, r) == [ChangeOf(leaf, r)];
    assert ExclusionsOf(leaves, r) == [];
  }

  lemma ThreeDeep(target: JSON, f: string, k: string, held: map<string, JSON>)
    requires target == Obj(map["spec" := Obj(map[f := Obj(held)])]) && k in held
    ensures At(target, ["spec", f, k]) == Some(held[k]) && Settable(target, ["spec", f])
  {
    var spec, p, q := Obj(map[f := Obj(held)]), ["spec", f], ["spec", f, k];
    assert p[1..] == [f] && q[1..] == [f, k] && [f, k][1..] == [k];
    assert At(Obj(held), [k]) == Some(held[k]);
    assert At(spec, [f, k]) == At(Obj(held), [k]);
    assert At(target, q) == At(spec, q[1..]);
  }

  lemma MergeOne(target: JSON, leaf: Leaf)
    requires Settable(target, leaf.segments)
    ensures Merge(target, [leaf]) == Some(SetAt(target, leaf.segments, leaf.value))
  {
    assert [leaf][1..] == [];
  }

  /** Two plans of one snapshot, from leaves visited in any two orders and sorted any two ways,
      succeed together and build the same cluster; and applying one again changes nothing. */
  lemma RestoreOrderIndependent(
    v: JSON, r: Rules, leavesA: seq<Leaf>, planA: RestorePlan, leavesB: seq<Leaf>, planB: RestorePlan, target: JSON)
    requires target.Obj?
    requires IsWalk(v, leavesA) && PlanOf(leavesA, r, planA) && IsWalk(v, leavesB) && PlanOf(leavesB, r, planB)
    ensures Merge(target, Edits(planA.changes)) == Merge(target, Edits(planB.changes))
    ensures Merge(target, Edits(planA.changes)).Some? ==>
              Merge(Merge(target, Edits(planA.changes)).value, Edits(planB.changes))
              == Merge(target, Edits(planA.changes))
  {
    var a, b := Edits(planA.changes), Edits(planB.changes);
    PlanChanges(v, leavesA, r, planA);
    PlanChanges(v, leavesB, r, planB);
    forall e ensures e in a <==> e in b {
      EditsMembers(planA.changes, e);
      EditsMembers(planB.changes, e);
    }
    MergeOrderIndependent(target, a, b);
    if Merge(target, a).Some? {
      var w := Merge(target, a).value;
      MergeIdempotent(target, a);
      MergeOrderIndependent(w, a, b);
    }
  }

  lemma EditsMembers(changes: seq<Change>, e: Leaf)
    ensures e in Edits(changes) <==> exists c :: c in changes && e == Leaf(c.segments, c.value)
  {
    if c: Change :| c in changes && e == Leaf(c.segments, c.value) {
      var i :| 0 <= i < |changes| && changes[i] == c;
      assert Edits(changes)[i] == e;
    }
    if e in Edits(changes) {
      var i :| 0 <= i < |changes| && Edits(changes)[i] == e;
      assert changes[i] in changes;
    }
  }

  lemma RestoredAccounted(v: JSON, leaves: seq<Leaf>, r: Rules, plan: RestorePlan, l: Leaf)
    requires IsWalk(v, leaves) && PlanOf(leaves, r, plan) && Plannable(v, r) && IsLeaf(v, l) && RestoredLeaf(l, r)
    ensures ChangeOf(l, r) in plan.changes && RewrittenFrom(ChangeOf(l, r), l, r)
  {
    ChangesFromLeaves(leaves, r, ChangeOf(l, r));
    assert ChangeOf(l, r) in multiset(plan.changes);
    assert !FailedLeaf(l, r);
  }

  lemma ExcludedAccounted(leaves: seq<Leaf>, r: Rules, plan: RestorePlan, l: Leaf)
    requires PlanOf(leaves, r, plan) && l in leaves && !RestoredLeaf(l, r)
    ensures Exclusion(Join(l.segments), DeniedLeaf(l, r)) in plan.exclusions
  {
    ExclusionListed(leaves, r, l);
    assert Exclusion(Join(l.segments), DeniedLeaf(l, r)) in multiset(plan.exclusions);
  }

  /** Plan completeness, the leaves: a successful plan accounts for each of them. One that is
      not written is listed as left alone, and a change carries the captured value or, at a
      transform's path, what the program made of it. */
  lemma LeavesAccounted(v: JSON, leaves: seq<Leaf>, r: Rules, plan: RestorePlan)
    requires IsWalk(v, leaves) && PlanOf(leaves, r, plan) && Plannable(v, r)
    ensures |plan.changes| + |plan.exclusions| == |leaves|
    ensures forall l :: IsLeaf(v, l) && !RestoredLeaf(l, r) ==>
              Exclusion(Join(l.segments), DeniedLeaf(l, r)) in plan.exclusions
    ensures forall l :: IsLeaf(v, l) && RestoredLeaf(l, r) ==>
              ChangeOf(l, r) in plan.changes && RewrittenFrom(ChangeOf(l, r), l, r)
  {
    SizesAdd(leaves, r);
    assert |multiset(plan.changes)| == |multiset(ChangesOf(leaves, r))|;
    assert |multiset(plan.exclusions)| == |multiset(ExclusionsOf(leaves, r))|;
    forall l | IsLeaf(v, l) && !RestoredLeaf(l, r)
      ensures Exclusion(Join(l.segments), DeniedLeaf(l, r)) in plan.exclusions
    {
      ExcludedAccounted(leaves, r, plan, l);
    }
    forall l | IsLeaf(v, l) && RestoredLeaf(l, r)
      ensures ChangeOf(l, r) in plan.changes && RewrittenFrom(ChangeOf(l, r), l, r)
    {
      RestoredAccounted(v, leaves, r, plan, l);
    }
  }

  /** Plan completeness, the transforms: one that did not run met no leaf beneath its path, nor
      one at it that was skipped, has nothing there among the changes, and tolerates that. */
  lemma TransformsAccounted(v: JSON, leaves: seq<Leaf>, r: Rules, plan: RestorePlan, path: string, c: Change)
    requires IsWalk(v, leaves) && PlanOf(leaves, r, plan) && Plannable(v, r)
    requires path in r.transforms.byPath && !FiresAt(v, r, path)
    ensures r.transforms.byPath[path].ignoreMissing
    ensures !LeafBelow(v, path) && !SkippedAt(v, r, path)
    ensures c in plan.changes ==> !Covers(path, c.path)
  {
    assert Settles(v, r, path);
    if c in plan.changes {
      PlanMembers(v, leaves, r, plan);
      var l :| IsLeaf(v, l) && RestoredLeaf(l, r) && c == ChangeOf(l, r);
      assert !FailedLeaf(l, r);
    }
  }

  /** What a change writes: the captured value, or what its path's program made of it. */
  ghost predicate RewrittenFrom(c: Change, l: Leaf, r: Rules) {
    && c.segments == l.segments && c.path == Join(l.segments)
    && (c.transformed <==> c.path in r.transforms.byPath)
    && (if c.transformed then r.transforms.byPath[c.path].program(l.value, l.segments) == Some(c.value)
        else c.value == l.value)
  }

  lemma {:induction false} SizesAdd(leaves: seq<Leaf>, r: Rules)
    ensures |ChangesOf(leaves, r)| + |ExclusionsOf(leaves, r)| == |leaves|
  {
    if leaves != [] {
      SizesAdd(leaves[1..], r);
    }
  }

  lemma {:induction false} ExclusionListed(leaves: seq<Leaf>, r: Rules, l: Leaf)
    requires l in leaves && !RestoredLeaf(l, r)
    ensures Exclusion(Join(l.segments), DeniedLeaf(l, r)) in ExclusionsOf(leaves, r)
  {
    assert leaves == [leaves[0]] + leaves[1..];
    if l != leaves[0] {
      ExclusionListed(leaves[1..], r, l);
    }
  }

  datatype RuleError =
    | BadSkip(skipError: SkipError)
    | BadTransform(transformError: TransformError)
    | Incoherent(path: string)
                     | BadPath(path: string)

  /** No path is both skipped and transformed. */
  ghost predicate Coherent(skips: SkipSet, transforms: TransformSet) {
    forall path :: path in transforms.byPath ==> !Skips(skips, path)
  }

  predicate Usable(schema: Ty, t: Tables, path: string) {
    ValidateRulePath(schema, t, path).Usable?
  }

  /** The paths a person wrote, in skip rules and then in transforms; a skip rule may name a
      group instead. */
  function WrittenPaths(skips: seq<SkipRule>, transforms: seq<TransformRule>): seq<string> {
    if skips == [] then seq(|transforms|, i requires 0 <= i < |transforms| => transforms[i].path)
    else (if skips[0].path == "" then [] else [skips[0].path]) + WrittenPaths(skips[1..], transforms)
  }

  ghost predicate PathsUsable(schema: Ty, t: Tables, skips: seq<SkipRule>, transforms: seq<TransformRule>) {
    var paths := WrittenPaths(skips, transforms);
    forall i :: 0 <= i < |paths| ==> Usable(schema, t, paths[i])
  }

  method ValidateRuleCoherence(skips: SkipSet, transforms: TransformSet) returns (bad: Option<string>)
    requires transforms.Valid()
    ensures bad.None? <==> Coherent(skips, transforms)
    ensures bad.Some? ==> bad.value in transforms.byPath && Skips(skips, bad.value)
  {
    var i := 0;
    while i < |transforms.order|
      invariant 0 <= i <= |transforms.order|
      invariant forall j :: 0 <= j < i ==> !Skips(skips, transforms.order[j])
    {
      if Skips(skips, transforms.order[i]) {
        assert transforms.order[i] in transforms.order;
        return Some(transforms.order[i]);
      }
      i := i + 1;
    }
    bad := None;
  }

  /** The first of these paths that no snapshot could hold. */
  method FirstUnusable(schema: Ty, t: Tables, paths: seq<string>) returns (bad: Option<string>)
    ensures bad.None? <==> forall i :: 0 <= i < |paths| ==> Usable(schema, t, paths[i])
  {
    var i := 0;
    while i < |paths|
      invariant 0 <= i <= |paths|
      invariant forall j :: 0 <= j < i ==> Usable(schema, t, paths[j])
    {
      if !Usable(schema, t, paths[i]) {
        return Some(paths[i]);
      }
      i := i + 1;
    }
    bad := None;
  }

  /** Compiles a policy's rules, refusing everything that needs no snapshot to refuse. */
  method CompileRules(
    schema: Ty, t: Tables, skips: seq<SkipRule>, transforms: seq<TransformRule>, compile: Compiler)
    returns (r: Result<Rules, RuleError>)
    ensures r.Ok? ==> r.value.tables == t && r.value.transforms.Valid() && Coherent(r.value.skips, r.value.transforms)
    ensures r.Ok? ==> (forall c :: c in r.value.skips <==> FromRules(schema, t, skips, c))
                      && Holds(transforms, compile, r.value.transforms)
    ensures r.Ok? ==> Compiles(schema, t, skips) && Distinct(transforms) && Compilable(transforms, compile)
                      && PathsUsable(schema, t, skips, transforms)
    ensures r.Err? && r.error.Incoherent? ==>
              Targets(transforms, r.error.path) && exists c :: FromRules(schema, t, skips, c) && c.Matches(r.error.path)
    ensures r.Err? && !r.error.Incoherent? ==>
              !(Compiles(schema, t, skips) && Distinct(transforms) && Compilable(transforms, compile)
                && PathsUsable(schema, t, skips, transforms))
  {
    var skipSet := NewSkipSet(schema, t, skips);
    if skipSet.Err? {
      return Err(BadSkip(skipSet.error));
    }
    var transformSet := NewTransformSet(transforms, compile);
    if transformSet.Err? {
      return Err(BadTransform(transformSet.error));
    }
    var contradiction := ValidateRuleCoherence(skipSet.value, transformSet.value);
    if contradiction.Some? {
      return Err(Incoherent(contradiction.value));
    }
    var bad := FirstUnusable(schema, t, WrittenPaths(skips, transforms));
    if bad.Some? {
      return Err(BadPath(bad.value));
    }
    r := Ok(Rules(t, skipSet.value, transformSet.value));
  }

  /** Rules accepted by CompileRules never meet the contradiction BuildPlan still checks for: on
      no snapshot is a transform's path skipped, so a plan fails only over a transform's own
      result, or a path the snapshot lacks. */
  lemma CoherentNeverContradicts(v: JSON, r: Rules)
    requires Coherent(r.skips, r.transforms)
    ensures forall path :: path in r.transforms.byPath ==> !SkippedAt(v, r, path)
    ensures Plannable(v, r) <==>
            && (forall l :: IsLeaf(v, l) ==> !FailedLeaf(l, r))
            && (forall path :: path in r.transforms.byPath ==>
                  FiresAt(v, r, path) || (r.transforms.byPath[path].ignoreMissing && !LeafBelow(v, path)))
  {
    forall path | path in r.transforms.byPath ensures !SkippedAt(v, r, path) {
      assert !Skips(r.skips, path);
    }
    if forall path :: path in r.transforms.byPath ==>
         FiresAt(v, r, path) || (r.transforms.byPath[path].ignoreMissing && !LeafBelow(v, path)) {
      forall path | path in r.transforms.byPath ensures Settles(v, r, path) {
      }
    }
  }

  function NoRules(t: Tables): Rules {
    Rules(t, [], TransformSet(map[], []))
  }

  lemma CapturedLeafRestored(source: JSON, names: seq<string>, t: Tables, l: Leaf)
    requires WellFormed(t) && IsLeaf(RestorableTree(Extracted(source, names, t)), l)
    ensures RestoredLeaf(l, NoRules(t))
    ensures ChangeOf(l, NoRules(t)) == Change(Join(l.segments), l.segments, l.value, false)
  {
    var content := Extracted(source, names, t);
    CleanKeys(Captured(source, FieldsOf(names, t.groups)), t);
    assert FromGroups(t, content);
    CapturedLeafNotDenied(t, content, l);
    LeafForms(content, l);
  }

  /** Capture, restore, capture: restoring a capture onto an empty cluster without rules
      rebuilds exactly what was captured, and capturing that gives the same content again. */
  lemma CaptureRestoreCapture(source: JSON, names: seq<string>, t: Tables, leaves: seq<Leaf>, plan: RestorePlan)
    requires WellFormed(t)
    requires IsWalk(RestorableTree(Extracted(source, names, t)), leaves) && PlanOf(leaves, NoRules(t), plan)
    ensures Merge(EMPTY, Edits(plan.changes)) == Some(RestorableTree(Extracted(source, names, t)))
    ensures Extracted(Merge(EMPTY, Edits(plan.changes)).value, names, t) == Extracted(source, names, t)
  {
    var v, r := RestorableTree(Extracted(source, names, t)), NoRules(t);
    PlanChanges(v, leaves, r, plan);
    WalkIsAntichain(v, leaves);
    forall e ensures e in Edits(plan.changes) <==> e in leaves {
      EditsMembers(plan.changes, e);
      if e in leaves {
        CapturedLeafRestored(source, names, t, e);
        assert ChangeOf(e, r) in plan.changes;
      }
      if e in Edits(plan.changes) {
        var c :| c in plan.changes && e == Leaf(c.segments, c.value);
        var l :| IsLeaf(v, l) && RestoredLeaf(l, r) && c == ChangeOf(l, r);
        CapturedLeafRestored(source, names, t, l);
      }
    }
    MergeOrderIndependent(EMPTY, Edits(plan.changes), leaves);
    LeafRoundTrip(v, leaves);
    ExtractFixpoint(source, FieldsOf(names, t.groups), METADATA_GROUP in names, t);
  }
}
