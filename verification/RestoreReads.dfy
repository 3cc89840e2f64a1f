/** What a restored cluster reads, leaf by leaf and rule by rule. */
module RestoreReads {
  import opened Wrappers
  import opened JsonTree
  import opened LeafMerge
  import opened Text
  import opened Denylist
  import opened Snapshot
  import opened Schema
  import opened PathCheck
  import opened Skip
  import opened Transforms
  import opened Plan
  import opened Restore

  /** The denylist refuses the path, or the capture filter the label or annotation. */
  predicate NeverRestored(l: Leaf, t: Tables) {
    || IsDeniedPath(Join(l.segments), t.deniedPaths)
    || (|l.segments| == 3
        && (l.segments[..2] == ["metadata", "labels"] || l.segments[..2] == ["metadata", "annotations"])
        && IsDeniedMetadataKey(l.segments[2], t))
  }

  /** The restore leaves the leaf's path alone. */
  predicate LeftAlone(l: Leaf, r: Rules) {
    NeverRestored(l, r.tables) || Skips(r.skips, Join(l.segments))
  }

  lemma NeverRestoredIff(l: Leaf, r: Rules)
    ensures RestoredLeaf(l, r) <==> !LeftAlone(l, r)
    ensures DeniedLeaf(l, r) <==> NeverRestored(l, r.tables)
  {
    if |l.segments| == 3 {
      assert l.segments[..2] == [l.segments[0], l.segments[1]];
    }
  }

  /** Nothing at, above or below a leaf that is refused or skipped is among the changes. */
  lemma LeftAloneClear(v: JSON, leaves: seq<Leaf>, r: Rules, plan: RestorePlan, l: Leaf, c: Change)
    requires IsWalk(v, leaves) && PlanOf(leaves, r, plan) && IsLeaf(v, l)
    requires LeftAlone(l, r)
    requires c in plan.changes
    ensures !Comparable(c.segments, l.segments)
  {
    PlanChanges(v, leaves, r, plan);
    NeverRestoredIff(l, r);
    var k :| IsLeaf(v, k) && RestoredLeaf(k, r) && c == ChangeOf(k, r);
    if k.segments <= l.segments {
      LeavesIncomparable(v, k, l);
    } else if l.segments <= k.segments {
      LeavesIncomparable(v, l, k);
    }
  }

  /** Skip frame: where the snapshot holds a value that a rule skips, or that is never restored, the
      target keeps what it had, and all beneath it. */
  lemma SkipFrame(v: JSON, leaves: seq<Leaf>, r: Rules, plan: RestorePlan, target: JSON, l: Leaf, q: Path)
    requires target.Obj? && IsWalk(v, leaves) && PlanOf(leaves, r, plan) && Merge(target, Edits(plan.changes)).Some?
    requires IsLeaf(v, l) && LeftAlone(l, r) && l.segments <= q
    ensures At(Merge(target, Edits(plan.changes)).value, q) == At(target, q)
  {
    forall c | c in plan.changes ensures !Comparable(c.segments, q) {
      LeftAloneClear(v, leaves, r, plan, l, c);
    }
    ApplyEffect(v, leaves, r, plan, target, q);
  }

  /** What a leaf is to read once restored: its own value, or what the program of its path made
      of it. */
  ghost predicate ReadsAs(r: Rules, l: Leaf, x: JSON) {
    if Join(l.segments) in r.transforms.byPath
    then r.transforms.byPath[Join(l.segments)].program(l.value, l.segments) == Some(x)
    else x == l.value
  }

  /** And every other leaf is restored: after a plan that could be made it reads the snapshot's
      value, or what its transform made of that. */
  lemma RestoredReads(v: JSON, leaves: seq<Leaf>, r: Rules, plan: RestorePlan, target: JSON, l: Leaf)
    requires target.Obj? && IsWalk(v, leaves) && PlanOf(leaves, r, plan) && Merge(target, Edits(plan.changes)).Some?
    requires Plannable(v, r) && IsLeaf(v, l) && !LeftAlone(l, r)
    ensures var at := At(Merge(target, Edits(plan.changes)).value, l.segments); at.Some? && ReadsAs(r, l, at.value)
  {
    NeverRestoredIff(l, r);
    PlanChanges(v, leaves, r, plan);
    var c := ChangeOf(l, r);
    assert c in plan.changes && !FailedLeaf(l, r);
    ApplyEffect(v, leaves, r, plan, target, l.segments);
    assert l.segments[|c.segments|..] == [];
  }

  /** What no leaf of the snapshot stands at, above or below reads as before. */
  lemma UnnamedReads(v: JSON, leaves: seq<Leaf>, r: Rules, plan: RestorePlan, target: JSON, q: Path)
    requires target.Obj? && IsWalk(v, leaves) && PlanOf(leaves, r, plan) && Merge(target, Edits(plan.changes)).Some?
    requires forall l :: IsLeaf(v, l) ==> !Comparable(l.segments, q)
    ensures At(Merge(target, Edits(plan.changes)).value, q) == At(target, q)
  {
    PlanChanges(v, leaves, r, plan);
    forall c | c in plan.changes ensures !Comparable(c.segments, q) {
      var l :| IsLeaf(v, l) && RestoredLeaf(l, r) && c == ChangeOf(l, r);
    }
    ApplyEffect(v, leaves, r, plan, target, q);
  }

  /** What a plan lists: a change for every leaf neither refused nor skipped, an exclusion for every
      other one, and nothing else. */
  lemma PlanLists(v: JSON, leaves: seq<Leaf>, r: Rules, plan: RestorePlan, path: string)
    requires IsWalk(v, leaves) && PlanOf(leaves, r, plan)
    ensures (exists c :: c in plan.changes && c.path == path) <==>
            (exists l :: IsLeaf(v, l) && Join(l.segments) == path && !LeftAlone(l, r))
    ensures Exclusion(path, true) in plan.exclusions <==>
            (exists l :: IsLeaf(v, l) && Join(l.segments) == path && NeverRestored(l, r.tables))
    ensures Exclusion(path, false) in plan.exclusions <==>
            (exists l ::
               IsLeaf(v, l) && Join(l.segments) == path && !NeverRestored(l, r.tables) && Skips(r.skips, path))
  {
    PlanChanges(v, leaves, r, plan);
    if c :| c in plan.changes && c.path == path {
      var l :| IsLeaf(v, l) && RestoredLeaf(l, r) && c == ChangeOf(l, r);
      NeverRestoredIff(l, r);
    }
    if l :| IsLeaf(v, l) && Join(l.segments) == path && !LeftAlone(l, r) {
      NeverRestoredIff(l, r);
      assert ChangeOf(l, r) in plan.changes;
    }
    ExclusionsListed(v, leaves, r, plan, path, true);
    ExclusionsListed(v, leaves, r, plan, path, false);
  }

  lemma {:induction false} ExclusionsFromLeaves(leaves: seq<Leaf>, r: Rules, x: Exclusion)
    ensures x in ExclusionsOf(leaves, r) <==>
            exists l :: l in leaves && !RestoredLeaf(l, r) && x == Exclusion(Join(l.segments), DeniedLeaf(l, r))
  {
    if leaves != [] {
      ExclusionsFromLeaves(leaves[1..], r, x);
      assert leaves == [leaves[0]] + leaves[1..];
    }
  }

  lemma ExclusionsListed(v: JSON, leaves: seq<Leaf>, r: Rules, plan: RestorePlan, path: string, denied: bool)
    requires IsWalk(v, leaves) && PlanOf(leaves, r, plan)
    ensures Exclusion(path, denied) in plan.exclusions <==>
            exists l :: IsLeaf(v, l) && Join(l.segments) == path && (NeverRestored(l, r.tables) <==> denied)
                        && (denied || Skips(r.skips, path))
  {
    var x := Exclusion(path, denied);
    assert x in plan.exclusions <==> x in multiset(ExclusionsOf(leaves, r));
    ExclusionsFromLeaves(leaves, r, x);
    forall l ensures RestoredLeaf(l, r) <==> !LeftAlone(l, r)
      ensures DeniedLeaf(l, r) <==> NeverRestored(l, r.tables)
    {
      NeverRestoredIff(l, r);
    }
  }

  /** Rules compiled from what a person wrote. */
  ghost predicate CompiledFrom(
    schema: Ty, r: Rules, skips: seq<SkipRule>, transforms: seq<TransformRule>, compile: Compiler)
  {
    && Compiles(schema, r.tables, skips) && (forall c :: c in r.skips <==> FromRules(schema, r.tables, skips, c))
    && Distinct(transforms) && Holds(transforms, compile, r.transforms)
  }

  /** Restoring by the rules as written: for every leaf a capture of this schema can hold, the target
      keeps what it had if the leaf is never restored or some rule removes it, by whole segments;
      otherwise it reads what the transform written for its path makes of the captured value, or
      the captured value itself. */
  lemma RestoreByRules(
    schema: Ty, content: Content, leaves: seq<Leaf>, r: Rules, plan: RestorePlan, target: JSON, l: Leaf,
    skips: seq<SkipRule>, transforms: seq<TransformRule>, compile: Compiler)
    requires CompiledFrom(schema, r, skips, transforms, compile)
    requires WellFormed(r.tables) && ContentConforms(schema, r.tables, content)
    requires FlatMaps(schema) && Transparent(schema)
    requires target.Obj? && IsWalk(RestorableTree(content), leaves) && PlanOf(leaves, r, plan)
    requires Plannable(RestorableTree(content), r) && Merge(target, Edits(plan.changes)).Some?
    requires IsLeaf(RestorableTree(content), l)
    ensures var at := At(Merge(target, Edits(plan.changes)).value, l.segments);
            if NeverRestored(l, r.tables) || exists rule :: rule in skips && Removes(schema, r.tables, rule, l.segments)
            then at == At(target, l.segments)
            else
              && (forall i :: 0 <= i < |transforms| && transforms[i].path == Join(l.segments) ==>
                    && compile(transforms[i].expression).Some? && at.Some?
                    && compile(transforms[i].expression).value(l.value, l.segments) == Some(at.value))
              && ((forall i :: 0 <= i < |transforms| ==> transforms[i].path != Join(l.segments)) ==>
                    at == Some(l.value))
  {
    var v := RestorableTree(content);
    SkipMeansSegments(schema, r.tables, content, l, skips, r.skips);
    if LeftAlone(l, r) {
      SkipFrame(v, leaves, r, plan, target, l, l.segments);
    } else {
      RestoredReads(v, leaves, r, plan, target, l);
      TransformAt(transforms, compile, r.transforms, Join(l.segments));
    }
  }

  lemma TransformAt(transforms: seq<TransformRule>, compile: Compiler, compiled: TransformSet, path: string)
    requires Holds(transforms, compile, compiled)
    ensures path in compiled.byPath <==> exists i :: 0 <= i < |transforms| && transforms[i].path == path
    ensures forall i :: 0 <= i < |transforms| && transforms[i].path == path ==>
              path in compiled.byPath && compile(transforms[i].expression) == Some(compiled.byPath[path].program)
  {
    assert path in compiled.byPath <==> Targets(transforms, path);
  }
}
