/** Turning a snapshot and rules into edits, and applying them: internal/restore/plan.go. */
module Plan {
  import opened Wrappers
  import opened JsonTree
  import opened LeafMerge
  import opened Text
  import opened Order
  import opened Denylist
  import opened Skip
  import opened Transforms
  import Docs = Documents

  datatype Change = Change(path: string, segments: Path, value: JSON, transformed: bool)

  datatype Exclusion = Exclusion(path: string, denied: bool)

  datatype RestorePlan = RestorePlan(changes: seq<Change>, exclusions: seq<Exclusion>)

  datatype PlanError = TransformFailed(path: string) | Unfired(paths: seq<string>)

  /** The rules of one restore: the build's tables, the skip set and the transforms. */
  datatype Rules = Rules(tables: Tables, skips: SkipSet, transforms: TransformSet)

  /** A label or annotation whose key the capture filter refuses; the key is a whole segment. */
  predicate IsDeniedMetadataLeaf(segments: Path, t: Tables) {
    && |segments| == 3 && segments[0] == "metadata"
    && (segments[1] == "labels" || segments[1] == "annotations")
    && IsDeniedMetadataKey(segments[2], t)
  }

  predicate DeniedLeaf(l: Leaf, r: Rules) {
    IsDeniedPath(Join(l.segments), r.tables.deniedPaths) || IsDeniedMetadataLeaf(l.segments, r.tables)
  }

  predicate SkippedLeaf(l: Leaf, r: Rules) {
    !DeniedLeaf(l, r) && Skips(r.skips, Join(l.segments))
  }

  predicate RestoredLeaf(l: Leaf, r: Rules) {
    !DeniedLeaf(l, r) && !Skips(r.skips, Join(l.segments))
  }

  predicate FiredLeaf(l: Leaf, r: Rules) {
    RestoredLeaf(l, r) && Apply(r.transforms, l).Produces?
  }

  predicate FailedLeaf(l: Leaf, r: Rules) {
    RestoredLeaf(l, r) && Apply(r.transforms, l).Fails?
  }

  function ChangeOf(l: Leaf, r: Rules): Change {
    match Apply(r.transforms, l)
    case Produces(v) => Change(Join(l.segments), l.segments, v, true)
    case _ => Change(Join(l.segments), l.segments, l.value, false)
  }

  function ChangesOf(leaves: seq<Leaf>, r: Rules): seq<Change> {
    if leaves == [] then []
    else (if RestoredLeaf(leaves[0], r) then [ChangeOf(leaves[0], r)] else []) + ChangesOf(leaves[1..], r)
  }

  function ExclusionsOf(leaves: seq<Leaf>, r: Rules): seq<Exclusion> {
    if leaves == [] then []
    else (if RestoredLeaf(leaves[0], r) then [] else [Exclusion(Join(leaves[0].segments), DeniedLeaf(leaves[0], r))])
         + ExclusionsOf(leaves[1..], r)
  }

  lemma {:induction false} ChangesOfConcat(a: seq<Leaf>, b: seq<Leaf>, r: Rules)
    ensures ChangesOf(a + b, r) == ChangesOf(a, r) + ChangesOf(b, r)
  {
    if a == [] {
      assert a + b == b;
    } else {
      assert (a + b)[1..] == a[1..] + b;
      ChangesOfConcat(a[1..], b, r);
    }
  }

  lemma {:induction false} ExclusionsOfConcat(a: seq<Leaf>, b: seq<Leaf>, r: Rules)
    ensures ExclusionsOf(a + b, r) == ExclusionsOf(a, r) + ExclusionsOf(b, r)
  {
    if a == [] {
      assert a + b == b;
    } else {
      assert (a + b)[1..] == a[1..] + b;
      ExclusionsOfConcat(a[1..], b, r);
    }
  }

  function ByPath<T(!new)>(path: T -> string): (T, T) -> bool {
    (a, b) => Less(path(a), path(b))
  }

  lemma ByPathIsWeakOrder<T(!new)>(path: T -> string)
    ensures WeakOrder(ByPath(path))
  {
    LessIsWeakOrder();
    var less := (a: string, b: string) => Less(a, b);
    forall a: T, b: T | Less(path(a), path(b)) ensures !Less(path(b), path(a)) {
      assert less(path(a), path(b));
    }
    forall a: T, b: T, c: T | !Less(path(a), path(b)) && !Less(path(b), path(c)) ensures !Less(path(a), path(c)) {
      assert !less(path(a), path(b)) && !less(path(b), path(c));
    }
  }

  /** The plan made from the leaves: the restored ones as changes, the others as exclusions,
      each list in path order and in any order among equal paths. */
  ghost predicate PlanOf(leaves: seq<Leaf>, r: Rules, plan: RestorePlan) {
    && multiset(plan.changes) == multiset(ChangesOf(leaves, r))
    && multiset(plan.exclusions) == multiset(ExclusionsOf(leaves, r))
    && SortedBy(ByPath((c: Change) => c.path), plan.changes)
    && SortedBy(ByPath((e: Exclusion) => e.path), plan.exclusions)
  }

  ghost predicate FiresAt(v: JSON, r: Rules, path: string) {
    exists l :: IsLeaf(v, l) && Join(l.segments) == path && FiredLeaf(l, r)
  }

  ghost predicate SkippedAt(v: JSON, r: Rules, path: string) {
    exists l :: IsLeaf(v, l) && Join(l.segments) == path && SkippedLeaf(l, r)
  }

  ghost predicate LeafBelow(v: JSON, path: string) {
    exists l :: IsLeaf(v, l) && path + "." <= Join(l.segments)
  }

  /** A transform is accounted for: some leaf was rewritten by it, or its path was not skipped,
      has nothing beneath it, and the rule tolerates its absence. */
  ghost predicate Settles(v: JSON, r: Rules, path: string)
    requires path in r.transforms.byPath
  {
    || FiresAt(v, r, path)
    || (!SkippedAt(v, r, path) && !LeafBelow(v, path) && r.transforms.byPath[path].ignoreMissing)
  }

  /** BuildPlan succeeds: every transform that runs yields a value, and every transform is
      accounted for. Nothing here depends on the order the leaves are visited in. */
  ghost predicate Plannable(v: JSON, r: Rules) {
    && (forall l :: IsLeaf(v, l) ==> !FailedLeaf(l, r))
    && (forall path :: path in r.transforms.byPath ==> Settles(v, r, path))
  }

  function Paths(leaves: seq<Leaf>): (paths: seq<string>)
    ensures |paths| == |leaves|
    ensures forall i :: 0 <= i < |leaves| ==> paths[i] == Join(leaves[i].segments)
  {
    seq(|leaves|, i requires 0 <= i < |leaves| => Join(leaves[i].segments))
  }

  ghost function Fired(leaves: seq<Leaf>, r: Rules): set<string> {
    set l | l in leaves && FiredLeaf(l, r) :: Join(l.segments)
  }

  ghost function SkippedPaths(leaves: seq<Leaf>, r: Rules): set<string> {
    set l | l in leaves && SkippedLeaf(l, r) :: Join(l.segments)
  }

  lemma BelowIff(v: JSON, leaves: seq<Leaf>, path: string)
    requires IsWalk(v, leaves)
    ensures HasBeneath(Paths(leaves), path) <==> LeafBelow(v, path)
  {
    var paths := Paths(leaves);
    if HasBeneath(paths, path) {
      var i :| 0 <= i < |leaves| && path + "." <= paths[i];
      assert leaves[i] in leaves;
    }
    if LeafBelow(v, path) {
      var l :| IsLeaf(v, l) && path + "." <= Join(l.segments);
      assert l in leaves;
      var i :| 0 <= i < |leaves| && leaves[i] == l;
      assert paths[i] in paths;
    }
  }

  lemma SettlesIff(v: JSON, leaves: seq<Leaf>, r: Rules, path: string)
    requires IsWalk(v, leaves) && path in r.transforms.byPath
    ensures Settled(r.transforms, Fired(leaves, r), SkippedPaths(leaves, r), Paths(leaves), path)
            <==> Settles(v, r, path)
  {
    BelowIff(v, leaves, path);
    assert path in Fired(leaves, r) <==> FiresAt(v, r, path);
    assert path in SkippedPaths(leaves, r) <==> SkippedAt(v, r, path);
  }

  /** What the loop of BuildPlan has accumulated. */
  datatype Progress = Progress(
    changes: seq<Change>, exclusions: seq<Exclusion>, fired: set<string>, skippedPaths: set<string>, paths: seq<string>)

  ghost function Visited(leaves: seq<Leaf>, r: Rules): Progress {
    Progress(ChangesOf(leaves, r), ExclusionsOf(leaves, r), Fired(leaves, r), SkippedPaths(leaves, r), Paths(leaves))
  }

  lemma PathSetsStep(leaves: seq<Leaf>, l: Leaf, r: Rules)
    ensures Fired(leaves + [l], r) == Fired(leaves, r) + if FiredLeaf(l, r) then {Join(l.segments)} else {}
    ensures SkippedPaths(leaves + [l], r) ==
            SkippedPaths(leaves, r) + if SkippedLeaf(l, r) then {Join(l.segments)} else {}
  {
    assert forall k :: k in leaves + [l] <==> k in leaves || k == l;
  }

  /** One more leaf, sorted into the plan. */
  lemma VisitedStep(leaves: seq<Leaf>, l: Leaf, r: Rules)
    ensures var p, q, path := Visited(leaves, r), Visited(leaves + [l], r), Join(l.segments);
            && q.paths == p.paths + [path]
            && q.changes == (if RestoredLeaf(l, r) then p.changes + [ChangeOf(l, r)] else p.changes)
            && q.exclusions == (if RestoredLeaf(l, r) then p.exclusions
                                else p.exclusions + [Exclusion(path, DeniedLeaf(l, r))])
            && q.fired == (if FiredLeaf(l, r) then p.fired + {path} else p.fired)
            && q.skippedPaths == (if SkippedLeaf(l, r) then p.skippedPaths + {path} else p.skippedPaths)
  {
    ChangesOfConcat(leaves, [l], r);
    ExclusionsOfConcat(leaves, [l], r);
    PathSetsStep(leaves, l, r);
    assert Paths(leaves + [l]) == Paths(leaves) + [Join(l.segments)];
  }

  /** One iteration of the loop; None when the leaf's transform fails. */
  method Visit(p: Progress, leaf: Leaf, r: Rules, ghost before: seq<Leaf>) returns (q: Option<Progress>)
    requires p == Visited(before, r)
    ensures q.None? <==> FailedLeaf(leaf, r)
    ensures q.Some? ==> q.value == Visited(before + [leaf], r)
  {
    VisitedStep(before, leaf, r);
    var path := Join(leaf.segments);
    var next := p.(paths := p.paths + [path]);
    if IsDeniedPath(path, r.tables.deniedPaths) || IsDeniedMetadataLeaf(leaf.segments, r.tables) {
      return Some(next.(exclusions := p.exclusions + [Exclusion(path, true)]));
    }
    if Skips(r.skips, path) {
      return Some(next.(
        exclusions := p.exclusions + [Exclusion(path, false)],
        skippedPaths := p.skippedPaths + {path}));
    }
    var value, applied := leaf.value, Apply(r.transforms, leaf);
    if applied.Fails? {
      return None;
    }
    if applied.Produces? {
      next := next.(fired := p.fired + {path});
      value := applied.value;
    }
    q := Some(next.(changes := p.changes + [Change(path, leaf.segments, value, applied.Produces?)]));
  }

  /** The error says what is wrong: a leaf whose program gives no value, or just the transforms that
      are not accounted for. */
  ghost predicate Blames(v: JSON, r: Rules, e: PlanError) {
    match e
    case TransformFailed(path) => exists l :: IsLeaf(v, l) && Join(l.segments) == path && FailedLeaf(l, r)
    case Unfired(paths) => forall path :: path in paths <==> path in r.transforms.byPath && !Settles(v, r, path)
  }

  method Finish(p: Progress, r: Rules, ghost v: JSON, ghost leaves: seq<Leaf>)
    returns (plan: Result<RestorePlan, PlanError>)
    requires IsWalk(v, leaves) && p == Visited(leaves, r) && r.transforms.Valid()
    ensures plan.Ok? <==> forall path :: path in r.transforms.byPath ==> Settles(v, r, path)
    ensures plan.Ok? ==> PlanOf(leaves, r, plan.value)
    ensures plan.Err? ==> Blames(v, r, plan.error)
  {
    var problems := CheckAllFired(r.transforms, p.fired, p.skippedPaths, p.paths);
    forall path | path in r.transforms.byPath ensures path in problems <==> !Settles(v, r, path) {
      SettlesIff(v, leaves, r, path);
    }
    if problems != [] {
      assert problems[0] in problems;
      return Err(Unfired(problems));
    }
    var byChange, byExclusion := ByPath((c: Change) => c.path), ByPath((e: Exclusion) => e.path);
    ByPathIsWeakOrder((c: Change) => c.path);
    ByPathIsWeakOrder((e: Exclusion) => e.path);
    var changes := SortSlice(p.changes, byChange);
    var exclusions := SortSlice(p.exclusions, byExclusion);
    plan := Ok(RestorePlan(changes, exclusions));
  }

  /** Resolves a snapshot's tree and the rules into edits. It succeeds exactly when the rules
      suit the tree, whatever order the leaves come in. */
  method BuildPlan(restorable: Docs.Document, r: Rules) returns (plan: Result<RestorePlan, PlanError>)
    requires restorable.Valid() && r.transforms.Valid()
    ensures plan.Ok? <==> Plannable(restorable.view.tree, r)
    ensures plan.Ok? ==> exists leaves :: IsWalk(restorable.view.tree, leaves) && PlanOf(leaves, r, plan.value)
    ensures plan.Err? ==> Blames(restorable.view.tree, r, plan.error)
  {
    var leaves := restorable.WalkLeaves();
    var progress := Progress([], [], {}, {}, []);
    var i := 0;
    while i < |leaves|
      invariant 0 <= i <= |leaves|
      invariant forall j :: 0 <= j < i ==> !FailedLeaf(leaves[j], r)
      invariant progress == Visited(leaves[..i], r)
    {
      var next := Visit(progress, leaves[i], r, leaves[..i]);
      if next.None? {
        assert leaves[i] in leaves;
        return Err(TransformFailed(Join(leaves[i].segments)));
      }
      assert leaves[..i + 1] == leaves[..i] + [leaves[i]];
      progress, i := next.value, i + 1;
    }
    assert leaves[..i] == leaves;
    plan := Finish(progress, r, restorable.view.tree, leaves);
  }
}
