/** The static check of rule paths: internal/snapshot/pathcheck.go. */
module PathCheck {
  import opened Wrappers
  import opened JsonTree
  import opened Text
  import opened Groups
  import opened Denylist
  import opened Schema
  import opened Snapshot
  import opened LeafMerge

  /** The walk of resolveInClusterSpec: it stops at the first map, which admits any key. */
  predicate ResolveFrom(t: Ty, segments: Path)
    decreases |segments|
  {
    segments == [] ||
    match ElemType(t)
    case MapOf(_) => true
    case Struct(_, _, _) =>
      FieldByJSONName(ElemType(t), segments[0]).Some? &&
      ResolveFrom(FieldByJSONName(ElemType(t), segments[0]).value, segments[1..])
    case _ => false
  }

  predicate ResolvesInClusterSpec(schema: Ty, path: string) {
    path == "spec" ||
    (CutPrefix(path, "spec.").Some? && ResolveFrom(schema, Split(CutPrefix(path, "spec.").value)))
  }

  method ResolveInClusterSpec(schema: Ty, path: string) returns (ok: bool)
    ensures ok == ResolvesInClusterSpec(schema, path)
  {
    if path == "spec" {
      return true;
    }
    var rest := CutPrefix(path, "spec.");
    if rest.None? {
      return false;
    }
    var segments, current := Split(rest.value), schema;
    var i := 0;
    while i < |segments|
      invariant 0 <= i <= |segments|
      invariant ResolveFrom(schema, segments) == ResolveFrom(current, segments[i..])
    {
      current := ElemType(current);
      assert segments[i..][0] == segments[i] && segments[i..][1..] == segments[i + 1..];
      if current.MapOf? {
        return true;
      }
      if !current.Struct? {
        return false;
      }
      var next := FieldByJSONName(current, segments[i]);
      if next.None? {
        return false;
      }
      current := next.value;
      i := i + 1;
    }
    ok := true;
  }

  /** The walk of NamesMap: through structs only, ending at a map. */
  predicate NamesMapFrom(t: Ty, segments: Path)
    decreases |segments|
  {
    if segments == [] then ThroughPointers(t).MapOf?
    else
      && ElemType(t).Struct?
      && FieldByJSONName(ElemType(t), segments[0]).Some?
      && NamesMapFrom(FieldByJSONName(ElemType(t), segments[0]).value, segments[1..])
  }

  predicate NamesMap(schema: Ty, path: string) {
    || path == "metadata.labels"
    || path == "metadata.annotations"
    || (CutPrefix(path, "spec.").Some? && NamesMapFrom(schema, Split(CutPrefix(path, "spec.").value)))
  }

  method FindNamesMap(schema: Ty, path: string) returns (ok: bool)
    ensures ok == NamesMap(schema, path)
  {
    if path == "metadata.labels" || path == "metadata.annotations" {
      return true;
    }
    var rest := CutPrefix(path, "spec.");
    if rest.None? {
      return false;
    }
    var segments, current := Split(rest.value), schema;
    var i := 0;
    while i < |segments|
      invariant 0 <= i <= |segments|
      invariant NamesMapFrom(schema, segments) == NamesMapFrom(current, segments[i..])
    {
      assert segments[i..][0] == segments[i] && segments[i..][1..] == segments[i + 1..];
      current := ElemType(current);
      if !current.Struct? {
        return false;
      }
      var next := FieldByJSONName(current, segments[i]);
      if next.None? {
        return false;
      }
      current := next.value;
      i := i + 1;
    }
    while current.Pointer?
      invariant ThroughPointers(current).MapOf? == NamesMapFrom(schema, segments)
      decreases current
    {
      current := current.elem;
    }
    ok := current.MapOf?;
  }

  /** The map a path names or reaches into: the shortest cut that names a map. */
  function EnclosingFrom(schema: Ty, path: string, i: nat): (m: Option<string>)
    requires i <= |path|
    ensures m.Some? ==> NamesMap(schema, m.value) && Covers(m.value, path) && i <= |m.value|
    ensures m.Some? ==> forall j :: i <= j < |m.value| && path[j] == '.' ==> !NamesMap(schema, path[..j])
    ensures m.None? ==> !NamesMap(schema, path)
    ensures m.None? ==> forall j :: i <= j < |path| && path[j] == '.' ==> !NamesMap(schema, path[..j])
    decreases |path| - i
  {
    if i == |path| then (if NamesMap(schema, path) then Some(path) else None)
    else if path[i] == '.' && NamesMap(schema, path[..i]) then
      assert path[..i] + "." == path[..i + 1];
      Some(path[..i])
    else EnclosingFrom(schema, path, i + 1)
  }

  function EnclosingMap(schema: Ty, path: string): (m: Option<string>)
    ensures m.Some? ==> NamesMap(schema, m.value) && Covers(m.value, path)
    ensures m.Some? ==> forall j :: 0 <= j < |m.value| && path[j] == '.' ==> !NamesMap(schema, path[..j])
    ensures m.None? ==> !NamesMap(schema, path)
    ensures m.None? ==> forall j :: 0 <= j < |path| && path[j] == '.' ==> !NamesMap(schema, path[..j])
  {
    EnclosingFrom(schema, path, 0)
  }

  /** Some capture group claims the path, something above it or something below it. */
  predicate WithinCaptureGroups(table: seq<Group>, path: string) {
    exists g | g in table :: exists f | f in g.fields ::
      Covers(Join(["spec", f]), path) || Covers(path, Join(["spec", f]))
  }

  datatype Verdict = Usable | EmptyPath | Denied | OtherMetadata | Uncaptured | Unresolved

  function ValidateRulePath(schema: Ty, t: Tables, written: string): Verdict {
    var path := TrimStar(written);
    if path == "" then EmptyPath
    else if IsDeniedPath(path, t.deniedPaths) then Denied
    else if path == "metadata" || Covers("metadata.labels", path) || Covers("metadata.annotations", path) then Usable
    else if "metadata." <= path then OtherMetadata
    else if !WithinCaptureGroups(t.groups, path) then Uncaptured
    else if !ResolvesInClusterSpec(schema, path) then Unresolved
    else Usable
  }

  /** The spec of a snapshot holds fields some capture group names, and nothing else. */
  ghost predicate FromGroups(t: Tables, content: Content) {
    forall k :: k in content.spec ==> exists g :: g in t.groups && k in g.fields
  }

  /** A snapshot some cluster of this schema can have been captured as. */
  ghost predicate ContentConforms(schema: Ty, t: Tables, content: Content) {
    && schema.Struct? && !schema.custom && DotFreeNames(schema)
    && Conforms(Obj(content.spec), schema)
    && FromGroups(t, content)
  }

  /** How the segments of a leaf divide: struct field names, none of which ends at a map
      before the last, and then perhaps one whole map key. */
  ghost predicate Anatomy(t: Ty, segments: Path, n: nat) {
    && n <= |segments| <= n + 1
    && AllDotFree(segments[..n])
    && (n < |segments| ==> NamesMapFrom(t, segments[..n]))
    && (forall j :: 0 <= j < n ==> !NamesMapFrom(t, segments[..j]))
  }

  lemma AnatomyStep(t: Ty, u: Ty, k: string, rest: Path, m: nat)
    requires ElemType(t).Struct? && FieldByJSONName(ElemType(t), k) == Some(u) && DotFree(k) && Anatomy(u, rest, m)
    requires !ThroughPointers(t).MapOf?
    ensures Anatomy(t, [k] + rest, m + 1)
  {
    var segments := [k] + rest;
    assert segments[..m + 1] == [k] + rest[..m] && (rest[..m] != [] ==> AllDotFree(rest[..m]));
    forall j | 0 <= j < m + 1 ensures !NamesMapFrom(t, segments[..j]) {
      if j > 0 {
        assert segments[..j][0] == k && segments[..j][1..] == rest[..j - 1];
      }
    }
    assert segments[..m + 1][0] == k && segments[..m + 1][1..] == rest[..m];
  }

  lemma {:induction false} TypeAnatomy(v: JSON, t: Ty, segments: Path) returns (n: nat)
    requires Conforms(v, t) && At(v, segments).Some? && FlatMaps(t) && DotFreeNames(t) && Transparent(t)
    ensures Anatomy(t, segments, n)
    decreases |segments|
  {
    n := 0;
    if segments != [] {
      var k, rest := segments[0], segments[1..];
      ConformsElem(v, t);
      if ElemType(t).MapOf? {
        EntryIsFlat(v, t, k);
        assert rest == [];
      } else {
        var u := FieldStep(v, t, k);
        var m := TypeAnatomy(v.fields[k], u, rest);
        AnatomyStep(t, u, k, rest, m);
        assert segments == [k] + rest;
        n := m + 1;
      }
    }
  }

  /** A cut of a conforming path resolves, however its map key is split at dots. */
  lemma {:induction false} CutResolves(v: JSON, t: Ty, segments: Path, cut: string)
    requires Conforms(v, t) && At(v, segments).Some? && DotFreeNames(t) && Transparent(t)
    requires segments != [] && Covers(cut, Join(segments))
    ensures ResolveFrom(t, Split(cut))
    decreases |segments|
  {
    var k, rest := segments[0], segments[1..];
    ConformsElem(v, t);
    if ElemType(t).Struct? {
      var u := FieldStep(v, t, k);
      CutStep(k, rest, cut);
      if cut != k {
        CutResolves(v.fields[k], u, rest, cut[|k| + 1..]);
      }
    }
  }

  /** A cut of a path is its first segment, or that and a cut of the rest. */
  lemma CutStep(k: string, rest: Path, cut: string)
    requires DotFree(k) && Covers(cut, Join([k] + rest))
    ensures cut != k ==>
              && rest != [] && |k| < |cut| && Covers(cut[|k| + 1..], Join(rest))
              && Split(cut) == [k] + Split(cut[|k| + 1..])
    ensures cut == k ==> Split(cut) == [k]
  {
    assert AllDotFree([k]) && ([k] + rest)[1..] == rest && [k] + [] == [k];
    if rest == [] {
      var _ := CutOfDotFree(cut, [k]);
      SplitJoin([k]);
    } else {
      CutBeyond(k, rest, cut);
    }
  }

  lemma CutBeyond(k: string, rest: Path, cut: string)
    requires DotFree(k) && rest != [] && Covers(cut, k + "." + Join(rest))
    ensures cut != k ==>
              && |k| < |cut| && Covers(cut[|k| + 1..], Join(rest))
              && Split(cut) == [k] + Split(cut[|k| + 1..])
    ensures cut == k ==> Split(cut) == [k]
  {
    SplitJoin([k]);
    if |cut| <= |k| {
      CutWithin(k, Join(rest), cut);
    } else {
      CutTail(k, Join(rest), cut);
      SplitStep(k, cut[|k| + 1..]);
    }
  }

  lemma CutWithin(k: string, below: string, cut: string)
    requires DotFree(k) && Covers(cut, k + "." + below) && |cut| <= |k|
    ensures cut == k
  {
    var path := k + "." + below;
    assert k + "." <= path && AllDotFree([k]);
    CutsComparable(cut, k, path);
    var _ := CutOfDotFree(cut, [k]);
  }

  lemma CutTail(k: string, below: string, cut: string)
    requires Covers(cut, k + "." + below) && |k| < |cut|
    ensures cut == k + "." + cut[|k| + 1..] && Covers(cut[|k| + 1..], below)
  {
    var path := k + "." + below;
    assert k + "." <= path;
    CutsComparable(k, cut, path);
    var tail := cut[|k| + 1..];
    assert cut == k + "." + tail;
    CoversSamePrefix(k + ".", tail, below);
  }

  /** A captured snapshot holds no path the denylist would refuse. */
  lemma CapturedLeafNotDenied(t: Tables, content: Content, l: Leaf)
    requires WellFormed(t) && FromGroups(t, content) && IsLeaf(RestorableTree(content), l)
    ensures !IsDeniedPath(Join(l.segments), t.deniedPaths)
  {
    LeafForms(content, l);
    var field := l.segments[1];
    var first, both := [l.segments[0]], [l.segments[0], field];
    assert DotFree("spec") && DotFree("metadata") && DotFree("labels") && DotFree("annotations");
    if l.segments[0] == "spec" {
      var g :| g in t.groups && field in g.fields;
      assert FieldFits(field, t.deniedPaths);
      assert [l.segments[0], field] == ["spec", field];
    }
    assert l.segments[..2] == [l.segments[0], field] && AllDotFree(l.segments[..2]);
    forall d | d in t.deniedPaths ensures !Covers(Join(d), Join(l.segments)) {
      assert DeniedFits(d) && AllDotFree(d);
      assert d <= l.segments ==> d == if |d| == 1 then first else both;
      if Covers(Join(d), Join(l.segments)) {
        CoversSegments(d, l.segments, 2);
      }
    }
  }

  /** A cut of a path that is not denied is not denied either. */
  lemma CutNotDenied(cut: string, path: string, deniedPaths: seq<Path>)
    requires Covers(cut, path) && !IsDeniedPath(path, deniedPaths)
    ensures !IsDeniedPath(cut, deniedPaths)
  {
    forall d | d in deniedPaths ensures !Covers(Join(d), cut) {
      if Covers(Join(d), cut) {
        CoversTransitive(Join(d), cut, path);
      }
    }
  }

  lemma FirstOfCut(cut: string, path: string)
    requires Covers(cut, path) && path != "" && path[0] != '.'
    ensures cut != "" && cut[0] == path[0]
  {
    var c := (cut + ".")[0];
    assert cut == "" ==> c == '.';
  }

  lemma TrimmedCut(cut: string, path: string)
    requires Covers(cut, path) && cut != ".*"
    ensures Covers(TrimStar(cut), path) && (cut != "" ==> TrimStar(cut) != "")
  {
    var r := TrimStar(cut);
    if r != cut {
      assert cut == r + ".*";
      assert r + "." <= cut;
      CoversTransitive(r, cut, path);
    }
  }

  lemma MetadataPath(kind: string, key: string)
    ensures kind == "labels" ==> Join(["metadata", kind, key]) == "metadata.labels." + key
    ensures kind == "annotations" ==> Join(["metadata", kind, key]) == "metadata.annotations." + key
  {
    assert ["metadata", kind, key][1..] == [kind, key] && [kind, key][1..] == [key];
    assert Join([kind, key]) == kind + "." + key;
    assert "metadata" + "." + "labels" + "." == "metadata.labels.";
    assert "metadata" + "." + "annotations" + "." == "metadata.annotations.";
    assert Join(["metadata", kind, key]) == "metadata" + "." + kind + "." + key;
  }

  lemma CutOfTwo(a: string, b: string, cut: string)
    requires DotFree(a) && DotFree(b) && Covers(cut, a + "." + b)
    ensures cut == a || cut == a + "." + b
  {
    var p := [a, b];
    assert p[1..] == [b];
    assert Join(p) == a + "." + b;
    var j := CutOfDotFree(cut, p);
    assert p[..1] == [a] && p[..2] == p;
  }

  lemma MetadataCut(kind: string, path: string, key: string, cut: string)
    requires DotFree(kind) && path == "metadata" + "." + kind + "." + key && Covers(cut, path)
    ensures cut == "metadata" || Covers("metadata" + "." + kind, cut)
  {
    var m := "metadata" + "." + kind;
    assert DotFree("metadata");
    assert m + "." <= path;
    if |m| <= |cut| {
      CutsComparable(m, cut, path);
    } else {
      CutsComparable(cut, m, path);
      CutOfTwo("metadata", kind, cut);
    }
  }

  lemma MetadataCutUsable(path: string, key: string, cut: string)
    requires path == "metadata.labels." + key || path == "metadata.annotations." + key
    requires Covers(cut, path)
    ensures cut == "metadata" || Covers("metadata.labels", cut) || Covers("metadata.annotations", cut)
  {
    assert DotFree("labels") && DotFree("annotations");
    assert "metadata" + "." + "labels" == "metadata.labels";
    assert "metadata" + "." + "annotations" == "metadata.annotations";
    if path == "metadata.labels." + key {
      MetadataCut("labels", path, key, cut);
    } else {
      MetadataCut("annotations", path, key, cut);
    }
  }

  lemma SpecCutWithinGroups(table: seq<Group>, f: string, segments: Path, p: string)
    requires |segments| >= 2 && segments[..2] == ["spec", f] && Covers(p, Join(segments))
    requires exists g :: g in table && f in g.fields
    ensures WithinCaptureGroups(table, p)
  {
    var claimed, path := Join(["spec", f]), Join(segments);
    var g :| g in table && f in g.fields;
    JoinPrefix(["spec", f], segments);
    if |p| <= |claimed| {
      CutsComparable(p, claimed, path);
    } else {
      CutsComparable(claimed, p, path);
    }
  }

  lemma SpecCutResolves(schema: Ty, spec: JSON, rest: Path, p: string)
    requires Conforms(spec, schema) && DotFreeNames(schema) && Transparent(schema)
    requires rest != [] && At(spec, rest).Some? && Covers(p, "spec" + "." + Join(rest))
    ensures ResolvesInClusterSpec(schema, p)
  {
    assert DotFree("spec");
    if |p| <= |"spec"| {
      CutWithin("spec", Join(rest), p);
    } else {
      CutTail("spec", Join(rest), p);
      CutResolves(spec, schema, rest, p[5..]);
      assert CutPrefix(p, "spec.") == Some(p[5..]);
    }
  }

  lemma MetadataLeafAccepted(schema: Ty, t: Tables, path: string, key: string, cut: string)
    requires path == "metadata.labels." + key || path == "metadata.annotations." + key
    requires Covers(cut, path) && !IsDeniedPath(path, t.deniedPaths)
    ensures ValidateRulePath(schema, t, cut).Usable?
  {
    assert path[0] == 'm';
    FirstOfCut(cut, path);
    TrimmedCut(cut, path);
    CutNotDenied(TrimStar(cut), path, t.deniedPaths);
    MetadataCutUsable(path, key, TrimStar(cut));
  }

  /** Beneath spec, a captured path is judged by its resolution alone. */
  lemma SpecVerdict(schema: Ty, t: Tables, written: string)
    requires var p := TrimStar(written);
             && p != "" && p[0] == 's' && !IsDeniedPath(p, t.deniedPaths) && WithinCaptureGroups(t.groups, p)
    ensures ValidateRulePath(schema, t, written) ==
            if ResolvesInClusterSpec(schema, TrimStar(written)) then Usable else Unresolved
  {
    var p := TrimStar(written);
    if Covers("metadata.labels", p) {
      FirstOfCut("metadata.labels", p);
    }
    if Covers("metadata.annotations", p) {
      FirstOfCut("metadata.annotations", p);
    }
  }

  /** A cut of a captured spec path that is not denied: groups claim it, and the denylist does not. */
  lemma SpecCutCaptured(t: Tables, content: Content, segments: Path, cut: string)
    requires |segments| >= 2 && segments[0] == "spec" && FromGroups(t, content) && segments[1] in content.spec
    requires Covers(cut, Join(segments)) && !IsDeniedPath(Join(segments), t.deniedPaths)
    ensures var p := TrimStar(cut);
            && p != "" && p[0] == 's' && Covers(p, Join(segments))
            && !IsDeniedPath(p, t.deniedPaths) && WithinCaptureGroups(t.groups, p)
  {
    var path, p := Join(segments), TrimStar(cut);
    assert path == "spec" + "." + Join(segments[1..]) && path[0] == 's';
    FirstOfCut(cut, path);
    TrimmedCut(cut, path);
    FirstOfCut(p, path);
    CutNotDenied(p, path, t.deniedPaths);
    assert segments[..2] == ["spec", segments[1]];
    SpecCutWithinGroups(t.groups, segments[1], segments, p);
  }

  /** The static check of what a capture holds comes down to one thing: the path of a leaf, or a
      cut of it at a dot, is refused exactly when it lies beneath spec and does not resolve. */
  lemma LeafPathAcceptedIff(schema: Ty, t: Tables, content: Content, l: Leaf, cut: string)
    requires WellFormed(t) && FromGroups(t, content) && IsLeaf(RestorableTree(content), l)
    requires Covers(cut, Join(l.segments))
    ensures ValidateRulePath(schema, t, cut).Usable? <==>
            l.segments[0] == "metadata" || ResolvesInClusterSpec(schema, TrimStar(cut))
  {
    LeafForms(content, l);
    CapturedLeafNotDenied(t, content, l);
    if l.segments[0] == "metadata" {
      assert l.segments == ["metadata", l.segments[1], l.segments[2]];
      MetadataPath(l.segments[1], l.segments[2]);
      MetadataLeafAccepted(schema, t, Join(l.segments), l.segments[2], cut);
    } else {
      SpecCutCaptured(t, content, l.segments, cut);
      SpecVerdict(schema, t, cut);
    }
  }

  lemma UnseenUnresolved(schema: Ty, name: string)
    requires schema.Struct? && DotFree(name) && FieldByJSONName(schema, name) == None
    ensures !ResolvesInClusterSpec(schema, "spec." + name)
  {
    SplitJoin([name]);
    assert CutPrefix("spec." + name, "spec.") == Some(name);
  }

  lemma SpecFieldUntrimmed(name: string)
    requires DotFree(name) && name != "*"
    ensures TrimStar("spec." + name) == "spec." + name
  {
    var path := "spec." + name;
    assert path[|path| - 2..] == [path[|path| - 2], path[|path| - 1]];
    assert forall i :: 0 <= i < |name| ==> path[5 + i] == name[i];
  }

  /** A field the spec holds through a struct embedded by pointer is refused as unresolved. */
  lemma EmbeddedPointerRefused(schema: Ty, e: Ty, t: Tables, name: string, ty: Ty)
    requires schema.Struct? && e.Struct? && Encodes(e, name, ty) && name != "" && name != "*" && DotFree(name)
    requires exists goName :: schema.fields == [Field(goName, "", true, Pointer(e))]
    requires WithinCaptureGroups(t.groups, "spec." + name) && !IsDeniedPath("spec." + name, t.deniedPaths)
    ensures Encodes(schema, name, ty)
    ensures ValidateRulePath(schema, t, "spec." + name) == Unresolved
  {
    EmbeddedPointerUnseen(schema, e, name, ty);
    UnseenUnresolved(schema, name);
    SpecFieldUntrimmed(name);
    SpecVerdict(schema, t, "spec." + name);
  }

  /** The static check never rejects what could match: any dotted path equal to the path of a
      leaf some capture can hold, or cutting it at a dot, is accepted. */
  lemma LeafPathAccepted(schema: Ty, t: Tables, content: Content, l: Leaf, cut: string)
    requires WellFormed(t) && ContentConforms(schema, t, content) && Transparent(schema)
    requires IsLeaf(RestorableTree(content), l) && Covers(cut, Join(l.segments))
    ensures ValidateRulePath(schema, t, cut).Usable?
  {
    LeafForms(content, l);
    LeafPathAcceptedIff(schema, t, content, l, cut);
    if l.segments[0] == "spec" {
      CapturedLeafNotDenied(t, content, l);
      SpecCutCaptured(t, content, l.segments, cut);
      SpecCutResolves(schema, Obj(content.spec), l.segments[1..], TrimStar(cut));
    }
  }
}
