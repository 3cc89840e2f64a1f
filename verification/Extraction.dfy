/** Capturing a cluster's configuration: internal/snapshot/extract.go. */
module Extraction {
  import opened Wrappers
  import opened JsonTree
  import opened Text
  import opened Groups
  import opened Denylist
  import opened Snapshot

  datatype ExtractError = UnknownGroup(name: string) | GroupNamesDenied(path: Path)

  function SetOf(fields: seq<string>): set<string> {
    set f | f in fields
  }

  lemma SetOfStep(fields: seq<string>, j: nat)
    requires j < |fields|
    ensures SetOf(fields[..j + 1]) == SetOf(fields[..j]) + {fields[j]}
  {
    assert fields[..j + 1] == fields[..j] + [fields[j]];
  }

  /** The spec fields the enabled groups name. */
  function FieldsOf(names: seq<string>, table: seq<Group>): set<string> {
    set name, f | name in names && LookupGroup(name, table).Some? && f in LookupGroup(name, table).value.fields :: f
  }

  /** The captured tree before cleaning: the named fields the source has. */
  function Captured(source: JSON, fields: set<string>): map<string, JSON> {
    map f | f in fields && At(source, ["spec", f]).Some? :: At(source, ["spec", f]).value
  }

  function Wrap(spec: map<string, JSON>): JSON {
    if spec == map[] then EMPTY else Obj(map["spec" := Obj(spec)])
  }

  /** One cleaned field below spec.postgresql: what is kept of it, or its pruning removal. */
  function CleanField(spec: map<string, JSON>, key: string, kept: Option<JSON>): map<string, JSON>
    requires "postgresql" in spec && spec["postgresql"].Obj? && key in spec["postgresql"].fields
  {
    var pg := spec["postgresql"].fields;
    match kept
    case Some(v) => spec["postgresql" := Obj(pg[key := v])]
    case None => if pg - {key} == map[] then spec - {"postgresql"} else spec["postgresql" := Obj(pg - {key})]
  }

  predicate HasPostgres(spec: map<string, JSON>, key: string) {
    "postgresql" in spec && spec["postgresql"].Obj? && key in spec["postgresql"].fields
  }

  function CleanParameters(spec: map<string, JSON>, t: Tables): map<string, JSON> {
    if HasPostgres(spec, "parameters") && spec["postgresql"].fields["parameters"].Obj? then
      var kept := KeptParameters(spec["postgresql"].fields["parameters"].fields, t.fixedParameters);
      CleanField(spec, "parameters", if kept == map[] then None else Some(Obj(kept)))
    else spec
  }

  function CleanLibraries(spec: map<string, JSON>, t: Tables): map<string, JSON> {
    if HasPostgres(spec, "shared_preload_libraries") && spec["postgresql"].fields["shared_preload_libraries"].List? then
      var kept := KeptLibraries(spec["postgresql"].fields["shared_preload_libraries"].items, t.managedLibraries);
      CleanField(spec, "shared_preload_libraries", if kept == [] then None else Some(List(kept)))
    else spec
  }

  function Clean(spec: map<string, JSON>, t: Tables): map<string, JSON> {
    CleanLibraries(CleanParameters(spec, t), t)
  }

  function CaptureOf(source: JSON, fields: set<string>, withMetadata: bool, t: Tables): Content {
    Content(
      Clean(Captured(source, fields), t),
      if withMetadata then KeptMetadata(Labels(source), t) else map[],
      if withMetadata then KeptMetadata(Annotations(source), t) else map[])
  }

  /** What a capture of the cluster with these groups records. */
  function Extracted(source: JSON, names: seq<string>, t: Tables): Content {
    CaptureOf(source, FieldsOf(names, t.groups), METADATA_GROUP in names, t)
  }

  ghost predicate ParametersClean(spec: map<string, JSON>, t: Tables) {
    HasPostgres(spec, "parameters") && spec["postgresql"].fields["parameters"].Obj? ==>
      var parameters := spec["postgresql"].fields["parameters"].fields;
      parameters != map[] && forall k :: k in parameters ==> k !in t.fixedParameters
  }

  ghost predicate LibrariesClean(spec: map<string, JSON>, t: Tables) {
    HasPostgres(spec, "shared_preload_libraries") && spec["postgresql"].fields["shared_preload_libraries"].List? ==>
      var libraries := spec["postgresql"].fields["shared_preload_libraries"].items;
      && libraries != []
      && forall i :: 0 <= i < |libraries| && libraries[i].Str? ==> libraries[i].text !in t.managedLibraries
  }

  lemma {:induction false} UnmanagedStay(libraries: seq<JSON>, managed: set<string>)
    requires forall i :: 0 <= i < |libraries| && libraries[i].Str? ==> libraries[i].text !in managed
    ensures KeptLibraries(libraries, managed) == libraries
  {
    if libraries != [] {
      UnmanagedStay(libraries[1..], managed);
    }
  }

  lemma KeptAreUnmanaged(libraries: seq<JSON>, managed: set<string>, i: nat)
    requires i < |KeptLibraries(libraries, managed)| && KeptLibraries(libraries, managed)[i].Str?
    ensures KeptLibraries(libraries, managed)[i].text !in managed
  {
    var x := KeptLibraries(libraries, managed)[i];
    KeptLibrariesCount(libraries, managed, x);
    assert x in multiset(KeptLibraries(libraries, managed));
  }

  lemma CleanIsClean(spec: map<string, JSON>, t: Tables)
    ensures ParametersClean(Clean(spec, t), t) && LibrariesClean(Clean(spec, t), t)
  {
    var a := CleanParameters(spec, t);
    assert ParametersClean(a, t);
    if HasPostgres(a, "shared_preload_libraries") && a["postgresql"].fields["shared_preload_libraries"].List? {
      var items := a["postgresql"].fields["shared_preload_libraries"].items;
      forall i | 0 <= i < |KeptLibraries(items, t.managedLibraries)| && KeptLibraries(items, t.managedLibraries)[i].Str?
        ensures KeptLibraries(items, t.managedLibraries)[i].text !in t.managedLibraries
      {
        KeptAreUnmanaged(items, t.managedLibraries, i);
      }
    }
  }

  lemma CleanFieldSame(spec: map<string, JSON>, key: string)
    requires HasPostgres(spec, key)
    ensures CleanField(spec, key, Some(spec["postgresql"].fields[key])) == spec
  {
    var pg := spec["postgresql"].fields;
    assert pg[key := pg[key]] == pg;
    assert spec["postgresql" := spec["postgresql"]] == spec;
  }

  lemma CleanStays(spec: map<string, JSON>, t: Tables)
    requires ParametersClean(spec, t) && LibrariesClean(spec, t)
    ensures Clean(spec, t) == spec
  {
    if HasPostgres(spec, "parameters") && spec["postgresql"].fields["parameters"].Obj? {
      var parameters := spec["postgresql"].fields["parameters"].fields;
      assert KeptParameters(parameters, t.fixedParameters) == parameters;
      CleanFieldSame(spec, "parameters");
    }
    if HasPostgres(spec, "shared_preload_libraries") {
      if spec["postgresql"].fields["shared_preload_libraries"].List? {
        UnmanagedStay(spec["postgresql"].fields["shared_preload_libraries"].items, t.managedLibraries);
      }
      CleanFieldSame(spec, "shared_preload_libraries");
    }
  }

  /** Cleaning what has been cleaned changes nothing. */
  lemma CleanIdempotent(spec: map<string, JSON>, t: Tables)
    ensures Clean(Clean(spec, t), t) == Clean(spec, t)
  {
    CleanIsClean(spec, t);
    CleanStays(Clean(spec, t), t);
  }

  lemma CleanKeys(spec: map<string, JSON>, t: Tables)
    ensures Clean(spec, t).Keys <= spec.Keys
  {
  }

  lemma CapturedAgain(content: Content, fields: set<string>)
    requires content.spec.Keys <= fields
    ensures Captured(RestorableTree(content), fields) == content.spec
  {
    RestorableTreeAt(content);
    forall f ensures At(RestorableTree(content), ["spec", f]) ==
        if f in content.spec then Some(content.spec[f]) else None
    {
      assert ["spec"] + [f] == ["spec", f];
      AtStep(RestorableTree(content), ["spec"], f);
    }
  }

  lemma KeptMetadataIdempotent(keys: map<string, string>, t: Tables)
    ensures KeptMetadata(KeptMetadata(keys, t), t) == KeptMetadata(keys, t)
  {
  }

  /** Extracting from a cluster that holds exactly a capture gives that capture again. */
  lemma ExtractFixpoint(source: JSON, fields: set<string>, withMetadata: bool, t: Tables)
    ensures var content := CaptureOf(source, fields, withMetadata, t);
            CaptureOf(RestorableTree(content), fields, withMetadata, t) == content
  {
    var content := CaptureOf(source, fields, withMetadata, t);
    RestorableTreeAt(content);
    CleanKeys(Captured(source, fields), t);
    CleanIdempotent(Captured(source, fields), t);
    CapturedAgain(content, fields);
    KeptMetadataIdempotent(Labels(source), t);
    KeptMetadataIdempotent(Annotations(source), t);
  }

  /** On dot-free names a string match against the denylist is a match of segments. */
  lemma DeniedCutOfField(d: Path, f: string)
    requires DeniedFits(d) && DotFree(f) && Covers(Join(d), Join(["spec", f]))
    ensures d == ["spec", f]
  {
    var p := ["spec", f];
    assert DotFree("spec") && AllDotFree(p) && AllDotFree(d);
    var j := CutOfDotFree(Join(d), p);
    SplitJoin(d);
    SplitJoin(p[..j]);
    assert d == p[..j];
  }

  /** The allowlist names no denied path: no string match against the denylist either. */
  lemma CapturedFieldNotDenied(t: Tables, g: Group, f: string)
    requires WellFormed(t) && g in t.groups && f in g.fields
    ensures !IsDeniedPath(Join(["spec", f]), t.deniedPaths)
  {
    assert FieldFits(f, t.deniedPaths);
    forall d | d in t.deniedPaths ensures !Covers(Join(d), Join(["spec", f])) {
      assert DeniedFits(d);
      if Covers(Join(d), Join(["spec", f])) {
        DeniedCutOfField(d, f);
      }
    }
  }

  lemma WrapSet(m: map<string, JSON>, f: string, v: JSON)
    ensures Settable(Wrap(m), ["spec", f]) && SetAt(Wrap(m), ["spec", f], v) == Wrap(m[f := v])
  {
    var w := Obj(m[f := v]);
    assert ["spec", f][1..] == [f];
    assert Child(Wrap(m), "spec") == Obj(m);
    assert SetAt(Obj(m), [f], v) == w;
    assert Settable(Wrap(m), ["spec", f]);
    assert SetAt(Wrap(m), ["spec", f], v) == Obj(Wrap(m).fields["spec" := w]);
    assert Wrap(m).fields["spec" := w] == map["spec" := w];
    assert f in m[f := v];
  }

  lemma {:induction false} WithoutNoop(v: JSON, paths: seq<Path>)
    requires v.Obj? && forall i :: 0 <= i < |paths| ==> DeleteAt(v, paths[i]) == v
    ensures Without(v, paths) == v
  {
    if paths != [] {
      WithoutNoop(v, paths[1..]);
    }
  }

  /** On a captured tree the denylist finds nothing: the allowlist already kept it out. */
  lemma DenylistNoop(m: map<string, JSON>, t: Tables)
    requires DenylistFits(t) && forall f :: f in m ==> ["spec", f] !in t.deniedPaths
    ensures Without(Wrap(m), t.deniedPaths) == Wrap(m)
  {
    var v := Wrap(m);
    forall i | 0 <= i < |t.deniedPaths| ensures DeleteAt(v, t.deniedPaths[i]) == v {
      assert DeniedFits(t.deniedPaths[i]);
      DeniedAbsent(m, t.deniedPaths[i]);
    }
    WithoutNoop(v, t.deniedPaths);
  }

  lemma DeniedAbsent(m: map<string, JSON>, d: Path)
    requires DeniedFits(d) && forall f :: f in m ==> ["spec", f] != d
    ensures DeleteAt(Wrap(m), d) == Wrap(m)
  {
    var v := Wrap(m);
    if |d| == 2 && d[0] == "spec" {
      assert d == ["spec", d[1]];
      assert m - {d[1]} == m;
      assert d[1..] == [d[1]];
      if m != map[] {
        assert v.fields["spec" := Obj(m)] == v.fields;
      }
    } else {
      assert v.fields - {d[0]} == v.fields;
    }
  }

  /** Reading, setting and deleting one field below spec.postgresql of a captured tree. */
  lemma WrapPostgresAt(m: map<string, JSON>, key: string)
    ensures At(Wrap(m), ["spec", "postgresql", key]) ==
            if HasPostgres(m, key) then Some(m["postgresql"].fields[key]) else None
  {
    var p := ["spec", "postgresql", key];
    assert p[1..] == ["postgresql", key] && p[1..][1..] == [key];
    assert At(Wrap(m), p) == At(Obj(m), p[1..]);
    assert At(Obj(m), p[1..]) == if "postgresql" in m then At(m["postgresql"], [key]) else None;
    if "postgresql" in m {
      AtStep(m["postgresql"], [], key);
      assert [] + [key] == [key];
    }
  }

  lemma WrapPostgres(m: map<string, JSON>, key: string, v: JSON)
    ensures At(Wrap(m), ["spec", "postgresql", key]) ==
            if HasPostgres(m, key) then Some(m["postgresql"].fields[key]) else None
    ensures HasPostgres(m, key) ==>
              && Settable(Wrap(m), ["spec", "postgresql", key])
              && SetAt(Wrap(m), ["spec", "postgresql", key], v) == Wrap(CleanField(m, key, Some(v)))
              && DeleteAt(Wrap(m), ["spec", "postgresql", key]) == Wrap(CleanField(m, key, None))
  {
    WrapPostgresAt(m, key);
    var p := ["spec", "postgresql", key];
    assert p[1..] == ["postgresql", key] && p[1..][1..] == [key] && p[1..][1..][1..] == [];
    if HasPostgres(m, key) {
      assert DeleteAt(Obj(m), p[1..]) == Obj(CleanField(m, key, None));
      assert SetAt(Obj(m), p[1..], v) == Obj(CleanField(m, key, Some(v)));
    }
  }

  lemma CapturedStep(source: JSON, fields: set<string>, f: string)
    ensures At(source, ["spec", f]).Some? ==>
              && Settable(Wrap(Captured(source, fields)), ["spec", f])
              && SetAt(Wrap(Captured(source, fields)), ["spec", f], At(source, ["spec", f]).value)
                 == Wrap(Captured(source, fields + {f}))
    ensures At(source, ["spec", f]).None? ==> Captured(source, fields + {f}) == Captured(source, fields)
  {
    if At(source, ["spec", f]).Some? {
      WrapSet(Captured(source, fields), f, At(source, ["spec", f]).value);
      assert Captured(source, fields)[f := At(source, ["spec", f]).value] == Captured(source, fields + {f});
    }
  }

  lemma FieldsOfStep(names: seq<string>, i: nat, table: seq<Group>)
    requires i < |names| && LookupGroup(names[i], table).Some?
    ensures FieldsOf(names[..i + 1], table) ==
            FieldsOf(names[..i], table) + SetOf(LookupGroup(names[i], table).value.fields)
  {
    assert names[..i + 1] == names[..i] + [names[i]];
  }

  /** Strips the PostgreSQL settings CloudNativePG owns from a captured tree. */
  method SanitizePostgresConfiguration(captured: JSON, t: Tables, ghost spec: map<string, JSON>) returns (out: JSON)
    requires captured == Wrap(spec)
    ensures out == Wrap(Clean(spec, t))
  {
    out := captured;
    var path := ["spec", "postgresql", "parameters"];
    WrapPostgres(spec, "parameters", Null);
    var parameters := GetSegments(out, path);
    if parameters.Some? && parameters.value.Obj? {
      var filtered := FilterGUCs(parameters.value.fields, t.fixedParameters);
      WrapPostgres(spec, "parameters", Obj(filtered));
      out := if filtered != map[] then SetAt(out, path, Obj(filtered)) else DeleteAt(out, path);
    }
    ghost var cleaned := CleanParameters(spec, t);
    assert out == Wrap(cleaned);

    path := ["spec", "postgresql", "shared_preload_libraries"];
    WrapPostgres(cleaned, "shared_preload_libraries", Null);
    var libraries := GetSegments(out, path);
    if libraries.Some? && libraries.value.List? {
      var filtered := FilterSharedPreloadLibraries(libraries.value.items, t.managedLibraries);
      WrapPostgres(cleaned, "shared_preload_libraries", List(filtered));
      out := if filtered != [] then SetAt(out, path, List(filtered)) else DeleteAt(out, path);
    }
  }

  /** A group name the walk refuses: unknown, or naming a denied path. */
  predicate Refused(name: string, t: Tables) {
    match LookupGroup(name, t.groups)
    case None => true
    case Some(g) => NamesDenied(g, t)
  }

  predicate NamesDenied(g: Group, t: Tables) {
    exists i | 0 <= i < |g.fields| :: IsDeniedPath(Join(["spec", g.fields[i]]), t.deniedPaths)
  }

  lemma AcceptedNotDenied(names: seq<string>, t: Tables)
    requires forall name :: name in names ==> !Refused(name, t)
    ensures forall f :: f in FieldsOf(names, t.groups) ==> ["spec", f] !in t.deniedPaths
  {
    forall f | f in FieldsOf(names, t.groups) ensures ["spec", f] !in t.deniedPaths {
      var name :| name in names && LookupGroup(name, t.groups).Some? && f in LookupGroup(name, t.groups).value.fields;
      assert !NamesDenied(LookupGroup(name, t.groups).value, t);
      assert !IsDeniedPath(Join(["spec", f]), t.deniedPaths);
      assert Covers(Join(["spec", f]), Join(["spec", f]));
    }
  }

  /** One path, copied out of the source if it is there. */
  method CaptureField(source: JSON, path: Path, current: JSON, ghost done: set<string>, ghost f: string)
    returns (next: JSON)
    requires path == ["spec", f] && current == Wrap(Captured(source, done))
    ensures next == Wrap(Captured(source, done + {f}))
  {
    CapturedStep(source, done, f);
    next := current;
    var value := GetSegments(source, path);
    if value.Some? {
      next := SetAt(current, path, value.value);
    }
  }

  /** The paths of one group, copied out of the source. */
  method CaptureGroup(source: JSON, group: Group, captured: JSON, t: Tables, ghost fields: set<string>)
    returns (out: Result<JSON, ExtractError>)
    requires captured == Wrap(Captured(source, fields))
    ensures out.Err? <==> NamesDenied(group, t)
    ensures out.Ok? ==> out.value == Wrap(Captured(source, fields + SetOf(group.fields)))
  {
    var paths := group.Paths();
    var current := captured;
    ghost var done := fields;
    var j := 0;
    while j < |paths|
      invariant 0 <= j <= |paths|
      invariant forall i :: 0 <= i < j ==> !IsDeniedPath(Join(["spec", group.fields[i]]), t.deniedPaths)
      invariant done == fields + SetOf(group.fields[..j])
      invariant current == Wrap(Captured(source, done))
    {
      ghost var f := group.fields[j];
      if IsDeniedPath(Join(paths[j]), t.deniedPaths) {
        return Err(GroupNamesDenied(paths[j]));
      }
      SetOfStep(group.fields, j);
      current := CaptureField(source, paths[j], current, done, f);
      done := done + {f};
      j := j + 1;
    }
    assert group.fields[..j] == group.fields;
    out := Ok(current);
  }

  /** The denylist, the cleaning, and the parts of the snapshot's content. */
  method Finish(source: JSON, captured: JSON, metadataEnabled: bool, t: Tables, ghost names: seq<string>)
    returns (content: Content)
    requires DenylistFits(t) && forall name :: name in names ==> !Refused(name, t)
    requires captured == Wrap(Captured(source, FieldsOf(names, t.groups)))
    ensures content == CaptureOf(source, FieldsOf(names, t.groups), metadataEnabled, t)
  {
    ghost var spec := Captured(source, FieldsOf(names, t.groups));
    AcceptedNotDenied(names, t);
    DenylistNoop(spec, t);
    var out := Without(captured, t.deniedPaths);
    out := SanitizePostgresConfiguration(out, t, spec);
    var kept := if "spec" in out.fields && out.fields["spec"].Obj? then out.fields["spec"].fields else map[];
    var labels, annotations := map[], map[];
    if metadataEnabled {
      labels := FilterMetadata(Labels(source), t);
      annotations := FilterMetadata(Annotations(source), t);
    }
    content := Content(kept, labels, annotations);
  }

  /** The allowlist walk over the enabled groups. */
  method CaptureGroups(source: JSON, enabled: seq<string>, t: Tables)
    returns (captured: Result<JSON, ExtractError>, metadataEnabled: bool)
    ensures captured.Err? <==> exists name :: name in enabled && Refused(name, t)
    ensures captured.Ok? ==> captured.value == Wrap(Captured(source, FieldsOf(enabled, t.groups)))
    ensures captured.Ok? ==> (metadataEnabled <==> METADATA_GROUP in enabled)
  {
    var tree := EMPTY;
    metadataEnabled := false;
    var i := 0;
    while i < |enabled|
      invariant 0 <= i <= |enabled|
      invariant forall name :: name in enabled[..i] ==> !Refused(name, t)
      invariant tree == Wrap(Captured(source, FieldsOf(enabled[..i], t.groups)))
      invariant metadataEnabled <==> METADATA_GROUP in enabled[..i]
    {
      assert enabled[i] in enabled;
      assert enabled[..i + 1] == enabled[..i] + [enabled[i]];
      var next := CaptureNamed(source, enabled[i], tree, t, FieldsOf(enabled[..i], t.groups));
      if next.Err? {
        return Err(next.error), metadataEnabled;
      }
      FieldsOfStep(enabled, i, t.groups);
      tree := next.value;
      metadataEnabled := metadataEnabled || enabled[i] == METADATA_GROUP;
      i := i + 1;
    }
    assert enabled[..i] == enabled;
    captured := Ok(tree);
  }

  /** One group name of the walk. */
  method CaptureNamed(source: JSON, name: string, tree: JSON, t: Tables, ghost fields: set<string>)
    returns (r: Result<JSON, ExtractError>)
    requires tree == Wrap(Captured(source, fields))
    ensures r.Err? <==> Refused(name, t)
    ensures r.Ok? ==>
              && LookupGroup(name, t.groups).Some?
              && r.value == Wrap(Captured(source, fields + SetOf(LookupGroup(name, t.groups).value.fields)))
  {
    var found := LookupGroup(name, t.groups);
    if found.None? {
      return Err(UnknownGroup(name));
    }
    r := CaptureGroup(source, found.value, tree, t, fields);
  }

  /** Extract: the allowlist walk, the denylist as a second line, and the cleaning of what
      CloudNativePG owns. It fails exactly on a group that does not exist or names a denied path. */
  method Extract(source: JSON, groups: seq<string>, t: Tables) returns (r: Result<Content, ExtractError>)
    requires DenylistFits(t)
    ensures r.Err? <==> exists name :: name in EffectiveGroups(groups, t.groups) && Refused(name, t)
    ensures r.Ok? ==> r.value == Extracted(source, EffectiveGroups(groups, t.groups), t)
  {
    var enabled := EffectiveGroups(groups, t.groups);
    var captured, metadataEnabled := CaptureGroups(source, enabled, t);
    if captured.Err? {
      return Err(captured.error);
    }
    var content := Finish(source, captured.value, metadataEnabled, t, enabled);
    r := Ok(content);
  }

  /** With well-formed tables, the shipped ones among them, a capture fails only on a group
      name that does not exist. */
  lemma RefusedIffUnknown(name: string, t: Tables)
    requires WellFormed(t)
    ensures Refused(name, t) <==> LookupGroup(name, t.groups).None?
  {
    if LookupGroup(name, t.groups).Some? {
      var g := LookupGroup(name, t.groups).value;
      forall f | f in g.fields ensures !IsDeniedPath(Join(["spec", f]), t.deniedPaths) {
        CapturedFieldNotDenied(t, g, f);
      }
    }
  }
}
