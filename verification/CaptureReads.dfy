/** What a capture holds, in the terms of the cluster it was taken from. */
module CaptureReads {
  import opened Wrappers
  import opened JsonTree
  import opened Groups
  import opened Denylist
  import opened Snapshot
  import opened Extraction

  const POSTGRESQL: Path := ["spec", "postgresql"]
  const PARAMETERS: Path := ["spec", "postgresql", "parameters"]
  const LIBRARIES: Path := ["spec", "postgresql", "shared_preload_libraries"]

  /** Some enabled group names the field. */
  ghost predicate Enabled(names: seq<string>, t: Tables, f: string) {
    exists name :: name in names && LookupGroup(name, t.groups).Some? && f in LookupGroup(name, t.groups).value.fields
  }

  /** Fields of the spec other than spec.postgresql, when that is an object: the enabled ones as they
      are, and no others. */
  ghost predicate FieldsRead(source: JSON, names: seq<string>, t: Tables, tree: JSON) {
    forall f :: f != "postgresql" || !ObjAt(source, POSTGRESQL) || !Enabled(names, t, f) ==>
      At(tree, ["spec", f]) == if Enabled(names, t, f) then At(source, ["spec", f]) else None
  }

  /** What stands below spec.postgresql other than parameters and libraries: all of it as it is. */
  ghost predicate SettingsRead(source: JSON, tree: JSON) {
    && (forall k :: k != "parameters" && k != "shared_preload_libraries" ==>
          At(tree, POSTGRESQL + [k]) == At(source, POSTGRESQL + [k]))
    && (At(tree, POSTGRESQL).Some? ==> ObjAt(tree, POSTGRESQL))
    && (At(tree, POSTGRESQL) == Some(EMPTY) <==> At(source, POSTGRESQL) == Some(EMPTY))
  }

  /** The parameters: those CloudNativePG does not fix, as they are, and no empty object. */
  ghost predicate ParametersRead(source: JSON, t: Tables, tree: JSON) {
    if ObjAt(source, PARAMETERS) then
      && (forall k ::
            At(tree, PARAMETERS + [k]) == if k in t.fixedParameters then None else At(source, PARAMETERS + [k]))
      && (At(tree, PARAMETERS).Some? ==> ObjAt(tree, PARAMETERS) && At(tree, PARAMETERS) != Some(EMPTY))
    else At(tree, PARAMETERS) == At(source, PARAMETERS)
  }

  /** The libraries: those CloudNativePG does not inject, in their order, and no empty list. */
  ghost predicate LibrariesRead(source: JSON, t: Tables, tree: JSON) {
    match At(source, LIBRARIES)
    case Some(List(items)) =>
      exists kept, at :: Picks(items, kept, at, t.managedLibraries)
                         && At(tree, LIBRARIES) == if kept == [] then None else Some(List(kept))
    case _ => At(tree, LIBRARIES) == At(source, LIBRARIES)
  }

  /** Labels or annotations: with the metadata group those whose keys are not refused, else none. */
  ghost predicate KeysRead(all: map<string, string>, names: seq<string>, t: Tables, kept: map<string, string>) {
    forall k ::
      && (k in kept <==> METADATA_GROUP in names && k in all && !IsDeniedMetadataKey(k, t))
      && (k in kept ==> kept[k] == all[k])
  }

  /** A capture holds exactly what the enabled groups name and nothing refuses, with the values of
      the source. */
  ghost predicate HoldsJust(source: JSON, names: seq<string>, t: Tables, content: Content) {
    var tree := RestorableTree(content);
    && FieldsRead(source, names, t, tree)
    && (ObjAt(source, POSTGRESQL) && Enabled(names, t, "postgresql") ==>
          SettingsRead(source, tree) && ParametersRead(source, t, tree) && LibrariesRead(source, t, tree))
    && KeysRead(Labels(source), names, t, content.labels)
    && KeysRead(Annotations(source), names, t, content.annotations)
  }

  lemma TreeAt(content: Content, f: string)
    ensures At(RestorableTree(content), ["spec", f]) == if f in content.spec then Some(content.spec[f]) else None
  {
    RestorableTreeAt(content);
    AtStep(RestorableTree(content), ["spec"], f);
    assert ["spec"] + [f] == ["spec", f];
  }

  /** One step below spec.postgresql. */
  function Below(spec: map<string, JSON>, k: string): Option<JSON> {
    if HasPostgres(spec, k) then Some(spec["postgresql"].fields[k]) else None
  }

  lemma PostgresAt(v: JSON, spec: map<string, JSON>, k: string)
    requires forall f :: f == "postgresql" ==> At(v, ["spec", f]) == if f in spec then Some(spec[f]) else None
    ensures At(v, POSTGRESQL + [k]) == Below(spec, k)
  {
    assert POSTGRESQL == ["spec", "postgresql"];
    AtStep(v, POSTGRESQL, k);
  }

  lemma CleanFieldReads(spec: map<string, JSON>, key: string, kept: Option<JSON>, k: string)
    requires HasPostgres(spec, key)
    ensures var c := CleanField(spec, key, kept);
            && Below(c, k) == (if k == key then kept else Below(spec, k))
            && (forall f :: f != "postgresql" ==> (f in c <==> f in spec) && (f in c ==> c[f] == spec[f]))
            && ("postgresql" in c ==> c["postgresql"].Obj? && c["postgresql"] != EMPTY)
  {
    var pg, c := spec["postgresql"].fields, CleanField(spec, key, kept);
    if kept.Some? {
      assert key in c["postgresql"].fields;
    } else if pg - {key} == map[] {
      assert k in pg ==> k == key || k in pg - {key};
    }
  }

  /** What cleaning makes of one setting below spec.postgresql. */
  function Cleaned(x: Option<JSON>, k: string, t: Tables): Option<JSON> {
    match x
    case Some(Obj(parameters)) =>
      var kept := KeptParameters(parameters, t.fixedParameters);
      if k != "parameters" then x else if kept == map[] then None else Some(Obj(kept))
    case Some(List(items)) =>
      var kept := KeptLibraries(items, t.managedLibraries);
      if k != "shared_preload_libraries" then x else if kept == [] then None else Some(List(kept))
    case _ => x
  }

  predicate HasSettings(spec: map<string, JSON>) {
    "postgresql" in spec && spec["postgresql"].Obj?
  }

  lemma CleanParametersReads(spec: map<string, JSON>, t: Tables, k: string)
    ensures var c := CleanParameters(spec, t);
            && Below(c, k) == (if k == "parameters" then Cleaned(Below(spec, k), k, t) else Below(spec, k))
            && (forall f :: f != "postgresql" ==> (f in c <==> f in spec) && (f in c ==> c[f] == spec[f]))
            && (!HasSettings(spec) ==> c == spec)
            && (HasSettings(spec) && "postgresql" in c ==> HasSettings(c))
            && (HasSettings(spec) && c != spec ==> spec["postgresql"] != EMPTY)
            && (HasSettings(spec) && c != spec && "postgresql" in c ==> c["postgresql"] != EMPTY)
  {
    if HasPostgres(spec, "parameters") && spec["postgresql"].fields["parameters"].Obj? {
      var kept := KeptParameters(spec["postgresql"].fields["parameters"].fields, t.fixedParameters);
      CleanFieldReads(spec, "parameters", if kept == map[] then None else Some(Obj(kept)), k);
    }
  }

  lemma CleanLibrariesReads(spec: map<string, JSON>, t: Tables, k: string)
    ensures var c := CleanLibraries(spec, t);
            && Below(c, k) ==
               (if k == "shared_preload_libraries" then Cleaned(Below(spec, k), k, t) else Below(spec, k))
            && (forall f :: f != "postgresql" ==> (f in c <==> f in spec) && (f in c ==> c[f] == spec[f]))
            && (!HasSettings(spec) ==> c == spec)
            && (HasSettings(spec) && "postgresql" in c ==> HasSettings(c))
            && (HasSettings(spec) && c != spec ==> spec["postgresql"] != EMPTY)
            && (HasSettings(spec) && c != spec && "postgresql" in c ==> c["postgresql"] != EMPTY)
  {
    if HasPostgres(spec, "shared_preload_libraries") && spec["postgresql"].fields["shared_preload_libraries"].List? {
      var kept := KeptLibraries(spec["postgresql"].fields["shared_preload_libraries"].items, t.managedLibraries);
      CleanFieldReads(spec, "shared_preload_libraries", if kept == [] then None else Some(List(kept)), k);
    }
  }

  lemma CleanReads(spec: map<string, JSON>, t: Tables, k: string)
    ensures var c := Clean(spec, t);
            && Below(c, k) == Cleaned(Below(spec, k), k, t)
            && (forall f :: f != "postgresql" ==> (f in c <==> f in spec) && (f in c ==> c[f] == spec[f]))
            && (!HasSettings(spec) ==> c == spec)
            && (HasSettings(spec) ==> ("postgresql" in c ==> HasSettings(c)))
            && (HasSettings(spec) ==> ("postgresql" in c && c["postgresql"] == EMPTY <==> spec["postgresql"] == EMPTY))
  {
    CleanParametersReads(spec, t, k);
    CleanLibrariesReads(CleanParameters(spec, t), t, k);
  }

  lemma SourceAt(source: JSON, names: seq<string>, t: Tables, f: string)
    ensures var spec := Captured(source, FieldsOf(names, t.groups));
            (if f in spec then Some(spec[f]) else None) ==
            if Enabled(names, t, f) then At(source, ["spec", f]) else None
  {
  }

  lemma SourceBelow(source: JSON, names: seq<string>, t: Tables, k: string)
    requires Enabled(names, t, "postgresql")
    ensures Below(Captured(source, FieldsOf(names, t.groups)), k) == At(source, POSTGRESQL + [k])
  {
    SourceAt(source, names, t, "postgresql");
    PostgresAt(source, Captured(source, FieldsOf(names, t.groups)), k);
  }

  lemma TreeBelow(content: Content, k: string)
    ensures At(RestorableTree(content), POSTGRESQL + [k]) == Below(content.spec, k)
  {
    TreeAt(content, "postgresql");
    PostgresAt(RestorableTree(content), content.spec, k);
  }

  /** What a capture holds of one setting, from what the source has. */
  lemma SettingReads(source: JSON, names: seq<string>, t: Tables, k: string)
    requires Enabled(names, t, "postgresql")
    ensures At(RestorableTree(Extracted(source, names, t)), POSTGRESQL + [k]) ==
            Cleaned(At(source, POSTGRESQL + [k]), k, t)
  {
    TreeBelow(Extracted(source, names, t), k);
    SourceBelow(source, names, t, k);
    CleanReads(Captured(source, FieldsOf(names, t.groups)), t, k);
  }

  lemma FieldsHold(source: JSON, names: seq<string>, t: Tables)
    ensures FieldsRead(source, names, t, RestorableTree(Extracted(source, names, t)))
  {
    var spec, content := Captured(source, FieldsOf(names, t.groups)), Extracted(source, names, t);
    forall f | f != "postgresql" || !ObjAt(source, POSTGRESQL) || !Enabled(names, t, f)
      ensures At(RestorableTree(content), ["spec", f]) == if Enabled(names, t, f) then At(source, ["spec", f]) else None
    {
      TreeAt(content, f);
      SourceAt(source, names, t, f);
      CleanReads(spec, t, "");
    }
  }

  lemma SettingsHold(source: JSON, names: seq<string>, t: Tables)
    requires ObjAt(source, POSTGRESQL) && Enabled(names, t, "postgresql")
    ensures SettingsRead(source, RestorableTree(Extracted(source, names, t)))
  {
    var spec, content := Captured(source, FieldsOf(names, t.groups)), Extracted(source, names, t);
    forall k | k != "parameters" && k != "shared_preload_libraries"
      ensures At(RestorableTree(content), POSTGRESQL + [k]) == At(source, POSTGRESQL + [k])
    {
      SettingReads(source, names, t, k);
    }
    TreeAt(content, "postgresql");
    SourceAt(source, names, t, "postgresql");
    CleanReads(spec, t, "");
  }

  lemma ParametersHold(source: JSON, names: seq<string>, t: Tables)
    requires Enabled(names, t, "postgresql")
    ensures ParametersRead(source, t, RestorableTree(Extracted(source, names, t)))
  {
    var tree := RestorableTree(Extracted(source, names, t));
    assert POSTGRESQL + ["parameters"] == PARAMETERS;
    SettingReads(source, names, t, "parameters");
    if ObjAt(source, PARAMETERS) {
      var parameters := At(source, PARAMETERS).value.fields;
      forall k
        ensures At(tree, PARAMETERS + [k]) == if k in t.fixedParameters then None else At(source, PARAMETERS + [k])
      {
        AtStep(tree, PARAMETERS, k);
        AtStep(source, PARAMETERS, k);
        assert k in KeptParameters(parameters, t.fixedParameters) <==> k in parameters && k !in t.fixedParameters;
      }
    }
  }

  lemma LibrariesHold(source: JSON, names: seq<string>, t: Tables)
    requires Enabled(names, t, "postgresql")
    ensures LibrariesRead(source, t, RestorableTree(Extracted(source, names, t)))
  {
    assert POSTGRESQL + ["shared_preload_libraries"] == LIBRARIES;
    SettingReads(source, names, t, "shared_preload_libraries");
    match At(source, LIBRARIES)
    case Some(List(items)) =>
      var at := KeptLibrariesPick(items, t.managedLibraries);
    case _ =>
  }

  /** Capturing records just what the enabled groups name and nothing refuses: unmanaged libraries in
      their order, parameters that are not fixed, undenied labels and annotations, and every other
      enabled field whole, each with the source's value, and nothing else. */
  lemma ExtractedHoldsJust(source: JSON, names: seq<string>, t: Tables)
    ensures HoldsJust(source, names, t, Extracted(source, names, t))
  {
    FieldsHold(source, names, t);
    if ObjAt(source, POSTGRESQL) && Enabled(names, t, "postgresql") {
      SettingsHold(source, names, t);
      ParametersHold(source, names, t);
      LibrariesHold(source, names, t);
    }
  }
}
