/** The capture tables: groups, the hard denylist and the key filters of internal/snapshot. */
module Denylist {
  import opened Wrappers
  import opened JsonTree
  import opened Text
  import opened Groups
  import Docs = Documents

  /** Everything that decides what a capture keeps: this plugin's own lists, and from
      CloudNativePG the parameters it fixes and the libraries it injects. The digest of the
      capture rules covers exactly these; an upgrade may change any of them. */
  datatype Tables = Tables(
    groups: seq<Group>,
    deniedPaths: seq<Path>,
    deniedDomains: seq<string>,
    deniedKeys: seq<string>,
    fixedParameters: set<string>,
    managedLibraries: set<string>)

  /** Never captured, never restored. Kept split; the source writes these dotted. */
  const DENIED_PATHS: seq<Path> := [
    ["spec", "plugins"], ["spec", "backup"], ["spec", "externalClusters"], ["spec", "bootstrap"], ["spec", "replica"],
    ["metadata", "name"], ["metadata", "namespace"], ["metadata", "uid"], ["metadata", "resourceVersion"],
    ["metadata", "generation"], ["metadata", "creationTimestamp"], ["metadata", "deletionTimestamp"],
    ["metadata", "ownerReferences"], ["metadata", "managedFields"], ["metadata", "selfLink"],
    ["metadata", "finalizers"], ["status"]
  ]

  const PLUGIN_NAME := "chronicle.sharifmshaker.github.io"
  const DENIED_DOMAINS: seq<string> := ["cnpg.io", PLUGIN_NAME]
  const DENIED_KEYS: seq<string> := ["kubectl.kubernetes.io/last-applied-configuration"]

  /** The tables of this plugin version, beside some version of CloudNativePG. */
  function Shipped(fixedParameters: set<string>, managedLibraries: set<string>): Tables {
    Tables(GROUPS, DENIED_PATHS, DENIED_DOMAINS, DENIED_KEYS, fixedParameters, managedLibraries)
  }

  /** A denylist entry names a whole top-level field, or one field of spec or metadata. */
  predicate DeniedFits(d: Path) {
    && 0 < |d| <= 2 && (forall i :: 0 <= i < |d| ==> DotFree(d[i]))
    && (|d| == 1 ==> d[0] != "spec" && d[0] != "metadata")
    && (|d| == 2 && d[0] == "metadata" ==> d[1] != "labels" && d[1] != "annotations")
  }

  predicate FieldFits(f: string, deniedPaths: seq<Path>) {
    f != "" && DotFree(f) && ["spec", f] !in deniedPaths
  }

  ghost predicate DenylistFits(t: Tables) {
    forall d :: d in t.deniedPaths ==> DeniedFits(d)
  }

  /** What the two lists owe each other: no group names a denied field, and no name in either
      holds a dot. */
  ghost predicate WellFormed(t: Tables) {
    && DenylistFits(t)
    && (forall g, f :: g in t.groups && f in g.fields ==> FieldFits(f, t.deniedPaths))
  }

  lemma SpecDenialsFit(i: nat)
    requires i < 5
    ensures DeniedFits(DENIED_PATHS[i])
  {
  }

  lemma MetadataDenialsFit(i: nat)
    requires 5 <= i < 11
    ensures DeniedFits(DENIED_PATHS[i])
  {
  }

  lemma LastDenialsFit(i: nat)
    requires 11 <= i < 17
    ensures DeniedFits(DENIED_PATHS[i])
  {
  }

  lemma ShippedDenylistFits(fixedParameters: set<string>, managedLibraries: set<string>)
    ensures DenylistFits(Shipped(fixedParameters, managedLibraries))
  {
    forall i | 0 <= i < 17 ensures DeniedFits(DENIED_PATHS[i]) {
      if i < 5 {
        SpecDenialsFit(i);
      } else if i < 11 {
        MetadataDenialsFit(i);
      } else {
        LastDenialsFit(i);
      }
    }
  }

  lemma ShippedWellFormed(fixedParameters: set<string>, managedLibraries: set<string>)
    ensures WellFormed(Shipped(fixedParameters, managedLibraries))
  {
    ShippedDenylistFits(fixedParameters, managedLibraries);
    forall g, f | g in GROUPS && f in g.fields ensures FieldFits(f, DENIED_PATHS) {
      FieldNamesFit(g, f);
      SpecDenied(f);
    }
  }

  lemma SpecDenied(f: string)
    ensures ["spec", f] in DENIED_PATHS ==> f in DENIED_FIELDS
  {
  }

  /** A dotted path on the denylist, or beneath an entry of it. */
  predicate IsDeniedPath(path: string, deniedPaths: seq<Path>) {
    exists d | d in deniedPaths :: Covers(Join(d), path)
  }

  /** strings.Cut(key, "/"): what precedes the first slash. */
  function Domain(key: string): Option<string> {
    if key == "" then None
    else if key[0] == '/' then Some("")
    else match Domain(key[1..])
      case None => None
      case Some(rest) => Some([key[0]] + rest)
  }

  predicate HasSuffix(s: string, suffix: string) {
    |suffix| <= |s| && s[|s| - |suffix|..] == suffix
  }

  predicate IsDeniedMetadataKey(key: string, t: Tables) {
    || key in t.deniedKeys
    || (Domain(key).Some? &&
        exists d | d in t.deniedDomains :: Domain(key).value == d || HasSuffix(Domain(key).value, "." + d))
  }

  lemma {:induction false} DomainIs(domain: string, rest: string)
    requires SlashFree(domain)
    ensures Domain(domain + "/" + rest) == Some(domain)
  {
    var key := domain + "/" + rest;
    if domain == "" {
      assert key == "/" + rest;
    } else {
      assert key[1..] == domain[1..] + "/" + rest;
      DomainIs(domain[1..], rest);
      assert domain == [domain[0]] + domain[1..];
    }
  }

  lemma {:induction false} DomainCuts(key: string)
    requires Domain(key).Some?
    ensures SlashFree(Domain(key).value) && Domain(key).value + "/" <= key
  {
    if key[0] != '/' {
      DomainCuts(key[1..]);
    }
  }

  /** The domain itself, or one beneath it. */
  ghost predicate InDomain(domain: string, denied: string) {
    domain == denied || exists sub: string :: domain == sub + ("." + denied)
  }

  /** A key is refused when it is listed, or when what precedes its first slash is a denied domain or
      a domain beneath one. */
  lemma DeniedKeyMeans(key: string, t: Tables)
    ensures IsDeniedMetadataKey(key, t) <==>
            || key in t.deniedKeys
            || exists domain, d ::
                 SlashFree(domain) && domain + "/" <= key && d in t.deniedDomains && InDomain(domain, d)
  {
    if Domain(key).Some? {
      DomainCuts(key);
    }
    forall d ensures Domain(key).Some? && HasSuffix(Domain(key).value, "." + d) ==> InDomain(Domain(key).value, d) {
      if Domain(key).Some? && HasSuffix(Domain(key).value, "." + d) {
        var domain := Domain(key).value;
        assert domain == domain[..|domain| - |d| - 1] + ("." + d);
      }
    }
    forall domain, d | SlashFree(domain) && domain + "/" <= key && d in t.deniedDomains && InDomain(domain, d)
      ensures IsDeniedMetadataKey(key, t)
    {
      assert key == domain + "/" + key[|domain| + 1..];
      DomainIs(domain, key[|domain| + 1..]);
      assert Domain(key) == Some(domain);
      if domain != d {
        var sub: string :| domain == sub + ("." + d);
        assert domain[|domain| - |d| - 1..] == "." + d;
      }
    }
  }

  /** The denylist removed from a tree, one entry after another. */
  function Without(v: JSON, paths: seq<Path>): (w: JSON)
    requires v.Obj?
    ensures w.Obj?
    decreases |paths|
  {
    if paths == [] then v else Without(DeleteAt(v, paths[0]), paths[1..])
  }

  /** After ApplyDenylist nothing is left at or beneath a denied path, and what no denied path
      touches reads as before. */
  lemma {:induction false} WithoutEffect(v: JSON, paths: seq<Path>, q: Path)
    requires v.Obj?
    ensures (exists p :: p in paths && p != [] && p <= q) ==> At(Without(v, paths), q) == None
    ensures (forall p :: p in paths ==> !Comparable(p, q)) ==> At(Without(v, paths), q) == At(v, q)
    decreases |paths|
  {
    if paths != [] {
      var w := DeleteAt(v, paths[0]);
      assert paths == [paths[0]] + paths[1..];
      WithoutEffect(w, paths[1..], q);
      if paths[0] != [] {
        DeleteAtEffect(v, paths[0], q);
      }
      if At(w, q) == None {
        WithoutAddsNothing(w, paths[1..], q);
      }
    }
  }

  lemma {:induction false} DeleteAddsNothing(v: JSON, p: Path, q: Path)
    requires v.Obj? && At(v, q) == None
    ensures At(DeleteAt(v, p), q) == None
    decreases |p|
  {
    if |p| > 1 && q != [] && q[0] == p[0] && p[0] in v.fields && v.fields[p[0]].Obj? {
      DeleteAddsNothing(v.fields[p[0]], p[1..], q[1..]);
    }
  }

  lemma {:induction false} WithoutAddsNothing(v: JSON, paths: seq<Path>, q: Path)
    requires v.Obj? && At(v, q) == None
    ensures At(Without(v, paths), q) == None
    decreases |paths|
  {
    if paths != [] {
      DeleteAddsNothing(v, paths[0], q);
      WithoutAddsNothing(DeleteAt(v, paths[0]), paths[1..], q);
    }
  }

  /** Removes every denied path from the object, in place. */
  method ApplyDenylist(target: Docs.Document, paths: seq<Path>)
    requires target.Valid()
    modifies target, target.view.nodes
    ensures target.Valid() && target.view.nodes == old(target.view.nodes)
    ensures target.view.tree == Without(old(target.view.tree), paths)
  {
    ghost var orig, rest := target.view.tree, paths;
    var i := 0;
    while i < |paths|
      invariant 0 <= i <= |paths| && rest == paths[i..]
      invariant target.Valid() && target.view.nodes == old(target.view.nodes)
      invariant Without(target.view.tree, rest) == Without(orig, paths)
    {
      assert rest[1..] == paths[i + 1..];
      target.Delete(paths[i]);
      rest := rest[1..];
      i := i + 1;
    }
  }

  /** The labels or annotations a capture keeps; no survivors and no input are both nil. */
  function KeptMetadata(keys: map<string, string>, t: Tables): map<string, string> {
    map k | k in keys && !IsDeniedMetadataKey(k, t) :: keys[k]
  }

  method FilterMetadata(keys: map<string, string>, t: Tables) returns (out: map<string, string>)
    ensures out == KeptMetadata(keys, t)
  {
    out := map[];
    var rest := keys.Keys;
    while rest != {}
      invariant rest <= keys.Keys
      invariant out == map k | k in keys && k !in rest && !IsDeniedMetadataKey(k, t) :: keys[k]
    {
      var k :| k in rest;
      rest := rest - {k};
      if !IsDeniedMetadataKey(k, t) {
        out := out[k := keys[k]];
      }
    }
  }

  /** The parameters CloudNativePG does not fix itself. */
  function KeptParameters(parameters: map<string, JSON>, fixedNames: set<string>): map<string, JSON> {
    map k | k in parameters && k !in fixedNames :: parameters[k]
  }

  method FilterGUCs(parameters: map<string, JSON>, fixedNames: set<string>) returns (out: map<string, JSON>)
    ensures out == KeptParameters(parameters, fixedNames)
  {
    out := map[];
    var rest := parameters.Keys;
    while rest != {}
      invariant rest <= parameters.Keys
      invariant out == map k | k in parameters && k !in rest && k !in fixedNames :: parameters[k]
    {
      var k :| k in rest;
      rest := rest - {k};
      if k !in fixedNames {
        out := out[k := parameters[k]];
      }
    }
  }

  predicate IsManaged(library: JSON, managed: set<string>) {
    library.Str? && library.text in managed
  }

  /** The preload libraries CloudNativePG does not inject itself, in their order. */
  function KeptLibraries(libraries: seq<JSON>, managed: set<string>): seq<JSON> {
    if libraries == [] then []
    else (if IsManaged(libraries[0], managed) then [] else [libraries[0]]) + KeptLibraries(libraries[1..], managed)
  }

  /** Which entries are kept, in their order: just those that no managed library's name is. */
  ghost predicate Picks(libraries: seq<JSON>, kept: seq<JSON>, at: seq<nat>, managed: set<string>) {
    && |at| == |kept|
    && (forall i, j :: 0 <= i < j < |at| ==> at[i] < at[j])
    && (forall i :: 0 <= i < |at| ==> at[i] < |libraries| && kept[i] == libraries[at[i]])
    && (forall n :: 0 <= n < |libraries| ==> (n in at <==> !(libraries[n].Str? && libraries[n].text in managed)))
  }

  lemma {:induction false} KeptLibrariesPick(libraries: seq<JSON>, managed: set<string>) returns (at: seq<nat>)
    ensures Picks(libraries, KeptLibraries(libraries, managed), at, managed)
  {
    if libraries == [] {
      return [];
    }
    var n := |libraries| - 1;
    var front, last := libraries[..n], libraries[n];
    assert libraries == front + [last];
    KeptLibrariesConcat(front, [last], managed);
    at := KeptLibrariesPick(front, managed);
    if !IsManaged(last, managed) {
      at := at + [n];
    }
  }

  lemma {:induction false} KeptLibrariesCount(libraries: seq<JSON>, managed: set<string>, x: JSON)
    ensures multiset(KeptLibraries(libraries, managed))[x] ==
            if x.Str? && x.text in managed then 0 else multiset(libraries)[x]
  {
    if libraries != [] {
      KeptLibrariesCount(libraries[1..], managed, x);
      assert libraries == [libraries[0]] + libraries[1..];
    }
  }

  lemma {:induction false} KeptLibrariesConcat(a: seq<JSON>, b: seq<JSON>, managed: set<string>)
    ensures KeptLibraries(a + b, managed) == KeptLibraries(a, managed) + KeptLibraries(b, managed)
  {
    if a == [] {
      assert a + b == b;
    } else {
      assert (a + b)[1..] == a[1..] + b;
      KeptLibrariesConcat(a[1..], b, managed);
    }
  }

  lemma {:induction false} KeptLibrariesIdempotent(libraries: seq<JSON>, managed: set<string>)
    ensures KeptLibraries(KeptLibraries(libraries, managed), managed) == KeptLibraries(libraries, managed)
  {
    if libraries != [] {
      KeptLibrariesIdempotent(libraries[1..], managed);
      var head := if IsManaged(libraries[0], managed) then [] else [libraries[0]];
      KeptLibrariesConcat(head, KeptLibraries(libraries[1..], managed), managed);
    }
  }

  method FilterSharedPreloadLibraries(libraries: seq<JSON>, managed: set<string>) returns (out: seq<JSON>)
    ensures out == KeptLibraries(libraries, managed)
  {
    out := [];
    var i := 0;
    while i < |libraries|
      invariant 0 <= i <= |libraries|
      invariant out == KeptLibraries(libraries[..i], managed)
    {
      assert libraries[..i + 1] == libraries[..i] + [libraries[i]];
      KeptLibrariesConcat(libraries[..i], [libraries[i]], managed);
      if !IsManaged(libraries[i], managed) {
        out := out + [libraries[i]];
      }
      i := i + 1;
    }
    assert libraries[..i] == libraries;
  }
}
