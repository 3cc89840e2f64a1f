/** What the digests of internal/snapshot/canonical.go cover. The digests are compared and
    never read, so the model compares what they cover: it takes SHA-256 to be injective. */
module Fingerprints {
  import opened JsonTree
  import opened Order
  import opened Groups
  import opened Denylist
  import opened Snapshot
  import opened Extraction

  /** CaptureRulesDigest: everything that decides what a capture of these groups produces. */
  datatype CaptureRules = CaptureRules(
    groups: map<string, seq<string>>,
    deniedPaths: seq<Path>,
    deniedDomains: seq<string>,
    deniedKeys: seq<string>,
    fixedParameters: set<string>,
    managedLibraries: set<string>)

  function GroupFields(name: string, table: seq<Group>): seq<string> {
    match LookupGroup(name, table)
    case Some(g) => g.fields
    case None => []
  }

  function CaptureRulesOf(names: seq<string>, t: Tables): CaptureRules {
    CaptureRules(
      map name | name in names :: GroupFields(name, t.groups),
      t.deniedPaths, t.deniedDomains, t.deniedKeys, t.fixedParameters, t.managedLibraries)
  }

  /** MetadataFingerprint */
  datatype Fingerprint = Fingerprint(
    labels: map<string, string>,
    annotations: map<string, string>,
    captureGroups: seq<string>,
    captureRules: CaptureRules)

  function FingerprintOf(
    labels: map<string, string>, annotations: map<string, string>, names: seq<string>, rules: CaptureRules, t: Tables)
    : Fingerprint
  {
    var kept := METADATA_GROUP in names;
    Fingerprint(
      KeptMetadata(if kept then labels else map[], t),
      KeptMetadata(if kept then annotations else map[], t),
      SortStrings(names),
      rules)
  }

  /** The fingerprint of a cluster as it stands. */
  function LiveFingerprint(cluster: JSON, names: seq<string>, t: Tables): Fingerprint {
    FingerprintOf(Labels(cluster), Annotations(cluster), names, CaptureRulesOf(names, t), t)
  }

  /** Fingerprint agreement: a cluster's fingerprint is the one recomputed from what a capture
      of it records, whatever the order and repetition of the configured groups. */
  lemma FingerprintAgrees(cluster: JSON, names: seq<string>, t: Tables)
    ensures var content := Extracted(cluster, names, t);
            FingerprintOf(content.labels, content.annotations, names, CaptureRulesOf(names, t), t)
            == LiveFingerprint(cluster, names, t)
  {
    KeptMetadataIdempotent(Labels(cluster), t);
    KeptMetadataIdempotent(Annotations(cluster), t);
  }

  /** Reordering the configured groups is not a change. */
  lemma ReorderedGroupsSameFingerprint(cluster: JSON, names: seq<string>, others: seq<string>, t: Tables)
    requires multiset(names) == multiset(others)
    ensures LiveFingerprint(cluster, names, t) == LiveFingerprint(cluster, others, t)
  {
    SortStringsCanonical(names, others);
    forall name ensures name in names <==> name in others {
      SameSortedSameNames(names, others, name);
    }
    assert CaptureRulesOf(names, t).groups == CaptureRulesOf(others, t).groups;
  }

  lemma SameSortedSameNames(a: seq<string>, b: seq<string>, name: string)
    requires SortStrings(a) == SortStrings(b)
    ensures name in a <==> name in b
  {
    SortStringsSorts(a);
    SortStringsSorts(b);
    assert name in a <==> name in multiset(a);
    assert name in b <==> name in multiset(b);
  }

  lemma FieldsFromRules(names: seq<string>, t: Tables, f: string)
    ensures f in FieldsOf(names, t.groups) <==>
            exists name :: name in names && f in CaptureRulesOf(names, t).groups[name]
  {
    var rules := CaptureRulesOf(names, t);
    if f in FieldsOf(names, t.groups) {
      var name :| name in names && LookupGroup(name, t.groups).Some? && f in LookupGroup(name, t.groups).value.fields;
      assert f in rules.groups[name];
    }
    if name: string :| name in names && f in rules.groups[name] {
      assert LookupGroup(name, t.groups).Some?;
    }
  }

  /** The rules say which groups they are about. */
  lemma SameRulesSameFields(namesA: seq<string>, namesB: seq<string>, ta: Tables, tb: Tables)
    requires CaptureRulesOf(namesA, ta) == CaptureRulesOf(namesB, tb)
    ensures FieldsOf(namesA, ta.groups) == FieldsOf(namesB, tb.groups)
    ensures forall name :: name in namesA <==> name in namesB
  {
    forall name ensures name in namesA <==> name in namesB {
      assert name in namesA <==> name in CaptureRulesOf(namesA, ta).groups;
      assert name in namesB <==> name in CaptureRulesOf(namesB, tb).groups;
    }
    forall f ensures f in FieldsOf(namesA, ta.groups) <==> f in FieldsOf(namesB, tb.groups) {
      FieldsFromRules(namesA, ta, f);
      FieldsFromRules(namesB, tb, f);
    }
  }

  lemma SameFilters(a: JSON, b: JSON, fields: set<string>, ta: Tables, tb: Tables)
    requires forall f :: At(a, ["spec", f]) == At(b, ["spec", f])
    requires ta.fixedParameters == tb.fixedParameters && ta.managedLibraries == tb.managedLibraries
    ensures Clean(Captured(a, fields), ta) == Clean(Captured(b, fields), tb)
  {
    assert Captured(a, fields) == Captured(b, fields);
  }

  /** Under one set of capture rules one spec gives one captured spec, and the captured labels
      and annotations are those of the fingerprint. */
  lemma SameRulesSameSpec(a: JSON, b: JSON, namesA: seq<string>, namesB: seq<string>, ta: Tables, tb: Tables)
    requires forall f :: At(a, ["spec", f]) == At(b, ["spec", f])
    requires CaptureRulesOf(namesA, ta) == CaptureRulesOf(namesB, tb)
    ensures var live := LiveFingerprint(b, namesB, tb);
            Extracted(b, namesB, tb) == Content(Extracted(a, namesA, ta).spec, live.labels, live.annotations)
  {
    SameRulesSameFields(namesA, namesB, ta, tb);
    assert ta.fixedParameters == CaptureRulesOf(namesA, ta).fixedParameters;
    assert ta.managedLibraries == CaptureRulesOf(namesA, ta).managedLibraries;
    SameFilters(a, b, FieldsOf(namesA, ta.groups), ta, tb);
  }

  /** Two captures of one spec under one fingerprint record the same content: between the
      fingerprint and the spec, nothing a capture depends on is missed. */
  lemma FingerprintDecides(a: JSON, b: JSON, namesA: seq<string>, namesB: seq<string>, ta: Tables, tb: Tables)
    requires forall f :: At(a, ["spec", f]) == At(b, ["spec", f])
    requires LiveFingerprint(a, namesA, ta) == LiveFingerprint(b, namesB, tb)
    ensures Extracted(a, namesA, ta) == Extracted(b, namesB, tb)
  {
    assert LiveFingerprint(a, namesA, ta).captureRules == LiveFingerprint(b, namesB, tb).captureRules;
    SameRulesSameSpec(a, b, namesA, namesB, ta, tb);
    SameRulesSameSpec(a, a, namesA, namesA, ta, ta);
  }
}
