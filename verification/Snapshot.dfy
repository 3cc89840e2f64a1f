/** What a capture records, and the generic view of the cluster it reads. */
module Snapshot {
  import opened Wrappers
  import opened JsonTree
  import opened LeafMerge

  /** The part of a snapshot that describes configuration, and all the checksum covers.
      An empty map stands for a field the document leaves out. */
  datatype Content = Content(spec: map<string, JSON>, labels: map<string, string>, annotations: map<string, string>)

  /** String values of an object in its generic form, as labels and annotations decode. */
  function StringsAt(v: JSON, p: Path): map<string, string> {
    match At(v, p)
    case Some(Obj(fields)) => map k | k in fields && fields[k].Str? :: fields[k].text
    case _ => map[]
  }

  function Labels(cluster: JSON): map<string, string> {
    StringsAt(cluster, ["metadata", "labels"])
  }

  function Annotations(cluster: JSON): map<string, string> {
    StringsAt(cluster, ["metadata", "annotations"])
  }

  function ToAnyMap(strings: map<string, string>): JSON {
    Obj(map k | k in strings :: Str(strings[k]))
  }

  function Metadata(content: Content): map<string, JSON> {
    (if content.labels == map[] then map[] else map["labels" := ToAnyMap(content.labels)])
    + (if content.annotations == map[] then map[] else map["annotations" := ToAnyMap(content.annotations)])
  }

  /** A snapshot put back into the shape of a Cluster. */
  function RestorableTree(content: Content): JSON {
    Obj((if content.spec == map[] then map[] else map["spec" := Obj(content.spec)])
        + (if Metadata(content) == map[] then map[] else map["metadata" := Obj(Metadata(content))]))
  }

  /** A shape only the capture rules can give: every way spec and metadata appear is non-empty. */
  lemma RestorableTreeAt(content: Content)
    ensures At(RestorableTree(content), ["spec"]) == if content.spec == map[] then None else Some(Obj(content.spec))
    ensures ObjAt(RestorableTree(content), ["metadata"]) ==>
              At(RestorableTree(content), ["metadata"]).value.fields != map[]
    ensures Labels(RestorableTree(content)) == content.labels
    ensures Annotations(RestorableTree(content)) == content.annotations
  {
    var t := RestorableTree(content);
    var m := Metadata(content);
    assert At(t, ["spec"]) == if "spec" in t.fields then Some(t.fields["spec"]) else None;
    assert At(t, ["metadata"]) == if "metadata" in t.fields then Some(t.fields["metadata"]) else None;
    MetadataAt(content, "labels");
    MetadataAt(content, "annotations");
  }

  lemma MetadataAt(content: Content, key: string)
    ensures At(RestorableTree(content), ["metadata", key]) ==
            if key in Metadata(content) then Some(Metadata(content)[key]) else None
  {
    AtConcat(RestorableTree(content), ["metadata"], [key]);
    assert ["metadata"] + [key] == ["metadata", key];
  }

  /** The leaves of a restorable tree: fields of the spec, labels and annotations. In
      particular neither "spec" nor anything of metadata but its keys is ever a leaf. */
  lemma LeafForms(content: Content, l: Leaf)
    requires IsLeaf(RestorableTree(content), l)
    ensures |l.segments| >= 2
    ensures l.segments[0] == "spec" ==>
              At(Obj(content.spec), l.segments[1..]) == Some(l.value) && l.segments[1] in content.spec
    ensures l.segments[0] != "spec" ==>
              && l.segments[0] == "metadata" && |l.segments| == 3
              && (l.segments[1] == "labels" || l.segments[1] == "annotations")
              && (l.segments[1] == "labels" ==>
                    l.segments[2] in content.labels && l.value == Str(content.labels[l.segments[2]]))
              && (l.segments[1] == "annotations" ==>
                    l.segments[2] in content.annotations && l.value == Str(content.annotations[l.segments[2]]))
  {
    var t, p := RestorableTree(content), l.segments;
    RestorableTreeAt(content);
    assert p == [p[0]] + p[1..];
    AtConcat(t, [p[0]], p[1..]);
    AtStep(t, [], p[0]);
    assert [] + [p[0]] == [p[0]];
    var first := [p[0]];
    assert p[1..] == [] ==> p == first;
    if p[0] != "spec" {
      assert p[0] == "metadata" && ObjAt(t, ["metadata"]);
      assert !IsTerminal(At(t, ["metadata"]).value);
      if p[1..] != [] {
        MetadataLeaf(content, l);
      }
    }
  }

  lemma MetadataLeaf(content: Content, l: Leaf)
    requires IsLeaf(RestorableTree(content), l) && |l.segments| >= 2 && l.segments[0] == "metadata"
    ensures |l.segments| == 3
    ensures l.segments[1] == "labels" || l.segments[1] == "annotations"
    ensures l.segments[1] == "labels" ==>
              l.segments[2] in content.labels && l.value == Str(content.labels[l.segments[2]])
    ensures l.segments[1] == "annotations" ==>
              l.segments[2] in content.annotations && l.value == Str(content.annotations[l.segments[2]])
  {
    var t, p := RestorableTree(content), l.segments;
    MetadataAt(content, p[1]);
    assert p == ["metadata", p[1]] + p[2..];
    AtConcat(t, ["metadata", p[1]], p[2..]);
    var keys := if p[1] == "labels" then content.labels else content.annotations;
    assert Metadata(content)[p[1]] == ToAnyMap(keys);
    assert At(ToAnyMap(keys), p[2..]) == Some(l.value);
    var k :| k in keys;
    assert k in ToAnyMap(keys).fields;
    var beneath := p[2..];
    assert |p| == 2 ==> beneath == [];
    if |p| > 2 {
      assert p[2..][0] == p[2] && p[2..][1..] == p[3..];
      assert At(Str(keys[p[2]]), p[3..]) == Some(l.value);
    }
  }
}
