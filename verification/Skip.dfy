/** Skip rules: internal/restore/skip.go, and what they mean in whole segments. */
module Skip {
  import opened Wrappers
  import opened JsonTree
  import opened LeafMerge
  import opened Text
  import opened Groups
  import opened Denylist
  import opened Schema
  import opened Snapshot
  import opened PathCheck

  /** A rule as written; an empty string or list is a field left out. */
  datatype SkipRule = SkipRule(group: string, path: string, keyPrefix: string, exceptKeys: seq<string>) {
    predicate Keyed() {
      keyPrefix != "" || exceptKeys != []
    }
  }

  /** A compiled rule. `exact` is set for a key inside a map, `keyed` for a map narrowed to
      some of its keys. */
  datatype Compiled = Compiled(path: string, exact: bool, keyed: bool, keyPrefix: string, exceptKeys: seq<string>) {
    predicate Matches(p: string) {
      if keyed then
        CutPrefix(p, path + ".").Some? &&
        var key := CutPrefix(p, path + ".").value;
        keyPrefix <= key && key !in exceptKeys
      else if exact then p == path
      else Covers(path, p)
    }
  }

  datatype SkipError = GroupAndPath | KeyedGroup | UnknownGroup | NotAMap | Neither

  type SkipSet = seq<Compiled>

  function Plain(path: string): Compiled {
    Compiled(path, false, false, "", [])
  }

  function PlainRules(paths: seq<Path>): (rules: seq<Compiled>)
    ensures |rules| == |paths|
    ensures forall i :: 0 <= i < |paths| ==> rules[i] == Plain(Join(paths[i]))
  {
    seq(|paths|, i requires 0 <= i < |paths| => Plain(Join(paths[i])))
  }

  const METADATA_MAPS: seq<Path> := [["metadata", "labels"], ["metadata", "annotations"]]

  function CompilePathRule(schema: Ty, rule: SkipRule): Result<Compiled, SkipError> {
    var path := TrimStar(rule.path);
    var enclosing := EnclosingMap(schema, path);
    if rule.Keyed() && !NamesMap(schema, path) then Err(NotAMap)
    else Ok(Compiled(path, enclosing.Some? && path != enclosing.value, rule.Keyed(), rule.keyPrefix, rule.exceptKeys))
  }

  /** One iteration of NewSkipSet. */
  function CompileRule(schema: Ty, t: Tables, rule: SkipRule): Result<seq<Compiled>, SkipError> {
    if rule.group != "" && rule.path != "" then Err(GroupAndPath)
    else if rule.group != "" && rule.Keyed() then Err(KeyedGroup)
    else if rule.group != "" then
      match LookupGroup(rule.group, t.groups)
      case None => Err(UnknownGroup)
      case Some(g) => Ok(PlainRules(g.Paths()) + if g.name == METADATA_GROUP then PlainRules(METADATA_MAPS) else [])
    else if rule.path != "" then
      match CompilePathRule(schema, rule)
      case Err(e) => Err(e)
      case Ok(c) => Ok([c])
    else Err(Neither)
  }

  ghost predicate Compiles(schema: Ty, t: Tables, rules: seq<SkipRule>) {
    forall i :: 0 <= i < |rules| ==> CompileRule(schema, t, rules[i]).Ok?
  }

  ghost predicate FromRule(schema: Ty, t: Tables, rule: SkipRule, c: Compiled) {
    CompileRule(schema, t, rule).Ok? && c in CompileRule(schema, t, rule).value
  }

  /** c is compiled from one of the rules. */
  ghost predicate FromRules(schema: Ty, t: Tables, rules: seq<SkipRule>, c: Compiled) {
    exists rule :: rule in rules && FromRule(schema, t, rule, c)
  }

  method NewSkipSet(schema: Ty, t: Tables, rules: seq<SkipRule>) returns (r: Result<SkipSet, SkipError>)
    ensures r.Ok? <==> Compiles(schema, t, rules)
    ensures r.Ok? ==> forall c :: c in r.value <==> FromRules(schema, t, rules, c)
  {
    var compiled: SkipSet := [];
    var i := 0;
    while i < |rules|
      invariant 0 <= i <= |rules| && Compiles(schema, t, rules[..i])
      invariant forall c :: c in compiled <==> FromRules(schema, t, rules[..i], c)
    {
      match CompileRule(schema, t, rules[i]) {
        case Err(e) =>
          return Err(e);
        case Ok(more) =>
          FromRulesStep(schema, t, rules, i);
          assert forall c :: FromRule(schema, t, rules[i], c) <==> c in more;
          compiled := compiled + more;
      }
      i := i + 1;
    }
    assert rules[..i] == rules;
    r := Ok(compiled);
  }

  lemma FromRulesStep(schema: Ty, t: Tables, rules: seq<SkipRule>, i: nat)
    requires i < |rules|
    ensures forall c :: FromRules(schema, t, rules[..i + 1], c) <==>
              FromRules(schema, t, rules[..i], c) || FromRule(schema, t, rules[i], c)
  {
    assert rules[..i + 1] == rules[..i] + [rules[i]];
    assert forall rule :: rule in rules[..i + 1] <==> rule in rules[..i] || rule == rules[i];
  }

  predicate Skips(rules: SkipSet, path: string) {
    exists c | c in rules :: c.Matches(path)
  }

  /** What a person means by a rule: whole segments. A path removes itself and what is beneath
      it; a path into a map removes the one key, dots and all; a narrowed map removes the keys
      with the prefix that are not excepted; a group removes its fields. */
  ghost predicate Removes(schema: Ty, t: Tables, rule: SkipRule, p: Path) {
    if rule.group != "" then
      LookupGroup(rule.group, t.groups).Some? &&
      var g := LookupGroup(rule.group, t.groups).value;
      || (exists f :: f in g.fields && ["spec", f] <= p)
      || (g.name == METADATA_GROUP && exists m :: m in METADATA_MAPS && m <= p)
    else
      var path := TrimStar(rule.path);
      var enclosing := EnclosingMap(schema, path);
      if rule.Keyed() then
        |p| > 0 && p[..|p| - 1] == Split(path) && rule.keyPrefix <= p[|p| - 1] && p[|p| - 1] !in rule.exceptKeys
      else if enclosing.Some? && enclosing.value != path then
        p == Split(enclosing.value) + [path[|enclosing.value| + 1..]]
      else Split(path) <= p
  }

  /** Which dotted paths name a map. */
  type MapNames = string -> bool

  function MapsOf(schema: Ty): MapNames {
    (path: string) => NamesMap(schema, path)
  }

  /** Anatomy for a whole path of a cluster: dot-free field names that end at no map before
      position n, then perhaps one map key. */
  ghost predicate LeafAnatomy(maps: MapNames, p: Path, n: nat) {
    && 0 < n <= |p| <= n + 1
    && AllDotFree(p[..n])
    && (n < |p| ==> maps(Join(p[..n])))
    && (forall j {:trigger NoMapAt(maps, p, j)} :: 0 < j < n ==> NoMapAt(maps, p, j))
  }

  ghost predicate NoMapAt(maps: MapNames, p: Path, j: nat) {
    j <= |p| ==> !maps(Join(p[..j]))
  }

  /** No path that names a map lies beneath another. */
  ghost predicate Unnested(maps: MapNames) {
    forall a, b {:trigger Apart(maps, a, b)} :: Apart(maps, a, b)
  }

  ghost predicate Apart(maps: MapNames, a: string, b: string) {
    maps(a) && a + "." <= b ==> !maps(b)
  }

  lemma NamesMapOfSpec(schema: Ty, p: Path)
    requires AllDotFree(p) && p != []
    ensures NamesMap(schema, Join(["spec"] + p)) == NamesMapFrom(schema, p)
  {
    var path := Join(["spec"] + p);
    assert (["spec"] + p)[1..] == p;
    assert path == "spec" + "." + Join(p) == "spec." + Join(p);
    SplitJoin(p);
    assert CutPrefix(path, "spec.") == Some(Join(p));
    assert path[0] == 's';
  }

  lemma SpecAnatomy(schema: Ty, spec: JSON, p: Path) returns (n: nat)
    requires schema.Struct? && DotFreeNames(schema) && FlatMaps(schema) && Transparent(schema)
    requires Conforms(spec, schema) && p != [] && At(spec, p).Some?
    ensures LeafAnatomy(MapsOf(schema), ["spec"] + p, n)
  {
    var m := TypeAnatomy(spec, schema, p);
    n := m + 1;
    var full := ["spec"] + p;
    assert full[..n] == ["spec"] + p[..m];
    assert DotFree("spec");
    if n < |full| {
      assert m > 0;
      NamesMapOfSpec(schema, p[..m]);
    }
    forall j | 0 < j < n ensures NoMapAt(MapsOf(schema), full, j) {
      assert full[..j] == ["spec"] + p[..j - 1];
      if j == 1 {
        assert full[..j] == ["spec"];
      } else {
        assert AllDotFree(p[..m][..j - 1]) && p[..m][..j - 1] == p[..j - 1];
        NamesMapOfSpec(schema, p[..j - 1]);
      }
    }
  }

  lemma MetadataAnatomy(schema: Ty, p: Path)
    requires |p| == 3 && p[0] == "metadata" && (p[1] == "labels" || p[1] == "annotations")
    ensures LeafAnatomy(MapsOf(schema), p, 2)
  {
    assert p[..2] == ["metadata", p[1]] && p[..1] == ["metadata"];
    assert DotFree("metadata") && DotFree("labels") && DotFree("annotations");
    assert p[..2][1..] == [p[1]];
    assert Join(p[..2]) == "metadata" + "." + p[1];
    assert "metadata" + "." + "labels" == "metadata.labels";
    assert "metadata" + "." + "annotations" == "metadata.annotations";
    assert Join(p[..1]) == "metadata" && "metadata"[0] != "spec."[0];
    assert !NamesMap(schema, Join(p[..1]));
  }

  lemma LeafHasAnatomy(schema: Ty, t: Tables, content: Content, l: Leaf) returns (n: nat)
    requires ContentConforms(schema, t, content) && FlatMaps(schema) && Transparent(schema)
    requires IsLeaf(RestorableTree(content), l)
    ensures LeafAnatomy(MapsOf(schema), l.segments, n)
  {
    LeafForms(content, l);
    if l.segments[0] == "spec" {
      n := SpecAnatomy(schema, Obj(content.spec), l.segments[1..]);
      assert ["spec"] + l.segments[1..] == l.segments;
    } else {
      MetadataAnatomy(schema, l.segments);
      n := 2;
    }
  }

  /** No map lies beneath a map. */
  lemma {:induction false} MapsDoNotNestFrom(t: Ty, p: Path, q: Path)
    requires NamesMapFrom(t, p) && q != []
    ensures !NamesMapFrom(t, p + q)
    decreases |p|
  {
    if p == [] {
      assert p + q == q;
      ThroughPointersIsElem(t);
    } else {
      assert (p + q)[1..] == p[1..] + q;
      MapsDoNotNestFrom(FieldByJSONName(ElemType(t), p[0]).value, p[1..], q);
    }
  }

  lemma {:induction false} ThroughPointersIsElem(t: Ty)
    requires ThroughPointers(t).MapOf?
    ensures ElemType(t) == ThroughPointers(t)
    decreases t
  {
    if t.Pointer? {
      ThroughPointersIsElem(t.elem);
    }
  }

  lemma {:induction false} SplitConcat(a: string, b: string)
    ensures Split(a + "." + b) == Split(a) + Split(b)
    decreases |a|
  {
    if DotFree(a) {
      SplitStep(a, b);
    } else {
      var i := FirstDot(a);
      var tail := a[i + 1..];
      assert a == a[..i] + "." + tail;
      assert a + "." + b == a[..i] + "." + (tail + "." + b);
      SplitStep(a[..i], tail + "." + b);
      SplitConcat(tail, b);
    }
  }

  lemma MapsDoNotNest(schema: Ty, a: string, b: string)
    requires NamesMap(schema, a) && a + "." <= b
    ensures !NamesMap(schema, b)
  {
    assert b[..|a|] == a;
    if "spec." <= a {
      var x, y := a[5..], b[|a| + 1..];
      assert a[0] == 's' && b[0] == 's';
      assert b[5..] == x + "." + y;
      SplitConcat(x, y);
      MapsDoNotNestFrom(schema, Split(x), Split(y));
    } else {
      assert a[0] == b[0] && a[9] == b[9];
      assert "metadata.labels"[9] != "metadata.annotations"[9] && "metadata.labels"[0] != "spec."[0];
    }
  }

  lemma MapsUnnested(schema: Ty)
    ensures Unnested(MapsOf(schema))
  {
    forall a, b ensures Apart(MapsOf(schema), a, b) {
      if NamesMap(schema, a) && a + "." <= b {
        MapsDoNotNest(schema, a, b);
      }
    }
  }

  /** A cut within the dot-free part is one of its leading pieces. */
  lemma CutOfHead(p: Path, n: nat, m: string) returns (j: nat)
    requires 0 < n <= |p| && AllDotFree(p[..n]) && Covers(m, Join(p[..n]))
    ensures 0 < j <= n && m == Join(p[..j]) && Split(m) == p[..j]
  {
    j := CutOfDotFree(m, p[..n]);
    var head := p[..n][..j];
    assert forall k :: k in head ==> k in p[..n];
    assert head == p[..j];
    SplitJoin(head);
  }

  /** A cut of a conforming path that names a map is where the path's own map stands: what
      follows it is one whole key. */
  lemma MapCut(maps: MapNames, p: Path, n: nat, m: string)
    requires Unnested(maps) && LeafAnatomy(maps, p, n) && maps(m) && m + "." <= Join(p)
    ensures |p| == n + 1 && Split(m) == p[..n] && p == Split(m) + [p[n]] && Join(p) == m + "." + p[n]
  {
    var path, head, last := Join(p), Join(p[..n]), p[n..];
    JoinPrefix(p[..n], p);
    assert p == p[..n] + last;
    assert last == [] ==> p[..n] == p;
    assert Apart(maps, head, m);
    if |m| <= |head| {
      CutsComparable(m, head, path);
      var j := CutOfHead(p, n, m);
      assert j < n ==> NoMapAt(maps, p, j);
      if last != [] {
        JoinConcat(p[..n], last);
        assert last == [p[n]];
      }
    } else {
      CutsComparable(head, m, path);
    }
  }

  lemma MapKeyPath(m: string, key: string)
    ensures Join(Split(m) + [key]) == m + "." + key
  {
    JoinSplit(m);
    JoinConcat(Split(m), [key]);
  }

  lemma AfterDot(path: string, m: string, key: string)
    requires path == m + "." + key
    ensures m + "." <= path && path[|m| + 1..] == key
  {
  }

  lemma KeyOfMap(p: Path, m: string)
    requires p != [] && p[..|p| - 1] == Split(m)
    ensures m + "." <= Join(p)
  {
    assert p == Split(m) + [p[|p| - 1]];
    MapKeyPath(m, p[|p| - 1]);
    AfterDot(Join(p), m, p[|p| - 1]);
  }

  lemma KeyCut(maps: MapNames, p: Path, n: nat, m: string)
    requires Unnested(maps) && LeafAnatomy(maps, p, n) && maps(m) && m + "." <= Join(p)
    ensures p[..|p| - 1] == Split(m) && Join(p)[|m| + 1..] == p[|p| - 1]
  {
    MapCut(maps, p, n, m);
    AfterDot(Join(p), m, p[n]);
  }

  lemma KeyBeneath(maps: MapNames, p: Path, n: nat, m: string)
    requires Unnested(maps) && LeafAnatomy(maps, p, n) && maps(m) && p != []
    ensures p[..|p| - 1] == Split(m) <==> m + "." <= Join(p)
    ensures m + "." <= Join(p) ==> Join(p)[|m| + 1..] == p[|p| - 1]
  {
    if p[..|p| - 1] == Split(m) {
      KeyOfMap(p, m);
    }
    if m + "." <= Join(p) {
      KeyCut(maps, p, n, m);
    }
  }

  /** Matching a map's keys by the text after its path is matching whole keys. */
  lemma KeyedMeans(maps: MapNames, p: Path, n: nat, c: Compiled)
    requires Unnested(maps) && LeafAnatomy(maps, p, n) && c.keyed && maps(c.path)
    ensures c.Matches(Join(p)) <==>
            p[..|p| - 1] == Split(c.path) && c.keyPrefix <= p[|p| - 1] && p[|p| - 1] !in c.exceptKeys
  {
    KeyBeneath(maps, p, n, c.path);
  }

  lemma ExactMeans(maps: MapNames, p: Path, n: nat, m: string, path: string)
    requires Unnested(maps) && LeafAnatomy(maps, p, n) && maps(m) && m + "." <= path
    ensures Join(p) == path <==> p == Split(m) + [path[|m| + 1..]]
  {
    var key := path[|m| + 1..];
    assert path == m + "." + key;
    MapKeyPath(m, key);
    if Join(p) == path {
      MapCut(maps, p, n, m);
      assert path[|m| + 1..] == p[n];
    }
  }

  lemma PrefixCovers(p: Path, r: string)
    requires p != [] && Split(r) <= p
    ensures Covers(r, Join(p))
  {
    JoinSplit(r);
    JoinPrefix(Split(r), p);
  }

  lemma CutPastHead(head: string, r: string, path: string)
    requires Covers(head, path) && Covers(r, path) && |head| < |r|
    ensures r[..|head|] == head && r[|head|] == '.'
  {
    CutsComparable(head, r, path);
    assert r[|head|] == (head + ".")[|head|];
  }

  lemma CoverIsPrefix(maps: MapNames, p: Path, n: nat, r: string)
    requires LeafAnatomy(maps, p, n) && Covers(r, Join(p))
    requires forall j :: 0 <= j < |r| && r[j] == '.' ==> !maps(r[..j])
    ensures Split(r) <= p
  {
    var path, head := Join(p), Join(p[..n]);
    JoinPrefix(p[..n], p);
    var whole := p[..|p|];
    assert whole == p;
    if |r| <= |head| {
      CutsComparable(r, head, path);
      var _ := CutOfHead(p, n, r);
    } else {
      CutPastHead(head, r, path);
    }
  }

  lemma PlainMeans(maps: MapNames, p: Path, n: nat, r: string)
    requires LeafAnatomy(maps, p, n) && p != []
    requires forall j :: 0 <= j < |r| && r[j] == '.' ==> !maps(r[..j])
    ensures Covers(r, Join(p)) <==> Split(r) <= p
  {
    if Split(r) <= p {
      PrefixCovers(p, r);
    }
    if Covers(r, Join(p)) {
      CoverIsPrefix(maps, p, n, r);
    }
  }

  lemma OneDot(a: string, b: string, j: nat)
    requires DotFree(a) && DotFree(b)
    requires j < |a + "." + b| && (a + "." + b)[j] == '.'
    ensures j == |a|
  {
    var s := a + "." + b;
    assert forall i :: 0 <= i < |a| ==> s[i] == a[i];
    assert forall i :: |a| < i < |s| ==> s[i] == b[i - |a| - 1];
  }

  /** No proper cut of a group's path names a map. */
  lemma GroupPathPlain(schema: Ty, p: Path, j: nat)
    requires |p| == 2 && (p[0] == "spec" || p[0] == "metadata") && DotFree(p[1])
    requires j < |Join(p)| && Join(p)[j] == '.'
    ensures !NamesMap(schema, Join(p)[..j])
  {
    assert p[1..] == [p[1]];
    assert Join(p) == p[0] + "." + p[1];
    assert DotFree("spec") && DotFree("metadata");
    OneDot(p[0], p[1], j);
    assert Join(p)[..j] == p[0];
    assert "metadata"[0] != "spec."[0];
  }

  lemma KeyedRuleMeans(schema: Ty, t: Tables, rule: SkipRule, p: Path, n: nat)
    requires LeafAnatomy(MapsOf(schema), p, n) && rule.Keyed()
    requires rule.group == "" && rule.path != "" && CompilePathRule(schema, rule).Ok?
    ensures CompilePathRule(schema, rule).value.Matches(Join(p)) <==> Removes(schema, t, rule, p)
  {
    MapsUnnested(schema);
    KeyedMeans(MapsOf(schema), p, n, CompilePathRule(schema, rule).value);
  }

  lemma UnkeyedRuleMeans(schema: Ty, t: Tables, rule: SkipRule, p: Path, n: nat)
    requires LeafAnatomy(MapsOf(schema), p, n) && !rule.Keyed()
    requires rule.group == "" && rule.path != "" && CompilePathRule(schema, rule).Ok?
    ensures CompilePathRule(schema, rule).value.Matches(Join(p)) <==> Removes(schema, t, rule, p)
  {
    var path := TrimStar(rule.path);
    var enclosing := EnclosingMap(schema, path);
    MapsUnnested(schema);
    if enclosing.Some? && enclosing.value != path {
      ExactMeans(MapsOf(schema), p, n, enclosing.value, path);
    } else {
      PlainMeans(MapsOf(schema), p, n, path);
    }
  }

  lemma PathRuleMeans(schema: Ty, t: Tables, rule: SkipRule, p: Path, n: nat)
    requires LeafAnatomy(MapsOf(schema), p, n)
    requires rule.group == "" && rule.path != "" && CompilePathRule(schema, rule).Ok?
    ensures CompilePathRule(schema, rule).value.Matches(Join(p)) <==> Removes(schema, t, rule, p)
  {
    if rule.Keyed() {
      KeyedRuleMeans(schema, t, rule, p, n);
    } else {
      UnkeyedRuleMeans(schema, t, rule, p, n);
    }
  }

  lemma PlainRuleMeans(schema: Ty, q: Path, p: Path, n: nat)
    requires LeafAnatomy(MapsOf(schema), p, n)
    requires |q| == 2 && (q[0] == "spec" || q[0] == "metadata") && DotFree(q[1])
    ensures Plain(Join(q)).Matches(Join(p)) <==> q <= p
  {
    forall j | 0 <= j < |Join(q)| && Join(q)[j] == '.' ensures !MapsOf(schema)(Join(q)[..j]) {
      GroupPathPlain(schema, q, j);
    }
    PlainMeans(MapsOf(schema), p, n, Join(q));
    SpecFieldDotFree(q);
    SplitJoin(q);
  }

  lemma SpecFieldDotFree(q: Path)
    requires |q| == 2 && (q[0] == "spec" || q[0] == "metadata") && DotFree(q[1])
    ensures AllDotFree(q)
  {
    assert DotFree("spec") && DotFree("metadata");
    assert q == [q[0], q[1]];
  }

  lemma GroupFieldsMean(schema: Ty, t: Tables, g: Group, p: Path, n: nat)
    requires WellFormed(t) && LeafAnatomy(MapsOf(schema), p, n) && g in t.groups
    ensures Skips(PlainRules(g.Paths()), Join(p)) <==> exists f :: f in g.fields && ["spec", f] <= p
  {
    var rules := PlainRules(g.Paths());
    forall i | 0 <= i < |g.fields| ensures rules[i].Matches(Join(p)) <==> ["spec", g.fields[i]] <= p {
      assert FieldFits(g.fields[i], t.deniedPaths);
      PlainRuleMeans(schema, ["spec", g.fields[i]], p, n);
    }
    forall i | 0 <= i < |g.fields| && ["spec", g.fields[i]] <= p ensures Skips(rules, Join(p)) {
      assert rules[i] in rules;
    }
  }

  lemma MetadataMapsMean(schema: Ty, p: Path, n: nat)
    requires LeafAnatomy(MapsOf(schema), p, n)
    ensures Skips(PlainRules(METADATA_MAPS), Join(p)) <==> exists m :: m in METADATA_MAPS && m <= p
  {
    var rules, labels, annotations := PlainRules(METADATA_MAPS), METADATA_MAPS[0], METADATA_MAPS[1];
    assert DotFree("labels") && DotFree("annotations");
    PlainRuleMeans(schema, labels, p, n);
    PlainRuleMeans(schema, annotations, p, n);
    assert rules == [Plain(Join(labels)), Plain(Join(annotations))];
    assert rules[0] in rules && rules[1] in rules && labels in METADATA_MAPS && annotations in METADATA_MAPS;
    assert forall c :: c in rules ==> c == rules[0] || c == rules[1];
    assert forall m :: m in METADATA_MAPS ==> m == labels || m == annotations;
  }

  lemma GroupRuleMeans(schema: Ty, t: Tables, rule: SkipRule, p: Path, n: nat)
    requires WellFormed(t) && LeafAnatomy(MapsOf(schema), p, n) && rule.group != "" && CompileRule(schema, t, rule).Ok?
    ensures Skips(CompileRule(schema, t, rule).value, Join(p)) <==> Removes(schema, t, rule, p)
  {
    GroupFieldsMean(schema, t, LookupGroup(rule.group, t.groups).value, p, n);
    MetadataMapsMean(schema, p, n);
  }

  lemma RuleMeans(schema: Ty, t: Tables, rule: SkipRule, p: Path, n: nat)
    requires WellFormed(t) && LeafAnatomy(MapsOf(schema), p, n) && CompileRule(schema, t, rule).Ok?
    ensures Skips(CompileRule(schema, t, rule).value, Join(p)) <==> Removes(schema, t, rule, p)
  {
    if rule.group != "" {
      GroupRuleMeans(schema, t, rule, p, n);
    } else {
      PathRuleMeans(schema, t, rule, p, n);
    }
  }

  /** Skip matching means what segments mean: on every leaf a capture of this schema can hold,
      the compiled string matcher skips exactly what some rule as written removes. */
  lemma SkipMeansSegments(
    schema: Ty, t: Tables, content: Content, l: Leaf, rules: seq<SkipRule>, compiled: SkipSet)
    requires WellFormed(t) && ContentConforms(schema, t, content) && FlatMaps(schema) && Transparent(schema)
    requires IsLeaf(RestorableTree(content), l)
    requires Compiles(schema, t, rules) && forall c :: c in compiled <==> FromRules(schema, t, rules, c)
    ensures Skips(compiled, Join(l.segments)) <==>
            exists rule :: rule in rules && Removes(schema, t, rule, l.segments)
  {
    var p := l.segments;
    var n := LeafHasAnatomy(schema, t, content, l);
    forall rule | rule in rules
      ensures Skips(CompileRule(schema, t, rule).value, Join(p)) <==> Removes(schema, t, rule, p)
    {
      RuleMeans(schema, t, rule, p, n);
    }
    if Skips(compiled, Join(p)) {
      var c :| c in compiled && c.Matches(Join(p));
      var rule :| rule in rules && FromRule(schema, t, rule, c);
    }
    forall rule | rule in rules && Skips(CompileRule(schema, t, rule).value, Join(p)) ensures Skips(compiled, Join(p)) {
      var c :| c in CompileRule(schema, t, rule).value && c.Matches(Join(p));
      assert FromRule(schema, t, rule, c);
    }
  }
}
