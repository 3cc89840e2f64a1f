/** What the static checks accept, in whole segments and types. */
module RuleMeaning {
  import opened Wrappers
  import opened JsonTree
  import opened Text
  import opened Groups
  import opened Denylist
  import opened Schema
  import opened PathCheck
  import opened Skip

  /** The types met on the way along field names. */
  ghost predicate Route(t: Ty, p: Path, types: seq<Ty>) {
    && |types| == |p| + 1 && types[0] == t
    && forall i :: 0 <= i < |p| ==>
         ElemType(types[i]).Struct? && FieldByJSONName(ElemType(types[i]), p[i]) == Some(types[i + 1])
  }

  lemma RouteStep(t: Ty, p: Path, types: seq<Ty>)
    requires p != []
    ensures |types| == |p| + 1 ==>
              (Route(t, p, types) <==>
               && types[0] == t && ElemType(t).Struct? && FieldByJSONName(ElemType(t), p[0]) == Some(types[1])
               && Route(types[1], p[1..], types[1..]))
  {
    if |types| == |p| + 1 && types[0] == t && ElemType(t).Struct?
       && FieldByJSONName(ElemType(t), p[0]) == Some(types[1]) && Route(types[1], p[1..], types[1..]) {
      forall i | 0 <= i < |p|
        ensures ElemType(types[i]).Struct? && FieldByJSONName(ElemType(types[i]), p[i]) == Some(types[i + 1])
      {
        if i > 0 {
          assert types[i] == types[1..][i - 1] && p[i] == p[1..][i - 1] && types[i + 1] == types[1..][i];
        }
      }
    }
    if |types| == |p| + 1 && Route(t, p, types) {
      forall i | 0 <= i < |p[1..]|
        ensures ElemType(types[1..][i]).Struct?
        ensures FieldByJSONName(ElemType(types[1..][i]), p[1..][i]) == Some(types[1..][i + 1])
      {
        assert types[1..][i] == types[i + 1] && p[1..][i] == p[i + 1];
      }
    }
  }

  lemma RouteFrom(t: Ty, p: Path, u: Ty, types: seq<Ty>)
    requires p != [] && ElemType(t).Struct? && FieldByJSONName(ElemType(t), p[0]) == Some(u) && Route(u, p[1..], types)
    ensures Route(t, p, [t] + types)
  {
    assert ([t] + types)[1..] == types;
    RouteStep(t, p, [t] + types);
  }

  /** A path names a map exactly when field names lead to one, through nothing but structs. */
  lemma {:induction false} NamesMapByRoute(t: Ty, p: Path)
    ensures NamesMapFrom(t, p) <==> exists types :: Route(t, p, types) && ThroughPointers(types[|p|]).MapOf?
    decreases |p|
  {
    if p == [] {
      assert Route(t, p, [t]);
    } else {
      forall types | Route(t, p, types) && ThroughPointers(types[|p|]).MapOf? ensures NamesMapFrom(t, p) {
        RouteStep(t, p, types);
        NamesMapByRoute(types[1], p[1..]);
        assert types[1..][|p[1..]|] == types[|p|];
      }
      if NamesMapFrom(t, p) {
        var u := FieldByJSONName(ElemType(t), p[0]).value;
        NamesMapByRoute(u, p[1..]);
        var types :| Route(u, p[1..], types) && ThroughPointers(types[|p[1..]|]).MapOf?;
        RouteFrom(t, p, u, types);
        assert ([t] + types)[|p|] == types[|p[1..]|];
      }
    }
  }

  /** A path resolves exactly when field names lead all the way, or to a map on it. */
  ghost predicate Leads(t: Ty, p: Path, n: nat, types: seq<Ty>) {
    n <= |p| && Route(t, p[..n], types) && (n == |p| || ElemType(types[n]).MapOf?)
  }

  lemma LeadsStep(t: Ty, p: Path, u: Ty, n: nat, types: seq<Ty>)
    requires p != [] && ElemType(t).Struct? && FieldByJSONName(ElemType(t), p[0]) == Some(u)
    requires Leads(u, p[1..], n, types)
    ensures Leads(t, p, n + 1, [t] + types)
  {
    assert p[..n + 1][1..] == p[1..][..n];
    RouteFrom(t, p[..n + 1], u, types);
    assert ([t] + types)[n + 1] == types[n];
  }

  lemma {:induction false} ResolvesByRoute(t: Ty, p: Path)
    ensures ResolveFrom(t, p) <==> exists n: nat, types :: Leads(t, p, n, types)
    decreases |p|
  {
    if p == [] {
      assert Leads(t, p, 0, [t]);
    } else {
      forall n: nat, types | Leads(t, p, n, types) ensures ResolveFrom(t, p) {
        if n > 0 {
          RouteStep(t, p[..n], types);
          assert p[..n][1..] == p[1..][..n - 1] && types[1..][n - 1] == types[n];
          assert Leads(types[1], p[1..], n - 1, types[1..]);
          ResolvesByRoute(types[1], p[1..]);
        }
      }
      if ResolveFrom(t, p) {
        if ElemType(t).MapOf? {
          assert Leads(t, p, 0, [t]);
        } else {
          var u := FieldByJSONName(ElemType(t), p[0]).value;
          ResolvesByRoute(u, p[1..]);
          var n: nat, types :| Leads(u, p[1..], n, types);
          LeadsStep(t, p, u, n, types);
        }
      }
    }
  }

  /** On dot-free segments a string match at a dot is a prefix. */
  lemma CoversIff(d: Path, p: Path)
    requires d != [] && p != [] && AllDotFree(d) && AllDotFree(p)
    ensures Covers(Join(d), Join(p)) <==> d <= p
  {
    if Covers(Join(d), Join(p)) {
      var j := CutOfDotFree(Join(d), p);
      SplitJoin(d);
      SplitJoin(p[..j]);
    }
    if d <= p {
      JoinPrefix(d, p);
    }
  }

  /** The segments of a rule's path as written, without the star at its end. */
  function Segments(written: string): Path {
    Split(TrimStar(written))
  }

  lemma SegmentsAre(written: string)
    ensures AllDotFree(Segments(written)) && Segments(written) != [] && Join(Segments(written)) == TrimStar(written)
  {
    JoinSplit(TrimStar(written));
  }

  lemma DeniedMeans(t: Tables, written: string)
    requires DenylistFits(t)
    ensures IsDeniedPath(TrimStar(written), t.deniedPaths) <==> exists d :: d in t.deniedPaths && d <= Segments(written)
  {
    SegmentsAre(written);
    forall d | d in t.deniedPaths ensures Covers(Join(d), TrimStar(written)) <==> d <= Segments(written) {
      assert DeniedFits(d) && AllDotFree(d);
      CoversIff(d, Segments(written));
    }
  }

  lemma WithinMeans(t: Tables, written: string)
    requires WellFormed(t)
    ensures WithinCaptureGroups(t.groups, TrimStar(written)) <==>
            exists g, f :: g in t.groups && f in g.fields && Comparable(["spec", f], Segments(written))
  {
    SegmentsAre(written);
    var p := Segments(written);
    forall g, f | g in t.groups && f in g.fields
      ensures Covers(Join(["spec", f]), TrimStar(written)) || Covers(TrimStar(written), Join(["spec", f]))
              <==> Comparable(["spec", f], p)
    {
      assert FieldFits(f, t.deniedPaths) && DotFree("spec") && AllDotFree(["spec", f]);
      CoversIff(["spec", f], p);
      CoversIff(p, ["spec", f]);
    }
  }

  lemma MetadataMeans(written: string)
    ensures TrimStar(written) == "metadata" <==> Segments(written) == ["metadata"]
    ensures Covers("metadata.labels", TrimStar(written)) <==> ["metadata", "labels"] <= Segments(written)
    ensures Covers("metadata.annotations", TrimStar(written)) <==> ["metadata", "annotations"] <= Segments(written)
    ensures "metadata." <= TrimStar(written) <==> |Segments(written)| > 1 && Segments(written)[0] == "metadata"
  {
    SegmentsAre(written);
    var p := Segments(written);
    assert DotFree("metadata") && DotFree("labels") && DotFree("annotations");
    assert Join(["metadata", "labels"]) == "metadata" + "." + "labels" == "metadata.labels";
    assert Join(["metadata", "annotations"]) == "metadata" + "." + "annotations" == "metadata.annotations";
    assert AllDotFree(["metadata"]) && AllDotFree(["metadata", "labels"]) && AllDotFree(["metadata", "annotations"]);
    CoversIff(["metadata"], p);
    CoversIff(["metadata", "labels"], p);
    CoversIff(["metadata", "annotations"], p);
    SplitJoin(["metadata"]);
    assert Join(["metadata"]) == "metadata";
    assert "metadata" + "." == "metadata.";
    if p[0] == "metadata" {
      assert ["metadata"] <= p;
    }
  }

  /** The rest of the path resolves in the schema. */
  ghost predicate LeadsFrom(schema: Ty, p: Path) {
    exists n: nat, types :: Leads(schema, p, n, types)
  }

  lemma ResolvesMeans(schema: Ty, written: string)
    ensures ResolvesInClusterSpec(schema, TrimStar(written)) <==>
            Segments(written)[0] == "spec" && LeadsFrom(schema, Segments(written)[1..])
  {
    SegmentsAre(written);
    BeneathSpec(written);
    SplitJoin(["spec"]);
    assert DotFree("spec") && Join(["spec"]) == "spec";
    ResolvesByRoute(schema, Segments(written)[1..]);
    if |Segments(written)| == 1 {
      assert Segments(written) == [Segments(written)[0]];
    }
  }

  /** What the static check accepts, in whole segments: a path that is not empty, at or beneath no
      denied one, and that is the metadata, one of its two captured maps or beneath it, or lies at,
      above or below a field of some group and leads along the fields of the schema, to its end
      or to a map. */
  lemma UsableMeans(schema: Ty, t: Tables, written: string)
    requires WellFormed(t)
    ensures var p := Segments(written);
            ValidateRulePath(schema, t, written).Usable? <==>
              && TrimStar(written) != "" && (forall d :: d in t.deniedPaths ==> !(d <= p))
              && (|| p == ["metadata"] || ["metadata", "labels"] <= p || ["metadata", "annotations"] <= p
                  || (p[0] == "spec" && LeadsFrom(schema, p[1..])
                      && exists g, f :: g in t.groups && f in g.fields && Comparable(["spec", f], p)))
  {
    SegmentsAre(written);
    DeniedMeans(t, written);
    WithinMeans(t, written);
    MetadataMeans(written);
    ResolvesMeans(schema, written);
  }

  /** Which skip rules are accepted: one naming a known group and nothing else, or a path without a
      group, and narrowed to keys only where it names a map. */
  lemma RuleAcceptedIff(schema: Ty, t: Tables, rule: SkipRule)
    ensures var keyed := rule.keyPrefix != "" || rule.exceptKeys != [];
            CompileRule(schema, t, rule).Ok? <==>
              || (rule.group != "" && rule.path == "" && !keyed && exists g :: g in t.groups && g.name == rule.group)
              || (rule.group == "" && rule.path != "" && (keyed ==> MapAt(schema, Segments(rule.path))))
  {
    MapMeans(schema, rule.path);
  }

  /** The path is that of a map of the metadata, or field names lead from spec to a map. */
  ghost predicate MapAt(schema: Ty, p: Path) {
    || p == ["metadata", "labels"] || p == ["metadata", "annotations"]
    || (|p| > 1 && p[0] == "spec"
        && exists types :: Route(schema, p[1..], types) && ThroughPointers(types[|p| - 1]).MapOf?)
  }

  /** Beneath spec, as a string and in segments. */
  lemma BeneathSpec(written: string)
    ensures CutPrefix(TrimStar(written), "spec.").Some? <==> |Segments(written)| > 1 && Segments(written)[0] == "spec"
    ensures CutPrefix(TrimStar(written), "spec.").Some? ==>
              Split(CutPrefix(TrimStar(written), "spec.").value) == Segments(written)[1..]
  {
    SegmentsAre(written);
    var path, p := TrimStar(written), Segments(written);
    assert DotFree("spec") && AllDotFree(["spec"]) && Join(["spec"]) == "spec" && "spec" + "." == "spec.";
    SplitJoin(["spec"]);
    CoversIff(["spec"], p);
    if "spec." <= path {
      assert path == "spec" + "." + path[5..];
      SplitStep("spec", path[5..]);
    } else {
      assert p[0] == "spec" ==> ["spec"] <= p;
    }
  }

  lemma MetadataMapMeans(written: string)
    ensures TrimStar(written) == "metadata.labels" <==> Segments(written) == ["metadata", "labels"]
    ensures TrimStar(written) == "metadata.annotations" <==> Segments(written) == ["metadata", "annotations"]
  {
    SegmentsAre(written);
    assert DotFree("metadata") && DotFree("labels") && DotFree("annotations");
    assert Join(["metadata", "labels"]) == "metadata" + "." + "labels" == "metadata.labels";
    assert Join(["metadata", "annotations"]) == "metadata" + "." + "annotations" == "metadata.annotations";
    assert AllDotFree(["metadata", "labels"]) && AllDotFree(["metadata", "annotations"]);
    SplitJoin(["metadata", "labels"]);
    SplitJoin(["metadata", "annotations"]);
  }

  lemma MapMeans(schema: Ty, written: string)
    ensures NamesMap(schema, TrimStar(written)) <==> MapAt(schema, Segments(written))
  {
    BeneathSpec(written);
    MetadataMapMeans(written);
    if |Segments(written)| > 1 {
      NamesMapByRoute(schema, Segments(written)[1..]);
    }
  }
}
