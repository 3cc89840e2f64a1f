/** Transform rules: internal/restore/transform.go. Compiling and evaluating an expression are
    foreign; a program is any partial function of the captured value and its path. */
module Transforms {
  import opened Wrappers
  import opened JsonTree
  import opened LeafMerge
  import opened Text
  import opened Order

  /** What an expression may produce: a value written back in the captured value's own type. */
  type Produced = v: JSON | !v.Obj? witness Null

  type Program = (JSON, Path) -> Option<Produced>

  type Compiler = string -> Option<Program>

  datatype TransformRule = TransformRule(path: string, expression: string, ignoreMissing: bool)

  datatype Transform = Transform(program: Program, ignoreMissing: bool)

  datatype TransformSet = TransformSet(byPath: map<string, Transform>, order: seq<string>) {
    ghost predicate Valid() {
      forall p :: p in order <==> p in byPath
    }
  }

  datatype TransformError = NoPath | Duplicate(path: string) | BadExpression(path: string)

  ghost predicate Distinct(rules: seq<TransformRule>) {
    forall i, j :: 0 <= i < j < |rules| ==> rules[i].path != rules[j].path
  }

  ghost predicate Compilable(rules: seq<TransformRule>, compile: Compiler) {
    forall i :: 0 <= i < |rules| ==> rules[i].path != "" && compile(rules[i].expression).Some?
  }

  ghost predicate Targets(rules: seq<TransformRule>, path: string) {
    exists i :: 0 <= i < |rules| && rules[i].path == path
  }

  lemma TargetsStep(rules: seq<TransformRule>, i: nat, path: string)
    requires i < |rules|
    ensures Targets(rules[..i + 1], path) <==> Targets(rules[..i], path) || path == rules[i].path
  {
    var more := rules[..i + 1];
    assert more[i] == rules[i];
    if Targets(rules[..i], path) {
      var j :| 0 <= j < i && rules[..i][j].path == path;
      assert more[j] == rules[..i][j];
    }
  }

  /** The set holds exactly the compiled rules, each under its path. */
  ghost predicate Holds(rules: seq<TransformRule>, compile: Compiler, set': TransformSet) {
    && (forall p :: p in set'.byPath <==> Targets(rules, p))
    && (forall i :: 0 <= i < |rules| ==>
          && compile(rules[i].expression).Some?
          && rules[i].path in set'.byPath
          && set'.byPath[rules[i].path] == Transform(compile(rules[i].expression).value, rules[i].ignoreMissing))
  }

  method NewTransformSet(rules: seq<TransformRule>, compile: Compiler) returns (r: Result<TransformSet, TransformError>)
    ensures r.Ok? <==> Distinct(rules) && Compilable(rules, compile)
    ensures r.Ok? ==> r.value.Valid() && Holds(rules, compile, r.value)
  {
    var byPath, order := map[], [];
    var i := 0;
    while i < |rules|
      invariant 0 <= i <= |rules|
      invariant Distinct(rules[..i]) && Compilable(rules[..i], compile)
      invariant forall p :: p in order <==> p in byPath
      invariant Holds(rules[..i], compile, TransformSet(byPath, order))
    {
      var rule := rules[i];
      if rule.path == "" {
        return Err(NoPath);
      }
      if rule.path in byPath {
        assert Targets(rules[..i], rule.path);
        return Err(Duplicate(rule.path));
      }
      var program := compile(rule.expression);
      if program.None? {
        return Err(BadExpression(rule.path));
      }
      byPath := byPath[rule.path := Transform(program.value, rule.ignoreMissing)];
      order := order + [rule.path];
      assert rules[..i + 1] == rules[..i] + [rule];
      forall p ensures p in byPath <==> Targets(rules[..i + 1], p) {
        TargetsStep(rules, i, p);
      }
      i := i + 1;
    }
    assert rules[..i] == rules;
    SortStringsSorts(order);
    assert forall p :: p in SortStrings(order) <==> p in multiset(order);
    r := Ok(TransformSet(byPath, SortStrings(order)));
  }

  /** The transform at a leaf's path, if there is one, applied to its value. */
  datatype Applied = Untouched | Produces(value: Produced) | Fails

  function Apply(transforms: TransformSet, l: Leaf): Applied {
    if Join(l.segments) !in transforms.byPath then Untouched
    else match transforms.byPath[Join(l.segments)].program(l.value, l.segments)
      case None => Fails
      case Some(v) => Produces(v)
  }

  /** Whether any of the snapshot's paths lies under this one. */
  predicate HasBeneath(paths: seq<string>, path: string) {
    exists p | p in paths :: path + "." <= p
  }

  /** The paths under this one, in their order. */
  function PathsBeneath(paths: seq<string>, path: string): (beneath: seq<string>)
    ensures forall p :: p in beneath <==> p in paths && path + "." <= p
  {
    if paths == [] then []
    else
      var rest := PathsBeneath(paths[..|paths| - 1], path);
      assert paths == paths[..|paths| - 1] + [paths[|paths| - 1]];
      if path + "." <= paths[|paths| - 1] then rest + [paths[|paths| - 1]] else rest
  }

  lemma BeneathIff(paths: seq<string>, path: string)
    ensures |PathsBeneath(paths, path)| > 0 <==> HasBeneath(paths, path)
  {
    var beneath := PathsBeneath(paths, path);
    assert |beneath| > 0 ==> beneath[0] in beneath;
  }

  method CountBeneath(paths: seq<string>, path: string) returns (count: nat)
    ensures count == |PathsBeneath(paths, path)|
  {
    count := 0;
    var i := 0;
    while i < |paths|
      invariant 0 <= i <= |paths|
      invariant count == |PathsBeneath(paths[..i], path)|
    {
      assert paths[..i + 1][..i] == paths[..i];
      if path + "." <= paths[i] {
        count := count + 1;
      }
      i := i + 1;
    }
    assert paths[..i] == paths;
  }

  /** A transform that did what it says, or whose path the snapshot may lack. */
  predicate Settled(
    transforms: TransformSet, fired: set<string>, skipped: set<string>, paths: seq<string>, path: string)
  {
    || path in fired
    || (path !in skipped && !HasBeneath(paths, path) &&
        path in transforms.byPath && transforms.byPath[path].ignoreMissing)
  }

  /** checkAllFired accumulates one problem for every transform that is not settled. */
  method CheckAllFired(transforms: TransformSet, fired: set<string>, skipped: set<string>, paths: seq<string>)
    returns (problems: seq<string>)
    requires transforms.Valid()
    ensures forall path :: path in problems <==>
              path in transforms.byPath && !Settled(transforms, fired, skipped, paths, path)
  {
    problems := [];
    var i := 0;
    while i < |transforms.order|
      invariant 0 <= i <= |transforms.order|
      invariant forall path :: path in problems <==>
                  path in transforms.order[..i] && !Settled(transforms, fired, skipped, paths, path)
    {
      var path := transforms.order[i];
      assert path in transforms.order;
      assert transforms.order[..i + 1] == transforms.order[..i] + [path];
      i := i + 1;
      if path in fired {
        continue;
      }
      if path in skipped {
        problems := problems + [path];
        continue;
      }
      var beneath := CountBeneath(paths, path);
      BeneathIff(paths, path);
      if beneath > 0 {
        problems := problems + [path];
        continue;
      }
      if transforms.byPath[path].ignoreMissing {
        continue;
      }
      problems := problems + [path];
    }
    assert transforms.order[..i] == transforms.order;
  }
}
