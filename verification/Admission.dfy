/** Restoring at admission: Handle, restore and annotateWithRecord of
    internal/webhook/cluster_mutate.go. Loading the policy, reaching the store and selecting a
    snapshot are foreign; their outcome is a parameter. */
module Admission {
  import opened Wrappers
  import opened JsonTree
  import opened LeafMerge
  import opened Text
  import opened Denylist
  import opened Snapshot
  import opened Plan
  import opened Restore
  import opened RestoreReads
  import Docs = Documents

  const PLUGINS_PATH: Path := ["spec", "plugins"]
  const NAME_PATH: Path := ["metadata", "name"]
  const RESTORED_FROM := PLUGIN_NAME + "/restored-from"
  const RESTORED_PATH: Path := ["metadata", "annotations", RESTORED_FROM]

  datatype Configuration = Configuration(
    saveToStore: string,
    saveToServer: string,
    restoreFromStore: string,
    restoreFromServer: string,
    restorePolicy: string)

  function StringParameters(declaration: map<string, JSON>): map<string, string> {
    if "parameters" in declaration && declaration["parameters"].Obj? then
      var fields := declaration["parameters"].fields;
      map k | k in fields && fields[k].Str? :: fields[k].text
    else map[]
  }

  predicate IsOurs(entry: JSON) {
    entry.Obj? && "name" in entry.fields && entry.fields["name"] == Str(PLUGIN_NAME)
  }

  /** The parameters of this plugin's first declaration, unless it is disabled. */
  function FindParameters(entries: seq<JSON>): Option<map<string, string>> {
    if entries == [] then None
    else if !IsOurs(entries[0]) then FindParameters(entries[1..])
    else if "enabled" in entries[0].fields && entries[0].fields["enabled"] == Bool(false) then None
    else Some(StringParameters(entries[0].fields))
  }

  function PluginParameters(plugins: Option<JSON>): Option<map<string, string>> {
    match plugins
    case Some(List(entries)) => FindParameters(entries)
    case _ => None
  }

  function Parameter(parameters: map<string, string>, key: string): string {
    if key in parameters then parameters[key] else ""
  }

  function NewFromParameters(parameters: map<string, string>, clusterName: string): Configuration {
    var server := Parameter(parameters, "saveToServer");
    Configuration(
      Parameter(parameters, "saveToStore"), if server != "" then server else clusterName,
      Parameter(parameters, "restoreFromStore"), Parameter(parameters, "restoreFromServer"),
      Parameter(parameters, "restorePolicy"))
  }

  /** A restore names its source completely or not at all. */
  predicate Complete(c: Configuration) {
    && (c.restoreFromStore == "" <==> c.restoreFromServer == "")
    && (c.restorePolicy != "" ==> c.restoreFromStore != "")
  }

  predicate SourceIsDestination(c: Configuration) {
    && c.saveToStore != "" && c.saveToStore == c.restoreFromStore
    && c.saveToServer == c.restoreFromServer
  }

  /** What Handle decides before it restores anything. */
  datatype Gate = NotConfigured | Refused | NoRestore | AlreadyRestored | MustRestore(configuration: Configuration)

  function Decide(plugins: Option<JSON>, name: Option<JSON>, restored: bool): Gate {
    match PluginParameters(plugins)
    case None => NotConfigured
    case Some(parameters) =>
      var c := NewFromParameters(parameters, match name case Some(Str(text)) => text case _ => "");
      if !Complete(c) || SourceIsDestination(c) then Refused
      else if c.restoreFromStore == "" then NoRestore
      else if restored then AlreadyRestored
      else MustRestore(c)
  }

  function GateOf(cluster: JSON): Gate {
    Decide(At(cluster, PLUGINS_PATH), At(cluster, NAME_PATH), At(cluster, RESTORED_PATH).Some?)
  }

  /** The outcome of the foreign part: compiled rules, the snapshot's tree, the encoded record. */
  datatype Source = Source(rules: Rules, restorable: Docs.Document, record: string)

  datatype Response = Allowed | Denied | Patched

  /** Reads a value that is not a map; a map reads as an empty one. */
  method ReadPlain(cluster: Docs.Document, p: Path) returns (v: Option<JSON>)
    requires cluster.Valid() && p != []
    ensures At(cluster.view.tree, p).None? <==> v.None?
    ensures At(cluster.view.tree, p).Some? ==>
              v.value == if At(cluster.view.tree, p).value.Obj? then EMPTY else At(cluster.view.tree, p).value
  {
    var found := cluster.Get(p);
    v := match found
      case None => None
      case Some(Plain(w)) => Some(w)
      case Some(Ref(_)) => Some(EMPTY);
  }

  lemma MapsReadAlike(
    plugins: Option<JSON>, name: Option<JSON>, plugins': Option<JSON>, name': Option<JSON>, restored: bool)
    requires plugins == plugins' || (plugins.Some? && plugins.value.Obj? && plugins' == Some(EMPTY))
    requires name == name' || (name.Some? && name.value.Obj? && name' == Some(EMPTY))
    ensures Decide(plugins, name, restored) == Decide(plugins', name', restored)
  {
  }

  method ReadGate(cluster: Docs.Document) returns (gate: Gate)
    requires cluster.Valid()
    ensures gate == GateOf(cluster.view.tree)
  {
    var plugins := ReadPlain(cluster, PLUGINS_PATH);
    var name := ReadPlain(cluster, NAME_PATH);
    var restored := ReadPlain(cluster, RESTORED_PATH);
    gate := Decide(plugins, name, restored.Some?);
    MapsReadAlike(At(cluster.view.tree, PLUGINS_PATH), At(cluster.view.tree, NAME_PATH), plugins, name, restored.Some?);
  }

  ghost predicate IsPlanFor(v: JSON, r: Rules, plan: RestorePlan) {
    exists leaves :: IsWalk(v, leaves) && PlanOf(leaves, r, plan)
  }

  /** This plan restores this cluster: it is a plan of the snapshot's tree, changes something,
      and neither its changes nor the record are blocked. */
  ghost predicate Restores(before: JSON, v: JSON, r: Rules, plan: RestorePlan) {
    && IsPlanFor(v, r, plan) && plan.changes != []
    && Merge(before, Edits(plan.changes)).Some?
    && Settable(Merge(before, Edits(plan.changes)).value, RESTORED_PATH)
  }

  /** What a restore makes of a cluster: the plan's changes, then the record. */
  ghost predicate RestoredAs(before: JSON, after: JSON, v: JSON, r: Rules, plan: RestorePlan, record: string) {
    && Restores(before, v, r, plan)
    && after == SetAt(Merge(before, Edits(plan.changes)).value, RESTORED_PATH, Str(record))
  }

  /** restore and annotateWithRecord: builds the plan, applies it and leaves the record; denied
      exactly when there is no plan or it does not restore this cluster. */
  method RestoreCluster(cluster: Docs.Document, source: Source) returns (response: Response, ghost plan: RestorePlan)
    requires cluster.Valid() && source.restorable.Valid() && source.rules.transforms.Valid()
    requires {cluster} + cluster.view.nodes !! {source.restorable} + source.restorable.view.nodes
    modifies cluster, cluster.view.nodes
    ensures cluster.Valid() && response != Allowed
    ensures response == Patched <==>
              && Plannable(source.restorable.view.tree, source.rules)
              && Restores(old(cluster.view.tree), source.restorable.view.tree, source.rules, plan)
    ensures response == Patched ==>
              RestoredAs(old(cluster.view.tree), cluster.view.tree,
                         source.restorable.view.tree, source.rules, plan, source.record)
  {
    var built := PlanFor(source);
    plan := built;
    if |built.changes| == 0 {
      return Denied, plan;
    }
    var done := ApplyAndAnnotate(cluster, built, source.record);
    response := if done then Patched else Denied;
  }

  /** The plan, or an empty one when there is none. */
  method PlanFor(source: Source) returns (plan: RestorePlan)
    requires source.restorable.Valid() && source.rules.transforms.Valid()
    ensures Plannable(source.restorable.view.tree, source.rules) ==>
            IsPlanFor(source.restorable.view.tree, source.rules, plan)
    ensures !Plannable(source.restorable.view.tree, source.rules) ==> plan.changes == []
    ensures forall c :: c in plan.changes ==> IsTerminal(c.value)
  {
    var built := BuildPlan(source.restorable, source.rules);
    if built.Err? {
      return RestorePlan([], []);
    }
    plan := built.value;
    ghost var leaves :| IsWalk(source.restorable.view.tree, leaves) && PlanOf(leaves, source.rules, plan);
    ChangesTerminal(source.restorable.view.tree, leaves, source.rules, plan);
  }

  /** The edits and then the record; false leaves the copy the request is answered from behind. */
  method ApplyAndAnnotate(cluster: Docs.Document, plan: RestorePlan, record: string) returns (done: bool)
    requires cluster.Valid() && forall c :: c in plan.changes ==> IsTerminal(c.value)
    modifies cluster, cluster.view.nodes
    ensures cluster.Valid()
    ensures done <==>
              && Merge(old(cluster.view.tree), Edits(plan.changes)).Some?
              && Settable(Merge(old(cluster.view.tree), Edits(plan.changes)).value, RESTORED_PATH)
    ensures done ==>
              cluster.view.tree ==
              SetAt(Merge(old(cluster.view.tree), Edits(plan.changes)).value, RESTORED_PATH, Str(record))
  {
    done := ApplyPlan(cluster, plan);
    if done {
      done := cluster.SetSegments(RESTORED_PATH, Str(record));
    }
  }

  /** An entry of spec.plugins that is this plugin's. */
  ghost predicate Declares(entry: JSON) {
    At(entry, ["name"]) == Some(Str(PLUGIN_NAME))
  }

  /** The first entry of spec.plugins that is this plugin's; an entry switched off is as none. */
  ghost predicate IsDeclaration(cluster: JSON, d: JSON) {
    exists entries, i ::
      At(cluster, ["spec", "plugins"]) == Some(List(entries)) && FirstOf(entries, i) && entries[i] == d
  }

  ghost predicate FirstOf(entries: seq<JSON>, i: nat) {
    i < |entries| && Declares(entries[i]) && forall j :: 0 <= j < i ==> !Declares(entries[j])
  }

  ghost predicate Configures(cluster: JSON, d: JSON) {
    IsDeclaration(cluster, d) && At(d, ["enabled"]) != Some(Bool(false))
  }

  /** A parameter of a declaration; one that is missing or no string is as empty. */
  ghost function Setting(d: JSON, key: string): string {
    match At(d, ["parameters", key])
    case Some(Str(text)) => text
    case _ => ""
  }

  /** Where the cluster saves to: the server of its parameters, or its own name. */
  ghost function SaveServer(cluster: JSON, d: JSON): string {
    if Setting(d, "saveToServer") != "" then Setting(d, "saveToServer")
    else match At(cluster, ["metadata", "name"])
      case Some(Str(name)) => name
      case _ => ""
  }

  /** The source is named by half, or a policy is named without one. */
  ghost predicate HalfSpecified(d: JSON) {
    var store, server := Setting(d, "restoreFromStore"), Setting(d, "restoreFromServer");
    || (store == "" && server != "") || (store != "" && server == "")
    || (Setting(d, "restorePolicy") != "" && store == "")
  }

  /** The cluster would save into the very history it restores from. */
  ghost predicate Interleaves(cluster: JSON, d: JSON) {
    && Setting(d, "saveToStore") != "" && Setting(d, "saveToStore") == Setting(d, "restoreFromStore")
    && SaveServer(cluster, d) == Setting(d, "restoreFromServer")
  }

  ghost function AsWritten(cluster: JSON, d: JSON): Configuration {
    Configuration(
      Setting(d, "saveToStore"), SaveServer(cluster, d),
      Setting(d, "restoreFromStore"), Setting(d, "restoreFromServer"), Setting(d, "restorePolicy"))
  }

  ghost predicate Restored(cluster: JSON) {
    At(cluster, ["metadata", "annotations", RESTORED_FROM]).Some?
  }

  lemma {:induction false} FindParametersFinds(entries: seq<JSON>, i: nat)
    requires i <= |entries| && (i < |entries| ==> Declares(entries[i]))
    requires forall j :: 0 <= j < i ==> !Declares(entries[j])
    ensures FindParameters(entries) ==
            if i == |entries| || At(entries[i], ["enabled"]) == Some(Bool(false)) then None
            else Some(StringParameters(entries[i].fields))
  {
    if entries != [] {
      EntryReads(entries[0]);
      if i > 0 {
        FindParametersFinds(entries[1..], i - 1);
      }
    }
  }

  lemma {:induction false} FindFirst(entries: seq<JSON>) returns (i: nat)
    ensures i <= |entries| && (i < |entries| ==> FirstOf(entries, i))
    ensures forall j :: 0 <= j < i ==> !Declares(entries[j])
  {
    i := 0;
    if entries != [] && !Declares(entries[0]) {
      i := FindFirst(entries[1..]);
      assert forall j :: 0 < j < |entries| ==> entries[j] == entries[1..][j - 1];
      i := i + 1;
    }
  }

  lemma OneDeclaration(cluster: JSON, entries: seq<JSON>, i: nat, d: JSON)
    requires At(cluster, PLUGINS_PATH) == Some(List(entries))
    requires i <= |entries| && (i < |entries| ==> FirstOf(entries, i))
    requires forall j :: 0 <= j < i ==> !Declares(entries[j])
    ensures IsDeclaration(cluster, d) <==> i < |entries| && d == entries[i]
  {
    if IsDeclaration(cluster, d) {
      var k: nat :| FirstOf(entries, k) && entries[k] == d;
      assert k == i;
    }
  }

  lemma EntryReads(entry: JSON)
    ensures IsOurs(entry) <==> Declares(entry)
    ensures entry.Obj? ==> forall key :: Parameter(StringParameters(entry.fields), key) == Setting(entry, key)
    ensures entry.Obj? ==>
              ("enabled" in entry.fields && entry.fields["enabled"] == Bool(false) <==>
               At(entry, ["enabled"]) == Some(Bool(false)))
  {
    AtStep(entry, [], "name");
    AtStep(entry, [], "enabled");
    AtStep(entry, [], "parameters");
    assert [] + ["name"] == ["name"] && [] + ["enabled"] == ["enabled"] && [] + ["parameters"] == ["parameters"];
    forall key ensures entry.Obj? ==> Parameter(StringParameters(entry.fields), key) == Setting(entry, key) {
      AtStep(entry, ["parameters"], key);
      assert ["parameters"] + [key] == ["parameters", key];
    }
  }

  lemma ConfiguredFrom(cluster: JSON, d: JSON)
    ensures PluginParameters(At(cluster, PLUGINS_PATH)) == None <==> forall e :: !Configures(cluster, e)
    ensures Configures(cluster, d) ==>
              d.Obj? && PluginParameters(At(cluster, PLUGINS_PATH)) == Some(StringParameters(d.fields))
  {
    match At(cluster, PLUGINS_PATH)
    case Some(List(entries)) =>
      var i := FindFirst(entries);
      FindParametersFinds(entries, i);
      forall e ensures IsDeclaration(cluster, e) <==> i < |entries| && e == entries[i] {
        OneDeclaration(cluster, entries, i, e);
      }
      if i < |entries| {
        assert Configures(cluster, entries[i]) <==> At(entries[i], ["enabled"]) != Some(Bool(false));
      }
    case _ =>
  }

  /** What the gate means in the terms of the manifest, for any list of declarations: which of them
      decides, what is refused, and what is restored. */
  lemma GateMeans(cluster: JSON, d: JSON)
    ensures GateOf(cluster) == NotConfigured <==> forall e :: !Configures(cluster, e)
    ensures Configures(cluster, d) ==>
              var asked := Setting(d, "restoreFromStore") != "";
              && (GateOf(cluster) == Refused <==> HalfSpecified(d) || Interleaves(cluster, d))
              && (GateOf(cluster) == NoRestore <==> !HalfSpecified(d) && !asked)
              && (GateOf(cluster) == AlreadyRestored <==>
                    !HalfSpecified(d) && !Interleaves(cluster, d) && asked && Restored(cluster))
              && (GateOf(cluster).MustRestore? <==>
                    !HalfSpecified(d) && !Interleaves(cluster, d) && asked && !Restored(cluster))
              && (GateOf(cluster).MustRestore? ==> GateOf(cluster).configuration == AsWritten(cluster, d))
  {
    ConfiguredFrom(cluster, d);
    if Configures(cluster, d) {
      EntryReads(d);
      ParametersRead(cluster, d);
    }
  }

  lemma ManifestDecides(cluster: JSON)
    ensures GateOf(cluster) in {NotConfigured, NoRestore, AlreadyRestored} <==>
              forall d :: Configures(cluster, d) ==>
                && !HalfSpecified(d) && !Interleaves(cluster, d)
                && (Setting(d, "restoreFromStore") == "" || Restored(cluster))
    ensures (exists d :: Configures(cluster, d) && (HalfSpecified(d) || Interleaves(cluster, d))) ==>
              GateOf(cluster) == Refused
  {
    forall d ensures Configures(cluster, d) ==>
                       && GateOf(cluster) != NotConfigured
                       && (GateOf(cluster) == Refused <==> HalfSpecified(d) || Interleaves(cluster, d))
                       && (GateOf(cluster).MustRestore? <==>
                             && !HalfSpecified(d) && !Interleaves(cluster, d)
                             && Setting(d, "restoreFromStore") != "" && !Restored(cluster))
    {
      GateMeans(cluster, d);
    }
    GateMeans(cluster, Null);
  }

  lemma ParametersRead(cluster: JSON, d: JSON)
    requires d.Obj?
    ensures var name := match At(cluster, NAME_PATH) case Some(Str(text)) => text case _ => "";
            var c := NewFromParameters(StringParameters(d.fields), name);
            && (Complete(c) <==> !HalfSpecified(d)) && (SourceIsDestination(c) <==> Interleaves(cluster, d))
            && c == AsWritten(cluster, d)
  {
    EntryReads(d);
  }

  /** Handle, from the decoded Cluster on. A request that is not patched is allowed or denied as
      it came. */
  method Handle(cluster: Docs.Document, source: Option<Source>) returns (response: Response, ghost plan: RestorePlan)
    requires cluster.Valid()
    requires source.Some? ==>
               && source.value.restorable.Valid() && source.value.rules.transforms.Valid()
               && {cluster} + cluster.view.nodes !! {source.value.restorable} + source.value.restorable.view.nodes
    modifies cluster, cluster.view.nodes
    ensures cluster.Valid()
    ensures response == Allowed <==> GateOf(old(cluster.view.tree)) in {NotConfigured, NoRestore, AlreadyRestored}
    ensures !GateOf(old(cluster.view.tree)).MustRestore? ==> cluster.view.tree == old(cluster.view.tree)
    ensures response == Allowed <==>
              forall d :: Configures(old(cluster.view.tree), d) ==>
                && !HalfSpecified(d) && !Interleaves(old(cluster.view.tree), d)
                && (Setting(d, "restoreFromStore") == "" || Restored(old(cluster.view.tree)))
    ensures (exists d :: Configures(old(cluster.view.tree), d)
                         && (HalfSpecified(d) || Interleaves(old(cluster.view.tree), d))) ==>
              response == Denied && cluster.view.tree == old(cluster.view.tree)
    ensures response == Patched <==>
              && GateOf(old(cluster.view.tree)).MustRestore? && source.Some?
              && Plannable(source.value.restorable.view.tree, source.value.rules)
              && Restores(old(cluster.view.tree), source.value.restorable.view.tree, source.value.rules, plan)
    ensures response == Patched ==>
              RestoredAs(old(cluster.view.tree), cluster.view.tree,
                         source.value.restorable.view.tree, source.value.rules, plan, source.value.record)
  {
    plan := RestorePlan([], []);
    var gate := ReadGate(cluster);
    ManifestDecides(cluster.view.tree);
    match gate {
      case NotConfigured => response := Allowed;
      case Refused => response := Denied;
      case NoRestore => response := Allowed;
      case AlreadyRestored => response := Allowed;
      case MustRestore(_) =>
        if source.None? {
          response := Denied;
        } else {
          response, plan := RestoreCluster(cluster, source.value);
        }
    }
  }

  /** Tables that keep the fields the gate reads out of every restore. */
  predicate GateProtected(t: Tables) {
    PLUGINS_PATH in t.deniedPaths && NAME_PATH in t.deniedPaths
  }

  lemma RecordApart(w: JSON, record: string)
    requires Settable(w, RESTORED_PATH)
    ensures var after := SetAt(w, RESTORED_PATH, Str(record));
            && At(after, PLUGINS_PATH) == At(w, PLUGINS_PATH) && At(after, NAME_PATH) == At(w, NAME_PATH)
            && At(after, RESTORED_PATH) == Some(Str(record))
  {
    var p, q, r := PLUGINS_PATH, NAME_PATH, RESTORED_PATH;
    assert p[0] == "spec" && q[0] == r[0] == "metadata" && q[1] == "name" && r[1] == "annotations";
    SetAtEffect(w, RESTORED_PATH, Str(record), PLUGINS_PATH);
    SetAtEffect(w, RESTORED_PATH, Str(record), NAME_PATH);
    SetAtEffect(w, RESTORED_PATH, Str(record), RESTORED_PATH);
  }

  /** Admission is idempotent: whatever was restored and by whatever rules, a second pass over
      the patched Cluster, with any snapshot in hand, allows it as it is. */
  lemma SecondAdmissionAllows(before: JSON, after: JSON, content: Content, r: Rules, plan: RestorePlan, record: string)
    requires DenylistFits(r.tables) && GateProtected(r.tables) && before.Obj?
    requires GateOf(before).MustRestore? && RestoredAs(before, after, RestorableTree(content), r, plan, record)
    ensures GateOf(after) == AlreadyRestored
    ensures At(after, PLUGINS_PATH) == At(before, PLUGINS_PATH) && At(after, RESTORED_PATH) == Some(Str(record))
  {
    var leaves :| IsWalk(RestorableTree(content), leaves) && PlanOf(leaves, r, plan);
    DenylistFrame(content, r, leaves, plan, before, PLUGINS_PATH);
    DenylistFrame(content, r, leaves, plan, before, NAME_PATH);
    RecordApart(Merge(before, Edits(plan.changes)).value, record);
  }

  /** What a patched cluster reads: some leaf of the snapshot was restored; every leaf neither refused
      nor skipped reads as its rules say; every other one reads as before; and the record is there. */
  lemma PatchedReads(before: JSON, after: JSON, content: Content, r: Rules, plan: RestorePlan, record: string, l: Leaf)
    requires IsDeniedMetadataKey(RESTORED_FROM, r.tables) && before.Obj? && Plannable(RestorableTree(content), r)
    requires RestoredAs(before, after, RestorableTree(content), r, plan, record)
    ensures exists k :: IsLeaf(RestorableTree(content), k) && !LeftAlone(k, r)
    ensures At(after, RESTORED_PATH) == Some(Str(record))
    ensures IsLeaf(RestorableTree(content), l) && !LeftAlone(l, r) ==>
              At(after, l.segments).Some? && ReadsAs(r, l, At(after, l.segments).value)
    ensures IsLeaf(RestorableTree(content), l) && LeftAlone(l, r) && l.segments != RESTORED_PATH ==>
              At(after, l.segments) == At(before, l.segments)
  {
    var v, w := RestorableTree(content), Merge(before, Edits(plan.changes)).value;
    var leaves :| IsWalk(v, leaves) && PlanOf(leaves, r, plan);
    RecordApart(w, record);
    SomeRestored(v, leaves, r, plan);
    if IsLeaf(v, l) {
      RecordNeverRestored(l, r.tables);
      if l.segments != RESTORED_PATH {
        LeafApartFromRecord(content, l, w, record);
      }
      if LeftAlone(l, r) {
        SkipFrame(v, leaves, r, plan, before, l, l.segments);
      } else {
        RestoredReads(v, leaves, r, plan, before, l);
      }
    }
  }

  /** No value of the cluster stands in the way of a leaf that is to be restored. */
  ghost predicate Unobstructed(before: JSON, v: JSON, r: Rules) {
    forall l, n :: IsLeaf(v, l) && !LeftAlone(l, r) && 0 < n < |l.segments| ==> !Blocks(before, l.segments[..n])
  }

  lemma ChangesWhere(v: JSON, leaves: seq<Leaf>, r: Rules, plan: RestorePlan, segments: Path)
    requires IsWalk(v, leaves) && PlanOf(leaves, r, plan)
    ensures (exists c :: c in plan.changes && c.segments == segments) <==>
            (exists l :: IsLeaf(v, l) && !LeftAlone(l, r) && l.segments == segments)
  {
    PlanChanges(v, leaves, r, plan);
    if c :| c in plan.changes && c.segments == segments {
      var l :| IsLeaf(v, l) && RestoredLeaf(l, r) && c == ChangeOf(l, r);
      NeverRestoredIff(l, r);
    }
    if l :| IsLeaf(v, l) && !LeftAlone(l, r) && l.segments == segments {
      NeverRestoredIff(l, r);
      assert ChangeOf(l, r) in plan.changes;
    }
  }

  lemma MergesIff(before: JSON, v: JSON, leaves: seq<Leaf>, r: Rules, plan: RestorePlan)
    requires before.Obj? && IsWalk(v, leaves) && PlanOf(leaves, r, plan)
    ensures Merge(before, Edits(plan.changes)).Some? <==> Unobstructed(before, v, r)
  {
    ApplyEffect(v, leaves, r, plan, before, []);
    if c, n :| c in plan.changes && 0 < n < |c.segments| && Blocks(before, c.segments[..n]) {
      ChangesWhere(v, leaves, r, plan, c.segments);
    }
    if l, n :| IsLeaf(v, l) && !LeftAlone(l, r) && 0 < n < |l.segments| && Blocks(before, l.segments[..n]) {
      ChangesWhere(v, leaves, r, plan, l.segments);
      var c :| c in plan.changes && c.segments == l.segments;
      assert Blocks(before, c.segments[..n]);
    }
  }

  /** When a plan restores a cluster: some leaf of the snapshot is to be restored, no value of the
      cluster stands in the way of one, and the record can be written. */
  lemma RestoresIff(before: JSON, v: JSON, r: Rules, plan: RestorePlan)
    requires before.Obj? && IsPlanFor(v, r, plan)
    ensures Restores(before, v, r, plan) <==>
              && (exists l :: IsLeaf(v, l) && !LeftAlone(l, r)) && Unobstructed(before, v, r)
              && (Merge(before, Edits(plan.changes)).Some? ==>
                    Settable(Merge(before, Edits(plan.changes)).value, RESTORED_PATH))
  {
    var leaves :| IsWalk(v, leaves) && PlanOf(leaves, r, plan);
    MergesIff(before, v, leaves, r, plan);
    if plan.changes != [] {
      SomeRestored(v, leaves, r, plan);
    }
    if l :| IsLeaf(v, l) && !LeftAlone(l, r) {
      ChangesWhere(v, leaves, r, plan, l.segments);
    }
  }

  lemma RecordNeverRestored(l: Leaf, t: Tables)
    requires IsDeniedMetadataKey(RESTORED_FROM, t)
    ensures l.segments == RESTORED_PATH ==> NeverRestored(l, t)
  {
    assert RESTORED_PATH[..2] == ["metadata", "annotations"];
  }

  lemma SomeRestored(v: JSON, leaves: seq<Leaf>, r: Rules, plan: RestorePlan)
    requires IsWalk(v, leaves) && PlanOf(leaves, r, plan) && plan.changes != []
    ensures exists k :: IsLeaf(v, k) && !LeftAlone(k, r)
  {
    PlanChanges(v, leaves, r, plan);
    assert plan.changes[0] in plan.changes;
    var k :| IsLeaf(v, k) && RestoredLeaf(k, r) && plan.changes[0] == ChangeOf(k, r);
    NeverRestoredIff(k, r);
  }

  lemma LeafApartFromRecord(content: Content, l: Leaf, w: JSON, record: string)
    requires IsLeaf(RestorableTree(content), l) && Settable(w, RESTORED_PATH) && l.segments != RESTORED_PATH
    ensures At(SetAt(w, RESTORED_PATH, Str(record)), l.segments) == At(w, l.segments)
  {
    LeafForms(content, l);
    var p := RESTORED_PATH;
    assert p[0] == "metadata" && p[1] == "annotations" && |p| == 3;
    assert l.segments[0] == "metadata" ==> |l.segments| == |p|;
    SetAtEffect(w, RESTORED_PATH, Str(record), l.segments);
  }

  /** No snapshot can forge or overwrite the record: its key is refused like every key of this
      plugin's domain. */
  lemma RecordComesFromAdmission(content: Content, r: Rules, leaves: seq<Leaf>, plan: RestorePlan, before: JSON)
    requires DenylistFits(r.tables) && IsDeniedMetadataKey(RESTORED_FROM, r.tables) && before.Obj?
    requires IsWalk(RestorableTree(content), leaves) && PlanOf(leaves, r, plan)
    requires Merge(before, Edits(plan.changes)).Some?
    ensures At(Merge(before, Edits(plan.changes)).value, RESTORED_PATH) == At(before, RESTORED_PATH)
  {
    DenylistFrame(content, r, leaves, plan, before, RESTORED_PATH);
  }

  lemma PluginNameHasNoSlash(i: nat)
    requires i < |PLUGIN_NAME|
    ensures PLUGIN_NAME[i] != '/'
  {
  }

  lemma OwnDomainDenied(domain: string, rest: string, t: Tables)
    requires domain in t.deniedDomains && SlashFree(domain)
    ensures IsDeniedMetadataKey(domain + "/" + rest, t)
  {
    DomainIs(domain, rest);
  }

  /** The tables this plugin ships protect all that admission reads. */
  lemma ShippedProtectsGate(fixedParameters: set<string>, managedLibraries: set<string>)
    ensures GateProtected(Shipped(fixedParameters, managedLibraries))
    ensures IsDeniedMetadataKey(RESTORED_FROM, Shipped(fixedParameters, managedLibraries))
  {
    forall i | 0 <= i < |PLUGIN_NAME| ensures PLUGIN_NAME[i] != '/' {
      PluginNameHasNoSlash(i);
    }
    var t := Shipped(fixedParameters, managedLibraries);
    assert t.deniedDomains[1] == PLUGIN_NAME && t.deniedPaths[0] == PLUGINS_PATH && t.deniedPaths[5] == NAME_PATH;
    OwnDomainDenied(PLUGIN_NAME, "restored-from", t);
    assert PLUGIN_NAME + "/" + "restored-from" == RESTORED_FROM;
  }
}
