/** The capture allowlist of internal/snapshot/groups.go. */
module Groups {
  import opened Wrappers
  import opened JsonTree
  import opened Order

  /** A named set of fields, all of them directly under spec. */
  datatype Group = Group(name: string, fields: seq<string>, defaultEnabled: bool) {
    /** The paths of the group, kept split; the source writes them dotted. */
    function Paths(): (paths: seq<Path>)
      ensures |paths| == |fields|
      ensures forall i :: 0 <= i < |fields| ==> paths[i] == ["spec", fields[i]]
    {
      seq(|fields|, i requires 0 <= i < |fields| => ["spec", fields[i]])
    }
  }

  const METADATA_GROUP := "Metadata"

  const GUCS := ["postgresql", "podSelectorRefs"]
  const RESOURCES := ["resources"]
  const STORAGE := ["storage", "walStorage", "tablespaces"]
  const SCHEDULING := [
    "affinity", "topologySpreadConstraints",
    "priorityClassName", "schedulerName", "nodeMaintenanceWindow"
  ]
  const INSTANCES := ["instances"]
  const METADATA := ["inheritedMetadata"]
  const IMAGE := ["imageName", "imageCatalogRef", "imagePullPolicy", "imagePullSecrets"]
  const MONITORING := ["monitoring"]
  const MANAGED := ["managed"]
  const PODENV := [
    "env", "envFrom", "projectedVolumeTemplate",
    "serviceAccountTemplate", "ephemeralVolumeSource", "ephemeralVolumesSizeLimit"
  ]
  const REPLICATION := ["replicationSlots", "minSyncReplicas", "maxSyncReplicas"]
  const TIMINGS := [
    "startDelay", "stopDelay", "smartShutdownTimeout", "switchoverDelay", "failoverDelay",
    "livenessProbeTimeout", "probes", "primaryUpdateStrategy", "primaryUpdateMethod", "primaryLease"
  ]
  const SECURITY := ["podSecurityContext", "securityContext", "seccompProfile"]
  const MISC := ["description", "logLevel", "enablePDB"]
  const IDENTITY := ["postgresUID", "postgresGID", "serviceAccountName"]
  const SECRETS := ["certificates", "superuserSecret", "enableSuperuserAccess"]

  /** The table this plugin version ships. */
  const GROUPS: seq<Group> := [
    Group("Gucs", GUCS, true),
    Group("Resources", RESOURCES, true),
    Group("Storage", STORAGE, true),
    Group("Scheduling", SCHEDULING, true),
    Group("Instances", INSTANCES, true),
    Group(METADATA_GROUP, METADATA, true),
    Group("Image", IMAGE, true),
    Group("Monitoring", MONITORING, true),
    Group("Managed", MANAGED, true),
    Group("PodEnv", PODENV, true),
    Group("Replication", REPLICATION, true),
    Group("Timings", TIMINGS, true),
    Group("Security", SECURITY, true),
    Group("Misc", MISC, true),
    Group("Identity", IDENTITY, false),
    Group("Secrets", SECRETS, false)
  ]

  /** The first group of the table with this name. */
  function LookupGroup(name: string, table: seq<Group>): (g: Option<Group>)
    ensures g.Some? ==> g.value in table && g.value.name == name
    ensures g.None? ==> forall h :: h in table ==> h.name != name
  {
    if table == [] then None
    else if table[0].name == name then Some(table[0])
    else LookupGroup(name, table[1..])
  }

  /** The spec fields a cluster's identity and archiving hang on. */
  const DENIED_FIELDS: seq<string> := ["plugins", "backup", "externalClusters", "bootstrap", "replica"]

  /** A field name without a dot, and not one of the denied ones. */
  predicate FieldName(f: string) {
    && f != "" && (forall i :: 0 <= i < |f| ==> f[i] != '.')
    && (forall j :: 0 <= j < |DENIED_FIELDS| ==> f != DENIED_FIELDS[j])
  }

  ghost predicate NamesFit(fields: seq<string>) {
    forall j :: 0 <= j < |fields| ==> FieldName(fields[j])
  }

  lemma FirstNamesFit()
    ensures NamesFit(GUCS)
    ensures NamesFit(RESOURCES)
    ensures NamesFit(STORAGE)
    ensures NamesFit(SCHEDULING)
  {
    assert NamesFit(GUCS) by {
      assert FieldName(GUCS[0]) && FieldName(GUCS[1]);
    }
    assert NamesFit(RESOURCES) by {
      assert FieldName(RESOURCES[0]);
    }
    assert NamesFit(STORAGE) by {
      assert FieldName(STORAGE[0]) && FieldName(STORAGE[1]) && FieldName(STORAGE[2]);
    }
    assert NamesFit(SCHEDULING) by {
      assert FieldName(SCHEDULING[0]) && FieldName(SCHEDULING[1]) && FieldName(SCHEDULING[2]);
      assert FieldName(SCHEDULING[3]) && FieldName(SCHEDULING[4]);
    }
  }

  lemma SecondNamesFit()
    ensures NamesFit(INSTANCES)
    ensures NamesFit(METADATA)
    ensures NamesFit(IMAGE)
    ensures NamesFit(MONITORING)
    ensures NamesFit(MANAGED)
  {
    assert NamesFit(INSTANCES) by {
      assert FieldName(INSTANCES[0]);
    }
    assert NamesFit(METADATA) by {
      assert FieldName(METADATA[0]);
    }
    assert NamesFit(IMAGE) by {
      assert FieldName(IMAGE[0]) && FieldName(IMAGE[1]) && FieldName(IMAGE[2]) && FieldName(IMAGE[3]);
    }
    assert NamesFit(MONITORING) by {
      assert FieldName(MONITORING[0]);
    }
    assert NamesFit(MANAGED) by {
      assert FieldName(MANAGED[0]);
    }
  }

  lemma PodNamesFit()
    ensures NamesFit(PODENV)
    ensures NamesFit(REPLICATION)
  {
    assert NamesFit(PODENV) by {
      assert FieldName(PODENV[0]) && FieldName(PODENV[1]) && FieldName(PODENV[2]);
      assert FieldName(PODENV[3]) && FieldName(PODENV[4]);
      assert FieldName(PODENV[5]);
    }
    assert NamesFit(REPLICATION) by {
      assert FieldName(REPLICATION[0]) && FieldName(REPLICATION[1]) && FieldName(REPLICATION[2]);
    }
  }

  lemma FirstTimingsFit(i: nat)
    requires i < 5
    ensures FieldName(TIMINGS[i])
  {
  }

  lemma LastTimingsFit(i: nat)
    requires 5 <= i < 10
    ensures FieldName(TIMINGS[i])
  {
  }

  lemma TimingNamesFit()
    ensures NamesFit(TIMINGS)
  {
    forall i | 0 <= i < 10 ensures FieldName(TIMINGS[i]) {
      if i < 5 {
        FirstTimingsFit(i);
      } else {
        LastTimingsFit(i);
      }
    }
  }

  lemma LastNamesFit()
    ensures NamesFit(SECURITY)
    ensures NamesFit(MISC)
    ensures NamesFit(IDENTITY)
    ensures NamesFit(SECRETS)
  {
    assert NamesFit(SECURITY) by {
      assert FieldName(SECURITY[0]) && FieldName(SECURITY[1]) && FieldName(SECURITY[2]);
    }
    assert NamesFit(MISC) by {
      assert FieldName(MISC[0]) && FieldName(MISC[1]) && FieldName(MISC[2]);
    }
    assert NamesFit(IDENTITY) by {
      assert FieldName(IDENTITY[0]) && FieldName(IDENTITY[1]) && FieldName(IDENTITY[2]);
    }
    assert NamesFit(SECRETS) by {
      assert FieldName(SECRETS[0]) && FieldName(SECRETS[1]) && FieldName(SECRETS[2]);
    }
  }

  /** No captured field name holds a dot or is denied. */
  lemma FieldNamesFit(g: Group, field: string)
    requires g in GROUPS && field in g.fields
    ensures '.' !in field && field != "" && field !in DENIED_FIELDS
  {
    FirstNamesFit();
    SecondNamesFit();
    PodNamesFit();
    TimingNamesFit();
    LastNamesFit();
    assert NamesFit(g.fields);
    assert FieldName(field);
  }

  function EnabledByDefault(groups: seq<Group>): seq<string> {
    if groups == [] then []
    else (if groups[0].defaultEnabled then [groups[0].name] else []) + EnabledByDefault(groups[1..])
  }

  function DefaultGroupNames(table: seq<Group>): seq<string> {
    SortStrings(EnabledByDefault(table))
  }

  /** The configured selection, or the default set when it is empty. */
  function EffectiveGroups(configured: seq<string>, table: seq<Group>): seq<string> {
    if configured == [] then DefaultGroupNames(table) else configured
  }

  lemma {:induction false} EnabledByDefaultAre(groups: seq<Group>, name: string)
    ensures name in EnabledByDefault(groups) <==> exists g :: g in groups && g.defaultEnabled && g.name == name
  {
    if groups != [] {
      EnabledByDefaultAre(groups[1..], name);
      assert groups == [groups[0]] + groups[1..];
    }
  }

  /** The groups of a capture: those configured, and if none are, those enabled by default. */
  lemma EffectiveGroupsAre(configured: seq<string>, table: seq<Group>, name: string)
    ensures configured != [] ==> (name in EffectiveGroups(configured, table) <==> name in configured)
    ensures configured == [] ==>
              (name in EffectiveGroups(configured, table) <==>
               exists g :: g in table && g.defaultEnabled && g.name == name)
  {
    var defaults := EnabledByDefault(table);
    EnabledByDefaultAre(table, name);
    SortStringsSorts(defaults);
    assert name in SortStrings(defaults) <==> name in multiset(SortStrings(defaults));
    assert name in defaults <==> name in multiset(defaults);
  }
}
