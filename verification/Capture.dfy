/** The capture hook and its two caches: Post of internal/cnpgi/operator/reconciler.go,
    settled.go beside it, and the status hook of status.go. */
module Capture {
  import opened Wrappers
  import opened JsonTree
  import opened Groups
  import opened Denylist
  import opened Snapshot
  import opened Extraction
  import opened Fingerprints
  import opened Layout
  import opened Store

  /** What the plugin publishes into the Cluster's status; a status written by something else
      may lack the fingerprint. */
  datatype ClusterStatus = ClusterStatus(
    lastSavedGeneration: nat,
    lastSavedAt: nat,
    snapshotKey: string,
    checksum: string,
    metadataChecksum: Option<Fingerprint>,
    store: string,
    serverName: string)

  /** The text of one plugin's status: absent, not readable, or a status. */
  datatype StatusText = Empty | Malformed | Holds(status: ClusterStatus)

  datatype PluginStatus = PluginStatus(name: string, status: StatusText)

  /** The Cluster a hook is handed; tree is its generic form. */
  datatype Cluster = Cluster(uid: string, generation: nat, tree: JSON, pluginStatus: seq<PluginStatus>)

  /** The watermark this plugin last published. */
  function WatermarkFromCluster(statuses: seq<PluginStatus>): Option<ClusterStatus> {
    if statuses == [] then None
    else if statuses[0].name != PLUGIN_NAME || statuses[0].status.Empty? then WatermarkFromCluster(statuses[1..])
    else match statuses[0].status
      case Holds(status) => Some(status)
      case _ => None
  }

  /** Where a cluster's history lives, and the digest of its contents. */
  datatype Site = Site(layout: KeyLayout, sum: Sum, store: string, server: string)

  /** The capture rules in force: the groups the store enables, and this build's tables. */
  datatype Rules = Rules(configured: seq<string>, tables: Tables) {
    function Names(): seq<string> {
      EffectiveGroups(configured, tables.groups)
    }
  }

  function Live(cluster: Cluster, rules: Rules): Fingerprint {
    LiveFingerprint(cluster.tree, rules.Names(), rules.tables)
  }

  function Current(cluster: Cluster, rules: Rules): Content {
    Extracted(cluster.tree, rules.Names(), rules.tables)
  }

  datatype Entry = Entry(generation: nat, metadataChecksum: Fingerprint, snapshotKey: string)

  type Entries = map<string, Entry>

  const MAX_SETTLED_ENTRIES := 1024

  function SettledKey(entries: Entries, cluster: Cluster, fingerprint: Fingerprint): Option<string> {
    if cluster.uid in entries && entries[cluster.uid].generation == cluster.generation
       && entries[cluster.uid].metadataChecksum == fingerprint
    then Some(entries[cluster.uid].snapshotKey) else None
  }

  function Remembered(entries: Entries, cluster: Cluster, fingerprint: Fingerprint, key: string): Entries {
    (if |entries| >= MAX_SETTLED_ENTRIES then map[] else entries)
    [cluster.uid := Entry(cluster.generation, fingerprint, key)]
  }

  class SettledCache {
    var entries: Entries

    constructor ()
      ensures entries == map[]
    {
      entries := map[];
    }

    method Settled(cluster: Cluster, fingerprint: Fingerprint) returns (key: Option<string>)
      ensures key == SettledKey(entries, cluster, fingerprint)
      ensures key.Some? <==> exists k :: (cluster.uid, Entry(cluster.generation, fingerprint, k)) in entries.Items
    {
      if cluster.uid !in entries {
        return None;
      }
      var entry := entries[cluster.uid];
      if entry.generation != cluster.generation || entry.metadataChecksum != fingerprint {
        return None;
      }
      key := Some(entry.snapshotKey);
    }

    method Remember(cluster: Cluster, fingerprint: Fingerprint, key: string)
      modifies this
      ensures entries == Remembered(old(entries), cluster, fingerprint, key)
      ensures |old(entries)| <= MAX_SETTLED_ENTRIES ==> |entries| <= MAX_SETTLED_ENTRIES
    {
      if |entries| >= MAX_SETTLED_ENTRIES {
        entries := map[];
      }
      entries := entries[cluster.uid := Entry(cluster.generation, fingerprint, key)];
    }
  }

  /** The snapshot a capture makes. */
  function SnapshotOf(site: Site, cluster: Cluster, rules: Rules, now: nat): Snap {
    var content := Current(cluster, rules);
    Snap(API_VERSION, KIND, now, cluster.generation, rules.Names(), CaptureRulesOf(rules.Names(), rules.tables),
         content, site.sum(content))
  }

  predicate WatermarkHits(cluster: Cluster, rules: Rules) {
    match WatermarkFromCluster(cluster.pluginStatus)
    case Some(w) => w.lastSavedGeneration == cluster.generation && w.metadataChecksum == Some(Live(cluster, rules))
    case None => false
  }

  /** The newest snapshot in the store has this checksum and these rules. */
  ghost predicate LatestSays(site: Site, objects: Objects, checksum: string, captureRules: CaptureRules) {
    match LatestIn(objects, site.layout, site.sum)
    case Ok(found) => found.snap.checksum == checksum && found.snap.captureRules == captureRules
    case Err(_) => false
  }

  /** The newest snapshot in the store says what a capture now would say. */
  ghost predicate LatestMatches(site: Site, objects: Objects, cluster: Cluster, rules: Rules) {
    LatestSays(site, objects, site.sum(Current(cluster, rules)), CaptureRulesOf(rules.Names(), rules.tables))
  }

  ghost predicate CaptureRefused(rules: Rules) {
    exists name :: name in rules.Names() && Refused(name, rules.tables)
  }

  datatype PostResult = Continue | Requeue | Failed

  /** What one Post does: the new bucket and cache, and whether it reached Write. */
  datatype Outcome = Outcome(result: PostResult, objects: Objects, entries: Entries, written: Option<Snap>)

  function WriteIn(
    site: Site, objects: Objects, entries: Entries, cluster: Cluster, live: Fingerprint, snap: Snap, first: Fate,
    second: Fate)
    : Outcome
  {
    var after := Written(objects, site.layout, snap, first, second);
    if first.Done? && second.Done? then
      Outcome(Continue, after, Remembered(entries, cluster, live, KeyOf(site.layout, snap)), Some(snap))
    else
      Outcome(Failed, after, entries, Some(snap))
  }

  /** The part of Post that needs the object store. */
  ghost function CaptureIn(
    site: Site, objects: Objects, entries: Entries, cluster: Cluster, live: Fingerprint, snap: Snap, first: Fate,
    second: Fate)
    : Outcome
  {
    var latest := LatestIn(objects, site.layout, site.sum);
    if LatestSays(site, objects, snap.checksum, snap.captureRules) then
      Outcome(Continue, objects, Remembered(entries, cluster, live, latest.value.key), None)
    else if latest == Err(Corrupt) then
      Outcome(Failed, objects, entries, None)
    else
      WriteIn(site, objects, entries, cluster, live, snap, first, second)
  }

  ghost function PostIn(
    site: Site, objects: Objects, entries: Entries, cluster: Cluster, rules: Rules, now: nat, first: Fate, second: Fate)
    : Outcome
  {
    var live := Live(cluster, rules);
    if WatermarkHits(cluster, rules) || SettledKey(entries, cluster, live).Some? then
      Outcome(Continue, objects, entries, None)
    else if CaptureRefused(rules) then
      Outcome(Failed, objects, entries, None)
    else
      CaptureIn(site, objects, entries, cluster, live, SnapshotOf(site, cluster, rules, now), first, second)
  }

  /** The watermark for a stored snapshot: every input is recorded in the snapshot itself. */
  function StatusOf(site: Site, found: Found, t: Tables): ClusterStatus {
    var snap := found.snap;
    ClusterStatus(
      snap.generation, snap.capturedAt / SECOND, found.key, snap.checksum,
      Some(FingerprintOf(snap.content.labels, snap.content.annotations, snap.groups, snap.captureRules, t)),
      site.store, site.server)
  }

  /** SetStatusInCluster: nothing while the published status still holds, else what the store says. */
  ghost function StatusIn(site: Site, objects: Objects, entries: Entries, cluster: Cluster, rules: Rules)
    : Option<ClusterStatus>
  {
    var live, published := Live(cluster, rules), WatermarkFromCluster(cluster.pluginStatus);
    var ours := published.Some? && published.value.store == site.store && published.value.serverName == site.server;
    if ours && WatermarkHits(cluster, rules) then None
    else if ours && SettledKey(entries, cluster, live) == Some(published.value.snapshotKey) then None
    else match LatestIn(objects, site.layout, site.sum)
      case Err(_) => None
      case Ok(found) => Some(StatusOf(site, found, rules.tables))
  }

  class Hooks {
    const snapshots: SnapshotStore
    const settled: SettledCache
    const site: Site

    constructor (snapshots: SnapshotStore, settled: SettledCache, store: string, server: string)
      ensures this.snapshots == snapshots && this.settled == settled
      ensures site == Site(snapshots.layout, snapshots.sum, store, server)
    {
      this.snapshots, this.settled := snapshots, settled;
      this.site := Site(snapshots.layout, snapshots.sum, store, server);
    }

    ghost predicate Valid() {
      site.layout == snapshots.layout && site.sum == snapshots.sum
    }

    /** Post, for a Cluster with saving enabled; a missing ConfigStore is waited for. */
    method Post(
      cluster: Cluster, configStore: Option<seq<string>>, tables: Tables, now: nat, first: Fate, second: Fate)
      returns (result: PostResult)
      requires Valid() && DenylistFits(tables)
      modifies snapshots.backend, settled
      ensures match configStore
        case None =>
          result == Requeue && snapshots.backend.objects == old(snapshots.backend.objects)
          && settled.entries == old(settled.entries)
        case Some(configured) =>
          var out := PostIn(site, old(snapshots.backend.objects), old(settled.entries), cluster,
                            Rules(configured, tables), now, first, second);
          result == out.result && snapshots.backend.objects == out.objects && settled.entries == out.entries
    {
      if configStore.None? {
        return Requeue;
      }
      var rules := Rules(configStore.value, tables);
      var fingerprint := Live(cluster, rules);
      var watermark := WatermarkFromCluster(cluster.pluginStatus);
      if watermark.Some? && watermark.value.lastSavedGeneration == cluster.generation
         && watermark.value.metadataChecksum == Some(fingerprint) {
        return Continue;
      }
      var known := settled.Settled(cluster, fingerprint);
      if known.Some? {
        return Continue;
      }
      var content := Extract(cluster.tree, rules.configured, tables);
      if content.Err? {
        return Failed;
      }
      var snap := SnapshotOf(site, cluster, rules, now);
      result := CheckAndWrite(cluster, fingerprint, snap, first, second);
    }

    method CheckAndWrite(cluster: Cluster, fingerprint: Fingerprint, snap: Snap, first: Fate, second: Fate)
      returns (result: PostResult)
      requires Valid()
      modifies snapshots.backend, settled
      ensures var out := CaptureIn(site, old(snapshots.backend.objects), old(settled.entries),
                                 cluster, fingerprint, snap, first, second);
              result == out.result && snapshots.backend.objects == out.objects && settled.entries == out.entries
    {
      var latest := snapshots.Latest();
      if latest.Ok? {
        var found := latest.value;
        if found.snap.checksum == snap.checksum && found.snap.captureRules == snap.captureRules {
          settled.Remember(cluster, fingerprint, found.key);
          return Continue;
        }
      } else if latest.error != NotFound {
        return Failed;
      }
      result := WriteAndRemember(cluster, fingerprint, snap, first, second);
    }

    method WriteAndRemember(cluster: Cluster, fingerprint: Fingerprint, snap: Snap, first: Fate, second: Fate)
      returns (result: PostResult)
      requires Valid()
      modifies snapshots.backend, settled
      ensures var out := WriteIn(site, old(snapshots.backend.objects), old(settled.entries),
                                cluster, fingerprint, snap, first, second);
              result == out.result && snapshots.backend.objects == out.objects && settled.entries == out.entries
    {
      var key := snapshots.Write(snap, first, second);
      if key.None? {
        return Failed;
      }
      settled.Remember(cluster, fingerprint, key.value);
      result := Continue;
    }

    /** The status to publish; None is a no-op, as is anything that stops the store answering. */
    method SetStatusInCluster(cluster: Cluster, configStore: Option<seq<string>>, tables: Tables)
      returns (status: Option<ClusterStatus>)
      requires Valid()
      ensures match configStore
        case None => status == None
        case Some(configured) =>
          status == StatusIn(site, snapshots.backend.objects, settled.entries, cluster, Rules(configured, tables))
    {
      if configStore.None? {
        return None;
      }
      var rules := Rules(configStore.value, tables);
      var fingerprint := Live(cluster, rules);
      var published := WatermarkFromCluster(cluster.pluginStatus);
      if published.Some? && published.value.store == site.store && published.value.serverName == site.server {
        if published.value.lastSavedGeneration == cluster.generation
           && published.value.metadataChecksum == Some(fingerprint) {
          return None;
        }
        var key := settled.Settled(cluster, fingerprint);
        if key == Some(published.value.snapshotKey) {
          return None;
        }
      }
      var latest := snapshots.Latest();
      if latest.Err? {
        return None;
      }
      status := Some(StatusOf(site, latest.value, tables));
    }
  }
}
