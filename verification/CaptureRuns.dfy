/** Runs of the capture protocol for one cluster and its history: edits of the cluster and of
    the rules, both hooks, restarts, other clusters sharing the cache, and sweeps. */
module CaptureRuns {
  import opened JsonTree
  import opened Denylist
  import opened Snapshot
  import opened Layout
  import opened Refs
  import opened Retention
  import opened Store
  import opened Sweeps
  import opened Capture

  /** What a completed Post saw, to the second. */
  datatype Seen = Seen(second: nat, content: Content)

  /** past and posts record the run: every snapshot handed to Write, and every completed Post.
      publishedBy records the tables of the process that last published a watermark. */
  datatype World = World(
    cluster: Cluster,
    rules: Rules,
    objects: Objects,
    entries: Entries,
    past: seq<Snap>,
    posts: seq<Seen>,
    publishedBy: Tables)

  datatype Event =
    | Edit(tree: JSON, generation: nat)
    | Reconfigure(configured: seq<string>)
    | Upgrade(tables: Tables)
    | Post(now: nat, first: Fate, second: Fate)
    | Poll
    | Restart
    | OtherClusters(entries: Entries)
    | Elsewhere(objects: Objects)

  ghost predicate SameSpec(a: JSON, b: JSON) {
    forall f :: At(a, ["spec", f]) == At(b, ["spec", f])
  }

  /** Tables that filter labels and annotations alike. */
  predicate SameKeyFilter(a: Tables, b: Tables) {
    a.deniedDomains == b.deniedDomains && a.deniedKeys == b.deniedKeys
  }

  function OtherPlugins(statuses: seq<PluginStatus>): seq<PluginStatus> {
    if statuses == [] then []
    else (if statuses[0].name == PLUGIN_NAME then [] else [statuses[0]]) + OtherPlugins(statuses[1..])
  }

  /** CloudNativePG stores what the status hook returned under the plugin's name. */
  function Published(statuses: seq<PluginStatus>, status: ClusterStatus): seq<PluginStatus> {
    [PluginStatus(PLUGIN_NAME, Holds(status))] + OtherPlugins(statuses)
  }

  ghost function Posted(site: Site, w: World, e: Event): Outcome
    requires e.Post?
  {
    PostIn(site, w.objects, w.entries, w.cluster, w.rules, e.now, e.first, e.second)
  }

  function AfterPost(w: World, seen: Seen, out: Outcome): World {
    w.(objects := out.objects, entries := out.entries,
       past := if out.written.Some? then w.past + [out.written.value] else w.past,
       posts := if out.result.Continue? then w.posts + [seen] else w.posts)
  }

  ghost function After(site: Site, w: World, e: Event): World {
    match e
    case Edit(tree, generation) => w.(cluster := w.cluster.(tree := tree, generation := generation))
    case Reconfigure(configured) => w.(rules := w.rules.(configured := configured))
    case Upgrade(tables) => w.(rules := w.rules.(tables := tables), entries := map[])
    case Post(now, _, _) => AfterPost(w, Seen(now / SECOND, Current(w.cluster, w.rules)), Posted(site, w, e))
    case Poll =>
      (match StatusIn(site, w.objects, w.entries, w.cluster, w.rules)
       case None => w
       case Some(s) =>
         w.(cluster := w.cluster.(pluginStatus := Published(w.cluster.pluginStatus, s)), publishedBy := w.rules.tables))
    case Restart => w.(entries := map[])
    case OtherClusters(entries) => w.(entries := entries)
    case Elsewhere(objects) => w.(objects := objects)
  }

  /** What the surroundings promise: the generation never decreases and determines the spec; other
      clusters never touch this one's cache entry, but may evict it; and what happens to the
      bucket leaves Latest's answer alone, as a sweep does. An upgrade, or a downgrade, may bring
      any tables. */
  ghost predicate Allowed(site: Site, w: World, e: Event) {
    match e
    case Edit(tree, generation) =>
      generation >= w.cluster.generation && (generation == w.cluster.generation ==> SameSpec(w.cluster.tree, tree))
    case OtherClusters(entries) =>
      w.cluster.uid in entries ==> w.cluster.uid in w.entries && entries[w.cluster.uid] == w.entries[w.cluster.uid]
    case Elsewhere(objects) =>
      LatestIn(objects, site.layout, site.sum) == LatestIn(w.objects, site.layout, site.sum)
    case _ => true
  }

  /** A Write that either completes or leaves the pointer, which was there already, alone. */
  predicate CleanFates(l: KeyLayout, objects: Objects, first: Fate, second: Fate) {
    || (first.Done? && second.Done?)
    || ((first.Done? ==> second.Lost?) && (first.Lost? || l.LatestKey() in objects))
  }

  /** A failed Write did not change what Latest answers, if the cache vouches for anything. */
  ghost predicate FailsCleanly(site: Site, w: World, e: Event) {
    e.Post? && w.cluster.uid in w.entries ==> CleanFates(site.layout, w.objects, e.first, e.second)
  }

  /** The digest gives a checksum for everything, in hexadecimal, and tells contents apart. */
  ghost predicate Digests(sum: Sum) {
    && (forall c: Content :: sum(c) != "" && IsHex(ShortHash(sum(c))))
    && (forall c: Content, d: Content :: sum(c) == sum(d) ==> c == d)
  }

  lemma PlanSparesNewest(objects: Objects, l: KeyLayout, refs: seq<Ref>, cutoff: int, keys: seq<string>, k: string)
    requires Flat(objects, l) && ListingOf(refs, Listed(objects, l)) && IsPlan(refs, cutoff, keys) && k in keys
    ensures IsListed(l, k) && Newest(Listed(objects, l)).Some? && k != Newest(Listed(objects, l)).value.key
  {
    var all := Listed(objects, l);
    NamedIsChronological(l, all);
    PlannedIsDoomed(all, refs, cutoff, keys, k);
    var r :| r in all && r.key == k && Doomed(Anchor(all, cutoff), r);
    var newest, anchor := Newest(all).value, Anchor(all, cutoff).value;
    ListedKeys(objects, l, r);
    ListedKeys(objects, l, newest);
    assert anchor == newest || Before(anchor, newest);
    BeforeAsymmetric(r, anchor);
  }

  lemma LatestAfterDeletes(objects: Objects, l: KeyLayout, sum: Sum, keys: seq<string>)
    requires l.LatestKey() !in keys
    requires Newest(Listed(objects, l)).Some? ==> Newest(Listed(objects, l)).value.key !in keys
    ensures LatestIn(DeletedIn(objects, keys), l, sum) == LatestIn(objects, l, sum)
  {
    var all, left := Listed(objects, l), Listed(DeletedIn(objects, keys), l);
    forall r ensures r in left <==> r in all && r.key !in keys {
      ListedKeys(objects, l, r);
      ListedKeys(DeletedIn(objects, keys), l, r);
    }
    if Newest(all).Some? {
      NewestOfFewer(all, left);
    } else {
      assert left == {};
    }
  }

  /** A sweep that stops anywhere leaves Latest's answer alone, pointer or no pointer. */
  lemma SweepKeepsLatest(
    objects: Objects, l: KeyLayout, sum: Sum, refs: seq<Ref>, cutoff: int, keys: seq<string>, n: nat)
    requires Flat(objects, l) && ListingOf(refs, Listed(objects, l)) && IsPlan(refs, cutoff, keys) && n <= |keys|
    ensures LatestIn(DeletedIn(objects, keys[..n]), l, sum) == LatestIn(objects, l, sum)
  {
    LatestKeyApart(l);
    forall k | k in keys[..n]
      ensures k != l.LatestKey() && (Newest(Listed(objects, l)).Some? ==> k != Newest(Listed(objects, l)).value.key)
    {
      PlanSparesNewest(objects, l, refs, cutoff, keys, k);
    }
    LatestAfterDeletes(objects, l, sum, keys[..n]);
  }
}
