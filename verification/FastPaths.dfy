/** When the two fast paths of Post may be trusted: the settled cache and the watermark. */
module FastPaths {
  import opened Wrappers
  import opened JsonTree
  import opened Snapshot
  import opened Extraction
  import opened Fingerprints
  import opened Layout
  import opened Store
  import opened Capture
  import opened CaptureRuns

  /** A state of the cluster and the rules at some time. */
  datatype Moment = Moment(tree: JSON, generation: nat, rules: Rules) {
    function Content(): Content {
      Extracted(tree, rules.Names(), rules.tables)
    }

    function CaptureRules(): CaptureRules {
      CaptureRulesOf(rules.Names(), rules.tables)
    }

    function Fingerprint(): Fingerprint {
      LiveFingerprint(tree, rules.Names(), rules.tables)
    }
  }

  /** A past state of this cluster: no later generation, and the same spec at the same one. */
  ghost predicate PastOf(m: Moment, c: Cluster) {
    m.generation <= c.generation && (m.generation == c.generation ==> SameSpec(m.tree, c.tree))
  }

  /** One generation and one fingerprint, one content and one set of rules. */
  lemma SameFingerprintSameCapture(m: Moment, c: Cluster, rules: Rules)
    requires PastOf(m, c) && m.generation == c.generation && m.Fingerprint() == Live(c, rules)
    ensures m.Content() == Current(c, rules) && m.CaptureRules() == CaptureRulesOf(rules.Names(), rules.tables)
  {
    FingerprintDecides(m.tree, c.tree, m.rules.Names(), rules.Names(), m.rules.tables, rules.tables);
  }

  ghost predicate EntryFrom(site: Site, objects: Objects, entry: Entry, m: Moment) {
    && entry.generation == m.generation && entry.metadataChecksum == m.Fingerprint()
    && LatestSays(site, objects, site.sum(m.Content()), m.CaptureRules())
  }

  /** The cache remembers a past state that the newest snapshot still describes. */
  ghost predicate EntrySound(site: Site, w: World) {
    w.cluster.uid in w.entries ==>
      exists m :: PastOf(m, w.cluster) && EntryFrom(site, w.objects, w.entries[w.cluster.uid], m)
  }

  lemma KeyNotLatest(l: KeyLayout, snap: Snap)
    ensures KeyOf(l, snap) != l.LatestKey() && !IsListed(l, l.LatestKey())
  {
    LatestKeyApart(l);
  }

  lemma WrittenLatest(objects: Objects, l: KeyLayout, sum: Sum, snap: Snap)
    requires Decode(Document(snap), sum) == Some(snap)
    ensures LatestIn(Written(objects, l, snap, Done, Done), l, sum) == Ok(Found(snap, KeyOf(l, snap)))
  {
  }

  /** A Write that fails before the pointer moves changes nothing Latest says, if there was a
      pointer. */
  lemma FailedWriteKeepsLatest(objects: Objects, l: KeyLayout, sum: Sum, snap: Snap, first: Fate, second: Fate)
    requires first.Done? ==> second.Lost?
    requires first.Lost? || l.LatestKey() in objects
    ensures LatestIn(Written(objects, l, snap, first, second), l, sum) == LatestIn(objects, l, sum)
  {
    KeyNotLatest(l, snap);
  }

  lemma SnapshotDecodes(site: Site, c: Cluster, rules: Rules, now: nat)
    requires Digests(site.sum)
    ensures Decode(Document(SnapshotOf(site, c, rules, now)), site.sum) == Some(SnapshotOf(site, c, rules, now))
  {
    assert site.sum(Current(c, rules)) != "";
  }

  /** The cache holds this state under this fingerprint. */
  predicate Settles(entries: Entries, c: Cluster, live: Fingerprint) {
    c.uid in entries && entries[c.uid].generation == c.generation && entries[c.uid].metadataChecksum == live
  }

  lemma WriteLeaves(
    site: Site, objects: Objects, entries: Entries, c: Cluster, live: Fingerprint, snap: Snap, first: Fate,
    second: Fate)
    requires Decode(Document(snap), site.sum) == Some(snap)
    ensures var out := WriteIn(site, objects, entries, c, live, snap, first, second);
            && (out.result.Continue? ==>
                  LatestSays(site, out.objects, snap.checksum, snap.captureRules) && Settles(out.entries, c, live))
            && (!out.result.Continue? ==> out.entries == entries)
            && (!out.result.Continue? && CleanFates(site.layout, objects, first, second) ==>
                  LatestIn(out.objects, site.layout, site.sum) == LatestIn(objects, site.layout, site.sum))
  {
    if first.Done? && second.Done? {
      WrittenLatest(objects, site.layout, site.sum, snap);
    } else if CleanFates(site.layout, objects, first, second) {
      FailedWriteKeepsLatest(objects, site.layout, site.sum, snap, first, second);
    }
  }

  /** A capture that completes leaves the newest snapshot saying what it captured, and says so
      in the cache; one that fails cleanly leaves both as they were. */
  lemma CaptureLeaves(
    site: Site, objects: Objects, entries: Entries, c: Cluster, live: Fingerprint, snap: Snap, first: Fate,
    second: Fate, out: Outcome)
    requires Decode(Document(snap), site.sum) == Some(snap)
    requires out == CaptureIn(site, objects, entries, c, live, snap, first, second)
    ensures out.result.Continue? ==>
              LatestSays(site, out.objects, snap.checksum, snap.captureRules) && Settles(out.entries, c, live)
    ensures !out.result.Continue? ==> out.entries == entries
    ensures !out.result.Continue? && CleanFates(site.layout, objects, first, second) ==>
              LatestIn(out.objects, site.layout, site.sum) == LatestIn(objects, site.layout, site.sum)
  {
    WriteLeaves(site, objects, entries, c, live, snap, first, second);
  }

  /** A Post that goes past both fast paths and completes. */
  ghost predicate Captures(site: Site, w: World, e: Event)
    requires e.Post?
  {
    && !WatermarkHits(w.cluster, w.rules) && SettledKey(w.entries, w.cluster, Live(w.cluster, w.rules)).None?
    && Posted(site, w, e).result.Continue?
  }

  /** Past the fast paths and a refused group: the store is asked. */
  ghost predicate Reaches(w: World) {
    && !WatermarkHits(w.cluster, w.rules) && SettledKey(w.entries, w.cluster, Live(w.cluster, w.rules)).None?
    && !CaptureRefused(w.rules)
  }

  lemma PostLeaves(site: Site, w: World, e: Event)
    requires e.Post? && Digests(site.sum)
    ensures var out := Posted(site, w, e);
            && (Captures(site, w, e) ==>
                  LatestMatches(site, out.objects, w.cluster, w.rules)
                  && Settles(out.entries, w.cluster, Live(w.cluster, w.rules)))
            && (!Captures(site, w, e) ==> out.entries == w.entries)
            && (!Captures(site, w, e) && CleanFates(site.layout, w.objects, e.first, e.second) ==>
                  LatestIn(out.objects, site.layout, site.sum) == LatestIn(w.objects, site.layout, site.sum))
  {
    var snap := SnapshotOf(site, w.cluster, w.rules, e.now);
    SnapshotDecodes(site, w.cluster, w.rules, e.now);
    if Reaches(w) {
      CaptureLeaves(site, w.objects, w.entries, w.cluster, Live(w.cluster, w.rules), snap, e.first, e.second,
        Posted(site, w, e));
    }
  }

  lemma EntrySoundKept(site: Site, w: World, w': World)
    requires EntrySound(site, w) && w'.cluster.uid == w.cluster.uid
    requires w'.cluster.uid in w'.entries ==>
               w'.cluster.uid in w.entries && w'.entries[w'.cluster.uid] == w.entries[w'.cluster.uid]
    requires forall m :: PastOf(m, w.cluster) ==> PastOf(m, w'.cluster)
    requires w'.cluster.uid in w'.entries ==>
               LatestIn(w'.objects, site.layout, site.sum) == LatestIn(w.objects, site.layout, site.sum)
    ensures EntrySound(site, w')
  {
    if w'.cluster.uid in w'.entries {
      var m :| PastOf(m, w.cluster) && EntryFrom(site, w.objects, w.entries[w.cluster.uid], m);
      assert EntryFrom(site, w'.objects, w'.entries[w'.cluster.uid], m);
    }
  }

  lemma EntrySoundStep(site: Site, w: World, e: Event)
    requires Digests(site.sum) && EntrySound(site, w) && Allowed(site, w, e) && FailsCleanly(site, w, e)
    ensures EntrySound(site, After(site, w, e))
  {
    var w' := After(site, w, e);
    if e.Post? {
      PostLeaves(site, w, e);
      if !Captures(site, w, e) {
        EntrySoundKept(site, w, w');
      } else {
        var m := Moment(w.cluster.tree, w.cluster.generation, w.rules);
        assert PastOf(m, w'.cluster) && EntryFrom(site, w'.objects, w'.entries[w'.cluster.uid], m);
      }
    } else {
      EntrySoundKept(site, w, w');
    }
  }

  ghost function AfterAll(site: Site, w: World, events: seq<Event>): World
    decreases |events|
  {
    if events == [] then w else AfterAll(site, After(site, w, events[0]), events[1..])
  }

  /** Every event is one the surroundings allow, and failed writes fail cleanly while the cache
      vouches for anything. */
  ghost predicate Lawful(site: Site, w: World, events: seq<Event>)
    decreases |events|
  {
    events != [] ==>
      && Allowed(site, w, events[0]) && FailsCleanly(site, w, events[0])
      && Lawful(site, After(site, w, events[0]), events[1..])
  }

  lemma {:induction false} EntrySoundRun(site: Site, w: World, events: seq<Event>)
    requires Digests(site.sum) && EntrySound(site, w) && Lawful(site, w, events)
    ensures EntrySound(site, AfterAll(site, w, events))
    decreases |events|
  {
    if events != [] {
      EntrySoundStep(site, w, events[0]);
      EntrySoundRun(site, After(site, w, events[0]), events[1..]);
    }
  }

  /** Fast-path soundness, the cache: in every run of a process whose failed writes fail
      cleanly, a settled hit means the store's newest snapshot already has the content and
      rules a capture would produce. */
  lemma SettledHitIsSound(site: Site, w: World, events: seq<Event>)
    requires Digests(site.sum) && w.cluster.uid !in w.entries && Lawful(site, w, events)
    ensures var w' := AfterAll(site, w, events);
            SettledKey(w'.entries, w'.cluster, Live(w'.cluster, w'.rules)).Some? ==>
              LatestMatches(site, w'.objects, w'.cluster, w'.rules)
  {
    EntrySoundRun(site, w, events);
    var w' := AfterAll(site, w, events);
    if SettledKey(w'.entries, w'.cluster, Live(w'.cluster, w'.rules)).Some? {
      SettledSound(site, w');
    }
  }

  lemma SettledSound(site: Site, w: World)
    requires EntrySound(site, w) && SettledKey(w.entries, w.cluster, Live(w.cluster, w.rules)).Some?
    ensures LatestMatches(site, w.objects, w.cluster, w.rules)
  {
    var m :| PastOf(m, w.cluster) && EntryFrom(site, w.objects, w.entries[w.cluster.uid], m);
    SameFingerprintSameCapture(m, w.cluster, w.rules);
  }
}
