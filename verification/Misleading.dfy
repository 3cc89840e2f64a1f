/** Runs that show what fast-path soundness excludes: an edit made and undone before the watermark
    moves, a pointer whose Put took effect although it failed, a crash between the two Puts in
    a bucket without a pointer, and an upgrade taken back. */
module Misleading {
  import opened Wrappers
  import opened JsonTree
  import opened Groups
  import opened Denylist
  import opened Fingerprints
  import opened Snapshot
  import opened Refs
  import opened Store
  import opened Sweeps
  import opened Capture
  import opened CaptureRuns
  import opened FastPaths

  /** A Post that meets neither fast path, nor an unreadable bucket, nor a snapshot to match. */
  ghost predicate MustWrite(site: Site, w: World) {
    && !WatermarkHits(w.cluster, w.rules) && SettledKey(w.entries, w.cluster, Live(w.cluster, w.rules)).None?
    && !CaptureRefused(w.rules) && !LatestMatches(site, w.objects, w.cluster, w.rules)
    && LatestIn(w.objects, site.layout, site.sum) != Err(Corrupt)
  }

  lemma Writes(site: Site, w: World, e: Event)
    requires e.Post? && MustWrite(site, w)
    ensures Posted(site, w, e) == WriteIn(site, w.objects, w.entries, w.cluster, Live(w.cluster, w.rules),
                                          SnapshotOf(site, w.cluster, w.rules, e.now), e.first, e.second)
  {
  }

  lemma CompleteWrite(site: Site, objects: Objects, entries: Entries, c: Cluster, live: Fingerprint, snap: Snap)
    requires Decode(Document(snap), site.sum) == Some(snap)
    ensures var out := WriteIn(site, objects, entries, c, live, snap, Done, Done);
            && LatestIn(out.objects, site.layout, site.sum) == Ok(Found(snap, KeyOf(site.layout, snap)))
            && out.entries == Remembered(entries, c, live, KeyOf(site.layout, snap))
  {
    WrittenLatest(objects, site.layout, site.sum, snap);
  }

  lemma WriteThrough(site: Site, w: World, now: nat)
    requires Digests(site.sum) && MustWrite(site, w)
    ensures var w', snap := After(site, w, Post(now, Done, Done)), SnapshotOf(site, w.cluster, w.rules, now);
            && LatestIn(w'.objects, site.layout, site.sum) == Ok(Found(snap, KeyOf(site.layout, snap)))
            && w'.cluster == w.cluster && w'.rules == w.rules
            && w'.entries == Remembered(w.entries, w.cluster, Live(w.cluster, w.rules), KeyOf(site.layout, snap))
  {
    var snap := SnapshotOf(site, w.cluster, w.rules, now);
    Writes(site, w, Post(now, Done, Done));
    SnapshotDecodes(site, w.cluster, w.rules, now);
    CompleteWrite(site, w.objects, w.entries, w.cluster, Live(w.cluster, w.rules), snap);
  }

  lemma StatusOfCurrent(site: Site, c: Cluster, rules: Rules, now: nat, key: string)
    ensures var status := StatusOf(site, Found(SnapshotOf(site, c, rules, now), key), rules.tables);
            status.lastSavedGeneration == c.generation && status.metadataChecksum == Some(Live(c, rules))
  {
    FingerprintAgrees(c.tree, rules.Names(), rules.tables);
  }

  /** A status poll after a first capture publishes a watermark that hits. */
  lemma PollPublishes(site: Site, w: World, now: nat, found: Found)
    requires WatermarkFromCluster(w.cluster.pluginStatus) == None
    requires found.snap == SnapshotOf(site, w.cluster, w.rules, now)
    requires LatestIn(w.objects, site.layout, site.sum) == Ok(found)
    ensures var w' := After(site, w, Poll);
            && w' == w.(cluster := w'.cluster, publishedBy := w.rules.tables)
            && w'.cluster == w.cluster.(pluginStatus := w'.cluster.pluginStatus)
            && WatermarkHits(w'.cluster, w'.rules)
  {
    var status := StatusOf(site, found, w.rules.tables);
    StatusOfCurrent(site, w.cluster, w.rules, now, found.key);
    FirstStatus(site, w.objects, w.entries, w.cluster, w.rules, found);
    HitsOn(w.cluster, w.rules, status);
  }

  lemma HitsOn(c: Cluster, rules: Rules, status: ClusterStatus)
    requires status.lastSavedGeneration == c.generation && status.metadataChecksum == Some(Live(c, rules))
    ensures WatermarkHits(c.(pluginStatus := Published(c.pluginStatus, status)), rules)
  {
  }

  /** Under one set of rules, another fingerprint at the same generation is another content. */
  lemma OtherFingerprintOtherContent(c: Cluster, d: Cluster, rules: Rules)
    requires Live(c, rules) != Live(d, rules)
    ensures Current(c, rules) != Current(d, rules)
  {
  }

  /** The ABA run: a capture, a poll, an edit of the labels that is captured, the edit undone
      before the next poll. The last Post skips on the watermark, and the newest snapshot holds
      the labels the cluster no longer has. It is so for every cluster, every edit of its
      labels the rules capture, and all times. */
  lemma RevertedEditIsMissed(site: Site, w: World, edited: JSON, t1: nat, t2: nat, t3: nat)
    requires Digests(site.sum) && MustWrite(site, w) && w.cluster.uid !in w.entries
    requires WatermarkFromCluster(w.cluster.pluginStatus) == None
    requires Live(w.cluster, w.rules) != Live(w.cluster.(tree := edited), w.rules)
    ensures var g := w.cluster.generation;
            var published := After(site, After(site, w, Post(t1, Done, Done)), Poll);
            var recaptured := After(site, After(site, published, Edit(edited, g)), Post(t2, Done, Done));
            var end := After(site, recaptured, Edit(w.cluster.tree, g));
            && Posted(site, end, Post(t3, Done, Done)).result == Continue
            && Posted(site, end, Post(t3, Done, Done)).written == None
            && LatestIn(end.objects, site.layout, site.sum).Ok?
            && LatestIn(end.objects, site.layout, site.sum).value.snap.content != Current(end.cluster, end.rules)
  {
    var g := w.cluster.generation;
    var w1 := After(site, w, Post(t1, Done, Done));
    var w2 := After(site, w1, Poll);
    var w3 := After(site, w2, Edit(edited, g));
    var w4 := After(site, w3, Post(t2, Done, Done));
    var w5 := After(site, w4, Edit(w.cluster.tree, g));
    WriteThrough(site, w, t1);
    PollPublishes(site, w1, t1, LatestIn(w1.objects, site.layout, site.sum).value);
    SecondMustWrite(site, w, w2, w3, t1);
    WriteThrough(site, w3, t2);
    OtherFingerprintOtherContent(w3.cluster, w5.cluster, w.rules);
  }

  /** After the edit neither fast path hits: both still stand for the first capture. */
  lemma SecondMustWrite(site: Site, w: World, w2: World, w3: World, t1: nat)
    requires Digests(site.sum) && !CaptureRefused(w.rules) && w.cluster.uid == w2.cluster.uid
    requires w2.rules == w.rules && w2.cluster.tree == w.cluster.tree && w2.cluster.generation == w.cluster.generation
    requires Settles(w2.entries, w.cluster, Live(w.cluster, w.rules))
    requires LatestIn(w2.objects, site.layout, site.sum).Ok?
    requires LatestIn(w2.objects, site.layout, site.sum).value.snap == SnapshotOf(site, w.cluster, w.rules, t1)
    requires WatermarkHits(w2.cluster, w2.rules)
    requires w3 == w2.(cluster := w2.cluster.(tree := w3.cluster.tree))
    requires Live(w3.cluster, w.rules) != Live(w.cluster, w.rules)
    ensures MustWrite(site, w3)
  {
    OtherFingerprintOtherContent(w3.cluster, w.cluster, w.rules);
    assert site.sum(Current(w3.cluster, w.rules)) != site.sum(Current(w.cluster, w.rules));
  }

  /** A pointer whose Put was reported failed but took effect: the cache still vouches for the
      state before, and once the edit is undone a settled hit skips a capture the store needs. */
  lemma LandedPointerMisleads(site: Site, w: World, edited: JSON, now: nat, later: nat)
    requires Digests(site.sum) && MustWrite(site, w.(cluster := w.cluster.(tree := edited)))
    requires SettledKey(w.entries, w.cluster, Live(w.cluster, w.rules)).Some?
    requires Live(w.cluster, w.rules) != Live(w.cluster.(tree := edited), w.rules)
    ensures var g := w.cluster.generation;
            var failed := After(site, After(site, w, Edit(edited, g)), Post(now, Done, Landed));
            var end := After(site, failed, Edit(w.cluster.tree, g));
            && Posted(site, end, Post(later, Done, Done)).written == None
            && LatestIn(end.objects, site.layout, site.sum).Ok?
            && LatestIn(end.objects, site.layout, site.sum).value.snap.content != Current(end.cluster, end.rules)
  {
    var w1 := After(site, w, Edit(edited, w.cluster.generation));
    LandsAnyway(site, w1, now);
    OtherFingerprintOtherContent(w.cluster, w1.cluster, w.rules);
  }

  lemma LandsAnyway(site: Site, w: World, now: nat)
    requires Digests(site.sum) && MustWrite(site, w)
    ensures var w', snap := After(site, w, Post(now, Done, Landed)), SnapshotOf(site, w.cluster, w.rules, now);
            && LatestIn(w'.objects, site.layout, site.sum) == Ok(Found(snap, KeyOf(site.layout, snap)))
            && w'.cluster == w.cluster && w'.rules == w.rules && w'.entries == w.entries
  {
    var snap := SnapshotOf(site, w.cluster, w.rules, now);
    Writes(site, w, Post(now, Done, Landed));
    SnapshotDecodes(site, w.cluster, w.rules, now);
    LandedWrite(w.objects, w.entries, w.cluster, Live(w.cluster, w.rules), site, snap);
  }

  lemma LandedWrite(objects: Objects, entries: Entries, c: Cluster, live: Fingerprint, site: Site, snap: Snap)
    requires Decode(Document(snap), site.sum) == Some(snap)
    ensures var out := WriteIn(site, objects, entries, c, live, snap, Done, Landed);
            && LatestIn(out.objects, site.layout, site.sum) == Ok(Found(snap, KeyOf(site.layout, snap)))
            && out.entries == entries
  {
  }

  /** The crash the pointer exists for, in a bucket that has lost it: the object is put, the
      pointer is not, and Latest, which falls back to the listing, now finds the new object.
      The cache still vouches for the state before, and once the edit is undone a settled hit
      skips a capture the store needs; yet no pointer ever changed. */
  lemma UnpointedPutMisleads(site: Site, w: World, edited: JSON, now: nat, later: nat)
    requires Digests(site.sum) && MustWrite(site, w.(cluster := w.cluster.(tree := edited)))
    requires SettledKey(w.entries, w.cluster, Live(w.cluster, w.rules)).Some?
    requires Live(w.cluster, w.rules) != Live(w.cluster.(tree := edited), w.rules)
    requires site.layout.LatestKey() !in w.objects
    requires var snap := SnapshotOf(site, w.cluster.(tree := edited), w.rules, now);
             && Storable(snap, site.sum)
             && forall r :: r in Listed(w.objects, site.layout) ==> Before(r, SnapRef(site.layout, snap))
    ensures var g := w.cluster.generation;
            var crashed := After(site, After(site, w, Edit(edited, g)), Post(now, Done, Lost));
            var end := After(site, crashed, Edit(w.cluster.tree, g));
            && site.layout.LatestKey() !in end.objects
            && Posted(site, end, Post(later, Done, Done)).written == None
            && LatestIn(end.objects, site.layout, site.sum).Ok?
            && LatestIn(end.objects, site.layout, site.sum).value.snap.content != Current(end.cluster, end.rules)
  {
    var w1 := After(site, w, Edit(edited, w.cluster.generation));
    var snap := SnapshotOf(site, w1.cluster, w1.rules, now);
    DiesBetween(site, w1, now, snap);
    UnpointedWrite(w1.objects, site, snap);
    OtherFingerprintOtherContent(w.cluster, w1.cluster, w.rules);
  }

  lemma DiesBetween(site: Site, w: World, now: nat, snap: Snap)
    requires MustWrite(site, w) && snap == SnapshotOf(site, w.cluster, w.rules, now)
    ensures var w' := After(site, w, Post(now, Done, Lost));
            && w'.objects == Written(w.objects, site.layout, snap, Done, Lost)
            && w'.cluster == w.cluster && w'.rules == w.rules && w'.entries == w.entries
  {
    Writes(site, w, Post(now, Done, Lost));
  }

  lemma UnpointedWrite(objects: Objects, site: Site, snap: Snap)
    requires Storable(snap, site.sum) && site.layout.LatestKey() !in objects
    requires forall r :: r in Listed(objects, site.layout) ==> Before(r, SnapRef(site.layout, snap))
    ensures var after := Written(objects, site.layout, snap, Done, Lost);
            && site.layout.LatestKey() !in after
            && LatestIn(after, site.layout, site.sum) == Ok(Found(snap, KeyOf(site.layout, snap)))
  {
    StorableIsListed(site.layout, snap, site.sum);
    ListedAfterPut(objects, site.layout, snap, site.sum, Done);
    NewestIs(Listed(Written(objects, site.layout, snap, Done, Lost), site.layout), SnapRef(site.layout, snap));
  }

  /** A downgrade can make a watermark hit that should not. A capture under tables that keep a key;
      an upgrade whose tables drop it, and a poll before its first Post, which publishes the
      fingerprint without the key; the downgrade, and then the key removed from the cluster: the
      fingerprints agree, and the newest snapshot still holds the key. */
  lemma DowngradeMisleads(site: Site, w: World, upgraded: Tables, edited: JSON, now: nat, later: nat)
    requires Digests(site.sum) && MustWrite(site, w) && WatermarkFromCluster(w.cluster.pluginStatus) == None
    requires var t, c := w.rules.tables, w.cluster.tree;
             && METADATA_GROUP in w.rules.Names()
             && KeptMetadata(Labels(edited), t) == KeptMetadata(KeptMetadata(Labels(c), t), upgraded)
             && KeptMetadata(Annotations(edited), t) == KeptMetadata(KeptMetadata(Annotations(c), t), upgraded)
             && KeptMetadata(Labels(edited), t) != KeptMetadata(Labels(c), t)
    ensures var g := w.cluster.generation;
            var published := After(site, After(site, After(site, w, Post(now, Done, Done)), Upgrade(upgraded)), Poll);
            var end := After(site, After(site, published, Upgrade(w.rules.tables)), Edit(edited, g));
            && end.rules == w.rules && WatermarkHits(end.cluster, end.rules)
            && Posted(site, end, Post(later, Done, Done)).written == None
            && LatestIn(end.objects, site.layout, site.sum).Ok?
            && LatestIn(end.objects, site.layout, site.sum).value.snap.content != Current(end.cluster, end.rules)
  {
    var captured := After(site, w, Post(now, Done, Done));
    WriteThrough(site, w, now);
    var found := LatestIn(captured.objects, site.layout, site.sum).value;
    var status := StatusOf(site, found, upgraded);
    PollAfterUpgrade(site, captured, upgraded, found);
    StatusUnderOtherTables(site, w.cluster, w.rules, now, found, upgraded, edited);
    HitsOn(w.cluster.(tree := edited), w.rules, status);
  }

  /** The first status published for a cluster is that of the newest snapshot. */
  lemma FirstStatus(site: Site, objects: Objects, entries: Entries, c: Cluster, rules: Rules, found: Found)
    requires WatermarkFromCluster(c.pluginStatus) == None && LatestIn(objects, site.layout, site.sum) == Ok(found)
    ensures StatusIn(site, objects, entries, c, rules) == Some(StatusOf(site, found, rules.tables))
  {
  }

  lemma PollAfterUpgrade(site: Site, w: World, upgraded: Tables, found: Found)
    requires WatermarkFromCluster(w.cluster.pluginStatus) == None
    requires LatestIn(w.objects, site.layout, site.sum) == Ok(found)
    ensures var w' := After(site, After(site, w, Upgrade(upgraded)), Poll);
            && w'.cluster == w.cluster.(
                 pluginStatus := Published(w.cluster.pluginStatus, StatusOf(site, found, upgraded)))
            && w'.objects == w.objects && w'.rules == w.rules.(tables := upgraded)
  {
    FirstStatus(site, w.objects, map[], w.cluster, w.rules.(tables := upgraded), found);
  }

  lemma StatusUnderOtherTables(site: Site, c: Cluster, rules: Rules, now: nat, found: Found, t: Tables, edited: JSON)
    requires found.snap == SnapshotOf(site, c, rules, now) && METADATA_GROUP in rules.Names()
    requires KeptMetadata(Labels(edited), rules.tables) == KeptMetadata(KeptMetadata(Labels(c.tree), rules.tables), t)
    requires KeptMetadata(Annotations(edited), rules.tables)
             == KeptMetadata(KeptMetadata(Annotations(c.tree), rules.tables), t)
    ensures StatusOf(site, found, t).metadataChecksum == Some(Live(c.(tree := edited), rules))
    ensures StatusOf(site, found, t).lastSavedGeneration == c.generation
  {
  }
}
