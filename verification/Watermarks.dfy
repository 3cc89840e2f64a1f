/** What the watermark on the Cluster is worth to Post, and where it misleads. */
module Watermarks {
  import opened Wrappers
  import opened Groups
  import opened Denylist
  import opened Snapshot
  import opened Fingerprints
  import opened Layout
  import opened Refs
  import opened Store
  import opened Sweeps
  import opened Capture
  import opened CaptureRuns
  import opened FastPaths

  /** A snapshot is what a capture of that moment records. */
  ghost predicate CapturedAt(site: Site, snap: Snap, m: Moment) {
    && snap.generation == m.generation && snap.groups == m.rules.Names() && snap.captureRules == m.CaptureRules()
    && snap.content == m.Content() && snap.checksum == site.sum(snap.content)
  }

  ghost predicate FromThisCluster(site: Site, c: Cluster, snap: Snap) {
    exists m :: CapturedAt(site, snap, m) && PastOf(m, c)
  }

  /** A later second, or a later generation within one. */
  predicate Follows(p: Snap, snap: Snap) {
    var a, b := p.capturedAt / SECOND, snap.capturedAt / SECOND;
    a < b || (a == b && p.generation < snap.generation)
  }

  /** A Post that writes, writes a well-formed key, later than all before. */
  ghost predicate Dated(site: Site, w: World, e: Event) {
    e.Post? && Posted(site, w, e).written.Some? ==>
      && Storable(Posted(site, w, e).written.value, site.sum)
      && forall p :: p in w.past ==> Follows(p, Posted(site, w, e).written.value)
  }

  ghost predicate PastSound(site: Site, w: World) {
    forall snap :: snap in w.past ==> FromThisCluster(site, w.cluster, snap) && Storable(snap, site.sum)
  }

  ghost predicate KeysApart(l: KeyLayout, past: seq<Snap>) {
    forall a, b :: a in past && b in past && KeyOf(l, a) == KeyOf(l, b) ==> a == b
  }

  ghost predicate LatestFromPast(site: Site, w: World) {
    match LatestIn(w.objects, site.layout, site.sum)
    case Ok(found) => found.snap in w.past && found.key == KeyOf(site.layout, found.snap)
    case Err(_) => true
  }

  ghost predicate IsStatusOf(site: Site, past: seq<Snap>, status: ClusterStatus, snap: Snap, t: Tables) {
    snap in past && status == StatusOf(site, Found(snap, KeyOf(site.layout, snap)), t)
  }

  ghost predicate WatermarkFromPast(site: Site, w: World) {
    match WatermarkFromCluster(w.cluster.pluginStatus)
    case Some(status) => exists snap :: IsStatusOf(site, w.past, status, snap, w.publishedBy)
    case None => true
  }

  /** The entry names a snapshot of this run that says what the remembered state captures. */
  ghost predicate EntryNamesPast(site: Site, past: seq<Snap>, entry: Entry, m: Moment, p: Snap) {
    && entry.generation == m.generation && entry.metadataChecksum == m.Fingerprint()
    && p in past && KeyOf(site.layout, p) == entry.snapshotKey
    && p.checksum == site.sum(m.Content()) && p.captureRules == m.CaptureRules()
  }

  ghost predicate EntryFromPast(site: Site, w: World) {
    w.cluster.uid in w.entries ==>
      exists m, p :: PastOf(m, w.cluster) && EntryNamesPast(site, w.past, w.entries[w.cluster.uid], m, p)
  }

  /** The watermark names the snapshot Latest finds. */
  ghost predicate NamesNewest(site: Site, w: World) {
    match WatermarkFromCluster(w.cluster.pluginStatus)
    case Some(status) =>
      LatestIn(w.objects, site.layout, site.sum).Ok?
      && status.snapshotKey == LatestIn(w.objects, site.layout, site.sum).value.key
    case None => true
  }

  lemma SameFilterSameMetadata(keys: map<string, string>, a: Tables, b: Tables)
    requires SameKeyFilter(a, b)
    ensures KeptMetadata(keys, a) == KeptMetadata(keys, b)
  {
  }

  /** The fingerprint recomputed from a snapshot is the one its cluster had. */
  lemma SnapshotFingerprint(site: Site, snap: Snap, m: Moment, t: Tables)
    requires CapturedAt(site, snap, m) && SameKeyFilter(m.rules.tables, t)
    ensures FingerprintOf(snap.content.labels, snap.content.annotations, snap.groups, snap.captureRules, t)
            == m.Fingerprint()
  {
    FingerprintAgrees(m.tree, m.rules.Names(), m.rules.tables);
    var kept := METADATA_GROUP in snap.groups;
    SameFilterSameMetadata(if kept then snap.content.labels else map[], m.rules.tables, t);
    SameFilterSameMetadata(if kept then snap.content.annotations else map[], m.rules.tables, t);
  }

  /** The newest snapshot is of no earlier generation than the watermark. */
  ghost predicate WatermarkReached(site: Site, w: World) {
    var latest, status := LatestIn(w.objects, site.layout, site.sum), WatermarkFromCluster(w.cluster.pluginStatus);
    status.Some? ==> latest.Ok? && status.value.lastSavedGeneration <= latest.value.snap.generation
  }

  /** A snapshot of this generation under the rules in force holds the spec a capture would hold
      now, so that only labels and annotations can differ. */
  lemma SnapshotUnderRules(site: Site, w: World, snap: Snap)
    requires FromThisCluster(site, w.cluster, snap) && snap.generation == w.cluster.generation
    requires snap.captureRules == CaptureRulesOf(w.rules.Names(), w.rules.tables)
    ensures var live := Live(w.cluster, w.rules);
            Current(w.cluster, w.rules) == Content(snap.content.spec, live.labels, live.annotations)
  {
    var m :| CapturedAt(site, snap, m) && PastOf(m, w.cluster);
    SameRulesSameSpec(m.tree, w.cluster.tree, m.rules.Names(), w.rules.Names(), m.rules.tables, w.rules.tables);
  }

  /** The newest snapshot has the rules in force, and the labels and annotations a capture would
      keep now. */
  ghost predicate LatestAgrees(site: Site, w: World) {
    match LatestIn(w.objects, site.layout, site.sum)
    case Ok(found) =>
      var live := Live(w.cluster, w.rules);
      && found.snap.captureRules == live.captureRules
      && found.snap.content.labels == live.labels && found.snap.content.annotations == live.annotations
    case Err(_) => false
  }

  lemma WatermarkExact(site: Site, w: World)
    requires Digests(site.sum) && PastSound(site, w) && LatestFromPast(site, w) && WatermarkReached(site, w)
    requires WatermarkHits(w.cluster, w.rules)
    ensures LatestMatches(site, w.objects, w.cluster, w.rules) <==> LatestAgrees(site, w)
  {
    var snap := LatestIn(w.objects, site.layout, site.sum).value.snap;
    assert FromThisCluster(site, w.cluster, snap);
    if snap.captureRules == CaptureRulesOf(w.rules.Names(), w.rules.tables) {
      SnapshotUnderRules(site, w, snap);
    }
  }

  /** What a watermark that hits names: a snapshot of the run under the rules in force, with the
      spec a capture would hold now. */
  ghost predicate WatermarkNames(site: Site, w: World, p: Snap) {
    var status, live := WatermarkFromCluster(w.cluster.pluginStatus), Live(w.cluster, w.rules);
    && p in w.past && status.Some? && KeyOf(site.layout, p) == status.value.snapshotKey
    && p.captureRules == live.captureRules
    && Current(w.cluster, w.rules) == Content(p.content.spec, live.labels, live.annotations)
  }

  lemma HitNames(site: Site, w: World) returns (p: Snap)
    requires PastSound(site, w) && WatermarkFromPast(site, w) && WatermarkHits(w.cluster, w.rules)
    ensures WatermarkNames(site, w, p)
  {
    var status := WatermarkFromCluster(w.cluster.pluginStatus).value;
    p :| IsStatusOf(site, w.past, status, p, w.publishedBy);
    assert p.captureRules == Live(w.cluster, w.rules).captureRules;
    SnapshotUnderRules(site, w, p);
  }

  lemma NamingExact(site: Site, w: World)
    requires Digests(site.sum) && PastSound(site, w) && LatestFromPast(site, w) && WatermarkFromPast(site, w)
    requires KeysApart(site.layout, w.past) && WatermarkReached(site, w)
    requires WatermarkHits(w.cluster, w.rules) && NamesNewest(site, w)
    ensures var newest, live := LatestIn(w.objects, site.layout, site.sum).value.snap, Live(w.cluster, w.rules);
            LatestMatches(site, w.objects, w.cluster, w.rules)
            <==> newest.content.labels == live.labels && newest.content.annotations == live.annotations
  {
    WatermarkExact(site, w);
    var p := HitNames(site, w);
    assert LatestIn(w.objects, site.layout, site.sum).value.snap == p;
  }

  /** The key filters the watermark was published under are those in force. */
  predicate FilteredAlike(w: World) {
    SameKeyFilter(w.publishedBy, w.rules.tables)
  }

  /** A watermark hit says that the snapshot it was made from has the content and rules a
      capture would produce now. */
  lemma HitDescribesSnapshot(site: Site, w: World, status: ClusterStatus, snap: Snap)
    requires PastSound(site, w) && IsStatusOf(site, w.past, status, snap, w.publishedBy) && FilteredAlike(w)
    requires status.lastSavedGeneration == w.cluster.generation
    requires status.metadataChecksum == Some(Live(w.cluster, w.rules))
    ensures snap.checksum == site.sum(Current(w.cluster, w.rules))
    ensures snap.captureRules == CaptureRulesOf(w.rules.Names(), w.rules.tables)
  {
    var m :| CapturedAt(site, snap, m) && PastOf(m, w.cluster);
    assert m.CaptureRules() == Live(w.cluster, w.rules).captureRules;
    SnapshotFingerprint(site, snap, m, w.publishedBy);
    SameFingerprintSameCapture(m, w.cluster, w.rules);
  }

  /** The newest snapshot carries the checksum the watermark publishes, and the rules in force.
      Everything here can be read off before a Post. */
  ghost predicate LatestAsPublished(site: Site, w: World) {
    match WatermarkFromCluster(w.cluster.pluginStatus)
    case Some(status) =>
      LatestSays(site, w.objects, status.checksum, CaptureRulesOf(w.rules.Names(), w.rules.tables))
    case None => false
  }

  lemma PublishedExact(site: Site, w: World)
    requires PastSound(site, w) && WatermarkFromPast(site, w) && WatermarkHits(w.cluster, w.rules) && FilteredAlike(w)
    ensures LatestMatches(site, w.objects, w.cluster, w.rules) <==> LatestAsPublished(site, w)
  {
    var status := WatermarkFromCluster(w.cluster.pluginStatus).value;
    var snap :| IsStatusOf(site, w.past, status, snap, w.publishedBy);
    HitDescribesSnapshot(site, w, status, snap);
  }

  /** It is enough that the watermark names the newest snapshot. */
  lemma NamingIsPublishing(site: Site, w: World)
    requires PastSound(site, w) && LatestFromPast(site, w) && WatermarkFromPast(site, w)
    requires KeysApart(site.layout, w.past)
    requires WatermarkHits(w.cluster, w.rules) && FilteredAlike(w) && NamesNewest(site, w)
    ensures LatestAsPublished(site, w)
  {
    var status := WatermarkFromCluster(w.cluster.pluginStatus).value;
    var snap :| IsStatusOf(site, w.past, status, snap, w.publishedBy);
    HitDescribesSnapshot(site, w, status, snap);
    assert LatestIn(w.objects, site.layout, site.sum).value.snap == snap;
  }

  /** A settled hit is sound exactly when the newest snapshot still says what the one the entry
      names says. */
  lemma SettledExact(site: Site, w: World, p: Snap)
    requires EntryFromPast(site, w) && KeysApart(site.layout, w.past) && p in w.past
    requires SettledKey(w.entries, w.cluster, Live(w.cluster, w.rules)) == Some(KeyOf(site.layout, p))
    ensures LatestMatches(site, w.objects, w.cluster, w.rules)
            <==> LatestSays(site, w.objects, p.checksum, p.captureRules)
  {
    var m, q :| PastOf(m, w.cluster) && EntryNamesPast(site, w.past, w.entries[w.cluster.uid], m, q);
    assert p == q;
    SameFingerprintSameCapture(m, w.cluster, w.rules);
  }

  /** Whatever its Puts meet, a Write leaves Latest saying what it said, or the snapshot written. */
  lemma WriteLatestEither(objects: Objects, l: KeyLayout, sum: Sum, snap: Snap, first: Fate, second: Fate)
    requires Decode(Document(snap), sum) == Some(snap)
    ensures var after := LatestIn(Written(objects, l, snap, first, second), l, sum);
            after == LatestIn(objects, l, sum) || after == Ok(Found(snap, KeyOf(l, snap)))
  {
    KeyNotLatest(l, snap);
    if l.LatestKey() !in objects && !first.Lost? && (!first.Done? || second.Lost?) {
      UnpointedPut(objects, l, sum, snap, KeyOf(l, snap));
    }
  }

  lemma UnpointedPut(objects: Objects, l: KeyLayout, sum: Sum, snap: Snap, key: string)
    requires Decode(Document(snap), sum) == Some(snap) && l.LatestKey() !in objects && key != l.LatestKey()
    ensures var after := LatestIn(objects[key := Document(snap)], l, sum);
            after == LatestIn(objects, l, sum) || after == Ok(Found(snap, key))
  {
    var put := objects[key := Document(snap)];
    var before, after := Listed(objects, l), Listed(put, l);
    forall r ensures r in after <==> r in before || (IsListed(l, key) && r == RefOf(key)) {
      ListedKeys(objects, l, r);
      ListedKeys(put, l, r);
    }
    if Newest(after).Some? && Newest(after).value.key != key {
      ListedKeys(put, l, Newest(after).value);
      NewestOfFewer(after, before);
    } else if Newest(after).None? {
      assert before == {};
    }
  }

  lemma WriteWrites(
    site: Site, objects: Objects, entries: Entries, c: Cluster, live: Fingerprint, snap: Snap, first: Fate,
    second: Fate)
    requires Decode(Document(snap), site.sum) == Some(snap)
    ensures var out := WriteIn(site, objects, entries, c, live, snap, first, second);
            && out.written == Some(snap)
            && (LatestIn(out.objects, site.layout, site.sum) == LatestIn(objects, site.layout, site.sum)
                || LatestIn(out.objects, site.layout, site.sum) == Ok(Found(snap, KeyOf(site.layout, snap))))
  {
    WriteLatestEither(objects, site.layout, site.sum, snap, first, second);
  }

  /** What a capture writes and remembers. */
  lemma CaptureWrites(
    site: Site, objects: Objects, entries: Entries, c: Cluster, live: Fingerprint, snap: Snap, first: Fate,
    second: Fate, out: Outcome)
    requires Decode(Document(snap), site.sum) == Some(snap)
    requires out == CaptureIn(site, objects, entries, c, live, snap, first, second)
    ensures out.written == None || out.written == Some(snap)
    ensures LatestIn(out.objects, site.layout, site.sum) == LatestIn(objects, site.layout, site.sum)
            || (out.written == Some(snap)
                && LatestIn(out.objects, site.layout, site.sum) == Ok(Found(snap, KeyOf(site.layout, snap))))
  {
    var latest := LatestIn(objects, site.layout, site.sum);
    if !LatestSays(site, objects, snap.checksum, snap.captureRules) && latest != Err(Corrupt) {
      assert out == WriteIn(site, objects, entries, c, live, snap, first, second);
      WriteWrites(site, objects, entries, c, live, snap, first, second);
    } else {
      assert out.objects == objects && out.written == None;
    }
  }

  lemma CaptureRemembers(
    site: Site, objects: Objects, entries: Entries, c: Cluster, live: Fingerprint, snap: Snap, first: Fate,
    second: Fate, out: Outcome)
    requires out == CaptureIn(site, objects, entries, c, live, snap, first, second) && out.result.Continue?
    ensures c.uid in out.entries
    ensures out.written == Some(snap) ==> out.entries[c.uid] == Entry(c.generation, live, KeyOf(site.layout, snap))
    ensures out.written != Some(snap) ==>
              && LatestSays(site, objects, snap.checksum, snap.captureRules)
              && out.entries[c.uid] == Entry(c.generation, live, LatestIn(objects, site.layout, site.sum).value.key)
  {
  }

  lemma PostWrites(site: Site, w: World, e: Event)
    requires e.Post? && Digests(site.sum)
    ensures var out := Posted(site, w, e);
            && (out.written.Some? ==> out.written.value == SnapshotOf(site, w.cluster, w.rules, e.now))
            && (LatestIn(out.objects, site.layout, site.sum) == LatestIn(w.objects, site.layout, site.sum)
                || (out.written.Some? && LatestIn(out.objects, site.layout, site.sum)
                                         == Ok(Found(out.written.value, KeyOf(site.layout, out.written.value)))))
  {
    var snap, live := SnapshotOf(site, w.cluster, w.rules, e.now), Live(w.cluster, w.rules);
    SnapshotDecodes(site, w.cluster, w.rules, e.now);
    CaptureWrites(site, w.objects, w.entries, w.cluster, live, snap, e.first, e.second,
      CaptureIn(site, w.objects, w.entries, w.cluster, live, snap, e.first, e.second));
  }

  lemma SnapshotIsOurs(site: Site, c: Cluster, rules: Rules, now: nat)
    ensures FromThisCluster(site, c, SnapshotOf(site, c, rules, now))
  {
    var m := Moment(c.tree, c.generation, rules);
    assert CapturedAt(site, SnapshotOf(site, c, rules, now), m) && PastOf(m, c);
  }

  lemma FromClusterStill(site: Site, w: World, e: Event, snap: Snap)
    requires Allowed(site, w, e) && FromThisCluster(site, w.cluster, snap)
    ensures FromThisCluster(site, After(site, w, e).cluster, snap)
  {
    var m :| CapturedAt(site, snap, m) && PastOf(m, w.cluster);
    assert PastOf(m, After(site, w, e).cluster);
  }

  lemma PastSoundStep(site: Site, w: World, e: Event)
    requires Digests(site.sum) && PastSound(site, w) && Allowed(site, w, e) && Dated(site, w, e)
    ensures PastSound(site, After(site, w, e))
  {
    var w' := After(site, w, e);
    forall snap | snap in w'.past ensures FromThisCluster(site, w'.cluster, snap) && Storable(snap, site.sum) {
      if snap !in w.past {
        PostWrites(site, w, e);
        SnapshotIsOurs(site, w.cluster, w.rules, e.now);
      }
      FromClusterStill(site, w, e, snap);
    }
  }

  lemma FollowingKeysDiffer(l: KeyLayout, sum: Sum, p: Snap, snap: Snap)
    requires Storable(p, sum) && Storable(snap, sum) && Follows(p, snap)
    ensures KeyOf(l, p) != KeyOf(l, snap)
  {
    StorableIsListed(l, p, sum);
    StorableIsListed(l, snap, sum);
  }

  lemma KeysApartWith(l: KeyLayout, sum: Sum, past: seq<Snap>, snap: Snap)
    requires KeysApart(l, past) && Storable(snap, sum)
    requires forall p :: p in past ==> Storable(p, sum) && Follows(p, snap)
    ensures KeysApart(l, past + [snap])
  {
    forall p | p in past ensures KeyOf(l, p) != KeyOf(l, snap) {
      FollowingKeysDiffer(l, sum, p, snap);
    }
  }

  lemma KeysApartStep(site: Site, w: World, e: Event)
    requires PastSound(site, w) && KeysApart(site.layout, w.past) && Dated(site, w, e)
    ensures KeysApart(site.layout, After(site, w, e).past)
  {
    if e.Post? {
      var written := Posted(site, w, e).written;
      if written.Some? {
        KeysApartWith(site.layout, site.sum, w.past, written.value);
      }
    }
  }

  lemma LatestFromPastStep(site: Site, w: World, e: Event)
    requires Digests(site.sum) && LatestFromPast(site, w) && Allowed(site, w, e)
    ensures LatestFromPast(site, After(site, w, e))
  {
    if e.Post? {
      PostWrites(site, w, e);
    }
  }

  lemma WatermarkStill(site: Site, w: World, w': World)
    requires WatermarkFromPast(site, w) && w'.publishedBy == w.publishedBy && forall p :: p in w.past ==> p in w'.past
    requires WatermarkFromCluster(w'.cluster.pluginStatus) == WatermarkFromCluster(w.cluster.pluginStatus)
    ensures WatermarkFromPast(site, w')
  {
    var status := WatermarkFromCluster(w.cluster.pluginStatus);
    if status.Some? {
      var snap :| IsStatusOf(site, w.past, status.value, snap, w.publishedBy);
      assert IsStatusOf(site, w'.past, status.value, snap, w'.publishedBy);
    }
  }

  lemma StatusIsOfLatest(site: Site, w: World, status: ClusterStatus)
    requires StatusIn(site, w.objects, w.entries, w.cluster, w.rules) == Some(status)
    ensures LatestIn(w.objects, site.layout, site.sum).Ok?
    ensures status == StatusOf(site, LatestIn(w.objects, site.layout, site.sum).value, w.rules.tables)
  {
  }

  lemma PublishedReadsBack(statuses: seq<PluginStatus>, status: ClusterStatus)
    ensures WatermarkFromCluster(Published(statuses, status)) == Some(status)
  {
  }

  lemma WatermarkFromPoll(site: Site, w: World, w': World, status: ClusterStatus)
    requires LatestFromPast(site, w) && StatusIn(site, w.objects, w.entries, w.cluster, w.rules) == Some(status)
    requires WatermarkFromCluster(w'.cluster.pluginStatus) == Some(status) && w'.past == w.past
    requires w'.publishedBy == w.rules.tables
    ensures WatermarkFromPast(site, w')
  {
    StatusIsOfLatest(site, w, status);
    var found := LatestIn(w.objects, site.layout, site.sum).value;
    assert IsStatusOf(site, w'.past, status, found.snap, w'.publishedBy);
  }

  lemma WatermarkFromPastStep(site: Site, w: World, e: Event)
    requires LatestFromPast(site, w) && WatermarkFromPast(site, w)
    ensures WatermarkFromPast(site, After(site, w, e))
  {
    if e.Poll? && StatusIn(site, w.objects, w.entries, w.cluster, w.rules).Some? {
      var status := StatusIn(site, w.objects, w.entries, w.cluster, w.rules).value;
      PublishedReadsBack(w.cluster.pluginStatus, status);
      WatermarkFromPoll(site, w, After(site, w, e), status);
    } else {
      WatermarkStill(site, w, After(site, w, e));
    }
  }

  lemma WatermarkNotAhead(site: Site, w: World, status: ClusterStatus)
    requires PastSound(site, w) && WatermarkFromPast(site, w)
    requires WatermarkFromCluster(w.cluster.pluginStatus) == Some(status)
    ensures status.lastSavedGeneration <= w.cluster.generation
  {
    var snap :| IsStatusOf(site, w.past, status, snap, w.publishedBy);
    assert FromThisCluster(site, w.cluster, snap);
  }

  lemma ReachedStep(site: Site, w: World, e: Event)
    requires Digests(site.sum) && PastSound(site, w) && WatermarkFromPast(site, w) && WatermarkReached(site, w)
    requires Allowed(site, w, e)
    ensures WatermarkReached(site, After(site, w, e))
  {
    if e.Post? {
      PostWrites(site, w, e);
      if WatermarkFromCluster(w.cluster.pluginStatus).Some? {
        WatermarkNotAhead(site, w, WatermarkFromCluster(w.cluster.pluginStatus).value);
      }
    } else if e.Poll? && StatusIn(site, w.objects, w.entries, w.cluster, w.rules).Some? {
      var status := StatusIn(site, w.objects, w.entries, w.cluster, w.rules).value;
      StatusIsOfLatest(site, w, status);
      PublishedReadsBack(w.cluster.pluginStatus, status);
    }
  }

  lemma EntryStill(site: Site, w: World, w': World)
    requires EntryFromPast(site, w) && w'.cluster.uid == w.cluster.uid && forall p :: p in w.past ==> p in w'.past
    requires w.cluster.uid in w'.entries ==>
               w.cluster.uid in w.entries && w'.entries[w.cluster.uid] == w.entries[w.cluster.uid]
    requires forall m :: PastOf(m, w.cluster) ==> PastOf(m, w'.cluster)
    ensures EntryFromPast(site, w')
  {
    if w.cluster.uid in w'.entries {
      var entry := w.entries[w.cluster.uid];
      var m, p :| PastOf(m, w.cluster) && EntryNamesPast(site, w.past, entry, m, p);
      assert PastOf(m, w'.cluster) && EntryNamesPast(site, w'.past, entry, m, p);
    }
  }

  lemma CaptureNamesPast(
    site: Site, objects: Objects, entries: Entries, c: Cluster, m: Moment, snap: Snap, first: Fate, second: Fate,
    out: Outcome,
    past: seq<Snap>, past': seq<Snap>)
    requires out == CaptureIn(site, objects, entries, c, m.Fingerprint(), snap, first, second) && out.result.Continue?
    requires m.generation == c.generation && snap.checksum == site.sum(m.Content())
    requires snap.captureRules == m.CaptureRules()
    requires LatestIn(objects, site.layout, site.sum).Ok? ==>
               var found := LatestIn(objects, site.layout, site.sum).value;
               found.snap in past && found.key == KeyOf(site.layout, found.snap)
    requires past' == if out.written.Some? then past + [out.written.value] else past
    ensures c.uid in out.entries && exists p :: EntryNamesPast(site, past', out.entries[c.uid], m, p)
  {
    CaptureRemembers(site, objects, entries, c, m.Fingerprint(), snap, first, second, out);
    if LatestSays(site, objects, snap.checksum, snap.captureRules) {
      var found := LatestIn(objects, site.layout, site.sum).value;
      assert EntryNamesPast(site, past', out.entries[c.uid], m, found.snap);
    } else {
      assert EntryNamesPast(site, past', out.entries[c.uid], m, snap);
    }
  }

  /** A Post that completes past both fast paths remembers a snapshot of this run. */
  lemma EntryFromCapture(site: Site, w: World, e: Event)
    requires LatestFromPast(site, w) && e.Post? && Captures(site, w, e)
    ensures EntryFromPast(site, After(site, w, e))
  {
    var w', snap := After(site, w, e), SnapshotOf(site, w.cluster, w.rules, e.now);
    var m := Moment(w.cluster.tree, w.cluster.generation, w.rules);
    var out := CaptureIn(site, w.objects, w.entries, w.cluster, m.Fingerprint(), snap, e.first, e.second);
    CaptureNamesPast(site, w.objects, w.entries, w.cluster, m, snap, e.first, e.second, out, w.past, w'.past);
    var p :| EntryNamesPast(site, w'.past, w'.entries[w.cluster.uid], m, p);
    assert PastOf(m, w'.cluster);
  }

  lemma EntryFromPastStep(site: Site, w: World, e: Event)
    requires Digests(site.sum) && EntryFromPast(site, w) && LatestFromPast(site, w) && Allowed(site, w, e)
    ensures EntryFromPast(site, After(site, w, e))
  {
    if e.Post? {
      PostLeaves(site, w, e);
      if Captures(site, w, e) {
        EntryFromCapture(site, w, e);
      } else {
        EntryStill(site, w, After(site, w, e));
      }
    } else {
      EntryStill(site, w, After(site, w, e));
    }
  }

  /** What every run keeps, whatever its Puts meet. */
  ghost predicate Traced(site: Site, w: World) {
    && PastSound(site, w) && LatestFromPast(site, w) && KeysApart(site.layout, w.past)
    && WatermarkFromPast(site, w) && WatermarkReached(site, w) && EntryFromPast(site, w)
  }

  /** Runs whose writes come in order. */
  ghost predicate InTurn(site: Site, w: World, events: seq<Event>)
    decreases |events|
  {
    events != [] ==>
      && Allowed(site, w, events[0]) && Dated(site, w, events[0])
      && InTurn(site, After(site, w, events[0]), events[1..])
  }

  /** A new cluster in a new process, before its first capture. */
  ghost predicate Fresh(site: Site, w: World) {
    && w.cluster.uid !in w.entries && WatermarkFromCluster(w.cluster.pluginStatus) == None
    && w.past == [] && LatestIn(w.objects, site.layout, site.sum).Err?
  }

  lemma TracedStep(site: Site, w: World, e: Event)
    requires Digests(site.sum) && Traced(site, w) && Allowed(site, w, e) && Dated(site, w, e)
    ensures Traced(site, After(site, w, e))
  {
    PastSoundStep(site, w, e);
    KeysApartStep(site, w, e);
    LatestFromPastStep(site, w, e);
    WatermarkFromPastStep(site, w, e);
    ReachedStep(site, w, e);
    EntryFromPastStep(site, w, e);
  }

  lemma {:induction false} TracedRun(site: Site, w: World, events: seq<Event>)
    requires Digests(site.sum) && Traced(site, w) && InTurn(site, w, events)
    ensures Traced(site, AfterAll(site, w, events))
    decreases |events|
  {
    if events != [] {
      TracedStep(site, w, events[0]);
      TracedRun(site, After(site, w, events[0]), events[1..]);
    }
  }

  /** Fast-path soundness, the watermark: in every run, whatever its Puts meet and whichever build
      published, a hit is sound if and only if the newest snapshot has the rules in force, and
      the labels and annotations a capture would keep now. */
  lemma WatermarkHitSoundIff(site: Site, w: World, events: seq<Event>)
    requires Digests(site.sum) && Fresh(site, w) && InTurn(site, w, events)
    ensures var w' := AfterAll(site, w, events);
            WatermarkHits(w'.cluster, w'.rules) ==>
              (LatestMatches(site, w'.objects, w'.cluster, w'.rules) <==> LatestAgrees(site, w'))
  {
    TracedRun(site, w, events);
    var w' := AfterAll(site, w, events);
    if WatermarkHits(w'.cluster, w'.rules) {
      WatermarkExact(site, w');
    }
  }

  /** Every hit names a snapshot of the run; what is wrong with it is at most its labels and
      annotations, and if it is the newest one, just they decide. */
  lemma WatermarkHitNames(site: Site, w: World, events: seq<Event>)
    requires Digests(site.sum) && Fresh(site, w) && InTurn(site, w, events)
    ensures var w' := AfterAll(site, w, events);
            WatermarkHits(w'.cluster, w'.rules) ==> exists p :: WatermarkNames(site, w', p)
    ensures var w' := AfterAll(site, w, events);
            WatermarkHits(w'.cluster, w'.rules) && NamesNewest(site, w') ==>
              var newest, live := LatestIn(w'.objects, site.layout, site.sum).value.snap, Live(w'.cluster, w'.rules);
              LatestMatches(site, w'.objects, w'.cluster, w'.rules)
              <==> newest.content.labels == live.labels && newest.content.annotations == live.annotations
  {
    TracedRun(site, w, events);
    var w' := AfterAll(site, w, events);
    if WatermarkHits(w'.cluster, w'.rules) {
      var p := HitNames(site, w');
      if NamesNewest(site, w') {
        NamingExact(site, w');
      }
    }
  }

  /** Where the key filters in force published it, the published checksum says as much. */
  lemma PublishedHitSoundIff(site: Site, w: World, events: seq<Event>)
    requires Digests(site.sum) && Fresh(site, w) && InTurn(site, w, events)
    ensures var w' := AfterAll(site, w, events);
            WatermarkHits(w'.cluster, w'.rules) && FilteredAlike(w') ==>
              (LatestMatches(site, w'.objects, w'.cluster, w'.rules) <==> LatestAsPublished(site, w'))
  {
    TracedRun(site, w, events);
    var w' := AfterAll(site, w, events);
    if WatermarkHits(w'.cluster, w'.rules) && FilteredAlike(w') {
      PublishedExact(site, w');
    }
  }

  /** It is sound in particular when the watermark names the newest snapshot. */
  lemma WatermarkHitIsSound(site: Site, w: World, events: seq<Event>)
    requires Digests(site.sum) && Fresh(site, w) && InTurn(site, w, events)
    ensures var w' := AfterAll(site, w, events);
            WatermarkHits(w'.cluster, w'.rules) && FilteredAlike(w') && NamesNewest(site, w') ==>
              LatestMatches(site, w'.objects, w'.cluster, w'.rules)
  {
    TracedRun(site, w, events);
    var w' := AfterAll(site, w, events);
    if WatermarkHits(w'.cluster, w'.rules) && FilteredAlike(w') && NamesNewest(site, w') {
      NamingIsPublishing(site, w');
      PublishedExact(site, w');
    }
  }

  /** Fast-path soundness, the cache: in every run, whatever its Puts meet, a settled hit names a
      snapshot of the run, and is sound if and only if the newest one has its checksum and
      rules. */
  lemma SettledHitSoundIff(site: Site, w: World, events: seq<Event>)
    requires Digests(site.sum) && Fresh(site, w) && InTurn(site, w, events)
    ensures var w' := AfterAll(site, w, events);
            var key := SettledKey(w'.entries, w'.cluster, Live(w'.cluster, w'.rules));
            key.Some? ==>
              && (exists p :: p in w'.past && KeyOf(site.layout, p) == key.value)
              && (forall p :: p in w'.past && KeyOf(site.layout, p) == key.value ==>
                    (LatestMatches(site, w'.objects, w'.cluster, w'.rules) <==>
                     LatestSays(site, w'.objects, p.checksum, p.captureRules)))
  {
    TracedRun(site, w, events);
    var w' := AfterAll(site, w, events);
    if SettledKey(w'.entries, w'.cluster, Live(w'.cluster, w'.rules)).Some? {
      var m, named :| PastOf(m, w'.cluster) && EntryNamesPast(site, w'.past, w'.entries[w'.cluster.uid], m, named);
      SettledExact(site, w', named);
    }
  }
}
