/** How the two hooks answer, in the terms of the status, the cache, the rules and the bucket: when
    a Post completes, what it leaves behind, and what a poll publishes. */
module Outcomes {
  import opened Wrappers
  import opened Text
  import opened Order
  import opened Groups
  import opened Denylist
  import opened Extraction
  import opened Fingerprints
  import opened Layout
  import opened Refs
  import opened Store
  import opened Sweeps
  import opened Capture
  import opened CaptureRuns
  import opened FastPaths
  import opened Watermarks
  import opened Misleading
  import opened Quiescence

  /** The watermark is the first status of this plugin that is not empty. */
  lemma {:induction false} WatermarkIs(statuses: seq<PluginStatus>, s: ClusterStatus)
    ensures WatermarkFromCluster(statuses) == Some(s) <==>
            exists i :: 0 <= i < |statuses| && statuses[i] == PluginStatus(PLUGIN_NAME, Holds(s))
                        && forall j :: 0 <= j < i ==> statuses[j].name != PLUGIN_NAME || statuses[j].status.Empty?
  {
    if statuses != [] {
      WatermarkIs(statuses[1..], s);
      assert forall i :: 1 <= i < |statuses| ==> statuses[i] == statuses[1..][i - 1];
      if statuses[0].name != PLUGIN_NAME || statuses[0].status.Empty? {
        if WatermarkFromCluster(statuses[1..]) == Some(s) {
          var i :| 0 <= i < |statuses[1..]| && statuses[1..][i] == PluginStatus(PLUGIN_NAME, Holds(s))
                   && forall j :: 0 <= j < i ==> statuses[1..][j].name != PLUGIN_NAME || statuses[1..][j].status.Empty?;
          assert statuses[i + 1] == PluginStatus(PLUGIN_NAME, Holds(s));
        }
        if i :| 0 <= i < |statuses| && statuses[i] == PluginStatus(PLUGIN_NAME, Holds(s))
                && forall j :: 0 <= j < i ==> statuses[j].name != PLUGIN_NAME || statuses[j].status.Empty? {
          assert statuses[1..][i - 1] == PluginStatus(PLUGIN_NAME, Holds(s));
        }
      }
    }
  }

  /** The status the Cluster carries says that this state is captured. */
  ghost predicate SaidByStatus(c: Cluster, rules: Rules) {
    exists s :: WatermarkFromCluster(c.pluginStatus) == Some(s)
                && s.lastSavedGeneration == c.generation && s.metadataChecksum == Some(Live(c, rules))
  }

  /** The cache says so, and names the snapshot. */
  ghost predicate SaidByCache(entries: Entries, c: Cluster, rules: Rules, key: string) {
    (c.uid, Entry(c.generation, Live(c, rules), key)) in entries.Items
  }

  ghost predicate Said(w: World) {
    SaidByStatus(w.cluster, w.rules) || exists key :: SaidByCache(w.entries, w.cluster, w.rules, key)
  }

  /** The group exists and names no denied path. */
  ghost predicate Known(name: string, t: Tables) {
    && LookupGroup(name, t.groups).Some?
    && forall f :: f in LookupGroup(name, t.groups).value.fields ==> !IsDeniedPath(Join(["spec", f]), t.deniedPaths)
  }

  /** Every enabled group is known. */
  ghost predicate Capturable(rules: Rules) {
    forall name :: name in rules.Names() ==> Known(name, rules.tables)
  }

  lemma CapturableIff(rules: Rules)
    ensures Capturable(rules) <==> !CaptureRefused(rules)
  {
    forall name ensures Known(name, rules.tables) <==> !Refused(name, rules.tables) {
      KnownIff(name, rules.tables);
    }
  }

  lemma KnownIff(name: string, t: Tables)
    ensures Known(name, t) <==> !Refused(name, t)
  {
    if LookupGroup(name, t.groups).Some? {
      var fields := LookupGroup(name, t.groups).value.fields;
      assert forall f :: f in fields <==> exists i :: 0 <= i < |fields| && fields[i] == f;
    }
  }

  /** The key of the newest listed object. */
  ghost predicate NewestKey(objects: Objects, l: KeyLayout, key: string) {
    && key in objects && IsListed(l, key)
    && forall k :: k in objects && IsListed(l, k) && k != key ==> Before(RefOf(k), RefOf(key))
  }

  lemma NewestKeyIs(objects: Objects, l: KeyLayout, key: string)
    ensures NewestKey(objects, l, key) <==>
            Newest(Listed(objects, l)).Some? && Newest(Listed(objects, l)).value.key == key
  {
    var all := Listed(objects, l);
    if Newest(all).Some? {
      ListedKeys(objects, l, Newest(all).value);
      forall k | k in objects && IsListed(l, k) && k != Newest(all).value.key
        ensures Before(RefOf(k), RefOf(Newest(all).value.key))
      {
        ListedKeys(objects, l, RefOf(k));
      }
    }
    if NewestKey(objects, l, key) {
      ListedKeys(objects, l, RefOf(key));
      forall x | x in all ensures x == RefOf(key) || Before(x, RefOf(key)) {
        ListedKeys(objects, l, x);
      }
      NewestIs(all, RefOf(key));
    }
  }

  /** What Latest answers: the pointer if there is one, unreadable or not, and the newest listed
      object otherwise; never a document that is not genuine. */
  lemma LatestAnswers(objects: Objects, l: KeyLayout, sum: Sum, found: Found)
    ensures var latest, p := LatestIn(objects, l, sum), l.LatestKey();
            && (p in objects ==>
                  && latest != Err(NotFound)
                  && (latest == Ok(found) <==>
                        && objects[p] == Document(found.snap) && Genuine(found.snap, sum)
                        && found.key == KeyOf(l, found.snap)))
            && (p !in objects ==>
                  && (latest == Err(NotFound) <==> forall k :: k in objects ==> !IsListed(l, k))
                  && (latest == Ok(found) <==>
                        && NewestKey(objects, l, found.key)
                        && objects[found.key] == Document(found.snap) && Genuine(found.snap, sum)))
  {
    if l.LatestKey() !in objects {
      NewestKeyIs(objects, l, found.key);
      NothingListed(objects, l);
      if Newest(Listed(objects, l)).Some? {
        ListedKeys(objects, l, Newest(Listed(objects, l)).value);
      }
    }
  }

  lemma NothingListed(objects: Objects, l: KeyLayout)
    ensures Listed(objects, l) == {} <==> forall k :: k in objects ==> !IsListed(l, k)
  {
    forall k | k in objects && IsListed(l, k) ensures RefOf(k) in Listed(objects, l) {
      ListedKeys(objects, l, RefOf(k));
    }
  }

  /** The newest snapshot already holds what a capture would hold, under the same rules. */
  ghost predicate Matched(site: Site, w: World) {
    exists found :: LatestIn(w.objects, site.layout, site.sum) == Ok(found)
                    && found.snap.checksum == site.sum(Current(w.cluster, w.rules))
                    && found.snap.captureRules == CaptureRulesOf(w.rules.Names(), w.rules.tables)
  }

  /** When a Post completes: the status or the cache says that the state is captured, or else every
      group is known, the newest snapshot is not unreadable, and it matches or both Puts are done.
      Otherwise it fails. */
  lemma PostCompletesIff(site: Site, w: World, e: Event)
    requires e.Post?
    ensures Posted(site, w, e).result == Continue <==>
            || Said(w)
            || (&& Capturable(w.rules) && LatestIn(w.objects, site.layout, site.sum) != Err(Corrupt)
                && (Matched(site, w) || (e.first.Done? && e.second.Done?)))
    ensures Posted(site, w, e).result in {Continue, Failed}
  {
    CapturableIff(w.rules);
    SaidIsHit(w);
  }

  lemma SaidIsHit(w: World)
    ensures SaidByStatus(w.cluster, w.rules) <==> WatermarkHits(w.cluster, w.rules)
    ensures forall key :: SaidByCache(w.entries, w.cluster, w.rules, key) <==>
              SettledKey(w.entries, w.cluster, Live(w.cluster, w.rules)) == Some(key)
  {
  }

  /** A Post with nothing to capture, or that fails before its first Put, changes nothing. */
  lemma PostLeavesAlone(site: Site, w: World, e: Event)
    requires e.Post?
    requires Said(w) || !Capturable(w.rules) || LatestIn(w.objects, site.layout, site.sum) == Err(Corrupt)
    ensures var out := Posted(site, w, e); out.objects == w.objects && out.entries == w.entries && out.written == None
  {
    CapturableIff(w.rules);
    SaidIsHit(w);
  }

  /** A Post that finds its state captured already remembers where, and writes nothing. */
  lemma PostRemembersMatch(site: Site, w: World, e: Event)
    requires e.Post? && !Said(w) && Capturable(w.rules) && Matched(site, w)
    ensures var out := Posted(site, w, e);
            && out.objects == w.objects && out.written == None
            && SaidByCache(out.entries, w.cluster, w.rules, LatestIn(w.objects, site.layout, site.sum).value.key)
  {
    CapturableIff(w.rules);
    SaidIsHit(w);
  }

  /** What the snapshot of a state records. */
  ghost predicate Records(site: Site, w: World, now: nat, snap: Snap) {
    && snap.kind == KIND && snap.apiVersion == API_VERSION && snap.capturedAt == now
    && snap.generation == w.cluster.generation && snap.groups == w.rules.Names()
    && snap.captureRules == CaptureRulesOf(w.rules.Names(), w.rules.tables)
    && snap.content == Current(w.cluster, w.rules) && snap.checksum == site.sum(snap.content)
  }

  /** Every other Post hands the snapshot of what it saw to Write, and remembers it when both Puts
      are done. */
  lemma PostHandsToWrite(site: Site, w: World, e: Event)
    requires e.Post? && !Said(w) && Capturable(w.rules) && !Matched(site, w)
    requires LatestIn(w.objects, site.layout, site.sum) != Err(Corrupt)
    ensures var out := Posted(site, w, e);
            && out.written.Some? && Records(site, w, e.now, out.written.value)
            && out.objects == Written(w.objects, site.layout, out.written.value, e.first, e.second)
            && (e.first.Done? && e.second.Done? ==>
                  SaidByCache(out.entries, w.cluster, w.rules, KeyOf(site.layout, out.written.value)))
            && (!(e.first.Done? && e.second.Done?) ==> out.entries == w.entries)
  {
    CapturableIff(w.rules);
    SaidIsHit(w);
    assert MustWrite(site, w);
    Writes(site, w, e);
  }

  /** Remembering one state forgets no other cluster short of the threshold, and all of them there. */
  lemma RememberKeeps(entries: Entries, c: Cluster, live: Fingerprint, key: string, uid: string)
    ensures var after := Remembered(entries, c, live, key);
            && SettledKey(after, c, live) == Some(key)
            && (uid != c.uid && uid in after ==> uid in entries && after[uid] == entries[uid])
            && (uid != c.uid && uid in entries ==> (uid in after <==> |entries| < MAX_SETTLED_ENTRIES))
  {
  }

  /** What the cache vouches for was captured under this build, which knew the groups. */
  ghost predicate EntryKnown(w: World) {
    w.cluster.uid in w.entries ==>
      forall name :: name in w.entries[w.cluster.uid].metadataChecksum.captureGroups ==> Known(name, w.rules.tables)
  }

  lemma LiveGroups(c: Cluster, rules: Rules, name: string)
    ensures name in Live(c, rules).captureGroups <==> name in rules.Names()
  {
    var names := rules.Names();
    SortStringsSorts(names);
    assert name in SortStrings(names) <==> name in multiset(SortStrings(names));
    assert name in names <==> name in multiset(names);
  }

  /** A Post touches the cluster's entry only when its groups are known. */
  lemma PostEntry(site: Site, w: World, e: Event)
    requires e.Post?
    ensures var out := Posted(site, w, e);
            || out.entries == w.entries
            || (Capturable(w.rules) && w.cluster.uid in out.entries
                && out.entries[w.cluster.uid].metadataChecksum == Live(w.cluster, w.rules))
  {
    if Said(w) || !Capturable(w.rules) || LatestIn(w.objects, site.layout, site.sum) == Err(Corrupt) {
      PostLeavesAlone(site, w, e);
    } else if Matched(site, w) {
      PostRemembersMatch(site, w, e);
    } else {
      PostHandsToWrite(site, w, e);
    }
  }

  lemma EntryKnownStep(site: Site, w: World, e: Event)
    requires EntryKnown(w) && Allowed(site, w, e)
    ensures EntryKnown(After(site, w, e))
  {
    if e.Post? {
      PostEntry(site, w, e);
      forall name ensures name in Live(w.cluster, w.rules).captureGroups <==> name in w.rules.Names() {
        LiveGroups(w.cluster, w.rules, name);
      }
    }
  }

  lemma {:induction false} EntryKnownRun(site: Site, w: World, events: seq<Event>)
    requires EntryKnown(w) && InTurn(site, w, events)
    ensures EntryKnown(AfterAll(site, w, events))
    decreases |events|
  {
    if events != [] {
      EntryKnownStep(site, w, events[0]);
      EntryKnownRun(site, After(site, w, events[0]), events[1..]);
    }
  }

  /** What keeps Posts completing: the status answers, or the groups are known. */
  ghost predicate Answers(site: Site, w: World) {
    (SaidByStatus(w.cluster, w.rules) && PublishedHere(site, w)) || Capturable(w.rules)
  }

  /** A Post that completes leaves it so. */
  lemma CompletedAnswers(site: Site, w: World, e: Event)
    requires e.Post? && EntryKnown(w) && WatermarkFromPast(site, w) && Posted(site, w, e).result == Continue
    ensures Answers(site, After(site, w, e))
  {
    PostCompletesIff(site, w, e);
    if SaidByStatus(w.cluster, w.rules) {
      var status := WatermarkFromCluster(w.cluster.pluginStatus);
      var snap :| IsStatusOf(site, w.past, status.value, snap, w.publishedBy);
    } else if !Capturable(w.rules) {
      forall name | name in w.rules.Names() ensures Known(name, w.rules.tables) {
        LiveGroups(w.cluster, w.rules, name);
      }
    }
  }

  lemma {:induction false} AnswersRun(site: Site, w: World, events: seq<Event>)
    requires Answers(site, w) && Still(site, w, events)
    ensures Answers(site, AfterAll(site, w, events))
    decreases |events|
  {
    if events != [] {
      AnswersStep(site, w, events[0]);
      AnswersRun(site, After(site, w, events[0]), events[1..]);
    }
  }

  lemma AnswersStep(site: Site, w: World, e: Event)
    requires Answers(site, w) && IsStill(site, w, e)
    ensures Answers(site, After(site, w, e))
  {
    if e.Poll? {
      PollPublishesIff(site, w);
    }
  }

  /** After one Post that succeeds, with the cluster and the rules left alone, every later Post
      completes, whatever its Puts would have met, through restarts, evictions, sweeps and polls. */
  lemma StaysComplete(site: Site, start: World, before: seq<Event>, e: Event, events: seq<Event>, later: Event)
    requires Succeeds(site, start, before, e) && later.Post?
    requires Still(site, After(site, AfterAll(site, start, before), e), events)
    ensures var w := AfterAll(site, After(site, AfterAll(site, start, before), e), events);
            Posted(site, w, later).result == Continue
  {
    var w0 := AfterAll(site, start, before);
    var w1 := After(site, w0, e);
    TracedRun(site, start, before);
    EntryKnownRun(site, start, before);
    CompletedAnswers(site, w0, e);
    AnswersRun(site, w1, events);
    SuccessIsQuiet(site, start, before, e);
    QuietRun(site, w1, events);
    QuietCompletes(site, AfterAll(site, w1, events), later);
  }

  lemma QuietCompletes(site: Site, w: World, e: Event)
    requires e.Post? && Quiet(site, w) && Answers(site, w)
    ensures Posted(site, w, e).result == Continue
  {
    SaidIsHit(w);
    PostCompletesIff(site, w, e);
  }

  /** The published status is of this store and server, and still holds: it says that the state is
      captured, or the cache names the very snapshot it names. */
  ghost predicate StillHolds(site: Site, w: World) {
    exists s :: WatermarkFromCluster(w.cluster.pluginStatus) == Some(s)
                && s.store == site.store && s.serverName == site.server
                && (SaidByStatus(w.cluster, w.rules) || SaidByCache(w.entries, w.cluster, w.rules, s.snapshotKey))
  }

  /** A poll publishes exactly when the status does not hold any more and Latest answers; what the
      Cluster carries then names what Latest found. */
  lemma PollPublishesIff(site: Site, w: World)
    ensures var latest, w' := LatestIn(w.objects, site.layout, site.sum), After(site, w, Poll);
            && (StatusIn(site, w.objects, w.entries, w.cluster, w.rules).Some? <==> !StillHolds(site, w) && latest.Ok?)
            && (!StillHolds(site, w) && latest.Ok? ==>
                  var s, snap := WatermarkFromCluster(w'.cluster.pluginStatus), latest.value.snap;
                  && s.Some? && s.value.snapshotKey == latest.value.key
                  && s.value.lastSavedGeneration == snap.generation && s.value.checksum == snap.checksum
                  && s.value.lastSavedAt == snap.capturedAt / SECOND
                  && s.value.store == site.store && s.value.serverName == site.server)
            && (StillHolds(site, w) || latest.Err? ==> w' == w)
  {
    SaidIsHit(w);
    var s := StatusIn(site, w.objects, w.entries, w.cluster, w.rules);
    if s.Some? {
      PublishedReadsBack(w.cluster.pluginStatus, s.value);
    }
  }

  /** A Post that wrote, with both Puts done. */
  lemma Wrote(site: Site, w: World, now: nat)
    requires Digests(site.sum) && Posted(site, w, Post(now, Done, Done)).written.Some?
    ensures var w', snap := After(site, w, Post(now, Done, Done)), SnapshotOf(site, w.cluster, w.rules, now);
            && Posted(site, w, Post(now, Done, Done)).written == Some(snap) && !WatermarkHits(w.cluster, w.rules)
            && w'.cluster == w.cluster && w'.rules == w.rules
            && SettledKey(w'.entries, w.cluster, Live(w.cluster, w.rules)) == Some(KeyOf(site.layout, snap))
            && LatestIn(w'.objects, site.layout, site.sum) == Ok(Found(snap, KeyOf(site.layout, snap)))
  {
    WritesOnlyIfMust(site, w, Post(now, Done, Done));
    WriteThrough(site, w, now);
    Writes(site, w, Post(now, Done, Done));
  }

  lemma WritesOnlyIfMust(site: Site, w: World, e: Event)
    requires e.Post? && Posted(site, w, e).written.Some?
    ensures MustWrite(site, w)
  {
  }

  /** A snapshot just written is none of those before it. */
  lemma WatermarkNamesEarlier(site: Site, w: World, snap: Snap)
    requires PastSound(site, w) && WatermarkFromPast(site, w) && Storable(snap, site.sum)
    requires forall p :: p in w.past ==> Follows(p, snap)
    ensures var status := WatermarkFromCluster(w.cluster.pluginStatus);
            status.Some? ==> status.value.snapshotKey != KeyOf(site.layout, snap)
  {
    var status := WatermarkFromCluster(w.cluster.pluginStatus);
    if status.Some? {
      var named :| IsStatusOf(site, w.past, status.value, named, w.publishedBy);
      FollowingKeysDiffer(site.layout, site.sum, named, snap);
    }
  }

  /** After a Post that wrote, what the Cluster carries no longer holds. */
  lemma WrittenUnsettles(site: Site, w: World, now: nat)
    requires Digests(site.sum) && Traced(site, w) && Dated(site, w, Post(now, Done, Done))
    requires Posted(site, w, Post(now, Done, Done)).written.Some?
    ensures !StillHolds(site, After(site, w, Post(now, Done, Done)))
  {
    Wrote(site, w, now);
    WatermarkNamesEarlier(site, w, SnapshotOf(site, w.cluster, w.rules, now));
    SaidIsHit(After(site, w, Post(now, Done, Done)));
  }

  /** A poll in a state whose status no longer holds, and whose newest snapshot is of the cluster
      as it stands. */
  lemma PollNamesCurrent(site: Site, w: World, now: nat, key: string)
    requires !StillHolds(site, w)
    requires LatestIn(w.objects, site.layout, site.sum) == Ok(Found(SnapshotOf(site, w.cluster, w.rules, now), key))
    ensures var w' := After(site, w, Poll);
            NamesNewest(site, w') && SaidByStatus(w'.cluster, w'.rules) && w'.objects == w.objects
  {
    var s := StatusOf(site, Found(SnapshotOf(site, w.cluster, w.rules, now), key), w.rules.tables);
    PollPublishesIff(site, w);
    StatusOfCurrent(site, w.cluster, w.rules, now, key);
    assert StatusIn(site, w.objects, w.entries, w.cluster, w.rules) == Some(s);
    PublishedReadsBack(w.cluster.pluginStatus, s);
    HitsOn(w.cluster, w.rules, s);
    SaidIsHit(After(site, w, Poll));
  }

  /** Freshness of the status: after a Post that wrote, the next poll names the snapshot it wrote,
      which is the newest, and the Cluster then says that its state is captured. */
  lemma PollNamesWritten(site: Site, w: World, now: nat)
    requires Digests(site.sum) && Traced(site, w) && Dated(site, w, Post(now, Done, Done))
    requires Posted(site, w, Post(now, Done, Done)).written.Some?
    ensures var w' := After(site, After(site, w, Post(now, Done, Done)), Poll);
            && NamesNewest(site, w') && SaidByStatus(w'.cluster, w'.rules)
            && LatestIn(w'.objects, site.layout, site.sum).Ok?
            && LatestIn(w'.objects, site.layout, site.sum).value.snap == SnapshotOf(site, w.cluster, w.rules, now)
  {
    Wrote(site, w, now);
    WrittenUnsettles(site, w, now);
    var snap := SnapshotOf(site, w.cluster, w.rules, now);
    PollNamesCurrent(site, After(site, w, Post(now, Done, Done)), now, KeyOf(site.layout, snap));
  }

  /** So it is in every run, whatever earlier Puts met. */
  lemma StatusIsFresh(site: Site, start: World, before: seq<Event>, now: nat)
    requires Digests(site.sum) && Fresh(site, start) && InTurn(site, start, before)
    requires var w := AfterAll(site, start, before);
             Dated(site, w, Post(now, Done, Done)) && Posted(site, w, Post(now, Done, Done)).written.Some?
    ensures var w := AfterAll(site, start, before);
            var w' := After(site, After(site, w, Post(now, Done, Done)), Poll);
            && NamesNewest(site, w') && SaidByStatus(w'.cluster, w'.rules)
            && LatestIn(w'.objects, site.layout, site.sum).Ok?
            && LatestIn(w'.objects, site.layout, site.sum).value.snap == SnapshotOf(site, w.cluster, w.rules, now)
  {
    TracedRun(site, start, before);
    PollNamesWritten(site, AfterAll(site, start, before), now);
  }
}
