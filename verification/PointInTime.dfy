/** The point of it all: the snapshot selected for a moment is what the cluster was then. */
module PointInTime {
  import opened Wrappers
  import opened Snapshot
  import opened Fingerprints
  import opened Layout
  import opened Refs
  import opened Retention
  import opened Store
  import opened Selection
  import opened Sweeps
  import opened Capture
  import opened CaptureRuns
  import opened FastPaths
  import opened Watermarks

  function SecondOf(snap: Snap): nat {
    snap.capturedAt / SECOND
  }

  /** What the last completed Post at or before a moment saw. */
  function LastSeen(posts: seq<Seen>, moment: int): Option<Content> {
    if posts == [] then None
    else if posts[|posts| - 1].second * SECOND <= moment then Some(posts[|posts| - 1].content)
    else LastSeen(posts[..|posts| - 1], moment)
  }

  /** The last snapshot written at or before a moment, to the second. */
  function LastWritten(past: seq<Snap>, moment: int): Option<Snap> {
    if past == [] then None
    else if SecondOf(past[|past| - 1]) * SECOND <= moment then Some(past[|past| - 1])
    else LastWritten(past[..|past| - 1], moment)
  }

  ghost predicate Agrees(past: seq<Snap>, posts: seq<Seen>, moment: int) {
    match LastWritten(past, moment)
    case None => LastSeen(posts, moment) == None
    case Some(snap) => LastSeen(posts, moment) == Some(snap.content)
  }

  lemma LastSeenSnoc(posts: seq<Seen>, p: Seen, moment: int)
    ensures LastSeen(posts + [p], moment) ==
            if p.second * SECOND <= moment then Some(p.content) else LastSeen(posts, moment)
  {
    assert (posts + [p])[..|posts|] == posts;
  }

  lemma LastWrittenSnoc(past: seq<Snap>, snap: Snap, moment: int)
    ensures LastWritten(past + [snap], moment) ==
            if SecondOf(snap) * SECOND <= moment then Some(snap) else LastWritten(past, moment)
  {
    assert (past + [snap])[..|past|] == past;
  }

  /** Snapshots in the order of their keys. */
  ghost predicate Ascending(past: seq<Snap>) {
    forall i, j :: 0 <= i < j < |past| ==> Follows(past[i], past[j])
  }

  ghost predicate Held(site: Site, objects: Objects, p: Snap) {
    Storable(p, site.sum) && KeyOf(site.layout, p) in objects && objects[KeyOf(site.layout, p)] == Document(p)
  }

  /** Nothing is listed but snapshots of this history. */
  ghost predicate ListsOnly(l: KeyLayout, listed: set<Ref>, past: seq<Snap>) {
    forall r :: r in listed ==> exists p :: p in past && r == SnapRef(l, p)
  }

  /** The bucket still holds the answer for this moment. */
  ghost predicate HoldsAnswer(site: Site, objects: Objects, past: seq<Snap>, moment: int) {
    match LastWritten(past, moment)
    case Some(snap) => Held(site, objects, snap)
    case None => true
  }

  predicate PointsAtLast(latest: Result<Found, ReadError>, past: seq<Snap>) {
    match latest
    case Ok(found) => past != [] && found.snap == past[|past| - 1]
    case Err(e) => past == [] && e == NotFound
  }

  ghost predicate Archived(site: Site, objects: Objects, past: seq<Snap>, moment: int) {
    && Ascending(past) && ListsOnly(site.layout, Listed(objects, site.layout), past)
    && HoldsAnswer(site, objects, past, moment)
    && PointsAtLast(LatestIn(objects, site.layout, site.sum), past)
  }

  predicate WrittenBefore(past: seq<Snap>, posts: seq<Seen>) {
    past != [] ==> posts != [] && SecondOf(past[|past| - 1]) <= posts[|posts| - 1].second
  }

  /** The state of a run in which no Put has failed. */
  ghost predicate Faithful(site: Site, w: World, moment: int) {
    Archived(site, w.objects, w.past, moment) && WrittenBefore(w.past, w.posts)
  }

  /** What one retention sweep may leave, wherever it stops, with a cutoff not after a moment. */
  ghost predicate SweptBefore(l: KeyLayout, objects: Objects, after: Objects, moment: int) {
    exists refs, cutoff: int, keys, n: nat ::
      && ListingOf(refs, Listed(objects, l)) && IsPlan(refs, cutoff, keys) && n <= |keys| && cutoff <= moment
      && after == DeletedIn(objects, keys[..n])
  }

  /** A watermark that hits is right to: the newest snapshot has the rules in force, and the
      labels and annotations a capture would keep now. */
  ghost predicate HitsHold(site: Site, w: World) {
    WatermarkHits(w.cluster, w.rules) ==> LatestAgrees(site, w)
  }

  /** No Put fails, the clock does not run backwards past a Post, a watermark that hits holds, and
      nothing but retention touches the bucket. */
  ghost predicate Smooth(site: Site, w: World, e: Event, moment: int) {
    && (e.Elsewhere? ==> SweptBefore(site.layout, w.objects, e.objects, moment))
    && (!e.Elsewhere? ==> Allowed(site, w, e))
    && (e.Post? ==>
          && e.first.Done? && e.second.Done? && Dated(site, w, e) && HitsHold(site, w)
          && (w.posts != [] ==> w.posts[|w.posts| - 1].second <= e.now / SECOND))
  }

  ghost predicate SmoothRun(site: Site, w: World, events: seq<Event>, moment: int)
    decreases |events|
  {
    events != [] ==>
      && Smooth(site, w, events[0], moment)
      && SmoothRun(site, After(site, w, events[0]), events[1..], moment)
  }

  ghost predicate AllSound(site: Site, w: World) {
    Traced(site, w) && EntrySound(site, w)
  }

  lemma SoundStep(site: Site, w: World, e: Event, moment: int)
    requires Digests(site.sum) && AllSound(site, w) && Smooth(site, w, e, moment) && Allowed(site, w, e)
    ensures AllSound(site, After(site, w, e))
  {
    TracedStep(site, w, e);
    EntrySoundStep(site, w, e);
  }

  lemma LatestIsSummed(site: Site, w: World)
    requires PastSound(site, w) && LatestFromPast(site, w)
    ensures var latest := LatestIn(w.objects, site.layout, site.sum);
            latest.Ok? ==> latest.value.snap.checksum == site.sum(latest.value.snap.content)
  {
    var latest := LatestIn(w.objects, site.layout, site.sum);
    if latest.Ok? {
      assert FromThisCluster(site, w.cluster, latest.value.snap);
    }
  }

  lemma MatchIsContent(site: Site, w: World)
    requires Digests(site.sum) && PastSound(site, w) && LatestFromPast(site, w)
    requires LatestMatches(site, w.objects, w.cluster, w.rules)
    ensures LatestIn(w.objects, site.layout, site.sum).Ok?
    ensures LatestIn(w.objects, site.layout, site.sum).value.snap.content == Current(w.cluster, w.rules)
  {
    LatestIsSummed(site, w);
  }

  lemma CaptureUnwritten(
    site: Site, objects: Objects, entries: Entries, c: Cluster, live: Fingerprint, snap: Snap, first: Fate,
    second: Fate)
    requires var out := CaptureIn(site, objects, entries, c, live, snap, first, second);
             out.result.Continue? && out.written.None?
    ensures LatestSays(site, objects, snap.checksum, snap.captureRules)
  {
  }

  /** A Post that completes without writing saw what the newest snapshot holds. */
  lemma UnwrittenMatches(site: Site, w: World, e: Event)
    requires Digests(site.sum) && AllSound(site, w) && HitsHold(site, w) && e.Post?
    requires Posted(site, w, e).result.Continue? && Posted(site, w, e).written.None?
    ensures LatestMatches(site, w.objects, w.cluster, w.rules)
  {
    var live, snap := Live(w.cluster, w.rules), SnapshotOf(site, w.cluster, w.rules, e.now);
    if WatermarkHits(w.cluster, w.rules) {
      WatermarkExact(site, w);
    } else if SettledKey(w.entries, w.cluster, live).Some? {
      SettledSound(site, w);
    } else {
      CaptureUnwritten(site, w.objects, w.entries, w.cluster, live, snap, e.first, e.second);
    }
  }

  /** With Puts that succeed, a Post writes one snapshot of what it saw and completes, or leaves
      the bucket alone. */
  lemma PostCompletes(site: Site, w: World, e: Event)
    requires e.Post? && e.first.Done? && e.second.Done?
    ensures var out := Posted(site, w, e);
            && (out.written.Some? ==>
                  && out.result.Continue? && out.written.value == SnapshotOf(site, w.cluster, w.rules, e.now)
                  && out.objects == Written(w.objects, site.layout, out.written.value, Done, Done))
            && (out.written.None? ==> out.objects == w.objects)
  {
  }

  lemma HeldBeside(site: Site, objects: Objects, p: Snap, key: string, o: Object)
    requires Held(site, objects, p) && key != KeyOf(site.layout, p)
    ensures Held(site, PutIn(objects, key, o, Done), p)
  {
  }

  lemma ListsOneMore(l: KeyLayout, listed: set<Ref>, past: seq<Snap>, snap: Snap)
    requires ListsOnly(l, listed, past)
    ensures ListsOnly(l, listed + {SnapRef(l, snap)}, past + [snap])
  {
    forall r | r in listed + {SnapRef(l, snap)} ensures exists p :: p in past + [snap] && r == SnapRef(l, p) {
      var p :| (p in past || p == snap) && r == SnapRef(l, p);
      assert p in past + [snap];
    }
  }

  lemma HeldAfterWrite(site: Site, objects: Objects, p: Snap, snap: Snap)
    requires Storable(snap, site.sum) && (p == snap || (Held(site, objects, p) && Follows(p, snap)))
    ensures Held(site, Written(objects, site.layout, snap, Done, Done), p)
  {
    var l := site.layout;
    var put := PutIn(objects, KeyOf(l, snap), Document(snap), Done);
    if p != snap {
      FollowingKeysDiffer(l, site.sum, p, snap);
      HeldBeside(site, objects, p, KeyOf(l, snap), Document(snap));
    }
    KeyNotLatest(l, p);
    HeldBeside(site, put, p, l.LatestKey(), Document(snap));
  }

  lemma AnswerAfterWrite(site: Site, objects: Objects, past: seq<Snap>, snap: Snap, moment: int)
    requires HoldsAnswer(site, objects, past, moment) && Storable(snap, site.sum)
    requires forall p :: p in past ==> Follows(p, snap)
    ensures HoldsAnswer(site, Written(objects, site.layout, snap, Done, Done), past + [snap], moment)
  {
    LastWrittenSnoc(past, snap, moment);
    LastWrittenMeans(past, moment);
    var answer := LastWritten(past + [snap], moment);
    if answer.Some? {
      HeldAfterWrite(site, objects, answer.value, snap);
    }
  }

  lemma AscendingWith(past: seq<Snap>, snap: Snap)
    requires Ascending(past) && forall p :: p in past ==> Follows(p, snap)
    ensures Ascending(past + [snap])
  {
  }

  lemma FaithfulUnwritten(site: Site, w: World, w': World, moment: int)
    requires Faithful(site, w, moment) && w'.past == w.past && w'.objects == w.objects
    requires WrittenBefore(w'.past, w'.posts)
    ensures Faithful(site, w', moment)
  {
  }

  lemma OnePostMore(past: seq<Snap>, posts: seq<Seen>, seen: Seen)
    requires WrittenBefore(past, posts) && (posts != [] ==> posts[|posts| - 1].second <= seen.second)
    ensures WrittenBefore(past, posts + [seen])
  {
  }

  lemma FaithfulOutcome(site: Site, w: World, seen: Seen, out: Outcome, moment: int)
    requires Faithful(site, w, moment) && (w.posts != [] ==> w.posts[|w.posts| - 1].second <= seen.second)
    requires out.written.Some? ==>
               && out.result.Continue? && SecondOf(out.written.value) == seen.second
               && Storable(out.written.value, site.sum)
               && out.objects == Written(w.objects, site.layout, out.written.value, Done, Done)
               && forall p :: p in w.past ==> Follows(p, out.written.value)
    requires out.written.None? ==> out.objects == w.objects
    ensures Faithful(site, AfterPost(w, seen, out), moment)
  {
    var w' := AfterPost(w, seen, out);
    if out.written.Some? {
      FaithfulWrite(site, w, w', out.written.value, seen.second, moment);
    } else {
      OnePostMore(w.past, w.posts, seen);
      FaithfulUnwritten(site, w, w', moment);
    }
  }

  lemma FaithfulPost(site: Site, w: World, e: Event, moment: int)
    requires Digests(site.sum) && Faithful(site, w, moment) && e.Post? && Smooth(site, w, e, moment)
    ensures Faithful(site, After(site, w, e), moment)
  {
    PostCompletes(site, w, e);
    FaithfulOutcome(site, w, Seen(e.now / SECOND, Current(w.cluster, w.rules)), Posted(site, w, e), moment);
  }

  lemma FaithfulWrite(site: Site, w: World, w': World, snap: Snap, second: nat, moment: int)
    requires Faithful(site, w, moment) && Storable(snap, site.sum) && forall p :: p in w.past ==> Follows(p, snap)
    requires w'.past == w.past + [snap] && w'.objects == Written(w.objects, site.layout, snap, Done, Done)
    requires w'.posts != [] && SecondOf(snap) == second == w'.posts[|w'.posts| - 1].second
    ensures Faithful(site, w', moment)
  {
    var l := site.layout;
    ListedAfterPut(w.objects, l, snap, site.sum, Done);
    ListedAfterPointer(PutIn(w.objects, KeyOf(l, snap), Document(snap), Done), l, Document(snap), Done);
    ListsOneMore(l, Listed(w.objects, l), w.past, snap);
    AnswerAfterWrite(site, w.objects, w.past, snap, moment);
    AscendingWith(w.past, snap);
    WrittenLatest(w.objects, l, site.sum, snap);
  }

  lemma OursAreFlat(site: Site, w: World)
    requires PastSound(site, w) && ListsOnly(site.layout, Listed(w.objects, site.layout), w.past)
    ensures Flat(w.objects, site.layout)
  {
    forall r | r in Listed(w.objects, site.layout) ensures Named(site.layout, r) {
      var p :| p in w.past && r == SnapRef(site.layout, p);
      StorableIsListed(site.layout, p, site.sum);
    }
  }

  /** The answer for a moment outlives every sweep whose cutoff is not after it. */
  lemma AnswerSurvives(
    site: Site, objects: Objects, past: seq<Snap>, moment: int, refs: seq<Ref>, cutoff: int, keys: seq<string>, n: nat)
    requires Ascending(past) && ListsOnly(site.layout, Listed(objects, site.layout), past) && Flat(objects, site.layout)
    requires HoldsAnswer(site, objects, past, moment) && cutoff <= moment
    requires ListingOf(refs, Listed(objects, site.layout)) && IsPlan(refs, cutoff, keys) && n <= |keys|
    ensures HoldsAnswer(site, DeletedIn(objects, keys[..n]), past, moment)
  {
    var l, listed, answer := site.layout, Listed(objects, site.layout), LastWritten(past, moment);
    if answer.Some? && KeyOf(l, answer.value) in keys[..n] {
      var key := KeyOf(l, answer.value);
      HeldIsListed(site, objects, answer.value);
      NamedIsChronological(l, listed);
      PlannedIsDoomed(listed, refs, cutoff, keys, key);
      var r :| r in listed && r.key == key && Doomed(Anchor(listed, cutoff), r);
      ListedKeys(objects, l, r);
      ListedKeys(objects, l, SnapRef(l, answer.value));
      AnswerNotBefore(l, past, moment, Anchor(listed, cutoff).value);
    }
  }

  lemma OthersPrecede(past: seq<Snap>, moment: int, p: Snap)
    requires Ascending(past) && p in past && SecondOf(p) * SECOND <= moment
    ensures LastWritten(past, moment).Some?
    ensures p == LastWritten(past, moment).value || Follows(p, LastWritten(past, moment).value)
  {
    LastWrittenMeans(past, moment);
    var snap := LastWritten(past, moment).value;
    var i :| 0 <= i < |past| && past[i] == snap && forall j :: i < j < |past| ==> SecondOf(past[j]) * SECOND > moment;
    var j :| 0 <= j < |past| && past[j] == p;
    if j < i {
      assert Follows(past[j], past[i]);
    }
  }

  lemma AnswerNotBefore(l: KeyLayout, past: seq<Snap>, moment: int, r: Ref)
    requires Ascending(past) && LastWritten(past, moment).Some? && r.capturedAt <= moment
    requires exists p :: p in past && r == SnapRef(l, p)
    ensures !Before(SnapRef(l, LastWritten(past, moment).value), r)
  {
    var p :| p in past && r == SnapRef(l, p);
    OthersPrecede(past, moment, p);
    NotBeforeSelf(r);
  }

  lemma NotBeforeSelf(r: Ref)
    ensures !Before(r, r)
  {
    if Before(r, r) {
      BeforeAsymmetric(r, r);
    }
  }

  lemma FaithfulSweep(site: Site, w: World, e: Event, moment: int)
    requires AllSound(site, w) && Faithful(site, w, moment) && e.Elsewhere? && Smooth(site, w, e, moment)
    ensures Allowed(site, w, e) && Faithful(site, After(site, w, e), moment)
  {
    var l := site.layout;
    var refs, cutoff: int, keys, n: nat :|
      && ListingOf(refs, Listed(w.objects, l)) && IsPlan(refs, cutoff, keys) && n <= |keys| && cutoff <= moment
      && e.objects == DeletedIn(w.objects, keys[..n]);
    OursAreFlat(site, w);
    SweepKeepsLatest(w.objects, l, site.sum, refs, cutoff, keys, n);
    AnswerSurvives(site, w.objects, w.past, moment, refs, cutoff, keys, n);
    ListedAfterSweep(w.objects, l, keys, n);
  }

  lemma FaithfulStep(site: Site, w: World, e: Event, moment: int)
    requires Digests(site.sum) && AllSound(site, w) && Faithful(site, w, moment) && Smooth(site, w, e, moment)
    ensures Allowed(site, w, e) && Faithful(site, After(site, w, e), moment)
  {
    if e.Post? {
      FaithfulPost(site, w, e, moment);
    } else if e.Elsewhere? {
      FaithfulSweep(site, w, e, moment);
    }
  }

  lemma AgreesUnwritten(past: seq<Snap>, posts: seq<Seen>, seen: Seen, moment: int)
    requires Agrees(past, posts, moment) && past != []
    requires SecondOf(past[|past| - 1]) <= seen.second && past[|past| - 1].content == seen.content
    ensures Agrees(past, posts + [seen], moment)
  {
    LastSeenSnoc(posts, seen, moment);
  }

  lemma AgreesWritten(past: seq<Snap>, posts: seq<Seen>, snap: Snap, moment: int)
    requires Agrees(past, posts, moment)
    ensures Agrees(past + [snap], posts + [Seen(SecondOf(snap), snap.content)], moment)
  {
    LastSeenSnoc(posts, Seen(SecondOf(snap), snap.content), moment);
    LastWrittenSnoc(past, snap, moment);
  }

  lemma AgreesOutcome(w: World, seen: Seen, out: Outcome, moment: int)
    requires Agrees(w.past, w.posts, moment)
    requires out.written.Some? ==>
               && out.result.Continue? && SecondOf(out.written.value) == seen.second
               && out.written.value.content == seen.content
    requires out.written.None? && out.result.Continue? ==>
               && w.past != [] && SecondOf(w.past[|w.past| - 1]) <= seen.second
               && w.past[|w.past| - 1].content == seen.content
    ensures Agrees(AfterPost(w, seen, out).past, AfterPost(w, seen, out).posts, moment)
  {
    if out.written.Some? {
      AgreesWritten(w.past, w.posts, out.written.value, moment);
    } else if out.result.Continue? {
      AgreesUnwritten(w.past, w.posts, seen, moment);
    }
  }

  lemma UnwrittenSaw(site: Site, w: World, e: Event, moment: int)
    requires Digests(site.sum) && AllSound(site, w) && Faithful(site, w, moment) && e.Post?
    requires Smooth(site, w, e, moment)
    requires Posted(site, w, e).written.None? && Posted(site, w, e).result.Continue?
    ensures w.past != [] && w.past[|w.past| - 1].content == Current(w.cluster, w.rules)
    ensures SecondOf(w.past[|w.past| - 1]) <= e.now / SECOND
  {
    UnwrittenMatches(site, w, e);
    MatchIsContent(site, w);
  }

  lemma WrittenSaw(site: Site, w: World, e: Event)
    requires e.Post? && e.first.Done? && e.second.Done? && Posted(site, w, e).written.Some?
    ensures var snap := Posted(site, w, e).written.value;
            && SecondOf(snap) == e.now / SECOND && snap.content == Current(w.cluster, w.rules)
            && Posted(site, w, e).result.Continue?
  {
    PostCompletes(site, w, e);
  }

  /** Whether a Post writes or not, the history ends with what it saw, if it completes. */
  lemma PostSaw(site: Site, w: World, e: Event, moment: int, out: Outcome)
    requires Digests(site.sum) && AllSound(site, w) && Faithful(site, w, moment)
    requires e.Post? && Smooth(site, w, e, moment) && out == Posted(site, w, e)
    ensures out.written.Some? ==>
              && out.result.Continue? && SecondOf(out.written.value) == e.now / SECOND
              && out.written.value.content == Current(w.cluster, w.rules)
    ensures out.written.None? && out.result.Continue? ==>
              && w.past != [] && SecondOf(w.past[|w.past| - 1]) <= e.now / SECOND
              && w.past[|w.past| - 1].content == Current(w.cluster, w.rules)
  {
    if out.written.Some? {
      WrittenSaw(site, w, e);
    } else if out.result.Continue? {
      UnwrittenSaw(site, w, e, moment);
    }
  }

  lemma AfterIsAfterPost(site: Site, w: World, e: Event)
    requires e.Post?
    ensures After(site, w, e) == AfterPost(w, Seen(e.now / SECOND, Current(w.cluster, w.rules)), Posted(site, w, e))
  {
  }

  lemma AgreesPost(site: Site, w: World, e: Event, moment: int)
    requires Digests(site.sum) && AllSound(site, w) && Faithful(site, w, moment) && Agrees(w.past, w.posts, moment)
    requires e.Post? && Smooth(site, w, e, moment)
    ensures Agrees(After(site, w, e).past, After(site, w, e).posts, moment)
  {
    PostSaw(site, w, e, moment, Posted(site, w, e));
    AgreesOutcome(w, Seen(e.now / SECOND, Current(w.cluster, w.rules)), Posted(site, w, e), moment);
    AfterIsAfterPost(site, w, e);
  }

  lemma OnlyPostsRecord(site: Site, w: World, e: Event)
    requires !e.Post?
    ensures After(site, w, e).past == w.past && After(site, w, e).posts == w.posts
  {
  }

  /** The history and the posts stay in step, whatever the moment asked for. */
  lemma AgreesStep(site: Site, w: World, e: Event, moment: int)
    requires Digests(site.sum) && AllSound(site, w) && Faithful(site, w, moment) && Agrees(w.past, w.posts, moment)
    requires Smooth(site, w, e, moment)
    ensures Agrees(After(site, w, e).past, After(site, w, e).posts, moment)
  {
    if e.Post? {
      AgreesPost(site, w, e, moment);
    } else {
      OnlyPostsRecord(site, w, e);
    }
  }

  lemma {:induction false} SmoothRunKeeps(site: Site, w: World, events: seq<Event>, moment: int)
    requires Digests(site.sum) && AllSound(site, w) && Faithful(site, w, moment) && Agrees(w.past, w.posts, moment)
    requires SmoothRun(site, w, events, moment)
    ensures var w' := AfterAll(site, w, events);
            AllSound(site, w') && Faithful(site, w', moment) && Agrees(w'.past, w'.posts, moment)
    decreases |events|
  {
    if events != [] {
      var e := events[0];
      FaithfulStep(site, w, e, moment);
      SoundStep(site, w, e, moment);
      AgreesStep(site, w, e, moment);
      SmoothRunKeeps(site, After(site, w, e), events[1..], moment);
    }
  }

  lemma {:induction false} LastWrittenMeans(past: seq<Snap>, moment: int)
    ensures match LastWritten(past, moment)
            case None => forall p :: p in past ==> SecondOf(p) * SECOND > moment
            case Some(snap) =>
              SecondOf(snap) * SECOND <= moment
              && exists i :: 0 <= i < |past| && past[i] == snap
                             && forall j :: i < j < |past| ==> SecondOf(past[j]) * SECOND > moment
  {
    if past != [] && SecondOf(past[|past| - 1]) * SECOND > moment {
      var front := past[..|past| - 1];
      LastWrittenMeans(front, moment);
      assert past == front + [past[|past| - 1]];
      if LastWritten(front, moment).Some? {
        var i :| 0 <= i < |front| && front[i] == LastWritten(front, moment).value
                 && forall j :: i < j < |front| ==> SecondOf(front[j]) * SECOND > moment;
        assert past[i] == front[i];
      }
    } else if past != [] {
      assert past[|past| - 1] == LastWritten(past, moment).value;
    }
  }

  /** References of these snapshots, whatever their keys. */
  ghost predicate RefsOf(refs: seq<Ref>, past: seq<Snap>) {
    && |refs| == |past|
    && forall i :: 0 <= i < |refs| ==>
         refs[i].capturedAt == SecondOf(past[i]) * SECOND && refs[i].generation == past[i].generation
  }

  lemma AscendingIsOrdered(refs: seq<Ref>, past: seq<Snap>)
    requires RefsOf(refs, past) && Ascending(past)
    ensures Ordered(refs)
  {
    forall i, j | 0 <= i < j < |refs| ensures Before(refs[i], refs[j]) {
      assert Follows(past[i], past[j]);
    }
  }

  lemma TimesUpTo(refs: seq<Ref>, past: seq<Snap>, i: nat, moment: int)
    requires RefsOf(refs, past) && Ordered(refs) && i < |refs| && SecondOf(past[i]) * SECOND <= moment
    ensures forall j :: 0 <= j <= i ==> refs[j].capturedAt <= moment
  {
    forall j | 0 <= j <= i ensures refs[j].capturedAt <= moment {
      assert j < i ==> Before(refs[j], refs[i]);
    }
  }

  /** Among the references of ascending snapshots, the last written by then is the newest. */
  lemma LastWrittenIsNewest(refs: seq<Ref>, listed: set<Ref>, past: seq<Snap>, moment: int)
    requires RefsOf(refs, past) && ListingOf(refs, listed)
    ensures match LastWritten(past, moment)
            case None => Selected(listed, moment) == None
            case Some(snap) =>
              exists i :: 0 <= i < |past| && past[i] == snap && Selected(listed, moment) == Some(refs[i])
  {
    LastWrittenMeans(past, moment);
    if LastWritten(past, moment).None? {
      assert past != [] ==> past[0] in past;
      LastInTime(refs, listed, moment, 0);
    } else {
      var snap := LastWritten(past, moment).value;
      var i :| 0 <= i < |past| && past[i] == snap && forall j :: i < j < |past| ==> SecondOf(past[j]) * SECOND > moment;
      TimesUpTo(refs, past, i, moment);
      LastInTime(refs, listed, moment, i + 1);
    }
  }

  function SnapRefs(l: KeyLayout, past: seq<Snap>): seq<Ref> {
    seq(|past|, i requires 0 <= i < |past| => SnapRef(l, past[i]))
  }

  lemma ListedAreRefs(l: KeyLayout, listed: set<Ref>, past: seq<Snap>)
    requires ListsOnly(l, listed, past)
    ensures forall r :: r in listed ==> r in SnapRefs(l, past)
  {
    forall r | r in listed ensures r in SnapRefs(l, past) {
      var p :| p in past && r == SnapRef(l, p);
      var i :| 0 <= i < |past| && past[i] == p;
      assert SnapRefs(l, past)[i] == r;
    }
  }

  lemma HeldIsListed(site: Site, objects: Objects, p: Snap)
    requires Held(site, objects, p)
    ensures SnapRef(site.layout, p) in Listed(objects, site.layout)
    ensures ReadIn(objects, KeyOf(site.layout, p), site.sum) == Ok(Found(p, KeyOf(site.layout, p)))
  {
    StorableIsListed(site.layout, p, site.sum);
    ListedKeys(objects, site.layout, SnapRef(site.layout, p));
  }

  lemma SelectedIsLastWritten(site: Site, objects: Objects, past: seq<Snap>, moment: int)
    requires Ascending(past) && ListsOnly(site.layout, Listed(objects, site.layout), past)
    requires HoldsAnswer(site, objects, past, moment)
    ensures Selected(Listed(objects, site.layout), moment) ==
            match LastWritten(past, moment) case None => None case Some(snap) => Some(SnapRef(site.layout, snap))
  {
    var l, listed, refs := site.layout, Listed(objects, site.layout), SnapRefs(site.layout, past);
    var all := set r | r in refs;
    AscendingIsOrdered(refs, past);
    ListedAreRefs(l, listed, past);
    LastWrittenIsNewest(refs, all, past, moment);
    if LastWritten(past, moment).Some? {
      HeldIsListed(site, objects, LastWritten(past, moment).value);
      NewestOfFewer(AtOrBefore(all, moment), AtOrBefore(listed, moment));
    } else {
      assert AtOrBefore(listed, moment) <= AtOrBefore(all, moment);
    }
  }

  /** Selecting from the bucket finds the last snapshot written by then. */
  lemma SelectsLastWritten(site: Site, objects: Objects, past: seq<Snap>, moment: int)
    requires Ascending(past) && ListsOnly(site.layout, Listed(objects, site.layout), past)
    requires HoldsAnswer(site, objects, past, moment)
    ensures match LastWritten(past, moment)
            case None => SelectIn(objects, site.layout, site.sum, moment).Err?
            case Some(snap) =>
              SelectIn(objects, site.layout, site.sum, moment) == Ok(Found(snap, KeyOf(site.layout, snap)))
  {
    SelectedIsLastWritten(site, objects, past, moment);
    if LastWritten(past, moment).Some? {
      HeldIsListed(site, objects, LastWritten(past, moment).value);
    }
  }

  /** Point-in-time refinement: in every run of edits, label edits, rule changes, upgrades, Posts,
      status polls, restarts and retention sweeps in which no Put fails, writes come in (second,
      generation) order and every watermark that hits holds, selecting for a moment no sweep's
      cutoff has passed gives exactly what the last Post at or before it saw, to the second;
      and it is refused exactly when there was none. */
  lemma SelectionIsWhatPostSaw(site: Site, w: World, events: seq<Event>, moment: int)
    requires Digests(site.sum) && Fresh(site, w) && w.objects == map[] && w.posts == []
    requires SmoothRun(site, w, events, moment)
    ensures var w' := AfterAll(site, w, events);
            match SelectIn(w'.objects, site.layout, site.sum, moment)
            case Ok(found) => LastSeen(w'.posts, moment) == Some(found.snap.content)
            case Err(_) => LastSeen(w'.posts, moment) == None
  {
    SmoothRunKeeps(site, w, events, moment);
    var w' := AfterAll(site, w, events);
    SelectsLastWritten(site, w'.objects, w'.past, moment);
  }
}
