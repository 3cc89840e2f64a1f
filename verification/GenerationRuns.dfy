/** What a generation selects over whole runs: the last snapshot written with it, while it is held. */
module GenerationRuns {
  import opened Wrappers
  import opened Layout
  import opened Refs
  import opened Retention
  import opened Store
  import opened Selection
  import opened Sweeps
  import opened Capture
  import opened CaptureRuns
  import opened FastPaths
  import opened Watermarks
  import opened PointInTime

  ghost predicate Present(site: Site, objects: Objects, p: Snap) {
    KeyOf(site.layout, p) in objects
  }

  /** What the bucket holds of a history is an end of it: with a snapshot all later ones are there, and
      read as they were written. */
  ghost predicate HoldsEnd(site: Site, objects: Objects, past: seq<Snap>) {
    forall i, j :: 0 <= i <= j < |past| && Present(site, objects, past[i]) ==> Held(site, objects, past[j])
  }

  /** The last snapshot of a history with this generation. */
  ghost predicate LastOf(past: seq<Snap>, generation: int, i: int) {
    && 0 <= i < |past| && past[i].generation == generation
    && forall j :: i < j < |past| ==> past[j].generation != generation
  }

  lemma EndAfterWrite(site: Site, objects: Objects, past: seq<Snap>, snap: Snap)
    requires HoldsEnd(site, objects, past) && Storable(snap, site.sum) && forall p :: p in past ==> Follows(p, snap)
    requires forall p :: p in past ==> Storable(p, site.sum)
    ensures HoldsEnd(site, Written(objects, site.layout, snap, Done, Done), past + [snap])
  {
    var after, more := Written(objects, site.layout, snap, Done, Done), past + [snap];
    forall i, j | 0 <= i <= j < |more| && Present(site, after, more[i]) ensures Held(site, after, more[j]) {
      if j < |past| {
        FollowingKeysDiffer(site.layout, site.sum, past[i], snap);
        KeyNotLatest(site.layout, past[i]);
        assert Present(site, objects, past[i]);
      }
      HeldAfterWrite(site, objects, more[j], snap);
    }
  }

  /** A sweep takes from the front. */
  lemma EndAfterSweep(
    site: Site, objects: Objects, past: seq<Snap>, refs: seq<Ref>, cutoff: int, keys: seq<string>, n: nat)
    requires HoldsEnd(site, objects, past) && Ascending(past) && Flat(objects, site.layout)
    requires ListingOf(refs, Listed(objects, site.layout)) && IsPlan(refs, cutoff, keys) && n <= |keys|
    ensures HoldsEnd(site, DeletedIn(objects, keys[..n]), past)
  {
    var l, after := site.layout, DeletedIn(objects, keys[..n]);
    forall i, j | 0 <= i <= j < |past| && Present(site, after, past[i]) ensures Held(site, after, past[j]) {
      if KeyOf(l, past[j]) in keys[..n] {
        SweptFromFront(site, objects, past, i, j, refs, cutoff, keys, n);
      }
    }
  }

  lemma SweptFromFront(
    site: Site, objects: Objects, past: seq<Snap>, i: nat, j: nat,
    refs: seq<Ref>, cutoff: int, keys: seq<string>, n: nat)
    requires i <= j < |past| && Held(site, objects, past[i]) && Held(site, objects, past[j]) && Ascending(past)
    requires Flat(objects, site.layout) && ListingOf(refs, Listed(objects, site.layout))
    requires IsPlan(refs, cutoff, keys) && n <= |keys| && KeyOf(site.layout, past[j]) in keys[..n]
    ensures KeyOf(site.layout, past[i]) in keys[..n]
  {
    var l := site.layout;
    HeldIsListed(site, objects, past[i]);
    HeldIsListed(site, objects, past[j]);
    assert past[i] == past[j] || Follows(past[i], past[j]);
    EarlierDeleted(objects, l, SnapRef(l, past[i]), SnapRef(l, past[j]), refs, cutoff, keys, n);
  }

  /** A sweep that deletes a listed reference has deleted every earlier one. */
  lemma EarlierDeleted(
    objects: Objects, l: KeyLayout, a: Ref, b: Ref, refs: seq<Ref>, cutoff: int, keys: seq<string>, n: nat)
    requires Flat(objects, l) && ListingOf(refs, Listed(objects, l)) && IsPlan(refs, cutoff, keys) && n <= |keys|
    requires a in Listed(objects, l) && b in Listed(objects, l) && (a == b || Before(a, b)) && b.key in keys[..n]
    ensures a.key in keys[..n]
  {
    NamedIsChronological(l, Listed(objects, l));
    KeptIsSuffixOfPlan(refs, Listed(objects, l), cutoff, keys, n);
    PlanMeaning(refs, Listed(objects, l), cutoff, keys);
    if a.key !in keys[..n] {
      assert a in Kept(Listed(objects, l), keys, n) && b !in Kept(Listed(objects, l), keys, n);
      NotBeforeSuffix(refs, n, a, b);
    }
  }

  lemma NotBeforeSuffix(refs: seq<Ref>, n: nat, a: Ref, b: Ref)
    requires Ordered(refs) && n <= |refs| && a in refs[n..] && b in refs && b !in refs[n..]
    ensures a != b && !Before(a, b)
  {
    var x :| 0 <= x < |refs| && refs[x] == b;
    var y :| 0 <= y < |refs[n..]| && refs[n..][y] == a;
    forall k | n <= k < |refs| ensures refs[k] in refs[n..] {
      assert refs[n..][k - n] == refs[k];
    }
    BeforeAsymmetric(refs[x], refs[n + y]);
  }

  lemma EndStep(site: Site, w: World, e: Event, moment: int)
    requires Digests(site.sum) && AllSound(site, w) && Faithful(site, w, moment) && Smooth(site, w, e, moment)
    requires HoldsEnd(site, w.objects, w.past)
    ensures HoldsEnd(site, After(site, w, e).objects, After(site, w, e).past)
  {
    if e.Post? {
      PostCompletes(site, w, e);
      if Posted(site, w, e).written.Some? {
        EndAfterWrite(site, w.objects, w.past, Posted(site, w, e).written.value);
      }
    } else if e.Elsewhere? {
      var l := site.layout;
      var refs, cutoff: int, keys, n: nat :|
        && ListingOf(refs, Listed(w.objects, l)) && IsPlan(refs, cutoff, keys) && n <= |keys| && cutoff <= moment
        && e.objects == DeletedIn(w.objects, keys[..n]);
      OursAreFlat(site, w);
      EndAfterSweep(site, w.objects, w.past, refs, cutoff, keys, n);
    }
  }

  lemma {:induction false} EndRun(site: Site, w: World, events: seq<Event>, moment: int)
    requires Digests(site.sum) && AllSound(site, w) && Faithful(site, w, moment) && SmoothRun(site, w, events, moment)
    requires HoldsEnd(site, w.objects, w.past)
    ensures var w' := AfterAll(site, w, events);
            AllSound(site, w') && Faithful(site, w', moment) && HoldsEnd(site, w'.objects, w'.past)
    decreases |events|
  {
    if events != [] {
      var e := events[0];
      FaithfulStep(site, w, e, moment);
      SoundStep(site, w, e, moment);
      EndStep(site, w, e, moment);
      EndRun(site, After(site, w, e), events[1..], moment);
    }
  }

  /** What a bucket that holds the end of a history answers for a generation: the last snapshot written
      with it while that is there, and a refusal otherwise. */
  lemma SelectsLastOf(site: Site, objects: Objects, past: seq<Snap>, generation: int, i: int)
    requires Ascending(past) && ListsOnly(site.layout, Listed(objects, site.layout), past)
    requires HoldsEnd(site, objects, past)
    requires LastOf(past, generation, i) || (i == -1 && forall p :: p in past ==> p.generation != generation)
    ensures SelectGenerationIn(objects, site.layout, site.sum, generation) ==
            if i >= 0 && Present(site, objects, past[i]) then Ok(Found(past[i], KeyOf(site.layout, past[i])))
            else Err(NoSuchGeneration)
  {
    var l, all := site.layout, Listed(objects, site.layout);
    forall r | r in all && r.generation == generation
      ensures i >= 0 && Present(site, objects, past[i]) && (r == SnapRef(l, past[i]) || Before(r, SnapRef(l, past[i])))
    {
      var p :| p in past && r == SnapRef(l, p);
      var k :| 0 <= k < |past| && past[k] == p;
      ListedKeys(objects, l, r);
      assert k <= i && Present(site, objects, past[k]);
      assert Held(site, objects, past[i]);
      assert k < i ==> Follows(past[k], past[i]);
    }
    if i >= 0 && Present(site, objects, past[i]) {
      HeldIsListed(site, objects, past[i]);
      NewestIs(AtGeneration(all, generation), SnapRef(l, past[i]));
    } else {
      assert AtGeneration(all, generation) == {};
    }
  }

  /** Selection by generation, over runs: in every run in which no Put fails, writes come in order and
      every watermark that hits holds, through any sweeps, a generation selects the last snapshot
      written with it, and is refused exactly when there is none or a sweep has deleted it. */
  lemma SelectionIsLastOfGeneration(site: Site, w: World, events: seq<Event>, moment: int, generation: int, i: int)
    requires Digests(site.sum) && Fresh(site, w) && w.objects == map[] && w.posts == []
    requires SmoothRun(site, w, events, moment)
    requires var past := AfterAll(site, w, events).past;
             LastOf(past, generation, i) || (i == -1 && forall p :: p in past ==> p.generation != generation)
    ensures var w' := AfterAll(site, w, events);
            SelectGenerationIn(w'.objects, site.layout, site.sum, generation) ==
            if i >= 0 && Present(site, w'.objects, w'.past[i])
            then Ok(Found(w'.past[i], KeyOf(site.layout, w'.past[i])))
            else Err(NoSuchGeneration)
  {
    EndRun(site, w, events, moment);
    var w' := AfterAll(site, w, events);
    SelectsLastOf(site, w'.objects, w'.past, generation, i);
  }
}
