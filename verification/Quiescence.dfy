/** A settled cluster costs nothing: no more writes, and one value of the status at most. */
module Quiescence {
  import opened Wrappers
  import opened Store
  import opened Capture
  import opened CaptureRuns
  import opened FastPaths
  import opened Watermarks

  /** Events that leave the cluster and the rules alone. */
  ghost predicate IsStill(site: Site, w: World, e: Event) {
    !e.Edit? && !e.Reconfigure? && !e.Upgrade? && Allowed(site, w, e)
  }

  ghost predicate Still(site: Site, w: World, events: seq<Event>)
    decreases |events|
  {
    events != [] ==> IsStill(site, w, events[0]) && Still(site, After(site, w, events[0]), events[1..])
  }

  ghost predicate PublishedHere(site: Site, w: World) {
    match WatermarkFromCluster(w.cluster.pluginStatus)
    case Some(status) => status.store == site.store && status.serverName == site.server
    case None => true
  }

  /** The state needs no capture, and either the watermark or the store says so. */
  ghost predicate Quiet(site: Site, w: World) {
    (WatermarkHits(w.cluster, w.rules) && PublishedHere(site, w)) || LatestMatches(site, w.objects, w.cluster, w.rules)
  }

  lemma PostMakesQuiet(site: Site, w: World, e: Event)
    requires Digests(site.sum) && EntrySound(site, w) && WatermarkFromPast(site, w)
    requires e.Post? && Posted(site, w, e).result.Continue?
    ensures Quiet(site, After(site, w, e))
  {
    var status := WatermarkFromCluster(w.cluster.pluginStatus);
    if WatermarkHits(w.cluster, w.rules) {
      var snap :| IsStatusOf(site, w.past, status.value, snap, w.publishedBy);
    } else if SettledKey(w.entries, w.cluster, Live(w.cluster, w.rules)).Some? {
      SettledSound(site, w);
    } else {
      PostLeaves(site, w, e);
    }
  }

  /** In a quiet state Post writes nothing, whatever its Puts would have met. */
  lemma QuietPost(site: Site, w: World, e: Event)
    requires Quiet(site, w) && e.Post?
    ensures Posted(site, w, e).written == None && Posted(site, w, e).objects == w.objects
  {
  }

  lemma QuietStep(site: Site, w: World, e: Event)
    requires Quiet(site, w) && IsStill(site, w, e)
    ensures var w' := After(site, w, e);
            && Quiet(site, w') && w'.past == w.past && w'.rules == w.rules
            && LatestIn(w'.objects, site.layout, site.sum) == LatestIn(w.objects, site.layout, site.sum)
  {
    if e.Post? {
      QuietPost(site, w, e);
    }
  }

  lemma {:induction false} QuietRun(site: Site, w: World, events: seq<Event>)
    requires Quiet(site, w) && Still(site, w, events)
    ensures var w' := AfterAll(site, w, events);
            && Quiet(site, w') && w'.past == w.past && w'.rules == w.rules
            && LatestIn(w'.objects, site.layout, site.sum) == LatestIn(w.objects, site.layout, site.sum)
    decreases |events|
  {
    if events != [] {
      QuietStep(site, w, events[0]);
      QuietRun(site, After(site, w, events[0]), events[1..]);
    }
  }

  /** A Post that succeeded, after some run of a new process in which writes come in order and
      failed ones fail cleanly. */
  ghost predicate Succeeds(site: Site, start: World, before: seq<Event>, e: Event) {
    && Digests(site.sum) && Fresh(site, start) && InTurn(site, start, before) && Lawful(site, start, before)
    && e.Post? && Posted(site, AfterAll(site, start, before), e).result.Continue?
  }

  lemma SuccessIsQuiet(site: Site, start: World, before: seq<Event>, e: Event)
    requires Succeeds(site, start, before, e)
    ensures Quiet(site, After(site, AfterAll(site, start, before), e))
  {
    TracedRun(site, start, before);
    EntrySoundRun(site, start, before);
    PostMakesQuiet(site, AfterAll(site, start, before), e);
  }

  /** Quiescence: with the cluster and the rules left alone, after one Post that succeeds no
      later Post reaches Write, through restarts, evictions, sweeps and status polls. */
  lemma NoFurtherWrite(site: Site, start: World, before: seq<Event>, e: Event, events: seq<Event>)
    requires Succeeds(site, start, before, e)
    requires Still(site, After(site, AfterAll(site, start, before), e), events)
    ensures var w := After(site, AfterAll(site, start, before), e);
            AfterAll(site, w, events).past == w.past
  {
    SuccessIsQuiet(site, start, before, e);
    QuietRun(site, After(site, AfterAll(site, start, before), e), events);
  }

  /** And the status hook has at most one value left to publish, whenever it is polled. */
  lemma StatusSettles(site: Site, start: World, before: seq<Event>, e: Event, events: seq<Event>)
    requires Succeeds(site, start, before, e)
    requires Still(site, After(site, AfterAll(site, start, before), e), events)
    ensures var w := After(site, AfterAll(site, start, before), e);
            var later, latest := AfterAll(site, w, events), LatestIn(w.objects, site.layout, site.sum);
            var status := StatusIn(site, later.objects, later.entries, later.cluster, later.rules);
            status == None || (latest.Ok? && status == Some(StatusOf(site, latest.value, w.rules.tables)))
  {
    SuccessIsQuiet(site, start, before, e);
    QuietRun(site, After(site, AfterAll(site, start, before), e), events);
  }
}
