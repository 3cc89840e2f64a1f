/** Retention sweeps beside running captures: pruneSuperseded of
    internal/controller/configstore_controller.go, and every interleaving of its steps with
    the two Puts of writers and with other sweeps. */
module Sweeps {
  import opened Wrappers
  import opened Decimal
  import opened Civil
  import opened Layout
  import opened Refs
  import opened Retention
  import opened Store
  import opened Selection

  function DeletedIn(objects: Objects, keys: seq<string>): Objects {
    map k | k in objects && k !in keys :: objects[k]
  }

  ghost predicate FirstFailure(fates: nat -> Fate, i: nat) {
    !fates(i).Done? && forall j: nat :: j < i ==> fates(j).Done?
  }

  /** Deletes what the window supersedes, one key at a time, and gives up at the first failure. */
  method PruneSuperseded(snapshots: SnapshotStore, cutoff: int, fates: nat -> Fate)
    returns (ghost refs: seq<Ref>, ghost keys: seq<string>, ghost n: nat, finished: bool)
    modifies snapshots.backend
    ensures ListingOf(refs, Listed(old(snapshots.backend.objects), snapshots.layout)) && IsPlan(refs, cutoff, keys)
    ensures n <= |keys| && snapshots.backend.objects == DeletedIn(old(snapshots.backend.objects), keys[..n])
    ensures finished <==> forall i: nat :: i < |keys| ==> fates(i).Done?
    ensures finished ==> n == |keys|
    ensures !finished ==>
              exists i: nat :: i < |keys| && FirstFailure(fates, i) && n == if fates(i).Lost? then i else i + 1
  {
    var listed := snapshots.List();
    var plan := PlanRetention(listed, cutoff);
    refs, keys, n := listed, plan, 0;
    var i := 0;
    while i < |plan|
      invariant 0 <= i == n <= |plan|
      invariant snapshots.backend.objects == DeletedIn(old(snapshots.backend.objects), plan[..i])
      invariant forall j: nat :: j < i ==> fates(j).Done?
    {
      assert plan[..i + 1] == plan[..i] + [plan[i]];
      var ok := snapshots.backend.Delete(plan[i], fates(i));
      if !ok {
        n := if fates(i).Lost? then i else i + 1;
        assert FirstFailure(fates, i);
        return refs, keys, n, false;
      }
      i := i + 1;
      n := i;
    }
    finished := true;
  }

  /** What is listed after a partial sweep. */
  lemma ListedAfterSweep(objects: Objects, l: KeyLayout, keys: seq<string>, n: nat)
    requires n <= |keys|
    ensures Listed(DeletedIn(objects, keys[..n]), l) == Kept(Listed(objects, l), keys, n)
  {
    var left := DeletedIn(objects, keys[..n]);
    forall r ensures r in Listed(left, l) <==> r in Kept(Listed(objects, l), keys, n) {
      ListedKeys(left, l, r);
      ListedKeys(objects, l, r);
    }
  }

  ghost predicate Flat(objects: Objects, l: KeyLayout) {
    forall r :: r in Listed(objects, l) ==> Named(l, r)
  }

  /** One sweep over a bucket, finished or not: a restore to any moment reads afterwards the
      very snapshot it read before, or is refused; and to any moment since the cutoff it reads
      the same one. */
  lemma SweepKeepsAnswers(
    objects: Objects, l: KeyLayout, sum: Sum, refs: seq<Ref>, cutoff: int, keys: seq<string>, n: nat, moment: int)
    requires Flat(objects, l) && ListingOf(refs, Listed(objects, l)) && IsPlan(refs, cutoff, keys) && n <= |keys|
    ensures var before, after :=
              SelectIn(objects, l, sum, moment), SelectIn(DeletedIn(objects, keys[..n]), l, sum, moment);
            && (after == before || (after.Err? && !after.error.Unreadable?))
            && (moment >= cutoff ==> after == before)
  {
    NamedIsChronological(l, Listed(objects, l));
    ListedAfterSweep(objects, l, keys, n);
    SameAnswerOrRefusal(refs, Listed(objects, l), cutoff, keys, n, moment);
    if moment >= cutoff && Selected(Listed(objects, l), moment).None? {
      NothingOlder(refs, Listed(objects, l), cutoff, keys, moment);
      assert DeletedIn(objects, keys[..n]) == objects;
    }
  }

  lemma NothingOlder(refs: seq<Ref>, all: set<Ref>, cutoff: int, keys: seq<string>, moment: int)
    requires Chronological(all) && ListingOf(refs, all) && IsPlan(refs, cutoff, keys)
    requires moment >= cutoff && Selected(all, moment).None?
    ensures keys == []
  {
    PlanMeaning(refs, all, cutoff, keys);
    assert Older(all, cutoff) <= AtOrBefore(all, moment);
    if keys != [] {
      FirstOfPrefix(refs, |keys|);
    }
  }

  lemma FirstOfPrefix(refs: seq<Ref>, n: nat)
    requires 0 < n <= |refs|
    ensures refs[0] in refs[..n]
  {
    assert refs[..n][0] == refs[0];
  }

  /** A snapshot whose key is well formed, and whose document reads back. */
  ghost predicate Storable(snap: Snap, sum: Sum) {
    && FourDigitYear(snap.capturedAt / SECOND) && snap.generation < Power(GENERATION_DIGITS)
    && IsHex(ShortHash(snap.checksum))
    && Decode(Document(snap), sum) == Some(snap)
  }

  function SnapRef(l: KeyLayout, snap: Snap): Ref {
    Ref(KeyOf(l, snap), snap.capturedAt / SECOND * SECOND, snap.generation)
  }

  lemma StorableIsListed(l: KeyLayout, snap: Snap, sum: Sum)
    requires Storable(snap, sum)
    ensures IsListed(l, KeyOf(l, snap)) && RefOf(KeyOf(l, snap)) == SnapRef(l, snap)
    ensures Named(l, SnapRef(l, snap))
    ensures KeyOf(l, snap) != l.LatestKey() && !IsListed(l, l.LatestKey())
  {
    var hash := ShortHash(snap.checksum);
    var name := SnapshotName(snap.capturedAt / SECOND, snap.generation, hash);
    KeyRoundTrip(l, snap.capturedAt, snap.generation, snap.checksum);
    NameParses(snap.capturedAt / SECOND, snap.generation, hash);
    assert KeyOf(l, snap) == l.SnapshotsPrefix() + name;
    LatestKeyApart(l);
  }

  /** A bucket with its writers and sweeps. The history is the bucket as it would be had nothing
      ever been deleted; horizon is the latest cutoff any sweep has used, and anchor the latest
      snapshot any sweep has planned around. */
  datatype State = State(
    objects: Objects,
    history: Objects,
    writers: map<nat, Snap>,
    sweeps: map<nat, seq<string>>,
    horizon: int,
    anchor: Option<Ref>)

  datatype Step =
    | PutObject(writer: nat, snap: Snap, fate: Fate)
    | PutPointer(writer: nat, fate: Fate)
    | Crash(writer: nat)
    | List(sweep: nat, cutoff: int, refs: seq<Ref>, keys: seq<string>)
    | Delete(sweep: nat, fate: Fate)
    | Stop(sweep: nat)

  function Later(a: Option<Ref>, b: Option<Ref>): Option<Ref> {
    if a.None? then b else if b.None? then a else if Before(a.value, b.value) then b else a
  }

  /** One step of one party. */
  ghost predicate Next(l: KeyLayout, sum: Sum, s: State, step: Step, s': State) {
    match step
    case PutObject(w, snap, fate) =>
      && Storable(snap, sum)
      && s' == s.(objects := PutIn(s.objects, KeyOf(l, snap), Document(snap), fate),
                  history := PutIn(s.history, KeyOf(l, snap), Document(snap), fate),
                  writers := if fate.Done? then s.writers[w := snap] else s.writers - {w})
    case PutPointer(w, fate) =>
      && w in s.writers
      && s' == s.(objects := PutIn(s.objects, l.LatestKey(), Document(s.writers[w]), fate),
                  history := PutIn(s.history, l.LatestKey(), Document(s.writers[w]), fate),
                  writers := s.writers - {w})
    case Crash(w) => s' == s.(writers := s.writers - {w})
    case List(i, cutoff, refs, keys) =>
      && ListingOf(refs, Listed(s.objects, l)) && IsPlan(refs, cutoff, keys)
      && s' == s.(sweeps := s.sweeps[i := keys],
                  horizon := if cutoff > s.horizon then cutoff else s.horizon,
                  anchor := Later(s.anchor, if keys == [] then None else Anchor(Listed(s.objects, l), cutoff)))
    case Delete(i, fate) =>
      && i in s.sweeps && s.sweeps[i] != []
      && s' == s.(objects := DeleteIn(s.objects, s.sweeps[i][0], fate),
                  sweeps := if fate.Done? then s.sweeps[i := s.sweeps[i][1..]] else s.sweeps - {i})
    case Stop(i) => s' == s.(sweeps := s.sweeps - {i})
  }

  ghost predicate Run(l: KeyLayout, sum: Sum, s: State, steps: seq<Step>, s': State)
    decreases |steps|
  {
    if steps == [] then s' == s
    else exists mid :: Next(l, sum, s, steps[0], mid) && Run(l, sum, mid, steps[1..], s')
  }

  /** Where a run may start: any bucket, with keys of the proper form. */
  ghost predicate Start(l: KeyLayout, s: State) {
    s.history == s.objects && s.writers == map[] && s.sweeps == map[] && s.anchor == None && Flat(s.objects, l)
  }

  ghost predicate Within(objects: Objects, history: Objects) {
    forall k :: k in objects ==> k in history && history[k] == objects[k]
  }

  /** Older than the anchor. */
  predicate Doomed(anchor: Option<Ref>, r: Ref) {
    anchor.Some? && Before(r, anchor.value)
  }

  ghost predicate AllNamed(l: KeyLayout, refs: set<Ref>) {
    forall r :: r in refs ==> Named(l, r)
  }

  ghost predicate PlanDoomed(l: KeyLayout, keys: seq<string>, anchor: Option<Ref>) {
    forall k :: k in keys ==> IsListed(l, k) && Doomed(anchor, RefOf(k))
  }

  ghost predicate PlansDoomed(l: KeyLayout, sweeps: map<nat, seq<string>>, anchor: Option<Ref>) {
    forall i :: i in sweeps ==> PlanDoomed(l, sweeps[i], anchor)
  }

  /** Whatever is deleted, or going to be, is older than a snapshot that is still there and was
      captured before the horizon. */
  ghost predicate Sound(l: KeyLayout, live: set<Ref>, all: set<Ref>, s: State) {
    && live <= all && AllNamed(l, all)
    && (forall r :: r in all && r !in live ==> Doomed(s.anchor, r))
    && PlansDoomed(l, s.sweeps, s.anchor)
    && (s.anchor.Some? ==> s.anchor.value in live && s.anchor.value.capturedAt < s.horizon)
  }

  ghost predicate Inv(l: KeyLayout, s: State) {
    Within(s.objects, s.history) && Sound(l, Listed(s.objects, l), Listed(s.history, l), s)
  }

  lemma ListedAfterPut(objects: Objects, l: KeyLayout, snap: Snap, sum: Sum, fate: Fate)
    requires Storable(snap, sum)
    ensures Listed(PutIn(objects, KeyOf(l, snap), Document(snap), fate), l) ==
            Listed(objects, l) + if fate.Lost? then {} else {SnapRef(l, snap)}
  {
    StorableIsListed(l, snap, sum);
    var after := PutIn(objects, KeyOf(l, snap), Document(snap), fate);
    forall r ensures r in Listed(after, l) <==> r in Listed(objects, l) || (!fate.Lost? && r == SnapRef(l, snap)) {
      ListedKeys(objects, l, r);
      ListedKeys(after, l, r);
    }
  }

  lemma ListedAfterPointer(objects: Objects, l: KeyLayout, o: Object, fate: Fate)
    ensures Listed(PutIn(objects, l.LatestKey(), o, fate), l) == Listed(objects, l)
  {
    LatestKeyApart(l);
    forall r ensures r in Listed(PutIn(objects, l.LatestKey(), o, fate), l) <==> r in Listed(objects, l) {
      ListedKeys(objects, l, r);
      ListedKeys(PutIn(objects, l.LatestKey(), o, fate), l, r);
    }
  }

  lemma ListedAfterDelete(objects: Objects, l: KeyLayout, key: string, fate: Fate)
    requires IsListed(l, key)
    ensures Listed(DeleteIn(objects, key, fate), l) == Listed(objects, l) - if fate.Lost? then {} else {RefOf(key)}
  {
    var after := DeleteIn(objects, key, fate);
    forall r ensures r in Listed(after, l) <==> r in Listed(objects, l) && (fate.Lost? || r != RefOf(key)) {
      ListedKeys(objects, l, r);
      ListedKeys(after, l, r);
    }
  }

  lemma DoomedLater(anchor: Option<Ref>, next: Option<Ref>, r: Ref)
    requires Doomed(anchor, r) || Doomed(next, r)
    ensures Doomed(Later(anchor, next), r)
  {
    if anchor.Some? && next.Some? {
      var a, b := anchor.value, next.value;
      BeforeTotal(a, b);
      if Before(r, a) && Before(a, b) {
        BeforeTransitive(r, a, b);
      } else if Before(r, b) && Before(b, a) {
        BeforeTransitive(r, b, a);
      }
    }
  }

  lemma WithinPut(objects: Objects, history: Objects, key: string, o: Object, fate: Fate)
    requires Within(objects, history)
    ensures Within(PutIn(objects, key, o, fate), PutIn(history, key, o, fate))
  {
  }

  /** One reference put, in the bucket and in the history alike. */
  lemma SoundWithMore(l: KeyLayout, live: set<Ref>, all: set<Ref>, s: State, s': State, added: set<Ref>)
    requires Sound(l, live, all, s) && AllNamed(l, added)
    requires s'.sweeps == s.sweeps && s'.anchor == s.anchor && s'.horizon == s.horizon
    ensures Sound(l, live + added, all + added, s')
  {
    forall r | r in all + added ensures Named(l, r) {
    }
  }

  lemma InvPut(l: KeyLayout, sum: Sum, s: State, step: Step, s': State)
    requires Inv(l, s) && Next(l, sum, s, step, s') && (step.PutObject? || step.PutPointer? || step.Crash?)
    ensures Inv(l, s')
  {
    var live, all := Listed(s.objects, l), Listed(s.history, l);
    match step {
      case PutObject(w, snap, fate) =>
        StorableIsListed(l, snap, sum);
        ListedAfterPut(s.objects, l, snap, sum, fate);
        ListedAfterPut(s.history, l, snap, sum, fate);
        WithinPut(s.objects, s.history, KeyOf(l, snap), Document(snap), fate);
        SoundWithMore(l, live, all, s, s', if fate.Lost? then {} else {SnapRef(l, snap)});
      case PutPointer(w, fate) =>
        ListedAfterPointer(s.objects, l, Document(s.writers[w]), fate);
        ListedAfterPointer(s.history, l, Document(s.writers[w]), fate);
        WithinPut(s.objects, s.history, l.LatestKey(), Document(s.writers[w]), fate);
        SoundWithMore(l, live, all, s, s', {});
        assert live + {} == live && all + {} == all;
      case _ =>
    }
  }

  /** Everything a sweep plans to delete is older than the anchor it planned around. */
  lemma PlannedIsDoomed(all: set<Ref>, refs: seq<Ref>, cutoff: int, keys: seq<string>, k: string)
    requires Chronological(all) && ListingOf(refs, all) && IsPlan(refs, cutoff, keys) && k in keys
    ensures exists r :: r in all && r.key == k && Doomed(Anchor(all, cutoff), r)
  {
    PlanMeaning(refs, all, cutoff, keys);
    var i :| 0 <= i < |keys| && keys[i] == k;
    assert refs[..|keys|][i] == refs[i] && refs[i].key == k;
    assert refs[i] in Superseded(all, cutoff);
  }

  lemma NewPlanDoomed(l: KeyLayout, objects: Objects, cutoff: int, refs: seq<Ref>, keys: seq<string>)
    requires AllNamed(l, Listed(objects, l)) && ListingOf(refs, Listed(objects, l)) && IsPlan(refs, cutoff, keys)
    ensures PlanDoomed(l, keys, Anchor(Listed(objects, l), cutoff))
  {
    var live := Listed(objects, l);
    NamedIsChronological(l, live);
    forall k | k in keys ensures IsListed(l, k) && Doomed(Anchor(live, cutoff), RefOf(k)) {
      PlannedIsDoomed(live, refs, cutoff, keys, k);
      var r :| r in live && r.key == k && Doomed(Anchor(live, cutoff), r);
      ListedKeys(objects, l, r);
    }
  }

  lemma PlanDoomedLater(l: KeyLayout, keys: seq<string>, anchor: Option<Ref>, next: Option<Ref>)
    requires PlanDoomed(l, keys, anchor) || PlanDoomed(l, keys, next)
    ensures PlanDoomed(l, keys, Later(anchor, next))
  {
    forall k | k in keys ensures IsListed(l, k) && Doomed(Later(anchor, next), RefOf(k)) {
      DoomedLater(anchor, next, RefOf(k));
    }
  }

  lemma InvList(l: KeyLayout, sum: Sum, s: State, step: Step, s': State)
    requires Inv(l, s) && Next(l, sum, s, step, s') && step.List?
    ensures Inv(l, s')
  {
    var live, all := Listed(s.objects, l), Listed(s.history, l);
    var next := if step.keys == [] then None else Anchor(live, step.cutoff);
    NewPlanDoomed(l, s.objects, step.cutoff, step.refs, step.keys);
    forall i | i in s'.sweeps ensures PlanDoomed(l, s'.sweeps[i], s'.anchor) {
      PlanDoomedLater(l, s'.sweeps[i], s.anchor, next);
    }
    forall r | r in all && r !in live ensures Doomed(s'.anchor, r) {
      DoomedLater(s.anchor, next, r);
    }
  }

  lemma SoundWithLess(l: KeyLayout, live: set<Ref>, all: set<Ref>, s: State, s': State, removed: set<Ref>)
    requires Sound(l, live, all, s) && s'.anchor == s.anchor && s'.horizon == s.horizon
    requires forall r :: r in removed ==> Doomed(s.anchor, r)
    requires PlansDoomed(l, s'.sweeps, s.anchor)
    ensures Sound(l, live - removed, all, s')
  {
    if s.anchor.Some? && s.anchor.value in removed {
      BeforeAsymmetric(s.anchor.value, s.anchor.value);
    }
  }

  lemma PlansAfterDelete(l: KeyLayout, sweeps: map<nat, seq<string>>, anchor: Option<Ref>, i: nat)
    requires PlansDoomed(l, sweeps, anchor) && i in sweeps && sweeps[i] != []
    ensures PlansDoomed(l, sweeps[i := sweeps[i][1..]], anchor) && PlansDoomed(l, sweeps - {i}, anchor)
    ensures IsListed(l, sweeps[i][0]) && Doomed(anchor, RefOf(sweeps[i][0]))
  {
    assert PlanDoomed(l, sweeps[i], anchor);
    assert PlanDoomed(l, sweeps[i][1..], anchor);
  }

  lemma WithinDelete(objects: Objects, history: Objects, key: string, fate: Fate)
    requires Within(objects, history)
    ensures Within(DeleteIn(objects, key, fate), history)
  {
  }

  /** One key of a plan deleted, or not, and the plan advanced or given up. */
  lemma InvWithout(l: KeyLayout, s: State, s': State, key: string, fate: Fate)
    requires Inv(l, s) && s'.anchor == s.anchor && s'.horizon == s.horizon && s'.history == s.history
    requires IsListed(l, key) && Doomed(s.anchor, RefOf(key)) && s'.objects == DeleteIn(s.objects, key, fate)
    requires PlansDoomed(l, s'.sweeps, s.anchor)
    ensures Inv(l, s')
  {
    var live, all := Listed(s.objects, l), Listed(s.history, l);
    var removed := if fate.Lost? then {} else {RefOf(key)};
    WithinDelete(s.objects, s.history, key, fate);
    ListedAfterDelete(s.objects, l, key, fate);
    assert Listed(s'.objects, l) == live - removed;
    SoundWithLess(l, live, all, s, s', removed);
  }

  lemma InvDelete(l: KeyLayout, sum: Sum, s: State, step: Step, s': State)
    requires Inv(l, s) && Next(l, sum, s, step, s') && step.Delete?
    ensures Inv(l, s')
  {
    PlansAfterDelete(l, s.sweeps, s.anchor, step.sweep);
    InvWithout(l, s, s', s.sweeps[step.sweep][0], step.fate);
  }

  lemma InvStop(l: KeyLayout, sum: Sum, s: State, step: Step, s': State)
    requires Inv(l, s) && Next(l, sum, s, step, s') && step.Stop?
    ensures Inv(l, s')
  {
    var live := Listed(s.objects, l);
    SoundWithLess(l, live, Listed(s.history, l), s, s', {});
    assert live - {} == live;
  }

  lemma InvStep(l: KeyLayout, sum: Sum, s: State, step: Step, s': State)
    requires Inv(l, s) && Next(l, sum, s, step, s')
    ensures Inv(l, s')
  {
    if step.List? {
      InvList(l, sum, s, step, s');
    } else if step.Delete? {
      InvDelete(l, sum, s, step, s');
    } else if step.Stop? {
      InvStop(l, sum, s, step, s');
    } else {
      InvPut(l, sum, s, step, s');
    }
  }

  lemma {:induction false} InvRun(l: KeyLayout, sum: Sum, s: State, steps: seq<Step>, s': State)
    requires Inv(l, s) && Run(l, sum, s, steps, s')
    ensures Inv(l, s')
    decreases |steps|
  {
    if steps != [] {
      var step := steps[0];
      var mid :| Next(l, sum, s, step, mid) && Run(l, sum, mid, steps[1..], s');
      InvStep(l, sum, s, step, mid);
      InvRun(l, sum, mid, steps[1..], s');
    }
  }

  /** Concurrent retention safety: in every interleaving of captures by any writers with any
      number of sweeps, each of which may fail or stop anywhere, a restore to any moment at or
      after the largest cutoff used answers as if nothing had ever been deleted. */
  lemma ConcurrentSweepsAreSafe(l: KeyLayout, sum: Sum, s: State, steps: seq<Step>, s': State, moment: int)
    requires Start(l, s) && Run(l, sum, s, steps, s') && moment >= s'.horizon
    ensures SelectIn(s'.objects, l, sum, moment) == SelectIn(s'.history, l, sum, moment)
  {
    InvRun(l, sum, s, steps, s');
    InvAnswers(l, sum, s', moment);
  }

  lemma SoundAnswers(l: KeyLayout, live: set<Ref>, all: set<Ref>, s: State, moment: int)
    requires Sound(l, live, all, s) && moment >= s.horizon
    ensures Selected(live, moment) == Selected(all, moment) && (live == {} <==> all == {})
  {
    var answer := Selected(all, moment);
    if answer.None? {
      assert AtOrBefore(live, moment) <= AtOrBefore(all, moment);
    } else {
      assert s.anchor.Some? ==> s.anchor.value in AtOrBefore(all, moment);
      if answer.value !in live {
        BeforeAsymmetric(answer.value, s.anchor.value);
      }
      NewestOfFewer(AtOrBefore(all, moment), AtOrBefore(live, moment));
    }
  }

  lemma InvAnswers(l: KeyLayout, sum: Sum, s: State, moment: int)
    requires Inv(l, s) && moment >= s.horizon
    ensures SelectIn(s.objects, l, sum, moment) == SelectIn(s.history, l, sum, moment)
  {
    var live := Listed(s.objects, l);
    SoundAnswers(l, live, Listed(s.history, l), s, moment);
    if Selected(live, moment).Some? {
      ListedKeys(s.objects, l, Selected(live, moment).value);
    }
  }
}
