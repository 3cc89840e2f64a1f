/** Runs with one writer at a time and captures in ascending (second, generation) order: what
    such runs add to the safety of sweeps, and what the latest pointer is worth in them. */
module Orderly {
  import opened Wrappers
  import opened Layout
  import opened Refs
  import opened Retention
  import opened Store
  import opened Selection
  import opened Sweeps

  /** A capture starts when none is under way, and is later than everything ever put. */
  ghost predicate InOrder(l: KeyLayout, s: State, step: Step) {
    step.PutObject? ==>
      && s.writers == map[]
      && forall h :: h in Listed(s.history, l) ==> Before(h, SnapRef(l, step.snap))
  }

  ghost predicate OrderlyRun(l: KeyLayout, sum: Sum, s: State, steps: seq<Step>, s': State)
    decreases |steps|
  {
    if steps == [] then s' == s
    else exists mid ::
      InOrder(l, s, steps[0]) && Next(l, sum, s, steps[0], mid) && OrderlyRun(l, sum, mid, steps[1..], s')
  }

  /** Only the oldest are gone. */
  ghost predicate OldestGone(live: set<Ref>, all: set<Ref>) {
    forall a, b :: a in live && b in all && b !in live ==> !Before(a, b)
  }

  /** Whatever is live and older than r has one of these keys. */
  ghost predicate OlderAmong(live: set<Ref>, r: Ref, keys: seq<string>) {
    forall a :: a in live && Before(a, r) ==> a.key in keys
  }

  /** What a sweep has still to delete: nothing live is older, but what it deletes first. */
  ghost predicate OldestFirst(l: KeyLayout, live: set<Ref>, all: set<Ref>, keys: seq<string>) {
    forall j :: 0 <= j < |keys| ==>
      IsListed(l, keys[j]) && RefOf(keys[j]) in all && OlderAmong(live, RefOf(keys[j]), keys[..j])
  }

  ghost predicate Tidy(l: KeyLayout, live: set<Ref>, all: set<Ref>, sweeps: map<nat, seq<string>>) {
    && OldestGone(live, all)
    && forall i :: i in sweeps ==> OldestFirst(l, live, all, sweeps[i])
  }

  lemma TidyWithMore(l: KeyLayout, live: set<Ref>, all: set<Ref>, sweeps: map<nat, seq<string>>, r: Ref)
    requires Tidy(l, live, all, sweeps) && live <= all && forall h :: h in all ==> Before(h, r)
    ensures Tidy(l, live + {r}, all + {r}, sweeps)
  {
    forall h | h in all ensures !Before(r, h) {
      BeforeAsymmetric(h, r);
    }
    forall i | i in sweeps ensures OldestFirst(l, live + {r}, all + {r}, sweeps[i]) {
      assert OldestFirst(l, live, all, sweeps[i]);
    }
  }

  lemma OldestFirstWithLess(l: KeyLayout, live: set<Ref>, all: set<Ref>, keys: seq<string>, removed: set<Ref>)
    requires OldestFirst(l, live, all, keys)
    ensures OldestFirst(l, live - removed, all, keys)
  {
  }

  lemma OldestFirstAdvances(l: KeyLayout, live: set<Ref>, all: set<Ref>, keys: seq<string>)
    requires OldestFirst(l, live, all, keys) && keys != []
    requires forall a :: a in live ==> IsListed(l, a.key) && a == RefOf(a.key)
    ensures OldestFirst(l, live - {RefOf(keys[0])}, all, keys[1..])
  {
    var rest, left := keys[1..], live - {RefOf(keys[0])};
    forall j | 0 <= j < |rest|
      ensures IsListed(l, rest[j]) && RefOf(rest[j]) in all && OlderAmong(left, RefOf(rest[j]), rest[..j])
    {
      KeysAfterFirst(keys, j);
      AllButFirst(live, RefOf(keys[j + 1]), keys[0], rest[..j], left);
    }
  }

  lemma KeysAfterFirst(keys: seq<string>, j: nat)
    requires j + 1 < |keys|
    ensures keys[1..][j] == keys[j + 1] && keys[..j + 1] == [keys[0]] + keys[1..][..j]
  {
  }

  lemma AllButFirst(live: set<Ref>, r: Ref, first: string, keys: seq<string>, left: set<Ref>)
    requires OlderAmong(live, r, [first] + keys) && left <= live && forall a :: a in left ==> a.key != first
    ensures OlderAmong(left, r, keys)
  {
  }

  lemma TidyWithLess(l: KeyLayout, live: set<Ref>, all: set<Ref>, sweeps: map<nat, seq<string>>, i: nat, fate: Fate)
    requires Tidy(l, live, all, sweeps) && i in sweeps && sweeps[i] != []
    requires IsListed(l, sweeps[i][0]) && forall a :: a in live ==> IsListed(l, a.key) && a == RefOf(a.key)
    ensures var left := live - if fate.Lost? then {} else {RefOf(sweeps[i][0])};
            && Tidy(l, left, all, sweeps - {i})
            && (fate.Done? ==> Tidy(l, left, all, sweeps[i := sweeps[i][1..]]))
  {
    var removed := if fate.Lost? then {} else {RefOf(sweeps[i][0])};
    var left := live - removed;
    assert OldestFirst(l, live, all, sweeps[i]);
    assert sweeps[i][..0] == [];
    assert OldestGone(left, all);
    OldestFirstAdvances(l, live, all, sweeps[i]);
    forall k | k in sweeps ensures OldestFirst(l, left, all, sweeps[k]) {
      OldestFirstWithLess(l, live, all, sweeps[k], removed);
    }
  }

  lemma NewPlanOldestFirst(
    l: KeyLayout, objects: Objects, all: set<Ref>, cutoff: int, refs: seq<Ref>, keys: seq<string>)
    requires AllNamed(l, Listed(objects, l)) && Listed(objects, l) <= all
    requires ListingOf(refs, Listed(objects, l)) && IsPlan(refs, cutoff, keys)
    ensures OldestFirst(l, Listed(objects, l), all, keys)
  {
    var live := Listed(objects, l);
    NamedIsChronological(l, live);
    PlanMeaning(refs, live, cutoff, keys);
    forall j | 0 <= j < |keys|
      ensures IsListed(l, keys[j]) && RefOf(keys[j]) in all && OlderAmong(live, RefOf(keys[j]), keys[..j])
    {
      assert refs[j] in live && keys[j] == refs[j].key;
      ListedKeys(objects, l, refs[j]);
      forall a | a in live && Before(a, refs[j]) ensures a.key in keys[..j] {
        var i :| 0 <= i < |refs| && refs[i] == a;
        if i >= j {
          NotBefore(refs, j, i);
        }
        assert keys[..j][i] == a.key;
      }
    }
  }

  ghost predicate TidyState(l: KeyLayout, s: State) {
    Tidy(l, Listed(s.objects, l), Listed(s.history, l), s.sweeps)
  }

  lemma TidyPut(l: KeyLayout, sum: Sum, s: State, step: Step, s': State)
    requires Inv(l, s) && TidyState(l, s) && InOrder(l, s, step) && Next(l, sum, s, step, s') && step.PutObject?
    ensures TidyState(l, s')
  {
    var live, all := Listed(s.objects, l), Listed(s.history, l);
    ListedAfterPut(s.objects, l, step.snap, sum, step.fate);
    ListedAfterPut(s.history, l, step.snap, sum, step.fate);
    TidyWithMore(l, live, all, s.sweeps, SnapRef(l, step.snap));
    assert live + {} == live && all + {} == all;
  }

  lemma TidyDelete(l: KeyLayout, sum: Sum, s: State, step: Step, s': State)
    requires Inv(l, s) && TidyState(l, s) && Next(l, sum, s, step, s') && step.Delete?
    ensures TidyState(l, s')
  {
    var i := step.sweep;
    PlansAfterDelete(l, s.sweeps, s.anchor, i);
    ListedAfterDelete(s.objects, l, s.sweeps[i][0], step.fate);
    TidyWithLess(l, Listed(s.objects, l), Listed(s.history, l), s.sweeps, i, step.fate);
  }

  lemma TidyStep(l: KeyLayout, sum: Sum, s: State, step: Step, s': State)
    requires Inv(l, s) && TidyState(l, s) && InOrder(l, s, step) && Next(l, sum, s, step, s')
    ensures TidyState(l, s')
  {
    match step {
      case PutObject(_, _, _) =>
        TidyPut(l, sum, s, step, s');
      case PutPointer(w, fate) =>
        ListedAfterPointer(s.objects, l, Document(s.writers[w]), fate);
        ListedAfterPointer(s.history, l, Document(s.writers[w]), fate);
      case List(i, cutoff, refs, keys) =>
        NewPlanOldestFirst(l, s.objects, Listed(s.history, l), cutoff, refs, keys);
      case Delete(_, _) =>
        TidyDelete(l, sum, s, step, s');
      case _ =>
    }
  }

  /** A stored snapshot: its document stands in the history under its own key. */
  ghost predicate Recorded(l: KeyLayout, sum: Sum, history: Objects, snap: Snap) {
    && Storable(snap, sum)
    && KeyOf(l, snap) in history && history[KeyOf(l, snap)] == Document(snap)
  }

  /** The pointer holds a copy of a stored snapshot, and a writer about to move it holds the
      newest one. */
  ghost predicate PointerState(l: KeyLayout, sum: Sum, s: State) {
    && (l.LatestKey() in s.objects ==>
          exists snap :: s.objects[l.LatestKey()] == Document(snap) && Recorded(l, sum, s.history, snap))
    && (forall w :: w in s.writers ==>
          && Recorded(l, sum, s.history, s.writers[w])
          && IsNewest(Listed(s.history, l), SnapRef(l, s.writers[w])))
  }

  lemma RecordedIsListed(l: KeyLayout, sum: Sum, history: Objects, snap: Snap)
    requires Recorded(l, sum, history, snap)
    ensures SnapRef(l, snap) in Listed(history, l)
  {
    StorableIsListed(l, snap, sum);
    ListedKeys(history, l, SnapRef(l, snap));
  }

  lemma LaterKeyDiffers(l: KeyLayout, sum: Sum, history: Objects, snap: Snap, later: Snap)
    requires Recorded(l, sum, history, snap) && Storable(later, sum)
    requires forall h :: h in Listed(history, l) ==> Before(h, SnapRef(l, later))
    ensures KeyOf(l, snap) != KeyOf(l, later)
  {
    RecordedIsListed(l, sum, history, snap);
    StorableIsListed(l, snap, sum);
    StorableIsListed(l, later, sum);
    BeforeAsymmetric(SnapRef(l, snap), SnapRef(l, later));
  }

  lemma RecordedBeside(l: KeyLayout, sum: Sum, history: Objects, snap: Snap, key: string, o: Object, fate: Fate)
    requires Recorded(l, sum, history, snap) && key != KeyOf(l, snap)
    ensures Recorded(l, sum, PutIn(history, key, o, fate), snap)
  {
  }

  lemma RecordedStays(l: KeyLayout, sum: Sum, s: State, step: Step, s': State, snap: Snap)
    requires InOrder(l, s, step) && Next(l, sum, s, step, s') && Recorded(l, sum, s.history, snap)
    ensures Recorded(l, sum, s'.history, snap)
  {
    if step.PutObject? {
      LaterKeyDiffers(l, sum, s.history, snap, step.snap);
      RecordedBeside(l, sum, s.history, snap, KeyOf(l, step.snap), Document(step.snap), step.fate);
    } else if step.PutPointer? {
      StorableIsListed(l, snap, sum);
      RecordedBeside(l, sum, s.history, snap, l.LatestKey(), Document(s.writers[step.writer]), step.fate);
    }
  }

  lemma PointerStays(l: KeyLayout, sum: Sum, s: State, step: Step, s': State)
    requires Inv(l, s) && InOrder(l, s, step) && Next(l, sum, s, step, s') && !step.PutPointer?
    requires l.LatestKey() in s'.objects
    ensures l.LatestKey() in s.objects && s.objects[l.LatestKey()] == s'.objects[l.LatestKey()]
  {
    if step.PutObject? {
      StorableIsListed(l, step.snap, sum);
    }
  }

  lemma NewestWriter(l: KeyLayout, sum: Sum, s: State, step: Step, s': State, w: nat)
    requires InOrder(l, s, step) && Next(l, sum, s, step, s') && PointerState(l, sum, s) && w in s'.writers
    ensures Recorded(l, sum, s'.history, s'.writers[w]) && IsNewest(Listed(s'.history, l), SnapRef(l, s'.writers[w]))
  {
    match step {
      case PutObject(_, snap, fate) =>
        ListedAfterPut(s.history, l, snap, sum, fate);
      case PutPointer(v, fate) =>
        RecordedStays(l, sum, s, step, s', s.writers[w]);
        ListedAfterPointer(s.history, l, Document(s.writers[v]), fate);
      case _ =>
    }
  }

  lemma PointerStep(l: KeyLayout, sum: Sum, s: State, step: Step, s': State)
    requires Inv(l, s) && PointerState(l, sum, s) && InOrder(l, s, step) && Next(l, sum, s, step, s')
    ensures PointerState(l, sum, s')
  {
    forall w | w in s'.writers
      ensures Recorded(l, sum, s'.history, s'.writers[w]) && IsNewest(Listed(s'.history, l), SnapRef(l, s'.writers[w]))
    {
      NewestWriter(l, sum, s, step, s', w);
    }
    if l.LatestKey() in s'.objects {
      var snap: Snap;
      if step.PutPointer? && !step.fate.Lost? {
        snap := s.writers[step.writer];
      } else {
        if !step.PutPointer? {
          PointerStays(l, sum, s, step, s');
        }
        snap :| s.objects[l.LatestKey()] == Document(snap) && Recorded(l, sum, s.history, snap);
      }
      RecordedStays(l, sum, s, step, s', snap);
    }
  }

  lemma {:induction false} OrderlyInvariants(l: KeyLayout, sum: Sum, s: State, steps: seq<Step>, s': State)
    requires Inv(l, s) && TidyState(l, s) && PointerState(l, sum, s) && OrderlyRun(l, sum, s, steps, s')
    ensures Inv(l, s') && TidyState(l, s') && PointerState(l, sum, s')
    decreases |steps|
  {
    if steps != [] {
      var step := steps[0];
      var mid :| InOrder(l, s, step) && Next(l, sum, s, step, mid) && OrderlyRun(l, sum, mid, steps[1..], s');
      InvStep(l, sum, s, step, mid);
      TidyStep(l, sum, s, step, mid);
      PointerStep(l, sum, s, step, mid);
      OrderlyInvariants(l, sum, mid, steps[1..], s');
    }
  }

  /** Where an orderly run starts: any bucket whose pointer, if there is one, is a copy of a
      stored snapshot. */
  ghost predicate OrderlyStart(l: KeyLayout, sum: Sum, s: State) {
    && Start(l, s)
    && (l.LatestKey() in s.objects ==>
          exists snap :: s.objects[l.LatestKey()] == Document(snap) && Recorded(l, sum, s.objects, snap))
  }

  lemma TidyAnswers(l: KeyLayout, s: State, part: set<Ref>)
    requires Inv(l, s) && TidyState(l, s) && part <= Listed(s.history, l)
    ensures var left := part * Listed(s.objects, l);
            Newest(left) == Newest(part) || Newest(left) == None
  {
    var left := part * Listed(s.objects, l);
    if Newest(part).Some? {
      var r := Newest(part).value;
      if r in left {
        NewestOfFewer(part, left);
      } else {
        forall x | x in left ensures !Before(x, r) {
        }
        assert forall x :: x in left ==> x == r || Before(x, r);
        assert left == {};
      }
    } else {
      assert left == {};
    }
  }

  lemma TidySelection(l: KeyLayout, sum: Sum, s: State, moment: int)
    requires Inv(l, s) && TidyState(l, s)
    ensures var now, ever := SelectIn(s.objects, l, sum, moment), SelectIn(s.history, l, sum, moment);
            now == ever || now == Err(NoSnapshots) || now == Err(TooEarly)
  {
    var live, all := Listed(s.objects, l), Listed(s.history, l);
    TidyAnswers(l, s, AtOrBefore(all, moment));
    assert AtOrBefore(live, moment) == AtOrBefore(all, moment) * live;
  }

  lemma TidyGeneration(l: KeyLayout, sum: Sum, s: State, generation: int)
    requires Inv(l, s) && TidyState(l, s)
    ensures var now := SelectGenerationIn(s.objects, l, sum, generation);
            var ever := SelectGenerationIn(s.history, l, sum, generation);
            now == ever || now == Err(NoSuchGeneration)
  {
    var live, all := Listed(s.objects, l), Listed(s.history, l);
    TidyAnswers(l, s, AtGeneration(all, generation));
    assert AtGeneration(live, generation) == AtGeneration(all, generation) * live;
  }

  /** However captures and sweeps interleave, a restore to any moment, or of any generation,
      reads what it would read had nothing ever been deleted, or is refused. */
  lemma SameAnswerOrRefusalEverywhere(
    l: KeyLayout, sum: Sum, s: State, steps: seq<Step>, s': State, moment: int, generation: int)
    requires OrderlyStart(l, sum, s) && OrderlyRun(l, sum, s, steps, s')
    ensures var now, ever := SelectIn(s'.objects, l, sum, moment), SelectIn(s'.history, l, sum, moment);
            now == ever || now == Err(NoSnapshots) || now == Err(TooEarly)
    ensures var now := SelectGenerationIn(s'.objects, l, sum, generation);
            var ever := SelectGenerationIn(s'.history, l, sum, generation);
            now == ever || now == Err(NoSuchGeneration)
  {
    OrderlyInvariants(l, sum, s, steps, s');
    TidySelection(l, sum, s', moment);
    TidyGeneration(l, sum, s', generation);
  }

  /** The pointer, with writers that may die between the two Puts: it always holds a verified
      snapshot, and the object it names is present with the same content, unless a newer
      snapshot captured before some sweep's cutoff is. */
  lemma PointerInvariant(l: KeyLayout, sum: Sum, s: State, steps: seq<Step>, s': State)
    requires OrderlyStart(l, sum, s) && OrderlyRun(l, sum, s, steps, s') && l.LatestKey() in s'.objects
    ensures exists snap :: LatestIn(s'.objects, l, sum) == Ok(Found(snap, KeyOf(l, snap)))
                           && (ReadIn(s'.objects, KeyOf(l, snap), sum) == LatestIn(s'.objects, l, sum)
                               || Overtaken(l, s', SnapRef(l, snap)))
  {
    OrderlyInvariants(l, sum, s, steps, s');
    var snap :| s'.objects[l.LatestKey()] == Document(snap) && Recorded(l, sum, s'.history, snap);
    RecordedIsListed(l, sum, s'.history, snap);
    StorableIsListed(l, snap, sum);
    if KeyOf(l, snap) !in s'.objects {
      ListedKeys(s'.objects, l, SnapRef(l, snap));
      assert Overtaken(l, s', SnapRef(l, snap));
    }
  }

  /** A newer snapshot is in the bucket, captured before the latest cutoff. */
  ghost predicate Overtaken(l: KeyLayout, s: State, r: Ref) {
    exists q :: q in Listed(s.objects, l) && Before(r, q) && q.capturedAt < s.horizon
  }

  /** A sweep removes the object a pointer names exactly when a newer one was captured before
      its cutoff; after a complete write there is none. */
  lemma PointerSwept(all: set<Ref>, cutoff: int, pointed: Ref)
    requires pointed in all
    ensures pointed in Superseded(all, cutoff) <==> exists q :: q in all && Before(pointed, q) && q.capturedAt < cutoff
  {
    if q :| q in all && Before(pointed, q) && q.capturedAt < cutoff {
      assert q in Older(all, cutoff);
      var anchor := Anchor(all, cutoff).value;
      if q != anchor {
        BeforeTransitive(pointed, q, anchor);
      }
    }
  }

  lemma WriterIsLive(l: KeyLayout, sum: Sum, s: State, w: nat)
    requires Inv(l, s) && PointerState(l, sum, s) && w in s.writers
    ensures Newest(Listed(s.objects, l)) == Some(SnapRef(l, s.writers[w]))
    ensures ReadIn(s.objects, KeyOf(l, s.writers[w]), sum) == Ok(Found(s.writers[w], KeyOf(l, s.writers[w])))
  {
    var live, all, r := Listed(s.objects, l), Listed(s.history, l), SnapRef(l, s.writers[w]);
    NewestIs(all, r);
    ListedKeys(s.objects, l, r);
    if r !in live {
      BeforeAsymmetric(r, s.anchor.value);
    } else {
      NewestOfFewer(all, live);
    }
  }

  lemma PointerPut(l: KeyLayout, sum: Sum, objects: Objects, snap: Snap, key: string)
    requires Storable(snap, sum) && key == KeyOf(l, snap)
    ensures var after := PutIn(objects, l.LatestKey(), Document(snap), Done);
            && LatestIn(after, l, sum) == Ok(Found(snap, key))
            && ReadIn(after, key, sum) == ReadIn(objects, key, sum)
            && Listed(after, l) == Listed(objects, l)
  {
    StorableIsListed(l, snap, sum);
    ListedAfterPointer(objects, l, Document(snap), Done);
  }

  /** After a complete Write, wherever sweeps stand, the pointer and the listing give Latest the
      same answer: the snapshot just written. */
  lemma PointerAgreesAfterWrite(l: KeyLayout, sum: Sum, s: State, steps: seq<Step>, mid: State, w: nat, s': State)
    requires OrderlyStart(l, sum, s) && OrderlyRun(l, sum, s, steps, mid)
    requires w in mid.writers && Next(l, sum, mid, PutPointer(w, Done), s')
    ensures var snap := mid.writers[w];
            && LatestIn(s'.objects, l, sum) == Ok(Found(snap, KeyOf(l, snap)))
            && Newest(Listed(s'.objects, l)) == Some(SnapRef(l, snap))
            && ReadIn(s'.objects, KeyOf(l, snap), sum) == Ok(Found(snap, KeyOf(l, snap)))
  {
    OrderlyInvariants(l, sum, s, steps, mid);
    WriterIsLive(l, sum, mid, w);
    PointerPut(l, sum, mid.objects, mid.writers[w], KeyOf(l, mid.writers[w]));
  }
}
