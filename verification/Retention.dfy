/** Which snapshots a retention window supersedes: internal/store/retention.go. */
module Retention {
  import opened Wrappers
  import opened Order
  import opened Layout
  import opened Refs
  import Decimal

  function ByKey(): (Ref, Ref) -> bool {
    (a: Ref, b: Ref) => Less(a.key, b.key)
  }

  /** How many references at the front were captured before the cutoff. */
  function Leading(ordered: seq<Ref>, cutoff: int): (n: nat)
    ensures n <= |ordered|
  {
    if ordered == [] || ordered[0].capturedAt >= cutoff then 0 else 1 + Leading(ordered[1..], cutoff)
  }

  function Keys(refs: seq<Ref>): (keys: seq<string>)
    ensures |keys| == |refs| && forall i :: 0 <= i < |refs| ==> keys[i] == refs[i].key
  {
    seq(|refs|, i requires 0 <= i < |refs| => refs[i].key)
  }

  /** Everything before the last of the leading references, which is the anchor. */
  function Plan(ordered: seq<Ref>, cutoff: int): seq<string> {
    if Leading(ordered, cutoff) < 2 then [] else Keys(ordered[..Leading(ordered, cutoff) - 1])
  }

  /** A plan for these references: they are put in key order first. */
  ghost predicate IsPlan(refs: seq<Ref>, cutoff: int, keys: seq<string>) {
    exists ordered :: multiset(ordered) == multiset(refs) && SortedBy(ByKey(), ordered) && keys == Plan(ordered, cutoff)
  }

  lemma {:induction false} LeadingStops(ordered: seq<Ref>, cutoff: int, n: nat)
    requires n <= |ordered| && forall i :: 0 <= i < n ==> ordered[i].capturedAt < cutoff
    requires n < |ordered| ==> ordered[n].capturedAt >= cutoff
    ensures Leading(ordered, cutoff) == n
  {
    if n > 0 {
      LeadingStops(ordered[1..], cutoff, n - 1);
    }
  }

  lemma {:induction false} LeadingMeans(ordered: seq<Ref>, cutoff: int)
    ensures var n := Leading(ordered, cutoff);
            && (forall i :: 0 <= i < n ==> ordered[i].capturedAt < cutoff)
            && (n < |ordered| ==> ordered[n].capturedAt >= cutoff)
  {
    if ordered != [] && ordered[0].capturedAt < cutoff {
      LeadingMeans(ordered[1..], cutoff);
    }
  }

  lemma ByKeyIsWeakOrder()
    ensures WeakOrder(ByKey())
  {
    LessIsWeakOrder();
    var less := (a: string, b: string) => Less(a, b);
    forall a: Ref, b: Ref | Less(a.key, b.key) ensures !Less(b.key, a.key) {
      assert less(a.key, b.key);
    }
    forall a: Ref, b: Ref, c: Ref | !Less(a.key, b.key) && !Less(b.key, c.key) ensures !Less(a.key, c.key) {
      assert !less(a.key, b.key) && !less(b.key, c.key);
    }
  }

  method PlanRetention(refs: seq<Ref>, cutoff: int) returns (superseded: seq<string>)
    ensures IsPlan(refs, cutoff, superseded)
  {
    ByKeyIsWeakOrder();
    var ordered := SortSlice(refs, ByKey());
    if |refs| < 2 {
      assert |multiset(ordered)| == |multiset(refs)|;
      return [];
    }
    var anchor, i := -1, 0;
    while i < |ordered|
      invariant 0 <= i <= |ordered| && anchor == i - 1
      invariant forall j :: 0 <= j < i ==> ordered[j].capturedAt < cutoff
    {
      if ordered[i].capturedAt >= cutoff {
        break;
      }
      anchor := i;
      i := i + 1;
    }
    LeadingStops(ordered, cutoff, i);
    if anchor < 1 {
      return [];
    }
    superseded := [];
    i := 0;
    while i < anchor
      invariant 0 <= i <= anchor
      invariant superseded == Keys(ordered[..i])
    {
      superseded := superseded + [ordered[i].key];
      i := i + 1;
    }
  }

  function Older(refs: set<Ref>, cutoff: int): set<Ref> {
    set r | r in refs && r.capturedAt < cutoff
  }

  /** The snapshot in force when the window opens. */
  ghost function Anchor(refs: set<Ref>, cutoff: int): Option<Ref> {
    Newest(Older(refs, cutoff))
  }

  ghost function SupersededBy(refs: set<Ref>, anchor: Option<Ref>): set<Ref> {
    set r | r in refs && anchor.Some? && Before(r, anchor.value)
  }

  ghost function Superseded(refs: set<Ref>, cutoff: int): set<Ref> {
    SupersededBy(refs, Anchor(refs, cutoff))
  }

  /** In a chronological history the sorted copy is the listing itself. */
  lemma SortedListing(refs: seq<Ref>, all: set<Ref>, ordered: seq<Ref>)
    requires ListingOf(refs, all) && Chronological(all)
    requires multiset(ordered) == multiset(refs) && SortedBy(ByKey(), ordered)
    ensures ordered == refs
  {
    forall x | x in ordered || x in refs ensures x in all {
      assert x in multiset(ordered) || x in multiset(refs);
      assert x in refs;
    }
    forall i, j | 0 <= i < j < |refs| ensures !ByKey()(refs[j], refs[i]) {
      assert refs[i] in all && refs[j] in all;
      BeforeAsymmetric(refs[i], refs[j]);
    }
    forall x, y | x in ordered && y in ordered && !ByKey()(x, y) && !ByKey()(y, x) ensures x == y {
      BeforeTotal(x, y);
    }
    SortedUnique(ByKey(), ordered, refs);
  }

  /** In a listing, the leading references are all the older ones, and the anchor is the last. */
  lemma LeadingIsOlder(refs: seq<Ref>, all: set<Ref>, cutoff: int)
    requires ListingOf(refs, all)
    ensures var n := Leading(refs, cutoff);
            Anchor(all, cutoff) == if n == 0 then None else Some(refs[n - 1])
  {
    var n := Leading(refs, cutoff);
    LeadingMeans(refs, cutoff);
    forall i | n <= i < |refs| ensures refs[i].capturedAt >= cutoff {
      if i > n {
        assert Before(refs[n], refs[i]);
      }
    }
    forall r | r in Older(all, cutoff) ensures exists i :: 0 <= i < n && refs[i] == r {
      var i :| 0 <= i < |refs| && refs[i] == r;
    }
    if n == 0 {
      assert Older(all, cutoff) == {};
    } else {
      assert refs[n - 1] in Older(all, cutoff);
      NewestIs(Older(all, cutoff), refs[n - 1]);
    }
  }

  lemma SupersededIsPrefix(refs: seq<Ref>, all: set<Ref>, cutoff: int, n: nat, r: Ref)
    requires ListingOf(refs, all) && n < |refs|
    requires Anchor(all, cutoff) == Some(refs[n])
    ensures r in Superseded(all, cutoff) <==> r in refs[..n]
  {
    if r in all {
      var i :| 0 <= i < |refs| && refs[i] == r;
      if i < n {
        assert refs[..n][i] == r;
      } else {
        NotBefore(refs, n, i);
        NotEarlier(refs, n, i);
      }
    }
  }

  /** What a plan deletes, in which order: exactly the captures the anchor supersedes, oldest
      first. */
  lemma PlanMeaning(refs: seq<Ref>, all: set<Ref>, cutoff: int, keys: seq<string>)
    requires ListingOf(refs, all) && Chronological(all) && IsPlan(refs, cutoff, keys)
    ensures |keys| <= |refs| && keys == Keys(refs[..|keys|])
    ensures forall r :: r in Superseded(all, cutoff) <==> r in refs[..|keys|]
  {
    var ordered :| multiset(ordered) == multiset(refs) && SortedBy(ByKey(), ordered) && keys == Plan(ordered, cutoff);
    SortedListing(refs, all, ordered);
    LeadingIsOlder(refs, all, cutoff);
    var n := Leading(refs, cutoff);
    if n == 0 {
      assert refs[..0] == [];
    } else {
      forall r ensures r in Superseded(all, cutoff) <==> r in refs[..n - 1] {
        SupersededIsPrefix(refs, all, cutoff, n - 1, r);
      }
    }
  }

  lemma NotBefore(refs: seq<Ref>, i: nat, j: nat)
    requires Ordered(refs) && i <= j < |refs|
    ensures !Before(refs[j], refs[i])
  {
    if i < j {
      BeforeAsymmetric(refs[i], refs[j]);
    } else {
      LessIrreflexive(refs[i].key);
    }
  }

  lemma NotEarlier(refs: seq<Ref>, n: nat, i: nat)
    requires Ordered(refs) && n <= i < |refs|
    ensures refs[i] !in refs[..n]
  {
    if refs[i] in refs[..n] {
      var j :| 0 <= j < n && refs[..n][j] == refs[i];
      BeforeAsymmetric(refs[j], refs[i]);
    }
  }

  /** What a sweep leaves when it stops after n deletions. */
  function Kept(all: set<Ref>, keys: seq<string>, n: nat): set<Ref>
    requires n <= |keys|
  {
    set r | r in all && r.key !in keys[..n]
  }

  lemma KeptIsSuffix(refs: seq<Ref>, all: set<Ref>, keys: seq<string>, n: nat, r: Ref)
    requires ListingOf(refs, all) && Chronological(all) && n <= |keys| <= |refs| && keys == Keys(refs[..|keys|])
    ensures r in Kept(all, keys, n) <==> r in refs[n..]
  {
    if r in all {
      var i :| 0 <= i < |refs| && refs[i] == r;
      if i < n {
        assert keys[..n][i] == r.key;
        if r in refs[n..] {
          var j :| 0 <= j < |refs[n..]| && refs[n..][j] == r;
          BeforeAsymmetric(refs[i], refs[n + j]);
        }
      } else {
        assert refs[n..][i - n] == r;
        if r.key in keys[..n] {
          var j :| 0 <= j < n && keys[..n][j] == r.key;
          assert refs[j] in all && Before(refs[j], r);
          LessIrreflexive(r.key);
        }
      }
    }
  }

  /** Dropping the oldest n of a history never changes the answer to a question about a part
      of it: the answer stays, or there is none any more. */
  lemma SuffixAnswers(refs: seq<Ref>, n: nat, part: set<Ref>, kept: set<Ref>)
    requires Ordered(refs) && n <= |refs| && forall r :: r in part ==> r in refs
    requires forall r :: r in kept <==> r in part && r in refs[n..]
    ensures Newest(kept) == Newest(part) || Newest(kept) == None
    ensures Newest(part).Some? ==> (Newest(kept) == None <==> Newest(part).value in refs[..n])
  {
    if Newest(part).Some? {
      var r := Newest(part).value;
      var i :| 0 <= i < |refs| && refs[i] == r;
      if i >= n {
        assert refs[n..][i - n] == r;
        NewestOfFewer(part, kept);
        NotEarlier(refs, n, i);
      } else {
        assert refs[..n][i] == r;
        forall x | x in kept ensures false {
          var j :| 0 <= j < |refs[n..]| && refs[n..][j] == x;
          NotBefore(refs, i, n + j);
          BeforeAsymmetric(refs[i], refs[n + j]);
        }
        assert kept == {};
      }
    } else {
      assert kept == {};
    }
  }

  lemma KeptIsSuffixOfPlan(refs: seq<Ref>, all: set<Ref>, cutoff: int, keys: seq<string>, n: nat)
    requires ListingOf(refs, all) && Chronological(all) && IsPlan(refs, cutoff, keys) && n <= |keys|
    ensures |keys| <= |refs| && forall r :: r in Kept(all, keys, n) <==> r in all && r in refs[n..]
    ensures forall r :: r in Superseded(all, cutoff) <==> r in refs[..|keys|]
  {
    PlanMeaning(refs, all, cutoff, keys);
    forall r ensures r in Kept(all, keys, n) <==> r in all && r in refs[n..] {
      KeptIsSuffix(refs, all, keys, n, r);
    }
  }

  /** The retention guarantee: for every cutoff and however early the sweep stops, a moment
      selects afterwards what it selected before or nothing at all; it is unchanged for every
      moment since the anchor, among them all since the cutoff; and for earlier moments a sweep
      that finishes leaves nothing. */
  lemma SameAnswerOrRefusal(refs: seq<Ref>, all: set<Ref>, cutoff: int, keys: seq<string>, n: nat, moment: int)
    requires ListingOf(refs, all) && Chronological(all) && IsPlan(refs, cutoff, keys) && n <= |keys|
    ensures var kept, anchor := Kept(all, keys, n), Anchor(all, cutoff);
            && (Selected(kept, moment) == Selected(all, moment) || Selected(kept, moment) == None)
            && (moment >= cutoff || (anchor.Some? && anchor.value.capturedAt <= moment) ==>
                  Selected(kept, moment) == Selected(all, moment))
            && (n == |keys| && anchor.Some? && moment < anchor.value.capturedAt ==> Selected(kept, moment) == None)
  {
    KeptIsSuffixOfPlan(refs, all, cutoff, keys, n);
    SuffixAnswers(refs, n, AtOrBefore(all, moment), AtOrBefore(Kept(all, keys, n), moment));
    DeletedIsOld(refs, all, cutoff, keys, n, moment);
  }

  /** The same for a generation. */
  lemma SameGenerationOrRefusal(refs: seq<Ref>, all: set<Ref>, cutoff: int, keys: seq<string>, n: nat, generation: int)
    requires ListingOf(refs, all) && Chronological(all) && IsPlan(refs, cutoff, keys) && n <= |keys|
    ensures var after := SelectedGeneration(Kept(all, keys, n), generation);
            var before := SelectedGeneration(all, generation);
            after == before || after == None
  {
    KeptIsSuffixOfPlan(refs, all, cutoff, keys, n);
    SuffixAnswers(refs, n, AtGeneration(all, generation), AtGeneration(Kept(all, keys, n), generation));
  }

  lemma DeletedIsOld(refs: seq<Ref>, all: set<Ref>, cutoff: int, keys: seq<string>, n: nat, moment: int)
    requires n <= |keys| <= |refs| && forall r :: r in Superseded(all, cutoff) <==> r in refs[..|keys|]
    ensures var answer, anchor := Selected(all, moment), Anchor(all, cutoff);
            && (answer.Some? && (moment >= cutoff || (anchor.Some? && anchor.value.capturedAt <= moment)) ==>
                  answer.value !in refs[..n])
            && (answer.Some? && n == |keys| && anchor.Some? && moment < anchor.value.capturedAt ==>
                  answer.value in refs[..n])
  {
    if Selected(all, moment).Some? {
      var r, anchor := Selected(all, moment).value, Anchor(all, cutoff);
      assert r in refs[..n] ==> r in refs[..|keys|];
      if r in Superseded(all, cutoff) {
        BeforeAsymmetric(r, anchor.value);
        assert anchor.value.capturedAt <= moment <==> anchor.value in AtOrBefore(all, moment);
      } else if anchor.Some? && moment < anchor.value.capturedAt {
        assert Before(r, anchor.value);
      }
    }
  }

  /** A sweep that finishes, over the history as a set. */
  ghost function Swept(all: set<Ref>, cutoff: int): set<Ref> {
    all - Superseded(all, cutoff)
  }

  /** Later sweeps subsume earlier ones, finished or not. */
  lemma SweepsCompose(all: set<Ref>, first: int, second: int, removed: set<Ref>)
    requires first <= second && removed <= Superseded(all, first)
    ensures Swept(all - removed, second) == Swept(all, second)
  {
    var left := all - removed;
    var a, b := Anchor(all, first), Anchor(all, second);
    if a.Some? {
      assert a.value in Older(all, second);
      assert b.value == a.value || Before(a.value, b.value);
      if b.value in removed {
        BeforeAsymmetric(b.value, a.value);
      }
      NewestOfFewer(Older(all, second), Older(left, second));
      forall r | r in removed ensures r in Superseded(all, second) {
        if a.value != b.value {
          BeforeTransitive(r, a.value, b.value);
        }
      }
    } else {
      assert left == all;
    }
  }

  /** One key, one reference. */
  ghost predicate KeysDistinct(refs: set<Ref>) {
    forall a, b :: a in refs && b in refs && a.key == b.key ==> a == b
  }

  /** Whatever the order of the keys, a plan names references older than the cutoff only. */
  lemma PlannedIsOlder(refs: seq<Ref>, all: set<Ref>, cutoff: int, keys: seq<string>, r: Ref)
    requires ListingOf(refs, all) && KeysDistinct(all) && IsPlan(refs, cutoff, keys)
    requires r in all && r.key in keys
    ensures r.capturedAt < cutoff
  {
    var ordered :| multiset(ordered) == multiset(refs) && SortedBy(ByKey(), ordered) && keys == Plan(ordered, cutoff);
    var i :| 0 <= i < |keys| && keys[i] == r.key;
    LeadingMeans(ordered, cutoff);
    assert ordered[i] in multiset(ordered);
    assert ordered[i] in refs;
  }

  /** The answer for a moment since the cutoff survives a sweep, unless it is the anchor and the
      sweep deleted that. */
  lemma AnswerKept(refs: seq<Ref>, all: set<Ref>, cutoff: int, keys: seq<string>, n: nat, moment: int)
    requires ListingOf(refs, all) && KeysDistinct(all) && IsPlan(refs, cutoff, keys) && n <= |keys| && moment >= cutoff
    requires KeepsAnchor(all, cutoff, keys[..n])
    ensures Selected(Kept(all, keys, n), moment) == Selected(all, moment)
  {
    var part, left := AtOrBefore(all, moment), AtOrBefore(Kept(all, keys, n), moment);
    if Selected(all, moment).None? {
      assert left == {};
    } else {
      var answer := Selected(all, moment).value;
      if answer.capturedAt >= cutoff {
        if answer.key in keys {
          PlannedIsOlder(refs, all, cutoff, keys, answer);
        }
      } else {
        NewestIs(Older(all, cutoff), answer);
        forall r | r in all ensures r.capturedAt != cutoff {
          assert r.capturedAt == cutoff ==> r in part;
        }
      }
      NewestOfFewer(part, left);
    }
  }

  /** No snapshot before the cutoff, or the last of them is not deleted, or one was captured at
      the very cutoff and answers in its place. */
  ghost predicate KeepsAnchor(all: set<Ref>, cutoff: int, deleted: seq<string>) {
    || Anchor(all, cutoff).None?
    || Anchor(all, cutoff).value.key !in deleted
    || exists r :: r in all && r.capturedAt == cutoff
  }

  /** The retention guarantee in any history, whatever the order of its keys: all answers since
      the cutoff survive a sweep if and only if it keeps the anchor. Listing and plan show
      that before the first key is deleted. */
  lemma WindowSurvivesIff(refs: seq<Ref>, all: set<Ref>, cutoff: int, keys: seq<string>, n: nat)
    requires ListingOf(refs, all) && KeysDistinct(all) && IsPlan(refs, cutoff, keys) && n <= |keys|
    ensures (forall moment :: moment >= cutoff ==> Selected(Kept(all, keys, n), moment) == Selected(all, moment))
            <==> KeepsAnchor(all, cutoff, keys[..n])
  {
    if KeepsAnchor(all, cutoff, keys[..n]) {
      forall moment | moment >= cutoff ensures Selected(Kept(all, keys, n), moment) == Selected(all, moment) {
        AnswerKept(refs, all, cutoff, keys, n, moment);
      }
    } else {
      assert AtOrBefore(all, cutoff) == Older(all, cutoff);
      assert Selected(Kept(all, keys, n), cutoff) != Selected(all, cutoff);
    }
  }

  /** A later reference was captured no later: within one second, it is d that is passed over. */
  ghost predicate Overtaken(all: set<Ref>, d: Ref) {
    exists x :: x in all && x.capturedAt <= d.capturedAt && Before(d, x)
  }

  /** What was deleted, if it ever was the answer, is older than all that was kept. */
  ghost predicate DeletesOldest(all: set<Ref>, kept: set<Ref>) {
    forall k, d :: k in kept && d in all && d !in kept && k.capturedAt <= d.capturedAt ==> Overtaken(all, d)
  }

  /** The guarantee at every moment and for any deletion: each moment keeps its answer or is
      refused, never answered with another snapshot, if and only if only the oldest went. */
  lemma SameAnswerOrRefusalIff(all: set<Ref>, kept: set<Ref>)
    requires kept <= all
    ensures (forall moment :: Selected(kept, moment) == Selected(all, moment) || Selected(kept, moment) == None)
            <==> DeletesOldest(all, kept)
  {
    if DeletesOldest(all, kept) {
      forall moment ensures Selected(kept, moment) == Selected(all, moment) || Selected(kept, moment) == None {
        OldestGone(all, kept, moment);
      }
    } else {
      var k, d :| k in kept && d in all && d !in kept && k.capturedAt <= d.capturedAt && !Overtaken(all, d);
      OtherAnswer(all, kept, k, d);
    }
  }

  lemma OldestGone(all: set<Ref>, kept: set<Ref>, moment: int)
    requires kept <= all && DeletesOldest(all, kept)
    ensures Selected(kept, moment) == Selected(all, moment) || Selected(kept, moment) == None
  {
    var part, left := AtOrBefore(all, moment), AtOrBefore(kept, moment);
    if Newest(left).Some? {
      var k, answer := Newest(left).value, Newest(part).value;
      assert k in part;
      if answer in kept {
        NewestOfFewer(part, left);
      } else {
        assert Overtaken(all, answer);
        var x :| x in all && x.capturedAt <= answer.capturedAt && Before(answer, x);
        assert x in part;
        BeforeAsymmetric(answer, x);
      }
    }
  }

  lemma OtherAnswer(all: set<Ref>, kept: set<Ref>, k: Ref, d: Ref)
    requires kept <= all && k in kept && d in all && d !in kept && k.capturedAt <= d.capturedAt && !Overtaken(all, d)
    ensures Selected(kept, d.capturedAt) != Selected(all, d.capturedAt) && Selected(kept, d.capturedAt) != None
  {
    var part := AtOrBefore(all, d.capturedAt);
    forall x | x in part && x != d ensures Before(x, d) {
      BeforeTotal(x, d);
    }
    NewestIs(part, d);
    assert k in AtOrBefore(kept, d.capturedAt);
  }

  lemma ThreeSorted<T(!new)>(less: (T, T) -> bool, a: T, b: T, c: T)
    requires WeakOrder(less) && less(a, b) && less(b, c) && less(a, c)
    ensures SortedBy(less, [a, b, c])
    ensures multiset([a, b, c]) == multiset([c, a, b])
  {
    assert [c, a, b] == [c] + [a, b] && [a, b, c] == [a, b] + [c];
  }

  /** A plan over references whose keys do not follow their times: c sorts last and is oldest. */
  lemma NestedPlan(a: Ref, b: Ref, c: Ref, cutoff: int)
    requires ByKey()(a, b) && ByKey()(b, c) && ByKey()(a, c)
    requires c.capturedAt < a.capturedAt < b.capturedAt < cutoff
    ensures IsPlan([c, a, b], cutoff, [a.key, b.key])
  {
    var ordered := [a, b, c];
    ByKeyIsWeakOrder();
    ThreeSorted(ByKey(), a, b, c);
    LeadingStops(ordered, cutoff, 3);
    assert ordered[..2] == [a, b];
    assert Plan(ordered, cutoff) == [a.key, b.key];
  }

  lemma NestedAnswers(a: Ref, b: Ref, c: Ref, cutoff: int)
    requires Less(a.key, b.key) && Less(b.key, c.key) && Less(a.key, c.key)
    requires c.capturedAt < a.capturedAt < b.capturedAt < cutoff
    ensures ListingOf([c, a, b], {a, b, c}) && Selected({a, b, c}, cutoff) == Some(b)
    ensures Selected(Kept({a, b, c}, [a.key, b.key], 2), cutoff) == Some(c)
  {
    var keys := [a.key, b.key];
    NewestIs(AtOrBefore({a, b, c}, cutoff), b);
    LessIrreflexive(c.key);
    assert keys[..2] == keys && c.key !in keys;
    assert Kept({a, b, c}, keys, 2) == {c};
    NewestIs(AtOrBefore({c}, cutoff), c);
  }

  lemma NameStartsWithDigit(name: string)
    requires SnapshotShaped(name)
    ensures name != "" && '0' <= name[0] <= '9'
  {
    var stamp := name[..16];
    assert stamp[..8][0] == name[0];
  }

  lemma FolderSorts(dir: string, na: string, nb: string, rest: string)
    requires Less(na, nb) && nb != "" && rest != "" && nb[0] < rest[0]
    ensures Less(dir + na, dir + nb) && Less(dir + nb, dir + rest) && Less(dir + na, dir + rest)
  {
    LessTransitive(na, nb, rest);
    LessSamePrefix(dir, na, nb);
    LessSamePrefix(dir, nb, rest);
    LessSamePrefix(dir, na, rest);
  }

  lemma NestedParses(dir: string, folder: string, name: string)
    requires ParseName(name).Some?
    ensures ParseSnapshotKey(dir + folder + "/" + name) == ParseName(name)
  {
    ShapedIsSlashFree(name);
    BaseBeneath(dir + folder, name);
  }

  ghost predicate Parsed(name: string, r: Ref) {
    ParseName(name) == Some(KeyParts(r.capturedAt, r.generation))
  }

  /** A snapshot copied into a folder beneath the prefix is still listed, but its key sorts by
      the folder's name. If it is older than two proper ones, a plan takes the older copy for
      the anchor and deletes the snapshot in force: what the window should keep is lost. */
  lemma NestedCopyLosesTheAnchor(
    dir: string, folder: string, na: string, nb: string, nc: string, a: Ref, b: Ref, c: Ref, cutoff: int)
    requires Parsed(na, a) && Parsed(nb, b) && Parsed(nc, c)
    requires a.key == dir + na && b.key == dir + nb && c.key == dir + (folder + "/" + nc)
    requires folder != "" && '9' < folder[0] && c.capturedAt < a.capturedAt < b.capturedAt < cutoff
    ensures ParseSnapshotKey(dir + folder + "/" + nc) == ParseName(nc)
    ensures ListingOf([c, a, b], {a, b, c}) && IsPlan([c, a, b], cutoff, [a.key, b.key])
    ensures Selected({a, b, c}, cutoff) == Some(b)
    ensures Selected(Kept({a, b, c}, [a.key, b.key], 2), cutoff) == Some(c)
  {
    NestedParses(dir, folder, nc);
    NameOrder(na, nb);
    NameStartsWithDigit(nb);
    FolderSorts(dir, na, nb, folder + "/" + nc);
    NestedPlan(a, b, c, cutoff);
    NestedAnswers(a, b, c, cutoff);
  }
}
