/** Snapshot references and their total order: sortRefs of internal/store/snapshots.go. */
module Refs {
  import opened Wrappers
  import opened Order
  import opened Layout

  /** A snapshot's identity as its key alone gives it; the time is a whole second. */
  datatype Ref = Ref(key: string, capturedAt: nat, generation: nat)

  /** The comparison of sortRefs: time, then generation, then key. */
  predicate Before(a: Ref, b: Ref) {
    if a.capturedAt != b.capturedAt then a.capturedAt < b.capturedAt
    else if a.generation != b.generation then a.generation < b.generation
    else Less(a.key, b.key)
  }

  lemma BeforeTotal(a: Ref, b: Ref)
    ensures a == b || Before(a, b) || Before(b, a)
  {
    LessTotal(a.key, b.key);
  }

  lemma BeforeAsymmetric(a: Ref, b: Ref)
    requires Before(a, b)
    ensures !Before(b, a) && a != b
  {
    LessIrreflexive(a.key);
    if Less(a.key, b.key) && Less(b.key, a.key) {
      LessTransitive(a.key, b.key, a.key);
    }
  }

  lemma BeforeTransitive(a: Ref, b: Ref, c: Ref)
    requires Before(a, b) && Before(b, c)
    ensures Before(a, c)
  {
    if Less(a.key, b.key) && Less(b.key, c.key) {
      LessTransitive(a.key, b.key, c.key);
    }
  }

  lemma BeforeIsWeakOrder()
    ensures WeakOrder((a: Ref, b: Ref) => Before(a, b))
  {
    forall a: Ref, b: Ref | Before(a, b) ensures !Before(b, a) {
      BeforeAsymmetric(a, b);
    }
    forall a: Ref, b: Ref, c: Ref | !Before(a, b) && !Before(b, c) ensures !Before(a, c) {
      BeforeTotal(a, b);
      BeforeTotal(b, c);
      if Before(a, c) && a != b && b != c {
        BeforeTransitive(c, b, a);
        BeforeAsymmetric(a, c);
      }
    }
  }

  ghost predicate IsNewest(refs: set<Ref>, r: Ref) {
    r in refs && forall x :: x in refs ==> x == r || Before(x, r)
  }

  lemma {:induction false} NewestExists(refs: set<Ref>)
    requires refs != {}
    ensures exists r :: IsNewest(refs, r)
    decreases |refs|
  {
    var x :| x in refs;
    var rest := refs - {x};
    if rest == {} {
      assert refs == {x};
      assert IsNewest(refs, x);
    } else {
      NewestExists(rest);
      var r :| IsNewest(rest, r);
      BeforeTotal(x, r);
      if Before(x, r) {
        assert IsNewest(refs, r);
      } else {
        forall y | y in refs ensures y == x || Before(y, x) {
          if y != x && y != r {
            BeforeTransitive(y, r, x);
          }
        }
        assert IsNewest(refs, x);
      }
    }
  }

  /** The newest of a set of references, if it has any. */
  ghost function Newest(refs: set<Ref>): (answer: Option<Ref>)
    ensures answer.None? <==> refs == {}
    ensures answer.Some? ==> IsNewest(refs, answer.value)
  {
    if refs == {} then None
    else
      NewestExists(refs);
      var r :| IsNewest(refs, r);
      Some(r)
  }

  lemma NewestIs(refs: set<Ref>, r: Ref)
    requires IsNewest(refs, r)
    ensures Newest(refs) == Some(r)
  {
    var s := Newest(refs).value;
    if s != r {
      BeforeAsymmetric(s, r);
    }
  }

  /** Removing references does not change the newest, unless it was removed. */
  lemma NewestOfFewer(refs: set<Ref>, fewer: set<Ref>)
    requires fewer <= refs && Newest(refs).Some? && Newest(refs).value in fewer
    ensures Newest(fewer) == Newest(refs)
  {
    NewestIs(fewer, Newest(refs).value);
  }

  function AtOrBefore(refs: set<Ref>, moment: int): set<Ref> {
    set r | r in refs && r.capturedAt <= moment
  }

  function AtGeneration(refs: set<Ref>, generation: int): set<Ref> {
    set r | r in refs && r.generation == generation
  }

  /** The snapshot in force at a moment, and the one a generation names. */
  ghost function Selected(refs: set<Ref>, moment: int): Option<Ref> {
    Newest(AtOrBefore(refs, moment))
  }

  ghost function SelectedGeneration(refs: set<Ref>, generation: int): Option<Ref> {
    Newest(AtGeneration(refs, generation))
  }

  /** Keys in string order are captures in time order. */
  ghost predicate Chronological(refs: set<Ref>) {
    forall a, b :: a in refs && b in refs ==> (Less(a.key, b.key) <==> Before(a, b))
  }

  /** A reference some key directly beneath the layout's prefix parses to. */
  ghost predicate Named(l: KeyLayout, r: Ref) {
    exists name :: r.key == l.SnapshotsPrefix() + name && ParseName(name) == Some(KeyParts(r.capturedAt, r.generation))
  }

  /** Whatever lies directly beneath the prefix is in chronological order. */
  lemma NamedIsChronological(l: KeyLayout, refs: set<Ref>)
    requires forall r :: r in refs ==> Named(l, r)
    ensures Chronological(refs)
  {
    forall a, b | a in refs && b in refs ensures Less(a.key, b.key) <==> Before(a, b) {
      var na :| a.key == l.SnapshotsPrefix() + na && ParseName(na) == Some(KeyParts(a.capturedAt, a.generation));
      var nb :| b.key == l.SnapshotsPrefix() + nb && ParseName(nb) == Some(KeyParts(b.capturedAt, b.generation));
      KeyOrder(l, na, nb);
      if a.capturedAt == b.capturedAt && a.generation == b.generation {
        assert Less(a.key, b.key) <==> Before(a, b);
      }
    }
  }

  ghost predicate Ordered(refs: seq<Ref>) {
    forall i, j :: 0 <= i < j < |refs| ==> Before(refs[i], refs[j])
  }

  /** A listing: every reference once, oldest first. */
  ghost predicate ListingOf(refs: seq<Ref>, all: set<Ref>) {
    Ordered(refs) && forall r :: r in refs <==> r in all
  }
}
