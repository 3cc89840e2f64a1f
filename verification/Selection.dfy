/** Choosing a snapshot from a history: internal/restore/select.go. */
module Selection {
  import opened Wrappers
  import opened Layout
  import opened Refs
  import opened Store

  datatype SelectError = NoSnapshots | TooEarly | NoSuchGeneration | Unreadable(error: ReadError)

  function Resolve(read: Result<Found, ReadError>): Result<Found, SelectError> {
    match read
    case Ok(found) => Ok(found)
    case Err(e) => Err(SelectError.Unreadable(e))
  }

  /** What a point-in-time selection answers from a bucket. */
  ghost function SelectIn(objects: Objects, l: KeyLayout, sum: Sum, moment: int): Result<Found, SelectError> {
    match Selected(Listed(objects, l), moment)
    case Some(r) => Resolve(ReadIn(objects, r.key, sum))
    case None => Err(if Listed(objects, l) == {} then NoSnapshots else TooEarly)
  }

  ghost function SelectGenerationIn(objects: Objects, l: KeyLayout, sum: Sum, generation: int)
    : Result<Found, SelectError>
  {
    match SelectedGeneration(Listed(objects, l), generation)
    case Some(r) => Resolve(ReadIn(objects, r.key, sum))
    case None => Err(NoSuchGeneration)
  }

  /** How many references of a listing are not after a moment; the loop of SelectAtOrBefore. */
  method CountAtOrBefore(refs: seq<Ref>, moment: int, ghost all: set<Ref>) returns (n: nat)
    requires ListingOf(refs, all)
    ensures n <= |refs| && Selected(all, moment) == if n == 0 then None else Some(refs[n - 1])
  {
    n := 0;
    while n < |refs|
      invariant 0 <= n <= |refs|
      invariant forall j :: 0 <= j < n ==> refs[j].capturedAt <= moment
    {
      if refs[n].capturedAt > moment {
        break;
      }
      n := n + 1;
    }
    LastInTime(refs, all, moment, n);
  }

  /** The newest snapshot captured at or before a moment. */
  method SelectAtOrBefore(source: SnapshotStore, moment: int) returns (r: Result<Found, SelectError>)
    ensures r == SelectIn(source.backend.objects, source.layout, source.sum, moment)
  {
    var refs := source.List();
    EmptyListing(refs, Listed(source.backend.objects, source.layout));
    if |refs| == 0 {
      return Err(NoSnapshots);
    }
    var n := CountAtOrBefore(refs, moment, Listed(source.backend.objects, source.layout));
    if n == 0 {
      return Err(TooEarly);
    }
    var read := source.Read(refs[n - 1].key);
    r := Resolve(read);
  }

  lemma EmptyListing(refs: seq<Ref>, all: set<Ref>)
    requires ListingOf(refs, all)
    ensures all == {} <==> refs == []
  {
    assert refs != [] ==> refs[0] in refs;
  }

  lemma LastInTime(refs: seq<Ref>, all: set<Ref>, moment: int, i: nat)
    requires ListingOf(refs, all) && i <= |refs|
    requires forall j :: 0 <= j < i ==> refs[j].capturedAt <= moment
    requires i < |refs| ==> refs[i].capturedAt > moment
    ensures Selected(all, moment) == if i == 0 then None else Some(refs[i - 1])
  {
    forall j | i <= j < |refs| ensures refs[j].capturedAt > moment {
      assert i < j ==> Before(refs[i], refs[j]);
    }
    forall r | r in AtOrBefore(all, moment) ensures exists j :: 0 <= j < i && refs[j] == r {
      var j :| 0 <= j < |refs| && refs[j] == r;
    }
    if i == 0 {
      assert AtOrBefore(all, moment) == {};
    } else {
      assert refs[i - 1] in AtOrBefore(all, moment);
      NewestIs(AtOrBefore(all, moment), refs[i - 1]);
    }
  }

  /** The newest snapshot of a generation. */
  method SelectByGeneration(source: SnapshotStore, generation: int) returns (r: Result<Found, SelectError>)
    ensures r == SelectGenerationIn(source.backend.objects, source.layout, source.sum, generation)
  {
    var refs := source.List();
    ghost var all := Listed(source.backend.objects, source.layout);
    var chosen, i := -1, 0;
    while i < |refs|
      invariant -1 <= chosen < i <= |refs|
      invariant chosen >= 0 ==> refs[chosen].generation == generation
      invariant forall j :: chosen < j < i ==> refs[j].generation != generation
    {
      if refs[i].generation == generation {
        chosen := i;
      }
      i := i + 1;
    }
    LastOfGeneration(refs, all, generation, chosen);
    if chosen < 0 {
      return Err(NoSuchGeneration);
    }
    var read := source.Read(refs[chosen].key);
    r := Resolve(read);
  }

  lemma LastOfGeneration(refs: seq<Ref>, all: set<Ref>, generation: int, chosen: int)
    requires ListingOf(refs, all) && -1 <= chosen < |refs|
    requires chosen >= 0 ==> refs[chosen].generation == generation
    requires forall j :: chosen < j < |refs| ==> refs[j].generation != generation
    ensures SelectedGeneration(all, generation) == if chosen < 0 then None else Some(refs[chosen])
  {
    forall r | r in AtGeneration(all, generation) ensures exists j :: 0 <= j <= chosen && refs[j] == r {
      var j :| 0 <= j < |refs| && refs[j] == r;
    }
    if chosen < 0 {
      assert AtGeneration(all, generation) == {};
    } else {
      assert refs[chosen] in AtGeneration(all, generation);
      NewestIs(AtGeneration(all, generation), refs[chosen]);
    }
  }

  /** The newest listed reference that meets a condition. */
  ghost predicate NewestListed(objects: Objects, l: KeyLayout, meets: Ref -> bool, r: Ref) {
    && r in Listed(objects, l) && meets(r)
    && forall x :: x in Listed(objects, l) && meets(x) && x != r ==> Before(x, r)
  }

  /** What reading the object of a reference gives: its document if it is genuine. */
  ghost predicate Reads(objects: Objects, r: Ref, sum: Sum, found: Found) {
    found.key == r.key && r.key in objects && objects[r.key] == Document(found.snap) && Genuine(found.snap, sum)
  }

  /** A choice among the listed references. */
  lemma ChosenIs(objects: Objects, l: KeyLayout, meets: Ref -> bool, chosen: Option<Ref>)
    requires chosen == Newest(set r | r in Listed(objects, l) && meets(r))
    ensures chosen == None <==> forall r :: r in Listed(objects, l) ==> !meets(r)
    ensures forall r :: chosen == Some(r) <==> NewestListed(objects, l, meets, r)
  {
    var some := set r | r in Listed(objects, l) && meets(r);
    assert forall r :: r in some <==> r in Listed(objects, l) && meets(r);
    assert (forall r :: r in Listed(objects, l) ==> !meets(r)) ==> some == {};
    forall r | NewestListed(objects, l, meets, r) ensures chosen == Some(r) {
      NewestIs(some, r);
    }
  }

  /** Reading a listed reference: its document if it is genuine, and refused as corrupt otherwise. */
  lemma ListedReads(objects: Objects, l: KeyLayout, sum: Sum, r: Ref, found: Found)
    requires r in Listed(objects, l)
    ensures var read := Resolve(ReadIn(objects, r.key, sum));
            && (read == Ok(found) <==> Reads(objects, r, sum, found))
            && (read.Err? ==> read.error == SelectError.Unreadable(Corrupt))
  {
    ListedKeys(objects, l, r);
  }

  /** What a generation selects: refused as unknown exactly when nothing listed is of it; otherwise the
      newest listed snapshot of it is read, if its document is genuine. */
  lemma GenerationAnswers(objects: Objects, l: KeyLayout, sum: Sum, generation: int, found: Found)
    ensures var answer := SelectGenerationIn(objects, l, sum, generation);
            var meets := (r: Ref) => r.generation == generation;
            && (answer == Err(NoSuchGeneration) <==> forall r :: r in Listed(objects, l) ==> r.generation != generation)
            && (answer == Ok(found) <==>
                  exists r :: NewestListed(objects, l, meets, r) && Reads(objects, r, sum, found))
            && (answer.Err? ==> answer.error == NoSuchGeneration || answer.error == SelectError.Unreadable(Corrupt))
  {
    var meets := (r: Ref) => r.generation == generation;
    assert AtGeneration(Listed(objects, l), generation) == set r | r in Listed(objects, l) && meets(r);
    var chosen := SelectedGeneration(Listed(objects, l), generation);
    ChosenIs(objects, l, meets, chosen);
    if chosen.Some? {
      ListedReads(objects, l, sum, chosen.value, found);
    }
  }

  /** What a moment selects, and the two ways it may be too early. */
  lemma MomentAnswers(objects: Objects, l: KeyLayout, sum: Sum, moment: int, found: Found)
    ensures var answer := SelectIn(objects, l, sum, moment);
            var meets := (r: Ref) => r.capturedAt <= moment;
            && (answer == Err(NoSnapshots) <==> Listed(objects, l) == {})
            && (answer == Err(TooEarly) <==>
                  Listed(objects, l) != {} && forall r :: r in Listed(objects, l) ==> r.capturedAt > moment)
            && (answer == Ok(found) <==>
                  exists r :: NewestListed(objects, l, meets, r) && Reads(objects, r, sum, found))
            && (answer.Err? ==> answer.error in {NoSnapshots, TooEarly, SelectError.Unreadable(Corrupt)})
  {
    var meets := (r: Ref) => r.capturedAt <= moment;
    assert AtOrBefore(Listed(objects, l), moment) == set r | r in Listed(objects, l) && meets(r);
    var chosen := Selected(Listed(objects, l), moment);
    ChosenIs(objects, l, meets, chosen);
    if chosen.Some? {
      ListedReads(objects, l, sum, chosen.value, found);
    }
  }
}
