/** Snapshot objects of one cluster in a bucket: internal/store/snapshots.go, over the backend
    contract of internal/store/backend.go. */
module Store {
  import opened Wrappers
  import opened Order
  import opened Text
  import opened Snapshot
  import opened Fingerprints
  import opened Layout
  import opened Refs

  const KIND := "ClusterMetadataSnapshot"
  const API_VERSION := "chronicle.sharifmshaker.github.io/v1"

  /** A snapshot document. */
  datatype Snap = Snap(
    apiVersion: string,
    kind: string,
    capturedAt: nat,
    generation: nat,
    groups: seq<string>,
    captureRules: CaptureRules,
    content: Content,
    checksum: string)

  /** What a bucket holds under a key; anyone may write to it. */
  datatype Object = Document(snap: Snap) | Unreadable

  type Objects = map<string, Object>

  /** The checksum of a content. */
  type Sum = Content -> string

  /** How a write to the backend ends: done, failed without effect, or reported as failed
      after it took effect. */
  datatype Fate = Done | Lost | Landed

  function PutIn(objects: Objects, key: string, o: Object, fate: Fate): Objects {
    if fate.Lost? then objects else objects[key := o]
  }

  function DeleteIn(objects: Objects, key: string, fate: Fate): Objects {
    if fate.Lost? then objects else objects - {key}
  }

  /** decodeSnapshot: the kind, the version and the checksum must be right. */
  function Decode(o: Object, sum: Sum): Option<Snap> {
    match o
    case Unreadable => None
    case Document(snap) =>
      if snap.kind == KIND && snap.apiVersion == API_VERSION && snap.checksum != ""
        && sum(snap.content) == snap.checksum
      then Some(snap) else None
  }

  function KeyOf(l: KeyLayout, snap: Snap): string {
    l.SnapshotKey(snap.capturedAt, snap.generation, snap.checksum)
  }

  predicate IsListed(l: KeyLayout, key: string) {
    l.SnapshotsPrefix() <= key && ParseSnapshotKey(key).Some?
  }

  function RefOf(key: string): Ref
    requires ParseSnapshotKey(key).Some?
  {
    var parts := ParseSnapshotKey(key).value;
    Ref(key, parts.capturedAt, parts.generation)
  }

  /** The references a listing finds. */
  function Listed(objects: Objects, l: KeyLayout): set<Ref> {
    set key | key in objects && IsListed(l, key) :: RefOf(key)
  }

  lemma ListedKeys(objects: Objects, l: KeyLayout, r: Ref)
    ensures r in Listed(objects, l) <==> r.key in objects && IsListed(l, r.key) && r == RefOf(r.key)
  {
  }

  /** What a listing finds lies under the prefix, and is what its key parses to. */
  lemma ListedMeans(objects: Objects, l: KeyLayout, r: Ref)
    ensures r in Listed(objects, l) <==>
            && r.key in objects && l.SnapshotsPrefix() <= r.key
            && ParseSnapshotKey(r.key) == Some(KeyParts(r.capturedAt, r.generation))
  {
    ListedKeys(objects, l, r);
  }

  /** A snapshot of another server is never listed. */
  lemma OthersUnlisted(objects: Objects, l: KeyLayout, other: string, snap: Snap, r: Ref)
    requires l.serverName != "" && SlashFree(l.serverName)
    requires other != "" && SlashFree(other) && other != l.serverName
    requires r.key == KeyOf(l.(serverName := other), snap)
    ensures r !in Listed(objects, l)
  {
    var m := l.(serverName := other);
    ServersApart(l, other);
    ServersApart(m, l.serverName);
    assert m.(serverName := l.serverName) == l;
    ListedMeans(objects, l, r);
    PrefixesCompare(l.SnapshotsPrefix(), m.SnapshotsPrefix(), r.key);
  }

  lemma PrefixesCompare(a: string, b: string, key: string)
    requires b <= key && !(a <= b) && !(b <= a)
    ensures !(a <= key)
  {
  }

  /** Write: the snapshot object first, the latest pointer second. */
  function Written(objects: Objects, l: KeyLayout, snap: Snap, first: Fate, second: Fate): Objects {
    var put := PutIn(objects, KeyOf(l, snap), Document(snap), first);
    if first.Done? then PutIn(put, l.LatestKey(), Document(snap), second) else put
  }

  /** A document that may be trusted: of this kind and version, and its checksum is its own. */
  ghost predicate Genuine(snap: Snap, sum: Sum) {
    snap.kind == KIND && snap.apiVersion == API_VERSION && snap.checksum != "" && snap.checksum == sum(snap.content)
  }

  datatype Found = Found(snap: Snap, key: string)

  datatype ReadError = NotFound | Corrupt

  function ReadIn(objects: Objects, key: string, sum: Sum): Result<Found, ReadError> {
    if key !in objects then Err(NotFound)
    else match Decode(objects[key], sum)
      case None => Err(Corrupt)
      case Some(snap) => Ok(Found(snap, key))
  }

  /** Latest: what the pointer holds, under the key its own fields give; without a pointer,
      the newest listed object. */
  ghost function LatestIn(objects: Objects, l: KeyLayout, sum: Sum): Result<Found, ReadError> {
    if l.LatestKey() in objects then
      match Decode(objects[l.LatestKey()], sum)
      case None => Err(Corrupt)
      case Some(snap) => Ok(Found(snap, KeyOf(l, snap)))
    else match Newest(Listed(objects, l))
      case None => Err(NotFound)
      case Some(r) => ReadIn(objects, r.key, sum)
  }

  class Backend {
    var objects: Objects

    constructor ()
      ensures objects == map[]
    {
      objects := map[];
    }

    method Put(key: string, o: Object, fate: Fate) returns (ok: bool)
      modifies this
      ensures objects == PutIn(old(objects), key, o, fate) && (ok <==> fate.Done?)
    {
      if !fate.Lost? {
        objects := objects[key := o];
      }
      ok := fate.Done?;
    }

    method Delete(key: string, fate: Fate) returns (ok: bool)
      modifies this
      ensures objects == DeleteIn(old(objects), key, fate) && (ok <==> fate.Done?)
    {
      if !fate.Lost? {
        objects := objects - {key};
      }
      ok := fate.Done?;
    }

    /** Every key under the prefix, in lexical order. */
    method List(prefix: string) returns (keys: seq<string>)
      ensures forall k :: k in keys <==> k in objects && prefix <= k
      ensures forall k :: k in keys ==> multiset(keys)[k] == 1
      ensures SortedBy((a: string, b: string) => Less(a, b), keys)
    {
      var found, rest := [], objects.Keys;
      while rest != {}
        invariant rest <= objects.Keys
        invariant forall k :: k in found <==> k in objects && k !in rest && prefix <= k
        invariant forall k :: k in found ==> multiset(found)[k] == 1
      {
        var k :| k in rest;
        rest := rest - {k};
        if prefix <= k {
          found := found + [k];
        }
      }
      SortStringsSorts(found);
      keys := SortStrings(found);
      forall k ensures k in keys <==> k in found {
        assert k in keys <==> k in multiset(keys);
        assert k in found <==> k in multiset(found);
      }
    }
  }

  class SnapshotStore {
    const backend: Backend
    const layout: KeyLayout
    const sum: Sum

    constructor (backend: Backend, layout: KeyLayout, sum: Sum)
      ensures this.backend == backend && this.layout == layout && this.sum == sum
    {
      this.backend, this.layout, this.sum := backend, layout, sum;
    }

    method Write(snap: Snap, first: Fate, second: Fate) returns (key: Option<string>)
      modifies backend
      ensures backend.objects == Written(old(backend.objects), layout, snap, first, second)
      ensures key == if first.Done? && second.Done? then Some(KeyOf(layout, snap)) else None
    {
      var ok := backend.Put(KeyOf(layout, snap), Document(snap), first);
      if !ok {
        return None;
      }
      ok := backend.Put(layout.LatestKey(), Document(snap), second);
      if !ok {
        return None;
      }
      key := Some(KeyOf(layout, snap));
    }

    method Read(key: string) returns (r: Result<Found, ReadError>)
      ensures r == ReadIn(backend.objects, key, sum)
    {
      if key !in backend.objects {
        return Err(NotFound);
      }
      var snap := Decode(backend.objects[key], sum);
      if snap.None? {
        return Err(Corrupt);
      }
      r := Ok(Found(snap.value, key));
    }

    /** The snapshots present, oldest first; keys that do not parse are skipped. */
    method List() returns (refs: seq<Ref>)
      ensures ListingOf(refs, Listed(backend.objects, layout))
    {
      var keys := backend.List(layout.SnapshotsPrefix());
      var found := ParseAll(keys);
      BeforeIsWeakOrder();
      refs := SortSlice(found, (a: Ref, b: Ref) => Before(a, b));
      forall r ensures r in refs <==> r in Listed(backend.objects, layout) {
        assert r in refs <==> r in multiset(refs);
        assert r in found <==> r in multiset(found);
        ListedKeys(backend.objects, layout, r);
      }
      SortedIsOrdered(refs);
    }

    method Latest() returns (r: Result<Found, ReadError>)
      ensures r == LatestIn(backend.objects, layout, sum)
    {
      if layout.LatestKey() in backend.objects {
        var snap := Decode(backend.objects[layout.LatestKey()], sum);
        if snap.None? {
          return Err(Corrupt);
        }
        return Ok(Found(snap.value, KeyOf(layout, snap.value)));
      }
      var refs := List();
      if |refs| == 0 {
        return Err(NotFound);
      }
      LastIsNewest(refs, Listed(backend.objects, layout));
      r := Read(refs[|refs| - 1].key);
    }
  }

  lemma LastIsNewest(refs: seq<Ref>, all: set<Ref>)
    requires ListingOf(refs, all) && refs != []
    ensures Newest(all) == Some(refs[|refs| - 1])
  {
    NewestIs(all, refs[|refs| - 1]);
  }

  /** The loop of List over the keys. */
  method ParseAll(keys: seq<string>) returns (refs: seq<Ref>)
    requires forall k :: k in keys ==> multiset(keys)[k] == 1
    ensures forall r :: r in refs <==> r.key in keys && ParseSnapshotKey(r.key).Some? && r == RefOf(r.key)
    ensures forall r :: r in refs ==> multiset(refs)[r] == 1
  {
    refs := [];
    var i := 0;
    while i < |keys|
      invariant 0 <= i <= |keys|
      invariant forall r :: r in refs <==> r.key in keys[..i] && ParseSnapshotKey(r.key).Some? && r == RefOf(r.key)
      invariant forall r :: r in refs ==> multiset(refs)[r] == 1
    {
      assert keys[..i + 1] == keys[..i] + [keys[i]];
      OnceInPrefix(keys, i);
      if ParseSnapshotKey(keys[i]).Some? {
        refs := refs + [RefOf(keys[i])];
      }
      i := i + 1;
    }
    assert keys[..i] == keys;
  }

  lemma OnceInPrefix(keys: seq<string>, i: nat)
    requires i < |keys| && forall k :: k in keys ==> multiset(keys)[k] == 1
    ensures keys[i] !in keys[..i]
  {
    assert keys == keys[..i] + keys[i..] && keys[i] in keys[i..];
    assert multiset(keys)[keys[i]] == multiset(keys[..i])[keys[i]] + multiset(keys[i..])[keys[i]];
  }

  lemma SortedIsOrdered(refs: seq<Ref>)
    requires SortedBy((a: Ref, b: Ref) => Before(a, b), refs) && forall r :: r in refs ==> multiset(refs)[r] == 1
    ensures Ordered(refs)
  {
    forall i, j | 0 <= i < j < |refs| ensures Before(refs[i], refs[j]) {
      BeforeTotal(refs[i], refs[j]);
      assert forall r :: r in refs ==> multiset(refs)[r] <= 1;
      OnceEach(refs, i, j);
    }
  }
}
