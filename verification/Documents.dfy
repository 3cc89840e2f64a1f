/** Nested mutable maps on the heap, with the in-place operations of internal/pathutil.

    A Go `map[string]any` is a Node; a map stored in a map is a reference to another Node.
    A Document is a root map together with the ghost tree it stands for and the ghost index
    of the node found at every object path. Node sharing is excluded by the index: each node
    stands at one path only. */
module Documents {
  import opened Wrappers
  import opened JsonTree
  import opened LeafMerge

  /** A Go `any`: a null, scalar or list held by value, or a map held by reference. */
  datatype Any = Plain(value: JSON) | Ref(node: Node)

  class Node {
    var entries: map<string, Any>

    constructor ()
      ensures entries == map[]
    {
      entries := map[];
    }
  }

  type Index = map<Path, Node>

  /** The value a stands for what v has at p, when idx gives the nodes of v. */
  ghost predicate ValueDenotes(a: Any, s: Shape, p: Path, idx: Index) {
    match s
    case Absent => false
    case Object => p in idx && a == Ref(idx[p])
    case Value(w) => a == Plain(w)
  }

  ghost predicate EntryDenotes(entries: map<string, Any>, key: string, s: Shape, p: Path, idx: Index) {
    (key in entries <==> s != Absent) && (key in entries ==> ValueDenotes(entries[key], s, p, idx))
  }

  /** The entries of the node at each path. */
  type Contents = map<Path, map<string, Any>>

  ghost predicate Holds(idx: Index, contents: Contents, nodes: set<Node>)
    reads nodes
  {
    forall p :: p in idx ==> idx[p] in nodes && p in contents && idx[p].entries == contents[p]
  }

  /** The nodes at two different paths are different nodes. */
  ghost predicate Apart(idx: Index, p: Path, q: Path) {
    p in idx && q in idx && p != q ==> idx[p] != idx[q]
  }

  /** Key k of the node at p holds what the tree v has at p + [k]. */
  ghost predicate EntryFits(v: JSON, idx: Index, contents: Contents, p: Path, k: string) {
    p in contents && EntryDenotes(contents[p], k, ShapeAt(v, p + [k]), p + [k], idx)
  }

  /** The heap below a, with the given nodes and contents, spells out the tree v, and every
      node stands at one path only. */
  ghost predicate Represents(a: Any, v: JSON, idx: Index, contents: Contents) {
    && idx.Keys == contents.Keys
    && (forall p :: p in idx <==> ShapeAt(v, p) == Object)
    && (forall p, q {:trigger Apart(idx, p, q)} :: Apart(idx, p, q))
    && (forall p, k {:trigger EntryFits(v, idx, contents, p, k)} :: p in idx ==> EntryFits(v, idx, contents, p, k))
    && ValueDenotes(a, ShapeAt(v, []), [], idx)
  }

  /** v with the object at p replaced by w. */
  function ReplaceAt(v: JSON, p: Path, w: JSON): JSON
    requires ObjAt(v, p)
  {
    if p == [] then w else Obj(v.fields[p[0] := ReplaceAt(v.fields[p[0]], p[1..], w)])
  }

  function Put(v: JSON, p: Path, key: string, x: JSON): JSON
    requires ObjAt(v, p)
  {
    ReplaceAt(v, p, Obj(At(v, p).value.fields[key := x]))
  }

  function Drop(v: JSON, p: Path, key: string): JSON
    requires ObjAt(v, p)
  {
    ReplaceAt(v, p, Obj(At(v, p).value.fields - {key}))
  }

  lemma {:induction false} PutShape(v: JSON, p: Path, key: string, x: JSON, q: Path)
    requires ObjAt(v, p)
    ensures ShapeAt(Put(v, p, key, x), q) ==
            if p + [key] <= q then ShapeAt(x, q[|p| + 1..]) else ShapeAt(v, q)
    decreases |p|
  {
    if p == [] {
      assert p + [key] == [key];
    } else if q != [] && q[0] == p[0] {
      PutShape(v.fields[p[0]], p[1..], key, x, q[1..]);
      assert p[1..] + [key] <= q[1..] <==> p + [key] <= q;
      if p + [key] <= q {
        assert q[1..][|p|..] == q[|p| + 1..];
      }
    } else {
      assert !(p + [key] <= q);
    }
  }

  lemma {:induction false} DropShape(v: JSON, p: Path, key: string, q: Path)
    requires ObjAt(v, p)
    ensures ShapeAt(Drop(v, p, key), q) == if p + [key] <= q then Absent else ShapeAt(v, q)
    decreases |p|
  {
    if p == [] {
      assert p + [key] == [key];
    } else if q != [] && q[0] == p[0] {
      DropShape(v.fields[p[0]], p[1..], key, q[1..]);
      assert p[1..] + [key] <= q[1..] <==> p + [key] <= q;
    } else {
      assert !(p + [key] <= q);
    }
  }

  /** Replacing below a place just written is one write at that place. */
  lemma {:induction false} ReplaceStep(v: JSON, p: Path, key: string, x: JSON, w: JSON)
    requires ObjAt(v, p) && x.Obj?
    ensures ObjAt(Put(v, p, key, x), p + [key])
    ensures ReplaceAt(Put(v, p, key, x), p + [key], w) == Put(v, p, key, w)
    decreases |p|
  {
    if p == [] {
      assert p + [key] == [key];
    } else {
      ReplaceStep(v.fields[p[0]], p[1..], key, x, w);
      assert (p + [key])[1..] == p[1..] + [key];
    }
  }

  lemma {:induction false} ReplaceBelow(v: JSON, p: Path, key: string, w: JSON)
    requires ObjAt(v, p + [key])
    ensures ObjAt(v, p)
    ensures ReplaceAt(v, p + [key], w) == Put(v, p, key, w)
    decreases |p|
  {
    AtStep(v, p, key);
    if p == [] {
      assert p + [key] == [key];
    } else {
      assert (p + [key])[1..] == p[1..] + [key];
      ReplaceBelow(v.fields[p[0]], p[1..], key, w);
    }
  }

  lemma {:induction false} ReplaceSame(v: JSON, p: Path)
    requires ObjAt(v, p)
    ensures ReplaceAt(v, p, At(v, p).value) == v
    decreases |p|
  {
    if p != [] {
      ReplaceSame(v.fields[p[0]], p[1..]);
    }
  }

  lemma {:induction false} AtReplace(v: JSON, p: Path, w: JSON)
    requires ObjAt(v, p)
    ensures At(ReplaceAt(v, p, w), p) == Some(w)
    decreases |p|
  {
    if p != [] {
      AtReplace(v.fields[p[0]], p[1..], w);
    }
  }

  lemma {:induction false} ReplaceTwice(v: JSON, p: Path, w: JSON, x: JSON)
    requires ObjAt(v, p) && w.Obj?
    ensures ObjAt(ReplaceAt(v, p, w), p)
    ensures ReplaceAt(ReplaceAt(v, p, w), p, x) == ReplaceAt(v, p, x)
    decreases |p|
  {
    if p != [] {
      ReplaceTwice(v.fields[p[0]], p[1..], w, x);
    }
  }

  /** What remains of a per-path map when everything at or below pk is forgotten. */
  ghost function Pruned<T>(m: map<Path, T>, pk: Path): map<Path, T> {
    map q | q in m && !(pk <= q) :: m[q]
  }

  /** The nodes after key of the node at p was assigned: a freshly created map if s is Object. */
  ghost function NewIndex(idx: Index, pk: Path, s: Shape, created: Node): Index {
    if s == Object then Pruned(idx, pk)[pk := created] else Pruned(idx, pk)
  }

  ghost function NewContents(contents: Contents, p: Path, pk: Path, s: Shape, entries: map<string, Any>): Contents {
    if s == Object then Pruned(contents, pk)[p := entries][pk := map[]] else Pruned(contents, pk)[p := entries]
  }

  lemma Unmoved(
    idx: Index, contents: Contents, p: Path, pk: Path, s: Shape, created: Node, entries: map<string, Any>, q: Path)
    requires idx.Keys == contents.Keys && q in NewIndex(idx, pk, s, created) && q != p && !(s == Object && q == pk)
    ensures q in idx && NewIndex(idx, pk, s, created)[q] == idx[q]
    ensures q in NewContents(contents, p, pk, s, entries) && NewContents(contents, p, pk, s, entries)[q] == contents[q]
  {
  }

  /** The entries agree except at key. */
  ghost predicate SameExcept(before: map<string, Any>, after: map<string, Any>, key: string) {
    forall k :: k != key ==> (k in before <==> k in after) && (k in before ==> before[k] == after[k])
  }

  /** w is v with the shape s, and nothing beneath it, at pk. */
  ghost predicate ChangedAt(v: JSON, w: JSON, pk: Path, s: Shape) {
    forall q :: ShapeAt(w, q) == if !(pk <= q) then ShapeAt(v, q) else if q == pk then s else Absent
  }

  lemma ProperPrefixStep(p: Path, key: string, q: Path, k: string)
    requires p + [key] <= q + [k] && !(p + [key] <= q)
    ensures q == p && k == key
  {
    var pk, qk := p + [key], q + [k];
    assert pk == qk[..|pk|];
    assert |pk| == |qk|;
    assert q == qk[..|q|] && p == pk[..|p|];
    assert k == qk[|q|] && key == pk[|p|];
  }

  lemma NewEntryFits(
    root: Any, v: JSON, idx: Index, contents: Contents, p: Path, key: string,
    w: JSON, s: Shape, created: Node, entries: map<string, Any>, q: Path, k: string)
    requires Represents(root, v, idx, contents) && p in idx
    requires ChangedAt(v, w, p + [key], s)
    requires SameExcept(contents[p], entries, key)
    requires EntryDenotes(entries, key, s, p + [key], NewIndex(idx, p + [key], s, created))
    requires q in NewIndex(idx, p + [key], s, created)
    ensures EntryFits(w, NewIndex(idx, p + [key], s, created), NewContents(contents, p, p + [key], s, entries), q, k)
  {
    var pk := p + [key];
    assert !(pk <= p);
    if pk <= q {
      assert pk <= q + [k] && q + [k] != pk;
    } else {
      assert EntryFits(v, idx, contents, q, k);
      if pk <= q + [k] {
        ProperPrefixStep(p, key, q, k);
      }
    }
  }

  /** Assigning one key of one node, to a scalar, a fresh empty map or nothing, changes the
      tree at that one place. */
  lemma EntryAssigned(
    root: Any, v: JSON, idx: Index, contents: Contents, p: Path, key: string,
    w: JSON, s: Shape, created: Node, entries: map<string, Any>)
    requires Represents(root, v, idx, contents) && p in idx
    requires (s == Object ==> forall q :: q in idx ==> idx[q] != created)
    requires ChangedAt(v, w, p + [key], s)
    requires SameExcept(contents[p], entries, key)
    requires EntryDenotes(entries, key, s, p + [key], NewIndex(idx, p + [key], s, created))
    ensures Represents(root, w, NewIndex(idx, p + [key], s, created), NewContents(contents, p, p + [key], s, entries))
  {
    var pk, idx' := p + [key], NewIndex(idx, p + [key], s, created);
    assert !(pk <= p);
    forall q, r ensures Apart(idx', q, r) {
      assert Apart(idx, q, r);
    }
    forall q, k | q in idx' ensures EntryFits(w, idx', NewContents(contents, p, pk, s, entries), q, k) {
      NewEntryFits(root, v, idx, contents, p, key, w, s, created, entries, q, k);
    }
  }

  /** The contents are as NewContents says once the entries of the one node are in place. */
  lemma HoldsAfter(
    idx: Index, contents: Contents, p: Path, key: string, s: Shape, created: Node, entries: map<string, Any>,
    nodes: set<Node>)
    requires idx.Keys == contents.Keys && p in idx && idx[p].entries == entries
    requires forall q :: q in idx ==> idx[q] in nodes && (q != p ==> idx[q].entries == contents[q])
    requires s == Object ==> created.entries == map[]
    ensures Holds(
              NewIndex(idx, p + [key], s, created), NewContents(contents, p, p + [key], s, entries), nodes + {created})
  {
    var pk := p + [key];
    assert !(pk <= p);
    forall q | q in NewIndex(idx, pk, s, created)
      ensures NewIndex(idx, pk, s, created)[q] in nodes + {created}
      ensures q in NewContents(contents, p, pk, s, entries)
      ensures NewIndex(idx, pk, s, created)[q].entries == NewContents(contents, p, pk, s, entries)[q]
    {
      if q != p && !(s == Object && q == pk) {
        Unmoved(idx, contents, p, pk, s, created, entries, q);
      }
    }
  }

  /** What SetSegments is to produce: the written tree, or None for a refusal. */
  function Goal(v: JSON, p: Path, x: JSON): Option<JSON> {
    if Settable(v, p) then Some(SetAt(v, p, x)) else None
  }

  /** One call of SetSegments: the tree it found, the value it writes, and what it is to produce. */
  datatype Call = Call(orig: JSON, value: JSON, goal: Option<JSON>)

  /** Midway through SetSegments: the node at p is reached, and what is left to write below it
      decides and completes what the whole call is to produce. */
  ghost predicate Pending(call: Call, tree: JSON, p: Path, rest: Path) {
    && ObjAt(tree, p)
    && call.goal == (match Goal(At(tree, p).value, rest, call.value)
                case Some(w) => Some(ReplaceAt(tree, p, w))
                case None => None)
    && (tree == call.orig || call.goal.Some?)
  }

  lemma PendingExisting(call: Call, tree: JSON, p: Path, key: string, rest: Path)
    requires Pending(call, tree, p, [key] + rest) && rest != [] && ObjAt(tree, p + [key])
    ensures Pending(call, tree, p + [key], rest)
  {
    assert ([key] + rest)[1..] == rest;
    AtStep(tree, p, key);
    var child := At(tree, p + [key]).value;
    if Settable(child, rest) {
      ReplaceBelow(tree, p, key, SetAt(child, rest, call.value));
    }
  }

  lemma PendingCreated(call: Call, tree: JSON, p: Path, key: string, rest: Path)
    requires Pending(call, tree, p, [key] + rest) && rest != []
    requires var u := At(tree, p).value; key !in u.fields || u.fields[key] == Null
    ensures Pending(call, Put(tree, p, key, EMPTY), p + [key], rest)
  {
    assert ([key] + rest)[1..] == rest;
    ReplaceStep(tree, p, key, EMPTY, SetAt(EMPTY, rest, call.value));
    AtReplace(tree, p, Obj(At(tree, p).value.fields[key := EMPTY]));
    AtStep(Put(tree, p, key, EMPTY), p, key);
  }

  lemma PendingBlocked(call: Call, tree: JSON, p: Path, key: string, rest: Path)
    requires Pending(call, tree, p, [key] + rest) && rest != []
    requires var u := At(tree, p).value; key in u.fields && u.fields[key] != Null && !u.fields[key].Obj?
    ensures call.goal == None && tree == call.orig
  {
    assert ([key] + rest)[1..] == rest && ([key] + rest)[0] == key;
    assert !Settable(At(tree, p).value.fields[key], rest);
    assert !Settable(At(tree, p).value, [key] + rest);
  }

  lemma PendingLast(call: Call, tree: JSON, p: Path, key: string)
    requires Pending(call, tree, p, [key])
    ensures call.goal == Some(Put(tree, p, key, call.value))
  {
  }

  lemma DropIsReplace(v: JSON, p: Path, key: string, d: JSON)
    requires ObjAt(v, p + [key]) && d.Obj?
    ensures ObjAt(v, p)
    ensures var w := ReplaceAt(v, p + [key], d);
            ObjAt(w, p) && Drop(w, p, key) == ReplaceAt(v, p, Obj(At(v, p).value.fields - {key}))
  {
    ReplaceBelow(v, p, key, d);
    var u := Obj(At(v, p).value.fields[key := d]);
    AtReplace(v, p, u);
    ReplaceTwice(v, p, u, Obj(u.fields - {key}));
    assert u.fields - {key} == At(v, p).value.fields - {key};
  }

  lemma SameKeys(root: Any, v: JSON, idx: Index, contents: Contents, p: Path)
    requires Represents(root, v, idx, contents) && p in idx
    ensures ObjAt(v, p) && contents[p].Keys == At(v, p).value.fields.Keys
  {
    forall k ensures k in contents[p] <==> k in At(v, p).value.fields {
      assert EntryFits(v, idx, contents, p, k);
      AtStep(v, p, k);
    }
  }

  /** A node has no entries exactly when the tree is empty there. */
  lemma NoEntries(root: Any, v: JSON, idx: Index, contents: Contents, p: Path)
    requires Represents(root, v, idx, contents) && p in idx
    ensures ObjAt(v, p) && (contents[p] == map[] <==> At(v, p).value == EMPTY)
  {
    SameKeys(root, v, idx, contents, p);
  }

  /** The leaves strictly below p whose next key is in keys, each once, in any order. */
  ghost predicate IsWalkBelow(v: JSON, p: Path, keys: set<string>, leaves: seq<Leaf>) {
    && (forall l :: l in leaves <==> IsLeaf(v, l) && p < l.segments && l.segments[|p|] in keys)
    && (forall i, j :: 0 <= i < j < |leaves| ==> leaves[i] != leaves[j])
  }

  lemma WalkJoins(v: JSON, p: Path, done: set<string>, key: string, leaves: seq<Leaf>, more: seq<Leaf>)
    requires IsWalkBelow(v, p, done, leaves) && IsWalkBelow(v, p, {key}, more) && key !in done
    ensures IsWalkBelow(v, p, done + {key}, leaves + more)
  {
    forall l | l in leaves ensures l !in more {
      assert l.segments[|p|] in done;
    }
    var all := leaves + more;
    forall i, j | 0 <= i < j < |all| ensures all[i] != all[j] {
      if i < |leaves| <= j {
        assert all[i] in leaves && all[j] in more;
      }
    }
  }

  /** A terminal value is the only leaf at or below its path. */
  lemma WalkTerminal(v: JSON, p: Path, key: string, value: JSON)
    requires At(v, p + [key]) == Some(value) && IsTerminal(value)
    ensures IsWalkBelow(v, p, {key}, [Leaf(p + [key], value)])
  {
    var l0 := Leaf(p + [key], value);
    forall l | IsLeaf(v, l) && p < l.segments && l.segments[|p|] in {key} ensures l == l0 {
      assert l.segments[..|p| + 1] == p + [key];
      LeavesIncomparable(v, l0, l);
    }
  }

  /** The leaves below a non-empty map are those below its keys. */
  lemma WalkNested(v: JSON, p: Path, key: string, keys: set<string>, leaves: seq<Leaf>)
    requires ObjAt(v, p + [key]) && At(v, p + [key]).value != EMPTY
    requires keys == At(v, p + [key]).value.fields.Keys && IsWalkBelow(v, p + [key], keys, leaves)
    ensures IsWalkBelow(v, p, {key}, leaves)
  {
    var pk := p + [key];
    forall l ensures l in leaves <==> IsLeaf(v, l) && p < l.segments && l.segments[|p|] in {key} {
      if IsLeaf(v, l) && p < l.segments && l.segments[|p|] == key {
        assert l.segments[..|pk|] == pk;
        assert |l.segments| == |pk| ==> l.segments == pk;
        if |l.segments| > |pk| {
          var k := l.segments[|pk|];
          assert l.segments[..|pk| + 1] == pk + [k];
          AtPrefix(v, l.segments, |pk| + 1);
          AtStep(v, pk, k);
        }
      }
    }
  }

  /** The tree a document stands for, with the nodes and contents that spell it out, among
      all nodes the document ever held. */
  datatype View = View(tree: JSON, index: Index, contents: Contents, nodes: set<Node>)

  class Document {
    const root: Node
    ghost var view: View

    ghost predicate Valid()
      reads this, view.nodes
    {
      && view.tree.Obj?
      && Represents(Ref(root), view.tree, view.index, view.contents)
      && Holds(view.index, view.contents, view.nodes)
    }

    constructor Empty()
      ensures Valid() && view.tree == EMPTY && fresh(view.nodes)
    {
      var n := new Node();
      root := n;
      view := View(EMPTY, map[[] := n], map[[] := map[]], {n});
    }

    /** Replaces the entries of one node, where they differ at one key. */
    method Assign(
      current: Node, entries: map<string, Any>,
      ghost p: Path, ghost key: string, ghost w: JSON, ghost s: Shape, ghost created: Node)
      requires Valid() && p in view.index && view.index[p] == current && w.Obj?
      requires SameExcept(current.entries, entries, key)
      requires ChangedAt(view.tree, w, p + [key], s)
      requires EntryDenotes(entries, key, s, p + [key], NewIndex(view.index, p + [key], s, created))
      requires s == Object ==> created !in view.nodes && created.entries == map[]
      modifies this, current
      ensures Valid() && view.tree == w
      ensures view.index == NewIndex(old(view.index), p + [key], s, created)
      ensures view.nodes == old(view.nodes) + {created}
    {
      ghost var idx, pk, was, nodes := view.index, p + [key], view.contents, view.nodes;
      EntryAssigned(Ref(root), view.tree, idx, view.contents, p, key, w, s, created, entries);
      view := View(w, NewIndex(idx, pk, s, created), NewContents(was, p, pk, s, entries), nodes + {created});
      current.entries := entries;
      forall q | q in idx && q != p ensures q in was && idx[q].entries == was[q] {
        assert Apart(idx, p, q);
      }
      assert current in nodes;
      HoldsAfter(idx, was, p, key, s, created, entries, nodes);
    }

    /** current[key] = value at the node standing at p; an empty map is stored as a new node. */
    method StoreEntry(current: Node, key: string, value: JSON, ghost p: Path) returns (created: Node)
      requires Valid() && p in view.index && view.index[p] == current && IsTerminal(value)
      modifies this, current
      ensures Valid() && ObjAt(old(view.tree), p) && view.tree == Put(old(view.tree), p, key, value)
      ensures p in view.index && view.index[p] == current
      ensures value.Obj? ==> p + [key] in view.index && view.index[p + [key]] == created
      ensures fresh(created) && view.nodes == old(view.nodes) + {created}
    {
      created := new Node();
      ghost var w := Put(view.tree, p, key, value);
      ghost var s := if value.Obj? then Object else Value(value);
      forall q ensures ShapeAt(w, q) ==
          if !(p + [key] <= q) then ShapeAt(view.tree, q) else if q == p + [key] then s else Absent
      {
        PutShape(view.tree, p, key, value, q);
      }
      var a := if value.Obj? then Ref(created) else Plain(value);
      Assign(current, current.entries[key := a], p, key, w, s, created);
    }

    /** One iteration of the descent: the map below key, created if absent or null; null when
        the value there blocks the path. */
    method Descend(current: Node, key: string, ghost call: Call, ghost p: Path, ghost rest: Path)
      returns (next: Node?)
      requires Valid() && p in view.index && view.index[p] == current
      requires Pending(call, view.tree, p, [key] + rest) && rest != []
      modifies this, current
      ensures Valid() && fresh(view.nodes - old(view.nodes))
      ensures next == null ==> view.tree == call.orig && call.goal == None
      ensures next != null ==> p + [key] in view.index && view.index[p + [key]] == next
      ensures next != null ==> Pending(call, view.tree, p + [key], rest)
    {
      AtStep(view.tree, p, key);
      assert EntryFits(view.tree, view.index, view.contents, p, key);
      if key !in current.entries || current.entries[key] == Plain(Null) {
        PendingCreated(call, view.tree, p, key, rest);
        next := StoreEntry(current, key, EMPTY, p);
      } else if current.entries[key].Plain? {
        PendingBlocked(call, view.tree, p, key, rest);
        next := null;
      } else {
        PendingExisting(call, view.tree, p, key, rest);
        next := current.entries[key].node;
      }
    }

    /** The loop of SetSegments: the map that is to hold the last segment, or null when the
        path is blocked. */
    method Parent(segments: Path, ghost value: JSON) returns (current: Node?, ghost p: Path)
      requires Valid() && segments != []
      modifies this, view.nodes
      ensures Valid() && fresh(view.nodes - old(view.nodes))
      ensures current == null ==> view.tree == old(view.tree) && Goal(old(view.tree), segments, value) == None
      ensures current != null ==> p in view.index && view.index[p] == current && current in view.nodes
      ensures current != null ==>
                ObjAt(view.tree, p) &&
                Goal(old(view.tree), segments, value) == Some(Put(view.tree, p, segments[|segments| - 1], value))
    {
      ghost var call, rest := Call(view.tree, value, Goal(view.tree, segments, value)), segments;
      ghost var before := view.nodes;
      p := [];
      current := root;
      var i := 0;
      while i < |segments| - 1
        invariant 0 <= i < |segments| && rest == segments[i..]
        invariant Valid() && fresh(view.nodes - before)
        invariant current != null && p in view.index && view.index[p] == current
        invariant Pending(call, view.tree, p, rest)
      {
        assert rest == [segments[i]] + rest[1..];
        rest := rest[1..];
        current := Descend(current, segments[i], call, p, rest);
        if current == null {
          return;
        }
        p, i := p + [segments[i]], i + 1;
      }
      assert rest == [segments[i]];
      PendingLast(call, view.tree, p, segments[i]);
    }

    /** Writes value at the split path, creating intermediate maps; false, and no change, when
        an existing value that is neither a map nor null is in the way. */
    method SetSegments(segments: Path, value: JSON) returns (ok: bool)
      requires Valid() && IsTerminal(value)
      modifies this, view.nodes
      ensures Valid() && fresh(view.nodes - old(view.nodes))
      ensures ok <==> Settable(old(view.tree), segments)
      ensures view.tree == if ok then SetAt(old(view.tree), segments, value) else old(view.tree)
    {
      if |segments| == 0 {
        return false;
      }
      var parent, p := Parent(segments, value);
      if parent == null {
        return false;
      }
      var _ := StoreEntry(parent, segments[|segments| - 1], value, p);
      ok := true;
    }

    /** delete(current, key) at the node standing at p. */
    method RemoveEntry(current: Node, key: string, ghost p: Path)
      requires Valid() && p in view.index && view.index[p] == current
      modifies this, current
      ensures Valid() && ObjAt(old(view.tree), p) && view.tree == Drop(old(view.tree), p, key)
      ensures view.index == Pruned(old(view.index), p + [key]) && view.nodes == old(view.nodes)
    {
      ghost var w := Drop(view.tree, p, key);
      forall q ensures ShapeAt(w, q) ==
          if !(p + [key] <= q) then ShapeAt(view.tree, q) else if q == p + [key] then Absent else Absent
      {
        DropShape(view.tree, p, key, q);
      }
      Assign(current, current.entries - {key}, p, key, w, Absent, current);
    }

    method DeleteSegments(current: Node, segments: Path, ghost p: Path)
      requires Valid() && segments != [] && p in view.index && view.index[p] == current
      modifies this, view.nodes
      ensures Valid() && view.nodes == old(view.nodes) && ObjAt(old(view.tree), p)
      ensures view.tree == ReplaceAt(old(view.tree), p, DeleteAt(At(old(view.tree), p).value, segments))
      ensures forall q :: q in old(view.index) && |q| <= |p| ==> q in view.index && view.index[q] == old(view.index[q])
      decreases |segments|
    {
      ghost var key, v := segments[0], view.tree;
      if |segments| == 1 {
        RemoveEntry(current, segments[0], p);
        return;
      }
      assert EntryFits(v, view.index, view.contents, p, key);
      AtStep(v, p, key);
      if segments[0] !in current.entries || current.entries[segments[0]].Plain? {
        ReplaceSame(v, p);
        return;
      }
      var next := current.entries[segments[0]].node;
      ReplaceBelow(v, p, key, DeleteAt(At(v, p + [key]).value, segments[1..]));
      DeleteSegments(next, segments[1..], p + [key]);
      AtReplace(v, p + [key], DeleteAt(At(v, p + [key]).value, segments[1..]));
      NoEntries(Ref(root), view.tree, view.index, view.contents, p + [key]);
      if next.entries == map[] {
        DropIsReplace(v, p, key, EMPTY);
        RemoveEntry(current, segments[0], p);
      }
    }

    /** Removes the value at the path, and the maps the removal leaves empty. */
    method Delete(segments: Path)
      requires Valid()
      modifies this, view.nodes
      ensures Valid() && view.nodes == old(view.nodes)
      ensures view.tree == DeleteAt(old(view.tree), segments)
    {
      if |segments| == 0 {
        return;
      }
      DeleteSegments(root, segments, []);
    }

    /** The value at the path, read through the nested maps. */
    method Get(segments: Path) returns (found: Option<Any>)
      requires Valid()
      ensures found.Some? <==> GetSegments(view.tree, segments).Some?
      ensures found.Some? ==> ValueDenotes(found.value, ShapeAt(view.tree, segments), segments, view.index)
    {
      if |segments| == 0 {
        return None;
      }
      var current, i := Ref(root), 0;
      assert segments[..0] == [];
      while i < |segments|
        invariant 0 <= i <= |segments|
        invariant ValueDenotes(current, ShapeAt(view.tree, segments[..i]), segments[..i], view.index)
      {
        ghost var p := segments[..i];
        assert p + [segments[i]] == segments[..i + 1];
        if current.Plain? {
          assert p + segments[i..] == segments;
          AtConcat(view.tree, p, segments[i..]);
          return None;
        }
        assert EntryFits(view.tree, view.index, view.contents, p, segments[i]);
        if segments[i] !in current.node.entries {
          assert p + [segments[i]] + segments[i + 1..] == segments;
          AtConcat(view.tree, p + [segments[i]], segments[i + 1..]);
          return None;
        }
        current := current.node.entries[segments[i]];
        i := i + 1;
      }
      assert segments[..i] == segments;
      found := Some(current);
    }

    method WalkFrom(current: Node, prefix: Path) returns (leaves: seq<Leaf>)
      requires Valid() && prefix in view.index && view.index[prefix] == current
      ensures ObjAt(view.tree, prefix)
      ensures IsWalkBelow(view.tree, prefix, At(view.tree, prefix).value.fields.Keys, leaves)
      decreases At(view.tree, prefix).value
    {
      leaves := [];
      var keys := current.entries.Keys;
      while keys != {}
        invariant keys <= current.entries.Keys
        invariant IsWalkBelow(view.tree, prefix, current.entries.Keys - keys, leaves)
      {
        var key :| key in keys;
        var a, segments, more := current.entries[key], prefix + [key], [];
        assert EntryFits(view.tree, view.index, view.contents, prefix, key);
        AtStep(view.tree, prefix, key);
        if a.Ref? {
          NoEntries(Ref(root), view.tree, view.index, view.contents, segments);
        }
        if a.Ref? && a.node.entries != map[] {
          more := WalkFrom(a.node, segments);
          WalkNested(view.tree, prefix, key, At(view.tree, segments).value.fields.Keys, more);
        } else {
          var value := if a.Ref? then EMPTY else a.value;
          more := [Leaf(segments, value)];
          WalkTerminal(view.tree, prefix, key, value);
        }
        WalkJoins(view.tree, prefix, current.entries.Keys - keys, key, leaves, more);
        assert current.entries.Keys - keys + {key} == current.entries.Keys - (keys - {key});
        leaves, keys := leaves + more, keys - {key};
      }
      SameKeys(Ref(root), view.tree, view.index, view.contents, prefix);
      assert current.entries.Keys - keys == At(view.tree, prefix).value.fields.Keys;
    }

    /** Every leaf of the document once, in an order the caller cannot rely on. */
    method WalkLeaves() returns (leaves: seq<Leaf>)
      requires Valid()
      ensures IsWalk(view.tree, leaves)
    {
      leaves := WalkFrom(root, []);
      forall l | IsLeaf(view.tree, l) ensures l in leaves {
        assert l.segments[..1] == [] + [l.segments[0]];
        AtPrefix(view.tree, l.segments, 1);
        AtStep(view.tree, [], l.segments[0]);
      }
    }
  }
}
