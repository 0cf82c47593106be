/**
 * Widget state as values: trees of lists and dicts with binary leaves, what splitting
 * the binaries out of a tree leaves behind, and what putting them back does.
 *
 * A dict keeps its insertion order, which decides the order of the buffers, but two
 * states are equal when their canonical forms are, where a dict is a map.
 */
module Trees {
  newtype Byte = x: int | 0 <= x < 256
  type Bytes = seq<Byte>

  /** How deep a state may nest below its root. */
  const MAX_DEPTH: nat := 500

  datatype Option<+T> = None | Some(value: T)

  datatype Kind = ListK | DictK
  datatype Key = Idx(i: nat) | Name(s: string)
  type Path = seq<Key>

  datatype Atom = PyNone | Str(s: string) | Scalar(id: int)
  datatype Tree = Leaf(a: Atom) | Bin(b: Bytes) | Node(kind: Kind, items: seq<Entry>)
  datatype Entry = Entry(key: Key, val: Tree)

  /** One (path, buffer) pair. */
  datatype Patch = Patch(path: Path, b: Bytes)

  function Zip(paths: seq<Path>, buffers: seq<Bytes>): seq<Patch> {
    if paths == [] || buffers == [] then []
    else [Patch(paths[0], buffers[0])] + Zip(paths[1..], buffers[1..])
  }

  predicate DistinctKeys(items: seq<Entry>) {
    forall i, j :: 0 <= i < j < |items| ==> items[i].key != items[j].key
  }

  predicate Keyed(kind: Kind, items: seq<Entry>) {
    DistinctKeys(items) && (kind.ListK? ==> forall i :: 0 <= i < |items| ==> items[i].key == Idx(i))
  }

  predicate Wf(t: Tree) {
    t.Node? ==> Keyed(t.kind, t.items) && forall i :: 0 <= i < |t.items| ==> Wf(t.items[i].val)
  }

  predicate WfItems(items: seq<Entry>) {
    forall i :: 0 <= i < |items| ==> Wf(items[i].val)
  }

  /** How many containers deep t nests. */
  function Depth(t: Tree): nat
    decreases t, 1
  {
    if t.Node? then 1 + DepthItems(t.items) else 0
  }

  function DepthItems(items: seq<Entry>): nat
    decreases items, 0
  {
    if items == [] then 0
    else
      var last := items[|items| - 1];
      assert (items decreases to last) && (last decreases to last.val);
      Max(DepthItems(items[..|items| - 1]), Depth(last.val))
  }

  function Max(a: nat, b: nat): nat {
    if a < b then b else a
  }

  lemma {:induction false} DepthBound(items: seq<Entry>, n: int)
    ensures 0 <= n ==> (DepthItems(items) <= n <==> forall i :: 0 <= i < |items| ==> Depth(items[i].val) <= n)
    decreases |items|
  {
    if items != [] {
      var m := |items| - 1;
      DepthBound(items[..m], n);
      assert forall i :: 0 <= i < m ==> items[..m][i] == items[i];
      assert items == items[..m] + [items[m]];
      assert DepthItems(items) == Max(DepthItems(items[..m]), Depth(items[m].val));
    }
  }

  // ---------------------------------------------------------------------
  // Splitting
  // ---------------------------------------------------------------------

  /** What is left of t: a binary in a list becomes None, a binary in a dict goes. */
  function Strip(t: Tree): Tree
    decreases t, 1
  {
    if t.Node? then Node(t.kind, StripItems(t.kind, t.items)) else t
  }

  function StripItems(kind: Kind, items: seq<Entry>): seq<Entry>
    decreases items, 1
  {
    if items == [] then []
    else StripItems(kind, items[..|items| - 1]) + StripEntry(kind, items[|items| - 1])
  }

  function StripEntry(kind: Kind, e: Entry): seq<Entry>
    decreases e, 0
  {
    if !e.val.Bin? then [Entry(e.key, Strip(e.val))]
    else if kind.ListK? then [Entry(e.key, Leaf(PyNone))]
    else []
  }

  function Below(path: Path, ps: seq<Patch>): seq<Patch> {
    seq(|ps|, i requires 0 <= i < |ps| => Patch(path + ps[i].path, ps[i].b))
  }

  /** The binaries split out of t, in the order of the walk, each with its path. */
  function Bufs(t: Tree): seq<Patch>
    decreases t, 1
  {
    if t.Node? then BufsItems(t.items) else []
  }

  function BufsItems(items: seq<Entry>): seq<Patch>
    decreases items, 1
  {
    if items == [] then []
    else BufsItems(items[..|items| - 1]) + BufsEntry(items[|items| - 1])
  }

  function BufsEntry(e: Entry): seq<Patch>
    decreases e, 0
  {
    if e.val.Bin? then [Patch([e.key], e.val.b)] else Below([e.key], Bufs(e.val))
  }

  // ---------------------------------------------------------------------
  // Equality that ignores the order of dict entries
  // ---------------------------------------------------------------------

  datatype Canon = CLeaf(a: Atom) | CBin(b: Bytes) | CNode(kind: Kind, m: map<Key, Canon>)

  function CanonOf(t: Tree): Canon
    decreases t, 1
  {
    match t
    case Leaf(a) => CLeaf(a)
    case Bin(b) => CBin(b)
    case Node(kind, items) => CNode(kind, CanonItems(items))
  }

  function CanonItems(items: seq<Entry>): map<Key, Canon>
    decreases items, 0
  {
    if items == [] then map[]
    else
      var last := items[|items| - 1];
      assert (items decreases to last) && (last decreases to last.val);
      CanonItems(items[..|items| - 1])[last.key := CanonOf(last.val)]
  }

  /** What a path leads to. */
  function CAt(c: Canon, path: Path): Option<Canon> {
    if path == [] then Some(c)
    else if c.CNode? && path[0] in c.m then CAt(c.m[path[0]], path[1..])
    else None
  }

  lemma {:induction false} CanonKeys(items: seq<Entry>, k: Key)
    ensures k in CanonItems(items) <==> exists i :: 0 <= i < |items| && items[i].key == k
  {
    if items != [] {
      var n := |items| - 1;
      CanonKeys(items[..n], k);
      if k in CanonItems(items) && k != items[n].key {
        var i :| 0 <= i < n && items[..n][i].key == k;
        assert items[i].key == k;
      }
      if i :| 0 <= i < |items| && items[i].key == k {
        if i < n {
          assert items[..n][i].key == k;
        }
      }
    }
  }

  lemma {:induction false} CanonEntry(items: seq<Entry>, i: nat)
    requires i < |items| && DistinctKeys(items)
    ensures items[i].key in CanonItems(items) && CanonItems(items)[items[i].key] == CanonOf(items[i].val)
  {
    var n := |items| - 1;
    if i < n {
      CanonEntry(items[..n], i);
    }
  }

  // ---------------------------------------------------------------------
  // The pairs are exactly the binary leaves, and their paths are independent
  // ---------------------------------------------------------------------

  lemma {:induction false} BelowIn(path: Path, ps: seq<Patch>, p: Path, b: Bytes)
    ensures Patch(p, b) in Below(path, ps) <==>
            path <= p && Patch(p[|path|..], b) in ps
  {
    if Patch(p, b) in Below(path, ps) {
      var i :| 0 <= i < |ps| && Below(path, ps)[i] == Patch(p, b);
      assert p[|path|..] == ps[i].path;
    }
    if path <= p && Patch(p[|path|..], b) in ps {
      var i :| 0 <= i < |ps| && ps[i] == Patch(p[|path|..], b);
      assert path + p[|path|..] == p;
      assert Below(path, ps)[i] == Patch(p, b);
    }
  }

  /** There is one pair per binary leaf, and no other. */
  lemma {:induction false} BufsExact(t: Tree, p: Path, b: Bytes)
    requires Wf(t)
    ensures Patch(p, b) in Bufs(t) <==> p != [] && CAt(CanonOf(t), p) == Some(CBin(b))
    decreases t, 1
  {
    if t.Node? {
      BufsItemsExact(t.items, p, b);
    }
  }

  lemma {:induction false} BufsItemsExact(items: seq<Entry>, p: Path, b: Bytes)
    requires DistinctKeys(items) && WfItems(items)
    ensures Patch(p, b) in BufsItems(items) <==>
            p != [] && p[0] in CanonItems(items) && CAt(CanonItems(items)[p[0]], p[1..]) == Some(CBin(b))
    decreases items, 0
  {
    if items != [] {
      var n := |items| - 1;
      var last := items[n];
      assert (items decreases to last) && (last decreases to last.val);
      BufsItemsExact(items[..n], p, b);
      if p != [] && p[0] == last.key {
        CanonKeys(items[..n], p[0]);
        assert p[0] !in CanonItems(items[..n]);
        assert [last.key] <= p;
      }
      BufsExact(last.val, p[if p == [] then 0 else 1..], b);
      BelowIn([last.key], Bufs(last.val), p, b);
      if last.val.Bin? && p != [] && p[0] == last.key && p[1..] == [] {
        assert p == [last.key];
      }
    }
  }

  /** Neither path leads through the other. */
  predicate Apart(p: Path, q: Path) {
    !(p <= q) && !(q <= p)
  }

  ghost predicate AllApart(ps: seq<Patch>) {
    forall i, j :: 0 <= i < |ps| && 0 <= j < |ps| && i != j ==> Apart(ps[i].path, ps[j].path)
  }

  lemma {:induction false} BelowApart(key: Key, ps: seq<Patch>)
    requires AllApart(ps)
    ensures AllApart(Below([key], ps))
  {
    var qs := Below([key], ps);
    forall i, j | 0 <= i < |qs| && 0 <= j < |qs| && i != j
      ensures Apart(qs[i].path, qs[j].path)
    {
      assert Apart(ps[i].path, ps[j].path);
      assert ps[i].path == qs[i].path[1..] && ps[j].path == qs[j].path[1..];
    }
  }

  /** The paths that come out of a split are pairwise independent. */
  lemma {:induction false} BufsApart(t: Tree)
    requires Wf(t)
    ensures AllApart(Bufs(t))
    decreases t, 1
  {
    if t.Node? {
      BufsItemsApart(t.items);
    }
  }

  /** Every path out of the items starts with the key of one of them. */
  ghost predicate Within(items: seq<Entry>, ps: seq<Patch>) {
    forall p :: p in ps ==> p.path != [] && exists i :: 0 <= i < |items| && items[i].key == p.path[0]
  }

  lemma {:induction false} ApartAppend(ps: seq<Patch>, qs: seq<Patch>)
    requires AllApart(ps) && AllApart(qs) && forall p, q :: p in ps && q in qs ==> Apart(p.path, q.path)
    ensures AllApart(ps + qs)
  {}

  lemma {:induction false} WithinSnoc(items: seq<Entry>, ps: seq<Patch>, e: Entry, qs: seq<Patch>)
    requires Within(items, ps) && forall q :: q in qs ==> q.path != [] && q.path[0] == e.key
    ensures Within(items + [e], ps + qs)
  {
    forall p | p in ps + qs
      ensures p.path != [] && exists i :: 0 <= i < |items + [e]| && (items + [e])[i].key == p.path[0]
    {
      if p in ps {
        var i :| 0 <= i < |items| && items[i].key == p.path[0];
        assert (items + [e])[i].key == p.path[0];
      } else {
        assert (items + [e])[|items|].key == p.path[0];
      }
    }
  }

  lemma {:induction false} BufsItemsApart(items: seq<Entry>)
    requires DistinctKeys(items) && WfItems(items)
    ensures AllApart(BufsItems(items)) && Within(items, BufsItems(items))
    decreases items, 0
  {
    if items != [] {
      var init, last := items[..|items| - 1], items[|items| - 1];
      assert (items decreases to last) && (last decreases to last.val);
      assert items == init + [last];
      BufsItemsApart(init);
      BufsApart(last.val);
      BelowApart(last.key, Bufs(last.val));
      forall p, q | p in BufsItems(init) && q in BufsEntry(last)
        ensures Apart(p.path, q.path)
      {
        assert q.path[0] == last.key && p.path[0] != last.key;
      }
      ApartAppend(BufsItems(init), BufsEntry(last));
      WithinSnoc(init, BufsItems(init), last, BufsEntry(last));
    }
  }

  // ---------------------------------------------------------------------
  // Putting back
  // ---------------------------------------------------------------------

  /** Store b at the path; None when a key is missing, or the path is empty or runs through a leaf. */
  function PutC(c: Canon, path: Path, b: Bytes): Option<Canon>
    decreases path
  {
    if path == [] || !c.CNode? then None
    else if |path| == 1 then
      if c.kind.ListK? && path[0] !in c.m then None else Some(CNode(c.kind, c.m[path[0] := CBin(b)]))
    else if path[0] !in c.m then None
    else
      match PutC(c.m[path[0]], path[1..], b)
      case None => None
      case Some(d) => Some(CNode(c.kind, c.m[path[0] := d]))
  }

  function PutAllC(c: Canon, ps: seq<Patch>): Option<Canon>
    decreases |ps|
  {
    if ps == [] then Some(c)
    else
      match PutC(c, ps[0].path, ps[0].b)
      case None => None
      case Some(d) => PutAllC(d, ps[1..])
  }

  lemma {:induction false} PutAllAppend(c: Canon, ps: seq<Patch>, qs: seq<Patch>)
    ensures PutAllC(c, ps + qs) == match PutAllC(c, ps) case None => None case Some(d) => PutAllC(d, qs)
    decreases |ps|
  {
    if ps == [] {
      assert ps + qs == qs;
    } else {
      assert (ps + qs)[1..] == ps[1..] + qs;
      match PutC(c, ps[0].path, ps[0].b)
      case None =>
      case Some(d) => PutAllAppend(d, ps[1..], qs);
    }
  }

  /** A store needs a container above the last key, and in a list the last key too. */
  predicate Storable(c: Canon, path: Path) {
    path != [] &&
    var up := CAt(c, path[..|path| - 1]);
    up.Some? && up.value.CNode? && (up.value.kind.ListK? ==> path[|path| - 1] in up.value.m)
  }

  /** Nothing but what the path leads to has changed. */
  predicate OnlyAt(before: Canon, path: Path, after: Canon, q: Path) {
    !(path <= q) ==>
      if q < path then
        CAt(before, q).Some? && CAt(after, q).Some? && CAt(before, q).value.CNode? && CAt(after, q).value.CNode?
        && CAt(after, q).value.kind == CAt(before, q).value.kind
      else CAt(after, q) == CAt(before, q)
  }

  /** When a store succeeds; then the buffer is at the end of the path, and everything off it is as before. */
  lemma {:induction false} PutExactly(c: Canon, path: Path, b: Bytes, q: Path)
    ensures PutC(c, path, b).Some? <==> Storable(c, path)
    ensures PutC(c, path, b).Some? ==>
              CAt(PutC(c, path, b).value, path) == Some(CBin(b)) && OnlyAt(c, path, PutC(c, path, b).value, q)
    decreases |path|
  {
    if path != [] && c.CNode? {
      if |path| == 1 {
        assert path[..0] == [] && path[1..] == [];
        assert q != [] && q[0] == path[0] ==> path <= q;
      } else {
        assert path[..|path| - 1][1..] == path[1..][..|path| - 2];
        if path[0] in c.m {
          var q' := if q == [] then [] else q[1..];
          PutExactly(c.m[path[0]], path[1..], b, q');
          if q != [] && q[0] == path[0] {
            assert q == [path[0]] + q' && path == [path[0]] + path[1..];
            assert path <= q <==> path[1..] <= q';
            assert q < path <==> q' < path[1..];
          }
        }
      }
    }
  }

  /** after is before with b stored at the path, and is so in nothing else. */
  ghost predicate Stored(before: Canon, path: Path, b: Bytes, after: Canon) {
    Storable(before, path) && CAt(after, path) == Some(CBin(b)) && forall q: Path :: OnlyAt(before, path, after, q)
  }

  lemma {:induction false} StoredExactly(c: Canon, path: Path, b: Bytes, d: Canon)
    ensures PutC(c, path, b) == Some(d) <==> Stored(c, path, b, d)
    decreases |path|
  {
    forall q: Path
      ensures PutC(c, path, b) == Some(d) ==> OnlyAt(c, path, d, q)
    {
      PutExactly(c, path, b, q);
    }
    PutExactly(c, path, b, []);
    if Stored(c, path, b, d) {
      StoredAgain(c, path, b, d);
    }
  }

  lemma {:induction false} CAtKey(c: Canon, k: Key)
    ensures CAt(c, [k]) == if c.CNode? && k in c.m then Some(c.m[k]) else None
  {
    assert [k][1..] == [];
  }

  lemma {:induction false} StoredAgain(c: Canon, path: Path, b: Bytes, d: Canon)
    requires Stored(c, path, b, d)
    ensures PutC(c, path, b) == Some(d)
    decreases |path|, 0
  {
    var k, rest := path[0], path[1..];
    PutExactly(c, path, b, []);
    assert [] < path && OnlyAt(c, path, d, []);
    assert CAt(d, path) == CAt(d.m[k], rest);
    forall l: Key | l != k
      ensures l in d.m <==> l in c.m
      ensures l in d.m ==> d.m[l] == c.m[l]
    {
      assert OnlyAt(c, path, d, [l]);
      assert !(path <= [l]) && !([l] < path);
      CAtKey(c, l);
      CAtKey(d, l);
    }
    if |path| > 1 {
      StoredBelow(c, path, b, d);
      StoredAgain(c.m[k], rest, b, d.m[k]);
    }
    assert d.m == c.m[k := d.m[k]];
  }

  lemma {:induction false} StoredBelow(c: Canon, path: Path, b: Bytes, d: Canon)
    requires Stored(c, path, b, d) && |path| > 1 && c.CNode? && d.CNode?
    ensures path[0] in c.m && path[0] in d.m && Stored(c.m[path[0]], path[1..], b, d.m[path[0]])
  {
    var k, rest := path[0], path[1..];
    assert path[..|path| - 1][1..] == rest[..|rest| - 1];
    forall q: Path
      ensures OnlyAt(c.m[k], rest, d.m[k], q)
    {
      var q' := [k] + q;
      assert OnlyAt(c, path, d, q') && q'[1..] == q && path == [k] + rest;
      assert path <= q' <==> rest <= q;
      assert q' < path <==> q < rest;
    }
  }

  /** From one to the next, one pair after another is stored. */
  ghost predicate Steps(cs: seq<Canon>, ps: seq<Patch>): (steps: bool)
    ensures steps ==> |cs| == |ps| + 1
  {
    |cs| == |ps| + 1 && forall i :: 0 <= i < |ps| ==> Stored(cs[i], ps[i].path, ps[i].b, cs[i + 1])
  }

  lemma {:induction false} PutAllSteps(c: Canon, ps: seq<Patch>) returns (cs: seq<Canon>)
    requires PutAllC(c, ps).Some?
    ensures Steps(cs, ps) && cs[0] == c && cs[|ps|] == PutAllC(c, ps).value
    decreases |ps|
  {
    hide Stored, PutC;
    cs := [c];
    if ps != [] {
      var d := PutC(c, ps[0].path, ps[0].b).value;
      StoredExactly(c, ps[0].path, ps[0].b, d);
      var rest := PutAllSteps(d, ps[1..]);
      StepsCons(c, rest, ps);
      cs := [c] + rest;
    }
  }

  lemma {:induction false} StepsPutAll(cs: seq<Canon>, ps: seq<Patch>)
    requires Steps(cs, ps)
    ensures PutAllC(cs[0], ps) == Some(cs[|ps|])
    decreases |ps|
  {
    hide Stored, PutC;
    if ps != [] {
      StoredExactly(cs[0], ps[0].path, ps[0].b, cs[1]);
      forall i | 0 <= i < |ps| - 1
        ensures Stored(cs[1..][i], ps[1..][i].path, ps[1..][i].b, cs[1..][i + 1])
      {
        assert Stored(cs[i + 1], ps[i + 1].path, ps[i + 1].b, cs[i + 2]);
      }
      StepsPutAll(cs[1..], ps[1..]);
    }
  }

  /** Putting back succeeds exactly when each pair can be stored once those before it are. */
  lemma {:induction false} PutAllExactly(c: Canon, ps: seq<Patch>, d: Canon)
    ensures PutAllC(c, ps) == Some(d) <==> exists cs: seq<Canon> :: Steps(cs, ps) && cs[0] == c && cs[|ps|] == d
  {
    hide Steps, PutAllC;
    if PutAllC(c, ps) == Some(d) {
      var cs := PutAllSteps(c, ps);
    }
    if cs: seq<Canon> :| Steps(cs, ps) && cs[0] == c && cs[|ps|] == d {
      StepsPutAll(cs, ps);
    }
  }

  lemma {:induction false} StepsCons(c: Canon, cs: seq<Canon>, ps: seq<Patch>)
    requires ps != [] && Steps(cs, ps[1..]) && Stored(c, ps[0].path, ps[0].b, cs[0])
    ensures Steps([c] + cs, ps)
  {
    var all := [c] + cs;
    forall i | 0 <= i < |ps|
      ensures Stored(all[i], ps[i].path, ps[i].b, all[i + 1])
    {
      if i > 0 {
        assert Stored(cs[i - 1], ps[1..][i - 1].path, ps[1..][i - 1].b, cs[i]);
      }
    }
  }

  function PutTwo(c: Canon, p: Patch, q: Patch): Option<Canon> {
    match PutC(c, p.path, p.b)
    case None => None
    case Some(d) => PutC(d, q.path, q.b)
  }

  lemma {:induction false} PutAllCons(c: Canon, p: Patch, ps: seq<Patch>)
    ensures PutAllC(c, [p] + ps) == match PutC(c, p.path, p.b) case None => None case Some(d) => PutAllC(d, ps)
  {
    assert ([p] + ps)[1..] == ps;
  }

  lemma {:induction false} PutAllTwo(c: Canon, p: Patch, q: Patch)
    ensures PutAllC(c, [p, q]) == PutTwo(c, p, q)
  {
    PutAllCons(c, p, [q]);
    assert [p] + [q] == [p, q];
    match PutC(c, p.path, p.b)
    case None =>
    case Some(d) =>
      PutAllCons(d, q, []);
      assert [q] + [] == [q];
  }

  /** Two independent stores commute, failures included. */
  lemma {:induction false} PutSwap(c: Canon, p: Patch, q: Patch)
    requires Apart(p.path, q.path)
    ensures PutTwo(c, p, q) == PutTwo(c, q, p)
    decreases p.path
  {
    assert p.path != [] && q.path != [];
    var k, l := p.path[0], q.path[0];
    if c.CNode? && k == l {
      var p', q' := Patch(p.path[1..], p.b), Patch(q.path[1..], q.b);
      assert p.path == [k] + p'.path && q.path == [k] + q'.path;
      assert Apart(p'.path, q'.path);
      if k in c.m {
        PutSwap(c.m[k], p', q');
        PutTwice(c, k, p', q');
        PutTwice(c, k, q', p');
      }
    } else if c.CNode? {
      PutElsewhere(c, p, q);
      PutElsewhere(c, q, p);
      var r, r' := PutC(c, p.path, p.b), PutC(c, q.path, q.b);
      if r.Some? && r'.Some? {
        assert c.m[k := r.value.m[k]][l := r'.value.m[l]] == c.m[l := r'.value.m[l]][k := r.value.m[k]];
      }
    }
  }

  lemma {:induction false} PutTwice(c: Canon, k: Key, p: Patch, q: Patch)
    requires c.CNode? && k in c.m && p.path != [] && q.path != []
    ensures PutTwo(c, Patch([k] + p.path, p.b), Patch([k] + q.path, q.b)) ==
            match PutTwo(c.m[k], p, q) case None => None case Some(d) => Some(CNode(c.kind, c.m[k := d]))
  {
    var p', q' := Patch([k] + p.path, p.b), Patch([k] + q.path, q.b);
    assert p'.path[1..] == p.path && q'.path[1..] == q.path;
    match PutC(c.m[k], p.path, p.b)
    case None =>
    case Some(d) =>
      match PutC(d, q.path, q.b)
      case None =>
      case Some(e) => assert c.m[k := d][k := e] == c.m[k := e];
  }

  /** A store below one key does not see, nor touch, what is below another. */
  lemma {:induction false} PutElsewhere(c: Canon, p: Patch, q: Patch)
    requires c.CNode? && p.path != [] && q.path != [] && p.path[0] != q.path[0]
    ensures PutC(c, p.path, p.b).Some? ==>
              var d := PutC(c, p.path, p.b).value;
              && d.CNode? && d.kind == c.kind && p.path[0] in d.m && d.m == c.m[p.path[0] := d.m[p.path[0]]]
              && PutC(d, q.path, q.b).Some? == PutC(c, q.path, q.b).Some?
              && (PutC(c, q.path, q.b).Some? ==>
                    var e := PutC(c, q.path, q.b).value;
                    && e.CNode? && e.kind == c.kind && q.path[0] in e.m
                    && PutC(d, q.path, q.b).value == CNode(c.kind, d.m[q.path[0] := e.m[q.path[0]]]))
  {
  }

  /** A store that is independent of those before it can be made first. */
  lemma {:induction false} MoveToFront(c: Canon, pre: seq<Patch>, p: Patch, post: seq<Patch>)
    requires forall i :: 0 <= i < |pre| ==> Apart(pre[i].path, p.path)
    ensures PutAllC(c, pre + ([p] + post)) == PutAllC(c, [p] + (pre + post))
    decreases |pre|
  {
    if pre == [] {
      assert pre + ([p] + post) == [p] + post && pre + post == post;
    } else {
      var init, a := pre[..|pre| - 1], pre[|pre| - 1];
      assert pre == init + [a];
      Assoc(init, [a], [p] + post);
      assert [a] + ([p] + post) == [a, p] + post && [p] + ([a] + post) == [p, a] + post;
      SwapInside(c, init, a, p, post);
      MoveToFront(c, init, p, [a] + post);
      Assoc(init, [a], post);
    }
  }

  lemma {:induction false} AnyFirst(c: Canon, qs: seq<Patch>, j: nat)
    requires AllApart(qs) && j < |qs|
    ensures PutAllC(c, qs) == PutAllC(c, [qs[j]] + (qs[..j] + qs[j + 1..]))
  {
    assert forall i :: 0 <= i < j ==> Apart(qs[i].path, qs[j].path);
    MoveToFront(c, qs[..j], qs[j], qs[j + 1..]);
    assert qs == qs[..j] + ([qs[j]] + qs[j + 1..]);
  }

  lemma {:induction false} SwapInside(c: Canon, pre: seq<Patch>, a: Patch, b: Patch, post: seq<Patch>)
    requires Apart(a.path, b.path)
    ensures PutAllC(c, pre + ([a, b] + post)) == PutAllC(c, pre + ([b, a] + post))
  {
    PutAllAppend(c, pre, [a, b] + post);
    PutAllAppend(c, pre, [b, a] + post);
    match PutAllC(c, pre)
    case None =>
    case Some(d) =>
      PutAllAppend(d, [a, b], post);
      PutAllAppend(d, [b, a], post);
      PutAllTwo(d, a, b);
      PutAllTwo(d, b, a);
      PutSwap(d, a, b);
  }

  lemma {:induction false} ApartOnce(ps: seq<Patch>, i: nat)
    requires AllApart(ps) && i < |ps|
    ensures multiset(ps)[ps[i]] == 1
  {
    var rest := ps[..i] + ps[i + 1..];
    forall j | 0 <= j < |rest|
      ensures rest[j] != ps[i]
    {
      assert Apart(ps[if j < i then j else j + 1].path, ps[i].path);
    }
    assert ps == ps[..i] + [ps[i]] + ps[i + 1..];
    assert multiset(ps) == multiset(rest) + multiset{ps[i]};
    assert ps[i] !in rest;
  }

  lemma {:induction false} TwiceIn<T>(s: seq<T>, i: nat, j: nat)
    requires i < j < |s| && s[i] == s[j]
    ensures multiset(s)[s[i]] >= 2
  {
    assert s == s[..i] + [s[i]] + s[i + 1..j] + [s[j]] + s[j + 1..];
  }

  lemma {:induction false} PermutedApart(ps: seq<Patch>, qs: seq<Patch>)
    requires AllApart(ps) && multiset(ps) == multiset(qs)
    ensures AllApart(qs)
  {
    forall i, j | 0 <= i < j < |qs|
      ensures Apart(qs[i].path, qs[j].path)
    {
      assert qs[i] in multiset(ps) && qs[j] in multiset(ps);
      var i' :| 0 <= i' < |ps| && ps[i'] == qs[i];
      var j' :| 0 <= j' < |ps| && ps[j'] == qs[j];
      ApartOnce(ps, i');
      if qs[i] == qs[j] {
        TwiceIn(qs, i, j);
      }
    }
  }

  /** Independent stores give the same result in any order. */
  lemma {:induction false} PutPermuted(c: Canon, ps: seq<Patch>, qs: seq<Patch>)
    requires AllApart(ps) && multiset(ps) == multiset(qs)
    ensures PutAllC(c, ps) == PutAllC(c, qs)
    decreases |ps|
  {
    PermutedApart(ps, qs);
    if ps == [] {
      assert |multiset(qs)| == 0;
    } else {
      assert ps[0] in multiset(qs);
      var j :| 0 <= j < |qs| && qs[j] == ps[0];
      var rest := qs[..j] + qs[j + 1..];
      AnyFirst(c, qs, j);
      Removed(ps, qs, j);
      PutAllCons(c, qs[j], rest);
      match PutC(c, ps[0].path, ps[0].b)
      case None =>
      case Some(d) => PutPermuted(d, ps[1..], rest);
    }
  }

  lemma {:induction false} Removed<T>(s: seq<T>, t: seq<T>, j: nat)
    requires s != [] && j < |t| && t[j] == s[0] && multiset(s) == multiset(t)
    ensures multiset(s[1..]) == multiset(t[..j] + t[j + 1..])
  {
    assert t == t[..j] + [t[j]] + t[j + 1..];
    assert s == [s[0]] + s[1..];
    assert multiset(s[1..]) == multiset(s) - multiset{s[0]};
  }

  // ---------------------------------------------------------------------
  // Splitting, then putting back
  // ---------------------------------------------------------------------

  /** Strip, on canonical forms. */
  function CStrip(c: Canon): Canon {
    match c
    case CNode(kind, m) =>
      CNode(kind, map k | k in m && !(kind.DictK? && m[k].CBin?) :: if m[k].CBin? then CLeaf(PyNone) else CStrip(m[k]))
    case _ => c
  }

  lemma {:induction false} CanonAppend(items: seq<Entry>, more: seq<Entry>)
    ensures CanonItems(items + more) == CanonItems(items) + CanonItems(more)
  {
    if more == [] {
      assert items + more == items;
    } else {
      var n := |more| - 1;
      CanonAppend(items, more[..n]);
      assert (items + more)[..|items + more| - 1] == items + more[..n];
    }
  }

  /** What a split leaves depends on the state only up to dict order. */
  lemma {:induction false} CanonStrip(t: Tree)
    requires Wf(t)
    ensures CanonOf(Strip(t)) == CStrip(CanonOf(t))
    decreases t, 1
  {
    if t.Node? {
      CanonStripItems(t.kind, t.items);
    }
  }

  lemma {:induction false} CanonStripItems(kind: Kind, items: seq<Entry>)
    requires DistinctKeys(items) && WfItems(items)
    ensures CanonItems(StripItems(kind, items)) == CStrip(CNode(kind, CanonItems(items))).m
    decreases items, 0
  {
    if items != [] {
      var init, last := items[..|items| - 1], items[|items| - 1];
      assert (items decreases to last) && (last decreases to last.val);
      CanonStripItems(kind, init);
      CanonStrip(last.val);
      CanonKeys(init, last.key);
      CanonStripSnoc(kind, init, last);
    }
  }

  lemma {:induction false} CanonStripSnoc(kind: Kind, items: seq<Entry>, e: Entry)
    requires CanonItems(StripItems(kind, items)) == CStrip(CNode(kind, CanonItems(items))).m
    requires CanonOf(Strip(e.val)) == CStrip(CanonOf(e.val)) && e.key !in CanonItems(items)
    ensures CanonItems(StripItems(kind, items) + StripEntry(kind, e)) ==
            CStrip(CNode(kind, CanonItems(items)[e.key := CanonOf(e.val)])).m
  {
    CanonAppend(StripItems(kind, items), StripEntry(kind, e));
    CanonSingle(StripEntry(kind, e));
    CStripInsert(kind, CanonItems(items), e.key, CanonOf(e.val));
  }

  lemma {:induction false} CanonSingle(items: seq<Entry>)
    requires |items| <= 1
    ensures CanonItems(items) == if items == [] then map[] else map[items[0].key := CanonOf(items[0].val)]
  {
    if items != [] {
      assert items[..0] == [];
    }
  }

  lemma {:induction false} CStripInsert(kind: Kind, m: map<Key, Canon>, k: Key, c: Canon)
    requires k !in m
    ensures CStrip(CNode(kind, m[k := c])).m ==
            CStrip(CNode(kind, m)).m +
            if !c.CBin? then map[k := CStrip(c)] else if kind.ListK? then map[k := CLeaf(PyNone)] else map[]
  {
  }

  /** What a split leaves at a path, by what stood there and, for a binary, what held it. */
  predicate LeftAt(before: Canon, p: Path, after: Canon) {
    match CAt(before, p)
    case None => CAt(after, p).None?
    case Some(CLeaf(a)) => CAt(after, p) == Some(CLeaf(a))
    case Some(CNode(kind, _)) => CAt(after, p).Some? && CAt(after, p).value.CNode? && CAt(after, p).value.kind == kind
    case Some(CBin(_)) =>
      p != [] && CAt(before, p[..|p| - 1]).Some? && CAt(before, p[..|p| - 1]).value.CNode? &&
      CAt(after, p) == if CAt(before, p[..|p| - 1]).value.kind.ListK? then Some(CLeaf(PyNone)) else None
  }

  lemma {:induction false} CStripAt(c: Canon, p: Path)
    requires !c.CBin?
    ensures LeftAt(c, p, CStrip(c))
    decreases |p|
  {
    if p != [] && c.CNode? && p[0] in c.m {
      var d, q := c.m[p[0]], p[1..];
      if d.CBin? {
        assert CAt(c, p) == CAt(d, q);
        if q == [] {
          assert p[..|p| - 1] == [];
        }
      } else {
        CStripAt(d, q);
        assert CAt(c, p) == CAt(d, q) && CAt(CStrip(c), p) == CAt(CStrip(d), q);
        if q != [] {
          assert p[..|p| - 1][1..] == q[..|q| - 1];
        }
      }
    }
  }

  /** Path by path: a binary in a list gives way to None, a binary in a dict is gone, all else stays. */
  lemma {:induction false} StripExactly(t: Tree, p: Path)
    requires Wf(t) && !t.Bin?
    ensures LeftAt(CanonOf(t), p, CanonOf(Strip(t)))
  {
    CanonStrip(t);
    CStripAt(CanonOf(t), p);
  }

  /** A stripped state holds no binary. */
  lemma {:induction false} CStripNoBinary(c: Canon, p: Path, b: Bytes)
    requires !c.CBin?
    ensures CAt(CStrip(c), p) != Some(CBin(b))
    decreases p
  {
    if p != [] && c.CNode? && p[0] in CStrip(c).m && !c.m[p[0]].CBin? {
      CStripNoBinary(c.m[p[0]], p[1..], b);
    }
  }

  lemma {:induction false} PutBelow(kind: Kind, m: map<Key, Canon>, k: Key, ps: seq<Patch>)
    requires k in m && PutAllC(m[k], ps).Some? && forall i :: 0 <= i < |ps| ==> ps[i].path != []
    ensures PutAllC(CNode(kind, m), Below([k], ps)) == Some(CNode(kind, m[k := PutAllC(m[k], ps).value]))
    decreases |ps|
  {
    var qs := Below([k], ps);
    if ps == [] {
      assert m[k := m[k]] == m;
    } else {
      var d := PutC(m[k], ps[0].path, ps[0].b).value;
      assert qs[0].path[1..] == ps[0].path && |qs[0].path| >= 2;
      assert qs[1..] == Below([k], ps[1..]);
      PutBelow(kind, m[k := d], k, ps[1..]);
      var e := PutAllC(d, ps[1..]).value;
      assert m[k := d][k := e] == m[k := e];
    }
  }

  /** Putting the split binaries back gives the state that was split. */
  lemma {:induction false} RoundTrip(t: Tree)
    requires Wf(t)
    ensures PutAllC(CanonOf(Strip(t)), Bufs(t)) == Some(CanonOf(t))
    decreases t, 1
  {
    if t.Node? {
      var base := CStrip(CanonOf(t)).m;
      CanonStrip(t);
      forall i | 0 <= i < |t.items|
        ensures Ready(t.kind, t.items[i], base)
      {
        CanonEntry(t.items, i);
        CanonStrip(t.items[i].val);
      }
      RoundTripItems(t.kind, t.items, base);
      assert base + CanonItems(t.items) == CanonItems(t.items);
    }
  }

  /** The base holds what the split left of e. */
  ghost predicate Ready(kind: Kind, e: Entry, base: map<Key, Canon>) {
    if e.val.Bin? then kind.ListK? ==> e.key in base
    else e.key in base && base[e.key] == CanonOf(Strip(e.val))
  }

  lemma {:induction false} RoundTripItems(kind: Kind, items: seq<Entry>, base: map<Key, Canon>)
    requires DistinctKeys(items) && WfItems(items)
    requires forall i :: 0 <= i < |items| ==> Ready(kind, items[i], base)
    ensures PutAllC(CNode(kind, base), BufsItems(items)) == Some(CNode(kind, base + CanonItems(items)))
    decreases items, 0
  {
    if items == [] {
      assert base + map[] == base;
    } else {
      var n := |items| - 1;
      var last := items[n];
      assert (items decreases to last) && (last decreases to last.val);
      var before := CanonItems(items[..n]);
      RoundTripItems(kind, items[..n], base);
      CanonKeys(items[..n], last.key);
      ReadyAfter(kind, last, base, before);
      PutAllAppend(CNode(kind, base), BufsItems(items[..n]), BufsEntry(last));
      if !last.val.Bin? {
        RoundTrip(last.val);
      }
      PutEntry(kind, last, base + before);
      MergeUpdate(base, before, last.key, CanonOf(last.val));
    }
  }

  lemma {:induction false} ReadyAfter(kind: Kind, e: Entry, base: map<Key, Canon>, before: map<Key, Canon>)
    requires Ready(kind, e, base) && e.key !in before
    ensures Ready(kind, e, base + before)
  {}

  lemma {:induction false} MergeUpdate<K, V>(a: map<K, V>, b: map<K, V>, k: K, v: V)
    ensures (a + b)[k := v] == a + b[k := v]
  {}

  lemma {:induction false} PutEntry(kind: Kind, e: Entry, base: map<Key, Canon>)
    requires Wf(e.val) && Ready(kind, e, base)
    requires !e.val.Bin? ==> PutAllC(CanonOf(Strip(e.val)), Bufs(e.val)) == Some(CanonOf(e.val))
    ensures PutAllC(CNode(kind, base), BufsEntry(e)) == Some(CNode(kind, base[e.key := CanonOf(e.val)]))
  {
    if e.val.Bin? {
      PutAllCons(CNode(kind, base), Patch([e.key], e.val.b), []);
    } else {
      BufsItemsNonEmpty(e.val);
      PutBelow(kind, base, e.key, Bufs(e.val));
    }
  }

  lemma {:induction false} BufsItemsNonEmpty(t: Tree)
    requires Wf(t)
    ensures forall i :: 0 <= i < |Bufs(t)| ==> Bufs(t)[i].path != []
  {
    if t.Node? {
      BufsItemsApart(t.items);
    }
  }

  // ---------------------------------------------------------------------
  // One more item
  // ---------------------------------------------------------------------

  lemma {:induction false} BufsSnoc(items: seq<Entry>, e: Entry)
    ensures BufsItems(items + [e]) == BufsItems(items) + BufsEntry(e)
  {
    assert (items + [e])[..|items|] == items;
  }

  lemma {:induction false} StripKeys(kind: Kind, items: seq<Entry>, j: nat)
    requires j < |StripItems(kind, items)|
    ensures exists i :: 0 <= i < |items| && items[i].key == StripItems(kind, items)[j].key
    decreases |items|
  {
    var n := |items| - 1;
    if j < |StripItems(kind, items[..n])| {
      StripKeys(kind, items[..n], j);
      var i :| 0 <= i < n && items[..n][i].key == StripItems(kind, items[..n])[j].key;
      assert items[i].key == StripItems(kind, items)[j].key;
    } else {
      assert items[n].key == StripItems(kind, items)[j].key;
    }
  }

  lemma {:induction false} BelowBelow(p: Path, q: Path, ps: seq<Patch>)
    ensures Below(p, Below(q, ps)) == Below(p + q, ps)
  {
    assert forall i :: 0 <= i < |ps| ==> p + (q + ps[i].path) == p + q + ps[i].path;
  }

  lemma {:induction false} BelowAppend(p: Path, ps: seq<Patch>, qs: seq<Patch>)
    ensures Below(p, ps + qs) == Below(p, ps) + Below(p, qs)
  {}

  /** A state that holds no binary is left as it is. */
  lemma {:induction false} StripNothing(t: Tree)
    requires Bufs(t) == []
    ensures Strip(t) == t
    decreases t, 1
  {
    if t.Node? {
      StripNothingItems(t.kind, t.items);
    }
  }

  lemma {:induction false} StripNothingItems(kind: Kind, items: seq<Entry>)
    requires BufsItems(items) == []
    ensures StripItems(kind, items) == items
    decreases items, 0
  {
    if items != [] {
      var n := |items| - 1;
      assert (items decreases to items[n]) && (items[n] decreases to items[n].val);
      StripNothingItems(kind, items[..n]);
      assert |Below([items[n].key], Bufs(items[n].val))| == |Bufs(items[n].val)|;
      if !items[n].val.Bin? {
        StripNothing(items[n].val);
      }
      assert items == items[..n] + [items[n]];
    }
  }

  lemma {:induction false} Assoc<T>(a: seq<T>, b: seq<T>, c: seq<T>)
    ensures a + (b + c) == a + b + c
  {}

  lemma {:induction false} NothingMore<T>(a: seq<T>)
    ensures a + [] == a
  {}

  lemma {:induction false} BelowOne(p: Path, q: Path, b: Bytes)
    ensures Below(p, [Patch(q, b)]) == [Patch(p + q, b)]
    ensures Below(p, []) == []
  {}

  // ---------------------------------------------------------------------
  // Putting back, in order
  // ---------------------------------------------------------------------

  /** The position of key, or the number of entries when it is missing. */
  function EntryAt(items: seq<Entry>, key: Key): (i: nat)
    ensures i <= |items|
    ensures i < |items| ==> items[i].key == key
    ensures forall j :: 0 <= j < i ==> items[j].key != key
  {
    if items == [] || items[0].key == key then 0 else 1 + EntryAt(items[1..], key)
  }

  /** A present key keeps its place, a missing one goes last. */
  function SetEntry(items: seq<Entry>, key: Key, t: Tree): seq<Entry> {
    var i := EntryAt(items, key);
    if i < |items| then items[i := Entry(key, t)] else items + [Entry(key, t)]
  }

  function PutT(t: Tree, path: Path, b: Bytes): Option<Tree>
    decreases path
  {
    if path == [] || !t.Node? then None
    else
      var i := EntryAt(t.items, path[0]);
      if |path| == 1 then
        if t.kind.ListK? && i == |t.items| then None else Some(Node(t.kind, SetEntry(t.items, path[0], Bin(b))))
      else if i == |t.items| then None
      else
        match PutT(t.items[i].val, path[1..], b)
        case None => None
        case Some(u) => Some(Node(t.kind, SetEntry(t.items, path[0], u)))
  }

  function PutAllT(t: Tree, ps: seq<Patch>): Option<Tree>
    decreases |ps|
  {
    if ps == [] then Some(t)
    else
      match PutT(t, ps[0].path, ps[0].b)
      case None => None
      case Some(u) => PutAllT(u, ps[1..])
  }

  lemma {:induction false} CanonUpdate(items: seq<Entry>, i: nat, t: Tree)
    requires DistinctKeys(items) && i < |items|
    ensures CanonItems(items[i := Entry(items[i].key, t)]) == CanonItems(items)[items[i].key := CanonOf(t)]
    decreases |items|
  {
    var n := |items| - 1;
    var items' := items[i := Entry(items[i].key, t)];
    if i == n {
      assert items'[..n] == items[..n];
    } else {
      assert items'[..n] == items[..n][i := Entry(items[i].key, t)];
      CanonUpdate(items[..n], i, t);
      assert items[i].key != items[n].key;
    }
  }

  lemma {:induction false} SetDistinct(items: seq<Entry>, key: Key, t: Tree)
    requires DistinctKeys(items)
    ensures DistinctKeys(SetEntry(items, key, t))
  {
    var i := EntryAt(items, key);
    assert i < |items| ==> items[i].key == key;
  }

  lemma {:induction false} CanonSnoc(items: seq<Entry>, e: Entry)
    ensures CanonItems(items + [e]) == CanonItems(items)[e.key := CanonOf(e.val)]
  {
    assert (items + [e])[..|items|] == items;
  }

  lemma {:induction false} CanonSet(items: seq<Entry>, key: Key, t: Tree)
    requires DistinctKeys(items)
    ensures CanonItems(SetEntry(items, key, t)) == CanonItems(items)[key := CanonOf(t)]
    ensures DistinctKeys(SetEntry(items, key, t))
  {
    SetDistinct(items, key, t);
    if EntryAt(items, key) < |items| {
      CanonUpdate(items, EntryAt(items, key), t);
    } else {
      CanonSnoc(items, Entry(key, t));
    }
  }

  lemma {:induction false} CanonHas(items: seq<Entry>, key: Key)
    requires DistinctKeys(items)
    ensures key in CanonItems(items) <==> EntryAt(items, key) < |items|
    ensures key in CanonItems(items) ==> CanonItems(items)[key] == CanonOf(items[EntryAt(items, key)].val)
  {
    CanonKeys(items, key);
    if EntryAt(items, key) < |items| {
      CanonEntry(items, EntryAt(items, key));
    }
  }

  lemma {:induction false} StoredWf(t: Tree, key: Key, u: Tree)
    requires Wf(t) && t.Node? && Wf(u) && (t.kind.ListK? ==> EntryAt(t.items, key) < |t.items|)
    ensures Wf(Node(t.kind, SetEntry(t.items, key, u)))
    ensures CanonOf(Node(t.kind, SetEntry(t.items, key, u))) == CNode(t.kind, CanonItems(t.items)[key := CanonOf(u)])
  {
    CanonSet(t.items, key, u);
  }

  /** Storing into an ordered state is storing into its canonical form. */
  lemma {:induction false} CanonPut(t: Tree, path: Path, b: Bytes)
    requires Wf(t)
    ensures PutT(t, path, b).Some? <==> PutC(CanonOf(t), path, b).Some?
    ensures PutT(t, path, b).Some? ==>
              Wf(PutT(t, path, b).value) && CanonOf(PutT(t, path, b).value) == PutC(CanonOf(t), path, b).value
    decreases path
  {
    if path != [] && t.Node? {
      var i := EntryAt(t.items, path[0]);
      CanonHas(t.items, path[0]);
      if |path| == 1 && (t.kind.DictK? || i < |t.items|) {
        StoredWf(t, path[0], Bin(b));
      } else if |path| > 1 && i < |t.items| {
        CanonPut(t.items[i].val, path[1..], b);
        var r := PutT(t.items[i].val, path[1..], b);
        if r.Some? {
          StoredWf(t, path[0], r.value);
        }
      }
    }
  }

  lemma {:induction false} CanonPutAll(t: Tree, ps: seq<Patch>)
    requires Wf(t)
    ensures PutAllT(t, ps).Some? <==> PutAllC(CanonOf(t), ps).Some?
    ensures PutAllT(t, ps).Some? ==>
              Wf(PutAllT(t, ps).value) && CanonOf(PutAllT(t, ps).value) == PutAllC(CanonOf(t), ps).value
    decreases |ps|
  {
    if ps != [] {
      CanonPut(t, ps[0].path, ps[0].b);
      var r := PutT(t, ps[0].path, ps[0].b);
      if r.Some? {
        CanonPutAll(r.value, ps[1..]);
      }
    }
  }

  lemma {:induction false} StripWf(t: Tree)
    requires Wf(t)
    ensures Wf(Strip(t))
    decreases t, 1
  {
    if t.Node? {
      StripItemsWf(t.kind, t.items);
      forall i, j | 0 <= i < j < |StripItems(t.kind, t.items)|
        ensures StripItems(t.kind, t.items)[i].key != StripItems(t.kind, t.items)[j].key
      {
        StripKeysApart(t.kind, t.items, i, j);
      }
    }
  }

  lemma {:induction false} StripItemsWf(kind: Kind, items: seq<Entry>)
    requires WfItems(items)
    ensures WfItems(StripItems(kind, items))
    ensures kind.ListK? && (forall i :: 0 <= i < |items| ==> items[i].key == Idx(i)) ==>
              |StripItems(kind, items)| == |items| &&
              forall i :: 0 <= i < |items| ==> StripItems(kind, items)[i].key == Idx(i)
    decreases items, 0
  {
    if items != [] {
      var n := |items| - 1;
      assert (items decreases to items[n]) && (items[n] decreases to items[n].val);
      StripItemsWf(kind, items[..n]);
      StripWf(items[n].val);
    }
  }

  lemma {:induction false} StripKeysApart(kind: Kind, items: seq<Entry>, i: nat, j: nat)
    requires DistinctKeys(items) && i < j < |StripItems(kind, items)|
    ensures StripItems(kind, items)[i].key != StripItems(kind, items)[j].key
    decreases |items|
  {
    var n := |items| - 1;
    var m := |StripItems(kind, items[..n])|;
    if j < m {
      StripKeysApart(kind, items[..n], i, j);
    } else {
      StripKeys(kind, items[..n], i);
    }
  }

  /** The round trip on ordered states: equal to the original up to dict order. */
  lemma {:induction false} RoundTripT(t: Tree)
    requires Wf(t)
    ensures PutAllT(Strip(t), Bufs(t)).Some? && Wf(PutAllT(Strip(t), Bufs(t)).value)
    ensures CanonOf(PutAllT(Strip(t), Bufs(t)).value) == CanonOf(t)
  {
    StripWf(t);
    CanonPutAll(Strip(t), Bufs(t));
    RoundTrip(t);
  }
}
