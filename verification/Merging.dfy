/**
 * Putting buffers back into a state, in place on the heap.
 *
 * On any heap the stores are those of WriteAll. On what a split returned, every store
 * lands in a clone the split made, so the state that was split is never touched.
 */
module Merging {
  import opened Trees
  import opened Graphs
  import opened Buffers

  ghost predicate ClosedGraph(h: Graph) {
    forall o, i :: o in h && 0 <= i < |h[o]| && h[o][i].val.VRef? ==> h[o][i].val.o in h
  }

  /** Store b at the path below v; None when the path is empty, breaks off, or runs into a leaf. */
  ghost function Write(h: Graph, v: Val, path: Path, b: Bytes): Option<Graph>
    decreases path
  {
    if path == [] || !v.VRef? || v.o !in h then None
    else
      var i := Find(h[v.o], path[0]);
      if |path| == 1 then
        if v.o.kind.ListK? && i == |h[v.o]| then None else Some(h[v.o := SetItem(h[v.o], path[0], VBin(b))])
      else if i == |h[v.o]| then None
      else Write(h, h[v.o][i].val, path[1..], b)
  }

  datatype Written = Written(h: Graph, ok: bool)

  /** The stores in order, up to the first that fails. */
  ghost function WriteAll(h: Graph, v: Val, ps: seq<Patch>): Written
    decreases |ps|
  {
    if ps == [] then Written(h, true)
    else
      match Write(h, v, ps[0].path, ps[0].b)
      case None => Written(h, false)
      case Some(h1) => WriteAll(h1, v, ps[1..])
  }

  lemma {:induction false} WriteKeeps(h: Graph, v: Val, path: Path, b: Bytes)
    requires ClosedGraph(h) && Write(h, v, path, b).Some?
    ensures ClosedGraph(Write(h, v, path, b).value) && Write(h, v, path, b).value.Keys == h.Keys
    decreases path
  {
    var i := Find(h[v.o], path[0]);
    if |path| > 1 {
      WriteKeeps(h, h[v.o][i].val, path[1..], b);
    } else {
      var h': Graph := Write(h, v, path, b).value;
      var items: seq<Item> := SetItem(h[v.o], path[0], VBin(b));
      forall o: Obj, j: nat | o in h' && 0 <= j < |h'[o]| && h'[o][j].val.VRef?
        ensures h'[o][j].val.o in h'
      {
        if o == v.o {
          assert items[j].val.VRef? ==> j < |h[o]| && items[j] == h[o][j];
        }
      }
    }
  }

  /** Walk to the container that the last key of the path belongs to, and store b there. */
  method PutOne(state: Val, path: Path, b: Bytes, ghost h: Graph) returns (ok: bool)
    requires Shows(h) && ClosedGraph(h) && (state.VRef? ==> state.o in h)
    modifies h.Keys
    ensures ok <==> Write(h, state, path, b).Some?
    ensures Shows(if ok then Write(h, state, path, b).value else h)
  {
    if path == [] {
      return false;
    }
    var obj := state;
    for j := 0 to |path| - 1
      invariant Shows(h) && (obj.VRef? ==> obj.o in h)
      invariant Write(h, state, path, b) == Write(h, obj, path[j..], b)
    {
      assert path[j..][1..] == path[j + 1..];
      if !obj.VRef? {
        return false;
      }
      var i := Find(obj.o.items, path[j]);
      if i == |obj.o.items| {
        return false;
      }
      obj := obj.o.items[i].val;
    }
    var key := path[|path| - 1];
    assert path[|path| - 1..] == [key];
    if !obj.VRef? || (obj.o.kind.ListK? && Find(obj.o.items, key) == |obj.o.items|) {
      return false;
    }
    obj.o.items := SetItem(obj.o.items, key, VBin(b));
    ok := true;
  }

  /**
   * Store each buffer at its path. Lists of different lengths are noticed only once the
   * shorter one is used up, after the stores before that.
   */
  method PutBuffers(state: Val, paths: seq<Path>, buffers: seq<Bytes>, ghost h: Graph) returns (ok: bool)
    requires Shows(h) && ClosedGraph(h) && (state.VRef? ==> state.o in h)
    modifies h.Keys
    ensures WriteAll(h, state, Zip(paths, buffers)).h.Keys == h.Keys
    ensures Shows(WriteAll(h, state, Zip(paths, buffers)).h)
    ensures ok <==> WriteAll(h, state, Zip(paths, buffers)).ok && |paths| == |buffers|
  {
    ghost var h' := h;
    var i := 0;
    while i < |paths| && i < |buffers|
      invariant i <= |paths| && i <= |buffers|
      invariant Shows(h') && ClosedGraph(h') && h'.Keys == h.Keys
      invariant WriteAll(h, state, Zip(paths, buffers)) == WriteAll(h', state, Zip(paths[i..], buffers[i..]))
    {
      var stored := PutOne(state, paths[i], buffers[i], h');
      ghost var rest := Zip(paths[i..], buffers[i..]);
      assert paths[i..][1..] == paths[i + 1..] && buffers[i..][1..] == buffers[i + 1..];
      assert rest[0] == Patch(paths[i], buffers[i]) && rest[1..] == Zip(paths[i + 1..], buffers[i + 1..]);
      if !stored {
        return false;
      }
      WriteKeeps(h', state, paths[i], buffers[i]);
      h' := Write(h', state, paths[i], buffers[i]).value;
      i := i + 1;
    }
    ok := |paths| == |buffers|;
  }

  // ---------------------------------------------------------------------
  // Stores into what a split returned
  // ---------------------------------------------------------------------

  ghost function ItemAt(its: seq<SItem>, key: Key): (i: nat)
    ensures i <= |its|
    ensures i < |its| ==> its[i].key == key
    ensures forall j :: 0 <= j < i ==> its[j].key != key
  {
    if its == [] || its[0].key == key then 0 else 1 + ItemAt(its[1..], key)
  }

  /** A store that lands in a clone; None otherwise. */
  ghost function WriteS(s: Shape, path: Path, b: Bytes): Option<Shape>
    decreases path
  {
    if path == [] || s.Kept? then None
    else
      var i := ItemAt(s.items, path[0]);
      if |path| == 1 then
        if i < |s.items| then Some(Own(s.o, s.items[i := SItem(path[0], Kept(VBin(b)))]))
        else if s.o.kind.ListK? then None
        else Some(Own(s.o, s.items + [SItem(path[0], Kept(VBin(b)))]))
      else if i == |s.items| then None
      else
        match WriteS(s.items[i].shape, path[1..], b)
        case None => None
        case Some(u) => Some(Own(s.o, s.items[i := SItem(path[0], u)]))
  }

  /** What is kept lies in the input graph or holds no container; the rest are clones outside it. */
  ghost predicate Loose(g: Graph, s: Shape)
    decreases s
  {
    match s
    case Kept(v) => Denotes(g, v, StateOf(g, v))
    case Own(o, items) => o !in g && forall i :: 0 <= i < |items| ==> Loose(g, items[i].shape)
  }

  lemma {:induction false} LeanIsLoose(g: Graph, s: Shape)
    requires Lean(g, s)
    ensures Loose(g, s)
    decreases s
  {
    if s.Own? {
      forall i | 0 <= i < |s.items|
        ensures Loose(g, s.items[i].shape)
      {
        LeanIsLoose(g, s.items[i].shape);
      }
    }
  }

  lemma {:induction false} LooseDenotes(g: Graph, h: Graph, s: Shape)
    requires Built(h, s) && Loose(g, s) && forall o :: o in g ==> o in h && h[o] == g[o]
    ensures Denotes(h, ValOf(s), TreeOf(g, s))
    decreases s
  {
    match s
    case Kept(v) => DenotesMore(g, h, v, StateOf(g, v));
    case Own(o, items) =>
      forall i | 0 <= i < |items|
        ensures |TreesOf(g, items)| == |items| && TreesOf(g, items)[i] == TreeAt(g, items[i])
        ensures Denotes(h, ValOf(items[i].shape), TreeOf(g, items[i].shape))
      {
        TreesAt(g, items, i);
        LooseDenotes(g, h, items[i].shape);
      }
      if items == [] {
        assert |TreesOf(g, items)| == 0;
      } else {
        TreesAt(g, items, 0);
      }
  }

  lemma {:induction false} SameKeys(g: Graph, its: seq<SItem>, key: Key)
    ensures EntryAt(TreesOf(g, its), key) == ItemAt(its, key) == Find(ItemsOf(its), key)
    ensures |TreesOf(g, its)| == |its|
  {
    if its != [] {
      TreesAt(g, its, 0);
    }
    forall i | 0 <= i < |its|
      ensures TreesOf(g, its)[i].key == its[i].key
    {
      TreesAt(g, its, i);
    }
    SameFirst(TreesOf(g, its), its, ItemsOf(its), key);
  }

  lemma {:induction false} SameFirst(es: seq<Entry>, its: seq<SItem>, items: seq<Item>, key: Key)
    requires |es| == |its| == |items|
    requires forall i :: 0 <= i < |its| ==> es[i].key == its[i].key && items[i].key == its[i].key
    ensures EntryAt(es, key) == ItemAt(its, key) == Find(items, key)
  {
    var a, b, c := EntryAt(es, key), ItemAt(its, key), Find(items, key);
    assert b < |its| ==> es[b].key == key && items[b].key == key;
    assert a < |its| ==> its[a].key == key;
    assert c < |its| ==> its[c].key == key;
  }

  lemma {:induction false} TreesUpdate(g: Graph, its: seq<SItem>, i: nat, it: SItem)
    requires i < |its|
    ensures |TreesOf(g, its)| == |its|
    ensures TreesOf(g, its[i := it]) == TreesOf(g, its)[i := TreeAt(g, it)]
  {
    TreesAt(g, its, i);
    TreesAt(g, its[i := it], i);
    var a, b := TreesOf(g, its[i := it]), TreesOf(g, its)[i := TreeAt(g, it)];
    forall j | 0 <= j < |its|
      ensures a[j] == b[j]
    {
      TreesAt(g, its, j);
      TreesAt(g, its[i := it], j);
    }
  }

  /** On trees, such a store is PutT. */
  lemma {:induction false} WriteTree(g: Graph, s: Shape, path: Path, b: Bytes)
    requires WriteS(s, path, b).Some?
    ensures PutT(TreeOf(g, s), path, b) == Some(TreeOf(g, WriteS(s, path, b).value))
    decreases path
  {
    var i := ItemAt(s.items, path[0]);
    SameKeys(g, s.items, path[0]);
    if i == |s.items| {
      TreesSnoc(g, s.items, SItem(path[0], Kept(VBin(b))));
    } else {
      TreesAt(g, s.items, i);
      if |path| == 1 {
        TreesUpdate(g, s.items, i, SItem(path[0], Kept(VBin(b))));
      } else {
        var u := WriteS(s.items[i].shape, path[1..], b).value;
        WriteTree(g, s.items[i].shape, path[1..], b);
        TreesUpdate(g, s.items, i, SItem(path[0], u));
      }
    }
  }

  lemma {:induction false} ClonesUpdate(its: seq<SItem>, i: nat, it: SItem)
    requires i < |its| && Clones(it.shape) <= Clones(its[i].shape)
    ensures ClonesIn(its[i := it]) <= ClonesIn(its)
    ensures TidyItems(its) && Tidy(it.shape) ==> TidyItems(its[i := it])
    decreases |its|
  {
    var n := |its| - 1;
    assert ClonesAt(its[n]) == Clones(its[n].shape) && ClonesAt(it) == Clones(it.shape);
    assert its[i := it][n] == if i == n then it else its[n];
    if i == n {
      assert its[i := it][..n] == its[..n];
    } else {
      assert its[i := it][..n] == its[..n][i := it];
      ClonesUpdate(its[..n], i, it);
    }
  }

  lemma {:induction false} ClonesOne(its: seq<SItem>, i: nat)
    requires i < |its|
    ensures Clones(its[i].shape) <= ClonesIn(its)
    ensures TidyItems(its) ==> Tidy(its[i].shape)
    decreases |its|
  {
    var n := |its| - 1;
    assert ClonesAt(its[n]) == Clones(its[n].shape);
    if i < n {
      ClonesOne(its[..n], i);
    } else if TidyItems(its) {
      assert TidyAt(its[n]);
    }
  }

  lemma {:induction false} ClonesApart(its: seq<SItem>, i: nat, j: nat)
    requires i < j < |its| && TidyItems(its)
    ensures Clones(its[i].shape) !! Clones(its[j].shape)
    decreases |its|
  {
    var n := |its| - 1;
    assert ClonesAt(its[n]) == Clones(its[n].shape);
    if j < n {
      ClonesApart(its[..n], i, j);
    } else {
      ClonesOne(its[..n], i);
    }
  }

  lemma {:induction false} OwnTidy(o: Obj, its: seq<SItem>, its': seq<SItem>)
    requires Tidy(Own(o, its)) && TidyItems(its') && ClonesIn(its') <= ClonesIn(its)
    ensures Tidy(Own(o, its')) && Clones(Own(o, its')) <= Clones(Own(o, its))
  {}

  lemma {:induction false} SlotTidy(s: Shape, key: Key, b: Bytes)
    requires WriteS(s, [key], b).Some? && Tidy(s)
    ensures var s' := WriteS(s, [key], b).value;
            Tidy(s') && Clones(s') <= Clones(s) && ValOf(s') == ValOf(s)
  {
    var i := ItemAt(s.items, key);
    var slot := SItem(key, Kept(VBin(b)));
    assert Clones(slot.shape) == {} && Tidy(slot.shape);
    if i == |s.items| {
      TreesSnoc(map[], s.items, slot);
      OwnTidy(s.o, s.items, s.items + [slot]);
    } else {
      ClonesUpdate(s.items, i, slot);
      OwnTidy(s.o, s.items, s.items[i := slot]);
    }
  }

  /** Such a store makes and shares no clone. */
  lemma {:induction false} WriteTidy(s: Shape, path: Path, b: Bytes)
    requires WriteS(s, path, b).Some? && Tidy(s)
    ensures var s' := WriteS(s, path, b).value;
            Tidy(s') && Clones(s') <= Clones(s) && ValOf(s') == ValOf(s)
    decreases path
  {
    if |path| == 1 {
      assert path == [path[0]];
      SlotTidy(s, path[0], b);
    } else {
      var i := ItemAt(s.items, path[0]);
      var u := WriteS(s.items[i].shape, path[1..], b).value;
      ClonesOne(s.items, i);
      WriteTidy(s.items[i].shape, path[1..], b);
      ClonesUpdate(s.items, i, SItem(path[0], u));
      OwnTidy(s.o, s.items, s.items[i := SItem(path[0], u)]);
    }
  }

  lemma {:induction false} WriteLoose(g: Graph, s: Shape, path: Path, b: Bytes)
    requires WriteS(s, path, b).Some? && Loose(g, s)
    ensures Loose(g, WriteS(s, path, b).value)
    decreases path
  {
    var i := ItemAt(s.items, path[0]);
    if |path| > 1 {
      WriteLoose(g, s.items[i].shape, path[1..], b);
    }
  }

  ghost predicate Elsewhere(h: Graph, h': Graph, changed: set<Obj>) {
    h'.Keys == h.Keys && forall o :: o in h && o !in changed ==> h'[o] == h[o]
  }

  /** On the heap, such a store changes one clone. */
  lemma {:induction false} WriteBuilt(h: Graph, s: Shape, path: Path, b: Bytes)
    requires WriteS(s, path, b).Some? && Tidy(s) && Built(h, s)
    ensures Write(h, ValOf(s), path, b).Some?
    ensures var h' := Write(h, ValOf(s), path, b).value;
            Built(h', WriteS(s, path, b).value) && Elsewhere(h, h', Clones(s))
    decreases path
  {
    var i := ItemAt(s.items, path[0]);
    SameKeys(map[], s.items, path[0]);
    var h' := h;
    if |path| == 1 {
      WriteSlot(h, s, path[0], b);
    } else {
      var u := WriteS(s.items[i].shape, path[1..], b).value;
      ClonesOne(s.items, i);
      WriteBuilt(h, s.items[i].shape, path[1..], b);
      var h' := Write(h, ValOf(s), path, b).value;
      WriteTidy(s.items[i].shape, path[1..], b);
      forall j | 0 <= j < |s.items| && j != i
        ensures Built(h', s.items[j].shape)
      {
        if j < i {
          ClonesApart(s.items, j, i);
        } else {
          ClonesApart(s.items, i, j);
        }
        BuiltIn(h, s.items[j].shape);
        BuiltKeeps(h, h', s.items[j].shape);
      }
      assert ItemsOf(s.items[i := SItem(path[0], u)]) == ItemsOf(s.items);
    }
  }

  lemma {:induction false} BuiltIn(h: Graph, s: Shape)
    requires Built(h, s)
    ensures Clones(s) <= h.Keys
    decreases s, 0
  {
    if s.Own? {
      BuiltItemsIn(h, s.items);
    }
  }

  lemma {:induction false} BuiltItemsIn(h: Graph, its: seq<SItem>)
    requires BuiltItems(h, its)
    ensures ClonesIn(its) <= h.Keys
    decreases its, 1
  {
    if its != [] {
      var n := |its| - 1;
      assert (its decreases to its[n]) && (its[n] decreases to its[n].shape);
      BuiltItemsIn(h, its[..n]);
      BuiltIn(h, its[n].shape);
    }
  }

  lemma {:induction false} WriteSlot(h: Graph, s: Shape, key: Key, b: Bytes)
    requires WriteS(s, [key], b).Some? && Tidy(s) && Built(h, s)
    ensures Write(h, ValOf(s), [key], b).Some?
    ensures var h' := Write(h, ValOf(s), [key], b).value;
            Built(h', WriteS(s, [key], b).value) && Elsewhere(h, h', Clones(s))
  {
    var i := ItemAt(s.items, key);
    SameKeys(map[], s.items, key);
    var h' := Write(h, ValOf(s), [key], b).value;
    var s' := WriteS(s, [key], b).value;
    BuiltItemsIn(h, s.items);
    BuiltItemsKeep(h, h', s.items);
    assert h'[s.o] == ItemsOf(s'.items);
  }

  // ---------------------------------------------------------------------
  // All stores of a split succeed, and undo it
  // ---------------------------------------------------------------------

  /** The slot or the child that the head of the path selects. */
  ghost predicate Selects(kind: Kind, its: seq<SItem>, path: Path, b: Bytes)
    requires path != []
  {
    var i := ItemAt(its, path[0]);
    if |path| == 1 then i < |its| || kind.DictK?
    else i < |its| && WriteS(its[i].shape, path[1..], b).Some?
  }

  lemma {:induction false} ItemAtSnoc(its: seq<SItem>, it: SItem, key: Key)
    ensures ItemAt(its + [it], key) ==
            if ItemAt(its, key) < |its| then ItemAt(its, key) else if it.key == key then |its| else |its| + 1
  {
    var all := its + [it];
    assert forall j :: 0 <= j < |its| ==> all[j] == its[j];
    assert all[|its|] == it;
  }

  lemma {:induction false} DividesKeys(g: Graph, kind: Kind, its: seq<SItem>, es: seq<Entry>, key: Key)
    requires DividesItems(g, kind, its, es) && forall i :: 0 <= i < |es| ==> es[i].key != key
    ensures ItemAt(its, key) == |its|
  {
    DividesTrees(g, kind, its, es);
    SameKeys(g, its, key);
    if ItemAt(its, key) < |its| {
      StripKeys(kind, es, ItemAt(its, key));
    }
  }

  /** The container of every binary of t is a clone in s. */
  lemma {:induction false} BinariesOwned(g: Graph, s: Shape, t: Tree, p: Path, b: Bytes)
    requires Divides(g, s, t) && Wf(t) && Patch(p, b) in Bufs(t)
    ensures WriteS(s, p, b).Some?
    decreases t, 1
  {
    ItemsOwned(g, t.kind, s.items, t.items, p, b);
  }

  lemma {:induction false} ItemsOwned(g: Graph, kind: Kind, its: seq<SItem>, es: seq<Entry>, p: Path, b: Bytes)
    requires DividesItems(g, kind, its, es) && DistinctKeys(es) && WfItems(es) && Patch(p, b) in BufsItems(es)
    ensures p != [] && Selects(kind, its, p, b)
    decreases es, 0
  {
    var n := |es| - 1;
    var e := es[n];
    assert (es decreases to e) && (e decreases to e.val);
    BufsItemsApart(es);
    var gone := e.val.Bin? && kind.DictK?;
    var init := if gone then its else its[..|its| - 1];
    if !gone {
      assert its == init + [its[|its| - 1]];
      ItemAtSnoc(init, its[|its| - 1], p[0]);
    }
    if Patch(p, b) in BufsItems(es[..n]) {
      ItemsOwned(g, kind, init, es[..n], p, b);
      BufsItemsApart(es[..n]);
      var i :| 0 <= i < n && es[..n][i].key == p[0];
      assert es[i].key != e.key;
    } else {
      DividesKeys(g, kind, init, es[..n], e.key);
      if !e.val.Bin? {
        BelowIn([e.key], Bufs(e.val), p, b);
        BufsItemsNonEmpty(e.val);
        BinariesOwned(g, its[|its| - 1].shape, e.val, p[1..], b);
      }
    }
  }

  /** A store elsewhere does not get in the way of a store. */
  lemma {:induction false} WriteIndependent(s: Shape, p: Path, a: Bytes, q: Path, b: Bytes)
    requires Apart(p, q) && WriteS(s, p, a).Some? && WriteS(s, q, b).Some?
    ensures WriteS(WriteS(s, q, b).value, p, a).Some?
    decreases p
  {
    var i, j := ItemAt(s.items, p[0]), ItemAt(s.items, q[0]);
    var s' := WriteS(s, q, b).value;
    if p[0] == q[0] {
      assert p == [p[0]] + p[1..] && q == [q[0]] + q[1..];
      assert Apart(p[1..], q[1..]);
      var u := WriteS(s.items[i].shape, q[1..], b).value;
      WriteIndependent(s.items[i].shape, p[1..], a, q[1..], b);
      ItemAtUpdate(s.items, i, SItem(q[0], u), p[0]);
    } else if j < |s.items| {
      ItemAtUpdate(s.items, j, s'.items[j], p[0]);
    } else {
      ItemAtSnoc(s.items, s'.items[j], p[0]);
    }
  }

  lemma {:induction false} ItemAtUpdate(its: seq<SItem>, i: nat, it: SItem, key: Key)
    requires i < |its| && it.key == its[i].key
    ensures ItemAt(its[i := it], key) == ItemAt(its, key)
  {
    var a, b := ItemAt(its[i := it], key), ItemAt(its, key);
    assert forall j :: 0 <= j < |its| ==> its[i := it][j].key == its[j].key;
    assert a < |its| ==> its[a].key == key;
    assert b < |its| ==> its[i := it][b].key == key;
  }

  ghost predicate AllOwned(s: Shape, ps: seq<Patch>) {
    forall i :: 0 <= i < |ps| ==> WriteS(s, ps[i].path, ps[i].b).Some?
  }

  /** Independent stores that can be made one by one can be made one after the other. */
  lemma {:induction false} WriteAllBuilt(g: Graph, h: Graph, s: Shape, ps: seq<Patch>) returns (s': Shape)
    requires AllOwned(s, ps) && AllApart(ps) && Tidy(s) && Loose(g, s) && Built(h, s)
    ensures var r := WriteAll(h, ValOf(s), ps);
            && r.ok && Elsewhere(h, r.h, Clones(s)) && Built(r.h, s') && Loose(g, s') && ValOf(s') == ValOf(s)
            && PutAllT(TreeOf(g, s), ps) == Some(TreeOf(g, s'))
    decreases |ps|
  {
    if ps == [] {
      s' := s;
    } else {
      var p, b := ps[0].path, ps[0].b;
      var s1 := WriteS(s, p, b).value;
      WriteBuilt(h, s, p, b);
      WriteTidy(s, p, b);
      WriteLoose(g, s, p, b);
      WriteTree(g, s, p, b);
      forall i | 0 <= i < |ps[1..]|
        ensures WriteS(s1, ps[1..][i].path, ps[1..][i].b).Some?
      {
        assert ps[1..][i] == ps[i + 1];
        WriteIndependent(s, ps[i + 1].path, ps[i + 1].b, p, b);
      }
      RestApart(ps);
      s' := WriteAllBuilt(g, Write(h, ValOf(s), p, b).value, s1, ps[1..]);
    }
  }

  lemma {:induction false} RestApart(ps: seq<Patch>)
    requires AllApart(ps) && ps != []
    ensures AllApart(ps[1..])
  {
    forall i, j | 0 <= i < |ps[1..]| && 0 <= j < |ps[1..]| && i != j
      ensures Apart(ps[1..][i].path, ps[1..][j].path)
    {
      assert Apart(ps[i + 1].path, ps[j + 1].path);
    }
  }

  /**
   * Splitting a state and putting the buffers back into the result gives a state equal to
   * the original, and leaves every container of the original graph as it was.
   */
  lemma {:induction false} SplitThenPut(g: Graph, h: Graph, state: Val, result: Val, ps: seq<Patch>, s: Shape)
      returns (t': Tree)
    requires WfGraph(g) && state.VRef? && state.o in g && Finite(g, state)
    requires g.Keys !! h.Keys && Divided(g, h, state, result, ps, s)
    ensures var r := WriteAll(h + g, result, ps);
            && r.ok && r.h.Keys == (h + g).Keys
            && (forall o :: o in g ==> r.h[o] == g[o])
            && Denotes(r.h, result, t') && CanonOf(t') == CanonOf(StateOf(g, state))
  {
    var t := StateOf(g, state);
    FiniteState(g, state.o);
    ClonesBuilt(h, g, s);
    BuiltKeeps(h, h + g, s);
    LeanIsLoose(g, s);
    BufsApart(t);
    forall i | 0 <= i < |ps|
      ensures WriteS(s, ps[i].path, ps[i].b).Some?
    {
      BinariesOwned(g, s, t, ps[i].path, ps[i].b);
    }
    var s' := WriteAllBuilt(g, h + g, s, ps);
    LooseDenotes(g, WriteAll(h + g, result, ps).h, s');
    DividesTree(g, s, t);
    RoundTripT(t);
    t' := TreeOf(g, s');
  }

  /** The clones of a split hold each other and values of the input graph. */
  lemma {:induction false} ClonesClosed(g: Graph, h: Graph, s: Shape)
    requires Built(h, s) && Lean(g, s)
    ensures Clones(s) <= h.Keys
    ensures forall o, i :: o in Clones(s) && 0 <= i < |h[o]| && h[o][i].val.VRef? ==>
              h[o][i].val.o in Clones(s) + g.Keys
    decreases s, 0
  {
    if s.Own? {
      ClonesInClosed(g, h, s.items);
      ClonesListed(g, s.items);
    }
  }

  lemma {:induction false} ClonesInClosed(g: Graph, h: Graph, its: seq<SItem>)
    requires BuiltItems(h, its) && LeanItems(g, its)
    ensures ClonesIn(its) <= h.Keys
    ensures forall o, i :: o in ClonesIn(its) && 0 <= i < |h[o]| && h[o][i].val.VRef? ==>
              h[o][i].val.o in ClonesIn(its) + g.Keys
    decreases its, 1
  {
    if its != [] {
      var n := |its| - 1;
      assert (its decreases to its[n]) && (its[n] decreases to its[n].shape);
      ClonesInClosed(g, h, its[..n]);
      ClonesClosed(g, h, its[n].shape);
    }
  }

  lemma {:induction false} ClonesListed(g: Graph, its: seq<SItem>)
    requires LeanItems(g, its)
    ensures forall i :: 0 <= i < |its| && ValOf(its[i].shape).VRef? ==> ValOf(its[i].shape).o in ClonesIn(its) + g.Keys
    decreases |its|
  {
    if its != [] {
      var n := |its| - 1;
      ClonesListed(g, its[..n]);
      forall i | 0 <= i < |its| && ValOf(its[i].shape).VRef?
        ensures ValOf(its[i].shape).o in ClonesIn(its) + g.Keys
      {
        if i < n {
          assert its[..n][i] == its[i];
        } else {
          assert Lean(g, its[i].shape) && ClonesIn(its) == ClonesIn(its[..n]) + Clones(its[i].shape);
        }
      }
    }
  }

  /** The clones of a split, without what else was made on the way. */
  ghost function ClonesOnly(h: Graph, s: Shape): Graph
    requires Clones(s) <= h.Keys
  {
    map o | o in Clones(s) :: h[o]
  }

  lemma {:induction false} DividedClosed(g: Graph, h: Graph, state: Val, result: Val, ps: seq<Patch>, s: Shape)
    requires WfGraph(g) && state.VRef? && state.o in g && Divided(g, h, state, result, ps, s) && g.Keys !! h.Keys
    ensures Clones(s) <= h.Keys && ClosedGraph(ClonesOnly(h, s) + g)
              && Divided(g, ClonesOnly(h, s), state, result, ps, s)
    ensures result.VRef? && result.o in ClonesOnly(h, s) + g
  {
    ClonesClosed(g, h, s);
    BuiltKeeps(h, ClonesOnly(h, s), s);
  }

  /**
   * Split a state and put the buffers back into the result: this succeeds whenever the split does,
   * gives an equal state, and leaves every container of the original as it was.
   */
  method SplitAndPut(state: Val, ghost g: Graph)
      returns (raised: bool, result: Val, ghost h: Graph, ghost t: Tree)
    requires WfGraph(g) && Shows(g) && (state.VRef? ==> state.o in g)
    modifies g.Keys
    ensures Shows(g) && (raised <==> state.VRef? && !Accept(g, state.o, {}, 0))
    ensures !raised ==> Shows(h) && Denotes(h, result, t) && CanonOf(t) == CanonOf(StateOf(g, state))
  {
    var r;
    ghost var s;
    r, h, s := RemoveBuffers(state, g);
    raised, result, t := r.Raised?, state, StateOf(g, state);
    if r.Split? {
      result := r.state;
      if state.VRef? {
        ghost var ps := Pairs(r.paths, r.buffers);
        AcceptedState(g, state.o, {}, 0);
        DividedClosed(g, h, state, result, ps, s);
        h := ClonesOnly(h, s);
        t := SplitThenPut(g, h, state, result, ps, s);
        h := h + g;
        ZipPairs(r.paths, r.buffers);
        var ok := PutBuffers(result, r.paths, r.buffers, h);
        raised := !ok;
        h := WriteAll(h, result, ps).h;
      }
    }
  }

  lemma {:induction false} ZipPairs(paths: seq<Path>, buffers: seq<Bytes>)
    requires |paths| == |buffers|
    ensures Zip(paths, buffers) == Pairs(paths, buffers)
  {
    if paths != [] {
      ZipPairs(paths[1..], buffers[1..]);
      assert Pairs(paths, buffers) == [Patch(paths[0], buffers[0])] + Pairs(paths[1..], buffers[1..]);
    }
  }
}
