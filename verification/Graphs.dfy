/**
 * Object graphs of lists and dicts: which ones the buffer walk accepts, the state a value
 * denotes in a graph, and the shape of what the walk builds.
 */
module Graphs {
  import opened Trees

  datatype Val = VAtom(a: Atom) | VBin(b: Bytes) | VRef(o: Obj)
  datatype Item = Item(key: Key, val: Val)

  /** A list or a dict; a list holds its indices as keys. */
  class Obj {
    const kind: Kind
    var items: seq<Item>

    constructor (kind: Kind, items: seq<Item>)
      ensures this.kind == kind && this.items == items
    {
      this.kind, this.items := kind, items;
    }
  }

  // ---------------------------------------------------------------------
  // Object graphs as values
  // ---------------------------------------------------------------------

  type Graph = map<Obj, seq<Item>>

  /** The graph is what the heap holds. */
  ghost predicate Shows(g: Graph)
    reads g.Keys
  {
    forall o :: o in g ==> o.items == g[o]
  }

  ghost predicate KeyedItems(kind: Kind, items: seq<Item>) {
    && (forall i, j :: 0 <= i < j < |items| ==> items[i].key != items[j].key)
    && (kind.ListK? ==> forall i :: 0 <= i < |items| ==> items[i].key == Idx(i))
  }

  ghost predicate WfGraph(g: Graph) {
    && (forall o :: o in g ==> KeyedItems(o.kind, g[o]))
    && (forall o, i :: o in g && 0 <= i < |g[o]| && g[o][i].val.VRef? ==> g[o][i].val.o in g)
  }

  /**
   * The walk gets through o, met below the given ancestors at the given depth. The kernel's walk
   * starts at depth 0; one that starts at a negative depth may go that much deeper.
   */
  ghost predicate Accept(g: Graph, o: Obj, ancestors: set<Obj>, depth: int)
    requires WfGraph(g) && o in g
    decreases MAX_DEPTH + 1 - depth
  {
    depth <= MAX_DEPTH && o !in ancestors &&
    forall i :: 0 <= i < |g[o]| && g[o][i].val.VRef? ==> Accept(g, g[o][i].val.o, ancestors + {o}, depth + 1)
  }

  /** ch goes from container to contained container. */
  ghost predicate IsChain(g: Graph, older ch: seq<Obj>) {
    ch != [] && (forall i :: 0 <= i < |ch| ==> ch[i] in g) &&
    forall i :: 0 <= i < |ch| - 1 ==> Holds(g[ch[i]], ch[i + 1])
  }

  ghost predicate Holds(items: seq<Item>, o: Obj) {
    exists i :: 0 <= i < |items| && items[i].val == VRef(o)
  }

  ghost predicate NoRepeat(ch: seq<Obj>) {
    forall i, j :: 0 <= i < j < |ch| ==> ch[i] != ch[j]
  }

  /** Below an accepted container, chains are short and meet no ancestor and no container twice. */
  lemma {:induction false} AcceptedChain(g: Graph, ch: seq<Obj>, ancestors: set<Obj>, depth: int)
    requires WfGraph(g) && IsChain(g, ch) && Accept(g, ch[0], ancestors, depth)
    ensures depth + |ch| <= MAX_DEPTH + 1
    ensures NoRepeat(ch) && forall i :: 0 <= i < |ch| ==> ch[i] !in ancestors
    decreases |ch|
  {
    if |ch| > 1 {
      assert Holds(g[ch[0]], ch[1]);
      var rest := ch[1..];
      forall i | 0 <= i < |rest| - 1
        ensures Holds(g[rest[i]], rest[i + 1])
      {
        assert Holds(g[ch[i + 1]], ch[i + 2]);
      }
      AcceptedChain(g, rest, ancestors + {ch[0]}, depth + 1);
      assert forall i :: 0 < i < |ch| ==> ch[i] == rest[i - 1];
    }
  }

  /** A rejected container heads a chain that is too long, repeats, or runs into an ancestor. */
  lemma {:induction false} RejectedChain(g: Graph, o: Obj, ancestors: set<Obj>, depth: int) returns (ch: seq<Obj>)
    requires WfGraph(g) && o in g && !Accept(g, o, ancestors, depth) && depth <= MAX_DEPTH + 1
    ensures IsChain(g, ch) && ch[0] == o
    ensures depth + |ch| > MAX_DEPTH + 1 || !NoRepeat(ch) || exists i :: 0 <= i < |ch| && ch[i] in ancestors
    decreases MAX_DEPTH + 1 - depth
  {
    if depth > MAX_DEPTH || o in ancestors {
      ch := [o];
    } else {
      var i :| 0 <= i < |g[o]| && g[o][i].val.VRef? && !Accept(g, g[o][i].val.o, ancestors + {o}, depth + 1);
      var rest := RejectedChain(g, g[o][i].val.o, ancestors + {o}, depth + 1);
      ch := [o] + rest;
      assert Holds(g[o], rest[0]);
      forall j | 0 <= j < |ch| - 1
        ensures Holds(g[ch[j]], ch[j + 1])
      {
        if j > 0 {
          assert Holds(g[rest[j - 1]], rest[j]);
        }
      }
      if !NoRepeat(rest) {
        var j, k :| 0 <= j < k < |rest| && rest[j] == rest[k];
        assert ch[j + 1] == ch[k + 1];
      } else if j :| 0 <= j < |rest| && rest[j] in ancestors + {o} {
        assert ch[j + 1] == rest[j];
      }
    }
  }

  /** Rejection is exact: some path from the root repeats a container or nests too deep. */
  lemma {:induction false} RejectedExactly(g: Graph, root: Obj)
    requires WfGraph(g) && root in g
    ensures !Accept(g, root, {}, 0) <==>
            exists ch: seq<Obj> :: IsChain(g, ch) && ch[0] == root && (!NoRepeat(ch) || |ch| > MAX_DEPTH + 1)
  {
    if !Accept(g, root, {}, 0) {
      var ch := RejectedChain(g, root, {}, 0);
    } else {
      forall ch: seq<Obj> | IsChain(g, ch) && ch[0] == root
        ensures NoRepeat(ch) && |ch| <= MAX_DEPTH + 1
      {
        AcceptedChain(g, ch, {}, 0);
      }
    }
  }

  // ---------------------------------------------------------------------
  // The state a value denotes
  // ---------------------------------------------------------------------

  ghost predicate Denotes(g: Graph, v: Val, t: Tree)
    decreases t
  {
    match t
    case Leaf(a) => v == VAtom(a)
    case Bin(b) => v == VBin(b)
    case Node(kind, items) =>
      v.VRef? && v.o in g && v.o.kind == kind && |g[v.o]| == |items| &&
      forall i :: 0 <= i < |items| ==> g[v.o][i].key == items[i].key && Denotes(g, g[v.o][i].val, items[i].val)
  }

  /** The tree v denotes, if it nests at most n deep. */
  ghost function Unfold(g: Graph, v: Val, n: nat): Tree
    decreases n, 0
  {
    match v
    case VAtom(a) => Leaf(a)
    case VBin(b) => Bin(b)
    case VRef(o) => if n == 0 || o !in g then Leaf(PyNone) else Node(o.kind, UnfoldItems(g, g[o], n - 1))
  }

  ghost function UnfoldItems(g: Graph, items: seq<Item>, n: nat): seq<Entry>
    decreases n, 1
  {
    seq(|items|, i requires 0 <= i < |items| => Entry(items[i].key, Unfold(g, items[i].val, n)))
  }

  ghost predicate Fits(g: Graph, v: Val, n: nat)
    decreases n
  {
    v.VRef? ==> n > 0 && v.o in g && forall i :: 0 <= i < |g[v.o]| ==> Fits(g, g[v.o][i].val, n - 1)
  }

  lemma {:induction false} FitsDenotes(g: Graph, v: Val, n: nat)
    requires Fits(g, v, n)
    ensures Denotes(g, v, Unfold(g, v, n))
    decreases n
  {
    if v.VRef? {
      forall i | 0 <= i < |g[v.o]|
        ensures Denotes(g, g[v.o][i].val, UnfoldItems(g, g[v.o], n - 1)[i].val)
      {
        FitsDenotes(g, g[v.o][i].val, n - 1);
      }
    }
  }

  /** A value denotes at most one tree. */
  lemma {:induction false} DenotesOnce(g: Graph, v: Val, t: Tree, u: Tree)
    requires Denotes(g, v, t) && Denotes(g, v, u)
    ensures t == u
    decreases t
  {
    if t.Node? {
      forall i | 0 <= i < |t.items|
        ensures t.items[i] == u.items[i]
      {
        DenotesOnce(g, g[v.o][i].val, t.items[i].val, u.items[i].val);
      }
      assert t.items == u.items;
    }
  }

  lemma {:induction false} DenotesWf(g: Graph, v: Val, t: Tree)
    requires WfGraph(g) && Denotes(g, v, t)
    ensures Wf(t)
    decreases t
  {
    if t.Node? {
      forall i | 0 <= i < |t.items|
        ensures Wf(t.items[i].val)
      {
        DenotesWf(g, g[v.o][i].val, t.items[i].val);
      }
      assert forall i :: 0 <= i < |t.items| ==> g[v.o][i].key == t.items[i].key;
    }
  }

  lemma {:induction false} AcceptFits(g: Graph, o: Obj, ancestors: set<Obj>, depth: int)
    requires WfGraph(g) && o in g && Accept(g, o, ancestors, depth)
    ensures Fits(g, VRef(o), MAX_DEPTH + 1 - depth)
    decreases MAX_DEPTH + 1 - depth
  {
    forall i | 0 <= i < |g[o]|
      ensures Fits(g, g[o][i].val, MAX_DEPTH - depth)
    {
      if g[o][i].val.VRef? {
        AcceptFits(g, g[o][i].val.o, ancestors + {o}, depth + 1);
      }
    }
  }

  lemma {:induction false} FitsMore(g: Graph, v: Val, n: nat, m: nat)
    requires Fits(g, v, n) && n <= m
    ensures Fits(g, v, m) && Unfold(g, v, m) == Unfold(g, v, n)
    decreases n
  {
    if v.VRef? {
      forall i | 0 <= i < |g[v.o]|
        ensures Fits(g, g[v.o][i].val, m - 1)
        ensures Unfold(g, g[v.o][i].val, m - 1) == Unfold(g, g[v.o][i].val, n - 1)
      {
        FitsMore(g, g[v.o][i].val, n - 1, m - 1);
      }
      assert UnfoldItems(g, g[v.o], m - 1) == UnfoldItems(g, g[v.o], n - 1);
    }
  }

  /** Some tree is what v denotes: no container below it contains itself. */
  ghost predicate Finite(g: Graph, v: Val) {
    exists n: nat :: Fits(g, v, n)
  }

  /** The state a value stands for; a value without one is cut off below the deepest that the walk accepts. */
  ghost function StateOf(g: Graph, v: Val): (t: Tree)
    ensures v.VAtom? ==> t == Leaf(v.a)
    ensures v.VBin? ==> t == Bin(v.b)
    ensures v.VRef? ==> !t.Bin?
  {
    if Finite(g, v) then
      var n: nat :| Fits(g, v, n);
      Unfold(g, v, n)
    else Unfold(g, v, MAX_DEPTH + 2)
  }

  ghost function StatesOf(g: Graph, items: seq<Item>): seq<Entry> {
    seq(|items|, i requires 0 <= i < |items| => Entry(items[i].key, StateOf(g, items[i].val)))
  }

  lemma {:induction false} StateFits(g: Graph, v: Val, n: nat)
    requires Fits(g, v, n)
    ensures StateOf(g, v) == Unfold(g, v, n)
  {
    var m: nat :| Fits(g, v, m) && StateOf(g, v) == Unfold(g, v, m);
    if n <= m {
      FitsMore(g, v, n, m);
    } else {
      FitsMore(g, v, m, n);
    }
  }

  lemma {:induction false} FitsState(g: Graph, o: Obj, n: nat)
    requires WfGraph(g) && o in g && Fits(g, VRef(o), n)
    ensures StateOf(g, VRef(o)) == Node(o.kind, StatesOf(g, g[o]))
    ensures Denotes(g, VRef(o), StateOf(g, VRef(o))) && Wf(StateOf(g, VRef(o)))
  {
    StateFits(g, VRef(o), n);
    FitsDenotes(g, VRef(o), n);
    DenotesWf(g, VRef(o), StateOf(g, VRef(o)));
    forall i | 0 <= i < |g[o]|
      ensures Unfold(g, g[o][i].val, n - 1) == StateOf(g, g[o][i].val)
    {
      StateFits(g, g[o][i].val, n - 1);
    }
    assert UnfoldItems(g, g[o], n - 1) == StatesOf(g, g[o]);
  }

  lemma {:induction false} FiniteState(g: Graph, o: Obj)
    requires WfGraph(g) && o in g && Finite(g, VRef(o))
    ensures StateOf(g, VRef(o)) == Node(o.kind, StatesOf(g, g[o]))
    ensures Denotes(g, VRef(o), StateOf(g, VRef(o))) && Wf(StateOf(g, VRef(o)))
  {
    var n: nat :| Fits(g, VRef(o), n);
    FitsState(g, o, n);
  }

  lemma {:induction false} DenotesFits(g: Graph, v: Val, t: Tree)
    requires Denotes(g, v, t)
    ensures Fits(g, v, Depth(t))
    decreases t
  {
    if t.Node? {
      DepthBound(t.items, Depth(t) - 1);
      forall i | 0 <= i < |t.items|
        ensures Fits(g, g[v.o][i].val, Depth(t) - 1)
      {
        DenotesFits(g, g[v.o][i].val, t.items[i].val);
        FitsMore(g, g[v.o][i].val, Depth(t.items[i].val), Depth(t) - 1);
      }
    }
  }

  /** A value that denotes a tree is finite, with that tree as its state, however deep it nests. */
  lemma {:induction false} DenotesState(g: Graph, v: Val, t: Tree)
    requires Denotes(g, v, t)
    ensures Finite(g, v) && StateOf(g, v) == t
  {
    DenotesFits(g, v, t);
    StateFits(g, v, Depth(t));
    FitsDenotes(g, v, Depth(t));
    DenotesOnce(g, v, t, StateOf(g, v));
  }

  lemma {:induction false} AcceptedState(g: Graph, o: Obj, ancestors: set<Obj>, depth: int)
    requires WfGraph(g) && o in g && Accept(g, o, ancestors, depth)
    ensures StateOf(g, VRef(o)) == Node(o.kind, StatesOf(g, g[o]))
    ensures Denotes(g, VRef(o), StateOf(g, VRef(o))) && Wf(StateOf(g, VRef(o)))
    ensures Finite(g, VRef(o))
  {
    AcceptFits(g, o, ancestors, depth);
    FitsState(g, o, MAX_DEPTH + 1 - depth);
  }

  lemma {:induction false} FitsDepth(g: Graph, v: Val, n: nat, m: nat)
    requires Fits(g, v, n) && n <= m
    ensures Depth(Unfold(g, v, m)) <= n
    decreases n
  {
    if v.VRef? {
      var es := UnfoldItems(g, g[v.o], m - 1);
      forall i | 0 <= i < |es|
        ensures Depth(es[i].val) <= n - 1
      {
        FitsDepth(g, g[v.o][i].val, n - 1, m - 1);
      }
      DepthBound(es, n - 1);
    }
  }

  lemma {:induction false} DepthFits(g: Graph, v: Val, n: nat)
    requires WfGraph(g) && (v.VRef? ==> v.o in g) && Depth(Unfold(g, v, n + 1)) <= n
    ensures Fits(g, v, n)
    decreases n
  {
    if v.VRef? {
      var es := UnfoldItems(g, g[v.o], n);
      DepthBound(es, n - 1);
      forall i | 0 <= i < |g[v.o]|
        ensures Fits(g, g[v.o][i].val, n - 1)
      {
        assert es[i].val == Unfold(g, g[v.o][i].val, n);
        DepthFits(g, g[v.o][i].val, n - 1);
      }
    }
  }

  lemma {:induction false} FitsAccept(g: Graph, o: Obj, ancestors: set<Obj>, depth: int)
    requires WfGraph(g) && o in g && depth <= MAX_DEPTH + 1 && Fits(g, VRef(o), MAX_DEPTH + 1 - depth)
    requires forall a :: a in ancestors ==> Depth(StateOf(g, VRef(o))) < Depth(StateOf(g, VRef(a)))
    ensures Accept(g, o, ancestors, depth)
    decreases MAX_DEPTH + 1 - depth
  {
    FitsState(g, o, MAX_DEPTH + 1 - depth);
    var es := StatesOf(g, g[o]);
    DepthBound(es, DepthItems(es));
    forall i | 0 <= i < |g[o]| && g[o][i].val.VRef?
      ensures Accept(g, g[o][i].val.o, ancestors + {o}, depth + 1)
    {
      assert es[i].val == StateOf(g, g[o][i].val);
      FitsAccept(g, g[o][i].val.o, ancestors + {o}, depth + 1);
    }
  }

  lemma {:induction false} FitsExactly(g: Graph, v: Val, n: nat)
    requires WfGraph(g) && (v.VRef? ==> v.o in g) && n <= MAX_DEPTH + 1
    ensures Fits(g, v, n) <==> Depth(StateOf(g, v)) <= n
  {
    if Fits(g, v, n) {
      StateFits(g, v, n);
      FitsDepth(g, v, n, n);
    } else if m: nat :| Fits(g, v, m) {
      StateFits(g, v, m);
      FitsDenotes(g, v, m);
      DenotesFits(g, v, StateOf(g, v));
      if Depth(StateOf(g, v)) <= n {
        FitsMore(g, v, Depth(StateOf(g, v)), n);
      }
    } else if Depth(StateOf(g, v)) <= n {
      DepthFits(g, v, MAX_DEPTH + 1);
    }
  }

  lemma {:induction false} AcceptedFits(g: Graph, o: Obj, n: nat)
    requires WfGraph(g) && o in g && n == MAX_DEPTH + 1
    ensures Accept(g, o, {}, 0) <==> Fits(g, VRef(o), n)
  {
    if Accept(g, o, {}, 0) {
      AcceptFits(g, o, {}, 0);
    } else if Fits(g, VRef(o), n) {
      FitsAccept(g, o, {}, 0);
    }
  }

  /** A container with a state is accepted by a walk that may go deep enough. */
  lemma {:induction false} DenotesAccept(g: Graph, o: Obj, t: Tree)
    requires WfGraph(g) && o in g && Denotes(g, VRef(o), t)
    ensures Accept(g, o, {}, MAX_DEPTH + 1 - Depth(t))
  {
    DenotesFits(g, VRef(o), t);
    FitsAccept(g, o, {}, MAX_DEPTH + 1 - Depth(t));
  }

  /** Whether a container is accepted can be read off its state: it must nest at most 501 deep. */
  lemma {:induction false} AcceptedDepth(g: Graph, o: Obj)
    requires WfGraph(g) && o in g
    ensures Accept(g, o, {}, 0) <==> Depth(StateOf(g, VRef(o))) <= MAX_DEPTH + 1
  {
    var n := MAX_DEPTH + 1;
    AcceptedFits(g, o, n);
    FitsExactly(g, VRef(o), n);
  }

  // ---------------------------------------------------------------------
  // What the walk builds: fresh clones above values of the input graph
  // ---------------------------------------------------------------------

  datatype Shape = Kept(v: Val) | Own(o: Obj, items: seq<SItem>)
  datatype SItem = SItem(key: Key, shape: Shape)

  ghost function ValOf(s: Shape): Val {
    match s
    case Kept(v) => v
    case Own(o, _) => VRef(o)
  }

  ghost function ItemsOf(its: seq<SItem>): seq<Item> {
    seq(|its|, i requires 0 <= i < |its| => Item(its[i].key, ValOf(its[i].shape)))
  }

  /** The clones of s are in h, each holding what s says. */
  ghost predicate Built(h: Graph, s: Shape)
    decreases s
  {
    s.Own? ==>
      s.o in h && h[s.o] == ItemsOf(s.items) && forall i :: 0 <= i < |s.items| ==> Built(h, s.items[i].shape)
  }

  ghost predicate BuiltItems(h: Graph, its: seq<SItem>) {
    forall i :: 0 <= i < |its| ==> Built(h, its[i].shape)
  }

  ghost function Clones(s: Shape): set<Obj>
    decreases s, 0
  {
    if s.Own? then {s.o} + ClonesIn(s.items) else {}
  }

  ghost function ClonesIn(its: seq<SItem>): set<Obj>
    decreases its, 1
  {
    if its == [] then {} else ClonesIn(its[..|its| - 1]) + ClonesAt(its[|its| - 1])
  }

  ghost function ClonesAt(it: SItem): set<Obj>
    decreases it, 0
  {
    Clones(it.shape)
  }

  /** No clone is shared. */
  ghost predicate Tidy(s: Shape)
    decreases s, 0
  {
    s.Own? ==> s.o !in ClonesIn(s.items) && TidyItems(s.items)
  }

  ghost predicate TidyItems(its: seq<SItem>)
    decreases its, 1
  {
    its != [] ==>
      TidyItems(its[..|its| - 1]) && TidyAt(its[|its| - 1]) && ClonesIn(its[..|its| - 1]) !! ClonesAt(its[|its| - 1])
  }

  ghost predicate TidyAt(it: SItem)
    decreases it, 0
  {
    Tidy(it.shape)
  }

  ghost function TreeOf(g: Graph, s: Shape): Tree
    decreases s, 0
  {
    match s
    case Kept(v) => StateOf(g, v)
    case Own(o, items) => Node(o.kind, TreesOf(g, items))
  }

  ghost function TreesOf(g: Graph, its: seq<SItem>): seq<Entry>
    decreases its, 1
  {
    if its == [] then [] else TreesOf(g, its[..|its| - 1]) + [TreeAt(g, its[|its| - 1])]
  }

  ghost function TreeAt(g: Graph, it: SItem): Entry
    decreases it, 0
  {
    Entry(it.key, TreeOf(g, it.shape))
  }

  /** Only what holds no binary is kept; everything else is a clone outside the input graph. */
  ghost predicate Lean(g: Graph, s: Shape)
    decreases s
  {
    match s
    case Kept(v) =>
      !v.VBin? && Denotes(g, v, StateOf(g, v)) && Bufs(StateOf(g, v)) == [] && (v.VRef? ==> v.o in g)
    case Own(o, items) => o !in g && forall i :: 0 <= i < |items| ==> Lean(g, items[i].shape)
  }

  ghost predicate LeanItems(g: Graph, its: seq<SItem>) {
    forall i :: 0 <= i < |its| ==> Lean(g, its[i].shape)
  }

  lemma {:induction false} BuiltKeeps(h: Graph, h': Graph, s: Shape)
    requires Built(h, s) && forall o :: o in Clones(s) ==> o in h' && (o in h ==> h'[o] == h[o])
    ensures Built(h', s)
    decreases s, 0
  {
    if s.Own? {
      BuiltItemsKeep(h, h', s.items);
    }
  }

  lemma {:induction false} BuiltItemsKeep(h: Graph, h': Graph, its: seq<SItem>)
    requires BuiltItems(h, its) && forall o :: o in ClonesIn(its) ==> o in h' && (o in h ==> h'[o] == h[o])
    ensures BuiltItems(h', its)
    decreases its, 1
  {
    if its != [] {
      var n := |its| - 1;
      assert (its decreases to its[n]) && (its[n] decreases to its[n].shape);
      assert forall i :: 0 <= i < n ==> its[..n][i] == its[i];
      assert ClonesIn(its) == ClonesIn(its[..n]) + Clones(its[n].shape);
      BuiltItemsKeep(h, h', its[..n]);
      BuiltKeeps(h, h', its[n].shape);
    }
  }

  lemma {:induction false} ClonesBuilt(h: Graph, g: Graph, s: Shape)
    requires Built(h, s) && Lean(g, s)
    ensures forall o :: o in Clones(s) ==> o in h && o !in g
    decreases s, 0
  {
    if s.Own? {
      ClonesInBuilt(h, g, s.items);
    }
  }

  lemma {:induction false} ClonesInBuilt(h: Graph, g: Graph, its: seq<SItem>)
    requires BuiltItems(h, its) && LeanItems(g, its)
    ensures forall o :: o in ClonesIn(its) ==> o in h && o !in g
    decreases its, 1
  {
    if its != [] {
      var n := |its| - 1;
      assert (its decreases to its[n]) && (its[n] decreases to its[n].shape);
      ClonesInBuilt(h, g, its[..n]);
      ClonesBuilt(h, g, its[n].shape);
    }
  }

  lemma {:induction false} TreesAt(g: Graph, its: seq<SItem>, i: nat)
    requires i < |its|
    ensures |TreesOf(g, its)| == |its| && TreesOf(g, its)[i] == TreeAt(g, its[i])
    decreases |its|
  {
    var n := |its| - 1;
    if i < n {
      TreesAt(g, its[..n], i);
    } else if n > 0 {
      TreesAt(g, its[..n], 0);
    }
  }

  lemma {:induction false} DenotesMore(g: Graph, g': Graph, v: Val, t: Tree)
    requires Denotes(g, v, t) && forall o :: o in g ==> o in g' && g'[o] == g[o]
    ensures Denotes(g', v, t)
    decreases t
  {
    if t.Node? {
      forall i | 0 <= i < |t.items|
        ensures Denotes(g', g[v.o][i].val, t.items[i].val)
      {
        DenotesMore(g, g', g[v.o][i].val, t.items[i].val);
      }
    }
  }

  /** A built shape denotes its tree. */
  lemma {:induction false} ShapeDenotes(g: Graph, h: Graph, s: Shape)
    requires Built(h, s) && Lean(g, s)
    ensures Denotes(h + g, ValOf(s), TreeOf(g, s))
    decreases s
  {
    match s
    case Kept(v) => DenotesMore(g, h + g, v, StateOf(g, v));
    case Own(o, items) =>
      forall i | 0 <= i < |items|
        ensures |TreesOf(g, items)| == |items| && TreesOf(g, items)[i] == TreeAt(g, items[i])
        ensures Denotes(h + g, ValOf(items[i].shape), TreeOf(g, items[i].shape))
      {
        TreesAt(g, items, i);
        ShapeDenotes(g, h, items[i].shape);
      }
      if items == [] {
        assert |TreesOf(g, items)| == 0;
      } else {
        TreesAt(g, items, 0);
      }
  }

  /** s is what a split leaves of the state t; what is kept of the graph holds no binary. */
  ghost predicate Divides(g: Graph, s: Shape, t: Tree)
    decreases t, 1
  {
    match s
    case Kept(v) => StateOf(g, v) == t && Bufs(t) == [] && !t.Bin?
    case Own(o, items) => t.Node? && o.kind == t.kind && DividesItems(g, t.kind, items, t.items)
  }

  ghost predicate DividesItems(g: Graph, kind: Kind, its: seq<SItem>, es: seq<Entry>)
    decreases es, 1
  {
    if es == [] then its == []
    else
      var n := |es| - 1;
      if es[n].val.Bin? && kind.DictK? then DividesItems(g, kind, its, es[..n])
      else
        && its != [] && DividesItems(g, kind, its[..|its| - 1], es[..n])
        && its[|its| - 1].key == es[n].key && DividesEntry(g, its[|its| - 1].shape, es[n])
  }

  ghost predicate DividesEntry(g: Graph, s: Shape, e: Entry)
    decreases e, 0
  {
    if e.val.Bin? then s == Kept(VAtom(PyNone)) else Divides(g, s, e.val)
  }

  /** The tree of such a shape is the stripped state. */
  lemma {:induction false} DividesTree(g: Graph, s: Shape, t: Tree)
    requires Divides(g, s, t)
    ensures TreeOf(g, s) == Strip(t)
    decreases t, 1
  {
    if s.Own? {
      DividesTrees(g, t.kind, s.items, t.items);
    } else {
      StripNothing(t);
    }
  }

  lemma {:induction false} DividesTrees(g: Graph, kind: Kind, its: seq<SItem>, es: seq<Entry>)
    requires DividesItems(g, kind, its, es)
    ensures TreesOf(g, its) == StripItems(kind, es)
    decreases es, 0
  {
    if es != [] {
      var n := |es| - 1;
      assert (es decreases to es[n]) && (es[n] decreases to es[n].val);
      if es[n].val.Bin? && kind.DictK? {
        DividesTrees(g, kind, its, es[..n]);
        NothingMore(StripItems(kind, es[..n]));
      } else {
        DividesTrees(g, kind, its[..|its| - 1], es[..n]);
        var it := its[|its| - 1];
        if !es[n].val.Bin? {
          DividesTree(g, it.shape, es[n].val);
        }
        assert TreeOf(g, it.shape) == if es[n].val.Bin? then Leaf(PyNone) else Strip(es[n].val);
        assert [TreeAt(g, it)] == StripEntry(kind, es[n]);
      }
    }
  }

  lemma {:induction false} DividesSnoc(g: Graph, kind: Kind, its: seq<SItem>, es: seq<Entry>, more: seq<SItem>,
        e: Entry)
    requires DividesItems(g, kind, its, es)
    requires if e.val.Bin? && kind.DictK? then more == []
             else |more| == 1 && more[0].key == e.key && DividesEntry(g, more[0].shape, e)
    ensures DividesItems(g, kind, its + more, es + [e])
  {
    assert (es + [e])[..|es|] == es;
    if more == [] {
      NothingMore(its);
    } else {
      assert (its + more)[..|its|] == its && (its + more)[|its|] == more[0];
    }
  }

  // ---------------------------------------------------------------------
  // Copy on write
  // ---------------------------------------------------------------------

  /** s is v itself, or a clone of v that had to be made; so for everything below v. */
  ghost predicate Spares(g: Graph, s: Shape, v: Val)
    decreases s, 0
  {
    match s
    case Kept(v') => v' == v
    case Own(o, items) =>
      v.VRef? && v.o in g && Bufs(StateOf(g, v)) != [] && SparesItems(g, v.o.kind, items, g[v.o])
  }

  ghost predicate SparesItems(g: Graph, kind: Kind, its: seq<SItem>, items: seq<Item>)
    decreases its, |items|
  {
    if items == [] then its == []
    else
      var n := |items| - 1;
      if items[n].val.VBin? && kind.DictK? then SparesItems(g, kind, its, items[..n])
      else its != [] && SparesItems(g, kind, its[..|its| - 1], items[..n]) && SparesItem(g, its[|its| - 1], items[n])
  }

  ghost predicate SparesItem(g: Graph, it: SItem, item: Item)
    decreases it, 0
  {
    it.key == item.key && if item.val.VBin? then it.shape == Kept(VAtom(PyNone)) else Spares(g, it.shape, item.val)
  }

  lemma {:induction false} SparesSnoc(g: Graph, kind: Kind, its: seq<SItem>, items: seq<Item>, more: seq<SItem>,
        item: Item)
    requires SparesItems(g, kind, its, items)
    requires if item.val.VBin? && kind.DictK? then more == [] else |more| == 1 && SparesItem(g, more[0], item)
    ensures SparesItems(g, kind, its + more, items + [item])
  {
    assert (items + [item])[..|items|] == items;
    if more == [] {
      NothingMore(its);
    } else {
      assert (its + more)[..|its|] == its && (its + more)[|its|] == more[0];
    }
  }
}
