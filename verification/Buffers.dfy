/**
 * Splitting binaries out of an object graph, and putting them back, on the heap.
 *
 * The walk keeps an explicit stack of frames and clones a container only when it has to
 * change. Its input may be any finite graph: shared containers are fine, a container
 * among its own ancestors or nesting beyond MAX_DEPTH is rejected.
 */
module Buffers {
  import opened Trees
  import opened Graphs

  /** A container being walked; next is the position of its iterator. */
  datatype Frame = Frame(
    state: Obj, ancestors: set<Obj>, depth: int, next: nat, clone: Obj?, parentKey: Key, path: Path)

  /** How much of a frame's container is settled, and what the settled part became. */
  datatype Mark = Mark(m: nat, done: seq<SItem>)

  // ---------------------------------------------------------------------
  // Storing and deleting by key
  // ---------------------------------------------------------------------

  /** The position of key, or the number of items when it is missing. */
  function Find(items: seq<Item>, key: Key): (i: nat)
    ensures i <= |items|
    ensures i < |items| ==> items[i].key == key
    ensures forall j :: 0 <= j < i ==> items[j].key != key
  {
    if items == [] || items[0].key == key then 0 else 1 + Find(items[1..], key)
  }

  function SetItem(items: seq<Item>, key: Key, v: Val): seq<Item> {
    var i := Find(items, key);
    if i < |items| then items[i := Item(key, v)] else items + [Item(key, v)]
  }

  function DelItem(items: seq<Item>, key: Key): seq<Item> {
    var i := Find(items, key);
    if i < |items| then items[..i] + items[i + 1..] else items
  }

  lemma {:induction false} FindAt(a: seq<Item>, e: Item, b: seq<Item>)
    requires forall i :: 0 <= i < |a| ==> a[i].key != e.key
    ensures Find(a + [e] + b, e.key) == |a|
  {
    var all := a + [e] + b;
    assert all[|a|] == e;
    assert forall i :: 0 <= i < |a| ==> all[i] == a[i];
  }

  lemma {:induction false} SetDelAt(a: seq<Item>, e: Item, b: seq<Item>, v: Val)
    requires forall i :: 0 <= i < |a| ==> a[i].key != e.key
    ensures SetItem(a + [e] + b, e.key, v) == a + [Item(e.key, v)] + b
    ensures DelItem(a + [e] + b, e.key) == a + b
  {
    FindAt(a, e, b);
  }

  // ---------------------------------------------------------------------
  // Frames
  // ---------------------------------------------------------------------

  ghost predicate Passed(g: Graph, items: seq<Item>, ancestors: set<Obj>, depth: int)
    requires WfGraph(g)
  {
    forall i :: 0 <= i < |items| && items[i].val.VRef? ==>
      items[i].val.o in g && Accept(g, items[i].val.o, ancestors, depth)
  }

  ghost function Settled(g: Graph, f: Frame, k: Mark): seq<Entry> {
    if f.state in g && k.m <= |g[f.state]| then StatesOf(g, g[f.state][..k.m]) else []
  }

  /** The frame is null-clone exactly as long as no binary turned up in what is settled. */
  ghost predicate CloneOk(g: Graph, h: Graph, f: Frame, k: Mark)
    requires f.state in g && k.m <= |g[f.state]|
  {
    var items := g[f.state];
    if f.clone == null then
      ItemsOf(k.done) == items[..k.m] && ClonesIn(k.done) == {} && BufsItems(Settled(g, f, k)) == []
    else
      && f.clone in h && f.clone !in g && f.clone !in ClonesIn(k.done) && f.clone.kind == f.state.kind
      && h[f.clone] == ItemsOf(k.done) + items[k.m..] && BufsItems(Settled(g, f, k)) != []
  }

  ghost predicate DoneOk(g: Graph, h: Graph, done: seq<SItem>) {
    BuiltItems(h, done) && LeanItems(g, done) && TidyItems(done)
  }

  ghost predicate DoneTrees(g: Graph, f: Frame, k: Mark)
    requires f.state in g && k.m <= |g[f.state]|
  {
    DividesItems(g, f.state.kind, k.done, Settled(g, f, k))
  }

  /** Of the settled items, only those that hold a binary were replaced. */
  ghost predicate SparesSettled(g: Graph, f: Frame, k: Mark)
    requires f.state in g && k.m <= |g[f.state]|
  {
    SparesItems(g, f.state.kind, k.done, g[f.state][..k.m])
  }

  /** The settled items were accepted, and done is what the split leaves of them. */
  ghost predicate Done(g: Graph, h: Graph, f: Frame, k: Mark)
    requires WfGraph(g)
  {
    && f.state in g && f.depth <= MAX_DEPTH && k.m <= |g[f.state]|
    && DoneTrees(g, f, k) && DoneOk(g, h, k.done)
    && Passed(g, g[f.state][..k.m], f.ancestors, f.depth + 1)
  }

  ghost predicate FrameOk(g: Graph, h: Graph, f: Frame, k: Mark)
    requires WfGraph(g)
  {
    Done(g, h, f, k) && CloneOk(g, h, f, k) && SparesSettled(g, f, k)
  }

  ghost function Owns(f: Frame, k: Mark): set<Obj> {
    (if f.clone == null then {} else {f.clone}) + ClonesIn(k.done)
  }

  /** f is suspended at the item whose container is walked by child. */
  ghost predicate Suspended(g: Graph, f: Frame, k: Mark, child: Frame) {
    && f.state in g && k.m < |g[f.state]| && f.next == k.m + 1
    && g[f.state][k.m] == Item(child.parentKey, VRef(child.state))
    && child.state !in f.ancestors && child.ancestors == f.ancestors + {child.state}
    && child.depth == f.depth + 1 && child.path == f.path + [child.parentKey]
  }

  /** The pairs already split out. */
  ghost function Emitted(g: Graph, stack: seq<Frame>, marks: seq<Mark>): seq<Patch>
    requires |stack| == |marks|
    decreases |stack|
  {
    if stack == [] then []
    else
      var n := |stack| - 1;
      Emitted(g, stack[..n], marks[..n]) + Below(stack[n].path, BufsItems(Settled(g, stack[n], marks[n])))
  }

  /** The bottom frame walks the root, and each frame is suspended at the one above it. */
  ghost predicate Linked(g: Graph, root: Obj, stack: seq<Frame>, marks: seq<Mark>)
    requires |stack| == |marks|
    decreases |stack|
  {
    if stack == [] then true
    else
      var n := |stack| - 1;
      && Linked(g, root, stack[..n], marks[..n]) && stack[n].state in g && stack[n].depth <= MAX_DEPTH
      && if n == 0 then
           stack[n].state == root && stack[n].ancestors == {root} && stack[n].depth == 0 && stack[n].path == []
         else Suspended(g, stack[n - 1], marks[n - 1], stack[n])
  }

  ghost function AllOwned(stack: seq<Frame>, marks: seq<Mark>): set<Obj>
    requires |stack| == |marks|
    decreases |stack|
  {
    if stack == [] then {}
    else AllOwned(stack[..|stack| - 1], marks[..|stack| - 1]) + Owns(stack[|stack| - 1], marks[|stack| - 1])
  }

  /** Every frame is in order, and no two own the same clone. */
  ghost predicate Frames(g: Graph, h: Graph, stack: seq<Frame>, marks: seq<Mark>)
    requires WfGraph(g) && |stack| == |marks|
    decreases |stack|
  {
    stack != [] ==>
      var n := |stack| - 1;
      && Frames(g, h, stack[..n], marks[..n]) && FrameOk(g, h, stack[n], marks[n])
      && AllOwned(stack[..n], marks[..n]) !! Owns(stack[n], marks[n])
  }

  ghost predicate WalkInv(g: Graph, h: Graph, root: Obj, stack: seq<Frame>, marks: seq<Mark>, ps: seq<Patch>)
    requires WfGraph(g)
  {
    && |stack| == |marks| && Linked(g, root, stack, marks) && Frames(g, h, stack, marks) && stack != []
    && stack[|stack| - 1].next == marks[|stack| - 1].m
    && ps == Emitted(g, stack, marks)
  }

  // ---------------------------------------------------------------------
  // What one step does to its frame
  // ---------------------------------------------------------------------

  lemma {:induction false} StatesSnoc(g: Graph, items: seq<Item>, m: nat)
    requires m < |items|
    ensures StatesOf(g, items[..m + 1]) ==
            StatesOf(g, items[..m]) + [Entry(items[m].key, StateOf(g, items[m].val))]
  {}

  lemma {:induction false} ItemsSnoc(done: seq<SItem>, it: SItem)
    ensures ItemsOf(done + [it]) == ItemsOf(done) + [Item(it.key, ValOf(it.shape))]
  {}

  lemma {:induction false} TreesSnoc(g: Graph, done: seq<SItem>, it: SItem)
    ensures TreesOf(g, done + [it]) == TreesOf(g, done) + [TreeAt(g, it)]
    ensures ClonesIn(done + [it]) == ClonesIn(done) + Clones(it.shape)
    ensures TidyItems(done + [it]) <==> TidyItems(done) && Tidy(it.shape) && ClonesIn(done) !! Clones(it.shape)
  {
    assert (done + [it])[..|done|] == done;
  }

  /** The key of the next item is not among the settled ones. */
  lemma {:induction false} NextKey(g: Graph, f: Frame, k: Mark)
    requires WfGraph(g) && f.state in g && k.m < |g[f.state]|
    requires DoneTrees(g, f, k)
    ensures forall j :: 0 <= j < |k.done| ==> ItemsOf(k.done)[j].key != g[f.state][k.m].key
  {
    DividesTrees(g, f.state.kind, k.done, Settled(g, f, k));
    forall j | 0 <= j < |k.done|
      ensures k.done[j].key != g[f.state][k.m].key
    {
      TreesAt(g, k.done, j);
      StripKeys(f.state.kind, Settled(g, f, k), j);
    }
  }

  lemma {:induction false} DoneSnoc(g: Graph, h: Graph, done: seq<SItem>, it: SItem)
    requires DoneOk(g, h, done)
    requires Built(h, it.shape) && Lean(g, it.shape) && Tidy(it.shape) && Clones(it.shape) !! ClonesIn(done)
    ensures DoneOk(g, h, done + [it])
  {
    TreesSnoc(g, done, it);
  }

  lemma {:induction false} DoneTreesSnoc(g: Graph, f: Frame, k: Mark, it: SItem)
    requires f.state in g && k.m < |g[f.state]| && DoneTrees(g, f, k) && it.key == g[f.state][k.m].key
    requires !StateOf(g, g[f.state][k.m].val).Bin? && Divides(g, it.shape, StateOf(g, g[f.state][k.m].val))
    ensures DoneTrees(g, f, Mark(k.m + 1, k.done + [it]))
  {
    StatesSnoc(g, g[f.state], k.m);
    DividesSnoc(g, f.state.kind, k.done, Settled(g, f, k), [it], Entry(it.key, StateOf(g, g[f.state][k.m].val)));
  }

  lemma {:induction false} PassedSnoc(g: Graph, items: seq<Item>, m: nat, ancestors: set<Obj>, depth: int)
    requires WfGraph(g) && m < |items| && Passed(g, items[..m], ancestors, depth)
    requires items[m].val.VRef? ==> items[m].val.o in g && Accept(g, items[m].val.o, ancestors, depth)
    ensures Passed(g, items[..m + 1], ancestors, depth)
  {
    assert items[..m + 1] == items[..m] + [items[m]];
  }

  /** Settling an item that is no binary. */
  lemma {:induction false} Advance(g: Graph, h: Graph, f: Frame, k: Mark, s: Shape)
    requires WfGraph(g) && Done(g, h, f, k) && k.m < |g[f.state]|
    requires !StateOf(g, g[f.state][k.m].val).Bin? && Divides(g, s, StateOf(g, g[f.state][k.m].val))
    requires Built(h, s) && Lean(g, s) && Tidy(s) && Clones(s) !! ClonesIn(k.done)
    requires g[f.state][k.m].val.VRef? ==>
               g[f.state][k.m].val.o in g && Accept(g, g[f.state][k.m].val.o, f.ancestors, f.depth + 1)
    ensures Done(g, h, f, Mark(k.m + 1, k.done + [SItem(g[f.state][k.m].key, s)]))
  {
    var it := SItem(g[f.state][k.m].key, s);
    var k' := Mark(k.m + 1, k.done + [it]);
    PassedSnoc(g, g[f.state], k.m, f.ancestors, f.depth + 1);
    assert DoneTrees(g, f, k') by {
      DoneTreesSnoc(g, f, k, it);
    }
    assert DoneOk(g, h, k'.done) by {
      DoneSnoc(g, h, k.done, it);
    }
  }

  ghost function BlankShape(kind: Kind, key: Key): seq<SItem> {
    if kind.ListK? then [SItem(key, Kept(VAtom(PyNone)))] else []
  }

  /** Settling a binary item, blanked or deleted. */
  lemma {:induction false} AdvanceBin(g: Graph, h: Graph, f: Frame, k: Mark, b: Bytes)
    requires WfGraph(g) && Done(g, h, f, k) && k.m < |g[f.state]| && g[f.state][k.m].val == VBin(b)
    ensures var k' := Mark(k.m + 1, k.done + BlankShape(f.state.kind, g[f.state][k.m].key));
            Done(g, h, f, k') && ClonesIn(k'.done) == ClonesIn(k.done)
  {
    var items, key := g[f.state], g[f.state][k.m].key;
    var k' := Mark(k.m + 1, k.done + BlankShape(f.state.kind, key));
    PassedSnoc(g, items, k.m, f.ancestors, f.depth + 1);
    assert DoneTrees(g, f, k') by {
      StatesSnoc(g, items, k.m);
      DividesSnoc(g, f.state.kind, k.done, Settled(g, f, k), BlankShape(f.state.kind, key), Entry(key, Bin(b)));
    }
    assert DoneOk(g, h, k'.done) && ClonesIn(k'.done) == ClonesIn(k.done) by {
      BlankDone(g, h, f.state.kind, k.done, key);
    }
  }

  lemma {:induction false} BlankDone(g: Graph, h: Graph, kind: Kind, done: seq<SItem>, key: Key)
    requires DoneOk(g, h, done)
    ensures DoneOk(g, h, done + BlankShape(kind, key)) && ClonesIn(done + BlankShape(kind, key)) == ClonesIn(done)
  {
    if kind.ListK? {
      var it := SItem(key, Kept(VAtom(PyNone)));
      TreesSnoc(g, done, it);
      DoneSnoc(g, h, done, it);
    } else {
      NothingMore(done);
    }
  }

  /** A frame does not notice changes outside what it owns. */
  lemma {:induction false} FrameKeeps(g: Graph, h: Graph, h': Graph, f: Frame, k: Mark)
    requires WfGraph(g) && FrameOk(g, h, f, k)
    requires forall o :: o in Owns(f, k) ==> o in h && o in h' && h'[o] == h[o]
    ensures FrameOk(g, h', f, k)
  {
    BuiltItemsKeep(h, h', k.done);
  }

  /** The position of the iterator does not matter to what is settled. */
  lemma {:induction false} FrameNext(g: Graph, h: Graph, f: Frame, k: Mark, j: nat)
    requires WfGraph(g) && FrameOk(g, h, f, k)
    ensures FrameOk(g, h, f.(next := j), k) && Owns(f.(next := j), k) == Owns(f, k)
    ensures Settled(g, f.(next := j), k) == Settled(g, f, k)
  {}

  lemma {:induction false} OwnsInGraph(g: Graph, h: Graph, f: Frame, k: Mark)
    requires WfGraph(g) && FrameOk(g, h, f, k)
    ensures forall o :: o in Owns(f, k) ==> o in h && o !in g
  {
    ClonesInBuilt(h, g, k.done);
  }

  // ---------------------------------------------------------------------
  // What one step does to the stack
  // ---------------------------------------------------------------------

  ghost predicate Same(h: Graph, h': Graph, except: set<Obj>) {
    forall o :: o in h && o !in except ==> o in h' && h'[o] == h[o]
  }

  /** Frames survive a change to what they do not own. */
  lemma {:induction false} FramesKeep(g: Graph, h: Graph, h': Graph, stack: seq<Frame>, marks: seq<Mark>,
        changed: set<Obj>)
    requires WfGraph(g) && |stack| == |marks| && Same(h, h', changed)
    requires Frames(g, h, stack, marks) && AllOwned(stack, marks) !! changed
    ensures Frames(g, h', stack, marks)
    ensures forall o :: o in AllOwned(stack, marks) ==> o in h
    decreases |stack|
  {
    if stack != [] {
      var n := |stack| - 1;
      FramesKeep(g, h, h', stack[..n], marks[..n], changed);
      OwnsInGraph(g, h, stack[n], marks[n]);
      FrameKeeps(g, h, h', stack[n], marks[n]);
    }
  }

  lemma {:induction false} SnocInit<T>(s: seq<T>, x: T)
    ensures (s + [x])[..|s + [x]| - 1] == s && (s + [x])[|s + [x]| - 1] == x
  {}

  lemma {:induction false} InitSnoc<T>(s: seq<T>)
    requires |s| >= 2
    ensures s[..|s| - 2] + [s[|s| - 2]] == s[..|s| - 1]
  {}

  lemma {:induction false} EmittedSnoc(g: Graph, stack: seq<Frame>, marks: seq<Mark>, f: Frame, k: Mark)
    requires |stack| == |marks|
    ensures Emitted(g, stack + [f], marks + [k]) ==
            Emitted(g, stack, marks) + Below(f.path, BufsItems(Settled(g, f, k)))
  {
    SnocInit(stack, f);
    SnocInit(marks, k);
  }

  /** A frame that fits on top. */
  lemma {:induction false} FramesSnoc(g: Graph, h: Graph, h': Graph, stack: seq<Frame>, marks: seq<Mark>,
                   f: Frame, k: Mark, changed: set<Obj>)
    requires WfGraph(g) && |stack| == |marks| && Frames(g, h, stack, marks) && FrameOk(g, h', f, k)
    requires Same(h, h', changed) && AllOwned(stack, marks) !! changed
    requires forall o :: o in Owns(f, k) ==> o in changed || o !in h
    ensures Frames(g, h', stack + [f], marks + [k])
  {
    FramesKeep(g, h, h', stack, marks, changed);
    SnocInit(stack, f);
    SnocInit(marks, k);
  }

  lemma {:induction false} LinkedSnoc(g: Graph, root: Obj, stack: seq<Frame>, marks: seq<Mark>, f: Frame, k: Mark)
    requires |stack| == |marks| && Linked(g, root, stack, marks) && f.state in g && f.depth <= MAX_DEPTH
    requires stack == [] ==> f.state == root && f.ancestors == {root} && f.depth == 0 && f.path == []
    requires stack != [] ==> Suspended(g, stack[|stack| - 1], marks[|stack| - 1], f)
    ensures Linked(g, root, stack + [f], marks + [k])
  {
    SnocInit(stack, f);
    SnocInit(marks, k);
  }

  /** Replacing the top frame by one that stands for the same container. */
  lemma {:induction false} LinkedTop(g: Graph, root: Obj, stack: seq<Frame>, marks: seq<Mark>, f': Frame, k': Mark)
    requires |stack| == |marks| && stack != [] && Linked(g, root, stack, marks)
    requires f' == stack[|stack| - 1].(next := f'.next, clone := f'.clone)
    ensures Linked(g, root, stack[..|stack| - 1] + [f'], marks[..|stack| - 1] + [k'])
  {
    var n := |stack| - 1;
    LinkedSnoc(g, root, stack[..n], marks[..n], f', k');
  }

  /** A step that settles the next item of the top frame. */
  lemma {:induction false} WalkTop(g: Graph, h: Graph, h': Graph, root: Obj, stack: seq<Frame>, marks: seq<Mark>,
        ps: seq<Patch>, f': Frame, k': Mark, extra: seq<Patch>)
    requires WfGraph(g) && WalkInv(g, h, root, stack, marks, ps)
    requires f' == stack[|stack| - 1].(next := f'.next, clone := f'.clone) && FrameOk(g, h', f', k')
    requires f'.next == k'.m && Same(h, h', Owns(stack[|stack| - 1], marks[|stack| - 1]))
    requires forall o :: o in Owns(f', k') ==> o in Owns(stack[|stack| - 1], marks[|stack| - 1]) || o !in h
    requires BufsItems(Settled(g, f', k')) == BufsItems(Settled(g, stack[|stack| - 1], marks[|stack| - 1])) + extra
    ensures WalkInv(g, h', root, stack[..|stack| - 1] + [f'], marks[..|stack| - 1] + [k'], ps + Below(f'.path, extra))
  {
    hide FrameOk;
    var n := |stack| - 1;
    FramesSnoc(g, h, h', stack[..n], marks[..n], f', k', Owns(stack[n], marks[n]));
    LinkedTop(g, root, stack, marks, f', k');
    var before := BufsItems(Settled(g, stack[n], marks[n]));
    EmittedSnoc(g, stack[..n], marks[..n], f', k');
    BelowAppend(f'.path, before, extra);
    Assoc(Emitted(g, stack[..n], marks[..n]), Below(f'.path, before), Below(f'.path, extra));
  }

  lemma {:induction false} TopTwo(g: Graph, h: Graph, root: Obj, stack: seq<Frame>, marks: seq<Mark>)
    requires WfGraph(g) && |stack| == |marks| && |stack| >= 2
    requires Linked(g, root, stack, marks) && Frames(g, h, stack, marks)
    ensures var n := |stack| - 1;
            && Suspended(g, stack[n - 1], marks[n - 1], stack[n])
            && FrameOk(g, h, stack[n - 1], marks[n - 1]) && FrameOk(g, h, stack[n], marks[n])
            && Owns(stack[n - 1], marks[n - 1]) !! Owns(stack[n], marks[n])
            && Frames(g, h, stack[..n - 1], marks[..n - 1])
            && AllOwned(stack[..n - 1], marks[..n - 1]) !! Owns(stack[n - 1], marks[n - 1]) + Owns(stack[n], marks[n])
            && Linked(g, root, stack[..n], marks[..n])
  {
    var n := |stack| - 1;
    assert stack[..n][..n - 1] == stack[..n - 1] && marks[..n][..n - 1] == marks[..n - 1];
    assert stack[..n][n - 1] == stack[n - 1] && marks[..n][n - 1] == marks[n - 1];
  }

  /** A step that ends the top frame and settles the item it was suspended for. */
  lemma {:induction false} WalkPop(g: Graph, h: Graph, h': Graph, root: Obj, stack: seq<Frame>, marks: seq<Mark>,
        ps: seq<Patch>, f': Frame, k': Mark)
    requires WfGraph(g) && WalkInv(g, h, root, stack, marks, ps) && |stack| >= 2
    requires var n := |stack| - 1;
             && f' == stack[n - 1].(clone := f'.clone) && FrameOk(g, h', f', k') && f'.next == k'.m
             && Same(h, h', Owns(stack[n - 1], marks[n - 1]) + Owns(stack[n], marks[n]))
             && (forall o :: o in Owns(f', k') ==>
                   o in Owns(stack[n - 1], marks[n - 1]) + Owns(stack[n], marks[n]) || o !in h)
             && BufsItems(Settled(g, f', k')) ==
                BufsItems(Settled(g, stack[n - 1], marks[n - 1])) +
                Below([stack[n].parentKey], BufsItems(Settled(g, stack[n], marks[n])))
    ensures var n := |stack| - 1;
            WalkInv(g, h', root, stack[..n - 1] + [f'], marks[..n - 1] + [k'], ps)
  {
    hide FrameOk;
    var n := |stack| - 1;
    var p, kp, c, kc := stack[n - 1], marks[n - 1], stack[n], marks[n];
    TopTwo(g, h, root, stack, marks);
    FramesSnoc(g, h, h', stack[..n - 1], marks[..n - 1], f', k', Owns(p, kp) + Owns(c, kc));
    LinkedPop(g, root, stack, marks, f', k');
    PopEmits(g, stack, marks, f', k');
  }

  lemma {:induction false} LinkedPop(g: Graph, root: Obj, stack: seq<Frame>, marks: seq<Mark>, f': Frame, k': Mark)
    requires |stack| == |marks| && |stack| >= 2 && Linked(g, root, stack, marks)
    requires f' == stack[|stack| - 2].(next := f'.next, clone := f'.clone)
    ensures Linked(g, root, stack[..|stack| - 2] + [f'], marks[..|stack| - 2] + [k'])
  {
    var n := |stack| - 1;
    LinkedTop(g, root, stack[..n], marks[..n], f', k');
    assert stack[..n][..n - 1] == stack[..n - 1] && marks[..n][..n - 1] == marks[..n - 1];
  }

  lemma {:induction false} EmittedTwo(g: Graph, stack: seq<Frame>, marks: seq<Mark>)
    requires |stack| == |marks| && |stack| >= 2
    ensures var n := |stack| - 1;
            Emitted(g, stack, marks) ==
            Emitted(g, stack[..n - 1], marks[..n - 1]) +
            Below(stack[n - 1].path, BufsItems(Settled(g, stack[n - 1], marks[n - 1]))) +
            Below(stack[n].path, BufsItems(Settled(g, stack[n], marks[n])))
  {
    var n := |stack| - 1;
    assert stack[..n][..n - 1] == stack[..n - 1] && marks[..n][..n - 1] == marks[..n - 1];
    assert stack[..n][n - 1] == stack[n - 1] && marks[..n][n - 1] == marks[n - 1];
  }

  /** Ending the top frame splits out nothing more. */
  lemma {:induction false} PopEmits(g: Graph, stack: seq<Frame>, marks: seq<Mark>, f': Frame, k': Mark)
    requires |stack| == |marks| && |stack| >= 2
    requires var n := |stack| - 1;
             && f'.path == stack[n - 1].path && stack[n].path == stack[n - 1].path + [stack[n].parentKey]
             && BufsItems(Settled(g, f', k')) ==
                BufsItems(Settled(g, stack[n - 1], marks[n - 1])) +
                Below([stack[n].parentKey], BufsItems(Settled(g, stack[n], marks[n])))
    ensures var n := |stack| - 1;
            Emitted(g, stack[..n - 1] + [f'], marks[..n - 1] + [k']) == Emitted(g, stack, marks)
  {
    var n := |stack| - 1;
    var bp, bc := BufsItems(Settled(g, stack[n - 1], marks[n - 1])), BufsItems(Settled(g, stack[n], marks[n]));
    EmittedTwo(g, stack, marks);
    EmittedSnoc(g, stack[..n - 1], marks[..n - 1], f', k');
    BelowTwice(stack[n - 1].path, stack[n].parentKey, bp, bc);
    Assoc(Emitted(g, stack[..n - 1], marks[..n - 1]), Below(stack[n - 1].path, bp), Below(stack[n].path, bc));
  }

  lemma {:induction false} BelowTwice(path: Path, key: Key, ps: seq<Patch>, qs: seq<Patch>)
    ensures Below(path, ps + Below([key], qs)) == Below(path, ps) + Below(path + [key], qs)
  {
    BelowAppend(path, ps, Below([key], qs));
    BelowBelow(path, [key], qs);
  }

  lemma {:induction false} FrameStarts(g: Graph, h: Graph, child: Frame)
    requires WfGraph(g) && child.clone == null && child.depth <= MAX_DEPTH && child.state in g
    ensures FrameOk(g, h, child, Mark(0, [])) && Owns(child, Mark(0, [])) == {}
    ensures Settled(g, child, Mark(0, [])) == []
  {
    assert g[child.state][..0] == [];
    assert Settled(g, child, Mark(0, [])) == [];
  }

  /** A container the walk cannot enter makes the whole state unacceptable. */
  lemma {:induction false} RejectUp(g: Graph, root: Obj, stack: seq<Frame>, marks: seq<Mark>, j: nat)
    requires WfGraph(g) && |stack| == |marks| && stack != [] && Linked(g, root, stack, marks) && root in g
    requires j < |g[stack[|stack| - 1].state]| && g[stack[|stack| - 1].state][j].val.VRef?
    requires g[stack[|stack| - 1].state][j].val.o in g
    requires var f := stack[|stack| - 1]; !Accept(g, g[f.state][j].val.o, f.ancestors, f.depth + 1)
    ensures !Accept(g, root, {}, 0)
    decreases |stack|
  {
    var n := |stack| - 1;
    if n == 0 {
      assert {} + {root} == {root};
    } else {
      assert stack[..n][n - 1] == stack[n - 1] && marks[..n][n - 1] == marks[n - 1];
      RejectUp(g, root, stack[..n], marks[..n], marks[n - 1].m);
    }
  }

  // ---------------------------------------------------------------------
  // The cases of the walk
  // ---------------------------------------------------------------------

  lemma {:induction false} CloneSnoc(g: Graph, h: Graph, f: Frame, k: Mark, it: SItem)
    requires f.state in g && k.m < |g[f.state]| && CloneOk(g, h, f, k)
    requires Item(it.key, ValOf(it.shape)) == g[f.state][k.m] && Clones(it.shape) == {}
    requires BufsEntry(Entry(it.key, StateOf(g, g[f.state][k.m].val))) == []
    ensures CloneOk(g, h, f, Mark(k.m + 1, k.done + [it]))
    ensures Owns(f, Mark(k.m + 1, k.done + [it])) == Owns(f, k)
    ensures BufsItems(Settled(g, f, Mark(k.m + 1, k.done + [it]))) == BufsItems(Settled(g, f, k))
  {
    var items := g[f.state];
    SettledSnoc(g, f, k);
    TreesSnoc(g, k.done, it);
    ItemsSnoc(k.done, it);
    assert items[k.m..] == [items[k.m]] + items[k.m + 1..];
    Assoc(ItemsOf(k.done), [items[k.m]], items[k.m + 1..]);
    NothingMore(BufsItems(Settled(g, f, k)));
    assert items[..k.m + 1] == items[..k.m] + [items[k.m]];
  }

  /** One more settled item, spared or replaced. */
  lemma {:induction false} SettledSpares(g: Graph, f: Frame, k: Mark, more: seq<SItem>)
    requires f.state in g && k.m < |g[f.state]| && SparesSettled(g, f, k)
    requires var item := g[f.state][k.m];
             if item.val.VBin? && f.state.kind.DictK? then more == [] else |more| == 1 && SparesItem(g, more[0], item)
    ensures SparesSettled(g, f, Mark(k.m + 1, k.done + more))
  {
    var items := g[f.state];
    assert items[..k.m + 1] == items[..k.m] + [items[k.m]];
    SparesSnoc(g, f.state.kind, k.done, items[..k.m], more, items[k.m]);
  }

  /** An item that holds no binary stays as it is. */
  lemma {:induction false} StepKept(g: Graph, h: Graph, f: Frame, k: Mark)
    requires WfGraph(g) && FrameOk(g, h, f, k) && k.m < |g[f.state]| && Lean(g, Kept(g[f.state][k.m].val))
    requires !StateOf(g, g[f.state][k.m].val).Bin?
    requires g[f.state][k.m].val.VRef? ==> Accept(g, g[f.state][k.m].val.o, f.ancestors, f.depth + 1)
    ensures var k' := Mark(k.m + 1, k.done + [SItem(g[f.state][k.m].key, Kept(g[f.state][k.m].val))]);
            && FrameOk(g, h, f, k') && Owns(f, k') == Owns(f, k)
            && BufsItems(Settled(g, f, k')) == BufsItems(Settled(g, f, k))
  {
    var val := g[f.state][k.m].val;
    Advance(g, h, f, k, Kept(val));
    CloneSnoc(g, h, f, k, SItem(g[f.state][k.m].key, Kept(val)));
    SettledSpares(g, f, k, [SItem(g[f.state][k.m].key, Kept(val))]);
  }

  lemma {:induction false} SettledSnoc(g: Graph, f: Frame, k: Mark)
    requires f.state in g && k.m < |g[f.state]|
    ensures BufsItems(StatesOf(g, g[f.state][..k.m + 1])) ==
            BufsItems(Settled(g, f, k)) + BufsEntry(Entry(g[f.state][k.m].key, StateOf(g, g[f.state][k.m].val)))
  {
    StatesSnoc(g, g[f.state], k.m);
    BufsSnoc(Settled(g, f, k), Entry(g[f.state][k.m].key, StateOf(g, g[f.state][k.m].val)));
  }

  /** c is the clone of f's container, as it is before the next item is settled. */
  ghost predicate Prepared(g: Graph, h: Graph, h1: Graph, f: Frame, k: Mark, c: Obj)
    requires f.state in g && k.m <= |g[f.state]|
  {
    && c !in g && c !in ClonesIn(k.done) && c.kind == f.state.kind
    && c in h1 && h1[c] == ItemsOf(k.done) + g[f.state][k.m..]
    && Same(h, h1, {}) && (f.clone == c || (f.clone == null && c !in h))
  }

  lemma {:induction false} PreparedNew(g: Graph, h: Graph, f: Frame, k: Mark, c: Obj)
    requires WfGraph(g) && FrameOk(g, h, f, k) && f.clone == null && c !in h && c !in g && c.kind == f.state.kind
    ensures Prepared(g, h, h[c := g[f.state]], f, k, c)
  {
    assert g[f.state] == g[f.state][..k.m] + g[f.state][k.m..];
  }

  lemma {:induction false} PreparedOld(g: Graph, h: Graph, f: Frame, k: Mark)
    requires WfGraph(g) && FrameOk(g, h, f, k) && f.clone != null
    ensures Prepared(g, h, h, f, k, f.clone)
  {}

  /** The clone after a binary has been blanked or deleted. */
  function Blanked(kind: Kind, items: seq<Item>, key: Key): seq<Item> {
    if kind.ListK? then SetItem(items, key, VAtom(PyNone)) else DelItem(items, key)
  }

  lemma {:induction false} BlankedAt(g: Graph, f: Frame, k: Mark)
    requires WfGraph(g) && f.state in g && k.m < |g[f.state]| && DoneTrees(g, f, k)
    ensures Blanked(f.state.kind, ItemsOf(k.done) + g[f.state][k.m..], g[f.state][k.m].key) ==
            ItemsOf(k.done + BlankShape(f.state.kind, g[f.state][k.m].key)) + g[f.state][k.m + 1..]
  {
    var items, key := g[f.state], g[f.state][k.m].key;
    NextKey(g, f, k);
    SetDelAt(ItemsOf(k.done), items[k.m], items[k.m + 1..], VAtom(PyNone));
    assert items[k.m..] == [items[k.m]] + items[k.m + 1..];
    Assoc(ItemsOf(k.done), [items[k.m]], items[k.m + 1..]);
    if f.state.kind.ListK? {
      ItemsSnoc(k.done, SItem(key, Kept(VAtom(PyNone))));
    } else {
      NothingMore(k.done);
    }
  }

  /** What a prepared clone owns, and what it leaves alone, whatever is stored into it. */
  lemma {:induction false} PreparedOwns(g: Graph, h: Graph, h1: Graph, f: Frame, k: Mark, c: Obj, items: seq<Item>,
        more: set<Obj>)
    requires f.state in g && k.m <= |g[f.state]| && Prepared(g, h, h1, f, k, c)
    ensures Same(h, h1[c := items], Owns(f, k))
    ensures {c} + ClonesIn(k.done) + more <= Owns(f, k) + more + {c}
    ensures c in Owns(f, k) || c !in h
  {}

  lemma {:induction false} StepBin(g: Graph, h: Graph, h1: Graph, f: Frame, k: Mark, c: Obj, b: Bytes)
    requires WfGraph(g) && FrameOk(g, h, f, k) && k.m < |g[f.state]| && g[f.state][k.m].val == VBin(b)
    requires Prepared(g, h, h1, f, k, c)
    ensures var key := g[f.state][k.m].key;
            var h' := h1[c := Blanked(c.kind, h1[c], key)];
            var k' := Mark(k.m + 1, k.done + BlankShape(f.state.kind, key));
            && FrameOk(g, h', f.(clone := c), k') && ClonesIn(k'.done) == ClonesIn(k.done)
            && BufsItems(Settled(g, f.(clone := c), k')) == BufsItems(Settled(g, f, k)) + [Patch([key], b)]
  {
    var key := g[f.state][k.m].key;
    var h' := h1[c := Blanked(c.kind, h1[c], key)];
    var k' := Mark(k.m + 1, k.done + BlankShape(f.state.kind, key));
    SettledSpares(g, f, k, BlankShape(f.state.kind, key));
    ClonesInBuilt(h, g, k.done);
    AdvanceBin(g, h, f, k, b);
    DoneKeeps(g, h, h', f, f.(clone := c), k');
    BlankedAt(g, f, k);
    SettledSnoc(g, f, k);
  }

  lemma {:induction false} DoneKeeps(g: Graph, h: Graph, h': Graph, f: Frame, f': Frame, k: Mark)
    requires WfGraph(g) && Done(g, h, f, k)
    requires f'.state == f.state && f'.ancestors == f.ancestors && f'.depth == f.depth
    requires forall o :: o in ClonesIn(k.done) && o in h ==> o in h' && h'[o] == h[o]
    ensures Done(g, h', f', k)
  {
    ClonesInBuilt(h, g, k.done);
    BuiltItemsKeep(h, h', k.done);
  }

  lemma {:induction false} AcceptTop(g: Graph, f: Frame, k: Mark, child: Frame)
    requires WfGraph(g) && Suspended(g, f, k, child) && child.state in g && child.depth <= MAX_DEPTH
    requires Passed(g, g[child.state], child.ancestors, child.depth + 1)
    ensures Accept(g, child.state, f.ancestors, f.depth + 1)
  {}

  lemma {:induction false} FinishedFrame(g: Graph, h: Graph, f: Frame, k: Mark, child: Frame, kc: Mark)
    requires WfGraph(g) && Suspended(g, f, k, child) && FrameOk(g, h, child, kc) && kc.m == |g[child.state]|
    ensures Accept(g, child.state, f.ancestors, f.depth + 1)
    ensures Settled(g, child, kc) == StatesOf(g, g[child.state])
    ensures StateOf(g, VRef(child.state)) == Node(child.state.kind, Settled(g, child, kc))
    ensures Denotes(g, VRef(child.state), StateOf(g, VRef(child.state)))
    ensures DoneTrees(g, child, kc)
  {
    assert g[child.state][..kc.m] == g[child.state];
    AcceptTop(g, f, k, child);
    AcceptedState(g, child.state, f.ancestors, f.depth + 1);
  }

  /** The child held no binary: its container stays where it is. */
  lemma {:induction false} StepPopKept(g: Graph, h: Graph, f: Frame, k: Mark, child: Frame, kc: Mark)
    requires WfGraph(g) && Suspended(g, f, k, child) && FrameOk(g, h, f, k) && FrameOk(g, h, child, kc)
    requires kc.m == |g[child.state]| && child.clone == null
    ensures var k' := Mark(k.m + 1, k.done + [SItem(child.parentKey, Kept(VRef(child.state)))]);
            && FrameOk(g, h, f, k') && Owns(f, k') == Owns(f, k)
            && BufsItems(Settled(g, f, k')) ==
               BufsItems(Settled(g, f, k)) + Below([child.parentKey], BufsItems(Settled(g, child, kc)))
  {
    FinishedFrame(g, h, f, k, child, kc);
    StepKept(g, h, f, k);
  }

  /** The child was cloned: its clone replaces it in the clone of the parent. */
  lemma {:induction false} StepPopOwn(g: Graph, h: Graph, h1: Graph, f: Frame, k: Mark, child: Frame, kc: Mark, c: Obj)
    requires WfGraph(g) && Suspended(g, f, k, child) && FrameOk(g, h, f, k) && FrameOk(g, h, child, kc)
    requires kc.m == |g[child.state]| && child.clone != null && Owns(f, k) !! Owns(child, kc)
    requires Prepared(g, h, h1, f, k, c)
    ensures var h' := h1[c := SetItem(h1[c], child.parentKey, VRef(child.clone))];
            var k' := Mark(k.m + 1, k.done + [SItem(child.parentKey, Own(child.clone, kc.done))]);
            && FrameOk(g, h', f.(clone := c), k') && ClonesIn(k'.done) == ClonesIn(k.done) + Owns(child, kc)
            && BufsItems(Settled(g, f.(clone := c), k')) ==
               BufsItems(Settled(g, f, k)) + Below([child.parentKey], BufsItems(Settled(g, child, kc)))
  {
    var s := Own(child.clone, kc.done);
    var it := SItem(child.parentKey, s);
    var h' := h1[c := SetItem(h1[c], child.parentKey, VRef(child.clone))];
    var k' := Mark(k.m + 1, k.done + [it]);
    OwnedShape(g, h, f, k, child, kc);
    OwnedSpares(g, h, f, k, child, kc);
    OwnsInGraph(g, h, child, kc);
    OwnsInGraph(g, h, f, k);
    assert Clones(s) == Owns(child, kc);
    Advance(g, h, f, k, s);
    TreesSnoc(g, k.done, it);
    DoneKeeps(g, h, h', f, f.(clone := c), k');
    CloneStored(g, h', f, k, child, kc, c, h1[c]);
  }

  lemma {:induction false} CloneStored(g: Graph, h': Graph, f: Frame, k: Mark, child: Frame, kc: Mark, c: Obj,
        was: seq<Item>)
    requires WfGraph(g) && Suspended(g, f, k, child) && child.state in g && kc.m == |g[child.state]|
    requires child.clone != null && DoneTrees(g, f, k)
    requires BufsItems(Settled(g, child, kc)) != []
    requires StateOf(g, VRef(child.state)) == Node(child.state.kind, Settled(g, child, kc))
    requires was == ItemsOf(k.done) + g[f.state][k.m..]
    requires c in h' && h'[c] == SetItem(was, child.parentKey, VRef(child.clone)) && c !in g && c.kind == f.state.kind
    requires c !in ClonesIn(k.done + [SItem(child.parentKey, Own(child.clone, kc.done))])
    ensures var k' := Mark(k.m + 1, k.done + [SItem(child.parentKey, Own(child.clone, kc.done))]);
            && CloneOk(g, h', f.(clone := c), k')
            && BufsItems(Settled(g, f.(clone := c), k')) ==
               BufsItems(Settled(g, f, k)) + Below([child.parentKey], BufsItems(Settled(g, child, kc)))
  {
    SettledSnoc(g, f, k);
    ReplacedAt(g, f, k, SItem(child.parentKey, Own(child.clone, kc.done)));
  }

  lemma {:induction false} OwnedShape(g: Graph, h: Graph, f: Frame, k: Mark, child: Frame, kc: Mark)
    requires WfGraph(g) && Suspended(g, f, k, child) && FrameOk(g, h, child, kc)
    requires kc.m == |g[child.state]| && child.clone != null
    ensures var s := Own(child.clone, kc.done);
            && Built(h, s) && Lean(g, s) && Tidy(s)
            && Divides(g, s, StateOf(g, VRef(child.state)))
            && StateOf(g, VRef(child.state)) == Node(child.state.kind, Settled(g, child, kc))
            && Accept(g, child.state, f.ancestors, f.depth + 1)
  {
    FinishedFrame(g, h, f, k, child, kc);
    assert ItemsOf(kc.done) + g[child.state][kc.m..] == ItemsOf(kc.done);
  }

  lemma {:induction false} OwnedSpares(g: Graph, h: Graph, f: Frame, k: Mark, child: Frame, kc: Mark)
    requires WfGraph(g) && Suspended(g, f, k, child) && FrameOk(g, h, f, k) && FrameOk(g, h, child, kc)
    requires kc.m == |g[child.state]| && child.clone != null
    ensures SparesSettled(g, f, Mark(k.m + 1, k.done + [SItem(child.parentKey, Own(child.clone, kc.done))]))
  {
    FinishedFrame(g, h, f, k, child, kc);
    assert g[child.state][..kc.m] == g[child.state];
    var it := SItem(child.parentKey, Own(child.clone, kc.done));
    assert Spares(g, it.shape, VRef(child.state));
    assert SparesItem(g, it, g[f.state][k.m]);
    SettledSpares(g, f, k, [it]);
  }

  lemma {:induction false} ReplacedAt(g: Graph, f: Frame, k: Mark, it: SItem)
    requires WfGraph(g) && f.state in g && k.m < |g[f.state]| && DoneTrees(g, f, k) && it.key == g[f.state][k.m].key
    ensures SetItem(ItemsOf(k.done) + g[f.state][k.m..], it.key, ValOf(it.shape)) ==
            ItemsOf(k.done + [it]) + g[f.state][k.m + 1..]
  {
    var items := g[f.state];
    NextKey(g, f, k);
    SetDelAt(ItemsOf(k.done), items[k.m], items[k.m + 1..], ValOf(it.shape));
    assert items[k.m..] == [items[k.m]] + items[k.m + 1..];
    Assoc(ItemsOf(k.done), [items[k.m]], items[k.m + 1..]);
    ItemsSnoc(k.done, it);
  }

  // ---------------------------------------------------------------------
  // The walk
  // ---------------------------------------------------------------------

  lemma {:induction false} WalkLeaf(g: Graph, h: Graph, root: Obj, stack: seq<Frame>, marks: seq<Mark>, ps: seq<Patch>)
      returns (marks': seq<Mark>)
    requires WfGraph(g) && WalkInv(g, h, root, stack, marks, ps)
    requires var f := stack[|stack| - 1]; f.next < |g[f.state]| && g[f.state][f.next].val.VAtom?
    ensures var n := |stack| - 1;
            WalkInv(g, h, root, stack[..n] + [stack[n].(next := stack[n].next + 1)], marks', ps)
  {
    hide FrameOk;
    var n := |stack| - 1;
    var f, k := stack[n], marks[n];
    StepKept(g, h, f, k);
    var k' := Mark(k.m + 1, k.done + [SItem(g[f.state][k.m].key, Kept(g[f.state][k.m].val))]);
    marks' := marks[..n] + [k'];
    FrameNext(g, h, f, k', f.next + 1);
    NothingMore(BufsItems(Settled(g, f, k)));
    WalkTop(g, h, h, root, stack, marks, ps, f.(next := f.next + 1), k', []);
    BelowOne(f.path, [], []);
    NothingMore(ps);
  }

  lemma {:induction false} WalkBin(g: Graph, h: Graph, h1: Graph, root: Obj, stack: seq<Frame>, marks: seq<Mark>,
        ps: seq<Patch>, c: Obj, b: Bytes)
      returns (marks': seq<Mark>)
    requires WfGraph(g) && WalkInv(g, h, root, stack, marks, ps)
    requires var f := stack[|stack| - 1];
             && f.next < |g[f.state]| && g[f.state][f.next].val == VBin(b)
             && Prepared(g, h, h1, f, marks[|stack| - 1], c)
    ensures var n := |stack| - 1;
            var f := stack[n];
            var key := g[f.state][f.next].key;
            WalkInv(g, h1[c := Blanked(c.kind, h1[c], key)], root, stack[..n] + [f.(next := f.next + 1, clone := c)],
                    marks', ps + [Patch(f.path + [key], b)])
  {
    hide FrameOk;
    var n := |stack| - 1;
    var f, k := stack[n], marks[n];
    var f' := f.(next := f.next + 1, clone := c);
    var key := g[f.state][k.m].key;
    var h' := h1[c := Blanked(c.kind, h1[c], key)];
    var k' := Mark(k.m + 1, k.done + BlankShape(f.state.kind, key));
    StepBin(g, h, h1, f, k, c, b);
    FrameNext(g, h', f.(clone := c), k', f.next + 1);
    PreparedOwns(g, h, h1, f, k, c, Blanked(c.kind, h1[c], key), {});
    marks' := marks[..n] + [k'];
    WalkTop(g, h, h', root, stack, marks, ps, f', k', [Patch([key], b)]);
    BelowOne(f.path, [key], b);
  }

  /** The top frame, waiting at the item it looks at. */
  lemma {:induction false} WalkWait(g: Graph, h: Graph, root: Obj, stack: seq<Frame>, marks: seq<Mark>, ps: seq<Patch>)
    requires WfGraph(g) && WalkInv(g, h, root, stack, marks, ps)
    ensures var n := |stack| - 1;
            var stack' := stack[..n] + [stack[n].(next := stack[n].next + 1)];
            Frames(g, h, stack', marks) && Linked(g, root, stack', marks) && Emitted(g, stack', marks) == ps
  {
    var n := |stack| - 1;
    var f, k := stack[n], marks[n];
    var f' := f.(next := f.next + 1);
    assert marks[..n] + [k] == marks;
    FrameNext(g, h, f, k, f.next + 1);
    FramesSnoc(g, h, h, stack[..n], marks[..n], f', k, Owns(f, k));
    LinkedTop(g, root, stack, marks, f', k);
    EmittedSnoc(g, stack[..n], marks[..n], f', k);
  }

  lemma {:induction false} WalkPush(g: Graph, h: Graph, root: Obj, stack: seq<Frame>, marks: seq<Mark>,
        ps: seq<Patch>, child: Frame)
    requires WfGraph(g) && |stack| == |marks| && stack != [] && Frames(g, h, stack, marks)
    requires Linked(g, root, stack, marks) && Emitted(g, stack, marks) == ps
    requires Suspended(g, stack[|stack| - 1], marks[|stack| - 1], child)
    requires child.clone == null && child.next == 0 && child.depth <= MAX_DEPTH && child.state in g
    ensures WalkInv(g, h, root, stack + [child], marks + [Mark(0, [])], ps)
  {
    hide FrameOk;
    FrameStarts(g, h, child);
    FramesSnoc(g, h, h, stack, marks, child, Mark(0, []), {});
    LinkedSnoc(g, root, stack, marks, child, Mark(0, []));
    EmittedSnoc(g, stack, marks, child, Mark(0, []));
    NothingMore(ps);
  }

  lemma {:induction false} WalkEnter(g: Graph, h: Graph, root: Obj, stack: seq<Frame>, marks: seq<Mark>,
        ps: seq<Patch>, child: Frame)
    requires WfGraph(g) && WalkInv(g, h, root, stack, marks, ps)
    requires var n := |stack| - 1; Suspended(g, stack[n].(next := stack[n].next + 1), marks[n], child)
    requires child.clone == null && child.next == 0 && child.depth <= MAX_DEPTH && child.state in g
    ensures var n := |stack| - 1;
            var stack' := stack[..n] + [stack[n].(next := stack[n].next + 1)] + [child];
            WalkInv(g, h, root, stack', marks + [Mark(0, [])], ps)
  {
    hide FrameOk, Frames, Linked, Emitted, Suspended;
    var n := |stack| - 1;
    var stack' := stack[..n] + [stack[n].(next := stack[n].next + 1)];
    assert Frames(g, h, stack', marks) && Linked(g, root, stack', marks) && Emitted(g, stack', marks) == ps by {
      WalkWait(g, h, root, stack, marks, ps);
    }
    WalkPush(g, h, root, stack', marks, ps, child);
  }

  lemma {:induction false} WalkPopKept(g: Graph, h: Graph, root: Obj, stack: seq<Frame>, marks: seq<Mark>,
        ps: seq<Patch>)
      returns (marks': seq<Mark>)
    requires WfGraph(g) && WalkInv(g, h, root, stack, marks, ps) && |stack| >= 2
    requires var f := stack[|stack| - 1]; f.next == |g[f.state]| && f.clone == null
    ensures WalkInv(g, h, root, stack[..|stack| - 1], marks', ps)
  {
    hide FrameOk;
    var n := |stack| - 1;
    var p, kp, c, kc := stack[n - 1], marks[n - 1], stack[n], marks[n];
    TopTwo(g, h, root, stack, marks);
    StepPopKept(g, h, p, kp, c, kc);
    var k' := Mark(kp.m + 1, kp.done + [SItem(c.parentKey, Kept(VRef(c.state)))]);
    assert p.(clone := p.clone) == p && p.next == k'.m;
    marks' := marks[..n - 1] + [k'];
    WalkPop(g, h, h, root, stack, marks, ps, p, k');
    InitSnoc(stack);
  }

  lemma {:induction false} WalkPopOwn(g: Graph, h: Graph, h1: Graph, root: Obj, stack: seq<Frame>, marks: seq<Mark>,
        ps: seq<Patch>, c: Obj)
      returns (marks': seq<Mark>)
    requires WfGraph(g) && WalkInv(g, h, root, stack, marks, ps) && |stack| >= 2
    requires var f := stack[|stack| - 1]; f.next == |g[f.state]| && f.clone != null
    requires Prepared(g, h, h1, stack[|stack| - 2], marks[|stack| - 2], c)
    ensures var n := |stack| - 1;
            WalkInv(g, h1[c := SetItem(h1[c], stack[n].parentKey, VRef(stack[n].clone))], root,
                    stack[..n - 1] + [stack[n - 1].(clone := c)], marks', ps)
  {
    hide FrameOk;
    var n := |stack| - 1;
    var p, kp, child, kc := stack[n - 1], marks[n - 1], stack[n], marks[n];
    TopTwo(g, h, root, stack, marks);
    StepPopOwn(g, h, h1, p, kp, child, kc, c);
    var items := SetItem(h1[c], child.parentKey, VRef(child.clone));
    PreparedOwns(g, h, h1, p, kp, c, items, Owns(child, kc));
    var k' := Mark(kp.m + 1, kp.done + [SItem(child.parentKey, Own(child.clone, kc.done))]);
    marks' := marks[..n - 1] + [k'];
    WalkPop(g, h, h1[c := items], root, stack, marks, ps, p.(clone := c), k');
  }

  /** What a split is: s is the shape of the result, with its clones in h. */
  ghost predicate Divided(g: Graph, h: Graph, state: Val, result: Val, ps: seq<Patch>, s: Shape) {
    && ValOf(s) == result && Built(h, s) && Lean(g, s) && Tidy(s)
    && Divides(g, s, StateOf(g, state)) && Spares(g, s, state) && ps == Bufs(StateOf(g, state))
    && (s.Kept? <==> ps == []) && (s.Kept? ==> result == state)
  }

  lemma {:induction false} EndEmits(g: Graph, stack: seq<Frame>, marks: seq<Mark>)
    requires |stack| == |marks| == 1 && stack[0].path == []
    ensures Emitted(g, stack, marks) == BufsItems(Settled(g, stack[0], marks[0]))
  {
    var ps := BufsItems(Settled(g, stack[0], marks[0]));
    assert forall i :: 0 <= i < |ps| ==> [] + ps[i].path == ps[i].path;
    assert Below([], ps) == ps;
    assert Emitted(g, stack[..0], marks[..0]) == [];
  }

  /** What a finished bottom frame leaves. */
  lemma {:induction false} EndFrame(g: Graph, h: Graph, f: Frame, k: Mark) returns (s: Shape)
    requires WfGraph(g) && FrameOk(g, h, f, k) && k.m == |g[f.state]| && f.ancestors == {f.state}
    ensures Accept(g, f.state, {}, f.depth)
    ensures var result := if f.clone == null then f.state else f.clone;
            Divided(g, h, VRef(f.state), VRef(result), BufsItems(Settled(g, f, k)), s)
  {
    assert g[f.state][..k.m] == g[f.state] && {} + {f.state} == {f.state};
    assert Accept(g, f.state, {}, f.depth);
    AcceptedState(g, f.state, {}, f.depth);
    if f.clone == null {
      s := Kept(VRef(f.state));
    } else {
      s := Own(f.clone, k.done);
      EndItems(g, k, f.state);
    }
  }

  lemma {:induction false} EndItems(g: Graph, k: Mark, o: Obj)
    requires o in g && k.m == |g[o]|
    ensures ItemsOf(k.done) + g[o][k.m..] == ItemsOf(k.done)
  {}

  lemma {:induction false} WalkEnd(g: Graph, h: Graph, root: Obj, stack: seq<Frame>, marks: seq<Mark>, ps: seq<Patch>)
      returns (s: Shape)
    requires WfGraph(g) && WalkInv(g, h, root, stack, marks, ps) && |stack| == 1
    requires stack[0].next == |g[root]|
    ensures Accept(g, root, {}, 0)
    ensures Divided(g, h, VRef(root), VRef(if stack[0].clone == null then root else stack[0].clone), ps, s)
  {
    EndEmits(g, stack, marks);
    s := EndFrame(g, h, stack[0], marks[0]);
  }

  // The number of steps the walk has left, which does not depend on what it finds.

  ghost function Cost(g: Graph, items: seq<Item>, depth: int): nat
    decreases if depth <= MAX_DEPTH then MAX_DEPTH + 1 - depth else 0, |items|
  {
    if items == [] then 1
    else
      1 + Cost(g, items[1..], depth) +
      if items[0].val.VRef? && items[0].val.o in g && depth < MAX_DEPTH then
        Cost(g, g[items[0].val.o], depth + 1)
      else 0
  }

  ghost function StackCost(g: Graph, stack: seq<Frame>): nat {
    if stack == [] then 0
    else StackCost(g, stack[..|stack| - 1]) + FrameCost(g, stack[|stack| - 1])
  }

  ghost function FrameCost(g: Graph, f: Frame): nat {
    if f.state in g && f.next <= |g[f.state]| then Cost(g, g[f.state][f.next..], f.depth) else 0
  }

  lemma {:induction false} StackCostSnoc(g: Graph, stack: seq<Frame>, f: Frame)
    ensures StackCost(g, stack + [f]) == StackCost(g, stack) + FrameCost(g, f)
  {
    assert (stack + [f])[..|stack|] == stack;
  }

  lemma {:induction false} AdvanceCost(g: Graph, f: Frame, f': Frame)
    requires f.state in g && f.next < |g[f.state]|
    requires f'.state == f.state && f'.depth == f.depth && f'.next == f.next + 1
    ensures FrameCost(g, f) > FrameCost(g, f')
    ensures forall o :: g[f.state][f.next].val == VRef(o) && o in g && f.depth < MAX_DEPTH ==>
              FrameCost(g, f) == 1 + FrameCost(g, f') + Cost(g, g[o], f.depth + 1)
  {
    assert g[f.state][f.next..][1..] == g[f.state][f.next + 1..];
  }

  datatype SplitResult = Raised | Split(state: Val, paths: seq<Path>, buffers: seq<Bytes>)

  ghost function Pairs(paths: seq<Path>, buffers: seq<Bytes>): seq<Patch>
    requires |paths| == |buffers|
  {
    seq(|paths|, i requires 0 <= i < |paths| => Patch(paths[i], buffers[i]))
  }

  lemma {:induction false} WalkStart(g: Graph, root: Obj)
    requires WfGraph(g) && root in g
    ensures WalkInv(g, map[], root, [Frame(root, {root}, 0, 0, null, Idx(0), [])], [Mark(0, [])], Pairs([], []))
  {
    var f, k := Frame(root, {root}, 0, 0, null, Idx(0), []), Mark(0, []);
    FrameStarts(g, map[], f);
    EndEmits(g, [f], [k]);
    LinkedSnoc(g, root, [], [], f, k);
    FramesSnoc(g, map[], map[], [], [], f, k, {});
    assert [] + [f] == [f] && [] + [k] == [k];
  }

  lemma {:induction false} PairsSnoc(paths: seq<Path>, buffers: seq<Bytes>, p: Path, b: Bytes)
    requires |paths| == |buffers|
    ensures Pairs(paths + [p], buffers + [b]) == Pairs(paths, buffers) + [Patch(p, b)]
  {}

  /** Take a binary out of the clone of a frame's container. */
  method ExtractBinary(state: Obj, clone: Obj?, key: Key, ghost g: Graph, ghost h: Graph, ghost f: Frame, ghost k: Mark)
      returns (c: Obj, ghost h1: Graph, ghost h': Graph)
    requires f.state == state && f.clone == clone
    requires WfGraph(g) && Shows(g) && Shows(h) && FrameOk(g, h, f, k)
    modifies h.Keys
    ensures Prepared(g, h, h1, f, k, c) && h' == h1[c := Blanked(c.kind, h1[c], key)]
    ensures Shows(g) && Shows(h') && fresh(h'.Keys - h.Keys)
  {
    c, h1 := CloneOf(state, clone, g, h, f, k);
    c.items := Blanked(c.kind, c.items, key);
    h' := h1[c := c.items];
    assert h'.Keys - h.Keys <= {c};
  }

  /** Store v under key in the clone of a frame's container. */
  method Replace(state: Obj, clone: Obj?, key: Key, v: Val, ghost g: Graph, ghost h: Graph, ghost f: Frame,
        ghost k: Mark)
      returns (c: Obj, ghost h1: Graph, ghost h': Graph)
    requires f.state == state && f.clone == clone
    requires WfGraph(g) && Shows(g) && Shows(h) && FrameOk(g, h, f, k)
    modifies h.Keys
    ensures Prepared(g, h, h1, f, k, c) && h' == h1[c := SetItem(h1[c], key, v)]
    ensures Shows(g) && Shows(h') && fresh(h'.Keys - h.Keys)
  {
    c, h1 := CloneOf(state, clone, g, h, f, k);
    c.items := SetItem(c.items, key, v);
    h' := h1[c := c.items];
    assert h'.Keys - h.Keys <= {c};
  }

  /** The top frame is complete: write its result into the clone of its parent, if it changed. */
  method Pop(stack: seq<Frame>, result: Obj, ghost g: Graph, ghost h: Graph, ghost root: Obj, ghost marks: seq<Mark>,
        ghost ps: seq<Patch>)
      returns (stack': seq<Frame>, ghost h': Graph, ghost marks': seq<Mark>)
    requires WfGraph(g) && Shows(g) && Shows(h) && WalkInv(g, h, root, stack, marks, ps)
    requires |stack| >= 2 && stack[|stack| - 1].next == |g[stack[|stack| - 1].state]|
    requires var f := stack[|stack| - 1]; result == if f.clone != null then f.clone else f.state
    modifies h.Keys
    ensures Shows(g) && Shows(h') && fresh(h'.Keys - h.Keys)
    ensures WalkInv(g, h', root, stack', marks', ps) && StackCost(g, stack') < StackCost(g, stack)
  {
    var n := |stack| - 1;
    TopTwo(g, h, root, stack, marks);
    PopCost(g, stack);
    if result == stack[n].state {
      h' := h;
      marks' := WalkPopKept(g, h, root, stack, marks, ps);
      stack' := stack[..n];
    } else {
      var c;
      ghost var h1;
      c, h1, h' := Replace(stack[n - 1].state, stack[n - 1].clone, stack[n].parentKey, VRef(result),
                           g, h, stack[n - 1], marks[n - 1]);
      marks' := WalkPopOwn(g, h, h1, root, stack, marks, ps, c);
      PopCostWith(g, stack, c);
      stack' := stack[..n - 1] + [stack[n - 1].(clone := c)];
    }
  }

  /** The next item of the top frame is a binary: take it out of the clone. */
  method Extract(stack: seq<Frame>, b: Bytes, ghost g: Graph, ghost h: Graph, ghost root: Obj, ghost marks: seq<Mark>,
        ghost ps: seq<Patch>)
      returns (stack': seq<Frame>, path: Path, ghost h': Graph, ghost marks': seq<Mark>)
    requires WfGraph(g) && Shows(g) && Shows(h) && WalkInv(g, h, root, stack, marks, ps)
    requires stack[|stack| - 1].next < |g[stack[|stack| - 1].state]|
    requires g[stack[|stack| - 1].state][stack[|stack| - 1].next].val == VBin(b)
    modifies h.Keys
    ensures Shows(g) && Shows(h') && fresh(h'.Keys - h.Keys)
    ensures WalkInv(g, h', root, stack', marks', ps + [Patch(path, b)]) && StackCost(g, stack') < StackCost(g, stack)
  {
    var n := |stack| - 1;
    var f := stack[n];
    TopOne(g, h, root, stack, marks, ps);
    var key := f.state.items[f.next].key;
    var c;
    ghost var h1;
    c, h1, h' := ExtractBinary(f.state, f.clone, key, g, h, f, marks[n]);
    marks' := WalkBin(g, h, h1, root, stack, marks, ps, c, b);
    path := f.path + [key];
    stack' := stack[..n] + [f.(next := f.next + 1, clone := c)];
    NextCost(g, stack, f.(next := f.next + 1, clone := c));
  }

  ghost function Found(out: Option<Patch>): seq<Patch> {
    if out.Some? then [out.value] else []
  }

  /** Look at the next item of the top frame. */
  method Visit(stack: seq<Frame>, ghost g: Graph, ghost h: Graph, ghost root: Obj, ghost marks: seq<Mark>,
        ghost ps: seq<Patch>)
      returns (raised: bool, stack': seq<Frame>, out: Option<Patch>, ghost h': Graph, ghost marks': seq<Mark>)
    requires WfGraph(g) && Shows(g) && Shows(h) && WalkInv(g, h, root, stack, marks, ps)
    requires stack[|stack| - 1].next < |g[stack[|stack| - 1].state]|
    modifies h.Keys
    ensures Shows(g) && Shows(h') && fresh(h'.Keys - h.Keys)
    ensures raised ==> root in g && !Accept(g, root, {}, 0)
    ensures !raised ==> WalkInv(g, h', root, stack', marks', ps + Found(out))
    ensures !raised ==> StackCost(g, stack') < StackCost(g, stack)
  {
    hide FrameOk;
    var n := |stack| - 1;
    var f := stack[n];
    TopOne(g, h, root, stack, marks, ps);
    raised, stack', out, h', marks' := false, stack, None, h, marks;
    var item := f.state.items[f.next];
    match item.val {
      case VAtom(_) =>
        NextCost(g, stack, f.(next := f.next + 1));
        NothingMore(ps);
        marks' := WalkLeaf(g, h, root, stack, marks, ps);
        stack' := stack[..n] + [f.(next := f.next + 1)];
      case VBin(b) =>
        var path;
        stack', path, h', marks' := Extract(stack, b, g, h, root, marks, ps);
        out := Some(Patch(path, b));
      case VRef(o) =>
        NothingMore(ps);
        raised, stack', marks' := Descend(stack, item.key, o, g, h, root, marks, ps);
    }
  }

  /** The next item of the top frame is a container: enter it, unless it repeats or is too deep. */
  method Descend(stack: seq<Frame>, key: Key, o: Obj, ghost g: Graph, ghost h: Graph, ghost root: Obj,
        ghost marks: seq<Mark>, ghost ps: seq<Patch>)
      returns (raised: bool, stack': seq<Frame>, ghost marks': seq<Mark>)
    requires WfGraph(g) && WalkInv(g, h, root, stack, marks, ps)
    requires var f := stack[|stack| - 1]; f.next < |g[f.state]| && g[f.state][f.next] == Item(key, VRef(o))
    ensures raised ==> root in g && !Accept(g, root, {}, 0)
    ensures !raised ==> WalkInv(g, h, root, stack', marks', ps) && StackCost(g, stack') < StackCost(g, stack)
  {
    hide FrameOk;
    var n := |stack| - 1;
    var f := stack[n];
    TopOne(g, h, root, stack, marks, ps);
    raised, stack', marks' := false, stack, marks;
    if f.depth + 1 > MAX_DEPTH || o in f.ancestors {
      RejectUp(g, root, stack, marks, f.next);
      raised := true;
    } else {
      var child := Frame(o, f.ancestors + {o}, f.depth + 1, 0, null, key, f.path + [key]);
      PushCost(g, stack, child);
      WalkEnter(g, h, root, stack, marks, ps, child);
      stack', marks' := stack[..n] + [f.(next := f.next + 1)] + [child], marks + [Mark(0, [])];
    }
  }

  /** Look at the next item, and keep the binary that it may be. */
  method Collect(stack: seq<Frame>, paths: seq<Path>, buffers: seq<Bytes>, ghost g: Graph, ghost h: Graph,
        ghost root: Obj, ghost marks: seq<Mark>)
      returns (raised: bool, stack': seq<Frame>, paths': seq<Path>, buffers': seq<Bytes>, ghost h': Graph,
        ghost marks': seq<Mark>)
    requires |paths| == |buffers|
    requires WfGraph(g) && Shows(g) && Shows(h) && WalkInv(g, h, root, stack, marks, Pairs(paths, buffers))
    requires stack[|stack| - 1].next < |g[stack[|stack| - 1].state]|
    modifies h.Keys
    ensures Shows(g) && Shows(h') && fresh(h'.Keys - h.Keys)
    ensures raised ==> root in g && !Accept(g, root, {}, 0)
    ensures !raised ==> |paths'| == |buffers'| && WalkInv(g, h', root, stack', marks', Pairs(paths', buffers'))
    ensures !raised ==> StackCost(g, stack') < StackCost(g, stack)
  {
    hide FrameOk;
    var out;
    raised, stack', out, h', marks' := Visit(stack, g, h, root, marks, Pairs(paths, buffers));
    paths', buffers' := paths, buffers;
    match out {
      case Some(p) =>
        PairsSnoc(paths, buffers, p.path, p.b);
        buffers' := buffers + [p.b];
        paths' := paths + [p.path];
      case None =>
        NothingMore(Pairs(paths, buffers));
    }
  }

  /** One turn of the walk: pop the top frame when it is complete, else look at its next item. */
  method Turn(stack: seq<Frame>, paths: seq<Path>, buffers: seq<Bytes>, ghost g: Graph, ghost h: Graph,
        ghost root: Obj, ghost marks: seq<Mark>)
      returns (raised: bool, stack': seq<Frame>, paths': seq<Path>, buffers': seq<Bytes>, ghost h': Graph,
        ghost marks': seq<Mark>)
    requires |paths| == |buffers|
    requires WfGraph(g) && Shows(g) && Shows(h) && WalkInv(g, h, root, stack, marks, Pairs(paths, buffers))
    requires |stack| == 1 ==> stack[0].next != |stack[0].state.items|
    modifies h.Keys
    ensures Shows(g) && Shows(h') && fresh(h'.Keys - h.Keys)
    ensures raised ==> root in g && !Accept(g, root, {}, 0)
    ensures !raised ==> |paths'| == |buffers'| && WalkInv(g, h', root, stack', marks', Pairs(paths', buffers'))
    ensures !raised ==> StackCost(g, stack') < StackCost(g, stack)
  {
    hide FrameOk;
    var f := stack[|stack| - 1];
    TopOne(g, h, root, stack, marks, Pairs(paths, buffers));
    if f.next == |f.state.items| {
      var result := if f.clone != null then f.clone else f.state;
      raised, paths', buffers' := false, paths, buffers;
      stack', h', marks' := Pop(stack, result, g, h, root, marks, Pairs(paths, buffers));
    } else {
      raised, stack', paths', buffers', h', marks' := Collect(stack, paths, buffers, g, h, root, marks);
    }
  }

  /** The walk over a container. It creates clones but changes nothing that existed before. */
  method Separate(root: Obj, ghost g: Graph) returns (r: SplitResult, ghost h: Graph, ghost s: Shape)
    requires WfGraph(g) && Shows(g) && root in g
    ensures Shows(g) && Shows(h) && fresh(h.Keys)
    ensures r.Raised? <==> !Accept(g, root, {}, 0)
    ensures r.Split? ==> |r.paths| == |r.buffers| && Divided(g, h, VRef(root), r.state, Pairs(r.paths, r.buffers), s)
  {
    hide FrameOk, Frames, Emitted, Divided;
    h, s := map[], Kept(VRef(root));
    var paths: seq<Path>, buffers: seq<Bytes> := [], [];
    var stack := [Frame(root, {root}, 0, 0, null, Idx(0), [])];
    ghost var marks := [Mark(0, [])];
    WalkStart(g, root);
    while true
      invariant Shows(g) && Shows(h) && fresh(h.Keys)
      invariant |paths| == |buffers| && WalkInv(g, h, root, stack, marks, Pairs(paths, buffers))
      decreases StackCost(g, stack)
    {
      if |stack| == 1 && stack[0].next == |stack[0].state.items| {
        s := WalkEnd(g, h, root, stack, marks, Pairs(paths, buffers));
        return Split(VRef(if stack[0].clone != null then stack[0].clone else root), paths, buffers), h, s;
      }
      var raised;
      raised, stack, paths, buffers, h, marks := Turn(stack, paths, buffers, g, h, root, marks);
      if raised {
        return Raised, h, s;
      }
    }
  }

  lemma {:induction false} TopOne(g: Graph, h: Graph, root: Obj, stack: seq<Frame>, marks: seq<Mark>, ps: seq<Patch>)
    requires WfGraph(g) && WalkInv(g, h, root, stack, marks, ps)
    ensures var n := |stack| - 1;
            && FrameOk(g, h, stack[n], marks[n]) && stack[n].state in g && stack[n].next <= |g[stack[n].state]|
            && (stack[n].clone != null ==> stack[n].clone !in g) && root in g
  {
    RootInGraph(g, root, stack, marks);
  }

  lemma {:induction false} RootInGraph(g: Graph, root: Obj, stack: seq<Frame>, marks: seq<Mark>)
    requires |stack| == |marks| && stack != [] && Linked(g, root, stack, marks)
    ensures root in g
    decreases |stack|
  {
    if |stack| > 1 {
      RootInGraph(g, root, stack[..|stack| - 1], marks[..|stack| - 1]);
    }
  }

  /** Popping drops a frame that has one step left. */
  lemma {:induction false} PopCost(g: Graph, stack: seq<Frame>)
    requires |stack| >= 2 && stack[|stack| - 1].state in g
    requires stack[|stack| - 1].next == |g[stack[|stack| - 1].state]|
    ensures StackCost(g, stack[..|stack| - 1]) < StackCost(g, stack)
  {
    assert g[stack[|stack| - 1].state][|g[stack[|stack| - 1].state]|..] == [];
  }

  lemma {:induction false} PopCostWith(g: Graph, stack: seq<Frame>, c: Obj)
    requires |stack| >= 2
    ensures StackCost(g, stack[..|stack| - 2] + [stack[|stack| - 2].(clone := c)]) == StackCost(g, stack[..|stack| - 1])
  {
    var n := |stack| - 1;
    StackCostSnoc(g, stack[..n - 1], stack[n - 1].(clone := c));
    assert stack[..n][..n - 1] == stack[..n - 1];
  }

  lemma {:induction false} NextCost(g: Graph, stack: seq<Frame>, f': Frame)
    requires stack != []
    requires var f := stack[|stack| - 1];
             && f.state in g && f.next < |g[f.state]|
             && f'.state == f.state && f'.depth == f.depth && f'.next == f.next + 1
    ensures StackCost(g, stack[..|stack| - 1] + [f']) < StackCost(g, stack)
  {
    StackCostSnoc(g, stack[..|stack| - 1], f');
    AdvanceCost(g, stack[|stack| - 1], f');
  }

  lemma {:induction false} PushCost(g: Graph, stack: seq<Frame>, child: Frame)
    requires stack != []
    requires var f := stack[|stack| - 1];
             && f.state in g && f.next < |g[f.state]| && g[f.state][f.next].val == VRef(child.state)
             && child.state in g && f.depth < MAX_DEPTH && child.depth == f.depth + 1 && child.next == 0
    ensures var f := stack[|stack| - 1];
            StackCost(g, stack[..|stack| - 1] + [f.(next := f.next + 1)] + [child]) < StackCost(g, stack)
  {
    var n := |stack| - 1;
    var f := stack[n];
    AdvanceCost(g, f, f.(next := f.next + 1));
    StackCostSnoc(g, stack[..n], f.(next := f.next + 1));
    StackCostSnoc(g, stack[..n] + [f.(next := f.next + 1)], child);
    assert g[child.state][0..] == g[child.state];
  }

  /** The clone of a frame's container, made now if there is none yet. */
  method CloneOf(state: Obj, clone: Obj?, ghost g: Graph, ghost h: Graph, ghost f: Frame, ghost k: Mark)
      returns (c: Obj, ghost h1: Graph)
    requires f.state == state && f.clone == clone
    requires WfGraph(g) && Shows(g) && Shows(h) && FrameOk(g, h, f, k)
    ensures Prepared(g, h, h1, f, k, c) && Shows(g) && Shows(h1)
    ensures h1.Keys == h.Keys + {c} && (c in h || fresh(c))
  {
    if clone == null {
      c := new Obj(state.kind, state.items);
      PreparedNew(g, h, f, k, c);
      h1 := h[c := g[state]];
    } else {
      c, h1 := clone, h;
      PreparedOld(g, h, f, k);
    }
  }

  /** Split the binaries out of any value; a value that is no container is returned as it is. */
  method RemoveBuffers(state: Val, ghost g: Graph) returns (r: SplitResult, ghost h: Graph, ghost s: Shape)
    requires WfGraph(g) && Shows(g) && (state.VRef? ==> state.o in g)
    ensures Shows(g) && Shows(h) && fresh(h.Keys)
    ensures r.Raised? <==> state.VRef? && !Accept(g, state.o, {}, 0)
    ensures r.Split? ==> |r.paths| == |r.buffers|
    ensures !state.VRef? ==> r == Split(state, [], [])
    ensures r.Split? && state.VRef? ==> Divided(g, h, state, r.state, Pairs(r.paths, r.buffers), s)
  {
    match state
    case VRef(o) => r, h, s := Separate(o, g);
    case _ => r, h, s := Split(state, [], []), map[], Kept(state);
  }

  /** Read off the heap, the result of a split is the stripped state. */
  lemma {:induction false} DividedDenotes(g: Graph, h: Graph, state: Val, result: Val, ps: seq<Patch>, s: Shape)
    requires WfGraph(g) && state.VRef? && state.o in g && Finite(g, state)
    requires Divided(g, h, state, result, ps, s)
    ensures Denotes(g, state, StateOf(g, state))
    ensures Denotes(h + g, result, Strip(StateOf(g, state)))
    ensures result == state <==> ps == []
  {
    FiniteState(g, state.o);
    ShapeDenotes(g, h, s);
    DividesTree(g, s, StateOf(g, state));
  }

  /** What a path leads to, step by step through containers. */
  ghost function ValAt(h: Graph, v: Val, path: Path): Option<Val>
    decreases |path|
  {
    if path == [] then Some(v)
    else if !v.VRef? || v.o !in h then None
    else
      var i := Find(h[v.o], path[0]);
      if i == |h[v.o]| then None else ValAt(h, h[v.o][i].val, path[1..])
  }

  /** The slot of a container that holds no binary itself is still there. */
  lemma {:induction false} SparedSlot(g: Graph, kind: Kind, its: seq<SItem>, items: seq<Item>, i: nat)
    requires SparesItems(g, kind, its, items) && i < |items| && !items[i].val.VBin?
    requires forall a, b :: 0 <= a < b < |items| ==> items[a].key != items[b].key
    ensures var j := Find(ItemsOf(its), items[i].key);
            j < |its| && its[j].key == items[i].key && Spares(g, its[j].shape, items[i].val)
    decreases |items|
  {
    var n := |items| - 1;
    var gone := items[n].val.VBin? && kind.DictK?;
    var init := if gone then its else its[..|its| - 1];
    if !gone {
      FindSnoc(ItemsOf(init), Item(its[|its| - 1].key, ValOf(its[|its| - 1].shape)), items[i].key);
      assert ItemsOf(its) == ItemsOf(init) + [Item(its[|its| - 1].key, ValOf(its[|its| - 1].shape))];
    }
    if i < n {
      SparedSlot(g, kind, init, items[..n], i);
    } else {
      SparedKeys(g, kind, init, items[..n], items[n].key);
    }
  }

  lemma {:induction false} FindSnoc(items: seq<Item>, e: Item, key: Key)
    ensures Find(items + [e], key) ==
            if Find(items, key) < |items| then Find(items, key) else if e.key == key then |items| else |items| + 1
  {
    var all := items + [e];
    assert all[|items|] == e && forall j :: 0 <= j < |items| ==> all[j] == items[j];
  }

  lemma {:induction false} SparedKeys(g: Graph, kind: Kind, its: seq<SItem>, items: seq<Item>, key: Key)
    requires SparesItems(g, kind, its, items) && forall i :: 0 <= i < |items| ==> items[i].key != key
    ensures Find(ItemsOf(its), key) == |its|
    decreases |items|
  {
    if items != [] {
      var n := |items| - 1;
      if items[n].val.VBin? && kind.DictK? {
        SparedKeys(g, kind, its, items[..n], key);
      } else {
        var init, last := its[..|its| - 1], its[|its| - 1];
        SparedKeys(g, kind, init, items[..n], key);
        FindSnoc(ItemsOf(init), Item(last.key, ValOf(last.shape)), key);
        assert ItemsOf(its) == ItemsOf(init) + [Item(last.key, ValOf(last.shape))];
      }
    }
  }

  lemma {:induction false} NothingBelow(g: Graph, h: Graph, v: Val, t: Tree, path: Path)
    requires WfGraph(g) && Denotes(g, v, t) && Bufs(t) == [] && g.Keys !! h.Keys && ValAt(g, v, path).Some?
    ensures ValAt(h + g, v, path) == ValAt(g, v, path)
    ensures exists u :: Denotes(g, ValAt(g, v, path).value, u) && Bufs(u) == []
    decreases |path|
  {
    if path != [] {
      var i := Find(g[v.o], path[0]);
      BufsNothing(t.items, i);
      NothingBelow(g, h, g[v.o][i].val, t.items[i].val, path[1..]);
    }
  }

  lemma {:induction false} BufsNothing(items: seq<Entry>, i: nat)
    requires i < |items| && BufsItems(items) == []
    ensures Bufs(items[i].val) == [] && !items[i].val.Bin?
    decreases |items|
  {
    var n := |items| - 1;
    assert |Below([items[n].key], Bufs(items[n].val))| == |Bufs(items[n].val)|;
    if i < n {
      BufsNothing(items[..n], i);
    }
  }

  lemma {:induction false} SparedAt(g: Graph, h: Graph, s: Shape, v: Val, path: Path, o: Obj)
    requires WfGraph(g) && g.Keys !! h.Keys && Built(h, s) && Lean(g, s) && Spares(g, s, v)
    requires ValAt(g, v, path) == Some(VRef(o)) && Denotes(g, VRef(o), StateOf(g, VRef(o)))
    ensures var r := ValAt(h + g, ValOf(s), path);
            && r.Some? && r.value.VRef? && (r.value.o == o <==> Bufs(StateOf(g, VRef(o))) == [])
            && (r.value.o != o ==> r.value.o !in g)
    decreases |path|
  {
    match s
    case Kept(_) =>
      NothingBelow(g, h, v, StateOf(g, v), path);
      var u :| Denotes(g, VRef(o), u) && Bufs(u) == [];
      DenotesOnce(g, VRef(o), u, StateOf(g, VRef(o)));
    case Own(c, its) =>
      if path != [] {
        var i := Find(g[v.o], path[0]);
        SparedSlot(g, v.o.kind, its, g[v.o], i);
        var j := Find(ItemsOf(its), path[0]);
        assert (h + g)[c] == ItemsOf(its);
        SparedAt(g, h, its[j].shape, g[v.o][i].val, path[1..], o);
      }
  }

  lemma {:induction false} FiniteBelow(g: Graph, root: Obj, n: nat, path: Path, o: Obj)
    requires WfGraph(g) && root in g && Fits(g, VRef(root), n) && ValAt(g, VRef(root), path) == Some(VRef(o))
    ensures Denotes(g, VRef(o), StateOf(g, VRef(o)))
    decreases |path|
  {
    if path == [] {
      FitsState(g, root, n);
    } else {
      var v := g[root][Find(g[root], path[0])].val;
      assert v.VRef?;
      FiniteBelow(g, v.o, n - 1, path[1..], o);
    }
  }

  /**
   * Copy on write is exact below the root too: where a path leads to a container in the input,
   * it leads to a container in the result, to the same one if and only if that holds no
   * binary, and else to a new one.
   */
  lemma {:induction false} SparedExactly(g: Graph, h: Graph, state: Val, result: Val, ps: seq<Patch>, s: Shape,
        path: Path, o: Obj)
    requires WfGraph(g) && g.Keys !! h.Keys && state.VRef? && state.o in g && Finite(g, state)
    requires Divided(g, h, state, result, ps, s) && ValAt(g, state, path) == Some(VRef(o))
    ensures var r := ValAt(h + g, result, path);
            && r.Some? && r.value.VRef? && (r.value.o == o <==> Bufs(StateOf(g, VRef(o))) == [])
            && (r.value.o != o ==> r.value.o !in g)
  {
    var n: nat :| Fits(g, state, n);
    FiniteBelow(g, state.o, n, path, o);
    SparedAt(g, h, s, state, path, o);
  }

  // ---------------------------------------------------------------------
  // The recursive form, which clones every container
  // ---------------------------------------------------------------------

  lemma {:induction false} FreshlyBuilt(g: Graph, h: Graph, hc: Graph, f: Frame, k: Mark, s: Shape)
    requires WfGraph(g) && Done(g, h, f, k) && h.Keys !! hc.Keys && Built(hc, s) && Lean(g, s)
    ensures Done(g, h + hc, f, k) && Built(h + hc, s) && Clones(s) !! ClonesIn(k.done)
  {
    ClonesInBuilt(h, g, k.done);
    ClonesBuilt(hc, g, s);
    BuiltItemsKeep(h, h + hc, k.done);
    BuiltKeeps(hc, h + hc, s);
  }

  /** Copying an item that is no container and no binary. */
  lemma {:induction false} CopyAtom(g: Graph, h: Graph, f: Frame, k: Mark, base: seq<Patch>, ps: seq<Patch>)
    requires WfGraph(g) && Done(g, h, f, k) && k.m < |g[f.state]| && g[f.state][k.m].val.VAtom?
    requires ps == base + Below(f.path, BufsItems(Settled(g, f, k)))
    ensures var k' := Mark(k.m + 1, k.done + [SItem(g[f.state][k.m].key, Kept(g[f.state][k.m].val))]);
            && Done(g, h, f, k') && ItemsOf(k'.done) == ItemsOf(k.done) + [g[f.state][k.m]]
            && ps == base + Below(f.path, BufsItems(Settled(g, f, k')))
  {
    var val := g[f.state][k.m].val;
    Advance(g, h, f, k, Kept(val));
    SettledSnoc(g, f, k);
    ItemsSnoc(k.done, SItem(g[f.state][k.m].key, Kept(val)));
    NothingMore(BufsItems(Settled(g, f, k)));
    BelowOne([g[f.state][k.m].key], [], []);
  }

  lemma {:induction false} EmitMore(path: Path, base: seq<Patch>, b: seq<Patch>, more: seq<Patch>)
    ensures base + Below(path, b + more) == base + Below(path, b) + Below(path, more)
  {
    BelowAppend(path, b, more);
    Assoc(base, Below(path, b), Below(path, more));
  }

  /** Leaving out a binary. */
  lemma {:induction false} CopyBin(g: Graph, h: Graph, f: Frame, k: Mark, b: Bytes, base: seq<Patch>, ps: seq<Patch>)
    requires WfGraph(g) && Done(g, h, f, k) && k.m < |g[f.state]| && g[f.state][k.m].val == VBin(b)
    requires ps == base + Below(f.path, BufsItems(Settled(g, f, k)))
    ensures var key := g[f.state][k.m].key;
            var k' := Mark(k.m + 1, k.done + BlankShape(f.state.kind, key));
            && Done(g, h, f, k')
            && ItemsOf(k'.done) == ItemsOf(k.done) + (if f.state.kind.ListK? then [Item(key, VAtom(PyNone))] else [])
            && ps + [Patch(f.path + [key], b)] == base + Below(f.path, BufsItems(Settled(g, f, k')))
  {
    var key := g[f.state][k.m].key;
    AdvanceBin(g, h, f, k, b);
    SettledSnoc(g, f, k);
    EmitMore(f.path, base, BufsItems(Settled(g, f, k)), [Patch([key], b)]);
    BelowOne(f.path, [key], b);
    if f.state.kind.ListK? {
      ItemsSnoc(k.done, SItem(key, Kept(VAtom(PyNone))));
    } else {
      NothingMore(k.done);
      NothingMore(ItemsOf(k.done));
    }
  }

  /** Copying a container as its clone. */
  lemma {:induction false} CopyRef(g: Graph, h: Graph, hc: Graph, f: Frame, k: Mark, o: Obj, s: Shape,
        base: seq<Patch>, ps: seq<Patch>)
    requires WfGraph(g) && Done(g, h, f, k) && k.m < |g[f.state]| && g[f.state][k.m].val == VRef(o)
    requires o in g && Accept(g, o, f.ancestors, f.depth + 1)
    requires h.Keys !! hc.Keys && Built(hc, s) && Lean(g, s) && Tidy(s) && Divides(g, s, StateOf(g, VRef(o)))
    requires ps == base + Below(f.path, BufsItems(Settled(g, f, k)))
    ensures var key := g[f.state][k.m].key;
            var k' := Mark(k.m + 1, k.done + [SItem(key, s)]);
            && Done(g, h + hc, f, k') && ItemsOf(k'.done) == ItemsOf(k.done) + [Item(key, ValOf(s))]
            && ps + Below(f.path + [key], Bufs(StateOf(g, VRef(o)))) ==
               base + Below(f.path, BufsItems(Settled(g, f, k')))
  {
    var key := g[f.state][k.m].key;
    FreshlyBuilt(g, h, hc, f, k, s);
    AcceptedState(g, o, f.ancestors, f.depth + 1);
    Advance(g, h + hc, f, k, s);
    ItemsSnoc(k.done, SItem(key, s));
    CopiedEmits(g, f, k, o, s, base, ps);
  }

  lemma {:induction false} CopiedEmits(g: Graph, f: Frame, k: Mark, o: Obj, s: Shape, base: seq<Patch>, ps: seq<Patch>)
    requires WfGraph(g) && f.state in g && k.m < |g[f.state]| && g[f.state][k.m].val == VRef(o)
              && StateOf(g, VRef(o)).Node?
    requires ps == base + Below(f.path, BufsItems(Settled(g, f, k)))
    ensures var key := g[f.state][k.m].key;
            ps + Below(f.path + [key], Bufs(StateOf(g, VRef(o)))) ==
            base + Below(f.path, BufsItems(Settled(g, f, Mark(k.m + 1, k.done + [SItem(key, s)]))))
  {
    var key := g[f.state][k.m].key;
    SettledSnoc(g, f, k);
    EmitMore(f.path, base, BufsItems(Settled(g, f, k)), Below([key], Bufs(StateOf(g, VRef(o)))));
    BelowBelow(f.path, [key], Bufs(StateOf(g, VRef(o))));
  }

  /** The clone with all items copied. */
  lemma {:induction false} CopyEnds(g: Graph, h: Graph, f: Frame, k: Mark, sub: Obj, ancestors: set<Obj>, out: Obj)
    requires WfGraph(g) && Done(g, h, f, k) && f.state == sub && f.ancestors == ancestors + {sub} && k.m == |g[sub]|
    requires sub !in ancestors && out !in h && out !in g && out.kind == sub.kind
    ensures var s := Own(out, k.done);
            && Accept(g, sub, ancestors, f.depth)
            && Built(h[out := ItemsOf(k.done)], s) && Lean(g, s) && Tidy(s)
            && Divides(g, s, StateOf(g, VRef(sub)))
            && BufsItems(Settled(g, f, k)) == Bufs(StateOf(g, VRef(sub)))
  {
    assert g[sub][..k.m] == g[sub];
    assert Accept(g, sub, ancestors, f.depth);
    AcceptedState(g, sub, ancestors, f.depth);
    ClonesInBuilt(h, g, k.done);
    BuiltItemsKeep(h, h[out := ItemsOf(k.done)], k.done);
  }

  ghost predicate Copied(g: Graph, h: Graph, f: Frame, k: Mark, base: seq<Patch>, ps: seq<Patch>)
    requires WfGraph(g)
  {
    Done(g, h, f, k) && ps == base + Below(f.path, BufsItems(Settled(g, f, k)))
  }

  /** Copy one item of sub, splitting it if it is a container. */
  method CopyItem(sub: Obj, item: Item, path: Path, paths: seq<Path>, buffers: seq<Bytes>, ancestors: set<Obj>,
        depth: nat,
                  ghost g: Graph, ghost h: Graph, ghost f: Frame, ghost k: Mark, ghost base: seq<Patch>)
      returns (raised: bool, more: seq<Item>, paths': seq<Path>, buffers': seq<Bytes>, ghost h': Graph, ghost k': Mark)
    requires WfGraph(g) && Shows(g) && Shows(h) && |paths| == |buffers| && depth <= MAX_DEPTH
    requires f.state == sub && f.ancestors == ancestors && f.depth == depth && f.path == path
    requires Copied(g, h, f, k, base, Pairs(paths, buffers)) && k.m < |g[sub]| && item == g[sub][k.m]
    ensures Shows(g) && Shows(h') && fresh(h'.Keys - h.Keys) && |paths'| == |buffers'|
    ensures raised ==> !Passed(g, g[sub], ancestors, depth + 1)
    ensures !raised ==> Copied(g, h', f, k', base, Pairs(paths', buffers'))
    ensures !raised ==> ItemsOf(k'.done) == ItemsOf(k.done) + more && k'.m == k.m + 1
    decreases MAX_DEPTH + 1 - depth, 0
  {
    raised, more, paths', buffers', h', k' := false, [item], paths, buffers, h, k;
    match item.val {
      case VAtom(a) =>
        CopyAtom(g, h, f, k, base, Pairs(paths, buffers));
        k' := Mark(k.m + 1, k.done + [SItem(item.key, Kept(item.val))]);
      case VBin(b) =>
        CopyBin(g, h, f, k, b, base, Pairs(paths, buffers));
        k' := Mark(k.m + 1, k.done + BlankShape(sub.kind, item.key));
        PairsSnoc(paths, buffers, path + [item.key], b);
        paths', buffers' := paths + [path + [item.key]], buffers + [b];
        more := if sub.kind.ListK? then [Item(item.key, VAtom(PyNone))] else [];
      case VRef(o) =>
        var child;
        ghost var hc, s;
        raised, child, paths', buffers', hc, s :=
          SeparateClone(o, path + [item.key], paths, buffers, ancestors, depth + 1, g);
        if !raised {
          CopyRef(g, h, hc, f, k, o, s, base, Pairs(paths, buffers));
          k' := Mark(k.m + 1, k.done + [SItem(item.key, s)]);
          more := [Item(item.key, VRef(child))];
          h' := h + hc;
        }
    }
  }

  /** Split out all binaries below sub by plain recursion, appending to the given lists. */
  method SeparateClone(sub: Obj, path: Path, paths: seq<Path>, buffers: seq<Bytes>, ancestors: set<Obj>, depth: nat,
                       ghost g: Graph)
      returns (raised: bool, out: Obj, paths': seq<Path>, buffers': seq<Bytes>, ghost h: Graph, ghost s: Shape)
    requires WfGraph(g) && Shows(g) && sub in g && |paths| == |buffers|
    ensures Shows(g) && Shows(h) && fresh(h.Keys) && |paths'| == |buffers'|
    ensures raised <==> !Accept(g, sub, ancestors, depth)
    ensures !raised ==>
              && s.Own? && ValOf(s) == VRef(out) && Built(h, s) && Lean(g, s) && Tidy(s)
              && Divides(g, s, StateOf(g, VRef(sub)))
              && Pairs(paths', buffers') == Pairs(paths, buffers) + Below(path, Bufs(StateOf(g, VRef(sub))))
    decreases MAX_DEPTH + 1 - depth, 1
  {
    raised, out, paths', buffers', h, s := true, sub, paths, buffers, map[], Kept(VRef(sub));
    if depth > MAX_DEPTH || sub in ancestors {
      return;
    }
    out := new Obj(sub.kind, []);
    var items := sub.items;
    ghost var f := Frame(sub, ancestors + {sub}, depth, 0, null, Idx(0), path);
    ghost var k := Mark(0, []);
    ghost var base := Pairs(paths, buffers);
    FrameStarts(g, map[], f);
    EmptyPairs(paths, buffers, path);
    for i := 0 to |items|
      invariant Shows(g) && Shows(h) && fresh(h.Keys) && fresh(out) && out !in h && |paths'| == |buffers'|
      invariant k.m == i && out.items == ItemsOf(k.done) && items == g[sub]
      invariant Copied(g, h, f, k, base, Pairs(paths', buffers'))
    {
      var failed, more;
      failed, more, paths', buffers', h, k :=
        CopyItem(sub, items[i], path, paths', buffers', ancestors + {sub}, depth, g, h, f, k, base);
      if failed {
        return;
      }
      out.items := out.items + more;
    }
    CopyEnds(g, h, f, k, sub, ancestors, out);
    raised, h, s := false, h[out := out.items], Own(out, k.done);
  }

  lemma {:induction false} EmptyPairs(paths: seq<Path>, buffers: seq<Bytes>, path: Path)
    requires |paths| == |buffers|
    ensures Pairs(paths, buffers) + Below(path, []) == Pairs(paths, buffers)
  {}
}
