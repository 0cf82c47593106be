/**
 * The frontend's split: plain recursion that clones a container only when it has to change.
 * It gives what the kernel's walk with an explicit stack gives.
 */
module Frontend {
  import opened Trees
  import opened Graphs
  import opened Buffers

  /** What is settled of a container, and what has been split out below it. */
  ghost predicate SplitSoFar(g: Graph, h: Graph, f: Frame, k: Mark, base: seq<Patch>, ps: seq<Patch>)
    requires WfGraph(g)
  {
    FrameOk(g, h, f, k) && ps == base + Below(f.path, BufsItems(Settled(g, f, k)))
  }

  lemma {:induction false} MoreSplit(g: Graph, h: Graph, f: Frame, k: Mark, base: seq<Patch>, ps: seq<Patch>,
                  h': Graph, f': Frame, k': Mark, key: Key, below: seq<Patch>)
    requires WfGraph(g) && SplitSoFar(g, h, f, k, base, ps) && FrameOk(g, h', f', k') && f'.path == f.path
    requires BufsItems(Settled(g, f', k')) == BufsItems(Settled(g, f, k)) + Below([key], below)
    ensures SplitSoFar(g, h', f', k', base, ps + Below(f.path + [key], below))
  {
    EmitMore(f.path, base, BufsItems(Settled(g, f, k)), Below([key], below));
    BelowBelow(f.path, [key], below);
  }

  /** Two frames over separate clones are both fine over the union. */
  lemma {:induction false} BothFrames(g: Graph, h: Graph, hc: Graph, f: Frame, k: Mark, fc: Frame, kc: Mark)
    requires WfGraph(g) && FrameOk(g, h, f, k) && FrameOk(g, hc, fc, kc) && h.Keys !! hc.Keys
    ensures FrameOk(g, h + hc, f, k) && FrameOk(g, h + hc, fc, kc) && Owns(f, k) !! Owns(fc, kc)
  {
    OwnsInGraph(g, h, f, k);
    OwnsInGraph(g, hc, fc, kc);
    FrameKeeps(g, h, h + hc, f, k);
    FrameKeeps(g, hc, h + hc, fc, kc);
  }

  /** Look at one item of sub; out is the clone of sub, if there is one yet. */
  method SeparateItem(sub: Obj, out: Obj?, item: Item, path: Path, paths: seq<Path>, buffers: seq<Bytes>,
                      ghost g: Graph, ghost h: Graph, ghost f: Frame, ghost k: Mark, ghost base: seq<Patch>)
      returns (out': Obj?, paths': seq<Path>, buffers': seq<Bytes>, ghost h': Graph, ghost f': Frame, ghost k': Mark)
    requires WfGraph(g) && Shows(g) && Shows(h) && |paths| == |buffers| && f.depth <= MAX_DEPTH
    requires f.state == sub && f.clone == out && f.path == path && sub in f.ancestors
    requires SplitSoFar(g, h, f, k, base, Pairs(paths, buffers)) && k.m < |g[sub]| && item == g[sub][k.m]
    requires Passed(g, g[sub], f.ancestors, f.depth + 1)
    modifies h.Keys
    ensures Shows(g) && Shows(h') && fresh(h'.Keys - h.Keys) && |paths'| == |buffers'|
    ensures f' == f.(clone := out', next := f'.next) && k'.m == k.m + 1
    ensures SplitSoFar(g, h', f', k', base, Pairs(paths', buffers'))
    decreases MAX_DEPTH + 1 - f.depth, 0
  {
    out', paths', buffers', h', f' := out, paths, buffers, h, f;
    match item.val {
      case VAtom(_) =>
        StepKept(g, h, f, k);
        k' := Mark(k.m + 1, k.done + [SItem(item.key, Kept(item.val))]);
      case VBin(b) =>
        ghost var h1;
        out', h1, h' := ExtractBinary(sub, out, item.key, g, h, f, k);
        StepBin(g, h, h1, f, k, out', b);
        k' := Mark(k.m + 1, k.done + BlankShape(sub.kind, item.key));
        f' := f.(clone := out');
        PairsSnoc(paths, buffers, path + [item.key], b);
        EmitMore(path, base, BufsItems(Settled(g, f, k)), [Patch([item.key], b)]);
        BelowOne(path, [item.key], b);
        paths', buffers' := paths + [path + [item.key]], buffers + [b];
      case VRef(o) =>
        out', paths', buffers', h', f', k' :=
          SeparateChild(sub, out, item.key, o, path, paths, buffers, g, h, f, k, base);
    }
  }

  /** The item is a container: split it as well. */
  method SeparateChild(sub: Obj, out: Obj?, key: Key, o: Obj, path: Path, paths: seq<Path>, buffers: seq<Bytes>,
                       ghost g: Graph, ghost h: Graph, ghost f: Frame, ghost k: Mark, ghost base: seq<Patch>)
      returns (out': Obj?, paths': seq<Path>, buffers': seq<Bytes>, ghost h': Graph, ghost f': Frame, ghost k': Mark)
    requires WfGraph(g) && Shows(g) && Shows(h) && |paths| == |buffers| && f.depth <= MAX_DEPTH
    requires f.state == sub && f.clone == out && f.path == path
    requires SplitSoFar(g, h, f, k, base, Pairs(paths, buffers)) && k.m < |g[sub]| && Item(key, VRef(o)) == g[sub][k.m]
    requires o in g && Accept(g, o, f.ancestors, f.depth + 1)
    modifies h.Keys
    ensures Shows(g) && Shows(h') && fresh(h'.Keys - h.Keys) && |paths'| == |buffers'|
    ensures f' == f.(clone := out', next := f'.next) && k'.m == k.m + 1
    ensures SplitSoFar(g, h', f', k', base, Pairs(paths', buffers'))
    decreases MAX_DEPTH - f.depth, 2
  {
    assert sub in g && o !in f.ancestors;
    hide FrameOk, Settled, BufsItems, Below, Accept, Owns;
    var nested;
    ghost var hc, fc, kc;
    nested, paths', buffers', hc, fc, kc := Separate(o, path + [key], paths, buffers, g, f.ancestors, f.depth + 1, key);
    BothFrames(g, h, hc, f, k, fc, kc);
    FrameNext(g, h + hc, f, k, k.m + 1);
    out', h', f', k' := Place(sub, out, key, o, nested, g, h + hc, f.(next := k.m + 1), k, fc, kc);
    MoreSplit(g, h, f, k, base, Pairs(paths, buffers), h', f', k', key, BufsItems(Settled(g, fc, kc)));
  }

  /** What the container became replaces it in the clone of sub, if it changed. */
  method Place(sub: Obj, out: Obj?, key: Key, o: Obj, nested: Obj,
               ghost g: Graph, ghost h: Graph, ghost f: Frame, ghost k: Mark, ghost fc: Frame, ghost kc: Mark)
      returns (out': Obj?, ghost h': Graph, ghost f': Frame, ghost k': Mark)
    requires WfGraph(g) && Shows(g) && Shows(h) && f.state == sub && f.clone == out
    requires FrameOk(g, h, f, k) && FrameOk(g, h, fc, kc) && Owns(f, k) !! Owns(fc, kc) && Suspended(g, f, k, fc)
    requires fc.state == o && fc.parentKey == key && kc.m == |g[o]|
              && nested == if fc.clone != null then fc.clone else o
    modifies h.Keys
    ensures Shows(g) && Shows(h') && fresh(h'.Keys - h.Keys)
    ensures f' == f.(clone := out') && k'.m == k.m + 1 && FrameOk(g, h', f', k')
    ensures BufsItems(Settled(g, f', k')) == BufsItems(Settled(g, f, k)) + Below([key], BufsItems(Settled(g, fc, kc)))
  {
    if nested == o {
      StepPopKept(g, h, f, k, fc, kc);
      k' := Mark(k.m + 1, k.done + [SItem(key, Kept(VRef(o)))]);
      out', h', f' := out, h, f;
    } else {
      ghost var h1;
      out', h1, h' := Replace(sub, out, key, VRef(nested), g, h, f, k);
      StepPopOwn(g, h, h1, f, k, fc, kc, out');
      k' := Mark(k.m + 1, k.done + [SItem(key, Own(fc.clone, kc.done))]);
      f' := f.(clone := out');
    }
  }

  /** Split out all binaries below sub, appending to the given lists; sub itself when it holds none. */
  method Separate(sub: Obj, path: Path, paths: seq<Path>, buffers: seq<Bytes>,
                  ghost g: Graph, ghost ancestors: set<Obj>, ghost depth: int, ghost parentKey: Key)
      returns (result: Obj, paths': seq<Path>, buffers': seq<Bytes>, ghost h: Graph, ghost f: Frame, ghost k: Mark)
    requires WfGraph(g) && Shows(g) && sub in g && |paths| == |buffers| && Accept(g, sub, ancestors, depth)
    ensures Shows(g) && Shows(h) && fresh(h.Keys) && |paths'| == |buffers'|
    ensures result == if f.clone != null then f.clone else sub
    ensures f == Frame(sub, ancestors + {sub}, depth, f.next, f.clone, parentKey, path) && k.m == |g[sub]|
    ensures SplitSoFar(g, h, f, k, Pairs(paths, buffers), Pairs(paths', buffers'))
    decreases MAX_DEPTH + 1 - depth, 1
  {
    var out: Obj? := null;
    paths', buffers' := paths, buffers;
    f, k := Frame(sub, ancestors + {sub}, depth, 0, null, parentKey, path), Mark(0, []);
    h := map[];
    FrameStarts(g, map[], f);
    EmptyPairs(paths, buffers, path);
    var items := sub.items;
    for i := 0 to |items|
      invariant Shows(g) && Shows(h) && fresh(h.Keys) && |paths'| == |buffers'| && k.m == i
      invariant f == Frame(sub, ancestors + {sub}, depth, f.next, out, parentKey, path)
      invariant SplitSoFar(g, h, f, k, Pairs(paths, buffers), Pairs(paths', buffers'))
    {
      out, paths', buffers', h, f, k :=
        SeparateItem(sub, out, items[i], path, paths', buffers', g, h, f, k, Pairs(paths, buffers));
    }
    result := if out != null then out else sub;
  }

  /**
   * The frontend's split and the kernel's give the same state, paths and buffers. Here every state
   * t is split, however deep it nests.
   */
  method RemoveBuffers(root: Obj, ghost g: Graph, ghost t: Tree)
      returns (state: Obj, paths: seq<Path>, buffers: seq<Bytes>, ghost h: Graph, ghost s: Shape)
    requires WfGraph(g) && Shows(g) && root in g && Denotes(g, VRef(root), t)
    ensures Shows(g) && Shows(h) && fresh(h.Keys) && |paths| == |buffers| && StateOf(g, VRef(root)) == t
    ensures Divided(g, h, VRef(root), VRef(state), Pairs(paths, buffers), s)
  {
    ghost var f, k;
    DenotesState(g, VRef(root), t);
    DenotesAccept(g, root, t);
    state, paths, buffers, h, f, k := Separate(root, [], [], [], g, {}, MAX_DEPTH + 1 - Depth(t), Idx(0));
    s := EndFrame(g, h, f, k);
    EndEmits(g, [f], [k]);
  }
}
