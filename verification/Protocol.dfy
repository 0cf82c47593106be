/**
 * The messages of the widget protocol: what a kernel sends, and how it reads what it gets.
 */
module Protocol {
  import opened Trees
  import G = Graphs

  const PROTOCOL_VERSION := "2.1.0"
  const ANYWIDGET_VERSION := "~0.11.*"

  function TextEntry(key: string, text: string): Entry {
    Entry(Name(key), Leaf(Str(text)))
  }

  /** The identity fields that every widget carries. */
  const IMMUTABLE_FIELDS: seq<Entry> := [
    TextEntry("_model_module", "anywidget"),
    TextEntry("_model_name", "AnyModel"),
    TextEntry("_model_module_version", ANYWIDGET_VERSION),
    TextEntry("_view_module", "anywidget"),
    TextEntry("_view_name", "AnyView"),
    TextEntry("_view_module_version", ANYWIDGET_VERSION),
    Entry(Name("_view_count"), Leaf(PyNone))]

  /** The entries of a, then those of b; b wins. */
  function Merge(a: seq<Entry>, b: seq<Entry>): seq<Entry> {
    if b == [] then a else SetEntry(Merge(a, b[..|b| - 1]), b[|b| - 1].key, b[|b| - 1].val)
  }

  function Filter(items: seq<Entry>, keys: set<Key>): seq<Entry> {
    if items == [] then []
    else
      var rest := Filter(items[..|items| - 1], keys);
      if items[|items| - 1].key in keys then rest + [items[|items| - 1]] else rest
  }

  function Dict(items: seq<Entry>): Tree {
    Node(DictK, items)
  }

  predicate WfDict(items: seq<Entry>) {
    DistinctKeys(items) && WfItems(items)
  }

  lemma {:induction false} SetWf(items: seq<Entry>, key: Key, t: Tree)
    requires WfDict(items) && Wf(t)
    ensures WfDict(SetEntry(items, key, t))
    ensures CanonItems(SetEntry(items, key, t)) == CanonItems(items)[key := CanonOf(t)]
  {
    CanonSet(items, key, t);
  }

  lemma {:induction false} MergeCanon(a: seq<Entry>, b: seq<Entry>)
    requires WfDict(a) && WfDict(b)
    ensures WfDict(Merge(a, b)) && CanonItems(Merge(a, b)) == CanonItems(a) + CanonItems(b)
  {
    if b != [] {
      var n := |b| - 1;
      MergeCanon(a, b[..n]);
      SetWf(Merge(a, b[..n]), b[n].key, b[n].val);
      MergeUpdate(CanonItems(a), CanonItems(b[..n]), b[n].key, CanonOf(b[n].val));
    }
  }

  lemma {:induction false} FilterWf(items: seq<Entry>, keys: set<Key>)
    requires WfDict(items)
    ensures WfDict(Filter(items, keys)) && forall e :: e in Filter(items, keys) ==> e in items
  {
    if items != [] {
      var init, last := items[..|items| - 1], items[|items| - 1];
      assert items == init + [last];
      FilterWf(init, keys);
      forall e | e in Filter(init, keys)
        ensures e.key != last.key
      {
        var j :| 0 <= j < |init| && init[j] == e;
        assert items[j].key != items[|init|].key;
      }
    }
  }

  lemma {:induction false} FilterHolds(items: seq<Entry>, keys: set<Key>)
    ensures forall e :: e in Filter(items, keys) <==> e in items && e.key in keys
  {
    if items != [] {
      FilterHolds(items[..|items| - 1], keys);
      assert items == items[..|items| - 1] + [items[|items| - 1]];
    }
  }

  /** Exactly the requested keys that are there, with their values. */
  lemma {:induction false} FilterCanon(items: seq<Entry>, keys: set<Key>)
    requires WfDict(items)
    ensures CanonItems(Filter(items, keys)) == map k | k in CanonItems(items) && k in keys :: CanonItems(items)[k]
  {
    if items != [] {
      var init, last := items[..|items| - 1], items[|items| - 1];
      FilterCanon(init, keys);
      CanonKeys(init, last.key);
      CanonSnoc(Filter(init, keys), last);
    }
  }

  // ---------------------------------------------------------------------
  // Messages
  // ---------------------------------------------------------------------

  /** What a shell hands to its transport. */
  datatype Wire =
    | CommOpen(state: Tree, ps: seq<Patch>, version: string)
    | CommUpdate(state: Tree, ps: seq<Patch>)
    | CommCustom(content: Tree, buffers: seq<Bytes>)
    | CommClose

  predicate TooDeep(items: seq<Entry>) {
    Depth(Dict(items)) > MAX_DEPTH + 1
  }

  /** The opening message; None when the state nests too deep. */
  function BuildCommOpen(items: seq<Entry>): Option<Wire> {
    var full := Merge(IMMUTABLE_FIELDS, items);
    if TooDeep(full) then None else Some(CommOpen(Strip(Dict(full)), Bufs(Dict(full)), PROTOCOL_VERSION))
  }

  function BuildUpdate(items: seq<Entry>): Option<Wire> {
    if TooDeep(items) then None else Some(CommUpdate(Strip(Dict(items)), Bufs(Dict(items))))
  }

  /** Merging over leaves keeps the depth of what is merged. */
  lemma {:induction false} MergeDepth(a: seq<Entry>, b: seq<Entry>)
    requires DistinctKeys(b) && forall i :: 0 <= i < |a| ==> Depth(a[i].val) == 0
    ensures DepthItems(Merge(a, b)) == DepthItems(b)
  {
    MergeHolds(a, b);
    var m, d := Merge(a, b), DepthItems(b);
    DepthBound(b, d);
    DepthBound(m, d);
    forall i | 0 <= i < |m|
      ensures Depth(m[i].val) <= d
    {
      assert m[i] in a || m[i] in b;
    }
    DepthBound(m, DepthItems(m));
    DepthBound(b, DepthItems(m));
    forall i | 0 <= i < |b|
      ensures Depth(b[i].val) <= DepthItems(m)
    {
      assert b[i] in m;
    }
  }

  /** What is merged holds the entries of b, and besides only entries of a. */
  lemma {:induction false} MergeHolds(a: seq<Entry>, b: seq<Entry>)
    requires DistinctKeys(b)
    ensures forall e :: e in b ==> e in Merge(a, b)
    ensures forall e :: e in Merge(a, b) ==> e in a || e in b
  {
    if b != [] {
      var init, last := b[..|b| - 1], b[|b| - 1];
      assert b == init + [last];
      MergeHolds(a, init);
      var m := Merge(a, init);
      var i := EntryAt(m, last.key);
      forall e | e in init
        ensures e in Merge(a, b)
      {
        var j :| 0 <= j < |init| && init[j] == e;
        assert b[j].key != b[|init|].key;
        var k :| 0 <= k < |m| && m[k] == e;
        assert Merge(a, b)[k] == e;
      }
      assert Merge(a, b)[i] == last;
    }
  }

  /** Some container path from o repeats a container or is longer than 501. */
  ghost predicate Refused(g: G.Graph, o: G.Obj) {
    exists ch: seq<G.Obj> {:trigger G.IsChain(g, ch)} ::
      G.IsChain(g, ch) && ch[0] == o && (|ch| > 501 || exists i, j :: 0 <= i < j < |ch| && ch[i] == ch[j])
  }

  lemma {:induction false} DeepRefused(g: G.Graph, o: G.Obj, items: seq<Entry>)
    requires G.WfGraph(g) && o in g && G.Denotes(g, G.VRef(o), Dict(items))
    ensures Depth(Dict(items)) > MAX_DEPTH + 1 <==> Refused(g, o)
  {
    G.DenotesState(g, G.VRef(o), Dict(items));
    G.AcceptedDepth(g, o);
    G.RejectedExactly(g, o);
  }

  /** A message is refused exactly when the split refuses the state that it is to carry. */
  lemma {:induction false} RefusedExactly(g: G.Graph, o: G.Obj, items: seq<Entry>)
    requires G.WfGraph(g) && o in g && G.Denotes(g, G.VRef(o), Dict(items))
    ensures BuildUpdate(items).None? <==> Refused(g, o)
    ensures BuildCommOpen(items).None? <==> Refused(g, o)
  {
    DeepRefused(g, o, items);
    G.DenotesWf(g, G.VRef(o), Dict(items));
    MergeDepth(IMMUTABLE_FIELDS, items);
  }

  /** The data of an inbound message; a field may be missing. */
  datatype Data =
    | NotADict
    | Data(verb: Option<string>, state: Option<Tree>, paths: Option<seq<Path>>, content: Option<Tree>)

  datatype Message = Update(state: Tree, paths: seq<Path>) | RequestState | Custom(content: Tree) | Ignored

  function Default<T>(x: Option<T>, other: T): T {
    if x.Some? then x.value else other
  }

  function ParseMessage(d: Data): Message {
    if d.NotADict? then Ignored
    else if d.verb == Some("update") then Update(Default(d.state, Dict([])), Default(d.paths, []))
    else if d.verb == Some("request_state") then RequestState
    else if d.verb == Some("custom") then Custom(Default(d.content, Leaf(PyNone)))
    else Ignored
  }

  /** The state of an update with its buffers back in place; None when they cannot be placed. */
  function Assemble(state: Tree, paths: seq<Path>, buffers: seq<Bytes>): Option<Tree> {
    if !(state.Node? && state.kind.DictK?) || |paths| != |buffers| then None
    else PutAllT(state, Zip(paths, buffers))
  }

  lemma {:induction false} ZipAt(paths: seq<Path>, buffers: seq<Bytes>, i: nat)
    requires |paths| == |buffers|
    ensures |Zip(paths, buffers)| == |paths|
    ensures i < |paths| ==> Zip(paths, buffers)[i] == Patch(paths[i], buffers[i])
  {
    if paths != [] {
      ZipAt(paths[1..], buffers[1..], if i > 0 then i - 1 else 0);
    }
  }

  /** The buffers stored one after the other, each at its path. */
  ghost predicate StoredInTurn(cs: seq<Canon>, paths: seq<Path>, buffers: seq<Bytes>) {
    |paths| == |buffers| && |cs| == |paths| + 1 &&
    forall i :: 0 <= i < |paths| ==> Stored(cs[i], paths[i], buffers[i], cs[i + 1])
  }

  /**
   * A state is assembled exactly when it is a dict, there are as many paths as buffers, and each
   * buffer can be stored at its path after those before it; that is then what it is.
   */
  lemma {:induction false} AssembleExactly(state: Tree, paths: seq<Path>, buffers: seq<Bytes>, d: Canon)
    requires Wf(state)
    ensures Assemble(state, paths, buffers).Some? && CanonOf(Assemble(state, paths, buffers).value) == d <==>
            state.Node? && state.kind.DictK? &&
            exists cs: seq<Canon> :: StoredInTurn(cs, paths, buffers) && cs[0] == CanonOf(state) && cs[|paths|] == d
  {
    hide Stored;
    if |paths| == |buffers| {
      var ps := Zip(paths, buffers);
      ZipAt(paths, buffers, 0);
      forall i | 0 <= i < |paths|
        ensures ps[i] == Patch(paths[i], buffers[i])
      {
        ZipAt(paths, buffers, i);
      }
      CanonPutAll(state, ps);
      PutAllExactly(CanonOf(state), ps, d);
      if cs: seq<Canon> :| Steps(cs, ps) && cs[0] == CanonOf(state) && cs[|ps|] == d {
        assert StoredInTurn(cs, paths, buffers);
      }
      if cs: seq<Canon> :| StoredInTurn(cs, paths, buffers) && cs[0] == CanonOf(state) && cs[|paths|] == d {
        assert Steps(cs, ps);
      }
    }
  }

  function PathsOf(ps: seq<Patch>): seq<Path> {
    seq(|ps|, i requires 0 <= i < |ps| => ps[i].path)
  }

  function BuffersOf(ps: seq<Patch>): seq<Bytes> {
    seq(|ps|, i requires 0 <= i < |ps| => ps[i].b)
  }

  lemma {:induction false} ZipBack(ps: seq<Patch>)
    ensures Zip(PathsOf(ps), BuffersOf(ps)) == ps
  {
    if ps != [] {
      assert PathsOf(ps)[1..] == PathsOf(ps[1..]) && BuffersOf(ps)[1..] == BuffersOf(ps[1..]);
      ZipBack(ps[1..]);
    }
  }

  /** Whoever receives a split state assembles the state that was sent. */
  lemma {:induction false} Assembled(items: seq<Entry>)
    requires WfDict(items)
    ensures var t, ps := Strip(Dict(items)), Bufs(Dict(items));
            var r := Assemble(t, PathsOf(ps), BuffersOf(ps));
            r.Some? && Wf(r.value) && CanonOf(r.value) == CNode(DictK, CanonItems(items))
  {
    ZipBack(Bufs(Dict(items)));
    RoundTripT(Dict(items));
  }

  /** An update whose receiver assembles a dict of these entries. */
  predicate Tells(w: Wire, m: map<Key, Canon>) {
    w.CommUpdate? &&
    var r := Assemble(w.state, PathsOf(w.ps), BuffersOf(w.ps));
    r.Some? && CanonOf(r.value) == CNode(DictK, m)
  }

  /** The identity fields, spelt out. */
  lemma {:induction false} IdentityFields()
    ensures WfDict(IMMUTABLE_FIELDS)
    ensures CanonItems(IMMUTABLE_FIELDS) ==
            map[Name("_model_module") := CLeaf(Str("anywidget")), Name("_model_name") := CLeaf(Str("AnyModel")),
                Name("_model_module_version") := CLeaf(Str("~0.11.*")), Name("_view_module") := CLeaf(Str("anywidget")),
                Name("_view_name") := CLeaf(Str("AnyView")), Name("_view_module_version") := CLeaf(Str("~0.11.*")),
                Name("_view_count") := CLeaf(PyNone)]
  {
    var fs := IMMUTABLE_FIELDS;
    assert fs == fs[..6] + [fs[6]] && fs[..6] == fs[..5] + [fs[5]] && fs[..5] == fs[..4] + [fs[4]];
    assert fs[..4] == fs[..3] + [fs[3]] && fs[..3] == fs[..2] + [fs[2]] && fs[..2] == [fs[0]] + [fs[1]];
    CanonSingle(fs[..1]);
    CanonSnoc([fs[0]], fs[1]);
    CanonSnoc(fs[..2], fs[2]);
    CanonSnoc(fs[..3], fs[3]);
    CanonSnoc(fs[..4], fs[4]);
    CanonSnoc(fs[..5], fs[5]);
    CanonSnoc(fs[..6], fs[6]);
  }

  /** An opening message tells the whole state over the identity fields, binaries included. */
  lemma {:induction false} OpenTellsState(items: seq<Entry>)
    requires WfDict(items) && BuildCommOpen(items).Some?
    ensures var w := BuildCommOpen(items).value;
            w.CommOpen? && w.version == "2.1.0" &&
            var r := Assemble(w.state, PathsOf(w.ps), BuffersOf(w.ps));
            r.Some? && CanonOf(r.value) == CNode(DictK, CanonItems(IMMUTABLE_FIELDS) + CanonItems(items))
  {
    MergeCanon(IMMUTABLE_FIELDS, items);
    Assembled(Merge(IMMUTABLE_FIELDS, items));
  }
}
