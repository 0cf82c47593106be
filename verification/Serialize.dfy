/**
 * Dumping and loading widget-state documents on the heap: dumping splits every state and
 * changes none; loading copies every state, then stores the buffers into the copy in place.
 */
module Serialize {
  import opened Trees
  import opened Graphs
  import opened Buffers
  import opened Merging
  import D = Documents

  /** A model whose state is an object, and its record. */
  datatype Entry = Entry(id: string, state: Val)
  datatype Record = Record(name: Val, mod: Val, version: Val, state: Val, buffers: Option<seq<D.Buffer>>)
  datatype Model = Model(id: string, record: Record)
  datatype Models = Missing | NotAMapping | Models(items: seq<Model>)
  datatype Document = Document(major: Option<int>, minor: Option<int>, models: Models)

  // ---------------------------------------------------------------------
  // What the objects stand for
  // ---------------------------------------------------------------------

  ghost predicate InGraph(g: Graph, v: Val) {
    v.VRef? ==> v.o in g
  }

  ghost function EntryOf(g: Graph, e: Entry): D.ModelEntry {
    D.ModelEntry(e.id, StateOf(g, e.state))
  }

  ghost function EntriesOf(g: Graph, es: seq<Entry>): seq<D.ModelEntry> {
    if es == [] then [] else EntriesOf(g, es[..|es| - 1]) + [EntryOf(g, es[|es| - 1])]
  }

  ghost predicate ModelShows(h: Graph, m: Model, v: D.Model) {
    && m.id == v.id && m.record.buffers == v.record.buffers
    && Denotes(h, m.record.name, v.record.name) && Denotes(h, m.record.mod, v.record.mod)
    && Denotes(h, m.record.version, v.record.version) && Denotes(h, m.record.state, v.record.state)
  }

  ghost predicate ModelsShow(h: Graph, ms: seq<Model>, vs: seq<D.Model>) {
    |ms| == |vs| && forall i :: 0 <= i < |ms| ==> ModelShows(h, ms[i], vs[i])
  }

  ghost predicate Shown(h: Graph, doc: Document, v: D.Document) {
    && doc.major == v.major && doc.minor == v.minor
    && doc.models.Missing? == v.models.Missing? && doc.models.NotAMapping? == v.models.NotAMapping?
    && (doc.models.Models? ==> ModelsShow(h, doc.models.items, v.models.items))
  }

  ghost predicate EntriesShow(h: Graph, es: seq<Entry>, vs: seq<D.ModelEntry>) {
    |es| == |vs| && forall i :: 0 <= i < |es| ==> es[i].id == vs[i].id && Denotes(h, es[i].state, vs[i].state)
  }

  ghost predicate Extends(h: Graph, h': Graph) {
    forall o :: o in h ==> o in h' && h'[o] == h[o]
  }

  lemma {:induction false} ModelsMore(h: Graph, h': Graph, ms: seq<Model>, vs: seq<D.Model>)
    requires ModelsShow(h, ms, vs) && Extends(h, h')
    ensures ModelsShow(h', ms, vs)
  {
    forall i | 0 <= i < |ms|
      ensures ModelShows(h', ms[i], vs[i])
    {
      var r, v := ms[i].record, vs[i].record;
      DenotesMore(h, h', r.name, v.name);
      DenotesMore(h, h', r.mod, v.mod);
      DenotesMore(h, h', r.version, v.version);
      DenotesMore(h, h', r.state, v.state);
    }
  }

  lemma {:induction false} EntriesMore(h: Graph, h': Graph, es: seq<Entry>, vs: seq<D.ModelEntry>)
    requires EntriesShow(h, es, vs) && Extends(h, h')
    ensures EntriesShow(h', es, vs)
  {
    forall i | 0 <= i < |es|
      ensures Denotes(h', es[i].state, vs[i].state)
    {
      DenotesMore(h, h', es[i].state, vs[i].state);
    }
  }

  // ---------------------------------------------------------------------
  // Dumping
  // ---------------------------------------------------------------------

  method EncodeBuffers(paths: seq<Path>, buffers: seq<Bytes>) returns (entries: seq<D.Buffer>)
    requires |paths| == |buffers|
    ensures entries == D.EncodeBuffers(Pairs(paths, buffers))
  {
    entries := [];
    for i := 0 to |paths|
      invariant entries == D.EncodeBuffers(Pairs(paths, buffers)[..i])
    {
      entries := entries + [D.EncodeBuffer(Patch(paths[i], buffers[i]))];
      assert Pairs(paths, buffers)[..i + 1][..i] == Pairs(paths, buffers)[..i];
    }
    assert Pairs(paths, buffers)[..|paths|] == Pairs(paths, buffers);
  }

  /** A present field, or the default. */
  method Lookup(o: Obj, key: string, other: string, ghost g: Graph) returns (v: Val)
    requires WfGraph(g) && Shows(g) && o in g && Accept(g, o, {}, 0) && o.kind.DictK?
    ensures D.IsDict(StateOf(g, VRef(o)))
    ensures Denotes(g, v, D.Get(StateOf(g, VRef(o)), key, Leaf(Str(other))))
  {
    AcceptedState(g, o, {}, 0);
    var i := Find(o.items, Name(key));
    StatesKeys(g, o.items, Name(key));
    v := if i < |o.items| then o.items[i].val else VAtom(Str(other));
  }

  lemma {:induction false} StatesKeys(g: Graph, items: seq<Item>, key: Key)
    ensures EntryAt(StatesOf(g, items), key) == Find(items, key)
  {
    var es := StatesOf(g, items);
    var a, b := EntryAt(es, key), Find(items, key);
    assert a < |es| ==> items[a].key == key;
    assert b < |es| ==> es[b].key == key;
  }

  /** The record of a model; the model's state is not changed. */
  method DumpModel(e: Entry, version: string, ghost g: Graph) returns (r: D.Result<Model>, ghost h: Graph)
    requires WfGraph(g) && Shows(g) && InGraph(g, e.state)
    ensures Shows(g) && Shows(h) && fresh(h.Keys)
    ensures var v := D.DumpModel(EntryOf(g, e), version);
            if v.Err? then r == D.Err(v.error) else r.Ok? && ModelShows(h + g, r.value, v.value)
  {
    var split;
    ghost var s;
    split, h, s := RemoveBuffers(e.state, g);
    if e.state.VRef? {
      AcceptedDepth(g, e.state.o);
    }
    if split.Raised? {
      return D.Err(D.NestedTooDeep), h;
    }
    if !e.state.VRef? || e.state.o.kind.ListK? {
      return D.Err(D.NotADict), h;
    }
    ghost var t := StateOf(g, e.state);
    AcceptedState(g, e.state.o, {}, 0);
    DividedDenotes(g, h, e.state, split.state, Pairs(split.paths, split.buffers), s);
    var entries := EncodeBuffers(split.paths, split.buffers);
    var name := Lookup(e.state.o, "_model_name", "AnyModel", g);
    var mod := Lookup(e.state.o, "_model_module", "anywidget", g);
    var moduleVersion := Lookup(e.state.o, "_model_module_version", version, g);
    DenotesMore(g, h + g, name, D.Get(t, "_model_name", Leaf(Str("AnyModel"))));
    DenotesMore(g, h + g, mod, D.Get(t, "_model_module", Leaf(Str("anywidget"))));
    DenotesMore(g, h + g, moduleVersion, D.Get(t, "_model_module_version", Leaf(Str(version))));
    EncodedNone(Bufs(t));
    var buffers := if entries == [] then None else Some(entries);
    r := D.Ok(Model(e.id, Record(name, mod, moduleVersion, split.state, buffers)));
  }

  lemma {:induction false} EncodedNone(ps: seq<Patch>)
    ensures D.EncodeBuffers(ps) == [] <==> ps == []
  {}

  ghost predicate ShowsAll(h: Graph, r: D.Result<seq<Model>>, v: D.Result<seq<D.Model>>) {
    if v.Err? then r == D.Err(v.error) else r.Ok? && ModelsShow(h, r.value, v.value)
  }

  /** One more record, unless the model cannot be dumped or its id is empty or taken. */
  method DumpNext(done: seq<Model>, e: Entry, version: string, ghost g: Graph, ghost h: Graph, ghost vs: seq<D.Model>)
      returns (r: D.Result<seq<Model>>, ghost h': Graph)
    requires WfGraph(g) && Shows(g) && InGraph(g, e.state) && Shows(h) && ModelsShow(h + g, done, vs)
    ensures Shows(g) && Shows(h') && fresh(h'.Keys - h.Keys) && h.Keys <= h'.Keys
    ensures ShowsAll(h' + g, r, D.DumpNext(vs, EntryOf(g, e), version))
  {
    var m;
    ghost var hm;
    m, hm := DumpModel(e, version, g);
    h' := h;
    SameIds(h + g, done, vs, e.id);
    if m.Err? {
      return D.Err(m.error), h;
    }
    if e.id == "" {
      return D.Err(D.EmptyId), h;
    }
    if exists i :: 0 <= i < |done| && done[i].id == e.id {
      return D.Err(D.DuplicateId), h;
    }
    ghost var v := D.DumpModel(EntryOf(g, e), version).value;
    h' := h + hm;
    ModelsMore(h + g, h' + g, done, vs);
    ModelsMore(hm + g, h' + g, [m.value], [v]);
    r := D.Ok(done + [m.value]);
  }

  /** The records of the entries, up to the first entry that cannot be dumped. */
  method DumpModels(es: seq<Entry>, version: string, ghost g: Graph) returns (r: D.Result<seq<Model>>, ghost h: Graph)
    requires WfGraph(g) && Shows(g) && forall i :: 0 <= i < |es| ==> InGraph(g, es[i].state)
    ensures Shows(g) && Shows(h) && fresh(h.Keys)
    ensures ShowsAll(h + g, r, D.DumpModels(EntriesOf(g, es), version))
  {
    hide ModelsShow;
    r, h := D.Ok([]), map[];
    NothingShown(h + g);
    ghost var vs: seq<D.Model> := [];
    for n := 0 to |es|
      invariant Shows(g) && Shows(h) && fresh(h.Keys)
      invariant D.DumpModels(EntriesOf(g, es[..n]), version) == D.Ok(vs) && r.Ok? && ModelsShow(h + g, r.value, vs)
    {
      EntriesSnoc(g, es, n, version);
      r, h := DumpNext(r.value, es[n], version, g, h, vs);
      if r.Err? {
        return;
      }
      vs := D.DumpNext(vs, EntryOf(g, es[n]), version).value;
    }
    assert es[..|es|] == es;
  }

  lemma {:induction false} NothingShown(h: Graph)
    ensures ModelsShow(h, [], [])
  {}

  /** Every model gets its record; the first entry that cannot be dumped stops the dump. */
  method DumpDocument(es: seq<Entry>, version: string, ghost g: Graph) returns (r: D.Result<Document>, ghost h: Graph)
    requires WfGraph(g) && Shows(g) && forall i :: 0 <= i < |es| ==> InGraph(g, es[i].state)
    ensures Shows(g) && Shows(h) && fresh(h.Keys)
    ensures var v := D.DumpDocument(EntriesOf(g, es), version);
            if v.Err? then r == D.Err(v.error) else r.Ok? && Shown(h + g, r.value, v.value)
  {
    var models;
    models, h := DumpModels(es, version, g);
    match models {
      case Err(error) => r := D.Err(error);
      case Ok(done) => r := D.Ok(Document(Some(D.STATE_VERSION_MAJOR), Some(D.STATE_VERSION_MINOR), Models(done)));
    }
  }

  lemma {:induction false} EntriesSnoc(g: Graph, es: seq<Entry>, n: nat, version: string)
    requires n < |es|
    ensures EntriesOf(g, es[..n + 1]) == EntriesOf(g, es[..n]) + [EntryOf(g, es[n])]
    ensures var r := D.DumpModels(EntriesOf(g, es[..n]), version);
            D.DumpModels(EntriesOf(g, es[..n + 1]), version) ==
            if r.Err? then D.Err(r.error) else D.DumpNext(r.value, EntryOf(g, es[n]), version)
    ensures D.DumpModels(EntriesOf(g, es[..n + 1]), version).Err? ==>
              D.DumpModels(EntriesOf(g, es), version) == D.DumpModels(EntriesOf(g, es[..n + 1]), version)
  {
    assert es[..n + 1][..n] == es[..n];
    StopsAt(g, es, n + 1, version);
  }

  lemma {:induction false} StopsAt(g: Graph, es: seq<Entry>, n: nat, version: string)
    requires n <= |es|
    ensures D.DumpModels(EntriesOf(g, es[..n]), version).Err? ==>
              D.DumpModels(EntriesOf(g, es), version) == D.DumpModels(EntriesOf(g, es[..n]), version)
    decreases |es| - n
  {
    if n == |es| {
      assert es[..n] == es;
    } else {
      assert es[..n + 1][..n] == es[..n];
      StopsAt(g, es, n + 1, version);
    }
  }

  lemma {:induction false} SameIds(h: Graph, ms: seq<Model>, vs: seq<D.Model>, id: string)
    requires ModelsShow(h, ms, vs)
    ensures D.HasId(vs, id) <==> exists i :: 0 <= i < |ms| && ms[i].id == id
  {
    if i :| 0 <= i < |ms| && ms[i].id == id {
      assert vs[i].id == id;
    }
  }

  // ---------------------------------------------------------------------
  // Loading
  // ---------------------------------------------------------------------

  method DecodeBuffers(entries: seq<D.Buffer>) returns (r: D.Result<(seq<Path>, seq<Bytes>)>)
    ensures var v := D.DecodeBuffers(entries);
            if v.Err? then r == D.Err(v.error)
            else r.Ok? && |r.value.0| == |r.value.1| && Pairs(r.value.0, r.value.1) == v.value
  {
    var paths: seq<Path>, buffers: seq<Bytes> := [], [];
    assert Pairs(paths, buffers) == [];
    for i := 0 to |entries|
      invariant |paths| == |buffers| && D.DecodeBuffers(entries[..i]) == D.Ok(Pairs(paths, buffers))
    {
      DecodeSnoc(entries, i);
      var p := D.DecodeBuffer(entries[i]);
      if p.Err? {
        return D.Err(p.error);
      }
      PairsSnoc(paths, buffers, p.value.path, p.value.b);
      paths, buffers := paths + [p.value.path], buffers + [p.value.b];
    }
    assert entries[..|entries|] == entries;
    r := D.Ok((paths, buffers));
  }

  lemma {:induction false} DecodeSnoc(es: seq<D.Buffer>, n: nat)
    requires n < |es|
    ensures D.DecodeBuffers(es[..n + 1]) ==
            match D.DecodeBuffers(es[..n])
            case Err(error) => D.Err(error)
            case Ok(ps) =>
              match D.DecodeBuffer(es[n])
              case Err(error) => D.Err(error)
              case Ok(p) => D.Ok(ps + [p])
    ensures D.DecodeBuffers(es[..n + 1]).Err? ==> D.DecodeBuffers(es) == D.DecodeBuffers(es[..n + 1])
    decreases |es| - n
  {
    assert es[..n + 1][..n] == es[..n];
    if n + 1 < |es| {
      DecodeSnoc(es, n + 1);
    } else {
      assert es[..n + 1] == es;
    }
  }

  /** Every container of the shape is its own. */
  ghost predicate Owned(s: Shape)
    decreases s
  {
    match s
    case Kept(v) => !v.VRef?
    case Own(_, items) => forall i :: 0 <= i < |items| ==> Owned(items[i].shape)
  }

  lemma {:induction false} OwnedLoose(s: Shape)
    requires Owned(s)
    ensures Loose(map[], s)
    decreases s
  {
    if s.Own? {
      forall i | 0 <= i < |s.items|
        ensures Loose(map[], s.items[i].shape)
      {
        OwnedLoose(s.items[i].shape);
      }
    }
  }

  lemma {:induction false} WriteOwned(s: Shape, path: Path, b: Bytes)
    requires WriteS(s, path, b).Some? && Owned(s)
    ensures Owned(WriteS(s, path, b).value)
    decreases path
  {
    if |path| > 1 {
      WriteOwned(s.items[ItemAt(s.items, path[0])].shape, path[1..], b);
    }
  }

  /** A store that the tree refuses, the heap refuses. */
  lemma {:induction false} WriteFails(h: Graph, s: Shape, path: Path, b: Bytes)
    requires Owned(s) && Built(h, s) && WriteS(s, path, b).None?
    ensures PutT(TreeOf(map[], s), path, b).None? && Write(h, ValOf(s), path, b).None?
    decreases path
  {
    if path != [] && s.Own? {
      var i := ItemAt(s.items, path[0]);
      SameKeys(map[], s.items, path[0]);
      if |path| > 1 && i < |s.items| {
        TreesAt(map[], s.items, i);
        WriteFails(h, s.items[i].shape, path[1..], b);
      }
    }
  }

  /** On a fresh copy, the stores on the heap are the stores into its tree. */
  lemma {:induction false} WriteAllOwned(h: Graph, s: Shape, ps: seq<Patch>) returns (s': Shape)
    requires Owned(s) && Tidy(s) && Built(h, s)
    ensures var r, t := WriteAll(h, ValOf(s), ps), PutAllT(TreeOf(map[], s), ps);
            && (r.ok <==> t.Some?)
            && (r.ok ==> Owned(s') && Built(r.h, s') && ValOf(s') == ValOf(s) && TreeOf(map[], s') == t.value)
    decreases |ps|
  {
    s' := s;
    if ps != [] {
      var p, b := ps[0].path, ps[0].b;
      if WriteS(s, p, b).None? {
        WriteFails(h, s, p, b);
      } else {
        WriteBuilt(h, s, p, b);
        WriteTidy(s, p, b);
        WriteOwned(s, p, b);
        WriteTree(map[], s, p, b);
        s' := WriteAllOwned(Write(h, ValOf(s), p, b).value, WriteS(s, p, b).value, ps[1..]);
      }
    }
  }

  ghost predicate Copy(h: Graph, s: Shape, t: Tree) {
    Owned(s) && Tidy(s) && Built(h, s) && TreeOf(map[], s) == t && ClosedGraph(h) && Clones(s) == h.Keys
  }

  ghost predicate CopyItems(h: Graph, its: seq<SItem>, es: seq<Trees.Entry>) {
    && (forall i :: 0 <= i < |its| ==> Owned(its[i].shape))
    && TidyItems(its) && BuiltItems(h, its) && TreesOf(map[], its) == es && ClosedGraph(h) && ClonesIn(its) == h.Keys
  }

  /** An equal value made of new containers. */
  method DeepCopy(v: Val, ghost g: Graph, ghost t: Tree) returns (c: Val, ghost h: Graph, ghost s: Shape)
    requires Shows(g) && Denotes(g, v, t)
    ensures Shows(g) && Shows(h) && fresh(h.Keys)
    ensures ValOf(s) == c && Copy(h, s, t)
    decreases t
  {
    if !v.VRef? {
      return v, map[], Kept(v);
    }
    var items: seq<Item> := [];
    ghost var its: seq<SItem> := [];
    h := map[];
    for i := 0 to |v.o.items|
      invariant Shows(g) && Shows(h) && fresh(h.Keys)
      invariant items == ItemsOf(its) && CopyItems(h, its, t.items[..i])
    {
      var cv;
      ghost var hc, sc;
      cv, hc, sc := DeepCopy(v.o.items[i].val, g, t.items[i].val);
      CopySnoc(h, its, t.items, i, hc, sc);
      items := items + [Item(v.o.items[i].key, cv)];
      its := its + [SItem(t.items[i].key, sc)];
      h := h + hc;
    }
    assert t.items[..|t.items|] == t.items;
    var o := new Obj(v.o.kind, items);
    s := Own(o, its);
    BuiltItemsKeep(h, h[o := items], its);
    h := h[o := items];
    c := VRef(o);
  }

  lemma {:induction false} CopySnoc(h: Graph, its: seq<SItem>, es: seq<Trees.Entry>, i: nat, hc: Graph, sc: Shape)
    requires i < |es| && CopyItems(h, its, es[..i]) && Copy(hc, sc, es[i].val) && h.Keys !! hc.Keys
    ensures CopyItems(h + hc, its + [SItem(es[i].key, sc)], es[..i + 1])
    ensures ItemsOf(its + [SItem(es[i].key, sc)]) == ItemsOf(its) + [Item(es[i].key, ValOf(sc))]
  {
    var it := SItem(es[i].key, sc);
    TreesSnoc(map[], its, it);
    BuiltItemsKeep(h, h + hc, its);
    BuiltKeeps(hc, h + hc, sc);
    assert es[..i + 1] == es[..i] + [es[i]];
  }

  method LoadModel(m: Model, ghost g: Graph, ghost v: D.Model) returns (r: D.Result<Entry>, ghost h: Graph)
    requires Shows(g) && ModelShows(g, m, v)
    ensures Shows(g) && Shows(h) && fresh(h.Keys)
    ensures var l := D.LoadModel(v);
            if l.Err? then r == D.Err(l.error)
            else r.Ok? && r.value.id == l.value.id && Denotes(h, r.value.state, l.value.state)
  {
    var state;
    ghost var s;
    state, h, s := DeepCopy(m.record.state, g, v.record.state);
    var decoded := DecodeBuffers(if m.record.buffers.None? then [] else m.record.buffers.value);
    if decoded.Err? {
      return D.Err(decoded.error), h;
    }
    var paths, buffers := decoded.value.0, decoded.value.1;
    ZipPairs(paths, buffers);
    ghost var s' := WriteAllOwned(h, s, Pairs(paths, buffers));
    ghost var h' := WriteAll(h, state, Pairs(paths, buffers)).h;
    var ok := PutBuffers(state, paths, buffers, h);
    h := h';
    if !ok {
      return D.Err(D.BadPath), h;
    }
    OwnedLoose(s');
    LooseDenotes(map[], h, s');
    r := D.Ok(Entry.Entry(m.id, state));
  }

  lemma {:induction false} ZipPairs(paths: seq<Path>, buffers: seq<Bytes>)
    requires |paths| == |buffers|
    ensures Zip(paths, buffers) == Pairs(paths, buffers)
    decreases |paths|
  {
    if paths != [] {
      ZipPairs(paths[1..], buffers[1..]);
    }
  }

  /** The models of a document, in order; nothing that existed before is changed. */
  method LoadDocument(doc: Document, ghost g: Graph, ghost v: D.Document)
      returns (r: D.Result<seq<Entry>>, ghost h: Graph)
    requires Shows(g) && Shown(g, doc, v)
    ensures Shows(g) && Shows(h) && fresh(h.Keys)
    ensures var l := D.LoadDocument(v);
            if l.Err? then r == D.Err(l.error) else r.Ok? && EntriesShow(h, r.value, l.value)
  {
    h := map[];
    if doc.models.Missing? {
      return D.Err(D.MissingState), h;
    }
    if doc.major != Some(D.STATE_VERSION_MAJOR) {
      return D.Err(D.UnsupportedVersion), h;
    }
    if doc.models.NotAMapping? {
      return D.Err(D.StateNotAMapping), h;
    }
    var ms := doc.models.items;
    ghost var vs := v.models.items;
    var done: seq<Entry> := [];
    ghost var loaded: seq<D.ModelEntry> := [];
    for n := 0 to |ms|
      invariant Shows(g) && Shows(h) && fresh(h.Keys)
      invariant D.LoadModels(vs[..n]) == D.Ok(loaded) && EntriesShow(h, done, loaded)
    {
      LoadSnoc(vs, n);
      var e;
      ghost var he;
      e, he := LoadModel(ms[n], g, vs[n]);
      if e.Err? {
        return D.Err(e.error), h;
      }
      ghost var l := D.LoadModel(vs[n]).value;
      EntriesMore(h, h + he, done, loaded);
      EntriesMore(he, h + he, [e.value], [l]);
      h, loaded, done := h + he, loaded + [l], done + [e.value];
    }
    assert vs[..|vs|] == vs;
    r := D.Ok(done);
  }

  lemma {:induction false} LoadSnoc(vs: seq<D.Model>, n: nat)
    requires n < |vs|
    ensures D.LoadModels(vs[..n + 1]) ==
            match D.LoadModels(vs[..n])
            case Err(error) => D.Err(error)
            case Ok(done) =>
              match D.LoadModel(vs[n])
              case Err(error) => D.Err(error)
              case Ok(e) => D.Ok(done + [e])
    ensures D.LoadModels(vs[..n + 1]).Err? ==> D.LoadModels(vs) == D.LoadModels(vs[..n + 1])
    decreases |vs| - n
  {
    assert vs[..n + 1][..n] == vs[..n];
    if n + 1 < |vs| {
      LoadSnoc(vs, n + 1);
    } else {
      assert vs[..n + 1] == vs;
    }
  }
}
