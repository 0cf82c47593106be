/**
 * The controls builder: widgets with companion models, composed into boxes, and why what it
 * builds can always be dumped and has no dangling reference.
 */
module Controls {
  import opened Trees
  import opened Protocol
  import opened Documents

  /** A model that every widget of a kind comes with, referenced under key. */
  datatype Companion = Companion(key: string, identity: seq<Entry>)
  datatype Spec = Spec(identity: seq<Entry>, defaults: seq<Entry>, companions: seq<Companion>)

  // ---------------------------------------------------------------------
  // The catalog
  // ---------------------------------------------------------------------

  const CONTROLS := "@jupyter-widgets/controls"
  const BASE := "@jupyter-widgets/base"

  function Identity(model: Tree, view: Tree, pkg: string): seq<Entry> {
    [Entry(Name("_model_name"), model), TextEntry("_model_module", pkg), TextEntry("_model_module_version", "2.0.0"),
     Entry(Name("_view_name"), view), TextEntry("_view_module", pkg), TextEntry("_view_module_version", "2.0.0")]
  }

  function Text(s: string): Tree {
    Leaf(Str(s))
  }

  const NOTHING: Tree := Leaf(PyNone)
  const LAYOUT := Companion("layout", Identity(Text("LayoutModel"), NOTHING, BASE))

  function Styled(model: string): seq<Companion> {
    [Companion("style", Identity(Text(model), NOTHING, CONTROLS)), LAYOUT]
  }

  function Flag(b: bool): Tree {
    Leaf(Scalar(if b then 1 else 0))
  }

  const INT_SLIDER := Spec(
    Identity(Text("IntSliderModel"), Text("IntSliderView"), CONTROLS),
    [Entry(Name("value"), Leaf(Scalar(0))), Entry(Name("min"), Leaf(Scalar(0))), Entry(Name("max"), Leaf(Scalar(100))),
     Entry(Name("step"), Leaf(Scalar(1))), TextEntry("orientation", "horizontal"), Entry(Name("readout"), Flag(true)),
     TextEntry("readout_format", "d"), Entry(Name("continuous_update"), Flag(true)),
     Entry(Name("disabled"), Flag(false)),
     TextEntry("behavior", "drag-tap"), TextEntry("description", ""),
     Entry(Name("description_allow_html"), Flag(false)),
     TextEntry("style", "IPY_MODEL_<slider_style_id>"), TextEntry("layout", "IPY_MODEL_<layout_id>")],
    Styled("SliderStyleModel"))

  const DROPDOWN := Spec(
    Identity(Text("DropdownModel"), Text("DropdownView"), CONTROLS),
    [Entry(Name("_options_labels"), Node(ListK, [])), Entry(Name("index"), NOTHING),
     Entry(Name("disabled"), Flag(false)),
     TextEntry("description", ""), Entry(Name("description_allow_html"), Flag(false)),
     TextEntry("style", "IPY_MODEL_<description_style_id>"), TextEntry("layout", "IPY_MODEL_<layout_id>")],
    Styled("DescriptionStyleModel"))

  function BoxSpec(model: string, view: string): Spec {
    Spec(
      Identity(Text(model), Text(view), CONTROLS),
      [Entry(Name("children"), Node(ListK, [])), TextEntry("box_style", ""),
       TextEntry("layout", "IPY_MODEL_<layout_id>")],
      [LAYOUT])
  }

  datatype Catalog = Catalog(intSlider: Spec, dropdown: Spec, vbox: Spec, hbox: Spec)

  const CATALOG := Catalog(INT_SLIDER, DROPDOWN, BoxSpec("VBoxModel", "VBoxView"), BoxSpec("HBoxModel", "HBoxView"))

  // ---------------------------------------------------------------------
  // Building
  // ---------------------------------------------------------------------

  function MintId(root: string, role: string): string {
    root + "-" + role
  }

  function Ref(id: string): Tree {
    Leaf(Str(PREFIX + id))
  }

  /** The default state, with references to the first n companions. */
  function Wired(spec: Spec, root: string, n: nat): seq<Entry>
    requires n <= |spec.companions|
  {
    if n == 0 then spec.defaults
    else
      var key := spec.companions[n - 1].key;
      SetEntry(Wired(spec, root, n - 1), Name(key), Ref(MintId(root, key)))
  }

  function CompanionEntries(spec: Spec, root: string, n: nat): seq<ModelEntry>
    requires n <= |spec.companions|
  {
    if n == 0 then []
    else
      var c := spec.companions[n - 1];
      CompanionEntries(spec, root, n - 1) + [ModelEntry(MintId(root, c.key), Dict(c.identity))]
  }

  function WidgetState(spec: Spec, overrides: seq<Entry>, root: string): seq<Entry> {
    Merge(spec.identity, Merge(Wired(spec, root, |spec.companions|), overrides))
  }

  function Built(spec: Spec, overrides: seq<Entry>, root: string): seq<ModelEntry> {
    [ModelEntry(root, Dict(WidgetState(spec, overrides, root)))] + CompanionEntries(spec, root, |spec.companions|)
  }

  /** The widget's entry, then one for each companion under a fresh id. */
  method Build(spec: Spec, overrides: seq<Entry>, root: string) returns (entries: seq<ModelEntry>)
    ensures entries == Built(spec, overrides, root)
  {
    var state := spec.defaults;
    var companions: seq<ModelEntry> := [];
    for n := 0 to |spec.companions|
      invariant state == Wired(spec, root, n) && companions == CompanionEntries(spec, root, n)
    {
      var c := spec.companions[n];
      var id := MintId(root, c.key);
      state := SetEntry(state, Name(c.key), Ref(id));
      companions := companions + [ModelEntry(id, Dict(c.identity))];
    }
    entries := [ModelEntry(root, Dict(Merge(spec.identity, Merge(state, overrides))))] + companions;
  }

  /** A tree of builder calls, each with the id its widget gets. */
  datatype Widget =
    | IntSlider(root: string, value: Tree, min: Tree, max: Tree, more: seq<Entry>)
    | Dropdown(root: string, labels: seq<string>, chosen: Option<string>, index: Option<int>, more: seq<Entry>)
    | Box(root: string, vertical: bool, children: seq<Widget>, more: seq<Entry>)

  function IndexOf(labels: seq<string>, s: string): (r: Option<int>)
    ensures r.None? <==> s !in labels
    ensures r.Some? ==> 0 <= r.value < |labels| && labels[r.value] == s && s !in labels[..r.value]
  {
    if labels == [] then None
    else if labels[0] == s then Some(0)
    else match IndexOf(labels[1..], s) case None => None case Some(i) => Some(i + 1)
  }

  /** The selected index: given, or where the value is among the labels. */
  function Selected(labels: seq<string>, chosen: Option<string>, index: Option<int>): Tree {
    var i := if index.None? && chosen.Some? then IndexOf(labels, chosen.value) else index;
    if i.None? then NOTHING else Leaf(Scalar(i.value))
  }

  function ListOf(ts: seq<Tree>): Tree {
    Node(ListK, seq(|ts|, i requires 0 <= i < |ts| => Entry(Idx(i), ts[i])))
  }

  function Labels(labels: seq<string>): Tree {
    ListOf(seq(|labels|, i requires 0 <= i < |labels| => Text(labels[i])))
  }

  function ChildRefs(ws: seq<Widget>): Tree {
    ListOf(seq(|ws|, i requires 0 <= i < |ws| => Ref(ws[i].root)))
  }

  function SpecOf(cat: Catalog, w: Widget): Spec {
    match w
    case IntSlider(_, _, _, _, _) => cat.intSlider
    case Dropdown(_, _, _, _, _) => cat.dropdown
    case Box(_, vertical, _, _) => if vertical then cat.vbox else cat.hbox
  }

  function Overrides(w: Widget): seq<Entry> {
    match w
    case IntSlider(_, value, min, max, more) =>
      Merge([Entry(Name("value"), value), Entry(Name("min"), min), Entry(Name("max"), max)], more)
    case Dropdown(_, labels, chosen, index, more) =>
      Merge([Entry(Name("_options_labels"), Labels(labels)),
             Entry(Name("index"), Selected(labels, chosen, index))], more)
    case Box(_, _, children, more) => Merge([Entry(Name("children"), ChildRefs(children))], more)
  }

  /** Every model of the tree: the widget's own, then its children's. */
  function Entries(cat: Catalog, w: Widget): seq<ModelEntry>
    decreases w, 0
  {
    Built(SpecOf(cat, w), Overrides(w), w.root) + if w.Box? then AllEntries(cat, w.children) else []
  }

  function AllEntries(cat: Catalog, ws: seq<Widget>): seq<ModelEntry>
    decreases ws, 1
  {
    if ws == [] then [] else AllEntries(cat, ws[..|ws| - 1]) + Entries(cat, ws[|ws| - 1])
  }

  /** The references to the first n companions, by key. */
  function RefMap(spec: Spec, root: string, n: nat): map<Key, Canon>
    requires n <= |spec.companions|
  {
    if n == 0 then map[]
    else
      var key := spec.companions[n - 1].key;
      RefMap(spec, root, n - 1)[Name(key) := CLeaf(Str(PREFIX + MintId(root, key)))]
  }

  lemma {:induction false} WiredCanon(spec: Spec, root: string, n: nat)
    requires WfDict(spec.defaults) && n <= |spec.companions|
    ensures WfDict(Wired(spec, root, n))
    ensures CanonItems(Wired(spec, root, n)) == CanonItems(spec.defaults) + RefMap(spec, root, n)
  {
    if n > 0 {
      var key := spec.companions[n - 1].key;
      WiredCanon(spec, root, n - 1);
      SetWf(Wired(spec, root, n - 1), Name(key), Ref(MintId(root, key)));
      MergeUpdate(CanonItems(spec.defaults), RefMap(spec, root, n - 1), Name(key), CanonOf(Ref(MintId(root, key))));
    }
  }

  /** A widget's state: the caller's values win over the companion references, those over the defaults. */
  lemma {:induction false} WidgetStateCanon(spec: Spec, overrides: seq<Entry>, root: string)
    requires WfDict(spec.identity) && WfDict(spec.defaults) && WfDict(overrides)
    ensures CanonItems(WidgetState(spec, overrides, root)) ==
            CanonItems(spec.identity) +
            (CanonItems(spec.defaults) + RefMap(spec, root, |spec.companions|) + CanonItems(overrides))
  {
    WiredCanon(spec, root, |spec.companions|);
    MergeCanon(Wired(spec, root, |spec.companions|), overrides);
    MergeCanon(spec.identity, Merge(Wired(spec, root, |spec.companions|), overrides));
  }

  // ---------------------------------------------------------------------
  // Values that refer to nothing unknown
  // ---------------------------------------------------------------------

  predicate Fine(t: Tree, ids: set<string>) {
    Resolves(ids, t) && Depth(t) <= MAX_DEPTH
  }

  predicate Plain(items: seq<Entry>, ids: set<string>, except: set<Key>) {
    forall i :: 0 <= i < |items| ==> items[i].key in except || Fine(items[i].val, ids)
  }

  predicate OnceAtMost(items: seq<Entry>, key: Key) {
    forall i, j :: 0 <= i < |items| && 0 <= j < |items| && items[i].key == key && items[j].key == key ==> i == j
  }

  lemma {:induction false} OnceKept(items: seq<Entry>, key: Key, t: Tree, other: Key)
    requires OnceAtMost(items, other) && key != other
    ensures OnceAtMost(SetEntry(items, key, t), other)
  {}

  lemma {:induction false} PlainSet(items: seq<Entry>, ids: set<string>, except: set<Key>, key: Key, t: Tree)
    requires OnceAtMost(items, key) && Plain(items, ids, except) && Fine(t, ids)
    ensures Plain(SetEntry(items, key, t), ids, except - {key})
  {
    var j := EntryAt(items, key);
    assert forall i :: 0 <= i < |items| && i != j ==> items[i].key != key;
  }

  lemma {:induction false} PlainMerge(a: seq<Entry>, b: seq<Entry>, ids: set<string>)
    requires Plain(a, ids, {}) && Plain(b, ids, {})
    ensures Plain(Merge(a, b), ids, {})
  {
    if b != [] {
      PlainMerge(a, b[..|b| - 1], ids);
    }
  }

  lemma {:induction false} PlainMore(items: seq<Entry>, ids: set<string>, more: set<string>)
    requires Plain(items, ids, {}) && ids <= more
    ensures Plain(items, more, {})
  {
    forall i | 0 <= i < |items|
      ensures Fine(items[i].val, more)
    {
      assert Fine(items[i].val, ids);
    }
  }

  lemma {:induction false} PlainRefs(items: seq<Entry>, ids: set<string>)
    requires Plain(items, ids, {})
    ensures forall r :: r in RefsItems(items) ==> r in ids
  {
    if items != [] {
      var n := |items| - 1;
      PlainRefs(items[..n], ids);
      assert Fine(items[n].val, ids);
      assert RefsItems(items) == RefsItems(items[..n]) + Refs(items[n].val);
    }
  }

  lemma {:induction false} PlainNode(kind: Kind, items: seq<Entry>, ids: set<string>)
    requires Plain(items, ids, {})
    ensures Resolves(ids, Node(kind, items)) && Depth(Node(kind, items)) <= MAX_DEPTH + 1
  {
    PlainRefs(items, ids);
    DepthBound(items, MAX_DEPTH);
  }

  lemma {:induction false} RefNames(id: string)
    requires OneLine(id)
    ensures Refs(Ref(id)) == [id] && Depth(Ref(id)) == 0
  {
    assert (PREFIX + id)[|PREFIX|..] == id;
  }

  lemma {:induction false} RefFine(id: string, ids: set<string>)
    requires OneLine(id) && id in ids
    ensures Fine(Ref(id), ids)
  {
    RefNames(id);
  }

  // ---------------------------------------------------------------------
  // One widget and its companions
  // ---------------------------------------------------------------------

  function KeysFrom(spec: Spec, n: nat): set<Key> {
    set i | n <= i < |spec.companions| :: Name(spec.companions[i].key)
  }

  /** Only the placeholders for companions refer to anything. */
  predicate GoodSpec(spec: Spec) {
    && Plain(spec.identity, {}, {}) && Plain(spec.defaults, {}, KeysFrom(spec, 0))
    && (forall i :: 0 <= i < |spec.companions| ==> OnceAtMost(spec.defaults, Name(spec.companions[i].key)))
    && (forall i :: 0 <= i < |spec.companions| ==>
        '\n' !in spec.companions[i].key && Plain(spec.companions[i].identity, {}, {}))
    && (forall i, j :: 0 <= i < j < |spec.companions| ==> spec.companions[i].key != spec.companions[j].key)
  }

  predicate RootId(root: string) {
    OneLine(root) && '-' !in root
  }

  /** The root id that an id was minted from. */
  function Owner(id: string): string {
    if id == "" || id[0] == '-' then "" else [id[0]] + Owner(id[1..])
  }

  lemma {:induction false} OwnerOf(root: string, role: string)
    requires '-' !in root
    ensures Owner(root) == root && Owner(MintId(root, role)) == root
  {
    if root != "" {
      assert '-' !in root[1..];
      OwnerOf(root[1..], role);
      assert MintId(root, role) == [root[0]] + MintId(root[1..], role);
    }
  }

  function IdSet(es: seq<ModelEntry>): set<string> {
    set i | 0 <= i < |es| :: es[i].id
  }

  ghost predicate ClosedIn(es: seq<ModelEntry>, ids: set<string>) {
    forall i :: 0 <= i < |es| ==> Resolves(ids, es[i].state)
  }

  /** Dumpable, with unique ids minted from roots. */
  ghost predicate Sound(es: seq<ModelEntry>, roots: set<string>) {
    UniqueIds(es) && forall i :: 0 <= i < |es| ==> Dumpable(es[i]) && Owner(es[i].id) in roots
  }

  lemma {:induction false} SoundAppend(a: seq<ModelEntry>, ra: set<string>, b: seq<ModelEntry>, rb: set<string>)
    requires Sound(a, ra) && Sound(b, rb) && ra !! rb
    ensures Sound(a + b, ra + rb)
  {
    forall i, j | 0 <= i < |a| && 0 <= j < |b|
      ensures a[i].id != b[j].id
    {
      assert Owner(a[i].id) in ra && Owner(b[j].id) in rb;
    }
  }

  lemma {:induction false} ClosedAppend(a: seq<ModelEntry>, b: seq<ModelEntry>, ids: set<string>)
    requires ClosedIn(a, ids) && ClosedIn(b, ids)
    ensures ClosedIn(a + b, ids)
  {}

  lemma {:induction false} ClosedMore(es: seq<ModelEntry>, ids: set<string>, more: set<string>)
    requires ClosedIn(es, ids) && ids <= more
    ensures ClosedIn(es, more)
  {
    forall i | 0 <= i < |es|
      ensures Resolves(more, es[i].state)
    {
      assert Resolves(ids, es[i].state);
    }
  }

  lemma {:induction false} IdsAppend(a: seq<ModelEntry>, b: seq<ModelEntry>)
    ensures IdSet(a + b) == IdSet(a) + IdSet(b)
  {
    forall i | 0 <= i < |a|
      ensures a[i].id in IdSet(a + b)
    {
      assert (a + b)[i] == a[i];
    }
    forall i | 0 <= i < |b|
      ensures b[i].id in IdSet(a + b)
    {
      assert (a + b)[|a| + i] == b[i];
    }
  }

  lemma {:induction false} CompanionsAt(spec: Spec, root: string, n: nat, i: nat)
    requires n <= |spec.companions| && i < n
    ensures |CompanionEntries(spec, root, n)| == n
    ensures CompanionEntries(spec, root, n)[i] ==
            ModelEntry(MintId(root, spec.companions[i].key), Dict(spec.companions[i].identity))
    decreases n
  {
    if n > 1 {
      CompanionsAt(spec, root, n - 1, if i < n - 1 then i else 0);
    }
  }

  lemma {:induction false} WiredPlain(spec: Spec, root: string, n: nat, ids: set<string>)
    requires GoodSpec(spec) && RootId(root) && n <= |spec.companions|
    requires forall i :: 0 <= i < |spec.companions| ==> MintId(root, spec.companions[i].key) in ids
    ensures Plain(Wired(spec, root, n), ids, KeysFrom(spec, n))
    ensures forall i :: n <= i < |spec.companions| ==> OnceAtMost(Wired(spec, root, n), Name(spec.companions[i].key))
  {
    if n == 0 {
      forall i | 0 <= i < |spec.defaults| && spec.defaults[i].key !in KeysFrom(spec, 0)
        ensures Fine(spec.defaults[i].val, ids)
      {
        assert Fine(spec.defaults[i].val, {});
      }
    } else {
      var key := spec.companions[n - 1].key;
      WiredPlain(spec, root, n - 1, ids);
      assert MintId(root, key) in ids && OneLine(MintId(root, key));
      RefFine(MintId(root, key), ids);
      PlainSet(Wired(spec, root, n - 1), ids, KeysFrom(spec, n - 1), Name(key), Ref(MintId(root, key)));
      assert KeysFrom(spec, n - 1) - {Name(key)} <= KeysFrom(spec, n);
      forall i | n <= i < |spec.companions|
        ensures OnceAtMost(Wired(spec, root, n), Name(spec.companions[i].key))
      {
        OnceKept(Wired(spec, root, n - 1), Name(key), Ref(MintId(root, key)), Name(spec.companions[i].key));
      }
    }
  }

  lemma {:induction false} MintApart(root: string, a: string, b: string)
    requires a != b
    ensures MintId(root, a) != MintId(root, b) && MintId(root, a) != root
  {
    var x, y := MintId(root, a), MintId(root, b);
    assert x[|root| + 1..] == a && y[|root| + 1..] == b && |x| > |root|;
  }

  /** The entry of a widget is its state; the others are those of its companions. */
  lemma {:induction false} BuiltAt(spec: Spec, overrides: seq<Entry>, root: string, i: nat)
    requires i <= |spec.companions|
    ensures |Built(spec, overrides, root)| == |spec.companions| + 1
    ensures Built(spec, overrides, root)[i] ==
            if i == 0 then ModelEntry(root, Dict(WidgetState(spec, overrides, root)))
            else ModelEntry(MintId(root, spec.companions[i - 1].key), Dict(spec.companions[i - 1].identity))
  {
    if |spec.companions| > 0 {
      CompanionsAt(spec, root, |spec.companions|, if i == 0 then 0 else i - 1);
    }
  }

  lemma {:induction false} OwnIds(spec: Spec, overrides: seq<Entry>, root: string)
    requires GoodSpec(spec) && RootId(root)
    ensures var es := Built(spec, overrides, root);
            UniqueIds(es) && forall i :: 0 <= i < |es| ==> Owner(es[i].id) == root
  {
    var es := Built(spec, overrides, root);
    BuiltAt(spec, overrides, root, 0);
    forall i | 0 <= i < |es|
      ensures es[i].id != "" && Owner(es[i].id) == root
    {
      BuiltAt(spec, overrides, root, i);
      OwnerOf(root, if i == 0 then "" else spec.companions[i - 1].key);
    }
    forall i, j | 0 <= i < j < |es|
      ensures es[i].id != es[j].id
    {
      BuiltAt(spec, overrides, root, i);
      BuiltAt(spec, overrides, root, j);
      var b := spec.companions[j - 1].key;
      if i == 0 {
        MintApart(root, b, b + "-");
      } else {
        MintApart(root, spec.companions[i - 1].key, b);
      }
    }
  }

  lemma {:induction false} OwnState(spec: Spec, overrides: seq<Entry>, root: string, ids: set<string>)
    requires GoodSpec(spec) && RootId(root) && Plain(overrides, ids, {})
    requires forall i :: 0 <= i < |spec.companions| ==> MintId(root, spec.companions[i].key) in ids
    ensures Plain(WidgetState(spec, overrides, root), ids, {})
  {
    var n := |spec.companions|;
    WiredPlain(spec, root, n, ids);
    assert KeysFrom(spec, n) == {};
    PlainMerge(Wired(spec, root, n), overrides, ids);
    PlainMore(spec.identity, {}, ids);
    PlainMerge(spec.identity, Merge(Wired(spec, root, n), overrides), ids);
  }

  lemma {:induction false} OwnSound(spec: Spec, overrides: seq<Entry>, root: string, ids: set<string>)
    requires GoodSpec(spec) && RootId(root) && Plain(overrides, ids, {}) && IdSet(Built(spec, overrides, root)) <= ids
    ensures Sound(Built(spec, overrides, root), {root}) && ClosedIn(Built(spec, overrides, root), ids)
  {
    var es := Built(spec, overrides, root);
    BuiltAt(spec, overrides, root, 0);
    OwnIds(spec, overrides, root);
    forall i | 0 <= i < |spec.companions|
      ensures MintId(root, spec.companions[i].key) in ids
    {
      BuiltAt(spec, overrides, root, i + 1);
      assert es[i + 1].id in IdSet(es);
    }
    OwnState(spec, overrides, root, ids);
    forall i | 0 <= i < |es|
      ensures Dumpable(es[i]) && Resolves(ids, es[i].state)
    {
      BuiltAt(spec, overrides, root, i);
      if i == 0 {
        PlainNode(DictK, WidgetState(spec, overrides, root), ids);
      } else {
        PlainMore(spec.companions[i - 1].identity, {}, ids);
        PlainNode(DictK, spec.companions[i - 1].identity, ids);
      }
    }
  }

  // ---------------------------------------------------------------------
  // Trees of widgets
  // ---------------------------------------------------------------------

  function RootSet(w: Widget): set<string>
    decreases w, 0
  {
    {w.root} + if w.Box? then RootSets(w.children) else {}
  }

  function RootSets(ws: seq<Widget>): set<string>
    decreases ws, 1
  {
    if ws == [] then {} else RootSets(ws[..|ws| - 1]) + RootSet(ws[|ws| - 1])
  }

  /** Each widget is used once, with an id of its own. */
  predicate Once(w: Widget)
    decreases w, 0
  {
    w.Box? ==> w.root !in RootSets(w.children) && AllOnce(w.children)
  }

  predicate AllOnce(ws: seq<Widget>)
    decreases ws, 1
  {
    ws != [] ==>
      AllOnce(ws[..|ws| - 1]) && Once(ws[|ws| - 1]) && RootSets(ws[..|ws| - 1]) !! RootSet(ws[|ws| - 1])
  }

  /** Root ids have no hyphen, and the caller's own values refer to no model. */
  predicate Good(w: Widget)
    decreases w
  {
    && RootId(w.root) && Plain(w.more, {}, {})
    && match w
       case IntSlider(_, value, min, max, _) => Fine(value, {}) && Fine(min, {}) && Fine(max, {})
       case Dropdown(_, labels, _, _, _) => forall i :: 0 <= i < |labels| ==> RefId(labels[i]).None?
       case Box(_, _, children, _) => forall i :: 0 <= i < |children| ==> Good(children[i])
  }

  lemma {:induction false} ListPlain(ts: seq<Tree>, ids: set<string>)
    requires forall i :: 0 <= i < |ts| ==> Resolves(ids, ts[i]) && Depth(ts[i]) == 0
    ensures Fine(ListOf(ts), ids)
  {
    PlainRefs(ListOf(ts).items, ids);
    DepthBound(ListOf(ts).items, 0);
  }

  lemma {:induction false} OverridesPlain(w: Widget, ids: set<string>)
    requires Good(w) && (w.Box? ==> forall i :: 0 <= i < |w.children| ==> w.children[i].root in ids)
    ensures Plain(Overrides(w), ids, {})
  {
    PlainMore(w.more, {}, ids);
    match w {
      case IntSlider(_, value, min, max, more) =>
        var own := [Entry(Name("value"), value), Entry(Name("min"), min), Entry(Name("max"), max)];
        PlainMore(own, {}, ids);
        PlainMerge(own, more, ids);
      case Dropdown(_, labels, chosen, index, more) =>
        ListPlain(seq(|labels|, i requires 0 <= i < |labels| => Text(labels[i])), ids);
        PlainMerge([Entry(Name("_options_labels"), Labels(labels)),
                    Entry(Name("index"), Selected(labels, chosen, index))], more, ids);
      case Box(_, _, children, more) =>
        forall i | 0 <= i < |children|
          ensures Resolves(ids, Ref(children[i].root)) && Depth(Ref(children[i].root)) == 0
        {
          RefFine(children[i].root, ids);
        }
        ListPlain(seq(|children|, i requires 0 <= i < |children| => Ref(children[i].root)), ids);
        PlainMerge([Entry(Name("children"), ChildRefs(children))], more, ids);
    }
  }

  lemma {:induction false} TextFine(s: string)
    requires |s| < 2 || s[1] != 'P'
    ensures Fine(Text(s), {})
  {
    assert PREFIX[1] == 'P';
  }

  lemma {:induction false} IdentityPlain(model: Tree, view: Tree, pkg: string)
    requires Fine(model, {}) && Fine(view, {}) && Fine(Text(pkg), {})
    ensures Plain(Identity(model, view, pkg), {}, {})
  {
    TextFine("2.0.0");
  }

  lemma {:induction false} PackagesFine()
    ensures Fine(Text(CONTROLS), {}) && Fine(Text(BASE), {}) && Fine(NOTHING, {})
  {
    TextFine(CONTROLS);
    TextFine(BASE);
  }

  lemma {:induction false} LayoutGood()
    ensures Plain(LAYOUT.identity, {}, {})
  {
    TextFine("LayoutModel");
    PackagesFine();
    IdentityPlain(Text("LayoutModel"), NOTHING, BASE);
  }

  lemma {:induction false} StyledGood(spec: Spec, model: string)
    requires spec.companions == Styled(model) && Fine(Text(model), {})
    requires Plain(spec.identity, {}, {}) && Plain(spec.defaults, {}, {Name("style"), Name("layout")})
    requires OnceAtMost(spec.defaults, Name("style")) && OnceAtMost(spec.defaults, Name("layout"))
    ensures GoodSpec(spec)
  {
    LayoutGood();
    PackagesFine();
    IdentityPlain(Text(model), NOTHING, CONTROLS);
    assert Name(spec.companions[0].key) in KeysFrom(spec, 0) && Name(spec.companions[1].key) in KeysFrom(spec, 0);
  }

  lemma {:induction false} BoxGood(model: string, view: string)
    requires Fine(Text(model), {}) && Fine(Text(view), {})
    ensures GoodSpec(BoxSpec(model, view))
  {
    var spec := BoxSpec(model, view);
    LayoutGood();
    PackagesFine();
    IdentityPlain(Text(model), Text(view), CONTROLS);
    TextFine("");
    assert Name(spec.companions[0].key) in KeysFrom(spec, 0);
    assert Fine(Node(ListK, []), {});
  }

  lemma {:induction false} SliderStyleOnce()
    ensures OnceAtMost(INT_SLIDER.defaults, Name("style"))
  {
    assert forall i :: 0 <= i < |INT_SLIDER.defaults| && INT_SLIDER.defaults[i].key == Name("style") ==> i == 12;
  }

  lemma {:induction false} SliderLayoutOnce()
    ensures OnceAtMost(INT_SLIDER.defaults, Name("layout"))
  {
    assert forall i :: 0 <= i < |INT_SLIDER.defaults| && INT_SLIDER.defaults[i].key == Name("layout") ==> i == 13;
  }

  lemma {:induction false} SliderGood()
    ensures GoodSpec(INT_SLIDER)
  {
    PackagesFine();
    TextFine("IntSliderModel");
    TextFine("IntSliderView");
    TextFine("SliderStyleModel");
    IdentityPlain(Text("IntSliderModel"), Text("IntSliderView"), CONTROLS);
    TextFine("horizontal");
    TextFine("d");
    TextFine("drag-tap");
    TextFine("");
    assert Plain(INT_SLIDER.defaults, {}, {Name("style"), Name("layout")});
    SliderStyleOnce();
    SliderLayoutOnce();
    StyledGood(INT_SLIDER, "SliderStyleModel");
  }

  lemma {:induction false} DropdownGood()
    ensures GoodSpec(DROPDOWN)
  {
    PackagesFine();
    TextFine("DropdownModel");
    TextFine("DropdownView");
    TextFine("DescriptionStyleModel");
    IdentityPlain(Text("DropdownModel"), Text("DropdownView"), CONTROLS);
    TextFine("");
    assert Fine(Node(ListK, []), {});
    StyledGood(DROPDOWN, "DescriptionStyleModel");
  }

  predicate GoodCatalog(cat: Catalog) {
    GoodSpec(cat.intSlider) && GoodSpec(cat.dropdown) && GoodSpec(cat.vbox) && GoodSpec(cat.hbox)
  }

  /** In the catalog, only the placeholders for companions refer to anything. */
  lemma {:induction false} CatalogGood()
    ensures GoodCatalog(CATALOG)
  {
    SliderGood();
    DropdownGood();
    TextFine("VBoxModel");
    TextFine("VBoxView");
    BoxGood("VBoxModel", "VBoxView");
    TextFine("HBoxModel");
    TextFine("HBoxView");
    BoxGood("HBoxModel", "HBoxView");
  }

  lemma {:induction false} EntriesGood(cat: Catalog, w: Widget)
    requires GoodCatalog(cat) && Good(w) && Once(w)
    ensures Whole(Entries(cat, w), RootSet(w)) && w.root in IdSet(Entries(cat, w))
    decreases w, 0
  {
    var spec, own := SpecOf(cat, w), Built(SpecOf(cat, w), Overrides(w), w.root);
    var below := if w.Box? then AllEntries(cat, w.children) else [];
    var ids := IdSet(own + below);
    IdsAppend(own, below);
    BuiltAt(spec, Overrides(w), w.root, 0);
    assert own[0].id in IdSet(own);
    if w.Box? {
      AllEntriesGood(cat, w.children);
    }
    OverridesPlain(w, ids);
    OwnSound(spec, Overrides(w), w.root, ids);
    SoundAppend(own, {w.root}, below, if w.Box? then RootSets(w.children) else {});
    ClosedMore(below, IdSet(below), ids);
    ClosedAppend(own, below, ids);
  }

  ghost predicate Whole(es: seq<ModelEntry>, roots: set<string>) {
    Sound(es, roots) && ClosedIn(es, IdSet(es))
  }

  lemma {:induction false} WholeAppend(a: seq<ModelEntry>, ra: set<string>, b: seq<ModelEntry>, rb: set<string>)
    requires Whole(a, ra) && Whole(b, rb) && ra !! rb
    ensures Whole(a + b, ra + rb) && IdSet(a + b) == IdSet(a) + IdSet(b)
  {
    IdsAppend(a, b);
    SoundAppend(a, ra, b, rb);
    ClosedMore(a, IdSet(a), IdSet(a + b));
    ClosedMore(b, IdSet(b), IdSet(a + b));
    ClosedAppend(a, b, IdSet(a + b));
  }

  ghost predicate Rooted(ws: seq<Widget>, ids: set<string>) {
    forall i :: 0 <= i < |ws| ==> ws[i].root in ids
  }

  lemma {:induction false} RootedSnoc(ws: seq<Widget>, a: set<string>, w: Widget, b: set<string>)
    requires Rooted(ws, a) && w.root in b
    ensures Rooted(ws + [w], a + b)
  {}

  lemma {:induction false} AllEntriesGood(cat: Catalog, ws: seq<Widget>)
    requires GoodCatalog(cat) && AllOnce(ws) && forall i :: 0 <= i < |ws| ==> Good(ws[i])
    ensures Whole(AllEntries(cat, ws), RootSets(ws))
    ensures Rooted(ws, IdSet(AllEntries(cat, ws)))
    decreases ws, 1
  {
    if ws != [] {
      var init, last := ws[..|ws| - 1], ws[|ws| - 1];
      assert ws == init + [last];
      AllEntriesGood(cat, init);
      EntriesGood(cat, last);
      WholeAppend(AllEntries(cat, init), RootSets(init), Entries(cat, last), RootSet(last));
      assert AllEntries(cat, ws) == AllEntries(cat, init) + Entries(cat, last)
          && RootSets(ws) == RootSets(init) + RootSet(last);
      RootedSnoc(init, IdSet(AllEntries(cat, init)), last, IdSet(Entries(cat, last)));
    }
  }

  /**
   * Whatever is composed from the builders, each widget used once and under a fresh id: it can
   * be dumped, and no reference in the document dangles.
   */
  lemma {:induction false} BuilderClosed(w: Widget, version: string)
    requires Good(w) && Once(w)
    ensures DumpDocument(Entries(CATALOG, w), version).Ok?
    ensures NoneDangles(DumpDocument(Entries(CATALOG, w), version).value.models.items)
  {
    hide Entries, Good, Once, DumpDocument, Dumpable, Names, Closed, GoodCatalog;
    var es := Entries(CATALOG, w);
    CatalogGood();
    EntriesGood(CATALOG, w);
    DumpExactly(es, version);
    DumpedClosed(es, version);
    ClosedNames(es);
  }

  lemma {:induction false} ClosedNames(es: seq<ModelEntry>)
    requires ClosedIn(es, IdSet(es))
    ensures forall i, id :: 0 <= i < |es| && Names(es[i].state, id) ==> exists j :: 0 <= j < |es| && es[j].id == id
  {
    hide Names;
    forall i, id | 0 <= i < |es| && Names(es[i].state, id)
      ensures exists j :: 0 <= j < |es| && es[j].id == id
    {
      RefsExact(es[i].state, id);
      assert Resolves(IdSet(es), es[i].state);
    }
  }

  // ---------------------------------------------------------------------
  // What the widget's own entry says
  // ---------------------------------------------------------------------

  /** The state has this value under the key, unless the caller gave another. */
  predicate Has(state: seq<Entry>, more: seq<Entry>, key: string, c: Canon) {
    var m, given := CanonItems(state), CanonItems(more);
    Name(key) in m && m[Name(key)] == if Name(key) in given then given[Name(key)] else c
  }

  predicate Lacks(items: seq<Entry>, key: Key) {
    forall i :: 0 <= i < |items| ==> items[i].key != key
  }

  predicate WfSpec(spec: Spec) {
    && WfDict(spec.identity) && WfDict(spec.defaults)
    && (forall i :: 0 <= i < |spec.companions| ==> Lacks(spec.identity, Name(spec.companions[i].key)))
    && forall i :: 0 <= i < |spec.identity| ==> Lacks(spec.defaults, spec.identity[i].key)
  }

  lemma {:induction false} RefMapKeys(spec: Spec, root: string, n: nat, key: Key)
    requires n <= |spec.companions|
    ensures key in RefMap(spec, root, n) <==> exists i :: 0 <= i < n && Name(spec.companions[i].key) == key
  {
    if n > 0 {
      RefMapKeys(spec, root, n - 1, key);
    }
  }

  lemma {:induction false} RefMapAt(spec: Spec, root: string, n: nat, i: nat)
    requires i < n <= |spec.companions|
    requires forall j :: i < j < n ==> spec.companions[j].key != spec.companions[i].key
    ensures var key := spec.companions[i].key;
            Name(key) in RefMap(spec, root, n)
              && RefMap(spec, root, n)[Name(key)] == CLeaf(Str("IPY_MODEL_" + root + "-" + key))
    decreases n
  {
    if i < n - 1 {
      RefMapAt(spec, root, n - 1, i);
    } else {
      Assoc(PREFIX, root, "-" + spec.companions[i].key);
      Assoc(root, "-", spec.companions[i].key);
      Assoc("IPY_MODEL_" + root, "-", spec.companions[i].key);
    }
  }

  lemma {:induction false} StateCanon(spec: Spec, own: seq<Entry>, more: seq<Entry>, root: string)
    requires WfSpec(spec) && WfDict(own) && WfDict(more)
    ensures CanonItems(WidgetState(spec, Merge(own, more), root)) ==
            CanonItems(spec.identity) + (CanonItems(spec.defaults) + RefMap(spec, root, |spec.companions|)
                                         + (CanonItems(own) + CanonItems(more)))
  {
    MergeCanon(own, more);
    WidgetStateCanon(spec, Merge(own, more), root);
  }

  /** What the builder was given for its own keys. */
  lemma {:induction false} OwnShown(spec: Spec, own: seq<Entry>, more: seq<Entry>, root: string, i: nat)
    requires WfSpec(spec) && WfDict(own) && WfDict(more) && i < |own| && own[i].key.Name?
    ensures Has(WidgetState(spec, Merge(own, more), root), more, own[i].key.s, CanonOf(own[i].val))
  {
    StateCanon(spec, own, more, root);
    CanonEntry(own, i);
  }

  lemma {:induction false} RefShown(spec: Spec, own: seq<Entry>, more: seq<Entry>, root: string, i: nat, end: string)
    requires WfSpec(spec) && WfDict(own) && WfDict(more) && i < |spec.companions|
    requires forall j :: i < j < |spec.companions| ==> spec.companions[j].key != spec.companions[i].key
    requires Lacks(own, Name(spec.companions[i].key)) && end == "-" + spec.companions[i].key
    ensures Has(WidgetState(spec, Merge(own, more), root), more, spec.companions[i].key,
              CLeaf(Str("IPY_MODEL_" + root + end)))
  {
    Assoc("IPY_MODEL_" + root, "-", spec.companions[i].key);
    StateCanon(spec, own, more, root);
    RefMapAt(spec, root, |spec.companions|, i);
    CanonKeys(own, Name(spec.companions[i].key));
  }

  lemma {:induction false} IdentityShown(spec: Spec, own: seq<Entry>, more: seq<Entry>, root: string, i: nat)
    requires WfSpec(spec) && WfDict(own) && WfDict(more) && i < |spec.identity| && spec.identity[i].key.Name?
    requires Lacks(own, spec.identity[i].key)
    ensures Has(WidgetState(spec, Merge(own, more), root), more, spec.identity[i].key.s, CanonOf(spec.identity[i].val))
  {
    var key := spec.identity[i].key;
    StateCanon(spec, own, more, root);
    CanonEntry(spec.identity, i);
    CanonKeys(spec.defaults, key);
    CanonKeys(own, key);
    RefMapKeys(spec, root, |spec.companions|, key);
  }

  /** The six identity fields, each unless the caller gave another. */
  predicate Identified(state: seq<Entry>, more: seq<Entry>, model: Canon, view: Canon, pkg: string) {
    && Has(state, more, "_model_name", model) && Has(state, more, "_model_module", CLeaf(Str(pkg)))
    && Has(state, more, "_model_module_version", CLeaf(Str("2.0.0")))
    && Has(state, more, "_view_name", view) && Has(state, more, "_view_module", CLeaf(Str(pkg)))
    && Has(state, more, "_view_module_version", CLeaf(Str("2.0.0")))
  }

  predicate NoIdentity(own: seq<Entry>) {
    forall i :: 0 <= i < |own| ==> own[i].key in {Name("value"), Name("min"), Name("max"), Name("children"),
                                                  Name("_options_labels"), Name("index")}
  }

  lemma {:induction false} IdentifiedAs(spec: Spec, own: seq<Entry>, more: seq<Entry>, root: string, model: string,
        view: string)
    requires WfSpec(spec) && WfDict(own) && WfDict(more) && NoIdentity(own)
    requires spec.identity == Identity(Text(model), Text(view), CONTROLS)
    ensures Identified(WidgetState(spec, Merge(own, more), root), more, CLeaf(Str(model)), CLeaf(Str(view)),
              "@jupyter-widgets/controls")
  {
    hide Has, WidgetState, Merge;
    IdentityShown(spec, own, more, root, 0);
    IdentityShown(spec, own, more, root, 1);
    IdentityShown(spec, own, more, root, 2);
    IdentityShown(spec, own, more, root, 3);
    IdentityShown(spec, own, more, root, 4);
    IdentityShown(spec, own, more, root, 5);
  }

  lemma {:induction false} IdentityHas(model: string, pkg: string)
    ensures Identified(Identity(Text(model), NOTHING, pkg), [], CLeaf(Str(model)), CLeaf(PyNone), pkg)
  {
    var items := Identity(Text(model), NOTHING, pkg);
    CanonEntry(items, 0);
    CanonEntry(items, 1);
    CanonEntry(items, 2);
    CanonEntry(items, 3);
    CanonEntry(items, 4);
    CanonEntry(items, 5);
  }

  predicate Underscored(s: string) {
    s != "" && s[0] == '_'
  }

  /** Where a key stands among the slider's defaults. */
  function SliderPlace(s: string): nat {
    match |s|
    case 3 => if s[1] == 'i' then 1 else 2
    case 4 => 3
    case 5 => if s[0] == 'v' then 0 else 12
    case 6 => 13
    case 7 => 5
    case 8 => if s[0] == 'd' then 8 else 9
    case 11 => if s[0] == 'o' then 4 else 10
    case 14 => 6
    case 17 => 7
    case _ => 11
  }

  lemma {:induction false} SliderPlaces(i: nat)
    requires i < |INT_SLIDER.defaults|
    ensures INT_SLIDER.defaults[i].key.Name? && SliderPlace(INT_SLIDER.defaults[i].key.s) == i
    ensures !Underscored(INT_SLIDER.defaults[i].key.s) && INT_SLIDER.defaults[i].val.Leaf?
  {}

  /** The identity fields differ in length, and their underscores set them apart from other keys. */
  lemma {:induction false} IdentityWf(model: Tree, view: Tree, pkg: string)
    requires Wf(model) && Wf(view)
    ensures WfDict(Identity(model, view, pkg))
    ensures forall i :: 0 <= i < 6 ==>
              Identity(model, view, pkg)[i].key.Name? && Underscored(Identity(model, view, pkg)[i].key.s)
              && |Identity(model, view, pkg)[i].key.s| != 15
  {
    forall i | 0 <= i < 6
      ensures Identity(model, view, pkg)[i].key.Name?
      ensures |Identity(model, view, pkg)[i].key.s| == [11, 13, 21, 10, 12, 20][i]
    {}
  }

  lemma {:induction false} SliderWf()
    ensures WfSpec(INT_SLIDER)
  {
    hide SliderPlace;
    IdentityWf(Text("IntSliderModel"), Text("IntSliderView"), CONTROLS);
    forall i | 0 <= i < |INT_SLIDER.defaults|
      ensures INT_SLIDER.defaults[i].key.Name? && SliderPlace(INT_SLIDER.defaults[i].key.s) == i
      ensures !Underscored(INT_SLIDER.defaults[i].key.s) && INT_SLIDER.defaults[i].val.Leaf?
    {
      SliderPlaces(i);
    }
    assert !Underscored("style") && !Underscored("layout");
  }

  lemma {:induction false} DropdownWf()
    ensures WfSpec(DROPDOWN)
  {
    IdentityWf(Text("DropdownModel"), Text("DropdownView"), CONTROLS);
  }

  lemma {:induction false} BoxWf(model: string, view: string)
    ensures WfSpec(BoxSpec(model, view))
  {
    IdentityWf(Text(model), Text(view), CONTROLS);
  }

  /** The entry of a companion: its id, and the model it is. */
  predicate IsCompanion(e: ModelEntry, id: string, model: string, pkg: string) {
    e.id == id && IsDict(e.state) && Identified(e.state.items, [], CLeaf(Str(model)), CLeaf(PyNone), pkg)
  }

  /** A slider: the values it was given, and references to a style and a layout of its own. */
  lemma {:induction false} SliderShown(root: string, value: Tree, min: Tree, max: Tree, more: seq<Entry>)
    requires WfDict(more) && Wf(value) && Wf(min) && Wf(max)
    ensures var es := Entries(CATALOG, IntSlider(root, value, min, max, more));
            && |es| == 3 && es[0].id == root && IsDict(es[0].state)
            && Identified(es[0].state.items, more, CLeaf(Str("IntSliderModel")), CLeaf(Str("IntSliderView")),
                 "@jupyter-widgets/controls")
            && Has(es[0].state.items, more, "value", CanonOf(value))
            && Has(es[0].state.items, more, "min", CanonOf(min)) && Has(es[0].state.items, more, "max", CanonOf(max))
            && Has(es[0].state.items, more, "style", CLeaf(Str("IPY_MODEL_" + root + "-style")))
            && Has(es[0].state.items, more, "layout", CLeaf(Str("IPY_MODEL_" + root + "-layout")))
            && IsCompanion(es[1], root + "-style", "SliderStyleModel", "@jupyter-widgets/controls")
            && IsCompanion(es[2], root + "-layout", "LayoutModel", "@jupyter-widgets/base")
  {
    hide Has, WidgetState, Merge, Identified;
    var own := [Entry(Name("value"), value), Entry(Name("min"), min), Entry(Name("max"), max)];
    var w := IntSlider(root, value, min, max, more);
    NothingMore(Built(INT_SLIDER, Overrides(w), root));
    SliderWf();
    IdentifiedAs(INT_SLIDER, own, more, root, "IntSliderModel", "IntSliderView");
    OwnShown(INT_SLIDER, own, more, root, 0);
    OwnShown(INT_SLIDER, own, more, root, 1);
    OwnShown(INT_SLIDER, own, more, root, 2);
    RefShown(INT_SLIDER, own, more, root, 0, "-style");
    RefShown(INT_SLIDER, own, more, root, 1, "-layout");
    CompanionsShown(INT_SLIDER, Overrides(w), root, "SliderStyleModel");
  }

  lemma {:induction false} CompanionsShown(spec: Spec, overrides: seq<Entry>, root: string, style: string)
    requires spec.companions == Styled(style)
    ensures var es := Built(spec, overrides, root);
            && |es| == 3 && es[0] == ModelEntry(root, Dict(WidgetState(spec, overrides, root)))
            && IsCompanion(es[1], root + "-style", style, "@jupyter-widgets/controls")
            && IsCompanion(es[2], root + "-layout", "LayoutModel", "@jupyter-widgets/base")
  {
    BuiltAt(spec, overrides, root, 0);
    BuiltAt(spec, overrides, root, 1);
    BuiltAt(spec, overrides, root, 2);
    IdentityHas(style, CONTROLS);
    IdentityHas("LayoutModel", BASE);
    Assoc(root, "-", "style");
    Assoc(root, "-", "layout");
  }

  /** A list of strings, in order. */
  function Strings(ss: seq<string>): Canon {
    CNode(ListK, map i: nat | i < |ss| :: Idx(i) := CLeaf(Str(ss[i])))
  }

  lemma {:induction false} ListKey(ts: seq<Tree>, k: Key)
    ensures DistinctKeys(ListOf(ts).items)
    ensures k in CanonItems(ListOf(ts).items) <==> k.Idx? && k.i < |ts|
    ensures k.Idx? && k.i < |ts| ==> CanonItems(ListOf(ts).items)[k] == CanonOf(ts[k.i])
  {
    var items := ListOf(ts).items;
    CanonKeys(items, k);
    if k.Idx? && k.i < |ts| {
      assert items[k.i].key == k;
      CanonEntry(items, k.i);
    }
  }

  lemma {:induction false} StringsCanon(ss: seq<string>, ts: seq<Tree>)
    requires |ts| == |ss| && forall i :: 0 <= i < |ss| ==> ts[i] == Leaf(Str(ss[i]))
    ensures CanonOf(ListOf(ts)) == Strings(ss) && Wf(ListOf(ts))
  {
    hide CanonItems;
    forall k: Key
      ensures k in CanonItems(ListOf(ts).items) <==> k.Idx? && k.i < |ss|
      ensures k.Idx? && k.i < |ss| ==> CanonItems(ListOf(ts).items)[k] == CLeaf(Str(ss[k.i]))
    {
      ListKey(ts, k);
    }
  }

  /** A dropdown: the labels in order, and the index given, or else the first place of the chosen label. */
  lemma {:induction false} DropdownShown(root: string, labels: seq<string>, chosen: Option<string>, index: Option<int>,
        more: seq<Entry>)
    requires WfDict(more)
    ensures var es := Entries(CATALOG, Dropdown(root, labels, chosen, index, more));
            && |es| == 3 && es[0].id == root && IsDict(es[0].state)
            && Identified(es[0].state.items, more, CLeaf(Str("DropdownModel")), CLeaf(Str("DropdownView")),
                 "@jupyter-widgets/controls")
            && Has(es[0].state.items, more, "_options_labels", Strings(labels))
            && (index.Some? ==> Has(es[0].state.items, more, "index", CLeaf(Scalar(index.value))))
            && (index.None? && (chosen.None? || chosen.value !in labels) ==>
                  Has(es[0].state.items, more, "index", CLeaf(PyNone)))
            && (forall i :: 0 <= i < |labels| && index.None? && chosen == Some(labels[i]) ==>
                  labels[i] in labels[..i] || Has(es[0].state.items, more, "index", CLeaf(Scalar(i))))
            && Has(es[0].state.items, more, "style", CLeaf(Str("IPY_MODEL_" + root + "-style")))
            && Has(es[0].state.items, more, "layout", CLeaf(Str("IPY_MODEL_" + root + "-layout")))
            && IsCompanion(es[1], root + "-style", "DescriptionStyleModel", "@jupyter-widgets/controls")
            && IsCompanion(es[2], root + "-layout", "LayoutModel", "@jupyter-widgets/base")
  {
    hide Has, WidgetState, Merge, Identified, Strings;
    var own := [Entry(Name("_options_labels"), Labels(labels)), Entry(Name("index"), Selected(labels, chosen, index))];
    var w := Dropdown(root, labels, chosen, index, more);
    NothingMore(Built(DROPDOWN, Overrides(w), root));
    DropdownWf();
    StringsCanon(labels, seq(|labels|, i requires 0 <= i < |labels| => Text(labels[i])));
    IdentifiedAs(DROPDOWN, own, more, root, "DropdownModel", "DropdownView");
    OwnShown(DROPDOWN, own, more, root, 0);
    OwnShown(DROPDOWN, own, more, root, 1);
    RefShown(DROPDOWN, own, more, root, 0, "-style");
    RefShown(DROPDOWN, own, more, root, 1, "-layout");
    CompanionsShown(DROPDOWN, Overrides(w), root, "DescriptionStyleModel");
    SelectedExactly(labels, chosen, index);
  }

  lemma {:induction false} SelectedExactly(labels: seq<string>, chosen: Option<string>, index: Option<int>)
    ensures var t := Selected(labels, chosen, index);
            && (index.Some? ==> t == Leaf(Scalar(index.value)))
            && (index.None? && (chosen.None? || chosen.value !in labels) ==> t == Leaf(PyNone))
            && (forall i :: 0 <= i < |labels| && index.None? && chosen == Some(labels[i]) ==>
                  labels[i] in labels[..i] || t == Leaf(Scalar(i)))
  {
    forall i | 0 <= i < |labels| && index.None? && chosen == Some(labels[i]) && labels[i] !in labels[..i]
      ensures Selected(labels, chosen, index) == Leaf(Scalar(i))
    {
      var j := IndexOf(labels, labels[i]).value;
      assert forall k :: 0 <= k < i ==> labels[..i][k] == labels[k];
      assert forall k :: 0 <= k < j ==> labels[..j][k] == labels[k];
    }
  }

  /** A box: vertical or horizontal, and references to its children in order. */
  lemma {:induction false} BoxShown(root: string, vertical: bool, children: seq<Widget>, more: seq<Entry>)
    requires WfDict(more)
    ensures var es := Entries(CATALOG, Box(root, vertical, children, more));
            && |es| >= 2 && es[0].id == root && IsDict(es[0].state)
            && (vertical ==> Identified(es[0].state.items, more, CLeaf(Str("VBoxModel")), CLeaf(Str("VBoxView")),
                               "@jupyter-widgets/controls"))
            && (!vertical ==> Identified(es[0].state.items, more, CLeaf(Str("HBoxModel")), CLeaf(Str("HBoxView")),
                                "@jupyter-widgets/controls"))
            && Has(es[0].state.items, more, "children",
                 Strings(seq(|children|, i requires 0 <= i < |children| => "IPY_MODEL_" + children[i].root)))
            && Has(es[0].state.items, more, "layout", CLeaf(Str("IPY_MODEL_" + root + "-layout")))
            && IsCompanion(es[1], root + "-layout", "LayoutModel", "@jupyter-widgets/base")
  {
    hide Identified, Strings, Has, Built, BoxSpec;
    if vertical {
      BoxBuilt("VBoxModel", "VBoxView", root, children, more);
    } else {
      BoxBuilt("HBoxModel", "HBoxView", root, children, more);
    }
  }

  lemma {:induction false} BoxBuilt(model: string, view: string, root: string, children: seq<Widget>, more: seq<Entry>)
    requires WfDict(more)
    ensures var es := Built(BoxSpec(model, view), Merge([Entry(Name("children"), ChildRefs(children))], more), root);
            && |es| == 2 && es[0].id == root && IsDict(es[0].state)
            && Identified(es[0].state.items, more, CLeaf(Str(model)), CLeaf(Str(view)), "@jupyter-widgets/controls")
            && Has(es[0].state.items, more, "children",
                 Strings(seq(|children|, i requires 0 <= i < |children| => "IPY_MODEL_" + children[i].root)))
            && Has(es[0].state.items, more, "layout", CLeaf(Str("IPY_MODEL_" + root + "-layout")))
            && IsCompanion(es[1], root + "-layout", "LayoutModel", "@jupyter-widgets/base")
  {
    hide Has, WidgetState, Merge, Identified, Strings, Built;
    var spec, own := BoxSpec(model, view), [Entry(Name("children"), ChildRefs(children))];
    BoxWf(model, view);
    StringsCanon(seq(|children|, i requires 0 <= i < |children| => "IPY_MODEL_" + children[i].root),
      seq(|children|, i requires 0 <= i < |children| => Ref(children[i].root)));
    IdentifiedAs(spec, own, more, root, model, view);
    OwnShown(spec, own, more, root, 0);
    RefShown(spec, own, more, root, 0, "-layout");
    LayoutShown(spec, Merge(own, more), root);
  }

  lemma {:induction false} LayoutShown(spec: Spec, overrides: seq<Entry>, root: string)
    requires spec.companions == [LAYOUT]
    ensures var es := Built(spec, overrides, root);
            && |es| == 2 && es[0] == ModelEntry(root, Dict(WidgetState(spec, overrides, root)))
            && IsCompanion(es[1], root + "-layout", "LayoutModel", "@jupyter-widgets/base")
  {
    BuiltAt(spec, overrides, root, 0);
    BuiltAt(spec, overrides, root, 1);
    IdentityHas("LayoutModel", BASE);
    Assoc(root, "-", "layout");
  }

  /** Below a box come the entries of its children, in order. */
  lemma {:induction false} BoxBelow(root: string, vertical: bool, children: seq<Widget>, more: seq<Entry>)
    ensures var es := Entries(CATALOG, Box(root, vertical, children, more));
            |es| >= 2 &&
            es[2..] == Flat(seq(|children|, i requires 0 <= i < |children| => Entries(CATALOG, children[i])))
  {
    var spec := SpecOf(CATALOG, Box(root, vertical, children, more));
    BuiltAt(spec, Overrides(Box(root, vertical, children, more)), root, 0);
    FlatEntries(children);
  }

  function Flat<T>(ss: seq<seq<T>>): seq<T> {
    if ss == [] then [] else Flat(ss[..|ss| - 1]) + ss[|ss| - 1]
  }

  lemma {:induction false} FlatEntries(ws: seq<Widget>)
    ensures AllEntries(CATALOG, ws) == Flat(seq(|ws|, i requires 0 <= i < |ws| => Entries(CATALOG, ws[i])))
  {
    if ws != [] {
      var init := ws[..|ws| - 1];
      FlatEntries(init);
      assert seq(|ws|, i requires 0 <= i < |ws| => Entries(CATALOG, ws[i]))[..|ws| - 1] ==
             seq(|init|, i requires 0 <= i < |init| => Entries(CATALOG, init[i]));
    }
  }
}
