/**
 * What the round trip does to the order of dict entries: binaries of a dict come back last. So
 * dumping again keeps the order of the buffers for some states, and exactly for those told here.
 */
module Orders {
  import opened Trees
  import opened Documents

  // ---------------------------------------------------------------------
  // The state that comes back, in order
  // ---------------------------------------------------------------------

  /** t with the binaries of every dict after its other entries. */
  function Settle(t: Tree): Tree
    decreases t, 1
  {
    if t.Node? then Node(t.kind, Front(t.kind, t.items) + Back(t.kind, t.items)) else t
  }

  function Front(kind: Kind, items: seq<Entry>): seq<Entry>
    decreases items, 1
  {
    if items == [] then [] else Front(kind, items[..|items| - 1]) + FrontEntry(kind, items[|items| - 1])
  }

  function FrontEntry(kind: Kind, e: Entry): seq<Entry>
    decreases e, 0
  {
    if !e.val.Bin? then [Entry(e.key, Settle(e.val))] else if kind.ListK? then [e] else []
  }

  function Back(kind: Kind, items: seq<Entry>): seq<Entry> {
    if items == [] then []
    else
      var e := items[|items| - 1];
      Back(kind, items[..|items| - 1]) + if e.val.Bin? && kind.DictK? then [e] else []
  }

  lemma {:induction false} StripAppend(kind: Kind, a: seq<Entry>, b: seq<Entry>)
    ensures StripItems(kind, a + b) == StripItems(kind, a) + StripItems(kind, b)
  {
    if b == [] {
      NothingMore(a);
    } else {
      var init, last := b[..|b| - 1], b[|b| - 1];
      StripAppend(kind, a, init);
      assert (a + b)[..|a + b| - 1] == a + init;
      Assoc(StripItems(kind, a), StripItems(kind, init), StripEntry(kind, last));
    }
  }

  lemma {:induction false} BufsAppend(a: seq<Entry>, b: seq<Entry>)
    ensures BufsItems(a + b) == BufsItems(a) + BufsItems(b)
  {
    if b == [] {
      NothingMore(a);
    } else {
      var init, last := b[..|b| - 1], b[|b| - 1];
      BufsAppend(a, init);
      assert (a + b)[..|a + b| - 1] == a + init;
      Assoc(BufsItems(a), BufsItems(init), BufsEntry(last));
    }
  }

  // ---------------------------------------------------------------------
  // Putting back gives that state
  // ---------------------------------------------------------------------

  predicate Absent(items: seq<Entry>, key: Key) {
    forall i :: 0 <= i < |items| ==> items[i].key != key
  }

  lemma {:induction false} EntryBetween(a: seq<Entry>, e: Entry, b: seq<Entry>)
    requires Absent(a, e.key)
    ensures EntryAt(a + ([e] + b), e.key) == |a|
  {
    var all := a + ([e] + b);
    assert all[|a|] == e && forall i :: 0 <= i < |a| ==> all[i] == a[i];
  }

  lemma {:induction false} SetBetween(a: seq<Entry>, e: Entry, b: seq<Entry>, t: Tree)
    requires Absent(a, e.key)
    ensures SetEntry(a + ([e] + b), e.key, t) == a + ([Entry(e.key, t)] + b)
  {
    EntryBetween(a, e, b);
  }

  lemma {:induction false} SetLast(items: seq<Entry>, e: Entry)
    requires Absent(items, e.key)
    ensures SetEntry(items, e.key, e.val) == items + [e]
  {
    assert EntryAt(items, e.key) == |items|;
  }

  lemma {:induction false} PutAllOne(t: Tree, path: Path, b: Bytes)
    ensures PutAllT(t, [Patch(path, b)]) == PutT(t, path, b)
  {
    assert [Patch(path, b)][1..] == [];
  }

  lemma {:induction false} PutAllAppendT(t: Tree, ps: seq<Patch>, qs: seq<Patch>)
    ensures PutAllT(t, ps + qs) == match PutAllT(t, ps) case None => None case Some(u) => PutAllT(u, qs)
    decreases |ps|
  {
    if ps == [] {
      assert ps + qs == qs;
    } else {
      assert (ps + qs)[0] == ps[0] && (ps + qs)[1..] == ps[1..] + qs;
      match PutT(t, ps[0].path, ps[0].b)
      case None =>
      case Some(u) => PutAllAppendT(u, ps[1..], qs);
    }
  }

  /** Stores below one key change what is under that key only. */
  lemma {:induction false} PutBelowT(kind: Kind, a: seq<Entry>, e: Entry, b: seq<Entry>, ps: seq<Patch>)
    requires Absent(a, e.key) && PutAllT(e.val, ps).Some? && forall i :: 0 <= i < |ps| ==> ps[i].path != []
    ensures PutAllT(Node(kind, a + ([e] + b)), Below([e.key], ps)) ==
            Some(Node(kind, a + ([Entry(e.key, PutAllT(e.val, ps).value)] + b)))
    decreases |ps|
  {
    var qs := Below([e.key], ps);
    if ps != [] {
      var u := PutT(e.val, ps[0].path, ps[0].b).value;
      EntryBetween(a, e, b);
      SetBetween(a, e, b, u);
      assert (a + ([e] + b))[|a|] == e;
      assert qs[0].path[0] == e.key && qs[0].path[1..] == ps[0].path && |qs[0].path| >= 2;
      assert qs[1..] == Below([e.key], ps[1..]);
      PutBelowT(kind, a, Entry(e.key, u), b, ps[1..]);
    }
  }

  lemma {:induction false} FrontKeys(kind: Kind, items: seq<Entry>, key: Key)
    requires Absent(items, key)
    ensures Absent(Front(kind, items), key) && Absent(Back(kind, items), key)
  {
    if items != [] {
      FrontKeys(kind, items[..|items| - 1], key);
    }
  }

  lemma {:induction false} AbsentAppend(a: seq<Entry>, b: seq<Entry>, key: Key)
    requires Absent(a, key) && Absent(b, key)
    ensures Absent(a + b, key)
  {}

  /** The stores of one entry, with the entries before it settled and those after it stripped. */
  lemma {:induction false} SettleEntry(kind: Kind, front: seq<Entry>, e: Entry, rest: seq<Entry>, back: seq<Entry>)
    requires Wf(e.val) && Absent(front, e.key) && Absent(rest, e.key) && Absent(back, e.key)
    requires !e.val.Bin? ==> PutAllT(Strip(e.val), Bufs(e.val)) == Some(Settle(e.val))
    requires kind.ListK? ==> back == []
    ensures PutAllT(Node(kind, front + (StripEntry(kind, e) + rest) + back), BufsEntry(e)) ==
            Some(Node(kind, front + FrontEntry(kind, e) + rest + back + if e.val.Bin? && kind.DictK? then [e] else []))
  {
    if !e.val.Bin? {
      BufsItemsNonEmpty(e.val);
      PutBelowT(kind, front, Entry(e.key, Strip(e.val)), rest + back, Bufs(e.val));
      Regroup(front, StripEntry(kind, e), rest, back);
      Regroup(front, FrontEntry(kind, e), rest, back);
      NothingMore(front + FrontEntry(kind, e) + rest + back);
    } else {
      PutAllOne(Node(kind, front + (StripEntry(kind, e) + rest) + back), [e.key], e.val.b);
      if kind.ListK? {
        SetBetween(front, Entry(e.key, Leaf(PyNone)), rest + back, e.val);
        EntryBetween(front, Entry(e.key, Leaf(PyNone)), rest + back);
        Regroup(front, StripEntry(kind, e), rest, back);
        Regroup(front, FrontEntry(kind, e), rest, back);
        NothingMore(front + FrontEntry(kind, e) + rest + back);
      } else {
        assert StripEntry(kind, e) == [] && FrontEntry(kind, e) == [];
        NothingMore(front);
        assert [] + rest == rest;
        AbsentAppend(front, rest, e.key);
        AbsentAppend(front + rest, back, e.key);
        SetLast(front + rest + back, e);
      }
    }
  }

  lemma {:induction false} Regroup<T>(a: seq<T>, b: seq<T>, c: seq<T>, d: seq<T>)
    ensures a + (b + c) + d == a + (b + (c + d)) == a + b + c + d
  {}

  lemma {:induction false} PutSettled(t: Tree)
    requires Wf(t)
    ensures PutAllT(Strip(t), Bufs(t)) == Some(Settle(t))
    decreases t, 1
  {
    if t.Node? {
      PutSettledItems(t.kind, t.items, []);
      NothingMore(StripItems(t.kind, t.items));
      NothingMore(Front(t.kind, t.items));
    }
  }

  lemma {:induction false} PutSettledItems(kind: Kind, items: seq<Entry>, rest: seq<Entry>)
    requires DistinctKeys(items) && WfItems(items)
    requires forall i :: 0 <= i < |items| ==> Absent(rest, items[i].key)
    ensures PutAllT(Node(kind, StripItems(kind, items) + rest), BufsItems(items)) ==
            Some(Node(kind, Front(kind, items) + rest + Back(kind, items)))
    decreases items, 0
  {
    if items == [] {
      assert [] + rest == rest;
      NothingMore(rest);
    } else {
      var init, e := items[..|items| - 1], items[|items| - 1];
      assert (items decreases to e) && (e decreases to e.val);
      var more := StripEntry(kind, e) + rest;
      PutSettledItems(kind, init, more);
      Assoc(StripItems(kind, init), StripEntry(kind, e), rest);
      FrontKeys(kind, init, e.key);
      if !e.val.Bin? {
        PutSettled(e.val);
      }
      BackOfList(kind, init);
      SettleEntry(kind, Front(kind, init), e, rest, Back(kind, init));
      PutAllAppendT(Node(kind, StripItems(kind, items) + rest), BufsItems(init), BufsEntry(e));
      Assoc(Front(kind, items) + rest, Back(kind, init), if e.val.Bin? && kind.DictK? then [e] else []);
    }
  }

  lemma {:induction false} BackOfList(kind: Kind, items: seq<Entry>)
    ensures kind.ListK? ==> Back(kind, items) == []
    ensures (Back(kind, items) == [] <==> kind.ListK? || NoBinary(items))
  {
    if items != [] {
      BackOfList(kind, items[..|items| - 1]);
      assert items == items[..|items| - 1] + [items[|items| - 1]];
    }
  }

  predicate NoBinary(items: seq<Entry>) {
    forall i :: 0 <= i < |items| ==> !items[i].val.Bin?
  }

  // ---------------------------------------------------------------------
  // When the buffers keep their order
  // ---------------------------------------------------------------------

  /** In every dict of t, no binary stands before an entry that holds a binary deeper down. */
  predicate KeepsOrder(t: Tree)
    decreases t, 1
  {
    t.Node? ==> ItemsKeepOrder(t.kind, t.items)
  }

  predicate ItemsKeepOrder(kind: Kind, items: seq<Entry>)
    decreases items, 1
  {
    items != [] ==>
      ItemsKeepOrder(kind, items[..|items| - 1]) && EntryKeepsOrder(kind, items[..|items| - 1], items[|items| - 1])
  }

  predicate EntryKeepsOrder(kind: Kind, before: seq<Entry>, e: Entry)
    decreases e, 0
  {
    KeepsOrder(e.val) && (kind.DictK? && Bufs(e.val) != [] ==> NoBinary(before))
  }

  lemma {:induction false} SettledCount(t: Tree)
    ensures |Bufs(Settle(t))| == |Bufs(t)|
    decreases t, 1
  {
    if t.Node? {
      SettledCounts(t.kind, t.items);
      BufsAppend(Front(t.kind, t.items), Back(t.kind, t.items));
    }
  }

  lemma {:induction false} SettledCounts(kind: Kind, items: seq<Entry>)
    ensures |BufsItems(Front(kind, items))| + |BufsItems(Back(kind, items))| == |BufsItems(items)|
    decreases items, 0
  {
    if items != [] {
      var init, e := items[..|items| - 1], items[|items| - 1];
      assert (items decreases to e) && (e decreases to e.val);
      SettledCounts(kind, init);
      SettledCount(e.val);
      SettledSnoc(kind, init, e);
      BelowCount(e);
    }
  }

  lemma {:induction false} BelowCount(e: Entry)
    ensures |BufsEntry(e)| == if e.val.Bin? then 1 else |Bufs(e.val)|
  {}

  /** The buffers of the settled items with one more entry. */
  lemma {:induction false} SettledSnoc(kind: Kind, init: seq<Entry>, e: Entry)
    ensures BufsItems(Front(kind, init) + FrontEntry(kind, e)) ==
            BufsItems(Front(kind, init)) +
            if e.val.Bin? then (if kind.ListK? then BufsEntry(e) else []) else Below([e.key], Bufs(Settle(e.val)))
    ensures BufsItems(Back(kind, init) + if e.val.Bin? && kind.DictK? then [e] else []) ==
            BufsItems(Back(kind, init)) + if e.val.Bin? && kind.DictK? then BufsEntry(e) else []
  {
    BufsAppend(Front(kind, init), FrontEntry(kind, e));
    BufsAppend(Back(kind, init), if e.val.Bin? && kind.DictK? then [e] else []);
    if e.val.Bin? {
      BufsOne(e);
    } else {
      BufsOne(Entry(e.key, Settle(e.val)));
      assert !Settle(e.val).Bin?;
    }
  }

  lemma {:induction false} BufsOne(e: Entry)
    ensures BufsItems([e]) == BufsEntry(e) && BufsItems([]) == []
  {
    assert [e][..0] == [] && BufsItems([]) + BufsEntry(e) == BufsEntry(e);
  }

  lemma {:induction false} BelowInjective(key: Key, ps: seq<Patch>, qs: seq<Patch>)
    requires |ps| == |qs|
    ensures Below([key], ps) == Below([key], qs) <==> ps == qs
  {
    if Below([key], ps) == Below([key], qs) {
      forall i | 0 <= i < |ps|
        ensures ps[i] == qs[i]
      {
        assert Below([key], ps)[i] == Below([key], qs)[i];
        assert ([key] + ps[i].path)[1..] == ps[i].path && ([key] + qs[i].path)[1..] == qs[i].path;
      }
    }
  }

  lemma {:induction false} SameTail<T>(a: seq<T>, b: seq<T>, x: seq<T>, y: seq<T>)
    requires |x| == |y|
    ensures a + x == b + y <==> a == b && x == y
  {
    if a + x == b + y {
      assert a == (a + x)[..|a|] && b == (b + y)[..|b|];
      assert x == (a + x)[|a|..] && y == (b + y)[|b|..];
    }
  }

  lemma {:induction false} BackShort(kind: Kind, items: seq<Entry>)
    ensures forall i :: 0 <= i < |BufsItems(Back(kind, items))| ==> |BufsItems(Back(kind, items))[i].path| == 1
    ensures BufsItems(Back(kind, items)) == [] <==> Back(kind, items) == []
  {
    if items != [] {
      var init, e := items[..|items| - 1], items[|items| - 1];
      BackShort(kind, init);
      BufsAppend(Back(kind, init), if e.val.Bin? && kind.DictK? then [e] else []);
      BufsOne(e);
    }
  }

  /** A binary that comes last cannot be where one from deeper down was last. */
  lemma {:induction false} LastDiffers(a: seq<Patch>, x: seq<Patch>, b: seq<Patch>, c: seq<Patch>, y: seq<Patch>)
    requires b != [] && y != [] && |b[|b| - 1].path| != |y[|y| - 1].path|
    ensures a + x + b != c + y
  {
    assert (a + x + b)[|a + x + b| - 1] == b[|b| - 1];
    assert (c + y)[|c + y| - 1] == y[|y| - 1];
  }

  /** The buffers of what comes back are in the original order exactly for these states. */
  lemma {:induction false} OrderExactly(t: Tree)
    requires Wf(t)
    ensures Bufs(Settle(t)) == Bufs(t) <==> KeepsOrder(t)
    decreases t, 1
  {
    if t.Node? {
      ItemsOrderExactly(t.kind, t.items);
      BufsAppend(Front(t.kind, t.items), Back(t.kind, t.items));
    }
  }

  lemma {:induction false} ItemsOrderExactly(kind: Kind, items: seq<Entry>)
    requires WfItems(items)
    ensures BufsItems(Front(kind, items)) + BufsItems(Back(kind, items)) == BufsItems(items) <==>
              ItemsKeepOrder(kind, items)
    decreases items, 0
  {
    if items != [] {
      var init, e := items[..|items| - 1], items[|items| - 1];
      assert (items decreases to e) && (e decreases to e.val);
      ItemsOrderExactly(kind, init);
      OrderExactly(e.val);
      SettledSnoc(kind, init, e);
      EntryOrderExactly(kind, init, e, BufsItems(Front(kind, init)), BufsItems(Back(kind, init)), BufsItems(init));
    }
  }

  lemma {:induction false} EntryOrderExactly(kind: Kind, init: seq<Entry>, e: Entry, front: seq<Patch>,
        back: seq<Patch>, all: seq<Patch>)
    requires Wf(e.val) && (Bufs(Settle(e.val)) == Bufs(e.val) <==> KeepsOrder(e.val))
    requires back == BufsItems(Back(kind, init))
    ensures var more := if !e.val.Bin? then Below([e.key], Bufs(Settle(e.val)))
                        else if kind.ListK? then BufsEntry(e) else [];
            var last := if e.val.Bin? && kind.DictK? then BufsEntry(e) else [];
            (front + more) + (back + last) == all + BufsEntry(e) <==>
            front + back == all && EntryKeepsOrder(kind, init, e)
  {
    BackShort(kind, init);
    BackOfList(kind, init);
    if e.val.Bin? {
      NothingMore(front);
      NothingMore(back);
      NothingMore(front + BufsEntry(e));
      Assoc(front, back, BufsEntry(e));
      SameTail(front + back, all, BufsEntry(e), BufsEntry(e));
    } else {
      var x, y := Below([e.key], Bufs(Settle(e.val))), BufsEntry(e);
      SettledCount(e.val);
      BelowInjective(e.key, Bufs(Settle(e.val)), Bufs(e.val));
      NothingMore(back);
      if y == [] {
        assert x == [] && Bufs(e.val) == [];
        NothingMore(front);
        NothingMore(all);
      } else if back == [] {
        NothingMore(front);
        NothingMore(front + x);
        SameTail(front, all, x, y);
      } else {
        BufsItemsNonEmpty(e.val);
        LastDiffers(front, x, back, all, y);
      }
    }
  }

  // ---------------------------------------------------------------------
  // Documents
  // ---------------------------------------------------------------------

  lemma {:induction false} SettledModel(e: ModelEntry, version: string)
    requires IsDict(e.state) && Wf(e.state)
    ensures LoadModel(Model(e.id, RecordOf(e.state, version))) == Ok(ModelEntry(e.id, Settle(e.state)))
  {
    DecodeEncodeBuffers(Bufs(e.state));
    PutSettled(e.state);
  }

  lemma {:induction false} SameRecords(ps: seq<Patch>, qs: seq<Patch>)
    ensures EncodeBuffers(ps) == EncodeBuffers(qs) <==> ps == qs
  {
    DecodeEncodeBuffers(ps);
    DecodeEncodeBuffers(qs);
  }

  /** What is loaded from a dumped document, entry by entry, and dumped again. */
  lemma {:induction false} LoadedSettled(es: seq<ModelEntry>, version: string, i: nat)
    requires DumpDocument(es, version).Ok? && (forall i :: 0 <= i < |es| ==> Wf(es[i].state)) && i < |es|
    ensures var doc := DumpDocument(es, version).value;
            && LoadDocument(doc).Ok? && |LoadDocument(doc).value| == |es| && IsDict(es[i].state)
            && LoadDocument(doc).value[i] == ModelEntry(es[i].id, Settle(es[i].state))
  {
    var doc := DumpDocument(es, version).value;
    DumpExactly(es, version);
    DocumentRoundTrip(es, version);
    LoadModelsExactly(doc.models.items);
    SettledModel(es[i], version);
  }

  /**
   * Dumping again keeps the order of a model's buffers if and only if, in every dict of its
   * state, no binary stands before an entry that holds a binary deeper down.
   */
  lemma {:induction false} RedumpOrder(es: seq<ModelEntry>, version: string, i: nat)
    requires DumpDocument(es, version).Ok? && (forall i :: 0 <= i < |es| ==> Wf(es[i].state)) && i < |es|
    ensures var doc := DumpDocument(es, version).value;
            LoadDocument(doc).Ok? && DumpDocument(LoadDocument(doc).value, version).Ok? &&
            var again := DumpDocument(LoadDocument(doc).value, version).value;
            doc.models.Models? && again.models.Models? && |doc.models.items| == |again.models.items| == |es| &&
            (again.models.items[i].record.buffers == doc.models.items[i].record.buffers <==> KeepsOrder(es[i].state))
  {
    Redump(es, version);
    LoadedSettled(es, version, i);
    var doc := DumpDocument(es, version).value;
    var fs := LoadDocument(doc).value;
    DumpExactly(es, version);
    DumpExactly(fs, version);
    OrderExactly(es[i].state);
    SettledCount(es[i].state);
    SameRecords(Bufs(fs[i].state), Bufs(es[i].state));
  }

  const SHALLOW: Tree := Bin([1])
  const DEEP: Tree := Node(DictK, [Entry(Name("c"), Bin([2]))])
  const SWAPPED: Tree := Node(DictK, [Entry(Name("a"), SHALLOW), Entry(Name("b"), DEEP)])

  lemma {:induction false} Snoc(kind: Kind, init: seq<Entry>, e: Entry)
    ensures Front(kind, init + [e]) == Front(kind, init) + FrontEntry(kind, e)
    ensures Back(kind, init + [e]) == Back(kind, init) + if e.val.Bin? && kind.DictK? then [e] else []
    ensures BufsItems(init + [e]) == BufsItems(init) + BufsEntry(e)
    ensures ItemsKeepOrder(kind, init + [e]) <==> ItemsKeepOrder(kind, init) && EntryKeepsOrder(kind, init, e)
  {
    assert (init + [e])[..|init|] == init;
  }

  lemma {:induction false} Single(e: Entry)
    ensures Front(DictK, [e]) == FrontEntry(DictK, e) && Back(DictK, [e]) == if e.val.Bin? then [e] else []
    ensures BufsItems([e]) == BufsEntry(e)
  {
    Snoc(DictK, [], e);
    assert [] + [e] == [e];
  }

  lemma {:induction false} OneBinary(e: Entry)
    requires e.val.Bin?
    ensures var d := Node(DictK, [e]); Wf(d) && Settle(d) == d && Bufs(d) == [Patch([e.key], e.val.b)]
  {
    Single(e);
  }

  lemma {:induction false} DeepSettles()
    ensures Wf(DEEP) && Settle(DEEP) == DEEP && Bufs(DEEP) == [Patch([Name("c")], [2])]
  {
    OneBinary(Entry(Name("c"), Bin([2])));
  }

  lemma {:induction false} DeepEntry(b: Entry)
    requires b == Entry(Name("b"), DEEP)
    ensures BufsEntry(b) == [Patch([Name("b"), Name("c")], [2])] && FrontEntry(DictK, b) == [b]
  {
    DeepSettles();
    BelowOne([Name("b")], [Name("c")], [2]);
    assert [Name("b")] + [Name("c")] == [Name("b"), Name("c")];
  }

  lemma {:induction false} Pair(e: Entry, f: Entry)
    ensures Front(DictK, [e, f]) == FrontEntry(DictK, e) + FrontEntry(DictK, f)
    ensures Back(DictK, [e, f]) == (if e.val.Bin? then [e] else []) + if f.val.Bin? then [f] else []
    ensures BufsItems([e, f]) == BufsEntry(e) + BufsEntry(f)
    ensures ItemsKeepOrder(DictK, [e, f]) ==> EntryKeepsOrder(DictK, [e], f)
  {
    Single(e);
    Snoc(DictK, [e], f);
    assert [e] + [f] == [e, f];
  }

  lemma {:induction false} Swapping(a: Entry, b: Entry)
    requires a.val.Bin? && b.val.Node? && FrontEntry(DictK, b) == [b] && Bufs(b.val) != []
    ensures Front(DictK, [a, b]) + Back(DictK, [a, b]) == [b, a] && !ItemsKeepOrder(DictK, [a, b])
    ensures BufsItems([a, b]) == BufsEntry(a) + BufsEntry(b)
    ensures BufsItems([b, a]) == BufsEntry(b) + BufsEntry(a)
  {
    Pair(a, b);
    Pair(b, a);
    assert [a][0].val.Bin?;
  }

  /** A state whose two buffers change places: a binary, then a dict with a binary. */
  lemma {:induction false} RedumpPermutes()
    ensures Wf(SWAPPED) && !KeepsOrder(SWAPPED)
    ensures Bufs(SWAPPED) == [Patch([Name("a")], [1]), Patch([Name("b"), Name("c")], [2])]
    ensures Bufs(Settle(SWAPPED)) == [Patch([Name("b"), Name("c")], [2]), Patch([Name("a")], [1])]
  {
    var a, b := Entry(Name("a"), SHALLOW), Entry(Name("b"), DEEP);
    DeepSettles();
    DeepEntry(b);
    Swapping(a, b);
  }
}
