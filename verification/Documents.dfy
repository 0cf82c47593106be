/**
 * Widget-state documents as values: dumping a list of models, loading a document, and the
 * laws that connect the two.
 */
module Documents {
  import opened Trees
  import Base64

  datatype Error =
    | NestedTooDeep | NotADict | EmptyId | DuplicateId
    | MissingState | UnsupportedVersion | StateNotAMapping
    | UnsupportedEncoding | BadBase64 | BadPath
  datatype Result<+T> = Ok(value: T) | Err(error: Error)

  datatype ModelEntry = ModelEntry(id: string, state: Tree)

  /** One element of the v2 buffers array; encoding may be missing. */
  datatype Buffer = Buffer(path: Path, encoding: Option<string>, data: string)
  datatype Record = Record(name: Tree, mod: Tree, version: Tree, state: Tree, buffers: Option<seq<Buffer>>)
  datatype Model = Model(id: string, record: Record)
  datatype Models = Missing | NotAMapping | Models(items: seq<Model>)
  datatype Document = Document(major: Option<int>, minor: Option<int>, models: Models)

  const STATE_VERSION_MAJOR := 2
  const STATE_VERSION_MINOR := 0

  // ---------------------------------------------------------------------
  // Buffers as base64 records
  // ---------------------------------------------------------------------

  function EncodeBuffer(p: Patch): Buffer {
    Buffer(p.path, Some("base64"), Base64.Encode(p.b))
  }

  function EncodeBuffers(ps: seq<Patch>): seq<Buffer> {
    if ps == [] then [] else EncodeBuffers(ps[..|ps| - 1]) + [EncodeBuffer(ps[|ps| - 1])]
  }

  function DecodeBuffer(e: Buffer): Result<Patch> {
    if e.encoding != Some("base64") then Err(UnsupportedEncoding)
    else
      match Base64.Decode(e.data)
      case None => Err(BadBase64)
      case Some(b) => Ok(Patch(e.path, b))
  }

  function DecodeBuffers(es: seq<Buffer>): Result<seq<Patch>> {
    if es == [] then Ok([])
    else
      match DecodeBuffers(es[..|es| - 1])
      case Err(error) => Err(error)
      case Ok(ps) =>
        match DecodeBuffer(es[|es| - 1])
        case Err(error) => Err(error)
        case Ok(p) => Ok(ps + [p])
  }

  lemma {:induction false} DecodeEncodeBuffers(ps: seq<Patch>)
    ensures DecodeBuffers(EncodeBuffers(ps)) == Ok(ps)
  {
    if ps != [] {
      var n := |ps| - 1;
      DecodeEncodeBuffers(ps[..n]);
      Base64.DecodeEncode(ps[n].b);
      assert EncodeBuffers(ps)[..|EncodeBuffers(ps)| - 1] == EncodeBuffers(ps[..n]);
      assert ps == ps[..n] + [ps[n]];
    }
  }

  lemma {:induction false} EncodeAt(ps: seq<Patch>, i: nat)
    requires i < |ps|
    ensures |EncodeBuffers(ps)| == |ps| && EncodeBuffers(ps)[i] == EncodeBuffer(ps[i])
  {
    var n := |ps| - 1;
    if n > 0 {
      EncodeAt(ps[..n], if i < n then i else 0);
    }
  }

  /** A character of the text: six bits of the buffer in the base64 alphabet, or padding. */
  predicate IsDigit(c: char, b: Bytes, k: nat) {
    c == if 6 * k < 8 * |b| then Base64.ALPHABET[Base64.SixBits(b, k)] else '='
  }

  /** The pair as a record of its path, the name of the encoding, and the text. */
  predicate EncodedAs(p: Patch, e: Buffer) {
    && e.path == p.path && e.encoding == Some("base64") && |e.data| == (|p.b| + 2) / 3 * 4
    && forall k :: 0 <= k < |e.data| ==> IsDigit(e.data[k], p.b, k)
  }

  /** One record per pair, in order. */
  lemma {:induction false} EncodedExactly(ps: seq<Patch>)
    ensures |EncodeBuffers(ps)| == |ps| && forall i :: 0 <= i < |ps| ==> EncodedAs(ps[i], EncodeBuffers(ps)[i])
  {
    if ps != [] {
      EncodeAt(ps, 0);
    }
    forall i | 0 <= i < |ps|
      ensures EncodedAs(ps[i], EncodeBuffers(ps)[i])
    {
      EncodeAt(ps, i);
      Base64.EncodeBits(ps[i].b, 0);
      forall k | 0 <= k < |Base64.Encode(ps[i].b)|
        ensures IsDigit(Base64.Encode(ps[i].b)[k], ps[i].b, k)
      {
        Base64.EncodeBits(ps[i].b, k);
      }
    }
  }

  lemma {:induction false} EncodeInjective(p: Patch, q: Patch)
    requires EncodeBuffer(p) == EncodeBuffer(q)
    ensures p == q
  {
    Base64.DecodeEncode(p.b);
    Base64.DecodeEncode(q.b);
  }

  lemma {:induction false} EncodeCount(ps: seq<Patch>, p: Patch)
    ensures multiset(EncodeBuffers(ps))[EncodeBuffer(p)] == multiset(ps)[p]
  {
    if ps != [] {
      var init, last := ps[..|ps| - 1], ps[|ps| - 1];
      EncodeCount(init, p);
      if EncodeBuffer(last) == EncodeBuffer(p) {
        EncodeInjective(last, p);
      }
      assert ps == init + [last];
      assert multiset(ps) == multiset(init) + multiset{last};
      assert multiset(EncodeBuffers(ps)) == multiset(EncodeBuffers(init)) + multiset{EncodeBuffer(last)};
    }
  }

  lemma {:induction false} EncodeFewer(ps: seq<Patch>, qs: seq<Patch>, e: Buffer)
    requires multiset(ps) == multiset(qs)
    ensures multiset(EncodeBuffers(ps))[e] <= multiset(EncodeBuffers(qs))[e]
  {
    if e in EncodeBuffers(ps) {
      var i :| 0 <= i < |EncodeBuffers(ps)| && EncodeBuffers(ps)[i] == e;
      EncodeAt(ps, if i < |ps| then i else 0);
      EncodeCount(ps, ps[i]);
      EncodeCount(qs, ps[i]);
    }
  }

  lemma {:induction false} EncodePermuted(ps: seq<Patch>, qs: seq<Patch>)
    requires multiset(ps) == multiset(qs)
    ensures multiset(EncodeBuffers(ps)) == multiset(EncodeBuffers(qs))
  {
    forall e: Buffer
      ensures multiset(EncodeBuffers(ps))[e] == multiset(EncodeBuffers(qs))[e]
    {
      EncodeFewer(ps, qs, e);
      EncodeFewer(qs, ps, e);
    }
  }

  // ---------------------------------------------------------------------
  // Dumping
  // ---------------------------------------------------------------------

  predicate IsDict(t: Tree) {
    t.Node? && t.kind.DictK?
  }

  function Get(t: Tree, key: string, other: Tree): Tree
    requires IsDict(t)
  {
    var i := EntryAt(t.items, Name(key));
    if i < |t.items| then t.items[i].val else other
  }

  function RecordOf(t: Tree, version: string): Record
    requires IsDict(t)
  {
    Record(
      Get(t, "_model_name", Leaf(Str("AnyModel"))),
      Get(t, "_model_module", Leaf(Str("anywidget"))),
      Get(t, "_model_module_version", Leaf(Str(version))),
      Strip(t),
      if Bufs(t) == [] then None else Some(EncodeBuffers(Bufs(t))))
  }

  function DumpModel(e: ModelEntry, version: string): Result<Model> {
    if Depth(e.state) > MAX_DEPTH + 1 then Err(NestedTooDeep)
    else if !IsDict(e.state) then Err(NotADict)
    else Ok(Model(e.id, RecordOf(e.state, version)))
  }

  predicate HasId(ms: seq<Model>, id: string) {
    exists i :: 0 <= i < |ms| && ms[i].id == id
  }

  function DumpModels(es: seq<ModelEntry>, version: string): Result<seq<Model>> {
    if es == [] then Ok([])
    else
      match DumpModels(es[..|es| - 1], version)
      case Err(error) => Err(error)
      case Ok(done) => DumpNext(done, es[|es| - 1], version)
  }

  function DumpNext(done: seq<Model>, e: ModelEntry, version: string): Result<seq<Model>> {
    match DumpModel(e, version)
    case Err(error) => Err(error)
    case Ok(m) =>
      if e.id == "" then Err(EmptyId)
      else if HasId(done, e.id) then Err(DuplicateId)
      else Ok(done + [m])
  }

  function DumpDocument(es: seq<ModelEntry>, version: string): Result<Document> {
    match DumpModels(es, version)
    case Err(error) => Err(error)
    case Ok(ms) => Ok(Document(Some(STATE_VERSION_MAJOR), Some(STATE_VERSION_MINOR), Models(ms)))
  }

  // ---------------------------------------------------------------------
  // Loading
  // ---------------------------------------------------------------------

  function LoadModel(m: Model): Result<ModelEntry> {
    match DecodeBuffers(if m.record.buffers.None? then [] else m.record.buffers.value)
    case Err(error) => Err(error)
    case Ok(ps) =>
      match PutAllT(m.record.state, ps)
      case None => Err(BadPath)
      case Some(t) => Ok(ModelEntry(m.id, t))
  }

  function LoadModels(ms: seq<Model>): Result<seq<ModelEntry>> {
    if ms == [] then Ok([])
    else
      match LoadModels(ms[..|ms| - 1])
      case Err(error) => Err(error)
      case Ok(done) =>
        match LoadModel(ms[|ms| - 1])
        case Err(error) => Err(error)
        case Ok(e) => Ok(done + [e])
  }

  function LoadDocument(doc: Document): Result<seq<ModelEntry>> {
    if doc.models.Missing? then Err(MissingState)
    else if doc.major != Some(STATE_VERSION_MAJOR) then Err(UnsupportedVersion)
    else if doc.models.NotAMapping? then Err(StateNotAMapping)
    else LoadModels(doc.models.items)
  }

  // ---------------------------------------------------------------------
  // When dumping fails
  // ---------------------------------------------------------------------

  predicate Dumpable(e: ModelEntry) {
    Depth(e.state) <= MAX_DEPTH + 1 && IsDict(e.state)
  }

  predicate UniqueIds(es: seq<ModelEntry>) {
    (forall i :: 0 <= i < |es| ==> es[i].id != "") &&
    forall i, j :: 0 <= i < j < |es| ==> es[i].id != es[j].id
  }

  ghost predicate DumpedAs(es: seq<ModelEntry>, version: string, ms: seq<Model>) {
    |ms| == |es| && forall i :: 0 <= i < |es| ==>
        IsDict(es[i].state) && ms[i] == Model(es[i].id, RecordOf(es[i].state, version))
  }

  predicate NewId(es: seq<ModelEntry>, id: string) {
    id != "" && forall i :: 0 <= i < |es| ==> es[i].id != id
  }

  lemma {:induction false} UniqueSnoc(es: seq<ModelEntry>, e: ModelEntry)
    ensures UniqueIds(es + [e]) <==> UniqueIds(es) && NewId(es, e.id)
  {
    var all := es + [e];
    assert forall i :: 0 <= i < |es| ==> all[i] == es[i];
    if UniqueIds(all) {
      assert all[|es|] == e;
    }
  }

  lemma {:induction false} DumpableSnoc(es: seq<ModelEntry>, e: ModelEntry)
    ensures (forall i :: 0 <= i < |es + [e]| ==> Dumpable((es + [e])[i])) <==>
            (forall i :: 0 <= i < |es| ==> Dumpable(es[i])) && Dumpable(e)
  {
    var all := es + [e];
    assert all[|es|] == e && forall i :: 0 <= i < |es| ==> all[i] == es[i];
  }

  lemma {:induction false} DumpNextExactly(es: seq<ModelEntry>, done: seq<Model>, e: ModelEntry, version: string)
    requires DumpedAs(es, version, done)
    ensures DumpNext(done, e, version).Ok? <==> Dumpable(e) && NewId(es, e.id)
    ensures DumpNext(done, e, version).Ok? ==> DumpedAs(es + [e], version, DumpNext(done, e, version).value)
  {
    if HasId(done, e.id) {
      var i :| 0 <= i < |done| && done[i].id == e.id;
      assert es[i].id == e.id;
    } else {
      assert forall i :: 0 <= i < |es| ==> done[i].id == es[i].id;
    }
  }

  lemma {:induction false} DumpModelsExactly(es: seq<ModelEntry>, version: string)
    ensures DumpModels(es, version).Ok? <==> UniqueIds(es) && forall i :: 0 <= i < |es| ==> Dumpable(es[i])
    ensures DumpModels(es, version).Ok? ==> DumpedAs(es, version, DumpModels(es, version).value)
  {
    if es != [] {
      var init, e := es[..|es| - 1], es[|es| - 1];
      assert es == init + [e];
      DumpModelsExactly(init, version);
      UniqueSnoc(init, e);
      DumpableSnoc(init, e);
      if DumpModels(init, version).Ok? {
        DumpNextExactly(init, DumpModels(init, version).value, e, version);
      }
    }
  }

  /**
   * A dump fails exactly when an id is empty or repeated, or a state is no dict or nests too
   * deep; otherwise it is of version 2.0 and has one record per entry, in order.
   */
  lemma {:induction false} DumpExactly(es: seq<ModelEntry>, version: string)
    ensures DumpDocument(es, version).Ok? <==> UniqueIds(es) && forall i :: 0 <= i < |es| ==> Dumpable(es[i])
    ensures DumpDocument(es, version).Ok? ==>
              var doc := DumpDocument(es, version).value;
              && doc.major == Some(2) && doc.minor == Some(0)
              && doc.models.Models? && DumpedAs(es, version, doc.models.items)
  {
    DumpModelsExactly(es, version);
  }

  // ---------------------------------------------------------------------
  // Dumping, then loading
  // ---------------------------------------------------------------------

  /** Equal as states: dict order does not matter. */
  predicate SameState(t: Tree, u: Tree) {
    CanonOf(t) == CanonOf(u)
  }

  predicate SameEntries(es: seq<ModelEntry>, fs: seq<ModelEntry>) {
    |es| == |fs| && forall i :: 0 <= i < |es| ==> es[i].id == fs[i].id && SameState(es[i].state, fs[i].state)
  }

  lemma {:induction false} ModelRoundTrip(e: ModelEntry, version: string)
    requires IsDict(e.state) && Wf(e.state)
    ensures var r := LoadModel(Model(e.id, RecordOf(e.state, version)));
            r.Ok? && r.value.id == e.id && Wf(r.value.state) && SameState(r.value.state, e.state)
  {
    DecodeEncodeBuffers(Bufs(e.state));
    RoundTripT(e.state);
  }

  ghost predicate LoadedAs(es: seq<ModelEntry>, fs: seq<ModelEntry>) {
    SameEntries(fs, es) && forall i :: 0 <= i < |fs| ==> Wf(fs[i].state)
  }

  ghost predicate LoadsTo(ms: seq<Model>, fs: seq<ModelEntry>) {
    |fs| == |ms| && forall i :: 0 <= i < |ms| ==> LoadModel(ms[i]) == Ok(fs[i])
  }

  /** Loading succeeds when every record loads, and gives the models in order. */
  lemma {:induction false} LoadModelsExactly(ms: seq<Model>)
    ensures LoadModels(ms).Ok? <==> forall i :: 0 <= i < |ms| ==> LoadModel(ms[i]).Ok?
    ensures LoadModels(ms).Ok? ==> LoadsTo(ms, LoadModels(ms).value)
  {
    if ms != [] {
      var n := |ms| - 1;
      LoadModelsExactly(ms[..n]);
      assert forall i :: 0 <= i < n ==> ms[..n][i] == ms[i];
      if LoadModels(ms).Ok? {
        LoadsSnoc(ms[..n], LoadModels(ms[..n]).value, ms[n], LoadModel(ms[n]).value);
        assert ms == ms[..n] + [ms[n]];
      }
    }
  }

  /** A document loads exactly when it is of major version 2 and every record loads; what is wrong first is named. */
  lemma {:induction false} LoadExactly(doc: Document)
    ensures LoadDocument(doc).Ok? <==>
            doc.models.Models? && doc.major == Some(2) &&
            forall i :: 0 <= i < |doc.models.items| ==> LoadModel(doc.models.items[i]).Ok?
    ensures LoadDocument(doc).Ok? ==> LoadsTo(doc.models.items, LoadDocument(doc).value)
    ensures doc.models.Missing? ==> LoadDocument(doc) == Err(MissingState)
    ensures !doc.models.Missing? && doc.major != Some(2) ==> LoadDocument(doc) == Err(UnsupportedVersion)
    ensures doc.models.NotAMapping? && doc.major == Some(2) ==> LoadDocument(doc) == Err(StateNotAMapping)
  {
    if doc.models.Models? {
      LoadModelsExactly(doc.models.items);
    }
  }

  /** A record that can be read: its encoding is base64 and its text is base64 text. */
  predicate Readable(e: Buffer) {
    e.encoding == Some("base64") && Base64.Decode(e.data).Some?
  }

  ghost predicate DecodedAs(es: seq<Buffer>, ps: seq<Patch>) {
    |ps| == |es| &&
    forall i :: 0 <= i < |es| ==> Readable(es[i]) && ps[i] == Patch(es[i].path, Base64.Decode(es[i].data).value)
  }

  lemma {:induction false} DecodeExactly(es: seq<Buffer>)
    ensures DecodeBuffers(es).Ok? <==> forall i :: 0 <= i < |es| ==> Readable(es[i])
    ensures DecodeBuffers(es).Ok? ==> DecodedAs(es, DecodeBuffers(es).value)
  {
    if es != [] {
      var n := |es| - 1;
      DecodeExactly(es[..n]);
      assert forall i :: 0 <= i < n ==> es[..n][i] == es[i];
    }
  }

  /** The buffers of a record read and stored one after the other, each at its path. */
  ghost predicate LoadedInTurn(cs: seq<Canon>, es: seq<Buffer>) {
    |cs| == |es| + 1 &&
    forall i :: 0 <= i < |es| ==>
      Readable(es[i]) && Stored(cs[i], es[i].path, Base64.Decode(es[i].data).value, cs[i + 1])
  }

  /** A record loads exactly when each buffer can be read and stored after those before it. */
  lemma {:induction false} LoadModelExactly(m: Model, d: Canon)
    requires Wf(m.record.state)
    ensures LoadModel(m).Ok? ==> LoadModel(m).value.id == m.id
    ensures var es := if m.record.buffers.None? then [] else m.record.buffers.value;
            LoadModel(m).Ok? && CanonOf(LoadModel(m).value.state) == d <==>
            exists cs: seq<Canon> :: LoadedInTurn(cs, es) && cs[0] == CanonOf(m.record.state) && cs[|es|] == d
  {
    hide Stored, Base64.Decode;
    var es := if m.record.buffers.None? then [] else m.record.buffers.value;
    DecodeExactly(es);
    if DecodeBuffers(es).Ok? {
      var ps := DecodeBuffers(es).value;
      CanonPutAll(m.record.state, ps);
      PutAllExactly(CanonOf(m.record.state), ps, d);
      if cs: seq<Canon> :| Steps(cs, ps) && cs[0] == CanonOf(m.record.state) && cs[|ps|] == d {
        assert LoadedInTurn(cs, es);
      }
      if cs: seq<Canon> :| LoadedInTurn(cs, es) && cs[0] == CanonOf(m.record.state) && cs[|es|] == d {
        assert Steps(cs, ps);
      }
    }
  }

  lemma {:induction false} LoadsSnoc(ms: seq<Model>, fs: seq<ModelEntry>, m: Model, f: ModelEntry)
    requires LoadsTo(ms, fs) && LoadModel(m) == Ok(f)
    ensures LoadsTo(ms + [m], fs + [f])
  {}

  lemma {:induction false} ModelsRoundTrip(es: seq<ModelEntry>, version: string, ms: seq<Model>)
    requires DumpedAs(es, version, ms) && forall i :: 0 <= i < |es| ==> Wf(es[i].state)
    ensures LoadModels(ms).Ok? && LoadedAs(es, LoadModels(ms).value)
  {
    LoadModelsExactly(ms);
    forall i | 0 <= i < |es|
      ensures var r := LoadModel(ms[i]);
              r.Ok? && r.value.id == es[i].id && Wf(r.value.state) && SameState(r.value.state, es[i].state)
    {
      ModelRoundTrip(es[i], version);
    }
  }

  /** Loading a dumped document gives the entries back, in order, binaries included. */
  lemma {:induction false} DocumentRoundTrip(es: seq<ModelEntry>, version: string)
    requires DumpDocument(es, version).Ok? && forall i :: 0 <= i < |es| ==> Wf(es[i].state)
    ensures var r := LoadDocument(DumpDocument(es, version).value);
            r.Ok? && LoadedAs(es, r.value)
  {
    DumpExactly(es, version);
    ModelsRoundTrip(es, version, DumpDocument(es, version).value.models.items);
  }

  // ---------------------------------------------------------------------
  // Dumping again
  // ---------------------------------------------------------------------

  lemma {:induction false} DepthAtMost(t: Tree, u: Tree)
    requires Wf(t) && Wf(u) && SameState(t, u)
    ensures Depth(t) <= Depth(u)
    decreases t
  {
    if t.Node? {
      forall i | 0 <= i < |t.items|
        ensures Depth(t.items[i].val) <= DepthItems(u.items)
      {
        var k := t.items[i].key;
        CanonEntry(t.items, i);
        CanonHas(u.items, k);
        var j := EntryAt(u.items, k);
        DepthAtMost(t.items[i].val, u.items[j].val);
        DepthBound(u.items, DepthItems(u.items));
      }
      DepthBound(t.items, DepthItems(u.items));
    }
  }

  /** A field of a state, as a map would give it. */
  function Field(t: Tree, key: string, other: string): Canon
    requires IsDict(t)
  {
    var m := CanonItems(t.items);
    if Name(key) in m then m[Name(key)] else CLeaf(Str(other))
  }

  /** The identity of a record is the state's own where it has one, else the anywidget default. */
  lemma {:induction false} RecordIdentity(t: Tree, version: string)
    requires IsDict(t) && Wf(t)
    ensures CanonOf(RecordOf(t, version).name) == Field(t, "_model_name", "AnyModel")
    ensures CanonOf(RecordOf(t, version).mod) == Field(t, "_model_module", "anywidget")
    ensures CanonOf(RecordOf(t, version).version) == Field(t, "_model_module_version", version)
  {
    CanonHas(t.items, Name("_model_name"));
    CanonHas(t.items, Name("_model_module"));
    CanonHas(t.items, Name("_model_module_version"));
  }

  /** A record has buffers exactly when its state holds a binary, and then one for each, in the order of the split. */
  lemma {:induction false} RecordBuffers(t: Tree, version: string)
    requires IsDict(t) && Wf(t)
    ensures RecordOf(t, version).buffers.Some? <==> exists p: Path, b: Bytes :: CAt(CanonOf(t), p) == Some(CBin(b))
    ensures RecordOf(t, version).buffers.Some? ==>
              var es := RecordOf(t, version).buffers.value;
              |es| == |Bufs(t)| && forall i :: 0 <= i < |es| ==> EncodedAs(Bufs(t)[i], es[i])
    ensures forall p: Path :: LeftAt(CanonOf(t), p, CanonOf(RecordOf(t, version).state))
  {
    EncodedExactly(Bufs(t));
    if Bufs(t) != [] {
      BufsExact(t, Bufs(t)[0].path, Bufs(t)[0].b);
    }
    if p: Path, b: Bytes :| CAt(CanonOf(t), p) == Some(CBin(b)) {
      BufsExact(t, p, b);
    }
    forall p: Path
      ensures LeftAt(CanonOf(t), p, CanonOf(Strip(t)))
    {
      StripExactly(t, p);
    }
  }

  /** Equal states hold the same binaries at the same paths, in some order. */
  lemma {:induction false} SameBuffers(t: Tree, u: Tree)
    requires Wf(t) && Wf(u) && SameState(t, u)
    ensures multiset(Bufs(t)) == multiset(Bufs(u))
  {
    var ps, qs := Bufs(t), Bufs(u);
    BufsApart(t);
    BufsApart(u);
    forall p: Patch
      ensures multiset(ps)[p] == multiset(qs)[p]
    {
      BufsExact(t, p.path, p.b);
      BufsExact(u, p.path, p.b);
      assert p == Patch(p.path, p.b);
      if p in ps {
        var i :| 0 <= i < |ps| && ps[i] == p;
        ApartOnce(ps, i);
        var j :| 0 <= j < |qs| && qs[j] == p;
        ApartOnce(qs, j);
      }
    }
  }

  lemma {:induction false} SameGet(t: Tree, u: Tree, key: string, other: Tree)
    requires Wf(t) && Wf(u) && IsDict(t) && SameState(t, u)
    ensures IsDict(u) && SameState(Get(t, key, other), Get(u, key, other))
  {
    CanonHas(t.items, Name(key));
    CanonHas(u.items, Name(key));
  }

  predicate SamePresence(r: Record, r': Record) {
    match (r.buffers, r'.buffers)
    case (None, None) => true
    case (Some(bs), Some(bs')) => multiset(bs) == multiset(bs')
    case _ => false
  }

  /** Equal records, except that the buffers may come in another order. */
  predicate SameRecord(r: Record, r': Record) {
    && SameState(r.name, r'.name) && SameState(r.mod, r'.mod) && SameState(r.version, r'.version)
    && SameState(r.state, r'.state) && SamePresence(r, r')
  }

  lemma {:induction false} RecordAgain(t: Tree, u: Tree, version: string)
    requires Wf(t) && Wf(u) && IsDict(t) && SameState(t, u)
    ensures IsDict(u) && SameRecord(RecordOf(t, version), RecordOf(u, version))
  {
    SameGet(t, u, "_model_name", Leaf(Str("AnyModel")));
    SameGet(t, u, "_model_module", Leaf(Str("anywidget")));
    SameGet(t, u, "_model_module_version", Leaf(Str(version)));
    CanonStrip(t);
    CanonStrip(u);
    SameBuffers(t, u);
    EncodePermuted(Bufs(t), Bufs(u));
    assert Bufs(t) == [] <==> |multiset(Bufs(t))| == 0;
    assert Bufs(u) == [] <==> |multiset(Bufs(u))| == 0;
  }

  predicate SameDocument(doc: Document, doc': Document) {
    && doc.major == doc'.major && doc.minor == doc'.minor && doc.models.Models? && doc'.models.Models?
    && |doc.models.items| == |doc'.models.items|
    && forall i :: 0 <= i < |doc.models.items| ==>
         doc.models.items[i].id == doc'.models.items[i].id
             && SameRecord(doc.models.items[i].record, doc'.models.items[i].record)
  }

  lemma {:induction false} DumpSame(es: seq<ModelEntry>, fs: seq<ModelEntry>, version: string)
    requires SameEntries(es, fs) && DumpDocument(es, version).Ok?
    requires forall i :: 0 <= i < |es| ==> Wf(es[i].state) && Wf(fs[i].state)
    ensures DumpDocument(fs, version).Ok?
    ensures SameDocument(DumpDocument(es, version).value, DumpDocument(fs, version).value)
  {
    DumpExactly(es, version);
    DumpExactly(fs, version);
    forall i | 0 <= i < |es|
      ensures Dumpable(fs[i]) && SameRecord(RecordOf(es[i].state, version), RecordOf(fs[i].state, version))
    {
      assert Dumpable(es[i]);
      DepthAtMost(fs[i].state, es[i].state);
      RecordAgain(es[i].state, fs[i].state, version);
    }
    forall i, j | 0 <= i < j < |es|
      ensures fs[i].id != fs[j].id
    {
      assert es[i].id != es[j].id;
    }
  }

  /**
   * Dumping what was loaded from a dumped document gives an equal document, except that the
   * buffers of a model may come in another order.
   */
  lemma {:induction false} Redump(es: seq<ModelEntry>, version: string)
    requires DumpDocument(es, version).Ok? && forall i :: 0 <= i < |es| ==> Wf(es[i].state)
    ensures var doc := DumpDocument(es, version).value;
            LoadDocument(doc).Ok? && DumpDocument(LoadDocument(doc).value, version).Ok? &&
            SameDocument(doc, DumpDocument(LoadDocument(doc).value, version).value)
  {
    DocumentRoundTrip(es, version);
    DumpSame(es, LoadDocument(DumpDocument(es, version).value).value, version);
  }

  // ---------------------------------------------------------------------
  // References between models
  // ---------------------------------------------------------------------

  const PREFIX := "IPY_MODEL_"

  predicate OneLine(s: string) {
    s != "" && '\n' !in s
  }

  /** The id that a string of reference form names; a line break after it is let through. */
  function RefId(s: string): Option<string> {
    if !(PREFIX <= s) then None
    else
      var rest := s[|PREFIX|..];
      if OneLine(rest) then Some(rest)
      else if rest != "" && rest[|rest| - 1] == '\n' && OneLine(rest[..|rest| - 1]) then Some(rest[..|rest| - 1])
      else None
  }

  function Refs(t: Tree): seq<string>
    decreases t, 1
  {
    match t
    case Leaf(Str(s)) => if RefId(s).Some? then [RefId(s).value] else []
    case Node(_, items) => RefsItems(items)
    case _ => []
  }

  function RefsItems(items: seq<Entry>): seq<string>
    decreases items, 0
  {
    if items == [] then []
    else
      var last := items[|items| - 1];
      assert (items decreases to last) && (last decreases to last.val);
      RefsItems(items[..|items| - 1]) + Refs(last.val)
  }

  /** s is the prefix and then the id, a line; a line break may follow. */
  predicate RefersTo(s: string, id: string) {
    id != "" && '\n' !in id && (s == "IPY_MODEL_" + id || s == "IPY_MODEL_" + id + "\n")
  }

  /** What stands in t at some depth, by the positions that lead there. */
  function At(t: Tree, way: seq<nat>): Option<Tree>
    decreases |way|
  {
    if way == [] then Some(t)
    else if t.Node? && way[0] < |t.items| then At(t.items[way[0]].val, way[1..])
    else None
  }

  /** Some string in t, wherever it stands, refers to id. */
  ghost predicate Names(t: Tree, id: string) {
    exists way: seq<nat>, s: string :: At(t, way) == Some(Leaf(Str(s))) && RefersTo(s, id)
  }

  lemma {:induction false} RefIdExact(s: string, id: string)
    ensures RefId(s) == Some(id) <==> RefersTo(s, id)
  {
    if RefId(s) == Some(id) {
      var rest := s[|PREFIX|..];
      assert s == PREFIX + rest;
      if !OneLine(rest) {
        assert rest == id + "\n";
        Assoc(PREFIX, id, "\n");
      }
    }
    if RefersTo(s, id) {
      if s == PREFIX + id {
        assert s[|PREFIX|..] == id;
      } else {
        Assoc(PREFIX, id, "\n");
        assert s[|PREFIX|..] == id + "\n" && (id + "\n")[|id|] == '\n';
        assert (id + "\n")[..|id|] == id;
      }
    }
  }

  /** The references found are exactly the ids that some string in the state refers to. */
  lemma {:induction false} RefsExact(t: Tree, id: string)
    ensures id in Refs(t) <==> Names(t, id)
    decreases t, 1
  {
    if t.Node? {
      RefsItemsExact(t.items, id);
      NamesBelow(t, id);
    } else {
      if t.Leaf? && t.a.Str? {
        RefIdExact(t.a.s, id);
        assert At(t, []) == Some(Leaf(Str(t.a.s)));
      }
    }
  }

  lemma {:induction false} RefsItemsExact(items: seq<Entry>, id: string)
    ensures id in RefsItems(items) <==> exists i :: 0 <= i < |items| && Names(items[i].val, id)
    decreases items, 0
  {
    if items != [] {
      var init, last := items[..|items| - 1], items[|items| - 1];
      assert (items decreases to last) && (last decreases to last.val);
      RefsItemsExact(init, id);
      RefsExact(last.val, id);
      assert forall i :: 0 <= i < |init| ==> init[i] == items[i];
    }
  }

  lemma {:induction false} NamesBelow(t: Tree, id: string)
    requires t.Node?
    ensures Names(t, id) <==> exists i :: 0 <= i < |t.items| && Names(t.items[i].val, id)
  {
    if way: seq<nat>, s: string :| At(t, way) == Some(Leaf(Str(s))) && RefersTo(s, id) {
      assert At(t.items[way[0]].val, way[1..]) == Some(Leaf(Str(s)));
      assert Names(t.items[way[0]].val, id);
    }
    if i :| 0 <= i < |t.items| && Names(t.items[i].val, id) {
      var way: seq<nat>, s: string :| At(t.items[i].val, way) == Some(Leaf(Str(s))) && RefersTo(s, id);
      assert ([i] + way)[1..] == way;
      assert At(t, [i] + way) == Some(Leaf(Str(s)));
    }
  }

  lemma {:induction false} WayToPath(t: Tree, way: seq<nat>) returns (p: Path)
    requires Wf(t) && At(t, way).Some?
    ensures CAt(CanonOf(t), p) == Some(CanonOf(At(t, way).value))
    decreases |way|
  {
    p := [];
    if way != [] {
      CanonEntry(t.items, way[0]);
      var rest := WayToPath(t.items[way[0]].val, way[1..]);
      p := [t.items[way[0]].key] + rest;
      assert p[1..] == rest;
    }
  }

  lemma {:induction false} PathToWay(t: Tree, p: Path) returns (way: seq<nat>)
    requires Wf(t) && CAt(CanonOf(t), p).Some?
    ensures At(t, way).Some? && CanonOf(At(t, way).value) == CAt(CanonOf(t), p).value
    decreases |p|
  {
    way := [];
    if p != [] {
      CanonHas(t.items, p[0]);
      var i := EntryAt(t.items, p[0]);
      var rest := PathToWay(t.items[i].val, p[1..]);
      way := [i] + rest;
      assert way[1..] == rest;
    }
  }

  /** The same, by paths of keys, whatever the order of dict entries. */
  lemma {:induction false} RefsByPath(t: Tree, id: string)
    requires Wf(t)
    ensures id in Refs(t) <==> exists p: Path, s: string ::
              CAt(CanonOf(t), p) == Some(CLeaf(Str(s))) && RefersTo(s, id)
  {
    RefsExact(t, id);
    if Names(t, id) {
      var way: seq<nat>, s: string :| At(t, way) == Some(Leaf(Str(s))) && RefersTo(s, id);
      var p := WayToPath(t, way);
      assert CAt(CanonOf(t), p) == Some(CLeaf(Str(s)));
    }
    if p: Path, s: string :| CAt(CanonOf(t), p) == Some(CLeaf(Str(s))) && RefersTo(s, id) {
      var way := PathToWay(t, p);
      assert At(t, way) == Some(Leaf(Str(s)));
    }
  }

  /** A split leaves the references of a state as they are. */
  lemma {:induction false} StripRefs(t: Tree)
    ensures Refs(Strip(t)) == Refs(t)
    decreases t, 1
  {
    if t.Node? {
      StripRefsItems(t.kind, t.items);
    }
  }

  lemma {:induction false} StripRefsItems(kind: Kind, items: seq<Entry>)
    ensures RefsItems(StripItems(kind, items)) == RefsItems(items)
    decreases items, 0
  {
    if items != [] {
      var n := |items| - 1;
      var last := items[n];
      assert (items decreases to last) && (last decreases to last.val);
      StripRefsItems(kind, items[..n]);
      StripRefs(last.val);
      var init, more := StripItems(kind, items[..n]), StripEntry(kind, last);
      if more == [] {
        NothingMore(init);
      } else {
        assert (init + more)[..|init + more| - 1] == init;
      }
    }
  }

  predicate Resolves(ids: set<string>, t: Tree) {
    forall i :: 0 <= i < |Refs(t)| ==> Refs(t)[i] in ids
  }

  function IdsOf(ms: seq<Model>): set<string> {
    set i | 0 <= i < |ms| :: ms[i].id
  }

  /** Every reference in the document is to one of its models. */
  ghost predicate Closed(ms: seq<Model>) {
    forall i :: 0 <= i < |ms| ==> Resolves(IdsOf(ms), ms[i].record.state)
  }

  /** The i-th model names id, and no model has that id. */
  ghost predicate Dangles(ms: seq<Model>, i: nat, id: string)
    requires i < |ms|
  {
    Names(ms[i].record.state, id) && forall j :: 0 <= j < |ms| ==> ms[j].id != id
  }

  ghost predicate NoneDangles(ms: seq<Model>) {
    forall i, id :: 0 <= i < |ms| ==> !Dangles(ms, i, id)
  }

  function MissingIds(m: Model, ids: set<string>): (missing: set<string>)
    ensures forall id :: id in missing <==> Names(m.record.state, id) && id !in ids
  {
    assert forall id :: id in Refs(m.record.state) <==> Names(m.record.state, id) by {
      forall id
        ensures id in Refs(m.record.state) <==> Names(m.record.state, id)
      {
        RefsExact(m.record.state, id);
      }
    }
    set r | r in Refs(m.record.state) && r !in ids
  }

  lemma {:induction false} MissingExactly(ms: seq<Model>, i: nat, id: string)
    requires i < |ms|
    ensures id in MissingIds(ms[i], IdsOf(ms)) <==> Dangles(ms, i, id)
  {}

  lemma {:induction false} ClosedExactly(ms: seq<Model>)
    ensures Closed(ms) <==> NoneDangles(ms)
  {
    forall i | 0 <= i < |ms|
      ensures Resolves(IdsOf(ms), ms[i].record.state) <==> forall id :: !Dangles(ms, i, id)
    {
      var refs := Refs(ms[i].record.state);
      forall id
        ensures Dangles(ms, i, id) <==> id in refs && id !in IdsOf(ms)
      {
        RefsExact(ms[i].record.state, id);
        MissingExactly(ms, i, id);
      }
      if k :| 0 <= k < |refs| && refs[k] !in IdsOf(ms) {
        assert Dangles(ms, i, refs[k]);
      }
    }
  }

  ghost predicate Reports(dangling: map<string, set<string>>, ms: seq<Model>, ids: set<string>) {
    && (forall i :: 0 <= i < |ms| && MissingIds(ms[i], ids) != {} ==>
          ms[i].id in dangling && dangling[ms[i].id] == MissingIds(ms[i], ids))
    && (forall id :: id in dangling ==> exists i :: 0 <= i < |ms| && ms[i].id == id && MissingIds(ms[i], ids) != {})
  }

  lemma {:induction false} ReportsSnoc(dangling: map<string, set<string>>, ms: seq<Model>, m: Model, ids: set<string>)
    requires Reports(dangling, ms, ids) && UniqueModels(ms + [m])
    ensures Reports(if MissingIds(m, ids) == {} then dangling else dangling[m.id := MissingIds(m, ids)], ms + [m], ids)
  {
    hide MissingIds, Names;
    var all := ms + [m];
    var dangling' := if MissingIds(m, ids) == {} then dangling else dangling[m.id := MissingIds(m, ids)];
    assert all[|ms|] == m && forall i :: 0 <= i < |ms| ==> all[i] == ms[i] && ms[i].id != m.id;
    forall id | id in dangling'
      ensures exists i :: 0 <= i < |all| && all[i].id == id && MissingIds(all[i], ids) != {}
    {
      if id in dangling {
        var i :| 0 <= i < |ms| && ms[i].id == id && MissingIds(ms[i], ids) != {};
        assert all[i].id == id;
      } else {
        assert all[|ms|].id == id;
      }
    }
  }

  /** Exactly the dangling references, each under the model that holds it. */
  ghost predicate Reported(dangling: map<string, set<string>>, ms: seq<Model>) {
    && (forall i, id :: 0 <= i < |ms| ==>
          (Dangles(ms, i, id) <==> ms[i].id in dangling && id in dangling[ms[i].id]))
    && (forall holder :: holder in dangling ==>
          exists i, id :: 0 <= i < |ms| && ms[i].id == holder && Dangles(ms, i, id))
  }

  lemma {:induction false} ReportsExactly(dangling: map<string, set<string>>, ms: seq<Model>)
    requires Reports(dangling, ms, IdsOf(ms)) && UniqueModels(ms)
    ensures Reported(dangling, ms) && (dangling == map[] <==> NoneDangles(ms))
  {
    forall i, id | 0 <= i < |ms|
      ensures Dangles(ms, i, id) <==> ms[i].id in dangling && id in dangling[ms[i].id]
    {
      MissingExactly(ms, i, id);
      if ms[i].id in dangling {
        var j :| 0 <= j < |ms| && ms[j].id == ms[i].id && MissingIds(ms[j], IdsOf(ms)) != {};
        assert j == i;
      }
    }
    forall holder | holder in dangling
      ensures exists i, id :: 0 <= i < |ms| && ms[i].id == holder && Dangles(ms, i, id)
    {
      var i :| 0 <= i < |ms| && ms[i].id == holder && MissingIds(ms[i], IdsOf(ms)) != {};
      var id :| id in MissingIds(ms[i], IdsOf(ms));
      MissingExactly(ms, i, id);
    }
    if !NoneDangles(ms) {
      var i, id :| 0 <= i < |ms| && Dangles(ms, i, id);
      assert ms[i].id in dangling;
    }
  }

  /**
   * The dangling references of each model that holds one; a document passes when there are none.
   * Ids are the keys of a mapping, so no two models have the same.
   */
  method CheckReferences(doc: Document) returns (dangling: map<string, set<string>>)
    requires doc.models.Models? ==> UniqueModels(doc.models.items)
    requires !doc.models.NotAMapping?
    ensures doc.models.Missing? ==> dangling == map[]
    ensures doc.models.Models? ==> Reported(dangling, doc.models.items)
    ensures doc.models.Models? ==> (dangling == map[] <==> NoneDangles(doc.models.items))
  {
    dangling := map[];
    if doc.models.Missing? {
      return;
    }
    var ms := doc.models.items;
    var present := IdsOf(ms);
    for n := 0 to |ms|
      invariant Reports(dangling, ms[..n], present)
    {
      assert ms[..n + 1] == ms[..n] + [ms[n]];
      ReportsSnoc(dangling, ms[..n], ms[n], present);
      var missing := MissingIds(ms[n], present);
      if missing != {} {
        dangling := dangling[ms[n].id := missing];
      }
    }
    assert ms[..|ms|] == ms;
    ReportsExactly(dangling, ms);
  }

  predicate UniqueModels(ms: seq<Model>) {
    forall i, j :: 0 <= i < j < |ms| ==> ms[i].id != ms[j].id
  }

  /** A dumped document passes exactly when every id that an entry's state names is an entry's. */
  lemma {:induction false} DumpedClosed(es: seq<ModelEntry>, version: string)
    requires DumpDocument(es, version).Ok?
    ensures NoneDangles(DumpDocument(es, version).value.models.items) <==>
            forall i, id :: 0 <= i < |es| && Names(es[i].state, id) ==> exists j :: 0 <= j < |es| && es[j].id == id
  {
    DumpExactly(es, version);
    var ms := DumpDocument(es, version).value.models.items;
    forall i, id | 0 <= i < |es|
      ensures Dangles(ms, i, id) <==> Names(es[i].state, id) && forall j :: 0 <= j < |es| ==> es[j].id != id
    {
      StripRefs(es[i].state);
      RefsExact(es[i].state, id);
      RefsExact(ms[i].record.state, id);
    }
  }
}
