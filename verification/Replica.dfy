/**
 * The frontend model and the channels it syncs over: what the other side holds once it has
 * applied what is in flight.
 */
module Replica {
  import opened Trees
  import opened Protocol
  import L = Lifecycle

  /** A message with its buffers. */
  datatype Packet = Packet(data: Data, buffers: seq<Bytes>)

  function UpdatePacket(items: seq<Entry>): Packet {
    var t, ps := Strip(Dict(items)), Bufs(Dict(items));
    Packet(Data(Some("update"), Some(t), Some(PathsOf(ps)), None), BuffersOf(ps))
  }

  function CustomPacket(content: Tree, buffers: seq<Bytes>): Packet {
    Packet(Data(Some("custom"), None, None, Some(content)), buffers)
  }

  const REQUEST: Packet := Packet(Data(Some("request_state"), None, None, None), [])

  /** The entries that an update carries, its buffers in place. */
  function Incoming(p: Packet): Option<seq<Entry>> {
    match ParseMessage(p.data)
    case Update(t, paths) =>
      (match Assemble(t, paths, p.buffers)
       case Some(Node(_, items)) => Some(items)
       case _ => None)
    case _ => Some([])
  }

  /** Its buffers have a place, and it is a state. */
  predicate Sound(p: Packet) {
    Incoming(p).Some? && WfDict(Incoming(p).value)
  }

  function ApplyTo(store: seq<Entry>, p: Packet): seq<Entry>
    requires Sound(p)
  {
    Merge(store, Incoming(p).value)
  }

  predicate AllSound(queue: seq<Packet>) {
    forall i :: 0 <= i < |queue| ==> Sound(queue[i])
  }

  function ApplyAll(store: seq<Entry>, queue: seq<Packet>): seq<Entry>
    requires AllSound(queue)
    decreases |queue|
  {
    if queue == [] then store else ApplyAll(ApplyTo(store, queue[0]), queue[1..])
  }

  /** An update tells the entries it was made of, binaries included. */
  lemma {:induction false} UpdateTells(items: seq<Entry>)
    requires WfDict(items)
    ensures Sound(UpdatePacket(items)) && CanonItems(Incoming(UpdatePacket(items)).value) == CanonItems(items)
  {
    Assembled(items);
  }

  lemma {:induction false} ApplySnoc(store: seq<Entry>, queue: seq<Packet>, p: Packet)
    requires AllSound(queue) && Sound(p)
    ensures AllSound(queue + [p]) && ApplyAll(store, queue + [p]) == ApplyTo(ApplyAll(store, queue), p)
    decreases |queue|
  {
    if queue == [] {
      assert [] + [p] == [p] && [p][1..] == [];
    } else {
      assert (queue + [p])[1..] == queue[1..] + [p];
      ApplySnoc(ApplyTo(store, queue[0]), queue[1..], p);
    }
  }

  lemma {:induction false} ApplyWf(store: seq<Entry>, queue: seq<Packet>)
    requires AllSound(queue) && WfDict(store)
    ensures WfDict(ApplyAll(store, queue))
    decreases |queue|
  {
    if queue != [] {
      MergeCanon(store, Incoming(queue[0]).value);
      ApplyWf(ApplyTo(store, queue[0]), queue[1..]);
    }
  }

  /** What a state holds under a key, up to dict order. */
  function View(items: seq<Entry>, key: Key): Option<Canon> {
    var m := CanonItems(items);
    if key in m then Some(m[key]) else None
  }

  // ---------------------------------------------------------------------
  // Single-writer agreement
  // ---------------------------------------------------------------------

  /** Every key that is not dirty agrees with the store, once what is in flight is applied. */
  ghost predicate Synced(state: seq<Entry>, dirty: seq<Key>, queue: seq<Packet>, store: seq<Entry>) {
    && AllSound(queue) && WfDict(store) && WfDict(state)
    && (forall k :: k in dirty ==> k in CanonItems(state))
    && forall key :: key !in dirty ==> View(state, key) == View(ApplyAll(store, queue), key)
  }

  lemma {:induction false} SyncedSet(state: seq<Entry>, dirty: seq<Key>, dirty': seq<Key>, queue: seq<Packet>,
        store: seq<Entry>, key: Key, t: Tree)
    requires Synced(state, dirty, queue, store) && Wf(t)
    requires forall k :: k in dirty' <==> k in dirty || k == key
    ensures Synced(SetEntry(state, key, t), dirty', queue, store)
  {
    SetWf(state, key, t);
    forall k | k !in dirty'
      ensures View(SetEntry(state, key, t), k) == View(ApplyAll(store, queue), k)
    {
      assert View(state, k) == View(ApplyAll(store, queue), k);
    }
  }

  lemma {:induction false} SyncedSave(state: seq<Entry>, dirty: seq<Key>, partial: seq<Entry>, queue: seq<Packet>,
        store: seq<Entry>)
    requires Synced(state, dirty, queue, store) && WfDict(partial)
    requires forall key :: View(partial, key) == if key in dirty then View(state, key) else None
    ensures Synced(state, [], queue + [UpdatePacket(partial)], store)
  {
    var p := UpdatePacket(partial);
    UpdateTells(partial);
    ApplySnoc(store, queue, p);
    ApplyWf(store, queue);
    MergeCanon(ApplyAll(store, queue), Incoming(p).value);
    forall key
      ensures View(state, key) == View(ApplyAll(store, queue + [p]), key)
    {
      assert View(partial, key) == if key in dirty then View(state, key) else None;
    }
  }

  lemma {:induction false} SyncedSend(state: seq<Entry>, dirty: seq<Key>, queue: seq<Packet>, store: seq<Entry>,
        p: Packet)
    requires Synced(state, dirty, queue, store) && Incoming(p) == Some([])
    ensures Synced(state, dirty, queue + [p], store)
  {
    ApplySnoc(store, queue, p);
  }

  lemma {:induction false} SyncedDeliver(state: seq<Entry>, dirty: seq<Key>, queue: seq<Packet>, store: seq<Entry>)
    requires Synced(state, dirty, queue, store) && queue != []
    ensures Synced(state, dirty, queue[1..], ApplyTo(store, queue[0]))
  {
    MergeCanon(store, Incoming(queue[0]).value);
  }

  /** With nothing in flight and nothing dirty, the two states are equal. */
  lemma {:induction false} Drained(state: seq<Entry>, store: seq<Entry>)
    requires Synced(state, [], [], store)
    ensures CanonItems(state) == CanonItems(store)
  {
    forall key
      ensures key in CanonItems(state) <==> key in CanonItems(store)
      ensures key in CanonItems(state) ==> CanonItems(state)[key] == CanonItems(store)[key]
    {
      assert View(state, key) == View(store, key);
    }
  }

  // ---------------------------------------------------------------------
  // The model and its channels
  // ---------------------------------------------------------------------

  lemma {:induction false} SetStays(state: seq<Entry>, dirty: seq<Key>, key: Key, t: Tree)
    requires WfDict(state) && Wf(t) && forall k :: k in dirty ==> k in CanonItems(state)
    ensures WfDict(SetEntry(state, key, t))
    ensures forall k :: k in dirty || k == key ==> k in CanonItems(SetEntry(state, key, t))
  {
    SetWf(state, key, t);
  }

  class Model {
    var state: seq<Entry>
    var dirty: seq<Key>

    ghost predicate Valid()
      reads this
    {
      WfDict(state) && forall k :: k in dirty ==> k in CanonItems(state)
    }

    constructor (initial: seq<Entry>)
      requires WfDict(initial)
      ensures Valid() && state == initial && dirty == []
    {
      state, dirty := initial, [];
    }

    /** A change made at this end; it waits to be saved. */
    method Set(key: Key, t: Tree)
      requires Valid() && Wf(t)
      modifies this
      ensures Valid() && state == SetEntry(old(state), key, t)
      ensures forall k :: k in dirty <==> k in old(dirty) || k == key
    {
      SetStays(state, dirty, key, t);
      state := SetEntry(state, key, t);
      if key !in dirty {
        dirty := dirty + [key];
      }
    }

    /** The message that tells all dirty keys; none when nothing is dirty. */
    method SaveChanges() returns (sent: Option<Packet>, ghost partial: seq<Entry>)
      requires Valid()
      modifies this
      ensures Valid() && dirty == [] && state == old(state)
      ensures sent == if old(dirty) == [] then None else Some(UpdatePacket(partial))
      ensures WfDict(partial) && forall key ::
                View(partial, key) == if key in old(dirty) then View(state, key) else None
    {
      var some: seq<Entry> := [];
      for i := 0 to |dirty|
        invariant Valid() && state == old(state) && dirty == old(dirty) && WfDict(some)
        invariant forall key :: View(some, key) == if key in dirty[..i] then View(state, key) else None
      {
        CanonHas(state, dirty[i]);
        var value := state[EntryAt(state, dirty[i])].val;
        SetWf(some, dirty[i], value);
        some := SetEntry(some, dirty[i], value);
        assert dirty[..i + 1] == dirty[..i] + [dirty[i]];
      }
      assert dirty[..|dirty|] == dirty;
      partial := some;
      sent := if dirty == [] then None else Some(UpdatePacket(some));
      dirty := [];
    }

    /** Take over what an update carries. */
    method Receive(p: Packet)
      requires Valid() && Sound(p)
      modifies this
      ensures Valid() && state == ApplyTo(old(state), p) && dirty == old(dirty)
    {
      if ParseMessage(p.data).Update? {
        var incoming := Incoming(p).value;
        for i := 0 to |incoming|
          invariant state == Merge(old(state), incoming[..i]) && dirty == old(dirty)
        {
          assert incoming[..i + 1][..i] == incoming[..i];
          state := SetEntry(state, incoming[i].key, incoming[i].val);
        }
        assert incoming[..|incoming|] == incoming;
      }
      MergeCanon(old(state), Incoming(p).value);
    }
  }

  /** One end of a pair; inFlight is what it sent and its peer has not been given yet. */
  class MemoryChannel {
    var inFlight: seq<Packet>

    constructor ()
      ensures inFlight == []
    {
      inFlight := [];
    }

    method Send(p: Packet)
      modifies this
      ensures inFlight == old(inFlight) + [p]
    {
      inFlight := inFlight + [p];
    }

    method Take() returns (p: Packet)
      requires inFlight != []
      modifies this
      ensures p == old(inFlight)[0] && inFlight == old(inFlight)[1..]
    {
      p := inFlight[0];
      inFlight := inFlight[1..];
    }

    /** Give the oldest message to the model at the other end. */
    method Deliver(receiver: Model)
      requires inFlight != [] && Sound(inFlight[0]) && receiver.Valid()
      modifies this, receiver
      ensures inFlight == old(inFlight)[1..]
      ensures receiver.Valid() && receiver.dirty == old(receiver.dirty)
      ensures receiver.state == ApplyTo(old(receiver.state), old(inFlight)[0])
    {
      var p := Take();
      receiver.Receive(p);
    }
  }

  /** What can happen at two ends of which only the first is written. */
  datatype Step =
    | Set(key: Key, t: Tree)
    | Save(first: bool)
    | Send(first: bool, content: Tree, buffers: seq<Bytes>)
    | Request(first: bool)
    | Deliver(fromFirst: bool)

  class Pair {
    const writer: Model
    const reader: Model
    const out: MemoryChannel
    const back: MemoryChannel

    ghost predicate Valid()
      reads this, writer, reader, out, back
    {
      && writer != reader && out != back
      && writer.Valid() && reader.Valid() && reader.dirty == []
      && Synced(writer.state, writer.dirty, out.inFlight, reader.state)
      && forall i :: 0 <= i < |back.inFlight| ==> Incoming(back.inFlight[i]) == Some([])
    }

    constructor (initial: seq<Entry>, copy: seq<Entry>)
      requires WfDict(initial) && WfDict(copy) && CanonItems(initial) == CanonItems(copy)
      ensures Valid() && fresh(writer) && fresh(reader) && fresh(out) && fresh(back)
    {
      writer := new Model(initial);
      reader := new Model(copy);
      out := new MemoryChannel();
      back := new MemoryChannel();
    }

    method Perform(s: Step)
      requires Valid() && (s.Set? ==> Wf(s.t))
      modifies writer, reader, out, back
      ensures Valid()
    {
      match s {
        case Set(key, t) =>
          writer.Set(key, t);
          SyncedSet(old(writer.state), old(writer.dirty), writer.dirty, out.inFlight, reader.state, key, t);
        case Save(first) =>
          var sent;
          ghost var partial;
          if first {
            sent, partial := writer.SaveChanges();
            if sent.Some? {
              out.Send(sent.value);
              SyncedSave(writer.state, old(writer.dirty), partial, old(out.inFlight), reader.state);
            }
          } else {
            sent, partial := reader.SaveChanges();
          }
        case Send(first, content, buffers) =>
          SendOn(first, CustomPacket(content, buffers));
        case Request(first) =>
          SendOn(first, REQUEST);
        case Deliver(fromFirst) =>
          if fromFirst && out.inFlight != [] {
            SyncedDeliver(writer.state, writer.dirty, out.inFlight, reader.state);
            out.Deliver(reader);
          } else if !fromFirst && back.inFlight != [] {
            back.Deliver(writer);
          }
      }
    }

    method SendOn(first: bool, p: Packet)
      requires Valid() && Incoming(p) == Some([])
      modifies out, back
      ensures Valid()
    {
      if first {
        SyncedSend(writer.state, writer.dirty, out.inFlight, reader.state, p);
        out.Send(p);
      } else {
        back.Send(p);
      }
    }

    /**
     * After any run of which only one end writes: every key that is not dirty equals the other
     * end's, once what is in flight is applied; with nothing in flight or dirty, the states are equal.
     */
    method Run(steps: seq<Step>)
      requires Valid() && forall i :: 0 <= i < |steps| && steps[i].Set? ==> Wf(steps[i].t)
      modifies writer, reader, out, back
      ensures Valid()
      ensures writer.dirty == [] && out.inFlight == [] ==> CanonItems(writer.state) == CanonItems(reader.state)
    {
      for i := 0 to |steps|
        invariant Valid()
      {
        Perform(steps[i]);
      }
      if writer.dirty == [] && out.inFlight == [] {
        Drained(writer.state, reader.state);
      }
    }
  }

  // ---------------------------------------------------------------------
  // A model and the shell of its widget
  // ---------------------------------------------------------------------

  lemma {:induction false} AssembledDict(t: Tree, ps: seq<Patch>)
    requires t.Node? && t.kind.DictK? && PutAllT(t, ps).Some?
    ensures PutAllT(t, ps).value.Node? && PutAllT(t, ps).value.kind.DictK?
    decreases |ps|
  {
    if ps != [] {
      AssembledDict(PutT(t, ps[0].path, ps[0].b).value, ps[1..]);
    }
  }

  /** What a host holds that merges each state it is given into the one it had. */
  function HostStore(initial: seq<Entry>, writes: seq<Tree>): seq<Entry> {
    if writes == [] then initial
    else
      var before := HostStore(initial, writes[..|writes| - 1]);
      match writes[|writes| - 1]
      case Node(_, items) => Merge(before, items)
      case _ => before
  }

  /** What the shell tells its host of a message is what the message carries. */
  lemma {:induction false} ToldIsApplied(initial: seq<Entry>, writes: seq<Tree>, p: Packet)
    requires Sound(p)
    ensures HostStore(initial, writes + L.Told(p.data, p.buffers)) == ApplyTo(HostStore(initial, writes), p)
  {
    var store := HostStore(initial, writes);
    match ParseMessage(p.data)
    case Update(t, paths) =>
      var u := Dict(Incoming(p).value);
      AssembledDict(t, Zip(paths, p.buffers));
      assert L.Told(p.data, p.buffers) == [u];
      assert (writes + [u])[..|writes|] == writes;
    case _ =>
      assert writes + L.Told(p.data, p.buffers) == writes;
  }

  /** What can happen at a model and at the shell of its widget, whose session is open. */
  datatype ShellStep =
    | SetKey(key: Key, t: Tree)
    | SaveDirty
    | SendOn(content: Tree, buffers: seq<Bytes>)
    | RequestAll
    | Give(state: seq<Entry>, script: seq<L.Call>)
    | HostCall(a: L.Action)

  /** A frontend model that writes, and the kernel's shell, which passes on what it is told to its host. */
  class ShellPair {
    const writer: Model
    const out: MemoryChannel
    const shell: L.WidgetShell
    ghost const initial: seq<Entry>

    /** The host's store. */
    ghost function Store(): seq<Entry>
      reads shell
    {
      HostStore(initial, L.Writes(shell.log))
    }

    ghost predicate Valid()
      reads writer, out, shell
    {
      && writer.Valid() && shell.Valid() && shell.phase.OPEN? && shell.hasSetState
      && Synced(writer.state, writer.dirty, out.inFlight, Store())
    }

    /** In an open session the model starts with what the host holds. */
    constructor (shell: L.WidgetShell, hydrated: seq<Entry>, ghost initial: seq<Entry>)
      requires shell.Valid() && shell.phase.OPEN? && shell.hasSetState && WfDict(hydrated)
      requires var store := HostStore(initial, L.Writes(shell.log));
               WfDict(store) && CanonItems(hydrated) == CanonItems(store)
      ensures Valid() && fresh(writer) && fresh(out) && this.shell == shell && this.initial == initial
      ensures writer.state == hydrated && writer.dirty == [] && out.inFlight == []
    {
      writer := new Model(hydrated);
      out := new MemoryChannel();
      this.shell, this.initial := shell, initial;
    }

    /** A request is answered once, by an update that tells the identity fields and the state. */
    ghost predicate RequestAnswered(before: seq<L.Happened>, state: seq<Entry>)
      reads shell
    {
      if shell.caps.requestState && forall i :: 0 <= i < |state| ==> Depth(state[i].val) <= 500 then
        && |shell.log| == |before| + 1 && before <= shell.log && shell.log[|before|].Sent?
        && Tells(shell.log[|before|].w, CanonItems(IMMUTABLE_FIELDS) + CanonItems(state))
      else
        shell.log == before
    }

    /** The oldest message reaches the shell, whose host's callback may call back into the shell. */
    method Deliver(state: seq<Entry>, script: seq<L.Call>)
      requires Valid() && out.inFlight != [] && L.AllCalm(script)
      modifies out, shell
      ensures Valid() && old(shell.log) <= shell.log
      ensures forall content, buffers :: old(out.inFlight)[0] == CustomPacket(content, buffers) && shell.hasOnCustom ==>
                old(shell.log) + [L.CustomGiven(content, buffers)] <= shell.log
      ensures old(out.inFlight)[0] == REQUEST && WfDict(state) ==> RequestAnswered(old(shell.log), state)
    {
      ghost var writes := L.Writes(shell.log);
      SyncedDeliver(writer.state, writer.dirty, out.inFlight, Store());
      ToldIsApplied(initial, writes, out.inFlight[0]);
      var p := out.Take();
      ghost var before := shell.log;
      var raised := shell.HandleInbound(p.data, p.buffers, state, script);
      assert L.Writes(shell.log) == writes + L.Told(p.data, p.buffers);
      if p == REQUEST && WfDict(state) {
        L.SendRefused(None, state);
        if BuildUpdate(L.Outgoing(None, state)).Some? {
          L.SendTells(None, state);
        }
      }
    }

    method Save()
      requires Valid()
      modifies writer, out
      ensures Valid() && writer.dirty == []
    {
      ghost var dirty := writer.dirty;
      var sent;
      ghost var partial;
      sent, partial := writer.SaveChanges();
      if sent.Some? {
        SyncedSave(writer.state, dirty, partial, out.inFlight, Store());
        out.Send(sent.value);
      }
    }

    method Perform(s: ShellStep)
      requires Valid() && StepAllowed(s)
      modifies writer, out, shell
      ensures Valid()
    {
      match s {
        case SetKey(key, t) =>
          ghost var state, dirty := writer.state, writer.dirty;
          writer.Set(key, t);
          SyncedSet(state, dirty, writer.dirty, out.inFlight, Store(), key, t);
        case SaveDirty =>
          Save();
        case SendOn(content, buffers) =>
          SyncedSend(writer.state, writer.dirty, out.inFlight, Store(), CustomPacket(content, buffers));
          out.Send(CustomPacket(content, buffers));
        case RequestAll =>
          SyncedSend(writer.state, writer.dirty, out.inFlight, Store(), REQUEST);
          out.Send(REQUEST);
        case Give(state, script) =>
          if out.inFlight != [] {
            Deliver(state, script);
          }
        case HostCall(a) =>
          ghost var writes := L.Writes(shell.log);
          NothingMore(writes);
          var raised := shell.Perform(a);
      }
    }

    /**
     * After any run in which the session stays open and only the model is written: every key that
     * is not dirty equals the host's, once what is in flight is delivered; with nothing in flight
     * or dirty, the model's state is the host's store.
     */
    method Run(steps: seq<ShellStep>)
      requires Valid() && forall i :: 0 <= i < |steps| ==> StepAllowed(steps[i])
      modifies writer, out, shell
      ensures Valid()
      ensures writer.dirty == [] && out.inFlight == [] ==> CanonItems(writer.state) == CanonItems(Store())
    {
      for i := 0 to |steps|
        invariant Valid()
      {
        Perform(steps[i]);
      }
      if writer.dirty == [] && out.inFlight == [] {
        Drained(writer.state, Store());
      }
    }
  }

  /** The values written are states, and no call closes the session or stands for another writer. */
  predicate StepAllowed(s: ShellStep) {
    match s
    case SetKey(_, t) => Wf(t)
    case Give(_, script) => L.AllCalm(script)
    case HostCall(a) => L.Calm(a)
    case _ => true
  }

  // ---------------------------------------------------------------------
  // Publishing to a Pluto bond
  // ---------------------------------------------------------------------

  class PlutoChannel {
    var state: seq<Entry>
    var value: seq<Entry>

    constructor (initial: seq<Entry>)
      ensures state == initial && value == initial
    {
      state, value := initial, initial;
    }

    /** Merge a partial update into the full state and publish that; buffers are not looked at. */
    method Send(p: Packet)
      requires value == state
      modifies this
      ensures value == state
      ensures state == match ParseMessage(p.data)
                       case Update(Node(_, items), _) => Merge(old(state), items)
                       case _ => old(state)
    {
      match ParseMessage(p.data) {
        case Update(Node(_, items), _) => state := Merge(state, items);
        case _ =>
      }
      value := state;
    }
  }

  /** What the bond shows for a key after a save: the stripped value, and the old one for a binary. */
  function Published(before: Option<Canon>, c: Canon): Option<Canon> {
    if c.CBin? then before else Some(CStrip(c))
  }

  /** A save publishes the model's value exactly when it holds no binary, or is a binary already shown. */
  lemma {:induction false} PublishedExactly(before: Option<Canon>, t: Tree)
    requires Wf(t)
    ensures Published(before, CanonOf(t)) == Some(CanonOf(t)) <==>
              if t.Bin? then before == Some(CanonOf(t)) else Bufs(t) == []
  {
    CanonStrip(t);
    if Bufs(t) == [] {
      StripNothing(t);
    } else {
      var p := Bufs(t)[0];
      BufsExact(t, p.path, p.b);
      CStripNoBinary(CanonOf(t), p.path, p.b);
    }
  }

  ghost predicate Shows(state: seq<Entry>, dirty: seq<Key>, value: seq<Entry>) {
    forall key :: key !in dirty ==> View(state, key) == View(value, key)
  }

  function ValueAt(state: seq<Entry>, key: Key): Tree
    requires DistinctKeys(state) && key in CanonItems(state)
  {
    CanonHas(state, key);
    state[EntryAt(state, key)].val
  }

  /** The bond can show t under a key that it shows as before. */
  predicate Publishable(before: Option<Canon>, t: Tree) {
    if t.Bin? then before == Some(CanonOf(t)) else Bufs(t) == []
  }

  ghost predicate SavedAs(state: seq<Entry>, dirty: seq<Key>, before: seq<Entry>, after: seq<Entry>) {
    && WfDict(state) && (forall k :: k in dirty ==> k in CanonItems(state))
    && forall key :: View(after, key) ==
         if key in dirty then Published(View(before, key), CanonItems(state)[key]) else View(before, key)
  }

  /**
   * After a save the bond shows the model's state exactly when it did for the other keys, and
   * every saved value holds no binary or is a binary that was already shown.
   */
  lemma {:induction false} BondExactly(state: seq<Entry>, dirty: seq<Key>, before: seq<Entry>, after: seq<Entry>)
    requires SavedAs(state, dirty, before, after)
    ensures Shows(state, [], after) <==>
            Shows(state, dirty, before) &&
            forall i :: 0 <= i < |dirty| ==> Publishable(View(before, dirty[i]), ValueAt(state, dirty[i]))
  {
    forall i | 0 <= i < |dirty|
      ensures View(state, dirty[i]) == View(after, dirty[i]) <==>
              Publishable(View(before, dirty[i]), ValueAt(state, dirty[i]))
    {
      CanonHas(state, dirty[i]);
      PublishedExactly(View(before, dirty[i]), ValueAt(state, dirty[i]));
    }
    if Shows(state, [], after) {
      forall key | key !in dirty
        ensures View(state, key) == View(before, key)
      {
        assert View(state, key) == View(after, key);
      }
      forall i | 0 <= i < |dirty|
        ensures Publishable(View(before, dirty[i]), ValueAt(state, dirty[i]))
      {
        assert View(state, dirty[i]) == View(after, dirty[i]);
      }
    }
  }

  method SaveToBond(m: Model, channel: PlutoChannel)
    requires m.Valid() && WfDict(channel.state) && channel.value == channel.state
    modifies m, channel
    ensures m.Valid() && WfDict(channel.state) && channel.value == channel.state && m.state == old(m.state)
              && m.dirty == []
    ensures SavedAs(m.state, old(m.dirty), old(channel.value), channel.value)
  {
    var sent;
    ghost var partial;
    sent, partial := m.SaveChanges();
    if sent.Some? {
      CanonStrip(Dict(partial));
      StripWf(Dict(partial));
      MergeCanon(channel.state, Strip(Dict(partial)).items);
      channel.Send(sent.value);
    }
  }

  /** A list that holds a binary: after a save the bond shows something else under its key. */
  method BondDiffers() returns (m: Model, channel: PlutoChannel)
    ensures m.Valid() && m.dirty == [] && channel.value == channel.state && !Shows(m.state, [], channel.value)
  {
    var key, t := Name("data"), Node(ListK, [Entry(Idx(0), Bin([1]))]);
    m := new Model([]);
    channel := new PlutoChannel([]);
    SetElsewhere([], key, t, key);
    m.Set(key, t);
    ghost var dirty := m.dirty;
    assert key in dirty;
    ghost var i :| 0 <= i < |dirty| && dirty[i] == key;
    SaveToBond(m, channel);
    OneBuffer(t);
    assert !Publishable(View([], dirty[i]), ValueAt(m.state, dirty[i]));
    BondExactly(m.state, dirty, [], channel.value);
  }

  lemma {:induction false} OneBuffer(t: Tree)
    requires t == Node(ListK, [Entry(Idx(0), Bin([1]))])
    ensures Wf(t) && Bufs(t) == [Patch([Idx(0)], [1])]
  {
    assert t.items[..0] == [];
  }

  datatype BondStep = SetKey(key: Key, t: Tree) | SaveAll

  /** With values that hold no binary, the bond shows every key that is not dirty after any run. */
  method RunBond(m: Model, channel: PlutoChannel, steps: seq<BondStep>)
    requires m.Valid() && m.dirty == [] && WfDict(channel.state) && channel.value == channel.state
    requires Shows(m.state, [], channel.value)
    requires forall i :: 0 <= i < |steps| && steps[i].SetKey? ==>
              Wf(steps[i].t) && !steps[i].t.Bin? && Bufs(steps[i].t) == []
    modifies m, channel
    ensures m.Valid() && Shows(m.state, m.dirty, channel.value)
  {
    for n := 0 to |steps|
      invariant m.Valid() && WfDict(channel.state) && channel.value == channel.state
      invariant Shows(m.state, m.dirty, channel.value)
      invariant forall i :: 0 <= i < |m.dirty| ==>
                Publishable(None, ValueAt(m.state, m.dirty[i])) && !ValueAt(m.state, m.dirty[i]).Bin?
    {
      ghost var state, dirty, value := m.state, m.dirty, channel.value;
      match steps[n] {
        case SetKey(key, t) =>
          m.Set(key, t);
          SetPlain(state, dirty, m.dirty, value, key, t);
        case SaveAll =>
          SaveToBond(m, channel);
          BondExactly(state, dirty, value, channel.value);
      }
    }
  }

  lemma {:induction false} SetPlain(state: seq<Entry>, dirty: seq<Key>, dirty': seq<Key>, value: seq<Entry>, key: Key,
        t: Tree)
    requires WfDict(state) && Shows(state, dirty, value) && Wf(t) && !t.Bin? && Bufs(t) == []
    requires forall i :: 0 <= i < |dirty| ==>
               dirty[i] in CanonItems(state) && Publishable(None, ValueAt(state, dirty[i]))
                   && !ValueAt(state, dirty[i]).Bin?
    requires forall k :: k in dirty' <==> k in dirty || k == key
    ensures WfDict(SetEntry(state, key, t)) && Shows(SetEntry(state, key, t), dirty', value)
    ensures forall i :: 0 <= i < |dirty'| ==>
              dirty'[i] in CanonItems(SetEntry(state, key, t)) &&
              Publishable(None, ValueAt(SetEntry(state, key, t), dirty'[i]))
                  && !ValueAt(SetEntry(state, key, t), dirty'[i]).Bin?
  {
    var state' := SetEntry(state, key, t);
    SetWf(state, key, t);
    forall k | k !in dirty'
      ensures View(state', k) == View(value, k)
    {
      assert View(state, k) == View(value, k);
    }
    forall i | 0 <= i < |dirty'|
      ensures dirty'[i] in CanonItems(state')
      ensures Publishable(None, ValueAt(state', dirty'[i])) && !ValueAt(state', dirty'[i]).Bin?
    {
      assert dirty'[i] in dirty';
      SetElsewhere(state, key, t, dirty'[i]);
    }
  }

  lemma {:induction false} SetElsewhere(state: seq<Entry>, key: Key, t: Tree, k: Key)
    requires WfDict(state) && Wf(t) && (k == key || k in CanonItems(state))
    ensures WfDict(SetEntry(state, key, t)) && k in CanonItems(SetEntry(state, key, t))
    ensures ValueAt(SetEntry(state, key, t), k) == if k == key then t else ValueAt(state, k)
  {
    var state' := SetEntry(state, key, t);
    SetWf(state, key, t);
    CanonHas(state', k);
    CanonHas(state, k);
    assert state'[EntryAt(state', k)].key == k;
    if k != key {
      var i := EntryAt(state, k);
      assert state[i].key == k && state'[i] == state[i];
      assert i == EntryAt(state', k);
    }
  }
}
