/**
 * The life of a widget: the reducer, the shell that runs its effects, and what every run of
 * the shell sends. Host callbacks may call back into the shell.
 */
module Lifecycle {
  import opened Trees
  import opened Protocol

  datatype Phase = UNOPENED | OPEN | CLOSED

  datatype Capabilities = Capabilities(receive: bool, requestState: bool, custom: bool, buffers: bool)

  datatype Fault = NotOpen | NoCustom | NoBuffers

  datatype Effect =
    | Send(w: Wire)
    | Listen
    | ApplyState(state: Tree)
    | InvokeCustom(content: Tree, buffers: seq<Bytes>)
    | Error(fault: Fault)

  datatype Event =
    | Open
    | SendState(only: Option<set<Key>>)
    | SendCustom(content: Tree, buffers: seq<Bytes>)
    | Inbound(data: Data, buffers: seq<Bytes>)
    | Close
    | CommIdAssigned(id: string)

  datatype Reduced = Reduced(phase: Phase, effects: seq<Effect>)

  // ---------------------------------------------------------------------
  // The reducer
  // ---------------------------------------------------------------------

  /** What an event leads to; None when the reducer raises. */
  function Reduce(phase: Phase, event: Event, state: seq<Entry>, caps: Capabilities): Option<Reduced> {
    match event
    case Open => ReduceOpen(phase, state, caps)
    case SendState(only) => ReduceSendState(phase, only, state)
    case SendCustom(content, buffers) => Some(ReduceSendCustom(phase, content, buffers, caps))
    case Inbound(data, buffers) => ReduceInbound(phase, data, buffers, state, caps)
    case Close =>
      if phase.OPEN? then Some(Reduced(CLOSED, [Send(CommClose)])) else Some(Reduced(phase, []))
    case CommIdAssigned(_) => Some(Reduced(OPEN, []))
  }

  function ReduceOpen(phase: Phase, state: seq<Entry>, caps: Capabilities): Option<Reduced> {
    if phase.OPEN? then Some(Reduced(OPEN, []))
    else
      match BuildCommOpen(state)
      case None => None
      case Some(w) => Some(Reduced(OPEN, [Send(w)] + if caps.receive then [Listen] else []))
  }

  function ReduceSendState(phase: Phase, only: Option<set<Key>>, state: seq<Entry>): Option<Reduced> {
    if !phase.OPEN? then Some(Reduced(phase, [Error(NotOpen)]))
    else
      match BuildUpdate(Outgoing(only, state))
      case None => None
      case Some(w) => Some(Reduced(phase, [Send(w)]))
  }

  function Outgoing(only: Option<set<Key>>, state: seq<Entry>): seq<Entry> {
    if only.None? then Merge(IMMUTABLE_FIELDS, state) else Filter(state, only.value)
  }

  /** What an update's receiver assembles: the whole state over the identity fields, or the requested keys. */
  lemma {:induction false} SendTells(only: Option<set<Key>>, state: seq<Entry>)
    requires WfDict(state) && BuildUpdate(Outgoing(only, state)).Some?
    ensures var m := CanonItems(state);
            Tells(BuildUpdate(Outgoing(only, state)).value,
              if only.None? then CanonItems(IMMUTABLE_FIELDS) + m else map k | k in m && k in only.value :: m[k])
  {
    if only.None? {
      MergeCanon(IMMUTABLE_FIELDS, state);
    } else {
      FilterWf(state, only.value);
      FilterCanon(state, only.value);
    }
    Assembled(Outgoing(only, state));
  }

  /** An update is refused exactly when a value that it is to carry nests deeper than 500 containers. */
  lemma {:induction false} SendRefused(only: Option<set<Key>>, state: seq<Entry>)
    requires WfDict(state)
    ensures BuildUpdate(Outgoing(only, state)).None? <==>
            exists i :: 0 <= i < |state| && (only.None? || state[i].key in only.value) && Depth(state[i].val) > 500
  {
    var out := Outgoing(only, state);
    DepthBound(out, MAX_DEPTH);
    if only.None? {
      MergeDepth(IMMUTABLE_FIELDS, state);
      DepthBound(state, MAX_DEPTH);
    } else {
      FilterHolds(state, only.value);
      if BuildUpdate(out).None? {
        var j :| 0 <= j < |out| && Depth(out[j].val) > MAX_DEPTH;
        assert out[j] in out;
        var i :| 0 <= i < |state| && state[i] == out[j];
      } else if i :| 0 <= i < |state| && state[i].key in only.value && Depth(state[i].val) > MAX_DEPTH {
        assert state[i] in out;
      }
    }
  }

  function ReduceSendCustom(phase: Phase, content: Tree, buffers: seq<Bytes>, caps: Capabilities): Reduced {
    if !phase.OPEN? then Reduced(phase, [Error(NotOpen)])
    else if !caps.custom then Reduced(phase, [Error(NoCustom)])
    else if !caps.buffers && buffers != [] then Reduced(phase, [Error(NoBuffers)])
    else Reduced(phase, [Send(CommCustom(content, buffers))])
  }

  function ReduceInbound(phase: Phase, data: Data, buffers: seq<Bytes>, state: seq<Entry>,
        caps: Capabilities): Option<Reduced> {
    if !phase.OPEN? then Some(Reduced(phase, []))
    else
      match ParseMessage(data)
      case Update(t, paths) =>
        (match Assemble(t, paths, buffers)
         case None => None
         case Some(u) => Some(Reduced(phase, [ApplyState(u)])))
      case RequestState => if caps.requestState then ReduceSendState(phase, None, state) else Some(Reduced(phase, []))
      case Custom(content) => Some(Reduced(phase, [InvokeCustom(content, buffers)]))
      case Ignored => Some(Reduced(phase, []))
  }

  // ---------------------------------------------------------------------
  // What the outside sees
  // ---------------------------------------------------------------------

  /** What the transport and the host see of a shell. */
  datatype Happened =
    | Sent(w: Wire)
    | Registered
    | StateSet(state: Tree)
    | CustomGiven(content: Tree, buffers: seq<Bytes>)

  predicate IsCallback(h: Happened) {
    h.StateSet? || h.CustomGiven?
  }

  /** Whether a session is open after h; None when h has no place here. */
  function Next(open: bool, h: Happened): Option<bool> {
    match h
    case Sent(CommOpen(_, _, _)) => if open then None else Some(true)
    case Sent(CommClose) => if open then Some(false) else None
    case _ => if open then Some(true) else None
  }

  function Scan(log: seq<Happened>): Option<bool> {
    if log == [] then Some(false)
    else
      match Scan(log[..|log| - 1])
      case None => None
      case Some(open) => Next(open, log[|log| - 1])
  }

  function Registrations(log: seq<Happened>): nat {
    if log == [] then 0 else Registrations(log[..|log| - 1]) + if log[|log| - 1].Registered? then 1 else 0
  }

  lemma {:induction false} ScanSnoc(log: seq<Happened>, h: Happened)
    ensures Scan(log + [h]) == if Scan(log).None? then None else Next(Scan(log).value, h)
    ensures Registrations(log + [h]) == Registrations(log) + if h.Registered? then 1 else 0
  {
    assert (log + [h])[..|log|] == log;
  }

  lemma {:induction false} ScanPrefix(log: seq<Happened>, n: nat)
    requires n <= |log| && Scan(log).Some?
    ensures Scan(log[..n]).Some?
    decreases |log|
  {
    if n < |log| {
      ScanPrefix(log[..|log| - 1], n);
      assert log[..|log| - 1][..n] == log[..n];
    } else {
      assert log[..n] == log;
    }
  }

  /** The host is called only while a session is open. */
  lemma {:induction false} CallbacksWhileOpen(log: seq<Happened>, n: nat)
    requires Scan(log).Some? && n < |log| && IsCallback(log[n])
    ensures Scan(log[..n]) == Some(true)
  {
    ScanPrefix(log, n + 1);
    assert log[..n + 1][..n] == log[..n];
  }

  /** The states that the host was given, in order. */
  function Writes(log: seq<Happened>): seq<Tree> {
    if log == [] then []
    else Writes(log[..|log| - 1]) + match log[|log| - 1] case StateSet(t) => [t] case _ => []
  }

  lemma {:induction false} WritesSnoc(log: seq<Happened>, h: Happened)
    ensures Writes(log + [h]) == Writes(log) + match h case StateSet(t) => [t] case _ => []
  {
    assert (log + [h])[..|log|] == log;
  }

  // ---------------------------------------------------------------------
  // The language on the wire
  // ---------------------------------------------------------------------

  function Wires(log: seq<Happened>): seq<Wire> {
    if log == [] then []
    else Wires(log[..|log| - 1]) + match log[|log| - 1] case Sent(w) => [w] case _ => []
  }

  /** An opening message, then others. */
  predicate Unfinished(ws: seq<Wire>) {
    ws != [] && ws[0].CommOpen? && forall i :: 0 < i < |ws| ==> ws[i].CommUpdate? || ws[i].CommCustom?
  }

  predicate Session(ws: seq<Wire>) {
    ws != [] && Unfinished(ws[..|ws| - 1]) && ws[|ws| - 1].CommClose?
  }

  predicate Sessions(ss: seq<seq<Wire>>) {
    forall i :: 0 <= i < |ss| ==> Session(ss[i])
  }

  function Concat(ss: seq<seq<Wire>>): seq<Wire> {
    if ss == [] then [] else Concat(ss[..|ss| - 1]) + ss[|ss| - 1]
  }

  predicate Splits(ws: seq<Wire>, open: bool, ss: seq<seq<Wire>>, last: seq<Wire>) {
    Sessions(ss) && ws == Concat(ss) + last && if open then Unfinished(last) else last == []
  }

  /** Finished sessions one after the other, then an unfinished one when open. */
  ghost predicate InLanguage(ws: seq<Wire>, open: bool) {
    exists ss: seq<seq<Wire>>, last: seq<Wire> :: Splits(ws, open, ss, last)
  }

  /** Everything that a log accepted by Scan sent is in the language. */
  lemma {:induction false} ScanLanguage(log: seq<Happened>)
    requires Scan(log).Some?
    ensures InLanguage(Wires(log), Scan(log).value)
  {
    if log == [] {
      assert Splits(Wires(log), false, [], []);
    } else {
      var init, h := log[..|log| - 1], log[|log| - 1];
      ScanLanguage(init);
      if h.Sent? {
        SendInLanguage(Wires(init), Scan(init).value, h.w);
      } else {
        NothingMore(Wires(init));
      }
    }
  }

  lemma {:induction false} SendInLanguage(ws: seq<Wire>, open: bool, w: Wire)
    requires InLanguage(ws, open) && Next(open, Sent(w)).Some?
    ensures InLanguage(ws + [w], Next(open, Sent(w)).value)
  {
    var ss: seq<seq<Wire>>, last: seq<Wire> :| Splits(ws, open, ss, last);
    Assoc(Concat(ss), last, [w]);
    if w.CommClose? {
      FinishSession(ss, last, w);
      assert Splits(ws + [w], false, ss + [last + [w]], []);
    } else {
      assert Splits(ws + [w], true, ss, last + [w]);
    }
  }

  lemma {:induction false} FinishSession(ss: seq<seq<Wire>>, last: seq<Wire>, w: Wire)
    requires Sessions(ss) && Unfinished(last) && w.CommClose?
    ensures Splits(Concat(ss) + (last + [w]), false, ss + [last + [w]], [])
  {
    var s := last + [w];
    assert s[..|s| - 1] == last;
    assert (ss + [s])[..|ss|] == ss;
    NothingMore(Concat(ss) + s);
  }

  // ---------------------------------------------------------------------
  // The shell
  // ---------------------------------------------------------------------

  /** The state of an update with its buffers in place; a field that is missing is empty. */
  function Patched(data: Data, buffers: seq<Bytes>): Option<Tree>
    requires data.Data?
  {
    Assemble(if data.state.Some? then data.state.value else Node(DictK, []),
             if data.paths.Some? then data.paths.value else [], buffers)
  }

  /** The state that an inbound message carries for the host. */
  function Told(data: Data, buffers: seq<Bytes>): seq<Tree> {
    if data.Data? && data.verb == Some("update") && Patched(data, buffers).Some? then [Patched(data, buffers).value]
    else []
  }

  lemma {:induction false} SentWrites(log: seq<Happened>)
    ensures forall w :: Writes(log + [Sent(w)]) == Writes(log)
  {
    forall w
      ensures Writes(log + [Sent(w)]) == Writes(log)
    {
      WritesSnoc(log, Sent(w));
    }
  }

  /**
   * A call on the shell, with what the host and the transport answer to it: the host's state,
   * the comm id after an opening, and what a callback does if one is invoked.
   */
  datatype Action =
    | DoOpen(state: seq<Entry>, commId: string)
    | DoDisplay(state: seq<Entry>, commId: string)
    | DoSendState(only: Option<set<Key>>, state: seq<Entry>)
    | DoSendCustom(content: Tree, buffers: seq<Bytes>)
    | DoClose
    | Arrive(data: Data, buffers: seq<Bytes>, state: seq<Entry>, script: seq<Call>)

  /** A callback makes calls, each with or without a handler for errors, and may raise. */
  datatype Call = Guarded(a: Action) | Plain(a: Action) | Raise

  /** A call that neither closes the session nor is another inbound message. */
  predicate Calm(a: Action) {
    !a.DoClose? && !a.Arrive?
  }

  predicate AllCalm(script: seq<Call>) {
    forall i :: 0 <= i < |script| ==> script[i].Raise? || Calm(script[i].a)
  }

  ghost function Size(script: seq<Call>): nat
    decreases script, 0
  {
    if script == [] then 0
    else
      var last := script[|script| - 1];
      assert (script decreases to last);
      Size(script[..|script| - 1]) + 1 + if last.Raise? then 0 else SizeOf(last.a)
  }

  ghost function SizeOf(a: Action): nat
    decreases a, 0
  {
    if a.Arrive? then 1 + Size(a.script) else 1
  }

  /** The reducer's results, by what they ask for. */
  predicate Fits(phase: Phase, r: Reduced) {
    || (r.effects == [] && r.phase == phase)
    || (|r.effects| == 1 && r.effects[0].Error? && r.phase == phase)
    || (!phase.OPEN? && r.phase.OPEN? && Opens(r.effects))
    || (phase.OPEN? && r.phase.OPEN? && |r.effects| == 1 && Keeps(r.effects[0]))
    || (phase.OPEN? && r.phase.CLOSED? && r.effects == [Send(CommClose)])
  }

  predicate Opens(effects: seq<Effect>) {
    && 1 <= |effects| <= 2 && effects[0].Send? && effects[0].w.CommOpen?
    && (|effects| == 2 ==> effects[1].Listen?)
  }

  predicate Keeps(e: Effect) {
    e.ApplyState? || e.InvokeCustom? || (e.Send? && (e.w.CommUpdate? || e.w.CommCustom?))
  }

  /** Every result of the reducer fits; learning the comm id is not a message and only means OPEN. */
  lemma {:induction false} ReduceFits(phase: Phase, event: Event, state: seq<Entry>, caps: Capabilities)
    requires Reduce(phase, event, state, caps).Some?
    ensures var r := Reduce(phase, event, state, caps).value;
            if event.CommIdAssigned? then r == Reduced(OPEN, []) else Fits(phase, r)
  {}

  predicate Quiet(effects: seq<Effect>) {
    forall i :: 0 <= i < |effects| ==> !effects[i].ApplyState? && !effects[i].InvokeCustom?
  }

  /** The state that an effect gives a host that takes states. */
  function Gives(effects: seq<Effect>): seq<Tree> {
    if |effects| == 1 && effects[0].ApplyState? then [effects[0].state] else []
  }

  /** What carrying out an effect, callbacks aside, adds to the log. */
  function Trail(e: Effect, listening: bool): seq<Happened> {
    match e
    case Send(w) => [Sent(w)]
    case Listen => if listening then [] else [Registered]
    case _ => []
  }

  function Trails(effects: seq<Effect>, listening: bool): seq<Happened> {
    if effects == [] then []
    else Trails(effects[..|effects| - 1], listening) + Trail(effects[|effects| - 1], listening)
  }

  class WidgetShell {
    const caps: Capabilities
    const hasSetState: bool
    const hasOnCustom: bool
    var phase: Phase
    var modelId: string
    var listening: bool
    var log: seq<Happened>

    ghost predicate Valid()
      reads this
    {
      Scan(log) == Some(phase.OPEN?) && Registrations(log) == (if listening then 1 else 0)
    }

    /** The session goes on, and the host was given these states and no other. */
    ghost predicate Given(writes: seq<Tree>, more: seq<Tree>)
      reads this
    {
      phase.OPEN? && Writes(log) == writes + more
    }

    constructor (caps: Capabilities, hasSetState: bool, hasOnCustom: bool, modelId: string)
      ensures Valid() && phase.UNOPENED? && log == [] && !listening && this.modelId == modelId
      ensures this.caps == caps && this.hasSetState == hasSetState && this.hasOnCustom == hasOnCustom
    {
      this.caps, this.hasSetState, this.hasOnCustom := caps, hasSetState, hasOnCustom;
      this.modelId := modelId;
      phase, listening, log := UNOPENED, false, [];
    }

    method ExecOne(e: Effect, commId: string, script: seq<Call>) returns (raised: bool)
      requires e.ApplyState? || e.InvokeCustom? ==> Valid() && phase.OPEN?
      requires e.Send? && e.w.CommOpen? ==> phase.OPEN?
      modifies this
      ensures !e.ApplyState? && !e.InvokeCustom? ==>
                && phase == old(phase) && log == old(log) + Trail(e, old(listening))
                && listening == (old(listening) || e.Listen?) && (raised <==> e.Error?)
                && modelId == if e.Send? && e.w.CommOpen? && commId != "" then commId else old(modelId)
      ensures e.ApplyState? ==> Valid() && Called(old(phase), old(log), hasSetState, StateSet(e.state), raised)
      ensures e.InvokeCustom? ==>
                Valid() && Called(old(phase), old(log), hasOnCustom, CustomGiven(e.content, e.buffers), raised)
      ensures (e.ApplyState? || e.InvokeCustom?) && hasSetState && AllCalm(script) ==>
                Given(old(Writes(log)), Gives([e]))
      decreases Size(script), 1
    {
      raised := false;
      match e {
        case Send(w) =>
          log := log + [Sent(w)];
          if w.CommOpen? && commId != "" {
            modelId := commId;
            phase := Reduce(phase, CommIdAssigned(commId), [], caps).value.phase;
          }
        case Listen =>
          if !listening {
            log := log + [Registered];
            listening := true;
          } else {
            NothingMore(log);
          }
        case ApplyState(state) =>
          if hasSetState {
            ScanSnoc(log, StateSet(state));
            WritesSnoc(log, StateSet(state));
            log := log + [StateSet(state)];
            raised := RunScript(script);
          }
        case InvokeCustom(content, buffers) =>
          if hasOnCustom {
            ScanSnoc(log, CustomGiven(content, buffers));
            WritesSnoc(log, CustomGiven(content, buffers));
            log := log + [CustomGiven(content, buffers)];
            raised := RunScript(script);
          }
        case Error(_) =>
          NothingMore(log);
          raised := true;
      }
    }

    /** What a callback does: its calls in order, up to an error that it does not handle. */
    method RunScript(script: seq<Call>) returns (raised: bool)
      requires Valid()
      modifies this
      ensures Valid() && old(log) <= log
      ensures old(phase).OPEN? && AllCalm(script) ==> Given(old(Writes(log)), [])
      decreases Size(script), 0
    {
      raised := false;
      NothingMore(Writes(log));
      for i := 0 to |script|
        invariant Valid() && old(log) <= log
        invariant old(phase).OPEN? && AllCalm(script) ==> Given(old(Writes(log)), [])
      {
        if script[i].Raise? {
          return true;
        }
        SizeAt(script, i);
        NothingMore(Writes(log));
        raised := Perform(script[i].a);
        if raised && script[i].Plain? {
          return true;
        }
        raised := false;
      }
    }

    /** Any call, in any phase. */
    method Perform(a: Action) returns (raised: bool)
      requires Valid()
      modifies this
      ensures Valid() && old(log) <= log
      ensures old(phase).OPEN? && Calm(a) ==> Given(old(Writes(log)), [])
      decreases SizeOf(a), 5
    {
      NothingMore(Writes(log));
      SentWrites(log);
      match a {
        case DoOpen(state, commId) => raised := Open(state, commId);
        case DoDisplay(state, commId) =>
          var id;
          raised, id := ReprMimebundle(state, commId);
        case DoSendState(only, state) => raised := SendState(only, state);
        case DoSendCustom(content, buffers) => raised := SendCustom(content, buffers);
        case DoClose => Close(); raised := false;
        case Arrive(data, buffers, state, script) => raised := HandleInbound(data, buffers, state, script);
      }
    }

    /** Open the comm; nothing happens when it is open, or when the state nests too deep, which raises. */
    method Open(state: seq<Entry>, commId: string) returns (raised: bool)
      requires Valid()
      modifies this
      ensures Valid()
      ensures raised <==> !old(phase).OPEN? && BuildCommOpen(state).None?
      ensures raised || old(phase).OPEN? ==> unchanged(this)
      ensures !raised && !old(phase).OPEN? ==>
                && phase.OPEN? && modelId == (if commId != "" then commId else old(modelId))
                && listening == (old(listening) || caps.receive)
                && log == old(log) + [Sent(BuildCommOpen(state).value)] +
                          if caps.receive && !old(listening) then [Registered] else []
      decreases 0, 4
    {
      if phase.OPEN? {
        return false;
      }
      var r := Reduce(phase, Event.Open, state, caps);
      if r.None? {
        return true;
      }
      OpenTrails(r.value.effects, listening);
      raised := Execute(r.value, commId, []);
      Assoc(old(log), [Sent(BuildCommOpen(state).value)], if caps.receive && !old(listening) then [Registered] else []);
    }

    /** Display opens the comm if it is not open, and gives the model id. */
    method ReprMimebundle(state: seq<Entry>, commId: string) returns (raised: bool, id: string)
      requires Valid()
      modifies this
      ensures Valid() && old(log) <= log
      ensures raised <==> !old(phase).OPEN? && BuildCommOpen(state).None?
      ensures raised || old(phase).OPEN? ==> unchanged(this)
      ensures !raised ==> phase.OPEN? && id == modelId
      decreases 0, 5
    {
      raised, id := false, "";
      if phase.UNOPENED? || phase.CLOSED? {
        raised := Open(state, commId);
      }
      if !raised {
        id := modelId;
      }
    }

    /** Send an update; outside a session, or when the state nests too deep, this raises and sends nothing. */
    method SendState(only: Option<set<Key>>, state: seq<Entry>) returns (raised: bool)
      requires Valid()
      modifies this
      ensures Valid()
      ensures raised <==> !old(phase).OPEN? || BuildUpdate(Outgoing(only, state)).None?
      ensures phase == old(phase) && modelId == old(modelId) && listening == old(listening)
      ensures log == if raised then old(log) else old(log) + [Sent(BuildUpdate(Outgoing(only, state)).value)]
      decreases 0, 4
    {
      hide Scan, Registrations, Fits;
      var r := Reduce(phase, Event.SendState(only), state, caps);
      if r.None? {
        return true;
      }
      ReduceFits(phase, Event.SendState(only), state, caps);
      OneTrail(r.value.effects, listening);
      NothingMore(log);
      raised := Execute(r.value, "", []);
    }

    /** Send a custom message; outside a session, or when the transport cannot, this raises and sends nothing. */
    method SendCustom(content: Tree, buffers: seq<Bytes>) returns (raised: bool)
      requires Valid()
      modifies this
      ensures Valid()
      ensures raised <==> !old(phase).OPEN? || !caps.custom || (!caps.buffers && buffers != [])
      ensures phase == old(phase) && modelId == old(modelId) && listening == old(listening)
      ensures log == if raised then old(log) else old(log) + [Sent(CommCustom(content, buffers))]
      decreases 0, 4
    {
      hide Scan, Registrations, Fits;
      var r := Reduce(phase, Event.SendCustom(content, buffers), [], caps);
      ReduceFits(phase, Event.SendCustom(content, buffers), [], caps);
      OneTrail(r.value.effects, listening);
      NothingMore(log);
      raised := Execute(r.value, "", []);
    }

    /** Close the comm if it is open. */
    method Close()
      requires Valid()
      modifies this
      ensures Valid() && modelId == old(modelId) && listening == old(listening)
      ensures phase == if old(phase).OPEN? then CLOSED else old(phase)
      ensures log == if old(phase).OPEN? then old(log) + [Sent(CommClose)] else old(log)
      decreases 0, 4
    {
      var r := Reduce(phase, Event.Close, [], caps);
      if r.value.effects == [] {
        NothingMore(log);
      } else {
        OneTrail(r.value.effects, listening);
      }
      var raised := Execute(r.value, "", []);
    }

    /** What an inbound message asks of an open shell, by the method that it names. */
    ghost predicate Answered(before: seq<Happened>, data: Data, buffers: seq<Bytes>, state: seq<Entry>, raised: bool)
      reads this
    {
      if data.Data? && data.verb == Some("update") then
        var u := Patched(data, buffers);
        if u.None? then raised && log == before
        else if hasSetState then before + [StateSet(u.value)] <= log
        else !raised && log == before
      else if data.Data? && data.verb == Some("request_state") then
        var w := BuildUpdate(Outgoing(None, state));
        (raised <==> caps.requestState && w.None?) &&
        log == if caps.requestState && w.Some? then before + [Sent(w.value)] else before
      else if data.Data? && data.verb == Some("custom") && hasOnCustom then
        before + [CustomGiven(if data.content.Some? then data.content.value else Leaf(PyNone), buffers)] <= log
      else
        !raised && log == before
    }

    /**
     * A message from the frontend; outside a session it is dropped. While the callback makes only
     * calm calls, the host is given the state that the message tells, and no other.
     */
    method HandleInbound(data: Data, buffers: seq<Bytes>, state: seq<Entry>, script: seq<Call>) returns (raised: bool)
      requires Valid()
      modifies this
      ensures Valid() && old(log) <= log
      ensures !old(phase).OPEN? ==> !raised && log == old(log) && phase == old(phase)
      ensures old(phase).OPEN? ==> Answered(old(log), data, buffers, state, raised)
      ensures old(phase).OPEN? && hasSetState && AllCalm(script) ==> Given(old(Writes(log)), Told(data, buffers))
      decreases Size(script), 4
    {
      hide Scan, Registrations, Writes, Fits, BuildUpdate, Assemble;
      SentWrites(log);
      NothingMore(log);
      NothingMore(Writes(log));
      if ParseMessage(data).Ignored? {
        return false;
      }
      var r := Reduce(phase, Event.Inbound(data, buffers), state, caps);
      if r.None? {
        return true;
      }
      ReduceFits(phase, Event.Inbound(data, buffers), state, caps);
      if r.value.effects != [] {
        OneTrail(r.value.effects, listening);
      }
      raised := Execute(r.value, "", script);
    }

    /** A callback was made, or there is none and nothing happened. */
    ghost predicate Called(phase: Phase, before: seq<Happened>, has: bool, h: Happened, raised: bool)
      reads this
    {
      if has then before + [h] <= log else !raised && log == before && this.phase == phase
    }

    ghost predicate CalledFor(phase: Phase, before: seq<Happened>, e: Effect, raised: bool)
      reads this
    {
      && (e.ApplyState? ==> Called(phase, before, hasSetState, StateSet(e.state), raised))
      && (e.InvokeCustom? ==> Called(phase, before, hasOnCustom, CustomGiven(e.content, e.buffers), raised))
    }

    /** Carry out the effects in order, up to an error. */
    method Execute(r: Reduced, commId: string, script: seq<Call>) returns (raised: bool)
      requires Valid() && Fits(phase, r)
      modifies this
      ensures Valid()
      ensures Quiet(r.effects) ==>
                && phase == r.phase && log == old(log) + Trails(r.effects, old(listening))
                && listening == (old(listening) || Listens(r.effects)) && (raised <==> Errs(r.effects))
                && modelId == if Opens(r.effects) && commId != "" then commId else old(modelId)
      ensures !Quiet(r.effects) ==> |r.effects| == 1 && CalledFor(old(phase), old(log), r.effects[0], raised)
      ensures !Quiet(r.effects) && hasSetState && AllCalm(script) ==> Given(old(Writes(log)), Gives(r.effects))
      decreases Size(script), 3
    {
      ghost var was := phase;
      phase := r.phase;
      if Quiet(r.effects) {
        QuietFits(was, r);
        TrailsFit(log, listening, was, r);
        raised := ExecuteQuiet(r.effects, commId);
      } else {
        LoudFits(was, r);
        assert r.effects == [r.effects[0]];
        raised := ExecOne(r.effects[0], commId, script);
      }
    }

    /** What every run keeps. */
    ghost predicate Lawful()
      reads this
    {
      && InLanguage(Wires(log), phase.OPEN?) && Registrations(log) <= 1
      && forall n :: 0 <= n < |log| && IsCallback(log[n]) ==> Scan(log[..n]) == Some(true)
    }

    /**
     * Any calls in any order, each with any callbacks that call back: the messages sent form
     * finished sessions and at most one unfinished one, which is there exactly while the phase
     * is OPEN; the inbound handler is registered at most once; the host is called only within
     * a session.
     */
    method Run(actions: seq<Action>)
      requires Valid()
      modifies this
      ensures Valid() && Lawful() && old(log) <= log
    {
      for i := 0 to |actions|
        invariant Valid() && old(log) <= log
      {
        var raised := Perform(actions[i]);
      }
      ScanLanguage(log);
      forall n | 0 <= n < |log| && IsCallback(log[n])
        ensures Scan(log[..n]) == Some(true)
      {
        CallbacksWhileOpen(log, n);
      }
    }

    method ExecuteQuiet(effects: seq<Effect>, commId: string) returns (raised: bool)
      requires Quiet(effects) && (effects == [] || Opens(effects) || (|effects| == 1 && !OpensComm(effects[0])))
      requires Opens(effects) ==> phase.OPEN?
      modifies this
      ensures phase == old(phase) && log == old(log) + Trails(effects, old(listening))
      ensures listening == (old(listening) || Listens(effects)) && (raised <==> Errs(effects))
      ensures modelId == if Opens(effects) && commId != "" then commId else old(modelId)
      decreases 0, 2
    {
      hide Trail;
      raised := false;
      ghost var id := if Opens(effects) && commId != "" then commId else modelId;
      assert forall i :: 0 <= i < |effects| ==> (OpensComm(effects[i]) <==> i == 0 && Opens(effects));
      for i := 0 to |effects|
        invariant phase == old(phase) && log == old(log) + Trails(effects[..i], old(listening))
        invariant listening == (old(listening) || Listens(effects[..i])) && (raised <==> Errs(effects[..i]))
        invariant modelId == if i > 0 then id else old(modelId)
      {
        TrailsSnoc(effects, i, old(listening));
        Assoc(old(log), Trails(effects[..i], old(listening)), Trail(effects[i], old(listening)));
        raised := ExecOne(effects[i], commId, []);
        if raised {
          break;
        }
      }
      assert effects[..|effects|] == effects;
    }
  }

  lemma {:induction false} QuietFits(phase: Phase, r: Reduced)
    requires Fits(phase, r) && Quiet(r.effects)
    ensures r.effects == [] || Opens(r.effects) || (|r.effects| == 1 && !OpensComm(r.effects[0]))
    ensures Opens(r.effects) ==> r.phase.OPEN?
  {}

  lemma {:induction false} LoudFits(phase: Phase, r: Reduced)
    requires Fits(phase, r) && !Quiet(r.effects)
    ensures phase.OPEN? && r.phase.OPEN? && |r.effects| == 1
    ensures r.effects[0].ApplyState? || r.effects[0].InvokeCustom?
  {}

  predicate OpensComm(e: Effect) {
    e.Send? && e.w.CommOpen?
  }

  lemma {:induction false} SizeAt(script: seq<Call>, i: nat)
    requires i < |script| && !script[i].Raise?
    ensures SizeOf(script[i].a) < Size(script)
    decreases |script|
  {
    if i < |script| - 1 {
      SizeAt(script[..|script| - 1], i);
    }
  }

  lemma {:induction false} OneTrail(effects: seq<Effect>, listening: bool)
    requires |effects| == 1
    ensures Trails(effects, listening) == Trail(effects[0], listening)
  {
    assert effects[..0] == [];
  }

  lemma {:induction false} OpenTrails(effects: seq<Effect>, listening: bool)
    requires Opens(effects)
    ensures Trails(effects, listening) ==
            [Sent(effects[0].w)] + if |effects| == 2 && !listening then [Registered] else []
  {
    OneTrail(effects[..1], listening);
    if |effects| == 1 {
      assert effects[..1] == effects;
    }
  }

  predicate Listens(effects: seq<Effect>) {
    exists i :: 0 <= i < |effects| && effects[i].Listen?
  }

  predicate Errs(effects: seq<Effect>) {
    exists i :: 0 <= i < |effects| && effects[i].Error?
  }

  lemma {:induction false} TrailsSnoc(effects: seq<Effect>, i: nat, listening: bool)
    requires i < |effects|
    ensures Trails(effects[..i + 1], listening) == Trails(effects[..i], listening) + Trail(effects[i], listening)
    ensures Listens(effects[..i + 1]) <==> Listens(effects[..i]) || effects[i].Listen?
    ensures Errs(effects[..i + 1]) <==> Errs(effects[..i]) || effects[i].Error?
  {
    assert effects[..i + 1][..i] == effects[..i];
    assert effects[..i + 1] == effects[..i] + [effects[i]];
  }

  /** One quiet effect, carried out where it has its place. */
  lemma {:induction false} TrailFits(log: seq<Happened>, listening: bool, e: Effect, open: bool, open': bool)
    requires Scan(log) == Some(open) && Registrations(log) == (if listening then 1 else 0)
    requires match e
             case Send(w) => Next(open, Sent(w)) == Some(open')
             case Listen => open && open'
             case _ => open' == open
    ensures Scan(log + Trail(e, listening)) == Some(open')
    ensures Registrations(log + Trail(e, listening)) == if listening || e.Listen? then 1 else 0
  {
    var trail := Trail(e, listening);
    if trail == [] {
      NothingMore(log);
    } else {
      ScanSnoc(log, trail[0]);
      assert trail == [trail[0]];
    }
  }

  lemma {:induction false} TrailsFit(log: seq<Happened>, listening: bool, phase: Phase, r: Reduced)
    requires Scan(log) == Some(phase.OPEN?) && Registrations(log) == (if listening then 1 else 0)
    requires Fits(phase, r) && Quiet(r.effects)
    ensures Scan(log + Trails(r.effects, listening)) == Some(r.phase.OPEN?)
    ensures Registrations(log + Trails(r.effects, listening)) == if listening || Listens(r.effects) then 1 else 0
  {
    var es := r.effects;
    if es == [] {
      NothingMore(log);
    } else {
      TrailFits(log, listening, es[0], phase.OPEN?, r.phase.OPEN?);
      if |es| == 1 {
        OneTrail(es, listening);
      } else {
        OpenTrails(es, listening);
        TrailFits(log + Trail(es[0], listening), listening, es[1], true, true);
        Assoc(log, Trail(es[0], listening), Trail(es[1], listening));
      }
    }
  }

  // ---------------------------------------------------------------------
  // The reducer alone
  // ---------------------------------------------------------------------

  /** An event, and the host's state when it happens. */
  datatype Input = Input(event: Event, state: seq<Entry>)

  datatype Reducing = Reducing(phase: Phase, log: seq<Happened>)

  /** One event after another, the phase handed on; an event that raises changes nothing. */
  function ReduceAll(inputs: seq<Input>, caps: Capabilities): Reducing {
    if inputs == [] then Reducing(UNOPENED, [])
    else
      var r, last := ReduceAll(inputs[..|inputs| - 1], caps), inputs[|inputs| - 1];
      match Reduce(r.phase, last.event, last.state, caps)
      case None => r
      case Some(s) => Reducing(s.phase, r.log + Trails(s.effects, Registrations(r.log) > 0))
  }

  /** A comm id is learnt only while a session is open. */
  predicate IdsInSession(inputs: seq<Input>, caps: Capabilities) {
    inputs != [] ==>
      var init, last := inputs[..|inputs| - 1], inputs[|inputs| - 1];
      IdsInSession(init, caps) && (last.event.CommIdAssigned? ==> ReduceAll(init, caps).phase.OPEN?)
  }

  /** The log has no fault, and the phase says whether it ends inside a session. */
  predicate Sound(r: Reducing) {
    Scan(r.log) == Some(r.phase.OPEN?)
  }

  /** The log has a fault, or the phase is OPEN outside any session. */
  predicate Lost(r: Reducing) {
    Scan(r.log) == None || (r.phase.OPEN? && Scan(r.log) == Some(false))
  }

  lemma {:induction false} SoundStep(r: Reducing, s: Reduced)
    requires Sound(r) && Registrations(r.log) <= 1
    requires Fits(r.phase, s) || (r.phase.OPEN? && s == Reduced(OPEN, []))
    ensures var log := r.log + Trails(s.effects, Registrations(r.log) > 0);
            Sound(Reducing(s.phase, log)) && Registrations(log) <= 1
  {
    if Quiet(s.effects) {
      TrailsFit(r.log, Registrations(r.log) > 0, r.phase, s);
    } else {
      LoudFits(r.phase, s);
      OneTrail(s.effects, Registrations(r.log) > 0);
      NothingMore(r.log);
    }
  }

  /** A fault stays. */
  lemma {:induction false} FaultStays(log: seq<Happened>, more: seq<Happened>)
    requires Scan(log) == None
    ensures Scan(log + more) == None
    decreases |more|
  {
    if more == [] {
      NothingMore(log);
    } else {
      var init, last := more[..|more| - 1], more[|more| - 1];
      FaultStays(log, init);
      ScanSnoc(log + init, last);
      assert log + more == (log + init) + [last];
    }
  }

  /** No event brings the law back. */
  lemma {:induction false} LostStep(r: Reducing, s: Reduced)
    requires Lost(r) && (Fits(r.phase, s) || s == Reduced(OPEN, []))
    ensures Lost(Reducing(s.phase, r.log + Trails(s.effects, Registrations(r.log) > 0)))
  {
    hide Scan, Registrations;
    var trail := Trails(s.effects, Registrations(r.log) > 0);
    if Scan(r.log) == None {
      FaultStays(r.log, trail);
    } else {
      if |s.effects| == 1 {
        OneTrail(s.effects, Registrations(r.log) > 0);
      }
      if trail == [] {
        NothingMore(r.log);
      } else {
        ScanSnoc(r.log, trail[0]);
        assert trail == [trail[0]];
      }
    }
  }

  /** After any events the law holds or is lost, and which of the two can be read off the events. */
  lemma {:induction false} SoundOrLost(inputs: seq<Input>, caps: Capabilities)
    ensures var r := ReduceAll(inputs, caps);
            if IdsInSession(inputs, caps) then Sound(r) && Registrations(r.log) <= 1 else Lost(r)
  {
    if inputs != [] {
      var init, last := inputs[..|inputs| - 1], inputs[|inputs| - 1];
      var r := ReduceAll(init, caps);
      SoundOrLost(init, caps);
      match Reduce(r.phase, last.event, last.state, caps)
      case None =>
      case Some(s) =>
        ReduceFits(r.phase, last.event, last.state, caps);
        if IdsInSession(inputs, caps) {
          SoundStep(r, s);
        } else if IdsInSession(init, caps) {
          NothingMore(r.log);
        } else {
          LostStep(r, s);
        }
    }
  }

  // Whether messages are in the language can be read off the messages alone.

  function Sends(ws: seq<Wire>): seq<Happened> {
    seq(|ws|, i requires 0 <= i < |ws| => Sent(ws[i]))
  }

  lemma {:induction false} SendsSnoc(ws: seq<Wire>, w: Wire)
    ensures Sends(ws + [w]) == Sends(ws) + [Sent(w)]
    ensures Scan(Sends(ws + [w])) == if Scan(Sends(ws)).None? then None else Next(Scan(Sends(ws)).value, Sent(w))
  {
    assert Sends(ws + [w]) == Sends(ws) + [Sent(w)];
    ScanSnoc(Sends(ws), Sent(w));
  }

  lemma {:induction false} WiresSnoc(log: seq<Happened>, h: Happened)
    ensures Wires(log + [h]) == Wires(log) + match h case Sent(w) => [w] case _ => []
  {
    assert (log + [h])[..|log|] == log;
  }

  /** Finished sessions are accepted, and leave none open. */
  lemma {:induction false} SessionsScan(ss: seq<seq<Wire>>)
    requires Sessions(ss)
    ensures Scan(Sends(Concat(ss))) == Some(false)
    decreases |ss|, 1
  {
    if ss == [] {
      assert Sends([]) == [];
    } else {
      hide Scan, Sends;
      var rest, s := ss[..|ss| - 1], ss[|ss| - 1];
      var init, last := s[..|s| - 1], s[|s| - 1];
      UnfinishedScans(rest, init);
      SendsSnoc(Concat(rest) + init, last);
      assert s == init + [last];
      Assoc(Concat(rest), init, [last]);
    }
  }

  /** An unfinished session after them is accepted too, and is open. */
  lemma {:induction false} UnfinishedScans(ss: seq<seq<Wire>>, ws: seq<Wire>)
    requires Sessions(ss) && Unfinished(ws)
    ensures Scan(Sends(Concat(ss) + ws)) == Some(true)
    decreases |ss|, 2, |ws|
  {
    hide Scan, Sends;
    var init, last := ws[..|ws| - 1], ws[|ws| - 1];
    SendsSnoc(Concat(ss) + init, last);
    assert ws == init + [last];
    Assoc(Concat(ss), init, [last]);
    if init == [] {
      NothingMore(Concat(ss));
      SessionsScan(ss);
    } else {
      UnfinishedScans(ss, init);
    }
  }

  /** Messages in the language are accepted: the way into sessions is the only one. */
  lemma {:induction false} LanguageScans(ws: seq<Wire>, open: bool)
    requires InLanguage(ws, open)
    ensures Scan(Sends(ws)) == Some(open)
  {
    var ss: seq<seq<Wire>>, last: seq<Wire> :| Splits(ws, open, ss, last);
    if open {
      UnfinishedScans(ss, last);
    } else {
      NothingMore(Concat(ss));
      SessionsScan(ss);
    }
  }

  /** The reducer registers only after an opening, so that only messages decide. */
  lemma {:induction false} OnlyMessages(inputs: seq<Input>, caps: Capabilities)
    ensures var log := ReduceAll(inputs, caps).log; Scan(log) == Scan(Sends(Wires(log)))
  {
    if inputs != [] {
      var init, last := inputs[..|inputs| - 1], inputs[|inputs| - 1];
      var r := ReduceAll(init, caps);
      OnlyMessages(init, caps);
      match Reduce(r.phase, last.event, last.state, caps)
      case None =>
      case Some(s) =>
        ReduceFits(r.phase, last.event, last.state, caps);
        MessagesStep(r, s);
    }
  }

  lemma {:induction false} MessagesStep(r: Reducing, s: Reduced)
    requires Scan(r.log) == Scan(Sends(Wires(r.log))) && (Fits(r.phase, s) || s == Reduced(OPEN, []))
    ensures var log := r.log + Trails(s.effects, Registrations(r.log) > 0); Scan(log) == Scan(Sends(Wires(log)))
  {
    hide Scan, Registrations, Sends, Wires;
    var listening := Registrations(r.log) > 0;
    if s.effects == [] {
      NothingMore(r.log);
    } else {
      var first := Trail(s.effects[0], listening);
      if |s.effects| == 1 {
        OneTrail(s.effects, listening);
      } else {
        OpenTrails(s.effects, listening);
      }
      if first == [] {
        NothingMore(r.log);
      } else {
        var log := r.log + first;
        ScanSnoc(r.log, first[0]);
        WiresSnoc(r.log, first[0]);
        SendsSnoc(Wires(r.log), first[0].w);
        if Trails(s.effects, listening) != first {
          ScanSnoc(log, Registered);
          WiresSnoc(log, Registered);
          Assoc(r.log, first, [Registered]);
          NothingMore(Wires(log));
        } else {
          assert first == [first[0]];
        }
      }
    }
  }

  /**
   * Any events in any order: what the reducer has sent is in the language, and its phase says
   * whether a session is unfinished, if and only if no comm id was learnt outside a session.
   */
  lemma {:induction false} ReducerLawful(inputs: seq<Input>, caps: Capabilities)
    ensures var r := ReduceAll(inputs, caps);
            && (IdsInSession(inputs, caps) <==> InLanguage(Wires(r.log), r.phase.OPEN?))
            && (IdsInSession(inputs, caps) ==> Registrations(r.log) <= 1)
  {
    var r := ReduceAll(inputs, caps);
    SoundOrLost(inputs, caps);
    OnlyMessages(inputs, caps);
    if IdsInSession(inputs, caps) {
      ScanLanguage(r.log);
    } else if InLanguage(Wires(r.log), r.phase.OPEN?) {
      LanguageScans(Wires(r.log), r.phase.OPEN?);
    }
  }

  /** A comm id learnt before any session makes the phase OPEN, although no message has opened one. */
  lemma {:induction false} LateId(caps: Capabilities)
    ensures var late := [Input(CommIdAssigned("id"), [])];
            && !IdsInSession(late, caps) && ReduceAll(late, caps) == Reducing(OPEN, [])
            && !InLanguage(Wires(ReduceAll(late, caps).log), true)
  {
    var late := [Input(CommIdAssigned("id"), [])];
    assert late[..0] == [];
    ReducerLawful(late, caps);
  }
}
