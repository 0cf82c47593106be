/**
 * Whole runs of the reactive engine, node creation included: what it shows is what re-evaluating
 * everything from scratch shows, over any operations in any order.
 */
module Runs {
  import opened Reactive

  /** What being stable means for a reader of the caches. */
  lemma {:induction false} StableIsConsistent(st: State)
    requires Stable(st)
    ensures forall c :: c in st.w.fn && c !in st.dirty ==>
              Eval(st.w, c, {}) == Ok(st.val[c]) && Srcs(st.edges, SubComp(c)) == Reads(st.w, st.w.fn[c], [])
    ensures forall e :: e in st.out ==>
              Run(st.w, e.fn, [], {}) == Ok(st.out[e]) && Srcs(st.edges, SubEff(e)) == Reads(st.w, e.fn, [])
    ensures forall x :: x in st.edges && x.0.Comp? && x.0.c in st.dirty ==> x.1.SubComp? && x.1.c in st.dirty
    ensures st.backs == st.edges
    ensures Solves(st.w, st.val, Clean(st))
    ensures forall e :: e in st.out ==> Returns(st.w, st.val, Clean(st), e.fn, st.out[e])
  {
    CachesSolve(st);
    forall e | e in st.out
      ensures Returns(st.w, st.val, Clean(st), e.fn, st.out[e])
    {
      assert Quiet(st, e);
    }
    forall c | c in st.w.fn && c !in st.dirty
      ensures CompOk(st, c)
    {
      assert c in Clean(st);
    }
    forall e | e in st.out
      ensures EffOk(st, e)
    {
      assert Quiet(st, e);
    }
    forall x | x in st.edges && x.0.Comp? && x.0.c in st.dirty
      ensures x.1.SubComp? && x.1.c in st.dirty
    {
      assert x.1 in Subs(st.edges, x.0);
      DirtyClosed(st, x.0.c, x.1);
    }
  }

  // ---------------------------------------------------------------------
  // Which effects a change reaches, told without edges
  // ---------------------------------------------------------------------

  /** p reads src through exactly k computeds, on from-scratch values. */
  ghost predicate DependsAt(w: World, p: Fn, src: Source, k: nat)
    requires Wf(w) && Closed(p, w)
    decreases k
  {
    if k == 0 then src in Reads(w, p, [])
    else exists c :: c in CompsIn(Reads(w, p, [])) && c in w.fn && DependsAt(w, w.fn[c], src, k - 1)
  }

  ghost predicate DependsOn(w: World, p: Fn, src: Source)
    requires Wf(w) && Closed(p, w)
  {
    exists k: nat :: DependsAt(w, p, src, k)
  }

  ghost predicate IsFnOf(st: State, n: Sub, p: Fn) {
    match n
    case SubComp(c) => c in st.w.fn && st.w.fn[c] == p
    case SubEff(e) => e in st.out && e.fn == p
  }

  lemma {:induction false} SettledReads(st: State, n: Sub, p: Fn)
    requires Stable(st) && SettledSub(st, n) && IsFnOf(st, n, p)
    ensures Closed(p, st.w) && Srcs(st.edges, n) == Reads(st.w, p, []) && CompsIn(Srcs(st.edges, n)) <= Clean(st)
  {
    match n
    case SubComp(c) => assert CompOk(st, c);
    case SubEff(e) => assert EffOk(st, e);
  }

  /** One more step to n is one more step to a computed among its sources. */
  lemma {:induction false} LayerStep(edges: set<(Source, Sub)>, from: set<Sub>, n: Sub, k: nat)
    requires k > 0
    ensures n in Layer(edges, from, k) <==>
            exists c :: c in CompsIn(Srcs(edges, n)) && SubComp(c) in Layer(edges, from, k - 1)
  {
    if n in Layer(edges, from, k) {
      var x :| x in edges && x.0.Comp? && x.1 == n && SubComp(x.0.c) in Layer(edges, from, k - 1);
      assert x.0 in Srcs(edges, n);
      assert x.0.c in CompsIn(Srcs(edges, n));
    }
    if c :| c in CompsIn(Srcs(edges, n)) && SubComp(c) in Layer(edges, from, k - 1) {
      assert (Comp(c), n) in edges;
    }
  }

  lemma {:induction false} DirectDepends(w: World, edges: set<(Source, Sub)>, src: Source, n: Sub, p: Fn)
    requires Wf(w) && Closed(p, w) && Srcs(edges, n) == Reads(w, p, [])
    ensures n in Layer(edges, Subs(edges, src), 0) <==> DependsAt(w, p, src, 0)
  {
    assert n in Subs(edges, src) <==> (src, n) in edges;
    assert src in Srcs(edges, n) <==> (src, n) in edges;
  }

  /** What reaches the computeds that p reads at k - 1 steps reaches p at k. */
  lemma {:induction false} StepDepends(w: World, edges: set<(Source, Sub)>, src: Source, n: Sub, p: Fn, k: nat)
    requires Wf(w) && Closed(p, w) && Srcs(edges, n) == Reads(w, p, []) && k > 0
    requires forall c :: c in CompsIn(Reads(w, p, [])) ==>
               c in w.fn && (SubComp(c) in Layer(edges, Subs(edges, src), k - 1) <==> DependsAt(w, w.fn[c], src, k - 1))
    ensures n in Layer(edges, Subs(edges, src), k) <==> DependsAt(w, p, src, k)
  {
    LayerStep(edges, Subs(edges, src), n, k);
    hide Layer, Reads;
  }

  lemma {:induction false} LayerDepends(st: State, src: Source, n: Sub, p: Fn, k: nat)
    requires Stable(st) && SettledSub(st, n) && IsFnOf(st, n, p) && Closed(p, st.w)
    ensures n in Layer(st.edges, Subs(st.edges, src), k) <==> DependsAt(st.w, p, src, k)
    decreases k
  {
    SettledReads(st, n, p);
    if k == 0 {
      DirectDepends(st.w, st.edges, src, n, p);
    } else {
      assert Wf(st.w);
      hide Stable, Layer, DependsAt, Reads;
      forall c | c in CompsIn(Reads(st.w, p, []))
        ensures c in st.w.fn
        ensures SubComp(c) in Layer(st.edges, Subs(st.edges, src), k - 1) <==> DependsAt(st.w, st.w.fn[c], src, k - 1)
      {
        LayerDepends(st, src, SubComp(c), st.w.fn[c], k - 1);
      }
      StepDepends(st.w, st.edges, src, n, p, k);
    }
  }

  /** On a stable engine a change reaches an effect if and only if the effect depends on what changed. */
  lemma {:induction false} ReachesDependents(st: State, src: Source, e: Effect)
    requires Stable(st) && e in st.out && Closed(e.fn, st.w)
    ensures Reach(st.edges, Subs(st.edges, src), SubEff(e)) <==> DependsOn(st.w, e.fn, src)
  {
    forall k: nat
      ensures SubEff(e) in Layer(st.edges, Subs(st.edges, src), k) <==> DependsAt(st.w, e.fn, src, k)
    {
      LayerDepends(st, src, SubEff(e), e.fn, k);
    }
  }

  // ---------------------------------------------------------------------
  // Runs
  // ---------------------------------------------------------------------

  /** Nodes are created during a run; functions can mention a node before it is created. */
  datatype Op =
    | NewSignal(s: Signal, v: Value)
    | NewComputeds(fns: map<Computed, Fn>)
    | NewEffect(p: Fn)
    | SetSignal(s: Signal, v: Value)
    | SetFunction(c: Computed, p: Fn)
    | GetComputed(c: Computed)

  /** What a run shows: the values that gets returned, and whether it stopped with an error. */
  datatype Outcome = Outcome(values: seq<Value>, raised: bool)

  /** The objects that op creates as nodes. */
  ghost function NodesOf(op: Op): set<object> {
    match op
    case NewSignal(s, _) => {s}
    case NewComputeds(fns) => set c | c in fns.Keys :: c as object
    case _ => {}
  }

  ghost function NewNodes(ops: seq<Op>): set<object> {
    if ops == [] then {} else NodesOf(ops[0]) + NewNodes(ops[1..])
  }

  ghost predicate OpKnown(op: Op, w: World) {
    match op
    case NewSignal(s, _) => s !in w.sig
    case NewComputeds(fns) => fns.Keys !! w.fn.Keys && Wf(World(w.sig, w.fn + fns))
    case NewEffect(p) => Closed(p, w)
    case SetSignal(s, _) => s in w.sig
    case SetFunction(c, p) => c in w.fn && Closed(p, w)
    case GetComputed(c) => c in w.fn
  }

  ghost function WorldAfter(w: World, op: Op): World {
    match op
    case NewSignal(s, v) => World(w.sig[s := v], w.fn)
    case NewComputeds(fns) => World(w.sig, w.fn + fns)
    case SetSignal(s, v) => World(w.sig[s := v], w.fn)
    case SetFunction(c, p) => World(w.sig, w.fn[c := p])
    case _ => w
  }

  /** The functions of the effects that exist after op. */
  ghost function EffectsAfter(fns: set<Fn>, op: Op): set<Fn> {
    if op.NewEffect? then fns + {op.p} else fns
  }

  ghost predicate AllClosed(w: World, fns: set<Fn>) {
    Wf(w) && forall p :: p in fns ==> Closed(p, w)
  }

  ghost predicate AnyCycle(w: World, fns: set<Fn>)
    requires AllClosed(w, fns)
  {
    exists p :: p in fns && Run(w, p, [], {}) == Cycle
  }

  /** Each operation uses the nodes that exist by then, and creates others. */
  ghost predicate AllKnown(ops: seq<Op>, w: World) {
    ops != [] ==> OpKnown(ops[0], w) && AllKnown(ops[1..], WorldAfter(w, ops[0]))
  }

  lemma {:induction false} AfterClosed(w: World, fns: set<Fn>, op: Op)
    requires AllClosed(w, fns) && OpKnown(op, w)
    ensures AllClosed(WorldAfter(w, op), EffectsAfter(fns, op))
  {
    WiderWorld(w, WorldAfter(w, op));
  }

  /** What one operation shows when everything is computed from scratch. */
  ghost function Scratch(w: World, fns: set<Fn>, op: Op): Outcome
    requires AllClosed(w, fns) && OpKnown(op, w)
  {
    AfterClosed(w, fns, op);
    if op.GetComputed? then
      match Eval(w, op.c, {})
      case Cycle => Outcome([], true)
      case Ok(v) => Outcome([v], false)
    else Outcome([], AnyCycle(WorldAfter(w, op), EffectsAfter(fns, op)))
  }

  /** The run without an engine: no cache, no edges, no marking. */
  ghost function Replay(w: World, fns: set<Fn>, ops: seq<Op>): Outcome
    requires AllClosed(w, fns) && AllKnown(ops, w)
    decreases |ops|
  {
    if ops == [] then Outcome([], false)
    else
      AfterClosed(w, fns, ops[0]);
      var first := Scratch(w, fns, ops[0]);
      if first.raised then first
      else
        var rest := Replay(WorldAfter(w, ops[0]), EffectsAfter(fns, ops[0]), ops[1..]);
        Outcome(first.values + rest.values, rest.raised)
  }

  /** op makes an effect with the function p run again. */
  ghost predicate Reruns(w: World, op: Op, p: Fn)
    requires Wf(w) && Closed(p, w) && OpKnown(op, w)
  {
    match op
    case SetSignal(s, v) => v != w.sig[s] && DependsOn(w, p, Sig(s))
    case SetFunction(c, _) => DependsOn(w, p, Comp(c))
    case _ => false
  }

  /** How often ops make an effect with the function p run again. */
  ghost function RerunsIn(w: World, ops: seq<Op>, p: Fn): nat
    requires Wf(w) && Closed(p, w) && AllKnown(ops, w)
    decreases |ops|
  {
    if ops == [] then 0
    else
      AfterClosed(w, {p}, ops[0]);
      (if Reruns(w, ops[0], p) then 1 else 0) + RerunsIn(WorldAfter(w, ops[0]), ops[1..], p)
  }

  /** Each effect ran again exactly if op makes it, and a new one ran once. */
  ghost predicate Counted(st: State, st': State, op: Op)
    requires Wf(st.w) && OpKnown(op, st.w) && forall e :: e in st.out ==> Closed(e.fn, st.w)
  {
    && st.runs.Keys == st.out.Keys && st'.runs.Keys == st'.out.Keys && st.out.Keys <= st'.out.Keys
    && forall e :: e in st'.out ==>
         st'.runs[e] == if e in st.out then st.runs[e] + (if Reruns(st.w, op, e.fn) then 1 else 0) else 1
  }

  /** Each effect of st has run again as often as ops make it. */
  ghost predicate CountedAll(st: State, st': State, ops: seq<Op>)
    requires Wf(st.w) && AllKnown(ops, st.w) && forall e :: e in st.out ==> Closed(e.fn, st.w)
  {
    forall e :: e in st.out ==> e in st.runs && e in st'.runs && st'.runs[e] == st.runs[e] + RerunsIn(st.w, ops, e.fn)
  }

  lemma {:induction false} CountedOn(st: State, st1: State, st': State, ops: seq<Op>)
    requires Wf(st.w) && ops != [] && AllKnown(ops, st.w) && forall e :: e in st.out ==> Closed(e.fn, st.w)
    requires st1.w == WorldAfter(st.w, ops[0]) && Wf(st1.w) && forall e :: e in st1.out ==> Closed(e.fn, st1.w)
    requires Counted(st, st1, ops[0]) && CountedAll(st1, st', ops[1..])
    ensures CountedAll(st, st', ops)
  {}

  lemma {:induction false} QuietCounted(st: State, st': State, op: Op)
    requires Stable(st) && OpKnown(op, st.w) && !op.SetFunction? && !op.NewEffect?
    requires op.SetSignal? ==> op.v == st.w.sig[op.s]
    requires st'.runs == st.runs && st'.out.Keys == st.out.Keys
    ensures Counted(st, st', op)
  {}

  lemma {:induction false} LaunchedCounted(st: State, st': State, e: Effect)
    requires Stable(st) && Closed(e.fn, st.w) && e !in st.out && Launched(st, st', e)
    ensures Counted(st, st', NewEffect(e.fn))
  {}

  lemma {:induction false} ChangeCounted(st: State, st': State, op: Op, src: Source, D: set<Computed>)
    requires Stable(st) && OpKnown(op, st.w)
    requires match op
             case SetSignal(s, v) => src == Sig(s) && v != st.w.sig[s]
             case SetFunction(c, _) => src == Comp(c)
             case _ => false
    requires Refreshed(st, st', st'.w, D, Subs(st.edges, src))
    ensures Counted(st, st', op)
  {
    forall e | e in st.out
      ensures st'.runs[e] == st.runs[e] + if Reruns(st.w, op, e.fn) then 1 else 0
    {
      ReachesDependents(st, src, e);
    }
  }

  ghost function FnsOf(st: State): set<Fn> {
    set e | e in st.out :: e.fn
  }

  lemma {:induction false} StableRuns(st: State)
    requires Stable(st)
    ensures AllClosed(st.w, FnsOf(st)) && !AnyCycle(st.w, FnsOf(st))
  {
    forall e | e in st.out
      ensures Run(st.w, e.fn, [], {}).Ok?
    {
      assert Quiet(st, e) && EffOk(st, e);
    }
  }

  lemma {:induction false} SameEffects(st: State, st': State)
    requires st'.out.Keys == st.out.Keys
    ensures FnsOf(st') == FnsOf(st)
  {
    assert forall e :: e in st.out <==> e in st'.out;
  }

  lemma {:induction false} OneMoreEffect(st: State, st': State, e: Effect)
    requires st'.out.Keys == st.out.Keys + {e}
    ensures FnsOf(st') == FnsOf(st) + {e.fn}
  {
    forall p | p in FnsOf(st) + {e.fn}
      ensures p in FnsOf(st')
    {
      if p in FnsOf(st) {
        var x :| x in st.out && x.fn == p;
        assert x in st'.out;
      } else {
        assert e in st'.out;
      }
    }
  }

  lemma {:induction false} CycleOfFns(st: State, w: World)
    requires AllClosed(w, FnsOf(st)) && forall e :: e in st.out ==> Closed(e.fn, w)
    ensures AnyCycle(w, FnsOf(st)) <==> SomeCycle(w, st.out.Keys)
  {
    if e :| e in st.out && Run(w, e.fn, [], {}) == Cycle {
      assert e.fn in FnsOf(st);
    }
  }

  /** st' is st after op: what it shows is as from scratch, and it is stable unless that raised. */
  ghost predicate Performed(st: State, st': State, op: Op, value: seq<Value>, raised: bool)
    requires OpKnown(op, st.w)
  {
    && AllClosed(st.w, FnsOf(st)) && Outcome(value, raised) == Scratch(st.w, FnsOf(st), op)
    && st'.w == WorldAfter(st.w, op) && FnsOf(st') == EffectsAfter(FnsOf(st), op)
    && (Stable(st') <==> !raised)
  }

  lemma {:induction false} CreatedPerformed(st: State, st': State, op: Op)
    requires Stable(st) && OpKnown(op, st.w) && (op.NewSignal? || op.NewComputeds?)
    requires Stable(st') && st'.w == WorldAfter(st.w, op) && st'.out.Keys == st.out.Keys
    ensures Performed(st, st', op, [], false)
  {
    SameEffects(st, st');
    StableRuns(st);
    StableRuns(st');
  }

  lemma {:induction false} LaunchedPerformed(st: State, st': State, p: Fn, e: Effect, raised: bool)
    requires Stable(st) && Closed(p, st.w) && e.fn == p
    requires st'.w == st.w && st'.out.Keys == st.out.Keys + {e}
    requires (raised <==> Run(st.w, p, [], {}) == Cycle) && (!raised ==> Stable(st'))
    ensures Performed(st, st', NewEffect(p), [], raised)
  {
    OneMoreEffect(st, st', e);
    StableRuns(st);
    AfterClosed(st.w, FnsOf(st), NewEffect(p));
    assert p in EffectsAfter(FnsOf(st), NewEffect(p));
    if Stable(st') {
      StableRuns(st');
    }
  }

  lemma {:induction false} ChangePerformed(st: State, st': State, op: Op, raised: bool)
    requires Stable(st) && OpKnown(op, st.w) && (op.SetSignal? || op.SetFunction?)
    requires st'.w == WorldAfter(st.w, op) && st'.out.Keys == st.out.Keys && Wf(st'.w)
    requires forall e :: e in st.out ==> Closed(e.fn, st'.w)
    requires (raised <==> SomeCycle(st'.w, st.out.Keys)) && (!raised ==> Stable(st'))
    ensures Performed(st, st', op, [], raised)
  {
    SameEffects(st, st');
    StableRuns(st);
    AfterClosed(st.w, FnsOf(st), op);
    CycleOfFns(st, st'.w);
    if Stable(st') {
      StableRuns(st');
    }
  }

  /** Setting a signal to the value it has. */
  lemma {:induction false} UnchangedPerformed(st: State, s: Signal)
    requires Stable(st) && s in st.w.sig
    ensures Performed(st, st, SetSignal(s, st.w.sig[s]), [], false)
  {
    assert st.w.sig[s := st.w.sig[s]] == st.w.sig;
    StableRuns(st);
  }

  lemma {:induction false} GetPerformed(st: State, st': State, c: Computed, r: Result)
    requires Stable(st) && c in st.w.fn && r == Eval(st.w, c, {})
    requires st'.w == st.w && st'.out.Keys == st.out.Keys && (Stable(st') <==> r.Ok?)
    ensures Performed(st, st', GetComputed(c), if r.Ok? then [r.v] else [], r.Cycle?)
  {
    SameEffects(st, st');
    StableRuns(st);
  }

  method PerformNewSignal(rt: Runtime, s: Signal, v: Value)
    requires rt.Valid() && Stable(rt.st) && OpKnown(NewSignal(s, v), rt.st.w)
    modifies rt, s
    ensures rt.Valid() && Performed(old(rt.st), rt.st, NewSignal(s, v), [], false)
    ensures Counted(old(rt.st), rt.st, NewSignal(s, v))
    ensures rt.st.out.Keys == old(rt.st).out.Keys
  {
    ghost var st0 := rt.st;
    s.Init(rt, v);
    CreatedPerformed(st0, rt.st, NewSignal(s, v));
    QuietCounted(st0, rt.st, NewSignal(s, v));
  }

  method PerformNewComputeds(rt: Runtime, fns: map<Computed, Fn>)
    requires rt.Valid() && Stable(rt.st) && OpKnown(NewComputeds(fns), rt.st.w)
    modifies rt, fns.Keys
    ensures rt.Valid() && Performed(old(rt.st), rt.st, NewComputeds(fns), [], false)
    ensures Counted(old(rt.st), rt.st, NewComputeds(fns))
    ensures rt.st.out.Keys == old(rt.st).out.Keys
  {
    ghost var st0 := rt.st;
    ghost var vals := Computed.CreateAll(rt, fns);
    CreatedPerformed(st0, rt.st, NewComputeds(fns));
    QuietCounted(st0, rt.st, NewComputeds(fns));
  }

  method PerformNewEffect(rt: Runtime, p: Fn) returns (raised: bool)
    requires rt.Valid() && Stable(rt.st) && OpKnown(NewEffect(p), rt.st.w)
    modifies rt, rt.st.w.sig.Keys, rt.st.w.fn.Keys, rt.st.out.Keys
    ensures rt.Valid() && Performed(old(rt.st), rt.st, NewEffect(p), [], raised)
    ensures !raised ==> Counted(old(rt.st), rt.st, NewEffect(p))
    ensures fresh(rt.st.out.Keys - old(rt.st).out.Keys)
  {
    ghost var st0 := rt.st;
    var e;
    e, raised := Effect.Create(rt, p);
    LaunchedPerformed(st0, rt.st, p, e, raised);
    if !raised {
      LaunchedCounted(st0, rt.st, e);
    }
  }

  method PerformSet(rt: Runtime, s: Signal, v: Value) returns (raised: bool)
    requires rt.Valid() && Stable(rt.st) && OpKnown(SetSignal(s, v), rt.st.w)
    modifies rt, rt.st.w.sig.Keys, rt.st.w.fn.Keys, rt.st.out.Keys
    ensures rt.Valid() && Performed(old(rt.st), rt.st, SetSignal(s, v), [], raised)
    ensures !raised ==> Counted(old(rt.st), rt.st, SetSignal(s, v))
    ensures rt.st.out.Keys == old(rt.st).out.Keys
  {
    ghost var st0 := rt.st;
    raised := s.Set(rt, v);
    if v == st0.w.sig[s] {
      UnchangedPerformed(st0, s);
      QuietCounted(st0, st0, SetSignal(s, v));
    } else {
      ChangePerformed(st0, rt.st, SetSignal(s, v), raised);
      if !raised {
        ChangeCounted(st0, rt.st, SetSignal(s, v), Sig(s), {});
      }
    }
  }

  method PerformRefit(rt: Runtime, c: Computed, p: Fn) returns (raised: bool)
    requires rt.Valid() && Stable(rt.st) && OpKnown(SetFunction(c, p), rt.st.w)
    modifies rt, rt.st.w.sig.Keys, rt.st.w.fn.Keys, rt.st.out.Keys
    ensures rt.Valid() && Performed(old(rt.st), rt.st, SetFunction(c, p), [], raised)
    ensures !raised ==> Counted(old(rt.st), rt.st, SetFunction(c, p))
    ensures rt.st.out.Keys == old(rt.st).out.Keys
  {
    ghost var st0 := rt.st;
    raised := c.Refit(rt, p);
    ChangePerformed(st0, rt.st, SetFunction(c, p), raised);
    if !raised {
      ChangeCounted(st0, rt.st, SetFunction(c, p), Comp(c), {c});
    }
  }

  method PerformGet(rt: Runtime, c: Computed) returns (value: seq<Value>, raised: bool)
    requires rt.Valid() && Stable(rt.st) && OpKnown(GetComputed(c), rt.st.w)
    modifies rt, rt.st.w.sig.Keys, rt.st.w.fn.Keys, rt.st.out.Keys
    ensures rt.Valid() && Performed(old(rt.st), rt.st, GetComputed(c), value, raised)
    ensures Counted(old(rt.st), rt.st, GetComputed(c))
    ensures rt.st.out.Keys == old(rt.st).out.Keys
  {
    ghost var st0 := rt.st;
    var r := c.Get(rt);
    value, raised := if r.Ok? then [r.v] else [], r.Cycle?;
    assert Elems(st0.stack) == {};
    GetPerformed(st0, rt.st, c, r);
    QuietCounted(st0, rt.st, GetComputed(c));
  }

  method Perform(rt: Runtime, op: Op) returns (value: seq<Value>, raised: bool)
    requires rt.Valid() && Stable(rt.st) && OpKnown(op, rt.st.w)
    modifies rt, rt.st.w.sig.Keys, rt.st.w.fn.Keys, rt.st.out.Keys, NodesOf(op)
    ensures rt.Valid() && Performed(old(rt.st), rt.st, op, value, raised)
    ensures !raised ==> Counted(old(rt.st), rt.st, op)
    ensures fresh(rt.st.out.Keys - old(rt.st).out.Keys)
  {
    value, raised := [], false;
    match op {
      case NewSignal(s, v) => PerformNewSignal(rt, s, v);
      case NewComputeds(fns) => PerformNewComputeds(rt, fns);
      case NewEffect(p) => raised := PerformNewEffect(rt, p);
      case SetSignal(s, v) => raised := PerformSet(rt, s, v);
      case SetFunction(c, p) => raised := PerformRefit(rt, c, p);
      case GetComputed(c) => value, raised := PerformGet(rt, c);
    }
  }

  /**
   * Any operations in any order: the engine returns the values and raises the errors of the run
   * without an engine, and ends stable exactly when it did not raise. If it did not, each effect
   * has run again once for each change of what it depends on, and no more.
   */
  method RunOps(rt: Runtime, ops: seq<Op>) returns (values: seq<Value>, raised: bool)
    requires rt.Valid() && Stable(rt.st) && AllKnown(ops, rt.st.w)
    modifies rt, rt.st.w.sig.Keys, rt.st.w.fn.Keys, rt.st.out.Keys, NewNodes(ops)
    ensures rt.Valid() && AllClosed(old(rt.st).w, FnsOf(old(rt.st)))
    ensures Outcome(values, raised) == Replay(old(rt.st).w, FnsOf(old(rt.st)), ops)
    ensures Stable(rt.st) <==> !raised
    ensures forall e :: e in old(rt.st).out ==> Closed(e.fn, old(rt.st).w)
    ensures !raised ==> CountedAll(old(rt.st), rt.st, ops)
    decreases |ops|
  {
    ghost var st0 := rt.st;
    StableRuns(st0);
    values, raised := [], false;
    if ops != [] {
      values, raised := Perform(rt, ops[0]);
      if !raised {
        ghost var st1 := rt.st;
        var rest;
        rest, raised := RunOps(rt, ops[1..]);
        values := values + rest;
        if !raised {
          CountedOn(st0, st1, rt.st, ops);
        }
      }
    }
  }

  // ---------------------------------------------------------------------
  // Cycles
  // ---------------------------------------------------------------------

  lemma {:induction false} RankedRuns(w: World, rank: map<Computed, nat>, p: Fn, h: seq<Value>)
    requires Wf(w) && Ranked(w, rank) && Closed(p, w)
    ensures Run(w, p, h, {}).Ok?
    decreases Distance(p, h)
  {
    match p.step(h)
    case Ret(_) =>
    case Read(src) =>
      if src.Comp? {
        RankedNeverCycles(w, rank, src.c, {});
      }
      var v := Lookup(w, src, {}).v;
      ReadsOn(p, h, v);
      RankedRuns(w, rank, p, h + [v]);
  }

  /** Each world on the way is acyclic; which node comes before which may change. */
  ghost predicate StaysAcyclic(w: World, ops: seq<Op>)
    decreases |ops|
  {
    && (exists rank :: Ranked(w, rank))
    && (ops != [] ==> StaysAcyclic(WorldAfter(w, ops[0]), ops[1..]))
  }

  /** While every world on the way is acyclic, no run raises. */
  lemma {:induction false} AcyclicNeverRaises(w: World, fns: set<Fn>, ops: seq<Op>)
    requires AllClosed(w, fns) && AllKnown(ops, w) && StaysAcyclic(w, ops)
    ensures !Replay(w, fns, ops).raised
    decreases |ops|
  {
    if ops != [] {
      var op := ops[0];
      AfterClosed(w, fns, op);
      var w', fns' := WorldAfter(w, op), EffectsAfter(fns, op);
      var rank :| Ranked(w', rank);
      forall p | p in fns'
        ensures Run(w', p, [], {}).Ok?
      {
        RankedRuns(w', rank, p, []);
      }
      if op.GetComputed? {
        RankedNeverCycles(w, rank, op.c, {});
      }
      AcyclicNeverRaises(w', fns', ops[1..]);
    }
  }

  /** A function that reads one computed and returns its value. */
  function Copy(c: Computed): Fn {
    Fn((h: seq<Value>) => if h == [] then Read(Comp(c)) else Ret(h[0]))
  }

  lemma {:induction false} CopyHalts(c: Computed)
    ensures forall h: seq<Value> :: Halts(Copy(c), h)
  {
    forall h: seq<Value>
      ensures Halts(Copy(c), h)
    {
      if h == [] {
        forall v: Value
          ensures Halts(Copy(c), h + [v])
        {}
      }
    }
  }

  lemma {:induction false} CopyCycles(w: World, c: Computed, S: set<Computed>)
    requires Wf(w) && c in w.fn && Closed(Copy(c), w) && Eval(w, c, S) == Cycle
    ensures Run(w, Copy(c), [], S) == Cycle
  {
    assert Copy(c).step([]) == Read(Comp(c));
    assert Lookup(w, Comp(c), S) == Cycle;
  }

  lemma {:induction false} MutualCycles(w: World, a: Computed, b: Computed)
    requires Wf(w) && a != b && w.fn == map[a := Copy(b), b := Copy(a)]
    ensures Eval(w, a, {}) == Cycle
  {
    assert w.fn[a] == Copy(b) && w.fn[b] == Copy(a);
    CopyCycles(w, a, {} + {a} + {b});
    CopyCycles(w, b, {} + {a});
  }

  lemma {:induction false} MutualKnown(a: Computed, b: Computed)
    requires a != b
    ensures Wf(World(map[], map[a := Copy(b), b := Copy(a)]))
  {
    CopyHalts(a);
    CopyHalts(b);
  }

  /**
   * Two computeds that read each other: the get raises, and it leaves the first one marked clean
   * although it has no from-scratch value, so that the engine is not stable any more.
   */
  method MutualRead(rt: Runtime) returns (a: Computed, raised: bool)
    requires rt.Valid() && Stable(rt.st) && rt.st.w == World(map[], map[])
    modifies rt, rt.st.out.Keys
    ensures rt.Valid() && a in rt.st.w.fn && Wf(rt.st.w) && Eval(rt.st.w, a, {}) == Cycle
    ensures raised && a !in rt.st.dirty && !Stable(rt.st)
  {
    a := new Computed();
    var b := new Computed();
    var fns := map[a := Copy(b), b := Copy(a)];
    MutualKnown(a, b);
    assert rt.st.w.fn + fns == fns;
    ghost var vals := Computed.CreateAll(rt, fns);
    assert rt.st.w == World(map[], fns);
    MutualCycles(rt.st.w, a, b);
    assert Elems(rt.st.stack) == {};
    var r := a.Get(rt);
    raised := r.Cycle?;
  }
}
