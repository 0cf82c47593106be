/**
 * The reactive core: signals, memoised computeds and effects, updated by
 * mark-and-pull.
 *
 * The first half is the reference: Eval re-evaluates a node from scratch, with
 * no cache, against a World of signal values and functions. The second half is
 * the engine, whose objects cache values, dirty flags and dependency edges. The
 * ghost field Runtime.st mirrors every field of every object in one value, so
 * that what the engine keeps (Inv) is stated, and mostly proved, on values.
 */
module Reactive {
  type Value(==, 0, !new)

  datatype Source = Sig(s: Signal) | Comp(c: Computed)
  datatype Sub = SubComp(c: Computed) | SubEff(e: Effect)

  /** What a function does next, given the values it has read so far. */
  datatype Step = Ret(v: Value) | Read(src: Source)
  datatype Fn = Fn(step: seq<Value> -> Step)

  datatype Result = Ok(v: Value) | Cycle

  /** Everything from-scratch evaluation depends on. */
  datatype World = World(sig: map<Signal, Value>, fn: map<Computed, Fn>)

  // ---------------------------------------------------------------------
  // From-scratch evaluation
  // ---------------------------------------------------------------------

  ghost predicate Known(src: Source, w: World) {
    match src
    case Sig(s) => s in w.sig
    case Comp(c) => c in w.fn
  }

  /** After the values h, p returns in the end, whatever it goes on to read. */
  least predicate Halts(p: Fn, h: seq<Value>) {
    p.step(h).Ret? || forall v: Value :: Halts(p, h + [v])
  }

  /** How far p is from returning: reading one more value brings it closer. */
  ghost function Distance(p: Fn, h: seq<Value>): ORDINAL
    requires Halts(p, h)
  {
    LeastExists(p, h);
    var m: ORDINAL :| Halts#[m](p, h) && forall j: ORDINAL :: j < m ==> !Halts#[j](p, h);
    m
  }

  lemma {:induction false} LeastExists(p: Fn, h: seq<Value>)
    requires Halts(p, h)
    ensures exists m: ORDINAL :: Halts#[m](p, h) && forall j: ORDINAL :: j < m ==> !Halts#[j](p, h)
  {
    var k: ORDINAL :| Halts#[k](p, h);
    var m := Least(p, h, k);
  }

  lemma {:induction false} Least(p: Fn, h: seq<Value>, k: ORDINAL) returns (m: ORDINAL)
    requires Halts#[k](p, h)
    ensures Halts#[m](p, h) && forall j: ORDINAL :: j < m ==> !Halts#[j](p, h)
    decreases k
  {
    if j: ORDINAL :| j < k && Halts#[j](p, h) {
      m := Least(p, h, j);
    } else {
      m := k;
    }
  }

  lemma {:induction false} ReadsOn(p: Fn, h: seq<Value>, v: Value)
    requires Halts(p, h) && p.step(h).Read? && Halts(p, h + [v])
    ensures Distance(p, h + [v]) < Distance(p, h)
  {
    var m := Distance(p, h);
    assert Halts#[m](p, h);
  }

  /** p reads known sources only, and returns in the end whatever values it reads. */
  ghost predicate Closed(p: Fn, w: World) {
    && (forall h: seq<Value> :: Halts(p, h))
    && (forall h: seq<Value> :: p.step(h).Read? ==> Known(p.step(h).src, w))
  }

  ghost predicate Wf(w: World) {
    forall c :: c in w.fn ==> Closed(w.fn[c], w)
  }

  /** The value of c when everything is recomputed; S holds the computeds under evaluation. */
  ghost function Eval(w: World, c: Computed, S: set<Computed>): Result
    requires Wf(w) && c in w.fn
    decreases w.fn.Keys - S, 0
  {
    if c in S then Cycle else Run(w, w.fn[c], [], S + {c})
  }

  ghost function Lookup(w: World, src: Source, S: set<Computed>): Result
    requires Wf(w) && Known(src, w)
    decreases w.fn.Keys - S, 1
  {
    match src
    case Sig(s) => Ok(w.sig[s])
    case Comp(c) => Eval(w, c, S)
  }

  ghost function Run(w: World, p: Fn, h: seq<Value>, S: set<Computed>): Result
    requires Wf(w) && Closed(p, w)
    decreases w.fn.Keys - S, 2, Distance(p, h)
  {
    match p.step(h)
    case Ret(v) => Ok(v)
    case Read(src) =>
      match Lookup(w, src, S)
      case Cycle => Cycle
      case Ok(v) => ReadsOn(p, h, v); Run(w, p, h + [v], S)
  }

  /** The sources p reads, on from-scratch values, after the history h. */
  ghost function Reads(w: World, p: Fn, h: seq<Value>): set<Source>
    requires Wf(w) && Closed(p, w)
    decreases Distance(p, h)
  {
    match p.step(h)
    case Ret(_) => {}
    case Read(src) =>
      {src} + (match Lookup(w, src, {}) case Cycle => {} case Ok(v) => ReadsOn(p, h, v); Reads(w, p, h + [v]))
  }

  ghost function CompsIn(srcs: set<Source>): set<Computed> {
    set x | x in srcs && x.Comp? :: x.c
  }

  /** Evaluation that succeeds inside a larger evaluation succeeds alone, with the same value. */
  lemma {:induction false} EvalShrink(w: World, c: Computed, S: set<Computed>, T: set<Computed>)
    requires Wf(w) && c in w.fn && T <= S && Eval(w, c, S).Ok?
    ensures Eval(w, c, T) == Eval(w, c, S)
    decreases w.fn.Keys - S, 0
  {
    RunShrink(w, w.fn[c], [], S + {c}, T + {c});
  }

  lemma {:induction false} RunShrink(w: World, p: Fn, h: seq<Value>, S: set<Computed>, T: set<Computed>)
    requires Wf(w) && Closed(p, w) && T <= S && Run(w, p, h, S).Ok?
    ensures Run(w, p, h, T) == Run(w, p, h, S)
    decreases w.fn.Keys - S, 2, Distance(p, h)
  {
    match p.step(h)
    case Ret(_) =>
    case Read(src) =>
      if src.Comp? {
        EvalShrink(w, src.c, S, T);
      }
      var v := Lookup(w, src, S).v;
      ReadsOn(p, h, v);
      RunShrink(w, p, h + [v], S, T);
  }

  // A cycle can be told without the evaluator's set: some chain of reads comes back.

  /** Each node of the chain reads the next, on from-scratch values. */
  ghost predicate ReadsChain(w: World, older ch: seq<Computed>)
    requires Wf(w)
  {
    && ch != [] && (forall i :: 0 <= i < |ch| ==> ch[i] in w.fn)
    && forall i :: 0 <= i < |ch| - 1 ==> ReadsNext(w, ch[i], ch[i + 1])
  }

  ghost predicate ReadsNext(w: World, c: Computed, d: Computed)
    requires Wf(w)
  {
    c in w.fn && d in CompsIn(Reads(w, w.fn[c], []))
  }

  /** What a successful evaluation reads can be evaluated in its place. */
  lemma {:induction false} OkRead(w: World, p: Fn, h: seq<Value>, S: set<Computed>, d: Computed)
    requires Wf(w) && Closed(p, w) && Run(w, p, h, S).Ok? && d in CompsIn(Reads(w, p, h))
    ensures d in w.fn && Eval(w, d, S).Ok?
    decreases Distance(p, h)
  {
    var src := p.step(h).src;
    if src != Comp(d) {
      if src.Comp? {
        EvalShrink(w, src.c, S, {});
      }
      var v := Lookup(w, src, S).v;
      ReadsOn(p, h, v);
      OkRead(w, p, h + [v], S, d);
    }
  }

  lemma {:induction false} OkChain(w: World, ch: seq<Computed>, S: set<Computed>)
    requires Wf(w) && ReadsChain(w, ch) && Eval(w, ch[0], S).Ok?
    ensures Distinct(ch) && forall i :: 0 <= i < |ch| ==> ch[i] !in S
    decreases |ch|
  {
    if |ch| > 1 {
      var c, rest := ch[0], ch[1..];
      assert ReadsNext(w, c, ch[1]);
      OkRead(w, w.fn[c], [], S + {c}, ch[1]);
      forall i | 0 <= i < |rest| - 1
        ensures ReadsNext(w, rest[i], rest[i + 1])
      {
        assert ReadsNext(w, ch[i + 1], ch[i + 2]);
      }
      OkChain(w, rest, S + {c});
      assert forall i :: 0 < i < |ch| ==> ch[i] == rest[i - 1];
    }
  }

  /** A failing run fails at one of the nodes it reads. */
  lemma {:induction false} CycleRead(w: World, p: Fn, h: seq<Value>, S: set<Computed>) returns (d: Computed)
    requires Wf(w) && Closed(p, w) && Run(w, p, h, S) == Cycle
    ensures d in w.fn && d in CompsIn(Reads(w, p, h)) && Eval(w, d, S) == Cycle
    decreases Distance(p, h)
  {
    var src := p.step(h).src;
    if Lookup(w, src, S) == Cycle {
      d := src.c;
    } else {
      if src.Comp? {
        EvalShrink(w, src.c, S, {});
      }
      var v := Lookup(w, src, S).v;
      ReadsOn(p, h, v);
      d := CycleRead(w, p, h + [v], S);
    }
  }

  lemma {:induction false} CycleChain(w: World, c: Computed, S: set<Computed>) returns (ch: seq<Computed>)
    requires Wf(w) && c in w.fn && Eval(w, c, S) == Cycle
    ensures ReadsChain(w, ch) && ch[0] == c && (ch[|ch| - 1] in S || !Distinct(ch))
    decreases w.fn.Keys - S
  {
    if c in S {
      ch := [c];
    } else {
      var d := CycleRead(w, w.fn[c], [], S + {c});
      var rest := CycleChain(w, d, S + {c});
      ch := [c] + rest;
      assert ReadsNext(w, c, d);
      assert forall i :: 0 < i < |ch| - 1 ==> ch[i] == rest[i - 1] && ch[i + 1] == rest[i];
      if !Distinct(rest) {
        var i, j :| 0 <= i < j < |rest| && rest[i] == rest[j];
        assert ch[i + 1] == ch[j + 1];
      } else {
        assert ch[|ch| - 1] == rest[|rest| - 1];
      }
    }
  }

  /** From-scratch evaluation fails if and only if some chain of reads meets a node twice. */
  lemma {:induction false} CycleExactly(w: World, c: Computed)
    requires Wf(w) && c in w.fn
    ensures Eval(w, c, {}) == Cycle <==>
            exists ch: seq<Computed> :: ReadsChain(w, ch) && ch[0] == c && !Distinct(ch)
  {
    if Eval(w, c, {}) == Cycle {
      var ch := CycleChain(w, c, {});
    } else {
      forall ch: seq<Computed> | ReadsChain(w, ch) && ch[0] == c
        ensures Distinct(ch)
      {
        OkChain(w, ch, {});
      }
    }
  }

  /** Every member of K has a from-scratch value and reads computeds of K only. */
  ghost predicate Settled(w: World, K: set<Computed>)
    requires Wf(w)
  {
    forall c :: c in K ==> c in w.fn && Eval(w, c, {}).Ok? && CompsIn(Reads(w, w.fn[c], [])) <= K
  }

  /** A settled computed never re-enters an evaluation in progress outside its own closure. */
  lemma {:induction false} EvalGrow(w: World, c: Computed, T: set<Computed>, S: set<Computed>, K: set<Computed>)
    requires Wf(w) && Settled(w, K) && c in K && K !! S && Eval(w, c, T).Ok?
    ensures Eval(w, c, T + S) == Eval(w, c, T)
    decreases w.fn.Keys - T, 0
  {
    RunGrow(w, w.fn[c], [], T + {c}, S, K);
    assert T + {c} + S == T + S + {c};
  }

  lemma {:induction false} RunGrow(w: World, p: Fn, h: seq<Value>, T: set<Computed>, S: set<Computed>, K: set<Computed>)
    requires Wf(w) && Closed(p, w) && Settled(w, K) && CompsIn(Reads(w, p, h)) <= K && K !! S
    requires Run(w, p, h, T).Ok?
    ensures Run(w, p, h, T + S) == Run(w, p, h, T)
    decreases w.fn.Keys - T, 2, Distance(p, h)
  {
    match p.step(h)
    case Ret(_) =>
    case Read(src) =>
      if src.Comp? {
        assert src.c in CompsIn(Reads(w, p, h));
        EvalShrink(w, src.c, T, {});
        EvalGrow(w, src.c, T, S, K);
      }
      var v := Lookup(w, src, T).v;
      assert CompsIn(Reads(w, p, h + [v])) <= CompsIn(Reads(w, p, h));
      ReadsOn(p, h, v);
      RunGrow(w, p, h + [v], T, S, K);
  }

  // What a value is, told without an evaluator: the answers that a function was given lead it to
  // return that value, and the answers are the values of the sources.

  /** v is the answer to a read of src: the signal's value, or the value of a computed of K. */
  ghost predicate Replies(w: World, val: map<Computed, Value>, K: set<Computed>, src: Source, v: Value) {
    match src
    case Sig(s) => s in w.sig && v == w.sig[s]
    case Comp(d) => d in K && d in val && v == val[d]
  }

  /** p reads on through all of h, and h holds the answers. */
  ghost predicate Follows(w: World, val: map<Computed, Value>, K: set<Computed>, p: Fn, h: seq<Value>) {
    forall i :: 0 <= i < |h| ==> p.step(h[..i]).Read? && Replies(w, val, K, p.step(h[..i]).src, h[i])
  }

  /** Given its answers, p returns v. */
  ghost predicate Returns(w: World, val: map<Computed, Value>, K: set<Computed>, p: Fn, v: Value) {
    exists h :: Follows(w, val, K, p, h) && p.step(h) == Ret(v)
  }

  /** So does it, and it reads exactly srcs on the way. */
  ghost predicate ReturnsBy(w: World, val: map<Computed, Value>, K: set<Computed>, p: Fn, v: Value, srcs: set<Source>) {
    exists h :: Follows(w, val, K, p, h) && p.step(h) == Ret(v) && srcs == SourcesOf(p, h)
  }

  ghost function SourcesOf(p: Fn, h: seq<Value>): set<Source> {
    set i | 0 <= i < |h| && p.step(h[..i]).Read? :: p.step(h[..i]).src
  }

  /** Every computed of K returns its value. */
  ghost predicate Solves(w: World, val: map<Computed, Value>, K: set<Computed>) {
    forall c :: c in K ==> c in w.fn && c in val && Returns(w, val, K, w.fn[c], val[c])
  }

  /** Where val holds the from-scratch values, the answers are those of a from-scratch run. */
  lemma {:induction false} FollowedRun(w: World, val: map<Computed, Value>, K: set<Computed>, p: Fn, h: seq<Value>,
        i: nat)
    requires Wf(w) && Closed(p, w) && Follows(w, val, K, p, h) && p.step(h).Ret? && i <= |h|
    requires forall d :: d in K && d in w.fn && d in val ==> Eval(w, d, {}) == Ok(val[d])
    ensures Run(w, p, h[..i], {}) == Ok(p.step(h).v)
    ensures Reads(w, p, h[..i]) == set j | i <= j < |h| && p.step(h[..j]).Read? :: p.step(h[..j]).src
    decreases |h| - i
  {
    if i < |h| {
      FollowedRun(w, val, K, p, h, i + 1);
      assert h[..i + 1] == h[..i] + [h[i]];
    } else {
      assert h[..i] == h;
    }
  }

  /** A successful run has such answers. */
  lemma {:induction false} RunFollows(w: World, val: map<Computed, Value>, K: set<Computed>, p: Fn, h: seq<Value>)
      returns (h': seq<Value>)
    requires Wf(w) && Closed(p, w) && Run(w, p, h, {}).Ok? && Follows(w, val, K, p, h)
    requires forall d :: d in CompsIn(Reads(w, p, h)) ==>
               d in K && d in val && d in w.fn && Eval(w, d, {}) == Ok(val[d])
    ensures Follows(w, val, K, p, h') && p.step(h') == Ret(Run(w, p, h, {}).v)
    decreases Distance(p, h)
  {
    match p.step(h)
    case Ret(_) => h' := h;
    case Read(src) =>
      var v := Lookup(w, src, {}).v;
      if src.Comp? {
        assert src.c in CompsIn(Reads(w, p, h));
      }
      ReadsOn(p, h, v);
      FollowsSnoc(w, val, K, p, h, v);
      assert CompsIn(Reads(w, p, h + [v])) <= CompsIn(Reads(w, p, h));
      h' := RunFollows(w, val, K, p, h + [v]);
  }

  lemma {:induction false} FollowsSnoc(w: World, val: map<Computed, Value>, K: set<Computed>, p: Fn, h: seq<Value>,
        v: Value)
    requires Follows(w, val, K, p, h) && p.step(h).Read? && Replies(w, val, K, p.step(h).src, v)
    ensures Follows(w, val, K, p, h + [v])
  {
    forall i | 0 <= i < |h + [v]|
      ensures p.step((h + [v])[..i]).Read? && Replies(w, val, K, p.step((h + [v])[..i]).src, (h + [v])[i])
    {
      if i < |h| {
        assert (h + [v])[..i] == h[..i];
      } else {
        assert (h + [v])[..i] == h;
      }
    }
  }

  /** A run on from-scratch values of K returns as its answers say, and reads what they say. */
  lemma {:induction false} RunReturns(w: World, val: map<Computed, Value>, K: set<Computed>, p: Fn)
    requires Wf(w) && Closed(p, w) && Run(w, p, [], {}).Ok? && CompsIn(Reads(w, p, [])) <= K
    requires forall d :: d in K ==> d in w.fn && d in val && Eval(w, d, {}) == Ok(val[d])
    ensures ReturnsBy(w, val, K, p, Run(w, p, [], {}).v, Reads(w, p, []))
    ensures Returns(w, val, K, p, Run(w, p, [], {}).v)
  {
    var h := RunFollows(w, val, K, p, []);
    FollowedRun(w, val, K, p, h, 0);
    assert h[..0] == [];
    assert SourcesOf(p, h) == set j | 0 <= j < |h| && p.step(h[..j]).Read? :: p.step(h[..j]).src;
  }

  lemma {:induction false} EvalRuns(w: World, c: Computed)
    requires Wf(w) && c in w.fn && Eval(w, c, {}).Ok?
    ensures Run(w, w.fn[c], [], {}) == Eval(w, c, {})
  {
    RunShrink(w, w.fn[c], [], {} + {c}, {});
  }

  /** The from-scratch values solve a settled set. */
  lemma {:induction false} EvalSolves(w: World, val: map<Computed, Value>, K: set<Computed>)
    requires Wf(w) && Settled(w, K) && forall c :: c in K ==> c in val && Eval(w, c, {}) == Ok(val[c])
    ensures Solves(w, val, K)
  {
    forall c | c in K
      ensures Returns(w, val, K, w.fn[c], val[c])
    {
      EvalRuns(w, c);
      RunReturns(w, val, K, w.fn[c]);
    }
  }

  /** Whatever solves K gives the from-scratch value, where there is one. */
  lemma {:induction false} SolvedEval(w: World, val: map<Computed, Value>, K: set<Computed>, c: Computed,
        S: set<Computed>)
    requires Wf(w) && Solves(w, val, K) && c in K && Eval(w, c, S).Ok?
    ensures Eval(w, c, S) == Ok(val[c])
    decreases w.fn.Keys - S, 1, 0
  {
    var h :| Follows(w, val, K, w.fn[c], h) && w.fn[c].step(h) == Ret(val[c]);
    assert h[..0] == [];
    SolvedRun(w, val, K, w.fn[c], h, 0, S + {c});
  }

  lemma {:induction false} SolvedRun(w: World, val: map<Computed, Value>, K: set<Computed>, p: Fn, h: seq<Value>,
        i: nat, S: set<Computed>)
    requires Wf(w) && Closed(p, w) && Solves(w, val, K) && Follows(w, val, K, p, h) && p.step(h).Ret? && i <= |h|
    requires Run(w, p, h[..i], S).Ok?
    ensures Run(w, p, h[..i], S) == Ok(p.step(h).v)
    decreases w.fn.Keys - S, 2, |h| - i
  {
    if i < |h| {
      var src := p.step(h[..i]).src;
      if src.Comp? {
        SolvedEval(w, val, K, src.c, S);
      }
      assert h[..i + 1] == h[..i] + [h[i]];
      SolvedRun(w, val, K, p, h, i + 1, S);
    } else {
      assert h[..i] == h;
    }
  }

  /** A settled set has exactly one solution, the from-scratch values. */
  lemma {:induction false} SolvedOnce(w: World, val: map<Computed, Value>, K: set<Computed>)
    requires Wf(w) && Settled(w, K)
    ensures Solves(w, val, K) <==> forall c :: c in K ==> c in val && Eval(w, c, {}) == Ok(val[c])
  {
    if Solves(w, val, K) {
      forall c | c in K
        ensures c in val && Eval(w, c, {}) == Ok(val[c])
      {
        SolvedEval(w, val, K, c, {});
      }
    } else if forall c :: c in K ==> c in val && Eval(w, c, {}) == Ok(val[c]) {
      EvalSolves(w, val, K);
    }
  }

  // Which computeds have a value: those that can be ranked so that each reads lower ones only.

  ghost function Lower(rank: map<Computed, nat>, c: Computed): set<Computed>
    requires c in rank
  {
    set d | d in rank && rank[d] < rank[c]
  }

  /** Every ranked computed returns its value after reading only lower ones. */
  ghost predicate Grounded(w: World, older val: map<Computed, Value>, older rank: map<Computed, nat>) {
    && val.Keys == rank.Keys <= w.fn.Keys
    && forall c :: c in rank ==> Returns(w, val, Lower(rank, c), w.fn[c], val[c])
  }

  lemma {:induction false} GroundedEval(w: World, val: map<Computed, Value>, rank: map<Computed, nat>, c: Computed,
        S: set<Computed>)
    requires Wf(w) && Grounded(w, val, rank) && c in rank && forall d :: d in S && d in rank ==> rank[c] < rank[d]
    ensures Eval(w, c, S) == Ok(val[c])
    decreases rank[c], 1, 0
  {
    var h :| Follows(w, val, Lower(rank, c), w.fn[c], h) && w.fn[c].step(h) == Ret(val[c]);
    assert h[..0] == [];
    GroundedRun(w, val, rank, c, h, 0, S + {c});
  }

  lemma {:induction false} GroundedRun(w: World, val: map<Computed, Value>, rank: map<Computed, nat>, c: Computed,
        h: seq<Value>, i: nat, S: set<Computed>)
    requires Wf(w) && Grounded(w, val, rank) && c in rank && forall d :: d in S && d in rank ==> rank[c] <= rank[d]
    requires Follows(w, val, Lower(rank, c), w.fn[c], h) && w.fn[c].step(h).Ret? && i <= |h|
    ensures Run(w, w.fn[c], h[..i], S) == Ok(w.fn[c].step(h).v)
    decreases rank[c], 0, |h| - i
  {
    if i < |h| {
      var src := w.fn[c].step(h[..i]).src;
      if src.Comp? {
        GroundedEval(w, val, rank, src.c, S);
      }
      assert h[..i + 1] == h[..i] + [h[i]];
      GroundedRun(w, val, rank, c, h, i + 1, S);
    } else {
      assert h[..i] == h;
    }
  }

  /** The computeds that reads lead to from c. */
  ghost function Reached(w: World, c: Computed): set<Computed>
    requires Wf(w)
  {
    set d | d in w.fn && ReadsTo(w, c, d)
  }

  ghost predicate ReadsTo(w: World, c: Computed, d: Computed)
    requires Wf(w)
  {
    exists ch :: ReadsChain(w, ch) && |ch| > 1 && ch[0] == c && ch[|ch| - 1] == d
  }

  lemma {:induction false} ReachedShrinks(w: World, c: Computed, d: Computed)
    requires Wf(w) && ReadsNext(w, c, d) && Eval(w, c, {}).Ok?
    ensures d in w.fn && Eval(w, d, {}).Ok? && |Reached(w, d)| < |Reached(w, c)|
  {
    EvalRuns(w, c);
    OkRead(w, w.fn[c], [], {}, d);
    assert ReadsChain(w, [c, d]) && [c, d][1] == d;
    forall x | x in Reached(w, d)
      ensures x in Reached(w, c) && x != d
    {
      var ch :| ReadsChain(w, ch) && |ch| > 1 && ch[0] == d && ch[|ch| - 1] == x;
      OkChain(w, ch, {});
      var longer := [c] + ch;
      forall i | 0 <= i < |longer| - 1
        ensures ReadsNext(w, longer[i], longer[i + 1])
      {
        if i > 0 {
          assert ReadsNext(w, ch[i - 1], ch[i]);
        }
      }
      assert ReadsChain(w, longer) && longer[|longer| - 1] == x;
    }
    SmallerSet(Reached(w, d), Reached(w, c), d);
  }

  lemma {:induction false} SmallerSet<T>(a: set<T>, b: set<T>, x: T)
    requires a <= b && x in b && x !in a
    ensures |a| < |b|
  {
    assert b == a + (b - a) && x in b - a;
  }

  ghost function Evaluable(w: World): set<Computed>
    requires Wf(w)
  {
    set c | c in w.fn && Eval(w, c, {}).Ok?
  }

  lemma {:induction false} EvaluableReturns(w: World, val: map<Computed, Value>, rank: map<Computed, nat>, c: Computed)
    requires Wf(w) && val.Keys == rank.Keys == Evaluable(w) && c in rank
    requires forall d :: d in rank ==> Eval(w, d, {}) == Ok(val[d]) && rank[d] == |Reached(w, d)|
    ensures Returns(w, val, Lower(rank, c), w.fn[c], val[c])
  {
    hide Returns, ReturnsBy, Reached, Reads;
    EvalRuns(w, c);
    forall d | d in CompsIn(Reads(w, w.fn[c], []))
      ensures d in Lower(rank, c)
    {
      assert ReadsNext(w, c, d);
      ReachedShrinks(w, c, d);
    }
    RunReturns(w, val, Lower(rank, c), w.fn[c]);
  }

  lemma {:induction false} EvaluableGrounded(w: World, val: map<Computed, Value>, rank: map<Computed, nat>)
    requires Wf(w) && val.Keys == rank.Keys == Evaluable(w)
    requires forall c :: c in rank ==> Eval(w, c, {}) == Ok(val[c]) && rank[c] == |Reached(w, c)|
    ensures Grounded(w, val, rank)
  {
    hide Returns, Reached;
    forall c | c in rank
      ensures Returns(w, val, Lower(rank, c), w.fn[c], val[c])
    {
      EvaluableReturns(w, val, rank, c);
    }
  }

  /** From-scratch evaluation gives v exactly when v is the value of c in some grounded solution. */
  lemma {:induction false} EvalExactly(w: World, c: Computed, v: Value)
    requires Wf(w) && c in w.fn
    ensures Eval(w, c, {}) == Ok(v) <==> exists val, rank :: Grounded(w, val, rank) && c in rank && val[c] == v
  {
    if Eval(w, c, {}) == Ok(v) {
      var val := map d | d in Evaluable(w) :: Eval(w, d, {}).v;
      var rank: map<Computed, nat> := map d | d in Evaluable(w) :: |Reached(w, d)|;
      EvaluableGrounded(w, val, rank);
    }
    if val, rank :| Grounded(w, val, rank) && c in rank && val[c] == v {
      GroundedEval(w, val, rank, c, {});
    }
  }

  /** A computed has a from-scratch value if and only if it lies in a settled set. */
  lemma {:induction false} SettledExactly(w: World, c: Computed)
    requires Wf(w) && c in w.fn
    ensures Eval(w, c, {}).Ok? <==> exists K :: Settled(w, K) && c in K
  {
    if Eval(w, c, {}).Ok? {
      forall d, e | d in Evaluable(w) && e in CompsIn(Reads(w, w.fn[d], []))
        ensures e in Evaluable(w)
      {
        EvalRuns(w, d);
        OkRead(w, w.fn[d], [], {}, e);
      }
      assert Settled(w, Evaluable(w));
    }
  }

  /** The two worlds agree on the signals among srcs. */
  ghost predicate SameSignals(w: World, w': World, srcs: set<Source>) {
    forall x :: x in srcs && x.Sig? ==> x.s in w.sig && x.s in w'.sig && w'.sig[x.s] == w.sig[x.s]
  }

  ghost predicate Agree(w: World, w': World, K: set<Computed>)
    requires Wf(w)
  {
    forall c :: c in K && c in w.fn ==>
      c in w'.fn && w'.fn[c] == w.fn[c] && SameSignals(w, w', Reads(w, w.fn[c], []))
  }

  /** A change of world that K does not read leaves the values and the reads of K alone. */
  lemma {:induction false} EvalAgree(w: World, w': World, c: Computed, T: set<Computed>, K: set<Computed>)
    requires Wf(w) && Wf(w') && Settled(w, K) && Agree(w, w', K) && c in K && Eval(w, c, T).Ok?
    ensures c in w'.fn && Eval(w', c, T) == Eval(w, c, T)
    ensures Reads(w', w'.fn[c], []) == Reads(w, w.fn[c], [])
    decreases w.fn.Keys - T, 0
  {
    RunAgree(w, w', w.fn[c], [], T + {c}, K);
  }

  lemma {:induction false} RunAgree(w: World, w': World, p: Fn, h: seq<Value>, T: set<Computed>, K: set<Computed>)
    requires Wf(w) && Wf(w') && Closed(p, w) && Closed(p, w') && Settled(w, K) && Agree(w, w', K)
    requires CompsIn(Reads(w, p, h)) <= K && SameSignals(w, w', Reads(w, p, h))
    requires Run(w, p, h, T).Ok?
    ensures Run(w', p, h, T) == Run(w, p, h, T)
    ensures Reads(w', p, h) == Reads(w, p, h)
    decreases w.fn.Keys - T, 2, Distance(p, h)
  {
    match p.step(h)
    case Ret(_) =>
    case Read(src) =>
      assert src in Reads(w, p, h);
      if src.Comp? {
        assert src.c in CompsIn(Reads(w, p, h));
        EvalAgree(w, w', src.c, T, K);
        EvalShrink(w, src.c, T, {});
        EvalShrink(w', src.c, T, {});
      }
      var v := Lookup(w, src, T).v;
      assert CompsIn(Reads(w, p, h + [v])) <= CompsIn(Reads(w, p, h));
      ReadsOn(p, h, v);
      RunAgree(w, w', p, h + [v], T, K);
  }

  /** rank strictly decreases along every read any function might make. */
  ghost predicate Ranked(w: World, older rank: map<Computed, nat>) {
    rank.Keys == w.fn.Keys &&
    forall c, h: seq<Value> :: c in w.fn && w.fn[c].step(h).Read? && w.fn[c].step(h).src.Comp? ==>
      w.fn[c].step(h).src.c in rank && rank[w.fn[c].step(h).src.c] < rank[c]
  }

  /** On an acyclic graph from-scratch evaluation always has a value. */
  lemma {:induction false} RankedNeverCycles(w: World, rank: map<Computed, nat>, c: Computed, S: set<Computed>)
    requires Wf(w) && Ranked(w, rank) && c in w.fn
    requires forall d :: d in S && d in rank ==> rank[c] < rank[d]
    ensures Eval(w, c, S).Ok?
    decreases rank[c], 1, 0
  {
    RankedRunNeverCycles(w, rank, c, [], S + {c});
  }

  lemma {:induction false} RankedRunNeverCycles(w: World, rank: map<Computed, nat>, c: Computed, h: seq<Value>,
        S: set<Computed>)
    requires Wf(w) && Ranked(w, rank) && c in w.fn
    requires forall d :: d in S && d in rank ==> rank[c] <= rank[d]
    ensures Run(w, w.fn[c], h, S).Ok?
    decreases rank[c], 0, Distance(w.fn[c], h)
  {
    match w.fn[c].step(h)
    case Ret(_) =>
    case Read(src) =>
      if src.Comp? {
        RankedNeverCycles(w, rank, src.c, S);
      }
      var v := Lookup(w, src, S).v;
      ReadsOn(w.fn[c], h, v);
      RankedRunNeverCycles(w, rank, c, h + [v], S);
  }

  // ---------------------------------------------------------------------
  // The engine's state as one value
  // ---------------------------------------------------------------------

  datatype State = State(
    w: World,                          // Signal._value and Computed._fn
    val: map<Computed, Value>,         // Computed._value
    dirty: set<Computed>,              // Computed._dirty
    edges: set<(Source, Sub)>,         // (s, n) when s in n._sources
    backs: set<(Source, Sub)>,         // (s, n) when n in s._subs
    out: map<Effect, Value>,           // what each effect last produced
    runs: map<Effect, nat>,            // Effect._counter
    evals: map<Computed, nat>,         // how often each computed's function has been called
    pending: seq<Effect>,
    current: seq<Sub>,
    stack: seq<Computed>,              // _recompute_stack
    log: seq<(Source, Value)>          // every value handed out by a get, in order
  )

  ghost function Elems<T>(s: seq<T>): set<T> { set x | x in s }

  ghost function Srcs(edges: set<(Source, Sub)>, n: Sub): set<Source> {
    set x | x in edges && x.1 == n :: x.0
  }

  ghost function Subs(edges: set<(Source, Sub)>, src: Source): set<Sub> {
    set x | x in edges && x.0 == src :: x.1
  }

  ghost function Without(edges: set<(Source, Sub)>, n: Sub): set<(Source, Sub)> {
    set x | x in edges && x.1 != n
  }

  ghost predicate Distinct<T>(s: seq<T>) {
    forall i, j :: 0 <= i < j < |s| ==> s[i] != s[j]
  }

  ghost predicate KnownSub(n: Sub, st: State) {
    match n
    case SubComp(c) => c in st.w.fn
    case SubEff(e) => e in st.out
  }

  ghost predicate Typed(st: State) {
    && Wf(st.w)
    && st.dirty <= st.w.fn.Keys && st.val.Keys == st.evals.Keys == st.w.fn.Keys
    && st.runs.Keys == st.out.Keys
    && st.backs == st.edges
    && (forall x :: x in st.edges ==> Known(x.0, st.w) && KnownSub(x.1, st))
    && (forall e :: e in st.out ==> Closed(e.fn, st.w))
    && Distinct(st.pending) && (forall e :: e in st.pending ==> e in st.out)
    && (forall c :: c in st.stack ==> c in st.w.fn && c !in st.dirty)
    && (forall n :: n in st.current ==> KnownSub(n, st) && (n.SubComp? ==> n.c in st.stack))
  }

  /** The computeds whose cache may be used: not dirty and not being recomputed. */
  ghost function Clean(st: State): set<Computed> {
    st.w.fn.Keys - st.dirty - Elems(st.stack)
  }

  /** The cache of c holds its from-scratch value, and its edges are exactly what it reads. */
  ghost predicate CompOk(st: State, c: Computed)
    requires Typed(st) && c in st.w.fn
  {
    && Eval(st.w, c, {}) == Ok(st.val[c])
    && Srcs(st.edges, SubComp(c)) == Reads(st.w, st.w.fn[c], [])
    && CompsIn(Srcs(st.edges, SubComp(c))) <= Clean(st)
  }

  /** The last run of e saw from-scratch values, and its edges are exactly what it reads. */
  ghost predicate EffOk(st: State, e: Effect)
    requires Typed(st) && e in st.out
  {
    && Run(st.w, e.fn, [], {}) == Ok(st.out[e])
    && Srcs(st.edges, SubEff(e)) == Reads(st.w, e.fn, [])
    && CompsIn(Srcs(st.edges, SubEff(e))) <= Clean(st)
  }

  ghost predicate Quiet(st: State, e: Effect) {
    e in st.out && e !in st.pending && SubEff(e) !in st.current
  }

  /** What every step of the engine keeps. */
  ghost predicate Inv(st: State) {
    && Typed(st)
    && (forall c :: c in Clean(st) ==> CompOk(st, c))
    && (forall e :: e in st.out && Quiet(st, e) ==> EffOk(st, e))
  }

  /** What holds between operations. */
  ghost predicate Stable(st: State) {
    Inv(st) && st.pending == [] && st.current == [] && st.stack == []
  }

  lemma {:induction false} CleanIsSettled(st: State)
    requires Inv(st)
    ensures Settled(st.w, Clean(st))
  {
    forall c | c in Clean(st)
      ensures Eval(st.w, c, {}).Ok? && CompsIn(Reads(st.w, st.w.fn[c], [])) <= Clean(st)
    {
      assert CompOk(st, c);
    }
  }

  /** A cached value is also the value from-scratch evaluation finds in mid-recomputation. */
  lemma {:induction false} CachedValue(st: State, c: Computed)
    requires Inv(st) && c in Clean(st)
    ensures Eval(st.w, c, Elems(st.stack)) == Ok(st.val[c])
  {
    CleanIsSettled(st);
    assert CompOk(st, c);
    EvalGrow(st.w, c, {}, Elems(st.stack), Clean(st));
    assert {} + Elems(st.stack) == Elems(st.stack);
  }

  /**
   * The caches solve the current world: every clean one is what its function returns when its reads
   * are answered by the signals and the other clean caches, and so is the output of every effect
   * that is not about to run. The edges are the sources read on the way.
   */
  lemma {:induction false} CachesSolve(st: State)
    requires Inv(st)
    ensures Solves(st.w, st.val, Clean(st))
    ensures forall c :: c in Clean(st) ==>
              c in st.val &&
              ReturnsBy(st.w, st.val, Clean(st), st.w.fn[c], st.val[c], Srcs(st.edges, SubComp(c)))
    ensures forall e :: e in st.out && Quiet(st, e) ==>
              ReturnsBy(st.w, st.val, Clean(st), e.fn, st.out[e], Srcs(st.edges, SubEff(e)))
  {
    CleanIsSettled(st);
    forall c | c in Clean(st)
      ensures Eval(st.w, c, {}) == Ok(st.val[c])
      ensures ReturnsBy(st.w, st.val, Clean(st), st.w.fn[c], st.val[c], Srcs(st.edges, SubComp(c)))
    {
      CleanReturns(st, c);
    }
    EvalSolves(st.w, st.val, Clean(st));
    forall e | e in st.out && Quiet(st, e)
      ensures ReturnsBy(st.w, st.val, Clean(st), e.fn, st.out[e], Srcs(st.edges, SubEff(e)))
    {
      assert EffOk(st, e);
      CleanEvals(st);
      RunReturns(st.w, st.val, Clean(st), e.fn);
    }
  }

  lemma {:induction false} CleanEvals(st: State)
    requires Inv(st)
    ensures forall c :: c in Clean(st) ==> c in st.w.fn && c in st.val && Eval(st.w, c, {}) == Ok(st.val[c])
  {
    forall c | c in Clean(st)
      ensures Eval(st.w, c, {}) == Ok(st.val[c])
    {
      assert CompOk(st, c);
    }
  }

  lemma {:induction false} CleanReturns(st: State, c: Computed)
    requires Inv(st) && c in Clean(st)
    ensures Eval(st.w, c, {}) == Ok(st.val[c])
    ensures ReturnsBy(st.w, st.val, Clean(st), st.w.fn[c], st.val[c], Srcs(st.edges, SubComp(c)))
  {
    assert CompOk(st, c);
    CleanEvals(st);
    EvalRuns(st.w, c);
    RunReturns(st.w, st.val, Clean(st), st.w.fn[c]);
  }

  ghost predicate SettledSub(st: State, n: Sub) {
    match n
    case SubComp(c) => c in Clean(st)
    case SubEff(e) => Quiet(st, e)
  }

  /** A node whose last run still counts subscribes to nothing stale. */
  lemma {:induction false} SettledSources(st: State, n: Sub, c: Computed)
    requires Inv(st) && SettledSub(st, n) && n in Subs(st.edges, Comp(c))
    ensures c in Clean(st)
  {
    assert (Comp(c), n) in st.edges;
    assert Comp(c) in Srcs(st.edges, n);
    assert c in CompsIn(Srcs(st.edges, n));
    match n
    case SubComp(d) => assert CompOk(st, d);
    case SubEff(e) => assert EffOk(st, e);
  }

  /** A dirty computed has only dirty, running or queued subscribers. */
  lemma {:induction false} DirtyClosed(st: State, c: Computed, n: Sub)
    requires Inv(st) && c in st.dirty && n in Subs(st.edges, Comp(c))
    ensures match n
            case SubComp(d) => d in st.dirty || d in st.stack
            case SubEff(e) => e in st.pending || n in st.current
  {
    assert (Comp(c), n) in st.edges && KnownSub(n, st);
    if SettledSub(st, n) {
      SettledSources(st, n, c);
    }
  }

  // ---------------------------------------------------------------------
  // Pulling: what a get may change
  // ---------------------------------------------------------------------

  ghost function Lift(cs: set<Computed>): set<Sub> {
    set c | c in cs :: SubComp(c)
  }

  ghost function Outside(edges: set<(Source, Sub)>, A: set<Sub>): set<(Source, Sub)> {
    set x | x in edges && x.1 !in A
  }

  /** Every entry of the log from position k on is the from-scratch value of its source. */
  ghost predicate TrueFrom(w: World, log: seq<(Source, Value)>, k: nat)
    requires Wf(w)
  {
    forall i :: k <= i < |log| ==> Known(log[i].0, w) && Lookup(w, log[i].0, {}) == Ok(log[i].1)
  }

  /** Handing out values only appends to the log, and only from-scratch values. */
  ghost predicate TrueLog(w: World, log: seq<(Source, Value)>, log': seq<(Source, Value)>)
    requires Wf(w)
  {
    |log| <= |log'| && log'[..|log|] == log && TrueFrom(w, log', |log|)
  }

  lemma {:induction false} TrueLogCompose(w: World, a: seq<(Source, Value)>, b: seq<(Source, Value)>,
        c: seq<(Source, Value)>)
    requires Wf(w) && TrueLog(w, a, b) && TrueLog(w, b, c)
    ensures TrueLog(w, a, c)
  {
    forall i | |a| <= i < |c|
      ensures Known(c[i].0, w) && Lookup(w, c[i].0, {}) == Ok(c[i].1)
    {
      if i < |b| {
        assert c[..|b|][i] == b[i];
      }
    }
    assert c[..|a|] == c[..|b|][..|a|];
  }

  /** A function is called exactly when its computed turns from dirty to clean. */
  ghost predicate OneCallEach(st: State, st': State) {
    && st'.dirty <= st.dirty && st.evals.Keys == st'.evals.Keys == st.w.fn.Keys
    && forall c :: c in st.evals ==>
         st'.evals[c] == st.evals[c] + if c in st.dirty && c !in st'.dirty then 1 else 0
  }

  /**
   * st became st' by reads alone: only the edges into A and into the computeds that were
   * cleaned changed.
   */
  ghost predicate Pulled(st: State, st': State, A: set<Sub>) {
    && Wf(st.w)
    && st' == st.(val := st'.val, dirty := st'.dirty, edges := st'.edges, backs := st'.backs, evals := st'.evals,
                  log := st'.log)
    && OneCallEach(st, st')
    && Outside(st'.edges, A + Lift(st.dirty - st'.dirty)) == Outside(st.edges, A + Lift(st.dirty - st'.dirty))
    && TrueLog(st.w, st.log, st'.log)
  }

  lemma {:induction false} PulledCompose(a: State, b: State, c: State, A: set<Sub>)
    requires Pulled(a, b, A) && Pulled(b, c, A)
    ensures Pulled(a, c, A)
  {
    var X, Y, Z := A + Lift(a.dirty - b.dirty), A + Lift(b.dirty - c.dirty), A + Lift(a.dirty - c.dirty);
    forall x
      ensures x in Outside(a.edges, Z) <==> x in Outside(c.edges, Z)
    {
      assert x.1 !in Z ==> x.1 !in X && x.1 !in Y;
      assert x.1 !in Z ==> (x in Outside(a.edges, X) <==> x in Outside(b.edges, X));
      assert x.1 !in Z ==> (x in Outside(b.edges, Y) <==> x in Outside(c.edges, Y));
    }
    TrueLogCompose(a.w, a.log, b.log, c.log);
  }

  /** Edges into a subscriber that a pull may not touch stay what they were. */
  lemma {:induction false} PulledSrcs(st: State, st': State, A: set<Sub>, n: Sub)
    requires Pulled(st, st', A) && n !in A + Lift(st.dirty - st'.dirty)
    ensures Srcs(st'.edges, n) == Srcs(st.edges, n)
  {
    var Z := A + Lift(st.dirty - st'.dirty);
    forall src
      ensures src in Srcs(st.edges, n) <==> src in Srcs(st'.edges, n)
    {
      assert (src, n) in Outside(st.edges, Z) <==> (src, n) in Outside(st'.edges, Z);
    }
  }

  /** A step that leaves the edges and values of the settled nodes alone keeps the invariant. */
  lemma {:induction false} KeepInv(st: State, st': State)
    requires Inv(st) && Typed(st') && st'.w == st.w && st'.out.Keys == st.out.Keys && Clean(st) <= Clean(st')
    requires forall c :: c in Clean(st) ==>
               st'.val[c] == st.val[c] && Srcs(st'.edges, SubComp(c)) == Srcs(st.edges, SubComp(c))
    requires forall c :: c in Clean(st') - Clean(st) ==> CompOk(st', c)
    requires forall e :: e in st.out && Quiet(st', e) ==>
               || EffOk(st', e)
               || (Quiet(st, e) && st'.out[e] == st.out[e] && Srcs(st'.edges, SubEff(e)) == Srcs(st.edges, SubEff(e)))
    ensures Inv(st')
  {
    forall c | c in Clean(st')
      ensures CompOk(st', c)
    {
      if c in Clean(st) {
        assert CompOk(st, c);
      } else {
        assert c in Clean(st') - Clean(st);
      }
    }
    forall e | e in st'.out && Quiet(st', e)
      ensures EffOk(st', e)
    {
      assert Quiet(st, e) ==> EffOk(st, e);
    }
  }

  ghost function Top(st: State): set<Sub> {
    if st.current == [] then {} else {st.current[|st.current| - 1]}
  }

  ghost function Subscribed(edges: set<(Source, Sub)>, src: Source, current: seq<Sub>): set<(Source, Sub)> {
    if current == [] then edges else edges + {(src, current[|current| - 1])}
  }

  /** The state after handing out v for src. */
  ghost function Handed(st: State, src: Source, v: Value): State {
    st.(edges := Subscribed(st.edges, src, st.current), backs := Subscribed(st.backs, src, st.current),
        log := st.log + [(src, v)])
  }

  lemma {:induction false} HandedSrcs(st: State, src: Source, v: Value)
    ensures forall n :: n !in Top(st) ==> Srcs(Handed(st, src, v).edges, n) == Srcs(st.edges, n)
    ensures forall n :: n in Top(st) ==> Srcs(Handed(st, src, v).edges, n) == Srcs(st.edges, n) + {src}
  {
    var edges' := Handed(st, src, v).edges;
    forall n: Sub | n !in Top(st)
      ensures Srcs(edges', n) == Srcs(st.edges, n)
    {
      assert forall x :: x in Srcs(edges', n) ==> (x, n) in edges' && (x, n) in st.edges;
      assert forall x :: x in Srcs(st.edges, n) ==> (x, n) in st.edges && (x, n) in edges';
    }
    forall n | n in Top(st)
      ensures Srcs(edges', n) == Srcs(st.edges, n) + {src}
    {
      assert forall x :: x in Srcs(edges', n) ==> (x, n) in edges';
      assert forall x :: x in Srcs(st.edges, n) ==> (x, n) in st.edges && (x, n) in edges';
      assert (src, n) in edges';
    }
  }

  lemma {:induction false} HandedTyped(st: State, src: Source, v: Value)
    requires Typed(st) && Known(src, st.w)
    ensures Typed(Handed(st, src, v))
  {
    if st.current != [] {
      assert st.current[|st.current| - 1] in st.current;
    }
  }

  lemma {:induction false} HandedPulled(st: State, src: Source, v: Value)
    requires Typed(st) && Typed(Handed(st, src, v)) && Known(src, st.w) && Lookup(st.w, src, {}) == Ok(v)
    ensures Pulled(st, Handed(st, src, v), Top(st))
  {}

  lemma {:induction false} HandedKeeps(st: State, src: Source, v: Value)
    requires Inv(st) && Known(src, st.w) && Lookup(st.w, src, {}) == Ok(v)
    requires src.Comp? ==> src.c in Clean(st)
    ensures Inv(Handed(st, src, v)) && Pulled(st, Handed(st, src, v), Top(st))
    ensures Clean(Handed(st, src, v)) == Clean(st)
    ensures forall n :: n in Top(st) ==> Srcs(Handed(st, src, v).edges, n) == Srcs(st.edges, n) + {src}
  {
    HandedSrcs(st, src, v);
    HandedTyped(st, src, v);
    HandedPulled(st, src, v);
    assert forall n :: n in Top(st) ==> n in st.current;
    KeepInv(st, Handed(st, src, v));
  }

  /** The state in which the function of c starts to run. */
  ghost function Entered(st: State, c: Computed): State
    requires c in st.evals
  {
    st.(edges := Without(st.edges, SubComp(c)), backs := Without(st.backs, SubComp(c)),
        dirty := st.dirty - {c}, stack := st.stack + [c],
        current := st.current + [SubComp(c)], evals := st.evals[c := st.evals[c] + 1])
  }

  lemma {:induction false} WithoutSrcs(edges: set<(Source, Sub)>, n: Sub)
    ensures Srcs(Without(edges, n), n) == {}
    ensures forall m :: m != n ==> Srcs(Without(edges, n), m) == Srcs(edges, m)
  {
    forall m: Sub | m != n
      ensures Srcs(Without(edges, n), m) == Srcs(edges, m)
    {
      assert forall x :: x in Srcs(edges, m) ==> (x, m) in edges && (x, m) in Without(edges, n);
    }
  }

  lemma {:induction false} EnteredTyped(st: State, c: Computed)
    requires Typed(st) && c in st.dirty
    ensures Typed(Entered(st, c)) && Clean(Entered(st, c)) == Clean(st)
    ensures Elems(Entered(st, c).stack) == Elems(st.stack) + {c}
    ensures forall n :: n in st.current ==> n in Entered(st, c).current
  {
    var st' := Entered(st, c);
    assert st'.stack[|st.stack|] == c;
    assert forall n :: n in st'.current ==> n in st.current || n == SubComp(c);
    assert forall d :: d in st.stack ==> d in st'.stack;
    assert Elems(st'.stack) == Elems(st.stack) + {c};
  }

  lemma {:induction false} EnteredKeeps(st: State, c: Computed)
    requires Inv(st) && c in st.dirty
    ensures Inv(Entered(st, c)) && Clean(Entered(st, c)) == Clean(st)
    ensures Srcs(Entered(st, c).edges, SubComp(c)) == {}
    ensures Elems(Entered(st, c).stack) == Elems(st.stack) + {c}
  {
    WithoutSrcs(st.edges, SubComp(c));
    EnteredTyped(st, c);
    KeepInv(st, Entered(st, c));
  }

  /** The state after the function of c has returned v, from the state st2 it returned in. */
  ghost function Left(st2: State, st: State, c: Computed, v: Value): State {
    st2.(stack := st.stack, current := st.current, val := st2.val[c := v])
  }

  lemma {:induction false} LeftTyped(st: State, st2: State, c: Computed, v: Value)
    requires Typed(st) && c in st.dirty && Typed(st2)
    requires st2.w == st.w && st2.out == st.out && st2.dirty <= st.dirty - {c} && st2.stack == st.stack + [c]
    ensures Typed(Left(st2, st, c, v)) && Clean(Left(st2, st, c, v)) == Clean(st2) + {c}
  {
    assert st2.stack[|st.stack|] == c;
    assert forall d :: d in st2.stack <==> d in st.stack || d == c;
    assert c !in st.stack && c !in st2.dirty;
  }

  lemma {:induction false} LeftPulled(st: State, st2: State, c: Computed, v: Value)
    requires Typed(st) && c in st.dirty && Typed(Left(st2, st, c, v))
    requires Pulled(Entered(st, c), st2, {SubComp(c)})
    ensures Pulled(st, Left(st2, st, c, v), {})
  {
    var st1, st3 := Entered(st, c), Left(st2, st, c, v);
    var Y, Z := {SubComp(c)} + Lift(st1.dirty - st2.dirty), {} + Lift(st.dirty - st3.dirty);
    assert SubComp(c) in Z && Y <= Z;
    forall x
      ensures x in Outside(st3.edges, Z) <==> x in Outside(st.edges, Z)
    {
      assert x.1 !in Z ==> (x in Outside(st1.edges, Y) <==> x in Outside(st2.edges, Y));
    }
  }

  lemma {:induction false} LeftKeeps(st: State, st2: State, c: Computed, v: Value)
    requires Inv(st) && c in st.dirty && Inv(st2) && Pulled(Entered(st, c), st2, {SubComp(c)})
    requires Run(st.w, st.w.fn[c], [], Elems(st.stack) + {c}) == Ok(v)
    requires Srcs(st2.edges, SubComp(c)) == Reads(st.w, st.w.fn[c], [])
    requires CompsIn(Srcs(st2.edges, SubComp(c))) <= Clean(st2)
    ensures Inv(Left(st2, st, c, v)) && Pulled(st, Left(st2, st, c, v), {})
    ensures Clean(Left(st2, st, c, v)) == Clean(st2) + {c}
  {
    LeftTyped(st, st2, c, v);
    LeftPulled(st, st2, c, v);
    assert Eval(st.w, c, Elems(st.stack)) == Ok(v) by {
      assert c !in Elems(st.stack);
    }
    EvalShrink(st.w, c, Elems(st.stack), {});
    assert CompOk(Left(st2, st, c, v), c);
    assert c !in Clean(st2) by {
      EnteredTyped(st, c);
    }
    LeftQuiet(st, st2, c, v);
    KeepInv(st2, Left(st2, st, c, v));
  }

  lemma {:induction false} LeftQuiet(st: State, st2: State, c: Computed, v: Value)
    requires c in st.evals && Pulled(Entered(st, c), st2, {SubComp(c)})
    ensures forall e :: Quiet(Left(st2, st, c, v), e) ==> Quiet(st2, e)
  {
    assert st2.current == st.current + [SubComp(c)];
  }

  // ---------------------------------------------------------------------
  // Running effects
  // ---------------------------------------------------------------------

  ghost function Queued(st: State, e: Effect): State {
    st.(pending := [e] + st.pending)
  }

  /** The state in which the function of e starts to run. */
  ghost function Started(st: State, e: Effect): State
    requires e in st.runs
  {
    st.(edges := Without(st.edges, SubEff(e)), backs := Without(st.backs, SubEff(e)),
        current := [SubEff(e)], runs := st.runs[e := st.runs[e] + 1])
  }

  ghost function Finished(st2: State, e: Effect, v: Value): State {
    st2.(current := [], out := st2.out[e := v])
  }

  lemma {:induction false} UnqueuedTyped(st: State, e: Effect)
    requires Typed(Queued(st, e))
    ensures Typed(st) && e in st.out && e !in st.pending
  {
    var q := Queued(st, e).pending;
    assert q[0] == e;
    assert forall i :: 0 <= i < |st.pending| ==> q[i + 1] == st.pending[i];
  }

  lemma {:induction false} StartedTyped(st: State, e: Effect)
    requires Typed(st) && e in st.out
    ensures Typed(Started(st, e))
  {}

  lemma {:induction false} StartedKeeps(st: State, e: Effect)
    requires Inv(Queued(st, e)) && st.current == [] && st.stack == []
    ensures e in st.runs && Inv(Started(st, e)) && Srcs(Started(st, e).edges, SubEff(e)) == {}
  {
    UnqueuedTyped(st, e);
    StartedTyped(st, e);
    WithoutSrcs(st.edges, SubEff(e));
    var st1 := Started(st, e);
    assert forall x :: Quiet(st1, x) ==> Quiet(Queued(st, e), x);
    KeepInv(Queued(st, e), st1);
  }

  lemma {:induction false} FinishedKeeps(st2: State, e: Effect, v: Value)
    requires Inv(st2) && st2.current == [SubEff(e)] && st2.stack == []
    requires e in st2.out && Run(st2.w, e.fn, [], {}) == Ok(v)
    requires Srcs(st2.edges, SubEff(e)) == Reads(st2.w, e.fn, [])
    requires CompsIn(Srcs(st2.edges, SubEff(e))) <= Clean(st2)
    ensures Inv(Finished(st2, e, v))
  {
    var st3 := Finished(st2, e, v);
    assert Typed(st3);
    assert forall x :: Quiet(st3, x) && x != e ==> Quiet(st2, x);
    assert EffOk(st3, e);
    KeepInv(st2, st3);
  }

  /** Changes made by the run of effects: what reads change, plus outputs and run counts. */
  ghost predicate Progress(st: State, st': State) {
    && Wf(st.w)
    && st' == st.(val := st'.val, dirty := st'.dirty, edges := st'.edges, backs := st'.backs, evals := st'.evals,
                  log := st'.log, out := st'.out, runs := st'.runs, pending := st'.pending)
    && OneCallEach(st, st')
    && TrueLog(st.w, st.log, st'.log)
  }

  lemma {:induction false} ProgressCompose(a: State, b: State, c: State)
    requires Progress(a, b) && Progress(b, c)
    ensures Progress(a, c)
  {
    TrueLogCompose(a.w, a.log, b.log, c.log);
  }

  /** st' is st after running e once. */
  ghost predicate EffectRan(st: State, st': State, e: Effect) {
    && Progress(st, st') && st'.pending == st.pending && e in st.runs
    && st'.runs == st.runs[e := st.runs[e] + 1]
    && (forall x :: x in st.out && x != e ==> x in st'.out && st'.out[x] == st.out[x])
  }

  lemma {:induction false} FinishedRan(st: State, st2: State, e: Effect, v: Value)
    requires e in st.runs && st.current == [] && Pulled(Started(st, e), st2, {SubEff(e)})
    ensures EffectRan(st, Finished(st2, e, v), e)
  {}

  /** st' is st after running each effect of the first k in the queue once, and no other. */
  ghost predicate Flushed(st: State, st': State, k: nat) {
    && k <= |st.pending| && st'.pending == st.pending[k..]
    && Progress(st, st') && st.runs.Keys == st'.runs.Keys == st.out.Keys == st'.out.Keys
    && (forall e :: e in st.runs ==> st'.runs[e] == st.runs[e] + if e in st.pending[..k] then 1 else 0)
    && (forall e :: e in st.out && e !in st.pending[..k] ==> st'.out[e] == st.out[e])
  }

  lemma {:induction false} PrefixGrows<T>(s: seq<T>, k: nat)
    requires k < |s| && Distinct(s)
    ensures s[k] !in s[..k]
    ensures forall x :: x in s[..k + 1] <==> x in s[..k] || x == s[k]
  {
    assert s[..k + 1] == s[..k] + [s[k]];
  }

  lemma {:induction false} FlushedStep(st: State, st1: State, st2: State, k: nat)
    requires Flushed(st, st1, k) && k < |st.pending| && Distinct(st.pending)
    requires EffectRan(st1.(pending := st1.pending[1..]), st2, st.pending[k])
    requires st2.out.Keys == st2.runs.Keys == st.runs.Keys
    ensures Flushed(st, st2, k + 1)
  {
    ProgressCompose(st, st1.(pending := st1.pending[1..]), st2);
    PrefixGrows(st.pending, k);
  }

  // ---------------------------------------------------------------------
  // Marking: what a change invalidates
  // ---------------------------------------------------------------------

  /** The subscribers reached from a set in exactly k steps through computeds. */
  ghost function Layer(edges: set<(Source, Sub)>, from: set<Sub>, k: nat): set<Sub> {
    if k == 0 then from
    else set x | x in edges && x.0.Comp? && SubComp(x.0.c) in Layer(edges, from, k - 1) :: x.1
  }

  ghost predicate Reach(edges: set<(Source, Sub)>, from: set<Sub>, n: Sub) {
    exists k: nat :: n in Layer(edges, from, k)
  }

  lemma {:induction false} LayerMonotone(edges: set<(Source, Sub)>, from: set<Sub>, to: set<Sub>, k: nat)
    requires from <= to
    ensures Layer(edges, from, k) <= Layer(edges, to, k)
  {
    if k != 0 {
      LayerMonotone(edges, from, to, k - 1);
    }
  }

  lemma {:induction false} LayerPrepend(edges: set<(Source, Sub)>, c: Computed, k: nat)
    ensures Layer(edges, Subs(edges, Comp(c)), k) <= Layer(edges, {SubComp(c)}, k + 1)
  {
    if k == 0 {
      forall n | n in Subs(edges, Comp(c))
        ensures n in Layer(edges, {SubComp(c)}, 1)
      {
        assert (Comp(c), n) in edges && SubComp(c) in Layer(edges, {SubComp(c)}, 0);
      }
    } else {
      LayerPrepend(edges, c, k - 1);
    }
  }

  /** A set that holds from and is closed under subscription holds all that is reachable. */
  lemma {:induction false} LayerClosed(edges: set<(Source, Sub)>, from: set<Sub>, M: set<Sub>, k: nat)
    requires from <= M
    requires forall x :: x in edges && x.0.Comp? && SubComp(x.0.c) in M ==> x.1 in M
    ensures Layer(edges, from, k) <= M
  {
    if k != 0 {
      LayerClosed(edges, from, M, k - 1);
    }
  }

  ghost predicate Marked(st: State, n: Sub) {
    match n
    case SubComp(c) => c in st.dirty
    case SubEff(e) => e in st.pending
  }

  /** st' is st after invalidating the roots. */
  ghost predicate Invalidated(st: State, st': State, roots: set<Sub>) {
    && st' == st.(dirty := st'.dirty, pending := st'.pending)
    && st.dirty <= st'.dirty && st.pending <= st'.pending
    && (forall n :: n in roots ==> Marked(st', n))
    && (forall c, n :: c in st'.dirty && c !in st.dirty && n in Subs(st.edges, Comp(c)) ==> Marked(st', n))
    && (forall c :: c in st'.dirty && c !in st.dirty ==> Reach(st.edges, roots, SubComp(c)))
    && (forall e :: e in st'.pending && e !in st.pending ==> Reach(st.edges, roots, SubEff(e)))
  }

  lemma {:induction false} ReachMonotone(edges: set<(Source, Sub)>, from: set<Sub>, to: set<Sub>, n: Sub)
    requires from <= to && Reach(edges, from, n)
    ensures Reach(edges, to, n)
  {
    var k: nat :| n in Layer(edges, from, k);
    LayerMonotone(edges, from, to, k);
  }

  lemma {:induction false} InvalidatedCompose(a: State, b: State, c: State, R: set<Sub>, n: Sub)
    requires Invalidated(a, b, R) && Invalidated(b, c, {n})
    ensures Invalidated(a, c, R + {n})
  {
    assert forall e :: e in a.pending ==> e in b.pending;
    assert forall e :: e in b.pending ==> e in c.pending;
    assert a.pending <= c.pending;
    assert forall m :: Marked(b, m) ==> Marked(c, m);
    forall x, m | x in c.dirty && x !in a.dirty && m in Subs(a.edges, Comp(x))
      ensures Marked(c, m)
    {
      assert x !in b.dirty || Marked(b, m);
    }
    forall m | Reach(a.edges, R, m)
      ensures Reach(a.edges, R + {n}, m)
    {
      ReachMonotone(a.edges, R, R + {n}, m);
    }
    forall m | Reach(a.edges, {n}, m)
      ensures Reach(a.edges, R + {n}, m)
    {
      ReachMonotone(a.edges, {n}, R + {n}, m);
    }
  }

  lemma {:induction false} MarkedTyped(st: State, c: Computed)
    requires Typed(st) && st.stack == [] && c in st.w.fn
    ensures Typed(st.(dirty := st.dirty + {c}))
    ensures forall n :: n in Subs(st.edges, Comp(c)) ==> KnownSub(n, st.(dirty := st.dirty + {c}))
  {
    assert forall n :: n in Subs(st.edges, Comp(c)) ==> (Comp(c), n) in st.edges;
  }

  /** Marking c, then invalidating its subscribers, is invalidating c. */
  lemma {:induction false} InvalidatedComputed(st: State, st': State, c: Computed)
    requires Invalidated(st.(dirty := st.dirty + {c}), st', Subs(st.edges, Comp(c)))
    ensures Invalidated(st, st', {SubComp(c)})
  {
    forall m | Reach(st.edges, Subs(st.edges, Comp(c)), m)
      ensures Reach(st.edges, {SubComp(c)}, m)
    {
      var k: nat :| m in Layer(st.edges, Subs(st.edges, Comp(c)), k);
      LayerPrepend(st.edges, c, k);
    }
    assert SubComp(c) in Layer(st.edges, {SubComp(c)}, 0);
  }

  /** st1 is st0 after signals or functions changed, with the changed computeds D made dirty. */
  ghost predicate Changed(st0: State, st1: State, D: set<Computed>, roots: set<Sub>) {
    && st1 == st0.(w := st1.w, dirty := st0.dirty + D)
    && st1.w.sig.Keys == st0.w.sig.Keys && st1.w.fn.Keys == st0.w.fn.Keys && D <= st0.w.fn.Keys
    && (forall s :: s in st0.w.sig ==> st1.w.sig[s] == st0.w.sig[s] || Subs(st0.edges, Sig(s)) <= roots)
    && (forall c :: c in st0.w.fn ==> st1.w.fn[c] == st0.w.fn[c] || c in D)
    && (forall c :: c in D ==> Subs(st0.edges, Comp(c)) <= roots)
  }

  lemma {:induction false} UnmarkedSources(st0: State, st1: State, st2: State, D: set<Computed>, roots: set<Sub>,
        n: Sub)
    requires Stable(st0) && Changed(st0, st1, D, roots) && Invalidated(st1, st2, roots)
    requires SettledSub(st0, n) && !Marked(st2, n)
    ensures CompsIn(Srcs(st0.edges, n)) <= Clean(st2)
    ensures SameSignals(st0.w, st1.w, Srcs(st0.edges, n))
  {
    forall c | c in CompsIn(Srcs(st0.edges, n))
      ensures c in Clean(st2)
    {
      assert (Comp(c), n) in st0.edges && n in Subs(st0.edges, Comp(c));
      SettledSources(st0, n, c);
    }
    forall x | x in Srcs(st0.edges, n) && x.Sig?
      ensures x.s in st0.w.sig && st1.w.sig[x.s] == st0.w.sig[x.s]
    {
      assert (x, n) in st0.edges && n in Subs(st0.edges, x);
    }
  }

  /** After a change, marking its dependents restores the invariant in the new world. */
  lemma {:induction false} InvalidatedKeeps(st0: State, st1: State, st2: State, D: set<Computed>, roots: set<Sub>)
    requires Stable(st0) && Typed(st1) && Typed(st2)
    requires Changed(st0, st1, D, roots) && Invalidated(st1, st2, roots)
    ensures Inv(st2)
  {
    var K := Clean(st2);
    forall c | c in K
      ensures Eval(st0.w, c, {}) == Ok(st0.val[c])
      ensures Srcs(st0.edges, SubComp(c)) == Reads(st0.w, st0.w.fn[c], [])
      ensures CompsIn(Srcs(st0.edges, SubComp(c))) <= K
      ensures st1.w.fn[c] == st0.w.fn[c] && SameSignals(st0.w, st1.w, Srcs(st0.edges, SubComp(c)))
    {
      assert c in Clean(st0) && CompOk(st0, c);
      UnmarkedSources(st0, st1, st2, D, roots, SubComp(c));
    }
    assert Settled(st0.w, K) && Agree(st0.w, st1.w, K);
    forall c | c in K
      ensures CompOk(st2, c)
    {
      EvalAgree(st0.w, st1.w, c, {}, K);
    }
    forall e | e in st2.out && Quiet(st2, e)
      ensures EffOk(st2, e)
    {
      assert EffOk(st0, e);
      UnmarkedSources(st0, st1, st2, D, roots, SubEff(e));
      RunAgree(st0.w, st1.w, e.fn, [], {}, K);
    }
  }

  /** The queue after a change holds exactly the effects reachable from it. */
  lemma {:induction false} QueuedExactly(st0: State, st1: State, st2: State, D: set<Computed>, roots: set<Sub>,
        e: Effect)
    requires Stable(st0) && Changed(st0, st1, D, roots) && Invalidated(st1, st2, roots)
    ensures e in st2.pending <==> Reach(st0.edges, roots, SubEff(e))
  {
    var M := Lift(st2.dirty) + set x | x in st2.pending :: SubEff(x);
    assert forall n :: n in M <==> Marked(st2, n);
    forall x | x in st0.edges && x.0.Comp? && SubComp(x.0.c) in M
      ensures x.1 in M
    {
      assert x.0.c in st2.dirty && x.1 in Subs(st0.edges, x.0);
      if x.0.c in st0.dirty {
        DirtyClosed(st0, x.0.c, x.1);
      }
      assert Marked(st2, x.1);
    }
    if Reach(st0.edges, roots, SubEff(e)) {
      var k: nat :| SubEff(e) in Layer(st0.edges, roots, k);
      LayerClosed(st0.edges, roots, M, k);
    }
  }

  /** What one change does, once flushed: exactly the reachable effects ran, each once. */
  ghost predicate Refreshed(st0: State, st: State, w: World, D: set<Computed>, roots: set<Sub>) {
    && Wf(w) && st.w == w && st.out.Keys == st.runs.Keys == st0.out.Keys == st0.runs.Keys
    && w.fn.Keys == st.evals.Keys == st0.evals.Keys
    && (forall e :: e in st.runs ==>
          st.runs[e] == st0.runs[e] + if Reach(st0.edges, roots, SubEff(e)) then 1 else 0)
    && (forall e :: e in st.out && !Reach(st0.edges, roots, SubEff(e)) ==> st.out[e] == st0.out[e])
    && (forall c :: c in w.fn ==> st0.evals[c] <= st.evals[c] <= st0.evals[c] + 1)
    && (forall c :: c in w.fn && st.evals[c] != st0.evals[c] ==>
          c in st0.dirty + D || Reach(st0.edges, roots, SubComp(c)))
    && TrueLog(w, st0.log, st.log)
  }

  /** What a flush did does not depend on the world before. */
  lemma {:induction false} RefreshedFrom(st0: State, st0': State, st: State, D: set<Computed>, roots: set<Sub>)
    requires Refreshed(st0, st, st.w, D, roots) && st0' == st0.(w := st0'.w)
    ensures Refreshed(st0', st, st.w, D, roots)
  {}

  lemma {:induction false} ChangedTyped(st0: State, st1: State, D: set<Computed>, roots: set<Sub>)
    requires Stable(st0) && Changed(st0, st1, D, roots) && Wf(st1.w)
    ensures Typed(st1)
  {
    WiderWorld(st0.w, st1.w);
  }

  /** Flushing ran exactly the reachable effects. */
  lemma {:induction false} FlushedEffects(st0: State, st1: State, st2: State, st: State, D: set<Computed>,
        roots: set<Sub>)
    requires Stable(st0) && Changed(st0, st1, D, roots) && Invalidated(st1, st2, roots)
    requires Flushed(st2, st, |st2.pending|)
    ensures forall e :: e in st0.out ==> (e in st2.pending[..|st2.pending|] <==> Reach(st0.edges, roots, SubEff(e)))
  {
    assert st2.pending[..|st2.pending|] == st2.pending;
    forall e | e in st0.out
      ensures e in st2.pending <==> Reach(st0.edges, roots, SubEff(e))
    {
      QueuedExactly(st0, st1, st2, D, roots, e);
    }
  }

  /** Flushing evaluated only reachable computeds, each at most once. */
  lemma {:induction false} FlushedComputeds(st0: State, st1: State, st2: State, st: State, D: set<Computed>,
        roots: set<Sub>)
    requires Changed(st0, st1, D, roots) && Invalidated(st1, st2, roots) && OneCallEach(st2, st)
    ensures forall c :: c in st1.w.fn ==> c in st0.evals && st0.evals[c] <= st.evals[c] <= st0.evals[c] + 1
    ensures forall c :: c in st1.w.fn && st.evals[c] != st0.evals[c] ==>
              c in st0.dirty + D || Reach(st0.edges, roots, SubComp(c))
  {
    assert st2.evals == st0.evals && st2.w == st1.w;
  }

  lemma {:induction false} FlushedRefreshes(st0: State, st1: State, st2: State, st: State, D: set<Computed>,
        roots: set<Sub>)
    requires Stable(st0) && Changed(st0, st1, D, roots) && Invalidated(st1, st2, roots)
    requires Flushed(st2, st, |st2.pending|)
    ensures Refreshed(st0, st, st1.w, D, roots)
  {
    FlushedEffects(st0, st1, st2, st, D, roots);
    FlushedComputeds(st0, st1, st2, st, D, roots);
  }

  /** st1 is st0 with new nodes: new computeds dirty, new effects queued. */
  ghost predicate Extended(st0: State, st1: State) {
    && st1 == st0.(w := st1.w, val := st1.val, dirty := st0.dirty + (st1.w.fn.Keys - st0.w.fn.Keys),
                   evals := st1.evals, out := st1.out, runs := st1.runs, pending := st1.pending)
    && (forall s :: s in st0.w.sig ==> s in st1.w.sig && st1.w.sig[s] == st0.w.sig[s])
    && (forall c :: c in st0.w.fn ==>
          && c in st1.w.fn && st1.w.fn[c] == st0.w.fn[c]
          && c in st0.val && c in st1.val && st1.val[c] == st0.val[c])
    && (forall e :: e in st1.out && e !in st1.pending ==> e in st0.out && st1.out[e] == st0.out[e])
  }

  lemma {:induction false} ExtendedKeeps(st0: State, st1: State)
    requires Stable(st0) && Typed(st1) && Extended(st0, st1)
    ensures Inv(st1)
  {
    var K := Clean(st0);
    assert Clean(st1) == K;
    CleanIsSettled(st0);
    forall c | c in K
      ensures SameSignals(st0.w, st1.w, Reads(st0.w, st0.w.fn[c], []))
    {
      assert CompOk(st0, c);
      SrcsKnown(st0, SubComp(c));
    }
    assert Agree(st0.w, st1.w, K);
    forall c | c in K
      ensures CompOk(st1, c)
    {
      assert CompOk(st0, c);
      EvalAgree(st0.w, st1.w, c, {}, K);
    }
    forall e | e in st1.out && Quiet(st1, e)
      ensures EffOk(st1, e)
    {
      assert EffOk(st0, e);
      SrcsKnown(st0, SubEff(e));
      RunAgree(st0.w, st1.w, e.fn, [], {}, K);
    }
  }

  lemma {:induction false} SrcsKnown(st: State, n: Sub)
    requires Typed(st)
    ensures forall x :: x in Srcs(st.edges, n) ==> Known(x, st.w)
  {
    assert forall x :: x in Srcs(st.edges, n) ==> (x, n) in st.edges;
  }

  // ---------------------------------------------------------------------
  // The engine: field updates, each shown in the mirror
  // ---------------------------------------------------------------------

  lemma {:induction false} BacksAdded(edges: set<(Source, Sub)>, src: Source, n: Sub)
    ensures forall x :: Subs(edges + {(src, n)}, x) == if x == src then Subs(edges, x) + {n} else Subs(edges, x)
  {
    forall x
      ensures Subs(edges + {(src, n)}, x) == if x == src then Subs(edges, x) + {n} else Subs(edges, x)
    {
      assert forall m :: m in Subs(edges, x) ==> (x, m) in edges + {(src, n)};
      assert (src, n) in edges + {(src, n)};
    }
  }

  lemma {:induction false} BacksDropped(edges: set<(Source, Sub)>, src: Source, n: Sub)
    ensures forall x :: Subs(edges - {(src, n)}, x) == if x == src then Subs(edges, x) - {n} else Subs(edges, x)
  {
    forall x
      ensures Subs(edges - {(src, n)}, x) == if x == src then Subs(edges, x) - {n} else Subs(edges, x)
    {
      assert forall m :: m in Subs(edges, x) && !(x == src && m == n) ==> (x, m) in edges - {(src, n)};
    }
  }

  lemma {:induction false} EdgesAdded(edges: set<(Source, Sub)>, src: Source, n: Sub)
    ensures forall m :: Srcs(edges + {(src, n)}, m) == if m == n then Srcs(edges, m) + {src} else Srcs(edges, m)
  {
    forall m
      ensures Srcs(edges + {(src, n)}, m) == if m == n then Srcs(edges, m) + {src} else Srcs(edges, m)
    {
      assert forall x :: x in Srcs(edges, m) ==> (x, m) in edges + {(src, n)};
      assert (src, n) in edges + {(src, n)};
    }
  }

  /** A mutable value; reading it inside a running node records a dependency. */
  class Signal {
    var value: Value
    var subs: set<Sub>

    /** An object that Init has not seen yet: functions can mention it before it is created. */
    constructor () {}

    /** Create the signal. */
    method Init(rt: Runtime, v: Value)
      requires rt.Valid() && Stable(rt.st) && this !in rt.st.w.sig
      modifies this, rt`st
      ensures rt.Valid() && Stable(rt.st) && rt.st == WithSignal(old(rt.st), this, v)
    {
      WithSignalKeeps(rt.st, this, v);
      value, subs := v, {};
      rt.AdoptSignal(this);
    }

    method AddSub(rt: Runtime, n: Sub)
      requires rt.Valid() && this in rt.st.w.sig
      modifies this`subs, rt`st
      ensures rt.Valid() && rt.st == old(rt.st).(backs := old(rt.st).backs + {(Sig(this), n)})
    {
      hide Srcs, Subs;
      BacksAdded(rt.st.backs, Sig(this), n);
      subs := subs + {n};
      rt.st := rt.st.(backs := rt.st.backs + {(Sig(this), n)});
    }

    method DropSub(rt: Runtime, n: Sub)
      requires rt.Valid() && this in rt.st.w.sig
      modifies this`subs, rt`st
      ensures rt.Valid() && rt.st == old(rt.st).(backs := old(rt.st).backs - {(Sig(this), n)})
    {
      hide Srcs, Subs;
      BacksDropped(rt.st.backs, Sig(this), n);
      subs := subs - {n};
      rt.st := rt.st.(backs := rt.st.backs - {(Sig(this), n)});
    }

    method SetValue(rt: Runtime, v: Value)
      requires rt.Valid() && this in rt.st.w.sig
      modifies this`value, rt`st
      ensures rt.Valid()
      ensures rt.st == old(rt.st).(w := World(old(rt.st).w.sig[this := v], old(rt.st).w.fn))
    {
      hide Srcs, Subs;
      value := v;
      rt.st := rt.st.(w := World(rt.st.w.sig[this := v], rt.st.w.fn));
    }

    method Get(rt: Runtime) returns (v: Value)
      requires rt.Valid() && Inv(rt.st) && this in rt.st.w.sig
      modifies rt, rt.st.w.sig.Keys, rt.st.w.fn.Keys, rt.st.out.Keys
      ensures rt.Valid() && v == old(rt.st).w.sig[this] && rt.st == Handed(old(rt.st), Sig(this), v)
    {
      KnownTop(rt.st);
      rt.Subscribe(Sig(this));
      v := value;
      rt.Record(Sig(this), v);
    }

    /** Change the value, mark what depends on it, and run the effects that were reached. */
    method Set(rt: Runtime, v: Value) returns (raised: bool)
      requires rt.Valid() && Stable(rt.st) && this in rt.st.w.sig
      modifies rt, rt.st.w.sig.Keys, rt.st.w.fn.Keys, rt.st.out.Keys
      ensures rt.Valid() && rt.st.current == [] && rt.st.stack == []
      ensures v == old(value) ==> !raised && rt.st == old(rt.st)
      ensures v != old(value) ==>
                var w := World(old(rt.st).w.sig[this := v], old(rt.st).w.fn);
                var roots := Subs(old(rt.st).edges, Sig(this));
                && Wf(w) && rt.st.w == w && rt.st.out.Keys == old(rt.st).out.Keys
                && (forall e :: e in old(rt.st).out ==> Closed(e.fn, w))
                && (raised <==> SomeCycle(w, old(rt.st).out.Keys))
                && (!raised ==> Stable(rt.st) && Refreshed(old(rt.st), rt.st, w, {}, roots))
    {
      if v == value {
        return false;
      }
      ghost var st0 := rt.st;
      ghost var roots := Subs(st0.edges, Sig(this));
      SetValue(rt, v);
      ChangedSignal(st0, this, v);
      raised := rt.Spread(subs, st0, {});
    }
  }

  /** A cached function of other nodes; a get runs the function when the cache is marked dirty. */
  class Computed {
    var fn: Fn
    var value: Value
    var dirty: bool
    var subs: set<Sub>
    var sources: set<Source>

    /** An object that Init has not seen yet: functions can mention it before it is created. */
    constructor () {}

    method Init(p: Fn)
      modifies this
      ensures fn == p && dirty && subs == {} && sources == {}
    {
      fn, dirty, subs, sources := p, true, {}, {};
    }

    /**
     * Create computeds, in any order. Their functions may read any node: the old ones, the other
     * new ones and the one whose function it is.
     */
    static method CreateAll(rt: Runtime, fns: map<Computed, Fn>) returns (ghost vals: map<Computed, Value>)
      requires rt.Valid() && Stable(rt.st) && fns.Keys !! rt.st.w.fn.Keys
      requires Wf(World(rt.st.w.sig, rt.st.w.fn + fns))
      modifies rt`st, fns.Keys
      ensures rt.Valid() && Stable(rt.st)
      ensures vals.Keys == fns.Keys && rt.st == WithComputeds(old(rt.st), fns, vals)
    {
      InitAll(rt, fns);
      vals := map c | c in fns :: c.value;
      WithComputedsKeeps(rt.st, fns, vals);
      rt.AdoptAll(fns, vals);
    }

    static method InitAll(ghost rt: Runtime, fns: map<Computed, Fn>)
      requires rt.Valid() && fns.Keys !! rt.st.w.fn.Keys
      modifies fns.Keys
      ensures rt.Valid() && forall c :: c in fns ==> c.fn == fns[c] && c.dirty && c.subs == {} && c.sources == {}
    {
      var rest := fns.Keys;
      while rest != {}
        invariant rest <= fns.Keys && rt.Valid()
        invariant forall c :: c in fns && c !in rest ==> c.fn == fns[c] && c.dirty && c.subs == {} && c.sources == {}
        decreases rest
      {
        var c :| c in rest;
        c.Init(fns[c]);
        rest := rest - {c};
      }
    }

    /** Force a re-evaluation after the function changed; w0 is the world before that. */
    method MarkStale(rt: Runtime, ghost w0: World) returns (raised: bool)
      requires rt.Valid() && Stable(rt.st.(w := w0)) && this in w0.fn && this in rt.st.w.fn && Wf(rt.st.w)
      requires rt.st.w.sig == w0.sig && rt.st.w.fn == w0.fn[this := rt.st.w.fn[this]]
      modifies rt, rt.st.w.sig.Keys, rt.st.w.fn.Keys, rt.st.out.Keys
      ensures rt.Valid() && rt.st.current == [] && rt.st.stack == []
      ensures rt.st.w == old(rt.st).w && rt.st.out.Keys == old(rt.st).out.Keys
      ensures forall e :: e in old(rt.st).out ==> Closed(e.fn, old(rt.st).w)
      ensures raised <==> SomeCycle(old(rt.st).w, old(rt.st).out.Keys)
      ensures !raised ==> Stable(rt.st)
      ensures !raised ==> Refreshed(old(rt.st), rt.st, old(rt.st).w, {this}, Subs(old(rt.st).edges, Comp(this)))
    {
      ghost var st0 := rt.st.(w := w0);
      ghost var roots := Subs(st0.edges, Comp(this));
      ghost var st1 := rt.st.(dirty := rt.st.dirty + {this});
      ChangedFunction(st0, st1, this);
      SetDirty(rt);
      raised := rt.Spread(subs, st0, {this});
      if !raised {
        RefreshedFrom(st0, st0.(w := rt.st.w), rt.st, {this}, roots);
      }
    }

    method SetFn(rt: Runtime, p: Fn)
      requires rt.Valid() && this in rt.st.w.fn
      modifies this`fn, rt`st
      ensures rt.Valid()
      ensures rt.st == old(rt.st).(w := World(old(rt.st).w.sig, old(rt.st).w.fn[this := p]))
    {
      fn := p;
      rt.st := rt.st.(w := World(rt.st.w.sig, rt.st.w.fn[this := p]));
    }

    /** Give this computed another function, then mark it stale. */
    method Refit(rt: Runtime, p: Fn) returns (raised: bool)
      requires rt.Valid() && Stable(rt.st) && this in rt.st.w.fn && Closed(p, rt.st.w)
      modifies rt, rt.st.w.sig.Keys, rt.st.w.fn.Keys, rt.st.out.Keys
      ensures rt.Valid() && rt.st.current == [] && rt.st.stack == []
      ensures var w := World(old(rt.st).w.sig, old(rt.st).w.fn[this := p]);
              var roots := Subs(old(rt.st).edges, Comp(this));
              && Wf(w) && rt.st.w == w && rt.st.out.Keys == old(rt.st).out.Keys
              && (forall e :: e in old(rt.st).out ==> Closed(e.fn, w))
              && (raised <==> SomeCycle(w, old(rt.st).out.Keys))
              && (!raised ==> Stable(rt.st) && Refreshed(old(rt.st), rt.st, w, {this}, roots))
    {
      ghost var st0 := rt.st;
      RefittedWf(st0, this, p);
      SetFn(rt, p);
      ghost var st1 := rt.st;
      assert st1.(w := st0.w) == st0;
      raised := MarkStale(rt, st0.w);
    }

    method AddSub(rt: Runtime, n: Sub)
      requires rt.Valid() && this in rt.st.w.fn
      modifies this`subs, rt`st
      ensures rt.Valid() && rt.st == old(rt.st).(backs := old(rt.st).backs + {(Comp(this), n)})
    {
      hide Srcs, Subs;
      BacksAdded(rt.st.backs, Comp(this), n);
      subs := subs + {n};
      rt.st := rt.st.(backs := rt.st.backs + {(Comp(this), n)});
    }

    method DropSub(rt: Runtime, n: Sub)
      requires rt.Valid() && this in rt.st.w.fn
      modifies this`subs, rt`st
      ensures rt.Valid() && rt.st == old(rt.st).(backs := old(rt.st).backs - {(Comp(this), n)})
    {
      hide Srcs, Subs;
      BacksDropped(rt.st.backs, Comp(this), n);
      subs := subs - {n};
      rt.st := rt.st.(backs := rt.st.backs - {(Comp(this), n)});
    }

    method AddSource(rt: Runtime, src: Source)
      requires rt.Valid() && this in rt.st.w.fn
      modifies this`sources, rt`st
      ensures rt.Valid() && rt.st == old(rt.st).(edges := old(rt.st).edges + {(src, SubComp(this))})
    {
      hide Srcs, Subs;
      EdgesAdded(rt.st.edges, src, SubComp(this));
      sources := sources + {src};
      rt.st := rt.st.(edges := rt.st.edges + {(src, SubComp(this))});
    }

    method ClearSources(rt: Runtime)
      requires rt.Valid() && this in rt.st.w.fn
      modifies this`sources, rt`st
      ensures rt.Valid() && rt.st == old(rt.st).(edges := Without(old(rt.st).edges, SubComp(this)))
    {
      hide Srcs, Subs;
      WithoutSrcs(rt.st.edges, SubComp(this));
      sources := {};
      rt.st := rt.st.(edges := Without(rt.st.edges, SubComp(this)));
    }

    method SetDirty(rt: Runtime)
      requires rt.Valid() && this in rt.st.w.fn
      modifies this`dirty, rt`st
      ensures rt.Valid() && rt.st == old(rt.st).(dirty := old(rt.st).dirty + {this})
    {
      hide Srcs, Subs;
      dirty := true;
      rt.st := rt.st.(dirty := rt.st.dirty + {this});
    }

    method Invalidate(rt: Runtime)
      requires rt.Valid() && Typed(rt.st) && rt.st.stack == [] && this in rt.st.w.fn
      modifies rt, rt.st.w.fn.Keys
      ensures rt.Valid() && Typed(rt.st) && Invalidated(old(rt.st), rt.st, {SubComp(this)})
      decreases rt.st.w.fn.Keys - rt.st.dirty, 0, 0
    {
      if !dirty {
        ghost var st0 := rt.st;
        MarkedTyped(st0, this);
        SetDirty(rt);
        rt.Invalidate(subs);
        InvalidatedComputed(st0, rt.st, this);
      }
    }

    /** The start of a recomputation, up to the call of the function. */
    method Enter(rt: Runtime)
      requires rt.Valid() && this in rt.st.w.fn && this in rt.st.evals && rt.st.backs == rt.st.edges
      requires forall x :: x in Srcs(rt.st.edges, SubComp(this)) ==> Known(x, rt.st.w)
      modifies rt, rt.st.w.sig.Keys`subs, rt.st.w.fn.Keys`subs, this`sources, this`dirty
      ensures rt.Valid() && rt.st == Entered(old(rt.st), this)
    {
      hide Srcs, Subs;
      DetachedAll(rt.st.edges, SubComp(this));
      rt.Unsubscribe(sources, SubComp(this));
      ClearSources(rt);
      Start(rt);
    }

    method Start(rt: Runtime)
      requires rt.Valid() && this in rt.st.w.fn && this in rt.st.evals
      modifies rt, this`dirty
      ensures rt.Valid()
      ensures rt.st == old(rt.st).(dirty := old(rt.st).dirty - {this}, stack := old(rt.st).stack + [this],
                                   current := old(rt.st).current + [SubComp(this)],
                                   evals := old(rt.st).evals[this := old(rt.st).evals[this] + 1])
    {
      hide Srcs, Subs;
      dirty := false;
      rt.recomputeStack := rt.recomputeStack + [this];
      rt.current := rt.current + [SubComp(this)];
      ghost var st' := rt.st.(dirty := rt.st.dirty - {this}, stack := rt.recomputeStack, current := rt.current,
                              evals := rt.st.evals[this := rt.st.evals[this] + 1]);
      forall c | c in st'.w.fn
        ensures c.fn == st'.w.fn[c] && c in st'.val && c.value == st'.val[c] && (c.dirty <==> c in st'.dirty)
        ensures c.subs == Subs(st'.backs, Comp(c)) && c.sources == Srcs(st'.edges, SubComp(c))
      {}
      rt.st := st';
    }

    /** The end of a recomputation: both stacks are popped whether or not the function raised. */
    method Finish(rt: Runtime, r: Result)
      requires rt.Valid() && this in rt.st.w.fn && rt.st.current != [] && rt.st.stack != []
      modifies rt, this`value
      ensures rt.Valid() && rt.st == Popped(old(rt.st), this, r)
    {
      hide Srcs, Subs;
      if r.Ok? {
        value := r.v;
      }
      rt.current := rt.current[..|rt.current| - 1];
      rt.recomputeStack := rt.recomputeStack[..|rt.recomputeStack| - 1];
      rt.st := Popped(rt.st, this, r);
    }

    method Recompute(rt: Runtime) returns (r: Result)
      requires rt.Valid() && Inv(rt.st) && this in rt.st.dirty
      modifies rt, rt.st.w.sig.Keys, rt.st.w.fn.Keys, rt.st.out.Keys
      ensures rt.Valid() && SameFrame(old(rt.st), rt.st)
      ensures r == Eval(old(rt.st).w, this, Elems(old(rt.st).stack))
      ensures r.Ok? ==> Inv(rt.st) && Pulled(old(rt.st), rt.st, {}) && this in Clean(rt.st)
      ensures r.Cycle? ==> LeftStale(old(rt.st), rt.st, this) && !Inv(rt.st)
      decreases rt.st.w.fn.Keys - Elems(rt.st.stack), 0
    {
      ghost var st0 := rt.st;
      ReadyToEnter(st0, this);
      Enter(rt);
      r := rt.Call(fn, SubComp(this));
      RecomputeEnds(st0, rt.st, this, r);
      Finish(rt, r);
      if r.Cycle? {
        StaleIsLost(st0, rt.st, this);
      }
    }

    method Get(rt: Runtime) returns (r: Result)
      requires rt.Valid() && Inv(rt.st) && this in rt.st.w.fn
      modifies rt, rt.st.w.sig.Keys, rt.st.w.fn.Keys, rt.st.out.Keys
      ensures rt.Valid() && SameFrame(old(rt.st), rt.st)
      ensures r == Eval(old(rt.st).w, this, Elems(old(rt.st).stack))
      ensures r.Ok? ==> Inv(rt.st) && Pulled(old(rt.st), rt.st, Top(old(rt.st))) && this in Clean(rt.st)
      ensures r.Ok? ==> forall n :: n in Top(old(rt.st)) ==>
                Srcs(rt.st.edges, n) == Srcs(old(rt.st).edges, n) + {Comp(this)}
      ensures r.Cycle? && this !in old(rt.st).stack ==> LeftStale(old(rt.st), rt.st, this)
      ensures Inv(rt.st) <==> r.Ok? || this in old(rt.st).stack
      ensures r.Ok? ==> Solves(rt.st.w, rt.st.val, Clean(rt.st)) && this in rt.st.val && r.v == rt.st.val[this]
      decreases rt.st.w.fn.Keys - Elems(rt.st.stack), 1
    {
      if this in rt.recomputeStack {
        return Cycle;
      }
      ghost var st0 := rt.st;
      if dirty {
        r := Recompute(rt);
        if r.Cycle? {
          return;
        }
      }
      r := Hand(rt, st0);
      CachesSolve(rt.st);
    }

    /** The end of a get that began in st0: the cache is clean by now. */
    method Hand(rt: Runtime, ghost st0: State) returns (r: Result)
      requires rt.Valid() && Inv(rt.st) && this in Clean(rt.st) && Inv(st0) && Pulled(st0, rt.st, {})
      modifies rt, rt.st.w.sig.Keys, rt.st.w.fn.Keys, rt.st.out.Keys
      ensures rt.Valid() && r.Ok? && r == Eval(st0.w, this, Elems(st0.stack))
                && rt.st == Handed(old(rt.st), Comp(this), r.v)
      ensures Inv(rt.st) && Pulled(st0, rt.st, Top(st0)) && this in Clean(rt.st)
      ensures this in rt.st.val && r.v == rt.st.val[this]
      ensures forall n :: n in Top(st0) ==> Srcs(rt.st.edges, n) == Srcs(st0.edges, n) + {Comp(this)}
    {
      ghost var st1 := rt.st;
      KnownTop(st1);
      rt.Subscribe(Comp(this));
      r := Ok(value);
      HandedOn(st0, st1, this, r.v);
      rt.Record(Comp(this), r.v);
    }
  }

  /** A node nobody reads: its function runs at creation and at every flush that reaches it. */
  class Effect {
    const fn: Fn
    var output: Value
    var count: nat
    var sources: set<Source>

    constructor (p: Fn)
      ensures fn == p && sources == {} && count == 0
    {
      fn, sources, count := p, {}, 0;
    }

    /** A new effect runs at once. */
    static method Create(rt: Runtime, p: Fn) returns (e: Effect, raised: bool)
      requires rt.Valid() && Stable(rt.st) && Closed(p, rt.st.w)
      modifies rt, rt.st.w.sig.Keys, rt.st.w.fn.Keys, rt.st.out.Keys
      ensures rt.Valid() && fresh(e) && e.fn == p && rt.st.current == [] && rt.st.stack == []
      ensures rt.st.w == old(rt.st).w && rt.st.out.Keys == old(rt.st).out.Keys + {e}
      ensures raised <==> Run(old(rt.st).w, p, [], {}) == Cycle
      ensures !raised ==> Stable(rt.st) && Launched(old(rt.st), rt.st, e)
    {
      ghost var st0 := rt.st;
      e := Join(rt, p);
      raised := e.Begin(rt, st0, e.output);
    }

    /** The first run of an effect that has just joined the nodes of st0. */
    method Begin(rt: Runtime, ghost st0: State, ghost v: Value) returns (raised: bool)
      requires Stable(st0) && this !in st0.out && Closed(fn, st0.w)
      requires rt.Valid() && rt.st == WithEffect(st0, this, v) && Inv(Queued(rt.st, this))
      modifies rt, rt.st.w.sig.Keys, rt.st.w.fn.Keys, rt.st.out.Keys
      ensures rt.Valid() && rt.st.current == [] && rt.st.stack == []
      ensures rt.st.w == st0.w && rt.st.out.Keys == st0.out.Keys + {this}
      ensures raised <==> Run(st0.w, fn, [], {}) == Cycle
      ensures !raised ==> Stable(rt.st) && Launched(st0, rt.st, this)
    {
      ghost var st1 := rt.st;
      var r := Execute(rt);
      raised := r.Cycle?;
      if !raised {
        FirstRun(st0, st1, rt.st, this, v);
      }
    }

    /** A new effect that has not run yet. */
    static method Join(rt: Runtime, p: Fn) returns (e: Effect)
      requires rt.Valid() && Stable(rt.st) && Closed(p, rt.st.w)
      modifies rt`st
      ensures rt.Valid() && fresh(e) && e.fn == p && e !in old(rt.st).out
      ensures rt.st == WithEffect(old(rt.st), e, e.output) && Inv(Queued(rt.st, e))
    {
      e := new Effect(p);
      WithEffectKeeps(rt.st, e, e.output);
      rt.Adopt(e);
    }

    method Start(rt: Runtime)
      requires rt.Valid() && this in rt.st.out && this in rt.st.runs
      modifies rt, this`count
      ensures rt.Valid()
      ensures rt.st == old(rt.st).(current := old(rt.st).current + [SubEff(this)],
                                   runs := old(rt.st).runs[this := old(rt.st).runs[this] + 1])
    {
      hide Srcs, Subs;
      count := count + 1;
      rt.current := rt.current + [SubEff(this)];
      rt.st := rt.st.(current := rt.current, runs := rt.st.runs[this := rt.st.runs[this] + 1]);
    }

    method Finish(rt: Runtime, r: Result)
      requires rt.Valid() && this in rt.st.out && rt.st.current != []
      modifies rt, this`output
      ensures rt.Valid()
      ensures rt.st == old(rt.st).(current := old(rt.st).current[..|old(rt.st).current| - 1],
                                   out := if r.Ok? then old(rt.st).out[this := r.v] else old(rt.st).out)
    {
      hide Srcs, Subs;
      if r.Ok? {
        output := r.v;
      }
      rt.current := rt.current[..|rt.current| - 1];
      rt.st := rt.st.(current := rt.current, out := if r.Ok? then rt.st.out[this := r.v] else rt.st.out);
    }

    /** The start of a run, up to the call of the function. */
    method Enter(rt: Runtime)
      requires rt.Valid() && this in rt.st.out && this in rt.st.runs && rt.st.backs == rt.st.edges
      requires forall x :: x in Srcs(rt.st.edges, SubEff(this)) ==> Known(x, rt.st.w)
      requires rt.st.current == []
      modifies rt, rt.st.w.sig.Keys`subs, rt.st.w.fn.Keys`subs, this`sources, this`count
      ensures rt.Valid() && rt.st == Started(old(rt.st), this)
    {
      hide Srcs, Subs;
      DetachedAll(rt.st.edges, SubEff(this));
      rt.Unsubscribe(sources, SubEff(this));
      ClearSources(rt);
      Start(rt);
    }

    method Execute(rt: Runtime) returns (r: Result)
      requires rt.Valid() && Inv(Queued(rt.st, this)) && rt.st.current == [] && rt.st.stack == []
      modifies rt, rt.st.w.sig.Keys, rt.st.w.fn.Keys, rt.st.out.Keys
      ensures rt.Valid() && rt.st.w == old(rt.st).w && rt.st.out.Keys == old(rt.st).out.Keys
      ensures rt.st.current == [] && rt.st.stack == [] && rt.st.pending == old(rt.st).pending
      ensures this in old(rt.st).out && r == Run(old(rt.st).w, fn, [], {})
      ensures r.Ok? ==> Inv(rt.st) && EffectRan(old(rt.st), rt.st, this)
    {
      ghost var st0 := rt.st;
      ReadyToRun(st0, this);
      Enter(rt);
      r := rt.Call(fn, SubEff(this));
      RunEnds(st0, rt.st, this, r);
      Finish(rt, r);
    }

    method AddSource(rt: Runtime, src: Source)
      requires rt.Valid() && this in rt.st.out
      modifies this`sources, rt`st
      ensures rt.Valid() && rt.st == old(rt.st).(edges := old(rt.st).edges + {(src, SubEff(this))})
    {
      hide Srcs, Subs;
      EdgesAdded(rt.st.edges, src, SubEff(this));
      sources := sources + {src};
      rt.st := rt.st.(edges := rt.st.edges + {(src, SubEff(this))});
    }

    method ClearSources(rt: Runtime)
      requires rt.Valid() && this in rt.st.out
      modifies this`sources, rt`st
      ensures rt.Valid() && rt.st == old(rt.st).(edges := Without(old(rt.st).edges, SubEff(this)))
    {
      hide Srcs, Subs;
      WithoutSrcs(rt.st.edges, SubEff(this));
      sources := {};
      rt.st := rt.st.(edges := Without(rt.st.edges, SubEff(this)));
    }
  }

  /** What holds of the lists, the effects and the running computeds even after a function raised. */
  ghost predicate SameFrame(st: State, st': State) {
    && st'.w == st.w && st'.out == st.out && st'.runs == st.runs
    && st'.pending == st.pending && st'.current == st.current && st'.stack == st.stack
    && st'.dirty <= st.dirty
    && (forall c :: c in st.stack && c in st.val ==> c in st'.val && st'.val[c] == st.val[c])
  }

  lemma {:induction false} SameFrameCompose(a: State, b: State, c: State)
    requires SameFrame(a, b) && SameFrame(b, c)
    ensures SameFrame(a, c)
  {}

  /** A computed whose function raised is left marked clean, with the value it had before. */
  ghost predicate LeftStale(st: State, st': State, c: Computed) {
    c !in st'.dirty && c in st.val && c in st'.val && st'.val[c] == st.val[c]
  }

  /** The cache invariant is lost exactly then: a clean computed without a from-scratch value. */
  lemma {:induction false} StaleIsLost(st: State, st': State, c: Computed)
    requires Typed(st) && c in st.w.fn && c !in st.stack && Eval(st.w, c, Elems(st.stack)).Cycle?
    requires SameFrame(st, st') && LeftStale(st, st', c)
    ensures !Inv(st')
  {
    if Inv(st') {
      CachedValue(st', c);
    }
  }

  lemma {:induction false} KnownTop(st: State)
    requires Typed(st)
    ensures forall n :: n in Top(st) ==> n in st.current && KnownSub(n, st)
  {
    if st.current != [] {
      assert st.current[|st.current| - 1] in st.current;
    }
  }

  /** What a recomputation of c may rely on before and after it starts. */
  lemma {:induction false} ReadyToEnter(st: State, c: Computed)
    requires Inv(st) && c in st.dirty
    ensures c in st.w.fn && c in st.evals && st.backs == st.edges
    ensures forall x :: x in Srcs(st.edges, SubComp(c)) ==> Known(x, st.w)
    ensures Inv(Entered(st, c)) && Clean(Entered(st, c)) == Clean(st)
    ensures Top(Entered(st, c)) == {SubComp(c)} && Srcs(Entered(st, c).edges, SubComp(c)) == {}
    ensures Elems(Entered(st, c).stack) == Elems(st.stack) + {c} && c !in Elems(st.stack)
    ensures Eval(st.w, c, Elems(st.stack)) == Run(st.w, st.w.fn[c], [], Elems(st.stack) + {c})
    ensures Closed(st.w.fn[c], st.w)
    ensures Entered(st, c).stack[..|st.stack|] == st.stack && Entered(st, c).current[..|st.current|] == st.current
  {
    SrcsKnown(st, SubComp(c));
    EnteredKeeps(st, c);
  }

  /** The stacks popped after the function of c returned or raised. */
  ghost function Popped(st: State, c: Computed, r: Result): State
    requires st.current != [] && st.stack != []
  {
    st.(current := st.current[..|st.current| - 1], stack := st.stack[..|st.stack| - 1],
        val := if r.Ok? then st.val[c := r.v] else st.val)
  }

  lemma {:induction false} RecomputeEnds(st: State, st2: State, c: Computed, r: Result)
    requires Inv(st) && c in st.dirty && SameFrame(Entered(st, c), st2)
    requires r == Run(st.w, st.w.fn[c], [], Elems(st.stack) + {c})
    requires r.Ok? ==> Inv(st2) && Pulled(Entered(st, c), st2, {SubComp(c)})
    requires r.Ok? ==> Srcs(st2.edges, SubComp(c)) == Reads(st.w, st.w.fn[c], [])
                       && CompsIn(Srcs(st2.edges, SubComp(c))) <= Clean(st2)
    ensures st2.current != [] && st2.stack != [] && SameFrame(st, Popped(st2, c, r))
    ensures r.Ok? ==> Inv(Popped(st2, c, r)) && Pulled(st, Popped(st2, c, r), {}) && c in Clean(Popped(st2, c, r))
    ensures r.Cycle? ==> LeftStale(st, Popped(st2, c, r), c)
  {
    assert Entered(st, c).stack[|st.stack|] == c;
    assert forall d :: d in st.stack ==> d in Entered(st, c).stack && d != c;
    assert st2.current[..|st.current|] == st.current && st2.stack[..|st.stack|] == st.stack;
    if r.Ok? {
      LeftKeeps(st, st2, c, r.v);
      assert Popped(st2, c, r) == Left(st2, st, c, r.v);
    }
  }

  lemma {:induction false} ReadyToRun(st: State, e: Effect)
    requires Inv(Queued(st, e)) && st.current == [] && st.stack == []
    ensures e in st.out && e in st.runs && st.backs == st.edges && Closed(e.fn, st.w)
    ensures forall x :: x in Srcs(st.edges, SubEff(e)) ==> Known(x, st.w)
    ensures Inv(Started(st, e)) && Srcs(Started(st, e).edges, SubEff(e)) == {} && Top(Started(st, e)) == {SubEff(e)}
    ensures Elems(st.stack) == {}
  {
    UnqueuedTyped(st, e);
    SrcsKnown(st, SubEff(e));
    StartedKeeps(st, e);
  }

  lemma {:induction false} RunEnds(st: State, st2: State, e: Effect, r: Result)
    requires e in st.runs && e in st.out && st.current == [] && st.stack == [] && SameFrame(Started(st, e), st2)
    requires r.Ok? ==> Inv(st2) && Pulled(Started(st, e), st2, {SubEff(e)}) && Run(st2.w, e.fn, [], {}) == r
    requires r.Ok? ==> Srcs(st2.edges, SubEff(e)) == Reads(st2.w, e.fn, [])
                       && CompsIn(Srcs(st2.edges, SubEff(e))) <= Clean(st2)
    ensures st2.current == [SubEff(e)] && st2.current[..0] == []
    ensures r.Ok? ==> Inv(Finished(st2, e, r.v)) && EffectRan(st, Finished(st2, e, r.v), e)
  {
    if r.Ok? {
      FinishedKeeps(st2, e, r.v);
      FinishedRan(st, st2, e, r.v);
    }
  }

  ghost function WithSignal(st: State, s: Signal, v: Value): State {
    st.(w := World(st.w.sig[s := v], st.w.fn))
  }

  lemma {:induction false} WithSignalKeeps(st: State, s: Signal, v: Value)
    requires Stable(st) && s !in st.w.sig
    ensures Stable(WithSignal(st, s, v)) && Subs(st.backs, Sig(s)) == {}
  {
    assert forall x :: x in st.edges ==> x.0 != Sig(s);
    WithSignalTyped(st, s, v);
    assert st.dirty + (st.w.fn.Keys - st.w.fn.Keys) == st.dirty;
    ExtendedKeeps(st, WithSignal(st, s, v));
  }

  lemma {:induction false} WithSignalTyped(st: State, s: Signal, v: Value)
    requires Typed(st) && s !in st.w.sig
    ensures Typed(WithSignal(st, s, v))
  {
    assert forall x :: Known(x, st.w) ==> Known(x, WithSignal(st, s, v).w);
  }

  /** The state with new computeds: dirty, holding any value, never evaluated. */
  ghost function WithComputeds(st: State, fns: map<Computed, Fn>, vals: map<Computed, Value>): State {
    st.(w := World(st.w.sig, st.w.fn + fns), val := st.val + vals, dirty := st.dirty + fns.Keys,
        evals := st.evals + map c | c in fns :: 0)
  }

  lemma {:induction false} WithComputedsKeeps(st: State, fns: map<Computed, Fn>, vals: map<Computed, Value>)
    requires Stable(st) && fns.Keys !! st.w.fn.Keys && Wf(World(st.w.sig, st.w.fn + fns)) && vals.Keys == fns.Keys
    ensures Stable(WithComputeds(st, fns, vals))
    ensures forall c :: c in fns ==> Subs(st.backs, Comp(c)) == {} && Srcs(st.edges, SubComp(c)) == {}
  {
    var st' := WithComputeds(st, fns, vals);
    forall c | c in fns
      ensures Subs(st.backs, Comp(c)) == {} && Srcs(st.edges, SubComp(c)) == {}
    {
      NotYetLinked(st, c);
    }
    assert st'.w.fn.Keys - st.w.fn.Keys == fns.Keys;
    WithComputedsTyped(st, fns, vals);
    ExtendedKeeps(st, st');
  }

  lemma {:induction false} NotYetLinked(st: State, c: Computed)
    requires Typed(st) && c !in st.w.fn
    ensures Subs(st.backs, Comp(c)) == {} && Srcs(st.edges, SubComp(c)) == {}
  {
    assert forall x :: x in st.edges ==> x.0 != Comp(c) && x.1 != SubComp(c);
  }

  lemma {:induction false} WithComputedsTyped(st: State, fns: map<Computed, Fn>, vals: map<Computed, Value>)
    requires Typed(st) && Wf(World(st.w.sig, st.w.fn + fns)) && vals.Keys == fns.Keys && fns.Keys !! st.w.fn.Keys
    ensures Typed(WithComputeds(st, fns, vals))
  {
    var st' := WithComputeds(st, fns, vals);
    assert st'.val.Keys == st'.evals.Keys == st'.w.fn.Keys;
    WiderWorld(st.w, st'.w);
    assert forall n :: KnownSub(n, st) ==> KnownSub(n, st');
  }

  lemma {:induction false} WiderWorld(w: World, w': World)
    requires w.sig.Keys <= w'.sig.Keys && w.fn.Keys <= w'.fn.Keys
    ensures forall x :: Known(x, w) ==> Known(x, w')
    ensures forall p :: Closed(p, w) ==> Closed(p, w')
  {
    assert forall x :: Known(x, w) ==> Known(x, w');
  }

  ghost function WithEffect(st: State, e: Effect, v: Value): State {
    st.(out := st.out[e := v], runs := st.runs[e := 0])
  }

  lemma {:induction false} WithEffectKeeps(st: State, e: Effect, v: Value)
    requires Stable(st) && e !in st.out && Closed(e.fn, st.w)
    ensures Inv(Queued(WithEffect(st, e, v), e)) && Srcs(st.edges, SubEff(e)) == {}
  {
    var st' := Queued(WithEffect(st, e, v), e);
    assert st.dirty + (st.w.fn.Keys - st.w.fn.Keys) == st.dirty;
    assert forall x :: x in st.edges ==> x.1 != SubEff(e);
    assert st'.pending == [e];
    ExtendedKeeps(st, st');
  }

  /** st' is st with the new effect e, which has run once. */
  ghost predicate Launched(st: State, st': State, e: Effect) {
    && st'.w == st.w && st'.runs == st.runs[e := 1] && st'.out.Keys == st.out.Keys + {e}
    && (forall x :: x in st.out && x != e ==> x in st'.out && st'.out[x] == st.out[x])
  }

  lemma {:induction false} FirstRun(st: State, st1: State, st': State, e: Effect, v: Value)
    requires e !in st.out && st1 == WithEffect(st, e, v)
    requires EffectRan(st1, st', e) && st'.out.Keys == st1.out.Keys
    ensures Launched(st, st', e)
  {
    assert st'.w == st.w && st1.runs == st.runs[e := 0] && st1.out == st.out[e := v];
    assert st'.runs == st.runs[e := 1];
  }

  lemma {:induction false} RefittedWf(st: State, c: Computed, p: Fn)
    requires Stable(st) && c in st.w.fn && Closed(p, st.w)
    ensures Wf(World(st.w.sig, st.w.fn[c := p]))
    ensures forall e :: e in st.out ==> Closed(e.fn, World(st.w.sig, st.w.fn[c := p]))
  {
    assert forall x :: Known(x, st.w) ==> Known(x, World(st.w.sig, st.w.fn[c := p]));
  }

  lemma {:induction false} ChangedFunction(st0: State, st1: State, c: Computed)
    requires Stable(st0) && c in st0.w.fn && c in st1.w.fn && Wf(st1.w)
    requires st1 == st0.(w := st1.w, dirty := st0.dirty + {c})
    requires st1.w.sig == st0.w.sig && st1.w.fn == st0.w.fn[c := st1.w.fn[c]]
    ensures Changed(st0, st1, {c}, Subs(st0.edges, Comp(c)))
    ensures forall n :: n in Subs(st0.edges, Comp(c)) ==> KnownSub(n, st1)
  {
    forall n | n in Subs(st0.edges, Comp(c))
      ensures KnownSub(n, st1)
    {
      assert (Comp(c), n) in st0.edges;
    }
  }

  lemma {:induction false} DetachedAll(edges: set<(Source, Sub)>, n: Sub)
    ensures Detached(edges, Srcs(edges, n), n) == Without(edges, n)
  {}

  /** Handing out the cached value of c completes a read of c begun in st0. */
  lemma {:induction false} HandedOn(st0: State, st1: State, c: Computed, v: Value)
    requires Inv(st0) && Inv(st1) && Pulled(st0, st1, {}) && c in Clean(st1) && v == st1.val[c]
    ensures Ok(v) == Eval(st0.w, c, Elems(st0.stack))
    ensures Inv(Handed(st1, Comp(c), v)) && Pulled(st0, Handed(st1, Comp(c), v), Top(st0))
    ensures c in Clean(Handed(st1, Comp(c), v))
    ensures forall n :: n in Top(st0) ==> Srcs(Handed(st1, Comp(c), v).edges, n) == Srcs(st0.edges, n) + {Comp(c)}
  {
    CachedValue(st1, c);
    assert CompOk(st1, c);
    HandedKeeps(st1, Comp(c), v);
    PulledWider(st0, st1, {}, Top(st0));
    PulledCompose(st0, st1, Handed(st1, Comp(c), v), Top(st0));
    KnownTop(st0);
    forall n | n in Top(st0)
      ensures Srcs(st1.edges, n) == Srcs(st0.edges, n)
    {
      assert n !in Lift(st0.dirty - st1.dirty);
      PulledSrcs(st0, st1, {}, n);
    }
  }

  lemma {:induction false} PulledWider(st: State, st': State, A: set<Sub>, B: set<Sub>)
    requires Pulled(st, st', A) && A <= B
    ensures Pulled(st, st', B)
  {
    var X, Y := A + Lift(st.dirty - st'.dirty), B + Lift(st.dirty - st'.dirty);
    forall x
      ensures x in Outside(st.edges, Y) <==> x in Outside(st'.edges, Y)
    {
      assert x.1 !in Y ==> (x in Outside(st.edges, X) <==> x in Outside(st'.edges, X));
    }
  }

  /** The state st0 in which n called a function has become st by reads. */
  ghost predicate Underway(st0: State, st: State, n: Sub) {
    Inv(st) && SameFrame(st0, st) && Pulled(st0, st, {n}) && Top(st) == {n}
  }

  /** p, which n called, has read the values h so far. */
  ghost predicate HasRead(st: State, p: Fn, h: seq<Value>, n: Sub) {
    && Wf(st.w) && Closed(p, st.w)
    && Run(st.w, p, h, Elems(st.stack)) == Run(st.w, p, [], Elems(st.stack))
    && Srcs(st.edges, n) + Reads(st.w, p, h) == Reads(st.w, p, [])
    && CompsIn(Srcs(st.edges, n)) <= Clean(st)
  }

  ghost predicate Midway(st0: State, st: State, p: Fn, h: seq<Value>, n: Sub) {
    Underway(st0, st, n) && HasRead(st, p, h, n)
  }

  lemma {:induction false} UnderwayOn(st0: State, st1: State, st2: State, n: Sub)
    requires Underway(st0, st1, n) && Inv(st2) && SameFrame(st0, st2) && Pulled(st1, st2, {n})
    ensures Underway(st0, st2, n)
  {
    PulledCompose(st0, st1, st2, {n});
  }

  lemma {:induction false} HasReadOn(st1: State, st2: State, p: Fn, h: seq<Value>, n: Sub, v: Value)
    requires HasRead(st1, p, h, n) && st2.w == st1.w && st2.stack == st1.stack && Clean(st1) <= Clean(st2)
    requires p.step(h).Read? && Lookup(st1.w, p.step(h).src, Elems(st1.stack)) == Ok(v)
    requires p.step(h).src.Comp? ==> p.step(h).src.c in Clean(st2)
    requires Srcs(st2.edges, n) == Srcs(st1.edges, n) + {p.step(h).src}
    ensures HasRead(st2, p, h + [v], n)
  {
    RunStep(st1.w, p, h, Elems(st1.stack), v);
    assert CompsIn(Srcs(st2.edges, n)) <= CompsIn(Srcs(st1.edges, n)) + CompsIn({p.step(h).src});
  }

  /** One read of the running function p, after the history h. */
  lemma {:induction false} ReadOn(st0: State, st1: State, st2: State, p: Fn, h: seq<Value>, n: Sub, v: Value)
    requires Midway(st0, st1, p, h, n) && Inv(st2) && SameFrame(st0, st2) && Pulled(st1, st2, {n})
    requires p.step(h).Read? && Lookup(st1.w, p.step(h).src, Elems(st1.stack)) == Ok(v)
    requires p.step(h).src.Comp? ==> p.step(h).src.c in Clean(st2)
    requires Srcs(st2.edges, n) == Srcs(st1.edges, n) + {p.step(h).src}
    ensures Midway(st0, st2, p, h + [v], n)
  {
    UnderwayOn(st0, st1, st2, n);
    assert Clean(st1) <= Clean(st2);
    HasReadOn(st1, st2, p, h, n, v);
  }

  lemma {:induction false} RunStep(w: World, p: Fn, h: seq<Value>, S: set<Computed>, v: Value)
    requires Wf(w) && Closed(p, w) && p.step(h).Read? && Lookup(w, p.step(h).src, S) == Ok(v)
    ensures Run(w, p, h + [v], S) == Run(w, p, h, S)
    ensures Reads(w, p, h) == {p.step(h).src} + Reads(w, p, h + [v])
  {
    if p.step(h).src.Comp? {
      EvalShrink(w, p.step(h).src.c, S, {});
    }
  }

  ghost function Enqueued(st: State, e: Effect): State {
    if e in st.pending then st else st.(pending := st.pending + [e])
  }

  lemma {:induction false} EnqueuedTyped(st: State, e: Effect)
    requires Typed(st) && e in st.out
    ensures Typed(Enqueued(st, e)) && Invalidated(st, Enqueued(st, e), {SubEff(e)})
  {
    var st' := Enqueued(st, e);
    assert SubEff(e) in Layer(st.edges, {SubEff(e)}, 0);
    assert e in st'.pending by {
      if e !in st.pending {
        assert st'.pending[|st.pending|] == e;
      }
    }
    assert forall x :: x in st'.pending ==> x in st.pending || x == e;
  }

  lemma {:induction false} ChangedSignal(st0: State, s: Signal, v: Value)
    requires Stable(st0) && s in st0.w.sig
    ensures var st1 := st0.(w := World(st0.w.sig[s := v], st0.w.fn));
            && Wf(st1.w) && Changed(st0, st1, {}, Subs(st0.edges, Sig(s)))
            && forall n :: n in Subs(st0.edges, Sig(s)) ==> KnownSub(n, st1)
  {
    forall n | n in Subs(st0.edges, Sig(s))
      ensures KnownSub(n, st0)
    {
      assert (Sig(s), n) in st0.edges;
    }
    var w := World(st0.w.sig[s := v], st0.w.fn);
    assert forall x :: Known(x, st0.w) <==> Known(x, w);
    assert st0.dirty + {} == st0.dirty;
  }

  /** Some effect cannot be evaluated from scratch. */
  ghost predicate SomeCycle(w: World, effects: set<Effect>)
    requires Wf(w) && forall e :: e in effects ==> Closed(e.fn, w)
  {
    exists e :: e in effects && Run(w, e.fn, [], {}) == Cycle
  }

  /** The effects that a change queues include every one that cannot be evaluated any more. */
  lemma {:induction false} ChangedRaises(st0: State, st2: State)
    requires Inv(st2) && st2.current == [] && st2.out.Keys == st0.out.Keys
    ensures SomeCycle(st2.w, st0.out.Keys) <==>
            exists e :: e in st2.pending && e in st2.out && Run(st2.w, e.fn, [], {}) == Cycle
  {
    forall e | e in st2.out && e !in st2.pending
      ensures Run(st2.w, e.fn, [], {}).Ok?
    {
      assert Quiet(st2, e) && EffOk(st2, e);
    }
  }

  /** The module-level lists, and the mirror of every node created so far. */
  class Runtime {
    var current: seq<Sub>
    var pending: seq<Effect>
    var recomputeStack: seq<Computed>
    ghost var st: State

    /** The mirror shows every field of every node. */
    ghost predicate Valid()
      reads this, st.w.sig.Keys, st.w.fn.Keys, st.out.Keys
    {
      && current == st.current && pending == st.pending && recomputeStack == st.stack
      && (forall s :: s in st.w.sig ==> s.value == st.w.sig[s] && s.subs == Subs(st.backs, Sig(s)))
      && (forall c :: c in st.w.fn ==>
            && c.fn == st.w.fn[c] && c in st.val && c.value == st.val[c] && (c.dirty <==> c in st.dirty)
            && c.subs == Subs(st.backs, Comp(c)) && c.sources == Srcs(st.edges, SubComp(c)))
      && (forall e :: e in st.out ==>
            && e.output == st.out[e] && e in st.runs && e.count == st.runs[e]
            && e.sources == Srcs(st.edges, SubEff(e)))
    }

    constructor ()
      ensures Valid() && Stable(st) && st.w == World(map[], map[]) && st.out == map[]
    {
      current, pending, recomputeStack := [], [], [];
      st := State(World(map[], map[]), map[], {}, {}, {}, map[], map[], map[], [], [], [], []);
    }

    method AddSub(src: Source, n: Sub)
      requires Valid() && Known(src, st.w)
      modifies this`st, st.w.sig.Keys`subs, st.w.fn.Keys`subs
      ensures Valid() && st == old(st).(backs := old(st).backs + {(src, n)})
    {
      match src {
        case Sig(s) => s.AddSub(this, n);
        case Comp(c) => c.AddSub(this, n);
      }
    }

    method DropSub(src: Source, n: Sub)
      requires Valid() && Known(src, st.w)
      modifies this`st, st.w.sig.Keys`subs, st.w.fn.Keys`subs
      ensures Valid() && st == old(st).(backs := old(st).backs - {(src, n)})
    {
      match src {
        case Sig(s) => s.DropSub(this, n);
        case Comp(c) => c.DropSub(this, n);
      }
    }

    method AddSource(n: Sub, src: Source)
      requires Valid() && KnownSub(n, st)
      modifies this`st, st.w.fn.Keys`sources, st.out.Keys`sources
      ensures Valid() && st == old(st).(edges := old(st).edges + {(src, n)})
    {
      match n {
        case SubComp(c) => c.AddSource(this, src);
        case SubEff(e) => e.AddSource(this, src);
      }
    }

    /** Record that the running node, if any, depends on src. */
    method Subscribe(src: Source)
      requires Valid() && Known(src, st.w) && forall n :: n in Top(st) ==> KnownSub(n, st)
      modifies this`st, st.w.sig.Keys`subs, st.w.fn.Keys`subs, st.w.fn.Keys`sources, st.out.Keys`sources
      ensures Valid()
      ensures st == old(st).(edges := Subscribed(old(st).edges, src, old(st).current),
                             backs := Subscribed(old(st).backs, src, old(st).current))
    {
      if current == [] {
        return;
      }
      var n := current[|current| - 1];
      assert n in Top(st);
      AddSub(src, n);
      AddSource(n, src);
    }

    /** Take n off the subscriber set of each of the given sources. */
    method Unsubscribe(srcs: set<Source>, n: Sub)
      requires Valid() && forall x :: x in srcs ==> Known(x, st.w)
      modifies this`st, st.w.sig.Keys`subs, st.w.fn.Keys`subs
      ensures Valid() && st == old(st).(backs := Detached(old(st).backs, srcs, n))
    {
      ghost var st0 := st;
      var rest := srcs;
      assert Detached(st0.backs, srcs - rest, n) == st0.backs;
      while rest != {}
        invariant rest <= srcs && Valid() && st == st0.(backs := Detached(st0.backs, srcs - rest, n))
      {
        var x :| x in rest;
        DropSub(x, n);
        DetachedOne(st0.backs, srcs, rest, n, x);
        rest := rest - {x};
      }
      assert srcs - rest == srcs;
    }

    ghost method Record(src: Source, v: Value)
      requires Valid()
      modifies this`st
      ensures Valid() && st == old(st).(log := old(st).log + [(src, v)])
    {
      st := st.(log := st.log + [(src, v)]);
    }

    /** Invalidate each of the given subscribers. */
    method Invalidate(nodes: set<Sub>)
      requires Valid() && Typed(st) && st.stack == [] && forall n :: n in nodes ==> KnownSub(n, st)
      modifies this, st.w.fn.Keys
      ensures Valid() && Typed(st) && Invalidated(old(st), st, nodes)
      decreases st.w.fn.Keys - st.dirty, 1, 0
    {
      ghost var st0 := st;
      var rest := nodes;
      assert nodes - rest == {};
      while rest != {}
        invariant rest <= nodes && Valid() && Typed(st) && Invalidated(st0, st, nodes - rest)
      {
        var n :| n in rest;
        ghost var st1 := st;
        InvalidateOne(n);
        InvalidatedCompose(st0, st1, st, nodes - rest, n);
        OneLess(nodes, rest, n);
        rest := rest - {n};
      }
      assert nodes - rest == nodes;
    }

    method InvalidateOne(n: Sub)
      requires Valid() && Typed(st) && st.stack == [] && KnownSub(n, st)
      modifies this, st.w.fn.Keys
      ensures Valid() && Typed(st) && Invalidated(old(st), st, {n})
      decreases st.w.fn.Keys - st.dirty, 0, 1
    {
      match n {
        case SubComp(c) =>
          c.Invalidate(this);
        case SubEff(e) =>
          EnqueuedTyped(st, e);
          Enqueue(e);
      }
    }

    method Enqueue(e: Effect)
      requires Valid()
      modifies this
      ensures Valid() && st == Enqueued(old(st), e)
    {
      if e !in pending {
        pending := pending + [e];
        st := st.(pending := pending);
      }
    }

    /** Run p as the function of n, the running node. */
    method Call(p: Fn, n: Sub) returns (r: Result)
      requires Valid() && Inv(st) && Top(st) == {n} && Srcs(st.edges, n) == {} && Closed(p, st.w)
      modifies this, st.w.sig.Keys, st.w.fn.Keys, st.out.Keys
      ensures Valid() && SameFrame(old(st), st)
      ensures r == Run(old(st).w, p, [], Elems(old(st).stack))
      ensures r.Ok? ==> Inv(st) && Pulled(old(st), st, {n}) && Srcs(st.edges, n) == Reads(st.w, p, [])
                        && CompsIn(Srcs(st.edges, n)) <= Clean(st)
      decreases st.w.fn.Keys - Elems(st.stack), 2, 2
    {
      r := Continue(p, [], n, st);
    }

    /** The rest of a call of p, made in st0, once it has read the values h. */
    method Continue(p: Fn, h: seq<Value>, n: Sub, ghost st0: State) returns (r: Result)
      requires Valid() && Midway(st0, st, p, h, n)
      modifies this, st.w.sig.Keys, st.w.fn.Keys, st.out.Keys
      ensures Valid() && SameFrame(st0, st)
      ensures r == Run(st0.w, p, h, Elems(st0.stack))
      ensures r.Ok? ==> Inv(st) && Pulled(st0, st, {n}) && Srcs(st.edges, n) == Reads(st0.w, p, [])
                        && CompsIn(Srcs(st.edges, n)) <= Clean(st)
      decreases st.w.fn.Keys - Elems(st.stack), 2, 1, Distance(p, h)
    {
      match p.step(h) {
        case Ret(v) =>
          r := Ok(v);
        case Read(src) =>
          ghost var st1 := st;
          r := Read(src);
          SameFrameCompose(st0, st1, st);
          if r.Ok? {
            ReadOn(st0, st1, st, p, h, n, r.v);
            ReadsOn(p, h, r.v);
            r := Continue(p, h + [r.v], n, st0);
          }
      }
    }

    method Read(src: Source) returns (r: Result)
      requires Valid() && Inv(st) && Known(src, st.w)
      modifies this, st.w.sig.Keys, st.w.fn.Keys, st.out.Keys
      ensures Valid() && SameFrame(old(st), st)
      ensures r == Lookup(old(st).w, src, Elems(old(st).stack))
      ensures r.Ok? ==> Inv(st) && Pulled(old(st), st, Top(old(st))) && (src.Comp? ==> src.c in Clean(st))
      ensures r.Ok? ==> forall n :: n in Top(old(st)) ==> Srcs(st.edges, n) == Srcs(old(st).edges, n) + {src}
      decreases st.w.fn.Keys - Elems(st.stack), 2, 0
    {
      match src {
        case Sig(s) =>
          ghost var st0 := st;
          var v := s.Get(this);
          HandedKeeps(st0, src, v);
          r := Ok(v);
        case Comp(c) =>
          r := c.Get(this);
      }
    }

    /** Mark everything that depends on a change made in st0, then flush. */
    method Spread(nodes: set<Sub>, ghost st0: State, ghost D: set<Computed>) returns (raised: bool)
      requires Valid() && Stable(st0) && Wf(st.w) && Changed(st0, st, D, nodes)
      requires forall n :: n in nodes ==> KnownSub(n, st)
      modifies this, st.w.sig.Keys, st.w.fn.Keys, st.out.Keys
      ensures Valid() && st.current == [] && st.stack == [] && st.w == old(st).w && st.out.Keys == st0.out.Keys
      ensures forall e :: e in st0.out ==> Closed(e.fn, old(st).w)
      ensures raised <==> SomeCycle(old(st).w, st0.out.Keys)
      ensures !raised ==> Stable(st) && Refreshed(st0, st, old(st).w, D, nodes)
    {
      ghost var st1 := st;
      ChangedTyped(st0, st1, D, nodes);
      Invalidate(nodes);
      ghost var st2 := st;
      InvalidatedKeeps(st0, st1, st2, D, nodes);
      raised := Flush();
      ChangedRaises(st0, st2);
      if !raised {
        FlushedRefreshes(st0, st1, st2, st, D, nodes);
      }
    }

    method Flush() returns (raised: bool)
      requires Valid() && Inv(st) && st.current == [] && st.stack == []
      modifies this, st.w.sig.Keys, st.w.fn.Keys, st.out.Keys
      ensures Valid() && st.current == [] && st.stack == []
      ensures st.w == old(st).w && st.out.Keys == old(st).out.Keys
      ensures raised <==> exists e :: e in old(st).pending && e in old(st).out && Run(old(st).w, e.fn, [], {}) == Cycle
      ensures !raised ==> Stable(st) && Flushed(old(st), st, |old(st).pending|)
    {
      ghost var st0 := st;
      ghost var k := 0;
      FlushedNone(st0);
      while pending != []
        invariant Valid() && Inv(st) && st.current == [] && st.stack == []
        invariant Flushed(st0, st, k)
        decreases |pending|
      {
        ghost var st1 := st;
        var e := Pop();
        PoppedQueued(st0, st1, k);
        var r := e.Execute(this);
        if r.Cycle? {
          return true;
        }
        FlushedStep(st0, st1, st, k);
        k := k + 1;
      }
      FlushedOk(st0, st);
      raised := false;
    }

    method Pop() returns (e: Effect)
      requires Valid() && st.pending != []
      modifies this
      ensures Valid() && e == old(st).pending[0] && st == old(st).(pending := old(st).pending[1..])
    {
      e := pending[0];
      pending := pending[1..];
      st := st.(pending := pending);
    }

    ghost method AdoptSignal(s: Signal)
      requires Valid() && s !in st.w.sig && s.subs == Subs(st.backs, Sig(s))
      modifies this`st
      ensures Valid() && st == WithSignal(old(st), s, s.value)
    {
      st := WithSignal(st, s, s.value);
    }

    ghost method AdoptAll(fns: map<Computed, Fn>, vals: map<Computed, Value>)
      requires Valid() && fns.Keys !! st.w.fn.Keys && vals.Keys == fns.Keys
      requires forall c :: c in fns ==>
                 c.fn == fns[c] && c.dirty && c.subs == {} && c.sources == {} && c.value == vals[c]
      requires forall c :: c in fns ==> Subs(st.backs, Comp(c)) == {} && Srcs(st.edges, SubComp(c)) == {}
      modifies this`st
      ensures Valid() && st == WithComputeds(old(st), fns, vals)
    {
      ghost var st' := WithComputeds(st, fns, vals);
      forall c | c in st'.w.fn
        ensures c.fn == st'.w.fn[c] && c in st'.val && c.value == st'.val[c] && (c.dirty <==> c in st'.dirty)
        ensures c.subs == Subs(st'.backs, Comp(c)) && c.sources == Srcs(st'.edges, SubComp(c))
      {}
      st := st';
    }

    ghost method Adopt(e: Effect)
      requires Valid() && e !in st.out && e.sources == Srcs(st.edges, SubEff(e)) && e.count == 0
      modifies this`st
      ensures Valid() && st == WithEffect(old(st), e, e.output)
    {
      st := WithEffect(st, e, e.output);
    }
  }

  lemma {:induction false} FlushedNone(st: State)
    requires Inv(st)
    ensures Flushed(st, st, 0)
  {}

  lemma {:induction false} PoppedQueued(st0: State, st1: State, k: nat)
    requires Flushed(st0, st1, k) && Inv(st1) && st1.pending != []
    ensures k < |st0.pending| && st1.pending[0] == st0.pending[k]
    ensures Inv(Queued(st1.(pending := st1.pending[1..]), st1.pending[0]))
  {
    assert Queued(st1.(pending := st1.pending[1..]), st1.pending[0]) == st1;
  }

  lemma {:induction false} FlushedOk(st0: State, st: State)
    requires Inv(st0) && Inv(st) && st.pending == [] && st.current == [] && Flushed(st0, st, |st0.pending|)
    ensures forall e :: e in st0.pending ==> Run(st0.w, e.fn, [], {}).Ok?
  {
    forall e | e in st0.pending
      ensures Run(st0.w, e.fn, [], {}).Ok?
    {
      assert EffOk(st, e);
    }
  }

  ghost function Detached(edges: set<(Source, Sub)>, srcs: set<Source>, n: Sub): set<(Source, Sub)> {
    set x | x in edges && !(x.1 == n && x.0 in srcs)
  }

  lemma {:induction false} OneLess<T>(all: set<T>, rest: set<T>, x: T)
    requires x in rest && rest <= all
    ensures all - rest + {x} == all - (rest - {x})
  {}

  lemma {:induction false} DetachedOne(edges: set<(Source, Sub)>, srcs: set<Source>, rest: set<Source>, n: Sub,
        x: Source)
    requires x in rest && rest <= srcs
    ensures Detached(edges, srcs - rest, n) - {(x, n)} == Detached(edges, srcs - (rest - {x}), n)
  {}
}
