/**
 * What the BMC engine's unrolling computes (BMC.cpp:196-347), as functions
 * on values, and what it means.
 *
 * An unrolled step maps every circuit variable to a signed node of the
 * unrolled circuit (`values`). An assignment `sigma` to the nodes that
 * respects every gate node (and makes node 1, the constant, false) gives
 * each circuit literal the value it has in that step: the gates of a step
 * compute the circuit's gates, and the latches of step k + 1 hold the next
 * states of step k. The k-step statement is UnrollMeaning.
 */
module BmcSpec {
  import opened Literals
  import opened PdrTypes
  import opened Circuit
  import opened BmcTypes

  /** The translated circuit as the BMC engine holds it: the counts, the
      gates, the next states, the constraints and every bad (or output). */
  datatype Circ = Circ(nI: nat, nL: nat, ands: seq<And>, nexts: seq<int>, constraints: seq<int>, allbad: seq<int>)

  /** The first gate variable, I + L + 2. */
  function First(c: Circ): nat
  {
    c.nI + c.nL + 2
  }

  /** The number of variables, NULL and the constant included. */
  function Size(c: Circ): nat
  {
    First(c) + |c.ands|
  }

  /** Gates come after their operands, which are nonzero literals; next
      states, constraints and bads name variables of the circuit. */
  predicate CircOk(c: Circ)
  {
    Topological(c.ands, First(c)) &&
    (forall j :: 0 <= j < |c.ands| ==> 1 <= Abs(c.ands[j].i1) && 1 <= Abs(c.ands[j].i2)) &&
    |c.nexts| == c.nL &&
    (forall k :: 0 <= k < |c.nexts| ==> 1 <= Abs(c.nexts[k]) < Size(c)) &&
    (forall k :: 0 <= k < |c.constraints| ==> 1 <= Abs(c.constraints[k]) < Size(c)) &&
    (forall k :: 0 <= k < |c.allbad| ==> 1 <= Abs(c.allbad[k]) < Size(c))
  }

  /** The `value` macro (BMC.cpp:6): the unrolled literal of circuit literal
      rc. */
  function Value(values: seq<int>, rc: int): int
    requires Abs(rc) < |values|
  {
    if rc > 0 then values[rc] else -values[-rc]
  }

  /** The macro commutes with negation, except on 0. */
  lemma ValueNegates(values: seq<int>, rc: int)
    requires Abs(rc) < |values| && rc != 0
    ensures Value(values, -rc) == -Value(values, rc)
    ensures Value(values, Abs(rc)) == values[Abs(rc)]
  {
  }

  // ---------------------------------------------------------------------------
  // Meaning of unrolled literals
  // ---------------------------------------------------------------------------

  /** The value of a signed node under an assignment to the nodes. */
  function Lit(sigma: int -> bool, l: int): bool
  {
    if l > 0 then sigma(l) else !sigma(-l)
  }

  lemma LitNegates(sigma: int -> bool, l: int)
    requires l != 0
    ensures Lit(sigma, -l) == !Lit(sigma, l)
  {
  }

  /** sigma is a run of the unrolled circuit: the constant node is false and
      every gate node is the AND of its children. */
  predicate Respects(sigma: int -> bool, ns: seq<Node>)
  {
    !sigma(1) &&
    forall j :: 0 <= j < |ns| && ns[j].kind == 3 ==> sigma(j) == (Lit(sigma, ns[j].child1) && Lit(sigma, ns[j].child2))
  }

  lemma RespectsExtends(sigma: int -> bool, ns: seq<Node>, ms: seq<Node>)
    requires Respects(sigma, ms) && Extends(ns, ms)
    ensures Respects(sigma, ns)
  {
    forall j | 0 <= j < |ns| && ns[j].kind == 3
      ensures sigma(j) == (Lit(sigma, ns[j].child1) && Lit(sigma, ns[j].child2))
    {
      assert ms[j].kind == 3;
    }
  }

  /** Variables 1 .. n - 1 have nonzero unrolled literals naming nodes. */
  predicate Ranged(values: seq<int>, n: int, nodes: int)
    requires n <= |values|
  {
    forall v :: 1 <= v < n ==> 1 <= Abs(values[v]) < nodes
  }

  /** Gates 0 .. n - 1 of the step have the AND of their operands' unrolled
      literals as their own. */
  predicate GatesAgree(sigma: int -> bool, values: seq<int>, c: Circ, n: int)
    requires CircOk(c) && |values| == Size(c) && n <= |c.ands|
  {
    forall j :: 0 <= j < n ==>
      Lit(sigma, values[First(c) + j]) ==
        (Lit(sigma, Value(values, c.ands[j].i1)) && Lit(sigma, Value(values, c.ands[j].i2)))
  }

  // ---------------------------------------------------------------------------
  // Aig_And (BMC.cpp:197-263)
  // ---------------------------------------------------------------------------

  /** The larger variable of two literals: what Aig_And's recursion
      decreases. */
  function Height(p0: int, p1: int): nat
  {
    if Abs(p0) < Abs(p1) then Abs(p1) else Abs(p0)
  }

  /** What Aig_And may be called on: literals of circuit variables, with the
      constant's unrolled literal 1 (false). */
  predicate AndReady(values: seq<int>, c: Circ, p0: int, p1: int)
  {
    CircOk(c) && |values| == Size(c) && values[1] == 1 && 1 <= Abs(p0) < Size(c) && 1 <= Abs(p1) < Size(c)
  }

  /** The first fanin Aig_And reads for p: the first operand of a gate, or
      the variable of an input or latch. */
  function FaninA(c: Circ, p: int): int
    requires CircOk(c) && Abs(p) < Size(c)
  {
    if Abs(p) >= First(c) then c.ands[Abs(p) - First(c)].i1 else Abs(p)
  }

  /** The second fanin: the second operand of a gate, or -1 (true). */
  function FaninB(c: Circ, p: int): int
    requires CircOk(c) && Abs(p) < Size(c)
  {
    if Abs(p) >= First(c) then c.ands[Abs(p) - First(c)].i2 else -1
  }

  /** What one group of Aig_And's rules decides: an answer, a smaller pair
      to recurse on, or nothing. */
  datatype Rule = Answer(r: int) | Reduce(q0: int, q1: int) | Pass

  /** The rules on the fanins of p, against the other operand's unrolled
      literal vo (BMC.cpp:232-245 for p0, 247-260 for p1). */
  function FaninRule(values: seq<int>, c: Circ, p: int, vo: int): (s: Rule)
    requires AndReady(values, c, p, p) && Abs(vo) != 1 && Value(values, p) != -vo
    ensures s.Reduce? ==> Abs(p) >= First(c) && 1 <= Abs(s.q0) && 1 <= Abs(s.q1) && Height(s.q0, s.q1) < Abs(p)
  {
    var a, b := FaninA(c, p), FaninB(c, p);
    var va, vb := Value(values, a), Value(values, b);
    if p < 0 then
      if va == -vo || vb == -vo then Answer(vo)
      else if vb == vo then Reduce(-a, b)
      else if va == vo then Reduce(-b, a)
      else Pass
    else
      if va == -vo || vb == -vo then Answer(1)
      else if va == vo || vb == vo then Answer(Value(values, p))
      else Pass
  }

  /** One call of Aig_And without its recursion: the trivial rules on the
      unrolled literals (BMC.cpp:202-209), then the fanin rules of p0 and
      of p1 when either is a gate. */
  function AndRule(values: seq<int>, c: Circ, p0: int, p1: int): (s: Rule)
    requires AndReady(values, c, p0, p1)
    ensures !s.Pass?
    ensures s.Reduce? ==> 1 <= Abs(s.q0) && 1 <= Abs(s.q1) && Height(s.q0, s.q1) < Height(p0, p1)
  {
    var v0, v1 := Value(values, p0), Value(values, p1);
    if v0 == v1 then Answer(v0)
    else if v0 == -v1 then Answer(1)
    else if Abs(v0) == 1 then Answer(if v0 == -1 then v1 else 1)
    else if Abs(v1) == 1 then Answer(if v1 == -1 then v0 else 1)
    else if Abs(p0) < First(c) && Abs(p1) < First(c) then Answer(0)
    else
      var s0 := FaninRule(values, c, p0, v1);
      if !s0.Pass? then s0
      else
        var s1 := FaninRule(values, c, p1, v0);
        if s1.Pass? then Answer(0) else s1
  }

  /** Aig_And(p0, p1): the unrolled literal of p0 AND p1 when a rule finds
      one, 0 otherwise. */
  function AigAnd(values: seq<int>, c: Circ, p0: int, p1: int): int
    requires AndReady(values, c, p0, p1)
    decreases Height(p0, p1)
  {
    var s := AndRule(values, c, p0, p1);
    if s.Answer? then s.r else AigAnd(values, c, s.q0, s.q1)
  }

  /** An answer of the rules names a node below `nodes` (or is 0) when the
      variables the rules read do. */
  lemma AndRuleRange(values: seq<int>, c: Circ, p0: int, p1: int, nodes: int)
    requires AndReady(values, c, p0, p1) && 2 <= nodes && Ranged(values, Height(p0, p1) + 1, nodes)
    ensures var s := AndRule(values, c, p0, p1); s.Answer? ==> s.r == 0 || 1 <= Abs(s.r) < nodes
  {
  }

  /** Aig_And's answer names a node: 0 (no rule), or a literal whose node is
      below `nodes` when the variables it reads are. */
  lemma {:induction false} AigAndRange(values: seq<int>, c: Circ, p0: int, p1: int, nodes: int)
    requires AndReady(values, c, p0, p1) && 2 <= nodes && Ranged(values, Height(p0, p1) + 1, nodes)
    ensures var r := AigAnd(values, c, p0, p1); r == 0 || 1 <= Abs(r) < nodes
    decreases Height(p0, p1)
  {
    var s := AndRule(values, c, p0, p1);
    AndRuleRange(values, c, p0, p1, nodes);
    if s.Reduce? {
      AigAndRange(values, c, s.q0, s.q1, nodes);
    }
  }

  /** The unrolled literal of a circuit literal whose variable has a nonzero
      unrolled literal. */
  lemma ValueLit(sigma: int -> bool, values: seq<int>, p: int)
    requires 1 <= Abs(p) < |values| && values[Abs(p)] != 0
    ensures Lit(sigma, Value(values, p)) == if p > 0 then Lit(sigma, values[p]) else !Lit(sigma, values[-p])
  {
    if p < 0 {
      LitNegates(sigma, values[-p]);
    }
  }

  /** The meaning of circuit literal p in the step: its unrolled literal's
      value. */
  function Means(sigma: int -> bool, values: seq<int>, p: int): bool
    requires Abs(p) < |values|
  {
    Lit(sigma, Value(values, p))
  }

  /** What the lemmas about one step assume: a run of the unrolled circuit
      in which the constant is false, the step's variables below
      First(c) + n have nodes, and its first n gates agree. */
  predicate StepRun(sigma: int -> bool, values: seq<int>, c: Circ, n: int)
  {
    CircOk(c) && |values| == Size(c) && values[1] == 1 && !sigma(1) && 0 <= n <= |c.ands| &&
    GatesAgree(sigma, values, c, n) && (forall v :: 1 <= v < First(c) + n ==> values[v] != 0)
  }

  /** The fanins Aig_And reads for p mean, together, p's own variable: a
      gate's operands through the gate's agreement, an input or latch with
      the constant true. */
  lemma FaninMeaning(sigma: int -> bool, values: seq<int>, c: Circ, p: int, n: int)
    requires StepRun(sigma, values, c, n) && 1 <= Abs(p) < First(c) + n
    ensures Means(sigma, values, FaninA(c, p)) && Means(sigma, values, FaninB(c, p)) <==>
      Means(sigma, values, Abs(p))
  {
    if Abs(p) < First(c) {
      assert Value(values, -1) == -1;
    }
  }

  /** The fanin rules are sound: an answer means p AND o, and a reduction
      is a pair whose AND means the same. */
  lemma FaninRuleSound(sigma: int -> bool, values: seq<int>, c: Circ, p: int, o: int, n: int)
    requires StepRun(sigma, values, c, n) && 1 <= Abs(p) < First(c) + n && 1 <= Abs(o) < First(c) + n
    requires var vo := Value(values, o); Abs(vo) != 1 && Value(values, p) != -vo
    ensures var s := FaninRule(values, c, p, Value(values, o));
      && (s.Answer? ==> Lit(sigma, s.r) == (Means(sigma, values, p) && Means(sigma, values, o)))
      && (s.Reduce? ==> (Means(sigma, values, s.q0) && Means(sigma, values, s.q1)) ==
                        (Means(sigma, values, p) && Means(sigma, values, o)))
  {
    var a, b := FaninA(c, p), FaninB(c, p);
    FaninMeaning(sigma, values, c, p, n);
    ValueLit(sigma, values, p);
    ValueLit(sigma, values, a);
    ValueLit(sigma, values, b);
    ValueLit(sigma, values, -a);
    ValueLit(sigma, values, -b);
    ValueLit(sigma, values, o);
    LitNegates(sigma, Value(values, o));
  }

  /** The rules of one call are sound. */
  lemma AndRuleSound(sigma: int -> bool, values: seq<int>, c: Circ, p0: int, p1: int, n: int)
    requires StepRun(sigma, values, c, n) && AndReady(values, c, p0, p1)
    requires Abs(p0) < First(c) + n && Abs(p1) < First(c) + n
    ensures var s := AndRule(values, c, p0, p1);
      && (s.Answer? && s.r != 0 ==> Lit(sigma, s.r) == (Means(sigma, values, p0) && Means(sigma, values, p1)))
      && (s.Reduce? ==> (Means(sigma, values, s.q0) && Means(sigma, values, s.q1)) ==
                        (Means(sigma, values, p0) && Means(sigma, values, p1)))
  {
    var v0, v1 := Value(values, p0), Value(values, p1);
    ValueLit(sigma, values, p0);
    ValueLit(sigma, values, p1);
    LitNegates(sigma, v1);
    if v0 == v1 || v0 == -v1 || Abs(v0) == 1 || Abs(v1) == 1 || (Abs(p0) < First(c) && Abs(p1) < First(c)) {
    } else {
      FaninRuleSound(sigma, values, c, p0, p1, n);
      FaninRuleSound(sigma, values, c, p1, p0, n);
    }
  }

  /** Every rule of Aig_And is sound: under any run of the unrolled circuit
      in which the gates of the step so far agree, a nonzero answer means
      p0 AND p1. */
  lemma {:induction false} AigAndSound(sigma: int -> bool, values: seq<int>, c: Circ, p0: int, p1: int, n: int)
    requires StepRun(sigma, values, c, n) && AndReady(values, c, p0, p1)
    requires Abs(p0) < First(c) + n && Abs(p1) < First(c) + n
    ensures var r := AigAnd(values, c, p0, p1);
      r != 0 ==> Lit(sigma, r) == (Means(sigma, values, p0) && Means(sigma, values, p1))
    decreases Height(p0, p1)
  {
    var s := AndRule(values, c, p0, p1);
    AndRuleSound(sigma, values, c, p0, p1, n);
    if s.Reduce? {
      AigAndSound(sigma, values, c, s.q0, s.q1, n);
    }
  }


  // ---------------------------------------------------------------------------
  // The circuit's own semantics
  // ---------------------------------------------------------------------------

  /** The value of a literal whose variable has value b. */
  function Signed(b: bool, l: int): bool
  {
    if l > 0 then b else !b
  }

  /** The value of variable v in a step whose inputs and latches have the
      values env gives them: NULL and the constant are false, and a gate is
      the AND of its operands. */
  function EvalVar(c: Circ, env: int -> bool, v: int): bool
    requires CircOk(c) && 0 <= v < Size(c)
    decreases v
  {
    if v < 2 then false
    else if v < First(c) then env(v)
    else
      var g := c.ands[v - First(c)];
      Signed(EvalVar(c, env, Abs(g.i1)), g.i1) && Signed(EvalVar(c, env, Abs(g.i2)), g.i2)
  }

  function EvalLit(c: Circ, env: int -> bool, l: int): bool
    requires CircOk(c) && Abs(l) < Size(c)
  {
    Signed(EvalVar(c, env, Abs(l)), l)
  }

  /** A step's inputs and latches: input i is variable i + 2 and latch l is
      variable I + 2 + l. */
  function Env(c: Circ, state: seq<bool>, ins: seq<bool>): int -> bool
  {
    v => if 2 <= v < c.nI + 2 && v - 2 < |ins| then ins[v - 2]
         else if c.nI + 2 <= v && v - c.nI - 2 < |state| then state[v - c.nI - 2]
         else false
  }

  /** The latches after one step: each takes the value of its next-state
      literal. */
  function Next(c: Circ, state: seq<bool>, ins: seq<bool>): seq<bool>
    requires CircOk(c)
  {
    seq(c.nL, l requires 0 <= l < c.nL => EvalLit(c, Env(c, state, ins), c.nexts[l]))
  }

  /** The latches after k steps from s0 under the input trace ins. */
  function Run(c: Circ, s0: seq<bool>, ins: seq<seq<bool>>, k: nat): seq<bool>
    requires CircOk(c) && k <= |ins|
  {
    if k == 0 then s0 else Next(c, Run(c, s0, ins, k - 1), ins[k - 1])
  }

  // ---------------------------------------------------------------------------
  // Unrolled steps and what they mean
  // ---------------------------------------------------------------------------

  /** The macro applied to a list of circuit literals. */
  function MapValue(values: seq<int>, lits: seq<int>): (r: seq<int>)
    requires forall k :: 0 <= k < |lits| ==> Abs(lits[k]) < |values|
    ensures |r| == |lits|
  {
    seq(|lits|, k requires 0 <= k < |lits| => Value(values, lits[k]))
  }

  /** The unrolled literals of the latches in a step's values. */
  function StateLits(c: Circ, values: seq<int>): seq<int>
    requires First(c) <= |values|
  {
    values[c.nI + 2 .. First(c)]
  }

  /** The unrolled literals of the inputs in a step's values. */
  function InputLits(c: Circ, values: seq<int>): seq<int>
    requires First(c) <= |values|
  {
    values[2 .. c.nI + 2]
  }

  /** The values of a list of unrolled literals under sigma. */
  function Lits(sigma: int -> bool, ls: seq<int>): seq<bool>
  {
    seq(|ls|, k requires 0 <= k < |ls| => Lit(sigma, ls[k]))
  }

  /** The input trace sigma gives a sequence of steps. */
  function Trace(sigma: int -> bool, c: Circ, frames: seq<seq<int>>): seq<seq<bool>>
    requires forall k :: 0 <= k < |frames| ==> First(c) <= |frames[k]|
  {
    seq(|frames|, k requires 0 <= k < |frames| => Lits(sigma, InputLits(c, frames[k])))
  }

  /** A recorded step: every variable but NULL has the unrolled literal of a
      node below `nodes`, and the constant's is 1. */
  predicate FrameOk(c: Circ, values: seq<int>, nodes: int)
  {
    CircOk(c) && |values| == Size(c) && values[1] == 1 && Ranged(values, Size(c), nodes)
  }

  /** The recorded steps follow each other: the latches of each step hold
      the previous step's next states. */
  predicate Chained(c: Circ, frames: seq<seq<int>>)
    requires CircOk(c) && forall k :: 0 <= k < |frames| ==> |frames[k]| == Size(c)
  {
    forall k :: 0 < k < |frames| ==> |frames[k]| == Size(c) && StateLits(c, frames[k]) == MapValue(frames[k - 1], c.nexts)
  }

  /** sigma is a run of the recorded steps: the constant is false and, in
      every step, the gates' unrolled literals are the AND of their
      operands'. */
  predicate Unrolling(sigma: int -> bool, c: Circ, frames: seq<seq<int>>)
  {
    CircOk(c) && (forall k :: 0 <= k < |frames| ==> StepRun(sigma, frames[k], c, |c.ands|)) &&
    Chained(c, frames)
  }

  /** In a step whose gates agree, every circuit variable means what the
      circuit computes from the step's inputs and latches. */
  lemma {:induction false} VarMeans(sigma: int -> bool, values: seq<int>, c: Circ, env: int -> bool, v: int)
    requires StepRun(sigma, values, c, |c.ands|)
    requires forall w :: 2 <= w < First(c) ==> env(w) == Means(sigma, values, w)
    requires 1 <= v < Size(c)
    ensures Means(sigma, values, v) == EvalVar(c, env, v)
    decreases v
  {
    if v >= First(c) {
      var g := c.ands[v - First(c)];
      assert Lit(sigma, values[v]) == (Means(sigma, values, g.i1) && Means(sigma, values, g.i2));
      VarMeans(sigma, values, c, env, Abs(g.i1));
      VarMeans(sigma, values, c, env, Abs(g.i2));
      ValueLit(sigma, values, g.i1);
      ValueLit(sigma, values, g.i2);
    }
  }

  /** A step's literals mean their values in the circuit's step from the
      step's latches and inputs. */
  lemma StepMeaning(sigma: int -> bool, values: seq<int>, c: Circ, l: int)
    requires StepRun(sigma, values, c, |c.ands|) && 1 <= Abs(l) < Size(c)
    ensures Means(sigma, values, l) ==
      EvalLit(c, Env(c, Lits(sigma, StateLits(c, values)), Lits(sigma, InputLits(c, values))), l)
  {
    var env := Env(c, Lits(sigma, StateLits(c, values)), Lits(sigma, InputLits(c, values)));
    forall w | 2 <= w < First(c) ensures env(w) == Means(sigma, values, w) {
      if w < c.nI + 2 {
        assert env(w) == Lit(sigma, InputLits(c, values)[w - 2]);
      } else {
        assert env(w) == Lit(sigma, StateLits(c, values)[w - c.nI - 2]);
      }
    }
    VarMeans(sigma, values, c, env, Abs(l));
    ValueLit(sigma, values, l);
  }

  /** The latch update of a step computes the circuit's next state. */
  lemma NextMeaning(sigma: int -> bool, values: seq<int>, c: Circ)
    requires StepRun(sigma, values, c, |c.ands|)
    ensures Lits(sigma, MapValue(values, c.nexts)) ==
      Next(c, Lits(sigma, StateLits(c, values)), Lits(sigma, InputLits(c, values)))
  {
    forall l | 0 <= l < c.nL
      ensures Lit(sigma, MapValue(values, c.nexts)[l]) ==
        EvalLit(c, Env(c, Lits(sigma, StateLits(c, values)), Lits(sigma, InputLits(c, values))), c.nexts[l])
    {
      StepMeaning(sigma, values, c, c.nexts[l]);
    }
  }

  /** k unrolled steps are k steps of the circuit: under any run sigma of
      the recorded steps, the latches of step k hold the state the circuit
      reaches from step 0's latches under the inputs of steps 0 .. k - 1. */
  lemma {:induction false} UnrollMeaning(sigma: int -> bool, c: Circ, frames: seq<seq<int>>, k: nat)
    requires Unrolling(sigma, c, frames) && k < |frames|
    ensures Lits(sigma, StateLits(c, frames[k])) ==
      Run(c, Lits(sigma, StateLits(c, frames[0])), Trace(sigma, c, frames), k)
  {
    if k > 0 {
      UnrollMeaning(sigma, c, frames, k - 1);
      NextMeaning(sigma, frames[k - 1], c);
    }
  }

  /** The bads (or outputs) of step k mean the circuit's bads in its k-th
      step from step 0's latches. */
  lemma OutputMeaning(sigma: int -> bool, c: Circ, frames: seq<seq<int>>, k: nat, b: int)
    requires Unrolling(sigma, c, frames) && k < |frames| && 0 <= b < |c.allbad|
    ensures var ins := Trace(sigma, c, frames);
      Lit(sigma, MapValue(frames[k], c.allbad)[b]) ==
        EvalLit(c, Env(c, Run(c, Lits(sigma, StateLits(c, frames[0])), ins, k), ins[k]), c.allbad[b])
  {
    UnrollMeaning(sigma, c, frames, k);
    StepMeaning(sigma, frames[k], c, c.allbad[b]);
  }

  // ---------------------------------------------------------------------------
  // The unrolled circuit and the steps recorded so far
  // ---------------------------------------------------------------------------

  /** The gate list lists gate nodes, with their children, in ascending
      order of output. */
  predicate AndsOk(ns: seq<Node>, ands: seq<And>)
  {
    (forall k :: 0 <= k < |ands| ==>
      2 <= ands[k].o < |ns| && ns[ands[k].o].kind == 3 &&
      ns[ands[k].o].child1 == ands[k].i1 && ns[ands[k].o].child2 == ands[k].i2) &&
    (forall k :: 0 < k < |ands| ==> ands[k - 1].o < ands[k].o)
  }

  lemma AndsOkExtends(ns: seq<Node>, ms: seq<Node>, ands: seq<And>)
    requires AndsOk(ns, ands) && Extends(ns, ms)
    ensures AndsOk(ms, ands)
  {
  }

  /** The unrolled circuit is sound: NULL and the constant exist, children
      come before their gate, and the buckets and the gate list name gate
      nodes. */
  predicate Sound(ns: seq<Node>, m: map<int, seq<And>>, ands: seq<And>)
  {
    2 <= |ns| && HashOk(ns, m) && ChildrenBelow(ns) && AndsOk(ns, ands)
  }

  /** Another father for a node keeps the unrolled circuit sound. */
  lemma AdoptSound(ns: seq<Node>, m: map<int, seq<And>>, ands: seq<And>, k: int)
    requires Sound(ns, m, ands) && 0 <= k < |ns|
    ensures Sound(Adopt(ns, k), m, ands)
  {
    HashOkExtends(ns, Adopt(ns, k), m);
    AndsOkExtends(ns, Adopt(ns, k), ands);
  }

  /** A new leaf node keeps the unrolled circuit sound. */
  lemma LeafSound(ns: seq<Node>, m: map<int, seq<And>>, ands: seq<And>, kind: int)
    requires Sound(ns, m, ands) && kind != 3
    ensures Sound(ns + [Node(kind, 0, 0, 0, true)], m, ands)
  {
    HashOkExtends(ns, ns + [Node(kind, 0, 0, 0, true)], m);
    AndsOkExtends(ns, ns + [Node(kind, 0, 0, 0, true)], ands);
  }

  /** A new gate over two nodes keeps the unrolled circuit sound. */
  lemma GateSound(ns: seq<Node>, m: map<int, seq<And>>, ands: seq<And>, i1: int, i2: int)
    requires Sound(ns, m, ands) && Abs(i1) < |ns| && Abs(i2) < |ns|
    ensures var g := And(|ns|, i1, i2);
      Sound(WithGate(ns, i1, i2), File(File(m, Abs(i1), g), Abs(i2), g), ands + [g])
  {
    WithGateOk(ns, m, i1, i2);
    AndsOkExtends(ns, WithGate(ns, i1, i2), ands);
  }

  /** The values of two steps agree on the variables below n. */
  predicate SameBelow(values: seq<int>, w: seq<int>, n: int)
  {
    |w| == |values| && n <= |values| && forall v :: 0 <= v < n ==> w[v] == values[v]
  }

  /** Gate agreement reads only the variables below the gates it covers. */
  lemma GatesAgreeFrame(sigma: int -> bool, values: seq<int>, w: seq<int>, c: Circ, n: int)
    requires CircOk(c) && |values| == Size(c) && 0 <= n <= |c.ands| && SameBelow(values, w, First(c) + n)
    requires GatesAgree(sigma, values, c, n)
    ensures GatesAgree(sigma, w, c, n)
  {
    forall j | 0 <= j < n
      ensures Lit(sigma, w[First(c) + j]) ==
        (Lit(sigma, Value(w, c.ands[j].i1)) && Lit(sigma, Value(w, c.ands[j].i2)))
    {
      assert Value(w, c.ands[j].i1) == Value(values, c.ands[j].i1);
      assert Value(w, c.ands[j].i2) == Value(values, c.ands[j].i2);
    }
  }

  /** Node x is a gate over the pair (l1, l2), in either order. */
  predicate GateOver(ns: seq<Node>, x: int, l1: int, l2: int)
  {
    2 <= x < |ns| && ns[x].kind == 3 && SamePair(And(x, ns[x].child1, ns[x].child2), l1, l2)
  }

  /** A gate node over the unrolled literals of p0 and p1 means p0 AND p1
      under any sigma respecting the nodes. */
  lemma GateNodeMeans(sigma: int -> bool, ns: seq<Node>, x: int, values: seq<int>, p0: int, p1: int)
    requires Respects(sigma, ns) && Abs(p0) < |values| && Abs(p1) < |values|
    requires GateOver(ns, x, Value(values, p0), Value(values, p1))
    ensures Lit(sigma, x) == (Means(sigma, values, p0) && Means(sigma, values, p1))
  {
    assert sigma(x) == (Lit(sigma, ns[x].child1) && Lit(sigma, ns[x].child2));
  }

  /** Giving gate i a literal that means the AND of its operands, when the
      gates before it agree, makes the first i + 1 gates agree. */
  lemma GateLitAgrees(sigma: int -> bool, values: seq<int>, w: seq<int>, c: Circ, i: int)
    requires CircOk(c) && |values| == Size(c) && 0 <= i < |c.ands| && SameBelow(values, w, First(c) + i)
    requires GatesAgree(sigma, values, c, i)
    requires var g := c.ands[i];
      Lit(sigma, w[First(c) + i]) == (Means(sigma, values, g.i1) && Means(sigma, values, g.i2))
    ensures GatesAgree(sigma, w, c, i + 1)
  {
    var g := c.ands[i];
    GatesAgreeFrame(sigma, values, w, c, i);
    assert Value(w, g.i1) == Value(values, g.i1) && Value(w, g.i2) == Value(values, g.i2);
  }

  /** sigma respecting ns makes the first n gates of values agree. */
  ghost predicate AgreeUnder(ns: seq<Node>, values: seq<int>, c: Circ, n: int)
    requires CircOk(c) && |values| == Size(c) && 0 <= n <= |c.ands|
  {
    forall sigma :: Respects(sigma, ns) ==> GatesAgree(sigma, values, c, n)
  }

  lemma AgreeUnderExtends(ns: seq<Node>, ms: seq<Node>, values: seq<int>, c: Circ, n: int)
    requires CircOk(c) && |values| == Size(c) && 0 <= n <= |c.ands|
    requires AgreeUnder(ns, values, c, n) && Extends(ns, ms)
    ensures AgreeUnder(ms, values, c, n)
  {
    forall sigma | Respects(sigma, ms) ensures GatesAgree(sigma, values, c, n) {
      RespectsExtends(sigma, ns, ms);
    }
  }

  /** The inputs, constraints and outputs unfold appends, step after step. */
  function FrameInputs(c: Circ, frames: seq<seq<int>>): (r: seq<int>)
    requires forall k :: 0 <= k < |frames| ==> First(c) <= |frames[k]|
    ensures |r| == |frames| * c.nI
  {
    if frames == [] then []
    else FrameInputs(c, frames[..|frames| - 1]) + InputLits(c, frames[|frames| - 1])
  }

  function FrameConstraints(c: Circ, frames: seq<seq<int>>): seq<int>
    requires CircOk(c) && forall k :: 0 <= k < |frames| ==> |frames[k]| == Size(c)
  {
    if frames == [] then []
    else FrameConstraints(c, frames[..|frames| - 1]) + MapValue(frames[|frames| - 1], c.constraints)
  }

  function FrameOutputs(c: Circ, frames: seq<seq<int>>): (r: seq<int>)
    requires CircOk(c) && forall k :: 0 <= k < |frames| ==> |frames[k]| == Size(c)
    ensures |r| == |frames| * |c.allbad|
  {
    if frames == [] then []
    else FrameOutputs(c, frames[..|frames| - 1]) + MapValue(frames[|frames| - 1], c.allbad)
  }

  /** Output b of step k sits at k * B + b of the output list. */
  lemma {:induction false} FrameOutputAt(c: Circ, frames: seq<seq<int>>, k: int, b: int)
    requires CircOk(c) && forall k :: 0 <= k < |frames| ==> |frames[k]| == Size(c)
    requires 0 <= k < |frames| && 0 <= b < |c.allbad|
    ensures k * |c.allbad| + b < |FrameOutputs(c, frames)|
    ensures FrameOutputs(c, frames)[k * |c.allbad| + b] == MapValue(frames[k], c.allbad)[b]
  {
    var n := |frames| - 1;
    var p := frames[..n];
    assert FrameOutputs(c, frames) == FrameOutputs(c, p) + MapValue(frames[n], c.allbad);
    assert |FrameOutputs(c, p)| == n * |c.allbad|;
    if k < n {
      FrameOutputAt(c, p, k, b);
      MulBelow(k, n, |c.allbad|, b);
    }
  }

  /** The inputs of step k sit at k * I .. k * I + I of the input list. */
  lemma {:induction false} FrameInputAt(c: Circ, frames: seq<seq<int>>, k: int)
    requires forall k :: 0 <= k < |frames| ==> First(c) <= |frames[k]|
    requires 0 <= k < |frames|
    ensures k * c.nI + c.nI <= |FrameInputs(c, frames)|
    ensures FrameInputs(c, frames)[k * c.nI .. k * c.nI + c.nI] == InputLits(c, frames[k])
  {
    var n := |frames| - 1;
    var p := frames[..n];
    var a := FrameInputs(c, p);
    var x := InputLits(c, frames[n]);
    assert FrameInputs(c, frames) == a + x;
    var i := k * c.nI;
    if k < n {
      FrameInputAt(c, p, k);
      if c.nI > 0 {
        MulBelow(k, n, c.nI, c.nI - 1);
      }
      assert p[k] == frames[k];
      assert (a + x)[i .. i + c.nI] == a[i .. i + c.nI];
    } else {
      assert (a + x)[i .. i + c.nI] == x;
    }
  }

  lemma {:induction false} MulBelow(k: nat, n: nat, m: nat, b: nat)
    requires k < n && b < m
    ensures k * m + b < n * m
    decreases n
  {
    if k < n - 1 {
      MulBelow(k, n - 1, m, b);
    }
    assert n * m == (n - 1) * m + m;
  }

  // ---------------------------------------------------------------------------
  // The cone walk of solve_one_frame (BMC.cpp:414-433)
  // ---------------------------------------------------------------------------

  /** The walk over positions n - 1 down to 0 of the unrolled gate list: a
      position not encoded before whose output is in the set is encoded,
      its output leaves the set and its children's nodes join it. The
      clauses emitted, and the encoded positions afterwards. */
  function ConeWalk(ands: seq<And>, n: nat, lits: set<int>, done: set<int>): (seq<int>, set<int>)
    requires n <= |ands|
  {
    if n == 0 then ([], done)
    else
      var a := ands[n - 1];
      if n - 1 in done || a.o !in lits then ConeWalk(ands, n - 1, lits, done)
      else
        var r := ConeWalk(ands, n - 1, lits - {a.o} + Operands(a), done + {n - 1});
        (GateClauses(a) + r.0, r.1)
  }

  /** The clauses of the positions of S among ands[..n], last first. */
  function Encoded(ands: seq<And>, n: nat, S: set<int>): seq<int>
    requires n <= |ands|
  {
    if n == 0 then []
    else (if n - 1 in S then GateClauses(ands[n - 1]) else []) + Encoded(ands, n - 1, S)
  }

  lemma {:induction false} EncodedSame(ands: seq<And>, n: nat, S: set<int>, T: set<int>)
    requires n <= |ands| && forall j :: 0 <= j < n ==> (j in S <==> j in T)
    ensures Encoded(ands, n, S) == Encoded(ands, n, T)
  {
    if n > 0 {
      EncodedSame(ands, n - 1, S, T);
    }
  }

  /** Each position is encoded at most once across calls: the walk encodes
      positions below n that were not encoded before, and emits exactly
      their clauses, last first. */
  lemma {:induction false} ConeWalkEncodes(ands: seq<And>, n: nat, lits: set<int>, done: set<int>)
    requires n <= |ands|
    ensures var r := ConeWalk(ands, n, lits, done);
      done <= r.1 && (forall j :: j in r.1 - done ==> 0 <= j < n) && r.0 == Encoded(ands, n, r.1 - done)
  {
    if n > 0 {
      var a := ands[n - 1];
      if n - 1 in done || a.o !in lits {
        ConeWalkEncodes(ands, n - 1, lits, done);
        var r := ConeWalk(ands, n - 1, lits, done);
        assert n - 1 !in r.1 - done;
      } else {
        var d := done + {n - 1};
        ConeWalkEncodes(ands, n - 1, lits - {a.o} + Operands(a), d);
        var r := ConeWalk(ands, n - 1, lits - {a.o} + Operands(a), d);
        EncodedSame(ands, n - 1, r.1 - done, r.1 - d);
        forall j | j in r.1 - done ensures 0 <= j < n {
          if j != n - 1 {
            assert j in r.1 - d;
          }
        }
      }
    }
  }

  /** Every set member is a root or the child of a gate of the cone at a
      position from n on. */
  ghost predicate Sourced(ands: seq<And>, roots: set<int>, lits: set<int>, n: nat)
    requires n <= |ands|
  {
    forall x :: x in lits ==> x in roots || exists k :: n <= k < |ands| && InCone(ands, roots, k) && x in Operands(ands[k])
  }

  /** The walk encodes only gates of the cone of the roots. */
  lemma {:induction false} ConeWalkInCone(ands: seq<And>, roots: set<int>, n: nat, lits: set<int>, done: set<int>)
    requires n <= |ands| && Sourced(ands, roots, lits, n)
    ensures forall j :: j in ConeWalk(ands, n, lits, done).1 - done ==> 0 <= j < |ands| && InCone(ands, roots, j)
  {
    if n > 0 {
      var a := ands[n - 1];
      if n - 1 in done || a.o !in lits {
        ConeWalkInCone(ands, roots, n - 1, lits, done);
      } else {
        assert InCone(ands, roots, n - 1);
        var lits' := lits - {a.o} + Operands(a);
        assert Sourced(ands, roots, lits', n - 1) by {
          forall x | x in lits'
            ensures x in roots || exists k :: n - 1 <= k < |ands| && InCone(ands, roots, k) && x in Operands(ands[k])
          {
            if x !in Operands(a) {
              assert x in lits;
            }
          }
        }
        ConeWalkInCone(ands, roots, n - 1, lits', done + {n - 1});
        var r := ConeWalk(ands, n - 1, lits', done + {n - 1});
        assert ConeWalk(ands, n, lits, done).1 == r.1;
        forall j | j in r.1 - done ensures 0 <= j < |ands| && InCone(ands, roots, j) {
          if j != n - 1 {
            assert j in r.1 - (done + {n - 1});
          }
        }
      }
    }
  }

  /** Gate outputs strictly increase along the list. */
  predicate Increasing(ands: seq<And>)
  {
    forall j, k :: 0 <= j < k < |ands| ==> ands[j].o < ands[k].o
  }

  lemma {:induction false} AndsOkIncreasing(ns: seq<Node>, ands: seq<And>)
    requires AndsOk(ns, ands)
    ensures Increasing(ands)
    decreases |ands|
  {
    if |ands| > 1 {
      var p := ands[..|ands| - 1];
      assert AndsOk(ns, p) by {
        forall k | 0 < k < |p| ensures p[k - 1].o < p[k].o {
          assert p[k - 1] == ands[k - 1] && p[k] == ands[k];
        }
      }
      AndsOkIncreasing(ns, p);
      forall j, k | 0 <= j < k < |ands| ensures ands[j].o < ands[k].o {
        if k < |ands| - 1 {
          assert p[j] == ands[j] && p[k] == ands[k];
        } else if j < k - 1 {
          assert p[j] == ands[j] && p[k - 1] == ands[k - 1];
        }
      }
    }
  }

  /** The encoded positions are closed under the cone: the gate of a child
      of an encoded gate is encoded. */
  ghost predicate Closed(ands: seq<And>, D: set<int>)
  {
    forall k, j :: 0 <= j < k < |ands| && k in D && ands[j].o in Operands(ands[k]) ==> j in D
  }

  /** What the walk keeps at position n: the cone gates from n on are
      encoded, the gate of a child of an encoded gate from n on, or of a
      root, is encoded or still sought, everything from n on is closed,
      and below n only what was encoded before is. */
  ghost predicate WalkInv(ands: seq<And>, roots: set<int>, done: set<int>, n: nat, lits: set<int>, D: set<int>)
    requires n <= |ands|
  {
    done <= D &&
    (forall k :: n <= k < |ands| && InCone(ands, roots, k) ==> k in D) &&
    (forall k, j :: 0 <= j < n <= k < |ands| && k in D && ands[j].o in Operands(ands[k]) ==> j in D || ands[j].o in lits) &&
    (forall j :: 0 <= j < n && ands[j].o in roots ==> j in D || ands[j].o in lits) &&
    (forall k, j :: n <= j < k < |ands| && k in D && ands[j].o in Operands(ands[k]) ==> j in D) &&
    (forall j :: 0 <= j < n && j in D ==> j in done)
  }

  /** One position of the walk keeps its invariant. */
  lemma WalkInvStep(ands: seq<And>, roots: set<int>, done: set<int>, n: nat, lits: set<int>, D: set<int>)
    requires 0 < n <= |ands| && Increasing(ands) && Closed(ands, done) && WalkInv(ands, roots, done, n, lits, D)
    ensures var a := ands[n - 1];
      if n - 1 in D || a.o !in lits then WalkInv(ands, roots, done, n - 1, lits, D)
      else WalkInv(ands, roots, done, n - 1, lits - {a.o} + Operands(a), D + {n - 1})
  {
    var p := n - 1;
    var a := ands[p];
    if p in D {
    } else if a.o !in lits {
      assert !InCone(ands, roots, p);
    } else {
      var lits' := lits - {a.o} + Operands(a);
      var D' := D + {p};
      forall k, j | 0 <= j < p <= k < |ands| && k in D' && ands[j].o in Operands(ands[k])
        ensures j in D' || ands[j].o in lits'
      {
        if k != p && j !in D {
          assert ands[j].o < a.o;
        }
      }
      forall j | 0 <= j < p && ands[j].o in roots ensures j in D' || ands[j].o in lits' {
        assert ands[j].o < a.o;
      }
    }
  }

  /** The walk from the root misses no gate of its cone: after it, every
      gate of the cone is marked encoded, and the encoded positions stay
      closed under operands. That the solver holds the clauses of every
      encoded gate is ClausesHeld, kept by each step (SolveStepKeeps,
      UnfoldStepKeeps); SolveStepAsksCone puts the two together. */
  lemma {:induction false} ConeWalkComplete(ands: seq<And>, roots: set<int>, done: set<int>, n: nat, lits: set<int>,
                                             D: set<int>)
    requires n <= |ands| && Increasing(ands) && Closed(ands, done) && WalkInv(ands, roots, done, n, lits, D)
    ensures var r := ConeWalk(ands, n, lits, D);
      (forall k :: 0 <= k < |ands| && InCone(ands, roots, k) ==> k in r.1) && Closed(ands, r.1)
  {
    if n > 0 {
      var a := ands[n - 1];
      WalkInvStep(ands, roots, done, n, lits, D);
      if n - 1 in D || a.o !in lits {
        ConeWalkComplete(ands, roots, done, n - 1, lits, D);
      } else {
        ConeWalkComplete(ands, roots, done, n - 1, lits - {a.o} + Operands(a), D + {n - 1});
      }
    }
  }

  /** The unrolling between frames, over the circuit c and the unrolled
      circuit (nodes, hash table, gates, inputs, constraints, outputs): one
      unrolled literal per variable with the constant's 1; the latches have
      nodes; every recorded frame has a node for every variable, follows the
      previous one and, under any run of the unrolled circuit, computes the
      circuit's gates; frame 0 starts from the initial latch literals and
      the current latches are the last frame's next-state literals; the
      unrolled inputs, constraints and outputs are the frames' in order;
      the encoded gates are unrolled gates, closed under the cone. */
  ghost predicate Unrolled(c: Circ, values: seq<int>, frames: seq<seq<int>>, initLits: seq<int>,
                           nodes: seq<Node>, hashTable: map<int, seq<And>>, uands: seq<And>,
                           inputs: seq<int>, constraints: seq<int>, outputs: seq<int>, encoded: set<int>)
  {
    CircOk(c) && |values| == Size(c) && values[1] == 1 && Sound(nodes, hashTable, uands) &&
    (forall v :: c.nI + 2 <= v < First(c) ==> 1 <= Abs(values[v]) < |nodes|) &&
    (forall k :: 0 <= k < |frames| ==> FrameOk(c, frames[k], |nodes|)) && Chained(c, frames) &&
    (if frames == [] then StateLits(c, values) == initLits
     else StateLits(c, frames[0]) == initLits && StateLits(c, values) == MapValue(frames[|frames| - 1], c.nexts)) &&
    inputs == FrameInputs(c, frames) && constraints == FrameConstraints(c, frames) &&
    outputs == FrameOutputs(c, frames) &&
    (forall k :: 0 <= k < |frames| ==> AgreeUnder(nodes, frames[k], c, |c.ands|)) &&
    (forall j :: j in encoded ==> 0 <= j < |uands|) && Closed(uands, encoded)
  }
}
