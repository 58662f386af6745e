/**
 * One call of unfold (BMC.cpp:265-347) as functions on values: fresh input
 * nodes, every gate through Aig_And, the structural hash or a new gate
 * node, the outputs adopted, and the latches moved to their next-state
 * literals. GateUnfoldKeeps and UnrolledStep state what a step keeps: any
 * run of the unrolled circuit makes the step's gates agree, and the
 * recorded steps stay a chain of circuit steps.
 */
module BmcStep {
  import opened Literals
  import opened PdrTypes
  import opened Circuit
  import opened BmcTypes
  import opened BmcSpec

  /** The part of the unrolled circuit a gate can change. */
  datatype Graph = Graph(nodes: seq<Node>, hashTable: map<int, seq<And>>, gates: seq<And>)

  /** u keeps every gate of t at its position. */
  predicate Grows(t: seq<And>, u: seq<And>)
  {
    |t| <= |u| && forall j :: 0 <= j < |t| ==> u[j] == t[j]
  }

  // ---------------------------------------------------------------------------
  // Inputs (BMC.cpp:267-271)
  // ---------------------------------------------------------------------------

  /** n input nodes. */
  function InputNodes(n: nat): (r: seq<Node>)
    ensures |r| == n
  {
    seq(n, _ => Node(2, 0, 0, 0, true))
  }

  /** The step's values once input k has node n0 + k. */
  function WithInputs(c: Circ, values: seq<int>, n0: int): (r: seq<int>)
    requires First(c) <= |values|
    ensures |r| == |values|
    ensures forall v :: 0 <= v < |values| ==> r[v] == if 2 <= v < c.nI + 2 then n0 + v - 2 else values[v]
  {
    values[..2] + seq(c.nI, k => n0 + k) + values[c.nI + 2..]
  }

  /** The unrolled circuit once the step's inputs have their nodes. */
  function WithInputNodes(c: Circ, g: Graph): (r: Graph)
    ensures Extends(g.nodes, r.nodes)
  {
    Graph(g.nodes + InputNodes(c.nI), g.hashTable, g.gates)
  }

  /** Between steps: a well-formed circuit, one unrolled literal per
      variable with the constant's 1, a sound unrolled circuit, and nodes
      for the latches. */
  predicate Ready(c: Circ, values: seq<int>, g: Graph)
  {
    CircOk(c) && |values| == Size(c) && values[1] == 1 && Sound(g.nodes, g.hashTable, g.gates) &&
    forall v :: c.nI + 2 <= v < First(c) ==> 1 <= Abs(values[v]) < |g.nodes|
  }

  /** After the input loop every variable below the first gate has a node,
      the latches keep theirs and the inputs have the fresh ones. */
  lemma InputsPartial(c: Circ, values: seq<int>, g: Graph)
    requires Ready(c, values, g)
    ensures var w := WithInputs(c, values, |g.nodes|);
      Partial(c, w, 0, WithInputNodes(c, g)) && StateLits(c, w) == StateLits(c, values) &&
      InputLits(c, w) == seq(c.nI, k => |g.nodes| + k)
  {
    var h := WithInputNodes(c, g);
    HashOkExtends(g.nodes, h.nodes, g.hashTable);
    AndsOkExtends(g.nodes, h.nodes, g.gates);
  }

  // ---------------------------------------------------------------------------
  // Gates (BMC.cpp:274-322)
  // ---------------------------------------------------------------------------

  /** The shape unfolding keeps from gate to gate: the step's variables
      below gate i have nodes and the unrolled circuit is sound. */
  predicate Partial(c: Circ, values: seq<int>, i: int, g: Graph)
  {
    CircOk(c) && |values| == Size(c) && values[1] == 1 && 0 <= i <= |c.ands| &&
    Sound(g.nodes, g.hashTable, g.gates) && Ranged(values, First(c) + i, |g.nodes|)
  }

  /** What unfolding keeps from gate to gate: its shape, and any run of the
      unrolled circuit makes the step's first i gates agree. */
  ghost predicate Midway(c: Circ, values: seq<int>, i: int, g: Graph)
  {
    Partial(c, values, i, g) && AgreeUnder(g.nodes, values, c, i)
  }

  /** The literal Aig_And finds for gate i, run with the gate's own literal
      at 0 (0 when no rule applies). */
  function RuleLit(c: Circ, values: seq<int>, i: int): int
    requires CircOk(c) && |values| == Size(c) && values[1] == 1 && 0 <= i < |c.ands|
  {
    AigAnd(values[First(c) + i := 0], c, c.ands[i].i1, c.ands[i].i2)
  }

  lemma RuleLitRange(c: Circ, values: seq<int>, i: int, n: int)
    requires CircOk(c) && |values| == Size(c) && values[1] == 1 && 0 <= i < |c.ands|
    requires 2 <= n && Ranged(values, First(c) + i, n)
    ensures var r := RuleLit(c, values, i); r == 0 || 1 <= Abs(r) < n
  {
    var a := c.ands[i];
    var w := values[First(c) + i := 0];
    assert RuleLit(c, values, i) == AigAnd(w, c, a.i1, a.i2);
    RangedBelow(values, First(c) + i, Height(a.i1, a.i2) + 1, n);
    AigAndRange(w, c, a.i1, a.i2, n);
  }

  /** Clearing variable k keeps the variables below k ranged. */
  lemma RangedBelow(values: seq<int>, k: int, m: int, nodes: int)
    requires 0 <= m <= k < |values| && Ranged(values, k, nodes)
    ensures Ranged(values[k := 0], m, nodes)
  {
  }

  /** A literal Aig_And finds for gate i means the AND of its operands under
      any run in which the gates before it agree. */
  lemma RuleLitMeans(c: Circ, values: seq<int>, i: int, n: int, sigma: int -> bool)
    requires CircOk(c) && |values| == Size(c) && values[1] == 1 && 0 <= i < |c.ands|
    requires Ranged(values, First(c) + i, n) && !sigma(1) && GatesAgree(sigma, values, c, i)
    ensures var r := RuleLit(c, values, i); var a := c.ands[i];
      r != 0 ==> Lit(sigma, r) == (Means(sigma, values, a.i1) && Means(sigma, values, a.i2))
  {
    var a := c.ands[i];
    var w := values[First(c) + i := 0];
    GatesAgreeFrame(sigma, values, w, c, i);
    AigAndSound(sigma, w, c, a.i1, a.i2, i);
    assert Value(w, a.i1) == Value(values, a.i1) && Value(w, a.i2) == Value(values, a.i2);
  }

  /** The unrolled literals of gate i's operands name nodes. */
  lemma OperandsRanged(c: Circ, values: seq<int>, i: int, g: Graph)
    requires Partial(c, values, i, g) && i < |c.ands|
    ensures var a := c.ands[i];
      1 <= Abs(Value(values, a.i1)) < |g.nodes| && 1 <= Abs(Value(values, a.i2)) < |g.nodes|
  {
  }

  /** The last gate in the first operand's bucket over the operands'
      unrolled literals, either order (0 when there is none). */
  function Hashed(c: Circ, values: seq<int>, i: int, g: Graph): int
    requires CircOk(c) && |values| == Size(c) && 0 <= i < |c.ands|
  {
    var l1, l2 := Value(values, c.ands[i].i1), Value(values, c.ands[i].i2);
    LastMatch(Bucket(g.hashTable, Abs(l1)), l1, l2)
  }

  /** Gate i: the literal of Aig_And, run with the gate's own literal at 0,
      when a rule finds one; otherwise the last gate over the operands'
      literals (either order) in the bucket of the first; otherwise a new
      gate node, which both children adopt and which joins the gate list
      and both buckets. The literal, and the unrolled circuit after. */
  function GateUnfold(c: Circ, values: seq<int>, i: int, g: Graph): (int, Graph)
    requires Partial(c, values, i, g) && i < |c.ands|
  {
    var x := RuleLit(c, values, i);
    if x != 0 then (x, g)
    else
      var h := Hashed(c, values, i, g);
      if h != 0 then (h, g)
      else
        var l1, l2 := Value(values, c.ands[i].i1), Value(values, c.ands[i].i2);
        OperandsRanged(c, values, i, g);
        var e := And(|g.nodes|, l1, l2);
        (|g.nodes|, Graph(WithGate(g.nodes, l1, l2), File(File(g.hashTable, Abs(l1), e), Abs(l2), e), g.gates + [e]))
  }

  /** The literal gate i gets names a node, and the unrolled circuit after
      it is sound and keeps every node and gate it had. */
  lemma GateUnfoldShape(c: Circ, values: seq<int>, i: int, g: Graph)
    requires Partial(c, values, i, g) && i < |c.ands|
    ensures var r := GateUnfold(c, values, i, g);
      1 <= Abs(r.0) < |r.1.nodes| && Sound(r.1.nodes, r.1.hashTable, r.1.gates) &&
      Extends(g.nodes, r.1.nodes) && Grows(g.gates, r.1.gates)
  {
    OperandsRanged(c, values, i, g);
    RuleLitRange(c, values, i, |g.nodes|);
    var l1, l2 := Value(values, c.ands[i].i1), Value(values, c.ands[i].i2);
    LastMatchIsGate(g.nodes, g.hashTable, Abs(l1), l1, l2);
    if RuleLit(c, values, i) == 0 && Hashed(c, values, i, g) == 0 {
      GateSound(g.nodes, g.hashTable, g.gates, l1, l2);
    }
  }

  /** Unfolding gate i keeps the shape, one gate further. */
  lemma GateUnfoldPartial(c: Circ, values: seq<int>, i: int, g: Graph)
    requires Partial(c, values, i, g) && i < |c.ands|
    ensures var r := GateUnfold(c, values, i, g);
      Partial(c, values[First(c) + i := r.0], i + 1, r.1) && Extends(g.nodes, r.1.nodes) && Grows(g.gates, r.1.gates)
  {
    GateUnfoldShape(c, values, i, g);
  }

  /** The gate loop of unfold from gate i on: each gate in order, with the
      step's values so far. The step's values and the unrolled circuit
      after. */
  function GatesFrom(c: Circ, values: seq<int>, i: int, g: Graph): (r: (seq<int>, Graph))
    requires Partial(c, values, i, g)
    ensures Partial(c, r.0, |c.ands|, r.1) && Extends(g.nodes, r.1.nodes) && Grows(g.gates, r.1.gates)
    ensures SameBelow(values, r.0, First(c) + i)
    decreases |c.ands| - i
  {
    if i == |c.ands| then (values, g)
    else
      GateUnfoldPartial(c, values, i, g);
      var x := GateUnfold(c, values, i, g);
      var r := GatesFrom(c, values[First(c) + i := x.0], i + 1, x.1);
      ExtendsTrans(g.nodes, x.1.nodes, r.1.nodes);
      r
  }

  /** Under any run of the unrolled circuit after gate i, the literal gate i
      gets means the AND of its operands in the step. */
  lemma GateUnfoldMeans(c: Circ, values: seq<int>, i: int, g: Graph, sigma: int -> bool)
    requires Partial(c, values, i, g) && i < |c.ands| && GatesAgree(sigma, values, c, i)
    requires Respects(sigma, GateUnfold(c, values, i, g).1.nodes)
    ensures var a := c.ands[i];
      Lit(sigma, GateUnfold(c, values, i, g).0) == (Means(sigma, values, a.i1) && Means(sigma, values, a.i2))
  {
    var r := GateUnfold(c, values, i, g);
    GateUnfoldShape(c, values, i, g);
    RespectsExtends(sigma, g.nodes, r.1.nodes);
    RuleLitMeans(c, values, i, |g.nodes|, sigma);
    var l1, l2 := Value(values, c.ands[i].i1), Value(values, c.ands[i].i2);
    LastMatchIsGate(g.nodes, g.hashTable, Abs(l1), l1, l2);
    if RuleLit(c, values, i) == 0 {
      var h := Hashed(c, values, i, g);
      if h != 0 {
        GateNodeMeans(sigma, g.nodes, h, values, c.ands[i].i1, c.ands[i].i2);
      } else {
        assert sigma(|g.nodes|) == (Lit(sigma, l1) && Lit(sigma, l2));
      }
    }
  }

  /** Unfolding gate i keeps what unfolding keeps, one gate further. */
  lemma GateUnfoldKeeps(c: Circ, values: seq<int>, i: int, g: Graph)
    requires Midway(c, values, i, g) && i < |c.ands|
    ensures var r := GateUnfold(c, values, i, g);
      Midway(c, values[First(c) + i := r.0], i + 1, r.1) && Extends(g.nodes, r.1.nodes) && Grows(g.gates, r.1.gates)
  {
    var a := c.ands[i];
    var r := GateUnfold(c, values, i, g);
    var v := values[First(c) + i := r.0];
    GateUnfoldShape(c, values, i, g);
    forall sigma | Respects(sigma, r.1.nodes) ensures GatesAgree(sigma, v, c, i + 1) {
      RespectsExtends(sigma, g.nodes, r.1.nodes);
      GateUnfoldMeans(c, values, i, g, sigma);
      GateLitAgrees(sigma, values, v, c, i);
    }
  }

  /** The gate loop keeps what unfolding keeps: under a run of the unrolled
      circuit after it, in which the step's first i gates agree, every gate
      of the step agrees. */
  lemma {:induction false} GatesFromMeans(c: Circ, values: seq<int>, i: int, g: Graph, sigma: int -> bool)
    requires Partial(c, values, i, g) && GatesAgree(sigma, values, c, i)
    requires Respects(sigma, GatesFrom(c, values, i, g).1.nodes)
    ensures GatesAgree(sigma, GatesFrom(c, values, i, g).0, c, |c.ands|)
    decreases |c.ands| - i
  {
    if i < |c.ands| {
      GateUnfoldPartial(c, values, i, g);
      var x := GateUnfold(c, values, i, g);
      var v := values[First(c) + i := x.0];
      var r := GatesFrom(c, v, i + 1, x.1);
      assert GatesFrom(c, values, i, g) == r;
      RespectsExtends(sigma, x.1.nodes, r.1.nodes);
      GateStepMeans(c, values, i, g, sigma);
      GatesFromMeans(c, v, i + 1, x.1, sigma);
    }
  }

  /** One gate further under a run of the unrolled circuit after gate i:
      gate i agrees too. */
  lemma GateStepMeans(c: Circ, values: seq<int>, i: int, g: Graph, sigma: int -> bool)
    requires Partial(c, values, i, g) && i < |c.ands| && GatesAgree(sigma, values, c, i)
    requires Respects(sigma, GateUnfold(c, values, i, g).1.nodes)
    ensures var x := GateUnfold(c, values, i, g);
      GatesAgree(sigma, values[First(c) + i := x.0], c, i + 1)
  {
    var x := GateUnfold(c, values, i, g);
    GateUnfoldMeans(c, values, i, g, sigma);
    GateLitAgrees(sigma, values, values[First(c) + i := x.0], c, i);
  }

  /** The input and gate loops of one step: fresh input nodes, then every
      gate in order. The step's values and the unrolled circuit after. */
  function StepGates(c: Circ, values: seq<int>, g: Graph): (r: (seq<int>, Graph))
    requires Ready(c, values, g)
    ensures Partial(c, r.0, |c.ands|, r.1) && Extends(g.nodes, r.1.nodes) && Grows(g.gates, r.1.gates)
    ensures StateLits(c, r.0) == StateLits(c, values) && InputLits(c, r.0) == seq(c.nI, k => |g.nodes| + k)
  {
    InputsPartial(c, values, g);
    var w := WithInputs(c, values, |g.nodes|);
    var r := GatesFrom(c, w, 0, WithInputNodes(c, g));
    ExtendsTrans(g.nodes, WithInputNodes(c, g).nodes, r.1.nodes);
    assert StateLits(c, r.0) == StateLits(c, w) && InputLits(c, r.0) == InputLits(c, w);
    r
  }

  // ---------------------------------------------------------------------------
  // Outputs and latches (BMC.cpp:323-346)
  // ---------------------------------------------------------------------------

  /** The unrolled literals of circuit literals name nodes when their
      variables' do. */
  lemma MapValueRanged(values: seq<int>, lits: seq<int>, n: int, nodes: int)
    requires n <= |values| && Ranged(values, n, nodes) && forall k :: 0 <= k < |lits| ==> 1 <= Abs(lits[k]) < n
    ensures forall k :: 0 <= k < |lits| ==> 1 <= Abs(MapValue(values, lits)[k]) < nodes
  {
  }

  lemma {:induction false} AdoptAllSound(ns: seq<Node>, m: map<int, seq<And>>, ands: seq<And>, xs: seq<int>)
    requires Sound(ns, m, ands) && forall k :: 0 <= k < |xs| ==> Abs(xs[k]) < |ns|
    ensures Sound(AdoptAll(ns, xs), m, ands)
    decreases |xs|
  {
    if xs != [] {
      AdoptAllSound(ns, m, ands, xs[..|xs| - 1]);
      AdoptSound(AdoptAll(ns, xs[..|xs| - 1]), m, ands, Abs(xs[|xs| - 1]));
    }
  }

  /** The values after the latch loops: every latch holds the unrolled
      literal of its next state in the step. */
  function Latched(c: Circ, mid: seq<int>): (r: seq<int>)
    requires CircOk(c) && |mid| == Size(c)
    ensures |r| == |mid| && StateLits(c, r) == MapValue(mid, c.nexts)
    ensures forall v :: 0 <= v < |mid| && !(c.nI + 2 <= v < First(c)) ==> r[v] == mid[v]
  {
    var r := mid[..c.nI + 2] + MapValue(mid, c.nexts) + mid[First(c)..];
    assert r[c.nI + 2 .. First(c)] == MapValue(mid, c.nexts);
    r
  }

  // ---------------------------------------------------------------------------
  // The step
  // ---------------------------------------------------------------------------

  /** The lists unfold appends to grow by the step's. */
  lemma FrameListsAppend(c: Circ, frames: seq<seq<int>>, mid: seq<int>)
    requires CircOk(c) && |mid| == Size(c) && forall k :: 0 <= k < |frames| ==> |frames[k]| == Size(c)
    ensures var f := frames + [mid];
      FrameInputs(c, f) == FrameInputs(c, frames) + InputLits(c, mid) &&
      FrameConstraints(c, f) == FrameConstraints(c, frames) + MapValue(mid, c.constraints) &&
      FrameOutputs(c, f) == FrameOutputs(c, frames) + MapValue(mid, c.allbad)
  {
    assert (frames + [mid])[..|frames|] == frames;
  }

  /** The recorded steps, with the new one, still follow each other and
      start from the initial latch literals. */
  lemma FramesChain(c: Circ, v0: seq<int>, frames: seq<seq<int>>, initLits: seq<int>, mid: seq<int>)
    requires CircOk(c) && |v0| == Size(c) && |mid| == Size(c)
    requires forall k :: 0 <= k < |frames| ==> |frames[k]| == Size(c)
    requires Chained(c, frames) && StateLits(c, mid) == StateLits(c, v0)
    requires if frames == [] then StateLits(c, v0) == initLits
             else StateLits(c, frames[0]) == initLits && StateLits(c, v0) == MapValue(frames[|frames| - 1], c.nexts)
    ensures var f := frames + [mid];
      (forall k :: 0 <= k < |f| ==> |f[k]| == Size(c)) && Chained(c, f) && StateLits(c, f[0]) == initLits &&
      StateLits(c, Latched(c, mid)) == MapValue(f[|f| - 1], c.nexts)
  {
    var f := frames + [mid];
    forall k | 0 < k < |f| ensures StateLits(c, f[k]) == MapValue(f[k - 1], c.nexts) {
      if k < |frames| {
        assert f[k] == frames[k] && f[k - 1] == frames[k - 1];
      }
    }
  }

  /** The nodes of the recorded steps, and their gates' agreement, carry
      over to a larger unrolled circuit. */
  lemma FramesExtend(c: Circ, frames: seq<seq<int>>, ns: seq<Node>, ms: seq<Node>)
    requires CircOk(c) && Extends(ns, ms)
    requires forall k :: 0 <= k < |frames| ==> FrameOk(c, frames[k], |ns|) && AgreeUnder(ns, frames[k], c, |c.ands|)
    ensures forall k :: 0 <= k < |frames| ==> FrameOk(c, frames[k], |ms|) && AgreeUnder(ms, frames[k], c, |c.ands|)
  {
    forall k | 0 <= k < |frames| ensures FrameOk(c, frames[k], |ms|) && AgreeUnder(ms, frames[k], c, |c.ands|) {
      AgreeUnderExtends(ns, ms, frames[k], c, |c.ands|);
    }
  }

  /** Encoded positions stay closed when the gate list grows at its end. */
  lemma ClosedGrows(t: seq<And>, u: seq<And>, encoded: set<int>)
    requires Grows(t, u) && Closed(t, encoded) && forall j :: j in encoded ==> 0 <= j < |t|
    ensures Closed(u, encoded)
  {
    forall k, j | 0 <= j < k < |u| && k in encoded && u[j].o in Operands(u[k]) ensures j in encoded {
      assert u[j] == t[j] && u[k] == t[k];
    }
  }

  /** One unfolded step keeps the unrolling invariant: from a state where
      it holds, a step whose inputs were given nodes, whose latches are the
      state's and whose gates all agree under any run of the unrolled
      circuit is recorded; its inputs, constraints and outputs are
      appended, the outputs adopted, and the latches take its next-state
      literals. */
  lemma UnrolledStep(c: Circ, v0: seq<int>, frames: seq<seq<int>>, initLits: seq<int>, ns: seq<Node>,
                     g: Graph, inputs: seq<int>, constraints: seq<int>, outputs: seq<int>, encoded: set<int>,
                     mid: seq<int>, h: Graph)
    requires Unrolled(c, v0, frames, initLits, ns, g.hashTable, g.gates, inputs, constraints, outputs, encoded)
    requires Midway(c, mid, |c.ands|, h) && Extends(ns, h.nodes) && Grows(g.gates, h.gates)
    requires StateLits(c, mid) == StateLits(c, v0)
    ensures forall k :: 0 <= k < |c.allbad| ==> Abs(MapValue(mid, c.allbad)[k]) < |h.nodes|
    ensures Unrolled(c, Latched(c, mid), frames + [mid], initLits, AdoptAll(h.nodes, MapValue(mid, c.allbad)),
      h.hashTable, h.gates, inputs + InputLits(c, mid), constraints + MapValue(mid, c.constraints),
      outputs + MapValue(mid, c.allbad), encoded)
  {
    var outs := MapValue(mid, c.allbad);
    var ms := AdoptAll(h.nodes, outs);
    AdoptAllSound(h.nodes, h.hashTable, h.gates, outs);
    ExtendsTrans(ns, h.nodes, ms);
    FramesRecorded(c, frames, ns, mid, ms);
    FramesChain(c, v0, frames, initLits, mid);
    FrameListsAppend(c, frames, mid);
    ClosedGrows(g.gates, h.gates, encoded);
    LatchedRanged(c, mid, |ms|);
  }

  /** The latches after a step name nodes when the step's variables do. */
  lemma LatchedRanged(c: Circ, mid: seq<int>, n: int)
    requires CircOk(c) && |mid| == Size(c) && Ranged(mid, Size(c), n)
    ensures forall u :: c.nI + 2 <= u < First(c) ==> 1 <= Abs(Latched(c, mid)[u]) < n
  {
    var v := Latched(c, mid);
    forall u | c.nI + 2 <= u < First(c) ensures 1 <= Abs(v[u]) < n {
      assert v[u] == MapValue(mid, c.nexts)[u - c.nI - 2];
    }
  }

  /** The recorded steps, with the new one, have nodes and agree under any
      run of a larger unrolled circuit. */
  lemma FramesRecorded(c: Circ, frames: seq<seq<int>>, ns: seq<Node>, mid: seq<int>, ms: seq<Node>)
    requires CircOk(c) && Extends(ns, ms) && |mid| == Size(c) && mid[1] == 1 && Ranged(mid, Size(c), |ms|)
    requires AgreeUnder(ms, mid, c, |c.ands|)
    requires forall k :: 0 <= k < |frames| ==> FrameOk(c, frames[k], |ns|) && AgreeUnder(ns, frames[k], c, |c.ands|)
    ensures var f := frames + [mid];
      forall k :: 0 <= k < |f| ==> FrameOk(c, f[k], |ms|) && AgreeUnder(ms, f[k], c, |c.ands|)
  {
    var f := frames + [mid];
    FramesExtend(c, frames, ns, ms);
    forall k | 0 <= k < |f| ensures FrameOk(c, f[k], |ms|) && AgreeUnder(ms, f[k], c, |c.ands|) {
      if k < |frames| {
        assert f[k] == frames[k];
      }
    }
  }
}
