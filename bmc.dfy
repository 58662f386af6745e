/**
 * The BMC engine (BMC.hpp:114-175, BMC.cpp:76-446): the circuit is
 * translated to DIMACS numbering, then unrolled frame by frame into one
 * growing circuit (UnfoldAiger) with local rewriting (Aig_And) and
 * structural hashing, and an incremental solver is asked, frame after
 * frame, whether the frame's last bad can be true.
 *
 * The unrolled steps are recorded in the ghost field `frames`; Valid() ties
 * them to the unrolled circuit, and OutputsMean states what they mean: under
 * any run of the unrolled circuit, output b of frame k is the circuit's bad b
 * in its k-th step from the initial latches.
 */
module BmcEngine {
  import opened Literals
  import opened Wrappers
  import opened Aiger
  import opened SatSolver
  import opened PdrTypes
  import opened Circuit
  import PdrEngine
  import PdrSpec
  import opened BmcTypes
  import opened BmcSpec
  import opened BmcTranslate
  import opened BmcStep

  /** The values right after the resize: 0 everywhere but the constant's 1
      (false). */
  function Cleared(n: nat): (r: seq<int>)
    ensures |r| == n
  {
    seq(n, v => if v == 1 then 1 else 0)
  }

  /** The values initialize leaves: the constant's 1, each latch's initial
      literal, and 0 for the inputs and gates. */
  function InitialValues(a: Aiger): (r: seq<int>)
    requires ConsistentCounts(a)
    ensures |r| == VarCount(a)
  {
    var nI := a.numInputs;
    seq(VarCount(a), v =>
      if v == 1 then 1 else if nI + 2 <= v < nI + 2 + a.numLatches then InitialLit(a.latches, v - nI - 2) else 0)
  }

  /** The reset loop of initialize. */
  method ApplyResets(values0: seq<int>, init: seq<int>) returns (values: seq<int>)
    requires forall k :: 0 <= k < |init| ==> Abs(init[k]) < |values0|
    ensures values == Resets(values0, init)
  {
    values := values0;
    var i := 0;
    while i < |init|
      invariant 0 <= i <= |init| && values == Resets(values0, init[..i])
    {
      assert init[..i + 1][..i] == init[..i];
      var latch := init[i];
      if latch > 0 {
        values := values[latch := -1];
      } else if latch < 0 {
        values := values[-latch := 1];
      }
      i := i + 1;
    }
    assert init[..i] == init;
  }

  /** NULL and the constant, the first two nodes of the unrolled circuit. */
  function BaseNodes(): seq<Node>
  {
    [Node(0, 0, 0, 0, true), Node(1, 0, 0, 0, true)]
  }

  /** The part of the engine the unrolling changes: the literals of the
      current step, the unrolled circuit, what the solver was given, the
      encoded gate positions, the frame counter, and (ghost) the frames,
      the initial latch literals and the answers so far. */
  datatype Unroll = Unroll(values: seq<int>, nodes: seq<Node>, gates: seq<And>, inputs: seq<int>,
                           constraints: seq<int>, outputs: seq<int>, hashTable: map<int, seq<And>>,
                           added: seq<int>, encoded: set<int>, frames: seq<seq<int>>,
                           initLits: seq<int>, answers: seq<int>)

  /** What initialize leaves: the reset literals, NULL, the constant and a
      node per latch left unset, nothing unrolled, the constant's unit in
      the solver. */
  function InitialUnroll(a: Aiger): Unroll
    requires ConsistentCounts(a)
  {
    Unroll(InitialValues(a), BaseNodes() + seq(Unset(a.latches), _ => Node(2, 0, 0, 0, true)), [], [], [], [],
      map[], [-1, 0], {}, [], InitialLits(a.latches), [])
  }

  /** One call of unfold on the unrolling state: the step's inputs get
      fresh nodes, its gates are unfolded in order, its constraints and
      outputs are appended (each output's node gaining a father), the step
      is recorded, and the latches take its next-state literals. */
  function UnfoldStep(c: Circ, u: Unroll): (v: Unroll)
    requires Ready(c, u.values, Graph(u.nodes, u.hashTable, u.gates))
    ensures |v.frames| == |u.frames| + 1 && |v.outputs| == |u.outputs| + |c.allbad|
    ensures v.added == u.added && v.encoded == u.encoded && v.answers == u.answers
  {
    StepFinish(c, StepStart(c, u))
  }

  /** The input and gate loops on the unrolling state. */
  function StepStart(c: Circ, u: Unroll): (s: Unroll)
    requires Ready(c, u.values, Graph(u.nodes, u.hashTable, u.gates))
    ensures Partial(c, s.values, |c.ands|, Graph(s.nodes, s.hashTable, s.gates))
  {
    var r := StepGates(c, u.values, Graph(u.nodes, u.hashTable, u.gates));
    u.(values := r.0, nodes := r.1.nodes, hashTable := r.1.hashTable, gates := r.1.gates,
       inputs := u.inputs + InputLits(c, r.0))
  }

  /** The input loop on the unrolling state: a fresh input node per input. */
  function InputStage(c: Circ, u: Unroll): Unroll
    requires CircOk(c) && |u.values| == Size(c)
  {
    u.(values := WithInputs(c, u.values, |u.nodes|), nodes := u.nodes + InputNodes(c.nI),
       inputs := u.inputs + seq(c.nI, k => |u.nodes| + k))
  }

  /** The gate loop on the unrolling state. */
  function GateStage(c: Circ, u: Unroll): Unroll
    requires Partial(c, u.values, 0, Graph(u.nodes, u.hashTable, u.gates))
  {
    var r := GatesFrom(c, u.values, 0, Graph(u.nodes, u.hashTable, u.gates));
    u.(values := r.0, nodes := r.1.nodes, hashTable := r.1.hashTable, gates := r.1.gates)
  }

  /** The input and gate loops on the unrolling state are the input loop,
      then the gate loop. */
  lemma StepStartStages(c: Circ, u: Unroll)
    requires Ready(c, u.values, Graph(u.nodes, u.hashTable, u.gates))
    ensures Partial(c, InputStage(c, u).values, 0, Graph(InputStage(c, u).nodes, u.hashTable, u.gates))
    ensures StepStart(c, u) == GateStage(c, InputStage(c, u))
  {
    InputsPartial(c, u.values, Graph(u.nodes, u.hashTable, u.gates));
  }

  /** The constraint, output and latch loops on the unrolling state, with
      the step recorded. */
  function StepFinish(c: Circ, s: Unroll): Unroll
    requires CircOk(c) && |s.values| == Size(c) && Ranged(s.values, Size(c), |s.nodes|)
  {
    var mid := s.values;
    MapValueRanged(mid, c.allbad, Size(c), |s.nodes|);
    var outs := MapValue(mid, c.allbad);
    s.(values := Latched(c, mid), nodes := AdoptAll(s.nodes, outs),
       constraints := s.constraints + MapValue(mid, c.constraints), outputs := s.outputs + outs,
       frames := s.frames + [mid])
  }

  /** The unrolling invariant over an unrolling state, and the solver
      holding the clauses of every encoded gate. */
  ghost predicate UnrolledState(c: Circ, u: Unroll)
  {
    Unrolled(c, u.values, u.frames, u.initLits, u.nodes, u.hashTable, u.gates, u.inputs, u.constraints,
      u.outputs, u.encoded) && ClausesHeld(u)
  }

  /** t stands in s at position p. */
  ghost predicate At(s: seq<int>, t: seq<int>, p: int)
  {
    0 <= p <= |s| - |t| && s[p..p + |t|] == t
  }

  /** t stands in s as one contiguous block. */
  ghost predicate Occurs(s: seq<int>, t: seq<int>)
  {
    exists p :: At(s, t, p)
  }

  /** lit_has_insert marks a gate only once its three clauses went to the
      solver: every encoded position's clauses stand in what the solver was
      given. */
  ghost predicate ClausesHeld(u: Unroll)
  {
    forall j :: j in u.encoded && 0 <= j < |u.gates| ==> Occurs(u.added, GateClauses(u.gates[j]))
  }

  lemma OccursAppend(s: seq<int>, b: seq<int>, t: seq<int>)
    requires Occurs(s, t)
    ensures Occurs(s + b, t)
  {
    var p :| At(s, t, p);
    assert (s + b)[p..p + |t|] == s[p..p + |t|];
    assert At(s + b, t, p);
  }

  lemma OccursPrepend(a: seq<int>, s: seq<int>, t: seq<int>)
    requires Occurs(s, t)
    ensures Occurs(a + s, t)
  {
    var p :| At(s, t, p);
    assert (a + s)[|a| + p..|a| + p + |t|] == s[p..p + |t|];
    assert At(a + s, t, |a| + p);
  }

  /** The clauses of every position of S below n stand in the stream
      Encoded(ands, n, S). */
  lemma {:induction false} EncodedHolds(ands: seq<And>, n: nat, S: set<int>, j: int)
    requires n <= |ands| && 0 <= j < n && j in S
    ensures Occurs(Encoded(ands, n, S), GateClauses(ands[j]))
  {
    var t := GateClauses(ands[j]);
    if j == n - 1 {
      assert Encoded(ands, n, S) == t + Encoded(ands, n - 1, S);
      assert (t + Encoded(ands, n - 1, S))[0..|t|] == t;
      assert At(Encoded(ands, n, S), t, 0);
    } else {
      EncodedHolds(ands, n - 1, S, j);
      OccursPrepend(if n - 1 in S then GateClauses(ands[n - 1]) else [], Encoded(ands, n - 1, S), t);
    }
  }

  /** After the cone walk of solve_one_frame, the solver's clauses hold
      those of every gate encoded then or before. */
  lemma WalkHolds(c: Circ, u: Unroll, bad: int)
    requires UnrolledState(c, u)
    ensures var w := ConeWalk(u.gates, |u.gates|, {Abs(bad)}, u.encoded);
      forall j :: j in w.1 && 0 <= j < |u.gates| ==> Occurs(u.added + w.0, GateClauses(u.gates[j]))
  {
    var w := ConeWalk(u.gates, |u.gates|, {Abs(bad)}, u.encoded);
    ConeWalkEncodes(u.gates, |u.gates|, {Abs(bad)}, u.encoded);
    forall j | j in w.1 && 0 <= j < |u.gates| ensures Occurs(u.added + w.0, GateClauses(u.gates[j])) {
      if j in u.encoded {
        OccursAppend(u.added, w.0, GateClauses(u.gates[j]));
      } else {
        EncodedHolds(u.gates, |u.gates|, w.1 - u.encoded, j);
        OccursPrepend(u.added, w.0, GateClauses(u.gates[j]));
      }
    }
  }

  /** A state that keeps the unrolling invariant is ready for unfold. */
  lemma UnrolledReady(c: Circ, u: Unroll)
    requires UnrolledState(c, u)
    ensures Ready(c, u.values, Graph(u.nodes, u.hashTable, u.gates))
  {
  }

  /** unfold keeps the unrolling invariant. */
  lemma UnfoldStepKeeps(c: Circ, u: Unroll)
    requires UnrolledState(c, u)
    ensures Ready(c, u.values, Graph(u.nodes, u.hashTable, u.gates)) && UnrolledState(c, UnfoldStep(c, u))
  {
    var g := Graph(u.nodes, u.hashTable, u.gates);
    var w := WithInputs(c, u.values, |u.nodes|);
    var g1 := WithInputNodes(c, g);
    InputsPartial(c, u.values, g);
    var r := StepGates(c, u.values, g);
    assert r == GatesFrom(c, w, 0, g1);
    forall sigma | Respects(sigma, r.1.nodes) ensures GatesAgree(sigma, r.0, c, |c.ands|) {
      GatesFromMeans(c, w, 0, g1, sigma);
    }
    UnrolledStep(c, u.values, u.frames, u.initLits, u.nodes, g, u.inputs, u.constraints, u.outputs, u.encoded,
      r.0, r.1);
    assert UnfoldStep(c, u).gates == r.1.gates;
  }

  /** One call of solve_one_frame on the unrolling state: the cone walk
      from the node of the last output encodes the gates it reaches, the
      solver is asked, under that output as an assumption, whether the
      clauses added so far are satisfiable, an unsatisfiable answer (20)
      adds the output's negation as a unit, and the answer is recorded. */
  function SolveStep(u: Unroll, oracle: IpasirOracle): Unroll
    requires |u.outputs| > 0
  {
    var bad := u.outputs[|u.outputs| - 1];
    var w := ConeWalk(u.gates, |u.gates|, {Abs(bad)}, u.encoded);
    var result := oracle.solve(u.added + w.0, [bad]);
    u.(added := u.added + w.0 + (if result == 20 then [-bad, 0] else []), encoded := w.1,
       answers := u.answers + [result])
  }

  /** solve_one_frame keeps the unrolling invariant and leaves every gate
      of the last output's cone encoded. */
  lemma SolveStepKeeps(c: Circ, u: Unroll, oracle: IpasirOracle)
    requires UnrolledState(c, u) && |u.outputs| > 0
    ensures UnrolledState(c, SolveStep(u, oracle))
    ensures forall k :: 0 <= k < |u.gates| && InCone(u.gates, {Abs(u.outputs[|u.outputs| - 1])}, k) ==>
      k in SolveStep(u, oracle).encoded
  {
    var bad := u.outputs[|u.outputs| - 1];
    var w := ConeWalk(u.gates, |u.gates|, {Abs(bad)}, u.encoded);
    AndsOkIncreasing(u.nodes, u.gates);
    ConeWalkEncodes(u.gates, |u.gates|, {Abs(bad)}, u.encoded);
    ConeWalkComplete(u.gates, {Abs(bad)}, u.encoded, |u.gates|, {Abs(bad)}, u.encoded);
    forall j | j in w.1 ensures 0 <= j < |u.gates| {
      if j !in u.encoded {
        assert j in w.1 - u.encoded;
      }
    }
    WalkHolds(c, u, bad);
    forall j | j in w.1 && 0 <= j < |u.gates|
      ensures Occurs(SolveStep(u, oracle).added, GateClauses(u.gates[j]))
    {
      OccursAppend(u.added + w.0, if oracle.solve(u.added + w.0, [bad]) == 20 then [-bad, 0] else [],
        GateClauses(u.gates[j]));
    }
  }

  /** The last output of the unrolled circuit: what solve_one_frame assumes. */
  function LastOutput(u: Unroll): int
    requires |u.outputs| > 0
  {
    u.outputs[|u.outputs| - 1]
  }

  /** The clauses solve_one_frame hands the solver: those given before and
      those of the cone walk from the last output. */
  function Query(u: Unroll): seq<int>
    requires |u.outputs| > 0
  {
    u.added + ConeWalk(u.gates, |u.gates|, {Abs(LastOutput(u))}, u.encoded).0
  }

  /** cnf holds the three clauses of every gate in the cone of bad. */
  ghost predicate ConeHeld(cnf: seq<int>, gates: seq<And>, bad: int)
  {
    forall j :: 0 <= j < |gates| && InCone(gates, {Abs(bad)}, j) ==> Occurs(cnf, GateClauses(gates[j]))
  }

  /** What solve_one_frame asks: the clauses handed to the solver hold the
      three clauses of every gate in the cone of the last output, whether
      encoded in this frame or before, and the answer recorded is the
      solver's on them under that output. */
  lemma SolveStepAsksCone(c: Circ, u: Unroll, oracle: IpasirOracle)
    requires UnrolledState(c, u) && |u.outputs| > 0
    ensures ConeHeld(Query(u), u.gates, LastOutput(u))
    ensures SolveStep(u, oracle).answers == u.answers + [oracle.solve(Query(u), [LastOutput(u)])]
  {
    SolveStepKeeps(c, u, oracle);
    WalkHolds(c, u, u.outputs[|u.outputs| - 1]);
  }

  /** One round of check's loop: unfold, then solve_one_frame. */
  ghost function Round(c: Circ, u: Unroll, oracle: IpasirOracle): (v: Unroll)
    requires UnrolledState(c, u) && |c.allbad| > 0
    ensures |v.frames| == |u.frames| + 1 && |v.answers| == |u.answers| + 1 && v.answers[..|u.answers|] == u.answers
  {
    UnfoldStepKeeps(c, u);
    var m := UnfoldStep(c, u);
    SolveStep(m, oracle)
  }

  /** A round keeps the unrolling invariant. */
  lemma RoundKeeps(c: Circ, u: Unroll, oracle: IpasirOracle)
    requires UnrolledState(c, u) && |c.allbad| > 0
    ensures UnrolledState(c, Round(c, u, oracle))
  {
    UnfoldStepKeeps(c, u);
    SolveStepKeeps(c, UnfoldStep(c, u), oracle);
  }

  /** The last output after an unfold is the last bad of the new frame. */
  lemma LastOutputIsLastBad(c: Circ, w: Unroll)
    requires UnrolledState(c, w) && |c.allbad| > 0
    ensures var m := UnfoldStep(c, w);
      |m.outputs| == (|w.frames| + 1) * |c.allbad| &&
      m.outputs[|m.outputs| - 1] == m.outputs[|w.frames| * |c.allbad| + |c.allbad| - 1]
  {
    UnfoldStepKeeps(c, w);
    var m := UnfoldStep(c, w);
    var F, B := |w.frames|, |c.allbad|;
    assert |m.outputs| == (F + 1) * B;
    assert (F + 1) * B == F * B + B;
  }

  /**
   * r is the answer of the round from u: after the unfold there are
   * |u.frames| + 1 frames of outputs, so the last output is the new frame's
   * last bad; the solver is asked under it, on clauses that hold the clauses
   * of every gate in its cone, and r is what the solver says.
   */
  ghost predicate Asked(c: Circ, u: Unroll, r: int, oracle: IpasirOracle)
  {
    UnrolledState(c, u) && |c.allbad| > 0 &&
    var m := UnfoldStep(c, u);
    |m.outputs| == (|u.frames| + 1) * |c.allbad| &&
    ConeHeld(Query(m), m.gates, LastOutput(m)) && r == oracle.solve(Query(m), [LastOutput(m)])
  }

  /** The answer a round appends is the solver's answer on the clauses that
      hold the cone of the new frame's last output. */
  lemma RoundAnswer(c: Circ, w: Unroll, oracle: IpasirOracle)
    requires UnrolledState(c, w) && |c.allbad| > 0
    ensures |Round(c, w, oracle).answers| == |w.answers| + 1
    ensures Asked(c, w, Round(c, w, oracle).answers[|w.answers|], oracle)
  {
    LastOutputIsLastBad(c, w);
    UnfoldStepKeeps(c, w);
    SolveStepAsksCone(c, UnfoldStep(c, w), oracle);
  }

  /**
   * trace holds the state before each round of check and the state after
   * the last one: each state is the round from the one before it, and
   * found[k] is the answer of round k.
   */
  ghost predicate Traced(c: Circ, trace: seq<Unroll>, found: seq<int>, oracle: IpasirOracle)
  {
    |trace| == |found| + 1 &&
    forall k {:trigger Asked(c, trace[k], found[k], oracle)} :: 0 <= k < |found| ==>
      Asked(c, trace[k], found[k], oracle) && trace[k + 1] == Round(c, trace[k], oracle)
  }

  /** An unfold and a solve_one_frame from the last state of a trace,
      answering r, extend it by one round. */
  lemma TracedRound(c: Circ, trace: seq<Unroll>, found: seq<int>, oracle: IpasirOracle, u: Unroll, m: Unroll, v: Unroll, r: int)
    requires Traced(c, trace, found, oracle) && trace[|found|] == u && UnrolledState(c, u) && |c.allbad| > 0
    requires m == UnfoldStep(c, u) && v == SolveStep(m, oracle) && v.answers == m.answers + [r]
    ensures Traced(c, trace + [v], found + [r], oracle)
  {
    IsRound(c, u, m, v, oracle);
    RoundAnswer(c, u, oracle);
    TracedExtend(c, trace, found, oracle, v, r);
  }

  /**
   * check's loop has run |found| rounds from s0 and stands at s: the trace
   * runs from s0 to s, and s records the answers found after those of s0,
   * with one more frame per round.
   */
  ghost predicate RanFrom(c: Circ, oracle: IpasirOracle, s0: Unroll, trace: seq<Unroll>, found: seq<int>, s: Unroll)
  {
    Traced(c, trace, found, oracle) && trace[0] == s0 && trace[|found|] == s &&
    s.answers == s0.answers + found && |s.frames| == |s0.frames| + |found|
  }

  /** An unfold and a solve_one_frame answering r take check's loop one
      round further. */
  lemma RanFromRound(c: Circ, oracle: IpasirOracle, s0: Unroll, trace: seq<Unroll>, found: seq<int>,
                     u: Unroll, m: Unroll, v: Unroll, r: int)
    requires RanFrom(c, oracle, s0, trace, found, u) && UnrolledState(c, u) && |c.allbad| > 0
    requires m == UnfoldStep(c, u) && v == SolveStep(m, oracle) && v.answers == m.answers + [r]
    ensures RanFrom(c, oracle, s0, trace + [v], found + [r], v)
  {
    TracedRound(c, trace, found, oracle, u, m, v, r);
    AppendAssoc(s0.answers, found, r);
  }

  /** The rounds are determined by where they start and by the solver:
      two runs of check's loop from s0 of the same length agree on the
      trace, the answers and the state they stand at. */
  lemma RanFromDetermined(c: Circ, oracle: IpasirOracle, s0: Unroll,
                          t1: seq<Unroll>, f1: seq<int>, s1: Unroll, t2: seq<Unroll>, f2: seq<int>, s2: Unroll)
    requires RanFrom(c, oracle, s0, t1, f1, s1) && RanFrom(c, oracle, s0, t2, f2, s2) && |f1| == |f2|
    ensures t1 == t2 && f1 == f2 && s1 == s2
  {
    TracedAgree(c, oracle, t1, f1, t2, f2, |f1|);
    assert f1 == f1[..|f1|];
    assert f2 == f2[..|f2|];
  }

  /** Two traces from the same state agree on their first n rounds. */
  lemma {:induction false} TracedAgree(c: Circ, oracle: IpasirOracle, t1: seq<Unroll>, f1: seq<int>,
                                       t2: seq<Unroll>, f2: seq<int>, n: nat)
    requires Traced(c, t1, f1, oracle) && Traced(c, t2, f2, oracle) && t1[0] == t2[0]
    requires n <= |f1| && n <= |f2|
    ensures t1[..n + 1] == t2[..n + 1] && f1[..n] == f2[..n]
    decreases n
  {
    if n > 0 {
      var m: nat := n - 1;
      TracedAgree(c, oracle, t1, f1, t2, f2, m);
      assert t1[m] == t2[m] by { assert t1[..m + 1][m] == t1[m] && t2[..m + 1][m] == t2[m]; }
      TracedStepAgrees(c, oracle, t1, f1, t2, f2, m);
      assert t1[..n + 1] == t1[..m + 1] + [t1[n]];
      assert t2[..n + 1] == t2[..m + 1] + [t2[n]];
      assert f1[..n] == f1[..m] + [f1[m]];
      assert f2[..n] == f2[..m] + [f2[m]];
    }
  }

  /** Two traces at the same state take the same round with the same answer. */
  lemma TracedStepAgrees(c: Circ, oracle: IpasirOracle, t1: seq<Unroll>, f1: seq<int>,
                         t2: seq<Unroll>, f2: seq<int>, m: nat)
    requires Traced(c, t1, f1, oracle) && Traced(c, t2, f2, oracle)
    requires m < |f1| && m < |f2| && t1[m] == t2[m]
    ensures f1[m] == f2[m] && t1[m + 1] == t2[m + 1]
  {
    assert Asked(c, t1[m], f1[m], oracle);
    assert Asked(c, t2[m], f2[m], oracle);
  }

  /** One more round extends a trace. */
  lemma TracedExtend(c: Circ, trace: seq<Unroll>, found: seq<int>, oracle: IpasirOracle, v: Unroll, r: int)
    requires Traced(c, trace, found, oracle) && Asked(c, trace[|found|], r, oracle)
    requires v == Round(c, trace[|found|], oracle)
    ensures Traced(c, trace + [v], found + [r], oracle)
  {
    var t, f := trace + [v], found + [r];
    forall k | 0 <= k < |f|
      ensures Asked(c, t[k], f[k], oracle) && t[k + 1] == Round(c, t[k], oracle)
    {
      if k == |found| {
        assert t[k + 1] == v;
      }
    }
  }

  /** An unfold followed by solve_one_frame is a round. */
  lemma IsRound(c: Circ, u: Unroll, m: Unroll, v: Unroll, oracle: IpasirOracle)
    requires UnrolledState(c, u) && |c.allbad| > 0
    requires m == UnfoldStep(c, u) && |m.outputs| > 0 && v == SolveStep(m, oracle)
    ensures v == Round(c, u, oracle)
  {
  }

  /** Every assignment that respects the unrolled circuit is a run of its
      recorded steps. */
  lemma UnrolledRuns(c: Circ, u: Unroll, sigma: int -> bool)
    requires UnrolledState(c, u) && Respects(sigma, u.nodes)
    ensures Unrolling(sigma, c, u.frames)
  {
    forall k | 0 <= k < |u.frames| ensures StepRun(sigma, u.frames[k], c, |c.ands|) {
      assert FrameOk(c, u.frames[k], |u.nodes|) && AgreeUnder(u.nodes, u.frames[k], c, |c.ands|);
    }
  }

  /** What the unrolled outputs mean: under any assignment that respects
      the unrolled circuit, output b of step k is the circuit's bad b in its
      k-th step from the initial latches, the inputs of step j being the
      values of the j-th block of unrolled inputs. Between frames the
      engine's state satisfies the requires (Bmc.Valid). */
  lemma OutputsMean(c: Circ, u: Unroll, sigma: int -> bool, k: nat, b: nat)
    requires UnrolledState(c, u) && Respects(sigma, u.nodes) && k < |u.frames| && b < |c.allbad|
    ensures k * |c.allbad| + b < |u.outputs|
    ensures forall j :: 0 <= j <= k ==> (j * c.nI + c.nI <= |u.inputs| &&
      Trace(sigma, c, u.frames)[j] == Lits(sigma, u.inputs[j * c.nI .. j * c.nI + c.nI]))
    ensures var ins := Trace(sigma, c, u.frames);
      Lit(sigma, u.outputs[k * |c.allbad| + b]) ==
        EvalLit(c, Env(c, Run(c, Lits(sigma, u.initLits), ins, k), ins[k]), c.allbad[b])
  {
    UnrolledRuns(c, u, sigma);
    FrameOutputAt(c, u.frames, k, b);
    OutputMeaning(sigma, c, u.frames, k, b);
    TraceInputs(c, u, sigma);
  }

  /** The input trace of the recorded steps is read off the unrolled
      inputs, one block of I per step. */
  lemma TraceInputs(c: Circ, u: Unroll, sigma: int -> bool)
    requires UnrolledState(c, u)
    ensures forall j :: 0 <= j < |u.frames| ==> (j * c.nI + c.nI <= |u.inputs| &&
      Trace(sigma, c, u.frames)[j] == Lits(sigma, u.inputs[j * c.nI .. j * c.nI + c.nI]))
  {
    forall j | 0 <= j < |u.frames|
      ensures j * c.nI + c.nI <= |u.inputs| && Trace(sigma, c, u.frames)[j] == Lits(sigma, u.inputs[j * c.nI .. j * c.nI + c.nI])
    {
      FrameInputAt(c, u.frames, j);
    }
  }

  /** Appending one more answer to the answers found so far. */
  lemma AppendAssoc(a: seq<int>, b: seq<int>, x: int)
    ensures a + b + [x] == a + (b + [x]) && (b + [x])[..|b|] == b && (b + [x])[|b|] == x
  {
  }

  // ---------------------------------------------------------------------------
  // The engine
  // ---------------------------------------------------------------------------

  class Bmc {
    const aiger: Aiger
    const propertyIndex: Int32
    const nframes: int
    /** What every solver the engine makes answers. */
    const ipasir: IpasirOracle
    /** tempvalue: the next-state literals of a frame before they are stored. */
    const tempvalue: array<int>

    var nInputs: nat
    var nLatches: nat
    var nAnds: nat
    var variables: seq<Variable>
    var ands: seq<And>
    var nexts: seq<int>
    var initState: seq<int>
    var constraints: seq<int>
    var allbad: seq<int>
    var bad: int
    /** The unrolled literal of every circuit variable in the current frame. */
    var values: seq<int>
    var uaiger: UnfoldAiger
    var bmcSolver: CaDiCaL
    var frameK: int
    /** lit_has_insert: the positions of uaiger.ands whose clauses the
        solver holds. */
    var litHasInsert: set<int>

    /** The values of every frame unfolded so far. */
    ghost var frames: seq<seq<int>>
    /** The latches' literals of frame 0. */
    ghost var initLits: seq<int>
    /** The solver's answer at every frame checked so far. */
    ghost var answers: seq<int>

    /** The constructor: allbad starts empty. The solver is made by
        initialize; until then the field holds an unused one. */
    constructor (aiger: Aiger, propertyIndex: Int32, nframes: int, ipasir: IpasirOracle)
      ensures this.aiger == aiger && this.propertyIndex == propertyIndex && this.nframes == nframes
      ensures this.ipasir == ipasir && allbad == [] && tempvalue.Length == TEMP_VALUES
    {
      this.aiger, this.propertyIndex, this.nframes, this.ipasir := aiger, propertyIndex, nframes, ipasir;
      tempvalue := new int[TEMP_VALUES];
      nInputs, nLatches, nAnds := 0, 0, 0;
      variables, ands, nexts, initState, constraints, allbad, bad := [], [], [], [], [], [], 0;
      values, frameK, litHasInsert := [], 0, {};
      uaiger := new UnfoldAiger();
      bmcSolver := new CaDiCaL(ipasir);
      frames, initLits, answers := [], [], [];
    }

    /** The translated circuit. */
    function Design(): Circ
      reads this`nInputs, this`nLatches, this`ands, this`nexts, this`constraints, this`allbad
    {
      Circ(nInputs, nLatches, ands, nexts, constraints, allbad)
    }

    /** The engine's unrolling state. */
    ghost function Snapshot(): Unroll
      reads this`values, this`uaiger, this`bmcSolver, this`litHasInsert, this`frames, this`initLits, this`answers,
        uaiger, bmcSolver
    {
      Unroll(values, uaiger.nodes, uaiger.ands, uaiger.inputs, uaiger.constraints, uaiger.outputs,
        uaiger.hashTable, bmcSolver.added, litHasInsert, frames, initLits, answers)
    }

    /** Between frames: the unrolling invariant over the engine's fields,
        tempvalue large enough for the latches, and the solver valid with no
        pending assumption. */
    ghost predicate Valid()
      reads this`nInputs, this`nLatches, this`nAnds, this`ands, this`nexts, this`constraints, this`allbad,
        this`values, this`uaiger, this`bmcSolver, this`litHasInsert, this`frames, this`initLits, this`answers,
        uaiger, bmcSolver
    {
      |allbad| > 0 && nAnds == |ands| && nLatches <= tempvalue.Length && UnrolledState(Design(), Snapshot()) &&
      bmcSolver.Valid() && bmcSolver.pending == [] && bmcSolver.oracle == ipasir
    }

    // -------------------------------------------------------------------------
    // translate_to_dimacs (BMC.cpp:108-194)
    // -------------------------------------------------------------------------

    /** The loops of translate_to_dimacs, stopping at the first failed
        assert: it succeeds exactly when the numbering is the binary one
        and a bad or output with the index exists within the bound as
        written, and then holds the DIMACS circuit with every bad of the
        chosen list appended to allbad. */
    method TranslateToDimacs() returns (ok: bool)
      requires ConsistentCounts(aiger) && Fits(aiger)
      modifies this`nInputs, this`nLatches, this`nAnds, this`variables, this`ands, this`nexts, this`initState,
        this`constraints, this`allbad, this`bad
      ensures ok <==> TranslationDefined(aiger, propertyIndex)
      ensures ok ==> |old(allbad)| <= |allbad| && allbad[..|old(allbad)|] == old(allbad)
      ensures ok ==> Loaded(nInputs, nLatches, nAnds, variables, ands, nexts, initState, constraints, bad,
        allbad[|old(allbad)|..]) == Loading(aiger, propertyIndex)
    {
      var t;
      ok, t := LoadAll(aiger, propertyIndex);
      if ok {
        nInputs, nLatches, nAnds := t.nI, t.nL, t.nA;
        variables, ands, nexts, initState, constraints := t.vars, t.gates, t.nx, t.initial, t.cs;
        bad, allbad := t.b, allbad + t.bs;
        assert allbad[|old(allbad)|..] == t.bs;
      }
    }

    // -------------------------------------------------------------------------
    // encode_init_condition (BMC.cpp:76-105)
    // -------------------------------------------------------------------------

    /** I: the constant, the reset literals, the constraints, and the cone
        of the constraints, walked over the operands' variables. */
    function InitCnf(): seq<int>
      reads this`initState, this`constraints, this`ands
    {
      [-1, 0] + PdrSpec.UnitStream(initState) + PdrSpec.UnitStream(constraints) + Walk(ands, |ands|, AbsSet(constraints))
    }

    /** The initial condition into s, then a solve whose answer is only
        printed. (The source sends the reset literals and the solve to the
        field bmcSolver, which is s at the only call.) */
    method EncodeInitCondition(s: CaDiCaL) returns (res: int)
      requires s.Valid()
      modifies s`added, s`nv, s`pending, s`lastAdded, s`lastAssumed
      ensures s.Valid() && s.added == old(s.added) + InitCnf() && s.pending == []
      ensures res == s.oracle.solve(s.added, old(s.pending))
    {
      ghost var s0 := s.added;
      AddAll(s, [-1, 0]);
      PdrEngine.AddUnits(s, initState);
      PdrEngine.AddUnits(s, constraints);
      assert s.added == s0 + ([-1, 0] + PdrSpec.UnitStream(initState) + PdrSpec.UnitStream(constraints));
      PdrEngine.AddWalk(s, ands, AbsSet(constraints));
      res := s.Solve();
    }

    // -------------------------------------------------------------------------
    // initialize (BMC.cpp:349-389)
    // -------------------------------------------------------------------------

    /** memset(tempvalue, 0, ...). */
    method ClearTemp()
      modifies tempvalue
      ensures forall i :: 0 <= i < tempvalue.Length ==> tempvalue[i] == 0
    {
      forall i | 0 <= i < tempvalue.Length {
        tempvalue[i] := 0;
      }
    }

    /** The latches the resets leave at 0 get a fresh input node each, in
        order. */
    method FreshLatches()
      requires ConsistentCounts(aiger) && nInputs == aiger.numInputs && nLatches == aiger.numLatches
      requires |values| == VarCount(aiger)
      requires forall v :: 0 <= v < |values| ==> values[v] == ResetValue(Cleared(|values|), aiger.latches, nInputs, v)
      requires uaiger.nodes == BaseNodes()
      modifies this`values, uaiger`nodes
      ensures values == InitialValues(aiger)
      ensures uaiger.nodes == BaseNodes() + seq(Unset(aiger.latches), _ => Node(2, 0, 0, 0, true))
    {
      ghost var z := Cleared(|values|);
      ghost var latches := aiger.latches;
      var vs, base := values, nInputs + 2;
      var i := 0;
      while i <= nLatches - 1
        invariant 0 <= i <= nLatches && |vs| == |z|
        invariant uaiger.nodes == BaseNodes() + seq(Unset(latches[..i]), _ => Node(2, 0, 0, 0, true))
        invariant forall v :: 0 <= v < |vs| && !(base <= v < base + i) ==> vs[v] == ResetValue(z, latches, nInputs, v)
        invariant forall v :: base <= v < base + i ==> vs[v] == InitialLit(latches, v - base)
      {
        UnsetStep(latches, i);
        if vs[i + base] == 0 {
          var x := uaiger.NewLeaf(2);
          vs := vs[i + base := x];
        }
        i := i + 1;
      }
      assert latches[..i] == latches;
      values := vs;
    }

    /** The engine holds the translation of its circuit, with allbad holding
        exactly the bads of the chosen list. */
    ghost predicate Translated()
      reads this`nInputs, this`nLatches, this`nAnds, this`variables, this`ands, this`nexts, this`initState,
        this`constraints, this`bad, this`allbad
    {
      Translates(aiger, propertyIndex,
        Loaded(nInputs, nLatches, nAnds, variables, ands, nexts, initState, constraints, bad, allbad))
    }

    /** initialize: the translation (the source aborts when it fails), the
        initial condition checked on a solver of its own, then the start of
        the unrolling. */
    method Initialize() returns (ok: bool)
      requires Unrollable(aiger, propertyIndex) && allbad == [] && tempvalue.Length == TEMP_VALUES
      modifies this, tempvalue
      ensures ok <==> TranslationDefined(aiger, propertyIndex)
      ensures ok ==> Translated() && Valid() && fresh(uaiger) && fresh(bmcSolver)
      ensures ok ==> Snapshot() == InitialUnroll(aiger) && frameK == 0
      ensures ok ==> forall i :: 0 <= i < tempvalue.Length ==> tempvalue[i] == 0
    {
      ok := TranslateToDimacs();
      if !ok {
        return;
      }
      assert allbad[0..] == allbad;
      var check := new CaDiCaL(ipasir);
      var res := EncodeInitCondition(check);
      TranslatedDesign();
      StartUnrolling();
    }

    /** The translated circuit is the engine's circuit. */
    lemma TranslatedDesign()
      requires Translated()
      ensures Design() == Translation(aiger, propertyIndex) && CircOk(Design())
      ensures Size(Design()) == |variables| == VarCount(aiger) && |allbad| > 0
      ensures nInputs == aiger.numInputs && nLatches == aiger.numLatches && nAnds == aiger.numAnds
      ensures initState == InitState(aiger.latches, aiger.numInputs) && nLatches <= TEMP_VALUES && nAnds == |ands|
    {
      TranslationOk(aiger, propertyIndex);
      BadListChoice(aiger, propertyIndex);
    }

    /** The facts about the translation the start of the unrolling uses. */
    ghost predicate Prepared()
      reads this`nInputs, this`nLatches, this`ands, this`nexts, this`constraints, this`allbad, this`variables,
        this`initState
    {
      ConsistentCounts(aiger) && CircOk(Design()) && |variables| == Size(Design()) == VarCount(aiger) &&
      |allbad| > 0 && nInputs == aiger.numInputs && nLatches == aiger.numLatches && nLatches <= TEMP_VALUES &&
      initState == InitState(aiger.latches, aiger.numInputs)
    }

    /** The unrolling side of initialize: an empty unrolled circuit with
        NULL and the constant, the solver with the constant's unit, and the
        latches' literals of frame 0. */
    method StartUnrolling()
      requires Translated() && Prepared() && nAnds == |ands| && tempvalue.Length == TEMP_VALUES
      modifies this`uaiger, this`bmcSolver, this`litHasInsert, this`values, this`frameK, this`frames,
        this`answers, this`initLits, tempvalue
      ensures Translated() && Valid() && fresh(uaiger) && fresh(bmcSolver) && Snapshot() == InitialUnroll(aiger)
      ensures frameK == 0
      ensures forall i :: 0 <= i < tempvalue.Length ==> tempvalue[i] == 0
    {
      StartState();
      InitialValid();
    }

    /** The state the unrolling starts from. */
    method StartState()
      requires Prepared() && tempvalue.Length == TEMP_VALUES
      modifies this`uaiger, this`bmcSolver, this`litHasInsert, this`values, this`frameK, this`frames,
        this`answers, this`initLits, tempvalue
      ensures fresh(uaiger) && fresh(bmcSolver) && Snapshot() == InitialUnroll(aiger) && frameK == 0
      ensures bmcSolver.Valid() && bmcSolver.pending == [] && bmcSolver.oracle == ipasir
      ensures forall i :: 0 <= i < tempvalue.Length ==> tempvalue[i] == 0
    {
      StartCircuit();
      StartSolver();
      frameK, frames, answers := 0, [], [];
      initLits := InitialLits(aiger.latches);
    }

    /** The unrolling's solver, holding the constant's unit. */
    method StartSolver()
      modifies this`bmcSolver, this`litHasInsert
      ensures fresh(bmcSolver) && bmcSolver.Valid() && bmcSolver.pending == [] && bmcSolver.oracle == ipasir
      ensures bmcSolver.added == [-1, 0] && litHasInsert == {}
    {
      bmcSolver := new CaDiCaL(ipasir);
      bmcSolver.Add(-1);
      bmcSolver.Add(0);
      litHasInsert := {};
    }

    /** The unrolled circuit with NULL, the constant and the latches'
        nodes, and tempvalue cleared. */
    method StartCircuit()
      requires Prepared()
      modifies this`uaiger, this`values, tempvalue
      ensures fresh(uaiger) && values == InitialValues(aiger)
      ensures uaiger.nodes == BaseNodes() + seq(Unset(aiger.latches), _ => Node(2, 0, 0, 0, true))
      ensures uaiger.ands == [] && uaiger.inputs == [] && uaiger.outputs == [] && uaiger.constraints == []
      ensures uaiger.hashTable == map[]
      ensures forall i :: 0 <= i < tempvalue.Length ==> tempvalue[i] == 0
    {
      uaiger := new UnfoldAiger();
      ClearTemp();
      InitialLatches();
    }

    /** NULL, the constant, and the latches' literals of frame 0. */
    method InitialLatches()
      requires Prepared() && uaiger.nodes == []
      modifies this`values, uaiger`nodes
      ensures values == InitialValues(aiger)
      ensures uaiger.nodes == BaseNodes() + seq(Unset(aiger.latches), _ => Node(2, 0, 0, 0, true))
    {
      var x := uaiger.NewLeaf(0);
      x := uaiger.NewLeaf(1);
      values := Cleared(|variables|);
      ResetsOfInitState(values, aiger.latches, nInputs);
      values := ApplyResets(values, initState);
      FreshLatches();
    }

    /** What Initialize leaves is Valid. */
    lemma InitialValid()
      requires Prepared() && Snapshot() == InitialUnroll(aiger) && nAnds == |ands| && nLatches <= tempvalue.Length
      requires bmcSolver.Valid() && bmcSolver.pending == [] && bmcSolver.oracle == ipasir
      ensures Valid()
    {
      var c := Design();
      var latches := aiger.latches;
      forall v | nInputs + 2 <= v < First(c) ensures 1 <= Abs(values[v]) < |uaiger.nodes| {
        var k := v - nInputs - 2;
        assert values[v] == InitialLit(latches, k);
        if latches[k].defaultVal !in {0, 1} {
          UnsetGrows(latches, k, |latches|);
          assert latches[..|latches|] == latches;
        }
      }
      assert Sound(uaiger.nodes, uaiger.hashTable, uaiger.ands);
    }

    // -------------------------------------------------------------------------
    // unfold (BMC.cpp:265-347)
    // -------------------------------------------------------------------------

    /** The part of the unrolled circuit a gate can change. */
    ghost function Unfolded(): Graph
      reads this`uaiger, uaiger
    {
      Graph(uaiger.nodes, uaiger.hashTable, uaiger.ands)
    }

    /** The input loop: a fresh input node per input, in order. */
    method UnfoldInputs()
      requires CircOk(Design()) && |values| == Size(Design())
      modifies this`values, uaiger`nodes, uaiger`inputs
      ensures values == WithInputs(Design(), old(values), |old(uaiger.nodes)|)
      ensures uaiger.nodes == old(uaiger.nodes) + InputNodes(nInputs)
      ensures uaiger.inputs == old(uaiger.inputs) + InputLits(Design(), values)
    {
      ghost var v0, ns0, ins0 := values, uaiger.nodes, uaiger.inputs;
      ghost var n0 := |ns0|;
      var i := 0;
      while i < nInputs
        invariant 0 <= i <= nInputs && |values| == |v0|
        invariant uaiger.nodes == ns0 + InputNodes(i)
        invariant uaiger.inputs == ins0 + seq(i, k => n0 + k)
        invariant forall v :: 0 <= v < |v0| ==> values[v] == if 2 <= v < i + 2 then n0 + v - 2 else v0[v]
      {
        assert InputNodes(i + 1) == InputNodes(i) + [Node(2, 0, 0, 0, true)];
        assert seq(i + 1, k => n0 + k) == seq(i, k => n0 + k) + [n0 + i];
        var x := uaiger.NewInput();
        values := values[i + 2 := x];
        i := i + 1;
      }
      assert InputLits(Design(), values) == seq(nInputs, k => n0 + k);
    }

    /** Gate i: Aig_And, with the gate's own literal at 0 as the source sets
        it first (RuleLit); when it finds nothing, the structural hash over the operands' literals; when that
        finds nothing, a new gate node. */
    method UnfoldGate(i: int)
      requires Partial(Design(), values, i, Unfolded()) && i < |ands|
      modifies this`values, uaiger`nodes, uaiger`ands, uaiger`hashTable
      ensures var r := GateUnfold(Design(), old(values), i, old(Unfolded()));
        values == old(values)[First(Design()) + i := r.0] && Unfolded() == r.1
    {
      var c := Design();
      ghost var g := Unfolded();
      var x := RuleLit(c, values, i);
      if x == 0 {
        var l1, l2 := Value(values, c.ands[i].i1), Value(values, c.ands[i].i2);
        OperandsRanged(c, values, i, g);
        x := uaiger.Lookup(l1, l2);
        if x == 0 {
          x := uaiger.NewGate(l1, l2);
        }
      }
      values := values[ands[i].o := x];
    }

    /** The gate loop. */
    method UnfoldGates()
      requires Partial(Design(), values, 0, Unfolded()) && nAnds == |ands|
      modifies this`values, uaiger`nodes, uaiger`ands, uaiger`hashTable
      ensures (values, Unfolded()) == GatesFrom(Design(), old(values), 0, old(Unfolded()))
    {
      ghost var target := GatesFrom(Design(), values, 0, Unfolded());
      var i := 0;
      while i < nAnds
        invariant 0 <= i <= |ands| && Partial(Design(), values, i, Unfolded())
        invariant GatesFrom(Design(), values, i, Unfolded()) == target
      {
        GateUnfoldPartial(Design(), values, i, Unfolded());
        UnfoldGate(i);
        i := i + 1;
      }
    }

    /** The constraint loop. */
    method UnfoldConstraints()
      requires CircOk(Design()) && |values| == Size(Design())
      modifies uaiger`constraints
      ensures uaiger.constraints == old(uaiger.constraints) + MapValue(values, constraints)
    {
      var cs := MapValue(values, constraints);
      var i := 0;
      while i < |constraints|
        invariant 0 <= i <= |constraints|
        invariant uaiger.constraints == old(uaiger.constraints) + cs[..i]
      {
        assert cs[..i + 1] == cs[..i] + [Value(values, constraints[i])];
        uaiger.AddConstraint(Value(values, constraints[i]));
        i := i + 1;
      }
    }

    /** The output loop: every bad's literal is an output, and its node
        gains a father. */
    method UnfoldOutputs()
      requires CircOk(Design()) && |values| == Size(Design()) && Ranged(values, Size(Design()), |uaiger.nodes|)
      modifies uaiger`nodes, uaiger`outputs
      ensures forall k :: 0 <= k < |allbad| ==> 1 <= Abs(MapValue(values, allbad)[k]) < |old(uaiger.nodes)|
      ensures uaiger.outputs == old(uaiger.outputs) + MapValue(values, allbad)
      ensures uaiger.nodes == AdoptAll(old(uaiger.nodes), MapValue(values, allbad))
    {
      var outs := MapValue(values, allbad);
      MapValueRanged(values, allbad, Size(Design()), |uaiger.nodes|);
      uaiger.AddOutputs(outs);
    }

    /** The first latch loop: every next-state literal into tempvalue. */
    method StashNexts()
      requires CircOk(Design()) && |values| == Size(Design()) && nLatches <= tempvalue.Length
      modifies tempvalue
      ensures tempvalue[..nLatches] == MapValue(values, nexts)
      ensures tempvalue[nLatches..] == old(tempvalue[nLatches..])
    {
      var nx := MapValue(values, nexts);
      var i := 0;
      while i <= nLatches - 1
        invariant 0 <= i <= nLatches
        invariant tempvalue[..i] == nx[..i]
        invariant tempvalue[nLatches..] == old(tempvalue[nLatches..])
      {
        tempvalue[i] := Value(values, nexts[i]);
        i := i + 1;
      }
    }

    /** The latch loops: every next-state literal into tempvalue, then into
        the latches. */
    method UnfoldLatches()
      requires CircOk(Design()) && |values| == Size(Design()) && nLatches <= tempvalue.Length
      modifies this`values, tempvalue
      ensures values == Latched(Design(), old(values))
      ensures tempvalue[..nLatches] == MapValue(old(values), nexts)
      ensures tempvalue[nLatches..] == old(tempvalue[nLatches..])
    {
      StashNexts();
      SetLatches();
    }

    /** The second latch loop: tempvalue into the latches. */
    method SetLatches()
      requires CircOk(Design()) && |values| == Size(Design()) && nLatches <= tempvalue.Length
      requires tempvalue[..nLatches] == MapValue(values, nexts)
      modifies this`values
      ensures values == Latched(Design(), old(values))
    {
      ghost var nx := tempvalue[..nLatches];
      var i := 0;
      while i <= nLatches - 1
        invariant 0 <= i <= nLatches && |values| == |old(values)|
        invariant forall v :: 0 <= v < |values| ==>
          values[v] == if nInputs + 2 <= v < nInputs + 2 + i then nx[v - nInputs - 2] else old(values)[v]
      {
        values := values[i + nInputs + 2 := tempvalue[i]];
        i := i + 1;
      }
    }

    /** unfold: one more step of the circuit in the unrolled circuit. The
        unrolling state moves by UnfoldStep, which keeps the unrolling
        invariant (UnfoldStepKeeps); tempvalue holds the new latches'
        literals. */
    method Unfold()
      requires Valid() == true
      modifies this`values, this`frames, uaiger`nodes, uaiger`inputs, uaiger`ands, uaiger`hashTable,
        uaiger`constraints, uaiger`outputs, tempvalue
      ensures Valid() == true
      ensures Snapshot() == UnfoldStep(Design(), old(Snapshot()))
      ensures tempvalue[..nLatches] == StateLits(Design(), values)
      ensures tempvalue[nLatches..] == old(tempvalue[nLatches..])
    {
      ghost var u := Snapshot();
      UnrolledReady(Design(), u);
      UnfoldFrame();
      ValidAfterUnfold(u);
    }

    /** Valid holds again once a valid state has been unfolded. */
    lemma ValidAfterUnfold(u: Unroll)
      requires UnrolledState(Design(), u) == true && Snapshot() == UnfoldStep(Design(), u)
      requires |allbad| > 0 && nAnds == |ands| && nLatches <= tempvalue.Length
      requires bmcSolver.Valid() && bmcSolver.pending == [] && bmcSolver.oracle == ipasir
      ensures Valid()
    {
      UnfoldStepKeeps(Design(), u);
    }

    /** The loops of unfold, in the source's order. */
    method UnfoldFrame()
      requires Ready(Design(), values, Unfolded()) && nAnds == |ands| && nLatches <= tempvalue.Length
      modifies this`values, this`frames, uaiger`nodes, uaiger`inputs, uaiger`ands, uaiger`hashTable,
        uaiger`constraints, uaiger`outputs, tempvalue
      ensures Snapshot() == UnfoldStep(Design(), old(Snapshot()))
      ensures tempvalue[..nLatches] == StateLits(Design(), values)
      ensures tempvalue[nLatches..] == old(tempvalue[nLatches..])
    {
      UnfoldCircuit();
      UnfoldEnds();
    }

    /** The input and gate loops. */
    method UnfoldCircuit()
      requires Ready(Design(), values, Unfolded()) && nAnds == |ands|
      modifies this`values, uaiger`nodes, uaiger`inputs, uaiger`ands, uaiger`hashTable
      ensures Snapshot() == StepStart(Design(), old(Snapshot()))
      ensures |values| == Size(Design()) && Ranged(values, Size(Design()), |uaiger.nodes|)
    {
      StepStartStages(Design(), Snapshot());
      InputLoop();
      GateLoop();
    }

    /** The input loop on the unrolling state. */
    method InputLoop()
      requires CircOk(Design()) && |values| == Size(Design())
      modifies this`values, uaiger`nodes, uaiger`inputs
      ensures Snapshot() == InputStage(Design(), old(Snapshot()))
    {
      UnfoldInputs();
    }

    /** The gate loop on the unrolling state. */
    method GateLoop()
      requires Partial(Design(), values, 0, Unfolded()) && nAnds == |ands|
      modifies this`values, uaiger`nodes, uaiger`ands, uaiger`hashTable
      ensures Snapshot() == GateStage(Design(), old(Snapshot()))
    {
      UnfoldGates();
    }

    /** The constraint, output and latch loops, and the step recorded. */
    method UnfoldEnds()
      requires CircOk(Design()) && |values| == Size(Design()) && Ranged(values, Size(Design()), |uaiger.nodes|)
      requires nLatches <= tempvalue.Length
      modifies this`values, this`frames, uaiger`nodes, uaiger`constraints, uaiger`outputs, tempvalue
      ensures Snapshot() == StepFinish(Design(), old(Snapshot()))
      ensures tempvalue[..nLatches] == StateLits(Design(), values)
      ensures tempvalue[nLatches..] == old(tempvalue[nLatches..])
    {
      ghost var s := Snapshot();
      UnfoldLists();
      UnfoldLatches();
      assert Snapshot() == StepFinish(Design(), s);
    }

    /** The constraint and output loops, and the step recorded. */
    method UnfoldLists()
      requires CircOk(Design()) && |values| == Size(Design()) && Ranged(values, Size(Design()), |uaiger.nodes|)
      modifies this`frames, uaiger`nodes, uaiger`constraints, uaiger`outputs
      ensures forall k :: 0 <= k < |allbad| ==> 1 <= Abs(MapValue(values, allbad)[k]) < |old(uaiger.nodes)|
      ensures Snapshot() == old(Snapshot()).(nodes := AdoptAll(old(uaiger.nodes), MapValue(values, allbad)),
        constraints := old(uaiger.constraints) + MapValue(values, constraints),
        outputs := old(uaiger.outputs) + MapValue(values, allbad), frames := old(frames) + [values])
    {
      frames := frames + [values];
      UnfoldConstraints();
      UnfoldOutputs();
    }

    // -------------------------------------------------------------------------
    // check and solve_one_frame (BMC.cpp:392-446)
    // -------------------------------------------------------------------------

    /** check: frames 1 .. nframes are unfolded and solved in turn, stopping
        at the first whose last output can be true (1); 0 when none can.
        Every frame unfolded gets one answer, the solver's answer at that
        frame's cone query. bmc_frame_k is written once, when the loop
        ends: inside the loop only the printed progress line reads it. */
    method Check() returns (res: int, ghost found: seq<int>, ghost trace: seq<Unroll>)
      requires Valid()
      modifies this`values, this`frames, this`frameK, this`litHasInsert, this`answers, uaiger, bmcSolver, tempvalue
      ensures Valid() == true && (res == 0 || res == 1)
      ensures RanFrom(Design(), ipasir, old(Snapshot()), trace, found, Snapshot()) == true
      ensures res == 1 ==> (1 <= frameK == |found| <= nframes && found[|found| - 1] == 10 && 10 !in found[..|found| - 1])
      ensures res == 0 ==> (frameK - 1 == |found| == (if nframes < 0 then 0 else nframes) && 10 !in found)
    {
      found := [];
      trace := [Snapshot()];
      res := 0;
      var k := 1;
      while k <= nframes
        invariant Valid() == true && RanFrom(Design(), ipasir, old(Snapshot()), trace, found, Snapshot()) == true
        invariant 1 <= k && (k == 1 || k <= nframes + 1) && res == 0 && |found| == k - 1 && 10 !in found
      {
        var r := NextFrame(old(Snapshot()), trace, found);
        trace := trace + [Snapshot()];
        found := found + [r];
        if r == 10 {
          res := 1;
          break;
        }
        k := k + 1;
      }
      SetFrame(k);
    }

    /** Sets bmc_frame_k; the unrolling is not touched. */
    method SetFrame(k: int)
      requires Valid() == true
      modifies this`frameK
      ensures frameK == k && Valid() == true && Snapshot() == old(Snapshot())
    {
      frameK := k;
    }

    /** One round of check's loop: unfold, then solve_one_frame. The round
        takes the loop from s0 one round further. */
    method NextFrame(ghost s0: Unroll, ghost trace: seq<Unroll>, ghost found: seq<int>) returns (r: int)
      requires Valid() == true && RanFrom(Design(), ipasir, s0, trace, found, Snapshot()) == true
      modifies this`values, this`frames, this`litHasInsert, this`answers, uaiger, bmcSolver, tempvalue
      ensures Valid() == true && RanFrom(Design(), ipasir, s0, trace + [Snapshot()], found + [r], Snapshot()) == true
    {
      ghost var u, d := Snapshot(), Design();
      Unfold();
      ghost var m := Snapshot();
      r := SolveOneFrame();
      RanFromRound(d, ipasir, s0, trace, found, u, m, Snapshot(), r);
    }

    /** solve_one_frame: the cone of the last output is walked and encoded,
        and the solver is asked whether that output can be true; when it
        cannot (20), the output's negation is added as a unit. The answer is
        returned and recorded. */
    method SolveOneFrame() returns (result: int)
      requires Valid() == true && |uaiger.outputs| > 0
      modifies bmcSolver`added, bmcSolver`nv, bmcSolver`pending, bmcSolver`lastAdded, bmcSolver`lastAssumed,
        this`litHasInsert, this`answers
      ensures Valid() == true && Snapshot() == SolveStep(old(Snapshot()), ipasir) && answers == old(answers) + [result]
    {
      SolveStepKeeps(Design(), Snapshot(), ipasir);
      result := SolveLastOutput();
    }

    /** The body of solve_one_frame, over the solver and the encoded
        positions alone. */
    method SolveLastOutput() returns (result: int)
      requires bmcSolver.Valid() && bmcSolver.pending == [] && |uaiger.outputs| > 0
      modifies bmcSolver`added, bmcSolver`nv, bmcSolver`pending, bmcSolver`lastAdded, bmcSolver`lastAssumed,
        this`litHasInsert, this`answers
      ensures bmcSolver.Valid() && bmcSolver.pending == []
      ensures Snapshot() == SolveStep(old(Snapshot()), bmcSolver.oracle) && answers == old(answers) + [result]
    {
      ghost var u := Snapshot();
      var bad := uaiger.outputs[|uaiger.outputs| - 1];
      ghost var w := ConeWalk(uaiger.ands, |uaiger.ands|, {Abs(bad)}, litHasInsert);
      EncodeCone(bad);
      ghost var cnf := bmcSolver.added;
      assert cnf == u.added + w.0 && litHasInsert == w.1;
      result := Ask(bad);
      answers := answers + [result];
      assert Snapshot() == u.(added := bmcSolver.added, encoded := litHasInsert, answers := answers);
    }

    /** The solver call of solve_one_frame: the output is assumed and the
        solver asked; an unsatisfiable answer (20) adds the output's negation
        as a unit. */
    method Ask(bad: int) returns (result: int)
      requires bmcSolver.Valid() && bmcSolver.pending == []
      modifies bmcSolver`added, bmcSolver`nv, bmcSolver`pending, bmcSolver`lastAdded, bmcSolver`lastAssumed
      ensures bmcSolver.Valid() && bmcSolver.pending == []
      ensures result == bmcSolver.oracle.solve(old(bmcSolver.added), [bad])
      ensures bmcSolver.added == old(bmcSolver.added) + (if result == 20 then [-bad, 0] else [])
    {
      bmcSolver.Assume(bad);
      assert bmcSolver.pending == [bad];
      result := bmcSolver.Solve();
      if result == 20 {
        bmcSolver.Add(-bad);
        bmcSolver.Add(0);
      }
    }

    /** The walk loop of solve_one_frame: the positions of the unrolled gate
        list from the last down; one not encoded yet whose output is sought
        gets its three clauses, its output is no longer sought and its
        operands' nodes are. */
    method EncodeCone(bad: int)
      requires bmcSolver.Valid()
      modifies bmcSolver`added, bmcSolver`nv, this`litHasInsert
      ensures bmcSolver.Valid()
      ensures var w := ConeWalk(uaiger.ands, |uaiger.ands|, {Abs(bad)}, old(litHasInsert));
        bmcSolver.added == old(bmcSolver.added) + w.0 && litHasInsert == w.1
    {
      ghost var a0 := bmcSolver.added;
      ghost var w := ConeWalk(uaiger.ands, |uaiger.ands|, {Abs(bad)}, litHasInsert);
      var litSet := {Abs(bad)};
      var i := |uaiger.ands| - 1;
      while i >= 0
        invariant -1 <= i < |uaiger.ands| && bmcSolver.Valid()
        invariant var r := ConeWalk(uaiger.ands, i + 1, litSet, litHasInsert);
          bmcSolver.added + r.0 == a0 + w.0 && r.1 == w.1
      {
        var a := uaiger.ands[i];
        ghost var r := ConeWalk(uaiger.ands, i + 1, litSet, litHasInsert);
        if i in litHasInsert || a.o !in litSet {
          assert r == ConeWalk(uaiger.ands, i, litSet, litHasInsert);
          i := i - 1;
          continue;
        }
        assert r == var r' := ConeWalk(uaiger.ands, i, litSet - {a.o} + Operands(a), litHasInsert + {i});
          (GateClauses(a) + r'.0, r'.1);
        ghost var sought, added := litSet - {a.o} + Operands(a), bmcSolver.added;
        litSet := litSet - {a.o};
        litHasInsert := litHasInsert + {i};
        litSet := litSet + {Abs(a.i1)};
        litSet := litSet + {Abs(a.i2)};
        AddAll(bmcSolver, GateClauses(a));
        assert litSet == sought;
        assert bmcSolver.added + ConeWalk(uaiger.ands, i, litSet, litHasInsert).0 == added + r.0;
        i := i - 1;
      }
    }
  }
}
