/**
 * The DIMACS view of a loaded circuit, shared by the PDR and BMC engines
 * (`translate_to_dimacs` in PDR.cpp and BMC.cpp), and the backward
 * cone-of-influence walk both engines use to emit Tseitin clauses.
 *
 * Variable numbering: 0 is NULL, 1 is the constant (true as a literal,
 * false as -1), inputs are 2 .. I+1, latches I+2 .. I+L+1 and gates
 * I+L+2 .. I+L+A+1.
 */
module Circuit {
  import opened Literals
  import opened Wrappers
  import opened Aiger
  import opened PdrTypes

  /** The numbering fits an `int`, so the engines' `int` counters equal the
      header counts and no index computation wraps around. */
  predicate Fits(a: Aiger)
  {
    2 * (a.numInputs + a.numLatches + a.numAnds + 2) < TWO_31 &&
    a.numBads < TWO_31 && a.numOutputs < TWO_31
  }

  /** What the engines check of the numbering before translating (the asserts
      of `translate_to_dimacs`): the implicit numbering of a binary file. */
  predicate Translatable(a: Aiger)
  {
    ConsistentCounts(a) && Fits(a) && BinaryNumbered(a)
  }

  /** `aiger_to_dimacs` applied to an `unsigned` literal converted to `int`. */
  function Dimacs(lit: UInt32): int
  {
    AigerToDimacs(ToInt32(lit))
  }

  function FirstGateVar(a: Aiger): int
  {
    a.numInputs + a.numLatches + 2
  }

  /** The gate list: gate k outputs variable I + L + k + 2. */
  function DimacsAnds(a: Aiger): (r: seq<And>)
    ensures |r| == |a.ands|
  {
    seq(|a.ands|, k requires 0 <= k < |a.ands| =>
      And(FirstGateVar(a) + k, Dimacs(a.ands[k].i1), Dimacs(a.ands[k].i2)))
  }

  /** Under the binary numbering the DIMACS gate output is the AIGER output
      literal read through `aiger_to_dimacs`, and operands below 2^31 convert
      back to themselves. */
  lemma DimacsAndsAgree(a: Aiger)
    requires Translatable(a)
    ensures forall k :: 0 <= k < |a.ands| ==> DimacsAnds(a)[k].o == Dimacs(a.ands[k].o)
    ensures forall k :: 0 <= k < |a.ands| && a.ands[k].i1 < TWO_31 ==>
      DimacsToAiger(DimacsAnds(a)[k].i1) == a.ands[k].i1
    ensures forall k :: 0 <= k < |a.ands| && a.ands[k].i2 < TWO_31 ==>
      DimacsToAiger(DimacsAnds(a)[k].i2) == a.ands[k].i2
  {
    forall k | 0 <= k < |a.ands|
      ensures DimacsAnds(a)[k].o == Dimacs(a.ands[k].o)
      ensures a.ands[k].i1 < TWO_31 ==> DimacsToAiger(DimacsAnds(a)[k].i1) == a.ands[k].i1
      ensures a.ands[k].i2 < TWO_31 ==> DimacsToAiger(DimacsAnds(a)[k].i2) == a.ands[k].i2
    {
      assert a.ands[k].o == 2 * (a.numInputs + a.numLatches + k + 1);
      if a.ands[k].i1 < TWO_31 { DimacsOfUnsigned(a.ands[k].i1); }
      if a.ands[k].i2 < TWO_31 { DimacsOfUnsigned(a.ands[k].i2); }
    }
  }

  /** An `unsigned` literal below 2^31 converts to DIMACS and back to itself. */
  lemma DimacsOfUnsigned(lit: UInt32)
    requires lit < TWO_31
    ensures DimacsToAiger(Dimacs(lit)) == lit
  {
    AigerRoundTrip(lit);
  }

  /** The next-state literal of every latch. */
  function Nexts(a: Aiger): (r: seq<int>)
    ensures |r| == |a.latches|
  {
    seq(|a.latches|, k requires 0 <= k < |a.latches| => Dimacs(a.latches[k].next))
  }

  /** A list of AIGER literals in DIMACS form (constraints, bads, outputs). */
  function MapDimacs(s: seq<UInt32>): (r: seq<int>)
    ensures |r| == |s| && forall k :: 0 <= k < |s| ==> r[k] == Dimacs(s[k])
  {
    seq(|s|, k requires 0 <= k < |s| => Dimacs(s[k]))
  }

  /** The initial-state cube: latch k (variable I + k + 2) reset to 0 gives the
      negative literal, reset to 1 the positive one, anything else nothing. */
  function InitState(latches: seq<AigerLatch>, numInputs: int): seq<int>
  {
    if latches == [] then []
    else
      var k := |latches| - 1;
      var l := numInputs + k + 2;
      InitState(latches[..k], numInputs) +
        (if latches[k].defaultVal == 0 then [-l] else if latches[k].defaultVal == 1 then [l] else [])
  }

  /** Which literal latch k contributes to the initial state, if any. */
  function InitLit(latches: seq<AigerLatch>, numInputs: int, k: nat): Option<int>
    requires k < |latches|
  {
    if latches[k].defaultVal == 0 then Some(-(numInputs + k + 2))
    else if latches[k].defaultVal == 1 then Some(numInputs + k + 2)
    else None
  }

  /** The initial-state cube holds exactly the literals the resets ask for, one
      per latch at most, ordered by variable. */
  lemma {:induction false} InitStateMeaning(latches: seq<AigerLatch>, numInputs: nat)
    ensures forall x :: x in InitState(latches, numInputs) <==>
      exists k :: 0 <= k < |latches| && InitLit(latches, numInputs, k) == Some(x)
    ensures LitSorted(InitState(latches, numInputs))
    ensures forall i :: 0 <= i < |InitState(latches, numInputs)| ==>
      numInputs + 2 <= Abs(InitState(latches, numInputs)[i]) < numInputs + 2 + |latches|
  {
    if latches != [] {
      var k := |latches| - 1;
      var p := latches[..k];
      InitStateMeaning(p, numInputs);
      assert forall j :: 0 <= j < k ==> InitLit(latches, numInputs, j) == InitLit(p, numInputs, j);
      var r := InitState(latches, numInputs);
      var q := InitState(p, numInputs);
      assert r == q + (if latches[k].defaultVal == 0 then [-(numInputs + k + 2)]
                       else if latches[k].defaultVal == 1 then [numInputs + k + 2] else []);
      forall x | x in r ensures exists j :: 0 <= j < |latches| && InitLit(latches, numInputs, j) == Some(x) {
        if x !in q {
          assert InitLit(latches, numInputs, k) == Some(x);
        }
      }
    }
  }

  /** The list the checked property is read from: the bads when there are more
      than `index` of them, else the outputs; both comparisons are `unsigned`. */
  function BadList(a: Aiger, index: int): Option<seq<UInt32>>
  {
    if a.numBads > ToUInt32(index) then Some(a.bads)
    else if a.numOutputs > ToUInt32(index) then Some(a.outputs)
    else None
  }

  /** The property is bad `index` if there is one, else output `index`; with
      neither, translation fails. A negative index never selects anything. */
  lemma BadListChoice(a: Aiger, index: Int32)
    requires ConsistentCounts(a) && Fits(a)
    ensures BadList(a, index).Some? <==> 0 <= index < |a.bads| || 0 <= index < |a.outputs|
    ensures BadList(a, index).Some? ==>
      0 <= index < |BadList(a, index).value| &&
      BadList(a, index).value == if index < |a.bads| then a.bads else a.outputs
  {
  }

  /** The variable table before priming: NULL, False, then one named variable
      per input, latch and gate, each stored at its own DIMACS number. */
  function BaseVariables(a: Aiger): (r: seq<Variable>)
    ensures |r| == 2 + a.numInputs + a.numLatches + a.numAnds
  {
    [Variable(0, "NULL"), Variable(1, "False")] +
    seq(a.numInputs, k requires 0 <= k < a.numInputs => NamedVariable(2 + k, 'i', k, false)) +
    seq(a.numLatches, k requires 0 <= k < a.numLatches => NamedVariable(2 + a.numInputs + k, 'l', k, false)) +
    seq(a.numAnds, k requires 0 <= k < a.numAnds => NamedVariable(FirstGateVar(a) + k, 'a', k, false))
  }

  /** The primed inputs and latches, numbered from `first`. */
  function PrimedVariables(a: Aiger, first: int): (r: seq<Variable>)
    ensures |r| == a.numInputs + a.numLatches
  {
    seq(a.numInputs, k requires 0 <= k < a.numInputs => NamedVariable(first + k, 'i', k, true)) +
    seq(a.numLatches, k requires 0 <= k < a.numLatches => NamedVariable(first + a.numInputs + k, 'l', k, true))
  }

  /** Entry v of the variable table before priming. */
  lemma BaseVariablesEntry(a: Aiger, v: int)
    requires 0 <= v < |BaseVariables(a)|
    ensures BaseVariables(a)[v] ==
      if v == 0 then Variable(0, "NULL")
      else if v == 1 then Variable(1, "False")
      else if v < 2 + a.numInputs then NamedVariable(v, 'i', v - 2, false)
      else if v < 2 + a.numInputs + a.numLatches then NamedVariable(v, 'l', v - 2 - a.numInputs, false)
      else NamedVariable(v, 'a', v - FirstGateVar(a), false)
  {
    var gates := seq(a.numAnds, k requires 0 <= k < a.numAnds => NamedVariable(FirstGateVar(a) + k, 'a', k, false));
    assert BaseVariables(a) == [Variable(0, "NULL"), Variable(1, "False")] +
      seq(a.numInputs, k requires 0 <= k < a.numInputs => NamedVariable(2 + k, 'i', k, false)) +
      seq(a.numLatches, k requires 0 <= k < a.numLatches => NamedVariable(2 + a.numInputs + k, 'l', k, false)) +
      gates;
    if v >= 2 + a.numInputs + a.numLatches {
      assert gates[v - FirstGateVar(a)] == NamedVariable(v, 'a', v - FirstGateVar(a), false);
    }
  }

  /** Entry k of the primed inputs and latches. */
  lemma PrimedVariablesEntry(a: Aiger, first: int, k: int)
    requires 0 <= k < a.numInputs + a.numLatches
    ensures PrimedVariables(a, first)[k] ==
      if k < a.numInputs then NamedVariable(first + k, 'i', k, true)
      else NamedVariable(first + k, 'l', k - a.numInputs, true)
  {
  }

  /** Every variable of the table sits at the index of its DIMACS number. */
  lemma VariablesIndexed(a: Aiger)
    ensures forall v :: 0 <= v < |BaseVariables(a) + PrimedVariables(a, |BaseVariables(a)|)| ==>
      (BaseVariables(a) + PrimedVariables(a, |BaseVariables(a)|))[v].dimacsVar == v
  {
    var b := BaseVariables(a);
    var t := b + PrimedVariables(a, |b|);
    var i: int, l: int := a.numInputs, a.numLatches;
    forall v | 0 <= v < |t| ensures t[v].dimacsVar == v {
      if v < 2 {
        assert t[v] == [Variable(0, "NULL"), Variable(1, "False")][v];
        assert t[v].dimacsVar == v;
      } else if v < 2 + i {
        assert t[v] == NamedVariable(v, 'i', v - 2, false);
        assert t[v].dimacsVar == v;
      } else if v < 2 + i + l {
        assert t[v] == NamedVariable(v, 'l', v - 2 - i, false);
        assert t[v].dimacsVar == v;
      } else if v < |b| {
        var gates := seq(a.numAnds, k requires 0 <= k < a.numAnds => NamedVariable(FirstGateVar(a) + k, 'a', k, false));
        assert b == [Variable(0, "NULL"), Variable(1, "False")] +
          seq(a.numInputs, k requires 0 <= k < a.numInputs => NamedVariable(2 + k, 'i', k, false)) +
          seq(a.numLatches, k requires 0 <= k < a.numLatches => NamedVariable(2 + a.numInputs + k, 'l', k, false)) +
          gates;
        var k := v - 2 - i - l;
        assert FirstGateVar(a) + k == v;
        assert gates[k] == NamedVariable(FirstGateVar(a) + k, 'a', k, false);
        assert t[v] == gates[k];
        assert t[v].dimacsVar == v;
      } else if v < |b| + i {
        assert t[v] == NamedVariable(v, 'i', v - |b|, true);
        assert t[v].dimacsVar == v;
      } else {
        assert t[v] == NamedVariable(v, 'l', v - |b| - i, true);
        assert t[v].dimacsVar == v;
      }
    }
  }

  // ---------------------------------------------------------------------------
  // The backward cone walk (encode_bad_state, encode_init_condition,
  // encode_translation, solve_one_frame)
  // ---------------------------------------------------------------------------

  /** The Tseitin clauses of o = i1 AND i2, as a 0-terminated stream:
      (-o | i1), (-o | i2), (o | -i1 | -i2). */
  function GateClauses(g: And): seq<int>
  {
    [-g.o, g.i1, 0, -g.o, g.i2, 0, g.o, -g.i1, -g.i2, 0]
  }

  /** The gates operands of which the walk follows. */
  function Operands(g: And): set<int>
  {
    {Abs(g.i1), Abs(g.i2)}
  }

  /** The walk over ands[..n], last gate first: a gate whose output is in the
      set emits its clauses and adds its operand variables to the set. */
  function Walk(ands: seq<And>, n: nat, lits: set<int>): seq<int>
    requires n <= |ands|
  {
    if n == 0 then []
    else if ands[n - 1].o in lits then
      GateClauses(ands[n - 1]) + Walk(ands, n - 1, lits + Operands(ands[n - 1]))
    else Walk(ands, n - 1, lits)
  }

  /** The backward cone, declaratively: gate j is in the cone of `roots` when its
      output is a root or an operand of a later gate of the cone. */
  ghost predicate InCone(ands: seq<And>, roots: set<int>, j: nat)
    requires j < |ands|
    decreases |ands| - j
  {
    ands[j].o in roots ||
    exists k :: j < k < |ands| && InCone(ands, roots, k) && ands[j].o in Operands(ands[k])
  }

  /** The clauses of the cone gates among ands[..n], last gate first. */
  ghost function ConeStream(ands: seq<And>, roots: set<int>, n: nat): seq<int>
    requires n <= |ands|
  {
    if n == 0 then []
    else (if InCone(ands, roots, n - 1) then GateClauses(ands[n - 1]) else []) + ConeStream(ands, roots, n - 1)
  }

  /** The set the walk holds when it reaches ands[n - 1]: the roots and the
      operands of the cone gates from n on. */
  ghost function LitsAbove(ands: seq<And>, roots: set<int>, n: nat): set<int>
    requires n <= |ands|
    decreases |ands| - n
  {
    if n == |ands| then roots
    else LitsAbove(ands, roots, n + 1) + (if InCone(ands, roots, n) then Operands(ands[n]) else {})
  }

  lemma {:induction false} LitsAboveMeaning(ands: seq<And>, roots: set<int>, n: nat, x: int)
    requires n <= |ands|
    decreases |ands| - n
    ensures x in LitsAbove(ands, roots, n) <==>
      x in roots || exists k :: n <= k < |ands| && InCone(ands, roots, k) && x in Operands(ands[k])
  {
    if n < |ands| {
      LitsAboveMeaning(ands, roots, n + 1, x);
    }
  }

  /** The walk visits a gate with its output in the set exactly when the gate is
      in the cone. */
  lemma WalkTestIsCone(ands: seq<And>, roots: set<int>, j: nat)
    requires j < |ands|
    ensures ands[j].o in LitsAbove(ands, roots, j + 1) <==> InCone(ands, roots, j)
  {
    LitsAboveMeaning(ands, roots, j + 1, ands[j].o);
  }

  /** The walk emits exactly the clauses of the backward cone of its roots,
      last gate first. */
  lemma {:induction false} WalkIsCone(ands: seq<And>, roots: set<int>, n: nat)
    requires n <= |ands|
    ensures Walk(ands, n, LitsAbove(ands, roots, n)) == ConeStream(ands, roots, n)
  {
    if n > 0 {
      WalkTestIsCone(ands, roots, n - 1);
      WalkIsCone(ands, roots, n - 1);
      var above := LitsAbove(ands, roots, n);
      if InCone(ands, roots, n - 1) {
        assert LitsAbove(ands, roots, n - 1) == above + Operands(ands[n - 1]);
        assert Walk(ands, n, above) == GateClauses(ands[n - 1]) + Walk(ands, n - 1, LitsAbove(ands, roots, n - 1));
      } else {
        assert LitsAbove(ands, roots, n - 1) == above;
        assert ConeStream(ands, roots, n) == [] + ConeStream(ands, roots, n - 1);
        assert Walk(ands, n, above) == Walk(ands, n - 1, LitsAbove(ands, roots, n - 1));
      }
    }
  }

  /** The walk started on the roots encodes the cone of the roots. */
  lemma WalkFromRoots(ands: seq<And>, roots: set<int>)
    ensures Walk(ands, |ands|, roots) == ConeStream(ands, roots, |ands|)
  {
    WalkIsCone(ands, roots, |ands|);
  }

  /** The variables of a literal list, as the walks start from them. */
  function AbsSet(s: seq<int>): (r: set<int>)
    ensures forall x :: x in r <==> exists k :: 0 <= k < |s| && x == Abs(s[k])
  {
    if s == [] then {} else AbsSet(s[..|s| - 1]) + {Abs(s[|s| - 1])}
  }

  /** Operands come before their gate: each operand variable is below the
      gate's output, and outputs are numbered consecutively. */
  predicate Topological(ands: seq<And>, first: int)
  {
    forall j :: 0 <= j < |ands| ==>
      ands[j].o == first + j && Abs(ands[j].i1) < first + j && Abs(ands[j].i2) < first + j
  }

  /** Every gate operand, next-state literal and constraint names a variable
      of the circuit; both engines index their tables with these unchecked. */
  predicate LiteralsInRange(a: Aiger)
  {
    var bound := 2 * (a.numInputs + a.numLatches + a.numAnds + 1);
    (forall k :: 0 <= k < |a.ands| ==> a.ands[k].i1 < bound && a.ands[k].i2 < bound) &&
    (forall k :: 0 <= k < |a.latches| ==> a.latches[k].next < bound) &&
    (forall k :: 0 <= k < |a.constraints| ==> a.constraints[k] < bound)
  }

  /** A literal below the bound names one of the variables 1 .. I + L + A + 1. */
  lemma DimacsOfBoundedLiteral(a: Aiger, lit: UInt32)
    requires Fits(a) && lit < 2 * (a.numInputs + a.numLatches + a.numAnds + 1)
    ensures 1 <= Abs(Dimacs(lit)) < |BaseVariables(a)|
  {
  }

  /** In range, every DIMACS literal of the gates, next states and constraints
      is nonzero and has an entry in the variable table. */
  lemma DimacsInRange(a: Aiger)
    requires ConsistentCounts(a) && Fits(a) && LiteralsInRange(a)
    ensures forall k :: 0 <= k < |a.ands| ==>
      1 <= Abs(DimacsAnds(a)[k].i1) < |BaseVariables(a)| && 1 <= Abs(DimacsAnds(a)[k].i2) < |BaseVariables(a)| &&
      2 <= DimacsAnds(a)[k].o < |BaseVariables(a)|
    ensures forall k :: 0 <= k < |a.latches| ==> 1 <= Abs(Nexts(a)[k]) < |BaseVariables(a)|
    ensures forall k :: 0 <= k < |a.constraints| ==> 1 <= Abs(MapDimacs(a.constraints)[k]) < |BaseVariables(a)|
  {
    forall k | 0 <= k < |a.ands|
      ensures 1 <= Abs(DimacsAnds(a)[k].i1) < |BaseVariables(a)| && 1 <= Abs(DimacsAnds(a)[k].i2) < |BaseVariables(a)|
    {
      DimacsOfBoundedLiteral(a, a.ands[k].i1);
      DimacsOfBoundedLiteral(a, a.ands[k].i2);
    }
    forall k | 0 <= k < |a.latches| ensures 1 <= Abs(Nexts(a)[k]) < |BaseVariables(a)| {
      DimacsOfBoundedLiteral(a, a.latches[k].next);
    }
    forall k | 0 <= k < |a.constraints| ensures 1 <= Abs(MapDimacs(a.constraints)[k]) < |BaseVariables(a)| {
      DimacsOfBoundedLiteral(a, a.constraints[k]);
    }
  }

  // ---------------------------------------------------------------------------
  // Two places where the source's code and its evident intent part
  // ---------------------------------------------------------------------------

  /** The walk of PDR's `encode_init_condition` as written: the operands enter
      the set with their sign, while gate outputs are looked up as positive
      variables. */
  function WalkSigned(ands: seq<And>, n: nat, lits: set<int>): seq<int>
    requires n <= |ands|
  {
    if n == 0 then []
    else if ands[n - 1].o in lits then
      GateClauses(ands[n - 1]) + WalkSigned(ands, n - 1, lits + {ands[n - 1].i1, ands[n - 1].i2})
    else WalkSigned(ands, n - 1, lits)
  }

  /** A constraint 4 = 2 AND NOT 3 over gate 3 = 2 AND 2: gate 3 is in the cone
      of the constraint, and the walk by variables encodes it, but the signed
      walk holds -3 and skips it, leaving gate 3 unconstrained. */
  lemma SignedWalkSkipsNegatedFanin()
    ensures var ands := [And(3, 2, 2), And(4, -3, 2)];
      Topological(ands, 3) && InCone(ands, {4}, 0) &&
      WalkSigned(ands, 2, {4}) == GateClauses(ands[1]) &&
      Walk(ands, 2, {4}) == GateClauses(ands[1]) + GateClauses(ands[0])
  {
    var ands := [And(3, 2, 2), And(4, -3, 2)];
    assert InCone(ands, {4}, 1);
    assert ands[0].o in Operands(ands[1]);
    assert WalkSigned(ands, 1, {4, -3, 2}) == WalkSigned(ands, 0, {4, -3, 2});
    assert Walk(ands, 1, {4, 3, 2}) == GateClauses(ands[0]) + Walk(ands, 0, {4, 3, 2, 2});
  }

  /** The bound `translate_to_dimacs` puts on the bad literal, as written:
      |bad| may equal the size of the table. */
  predicate BadInTableAsWritten(a: Aiger, bad: int)
  {
    Abs(bad) <= |BaseVariables(a)|
  }

  /** The bound it evidently means: bad names an entry of the table, and not
      the NULL entry 0 (which `prime_var` refuses). */
  predicate BadInTable(a: Aiger, bad: int)
  {
    1 <= Abs(bad) < |BaseVariables(a)|
  }

  /** Under the intended bound the bad literal names a variable of the
      unprimed table, stored at its own number, and no primed copy. */
  lemma BadInTableIsUnprimed(a: Aiger, bad: int)
    requires BadInTable(a, bad)
    ensures BaseVariables(a)[Abs(bad)].dimacsVar == Abs(bad)
    ensures forall k :: 0 <= k < a.numInputs + a.numLatches ==>
      PrimedVariables(a, |BaseVariables(a)|)[k].dimacsVar != Abs(bad)
  {
    VariablesIndexed(a);
    var all := BaseVariables(a) + PrimedVariables(a, |BaseVariables(a)|);
    assert all[Abs(bad)] == BaseVariables(a)[Abs(bad)];
    forall k | 0 <= k < a.numInputs + a.numLatches
      ensures PrimedVariables(a, |BaseVariables(a)|)[k].dimacsVar != Abs(bad)
    {
      assert all[|BaseVariables(a)| + k] == PrimedVariables(a, |BaseVariables(a)|)[k];
    }
  }

  /** One input, no latch or gate, bad literal 4: the written bound lets
      variable 3 through, which is no circuit variable but the number the
      primed copy of input 0 receives next. */
  lemma BadBoundAdmitsPrimedInput()
    ensures var a := Aiger(1, 1, 0, 0, 0, 1, 0, 0, 0, [2], [], [4], [], [], [], map[], []);
      ConsistentCounts(a) && BinaryNumbered(a) && BadList(a, 0) == Some([4]) &&
      BadInTableAsWritten(a, Dimacs(4)) && !BadInTable(a, Dimacs(4)) &&
      Dimacs(4) == |BaseVariables(a)| && PrimedVariables(a, |BaseVariables(a)|)[0].dimacsVar == Dimacs(4)
  {
    var a := Aiger(1, 1, 0, 0, 0, 1, 0, 0, 0, [2], [], [4], [], [], [], map[], []);
    var n := |BaseVariables(a)|;
    assert PrimedVariables(a, n)[0] == NamedVariable(n, 'i', 0, true);
  }
}
