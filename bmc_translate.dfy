/**
 * translate_to_dimacs (BMC.cpp:108-194) and the reset half of initialize
 * (BMC.cpp:349-389): what the BMC engine loads from an AIGER circuit, as a
 * function of the circuit, and the literals its latches start from.
 */
module BmcTranslate {
  import opened Literals
  import opened Wrappers
  import opened Aiger
  import opened PdrTypes
  import opened Circuit
  import PdrEngine
  import PdrSpec
  import opened BmcSpec

  /** The size of tempvalue (BMC.hpp:135). */
  const TEMP_VALUES := 999999

  // ---------------------------------------------------------------------------
  // translate_to_dimacs (BMC.cpp:108-194)
  // ---------------------------------------------------------------------------

  /** Every bad (or output) of the chosen list is below the literal bound:
      unfold reads the step's value of each of them unchecked. */
  predicate OutputsInRange(a: Aiger, index: int)
  {
    match BadList(a, index)
    case None => true
    case Some(bs) => forall k :: 0 <= k < |bs| ==> bs[k] < 2 * (a.numInputs + a.numLatches + a.numAnds + 1)
  }

  /** Gate operands come before their gate, as the positive deltas of the
      binary format say; the reader does not check it, and Aig_And's
      recursion relies on it. */
  predicate OperandsBelow(a: Aiger)
  {
    forall k :: 0 <= k < |a.ands| ==> a.ands[k].i1 < a.ands[k].o && a.ands[k].i2 < a.ands[k].o
  }

  /** What the engine assumes of the circuit it unrolls. */
  predicate Unrollable(a: Aiger, index: Int32)
  {
    ConsistentCounts(a) && Fits(a) && LiteralsInRange(a) && OutputsInRange(a, index) && OperandsBelow(a) &&
    a.numLatches <= TEMP_VALUES
  }

  /** translate_to_dimacs gets through its asserts: the binary numbering,
      a bad or output with the index, and the bound on it as written. */
  predicate TranslationDefined(a: Aiger, index: Int32)
    requires ConsistentCounts(a) && Fits(a)
  {
    BinaryNumbered(a) && BadList(a, index).Some? && BadInTableAsWritten(a, PdrEngine.BadLit(a, index))
  }

  /** The circuit the engine holds after translate_to_dimacs: every bad of
      the list the property is read from is kept. */
  function Translation(a: Aiger, index: Int32): Circ
    requires ConsistentCounts(a) && BadList(a, index).Some?
  {
    Circ(a.numInputs, a.numLatches, DimacsAnds(a), Nexts(a), MapDimacs(a.constraints),
         MapDimacs(BadList(a, index).value))
  }

  /** The number of DIMACS variables of a circuit: NULL, the constant, the
      inputs, the latches and the gates. */
  function VarCount(a: Aiger): nat
  {
    2 + a.numInputs + a.numLatches + a.numAnds
  }

  /** The translation of a circuit the engine can unroll is a well-formed
      circuit: gates in order over earlier variables, and every literal
      naming a variable. */
  lemma TranslationOk(a: Aiger, index: Int32)
    requires Unrollable(a, index) && TranslationDefined(a, index)
    ensures CircOk(Translation(a, index)) && Size(Translation(a, index)) == VarCount(a)
  {
    var c := Translation(a, index);
    DimacsInRange(a);
    forall j | 0 <= j < |c.ands| ensures Abs(c.ands[j].i1) < First(c) + j && Abs(c.ands[j].i2) < First(c) + j {
      assert a.ands[j].o == 2 * (a.numInputs + a.numLatches + j + 1);
    }
    var bs := BadList(a, index).value;
    forall k | 0 <= k < |bs| ensures 1 <= Abs(c.allbad[k]) < Size(c) {
      DimacsOfBoundedLiteral(a, bs[k]);
    }
  }

  /** A list of AIGER literals in DIMACS form, one at a time. */
  method LoadLits(lits: seq<UInt32>) returns (r: seq<int>)
    ensures r == MapDimacs(lits)
  {
    r := [];
    var i := 0;
    while i < |lits|
      invariant 0 <= i <= |lits| && r == MapDimacs(lits[..i])
    {
      r := r + [AigerToDimacs(ToInt32(lits[i]))];
      i := i + 1;
    }
    assert lits[..i] == lits;
  }

  // ---------------------------------------------------------------------------
  // initialize (BMC.cpp:349-389): the latches' literals of frame 0
  // ---------------------------------------------------------------------------

  /** The reset loop over values: a latch reset to 1 gets -1 (true), one
      reset to 0 gets 1 (false). */
  function Resets(values: seq<int>, init: seq<int>): (r: seq<int>)
    requires forall k :: 0 <= k < |init| ==> Abs(init[k]) < |values|
    ensures |r| == |values|
  {
    if init == [] then values
    else
      var p := Resets(values, init[..|init| - 1]);
      var l := init[|init| - 1];
      if l > 0 then p[Abs(l) := -1] else if l < 0 then p[Abs(l) := 1] else p
  }

  /** The unrolled literal the reset of latch variable v (or of no latch)
      leaves: 1 for reset 0, -1 for reset 1, its old one otherwise. */
  function ResetValue(values: seq<int>, latches: seq<AigerLatch>, nI: nat, v: int): int
    requires 0 <= v < |values|
  {
    if nI + 2 <= v < nI + 2 + |latches| then
      var d := latches[v - nI - 2].defaultVal;
      if d == 0 then 1 else if d == 1 then -1 else values[v]
    else values[v]
  }

  /** Applying the initial cube gives each latch the literal its reset asks
      for and changes nothing else. */
  lemma {:induction false} ResetsOfInitState(values: seq<int>, latches: seq<AigerLatch>, nI: nat)
    requires nI + 2 + |latches| <= |values|
    ensures forall k :: 0 <= k < |InitState(latches, nI)| ==> Abs(InitState(latches, nI)[k]) < |values|
    ensures forall v :: 0 <= v < |values| ==> Resets(values, InitState(latches, nI))[v] == ResetValue(values, latches, nI, v)
  {
    InitStateMeaning(latches, nI);
    if latches != [] {
      var k := |latches| - 1;
      var p := latches[..k];
      ResetsOfInitState(values, p, nI);
      var q := InitState(p, nI);
      var init := InitState(latches, nI);
      var d := latches[k].defaultVal;
      if d == 0 || d == 1 {
        assert init[..|q|] == q;
        assert Resets(values, init) == Resets(values, q)[nI + 2 + k := if d == 0 then 1 else -1];
      } else {
        assert init == q;
      }
      forall v | 0 <= v < |values| ensures Resets(values, init)[v] == ResetValue(values, latches, nI, v) {
        if v != nI + 2 + k {
          assert ResetValue(values, latches, nI, v) == ResetValue(values, p, nI, v);
        }
      }
    }
  }

  /** The number of latches with no reset value (0 or 1). */
  function Unset(latches: seq<AigerLatch>): nat
  {
    if latches == [] then 0
    else Unset(latches[..|latches| - 1]) + (if latches[|latches| - 1].defaultVal in {0, 1} then 0 else 1)
  }

  /** The literal of latch k in frame 0: false (1) for reset 0, true (-1)
      for reset 1, and otherwise a fresh input node, numbered from 2 in
      latch order. */
  function InitialLit(latches: seq<AigerLatch>, k: nat): int
    requires k < |latches|
  {
    var d := latches[k].defaultVal;
    if d == 0 then 1 else if d == 1 then -1 else 2 + Unset(latches[..k])
  }

  function InitialLits(latches: seq<AigerLatch>): (r: seq<int>)
    ensures |r| == |latches|
  {
    seq(|latches|, k requires 0 <= k < |latches| => InitialLit(latches, k))
  }

  lemma UnsetStep(latches: seq<AigerLatch>, k: nat)
    requires k < |latches|
    ensures Unset(latches[..k + 1]) == Unset(latches[..k]) + (if latches[k].defaultVal in {0, 1} then 0 else 1)
  {
    assert latches[..k + 1][..k] == latches[..k];
  }

  /** Frame 0 starts in the circuit's reset state: under any run, a latch
      reset to 0 is false and one reset to 1 true, and the latches with no
      reset value get distinct input nodes, so they start free. */
  lemma {:induction false} InitialLitsMeaning(sigma: int -> bool, latches: seq<AigerLatch>)
    requires !sigma(1)
    ensures forall k :: 0 <= k < |latches| && latches[k].defaultVal == 0 ==> !Lit(sigma, InitialLits(latches)[k])
    ensures forall k :: 0 <= k < |latches| && latches[k].defaultVal == 1 ==> Lit(sigma, InitialLits(latches)[k])
    ensures forall j, k :: 0 <= j < k < |latches| && latches[j].defaultVal !in {0, 1} && latches[k].defaultVal !in {0, 1} ==>
      2 <= InitialLits(latches)[j] < InitialLits(latches)[k]
  {
    forall j, k | 0 <= j < k < |latches| && latches[j].defaultVal !in {0, 1} && latches[k].defaultVal !in {0, 1}
      ensures 2 <= InitialLits(latches)[j] < InitialLits(latches)[k]
    {
      UnsetGrows(latches, j, k);
    }
  }

  lemma {:induction false} UnsetGrows(latches: seq<AigerLatch>, j: nat, k: nat)
    requires j < k <= |latches| && latches[j].defaultVal !in {0, 1}
    ensures Unset(latches[..j]) < Unset(latches[..k])
    decreases k
  {
    UnsetStep(latches, k - 1);
    if j < k - 1 {
      UnsetGrows(latches, j, k - 1);
    }
  }

  /** What translate_to_dimacs loads: the counts, the variable table of
      NULL, False, the inputs, latches and gates, the gate list, the next
      states, the initial cube, the constraints, the property and every bad
      of the list it is read from. */
  datatype Loaded = Loaded(nI: nat, nL: nat, nA: nat, vars: seq<Variable>, gates: seq<And>, nx: seq<int>,
                           initial: seq<int>, cs: seq<int>, b: int, bs: seq<int>)

  /** What translate_to_dimacs loads from circuit `a` with property `index`. */
  function Loading(a: Aiger, index: Int32): Loaded
    requires ConsistentCounts(a) && Fits(a) && BadList(a, index).Some?
  {
    Loaded(a.numInputs, a.numLatches, a.numAnds, BaseVariables(a), DimacsAnds(a), Nexts(a),
           InitState(a.latches, a.numInputs), MapDimacs(a.constraints), PdrEngine.BadLit(a, index),
           MapDimacs(BadList(a, index).value))
  }

  /** The loops of translate_to_dimacs in order, stopping at the first
      failed assert: it succeeds exactly when the numbering is the binary
      one and a bad or output with the index exists within the bound as
      written. */
  method LoadAll(a: Aiger, index: Int32)
    returns (ok: bool, t: Loaded)
    requires ConsistentCounts(a) && Fits(a)
    ensures ok <==> TranslationDefined(a, index)
    ensures ok ==> t == Loading(a, index)
  {
    var okInputs, vars1 := PdrEngine.LoadInputs(a);
    if !okInputs {
      return false, Loaded(0, 0, 0, [], [], [], [], [], 0, []);
    }
    var okLatches, vars2 := PdrEngine.LoadLatches(a, vars1);
    if !okLatches {
      return false, Loaded(0, 0, 0, [], [], [], [], [], 0, []);
    }
    var okAnds, vars3, gates3 := PdrEngine.LoadAnds(a, vars2);
    if !okAnds {
      return false, Loaded(0, 0, 0, [], [], [], [], [], 0, []);
    }
    var nx, initial := PdrEngine.LoadLatchStates(a);
    var cs := LoadLits(a.constraints);
    var sb := PdrEngine.SelectBad(a, index);
    if sb.None? {
      return false, Loaded(0, 0, 0, [], [], [], [], [], 0, []);
    }
    BadListChoice(a, index);
    var bs := LoadLits(if index < |a.bads| then a.bads else a.outputs);
    if !(Abs(sb.value) <= |vars3|) {
      return false, Loaded(0, 0, 0, [], [], [], [], [], 0, []);
    }
    ok, t := true, Loaded(a.numInputs, a.numLatches, a.numAnds, vars3, gates3, nx, initial, cs, sb.value, bs);
  }

  /** The engine's fields t are the translation of circuit a with bad or
      output index, of a circuit the engine can unroll. */
  predicate Translates(a: Aiger, index: Int32, t: Loaded)
  {
    Unrollable(a, index) && TranslationDefined(a, index) && t == Loading(a, index)
  }
}
