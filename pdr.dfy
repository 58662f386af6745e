/**
 * The IC3/PDR engine of PDR.cpp. The class fields are the engine's members:
 * the DIMACS view of the circuit, the primed-variable table, the solvers,
 * the frames with their cube sets, the obligation queue and the member
 * `core`. Every SAT answer comes from the oracles of module SatSolver; the
 * floating-point literal-activity order is the permutation `order`, which
 * may change whenever the scores change (counted by `epoch`).
 */
module PdrEngine {
  import opened Literals
  import opened Wrappers
  import opened Aiger
  import opened SatSolver
  import opened PdrTypes
  import opened Circuit
  import opened PdrSpec

  const OPTION_CTG_TRIES := 3
  const OPTION_CTG_MAX_DEPTH := 1
  const OPTION_MAX_JOINS := 0x10_0000

  /** A frame: the cubes blocked at it and the cubes pushed through it (the
      pc shortcut). Its solver is kept beside it, in Pdr.solvers. */
  datatype Frame = Frame(cubes: seq<Cube>, succPush: seq<Cube>)

  /** How one round of the main loop ends: a counterexample, an empty frame
      (an inductive invariant), a CTI blocked, no CTI and no empty frame, or
      the fuel of rec_block_cube spent. */
  datatype Round = CexFound | InvariantFound | CtiBlocked | Inconclusive | OutOfFuel

  /** What check and incremental_check return: 1 (a counterexample), 0 (an
      inductive invariant) or -1 (incremental_check: not decided yet, call
      again); Aborted when an assert of translate_to_dimacs stops the
      program, OutOfFuel when the fuel of the model ran out first. */
  datatype Verdict = Unsafe | Safe | Undecided | Aborted | Exhausted

  /** The values sat->val gives the variables first..first+n-1, zeros
      included, as check_BMC1 reads them. */
  function AllValues(o: IpasirOracle, added: seq<int>, assumed: seq<int>, first: int, n: nat): seq<int>
  {
    seq(n, i requires 0 <= i < n => o.val(added, assumed, first + i))
  }

  /** The value loops of check_BMC1 on the solver s that just answered SAT. */
  method ReadValues(s: CaDiCaL, first: int, n: nat) returns (vals: seq<int>)
    ensures vals == AllValues(s.oracle, s.lastAdded, s.lastAssumed, first, n)
  {
    vals := [];
    var i := 0;
    while i < n
      invariant 0 <= i <= n && vals == AllValues(s.oracle, s.lastAdded, s.lastAssumed, first, i)
    {
      var v := s.Val(first + i);
      vals := vals + [v];
      i := i + 1;
    }
  }

  /** `assume(lit)` then `solve()` on a solver with no pending assumption. */
  method SolveAssuming(s: CaDiCaL, lit: int) returns (res: int)
    requires s.pending == []
    modifies s`pending, s`lastAdded, s`lastAssumed
    ensures res == s.oracle.solve(s.added, [lit])
    ensures s.lastAdded == s.added && s.lastAssumed == [lit] && s.pending == []
  {
    s.Assume(lit);
    assert s.pending == [lit];
    res := s.Solve();
  }

  // ---------------------------------------------------------------------------
  // The loops of translate_to_dimacs (PDR.cpp:180-276), on values
  // ---------------------------------------------------------------------------

  /** The property literal: bad `index` if there is one, else output `index`. */
  function BadLit(a: Aiger, index: Int32): int
    requires ConsistentCounts(a) && Fits(a) && BadList(a, index).Some?
  {
    BadListChoice(a, index);
    Dimacs(BadList(a, index).value[index])
  }

  /** translate_to_dimacs gets through all of its asserts. */
  predicate TranslationDefined(a: Aiger, index: Int32)
    requires ConsistentCounts(a) && Fits(a)
  {
    BinaryNumbered(a) && BadList(a, index).Some? && BadInTableAsWritten(a, BadLit(a, index)) &&
    BadPrimeable(a, BadLit(a, index))
  }

  /** prime_lit(bad) gets through prime_var: its assert var >= 1 (a bad
      literal from 2^31 on wraps to a negative int and converts to 0), and
      the read of the table entry |bad| when it is past the circuit
      variables, which under the bound as written is entry
      |BaseVariables(a)|: it exists once the primed inputs and latches are
      listed, unless there are none. */
  predicate BadPrimeable(a: Aiger, bad: int)
    requires ConsistentCounts(a) && Fits(a)
  {
    1 <= Abs(bad) && (Abs(bad) < |BaseVariables(a)| || a.numInputs + a.numLatches > 0)
  }

  /** The table entries of NULL, False and the inputs, under the input
      numbering assert. */
  method LoadInputs(a: Aiger) returns (ok: bool, vars: seq<Variable>)
    requires ConsistentCounts(a) && Fits(a)
    ensures ok <==> InputsNumbered(a.inputs)
    ensures ok ==> vars == BaseVariables(a)[..a.numInputs + 2]
  {
    ghost var base := BaseVariables(a);
    vars := [Variable(0, "NULL"), Variable(1, "False")];
    BaseVariablesEntry(a, 0);
    BaseVariablesEntry(a, 1);
    assert vars == base[..2];
    var i := 1;
    while i <= a.numInputs
      invariant 1 <= i <= a.numInputs + 1 && vars == base[..i + 1]
      invariant forall k :: 0 <= k < i - 1 ==> a.inputs[k] == ToUInt32(2 * (k + 1))
    {
      if ToUInt32(i * 2) != a.inputs[i - 1] {
        return false, vars;
      }
      InputPrefixStep(a, i);
      vars := vars + [NamedVariable(1 + i, 'i', i - 1, false)];
      i := i + 1;
    }
    ok := true;
  }

  /** The latch entries, under the latch numbering assert. */
  method LoadLatches(a: Aiger, vars0: seq<Variable>) returns (ok: bool, vars: seq<Variable>)
    requires ConsistentCounts(a) && Fits(a) && vars0 == BaseVariables(a)[..a.numInputs + 2]
    ensures ok <==> LatchesNumbered(a.latches, a.numInputs)
    ensures ok ==> vars == BaseVariables(a)[..a.numInputs + a.numLatches + 2]
  {
    ghost var base := BaseVariables(a);
    var nI := a.numInputs;
    vars := vars0;
    var i := 1;
    while i <= a.numLatches
      invariant 1 <= i <= a.numLatches + 1 && vars == base[..nI + i + 1]
      invariant forall k :: 0 <= k < i - 1 ==> a.latches[k].l == ToUInt32(2 * (nI + 1 + k))
    {
      if ToUInt32((nI + i) * 2) != a.latches[i - 1].l {
        return false, vars;
      }
      LatchPrefixStep(a, i);
      vars := vars + [NamedVariable(1 + nI + i, 'l', i - 1, false)];
      i := i + 1;
    }
    ok := true;
  }

  /** The gate entries and the DIMACS gate list, under the gate numbering
      assert. */
  method LoadAnds(a: Aiger, vars0: seq<Variable>) returns (ok: bool, vars: seq<Variable>, gates: seq<And>)
    requires ConsistentCounts(a) && Fits(a) && vars0 == BaseVariables(a)[..a.numInputs + a.numLatches + 2]
    ensures ok <==> GatesNumbered(a.ands, a.numInputs, a.numLatches)
    ensures ok ==> vars == BaseVariables(a) && gates == DimacsAnds(a)
  {
    ghost var base := BaseVariables(a);
    var nI, nL := a.numInputs, a.numLatches;
    vars, gates := vars0, [];
    var i := 1;
    while i <= a.numAnds
      invariant 1 <= i <= a.numAnds + 1 && vars == base[..nI + nL + i + 1]
      invariant gates == DimacsAnds(a)[..i - 1]
      invariant forall k :: 0 <= k < i - 1 ==> a.ands[k].o == ToUInt32(2 * (nI + nL + k + 1))
    {
      if ToUInt32(2 * (nI + nL + i)) != a.ands[i - 1].o {
        return false, vars, gates;
      }
      var o := 1 + nI + nL + i;
      var i1 := AigerToDimacs(ToInt32(a.ands[i - 1].i1));
      var i2 := AigerToDimacs(ToInt32(a.ands[i - 1].i2));
      GatePrefixStep(a, i);
      GateListStep(a, i);
      vars := vars + [NamedVariable(o, 'a', i - 1, false)];
      gates := gates + [And(o, i1, i2)];
      i := i + 1;
    }
    assert vars == base && gates == DimacsAnds(a);
    ok := true;
  }

  /** One more input of the variable table. */
  lemma InputPrefixStep(a: Aiger, i: int)
    requires 1 <= i <= a.numInputs && ConsistentCounts(a)
    ensures var b := BaseVariables(a);
      b[..i + 2] == b[..i + 1] + [NamedVariable(1 + i, 'i', i - 1, false)]
  {
    BaseVariablesEntry(a, i + 1);
    assert BaseVariables(a)[i + 1] == NamedVariable(1 + i, 'i', i - 1, false);
    SlicePush(BaseVariables(a), i + 1);
  }

  /** One more latch of the variable table. */
  lemma LatchPrefixStep(a: Aiger, i: int)
    requires 1 <= i <= a.numLatches && ConsistentCounts(a)
    ensures var b := BaseVariables(a); var n := a.numInputs;
      b[..n + i + 2] == b[..n + i + 1] + [NamedVariable(1 + n + i, 'l', i - 1, false)]
  {
    var v := a.numInputs + i + 1;
    BaseVariablesEntry(a, v);
    assert BaseVariables(a)[v] == NamedVariable(v, 'l', i - 1, false);
    SlicePush(BaseVariables(a), v);
  }

  /** One more gate of the variable table. */
  lemma GatePrefixStep(a: Aiger, i: int)
    requires 1 <= i <= a.numAnds && ConsistentCounts(a)
    ensures var b := BaseVariables(a); var n := a.numInputs + a.numLatches;
      b[..n + i + 2] == b[..n + i + 1] + [NamedVariable(1 + n + i, 'a', i - 1, false)]
  {
    var v := a.numInputs + a.numLatches + i + 1;
    BaseVariablesEntry(a, v);
    assert BaseVariables(a)[v] == NamedVariable(v, 'a', i - 1, false);
    SlicePush(BaseVariables(a), v);
  }

  /** A prefix one longer is the prefix and the next element. */
  lemma SlicePush<T>(s: seq<T>, j: int)
    requires 0 <= j < |s|
    ensures s[..j + 1] == s[..j] + [s[j]]
  {
  }

  /** One more gate of the DIMACS gate list. */
  lemma GateListStep(a: Aiger, i: int)
    requires 1 <= i <= a.numAnds && ConsistentCounts(a)
    ensures DimacsAnds(a)[..i] == DimacsAnds(a)[..i - 1] +
      [And(1 + a.numInputs + a.numLatches + i, Dimacs(a.ands[i - 1].i1), Dimacs(a.ands[i - 1].i2))]
  {
    var d := DimacsAnds(a);
    assert d[..i] == d[..i - 1] + [d[i - 1]];
  }

  /** The next-state literals and the initial cube. The loop repeats the
      latch numbering assert, which the latch loop has already checked. */
  method LoadLatchStates(a: Aiger) returns (nexts: seq<int>, initial: seq<int>)
    requires ConsistentCounts(a)
    ensures nexts == Nexts(a) && initial == InitState(a.latches, a.numInputs)
  {
    var nI := a.numInputs;
    nexts, initial := [], [];
    var i := 1;
    while i <= a.numLatches
      invariant 1 <= i <= a.numLatches + 1
      invariant nexts == Nexts(a)[..i - 1] && initial == InitState(a.latches[..i - 1], nI)
    {
      var l := 1 + nI + i;
      var al := a.latches[i - 1];
      assert a.latches[..i][..i - 1] == a.latches[..i - 1];
      assert Nexts(a)[..i] == Nexts(a)[..i - 1] + [Dimacs(al.next)];
      nexts := nexts + [Dimacs(al.next)];
      if al.defaultVal == 0 {
        initial := initial + [-l];
      } else if al.defaultVal == 1 {
        initial := initial + [l];
      }
      i := i + 1;
    }
    assert a.latches[..a.numLatches] == a.latches;
  }

  method LoadConstraints(a: Aiger) returns (cs: seq<int>)
    ensures |cs| == |a.constraints| && forall k :: 0 <= k < |cs| ==> cs[k] == Dimacs(a.constraints[k])
  {
    cs := [];
    var i := 0;
    while i < |a.constraints|
      invariant 0 <= i <= |a.constraints| && |cs| == i
      invariant forall k :: 0 <= k < i ==> cs[k] == Dimacs(a.constraints[k])
    {
      cs := cs + [Dimacs(a.constraints[i])];
      i := i + 1;
    }
  }

  /** The bad literal, or None where the source reaches assert(false):
      bads win over outputs, and a negative index selects nothing. */
  method SelectBad(a: Aiger, index: Int32) returns (r: Option<int>)
    requires ConsistentCounts(a) && Fits(a)
    ensures r.Some? <==> (0 <= index < |a.bads| || 0 <= index < |a.outputs|)
    ensures r.Some? ==> r.value == Dimacs(if index < |a.bads| then a.bads[index] else a.outputs[index])
    ensures r.Some? ==> BadList(a, index).Some? && r.value == BadLit(a, index)
  {
    BadListChoice(a, index);
    if a.numBads > 0 && a.numBads > ToUInt32(index) {
      r := Some(Dimacs(a.bads[index]));
    } else if a.numOutputs > 0 && a.numOutputs > ToUInt32(index) {
      r := Some(Dimacs(a.outputs[index]));
    } else {
      r := None;
    }
  }

  /** The primed inputs and then the primed latches, numbered from the
      current table size. */
  method PushPrimed(a: Aiger, vars0: seq<Variable>) returns (vars: seq<Variable>)
    ensures vars == vars0 + PrimedVariables(a, |vars0|)
  {
    var pf := |vars0|;
    ghost var table := vars0 + PrimedVariables(a, pf);
    vars := vars0;
    var i := 0;
    while i < a.numInputs
      invariant 0 <= i <= a.numInputs && vars == table[..pf + i]
    {
      PrimedVariablesEntry(a, pf, i);
      assert table[..pf + i + 1] == table[..pf + i] + [table[pf + i]];
      vars := vars + [NamedVariable(pf + i, 'i', i, true)];
      i := i + 1;
    }
    i := 0;
    while i < a.numLatches
      invariant 0 <= i <= a.numLatches && vars == table[..pf + a.numInputs + i]
    {
      PrimedVariablesEntry(a, pf, a.numInputs + i);
      assert table[..pf + a.numInputs + i + 1] == table[..pf + a.numInputs + i] + [table[pf + a.numInputs + i]];
      vars := vars + [NamedVariable(pf + a.numInputs + i, 'l', i, true)];
      i := i + 1;
    }
    assert vars == table;
  }

  /** The DIMACS view of circuit `a` with property `index`: the counts, the
      gate list, the next states, the initial cube, the constraints, the bad
      literal and the first primed variable. */
  ghost predicate LoadedCircuit(a: Aiger, index: Int32, nI: int, nL: int, nA: int, ands: seq<And>, nexts: seq<int>,
                                initState: seq<int>, constraints: seq<int>, bad: int, primedFirst: int)
  {
    ConsistentCounts(a) && Fits(a) && LiteralsInRange(a) && TranslationDefined(a, index) &&
    nI == a.numInputs && nL == a.numLatches && nA == a.numAnds &&
    ands == DimacsAnds(a) && nexts == Nexts(a) && initState == InitState(a.latches, nI) &&
    constraints == MapDimacs(a.constraints) && bad == BadLit(a, index) && primedFirst == |BaseVariables(a)|
  }

  /** The loops of translate_to_dimacs in order, stopping at the first
      failed assert. */
  method LoadAll(a: Aiger, index: Int32)
    returns (ok: bool, vars: seq<Variable>, gates: seq<And>, nx: seq<int>, initial: seq<int>, cs: seq<int>, b: int)
    requires ConsistentCounts(a) && Fits(a) && LiteralsInRange(a)
    ensures ok <==> TranslationDefined(a, index)
    ensures ok ==> vars == BaseVariables(a) + PrimedVariables(a, |BaseVariables(a)|)
    ensures ok ==> LoadedCircuit(a, index, a.numInputs, a.numLatches, a.numAnds, gates, nx, initial, cs, b,
      |BaseVariables(a)|)
  {
    var okInputs, vars1 := LoadInputs(a);
    if !okInputs {
      return false, [], [], [], [], [], 0;
    }
    var okLatches, vars2 := LoadLatches(a, vars1);
    if !okLatches {
      return false, [], [], [], [], [], 0;
    }
    var okAnds, vars3, gates3 := LoadAnds(a, vars2);
    if !okAnds {
      return false, [], [], [], [], [], 0;
    }
    nx, initial := LoadLatchStates(a);
    cs := LoadConstraints(a);
    var sb := SelectBad(a, index);
    if sb.None? {
      return false, [], [], [], [], [], 0;
    }
    // the bound of PDR.cpp:247 as written (see BadInTableAsWritten)
    if !(Abs(sb.value) <= |vars3|) {
      return false, [], [], [], [], [], 0;
    }
    vars := PushPrimed(a, vars3);
    // prime_lit(bad): the assert of prime_var and its read of variables[|bad|]
    if !(1 <= Abs(sb.value) < |vars|) {
      return false, [], [], [], [], [], 0;
    }
    gates, b, ok := gates3, sb.value, true;
  }

  /** A minisatSimp of `size` variables with the variables of `frozen`
      frozen, fed `stream` and simplified. */
  method NewSimplifier(oracle: MinisatOracle, size: int, frozen: seq<int>, stream: seq<int>) returns (sat: MinisatSimp)
    ensures fresh(sat) && sat.oracle == oracle && sat.nVars >= 0 && sat.frozen == FrozenVars(frozen)
    ensures (sat.clauses, sat.clause) == Feed(([], []), stream)
    ensures sat.simplifiedCnf ==
      SimplifiedCnf(sat.nVars, oracle.eliminate(sat.clauses, sat.frozen).0, oracle.eliminate(sat.clauses, sat.frozen).1)
  {
    sat := new MinisatSimp(oracle);
    sat.VarEnlargeTo(size);
    FreezeAll(sat, frozen);
    assert sat.frozen == FrozenVars(frozen);
    AddAllSimp(sat, stream);
    sat.Simplify();
  }

  // ---------------------------------------------------------------------------
  // Clause emission shared by the encoders (PDR.cpp:478-524)
  // ---------------------------------------------------------------------------

  /** Each literal as a unit clause. */
  method AddUnits(s: CaDiCaL, lits: seq<int>)
    requires s.Valid()
    modifies s`added, s`nv
    ensures s.Valid() && s.added == old(s.added) + UnitStream(lits)
  {
    var i := 0;
    while i < |lits|
      invariant 0 <= i <= |lits| && s.Valid()
      invariant s.added == old(s.added) + UnitStream(lits[..i])
    {
      assert lits[..i + 1][..i] == lits[..i];
      s.Add(lits[i]);
      s.Add(0);
      i := i + 1;
    }
    assert lits[..i] == lits;
  }

  /** The backward cone walk from the variables `roots`, last gate first. */
  method AddWalk(s: CaDiCaL, ands: seq<And>, roots: set<int>)
    requires s.Valid()
    modifies s`added, s`nv
    ensures s.Valid() && s.added == old(s.added) + Walk(ands, |ands|, roots)
  {
    var litSet := roots;
    ghost var emitted: seq<int> := [];
    var j := |ands|;
    while j > 0
      invariant 0 <= j <= |ands| && s.Valid()
      invariant s.added == old(s.added) + emitted
      invariant emitted + Walk(ands, j, litSet) == Walk(ands, |ands|, roots)
    {
      var a := ands[j - 1];
      WalkStep(emitted, ands, j, litSet);
      if a.o in litSet {
        litSet := litSet + {Abs(a.i1), Abs(a.i2)};
        ClausesAppended(old(s.added), emitted, GateClauses(a));
        AddAll(s, GateClauses(a));
        emitted := emitted + GateClauses(a);
      }
      j := j - 1;
    }
  }

  lemma ClausesAppended(before: seq<int>, emitted: seq<int>, more: seq<int>)
    ensures before + emitted + more == before + (emitted + more)
  {
  }

  /** One gate of the walk: a gate of the cone moves its clauses from the
      walk still to come to the clauses emitted; any other is skipped. */
  lemma WalkStep(emitted: seq<int>, ands: seq<And>, j: nat, vars: set<int>)
    requires 0 < j <= |ands|
    ensures var a := ands[j - 1];
      emitted + Walk(ands, j, vars) ==
        if a.o in vars then (emitted + GateClauses(a)) + Walk(ands, j - 1, vars + {Abs(a.i1), Abs(a.i2)})
        else emitted + Walk(ands, j - 1, vars)
  {
  }

  /** The cone walk of encode_init_condition, which enters the operands
      into the set with their sign. */
  method AddSignedWalk(s: CaDiCaL, ands: seq<And>, roots: set<int>)
    requires s.Valid()
    modifies s`added, s`nv
    ensures s.Valid() && s.added == old(s.added) + WalkSigned(ands, |ands|, roots)
  {
    var litSet := roots;
    ghost var emitted: seq<int> := [];
    var j := |ands|;
    while j > 0
      invariant 0 <= j <= |ands| && s.Valid()
      invariant s.added == old(s.added) + emitted
      invariant emitted + WalkSigned(ands, j, litSet) == WalkSigned(ands, |ands|, roots)
    {
      var a := ands[j - 1];
      SignedWalkStep(emitted, ands, j, litSet);
      if a.o in litSet {
        litSet := litSet + {a.i1, a.i2};
        ClausesAppended(old(s.added), emitted, GateClauses(a));
        AddAll(s, GateClauses(a));
        emitted := emitted + GateClauses(a);
      }
      j := j - 1;
    }
  }

  /** WalkStep for the signed walk. */
  lemma SignedWalkStep(emitted: seq<int>, ands: seq<And>, j: nat, lits: set<int>)
    requires 0 < j <= |ands|
    ensures var a := ands[j - 1];
      emitted + WalkSigned(ands, j, lits) ==
        if a.o in lits then (emitted + GateClauses(a)) + WalkSigned(ands, j - 1, lits + {a.i1, a.i2})
        else emitted + WalkSigned(ands, j - 1, lits)
  {
  }

  // ---------------------------------------------------------------------------
  // Facts the engine relies on about its oracles and the translation stream
  // ---------------------------------------------------------------------------

  /** ipasir_assume for each literal, in order. */
  method AssumeAll(s: CaDiCaL, lits: seq<int>)
    modifies s`pending
    ensures s.pending == old(s.pending) + lits
  {
    var i := 0;
    while i < |lits|
      invariant 0 <= i <= |lits| && s.pending == old(s.pending) + lits[..i]
    {
      assert lits[..i + 1] == lits[..i] + [lits[i]];
      s.Assume(lits[i]);
      i := i + 1;
    }
    assert lits[..i] == lits;
  }

  /** The clause half of an activation-literal query: with act =
      max_var() + 1, the clause [-act] + lits. act is a variable the solver
      has never seen. */
  method ActClause(s: CaDiCaL, lits: seq<int>) returns (act: int)
    requires s.Valid()
    modifies s`added, s`nv
    ensures s.Valid()
    ensures act == MaxAbs(old(s.added)) + 1 && forall i :: 0 <= i < |old(s.added)| ==> Abs(old(s.added)[i]) < act
    ensures s.added == old(s.added) + ([-act] + lits + [0])
  {
    ghost var a0 := s.added;
    var n := s.MaxVar();
    act := n + 1;
    s.Add(-act);
    AddAll(s, lits);
    s.Add(0);
    assert s.added == a0 + ([-act] + lits + [0]);
  }

  /** The solve half: assume act, then the assumptions, and solve. */
  method ActSolve(s: CaDiCaL, act: int, assumptions: seq<int>) returns (status: int)
    requires s.pending == []
    modifies s`pending, s`lastAdded, s`lastAssumed
    ensures s.pending == [] && s.lastAdded == s.added && s.lastAssumed == [act] + assumptions
    ensures status == s.oracle.solve(s.added, s.lastAssumed)
  {
    s.Assume(act);
    AssumeAll(s, assumptions);
    status := s.Solve();
  }

  /** The activation-literal query of is_inductive and extract_state_from_sat:
      with act = max_var() + 1, add the clause [-act] + lits, assume act and
      then the assumptions, and solve. */
  method ActQuery(s: CaDiCaL, lits: seq<int>, assumptions: seq<int>) returns (act: int, status: int)
    requires s.Valid() && s.pending == []
    modifies s`added, s`nv, s`pending, s`lastAdded, s`lastAssumed
    ensures s.Valid() && s.pending == []
    ensures act == MaxAbs(old(s.added)) + 1 && forall i :: 0 <= i < |old(s.added)| ==> Abs(old(s.added)[i]) < act
    ensures s.added == old(s.added) + ([-act] + lits + [0])
    ensures s.lastAdded == s.added && s.lastAssumed == [act] + assumptions
    ensures status == s.oracle.solve(s.added, s.lastAssumed)
  {
    act := ActClause(s, lits);
    status := ActSolve(s, act, assumptions);
  }

  /** After an activation-literal query on a solver that held `before`:
      the clause ¬act \/ clause with act = max_var() + 1, and the solve
      under act and then the assumptions. */
  ghost predicate ActAnswered(added: seq<int>, lastAdded: seq<int>, lastAssumed: seq<int>, before: seq<int>,
                              clause: seq<int>, assumptions: seq<int>)
  {
    var act := MaxAbs(before) + 1;
    added == before + ([-act] + clause + [0]) && lastAdded == added && lastAssumed == [act] + assumptions
  }

  /** The core loop of is_inductive: the literals of c whose primed form is a
      failed assumption of the last solve. */
  method FailedLits(s: CaDiCaL, c: Cube, primedFirst: int) returns (r: Cube)
    ensures r == FailedCore(c, s.oracle, s.lastAdded, s.lastAssumed, primedFirst)
  {
    r := [];
    var i := 0;
    while i < |c|
      invariant 0 <= i <= |c|
      invariant r == FailedCore(c[..i], s.oracle, s.lastAdded, s.lastAssumed, primedFirst)
    {
      assert c[..i + 1][..i] == c[..i];
      var f := s.Failed(PrimeLatch(c[i], primedFirst));
      if f {
        r := r + [c[i]];
      }
      i := i + 1;
    }
    assert c[..i] == c;
  }

  /** The value loops of extract_state_from_sat on the solver s that just
      answered SAT: the input values, the latch values, and lift's
      assumptions before sorting (each input value and its primed value
      moved down by distance, then the latch values). */
  method ReadModel(s: CaDiCaL, nI: nat, nL: nat, pf: int, distance: int)
    returns (inputs: seq<int>, latches: seq<int>, assumptions: seq<int>)
    ensures inputs == ModelValues(s.oracle, s.lastAdded, s.lastAssumed, 2, nI)
    ensures latches == ModelValues(s.oracle, s.lastAdded, s.lastAssumed, 2 + nI, nL)
    ensures assumptions == InputAssumptions(s.oracle, s.lastAdded, s.lastAssumed, pf, distance, nI) + latches
  {
    inputs, assumptions := [], [];
    var i := 0;
    while i < nI
      invariant 0 <= i <= nI
      invariant inputs == ModelValues(s.oracle, s.lastAdded, s.lastAssumed, 2, i)
      invariant assumptions == InputAssumptions(s.oracle, s.lastAdded, s.lastAssumed, pf, distance, i)
    {
      var ipt := s.Val(2 + i);
      var pipt := s.Val(pf + i);
      ghost var before := assumptions;
      if ipt != 0 {
        inputs := inputs + [ipt];
        assumptions := assumptions + [ipt];
      }
      if pipt > 0 {
        assumptions := assumptions + [pipt - distance];
      } else if pipt < 0 {
        assumptions := assumptions + [-(-pipt - distance)];
      }
      assert assumptions == before + (if ipt != 0 then [ipt] else []) +
        (if pipt != 0 then [ShiftDown(pipt, distance)] else []);
      i := i + 1;
    }
    latches := [];
    ghost var ia := assumptions;
    i := 0;
    while i < nL
      invariant 0 <= i <= nL
      invariant latches == ModelValues(s.oracle, s.lastAdded, s.lastAssumed, 2 + nI, i)
      invariant assumptions == ia + latches
    {
      var l := s.Val(2 + nI + i);
      if l != 0 {
        latches := latches + [l];
        assumptions := assumptions + [l];
      }
      i := i + 1;
    }
  }

  /** The last loop of extract_state_from_sat: the literals of c that the
      last solve of s reports as failed assumptions. */
  method FailedOf(s: CaDiCaL, c: seq<int>) returns (r: seq<int>)
    ensures r == FailedLatches(c, s.oracle, s.lastAdded, s.lastAssumed)
  {
    r := [];
    var i := 0;
    while i < |c|
      invariant 0 <= i <= |c|
      invariant r == FailedLatches(c[..i], s.oracle, s.lastAdded, s.lastAssumed)
    {
      assert c[..i + 1][..i] == c[..i];
      var f := s.Failed(c[i]);
      if f {
        r := r + [c[i]];
      }
      i := i + 1;
    }
    assert c[..i] == c;
  }

  /** The lift half of extract_state_from_sat on solvers m (the frame solver
      that answered SAT) and lift: read m's model, clear_act on lift, add
      ¬act \/ clause, solve under act and the read-back assumptions put in
      reversed heuristic order (epoch e of the scores) and shifted back up,
      and collect the latch values lift reports as failed, then
      set_clear_act. */
  method LiftAnswer(o: IpasirOracle, m: CaDiCaL, lift: CaDiCaL, nI: nat, nL: nat, pf: int, clause: seq<int>,
                    ord: (seq<int>, nat) -> seq<int>, e: nat)
    returns (inputs: seq<int>, latches: seq<int>)
    requires m != lift && m.oracle == o && lift.oracle == o && lift.Valid() && lift.pending == []
    modifies lift`added, lift`nv, lift`pending, lift`lastAdded, lift`lastAssumed, lift`clearFlag
    ensures lift.Valid() && lift.pending == [] && lift.clearFlag
    ensures inputs == ModelValues(o, m.lastAdded, m.lastAssumed, 2, nI)
    ensures latches == FailedLatches(ModelValues(o, m.lastAdded, m.lastAssumed, 2 + nI, nL),
      o, lift.lastAdded, lift.lastAssumed)
    ensures ActAnswered(lift.added, lift.lastAdded, lift.lastAssumed,
      old(lift.added) + ClearActClauses(old(lift.added), old(lift.clearFlag)), clause,
      Lifted(ord, ReadBack(o, m.lastAdded, m.lastAssumed, nI, nL, pf), e, nI, nL, pf))
  {
    var ls, assumptions;
    inputs, ls, assumptions := ReadModel(m, nI, nL, pf, pf - (nI + nL + 2));
    var lifted := Lifted(ord, assumptions, e, nI, nL, pf);
    lift.ClearAct();
    var act, res := ActQuery(lift, clause, lifted);
    latches := FailedOf(lift, ls);
    lift.SetClearAct();
  }

  /** The succ_push scan of is_inductive: the first pushed cube, in set
      order, no longer than c that std::includes reports inside c. */
  method FindIncluded(pushed: seq<Cube>, c: Cube) returns (r: Option<Cube>)
    ensures r == FirstIncluded(pushed, c)
  {
    var i := 0;
    while i < |pushed|
      invariant 0 <= i <= |pushed|
      invariant FirstIncluded(pushed[i..], c) == FirstIncluded(pushed, c)
    {
      if |pushed[i]| > |c| {
        return None;
      }
      if Includes(c, pushed[i]) {
        return Some(pushed[i]);
      }
      assert pushed[i..][1..] == pushed[i + 1..];
      i := i + 1;
    }
    return None;
  }

  /** The loop of mic building cand: the literals of cube other than l. */
  method RemoveLit(cube: Cube, l: int) returns (cand: Cube)
    ensures cand == Without(cube, l)
  {
    cand := [];
    var i := 0;
    while i < |cube|
      invariant 0 <= i <= |cube| && cand == Without(cube[..i], l)
    {
      assert cube[..i + 1][..i] == cube[..i];
      if cube[i] != l {
        cand := cand + [cube[i]];
      }
      i := i + 1;
    }
    assert cube[..i] == cube;
  }

  /** The join of CTG_down: the literals of cube the CTG cti also holds,
      up to the first literal outside cti that is required (breaked). */
  method JoinCube(cube: Cube, cti: Cube, required: set<int>) returns (join: Cube, breaked: bool)
    ensures (join, breaked) == JoinPrefix(cube, |cube|, cti, required)
  {
    join, breaked := [], false;
    var i := 0;
    while i < |cube|
      invariant 0 <= i <= |cube| && (join, breaked) == JoinPrefix(cube, i, cti, required) && !breaked
    {
      if cube[i] in cti {
        join := join + [cube[i]];
      } else if cube[i] in required {
        breaked := true;
        JoinStopped(cube, i + 1, |cube|, cti, required);
        return;
      }
      i := i + 1;
    }
  }

  /** How many more levels of mic CTG_down may open below rec_depth d. */
  function Budget(d: int): nat
  {
    if d > OPTION_CTG_MAX_DEPTH then 0 else OPTION_CTG_MAX_DEPTH + 1 - d
  }

  /** CTG_down's counts of CTGs in a row and of joins within their bounds. */
  predicate InTries(ctgCt: int, joinCt: int)
  {
    0 <= ctgCt <= OPTION_CTG_TRIES && 0 <= joinCt <= OPTION_MAX_JOINS
  }

  /** The heuristic stable_sort only permutes: in epoch e it reorders c. */
  ghost predicate Permutes(order: (seq<int>, nat) -> seq<int>, c: seq<int>, e: nat)
  {
    multiset(order(c, e)) == multiset(c)
  }

  ghost predicate OrderPermutes(order: (seq<int>, nat) -> seq<int>)
  {
    forall c, e :: Permutes(order, c, e)
  }

  /** The latch/next links of encode_translation: pl <-> next for each latch. */
  function LatchLinks(nexts: seq<int>, numInputs: int, primedFirst: int): seq<int>
  {
    if nexts == [] then []
    else
      var i := |nexts| - 1;
      var pl := PrimeLatch(numInputs + i + 2, primedFirst);
      LatchLinks(nexts[..i], numInputs, primedFirst) + [-pl, nexts[i], 0, -nexts[i], pl, 0]
  }

  /** set_frozen over inputs and latches: each variable and its primed copy. */
  function LatchFreeze(n: nat, primedFirst: int): seq<int>
  {
    if n == 0 then [] else LatchFreeze(n - 1, primedFirst) + [1 + n, primedFirst + n - 1]
  }

  /** set_frozen over the constraints and their primed copies. */
  function PairFreeze(cs: seq<int>, ps: seq<int>): seq<int>
    requires |cs| == |ps|
  {
    if cs == [] then []
    else PairFreeze(cs[..|cs| - 1], ps[..|ps| - 1]) + [Abs(cs[|cs| - 1]), Abs(ps[|ps| - 1])]
  }

  // ---------------------------------------------------------------------------
  // What propagation keeps (PDR.cpp:867-910)
  // ---------------------------------------------------------------------------

  /** Every literal of d is a literal of c: d blocks at least the states c
      blocks. */
  predicate PartOf(d: seq<int>, c: seq<int>)
  {
    forall x :: x in d ==> x in c
  }

  lemma PartOfTransitive(a: seq<int>, b: seq<int>, c: seq<int>)
    requires PartOf(a, b) && PartOf(b, c)
    ensures PartOf(a, c)
  {
  }

  /** Frames only gain: the same number of frames, and every cube of frame
      j is still a cube of frame j. */
  ghost predicate Grows(before: seq<Frame>, after: seq<Frame>)
  {
    |before| == |after| &&
    forall j, c :: 0 <= j < |before| && c in before[j].cubes ==> c in after[j].cubes
  }

  /** No blocked cube is lost from before to after: each cube of frame j
      is still in frame j, or a part of it is in frame j or a later one. */
  ghost predicate Subsumed(before: seq<Frame>, after: seq<Frame>)
  {
    |before| == |after| &&
    forall j, c :: 0 <= j < |before| && c in before[j].cubes ==>
      exists j', d :: j <= j' < |after| && d in after[j'].cubes && PartOf(d, c)
  }

  /** A part of the cube l is in the last of the frames f. */
  ghost predicate BlockedIn(f: seq<Frame>, l: Cube)
  {
    |f| >= 1 && exists c :: c in f[|f| - 1].cubes && PartOf(c, l)
  }

  lemma GrowsReflexive(f: seq<Frame>)
    ensures Grows(f, f)
  { }

  lemma GrowsTransitive(f0: seq<Frame>, f1: seq<Frame>, f2: seq<Frame>)
    requires Grows(f0, f1) && Grows(f1, f2)
    ensures Grows(f0, f2)
  {
  }

  lemma GrowsKeepsBlocked(f0: seq<Frame>, f1: seq<Frame>, l: Cube)
    requires Grows(f0, f1) && BlockedIn(f0, l)
    ensures BlockedIn(f1, l)
  {
    var c :| c in f0[|f0| - 1].cubes && PartOf(c, l);
    assert c in f1[|f1| - 1].cubes;
  }

  /** After a cube c is added at frame k of f1, grown from f0, the cube l
      is blocked in the last frame of f1 when it was in f0's, or when c is
      a part of it added to the last frame. */
  lemma BlockedAfter(f0: seq<Frame>, f1: seq<Frame>, c: Cube, k: int, l: Cube, was: bool, own: bool)
    requires Grows(f0, f1) && 0 <= k < |f1| && c in f1[k].cubes
    requires was == BlockedIn(f0, l) && (own ==> PartOf(c, l))
    ensures was || (own && k == |f1| - 1) ==> BlockedIn(f1, l)
  {
    if was {
      GrowsKeepsBlocked(f0, f1, l);
    }
  }

  lemma SubsumedReflexive(f: seq<Frame>)
    ensures Subsumed(f, f)
  {
    forall j, c | 0 <= j < |f| && c in f[j].cubes
      ensures exists j', d :: j <= j' < |f| && d in f[j'].cubes && PartOf(d, c)
    {
      assert PartOf(c, c);
    }
  }

  /** A pass over frame i: only cubes of frame i go, each with a part in
      frame i+1, and every other cube stays. */
  ghost predicate PassKeeps(before: seq<Frame>, after: seq<Frame>, i: int)
  {
    |before| == |after| && 0 <= i && i + 1 < |after| &&
    forall j, c :: 0 <= j < |before| && c in before[j].cubes ==>
      c in after[j].cubes || (j == i && exists d :: d in after[i + 1].cubes && PartOf(d, c))
  }

  /** Passes compose: what a pass keeps was kept before. */
  lemma {:induction false} SubsumedStep(f0: seq<Frame>, f1: seq<Frame>, f2: seq<Frame>, i: int)
    requires Subsumed(f0, f1) && PassKeeps(f1, f2, i)
    ensures Subsumed(f0, f2)
  {
    forall j, c | 0 <= j < |f0| && c in f0[j].cubes
      ensures exists j', d :: j <= j' < |f2| && d in f2[j'].cubes && PartOf(d, c)
    {
      var j', d :| j <= j' < |f1| && d in f1[j'].cubes && PartOf(d, c);
      if d !in f2[j'].cubes {
        var e :| e in f2[i + 1].cubes && PartOf(e, d);
        PartOfTransitive(e, d, c);
        assert i + 1 < |f2| && e in f2[i + 1].cubes;
      }
    }
  }

  /** Passes over one frame compose. */
  lemma PassKeepsTransitive(f0: seq<Frame>, f1: seq<Frame>, f2: seq<Frame>, i: int)
    requires PassKeeps(f0, f1, i) && PassKeeps(f1, f2, i)
    ensures PassKeeps(f0, f2, i)
  {
    forall j, c | 0 <= j < |f0| && c in f0[j].cubes
      ensures c in f2[j].cubes || (j == i && exists d :: d in f2[i + 1].cubes && PartOf(d, c))
    {
      if c !in f1[j].cubes {
        var d :| d in f1[i + 1].cubes && PartOf(d, c);
        assert d in f2[i + 1].cubes;
      }
    }
  }

  /** A stretch of the pass over frame i: what PassKeeps allows, frame i
      never gains a cube, frame i-1 may change only its pushed set, frame i+1
      only its cubes, and nothing else changes. */
  ghost predicate PassStep(before: seq<Frame>, after: seq<Frame>, i: int)
  {
    PassKeeps(before, after, i) &&
    (forall c :: c in after[i].cubes ==> c in before[i].cubes) &&
    (forall k :: 0 <= k < |after| && k != i - 1 && k != i + 1 && k != i ==> after[k] == before[k]) &&
    (1 <= i ==> after[i - 1].cubes == before[i - 1].cubes) &&
    after[i + 1].succPush == before[i + 1].succPush && after[i].succPush == before[i].succPush
  }

  lemma PassStepReflexive(f: seq<Frame>, i: int)
    requires 0 <= i && i + 1 < |f|
    ensures PassStep(f, f, i)
  {
  }

  lemma PassStepTransitive(f0: seq<Frame>, f1: seq<Frame>, f2: seq<Frame>, i: int)
    requires PassStep(f0, f1, i) && PassStep(f1, f2, i)
    ensures PassStep(f0, f2, i)
  {
    PassKeepsTransitive(f0, f1, f2, i);
  }

  /** A pushed cube c at position j of frame i: its sorted core goes into
      frame i+1, then c is erased from frame i. */
  lemma PushedStep(f: seq<Frame>, i: int, j: int, core: Cube)
    requires 0 <= i && i + 1 < |f| && CubeSet(f[i].cubes) && CubeSet(f[i + 1].cubes) && 0 <= j < |f[i].cubes|
    requires PartOf(core, f[i].cubes[j])
    ensures var f' := f[i + 1 := Frame(InsertCube(f[i + 1].cubes, SortLits(core)).0, f[i + 1].succPush)];
      PassStep(f, f'[i := Frame(EraseAt(f'[i].cubes, j), f'[i].succPush)], i)
  {
    SortedCoreCovers(f[i + 1].cubes, core, f[i].cubes[j]);
  }

  /** A cube that stays: at most frame i-1's pushed set changes. */
  lemma KeptStep(f: seq<Frame>, i: int, c: Cube, usePc: bool)
    requires 0 <= i && i + 1 < |f| && (usePc ==> 1 <= i && CubeSet(f[i - 1].succPush))
    ensures PassStep(f, if usePc then f[i - 1 := Frame(f[i - 1].cubes, InsertCube(f[i - 1].succPush, c).0)] else f, i)
  {
  }

  /** The sorted core of c, once inserted, is a part of c in the new set. */
  lemma SortedCoreCovers(cubes: seq<Cube>, core: Cube, c: Cube)
    requires CubeSet(cubes) && PartOf(core, c)
    ensures SortLits(core) in InsertCube(cubes, SortLits(core)).0 && PartOf(SortLits(core), c)
  {
    forall x | x in SortLits(core) ensures x in c {
      assert x in multiset(SortLits(core));
    }
  }

  class Pdr {
    const aiger: Aiger
    const propertyIndex: Int32
    const useAcc: bool
    const usePc: bool
    const ipasir: IpasirOracle
    const minisat: MinisatOracle
    const order: (seq<int>, nat) -> seq<int>

    var nInputs: int
    var nLatches: int
    var nAnds: int
    var variables: seq<Variable>
    var ands: seq<And>
    var nexts: seq<int>
    var constraints: seq<int>
    var constraintsPrime: seq<int>
    var initState: seq<int>
    var bad: int
    var badPrime: int
    var primedFirst: int
    var mapToPrime: map<int, int>
    var mapToUnprime: map<int, int>

    var satelite: MinisatSimp?
    var lift: CaDiCaL?
    var init: CaDiCaL?
    /** The solvers the engine owns: those of the frames, lift and init. */
    ghost var Repr: set<CaDiCaL>
    /** What satelite was fed before simplify. */
    ghost var sateliteStream: seq<int>

    var cexState: State?
    var findCex: bool
    var cexStates: seq<State>
    /** The states made by rec_block_cube and its callers, none of them
        freed in the model. */
    ghost var States: set<State>

    var frames: seq<Frame>
    /** solvers[i] is frames[i].solver of the source. */
    var solvers: seq<CaDiCaL>
    var obligationQueue: seq<Obligation>
    var core: Cube
    var topFrameCannotReachBad: bool
    var earliestStrengthenedFrame: int
    var firstIncrementalCheck: bool
    var epoch: nat
    /** The global state_count: the stamp of the last State made. */
    var stateCount: nat

    /** The source leaves top_frame_cannot_reach_bad and
        earliest_strengthened_frame unset until check sets them. The
        solver answers and the heuristic order are assumed to behave as
        Valid states. */
    constructor (aiger: Aiger, index: Int32, acc: bool, pc: bool, ipasir: IpasirOracle, minisat: MinisatOracle,
                 order: (seq<int>, nat) -> seq<int>)
      requires ValNamesVariable(ipasir) && OrderPermutes(order)
      ensures Unstarted() && stateCount == 0
      ensures this.aiger == aiger && propertyIndex == index && useAcc == acc && usePc == pc
      ensures this.ipasir == ipasir && this.minisat == minisat && this.order == order
      ensures firstIncrementalCheck && !findCex && cexState == null && cexStates == []
      ensures frames == [] && solvers == [] && obligationQueue == [] && core == []
      ensures satelite == null && lift == null && init == null && Repr == {}
    {
      this.aiger, propertyIndex, useAcc, usePc := aiger, index, acc, pc;
      this.ipasir, this.minisat, this.order := ipasir, minisat, order;
      firstIncrementalCheck, findCex, cexState, cexStates := true, false, null, [];
      frames, solvers, obligationQueue, core := [], [], [], [];
      satelite, lift, init, Repr := null, null, null, {};
      topFrameCannotReachBad, earliestStrengthenedFrame, epoch, stateCount := false, 1, 0, 0;
      States := {};
    }

    /** The state before check: no frame, no solver, an empty queue. */
    ghost predicate Unstarted()
      reads this`ands, this`constraints, this`initState, this`satelite, this`frames, this`solvers, this`lift,
        this`init, this`Repr, Repr, this`nInputs, this`nLatches, this`earliestStrengthenedFrame,
        this`obligationQueue, this`States, this`stateCount, States`failed, States`failedDepth
    {
      Valid() && ChainOk() && NoFailures() && frames == [] && obligationQueue == [] && satelite == null && lift == null && init == null
    }

    /** The states made so far carry stamps 1..state_count, and each next
        reference leads to one of them, along the chain the state was made for. */
    ghost predicate ChainOk()
      reads this`States, this`stateCount
    {
      (forall s :: s in States ==>
        1 <= s.index <= stateCount &&
        (s.next == null ==> s.chain == []) && (s.next != null ==> s.next in States && s.chain == [s.next] + s.next.chain)) &&
      forall s, t :: s in States && t in States && s.index == t.index ==> s == t
    }

    /** No state has failed: the punishment that would count failures is
        switched off, so failed and failed_depth keep their initial 0. */
    ghost predicate NoFailures()
      reads this`States, States`failed, States`failedDepth
    {
      forall s :: s in States ==> s.failed == 0 && s.failedDepth == 0
    }


    function Depth(): int
      reads this`frames
    {
      |frames| - 2
    }

    function Table(): Primes
      reads this`variables, this`mapToPrime, this`mapToUnprime
    {
      Primes(variables, mapToPrime, mapToUnprime)
    }

    function LastLatch(): int
      reads this`nInputs, this`nLatches
    {
      1 + nInputs + nLatches
    }

    /** c is a cube over the latches. */
    predicate OnLatches(c: Cube)
      reads this`nInputs, this`nLatches
    {
      LatchCube(c, nInputs, nLatches)
    }

    /** A part of a cube over the latches is one too. */
    lemma PartLatches(d: Cube, c: Cube)
      requires OnLatches(c) && PartOf(d, c)
      ensures OnLatches(d)
    {
      LatchSubCube(d, c, nInputs, nLatches);
    }

    /** Sorting keeps a cube over the latches. */
    lemma SortedLatches(c: Cube)
      requires OnLatches(c)
      ensures OnLatches(SortLits(c))
    {
      SubCubeOf(SortLits(c), c);
      LatchSubCube(SortLits(c), c, nInputs, nLatches);
    }

    /** x is already primed in table t, as y. */
    ghost predicate HasPrimeIn(t: Primes, x: int, y: int)
      reads this`nInputs, this`nLatches, this`primedFirst
    {
      CanPrime(t, LastLatch(), Abs(x)) && PrimeLitOf(t, LastLatch(), primedFirst, x) == (y, t)
    }

    /** The circuit fields translate_to_dimacs fills before priming. */
    ghost predicate Loaded()
      reads this`nInputs, this`nLatches, this`nAnds, this`ands, this`nexts, this`constraints,
        this`initState, this`bad, this`primedFirst
    {
      LoadedCircuit(aiger, propertyIndex, nInputs, nLatches, nAnds, ands, nexts, initState, constraints, bad, primedFirst)
    }

    /** The state translate_to_dimacs leaves, with primed-variable table t. */
    ghost predicate TranslatedWith(t: Primes)
      reads this`nInputs, this`nLatches, this`nAnds, this`ands, this`nexts, this`constraints,
        this`constraintsPrime, this`initState, this`bad, this`badPrime, this`primedFirst
    {
      Loaded() &&
      BaseVariables(aiger) + PrimedVariables(aiger, primedFirst) <= t.variables &&
      PrimesValid(t, LastLatch(), primedFirst + nInputs + nLatches) &&
      HasPrimeIn(t, bad, badPrime) && |constraintsPrime| == |constraints| &&
      (forall k :: 0 <= k < |constraints| ==> HasPrimeIn(t, constraints[k], constraintsPrime[k]))
    }

    ghost predicate Translated()
      reads this`nInputs, this`nLatches, this`nAnds, this`ands, this`nexts, this`constraints,
        this`constraintsPrime, this`initState, this`bad, this`badPrime, this`primedFirst,
        this`variables, this`mapToPrime, this`mapToUnprime
    {
      TranslatedWith(Table())
    }

    /** The ranges the translation guarantees: every literal of the gates,
        next states, constraints and bad names a table entry. */
    lemma LoadedRanges()
      requires Loaded()
      ensures primedFirst == nInputs + nLatches + nAnds + 2 && primedFirst >= 2
      ensures GatesInTable(ands, |ands|, primedFirst)
      ensures forall k :: 0 <= k < |ands| ==> 2 <= ands[k].o < primedFirst
      ensures forall k :: 0 <= k < |nexts| ==> 1 <= Abs(nexts[k]) < primedFirst
      ensures forall k :: 0 <= k < |constraints| ==> 1 <= Abs(constraints[k]) < primedFirst
      ensures 1 <= Abs(bad) <= primedFirst && Abs(bad) < primedFirst + nInputs + nLatches
      ensures |nexts| == nLatches && nInputs >= 0 && nLatches >= 0
    {
      DimacsInRange(aiger);
    }

    lemma TranslatedRanges(t: Primes)
      requires TranslatedWith(t)
      ensures |t.variables| >= primedFirst + nInputs + nLatches && primedFirst == nInputs + nLatches + nAnds + 2
      ensures GatesInTable(ands, |ands|, primedFirst) && GatesInTable(ands, |ands|, |t.variables|)
      ensures forall k :: 0 <= k < |ands| ==> 2 <= ands[k].o < primedFirst
      ensures forall k :: 0 <= k < |nexts| ==> 1 <= Abs(nexts[k]) < primedFirst
      ensures forall k :: 0 <= k < |constraints| ==> 1 <= Abs(constraints[k]) < primedFirst
      ensures 1 <= Abs(bad) <= primedFirst && Abs(bad) < primedFirst + nInputs + nLatches
      ensures |nexts| == nLatches && nInputs >= 0 && nLatches >= 0
      ensures Allocatable(t) && primedFirst >= 2
    {
      LoadedRanges();
    }

    /** The shape of the translated circuit that the engine relies on
        after translate_to_dimacs: counts, literal ranges and a valid
        primed-variable table. */
    ghost predicate Shaped()
      reads this`nInputs, this`nLatches, this`nAnds, this`ands, this`nexts, this`constraints,
        this`constraintsPrime, this`bad, this`primedFirst, this`variables, this`mapToPrime, this`mapToUnprime
    {
      nInputs >= 0 && nLatches >= 0 && primedFirst == nInputs + nLatches + nAnds + 2 && primedFirst >= 2 &&
      |nexts| == nLatches && |constraintsPrime| == |constraints| &&
      GatesInTable(ands, |ands|, primedFirst) &&
      (forall k :: 0 <= k < |nexts| ==> 1 <= Abs(nexts[k]) < primedFirst) &&
      (forall k :: 0 <= k < |constraints| ==> 1 <= Abs(constraints[k]) < primedFirst) &&
      1 <= Abs(bad) <= primedFirst && Abs(bad) < primedFirst + nInputs + nLatches &&
      |variables| >= primedFirst + nInputs + nLatches && Allocatable(Table())
    }

    /** Shaped survives a change of the table alone that keeps it allocatable. */
    twostate lemma ShapedKept()
      requires old(Shaped()) && |variables| >= |old(variables)| && Allocatable(Table())
      requires unchanged(this`nInputs, this`nLatches, this`nAnds, this`ands, this`nexts, this`constraints,
        this`constraintsPrime, this`bad, this`primedFirst)
      ensures Shaped()
    {
    }

    lemma TranslatedShaped()
      requires Translated()
      ensures Shaped()
    {
      TranslatedRanges(Table());
    }

    /** Growing the table keeps the translation intact. */
    lemma TranslationKept(t: Primes, t': Primes)
      requires TranslatedWith(t) && Extends(t', t)
      requires PrimesValid(t', LastLatch(), primedFirst + nInputs + nLatches)
      ensures TranslatedWith(t')
    {
      PrimeLitOfStable(t, t', LastLatch(), primedFirst, bad);
      forall k | 0 <= k < |constraints|
        ensures HasPrimeIn(t', constraints[k], constraintsPrime[k])
      {
        PrimeLitOfStable(t, t', LastLatch(), primedFirst, constraints[k]);
      }
    }

    // -------------------------------------------------------------------------
    // prime_var / prime_lit (PDR.cpp:142-172)
    // -------------------------------------------------------------------------

    method PrimeVar(v: int) returns (r: int)
      requires CanPrime(Table(), LastLatch(), v)
      modifies this`variables, this`mapToPrime, this`mapToUnprime
      ensures (r, Table()) == PrimeVarOf(old(Table()), LastLatch(), primedFirst, v)
    {
      if v > 1 {
        if v <= 1 + nInputs + nLatches {
          r := primedFirst + v - 2;
        } else if v !in mapToPrime {
          var pv := |variables|;
          mapToPrime := mapToPrime[v := pv];
          mapToUnprime := mapToUnprime[pv := v];
          variables := variables + [Variable(pv, variables[v].name + "'")];
          r := pv;
        } else {
          r := mapToPrime[v];
        }
      } else {
        r := v;
      }
    }

    method PrimeLit(lit: int) returns (r: int)
      requires CanPrime(Table(), LastLatch(), Abs(lit))
      modifies this`variables, this`mapToPrime, this`mapToUnprime
      ensures (r, Table()) == PrimeLitOf(old(Table()), LastLatch(), primedFirst, lit)
    {
      if lit >= 0 {
        r := PrimeVar(lit);
      } else {
        r := PrimeVar(-lit);
        r := -r;
      }
    }

    // -------------------------------------------------------------------------
    // translate_to_dimacs (PDR.cpp:180-276)
    // -------------------------------------------------------------------------

    /** The table right after the primed inputs and latches are listed. */
    function FirstTable(): Primes
    {
      Primes(BaseVariables(aiger) + PrimedVariables(aiger, |BaseVariables(aiger)|), map[], map[])
    }

    /** The loading half of translate_to_dimacs: it succeeds exactly when
        the numbering is the binary one, a bad or output with the index exists
        and bad names a circuit variable, and then holds the DIMACS circuit and
        the table of NULL, False, the circuit variables and the primed inputs
        and latches. */
    method LoadCircuit() returns (ok: bool)
      requires ConsistentCounts(aiger) && Fits(aiger) && LiteralsInRange(aiger)
      modifies this`nInputs, this`nLatches, this`nAnds, this`variables, this`ands, this`nexts, this`constraints,
        this`initState, this`bad, this`primedFirst, this`mapToPrime, this`mapToUnprime
      ensures ok <==> TranslationDefined(aiger, propertyIndex)
      ensures ok ==> Loaded() && Table() == FirstTable()
    {
      var vars, gates, nx, initial, cs, b;
      ok, vars, gates, nx, initial, cs, b := LoadAll(aiger, propertyIndex);
      if ok {
        StoreCircuit(gates, nx, initial, cs, b);
        StoreTable(vars, |BaseVariables(aiger)|);
      }
    }

    /** The circuit fields translate_to_dimacs fills in while loading. */
    method StoreCircuit(gates: seq<And>, nx: seq<int>, initial: seq<int>, cs: seq<int>, b: int)
      modifies this`nInputs, this`nLatches, this`nAnds, this`ands, this`nexts, this`constraints, this`initState,
        this`bad
      ensures (nInputs, nLatches, nAnds, ands, nexts, initState, constraints, bad) ==
        (aiger.numInputs, aiger.numLatches, aiger.numAnds, gates, nx, initial, cs, b)
    {
      nInputs, nLatches, nAnds, ands, nexts, initState, constraints, bad :=
        aiger.numInputs, aiger.numLatches, aiger.numAnds, gates, nx, initial, cs, b;
    }

    /** The variable table after the primed inputs and latches are listed,
        with no gate primed yet. */
    method StoreTable(vars: seq<Variable>, pf: int)
      modifies this`variables, this`primedFirst, this`mapToPrime, this`mapToUnprime
      ensures primedFirst == pf && Table() == Primes(vars, map[], map[])
    {
      variables, primedFirst, mapToPrime, mapToUnprime := vars, pf, map[], map[];
    }

    /** The primed copy of gate a: prime_lit on its output, then on each
        operand. */
    method PrimeGateStep(a: And) returns (pa: And)
      requires Allocatable(Table()) && 1 <= Abs(a.o) < |variables| && 1 <= Abs(a.i1) < |variables| &&
        1 <= Abs(a.i2) < |variables|
      modifies this`variables, this`mapToPrime, this`mapToUnprime
      ensures (pa, Table()) == PrimeGate(old(Table()), LastLatch(), primedFirst, a)
    {
      var po := PrimeLit(a.o);
      var pi1 := PrimeLit(a.i1);
      var pi2 := PrimeLit(a.i2);
      pa := And(po, pi1, pi2);
    }

    /** prime_lit(bad), then prime_lit of each constraint in order. */
    method PrimeInterface()
      requires Allocatable(Table()) && 1 <= Abs(bad) < |variables|
      requires forall k :: 0 <= k < |constraints| ==> 1 <= Abs(constraints[k]) < |variables|
      modifies this`badPrime, this`constraintsPrime, this`variables, this`mapToPrime, this`mapToUnprime
      ensures var b := PrimeLitOf(old(Table()), LastLatch(), primedFirst, bad);
        var cs := PrimeAll(b.1, LastLatch(), primedFirst, constraints);
        badPrime == b.0 && constraintsPrime == cs.0 && Table() == cs.1
    {
      var bp := PrimeLit(bad);
      var cps := PrimeConstraints();
      badPrime, constraintsPrime := bp, cps;
    }

    /** prime_lit of each constraint in order. */
    method PrimeConstraints() returns (cps: seq<int>)
      requires Allocatable(Table()) && forall k :: 0 <= k < |constraints| ==> 1 <= Abs(constraints[k]) < |variables|
      modifies this`variables, this`mapToPrime, this`mapToUnprime
      ensures (cps, Table()) == PrimeAll(old(Table()), LastLatch(), primedFirst, constraints)
    {
      cps := [];
      var i := 0;
      while i < |constraints|
        invariant 0 <= i <= |constraints|
        invariant (cps, Table()) == PrimeAll(old(Table()), LastLatch(), primedFirst, constraints[..i])
        invariant Allocatable(Table()) && Extends(Table(), old(Table()))
      {
        cps := PrimeNext(old(Table()), i, cps);
        i := i + 1;
      }
      assert constraints[..i] == constraints;
    }

    /** One round of PrimeConstraints: the i-th constraint primed and
        appended. */
    method PrimeNext(ghost t0: Primes, i: int, cps: seq<int>) returns (cps': seq<int>)
      requires Allocatable(t0) && forall k :: 0 <= k < |constraints| ==> 1 <= Abs(constraints[k]) < |t0.variables|
      requires 0 <= i < |constraints| && Allocatable(Table()) && Extends(Table(), t0)
      requires (cps, Table()) == PrimeAll(t0, LastLatch(), primedFirst, constraints[..i])
      modifies this`variables, this`mapToPrime, this`mapToUnprime
      ensures (cps', Table()) == PrimeAll(t0, LastLatch(), primedFirst, constraints[..i + 1])
      ensures Allocatable(Table()) && Extends(Table(), t0)
    {
      assert constraints[..i + 1][..i] == constraints[..i];
      assert CanPrime(Table(), LastLatch(), Abs(constraints[i]));
      var pl := PrimeLit(constraints[i]);
      cps' := cps + [pl];
    }

    /** Priming bad and the constraints from the first table establishes the
        translation invariant. */
    lemma InterfacePrimed()
      requires Loaded() && 1 <= Abs(bad) < primedFirst + nInputs + nLatches
      requires forall k :: 0 <= k < |constraints| ==> 1 <= Abs(constraints[k]) < primedFirst
      requires var b := PrimeLitOf(FirstTable(), LastLatch(), primedFirst, bad);
        var cs := PrimeAll(b.1, LastLatch(), primedFirst, constraints);
        badPrime == b.0 && constraintsPrime == cs.0 && Table() == cs.1
      ensures Translated()
    {
      var ff := primedFirst + nInputs + nLatches;
      VariablesIndexed(aiger);
      assert PrimesValid(FirstTable(), LastLatch(), ff);
      PrimedInterfaceHeld(FirstTable(), LastLatch(), ff, primedFirst, bad, constraints);
      assert forall k :: 0 <= k < |constraints| ==> HasPrimeIn(Table(), constraints[k], constraintsPrime[k]);
    }

    /** translate_to_dimacs: loading, then priming bad and the constraints. */
    method TranslateToDimacs() returns (ok: bool)
      requires ConsistentCounts(aiger) && Fits(aiger) && LiteralsInRange(aiger)
      modifies this`nInputs, this`nLatches, this`nAnds, this`variables, this`ands, this`nexts, this`constraints,
        this`constraintsPrime, this`initState, this`bad, this`badPrime, this`primedFirst, this`mapToPrime,
        this`mapToUnprime
      ensures ok <==> TranslationDefined(aiger, propertyIndex)
      ensures ok ==> Translated() && Shaped()
      ensures ok ==> var b := PrimeLitOf(FirstTable(), LastLatch(), primedFirst, bad);
        var cs := PrimeAll(b.1, LastLatch(), primedFirst, constraints);
        badPrime == b.0 && constraintsPrime == cs.0 && Table() == cs.1
    {
      ok := LoadCircuit();
      if ok {
        PrimeTranslation();
      }
    }

    /** The priming half of translate_to_dimacs, after loading. */
    method PrimeTranslation()
      requires Loaded() && Table() == FirstTable()
      modifies this`badPrime, this`constraintsPrime, this`variables, this`mapToPrime, this`mapToUnprime
      ensures Translated() && Shaped()
      ensures var b := PrimeLitOf(FirstTable(), LastLatch(), primedFirst, bad);
        var cs := PrimeAll(b.1, LastLatch(), primedFirst, constraints);
        badPrime == b.0 && constraintsPrime == cs.0 && Table() == cs.1
    {
      LoadedRanges();
      PrimeInterface();
      InterfacePrimed();
      TranslatedShaped();
    }

    // -------------------------------------------------------------------------
    // The encoders (PDR.cpp:478-605)
    // -------------------------------------------------------------------------

    /** I: the constant, the reset literals, the constraints and the cone of
        the constraints, walked with the operands entered with their sign
        (see WalkSigned and SignedWalkSkipsNegatedFanin). */
    function InitCnf(): seq<int>
      reads this`initState, this`constraints, this`ands
    {
      [-1, 0] + UnitStream(initState) + UnitStream(constraints) + WalkSigned(ands, |ands|, AbsSet(constraints))
    }

    method EncodeInitCondition(s: CaDiCaL)
      requires s.Valid()
      modifies s`added, s`nv
      ensures s.Valid() && s.added == old(s.added) + InitCnf()
    {
      ghost var s0 := s.added;
      AddAll(s, [-1, 0]);
      AddUnits(s, initState);
      AddUnits(s, constraints);
      ghost var s1 := s.added;
      assert s1 == s0 + ([-1, 0] + UnitStream(initState) + UnitStream(constraints));
      var litSet := AbsSet(constraints);
      AddSignedWalk(s, ands, litSet);
    }

    /** The cone of |bad|, gate by gate. */
    method EncodeBadState(s: CaDiCaL)
      requires s.Valid()
      modifies s`added, s`nv
      ensures s.Valid() && s.added == old(s.added) + ConeStream(ands, {Abs(bad)}, |ands|)
    {
      AddWalk(s, ands, {Abs(bad)});
      WalkFromRoots(ands, {Abs(bad)});
    }

    function PrimedRoots(): set<int>
      reads this`bad, this`constraints
    {
      {Abs(bad)} + AbsSet(constraints)
    }

    function TranslationRoots(): set<int>
      reads this`bad, this`constraints, this`nexts
    {
      PrimedRoots() + AbsSet(nexts)
    }

    /** The head of the stream encode_translation feeds satelite: the
        constant, -bad, the constraints and the latch/next links. */
    function TranslationHeader(): seq<int>
      reads this`bad, this`constraints, this`nexts, this`nInputs, this`primedFirst
    {
      [-1, 0, -bad, 0] + UnitStream(constraints) + LatchLinks(nexts, nInputs, primedFirst)
    }

    function FreezeList(): seq<int>
      reads this`nInputs, this`nLatches, this`primedFirst, this`bad, this`badPrime, this`constraints,
        this`constraintsPrime
      requires |constraints| == |constraintsPrime| && nInputs + nLatches >= 0
    {
      LatchFreeze(nInputs + nLatches, primedFirst) + [Abs(bad), Abs(badPrime)] + PairFreeze(constraints, constraintsPrime)
    }

    /** The literals encode_translation hands to set_frozen: inputs,
        latches, bad, the constraints and all their primed copies. Priming
        an input or latch leaves the table as it is. */
    method FreezeInterface() returns (fl: seq<int>)
      requires Allocatable(Table()) && nInputs >= 0 && nLatches >= 0 && |constraints| == |constraintsPrime|
      modifies this`variables, this`mapToPrime, this`mapToUnprime
      ensures Table() == old(Table()) && fl == FreezeList()
    {
      fl := [];
      var i := 1;
      while i <= nInputs + nLatches
        invariant 1 <= i <= nInputs + nLatches + 1 && fl == LatchFreeze(i - 1, primedFirst)
        invariant Table() == old(Table())
      {
        PrimeVarOfInputsAndLatches(Table(), LastLatch(), primedFirst, 1 + i);
        var pv := PrimeVar(1 + i);
        fl := fl + [1 + i, pv];
        i := i + 1;
      }
      fl := fl + [Abs(bad), Abs(badPrime)];
      i := 0;
      while i < |constraints|
        invariant 0 <= i <= |constraints|
        invariant fl == LatchFreeze(nInputs + nLatches, primedFirst) + [Abs(bad), Abs(badPrime)] +
          PairFreeze(constraints[..i], constraintsPrime[..i])
      {
        assert constraints[..i + 1][..i] == constraints[..i];
        assert constraintsPrime[..i + 1][..i] == constraintsPrime[..i];
        fl := fl + [Abs(constraints[i]), Abs(constraintsPrime[i])];
        i := i + 1;
      }
      assert constraints[..i] == constraints && constraintsPrime[..i] == constraintsPrime;
    }

    /** The head of the translation stream; the latch primes are arithmetic
        and leave the table as it is. */
    method BuildHeader() returns (st: seq<int>)
      requires Allocatable(Table()) && nInputs >= 0 && nLatches >= 0 && primedFirst >= 2 && |nexts| == nLatches
      modifies this`variables, this`mapToPrime, this`mapToUnprime
      ensures Table() == old(Table()) && st == TranslationHeader()
    {
      st := [-1, 0, -bad, 0];
      var i := 0;
      while i < |constraints|
        invariant 0 <= i <= |constraints| && st == [-1, 0, -bad, 0] + UnitStream(constraints[..i])
      {
        assert constraints[..i + 1][..i] == constraints[..i];
        st := st + [constraints[i], 0];
        i := i + 1;
      }
      assert constraints[..i] == constraints;
      i := 0;
      while i < nLatches
        invariant 0 <= i <= nLatches && Table() == old(Table())
        invariant st == [-1, 0, -bad, 0] + UnitStream(constraints) + LatchLinks(nexts[..i], nInputs, primedFirst)
      {
        var l := 1 + nInputs + i + 1;
        PrimeLatchIsPrimeLit(Table(), nInputs, nLatches, primedFirst, l);
        var pl := PrimeLit(l);
        var next := nexts[i];
        assert nexts[..i + 1][..i] == nexts[..i];
        st := st + [-pl, next, 0, -next, pl, 0];
        i := i + 1;
      }
      assert nexts[..i] == nexts;
    }

    /** One gate of the cone walk, ands[j - 1]: its clauses (and its primed
        copy's, allocating the primed variables) when it is in the cone. */
    method WalkGate(j: int, litSet: set<int>, primeLitSet: set<int>)
      returns (added: seq<int>, litSet': set<int>, primeLitSet': set<int>)
      requires 1 <= j <= |ands| && GatesInTable(ands, j, |variables|) && Allocatable(Table())
      modifies this`variables, this`mapToPrime, this`mapToUnprime
      ensures GatesInTable(ands, j - 1, |variables|) && Allocatable(Table())
      ensures var rest := TranslationWalk(ands, j - 1, litSet', primeLitSet', Table(), LastLatch(), primedFirst);
        TranslationWalk(ands, j, litSet, primeLitSet, old(Table()), LastLatch(), primedFirst) == (added + rest.0, rest.1)
    {
      var a := ands[j - 1];
      assert GatesInTable(ands, j - 1, |variables|);
      litSet', primeLitSet' := litSet, primeLitSet;
      if a.o in litSet {
        ghost var n0 := |variables|;
        litSet' := litSet + Operands(a);
        if a.o in primeLitSet {
          var pa := PrimeGateStep(a);
          primeLitSet' := primeLitSet + Operands(a);
          added := GateClauses(a) + GateClauses(pa);
          GatesInLargerTable(ands, j - 1, n0, |variables|);
        } else {
          added := GateClauses(a);
        }
      } else {
        added := [];
        assert added + TranslationWalk(ands, j - 1, litSet', primeLitSet', Table(), LastLatch(), primedFirst).0
          == TranslationWalk(ands, j - 1, litSet', primeLitSet', Table(), LastLatch(), primedFirst).0;
      }
    }

    /** The cone walk of encode_translation: the unprimed cone of next
        states, bad and constraints, and the primed copy of the cone of bad
        and the constraints, allocating primed gate variables on the way. */
    method WalkTranslation() returns (w: seq<int>)
      requires GatesInTable(ands, |ands|, |variables|) && Allocatable(Table())
      modifies this`variables, this`mapToPrime, this`mapToUnprime
      ensures (w, Table()) ==
        TranslationWalk(ands, |ands|, TranslationRoots(), PrimedRoots(), old(Table()), LastLatch(), primedFirst)
    {
      var primeLitSet := PrimedRoots();
      var litSet := TranslationRoots();
      ghost var target :=
        TranslationWalk(ands, |ands|, litSet, primeLitSet, Table(), LastLatch(), primedFirst);
      w := [];
      var j := |ands|;
      while j > 0
        invariant 0 <= j <= |ands|
        invariant GatesInTable(ands, j, |variables|) && Allocatable(Table())
        invariant w + TranslationWalk(ands, j, litSet, primeLitSet, Table(), LastLatch(), primedFirst).0 == target.0
        invariant TranslationWalk(ands, j, litSet, primeLitSet, Table(), LastLatch(), primedFirst).1 == target.1
      {
        ghost var w0 := w;
        ghost var step := TranslationWalk(ands, j, litSet, primeLitSet, Table(), LastLatch(), primedFirst);
        var added;
        added, litSet, primeLitSet := WalkGate(j, litSet, primeLitSet);
        w := w + added;
        ghost var rest := TranslationWalk(ands, j - 1, litSet, primeLitSet, Table(), LastLatch(), primedFirst).0;
        assert (w0 + added) + rest == w0 + (added + rest);
        j := j - 1;
      }
      assert w + [] == w;
    }

    /** sat was fed `stream`, frozen at the interface variables, and holds
        its simplified image. */
    ghost predicate SateliteHolds(sat: MinisatSimp, stream: seq<int>)
      reads this`nInputs, this`nLatches, this`primedFirst, this`bad, this`badPrime, this`constraints,
        this`constraintsPrime, sat
    {
      sat.oracle == minisat && sat.nVars >= 0 &&
      (sat.clauses, sat.clause) == Feed(([], []), stream) &&
      |constraints| == |constraintsPrime| && nInputs + nLatches >= 0 &&
      sat.frozen == FrozenVars(FreezeList()) &&
      sat.simplifiedCnf == SimplifiedCnf(sat.nVars,
        minisat.eliminate(sat.clauses, sat.frozen).0, minisat.eliminate(sat.clauses, sat.frozen).1)
    }

    ghost predicate SateliteReady()
      reads this`satelite, this`sateliteStream, this`nInputs, this`nLatches, this`primedFirst, this`bad,
        this`badPrime, this`constraints, this`constraintsPrime, satelite
      requires satelite != null
    {
      SateliteHolds(satelite, sateliteStream)
    }

    /** The translation stream of encode_translation: header, then the cone
        walk from the table t. */
    ghost function TranslationStream(t: Primes): (seq<int>, Primes)
      reads this`bad, this`constraints, this`nexts, this`nInputs, this`nLatches, this`primedFirst, this`ands
      requires GatesInTable(ands, |ands|, |t.variables|) && Allocatable(t)
    {
      var w := TranslationWalk(ands, |ands|, TranslationRoots(), PrimedRoots(), t, LastLatch(), primedFirst);
      (TranslationHeader() + w.0, w.1)
    }

    /** The first half of encode_translation: a simplifier sized to the
        table, with the interface frozen, fed the translation stream and
        simplified. The stream and the frozen list are computed before the
        simplifier is fed; the source feeds it while it primes, with the same
        clauses in the same order, and freezes before it primes gates, which
        makes no difference as inputs and latches prime without growing the
        table. */
    method BuildSatelite() returns (sat: MinisatSimp, stream: seq<int>)
      requires Allocatable(Table()) && GatesInTable(ands, |ands|, |variables|)
      requires nInputs >= 0 && nLatches >= 0 && primedFirst >= 2 && |nexts| == nLatches
      requires |constraints| == |constraintsPrime|
      modifies this`variables, this`mapToPrime, this`mapToUnprime
      ensures fresh(sat) && SateliteHolds(sat, stream)
      ensures (stream, Table()) == TranslationStream(old(Table()))
      ensures Allocatable(Table()) && |variables| >= |old(variables)|
    {
      var size := |variables| - 1;
      var fl;
      stream, fl := StreamAndFreeze();
      sat := SimplifierFor(size, fl, stream);
    }

    /** The simplifier fed the stream with the interface frozen. */
    method SimplifierFor(size: int, fl: seq<int>, stream: seq<int>) returns (sat: MinisatSimp)
      requires |constraints| == |constraintsPrime| && nInputs >= 0 && nLatches >= 0 && fl == FreezeList()
      ensures fresh(sat) && SateliteHolds(sat, stream)
    {
      sat := NewSimplifier(minisat, size, fl, stream);
    }

    /** The clause stream of encode_translation and the literals it
        freezes. */
    method StreamAndFreeze() returns (stream: seq<int>, fl: seq<int>)
      requires Allocatable(Table()) && GatesInTable(ands, |ands|, |variables|)
      requires nInputs >= 0 && nLatches >= 0 && primedFirst >= 2 && |nexts| == nLatches
      requires |constraints| == |constraintsPrime|
      modifies this`variables, this`mapToPrime, this`mapToUnprime
      ensures (stream, Table()) == TranslationStream(old(Table())) && fl == FreezeList()
      ensures Allocatable(Table()) && |variables| >= |old(variables)|
    {
      ghost var t0 := Table();
      var h := BuildHeader();
      var w := WalkTranslation();
      stream := h + w;
      assert (stream, Table()) == TranslationStream(t0);
      fl := FreezeInterface();
    }

    /** The first call builds and simplifies satelite; later calls find it
        built and change nothing. */
    method PrepareSatelite()
      requires Allocatable(Table()) && GatesInTable(ands, |ands|, |variables|)
      requires nInputs >= 0 && nLatches >= 0 && primedFirst >= 2 && |nexts| == nLatches
      requires |constraints| == |constraintsPrime|
      modifies this`satelite, this`variables, this`mapToPrime, this`mapToUnprime, this`sateliteStream
      ensures satelite != null && Allocatable(Table()) && |variables| >= |old(variables)|
      ensures old(satelite) != null ==>
        satelite == old(satelite) && Table() == old(Table()) && sateliteStream == old(sateliteStream)
      ensures old(satelite) == null ==> fresh(satelite) && SateliteReady()
    {
      if satelite == null {
        var sat, st := BuildSatelite();
        SetSatelite(sat, st);
      }
    }

    /** Keeps the simplifier just built and the stream it was fed. */
    method SetSatelite(sat: MinisatSimp, stream: seq<int>)
      requires SateliteHolds(sat, stream)
      modifies this`satelite, this`sateliteStream
      ensures satelite == sat && sateliteStream == stream && SateliteReady()
    {
      satelite, sateliteStream := sat, stream;
    }

    /** encode_translation: satelite's simplified formula copied into s. */
    method EncodeTranslation(s: CaDiCaL)
      requires Shaped() && s.Valid()
      modifies this`satelite, this`variables, this`mapToPrime, this`mapToUnprime, this`sateliteStream, s`added, s`nv
      ensures Shaped() && satelite != null
      ensures old(satelite) != null ==>
        satelite == old(satelite) && Table() == old(Table()) && sateliteStream == old(sateliteStream)
      ensures old(satelite) == null ==> fresh(satelite)
      ensures s.Valid() && s.added == old(s.added) + satelite.simplifiedCnf
    {
      assert GatesInTable(ands, |ands|, |variables|);
      label start:
      PrepareSatelite();
      ShapedKept@start();
      AddAll(s, satelite.simplifiedCnf);
    }

    // -------------------------------------------------------------------------
    // Engine invariant
    // -------------------------------------------------------------------------

    ghost function SateliteObject(): set<MinisatSimp>
      reads this`satelite
    {
      if satelite == null then {} else {satelite}
    }

    /** A CaDiCaL of this engine: consistent max_var, ipasir answers, and no
        assumptions left over. */
    ghost predicate Ready(s: CaDiCaL)
      reads s
    {
      s.Valid() && s.oracle == ipasir && s.pending == []
    }

    /** Cubes only mention latches: those of the frames and of their pushed
        sets, on which prime_lit is PrimeLatch (PrimeLatchIsPrimeLit). */
    ghost predicate FramesOk()
      reads this`frames, this`solvers, this`lift, this`init, this`Repr, Repr, this`nInputs, this`nLatches
    {
      |solvers| == |frames| &&
      (forall i :: 0 <= i < |frames| ==> CubeSet(frames[i].cubes) && CubeSet(frames[i].succPush)) &&
      (forall i :: 0 <= i < |frames| ==>
        LatchCubes(frames[i].cubes, nInputs, nLatches) && LatchCubes(frames[i].succPush, nInputs, nLatches)) &&
      (forall i :: 0 <= i < |solvers| ==> solvers[i] in Repr && Ready(solvers[i])) &&
      (forall i, j :: 0 <= i < j < |solvers| ==> solvers[i] != solvers[j]) &&
      (forall i :: 0 <= i < |solvers| ==> solvers[i] != lift && solvers[i] != init)
    }

    ghost predicate AuxOk()
      reads this`lift, this`init, this`initState, this`constraints, this`ands, this`Repr, Repr
    {
      (lift != null ==> lift in Repr && Ready(lift)) &&
      (init != null ==> init in Repr && Ready(init) && init.added == InitCnf()) &&
      (lift != null && init != null ==> lift != init)
    }

    /** The engine invariant: the solver answers the model relies on, and
        well-formed frames and auxiliary solvers. */
    ghost predicate Valid()
      reads this`ands, this`constraints, this`initState, this`satelite, this`frames, this`solvers, this`lift,
        this`init, this`Repr, Repr, this`nInputs, this`nLatches, this`earliestStrengthenedFrame
    {
      ValNamesVariable(ipasir) && OrderPermutes(order) &&
      (|frames| > 0 ==> satelite != null) && earliestStrengthenedFrame >= 1 &&
      FramesOk() && AuxOk()
    }

    // -------------------------------------------------------------------------
    // new_frame (PDR.cpp:329-338)
    // -------------------------------------------------------------------------

    /** The solver of a new frame: the simplified translation and the
        primed constraints as units. */
    method FrameSolver() returns (solver: CaDiCaL)
      requires Shaped()
      modifies this`satelite, this`variables, this`mapToPrime, this`mapToUnprime, this`sateliteStream
      ensures fresh(solver) && Ready(solver) && Shaped() && satelite != null
      ensures solver.added == satelite.simplifiedCnf + UnitStream(constraintsPrime)
      ensures old(satelite) != null ==> satelite == old(satelite) && Table() == old(Table())
    {
      solver := new CaDiCaL(ipasir);
      EncodeTranslation(solver);
      AddUnits(solver, constraintsPrime);
    }

    /** Appending a frame with a fresh, ready solver and no cubes keeps the
        engine invariant. */
    twostate lemma PushKept(new s: CaDiCaL)
      requires old(Valid()) && satelite != null && fresh(s) && Ready(s)
      requires frames == old(frames) + [Frame([], [])] && solvers == old(solvers) + [s]
      requires lift == old(lift) && init == old(init)
      requires Repr == old(Repr) + {s} && unchanged(old(Repr))
      requires unchanged(this`initState, this`constraints, this`ands, this`nInputs, this`nLatches,
        this`earliestStrengthenedFrame)
      ensures Valid()
    {
      assert forall i :: 0 <= i < |old(frames)| ==> frames[i] == old(frames)[i];
      assert forall i :: 0 <= i < |old(solvers)| ==> solvers[i] == old(solvers)[i];
    }

    /** A new top frame: no cubes, and a fresh solver holding the simplified
        translation and the primed constraints as units. */
    method NewFrame()
      requires Valid() && Shaped()
      modifies this`frames, this`solvers, this`Repr, this`satelite, this`variables, this`mapToPrime,
        this`mapToUnprime, this`sateliteStream
      ensures Valid() && Shaped()
      ensures frames == old(frames) + [Frame([], [])] && solvers[..|old(solvers)|] == old(solvers)
      ensures |solvers| == |old(solvers)| + 1 && var s := solvers[|solvers| - 1];
        fresh(s) && s.added == satelite.simplifiedCnf + UnitStream(constraintsPrime)
      ensures old(satelite) != null ==> satelite == old(satelite) && Table() == old(Table())
      ensures lift == old(lift) && init == old(init)
    {
      label start:
      var solver := FrameSolver();
      PushFrame(solver);
      PushKept@start(solver);
    }

    /** Appends an empty frame with solver s. */
    method PushFrame(s: CaDiCaL)
      modifies this`frames, this`solvers, this`Repr
      ensures frames == old(frames) + [Frame([], [])] && solvers == old(solvers) + [s] && Repr == old(Repr) + {s}
    {
      frames, solvers, Repr := frames + [Frame([], [])], solvers + [s], Repr + {s};
    }

    // -------------------------------------------------------------------------
    // is_init (PDR.cpp:368-378)
    // -------------------------------------------------------------------------

    /** The answer of is_init: SAT?[I /\ latches] on the solver holding I. */
    function InitMeets(latches: seq<int>): bool
      reads this`initState, this`constraints, this`ands
    {
      ipasir.solve(InitCnf(), latches) == SAT
    }

    /** A step that changes one solver of the engine and the scores alone keeps
        the invariant. */
    twostate lemma LiftKeptValid(s: CaDiCaL)
      requires old(Valid()) && s in old(Repr) && Ready(s) && s != old(init)
      requires unchanged(this`nInputs, this`nLatches, this`earliestStrengthenedFrame, this`ands, this`constraints,
        this`initState, this`satelite,
        this`frames, this`solvers, this`lift, this`init, this`Repr) && unchanged(old(Repr) - {s})
      ensures Valid()
    {
    }

    /** Changes outside the fields the invariant reads keep it. */
    twostate lemma ValidKept()
      requires old(Valid())
      requires unchanged(this`nInputs, this`nLatches, this`earliestStrengthenedFrame, this`ands, this`constraints,
        this`initState, this`satelite, this`frames, this`solvers, this`lift, this`init, this`Repr) && unchanged(old(Repr))
      ensures Valid()
    {
    }

    /** A step that changes one solver of the engine and leaves it ready
        (and, for the solver of I, with the same clauses) keeps the invariant. */
    twostate lemma SolverKept(s: CaDiCaL)
      requires old(Valid()) && s in old(Repr) && Ready(s)
      requires s == old(init) ==> s.added == old(s.added)
      requires unchanged(this) && unchanged(old(Repr) - {s})
      ensures Valid()
    {
    }

    /** Installing a fresh, ready solver holding I as init keeps the
        invariant. */
    twostate lemma InitKept(new s: CaDiCaL)
      requires old(Valid()) && old(init) == null && fresh(s) && Ready(s) && s.added == InitCnf()
      requires init == s && Repr == old(Repr) + {s} && unchanged(old(Repr))
      requires unchanged(this`nInputs, this`nLatches, this`earliestStrengthenedFrame, this`ands, this`constraints,
        this`initState, this`satelite,
        this`frames, this`solvers, this`lift)
      ensures Valid()
    {
    }

    /** The solver of I, built on first use. */
    method InitSolver()
      requires Valid()
      modifies this`init, this`Repr
      ensures Valid() && init != null
      ensures old(init) != null ==> init == old(init)
      ensures old(init) == null ==> fresh(init)
    {
      if init == null {
        label start:
        var s := new CaDiCaL(ipasir);
        EncodeInitCondition(s);
        init, Repr := s, Repr + {s};
        InitKept@start(s);
      }
    }

    /** is_init: assume the literals on the solver of I and report a
        satisfiable answer. */
    method IsInit(latches: seq<int>) returns (r: bool)
      requires Valid()
      modifies this`init, this`Repr, init
      ensures Valid() && init != null && r == InitMeets(latches)
      ensures old(init) != null ==> init == old(init)
      ensures old(init) == null ==> fresh(init)
    {
      InitSolver();
      r := InitQuery(latches);
    }

    /** The query of is_init on the solver of I once it exists. */
    method InitQuery(latches: seq<int>) returns (r: bool)
      requires Valid() && init != null
      modifies init
      ensures Valid() && r == InitMeets(latches)
    {
      assert init.added == InitCnf() && init.oracle == ipasir && init.pending == [];
      label ready:
      AssumeAll(init, latches);
      assert init.pending == latches;
      var res := init.Solve();
      assert res == ipasir.solve(InitCnf(), latches);
      SolverKept@ready(init);
      r := res == SAT;
    }

    // -------------------------------------------------------------------------
    // is_inductive (PDR.cpp:384-476)
    // -------------------------------------------------------------------------

    /** The pc shortcut on frames f: with use_pc, the first pushed cube of
        frame fi that std::includes finds inside latches. */
    function HitIn(f: seq<Frame>, fi: int, latches: Cube): Option<Cube>
      requires 0 <= fi < |f|
    {
      if usePc then FirstIncluded(f[fi].succPush, latches) else None
    }

    /** The cube is_inductive asks about on frames f: the pc hit, or
        latches itself. */
    function QueryIn(f: seq<Frame>, fi: int, latches: Cube): Cube
      requires 0 <= fi < |f|
    {
      match HitIn(f, fi, latches)
      case Some(c) => c
      case None => latches
    }

    function PcHit(fi: int, latches: Cube): Option<Cube>
      requires 0 <= fi < |frames|
      reads this`frames
    {
      HitIn(frames, fi, latches)
    }

    function QueryCube(fi: int, latches: Cube): Cube
      requires 0 <= fi < |frames|
      reads this`frames
    {
      QueryIn(frames, fi, latches)
    }

    /** The assumptions after act: the cube primed, in reversed heuristic
        order (use_heuristic is fixed to 1, reverse_assumption is always true). */
    function QueryAssumptions(q: Cube): seq<int>
      reads this`primedFirst, this`epoch
    {
      PrimeCube(Reverse(order(q, epoch)), primedFirst)
    }

    /** The core of a successful query q whose solve saw the clauses added
        and the assumptions assumed: the literals whose primed form failed,
        or q itself when that part meets I. */
    function CoreOf(q: Cube, added: seq<int>, assumed: seq<int>): Cube
      reads this`initState, this`constraints, this`ands, this`primedFirst
    {
      var f := FailedCore(q, ipasir, added, assumed, primedFirst);
      if InitMeets(f) then q else f
    }

    /** After the query of q on s, which held the clauses before: the
        clause ¬act \/ ¬q with a fresh act, the solve under act and the
        primed assumptions, and its answer r (true without asking on a pc
        hit). */
    ghost predicate Queried(added: seq<int>, lastAdded: seq<int>, lastAssumed: seq<int>, before: seq<int>,
                            q: Cube, assumptions: seq<int>, hit: bool, r: bool)
    {
      var act := MaxAbs(before) + 1;
      added == before + ([-act] + Negated(q) + [0]) &&
      lastAdded == added && lastAssumed == [act] + assumptions &&
      r == (hit || ipasir.solve(added, lastAssumed) == UNSAT)
    }

    /** The query of is_inductive on frame fi: whether F_fi /\ T /\ ¬q /\ q'
        is unsatisfiable for the queried cube q (the pc hit or latches), by
        a fresh activation literal act guarding ¬q. clear_act and
        set_clear_act on a frame's solver are the empty members of SATSolver. */
    method QueryFrame(fi: int, latches: Cube) returns (r: bool, q: Cube)
      requires Valid() && 0 <= fi < |frames|
      requires OnLatches(latches)
      modifies solvers[fi]
      ensures Valid() && q == QueryCube(fi, latches) && OnLatches(q)
      ensures var s := solvers[fi];
        Queried(s.added, s.lastAdded, s.lastAssumed, old(s.added), q, QueryAssumptions(q), PcHit(fi, latches).Some?, r)
    {
      var hit;
      q, hit := PickQuery(fi, latches);
      r := SolveQuery(fi, q, hit);
    }

    /** The cube is_inductive queries: with use_pc, the first pushed cube of
        frame fi inside latches, when there is one; otherwise latches. */
    method PickQuery(fi: int, latches: Cube) returns (q: Cube, hit: bool)
      requires Valid() && 0 <= fi < |frames| && OnLatches(latches)
      ensures q == QueryCube(fi, latches) && OnLatches(q) && hit == PcHit(fi, latches).Some?
    {
      q, hit := latches, false;
      if usePc {
        var found := FindIncluded(frames[fi].succPush, latches);
        if found.Some? {
          q, hit := found.value, true;
          var j :| 0 <= j < |frames[fi].succPush| && frames[fi].succPush[j] == q;
        }
      }
    }

    /** The solve of is_inductive for the queried cube q on frame fi; true
        without asking on a pc hit. */
    method SolveQuery(fi: int, q: Cube, hit: bool) returns (r: bool)
      requires Valid() && 0 <= fi < |frames| && OnLatches(q)
      modifies solvers[fi]
      ensures Valid()
      ensures var s := solvers[fi];
        Queried(s.added, s.lastAdded, s.lastAssumed, old(s.added), q, QueryAssumptions(q), hit, r)
    {
      var s := solvers[fi];
      assert Ready(s) && s != init;
      ghost var before := s.added;
      label ready:
      var act, status := ActQuery(s, Negated(q), PrimeCube(Reverse(order(q, epoch)), primedFirst));
      SolverKept@ready(s);
      r := hit || status == UNSAT;
      assert act == MaxAbs(before) + 1;
      assert s.added == before + ([-act] + Negated(q) + [0]);
      assert s.lastAdded == s.added;
      assert s.lastAssumed == [act] + QueryAssumptions(q);
      assert s.oracle == ipasir;
    }

    /** is_inductive on frame fi: the query, and, with genCore and a
        successful query, the core it leaves in core. */
    method IsInductive(fi: int, latches: Cube, genCore: bool) returns (r: bool)
      requires Valid() && 0 <= fi < |frames|
      requires OnLatches(latches)
      modifies this`core, this`init, this`Repr, init, solvers[fi]
      ensures Valid()
      ensures old(init) != null ==> init == old(init)
      ensures old(init) == null ==> init == null || fresh(init)
      ensures var s, q := solvers[fi], QueryCube(fi, latches);
        Queried(s.added, s.lastAdded, s.lastAssumed, old(s.added), q, QueryAssumptions(q), PcHit(fi, latches).Some?, r) &&
        core == (if r && genCore then CoreOf(q, s.lastAdded, s.lastAssumed) else old(core))
      ensures r && genCore ==> |core| <= |latches| && forall x :: x in core ==> x in latches
      ensures r && genCore ==> init != null
      ensures var s, q := solvers[fi], old(QueryCube(fi, latches));
        Queried(s.lastAdded, s.lastAdded, s.lastAssumed, old(s.added), q, QueryAssumptions(q), old(PcHit(fi, latches)).Some?, r)
    {
      ghost var s := solvers[fi];
      ghost var before := s.added;
      var q;
      r, q := QueryFrame(fi, latches);
      assert Queried(s.added, s.lastAdded, s.lastAssumed, before, q, QueryAssumptions(q), PcHit(fi, latches).Some?, r);
      if r && genCore {
        assert s != init;
        label query:
        GenCore(fi, q);
        assert unchanged@query(s);
        if PcHit(fi, latches).Some? {
          SubCubeOf(q, latches);
        }
      }
    }

    /** The core step of is_inductive after a successful query q on frame
        fi: the literals whose primed form failed, or q when they meet I. */
    method GenCore(fi: int, q: Cube)
      requires Valid() && 0 <= fi < |frames|
      modifies this`core, this`init, this`Repr, init
      ensures Valid() && core == CoreOf(q, solvers[fi].lastAdded, solvers[fi].lastAssumed)
      ensures |core| <= |q| && forall x :: x in core ==> x in q
      ensures old(init) != null ==> init == old(init)
      ensures old(init) == null ==> fresh(init)
    {
      InitSolver();
      CoreWith(fi, q);
    }

    /** The core step once the solver of I exists. */
    method CoreWith(fi: int, q: Cube)
      requires Valid() && init != null && 0 <= fi < |frames|
      modifies this`core, init
      ensures Valid() && core == CoreOf(q, solvers[fi].lastAdded, solvers[fi].lastAssumed)
      ensures |core| <= |q| && forall x :: x in core ==> x in q
    {
      var f := FailedLits(solvers[fi], q, primedFirst);
      var i := InitQuery(f);
      core := if i then q else f;
    }

    // -------------------------------------------------------------------------
    // add_cube (PDR.cpp:340-365)
    // -------------------------------------------------------------------------

    /** The clause logs of the frame solvers. */
    ghost function Logs(): seq<seq<int>>
      reads this`solvers, solvers
    {
      var ss := solvers;
      seq(|ss|, i requires 0 <= i < |ss| reads ss => ss[i].added)
    }

    /** A clause handed to the solver of frame i. */
    method AddClause(i: int, s: CaDiCaL, clause: seq<int>)
      requires Valid() && 0 <= i < |solvers| && s == solvers[i]
      modifies s`added, s`nv
      ensures Valid() && s.added == old(s.added) + clause
    {
      label start:
      AddAll(s, clause);
      SolverKept@start(s);
    }

    /** ¬cube on frames lo..hi-1. */
    method AddClauseRange(lo: int, hi: int, clause: seq<int>)
      requires Valid() && 0 <= lo <= hi <= |solvers|
      modifies solvers`added, solvers`nv
      ensures Valid() && frames == old(frames)
      ensures |Logs()| == |old(Logs())| &&
        forall i :: 0 <= i < |solvers| ==> Logs()[i] == old(Logs())[i] + (if lo <= i < hi then clause else [])
    {
      ghost var before := Logs();
      var i := lo;
      while i < hi
        invariant lo <= i <= hi && Valid()
        invariant forall j :: 0 <= j < |solvers| ==> solvers[j].added == before[j] + (if lo <= j < i then clause else [])
      {
        label step:
        AddClause(i, solvers[i], clause);
        assert forall j :: 0 <= j < |solvers| && j != i ==> unchanged@step(solvers[j]);
        i := i + 1;
      }
    }

    /** Replacing frame k by one with well-formed cube sets keeps the
        invariant. */
    twostate lemma FrameKept(k: int)
      requires old(Valid()) && 0 <= k < |old(frames)| == |frames|
      requires CubeSet(frames[k].cubes) && CubeSet(frames[k].succPush) && frames == old(frames)[k := frames[k]]
      requires LatchCubes(frames[k].cubes, nInputs, nLatches) && LatchCubes(frames[k].succPush, nInputs, nLatches)
      requires unchanged(this`nInputs, this`nLatches, this`earliestStrengthenedFrame, this`ands, this`constraints,
        this`initState, this`satelite, this`solvers, this`lift, this`init, this`Repr) && unchanged(old(Repr))
      ensures Valid()
    {
      assert forall i :: 0 <= i < |frames| && i != k ==> frames[i] == old(frames)[i];
    }

    /** The insert into the cube set of frame k. */
    method StoreCube(k: int, c: Cube) returns (inserted: bool)
      requires Valid() && 0 <= k < |frames| && OnLatches(c)
      modifies this`frames
      ensures Valid()
      ensures var ins := InsertCube(old(frames[k].cubes), c);
        inserted == ins.1 && frames == old(frames)[k := Frame(ins.0, old(frames[k].succPush))]
    {
      label start:
      var ins := InsertCube(frames[k].cubes, c);
      LatchCubesInsert(frames[k].cubes, c, nInputs, nLatches);
      inserted := ins.1;
      frames := frames[k := Frame(ins.0, frames[k].succPush)];
      FrameKept@start(k);
    }

    /** add_cube: the cube sorted by Lit_CMP goes into the cube set of frame
        k. Only a cube the set did not hold yet adds ¬cube to frame k and,
        with toAll, to frames 1..k-1 (never to frame 0), and, outside
        propagation, moves the heuristic on. Outside propagation
        earliest_strengthened_frame drops to k in every case. */
    method AddCube(cube: Cube, k: int, toAll: bool, isPropagate: bool) returns (sorted: Cube)
      requires Valid() && 1 <= k < |frames| && OnLatches(cube)
      modifies this`earliestStrengthenedFrame, this`frames, this`epoch, solvers`added, solvers`nv
      ensures Valid() && sorted == SortLits(cube)
      ensures earliestStrengthenedFrame ==
        if isPropagate || old(earliestStrengthenedFrame) <= k then old(earliestStrengthenedFrame) else k
      ensures var ins := InsertCube(old(frames[k].cubes), sorted);
        frames == old(frames)[k := Frame(ins.0, old(frames[k].succPush))] &&
        epoch == (if ins.1 && !isPropagate then old(epoch) + 1 else old(epoch)) &&
        |Logs()| == |old(Logs())| &&
        forall i :: 0 <= i < |solvers| ==>
          Logs()[i] == old(Logs())[i] + (if ins.1 && (i == k || (toAll && 1 <= i < k)) then Negated(sorted) + [0] else [])
    {
      sorted := SortLits(cube);
      SortedLatches(cube);
      var inserted := StoreCube(k, sorted);
      if inserted {
        NegationAdded(k, sorted, toAll, !isPropagate);
      }
      if !isPropagate {
        Strengthen(k);
      }
    }

    /** `earliest_strengthened_frame` drops to k when k is below it. */
    method Strengthen(k: int)
      requires Valid() && k >= 1
      modifies this`earliestStrengthenedFrame
      ensures Valid()
      ensures earliestStrengthenedFrame == if old(earliestStrengthenedFrame) <= k then old(earliestStrengthenedFrame) else k
    {
      if k < earliestStrengthenedFrame {
        earliestStrengthenedFrame := k;
      }
    }

    /** The clause part of add_cube for a new cube: ¬cube on frames 1..k-1
        with toAll, then on frame k, and the heuristic update. */
    method NegationAdded(k: int, cube: Cube, toAll: bool, bump: bool)
      requires Valid() && 0 <= k < |frames|
      modifies this`epoch, solvers`added, solvers`nv
      ensures Valid() && frames == old(frames)
      ensures epoch == if bump then old(epoch) + 1 else old(epoch)
      ensures |Logs()| == |old(Logs())| &&
        forall i :: 0 <= i < |solvers| ==>
          Logs()[i] == old(Logs())[i] + (if i == k || (toAll && 1 <= i < k) then Negated(cube) + [0] else [])
    {
      var lo := if toAll && 0 < k then 1 else k;
      AddClauseRange(lo, k + 1, Negated(cube) + [0]);
      if bump {
        epoch := epoch + 1;
      }
    }

    /** `frames[k].succ_push.insert(c)`. */
    method PushSucc(k: int, c: Cube)
      requires Valid() && 0 <= k < |frames| && OnLatches(c)
      modifies this`frames
      ensures Valid()
      ensures frames == old(frames)[k := Frame(old(frames[k].cubes), InsertCube(old(frames[k].succPush), c).0)]
    {
      label start:
      LatchCubesInsert(frames[k].succPush, c, nInputs, nLatches);
      frames := frames[k := Frame(frames[k].cubes, InsertCube(frames[k].succPush, c).0)];
      FrameKept@start(k);
    }

    /** `frames[k].succ_push.clear()`. */
    method ClearSucc(k: int)
      requires Valid() && 0 <= k < |frames|
      modifies this`frames
      ensures Valid() && frames == old(frames)[k := Frame(old(frames[k].cubes), [])]
    {
      label start:
      frames := frames[k := Frame(frames[k].cubes, [])];
      FrameKept@start(k);
    }

    /** The erase of the j-th cube of frame k. */
    method EraseCube(k: int, j: int)
      requires Valid() && 0 <= k < |frames| && 0 <= j < |frames[k].cubes|
      modifies this`frames
      ensures Valid()
      ensures frames == old(frames)[k := Frame(EraseAt(old(frames[k].cubes), j), old(frames[k].succPush))]
    {
      label start:
      LatchCubesErase(frames[k].cubes, j, nInputs, nLatches);
      frames := frames[k := Frame(EraseAt(frames[k].cubes, j), frames[k].succPush)];
      FrameKept@start(k);
    }

    // -------------------------------------------------------------------------
    // propagate (PDR.cpp:867-910)
    // -------------------------------------------------------------------------

    /** The first frame propagate visits: 1, or earliest_strengthened_frame
        when depth() is above 20 and not a multiple of 5, or depth() when
        the top frame cannot reach bad. */
    function StartFrame(): int
      reads this`frames, this`earliestStrengthenedFrame, this`topFrameCannotReachBad
    {
      if topFrameCannotReachBad then Depth()
      else if Depth() % 5 != 0 && Depth() > 20 then earliestStrengthenedFrame
      else 1
    }

    /** One cube c of the pass over frame i. When F_i /\ T /\ ¬c /\ c' is
        unsatisfiable (or the pc shortcut answers for it) its core goes to
        frame i+1, and to the frames below only when it is strictly smaller
        than c: pushed. Otherwise, with use_pc, c joins the pushed set of
        frame i-1. */
    method PropagateCube(i: int, c: Cube) returns (pushed: bool)
      requires Valid() && 0 <= i && i + 1 < |frames| && (usePc ==> 1 <= i)
      requires OnLatches(c)
      modifies this`core, this`init, this`Repr, init, this`frames, this`earliestStrengthenedFrame, this`epoch,
        solvers[i], solvers`added, solvers`nv
      ensures Valid() && epoch == old(epoch) && earliestStrengthenedFrame == old(earliestStrengthenedFrame)
      ensures old(init) != null ==> init == old(init)
      ensures old(init) == null ==> init == null || fresh(init)
      ensures var s, q := solvers[i], old(QueryCube(i, c));
        Queried(s.lastAdded, s.lastAdded, s.lastAssumed, old(s.added), q, QueryAssumptions(q), old(PcHit(i, c)).Some?,
          pushed)
      ensures pushed ==> PartOf(core, c)
      ensures pushed ==>
        frames == old(frames)[i + 1 := Frame(InsertCube(old(frames[i + 1].cubes), SortLits(core)).0,
          old(frames[i + 1].succPush))]
      ensures !pushed ==>
        frames == if usePc then
          old(frames)[i - 1 := Frame(old(frames[i - 1].cubes), InsertCube(old(frames[i - 1].succPush), c).0)]
        else old(frames)
    {
      pushed := PushQuery(i, c);
      Settle(i, c, pushed);
    }

    /** The query of the pass for c on frame i, with the core kept when it
        holds. */
    method PushQuery(i: int, c: Cube) returns (pushed: bool)
      requires Valid() && 0 <= i < |frames| && OnLatches(c)
      modifies this`core, this`init, this`Repr, init, solvers[i]
      ensures Valid() && frames == old(frames) && solvers == old(solvers)
      ensures old(init) != null ==> init == old(init)
      ensures old(init) == null ==> init == null || fresh(init)
      ensures var s, q := solvers[i], old(QueryCube(i, c));
        Queried(s.lastAdded, s.lastAdded, s.lastAssumed, old(s.added), q, QueryAssumptions(q), old(PcHit(i, c)).Some?,
          pushed)
      ensures pushed ==> PartOf(core, c) && OnLatches(core)
    {
      pushed := IsInductive(i, c, true);
      if pushed {
        PartLatches(core, c);
      }
    }

    /** What the pass does with c once the query has answered: the core
        goes up, or, with use_pc, c joins the pushed set of frame i-1. */
    method Settle(i: int, c: Cube, pushed: bool)
      requires Valid() && 0 <= i && i + 1 < |frames| && (usePc ==> 1 <= i)
      requires OnLatches(c) && (pushed ==> OnLatches(core))
      modifies this`frames, this`earliestStrengthenedFrame, this`epoch, solvers`added, solvers`nv
      ensures Valid() && epoch == old(epoch) && earliestStrengthenedFrame == old(earliestStrengthenedFrame)
      ensures pushed ==>
        frames == old(frames)[i + 1 := Frame(InsertCube(old(frames[i + 1].cubes), SortLits(core)).0,
          old(frames[i + 1].succPush))]
      ensures !pushed ==>
        frames == if usePc then
          old(frames)[i - 1 := Frame(old(frames[i - 1].cubes), InsertCube(old(frames[i - 1].succPush), c).0)]
        else old(frames)
    {
      if pushed {
        PushCore(i, |core| < |c|);
      } else if usePc {
        PushSucc(i - 1, c);
      }
    }

    /** One iteration of propagate: with use_pc the pushed set of frame i
        is cleared, then the pass over frame i. Frames below i keep their
        cubes. */
    method PropagatePass(i: int) returns (empty: bool)
      requires Valid() && 0 <= i && i + 1 < |frames| && (usePc ==> 1 <= i)
      modifies this`core, this`init, this`Repr, init, this`frames, this`earliestStrengthenedFrame, this`epoch,
        solvers
      ensures Valid() && epoch == old(epoch) && earliestStrengthenedFrame == old(earliestStrengthenedFrame)
      ensures PassKeeps(old(frames), frames, i) && forall k :: 0 <= k < i ==> frames[k].cubes == old(frames[k].cubes)
      ensures empty <==> frames[i].cubes == []
      ensures old(init) != null ==> init == old(init)
      ensures old(init) == null ==> init == null || fresh(init)
    {
      if usePc {
        ClearSucc(i);
      }
      ghost var f1 := frames;
      assert PassKeeps(old(frames), f1, i);
      empty := PropagateFrame(i);
      PassKeepsTransitive(old(frames), f1, frames, i);
    }

    /** The pass of propagate over frame i: each cube that is pushed
        leaves, with its sorted core added to frame i+1; with use_pc each
        cube that stays joins the pushed set of frame i-1. empty reports
        whether frame i is left without cubes. */
    method PropagateFrame(i: int) returns (empty: bool)
      requires Valid() && 0 <= i && i + 1 < |frames| && (usePc ==> 1 <= i)
      modifies this`core, this`init, this`Repr, init, this`frames, this`earliestStrengthenedFrame, this`epoch,
        solvers
      ensures Valid() && epoch == old(epoch) && earliestStrengthenedFrame == old(earliestStrengthenedFrame)
      ensures PassStep(old(frames), frames, i)
      ensures empty <==> frames[i].cubes == []
      ensures old(init) != null ==> init == old(init)
      ensures old(init) == null ==> init == null || fresh(init)
    {
      PassStepReflexive(frames, i);
      var j := 0;
      while j < |frames[i].cubes|
        invariant Valid() && 0 <= j <= |frames[i].cubes| && PassStep(old(frames), frames, i)
        invariant epoch == old(epoch) && earliestStrengthenedFrame == old(earliestStrengthenedFrame)
        invariant old(init) != null ==> init == old(init)
        invariant old(init) == null ==> init == null || fresh(init)
        decreases |frames[i].cubes| - j
      {
        ghost var f1 := frames;
        j := PropagateStep(i, j);
        PassStepTransitive(old(frames), f1, frames, i);
      }
      empty := |frames[i].cubes| == 0;
    }

    /** propagate: the passes over frames StartFrame()..depth() in order
        (use_pc clears a frame's pushed set before its pass). It returns
        true at the first frame a pass leaves without cubes, and false
        when every visited frame keeps a cube. No blocked cube is lost: each
        one is still in its frame or has a part in a later one. */
    method Propagate() returns (r: bool)
      requires Valid()
      requires StartFrame() <= Depth() ==> 0 <= StartFrame() && (usePc ==> 1 <= StartFrame())
      modifies this`core, this`init, this`Repr, init, this`frames, this`earliestStrengthenedFrame, this`epoch,
        solvers
      ensures Valid() && epoch == old(epoch) && earliestStrengthenedFrame == old(earliestStrengthenedFrame)
      ensures Subsumed(old(frames), frames)
      ensures old(init) != null ==> init == old(init)
      ensures old(init) == null ==> init == null || fresh(init)
      ensures r <==> exists j :: old(StartFrame()) <= j <= Depth() && frames[j].cubes == []
    {
      var start := 1;
      if Depth() % 5 != 0 && Depth() > 20 {
        start := earliestStrengthenedFrame;
      }
      if topFrameCannotReachBad {
        start := Depth();
      }
      assert start == StartFrame();
      SubsumedReflexive(frames);
      var i := start;
      while i <= Depth()
        invariant Valid() && Subsumed(old(frames), frames) && |frames| == |old(frames)|
        invariant epoch == old(epoch) && earliestStrengthenedFrame == old(earliestStrengthenedFrame)
        invariant start <= Depth() ==> start <= i <= Depth() + 1
        invariant forall j :: start <= j < i && 0 <= j < |frames| ==> frames[j].cubes != []
        invariant old(init) != null ==> init == old(init)
        invariant old(init) == null ==> init == null || fresh(init)
      {
        ghost var f1 := frames;
        var empty := PropagatePass(i);
        SubsumedStep(old(frames), f1, frames, i);
        if empty {
          return true;
        }
        i := i + 1;
      }
      return false;
    }

    /** The cube at position j of frame i: erased when pushed, so the pass
        goes on at j, or kept, so it goes on at j+1. */
    method PropagateStep(i: int, j: int) returns (next: int)
      requires Valid() && 0 <= i && i + 1 < |frames| && (usePc ==> 1 <= i) && 0 <= j < |frames[i].cubes|
      modifies this`core, this`init, this`Repr, init, this`frames, this`earliestStrengthenedFrame, this`epoch,
        solvers
      ensures Valid() && epoch == old(epoch) && earliestStrengthenedFrame == old(earliestStrengthenedFrame)
      ensures PassStep(old(frames), frames, i)
      ensures 0 <= next <= |frames[i].cubes| && |frames[i].cubes| - next < |old(frames[i].cubes)| - j
      ensures old(init) != null ==> init == old(init)
      ensures old(init) == null ==> init == null || fresh(init)
    {
      var c := frames[i].cubes[j];
      var pushed := PropagateCube(i, c);
      if pushed {
        PushedStep(old(frames), i, j, core);
        EraseCube(i, j);
        next := j;
      } else {
        KeptStep(old(frames), i, c, usePc);
        next := j + 1;
      }
    }

    /** add_cube(core, i+1, toAll, true): propagation leaves the heuristic and
        earliest_strengthened_frame alone. */
    method PushCore(i: int, toAll: bool)
      requires Valid() && 0 <= i && i + 1 < |frames|
      requires OnLatches(core)
      modifies this`frames, this`earliestStrengthenedFrame, this`epoch, solvers`added, solvers`nv
      ensures Valid() && epoch == old(epoch) && earliestStrengthenedFrame == old(earliestStrengthenedFrame)
      ensures frames == old(frames)[i + 1 := Frame(InsertCube(old(frames[i + 1].cubes), SortLits(core)).0,
        old(frames[i + 1].succPush))]
      ensures |Logs()| == |old(Logs())| &&
        forall j :: 0 <= j < |solvers| ==>
          Logs()[j] == old(Logs())[j] +
            (if InsertCube(old(frames[i + 1].cubes), SortLits(core)).1 && (j == i + 1 || (toAll && 1 <= j <= i))
             then Negated(SortLits(core)) + [0] else [])
    {
      var _ := AddCube(core, i + 1, toAll, true);
    }

    // -------------------------------------------------------------------------
    // extract_state_from_sat (PDR.cpp:610-761)
    // -------------------------------------------------------------------------

    /** Installing a fresh, ready lift keeps the invariant. */
    twostate lemma LiftKept(new s: CaDiCaL)
      requires old(Valid()) && old(lift) == null && fresh(s) && Ready(s) && satelite != null
      requires lift == s && Repr == old(Repr) + {s} && unchanged(old(Repr))
      requires unchanged(this`nInputs, this`nLatches, this`earliestStrengthenedFrame, this`ands, this`constraints,
        this`initState, this`frames,
        this`solvers, this`init)
      ensures Valid()
    {
    }

    /** The solver lift, built on first use: the simplified translation.
        Extraction only runs once frames exist, so satelite is in place. */
    method LiftSolver()
      requires Valid() && 0 < |frames|
      modifies this`lift, this`Repr
      ensures Valid() && lift != null
      ensures old(lift) != null ==> lift == old(lift) && Repr == old(Repr)
      ensures old(lift) == null ==> fresh(lift) && lift.added == satelite.simplifiedCnf && !lift.clearFlag
    {
      if lift == null {
        label start:
        var s := EncodedSolver();
        lift, Repr := s, Repr + {s};
        LiftKept@start(s);
      }
    }

    /** A fresh solver given the simplified translation: lift's contents. */
    method EncodedSolver() returns (s: CaDiCaL)
      requires satelite != null
      ensures fresh(s) && Ready(s) && s.added == satelite.simplifiedCnf && !s.clearFlag
    {
      s := new CaDiCaL(ipasir);
      AddAll(s, satelite.simplifiedCnf);
    }

    /** The clause lift gets after ¬act: ¬constraints', then ¬bad' with no
        successor, else the successor's latches negated and primed. */
    function LiftClause(succ: Option<Cube>): seq<int>
      reads this`constraintsPrime, this`badPrime, this`primedFirst
    {
      Negated(constraintsPrime) +
        match succ
        case None => [-badPrime]
        case Some(c) => PrimeCube(Negated(c), primedFirst)
    }

    /** lift's answer for the model of m: the model's input values, and the
        latch values lift reports as failed after ¬act \/ LiftClause(sc) was
        added to the clauses before and it was solved under act and the
        model's values, ordered by the scores of epoch e. */
    ghost predicate LiftAnswered(m: CaDiCaL, sc: Option<Cube>, inputs: seq<int>, latches: seq<int>, before: seq<int>,
                                 e: nat)
      requires lift != null && nInputs >= 0 && nLatches >= 0
      reads m`lastAdded, m`lastAssumed, this`lift, lift, this`constraintsPrime, this`badPrime, this`primedFirst,
        this`nInputs, this`nLatches
    {
      inputs == ModelValues(ipasir, m.lastAdded, m.lastAssumed, 2, nInputs) &&
      latches == FailedLatches(ModelValues(ipasir, m.lastAdded, m.lastAssumed, 2 + nInputs, nLatches),
        ipasir, lift.lastAdded, lift.lastAssumed) &&
      ActAnswered(lift.added, lift.lastAdded, lift.lastAssumed, before, LiftClause(sc),
        Lifted(order, ReadBack(ipasir, m.lastAdded, m.lastAssumed, nInputs, nLatches, primedFirst), e,
          nInputs, nLatches, primedFirst))
    }

    /** The part of extract_state_from_sat after lift exists: the input
        values of frame fi's model and the latches lift's query needs. */
    method LiftModel(fi: int, sc: Option<Cube>) returns (inputs: seq<int>, latches: seq<int>)
      requires Valid() && nInputs >= 0 && nLatches >= 0 && lift != null && 0 <= fi < |frames|
      modifies lift, this`epoch
      ensures Valid() && Ready(lift) && lift.clearFlag
      ensures epoch == if useAcc then old(epoch) + 1 else old(epoch)
      ensures LiftAnswered(solvers[fi], sc, inputs, latches,
        old(lift.added) + ClearActClauses(old(lift.added), old(lift.clearFlag)), old(epoch))
    {
      label start:
      inputs, latches := LiftRun(fi, sc);
      LiftKeptValid@start(lift);
      if useAcc {
        NextEpoch();
      }
    }

    /** The query of LiftModel, which leaves the scores alone. */
    method LiftRun(fi: int, sc: Option<Cube>) returns (inputs: seq<int>, latches: seq<int>)
      requires 0 <= fi < |solvers| && lift != null && solvers[fi] != lift && solvers[fi].oracle == ipasir
      requires nInputs >= 0 && nLatches >= 0
      requires Ready(lift)
      modifies lift
      ensures Ready(lift) && lift.clearFlag
      ensures LiftAnswered(solvers[fi], sc, inputs, latches,
        old(lift.added) + ClearActClauses(old(lift.added), old(lift.clearFlag)), epoch)
    {
      var clause := LiftClause(sc);
      inputs, latches := LiftAnswer(ipasir, solvers[fi], lift, nInputs, nLatches, primedFirst, clause,
        order, epoch);
    }

    /** With use_acc, a change of the activity scores: the next epoch. */
    method NextEpoch()
      requires Valid()
      modifies this`epoch
      ensures Valid() && epoch == old(epoch) + 1
    {
      epoch := epoch + 1;
    }

    /** extract_state_from_sat for a successor with latches sc (none for
        bad): the input values of the model of frame fi's solver and the
        latch values lift reports as needed to show ¬(constraints' /\ succ')
        (¬bad' without a successor), which the source stores in s. lift's
        query is UNSAT in the source, which asserts it. With use_acc the
        activity scores change (modelled as a new epoch). */
    method Extract(fi: int, sc: Option<Cube>) returns (inputs: seq<int>, latches: seq<int>, ghost before: seq<int>)
      requires Valid() && Shaped() && 0 <= fi < |frames|
      modifies this`lift, this`Repr, this`epoch, lift
      ensures Valid() && lift != null
      ensures old(lift) != null ==> lift == old(lift) && Repr == old(Repr)
      ensures old(lift) == null ==> fresh(lift)
      ensures epoch == if useAcc then old(epoch) + 1 else old(epoch)
      ensures old(lift) != null ==> before == old(lift.added) + ClearActClauses(old(lift.added), old(lift.clearFlag))
      ensures old(lift) == null ==> before == satelite.simplifiedCnf
      ensures LiftAnswered(solvers[fi], sc, inputs, latches, before, old(epoch))
    {
      LiftSolver();
      before := lift.added + ClearActClauses(lift.added, lift.clearFlag);
      inputs, latches := LiftModel(fi, sc);
    }

    // -------------------------------------------------------------------------
    // generalize, mic and CTG_down (PDR.cpp:914-1040)
    // -------------------------------------------------------------------------

    /** `new State(l, i)`: the next stamp of state_count. */
    method NewState(l: seq<int>, i: seq<int>) returns (s: State)
      requires ChainOk()
      modifies this`stateCount, this`States
      ensures ChainOk() && fresh(s) && States == old(States) + {s}
      ensures old(NoFailures()) ==> NoFailures()
      ensures stateCount == old(stateCount) + 1 && s.index == stateCount
      ensures s.latches == l && s.inputs == i && s.next == null && s.chain == [] && s.failed == 0 && s.failedDepth == 0
    {
      stateCount := stateCount + 1;
      s := new State(stateCount, l, i);
      States := States + {s};
    }

    /** The CTG of a failed query of cube on frame k: the latches
        extract_state_from_sat finds for a `new State()` whose successor is
        `new State(cube, Cube())`. Both states are deleted right after and
        never reach the obligation queue, so the model does not allocate
        them. */
    method CtgState(k: int, cube: Cube) returns (cti: Cube)
      requires Valid() && Shaped() && lift != null && 0 <= k < |frames|
      modifies lift, this`epoch
      ensures Valid()
      ensures epoch == if useAcc then old(epoch) + 1 else old(epoch)
      ensures var m := solvers[k];
        cti == FailedLatches(ModelValues(ipasir, m.lastAdded, m.lastAssumed, 2 + nInputs, nLatches),
          ipasir, lift.lastAdded, lift.lastAssumed)
      ensures OnLatches(cti)
    {
      var inputs, latches := LiftModel(k, Some(cube));
      cti := latches;
      var m := solvers[k];
      LatchValues(ipasir, m.lastAdded, m.lastAssumed, nInputs, nLatches);
      PartLatches(cti, ModelValues(ipasir, m.lastAdded, m.lastAssumed, 2 + nInputs, nLatches));
    }

    /** The last query of each frame solver: the clauses it saw and its
        assumptions. */
    ghost function Answers(): seq<(seq<int>, seq<int>)>
      reads this`solvers, solvers
    {
      var ss := solvers;
      seq(|ss|, i requires 0 <= i < |ss| reads ss => (ss[i].lastAdded, ss[i].lastAssumed))
    }

    /** The last query on frame j's solver (its clauses and assumptions in
        ans) was is_inductive's query of c on frame j of frames f, asked when
        that solver held logs[j], and it answered r. */
    ghost predicate AskedAt(j: int, f: seq<Frame>, logs: seq<seq<int>>, ans: (seq<int>, seq<int>), c: Cube, r: bool)
      requires 0 <= j < |f| && j < |logs|
      reads this`primedFirst, this`epoch
    {
      var q := QueryIn(f, j, c);
      Queried(ans.0, ans.0, ans.1, logs[j], q, QueryAssumptions(q), HitIn(f, j, c).Some?, r)
    }

    /** The push loop of CTG_down: the first frame from `from` on whose
        query for c fails, or depth()+1; with insert and use_pc, c goes into
        the pushed set of every frame it passes. */
    method PushForward(c: Cube, from: int, insert: bool) returns (k: int)
      requires Valid() && 0 <= from < |frames|
      requires OnLatches(c)
      modifies this`frames, solvers
      ensures Valid() && from <= k <= Depth() + 1 && |frames| == |old(frames)|
      ensures forall j :: 0 <= j < |frames| ==> frames[j].cubes == old(frames[j].cubes)
      ensures |Answers()| == |frames| &&
        forall j :: from <= j < k ==> AskedAt(j, old(frames), old(Logs()), Answers()[j], c, true)
      ensures k <= Depth() ==> AskedAt(k, old(frames), old(Logs()), Answers()[k], c, false)
    {
      ghost var f0, b0 := frames, Logs();
      k := from;
      while k <= Depth()
        invariant Valid() && from <= k <= Depth() + 1 && |frames| == |f0|
        invariant forall j :: 0 <= j < |frames| ==> frames[j].cubes == f0[j].cubes
        invariant |Logs()| == |Answers()| == |frames|
        invariant forall j :: k <= j < |frames| ==> frames[j] == f0[j] && Logs()[j] == b0[j]
        invariant forall j :: from <= j < k ==> AskedAt(j, f0, b0, Answers()[j], c, true)
      {
        var ind := ForwardStep(k, c, insert, f0, b0);
        if !ind {
          return;
        }
        k := k + 1;
      }
    }

    /** One frame of the push loop: the query of c on frame k, and the
        insert into its pushed set when it passes. The other solvers keep
        their clauses and last queries. */
    method ForwardStep(k: int, c: Cube, insert: bool, ghost f0: seq<Frame>, ghost b0: seq<seq<int>>) returns (ind: bool)
      requires Valid() && 0 <= k < |frames| == |f0| == |b0| && frames[k] == f0[k] && Logs()[k] == b0[k]
      requires OnLatches(c)
      modifies this`frames, solvers[k]
      ensures Valid()
      ensures |Logs()| == |Answers()| == |frames| && AskedAt(k, f0, b0, Answers()[k], c, ind)
      ensures forall j :: 0 <= j < |frames| && j != k ==> Logs()[j] == old(Logs())[j] && Answers()[j] == old(Answers())[j]
      ensures frames == if ind && insert && usePc
        then old(frames)[k := Frame(old(frames[k].cubes), InsertCube(old(frames[k].succPush), c).0)]
        else old(frames)
    {
      ind := AskFrame(k, c, f0, b0);
      if ind && insert && usePc {
        PushSucc(k, c);
      }
    }

    /** is_inductive(frames[k].solver, k, c, false): without a core it is
        the query alone. Stated on the value views Logs() and Answers(): the
        other solvers keep both. */
    method AskFrame(k: int, c: Cube, ghost f0: seq<Frame>, ghost b0: seq<seq<int>>) returns (ind: bool)
      requires Valid() && 0 <= k < |frames| == |f0| == |b0| && frames[k] == f0[k] && Logs()[k] == b0[k]
      requires OnLatches(c)
      modifies solvers[k]
      ensures Valid()
      ensures |Logs()| == |Answers()| == |frames| && AskedAt(k, f0, b0, Answers()[k], c, ind)
      ensures forall j :: 0 <= j < |frames| && j != k ==> Logs()[j] == old(Logs())[j] && Answers()[j] == old(Answers())[j]
    {
      label start:
      var q;
      ind, q := QueryFrame(k, c);
      assert forall j :: 0 <= j < |solvers| && j != k ==> unchanged@start(solvers[j]);
    }

    /** The CTG branch of CTG_down for the CTG cti of a failed query on frame
        k: when cti is outside I and its query on frame k-1 succeeds, its core
        (core itself, through the reference ctg) is pushed forward from k to
        the first frame i where it fails, shrunk by mic at i-1 one level
        deeper, put into the pushed set of i-1 with use_pc, and added to
        frame i and below, where add_cube leaves core sorted. */
    method TryBlockCtg(k: int, cti: Cube, recDepth: int) returns (blocked: bool)
      requires Valid() && Shaped() && init != null && lift != null && 1 < k < |frames| && recDepth <= OPTION_CTG_MAX_DEPTH
      requires OnLatches(cti)
      modifies this`core, this`epoch, this`frames, this`earliestStrengthenedFrame, solvers, init, lift
      ensures Valid() && Grows(old(frames), frames)
      ensures blocked ==> !InitMeets(cti)
      ensures blocked ==> exists i :: k <= i < |frames| && core in frames[i].cubes && PartOf(core, cti)
      decreases Budget(recDepth), 1
    {
      var ini, ind := InitOrCore(k - 1, cti);
      blocked := !ini && ind;
      if blocked {
        PartLatches(core, cti);
        BlockCtg(k, recDepth);
      }
    }

    /** The CTG branch once the CTG's core is in core. */
    method BlockCtg(k: int, recDepth: int)
      requires Valid() && Shaped() && init != null && lift != null && 1 < k < |frames| && recDepth <= OPTION_CTG_MAX_DEPTH
      requires OnLatches(core)
      modifies this`core, this`epoch, this`frames, this`earliestStrengthenedFrame, solvers, init, lift
      ensures Valid() && Grows(old(frames), frames)
      ensures exists i :: k <= i < |frames| && core in frames[i].cubes && PartOf(core, old(core))
      decreases Budget(recDepth), 0
    {
      var ctg := core;
      var i := PushCtg(ctg, k);
      var mc := Mic(ctg, i - 1, recDepth + 1);
      PartLatches(mc, ctg);
      AddCtg(mc, i);
    }

    /** `is_init(c)`, then, outside I, `is_inductive(frames[k].solver, k, c,
        true)`, both on the solver of I that exists by then: a success leaves
        a core that is a part of c, and, without use_pc, one outside I. */
    method InitOrCore(k: int, c: Cube) returns (ini: bool, ind: bool)
      requires Valid() && init != null && 0 <= k < |frames|
      requires OnLatches(c)
      modifies this`core, init, solvers[k]
      ensures Valid() && frames == old(frames)
      ensures ini == InitMeets(c) && (ini ==> !ind && core == old(core))
      ensures ind ==> PartOf(core, c) && |core| <= |c| && (!usePc ==> !InitMeets(core))
    {
      ini := InitQuery(c);
      if ini {
        return true, false;
      }
      var q;
      ind, q := QueryFrame(k, c);
      if ind {
        CoreWith(k, q);
        if PcHit(k, c).Some? {
          SubCubeOf(q, c);
        }
      }
    }

    /** The push loop of the CTG branch from frame k: it stops at the first
        frame i that does not hold the CTG, at most depth()+1. */
    method PushCtg(ctg: Cube, k: int) returns (i: int)
      requires Valid() && 0 <= k < |frames|
      requires OnLatches(ctg)
      modifies this`frames, solvers
      ensures Valid() && k <= i <= Depth() + 1 && Grows(old(frames), frames)
    {
      i := PushForward(ctg, k, true);
    }

    /** The end of the CTG branch: ctg into the pushed set of frame i-1 with
        use_pc, then add_cube(ctg, i, true), which sorts it in core, the cube
        ctg refers to. */
    method AddCtg(ctg: Cube, i: int)
      requires Valid() && 1 <= i < |frames|
      requires OnLatches(ctg)
      modifies this`core, this`earliestStrengthenedFrame, this`frames, this`epoch, solvers`added, solvers`nv
      ensures Valid() && Grows(old(frames), frames)
      ensures core in frames[i].cubes && PartOf(core, ctg) && LitOrdered(core)
    {
      if usePc {
        PushSucc(i - 1, ctg);
      }
      var sorted := AddSorted(ctg, i);
      SetCore(sorted);
    }

    /** add_cube(c, i, true) outside propagation: the sorted c is in frame i. */
    method AddSorted(c: Cube, i: int) returns (sorted: Cube)
      requires Valid() && 1 <= i < |frames|
      requires OnLatches(c)
      modifies this`earliestStrengthenedFrame, this`frames, this`epoch, solvers`added, solvers`nv
      ensures Valid() && Grows(old(frames), frames)
      ensures sorted in frames[i].cubes && PartOf(sorted, c) && LitOrdered(sorted)
    {
      ghost var f := frames;
      sorted := AddCube(c, i, true, false);
      SortedCoreCovers(f[i].cubes, c, c);
    }

    /** An assignment to core, in a method of its own so that the callers'
        proofs see a change of this one field and nothing else. */
    method SetCore(c: Cube)
      modifies this`core
      ensures core == c
    {
      core := c;
    }

    /** CTG_down on a candidate cube at frame k: false when cube meets I;
        true with the core (when it is shorter) once the query on frame k
        succeeds; below the last level, a failed query yields a CTG that is
        blocked (at most OPTION_CTG_TRIES times in a row) or joined into the
        cube; a join that would drop a required literal ends with false.
        last is the cube of the final query: it keeps the required literals
        of cube, and a success returns the shorter of it and its core. */
    method CtgDown(cube: Cube, k: int, recDepth: int, required: set<int>) returns (ok: bool, r: Cube, ghost last: Cube)
      requires Valid() && Shaped() && init != null && lift != null && 0 <= k < |frames|
      requires OnLatches(cube)
      modifies this`core, this`epoch, this`frames, this`earliestStrengthenedFrame, solvers, init, lift
      ensures Valid() && Grows(old(frames), frames)
      ensures PartOf(r, cube) && |r| <= |cube|
      ensures InitMeets(cube) ==> !ok && r == cube
      ensures ok && !usePc ==> !InitMeets(r)
      ensures PartOf(last, cube) && forall x :: x in required && x in cube ==> x in last
      ensures ok ==> PartOf(core, last) && r == (if |core| < |last| then core else last)
      decreases Budget(recDepth), 6
    {
      var done, c, ctgCt, joinCt;
      PartLatches(cube, cube);
      done, ok, c, ctgCt, joinCt := DownStep(cube, k, recDepth, required, 0, 0);
      if done {
        r, last := c, cube;
      } else {
        ok, r, last := CtgLoop(cube, c, k, recDepth, required, ctgCt, joinCt);
      }
    }

    /** The rounds of CTG_down's loop after the first, from the cube r0 and
        the tries so far. */
    method CtgLoop(cube: Cube, r0: Cube, k: int, recDepth: int, required: set<int>, ctgCt0: int, joinCt0: int)
      returns (ok: bool, r: Cube, ghost last: Cube)
      requires Valid() && Shaped() && init != null && lift != null && 0 <= k < |frames|
      requires OnLatches(cube) && PartOf(r0, cube) && |r0| <= |cube| && InTries(ctgCt0, joinCt0)
      requires forall x :: x in required && x in cube ==> x in r0
      modifies this`core, this`epoch, this`frames, this`earliestStrengthenedFrame, solvers, init, lift
      ensures Valid() && Grows(old(frames), frames)
      ensures PartOf(r, cube) && |r| <= |cube|
      ensures ok && !usePc ==> !InitMeets(r)
      ensures PartOf(last, cube) && forall x :: x in required && x in cube ==> x in last
      ensures ok ==> PartOf(core, last) && r == (if |core| < |last| then core else last)
      decreases Budget(recDepth), 5
    {
      var ctgCt, joinCt := ctgCt0, joinCt0;
      r, last := r0, cube;
      while true
        invariant Valid() && Shaped() && Grows(old(frames), frames)
        invariant PartOf(r, cube) && |r| <= |cube|
        invariant forall x :: x in required && x in cube ==> x in r
        invariant InTries(ctgCt, joinCt)
        decreases OPTION_MAX_JOINS - joinCt, OPTION_CTG_TRIES - ctgCt
      {
        var done, c, ctgCt', joinCt';
        last := r;
        PartLatches(r, cube);
        done, ok, c, ctgCt', joinCt' := DownStep(r, k, recDepth, required, ctgCt, joinCt);
        r, ctgCt, joinCt := c, ctgCt', joinCt';
        if done {
          return;
        }
      }
    }

    /** One round of CTG_down's loop on c; done when CTG_down returns, with
        its answer ok, and otherwise with the tries moved on and the
        required literals of c kept. */
    method DownStep(c: Cube, k: int, recDepth: int, required: set<int>, ctgCt: int, joinCt: int)
      returns (done: bool, ok: bool, r: Cube, ctgCt': int, joinCt': int)
      requires Valid() && Shaped() && init != null && lift != null && 0 <= k < |frames|
      requires OnLatches(c)
      requires InTries(ctgCt, joinCt)
      modifies this`core, this`epoch, this`frames, this`earliestStrengthenedFrame, solvers, init, lift
      ensures Valid() && Shaped() && Grows(old(frames), frames)
      ensures PartOf(r, c) && |r| <= |c|
      ensures InitMeets(c) ==> done && !ok && r == c
      ensures ok ==> done && (!usePc ==> !InitMeets(r))
      ensures ok ==> PartOf(core, c) && r == (if |core| < |c| then core else c)
      ensures !done ==> !InitMeets(c) && InTries(ctgCt', joinCt')
      ensures !done ==> joinCt' > joinCt || (joinCt' == joinCt && ctgCt' > ctgCt)
      ensures !done ==> forall x :: x in required && x in c ==> x in r
      decreases Budget(recDepth), 4
    {
      var ini, ind := InitOrCore(k, c);
      if ini || ind || recDepth > OPTION_CTG_MAX_DEPTH {
        r := if ind && |core| < |c| then core else c;
        return true, ind, r, ctgCt, joinCt;
      }
      ok := false;
      done, r, ctgCt', joinCt' := CtiStep(c, k, recDepth, required, ctgCt, joinCt);
    }

    /** The failed query of c on frame k below the last level: its CTG is
        read from the lifting solver, then blocked or joined into c. */
    method CtiStep(c: Cube, k: int, recDepth: int, required: set<int>, ctgCt: int, joinCt: int)
      returns (done: bool, r: Cube, ctgCt': int, joinCt': int)
      requires Valid() && Shaped() && init != null && lift != null && 0 <= k < |frames| && recDepth <= OPTION_CTG_MAX_DEPTH
      requires OnLatches(c)
      requires InTries(ctgCt, joinCt)
      modifies this`core, this`epoch, this`frames, this`earliestStrengthenedFrame, solvers, init, lift
      ensures Valid() && Shaped() && Grows(old(frames), frames)
      ensures PartOf(r, c) && |r| <= |c|
      ensures !done ==> InTries(ctgCt', joinCt')
      ensures !done ==> joinCt' > joinCt || (joinCt' == joinCt && ctgCt' > ctgCt)
      ensures !done ==> forall x :: x in required && x in c ==> x in r
      decreases Budget(recDepth), 3
    {
      var cti := CtgState(k, c);
      done, r, ctgCt', joinCt' := CtgOrJoin(c, cti, k, recDepth, required, ctgCt, joinCt);
    }

    /** The CTG cti of c at frame k is blocked by the CTG branch, or joined
        into c; done when the join breaks, which it does exactly when c holds
        a required literal that cti lacks, or when no join is left. */
    method CtgOrJoin(c: Cube, cti: Cube, k: int, recDepth: int, required: set<int>, ctgCt: int, joinCt: int)
      returns (done: bool, r: Cube, ctgCt': int, joinCt': int)
      requires Valid() && Shaped() && init != null && lift != null && 0 <= k < |frames| && recDepth <= OPTION_CTG_MAX_DEPTH
      requires OnLatches(c) && OnLatches(cti)
      requires InTries(ctgCt, joinCt)
      modifies this`core, this`epoch, this`frames, this`earliestStrengthenedFrame, solvers, init, lift
      ensures Valid() && Grows(old(frames), frames)
      ensures PartOf(r, c) && |r| <= |c|
      ensures !done ==> InTries(ctgCt', joinCt')
      ensures !done ==> joinCt' > joinCt || (joinCt' == joinCt && ctgCt' > ctgCt)
      ensures !done ==> forall x :: x in required && x in c ==> x in r
      ensures joinCt' == joinCt + 1 ==> forall x :: x in r ==> x in cti
      ensures joinCt' == joinCt + 1 ==> (done <==> exists i :: 0 <= i < |c| && c[i] in required && c[i] !in cti)
      decreases Budget(recDepth), 2
    {
      var blocked := false;
      if ctgCt < OPTION_CTG_TRIES && k > 1 {
        blocked := TryBlockCtg(k, cti, recDepth);
      }
      r, ctgCt', joinCt' := c, ctgCt, joinCt;
      if blocked {
        ctgCt' := ctgCt + 1;
        done := false;
      } else if joinCt < OPTION_MAX_JOINS {
        ctgCt', joinCt' := 0, joinCt + 1;
        JoinMeaning(c, |c|, cti, required);
        JoinBreaks(c, |c|, cti, required);
        assert c[..|c|] == c;
        r, done := JoinCube(c, cti, required);
      } else {
        done := true;
      }
    }

    /** mic: the cube in heuristic order, then each of its literals l in
        turn: if l is still there, CTG_down tries the cube without l, and its
        success replaces the cube; more than OPTION_CTG_TRIES failures in a
        row stop the loop, and each failure makes l required. The result
        comes back sorted by Lit_CMP. */
    method Mic(cube: Cube, k: int, depth: int) returns (r: Cube)
      requires Valid() && Shaped() && init != null && lift != null && 0 <= k < |frames|
      requires OnLatches(cube)
      modifies this`core, this`epoch, this`frames, this`earliestStrengthenedFrame, solvers, init, lift
      ensures Valid() && Grows(old(frames), frames)
      ensures PartOf(r, cube) && |r| <= |cube| && LitOrdered(r)
      decreases Budget(depth), 9
    {
      var tmp := order(cube, epoch);
      assert Permutes(order, cube, epoch);
      SubCubeOf(tmp, cube);
      assert |tmp| == |multiset(tmp)| == |cube|;
      r := MicLoop(cube, tmp, k, depth);
      var s := SortLits(r);
      SubCubeOf(s, r);
      assert |s| == |multiset(s)| == |r|;
      r := s;
    }

    /** The loop of mic over the literals of tmp, the cube in heuristic
        order, starting from tmp: each literal still in the cube is tried
        with MicStep. */
    method MicLoop(cube: Cube, tmp: Cube, k: int, depth: int) returns (r: Cube)
      requires Valid() && Shaped() && init != null && lift != null && 0 <= k < |frames|
      requires OnLatches(cube) && PartOf(tmp, cube) && |tmp| <= |cube|
      modifies this`core, this`epoch, this`frames, this`earliestStrengthenedFrame, solvers, init, lift
      ensures Valid() && Grows(old(frames), frames)
      ensures PartOf(r, cube) && |r| <= |cube|
      decreases Budget(depth), 8
    {
      r := tmp;
      var failed := 0;
      var required: set<int> := {};
      var j := 0;
      while j < |tmp|
        invariant Valid() && Shaped() && Grows(old(frames), frames)
        invariant PartOf(r, cube) && |r| <= |cube| && 0 <= j <= |tmp|
      {
        var l := tmp[j];
        j := j + 1;
        if l !in r {
          failed := 0;
          continue;
        }
        PartLatches(r, cube);
        var ok, c := MicStep(r, l, k, depth, required);
        if ok {
          failed := 0;
          r := c;
        } else {
          failed := failed + 1;
          if failed > OPTION_CTG_TRIES {
            break;
          }
          required := required + {l};
        }
      }
    }

    /** One literal of mic: CTG_down on the cube r without l; a success
        gives a part of r without l that keeps the required literals of the
        candidate, or the core of the final query. */
    method MicStep(r: Cube, l: int, k: int, depth: int, required: set<int>) returns (ok: bool, c: Cube)
      requires Valid() && Shaped() && init != null && lift != null && 0 <= k < |frames|
      requires OnLatches(r)
      modifies this`core, this`epoch, this`frames, this`earliestStrengthenedFrame, solvers, init, lift
      ensures Valid() && Shaped() && Grows(old(frames), frames)
      ensures PartOf(c, r) && |c| <= |r| && l !in c
      decreases Budget(depth), 7
    {
      var cand := RemoveLit(r, l);
      PartLatches(cand, r);
      ghost var last;
      ok, c, last := CtgDown(cand, k, depth, required);
    }

    /** generalize: mic from the first level. */
    method Generalize(cube: Cube, k: int) returns (r: Cube)
      requires Valid() && Shaped() && init != null && lift != null && 0 <= k < |frames|
      requires OnLatches(cube)
      modifies this`core, this`epoch, this`frames, this`earliestStrengthenedFrame, solvers, init, lift
      ensures Valid() && Grows(old(frames), frames)
      ensures PartOf(r, cube) && |r| <= |cube| && LitOrdered(r)
    {
      r := Mic(cube, k, 1);
    }

    // -------------------------------------------------------------------------
    // get_pre_of_bad and rec_block_cube (PDR.cpp:765-865, 1329-1398)
    // -------------------------------------------------------------------------

    /** The state at the end of the chain of s: the CTI it leads to. */
    ghost function Root(s: State): State
    {
      if s.chain == [] then s else s.chain[|s.chain| - 1]
    }

    /** An obligation pending on the CTI root in a rec_block_cube that
        started at frame d-1: its state is on latches, its chain of
        successors has depth - 1 states and ends at root, and frame plus
        depth never falls below d. */
    ghost predicate Pending(o: Obligation, root: State, d: int)
      reads this`nInputs, this`nLatches
    {
      0 <= o.frameK <= d && OnLatches(o.state.latches) && o.depth >= 1 &&
      |o.state.chain| == o.depth - 1 && Root(o.state) == root && o.frameK + o.depth >= d
    }

    /** An obligation queue, ordered as the std::set of the source, of
        obligations on states made so far, pending on root. */
    ghost predicate QueueOk(q: seq<Obligation>, root: State, d: int)
      reads this`States, this`nInputs, this`nLatches
    {
      Queue(q) && forall o :: o in q ==> o.state in States && Pending(o, root, d)
    }

    /** Some obligation of q is on state st. */
    ghost predicate Awaits(q: seq<Obligation>, st: State)
    {
      exists o :: o in q && o.state == st
    }

    /** A part of root's latches is blocked in the last frame. */
    ghost predicate RootBlocked(root: State)
      reads this`frames
    {
      BlockedIn(frames, root.latches)
    }

    /** The bookkeeping of states and obligations during one run of
        recursive blocking for root at level d. */
    ghost predicate Book(q: seq<Obligation>, root: State, d: int)
      reads this`States, this`stateCount, States`failed, States`failedDepth, this`nInputs, this`nLatches
    {
      ChainOk() && NoFailures() && QueueOk(q, root, d)
    }

    lemma QueueOkTail(q: seq<Obligation>, root: State, d: int)
      requires QueueOk(q, root, d) && q != []
      ensures QueueOk(q[1..], root, d)
    {
      QueueTail(q);
    }

    /** Inserting keeps every obligation of the queue, and adds o unless one
        with its key is there. */
    lemma InsertKeeps(q: seq<Obligation>, o: Obligation)
      requires Queue(q)
      ensures forall x :: x in q ==> x in InsertObligation(q, o)
      ensures o in InsertObligation(q, o) || HasKey(q, o)
    {
      InsertObligationContents(q, o);
      if !HasKey(q, o) {
        var r := InsertObligation(q, o);
        forall x | x in q ensures x in r {
          assert x in multiset(q);
        }
        assert o in multiset(r);
      }
    }

    lemma QueueOkInsert(q: seq<Obligation>, o: Obligation, root: State, d: int)
      requires QueueOk(q, root, d) && o.state in States && Pending(o, root, d)
      ensures QueueOk(InsertObligation(q, o), root, d)
    {
    }

    /** With stamps distinct among the states made so far, an obligation
        with the key of o is o itself, so inserting o leaves it in the queue. */
    lemma InsertHolds(q: seq<Obligation>, o: Obligation)
      requires ChainOk() && Queue(q) && o.state in States && forall x :: x in q ==> x.state in States
      ensures o in InsertObligation(q, o) && forall x :: x in q ==> x in InsertObligation(q, o)
    {
      InsertKeeps(q, o);
      if HasKey(q, o) {
        var x :| x in q && SameKey(x, o);
        assert x == o;
      }
    }

    /** `obligation_queue.erase(obligation_queue.begin())`. */
    method PopQueue()
      requires obligationQueue != []
      modifies this`obligationQueue
      ensures obligationQueue == old(obligationQueue)[1..]
    {
      obligationQueue := obligationQueue[1..];
    }

    /** `obligation_queue.insert(o)`. */
    method PushQueue(o: Obligation)
      requires Queue(obligationQueue)
      modifies this`obligationQueue
      ensures obligationQueue == InsertObligation(old(obligationQueue), o)
    {
      obligationQueue := InsertObligation(obligationQueue, o);
    }

    /** `new State()` as extract_state_from_sat fills it for the successor
        n: the next stamp of state_count. */
    method NewPredecessor(l: seq<int>, i: seq<int>, n: State) returns (s: State)
      requires ChainOk() && n in States
      modifies this`stateCount, this`States
      ensures ChainOk() && fresh(s) && States == old(States) + {s}
      ensures old(NoFailures()) ==> NoFailures()
      ensures stateCount == old(stateCount) + 1 && s.index == stateCount
      ensures s.latches == l && s.inputs == i && s.next == n && s.chain == [n] + n.chain
      ensures s.failed == 0 && s.failedDepth == 0
    {
      stateCount := stateCount + 1;
      s := new State.Predecessor(stateCount, l, i, n);
      States := States + {s};
    }

    /** The query of get_pre_of_bad: bad' assumed on the top frame's solver. */
    method BadQuery() returns (found: bool)
      requires Valid() && 2 <= |frames|
      modifies solvers[Depth()]
      ensures Valid()
      ensures var m := solvers[Depth()];
        m.added == old(m.added) && m.lastAdded == m.added && m.lastAssumed == [badPrime] &&
        (found <==> ipasir.solve(m.added, [badPrime]) == SAT)
    {
      var m := solvers[Depth()];
      label ready:
      m.Assume(badPrime);
      var res := m.Solve();
      SolverKept@ready(m);
      found := res == SAT;
    }

    /** extract_state_from_sat on frame fi's solver after a satisfiable
        query, for the successor latches sc: the values it reads, on
        latches. */
    method ExtractOn(fi: int, sc: Option<Cube>) returns (inputs: seq<int>, latches: seq<int>, ghost before: seq<int>)
      requires Valid() && Shaped() && 0 <= fi < |frames|
      modifies this`lift, this`Repr, this`epoch, lift
      ensures Valid() && lift != null && OnLatches(latches)
      ensures old(lift) != null ==> lift == old(lift)
      ensures old(lift) == null ==> fresh(lift)
      ensures LiftAnswered(solvers[fi], sc, inputs, latches, before, old(epoch))
    {
      inputs, latches, before := Extract(fi, sc);
      ghost var m := solvers[fi];
      LatchValues(ipasir, m.lastAdded, m.lastAssumed, nInputs, nLatches);
      PartLatches(latches, ModelValues(ipasir, m.lastAdded, m.lastAssumed, 2 + nInputs, nLatches));
    }

    /** get_pre_of_bad: bad' is assumed on the top frame's solver, and a
        satisfiable F_depth /\ T /\ bad' yields the inputs and latches
        extract_state_from_sat finds for no successor. The caller makes the
        state from them. */
    method GetPreOfBad() returns (found: bool, inputs: seq<int>, latches: seq<int>, ghost before: seq<int>)
      requires Valid() && Shaped() && 2 <= |frames|
      modifies solvers[Depth()], this`lift, this`Repr, this`epoch, lift
      ensures Valid()
      ensures var m := solvers[Depth()];
        m.added == old(m.added) && m.lastAdded == m.added && m.lastAssumed == [badPrime] &&
        (found <==> ipasir.solve(m.added, [badPrime]) == SAT)
      ensures old(lift) != null ==> lift == old(lift)
      ensures old(lift) == null ==> lift == null || fresh(lift)
      ensures !found ==> latches == [] && inputs == []
      ensures found ==>
        lift != null && OnLatches(latches) &&
        LiftAnswered(solvers[Depth()], None, inputs, latches, before, old(epoch))
    {
      found := BadQuery();
      inputs, latches, before := [], [], [];
      if found {
        inputs, latches, before := ExtractOn(Depth(), None);
      }
    }

    /** Whether the failed_depth pruning of rec_block_cube drops o. */
    predicate PruneFires(o: Obligation)
      reads this`frames, o.state`failed, o.state`failedDepth
    {
      var sum, fd := o.depth + o.frameK, o.state.failedDepth;
      (fd != 0 && fd <= sum) || (o.state.failed >= 5 && sum > Depth())
    }

    /** The states whose failed_depth the pruning of o writes: none unless
        it fires. */
    function PruneTargets(o: Obligation): set<State?>
      reads this`frames, o.state`failed, o.state`failedDepth
    {
      if PruneFires(o) then {o.state, o.state.next} else {}
    }

    /** The failed_depth pruning of rec_block_cube for the head obligation
        o: it leaves the queue when its state failed at a depth no greater
        than o's depth plus frame, or when the state failed five times and
        that sum is above depth(), which then becomes the failed depth; the
        successor inherits the failed depth. */
    method Prune(o: Obligation) returns (pruned: bool)
      requires obligationQueue != [] && o == obligationQueue[0]
      modifies this`obligationQueue, PruneTargets(o)`failedDepth
      ensures var sum, fd := o.depth + o.frameK, old(o.state.failedDepth);
        var spent := !(fd != 0 && fd <= sum) && o.state.failed >= 5 && sum > Depth();
        (pruned <==> (fd != 0 && fd <= sum) || spent) &&
        o.state.failedDepth == (if spent then sum else fd)
      ensures obligationQueue == if pruned then old(obligationQueue)[1..] else old(obligationQueue)
      ensures o.state.next != null && o.state.next != o.state ==>
        o.state.next.failedDepth == if pruned then o.state.failedDepth else old(o.state.next.failedDepth)
    {
      var st := o.state;
      if st.failedDepth != 0 && st.failedDepth <= o.depth + o.frameK {
        PopQueue();
        if st.next != null {
          st.next.failedDepth := st.failedDepth;
        }
        return true;
      }
      if st.failed >= 5 && o.depth + o.frameK > Depth() {
        PopQueue();
        st.failedDepth := o.depth + o.frameK;
        if st.next != null {
          st.next.failedDepth := st.failedDepth;
        }
        return true;
      }
      return false;
    }

    /** generalize on the core left by is_inductive on frame k, and, with
        use_pc outside rec_block_cube2, the result into frame k's pushed
        set. */
    method GeneralizeAt(k: int, second: bool) returns (g: Cube)
      requires Valid() && Shaped() && init != null && lift != null && 0 <= k < |frames|
      requires OnLatches(core)
      modifies this`core, this`epoch, this`frames, this`earliestStrengthenedFrame, solvers, init, lift
      ensures Valid() && Grows(old(frames), frames)
      ensures PartOf(g, old(core)) && OnLatches(g)
    {
      var cube := core;
      g := Generalize(cube, k);
      PartLatches(g, cube);
      if usePc && !second {
        PushSucc(k, g);
      }
    }

    /** The blocking branch of rec_block_cube once is_inductive has left
        the core of the obligation's state in core: generalize's cube g (a
        part of that core) is pushed forward from the next frame while each
        query holds (into the pushed sets, with use_pc, outside
        rec_block_cube2), and its sorted copy c is added to the frame k
        where the push stopped, at most depth()+1. */
    method BlockCore(frameK: int, second: bool) returns (k: int, c: Cube)
      requires Valid() && Shaped() && init != null && lift != null && 0 <= frameK <= Depth()
      requires OnLatches(core)
      modifies this`core, this`epoch, this`frames, this`earliestStrengthenedFrame, solvers, init, lift
      ensures Valid() && Grows(old(frames), frames)
      ensures frameK < k <= Depth() + 1 && c in frames[k].cubes && PartOf(c, old(core))
    {
      var g := GeneralizeAt(frameK, second);
      k := PushForward(g, frameK + 1, !second);
      c := AddSorted(g, k);
    }

    /** The queue side of the blocking branch: o leaves the queue and, when
        it was blocked at a frame k of at most depth(), comes back at k. */
    method Requeue(o: Obligation, root: State, k: int)
      requires ChainOk() && QueueOk(obligationQueue, root, Depth()) && obligationQueue != [] && o == obligationQueue[0]
      requires o.frameK < k <= Depth() + 1
      requires RootBlocked(root) || Awaits(obligationQueue, root)
      requires o.state == root && k == Depth() + 1 ==> RootBlocked(root)
      modifies this`obligationQueue
      ensures QueueOk(obligationQueue, root, Depth())
      ensures RootBlocked(root) || Awaits(obligationQueue, root)
      ensures obligationQueue == if k <= Depth()
        then InsertObligation(old(obligationQueue)[1..], Obligation(o.state, k, o.depth))
        else old(obligationQueue)[1..]
      ensures k <= Depth() ==> Obligation(o.state, k, o.depth) in obligationQueue
    {
      ghost var q := obligationQueue;
      QueueOkTail(q, root, Depth());
      assert forall x :: x in q && x != o ==> x in q[1..] by {
        forall x | x in q && x != o ensures x in q[1..] {
          var i :| 0 <= i < |q| && q[i] == x;
          assert i != 0;
        }
      }
      PopQueue();
      if k <= Depth() {
        var n := Obligation(o.state, k, o.depth);
        InsertHolds(q[1..], n);
        QueueOkInsert(q[1..], n, root, Depth());
        PushQueue(n);
      }
    }

    /** The blocking branch of rec_block_cube: a part of the obligation's
        state's latches is blocked at a frame k above o's; o leaves the
        queue and comes back at frame k when k is at most depth(). An
        obligation on root stays in the queue unless root is blocked in the
        last frame. */
    method Block(o: Obligation, root: State, second: bool) returns (k: int)
      requires Valid() == true && Shaped() == true && init != null && lift != null
      requires Book(obligationQueue, root, Depth()) == true && obligationQueue != [] && o == obligationQueue[0]
      requires PartOf(core, o.state.latches) && OnLatches(core)
      requires RootBlocked(root) || Awaits(obligationQueue, root)
      modifies this`obligationQueue, this`core, this`epoch, this`frames, this`earliestStrengthenedFrame, solvers,
        init, lift
      ensures Valid() == true && Grows(old(frames), frames)
      ensures Book(obligationQueue, root, Depth()) == true && (RootBlocked(root) || Awaits(obligationQueue, root))
      ensures o.frameK < k <= Depth() + 1 && exists c :: c in frames[k].cubes && PartOf(c, o.state.latches)
      ensures k <= Depth() ==> Obligation(o.state, k, o.depth) in obligationQueue
    {
      k := BlockFrames(o, root, second);
      RequeueBook(o, root, k);
    }

    /** Requeue, with the bookkeeping of states kept. */
    method RequeueBook(o: Obligation, root: State, k: int)
      requires Book(obligationQueue, root, Depth()) == true && obligationQueue != [] && o == obligationQueue[0]
      requires o.frameK < k <= Depth() + 1
      requires RootBlocked(root) || Awaits(obligationQueue, root)
      requires o.state == root && k == Depth() + 1 ==> RootBlocked(root)
      modifies this`obligationQueue
      ensures Book(obligationQueue, root, Depth()) == true && (RootBlocked(root) || Awaits(obligationQueue, root))
      ensures k <= Depth() ==> Obligation(o.state, k, o.depth) in obligationQueue
    {
      Requeue(o, root, k);
    }

    /** The frame side of the blocking branch: the cube is added at frame
        k, the queue and the states are left as they were. */
    method BlockFrames(o: Obligation, root: State, second: bool) returns (k: int)
      requires Valid() == true && Shaped() == true && init != null && lift != null
      requires Book(obligationQueue, root, Depth()) == true && obligationQueue != [] && o == obligationQueue[0]
      requires PartOf(core, o.state.latches) && OnLatches(core)
      requires RootBlocked(root) || Awaits(obligationQueue, root)
      modifies this`core, this`epoch, this`frames, this`earliestStrengthenedFrame, solvers, init, lift
      ensures Valid() == true && Grows(old(frames), frames) && Depth() == old(Depth())
      ensures Book(obligationQueue, root, Depth()) == true && (RootBlocked(root) || Awaits(obligationQueue, root))
      ensures o.frameK < k <= Depth() + 1 && exists c :: c in frames[k].cubes && PartOf(c, o.state.latches)
      ensures o.state == root && k == Depth() + 1 ==> RootBlocked(root)
    {
      k := BlockCut(o, root, second);
    }

    /** BlockCore for the obligation o: the frames side of the blocking
        branch, with root still blocked in the last frame if it was, or
        blocked there now when o is on root and k is past depth(). */
    method BlockCut(o: Obligation, root: State, second: bool) returns (k: int)
      requires Valid() && Shaped() && init != null && lift != null && 0 <= o.frameK <= Depth()
      requires PartOf(core, o.state.latches) && OnLatches(core)
      modifies this`core, this`epoch, this`frames, this`earliestStrengthenedFrame, solvers, init, lift
      ensures Valid() && Grows(old(frames), frames) && Depth() == old(Depth())
      ensures o.frameK < k <= Depth() + 1 && exists c :: c in frames[k].cubes && PartOf(c, o.state.latches)
      ensures old(RootBlocked(root)) || (o.state == root && k == Depth() + 1) ==> RootBlocked(root)
    {
      ghost var f, l := frames, o.state.latches;
      ghost var wasBlocked := RootBlocked(root);
      var c;
      k, c := BlockCore(o.frameK, second);
      PartOfTransitive(c, old(core), l);
      BlockedAfter(f, frames, c, k, root.latches, wasBlocked, o.state == root);
      assert |frames| == |f|;
    }

    /** The successor chain of a predecessor of n ends where n's does. */
    lemma PredecessorRoot(s: State, n: State)
      requires s.chain == [n] + n.chain
      ensures Root(s) == Root(n) && |s.chain| == |n.chain| + 1
    {
    }

    /** `obligation_queue.insert(n)` for an obligation pending on root. */
    method Enqueue(n: Obligation, root: State)
      requires ChainOk() && QueueOk(obligationQueue, root, Depth()) && n.state in States && Pending(n, root, Depth())
      modifies this`obligationQueue
      ensures QueueOk(obligationQueue, root, Depth()) && n in obligationQueue
      ensures forall x :: x in old(obligationQueue) ==> x in obligationQueue
      ensures obligationQueue == InsertObligation(old(obligationQueue), n)
    {
      InsertHolds(obligationQueue, n);
      QueueOkInsert(obligationQueue, n, root, Depth());
      PushQueue(n);
    }

    /** `cex_state_idx = s; find_cex = true`. */
    method SetCex(s: State)
      modifies this`cexState, this`findCex
      ensures cexState == s && findCex
    {
      cexState, findCex := s, true;
    }

    /** add_cube(c, i, true) outside propagation, for a c the caller keeps:
        c comes back sorted, and is in frame i. */
    method SortIn(c: Cube, i: int) returns (sorted: Cube)
      requires Valid() && 1 <= i < |frames| && OnLatches(c)
      modifies this`earliestStrengthenedFrame, this`frames, this`epoch, solvers`added, solvers`nv
      ensures Valid() && Grows(old(frames), frames)
      ensures sorted == SortLits(c) && sorted in frames[i].cubes && OnLatches(sorted)
    {
      SortedLatches(c);
      sorted := AddCube(c, i, true, false);
    }

    /** What extract_state_from_sat reads after a failed query of the
        successor latches succ on frame fi: the model's inputs and the
        latches l lift keeps; in rec_block_cube2, below frame 0,
        add_cube(s->latches, fi, true) then adds them to frame fi and
        sorts them. */
    method ExtractSorted(fi: int, succ: Cube, second: bool)
      returns (inputs: seq<int>, latches: Cube, ghost l: Cube, ghost before: seq<int>)
      requires Valid() && Shaped() && 0 <= fi < |frames|
      modifies this`lift, this`Repr, this`epoch, lift, this`earliestStrengthenedFrame, this`frames,
        solvers`added, solvers`nv
      ensures Valid() && lift != null && Grows(old(frames), frames)
      ensures old(lift) != null ==> lift == old(lift)
      ensures old(lift) == null ==> fresh(lift)
      ensures OnLatches(latches) && latches == if second && fi > 0 then SortLits(l) else l
      ensures second && fi > 0 ==> latches in frames[fi].cubes
      ensures LiftAnswered(solvers[fi], Some(succ), inputs, l, before, old(epoch))
    {
      var read;
      inputs, read, before := ExtractOn(fi, Some(succ));
      l := read;
      latches := SortedAt(fi, read, second);
    }

    /** In rec_block_cube2, below frame 0, add_cube(l, fi, true): l then
        comes back sorted and is in frame fi; otherwise l is left alone. */
    method SortedAt(fi: int, l: Cube, second: bool) returns (latches: Cube)
      requires Valid() && 0 <= fi < |frames| && OnLatches(l)
      modifies this`earliestStrengthenedFrame, this`frames, this`epoch, solvers`added, solvers`nv
      ensures Valid() && Grows(old(frames), frames) && solvers == old(solvers) && lift == old(lift)
      ensures OnLatches(latches) && latches == if second && fi > 0 then SortLits(l) else l
      ensures second && fi > 0 ==> latches in frames[fi].cubes
      ensures forall m :: m in solvers ==> m.lastAdded == old(m.lastAdded) && m.lastAssumed == old(m.lastAssumed)
    {
      latches := l;
      if second && fi > 0 {
        latches := SortIn(l, fi);
      } else {
        GrowsReflexive(frames);
      }
    }

    /** The bookkeeping of the failed-query branch for the predecessor
        found, with inputs and latches, for the obligation o: a `new State`
        after o's state; at frame 0 it becomes the counterexample's first
        state, and otherwise an obligation one frame lower and one step
        deeper. */
    method Record(o: Obligation, root: State, inputs: seq<int>, latches: Cube) returns (cex: bool, s: State)
      requires ChainOk() && NoFailures() && QueueOk(obligationQueue, root, Depth()) && o in obligationQueue
      requires OnLatches(latches)
      modifies this`stateCount, this`States, this`obligationQueue, this`cexState, this`findCex
      ensures ChainOk() && NoFailures() && QueueOk(obligationQueue, root, Depth())
      ensures fresh(s) && States == old(States) + {s} && s.next == o.state && s.latches == latches && s.inputs == inputs
      ensures forall x :: x in old(obligationQueue) ==> x in obligationQueue
      ensures cex == (o.frameK == 0)
      ensures cex ==> findCex && cexState == s && Root(s) == root && |s.chain| >= Depth() && obligationQueue == old(obligationQueue)
      ensures !cex ==> obligationQueue == InsertObligation(old(obligationQueue), Obligation(s, o.frameK - 1, o.depth + 1))
      ensures !cex ==> Obligation(s, o.frameK - 1, o.depth + 1) in obligationQueue
    {
      s := NewPredecessor(latches, inputs, o.state);
      PredecessorRoot(s, o.state);
      if o.frameK == 0 {
        SetCex(s);
        cex := true;
      } else {
        Enqueue(Obligation(s, o.frameK - 1, o.depth + 1), root);
        cex := false;
      }
    }

    /** The other branch of rec_block_cube: the query of the obligation o
        failed, so its model yields a predecessor s of o's state; at frame 0
        s is the start of a counterexample, and otherwise s becomes an
        obligation one frame lower and one step deeper (after add_cube in
        rec_block_cube2). o stays in the queue. */
    method Predecessor(o: Obligation, root: State, second: bool) returns (cex: bool, s: State)
      requires Valid() == true && Shaped() == true && root in States
      requires Book(obligationQueue, root, Depth()) == true && obligationQueue != [] && o == obligationQueue[0]
      requires RootBlocked(root) || Awaits(obligationQueue, root)
      modifies this`lift, this`Repr, this`epoch, lift, this`earliestStrengthenedFrame, this`frames,
        solvers`added, solvers`nv, this`stateCount, this`States, this`obligationQueue, this`cexState, this`findCex
      ensures Valid() == true && lift != null && Grows(old(frames), frames)
      ensures old(lift) != null ==> lift == old(lift)
      ensures old(lift) == null ==> fresh(lift)
      ensures init == old(init)
      ensures Book(obligationQueue, root, Depth()) == true && (RootBlocked(root) || Awaits(obligationQueue, root))
      ensures cex == (o.frameK == 0) && fresh(s) && s.next == o.state && States == old(States) + {s}
      ensures cex ==> findCex && cexState == s && Root(s) == root && |s.chain| >= Depth()
      ensures !cex ==> Obligation(s, o.frameK - 1, o.depth + 1) in obligationQueue
    {
      var inputs, latches := PredecessorValues(o, root, second);
      cex, s := RecordValid(o, root, inputs, latches);
    }

    /** The values of the failed-query branch: ExtractSorted, with the
        bookkeeping of states and obligations kept. */
    method PredecessorValues(o: Obligation, root: State, second: bool) returns (inputs: seq<int>, latches: Cube)
      requires Valid() && Shaped() && root in States
      requires Book(obligationQueue, root, Depth()) && o in obligationQueue
      requires RootBlocked(root) || Awaits(obligationQueue, root)
      modifies this`lift, this`Repr, this`epoch, lift, this`earliestStrengthenedFrame, this`frames,
        solvers`added, solvers`nv
      ensures Valid() && lift != null && Grows(old(frames), frames)
      ensures old(lift) != null ==> lift == old(lift)
      ensures old(lift) == null ==> fresh(lift)
      ensures Book(obligationQueue, root, Depth()) && (RootBlocked(root) || Awaits(obligationQueue, root))
      ensures OnLatches(latches) && init == old(init)
    {
      var succ := o.state.latches;
      ghost var q, f := obligationQueue, frames;
      ghost var wasBlocked := RootBlocked(root);
      label start:
      inputs, latches := ExtractFor(o.frameK, succ, second);
      assert obligationQueue == q && |frames| == |f| && Depth() == |f| - 2;
      if wasBlocked {
        GrowsKeepsBlocked(f, frames, root.latches);
      }
    }

    /** ExtractSorted as the blocking loop uses it: only the invariant and
        the latch shape of the result. */
    method ExtractFor(fi: int, succ: Cube, second: bool) returns (inputs: seq<int>, latches: Cube)
      requires Valid() && Shaped() && 0 <= fi < |frames|
      modifies this`lift, this`Repr, this`epoch, lift, this`earliestStrengthenedFrame, this`frames,
        solvers`added, solvers`nv
      ensures Valid() && lift != null && Grows(old(frames), frames)
      ensures old(lift) != null ==> lift == old(lift)
      ensures old(lift) == null ==> fresh(lift)
      ensures OnLatches(latches) && init == old(init)
    {
      ghost var l, before;
      inputs, latches, l, before := ExtractSorted(fi, succ, second);
    }

    /** Record, with the invariant kept. */
    method RecordValid(o: Obligation, root: State, inputs: seq<int>, latches: Cube) returns (cex: bool, s: State)
      requires Valid() && Book(obligationQueue, root, Depth()) && o in obligationQueue
      requires OnLatches(latches)
      modifies this`stateCount, this`States, this`obligationQueue, this`cexState, this`findCex
      ensures Valid() && Book(obligationQueue, root, Depth())
      ensures fresh(s) && s.next == o.state && States == old(States) + {s}
      ensures forall x :: x in old(obligationQueue) ==> x in obligationQueue
      ensures cex == (o.frameK == 0)
      ensures cex ==> findCex && cexState == s && Root(s) == root && |s.chain| >= Depth()
      ensures !cex ==> Obligation(s, o.frameK - 1, o.depth + 1) in obligationQueue
    {
      cex, s := Record(o, root, inputs, latches);
    }

    /** is_inductive of the head obligation's state on its frame, keeping
        the core, as rec_block_cube asks it once the solver of I exists:
        only what the loop needs. */
    method HeadInductive(o: Obligation) returns (r: bool)
      requires Valid() == true && init != null && 0 <= o.frameK < |frames| && OnLatches(o.state.latches)
      modifies this`core, init, solvers[o.frameK]
      ensures Valid() == true
      ensures r ==> PartOf(core, o.state.latches) && OnLatches(core)
    {
      var q;
      r, q := QueryFrame(o.frameK, o.state.latches);
      if r {
        CoreWith(o.frameK, q);
        if PcHit(o.frameK, o.state.latches).Some? {
          SubCubeOf(q, o.state.latches);
        }
        PartLatches(core, o.state.latches);
      }
    }

    /** The bookkeeping of a run of rec_block_cube for the CTI root, apart
        from the engine invariant: the translation tables, the lifting
        solver, the states and obligations, and root either blocked in the
        last frame or still awaited in the queue. Contracts state it, and
        Valid, as `P == true`, which the verifier checks as one fact
        instead of conjunct by conjunct. */
    ghost predicate Run(root: State)
      reads this`frames, this`lift, this`nInputs, this`nLatches, this`nAnds, this`ands, this`nexts,
        this`constraints, this`constraintsPrime, this`bad, this`primedFirst, this`variables, this`mapToPrime,
        this`mapToUnprime, this`States, this`stateCount, States`failed, States`failedDepth, this`obligationQueue
    {
      Shaped() && lift != null && root in States && Book(obligationQueue, root, Depth()) &&
      (RootBlocked(root) || Awaits(obligationQueue, root))
    }

    /** A run starts from its own frames, lifting solver and states. */
    lemma KeepsStart(root: State)
      requires Run(root) == true
      ensures Keeps(root, frames, lift, States) == true
    {
      GrowsReflexive(frames);
    }

    /** In a run for root since (f0, l0, S0), the head obligation of a
        non-empty queue is o. */
    ghost predicate AtHead(root: State, o: Obligation, f0: seq<Frame>, l0: CaDiCaL?, S0: set<State>)
      reads this`frames, this`lift, this`nInputs, this`nLatches, this`nAnds, this`ands, this`nexts,
        this`constraints, this`constraintsPrime, this`bad, this`primedFirst, this`variables, this`mapToPrime,
        this`mapToUnprime, this`States, this`stateCount, States`failed, States`failedDepth, this`obligationQueue
    {
      Keeps(root, f0, l0, S0) && obligationQueue != [] && o == obligationQueue[0]
    }

    /** is_inductive held for the state of o and left a core within it. */
    ghost predicate Held(o: Obligation)
      reads this`init, this`core, this`nInputs, this`nLatches
    {
      init != null && PartOf(core, o.state.latches) && OnLatches(core)
    }

    /** A counterexample through root was found, at least depth() steps
        long. */
    ghost predicate Found(root: State)
      reads this`findCex, this`cexState, this`States, this`frames
    {
      findCex && cexState != null && cexState in States && Root(cexState) == root && |cexState.chain| >= Depth()
    }

    /** Run, with the frames grown from f0, the lifting solver still l0
        and the states of S0 kept: what a round of the blocking loop leaves
        behind, besides the engine invariant. */
    ghost predicate Keeps(root: State, f0: seq<Frame>, l0: CaDiCaL?, S0: set<State>)
      reads this`frames, this`lift, this`nInputs, this`nLatches, this`nAnds, this`ands, this`nexts,
        this`constraints, this`constraintsPrime, this`bad, this`primedFirst, this`variables, this`mapToPrime,
        this`mapToUnprime, this`States, this`stateCount, States`failed, States`failedDepth, this`obligationQueue
    {
      Run(root) && Grows(f0, frames) && lift == l0 && S0 <= States
    }

    /** The head obligation o of a non-empty queue and is_inductive's
        answer for its state on its frame. */
    method HeadQuery(root: State, ghost f0: seq<Frame>, ghost l0: CaDiCaL?, ghost S0: set<State>)
      returns (o: Obligation, held: bool)
      requires Valid() == true && Keeps(root, f0, l0, S0) == true && obligationQueue != [] && init != null
      modifies this`core, init, solvers
      ensures Valid() == true && AtHead(root, o, f0, l0, S0) == true
      ensures init == old(init) && solvers == old(solvers) && lift == old(lift)
      ensures held ==> Held(o) == true
    {
      o := obligationQueue[0];
      held := HeadInductive(o);
    }

    /** One test of the loop of rec_block_cube and, unless the queue is
        empty, one round: Some(true) for an empty queue, with a part of
        root then blocked in the last frame; Some(false) for a
        counterexample; None to go on. */
    method Round(root: State, second: bool, ghost f0: seq<Frame>, ghost l0: CaDiCaL?, ghost S0: set<State>)
      returns (r: Option<bool>)
      requires Valid() == true && Keeps(root, f0, l0, S0) == true && init != null
      modifies this`obligationQueue, this`core, this`epoch, this`frames, this`earliestStrengthenedFrame,
        this`lift, this`Repr, solvers, init, lift, this`stateCount, this`States, this`cexState, this`findCex
      ensures Valid() == true && Keeps(root, f0, l0, S0) == true && init == old(init)
      ensures r == Some(true) ==> obligationQueue == [] && RootBlocked(root)
      ensures r == Some(false) ==> Found(root) == true
    {
      if obligationQueue == [] {
        return Some(true);
      }
      var cex := RecBlockStep(root, second, f0, l0, S0);
      r := if cex then Some(false) else None;
    }

    /** One round of the loop of rec_block_cube (second: of
        rec_block_cube2) on the head obligation: when its state is
        inductive relative to its frame it is blocked; otherwise, unless
        pruned, its predecessor is found, which at frame 0 is the
        counterexample. */
    method RecBlockStep(root: State, second: bool, ghost f0: seq<Frame>, ghost l0: CaDiCaL?, ghost S0: set<State>)
      returns (cex: bool)
      requires Valid() == true && Keeps(root, f0, l0, S0) == true && obligationQueue != [] && init != null
      modifies this`obligationQueue, this`core, this`epoch, this`frames, this`earliestStrengthenedFrame,
        this`lift, this`Repr, solvers, init, lift, this`stateCount, this`States, this`cexState, this`findCex
      ensures Valid() == true && Keeps(root, f0, l0, S0) == true && init == old(init)
      ensures cex ==> Found(root) == true
    {
      var o, held := HeadQuery(root, f0, l0, S0);
      cex := Dispatch(o, root, second, held, f0, l0, S0);
    }

    /** The two branches of the loop of rec_block_cube on the head
        obligation o, after is_inductive answered held. */
    method Dispatch(o: Obligation, root: State, second: bool, held: bool,
                    ghost f0: seq<Frame>, ghost l0: CaDiCaL?, ghost S0: set<State>) returns (cex: bool)
      requires Valid() == true && AtHead(root, o, f0, l0, S0) == true && (held ==> Held(o) == true)
      modifies this`obligationQueue, this`core, this`epoch, this`frames, this`earliestStrengthenedFrame, this`lift,
        this`Repr, solvers, init, lift, this`stateCount, this`States, this`cexState, this`findCex
      ensures Valid() == true && Keeps(root, f0, l0, S0) == true && init == old(init)
      ensures cex ==> Found(root) == true
    {
      if held {
        BlockStep(o, root, second, f0, l0, S0);
        cex := false;
      } else {
        cex := FailStep(o, root, second, f0, l0, S0);
      }
    }

    /** The blocking branch of the loop of rec_block_cube, in terms of the
        run's bookkeeping. */
    method BlockStep(o: Obligation, root: State, second: bool,
                     ghost f0: seq<Frame>, ghost l0: CaDiCaL?, ghost S0: set<State>)
      requires Valid() == true && AtHead(root, o, f0, l0, S0) == true && Held(o) == true
      modifies this`obligationQueue, this`core, this`epoch, this`frames, this`earliestStrengthenedFrame, solvers,
        init, lift
      ensures Valid() == true && Keeps(root, f0, l0, S0) == true && init == old(init)
    {
      ghost var f := frames;
      BlockRun(o, root, second);
      GrowsTransitive(f0, f, frames);
    }

    /** Block as the blocking loop uses it: the run's bookkeeping kept and
        the frames grown. */
    method BlockRun(o: Obligation, root: State, second: bool)
      requires Valid() == true && Run(root) == true && obligationQueue != [] && o == obligationQueue[0]
      requires Held(o) == true
      modifies this`obligationQueue, this`core, this`epoch, this`frames, this`earliestStrengthenedFrame, solvers,
        init, lift
      ensures Valid() == true && Run(root) == true && Grows(old(frames), frames)
      ensures lift == old(lift) && States == old(States) && init == old(init)
    {
      var k := Block(o, root, second);
    }

    /** The failed-query branch of rec_block_cube: the pruning by failed
        depth never fires, since no state has failed, and the predecessor of
        the head obligation's state is found. */
    method FailStep(o: Obligation, root: State, second: bool,
                    ghost f0: seq<Frame>, ghost l0: CaDiCaL?, ghost S0: set<State>) returns (cex: bool)
      requires Valid() == true && AtHead(root, o, f0, l0, S0) == true
      modifies this`lift, this`Repr, this`epoch, lift, this`earliestStrengthenedFrame, this`frames,
        solvers`added, solvers`nv, this`stateCount, this`States, this`obligationQueue, this`cexState, this`findCex
      ensures Valid() == true && Keeps(root, f0, l0, S0) == true && init == old(init)
      ensures cex ==> Found(root) == true
    {
      if PruneFires(o) {
        assert false;
      }
      ghost var f := frames;
      cex := PredecessorRun(o, root, second);
      GrowsTransitive(f0, f, frames);
    }

    /** Predecessor as the blocking loop uses it: the run's bookkeeping
        kept, and a counterexample through root when one was found. */
    method PredecessorRun(o: Obligation, root: State, second: bool) returns (cex: bool)
      requires Valid() == true && Run(root) == true && obligationQueue != [] && o == obligationQueue[0]
      modifies this`lift, this`Repr, this`epoch, lift, this`earliestStrengthenedFrame, this`frames,
        solvers`added, solvers`nv, this`stateCount, this`States, this`obligationQueue, this`cexState, this`findCex
      ensures Valid() == true && Run(root) == true && Grows(old(frames), frames)
      ensures lift == old(lift) && old(States) <= States && init == old(init)
      ensures cex ==> Found(root) == true
    {
      var s;
      cex, s := Predecessor(o, root, second);
    }

    /** The loop of rec_block_cube (second: of rec_block_cube2), for the
        obligations of the CTI root: Some(true) when the queue runs empty,
        and then a part of root is blocked in the last frame; Some(false)
        when a predecessor at frame 0 ends a counterexample through root,
        at least depth() steps long; None when fuel rounds were not enough. */
    method RecBlock(root: State, second: bool, fuel: nat) returns (r: Option<bool>)
      requires Valid() == true && Run(root) == true && init != null
      modifies this`obligationQueue, this`core, this`epoch, this`frames, this`earliestStrengthenedFrame,
        this`lift, this`Repr, solvers, init, lift, this`stateCount, this`States, this`cexState, this`findCex
      ensures Valid() == true && Keeps(root, old(frames), old(lift), old(States)) == true && init == old(init)
      ensures r == Some(true) ==> obligationQueue == [] && RootBlocked(root)
      ensures r == Some(false) ==> Found(root) == true
    {
      KeepsStart(root);
      var n := 0;
      while n < fuel
        invariant Valid() == true && Keeps(root, old(frames), old(lift), old(States)) == true && init == old(init)
        decreases fuel - n
      {
        r := Round(root, second, old(frames), old(lift), old(States));
        if r != None {
          return;
        }
        n := n + 1;
      }
      return None;
    }

    // -------------------------------------------------------------------------
    // initialize, check_BMC0, check_BMC1 (PDR.cpp:318-326, 1049-1092)
    // -------------------------------------------------------------------------

    /** initialize: no simplifier yet, then translate_to_dimacs
        (simplify_aiger is empty, the heuristic scores are not modelled);
        false when an assert of translate_to_dimacs fails. */
    method Initialize() returns (ok: bool)
      requires Unstarted() && ConsistentCounts(aiger) && Fits(aiger) && LiteralsInRange(aiger)
      modifies this`satelite, this`nInputs, this`nLatches, this`nAnds, this`variables, this`ands, this`nexts,
        this`constraints, this`constraintsPrime, this`initState, this`bad, this`badPrime, this`primedFirst,
        this`mapToPrime, this`mapToUnprime
      ensures Unstarted() && (ok <==> TranslationDefined(aiger, propertyIndex))
      ensures ok ==> Translated() && Shaped()
    {
      satelite := null;
      ok := TranslateToDimacs();
      NothingStartedValid();
    }

    /** With no frame, no solver of its own and no lift or init solver,
        the engine invariant holds whatever the translation. */
    lemma NothingStartedValid()
      requires frames == [] && solvers == [] && lift == null && init == null && satelite == null
      requires ValNamesVariable(ipasir) && OrderPermutes(order) && earliestStrengthenedFrame >= 1
      ensures Valid()
    {
    }

    /** SAT?[I /\ Bad]: an initial state is bad. */
    ghost predicate InitBad()
      reads this`initState, this`constraints, this`ands, this`bad
    {
      ipasir.solve(InitCnf() + ConeStream(ands, {Abs(bad)}, |ands|), [bad]) == SAT
    }

    /** SAT?[I /\ T /\ bad'], T being satelite's simplified translation: a
        successor of an initial state is bad. */
    ghost predicate InitStepBad()
      reads this`initState, this`constraints, this`ands, this`badPrime, this`satelite, satelite
    {
      satelite != null && ipasir.solve(InitCnf() + satelite.simplifiedCnf, [badPrime]) == SAT
    }

    /** Both bounded checks passed: no bad initial state and no bad
        successor of one. */
    ghost predicate BoundedSafe()
      reads this`initState, this`constraints, this`ands, this`bad, this`badPrime, this`satelite, satelite
    {
      !InitBad() && !InitStepBad()
    }

    /** The query of check_BMC0, on a solver of its own that is deleted
        afterwards. */
    method InitBadQuery() returns (res: int)
      ensures res == SAT <==> InitBad()
      ensures lift == old(lift) && init == old(init)
    {
      var s := InitBadSolver();
      res := SolveAssuming(s, bad);
    }

    /** The solver of check_BMC0: I, then the cone of bad. */
    method InitBadSolver() returns (s: CaDiCaL)
      ensures fresh(s) && s.Valid() && s.oracle == ipasir && s.pending == []
      ensures s.added == InitCnf() + ConeStream(ands, {Abs(bad)}, |ands|)
    {
      s := new CaDiCaL(ipasir);
      EncodeInitCondition(s);
      EncodeBadState(s);
    }

    /** The query of check_BMC1, on a solver of its own, and on SAT the
        values of the inputs and of the latches in its model, zeros
        included. */
    /** The values of the model of I /\ T /\ bad': the inputs, then the
        latches, read from variables 2.. . */
    ghost predicate InitStepModel(inputs: seq<int>, latches: seq<int>)
      reads this`initState, this`constraints, this`ands, this`badPrime, this`satelite, satelite, this`nInputs,
        this`nLatches
      requires satelite != null && nInputs >= 0 && nLatches >= 0
    {
      var m := InitCnf() + satelite.simplifiedCnf;
      inputs == AllValues(ipasir, m, [badPrime], 2, nInputs) &&
      latches == AllValues(ipasir, m, [badPrime], 2 + nInputs, nLatches)
    }

    method InitStepQuery() returns (res: int, inputs: seq<int>, latches: seq<int>)
      requires satelite != null && nInputs >= 0 && nLatches >= 0
      ensures res == SAT <==> InitStepBad()
      ensures res == SAT ==> InitStepModel(inputs, latches)
    {
      var s := InitStepSolver();
      res := SolveAssuming(s, badPrime);
      inputs, latches := [], [];
      if res == SAT {
        inputs := ReadValues(s, 2, nInputs);
        latches := ReadValues(s, 2 + nInputs, nLatches);
      }
    }

    /** The solver of check_BMC1: I, then encode_translation, which finds
        satelite built and copies its simplified formula. */
    method InitStepSolver() returns (s: CaDiCaL)
      requires satelite != null
      ensures fresh(s) && s.Valid() && s.oracle == ipasir && s.pending == []
      ensures s.added == InitCnf() + satelite.simplifiedCnf
    {
      s := new CaDiCaL(ipasir);
      EncodeInitCondition(s);
      AddAll(s, satelite.simplifiedCnf);
    }

    /** encode_init_condition on the solver of frame i. */
    method EncodeInitOn(i: int)
      requires Valid() && 0 <= i < |frames|
      modifies solvers[i]
      ensures Valid() && solvers[i].added == old(solvers[i].added) + InitCnf()
    {
      var s := solvers[i];
      label ready:
      EncodeInitCondition(s);
      SolverKept@ready(s);
    }

    /** check_BMC0: a bad initial state is a counterexample; otherwise frame
        0 is pushed, and holds I besides the translation. */
    method CheckBmc0() returns (r: bool)
      requires Valid() == true && Shaped() == true && frames == []
      modifies this`findCex, this`frames, this`solvers, this`Repr, this`satelite, this`variables, this`mapToPrime,
        this`mapToUnprime, this`sateliteStream
      ensures Valid() == true && Shaped() == true && (r <==> !InitBad())
      ensures !r ==> findCex && frames == [] && satelite == old(satelite)
      ensures r ==> frames == [Frame([], [])] && satelite != null
      ensures r ==> solvers[0].added == satelite.simplifiedCnf + UnitStream(constraintsPrime) + InitCnf()
      ensures r ==> |solvers| == 1 && fresh(solvers[0])
      ensures lift == old(lift) && init == old(init)
    {
      var res := InitBadQuery();
      if res == SAT {
        MarkCex();
        return false;
      }
      FirstFrame();
      r := true;
    }

    /** `find_cex = true`. */
    method MarkCex()
      modifies this`findCex
      ensures findCex
    {
      findCex := true;
    }

    /** Frame 0 of check_BMC0: the translation, the primed constraints
        and I. */
    method FirstFrame()
      requires Valid() && Shaped() && frames == []
      modifies this`frames, this`solvers, this`Repr, this`satelite, this`variables, this`mapToPrime,
        this`mapToUnprime, this`sateliteStream
      ensures Valid() && Shaped() && frames == [Frame([], [])] && satelite != null
      ensures solvers[0].added == satelite.simplifiedCnf + UnitStream(constraintsPrime) + InitCnf()
      ensures |solvers| == 1 && fresh(solvers[0])
      ensures lift == old(lift) && init == old(init)
    {
      NewFrame();
      EncodeInitOn(0);
    }

    /** new_frame once the simplifier is built: one more empty frame, with
        a solver of its own. */
    method GrowFrames()
      requires Sound() == true && satelite != null
      modifies this`frames, this`solvers, this`Repr, this`satelite, this`variables, this`mapToPrime,
        this`mapToUnprime, this`sateliteStream
      ensures Sound() == true && frames == old(frames) + [Frame([], [])] && InitStepBad() == old(InitStepBad())
      ensures BoundedSafe() == old(BoundedSafe())
      ensures |frames| == |old(frames)| + 1
      ensures |solvers| == |old(solvers)| + 1 && solvers[..|old(solvers)|] == old(solvers) && fresh(solvers[|old(solvers)|])
      ensures forall i :: 0 <= i < |solvers| ==> solvers[i] in old(solvers) || fresh(solvers[i])
      ensures lift == old(lift) && init == old(init)
    {
      NewFrame();
    }

    /** check_BMC1: a bad successor of an initial state is a counterexample,
        whose one state, made with the values of the model, goes to
        cex_states; otherwise frame 1 is pushed. */
    method CheckBmc1() returns (r: bool)
      requires Sound() == true && |frames| == 1
      modifies this`findCex, this`cexStates, this`stateCount, this`States, this`frames, this`solvers, this`Repr,
        this`satelite, this`variables, this`mapToPrime, this`mapToUnprime, this`sateliteStream
      ensures Sound() == true
      ensures (r <==> !InitStepBad()) && (r ==> frames == old(frames) + [Frame([], [])]) && (!r ==> findCex)
      ensures r ==> |frames| == 2
      ensures r ==> |solvers| == 2 && solvers[0] == old(solvers[0]) && fresh(solvers[1])
      ensures lift == old(lift) && init == old(init)
    {
      r := Bmc1Query();
      if r {
        GrowFrames();
      }
    }

    /** The query of check_BMC1, and on SAT the counterexample. */
    method Bmc1Query() returns (r: bool)
      requires Sound() == true && satelite != null
      modifies this`findCex, this`cexStates, this`stateCount, this`States
      ensures Sound() == true && (r <==> !InitStepBad())
      ensures r ==> cexStates == old(cexStates)
      ensures !r ==> findCex && |cexStates| == |old(cexStates)| + 1
      ensures !r ==> InitStepModel(cexStates[|cexStates| - 1].inputs, cexStates[|cexStates| - 1].latches)
      ensures lift == old(lift) && init == old(init)
    {
      var res, inputs, latches := InitStepQuery();
      r := res != SAT;
      if !r {
        Bmc1Cex(latches, inputs);
      }
    }

    /** The counterexample of check_BMC1: a `new State()` holding the
        values, pushed onto cex_states. */
    method Bmc1Cex(l: seq<int>, i: seq<int>)
      requires Sound() == true && satelite != null && InitStepModel(i, l)
      modifies this`findCex, this`cexStates, this`stateCount, this`States
      ensures Sound() == true && findCex && |cexStates| == |old(cexStates)| + 1
      ensures InitStepModel(cexStates[|cexStates| - 1].inputs, cexStates[|cexStates| - 1].latches)
    {
      MarkCex();
      CexState(l, i);
    }

    /** A new state holding the values, pushed onto cex_states. */
    method CexState(l: seq<int>, i: seq<int>)
      requires Sound() == true
      modifies this`cexStates, this`stateCount, this`States
      ensures Sound() == true && |cexStates| == |old(cexStates)| + 1
      ensures cexStates[|cexStates| - 1].latches == l && cexStates[|cexStates| - 1].inputs == i
    {
      var s := NewState(l, i);
      cexStates := cexStates + [s];
    }

    // -------------------------------------------------------------------------
    // check and incremental_check (PDR.cpp:1094-1326)
    // -------------------------------------------------------------------------

    /** Between rounds of the main loop: the engine invariant, the
        translation's shape, the states made so far, an empty obligation
        queue and depth() at least 1. */
    ghost predicate Level()
      reads this`ands, this`constraints, this`initState, this`satelite, this`frames, this`solvers, this`lift,
        this`init, this`Repr, Repr, this`nInputs, this`nLatches, this`earliestStrengthenedFrame, this`nAnds,
        this`nexts, this`constraintsPrime, this`bad, this`primedFirst, this`variables, this`mapToPrime,
        this`mapToUnprime, this`States, this`stateCount, States`failed, States`failedDepth, this`obligationQueue
    {
      Sound() && obligationQueue == [] && |frames| >= 3
    }

    /** The engine invariant, the translation's shape and the states made
        so far, none of them failed. */
    ghost predicate Sound()
      reads this`ands, this`constraints, this`initState, this`satelite, this`frames, this`solvers, this`lift,
        this`init, this`Repr, Repr, this`nInputs, this`nLatches, this`earliestStrengthenedFrame, this`nAnds,
        this`nexts, this`constraintsPrime, this`bad, this`primedFirst, this`variables, this`mapToPrime,
        this`mapToUnprime, this`States, this`stateCount, States`failed, States`failedDepth
    {
      Valid() && Shaped() && ChainOk() && NoFailures()
    }

    /** A new level: the top frame cannot reach bad, and propagation may
        start at depth(). */
    method SetLevel()
      requires Sound() == true && |frames| >= 3
      modifies this`topFrameCannotReachBad, this`earliestStrengthenedFrame
      ensures Sound() == true && topFrameCannotReachBad && earliestStrengthenedFrame == Depth()
      ensures lift == old(lift) && init == old(init)
    {
      topFrameCannotReachBad, earliestStrengthenedFrame := true, Depth();
    }

    /** The start shared by check and the first call of incremental_check:
        initialize, check_BMC0, check_BMC1, then a third frame, so depth()
        is 1. A bad initial state or a bad successor of one is a
        counterexample. */
    method Start() returns (v: Verdict)
      requires Unstarted() && ConsistentCounts(aiger) && Fits(aiger) && LiteralsInRange(aiger)
      modifies this`nInputs, this`nLatches, this`nAnds, this`variables, this`ands, this`nexts, this`constraints,
        this`constraintsPrime, this`initState, this`bad, this`badPrime, this`primedFirst, this`mapToPrime,
        this`mapToUnprime, this`satelite, this`sateliteStream, this`findCex, this`frames, this`solvers, this`Repr,
        this`cexStates, this`stateCount, this`States, this`topFrameCannotReachBad,
        this`earliestStrengthenedFrame
      ensures v == Aborted || v == Unsafe || v == Undecided
      ensures v == Aborted <==> !TranslationDefined(aiger, propertyIndex)
      ensures v == Unsafe ==> findCex && (InitBad() || InitStepBad())
      ensures v == Undecided ==> Begun()
      ensures v == Undecided ==> lift == null && init == null
      ensures v == Undecided ==> |solvers| == 3 && fresh(solvers[0]) && fresh(solvers[1]) && fresh(solvers[2])
    {
      var ok := Initialize();
      if !ok {
        return Aborted;
      }
      v := Bounded();
    }

    /** check_BMC0, check_BMC1 and the third frame of depth() 1, once the
        translation is made. */
    method Bounded() returns (v: Verdict)
      requires Sound() == true && frames == [] && obligationQueue == []
      modifies this`satelite, this`sateliteStream, this`findCex, this`frames, this`solvers, this`Repr,
        this`variables, this`mapToPrime, this`mapToUnprime, this`cexStates, this`stateCount, this`States,
        this`topFrameCannotReachBad, this`earliestStrengthenedFrame
      ensures v == Unsafe || v == Undecided
      ensures v == Unsafe ==> findCex && (InitBad() || InitStepBad())
      ensures v == Undecided ==> Begun()
      ensures lift == old(lift) && init == old(init)
      ensures v == Undecided ==> |solvers| == 3 && fresh(solvers[0]) && fresh(solvers[1]) && fresh(solvers[2])
    {
      var r0 := CheckBmc0();
      if !r0 {
        return Unsafe;
      }
      v := BoundedOne();
    }

    /** The first level of the main loop, past both bounded checks. */
    ghost predicate Begun()
      reads this, Repr, States, satelite
    {
      Level() && !InitBad() && !InitStepBad() && Depth() == 1 && topFrameCannotReachBad &&
      earliestStrengthenedFrame == 1
    }

    /** check_BMC1 and, when it passes, the third frame of depth() 1. */
    method BoundedOne() returns (v: Verdict)
      requires Sound() == true && |frames| == 1 && obligationQueue == [] && !InitBad()
      modifies this`satelite, this`sateliteStream, this`findCex, this`frames, this`solvers, this`Repr,
        this`variables, this`mapToPrime, this`mapToUnprime, this`cexStates, this`stateCount, this`States,
        this`topFrameCannotReachBad, this`earliestStrengthenedFrame
      ensures v == Unsafe || v == Undecided
      ensures v == Unsafe ==> findCex && InitStepBad()
      ensures v == Undecided ==> Begun()
      ensures v == Undecided ==> |solvers| == 3 && solvers[0] == old(solvers[0]) && fresh(solvers[1]) && fresh(solvers[2])
      ensures lift == old(lift) && init == old(init)
    {
      var r1 := CheckBmc1();
      if !r1 {
        return Unsafe;
      }
      DepthOne();
      v := Undecided;
    }

    /** The third frame after both bounded checks: depth() is 1 and the
        main loop starts its first level. */
    method DepthOne()
      requires Sound() == true && |frames| == 2 && obligationQueue == [] && satelite != null
      requires !InitBad() && !InitStepBad()
      modifies this`satelite, this`sateliteStream, this`frames, this`solvers, this`Repr, this`variables,
        this`mapToPrime, this`mapToUnprime, this`topFrameCannotReachBad, this`earliestStrengthenedFrame
      ensures Begun()
      ensures |solvers| == 3 && solvers[..2] == old(solvers) && fresh(solvers[2])
      ensures lift == old(lift) && init == old(init)
    {
      GrowFrames();
      assert |obligationQueue| == 0;
      SetLevel();
    }

    /** `obligation_queue.clear()`, then the CTI s alone at frame
        depth()-1 with depth 1; the top frame can reach bad. */
    method StartQueue(s: State)
      requires Valid() && Shaped() && lift != null && ChainOk() && NoFailures() && Depth() >= 1
      requires s in States && OnLatches(s.latches) && s.chain == []
      modifies this`obligationQueue, this`topFrameCannotReachBad
      ensures Valid() && Run(s) == true && !topFrameCannotReachBad
      ensures obligationQueue == [Obligation(s, Depth() - 1, 1)]
    {
      obligationQueue, topFrameCannotReachBad := [Obligation(s, Depth() - 1, 1)], false;
      assert Pending(obligationQueue[0], s, Depth());
    }

    /** A CTI found: the queue holds it alone and rec_block_cube (second:
        rec_block_cube2) runs on it. The solver of I is built first, where
        the source builds it on the first is_init. */
    method BlockCti(s: State, second: bool, fuel: nat) returns (b: Option<bool>)
      requires Sound() == true && lift != null && Depth() >= 1
      requires s in States && OnLatches(s.latches) && s.chain == []
      modifies this`obligationQueue, this`core, this`epoch, this`frames, this`earliestStrengthenedFrame,
        this`lift, this`Repr, solvers, init, lift, this`stateCount, this`States, this`cexState, this`findCex,
        this`init, this`topFrameCannotReachBad
      ensures Valid() == true && Keeps(s, old(frames), old(lift), old(States)) == true
      ensures old(init) != null ==> init == old(init)
      ensures old(init) == null ==> fresh(init)
      ensures b == Some(true) ==> obligationQueue == [] && RootBlocked(s)
      ensures b == Some(false) ==> Found(s) == true
    {
      PrepareCti(s);
      b := RecBlock(s, second, fuel);
    }

    /** The queue holding the CTI alone, and the solver of I. */
    method PrepareCti(s: State)
      requires Sound() == true && lift != null && Depth() >= 1
      requires s in States && OnLatches(s.latches) && s.chain == []
      modifies this`obligationQueue, this`topFrameCannotReachBad, this`init, this`Repr
      ensures Valid() == true && Run(s) == true && init != null
      ensures old(init) != null ==> init == old(init)
      ensures old(init) == null ==> fresh(init)
    {
      InitSolver();
      StartQueue(s);
    }

    /** The CTI's state, made after get_pre_of_bad filled it; in
        incremental_check2 add_cube(s->latches, depth(), true) first sorts
        its latches and adds them to the top frame. */
    method CtiState(second: bool, inputs: seq<int>, latches: seq<int>) returns (s: State)
      requires Valid() && ChainOk() && NoFailures() && OnLatches(latches) && |frames| >= 3
      modifies this`stateCount, this`States, this`earliestStrengthenedFrame, this`frames, this`epoch,
        solvers`added, solvers`nv
      ensures Valid() && ChainOk() && NoFailures() && Grows(old(frames), frames)
      ensures init == old(init) && lift == old(lift)
      ensures s in States && s.chain == [] && OnLatches(s.latches) && s.inputs == inputs
      ensures s.latches == if second then SortLits(latches) else latches
      ensures second ==> s.latches in frames[Depth()].cubes
    {
      var l := latches;
      if second {
        l := SortIn(latches, Depth());
      } else {
        GrowsReflexive(frames);
      }
      s := NewState(l, inputs);
    }

    /** No CTI: propagate, which answers whether a frame from the start
        frame on is left without cubes. */
    method NoCti() returns (r: Round)
      requires Level()
      modifies this`core, this`init, this`Repr, init, this`frames, this`earliestStrengthenedFrame, this`epoch,
        solvers
      ensures Level() && Subsumed(old(frames), frames) && lift == old(lift) && |frames| == |old(frames)|
      ensures old(init) != null ==> init == old(init)
      ensures old(init) == null ==> init == null || fresh(init)
      ensures r == InvariantFound || r == Inconclusive
      ensures r == InvariantFound ==> exists j :: 1 <= j <= Depth() && frames[j].cubes == []
      ensures r == Inconclusive ==> forall j :: old(StartFrame()) <= j <= Depth() ==> frames[j].cubes != []
    {
      var p := Propagate();
      r := if p then InvariantFound else Inconclusive;
    }

    /** get_pre_of_bad as the main loop uses it. */
    method PreOfBad() returns (found: bool, inputs: seq<int>, latches: seq<int>)
      requires Level()
      modifies solvers[Depth()], this`lift, this`Repr, this`epoch, lift
      ensures Level() && init == old(init) && frames == old(frames)
      ensures old(lift) != null ==> lift == old(lift)
      ensures old(lift) == null ==> lift == null || fresh(lift)
      ensures found <==> ipasir.solve(old(solvers[Depth()].added), [badPrime]) == SAT
      ensures found ==> lift != null && OnLatches(latches)
    {
      ghost var before;
      found, inputs, latches, before := GetPreOfBad();
    }

    /** No CTI: the State the source allocates before get_pre_of_bad is
        left unused, and propagate runs. */
    method NoCtiRound() returns (r: Round)
      requires Level()
      modifies this`core, this`init, this`Repr, init, this`frames, this`earliestStrengthenedFrame, this`epoch,
        solvers, this`stateCount, this`States
      ensures Level() && |frames| == |old(frames)| && lift == old(lift)
      ensures old(init) != null ==> init == old(init)
      ensures old(init) == null ==> init == null || fresh(init)
      ensures r == InvariantFound || r == Inconclusive
      ensures r == InvariantFound ==> exists j :: 1 <= j <= Depth() && frames[j].cubes == []
    {
      var s := NewState([], []);
      r := NoCti();
    }

    /** A CTI with these inputs and latches: its state, then rec_block_cube
        (second: rec_block_cube2) on it. */
    method CtiRound(second: bool, fuel: nat, inputs: seq<int>, latches: seq<int>) returns (r: Round, ghost cti: State)
      requires Level() && lift != null && OnLatches(latches)
      modifies this`obligationQueue, this`core, this`epoch, this`frames, this`earliestStrengthenedFrame,
        this`lift, this`Repr, solvers, init, lift, this`stateCount, this`States, this`cexState, this`findCex,
        this`init, this`topFrameCannotReachBad
      ensures Valid() && |frames| == |old(frames)| && lift == old(lift)
      ensures old(init) != null ==> init == old(init)
      ensures old(init) == null ==> fresh(init)
      ensures r == CtiBlocked || r == CexFound || r == OutOfFuel
      ensures r == CtiBlocked ==> Level() && RootBlocked(cti)
      ensures r == CexFound ==> Found(cti)
    {
      var s := CtiState(second, inputs, latches);
      cti := s;
      var b := BlockCti(s, second, fuel);
      r := if b == Some(true) then CtiBlocked else if b == Some(false) then CexFound else OutOfFuel;
    }

    /** One round of the main loop of check and incremental_check (second:
        of incremental_check2): get_pre_of_bad on the top frame; a CTI is
        blocked by rec_block_cube, or ends in a counterexample through it,
        and with none, propagate runs. cti is the CTI's state, if any. */
    method Iteration(second: bool, fuel: nat) returns (r: Round, ghost cti: State?)
      requires Level()
      modifies this`obligationQueue, this`core, this`epoch, this`frames, this`earliestStrengthenedFrame,
        this`lift, this`Repr, solvers, init, lift, this`stateCount, this`States, this`cexState, this`findCex,
        this`init, this`topFrameCannotReachBad
      ensures Valid() && |frames| == |old(frames)|
      ensures old(init) != null ==> init == old(init)
      ensures old(init) == null ==> init == null || fresh(init)
      ensures old(lift) != null ==> lift == old(lift)
      ensures old(lift) == null ==> lift == null || fresh(lift)
      ensures r == CtiBlocked || r == Inconclusive ==> Level()
      ensures r == InvariantFound || r == Inconclusive <==> cti == null
      ensures cti == null <==> ipasir.solve(old(solvers[Depth()].added), [badPrime]) != SAT
      ensures r == CtiBlocked ==> cti != null && RootBlocked(cti)
      ensures r == CexFound ==> cti != null && Found(cti)
      ensures r == InvariantFound ==> exists j :: 1 <= j <= Depth() && frames[j].cubes == []
    {
      var found, inputs, latches := PreOfBad();
      if found {
        r, cti := CtiRound(second, fuel, inputs, latches);
      } else {
        cti := null;
        r := NoCtiRound();
      }
    }

    /** The end of check: the frames and their solvers are gone. */
    method ClearFrames()
      requires Valid() == true
      modifies this`frames, this`solvers
      ensures Valid() && frames == [] && solvers == []
    {
      frames, solvers := [], [];
    }

    /** The solvers, the solver of I and the lifting solver are those of the
        earlier state or made since. */
    twostate predicate Since()
      reads this`solvers, this`init, this`lift
    {
      (forall i :: 0 <= i < |solvers| ==> solvers[i] in old(solvers) || fresh(solvers[i])) &&
      (init == old(init) || fresh(init)) && (lift == old(lift) || fresh(lift))
    }

    /** The end of a level with no CTI left: new_frame, then the top frame
        cannot reach bad and the earliest strengthened frame is depth(). */
    method NextLevel()
      requires Level() == true && BoundedSafe() == true
      modifies this`frames, this`solvers, this`Repr, this`satelite, this`variables, this`mapToPrime,
        this`mapToUnprime, this`sateliteStream, this`topFrameCannotReachBad, this`earliestStrengthenedFrame
      ensures Level() == true && BoundedSafe() == true && |frames| == |old(frames)| + 1
      ensures lift == old(lift) && init == old(init)
      ensures forall i :: 0 <= i < |solvers| ==> solvers[i] in old(solvers) || fresh(solvers[i])
    {
      GrowFrames();
      assert |obligationQueue| == 0;
      SetLevel();
    }

    /** What holds between rounds of the main loop of check and
        incremental_check with the verdict v so far: unless done, a level of
        the loop with no verdict yet; -1 leaves a level to resume from. */
    ghost predicate Looping(v: Verdict, done: bool)
      reads this`ands, this`constraints, this`initState, this`satelite, this`frames, this`solvers, this`lift,
        this`init, this`Repr, Repr, this`nInputs, this`nLatches, this`earliestStrengthenedFrame, this`nAnds,
        this`nexts, this`constraintsPrime, this`bad, this`primedFirst, this`variables, this`mapToPrime,
        this`mapToUnprime, this`States, this`stateCount, States`failed, States`failedDepth, this`obligationQueue,
        this`badPrime, satelite, this`findCex
    {
      Valid() && BoundedSafe() && (v == Exhausted || v == Unsafe || v == Safe || v == Undecided) &&
      (!done ==> Level() && v == Exhausted) &&
      (v == Undecided ==> Level()) &&
      (v == Unsafe ==> findCex) &&
      (v == Safe ==> exists j :: 1 <= j <= Depth() && frames[j].cubes == [])
    }

    /** The end of a level of incremental_check with no CTI left: two
        new_frame calls, then the top frame cannot reach bad and the
        earliest strengthened frame is depth(). */
    method NextTwoLevels()
      requires Level() == true && BoundedSafe() == true
      modifies this`frames, this`solvers, this`Repr, this`satelite, this`variables, this`mapToPrime,
        this`mapToUnprime, this`sateliteStream, this`topFrameCannotReachBad, this`earliestStrengthenedFrame
      ensures Level() == true && BoundedSafe() == true && |frames| == |old(frames)| + 2
      ensures lift == old(lift) && init == old(init)
      ensures forall i :: 0 <= i < |solvers| ==> solvers[i] in old(solvers) || fresh(solvers[i])
    {
      GrowFrames();
      assert |obligationQueue| == 0;
      NextLevel();
    }

    /** A round of the main loop as the loops of check and incremental_check
        use it: its outcome, with the solvers kept or made since. */
    method LoopRound(second: bool, fuel: nat) returns (r: Round)
      requires Level() == true && BoundedSafe() == true
      modifies this`obligationQueue, this`core, this`epoch, this`frames, this`earliestStrengthenedFrame,
        this`lift, this`Repr, solvers, init, lift, this`stateCount, this`States, this`cexState, this`findCex,
        this`init, this`topFrameCannotReachBad
      ensures Valid() == true && BoundedSafe() == true && Since() && |frames| == |old(frames)|
      ensures r == CtiBlocked || r == Inconclusive ==> Level() == true
      ensures r == CexFound ==> findCex
      ensures r == InvariantFound ==> exists j :: 1 <= j <= Depth() && frames[j].cubes == []
    {
      ghost var cti;
      r, cti := Iteration(second, fuel);
    }

    /** One round of check's main loop, with the new level when no CTI is
        left and the frames do not give an invariant: a counterexample ends
        the loop with 1, an empty frame with 0. */
    method CheckRound(fuel: nat) returns (v: Verdict, done: bool)
      requires Looping(Exhausted, false) == true
      modifies this`obligationQueue, this`core, this`epoch, this`frames, this`earliestStrengthenedFrame,
        this`lift, this`Repr, solvers, init, lift, this`stateCount, this`States, this`cexState, this`findCex,
        this`init, this`topFrameCannotReachBad, this`solvers, this`satelite, this`variables, this`mapToPrime,
        this`mapToUnprime, this`sateliteStream
      ensures Looping(v, done) == true && v != Undecided && (!done ==> v == Exhausted)
      ensures Since()
    {
      var r := LoopRound(false, fuel);
      if r == Inconclusive {
        NextLevel();
      }
      v, done := if r == CexFound then Unsafe else if r == InvariantFound then Safe else Exhausted,
        r == CexFound || r == InvariantFound || r == OutOfFuel;
    }

    /** The while(true) loop of check from a level with no verdict yet, as
        one round followed by the rest of the loop: rounds until a
        counterexample or an empty frame, at most `rounds` of them (then
        Exhausted). */
    method MainLoop(fuel: nat, rounds: nat) returns (v: Verdict)
      requires Looping(Exhausted, false) == true
      modifies this, solvers, init, lift
      ensures Looping(v, true) == true && v != Undecided
      decreases rounds
    {
      if rounds == 0 {
        return Exhausted;
      }
      var done;
      v, done := CheckRound(fuel);
      if !done {
        v := MainLoop(fuel, rounds - 1);
      }
    }

    /** check: after the bounded checks of depth 0 and 1, rounds of the
        main loop from depth() 1 on, a new frame after each level with no
        CTI, until a counterexample or an empty frame; the frames are then
        cleared. Safe comes only after both bounded checks passed and a
        frame last was left empty. */
    method Check(fuel: nat) returns (v: Verdict, ghost last: seq<Frame>)
      requires Unstarted() && ConsistentCounts(aiger) && Fits(aiger) && LiteralsInRange(aiger)
      modifies this
      ensures v != Undecided && (v == Aborted <==> !TranslationDefined(aiger, propertyIndex))
      ensures v == Unsafe ==> findCex
      ensures v == Safe ==> BoundedSafe() && frames == []
      ensures v == Safe ==> exists j :: 1 <= j <= |last| - 2 && last[j].cubes == []
    {
      last := [];
      v := Start();
      if v != Undecided {
        return;
      }
      v, last := Search(fuel);
    }

    /** The main loop of check from depth() 1, then the frames cleared. */
    method Search(fuel: nat) returns (v: Verdict, ghost last: seq<Frame>)
      requires Level() == true && BoundedSafe() == true
      modifies this, solvers, init, lift
      ensures v == Exhausted || v == Unsafe || v == Safe
      ensures v == Unsafe ==> findCex
      ensures v == Safe ==> BoundedSafe() && frames == [] && exists j :: 1 <= j <= |last| - 2 && last[j].cubes == []
    {
      v := MainLoop(fuel, fuel);
      last := frames;
      ClearFrames();
    }

    /** What incremental_check needs between calls: before the first, the
        unstarted engine; after one that answered -1, a level of the main
        loop past both bounded checks. */
    ghost predicate Resumable()
      reads this, Repr, States, satelite
    {
      if firstIncrementalCheck then Unstarted() && ConsistentCounts(aiger) && Fits(aiger) && LiteralsInRange(aiger)
      else Level() && BoundedSafe()
    }

    /** One round of the main loop of incremental_check (second:
        incremental_check2): a counterexample answers 1, an empty frame 0,
        and a level with no CTI left pushes two frames and answers -1. */
    method IncrementalRound(second: bool, fuel: nat) returns (v: Verdict, done: bool)
      requires Looping(Exhausted, false) == true
      modifies this`obligationQueue, this`core, this`epoch, this`frames, this`earliestStrengthenedFrame,
        this`lift, this`Repr, solvers, init, lift, this`stateCount, this`States, this`cexState, this`findCex,
        this`init, this`topFrameCannotReachBad, this`solvers, this`satelite, this`variables, this`mapToPrime,
        this`mapToUnprime, this`sateliteStream
      ensures Valid() == true && BoundedSafe() == true
      ensures !done ==> Level() == true && v == Exhausted
      ensures v == Undecided ==> Level() == true
      ensures v == Unsafe ==> findCex
      ensures v == Safe ==> exists j :: 1 <= j <= Depth() && frames[j].cubes == []
      ensures v == Exhausted || v == Unsafe || v == Safe || v == Undecided
      ensures !done ==> |frames| == |old(frames)|
      ensures v == Undecided ==> |frames| == |old(frames)| + 2
      ensures Since()
    {
      var r := LoopRound(second, fuel);
      if r == Inconclusive {
        NextTwoLevels();
        v, done := Undecided, true;
      } else {
        v, done := if r == CexFound then Unsafe else if r == InvariantFound then Safe else Exhausted, r != CtiBlocked;
      }
    }

    /** A later call of incremental_check: the while(true) loop from the
        level left by the call before, as one round followed by the rest of
        the loop, until an answer, at most `rounds` rounds (then Exhausted). */
    method Resume(second: bool, fuel: nat, rounds: nat) returns (v: Verdict)
      requires Level() == true && BoundedSafe() == true
      modifies this`obligationQueue, this`core, this`epoch, this`frames, this`earliestStrengthenedFrame,
        this`lift, this`Repr, solvers, init, lift, this`stateCount, this`States, this`cexState, this`findCex,
        this`init, this`topFrameCannotReachBad, this`solvers, this`satelite, this`variables, this`mapToPrime,
        this`mapToUnprime, this`sateliteStream
      ensures Looping(v, true) == true
      ensures v == Undecided ==> |frames| == |old(frames)| + 2
      decreases rounds
    {
      if rounds == 0 {
        return Exhausted;
      }
      var done;
      v, done := IncrementalRound(second, fuel);
      if !done {
        v := Resume(second, fuel, rounds - 1);
      }
    }

    /** The first call of incremental_check: the start of check, then -1. */
    method FirstIncrementalCheck() returns (v: Verdict)
      requires firstIncrementalCheck && Unstarted() && ConsistentCounts(aiger) && Fits(aiger) && LiteralsInRange(aiger)
      modifies this`nInputs, this`nLatches, this`nAnds, this`variables, this`ands, this`nexts, this`constraints,
        this`constraintsPrime, this`initState, this`bad, this`badPrime, this`primedFirst, this`mapToPrime,
        this`mapToUnprime, this`satelite, this`sateliteStream, this`findCex, this`frames, this`solvers, this`Repr,
        this`cexStates, this`stateCount, this`States, this`topFrameCannotReachBad,
        this`earliestStrengthenedFrame, this`firstIncrementalCheck
      ensures !firstIncrementalCheck && (v == Aborted || v == Unsafe || v == Undecided)
      ensures v == Aborted <==> !TranslationDefined(aiger, propertyIndex)
      ensures v == Unsafe ==> findCex
      ensures v == Undecided ==> Begun() == true
    {
      firstIncrementalCheck := false;
      v := Start();
    }

    /** incremental_check (second: incremental_check2, which first adds the
        CTI to the top frame and blocks with rec_block_cube2): the first
        call starts the engine and answers -1; later calls run rounds until
        a counterexample, an empty frame, or a level with no CTI left, after
        which two frames are pushed and the answer is -1. */
    method IncrementalCheck(second: bool, fuel: nat) returns (v: Verdict)
      requires Resumable()
      modifies this, Repr
      ensures !firstIncrementalCheck
      ensures old(firstIncrementalCheck) ==> v == Aborted || v == Unsafe || v == Undecided
      ensures old(firstIncrementalCheck) ==> (v == Aborted <==> !TranslationDefined(aiger, propertyIndex))
      ensures !old(firstIncrementalCheck) ==> v != Aborted
      ensures v == Undecided ==> Resumable()
      ensures v == Undecided && old(firstIncrementalCheck) ==> Depth() == 1
      ensures v == Undecided && !old(firstIncrementalCheck) ==> |frames| == |old(frames)| + 2
      ensures v == Unsafe ==> findCex
      ensures v == Safe ==> exists j :: 1 <= j <= Depth() && frames[j].cubes == []
    {
      if firstIncrementalCheck {
        v := FirstIncrementalCheck();
        return;
      }
      v := Resume(second, fuel, fuel);
    }
  }
}
