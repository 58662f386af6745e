/**
 * The SAT-solver wrappers (sat_solver.hpp).
 *
 * The solvers themselves (ipasir/CaDiCaL, Minisat's Solver and SimpSolver) are
 * foreign: every answer they give is an uninterpreted oracle function of what
 * the wrapper has handed them.  What is modelled is the wrappers' own
 * bookkeeping:
 *
 *  - CaDiCaL forwards a DIMACS stream (literals, 0 ends a clause) and keeps
 *    nv, the largest variable seen, which PDR uses to allocate activation
 *    variables (max_var() + 1), and the clear_flag protocol that retires the
 *    last activation literal with the unit clause [-nv].
 *  - minisatCore converts DIMACS literals to Minisat literals, grows the
 *    variable count with a loop, and keeps nv equal to that count.
 *  - minisatSimp discards assumptions, and lays out its simplified formula as
 *    a DIMACS stream.
 */
module SatSolver {
  import opened Literals

  const SAT: int := 10
  const UNSAT: int := 20

  function Max(a: int, b: int): int
  {
    if a < b then b else a
  }

  // ---------------------------------------------------------------------------
  // DIMACS streams
  // ---------------------------------------------------------------------------

  /** The largest |lit| in a stream, 0 for the empty stream. */
  function MaxAbs(s: seq<int>): nat
  {
    if s == [] then 0 else Max(MaxAbs(s[..|s| - 1]), Abs(s[|s| - 1]))
  }

  lemma {:induction false} MaxAbsIsMaximum(s: seq<int>)
    ensures forall i :: 0 <= i < |s| ==> Abs(s[i]) <= MaxAbs(s)
    ensures s != [] ==> exists i :: 0 <= i < |s| && Abs(s[i]) == MaxAbs(s)
  {
    if s != [] {
      var p := s[..|s| - 1];
      MaxAbsIsMaximum(p);
      assert forall i :: 0 <= i < |p| ==> s[i] == p[i];
      if MaxAbs(p) < Abs(s[|s| - 1]) || p == [] {
        assert Abs(s[|s| - 1]) == MaxAbs(s);
      } else {
        var i :| 0 <= i < |p| && Abs(p[i]) == MaxAbs(p);
        assert Abs(s[i]) == MaxAbs(s);
      }
    }
  }

  lemma MaxAbsAppend(s: seq<int>, x: int)
    ensures MaxAbs(s + [x]) == Max(MaxAbs(s), Abs(x))
  {
    assert (s + [x])[..|s|] == s;
  }

  /** The clause stream of a list of clauses: each clause followed by 0. */
  function Stream(cs: seq<seq<int>>): seq<int>
  {
    if cs == [] then [] else cs[0] + [0] + Stream(cs[1..])
  }

  lemma {:induction false} StreamAppend(cs: seq<seq<int>>, c: seq<int>)
    ensures Stream(cs + [c]) == Stream(cs) + c + [0]
  {
    if cs != [] {
      assert (cs + [c])[1..] == cs[1..] + [c];
      StreamAppend(cs[1..], c);
    } else {
      assert Stream([c]) == c + [0] + Stream([]);
    }
  }

  predicate ZeroFree(c: seq<int>)
  {
    forall i :: 0 <= i < |c| ==> c[i] != 0
  }

  predicate AllZeroFree(cs: seq<seq<int>>)
  {
    forall k :: 0 <= k < |cs| ==> ZeroFree(cs[k])
  }

  /** How a solver reads a DIMACS stream: the 0-terminated clauses, and the
      unterminated literals still pending at the end. */
  function Split(s: seq<int>): (r: (seq<seq<int>>, seq<int>))
    ensures ZeroFree(r.1)
  {
    if s == [] then ([], [])
    else
      var rest := Split(s[1..]);
      if s[0] == 0 then ([[]] + rest.0, rest.1)
      else if rest.0 == [] then ([], [s[0]] + rest.1)
      else ([[s[0]] + rest.0[0]] + rest.0[1..], rest.1)
  }

  lemma {:induction false} SplitClause(c: seq<int>, s: seq<int>)
    requires ZeroFree(c)
    ensures Split(c + [0] + s) == ([c] + Split(s).0, Split(s).1)
  {
    if c == [] {
      assert ([] + [0] + s)[1..] == s;
    } else {
      assert (c + [0] + s)[1..] == c[1..] + [0] + s;
      SplitClause(c[1..], s);
      assert [c[0]] + c[1..] == c;
    }
  }

  /** Split inverts Stream: the clauses of a stream are the clauses it was
      made of, and a zero-free tail stays pending. */
  lemma {:induction false} SplitStream(cs: seq<seq<int>>, t: seq<int>)
    requires AllZeroFree(cs) && ZeroFree(t)
    ensures Split(Stream(cs) + t) == (cs, t)
  {
    if cs == [] {
      SplitTail(t);
      assert Stream(cs) + t == t;
    } else {
      assert AllZeroFree(cs[1..]) by {
        forall k | 0 <= k < |cs[1..]| ensures ZeroFree(cs[1..][k]) {
          assert cs[1..][k] == cs[k + 1];
        }
      }
      SplitStream(cs[1..], t);
      assert Stream(cs) + t == cs[0] + [0] + (Stream(cs[1..]) + t);
      SplitClause(cs[0], Stream(cs[1..]) + t);
      assert [cs[0]] + cs[1..] == cs;
    }
  }

  lemma {:induction false} SplitTail(t: seq<int>)
    requires ZeroFree(t)
    ensures Split(t) == ([], t)
  {
    if t != [] {
      SplitTail(t[1..]);
      assert [t[0]] + t[1..] == t;
    }
  }

  /** Appending one whole clause to a stream with nothing pending adds exactly
      that clause to the solver's formula. */
  lemma AddClauseToStream(cs: seq<seq<int>>, c: seq<int>)
    requires AllZeroFree(cs) && ZeroFree(c)
    ensures Split(Stream(cs) + c + [0]) == (cs + [c], [])
  {
    StreamAppend(cs, c);
    assert AllZeroFree(cs + [c]) by {
      forall k | 0 <= k < |cs + [c]| ensures ZeroFree((cs + [c])[k]) {
        if k < |cs| { assert (cs + [c])[k] == cs[k]; }
      }
    }
    SplitStream(cs + [c], []);
    assert Stream(cs + [c]) + [] == Stream(cs + [c]);
  }

  /** clear_act's contribution to the stream: the unit clause [-nv] when the
      flag is set, nothing otherwise. */
  function ClearActClauses(added: seq<int>, flag: bool): seq<int>
  {
    if flag then [-(MaxAbs(added) as int), 0] else []
  }

  // ---------------------------------------------------------------------------
  // CaDiCaL through the ipasir interface (sat_solver.hpp:26-79)
  // ---------------------------------------------------------------------------

  /** The answers of the foreign ipasir solver, as functions of the stream
      added so far and the assumptions of the solve call. */
  datatype IpasirOracle = IpasirOracle(
    solve: (seq<int>, seq<int>) -> int,
    failed: (seq<int>, seq<int>, int) -> bool,
    val: (seq<int>, seq<int>, int) -> int)

  class CaDiCaL {
    /** Every int handed to ipasir_add, 0 terminators included. */
    var added: seq<int>
    /** Assumptions for the next solve (ipasir forgets them after solving). */
    var pending: seq<int>
    /** What the last solve saw; failed and val answer about that call. */
    var lastAdded: seq<int>
    var lastAssumed: seq<int>
    var nv: int
    var clearFlag: bool
    const oracle: IpasirOracle

    predicate Valid()
      reads this
    {
      nv == MaxAbs(added)
    }

    constructor (oracle: IpasirOracle)
      ensures Valid() && this.oracle == oracle
      ensures added == [] && pending == [] && nv == 0 && !clearFlag
    {
      this.oracle := oracle;
      added, pending, lastAdded, lastAssumed := [], [], [], [];
      nv, clearFlag := 0, false;
    }

    method Add(lit: int)
      requires Valid()
      modifies this`added, this`nv
      ensures Valid()
      ensures added == old(added) + [lit]
      ensures nv == Max(old(nv), Abs(lit))
    {
      MaxAbsAppend(added, lit);
      added := added + [lit];
      nv := Max(nv, Abs(lit));
    }

    method Assume(lit: int)
      modifies this`pending
      ensures pending == old(pending) + [lit]
    {
      pending := pending + [lit];
    }

    method Solve() returns (r: int)
      modifies this`pending, this`lastAdded, this`lastAssumed
      ensures r == oracle.solve(added, old(pending))
      ensures lastAdded == added && lastAssumed == old(pending) && pending == []
    {
      r := oracle.solve(added, pending);
      lastAdded, lastAssumed := added, pending;
      pending := [];
    }

    method Failed(lit: int) returns (b: bool)
      ensures b == oracle.failed(lastAdded, lastAssumed, lit)
    {
      b := oracle.failed(lastAdded, lastAssumed, lit);
    }

    method Val(lit: int) returns (v: int)
      ensures v == oracle.val(lastAdded, lastAssumed, lit)
    {
      v := oracle.val(lastAdded, lastAssumed, lit);
    }

    /** max_var() bounds every variable added so far, and is reached by one of
        them unless nothing nonzero was added. */
    method MaxVar() returns (n: int)
      requires Valid()
      ensures forall i :: 0 <= i < |added| ==> Abs(added[i]) <= n
      ensures n > 0 ==> exists i :: 0 <= i < |added| && Abs(added[i]) == n
      ensures n == MaxAbs(added)
    {
      MaxAbsIsMaximum(added);
      n := nv;
    }

    method SetClearAct()
      modifies this`clearFlag
      ensures clearFlag
    {
      clearFlag := true;
    }

    method ClearAct()
      requires Valid()
      modifies this`added, this`nv, this`clearFlag
      ensures Valid() && !clearFlag && nv == old(nv)
      ensures added == old(added) + ClearActClauses(old(added), old(clearFlag))
    {
      if clearFlag {
        Add(-nv);
        Add(0);
      }
      clearFlag := false;
    }
  }

  // ---------------------------------------------------------------------------
  // Minisat literals
  // ---------------------------------------------------------------------------

  /** Minisat::mkLit(var, sign): a variable index and a sign (true = negated). */
  datatype MLit = MLit(x: int, sign: bool)

  /** The wrappers' DIMACS-to-Minisat conversion: mkLit(|lit| - 1, lit < 0). */
  function ToMinisat(lit: int): (m: MLit)
    ensures lit != 0 ==> m.x >= 0
  {
    MLit(Abs(lit) - 1, lit < 0)
  }

  /** The conversion back used when printing the simplified formula
      (sat_solver.hpp:181-183, 189-191): v = var + 1, negated when signed. */
  function FromMinisat(m: MLit): int
  {
    if m.sign then -(m.x + 1) else m.x + 1
  }

  lemma MinisatRoundTrip(lit: int, m: MLit)
    ensures lit != 0 ==> FromMinisat(ToMinisat(lit)) == lit
    ensures m.x >= 0 ==> ToMinisat(FromMinisat(m)) == m && FromMinisat(m) != 0
  {
  }

  /** `val`: the model value of variable |lit| - 1, reported as |lit|, -|lit| or
      0; Minisat's lbool comparison is the one of basic.hpp. */
  function ValOf(lit: int, lb: LBool): (r: int)
    ensures Abs(r) == (if Eq(lb, LTrue) || Eq(lb, LFalse) then Abs(lit) else 0)
    ensures r > 0 ==> Eq(lb, LTrue)
  {
    if Eq(lb, LTrue) then Abs(lit) else if Eq(lb, LFalse) then -(Abs(lit) as int) else 0
  }

  /** The value reported does not depend on the sign of the literal asked. */
  lemma ValIgnoresSign(lit: int, lb: LBool)
    ensures ValOf(lit, lb) == ValOf(-lit, lb)
  {
  }

  /** The answers of the foreign Minisat solvers. */
  datatype MinisatOracle = MinisatOracle(
    solve: (seq<seq<MLit>>, seq<MLit>) -> bool,
    conflict: (seq<seq<MLit>>, seq<MLit>) -> set<MLit>,
    model: (seq<seq<MLit>>, seq<MLit>, int) -> LBool,
    eliminate: (seq<seq<MLit>>, set<int>) -> (seq<seq<MLit>>, seq<MLit>))

  // ---------------------------------------------------------------------------
  // minisatCore (sat_solver.hpp:212-333)
  // ---------------------------------------------------------------------------

  class MinisatCore {
    /** Clauses passed to addClause, and the clause being collected. */
    var clauses: seq<seq<MLit>>
    var clause: seq<MLit>
    var assumptions: seq<MLit>
    var lastClauses: seq<seq<MLit>>
    var lastAssumptions: seq<MLit>
    /** The solver's variable count (nVars()), grown by newVar(). */
    var nVars: int
    var nv: int
    var clearFlag: bool
    const oracle: MinisatOracle

    predicate Valid()
      reads this
    {
      nVars == nv && nv >= 0
    }

    constructor (oracle: MinisatOracle)
      ensures Valid() && this.oracle == oracle
      ensures clauses == [] && clause == [] && assumptions == [] && nv == 0 && !clearFlag
    {
      this.oracle := oracle;
      clauses, clause, assumptions := [], [], [];
      lastClauses, lastAssumptions := [], [];
      nVars, nv, clearFlag := 0, 0, false;
    }

    method VarEnlargeTo(v: int)
      modifies this`nVars
      ensures nVars == Max(old(nVars), v)
    {
      while nVars < v
        invariant old(nVars) <= nVars <= Max(old(nVars), v)
        decreases v - nVars
      {
        nVars := nVars + 1;
      }
    }

    method Add(lit: int)
      requires Valid()
      modifies this`clauses, this`clause, this`nv, this`nVars
      ensures Valid() && nv == Max(old(nv), Abs(lit))
      ensures lit == 0 ==> clauses == old(clauses) + [old(clause)] && clause == []
      ensures lit != 0 ==> clauses == old(clauses) && clause == old(clause) + [ToMinisat(lit)]
    {
      if lit == 0 {
        clauses := clauses + [clause];
        clause := [];
      } else {
        nv := Max(nv, Abs(lit));
        VarEnlargeTo(nv);
        clause := clause + [MLit(Abs(lit) - 1, lit < 0)];
      }
    }

    method Assume(lit: int)
      requires Valid()
      modifies this`assumptions, this`nv, this`nVars
      ensures Valid() && nv == Max(old(nv), Abs(lit))
      ensures assumptions == old(assumptions) + [ToMinisat(lit)]
    {
      nv := Max(nv, Abs(lit));
      VarEnlargeTo(nv);
      assumptions := assumptions + [MLit(Abs(lit) - 1, lit < 0)];
    }

    method Solve() returns (r: int)
      modifies this`assumptions, this`lastClauses, this`lastAssumptions
      ensures r == SAT || r == UNSAT
      ensures r == SAT <==> oracle.solve(clauses, old(assumptions))
      ensures lastClauses == clauses && lastAssumptions == old(assumptions) && assumptions == []
    {
      var res := oracle.solve(clauses, assumptions);
      lastClauses, lastAssumptions := clauses, assumptions;
      assumptions := [];
      r := if res then SAT else UNSAT;
    }

    /** An assumption failed when its negation is in the final conflict. */
    method Failed(lit: int) returns (b: bool)
      ensures b <==> MLit(Abs(lit) - 1, lit > 0) in oracle.conflict(lastClauses, lastAssumptions)
    {
      b := MLit(Abs(lit) - 1, lit > 0) in oracle.conflict(lastClauses, lastAssumptions);
    }

    method Val(lit: int) returns (v: int)
      ensures v == ValOf(lit, oracle.model(lastClauses, lastAssumptions, Abs(lit) - 1))
    {
      var lb := oracle.model(lastClauses, lastAssumptions, Abs(lit) - 1);
      if Eq(lb, LTrue) {
        v := Abs(lit);
      } else if Eq(lb, LFalse) {
        v := -(Abs(lit) as int);
      } else {
        v := 0;
      }
    }

    /** max_var() asserts that nv equals the solver's variable count. */
    method MaxVar() returns (n: int)
      requires Valid()
      ensures n == nv && n == nVars
    {
      assert nVars == nv;
      n := nv;
    }

    method SetClearAct()
      modifies this`clearFlag
      ensures clearFlag
    {
      clearFlag := true;
    }

    /** With the flag set, the unit [-nv] is added; a clause still being
        collected is closed together with it.  With nv = 0 the two calls are
        add(0), add(0): the pending clause and an empty clause. */
    method ClearAct()
      requires Valid()
      modifies this`clauses, this`clause, this`nv, this`nVars, this`clearFlag
      ensures Valid() && !clearFlag && nv == old(nv)
      ensures old(clearFlag) && old(nv) > 0 ==>
        clauses == old(clauses) + [old(clause) + [ToMinisat(-old(nv))]] && clause == []
      ensures old(clearFlag) && old(nv) == 0 ==> clauses == old(clauses) + [old(clause), []] && clause == []
      ensures !old(clearFlag) ==> clauses == old(clauses) && clause == old(clause)
    {
      if clearFlag {
        Add(-nv);
        Add(0);
      }
      clearFlag := false;
    }
  }

  // ---------------------------------------------------------------------------
  // minisatSimp (sat_solver.hpp:82-207)
  // ---------------------------------------------------------------------------

  function DimacsClause(c: seq<MLit>): (r: seq<int>)
    ensures |r| == |c|
    ensures forall i :: 0 <= i < |c| ==> r[i] == FromMinisat(c[i])
  {
    if c == [] then [] else DimacsClause(c[..|c| - 1]) + [FromMinisat(c[|c| - 1])]
  }

  function DimacsClauses(cls: seq<seq<MLit>>): (r: seq<seq<int>>)
    ensures |r| == |cls|
  {
    seq(|cls|, k requires 0 <= k < |cls| => DimacsClause(cls[k]))
  }

  function Units(trail: seq<MLit>): (r: seq<seq<int>>)
    ensures |r| == |trail|
  {
    seq(|trail|, k requires 0 <= k < |trail| => [FromMinisat(trail[k])])
  }

  /** The layout of simplified_cnf: the tautology [n, -n], every remaining
      clause, then every trail literal as a unit clause, each 0-terminated. */
  function SimplifiedCnf(n: int, cls: seq<seq<MLit>>, trail: seq<MLit>): seq<int>
  {
    Stream([[n, -n]] + DimacsClauses(cls) + Units(trail))
  }

  predicate NonNegativeVars(cls: seq<seq<MLit>>)
  {
    forall k, i :: 0 <= k < |cls| && 0 <= i < |cls[k]| ==> cls[k][i].x >= 0
  }

  /** A solver reading simplified_cnf back sees exactly the tautology, the
      simplified clauses in DIMACS form and one unit clause per trail literal. */
  lemma SimplifiedCnfClauses(n: int, cls: seq<seq<MLit>>, trail: seq<MLit>)
    requires n != 0 && NonNegativeVars(cls)
    requires forall i :: 0 <= i < |trail| ==> trail[i].x >= 0
    ensures Split(SimplifiedCnf(n, cls, trail)) == ([[n, -n]] + DimacsClauses(cls) + Units(trail), [])
  {
    var all := [[n, -n]] + DimacsClauses(cls) + Units(trail);
    forall k | 0 <= k < |all| ensures ZeroFree(all[k]) {
      if 1 <= k < 1 + |cls| {
        assert all[k] == DimacsClause(cls[k - 1]);
      } else if k >= 1 + |cls| {
        assert all[k] == [FromMinisat(trail[k - 1 - |cls|])];
      }
    }
    SplitStream(all, []);
    assert Stream(all) + [] == Stream(all);
  }

  class MinisatSimp {
    var clauses: seq<seq<MLit>>
    var clause: seq<MLit>
    var assumptions: seq<MLit>
    var lastClauses: seq<seq<MLit>>
    var lastAssumptions: seq<MLit>
    var nVars: int
    var frozen: set<int>
    var simplifiedCnf: seq<int>
    const oracle: MinisatOracle

    constructor (oracle: MinisatOracle)
      ensures this.oracle == oracle && nVars == 0 && frozen == {}
      ensures clauses == [] && clause == [] && assumptions == [] && simplifiedCnf == []
    {
      this.oracle := oracle;
      clauses, clause, assumptions := [], [], [];
      lastClauses, lastAssumptions := [], [];
      nVars, frozen, simplifiedCnf := 0, {}, [];
    }

    method VarEnlargeTo(v: int)
      modifies this`nVars
      ensures nVars == Max(old(nVars), v)
    {
      while nVars < v
        invariant old(nVars) <= nVars <= Max(old(nVars), v)
        decreases v - nVars
      {
        nVars := nVars + 1;
      }
    }

    method Add(lit: int)
      modifies this`clauses, this`clause, this`nVars
      ensures lit == 0 ==> clauses == old(clauses) + [old(clause)] && clause == [] && nVars == old(nVars)
      ensures lit != 0 ==> clauses == old(clauses) && clause == old(clause) + [ToMinisat(lit)]
      ensures lit != 0 ==> nVars == Max(old(nVars), Abs(lit))
    {
      if lit == 0 {
        clauses := clauses + [clause];
        clause := [];
      } else {
        VarEnlargeTo(Abs(lit));
        clause := clause + [MLit(Abs(lit) - 1, lit < 0)];
      }
    }

    /** The literal is built and dropped: the pending assumptions are cleared. */
    method Assume(lit: int)
      modifies this`assumptions
      ensures assumptions == []
    {
      var l := MLit(Abs(lit) - 1, lit < 0);
      assumptions := [];
    }

    method Solve() returns (r: int)
      modifies this`assumptions, this`lastClauses, this`lastAssumptions
      ensures r == SAT || r == UNSAT
      ensures r == SAT <==> oracle.solve(clauses, old(assumptions))
      ensures lastClauses == clauses && lastAssumptions == old(assumptions) && assumptions == []
    {
      var res := oracle.solve(clauses, assumptions);
      lastClauses, lastAssumptions := clauses, assumptions;
      assumptions := [];
      r := if res then SAT else UNSAT;
    }

    method Failed(lit: int) returns (b: bool)
      ensures b <==> MLit(Abs(lit) - 1, lit > 0) in oracle.conflict(lastClauses, lastAssumptions)
    {
      b := MLit(Abs(lit) - 1, lit > 0) in oracle.conflict(lastClauses, lastAssumptions);
    }

    method Val(lit: int) returns (v: int)
      ensures v == ValOf(lit, oracle.model(lastClauses, lastAssumptions, Abs(lit) - 1))
    {
      var lb := oracle.model(lastClauses, lastAssumptions, Abs(lit) - 1);
      if Eq(lb, LTrue) {
        v := Abs(lit);
      } else if Eq(lb, LFalse) {
        v := -(Abs(lit) as int);
      } else {
        v := 0;
      }
    }

    method SetFrozen(lit: int)
      modifies this`nVars, this`frozen
      ensures nVars == Max(old(nVars), Abs(lit))
      ensures frozen == old(frozen) + {Abs(lit) - 1}
    {
      VarEnlargeTo(Abs(lit));
      frozen := frozen + {Abs(lit) - 1};
    }

    /** Variable elimination is foreign; the stream written afterwards is the
        layout SimplifiedCnf of what it leaves. */
    method Simplify()
      modifies this`simplifiedCnf
      ensures simplifiedCnf ==
        SimplifiedCnf(nVars, oracle.eliminate(clauses, frozen).0, oracle.eliminate(clauses, frozen).1)
    {
      var cls := oracle.eliminate(clauses, frozen).0;
      var trail := oracle.eliminate(clauses, frozen).1;
      ghost var head: seq<seq<int>> := [[nVars, -nVars]];
      simplifiedCnf := [nVars, -nVars, 0];
      assert simplifiedCnf == Stream(head + DimacsClauses(cls[..0]));
      var i := 0;
      while i < |cls|
        invariant 0 <= i <= |cls|
        invariant simplifiedCnf == Stream(head + DimacsClauses(cls[..i]))
      {
        var c := cls[i];
        ghost var before := simplifiedCnf;
        var j := 0;
        while j < |c|
          invariant 0 <= j <= |c|
          invariant simplifiedCnf == before + DimacsClause(c[..j])
        {
          assert c[..j + 1][..j] == c[..j];
          simplifiedCnf := simplifiedCnf + [FromMinisat(c[j])];
          j := j + 1;
        }
        assert c[..j] == c;
        simplifiedCnf := simplifiedCnf + [0];
        StreamAppend(head + DimacsClauses(cls[..i]), DimacsClause(c));
        assert head + DimacsClauses(cls[..i + 1]) == head + DimacsClauses(cls[..i]) + [DimacsClause(c)];
        i := i + 1;
      }
      assert cls[..i] == cls;
      ghost var body := head + DimacsClauses(cls);
      assert body + Units(trail[..0]) == body;
      var t := 0;
      while t < |trail|
        invariant 0 <= t <= |trail|
        invariant simplifiedCnf == Stream(body + Units(trail[..t]))
      {
        simplifiedCnf := simplifiedCnf + [FromMinisat(trail[t])] + [0];
        StreamAppend(body + Units(trail[..t]), [FromMinisat(trail[t])]);
        assert body + Units(trail[..t + 1]) == body + Units(trail[..t]) + [[FromMinisat(trail[t])]];
        t := t + 1;
      }
      assert trail[..t] == trail;
    }

    method MaxVar() returns (n: int)
      ensures n == nVars
    {
      n := nVars;
    }
  }

  // ---------------------------------------------------------------------------
  // Feeding a stream literal by literal, as the engines' encoders do
  // ---------------------------------------------------------------------------

  /** Hands every literal of `lits` to the solver, in order. */
  method AddAll(s: CaDiCaL, lits: seq<int>)
    requires s.Valid()
    modifies s`added, s`nv
    ensures s.Valid() && s.added == old(s.added) + lits
  {
    var i := 0;
    while i < |lits|
      invariant 0 <= i <= |lits|
      invariant s.Valid() && s.added == old(s.added) + lits[..i]
    {
      s.Add(lits[i]);
      assert lits[..i + 1] == lits[..i] + [lits[i]];
      i := i + 1;
    }
    assert lits[..i] == lits;
  }

  /** What minisat's add makes of a stream: the closed clauses and the clause
      being collected, in Minisat literals. */
  function Feed(st: (seq<seq<MLit>>, seq<MLit>), lits: seq<int>): (seq<seq<MLit>>, seq<MLit>)
  {
    if lits == [] then st
    else
      var before := Feed(st, lits[..|lits| - 1]);
      var x := lits[|lits| - 1];
      if x == 0 then (before.0 + [before.1], []) else (before.0, before.1 + [ToMinisat(x)])
  }

  function MinisatClause(c: seq<int>): (r: seq<MLit>)
    ensures |r| == |c| && forall i :: 0 <= i < |c| ==> r[i] == ToMinisat(c[i])
  {
    seq(|c|, i requires 0 <= i < |c| => ToMinisat(c[i]))
  }

  function MinisatClauses(cs: seq<seq<int>>): (r: seq<seq<MLit>>)
    ensures |r| == |cs| && forall k :: 0 <= k < |cs| ==> r[k] == MinisatClause(cs[k])
  {
    seq(|cs|, k requires 0 <= k < |cs| => MinisatClause(cs[k]))
  }

  lemma FeedAppend(st: (seq<seq<MLit>>, seq<MLit>), a: seq<int>, b: seq<int>)
    ensures Feed(st, a + b) == Feed(Feed(st, a), b)
    decreases |b|
  {
    if b != [] {
      assert (a + b)[..|a + b| - 1] == a + b[..|b| - 1];
      FeedAppend(st, a, b[..|b| - 1]);
    } else {
      assert a + b == a;
    }
  }

  /** Feeding a zero-free clause and its terminator closes exactly that clause. */
  lemma {:induction false} FeedClause(cls: seq<seq<MLit>>, c: seq<int>)
    requires ZeroFree(c)
    ensures Feed((cls, []), c + [0]) == (cls + [MinisatClause(c)], [])
  {
    FeedPending(cls, c);
    assert (c + [0])[..|c|] == c;
  }

  lemma {:induction false} FeedPending(cls: seq<seq<MLit>>, c: seq<int>)
    requires ZeroFree(c)
    ensures Feed((cls, []), c) == (cls, MinisatClause(c))
  {
    if c != [] {
      var p := c[..|c| - 1];
      assert ZeroFree(p) by {
        forall i | 0 <= i < |p| ensures p[i] != 0 { assert p[i] == c[i]; }
      }
      FeedPending(cls, p);
      assert MinisatClause(c) == MinisatClause(p) + [ToMinisat(c[|c| - 1])];
    }
  }

  /** A solver fed a stream of whole clauses holds exactly those clauses. */
  lemma {:induction false} FeedStream(cs: seq<seq<int>>)
    requires AllZeroFree(cs)
    ensures Feed(([], []), Stream(cs)) == (MinisatClauses(cs), [])
  {
    var m := MinisatClauses(cs);
    if cs == [] {
      assert Stream(cs) == [];
      var e: (seq<seq<MLit>>, seq<MLit>) := ([], []);
      assert Feed(e, []) == e;
      assert m == [];
    } else {
      var p := cs[..|cs| - 1];
      var c := cs[|cs| - 1];
      assert cs == p + [c];
      assert AllZeroFree(p) by {
        forall k | 0 <= k < |p| ensures ZeroFree(p[k]) { assert p[k] == cs[k]; }
      }
      assert ZeroFree(c);
      var e: (seq<seq<MLit>>, seq<MLit>) := ([], []);
      FeedStream(p);
      StreamAppend(p, c);
      assert Stream(cs) == Stream(p) + (c + [0]);
      FeedAppend(e, Stream(p), c + [0]);
      FeedClause(MinisatClauses(p), c);
      assert Feed(e, Stream(cs)) == (MinisatClauses(p) + [MinisatClause(c)], []);
      assert MinisatClauses(p) + [MinisatClause(c)] == m;
    }
  }

  /** Hands every literal of `lits` to the simplifying solver, in order. */
  method AddAllSimp(s: MinisatSimp, lits: seq<int>)
    requires s.nVars >= 0
    modifies s`clauses, s`clause, s`nVars
    ensures (s.clauses, s.clause) == Feed((old(s.clauses), old(s.clause)), lits)
    ensures s.nVars == Max(old(s.nVars), MaxAbs(lits))
  {
    var i := 0;
    while i < |lits|
      invariant 0 <= i <= |lits|
      invariant (s.clauses, s.clause) == Feed((old(s.clauses), old(s.clause)), lits[..i])
      invariant s.nVars == Max(old(s.nVars), MaxAbs(lits[..i]))
    {
      s.Add(lits[i]);
      assert lits[..i + 1][..i] == lits[..i];
      MaxAbsAppend(lits[..i], lits[i]);
      assert lits[..i + 1] == lits[..i] + [lits[i]];
      i := i + 1;
    }
    assert lits[..i] == lits;
  }

  /** The Minisat variables `set_frozen` marks for the given DIMACS literals. */
  function FrozenVars(lits: seq<int>): (r: set<int>)
    ensures forall x :: x in r <==> exists i :: 0 <= i < |lits| && x == Abs(lits[i]) - 1
  {
    if lits == [] then {} else FrozenVars(lits[..|lits| - 1]) + {Abs(lits[|lits| - 1]) - 1}
  }

  /** `set_frozen` on every literal of `lits`, in order. */
  method FreezeAll(s: MinisatSimp, lits: seq<int>)
    requires s.nVars >= 0
    modifies s`nVars, s`frozen
    ensures s.frozen == old(s.frozen) + FrozenVars(lits)
    ensures s.nVars == Max(old(s.nVars), MaxAbs(lits))
  {
    var i := 0;
    while i < |lits|
      invariant 0 <= i <= |lits|
      invariant s.frozen == old(s.frozen) + FrozenVars(lits[..i])
      invariant s.nVars == Max(old(s.nVars), MaxAbs(lits[..i]))
    {
      s.SetFrozen(lits[i]);
      assert lits[..i + 1][..i] == lits[..i];
      MaxAbsAppend(lits[..i], lits[i]);
      i := i + 1;
    }
    assert lits[..i] == lits;
  }
}
