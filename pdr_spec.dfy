/**
 * The value-level part of PDR.cpp: lazy allocation of primed variables
 * (`prime_var`, `prime_lit`), the clause streams the encoders emit, the
 * priming of latch cubes, the unsat core read back from the solver, the
 * `std::includes` shortcut of `is_inductive`, and the join of `CTG_down`.
 * The engine itself, which updates these in place, is the class in pdr.dfy.
 */
module PdrSpec {
  import opened Literals
  import opened Wrappers
  import opened SatSolver
  import opened PdrTypes
  import opened Circuit

  // ---------------------------------------------------------------------------
  // Streams
  // ---------------------------------------------------------------------------

  /** The clause ¬c of a cube c: every literal negated. */
  function Negated(c: seq<int>): (r: seq<int>)
    ensures |r| == |c| && forall i :: 0 <= i < |c| ==> r[i] == -c[i]
  {
    seq(|c|, i requires 0 <= i < |c| => -c[i])
  }

  /** One unit clause per literal, each 0-terminated. */
  function UnitStream(lits: seq<int>): seq<int>
  {
    if lits == [] then [] else UnitStream(lits[..|lits| - 1]) + [lits[|lits| - 1], 0]
  }

  function Singletons(lits: seq<int>): (r: seq<seq<int>>)
    ensures |r| == |lits| && forall k :: 0 <= k < |lits| ==> r[k] == [lits[k]]
  {
    seq(|lits|, k requires 0 <= k < |lits| => [lits[k]])
  }

  /** A solver reading a unit stream of nonzero literals sees one unit clause
      per literal and nothing pending. */
  lemma {:induction false} UnitStreamClauses(lits: seq<int>)
    requires ZeroFree(lits)
    ensures UnitStream(lits) == Stream(Singletons(lits))
    ensures Split(UnitStream(lits)) == (Singletons(lits), [])
  {
    if lits != [] {
      var p := lits[..|lits| - 1];
      assert ZeroFree(p) by {
        forall i | 0 <= i < |p| ensures p[i] != 0 { assert p[i] == lits[i]; }
      }
      UnitStreamClauses(p);
      StreamAppend(Singletons(p), [lits[|lits| - 1]]);
      assert Singletons(lits) == Singletons(p) + [[lits[|lits| - 1]]];
    }
    assert AllZeroFree(Singletons(lits)) by {
      forall k | 0 <= k < |lits| ensures ZeroFree(Singletons(lits)[k]) {
        assert Singletons(lits)[k] == [lits[k]];
      }
    }
    SplitStream(Singletons(lits), []);
    assert Stream(Singletons(lits)) + [] == Stream(Singletons(lits));
  }

  function Reverse(s: seq<int>): (r: seq<int>)
    ensures |r| == |s| && forall i :: 0 <= i < |s| ==> r[i] == s[|s| - 1 - i]
  {
    seq(|s|, i requires 0 <= i < |s| => s[|s| - 1 - i])
  }

  lemma {:induction false} ReverseIsPermutation(s: seq<int>)
    ensures multiset(Reverse(s)) == multiset(s)
  {
    if s != [] {
      var p := s[..|s| - 1];
      ReverseIsPermutation(p);
      assert Reverse(s) == [s[|s| - 1]] + Reverse(p);
      assert s == p + [s[|s| - 1]];
    }
  }

  // ---------------------------------------------------------------------------
  // prime_var / prime_lit (PDR.cpp:142-172)
  // ---------------------------------------------------------------------------

  /** The variable table and the two maps that `prime_var` grows. */
  datatype Primes = Primes(variables: seq<Variable>, toPrime: map<int, int>, toUnprime: map<int, int>)

  /** What `prime_var` keeps true of its table: entry v describes variable v,
      every allocated primed variable is a table entry from `firstFree` on,
      and the two maps are inverse to each other. */
  predicate PrimesValid(p: Primes, lastLatch: int, firstFree: int)
  {
    (forall v :: 0 <= v < |p.variables| ==> p.variables[v].dimacsVar == v) &&
    (forall v :: v in p.toPrime ==>
      lastLatch < v < |p.variables| && p.toPrime[v] in p.toUnprime && p.toUnprime[p.toPrime[v]] == v) &&
    (forall q :: q in p.toUnprime ==>
      firstFree <= q < |p.variables| && p.toUnprime[q] in p.toPrime && p.toPrime[p.toUnprime[q]] == q)
  }

  /** `prime_var` may be asked about v: v is a variable (the source asserts
      v >= 1), and it is an input, a latch, already primed, or in the table. */
  predicate CanPrime(p: Primes, lastLatch: int, v: int)
  {
    Allocatable(p) && 1 <= v && (v <= lastLatch || v in p.toPrime || v < |p.variables|)
  }

  /** The next table index is not yet a primed variable. */
  predicate Allocatable(p: Primes)
  {
    forall q :: q in p.toUnprime ==> q < |p.variables|
  }

  /** q keeps everything p holds: the same table prefix and the same pairs. */
  predicate Extends(q: Primes, p: Primes)
  {
    p.variables <= q.variables &&
    (forall v :: v in p.toPrime ==> v in q.toPrime && q.toPrime[v] == p.toPrime[v]) &&
    (forall v :: v in p.toUnprime ==> v in q.toUnprime && q.toUnprime[v] == p.toUnprime[v])
  }

  /** `prime_var`: the primed number of v and the table afterwards. */
  function PrimeVarOf(p: Primes, lastLatch: int, primedFirst: int, v: int): (r: (int, Primes))
    requires CanPrime(p, lastLatch, v)
    ensures Extends(r.1, p) && Allocatable(r.1)
  {
    if v > 1 then
      if v <= lastLatch then (primedFirst + v - 2, p)
      else if v !in p.toPrime then
        var pv := |p.variables|;
        (pv, Primes(p.variables + [Variable(pv, p.variables[v].name + "'")], p.toPrime[v := pv], p.toUnprime[pv := v]))
      else (p.toPrime[v], p)
    else (v, p)
  }

  /** `prime_lit`: a negative literal primes its variable and stays negative. */
  function PrimeLitOf(p: Primes, lastLatch: int, primedFirst: int, lit: int): (r: (int, Primes))
    requires CanPrime(p, lastLatch, Abs(lit))
    ensures Extends(r.1, p) && Allocatable(r.1)
  {
    if lit >= 0 then PrimeVarOf(p, lastLatch, primedFirst, lit)
    else var r := PrimeVarOf(p, lastLatch, primedFirst, -lit); (-r.0, r.1)
  }

  lemma ExtendsTransitive(a: Primes, b: Primes, c: Primes)
    requires Extends(b, a) && Extends(c, b)
    ensures Extends(c, a)
  {
  }

  /** The constant stays itself, and inputs and latches are primed by
      arithmetic, without touching the table. */
  lemma PrimeVarOfInputsAndLatches(p: Primes, lastLatch: int, primedFirst: int, v: int)
    requires Allocatable(p) && 1 <= v <= lastLatch
    ensures PrimeVarOf(p, lastLatch, primedFirst, v) == (if v == 1 then 1 else primedFirst + v - 2, p)
  {
  }

  /** Any other variable gets the next table index on the first call, with a
      table entry named after it plus a prime, and the inverse map records it;
      the table invariant is kept. */
  lemma PrimeVarOfAllocates(p: Primes, lastLatch: int, firstFree: int, primedFirst: int, v: int)
    requires PrimesValid(p, lastLatch, firstFree) && firstFree <= |p.variables|
    requires CanPrime(p, lastLatch, v) && v > lastLatch && v > 1
    ensures var r := PrimeVarOf(p, lastLatch, primedFirst, v);
      PrimesValid(r.1, lastLatch, firstFree) &&
      r.1.toPrime[v] == r.0 && r.1.toUnprime[r.0] == v && firstFree <= r.0 < |r.1.variables| &&
      (v !in p.toPrime ==> (r.0 == |p.variables| &&
        r.1.variables == p.variables + [Variable(r.0, p.variables[v].name + "'")])) &&
      (v in p.toPrime ==> r.1 == p)
  {
  }

  /** Priming keeps the table invariant. */
  lemma PrimeVarOfValid(p: Primes, lastLatch: int, firstFree: int, primedFirst: int, v: int)
    requires PrimesValid(p, lastLatch, firstFree) && firstFree <= |p.variables|
    requires CanPrime(p, lastLatch, v)
    ensures PrimesValid(PrimeVarOf(p, lastLatch, primedFirst, v).1, lastLatch, firstFree)
    ensures firstFree <= |PrimeVarOf(p, lastLatch, primedFirst, v).1.variables|
  {
    if v > lastLatch && v > 1 {
      PrimeVarOfAllocates(p, lastLatch, firstFree, primedFirst, v);
    }
  }

  /** Asking again gives the same number and leaves the table alone, also
      after the table has grown further. */
  lemma PrimeVarOfStable(p: Primes, q: Primes, lastLatch: int, primedFirst: int, v: int)
    requires CanPrime(p, lastLatch, v) && Allocatable(q) && Extends(q, PrimeVarOf(p, lastLatch, primedFirst, v).1)
    ensures CanPrime(q, lastLatch, v)
    ensures PrimeVarOf(q, lastLatch, primedFirst, v) == (PrimeVarOf(p, lastLatch, primedFirst, v).0, q)
  {
  }

  lemma PrimeLitOfStable(p: Primes, q: Primes, lastLatch: int, primedFirst: int, lit: int)
    requires CanPrime(p, lastLatch, Abs(lit)) && Allocatable(q) && Extends(q, PrimeLitOf(p, lastLatch, primedFirst, lit).1)
    ensures CanPrime(q, lastLatch, Abs(lit))
    ensures PrimeLitOf(q, lastLatch, primedFirst, lit) == (PrimeLitOf(p, lastLatch, primedFirst, lit).0, q)
  {
    PrimeVarOfStable(p, q, lastLatch, primedFirst, Abs(lit));
  }

  /** prime_lit(-x) == -prime_lit(x), with the same effect on the table. */
  lemma PrimeLitOfNegation(p: Primes, lastLatch: int, primedFirst: int, x: int)
    requires CanPrime(p, lastLatch, Abs(x))
    ensures PrimeLitOf(p, lastLatch, primedFirst, -x) ==
      (-PrimeLitOf(p, lastLatch, primedFirst, x).0, PrimeLitOf(p, lastLatch, primedFirst, x).1)
  {
  }

  /** Distinct variables get distinct primed numbers: inputs and latches land
      in primedFirst .. firstFree - 1, allocated gates from firstFree on, and
      the inverse map separates gates. */
  lemma {:induction false} PrimeVarOfInjective(p: Primes, lastLatch: int, firstFree: int, primedFirst: int, v: int, w: int)
    requires PrimesValid(p, lastLatch, firstFree) && firstFree <= |p.variables|
    requires 2 <= primedFirst && 1 <= lastLatch && firstFree == primedFirst + lastLatch - 1
    requires CanPrime(p, lastLatch, v) && v != w
    requires CanPrime(PrimeVarOf(p, lastLatch, primedFirst, v).1, lastLatch, w)
    ensures var r := PrimeVarOf(p, lastLatch, primedFirst, v);
      PrimeVarOf(r.1, lastLatch, primedFirst, w).0 != r.0
  {
    var r := PrimeVarOf(p, lastLatch, primedFirst, v);
    PrimeVarOfValid(p, lastLatch, firstFree, primedFirst, v);
    if v > lastLatch && v > 1 {
      PrimeVarOfAllocates(p, lastLatch, firstFree, primedFirst, v);
    }
    if w > lastLatch && w > 1 {
      PrimeVarOfAllocates(r.1, lastLatch, firstFree, primedFirst, w);
    }
  }

  /** `prime_lit` over a list, left to right, as in the loop over the
      constraints of translate_to_dimacs. */
  function PrimeAll(p: Primes, lastLatch: int, primedFirst: int, lits: seq<int>): (r: (seq<int>, Primes))
    requires Allocatable(p) && forall i :: 0 <= i < |lits| ==> 1 <= Abs(lits[i]) < |p.variables|
    ensures |r.0| == |lits| && Extends(r.1, p) && Allocatable(r.1)
  {
    if lits == [] then ([], p)
    else
      var before := PrimeAll(p, lastLatch, primedFirst, lits[..|lits| - 1]);
      var last := PrimeLitOf(before.1, lastLatch, primedFirst, lits[|lits| - 1]);
      (before.0 + [last.0], last.1)
  }

  /** After priming a list every member is primed in the table: asking again
      returns its entry of the result and changes nothing. */
  lemma {:induction false} PrimeAllStable(p: Primes, q: Primes, lastLatch: int, primedFirst: int, lits: seq<int>)
    requires Allocatable(p) && forall i :: 0 <= i < |lits| ==> 1 <= Abs(lits[i]) < |p.variables|
    requires Allocatable(q) && Extends(q, PrimeAll(p, lastLatch, primedFirst, lits).1)
    ensures forall i :: 0 <= i < |lits| ==> (CanPrime(q, lastLatch, Abs(lits[i])) &&
      PrimeLitOf(q, lastLatch, primedFirst, lits[i]) == (PrimeAll(p, lastLatch, primedFirst, lits).0[i], q))
  {
    if lits != [] {
      var n := |lits| - 1;
      var before := PrimeAll(p, lastLatch, primedFirst, lits[..n]);
      var last := PrimeLitOf(before.1, lastLatch, primedFirst, lits[n]);
      ExtendsTransitive(last.1, PrimeAll(p, lastLatch, primedFirst, lits).1, q);
      ExtendsTransitive(before.1, last.1, q);
      PrimeAllStable(p, q, lastLatch, primedFirst, lits[..n]);
      PrimeLitOfStable(before.1, q, lastLatch, primedFirst, lits[n]);
      forall i | 0 <= i < |lits|
        ensures CanPrime(q, lastLatch, Abs(lits[i])) &&
          PrimeLitOf(q, lastLatch, primedFirst, lits[i]) == (PrimeAll(p, lastLatch, primedFirst, lits).0[i], q)
      {
        if i < n {
          assert lits[..n][i] == lits[i];
        }
      }
    }
  }

  /** Priming a list keeps the table invariant. */
  lemma {:induction false} PrimeAllValid(p: Primes, lastLatch: int, firstFree: int, primedFirst: int, lits: seq<int>)
    requires PrimesValid(p, lastLatch, firstFree) && firstFree <= |p.variables|
    requires Allocatable(p) && forall i :: 0 <= i < |lits| ==> 1 <= Abs(lits[i]) < |p.variables|
    ensures PrimesValid(PrimeAll(p, lastLatch, primedFirst, lits).1, lastLatch, firstFree)
    ensures firstFree <= |PrimeAll(p, lastLatch, primedFirst, lits).1.variables|
  {
    if lits != [] {
      var n := |lits| - 1;
      PrimeAllValid(p, lastLatch, firstFree, primedFirst, lits[..n]);
      var before := PrimeAll(p, lastLatch, primedFirst, lits[..n]);
      PrimeVarOfValid(before.1, lastLatch, firstFree, primedFirst, Abs(lits[n]));
    }
  }

  // ---------------------------------------------------------------------------
  // Latch cubes and their primed form
  // ---------------------------------------------------------------------------

  predicate LatchLit(lit: int, numInputs: int, numLatches: int)
  {
    numInputs + 2 <= Abs(lit) <= numInputs + numLatches + 1
  }

  /** Cubes only mention latches. */
  predicate LatchCube(c: seq<int>, numInputs: int, numLatches: int)
  {
    forall i :: 0 <= i < |c| ==> LatchLit(c[i], numInputs, numLatches)
  }

  /** Part of a latch cube is a latch cube. */
  lemma LatchSubCube(a: seq<int>, b: seq<int>, numInputs: int, numLatches: int)
    requires LatchCube(b, numInputs, numLatches) && forall x :: x in a ==> x in b
    ensures LatchCube(a, numInputs, numLatches)
  {
    forall i | 0 <= i < |a|
      ensures LatchLit(a[i], numInputs, numLatches)
    {
      assert a[i] in a;
    }
  }

  /** Every cube of a frame's set mentions only latches. */
  predicate LatchCubes(s: seq<seq<int>>, numInputs: int, numLatches: int)
  {
    forall j :: 0 <= j < |s| ==> LatchCube(s[j], numInputs, numLatches)
  }

  /** A latch cube set keeps only latch cubes when a latch cube is added
      or a cube is taken out. */
  lemma LatchCubesInsert(s: seq<Cube>, c: Cube, numInputs: int, numLatches: int)
    requires CubeSet(s) && LatchCubes(s, numInputs, numLatches) && LatchCube(c, numInputs, numLatches)
    ensures LatchCubes(InsertCube(s, c).0, numInputs, numLatches)
  {
    var r := InsertCube(s, c).0;
    forall j | 0 <= j < |r| ensures LatchCube(r[j], numInputs, numLatches) {
      assert r[j] in r;
    }
  }

  lemma LatchCubesErase(s: seq<Cube>, i: nat, numInputs: int, numLatches: int)
    requires CubeSet(s) && i < |s| && LatchCubes(s, numInputs, numLatches)
    ensures LatchCubes(EraseAt(s, i), numInputs, numLatches)
  {
    var r := EraseAt(s, i);
    forall j | 0 <= j < |r| ensures LatchCube(r[j], numInputs, numLatches) {
      assert r[j] in s;
    }
  }

  /** The latch values of a model are latch literals. */
  lemma LatchValues(o: IpasirOracle, added: seq<int>, assumed: seq<int>, nI: nat, nL: nat)
    requires ValNamesVariable(o)
    ensures LatchCube(ModelValues(o, added, assumed, 2 + nI, nL), nI, nL)
  {
    ModelValuesRange(o, added, assumed, 2 + nI, nL);
    var m := ModelValues(o, added, assumed, 2 + nI, nL);
    forall i | 0 <= i < |m| ensures LatchLit(m[i], nI, nL) {
      assert m[i] in m;
    }
  }

  /** A sub-multiset is a subset. */
  lemma SubCubeOf(a: seq<int>, b: seq<int>)
    requires multiset(a) <= multiset(b)
    ensures forall x :: x in a ==> x in b
  {
    forall x | x in a
      ensures x in b
    {
      assert x in multiset(a);
    }
  }

  /** `prime_lit` of a latch literal. */
  function PrimeLatch(lit: int, primedFirst: int): int
  {
    if lit >= 0 then primedFirst + lit - 2 else -(primedFirst - lit - 2)
  }

  function PrimeCube(c: seq<int>, primedFirst: int): (r: seq<int>)
    ensures |r| == |c| && forall i :: 0 <= i < |c| ==> r[i] == PrimeLatch(c[i], primedFirst)
  {
    seq(|c|, i requires 0 <= i < |c| => PrimeLatch(c[i], primedFirst))
  }

  /** On a latch literal `prime_lit` is PrimeLatch and leaves the table alone;
      the primed latches are exactly primedFirst + I .. primedFirst + I + L - 1. */
  lemma PrimeLatchIsPrimeLit(p: Primes, numInputs: nat, numLatches: nat, primedFirst: int, lit: int)
    requires Allocatable(p) && LatchLit(lit, numInputs, numLatches) && primedFirst >= 2
    ensures CanPrime(p, numInputs + numLatches + 1, Abs(lit))
    ensures PrimeLitOf(p, numInputs + numLatches + 1, primedFirst, lit) == (PrimeLatch(lit, primedFirst), p)
    ensures primedFirst + numInputs <= Abs(PrimeLatch(lit, primedFirst)) < primedFirst + numInputs + numLatches
    ensures (PrimeLatch(lit, primedFirst) < 0) == (lit < 0)
  {
  }

  /** Priming commutes with negation and never merges two latch literals. */
  lemma PrimeLatchInjective(a: int, b: int, primedFirst: int)
    requires Abs(a) >= 2 && Abs(b) >= 2 && primedFirst >= 2
    ensures PrimeLatch(-a, primedFirst) == -PrimeLatch(a, primedFirst)
    ensures PrimeLatch(a, primedFirst) == PrimeLatch(b, primedFirst) ==> a == b
  {
  }

  // ---------------------------------------------------------------------------
  // The walk of encode_translation (PDR.cpp:563-600)
  // ---------------------------------------------------------------------------

  /** Every variable of gates ands[..n] has a table entry. */
  predicate GatesInTable(ands: seq<And>, n: nat, size: int)
    requires n <= |ands|
  {
    forall j :: 0 <= j < n ==>
      1 <= Abs(ands[j].o) < size && 1 <= Abs(ands[j].i1) < size && 1 <= Abs(ands[j].i2) < size
  }

  lemma GatesInLargerTable(ands: seq<And>, n: nat, size: int, size': int)
    requires n <= |ands| && GatesInTable(ands, n, size) && size <= size'
    ensures GatesInTable(ands, n, size')
  {
  }

  /** The primed copy of a gate: `prime_lit` on its output, then on each
      operand, and the table afterwards. */
  function PrimeGate(p: Primes, lastLatch: int, primedFirst: int, g: And): (r: (And, Primes))
    requires Allocatable(p) && 1 <= Abs(g.o) < |p.variables| && 1 <= Abs(g.i1) < |p.variables| &&
      1 <= Abs(g.i2) < |p.variables|
    ensures Extends(r.1, p) && Allocatable(r.1)
  {
    var o' := PrimeLitOf(p, lastLatch, primedFirst, g.o);
    var i1' := PrimeLitOf(o'.1, lastLatch, primedFirst, g.i1);
    var i2' := PrimeLitOf(i1'.1, lastLatch, primedFirst, g.i2);
    (And(o'.0, i1'.0, i2'.0), i2'.1)
  }

  lemma PrimeGateValid(p: Primes, lastLatch: int, firstFree: int, primedFirst: int, g: And)
    requires Allocatable(p) && 1 <= Abs(g.o) < |p.variables| && 1 <= Abs(g.i1) < |p.variables| &&
      1 <= Abs(g.i2) < |p.variables|
    requires PrimesValid(p, lastLatch, firstFree) && firstFree <= |p.variables|
    ensures PrimesValid(PrimeGate(p, lastLatch, primedFirst, g).1, lastLatch, firstFree)
    ensures firstFree <= |PrimeGate(p, lastLatch, primedFirst, g).1.variables|
  {
    var o' := PrimeLitOf(p, lastLatch, primedFirst, g.o);
    PrimeVarOfValid(p, lastLatch, firstFree, primedFirst, Abs(g.o));
    var i1' := PrimeLitOf(o'.1, lastLatch, primedFirst, g.i1);
    PrimeVarOfValid(o'.1, lastLatch, firstFree, primedFirst, Abs(g.i1));
    PrimeVarOfValid(i1'.1, lastLatch, firstFree, primedFirst, Abs(g.i2));
  }

  /** Priming bad, then the constraints, from a valid table leaves a valid
      table in which each of them is already primed, to the values returned. */
  lemma PrimedInterfaceHeld(p: Primes, lastLatch: int, firstFree: int, primedFirst: int, bad: int, cs: seq<int>)
    requires PrimesValid(p, lastLatch, firstFree) && firstFree <= |p.variables| && Allocatable(p)
    requires 1 <= Abs(bad) < |p.variables| && forall k :: 0 <= k < |cs| ==> 1 <= Abs(cs[k]) < |p.variables|
    ensures var b := PrimeLitOf(p, lastLatch, primedFirst, bad);
      var r := PrimeAll(b.1, lastLatch, primedFirst, cs);
      PrimesValid(r.1, lastLatch, firstFree) && p.variables <= r.1.variables &&
      CanPrime(r.1, lastLatch, Abs(bad)) && PrimeLitOf(r.1, lastLatch, primedFirst, bad) == (b.0, r.1) &&
      forall k :: 0 <= k < |cs| ==>
        CanPrime(r.1, lastLatch, Abs(cs[k])) && PrimeLitOf(r.1, lastLatch, primedFirst, cs[k]) == (r.0[k], r.1)
  {
    var b := PrimeLitOf(p, lastLatch, primedFirst, bad);
    PrimeVarOfValid(p, lastLatch, firstFree, primedFirst, Abs(bad));
    assert PrimesValid(b.1, lastLatch, firstFree);
    PrimeAllValid(b.1, lastLatch, firstFree, primedFirst, cs);
    var r := PrimeAll(b.1, lastLatch, primedFirst, cs);
    PrimeLitOfStable(p, r.1, lastLatch, primedFirst, bad);
    PrimeAllStable(b.1, r.1, lastLatch, primedFirst, cs);
    ExtendsTransitive(p, b.1, r.1);
  }

  /** The translation walk over ands[..n], last gate first: a gate in `lits`
      emits its clauses and adds its operands to `lits`; when it is also in
      `plits` it primes its three literals and emits the primed clauses too. */
  function TranslationWalk(ands: seq<And>, n: nat, lits: set<int>, plits: set<int>, p: Primes,
                           lastLatch: int, primedFirst: int): (r: (seq<int>, Primes))
    requires n <= |ands| && GatesInTable(ands, n, |p.variables|) && Allocatable(p)
    ensures Extends(r.1, p) && Allocatable(r.1)
  {
    if n == 0 then ([], p)
    else
      var g := ands[n - 1];
      if g.o in lits then
        if g.o in plits then
          var pg := PrimeGate(p, lastLatch, primedFirst, g);
          var rest := TranslationWalk(ands, n - 1, lits + Operands(g), plits + Operands(g), pg.1, lastLatch, primedFirst);
          (GateClauses(g) + GateClauses(pg.0) + rest.0, rest.1)
        else
          var rest := TranslationWalk(ands, n - 1, lits + Operands(g), plits, p, lastLatch, primedFirst);
          (GateClauses(g) + rest.0, rest.1)
      else TranslationWalk(ands, n - 1, lits, plits, p, lastLatch, primedFirst)
  }

  /** The walk keeps the table invariant and only grows the table. */
  lemma {:induction false} TranslationWalkValid(ands: seq<And>, n: nat, lits: set<int>, plits: set<int>, p: Primes,
                                                lastLatch: int, firstFree: int, primedFirst: int)
    requires n <= |ands| && GatesInTable(ands, n, |p.variables|) && Allocatable(p)
    requires PrimesValid(p, lastLatch, firstFree) && firstFree <= |p.variables|
    ensures PrimesValid(TranslationWalk(ands, n, lits, plits, p, lastLatch, primedFirst).1, lastLatch, firstFree)
  {
    if n > 0 {
      var g := ands[n - 1];
      assert GatesInTable(ands, n - 1, |p.variables|);
      if g.o in lits {
        if g.o in plits {
          var pg := PrimeGate(p, lastLatch, primedFirst, g);
          PrimeGateValid(p, lastLatch, firstFree, primedFirst, g);
          assert GatesInTable(ands, n - 1, |pg.1.variables|);
          TranslationWalkValid(ands, n - 1, lits + Operands(g), plits + Operands(g), pg.1, lastLatch, firstFree, primedFirst);
        } else {
          TranslationWalkValid(ands, n - 1, lits + Operands(g), plits, p, lastLatch, firstFree, primedFirst);
        }
      } else {
        TranslationWalkValid(ands, n - 1, lits, plits, p, lastLatch, firstFree, primedFirst);
      }
    }
  }

  /** The same stream, declaratively: every gate of the cone of `roots` emits
      its clauses, followed by the clauses of its primed copy when it is also
      in the cone of `proots`. */
  ghost function TranslationCone(ands: seq<And>, roots: set<int>, proots: set<int>, n: nat, p: Primes,
                                 lastLatch: int, primedFirst: int): (r: (seq<int>, Primes))
    requires n <= |ands| && GatesInTable(ands, n, |p.variables|) && Allocatable(p)
    ensures Extends(r.1, p) && Allocatable(r.1)
  {
    if n == 0 then ([], p)
    else
      var g := ands[n - 1];
      if InCone(ands, roots, n - 1) then
        if InCone(ands, proots, n - 1) then
          var pg := PrimeGate(p, lastLatch, primedFirst, g);
          var rest := TranslationCone(ands, roots, proots, n - 1, pg.1, lastLatch, primedFirst);
          (GateClauses(g) + GateClauses(pg.0) + rest.0, rest.1)
        else
          var rest := TranslationCone(ands, roots, proots, n - 1, p, lastLatch, primedFirst);
          (GateClauses(g) + rest.0, rest.1)
      else TranslationCone(ands, roots, proots, n - 1, p, lastLatch, primedFirst)
  }

  /** A gate in the cone of some roots is in the cone of any superset. */
  lemma {:induction false} InConeMonotone(ands: seq<And>, small: set<int>, large: set<int>, j: nat)
    requires j < |ands| && small <= large && InCone(ands, small, j)
    ensures InCone(ands, large, j)
    decreases |ands| - j
  {
    if ands[j].o !in small {
      var k :| j < k < |ands| && InCone(ands, small, k) && ands[j].o in Operands(ands[k]);
      InConeMonotone(ands, small, large, k);
    }
  }

  /** One step of TranslationWalkIsCone, for a gate in both cones. */
  lemma ConeStepBoth(ands: seq<And>, roots: set<int>, proots: set<int>, n: nat, p: Primes, lastLatch: int,
                     primedFirst: int, lits: set<int>, plits: set<int>)
    requires 0 < n <= |ands| && GatesInTable(ands, n, |p.variables|) && Allocatable(p)
    requires InCone(ands, roots, n - 1) && InCone(ands, proots, n - 1)
    requires ands[n - 1].o in lits && ands[n - 1].o in plits
    requires var pg := PrimeGate(p, lastLatch, primedFirst, ands[n - 1]);
      GatesInTable(ands, n - 1, |pg.1.variables|) &&
      TranslationWalk(ands, n - 1, lits + Operands(ands[n - 1]), plits + Operands(ands[n - 1]), pg.1, lastLatch,
        primedFirst) == TranslationCone(ands, roots, proots, n - 1, pg.1, lastLatch, primedFirst)
    ensures TranslationWalk(ands, n, lits, plits, p, lastLatch, primedFirst) ==
      TranslationCone(ands, roots, proots, n, p, lastLatch, primedFirst)
  {
  }

  /** One step of TranslationWalkIsCone, for a gate in the unprimed cone only. */
  lemma ConeStepUnprimed(ands: seq<And>, roots: set<int>, proots: set<int>, n: nat, p: Primes, lastLatch: int,
                         primedFirst: int, lits: set<int>, plits: set<int>)
    requires 0 < n <= |ands| && GatesInTable(ands, n, |p.variables|) && Allocatable(p)
    requires InCone(ands, roots, n - 1) && !InCone(ands, proots, n - 1)
    requires ands[n - 1].o in lits && ands[n - 1].o !in plits
    requires TranslationWalk(ands, n - 1, lits + Operands(ands[n - 1]), plits, p, lastLatch, primedFirst) ==
      TranslationCone(ands, roots, proots, n - 1, p, lastLatch, primedFirst)
    ensures TranslationWalk(ands, n, lits, plits, p, lastLatch, primedFirst) ==
      TranslationCone(ands, roots, proots, n, p, lastLatch, primedFirst)
  {
  }

  /** One step of TranslationWalkIsCone, for a gate outside both cones. */
  lemma ConeStepNone(ands: seq<And>, roots: set<int>, proots: set<int>, n: nat, p: Primes, lastLatch: int,
                     primedFirst: int, lits: set<int>, plits: set<int>)
    requires 0 < n <= |ands| && GatesInTable(ands, n, |p.variables|) && Allocatable(p)
    requires !InCone(ands, roots, n - 1) && ands[n - 1].o !in lits
    requires TranslationWalk(ands, n - 1, lits, plits, p, lastLatch, primedFirst) ==
      TranslationCone(ands, roots, proots, n - 1, p, lastLatch, primedFirst)
    ensures TranslationWalk(ands, n, lits, plits, p, lastLatch, primedFirst) ==
      TranslationCone(ands, roots, proots, n, p, lastLatch, primedFirst)
  {
  }

  /** The translation walk encodes exactly the cone of the next states, bad
      and the constraints, and primes exactly the cone of bad and the
      constraints (the primed roots are among the roots). */
  lemma {:induction false} TranslationWalkIsCone(ands: seq<And>, roots: set<int>, proots: set<int>, n: nat, p: Primes,
                                                 lastLatch: int, primedFirst: int)
    requires n <= |ands| && GatesInTable(ands, n, |p.variables|) && Allocatable(p) && proots <= roots
    ensures TranslationWalk(ands, n, LitsAbove(ands, roots, n), LitsAbove(ands, proots, n), p, lastLatch, primedFirst) ==
      TranslationCone(ands, roots, proots, n, p, lastLatch, primedFirst)
  {
    if n > 0 {
      var g := ands[n - 1];
      WalkTestIsCone(ands, roots, n - 1);
      WalkTestIsCone(ands, proots, n - 1);
      var lits := LitsAbove(ands, roots, n);
      var plits := LitsAbove(ands, proots, n);
      assert GatesInTable(ands, n - 1, |p.variables|);
      if InCone(ands, roots, n - 1) {
        assert LitsAbove(ands, roots, n - 1) == lits + Operands(g);
        if InCone(ands, proots, n - 1) {
          assert LitsAbove(ands, proots, n - 1) == plits + Operands(g);
          var pg := PrimeGate(p, lastLatch, primedFirst, g);
          assert GatesInTable(ands, n - 1, |pg.1.variables|);
          TranslationWalkIsCone(ands, roots, proots, n - 1, pg.1, lastLatch, primedFirst);
          ConeStepBoth(ands, roots, proots, n, p, lastLatch, primedFirst, lits, plits);
        } else {
          assert LitsAbove(ands, proots, n - 1) == plits;
          TranslationWalkIsCone(ands, roots, proots, n - 1, p, lastLatch, primedFirst);
          ConeStepUnprimed(ands, roots, proots, n, p, lastLatch, primedFirst, lits, plits);
        }
      } else {
        if InCone(ands, proots, n - 1) {
          InConeMonotone(ands, proots, roots, n - 1);
        }
        assert LitsAbove(ands, roots, n - 1) == lits;
        assert LitsAbove(ands, proots, n - 1) == plits;
        TranslationWalkIsCone(ands, roots, proots, n - 1, p, lastLatch, primedFirst);
        ConeStepNone(ands, roots, proots, n, p, lastLatch, primedFirst, lits, plits);
      }
    }
  }

  /** Started on the roots, the walk encodes the cone. */
  lemma TranslationWalkFromRoots(ands: seq<And>, roots: set<int>, proots: set<int>, p: Primes,
                                 lastLatch: int, primedFirst: int)
    requires GatesInTable(ands, |ands|, |p.variables|) && Allocatable(p) && proots <= roots
    ensures TranslationWalk(ands, |ands|, roots, proots, p, lastLatch, primedFirst) ==
      TranslationCone(ands, roots, proots, |ands|, p, lastLatch, primedFirst)
  {
    TranslationWalkIsCone(ands, roots, proots, |ands|, p, lastLatch, primedFirst);
  }

  // ---------------------------------------------------------------------------
  // Cores, the pc shortcut and joins
  // ---------------------------------------------------------------------------

  /** The literals of c whose primed form the solver reports as failed
      assumptions, in the order of c. */
  function FailedCore(c: seq<int>, o: IpasirOracle, added: seq<int>, assumed: seq<int>, primedFirst: int): (r: seq<int>)
    ensures |r| <= |c| && forall x :: x in r ==> x in c
  {
    if c == [] then []
    else
      var p := FailedCore(c[..|c| - 1], o, added, assumed, primedFirst);
      if o.failed(added, assumed, PrimeLatch(c[|c| - 1], primedFirst)) then p + [c[|c| - 1]] else p
  }

  /** `std::includes(a, b)`: would-be inclusion of b in a, both scanned in
      ascending `<` order. */
  function Includes(a: seq<int>, b: seq<int>): bool
    decreases |a|
  {
    if b == [] then true
    else if a == [] then false
    else if b[0] < a[0] then false
    else if a[0] < b[0] then Includes(a[1..], b)
    else Includes(a[1..], b[1..])
  }

  /** A positive answer is sound: every literal of b, with its multiplicity,
      is in a. */
  lemma {:induction false} IncludesSound(a: seq<int>, b: seq<int>)
    requires Includes(a, b)
    ensures multiset(b) <= multiset(a)
    decreases |a|
  {
    if b != [] {
      assert a != [];
      assert a == [a[0]] + a[1..];
      if a[0] < b[0] {
        IncludesSound(a[1..], b);
      } else {
        assert b == [b[0]] + b[1..];
        IncludesSound(a[1..], b[1..]);
      }
    }
  }

  /** Cubes are sorted by Lit_CMP, not by `<`, so the scan can miss a true
      inclusion: [-3] is part of the sorted cube [2, -3], yet includes says no. */
  lemma IncludesMissesSortedSubcube()
    ensures LitSorted([2, -3]) && -3 in [2, -3] && !Includes([2, -3], [-3])
  {
  }

  /** `std::includes` with Lit_CMP as its comparator, the order the cubes
      are sorted in. */
  function IncludesLit(a: seq<int>, b: seq<int>): bool
    decreases |a|
  {
    if b == [] then true
    else if a == [] then false
    else if LitLess(b[0], a[0]) then false
    else if LitLess(a[0], b[0]) then IncludesLit(a[1..], b)
    else IncludesLit(a[1..], b[1..])
  }

  /** A literal before the head of a sorted cube is not in it. */
  lemma BelowHeadAbsent(a: seq<int>, y: int)
    requires LitSorted(a) && a != [] && LitLess(y, a[0])
    ensures y !in a
  {
    forall k | 0 <= k < |a| ensures a[k] != y {
      LitLessIsStrictTotalOrder(y, a[0], a[k]);
    }
  }

  /** Every literal of a sorted cube is after a literal before its head. */
  lemma AboveSortedHead(b: seq<int>, y: int)
    requires LitSorted(b) && b != [] && (y == b[0] || LitLess(y, b[0]))
    ensures forall x :: x in b[1..] ==> LitLess(y, x)
  {
    forall k | 1 <= k < |b| ensures LitLess(y, b[k]) {
      LitLessIsStrictTotalOrder(y, b[0], b[k]);
    }
  }

  /** Literals after the head of a are in a exactly when they are in its tail. */
  lemma AboveHeadInTail(a: seq<int>, c: seq<int>)
    requires a != [] && forall x :: x in c ==> LitLess(a[0], x)
    ensures forall x :: x in c ==> (x in a <==> x in a[1..])
  {
    assert a == [a[0]] + a[1..];
    LitLessIsStrictTotalOrder(a[0], a[0], a[0]);
  }

  /** On cubes sorted by Lit_CMP the scan with Lit_CMP answers yes exactly
      when every literal of b is in a. */
  lemma {:induction false} IncludesLitExact(a: seq<int>, b: seq<int>)
    requires LitSorted(a) && LitSorted(b)
    ensures IncludesLit(a, b) <==> forall x :: x in b ==> x in a
    decreases |a|
  {
    if b == [] {
    } else if a == [] {
      assert b[0] in b;
    } else if LitLess(b[0], a[0]) {
      BelowHeadAbsent(a, b[0]);
      assert b[0] in b;
    } else if LitLess(a[0], b[0]) {
      IncludesLitExact(a[1..], b);
      AboveSortedHead(b, a[0]);
      assert b == [b[0]] + b[1..];
      AboveHeadInTail(a, b);
    } else {
      LitLessIsStrictTotalOrder(a[0], b[0], b[0]);
      IncludesLitExact(a[1..], b[1..]);
      AboveSortedHead(b, b[0]);
      AboveHeadInTail(a, b[1..]);
      assert b == [b[0]] + b[1..];
      assert a == [a[0]] + a[1..];
    }
  }

  /** With Lit_CMP the scan finds the sub-cube that `<` misses. */
  lemma IncludesLitFindsSortedSubcube()
    ensures LitSorted([2, -3]) && IncludesLit([2, -3], [-3])
  {
    IncludesLitExact([2, -3], [-3]);
  }

  /** The pc shortcut of is_inductive: the first cube of the pushed set, no
      longer than c, that includes reports part of c. */
  function FirstIncluded(pushed: seq<Cube>, c: Cube): (r: Option<Cube>)
    ensures r.Some? ==> r.value in pushed && |r.value| <= |c| && multiset(r.value) <= multiset(c)
    decreases |pushed|
  {
    if pushed == [] then None
    else if |pushed[0]| > |c| then None
    else if Includes(c, pushed[0]) then
      IncludesSound(c, pushed[0]);
      Some(pushed[0])
    else FirstIncluded(pushed[1..], c)
  }

  /** mic's candidate: the literals of c other than l, in the order of c. */
  function Without(c: seq<int>, l: int): (r: seq<int>)
    ensures |r| <= |c|
    ensures forall x :: x in r <==> x in c && x != l
  {
    if c == [] then []
    else
      var p := Without(c[..|c| - 1], l);
      assert c == c[..|c| - 1] + [c[|c| - 1]];
      if c[|c| - 1] == l then p else p + [c[|c| - 1]]
  }

  /** The join loop of CTG_down over cube[..n]: the literals also in the CTG,
      and whether it stopped at a required literal the CTG lacks. */
  function JoinPrefix(cube: seq<int>, n: nat, cti: seq<int>, required: set<int>): (r: (seq<int>, bool))
    requires n <= |cube|
  {
    if n == 0 then ([], false)
    else
      var before := JoinPrefix(cube, n - 1, cti, required);
      var x := cube[n - 1];
      if before.1 then before
      else if x in cti then (before.0 + [x], false)
      else if x in required then (before.0, true)
      else (before.0, false)
  }

  /** The join keeps only literals of both cubes, and, unless it stopped,
      keeps every required literal of the cube. */
  lemma {:induction false} JoinMeaning(cube: seq<int>, n: nat, cti: seq<int>, required: set<int>)
    requires n <= |cube|
    ensures forall x :: x in JoinPrefix(cube, n, cti, required).0 ==> x in cube[..n] && x in cti
    ensures !JoinPrefix(cube, n, cti, required).1 ==>
      forall i :: 0 <= i < n && cube[i] in required ==> cube[i] in JoinPrefix(cube, n, cti, required).0
    ensures |JoinPrefix(cube, n, cti, required).0| <= n
  {
    if n > 0 {
      JoinMeaning(cube, n - 1, cti, required);
      assert forall x :: x in cube[..n - 1] ==> x in cube[..n] by {
        assert cube[..n - 1] == cube[..n][..n - 1];
      }
      assert cube[n - 1] == cube[..n][n - 1];
    }
  }

  /** The join stops exactly when the cube holds a required literal that the
      CTG lacks: the join would otherwise drop it. */
  lemma {:induction false} JoinBreaks(cube: seq<int>, n: nat, cti: seq<int>, required: set<int>)
    requires n <= |cube|
    ensures JoinPrefix(cube, n, cti, required).1 <==>
      exists i :: 0 <= i < n && cube[i] in required && cube[i] !in cti
  {
    if n > 0 {
      JoinBreaks(cube, n - 1, cti, required);
    }
  }

  /** Once the join has stopped at a required literal, the longer
      prefixes change nothing. */
  lemma {:induction false} JoinStopped(cube: seq<int>, n: nat, m: nat, cti: seq<int>, required: set<int>)
    requires n <= m <= |cube| && JoinPrefix(cube, n, cti, required).1
    ensures JoinPrefix(cube, m, cti, required) == JoinPrefix(cube, n, cti, required)
    decreases m - n
  {
    if n < m {
      JoinStopped(cube, n, m - 1, cti, required);
    }
  }

  // ---------------------------------------------------------------------------
  // The state read back by extract_state_from_sat (PDR.cpp:615-763)
  // ---------------------------------------------------------------------------

  /** ipasir_val names the variable it is asked about: v, -v, or 0 when
      the model leaves it open. */
  ghost predicate NamesVariable(o: IpasirOracle, a: seq<int>, s: seq<int>, v: int)
  {
    o.val(a, s, v) == v || o.val(a, s, v) == -v || o.val(a, s, v) == 0
  }

  ghost predicate ValNamesVariable(o: IpasirOracle)
  {
    forall a, s, v :: NamesVariable(o, a, s, v)
  }

  /** The values the last solve gave variables first..first+n-1, in order,
      without the open ones. */
  function ModelValues(o: IpasirOracle, added: seq<int>, assumed: seq<int>, first: int, n: nat): (r: seq<int>)
    ensures |r| <= n
  {
    if n == 0 then []
    else
      var p := ModelValues(o, added, assumed, first, n - 1);
      var v := o.val(added, assumed, first + n - 1);
      if v != 0 then p + [v] else p
  }

  /** The primed value of an input moved down by distance, onto the slot
      after the latches that the heuristic scores. */
  function ShiftDown(v: int, distance: int): int
  {
    if v > 0 then v - distance else if v < 0 then v + distance else 0
  }

  /** The input part of lift's assumptions: for each input its value, then
      its primed value shifted down. */
  function InputAssumptions(o: IpasirOracle, added: seq<int>, assumed: seq<int>, primedFirst: int, distance: int,
                            n: nat): seq<int>
  {
    if n == 0 then []
    else
      var p := InputAssumptions(o, added, assumed, primedFirst, distance, n - 1);
      var ipt := o.val(added, assumed, 2 + n - 1);
      var pipt := o.val(added, assumed, primedFirst + n - 1);
      p + (if ipt != 0 then [ipt] else []) + (if pipt != 0 then [ShiftDown(pipt, distance)] else [])
  }

  /** The way back: literals on the shifted slots (|x| >= bound) move up by
      distance, the rest stay. */
  function ShiftUp(x: int, bound: int, distance: int): int
  {
    if x >= bound then x + distance else if x <= -bound then x - distance else x
  }

  function ShiftAllUp(a: seq<int>, bound: int, distance: int): (r: seq<int>)
    ensures |r| == |a|
  {
    seq(|a|, i requires 0 <= i < |a| => ShiftUp(a[i], bound, distance))
  }

  /** lift's assumptions before sorting: the input assumptions, then the
      latch values of the model. */
  function ReadBack(o: IpasirOracle, added: seq<int>, assumed: seq<int>, nI: nat, nL: nat, pf: int): seq<int>
  {
    InputAssumptions(o, added, assumed, pf, pf - (nI + nL + 2), nI) + ModelValues(o, added, assumed, 2 + nI, nL)
  }

  /** lift's assumptions after act: a in reversed heuristic order (epoch e),
      the shifted primed inputs moved back up. */
  function Lifted(order: (seq<int>, nat) -> seq<int>, a: seq<int>, e: nat, nI: nat, nL: nat, pf: int): seq<int>
  {
    ShiftAllUp(Reverse(order(a, e)), nI + nL + 2, pf - (nI + nL + 2))
  }

  /** The latches of c the last solve reports as failed assumptions, in
      the order of c. */
  function FailedLatches(c: seq<int>, o: IpasirOracle, added: seq<int>, assumed: seq<int>): (r: seq<int>)
    ensures |r| <= |c| && forall x :: x in r ==> x in c
  {
    if c == [] then []
    else
      var p := FailedLatches(c[..|c| - 1], o, added, assumed);
      if o.failed(added, assumed, c[|c| - 1]) then p + [c[|c| - 1]] else p
  }

  /** Every model value of variables first..first+n-1 names one of them. */
  lemma {:induction false} ModelValuesRange(o: IpasirOracle, added: seq<int>, assumed: seq<int>, first: int, n: nat)
    requires ValNamesVariable(o) && first > 0
    ensures forall x :: x in ModelValues(o, added, assumed, first, n) ==> first <= Abs(x) < first + n
  {
    if n > 0 {
      ModelValuesRange(o, added, assumed, first, n - 1);
      assert NamesVariable(o, added, assumed, first + n - 1);
    }
  }

  /** a holds exactly the values of b, c and d. */
  ghost predicate SameElements(a: seq<int>, b: seq<int>, c: seq<int>, d: seq<int>)
  {
    forall x :: x in a <==> x in b || x in c || x in d
  }

  /** Shifting up takes each of ia to a value of mi or mp, fixes mi, and
      undoes ShiftDown on mp. */
  ghost predicate ShiftsBackTo(ia: seq<int>, mi: seq<int>, mp: seq<int>, bound: int, distance: int)
  {
    (forall y :: y in ia ==> ShiftUp(y, bound, distance) in mi || ShiftUp(y, bound, distance) in mp) &&
    (forall x :: x in mi ==> x in ia && ShiftUp(x, bound, distance) == x) &&
    (forall x :: x in mp ==> ShiftDown(x, distance) in ia && ShiftUp(ShiftDown(x, distance), bound, distance) == x)
  }

  ghost predicate ShiftFixes(lm: seq<int>, bound: int, distance: int)
  {
    forall x :: x in lm ==> ShiftUp(x, bound, distance) == x
  }

  /** Shifting a permutation of ia + lm back up: the values ia stands for,
      and lm itself. */
  lemma ShiftedBack(ia: seq<int>, lm: seq<int>, mi: seq<int>, mp: seq<int>, b: seq<int>, bound: int, distance: int)
    requires ShiftsBackTo(ia, mi, mp, bound, distance) && ShiftFixes(lm, bound, distance)
    requires multiset(b) == multiset(ia + lm)
    ensures SameElements(ShiftAllUp(b, bound, distance), mi, mp, lm)
  {
    var up := ShiftAllUp(b, bound, distance);
    forall x | x in up
      ensures x in mi || x in mp || x in lm
    {
      var i :| 0 <= i < |up| && up[i] == x;
      assert b[i] in multiset(ia + lm);
      assert b[i] in ia || b[i] in lm;
    }
    forall x | x in mi || x in mp || x in lm
      ensures x in up
    {
      var y := if x in mi || x in lm then x else ShiftDown(x, distance);
      assert y in ia + lm;
      assert y in multiset(b);
      var i :| 0 <= i < |b| && b[i] == y;
      assert up[i] == ShiftUp(y, bound, distance);
    }
  }

  /** The input assumptions are the input values and the shifted primed
      input values; shifting back up recovers the primed values and leaves
      the input values alone. */
  lemma {:induction false} InputAssumptionsMeaning(o: IpasirOracle, added: seq<int>, assumed: seq<int>,
                                                   pf: int, bound: int, distance: int, n: nat)
    requires ValNamesVariable(o) && n + 2 <= bound && pf == bound + distance
    ensures forall y :: y in InputAssumptions(o, added, assumed, pf, distance, n) ==>
      ShiftUp(y, bound, distance) in ModelValues(o, added, assumed, 2, n) ||
      ShiftUp(y, bound, distance) in ModelValues(o, added, assumed, pf, n)
    ensures forall x :: x in ModelValues(o, added, assumed, 2, n) ==>
      x in InputAssumptions(o, added, assumed, pf, distance, n) && ShiftUp(x, bound, distance) == x
    ensures forall x :: x in ModelValues(o, added, assumed, pf, n) ==>
      ShiftDown(x, distance) in InputAssumptions(o, added, assumed, pf, distance, n) &&
      ShiftUp(ShiftDown(x, distance), bound, distance) == x
  {
    if n > 0 {
      InputAssumptionsMeaning(o, added, assumed, pf, bound, distance, n - 1);
      assert NamesVariable(o, added, assumed, 2 + n - 1) && NamesVariable(o, added, assumed, pf + n - 1);
    }
  }

  /** The same, in the form ShiftedBack takes. */
  lemma InputShiftsBack(o: IpasirOracle, added: seq<int>, assumed: seq<int>, pf: int, bound: int, distance: int, n: nat)
    requires ValNamesVariable(o) && n + 2 <= bound && pf == bound + distance
    ensures ShiftsBackTo(InputAssumptions(o, added, assumed, pf, distance, n), ModelValues(o, added, assumed, 2, n),
      ModelValues(o, added, assumed, pf, n), bound, distance)
  {
    InputAssumptionsMeaning(o, added, assumed, pf, bound, distance, n);
  }

  /** The latch values stay where they are when shifted up. */
  lemma LatchShiftFixes(o: IpasirOracle, added: seq<int>, assumed: seq<int>, nI: nat, nL: nat, distance: int)
    requires ValNamesVariable(o)
    ensures ShiftFixes(ModelValues(o, added, assumed, 2 + nI, nL), nI + nL + 2, distance)
  {
    ModelValuesRange(o, added, assumed, 2 + nI, nL);
  }

  /** lift's assumptions hold exactly the model's input values, its primed
      input values and its latch values: the shift down by distance and the
      shift back up cancel, whatever order the heuristic picks. */
  lemma LiftedValues(o: IpasirOracle, order: (seq<int>, nat) -> seq<int>, added: seq<int>, assumed: seq<int>,
                     e: nat, nI: nat, nL: nat, pf: int)
    requires ValNamesVariable(o)
    requires var a := ReadBack(o, added, assumed, nI, nL, pf); multiset(order(a, e)) == multiset(a)
    ensures SameElements(Lifted(order, ReadBack(o, added, assumed, nI, nL, pf), e, nI, nL, pf),
      ModelValues(o, added, assumed, 2, nI), ModelValues(o, added, assumed, pf, nI),
      ModelValues(o, added, assumed, 2 + nI, nL))
  {
    var bound, distance := nI + nL + 2, pf - (nI + nL + 2);
    var ia := InputAssumptions(o, added, assumed, pf, distance, nI);
    var lm := ModelValues(o, added, assumed, 2 + nI, nL);
    InputShiftsBack(o, added, assumed, pf, bound, distance, nI);
    LatchShiftFixes(o, added, assumed, nI, nL, distance);
    assert ReadBack(o, added, assumed, nI, nL, pf) == ia + lm;
    var c := order(ia + lm, e);
    assert multiset(c) == multiset(ia + lm);
    var b := Reverse(c);
    ReverseIsPermutation(c);
    ShiftedBack(ia, lm, ModelValues(o, added, assumed, 2, nI), ModelValues(o, added, assumed, pf, nI), b,
      bound, distance);
    assert Lifted(order, ReadBack(o, added, assumed, nI, nL, pf), e, nI, nL, pf) == ShiftAllUp(b, bound, distance);
  }
}
