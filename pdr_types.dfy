/**
 * The data types of the PDR engine and their orderings (PDR.hpp).
 *
 *  - Lit_CMP orders DIMACS literals by variable, the negative literal first.
 *  - Cube_CMP orders cubes (vectors of literals) shorter first, then
 *    lexicographically by raw integer value.
 *  - Obligation::operator< orders proof obligations by frame, then by depth
 *    (deeper first), then by the creation stamp of their state.
 *  - State carries a stamp: the value of the global counter state_count
 *    after the constructor's increment (the engine keeps the counter).
 *  - Variable names are built from a type letter and an index.
 *
 * std::set and std::sort are modelled by sorted sequences: a set ordered by a
 * strict total order is the sorted sequence of its elements.
 */
module PdrTypes {
  import opened Literals
  import opened Wrappers

  /** An AND gate over DIMACS literals (PDR.hpp:41-45). */
  datatype And = And(o: int, i1: int, i2: int)

  /** A cube: literals over latch variables, kept sorted by LitLess. */
  type Cube = seq<int>

  // ---------------------------------------------------------------------------
  // Lit_CMP (PDR.hpp:101-109)
  // ---------------------------------------------------------------------------

  predicate LitLess(a: int, b: int)
  {
    if Abs(a) == Abs(b) then a < b else Abs(a) < Abs(b)
  }

  /** Lit_CMP is a strict total order on the integers, and puts -v right before v. */
  lemma LitLessIsStrictTotalOrder(a: int, b: int, c: int)
    ensures !LitLess(a, a)
    ensures LitLess(a, b) ==> !LitLess(b, a)
    ensures LitLess(a, b) && LitLess(b, c) ==> LitLess(a, c)
    ensures a != b ==> LitLess(a, b) || LitLess(b, a)
    ensures a > 0 ==> LitLess(-a, a) && !(exists x :: LitLess(-a, x) && LitLess(x, a))
  {
  }

  /** Sorted by Lit_CMP, each literal strictly before the next. */
  predicate LitSorted(c: seq<int>)
  {
    forall i, j :: 0 <= i < j < |c| ==> LitLess(c[i], c[j])
  }

  /** Sorted by Lit_CMP, equal literals allowed next to each other. */
  predicate LitOrdered(c: seq<int>)
  {
    forall i, j :: 0 <= i < j < |c| ==> c[i] == c[j] || LitLess(c[i], c[j])
  }

  /** In an ordered sequence the first literal is at or before every other. */
  lemma OrderedHead(a: seq<int>, y: int)
    requires LitOrdered(a) && y in a
    ensures a[0] == y || LitLess(a[0], y)
  {
    var k :| 0 <= k < |a| && a[k] == y;
    if k > 0 {
      assert a[0] == a[k] || LitLess(a[0], a[k]);
    }
  }

  /** Puts x into a Lit_CMP-ordered sequence, after the literals before it. */
  function InsertLit(c: seq<int>, x: int): (r: seq<int>)
    ensures multiset(r) == multiset(c) + multiset{x}
  {
    if c == [] then [x]
    else if LitLess(c[0], x) || c[0] == x then
      assert c == [c[0]] + c[1..];
      [c[0]] + InsertLit(c[1..], x)
    else [x] + c
  }

  lemma {:induction false} InsertLitOrdered(c: seq<int>, x: int)
    requires LitOrdered(c)
    ensures LitOrdered(InsertLit(c, x))
  {
    if c != [] {
      var r := InsertLit(c, x);
      if LitLess(c[0], x) || c[0] == x {
        var t := InsertLit(c[1..], x);
        InsertLitOrdered(c[1..], x);
        assert r == [c[0]] + t;
        forall j | 0 <= j < |t| ensures c[0] == t[j] || LitLess(c[0], t[j]) {
          assert t[j] in multiset(t);
          if t[j] != x {
            assert t[j] in c[1..];
            var k :| 0 <= k < |c[1..]| && c[1..][k] == t[j];
            assert c[k + 1] == t[j];
          }
        }
      } else {
        assert r == [x] + c;
        LitLessIsStrictTotalOrder(x, c[0], x);
        forall j | 0 <= j < |c| ensures LitLess(x, c[j]) {
          if j > 0 {
            LitLessIsStrictTotalOrder(x, c[0], c[j]);
          }
        }
      }
    }
  }

  /** `sort(cube.begin(), cube.end(), Lit_CMP())`. */
  function SortLits(c: seq<int>): (r: seq<int>)
    ensures LitOrdered(r) && multiset(r) == multiset(c)
  {
    if c == [] then [] else
      assert c == [c[0]] + c[1..];
      var t := SortLits(c[1..]);
      InsertLitOrdered(t, c[0]);
      InsertLit(t, c[0])
  }

  /** The result of sorting does not depend on the sort: an ordered
      permutation is unique, since Lit_CMP equivalence is equality. */
  lemma {:induction false} OrderedPermutationUnique(a: seq<int>, b: seq<int>)
    requires LitOrdered(a) && LitOrdered(b) && multiset(a) == multiset(b)
    ensures a == b
  {
    if a != [] {
      SameHead(a, b);
      OrderedTail(a);
      OrderedTail(b);
      OrderedPermutationUnique(a[1..], b[1..]);
      assert a == [a[0]] + a[1..] && b == [b[0]] + b[1..];
    }
  }

  /** Two ordered permutations of one multiset start alike, and what
      follows is again a permutation. */
  lemma SameHead(a: seq<int>, b: seq<int>)
    requires LitOrdered(a) && LitOrdered(b) && multiset(a) == multiset(b) && a != []
    ensures b != [] && a[0] == b[0] && multiset(a[1..]) == multiset(b[1..])
  {
    assert b != [] by { assert a[0] in multiset(b); }
    assert a[0] in multiset(b) && b[0] in multiset(a) by {
      assert a[0] in a && b[0] in b;
    }
    OrderedHead(a, b[0]);
    OrderedHead(b, a[0]);
    LitLessIsStrictTotalOrder(a[0], b[0], a[0]);
    HeadTail(a);
    HeadTail(b);
  }

  lemma HeadTail(a: seq<int>)
    requires a != []
    ensures multiset(a[1..]) == multiset(a) - multiset{a[0]}
  {
    assert a == [a[0]] + a[1..];
  }

  lemma OrderedTail(a: seq<int>)
    requires LitOrdered(a) && a != []
    ensures LitOrdered(a[1..])
  {
    forall i, j | 0 <= i < j < |a[1..]| ensures a[1..][i] == a[1..][j] || LitLess(a[1..][i], a[1..][j]) {
      assert a[1..][i] == a[i + 1] && a[1..][j] == a[j + 1];
    }
  }

  // ---------------------------------------------------------------------------
  // Cube_CMP (PDR.hpp:128-141)
  // ---------------------------------------------------------------------------

  /** Lexicographic order by raw integer value on sequences of one length. */
  predicate LexLess(a: seq<int>, b: seq<int>)
    requires |a| == |b|
  {
    a != [] && (a[0] < b[0] || (a[0] == b[0] && LexLess(a[1..], b[1..])))
  }

  predicate CubeLess(a: Cube, b: Cube)
  {
    if |a| != |b| then |a| < |b| else LexLess(a, b)
  }

  /** Cube_CMP's loop: the first differing position decides. */
  method CubeCompare(a: Cube, b: Cube) returns (r: bool)
    ensures r == CubeLess(a, b)
  {
    if |a| != |b| {
      return |a| < |b|;
    }
    var i := 0;
    while i < |a|
      invariant 0 <= i <= |a|
      invariant a[..i] == b[..i]
      invariant LexLess(a, b) == LexLess(a[i..], b[i..])
    {
      if a[i] != b[i] {
        return a[i] < b[i];
      }
      assert a[i..][1..] == a[i + 1..] && b[i..][1..] == b[i + 1..];
      i := i + 1;
    }
    return false;
  }

  lemma {:induction false} LexLessIsStrictTotalOrder(a: seq<int>, b: seq<int>, c: seq<int>)
    requires |a| == |b| == |c|
    ensures !LexLess(a, a)
    ensures LexLess(a, b) ==> !LexLess(b, a)
    ensures LexLess(a, b) && LexLess(b, c) ==> LexLess(a, c)
    ensures a != b ==> LexLess(a, b) || LexLess(b, a)
  {
    if a != [] {
      LexLessIsStrictTotalOrder(a[1..], b[1..], c[1..]);
      assert a == [a[0]] + a[1..] && b == [b[0]] + b[1..];
    }
  }

  /** Cube_CMP is a strict total order on cubes; two cubes are equivalent
      under it (neither before the other) exactly when they are identical. */
  lemma CubeLessIsStrictTotalOrder(a: Cube, b: Cube, c: Cube)
    ensures !CubeLess(a, a)
    ensures CubeLess(a, b) ==> !CubeLess(b, a)
    ensures CubeLess(a, b) && CubeLess(b, c) ==> CubeLess(a, c)
    ensures !CubeLess(a, b) && !CubeLess(b, a) <==> a == b
  {
    LexLessIsStrictTotalOrder(a, a, a);
    if |a| == |b| {
      LexLessIsStrictTotalOrder(a, b, a);
    }
    if |a| == |b| == |c| {
      LexLessIsStrictTotalOrder(a, b, c);
    }
  }

  /** A std::set of cubes: strictly increasing by Cube_CMP. */
  predicate CubeSet(s: seq<Cube>)
  {
    forall i, j :: 0 <= i < j < |s| ==> CubeLess(s[i], s[j])
  }

  /** In a cube set the first cube is before every other member. */
  lemma CubeSetHead(s: seq<Cube>, x: Cube)
    requires CubeSet(s) && s != [] && x in s[1..]
    ensures CubeLess(s[0], x)
  {
    var k :| 0 <= k < |s[1..]| && s[1..][k] == x;
    assert s[k + 1] == x;
  }

  lemma CubeSetTail(s: seq<Cube>)
    requires CubeSet(s) && s != []
    ensures CubeSet(s[1..])
  {
    forall i, j | 0 <= i < j < |s[1..]| ensures CubeLess(s[1..][i], s[1..][j]) {
      assert s[1..][i] == s[i + 1] && s[1..][j] == s[j + 1];
    }
  }

  /** `set<Cube, Cube_CMP>::insert`: the new set and whether c was absent. */
  function InsertCube(s: seq<Cube>, c: Cube): (r: (seq<Cube>, bool))
    requires CubeSet(s)
    ensures CubeSet(r.0)
    ensures r.1 <==> c !in s
    ensures !r.1 ==> r.0 == s
    ensures forall x :: x in r.0 <==> x in s || x == c
    ensures |r.0| == if r.1 then |s| + 1 else |s|
  {
    if s == [] then ([c], true)
    else if s[0] == c then (s, false)
    else if CubeLess(s[0], c) then
      assert s == [s[0]] + s[1..];
      CubeSetTail(s);
      var t := InsertCube(s[1..], c);
      forall x | x in t.0 ensures CubeLess(s[0], x) {
        if x != c { CubeSetHead(s, x); }
      }
      ([s[0]] + t.0, t.1)
    else
      CubeLessIsStrictTotalOrder(c, s[0], c);
      forall x | x in s[1..] ensures CubeLess(c, x) && x != c {
        CubeSetHead(s, x);
        CubeLessIsStrictTotalOrder(c, s[0], x);
        CubeLessIsStrictTotalOrder(x, c, x);
      }
      assert s == [s[0]] + s[1..];
      ([c] + s, true)
  }

  /** `set<Cube, Cube_CMP>::erase` of the element at position i. */
  function EraseAt(s: seq<Cube>, i: nat): (r: seq<Cube>)
    requires CubeSet(s) && i < |s|
    ensures CubeSet(r) && |r| == |s| - 1
    ensures forall x :: x in r <==> x in s && x != s[i]
  {
    var r := s[..i] + s[i + 1..];
    assert forall k :: 0 <= k < |r| ==> r[k] == (if k < i then s[k] else s[k + 1]);
    forall x | x in s && x != s[i] ensures x in r {
      var k :| 0 <= k < |s| && s[k] == x;
      assert r[if k < i then k else k - 1] == x;
    }
    forall x | x in r ensures x != s[i] {
      var k :| 0 <= k < |r| && r[k] == x;
      if k < i {
        CubeLessIsStrictTotalOrder(s[k], s[i], s[k]);
      } else {
        CubeLessIsStrictTotalOrder(s[i], s[k + 1], s[i]);
      }
    }
    r
  }

  // ---------------------------------------------------------------------------
  // State (PDR.hpp:61-81)
  // ---------------------------------------------------------------------------

  class State {
    const latches: seq<int>
    const inputs: seq<int>
    const next: State?
    const index: nat
    var failed: int
    var failedDepth: int
    /** The successors the state was made for: next, next's next, and so on. */
    ghost const chain: seq<State>

    /** `State(l, i)` with stamp `stamp`. */
    constructor (stamp: nat, l: seq<int>, i: seq<int>)
      ensures index == stamp && latches == l && inputs == i && next == null && chain == []
      ensures failed == 0 && failedDepth == 0
    {
      index := stamp;
      latches, inputs, next := l, i, null;
      failed, failedDepth := 0, 0;
      chain := [];
    }

    /** `State()` with stamp `stamp` as extract_state_from_sat fills it for
        the successor n: latches l, inputs i and next n. */
    constructor Predecessor(stamp: nat, l: seq<int>, i: seq<int>, n: State)
      ensures index == stamp && latches == l && inputs == i && next == n && chain == [n] + n.chain
      ensures failed == 0 && failedDepth == 0
    {
      index := stamp;
      latches, inputs, next := l, i, n;
      failed, failedDepth := 0, 0;
      chain := [n] + n.chain;
    }

  }

  // ---------------------------------------------------------------------------
  // Obligation (PDR.hpp:83-99)
  // ---------------------------------------------------------------------------

  datatype Obligation = Obligation(state: State, frameK: int, depth: int)

  predicate ObligationLess(a: Obligation, b: Obligation)
  {
    if a.frameK < b.frameK then true
    else if a.frameK > b.frameK then false
    else if a.depth > b.depth then true
    else if a.depth < b.depth then false
    else a.state.index < b.state.index
  }

  /** The key the order looks at: two obligations with one key are the same
      element of a std::set. */
  predicate SameKey(a: Obligation, b: Obligation)
  {
    a.frameK == b.frameK && a.depth == b.depth && a.state.index == b.state.index
  }

  /** Lowest frame first, then the deepest, then the oldest state; the order is
      strict and total up to equal keys. */
  lemma ObligationLessIsStrictTotalOrder(a: Obligation, b: Obligation, c: Obligation)
    ensures !ObligationLess(a, a)
    ensures ObligationLess(a, b) ==> !ObligationLess(b, a)
    ensures ObligationLess(a, b) && ObligationLess(b, c) ==> ObligationLess(a, c)
    ensures !ObligationLess(a, b) && !ObligationLess(b, a) <==> SameKey(a, b)
    ensures ObligationLess(a, b) <==>
      a.frameK < b.frameK || (a.frameK == b.frameK && a.depth > b.depth) ||
      (a.frameK == b.frameK && a.depth == b.depth && a.state.index < b.state.index)
  {
  }

  /** A std::set of obligations: strictly increasing. */
  predicate Queue(q: seq<Obligation>)
  {
    forall i, j :: 0 <= i < j < |q| ==> ObligationLess(q[i], q[j])
  }

  /** `begin()` of a non-empty queue comes before every other element. */
  lemma QueueBeginIsLeast(q: seq<Obligation>)
    requires Queue(q) && q != []
    ensures forall x :: x in q[1..] ==> ObligationLess(q[0], x)
  {
  }

  lemma QueueTail(q: seq<Obligation>)
    requires Queue(q) && q != []
    ensures Queue(q[1..])
  {
    forall i, j | 0 <= i < j < |q[1..]| ensures ObligationLess(q[1..][i], q[1..][j]) {
      assert q[1..][i] == q[i + 1] && q[1..][j] == q[j + 1];
    }
  }

  /** q holds an element with the key of o. */
  predicate HasKey(q: seq<Obligation>, o: Obligation)
  {
    exists x :: x in q && SameKey(x, o)
  }

  /** `set<Obligation>::insert` into a queue: o goes before the first
      element it orders before, unless an element with its key is there. */
  function InsertObligation(q: seq<Obligation>, o: Obligation): (r: seq<Obligation>)
    requires Queue(q)
    ensures Queue(r) && forall x :: x in r ==> x in q || x == o
  {
    if q == [] then [o]
    else if SameKey(q[0], o) then q
    else if ObligationLess(q[0], o) then
      QueueTail(q);
      var t := InsertObligation(q[1..], o);
      forall x | x in t ensures ObligationLess(q[0], x) {
        if x != o {
          var k :| 0 <= k < |q[1..]| && q[1..][k] == x;
          assert q[k + 1] == x;
        }
      }
      [q[0]] + t
    else
      forall k | 0 < k < |q| ensures ObligationLess(o, q[k]) {
        ObligationLessIsStrictTotalOrder(o, q[0], q[k]);
      }
      [o] + q
  }

  /** insert leaves the queue alone when the key is present and otherwise
      adds o once. */
  lemma {:induction false} InsertObligationContents(q: seq<Obligation>, o: Obligation)
    requires Queue(q)
    ensures HasKey(q, o) ==> InsertObligation(q, o) == q
    ensures !HasKey(q, o) ==> multiset(InsertObligation(q, o)) == multiset(q) + multiset{o}
  {
    if q == [] {
    } else if SameKey(q[0], o) {
    } else if ObligationLess(q[0], o) {
      QueueTail(q);
      assert q == [q[0]] + q[1..];
      InsertObligationContents(q[1..], o);
      assert HasKey(q, o) ==> HasKey(q[1..], o);
      assert HasKey(q[1..], o) ==> HasKey(q, o) by {
        if HasKey(q[1..], o) {
          var x :| x in q[1..] && SameKey(x, o);
          assert x in q;
        }
      }
    } else {
      forall k | 0 < k < |q| ensures !SameKey(q[k], o) {
        ObligationLessIsStrictTotalOrder(o, q[0], q[k]);
      }
      assert !HasKey(q, o);
    }
  }

  // ---------------------------------------------------------------------------
  // Variable (PDR.hpp:21-39)
  // ---------------------------------------------------------------------------

  datatype Variable = Variable(dimacsVar: int, name: string)

  predicate IsDigitChar(c: char)
  {
    '0' <= c <= '9'
  }

  /** Decimal text of a natural number, as `stringstream << int` writes it. */
  function NatText(n: nat): (t: string)
    ensures |t| >= 1 && forall i :: 0 <= i < |t| ==> IsDigitChar(t[i])
  {
    if n < 10 then [(n + '0' as int) as char] else NatText(n / 10) + [(n % 10 + '0' as int) as char]
  }

  function IntText(n: int): (t: string)
    ensures |t| >= 1
  {
    if n < 0 then "-" + NatText(-n) else NatText(n)
  }

  /** The value of a run of decimal digits. */
  function DigitsValue(t: string): nat
    requires forall i :: 0 <= i < |t| ==> IsDigitChar(t[i])
  {
    if t == [] then 0
    else
      assert IsDigitChar(t[|t| - 1]);
      DigitsValue(t[..|t| - 1]) * 10 + (t[|t| - 1] as int - '0' as int)
  }

  lemma {:induction false} NatTextValue(n: nat)
    ensures DigitsValue(NatText(n)) == n
  {
    if n >= 10 {
      NatTextValue(n / 10);
      var t := NatText(n);
      assert t[..|t| - 1] == NatText(n / 10);
    }
  }

  predicate IsVariableType(kind: char)
  {
    kind == 'i' || kind == 'o' || kind == 'l' || kind == 'a'
  }

  /** `Variable(dimacs_index, type, type_index, prime)`: the type letter, the
      index, and a quote when primed. */
  function NamedVariable(dimacsIndex: int, kind: char, typeIndex: int, prime: bool): (v: Variable)
    requires IsVariableType(kind)
    ensures v.dimacsVar == dimacsIndex && |v.name| >= 2 && v.name[0] == kind
    ensures v.name[|v.name| - 1] == '\'' <==> prime
  {
    Variable(dimacsIndex, [kind] + IntText(typeIndex) + (if prime then "'" else ""))
  }

  /** Reads a name back: the type letter, the index and whether it is primed. */
  function ParseName(name: string): Option<(char, nat, bool)>
  {
    if |name| < 2 then None
    else
      var prime := name[|name| - 1] == '\'';
      var digits := if prime then name[1..|name| - 1] else name[1..];
      if digits != [] && forall i :: 0 <= i < |digits| ==> IsDigitChar(digits[i])
      then Some((name[0], DigitsValue(digits), prime))
      else None
  }

  /** A type letter, a run of digits and a quote parse back to their
      parts. */
  lemma ParsePrimed(kind: char, d: string, name: string)
    requires d != [] && forall i :: 0 <= i < |d| ==> IsDigitChar(d[i])
    requires name == [kind] + d + "'"
    ensures ParseName(name) == Some((kind, DigitsValue(d), true))
  {
    assert name[0] == kind && name[|name| - 1] == '\'';
    assert name[1..|name| - 1] == d;
  }

  /** The same without the quote. */
  lemma ParseUnprimed(kind: char, d: string, name: string)
    requires d != [] && forall i :: 0 <= i < |d| ==> IsDigitChar(d[i])
    requires name == [kind] + d + ""
    ensures ParseName(name) == Some((kind, DigitsValue(d), false))
  {
    assert name == [kind] + d;
    assert name[0] == kind && name[|name| - 1] == d[|d| - 1];
    assert IsDigitChar(d[|d| - 1]);
    assert name[1..] == d;
  }

  /** Names of variables with a non-negative index read back to their parts,
      so distinct (type, index, prime) triples never share a name. */
  lemma VariableNameRoundTrip(dimacsIndex: int, kind: char, typeIndex: nat, prime: bool)
    requires IsVariableType(kind)
    ensures ParseName(NamedVariable(dimacsIndex, kind, typeIndex, prime).name) == Some((kind, typeIndex, prime))
  {
    var name := NamedVariable(dimacsIndex, kind, typeIndex, prime).name;
    NatTextValue(typeIndex);
    if prime {
      ParsePrimed(kind, NatText(typeIndex), name);
    } else {
      ParseUnprimed(kind, NatText(typeIndex), name);
    }
  }
}
