/**
 * Literal conventions of the model checker (basic.hpp).
 *
 *  - AIGER literals: variable v has literals 2v (positive) and 2v+1 (negated);
 *    literal 0 is the constant false and 1 the constant true.
 *  - DIMACS literals: a nonzero signed integer; variable 1 is reserved for the
 *    AIGER constant, so AIGER variable v becomes DIMACS variable v+1.
 *  - A Minisat-style packed Literal (2 * var + sign in one int).
 *  - A three-valued lbool whose AND/OR are table lookups in a 32-bit constant.
 *
 * C++ integer widths are written out: `int` is Int32, `short` is Short,
 * `unsigned` is UInt32, and bit operations on them are stated as arithmetic.
 */
module Literals {

  const TWO_31: int := 0x8000_0000
  const TWO_32: int := 0x1_0000_0000

  type Int32 = x: int | -TWO_31 <= x < TWO_31
  type UInt32 = x: int | 0 <= x < TWO_32
  type Short = x: int | -0x8000 <= x < 0x8000

  /** Two's-complement reinterpretation of the low 32 bits of x as a signed int. */
  function ToInt32(x: int): (r: Int32)
    ensures (r - x) % TWO_32 == 0
    ensures -TWO_31 <= x < TWO_31 ==> r == x
  {
    var m := x % TWO_32;
    if m < TWO_31 then m else m - TWO_32
  }

  /** Conversion of an int to `unsigned`: the value modulo 2^32. */
  function ToUInt32(x: int): (r: UInt32)
    ensures (r - x) % TWO_32 == 0
    ensures 0 <= x < TWO_32 ==> r == x
  {
    x % TWO_32
  }

  /** An int read back as `unsigned` keeps its low 32 bits. */
  lemma UInt32OfInt32(x: int)
    ensures ToUInt32(ToInt32(x)) == ToUInt32(x)
  {
    var m := x % TWO_32;
    assert ToInt32(x) % TWO_32 == m;
  }

  /** `max(x, 0)`. */
  function Max0(x: int): nat
  {
    if x > 0 then x else 0
  }

  /** Truncation of an int to `short` (the low 16 bits, reinterpreted as signed). */
  function ToShort(x: int): (r: Short)
    ensures (r - x) % 0x1_0000 == 0
    ensures -0x8000 <= x < 0x8000 ==> r == x
  {
    var m := x % 0x1_0000;
    if m < 0x8000 then m else m - 0x1_0000
  }

  /** `x ^ 1` on a two's-complement integer: flips bit 0 and nothing else. */
  function FlipBit0(x: int): (r: int)
    ensures r / 2 == x / 2
    ensures r % 2 == 1 - x % 2
  {
    if x % 2 == 0 then x + 1 else x - 1
  }

  function Abs(x: int): nat
  {
    if x < 0 then -x else x
  }

  // ---------------------------------------------------------------------------
  // AIGER <-> DIMACS (basic.hpp:84-99)
  // ---------------------------------------------------------------------------

  /** `aiger_to_dimacs`: `lit >> 1` is a floor division, `lit & 1` the low bit. */
  function AigerToDimacs(lit: int): (r: int)
    ensures lit >= 0 ==> r != 0 && Abs(r) == lit / 2 + 1 && (r < 0 <==> lit % 2 == 1)
  {
    var res := lit / 2;
    if lit % 2 == 1 then -res - 1 else res + 1
  }

  /** `dimacs_to_aiger`: variable |lit| - 1, odd exactly for a negative literal. */
  function DimacsToAiger(lit: int): (r: int)
    ensures lit != 0 ==> r >= 0 && r / 2 == Abs(lit) - 1 && (r % 2 == 1 <==> lit < 0)
  {
    var res := (Abs(lit) - 1) * 2;
    if lit < 0 then res + 1 else res
  }

  lemma DimacsRoundTrip(x: int)
    requires x != 0
    ensures AigerToDimacs(DimacsToAiger(x)) == x
  {
  }

  lemma AigerRoundTrip(a: int)
    requires a >= 0
    ensures DimacsToAiger(AigerToDimacs(a)) == a
  {
  }

  /** AIGER false (0) is DIMACS 1, AIGER true (1) is DIMACS -1, and negating an
      AIGER literal (flipping its low bit) negates the DIMACS literal. */
  lemma AigerNegation(a: int)
    requires a >= 0
    ensures AigerToDimacs(0) == 1 && AigerToDimacs(1) == -1
    ensures AigerToDimacs(FlipBit0(a)) == -AigerToDimacs(a)
  {
  }

  /** The conversion is only meant for unsigned AIGER literals: -1 maps to the
      clause terminator 0. */
  lemma NegativeAigerLiteralIsNotConverted()
    ensures AigerToDimacs(-1) == 0
  {
  }

  // ---------------------------------------------------------------------------
  // Packed Literal (basic.hpp:25-44)
  // ---------------------------------------------------------------------------

  datatype Literal = Literal(val: Int32)

  /** `mkLit(var, sign)`: `var + var + sign` in unsigned arithmetic, stored in an int. */
  function MkLit(v: UInt32, sign: bool): (p: Literal)
    ensures v < 0x4000_0000 ==> p.val == 2 * v + (if sign then 1 else 0)
  {
    Literal(ToInt32((v + v + (if sign then 1 else 0)) % TWO_32))
  }

  /** `operator~`: `p.val ^ 1`. */
  function Negate(p: Literal): (q: Literal)
    ensures GetVar(q) == GetVar(p) && GetSign(q) == !GetSign(p)
  {
    Literal(FlipBit0(p.val))
  }

  /** `operator^(p, b)`: flips the sign exactly when b holds. */
  function XorSign(p: Literal, b: bool): (q: Literal)
    ensures GetVar(q) == GetVar(p)
    ensures GetSign(q) == (GetSign(p) != b)
  {
    if b then Literal(FlipBit0(p.val)) else p
  }

  /** `get_sign`: `p.val & 1`. */
  function GetSign(p: Literal): bool
  {
    p.val % 2 == 1
  }

  /** `get_var`: `p.val >> 1`, an arithmetic (floor) shift. */
  function GetVar(p: Literal): int
  {
    p.val / 2
  }

  /** `operator<` compares the packed values, which makes p and ~p adjacent. */
  predicate LiteralLess(p: Literal, q: Literal)
  {
    p.val < q.val
  }

  lemma MkLitFields(v: UInt32, sign: bool)
    requires v < 0x4000_0000
    ensures GetVar(MkLit(v, sign)) == v
    ensures GetSign(MkLit(v, sign)) == sign
    ensures MkLit(v, sign) == XorSign(MkLit(v, false), sign)
  {
  }

  lemma NegateInvolution(p: Literal)
    ensures Negate(Negate(p)) == p
    ensures Negate(p) != p
    ensures Negate(p) == XorSign(p, true) && XorSign(p, false) == p
  {
  }

  /** p and ~p are adjacent under `<`: no literal lies strictly between them. */
  lemma NegationAdjacent(p: Literal, q: Literal)
    ensures !(LiteralLess(p, q) && LiteralLess(q, Negate(p)))
    ensures !(LiteralLess(Negate(p), q) && LiteralLess(q, p))
  {
  }

  /** Variables of 2^31 and more wrap around: the packed value of mkLit(2^31) is 0. */
  lemma MkLitWraps()
    ensures MkLit(TWO_31, false).val == 0
    ensures GetVar(MkLit(TWO_31, false)) != TWO_31
  {
  }

  // ---------------------------------------------------------------------------
  // lbool (basic.hpp:47-79)
  // ---------------------------------------------------------------------------

  datatype LBool = LBool(value: Short)

  const LTrue: LBool := LBool(0)
  const LFalse: LBool := LBool(1)
  const LUndef: LBool := LBool(2)

  /** `value & 2` is nonzero. */
  predicate Bit1(v: int)
  {
    v % 4 >= 2
  }

  /** `explicit lbool(bool x) : value(!x)`. */
  function FromBool(x: bool): (l: LBool)
    ensures Eq(l, if x then LTrue else LFalse)
  {
    LBool(if x then 0 else 1)
  }

  /** `lbool::operator==`: two codes with bit 1 set are equal; otherwise the codes
      must be identical. */
  predicate Eq(a: LBool, b: LBool)
  {
    (Bit1(b.value) && Bit1(a.value)) || (!Bit1(b.value) && a.value == b.value)
  }

  /** `lbool::operator^`: `value ^ (short)b`. */
  function Xor(a: LBool, b: bool): (r: LBool)
    ensures Bit1(r.value) == Bit1(a.value)
    ensures b ==> r.value % 2 != a.value % 2
    ensures !b ==> r == a
  {
    if !b then a
    else if a.value % 2 == 0 then
      FlipLowBit(a.value, a.value + 1);
      LBool(a.value + 1)
    else
      FlipLowBit(a.value - 1, a.value);
      LBool(a.value - 1)
  }

  /** An even code and the next one differ in bit 0 only. */
  lemma FlipLowBit(even: int, odd: int)
    requires even % 2 == 0 && odd == even + 1
    ensures odd % 4 >= 2 <==> even % 4 >= 2
    ensures odd % 2 == 1 && even != 0x7FFF && odd != -0x8000
  {
    var q, r, h := even / 4, even % 4, even / 2;
    assert even == 4 * q + r && even == 2 * h;
    assert r == 2 * (h - 2 * q);
    assert odd == 4 * q + (r + 1) && odd == 2 * h + 1;
  }

  /** The table index `(this->value << 1) | (b.value << 3)`. Shifting the
      32-bit table is only defined for indices below 32, i.e. codes 0..3. */
  function Selector(a: LBool, b: LBool): (sel: bv32)
    requires 0 <= a.value < 4 && 0 <= b.value < 4
    ensures sel < 32
  {
    ((a.value as bv32) << 1) | ((b.value as bv32) << 3)
  }

  const AND_TABLE: bv32 := 0xF7F755F4
  const OR_TABLE: bv32 := 0xFCFCF400

  /** `lbool::operator&&`: `(0xF7F755F4 >> sel) & 3`. */
  function And(a: LBool, b: LBool): (r: LBool)
    requires 0 <= a.value < 4 && 0 <= b.value < 4
    ensures 0 <= r.value < 4
  {
    LBool(((AND_TABLE >> Selector(a, b)) & 3) as int)
  }

  /** `lbool::operator||`: `(0xFCFCF400 >> sel) & 3`. */
  function Or(a: LBool, b: LBool): (r: LBool)
    requires 0 <= a.value < 4 && 0 <= b.value < 4
    ensures 0 <= r.value < 4
  {
    LBool(((OR_TABLE >> Selector(a, b)) & 3) as int)
  }

  function ToInt(l: LBool): int
  {
    l.value
  }

  /** `toLbool(int v)`: `lbool((short)v)`. */
  function ToLBool(v: int): (l: LBool)
    ensures (l.value - v) % 0x1_0000 == 0
  {
    LBool(ToShort(v))
  }

  // Reference semantics: Kleene's strong three-valued logic.

  datatype Tri = True | False | Unknown

  /** The meaning of a code under `==`: 0 is true, 1 is false, any code with
      bit 1 set is undefined. */
  function Meaning(l: LBool): Tri
  {
    if Bit1(l.value) then Unknown else if l.value % 2 == 0 then True else False
  }

  function KleeneAnd(x: Tri, y: Tri): Tri
  {
    if x == False || y == False then False
    else if x == True && y == True then True
    else Unknown
  }

  function KleeneOr(x: Tri, y: Tri): Tri
  {
    if x == True || y == True then True
    else if x == False && y == False then False
    else Unknown
  }

  /** Equality on codes 0..3 is equality of meanings; in particular 2 and 3 are equal. */
  lemma EqIsSameMeaning(a: LBool, b: LBool)
    requires 0 <= a.value < 4 && 0 <= b.value < 4
    ensures Eq(a, b) <==> Meaning(a) == Meaning(b)
  {
  }

  /** On all shorts, `==` is an equivalence relation. */
  lemma EqIsEquivalence(a: LBool, b: LBool, c: LBool)
    ensures Eq(a, a)
    ensures Eq(a, b) ==> Eq(b, a)
    ensures Eq(a, b) && Eq(b, c) ==> Eq(a, c)
  {
  }

  /** Codes with bit 1 clear compare exactly: on shorts, code 5 differs from code 1
      although both are odd, while 6 equals 2. */
  lemma EqExamples()
    ensures !Eq(LBool(5), LFalse) && Eq(LBool(6), LUndef) && Eq(LBool(3), LUndef)
  {
  }

  lemma AndIsKleene(a: LBool, b: LBool)
    requires 0 <= a.value < 4 && 0 <= b.value < 4
    ensures Meaning(And(a, b)) == KleeneAnd(Meaning(a), Meaning(b))
  {
  }

  lemma OrIsKleene(a: LBool, b: LBool)
    requires 0 <= a.value < 4 && 0 <= b.value < 4
    ensures Meaning(Or(a, b)) == KleeneOr(Meaning(a), Meaning(b))
  {
  }

  /** `lbool(true)` is l_True, `lbool(false)` is l_False, and `^ true` swaps them. */
  lemma FromBoolConstants()
    ensures FromBool(true) == LTrue && FromBool(false) == LFalse
    ensures Xor(LTrue, true) == LFalse && Xor(LFalse, true) == LTrue
    ensures Eq(Xor(LUndef, true), LUndef)
  {
  }

  lemma IntRoundTrip(v: int, l: LBool)
    ensures -0x8000 <= v < 0x8000 ==> ToInt(ToLBool(v)) == v
    ensures ToLBool(ToInt(l)) == l
  {
  }
}
