/**
 * The AIGER loader: the "aag" (ASCII) and "aig" (binary) formats of an
 * and-inverter graph, read from an in-memory image of the file.
 *
 * The loader works on the file's bytes followed by one NUL byte, moving a
 * cursor forward. Every read at the cursor is either a value and the new
 * cursor (`Parsed`) or a read past the end of the buffer (`Overrun`), which
 * in the source is a read of memory outside the buffer.
 *
 * Each operation of the loader is a method with the source's loops, proved
 * equal to a specification function on the byte sequence; the properties of
 * the format are lemmas and postconditions about those functions.
 */
module Aiger {
  import opened Literals
  import opened Wrappers

  /** One byte of the file image. */
  type Byte = x: int | 0 <= x < 256

  const NUL: Byte := 0
  const NL: Byte := 10
  const CHAR_0: Byte := 48
  const CHAR_A: Byte := 97
  const CHAR_C: Byte := 99
  const CHAR_G: Byte := 103
  const CHAR_I: Byte := 105
  const CHAR_L: Byte := 108
  const CHAR_O: Byte := 111

  predicate IsDigit(c: Byte)
  {
    48 <= c <= 57
  }

  /** An and gate `o = i1 & i2` (literals in AIGER numbering). */
  datatype AigerAnd = AigerAnd(o: UInt32, i1: UInt32, i2: UInt32)

  /** A latch with its current literal, next-state literal and reset value. */
  datatype AigerLatch = AigerLatch(l: UInt32, next: UInt32, defaultVal: UInt32)

  /** The loaded circuit: the header counts and the sections of the file. */
  datatype Aiger = Aiger(
    maxVar: UInt32,
    numInputs: UInt32,
    numOutputs: UInt32,
    numLatches: UInt32,
    numAnds: UInt32,
    numBads: UInt32,
    numConstraints: UInt32,
    numJustice: UInt32,
    numFairness: UInt32,
    inputs: seq<UInt32>,
    outputs: seq<UInt32>,
    bads: seq<UInt32>,
    constraints: seq<UInt32>,
    latches: seq<AigerLatch>,
    ands: seq<AigerAnd>,
    symbols: map<UInt32, seq<Byte>>,
    comments: seq<Byte>)

  /** The ways loading can fail: a failed assertion of the loader, or a read past the buffer. */
  datatype LoadError = BadMagic | CountMismatch | ReadPastEnd | BadCommentSection

  /** A value read at a cursor and the cursor after it, or a read past the end. */
  datatype Parsed<T> = Parsed(value: T, next: nat) | Overrun

  /** Puts `vs` in front of the values of a parsed sequence. */
  function Prepend<T>(vs: seq<T>, r: Parsed<seq<T>>): Parsed<seq<T>>
  {
    match r
    case Overrun => Overrun
    case Parsed(ws, q) => Parsed(vs + ws, q)
  }

  // ---------------------------------------------------------------------------
  // read_literal
  // ---------------------------------------------------------------------------

  /** Neither a digit nor a newline lies in `buf[from..to]`. */
  ghost predicate Skippable(buf: seq<Byte>, from: nat, to: nat)
  {
    forall t :: from <= t < to && t < |buf| ==> !IsDigit(buf[t]) && buf[t] != NL
  }

  /** Every byte of `buf[from..to]` is a digit, and there is at least one. */
  ghost predicate DigitRun(buf: seq<Byte>, from: nat, to: nat)
  {
    from < to <= |buf| && forall t :: from <= t < to ==> IsDigit(buf[t])
  }

  function DigitValue(c: Byte): nat
  {
    if IsDigit(c) then c - CHAR_0 else 0
  }

  /** The number written by the decimal digits `buf[from..to]`, most significant first. */
  function Decimal(buf: seq<Byte>, from: nat, to: nat): nat
    requires to <= |buf|
  {
    if to <= from then 0 else 10 * Decimal(buf, from, to - 1) + DigitValue(buf[to - 1])
  }

  /**
   * read_literal: skip bytes up to the first digit; meeting a newline first
   * gives -1 and leaves the cursor on that newline.
   */
  function ReadLiteralSpec(buf: seq<Byte>, pos: nat): (r: Parsed<int>)
    ensures r.Parsed? ==> pos <= r.next < |buf| && -TWO_31 <= r.value < TWO_31
    decreases |buf| - pos
  {
    if pos >= |buf| then Overrun
    else if IsDigit(buf[pos]) then ReadDigits(buf, pos, 0)
    else if buf[pos] == NL then Parsed(-1, pos)
    else ReadLiteralSpec(buf, pos + 1)
  }

  /**
   * The digit loop of read_literal. The accumulator `acc` is the source's
   * `int result`: every `result * 10 + digit` is taken modulo 2^32 in two's
   * complement, so a number of 2^31 or more comes back wrapped.
   */
  function ReadDigits(buf: seq<Byte>, pos: nat, acc: Int32): (r: Parsed<int>)
    ensures r.Parsed? ==> pos <= r.next < |buf| && -TWO_31 <= r.value < TWO_31
    decreases |buf| - pos
  {
    if pos >= |buf| then Overrun
    else if IsDigit(buf[pos]) then ReadDigits(buf, pos + 1, ToInt32(10 * acc + DigitValue(buf[pos])))
    else Parsed(acc, pos)
  }

  /** Wrapping after every digit is wrapping once at the end. */
  lemma WrapStep(a: int, d: int)
    ensures ToInt32(10 * ToInt32(a) + d) == ToInt32(10 * a + d)
  {
    var w := ToInt32(a);
    var q := (w - a) / TWO_32;
    assert w == a + q * TWO_32;
    assert 10 * w + d == 10 * a + d + (10 * q) * TWO_32;
    ToInt32Congruent(10 * w + d, 10 * a + d, 10 * q);
  }

  lemma ToInt32Congruent(x: int, y: int, q: int)
    requires x == y + q * TWO_32
    ensures ToInt32(x) == ToInt32(y)
  {
    assert x % TWO_32 == y % TWO_32;
  }

  lemma {:induction false} ReadDigitsMeaning(buf: seq<Byte>, from: nat, pos: nat)
    requires from <= pos <= |buf|
    requires forall t :: from <= t < pos ==> IsDigit(buf[t])
    requires ReadDigits(buf, pos, ToInt32(Decimal(buf, from, pos))).Parsed?
    ensures var r := ReadDigits(buf, pos, ToInt32(Decimal(buf, from, pos)));
      !IsDigit(buf[r.next]) && (forall t :: from <= t < r.next ==> IsDigit(buf[t]))
      && r.value == ToInt32(Decimal(buf, from, r.next))
    decreases |buf| - pos
  {
    if IsDigit(buf[pos]) {
      WrapStep(Decimal(buf, from, pos), DigitValue(buf[pos]));
      ReadDigitsMeaning(buf, from, pos + 1);
    }
  }

  /**
   * What read_literal returns: -1 with the cursor on a newline that comes
   * before any digit, or else the first run of digits, read as an `int`
   * (its value wrapped to 32 bits), with the cursor on the non-digit after
   * it. A run whose value wraps to -1 (4294967295) reads like a missing
   * number.
   */
  lemma {:induction false} ReadLiteralMeaning(buf: seq<Byte>, pos: nat)
    requires ReadLiteralSpec(buf, pos).Parsed?
    ensures var r := ReadLiteralSpec(buf, pos);
      (r.value == -1 && buf[r.next] == NL && Skippable(buf, pos, r.next)) ||
      (!IsDigit(buf[r.next]) &&
        exists j :: pos <= j < r.next && Skippable(buf, pos, j) && DigitRun(buf, j, r.next)
                 && r.value == ToInt32(Decimal(buf, j, r.next)))
    decreases |buf| - pos
  {
    if IsDigit(buf[pos]) {
      ReadDigitsMeaning(buf, pos, pos);
      var r := ReadLiteralSpec(buf, pos);
      assert Skippable(buf, pos, pos) && DigitRun(buf, pos, r.next);
    } else if buf[pos] != NL {
      ReadLiteralMeaning(buf, pos + 1);
      var r := ReadLiteralSpec(buf, pos);
      if !(r.value == -1 && buf[r.next] == NL && Skippable(buf, pos + 1, r.next)) {
        var j :| pos + 1 <= j < r.next && Skippable(buf, pos + 1, j) && DigitRun(buf, j, r.next)
                 && r.value == ToInt32(Decimal(buf, j, r.next));
        assert Skippable(buf, pos, j);
      }
    }
  }

  method ReadLiteral(buf: seq<Byte>, pos: nat) returns (r: Parsed<int>)
    ensures r == ReadLiteralSpec(buf, pos)
  {
    var p := pos;
    while p < |buf| && !IsDigit(buf[p])
      invariant pos <= p
      invariant ReadLiteralSpec(buf, p) == ReadLiteralSpec(buf, pos)
      decreases |buf| - p
    {
      if buf[p] == NL {
        return Parsed(-1, p);
      }
      p := p + 1;
    }
    if p >= |buf| {
      return Overrun;
    }
    var result: Int32 := 0;
    while p < |buf| && IsDigit(buf[p])
      invariant pos <= p
      invariant ReadDigits(buf, p, result) == ReadLiteralSpec(buf, pos)
      decreases |buf| - p
    {
      result := ToInt32(result * 10 + (buf[p] - CHAR_0));
      p := p + 1;
    }
    if p >= |buf| {
      return Overrun;
    }
    return Parsed(result, p);
  }

  // ---------------------------------------------------------------------------
  // decode / encode: the variable-length unsigned numbers of the binary format
  // ---------------------------------------------------------------------------

  /** The number held by the 7-bit groups from `pos` on, least significant first, up to a byte below 0x80. */
  function DecodeRaw(buf: seq<Byte>, pos: nat): (r: Parsed<nat>)
    ensures r.Parsed? ==> pos < r.next <= |buf|
    decreases |buf| - pos
  {
    if pos >= |buf| then Overrun
    else if buf[pos] < 0x80 then Parsed(buf[pos], pos + 1)
    else
      match DecodeRaw(buf, pos + 1)
      case Overrun => Overrun
      case Parsed(v, n) => Parsed(buf[pos] - 0x80 + 0x80 * v, n)
  }

  /** decode: the number read, kept to its low 32 bits as an `unsigned`. */
  function DecodeSpec(buf: seq<Byte>, pos: nat): (r: Parsed<UInt32>)
  {
    match DecodeRaw(buf, pos)
    case Overrun => Overrun
    case Parsed(v, n) => Parsed(v % TWO_32, n)
  }

  function Shift(x: nat, w: nat, r: Parsed<nat>): Parsed<nat>
  {
    match r
    case Overrun => Overrun
    case Parsed(v, n) => Parsed(x + w * v, n)
  }

  lemma ShiftGroup(x: nat, w: nat, a: nat, r: Parsed<nat>)
    ensures Shift(x, w, Shift(a, 0x80, r)) == Shift(x + a * w, w * 0x80, r)
  {
    if r.Parsed? {
      var v := r.value;
      calc {
        x + w * (a + 0x80 * v);
        x + w * a + w * (0x80 * v);
        { assert w * (0x80 * v) == (w * 0x80) * v; }
        x + a * w + (w * 0x80) * v;
      }
    }
  }

  method Decode(buf: seq<Byte>, pos: nat) returns (r: Parsed<UInt32>)
    ensures r == DecodeSpec(buf, pos)
  {
    var x: nat := 0;
    var w: nat := 1;
    var p := pos;
    while p < |buf| && buf[p] >= 0x80
      invariant pos <= p
      invariant DecodeRaw(buf, pos) == Shift(x, w, DecodeRaw(buf, p))
      decreases |buf| - p
    {
      ShiftGroup(x, w, buf[p] - 0x80, DecodeRaw(buf, p + 1));
      x := x + (buf[p] - 0x80) * w;
      w := w * 0x80;
      p := p + 1;
    }
    if p >= |buf| {
      return Overrun;
    }
    x := x + buf[p] * w;
    return Parsed(x % TWO_32, p + 1);
  }

  /** encode: the 7-bit groups of `x`, least significant first, each but the last with bit 7 set. */
  function EncodeBytes(x: nat): seq<Byte>
    decreases x
  {
    if x < 0x80 then [x] else [x % 0x80 + 0x80] + EncodeBytes(x / 0x80)
  }

  method Encode(str: seq<Byte>, x: UInt32) returns (s: seq<Byte>)
    ensures s == str + EncodeBytes(x)
  {
    s := str;
    var y: nat := x;
    while y >= 0x80
      invariant s + EncodeBytes(y) == str + EncodeBytes(x)
      decreases y
    {
      s := s + [y % 0x80 + 0x80];
      y := y / 0x80;
    }
    s := s + [y];
  }

  /** The shape of an encoding: continuation bytes, then one final byte, at most five for an `unsigned`, no padding. */
  lemma {:induction false} EncodeShape(x: nat)
    ensures var e := EncodeBytes(x);
      |e| >= 1 && e[|e| - 1] < 0x80 &&
      (forall i :: 0 <= i < |e| - 1 ==> e[i] >= 0x80) &&
      (x > 0 ==> e[|e| - 1] > 0)
    decreases x
  {
    if x >= 0x80 {
      EncodeShape(x / 0x80);
      var e := EncodeBytes(x);
      assert e[1..] == EncodeBytes(x / 0x80);
    }
  }

  /** A number below 128^k takes at most k bytes. */
  lemma {:induction false} EncodeLength(x: nat, k: nat)
    requires k >= 1 && x < Pow128(k)
    ensures |EncodeBytes(x)| <= k
    decreases k
  {
    if x >= 0x80 {
      assert k >= 2;
      assert x / 0x80 < Pow128(k - 1);
      EncodeLength(x / 0x80, k - 1);
    }
  }

  /** An `unsigned` (below 2^32 < 128^5) takes at most five bytes. */
  lemma EncodeAtMostFive(x: UInt32)
    ensures |EncodeBytes(x)| <= 5
  {
    assert Pow128(5) == 0x8_0000_0000;
    EncodeLength(x, 5);
  }

  function Pow128(k: nat): (r: nat)
    ensures r >= 1
  {
    if k == 0 then 1 else 0x80 * Pow128(k - 1)
  }

  lemma {:induction false} DecodeRawEncode(buf: seq<Byte>, pos: nat, x: nat)
    requires pos + |EncodeBytes(x)| <= |buf|
    requires buf[pos..pos + |EncodeBytes(x)|] == EncodeBytes(x)
    ensures DecodeRaw(buf, pos) == Parsed(x, pos + |EncodeBytes(x)|)
    decreases x
  {
    var e := EncodeBytes(x);
    assert buf[pos] == e[0];
    if x >= 0x80 {
      var e' := EncodeBytes(x / 0x80);
      assert buf[pos + 1..pos + 1 + |e'|] == buf[pos..pos + |e|][1..];
      DecodeRawEncode(buf, pos + 1, x / 0x80);
    }
  }

  /** decode reads back what encode wrote, and stops right after it. */
  lemma DecodeEncode(prefix: seq<Byte>, x: UInt32, rest: seq<Byte>)
    ensures DecodeSpec(prefix + EncodeBytes(x) + rest, |prefix|)
         == Parsed(x, |prefix| + |EncodeBytes(x)|)
  {
    var buf := prefix + EncodeBytes(x) + rest;
    assert buf[|prefix|..|prefix| + |EncodeBytes(x)|] == EncodeBytes(x);
    DecodeRawEncode(buf, |prefix|, x);
  }

  // ---------------------------------------------------------------------------
  // The header line "aag M I L O A [B C J F]" / "aig ..."
  // ---------------------------------------------------------------------------

  datatype Header = Header(
    binary: bool,
    maxVar: UInt32,
    numInputs: UInt32,
    numLatches: UInt32,
    numOutputs: UInt32,
    numAnds: UInt32,
    numBads: UInt32,
    numConstraints: UInt32,
    numJustice: UInt32,
    numFairness: UInt32)

  /** `n` consecutive read_literal calls. */
  function ReadLiterals(buf: seq<Byte>, pos: nat, n: nat): (r: Parsed<seq<int>>)
    ensures r.Parsed? ==> |r.value| == n && pos <= r.next && (n > 0 ==> r.next < |buf|)
    decreases n
  {
    if n == 0 then Parsed([], pos)
    else
      match ReadLiteralSpec(buf, pos)
      case Overrun => Overrun
      case Parsed(v, p) => Prepend([v], ReadLiterals(buf, p, n - 1))
  }

  /** The header fields from the nine values read: the first five as read, the last four at least 0. */
  function HeaderOf(binary: bool, vs: seq<int>): Header
    requires |vs| == 9
  {
    Header(binary,
           ToUInt32(vs[0]), ToUInt32(vs[1]), ToUInt32(vs[2]), ToUInt32(vs[3]), ToUInt32(vs[4]),
           ToUInt32(Max0(vs[5])), ToUInt32(Max0(vs[6])), ToUInt32(Max0(vs[7])), ToUInt32(Max0(vs[8])))
  }

  /** The header's consistency condition: M equals I + L + A, computed in `unsigned` arithmetic. */
  predicate MaxVarAdds(maxVar: UInt32, numInputs: UInt32, numLatches: UInt32, numAnds: UInt32)
  {
    maxVar == (numInputs + numLatches + numAnds) % TWO_32
  }

  /**
   * The header: "a", then "i" (binary) or "a" (ASCII), then "g", then nine
   * literals; the last four may be absent, and an absent or negative one is
   * 0. The maximum variable index must equal I + L + A in `unsigned`
   * arithmetic.
   */
  function ParseHeader(buf: seq<Byte>): (r: Result<(Header, nat), LoadError>)
    ensures r.Ok? ==> var h := r.value.0;
      MaxVarAdds(h.maxVar, h.numInputs, h.numLatches, h.numAnds) &&
      3 <= |buf| && buf[0] == CHAR_A && buf[2] == CHAR_G && (h.binary <==> buf[1] == CHAR_I) &&
      2 <= r.value.1 < |buf|
  {
    if |buf| == 0 then Err(ReadPastEnd)
    else if buf[0] != CHAR_A then Err(BadMagic)
    else if |buf| == 1 then Err(ReadPastEnd)
    else if buf[1] != CHAR_I && buf[1] != CHAR_A then Err(BadMagic)
    else if |buf| == 2 then Err(ReadPastEnd)
    else if buf[2] != CHAR_G then Err(BadMagic)
    else
      match ReadLiterals(buf, 2, 5)
      case Overrun => Err(ReadPastEnd)
      case Parsed(counts, p) =>
        match ReadLiterals(buf, p, 4)
        case Overrun => Err(ReadPastEnd)
        case Parsed(optional, q) =>
          var h := HeaderOf(buf[1] == CHAR_I, counts + optional);
          if !MaxVarAdds(h.maxVar, h.numInputs, h.numLatches, h.numAnds) then Err(CountMismatch)
          else Ok((h, q))
  }

  lemma ReadLiteralsStep(buf: seq<Byte>, pos: nat, n: nat)
    requires n > 0
    ensures ReadLiterals(buf, pos, n) == match ReadLiteralSpec(buf, pos)
      case Overrun => Overrun
      case Parsed(v, p) => Prepend([v], ReadLiterals(buf, p, n - 1))
  {
  }

  method LoadHeader(buf: seq<Byte>) returns (r: Result<(Header, nat), LoadError>)
    ensures r == ParseHeader(buf)
  {
    if |buf| == 0 { return Err(ReadPastEnd); }
    if buf[0] != CHAR_A { return Err(BadMagic); }
    if |buf| == 1 { return Err(ReadPastEnd); }
    var binary := false;
    if buf[1] == CHAR_I {
      binary := true;
    } else if buf[1] != CHAR_A {
      return Err(BadMagic);
    }
    if |buf| == 2 { return Err(ReadPastEnd); }
    if buf[2] != CHAR_G { return Err(BadMagic); }
    var counts := ReadCounts(buf);
    if counts.Overrun? { return Err(ReadPastEnd); }
    var optional := ReadOptionalCounts(buf, counts.next);
    if optional.Overrun? { return Err(ReadPastEnd); }
    var h := HeaderOf(binary, counts.value + optional.value);
    if !MaxVarAdds(h.maxVar, h.numInputs, h.numLatches, h.numAnds) {
      return Err(CountMismatch);
    }
    return Ok((h, optional.next));
  }

  /** The five mandatory counts M, I, L, O and A, read after the "g" of the header. */
  method ReadCounts(buf: seq<Byte>) returns (r: Parsed<seq<int>>)
    ensures r == ReadLiterals(buf, 2, 5)
  {
    var m := ReadLiteral(buf, 2);
    if m.Overrun? { return Overrun; }
    var i := ReadLiteral(buf, m.next);
    if i.Overrun? { return Overrun; }
    var l := ReadLiteral(buf, i.next);
    if l.Overrun? { return Overrun; }
    var o := ReadLiteral(buf, l.next);
    if o.Overrun? { return Overrun; }
    var a := ReadLiteral(buf, o.next);
    if a.Overrun? { return Overrun; }
    // The five reads, last to first, as ReadLiterals sees them.
    var vs := [a.value];
    ReadLiteralsStep(buf, o.next, 1);
    assert [a.value] + [] == vs;
    vs := [o.value] + vs;
    ReadLiteralsStep(buf, l.next, 2);
    vs := [l.value] + vs;
    ReadLiteralsStep(buf, i.next, 3);
    vs := [i.value] + vs;
    ReadLiteralsStep(buf, m.next, 4);
    vs := [m.value] + vs;
    ReadLiteralsStep(buf, 2, 5);
    return Parsed(vs, a.next);
  }

  /** The four optional counts B, C, J and F. */
  method ReadOptionalCounts(buf: seq<Byte>, pos: nat) returns (r: Parsed<seq<int>>)
    ensures r == ReadLiterals(buf, pos, 4)
  {
    var b := ReadLiteral(buf, pos);
    if b.Overrun? { return Overrun; }
    var c := ReadLiteral(buf, b.next);
    if c.Overrun? { return Overrun; }
    var j := ReadLiteral(buf, c.next);
    if j.Overrun? { return Overrun; }
    var f := ReadLiteral(buf, j.next);
    if f.Overrun? { return Overrun; }
    var vs := [f.value];
    ReadLiteralsStep(buf, j.next, 1);
    assert [f.value] + [] == vs;
    vs := [j.value] + vs;
    ReadLiteralsStep(buf, c.next, 2);
    vs := [c.value] + vs;
    ReadLiteralsStep(buf, b.next, 3);
    vs := [b.value] + vs;
    ReadLiteralsStep(buf, pos, 4);
    return Parsed(vs, f.next);
  }

  // ---------------------------------------------------------------------------
  // The sections after the header. Each list of lines is read by a loop; its
  // specification follows the loop, with `acc` the entries already read.
  // ---------------------------------------------------------------------------

  /**
   * One input, output, bad or constraint line: a read_literal that runs to
   * the end of the previous line, a skip of one byte, and the literal.
   */
  function LiteralLine(buf: seq<Byte>, pos: nat): (r: Parsed<UInt32>)
    ensures r.Parsed? ==> pos < r.next < |buf|
  {
    match ReadLiteralSpec(buf, pos)
    case Overrun => Overrun
    case Parsed(_, p) =>
      match ReadLiteralSpec(buf, p + 1)
      case Overrun => Overrun
      case Parsed(v, q) => Parsed(ToUInt32(v), q)
  }

  /** `n` more literal lines after the ones in `acc`. */
  function LiteralLines(buf: seq<Byte>, pos: nat, n: nat, acc: seq<UInt32>): (r: Parsed<seq<UInt32>>)
    ensures r.Parsed? ==> |r.value| == |acc| + n && r.value[..|acc|] == acc && pos <= r.next
    decreases n
  {
    if n == 0 then Parsed(acc, pos)
    else
      match LiteralLine(buf, pos)
      case Overrun => Overrun
      case Parsed(v, q) => LiteralLines(buf, q, n - 1, acc + [v])
  }

  method ReadLiteralLine(buf: seq<Byte>, pos: nat) returns (r: Parsed<UInt32>)
    ensures r == LiteralLine(buf, pos)
  {
    var skip := ReadLiteral(buf, pos);
    if skip.Overrun? { return Overrun; }
    var v := ReadLiteral(buf, skip.next + 1);
    if v.Overrun? { return Overrun; }
    return Parsed(ToUInt32(v.value), v.next);
  }

  method ReadLiteralLines(buf: seq<Byte>, pos: nat, n: UInt32) returns (r: Parsed<seq<UInt32>>)
    ensures r == LiteralLines(buf, pos, n, [])
  {
    var lits: seq<UInt32> := [];
    var p := pos;
    var i := 0;
    while i < n
      invariant 0 <= i <= n
      invariant LiteralLines(buf, p, n - i, lits) == LiteralLines(buf, pos, n, [])
    {
      var lit := ReadLiteralLine(buf, p);
      if lit.Overrun? { return Overrun; }
      lits := lits + [lit.value];
      p := lit.next;
      i := i + 1;
    }
    return Parsed(lits, p);
  }

  /** The inputs of a binary file are not listed: input i (from 0) is literal 2(i + 1). */
  method BinaryInputs(n: UInt32) returns (inputs: seq<UInt32>)
    ensures |inputs| == n
    ensures forall k :: 0 <= k < n ==> inputs[k] == ToUInt32(2 * (k + 1))
  {
    inputs := [];
    var i := 1;
    while i <= n
      invariant 1 <= i <= n + 1
      invariant |inputs| == i - 1
      invariant forall k :: 0 <= k < i - 1 ==> inputs[k] == ToUInt32(2 * (k + 1))
    {
      inputs := inputs + [ToUInt32(2 * i)];
      i := i + 1;
    }
  }

  /**
   * One latch line, latch number `i` (from 0): the current literal (implicit
   * in a binary file: 2(I + 1 + i) in `unsigned` arithmetic), the next-state
   * literal and the reset value.
   */
  function LatchLine(buf: seq<Byte>, pos: nat, binary: bool, numInputs: UInt32, i: nat): (r: Parsed<AigerLatch>)
    ensures r.Parsed? ==> pos < r.next < |buf|
    ensures r.Parsed? && binary ==> r.value.l == ToUInt32(2 * (numInputs + 1 + i))
  {
    match ReadLiteralSpec(buf, pos)
    case Overrun => Overrun
    case Parsed(_, p) =>
      if binary then
        match ReadLiterals(buf, p + 1, 2)
        case Overrun => Overrun
        case Parsed(vs, q) => Parsed(Latch(2 * (numInputs + 1 + i), vs[0], vs[1]), q)
      else
        match ReadLiterals(buf, p + 1, 3)
        case Overrun => Overrun
        case Parsed(vs, q) => Parsed(Latch(vs[0], vs[1], vs[2]), q)
  }

  /** The latch made from the values read, a negative reset value (absent: -1) becoming 0. */
  function Latch(l: int, n: int, d: int): AigerLatch
  {
    AigerLatch(ToUInt32(l), ToUInt32(n), ToUInt32(Max0(d)))
  }

  /** `n` more latch lines after the ones in `acc`; the next latch is number |acc|. */
  function LatchLines(buf: seq<Byte>, pos: nat, binary: bool, numInputs: UInt32, n: nat, acc: seq<AigerLatch>)
    : (r: Parsed<seq<AigerLatch>>)
    ensures r.Parsed? ==> |r.value| == |acc| + n && r.value[..|acc|] == acc && pos <= r.next
    decreases n
  {
    if n == 0 then Parsed(acc, pos)
    else
      match LatchLine(buf, pos, binary, numInputs, |acc|)
      case Overrun => Overrun
      case Parsed(v, q) => LatchLines(buf, q, binary, numInputs, n - 1, acc + [v])
  }

  /** In a binary file, latch k is literal 2(I + 1 + k). */
  lemma {:induction false} LatchNumbering(buf: seq<Byte>, pos: nat, numInputs: UInt32, n: nat, acc: seq<AigerLatch>)
    requires LatchesNumbered(acc, numInputs)
    ensures var r := LatchLines(buf, pos, true, numInputs, n, acc);
      r.Parsed? ==> LatchesNumbered(r.value, numInputs)
    decreases n
  {
    if n > 0 {
      var first := LatchLine(buf, pos, true, numInputs, |acc|);
      if first.Parsed? {
        LatchNumbering(buf, first.next, numInputs, n - 1, acc + [first.value]);
      }
    }
  }

  method ReadLatchLine(buf: seq<Byte>, pos: nat, binary: bool, numInputs: UInt32, i: nat)
    returns (r: Parsed<AigerLatch>)
    ensures r == LatchLine(buf, pos, binary, numInputs, i)
  {
    var skip := ReadLiteral(buf, pos);
    if skip.Overrun? { return Overrun; }
    var start := skip.next + 1;
    var l: int;
    var q: nat;
    if binary {
      l := 2 * (numInputs + 1 + i);
      q := start;
    } else {
      var lr := ReadLiteral(buf, start);
      if lr.Overrun? {
        ReadLiteralsStep(buf, start, 3);
        return Overrun;
      }
      l := lr.value;
      q := lr.next;
    }
    var n := ReadLiteral(buf, q);
    if n.Overrun? {
      ReadLiteralsStep(buf, q, 2);
      ReadLiteralsStep(buf, start, 3);
      return Overrun;
    }
    var d := ReadLiteral(buf, n.next);
    ReadLiteralsStep(buf, n.next, 1);
    ReadLiteralsStep(buf, q, 2);
    ReadLiteralsStep(buf, start, 3);
    if d.Overrun? {
      return Overrun;
    }
    assert [d.value] + [] == [d.value];
    assert [n.value] + [d.value] == [n.value, d.value];
    assert [l] + [n.value, d.value] == [l, n.value, d.value];
    return Parsed(Latch(l, n.value, d.value), d.next);
  }

  method ReadLatchLines(buf: seq<Byte>, pos: nat, binary: bool, numInputs: UInt32, n: UInt32)
    returns (r: Parsed<seq<AigerLatch>>)
    ensures r == LatchLines(buf, pos, binary, numInputs, n, [])
  {
    var latches: seq<AigerLatch> := [];
    var p := pos;
    var i := 0;
    while i < n
      invariant 0 <= i <= n && i == |latches|
      invariant LatchLines(buf, p, binary, numInputs, n - i, latches) == LatchLines(buf, pos, binary, numInputs, n, [])
    {
      var latch := ReadLatchLine(buf, p, binary, numInputs, i);
      if latch.Overrun? { return Overrun; }
      latches := latches + [latch.value];
      p := latch.next;
      i := i + 1;
    }
    return Parsed(latches, p);
  }

  /** One and-gate line of an ASCII file: the end of the previous line, a skip, then o, i1 and i2. */
  function AsciiAndLine(buf: seq<Byte>, pos: nat): (r: Parsed<AigerAnd>)
    ensures r.Parsed? ==> pos < r.next < |buf|
  {
    match ReadLiteralSpec(buf, pos)
    case Overrun => Overrun
    case Parsed(_, p) =>
      match ReadLiterals(buf, p + 1, 3)
      case Overrun => Overrun
      case Parsed(vs, q) => Parsed(AigerAnd(ToUInt32(vs[0]), ToUInt32(vs[1]), ToUInt32(vs[2])), q)
  }

  /** `n` more and-gate lines after the ones in `acc`. */
  function AsciiAndLines(buf: seq<Byte>, pos: nat, n: nat, acc: seq<AigerAnd>): (r: Parsed<seq<AigerAnd>>)
    ensures r.Parsed? ==> |r.value| == |acc| + n && r.value[..|acc|] == acc && pos <= r.next
    decreases n
  {
    if n == 0 then Parsed(acc, pos)
    else
      match AsciiAndLine(buf, pos)
      case Overrun => Overrun
      case Parsed(g, q) => AsciiAndLines(buf, q, n - 1, acc + [g])
  }

  method ReadAsciiAndLine(buf: seq<Byte>, pos: nat) returns (r: Parsed<AigerAnd>)
    ensures r == AsciiAndLine(buf, pos)
  {
    var skip := ReadLiteral(buf, pos);
    if skip.Overrun? { return Overrun; }
    var start := skip.next + 1;
    ReadLiteralsStep(buf, start, 3);
    var o := ReadLiteral(buf, start);
    if o.Overrun? { return Overrun; }
    ReadLiteralsStep(buf, o.next, 2);
    var i1 := ReadLiteral(buf, o.next);
    if i1.Overrun? { return Overrun; }
    ReadLiteralsStep(buf, i1.next, 1);
    var i2 := ReadLiteral(buf, i1.next);
    if i2.Overrun? { return Overrun; }
    assert [i2.value] + [] == [i2.value];
    assert [i1.value] + [i2.value] == [i1.value, i2.value];
    assert [o.value] + [i1.value, i2.value] == [o.value, i1.value, i2.value];
    return Parsed(AigerAnd(ToUInt32(o.value), ToUInt32(i1.value), ToUInt32(i2.value)), i2.next);
  }

  method ReadAsciiAndLines(buf: seq<Byte>, pos: nat, n: UInt32) returns (r: Parsed<seq<AigerAnd>>)
    ensures r == AsciiAndLines(buf, pos, n, [])
  {
    var ands: seq<AigerAnd> := [];
    var p := pos;
    var i := 0;
    while i < n
      invariant 0 <= i <= n
      invariant AsciiAndLines(buf, p, n - i, ands) == AsciiAndLines(buf, pos, n, [])
    {
      var g := ReadAsciiAndLine(buf, p);
      if g.Overrun? { return Overrun; }
      ands := ands + [g.value];
      p := g.next;
      i := i + 1;
    }
    return Parsed(ands, p);
  }

  /**
   * And gate number `i` (from 0) of a binary file: its output is the literal
   * 2(I + L + i + 1) in `unsigned` arithmetic, and two encoded deltas give
   * i1 = o - d1 and i2 = i1 - d2, modulo 2^32.
   */
  function BinaryAndGate(buf: seq<Byte>, pos: nat, numInputs: UInt32, numLatches: UInt32, i: nat)
    : (r: Parsed<AigerAnd>)
    ensures r.Parsed? ==> pos < r.next <= |buf|
    ensures r.Parsed? ==> r.value.o == ToUInt32(2 * (numInputs + numLatches + i + 1))
  {
    var o := ToUInt32(2 * (numInputs + numLatches + i + 1));
    match DecodeSpec(buf, pos)
    case Overrun => Overrun
    case Parsed(d1, p) =>
      var i1 := ToUInt32(o - d1);
      match DecodeSpec(buf, p)
      case Overrun => Overrun
      case Parsed(d2, q) => Parsed(AigerAnd(o, i1, ToUInt32(i1 - d2)), q)
  }

  /** `n` more binary gates after the ones in `acc`; the next gate is number |acc|. */
  function BinaryAndGates(buf: seq<Byte>, pos: nat, numInputs: UInt32, numLatches: UInt32, n: nat, acc: seq<AigerAnd>)
    : (r: Parsed<seq<AigerAnd>>)
    ensures r.Parsed? ==> |r.value| == |acc| + n && r.value[..|acc|] == acc && pos <= r.next
    decreases n
  {
    if n == 0 then Parsed(acc, pos)
    else
      match BinaryAndGate(buf, pos, numInputs, numLatches, |acc|)
      case Overrun => Overrun
      case Parsed(g, q) => BinaryAndGates(buf, q, numInputs, numLatches, n - 1, acc + [g])
  }

  /** The binary and section: the end of the last line of text, a skip, then the encoded gates. */
  function BinaryAnds(buf: seq<Byte>, pos: nat, numInputs: UInt32, numLatches: UInt32, n: nat)
    : (r: Parsed<seq<AigerAnd>>)
    ensures r.Parsed? ==> |r.value| == n && pos <= r.next
    ensures r.Parsed? ==> GatesNumbered(r.value, numInputs, numLatches)
  {
    match ReadLiteralSpec(buf, pos)
    case Overrun => Overrun
    case Parsed(_, p) =>
      GateNumbering(buf, p + 1, numInputs, numLatches, n, []);
      BinaryAndGates(buf, p + 1, numInputs, numLatches, n, [])
  }

  /** In a binary file, gate k has output literal 2(I + L + k + 1). */
  lemma {:induction false} GateNumbering(buf: seq<Byte>, pos: nat, numInputs: UInt32, numLatches: UInt32, n: nat,
                                         acc: seq<AigerAnd>)
    requires GatesNumbered(acc, numInputs, numLatches)
    ensures var r := BinaryAndGates(buf, pos, numInputs, numLatches, n, acc);
      r.Parsed? ==> GatesNumbered(r.value, numInputs, numLatches)
    decreases n
  {
    if n > 0 {
      var first := BinaryAndGate(buf, pos, numInputs, numLatches, |acc|);
      if first.Parsed? {
        GateNumbering(buf, first.next, numInputs, numLatches, n - 1, acc + [first.value]);
      }
    }
  }

  method ReadBinaryAndGate(buf: seq<Byte>, pos: nat, numInputs: UInt32, numLatches: UInt32, i: nat)
    returns (r: Parsed<AigerAnd>)
    ensures r == BinaryAndGate(buf, pos, numInputs, numLatches, i)
  {
    var o := ToUInt32(2 * (numInputs + numLatches + i + 1));
    var d1 := Decode(buf, pos);
    if d1.Overrun? { return Overrun; }
    var i1 := ToUInt32(o - d1.value);
    var d2 := Decode(buf, d1.next);
    if d2.Overrun? { return Overrun; }
    var i2 := ToUInt32(i1 - d2.value);
    return Parsed(AigerAnd(o, i1, i2), d2.next);
  }

  method ReadBinaryAnds(buf: seq<Byte>, pos: nat, numInputs: UInt32, numLatches: UInt32, n: UInt32)
    returns (r: Parsed<seq<AigerAnd>>)
    ensures r == BinaryAnds(buf, pos, numInputs, numLatches, n)
  {
    var skip := ReadLiteral(buf, pos);
    if skip.Overrun? { return Overrun; }
    var ands: seq<AigerAnd> := [];
    var p: nat := skip.next + 1;
    var i := 0;
    while i < n
      invariant 0 <= i <= n && i == |ands|
      invariant BinaryAndGates(buf, p, numInputs, numLatches, n - i, ands) == BinaryAnds(buf, pos, numInputs, numLatches, n)
    {
      var g := ReadBinaryAndGate(buf, p, numInputs, numLatches, i);
      if g.Overrun? { return Overrun; }
      ands := ands + [g.value];
      p := g.next;
      i := i + 1;
    }
    return Parsed(ands, p);
  }

  // ---------------------------------------------------------------------------
  // Symbols and comments
  // ---------------------------------------------------------------------------

  /** The symbol table: names keyed by index (inputs, latches and outputs share it), and whether a comment section follows. */
  datatype SymbolTable = SymbolTable(symbols: map<UInt32, seq<Byte>>, comments: bool)

  /** The bytes from `pos` up to the first `stop` byte, after those in `acc`; the cursor ends on the `stop` byte. */
  function BytesUntil(buf: seq<Byte>, pos: nat, stop: Byte, acc: seq<Byte>): (r: Parsed<seq<Byte>>)
    ensures r.Parsed? ==> pos <= r.next < |buf| && buf[r.next] == stop
    decreases |buf| - pos
  {
    if pos >= |buf| then Overrun
    else if buf[pos] == stop then Parsed(acc, pos)
    else BytesUntil(buf, pos + 1, stop, acc + [buf[pos]])
  }

  /** The name of a symbol: the bytes up to the end of its line. */
  method ReadSymbolName(buf: seq<Byte>, pos: nat) returns (r: Parsed<seq<Byte>>)
    ensures r == BytesUntil(buf, pos, NL, [])
  {
    var name: seq<Byte> := [];
    var p := pos;
    while p < |buf| && buf[p] != NL
      invariant pos <= p
      invariant BytesUntil(buf, p, NL, name) == BytesUntil(buf, pos, NL, [])
      decreases |buf| - p
    {
      name := name + [buf[p]];
      p := p + 1;
    }
    if p >= |buf| {
      return Overrun;
    }
    return Parsed(name, p);
  }

  predicate IsSymbolKind(c: Byte)
  {
    c == CHAR_I || c == CHAR_L || c == CHAR_O
  }

  /**
   * The symbol lines from the byte at `pos` on: a line starting with i, l or
   * o maps the index read on it to the rest of the line after one separator
   * byte (a later line for the same index replaces the name); "c" starts the
   * comments; any other byte ends the table.
   */
  function SymbolLines(buf: seq<Byte>, pos: nat, syms: map<UInt32, seq<Byte>>): (r: Parsed<SymbolTable>)
    ensures r.Parsed? ==> pos <= r.next <= |buf|
    decreases |buf| - pos
  {
    if pos >= |buf| then Overrun
    else if IsSymbolKind(buf[pos]) then
      match ReadLiteralSpec(buf, pos)
      case Overrun => Overrun
      case Parsed(v, p) =>
        match BytesUntil(buf, p + 1, NL, [])
        case Overrun => Overrun
        case Parsed(name, q) => SymbolLines(buf, q + 1, syms[ToUInt32(v) := name])
    else if buf[pos] == CHAR_C then Parsed(SymbolTable(syms, true), pos + 1)
    else Parsed(SymbolTable(syms, false), pos)
  }

  method ReadSymbolLines(buf: seq<Byte>, pos: nat) returns (r: Parsed<SymbolTable>)
    ensures r == SymbolLines(buf, pos, map[])
  {
    var symbols: map<UInt32, seq<Byte>> := map[];
    var p := pos;
    while true
      invariant pos <= p
      invariant SymbolLines(buf, p, symbols) == SymbolLines(buf, pos, map[])
      decreases |buf| - p
    {
      if p >= |buf| {
        return Overrun;
      }
      if IsSymbolKind(buf[p]) {
        var v := ReadLiteral(buf, p);
        if v.Overrun? { return Overrun; }
        var name := ReadSymbolName(buf, v.next + 1);
        if name.Overrun? { return Overrun; }
        symbols := symbols[ToUInt32(v.value) := name.value];
        p := name.next + 1;
      } else if buf[p] == CHAR_C {
        return Parsed(SymbolTable(symbols, true), p + 1);
      } else {
        return Parsed(SymbolTable(symbols, false), p);
      }
    }
  }

  /** The first newline at or after `pos`. */
  function NextNewline(buf: seq<Byte>, pos: nat): (r: Option<nat>)
    ensures r.Some? ==> pos <= r.value < |buf| && buf[r.value] == NL
    decreases |buf| - pos
  {
    if pos >= |buf| then None
    else if buf[pos] == NL then Some(pos)
    else NextNewline(buf, pos + 1)
  }

  /**
   * The symbol section after the and gates. An ASCII file first moves to the
   * end of the current line. The table is read only when the cursor is
   * before the last byte of the file (`len` bytes long).
   */
  function SymbolSection(buf: seq<Byte>, pos: nat, binary: bool, len: int): (r: Parsed<SymbolTable>)
  {
    match (if binary then Some(pos) else NextNewline(buf, pos))
    case None => Overrun
    case Some(p) =>
      if p < len - 1 then SymbolLines(buf, if binary then p else p + 1, map[])
      else Parsed(SymbolTable(map[], false), p)
  }

  method ReadSymbolSection(buf: seq<Byte>, pos: nat, binary: bool, len: int) returns (r: Parsed<SymbolTable>)
    ensures r == SymbolSection(buf, pos, binary, len)
  {
    var p := pos;
    if !binary {
      while p < |buf| && buf[p] != NL
        invariant pos <= p
        invariant NextNewline(buf, p) == NextNewline(buf, pos)
        decreases |buf| - p
      {
        p := p + 1;
      }
      if p >= |buf| {
        return Overrun;
      }
    }
    if p < len - 1 {
      // In a binary file the source steps back one byte and forward again.
      r := ReadSymbolLines(buf, if binary then p else p + 1);
    } else {
      r := Parsed(SymbolTable(map[], false), p);
    }
  }

  /** The comment section: a newline after the "c", then the rest of the text up to the NUL terminator. */
  function CommentSection(buf: seq<Byte>, pos: nat, comments: bool): Result<seq<Byte>, LoadError>
  {
    if !comments then Ok([])
    else if pos >= |buf| then Err(ReadPastEnd)
    else if buf[pos] != NL then Err(BadCommentSection)
    else
      match BytesUntil(buf, pos + 1, NUL, [])
      case Overrun => Err(ReadPastEnd)
      case Parsed(text, _) => Ok(text)
  }

  // ---------------------------------------------------------------------------
  // load_aiger_from_file
  // ---------------------------------------------------------------------------

  /** Every section holds as many entries as the header announces, and M equals I + L + A in `unsigned` arithmetic. */
  predicate ConsistentCounts(a: Aiger)
  {
    MaxVarAdds(a.maxVar, a.numInputs, a.numLatches, a.numAnds) &&
    |a.inputs| == a.numInputs && |a.latches| == a.numLatches && |a.outputs| == a.numOutputs &&
    |a.bads| == a.numBads && |a.constraints| == a.numConstraints && |a.ands| == a.numAnds
  }

  /** In a binary file input k is literal 2(k + 1), in `unsigned` arithmetic. */
  predicate InputsNumbered(inputs: seq<UInt32>)
  {
    forall k :: 0 <= k < |inputs| ==> inputs[k] == ToUInt32(2 * (k + 1))
  }

  /** In a binary file latch k is literal 2(I + 1 + k). */
  predicate LatchesNumbered(latches: seq<AigerLatch>, numInputs: UInt32)
  {
    forall k :: 0 <= k < |latches| ==> latches[k].l == ToUInt32(2 * (numInputs + 1 + k))
  }

  /** In a binary file gate k outputs literal 2(I + L + k + 1). */
  predicate GatesNumbered(ands: seq<AigerAnd>, numInputs: UInt32, numLatches: UInt32)
  {
    forall k :: 0 <= k < |ands| ==> ands[k].o == ToUInt32(2 * (numInputs + numLatches + k + 1))
  }

  /** The implicit numbering of a binary file. */
  predicate BinaryNumbered(a: Aiger)
  {
    InputsNumbered(a.inputs) && LatchesNumbered(a.latches, a.numInputs) &&
    GatesNumbered(a.ands, a.numInputs, a.numLatches)
  }

  /** The inputs: implicit in a binary file, one literal per line in an ASCII file. */
  function InputSection(buf: seq<Byte>, pos: nat, h: Header): (r: Parsed<seq<UInt32>>)
    ensures r.Parsed? ==> |r.value| == h.numInputs
    ensures r.Parsed? && h.binary ==> InputsNumbered(r.value)
  {
    if h.binary then Parsed(seq(h.numInputs, k => ToUInt32(2 * (k + 1))), pos)
    else LiteralLines(buf, pos, h.numInputs, [])
  }

  function LatchSection(buf: seq<Byte>, pos: nat, h: Header): (r: Parsed<seq<AigerLatch>>)
    ensures r.Parsed? ==> |r.value| == h.numLatches
    ensures r.Parsed? && h.binary ==> LatchesNumbered(r.value, h.numInputs)
  {
    if h.binary then
      LatchNumbering(buf, pos, h.numInputs, h.numLatches, []);
      LatchLines(buf, pos, true, h.numInputs, h.numLatches, [])
    else LatchLines(buf, pos, false, h.numInputs, h.numLatches, [])
  }

  /** The and gates: delta-encoded in a binary file, one gate per line in an ASCII file. */
  function AndSection(buf: seq<Byte>, pos: nat, h: Header): (r: Parsed<seq<AigerAnd>>)
    ensures r.Parsed? ==> |r.value| == h.numAnds
    ensures r.Parsed? && h.binary ==> GatesNumbered(r.value, h.numInputs, h.numLatches)
  {
    if h.binary then BinaryAnds(buf, pos, h.numInputs, h.numLatches, h.numAnds)
    else AsciiAndLines(buf, pos, h.numAnds, [])
  }

  /** The sections that describe the circuit, in file order. */
  datatype Body = Body(inputs: seq<UInt32>, latches: seq<AigerLatch>, outputs: seq<UInt32>, bads: seq<UInt32>,
                       constraints: seq<UInt32>, ands: seq<AigerAnd>)

  /** The sections hold as many entries as the header announces, numbered implicitly in a binary file. */
  predicate BodyFits(b: Body, h: Header)
  {
    |b.inputs| == h.numInputs && |b.latches| == h.numLatches && |b.outputs| == h.numOutputs &&
    |b.bads| == h.numBads && |b.constraints| == h.numConstraints && |b.ands| == h.numAnds &&
    (h.binary ==>
      InputsNumbered(b.inputs) && LatchesNumbered(b.latches, h.numInputs) &&
      GatesNumbered(b.ands, h.numInputs, h.numLatches))
  }

  function CircuitBody(buf: seq<Byte>, h: Header, p0: nat): (r: Parsed<Body>)
    ensures r.Parsed? ==> BodyFits(r.value, h)
  {
    match InputSection(buf, p0, h)
    case Overrun => Overrun
    case Parsed(inputs, p1) =>
    match LatchSection(buf, p1, h)
    case Overrun => Overrun
    case Parsed(latches, p2) =>
    match LiteralLines(buf, p2, h.numOutputs, [])
    case Overrun => Overrun
    case Parsed(outputs, p3) =>
    match LiteralLines(buf, p3, h.numBads, [])
    case Overrun => Overrun
    case Parsed(bads, p4) =>
    match LiteralLines(buf, p4, h.numConstraints, [])
    case Overrun => Overrun
    case Parsed(constraints, p5) =>
    match AndSection(buf, p5, h)
    case Overrun => Overrun
    case Parsed(ands, p6) => Parsed(Body(inputs, latches, outputs, bads, constraints, ands), p6)
  }

  /** The sections after the header, in file order. */
  function LoadSections(buf: seq<Byte>, len: int, h: Header, p0: nat): (r: Result<Aiger, LoadError>)
    requires MaxVarAdds(h.maxVar, h.numInputs, h.numLatches, h.numAnds)
    ensures r.Ok? ==> ConsistentCounts(r.value)
    ensures r.Ok? && h.binary ==> BinaryNumbered(r.value)
  {
    match CircuitBody(buf, h, p0)
    case Overrun => Err(ReadPastEnd)
    case Parsed(b, p6) =>
    match SymbolSection(buf, p6, h.binary, len)
    case Overrun => Err(ReadPastEnd)
    case Parsed(table, p7) =>
    match CommentSection(buf, p7, table.comments)
    case Err(e) => Err(e)
    case Ok(comments) =>
      Ok(Aiger(h.maxVar, h.numInputs, h.numOutputs, h.numLatches, h.numAnds,
               h.numBads, h.numConstraints, h.numJustice, h.numFairness,
               b.inputs, b.outputs, b.bads, b.constraints, b.latches, b.ands, table.symbols, comments))
  }

  /**
   * The loader on the bytes of a file. On success the header's M equals
   * I + L + A in `unsigned` arithmetic, and every section holds as many
   * entries as the header announces.
   */
  function LoadSpec(data: seq<Byte>): (r: Result<Aiger, LoadError>)
    ensures r.Ok? ==> ConsistentCounts(r.value)
  {
    var buf := data + [NUL];
    match ParseHeader(buf)
    case Err(e) => Err(e)
    case Ok(hp) => LoadSections(buf, |data|, hp.0, hp.1)
  }

  /** A binary file that loads follows the implicit numbering. */
  lemma LoadNumbering(data: seq<Byte>)
    requires 2 <= |data| && data[1] == CHAR_I && LoadSpec(data).Ok?
    ensures BinaryNumbered(LoadSpec(data).value)
  {
    var buf := data + [NUL];
    assert buf[1] == CHAR_I;
    assert ParseHeader(buf).value.0.binary;
  }

  method Load(data: seq<Byte>) returns (r: Result<Aiger, LoadError>)
    ensures r == LoadSpec(data)
  {
    var buf := data + [NUL];
    var header := LoadHeader(buf);
    if header.Err? {
      return Err(header.error);
    }
    var (h, p0) := header.value;
    r := LoadBody(buf, |data|, h, p0);
  }

  method LoadBody(buf: seq<Byte>, len: int, h: Header, p0: nat) returns (r: Result<Aiger, LoadError>)
    requires MaxVarAdds(h.maxVar, h.numInputs, h.numLatches, h.numAnds)
    ensures r == LoadSections(buf, len, h, p0)
  {
    var body := ReadCircuitBody(buf, h, p0);
    if body.Overrun? { return Err(ReadPastEnd); }
    var b := body.value;
    var table := ReadSymbolSection(buf, body.next, h.binary, len);
    if table.Overrun? { return Err(ReadPastEnd); }
    var comments := CommentSection(buf, table.next, table.value.comments);
    if comments.Err? { return Err(comments.error); }
    return Ok(Aiger(h.maxVar, h.numInputs, h.numOutputs, h.numLatches, h.numAnds,
                    h.numBads, h.numConstraints, h.numJustice, h.numFairness,
                    b.inputs, b.outputs, b.bads, b.constraints, b.latches, b.ands,
                    table.value.symbols, comments.value));
  }

  method ReadCircuitBody(buf: seq<Byte>, h: Header, p0: nat) returns (r: Parsed<Body>)
    ensures r == CircuitBody(buf, h, p0)
  {
    var inputs: Parsed<seq<UInt32>>;
    if h.binary {
      var lits := BinaryInputs(h.numInputs);
      assert lits == seq(h.numInputs, k => ToUInt32(2 * (k + 1)));
      inputs := Parsed(lits, p0);
    } else {
      inputs := ReadLiteralLines(buf, p0, h.numInputs);
    }
    assert inputs == InputSection(buf, p0, h);
    if inputs.Overrun? { return Overrun; }
    var latches := ReadLatchLines(buf, inputs.next, h.binary, h.numInputs, h.numLatches);
    assert latches == LatchSection(buf, inputs.next, h);
    if latches.Overrun? { return Overrun; }
    var outputs := ReadLiteralLines(buf, latches.next, h.numOutputs);
    if outputs.Overrun? { return Overrun; }
    var bads := ReadLiteralLines(buf, outputs.next, h.numBads);
    if bads.Overrun? { return Overrun; }
    var constraints := ReadLiteralLines(buf, bads.next, h.numConstraints);
    if constraints.Overrun? { return Overrun; }
    var ands: Parsed<seq<AigerAnd>>;
    if h.binary {
      ands := ReadBinaryAnds(buf, constraints.next, h.numInputs, h.numLatches, h.numAnds);
    } else {
      ands := ReadAsciiAndLines(buf, constraints.next, h.numAnds);
    }
    assert ands == AndSection(buf, constraints.next, h);
    if ands.Overrun? { return Overrun; }
    return Parsed(Body(inputs.value, latches.value, outputs.value, bads.value, constraints.value, ands.value), ands.next);
  }
}
