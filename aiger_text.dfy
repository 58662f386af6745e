// What the AIGER reader makes of text that an AIGER writer prints: decimal
// numbers, latch lines with and without a reset value, binary and gates,
// symbol lines and the comment section.

module AigerText {
  import opened Literals
  import opened Wrappers
  import opened Aiger

  const SPACE: Byte := 32

  /** `n` in decimal, most significant digit first. */
  function DecimalText(n: nat): (t: seq<Byte>)
    ensures |t| >= 1 && forall k :: 0 <= k < |t| ==> IsDigit(t[k])
  {
    if n < 10 then [CHAR_0 + n] else DecimalText(n / 10) + [CHAR_0 + n % 10]
  }

  /** `buf` holds the text `t` at position `at`. */
  predicate TextAt(buf: seq<Byte>, at: nat, t: seq<Byte>)
  {
    at + |t| <= |buf| && buf[at..at + |t|] == t
  }

  lemma TextAtSplit(buf: seq<Byte>, at: nat, s: seq<Byte>, t: seq<Byte>)
    requires TextAt(buf, at, s + t)
    ensures TextAt(buf, at, s) && TextAt(buf, at + |s|, t)
  {
    assert buf[at..at + |s|] == (s + t)[..|s|];
    assert buf[at + |s|..at + |s| + |t|] == (s + t)[|s|..];
  }

  lemma {:induction false} DecimalOfText(buf: seq<Byte>, at: nat, n: nat)
    requires TextAt(buf, at, DecimalText(n))
    ensures Decimal(buf, at, at + |DecimalText(n)|) == n
    decreases n
  {
    if n >= 10 {
      TextAtSplit(buf, at, DecimalText(n / 10), [CHAR_0 + n % 10]);
      DecimalOfText(buf, at, n / 10);
    }
  }

  lemma {:induction false} ReadDigitsRun(buf: seq<Byte>, start: nat, p: nat, end: nat)
    requires start <= p <= end < |buf|
    requires forall t :: start <= t < end ==> IsDigit(buf[t])
    requires !IsDigit(buf[end])
    ensures ReadDigits(buf, p, ToInt32(Decimal(buf, start, p))) == Parsed(ToInt32(Decimal(buf, start, end)), end)
    decreases end - p
  {
    if p < end {
      WrapStep(Decimal(buf, start, p), DigitValue(buf[p]));
      ReadDigitsRun(buf, start, p + 1, end);
    }
  }

  /**
   * read_literal on a number printed in decimal after bytes it skips (no
   * digit and no newline) returns that number as an `int`: the number
   * itself below 2^31, wrapped to 32 bits above; the cursor stops on the
   * byte after the digits.
   */
  lemma {:induction false} ReadPrintedLiteral(buf: seq<Byte>, pos: nat, start: nat, n: nat)
    requires pos <= start && Skippable(buf, pos, start)
    requires TextAt(buf, start, DecimalText(n))
    requires start + |DecimalText(n)| < |buf| && !IsDigit(buf[start + |DecimalText(n)|])
    ensures ReadLiteralSpec(buf, pos) == Parsed(ToInt32(n), start + |DecimalText(n)|)
    ensures n < TWO_31 ==> ReadLiteralSpec(buf, pos).value == n
    decreases start - pos
  {
    if pos < start {
      ReadPrintedLiteral(buf, pos + 1, start, n);
    } else {
      var d := DecimalText(n);
      forall t | start <= t < start + |d|
        ensures IsDigit(buf[t])
      {
        assert buf[t] == buf[start..start + |d|][t - start];
      }
      ReadDigitsRun(buf, start, start, start + |d|);
      DecimalOfText(buf, start, n);
    }
  }

  lemma ThreeLiterals(buf: seq<Byte>, pos: nat, v1: int, v2: int, v3: int, p1: nat, p2: nat, p3: nat)
    requires ReadLiteralSpec(buf, pos) == Parsed(v1, p1)
    requires ReadLiteralSpec(buf, p1) == Parsed(v2, p2)
    requires ReadLiteralSpec(buf, p2) == Parsed(v3, p3)
    ensures ReadLiterals(buf, pos, 3) == Parsed([v1, v2, v3], p3)
  {
    ReadLiteralsStep(buf, p2, 1);
    assert [v3] + [] == [v3];
    ReadLiteralsStep(buf, p1, 2);
    assert [v2] + [v3] == [v2, v3];
    ReadLiteralsStep(buf, pos, 3);
    assert [v1] + [v2, v3] == [v1, v2, v3];
  }

  /** The latch line an ASCII writer prints: current and next-state literal, then the reset value if there is one. */
  function LatchText(l: nat, n: nat, reset: Option<nat>): seq<Byte>
  {
    DecimalText(l) + [SPACE] + DecimalText(n) + (if reset.Some? then [SPACE] + DecimalText(reset.value) else [])
  }

  /** read_literal on a separator byte followed by a printed number. */
  lemma ReadSeparatedLiteral(buf: seq<Byte>, pos: nat, n: nat)
    requires pos < |buf| && buf[pos] == SPACE
    requires TextAt(buf, pos + 1, DecimalText(n))
    requires pos + 1 + |DecimalText(n)| < |buf| && !IsDigit(buf[pos + 1 + |DecimalText(n)|])
    ensures ReadLiteralSpec(buf, pos) == Parsed(ToInt32(n), pos + 1 + |DecimalText(n)|)
  {
    ReadPrintedLiteral(buf, pos, pos + 1, n);
  }

  lemma Regroup(x: seq<Byte>, y: seq<Byte>, z: seq<Byte>)
    ensures x + y + z == x + (y + z)
  {
  }

  /** The positions of two fields x and y separated by a space, followed by tail. */
  lemma SpacedLayout(buf: seq<Byte>, a: nat, x: seq<Byte>, y: seq<Byte>, tail: seq<Byte>)
    requires TextAt(buf, a, x + [SPACE] + y + tail)
    ensures var b := a + |x|;
      TextAt(buf, a, x) && b < |buf| && buf[b] == SPACE && TextAt(buf, b + 1, y) && TextAt(buf, b + 1 + |y|, tail)
  {
    var b := a + |x|;
    TextAtSplit(buf, a, x + [SPACE] + y, tail);
    TextAtSplit(buf, a, x + [SPACE], y);
    TextAtSplit(buf, a, x, [SPACE]);
    assert buf[b] == buf[b..b + 1][0];
  }

  /** The end of a latch line with a reset value: a space, the value and
      the newline. */
  lemma ResetTail(buf: seq<Byte>, e: nat, d: nat)
    requires TextAt(buf, e, [SPACE] + DecimalText(d) + [NL])
    ensures e < |buf| && buf[e] == SPACE && TextAt(buf, e + 1, DecimalText(d))
    ensures e + 1 + |DecimalText(d)| < |buf| && buf[e + 1 + |DecimalText(d)|] == NL
  {
    var dd := DecimalText(d);
    TextAtSplit(buf, e, [SPACE] + dd, [NL]);
    TextAtSplit(buf, e, [SPACE], dd);
    assert buf[e] == buf[e..e + 1][0];
    assert buf[e + 1 + |dd|] == buf[e + 1 + |dd|..e + 2 + |dd|][0];
  }

  /** The three reads of a printed latch line, each wrapped to 32 bits; a
      missing reset value reads as -1. */
  lemma LatchLineReads(buf: seq<Byte>, a: nat, l: nat, n: nat, reset: Option<nat>)
    requires TextAt(buf, a, LatchText(l, n, reset) + [NL])
    ensures ReadLiterals(buf, a, 3)
         == Parsed([ToInt32(l), ToInt32(n), if reset.Some? then ToInt32(reset.value) else -1],
                   a + |LatchText(l, n, reset)|)
  {
    var dl, dn := DecimalText(l), DecimalText(n);
    var b := a + |dl|;
    var e := b + 1 + |dn|;
    var tail := (if reset.Some? then [SPACE] + DecimalText(reset.value) else []) + [NL];
    Regroup(dl + [SPACE] + dn, if reset.Some? then [SPACE] + DecimalText(reset.value) else [], [NL]);
    SpacedLayout(buf, a, dl, dn, tail);
    if reset.Some? {
      ResetTail(buf, e, reset.value);
      ResetReads(buf, a, l, n, reset.value);
    } else {
      assert buf[e] == buf[e..e + 1][0];
      NoResetReads(buf, a, l, n);
    }
  }

  lemma NoResetReads(buf: seq<Byte>, a: nat, l: nat, n: nat)
    requires var b := a + |DecimalText(l)|; var e := b + 1 + |DecimalText(n)|;
      TextAt(buf, a, DecimalText(l)) && b < |buf| && buf[b] == SPACE && TextAt(buf, b + 1, DecimalText(n)) &&
      e < |buf| && buf[e] == NL
    ensures ReadLiterals(buf, a, 3) == Parsed([ToInt32(l), ToInt32(n), -1], a + |DecimalText(l)| + 1 + |DecimalText(n)|)
  {
    var b := a + |DecimalText(l)|;
    var e := b + 1 + |DecimalText(n)|;
    ReadPrintedLiteral(buf, a, a, l);
    ReadSeparatedLiteral(buf, b, n);
    ThreeLiterals(buf, a, ToInt32(l), ToInt32(n), -1, b, e, e);
  }

  lemma ResetReads(buf: seq<Byte>, a: nat, l: nat, n: nat, d: nat)
    requires var b := a + |DecimalText(l)|; var e := b + 1 + |DecimalText(n)|; var f := e + 1 + |DecimalText(d)|;
      TextAt(buf, a, DecimalText(l)) && b < |buf| && buf[b] == SPACE && TextAt(buf, b + 1, DecimalText(n)) &&
      e < |buf| && buf[e] == SPACE && TextAt(buf, e + 1, DecimalText(d)) && f < |buf| && buf[f] == NL
    ensures ReadLiterals(buf, a, 3)
         == Parsed([ToInt32(l), ToInt32(n), ToInt32(d)], a + |DecimalText(l)| + 1 + |DecimalText(n)| + 1 + |DecimalText(d)|)
  {
    var b := a + |DecimalText(l)|;
    var e := b + 1 + |DecimalText(n)|;
    ReadPrintedLiteral(buf, a, a, l);
    ReadSeparatedLiteral(buf, b, n);
    ReadSeparatedLiteral(buf, e, d);
    ThreeLiterals(buf, a, ToInt32(l), ToInt32(n), ToInt32(d), b, e, e + 1 + |DecimalText(d)|);
  }

  /**
   * An ASCII latch line reads back as the latch it prints: the literals
   * modulo 2^32, and the reset `max(d, 0)` of the reset d read as an `int`,
   * which is d itself below 2^31 and 0 when d wraps negative; a line
   * without a reset value gives a latch that resets to 0. The line starts
   * after the newline at `pos`, where the previous read stopped.
   */
  lemma AsciiLatchRoundTrip(buf: seq<Byte>, pos: nat, numInputs: UInt32, i: nat, l: nat, n: nat, reset: Option<nat>)
    requires pos < |buf| && buf[pos] == NL
    requires TextAt(buf, pos + 1, LatchText(l, n, reset) + [NL])
    ensures LatchLine(buf, pos, false, numInputs, i)
         == Parsed(AigerLatch(ToUInt32(l), ToUInt32(n), if reset.Some? then Max0(ToInt32(reset.value)) else 0),
                   pos + 1 + |LatchText(l, n, reset)|)
    ensures reset.Some? && reset.value < TWO_31 ==> LatchLine(buf, pos, false, numInputs, i).value.defaultVal == reset.value
  {
    LatchLineReads(buf, pos + 1, l, n, reset);
    UInt32OfInt32(l);
    UInt32OfInt32(n);
  }

  /**
   * A reset printed as 3000000000, the AIGER literal of a variable above
   * 2^31, wraps to a negative `int` in read_literal and `max(d, 0)` turns it
   * into 0: the latch is read as resetting to false.
   */
  lemma WrappedResetReadsZero(buf: seq<Byte>, pos: nat, numInputs: UInt32, i: nat, l: nat, n: nat)
    requires pos < |buf| && buf[pos] == NL
    requires TextAt(buf, pos + 1, LatchText(l, n, Some(3000000000)) + [NL])
    ensures LatchLine(buf, pos, false, numInputs, i).Parsed?
    ensures LatchLine(buf, pos, false, numInputs, i).value.defaultVal == 0
  {
    AsciiLatchRoundTrip(buf, pos, numInputs, i, l, n, Some(3000000000));
  }

  /** A byte string followed by `stop`, and free of it, is read back whole, with the cursor on the `stop`. */
  lemma {:induction false} BytesUntilText(buf: seq<Byte>, at: nat, k: nat, t: seq<Byte>, stop: Byte)
    requires k <= |t| && TextAt(buf, at, t) && at + |t| < |buf| && buf[at + |t|] == stop && stop !in t
    ensures BytesUntil(buf, at + k, stop, t[..k]) == Parsed(t, at + |t|)
    decreases |t| - k
  {
    if k < |t| {
      assert buf[at + k] == buf[at..at + |t|][k] == t[k];
      assert t[..k] + [t[k]] == t[..k + 1];
      BytesUntilText(buf, at, k + 1, t, stop);
    } else {
      assert t[..k] == t;
    }
  }

  /** The symbol line a writer prints: kind (i, l or o), index, one space, name. */
  function SymbolText(kind: Byte, v: nat, name: seq<Byte>): seq<Byte>
  {
    [kind] + DecimalText(v) + [SPACE] + name
  }

  /** The positions of the fields of a symbol line at `pos`: kind, the digits d, one space, name, newline. */
  lemma SymbolFields(buf: seq<Byte>, pos: nat, kind: Byte, d: seq<Byte>, name: seq<Byte>)
    requires TextAt(buf, pos, [kind] + d + [SPACE] + (name + [NL]))
    ensures var s := pos + 1 + |d|;
      buf[pos] == kind && TextAt(buf, pos + 1, d) && s < |buf| && buf[s] == SPACE &&
      TextAt(buf, s + 1, name) && s + 1 + |name| < |buf| && buf[s + 1 + |name|] == NL
  {
    var s := pos + 1 + |d|;
    TextAtSplit(buf, pos, [kind] + d + [SPACE], name + [NL]);
    TextAtSplit(buf, pos, [kind] + d, [SPACE]);
    TextAtSplit(buf, pos, [kind], d);
    TextAtSplit(buf, s + 1, name, [NL]);
    assert buf[pos] == buf[pos..pos + 1][0];
    assert buf[s] == buf[s..s + 1][0];
    assert buf[s + 1 + |name|] == buf[s + 1 + |name|..s + 2 + |name|][0];
  }

  /** Reading a printed symbol line binds its index to its name and goes on with the next line. */
  lemma SymbolLineStep(buf: seq<Byte>, pos: nat, syms: map<UInt32, seq<Byte>>, kind: Byte, v: nat, name: seq<Byte>)
    requires IsSymbolKind(kind) && NL !in name
    requires TextAt(buf, pos, SymbolText(kind, v, name) + [NL])
    ensures SymbolLines(buf, pos, syms)
         == SymbolLines(buf, pos + |DecimalText(v)| + |name| + 3, syms[ToUInt32(v) := name])
  {
    var d := DecimalText(v);
    Regroup([kind] + d + [SPACE], name, [NL]);
    SymbolFields(buf, pos, kind, d, name);
    var s := pos + 1 + |d|;
    ReadPrintedLiteral(buf, pos, pos + 1, v);
    BytesUntilText(buf, s + 1, 0, name, NL);
    assert name[..0] == [];
    SymbolLineUnfold(buf, pos, syms, ToInt32(v), s, name, s + 1 + |name|);
    UInt32OfInt32(v);
  }

  lemma SymbolLineUnfold(buf: seq<Byte>, pos: nat, syms: map<UInt32, seq<Byte>>, v: int, s: nat,
                         name: seq<Byte>, q: nat)
    requires pos < |buf| && IsSymbolKind(buf[pos])
    requires ReadLiteralSpec(buf, pos) == Parsed(v, s)
    requires BytesUntil(buf, s + 1, NL, []) == Parsed(name, q)
    ensures SymbolLines(buf, pos, syms) == SymbolLines(buf, q + 1, syms[ToUInt32(v) := name])
  {
  }

  /** Two symbol lines for the same index, one after the other (the second
      starting at next): the later name is the one kept. */
  lemma SymbolOverwrite(buf: seq<Byte>, pos: nat, syms: map<UInt32, seq<Byte>>, kind1: Byte, kind2: Byte, v: nat,
                        name1: seq<Byte>, name2: seq<Byte>, next: nat)
    requires IsSymbolKind(kind1) && IsSymbolKind(kind2) && NL !in name1 && NL !in name2
    requires next == pos + |DecimalText(v)| + |name1| + 3
    requires TextAt(buf, pos, SymbolText(kind1, v, name1) + [NL])
    requires TextAt(buf, next, SymbolText(kind2, v, name2) + [NL])
    ensures SymbolLines(buf, pos, syms) == SymbolLines(buf, next + |DecimalText(v)| + |name2| + 3, syms[ToUInt32(v) := name2])
  {
    SymbolLineStep(buf, pos, syms, kind1, v, name1);
    LaterLineReplaces(buf, next, syms, kind2, v, name1, name2);
  }

  /** A symbol line for an index already named replaces that name. */
  lemma LaterLineReplaces(buf: seq<Byte>, pos: nat, syms: map<UInt32, seq<Byte>>, kind: Byte, v: nat,
                          name1: seq<Byte>, name2: seq<Byte>)
    requires IsSymbolKind(kind) && NL !in name2
    requires TextAt(buf, pos, SymbolText(kind, v, name2) + [NL])
    ensures SymbolLines(buf, pos, syms[ToUInt32(v) := name1])
         == SymbolLines(buf, pos + |DecimalText(v)| + |name2| + 3, syms[ToUInt32(v) := name2])
  {
    SymbolLineStep(buf, pos, syms[ToUInt32(v) := name1], kind, v, name2);
    assert syms[ToUInt32(v) := name1][ToUInt32(v) := name2] == syms[ToUInt32(v) := name2];
  }

  /** The comment section: after the newline that ends the "c" line, the text up to the terminating NUL. */
  lemma CommentRoundTrip(buf: seq<Byte>, pos: nat, text: seq<Byte>)
    requires NUL !in text
    requires TextAt(buf, pos, [NL] + text + [NUL])
    ensures CommentSection(buf, pos, true) == Ok(text)
  {
    TextAtSplit(buf, pos, [NL] + text, [NUL]);
    TextAtSplit(buf, pos, [NL], text);
    assert buf[pos] == buf[pos..pos + 1][0];
    assert buf[pos + 1 + |text|] == buf[pos + 1 + |text|..pos + 2 + |text|][0];
    BytesUntilText(buf, pos + 1, 0, text, NUL);
    assert text[..0] == [];
  }

  /**
   * A binary and gate reads back as the gate a writer encodes: gate number
   * `i` has the implicit output o = 2(I + L + i + 1), and inputs with
   * o >= i1 >= i2 are written as the deltas o - i1 and i1 - i2.
   */
  lemma BinaryGateRoundTrip(prefix: seq<Byte>, rest: seq<Byte>, numInputs: UInt32, numLatches: UInt32, i: nat,
                            i1: UInt32, i2: UInt32)
    requires i2 <= i1 <= ToUInt32(2 * (numInputs + numLatches + i + 1))
    ensures var o := ToUInt32(2 * (numInputs + numLatches + i + 1));
      var e := EncodeBytes(o - i1) + EncodeBytes(i1 - i2);
      BinaryAndGate(prefix + e + rest, |prefix|, numInputs, numLatches, i) == Parsed(AigerAnd(o, i1, i2), |prefix| + |e|)
  {
    var o := ToUInt32(2 * (numInputs + numLatches + i + 1));
    var e1, e2 := EncodeBytes(o - i1), EncodeBytes(i1 - i2);
    var buf := prefix + (e1 + e2) + rest;
    assert buf == prefix + e1 + (e2 + rest);
    DecodeEncode(prefix, o - i1, e2 + rest);
    assert DecodeSpec(buf, |prefix|) == Parsed(o - i1, |prefix| + |e1|);
    assert buf == (prefix + e1) + e2 + rest;
    DecodeEncode(prefix + e1, i1 - i2, rest);
    assert DecodeSpec(buf, |prefix| + |e1|) == Parsed(i1 - i2, |prefix| + |e1| + |e2|);
    assert ToUInt32(o - (o - i1)) == i1 && ToUInt32(i1 - (i1 - i2)) == i2;
  }
}
