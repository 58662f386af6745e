# A verified model of an IC3/PDR and BMC model checker

This project models the core of a hardware model checker for safety properties of
and-inverter graphs (AIGER circuits). The checker has two engines:

- IC3/PDR (property-directed reachability) keeps a sequence of frames of blocked cubes.
  It blocks proof obligations with an incremental SAT solver per frame, generalizes
  cubes with `mic` and CTG handling, and pushes cubes forward. It stops with a
  counterexample, or with an empty frame, which is an inductive invariant.
- BMC (bounded model checking) unrolls the circuit frame by frame into one growing
  circuit. It simplifies with local rewriting (`Aig_And`) and structural hashing, and asks
  one incremental solver whether the newest frame's bad output can be true.

The model follows the source file by file:

- Code that is a pure computation becomes datatypes, functions and lemmas.
- Objects that update their members become classes whose methods carry `modifies`
  clauses.
- Each loop becomes a `while` loop, proved against a specification function.
- The SAT solvers are foreign code, so every answer they give is an uninterpreted
  oracle of what they were handed.

## Modules

| file | module | source | what it holds |
|---|---|---|---|
| wrappers.dfy | Wrappers | — | Option and Result |
| literals.dfy | Literals | basic.hpp | integer widths, AIGER and DIMACS literals and their conversions, Minisat literals, `lbool` |
| aiger.dfy | Aiger | aig.cpp | the AIGER reader: ASCII and binary formats, the variable-length `decode`/`encode`, header, sections, symbols and comments, each loop a method proved equal to a function on the bytes |
| aiger_text.dfy | AigerText | aig.cpp | what the reader makes of the text an AIGER writer prints |
| sat_solver.dfy | SatSolver | sat_solver.hpp | the CaDiCaL and Minisat wrappers: clause streams, `max_var`, the activation-literal protocol, literal conversion |
| pdr_types.dfy | PdrTypes | PDR.hpp | Lit_CMP, Cube_CMP and the obligation order as strict total orders, sorted sets as sorted sequences, `State`, `Variable` |
| circuit.dfy | Circuit | PDR.cpp, BMC.cpp | `translate_to_dimacs` as a function of the circuit, shared by both engines, and the backward cone-of-influence walk |
| pdr_spec.dfy | PdrSpec | PDR.cpp | the value-level part of PDR: primed-variable allocation, the clause streams of the encoders, cores, `std::includes`, the CTG join, the model read back and lifted |
| pdr.dfy | PdrEngine | PDR.hpp, PDR.cpp | the `PDR` class: translation, solvers, frames, `add_cube`, `is_inductive`, `propagate`, `mic`, `CTG_down`, `rec_block_cube`, the bounded checks, `check` and `incremental_check` |
| bmc_types.dfy | BmcTypes | BMC.hpp | `Node` and the `UnfoldAiger` class with `CleanupFrame` and the structural hash |
| bmc_translate.dfy | BmcTranslate | BMC.cpp | BMC's `translate_to_dimacs` and the reset literals of `initialize` |
| bmc_spec.dfy | BmcSpec | BMC.cpp | `Aig_And` and what it means, the semantics of an unrolling (k steps of the circuit), the cone walk of `solve_one_frame` |
| bmc_step.dfy | BmcStep | BMC.cpp | one call of `unfold` as functions on values, and the invariant it keeps |
| bmc.dfy | BmcEngine | BMC.hpp, BMC.cpp | the `BMC` class: `initialize`, `unfold`, `solve_one_frame`, `check` |

The statements that carry the weight are:

- `BmcEngine.OutputsMean`: under any run of the unrolled circuit, output b of frame k is
  bad b of the circuit after k steps from its reset state.
- `BmcEngine.Bmc.Check`: answers 1 exactly at the first frame whose answer is 10.
  Each answer is the solver's on clauses that hold the cone of that frame's last
  output (`BmcEngine.RanFrom`), and `BmcEngine.RanFromDetermined` shows that the
  answers and the final state depend only on the starting state and the solver.
- `PdrEngine.Pdr.RecBlock` and `PdrEngine.Pdr.Check`: a counterexample is a state
  reached at frame 0 whose chain of successors, at least depth() long, ends at the CTI.
  Safe comes only after both bounded checks passed, with a frame left empty.
- `PdrEngine.Pdr.Propagate`: it answers true exactly when a frame from its start to
  depth() is left empty. The new frames are subsumed by the old ones.
- `PdrSpec.TranslationWalkIsCone`: the encoders emit exactly the cone of influence.
- The AIGER `decode`/`encode` round trip and the AIGER/DIMACS literal round trips.

## Model

| member | source | states |
|---|---|---|
| Literals.AigerToDimacs | basic.hpp:84-90 | for a non-negative AIGER literal the DIMACS literal is non-zero, names variable lit/2 + 1 and is negative exactly when the low bit is set |
| Literals.DimacsToAiger | basic.hpp:92-99 | for a non-zero DIMACS literal the AIGER literal is non-negative, names variable abs(lit) - 1 and is odd exactly when the DIMACS literal is negative |
| Literals.DimacsRoundTrip | basic.hpp:84-99 | aiger_to_dimacs(dimacs_to_aiger(x)) == x for every non-zero x |
| Literals.AigerRoundTrip | basic.hpp:84-99 | dimacs_to_aiger(aiger_to_dimacs(a)) == a for every non-negative a |
| Literals.AigerNegation | basic.hpp:83-90 | constant false is DIMACS 1 and true is -1 (variable 1 is the constant); flipping an AIGER literal's low bit negates its DIMACS literal |
| Literals.NegativeAigerLiteralIsNotConverted | basic.hpp:84-90 | the conversion of -1 yields 0, the clause terminator |
| Literals.ToInt32 | basic.hpp:39 | the two's-complement reading of the low 32 bits: congruent to x modulo 2^32 and equal to x when x fits |
| Literals.ToUInt32 | aig.hpp:19 | the `unsigned` conversion: congruent to x modulo 2^32 and the identity on values that fit |
| Literals.UInt32OfInt32 | aig.cpp:136-141 | storing read_literal's wrapped `int` in an `unsigned` field gives the same number as storing the exact value modulo 2^32 |
| Literals.ToShort | basic.hpp:75 | the `short` cast: congruent modulo 2^16 and the identity on values that fit |
| Literals.FlipBit0 | basic.hpp:41 | `x ^ 1` keeps x / 2 and flips the low bit |
| Literals.MkLit | basic.hpp:39 | for a variable below 2^30 the packed value is 2 * var + sign |
| Literals.Negate | basic.hpp:41 | `~p` has the same variable and the opposite sign |
| Literals.XorSign | basic.hpp:42 | `p ^ b` has the same variable and its sign flipped exactly when b |
| Literals.MkLitFields | basic.hpp:39-44 | get_var and get_sign recover the arguments of mkLit, and mkLit(v, s) == mkLit(v, false) ^ s |
| Literals.NegateInvolution | basic.hpp:41-42 | `~~p == p`, `~p != p`, and `~p` is `p ^ true` |
| Literals.NegationAdjacent | basic.hpp:34 | no literal lies strictly between p and ~p under `<` |
| Literals.MkLitWraps | basic.hpp:39 | mkLit wraps for variable 2^31: the packed value is 0 and get_var no longer returns the variable |
| Literals.FromBool | basic.hpp:54 | `lbool(x)` equals l_True when x holds and l_False otherwise |
| Literals.Xor | basic.hpp:58 | `^ b` keeps the undefined bit, flips the low bit when b and is the identity otherwise |
| Literals.And | basic.hpp:60-63 | the table lookup yields a code in 0..3 (AndIsKleene gives its meaning) |
| Literals.Or | basic.hpp:65-68 | the table lookup yields a code in 0..3 (OrIsKleene gives its meaning) |
| Literals.Selector | basic.hpp:61 | the shift amount is below 32 for codes 0..3 |
| Literals.ToLBool | basic.hpp:75 | the code is congruent to v modulo 2^16 |
| Literals.EqIsSameMeaning | basic.hpp:56 | on codes 0..3, `==` holds exactly when the two codes mean the same truth value (2 and 3 are both undefined) |
| Literals.EqIsEquivalence | basic.hpp:56 | `==` is reflexive, symmetric and transitive on every short |
| Literals.EqExamples | basic.hpp:56 | code 5 differs from l_False while 6 and 3 equal l_Undef |
| Literals.AndIsKleene | basic.hpp:60-63 | `&&` on lbool is Kleene's three-valued conjunction |
| Literals.OrIsKleene | basic.hpp:65-68 | `\|\|` on lbool is Kleene's three-valued disjunction |
| Literals.FromBoolConstants | basic.hpp:54-79 | lbool(true) is l_True, lbool(false) is l_False, `^ true` swaps them and keeps l_Undef undefined |
| Literals.IntRoundTrip | basic.hpp:74-75 | toInt(toLbool(v)) == v for every v that fits a short, and toLbool(toInt(l)) == l |
| Literals.FlipLowBit | basic.hpp:58 | an even code and the next odd one agree on the undefined bit |
| Aiger.ReadLiteralSpec | aig.cpp:42-57 | a parsed literal is a 32-bit `int` and the cursor stays inside the buffer |
| Aiger.ReadDigitsMeaning | aig.cpp:50-55 | the digit loop stops on a non-digit, and its `int` accumulator holds the decimal value of the digits consumed, wrapped to 32 bits |
| Aiger.ReadLiteralMeaning | aig.cpp:42-57 | -1 means a newline was reached over non-digits only; otherwise the value is the decimal number of the first digit run wrapped to 32 bits, and the cursor is on the non-digit after it |
| Aiger.ReadLiteral | aig.cpp:42-57 | the loop computes exactly ReadLiteralSpec |
| Aiger.ReadDigits | aig.cpp:50-55 | the digit loop stops inside the buffer at the first non-digit with a 32-bit value, or reports a read past the end |
| Aiger.WrapStep | aig.cpp:51-52 | one step of the `int` accumulator from the wrapped value wraps to the same value as from the exact one: wrapping at every digit is wrapping once at the end |
| Aiger.ToInt32Congruent | aig.cpp:52 | numbers that differ by a multiple of 2^32 wrap to the same `int` |
| Aiger.ReadLiterals | aig.cpp:106-114 | n literals read in a row give n values |
| Aiger.ReadLiteralsStep | aig.cpp:106-114 | reading n literals is one literal followed by n - 1 more |
| Aiger.DecodeRaw | aig.cpp:60-67 | decoding consumes at least one byte and stays inside the buffer |
| Aiger.ShiftGroup | aig.cpp:63-66 | the 7-bit groups accumulate as a base-128 number |
| Aiger.Decode | aig.cpp:60-67 | the shifting loop computes the specification value, reduced to 32 bits |
| Aiger.Encode | aig.cpp:69-79 | the loop appends exactly the base-128 bytes of x to str |
| Aiger.EncodeShape | aig.cpp:72-78 | every byte but the last has bit 7 set, the last has it clear and is non-zero unless x is zero |
| Aiger.EncodeLength | aig.cpp:72-76 | a number below 128^k takes at most k bytes |
| Aiger.EncodeAtMostFive | aig.cpp:69-79 | an unsigned value takes at most five bytes |
| Aiger.Pow128 | aig.cpp:64 | the group weights are positive |
| Aiger.DecodeRawEncode | aig.cpp:60-79 | decoding the bytes of encode(x) gives x back and stops just after them |
| Aiger.DecodeEncode | aig.cpp:60-79 | decode(encode(x)) == x for every unsigned x, whatever precedes or follows the bytes |
| Aiger.ParseHeader | aig.cpp:95-117 | an accepted header starts "aag" or "aig" (binary exactly for "aig") and satisfies M == I + L + A in unsigned arithmetic |
| Aiger.LoadHeader | aig.cpp:95-117 | the header reader computes ParseHeader, including the rejection of a bad magic or a wrong M |
| Aiger.ReadCounts | aig.cpp:106-110 | the five mandatory counts are the five literals after the magic |
| Aiger.ReadOptionalCounts | aig.cpp:111-114 | the four optional counts are the next four literals |
| Aiger.LiteralLines | aig.cpp:124-159 | n literal lines give n values appended to those read before |
| Aiger.LiteralLine | aig.cpp:125-126 | one literal line moves the cursor forward inside the buffer |
| Aiger.ReadLiteralLine | aig.cpp:125-126 | skip the rest of the previous line, then read the literal |
| Aiger.ReadLiteralLines | aig.cpp:124-159 | the loop computes LiteralLines |
| Aiger.BinaryInputs | aig.cpp:120-122 | a binary file's inputs are 2, 4, ..., 2 * I |
| Aiger.LatchLine | aig.cpp:131-141 | in a binary file latch i is literal 2 * (I + 1 + i) |
| Aiger.LatchLines | aig.cpp:130-144 | n latch lines give n latches appended to those read before |
| Aiger.LatchNumbering | aig.cpp:133-134 | all latches of a binary file are numbered after the inputs, in order |
| Aiger.ReadLatchLine | aig.cpp:131-141 | the reader computes LatchLine, whose reset is max(d, 0) of the `int` read, so a missing reset (-1) is 0 |
| Aiger.ReadLatchLines | aig.cpp:130-144 | the loop computes LatchLines |
| Aiger.AsciiAndLine | aig.cpp:193-197 | an ASCII gate line moves the cursor forward inside the buffer |
| Aiger.AsciiAndLines | aig.cpp:192-200 | n gate lines give n gates |
| Aiger.ReadAsciiAndLine | aig.cpp:193-197 | the reader computes AsciiAndLine |
| Aiger.ReadAsciiAndLines | aig.cpp:192-200 | the loop computes AsciiAndLines |
| Aiger.BinaryAndGate | aig.cpp:180-185 | binary gate i has output 2 * (I + L + i + 1) |
| Aiger.BinaryAndGates | aig.cpp:179-188 | n binary gates are appended to those read before |
| Aiger.BinaryAnds | aig.cpp:176-188 | the binary gate section holds n gates numbered after inputs and latches |
| Aiger.GateNumbering | aig.cpp:180 | every binary gate keeps its position's output literal |
| Aiger.ReadBinaryAndGate | aig.cpp:180-185 | the reader computes BinaryAndGate (two deltas subtracted in unsigned arithmetic) |
| Aiger.ReadBinaryAnds | aig.cpp:176-188 | the loop computes BinaryAnds |
| Aiger.BytesUntil | aig.cpp:217-220 | a symbol name ends on the stop byte, inside the buffer |
| Aiger.ReadSymbolName | aig.cpp:217-220 | the loop collects the bytes up to the newline |
| Aiger.SymbolLines | aig.cpp:211-251 | the symbol table reader stays inside the buffer |
| Aiger.ReadSymbolLines | aig.cpp:211-251 | the loop computes SymbolLines: i/l/o lines update the table, "c" starts the comments, anything else stops |
| Aiger.NextNewline | aig.cpp:207-208 | the newline found is at or after the cursor |
| Aiger.ReadSymbolSection | aig.cpp:205-252 | an ASCII file skips to the end of the line, and the table is read only before the last byte of the file |
| Aiger.InputSection | aig.cpp:120-128 | I inputs, numbered 2i in a binary file |
| Aiger.LatchSection | aig.cpp:130-144 | L latches, numbered after the inputs in a binary file |
| Aiger.AndSection | aig.cpp:176-202 | A gates, numbered after the latches in a binary file |
| Aiger.CircuitBody | aig.cpp:120-202 | every section has the announced number of entries |
| Aiger.LoadSections | aig.cpp:120-261 | a loaded circuit has consistent counts, and a binary one is numbered inputs, then latches, then gates |
| Aiger.LoadSpec | aig.cpp:82-275 | every accepted file yields an AIGER circuit with consistent counts |
| Aiger.LoadNumbering | aig.cpp:120-185 | a binary file's circuit is numbered inputs, then latches, then gates |
| Aiger.Load | aig.cpp:82-275 | the loader computes LoadSpec |
| Aiger.LoadBody | aig.cpp:120-261 | the section reader computes LoadSections |
| Aiger.ReadCircuitBody | aig.cpp:120-202 | the reader computes CircuitBody |
| AigerText.DecimalText | aig.cpp:50-55 | decimal text is a non-empty run of digits |
| AigerText.DecimalOfText | aig.cpp:50-55 | the decimal value of printed digits is the printed number |
| AigerText.ReadDigitsRun | aig.cpp:51-55 | the digit loop reads a whole digit run and stops on its end, with the run's decimal value wrapped to 32 bits |
| AigerText.ReadPrintedLiteral | aig.cpp:42-57 | read_literal returns a printed number preceded by skippable bytes, wrapped to a 32-bit `int`; a number below 2^31 reads back as itself |
| AigerText.ThreeLiterals | aig.cpp:136-139 | three literals read in a row give the three values read_literal returns, each already wrapped to a 32-bit `int` |
| AigerText.ReadSeparatedLiteral | aig.cpp:42-57 | a number after a space reads back, wrapped to 32 bits |
| AigerText.LatchLineReads | aig.cpp:136-139 | a latch line "l n [d]" reads back as l, n and d wrapped to 32-bit `int`s, or -1 when d is missing |
| AigerText.NoResetReads | aig.cpp:136-139 | a two-field latch line reads its two literals wrapped to 32 bits and a reset of -1 |
| AigerText.ResetReads | aig.cpp:136-139 | a three-field latch line reads its three numbers wrapped to 32 bits |
| AigerText.AsciiLatchRoundTrip | aig.cpp:130-141 | a printed ASCII latch line loads as that latch: literals modulo 2^32, reset max(d, 0) of the reset d read as an `int`, which is d itself below 2^31, and 0 when the reset is missing |
| AigerText.WrappedResetReadsZero | aig.cpp:136-139 | a reset printed as 3000000000 wraps to a negative `int`, and max(d, 0) makes it 0: the latch resets to false |
| AigerText.BytesUntilText | aig.cpp:217-220 | a printed name without newline reads back whole |
| AigerText.SymbolFields | aig.cpp:214-221 | a symbol line's kind, index and name sit where the reader expects them |
| AigerText.SymbolLineStep | aig.cpp:214-243 | one printed symbol line sets table entry v to its name |
| AigerText.SymbolLineUnfold | aig.cpp:214-243 | one symbol line is one table update followed by the rest |
| AigerText.SymbolOverwrite | aig.cpp:221-241 | two symbol lines for the same index, one after the other, keep the later name |
| AigerText.LaterLineReplaces | aig.cpp:221-241 | a symbol line for an index that already has a name replaces that name |
| AigerText.CommentRoundTrip | aig.cpp:254-261 | the comment section reads back the text up to the terminating NUL |
| AigerText.BinaryGateRoundTrip | aig.cpp:180-185 | a gate encoded as two deltas decodes back to its output and both operands |
| SatSolver.MaxAbsIsMaximum | sat_solver.hpp:42 | the tracked nv bounds the absolute value of every literal added and is reached by one of them when any was added |
| SatSolver.MaxAbsAppend | sat_solver.hpp:42 | adding a literal sets nv to max(nv, abs(lit)) |
| SatSolver.StreamAppend | sat_solver.hpp:40-42 | a clause added literal by literal extends the stream by its literals and a 0 |
| SatSolver.Split | sat_solver.hpp:100-117 | the literal stream splits into complete clauses and a pending clause without 0 |
| SatSolver.SplitClause | sat_solver.hpp:101-110 | a 0-free clause followed by 0 becomes one complete clause |
| SatSolver.SplitStream | sat_solver.hpp:100-117 | a stream of 0-terminated clauses splits back into exactly those clauses |
| SatSolver.SplitTail | sat_solver.hpp:112-117 | literals with no 0 stay pending |
| SatSolver.AddClauseToStream | sat_solver.hpp:40-42 | adding one more clause and its 0 completes it after the previous ones |
| SatSolver.CaDiCaL.constructor | sat_solver.hpp:32-36 | a new solver has no literal added, no assumption pending, nv == 0 and the clear flag off |
| SatSolver.CaDiCaL.Add | sat_solver.hpp:40-52 | the literal goes to the solver and nv becomes max(nv, abs(lit)) |
| SatSolver.CaDiCaL.Assume | sat_solver.hpp:53-55 | the literal is queued as an assumption for the next solve |
| SatSolver.CaDiCaL.Solve | sat_solver.hpp:56-58 | the answer is the oracle's on the clauses so far under the pending assumptions, which the call consumes |
| SatSolver.CaDiCaL.Failed | sat_solver.hpp:59-61 | the answer is the oracle's about the last solve |
| SatSolver.CaDiCaL.Val | sat_solver.hpp:62-64 | the answer is the oracle's model value from the last solve |
| SatSolver.CaDiCaL.MaxVar | sat_solver.hpp:65-67 | returns the largest variable mentioned by any added literal, and that variable occurs |
| SatSolver.CaDiCaL.SetClearAct | sat_solver.hpp:68-70 | the clear flag is set |
| SatSolver.CaDiCaL.ClearAct | sat_solver.hpp:71-77 | with the flag set, the unit clause -nv is added; the flag is cleared in every case and nv is unchanged |
| SatSolver.ToMinisat | sat_solver.hpp:113-115 | a non-zero DIMACS literal becomes a MiniSat literal on variable abs(lit) - 1 |
| SatSolver.MinisatRoundTrip | sat_solver.hpp:113-115 | MiniSat's literal for a DIMACS literal converts back to the same DIMACS literal, and the other way round |
| SatSolver.ValOf | sat_solver.hpp:141-151 | val returns +abs(lit) for true, -abs(lit) for false and 0 for an unassigned variable, whatever the sign of lit |
| SatSolver.ValIgnoresSign | sat_solver.hpp:141-151 | val(lit) == val(-lit) |
| SatSolver.MinisatCore.constructor | sat_solver.hpp:221-225 | a new solver has no clause, no pending literal, no assumption, nv == 0 and the flag off |
| SatSolver.MinisatCore.VarEnlargeTo | sat_solver.hpp:231-236 | the variable count becomes max(nVars, v) |
| SatSolver.MinisatCore.Add | sat_solver.hpp:237-256 | 0 closes the pending clause; any other literal is appended to it, and nv and the variable count follow the largest variable |
| SatSolver.MinisatCore.Assume | sat_solver.hpp:257-263 | the literal is appended to the assumptions, and nv and the variable count follow it |
| SatSolver.MinisatCore.Solve | sat_solver.hpp:264-271 | the answer is 10 when the oracle finds the clauses satisfiable under the assumptions and 20 otherwise; the assumptions are cleared |
| SatSolver.MinisatCore.Failed | sat_solver.hpp:272-281 | true exactly when the conflict holds mkLit(abs(lit) - 1, lit > 0) |
| SatSolver.MinisatCore.Val | sat_solver.hpp:282-292 | the model value of the variable, signed as val promises |
| SatSolver.MinisatCore.MaxVar | sat_solver.hpp:294-298 | nv, which equals the solver's variable count, as the source asserts |
| SatSolver.MinisatCore.SetClearAct | sat_solver.hpp:300-302 | the clear flag is set |
| SatSolver.MinisatCore.ClearAct | sat_solver.hpp:303-310 | with the flag set, -nv and 0 are added: the pending clause closes with -nv (or, when nv is 0, the pending clause and an empty clause close); the flag is cleared |
| SatSolver.DimacsClause | sat_solver.hpp:177-186 | a clause is printed literal by literal in DIMACS form |
| SatSolver.DimacsClauses | sat_solver.hpp:175-187 | one printed clause per clause |
| SatSolver.Units | sat_solver.hpp:188-196 | one unit clause per trail literal |
| SatSolver.SimplifiedCnfClauses | sat_solver.hpp:171-196 | the simplified CNF stream is the clause (n, -n), then the surviving clauses, then the trail units, all 0-terminated |
| SatSolver.MinisatSimp.constructor | sat_solver.hpp:90-93 | a new solver is empty with nothing frozen |
| SatSolver.MinisatSimp.VarEnlargeTo | sat_solver.hpp:95-98 | the variable count becomes max(nVars, v) |
| SatSolver.MinisatSimp.Add | sat_solver.hpp:100-118 | 0 closes the pending clause; any other literal is appended and the variable count covers it |
| SatSolver.MinisatSimp.Assume | sat_solver.hpp:119-123 | the assumptions are cleared: the literal is never pushed |
| SatSolver.MinisatSimp.Solve | sat_solver.hpp:124-131 | 10 or 20 as the oracle answers on the clauses under the (empty) assumptions, which are then cleared |
| SatSolver.MinisatSimp.Failed | sat_solver.hpp:132-140 | true exactly when the conflict holds mkLit(abs(lit) - 1, lit > 0) |
| SatSolver.MinisatSimp.Val | sat_solver.hpp:141-151 | the model value of the variable, signed as val promises |
| SatSolver.MinisatSimp.SetFrozen | sat_solver.hpp:153-158 | the variable is frozen and counted |
| SatSolver.MinisatSimp.Simplify | sat_solver.hpp:160-200 | the simplified CNF is built from the oracle's elimination of the clauses with the frozen variables kept |
| SatSolver.MinisatSimp.MaxVar | sat_solver.hpp:202-204 | the solver's variable count |
| SatSolver.AddAll | sat_solver.hpp:40-42 | adding a literal sequence one by one appends it to the solver's literals |
| SatSolver.MinisatClause | sat_solver.hpp:113-116 | each DIMACS literal of a clause becomes its MiniSat literal |
| SatSolver.MinisatClauses | sat_solver.hpp:109 | each clause becomes its MiniSat clause |
| SatSolver.FeedAppend | sat_solver.hpp:100-118 | adding a + b is adding a, then b |
| SatSolver.FeedClause | sat_solver.hpp:100-118 | a 0-free clause and its 0 add exactly that clause |
| SatSolver.FeedPending | sat_solver.hpp:112-117 | literals without 0 stay in the pending clause |
| SatSolver.FeedStream | sat_solver.hpp:100-118 | a stream of 0-terminated clauses adds exactly those clauses |
| SatSolver.AddAllSimp | sat_solver.hpp:100-118 | feeding a stream to the simplifying solver updates clauses and variable count as Add does, literal by literal |
| SatSolver.FrozenVars | sat_solver.hpp:153-158 | the frozen variables are exactly abs(lit) - 1 of the literals given |
| SatSolver.FreezeAll | sat_solver.hpp:153-158 | freezing each literal in turn freezes exactly their variables |
| Circuit.DimacsAnds | PDR.cpp:207-216 | one DIMACS gate per AIGER gate, gate k with output variable I + L + k + 2 |
| Circuit.DimacsAndsAgree | PDR.cpp:209-215 | under the asserted binary numbering the gate output is aiger_to_dimacs of the AIGER output, and operands below 2^31 convert back to themselves |
| Circuit.DimacsOfUnsigned | PDR.cpp:212-213 | an unsigned literal below 2^31 survives the DIMACS round trip |
| Circuit.Nexts | PDR.cpp:219-223 | one next-state literal per latch |
| Circuit.MapDimacs | PDR.cpp:231-235 | each constraint (or bad or output) literal converted by aiger_to_dimacs, in order |
| Circuit.InitStateMeaning | PDR.cpp:218-229 | the initial cube holds exactly the literals the resets ask for (reset 0 gives -l, reset 1 gives l, others nothing), sorted by variable, each on a latch variable |
| Circuit.BadListChoice | PDR.cpp:237-246 | the property comes from the bads when there are more than index of them, else from the outputs; with neither translation fails, and a negative index selects nothing |
| Circuit.BaseVariables | PDR.cpp:190-216 | the table before priming holds NULL, False and one variable per input, latch and gate |
| Circuit.PrimedVariables | PDR.cpp:249-261 | one primed variable per input and latch |
| Circuit.BaseVariablesEntry | PDR.cpp:190-216 | entry v is NULL, False, or the input, latch or gate variable named by its kind and index |
| Circuit.PrimedVariablesEntry | PDR.cpp:252-261 | primed entry k is input k or latch k - I, primed, at number first + k |
| Circuit.VariablesIndexed | PDR.cpp:190-261 | every variable of the table is stored at the index of its own DIMACS number |
| Circuit.LitsAboveMeaning | PDR.cpp:511-517 | the walk's set on reaching a gate is the roots plus the operands of the cone gates after it |
| Circuit.WalkTestIsCone | PDR.cpp:514-515 | the walk's membership test picks exactly the gates of the backward cone |
| Circuit.WalkIsCone | PDR.cpp:508-524 | the walk emits exactly the Tseitin clauses of the backward cone of its roots, last gate first |
| Circuit.WalkFromRoots | PDR.cpp:509-521 | the walk started from the root variables encodes their cone |
| Circuit.AbsSet | PDR.cpp:488-490 | the start set holds exactly the variables of the literals |
| Circuit.DimacsOfBoundedLiteral | PDR.cpp:212-213 | a literal below 2 * (M + 1) names a variable 1 .. M + 1 of the table |
| Circuit.DimacsInRange | PDR.cpp:212-234 | for a circuit whose literals name its variables, every DIMACS gate operand, next state and constraint has an entry in the table |
| Circuit.SignedWalkSkipsNegatedFanin | PDR.cpp:492-502 | for constraint 4 = 2 AND NOT 3 with 3 = 2 AND 2 the signed walk omits gate 3 that the variable walk encodes |
| Circuit.BadBoundAdmitsPrimedInput | PDR.cpp:247-254 | with one input and bad literal 4 the written bound accepts variable 3, the number the primed input receives next |
| Circuit.BadInTableIsUnprimed | PDR.cpp:247-254 | under the intended bound the bad variable is an unprimed table entry and no primed copy |
| PdrTypes.LitLessIsStrictTotalOrder | PDR.hpp:101-109 | Lit_CMP is a strict total order that orders by variable and puts -v right before v |
| PdrTypes.OrderedHead | PDR.hpp:126 | in a Lit_CMP-sorted cube the first literal is at or before every other |
| PdrTypes.InsertLit | PDR.cpp:344 | inserting keeps the multiset of literals plus x |
| PdrTypes.InsertLitOrdered | PDR.cpp:344 | insertion into a sorted cube keeps it sorted |
| PdrTypes.SortLits | PDR.cpp:344 | the sorted cube is Lit_CMP-ordered and a permutation of the input |
| PdrTypes.OrderedPermutationUnique | PDR.hpp:101-109 | any two sorted permutations of one cube are equal, so the result of sort does not depend on the algorithm |
| PdrTypes.SameHead | PDR.hpp:101-109 | two sorted permutations start with the same literal |
| PdrTypes.CubeCompare | PDR.hpp:128-141 | the loop computes Cube_CMP: shorter first, then the first differing literal by value |
| PdrTypes.LexLessIsStrictTotalOrder | PDR.hpp:133-138 | lexicographic order on equal-length cubes is strict and total |
| PdrTypes.CubeLessIsStrictTotalOrder | PDR.hpp:128-141 | Cube_CMP is a strict total order, and two cubes are equivalent under it exactly when identical |
| PdrTypes.CubeSetHead | PDR.hpp:146 | the first cube of a set precedes every other |
| PdrTypes.InsertCube | PDR.cpp:345-346 | set insert keeps the set ordered, reports whether c was new, leaves the set alone otherwise and adds exactly c |
| PdrTypes.EraseAt | PDR.cpp:880-905 | erasing position i removes exactly that cube and keeps the set ordered |
| PdrTypes.State.constructor | PDR.hpp:74-79 | State(l, i) stores latches l and inputs i with the next stamp, no successor and zero failure counters |
| PdrTypes.ObligationLessIsStrictTotalOrder | PDR.hpp:89-98 | obligations order by lowest frame, then deepest, then oldest state; the order is strict and total up to equal keys |
| PdrTypes.QueueBeginIsLeast | PDR.hpp:192 | begin() of the queue precedes every other element |
| PdrTypes.InsertObligation | PDR.hpp:192 | insert keeps the queue ordered and adds nothing but o |
| PdrTypes.InsertObligationContents | PDR.hpp:192 | insert does nothing when an element with o's key is present and otherwise adds o exactly once |
| PdrTypes.NatText | PDR.hpp:32-37 | decimal text is a non-empty run of digits |
| PdrTypes.NatTextValue | PDR.hpp:32-37 | the printed digits read back to the number |
| PdrTypes.NamedVariable | PDR.hpp:29-38 | the name starts with the type letter and ends with a quote exactly when primed |
| PdrTypes.VariableNameRoundTrip | PDR.hpp:29-38 | a name reads back to its type, index and primedness, so distinct variables never share a name |
| PdrTypes.ParsePrimed | PDR.hpp:35-36 | a letter, digits and a quote read back to their parts |
| PdrTypes.ParseUnprimed | PDR.hpp:32-37 | a letter and digits read back to their parts, unprimed |
| PdrTypes.State.Predecessor | PDR.hpp:68-73 | a state made for successor n holds the given latches and inputs, the next stamp, next == n and zero failure counters |
| PdrSpec.Negated | PDR.cpp:359-361 | the blocking clause of a cube negates every literal, position by position |
| PdrSpec.Singletons | PDR.cpp:480-482 | one unit clause per literal, in order |
| PdrSpec.UnitStreamClauses | PDR.cpp:480-482 | writing `l 0` for each nonzero literal gives the solver exactly one unit clause per literal and leaves no clause pending |
| PdrSpec.Reverse | PDR.cpp:400-401 | std::reverse: position i of the result holds position n-1-i of the input |
| PdrSpec.ReverseIsPermutation | PDR.cpp:440-441 | reversing the assumptions keeps the same multiset of literals |
| PdrSpec.PrimeVarOf | PDR.cpp:142-164 | prime_var returns the primed number and a table that extends the old one |
| PdrSpec.PrimeLitOf | PDR.cpp:166-172 | prime_lit primes the variable of a literal and keeps its sign, extending the table |
| PdrSpec.ExtendsTransitive | PDR.cpp:142-164 | a table that extends one extending another extends that one too, so later priming never loses earlier pairs |
| PdrSpec.PrimeVarOfInputsAndLatches | PDR.cpp:145-150 | variable 1 stays 1 and an input or latch v is primed to primed_first + v - 2 without touching the table |
| PdrSpec.PrimeVarOfAllocates | PDR.cpp:151-163 | any other variable gets the next table index on first use, with an entry named after it plus "'" and both maps recording the pair; on later use the table is unchanged |
| PdrSpec.PrimeVarOfValid | PDR.cpp:142-164 | priming keeps the table invariant (the two maps are inverse and point into the table) |
| PdrSpec.PrimeVarOfStable | PDR.cpp:151-153 | asking for the prime of v again returns the same number and leaves the table as it is, even after the table has grown |
| PdrSpec.PrimeLitOfStable | PDR.cpp:166-172 | the same for literals |
| PdrSpec.PrimeLitOfNegation | PDR.cpp:166-172 | prime_lit(-x) is -prime_lit(x), with the same effect on the table |
| PdrSpec.PrimeVarOfInjective | PDR.cpp:142-164 | two distinct variables never get the same primed number |
| PdrSpec.PrimeAll | PDR.cpp:267-270 | prime_lit over a list, left to right; the table only grows |
| PdrSpec.PrimeAllStable | PDR.cpp:267-270 | after priming a list each member's prime is recorded: asking again gives its entry of the result and changes nothing |
| PdrSpec.PrimeAllValid | PDR.cpp:267-270 | priming a list keeps the table invariant |
| PdrSpec.LatchSubCube | PDR.hpp:126 | a cube made of literals of a latch cube is a latch cube |
| PdrSpec.LatchCubesInsert | PDR.cpp:344-346 | inserting a latch cube into a frame's cube set keeps every cube of the set over latches |
| PdrSpec.LatchCubesErase | PDR.cpp:893-896 | erasing a cube from the set keeps every remaining cube over latches |
| PdrSpec.LatchValues | PDR.cpp:644-650 | the latch values read from a model form a latch cube |
| PdrSpec.SubCubeOf | PDR.cpp:389 | a cube whose multiset is included in another's has all its literals there |
| PdrSpec.PrimeCube | PDR.cpp:442-444 | a cube primed literal by literal |
| PdrSpec.PrimeLatchIsPrimeLit | PDR.cpp:145-150 | on a latch literal, prime_lit is the arithmetic shift, needs no table entry, keeps the sign and lands in the primed latch range |
| PdrSpec.PrimeLatchInjective | PDR.cpp:145-150 | priming latch literals commutes with negation and never merges two literals |
| PdrSpec.GatesInLargerTable | PDR.cpp:250-261 | gates whose literals name table entries still do once the table grows |
| PdrSpec.PrimeGate | PDR.cpp:583-586 | the primed copy of a gate primes its output and then each operand, extending the table |
| PdrSpec.PrimeGateValid | PDR.cpp:583-586 | priming a gate keeps the table invariant |
| PdrSpec.PrimedInterfaceHeld | PDR.cpp:264-270 | after priming bad and then the constraints the table is valid and each of them is already primed, to the values returned |
| PdrSpec.TranslationWalk | PDR.cpp:570-595 | the walk of encode_translation over the gates, last first, extends the prime table |
| PdrSpec.TranslationWalkValid | PDR.cpp:570-595 | the walk keeps the table invariant |
| PdrSpec.TranslationCone | PDR.cpp:531-604 | the declarative reference: every gate of the cone of the roots emits its clauses, and its primed copy when it is also in the primed cone |
| PdrSpec.InConeMonotone | PDR.cpp:574-594 | a gate in the cone of some roots is in the cone of any superset of them |
| PdrSpec.ConeStepBoth | PDR.cpp:583-593 | one walk step for a gate in both cones agrees with the cone |
| PdrSpec.ConeStepUnprimed | PDR.cpp:574-581 | one walk step for a gate only in the unprimed cone agrees with the cone |
| PdrSpec.ConeStepNone | PDR.cpp:570-574 | one walk step for a gate outside both cones agrees with the cone |
| PdrSpec.TranslationWalkIsCone | PDR.cpp:570-595 | the walk, started on the operands above n, produces exactly the clause stream and the table of the cone |
| PdrSpec.TranslationWalkFromRoots | PDR.cpp:547-595 | started on the roots (next states, bad, constraints), the translation encodes exactly their cone and primes exactly the cone of bad and the constraints |
| PdrSpec.FailedCore | PDR.cpp:461-470 | the core is the literals of the cube whose primed form the solver reports failed, a subsequence of the cube |
| PdrSpec.IncludesSound | PDR.cpp:389 | a positive answer of std::includes is sound: every literal of b, with multiplicity, is in a |
| PdrSpec.IncludesMissesSortedSubcube | PDR.cpp:387-389 | with cubes sorted by Lit_CMP and not by `<`, includes can answer no on a true sub-cube ([2, -3] and [-3]) |
| PdrSpec.FirstIncluded | PDR.cpp:386-389 | the pc shortcut's choice is a pushed cube no longer than c whose literals are all in c |
| PdrSpec.Without | PDR.cpp:926-931 | mic's candidate holds exactly the literals of the cube other than l |
| PdrSpec.JoinMeaning | PDR.cpp:1010-1021 | the join keeps only literals of both cube and CTG and, unless it stopped, every required literal of the cube |
| PdrSpec.JoinBreaks | PDR.cpp:1013-1019 | the join stops exactly when the cube holds a required literal the CTG lacks |
| PdrSpec.JoinStopped | PDR.cpp:1016-1018 | once stopped, the rest of the cube changes nothing |
| PdrSpec.ModelValues | PDR.cpp:644-650 | the nonzero values of consecutive variables read from the model, at most one per variable |
| PdrSpec.ShiftAllUp | PDR.cpp:671-676 | the shift back up applied to every assumption, length kept |
| PdrSpec.FailedLatches | PDR.cpp:754-757 | the latches of the cube that the lifting solve reports failed, a subsequence of the cube |
| PdrSpec.ModelValuesRange | PDR.cpp:644-650 | each value read for variables first..first+n-1 names one of them |
| PdrSpec.ShiftedBack | PDR.cpp:669-676 | sorting and reversing a permutation of the assumptions, then shifting back up, gives the input values, the primed input values and the latch values |
| PdrSpec.InputAssumptionsMeaning | PDR.cpp:625-641 | the input assumptions are the input values and the primed input values shifted down by distance, and shifting up recovers the primed values and keeps the input values |
| PdrSpec.InputShiftsBack | PDR.cpp:625-641 | the same, in the form ShiftedBack takes |
| PdrSpec.LatchShiftFixes | PDR.cpp:644-650 | latch values are below the shift bound and stay put |
| PdrSpec.LiftedValues | PDR.cpp:625-676 | lift's assumptions hold exactly the model's input values, its primed input values and its latch values |
| PdrSpec.IncludesLitExact | PDR.cpp:387-389 | with Lit_CMP as the comparator, the scan over two Lit_CMP-sorted cubes answers yes exactly when every literal of the second is in the first: no sub-cube is missed and no answer is wrong |
| PdrSpec.IncludesLitFindsSortedSubcube | PDR.cpp:389 | on the cubes [2, -3] and [-3] that `<` misses, the Lit_CMP scan answers yes |
| PdrEngine.ReadValues | PDR.cpp:1081-1084 | the values sat->val gives consecutive variables after a SAT answer, zeros included, in order |
| PdrEngine.SolveAssuming | PDR.cpp:768-769 | one assumption then solve: the answer is the solver's answer for exactly the clauses added and that assumption, and nothing stays pending |
| PdrEngine.LoadInputs | PDR.cpp:190-198 | succeeds exactly when input i is AIGER literal 2i, and then the table holds NULL, False and one entry per input |
| PdrEngine.LoadLatches | PDR.cpp:200-205 | succeeds exactly when latch i is literal 2(I+i), and then the table is extended by one entry per latch |
| PdrEngine.LoadAnds | PDR.cpp:207-216 | succeeds exactly when gate i has output 2(I+L+i), and then the table holds every gate and the gate list is the DIMACS translation |
| PdrEngine.InputPrefixStep | PDR.cpp:195-198 | one more input entry, numbered 1+i and named after input i-1 |
| PdrEngine.LatchPrefixStep | PDR.cpp:202-205 | one more latch entry, numbered 1+I+i |
| PdrEngine.GatePrefixStep | PDR.cpp:209-216 | one more gate entry, numbered 1+I+L+i |
| PdrEngine.GateListStep | PDR.cpp:211-215 | one more DIMACS gate with converted operands |
| PdrEngine.LoadLatchStates | PDR.cpp:219-229 | the next-state literals of all latches, and the initial cube: -l for reset 0, l for reset 1, nothing for an undefined reset |
| PdrEngine.LoadConstraints | PDR.cpp:232-235 | each constraint converted by aiger_to_dimacs, in order |
| PdrEngine.SelectBad | PDR.cpp:238-246 | a bad literal exists exactly when the index selects a bad or, failing that, an output; bads take priority |
| PdrEngine.PushPrimed | PDR.cpp:249-261 | the table grows by one primed entry per input and then per latch, numbered from the current size |
| PdrEngine.LoadAll | PDR.cpp:180-261 | the loading loops succeed exactly when every assert of translate_to_dimacs holds (binary numbering, a selected bad, and the bad bound as written), and then yield the base and primed tables and the circuit |
| PdrEngine.NewSimplifier | PDR.cpp:533-545 | a fresh simplifier with the given variables frozen, fed the clause stream, whose simplified CNF is the oracle's elimination of those clauses |
| PdrEngine.AddUnits | PDR.cpp:480-486 | each literal added as a unit clause, appended to what the solver had |
| PdrEngine.AddWalk | PDR.cpp:509-521 | the cone walk from the roots, last gate first, appended to the solver's clauses |
| PdrEngine.WalkStep | PDR.cpp:511-521 | one gate of the walk: a gate in the cone emits its three clauses and adds its operand variables; any other is skipped |
| PdrEngine.AddSignedWalk | PDR.cpp:492-502 | the walk of encode_init_condition, which enters operand literals with their sign, appended to the solver's clauses |
| PdrEngine.SignedWalkStep | PDR.cpp:492-502 | one gate of the signed walk |
| PdrEngine.AssumeAll | PDR.cpp:452-454 | each literal assumed, in order, after what was pending |
| PdrEngine.ActClause | PDR.cpp:428-434 | act is max_var()+1, a variable no clause mentions, and the clause ¬act ∨ lits is appended |
| PdrEngine.ActSolve | PDR.cpp:452-456 | assume act, then the assumptions, solve; the answer is for exactly those assumptions |
| PdrEngine.ActQuery | PDR.cpp:428-456 | the activation-literal query: a fresh act guards the clause, act and the assumptions are assumed, and the answer is the solver's for exactly that |
| PdrEngine.FailedLits | PDR.cpp:461-466 | the literals of the cube whose primed form failed, in the order of the cube |
| PdrEngine.ReadModel | PDR.cpp:625-650 | the input values, the latch values, and lift's assumptions before sorting, as read from the model |
| PdrEngine.FailedOf | PDR.cpp:754-757 | the latches the lifting solve reports failed |
| PdrEngine.LiftAnswer | PDR.cpp:623-689 | lift's query: the act clause over the negated successor (or ¬bad'), the heuristic-ordered, shifted assumptions, and the model's inputs and failed latches |
| PdrEngine.FindIncluded | PDR.cpp:387-389 | the first pushed cube, in set order, no longer than c that includes reports inside c |
| PdrEngine.RemoveLit | PDR.cpp:926-931 | the candidate cube without l |
| PdrEngine.JoinCube | PDR.cpp:1010-1021 | the join of CTG_down, as JoinPrefix over the whole cube |
| PdrEngine.PartOfTransitive | PDR.cpp:968-970 | a part of a part of a cube is a part of it |
| PdrEngine.GrowsTransitive | PDR.cpp:341-346 | frames that only gain cubes compose |
| PdrEngine.GrowsKeepsBlocked | PDR.cpp:341-346 | a cube blocked in the last frame stays blocked as frames gain cubes |
| PdrEngine.BlockedAfter | PDR.cpp:830 | after add_cube, a cube blocked before stays blocked, and a cube whose part was added at the last frame is blocked |
| PdrEngine.SubsumedStep | PDR.cpp:883-904 | after a propagation pass every earlier cube is still in its frame, or a part of it is in a later frame |
| PdrEngine.PassKeepsTransitive | PDR.cpp:886-904 | steps of one pass compose |
| PdrEngine.PassStepTransitive | PDR.cpp:886-904 | the same, with the other frames unchanged |
| PdrEngine.PushedStep | PDR.cpp:887-895 | a pushed cube's sorted core goes into frame i+1 and the cube leaves frame i, a valid pass step |
| PdrEngine.KeptStep | PDR.cpp:897-901 | a kept cube at most joins frame i-1's pushed set |
| PdrEngine.SortedCoreCovers | PDR.cpp:890-893 | the sorted core, once inserted, is in frame i+1 and is a part of the pushed cube |
| PdrEngine.Pdr.constructor | PDR.hpp:210-214 | a new engine: the options and the aiger stored, nothing loaded, no frame, no solver, no cex, first_incremental_check set |
| PdrEngine.Pdr.PartLatches | PDR.hpp:126 | a part of a latch cube is a latch cube |
| PdrEngine.Pdr.SortedLatches | PDR.cpp:344 | sorting by Lit_CMP keeps a latch cube |
| PdrEngine.Pdr.LoadedRanges | PDR.cpp:207-251 | after loading, primed_first is I+L+A+2 and every gate, next state, constraint and bad literal names a table entry |
| PdrEngine.Pdr.TranslatedRanges | PDR.cpp:249-270 | the same after priming, with the prime table valid |
| PdrEngine.Pdr.TranslationKept | PDR.cpp:142-164 | growing the prime table keeps the translation invariant |
| PdrEngine.Pdr.PrimeVar | PDR.cpp:142-164 | prime_var on the engine's table fields, as PrimeVarOf |
| PdrEngine.Pdr.PrimeLit | PDR.cpp:166-172 | prime_lit on the engine's table fields, as PrimeLitOf |
| PdrEngine.Pdr.LoadCircuit | PDR.cpp:180-261 | succeeds exactly when translate_to_dimacs's asserts hold, and then the circuit is loaded and the table is the base and primed entries with no gate primed |
| PdrEngine.Pdr.StoreCircuit | PDR.cpp:194-247 | the circuit fields take the loaded values |
| PdrEngine.Pdr.StoreTable | PDR.cpp:249-261 | primed_first is set and the maps are empty |
| PdrEngine.Pdr.PrimeGateStep | PDR.cpp:583-586 | the primed gate and table, as PrimeGate |
| PdrEngine.Pdr.PrimeInterface | PDR.cpp:263-270 | bad_prime is prime_lit(bad) and constraints_prime the constraints primed in order, with the table after both |
| PdrEngine.Pdr.PrimeConstraints | PDR.cpp:267-270 | the constraints primed in order, as PrimeAll |
| PdrEngine.Pdr.PrimeNext | PDR.cpp:268-269 | one constraint primed and appended |
| PdrEngine.Pdr.InterfacePrimed | PDR.cpp:263-270 | priming bad and the constraints from the first table establishes the translation invariant |
| PdrEngine.Pdr.TranslateToDimacs | PDR.cpp:180-270 | succeeds exactly when its asserts hold; then bad_prime and constraints_prime are the primed literals and the table is valid |
| PdrEngine.Pdr.PrimeTranslation | PDR.cpp:263-270 | the priming half after loading, as PrimeLitOf then PrimeAll |
| PdrEngine.Pdr.EncodeInitCondition | PDR.cpp:478-506 | appends ¬1, the initial units, the constraint units and the signed walk from the constraints |
| PdrEngine.Pdr.EncodeBadState | PDR.cpp:508-524 | appends the cone of abs(bad), gate by gate |
| PdrEngine.Pdr.FreezeInterface | PDR.cpp:536-545 | the list of frozen variables (inputs, latches, bad, constraints and their primes), leaving the table as it is |
| PdrEngine.Pdr.BuildHeader | PDR.cpp:557-567 | the head of the stream: ¬1, ¬bad, the constraints as units, and each latch tied to its next state in both directions |
| PdrEngine.Pdr.WalkGate | PDR.cpp:570-595 | one gate of the cone walk, so that the walk over j gates is this gate's clauses followed by the walk over j-1 |
| PdrEngine.Pdr.WalkTranslation | PDR.cpp:547-596 | the cone walk from the next states, bad and constraints, with primed copies for the cone of bad and the constraints, as TranslationWalk |
| PdrEngine.Pdr.BuildSatelite | PDR.cpp:532-597 | a fresh simplifier holding the translation stream with the interface frozen |
| PdrEngine.Pdr.SimplifierFor | PDR.cpp:533-597 | the simplifier fed the stream with the interface frozen |
| PdrEngine.Pdr.StreamAndFreeze | PDR.cpp:536-596 | the clause stream and the frozen list, as TranslationStream and FreezeList |
| PdrEngine.Pdr.PrepareSatelite | PDR.cpp:532-598 | the first call builds satelite; later calls change nothing |
| PdrEngine.Pdr.EncodeTranslation | PDR.cpp:531-604 | appends satelite's simplified CNF to s, building satelite on first use only |
| PdrEngine.Pdr.FrameSolver | PDR.cpp:331-337 | a fresh solver holding the simplified translation and then the primed constraints as units |
| PdrEngine.Pdr.NewFrame | PDR.cpp:329-338 | one more empty frame whose fresh solver holds the simplified translation and the primed constraints; earlier solvers unchanged |
| PdrEngine.Pdr.PushFrame | PDR.cpp:330-331 | appends an empty frame and its solver |
| PdrEngine.Pdr.InitSolver | PDR.cpp:369-373 | the solver of I is built on first use and kept afterwards |
| PdrEngine.Pdr.IsInit | PDR.cpp:368-379 | true exactly when I together with the literals is satisfiable |
| PdrEngine.Pdr.InitQuery | PDR.cpp:374-378 | the same once the solver of I exists |
| PdrEngine.Pdr.QueryFrame | PDR.cpp:384-459 | the query of is_inductive: fresh act guarding ¬q, q' assumed, true exactly on a pc hit or an UNSAT answer |
| PdrEngine.Pdr.PickQuery | PDR.cpp:385-389 | the queried cube is the first pushed cube inside latches with use_pc, otherwise latches |
| PdrEngine.Pdr.SolveQuery | PDR.cpp:390-411 | the query for the chosen cube; a pc hit answers true |
| PdrEngine.Pdr.IsInductive | PDR.cpp:384-475 | the query's answer; with gen_core and success, core is the failed part of the cube, or the whole cube when that part meets I, and core lies inside latches |
| PdrEngine.Pdr.GenCore | PDR.cpp:461-470 | core is the literals whose primes failed, or q itself when they meet I |
| PdrEngine.Pdr.CoreWith | PDR.cpp:462-469 | the same once the solver of I exists |
| PdrEngine.Pdr.AddClause | PDR.cpp:359-361 | a clause appended to one frame's solver |
| PdrEngine.Pdr.AddClauseRange | PDR.cpp:352-358 | ¬cube appended to frames lo..hi-1, and to no other solver |
| PdrEngine.Pdr.StoreCube | PDR.cpp:345-346 | the set insert into frame k, reporting whether the cube was new |
| PdrEngine.Pdr.AddCube | PDR.cpp:341-365 | sorts the cube; earliest_strengthened_frame drops to k outside propagation; the cube enters frame k; only a new cube adds ¬cube to frame k and, with to_all, to frames 1..k-1, and bumps the heuristic epoch outside propagation |
| PdrEngine.Pdr.Strengthen | PDR.cpp:342-343 | earliest_strengthened_frame becomes min(earliest, k) |
| PdrEngine.Pdr.NegationAdded | PDR.cpp:352-364 | ¬cube on frames 1..k-1 with to_all, then on frame k |
| PdrEngine.Pdr.PushSucc | PDR.cpp:822 | the cube joins frame k's pushed set |
| PdrEngine.Pdr.ClearSucc | PDR.cpp:884 | frame k's pushed set is emptied |
| PdrEngine.Pdr.EraseCube | PDR.cpp:894-895 | the j-th cube leaves frame k |
| PdrEngine.Pdr.PropagateCube | PDR.cpp:887-901 | a pushed cube's sorted core goes to frame i+1 and is a part of the cube; a kept cube joins frame i-1's pushed set with use_pc |
| PdrEngine.Pdr.PushQuery | PDR.cpp:887 | the query of the pass, with a latch core inside c on success |
| PdrEngine.Pdr.Settle | PDR.cpp:889-901 | the core goes up to frame i+1, or c joins frame i-1's pushed set |
| PdrEngine.Pdr.PropagatePass | PDR.cpp:883-908 | with use_pc the pushed set is cleared, then each cube is pushed or kept; frames below i keep their cubes; reports whether frame i is empty |
| PdrEngine.Pdr.PropagateFrame | PDR.cpp:886-904 | the pass over frame i, a PassStep |
| PdrEngine.Pdr.Propagate | PDR.cpp:867-911 | the passes from the start frame to depth(); true exactly when some frame from the start frame on is left without cubes; no blocked cube is lost |
| PdrEngine.Pdr.PropagateStep | PDR.cpp:886-903 | one cube of the pass; the pass makes progress |
| PdrEngine.Pdr.PushCore | PDR.cpp:890-893 | add_cube(core, i+1, to_all, true) leaving the heuristic and the earliest frame alone |
| PdrEngine.Pdr.LiftSolver | PDR.cpp:614-618 | lift is built on first use, holding the simplified translation |
| PdrEngine.Pdr.EncodedSolver | PDR.cpp:615-617 | a fresh solver holding the simplified translation |
| PdrEngine.Pdr.LiftModel | PDR.cpp:620-761 | extract_state_from_sat once lift exists: the model's inputs and the latches the lifting query keeps |
| PdrEngine.Pdr.LiftRun | PDR.cpp:620-757 | the same query, the scores left alone |
| PdrEngine.Pdr.NextEpoch | PDR.cpp:722-739 | the activity scores change: the next epoch |
| PdrEngine.Pdr.Extract | PDR.cpp:612-761 | extract_state_from_sat: the model's input values and the latch values the lifting solve reports failed, lift built on first use |
| PdrEngine.Pdr.NewState | PDR.hpp:61-81 | a new State holding the latches and inputs, no successor, the next stamp of state_count |
| PdrEngine.Pdr.CtgState | PDR.cpp:976-978 | the CTG of a failed query: the failed latches of the lifting query on the model of frame k |
| PdrEngine.Pdr.PushForward | PDR.cpp:995-1001 | the first frame from `from` on whose query for c fails, or depth()+1; every frame before it holds c |
| PdrEngine.Pdr.ForwardStep | PDR.cpp:996-1000 | the query of c on frame k and the pushed-set insert when it passes |
| PdrEngine.Pdr.AskFrame | PDR.cpp:997 | is_inductive without a core: only frame k's solver changes |
| PdrEngine.Pdr.TryBlockCtg | PDR.cpp:985-1005 | when the CTG is outside I and inductive at k-1, a part of it is added at a frame from k on |
| PdrEngine.Pdr.BlockCtg | PDR.cpp:991-1005 | the CTG's core, generalized, is added at the first frame that does not hold it |
| PdrEngine.Pdr.InitOrCore | PDR.cpp:962-966 | is_init then is_inductive: outside I a success leaves a core inside c that, without use_pc, is outside I |
| PdrEngine.Pdr.PushCtg | PDR.cpp:995-1001 | the push loop of the CTG branch stops at most at depth()+1 |
| PdrEngine.Pdr.AddCtg | PDR.cpp:1003-1005 | the generalized CTG goes into frame i, sorted, a part of the CTG |
| PdrEngine.Pdr.AddSorted | PDR.cpp:344-346 | add_cube(c, i, true): the sorted c is in frame i |
| PdrEngine.Pdr.CtgDown | PDR.cpp:958-1034 | false when the cube meets I; otherwise the result is a part of the cube no longer than it, outside I on success (without use_pc), and every required literal of the cube is kept until it returns |
| PdrEngine.Pdr.CtgLoop | PDR.cpp:961-1033 | the later rounds of CTG_down's loop, with the same promises |
| PdrEngine.Pdr.DownStep | PDR.cpp:962-1032 | one round: success shrinks to the core, a failure below the depth bound moves the tries on and keeps required literals |
| PdrEngine.Pdr.CtiStep | PDR.cpp:973-1031 | the failed-query branch: the CTG blocked or joined |
| PdrEngine.Pdr.CtgOrJoin | PDR.cpp:985-1031 | after a join the cube holds only CTG literals, and the round ends exactly when the cube held a required literal the CTG lacks |
| PdrEngine.Pdr.Mic | PDR.cpp:914-956 | the result is a part of the cube, no longer, sorted by Lit_CMP |
| PdrEngine.Pdr.MicLoop | PDR.cpp:924-954 | the loop over the literals keeps a part of the cube |
| PdrEngine.Pdr.MicStep | PDR.cpp:926-953 | CTG_down on the cube without l: the result is a part of it without l |
| PdrEngine.Pdr.Generalize | PDR.cpp:1038-1040 | mic from level 1: a part of the cube, sorted |
| PdrEngine.Pdr.InsertKeeps | PDR.hpp:83-99 | inserting into the obligation set keeps every obligation, and adds o unless one with its key is there |
| PdrEngine.Pdr.QueueOkInsert | PDR.cpp:860 | inserting a pending obligation keeps the queue invariant |
| PdrEngine.Pdr.InsertHolds | PDR.hpp:83-99 | with distinct stamps the inserted obligation is in the queue |
| PdrEngine.Pdr.PopQueue | PDR.cpp:799 | the head obligation leaves the queue |
| PdrEngine.Pdr.PushQueue | PDR.cpp:833 | the obligation is inserted into the ordered set |
| PdrEngine.Pdr.NewPredecessor | PDR.cpp:851-853 | a new State whose successor is n, with its chain one longer |
| PdrEngine.Pdr.BadQuery | PDR.cpp:767-769 | bad' assumed on the top frame's solver: found exactly when that is satisfiable |
| PdrEngine.Pdr.ExtractOn | PDR.cpp:612-761 | extract_state_from_sat on frame fi's solver: latch values over the latches |
| PdrEngine.Pdr.GetPreOfBad | PDR.cpp:765-778 | found exactly when F_depth ∧ T ∧ bad' is satisfiable; then the CTI's inputs and lifted latches, else nothing |
| PdrEngine.Pdr.Prune | PDR.cpp:835-849 | the obligation leaves the queue exactly when its state failed at a depth no greater than depth plus frame, or failed five times beyond depth(), and the failed depth is passed on to the successor |
| PdrEngine.Pdr.GeneralizeAt | PDR.cpp:801-822 | generalize on the core: a latch cube inside the core |
| PdrEngine.Pdr.BlockCore | PDR.cpp:801-830 | the generalized core is added at a frame k above the obligation's frame, at most depth()+1 |
| PdrEngine.Pdr.Requeue | PDR.cpp:799-833 | the obligation leaves the queue and comes back at frame k when k <= depth() |
| PdrEngine.Pdr.Block | PDR.cpp:793-833 | a part of the state's latches is blocked at a frame above the obligation's; the obligation returns at that frame when it is at most depth() |
| PdrEngine.Pdr.RequeueBook | PDR.cpp:799-833 | Requeue keeping the bookkeeping of states |
| PdrEngine.Pdr.BlockFrames | PDR.cpp:801-830 | the frame side of the blocking branch |
| PdrEngine.Pdr.BlockCut | PDR.cpp:801-830 | BlockCore for the obligation: the root stays blocked if it was, and is blocked when its own cube reaches depth()+1 |
| PdrEngine.Pdr.PredecessorRoot | PDR.hpp:61-81 | a predecessor's successor chain ends where its successor's does, one longer |
| PdrEngine.Pdr.Enqueue | PDR.cpp:860 | the obligation is inserted and nothing is lost |
| PdrEngine.Pdr.SetCex | PDR.cpp:855-856 | the counterexample state is recorded and find_cex set |
| PdrEngine.Pdr.SortIn | PDR.cpp:1290 | add_cube of the CTI's latches: they come back sorted and are in the frame |
| PdrEngine.Pdr.ExtractSorted | PDR.cpp:1386-1393 | the predecessor's values; in rec_block_cube2 its latches are sorted and added to the frame first |
| PdrEngine.Pdr.SortedAt | PDR.cpp:1393 | in rec_block_cube2 the latches come back sorted and are in frame fi |
| PdrEngine.Pdr.Record | PDR.cpp:851-861 | at frame 0 a counterexample rooted at the CTI, with a chain as long as depth(); otherwise the predecessor obligation at frame-1 and depth+1 |
| PdrEngine.Pdr.Predecessor | PDR.cpp:851-861 | the failed-query branch: a new state after the obligation's, a counterexample exactly at frame 0 |
| PdrEngine.Pdr.PredecessorValues | PDR.cpp:851-853 | the predecessor's values, over the latches |
| PdrEngine.Pdr.ExtractFor | PDR.cpp:853 | the predecessor's latches are a latch cube |
| PdrEngine.Pdr.RecordValid | PDR.cpp:854-861 | Record with the invariant kept |
| PdrEngine.Pdr.HeadInductive | PDR.cpp:792-793 | is_inductive for the head obligation; on success core is inside its latches |
| PdrEngine.Pdr.HeadQuery | PDR.cpp:785-793 | the head obligation and the answer for it |
| PdrEngine.Pdr.Round | PDR.cpp:784-863 | an empty queue answers true with a part of the CTI blocked in the last frame; a counterexample answers false, rooted at the CTI |
| PdrEngine.Pdr.RecBlockStep | PDR.cpp:785-862 | one round; a counterexample it reports is rooted at the CTI |
| PdrEngine.Pdr.Dispatch | PDR.cpp:793-862 | the two branches on the head obligation |
| PdrEngine.Pdr.BlockStep | PDR.cpp:793-833 | the blocking branch keeps the run's bookkeeping |
| PdrEngine.Pdr.BlockRun | PDR.cpp:793-833 | the blocking branch only adds cubes |
| PdrEngine.Pdr.FailStep | PDR.cpp:834-862 | the failed-query branch: pruning never fires and a counterexample is rooted at the CTI |
| PdrEngine.Pdr.PredecessorRun | PDR.cpp:851-862 | Predecessor with the run's bookkeeping kept |
| PdrEngine.Pdr.RecBlock | PDR.cpp:780-865 | rec_block_cube (and rec_block_cube2 at PDR.cpp:1329-1399): true with an empty queue and a part of the CTI blocked in the last frame; false with a counterexample ending in the CTI whose chain spans depth() |
| PdrEngine.Pdr.Initialize | PDR.cpp:318-326 | succeeds exactly when translate_to_dimacs's asserts hold, with no simplifier yet |
| PdrEngine.Pdr.NothingStartedValid | PDR.hpp:158-208 | an engine without frames or solvers satisfies the invariant |
| PdrEngine.Pdr.InitBadQuery | PDR.cpp:1052-1056 | SAT exactly when I ∧ cone(bad) ∧ bad is satisfiable |
| PdrEngine.Pdr.InitBadSolver | PDR.cpp:1052-1054 | a fresh solver with I and the cone of bad |
| PdrEngine.Pdr.InitStepQuery | PDR.cpp:1073-1084 | SAT exactly when I ∧ T ∧ bad' is satisfiable, and then the model's values |
| PdrEngine.Pdr.InitStepSolver | PDR.cpp:1073-1075 | a fresh solver with I and the simplified translation |
| PdrEngine.Pdr.EncodeInitOn | PDR.cpp:1065 | I appended to frame i's solver |
| PdrEngine.Pdr.CheckBmc0 | PDR.cpp:1049-1067 | passes exactly when no initial state is bad; on failure find_cex, on success frame 0 holding the translation and I |
| PdrEngine.Pdr.MarkCex | PDR.cpp:1058 | find_cex is set |
| PdrEngine.Pdr.FirstFrame | PDR.cpp:1064-1065 | frame 0 holds the translation, the primed constraints and I |
| PdrEngine.Pdr.GrowFrames | PDR.cpp:1090 | one more empty frame, the bounded answers unchanged |
| PdrEngine.Pdr.CheckBmc1 | PDR.cpp:1069-1092 | passes exactly when no successor of an initial state is bad; on failure find_cex and the counterexample state; on success a second frame |
| PdrEngine.Pdr.Bmc1Query | PDR.cpp:1073-1088 | the query and, on SAT, a counterexample state holding the model's values |
| PdrEngine.Pdr.Bmc1Cex | PDR.cpp:1079-1085 | find_cex and a new state with the model's values on cex_states |
| PdrEngine.Pdr.CexState | PDR.cpp:1080-1085 | a new state with these values appended to cex_states |
| PdrEngine.Pdr.SetLevel | PDR.cpp:1110-1111 | top_frame_cannot_reach_bad set and earliest_strengthened_frame = depth() |
| PdrEngine.Pdr.Start | PDR.cpp:1094-1111 | aborted exactly when translation fails; unsafe only with a bad initial state or successor; otherwise depth() is 1 with three fresh frame solvers |
| PdrEngine.Pdr.Bounded | PDR.cpp:1097-1111 | check_BMC0, check_BMC1 and the third frame |
| PdrEngine.Pdr.BoundedOne | PDR.cpp:1101-1111 | check_BMC1 and the third frame |
| PdrEngine.Pdr.DepthOne | PDR.cpp:1108-1111 | the third frame: depth() is 1 |
| PdrEngine.Pdr.StartQueue | PDR.cpp:1123-1125 | the queue holds the CTI alone at depth()-1 with depth 1, and the top frame can reach bad |
| PdrEngine.Pdr.BlockCti | PDR.cpp:1122-1127 | the CTI queued and blocked: true leaves it blocked in the last frame, false gives a counterexample rooted at it |
| PdrEngine.Pdr.PrepareCti | PDR.cpp:1123-1125 | the queue holding the CTI, and the solver of I |
| PdrEngine.Pdr.CtiState | PDR.cpp:1118-1120 | the CTI's state; in incremental_check2 its latches are sorted and added to the top frame (PDR.cpp:1290) |
| PdrEngine.Pdr.NoCti | PDR.cpp:1135-1143 | propagate: an invariant exactly when some frame from the start frame on is empty |
| PdrEngine.Pdr.PreOfBad | PDR.cpp:1120 | found exactly when F_depth ∧ T ∧ bad' is satisfiable |
| PdrEngine.Pdr.NoCtiRound | PDR.cpp:1135-1143 | no CTI: propagate runs |
| PdrEngine.Pdr.CtiRound | PDR.cpp:1121-1133 | a CTI: blocked and then blocked in the last frame, or a counterexample rooted at it |
| PdrEngine.Pdr.Iteration | PDR.cpp:1114-1143 | a CTI exists exactly when F_depth ∧ T ∧ bad' is satisfiable; it is blocked or yields a counterexample; without one propagate answers |
| PdrEngine.Pdr.ClearFrames | PDR.cpp:1161-1165 | no frames and no solvers are left |
| PdrEngine.Pdr.NextLevel | PDR.cpp:1154-1156 | one more frame, the top frame cannot reach bad, and the earliest frame is depth() |
| PdrEngine.Pdr.NextTwoLevels | PDR.cpp:1249-1252 | two more frames, likewise |
| PdrEngine.Pdr.LoopRound | PDR.cpp:1114-1157 | a round of the main loop: a counterexample sets find_cex; an invariant leaves an empty frame |
| PdrEngine.Pdr.CheckRound | PDR.cpp:1114-1157 | one round of check's loop, with the new level when nothing was decided |
| PdrEngine.Pdr.MainLoop | PDR.cpp:1114-1158 | rounds until a counterexample or an empty frame |
| PdrEngine.Pdr.Check | PDR.cpp:1094-1187 | aborted exactly when translation fails; unsafe sets find_cex; safe only after both bounded checks pass and with some frame 1..depth() left empty, the frames then cleared |
| PdrEngine.Pdr.Search | PDR.cpp:1114-1165 | the main loop then the frames cleared |
| PdrEngine.Pdr.IncrementalRound | PDR.cpp:1212-1254 | a counterexample answers 1, an empty frame 0, and a level with no CTI adds two frames and answers -1 |
| PdrEngine.Pdr.Resume | PDR.cpp:1212-1254 | the loop of a later call until it answers |
| PdrEngine.Pdr.FirstIncrementalCheck | PDR.cpp:1190-1210 | the first call: clears the flag, then aborted exactly when translation fails, unsafe with find_cex, or -1 with depth() 1 |
| PdrEngine.Pdr.IncrementalCheck | PDR.cpp:1189-1256 | incremental_check (and incremental_check2, PDR.cpp:1258-1326): the first call starts, later calls add two frames per -1, and safe leaves an empty frame |
| BmcTypes.ExtendsTrans | BMC.hpp:16-27 | a node list that only changes fathers and activation, then changes again, still keeps the kind and children of every node |
| BmcTypes.Adopt | BMC.cpp:336 | giving node k one more father changes that count alone, and every other node stays as it was |
| BmcTypes.AdoptAll | BMC.cpp:333-337 | adopting every output's node keeps the length and the kind and children of every node |
| BmcTypes.Orphan | BMC.hpp:55-56 | taking one father from node k changes that count alone and keeps its activation |
| BmcTypes.Visit | BMC.hpp:51-57 | one step of the cleanup at position j: node j is deactivated exactly when it is an active gate with no father, its children each lose one father then, and the nodes above j are untouched |
| BmcTypes.Swept | BMC.hpp:49-58 | the downward cleanup sweep keeps every node's kind and children and keeps the children below their parents |
| BmcTypes.SweptFrozen | BMC.hpp:50-58 | once the sweep has passed position j, node j no longer changes |
| BmcTypes.SweptKeepsLowerActivation | BMC.hpp:50-58 | the sweep from i down never changes the activation of a node below i before reaching it |
| BmcTypes.DeadGatesRemoved | BMC.hpp:50-58 | after the sweep a node is active exactly when it was active before and is not a gate left without fathers |
| BmcTypes.ActiveAnds | BMC.hpp:61-67 | the rebuilt gate list holds only active gate nodes below n, in increasing order of position |
| BmcTypes.ActiveAndsComplete | BMC.hpp:61-67 | every active gate node below n is in the rebuilt gate list |
| BmcTypes.CleanupNotIdempotent | BMC.hpp:48-68 | on a four-node circuit whose gate has no father, a first cleanup deactivates the gate and leaves its input with 0 fathers, and a second cleanup takes that input to -2 fathers: the source does not skip gates already deactivated |
| BmcTypes.LastMatch | BMC.cpp:294-305 | the scan of a hash bucket answers a gate whose operands are the pair in either order, and 0 exactly when no entry of the bucket matches |
| BmcTypes.HashOkExtends | BMC.cpp:294-320 | the hash table stays consistent when the node list only gains fathers or loses activation |
| BmcTypes.LastMatchIsGate | BMC.cpp:294-305 | a nonzero answer of the scan is a gate node of the unrolled circuit whose children are the two operands, in one order or the other |
| BmcTypes.WithGate | BMC.cpp:310-312 | a new gate node is appended with the two operands as children, active, and each operand's node gains a father |
| BmcTypes.WithGateOk | BMC.cpp:308-320 | filing the new gate under both operand variables keeps the hash table consistent and the children below their parents |
| BmcTypes.Sweep | BMC.hpp:49-58 | the loop of the cleanup over the nodes computes the downward sweep |
| BmcTypes.Gather | BMC.hpp:61-67 | the loop that rebuilds the gate list computes the active gates in order |
| BmcTypes.UnfoldAiger.constructor | BMC.hpp:38-40 | a new unrolled circuit has no inputs, outputs, constraints, gates, nodes or hash entries |
| BmcTypes.UnfoldAiger.CleanupFrame | BMC.hpp:48-68 | the nodes become the swept nodes, of the same length, and the gate list becomes the active gates of the swept nodes |
| BmcTypes.UnfoldAiger.NewInput | BMC.cpp:268-269 | one input node is appended and its position is recorded as an input |
| BmcTypes.UnfoldAiger.NewLeaf | BMC.cpp:374-375 | one leaf node of the given kind is appended and its position returned |
| BmcTypes.UnfoldAiger.Lookup | BMC.cpp:294-305 | the answer is the last gate of the first operand's bucket whose operands match, or 0 |
| BmcTypes.UnfoldAiger.NewGate | BMC.cpp:308-320 | a new gate node at the end, the gate appended to the gate list and filed under both operand variables |
| BmcTypes.UnfoldAiger.AddOutput | BMC.cpp:334-336 | the output is appended and its node gains a father |
| BmcTypes.UnfoldAiger.AddOutputs | BMC.cpp:333-337 | all outputs are appended in order and each node gains one father per output on it |
| BmcTypes.UnfoldAiger.AddConstraint | BMC.cpp:330 | the constraint literal is appended |
| BmcSpec.ValueNegates | BMC.cpp:6 | the value macro commutes with negation, and on a positive literal it is the variable's value |
| BmcSpec.LitNegates | BMC.cpp:6 | under any assignment a negated nonzero literal has the opposite truth value |
| BmcSpec.RespectsExtends | BMC.hpp:16-27 | an assignment that respects the gates of a grown node list respects those of the list it grew from |
| BmcSpec.FaninRule | BMC.cpp:212-260 | the rules on one operand's fan-in either answer, or recurse on a pair of operands strictly lower than that operand, which must then be a gate |
| BmcSpec.AndRule | BMC.cpp:202-262 | the rules of Aig_And never pass through; when they recurse the new pair is strictly lower than the old, so the recursion ends |
| BmcSpec.AndRuleRange | BMC.cpp:202-262 | a direct answer of the rules is 0 or a literal of an existing node of the unrolled circuit |
| BmcSpec.AigAndRange | BMC.cpp:197-262 | Aig_And answers 0 or a literal of an existing node of the unrolled circuit |
| BmcSpec.ValueLit | BMC.cpp:6 | the truth of the value of a literal is the truth of its variable's value, negated for a negative literal |
| BmcSpec.FaninMeaning | BMC.cpp:212-228 | under a run of the unrolled circuit, an operand is true exactly when both of the fan-ins Aig_And looks at are true (a leaf's second fan-in being true) |
| BmcSpec.FaninRuleSound | BMC.cpp:231-260 | the fan-in rules are sound: an answer has the truth value of the AND of the operands, and a recursion's pair has that same AND |
| BmcSpec.AndRuleSound | BMC.cpp:202-262 | the rules of Aig_And are sound: a nonzero answer is true exactly when both operands are, and a recursive pair has the same AND |
| BmcSpec.AigAndSound | BMC.cpp:197-262 | under any run of the unrolled circuit, a nonzero answer of Aig_And is true exactly when both operands are true |
| BmcSpec.MapValue | BMC.cpp:330-341 | the value macro over a list of literals keeps its length |
| BmcSpec.VarMeans | BMC.cpp:265-346 | under a run of the unrolled step, every variable's value has the truth the circuit gives that variable on the step's inputs and latches |
| BmcSpec.StepMeaning | BMC.cpp:265-346 | the same for every literal of the step |
| BmcSpec.NextMeaning | BMC.cpp:340-345 | the next-state literals of one step evaluate to the circuit's next state from that step's latches and inputs |
| BmcSpec.UnrollMeaning | BMC.cpp:392-400 | the latches of recorded step k evaluate to the circuit's state after k steps from the first step's latches, on the inputs of the trace |
| BmcSpec.OutputMeaning | BMC.cpp:333-336 | output b of recorded step k evaluates to bad b of the circuit in its k-th step from the initial latches |
| BmcSpec.AndsOkExtends | BMC.cpp:318 | the gate list stays consistent with nodes that only gain fathers or lose activation |
| BmcSpec.AdoptSound | BMC.cpp:336 | adding a father keeps the unrolled circuit consistent |
| BmcSpec.LeafSound | BMC.cpp:268 | appending a leaf keeps the unrolled circuit consistent |
| BmcSpec.GateSound | BMC.cpp:308-320 | appending a gate node, its gate and its two hash entries keeps the unrolled circuit consistent |
| BmcSpec.GatesAgreeFrame | BMC.cpp:275-327 | a step's gates keep agreeing with the run when later variables of the step change |
| BmcSpec.GateNodeMeans | BMC.cpp:294-320 | a node found by the hash scan or created for the pair is true exactly when both operands are |
| BmcSpec.GateLitAgrees | BMC.cpp:280-320 | once gate i's value is the AND of its operands, the gates agree one position further |
| BmcSpec.AgreeUnderExtends | BMC.cpp:275-327 | what a step's gates are bound to stays so when the node list only gains fathers |
| BmcSpec.FrameInputs | BMC.cpp:267-270 | the inputs of the unrolled circuit hold one block of I literals per step |
| BmcSpec.FrameOutputs | BMC.cpp:333-336 | the outputs of the unrolled circuit hold one block of one literal per bad per step |
| BmcSpec.FrameOutputAt | BMC.cpp:333-336 | output b of step k sits at position k times the number of bads plus b |
| BmcSpec.FrameInputAt | BMC.cpp:267-270 | the inputs of step k sit at positions k*I to k*I+I |
| BmcSpec.EncodedSame | BMC.cpp:418-432 | the clauses of a set of gate positions depend only on which positions below n are in it |
| BmcSpec.ConeWalkEncodes | BMC.cpp:418-432 | the downward walk only marks gate positions it passes, and the clauses it adds are exactly those of the gates it marks, in walk order |
| BmcSpec.ConeWalkInCone | BMC.cpp:418-432 | every gate the walk marks is in the cone of influence of the bad literal |
| BmcSpec.AndsOkIncreasing | BMC.cpp:308-320 | the gates of the unrolled circuit are in strictly increasing order of output |
| BmcSpec.WalkInvStep | BMC.cpp:418-432 | one step of the walk keeps its invariant whether it skips the gate or encodes it |
| BmcSpec.ConeWalkComplete | BMC.cpp:418-432 | after the walk every gate of the cone is encoded, now or in an earlier frame, and every encoded gate has its operands' gates encoded |
| BmcStep.InputNodes | BMC.cpp:267-271 | one node per input |
| BmcStep.WithInputs | BMC.cpp:267-271 | input v of the step takes the fresh node at its position and every other value stays |
| BmcStep.WithInputNodes | BMC.cpp:267-271 | the input nodes only extend the node list |
| BmcStep.InputsPartial | BMC.cpp:267-271 | after the input loop the step is ready for the gate loop, its latches unchanged and its inputs the new nodes |
| BmcStep.RuleLitRange | BMC.cpp:277-280 | the rewritten answer for gate i is 0 or a literal of an existing node |
| BmcStep.RangedBelow | BMC.cpp:277 | clearing a gate's value keeps the values below it in range |
| BmcStep.RuleLitMeans | BMC.cpp:277-280 | a nonzero rewritten answer for gate i is true exactly when both its operands are |
| BmcStep.OperandsRanged | BMC.cpp:291-292 | the operands' values of gate i are literals of existing nodes |
| BmcStep.GateUnfoldShape | BMC.cpp:277-326 | unfolding gate i gives a literal of an existing node and keeps the unrolled circuit consistent and growing |
| BmcStep.GateUnfoldPartial | BMC.cpp:277-326 | after gate i the step is unfolded one gate further |
| BmcStep.GatesFrom | BMC.cpp:275-327 | the gate loop from i leaves every gate unfolded, the circuit grown and the values below i unchanged |
| BmcStep.GateUnfoldMeans | BMC.cpp:277-326 | the value of gate i after the step is true exactly when both its operands are, whichever of rewrite, hash hit or new node gave it |
| BmcStep.GateUnfoldKeeps | BMC.cpp:277-326 | unfolding gate i keeps the gates' values bound to the nodes of the unrolled circuit |
| BmcStep.GatesFromMeans | BMC.cpp:275-327 | under any run of the grown circuit, every gate's value agrees with the AND of its operands after the gate loop |
| BmcStep.GateStepMeans | BMC.cpp:277-326 | under any run, one more gate agrees |
| BmcStep.StepGates | BMC.cpp:267-327 | the input and gate loops leave the step fully unfolded, the latches unchanged and the inputs the new nodes |
| BmcStep.MapValueRanged | BMC.cpp:330-336 | the values of in-range literals are literals of existing nodes |
| BmcStep.AdoptAllSound | BMC.cpp:333-337 | adopting the outputs keeps the unrolled circuit consistent |
| BmcStep.Latched | BMC.cpp:340-345 | the latches take the values of their next-state literals computed before any latch is written, and nothing else changes |
| BmcStep.FrameListsAppend | BMC.cpp:267-337 | recording a step appends its inputs, constraints and outputs to the lists of the unrolled circuit |
| BmcStep.FramesChain | BMC.cpp:340-345 | the recorded steps stay a chain: the latches of each step are the next state of the previous step, and the first step starts from the initial latches |
| BmcStep.FramesExtend | BMC.cpp:265-346 | the recorded steps stay bound to the unrolled circuit as it grows |
| BmcStep.ClosedGrows | BMC.cpp:318 | the encoded gates stay closed under their operands as gates are appended |
| BmcStep.UnrolledStep | BMC.cpp:265-346 | one unfold keeps the unrolling invariant with the step recorded, its inputs, constraints and outputs appended and the latches moved |
| BmcStep.LatchedRanged | BMC.cpp:340-345 | the new latch values are literals of existing nodes |
| BmcStep.FramesRecorded | BMC.cpp:265-346 | after the step, all recorded steps including the new one are bound to the grown circuit |
| BmcTranslate.TranslationOk | BMC.cpp:108-194 | a defined translation is a well-formed circuit with one value per variable |
| BmcTranslate.LoadLits | BMC.cpp:160-163 | each literal is translated from AIGER to DIMACS numbering, in order |
| BmcTranslate.Resets | BMC.cpp:379-382 | setting the reset literals keeps the number of values |
| BmcTranslate.ResetsOfInitState | BMC.cpp:377-382 | after the reset loop, a latch reset to 0 gets 1 (the constant false), a latch reset to 1 gets -1 (true), and every other variable keeps its value |
| BmcTranslate.InitialLits | BMC.cpp:377-387 | one initial literal per latch |
| BmcTranslate.UnsetStep | BMC.cpp:383-387 | the count of unset latches grows by one exactly at a latch whose reset is neither 0 nor 1 |
| BmcTranslate.InitialLitsMeaning | BMC.cpp:377-387 | under any assignment where the constant is false, a latch reset to 0 starts false, one reset to 1 starts true, and two unset latches get distinct fresh nodes |
| BmcTranslate.UnsetGrows | BMC.cpp:383-387 | a later latch left unset gets a later fresh node |
| BmcTranslate.LoadAll | BMC.cpp:108-183 | the translation succeeds exactly when its asserts hold, and then produces the DIMACS circuit with every bad or output in allbad |
| BmcEngine.Cleared | BMC.cpp:377-378 | the resized values: n of them |
| BmcEngine.InitialValues | BMC.cpp:377-387 | one value per variable |
| BmcEngine.ApplyResets | BMC.cpp:379-382 | the reset loop computes the reset values |
| BmcEngine.StepStart | BMC.cpp:267-327 | the input and gate loops on the whole state leave the step fully unfolded |
| BmcEngine.StepStartStages | BMC.cpp:267-327 | those loops are the input loop, then the gate loop |
| BmcEngine.UnrolledReady | BMC.cpp:265 | a state that keeps the unrolling invariant can be unfolded |
| BmcEngine.UnfoldStepKeeps | BMC.cpp:265-346 | unfold keeps the unrolling invariant |
| BmcEngine.UnfoldStep | BMC.cpp:265-346 | one unfold adds one frame and one output per bad, and leaves the solver's clauses, the encoded marks and the answers as they were |
| BmcEngine.SolveStepKeeps | BMC.cpp:410-445 | solve_one_frame keeps the unrolling invariant and leaves every gate of the last output's cone encoded |
| BmcEngine.EncodedHolds | BMC.cpp:418-433 | the clauses emitted for the gates the walk marks contain the three clauses of each of them |
| BmcEngine.WalkHolds | BMC.cpp:418-433 | after the cone walk, the solver's clauses hold the three clauses of every gate encoded in this walk or before |
| BmcEngine.SolveStepAsksCone | BMC.cpp:410-445 | the clauses handed to the solver hold the three clauses of every gate in the cone of the last output, and the answer recorded is the solver's on them under that output |
| BmcEngine.Round | BMC.cpp:394-396 | one round of check's loop (unfold, then solve_one_frame) adds one frame and one answer and keeps the earlier answers |
| BmcEngine.RoundKeeps | BMC.cpp:394-396 | a round keeps the unrolling invariant |
| BmcEngine.LastOutputIsLastBad | BMC.cpp:333-337 | after an unfold there are one output per bad per frame, and the last output is the last bad of the new frame |
| BmcEngine.RoundAnswer | BMC.cpp:394-396 | the answer a round appends is the solver's on clauses that hold the cone of the new frame's last output, assumed true |
| BmcEngine.IsRound | BMC.cpp:394-396 | an unfold followed by solve_one_frame is a round |
| BmcEngine.TracedRound | BMC.cpp:394-396 | an unfold and a solve_one_frame from the last state of a trace extend it by one round and its answer |
| BmcEngine.TracedExtend | BMC.cpp:394-396 | a round with the answer the solver gives extends a trace |
| BmcEngine.RanFromRound | BMC.cpp:394-396 | a round takes check's loop one step further: the trace, the answers and the frames grow by one |
| BmcEngine.RanFromDetermined | BMC.cpp:392-406 | two runs of check's loop from the same state, with the same solver and the same number of rounds, have the same trace, answers and final state |
| BmcEngine.TracedAgree | BMC.cpp:394-396 | two traces from the same state agree on their first n rounds |
| BmcEngine.TracedStepAgrees | BMC.cpp:394-396 | two traces at the same state take the same round with the same answer |
| BmcEngine.UnrolledRuns | BMC.cpp:265-346 | any assignment that respects the unrolled circuit is a run of the recorded steps |
| BmcEngine.OutputsMean | BMC.cpp:392-445 | under any run of the unrolled circuit, the inputs of each step are its trace and output b of step k is bad b of the circuit in its k-th step from the initial latches |
| BmcEngine.TraceInputs | BMC.cpp:267-270 | the inputs of each recorded step are the trace's inputs of that step |
| BmcEngine.Bmc.constructor | BMC.hpp:143-146 | the engine keeps the circuit, property index, frame bound and solver, with allbad empty and the latch buffer of 999999 entries |
| BmcEngine.Bmc.TranslateToDimacs | BMC.cpp:108-194 | succeeds exactly when the translation's asserts hold, appends the bads to allbad and leaves the DIMACS circuit in the fields |
| BmcEngine.Bmc.EncodeInitCondition | BMC.cpp:76-105 | the solver receives the constant, the reset units, the constraint units and the gates of the constraints' cone, and the answer is the solver's answer for them |
| BmcEngine.Bmc.ClearTemp | BMC.cpp:362 | every entry of the latch buffer is 0 |
| BmcEngine.Bmc.FreshLatches | BMC.cpp:383-387 | every latch left unset gets a fresh input node, in order, and the values become the initial values |
| BmcEngine.Bmc.Initialize | BMC.cpp:349-389 | succeeds exactly when the translation does, and then the engine holds a fresh unrolled circuit with NULL, the constant and a node per unset latch, the initial values, the solver with the constant's unit and frame 0 |
| BmcEngine.Bmc.TranslatedDesign | BMC.cpp:108-194 | the translated fields are the circuit's translation, well formed, with at least one bad |
| BmcEngine.Bmc.StartUnrolling | BMC.cpp:360-389 | the unrolling starts from the initial state with the invariant established |
| BmcEngine.Bmc.StartState | BMC.cpp:360-389 | the unrolled circuit, values, solver and frame counter are set to the initial state |
| BmcEngine.Bmc.StartSolver | BMC.cpp:366-368 | a fresh solver holding only the constant's unit and nothing encoded |
| BmcEngine.Bmc.StartCircuit | BMC.cpp:360-362 | a fresh unrolled circuit with the initial nodes and values and a cleared latch buffer |
| BmcEngine.Bmc.InitialLatches | BMC.cpp:374-387 | the nodes NULL, the constant and one per unset latch, and the initial values |
| BmcEngine.Bmc.InitialValid | BMC.cpp:349-389 | the initial state keeps the unrolling invariant |
| BmcEngine.Bmc.UnfoldInputs | BMC.cpp:267-271 | each input gets a fresh node, recorded as an input of the unrolled circuit |
| BmcEngine.Bmc.UnfoldGate | BMC.cpp:276-326 | gate i's value and the unrolled circuit become those of the gate step |
| BmcEngine.Bmc.UnfoldGates | BMC.cpp:275-327 | the gate loop computes the gate step over every gate |
| BmcEngine.Bmc.UnfoldConstraints | BMC.cpp:329-331 | the constraints' values are appended to the unrolled constraints |
| BmcEngine.Bmc.UnfoldOutputs | BMC.cpp:333-337 | every bad's value is appended to the outputs and its node gains a father |
| BmcEngine.Bmc.StashNexts | BMC.cpp:340-342 | the latch buffer holds the values of the next-state literals, the rest of it unchanged |
| BmcEngine.Bmc.UnfoldLatches | BMC.cpp:340-345 | the latches take the values the next-state literals had before any latch was written |
| BmcEngine.Bmc.SetLatches | BMC.cpp:343-345 | the latches are copied from the buffer |
| BmcEngine.Bmc.Unfold | BMC.cpp:265-346 | unfold is the unfold step on the whole state and keeps the unrolling invariant |
| BmcEngine.Bmc.ValidAfterUnfold | BMC.cpp:265-346 | the invariant holds after the unfold step |
| BmcEngine.Bmc.UnfoldFrame | BMC.cpp:265-346 | the loops of unfold compute the unfold step |
| BmcEngine.Bmc.UnfoldCircuit | BMC.cpp:267-327 | the input and gate loops compute the first half of the step |
| BmcEngine.Bmc.InputLoop | BMC.cpp:267-271 | the input loop computes the input stage |
| BmcEngine.Bmc.GateLoop | BMC.cpp:275-327 | the gate loop computes the gate stage |
| BmcEngine.Bmc.UnfoldEnds | BMC.cpp:329-345 | the constraint, output and latch loops compute the second half of the step |
| BmcEngine.Bmc.UnfoldLists | BMC.cpp:329-337 | constraints and outputs appended, outputs adopted and the step recorded |
| BmcEngine.Bmc.Check | BMC.cpp:392-406 | 1 exactly at the first frame k ≤ nframes whose answer is 10, with bmc_frame_k = k; 0 when none of frames 1 to nframes answers 10, with bmc_frame_k = nframes + 1. The answers are those of a run of rounds from the starting state (RanFrom): each is the solver's answer on clauses that hold the cone of its frame's last output, and the engine ends in the state the rounds reach |
| BmcEngine.Bmc.NextFrame | BMC.cpp:394-396 | one unfold and one solve_one_frame take the run of rounds one round further; the answer returned is the solver's on the new frame's cone query |
| BmcEngine.Bmc.SolveOneFrame | BMC.cpp:410-445 | the solve step on the whole state, keeping the invariant |
| BmcEngine.Bmc.SolveLastOutput | BMC.cpp:411-445 | the last output's cone is encoded, the solver asked under that output, and the answer recorded |
| BmcEngine.Bmc.Ask | BMC.cpp:435-442 | the answer is the solver's for the clauses so far under the bad literal, and ¬bad is added as a unit exactly on 20 |
| BmcEngine.Bmc.EncodeCone | BMC.cpp:414-433 | the solver receives the clauses of the cone walk from the bad literal and the encoded set becomes the walk's |

## Left out

Preconditions the source does not check:

- PdrEngine.LoadAll, PdrEngine.Pdr.LoadCircuit, PdrEngine.Pdr.TranslateToDimacs, PdrEngine.Pdr.Initialize, PdrEngine.Pdr.Start, PdrEngine.Pdr.Check, PdrEngine.Pdr.FirstIncrementalCheck: require `LiteralsInRange`, that is, every gate operand, next-state literal and constraint names a variable of the circuit. The reader never checks this (aig.cpp), and `translate_to_dimacs` indexes its tables with these literals unchecked (PDR.cpp:180-261). A file that breaks it makes the source read outside its vectors, which has no meaning to model.
- BmcTranslate.LoadAll, BmcEngine.Bmc.TranslateToDimacs, BmcEngine.Bmc.Initialize: likewise require well-formed counts. `Initialize` also requires `Unrollable`, which adds three conditions the source never checks:
  - `LiteralsInRange`;
  - every bad or output in range (`OutputsInRange`), because `unfold` reads `values` at each bad unchecked (BMC.cpp:334);
  - gate operands below their gate (`OperandsBelow`), because the recursion of `Aig_And` relies on it (BMC.cpp:236, 251); the binary format's deltas guarantee it.
  It also requires at most 999999 latches, the size of the `tempvalue` array (BMC.hpp:133).
- BmcTypes.UnfoldAiger: `hash_table` and `lit_has_insert` are resized to 99999999 entries (BMC.cpp:361, 368). The model uses a map and a set with no bound, so a circuit that outgrows those vectors is not modelled.
- Literals.AigerToDimacs, Literals.DimacsToAiger: work on unbounded integers. The source's `int` arithmetic (`lit/2 + 1`, `2*(abs(lit)-1)`, `abs(INT_MIN)`) overflows near the ends of the 32-bit range. The engines only convert literals of circuits that satisfy `Fits`, where no overflow occurs.
- Literals.And, Literals.Or: require both `lbool` values below 4. With a larger value the selector either overlaps the other operand's bits or shifts the 32-bit table by 32 or more, which is undefined behaviour in C++. The solvers only produce 0, 1 and 2.
- Aiger.ReadDigits: `result*10 + (c - '0')` overflows a signed `int` once the number reaches 2^31, which is undefined behaviour in C++ (aig.cpp:52). The model takes the two's-complement wrap modulo 2^32.
- Aiger.Decode: keeps the low 32 bits of the number read. In the source, a fifth continuation byte shifts an `unsigned` by 35 bits or more, which is undefined behaviour (aig.cpp). The model picks the wrap-around reading.

Assertions the model does not check:

- PdrEngine.Pdr.IsInductive: on the pc shortcut the source asserts that the query is unsatisfiable (PDR.cpp:411). The oracle solver cannot promise that, so the model returns true whatever the answer, as a build without assertions does.
- PdrEngine.LiftAnswer: the source asserts that the lifting query is unsatisfiable (PDR.cpp:689). The model reads the failed literals whatever the answer, for the same reason.

Semantics that are not modelled:

- PdrEngine.OrderPermutes: the heuristic `stable_sort` under the floating-point activity scores (`heuristic_Lit_CMP`, PDR.hpp:110-124, PDR.cpp:280-310) is an oracle `order(cube, epoch)`. The engine invariant assumes only that it permutes the cube, and a new epoch begins whenever the scores change. Floating point is not modelled.
- PdrSpec.ValNamesVariable: the SAT solvers are oracles. The engine assumes only that `val(v)` answers v, -v or 0, as ipasir promises. Satisfiability, failed assumptions and models are otherwise unconstrained, so no statement of the model depends on the solvers being correct.
- PdrEngine.Pdr.Extract: returns the input and latch values instead of filling a `State` given by the caller. The caller then builds the state with these values, in the same order of stamps as the source.
- PdrEngine.Pdr.CtgState: does not allocate `CTG_down`'s two `new State` objects (PDR.cpp:976-977), which are deleted unused. The source's `state_count` grows by two there and the model's `stateCount` does not. Later states get smaller stamps, but in the same relative order, and stamps are only compared (PDR.hpp:97). So the obligation order is unchanged.
- `State::clear` (PDR.hpp:80) is not modelled. It is only called on a fresh state before it is filled, and the model builds states already filled.
- PdrEngine.Pdr.Prune: the `failed_depth` pruning of `rec_block_cube` (PDR.cpp:835-849) is modelled as written but never fires. `State::failed` is never incremented (its updates at PDR.cpp:810-816 are commented out), and `failed_depth` is only written by the pruning itself, so the branch is dead code. `PdrEngine.Pdr.FailStep` derives this from the invariant `NoFailures`.
- PdrEngine.Pdr.Check, PdrEngine.Pdr.IncrementalCheck, PdrEngine.Pdr.RecBlock: the `while(true)` loops take a fuel bound, and answer Exhausted or None when it is spent. A run longer than the fuel is not modelled.
- PdrEngine.Pdr.Check: the frames before they are cleared are a ghost result, so that Safe can be stated with the frame that was left empty.
- BmcEngine.Bmc.EncodeInitCondition: the answer of the initial-state check is only printed in the source (BMC.cpp:103-104), and the solver is then dropped without being deleted (BMC.cpp:357). The model returns the answer and `Initialize` discards it.
- BmcEngine.Bmc.Check: `bmc_frame_k` is written once, when the loop ends, not at every round. Inside the loop only the progress line of `solve_one_frame` reads it (BMC.cpp:412), and output is not modelled, so only its final value is observable.
- BmcEngine.Bmc.Initialize: `initialize` is modelled for one call on a fresh engine, the only way the program calls it.
- BmcTypes.UnfoldAiger.CleanupFrame: never called by the engine. It is modelled on its own, together with `BmcTypes.CleanupNotIdempotent`.
- BmcStep.GateUnfold: `values[ands[i].o] = 0` (BMC.cpp:277) is folded into the rewrite rule. The next line overwrites it before anything reads it.
- All output (`cout`), statistics counters (`nQuery`, `nCorelen` and the like), timing, command-line handling (main.cpp), `delete` and memory management are left out.
- SatSolver.MinisatSimp.Simplify: variable elimination in the Minisat-based simplifier is an oracle. The model writes out the CNF stream of what the oracle leaves.
- BMPDR.hpp is not part of this model.

## Findings

| source | as written | input that shows it | evidently intended | confidence | as-written member | corrected member |
|---|---|---|---|---|---|---|
| PDR.cpp:496-497 | `encode_init_condition` inserts the signed operands `a.i1`, `a.i2` into `lit_set`, which holds variables, so the fan-in of a negated operand is skipped | gates 3 = 2 AND 2 and 4 = NOT 3 AND 2 with constraint 4: gate 3 is in the cone, but its clauses are not emitted | insert `abs(a.i1)` and `abs(a.i2)`, as `encode_bad_state` does at PDR.cpp:516-517 | high; not executed | Circuit.WalkSigned, Circuit.SignedWalkSkipsNegatedFanin | Circuit.Walk, Circuit.WalkIsCone |
| PDR.cpp:247 | `assert(abs(bad) <= variables.size())` admits `abs(bad) == variables.size()`, one past the table, which is the number the first primed input receives | one input and bad literal 4 (DIMACS 3, table size 3): the assert passes, and variable 3 later becomes the primed input | `abs(bad) < variables.size()` (and nonzero) | high; not executed | Circuit.BadInTableAsWritten, Circuit.BadBoundAdmitsPrimedInput | Circuit.BadInTable, Circuit.BadInTableIsUnprimed |
| PDR.cpp:387-389 | the pc shortcut runs `std::includes` with the default `<` on cubes sorted by Lit_CMP, so it can miss a sub-cube. A positive answer is still sound (`PdrSpec.IncludesSound`), so only the shortcut is lost | cube [2, -3] with pushed cube [-3]: includes answers no | `std::includes(..., Lit_CMP())` | medium; not executed | PdrSpec.Includes, PdrSpec.IncludesMissesSortedSubcube | PdrSpec.IncludesLit, PdrSpec.IncludesLitExact |

The engines follow the source as written. The PDR initial-state encoding uses the signed walk. The translation accepts the written bound. The pc shortcut uses `<`.
