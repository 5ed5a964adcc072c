# E20 simulator in Dafny

This project models the simulator `sim.py` for the E20, a 16-bit teaching
processor. The E20 has eight registers, with register 0 always zero, and 8192
memory cells. Its program counter wraps at 16 bits. Its instruction words come
in three formats, chosen by bits 15..13:

- three registers: ADD, SUB, OR, AND, SLT, JR;
- two registers and a 7-bit immediate: ADDI, LW, SW, JEQ, SLTI;
- no registers and a 13-bit target: J, JAL.

The simulator works in three stages:

1. It loads a machine-code file of lines `ram[<addr>] = 16'b<word>;`. The
   addresses must be in sequence from 0 and must fit in memory.
2. It steps from address 0.
3. It stops when a step leaves the PC where it was and the word at
   `old_pc % 8191`, shifted right by 13 bits, is exactly 0b010. Below address
   8191 this is exactly a J to itself whose word has no bits above 15. The
   loader keeps wider words, and a J to itself with bits above 15 set spins
   forever. From 8191 up (JR and JEQ can reach PCs up to 65535), any step that
   stays in place, JR, JEQ and JAL included, halts exactly when the word at
   `pc % 8191`, shifted right by 13 bits, is exactly 0b010.

Modules:

- `Bits`: Python's `&`, `|`, `^`, `<<` and `>>`, defined bit by bit. `&` and
  `>>` take any integer (a negative sum is masked by LW and SW, and a negative
  difference by SUB); `|` and `^` take naturals, which is all the source gives
  them. Lemmas say what masks and shifts compute in plain arithmetic.
- `E20Helpers`: `sign_extend_7`, `sign_number_converter`, `valid_pc` and
  `keep_16bits`, written with those operators, each with its arithmetic
  meaning. Also the meaning of the inline mask-and-shift field extractions.
- `E20Semantics`: the step and the run loop on values, in plain arithmetic.
  It follows `simulation` and the three executors branch for branch.
- `E20Properties`: what each instruction does, stated on its fields, and how
  the run loop halts.
- `E20Machine`: class `Machine`, whose `regs` and `mem` arrays the executors
  update in place, as the Python lists are. The methods use the source's masks
  and helpers, and each is proved to produce the `E20Semantics` state. `Run` is
  the loop of `main`.
- `E20Loader`: the line pattern, the address checks, and `load_machine_code`
  as a loop over an array.
- `E20Simulator`: `main`, meaning zeroed state, then load, then run, and a
  worked two-instruction program. The worked program starts from the loader's
  reading of the lines (two address and word pairs), not from their text.

Inputs and outputs:

- The file's lines are given as a sequence of strings.
- Where `main` prints the final state, the model returns a `Report`.
- The unbounded `while True` loop gets a step budget (`fuel`). Its outcome says
  whether the loop halted or the budget ran out.

## Model

| member | source | states |
|---|---|---|
| E20Helpers.FieldMasks | sim.py:77-80 | each `(instruction & mask) >> shift` of the executors is the bit range 15..13, 12..10, 9..7, 6..4, 3..0, 6..0 or 12..0 of the word |
| E20Helpers.ShiftRight13 | sim.py:207 | `x >> 13` in the halt test is floor division by 8192 |
| E20Helpers.Bit6 | sim.py:157 | `(num & 64) >> 6` is bit 6 of `num` |
| E20Helpers.SignExtend7 | sim.py:156-161 | for a 7-bit value, the value itself when bit 6 is clear, and the value plus 65408 (bits 15..7 set) when it is set |
| E20Helpers.SignNumberConverter | sim.py:165-171 | the value itself when bit 6 is clear; `num - 2^bits` when bit 6 is set and `num` fits in `bits` bits |
| E20Helpers.SignedImmediate | sim.py:165-171 | for a 7-bit immediate the converted value lies in -64..63 and is its two's-complement reading |
| E20Helpers.ValidPc | sim.py:176-177 | the result is below 65536 and congruent to the argument modulo 65536; values already in range are unchanged |
| E20Helpers.Keep16Bits | sim.py:181-183 | `num & 0xFFFF` is below 65536 and equals `num mod 65536`, negative `num` included |
| E20Helpers.Mask13 | sim.py:125 | the LW/SW address `x & 8191` is `x mod 8192`, a memory index even for a negative sum |
| E20Helpers.ImmediatesAgree | sim.py:156-171 | the sign-extended pattern is the signed immediate modulo 65536, and `keep_16bits` of the signed immediate |
| E20Semantics.Instruction3R | sim.py:76-103 | memory unchanged; JR jumps to `regs[regSrcA] mod 65536` and writes nothing; every other opcode goes to `(pc+1) mod 65536`; only regDst can change, and nothing changes when regDst is 0 or the opcode is above 4; registers stay 16-bit |
| E20Semantics.Instruction2R | sim.py:107-140 | PC is `pc+1` except for JEQ; only regDst can change, and not for SW, JEQ or regDst 0; only SW changes memory, and only the cell at the effective address, to regDst's value; registers stay 16-bit |
| E20Semantics.Instruction0R | sim.py:144-152 | memory unchanged; J and JAL go to bits 12..0; JAL sets only register 7, to `(pc+1) mod 65536`; no other selector changes anything |
| E20Semantics.Simulation | sim.py:62-72 | a step keeps eight registers and 8192 cells, keeps register 0 and 16-bit registers, and yields a PC below 65536 |
| E20Semantics.Run | sim.py:203-212 | register 0 and the register width are kept; a halted run ends on a state whose PC is below 65536 and whose word at `pc % 8191` has 0b010 above bit 12; zero fuel changes nothing |
| E20Properties.JrJumpsToRegister | sim.py:82-84 | JR jumps to regSrcA's value mod 65536 even when regDst is 0, changing no register |
| E20Properties.ThreeRegisterNoWrite | sim.py:86-88 | a three-register instruction with regDst 0, or an opcode the format does not define, changes nothing and moves to the next word |
| E20Properties.AluWritesDestination | sim.py:90-97 | ADD, SUB, OR, AND write the sum, difference, or and and of the two sources, modulo 65536, into regDst only |
| E20Properties.SltComparesUnsigned | sim.py:98-102 | SLT writes 1 exactly when regSrcA < regSrcB as unsigned values, 0 otherwise, and changes nothing else |
| E20Properties.TwoRegisterNoWrite | sim.py:113-116 | ADDI, LW and SLTI with regDst 0 change nothing and move on |
| E20Properties.SltiComparesWithExtendedImmediate | sim.py:118-123 | SLTI compares regSrc, unsigned, against the 16-bit sign-extended immediate |
| E20Properties.LwLoads | sim.py:124-127 | LW puts `mem[(regSrc + simm) mod 8192] mod 65536` into regDst and changes nothing else |
| E20Properties.SwStores | sim.py:128-131 | SW changes exactly the cell at `(regSrc + simm) mod 8192`, to regDst's value, with no register-zero guard |
| E20Properties.JeqBranches | sim.py:132-137 | JEQ goes to `(pc + 1 + simm) mod 65536` when the registers are equal and to `pc+1` otherwise, changing nothing |
| E20Properties.AddiAdds | sim.py:138-140 | ADDI writes `(regSrc + simm) mod 65536` into regDst only |
| E20Properties.JalThenJrReturns | sim.py:82-84 | after JAL, a `jr $7` at the target returns to the word after the JAL |
| E20Properties.StayingStepIsAJump | sim.py:62-152 | a step that leaves the PC in place is J, JAL, JEQ or JR and does not write memory |
| E20Properties.StayIsStable | sim.py:62-152 | a step that stays in place stays in place, with the same state, when repeated |
| E20Properties.HaltRule | sim.py:204-208 | below address 8191 the loop halts exactly on a J to its own address whose word has no bits above 15 |
| E20Properties.SelfLoopWithoutJNeverHalts | sim.py:204-208 | below 8191, a step that stays in place and whose word is not 0b010 above bit 12 with nothing higher never halts the loop, for any step budget: a JAL, JR or JEQ to itself, and a J to itself with bits above 15 set |
| E20Properties.JumpToSelfHalts | sim.py:204-208 | below 8191 a J to itself whose word has no bits above 15 halts on the first step with nothing changed |
| E20Properties.LastAddressHaltReadsCellZero | sim.py:207 | at address 8191 a J to itself halts exactly when cell 0 has 0b010 above bit 12, and otherwise spins with nothing changed |
| E20Properties.HaltRuleFromLastAddress | sim.py:204-208 | from address 8191 up, a step that stays in place (JR, JEQ and JAL included) halts exactly when the word at `pc % 8191` has 0b010 above bit 12 |
| E20Properties.JrAboveMemoryHalts | sim.py:204-208 | `jr $1` at cell 5 with register 1 holding 8197 stays at PC 8197 and halts, because cell 6 holds a J word |
| E20Properties.MoreFuelSameHalt | sim.py:203-212 | a halted run ends the same way with any larger step budget |
| E20Properties.HaltedStateIsFixedPoint | sim.py:203-212 | a halted run's final state is left unchanged by another step, which halts again |
| E20Machine.Machine.constructor | sim.py:194-195 | eight zero registers and 8192 zero cells in two fresh arrays |
| E20Machine.Machine.Instruction3R | sim.py:76-103 | updating the register array in place, with the source's masks and helpers, gives the `E20Semantics.Instruction3R` state |
| E20Machine.Machine.Instruction2R | sim.py:107-140 | updating registers and memory in place gives the `E20Semantics.Instruction2R` state |
| E20Machine.Machine.Instruction0R | sim.py:144-152 | updating register 7 in place gives the `E20Semantics.Instruction0R` state |
| E20Machine.Machine.Simulation | sim.py:62-72 | fetch and dispatch on the arrays gives the `E20Semantics.Simulation` state |
| E20Machine.Machine.Run | sim.py:203-212 | the loop on the arrays ends as `E20Semantics.Run` with the same budget does, halted or not, in that state |
| E20Loader.DigitValue | sim.py:30 | a decimal digit's value is below 10 |
| E20Loader.DigitRun | sim.py:23 | counts the digits from a position: all of them digits, followed by a non-digit or the end |
| E20Loader.DigitRunOfDigits | sim.py:23 | a digit run followed by a non-digit is counted exactly |
| E20Loader.DigitRunExactly | sim.py:23 | `n` digits then a non-digit or the end make a run of length `n` |
| E20Loader.ParseLayout | sim.py:23-31 | a line `ram[<digits>] = 16'b<0s and 1s>;<rest without line break>` reads as the decimal address and the binary word |
| E20Loader.ParsedLineHasLayout | sim.py:23-31 | every line read as an address and word has that layout, so the pattern accepts nothing else |
| E20Loader.Load | sim.py:24-37 | success takes every line; a failure names a line whose check fails, and every line before it passed |
| E20Loader.LoadSucceedsIff | sim.py:24-37 | a load succeeds exactly when line `i` reads as address `i` for every `i` and there are no more lines than cells |
| E20Loader.FirstOutOfOrderAddressFails | sim.py:32-35 | the first out-of-sequence address fails with that address, before the size check and whatever its size |
| E20Loader.OversizedProgramIsRejected | sim.py:34-35 | an in-sequence program longer than memory fails at the first address past the end |
| E20Loader.Image | sim.py:37 | memory keeps its length |
| E20Loader.LoadedImage | sim.py:36-37 | after a successful load, cell `i` holds the word of line `i` and the cells past the program are untouched |
| E20Loader.LoadMachineCode | sim.py:15-37 | the loop over an array returns the `Load` result and leaves the array as `Image`, including the words stored before a failing line |
| E20Loader.LoadStopsAt | sim.py:27-35 | once line `i` fails after a clean prefix, the whole load fails there with that error |
| E20Simulator.Simulate | sim.py:186-212 | the load fails exactly when the simulator stops before running; otherwise the final state has 8 registers, register 0 still 0, 16-bit registers, 8192 cells and a PC below 65536 |
| E20Simulator.SimulateFile | sim.py:186-212 | a fresh machine, the array loader and the array run loop give the `Simulate` report |
| E20Simulator.AddiStep | sim.py:138-140 | `addi $1, $0, 5` on zeroed registers puts 5 in register 1 and moves to address 1 |
| E20Simulator.JumpStep | sim.py:147-148 | `j 1` at address 1 changes nothing |
| E20Simulator.AddThenJumpRuns | sim.py:204-208 | those two words run the add and then halt at address 1 |
| E20Simulator.AddThenHalt | sim.py:186-212 | a file whose lines the loader reads as those two words halts at address 1 with 5 in register 1, the words in cells 0 and 1, and every other cell 0 |

## Left out

- `print_state`: formatting the final state as text. `Report` carries the PC, the registers and all of memory instead.
- Command-line parsing and file opening in `main`: the lines of the file are a parameter.
- The regular-expression engine: the single pattern the loader uses is modelled directly. `\d` is taken to be the ASCII digits 0-9. Python also accepts other Unicode decimal digits.
- The text of the `ValueError` messages: errors are the `LoadError` cases, and only `OutOfSequence` carries its address.
- E20Machine.Machine.Run: non-termination is not modelled. A step budget bounds the loop, so a program that never halts ends with its budget used up.
- Memory cells are unbounded naturals: `load_machine_code` stores `int(instr, 2)` without masking, so a word longer than 16 digits is kept whole. Registers always hold 16-bit values, since every write is masked.
- E20Machine.Machine.Instruction2R and E20Semantics.Instruction2R: require a selector this executor handles. On another selector the source falls off the end of the function and returns `None`, but `simulation` never sends one.
- Negative PCs and negative register values cannot arise, so the model uses naturals for them.
