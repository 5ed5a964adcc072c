/** The E20 machine as values, in plain arithmetic: instruction fields are bit
    ranges, immediates are signed numbers, results wrap modulo 2^16. One step
    (`simulation` and its three executors, branch for branch) returns the next
    program counter with the new register and memory lists; the run loop and its
    halt test are defined over it. The executors of module E20Machine, written
    with the masks and helpers of the simulator, are proved to compute these. */
module E20Semantics {
  import opened Bits
  import opened E20Helpers

  datatype State = State(pc: nat, regs: seq<nat>, mem: seq<nat>)

  /** Eight registers and 8192 memory cells. */
  predicate Shaped(regs: seq<nat>, mem: seq<nat>)
  {
    |regs| == NumRegs && |mem| == MemSize
  }

  /** Every register holds a 16-bit value. */
  predicate RegsIn16Bits(regs: seq<nat>)
  {
    forall i :: 0 <= i < |regs| ==> regs[i] < RegSize
  }

  // ---------------------------------------------------------------------------
  // Fields of an instruction word, as bit ranges

  /** Bits 15..13: the format selector, which is also the opcode of the
      two-register and zero-register formats. */
  function Selector(w: nat): (r: nat)
    ensures r < 8
  {
    (w / 8192) % 8
  }

  /** Bits 12..10: regSrcA (three-register format) or regSrc (two-register format). */
  function FieldA(w: nat): (r: nat)
    ensures r < 8
  {
    (w / 1024) % 8
  }

  /** Bits 9..7: regSrcB (three-register format) or regDst (two-register format). */
  function FieldB(w: nat): (r: nat)
    ensures r < 8
  {
    (w / 128) % 8
  }

  /** Bits 6..4: regDst of the three-register format. */
  function FieldC(w: nat): (r: nat)
    ensures r < 8
  {
    (w / 16) % 8
  }

  /** Bits 3..0: the three-register opcode. */
  function Opcode4(w: nat): (r: nat)
    ensures r < 16
  {
    w % 16
  }

  /** Bits 6..0: the two-register immediate. */
  function Imm7(w: nat): (r: nat)
    ensures r < 128
  {
    w % 128
  }

  /** Bits 12..0: the J/JAL target. */
  function Imm13(w: nat): (r: nat)
    ensures r < MemSize
  {
    w % MemSize
  }

  /** A 7-bit immediate read as a two's-complement number. */
  function Signed7(imm: nat): (v: int)
    requires imm < 128
  {
    if imm < 64 then imm else imm - 128
  }

  /** The same immediate widened to a 16-bit pattern. */
  function Extended7(imm: nat): (v: nat)
    requires imm < 128
  {
    if imm < 64 then imm else imm + 65408
  }

  /** The LW/SW address: regSrc plus the signed immediate, modulo the memory size. */
  function EffectiveAddress(base: nat, imm: nat): (addr: nat)
    requires imm < 128
  {
    (base + Signed7(imm)) % MemSize
  }

  // ---------------------------------------------------------------------------
  // The three executors

  /** `instruction_3R`: ADD, SUB, OR, AND, SLT and JR (opcode in bits 3..0). */
  function Instruction3R(instruction: nat, pc: nat, regs: seq<nat>, mem: seq<nat>): (s: State)
    requires |regs| == NumRegs
    ensures s.mem == mem && |s.regs| == NumRegs && s.pc < RegSize
    // JR jumps to regSrcA's value, and is checked before the register-zero guard
    ensures Opcode4(instruction) == 8 ==> s.pc == regs[FieldA(instruction)] % RegSize && s.regs == regs
    ensures Opcode4(instruction) != 8 ==> s.pc == (pc + 1) % RegSize
    // only regDst can change, and not when it is register 0 or the opcode is not an ALU one
    ensures forall r :: 0 <= r < NumRegs && r != FieldC(instruction) ==> s.regs[r] == regs[r]
    ensures FieldC(instruction) == 0 || Opcode4(instruction) > 4 ==> s.regs == regs
    ensures RegsIn16Bits(regs) ==> RegsIn16Bits(s.regs)
  {
    var regSrcA, regSrcB, regDst, opcode := FieldA(instruction), FieldB(instruction), FieldC(instruction), Opcode4(instruction);
    if opcode == 8 then
      State(regs[regSrcA] % RegSize, regs, mem)               // jr
    else if regDst == 0 || opcode > 4 then
      State((pc + 1) % RegSize, regs, mem)                    // writes to $0 are dropped; other opcodes do nothing
    else
      State((pc + 1) % RegSize, regs[regDst := AluResult(opcode, regs[regSrcA], regs[regSrcB])], mem)
  }

  /** The value ADD, SUB, OR and AND (each wrapped to 16 bits) or SLT (1 or 0) write. */
  function AluResult(opcode: nat, a: nat, b: nat): (v: nat)
    requires opcode <= 4
  {
    if opcode == 0 then (a + b) % RegSize
    else if opcode == 1 then (a - b) % RegSize
    else if opcode == 2 then Or(a, b) % RegSize
    else if opcode == 3 then And(a, b) % RegSize
    else if a < b then 1 else 0
  }

  /** The opcodes `instruction_2R` handles; on any other selector it falls off its
      end without returning a state. */
  predicate TwoRegisterOpcode(op: nat)
  {
    op == 1 || op == 4 || op == 5 || op == 6 || op == 7
  }

  /** `instruction_2R`: ADDI (001), LW (100), SW (101), JEQ (110), SLTI (111). */
  function Instruction2R(instruction: nat, pc: nat, regs: seq<nat>, mem: seq<nat>): (s: State)
    requires Shaped(regs, mem) && TwoRegisterOpcode(Selector(instruction))
    ensures Shaped(s.regs, s.mem) && s.pc < RegSize
    ensures Selector(instruction) != 6 ==> s.pc == (pc + 1) % RegSize
    // only regDst can change, and only by ADDI, LW and SLTI with regDst != 0
    ensures forall r :: 0 <= r < NumRegs && r != FieldB(instruction) ==> s.regs[r] == regs[r]
    ensures FieldB(instruction) == 0 || Selector(instruction) == 5 || Selector(instruction) == 6 ==> s.regs == regs
    // only SW changes memory, and only at the effective address
    ensures Selector(instruction) != 5 ==> s.mem == mem
    ensures Selector(instruction) == 5 ==>
      s.mem == mem[EffectiveAddress(regs[FieldA(instruction)], Imm7(instruction)) := regs[FieldB(instruction)]]
    ensures RegsIn16Bits(regs) ==> RegsIn16Bits(s.regs)
  {
    var opcode, regSrc, regDst, imm := Selector(instruction), FieldA(instruction), FieldB(instruction), Imm7(instruction);
    if regDst == 0 && (opcode == 7 || opcode == 4 || opcode == 1) then
      State((pc + 1) % RegSize, regs, mem)                 // writes to $0 are dropped
    else if opcode == 7 then                            // slti
      State((pc + 1) % RegSize, regs[regDst := if regs[regSrc] < Extended7(imm) then 1 else 0], mem)
    else if opcode == 4 then                            // lw
      var addr := EffectiveAddress(regs[regSrc], imm);
      State((pc + 1) % RegSize, regs[regDst := mem[addr] % RegSize], mem)
    else if opcode == 5 then                            // sw
      var addr := EffectiveAddress(regs[regSrc], imm);
      State((pc + 1) % RegSize, regs, mem[addr := regs[regDst]])
    else if opcode == 6 then                            // jeq
      if regs[regSrc] == regs[regDst] then
        State((pc + 1 + Signed7(imm)) % RegSize, regs, mem)
      else
        State((pc + 1) % RegSize, regs, mem)
    else                                                // addi
      State((pc + 1) % RegSize, regs[regDst := (regs[regSrc] + Signed7(imm)) % RegSize], mem)
  }

  /** `instruction_0R`: J (010) and JAL (011), with a 13-bit absolute target. */
  function Instruction0R(instruction: nat, pc: nat, regs: seq<nat>, mem: seq<nat>): (s: State)
    requires |regs| == NumRegs
    ensures s.mem == mem && |s.regs| == NumRegs && s.pc < RegSize
    ensures Selector(instruction) == 2 ==> s.pc == instruction % MemSize && s.regs == regs
    ensures Selector(instruction) == 3 ==> s.pc == instruction % MemSize && s.regs == regs[7 := (pc + 1) % RegSize]
    ensures Selector(instruction) != 2 && Selector(instruction) != 3 ==> s.pc == pc % RegSize && s.regs == regs
  {
    var opcode, imm := Selector(instruction), Imm13(instruction);
    if opcode == 2 then
      State(imm, regs, mem)                                   // j
    else if opcode == 3 then
      State(imm, regs[7 := (pc + 1) % RegSize], mem)          // jal
    else
      State(pc % RegSize, regs, mem)
  }

  // ---------------------------------------------------------------------------
  // One step

  /** The word fetched at `pc`: memory is indexed modulo its size. */
  function Fetch(pc: nat, mem: seq<nat>): (w: nat)
    requires |mem| == MemSize
  {
    mem[pc % MemSize]
  }

  /** `simulation`: fetch `memory[pc % 8192]` and dispatch on bits 15..13. */
  function Simulation(pc: nat, regs: seq<nat>, mem: seq<nat>): (s: State)
    requires Shaped(regs, mem)
    ensures Shaped(s.regs, s.mem) && s.pc < RegSize
    ensures s.regs[0] == regs[0]
    ensures RegsIn16Bits(regs) ==> RegsIn16Bits(s.regs)
  {
    var instruction := Fetch(pc, mem);
    var selector := Selector(instruction);
    if selector == 0 then
      Instruction3R(instruction, pc, regs, mem)
    else if selector == 2 || selector == 3 then
      Instruction0R(instruction, pc, regs, mem)
    else
      Instruction2R(instruction, pc, regs, mem)
  }

  // ---------------------------------------------------------------------------
  // The run loop

  /** The loop's test after stepping from `oldPc` to `s`: the PC did not move and
      the word at `oldPc % 8191` (not `% 8192`), shifted right by 13 bits without
      masking, is 0b010. */
  predicate HaltsAt(oldPc: nat, s: State)
    requires |s.mem| == MemSize
  {
    s.pc == oldPc && s.mem[oldPc % 8191] / 8192 == 2
  }

  /** How a bounded run ends: halted, with the state after the halting step, or
      still running when the step budget is used up. */
  datatype Outcome = Halted(state: State) | OutOfFuel(state: State)

  /** The `while True` loop of `main`, with at most `fuel` steps. */
  function Run(fuel: nat, pc: nat, regs: seq<nat>, mem: seq<nat>): (o: Outcome)
    requires Shaped(regs, mem)
    ensures Shaped(o.state.regs, o.state.mem) && o.state.regs[0] == regs[0]
    ensures RegsIn16Bits(regs) ==> RegsIn16Bits(o.state.regs)
    ensures pc < RegSize ==> o.state.pc < RegSize
    ensures o.Halted? ==> o.state.mem[o.state.pc % 8191] / 8192 == 2 && o.state.pc < RegSize
    ensures fuel == 0 ==> o == OutOfFuel(State(pc, regs, mem))
    decreases fuel
  {
    if fuel == 0 then
      OutOfFuel(State(pc, regs, mem))
    else
      var s := Simulation(pc, regs, mem);
      if HaltsAt(pc, s) then Halted(s) else Run(fuel - 1, s.pc, s.regs, s.mem)
  }
}
