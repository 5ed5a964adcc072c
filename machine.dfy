/** The simulator's executors as they are written: the register list and the
    memory list are arrays that the executors update in place, each executor
    returns the next program counter, and instruction fields are taken apart with
    the same masks and shifts. Each method is proved to compute the arithmetic
    step of module E20Semantics. */
module E20Machine {
  import opened Bits
  import opened E20Helpers
  import S = E20Semantics
  import P = E20Properties

  class Machine {
    var regs: array<nat>
    var mem: array<nat>

    /** Eight registers holding 16-bit values and 8192 memory cells, in two
        distinct arrays. */
    ghost predicate Valid()
      reads this, regs
    {
      regs.Length == NumRegs && mem.Length == MemSize && regs != mem &&
      S.RegsIn16Bits(regs[..])
    }

    /** `[0] * NUM_REGS` and `[0] * MEM_SIZE`. */
    constructor()
      ensures Valid() && fresh(regs) && fresh(mem)
      ensures regs[..] == seq(NumRegs, _ => 0) && mem[..] == seq(MemSize, _ => 0)
    {
      regs := new nat[NumRegs](_ => 0);
      mem := new nat[MemSize](_ => 0);
    }

    /** `instruction_3R`: ADD, SUB, OR, AND, SLT and JR. */
    method Instruction3R(instruction: nat, pc: nat) returns (next: nat)
      requires Valid()
      modifies regs
      ensures Valid()
      ensures S.State(next, regs[..], mem[..]) == S.Instruction3R(instruction, pc, old(regs[..]), old(mem[..]))
    {
      FieldMasks(instruction);
      var regSrcA := Shr(And(instruction, 7168), 10);
      var regSrcB := Shr(And(instruction, 896), 7);
      var regDst := Shr(And(instruction, 112), 4);
      var opcode := And(instruction, 15);

      if opcode == 8 {                      // jr
        return ValidPc(regs[regSrcA]);
      }
      if regDst == 0 {                      // writes to $0 are dropped
        return ValidPc(pc + 1);
      }
      var a, b := regs[regSrcA], regs[regSrcB];
      if opcode == 0 {
        regs[regDst] := Keep16Bits(a + b);
      } else if opcode == 1 {
        regs[regDst] := Keep16Bits(a as int - b);
      } else if opcode == 2 {
        regs[regDst] := Keep16Bits(Or(a, b));
      } else if opcode == 3 {
        regs[regDst] := Keep16Bits(And(a, b));
      } else if opcode == 4 {
        regs[regDst] := if a < b then 1 else 0;
      }
      next := ValidPc(pc + 1);
    }

    /** `instruction_2R`: ADDI, LW, SW, JEQ and SLTI. It is entered only with
        these selectors; on any other it would fall off its end. */
    method Instruction2R(instruction: nat, pc: nat) returns (next: nat)
      requires Valid() && S.TwoRegisterOpcode(S.Selector(instruction))
      modifies regs, mem
      ensures Valid()
      ensures S.State(next, regs[..], mem[..]) == S.Instruction2R(instruction, pc, old(regs[..]), old(mem[..]))
    {
      FieldMasks(instruction);
      var opcode := Shr(And(instruction, 57344), 13);
      var regSrc := Shr(And(instruction, 7168), 10);
      var regDst := Shr(And(instruction, 896), 7);
      var imm := And(instruction, 127);
      SignedImmediate(imm);
      assert SignNumberConverter(imm, 7) == S.Signed7(imm) && SignExtend7(imm) == S.Extended7(imm);

      ghost var regs0, mem0 := regs[..], mem[..];
      if regDst == 0 && (opcode == 7 || opcode == 4 || opcode == 1) {
        P.TwoRegisterNoWrite(instruction, pc, regs0, mem0);
        return ValidPc(pc + 1);             // writes to $0 are dropped
      }
      if opcode == 7 {                      // slti
        P.SltiComparesWithExtendedImmediate(instruction, pc, regs0, mem0);
        regs[regDst] := if regs[regSrc] < SignExtend7(imm) then 1 else 0;
        next := ValidPc(pc + 1);
      } else if opcode == 4 {               // lw
        P.LwLoads(instruction, pc, regs0, mem0);
        var val := Mask13(regs[regSrc] + SignNumberConverter(imm, 7));
        regs[regDst] := Keep16Bits(mem[val]);
        next := ValidPc(pc + 1);
      } else if opcode == 5 {               // sw
        P.SwStores(instruction, pc, regs0, mem0);
        var val := Mask13(regs[regSrc] + SignNumberConverter(imm, 7));
        mem[val] := regs[regDst];
        next := ValidPc(pc + 1);
      } else if opcode == 6 {               // jeq
        P.JeqBranches(instruction, pc, regs0, mem0);
        if regs[regSrc] == regs[regDst] {
          next := ValidPc(pc + 1 + SignNumberConverter(imm, 7));
        } else {
          next := ValidPc(pc + 1);
        }
      } else {                              // addi
        P.AddiAdds(instruction, pc, regs0, mem0);
        regs[regDst] := Keep16Bits(regs[regSrc] + SignNumberConverter(imm, 7));
        next := ValidPc(pc + 1);
      }
    }

    /** `instruction_0R`: J and JAL. */
    method Instruction0R(instruction: nat, pc: nat) returns (next: nat)
      requires Valid()
      modifies regs
      ensures Valid()
      ensures S.State(next, regs[..], mem[..]) == S.Instruction0R(instruction, pc, old(regs[..]), old(mem[..]))
    {
      FieldMasks(instruction);
      var opcode := Shr(And(instruction, 57344), 13);
      var imm := Mask13(instruction);
      var target := pc;
      if opcode == 2 {                      // j
        target := imm;
      } else if opcode == 3 {               // jal
        regs[7] := Keep16Bits(pc + 1);
        target := imm;
      }
      next := ValidPc(target);
    }

    /** `simulation`: fetch `memory[pc % 8192]` and dispatch on bits 15..13. */
    method Simulation(pc: nat) returns (next: nat)
      requires Valid()
      modifies regs, mem
      ensures Valid()
      ensures S.State(next, regs[..], mem[..]) == S.Simulation(pc, old(regs[..]), old(mem[..]))
    {
      var instruction := mem[pc % 8192];
      FieldMasks(instruction);
      var selector := Shr(And(instruction, 57344), 13);
      if selector == 0 {
        next := Instruction3R(instruction, pc);
      } else if selector == 2 || selector == 3 {
        next := Instruction0R(instruction, pc);
      } else {
        next := Instruction2R(instruction, pc);
      }
    }

    /** The `while True` loop of `main`, allowed at most `fuel` steps: step, and
        stop when the PC did not move and `memory[old_pc % 8191] >> 13` is 0b010.
        Returns whether it halted and the PC it ended on. */
    method Run(start: nat, fuel: nat) returns (halted: bool, pc: nat)
      requires Valid()
      modifies regs, mem
      ensures Valid()
      ensures var o := S.Run(fuel, start, old(regs[..]), old(mem[..]));
        halted == o.Halted? && S.State(pc, regs[..], mem[..]) == o.state
    {
      ghost var outcome := S.Run(fuel, start, regs[..], mem[..]);
      var oldPc := start;
      var steps := 0;
      while steps < fuel
        invariant Valid() && steps <= fuel
        invariant outcome == S.Run(fuel - steps, oldPc, regs[..], mem[..])
        decreases fuel - steps
      {
        ghost var regs0, mem0 := regs[..], mem[..];
        var newPc := Simulation(oldPc);
        ghost var s := S.State(newPc, regs[..], mem[..]);
        assert outcome == if S.HaltsAt(oldPc, s) then S.Halted(s) else S.Run(fuel - steps - 1, newPc, s.regs, s.mem);
        ShiftRight13(mem[oldPc % 8191]);
        if newPc == oldPc && Shr(mem[oldPc % 8191], 13) == 2 {
          return true, newPc;
        }
        oldPc := newPc;
        steps := steps + 1;
      }
      return false, oldPc;
    }
  }
}
