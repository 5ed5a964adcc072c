/** What each instruction does, stated on the instruction word's fields, and the
    halting behaviour of the run loop. */
module E20Properties {
  import opened Bits
  import opened E20Helpers
  import opened E20Semantics

  // ---------------------------------------------------------------------------
  // Three-register format

  /** JR jumps to the value of regSrcA, whatever regDst is, and writes nothing. */
  lemma JrJumpsToRegister(instruction: nat, pc: nat, regs: seq<nat>, mem: seq<nat>)
    requires |regs| == NumRegs && Opcode4(instruction) == 8
    ensures Instruction3R(instruction, pc, regs, mem) == State(regs[FieldA(instruction)] % RegSize, regs, mem)
  {
  }

  /** An ALU opcode whose destination is register 0, or an opcode the format does
      not define, changes nothing and moves to the next word. */
  lemma ThreeRegisterNoWrite(instruction: nat, pc: nat, regs: seq<nat>, mem: seq<nat>)
    requires |regs| == NumRegs && Opcode4(instruction) != 8
    requires FieldC(instruction) == 0 || Opcode4(instruction) > 4
    ensures Instruction3R(instruction, pc, regs, mem) == State((pc + 1) % RegSize, regs, mem)
  {
  }

  /** ADD, SUB, OR and AND write the 16-bit wrapped result into regDst and nothing else. */
  lemma AluWritesDestination(instruction: nat, pc: nat, regs: seq<nat>, mem: seq<nat>)
    requires |regs| == NumRegs && FieldC(instruction) != 0 && Opcode4(instruction) <= 3
    ensures var a, b, d := regs[FieldA(instruction)], regs[FieldB(instruction)], FieldC(instruction);
      var result :=
        match Opcode4(instruction)
        case 0 => a + b
        case 1 => a - b
        case 2 => Or(a, b)
        case 3 => And(a, b);
      Instruction3R(instruction, pc, regs, mem) == State((pc + 1) % RegSize, regs[d := result % RegSize], mem)
  {
  }

  /** SLT writes 1 into regDst when regSrcA < regSrcB and 0 otherwise. */
  lemma SltComparesUnsigned(instruction: nat, pc: nat, regs: seq<nat>, mem: seq<nat>)
    requires |regs| == NumRegs && FieldC(instruction) != 0 && Opcode4(instruction) == 4
    ensures var s := Instruction3R(instruction, pc, regs, mem);
      s.pc == (pc + 1) % RegSize && s.mem == mem &&
      (forall r :: 0 <= r < NumRegs && r != FieldC(instruction) ==> s.regs[r] == regs[r]) &&
      (s.regs[FieldC(instruction)] == 1 <==> regs[FieldA(instruction)] < regs[FieldB(instruction)]) &&
      (s.regs[FieldC(instruction)] == 0 <==> regs[FieldA(instruction)] >= regs[FieldB(instruction)])
  {
  }

  // ---------------------------------------------------------------------------
  // Two-register format

  /** ADDI, LW and SLTI with register 0 as destination change nothing. */
  lemma TwoRegisterNoWrite(instruction: nat, pc: nat, regs: seq<nat>, mem: seq<nat>)
    requires Shaped(regs, mem) && FieldB(instruction) == 0
    requires Selector(instruction) == 1 || Selector(instruction) == 4 || Selector(instruction) == 7
    ensures Instruction2R(instruction, pc, regs, mem) == State((pc + 1) % RegSize, regs, mem)
  {
  }

  /** SLTI compares regSrc, unsigned, with the 16-bit pattern of the sign-extended immediate. */
  lemma SltiComparesWithExtendedImmediate(instruction: nat, pc: nat, regs: seq<nat>, mem: seq<nat>)
    requires Shaped(regs, mem) && FieldB(instruction) != 0 && Selector(instruction) == 7
    ensures var src, d := regs[FieldA(instruction)], FieldB(instruction);
      Instruction2R(instruction, pc, regs, mem) ==
        State((pc + 1) % RegSize, regs[d := if src < Extended7(Imm7(instruction)) then 1 else 0], mem)
  {
  }

  /** LW loads the word at `(regSrc + simm) mod 8192`, cut to 16 bits, into regDst. */
  lemma LwLoads(instruction: nat, pc: nat, regs: seq<nat>, mem: seq<nat>)
    requires Shaped(regs, mem) && FieldB(instruction) != 0 && Selector(instruction) == 4
    ensures var src, d, simm := regs[FieldA(instruction)], FieldB(instruction), Signed7(Imm7(instruction));
      Instruction2R(instruction, pc, regs, mem) ==
        State((pc + 1) % RegSize, regs[d := mem[(src + simm) % MemSize] % RegSize], mem)
  {
  }

  /** SW stores regDst at `(regSrc + simm) mod 8192`; register 0 may be the value stored. */
  lemma SwStores(instruction: nat, pc: nat, regs: seq<nat>, mem: seq<nat>)
    requires Shaped(regs, mem) && Selector(instruction) == 5
    ensures var src, dst, simm := regs[FieldA(instruction)], regs[FieldB(instruction)], Signed7(Imm7(instruction));
      Instruction2R(instruction, pc, regs, mem) ==
        State((pc + 1) % RegSize, regs, mem[(src + simm) % MemSize := dst])
  {
  }

  /** JEQ branches by the signed immediate, relative to the next word, when the two
      registers are equal. */
  lemma JeqBranches(instruction: nat, pc: nat, regs: seq<nat>, mem: seq<nat>)
    requires Shaped(regs, mem) && Selector(instruction) == 6
    ensures var src, dst, simm := regs[FieldA(instruction)], regs[FieldB(instruction)], Signed7(Imm7(instruction));
      Instruction2R(instruction, pc, regs, mem) ==
        State(if src == dst then (pc + 1 + simm) % RegSize else (pc + 1) % RegSize, regs, mem)
  {
  }

  /** ADDI writes `(regSrc + simm) mod 65536` into regDst. */
  lemma AddiAdds(instruction: nat, pc: nat, regs: seq<nat>, mem: seq<nat>)
    requires Shaped(regs, mem) && FieldB(instruction) != 0 && Selector(instruction) == 1
    ensures var src, d, simm := regs[FieldA(instruction)], FieldB(instruction), Signed7(Imm7(instruction));
      Instruction2R(instruction, pc, regs, mem) ==
        State((pc + 1) % RegSize, regs[d := (src + simm) % RegSize], mem)
  {
  }

  // ---------------------------------------------------------------------------
  // Steps and the run loop

  /** JAL links the next address into register 7, and a JR through register 7 at
      the target returns there. */
  lemma {:induction false} JalThenJrReturns(pc: nat, regs: seq<nat>, mem: seq<nat>)
    requires Shaped(regs, mem)
    requires Selector(Fetch(pc, mem)) == 3
    requires var target := Fetch(pc, mem) % MemSize;
      Selector(mem[target]) == 0 && Opcode4(mem[target]) == 8 && FieldA(mem[target]) == 7
    ensures var s := Simulation(pc, regs, mem);
      s.pc == Fetch(pc, mem) % MemSize && s.regs[7] == (pc + 1) % RegSize &&
      Simulation(s.pc, s.regs, s.mem).pc == (pc + 1) % RegSize
  {
    var w := Fetch(pc, mem);
    var s := Simulation(pc, regs, mem);
    assert s == Instruction0R(w, pc, regs, mem);
    assert s.pc % MemSize == s.pc;
    assert Simulation(s.pc, s.regs, s.mem) == Instruction3R(mem[s.pc], s.pc, s.regs, s.mem);
  }

  /** A step that leaves the PC where it was is J, JAL, JEQ or JR, and changes no memory. */
  lemma StayingStepIsAJump(pc: nat, regs: seq<nat>, mem: seq<nat>)
    requires Shaped(regs, mem) && Simulation(pc, regs, mem).pc == pc
    ensures Simulation(pc, regs, mem).mem == mem
    ensures var w := Fetch(pc, mem);
      Selector(w) == 2 || Selector(w) == 3 || Selector(w) == 6 || (Selector(w) == 0 && Opcode4(w) == 8)
  {
    var w := Fetch(pc, mem);
    assert (pc + 1) % RegSize != pc;
    var sel := Selector(w);
    if sel == 0 {
      assert Opcode4(w) == 8;
    } else if sel != 2 && sel != 3 {
      assert Simulation(pc, regs, mem) == Instruction2R(w, pc, regs, mem);
      assert sel == 6;
    }
  }

  /** A step that stays put stays put again from the state it produces: only JAL
      changes anything, register 7, and J and JAL do not read registers. */
  lemma StayIsStable(pc: nat, regs: seq<nat>, mem: seq<nat>)
    requires Shaped(regs, mem) && Simulation(pc, regs, mem).pc == pc
    ensures var s := Simulation(pc, regs, mem);
      s.mem == mem && Simulation(pc, s.regs, mem).pc == pc && Simulation(pc, s.regs, mem).mem == mem &&
      Simulation(pc, s.regs, mem).regs == s.regs
  {
    StayingStepIsAJump(pc, regs, mem);
    var w := Fetch(pc, mem);
    var s := Simulation(pc, regs, mem);
    var sel := Selector(w);
    if sel == 3 {
      assert s.regs == regs[7 := (pc + 1) % RegSize];
    } else if sel == 6 {
      assert s == Instruction2R(w, pc, regs, mem);
      assert s.regs == regs;
    } else if sel == 0 {
      assert s.regs == regs;
    }
  }

  /** Below address 8191 the halt test reads the word that was executed, so the loop
      stops exactly on a J whose target is its own address. */
  lemma HaltRule(pc: nat, regs: seq<nat>, mem: seq<nat>)
    requires Shaped(regs, mem) && pc < 8191
    ensures HaltsAt(pc, Simulation(pc, regs, mem)) <==> mem[pc] / 8192 == 2 && mem[pc] % MemSize == pc
  {
    var s := Simulation(pc, regs, mem);
    assert pc % 8191 == pc && pc % MemSize == pc;
    if HaltsAt(pc, s) {
      StayingStepIsAJump(pc, regs, mem);
      assert Selector(mem[pc]) == 2;
    }
    if mem[pc] / 8192 == 2 {
      assert Selector(mem[pc]) == 2;
    }
  }

  /** Below address 8191, a step that stays put never halts the loop, however many
      steps are allowed, unless its word is 0b010 above bit 12 with nothing higher:
      a JAL, JR or JEQ to itself runs forever, and so does a J to itself whose
      word has bits set above bit 15. */
  lemma {:induction false} SelfLoopWithoutJNeverHalts(fuel: nat, pc: nat, regs: seq<nat>, mem: seq<nat>)
    requires Shaped(regs, mem) && pc < 8191
    requires Simulation(pc, regs, mem).pc == pc && mem[pc] / 8192 != 2
    ensures Run(fuel, pc, regs, mem).OutOfFuel?
    decreases fuel
  {
    if fuel > 0 {
      var s := Simulation(pc, regs, mem);
      HaltRule(pc, regs, mem);
      assert !HaltsAt(pc, s);
      StayIsStable(pc, regs, mem);
      SelfLoopWithoutJNeverHalts(fuel - 1, pc, s.regs, s.mem);
    }
  }

  /** A J to its own address below 8191 halts on the first step, with nothing changed. */
  lemma JumpToSelfHalts(fuel: nat, pc: nat, regs: seq<nat>, mem: seq<nat>)
    requires Shaped(regs, mem) && pc < 8191 && fuel > 0
    requires mem[pc] / 8192 == 2 && mem[pc] % MemSize == pc
    ensures Run(fuel, pc, regs, mem) == Halted(State(pc, regs, mem))
  {
    HaltRule(pc, regs, mem);
    assert Selector(mem[pc]) == 2;
  }

  /** At address 8191 the halt test reads cell 0 instead of the executed word: a J
      to itself there halts exactly when the word in cell 0 has 0b010 above bit 12,
      and otherwise spins with nothing changed until the step budget runs out. */
  lemma {:induction false} LastAddressHaltReadsCellZero(fuel: nat, regs: seq<nat>, mem: seq<nat>)
    requires Shaped(regs, mem)
    requires Selector(mem[8191]) == 2 && mem[8191] % MemSize == 8191
    ensures fuel > 0 ==> (Run(fuel, 8191, regs, mem).Halted? <==> mem[0] / 8192 == 2)
    ensures mem[0] / 8192 != 2 ==> Run(fuel, 8191, regs, mem) == OutOfFuel(State(8191, regs, mem))
    decreases fuel
  {
    if fuel > 0 {
      var s := Simulation(8191, regs, mem);
      assert s == Instruction0R(mem[8191], 8191, regs, mem);
      assert s == State(8191, regs, mem);
      if mem[0] / 8192 != 2 {
        LastAddressHaltReadsCellZero(fuel - 1, regs, mem);
      }
    }
  }

  /** From address 8191 up, the halt test no longer reads the executed word: any
      step that stays in place, a JR or JEQ included, halts exactly when the word
      at `pc % 8191` has 0b010 above bit 12. */
  lemma HaltRuleFromLastAddress(pc: nat, regs: seq<nat>, mem: seq<nat>)
    requires Shaped(regs, mem) && 8191 <= pc && Simulation(pc, regs, mem).pc == pc
    ensures HaltsAt(pc, Simulation(pc, regs, mem)) <==> mem[pc % 8191] / 8192 == 2
  {
    StayingStepIsAJump(pc, regs, mem);
  }

  /** An instance above memory: `jr $1` at cell 5 with register 1 holding 8197
      stays at PC 8197, and halts because cell 8197 % 8191 = 6 holds a J word. */
  lemma JrAboveMemoryHalts(regs: seq<nat>, mem: seq<nat>)
    requires Shaped(regs, mem) && regs[1] == 8197 && mem[5] == 1032 && mem[6] == 16384
    ensures Run(1, 8197, regs, mem).Halted?
  {
    assert 8197 % MemSize == 5 && Opcode4(1032) == 8 && FieldA(1032) == 1 && Selector(1032) == 0;
    assert Simulation(8197, regs, mem) == Instruction3R(1032, 8197, regs, mem);
    HaltRuleFromLastAddress(8197, regs, mem);
  }

  /** More fuel does not change how a halted run ends. */
  lemma {:induction false} MoreFuelSameHalt(fuel: nat, more: nat, pc: nat, regs: seq<nat>, mem: seq<nat>)
    requires Shaped(regs, mem) && fuel <= more && Run(fuel, pc, regs, mem).Halted?
    ensures Run(more, pc, regs, mem) == Run(fuel, pc, regs, mem)
    decreases fuel
  {
    var s := Simulation(pc, regs, mem);
    if !HaltsAt(pc, s) {
      MoreFuelSameHalt(fuel - 1, more - 1, s.pc, s.regs, s.mem);
    }
  }

  /** The state a run halts in is one the halting step would leave unchanged again. */
  lemma {:induction false} HaltedStateIsFixedPoint(fuel: nat, pc: nat, regs: seq<nat>, mem: seq<nat>)
    requires Shaped(regs, mem) && Run(fuel, pc, regs, mem).Halted?
    ensures var f := Run(fuel, pc, regs, mem).state;
      Simulation(f.pc, f.regs, f.mem) == f && HaltsAt(f.pc, Simulation(f.pc, f.regs, f.mem))
    decreases fuel
  {
    var s := Simulation(pc, regs, mem);
    if HaltsAt(pc, s) {
      StayIsStable(pc, regs, mem);
    } else {
      HaltedStateIsFixedPoint(fuel - 1, s.pc, s.regs, s.mem);
    }
  }
}
