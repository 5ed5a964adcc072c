/** `main`: zeroed registers and memory, the program loaded from the file's
    lines, then the run loop from address 0. The report is what the final
    `print_state` would be given, or the line at which loading failed. */
module E20Simulator {
  import opened E20Helpers
  import opened E20Loader
  import S = E20Semantics
  import E20Machine

  /** A load error stops the simulator before any step is taken; otherwise the run
      ends halted or with its step budget used up, in the given state. */
  datatype Report =
    | LoadFailed(at: nat, error: LoadError)
    | Final(halted: bool, pc: nat, regs: seq<nat>, mem: seq<nat>)

  /** `[0] * n`, a helper for the proofs; its ensures only spells out the comprehension. */
  function Zeros(n: nat): (z: seq<nat>)
    ensures |z| == n && forall i :: 0 <= i < n ==> z[i] == 0
  {
    seq(n, _ => 0)
  }

  /** The whole simulator on the lines of a machine-code file, with at most `fuel`
      steps of the run loop. */
  function Simulate(lines: seq<string>, fuel: nat): (r: Report)
    ensures r.LoadFailed? <==> Load(ParseAll(lines), MemSize).Failed?
    ensures r.LoadFailed? ==> r.at < |lines| && Load(ParseAll(lines), MemSize) == Failed(r.at, r.error)
    ensures r.Final? ==> |r.regs| == NumRegs && |r.mem| == MemSize && r.pc < RegSize
    ensures r.Final? ==> r.regs[0] == 0 && S.RegsIn16Bits(r.regs)
  {
    var parsed := ParseAll(lines);
    match Load(parsed, MemSize)
    case Failed(at, error) => LoadFailed(at, error)
    case Loaded(_) =>
      var regs := Zeros(NumRegs);
      var o := S.Run(fuel, 0, regs, Image(parsed, Zeros(MemSize)));
      Final(o.Halted?, o.state.pc, o.state.regs, o.state.mem)
  }

  /** `main` on a machine: allocate, load, run. */
  method SimulateFile(lines: seq<string>, fuel: nat) returns (report: Report)
    ensures report == Simulate(lines, fuel)
  {
    var m := new E20Machine.Machine();
    assert m.mem[..] == Zeros(MemSize);
    var loaded := LoadMachineCode(lines, m.mem);
    if loaded.Failed? {
      return LoadFailed(loaded.at, loaded.error);
    }
    assert m.regs[..] == Zeros(NumRegs);
    var halted, pc := m.Run(0, fuel);
    report := Final(halted, pc, m.regs[..], m.mem[..]);
  }

  /** `addi $1, $0, 5` (word 8325): register 1 becomes 5 and the PC moves on. */
  lemma AddiStep(mem: seq<nat>)
    requires |mem| == MemSize && mem[0] == 8325
    ensures S.Simulation(0, Zeros(NumRegs), mem) == S.State(1, [0, 5, 0, 0, 0, 0, 0, 0], mem)
  {
    var regs := Zeros(NumRegs);
    assert S.Selector(8325) == 1 && S.FieldA(8325) == 0 && S.FieldB(8325) == 1 && S.Imm7(8325) == 5;
    assert S.Simulation(0, regs, mem) == S.Instruction2R(8325, 0, regs, mem);
    assert regs[1 := 5] == [0, 5, 0, 0, 0, 0, 0, 0];
  }

  /** `j 1` (word 16385) at address 1 changes nothing. */
  lemma JumpStep(regs: seq<nat>, mem: seq<nat>)
    requires S.Shaped(regs, mem) && mem[1] == 16385
    ensures S.Simulation(1, regs, mem) == S.State(1, regs, mem)
  {
    assert S.Selector(16385) == 2 && 16385 % MemSize == 1;
    assert S.Simulation(1, regs, mem) == S.Instruction0R(16385, 1, regs, mem);
  }

  /** From address 0 the two words run the add, then halt on the jump to itself. */
  lemma AddThenJumpRuns(mem: seq<nat>)
    requires |mem| == MemSize && mem[0] == 8325 && mem[1] == 16385
    ensures S.Run(2, 0, Zeros(NumRegs), mem) == S.Halted(S.State(1, [0, 5, 0, 0, 0, 0, 0, 0], mem))
  {
    AddiStep(mem);
    var regs1 := [0, 5, 0, 0, 0, 0, 0, 0];
    assert !S.HaltsAt(0, S.State(1, regs1, mem));
    JumpStep(regs1, mem);
    assert S.HaltsAt(1, S.State(1, regs1, mem));
  }

  /** A file whose two lines the loader reads as `addi $1, $0, 5` at address 0 and
      `j 1` at address 1 halts at address 1 with 5 in register 1, the two words in
      cells 0 and 1 and every other cell still 0. */
  lemma AddThenHalt(lines: seq<string>)
    requires ParseAll(lines) == [Word(0, 8325), Word(1, 16385)]
    ensures var r := Simulate(lines, 2);
      r.Final? && r.halted && r.pc == 1 && r.regs == [0, 5, 0, 0, 0, 0, 0, 0] &&
      r.mem[0] == 8325 && r.mem[1] == 16385 && forall j :: 2 <= j < MemSize ==> r.mem[j] == 0
  {
    var parsed := ParseAll(lines);
    LoadSucceedsIff(parsed, MemSize);
    LoadedImage(parsed, Zeros(MemSize));
    AddThenJumpRuns(Image(parsed, Zeros(MemSize)));
  }
}
