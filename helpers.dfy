/** The arithmetic helpers of the E20 simulator, written with the bitwise
    operators the source uses, each with what it computes in plain arithmetic;
    and the meaning of the mask-and-shift field extractions the executors do
    inline. */
module E20Helpers {
  import opened Bits

  const NumRegs: nat := 8
  const MemSize: nat := 8192    // 2^13
  const RegSize: nat := 65536   // 2^16

  lemma PowersUsed()
    ensures Pow2(1) == 2 && Pow2(3) == 8 && Pow2(4) == 16 && Pow2(6) == 64
    ensures Pow2(7) == 128 && Pow2(10) == 1024 && Pow2(13) == 8192 && Pow2(16) == 65536
    ensures Shl(7, 13) == 57344 && Shl(7, 10) == 7168 && Shl(7, 7) == 896 && Shl(7, 4) == 112
    ensures Shl(1, 6) == 64
  {
  }

  /** Each `(instruction & mask) >> shift` of the executors selects a bit range of
      the word: bits 15..13, 12..10, 9..7, 6..4, 3..0, 6..0 and 12..0. */
  lemma FieldMasks(instruction: nat)
    ensures Shr(And(instruction, 57344), 13) == (instruction / 8192) % 8
    ensures Shr(And(instruction, 7168), 10) == (instruction / 1024) % 8
    ensures Shr(And(instruction, 896), 7) == (instruction / 128) % 8
    ensures Shr(And(instruction, 112), 4) == (instruction / 16) % 8
    ensures And(instruction, 15) == instruction % 16
    ensures And(instruction, 127) == instruction % 128
    ensures And(instruction, 8191) == instruction % 8192
  {
    PowersUsed();
    MaskedField(instruction, 3, 13);
    MaskedField(instruction, 3, 10);
    MaskedField(instruction, 3, 7);
    MaskedField(instruction, 3, 4);
    AndLowMask(instruction, 4);
    AndLowMask(instruction, 7);
    AndLowMask(instruction, 13);
  }

  /** `x >> 13`, as in the run loop's halt test, is division by 8192. */
  lemma ShiftRight13(x: int)
    ensures Shr(x, 13) == x / 8192
  {
    ShrIsDiv(x, 13);
    assert Pow2(13) == 8192;
  }

  /** `(num & 64) >> 6`, the bit both immediate helpers test. */
  function Bit6(num: nat): (r: nat)
    ensures r == (num / 64) % 2
  {
    PowersUsed();
    MaskedField(num, 1, 6);
    Shr(And(num, 64), 6)
  }

  /** `sign_extend_7`: a 7-bit two's-complement immediate widened to a 16-bit
      pattern, bits 15..7 copying bit 6. */
  function SignExtend7(num: nat): (r: nat)
    ensures num < 128 ==> r == if num < 64 then num else num + 65408
  {
    var leftMostBit := Bit6(num);
    if leftMostBit == 1 then
      PowersUsed();
      OrDisjoint(511, num, 7);
      Or(65408, num)
    else
      num
  }

  /** `sign_number_converter`: the signed value of an immediate whose sign is
      bit 6, complemented within `bits` bits. */
  function SignNumberConverter(num: nat, bits: nat): (r: int)
    ensures Bit6(num) == 0 ==> r == num
    ensures Bit6(num) == 1 && num < Pow2(bits) ==> r == num - Pow2(bits)
  {
    var leftMostBit := Bit6(num);
    if leftMostBit == 1 then
      var bitmask := Pow2(bits) - 1;
      XorAllOnes(num, bits);
      -(Xor(num, bitmask) + 1)
    else
      num
  }

  /** For a 7-bit immediate, `sign_number_converter(imm, 7)` is the two's-complement
      value: the immediate itself below 64, and 128 less from 64 on. */
  lemma SignedImmediate(imm: nat)
    requires imm < 128
    ensures var simm := SignNumberConverter(imm, 7);
      -64 <= simm < 64 && simm == if imm < 64 then imm else imm - 128
  {
    PowersUsed();
  }

  /** `valid_pc`: the program counter wraps at 16 bits. */
  function ValidPc(pc: int): (r: nat)
    ensures r < 65536 && (pc - r) % 65536 == 0
    ensures 0 <= pc < 65536 ==> r == pc
  {
    pc % 65536
  }

  /** `keep_16bits`: `num & 0xFFFF`, which for every integer, negative ones
      included, is the value reduced modulo 65536. */
  function Keep16Bits(num: int): (r: nat)
    ensures r < 65536 && r == num % 65536
  {
    PowersUsed();
    AndLowMask(num, 16);
    And(num, 65535)
  }

  /** `x & 8191` for any integer: the LW/SW effective address is always a memory
      index, even when the sum is negative. */
  function Mask13(x: int): (r: nat)
    ensures r < 8192 && r == x % 8192
  {
    PowersUsed();
    AndLowMask(x, 13);
    And(x, 8191)
  }

  /** The signed 7-bit immediate and its 16-bit extension denote the same value
      modulo 65536. */
  lemma ImmediatesAgree(imm: nat)
    requires imm < 128
    ensures SignNumberConverter(imm, 7) % 65536 == SignExtend7(imm)
    ensures Keep16Bits(SignNumberConverter(imm, 7)) == SignExtend7(imm)
  {
    SignedImmediate(imm);
    var simm, ext := SignNumberConverter(imm, 7), SignExtend7(imm);
    if imm < 64 {
      assert simm == imm && ext == imm;
    } else {
      assert simm == imm - 128 && ext == imm + 65408;
      assert simm + 65536 == ext;
    }
  }
}
