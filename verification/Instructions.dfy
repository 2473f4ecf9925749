/** Fetching and decoding of VM instructions. */
module Instructions {
  import opened Model
  import opened Codec

  const OP_NOP: byte := 0x00
  const OP_MLOAD3D: byte := 0x10
  const OP_MSTORE3D: byte := 0x11
  const OP_MALLOC3D: byte := 0x12
  const OP_MFREE3D: byte := 0x13
  const OP_MCOPY3D: byte := 0x14
  const OP_MSIZE3D: byte := 0x15
  const OP_MOV3D: byte := 0x30
  const OP_ADD3D: byte := 0x31
  const OP_SUB3D: byte := 0x32
  const OP_HALT3D: byte := 0xFF

  datatype OperandType = OT_REGISTER | OT_ADDRESS | OT_SIZE | OT_FLAGS

  /** The dynamic type of an operand's value. */
  datatype Value =
    | VAddress(address: Address)
    | VSize(size: nat)
    | VRegister(register: nat)
    | VRegionType(kind: nat)
    | VFlags(flags: nat)

  datatype Operand = Operand(ty: OperandType, value: Value)

  datatype Instruction = Instruction(opcode: byte, operands: seq<Operand>, size: nat)

  function Reg(b: byte): Operand { Operand(OT_REGISTER, VRegister(b as nat)) }

  function Addr(x: nat, y: nat, z: nat): Operand { Operand(OT_ADDRESS, VAddress(Address(x, y, z))) }

  function Size(n: nat): Operand { Operand(OT_SIZE, VSize(n)) }

  /** `DecodeInstruction` on one instruction's bytes; `None` is an error. */
  function Decode(data: seq<byte>): Option<Instruction> {
    if |data| < 1 then None
    else if data[0] == OP_NOP then Some(Instruction(OP_NOP, [], 1))
    else if data[0] == OP_HALT3D then Some(Instruction(OP_HALT3D, [], 1))
    else if data[0] == OP_ADD3D || data[0] == OP_SUB3D then
      if |data| != 4 then None
      else Some(Instruction(data[0], [Reg(data[1]), Reg(data[2]), Reg(data[3])], 4))
    else if data[0] == OP_MOV3D then
      if |data| != 8 then None
      else Some(Instruction(OP_MOV3D, [Reg(data[1]), Reg(data[2])], 8))
    else if data[0] == OP_MALLOC3D then
      if |data| != 14 then None
      else Some(Instruction(OP_MALLOC3D,
                  [Size(Get(data[1..5])), Operand(OT_FLAGS, VRegionType(data[5] as nat)),
                   Operand(OT_FLAGS, VFlags(data[6] as nat))], 14))
    else if data[0] == OP_MFREE3D then
      if |data| != 15 then None
      else Some(Instruction(OP_MFREE3D, [Addr(Get(data[1..9]), Get(data[9..13]), Get(data[13..15]))], 15))
    else if data[0] == OP_MSIZE3D then
      if |data| != 16 then None
      else Some(Instruction(OP_MSIZE3D,
                  [Addr(Get(data[1..9]), Get(data[9..13]), Get(data[13..15])), Reg(data[15])], 16))
    else if data[0] == OP_MLOAD3D then
      if |data| != 20 then None
      else Some(Instruction(OP_MLOAD3D,
                  [Addr(Get(data[1..9]), Get(data[9..13]), Get(data[13..15])), Size(Get(data[15..19])),
                    Reg(data[19])], 20))
    else if data[0] == OP_MSTORE3D then
      if |data| != 20 then None
      else Some(Instruction(OP_MSTORE3D,
                  [Addr(Get(data[1..9]), Get(data[9..13]), Get(data[13..15])), Reg(data[15]),
                    Size(Get(data[16..20]))], 20))
    else if data[0] == OP_MCOPY3D then
      if |data| != 20 then None
      else Some(Instruction(OP_MCOPY3D,
                  [Addr(Get(data[1..9]), Get(data[9..11]), Get(data[11..13])),
                   Addr(Get(data[13..17]), Get(data[17..19]), 0), Size(data[19] as nat)], 20))
    else None
  }

  /** The size table of `fetchInstruction`. */
  function FetchSize(opcode: byte): (n: nat)
    ensures n >= 1
  {
    if opcode == OP_MLOAD3D || opcode == OP_MSTORE3D || opcode == OP_MCOPY3D then 20
    else if opcode == OP_MALLOC3D then 14
    else if opcode == OP_MFREE3D then 15
    else if opcode == OP_MSIZE3D then 16
    else if opcode == OP_MOV3D then 8
    else if opcode == OP_ADD3D || opcode == OP_SUB3D then 4
    else 1
  }

  /** `fetchInstruction` at `pc`. */
  function Fetch(program: seq<byte>, pc: nat): Option<Instruction> {
    if pc >= |program| then None
    else
      var n := FetchSize(program[pc]);
      if n > |program| - pc then None else Decode(program[pc..pc + n])
  }

  /** Operands in number and type as the opcode's handler wants them. */
  predicate WellTyped(inst: Instruction) {
    var ops, op := inst.operands, inst.opcode;
    if op == OP_NOP || op == OP_HALT3D then ops == []
    else if op == OP_ADD3D || op == OP_SUB3D then
      |ops| == 3 && ops[0].value.VRegister? && ops[1].value.VRegister? && ops[2].value.VRegister?
    else if op == OP_MOV3D then |ops| == 2 && ops[0].value.VRegister? && ops[1].value.VRegister?
    else if op == OP_MALLOC3D then
      |ops| == 3 && ops[0].value.VSize? && ops[0].value.size < U32 && ops[1].value.VRegionType? && ops[2].value.VFlags?
    else if op == OP_MFREE3D then |ops| == 1 && ops[0].value.VAddress?
    else if op == OP_MSIZE3D then |ops| == 2 && ops[0].value.VAddress? && ops[1].value.VRegister?
    else if op == OP_MLOAD3D then
      |ops| == 3 && ops[0].value.VAddress? && ops[1].value.VSize? && ops[1].value.size < U32 && ops[2].value.VRegister?
    else if op == OP_MSTORE3D then
      |ops| == 3 && ops[0].value.VAddress? && ops[1].value.VRegister? && ops[2].value.VSize? && ops[2].value.size < U32
    else if op == OP_MCOPY3D then
      |ops| == 3 && ops[0].value.VAddress? && ops[1].value.VAddress? && ops[2].value.VSize? && ops[2].value.size < U32
    else false
  }

  ghost predicate AddressesInRange(inst: Instruction) {
    forall i | 0 <= i < |inst.operands| && inst.operands[i].value.VAddress? ::
      inst.operands[i].value.address.x < U64 && inst.operands[i].value.address.y < U32
      && inst.operands[i].value.address.z < 0x1_0000
  }

  lemma {:induction false} GetWidths(s: seq<byte>)
    ensures |s| <= 2 ==> Get(s) < 0x1_0000
    ensures |s| <= 4 ==> Get(s) < U32
    ensures |s| <= 8 ==> Get(s) < U64
  {
    GetBound(s);
    PowMono(|s|, 2);
    PowMono(|s|, 4);
    PowMono(|s|, 8);
    assert Pow256(2) == 0x1_0000;
    assert Pow256(4) == 0x1_0000 * Pow256(2);
    assert Pow256(6) == 0x1_0000 * Pow256(4);
    assert Pow256(8) == 0x1_0000 * Pow256(6);
  }

  lemma {:induction false} PowMono(m: nat, n: nat)
    ensures m <= n ==> Pow256(m) <= Pow256(n)
    decreases n
  {
    if m < n {
      PowMono(m, n - 1);
    }
  }

  /** Whatever is fetched lies inside the program, takes exactly the bytes the size table says,
      and has the operands its handler wants, so the handlers' operand errors never occur. */
  lemma {:induction false} FetchedIsWellTyped(program: seq<byte>, pc: nat)
    requires Fetch(program, pc).Some?
    ensures var inst := Fetch(program, pc).value;
      && pc < |program| && inst.opcode == program[pc] && inst.size == FetchSize(program[pc])
      && pc + inst.size <= |program|
      && WellTyped(inst) && AddressesInRange(inst)
  {
    var n := FetchSize(program[pc]);
    var data := program[pc..pc + n];
    if n >= 14 {
      GetWidths(data[1..5]);
      GetWidths(data[1..9]);
      GetWidths(data[9..13]);
      GetWidths(data[9..11]);
      GetWidths(data[11..13]);
    }
    if n >= 15 { GetWidths(data[13..15]); }
    if n == 20 {
      GetWidths(data[15..19]);
      GetWidths(data[16..20]);
      GetWidths(data[13..17]);
      GetWidths(data[17..19]);
    }
  }

  /** Appending bytes does not change what is fetched before them. */
  lemma {:induction false} FetchBefore(p: seq<byte>, q: seq<byte>, pc: nat)
    requires Fetch(p, pc).Some?
    ensures Fetch(p + q, pc) == Fetch(p, pc)
  {
    var n := FetchSize(p[pc]);
    assert (p + q)[pc..pc + n] == p[pc..pc + n];
  }

  /** Prepending bytes only shifts the position. */
  lemma {:induction false} FetchAfter(p: seq<byte>, q: seq<byte>, pc: nat)
    ensures Fetch(p + q, |p| + pc) == Fetch(q, pc)
  {
    if pc < |q| {
      var n := FetchSize(q[pc]);
      if n <= |q| - pc {
        assert (p + q)[|p| + pc..|p| + pc + n] == q[pc..pc + n];
      }
    }
  }
}
