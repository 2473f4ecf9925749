/** The instruction set from the outside: an assembler with the byte layout, the price and the
    meaning of each of the eleven instructions written down independently of decoder, price table
    and handlers, and proofs that the VM agrees with it. */
module Assembly {
  import opened Model
  import opened Codec
  import opened Instructions
  import opened Vm
  import opened Execution

  datatype Op =
    | NopOp
    | HaltOp
    | AddOp(dest: nat, first: nat, second: nat)
    | SubOp(dest: nat, first: nat, second: nat)
    | MovOp(dest: nat, source: nat)
    | LoadOp(addr: Address, size: nat, dest: nat)
    | StoreOp(addr: Address, source: nat, size: nat)
    | AllocOp(size: nat, kind: nat, flags: nat)
    | FreeOp(addr: Address)
    | CopyOp(from: Address, to: Address, size: nat)
    | SizeOp(addr: Address, dest: nat)

  /** An address in the full width of 14 bytes. */
  predicate Wide(a: Address) {
    a.x < 0x1_0000_0000_0000_0000 && a.y < 0x1_0000_0000 && a.z < 0x1_0000
  }

  /** The operands fit their fields. A copy has 16 bits for both planes, 32 bits for the target's
      region, no offset for the target and one byte for its size. */
  predicate Fits(op: Op) {
    match op
    case NopOp => true
    case HaltOp => true
    case AddOp(d, s, t) => d < 256 && s < 256 && t < 256
    case SubOp(d, s, t) => d < 256 && s < 256 && t < 256
    case MovOp(d, s) => d < 256 && s < 256
    case LoadOp(a, n, d) => Wide(a) && n < 0x1_0000_0000 && d < 256
    case StoreOp(a, s, n) => Wide(a) && n < 0x1_0000_0000 && s < 256
    case AllocOp(n, k, f) => n < 0x1_0000_0000 && k < 256 && f < 256
    case FreeOp(a) => Wide(a)
    case CopyOp(a, b, n) => Wide(a) && a.y < 0x1_0000 && b.x < 0x1_0000_0000 && b.y < 0x1_0000 && b.z == 0 && n < 256
    case SizeOp(a, d) => Wide(a) && d < 256
  }

  /** The bytes of an instruction. */
  function Assemble(op: Op): seq<byte>
    requires Fits(op)
  {
    match op
    case NopOp => [0x00]
    case HaltOp => [0xFF]
    case AddOp(d, s, t) => [0x31, d as byte, s as byte, t as byte]
    case SubOp(d, s, t) => [0x32, d as byte, s as byte, t as byte]
    case MovOp(d, s) => [0x30, d as byte, s as byte, 0, 0, 0, 0, 0]
    case LoadOp(a, n, d) => [0x10] + Bytes(a) + Put(n, 4) + [d as byte]
    case StoreOp(a, s, n) => [0x11] + Bytes(a) + [s as byte] + Put(n, 4)
    case AllocOp(n, k, f) => [0x12] + Put(n, 4) + [k as byte, f as byte, 0, 0, 0, 0, 0, 0, 0]
    case FreeOp(a) => [0x13] + Bytes(a)
    case CopyOp(a, b, n) => [0x14] + Put(a.x, 8) + Put(a.y, 2) + Put(a.z, 2) + Put(b.x, 4) + Put(b.y, 2) + [n as byte]
    case SizeOp(a, d) => [0x15] + Bytes(a) + [d as byte]
  }

  /** How many bytes carry meaning; the rest is padding. */
  function Fields(op: Op): nat {
    match op
    case MovOp(_, _) => 3
    case AllocOp(_, _, _) => 7
    case NopOp => 1
    case HaltOp => 1
    case AddOp(_, _, _) => 4
    case SubOp(_, _, _) => 4
    case FreeOp(_) => 15
    case SizeOp(_, _) => 16
    case _ => 20
  }

  /** What the decoder makes of it. */
  function Decoded(op: Op): Instruction
    requires Fits(op)
  {
    match op
    case NopOp => Instruction(OP_NOP, [], 1)
    case HaltOp => Instruction(OP_HALT3D, [], 1)
    case AddOp(d, s, t) => Instruction(OP_ADD3D, [Reg(d as byte), Reg(s as byte), Reg(t as byte)], 4)
    case SubOp(d, s, t) => Instruction(OP_SUB3D, [Reg(d as byte), Reg(s as byte), Reg(t as byte)], 4)
    case MovOp(d, s) => Instruction(OP_MOV3D, [Reg(d as byte), Reg(s as byte)], 8)
    case LoadOp(a, n, d) => Instruction(OP_MLOAD3D, [Addr(a.x, a.y, a.z), Size(n), Reg(d as byte)], 20)
    case StoreOp(a, s, n) => Instruction(OP_MSTORE3D, [Addr(a.x, a.y, a.z), Reg(s as byte), Size(n)], 20)
    case AllocOp(n, k, f) =>
      Instruction(OP_MALLOC3D, [Size(n), Operand(OT_FLAGS, VRegionType(k)), Operand(OT_FLAGS, VFlags(f))], 14)
    case FreeOp(a) => Instruction(OP_MFREE3D, [Addr(a.x, a.y, a.z)], 15)
    case CopyOp(a, b, n) => Instruction(OP_MCOPY3D, [Addr(a.x, a.y, a.z), Addr(b.x, b.y, b.z), Size(n)], 20)
    case SizeOp(a, d) => Instruction(OP_MSIZE3D, [Addr(a.x, a.y, a.z), Reg(d as byte)], 16)
  }

  // ------------------------------------------------------------------- decoding assembly

  lemma {:induction false} Powers()
    ensures Pow256(1) == 256 && Pow256(2) == 0x1_0000 && Pow256(4) == 0x1_0000_0000
    ensures Pow256(8) == 0x1_0000_0000_0000_0000
  {
    assert Pow256(2) == 256 * Pow256(1) == 256 * 256;
    assert Pow256(4) == 0x1_0000 * Pow256(2);
    assert Pow256(6) == 0x1_0000 * Pow256(4);
    assert Pow256(8) == 0x1_0000 * Pow256(6);
  }

  lemma {:induction false} WideBytes(a: Address)
    requires Wide(a)
    ensures var s := Bytes(a); Get(s[0..8]) == a.x && Get(s[8..12]) == a.y && Get(s[12..14]) == a.z
  {
    hide Put, Get, Pow256;
    Powers();
    var s := Bytes(a);
    assert s[0..8] == Put(a.x, 8) && s[8..12] == Put(a.y, 4) && s[12..14] == Put(a.z, 2);
    GetPut(a.x, 8);
    GetPut(a.y, 4);
    GetPut(a.z, 2);
  }

  /** An address that starts at byte 1. */
  lemma {:induction false} AddressField(data: seq<byte>, a: Address)
    requires Wide(a) && |data| >= 15 && data[1..15] == Bytes(a)
    ensures Addr(Get(data[1..9]), Get(data[9..13]), Get(data[13..15])) == Addr(a.x, a.y, a.z)
  {
    hide Bytes, Get;
    WideBytes(a);
    SliceOfSlice(data, 1, 15, 0, 8);
    SliceOfSlice(data, 1, 15, 8, 12);
    SliceOfSlice(data, 1, 15, 12, 14);
  }

  lemma {:induction false} SliceOfSlice(data: seq<byte>, a: nat, b: nat, c: nat, d: nat)
    requires a <= b <= |data| && c <= d <= b - a
    ensures data[a..b][c..d] == data[a + c..a + d]
  {
    var inner, direct := data[a..b][c..d], data[a + c..a + d];
    forall i | 0 <= i < d - c ensures inner[i] == direct[i] {
      assert inner[i] == data[a..b][c + i];
    }
  }

  lemma {:induction false} SizeField(n: nat, s: seq<byte>)
    requires n < 0x1_0000_0000 && s == Put(n, 4)
    ensures Get(s) == n
  {
    hide Put, Get, Pow256;
    Powers();
    GetPut(n, 4);
  }

  lemma {:induction false} DecodesMemory(op: Op)
    requires Fits(op) && (op.LoadOp? || op.StoreOp? || op.FreeOp? || op.SizeOp?)
    ensures Decode(Assemble(op)) == Some(Decoded(op))
  {
    hide Bytes, Get, Put;
    var data := Assemble(op);
    assert data[1..15] == Bytes(op.addr);
    AddressField(data, op.addr);
    if op.LoadOp? {
      assert data[15..19] == Put(op.size, 4);
      SizeField(op.size, data[15..19]);
    } else if op.StoreOp? {
      assert data[16..20] == Put(op.size, 4);
      SizeField(op.size, data[16..20]);
    }
  }

  lemma {:induction false} DecodesCopy(op: Op)
    requires Fits(op) && op.CopyOp?
    ensures Decode(Assemble(op)) == Some(Decoded(op))
  {
    hide Get, Put, Pow256;
    var data, a, b := Assemble(op), op.from, op.to;
    Powers();
    assert data[1..9] == Put(a.x, 8) && data[9..11] == Put(a.y, 2) && data[11..13] == Put(a.z, 2);
    assert data[13..17] == Put(b.x, 4) && data[17..19] == Put(b.y, 2) && data[19] == op.size as byte;
    GetPut(a.x, 8);
    GetPut(a.y, 2);
    GetPut(a.z, 2);
    GetPut(b.x, 4);
    GetPut(b.y, 2);
  }

  /** `code` is the assembly of `op`, with anything in the padding. */
  predicate Encodes(code: seq<byte>, op: Op)
    requires Fits(op)
  {
    |code| == |Assemble(op)| && Fields(op) <= |code| && code[..Fields(op)] == Assemble(op)[..Fields(op)]
  }

  lemma {:induction false} AssemblyEncodes(op: Op)
    requires Fits(op)
    ensures Encodes(Assemble(op), op)
  {
    hide Bytes, Put;
  }

  lemma {:induction false} DecodesRest(code: seq<byte>, op: Op)
    requires Fits(op) && !op.CopyOp? && !op.LoadOp? && !op.StoreOp? && !op.FreeOp? && !op.SizeOp?
    requires Encodes(code, op)
    ensures Decode(code) == Some(Decoded(op))
  {
    hide Get, Put;
    var data, n := Assemble(op), Fields(op);
    assert forall i | 0 <= i < n :: code[i] == code[..n][i] == data[i];
    if op.AllocOp? {
      assert code[1..5] == Put(op.size, 4);
      SizeField(op.size, code[1..5]);
    }
  }

  lemma {:induction false} WithoutPadding(code: seq<byte>, op: Op)
    requires Fits(op) && Encodes(code, op) && !op.MovOp? && !op.AllocOp?
    ensures code == Assemble(op)
  {
    hide Bytes, Put, Fits;
    var data := Assemble(op);
    assert |data| == Fields(op);
    assert code[..|code|] == code && data[..|data|] == data;
  }

  lemma {:induction false} Decodes(code: seq<byte>, op: Op)
    requires Fits(op) && Encodes(code, op)
    ensures Decode(code) == Some(Decoded(op))
  {
    hide *;
    if op.CopyOp? {
      WithoutPadding(code, op);
      DecodesCopy(op);
    } else if op.LoadOp? || op.StoreOp? || op.FreeOp? || op.SizeOp? {
      WithoutPadding(code, op);
      DecodesMemory(op);
    } else {
      DecodesRest(code, op);
    }
  }

  lemma {:induction false} SizeOfAssembled(code: seq<byte>, op: Op)
    requires Fits(op) && Encodes(code, op)
    ensures |code| == Decoded(op).size > 0 && FetchSize(code[0]) == |code|
  {
    hide Bytes, Put;
    assert code[0] == code[..Fields(op)][0] == Assemble(op)[0];
  }

  /** Every instruction of the set, in every range of its fields and with anything in its padding,
      is fetched as it was assembled, whatever stands around it. */
  lemma {:induction false} FetchOfAssembled(before: seq<byte>, code: seq<byte>, op: Op, rest: seq<byte>)
    requires Fits(op) && Encodes(code, op)
    ensures Fetch(before + code + rest, |before|) == Some(Decoded(op)) && |code| == Decoded(op).size
  {
    hide Decode, Decoded, Fits, Encodes, FetchSize;
    Decodes(code, op);
    SizeOfAssembled(code, op);
    var program := before + code + rest;
    assert program[|before|..|before| + |code|] == code;
    assert program[|before|] == code[0];
  }

  // ------------------------------------------------------------- everything is assembled

  lemma {:induction false} FieldAddress(data: seq<byte>) returns (a: Address)
    requires |data| >= 15
    ensures a == Address(Get(data[1..9]), Get(data[9..13]), Get(data[13..15]))
    ensures Wide(a) && Bytes(a) == data[1..15]
  {
    hide Put, Get, Pow256;
    Powers();
    a := Address(Get(data[1..9]), Get(data[9..13]), Get(data[13..15]));
    GetBound(data[1..9]);
    GetBound(data[9..13]);
    GetBound(data[13..15]);
    PutGet(data[1..9]);
    PutGet(data[9..13]);
    PutGet(data[13..15]);
    assert data[1..15] == data[1..9] + data[9..13] + data[13..15];
  }

  lemma {:induction false} FieldSize(s: seq<byte>)
    requires |s| == 4
    ensures Get(s) < 0x1_0000_0000 && Put(Get(s), 4) == s
  {
    hide Put, Get, Pow256;
    Powers();
    GetBound(s);
    PutGet(s);
  }

  lemma {:induction false} AssembledMemory(data: seq<byte>) returns (op: Op)
    requires Decode(data).Some? && data[0] in {OP_MLOAD3D, OP_MSTORE3D, OP_MFREE3D, OP_MSIZE3D}
    ensures Fits(op) && Decoded(op) == Decode(data).value && Assemble(op) == data && Fields(op) == |data|
  {
    hide Put, Get, Bytes;
    var a := FieldAddress(data);
    if data[0] == OP_MLOAD3D {
      FieldSize(data[15..19]);
      op := LoadOp(a, Get(data[15..19]), data[19] as nat);
      assert data == [data[0]] + data[1..15] + data[15..19] + [data[19]];
    } else if data[0] == OP_MSTORE3D {
      FieldSize(data[16..20]);
      op := StoreOp(a, data[15] as nat, Get(data[16..20]));
      assert data == [data[0]] + data[1..15] + [data[15]] + data[16..20];
    } else if data[0] == OP_MFREE3D {
      op := FreeOp(a);
      assert data == [data[0]] + data[1..15];
    } else {
      op := SizeOp(a, data[15] as nat);
      assert data == [data[0]] + data[1..15] + [data[15]];
    }
  }

  lemma {:induction false} AssembledCopy(data: seq<byte>) returns (op: Op)
    requires Decode(data).Some? && data[0] == OP_MCOPY3D
    ensures Fits(op) && Decoded(op) == Decode(data).value && Assemble(op) == data && Fields(op) == |data|
  {
    hide Put, Get, Pow256;
    Powers();
    GetBound(data[1..9]);
    GetBound(data[9..11]);
    GetBound(data[11..13]);
    GetBound(data[13..17]);
    GetBound(data[17..19]);
    PutGet(data[1..9]);
    PutGet(data[9..11]);
    PutGet(data[11..13]);
    PutGet(data[13..17]);
    PutGet(data[17..19]);
    op := CopyOp(Address(Get(data[1..9]), Get(data[9..11]), Get(data[11..13])),
                 Address(Get(data[13..17]), Get(data[17..19]), 0), data[19] as nat);
    assert data == [data[0]] + data[1..9] + data[9..11] + data[11..13] + data[13..17] + data[17..19] + [data[19]];
  }

  lemma {:induction false} AssembledRest(data: seq<byte>) returns (op: Op)
    requires Decode(data).Some? && data[0] !in {OP_MLOAD3D, OP_MSTORE3D, OP_MFREE3D, OP_MSIZE3D, OP_MCOPY3D}
    requires |data| == FetchSize(data[0])
    ensures Fits(op) && Decoded(op) == Decode(data).value && Encodes(data, op)
  {
    hide Put, Get;
    if data[0] == OP_NOP {
      op := NopOp;
    } else if data[0] == OP_HALT3D {
      op := HaltOp;
    } else if data[0] == OP_ADD3D {
      op := AddOp(data[1] as nat, data[2] as nat, data[3] as nat);
    } else if data[0] == OP_SUB3D {
      op := SubOp(data[1] as nat, data[2] as nat, data[3] as nat);
    } else if data[0] == OP_MOV3D {
      op := MovOp(data[1] as nat, data[2] as nat);
    } else {
      FieldSize(data[1..5]);
      op := AllocOp(Get(data[1..5]), data[5] as nat, data[6] as nat);
      assert data[..7] == [data[0]] + data[1..5] + [data[5], data[6]];
    }
  }

  /** Nothing else is ever fetched: whatever the bytes, a fetched instruction is the assembly of
      one operation, and the bytes are that assembly up to padding. */
  lemma {:induction false} FetchedIsAssembled(program: seq<byte>, pc: nat) returns (op: Op)
    requires Fetch(program, pc).Some?
    ensures Fits(op) && Fetch(program, pc) == Some(Decoded(op))
    ensures pc + |Assemble(op)| <= |program| && Encodes(program[pc..pc + |Assemble(op)|], op)
  {
    hide Decode, Decoded, Fits, Assemble, Fields;
    var n := FetchSize(program[pc]);
    var data := program[pc..pc + n];
    if data[0] in {OP_MLOAD3D, OP_MSTORE3D, OP_MFREE3D, OP_MSIZE3D} {
      op := AssembledMemory(data);
    } else if data[0] == OP_MCOPY3D {
      op := AssembledCopy(data);
    } else {
      op := AssembledRest(data);
    }
  }

  /** An instruction is fetched exactly where one is encoded in full; a program is rejected at every
      other position. */
  lemma {:induction false} FetchesIff(program: seq<byte>, pc: nat)
    ensures Fetch(program, pc).Some?
       <==> exists op: Op :: Fits(op) && pc + |Assemble(op)| <= |program|
                             && Encodes(program[pc..pc + |Assemble(op)|], op)
  {
    hide Decode, Decoded, Fits, Assemble, Encodes;
    if Fetch(program, pc).Some? {
      var op := FetchedIsAssembled(program, pc);
    }
    if op: Op :| Fits(op) && pc + |Assemble(op)| <= |program| && Encodes(program[pc..pc + |Assemble(op)|], op) {
      var n := pc + |Assemble(op)|;
      FetchOfAssembled(program[..pc], program[pc..n], op, program[n..]);
      assert program == program[..pc] + program[pc..n] + program[n..];
    }
  }

  // -------------------------------------------------------------------------------- gas

  /** The price of the instruction at `pc`, read off its bytes. */
  function BytePrice(program: seq<byte>, pc: nat): nat
    requires pc < |program| && pc + FetchSize(program[pc]) <= |program|
  {
    var op := program[pc];
    if op == 0x10 then 10 + 2 * Get(program[pc + 15..pc + 19])
    else if op == 0x11 then 15 + 2 * Get(program[pc + 16..pc + 20])
    else if op == 0x12 then 20 + 2 * Get(program[pc + 1..pc + 5])
    else if op == 0x13 then 5
    else if op == 0x14 then 25 + 2 * program[pc + 19] as nat
    else if op == 0x15 then 5
    else if op == 0x30 then 2
    else if op == 0x31 || op == 0x32 then 3
    else 1
  }

  lemma {:induction false} SizeCosts(a: Operand, b: Operand, c: Operand)
    ensures SizeCost([]) == 0 && SizeCost([a]) == SizeCost([]) + OneCost(a)
    ensures SizeCost([a, b]) == OneCost(a) + OneCost(b)
    ensures SizeCost([a, b, c]) == OneCost(a) + OneCost(b) + OneCost(c)
  {
    assert [a][..0] == [] && [a, b][..1] == [a] && [a, b, c][..2] == [a, b];
  }

  /** Two units per byte of a size operand. */
  function OneCost(o: Operand): nat {
    if o.ty == OT_SIZE && o.value.VSize? then 2 * o.value.size else 0
  }

  lemma {:induction false} CostByArity(inst: Instruction)
    requires |inst.operands| <= 3
    ensures var v := inst.operands;
      GasCost(inst) == BaseCost(inst.opcode) + (if |v| > 0 then OneCost(v[0]) else 0)
                       + (if |v| > 1 then OneCost(v[1]) else 0) + (if |v| > 2 then OneCost(v[2]) else 0)
  {
    hide SizeCost;
    var v := inst.operands;
    var o := Size(0);
    if v == [] { SizeCosts(o, o, o); }
    if |v| == 1 { SizeCosts(v[0], o, o); assert v == [v[0]]; }
    if |v| == 2 { SizeCosts(v[0], v[1], o); assert v == [v[0], v[1]]; }
    if |v| == 3 { SizeCosts(v[0], v[1], v[2]); assert v == [v[0], v[1], v[2]]; }
  }

  /** The price of every instruction, in numbers and bytes. */
  lemma {:induction false} PriceOnBytes(program: seq<byte>, pc: nat)
    requires Fetch(program, pc).Some?
    ensures pc < |program| && pc + FetchSize(program[pc]) <= |program|
    ensures GasCost(Fetch(program, pc).value) == BytePrice(program, pc)
  {
    hide Get, GasCost, SizeCost;
    var n := FetchSize(program[pc]);
    var data, inst := program[pc..pc + n], Fetch(program, pc).value;
    CostByArity(inst);
    if n == 20 {
      SliceOfSlice(program, pc, pc + n, 15, 19);
      SliceOfSlice(program, pc, pc + n, 16, 20);
    } else if n == 14 {
      SliceOfSlice(program, pc, pc + n, 1, 5);
    }
  }

  /** An instruction is refused exactly when less than its price is left, and then takes nothing;
      otherwise it takes exactly its price. */
  lemma {:induction false} ChargedByBytes(m: Machine, on: bool, program: seq<byte>, pc: nat, hints: nat -> nat)
    requires m.alloc.planeSize > 0 && Fetch(program, pc).Some?
    ensures pc < |program| && pc + FetchSize(program[pc]) <= |program|
    ensures var r, price := Turn(m, on, Fetch(program, pc).value, hints), BytePrice(program, pc);
      && (m.remaining < price ==> r.status == Error && r.m == m.(executed := m.executed + 1))
      && (m.remaining >= price ==> r.m.remaining == m.remaining - price && r.m.used == (m.used + price) % U64 < U64)
  {
    hide Fetch, GasCost, BytePrice, Dispatch;
    PriceOnBytes(program, pc);
    TurnCounts(m, on, Fetch(program, pc).value, hints);
  }

  /** The positions of the instructions that are paid for, in order. */
  ghost function PaidAt(m: Machine, on: bool, program: seq<byte>, pc: nat, hints: nat -> nat): (at: seq<nat>)
    requires m.alloc.planeSize > 0
    ensures forall i | 0 <= i < |at| :: at[i] < |program| && at[i] + FetchSize(program[at[i]]) <= |program|
    decreases |program| - pc
  {
    match Fetch(program, pc)
    case None => []
    case Some(inst) =>
      FetchedIsWellTyped(program, pc);
      PriceOnBytes(program, pc);
      if m.remaining < BytePrice(program, pc) then []
      else
        var r := Turn(m, on, inst, hints);
        [pc] + (if Stop(r).None? then PaidAt(r.m, on, program, pc + inst.size, hints) else [])
  }

  function PriceSum(program: seq<byte>, at: seq<nat>): nat
    requires forall i | 0 <= i < |at| :: at[i] < |program| && at[i] + FetchSize(program[at[i]]) <= |program|
  {
    if at == [] then 0 else BytePrice(program, at[0]) + PriceSum(program, at[1..])
  }

  ghost predicate Readable(program: seq<byte>, at: seq<nat>) {
    forall i | 0 <= i < |at| :: at[i] < |program| && at[i] + FetchSize(program[at[i]]) <= |program|
  }

  lemma {:induction false} PaidAtPass(
    m: Machine, on: bool, program: seq<byte>, pc: nat, hints: nat -> nat, inst: Instruction, r: Result)
    requires m.alloc.planeSize > 0 && Fetch(program, pc) == Some(inst) && r == Turn(m, on, inst, hints)
    ensures pc < |program| && pc + FetchSize(program[pc]) <= |program| && r.m.alloc.planeSize > 0
    ensures PaidAt(m, on, program, pc, hints)
         == if m.remaining < BytePrice(program, pc) then []
            else [pc] + (if Stop(r).None? then PaidAt(r.m, on, program, pc + inst.size, hints) else [])
  {
    hide Turn, Fetch, Stop, BytePrice;
    FetchedIsWellTyped(program, pc);
    PriceOnBytes(program, pc);
  }

  lemma {:induction false} PriceSumCons(program: seq<byte>, pc: nat, rest: seq<nat>)
    requires Readable(program, [pc]) && Readable(program, rest)
    ensures Readable(program, [pc] + rest) && Readable(program, [])
    ensures pc < |program| && pc + FetchSize(program[pc]) <= |program|
    ensures PriceSum(program, [pc] + rest) == BytePrice(program, pc) + PriceSum(program, rest)
    ensures PriceSum(program, []) == 0 && [pc] + [] == [pc]
  {
    hide BytePrice;
    assert [pc][0] == pc;
    assert ([pc] + rest)[1..] == rest;
  }

  /** A run takes exactly the prices, read off the bytes, of the instructions it pays for. */
  lemma {:induction false} ExecuteAccountsByBytes(m: Machine, on: bool, program: seq<byte>, pc: nat, hints: nat -> nat)
    requires m.alloc.planeSize > 0 && m.used < U64
    ensures var r, sum := Execute(m, on, program, pc, hints), PriceSum(program, PaidAt(m, on, program, pc, hints));
      sum <= m.remaining && r.m.remaining == m.remaining - sum && r.m.used == (m.used + sum) % U64
    decreases |program| - pc
  {
    hide *;
    assert m.used % U64 == m.used by { SmallWord(m.used); }
    match Fetch(program, pc)
    case None =>
      ExecuteStuck(m, on, program, pc, hints);
      PaidAtNone(m, on, program, pc, hints);
    case Some(inst) =>
      var r := Turn(m, on, inst, hints);
      ChargedByBytes(m, on, program, pc, hints);
      ExecutePass(m, on, program, pc, hints, inst, r);
      PaidAtPass(m, on, program, pc, hints, inst, r);
      if m.remaining < BytePrice(program, pc) {
        ErrorStops(r);
        ReadableHere(program, pc, []);
        PriceSumCons(program, pc, []);
      } else if Stop(r).None? {
        ExecuteAccountsByBytes(r.m, on, program, pc + inst.size, hints);
        var rest := PaidAt(r.m, on, program, pc + inst.size, hints);
        ReadableHere(program, pc, rest);
        PriceSumCons(program, pc, rest);
        UsedAdds(m.used, BytePrice(program, pc), PriceSum(program, rest));
      } else {
        ReadableHere(program, pc, []);
        PriceSumCons(program, pc, []);
      }
  }

  lemma {:induction false} SmallWord(v: nat)
    requires v < U64
    ensures v % U64 == v
  {
  }

  lemma {:induction false} ReadableHere(program: seq<byte>, pc: nat, at: seq<nat>)
    requires pc < |program| && pc + FetchSize(program[pc]) <= |program|
    requires forall i | 0 <= i < |at| :: at[i] < |program| && at[i] + FetchSize(program[at[i]]) <= |program|
    ensures Readable(program, [pc]) && Readable(program, at) && Readable(program, [])
  {
  }

  lemma {:induction false} PaidAtNone(m: Machine, on: bool, program: seq<byte>, pc: nat, hints: nat -> nat)
    requires m.alloc.planeSize > 0 && Fetch(program, pc).None?
    ensures PaidAt(m, on, program, pc, hints) == [] && PriceSum(program, []) == 0
  {
    hide Fetch;
  }
}
