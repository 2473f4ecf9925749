/** The threshold seen from the VM: for exactly the plane sizes up to 43690 no program can make the
    machine panic or hand out a block that cannot be read back. */
module VmThreshold {
  import opened FirstFit
  import opened M = Model
  import opened Placement
  import opened Threshold
  import opened OnePlane
  import opened Codec
  import opened Instructions
  import opened Vm
  import opened Isolation
  import opened Execution
  import opened FlatMemory
  import opened VmRuns
  import opened Trust
  import opened CarefulRuns

  /** Every live block can be loaded as a whole. */
  ghost predicate Readable(m: Machine) {
    forall addr | addr in m.tracked && m.tracked[addr].size > 0 ::
      Load3D(m.alloc, m.tracked, addr, m.tracked[addr].size).Loaded?
  }

  lemma {:induction false} InvIsReadable(m: Machine)
    requires MachineInv(m)
    ensures Readable(m)
  {
    hide MachineInv, Load3D, Flat, TrackedOk;
    InvParts(m);
    forall addr | addr in m.tracked && m.tracked[addr].size > 0
      ensures Load3D(m.alloc, m.tracked, addr, m.tracked[addr].size).Loaded?
    {
      BlockFits(m, addr);
      LoadIsFlat(m, addr, m.tracked[addr].size);
    }
  }

  lemma {:induction false} BlockFits(m: Machine, addr: Address)
    requires MachineInv(m) && addr in m.tracked
    ensures m.tracked[addr].size < U32
  {
    hide Apart, EntriesTracked, LinesOk;
    assert IsBlock(m.alloc, addr, m.tracked[addr]) || IsNull(addr, m.tracked[addr]);
  }

  /** An instruction that is paid for keeps the machine's invariant and does not panic if and only
      if it is trusted: the request it makes, if any, is one that the allocator answers rightly.
      No bound on planes, and any instructions before it, frees included. */
  lemma {:induction false} TurnIsSafeIffTrusted(m: Machine, inst: Instruction, hints: nat -> nat)
    requires MachineInv(m) && WellTyped(inst)
    ensures m.alloc.planeSize > 0
    ensures var r := Turn(m, true, inst, hints);
      r.status != Panic && MachineInv(r.m) <==> TrustedTurn(m, inst, hints)
  {
    hide MachineInv, Dispatch, GasCost, WellTyped, TrustedRequest, Flat, TrackedOk, Apart, EntriesTracked, LinesOk,
      Abs, FlatStep;
    InvParts(m);
    TwinsRefl(m);
    if TrustedTurn(m, inst, hints) {
      TurnRefines(m, m, inst, hints);
    } else {
      AllocOperands(inst);
      DistrustedDispatch(Charged(m, GasCost(inst)), inst, hints);
    }
  }

  lemma {:induction false} DistrustedDispatch(m: Machine, inst: Instruction, hints: nat -> nat)
    requires Flat(m.alloc) && WellTyped(inst) && !TrustedInst(m, inst, hints) && m.alloc.planeSize > 0
    ensures var r := Dispatch(m, true, inst, hints);
      r.status == Panic || forall n: Machine | n.alloc == r.m.alloc && n.tracked == r.m.tracked :: !MachineInv(n)
  {
    hide Flat, Allocate, Trusted, RegSet, Bytes, MachineInv;
    var v := inst.operands;
    var size, kind, flags, hint := v[0].value.size, v[1].value.kind, v[2].value.flags, Hint(m, hints);
    DistrustedGoesWrong(m.alloc, size, kind, flags, hint);
    var s, r := Allocate(m.alloc, size, kind, flags, hint), Dispatch(m, true, inst, hints);
    if s.outcome.Ok? {
      forall n: Machine | n.alloc == r.m.alloc && n.tracked == r.m.tracked ensures !MachineInv(n) {
        OverhangBreaks(n, s.outcome.alloc);
      }
    }
  }

  lemma {:induction false} OverhangBreaks(m: Machine, alloc: Allocation)
    requires alloc.addr in m.tracked && m.tracked[alloc.addr] == alloc
    requires alloc.size > 0 && alloc.addr.z + alloc.size > m.alloc.planeSize
    ensures !MachineInv(m)
  {
    hide Apart, EntriesTracked, LinesOk;
  }

  // ----------------------------------------------------------------------- the program

  function AllocateCode(size: nat): seq<byte> {
    [OP_MALLOC3D] + Put(size, 4) + [HEAP as byte, 0] + Put(0, 7)
  }

  function FreeCode(addr: Address): seq<byte> {
    [OP_MFREE3D] + Bytes(addr)
  }

  function AllocateInst(size: nat): Instruction {
    Instruction(OP_MALLOC3D, [Size(size), Operand(OT_FLAGS, VRegionType(HEAP)), Operand(OT_FLAGS, VFlags(0))], 14)
  }

  function FreeInst(addr: Address): Instruction {
    Instruction(OP_MFREE3D, [Addr(addr.x, addr.y, addr.z)], 15)
  }

  lemma {:induction false} AllocateDecodes(size: nat)
    requires size < U16
    ensures Fetch(AllocateCode(size), 0) == Some(AllocateInst(size)) && |AllocateCode(size)| == 14
  {
    hide Put, Get;
    var code := AllocateCode(size);
    assert code[0..14] == code && code[1..5] == Put(size, 4) && code[5] == HEAP as byte && code[6] == 0;
    assert size < Pow256(4) by { PowMono(2, 4); assert Pow256(2) == 256 * Pow256(1) == 256 * 256; }
    GetPut(size, 4);
  }

  lemma {:induction false} FreeDecodes(addr: Address)
    requires InRange(addr)
    ensures Fetch(FreeCode(addr), 0) == Some(FreeInst(addr)) && |FreeCode(addr)| == 15
  {
    hide Put, Get, Pow256;
    var code := FreeCode(addr);
    assert code[0..15] == code;
    assert code[1..9] == Put(addr.x, 8) && code[9..13] == Put(addr.y, 4) && code[13..15] == Put(addr.z, 2);
    GetPut(addr.x, 8);
    GetPut(addr.y, 4);
    GetPut(addr.z, 2);
  }

  /** A program of one instruction that does not stop the loop. */
  lemma {:induction false} OneInstruction(m: Machine, code: seq<byte>, inst: Instruction, hints: nat -> nat)
    requires m.alloc.planeSize > 0 && Fetch(code, 0) == Some(inst) && inst.size == |code|
    ensures var r, o := Turn(m, true, inst, hints), Execute(m, true, code, 0, hints);
      && (Stop(r).None? ==> o == Outcome(r.m, Completed))
      && (Stop(r).Some? ==> o == Outcome(r.m, Stop(r).value))
  {
    hide Turn, Stop, Execute, Decode;
    var r := Turn(m, true, inst, hints);
    ExecutePass(m, true, code, 0, hints, inst, r);
    if Stop(r).None? {
      ExecuteStuck(r.m, true, code, |code|, hints);
    }
  }

  // -------------------------------------------------------------------------- its steps

  const GAS: nat := 0x100_0000_0000

  /** Enough gas and instructions for `k` more steps. */
  ghost predicate Fuelled(m: Machine, k: nat) {
    && k * 0x10_0000 < m.remaining <= GAS
    && m.executed + k < m.maxInstructions
  }

  lemma {:induction false} AllocateCosts(size: nat)
    ensures GasCost(AllocateInst(size)) == 20 + 2 * size && GasCost(FreeInst(Address(2, 0, 0))) == 5
  {
    var ops := AllocateInst(size).operands;
    assert [ops[0]][..0] == [];
    assert SizeCost([ops[0]]) == 2 * size;
    assert [ops[0], ops[1]][..1] == [ops[0]];
    assert SizeCost([ops[0], ops[1]]) == 2 * size;
    assert ops[..2] == [ops[0], ops[1]];
    var o := FreeInst(Address(2, 0, 0)).operands;
    assert o[..0] == [];
  }

  lemma {:induction false} AllocateTurn(m: Machine, size: nat, k: nat, b: Allocator, alloc: Allocation,
      hints: nat -> nat)
    requires m.alloc.planeSize > 0 && b.planeSize > 0 && size < U16 && Fuelled(m, k + 1)
    requires Allocate(m.alloc, size, HEAP, 0, Hint(m, hints)) == Step(b, M.Ok(alloc))
    ensures var r := Turn(m, true, AllocateInst(size), hints);
      && r.status == Fine && Stop(r).None? && Fuelled(r.m, k)
      && r.m.alloc == b && r.m.tracked == m.tracked[alloc.addr := alloc]
  {
    hide Allocate, GasCost, RegSet, Bytes;
    AllocateCosts(size);
  }

  lemma {:induction false} AllocatePanics(m: Machine, size: nat, hints: nat -> nat)
    requires m.alloc.planeSize > 0 && size < U16 && Fuelled(m, 1)
    requires Allocate(m.alloc, size, HEAP, 0, Hint(m, hints)).outcome == Crashed
    ensures Stop(Turn(m, true, AllocateInst(size), hints)) == Some(Panicked)
  {
    hide Allocate, GasCost, RegSet, Bytes;
    AllocateCosts(size);
  }

  lemma {:induction false} FreeTurn(m: Machine, k: nat, b: Allocator, hints: nat -> nat)
    requires m.alloc.planeSize > 0 && b.planeSize > 0 && Fuelled(m, k + 1) && Address(2, 0, 0) in m.tracked
    requires Free(m.alloc, m.tracked[Address(2, 0, 0)]) == Some(b)
    ensures var r := Turn(m, true, FreeInst(Address(2, 0, 0)), hints);
      r.status == Fine && Stop(r).None? && Fuelled(r.m, k) && r.m.alloc == b
  {
    hide Free, GasCost, Debit;
    AllocateCosts(0);
  }

  /** Region 2 has one plane, of the configured size. */
  ghost predicate OnePlaneThere(a: Allocator) {
    && 2 in a.regions && |a.regions[2].planes| == 1 && a.regions[2].planes[0].id == 0
    && |a.regions[2].planes[0].data| == a.planeSize
  }

  /** A block that runs past its plane is tracked but cannot be read. */
  lemma {:induction false} OverhangUnreadable(m: Machine, alloc: Allocation)
    requires OnePlaneThere(m.alloc) && alloc.addr in m.tracked && m.tracked[alloc.addr] == alloc
    requires alloc.addr.x == 2 && alloc.addr.y == 0 && 0 < alloc.size < U16 && alloc.addr.z < U16
    requires alloc.addr.z + alloc.size > m.alloc.planeSize
    ensures !Readable(m)
  {
    FindPlaneAt(m.alloc.regions[2].planes);
    assert Load3D(m.alloc, m.tracked, alloc.addr, alloc.size) == LoadError;
  }

  lemma {:induction false} LastAllocation(a: Allocator, used: seq<bool>, size: nat, hint: nat)
    requires Solo(a, HEAP, used) && 0 < size <= CountFree(used)
    requires match Search(used, size)
             case Found(z) => z + size > |used|
             case NotFound => false
             case Panics => true
    ensures var s := Allocate(a, size, HEAP, 0, hint);
      match s.outcome
      case Crashed => true
      case Failed => false
      case Ok(alloc) =>
        && alloc.addr.x == 2 && alloc.addr.y == 0 && alloc.addr.z < |used| && alloc.size == size
        && alloc.addr.z + size > a.planeSize && |used| == a.planeSize && OnePlaneThere(s.a)
  {
    hide Search, CountFree, Scan, Promote;
    SoloScan(a, HEAP, used, size);
    if Search(used, size).Found? { SearchInside(used, size); }
  }

  lemma {:induction false} SearchInside(used: seq<bool>, size: nat)
    requires Search(used, size).Found?
    ensures Search(used, size).start < |used|
  {
    hide Scan;
    FoundIsInside(used, size, 0);
  }

  lemma {:induction false} FindPlaneAt(planes: seq<Plane>)
    requires |planes| == 1 && planes[0].id == 0
    ensures FindPlane(planes, 0) == 0
  {
  }

  // ----------------------------------------------------------------------- exact bound

  lemma {:induction false} Consed(m: Machine, code: seq<byte>, inst: Instruction, rest: seq<byte>, hints: nat -> nat)
    requires m.alloc.planeSize > 0 && Fetch(code, 0) == Some(inst) && inst.size == |code|
    requires Stop(Turn(m, true, inst, hints)).None?
    ensures Execute(m, true, code + rest, 0, hints) == Execute(Turn(m, true, inst, hints).m, true, rest, 0, hints)
  {
    hide Turn, Stop, Execute, Fetch;
    OneInstruction(m, code, inst, hints);
    ExecuteComposes(m, true, code, rest, 0, hints);
  }

  function BadProgram(planeSize: nat): seq<byte>
    requires SAFE_LENGTH < planeSize < U16
  {
    var n := U16 - planeSize;
    AllocateCode(n) + (AllocateCode(n) + (FreeCode(Address(2, 0, 0)) + AllocateCode(planeSize - n)))
  }

  /** The state before the last instruction of the bad program. */
  lemma {:induction false} BeforeTheEnd(planeSize: nat, maxY: nat, hints: nat -> nat)
    returns (m: Machine, used: seq<bool>)
    requires SAFE_LENGTH < planeSize < U16
    ensures var n := U16 - planeSize;
      && |used| == planeSize && (forall i | 0 <= i < planeSize :: used[i] == (n <= i < 2 * n))
      && Solo(m.alloc, HEAP, used) && m.alloc.planeSize == planeSize && Fuelled(m, 1)
      && Execute(NewMachine(planeSize, maxY, GAS, 100), true, BadProgram(planeSize), 0, hints)
         == Execute(m, true, AllocateCode(planeSize - n), 0, hints)
  {
    hide Allocate, Free, CountFree, Prefix, Solo, Turn, Stop, Execute, Fetch, AllocateCode, FreeCode,
      AllocateInst, FreeInst, GasCost;
    var n := U16 - planeSize;
    var m0 := NewMachine(planeSize, maxY, GAS, 100);
    var blank := seq(planeSize, _ => false);
    AllocateDecodes(n);
    InstSizes(n);
    FreeDecodes(Address(2, 0, 0)) by { SmallInRange(); }
    var tail := AllocateCode(planeSize - n);
    var b, first := SoloStart(planeSize, maxY, HEAP, n, Hint(m0, hints));
    AllocateTurn(m0, n, 3, b, first, hints);
    var m1 := Turn(m0, true, AllocateInst(n), hints).m;
    Consed(m0, AllocateCode(n), AllocateInst(n), AllocateCode(n) + (FreeCode(Address(2, 0, 0)) + tail), hints);
    var used1 := Mark(blank, 0, n);
    CountFreeAllFree(blank);
    CountFreeMark(blank, 0, n);
    PrefixOfBlock(used1, n);
    var c, second := SoloAllocate(b, HEAP, used1, n, Hint(m1, hints));
    AllocateTurn(m1, n, 2, c, second, hints);
    var m2 := Turn(m1, true, AllocateInst(n), hints).m;
    Consed(m1, AllocateCode(n), AllocateInst(n), FreeCode(Address(2, 0, 0)) + tail, hints);
    var used2 := Mark(used1, n, n + n);
    var d := SoloFree(c, HEAP, used2, first);
    FreeTurn(m2, 1, d, hints);
    Consed(m2, FreeCode(Address(2, 0, 0)), FreeInst(Address(2, 0, 0)), tail, hints);
    m := Turn(m2, true, FreeInst(Address(2, 0, 0)), hints).m;
    used := Unmark(used2, 0, n);
  }

  lemma {:induction false} SmallInRange()
    ensures InRange(Address(2, 0, 0))
  {
    PowMono(1, 8);
    assert Pow256(1) == 256 * Pow256(0) == 256;
  }

  lemma {:induction false} InstSizes(n: nat)
    ensures AllocateInst(n).size == 14 && FreeInst(Address(2, 0, 0)).size == 15
  {
  }

  /** Beyond the threshold the VM panics, or it ends with a live block that cannot be read. */
  lemma {:induction false} BadProgramFails(planeSize: nat, maxY: nat, hints: nat -> nat)
    requires SAFE_LENGTH < planeSize < U16
    ensures var o := Execute(NewMachine(planeSize, maxY, GAS, 100), true, BadProgram(planeSize), 0, hints);
      o.ending == Panicked || !Readable(o.m)
  {
    hide Allocate, CountFree, Solo, Turn, Stop, Execute, Fetch, AllocateCode, AllocateInst, GasCost, Search,
      Readable, BadProgram;
    var n := U16 - planeSize;
    var size := planeSize - n;
    var m, used := BeforeTheEnd(planeSize, maxY, hints);
    SearchGoesWrong(used, n);
    AllocateDecodes(size);
    InstSizes(size);
    OneInstruction(m, AllocateCode(size), AllocateInst(size), hints);
    LastAllocation(m.alloc, used, size, Hint(m, hints));
    var s := Allocate(m.alloc, size, HEAP, 0, Hint(m, hints));
    if s.outcome.Crashed? {
      AllocatePanics(m, size, hints);
    } else {
      AllocateTurn(m, size, 0, s.a, s.outcome.alloc, hints);
      var r := Turn(m, true, AllocateInst(size), hints);
      OverhangUnreadable(r.m, s.outcome.alloc);
    }
  }

  /** The exact bound for the VM: whatever the program, its gas and the tie-breaks, the machine
      does not panic and all live blocks can be read back, if and only if planes have at most
      43690 bytes. */
  lemma {:induction false} VmSafeExactlyUpToThreshold(planeSize: nat, maxY: nat)
    requires 0 < planeSize < U16
    ensures planeSize <= SAFE_LENGTH <==>
      forall program, gas, limit, hints :: SafeOutcome(planeSize, maxY, program, gas, limit, hints)
  {
    hide Execute, Readable, MachineInv, BadProgram, TrustedRun;
    if planeSize <= SAFE_LENGTH {
      forall program, gas, limit, hints ensures SafeOutcome(planeSize, maxY, program, gas, limit, hints) {
        var m := NewMachine(planeSize, maxY, gas, limit);
        NewMachineInv(planeSize, maxY, gas, limit);
        ExecuteIsTrusted(m, program, 0, hints);
        ExecuteIgnoresCache(m, m, program, 0, hints);
        InvIsReadable(Execute(m, true, program, 0, hints).m);
      }
    } else {
      var hints := _ => 0;
      BadProgramFails(planeSize, maxY, hints);
      assert !SafeOutcome(planeSize, maxY, BadProgram(planeSize), GAS, 100, hints);
    }
  }

  ghost predicate SafeOutcome(planeSize: nat, maxY: nat, program: seq<byte>, gas: nat, limit: nat, hints: nat -> nat)
    requires 0 < planeSize < U16
  {
    var o := Execute(NewMachine(planeSize, maxY, gas, limit), true, program, 0, hints);
    o.ending != Panicked && Readable(o.m)
  }
}
