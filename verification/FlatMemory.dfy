/** The VM's memory is a flat map from live blocks to bytes, and its cache cannot be observed:
    instruction by instruction, program by program, over every run. */
module FlatMemory {
  import opened FirstFit
  import opened M = Model
  import opened OnePlane
  import opened Codec
  import opened Instructions
  import opened Vm
  import opened Isolation
  import opened BlockLife
  import opened Execution

  /** A machine with nothing but blocks of bytes and registers. */
  datatype FlatState = FlatState(blocks: map<Address, seq<byte>>, registers: seq<seq<byte>>)

  ghost predicate FlatAllocate(s: FlatState, size: nat, planeSize: nat, t: FlatState, status: Status) {
    if size == 0 then
      || (status == Fine && t == s.(registers := RegSet(s.registers, 0, Bytes(Address(0, 0, 0)))))
      || (status == Error && t == s)
    else if size > planeSize then status == Error && t == s
    else
      status == Fine && exists addr, bytes ::
        && addr !in s.blocks && |bytes| == size
        && t == FlatState(s.blocks[addr := bytes], RegSet(s.registers, 0, Bytes(addr)))
  }

  /** What each instruction does to the flat machine. Only allocation leaves a choice: where the
      block is and what it holds at first. */
  ghost predicate FlatStep(s: FlatState, inst: Instruction, planeSize: nat, t: FlatState, status: Status)
    requires WellTyped(inst)
  {
    var op, v := inst.opcode, inst.operands;
    if op == OP_MLOAD3D then
      var addr, size := v[0].value.address, v[1].value.size;
      if addr in s.blocks && size <= |s.blocks[addr]|
      then status == Fine && t == s.(registers := RegSet(s.registers, v[2].value.register, s.blocks[addr][..size]))
      else status == Error && t == s
    else if op == OP_MSTORE3D then
      var addr, data, size := v[0].value.address, RegGet(s.registers, v[1].value.register), v[2].value.size;
      if |data| >= size && addr in s.blocks && size <= |s.blocks[addr]|
      then status == Fine && t == s.(blocks := s.blocks[addr := Patched(s.blocks[addr], data[..size])])
      else status == Error && t == s
    else if op == OP_MALLOC3D then FlatAllocate(s, v[0].value.size, planeSize, t, status)
    else if op == OP_MFREE3D then
      var addr := v[0].value.address;
      if addr in s.blocks then status == Fine && t == s.(blocks := s.blocks - {addr}) else status == Error && t == s
    else if op == OP_MCOPY3D then
      var src, dst, size := v[0].value.address, v[1].value.address, v[2].value.size;
      if src in s.blocks && size <= |s.blocks[src]| && dst in s.blocks && size <= |s.blocks[dst]|
      then status == Fine && t == s.(blocks := s.blocks[dst := Patched(s.blocks[dst], s.blocks[src][..size])])
      else status == Error && t == s
    else if op == OP_MSIZE3D then
      var addr := v[0].value.address;
      var n := if addr in s.blocks then |s.blocks[addr]| else 0;
      status == Fine && t == s.(registers := RegSet(s.registers, v[1].value.register, Put(n, 8)))
    else if op == OP_HALT3D then status == Halt && t == s
    else status == Fine && t == s.(registers := Computed(s.registers, inst))
  }

  ghost function Abs(m: Machine): FlatState
    requires MachineInv(m)
  {
    FlatState(Blocks(m), m.registers)
  }

  /** Equal in everything but the cache. */
  ghost predicate Twins(m: Machine, n: Machine) {
    n == m.(cache := n.cache)
  }

  lemma {:induction false} TwinsRefl(m: Machine)
    ensures Twins(m, m)
  {
  }

  lemma {:induction false} SameMemory(m: Machine, n: Machine)
    requires MachineInv(m) && n.alloc == m.alloc && n.tracked == m.tracked && n.cache == m.cache
    ensures MachineInv(n) && Blocks(n) == Blocks(m)
  {
    hide *;
    InvParts(m);
    MakeInv(n);
    SameBlocksBytes(m, n);
  }

  lemma {:induction false} SameBlocksBytes(m: Machine, n: Machine)
    requires Flat(m.alloc) && TrackedOk(m.alloc, m.tracked) && n.alloc == m.alloc && n.tracked == m.tracked
    ensures Blocks(n) == Blocks(m)
  {
    hide Flat, TrackedOk;
  }

  // ------------------------------------------------------------------- one instruction

  lemma {:induction false} LineIsBlockPrefix(m: Machine, addr: Address)
    requires MachineInv(m) && addr in m.cache
    ensures addr in Blocks(m) && m.cache[addr] <= Blocks(m)[addr]
  {
    hide *;
    InvParts(m);
    CachedLine(m, addr);
    LineParts(m, addr, m.cache[addr]);
    BlockAt(m, addr);
    var data, line, n := PlaneOf(m.alloc, addr.x).data, m.cache[addr], m.tracked[addr].size;
    assert data[addr.z..addr.z + n][..|line|] == data[addr.z..addr.z + |line|];
  }

  /** Load through the cache is load from memory. */
  lemma {:induction false} LoadRefines(m: Machine, n: Machine, addr: Address, size: nat, reg: nat)
    requires MachineInv(m) && size < U32 && Twins(m, n)
    ensures var r, s, f := ExecLoad(m, true, addr, size, reg), ExecLoad(n, false, addr, size, reg), Blocks(m);
      && s.status == r.status && Twins(r.m, s.m)
      && MachineInv(r.m)
      && (if addr in f && size <= |f[addr]|
          then r.status == Fine && Abs(r.m) == FlatState(f, RegSet(m.registers, reg, f[addr][..size]))
          else r.status == Error && Abs(r.m) == Abs(m))
  {
    hide Load3D, MachineInv, Blocks, RegSet;
    assert Flat(m.alloc) && TrackedOk(m.alloc, m.tracked) by { InvParts(m); }
    LoadIsFlat(m, addr, size);
    var r := ExecLoad(m, true, addr, size, reg);
    if addr in m.cache && |m.cache[addr]| >= size {
      LineIsBlockPrefix(m, addr);
      assert m.cache[addr][..size] == Blocks(m)[addr][..size];
      SameMemory(m, r.m);
    } else if addr in Blocks(m) && size <= |Blocks(m)[addr]| {
      var line := Blocks(m)[addr][..size];
      NewLine(m, addr, line);
      SameBlocksBytes(m, m.(cache := m.cache[addr := line]));
      SameMemory(m.(cache := m.cache[addr := line]), r.m);
    }
  }

  lemma {:induction false} StoreRefines(m: Machine, n: Machine, addr: Address, reg: nat, size: nat)
    requires MachineInv(m) && size < U32 && Twins(m, n)
    ensures var r, s, f := ExecStore(m, true, addr, reg, size), ExecStore(n, false, addr, reg, size), Blocks(m);
      var data := RegGet(m.registers, reg);
      && s.status == r.status && Twins(r.m, s.m)
      && MachineInv(r.m)
      && (if |data| >= size && addr in f && size <= |f[addr]|
          then r.status == Fine && Abs(r.m) == FlatState(f[addr := Patched(f[addr], data[..size])], m.registers)
          else r.status == Error && Abs(r.m) == Abs(m))
  {
    hide Store3D, MachineInv, Blocks, WriteAt, Patched;
    assert Flat(m.alloc) && TrackedOk(m.alloc, m.tracked) by { InvParts(m); }
    var data := RegGet(m.registers, reg);
    if |data| >= size {
      StoreIsGranted(m, addr, data[..size]);
      if addr in Blocks(m) && size <= |Blocks(m)[addr]| {
        StoreEffect(m, addr, data[..size]);
      }
    }
  }

  lemma {:induction false} CopyRefines(m: Machine, n: Machine, src: Address, dst: Address, size: nat)
    requires MachineInv(m) && size < U32 && Twins(m, n)
    ensures var r, s, f := ExecCopy(m, true, src, dst, size), ExecCopy(n, false, src, dst, size), Blocks(m);
      && s.status == r.status && Twins(r.m, s.m)
      && MachineInv(r.m)
      && (if src in f && size <= |f[src]| && dst in f && size <= |f[dst]|
          then r.status == Fine && Abs(r.m) == FlatState(f[dst := Patched(f[dst], f[src][..size])], m.registers)
          else r.status == Error && Abs(r.m) == Abs(m))
  {
    hide Store3D, Load3D, MachineInv, Blocks, WriteAt;
    assert Flat(m.alloc) && TrackedOk(m.alloc, m.tracked) by { InvParts(m); }
    LoadIsFlat(m, src, size);
    if dst in Blocks(m) { BlockAt(m, dst); }
    if src in Blocks(m) && size <= |Blocks(m)[src]| {
      var data := Blocks(m)[src][..size];
      StoreIsGranted(m, dst, data);
      if dst in Blocks(m) && size <= |Blocks(m)[dst]| {
        CopyDone(m, src, dst, data);
      }
    }
  }

  /** After a copy both ends may be cached with the bytes copied. */
  lemma {:induction false} CopyDone(m: Machine, src: Address, dst: Address, data: seq<byte>)
    requires MachineInv(m) && src in Blocks(m) && dst in Blocks(m)
    requires data <= Blocks(m)[src] && |data| <= |Blocks(m)[dst]|
    requires dst.x in m.alloc.regions && |m.alloc.regions[dst.x].planes| == 1
    requires dst.z + |data| <= |m.alloc.regions[dst.x].planes[0].data|
    ensures var n := m.(alloc := WriteAt(m.alloc, dst.x, 0, dst.z, data), cache := m.cache[src := data][dst := data]);
      MachineInv(n) && Blocks(n) == Blocks(m)[dst := Patched(Blocks(m)[dst], data)]
  {
    hide *;
    InvParts(m);
    StoreEffect(m, dst, data);
    var k := m.(alloc := WriteAt(m.alloc, dst.x, 0, dst.z, data), cache := m.cache[dst := data]);
    InvParts(k);
    PatchedFront(Blocks(m)[dst], data);
    assert data <= Blocks(k)[src];
    NewLine(k, src, data);
    var l := k.(cache := k.cache[src := data]);
    assert m.cache[src := data][dst := data] == k.cache[src := data];
    SameBlocksBytes(k, l);
  }

  lemma {:induction false} PatchedFront(block: seq<byte>, data: seq<byte>)
    requires |data| <= |block|
    ensures data <= Patched(block, data)
  {
  }

  lemma {:induction false} SizeRefines(m: Machine, n: Machine, addr: Address, reg: nat)
    requires MachineInv(m) && Twins(m, n)
    ensures var r, s, f := ExecSize(m, addr, reg), ExecSize(n, addr, reg), Blocks(m);
      && s.status == r.status == Fine && Twins(r.m, s.m)
      && MachineInv(r.m)
      && Abs(r.m) == FlatState(f, RegSet(m.registers, reg, Put(if addr in f then |f[addr]| else 0, 8)))
  {
    hide MachineInv, Blocks, RegSet, Put, Lookup;
    assert Flat(m.alloc) && TrackedOk(m.alloc, m.tracked) by { InvParts(m); }
    LookupIsExact(m, addr);
    SameMemory(m, ExecSize(m, addr, reg).m);
  }

  lemma {:induction false} FreeRefines(m: Machine, n: Machine, addr: Address)
    requires MachineInv(m) && Twins(m, n)
    ensures var r, s, f := ExecFree(m, true, addr), ExecFree(n, false, addr), Blocks(m);
      && s.status == r.status && Twins(r.m, s.m)
      && MachineInv(r.m)
      && (if addr in f then r.status == Fine && Abs(r.m) == FlatState(f - {addr}, m.registers)
          else r.status == Error && Abs(r.m) == Abs(m))
  {
    hide MachineInv, Blocks, Lookup, Free, Changed, PlaneFree;
    InvParts(m);
    LookupIsExact(m, addr);
    if addr in Blocks(m) {
      BlockAt(m, addr);
      FreeOfBlock(m, addr);
      FreeEffectOnBlocks(m, ExecFree(m, true, addr).m, addr);
    } else if addr in m.tracked {
      NotBlockIsNull(m, addr);
      FreeOfNull(m, addr);
    }
  }

  lemma {:induction false} FreeOfBlock(m: Machine, addr: Address)
    requires MachineInv(m) && addr in Blocks(m) && addr.x in m.alloc.regions
    ensures var b := Free(m.alloc, m.tracked[addr]);
      && PlaneFree(PlaneOf(m.alloc, addr.x), addr.z).Some? && b.Some?
      && Changed(m.alloc, b.value, addr.x, PlaneFree(PlaneOf(m.alloc, addr.x), addr.z).value)
  {
    hide Free, PlaneFree, Changed;
    BlockIsThere(m, addr);
    FreedPlane(m, addr);
    FreeInFlat(m.alloc, m.tracked[addr]);
  }

  lemma {:induction false} FreeOfNull(m: Machine, addr: Address)
    requires MachineInv(m) && addr in m.tracked && IsNull(addr, m.tracked[addr])
    ensures Free(m.alloc, m.tracked[addr]).None?
  {
    assert 0 !in m.alloc.regions;
  }

  lemma {:induction false} AllocRefines(m: Machine, n: Machine, size: nat, kind: nat, flags: nat, hint: nat)
    requires MachineInv(m) && size < U32 && Twins(m, n) && TrustedRequest(m.alloc, size, kind, hint)
    ensures var r, s := ExecAlloc(m, size, kind, flags, hint), ExecAlloc(n, size, kind, flags, hint);
      && s.status == r.status && Twins(r.m, s.m)
      && MachineInv(r.m)
      && FlatAllocate(Abs(m), size, m.alloc.planeSize, Abs(r.m), r.status)
  {
    hide *;
    InvParts(m);
    AllocTwins(m, n, size, kind, flags, hint);
    if size > 0 {
      AllocSome(m, size, kind, flags, hint);
    } else {
      AllocNone(m, kind, flags, hint);
    }
  }

  lemma {:induction false} AllocTwins(m: Machine, n: Machine, size: nat, kind: nat, flags: nat, hint: nat)
    requires Twins(m, n) && m.alloc.planeSize > 0
    ensures var r, s := ExecAlloc(m, size, kind, flags, hint), ExecAlloc(n, size, kind, flags, hint);
      s.status == r.status && Twins(r.m, s.m)
  {
    hide Allocate, RegSet, Bytes;
  }

  lemma {:induction false} AllocSome(m: Machine, size: nat, kind: nat, flags: nat, hint: nat)
    requires MachineInv(m) && 0 < size < U32 && TrustedRequest(m.alloc, size, kind, hint)
    ensures var r := ExecAlloc(m, size, kind, flags, hint);
      MachineInv(r.m) && FlatAllocate(Abs(m), size, m.alloc.planeSize, Abs(r.m), r.status)
  {
    hide MachineInv, Blocks, Allocate, Changed, RegSet, Bytes, PlaneFor, IsFirstFit, Occupy, Enter,
      FreshPlane, TrackedOk, Apart, EntriesTracked, LinesOk;
    InvParts(m);
    AllocateInFlat(m.alloc, size, kind, flags, hint);
    var s, r := Allocate(m.alloc, size, kind, flags, hint), ExecAlloc(m, size, kind, flags, hint);
    match s.outcome
    case Failed => RefusalKeepsBlocks(m, r.m);
    case Ok(alloc) =>
      FreshFromAllocate(m, s.a, alloc);
      AllocateEffectOnBlocks(m, r.m, alloc);
      InvParts(r.m);
      assert alloc.addr !in Abs(m).blocks;
      assert Abs(r.m) == FlatState(Blocks(m)[alloc.addr := Blocks(r.m)[alloc.addr]], RegSet(m.registers, 0,
        Bytes(alloc.addr)));
  }

  /** A granted request for no bytes leaves all blocks alone. */
  lemma {:induction false} NullReserved(m: Machine, n: Machine, kind: nat, flags: nat, hint: nat, alloc: Allocation)
    requires MachineInv(m) && m.alloc.planeSize > 0
    requires Allocate(m.alloc, 0, kind, flags, hint) == Step(n.alloc, M.Ok(alloc))
    requires n.tracked == m.tracked[alloc.addr := alloc] && n.cache == m.cache
    ensures MachineInv(n) && Blocks(n) == Blocks(m) && IsNull(alloc.addr, alloc) && alloc.addr == Address(0, 0, 0)
  {
    hide MachineInv, Blocks, Allocate, Changed, Enter, FreshPlane, TrackedOk, Apart, EntriesTracked, LinesOk;
    InvParts(m);
    AllocateNothing(m.alloc, kind, flags, hint);
    var x :| x in m.alloc.regions && Changed(m.alloc, n.alloc, x, Enter(PlaneOf(m.alloc, x), alloc));
    NullEffectOnBlocks(m, n, alloc, x);
  }

  lemma {:induction false} NullRefused(m: Machine, n: Machine, kind: nat, flags: nat, hint: nat)
    requires MachineInv(m) && m.alloc.planeSize > 0
    requires var s := Allocate(m.alloc, 0, kind, flags, hint); !s.outcome.Ok? && n.alloc == s.a
    requires n.tracked == m.tracked && n.cache == m.cache
    ensures MachineInv(n) && Blocks(n) == Blocks(m) && Allocate(m.alloc, 0, kind, flags, hint).outcome.Failed?
  {
    hide MachineInv, Blocks, Allocate, Changed, Enter, FreshPlane, Flat, TrackedOk, Apart,
      EntriesTracked, LinesOk;
    InvParts(m);
    AllocateNothing(m.alloc, kind, flags, hint);
    RefusalKeepsBlocks(m, n);
  }

  lemma {:induction false} AllocNone(m: Machine, kind: nat, flags: nat, hint: nat)
    requires MachineInv(m)
    ensures var r := ExecAlloc(m, 0, kind, flags, hint);
      MachineInv(r.m) && FlatAllocate(Abs(m), 0, m.alloc.planeSize, Abs(r.m), r.status)
  {
    hide MachineInv, Blocks, Allocate, RegSet, Bytes, Flat, TrackedOk;
    InvParts(m);
    var s, r := Allocate(m.alloc, 0, kind, flags, hint), ExecAlloc(m, 0, kind, flags, hint);
    if s.outcome.Ok? {
      NullReserved(m, r.m, kind, flags, hint, s.outcome.alloc);
    } else {
      NullRefused(m, r.m, kind, flags, hint);
    }
  }

  lemma {:induction false} FreshFromAllocate(m: Machine, b: Allocator, alloc: Allocation)
    requires MachineInv(m) && alloc.size > 0 && !alloc.IsYPromoted() && alloc.addr.y == 0 && alloc.addr.x > 0
    requires alloc.addr.x in m.alloc.regions ==> |m.alloc.regions[alloc.addr.x].planes| == 1
    requires alloc.addr.z + alloc.size <= m.alloc.planeSize
    requires IsFirstFit(PlaneFor(m.alloc, alloc.addr.x).used, alloc.size, alloc.addr.z)
    requires Changed(m.alloc, b, alloc.addr.x, Enter(Occupy(PlaneFor(m.alloc, alloc.addr.x), alloc.addr.z,
      alloc.size), alloc))
    ensures FreshBlock(m, b, alloc)
  {
    hide Changed, IsFirstFit, TrackedOk, Apart, EntriesTracked, LinesOk;
  }

  /** What refinement means for one instruction. */
  ghost predicate Refines(m: Machine, n: Machine, inst: Instruction, r: Result, s: Result)
    requires MachineInv(m) && WellTyped(inst)
  {
    && s.status == r.status != Panic && Twins(r.m, s.m)
    && MachineInv(r.m) && FlatStep(Abs(m), inst, m.alloc.planeSize, Abs(r.m), r.status)
  }

  lemma {:induction false} DispatchLoad(m: Machine, n: Machine, inst: Instruction, hints: nat -> nat)
    requires MachineInv(m) && Twins(m, n) && WellTyped(inst) && inst.opcode == OP_MLOAD3D
    requires m.alloc.planeSize > 0
    ensures Refines(m, n, inst, Dispatch(m, true, inst, hints), Dispatch(n, false, inst, hints))
  {
    hide MachineInv, Blocks, ExecLoad, RegSet, Patched, Put;
    assert Flat(m.alloc) && TrackedOk(m.alloc, m.tracked) by { InvParts(m); }
    hide Flat, TrackedOk;
    var v := inst.operands;
    LoadRefines(m, n, v[0].value.address, v[1].value.size, v[2].value.register);
  }

  lemma {:induction false} DispatchStore(m: Machine, n: Machine, inst: Instruction, hints: nat -> nat)
    requires MachineInv(m) && Twins(m, n) && WellTyped(inst) && inst.opcode == OP_MSTORE3D
    requires m.alloc.planeSize > 0
    ensures Refines(m, n, inst, Dispatch(m, true, inst, hints), Dispatch(n, false, inst, hints))
  {
    hide MachineInv, Blocks, ExecStore, RegSet, Patched, Put;
    assert Flat(m.alloc) && TrackedOk(m.alloc, m.tracked) by { InvParts(m); }
    hide Flat, TrackedOk;
    var v := inst.operands;
    StoreRefines(m, n, v[0].value.address, v[1].value.register, v[2].value.size);
  }

  /** If the instruction allocates, its request is one that the allocator answers rightly. */
  ghost predicate TrustedInst(m: Machine, inst: Instruction, hints: nat -> nat)
    requires WellTyped(inst)
  {
    inst.opcode == OP_MALLOC3D ==>
      TrustedRequest(m.alloc, inst.operands[0].value.size, inst.operands[1].value.kind, Hint(m, hints))
  }

  lemma {:induction false} DispatchAlloc(m: Machine, n: Machine, inst: Instruction, hints: nat -> nat)
    requires MachineInv(m) && Twins(m, n) && WellTyped(inst) && inst.opcode == OP_MALLOC3D
    requires m.alloc.planeSize > 0 && TrustedInst(m, inst, hints)
    ensures Refines(m, n, inst, Dispatch(m, true, inst, hints), Dispatch(n, false, inst, hints))
  {
    hide MachineInv, Blocks, ExecAlloc, FlatAllocate, RegSet, Patched, Put, Flat, TrackedOk, Trusted, TrustedRequest;
    InvParts(m);
    var v := inst.operands;
    AllocRefines(m, n, v[0].value.size, v[1].value.kind, v[2].value.flags, Hint(m, hints));
    FlatAllocateStatus(Abs(m), v[0].value.size, m.alloc.planeSize, Dispatch(m, true, inst, hints));
  }

  lemma {:induction false} DispatchFree(m: Machine, n: Machine, inst: Instruction, hints: nat -> nat)
    requires MachineInv(m) && Twins(m, n) && WellTyped(inst) && inst.opcode == OP_MFREE3D
    requires m.alloc.planeSize > 0
    ensures Refines(m, n, inst, Dispatch(m, true, inst, hints), Dispatch(n, false, inst, hints))
  {
    hide MachineInv, Blocks, ExecFree, RegSet, Patched, Put;
    assert Flat(m.alloc) && TrackedOk(m.alloc, m.tracked) by { InvParts(m); }
    hide Flat, TrackedOk;
    var v := inst.operands;
    FreeRefines(m, n, v[0].value.address);
  }

  lemma {:induction false} DispatchCopy(m: Machine, n: Machine, inst: Instruction, hints: nat -> nat)
    requires MachineInv(m) && Twins(m, n) && WellTyped(inst) && inst.opcode == OP_MCOPY3D
    requires m.alloc.planeSize > 0
    ensures Refines(m, n, inst, Dispatch(m, true, inst, hints), Dispatch(n, false, inst, hints))
  {
    hide MachineInv, Blocks, ExecCopy, RegSet, Patched, Put;
    assert Flat(m.alloc) && TrackedOk(m.alloc, m.tracked) by { InvParts(m); }
    hide Flat, TrackedOk;
    var v := inst.operands;
    CopyRefines(m, n, v[0].value.address, v[1].value.address, v[2].value.size);
  }

  lemma {:induction false} DispatchSize(m: Machine, n: Machine, inst: Instruction, hints: nat -> nat)
    requires MachineInv(m) && Twins(m, n) && WellTyped(inst) && inst.opcode == OP_MSIZE3D
    requires m.alloc.planeSize > 0
    ensures Refines(m, n, inst, Dispatch(m, true, inst, hints), Dispatch(n, false, inst, hints))
  {
    hide MachineInv, Blocks, ExecSize, RegSet, Patched, Put;
    assert Flat(m.alloc) && TrackedOk(m.alloc, m.tracked) by { InvParts(m); }
    hide Flat, TrackedOk;
    var v := inst.operands;
    SizeRefines(m, n, v[0].value.address, v[1].value.register);
  }

  lemma {:induction false} DispatchRest(m: Machine, n: Machine, inst: Instruction, hints: nat -> nat)
    requires MachineInv(m) && Twins(m, n) && WellTyped(inst) && m.alloc.planeSize > 0
    requires inst.opcode in {OP_NOP, OP_HALT3D, OP_ADD3D, OP_SUB3D, OP_MOV3D}
    ensures Refines(m, n, inst, Dispatch(m, true, inst, hints), Dispatch(n, false, inst, hints))
  {
    hide MachineInv, Blocks, Computed;
    assert Flat(m.alloc) && TrackedOk(m.alloc, m.tracked) by { InvParts(m); }
    hide Flat, TrackedOk;
    SameMemory(m, Dispatch(m, true, inst, hints).m);
  }

  /** One instruction on the machine is one step of the flat machine, with or without the cache,
      and never panics. */
  lemma {:induction false} DispatchRefines(m: Machine, n: Machine, inst: Instruction, hints: nat -> nat)
    requires MachineInv(m) && Twins(m, n) && WellTyped(inst) && TrustedInst(m, inst, hints)
    ensures m.alloc.planeSize > 0
    ensures Refines(m, n, inst, Dispatch(m, true, inst, hints), Dispatch(n, false, inst, hints))
  {
    hide MachineInv, Dispatch, Refines, TrustedInst, Flat, TrackedOk;
    InvParts(m);
    if inst.opcode == OP_MLOAD3D {
      DispatchLoad(m, n, inst, hints);
    } else if inst.opcode == OP_MSTORE3D {
      DispatchStore(m, n, inst, hints);
    } else if inst.opcode == OP_MALLOC3D {
      DispatchAlloc(m, n, inst, hints);
    } else if inst.opcode == OP_MFREE3D {
      DispatchFree(m, n, inst, hints);
    } else if inst.opcode == OP_MCOPY3D {
      DispatchCopy(m, n, inst, hints);
    } else if inst.opcode == OP_MSIZE3D {
      DispatchSize(m, n, inst, hints);
    } else {
      DispatchRest(m, n, inst, hints);
    }
  }

  lemma {:induction false} FlatAllocateStatus(s: FlatState, size: nat, planeSize: nat, r: Result)
    requires MachineInv(r.m) && FlatAllocate(s, size, planeSize, Abs(r.m), r.status)
    ensures r.status != Panic
  {
    hide MachineInv;
  }

  // -------------------------------------------------------------------------- programs

  /** The next instruction, if it is paid for, is trusted. */
  ghost predicate TrustedTurn(m: Machine, inst: Instruction, hints: nat -> nat)
    requires WellTyped(inst)
  {
    GasCost(inst) <= m.remaining ==> TrustedInst(m, inst, hints)
  }

  /** Every request that the program makes from `pc` on is trusted when it is made. */
  ghost predicate TrustedRun(m: Machine, program: seq<byte>, pc: nat, hints: nat -> nat)
    requires m.alloc.planeSize > 0
    decreases |program| - pc
  {
    match Fetch(program, pc)
    case None => true
    case Some(inst) =>
      FetchedIsWellTyped(program, pc);
      var r := Turn(m, true, inst, hints);
      TrustedTurn(m, inst, hints) && (Stop(r).None? ==> TrustedRun(r.m, program, pc + inst.size, hints))
  }

  lemma {:induction false} TrustedParts(m: Machine, program: seq<byte>, pc: nat, hints: nat -> nat, inst: Instruction)
    requires m.alloc.planeSize > 0 && Fetch(program, pc) == Some(inst) && TrustedRun(m, program, pc, hints)
    ensures WellTyped(inst) && TrustedTurn(m, inst, hints)
    ensures Stop(Turn(m, true, inst, hints)).None? ==>
      TrustedRun(Turn(m, true, inst, hints).m, program, pc + inst.size, hints)
  {
    hide Turn, Fetch, Stop, TrustedTurn, WellTyped;
    FetchedIsWellTyped(program, pc);
  }

  /** The flat machine can take these instructions from `s` to `t`; all but the last succeed. */
  ghost predicate FlatRun(s: FlatState, insts: seq<Instruction>, planeSize: nat, t: FlatState)
    requires forall i | 0 <= i < |insts| :: WellTyped(insts[i])
    decreases |insts|
  {
    if insts == [] then s == t
    else exists u, status ::
      FlatStep(s, insts[0], planeSize, u, status) && (status == Fine || |insts| == 1)
      && FlatRun(u, insts[1..], planeSize, t)
  }

  lemma {:induction false} PaidWellTyped(m: Machine, on: bool, program: seq<byte>, pc: nat, hints: nat -> nat)
    requires m.alloc.planeSize > 0
    ensures var insts := Paid(m, on, program, pc, hints); forall i | 0 <= i < |insts| :: WellTyped(insts[i])
    decreases |program| - pc
  {
    hide Turn, Fetch, WellTyped, GasCost, Stop;
    match Fetch(program, pc)
    case None =>
    case Some(inst) =>
      hide Paid;
      FetchedIsWellTyped(program, pc);
      var r := Turn(m, on, inst, hints);
      PaidPass(m, on, program, pc, hints, inst, r);
      PaidWellTyped(r.m, on, program, pc + inst.size, hints);
  }

  /** One pass of the loop, with gas: the same with and without cache. */
  lemma {:induction false} TurnRefines(m: Machine, n: Machine, inst: Instruction, hints: nat -> nat)
    requires MachineInv(m) && Twins(m, n) && WellTyped(inst) && TrustedTurn(m, inst, hints)
    ensures m.alloc.planeSize > 0
    ensures var r, s := Turn(m, true, inst, hints), Turn(n, false, inst, hints);
      && s.status == r.status != Panic && Twins(r.m, s.m) && MachineInv(r.m)
      && (m.remaining < GasCost(inst) ==> Abs(r.m) == Abs(m))
      && (m.remaining >= GasCost(inst) ==> FlatStep(Abs(m), inst, m.alloc.planeSize, Abs(r.m), r.status))
  {
    hide MachineInv, Blocks, GasCost, Dispatch, FlatStep, WellTyped, Flat, TrackedOk, Apart, EntriesTracked,
      LinesOk, TrustedRequest;
    InvParts(m);
    var r := Turn(m, true, inst, hints);
    if m.remaining < GasCost(inst) {
      SameMemory(m, r.m);
    } else {
      var m', n' := Charged(m, GasCost(inst)), Charged(n, GasCost(inst));
      SameMemory(m, m');
      DispatchRefines(m', n', inst, hints);
      SameMemory(Dispatch(m', true, inst, hints).m, r.m);
    }
  }

  /** The cache cannot be observed: on every program whose requests are trusted, whatever it frees
      and whatever the plane size, the cached and the uncached machine end alike, equal in
      everything but the cache; the invariant survives, and nothing panics. */
  lemma {:induction false} ExecuteIgnoresCache(m: Machine, n: Machine, program: seq<byte>, pc: nat, hints: nat -> nat)
    requires MachineInv(m) && Twins(m, n) && m.alloc.planeSize > 0 && TrustedRun(m, program, pc, hints)
    ensures var r, s := Execute(m, true, program, pc, hints), Execute(n, false, program, pc, hints);
      s.ending == r.ending != Panicked && Twins(r.m, s.m) && MachineInv(r.m)
    decreases |program| - pc
  {
    hide MachineInv, Turn, Fetch, Execute, Stop, FlatStep, WellTyped, GasCost, TrustedRun, TrustedTurn, Paid, Abs,
      FlatRun,
      Flat, TrackedOk, Apart, EntriesTracked, LinesOk;
    InvParts(m);
    match Fetch(program, pc)
    case None =>
      ExecuteStuck(m, true, program, pc, hints);
      ExecuteStuck(n, false, program, pc, hints);
    case Some(inst) =>
      FetchedIsWellTyped(program, pc);
      TrustedParts(m, program, pc, hints, inst);
      var r, s := Turn(m, true, inst, hints), Turn(n, false, inst, hints);
      TurnRefines(m, n, inst, hints);
      ExecutePass(m, true, program, pc, hints, inst, r);
      ExecutePass(n, false, program, pc, hints, inst, s);
      SameStop(r, s);
      if Stop(r).None? {
        ExecuteIgnoresCache(r.m, s.m, program, pc + inst.size, hints);
      }
  }

  /** Memory is flat: what a program did to registers and blocks, the flat machine can do with
      the instructions that were paid for. */
  lemma {:induction false} ExecuteIsFlat(m: Machine, program: seq<byte>, pc: nat, hints: nat -> nat)
    requires MachineInv(m) && m.alloc.planeSize > 0 && TrustedRun(m, program, pc, hints)
    ensures var r, insts := Execute(m, true, program, pc, hints), Paid(m, true, program, pc, hints);
      && (forall i | 0 <= i < |insts| :: WellTyped(insts[i])) && MachineInv(r.m)
      && FlatRun(Abs(m), insts, m.alloc.planeSize, Abs(r.m))
    decreases |program| - pc
  {
    hide MachineInv, Turn, Fetch, Execute, Stop, FlatStep, WellTyped, GasCost, TrustedRun, TrustedTurn, Paid, Abs,
      FlatRun,
      Flat, TrackedOk, Apart, EntriesTracked, LinesOk;
    InvParts(m);
    PaidWellTyped(m, true, program, pc, hints);
    match Fetch(program, pc)
    case None =>
      ExecuteStuck(m, true, program, pc, hints);
      PaidStuck(m, true, program, pc, hints);
      FlatRunNothing(Abs(m), m.alloc.planeSize);
    case Some(inst) =>
      FetchedIsWellTyped(program, pc);
      TrustedParts(m, program, pc, hints, inst);
      var r := Turn(m, true, inst, hints);
      TurnRefines(m, m, inst, hints);
      ExecutePass(m, true, program, pc, hints, inst, r);
      PaidPass(m, true, program, pc, hints, inst, r);
      TurnCounts(m, true, inst, hints);
      var rest := if Stop(r).None? then Paid(r.m, true, program, pc + inst.size, hints) else [];
      if Stop(r).None? {
        ExecuteIsFlat(r.m, program, pc + inst.size, hints);
        GoingOn(r);
      } else {
        FlatRunNothing(Abs(r.m), m.alloc.planeSize);
        if m.remaining < GasCost(inst) { FlatRunNothing(Abs(m), m.alloc.planeSize); }
      }
      if m.remaining >= GasCost(inst) {
        FlatRunCons(Abs(m), inst, rest, m.alloc.planeSize, Abs(r.m), r.status, Abs(Execute(m, true, program, pc,
          hints).m));
      }
  }

  lemma {:induction false} PaidStuck(m: Machine, on: bool, program: seq<byte>, pc: nat, hints: nat -> nat)
    requires m.alloc.planeSize > 0 && Fetch(program, pc).None?
    ensures Paid(m, on, program, pc, hints) == []
  {
    hide Fetch;
  }

  lemma {:induction false} FlatRunNothing(s: FlatState, planeSize: nat)
    ensures FlatRun(s, [], planeSize, s)
  {
  }

  lemma {:induction false} FlatRunCons(
    s: FlatState, inst: Instruction, rest: seq<Instruction>, planeSize: nat, u: FlatState, status: Status, t: FlatState)
    requires WellTyped(inst) && forall i | 0 <= i < |rest| :: WellTyped(rest[i])
    requires FlatStep(s, inst, planeSize, u, status) && (status == Fine || rest == [])
    requires FlatRun(u, rest, planeSize, t)
    ensures FlatRun(s, [inst] + rest, planeSize, t)
  {
    hide FlatStep, WellTyped;
    var insts := [inst] + rest;
    assert insts[1..] == rest && insts[0] == inst;
  }

  lemma {:induction false} SameStop(r: Result, s: Result)
    requires r.status == s.status && Twins(r.m, s.m)
    ensures Stop(r) == Stop(s)
    ensures r.status != Panic ==> Stop(r) != Some(Panicked)
  {
  }
}
