/** What loads return after any run: the bytes that the last store left, whatever else happened to
    other blocks in between. */
module Reads {
  import opened M = Model
  import opened OnePlane
  import opened Codec
  import opened Instructions
  import opened Vm
  import opened Isolation
  import opened Execution
  import opened FlatMemory
  import opened VmRuns

  /** The instruction stores to, copies to or frees the block at `addr`. */
  ghost predicate Touches(inst: Instruction, addr: Address) {
    && WellTyped(inst)
    && (inst.opcode == OP_MSTORE3D || inst.opcode == OP_MFREE3D || inst.opcode == OP_MCOPY3D)
    && inst.operands[if inst.opcode == OP_MCOPY3D then 1 else 0].value.address == addr
  }

  lemma {:induction false} FlatStepKeeps(s: FlatState, inst: Instruction, planeSize: nat, t: FlatState,
      status: Status, addr: Address)
    requires WellTyped(inst) && FlatStep(s, inst, planeSize, t, status) && addr in s.blocks && !Touches(inst, addr)
    ensures addr in t.blocks && t.blocks[addr] == s.blocks[addr]
  {
    hide Computed, RegSet, RegGet, Put, Bytes, Patched;
  }

  lemma {:induction false} FlatRunKeeps(s: FlatState, insts: seq<Instruction>, planeSize: nat, t: FlatState,
      addr: Address)
    requires forall i | 0 <= i < |insts| :: WellTyped(insts[i]) && !Touches(insts[i], addr)
    requires FlatRun(s, insts, planeSize, t) && addr in s.blocks
    ensures addr in t.blocks && t.blocks[addr] == s.blocks[addr]
    decreases |insts|
  {
    hide FlatStep, WellTyped, Touches;
    if insts != [] {
      var u, status :| FlatStep(s, insts[0], planeSize, u, status) && FlatRun(u, insts[1..], planeSize, t);
      FlatStepKeeps(s, insts[0], planeSize, u, status, addr);
      FlatRunKeeps(u, insts[1..], planeSize, t, addr);
    }
  }

  /** A program that pays for no store, copy or free at `addr` leaves that block's bytes alone. */
  lemma {:induction false} ExecuteKeepsBlock(m: Machine, program: seq<byte>, hints: nat -> nat, addr: Address)
    requires MachineInv(m) && m.alloc.planeSize > 0 && TrustedRun(m, program, 0, hints) && addr in Blocks(m)
    requires forall i | 0 <= i < |Paid(m, true, program, 0, hints)| :: !Touches(Paid(m, true, program, 0, hints)[i],
      addr)
    ensures var n := Execute(m, true, program, 0, hints).m;
      MachineInv(n) && addr in Blocks(n) && Blocks(n)[addr] == Blocks(m)[addr]
  {
    hide MachineInv, Execute, Paid, FlatRun, Blocks, TrustedRun, Touches, WellTyped, Flat, TrackedOk;
    ExecuteIsFlat(m, program, 0, hints);
    FlatRunKeeps(Abs(m), Paid(m, true, program, 0, hints), m.alloc.planeSize, Abs(Execute(m, true, program, 0,
      hints).m), addr);
  }

  lemma {:induction false} HostAllocateKeepsBlock(m: Machine, size: nat, kind: nat, hints: nat -> nat, addr: Address)
    requires MachineInv(m) && size < U32 && addr in Blocks(m) && m.alloc.planeSize > 0
    requires TrustedRequest(m.alloc, size, kind, Hint(m, hints))
    ensures var n := HostAllocate(m, size, kind, hints).m;
      MachineInv(n) && addr in Blocks(n) && Blocks(n)[addr] == Blocks(m)[addr]
  {
    hide MachineInv, HostAllocate, Blocks, Flat, TrackedOk, TrustedRequest;
    TwinsRefl(m);
    HostAllocateRefines(m, m, size, kind, hints);
  }

  lemma {:induction false} HostStoreKeepsBlock(m: Machine, to: Address, data: seq<byte>, hints: nat -> nat,
      addr: Address)
    requires MachineInv(m) && |data| < U32 && addr in Blocks(m) && to != addr && m.alloc.planeSize > 0
    requires to !in m.tracked ==> TrustedRequest(m.alloc, |data|, HEAP, Hint(m, hints))
    ensures var n := HostStore(m, true, to, data, hints).m;
      MachineInv(n) && addr in Blocks(n) && Blocks(n)[addr] == Blocks(m)[addr]
  {
    hide MachineInv, HostStore, Blocks, Patched, Flat, TrackedOk, TrustedRequest;
    TwinsRefl(m);
    HostStoreRefines(m, m, to, data, hints);
  }

  /** The event does not store to, copy to or free the block at `addr`. */
  ghost predicate Spares(m: Machine, e: Event, hints: nat -> nat, addr: Address)
    requires m.alloc.planeSize > 0
  {
    match e
    case RunProgram(program) =>
      forall i | 0 <= i < |Paid(m, true, program, 0, hints)| :: !Touches(Paid(m, true, program, 0, hints)[i], addr)
    case PutBytes(to, _) => to != addr
    case NewBlock(_, _) => true
  }

  ghost predicate AllSpare(m: Machine, events: seq<Event>, hints: nat -> nat, addr: Address)
    requires m.alloc.planeSize > 0
    decreases |events|
  {
    events == [] ||
    (Spares(m, events[0], hints, addr) && AllSpare(Handle(m, true, events[0], hints).0, events[1..], hints, addr))
  }

  lemma {:induction false} HandleKeepsBlock(m: Machine, e: Event, hints: nat -> nat, addr: Address)
    requires MachineInv(m) && m.alloc.planeSize > 0 && TrustedEvent(m, e, hints) && addr in Blocks(m)
    requires Spares(m, e, hints, addr)
    ensures var n := Handle(m, true, e, hints).0;
      MachineInv(n) && addr in Blocks(n) && Blocks(n)[addr] == Blocks(m)[addr]
  {
    hide MachineInv, Execute, HostStore, HostAllocate, Blocks, Paid, Touches, Flat, TrackedOk, TrustedRun,
      TrustedRequest;
    match e
    case RunProgram(program) => ExecuteKeepsBlock(m, program, hints, addr);
    case PutBytes(to, data) => HostStoreKeepsBlock(m, to, data, hints, addr);
    case NewBlock(size, kind) => HostAllocateKeepsBlock(m, size, kind, hints, addr);
  }

  /** Isolation over runs: whatever programs and host calls do to other blocks, this one keeps its
      bytes. */
  lemma {:induction false} RunsKeepBlock(m: Machine, events: seq<Event>, hints: nat -> nat, addr: Address)
    requires MachineInv(m) && addr in Blocks(m) && m.alloc.planeSize > 0
    requires TrustedEvents(m, events, hints) && AllSpare(m, events, hints, addr)
    ensures var n := HandleAll(m, true, events, hints).0;
      MachineInv(n) && addr in Blocks(n) && Blocks(n)[addr] == Blocks(m)[addr]
    decreases |events|
  {
    hide MachineInv, Handle, Blocks, TrustedEvent, Spares, Flat, TrackedOk;
    if events != [] {
      HandleKeepsBlock(m, events[0], hints, addr);
      RunsKeepBlock(Handle(m, true, events[0], hints).0, events[1..], hints, addr);
    }
  }

  /** Read your writes: after a successful store of `data` at `addr` and then any run that leaves
      the block alone, every load of at most that many bytes returns the front of `data`, through
      the cache or not. */
  lemma {:induction false} LastStoreWins(m: Machine, addr: Address, reg: nat, size: nat, events: seq<Event>,
      hints: nat -> nat, k: nat)
    requires MachineInv(m) && size < U32 && k <= size && m.alloc.planeSize > 0
    requires ExecStore(m, true, addr, reg, size).status == Fine
    requires var n := ExecStore(m, true, addr, reg, size).m;
      TrustedEvents(n, events, hints) && AllSpare(n, events, hints, addr)
    ensures var last := HandleAll(ExecStore(m, true, addr, reg, size).m, true, events, hints).0;
      var data := RegGet(m.registers, reg);
      && k <= |data| && Load3D(last.alloc, last.tracked, addr, k) == Loaded(data[..k])
      && forall r, on: bool :: var l := ExecLoad(last, on, addr, k, r);
           l.status == Fine && l.m.registers == RegSet(last.registers, r, data[..k])
  {
    hide MachineInv, ExecStore, HandleAll, AllSpare, TrustedEvents, Blocks, Load3D, RegGet, RegSet, Patched,
      Flat, TrackedOk;
    TwinsRefl(m);
    InvParts(m);
    StoreRefines(m, m, addr, reg, size);
    var data, n := RegGet(m.registers, reg), ExecStore(m, true, addr, reg, size).m;
    PatchedFront(Blocks(m)[addr], data[..size]);
    RunsKeepBlock(n, events, hints, addr);
    var last := HandleAll(n, true, events, hints).0;
    LoadIsFlat(last, addr, k);
    assert data[..size][..k] == data[..k];
    assert Patched(Blocks(m)[addr], data[..size])[..k] == data[..size][..k];
    forall r, on: bool ensures var l := ExecLoad(last, on, addr, k, r);
      l.status == Fine && l.m.registers == RegSet(last.registers, r, data[..k])
    {
      TwinsRefl(last);
      LoadRefines(last, last, addr, k, r);
    }
  }
}
