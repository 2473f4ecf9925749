/** Runs whose requests are all trusted without looking at a bitmap: planes are small enough, or
    nothing is ever freed. */
module CarefulRuns {
  import opened FirstFit
  import opened Model
  import opened Placement
  import opened Runs
  import opened OnePlane
  import opened Trust
  import opened Instructions
  import opened Vm
  import opened Isolation
  import opened Execution
  import opened FlatMemory
  import opened VmRuns
  import opened Usage

  /** The program frees nothing, whatever position execution reaches. */
  ghost predicate NeverFrees(program: seq<byte>) {
    forall pc | 0 <= pc < |program| && Fetch(program, pc).Some? :: Fetch(program, pc).value.opcode != OP_MFREE3D
  }

  /** Frees leave nothing to check when planes are small enough. */
  ghost predicate Acceptable(planeSize: nat, program: seq<byte>) {
    planeSize <= SAFE_LENGTH || NeverFrees(program)
  }

  ghost predicate Admissible(planeSize: nat, e: Event) {
    match e
    case RunProgram(program) => Acceptable(planeSize, program)
    case PutBytes(_, data) => |data| < U32
    case NewBlock(size, _) => size < U32
  }

  lemma {:induction false} CarefulRequest(a: Allocator, size: nat, kind: nat, hint: nat)
    requires Flat(a) && Careful(a)
    ensures TrustedRequest(a, size, kind, hint)
  {
    hide Flat, Careful, Trusted;
    if size > 0 { CarefulIsTrusted(a, size, kind, hint); }
  }

  lemma {:induction false} SameUseKeepsCareful(a: Allocator, b: Allocator)
    requires Flat(a) && Flat(b) && SameUse(a, b) && Careful(a)
    ensures Careful(b)
  {
    hide Prefix, Shaped;
  }

  /** A turn makes a trusted request at most, and leaves the allocator careful. */
  lemma {:induction false} TurnKeepsCareful(m: Machine, inst: Instruction, hints: nat -> nat)
    requires MachineInv(m) && Careful(m.alloc) && WellTyped(inst) && m.alloc.planeSize > 0
    requires inst.opcode == OP_MFREE3D ==> m.alloc.planeSize <= SAFE_LENGTH
    ensures TrustedTurn(m, inst, hints) && MachineInv(Turn(m, true, inst, hints).m)
    ensures Careful(Turn(m, true, inst, hints).m.alloc)
  {
    hide MachineInv, Dispatch, GasCost, WellTyped, TrustedRequest, Flat, TrackedOk, Apart, EntriesTracked, LinesOk,
      PrefixState, SameUse;
    InvParts(m);
    if inst.opcode == OP_MALLOC3D {
      assert TrustedInst(m, inst, hints) by {
        AllocOperands(inst);
        CarefulRequest(m.alloc, inst.operands[0].value.size, inst.operands[1].value.kind, Hint(m, hints));
      }
    }
    TwinsRefl(m);
    TurnRefines(m, m, inst, hints);
    var r := Turn(m, true, inst, hints);
    InvParts(r.m);
    if m.alloc.planeSize > SAFE_LENGTH && GasCost(inst) <= m.remaining {
      DispatchKeepsPrefix(Charged(m, GasCost(inst)), inst, hints);
      if inst.opcode != OP_MALLOC3D { SameUseKeepsCareful(m.alloc, r.m.alloc); }
    }
  }

  lemma {:induction false} AllocOperands(inst: Instruction)
    requires WellTyped(inst) && inst.opcode == OP_MALLOC3D
    ensures |inst.operands| == 3 && inst.operands[0].value.VSize? && inst.operands[1].value.VRegionType?
    ensures inst.operands[0].value.size < U32 && inst.operands[2].value.VFlags?
  {
  }

  lemma {:induction false} DispatchKeepsPrefix(m: Machine, inst: Instruction, hints: nat -> nat)
    requires Flat(m.alloc) && Careful(m.alloc) && WellTyped(inst) && m.alloc.planeSize > 0 && inst.opcode != OP_MFREE3D
    ensures var b := Dispatch(m, true, inst, hints).m.alloc;
      if inst.opcode == OP_MALLOC3D then Careful(b) else SameUse(m.alloc, b)
  {
    hide Flat, Careful, SameUse, Allocate, ExecLoad, ExecStore, ExecFree, ExecCopy, ExecSize, Computed;
    var v := inst.operands;
    if inst.opcode == OP_MALLOC3D {
      AllocateKeepsCareful(m.alloc, v[0].value.size, v[1].value.kind, v[2].value.flags, Hint(m, hints));
    } else {
      QuietDispatch(m, inst, hints);
    }
  }

  lemma {:induction false} FetchedIsAcceptable(program: seq<byte>, pc: nat, planeSize: nat, inst: Instruction)
    requires Acceptable(planeSize, program) && Fetch(program, pc) == Some(inst)
    ensures inst.opcode == OP_MFREE3D ==> planeSize <= SAFE_LENGTH
  {
    FetchedIsWellTyped(program, pc);
  }

  /** Every acceptable program makes trusted requests only. */
  lemma {:induction false} ExecuteIsTrusted(m: Machine, program: seq<byte>, pc: nat, hints: nat -> nat)
    requires MachineInv(m) && Careful(m.alloc) && m.alloc.planeSize > 0 && Acceptable(m.alloc.planeSize, program)
    ensures TrustedRun(m, program, pc, hints) && Careful(Execute(m, true, program, pc, hints).m.alloc)
    decreases |program| - pc
  {
    hide MachineInv, Careful, Acceptable, Turn, Fetch, Execute, Stop, WellTyped, TrustedTurn;
    match Fetch(program, pc)
    case None => ExecuteStuck(m, true, program, pc, hints);
    case Some(inst) =>
      FetchedIsWellTyped(program, pc);
      FetchedIsAcceptable(program, pc, m.alloc.planeSize, inst);
      var r := Turn(m, true, inst, hints);
      TurnKeepsCareful(m, inst, hints);
      ExecutePass(m, true, program, pc, hints, inst, r);
      if Stop(r).None? {
        ExecuteIsTrusted(r.m, program, pc + inst.size, hints);
      }
  }

  /** A host store changes the used bytes as its allocation does, if it makes one. */
  lemma {:induction false} HostStoreUse(m: Machine, addr: Address, data: seq<byte>, hints: nat -> nat)
    requires |data| < U32 && m.alloc.planeSize > 0
    ensures var b := HostStore(m, true, addr, data, hints).m.alloc;
      SameUse(m.alloc, b) || SameUse(Allocate(m.alloc, |data|, HEAP, 0, Hint(m, hints)).a, b)
  {
    hide Allocate, Store3D, SameUse;
    SameUseRefl(m.alloc);
    StoreKeepsUsed(m.alloc, m.tracked, addr, data);
    var s := Allocate(m.alloc, |data|, HEAP, 0, Hint(m, hints));
    SameUseRefl(s.a);
    if s.outcome.Ok? {
      StoreKeepsUsed(s.a, Track(m.(alloc := s.a), s.outcome.alloc).tracked, s.outcome.alloc.addr, data);
    }
  }

  lemma {:induction false} HostStoreKeepsCareful(m: Machine, addr: Address, data: seq<byte>, hints: nat -> nat)
    requires MachineInv(m) && Careful(m.alloc) && |data| < U32 && m.alloc.planeSize > 0
    ensures MachineInv(HostStore(m, true, addr, data, hints).m)
    ensures Careful(HostStore(m, true, addr, data, hints).m.alloc)
  {
    hide *;
    InvParts(m);
    CarefulRequest(m.alloc, |data|, HEAP, Hint(m, hints));
    TwinsRefl(m);
    HostStoreRefines(m, m, addr, data, hints);
    var r := HostStore(m, true, addr, data, hints);
    InvParts(r.m);
    HostStoreUse(m, addr, data, hints);
    if SameUse(m.alloc, r.m.alloc) {
      SameUseKeepsCareful(m.alloc, r.m.alloc);
    } else {
      AllocateKeepsCareful(m.alloc, |data|, HEAP, 0, Hint(m, hints));
      AllocatedIsFlat(m, |data|, Hint(m, hints));
      SameUseKeepsCareful(Allocate(m.alloc, |data|, HEAP, 0, Hint(m, hints)).a, r.m.alloc);
    }
  }

  lemma {:induction false} AllocatedIsFlat(m: Machine, size: nat, hint: nat)
    requires MachineInv(m) && size < U32 && TrustedRequest(m.alloc, size, HEAP, hint) && m.alloc.planeSize > 0
    ensures Flat(Allocate(m.alloc, size, HEAP, 0, hint).a)
  {
    hide Allocate, Flat, TrackedOk, Apart, EntriesTracked, LinesOk, Trusted, IsFirstFit, Occupy, Enter, FreshPlane;
    if size > 0 {
      AllocateInFlat(m.alloc, size, HEAP, 0, hint);
    } else {
      AllocateNothing(m.alloc, HEAP, 0, hint);
    }
  }

  lemma {:induction false} HandleIsTrusted(m: Machine, e: Event, hints: nat -> nat)
    requires MachineInv(m) && Careful(m.alloc) && m.alloc.planeSize > 0 && Admissible(m.alloc.planeSize, e)
    ensures TrustedEvent(m, e, hints) && MachineInv(Handle(m, true, e, hints).0)
    ensures Careful(Handle(m, true, e, hints).0.alloc)
  {
    hide MachineInv, Careful, Execute, HostStore, Allocate, TrustedRun, TrustedRequest, Acceptable;
    InvParts(m);
    match e
    case RunProgram(program) =>
      ExecuteIsTrusted(m, program, 0, hints);
      ExecuteIgnoresCache(m, m, program, 0, hints);
    case PutBytes(addr, data) =>
      CarefulRequest(m.alloc, |data|, HEAP, Hint(m, hints));
      HostStoreKeepsCareful(m, addr, data, hints);
    case NewBlock(size, kind) =>
      CarefulRequest(m.alloc, size, kind, Hint(m, hints));
      AllocateKeepsCareful(m.alloc, size, kind, 0, Hint(m, hints));
      HostAllocateRefines(m, m, size, kind, hints);
  }

  /** Over every run of admissible events all requests are trusted: with planes of at most 43690
      bytes whatever the programs free, and for every plane size if they free nothing. */
  lemma {:induction false} RunsAreTrusted(m: Machine, events: seq<Event>, hints: nat -> nat)
    requires MachineInv(m) && Careful(m.alloc) && m.alloc.planeSize > 0
    requires forall i | 0 <= i < |events| :: Admissible(m.alloc.planeSize, events[i])
    ensures TrustedEvents(m, events, hints)
    decreases |events|
  {
    hide MachineInv, Careful, Admissible, Handle, TrustedEvent;
    if events != [] {
      HandleIsTrusted(m, events[0], hints);
      RunsAreTrusted(Handle(m, true, events[0], hints).0, events[1..], hints);
    }
  }

  lemma {:induction false} NewMachineCareful(planeSize: nat, maxY: nat, gasLimit: nat, limit: nat)
    requires 0 < planeSize < U16
    ensures Careful(NewMachine(planeSize, maxY, gasLimit, limit).alloc)
  {
  }

  lemma {:induction false} RunsFromNewAreTrusted(
    planeSize: nat, maxY: nat, gasLimit: nat, limit: nat, events: seq<Event>, hints: nat -> nat)
    requires 0 < planeSize < U16 && forall i | 0 <= i < |events| :: Admissible(planeSize, events[i])
    ensures TrustedEvents(NewMachine(planeSize, maxY, gasLimit, limit), events, hints)
  {
    hide MachineInv, Careful, Admissible, TrustedEvents;
    NewMachineInv(planeSize, maxY, gasLimit, limit);
    NewMachineCareful(planeSize, maxY, gasLimit, limit);
    RunsAreTrusted(NewMachine(planeSize, maxY, gasLimit, limit), events, hints);
  }
}
