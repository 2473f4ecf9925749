/** What assembled programs mean on a machine of blocks and registers, instruction by instruction
    and as a whole. */
module Programs {
  import opened Model
  import opened Effects
  import opened OnePlane
  import opened Codec
  import opened Instructions
  import opened Vm
  import opened Execution
  import opened Isolation
  import opened FlatMemory
  import opened Assembly

  /** The blocks and all registers but `r` are as before. */
  ghost predicate OnlyRegister(s: FlatState, t: FlatState, r: nat) {
    && t.blocks == s.blocks && |t.registers| == |s.registers|
    && forall q | q != r :: RegGet(t.registers, q) == RegGet(s.registers, q)
  }

  /** The meaning of an operation, in terms of its own operands. */
  ghost predicate Meaning(s: FlatState, op: Op, planeSize: nat, t: FlatState, status: Status) {
    match op
    case NopOp => status == Fine && t == s
    case HaltOp => status == Halt && t == s
    case AddOp(d, a, b) =>
      && status == Fine && OnlyRegister(s, t, d)
      && (d < |s.registers| ==>
            RegWord(t.registers, d) == (RegWord(s.registers, a) + RegWord(s.registers, b)) % U64)
    case SubOp(d, a, b) =>
      && status == Fine && OnlyRegister(s, t, d)
      && (d < |s.registers| ==>
            && RegWord(t.registers, d) < U64
            && (RegWord(t.registers, d) + RegWord(s.registers, b)) % U64 == RegWord(s.registers, a))
    case MovOp(d, a) =>
      && status == Fine && OnlyRegister(s, t, d)
      && (d < |s.registers| ==> RegGet(t.registers, d) == RegGet(s.registers, a))
    case LoadOp(addr, size, d) =>
      if addr in s.blocks && size <= |s.blocks[addr]| then
        && status == Fine && OnlyRegister(s, t, d)
        && (d < |s.registers| ==> RegGet(t.registers, d) == s.blocks[addr][..size])
      else status == Error && t == s
    case StoreOp(addr, a, size) =>
      if size <= |RegGet(s.registers, a)| && addr in s.blocks && size <= |s.blocks[addr]| then
        && status == Fine && t.registers == s.registers
        && t.blocks == s.blocks[addr := RegGet(s.registers, a)[..size] + s.blocks[addr][size..]]
      else status == Error && t == s
    case AllocOp(size, _, _) => FlatAllocate(s, size, planeSize, t, status)
    case FreeOp(addr) =>
      if addr in s.blocks then status == Fine && t == s.(blocks := s.blocks - {addr}) else status == Error && t == s
    case CopyOp(from, to, size) =>
      if from in s.blocks && size <= |s.blocks[from]| && to in s.blocks && size <= |s.blocks[to]| then
        && status == Fine && t.registers == s.registers
        && t.blocks == s.blocks[to := s.blocks[from][..size] + s.blocks[to][size..]]
      else status == Error && t == s
    case SizeOp(addr, d) =>
      && status == Fine && OnlyRegister(s, t, d)
      && (d < |s.registers| ==> RegWord(t.registers, d) == if addr in s.blocks then |s.blocks[addr]| % U64 else 0)
  }

  lemma {:induction false} DecodedIsWellTyped(op: Op)
    requires Fits(op)
    ensures WellTyped(Decoded(op))
  {
  }

  lemma {:induction false} ArithmeticMeans(s: FlatState, op: Op, planeSize: nat, t: FlatState, status: Status)
    requires Fits(op) && (op.AddOp? || op.SubOp? || op.MovOp?)
    requires WellTyped(Decoded(op)) && FlatStep(s, Decoded(op), planeSize, t, status)
    ensures Meaning(s, op, planeSize, t, status)
  {
    hide Computed, RegWord, RegGet;
    ComputedMeans(s.registers, Decoded(op));
  }

  lemma {:induction false} MemoryMeans(s: FlatState, op: Op, planeSize: nat, t: FlatState, status: Status)
    requires Fits(op) && (op.LoadOp? || op.StoreOp? || op.CopyOp? || op.FreeOp?)
    requires WellTyped(Decoded(op)) && FlatStep(s, Decoded(op), planeSize, t, status)
    ensures Meaning(s, op, planeSize, t, status)
  {
    hide Computed, RegWord;
  }

  lemma {:induction false} RestMeans(s: FlatState, op: Op, planeSize: nat, t: FlatState, status: Status)
    requires Fits(op) && (op.NopOp? || op.HaltOp? || op.AllocOp? || op.SizeOp?)
    requires WellTyped(Decoded(op)) && FlatStep(s, Decoded(op), planeSize, t, status)
    requires forall a | a in s.blocks :: |s.blocks[a]| < U64
    ensures Meaning(s, op, planeSize, t, status)
  {
    hide Put, Get, RegWord, FlatAllocate;
    if op.SizeOp? && op.dest < |s.registers| {
      WordReadsBack(s.registers, op.dest, if op.addr in s.blocks then |s.blocks[op.addr]| else 0);
    }
  }

  lemma {:induction false} FlatMeans(s: FlatState, op: Op, planeSize: nat, t: FlatState, status: Status)
    requires Fits(op) && WellTyped(Decoded(op)) && FlatStep(s, Decoded(op), planeSize, t, status)
    requires forall a | a in s.blocks :: |s.blocks[a]| < U64
    ensures Meaning(s, op, planeSize, t, status)
  {
    hide FlatStep, Meaning, Decoded, Fits, WellTyped;
    match op
    case AddOp(_, _, _) => ArithmeticMeans(s, op, planeSize, t, status);
    case SubOp(_, _, _) => ArithmeticMeans(s, op, planeSize, t, status);
    case MovOp(_, _) => ArithmeticMeans(s, op, planeSize, t, status);
    case LoadOp(_, _, _) => MemoryMeans(s, op, planeSize, t, status);
    case StoreOp(_, _, _) => MemoryMeans(s, op, planeSize, t, status);
    case CopyOp(_, _, _) => MemoryMeans(s, op, planeSize, t, status);
    case FreeOp(_) => MemoryMeans(s, op, planeSize, t, status);
    case _ => RestMeans(s, op, planeSize, t, status);
  }

  lemma {:induction false} BlocksAreSmall(m: Machine)
    requires MachineInv(m)
    ensures forall a | a in Abs(m).blocks :: |Abs(m).blocks[a]| < U64
  {
    hide MachineInv, Blocks, Flat, TrackedOk, Apart, EntriesTracked, LinesOk;
    InvParts(m);
    forall a | a in Blocks(m) ensures |Blocks(m)[a]| < U64 {
      BlockAt(m, a);
    }
  }

  /** An operation that is paid for and trusted does what it means, for its price. */
  lemma {:induction false} RunsAsMeant(m: Machine, op: Op, hints: nat -> nat)
    requires MachineInv(m) && Fits(op) && m.alloc.planeSize > 0 && WellTyped(Decoded(op))
    requires Price(op) <= m.remaining && TrustedTurn(m, Decoded(op), hints)
    ensures var r := Turn(m, true, Decoded(op), hints);
      && MachineInv(r.m) && Meaning(Abs(m), op, m.alloc.planeSize, Abs(r.m), r.status)
      && r.m.remaining == m.remaining - Price(op)
  {
    hide *;
    PriceOf(op);
    TwinsRefl(m);
    TurnRefines(m, m, Decoded(op), hints);
    TurnCounts(m, true, Decoded(op), hints);
    BlocksAreSmall(m);
    var r := Turn(m, true, Decoded(op), hints);
    FlatMeans(Abs(m), op, m.alloc.planeSize, Abs(r.m), r.status);
  }

  /** What an allocation that succeeds puts on record, for every plane size: one block under its
      own address, of the size and type asked for and, unless the fast path served it, with the
      flags asked for; register 0 gets that address. */
  lemma {:induction false} AllocatesAsAsked(m: Machine, op: Op, hints: nat -> nat) returns (alloc: Allocation)
    requires Fits(op) && op.AllocOp? && m.alloc.planeSize > 0 && WellTyped(Decoded(op))
    requires Turn(m, true, Decoded(op), hints).status == Fine
    ensures var r := Turn(m, true, Decoded(op), hints).m;
      && r.tracked == m.tracked[alloc.addr := alloc] && alloc.size == op.size && alloc.kind == op.kind
      && (alloc.flags == op.flags <==> op.flags == 0 || !FastScan(m.alloc, op.size, op.kind, 0).Hit?)
      && r.registers == RegSet(m.registers, 0, Bytes(alloc.addr))
  {
    hide Allocate, FastScan, RegSet, Bytes, GasCost;
    var s := Allocate(m.alloc, op.size, op.kind, op.flags, Hint(m, hints));
    alloc := s.outcome.alloc;
    GrantedParts(m.alloc, op.size, op.kind, op.flags, Hint(m, hints));
    FlagsSurviveIff(m.alloc, op.size, op.kind, op.flags, Hint(m, hints));
  }

  /** The price of an operation. */
  function Price(op: Op): nat {
    match op
    case NopOp => 1
    case HaltOp => 1
    case AddOp(_, _, _) => 3
    case SubOp(_, _, _) => 3
    case MovOp(_, _) => 2
    case LoadOp(_, size, _) => 10 + 2 * size
    case StoreOp(_, _, size) => 15 + 2 * size
    case AllocOp(size, _, _) => 20 + 2 * size
    case FreeOp(_) => 5
    case CopyOp(_, _, size) => 25 + 2 * size
    case SizeOp(_, _) => 5
  }

  lemma {:induction false} PriceOf(op: Op)
    requires Fits(op)
    ensures GasCost(Decoded(op)) == Price(op)
  {
    hide GasCost, SizeCost;
    CostByArity(Decoded(op));
  }

  // ------------------------------------------------------------------------ whole programs

  function AssembleAll(ops: seq<Op>): seq<byte>
    requires forall i | 0 <= i < |ops| :: Fits(ops[i])
  {
    if ops == [] then [] else Assemble(ops[0]) + AssembleAll(ops[1..])
  }

  /** What a run may still spend: gas, and instructions until the limit. */
  datatype Budget = Budget(gas: nat, turns: int)

  ghost function BudgetOf(m: Machine): Budget {
    Budget(m.remaining, m.maxInstructions - m.executed)
  }

  /** The budget after an operation that is paid for. */
  function Spend(b: Budget, op: Op): Budget
    requires Price(op) <= b.gas
  {
    Budget(b.gas - Price(op), b.turns - 1)
  }

  /** Why a run stops after an operation that leaves `b`. The gas left counts as a signed number. */
  function Verdict(status: Status, b: Budget): Option<Ending> {
    match status
    case Error => Some(Ending.Failed)
    case Panic => Some(Panicked)
    case _ =>
      if b.gas == 0 || b.gas >= 0x8000_0000_0000_0000 then Some(OutOfGas)
      else if b.turns <= 0 then Some(LimitReached)
      else if status == Halt then Some(Halted)
      else None
  }

  /** The operations take `s` and the budget `b`, one after the other, to `t` and `left`, and the
      run ends like this: at the first operation that cannot be paid for, that stops it, or after
      the last one. */
  ghost predicate MeansRun(
    s: FlatState, b: Budget, ops: seq<Op>, planeSize: nat, t: FlatState, left: nat, ending: Ending)
    decreases |ops|
  {
    if ops == [] then t == s && left == b.gas && ending == Completed
    else if b.gas < Price(ops[0]) then t == s && left == b.gas && ending == Ending.Failed
    else
      var c := Spend(b, ops[0]);
      exists u, status ::
        && Meaning(s, ops[0], planeSize, u, status)
        && match Verdict(status, c)
           case Some(e) => t == u && left == c.gas && ending == e
           case None => MeansRun(u, c, ops[1..], planeSize, t, left, ending)
  }

  lemma {:induction false} TrustedShifted(m: Machine, p: seq<byte>, q: seq<byte>, pc: nat, hints: nat -> nat)
    requires m.alloc.planeSize > 0
    ensures TrustedRun(m, p + q, |p| + pc, hints) == TrustedRun(m, q, pc, hints)
    decreases |q| - pc
  {
    hide Turn, Fetch, Stop, TrustedTurn;
    FetchAfter(p, q, pc);
    match Fetch(q, pc)
    case None =>
    case Some(inst) =>
      FetchedIsWellTyped(q, pc);
      FetchedIsWellTyped(p + q, |p| + pc);
      var r := Turn(m, true, inst, hints);
      if Stop(r).None? {
        TrustedShifted(r.m, p, q, pc + inst.size, hints);
        assert |p| + pc + inst.size == |p| + (pc + inst.size);
      }
  }

  lemma {:induction false} StopIsVerdict(r: Result)
    ensures Stop(r) == Verdict(r.status, BudgetOf(r.m))
  {
  }

  /** One operation at the front of a program. */
  lemma {:induction false} FirstOperation(m: Machine, op: Op, rest: seq<byte>, hints: nat -> nat)
    requires MachineInv(m) && m.alloc.planeSize > 0 && Fits(op) && TrustedRun(m, Assemble(op) + rest, 0, hints)
    ensures WellTyped(Decoded(op))
    ensures var r, o := Turn(m, true, Decoded(op), hints), Execute(m, true, Assemble(op) + rest, 0, hints);
      && TrustedTurn(m, Decoded(op), hints) && r.m.alloc.planeSize > 0
      && (Stop(r).Some? ==> o == Outcome(r.m, Stop(r).value))
      && (Stop(r).None? ==> o == Execute(r.m, true, rest, 0, hints) && TrustedRun(r.m, rest, 0, hints))
  {
    hide *;
    var code, inst := Assemble(op), Decoded(op);
    AssemblyEncodes(op);
    FetchOfAssembled([], code, op, rest);
    assert [] + code + rest == code + rest;
    DecodedIsWellTyped(op);
    var r := Turn(m, true, inst, hints);
    TrustedParts(m, code + rest, 0, hints, inst);
    ExecutePass(m, true, code + rest, 0, hints, inst, r);
    if Stop(r).None? {
      ExecuteShifted(r.m, true, code, rest, 0, hints);
      TrustedShifted(r.m, code, rest, 0, hints);
    }
  }

  lemma {:induction false} MeansMore(s: FlatState, b: Budget, ops: seq<Op>, planeSize: nat, u: FlatState,
                                     status: Status, t: FlatState, left: nat, ending: Ending)
    requires ops != [] && Price(ops[0]) <= b.gas && Meaning(s, ops[0], planeSize, u, status)
    requires match Verdict(status, Spend(b, ops[0]))
             case Some(e) => t == u && left == b.gas - Price(ops[0]) && ending == e
             case None => MeansRun(u, Spend(b, ops[0]), ops[1..], planeSize, t, left, ending)
    ensures MeansRun(s, b, ops, planeSize, t, left, ending)
  {
    hide Meaning, Price, Verdict;
  }

  /** An assembled program does what its operations mean, one after the other, and ends as its
      budget says: on the bytes, with the cache, on planes of any size and whatever it frees, as
      long as its requests are trusted. */
  lemma {:induction false} ProgramMeans(m: Machine, ops: seq<Op>, hints: nat -> nat)
    requires MachineInv(m) && m.alloc.planeSize > 0 && forall i | 0 <= i < |ops| :: Fits(ops[i])
    requires TrustedRun(m, AssembleAll(ops), 0, hints)
    ensures var o := Execute(m, true, AssembleAll(ops), 0, hints);
      && MachineInv(o.m)
      && MeansRun(Abs(m), BudgetOf(m), ops, m.alloc.planeSize, Abs(o.m), o.m.remaining, o.ending)
    decreases |ops|
  {
    hide MachineInv, TrustedRun, TrustedTurn, Execute, Turn, Stop, Fits, Assemble, Decoded, WellTyped,
      Abs, Meaning, MeansRun, Price, GasCost, Verdict;
    if ops == [] {
      NothingMeans(m, hints);
    } else {
      var op, rest := ops[0], AssembleAll(ops[1..]);
      FirstOperation(m, op, rest, hints);
      var r, o := Turn(m, true, Decoded(op), hints), Execute(m, true, AssembleAll(ops), 0, hints);
      StopIsVerdict(r);
      PriceOf(op);
      TurnCounts(m, true, Decoded(op), hints);
      if Price(op) <= m.remaining {
        RunsAsMeant(m, op, hints);
        if Stop(r).None? { ProgramMeans(r.m, ops[1..], hints); }
        MeansMore(Abs(m), BudgetOf(m), ops, m.alloc.planeSize, Abs(r.m), r.status, Abs(o.m), o.m.remaining, o.ending);
      } else {
        TwinsRefl(m);
        TurnRefines(m, m, Decoded(op), hints);
        RefusedMeans(m, ops, r);
      }
    }
  }

  lemma {:induction false} RefusedMeans(m: Machine, ops: seq<Op>, r: Result)
    requires MachineInv(m) && MachineInv(r.m) && ops != [] && m.remaining < Price(ops[0])
    requires r.status == Error && Abs(r.m) == Abs(m) && r.m.remaining == m.remaining
    ensures Verdict(r.status, BudgetOf(r.m)) == Some(Ending.Failed)
    ensures MeansRun(Abs(m), BudgetOf(m), ops, m.alloc.planeSize, Abs(r.m), r.m.remaining, Ending.Failed)
  {
    hide Meaning, Price, Abs, MachineInv;
  }

  lemma {:induction false} NothingMeans(m: Machine, hints: nat -> nat)
    requires MachineInv(m) && m.alloc.planeSize > 0
    ensures Execute(m, true, AssembleAll([]), 0, hints) == Outcome(m, Completed)
    ensures MeansRun(Abs(m), BudgetOf(m), [], m.alloc.planeSize, Abs(m), m.remaining, Completed)
  {
    hide MachineInv, Abs;
  }
}
