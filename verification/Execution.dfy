/** Whole programs: execution composes over concatenation, is bounded by gas, and accounts for
    every unit it spends. */
module Execution {
  import opened Model
  import opened Codec
  import opened Instructions
  import opened Vm

  // ------------------------------------------------------------------- composition

  /** One pass of the loop. */
  lemma {:induction false} ExecutePass(m: Machine, on: bool, program: seq<byte>, pc: nat, hints: nat -> nat,
      inst: Instruction, r: Result)
    requires m.alloc.planeSize > 0 && Fetch(program, pc) == Some(inst) && r == Turn(m, on, inst, hints)
    ensures pc < |program| && 0 < inst.size <= |program| - pc && r.m.alloc.planeSize > 0
    ensures Stop(r).Some? ==> Execute(m, on, program, pc, hints) == Outcome(r.m, Stop(r).value)
    ensures Stop(r).None? ==> Execute(m, on, program, pc, hints) == Execute(r.m, on, program, pc + inst.size, hints)
  {
    hide Turn, Fetch, Stop;
    FetchedIsWellTyped(program, pc);
  }

  lemma {:induction false} ExecuteStuck(m: Machine, on: bool, program: seq<byte>, pc: nat, hints: nat -> nat)
    requires m.alloc.planeSize > 0 && Fetch(program, pc).None?
    ensures Execute(m, on, program, pc, hints) == Outcome(m, if pc < |program| then Rejected else Completed)
  {
    hide Turn, Fetch;
  }

  /** Code behind a prefix runs as it would on its own. */
  lemma {:induction false} ExecuteShifted(m: Machine, on: bool, p: seq<byte>, q: seq<byte>, pc: nat, hints: nat -> nat)
    requires m.alloc.planeSize > 0
    ensures Execute(m, on, p + q, |p| + pc, hints) == Execute(m, on, q, pc, hints)
    decreases |q| - pc
  {
    hide Turn, Fetch, Execute, Stop;
    FetchAfter(p, q, pc);
    match Fetch(q, pc)
    case None =>
      ExecuteStuck(m, on, q, pc, hints);
      ExecuteStuck(m, on, p + q, |p| + pc, hints);
    case Some(inst) =>
      var r := Turn(m, on, inst, hints);
      ExecutePass(m, on, q, pc, hints, inst, r);
      ExecutePass(m, on, p + q, |p| + pc, hints, inst, r);
      if Stop(r).None? {
        ExecuteShifted(r.m, on, p, q, pc + inst.size, hints);
        assert |p| + pc + inst.size == |p| + (pc + inst.size);
      }
  }

  /** If `p` runs to completion without halting, then running `p` and `q` as one program is
      running `p` and then `q`: registers, memory, cache, gas and instruction count, and the way
      it ends. */
  lemma {:induction false} ExecuteComposes(m: Machine, on: bool, p: seq<byte>, q: seq<byte>, pc: nat, hints: nat -> nat)
    requires m.alloc.planeSize > 0 && pc <= |p|
    requires Execute(m, on, p, pc, hints).ending == Completed
    ensures Execute(m, on, p + q, pc, hints) == Execute(Execute(m, on, p, pc, hints).m, on, q, 0, hints)
    decreases |p| - pc
  {
    hide Turn, Fetch, Execute, Stop;
    match Fetch(p, pc)
    case None =>
      ExecuteStuck(m, on, p, pc, hints);
      ExecuteShifted(m, on, p, q, 0, hints);
    case Some(inst) =>
      var r := Turn(m, on, inst, hints);
      FetchBefore(p, q, pc);
      ExecutePass(m, on, p, pc, hints, inst, r);
      ExecutePass(m, on, p + q, pc, hints, inst, r);
      StopIsNotCompletion(r);
      ExecuteComposes(r.m, on, p, q, pc + inst.size, hints);
  }

  lemma {:induction false} StopIsNotCompletion(r: Result)
    ensures Stop(r) != Some(Completed)
  {
  }

  // ---------------------------------------------------------------------- computing

  lemma {:induction false} WordIsSmall(registers: seq<seq<byte>>, r: nat)
    ensures RegWord(registers, r) < U64
  {
    hide Get;
    var data := RegGet(registers, r);
    if |data| >= 8 { GetWidths(data[..8]); }
  }

  /** A word written to a register is read back. */
  lemma {:induction false} WordReadsBack(registers: seq<seq<byte>>, r: nat, v: nat)
    requires v < U64 && r < |registers|
    ensures RegWord(RegSet(registers, r, Put(v, 8)), r) == v
  {
    hide Get, Put;
    assert v < Pow256(8) by { EightBytes(); }
    GetPut(v, 8);
    assert Put(v, 8)[..8] == Put(v, 8);
  }

  lemma {:induction false} EightBytes()
    ensures Pow256(8) == U64
  {
    assert Pow256(2) == 0x1_0000;
    assert Pow256(4) == 0x1_0000 * Pow256(2);
    assert Pow256(6) == 0x1_0000 * Pow256(4);
    assert Pow256(8) == 0x1_0000 * Pow256(6);
  }

  /** What the computing instructions mean: the target's word becomes the sum or the difference
      of the sources' words modulo 2^64, or the target becomes a copy of the source; no other
      register changes. */
  lemma {:induction false} ComputedMeans(registers: seq<seq<byte>>, inst: Instruction)
    requires WellTyped(inst)
    requires inst.opcode == OP_ADD3D || inst.opcode == OP_SUB3D || inst.opcode == OP_MOV3D
    ensures var after, v := Computed(registers, inst), inst.operands;
      var d, s := v[0].value.register, v[1].value.register;
      && |after| == |registers|
      && (forall r | r != d :: RegGet(after, r) == RegGet(registers, r))
      && (d < |registers| && inst.opcode == OP_MOV3D ==> RegGet(after, d) == RegGet(registers, s))
      && (d < |registers| && inst.opcode == OP_ADD3D ==>
            RegWord(after, d) == (RegWord(registers, s) + RegWord(registers, v[2].value.register)) % U64)
      && (d < |registers| && inst.opcode == OP_SUB3D ==>
            && RegWord(after, d) < U64
            && (RegWord(after, d) + RegWord(registers, v[2].value.register)) % U64 == RegWord(registers, s))
  {
    hide Put, RegWord;
    var v := inst.operands;
    var d, s := v[0].value.register, v[1].value.register;
    if d < |registers| && inst.opcode != OP_MOV3D {
      var x, y := RegWord(registers, s), RegWord(registers, v[2].value.register);
      WordIsSmall(registers, s);
      WordIsSmall(registers, v[2].value.register);
      SubAddsBack(x, y);
      WordReadsBack(registers, d, if inst.opcode == OP_ADD3D then (x + y) % U64 else (x + U64 - y % U64) % U64);
    }
  }

  lemma {:induction false} SubAddsBack(x: nat, y: nat)
    requires x < U64 && y < U64
    ensures ((x + U64 - y % U64) % U64 + y) % U64 == x
  {
    if x >= y {
      assert (x + U64 - y) % U64 == x - y;
    } else {
      assert (x + U64 - y) % U64 == x + U64 - y;
    }
  }

  /** How the contents of a register read as a word: fewer than eight bytes and numbers past the
      general registers as zero, more than eight by the first eight alone, and the address that an
      allocation leaves in a register as its region. */
  lemma {:induction false} RegisterReads(registers: seq<seq<byte>>, r: nat, data: seq<byte>, addr: Address)
    ensures r >= |registers| ==> RegWord(registers, r) == 0
    ensures r < |registers| && |data| < 8 ==> RegWord(RegSet(registers, r, data), r) == 0
    ensures r < |registers| && |data| >= 8 ==>
      && RegWord(RegSet(registers, r, data), r) == RegWord(RegSet(registers, r, data[..8]), r)
      && Put(RegWord(RegSet(registers, r, data), r), 8) == data[..8]
    ensures r < |registers| && InRange(addr) ==> RegWord(RegSet(registers, r, Bytes(addr)), r) == addr.x
  {
    hide Get, Put, Pow256;
    if |data| >= 8 {
      PutGet(data[..8]);
      assert data[..8][..8] == data[..8];
    }
    if InRange(addr) {
      GetPut(addr.x, 8);
      assert Bytes(addr)[..8] == Put(addr.x, 8);
    }
  }

  // -------------------------------------------------------------------- bounds and gas

  /** The price of a run of instructions. */
  function TotalCost(insts: seq<Instruction>): nat {
    if insts == [] then 0 else GasCost(insts[0]) + TotalCost(insts[1..])
  }

  /** The instructions that `Execute` charges for and runs, in order. */
  ghost function Paid(m: Machine, on: bool, program: seq<byte>, pc: nat, hints: nat -> nat): seq<Instruction>
    requires m.alloc.planeSize > 0
    decreases |program| - pc
  {
    if Fetch(program, pc).None? then []
    else
      var inst := Fetch(program, pc).value;
      FetchedIsWellTyped(program, pc);
      if m.remaining < GasCost(inst) then []
      else
        var r := Turn(m, on, inst, hints);
        [inst] + (if Stop(r).None? then Paid(r.m, on, program, pc + inst.size, hints) else [])
  }

  lemma {:induction false} PaidPass(m: Machine, on: bool, program: seq<byte>, pc: nat, hints: nat -> nat,
      inst: Instruction, r: Result)
    requires m.alloc.planeSize > 0 && Fetch(program, pc) == Some(inst) && r == Turn(m, on, inst, hints)
    ensures r.m.alloc.planeSize > 0
    ensures Paid(m, on, program, pc, hints)
         == if m.remaining < GasCost(inst) then []
            else [inst] + (if Stop(r).None? then Paid(r.m, on, program, pc + inst.size, hints) else [])
  {
    hide Turn, Fetch, GasCost, Stop;
    FetchedIsWellTyped(program, pc);
  }

  /** Handlers touch neither gas nor the instruction counters. */
  lemma {:induction false} DispatchKeepsCounters(m: Machine, on: bool, inst: Instruction, hints: nat -> nat)
    requires m.alloc.planeSize > 0
    ensures var n := Dispatch(m, on, inst, hints).m;
      n.remaining == m.remaining && n.used == m.used && n.executed == m.executed
        && n.maxInstructions == m.maxInstructions
  {
    hide WellTyped, Allocate, Lookup, Load3D, Store3D, Free, RegSet, RegGet, Put, Bytes, Computed, Debit;
  }

  lemma {:induction false} EveryInstructionCosts(program: seq<byte>, pc: nat)
    requires Fetch(program, pc).Some?
    ensures GasCost(Fetch(program, pc).value) >= 1
  {
    FetchedIsWellTyped(program, pc);
  }

  /** One instruction: the gas it takes, and that it counts once. */
  lemma {:induction false} TurnCounts(m: Machine, on: bool, inst: Instruction, hints: nat -> nat)
    requires m.alloc.planeSize > 0
    ensures var r := Turn(m, on, inst, hints);
      && r.m.executed == m.executed + 1 && r.m.maxInstructions == m.maxInstructions
      && (m.remaining < GasCost(inst) ==> r.status == Error && r.m.remaining == m.remaining && r.m.used == m.used)
      && (m.remaining >= GasCost(inst) ==>
            r.m.remaining == m.remaining - GasCost(inst) && r.m.used == (m.used + GasCost(inst)) % U64)
  {
    if m.remaining >= GasCost(inst) {
      DispatchKeepsCounters(Charged(m, GasCost(inst)), on, inst, hints);
    }
  }

  lemma {:induction false} UsedAdds(u: nat, c: nat, s: nat)
    ensures ((u + c) % U64 + s) % U64 == (u + (c + s)) % U64
  {
  }

  /** The gas spent is the sum of the charges, and at most one instruction, one it cannot pay
      for, runs beyond those charged. */
  lemma {:induction false} ExecuteAccounts(m: Machine, on: bool, program: seq<byte>, pc: nat, hints: nat -> nat)
    requires m.alloc.planeSize > 0 && m.used < U64
    ensures var r, c := Execute(m, on, program, pc, hints), Paid(m, on, program, pc, hints);
      && TotalCost(c) <= m.remaining && r.m.remaining == m.remaining - TotalCost(c)
      && r.m.used == (m.used + TotalCost(c)) % U64
      && m.executed + |c| <= r.m.executed <= m.executed + |c| + 1
    decreases |program| - pc
  {
    hide Turn, Fetch, GasCost, Execute, Stop;
    match Fetch(program, pc)
    case None => ExecuteStuck(m, on, program, pc, hints);
    case Some(inst) =>
      var r := Turn(m, on, inst, hints);
      TurnCounts(m, on, inst, hints);
      ExecutePass(m, on, program, pc, hints, inst, r);
      PaidPass(m, on, program, pc, hints, inst, r);
      if m.remaining < GasCost(inst) {
        ErrorStops(r);
      } else if Stop(r).None? {
        ExecuteAccounts(r.m, on, program, pc + inst.size, hints);
        var rest := Paid(r.m, on, program, pc + inst.size, hints);
        UsedAdds(m.used, GasCost(inst), TotalCost(rest));
        assert ([inst] + rest)[1..] == rest;
      } else {
        assert [inst][1..] == [];
      }
  }

  lemma {:induction false} ErrorStops(r: Result)
    requires r.status == Error
    ensures Stop(r).Some?
  {
  }

  lemma {:induction false} GoingOn(r: Result)
    requires Stop(r).None?
    ensures ReportedRemaining(r.m) > 0 && r.m.remaining > 0 && r.m.executed < r.m.maxInstructions && r.status == Fine
  {
  }

  /** `Execute` runs no more than `max(1, remaining gas)` instructions, and stays within the
      instruction limit if it began below it. */
  lemma {:induction false} ExecuteIsBounded(m: Machine, on: bool, program: seq<byte>, pc: nat, hints: nat -> nat)
    requires m.alloc.planeSize > 0
    ensures var n := Execute(m, on, program, pc, hints).m;
      && n.executed - m.executed <= (if m.remaining > 1 then m.remaining else 1)
      && n.executed <= (if m.executed < m.maxInstructions then m.maxInstructions else m.executed + 1)
    decreases |program| - pc
  {
    hide Turn, Fetch, GasCost, Execute, Stop;
    match Fetch(program, pc)
    case None => ExecuteStuck(m, on, program, pc, hints);
    case Some(inst) =>
      var r := Turn(m, on, inst, hints);
      EveryInstructionCosts(program, pc);
      TurnCounts(m, on, inst, hints);
      ExecutePass(m, on, program, pc, hints, inst, r);
      if Stop(r).None? {
        GoingOn(r);
        ExecuteIsBounded(r.m, on, program, pc + inst.size, hints);
      }
  }

  /** A program that is not empty ends well only with gas left and below the instruction
      limit. */
  lemma {:induction false} ExecuteEndsWell(m: Machine, on: bool, program: seq<byte>, pc: nat, hints: nat -> nat)
    requires m.alloc.planeSize > 0 && pc < |program|
    requires var e := Execute(m, on, program, pc, hints).ending; e == Completed || e == Halted
    ensures var n := Execute(m, on, program, pc, hints).m;
      ReportedRemaining(n) > 0 && n.executed < n.maxInstructions == m.maxInstructions
    decreases |program| - pc
  {
    hide Turn, Fetch, Execute, GasCost;
    match Fetch(program, pc)
    case None => ExecuteStuck(m, on, program, pc, hints);
    case Some(inst) =>
      var r := Turn(m, on, inst, hints);
      TurnCounts(m, on, inst, hints);
      ExecutePass(m, on, program, pc, hints, inst, r);
      if Stop(r).None? {
        if pc + inst.size < |program| {
          ExecuteEndsWell(r.m, on, program, pc + inst.size, hints);
        } else {
          NothingToFetch(program, pc + inst.size);
          ExecuteStuck(r.m, on, program, pc + inst.size, hints);
        }
      }
  }

  lemma {:induction false} NothingToFetch(program: seq<byte>, pc: nat)
    requires pc >= |program|
    ensures Fetch(program, pc).None?
  {
  }

  /** Only the halting instruction halts. */
  lemma {:induction false} HaltsIff(m: Machine, on: bool, inst: Instruction, hints: nat -> nat)
    requires m.alloc.planeSize > 0 && WellTyped(inst)
    ensures Dispatch(m, on, inst, hints).status == Halt <==> inst.opcode == OP_HALT3D
  {
    hide Allocate, Lookup, Load3D, Store3D, Free, RegSet, RegGet, Put, Bytes, Computed, Debit;
  }

  /** A run ends for the reason it gives: out of gas only with nothing left that counts as a
      positive signed number, at the limit only when it is reached, and otherwise with gas left
      and below the limit; it ends halted only if the last instruction paid for is the halting one,
      and no earlier one ever is. */
  lemma {:induction false} ExecuteEndings(m: Machine, on: bool, program: seq<byte>, pc: nat, hints: nat -> nat)
    requires m.alloc.planeSize > 0
    ensures var r, paid := Execute(m, on, program, pc, hints), Paid(m, on, program, pc, hints);
      && (r.ending == OutOfGas ==> r.m.remaining == 0 || r.m.remaining >= 0x8000_0000_0000_0000)
      && (r.ending == LimitReached ==>
            0 < r.m.remaining < 0x8000_0000_0000_0000 && r.m.executed >= r.m.maxInstructions)
      && ((r.ending == Completed || r.ending == Halted) && r.m.executed > m.executed ==>
            0 < r.m.remaining < 0x8000_0000_0000_0000 && r.m.executed < r.m.maxInstructions)
      && (forall i | 0 <= i < |paid| - 1 :: paid[i].opcode != OP_HALT3D)
      && (r.ending == Halted ==> paid != [] && paid[|paid| - 1].opcode == OP_HALT3D)
      && (r.ending == Completed || r.ending == Rejected ==> paid == [] || paid[|paid| - 1].opcode != OP_HALT3D)
      && r.m.executed >= m.executed && (r.m.executed == m.executed ==> r.m == m)
    decreases |program| - pc
  {
    hide Turn, Fetch, GasCost, Execute, Stop, WellTyped, Paid;
    match Fetch(program, pc)
    case None =>
      ExecuteStuck(m, on, program, pc, hints);
      PaidNothing(m, on, program, pc, hints);
    case Some(inst) =>
      var r := Turn(m, on, inst, hints);
      FetchedIsWellTyped(program, pc);
      TurnCounts(m, on, inst, hints);
      TurnHaltsIff(m, on, inst, hints);
      ExecutePass(m, on, program, pc, hints, inst, r);
      PaidPass(m, on, program, pc, hints, inst, r);
      StopMeans(r);
      if Stop(r).None? {
        ExecuteEndings(r.m, on, program, pc + inst.size, hints);
      }
  }

  lemma {:induction false} PaidNothing(m: Machine, on: bool, program: seq<byte>, pc: nat, hints: nat -> nat)
    requires m.alloc.planeSize > 0 && Fetch(program, pc).None?
    ensures Paid(m, on, program, pc, hints) == []
  {
    hide Fetch;
  }

  lemma {:induction false} TurnHaltsIff(m: Machine, on: bool, inst: Instruction, hints: nat -> nat)
    requires m.alloc.planeSize > 0 && WellTyped(inst)
    ensures Turn(m, on, inst, hints).status == Halt <==> inst.opcode == OP_HALT3D && GasCost(inst) <= m.remaining
  {
    hide Dispatch, GasCost, WellTyped;
    if GasCost(inst) <= m.remaining { HaltsIff(Charged(m, GasCost(inst)), on, inst, hints); }
  }

  /** When the loop goes on, and why it stops. */
  lemma {:induction false} StopMeans(r: Result)
    ensures var left := 0 < r.m.remaining < 0x8000_0000_0000_0000;
      && (Stop(r).None? <==> r.status == Fine && left && r.m.executed < r.m.maxInstructions)
      && (Stop(r) == Some(OutOfGas) ==> !left)
      && (Stop(r) == Some(LimitReached) ==> left && r.m.executed >= r.m.maxInstructions)
      && (Stop(r) == Some(Halted) <==> r.status == Halt && left && r.m.executed < r.m.maxInstructions)
      && Stop(r) != Some(Completed) && Stop(r) != Some(Rejected)
  {
  }

  // -------------------------------------------------------------------------- host calls

  /** A host store that succeeds takes fifteen units a byte; one that fails takes none. */
  lemma {:induction false} HostStoreCharges(m: Machine, on: bool, addr: Address, data: seq<byte>, hints: nat -> nat)
    requires m.alloc.planeSize > 0
    ensures var r := HostStore(m, on, addr, data, hints);
      && (r.status == Fine ==>
            && 15 * |data| <= m.remaining && r.m.remaining == m.remaining - 15 * |data|
            && r.m.used == (m.used + 15 * |data|) % U64)
      && (r.status != Fine ==> r.m.remaining == m.remaining && r.m.used == m.used)
  {
    hide Store3D, Allocate;
  }
}
