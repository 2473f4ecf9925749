/** The virtual machine on values: memory manager, instruction handlers, gas and the execution
    loop. The cache is the map its lookups see. */
module Vm {
  import opened FirstFit
  import opened Model
  import opened Codec
  import opened Instructions

  datatype Machine = Machine(
    alloc: Allocator,
    tracked: map<Address, Allocation>,
    usage: map<nat, nat>,
    cache: map<Address, seq<byte>>,
    registers: seq<seq<byte>>,
    remaining: nat, used: nat,
    executed: nat, maxInstructions: nat)

  // ------------------------------------------------------------------ memory manager

  /** An address inside a fragment of a Y-promoted allocation; the region is not compared. */
  ghost predicate InFragment(alloc: Allocation, addr: Address) {
    alloc.IsYPromoted() &&
    exists k :: 0 <= k < |alloc.fragments| &&
      var f := alloc.fragments[k];
      addr.y == f.plane && f.start <= addr.z < (f.start + f.size) % U16
  }

  /** `getAllocation`: an exact match, else some promoted allocation around the address. */
  ghost function Lookup(tracked: map<Address, Allocation>, addr: Address): Option<Allocation> {
    if addr in tracked then Some(tracked[addr])
    else if k :| k in tracked && InFragment(tracked[k], addr) then Some(tracked[k])
    else None
  }

  datatype Access = Granted(x: nat, plane: nat) | NotAllocated | Denied | Faulted

  /** The checks `Load3D` and `Store3D` share, in their mixed 16- and 32-bit arithmetic.
      `Faulted` is a slice panic. */
  ghost function Check(a: Allocator, tracked: map<Address, Allocation>, addr: Address, size: nat): (r: Access)
    ensures r.Granted? ==> r.x == addr.x && r.x in a.regions && r.plane < |a.regions[r.x].planes|
                           && addr.z <= (addr.z + size) % U32 <= |a.regions[r.x].planes[r.plane].data|
  {
    match Lookup(tracked, addr)
    case None => NotAllocated
    case Some(alloc) =>
      var relStart := (addr.z + U16 - alloc.addr.z) % U16;
      var endOffset := (relStart + size % U16) % U16;
      if endOffset > alloc.size % U16 then Denied
      else if addr.x !in a.regions then Denied
      else
        var planes := a.regions[addr.x].planes;
        var i := FindPlane(planes, addr.y);
        if i == |planes| then Denied
        else
          var planeEnd := (addr.z + size) % U32;
          if planeEnd > |planes[i].data| then Denied
          else if planeEnd < addr.z then Faulted
          else Granted(addr.x, i)
  }

  datatype Load = Loaded(data: seq<byte>) | LoadError | LoadPanic

  ghost function Load3D(a: Allocator, tracked: map<Address, Allocation>, addr: Address, size: nat): Load {
    match Check(a, tracked, addr, size)
    case Granted(x, i) => Loaded(a.regions[x].planes[i].data[addr.z..(addr.z + size) % U32])
    case Faulted => LoadPanic
    case _ => LoadError
  }

  datatype Store = Stored(a: Allocator) | StoreUnallocated | StoreError | StorePanic

  ghost function Store3D(a: Allocator, tracked: map<Address, Allocation>, addr: Address, data: seq<byte>): (s: Store)
    ensures s.Stored? ==> s.a.planeSize == a.planeSize
  {
    match Check(a, tracked, addr, |data| % U32)
    case Granted(x, i) => Stored(WriteAt(a, x, i, addr.z, data[..|data| % U32]))
    case NotAllocated => StoreUnallocated
    case Faulted => StorePanic
    case Denied => StoreError
  }

  function Track(m: Machine, alloc: Allocation): Machine {
    var x := alloc.addr.x;
    var current := if x in m.usage then m.usage[x] else 0;
    m.(tracked := m.tracked[alloc.addr := alloc], usage := m.usage[x := (current + alloc.size) % U64])
  }

  function Untrack(m: Machine, addr: Address): Machine {
    if addr !in m.tracked then m
    else
      m.(tracked := m.tracked - {addr},
         usage := if addr.x in m.usage then m.usage[addr.x := Debit(m.usage[addr.x], m.tracked[addr].size)]
           else m.usage)
  }

  // ----------------------------------------------------------------------- registers

  /** Reading a register; numbers past the general ones read as empty. */
  function RegGet(registers: seq<seq<byte>>, r: nat): seq<byte> {
    if r < |registers| then registers[r] else []
  }

  /** Writing a register; numbers past the general ones are ignored. */
  function RegSet(registers: seq<seq<byte>>, r: nat, value: seq<byte>): seq<seq<byte>> {
    if r < |registers| then registers[r := value] else registers
  }

  /** The first eight bytes as a word; shorter contents read as zero. */
  function RegWord(registers: seq<seq<byte>>, r: nat): nat {
    var data := RegGet(registers, r);
    if |data| >= 8 then Get(data[..8]) else 0
  }

  function SetReg(m: Machine, r: nat, value: seq<byte>): Machine {
    m.(registers := RegSet(m.registers, r, value))
  }

  /** The register file after an instruction that only computes. */
  function Computed(registers: seq<seq<byte>>, inst: Instruction): seq<seq<byte>>
    requires WellTyped(inst)
  {
    var op, v := inst.opcode, inst.operands;
    if op == OP_ADD3D then
      RegSet(registers, v[0].value.register,
        Put((RegWord(registers, v[1].value.register) + RegWord(registers, v[2].value.register)) % U64, 8))
    else if op == OP_SUB3D then
      RegSet(registers, v[0].value.register,
        Put((RegWord(registers, v[1].value.register) + U64 - RegWord(registers, v[2].value.register) % U64) % U64, 8))
    else if op == OP_MOV3D then RegSet(registers, v[0].value.register, RegGet(registers, v[1].value.register))
    else registers
  }

  // ------------------------------------------------------------------------ handlers

  datatype Status = Fine | Halt | Error | Panic

  datatype Result = Result(m: Machine, status: Status)

  /** Writing a cache line; the uncached machine used for comparison has none. */
  function Cached(m: Machine, on: bool, addr: Address, data: seq<byte>): Machine {
    if on then m.(cache := m.cache[addr := data]) else m
  }

  /** The tie-break of the next allocation; each allocation uses a fresh one. */
  function Hint(m: Machine, hints: nat -> nat): nat {
    hints(m.alloc.nextAlloc + m.alloc.nextRegion)
  }

  ghost function ExecLoad(m: Machine, on: bool, addr: Address, size: nat, reg: nat): (r: Result)
    ensures r.m.alloc.planeSize == m.alloc.planeSize
  {
    if on && addr in m.cache && |m.cache[addr]| >= size then Result(SetReg(m, reg, m.cache[addr][..size]), Fine)
    else
      match Load3D(m.alloc, m.tracked, addr, size)
      case Loaded(data) => Result(SetReg(Cached(m, on, addr, data), reg, data), Fine)
      case LoadError => Result(m, Error)
      case LoadPanic => Result(m, Panic)
  }

  ghost function ExecStore(m: Machine, on: bool, addr: Address, reg: nat, size: nat): (r: Result)
    ensures r.m.alloc.planeSize == m.alloc.planeSize
  {
    var data := RegGet(m.registers, reg);
    if |data| < size then Result(m, Error)
    else
      match Store3D(m.alloc, m.tracked, addr, data[..size])
      case Stored(a) => Result(Cached(m.(alloc := a), on, addr, data[..size]), Fine)
      case StorePanic => Result(m, Panic)
      case _ => Result(m, Error)
  }

  ghost function ExecAlloc(m: Machine, size: nat, kind: nat, flags: nat, hint: nat): (r: Result)
    requires m.alloc.planeSize > 0
    ensures r.m.alloc.planeSize == m.alloc.planeSize
  {
    var s := Allocate(m.alloc, size, kind, flags, hint);
    match s.outcome
    case Ok(alloc) => Result(Track(SetReg(m.(alloc := s.a), 0, Bytes(alloc.addr)), alloc), Fine)
    case Failed => Result(m.(alloc := s.a), Error)
    case Crashed => Result(m.(alloc := s.a), Panic)
  }

  ghost function ExecFree(m: Machine, on: bool, addr: Address): (r: Result)
    ensures r.m.alloc.planeSize == m.alloc.planeSize
  {
    match Lookup(m.tracked, addr)
    case None => Result(m, Error)
    case Some(alloc) =>
      match Free(m.alloc, alloc)
      case None => Result(m, Error)
      case Some(a) =>
        var n := Untrack(m.(alloc := a), addr);
        Result(if on then n.(cache := n.cache - {addr}) else n, Fine)
  }

  ghost function ExecCopy(m: Machine, on: bool, src: Address, dst: Address, size: nat): (r: Result)
    ensures r.m.alloc.planeSize == m.alloc.planeSize
  {
    match Load3D(m.alloc, m.tracked, src, size)
    case LoadError => Result(m, Error)
    case LoadPanic => Result(m, Panic)
    case Loaded(data) =>
      match Store3D(m.alloc, m.tracked, dst, data)
      case Stored(a) => Result(Cached(Cached(m.(alloc := a), on, src, data), on, dst, data), Fine)
      case StorePanic => Result(m, Panic)
      case _ => Result(m, Error)
  }

  ghost function ExecSize(m: Machine, addr: Address, reg: nat): (r: Result)
    ensures r.m.alloc.planeSize == m.alloc.planeSize
  {
    var n := match Lookup(m.tracked, addr) case None => 0 case Some(alloc) => alloc.size;
    Result(SetReg(m, reg, Put(n, 8)), Fine)
  }

  /** The handler selected by the opcode; a wrong operand is an error. */
  ghost function Dispatch(m: Machine, on: bool, inst: Instruction, hints: nat -> nat): (r: Result)
    requires m.alloc.planeSize > 0
    ensures r.m.alloc.planeSize == m.alloc.planeSize
  {
    var op, v := inst.opcode, inst.operands;
    if !WellTyped(inst) then Result(m, Error)
    else if op == OP_MLOAD3D then ExecLoad(m, on, v[0].value.address, v[1].value.size, v[2].value.register)
    else if op == OP_MSTORE3D then ExecStore(m, on, v[0].value.address, v[1].value.register, v[2].value.size)
    else if op == OP_MALLOC3D then
      ExecAlloc(m, v[0].value.size, v[1].value.kind, v[2].value.flags, Hint(m, hints))
    else if op == OP_MFREE3D then ExecFree(m, on, v[0].value.address)
    else if op == OP_MCOPY3D then ExecCopy(m, on, v[0].value.address, v[1].value.address, v[2].value.size)
    else if op == OP_MSIZE3D then ExecSize(m, v[0].value.address, v[1].value.register)
    else if op == OP_HALT3D then Result(m, Halt)
    else Result(m.(registers := Computed(m.registers, inst)), Fine)
  }

  // ----------------------------------------------------------------------------- gas

  function BaseCost(op: byte): nat {
    if op == OP_MLOAD3D then 10
    else if op == OP_MSTORE3D then 15
    else if op == OP_MALLOC3D then 20
    else if op == OP_MFREE3D then 5
    else if op == OP_MCOPY3D then 25
    else if op == OP_NOP then 1
    else if op == OP_ADD3D then 3
    else if op == OP_SUB3D then 3
    else if op == OP_MOV3D then 2
    else if op == OP_MSIZE3D then 5
    else if op == OP_HALT3D then 1
    else 0
  }

  /** Two per byte of every size operand. */
  function SizeCost(ops: seq<Operand>): nat {
    if ops == [] then 0
    else
      SizeCost(ops[..|ops| - 1]) +
      (var o := ops[|ops| - 1]; if o.ty == OT_SIZE && o.value.VSize? then 2 * o.value.size else 0)
  }

  function GasCost(inst: Instruction): nat {
    BaseCost(inst.opcode) + SizeCost(inst.operands)
  }

  /** `Remaining()` sums as a signed 64-bit number and reports a negative sum as zero. */
  function ReportedRemaining(m: Machine): nat {
    if m.remaining >= U64 / 2 then 0 else m.remaining
  }

  ghost function Charged(m: Machine, cost: nat): Machine
    requires cost <= m.remaining
  {
    m.(remaining := m.remaining - cost, used := (m.used + cost) % U64)
  }

  /** `executeInstruction`: charge, then dispatch. */
  ghost function ExecInstruction(m: Machine, on: bool, inst: Instruction, hints: nat -> nat): (r: Result)
    requires m.alloc.planeSize > 0
    ensures r.m.alloc.planeSize == m.alloc.planeSize
  {
    if m.remaining < GasCost(inst) then Result(m, Error)
    else Dispatch(Charged(m, GasCost(inst)), on, inst, hints)
  }

  // ----------------------------------------------------------------------- execution

  datatype Ending = Completed | Halted | Rejected | Failed | OutOfGas | LimitReached | Panicked

  datatype Outcome = Outcome(m: Machine, ending: Ending)

  /** One pass of the loop of `Execute` after a successful fetch. */
  ghost function Turn(m: Machine, on: bool, inst: Instruction, hints: nat -> nat): (t: Result)
    requires m.alloc.planeSize > 0
    ensures t.m.alloc.planeSize == m.alloc.planeSize
  {
    var r := ExecInstruction(m, on, inst, hints);
    Result(r.m.(executed := r.m.executed + 1), r.status)
  }

  /** Whether a pass ends the loop, and how. */
  function Stop(r: Result): Option<Ending> {
    if r.status == Error then Some(Ending.Failed)
    else if r.status == Panic then Some(Panicked)
    else if ReportedRemaining(r.m) == 0 then Some(OutOfGas)
    else if r.m.executed >= r.m.maxInstructions then Some(LimitReached)
    else if r.status == Halt then Some(Halted)
    else None
  }

  /** The loop of `Execute` from `pc`. */
  ghost function Execute(m: Machine, on: bool, program: seq<byte>, pc: nat, hints: nat -> nat): (r: Outcome)
    requires m.alloc.planeSize > 0
    ensures r.m.alloc.planeSize == m.alloc.planeSize
    decreases |program| - pc
  {
    if pc >= |program| then Outcome(m, Completed)
    else
      match Fetch(program, pc)
      case None => Outcome(m, Rejected)
      case Some(inst) =>
        FetchedIsWellTyped(program, pc);
        var r := Turn(m, on, inst, hints);
        if Stop(r).Some? then Outcome(r.m, Stop(r).value)
        else Execute(r.m, on, program, pc + inst.size, hints)
  }

  // ------------------------------------------------------------------------ host calls

  /** The second attempt of a host store, at the block just allocated for it. */
  ghost function StoreFresh(m: Machine, on: bool, alloc: Allocation, data: seq<byte>): (r: Result)
    ensures r.m.alloc.planeSize == m.alloc.planeSize
  {
    var n := Track(m, alloc);
    match Store3D(n.alloc, n.tracked, alloc.addr, data)
    case Stored(a) => HostCharge(Cached(n.(alloc := a), on, alloc.addr, data), |data|)
    case StorePanic => Result(n, Panic)
    case _ => Result(n, Error)
  }

  /** `VM3D.Store3D`: an unallocated target gets a block of its own, in the heap. */
  ghost function HostStore(m: Machine, on: bool, addr: Address, data: seq<byte>, hints: nat -> nat): (r: Result)
    requires m.alloc.planeSize > 0
    ensures r.m.alloc.planeSize == m.alloc.planeSize
  {
    match Store3D(m.alloc, m.tracked, addr, data)
    case Stored(a) => HostCharge(Cached(m.(alloc := a), on, addr, data), |data|)
    case StoreError => Result(m, Error)
    case StorePanic => Result(m, Panic)
    case StoreUnallocated =>
      var s := Allocate(m.alloc, |data| % U32, HEAP, 0, Hint(m, hints));
      match s.outcome
      case Failed => Result(m.(alloc := s.a), Error)
      case Crashed => Result(m.(alloc := s.a), Panic)
      case Ok(alloc) => StoreFresh(m.(alloc := s.a), on, alloc, data)
  }

  const HEAP: nat := 4

  ghost function HostCharge(m: Machine, n: nat): (r: Result)
    ensures r.m.alloc == m.alloc
  {
    if m.remaining < 15 * n then Result(m, Error) else Result(Charged(m, 15 * n), Fine)
  }

  datatype Grant = Grant(m: Machine, status: Status, addr: Address)

  /** `AllocateMemory`; with an error it returns the zero address. */
  ghost function HostAllocate(m: Machine, size: nat, kind: nat, hints: nat -> nat): (r: Grant)
    requires m.alloc.planeSize > 0
    ensures r.m.alloc.planeSize == m.alloc.planeSize
  {
    var s := Allocate(m.alloc, size, kind, 0, Hint(m, hints));
    match s.outcome
    case Ok(alloc) => Grant(Track(m.(alloc := s.a), alloc), Fine, alloc.addr)
    case Failed => Grant(m.(alloc := s.a), Error, Address(0, 0, 0))
    case Crashed => Grant(m.(alloc := s.a), Panic, Address(0, 0, 0))
  }
}
