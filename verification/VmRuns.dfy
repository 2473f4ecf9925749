/** Every run of the VM: programs, host stores and host allocations in any order. */
module VmRuns {
  import opened FirstFit
  import opened Model
  import opened OnePlane
  import opened Codec
  import opened Vm
  import opened Isolation
  import opened BlockLife
  import opened FlatMemory

  datatype Event =
    | RunProgram(program: seq<byte>)
    | PutBytes(addr: Address, data: seq<byte>)
    | NewBlock(size: nat, kind: nat)

  function NewMachine(planeSize: nat, maxYPromotions: nat, gasLimit: nat, maxInstructions: nat): Machine {
    Machine(Init(planeSize, maxYPromotions), map[], map[], map[], seq(16, _ => []), gasLimit, 0, 0, maxInstructions)
  }

  datatype Reply = Ended(ending: Ending) | Answered(status: Status) | Given(status: Status, addr: Address)

  predicate Panics(reply: Reply) {
    match reply
    case Ended(ending) => ending == Panicked
    case Answered(status) => status == Panic
    case Given(status, _) => status == Panic
  }

  /** The machine after one event, and what the caller learns. */
  ghost function Handle(m: Machine, on: bool, e: Event, hints: nat -> nat): (r: (Machine, Reply))
    requires m.alloc.planeSize > 0
    ensures r.0.alloc.planeSize == m.alloc.planeSize
  {
    match e
    case RunProgram(program) => var o := Execute(m, on, program, 0, hints); (o.m, Ended(o.ending))
    case PutBytes(addr, data) => var r := HostStore(m, on, addr, data, hints); (r.m, Answered(r.status))
    case NewBlock(size, kind) => var r := HostAllocate(m, size, kind, hints); (r.m, Given(r.status, r.addr))
  }

  ghost function HandleAll(m: Machine, on: bool, events: seq<Event>, hints: nat -> nat): (r: (Machine, seq<Reply>))
    requires m.alloc.planeSize > 0
    decreases |events|
  {
    if events == [] then (m, [])
    else
      var first := Handle(m, on, events[0], hints);
      var rest := HandleAll(first.0, on, events[1..], hints);
      (rest.0, [first.1] + rest.1)
  }

  /** Sizes are 32-bit numbers, and every request of the event is trusted when it is made. */
  ghost predicate TrustedEvent(m: Machine, e: Event, hints: nat -> nat)
    requires m.alloc.planeSize > 0
  {
    match e
    case RunProgram(program) => TrustedRun(m, program, 0, hints)
    case PutBytes(addr, data) =>
      |data| < U32 && (addr !in m.tracked ==> TrustedRequest(m.alloc, |data|, HEAP, Hint(m, hints)))
    case NewBlock(size, kind) => size < U32 && TrustedRequest(m.alloc, size, kind, Hint(m, hints))
  }

  ghost predicate TrustedEvents(m: Machine, events: seq<Event>, hints: nat -> nat)
    requires m.alloc.planeSize > 0
    decreases |events|
  {
    events == [] ||
    (TrustedEvent(m, events[0], hints) && TrustedEvents(Handle(m, true, events[0], hints).0, events[1..], hints))
  }

  lemma {:induction false} NewMachineInv(planeSize: nat, maxYPromotions: nat, gasLimit: nat, maxInstructions: nat)
    requires 0 < planeSize < U16
    ensures MachineInv(NewMachine(planeSize, maxYPromotions, gasLimit, maxInstructions))
  {
  }

  // ------------------------------------------------------------------------- host calls

  /** `AllocateMemory` is the allocation instruction without its register. */
  lemma {:induction false} HostAllocateIsAlloc(m: Machine, n: Machine, size: nat, kind: nat, hints: nat -> nat)
    requires m.alloc.planeSize > 0 && Twins(m, n)
    ensures var r, s, e := HostAllocate(m, size, kind, hints), HostAllocate(n, size, kind, hints),
                           ExecAlloc(m, size, kind, 0, Hint(m, hints));
      && s.status == r.status == e.status && s.addr == r.addr && Twins(r.m, s.m)
      && (if r.status == Fine then r.addr in r.m.tracked && r.m.tracked == m.tracked[r.addr := r.m.tracked[r.addr]]
          else r.m.tracked == m.tracked && r.addr == Address(0, 0, 0))
      && r.m.alloc == e.m.alloc && r.m.tracked == e.m.tracked && r.m.cache == e.m.cache
  {
    hide Allocate, RegSet, Bytes;
  }

  /** What a host allocation does to the blocks and what it returns: a size that fits a plane adds
      one block of that size, at the new address it returns; anything else leaves the blocks alone
      and returns the zero address. */
  ghost predicate HostAllocated(f: map<Address, seq<byte>>, size: nat, planeSize: nat, f': map<Address, seq<byte>>,
    status: Status, addr: Address)
  {
    if 0 < size <= planeSize then
      status == Fine && addr !in f && addr in f' && |f'[addr]| == size && f' == f[addr := f'[addr]]
    else f' == f && status != Panic && addr == Address(0, 0, 0) && (size > 0 ==> status == Error)
  }

  /** The block that appeared is the one just tracked. */
  lemma {:induction false} WhichBlock(m: Machine, n: Machine, addr: Address, a: Address, bytes: seq<byte>)
    requires MachineInv(m) && MachineInv(n) && addr in n.tracked && n.tracked == m.tracked[addr := n.tracked[addr]]
    requires a !in Blocks(m) && Blocks(n) == Blocks(m)[a := bytes]
    ensures a == addr && addr !in m.tracked
  {
    hide MachineInv, Flat, TrackedOk, Apart, EntriesTracked, LinesOk;
    InvParts(m);
    InvParts(n);
    assert a in Blocks(n);
    if addr in m.tracked { NotBlockIsNull(m, addr); NullIsNoBlock(n, addr); }
  }

  lemma {:induction false} NullIsNoBlock(m: Machine, addr: Address)
    requires MachineInv(m) && addr in Blocks(m)
    ensures addr.x > 0
  {
    hide Apart, EntriesTracked, LinesOk;
    BlockAt(m, addr);
  }

  lemma {:induction false} FlatIsHostAllocated(
    m: Machine, n: Machine, size: nat, status: Status, addr: Address, t: FlatState)
    requires MachineInv(m) && MachineInv(n) && FlatAllocate(Abs(m), size, m.alloc.planeSize, t, status)
    requires t.blocks == Blocks(n)
    requires if status == Fine then addr in n.tracked && n.tracked == m.tracked[addr := n.tracked[addr]]
             else addr == Address(0, 0, 0)
    requires size == 0 ==> addr == Address(0, 0, 0)
    ensures HostAllocated(Blocks(m), size, m.alloc.planeSize, Blocks(n), status, addr)
    ensures 0 < size <= m.alloc.planeSize ==> addr !in m.tracked
  {
    hide MachineInv, RegSet, Bytes, Blocks, Flat, TrackedOk;
    InvParts(m);
    InvParts(n);
    if 0 < size <= m.alloc.planeSize {
      var a, bytes :| a !in Abs(m).blocks && |bytes| == size
        && t == FlatState(Abs(m).blocks[a := bytes], RegSet(m.registers, 0, Bytes(a)));
      assert Blocks(n) == Blocks(m)[a := bytes];
      WhichBlock(m, n, addr, a, bytes);
    }
  }

  lemma {:induction false} NullAddress(m: Machine, kind: nat, hints: nat -> nat)
    requires MachineInv(m) && m.alloc.planeSize > 0
    ensures HostAllocate(m, 0, kind, hints).addr == Address(0, 0, 0)
  {
    hide MachineInv, Allocate, Flat, Changed;
    InvParts(m);
    AllocateNothing(m.alloc, kind, 0, Hint(m, hints));
  }

  lemma {:induction false} HostAllocateRefines(m: Machine, n: Machine, size: nat, kind: nat, hints: nat -> nat)
    requires MachineInv(m) && Twins(m, n) && size < U32 && m.alloc.planeSize > 0
    requires TrustedRequest(m.alloc, size, kind, Hint(m, hints))
    ensures var r, s := HostAllocate(m, size, kind, hints), HostAllocate(n, size, kind, hints);
      && s.status == r.status != Panic && s.addr == r.addr && Twins(r.m, s.m) && MachineInv(r.m)
      && HostAllocated(Blocks(m), size, m.alloc.planeSize, Blocks(r.m), r.status, r.addr)
      && (0 < size <= m.alloc.planeSize ==> r.addr !in m.tracked)
  {
    hide *;
    InvParts(m);
    TwinsRefl(m);
    HostAllocateIsAlloc(m, n, size, kind, hints);
    var e, r := ExecAlloc(m, size, kind, 0, Hint(m, hints)), HostAllocate(m, size, kind, hints);
    AllocRefines(m, m, size, kind, 0, Hint(m, hints));
    FlatAllocateStatus(Abs(m), size, m.alloc.planeSize, e);
    SameMemory(e.m, r.m);
    AbsBlocks(e.m);
    if size == 0 { NullAddress(m, kind, hints); }
    FlatIsHostAllocated(m, r.m, size, r.status, r.addr, Abs(e.m));
  }

  lemma {:induction false} AbsBlocks(m: Machine)
    requires MachineInv(m)
    ensures Abs(m).blocks == Blocks(m)
  {
    hide MachineInv, Blocks;
  }

  /** Bytes stored by the host are charged for afterwards: the status tells whether that went. */
  function ChargeStatus(m: Machine, k: nat): Status {
    if m.remaining < 15 * k then Error else Fine
  }

  lemma {:induction false} ChargeKeeps(m: Machine, n: Machine, k: nat)
    requires MachineInv(m) && Twins(m, n)
    ensures var r, s := HostCharge(m, k), HostCharge(n, k);
      && s.status == r.status == ChargeStatus(m, k) && Twins(r.m, s.m) && MachineInv(r.m) && Blocks(r.m) == Blocks(m)
  {
    hide MachineInv;
    SameMemory(m, HostCharge(m, k).m);
  }

  /** What a host store does to the blocks, exactly. A tracked block with room is patched. At an
      untracked address, bytes that fit a plane get a block of their own that holds exactly them.
      Everything else leaves the blocks alone and is an error; the others succeed if the gas
      lasts. So success means that the bytes are there. */
  ghost predicate HostStored(m: Machine, f: map<Address, seq<byte>>, addr: Address, data: seq<byte>,
    f': map<Address, seq<byte>>, status: Status)
  {
    if addr in f && |data| <= |f[addr]| then
      f' == f[addr := Patched(f[addr], data)] && status == ChargeStatus(m, |data|)
    else if addr !in m.tracked && 0 < |data| <= m.alloc.planeSize then
      status == ChargeStatus(m, |data|) && exists a :: a !in f && f' == f[a := data]
    else f' == f && status == Error
  }

  /** How the two machines treat a store, case by case. */
  lemma {:induction false} HostStoreCases(m: Machine, on: bool, addr: Address, data: seq<byte>, hints: nat -> nat)
    requires m.alloc.planeSize > 0
    ensures var r, st := HostStore(m, on, addr, data, hints), Store3D(m.alloc, m.tracked, addr, data);
      && (st.Stored? ==> r == HostCharge(Cached(m.(alloc := st.a), on, addr, data), |data|))
      && (st.StoreError? ==> r == Result(m, Error))
      && (st.StoreUnallocated? ==>
            var s := Allocate(m.alloc, |data| % U32, 4, 0, Hint(m, hints));
            && (s.outcome.Ok? ==> r == StoreFresh(m.(alloc := s.a), on, s.outcome.alloc, data))
            && (s.outcome.Failed? ==> r == Result(m.(alloc := s.a), Error)))
  {
    hide Store3D, Allocate, StoreFresh, HostCharge;
  }

  lemma {:induction false} TwinHints(m: Machine, n: Machine, hints: nat -> nat)
    requires Twins(m, n)
    ensures Hint(m, hints) == Hint(n, hints) && n.alloc == m.alloc && n.tracked == m.tracked
      && n.registers == m.registers
  {
  }

  lemma {:induction false} HostStoreRefines(m: Machine, n: Machine, addr: Address, data: seq<byte>, hints: nat -> nat)
    requires MachineInv(m) && Twins(m, n) && |data| < U32 && m.alloc.planeSize > 0
    requires addr !in m.tracked ==> TrustedRequest(m.alloc, |data|, HEAP, Hint(m, hints))
    ensures var r, s := HostStore(m, true, addr, data, hints), HostStore(n, false, addr, data, hints);
      && s.status == r.status != Panic && Twins(r.m, s.m) && MachineInv(r.m)
      && HostStored(m, Blocks(m), addr, data, Blocks(r.m), r.status)
  {
    hide *;
    assert |data| % U32 == |data| && HEAP == 4 by { StoreConstants(|data|); }
    InvParts(m);
    TwinHints(m, n, hints);
    HostStoreCases(m, true, addr, data, hints);
    HostStoreCases(n, false, addr, data, hints);
    StoreIsGranted(m, addr, data);
    if addr in Blocks(m) && |data| <= |Blocks(m)[addr]| {
      HostStoreStored(m, n, addr, data, hints);
    } else if addr in m.tracked {
      HostStoredNothing(m, addr, data);
    } else {
      FreshStore(m, n, data, Hint(m, hints));
      HostStoredFresh(m, n, addr, data, HostStore(m, true, addr, data, hints), HostStore(n, false, addr, data, hints),
        Allocate(m.alloc, |data|, HEAP, 0, Hint(m, hints)));
    }
  }

  lemma {:induction false} StoreConstants(k: nat)
    requires k < U32
    ensures k % U32 == k && HEAP == 4
  {
  }

  lemma {:induction false} HostStoredNothing(m: Machine, addr: Address, data: seq<byte>)
    requires MachineInv(m) && addr in m.tracked && !(addr in Blocks(m) && |data| <= |Blocks(m)[addr]|)
    ensures HostStored(m, Blocks(m), addr, data, Blocks(m), Error)
  {
    hide MachineInv, Blocks, Patched;
  }

  lemma {:induction false} HostStoredFresh(
    m: Machine, n: Machine, addr: Address, data: seq<byte>, r: Result, t: Result, s: Step)
    requires MachineInv(m) && Twins(m, n) && addr !in m.tracked && FreshStored(m, n, data, s)
    requires match s.outcome
             case Ok(alloc) =>
               && r == StoreFresh(m.(alloc := s.a), true, alloc, data)
               && t == StoreFresh(n.(alloc := s.a), false, alloc, data)
             case Failed => r == Result(m.(alloc := s.a), Error) && t == Result(n.(alloc := s.a), Error)
             case Crashed => true
    ensures t.status == r.status != Panic && Twins(r.m, t.m)
    ensures MachineInv(r.m) && HostStored(m, Blocks(m), addr, data, Blocks(r.m), r.status)
  {
    hide MachineInv, Blocks, StoreFresh, Patched;
    InvParts(m);
  }

  lemma {:induction false} HostStoreStored(m: Machine, n: Machine, addr: Address, data: seq<byte>, hints: nat -> nat)
    requires MachineInv(m) && Twins(m, n) && |data| < U32 && m.alloc.planeSize > 0
    requires addr in Blocks(m) && |data| <= |Blocks(m)[addr]|
    ensures var r, s := HostStore(m, true, addr, data, hints), HostStore(n, false, addr, data, hints);
      && s.status == r.status != Panic && Twins(r.m, s.m) && MachineInv(r.m)
      && HostStored(m, Blocks(m), addr, data, Blocks(r.m), r.status)
  {
    hide MachineInv, Store3D, HostCharge, HostStore, WriteAt, Blocks, Patched, Flat, TrackedOk, Apart,
      EntriesTracked, LinesOk;
    InvParts(m);
    HostStoreCases(m, true, addr, data, hints);
    HostStoreCases(n, false, addr, data, hints);
    StoreIsGranted(m, addr, data);
    StoreEffect(m, addr, data);
    var a := Store3D(m.alloc, m.tracked, addr, data).a;
    ChargeKeeps(Cached(m.(alloc := a), true, addr, data), Cached(n.(alloc := a), false, addr, data), |data|);
  }

  /** The path that first allocates a block for the bytes. */
  ghost predicate FreshStored(m: Machine, n: Machine, data: seq<byte>, s: Step)
    requires MachineInv(m)
  {
    match s.outcome
    case Crashed => false
    case Failed =>
      MachineInv(m.(alloc := s.a)) && Blocks(m.(alloc := s.a)) == Blocks(m) && !(0 < |data| <= m.alloc.planeSize)
    case Ok(alloc) =>
      var r, t := StoreFresh(m.(alloc := s.a), true, alloc, data), StoreFresh(n.(alloc := s.a), false, alloc, data);
      && t.status == r.status && Twins(r.m, t.m) && MachineInv(r.m)
      && (if data == [] then r.status == Error && Blocks(r.m) == Blocks(m)
          else |data| <= m.alloc.planeSize && r.status == ChargeStatus(m, |data|)
               && alloc.addr !in Blocks(m) && Blocks(r.m) == Blocks(m)[alloc.addr := data])
  }

  lemma {:induction false} FreshStore(m: Machine, n: Machine, data: seq<byte>, hint: nat)
    requires MachineInv(m) && Twins(m, n) && |data| < U32 && m.alloc.planeSize > 0
    requires TrustedRequest(m.alloc, |data|, HEAP, hint)
    ensures FreshStored(m, n, data, Allocate(m.alloc, |data|, HEAP, 0, hint))
  {
    hide *;
    if |data| > 0 {
      FreshStoreSome(m, n, data, hint);
    } else {
      FreshStoreNone(m, n, data, hint);
    }
  }

  lemma {:induction false} FreshStoreSome(m: Machine, n: Machine, data: seq<byte>, hint: nat)
    requires MachineInv(m) && Twins(m, n) && 0 < |data| < U32 && m.alloc.planeSize > 0
    requires TrustedRequest(m.alloc, |data|, HEAP, hint)
    ensures FreshStored(m, n, data, Allocate(m.alloc, |data|, HEAP, 0, hint))
  {
    hide *;
    var s := Allocate(m.alloc, |data|, HEAP, 0, hint);
    FreshAllocation(m, |data|, hint);
    match s.outcome
    case Failed => RefusedStore(m, n, data, s);
    case Ok(alloc) =>
      FilledBlock(m, n, s.a, alloc, data);
      FilledStore(m, n, data, s);
  }

  lemma {:induction false} FreshAllocation(m: Machine, size: nat, hint: nat)
    requires MachineInv(m) && 0 < size < U32 && m.alloc.planeSize > 0 && TrustedRequest(m.alloc, size, HEAP, hint)
    ensures var s := Allocate(m.alloc, size, HEAP, 0, hint);
      match s.outcome
      case Ok(alloc) => FreshBlock(m, s.a, alloc) && alloc.size == size <= m.alloc.planeSize
      case Failed => size > m.alloc.planeSize && Changed(m.alloc, s.a, m.alloc.nextRegion + 1, FreshPlane(0,
        m.alloc.planeSize))
      case Crashed => false
  {
    hide *;
    InvParts(m);
    assert Trusted(m.alloc, size, HEAP, hint) by { RequestParts(m.alloc, size, HEAP, hint); }
    AllocateInFlat(m.alloc, size, HEAP, 0, hint);
    var s := Allocate(m.alloc, size, HEAP, 0, hint);
    if s.outcome.Ok? {
      if s.outcome.alloc.addr.x in m.alloc.regions { PlaneForKnown(m.alloc, s.outcome.alloc.addr.x); }
      FreshFromAllocate(m, s.a, s.outcome.alloc);
    }
  }

  lemma {:induction false} RequestParts(a: Allocator, size: nat, kind: nat, hint: nat)
    requires TrustedRequest(a, size, kind, hint) && size > 0
    ensures Flat(a) && Trusted(a, size, kind, hint)
  {
    hide Flat, Trusted;
  }

  lemma {:induction false} RefusedStore(m: Machine, n: Machine, data: seq<byte>, s: Step)
    requires MachineInv(m) && s.outcome.Failed? && |data| > m.alloc.planeSize
    requires Changed(m.alloc, s.a, m.alloc.nextRegion + 1, FreshPlane(0, m.alloc.planeSize))
    ensures FreshStored(m, n, data, s)
  {
    hide MachineInv, Changed, FreshPlane, Blocks;
    RefusalKeepsBlocks(m, m.(alloc := s.a));
  }

  lemma {:induction false} FilledStore(m: Machine, n: Machine, data: seq<byte>, s: Step)
    requires MachineInv(m) && s.outcome.Ok? && Filled(m, n, s.a, s.outcome.alloc, data)
      && 0 < |data| <= m.alloc.planeSize
    ensures FreshStored(m, n, data, s)
  {
    hide MachineInv, Blocks, StoreFresh;
  }

  ghost predicate Filled(m: Machine, n: Machine, b: Allocator, alloc: Allocation, data: seq<byte>)
    requires MachineInv(m)
  {
    var r, t := StoreFresh(m.(alloc := b), true, alloc, data), StoreFresh(n.(alloc := b), false, alloc, data);
    && t.status == r.status == ChargeStatus(m, |data|) && Twins(r.m, t.m) && MachineInv(r.m)
    && alloc.addr !in Blocks(m) && Blocks(r.m) == Blocks(m)[alloc.addr := data]
  }

  lemma {:induction false} FilledBlock(m: Machine, n: Machine, b: Allocator, alloc: Allocation, data: seq<byte>)
    requires FreshBlock(m, b, alloc) && alloc.size == |data| < U32 && Twins(m, n)
    ensures MachineInv(m) && Filled(m, n, b, alloc, data)
  {
    hide Patched, FreshBlock, StoreFresh, Blocks, Flat, TrackedOk, Apart, EntriesTracked, LinesOk;
    assert MachineInv(m) by { FreshBlockIsInv(m, b, alloc); }
    hide MachineInv;
    InvParts(m);
    var mid := Track(m.(alloc := b), alloc);
    AllocateEffectOnBlocks(m, mid, alloc);
    FillFresh(m.(alloc := b), n.(alloc := b), alloc, data);
    PatchAll(Blocks(mid)[alloc.addr], data);
    assert Blocks(m)[alloc.addr := Blocks(mid)[alloc.addr]][alloc.addr := data] == Blocks(m)[alloc.addr := data];
  }

  lemma {:induction false} FreshBlockIsInv(m: Machine, b: Allocator, alloc: Allocation)
    requires FreshBlock(m, b, alloc)
    ensures MachineInv(m)
  {
    hide MachineInv, Changed, IsFirstFit;
  }

  lemma {:induction false} FreshStoreNone(m: Machine, n: Machine, data: seq<byte>, hint: nat)
    requires MachineInv(m) && Twins(m, n) && data == [] && m.alloc.planeSize > 0
    ensures FreshStored(m, n, data, Allocate(m.alloc, |data|, HEAP, 0, hint))
  {
    hide MachineInv, Blocks, Allocate, StoreFresh, Flat, TrackedOk;
    InvParts(m);
    var s := Allocate(m.alloc, 0, HEAP, 0, hint);
    if s.outcome.Ok? {
      var alloc := s.outcome.alloc;
      var mid := Track(m.(alloc := s.a), alloc);
      NullReserved(m, mid, HEAP, 0, hint, alloc);
      NullUntracked(m, alloc);
      RefuseNull(m.(alloc := s.a), n.(alloc := s.a), alloc, data);
    } else {
      NullRefused(m, m.(alloc := s.a), HEAP, 0, hint);
    }
  }

  lemma {:induction false} FillFresh(m: Machine, n: Machine, alloc: Allocation, data: seq<byte>)
    requires Twins(m, n) && MachineInv(Track(m, alloc)) && |data| < U32
    requires alloc.addr in Blocks(Track(m, alloc)) && |data| <= |Blocks(Track(m, alloc))[alloc.addr]|
    ensures var r, t, mid := StoreFresh(m, true, alloc, data), StoreFresh(n, false, alloc, data), Track(m, alloc);
      && t.status == r.status == ChargeStatus(m, |data|) && Twins(r.m, t.m) && MachineInv(r.m)
      && Blocks(r.m) == Blocks(mid)[alloc.addr := Patched(Blocks(mid)[alloc.addr], data)]
  {
    hide MachineInv, Store3D, HostCharge, WriteAt, Blocks, Patched, Flat, TrackedOk, Apart, EntriesTracked,
      LinesOk;
    var mid := Track(m, alloc);
    InvParts(mid);
    StoreIsGranted(mid, alloc.addr, data);
    StoreEffect(mid, alloc.addr, data);
    var a := Store3D(mid.alloc, mid.tracked, alloc.addr, data).a;
    ChargeKeeps(Cached(mid.(alloc := a), true, alloc.addr, data), Cached(Track(n, alloc).(alloc := a), false,
      alloc.addr, data), |data|);
  }

  lemma {:induction false} RefuseNull(m: Machine, n: Machine, alloc: Allocation, data: seq<byte>)
    requires Twins(m, n) && MachineInv(Track(m, alloc)) && data == []
    requires alloc.addr !in Blocks(Track(m, alloc))
    ensures StoreFresh(m, true, alloc, data) == Result(Track(m, alloc), Error)
    ensures StoreFresh(n, false, alloc, data) == Result(Track(n, alloc), Error)
  {
    hide MachineInv, Store3D, HostCharge, Blocks;
    var mid := Track(m, alloc);
    assert Flat(mid.alloc) && TrackedOk(mid.alloc, mid.tracked) by { InvParts(mid); }
    hide Flat, TrackedOk;
    StoreIsGranted(mid, alloc.addr, data);
  }

  // --------------------------------------------------------------------------- whole runs

  lemma {:induction false} HandleIgnoresCache(m: Machine, n: Machine, e: Event, hints: nat -> nat)
    requires MachineInv(m) && Twins(m, n) && m.alloc.planeSize > 0 && TrustedEvent(m, e, hints)
    ensures var r, s := Handle(m, true, e, hints), Handle(n, false, e, hints);
      s.1 == r.1 && !Panics(r.1) && Twins(r.0, s.0) && MachineInv(r.0)
  {
    hide MachineInv, Execute, HostStore, HostAllocate, HostStored, HostAllocated, TrustedRun, TrustedRequest;
    match e
    case RunProgram(program) => ExecuteIgnoresCache(m, n, program, 0, hints);
    case PutBytes(addr, data) => HostStoreRefines(m, n, addr, data, hints);
    case NewBlock(size, kind) => HostAllocateRefines(m, n, size, kind, hints);
  }

  /** Over every run of programs and host calls whose requests are trusted, whatever is freed and
      whatever the plane size, the machine with its cache answers exactly as one that always goes
      to memory, ends in the same state but for the cache, keeps its invariant, and never
      panics. */
  lemma {:induction false} RunsIgnoreCache(m: Machine, n: Machine, events: seq<Event>, hints: nat -> nat)
    requires MachineInv(m) && Twins(m, n) && m.alloc.planeSize > 0 && TrustedEvents(m, events, hints)
    ensures var r, s := HandleAll(m, true, events, hints), HandleAll(n, false, events, hints);
      && s.1 == r.1 && Twins(r.0, s.0) && MachineInv(r.0)
      && (forall i | 0 <= i < |r.1| :: !Panics(r.1[i]))
    decreases |events|
  {
    hide MachineInv, Handle, TrustedEvent;
    if events != [] {
      HandleIgnoresCache(m, n, events[0], hints);
      var r, s := Handle(m, true, events[0], hints), Handle(n, false, events[0], hints);
      RunsIgnoreCache(r.0, s.0, events[1..], hints);
    }
  }

  /** The load that a program sees after any such run is the plain load of the block's bytes. */
  lemma {:induction false} LoadAfterAnyRun(
    planeSize: nat, maxY: nat, gasLimit: nat, limit: nat, events: seq<Event>, hints: nat -> nat,
    addr: Address, size: nat, reg: nat)
    requires 0 < planeSize < U16 && size < U32
    requires TrustedEvents(NewMachine(planeSize, maxY, gasLimit, limit), events, hints)
    ensures var m := HandleAll(NewMachine(planeSize, maxY, gasLimit, limit), true, events, hints).0;
      var r, direct := ExecLoad(m, true, addr, size, reg), Load3D(m.alloc, m.tracked, addr, size);
      && (direct.Loaded? ==> r.status == Fine && r.m.registers == RegSet(m.registers, reg, direct.data))
      && (direct == LoadError ==> r.status == Error && r.m == m)
      && direct != LoadPanic
  {
    hide MachineInv, HandleAll, Load3D, TrustedEvents, Flat, TrackedOk, Apart, EntriesTracked, LinesOk;
    var first := NewMachine(planeSize, maxY, gasLimit, limit);
    NewMachineInv(planeSize, maxY, gasLimit, limit);
    RunsIgnoreCache(first, first, events, hints);
    var m := HandleAll(first, true, events, hints).0;
    InvParts(m);
    LoadRefines(m, m, addr, size, reg);
    LoadIsFlat(m, addr, size);
  }
}
