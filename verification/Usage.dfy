/** The memory manager's usage counters: in every VM run the counter of a region is the sum of the
    sizes tracked in it, and no more than the used bytes of its plane. */
module Usage {
  import opened FirstFit
  import opened M = Model
  import opened Layout
  import opened OnePlane
  import opened Codec
  import opened Instructions
  import opened Vm
  import opened Isolation
  import opened BlockLife
  import opened Execution
  import opened FlatMemory
  import opened VmRuns

  // ------------------------------------------------------------------------ sums of sizes

  function SizeAt(tracked: map<Address, Allocation>, k: Address, x: nat): nat {
    if k in tracked && k.x == x then tracked[k].size else 0
  }

  ghost function SumOver(tracked: map<Address, Allocation>, keys: set<Address>, x: nat): nat {
    if keys == {} then 0
    else
      var k :| k in keys;
      SumOver(tracked, keys - {k}, x) + SizeAt(tracked, k, x)
  }

  lemma {:induction false} SumPick(tracked: map<Address, Allocation>, keys: set<Address>, x: nat, k: Address)
    requires k in keys
    ensures SumOver(tracked, keys, x) == SumOver(tracked, keys - {k}, x) + SizeAt(tracked, k, x)
    decreases keys
  {
    var j :| j in keys && SumOver(tracked, keys, x) == SumOver(tracked, keys - {j}, x) + SizeAt(tracked, j, x);
    if j != k {
      SumPick(tracked, keys - {j}, x, k);
      SumPick(tracked, keys - {k}, x, j);
      assert keys - {j} - {k} == keys - {k} - {j};
    }
  }

  lemma {:induction false} SumSame(t: map<Address, Allocation>, u: map<Address, Allocation>, keys: set<Address>, x: nat)
    requires forall k | k in keys :: SizeAt(t, k, x) == SizeAt(u, k, x)
    ensures SumOver(t, keys, x) == SumOver(u, keys, x)
    decreases keys
  {
    if keys != {} {
      var k :| k in keys;
      SumSame(t, u, keys - {k}, x);
      SumPick(t, keys, x, k);
      SumPick(u, keys, x, k);
    }
  }

  /** The sizes tracked in region `x`. */
  ghost function SumIn(tracked: map<Address, Allocation>, x: nat): nat {
    SumOver(tracked, tracked.Keys, x)
  }

  lemma {:induction false} SumAfterTrack(tracked: map<Address, Allocation>, k: Address, alloc: Allocation, x: nat)
    requires k in tracked ==> tracked[k].size == 0
    ensures SumIn(tracked[k := alloc], x) == SumIn(tracked, x) + if k.x == x then alloc.size else 0
  {
    var t := tracked[k := alloc];
    SumPick(t, t.Keys, x, k);
    SumSame(tracked, t, tracked.Keys - {k}, x);
    assert t.Keys - {k} == tracked.Keys - {k};
    if k in tracked { SumPick(tracked, tracked.Keys, x, k); } else { assert tracked.Keys - {k} == tracked.Keys; }
  }

  lemma {:induction false} SumAfterUntrack(tracked: map<Address, Allocation>, k: Address, x: nat)
    requires k in tracked
    ensures SumIn(tracked, x) == SumIn(tracked - {k}, x) + if k.x == x then tracked[k].size else 0
  {
    var t := tracked - {k};
    SumPick(tracked, tracked.Keys, x, k);
    SumSame(tracked, t, t.Keys, x);
    assert t.Keys == tracked.Keys - {k};
  }

  lemma {:induction false} SumZero(tracked: map<Address, Allocation>, keys: set<Address>, x: nat)
    requires forall k | k in keys :: SizeAt(tracked, k, x) == 0
    ensures SumOver(tracked, keys, x) == 0
    decreases keys
  {
    if keys != {} {
      var k :| k in keys;
      SumZero(tracked, keys - {k}, x);
      SumPick(tracked, keys, x, k);
    }
  }

  // --------------------------------------------------------------------------- invariant

  function UsageOf(m: Machine, x: nat): nat {
    if x in m.usage then m.usage[x] else 0
  }

  ghost predicate Exact(m: Machine) {
    forall x :: UsageOf(m, x) == SumIn(m.tracked, x)
  }

  /** Tracked sizes are backed by used bytes. */
  ghost predicate Backed(m: Machine) {
    forall x | x in m.alloc.regions && |m.alloc.regions[x].planes| == 1 ::
      SumIn(m.tracked, x) + CountFree(PlaneOf(m.alloc, x).used) <= m.alloc.planeSize
  }

  ghost predicate Listed(m: Machine) {
    forall k | k in m.tracked :: k.x in m.usage
  }

  ghost predicate Counted(m: Machine) {
    Exact(m) && Backed(m) && Listed(m)
  }

  /** The same used bytes in every plane. */
  ghost predicate SameUse(a: Allocator, b: Allocator) {
    && b.planeSize == a.planeSize && b.regions.Keys == a.regions.Keys
    && forall x | x in a.regions :: |b.regions[x].planes| == |a.regions[x].planes|
         && (|a.regions[x].planes| == 1 ==> PlaneOf(b, x).used == PlaneOf(a, x).used)
  }

  lemma {:induction false} CountedSame(m: Machine, n: Machine)
    requires Counted(m) && n.tracked == m.tracked && n.usage == m.usage && SameUse(m.alloc, n.alloc)
    ensures Counted(n)
  {
    hide SumIn, CountFree;
  }

  // -------------------------------------------------------------------------- allocation

  /** A region that is not there yet has nothing tracked. */
  lemma {:induction false} NothingTracked(m: Machine, x: nat)
    requires MachineInv(m) && x !in m.alloc.regions
    ensures SumIn(m.tracked, x) == 0
  {
    forall k | k in m.tracked ensures SizeAt(m.tracked, k, x) == 0 {
      assert IsBlock(m.alloc, k, m.tracked[k]) || IsNull(k, m.tracked[k]);
    }
    SumZero(m.tracked, m.tracked.Keys, x);
  }

  lemma {:induction false} FreshCost(m: Machine, b: Allocator, alloc: Allocation)
    requires FreshBlock(m, b, alloc)
    ensures var x := alloc.addr.x; var p := Enter(Occupy(PlaneFor(m.alloc, x), alloc.addr.z, alloc.size), alloc);
      CountFree(p.used) + alloc.size == CountFree(PlaneFor(m.alloc, x).used)
  {
    hide CountFree, Changed, TrackedOk, Apart, EntriesTracked, LinesOk;
    var used := PlaneFor(m.alloc, alloc.addr.x).used;
    var z, n := alloc.addr.z, alloc.size;
    assert (z + n) % U16 == z + n;
    CountFreeMark(used, z, z + n);
  }

  lemma {:induction false} RoomFor(m: Machine, x: nat)
    requires MachineInv(m) && Counted(m)
    ensures x in m.alloc.regions ==> |m.alloc.regions[x].planes| == 1
    ensures SumIn(m.tracked, x) + CountFree(PlaneFor(m.alloc, x).used) <= m.alloc.planeSize < U16
  {
    hide CountFree, SumIn, TrackedOk, Apart, EntriesTracked, LinesOk;
    if x !in m.alloc.regions {
      NothingTracked(m, x);
      CountFreeAllFree(FreshPlane(0, m.alloc.planeSize).used);
    }
  }

  lemma {:induction false} TrackKeepsCounted(m: Machine, n: Machine, alloc: Allocation)
    requires FreshBlock(m, n.alloc, alloc) && Counted(m)
    requires n.tracked == Track(m, alloc).tracked && n.usage == Track(m, alloc).usage
    ensures Counted(n)
  {
    hide CountFree, SumIn, Flat, TrackedOk, Apart, EntriesTracked, LinesOk, IsFirstFit, Changed,
      PlaneFor, Enter, Occupy;
    assert MachineInv(m) && m.alloc.planeSize < U16;
    var x := alloc.addr.x;
    if alloc.addr in m.tracked { FreshIsApart(m, n.alloc, alloc, alloc.addr); }
    forall y ensures SumIn(n.tracked, y) == SumIn(m.tracked, y) + if y == x then alloc.size else 0 {
      SumAfterTrack(m.tracked, alloc.addr, alloc, y);
    }
    RoomFor(m, x);
    FreshCost(m, n.alloc, alloc);
    var p := Enter(Occupy(PlaneFor(m.alloc, x), alloc.addr.z, alloc.size), alloc);
    InvParts(m);
    ChangedPlanes(m.alloc, n.alloc, x, p);
    ChangedParts(m.alloc, n.alloc, x, p);
    assert Exact(n);
    assert Backed(n);
  }

  /** A plane gained an entry or a region was added: the sums stay, the room is still there. */
  lemma {:induction false} IdleKeepsCounted(m: Machine, n: Machine, x: nat, p: Plane)
    requires MachineInv(m) && Counted(m) && Changed(m.alloc, n.alloc, x, p)
    requires x in m.alloc.regions ==> |m.alloc.regions[x].planes| == 1
    requires p.used == PlaneFor(m.alloc, x).used
    requires Exact(n) && Listed(n) && forall y :: SumIn(n.tracked, y) == SumIn(m.tracked, y)
    ensures Counted(n)
  {
    hide CountFree, SumIn, Flat, TrackedOk, Apart, EntriesTracked, LinesOk, Changed, PlaneFor;
    InvParts(m);
    RoomFor(m, x);
    ChangedPlanes(m.alloc, n.alloc, x, p);
    ChangedParts(m.alloc, n.alloc, x, p);
  }

  lemma {:induction false} NullKeepsCounted(m: Machine, n: Machine, kind: nat, flags: nat, hint: nat, alloc: Allocation)
    requires MachineInv(m) && Counted(m) && m.alloc.planeSize > 0
    requires Allocate(m.alloc, 0, kind, flags, hint) == Step(n.alloc, M.Ok(alloc))
    requires n.tracked == Track(m, alloc).tracked && n.usage == Track(m, alloc).usage
    ensures Counted(n)
  {
    hide CountFree, SumIn, MachineInv, TrackedOk, Apart, EntriesTracked, LinesOk, Changed, Allocate,
      Backed, Exact, Listed, Track;
    InvParts(m);
    AllocateNothing(m.alloc, kind, flags, hint);
    var x :| x in m.alloc.regions && Changed(m.alloc, n.alloc, x, Enter(PlaneOf(m.alloc, x), alloc));
    NullSums(m, n, alloc);
    IdleKeepsCounted(m, n, x, Enter(PlaneOf(m.alloc, x), alloc));
  }

  lemma {:induction false} NullSums(m: Machine, n: Machine, alloc: Allocation)
    requires MachineInv(m) && Counted(m) && IsNull(alloc.addr, alloc)
    requires n.tracked == Track(m, alloc).tracked && n.usage == Track(m, alloc).usage
    ensures Exact(n) && Listed(n) && forall y :: SumIn(n.tracked, y) == SumIn(m.tracked, y)
  {
    hide CountFree, SumIn, MachineInv, Backed;
    NullUntracked(m, alloc);
    assert alloc.addr in m.tracked ==> m.tracked[alloc.addr].size == 0 by { BlocksParts(m); }
    forall y ensures SumIn(n.tracked, y) == SumIn(m.tracked, y) {
      SumAfterTrack(m.tracked, alloc.addr, alloc, y);
    }
    SmallUsage(m, 0);
  }

  lemma {:induction false} BlocksParts(m: Machine)
    requires MachineInv(m)
    ensures forall k | k in m.tracked && m.tracked[k].size > 0 :: k in Blocks(m)
  {
    hide MachineInv;
    InvParts(m);
  }

  /** No counter comes near its 64 bits. */
  lemma {:induction false} SmallUsage(m: Machine, x: nat)
    requires MachineInv(m) && Counted(m)
    ensures UsageOf(m, x) < U16
  {
    hide CountFree, SumIn, MachineInv, UsageOf;
    InvParts(m);
    RoomFor(m, x);
  }

  lemma {:induction false} RefusalKeepsCounted(m: Machine, n: Machine)
    requires MachineInv(m) && Counted(m)
    requires Changed(m.alloc, n.alloc, m.alloc.nextRegion + 1, FreshPlane(0, m.alloc.planeSize))
    requires n.tracked == m.tracked && n.usage == m.usage
    ensures Counted(n)
  {
    hide CountFree, SumIn, TrackedOk, Apart, EntriesTracked, LinesOk, Changed;
    IdleKeepsCounted(m, n, m.alloc.nextRegion + 1, FreshPlane(0, m.alloc.planeSize));
  }

  /** Whatever an allocation request does, the counters follow. */
  lemma {:induction false} AllocateKeepsCounted(m: Machine, n: Machine, size: nat, kind: nat, flags: nat, hint: nat)
    requires MachineInv(m) && Counted(m) && size < U32 && m.alloc.planeSize > 0
    requires TrustedRequest(m.alloc, size, kind, hint)
    requires var s := Allocate(m.alloc, size, kind, flags, hint);
      && n.alloc == s.a
      && (s.outcome.Ok? ==>
            n.tracked == Track(m, s.outcome.alloc).tracked && n.usage == Track(m, s.outcome.alloc).usage)
      && (!s.outcome.Ok? ==> n.tracked == m.tracked && n.usage == m.usage)
    ensures Counted(n)
  {
    hide CountFree, SumIn, TrackedOk, Apart, EntriesTracked, LinesOk, Changed, Allocate, Counted,
      MachineInv, IsFirstFit, Occupy, Enter, PlaneFor, FreshPlane, Track;
    InvParts(m);
    var s := Allocate(m.alloc, size, kind, flags, hint);
    if size == 0 {
      AllocateNothing(m.alloc, kind, flags, hint);
      if s.outcome.Ok? { NullKeepsCounted(m, n, kind, flags, hint, s.outcome.alloc); }
        else { RefusalKeepsCounted(m, n); }
    } else {
      AllocateInFlat(m.alloc, size, kind, flags, hint);
      if s.outcome.Ok? {
        FreshFromAllocate(m, s.a, s.outcome.alloc);
        TrackKeepsCounted(m, n, s.outcome.alloc);
      } else {
        RefusalKeepsCounted(m, n);
      }
    }
  }

  // ------------------------------------------------------------------------------- frees

  lemma {:induction false} UnmarkFrees(used: seq<bool>, a: nat, b: nat)
    requires a <= b <= |used|
    ensures CountFree(Unmark(used, a, b)) <= CountFree(used) + (b - a)
    decreases b - a
  {
    if a < b {
      UnmarkFrees(used, a, b - 1);
      var less, more := Unmark(used, a, b - 1), Unmark(used, a, b);
      if used[b - 1] {
        CountFreeDiffers(more, less, b - 1, b);
      } else {
        assert more == less;
      }
    } else {
      assert Unmark(used, a, b) == used;
    }
  }

  lemma {:induction false} FreeGives(m: Machine, addr: Address)
    requires MachineInv(m) && addr in Blocks(m)
    ensures addr.x in m.alloc.regions && |m.alloc.regions[addr.x].planes| == 1
    ensures var p := PlaneOf(m.alloc, addr.x); var q := PlaneFree(p, addr.z);
      q.Some? && CountFree(q.value.used) <= CountFree(p.used) + m.tracked[addr].size
  {
    hide CountFree, MachineInv, Blocks, TrackedOk, Flat;
    InvParts(m);
    BlockEntry(m, addr);
    var p := PlaneOf(m.alloc, addr.x);
    var e := p.allocs[addr.z];
    assert e.size % U16 == e.size && (addr.z + e.size) % U16 == addr.z + e.size;
    UnmarkFrees(p.used, addr.z, addr.z + e.size);
  }

  lemma {:induction false} UntrackKeepsCounted(m: Machine, n: Machine, addr: Address)
    requires MachineInv(m) && Counted(m) && addr in Blocks(m) && addr.x in m.alloc.regions
    requires PlaneFree(PlaneOf(m.alloc, addr.x), addr.z).Some?
    requires Changed(m.alloc, n.alloc, addr.x, PlaneFree(PlaneOf(m.alloc, addr.x), addr.z).value)
    requires n.tracked == Untrack(m, addr).tracked && n.usage == Untrack(m, addr).usage
    ensures Counted(n)
  {
    hide CountFree, SumIn, Flat, TrackedOk, Apart, EntriesTracked, LinesOk, Changed, PlaneFree,
      MachineInv, Debit;
    var x, size := addr.x, m.tracked[addr].size;
    InvParts(m);
    FreeGives(m, addr);
    BlockAt(m, addr);
    forall y ensures SumIn(m.tracked, y) == SumIn(n.tracked, y) + if y == x then size else 0 {
      SumAfterUntrack(m.tracked, addr, y);
    }
    SmallUsage(m, x);
    DebitSmall(UsageOf(m, x), size);
    var p := PlaneFree(PlaneOf(m.alloc, x), addr.z).value;
    ChangedPlanes(m.alloc, n.alloc, x, p);
    ChangedKeys(m.alloc, n.alloc, x, p);
    assert Exact(n);
    assert Backed(n);
  }

  lemma {:induction false} DebitSmall(c: nat, size: nat)
    requires 0 < size <= c < U16
    ensures Debit(c, size) == c - size
  {
    DebitExact(c, size);
  }

  // ------------------------------------------------------------------------- whole runs

  lemma {:induction false} WriteKeepsUsed(a: Allocator, x: nat, i: nat, start: nat, data: seq<byte>)
    requires x in a.regions && i < |a.regions[x].planes| && start + |data| <= |a.regions[x].planes[i].data|
    ensures SameUse(a, WriteAt(a, x, i, start, data))
  {
    hide Overwrite;
  }

  lemma {:induction false} StoreKeepsUsed(a: Allocator, tracked: map<Address, Allocation>, addr: Address,
      data: seq<byte>)
    ensures var st := Store3D(a, tracked, addr, data); st.Stored? ==> SameUse(a, st.a)
  {
    hide Check, WriteAt, SameUse;
    var c := Check(a, tracked, addr, |data| % U32);
    if c.Granted? {
      WriteKeepsUsed(a, c.x, c.plane, addr.z, data[..|data| % U32]);
    }
  }

  /** Instructions that neither allocate nor free leave counters and used bytes alone. */
  lemma {:induction false} QuietDispatch(m: Machine, inst: Instruction, hints: nat -> nat)
    requires m.alloc.planeSize > 0 && WellTyped(inst) && inst.opcode != OP_MALLOC3D && inst.opcode != OP_MFREE3D
    ensures var n := Dispatch(m, true, inst, hints).m;
      n.tracked == m.tracked && n.usage == m.usage && SameUse(m.alloc, n.alloc)
  {
    hide Store3D, Load3D, Lookup, Computed, Put, RegSet, RegGet, SameUse;
    SameUseRefl(m.alloc);
    var v := inst.operands;
    if inst.opcode == OP_MSTORE3D {
      var data, size := RegGet(m.registers, v[1].value.register), v[2].value.size;
      if size <= |data| { StoreKeepsUsed(m.alloc, m.tracked, v[0].value.address, data[..size]); }
    } else if inst.opcode == OP_MCOPY3D {
      var loaded := Load3D(m.alloc, m.tracked, v[0].value.address, v[2].value.size);
      if loaded.Loaded? { StoreKeepsUsed(m.alloc, m.tracked, v[1].value.address, loaded.data); }
    }
  }

  lemma {:induction false} SameUseRefl(a: Allocator)
    ensures SameUse(a, a)
  {
  }

  lemma {:induction false} FreeKeepsCounted(m: Machine, addr: Address)
    requires MachineInv(m) && Counted(m)
    ensures Counted(ExecFree(m, true, addr).m)
  {
    hide MachineInv, Counted, Blocks, Lookup, Free, Changed, PlaneFree, Untrack, Flat, TrackedOk, Apart,
      EntriesTracked, LinesOk;
    InvParts(m);
    LookupIsExact(m, addr);
    if addr in Blocks(m) {
      BlockAt(m, addr);
      FreeOfBlock(m, addr);
      UntrackParts(m, Free(m.alloc, m.tracked[addr]).value, addr);
      UntrackKeepsCounted(m, ExecFree(m, true, addr).m, addr);
    } else if addr in m.tracked {
      NotBlockIsNull(m, addr);
      FreeOfNull(m, addr);
    }
  }

  lemma {:induction false} UntrackParts(m: Machine, a: Allocator, addr: Address)
    ensures var n, o := Untrack(m.(alloc := a), addr), Untrack(m, addr);
      n.alloc == a && n.tracked == o.tracked && n.usage == o.usage
  {
    hide Debit;
  }

  lemma {:induction false} DispatchKeepsCounted(m: Machine, inst: Instruction, hints: nat -> nat)
    requires MachineInv(m) && Counted(m) && WellTyped(inst) && m.alloc.planeSize > 0 && TrustedInst(m, inst, hints)
    ensures Counted(Dispatch(m, true, inst, hints).m)
  {
    hide MachineInv, Counted, TrustedRequest, ExecFree, Allocate, RegSet, Bytes, SameUse, ExecLoad, ExecStore, ExecCopy,
      ExecSize, Computed;
    var v, n := inst.operands, Dispatch(m, true, inst, hints).m;
    if inst.opcode == OP_MALLOC3D {
      AllocateKeepsCounted(m, n, v[0].value.size, v[1].value.kind, v[2].value.flags, Hint(m, hints));
    } else if inst.opcode == OP_MFREE3D {
      FreeKeepsCounted(m, v[0].value.address);
    } else {
      QuietDispatch(m, inst, hints);
      CountedSame(m, n);
    }
  }

  lemma {:induction false} TurnKeepsCounted(m: Machine, inst: Instruction, hints: nat -> nat)
    requires MachineInv(m) && Counted(m) && WellTyped(inst) && m.alloc.planeSize > 0 && TrustedTurn(m, inst, hints)
    ensures Counted(Turn(m, true, inst, hints).m)
  {
    hide MachineInv, Counted, Dispatch, WellTyped, GasCost, SameUse, TrustedRequest;
    SameUseRefl(m.alloc);
    var r := Turn(m, true, inst, hints);
    if m.remaining < GasCost(inst) {
      CountedSame(m, r.m);
    } else {
      var m' := Charged(m, GasCost(inst));
      CountedSame(m, m');
      SameMemory(m, m');
      DispatchKeepsCounted(m', inst, hints);
      var d := Dispatch(m', true, inst, hints).m;
      SameUseRefl(d.alloc);
      CountedSame(d, r.m);
    }
  }

  lemma {:induction false} ExecuteKeepsCounted(m: Machine, program: seq<byte>, pc: nat, hints: nat -> nat)
    requires MachineInv(m) && Counted(m) && m.alloc.planeSize > 0 && TrustedRun(m, program, pc, hints)
    ensures Counted(Execute(m, true, program, pc, hints).m)
    decreases |program| - pc
  {
    hide *;
    InvParts(m);
    match Fetch(program, pc)
    case None => ExecuteStuck(m, true, program, pc, hints);
    case Some(inst) =>
      FetchedIsWellTyped(program, pc);
      TrustedParts(m, program, pc, hints, inst);
      var r := Turn(m, true, inst, hints);
      TwinsRefl(m);
      TurnRefines(m, m, inst, hints);
      TurnKeepsCounted(m, inst, hints);
      ExecutePass(m, true, program, pc, hints, inst, r);
      if Stop(r).None? {
        ExecuteKeepsCounted(r.m, program, pc + inst.size, hints);
      }
  }

  lemma {:induction false} HostAllocateKeepsCounted(m: Machine, size: nat, kind: nat, hints: nat -> nat)
    requires MachineInv(m) && Counted(m) && size < U32 && m.alloc.planeSize > 0
    requires TrustedRequest(m.alloc, size, kind, Hint(m, hints))
    ensures Counted(HostAllocate(m, size, kind, hints).m)
  {
    hide MachineInv, Counted, Allocate, TrustedRequest;
    AllocateKeepsCounted(m, HostAllocate(m, size, kind, hints).m, size, kind, 0, Hint(m, hints));
  }

  lemma {:induction false} ChargedStore(m: Machine, addr: Address, data: seq<byte>)
    requires Counted(m)
    ensures var st := Store3D(m.alloc, m.tracked, addr, data);
      st.Stored? ==> Counted(HostCharge(Cached(m.(alloc := st.a), true, addr, data), |data|).m)
  {
    hide Counted, Store3D, SameUse;
    StoreKeepsUsed(m.alloc, m.tracked, addr, data);
    var st := Store3D(m.alloc, m.tracked, addr, data);
    if st.Stored? {
      CountedSame(m, HostCharge(Cached(m.(alloc := st.a), true, addr, data), |data|).m);
    }
  }

  lemma {:induction false} HostStoreKeepsCounted(m: Machine, addr: Address, data: seq<byte>, hints: nat -> nat)
    requires MachineInv(m) && Counted(m) && |data| < U32 && m.alloc.planeSize > 0
    requires addr !in m.tracked ==> TrustedRequest(m.alloc, |data|, HEAP, Hint(m, hints))
    ensures Counted(HostStore(m, true, addr, data, hints).m)
  {
    hide MachineInv, Counted, Allocate, Store3D, HostCharge, TrustedRequest, Blocks, Flat, TrackedOk, Apart,
      EntriesTracked, LinesOk;
    InvParts(m);
    StoreIsGranted(m, addr, data);
    ChargedStore(m, addr, data);
    if Store3D(m.alloc, m.tracked, addr, data).StoreUnallocated? {
      var s := Allocate(m.alloc, |data|, HEAP, 0, Hint(m, hints));
      var mid := if s.outcome.Ok? then Track(m.(alloc := s.a), s.outcome.alloc) else m.(alloc := s.a);
      AllocateKeepsCounted(m, mid, |data|, HEAP, 0, Hint(m, hints));
      if s.outcome.Ok? { ChargedStore(mid, s.outcome.alloc.addr, data); }
    }
  }

  lemma {:induction false} HandleKeepsCounted(m: Machine, e: Event, hints: nat -> nat)
    requires MachineInv(m) && Counted(m) && m.alloc.planeSize > 0 && TrustedEvent(m, e, hints)
    ensures Counted(Handle(m, true, e, hints).0)
  {
    hide MachineInv, Counted, Execute, HostStore, HostAllocate, TrustedRun, TrustedRequest;
    match e
    case RunProgram(program) => ExecuteKeepsCounted(m, program, 0, hints);
    case PutBytes(addr, data) => HostStoreKeepsCounted(m, addr, data, hints);
    case NewBlock(size, kind) => HostAllocateKeepsCounted(m, size, kind, hints);
  }

  lemma {:induction false} RunsKeepCounted(m: Machine, events: seq<Event>, hints: nat -> nat)
    requires MachineInv(m) && Counted(m) && m.alloc.planeSize > 0 && TrustedEvents(m, events, hints)
    ensures var n := HandleAll(m, true, events, hints).0; MachineInv(n) && Counted(n)
    decreases |events|
  {
    hide MachineInv, Counted, Handle, TrustedEvent;
    if events != [] {
      TwinsRefl(m);
      HandleIgnoresCache(m, m, events[0], hints);
      HandleKeepsCounted(m, events[0], hints);
      RunsKeepCounted(Handle(m, true, events[0], hints).0, events[1..], hints);
    }
  }

  lemma {:induction false} NewMachineCounted(planeSize: nat, maxYPromotions: nat, gasLimit: nat, maxInstructions: nat)
    ensures Counted(NewMachine(planeSize, maxYPromotions, gasLimit, maxInstructions))
  {
  }

  /** After every run from a new machine, the usage counter of every region is the sum of the
      sizes tracked in it, and that sum and the free bytes of its plane fit in the plane. */
  lemma {:induction false} UsageAfterAnyRun(
    planeSize: nat, maxY: nat, gasLimit: nat, limit: nat, events: seq<Event>, hints: nat -> nat, x: nat)
    requires 0 < planeSize < U16 && TrustedEvents(NewMachine(planeSize, maxY, gasLimit, limit), events, hints)
    ensures var m := HandleAll(NewMachine(planeSize, maxY, gasLimit, limit), true, events, hints).0;
      && UsageOf(m, x) == SumIn(m.tracked, x)
      && (x in m.alloc.regions ==>
            |m.alloc.regions[x].planes| == 1 && UsageOf(m, x) + PlaneOf(m.alloc, x).FreeBytes() <= planeSize)
  {
    hide MachineInv, HandleAll, TrustedEvents, SumIn, CountFree, UsageOf, Flat, TrackedOk, Apart, EntriesTracked,
      LinesOk;
    var first := NewMachine(planeSize, maxY, gasLimit, limit);
    NewMachineInv(planeSize, maxY, gasLimit, limit);
    NewMachineCounted(planeSize, maxY, gasLimit, limit);
    RunsKeepCounted(first, events, hints);
    HandleAllConfig(first, events, hints);
    RoomFor(HandleAll(first, true, events, hints).0, x);
  }

  lemma {:induction false} HandleAllConfig(m: Machine, events: seq<Event>, hints: nat -> nat)
    requires m.alloc.planeSize > 0
    ensures HandleAll(m, true, events, hints).0.alloc.planeSize == m.alloc.planeSize
    decreases |events|
  {
    hide Handle;
    if events != [] {
      HandleAllConfig(Handle(m, true, events[0], hints).0, events[1..], hints);
    }
  }
}
