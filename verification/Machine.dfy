/** The VM as the heap holds it: an allocator, a cache, the memory manager's maps, registers and
    gas, all updated in place. Every method carries out the function of `Vm` of the same name. */
module MachineModel {
  import opened FirstFit
  import opened M = Model
  import opened Codec
  import opened Instructions
  import opened V = Vm
  import opened Effects
  import opened OnePlane
  import opened Trust
  import opened Execution
  import opened Isolation
  import A = AllocatorModel
  import C = CacheModel

  /** No tracked allocation is spread over several planes. */
  ghost predicate Plain(tracked: map<Address, Allocation>) {
    forall k | k in tracked :: !tracked[k].IsYPromoted() && tracked[k].addr.z < U16
  }

  /** One plane to a region, as in every allocator that only the VM uses. */
  ghost predicate OneEach(a: M.Allocator) {
    && 0 < a.planeSize < U16
    && forall x | x in a.regions :: |a.regions[x].planes| == 1 && |a.regions[x].planes[0].used| < U16
  }

  /** What the handlers rely on, whatever the plane size. */
  ghost predicate Orderly(m: V.Machine) {
    OneEach(m.alloc) && Plain(m.tracked)
  }

  /** The tie-breaks agree with the one that the next allocation took, if it took one. */
  ghost predicate Follows(m: V.Machine, hints: nat -> nat, hint: Option<nat>) {
    hint.Some? ==> Hint(m, hints) == hint.value
  }

  // ------------------------------------------------------------------- tie-breaks of a run

  /** The number of the next allocation attempt. */
  function Index(m: V.Machine): nat {
    m.alloc.nextAlloc + m.alloc.nextRegion
  }

  ghost predicate Agrees(hints: nat -> nat, chosen: map<nat, nat>) {
    forall k | k in chosen :: hints(k) == chosen[k]
  }

  function FromMap(chosen: map<nat, nat>): nat -> nat {
    k => if k in chosen then chosen[k] else 0
  }

  function Extended(chosen: map<nat, nat>, m: V.Machine, hint: Option<nat>): map<nat, nat> {
    if hint.Some? then chosen[Index(m) := hint.value] else chosen
  }

  /** The loop of `Execute` got from the start of `m` to `pc` with state `n`, for all tie-breaks
      that agree with those chosen so far. */
  ghost predicate Reached(m: V.Machine, program: seq<byte>, chosen: map<nat, nat>, n: V.Machine, pc: nat) {
    && m.alloc.planeSize == n.alloc.planeSize > 0 && pc <= |program|
    && (forall k | k in chosen :: k < Index(n))
    && (forall hints: nat -> nat | Agrees(hints, chosen) ::
          V.Execute(m, true, program, 0, hints) == V.Execute(n, true, program, pc, hints))
  }

  lemma {:induction false} NothingRun(m: V.Machine, program: seq<byte>)
    requires m.alloc.planeSize > 0
    ensures Reached(m, program, map[], m, 0)
  {
    hide V.Execute;
  }

  lemma {:induction false} FromMapAgrees(chosen: map<nat, nat>)
    ensures Agrees(FromMap(chosen), chosen)
  {
  }

  lemma {:induction false} RunRejected(m: V.Machine, program: seq<byte>, chosen: map<nat, nat>, n: V.Machine, pc: nat)
    requires Reached(m, program, chosen, n, pc) && Fetch(program, pc).None? && pc < |program|
    ensures m.alloc.planeSize > 0 && V.Execute(m, true, program, 0, FromMap(chosen)) == Outcome(n, Rejected)
  {
    hide V.Execute, Fetch;
    FromMapAgrees(chosen);
    ExecuteStuck(n, true, program, pc, FromMap(chosen));
  }

  lemma {:induction false} RunCompleted(m: V.Machine, program: seq<byte>, chosen: map<nat, nat>, n: V.Machine, pc: nat)
    requires Reached(m, program, chosen, n, pc) && pc >= |program|
    ensures m.alloc.planeSize > 0 && V.Execute(m, true, program, 0, FromMap(chosen)) == Outcome(n, Completed)
  {
    hide V.Execute, Decode;
    FromMapAgrees(chosen);
    ExecuteStuck(n, true, program, pc, FromMap(chosen));
  }

  // --------------------------------------------------------------------- staying orderly

  lemma {:induction false} SpotInside(planes: seq<M.Plane>, size: nat, j: nat)
    requires j <= |planes|
    ensures var s := FindSpot(planes, size, j); s.At? ==> s.start < |planes[s.plane].used|
    decreases |planes| - j
  {
    hide Scan, CountFree;
    if j < |planes| {
      FoundIsInside(planes[j].used, size, 0);
      SpotInside(planes, size, j + 1);
    }
  }

  lemma {:induction false} FastInside(a: M.Allocator, size: nat, kind: nat, i: nat)
    requires i <= |a.lru|
    ensures var h := FastScan(a, size, kind, i); h.Hit? ==> h.start < |a.regions[h.x].planes[h.plane].used|
    decreases |a.lru| - i
  {
    hide FindSpot;
    if i < |a.lru| {
      if a.lru[i] in a.regions { SpotInside(a.regions[a.lru[i]].planes, size, 0); }
      FastInside(a, size, kind, i + 1);
    }
  }

  /** One plane yields at most one fragment. */
  lemma {:induction false} OneFragment(planes: seq<M.Plane>, size: nat)
    requires |planes| == 1
    ensures var c := Carve(Carving(planes, [], size, false), 0);
      && |c.fragments| <= 1 && |c.planes| == 1 && |c.planes[0].used| == |planes[0].used|
      && (c.fragments != [] ==> c.fragments[0].start < |planes[0].used|)
  {
    hide Scan, CountFree;
    var n := Min(planes[0].FreeBytes(), size);
    FoundIsInside(planes[0].used, n, 0);
  }

  lemma {:induction false} RollbackShape(planes: seq<M.Plane>, fragments: seq<Fragment>)
    requires |planes| == 1
    ensures |Rollback(planes, fragments)| == 1 && |Rollback(planes, fragments)[0].used| == |planes[0].used|
    decreases |fragments|
  {
    hide Vacate;
    if fragments != [] {
      var f := fragments[0];
      var i := FindPlane(planes, f.plane);
      if i < 1 {
        VacateLength(planes[i], f.start, f.size);
        RollbackShape(planes[i := Vacate(planes[i], f.start, f.size).(allocs := planes[i].allocs - {f.start})],
          fragments[1..]);
      } else {
        RollbackShape(planes, fragments[1..]);
      }
    }
  }

  lemma {:induction false} VacateLength(p: M.Plane, start: nat, size: nat)
    ensures |Vacate(p, start, size).used| == |p.used|
  {
  }

  lemma {:induction false} PromotionKeepsOneEach(a: M.Allocator, x: nat, size: nat, kind: nat, flags: nat)
    requires OneEach(a) && x in a.regions
    ensures var y := PromoteIn(a, x, size, kind, flags);
      && (y.result != Some(Crashed) ==> OneEach(y.a))
      && (y.result.Some? && y.result.value.Ok? ==>
            !y.result.value.alloc.IsYPromoted() && y.result.value.alloc.addr.z < U16)
  {
    hide Carve, Rollback, Promote, FindPlane, Booked;
    var r := a.regions[x];
    OneFragment(r.planes, size);
    var c := Carve(Carving(r.planes, [], size, false), 0);
    RollbackShape(c.planes, c.fragments);
    var alloc := Scattered(a.nextAlloc + 1, x, size, kind, flags, c.fragments);
    BookedPlanes(r, EnterFirst(c.planes, alloc), size);
  }

  lemma {:induction false} NewRegionKeepsOneEach(a: M.Allocator, size: nat, kind: nat, flags: nat)
    requires OneEach(a)
    ensures var s := AllocateNewRegion(a, size, kind, flags);
      OneEach(s.a) && (s.outcome.Ok? ==> !s.outcome.alloc.IsYPromoted() && s.outcome.alloc.addr.z < U16)
  {
    hide FindSpot, Promote, CountFree, Debit;
    SpotInside(FreshRegion(a.nextRegion + 1, kind, a.planeSize).planes, size, 0);
  }

  /** Whatever the searches return, a request keeps one plane to a region, and what it grants is
      not spread. */
  lemma {:induction false} AllocateKeepsOneEach(a: M.Allocator, size: nat, kind: nat, flags: nat, hint: nat)
    requires OneEach(a)
    ensures var s := Allocate(a, size, kind, flags, hint);
      && (!s.outcome.Crashed? ==> OneEach(s.a))
      && (s.outcome.Ok? ==> !s.outcome.alloc.IsYPromoted() && s.outcome.alloc.addr.z < U16)
  {
    hide FastScan, PromoteIn, AllocateNewRegion, Promote, Best, CountFree, Debit;
    FastInside(a, size, kind, 0);
    if FastScan(a, size, kind, 0).Miss? {
      var y := TryYPromotion(a, size, kind, flags, hint);
      var best := ChooseBest(a, size, kind, hint);
      if PlanesNeeded(a, size) <= a.maxYPromotions && best.Some? {
        BestIsThere(a, best.value, size, kind);
        PromotionKeepsOneEach(a, best.value, size, kind, flags);
      }
      if y.result.None? { NewRegionKeepsOneEach(y.a, size, kind, flags); }
    }
  }

  lemma {:induction false} FreeKeepsOneEach(a: M.Allocator, alloc: Allocation)
    requires OneEach(a) && !alloc.IsYPromoted()
    ensures Free(a, alloc).Some? ==> OneEach(Free(a, alloc).value)
  {
  }

  lemma {:induction false} StoreKeepsOneEach(a: M.Allocator, tracked: map<Address, Allocation>, addr: Address,
      data: seq<byte>)
    requires OneEach(a)
    ensures var st := Store3D(a, tracked, addr, data); st.Stored? ==> OneEach(st.a)
  {
    hide Check, Overwrite;
  }

  lemma {:induction false} PlainLookup(tracked: map<Address, Allocation>, addr: Address)
    requires Plain(tracked)
    ensures Lookup(tracked, addr).Some? ==> !Lookup(tracked, addr).value.IsYPromoted()
  {
  }

  lemma {:induction false} DispatchKeepsOrderly(m: V.Machine, inst: Instruction, hints: nat -> nat)
    requires Orderly(m) && WellTyped(inst)
    ensures var r := Dispatch(m, true, inst, hints); r.status != Panic ==> Orderly(r.m)
  {
    hide OneEach, Allocate, Load3D, Store3D, Lookup, Free, Computed, Bytes, Put, RegSet, RegGet, Debit;
    assert m.alloc.planeSize > 0 by { OneEachConfig(m.alloc); }
    var v := inst.operands;
    if inst.opcode == OP_MALLOC3D {
      AllocateKeepsOneEach(m.alloc, v[0].value.size, v[1].value.kind, v[2].value.flags, Hint(m, hints));
    } else if inst.opcode == OP_MFREE3D {
      PlainLookup(m.tracked, v[0].value.address);
      var found := Lookup(m.tracked, v[0].value.address);
      if found.Some? { FreeKeepsOneEach(m.alloc, found.value); }
    } else if inst.opcode == OP_MSTORE3D {
      var data, size := RegGet(m.registers, v[1].value.register), v[2].value.size;
      if size <= |data| { StoreKeepsOneEach(m.alloc, m.tracked, v[0].value.address, data[..size]); }
    } else if inst.opcode == OP_MCOPY3D {
      var loaded := Load3D(m.alloc, m.tracked, v[0].value.address, v[2].value.size);
      if loaded.Loaded? { StoreKeepsOneEach(m.alloc, m.tracked, v[1].value.address, loaded.data); }
    }
  }

  lemma {:induction false} OneEachConfig(a: M.Allocator)
    requires OneEach(a)
    ensures a.planeSize > 0
  {
  }

  lemma {:induction false} OrderlyParts(m: V.Machine)
    requires Orderly(m)
    ensures Plain(m.tracked)
  {
  }

  lemma {:induction false} StartsPositive(inst: Instruction, program: seq<byte>, pc: nat)
    requires pc < |program| && inst.size == FetchSize(program[pc])
    ensures inst.size > 0
  {
  }

  lemma {:induction false} TurnKeepsOrderly(m: V.Machine, inst: Instruction, hints: nat -> nat)
    requires Orderly(m) && WellTyped(inst) && m.alloc.planeSize > 0
    ensures var r := Turn(m, true, inst, hints); r.status != Panic ==> Orderly(r.m)
  {
    hide Dispatch, GasCost, WellTyped, OneEach, Plain;
    if GasCost(inst) <= m.remaining {
      DispatchKeepsOrderly(Charged(m, GasCost(inst)), inst, hints);
    }
  }

  lemma {:induction false} HostStoreKeepsOrderly(m: V.Machine, addr: Address, data: seq<byte>, hints: nat -> nat)
    requires Orderly(m)
    ensures m.alloc.planeSize > 0
    ensures var r := V.HostStore(m, true, addr, data, hints); r.status != Panic ==> Orderly(r.m)
  {
    hide OneEach, Allocate, Store3D;
    OneEachConfig(m.alloc);
    StoreKeepsOneEach(m.alloc, m.tracked, addr, data);
    AllocateKeepsOneEach(m.alloc, |data| % U32, HEAP, 0, Hint(m, hints));
    var s := Allocate(m.alloc, |data| % U32, HEAP, 0, Hint(m, hints));
    if s.outcome.Ok? {
      StoreKeepsOneEach(s.a, Track(m.(alloc := s.a), s.outcome.alloc).tracked, s.outcome.alloc.addr, data);
    }
  }

  // ----------------------------------------------------------------- one pass of the loop

  /** An attempt moves the allocation counters on. */
  lemma {:induction false} AllocateAdvances(a: M.Allocator, size: nat, kind: nat, flags: nat, hint: nat)
    requires a.planeSize > 0
    ensures var s := Allocate(a, size, kind, flags, hint);
      !s.outcome.Crashed? ==> s.a.nextAlloc + s.a.nextRegion > a.nextAlloc + a.nextRegion
  {
    hide FastScan, FindSpot, Carve, Rollback, ChooseBest, PlaceAt, FreshRegion, Promote, EnterFirst, Booked;
  }

  lemma {:induction false} DispatchAdvances(m: V.Machine, inst: Instruction, hints: nat -> nat)
    requires m.alloc.planeSize > 0 && WellTyped(inst)
    ensures var r := Dispatch(m, true, inst, hints);
      r.status != Panic ==> Index(r.m) >= Index(m) && (inst.opcode == OP_MALLOC3D ==> Index(r.m) > Index(m))
  {
    hide Allocate, Load3D, Check, Lookup, Relieved, Computed, Bytes, Put, RegSet, RegGet, Debit;
    if inst.opcode == OP_MALLOC3D {
      var v := inst.operands;
      AllocateAdvances(m.alloc, v[0].value.size, v[1].value.kind, v[2].value.flags, Hint(m, hints));
    }
  }

  lemma {:induction false} TurnAdvances(m: V.Machine, inst: Instruction, hints: nat -> nat)
    requires m.alloc.planeSize > 0 && WellTyped(inst)
    ensures var r := Turn(m, true, inst, hints);
      r.status != Panic ==>
        Index(r.m) >= Index(m) && (inst.opcode == OP_MALLOC3D && GasCost(inst) <= m.remaining ==> Index(r.m) > Index(m))
  {
    hide Dispatch, GasCost, WellTyped;
    if GasCost(inst) <= m.remaining {
      DispatchAdvances(Charged(m, GasCost(inst)), inst, hints);
    }
  }

  /** One pass of the loop: the run is one instruction further on or at its end. */
  lemma {:induction false} TurnReaches(
    m: V.Machine, program: seq<byte>, chosen: map<nat, nat>, before: V.Machine, pc: nat, inst: Instruction,
    after: V.Machine, status: Status, hint: Option<nat>)
    requires Orderly(before) && Reached(m, program, chosen, before, pc) && Fetch(program, pc) == Some(inst)
    requires WellTyped(inst) && pc + inst.size <= |program|
    requires hint.Some? ==> inst.opcode == OP_MALLOC3D && GasCost(inst) <= before.remaining
    requires forall hints: nat -> nat | Follows(before, hints, hint) ::
      var e := Turn(before, true, inst, hints); status == e.status && (status != Panic ==> after == e.m)
    ensures m.alloc.planeSize > 0 && (status != Panic ==> Orderly(after))
    ensures var stop, o := Stop(Result(after, status)), V.Execute(m, true, program, 0, FromMap(Extended(chosen,
      before, hint)));
      stop.Some? ==> o.ending == stop.value && (status != Panic ==> o.m == after)
    ensures Stop(Result(after, status)).None? ==>
      status != Panic && Reached(m, program, Extended(chosen, before, hint), after, pc + inst.size)
  {
    hide *;
    ReachedParts(m, program, chosen, before, pc);
    var longer := Extended(chosen, before, hint);
    ExtendedAgrees(chosen, before, hint);
    FromMapAgrees(longer);
    StopOnPanic(after, status);
    if status == Panic {
      var hints := FromMap(longer);
      var e := Turn(before, true, inst, hints);
      StopOnPanic(e.m, status);
      ExecutePass(before, true, program, pc, hints, inst, e);
    } else {
      forall hints: nat -> nat | Agrees(hints, longer)
        ensures Turn(before, true, inst, hints) == Result(after, status) && Orderly(after)
        ensures forall k | k in longer :: k < Index(after)
        ensures after.alloc.planeSize == before.alloc.planeSize
        ensures var stop, o := Stop(Result(after, status)), V.Execute(m, true, program, 0, hints);
          && (stop.Some? ==> o == Outcome(after, stop.value))
          && (stop.None? ==> o == V.Execute(after, true, program, pc + inst.size, hints))
      {
        assert Turn(before, true, inst, hints) == Result(after, status);
        TurnKeepsOrderly(before, inst, hints);
        TurnAdvances(before, inst, hints);
        ExecutePass(before, true, program, pc, hints, inst, Result(after, status));
      }
      assert Turn(before, true, inst, FromMap(longer)) == Result(after, status);
      if Stop(Result(after, status)).None? {
        MakeReached(m, program, longer, after, pc + inst.size);
      }
    }
  }

  lemma {:induction false} StopOnPanic(m: V.Machine, status: Status)
    ensures status == Panic ==> Stop(Result(m, status)) == Some(Panicked)
    ensures status != Panic ==> Stop(Result(m, status)) != Some(Panicked)
  {
  }

  lemma {:induction false} ReachedParts(m: V.Machine, program: seq<byte>, chosen: map<nat, nat>, n: V.Machine, pc: nat)
    requires Reached(m, program, chosen, n, pc)
    ensures m.alloc.planeSize == n.alloc.planeSize > 0
    ensures forall k | k in chosen :: k < Index(n)
    ensures forall hints: nat -> nat | Agrees(hints, chosen) ::
      V.Execute(m, true, program, 0, hints) == V.Execute(n, true, program, pc, hints)
  {
    hide V.Execute, Agrees;
  }

  lemma {:induction false} MakeReached(m: V.Machine, program: seq<byte>, chosen: map<nat, nat>, n: V.Machine, pc: nat)
    requires m.alloc.planeSize == n.alloc.planeSize > 0 && pc <= |program|
    requires forall k | k in chosen :: k < Index(n)
    requires forall hints: nat -> nat | Agrees(hints, chosen) ::
      V.Execute(m, true, program, 0, hints) == V.Execute(n, true, program, pc, hints)
    ensures Reached(m, program, chosen, n, pc)
  {
    hide V.Execute, Agrees;
  }

  lemma {:induction false} ExtendedAgrees(chosen: map<nat, nat>, m: V.Machine, hint: Option<nat>)
    requires forall k | k in chosen :: k < Index(m)
    ensures forall hints: nat -> nat | Agrees(hints, Extended(chosen, m, hint)) ::
      Follows(m, hints, hint) && Agrees(hints, chosen)
    ensures forall k | k in Extended(chosen, m, hint) :: k in chosen || (hint.Some? && k == Index(m))
  {
    forall hints: nat -> nat | Agrees(hints, Extended(chosen, m, hint))
      ensures Follows(m, hints, hint) && Agrees(hints, chosen)
    {
      assert forall k | k in chosen :: Extended(chosen, m, hint)[k] == chosen[k];
    }
  }

  /** Trusted or not, a request of positive size is granted at an address that is not tracked. */
  lemma {:induction false} NewAddress(m: V.Machine, size: nat, kind: nat, flags: nat, hint: nat)
    requires MachineInv(m) && size > 0 && m.alloc.planeSize > 0
    requires Allocate(m.alloc, size, kind, flags, hint).outcome.Ok?
    ensures Allocate(m.alloc, size, kind, flags, hint).outcome.alloc.addr !in m.tracked
  {
    hide Flat, Allocate, Apart, EntriesTracked, LinesOk;
    GrantStartsFree(m.alloc, size, kind, flags, hint);
  }

  class Machine {
    const allocator: A.Allocator
    const cache: C.SpatialCache
    const maxInstructions: nat
    var tracked: map<Address, Allocation>
    var usage: map<nat, nat>
    var registers: seq<seq<byte>>
    var remaining: nat
    var used: nat
    var executed: nat
    ghost var Repr: set<object>

    ghost predicate Valid()
      reads this, Repr
    {
      && this !in Repr && allocator in Repr && allocator.Inner <= Repr
      && cache in Repr && cache.cache.Values <= Repr
      && cache !in allocator.Inner && cache.cache.Values !! allocator.Inner
      && allocator.Valid() && cache.Valid()
    }

    ghost function Value(): (m: V.Machine)
      reads this, Repr
      requires Valid()
      ensures m.tracked == tracked && m.registers == registers && m.alloc.planeSize > 0
    {
      V.Machine(allocator.Value(), tracked, usage, cache.View(), registers, remaining, used, executed, maxInstructions)
    }

    constructor (planeSize: nat, maxYPromotions: nat, gasLimit: nat, maxInstructions: nat)
      requires 0 < planeSize < U16
      ensures Valid() && fresh(Repr) && Orderly(Value())
      ensures Value() == V.Machine(Init(planeSize, maxYPromotions), map[], map[], map[], seq(16, _ => []), gasLimit,
        0, 0, maxInstructions)
    {
      this.maxInstructions := maxInstructions;
      allocator := new A.Allocator(planeSize, maxYPromotions);
      cache := new C.SpatialCache();
      tracked, usage, registers := map[], map[], seq(16, _ => []);
      remaining, used, executed := gasLimit, 0, 0;
      new;
      Repr := {allocator, cache} + allocator.Inner;
    }

    // ------------------------------------------------------------------------------ parts

    method CacheGet(addr: Address) returns (r: Option<seq<byte>>)
      requires Valid()
      modifies Repr
      ensures Valid() && Value() == old(Value())
      ensures r == if addr in Value().cache then Some(Value().cache[addr]) else None
    {
      hide A.Allocator.Valid, A.Allocator.Value, C.SpatialCache.View, C.SpatialCache.Valid;
      r := cache.Get(addr);
    }

    method CachePut(addr: Address, data: seq<byte>)
      requires Valid()
      modifies this, Repr
      ensures Valid() && fresh(Repr - old(Repr)) && Value() == Cached(old(Value()), true, addr, data)
    {
      hide A.Allocator.Valid, A.Allocator.Value, C.SpatialCache.View, C.SpatialCache.Valid;
      cache.Put(addr, data);
      Repr := Repr + cache.cache.Values;
    }

    method CacheInvalidate(addr: Address)
      requires Valid()
      modifies Repr
      ensures Valid() && Value() == old(Value()).(cache := old(Value()).cache - {addr})
    {
      hide A.Allocator.Valid, A.Allocator.Value, C.SpatialCache.View, C.SpatialCache.Valid;
      cache.Invalidate(addr);
    }

    method Reserve(size: nat, kind: nat, flags: nat) returns (r: M.Outcome, ghost hint: nat)
      requires Valid()
      modifies this, Repr
      ensures Valid() && fresh(Repr - old(Repr))
      ensures var s := Allocate(old(Value()).alloc, size, kind, flags, hint);
        r == s.outcome && (!r.Crashed? ==> Value() == old(Value()).(alloc := s.a))
    {
      hide A.Allocator.Valid, A.Allocator.Value, C.SpatialCache.View, C.SpatialCache.Valid, Allocate;
      r, hint := allocator.Allocate(size, kind, flags);
      Repr := Repr + allocator.Inner;
    }

    method Release(alloc: Allocation) returns (ok: bool)
      requires Valid() && alloc.addr.z < U16 && !alloc.IsYPromoted()
      modifies Repr
      ensures Valid() && ok == Free(old(Value()).alloc, alloc).Some?
      ensures Value() == if ok then old(Value()).(alloc := Free(old(Value()).alloc, alloc).value) else old(Value())
    {
      hide A.Allocator.Valid, A.Allocator.Value, C.SpatialCache.View, C.SpatialCache.Valid, Free;
      allocator.Basics(0);
      ok := allocator.Free(alloc);
    }

    // --------------------------------------------------------------------- memory manager

    /** An exact match, else the first promoted allocation around the address, in any order. */
    method GetAllocation(addr: Address) returns (r: Option<Allocation>)
      ensures Plain(tracked) ==> r == Lookup(tracked, addr)
      ensures addr in tracked ==> r == Some(tracked[addr])
      ensures r.None? ==> Lookup(tracked, addr).None?
      ensures r.Some? && addr !in tracked ==>
        exists k :: k in tracked && r.value == tracked[k] && InFragment(tracked[k], addr)
    {
      if addr in tracked {
        return Some(tracked[addr]);
      }
      var todo := tracked.Keys;
      while todo != {}
        invariant todo <= tracked.Keys
        invariant forall k | k in tracked && k !in todo :: !InFragment(tracked[k], addr)
        decreases |todo|
      {
        var k :| k in todo;
        var inside := Contains(tracked[k], addr);
        if inside {
          return Some(tracked[k]);
        }
        todo := todo - {k};
      }
      r := None;
    }

    /** The checks of a load or store of `size` bytes. */
    method CheckAccess(addr: Address, size: nat) returns (r: Access)
      requires Valid() && Plain(tracked)
      ensures r == Check(Value().alloc, tracked, addr, size)
    {
      hide A.Allocator.Valid, A.Allocator.Value, C.SpatialCache.View, C.SpatialCache.Valid, Lookup, FindPlane;
      var found := GetAllocation(addr);
      if found.None? {
        return NotAllocated;
      }
      var alloc := found.value;
      var relStart := (addr.z + U16 - alloc.addr.z) % U16;
      var endOffset := (relStart + size % U16) % U16;
      if endOffset > alloc.size % U16 || addr.x !in allocator.regions {
        return Denied;
      }
      var known, i, length := allocator.GetPlane(addr.x, addr.y);
      var planeEnd := (addr.z + size) % U32;
      if !known || planeEnd > length {
        r := Denied;
      } else if planeEnd < addr.z {
        r := Faulted;
      } else {
        r := Granted(addr.x, i);
      }
    }

    method MemoryLoad(addr: Address, size: nat) returns (r: Load)
      requires Valid() && Plain(tracked)
      ensures r == Load3D(Value().alloc, tracked, addr, size)
    {
      hide A.Allocator.Valid, A.Allocator.Value, C.SpatialCache.View, C.SpatialCache.Valid, Check;
      var access := CheckAccess(addr, size);
      match access {
        case NotAllocated => r := LoadError;
        case Denied => r := LoadError;
        case Faulted => r := LoadPanic;
        case Granted(x, i) =>
          var bytes := allocator.Read(x, i, addr.z, (addr.z + size) % U32);
          r := Loaded(bytes);
      }
    }

    /** The outcome of a store; the bytes are in place when it is `Stored`. */
    method MemoryStore(addr: Address, data: seq<byte>) returns (ghost r: Store, status: Access)
      requires Valid() && Plain(tracked)
      modifies Repr
      ensures Valid() && r == Store3D(old(Value()).alloc, tracked, addr, data)
      ensures r.Stored? <==> status.Granted?
      ensures r.StorePanic? <==> status.Faulted?
      ensures r.StoreUnallocated? <==> status.NotAllocated?
      ensures Value() == if r.Stored? then old(Value()).(alloc := r.a) else old(Value())
    {
      hide A.Allocator.Valid, A.Allocator.Value, C.SpatialCache.View, C.SpatialCache.Valid, Check, WriteAt;
      r := Store3D(Value().alloc, tracked, addr, data);
      allocator.Basics(0);
      status := CheckAccess(addr, |data| % U32);
      if status.Granted? {
        allocator.Write(status.x, status.plane, addr.z, data[..|data| % U32]);
      }
    }

    method TrackAllocation(alloc: Allocation)
      requires Valid()
      modifies this`tracked, this`usage
      ensures Valid() && Value() == Track(old(Value()), alloc)
    {
      hide A.Allocator.Valid, A.Allocator.Value, C.SpatialCache.View, C.SpatialCache.Valid;
      var x := alloc.addr.x;
      tracked := tracked[alloc.addr := alloc];
      if x !in usage {
        usage := usage[x := 0];
      }
      usage := usage[x := (usage[x] + alloc.size) % U64];
      assert old(usage)[x := 0][x := usage[x]] == old(usage)[x := usage[x]];
    }

    method UntrackAllocation(addr: Address)
      requires Valid()
      modifies this`tracked, this`usage
      ensures Valid() && Value() == Untrack(old(Value()), addr)
    {
      hide A.Allocator.Valid, A.Allocator.Value, C.SpatialCache.View, C.SpatialCache.Valid, Debit;
      if addr !in tracked {
        return;
      }
      if addr.x in usage {
        usage := usage[addr.x := Debit(usage[addr.x], tracked[addr].size)];
      }
      tracked := tracked - {addr};
    }

    method SetRegister(reg: nat, value: seq<byte>)
      requires Valid()
      modifies this`registers
      ensures Valid() && Value() == SetReg(old(Value()), reg, value)
    {
      hide A.Allocator.Valid, A.Allocator.Value, C.SpatialCache.View, C.SpatialCache.Valid;
      if reg < |registers| {
        registers := registers[reg := value];
      }
    }

    // --------------------------------------------------------------------------- handlers

    method ExecuteLoad(addr: Address, size: nat, reg: nat) returns (status: Status)
      requires Valid() && Plain(tracked)
      modifies this, Repr
      ensures Valid() && fresh(Repr - old(Repr))
      ensures Result(Value(), status) == ExecLoad(old(Value()), true, addr, size, reg)
    {
      hide Valid, Value, Load3D, Plain, RegSet;
      OutsideRepr();
      var hit := CacheGet(addr);
      if hit.Some? && |hit.value| >= size {
        SetRegister(reg, hit.value[..size]);
        return Fine;
      }
      var loaded := MemoryLoad(addr, size);
      if loaded.Loaded? {
        CachePut(addr, loaded.data);
        SetRegister(reg, loaded.data);
        return Fine;
      }
      status := if loaded.LoadPanic? then Panic else Error;
    }

    method ExecuteStore(addr: Address, reg: nat, size: nat) returns (status: Status)
      requires Valid() && Plain(tracked)
      modifies this, Repr
      ensures Valid() && fresh(Repr - old(Repr))
      ensures Result(Value(), status) == ExecStore(old(Value()), true, addr, reg, size)
    {
      hide Valid, Value, Store3D, Plain, RegGet;
      OutsideRepr();
      var data := RegGet(registers, reg);
      if |data| < size {
        return Error;
      }
      ghost var stored;
      var access;
      stored, access := MemoryStore(addr, data[..size]);
      if access.Granted? {
        CachePut(addr, data[..size]);
        return Fine;
      }
      status := if access.Faulted? then Panic else Error;
    }

    method ExecuteAlloc(size: nat, kind: nat, flags: nat) returns (status: Status, ghost hint: nat)
      requires Valid()
      modifies this, Repr
      ensures Valid() && fresh(Repr - old(Repr))
      ensures var e := ExecAlloc(old(Value()), size, kind, flags, hint);
        status == e.status && (status != Panic ==> Value() == e.m)
    {
      hide Valid, Value, Allocate, RegSet, Bytes;
      var r;
      r, hint := Reserve(size, kind, flags);
      if r.Ok? {
        SetRegister(0, Bytes(r.alloc.addr));
        TrackAllocation(r.alloc);
        return Fine, hint;
      }
      status := if r.Crashed? then Panic else Error;
    }

    method ExecuteFree(addr: Address) returns (status: Status)
      requires Valid() && Plain(tracked)
      modifies this, Repr
      ensures Valid() && fresh(Repr - old(Repr))
      ensures Result(Value(), status) == ExecFree(old(Value()), true, addr)
    {
      hide Valid, Value, Free, Lookup;
      OutsideRepr();
      var found := GetAllocation(addr);
      if found.None? {
        return Error;
      }
      var ok := Release(found.value);
      if !ok {
        return Error;
      }
      UntrackAllocation(addr);
      CacheInvalidate(addr);
      status := Fine;
    }

    method ExecuteCopy(src: Address, dst: Address, size: nat) returns (status: Status)
      requires Valid() && Plain(tracked)
      modifies this, Repr
      ensures Valid() && fresh(Repr - old(Repr))
      ensures Result(Value(), status) == ExecCopy(old(Value()), true, src, dst, size)
    {
      hide Valid, Value, Load3D, Store3D, Plain;
      OutsideRepr();
      var loaded := MemoryLoad(src, size);
      if !loaded.Loaded? {
        return if loaded.LoadPanic? then Panic else Error;
      }
      ghost var stored;
      var access;
      stored, access := MemoryStore(dst, loaded.data);
      if access.Granted? {
        CachePut(src, loaded.data);
        CachePut(dst, loaded.data);
        return Fine;
      }
      status := if access.Faulted? then Panic else Error;
    }

    method ExecuteSize(addr: Address, reg: nat) returns (status: Status)
      requires Valid() && Plain(tracked)
      modifies this`registers
      ensures Valid() && Result(Value(), status) == ExecSize(old(Value()), addr, reg)
    {
      hide Valid, Value, Lookup, Put, RegSet;
      var found := GetAllocation(addr);
      SetRegister(reg, Put(if found.None? then 0 else found.value.size, 8));
      status := Fine;
    }

    /** The handler that the opcode selects. An allocation reports the tie-break it used. */
    method ExecuteOperation(inst: Instruction) returns (status: Status, ghost hint: Option<nat>)
      requires Valid() && Plain(tracked) && WellTyped(inst)
      modifies this, Repr
      ensures Valid() && fresh(Repr - old(Repr))
      ensures hint.Some? <==> inst.opcode == OP_MALLOC3D
      ensures forall hints: nat -> nat | Follows(old(Value()), hints, hint) ::
        var e := Dispatch(old(Value()), true, inst, hints); status == e.status && (status != Panic ==> Value() == e.m)
    {
      hide Valid, Value, Plain, ExecLoad, ExecStore, ExecAlloc, ExecFree, ExecCopy, ExecSize, RegWord, Put, RegGet;
      var op, v := inst.opcode, inst.operands;
      hint := None;
      if op == OP_MLOAD3D {
        status := ExecuteLoad(v[0].value.address, v[1].value.size, v[2].value.register);
      } else if op == OP_MSTORE3D {
        status := ExecuteStore(v[0].value.address, v[1].value.register, v[2].value.size);
      } else if op == OP_MALLOC3D {
        ghost var h;
        status, h := ExecuteAlloc(v[0].value.size, v[1].value.kind, v[2].value.flags);
        hint := Some(h);
      } else if op == OP_MFREE3D {
        status := ExecuteFree(v[0].value.address);
      } else if op == OP_MCOPY3D {
        status := ExecuteCopy(v[0].value.address, v[1].value.address, v[2].value.size);
      } else if op == OP_MSIZE3D {
        status := ExecuteSize(v[0].value.address, v[1].value.register);
      } else if op == OP_HALT3D {
        status := Halt;
      } else {
        if op == OP_ADD3D {
          ExecuteAdd(v[0].value.register, v[1].value.register, v[2].value.register);
        } else if op == OP_SUB3D {
          ExecuteSub(v[0].value.register, v[1].value.register, v[2].value.register);
        } else if op == OP_MOV3D {
          ExecuteMov(v[0].value.register, v[1].value.register);
        }
        status := Fine;
      }
    }

    /** The target's word becomes the sum modulo 2^64, and no other register changes. */
    method ExecuteAdd(dest: nat, src1: nat, src2: nat)
      requires Valid()
      modifies this`registers
      ensures Valid()
      ensures Value() == SetReg(old(Value()), dest, Put((RegWord(old(registers), src1) + RegWord(old(registers),
        src2)) % U64, 8))
      ensures dest < |registers| ==>
        RegWord(registers, dest) == (RegWord(old(registers), src1) + RegWord(old(registers), src2)) % U64
      ensures forall r | r != dest :: RegGet(registers, r) == RegGet(old(registers), r)
    {
      hide Valid, Value, Put, RegWord;
      var val1, val2 := RegWord(registers, src1), RegWord(registers, src2);
      var result := (val1 + val2) % U64;
      SetRegister(dest, Put(result, 8));
      if dest < |old(registers)| { WordReadsBack(old(registers), dest, result); }
    }

    /** Adding the second source's word to the target's new word gives back the first one's,
        modulo 2^64, and no other register changes. */
    method ExecuteSub(dest: nat, src1: nat, src2: nat)
      requires Valid()
      modifies this`registers
      ensures Valid()
      ensures Value()
           == SetReg(old(Value()), dest, Put((RegWord(old(registers), src1) + U64 - RegWord(old(registers),
             src2) % U64) % U64, 8))
      ensures dest < |registers| ==>
        && RegWord(registers, dest) < U64
        && (RegWord(registers, dest) + RegWord(old(registers), src2)) % U64 == RegWord(old(registers), src1)
      ensures forall r | r != dest :: RegGet(registers, r) == RegGet(old(registers), r)
    {
      hide Valid, Value, Put, RegWord;
      var val1, val2 := RegWord(registers, src1), RegWord(registers, src2);
      WordIsSmall(registers, src1);
      WordIsSmall(registers, src2);
      var result := if val1 >= val2 then val1 - val2 else val1 + U64 - val2;
      SetRegister(dest, Put(result, 8));
      if dest < |old(registers)| { WordReadsBack(old(registers), dest, result); }
    }

    method ExecuteMov(dest: nat, src: nat)
      requires Valid()
      modifies this`registers
      ensures Valid() && Value() == SetReg(old(Value()), dest, RegGet(old(registers), src))
      ensures dest < |registers| ==> RegGet(registers, dest) == RegGet(old(registers), src)
      ensures forall r | r != dest :: RegGet(registers, r) == RegGet(old(registers), r)
    {
      hide Valid, Value;
      SetRegister(dest, RegGet(registers, src));
    }

    /** Takes `gas` units, if they are there. */
    method Consume(gas: nat) returns (ok: bool)
      requires Valid()
      modifies this`remaining, this`used
      ensures Valid() && ok == (gas <= old(Value()).remaining)
      ensures Value() == if ok then Charged(old(Value()), gas) else old(Value())
    {
      hide A.Allocator.Valid, A.Allocator.Value, C.SpatialCache.View, C.SpatialCache.Valid;
      ok := gas <= remaining;
      if ok {
        remaining, used := remaining - gas, (used + gas) % U64;
      }
    }

    /** Charges and executes one instruction, and counts it. */
    method ExecuteTurn(inst: Instruction) returns (status: Status, ghost hint: Option<nat>)
      requires Valid() && Plain(tracked) && WellTyped(inst)
      modifies this, Repr
      ensures Valid() && fresh(Repr - old(Repr))
      ensures hint.Some? ==> inst.opcode == OP_MALLOC3D && GasCost(inst) <= old(Value()).remaining
      ensures forall hints: nat -> nat | Follows(old(Value()), hints, hint) ::
        var e := Turn(old(Value()), true, inst, hints); status == e.status && (status != Panic ==> Value() == e.m)
    {
      hide Valid, Value, Plain, Dispatch, GasCost, WellTyped;
      hint := None;
      var ok := Consume(GasCost(inst));
      status := Error;
      if ok {
        status, hint := ExecuteOperation(inst);
      }
      Count();
    }

    method Count()
      requires Valid()
      modifies this`executed
      ensures Valid() && Value() == old(Value()).(executed := old(Value()).executed + 1)
    {
      hide A.Allocator.Valid, A.Allocator.Value, C.SpatialCache.View, C.SpatialCache.Valid;
      executed := executed + 1;
    }

    /** What the loop of `Execute` checks after an instruction. */
    method CheckStop(status: Status) returns (r: Option<Ending>)
      requires Valid()
      ensures r == Stop(Result(Value(), status))
    {
      hide A.Allocator.Valid, A.Allocator.Value, C.SpatialCache.View, C.SpatialCache.Valid;
      r := None;
      if status == Error {
        r := Some(Ending.Failed);
      } else if status == Panic {
        r := Some(Panicked);
      } else if remaining == 0 || remaining >= U64 / 2 {
        r := Some(OutOfGas);
      } else if executed >= maxInstructions {
        r := Some(LimitReached);
      } else if status == Halt {
        r := Some(Halted);
      }
    }

    /** Runs a program. The tie-breaks that the allocations took one after the other make up
        `hints`; with them the machine ends exactly as `Vm.Execute` says. */
    method Execute(program: seq<byte>) returns (ending: Ending, ghost hints: nat -> nat)
      requires Valid() && Orderly(Value())
      modifies this, Repr
      ensures Valid() && fresh(Repr - old(Repr))
      ensures var o := V.Execute(old(Value()), true, program, 0, hints);
        ending == o.ending && (ending != Panicked ==> Value() == o.m && Orderly(Value()))
    {
      hide *;
      OutsideRepr();
      ghost var m := Value();
      ghost var chosen: map<nat, nat> := map[];
      NothingRun(m, program);
      var pc := 0;
      while pc < |program|
        invariant Valid() && fresh(Repr - old(Repr)) && Orderly(Value())
        invariant Reached(m, program, chosen, Value(), pc)
        decreases |program| - pc
      {
        var fetched := Fetch(program, pc);
        if fetched.None? {
          RunRejected(m, program, chosen, Value(), pc);
          return Rejected, FromMap(chosen);
        }
        var inst := fetched.value;
        ghost var before := Value();
        FetchedIsWellTyped(program, pc);
        OrderlyParts(before);
        StartsPositive(inst, program, pc);
        ghost var hint;
        var status;
        status, hint := ExecuteTurn(inst);
        TurnReaches(m, program, chosen, before, pc, inst, Value(), status, hint);
        chosen := Extended(chosen, before, hint);
        StopOnPanic(Value(), status);
        var stop := CheckStop(status);
        if stop.Some? {
          return stop.value, FromMap(chosen);
        }
        pc := pc + inst.size;
      }
      RunCompleted(m, program, chosen, Value(), pc);
      return Completed, FromMap(chosen);
    }

    // ------------------------------------------------------------------------- host calls

    /** `AllocateMemory`: on success the returned address is the one that tracking gained, with the
        size asked for; with searches to trust it is a new one. It also reports its tie-break. */
    method AllocateMemory(size: nat, kind: nat) returns (status: Status, addr: Address, ghost hint: nat)
      requires Valid() && Orderly(Value())
      modifies this, Repr
      ensures Valid() && fresh(Repr - old(Repr)) && (status != Panic ==> Orderly(Value()))
      ensures forall hints: nat -> nat | Hint(old(Value()), hints) == hint ::
        var e := HostAllocate(old(Value()), size, kind, hints);
        status == e.status && addr == e.addr && (status != Panic ==> Value() == e.m)
      ensures status == Fine ==>
        && addr in tracked && tracked == old(tracked)[addr := tracked[addr]]
        && tracked[addr].addr == addr && tracked[addr].size == size
      ensures status == Error ==> tracked == old(tracked) && addr == Address(0, 0, 0)
      ensures status == Fine && MachineInv(old(Value())) && size > 0 ==>
        addr !in old(tracked) && tracked.Keys == old(tracked).Keys + {addr}
    {
      hide Valid, Value, Allocate, OneEach, MachineInv;
      ghost var m := Value();
      addr := Address(0, 0, 0);
      var r;
      r, hint := Reserve(size, kind, 0);
      AllocateKeepsOneEach(m.alloc, size, kind, 0, hint);
      if r.Ok? {
        GrantedParts(m.alloc, size, kind, 0, hint);
        TrackAllocation(r.alloc);
        addr := r.alloc.addr;
        status := Fine;
        if MachineInv(m) && size > 0 { NewAddress(m, size, kind, 0, hint); }
      } else {
        status := if r.Crashed? then Panic else Error;
      }
    }

    method CacheAndCharge(addr: Address, data: seq<byte>) returns (status: Status)
      requires Valid()
      modifies this, Repr
      ensures Valid() && fresh(Repr - old(Repr))
      ensures Result(Value(), status) == HostCharge(Cached(old(Value()), true, addr, data), |data|)
    {
      hide Valid, Value, Charged;
      CachePut(addr, data);
      var ok := Consume(15 * |data|);
      status := if ok then Fine else Error;
    }

    /** The second attempt of a store, at the block just reserved for it. */
    method FillFreshBlock(alloc: Allocation, data: seq<byte>) returns (status: Status)
      requires Valid() && Plain(tracked) && !alloc.IsYPromoted() && alloc.addr.z < U16
      modifies this, Repr
      ensures Valid() && fresh(Repr - old(Repr))
      ensures Result(Value(), status) == StoreFresh(old(Value()), true, alloc, data)
    {
      hide Valid, Value, Store3D, HostCharge;
      OutsideRepr();
      TrackAllocation(alloc);
      ghost var stored;
      var access;
      stored, access := MemoryStore(alloc.addr, data);
      if access.Granted? {
        status := CacheAndCharge(alloc.addr, data);
      } else {
        status := if access.Faulted? then Panic else Error;
      }
    }

    /** `VM3D.Store3D`: a store to an unallocated address goes to a new block. */
    method HostStore(addr: Address, data: seq<byte>) returns (status: Status, ghost hint: nat)
      requires Valid() && Orderly(Value())
      modifies this, Repr
      ensures Valid() && fresh(Repr - old(Repr)) && (status != Panic ==> Orderly(Value()))
      ensures forall hints: nat -> nat | Hint(old(Value()), hints) == hint ::
        var e := V.HostStore(old(Value()), true, addr, data, hints); status == e.status && (status != Panic ==>
          Value() == e.m)
    {
      hide Valid, Value, Allocate, Store3D, Plain, OneEach, StoreFresh, HostCharge;
      OutsideRepr();
      hint := 0;
      ghost var stored;
      var access;
      stored, access := MemoryStore(addr, data);
      if access.Granted? {
        status := CacheAndCharge(addr, data);
      } else if access.Faulted? {
        status := Panic;
      } else if access.NotAllocated? {
        var r;
        r, hint := Reserve(|data| % U32, HEAP, 0);
        AllocateKeepsOneEach(old(Value()).alloc, |data| % U32, HEAP, 0, hint);
        if r.Ok? {
          status := FillFreshBlock(r.alloc, data);
        } else {
          status := if r.Crashed? then Panic else Error;
        }
      } else {
        status := Error;
      }
      HostStoreKeepsOrderly(old(Value()), addr, data, _ => hint);
    }

    lemma {:induction false} OutsideRepr()
      requires Valid()
      ensures this !in Repr
    {
    }
  }

  method Contains(alloc: Allocation, addr: Address) returns (r: bool)
    ensures r <==> InFragment(alloc, addr)
  {
    if !alloc.IsYPromoted() {
      return false;
    }
    for k := 0 to |alloc.fragments|
      invariant forall j | 0 <= j < k ::
        var f := alloc.fragments[j];
        !(addr.y == f.plane && f.start <= addr.z < (f.start + f.size) % U16)
    {
      var f := alloc.fragments[k];
      if addr.y == f.plane && f.start <= addr.z < (f.start + f.size) % U16 {
        return true;
      }
    }
    r := false;
  }
}
