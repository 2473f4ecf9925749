/** Allocating and freeing as the VM's memory sees it: a block appears, or one disappears, and no
    other block's bytes change. */
module BlockLife {
  import opened FirstFit
  import opened Model
  import opened Effects
  import opened OnePlane
  import opened Vm
  import opened Isolation

  /** `p` keeps the data, the used bytes and the keys of `q`. */
  ghost predicate Extends(p: Plane, q: Plane) {
    && p.data == q.data && |p.used| == |q.used|
    && (forall i | 0 <= i < |q.used| && q.used[i] :: p.used[i])
    && (forall z | z in q.allocs :: z in p.allocs)
  }

  lemma {:induction false} BlockSurvives(a: Allocator, b: Allocator, x: nat, p: Plane, addr: Address, alloc: Allocation)
    requires Flat(a) && Changed(a, b, x, p) && Extends(p, PlaneFor(a, x)) && IsBlock(a, addr, alloc)
    ensures IsBlock(b, addr, alloc) && PlaneOf(b, addr.x).data == PlaneOf(a, addr.x).data
  {
    if addr.x != x {
      assert b.regions[addr.x] == a.regions[addr.x];
    }
  }

  /** A region that gains use, keys or planes leaves tracked blocks and cache lines intact. */
  lemma {:induction false} GrowthKeeps(m: Machine, b: Allocator, x: nat, p: Plane)
    requires MachineInv(m) && Changed(m.alloc, b, x, p) && Extends(p, PlaneFor(m.alloc, x))
    ensures TrackedOk(b, m.tracked) && LinesOk(b, m.tracked, m.cache)
    ensures Blocks(m.(alloc := b)) == Blocks(m)
  {
    hide WellFormed, Changed, Extends, IsBlock, IsNull, Apart, EntriesTracked;
    ChangedParts(m.alloc, b, x, p);
    forall addr | addr in m.tracked ensures IsBlock(b, addr, m.tracked[addr]) || IsNull(addr, m.tracked[addr]) {
      if IsBlock(m.alloc, addr, m.tracked[addr]) {
        BlockSurvives(m.alloc, b, x, p, addr, m.tracked[addr]);
      }
    }
    forall addr | addr in m.cache ensures IsLine(b, m.tracked, addr, m.cache[addr]) {
      assert IsLine(m.alloc, m.tracked, addr, m.cache[addr]);
      BlockSurvives(m.alloc, b, x, p, addr, m.tracked[addr]);
    }
    var n := m.(alloc := b);
    forall addr | addr in Blocks(m) ensures Blocks(n)[addr] == Blocks(m)[addr] {
      BlockAt(m, addr);
      BlockAt(n, addr);
      BlockIsThere(m, addr);
      BlockSurvives(m.alloc, b, x, p, addr, m.tracked[addr]);
    }
    assert Blocks(n) == Blocks(m);
  }

  lemma {:induction false} BlockIsThere(m: Machine, addr: Address)
    requires Flat(m.alloc) && TrackedOk(m.alloc, m.tracked) && addr in Blocks(m)
    ensures IsBlock(m.alloc, addr, m.tracked[addr])
  {
  }

  lemma {:induction false} ChangedParts(a: Allocator, b: Allocator, x: nat, p: Plane)
    requires Changed(a, b, x, p)
    ensures Flat(b) && b.planeSize == a.planeSize
  {
    hide Flat;
  }

  // ------------------------------------------------------------------------ allocation

  /** The new plane of an allocation: used bytes, entry, everything else as before. */
  lemma {:induction false} OccupiedExtends(p: Plane, z: nat, alloc: Allocation)
    ensures Extends(Enter(Occupy(p, z, alloc.size), alloc), p)
    ensures Extends(Enter(p, alloc), p)
  {
  }

  ghost predicate FreshBlock(m: Machine, b: Allocator, alloc: Allocation) {
    var x, z, size := alloc.addr.x, alloc.addr.z, alloc.size;
    && MachineInv(m)
    && 0 < size && !alloc.IsYPromoted() && alloc.addr.y == 0 && x > 0
    && z + size <= m.alloc.planeSize && m.alloc.planeSize < U16
    && IsFirstFit(PlaneFor(m.alloc, x).used, size, z)
    && Changed(m.alloc, b, x, Enter(Occupy(PlaneFor(m.alloc, x), z, size), alloc))
  }

  /** The new block overlaps no tracked one, and its address is new. */
  lemma {:induction false} FreshIsApart(m: Machine, b: Allocator, alloc: Allocation, p: Address)
    requires FreshBlock(m, b, alloc) && p in m.tracked
    ensures p != alloc.addr && (m.tracked[p].size > 0 ==> Disjoint(p, m.tracked[p].size, alloc.addr, alloc.size))
  {
    hide Changed, LinesOk, EntriesTracked, Apart, Enter, Occupy;
    if IsBlock(m.alloc, p, m.tracked[p]) {
      var used := PlaneOf(m.alloc, p.x).used;
      if p.x == alloc.addr.x {
        var q := if p.z < alloc.addr.z then alloc.addr.z else p.z;
        assert p.z <= q < p.z + m.tracked[p].size ==> used[q];
        assert alloc.addr.z <= q < alloc.addr.z + alloc.size ==> !used[q];
      }
    }
  }

  /** A successful allocation adds one block at a new address, of the size asked for, and leaves
      every other block as it was. */
  lemma {:induction false} AllocateEffectOnBlocks(m: Machine, n: Machine, alloc: Allocation)
    requires FreshBlock(m, n.alloc, alloc)
    requires n.tracked == m.tracked[alloc.addr := alloc] && n.cache == m.cache
    ensures MachineInv(n) && alloc.addr !in m.tracked
    ensures alloc.addr in Blocks(n) && |Blocks(n)[alloc.addr]| == alloc.size
    ensures Blocks(n) == Blocks(m)[alloc.addr := Blocks(n)[alloc.addr]]
  {
    var a, b, x, z := m.alloc, n.alloc, alloc.addr.x, alloc.addr.z;
    var p := Enter(Occupy(PlaneFor(a, x), z, alloc.size), alloc);
    OccupiedExtends(PlaneFor(a, x), z, alloc);
    GrowthKeeps(m, b, x, p);
    if alloc.addr in m.tracked { FreshIsApart(m, b, alloc, alloc.addr); }
    NewBlockThere(m, b, alloc);
    NewTracked(m, n, alloc);
    hide *;
    ChangedParts(a, b, x, p);
    MakeInv(n);
    AddedBlock(m, n, alloc);
  }

  lemma {:induction false} NewBlockThere(m: Machine, b: Allocator, alloc: Allocation)
    requires FreshBlock(m, b, alloc)
    ensures Flat(b) && IsBlock(b, alloc.addr, alloc)
  {
    hide LinesOk, EntriesTracked, Apart, TrackedOk;
    var z, n := alloc.addr.z, alloc.size;
    assert (z + n) % U16 == z + n;
  }

  lemma {:induction false} NewTracked(m: Machine, n: Machine, alloc: Allocation)
    requires FreshBlock(m, n.alloc, alloc) && alloc.addr !in m.tracked
    requires n.tracked == m.tracked[alloc.addr := alloc] && n.cache == m.cache
    requires Flat(n.alloc) && TrackedOk(n.alloc, m.tracked) && LinesOk(n.alloc, m.tracked, m.cache)
    requires IsBlock(n.alloc, alloc.addr, alloc)
    ensures TrackedOk(n.alloc, n.tracked) && Apart(n.tracked)
    ensures EntriesTracked(n.alloc, n.tracked) && LinesOk(n.alloc, n.tracked, n.cache)
  {
    hide *;
    FreshBlockInv(m, n.alloc, alloc);
    forall p | p in m.tracked && m.tracked[p].size > 0
      ensures Disjoint(p, m.tracked[p].size, alloc.addr, alloc.size)
    {
      FreshIsApart(m, n.alloc, alloc, p);
    }
    ExtendApart(m.tracked, alloc);
    ExtendTracked(n.alloc, m.tracked, m.cache, alloc);
    NewEntries(m, n, alloc);
  }

  lemma {:induction false} ExtendApart(tracked: map<Address, Allocation>, alloc: Allocation)
    requires Apart(tracked)
    requires forall p | p in tracked && tracked[p].size > 0 :: Disjoint(p, tracked[p].size, alloc.addr, alloc.size)
    ensures Apart(tracked[alloc.addr := alloc])
  {
  }

  lemma {:induction false} ExtendTracked(b: Allocator, tracked: map<Address, Allocation>, cache: map<Address,
      seq<byte>>, alloc: Allocation)
    requires Flat(b) && TrackedOk(b, tracked) && LinesOk(b, tracked, cache)
    requires IsBlock(b, alloc.addr, alloc) && alloc.addr !in tracked
    ensures TrackedOk(b, tracked[alloc.addr := alloc]) && LinesOk(b, tracked[alloc.addr := alloc], cache)
  {
    hide IsBlock, Flat;
  }

  lemma {:induction false} FreshBlockInv(m: Machine, b: Allocator, alloc: Allocation)
    requires FreshBlock(m, b, alloc)
    ensures Apart(m.tracked) && Flat(m.alloc) && EntriesTracked(m.alloc, m.tracked)
  {
    hide Changed, Apart, Flat, EntriesTracked, TrackedOk, LinesOk;
  }

  lemma {:induction false} NewEntries(m: Machine, n: Machine, alloc: Allocation)
    requires FreshBlock(m, n.alloc, alloc) && n.tracked == m.tracked[alloc.addr := alloc] && Flat(n.alloc)
    ensures EntriesTracked(n.alloc, n.tracked)
  {
    hide Apart, TrackedOk, LinesOk, Mark, IsFirstFit;
    var a, b, x := m.alloc, n.alloc, alloc.addr.x;
    forall y, z | y in b.regions && z in PlaneOf(b, y).allocs
      ensures PlaneOf(b, y).allocs[z].size == 0
           || (Address(y, 0, z) in n.tracked && n.tracked[Address(y, 0, z)] == PlaneOf(b, y).allocs[z])
    {
      if y == x {
        if z != alloc.addr.z { assert x in a.regions && z in PlaneOf(a, x).allocs; }
      } else {
        assert y in a.regions;
      }
    }
  }

  lemma {:induction false} AddedBlock(m: Machine, n: Machine, alloc: Allocation)
    requires MachineInv(m) && MachineInv(n) && n.tracked == m.tracked[alloc.addr := alloc]
    requires alloc.size > 0 && alloc.addr !in m.tracked
    requires TrackedOk(n.alloc, m.tracked) && Blocks(m.(alloc := n.alloc)) == Blocks(m)
    ensures Blocks(n) == Blocks(m)[alloc.addr := Blocks(n)[alloc.addr]]
  {
    hide *;
    InvParts(m);
    InvParts(n);
    SameBlocks(m, n);
    assert Blocks(n) == Blocks(m)[alloc.addr := Blocks(n)[alloc.addr]];
  }

  /** Blocks that are tracked alike in two machines with the same planes have the same bytes. */
  lemma {:induction false} SameBlocks(m: Machine, n: Machine)
    requires MachineInv(m) && MachineInv(n)
    requires TrackedOk(n.alloc, m.tracked) && Blocks(m.(alloc := n.alloc)) == Blocks(m)
    requires forall p | p in Blocks(m) :: p in n.tracked && n.tracked[p] == m.tracked[p]
    ensures forall p | p in Blocks(m) :: p in Blocks(n) && Blocks(n)[p] == Blocks(m)[p]
  {
    hide *;
    InvParts(m);
    InvParts(n);
    var mid := m.(alloc := n.alloc);
    forall p | p in Blocks(m) ensures p in Blocks(n) && Blocks(n)[p] == Blocks(m)[p] {
      assert p in Blocks(mid) && p in Blocks(n);
      BlockAt(mid, p);
      BlockAt(n, p);
    }
  }

  /** A handle for no bytes adds no block. */
  lemma {:induction false} NullEffectOnBlocks(m: Machine, n: Machine, alloc: Allocation, x: nat)
    requires MachineInv(m) && IsNull(alloc.addr, alloc) && x in m.alloc.regions
    requires Changed(m.alloc, n.alloc, x, Enter(PlaneOf(m.alloc, x), alloc))
    requires n.tracked == m.tracked[alloc.addr := alloc] && n.cache == m.cache
    ensures MachineInv(n) && Blocks(n) == Blocks(m)
  {
    hide *;
    var a, b := m.alloc, n.alloc;
    InvParts(m);
    PlaneForKnown(a, x);
    var p := Enter(PlaneOf(a, x), alloc);
    OccupiedExtends(PlaneOf(a, x), 0, alloc);
    GrowthKeeps(m, b, x, p);
    NullUntracked(m, alloc);
    ChangedParts(a, b, x, p);
    NullEntries(m, n, alloc, x);
    NullTracked(m, n, alloc);
    MakeInv(n);
    NullSameBlocks(m, n, alloc);
  }

  lemma {:induction false} NullSameBlocks(m: Machine, n: Machine, alloc: Allocation)
    requires MachineInv(m) && MachineInv(n) && IsNull(alloc.addr, alloc) && alloc.addr !in Blocks(m)
    requires TrackedOk(n.alloc, m.tracked) && Blocks(m.(alloc := n.alloc)) == Blocks(m)
    requires n.tracked == m.tracked[alloc.addr := alloc]
    ensures Blocks(n) == Blocks(m)
  {
    hide *;
    InvParts(m);
    InvParts(n);
    NullSize(alloc);
    SameBlocks(m, n);
    assert Blocks(n).Keys == Blocks(m).Keys;
  }

  lemma {:induction false} PlaneForKnown(a: Allocator, x: nat)
    requires Flat(a) && x in a.regions
    ensures |a.regions[x].planes| == 1 && PlaneFor(a, x) == PlaneOf(a, x)
  {
  }

  lemma {:induction false} NullSize(alloc: Allocation)
    requires IsNull(alloc.addr, alloc)
    ensures alloc.size == 0
  {
  }

  lemma {:induction false} NullTracked(m: Machine, n: Machine, alloc: Allocation)
    requires Flat(n.alloc) && TrackedOk(n.alloc, m.tracked) && Apart(m.tracked) && LinesOk(n.alloc, m.tracked, m.cache)
    requires IsNull(alloc.addr, alloc) && alloc.addr !in m.cache
    requires n.tracked == m.tracked[alloc.addr := alloc] && n.cache == m.cache
    ensures TrackedOk(n.alloc, n.tracked) && Apart(n.tracked) && LinesOk(n.alloc, n.tracked, n.cache)
  {
    hide Flat, IsBlock, Disjoint;
  }

  /** The zero address is never a block: regions are numbered from 2 on. */
  lemma {:induction false} NullUntracked(m: Machine, alloc: Allocation)
    requires MachineInv(m) && IsNull(alloc.addr, alloc)
    ensures alloc.addr !in Blocks(m) && alloc.addr !in m.cache
  {
  }

  lemma {:induction false} NullEntries(m: Machine, n: Machine, alloc: Allocation, x: nat)
    requires MachineInv(m) && IsNull(alloc.addr, alloc) && x in m.alloc.regions && Flat(n.alloc)
    requires Changed(m.alloc, n.alloc, x, Enter(PlaneOf(m.alloc, x), alloc))
    requires n.tracked == m.tracked[alloc.addr := alloc]
    ensures EntriesTracked(n.alloc, n.tracked)
  {
    hide Apart, TrackedOk, LinesOk;
    var a, b := m.alloc, n.alloc;
    forall y, z | y in b.regions && z in PlaneOf(b, y).allocs
      ensures PlaneOf(b, y).allocs[z].size == 0
           || (Address(y, 0, z) in n.tracked && n.tracked[Address(y, 0, z)] == PlaneOf(b, y).allocs[z])
    {
      assert y in a.regions && y > 0;
      if y != x || z != 0 { assert z in PlaneOf(a, y).allocs; }
    }
  }

  /** A refused allocation only adds an empty region. */
  lemma {:induction false} RefusalKeepsBlocks(m: Machine, n: Machine)
    requires MachineInv(m) && Changed(m.alloc, n.alloc, m.alloc.nextRegion + 1, FreshPlane(0, m.alloc.planeSize))
    requires n.tracked == m.tracked && n.cache == m.cache
    ensures MachineInv(n) && Blocks(n) == Blocks(m)
  {
    var a, b, x := m.alloc, n.alloc, m.alloc.nextRegion + 1;
    assert x !in a.regions;
    GrowthKeeps(m, b, x, FreshPlane(0, a.planeSize));
    forall y, z | y in b.regions && z in PlaneOf(b, y).allocs
      ensures PlaneOf(b, y).allocs[z].size == 0
           || (Address(y, 0, z) in n.tracked && n.tracked[Address(y, 0, z)] == PlaneOf(b, y).allocs[z])
    {
      assert y in a.regions && z in PlaneOf(a, y).allocs;
    }
  }

  // --------------------------------------------------------------------------- freeing

  /** Freeing the block at `addr` clears no used byte outside it. */
  lemma {:induction false} FreedPlane(m: Machine, addr: Address)
    requires MachineInv(m) && addr in Blocks(m)
    ensures IsBlock(m.alloc, addr, m.tracked[addr])
    ensures var p, n := PlaneOf(m.alloc, addr.x), m.tracked[addr].size;
      var q := PlaneFree(p, addr.z);
      && q.Some? && q.value.data == p.data && q.value.allocs == p.allocs - {addr.z} && |q.value.used| == |p.used|
      && (forall i | 0 <= i < |p.used| && p.used[i] && !(addr.z <= i < addr.z + n) :: q.value.used[i])
  {
    hide *;
    InvParts(m);
    BlockAt(m, addr);
    BlockIsThere(m, addr);
    BlockEntry(m, addr);
    FreeWithin(PlaneOf(m.alloc, addr.x), addr.z, m.tracked[addr].size);
  }

  /** The entry filed at a block's start is that block's or an empty handle. */
  lemma {:induction false} BlockEntry(m: Machine, addr: Address)
    requires MachineInv(m) && addr in Blocks(m)
    ensures addr.x in m.alloc.regions && |m.alloc.regions[addr.x].planes| == 1
    ensures var p := PlaneOf(m.alloc, addr.x);
      && addr.z in p.allocs && p.allocs[addr.z].size <= m.tracked[addr].size
      && addr.z + m.tracked[addr].size <= |p.used| < U16
  {
    hide Apart, LinesOk;
    BlockIsThere(m, addr);
    var e := PlaneOf(m.alloc, addr.x).allocs[addr.z];
    assert e.size == 0 || m.tracked[Address(addr.x, 0, addr.z)] == e;
  }

  lemma {:induction false} FreeWithin(p: Plane, z: nat, n: nat)
    requires z in p.allocs && p.allocs[z].size <= n && z + n <= |p.used| < U16
    ensures var q := PlaneFree(p, z);
      && q.Some? && q.value.data == p.data && q.value.allocs == p.allocs - {z} && |q.value.used| == |p.used|
      && (forall i | 0 <= i < |p.used| && p.used[i] && !(z <= i < z + n) :: q.value.used[i])
  {
    var e := p.allocs[z];
    assert e.size % U16 == e.size && (z + e.size) % U16 == z + e.size;
  }

  lemma {:induction false} ChangedKeys(a: Allocator, b: Allocator, x: nat, p: Plane)
    requires Changed(a, b, x, p)
    ensures b.regions.Keys == a.regions.Keys + {x} && b.planeSize == a.planeSize && Flat(b)
  {
    hide Flat;
  }

  lemma {:induction false} ChangedPlanes(a: Allocator, b: Allocator, x: nat, p: Plane)
    requires Flat(a) && Changed(a, b, x, p)
    ensures forall y | y in b.regions ::
      && |b.regions[y].planes| == 1 && (y == x || (y in a.regions && |a.regions[y].planes| == 1))
      && PlaneOf(b, y) == if y == x then p else PlaneOf(a, y)
  {
    hide WellFormed;
  }

  /** Every other block outlives the freeing of one. */
  lemma {:induction false} OtherBlockSurvives(m: Machine, b: Allocator, addr: Address, p: Address)
    requires MachineInv(m) && addr in Blocks(m) && p in Blocks(m) && p != addr
    requires addr.x in m.alloc.regions && Changed(m.alloc, b, addr.x, PlaneFree(PlaneOf(m.alloc, addr.x), addr.z).value)
    ensures IsBlock(b, p, m.tracked[p]) && PlaneOf(b, p.x).data == PlaneOf(m.alloc, p.x).data
  {
    hide PlaneFree, TrackedOk, EntriesTracked, LinesOk, Apart, Changed, Blocks;
    FreedPlane(m, addr);
    BlockIsThere(m, p);
    BlocksApart(m, p, addr);
    ChangedPlanes(m.alloc, b, addr.x, PlaneFree(PlaneOf(m.alloc, addr.x), addr.z).value);
    ChangedKeys(m.alloc, b, addr.x, PlaneFree(PlaneOf(m.alloc, addr.x), addr.z).value);
  }

  lemma {:induction false} FreedEntries(m: Machine, b: Allocator, addr: Address)
    requires MachineInv(m) && addr in Blocks(m) && Flat(b)
    requires addr.x in m.alloc.regions && Changed(m.alloc, b, addr.x, PlaneFree(PlaneOf(m.alloc, addr.x), addr.z).value)
    ensures EntriesTracked(b, m.tracked - {addr})
  {
    hide PlaneFree, WellFormed, TrackedOk, LinesOk, Apart, Changed, IsBlock;
    FreedPlane(m, addr);
    var a := m.alloc;
    ChangedPlanes(a, b, addr.x, PlaneFree(PlaneOf(a, addr.x), addr.z).value);
    BlockAt(m, addr);
    hide Flat, MachineInv;
    assert EntriesTracked(a, m.tracked) by { InvParts(m); }
    forall y, z | y in b.regions && z in PlaneOf(b, y).allocs
      ensures PlaneOf(b, y).allocs[z].size == 0
           || (Address(y, 0, z) in m.tracked - {addr} && m.tracked[Address(y, 0, z)] == PlaneOf(b, y).allocs[z])
    {
      assert y in a.regions && z in PlaneOf(a, y).allocs;
    }
  }

  /** Freeing a block removes it, and nothing else, from memory and cache. */
  lemma {:induction false} FreeEffectOnBlocks(m: Machine, n: Machine, addr: Address)
    requires MachineInv(m) && addr in Blocks(m) && addr.x in m.alloc.regions
    requires Changed(m.alloc, n.alloc, addr.x, PlaneFree(PlaneOf(m.alloc, addr.x), addr.z).value)
    requires n.tracked == m.tracked - {addr} && n.cache == m.cache - {addr}
    ensures MachineInv(n) && Blocks(n) == Blocks(m) - {addr}
  {
    hide *;
    InvParts(m);
    BlockAt(m, addr);
    FreedPlane(m, addr);
    ChangedParts(m.alloc, n.alloc, addr.x, PlaneFree(PlaneOf(m.alloc, addr.x), addr.z).value);
    FreedEntries(m, n.alloc, addr);
    forall p | p in n.tracked ensures IsBlock(n.alloc, p, n.tracked[p]) || IsNull(p, n.tracked[p]) {
      if p in Blocks(m) {
        OtherBlockSurvives(m, n.alloc, addr, p);
      } else {
        NotBlockIsNull(m, p);
      }
    }
    MakeTracked(n.alloc, n.tracked);
    FreedLines(m, n, addr);
    FewerApart(m.tracked, addr);
    MakeInv(n);
    forall p | p in Blocks(n) ensures p in Blocks(m) && Blocks(n)[p] == Blocks(m)[p] {
      assert p in Blocks(m) && p != addr;
      OtherBlockSurvives(m, n.alloc, addr, p);
      BlockAt(m, p);
      BlockAt(n, p);
    }
    assert Blocks(n) == Blocks(m) - {addr};
  }

  lemma {:induction false} NotBlockIsNull(m: Machine, p: Address)
    requires MachineInv(m) && p in m.tracked && p !in Blocks(m)
    ensures IsNull(p, m.tracked[p])
  {
  }

  lemma {:induction false} MakeTracked(b: Allocator, tracked: map<Address, Allocation>)
    requires Flat(b) && forall p | p in tracked :: IsBlock(b, p, tracked[p]) || IsNull(p, tracked[p])
    ensures TrackedOk(b, tracked)
  {
  }

  lemma {:induction false} FewerApart(tracked: map<Address, Allocation>, addr: Address)
    requires Apart(tracked)
    ensures Apart(tracked - {addr})
  {
  }

  lemma {:induction false} FreedLines(m: Machine, n: Machine, addr: Address)
    requires MachineInv(m) && addr in Blocks(m) && addr.x in m.alloc.regions
    requires Changed(m.alloc, n.alloc, addr.x, PlaneFree(PlaneOf(m.alloc, addr.x), addr.z).value)
    requires n.tracked == m.tracked - {addr} && n.cache == m.cache - {addr}
    requires Flat(n.alloc) && TrackedOk(n.alloc, n.tracked)
    ensures LinesOk(n.alloc, n.tracked, n.cache)
  {
    hide *;
    InvParts(m);
    forall p | p in n.cache ensures IsLine(n.alloc, n.tracked, p, n.cache[p]) {
      CachedLine(m, p);
      LineParts(m, p, m.cache[p]);
      OtherBlockSurvives(m, n.alloc, addr, p);
      BlockAt(n, p);
      MakeLine(n.alloc, n.tracked, p, n.cache[p]);
    }
    MakeLines(n.alloc, n.tracked, n.cache);
  }
}
