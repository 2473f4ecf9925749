/** What every VM state satisfies: tracked blocks lie in used bytes and apart from each other,
    and every cache line is a prefix of the bytes of a tracked block. */
module Isolation {
  import opened FirstFit
  import opened Model
  import opened OnePlane
  import opened Vm

  /** The handle of a request for no bytes. */
  ghost predicate IsNull(addr: Address, alloc: Allocation) {
    addr == Address(0, 0, 0) && alloc.addr == addr && alloc.size == 0 && alloc.fragments == []
  }

  /** A block: its bytes are used and its start is filed in its plane. */
  ghost predicate IsBlock(a: Allocator, addr: Address, alloc: Allocation)
    requires Flat(a)
  {
    && alloc.addr == addr && addr.x in a.regions && addr.y == 0
    && 0 < alloc.size && addr.z + alloc.size <= a.planeSize && !alloc.IsYPromoted()
    && addr.z in PlaneOf(a, addr.x).allocs
    && forall q | addr.z <= q < addr.z + alloc.size :: PlaneOf(a, addr.x).used[q]
  }

  ghost predicate TrackedOk(a: Allocator, tracked: map<Address, Allocation>)
    requires Flat(a)
  {
    forall addr | addr in tracked :: IsBlock(a, addr, tracked[addr]) || IsNull(addr, tracked[addr])
  }

  ghost predicate Disjoint(addr: Address, n: nat, addr': Address, n': nat) {
    addr.x != addr'.x || addr.z + n <= addr'.z || addr'.z + n' <= addr.z
  }

  /** Tracked blocks do not overlap. */
  ghost predicate Apart(tracked: map<Address, Allocation>) {
    forall p, q | p in tracked && q in tracked && p != q && tracked[p].size > 0 && tracked[q].size > 0 ::
      Disjoint(p, tracked[p].size, q, tracked[q].size)
  }

  /** Plane maps hold tracked blocks and handles of empty requests, nothing else. */
  ghost predicate EntriesTracked(a: Allocator, tracked: map<Address, Allocation>)
    requires Flat(a)
  {
    forall x, z | x in a.regions && z in PlaneOf(a, x).allocs ::
      || PlaneOf(a, x).allocs[z].size == 0
      || (Address(x, 0, z) in tracked && tracked[Address(x, 0, z)] == PlaneOf(a, x).allocs[z])
  }

  ghost predicate IsLine(a: Allocator, tracked: map<Address, Allocation>, addr: Address, line: seq<byte>)
    requires Flat(a)
  {
    && addr in tracked && IsBlock(a, addr, tracked[addr])
    && |line| <= tracked[addr].size
    && line == PlaneOf(a, addr.x).data[addr.z..addr.z + |line|]
  }

  ghost predicate LinesOk(a: Allocator, tracked: map<Address, Allocation>, cache: map<Address, seq<byte>>)
    requires Flat(a)
  {
    forall addr | addr in cache :: IsLine(a, tracked, addr, cache[addr])
  }

  ghost predicate MachineInv(m: Machine) {
    && Flat(m.alloc)
    && TrackedOk(m.alloc, m.tracked)
    && Apart(m.tracked)
    && EntriesTracked(m.alloc, m.tracked)
    && LinesOk(m.alloc, m.tracked, m.cache)
  }

  // ------------------------------------------------------------------- memory accesses

  /** In the mixed 16- and 32-bit arithmetic of the access checks nothing slips through: a 32-bit
      access size passes both exactly when it is at most the block's size. */
  lemma {:induction false} MixedWidthExact(z: nat, blockSize: nat, planeSize: nat, size: nat)
    requires 0 < blockSize && z + blockSize <= planeSize < U16 && size < U32
    ensures (size % U16 <= blockSize && (z + size) % U32 <= planeSize) <==> size <= blockSize
    ensures size <= blockSize ==> (z + size) % U32 == z + size
  {
    if U16 <= size && U32 <= z + size {
      assert size % U16 == size - (U32 - U16) by {
        assert size - (U32 - U16) < U16 && U32 - U16 == U16 * (U16 - 1);
      }
    }
  }

  lemma {:induction false} LookupIsExact(m: Machine, addr: Address)
    requires MachineInv(m)
    ensures Lookup(m.tracked, addr) == if addr in m.tracked then Some(m.tracked[addr]) else None
  {
  }

  /** An access is granted exactly to a tracked block and within its size; none panics. */
  lemma {:induction false} CheckIsExact(m: Machine, addr: Address, size: nat)
    requires MachineInv(m) && size < U32
    ensures var c := Check(m.alloc, m.tracked, addr, size);
      && (addr !in m.tracked <==> c == NotAllocated)
      && (c.Granted? <==> addr in m.tracked && 0 < m.tracked[addr].size && size <= m.tracked[addr].size)
      && (c.Granted? ==> c == Granted(addr.x, 0) && (addr.z + size) % U32 == addr.z + size)
      && c != Faulted
  {
    hide Apart, EntriesTracked, LinesOk, Lookup;
    LookupIsExact(m, addr);
    if addr in m.tracked {
      var alloc := m.tracked[addr];
      if IsNull(addr, alloc) {
        assert 0 !in m.alloc.regions;
      } else {
        assert IsBlock(m.alloc, addr, alloc);
        MixedWidthExact(addr.z, alloc.size, m.alloc.planeSize, size);
        var planes := m.alloc.regions[addr.x].planes;
        assert FindPlane(planes, 0) == 0;
        assert (addr.z + U16 - alloc.addr.z) % U16 == 0;
      }
    }
  }

  // ------------------------------------------------------------------ the flat memory

  /** The bytes of every live block. */
  ghost function Blocks(m: Machine): (f: map<Address, seq<byte>>)
    requires Flat(m.alloc) && TrackedOk(m.alloc, m.tracked)
    ensures forall addr :: addr in f <==> addr in m.tracked && m.tracked[addr].size > 0
    ensures forall addr | addr in f :: |f[addr]| == m.tracked[addr].size
  {
    map addr | addr in m.tracked && m.tracked[addr].size > 0 ::
      PlaneOf(m.alloc, addr.x).data[addr.z..addr.z + m.tracked[addr].size]
  }

  /** Loads return the block's own bytes, exactly when block and size allow. */
  lemma {:induction false} LoadIsFlat(m: Machine, addr: Address, size: nat)
    requires MachineInv(m) && size < U32
    ensures Load3D(m.alloc, m.tracked, addr, size)
         == if addr in Blocks(m) && size <= |Blocks(m)[addr]| then Loaded(Blocks(m)[addr][..size]) else LoadError
  {
    hide *;
    InvParts(m);
    CheckIsExact(m, addr, size);
    if addr in Blocks(m) && size <= |Blocks(m)[addr]| {
      BlockAt(m, addr);
      var data, n := PlaneOf(m.alloc, addr.x).data, m.tracked[addr].size;
      assert data[addr.z..addr.z + n][..size] == data[addr.z..addr.z + size];
      LoadGranted(m, addr, size);
    } else {
      LoadRefused(m, addr, size);
    }
  }

  lemma {:induction false} LoadGranted(m: Machine, addr: Address, size: nat)
    requires Check(m.alloc, m.tracked, addr, size) == Granted(addr.x, 0) && (addr.z + size) % U32 == addr.z + size
    requires addr.x in m.alloc.regions && |m.alloc.regions[addr.x].planes| == 1
    ensures addr.z + size <= |PlaneOf(m.alloc, addr.x).data|
    ensures Load3D(m.alloc, m.tracked, addr, size) == Loaded(PlaneOf(m.alloc, addr.x).data[addr.z..addr.z + size])
  {
    hide Check;
  }

  lemma {:induction false} LoadRefused(m: Machine, addr: Address, size: nat)
    requires var c := Check(m.alloc, m.tracked, addr, size); !c.Granted? && c != Faulted
    ensures Load3D(m.alloc, m.tracked, addr, size) == LoadError
  {
    hide Check;
  }

  /** A line that repeats the front of a block may be cached. */
  lemma {:induction false} NewLine(m: Machine, addr: Address, line: seq<byte>)
    requires MachineInv(m) && addr in Blocks(m) && line <= Blocks(m)[addr]
    ensures MachineInv(m.(cache := m.cache[addr := line]))
  {
    hide *;
    InvParts(m);
    BlockAt(m, addr);
    var data, n := PlaneOf(m.alloc, addr.x).data, m.tracked[addr].size;
    assert line == data[addr.z..addr.z + n][..|line|] == data[addr.z..addr.z + |line|];
    MakeLine(m.alloc, m.tracked, addr, line);
    var cache := m.cache[addr := line];
    forall p | p in cache ensures IsLine(m.alloc, m.tracked, p, cache[p]) {
      if p != addr { CachedLine(m, p); }
    }
    MakeLines(m.alloc, m.tracked, cache);
    MakeInv(m.(cache := cache));
  }

  // ----------------------------------------------------------------------------- stores

  function Patched(block: seq<byte>, data: seq<byte>): seq<byte>
    requires |data| <= |block|
  {
    data + block[|data|..]
  }

  lemma {:induction false} StoreIsGranted(m: Machine, addr: Address, data: seq<byte>)
    requires MachineInv(m) && |data| < U32
    ensures Store3D(m.alloc, m.tracked, addr, data)
         == if addr in Blocks(m) && |data| <= |Blocks(m)[addr]|
            then Stored(WriteAt(m.alloc, addr.x, 0, addr.z, data))
            else if addr !in m.tracked then StoreUnallocated else StoreError
  {
    CheckIsExact(m, addr, |data|);
    assert |data| % U32 == |data| && data[..|data|] == data;
  }

  /** Writing changes data bytes only. */
  lemma {:induction false} WriteKeepsUse(a: Allocator, x: nat, z: nat, data: seq<byte>)
    requires Flat(a) && x in a.regions && z + |data| <= a.planeSize
    ensures var b := WriteAt(a, x, 0, z, data); Written(a, b, Address(x, 0, z), data)
  {
  }

  lemma {:induction false} OverwriteSlices(old_: seq<byte>, z: nat, data: seq<byte>, p: nat, n: nat)
    requires z + |data| <= |old_| && p + n <= |old_|
    ensures p + n <= z || z + |data| <= p ==> Overwrite(old_, z, data)[p..p + n] == old_[p..p + n]
    ensures p == z && |data| <= n ==> Overwrite(old_, z, data)[p..p + n] == Patched(old_[p..p + n], data)
  {
    hide Overwrite;
    var r := Overwrite(old_, z, data);
    OverwriteBytes(old_, z, data);
    if p + n <= z || z + |data| <= p {
      assert r[p..p + n] == old_[p..p + n];
    }
    if p == z && |data| <= n {
      assert r[p..p + n] == Patched(old_[p..p + n], data);
    }
  }

  lemma {:induction false} OverwriteBytes(old_: seq<byte>, z: nat, data: seq<byte>)
    requires z + |data| <= |old_|
    ensures forall i | 0 <= i < |old_| ::
      Overwrite(old_, z, data)[i] == if z <= i < z + |data| then data[i - z] else old_[i]
  {
  }

  /** A store within a block patches that block's bytes and no other's. */
  lemma {:induction false} StoreEffect(m: Machine, addr: Address, data: seq<byte>)
    requires MachineInv(m) && addr in Blocks(m) && |data| <= |Blocks(m)[addr]|
    ensures var n := m.(alloc := WriteAt(m.alloc, addr.x, 0, addr.z, data), cache := m.cache[addr := data]);
      MachineInv(n) && Blocks(n) == Blocks(m)[addr := Patched(Blocks(m)[addr], data)]
  {
    hide *;
    InvParts(m);
    BlockAt(m, addr);
    var a, x, z := m.alloc, addr.x, addr.z;
    WriteKeepsUse(a, x, z, data);
    assert addr == Address(x, 0, z);
    var b := WriteAt(a, x, 0, z, data);
    var n := m.(alloc := b, cache := m.cache[addr := data]);
    WrittenConfig(a, b, addr, data);
    StoreKeepsTracked(m, b, addr, data);
    assert LinesOk(b, n.tracked, n.cache) by {
      forall p | p in n.cache ensures IsLine(b, n.tracked, p, n.cache[p]) {
        if p != addr { CachedLine(m, p); }
        StoreKeepsLine(m, b, addr, data, p, n.cache[p]);
      }
      MakeLines(b, n.tracked, n.cache);
    }
    MakeInv(n);
    forall p | p in Blocks(m)
      ensures Blocks(n)[p] == if p == addr then Patched(Blocks(m)[addr], data) else Blocks(m)[p]
    {
      StoreKeepsBlock(m, n, addr, data, p);
    }
    assert Blocks(n) == Blocks(m)[addr := Patched(Blocks(m)[addr], data)];
  }

  lemma {:induction false} CachedLine(m: Machine, p: Address)
    requires MachineInv(m) && p in m.cache
    ensures Flat(m.alloc) && IsLine(m.alloc, m.tracked, p, m.cache[p])
  {
    hide IsLine, Flat, TrackedOk, Apart, EntriesTracked;
  }

  lemma {:induction false} MakeLines(b: Allocator, tracked: map<Address, Allocation>, cache: map<Address, seq<byte>>)
    requires Flat(b) && forall p | p in cache :: IsLine(b, tracked, p, cache[p])
    ensures LinesOk(b, tracked, cache)
  {
    hide IsLine, Flat;
  }

  lemma {:induction false} MakeInv(n: Machine)
    requires Flat(n.alloc) && TrackedOk(n.alloc, n.tracked) && Apart(n.tracked)
    requires EntriesTracked(n.alloc, n.tracked) && LinesOk(n.alloc, n.tracked, n.cache)
    ensures MachineInv(n)
  {
    hide Flat, TrackedOk, Apart, EntriesTracked, LinesOk;
  }

  /** `b` is `a` with `data` written at `addr`. */
  ghost predicate Written(a: Allocator, b: Allocator, addr: Address, data: seq<byte>) {
    && Flat(a) && Flat(b) && b.planeSize == a.planeSize && b.regions.Keys == a.regions.Keys
    && addr.x in a.regions && addr.z + |data| <= a.planeSize
    && (forall y | y in a.regions ::
          PlaneOf(b, y).used == PlaneOf(a, y).used && PlaneOf(b, y).allocs == PlaneOf(a, y).allocs)
    && (forall y | y in a.regions && y != addr.x :: PlaneOf(b, y) == PlaneOf(a, y))
    && PlaneOf(b, addr.x).data == Overwrite(PlaneOf(a, addr.x).data, addr.z, data)
  }

  lemma {:induction false} SliceElsewhere(a: Allocator, b: Allocator, addr: Address, data: seq<byte>, p: Address,
      k: nat)
    requires Written(a, b, addr, data) && p.x in a.regions && p.z + k <= a.planeSize
    requires Disjoint(p, k, addr, |data|)
    ensures PlaneOf(b, p.x).data[p.z..p.z + k] == PlaneOf(a, p.x).data[p.z..p.z + k]
  {
    hide Overwrite;
    if p.x == addr.x {
      OverwriteSlices(PlaneOf(a, addr.x).data, addr.z, data, p.z, k);
    }
  }

  lemma {:induction false} SliceHere(a: Allocator, b: Allocator, addr: Address, data: seq<byte>, k: nat)
    requires Written(a, b, addr, data) && |data| <= k && addr.z + k <= a.planeSize
    ensures PlaneOf(b, addr.x).data[addr.z..addr.z + k] == Patched(PlaneOf(a, addr.x).data[addr.z..addr.z + k], data)
  {
    hide Overwrite;
    OverwriteSlices(PlaneOf(a, addr.x).data, addr.z, data, addr.z, k);
  }

  lemma {:induction false} BlocksApart(m: Machine, p: Address, q: Address)
    requires MachineInv(m) && p in Blocks(m) && q in Blocks(m) && p != q
    ensures Disjoint(p, m.tracked[p].size, q, m.tracked[q].size)
  {
  }

  lemma {:induction false} BlockAt(m: Machine, p: Address)
    requires Flat(m.alloc) && TrackedOk(m.alloc, m.tracked) && p in Blocks(m)
    ensures p.x in m.alloc.regions && p.y == 0 && p.z + m.tracked[p].size <= m.alloc.planeSize
    ensures |m.alloc.regions[p.x].planes| == 1 && |PlaneOf(m.alloc, p.x).data| == m.alloc.planeSize
    ensures |m.alloc.regions[p.x].planes[0].data| == m.alloc.planeSize
    ensures Blocks(m)[p] == PlaneOf(m.alloc, p.x).data[p.z..p.z + m.tracked[p].size]
  {
    assert !IsNull(p, m.tracked[p]);
  }

  lemma {:induction false} StoreKeepsBlock(m: Machine, n: Machine, addr: Address, data: seq<byte>, p: Address)
    requires MachineInv(m) && Written(m.alloc, n.alloc, addr, data) && n.tracked == m.tracked
    requires TrackedOk(n.alloc, n.tracked)
    requires addr in Blocks(m) && |data| <= |Blocks(m)[addr]| && p in Blocks(m)
    ensures Blocks(n)[p] == if p == addr then Patched(Blocks(m)[addr], data) else Blocks(m)[p]
  {
    hide *;
    InvParts(m);
    WrittenConfig(m.alloc, n.alloc, addr, data);
    BlockAt(m, p);
    assert p in Blocks(n);
    BlockAt(n, p);
    BlockAt(m, addr);
    if p == addr {
      SliceHere(m.alloc, n.alloc, addr, data, m.tracked[p].size);
    } else {
      BlocksApart(m, p, addr);
      CloserApart(p, m.tracked[p].size, m.tracked[p].size, addr, m.tracked[addr].size, |data|);
      SliceElsewhere(m.alloc, n.alloc, addr, data, p, m.tracked[p].size);
    }
  }

  lemma {:induction false} CloserApart(p: Address, n: nat, n': nat, q: Address, k: nat, k': nat)
    requires Disjoint(p, n, q, k) && n' <= n && k' <= k
    ensures Disjoint(p, n', q, k')
  {
  }

  lemma {:induction false} WrittenConfig(a: Allocator, b: Allocator, addr: Address, data: seq<byte>)
    requires Written(a, b, addr, data)
    ensures Flat(a) && Flat(b) && b.planeSize == a.planeSize && b.regions.Keys == a.regions.Keys
    ensures forall y | y in b.regions :: |b.regions[y].planes| == 1 && |PlaneOf(b, y).data| == b.planeSize
  {
  }

  lemma {:induction false} StoreKeepsLine(m: Machine, b: Allocator, addr: Address, data: seq<byte>, p: Address,
      line: seq<byte>)
    requires MachineInv(m) && Written(m.alloc, b, addr, data) && TrackedOk(b, m.tracked)
    requires addr in Blocks(m) && |data| <= |Blocks(m)[addr]|
    requires if p == addr then line == data else IsLine(m.alloc, m.tracked, p, line)
    ensures IsLine(b, m.tracked, p, line)
  {
    hide *;
    InvParts(m);
    WrittenConfig(m.alloc, b, addr, data);
    if p != addr {
      LineParts(m, p, line);
    }
    BlockAt(m, p);
    BlockAt(m, addr);
    if p == addr {
      SliceHere(m.alloc, b, addr, data, |data|);
      PatchAll(PlaneOf(m.alloc, addr.x).data[p.z..p.z + |data|], data);
    } else {
      BlocksApart(m, p, addr);
      CloserApart(p, m.tracked[p].size, |line|, addr, m.tracked[addr].size, |data|);
      SliceElsewhere(m.alloc, b, addr, data, p, |line|);
    }
    MakeLine(b, m.tracked, p, line);
  }

  lemma {:induction false} PatchAll(block: seq<byte>, data: seq<byte>)
    requires |block| == |data|
    ensures Patched(block, data) == data
  {
  }

  lemma {:induction false} LineParts(m: Machine, p: Address, line: seq<byte>)
    requires Flat(m.alloc) && TrackedOk(m.alloc, m.tracked) && IsLine(m.alloc, m.tracked, p, line)
    ensures p in Blocks(m) && |line| <= m.tracked[p].size && p.x in m.alloc.regions
      && |m.alloc.regions[p.x].planes| == 1
    ensures p.z + |line| <= |PlaneOf(m.alloc, p.x).data| && line == PlaneOf(m.alloc, p.x).data[p.z..p.z + |line|]
  {
  }

  lemma {:induction false} MakeLine(b: Allocator, tracked: map<Address, Allocation>, p: Address, line: seq<byte>)
    requires Flat(b) && TrackedOk(b, tracked) && p in tracked && 0 < tracked[p].size && |line| <= tracked[p].size
    requires p.x in b.regions && |b.regions[p.x].planes| == 1 && p.z + |line| <= |PlaneOf(b, p.x).data|
    requires line == PlaneOf(b, p.x).data[p.z..p.z + |line|]
    ensures IsLine(b, tracked, p, line)
  {
    assert !IsNull(p, tracked[p]);
  }

  lemma {:induction false} InvParts(m: Machine)
    requires MachineInv(m)
    ensures Flat(m.alloc) && TrackedOk(m.alloc, m.tracked) && Apart(m.tracked)
    ensures EntriesTracked(m.alloc, m.tracked) && LinesOk(m.alloc, m.tracked, m.cache)
    ensures 0 < m.alloc.planeSize < U16
  {
    hide TrackedOk, Apart, EntriesTracked, LinesOk;
  }

  lemma {:induction false} StoreKeepsTracked(m: Machine, b: Allocator, addr: Address, data: seq<byte>)
    requires MachineInv(m) && Written(m.alloc, b, addr, data)
    ensures TrackedOk(b, m.tracked) && EntriesTracked(b, m.tracked)
  {
    hide Overwrite, Apart, LinesOk;
    forall p | p in m.tracked ensures IsBlock(b, p, m.tracked[p]) || IsNull(p, m.tracked[p]) {
      if IsBlock(m.alloc, p, m.tracked[p]) {
        assert IsBlock(b, p, m.tracked[p]);
      }
    }
  }
}
