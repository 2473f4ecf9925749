/** The allocator invariant: in every plane the used positions are tiled by the live
    allocations, and the region counters agree with the planes. */
module Layout {
  import opened FirstFit
  import opened Model
  import opened Placement
  import opened Effects

  // ------------------------------------------------------------------ invariant

  /** Piece `k` of the allocation filed under start `z` of plane `j`. */
  datatype Claim = Claim(j: nat, z: nat, k: nat)

  /** The claim is live and covers position `p` of plane `i`. */
  ghost predicate Owns(planes: seq<Plane>, c: Claim, i: nat, p: nat) {
    && c.j < |planes| && c.z in planes[c.j].allocs
    && c.k < |Pieces(planes[c.j].allocs[c.z])|
    && InPiece(Pieces(planes[c.j].allocs[c.z])[c.k], i, p)
  }

  /** An entry filed at `(j, z)` starts there and its pieces add up to its size. */
  ghost predicate EntryOk(alloc: Allocation, x: nat, j: nat, z: nat, planeCount: nat, planeSize: nat) {
    var pieces := Pieces(alloc);
    && alloc.addr == Address(x, j, z)
    && InOrder(pieces, planeCount, planeSize)
    && pieces[0].plane == j && pieces[0].start == z
    && SizeSum(pieces) == alloc.size
  }

  ghost predicate EntriesOk(planes: seq<Plane>, x: nat, planeSize: nat) {
    forall j, z | 0 <= j < |planes| && z in planes[j].allocs ::
      EntryOk(planes[j].allocs[z], x, j, z, |planes|, planeSize)
  }

  ghost predicate Sound(planes: seq<Plane>) {
    forall c, i: nat, p: nat | Owns(planes, c, i, p) ::
      i < |planes| && p < |planes[i].used| && planes[i].used[p]
  }

  ghost predicate Claimed(planes: seq<Plane>, i: nat, p: nat) {
    exists c :: Owns(planes, c, i, p)
  }

  ghost predicate Complete(planes: seq<Plane>) {
    forall i, p | 0 <= i < |planes| && 0 <= p < |planes[i].used| && planes[i].used[p] :: Claimed(planes, i, p)
  }

  ghost predicate Exclusive(planes: seq<Plane>) {
    forall c, d, i: nat, p: nat | Owns(planes, c, i, p) && Owns(planes, d, i, p) :: c == d
  }

  /** The pieces of live allocations are used, cover every used position, and no two of them
      share one. */
  ghost predicate Tiled(planes: seq<Plane>) {
    Sound(planes) && Complete(planes) && Exclusive(planes)
  }

  function LiveCount(planes: seq<Plane>): nat {
    if planes == [] then 0
    else LiveCount(planes[..|planes| - 1]) + |planes[|planes| - 1].allocs|
  }

  ghost predicate RegionInv(r: Region, planeSize: nat) {
    && Shaped(r.planes, planeSize)
    && EntriesOk(r.planes, r.id, planeSize)
    && Tiled(r.planes)
    && r.freeBytes == TotalFree(r.planes) % U64
    && r.allocCount == LiveCount(r.planes) % U64
    && r.totalBytes == |r.planes| * planeSize % U64
  }

  ghost predicate Inv(a: Allocator) {
    WellFormed(a) && forall x | x in a.regions :: RegionInv(a.regions[x], a.planeSize)
  }

  // ------------------------------------------------------------------- counters

  lemma {:induction false} TotalFreeUpdate(planes: seq<Plane>, j: nat, p: Plane)
    requires j < |planes|
    ensures TotalFree(planes[j := p]) == TotalFree(planes) - planes[j].FreeBytes() + p.FreeBytes()
  {
    var n := |planes| - 1;
    if j < n {
      TotalFreeUpdate(planes[..n], j, p);
      assert planes[j := p][..n] == planes[..n][j := p];
    } else {
      assert planes[j := p][..n] == planes[..n];
    }
  }

  lemma {:induction false} LiveCountUpdate(planes: seq<Plane>, j: nat, p: Plane)
    requires j < |planes|
    ensures LiveCount(planes[j := p]) == LiveCount(planes) - |planes[j].allocs| + |p.allocs|
  {
    var n := |planes| - 1;
    if j < n {
      LiveCountUpdate(planes[..n], j, p);
      assert planes[j := p][..n] == planes[..n][j := p];
    } else {
      assert planes[j := p][..n] == planes[..n];
    }
  }

  lemma {:induction false} LiveCountSame(before: seq<Plane>, after: seq<Plane>)
    requires |before| == |after| && forall i | 0 <= i < |before| :: before[i].allocs == after[i].allocs
    ensures LiveCount(before) == LiveCount(after)
  {
    if before != [] {
      LiveCountSame(before[..|before| - 1], after[..|after| - 1]);
    }
  }

  lemma {:induction false} TotalFreeSame(before: seq<Plane>, after: seq<Plane>)
    requires |before| == |after| && forall i | 0 <= i < |before| :: before[i].used == after[i].used
    ensures TotalFree(before) == TotalFree(after)
  {
    if before != [] {
      TotalFreeSame(before[..|before| - 1], after[..|after| - 1]);
    }
  }

  /** Taking free pieces costs exactly their sizes. */
  lemma {:induction false} OccupyCost(planes: seq<Plane>, pieces: seq<Fragment>, planeSize: nat)
    requires Shaped(planes, planeSize) && planeSize < U16
    requires InOrder(pieces, |planes|, planeSize) && Vacant(planes, pieces)
    ensures TotalFree(OccupyAll(planes, pieces)) == TotalFree(planes) - SizeSum(pieces)
    decreases |pieces|
  {
    hide OccupyAll, CountFree, TotalFree;
    if pieces == [] {
      OccupyNone(planes);
    } else {
      var init, f := pieces[..|pieces| - 1], pieces[|pieces| - 1];
      assert pieces == init + [f];
      OccupyCost(planes, init, planeSize);
      UntouchedPlane(planes, init, f.plane);
      OccupyOneMore(planes, init, f);
      TotalFreeUpdate(OccupyAll(planes, init), f.plane, Occupy(planes[f.plane], f.start, f.size));
      assert Vacant(planes, init) && IsFirstFit(planes[f.plane].used, f.size, f.start);
      CountFreeMark(planes[f.plane].used, f.start, f.start + f.size);
    }
  }

  lemma {:induction false} DebitExact(free: nat, size: nat)
    requires 0 < size <= free && size < U32
    ensures Debit(free % U64, size) == (free - size) % U64
  {
    assert (size + U32 - 1) % U32 == size - 1;
    assert (free % U64 + (U64 - size)) % U64 == (free - size + U64) % U64;
  }

  // ------------------------------------------------------------------ placement

  lemma {:induction false} PlacedPlanes(before: seq<Plane>, after: seq<Plane>, alloc: Allocation, planeSize: nat)
    requires Shaped(before, planeSize) && Placed(before, after, alloc, planeSize)
    ensures |after| == |before| && alloc.addr.y < |before|
    ensures forall i | 0 <= i < |after| ::
      var mid := OccupyPiece(before[i], Pieces(alloc), i);
      after[i] == if i == alloc.addr.y then Enter(mid, alloc) else mid
  {
    assert FindPlane(OccupyAll(before, Pieces(alloc)), alloc.addr.y) == alloc.addr.y;
  }

  /** The start of a new allocation was nobody's key. */
  lemma {:induction false} FreshKey(planes: seq<Plane>, x: nat, j: nat, z: nat, planeSize: nat)
    requires Shaped(planes, planeSize) && EntriesOk(planes, x, planeSize) && Tiled(planes)
    requires j < |planes| && z < planeSize && !planes[j].used[z]
    ensures z !in planes[j].allocs
  {
    if z in planes[j].allocs {
      assert Owns(planes, Claim(j, z, 0), j, z);
    }
  }

  ghost predicate OwnsNew(alloc: Allocation, c: Claim, i: nat, p: nat) {
    && c.j == alloc.addr.y && c.z == alloc.addr.z
    && c.k < |Pieces(alloc)| && InPiece(Pieces(alloc)[c.k], i, p)
  }

  lemma {:induction false} PlacedOwns(
    before: seq<Plane>, after: seq<Plane>, alloc: Allocation, planeSize: nat, c: Claim, i: nat, p: nat)
    requires Shaped(before, planeSize) && Placed(before, after, alloc, planeSize)
    requires alloc.addr.y < |before| && alloc.addr.z !in before[alloc.addr.y].allocs
    ensures Owns(after, c, i, p) <==> OwnsNew(alloc, c, i, p) || Owns(before, c, i, p)
  {
    PlacedPlanes(before, after, alloc, planeSize);
  }

  /** A new allocation only claims what was free. */
  lemma {:induction false} NewClaimWasFree(
    before: seq<Plane>, after: seq<Plane>, alloc: Allocation, planeSize: nat, c: Claim, i: nat, p: nat)
    requires Shaped(before, planeSize) && Placed(before, after, alloc, planeSize)
    requires OwnsNew(alloc, c, i, p)
    ensures i < |before| && p < planeSize && !before[i].used[p] && Covered(Pieces(alloc), i, p)
  {
    var f := Pieces(alloc)[c.k];
    assert IsFirstFit(before[f.plane].used, f.size, f.start);
  }

  lemma {:induction false} PlacedKeepsTiled(before: seq<Plane>, after: seq<Plane>, alloc: Allocation, planeSize: nat)
    requires Shaped(before, planeSize) && Tiled(before) && Placed(before, after, alloc, planeSize)
    requires alloc.addr.y < |before| && alloc.addr.z !in before[alloc.addr.y].allocs
    ensures Tiled(after)
  {
    PlacedPlanes(before, after, alloc, planeSize);
    hide Placed, Owns, OwnsNew, Covered;
    assert Sound(after) by {
      forall c, i: nat, p: nat | Owns(after, c, i, p)
        ensures i < |after| && p < |after[i].used| && after[i].used[p]
      {
        PlacedOwns(before, after, alloc, planeSize, c, i, p);
        if OwnsNew(alloc, c, i, p) { NewClaimWasFree(before, after, alloc, planeSize, c, i, p); }
      }
    }
    assert Complete(after) by {
      forall i, p | 0 <= i < |after| && 0 <= p < |after[i].used| && after[i].used[p] ensures Claimed(after, i, p) {
        PlacedComplete(before, after, alloc, planeSize, i, p);
      }
    }
    assert Exclusive(after) by {
      forall c, d, i: nat, p: nat | Owns(after, c, i, p) && Owns(after, d, i, p) ensures c == d {
        PlacedExclusive(before, after, alloc, planeSize, c, d, i, p);
      }
    }
  }

  lemma {:induction false} PlacedComplete(
    before: seq<Plane>, after: seq<Plane>, alloc: Allocation, planeSize: nat, i: nat, p: nat)
    requires Shaped(before, planeSize) && Complete(before) && Placed(before, after, alloc, planeSize)
    requires alloc.addr.y < |before| && alloc.addr.z !in before[alloc.addr.y].allocs
    requires i < |after| && p < |after[i].used| && after[i].used[p]
    ensures Claimed(after, i, p)
  {
    PlacedPlanes(before, after, alloc, planeSize);
    if before[i].used[p] {
      assert Claimed(before, i, p);
      var c :| Owns(before, c, i, p);
      PlacedOwns(before, after, alloc, planeSize, c, i, p);
    } else {
      var k :| 0 <= k < |Pieces(alloc)| && InPiece(Pieces(alloc)[k], i, p);
      var c := Claim(alloc.addr.y, alloc.addr.z, k);
      assert OwnsNew(alloc, c, i, p);
      PlacedOwns(before, after, alloc, planeSize, c, i, p);
    }
  }

  lemma {:induction false} PlacedExclusive(
    before: seq<Plane>, after: seq<Plane>, alloc: Allocation, planeSize: nat, c: Claim, d: Claim, i: nat, p: nat)
    requires Shaped(before, planeSize) && Sound(before) && Exclusive(before)
    requires Placed(before, after, alloc, planeSize)
    requires alloc.addr.y < |before| && alloc.addr.z !in before[alloc.addr.y].allocs
    requires Owns(after, c, i, p) && Owns(after, d, i, p)
    ensures c == d
  {
    PlacedOwns(before, after, alloc, planeSize, c, i, p);
    PlacedOwns(before, after, alloc, planeSize, d, i, p);
    if OwnsNew(alloc, c, i, p) { NewClaimWasFree(before, after, alloc, planeSize, c, i, p); }
    if OwnsNew(alloc, d, i, p) { NewClaimWasFree(before, after, alloc, planeSize, d, i, p); }
  }

  // -------------------------------------------------------------------- freeing

  /** The planes after freeing the single-plane allocation filed at `(j, z)`. */
  function Released(planes: seq<Plane>, j: nat, z: nat): seq<Plane>
    requires j < |planes| && z in planes[j].allocs
  {
    planes[j := PlaneFree(planes[j], z).value]
  }

  ghost predicate LiveSingle(planes: seq<Plane>, x: nat, j: nat, z: nat, planeSize: nat) {
    && Shaped(planes, planeSize) && 0 < planeSize < U16 && EntriesOk(planes, x, planeSize) && Tiled(planes)
    && j < |planes| && z in planes[j].allocs && !planes[j].allocs[z].IsYPromoted()
  }

  /** An allocation that is not promoted has one piece: itself. */
  lemma {:induction false} SinglePiece(alloc: Allocation, x: nat, j: nat, z: nat, planeCount: nat, planeSize: nat)
    requires EntryOk(alloc, x, j, z, planeCount, planeSize) && !alloc.IsYPromoted()
    ensures 0 < alloc.size && z + alloc.size <= planeSize
    ensures |Pieces(alloc)| == 1 && Pieces(alloc)[0] == Fragment(j, z, alloc.size, Pieces(alloc)[0].isFirst)
  {
    var pieces := Pieces(alloc);
    assert pieces[..0] == [];
    assert SizeSum(pieces) == SizeSum(pieces[..0]) + pieces[0].size;
  }

  lemma {:induction false} ReleasedPlane(planes: seq<Plane>, x: nat, j: nat, z: nat, planeSize: nat)
    requires LiveSingle(planes, x, j, z, planeSize)
    ensures var n := planes[j].allocs[z].size;
      && 0 < n && z + n <= planeSize
      && (forall p: nat :: Owns(planes, Claim(j, z, 0), j, p) <==> z <= p < z + n)
      && (forall k: nat, i: nat, p: nat | Owns(planes, Claim(j, z, k), i, p) :: k == 0 && i == j)
      && Released(planes, j, z) == planes[j := planes[j].(used := Unmark(planes[j].used, z, z + n),
                                                         allocs := planes[j].allocs - {z})]
  {
    hide Tiled, Unmark;
    SinglePiece(planes[j].allocs[z], x, j, z, |planes|, planeSize);
    var n := planes[j].allocs[z].size;
    assert n % U16 == n && (z + n) % U16 == z + n;
  }

  lemma {:induction false} ReleasedOwns(planes: seq<Plane>, x: nat, j: nat, z: nat, planeSize: nat, c: Claim,
      i: nat, p: nat)
    requires LiveSingle(planes, x, j, z, planeSize)
    ensures Owns(Released(planes, j, z), c, i, p) <==> Owns(planes, c, i, p) && c != Claim(j, z, 0)
  {
    hide Tiled, Unmark, InPiece, Released;
    ReleasedPlane(planes, x, j, z, planeSize);
    if c.j == j && c.z == z && Owns(planes, c, i, p) {
      assert c == Claim(j, z, c.k);
    }
  }

  lemma {:induction false} ReleasedUsed(planes: seq<Plane>, x: nat, j: nat, z: nat, planeSize: nat, i: nat, p: nat)
    requires LiveSingle(planes, x, j, z, planeSize) && i < |planes| && p < planeSize
    ensures |Released(planes, j, z)[i].used| == planeSize
    ensures Released(planes, j, z)[i].used[p] <==> planes[i].used[p] && !Owns(planes, Claim(j, z, 0), i, p)
  {
    hide Tiled, Owns, Released, EntriesOk;
    ReleasedPlane(planes, x, j, z, planeSize);
    if Owns(planes, Claim(j, z, 0), i, p) { assert i == j; }
  }

  lemma {:induction false} ReleasedKeepsTiled(planes: seq<Plane>, x: nat, j: nat, z: nat, planeSize: nat)
    requires LiveSingle(planes, x, j, z, planeSize)
    ensures Tiled(Released(planes, j, z))
  {
    hide Owns, Released, EntriesOk;
    var after := Released(planes, j, z);
    assert |after| == |planes| by { ReleasedPlane(planes, x, j, z, planeSize); }
    assert Sound(after) by {
      forall c, i: nat, p: nat | Owns(after, c, i, p)
        ensures i < |after| && p < |after[i].used| && after[i].used[p]
      {
        ReleasedOwns(planes, x, j, z, planeSize, c, i, p);
        ReleasedUsed(planes, x, j, z, planeSize, i, p);
      }
    }
    assert Complete(after) by {
      forall i, p | 0 <= i < |after| && 0 <= p < |after[i].used| && after[i].used[p] ensures Claimed(after, i, p) {
        ReleasedUsed(planes, x, j, z, planeSize, i, 0);
        ReleasedUsed(planes, x, j, z, planeSize, i, p);
        assert Claimed(planes, i, p);
        var c :| Owns(planes, c, i, p);
        ReleasedOwns(planes, x, j, z, planeSize, c, i, p);
      }
    }
    assert Exclusive(after) by {
      forall c, d, i: nat, p: nat | Owns(after, c, i, p) && Owns(after, d, i, p) ensures c == d {
        ReleasedOwns(planes, x, j, z, planeSize, c, i, p);
        ReleasedOwns(planes, x, j, z, planeSize, d, i, p);
      }
    }
  }

  lemma {:induction false} ReleasedCounts(planes: seq<Plane>, x: nat, j: nat, z: nat, planeSize: nat)
    requires LiveSingle(planes, x, j, z, planeSize)
    ensures TotalFree(Released(planes, j, z)) == TotalFree(planes) + planes[j].allocs[z].size
    ensures LiveCount(Released(planes, j, z)) == LiveCount(planes) - 1 && LiveCount(planes) > 0
  {
    hide Owns, Released, CountFree, TotalFree, LiveCount, EntriesOk, Unmark;
    ReleasedPlane(planes, x, j, z, planeSize);
    var n, allocs: map<nat, Allocation> := planes[j].allocs[z].size, planes[j].allocs;
    var p := planes[j].(used := Unmark(planes[j].used, z, z + n), allocs := allocs - {z});
    assert CountFree(p.used) == CountFree(planes[j].used) + n by {
      forall q | z <= q < z + n ensures planes[j].used[q] {
        assert Owns(planes, Claim(j, z, 0), j, q);
      }
      CountFreeUnmark(planes[j].used, z, z + n);
    }
    TotalFreeUpdate(planes, j, p);
    LiveCountUpdate(planes, j, p);
    RemoveKey(allocs, z);
    LiveCountHas(planes, j);
  }

  lemma {:induction false} RemoveKey(m: map<nat, Allocation>, z: nat)
    requires z in m
    ensures |m - {z}| == |m| - 1
  {
    assert m == (m - {z})[z := m[z]];
  }

  lemma {:induction false} LiveCountHas(planes: seq<Plane>, j: nat)
    requires j < |planes|
    ensures LiveCount(planes) >= |planes[j].allocs|
  {
    if j < |planes| - 1 {
      LiveCountHas(planes[..|planes| - 1], j);
    }
  }
}
