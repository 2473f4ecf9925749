/** Which operations keep the allocator invariant, exactly, and what that gives for whole
    runs. */
module Invariant {
  import opened FirstFit
  import opened Model
  import opened Placement
  import opened Effects
  import opened Layout

  // -------------------------------------------------------------- from the invariant

  lemma {:induction false} InvKeysTaken(r: Region, planeSize: nat)
    requires RegionInv(r, planeSize)
    ensures KeysTaken(r.planes)
  {
    forall j, z | 0 <= j < |r.planes| && z in r.planes[j].allocs
      ensures z < |r.planes[j].used| && r.planes[j].used[z]
    {
      assert EntryOk(r.planes[j].allocs[z], r.id, j, z, |r.planes|, planeSize);
      assert Owns(r.planes, Claim(j, z, 0), j, z);
    }
  }

  ghost predicate Tamed(a: Allocator) {
    forall x | x in a.regions :: AllTame(a.regions[x].planes)
  }

  lemma {:induction false} InvIsReady(a: Allocator)
    requires Inv(a) && Tamed(a)
    ensures Ready(a)
  {
    forall x | x in a.regions ensures KeysTaken(a.regions[x].planes) {
      InvKeysTaken(a.regions[x], a.planeSize);
    }
  }

  /** Small enough planes need no further care. */
  lemma {:induction false} SmallPlanesAreTame(a: Allocator)
    requires WellFormed(a) && a.planeSize <= SAFE_LENGTH
    ensures Tamed(a)
  {
    forall x, i | x in a.regions && 0 <= i < |a.regions[x].planes| ensures Tame(a.regions[x].planes[i].used) {
      ShortIsTame(a.regions[x].planes[i].used);
    }
  }

  /** In every reachable state the region's counter is the planes' total, so the fast path's
      pre-check skips a region exactly when its planes cannot hold the request even in pieces. */
  lemma {:induction false} CounterIsExact(a: Allocator, x: nat)
    requires Inv(a) && x in a.regions
    ensures a.regions[x].freeBytes == TotalFree(a.regions[x].planes)
    ensures a.regions[x].freeBytes <= a.regions[x].totalBytes == |a.regions[x].planes| * a.planeSize
    ensures forall size | a.regions[x].freeBytes < size :: FindSpot(a.regions[x].planes, size, 0) == Nowhere
  {
    hide Tiled, EntriesOk, Shaped, TotalFree, PlanesWithFree, FindSpot;
    var r := a.regions[x];
    assert RegionInv(r, a.planeSize);
    TotalFreeBound(r.planes, a.planeSize);
    MulBound(|r.planes|, a.planeSize, U32, U16);
    SmallMod(TotalFree(r.planes), U64);
    SmallMod(|r.planes| * a.planeSize, U64);
    forall size | r.freeBytes < size ensures FindSpot(r.planes, size, 0) == Nowhere {
      NoSpot(r.planes, size, 0);
    }
  }

  lemma {:induction false} PlaneWithinTotal(planes: seq<Plane>, i: nat)
    requires i < |planes|
    ensures planes[i].FreeBytes() <= TotalFree(planes)
  {
    hide CountFree;
    if i < |planes| - 1 {
      PlaneWithinTotal(planes[..|planes| - 1], i);
    }
  }

  /** Planes that together have too few free bytes offer no spot. */
  lemma {:induction false} NoSpot(planes: seq<Plane>, size: nat, j: nat)
    requires j <= |planes| && TotalFree(planes) < size
    ensures FindSpot(planes, size, j) == Nowhere
    decreases |planes| - j
  {
    hide TotalFree, CountFree, Search;
    if j < |planes| {
      PlaneWithinTotal(planes, j);
      NoSpot(planes, size, j + 1);
    }
  }

  lemma {:induction false} SmallMod(a: nat, b: nat)
    requires a < b
    ensures a % b == a
  {
  }

  lemma {:induction false} MulBound(a: nat, b: nat, c: nat, d: nat)
    requires a <= c && b <= d
    ensures a * b <= c * d
  {
  }

  lemma {:induction false} TotalFreeBound(planes: seq<Plane>, planeSize: nat)
    requires Shaped(planes, planeSize)
    ensures TotalFree(planes) <= PlanesWithFree(planes) * planeSize <= |planes| * planeSize
  {
    hide CountFree;
    if planes != [] {
      var init, k := planes[..|planes| - 1], PlanesWithFree(planes[..|planes| - 1]);
      TotalFreeBound(init, planeSize);
      MulSucc(k, planeSize);
      assert planes[|planes| - 1].FreeBytes() <= planeSize;
    }
    MulBound(PlanesWithFree(planes), planeSize, |planes|, planeSize);
  }

  lemma {:induction false} MulSucc(k: nat, n: nat)
    ensures (k + 1) * n == k * n + n
  {
  }

  /** A region with enough free bytes always has enough planes with free bytes: the second test
      of the promotion scan never decides. */
  lemma {:induction false} PlaneCountTestIsRedundant(a: Allocator, x: nat, size: nat)
    requires WellFormed(a) && x in a.regions && size <= TotalFree(a.regions[x].planes)
    ensures PlanesNeeded(a, size) <= PlanesWithFree(a.regions[x].planes)
  {
    var planes, n := a.regions[x].planes, a.planeSize;
    TotalFreeBound(planes, n);
    CeilingBound(size, n, PlanesWithFree(planes));
  }

  /** `(size + n - 1) mod 2^32 / n` never exceeds a count of planes that can hold `size`. */
  lemma {:induction false} CeilingBound(size: nat, n: nat, k: nat)
    requires n > 0 && size <= k * n
    ensures (size + n - 1) % U32 / n <= k
  {
    var t := (size + n - 1) % U32;
    assert (k + 1) * n == k * n + n;
    ModAtMost(size + n - 1);
    DivBelow(t, n, k + 1);
  }

  lemma {:induction false} ModAtMost(s: nat)
    ensures s % U32 <= s
  {
  }

  lemma {:induction false} DivBelow(t: nat, n: nat, m: nat)
    requires n > 0 && t < m * n
    ensures t / n < m
  {
    var q := t / n;
    assert q * n + t % n == t;
    if m <= q { MulBound(m, n, q, n); }
  }

  /** A finished promotion has at least as many fragments as planes were needed. */
  lemma {:induction false} EnoughFragments(pieces: seq<Fragment>, planeCount: nat, a: Allocator, size: nat)
    requires WellFormed(a) && InOrder(pieces, planeCount, a.planeSize) && SizeSum(pieces) == size
    ensures PlanesNeeded(a, size) <= |pieces|
  {
    SizeSumBound(pieces, planeCount, a.planeSize);
    CeilingBound(size, a.planeSize, |pieces|);
  }

  lemma {:induction false} SizeSumBound(pieces: seq<Fragment>, planeCount: nat, planeSize: nat)
    requires InOrder(pieces, planeCount, planeSize)
    ensures SizeSum(pieces) <= |pieces| * planeSize
  {
    if pieces != [] {
      SizeSumBound(pieces[..|pieces| - 1], planeCount, planeSize);
      MulSucc(|pieces| - 1, planeSize);
    }
  }

  // ------------------------------------------------------------------ one allocation

  lemma {:induction false} FreshRegionInv(x: nat, kind: nat, planeSize: nat)
    requires 0 < planeSize < U16
    ensures RegionInv(FreshRegion(x, kind, planeSize), planeSize)
  {
    FreshRegionShape(x, kind, planeSize);
    var planes := FreshRegion(x, kind, planeSize).planes;
    assert planes[..0] == [];
    assert LiveCount(planes) == LiveCount(planes[..0]) + |planes[0].allocs|;
  }

  /** Placing an allocation in a region keeps its invariant, counters included. */
  lemma {:induction false} PlacedKeepsRegion(r: Region, after: seq<Plane>, alloc: Allocation, planeSize: nat)
    requires RegionInv(r, planeSize) && 0 < planeSize < U16 && 0 < alloc.size < U32
    requires alloc.addr.x == r.id && Placed(r.planes, after, alloc, planeSize)
    ensures RegionInv(Booked(r, after, alloc.size), planeSize)
  {
    hide Tiled, EntriesOk, TotalFree, LiveCount, Debit, OccupyPiece;
    var before, y, z := r.planes, alloc.addr.y, alloc.addr.z;
    PlacedPlanes(before, after, alloc, planeSize);
    assert z !in before[y].allocs by { PlacedFreshKey(before, after, alloc, r.id, planeSize); }
    PlacedKeepsTiled(before, after, alloc, planeSize);
    PlacedCounts(before, after, alloc, planeSize);
    DebitExact(TotalFree(before), alloc.size);
    PlacedEntries(before, after, alloc, r.id, planeSize);
    SuccMod(LiveCount(before));
    assert Shaped(after, planeSize);
  }

  lemma {:induction false} SuccMod(n: nat)
    ensures (n % U64 + 1) % U64 == (n + 1) % U64
  {
  }

  lemma {:induction false} PlacedFreshKey(before: seq<Plane>, after: seq<Plane>, alloc: Allocation, x: nat,
      planeSize: nat)
    requires Shaped(before, planeSize) && EntriesOk(before, x, planeSize) && Tiled(before)
    requires Placed(before, after, alloc, planeSize)
    ensures alloc.addr.y < |before| && alloc.addr.z !in before[alloc.addr.y].allocs
  {
    var f := Pieces(alloc)[0];
    assert IsFirstFit(before[f.plane].used, f.size, f.start);
    FreshKey(before, x, f.plane, f.start, planeSize);
  }

  lemma {:induction false} PlacedEntries(before: seq<Plane>, after: seq<Plane>, alloc: Allocation, x: nat,
      planeSize: nat)
    requires Shaped(before, planeSize) && EntriesOk(before, x, planeSize)
    requires alloc.addr.x == x && Placed(before, after, alloc, planeSize)
    ensures EntriesOk(after, x, planeSize)
  {
    hide OccupyPiece;
    PlacedPlanes(before, after, alloc, planeSize);
    forall j, z | 0 <= j < |after| && z in after[j].allocs
      ensures EntryOk(after[j].allocs[z], x, j, z, |after|, planeSize)
    {
      if j != alloc.addr.y || z != alloc.addr.z {
        assert z in before[j].allocs;
      }
    }
  }

  lemma {:induction false} PlacedCounts(before: seq<Plane>, after: seq<Plane>, alloc: Allocation, planeSize: nat)
    requires Shaped(before, planeSize) && planeSize < U16 && Placed(before, after, alloc, planeSize)
    requires alloc.addr.y < |before| && alloc.addr.z !in before[alloc.addr.y].allocs
    ensures TotalFree(after) == TotalFree(before) - alloc.size
    ensures LiveCount(after) == LiveCount(before) + 1
    ensures alloc.size <= TotalFree(before)
  {
    var mid := OccupyAll(before, Pieces(alloc));
    OccupyCost(before, Pieces(alloc), planeSize);
    PlacedPlanes(before, after, alloc, planeSize);
    TotalFreeSame(mid, after);
    LiveCountSame(before, mid);
    LiveCountUpdate(mid, alloc.addr.y, Enter(mid[alloc.addr.y], alloc));
  }

  lemma {:induction false} TookKeepsInv(a: Allocator, b: Allocator, alloc: Allocation, size: nat, kind: nat)
    requires Inv(a) && Took(a, b, alloc, size, kind) && 0 < size < U32
    ensures Inv(b)
  {
    hide RegionInv, Placed, Promote, FreshRegion, Shaped;
    var x := alloc.addr.x;
    var base, after := Base(a, x, kind), b.regions[x].planes;
    if x !in a.regions {
      FreshRegionInv(x, kind, a.planeSize);
      FreshRegionShape(x, kind, a.planeSize);
    }
    PlacedKeepsRegion(base, after, alloc, a.planeSize);
    PlacedShape(base.planes, after, alloc, a.planeSize);
    PromoteMembers(a.lru, x, b.regions.Keys);
  }

  lemma {:induction false} PlacedShape(before: seq<Plane>, after: seq<Plane>, alloc: Allocation, planeSize: nat)
    requires Shaped(before, planeSize) && Placed(before, after, alloc, planeSize)
    ensures Shaped(after, planeSize) && |after| == |before|
  {
    PlacedPlanes(before, after, alloc, planeSize);
  }

  lemma {:induction false} PromoteMembers(lru: seq<nat>, x: nat, keys: set<nat>)
    requires x in keys && forall i | 0 <= i < |lru| :: lru[i] in keys
    ensures forall i | 0 <= i < |Promote(lru, x, true)| :: Promote(lru, x, true)[i] in keys
  {
    WithoutMembers(lru, x, keys);
  }

  lemma {:induction false} WithoutMembers(lru: seq<nat>, x: nat, keys: set<nat>)
    requires forall i | 0 <= i < |lru| :: lru[i] in keys
    ensures forall i | 0 <= i < |Without(lru, x)| :: Without(lru, x)[i] in keys
  {
    if lru != [] {
      WithoutMembers(lru[1..], x, keys);
    }
  }

  lemma {:induction false} LeftKeepsInv(a: Allocator, b: Allocator, kind: nat)
    requires Inv(a) && Left(a, b, kind)
    ensures Inv(b)
  {
    hide RegionInv, FreshRegion, Shaped;
    FreshRegionInv(a.nextRegion + 1, kind, a.planeSize);
    FreshRegionShape(a.nextRegion + 1, kind, a.planeSize);
    FreshRegionId(a.nextRegion + 1, kind, a.planeSize);
  }

  lemma {:induction false} FreshRegionId(x: nat, kind: nat, planeSize: nat)
    ensures FreshRegion(x, kind, planeSize).id == x && FreshRegion(x, kind, planeSize).kind == kind
    ensures |FreshRegion(x, kind, planeSize).planes| == 1
  {
  }

  // ---------------------------------------------------------------- the empty request

  /** A region of the wanted type that still has a free byte. */
  ghost predicate AnyRoom(a: Allocator, kind: nat) {
    exists x :: x in a.regions && a.regions[x].kind == kind && TotalFree(a.regions[x].planes) > 0
  }

  lemma {:induction false} ZeroSpot(planes: seq<Plane>, j: nat)
    requires j <= |planes|
    ensures FindSpot(planes, 0, j) == Nowhere
    decreases |planes| - j
  {
    if j < |planes| { ZeroSpot(planes, j + 1); }
  }

  lemma {:induction false} ZeroFast(a: Allocator, kind: nat, i: nat)
    requires i <= |a.lru|
    ensures FastScan(a, 0, kind, i) == Miss
    decreases |a.lru| - i
  {
    if i < |a.lru| {
      if a.lru[i] in a.regions { ZeroSpot(a.regions[a.lru[i]].planes, 0); }
      ZeroFast(a, kind, i + 1);
    }
  }

  /** A request for no bytes is served by Y-promotion, with no fragment, exactly when some
      region of the type has a free byte: the handle is the zero address, the counter of the
      chosen region is off by 2^32, and its entry at start 0 is overwritten. */
  lemma {:induction false} ZeroEffect(a: Allocator, kind: nat, flags: nat, hint: nat)
    requires WellFormed(a)
    ensures var s := Allocate(a, 0, kind, flags, hint);
      if AnyRoom(a, kind) then
        && s.outcome == Ok(Scattered(a.nextAlloc + 1, 0, 0, kind, flags, []))
        && exists x :: Best(a, x, 0, kind) &&
             s.a == Install(a, x, Booked(a.regions[x], EnterFirst(a.regions[x].planes, s.outcome.alloc), 0))
      else s.outcome == Failed && Left(a, s.a, kind)
  {
    hide PlanesNeeded, TotalFree, PlanesWithFree, FindSpot, FreshRegion, Carve, Best, Booked, EnterFirst;
    ZeroFast(a, kind, 0);
    ZeroNeeded(a);
    if x :| x in a.regions && a.regions[x].kind == kind && TotalFree(a.regions[x].planes) > 0 {
      var best := BestExists(a, 0, kind, x);
      var y := ChooseBest(a, 0, kind, hint).value;
      ZeroPromotion(a, y, kind, flags);
    } else {
      ZeroIneligible(a, kind);
      FreshRegionShape(a.nextRegion + 1, kind, a.planeSize);
      FreshSpot(FreshRegion(a.nextRegion + 1, kind, a.planeSize).planes, 0, a.planeSize);
    }
  }

  lemma {:induction false} ZeroNeeded(a: Allocator)
    requires WellFormed(a)
    ensures PlanesNeeded(a, 0) == 0
  {
    SmallMod(a.planeSize - 1, U32);
  }

  lemma {:induction false} ZeroIneligible(a: Allocator, kind: nat)
    requires a.planeSize > 0 && !AnyRoom(a, kind)
    ensures forall x :: !Best(a, x, 0, kind)
  {
  }

  lemma {:induction false} ZeroPromotion(a: Allocator, x: nat, kind: nat, flags: nat)
    requires a.planeSize > 0 && Best(a, x, 0, kind)
    ensures var alloc := Scattered(a.nextAlloc + 1, 0, 0, kind, flags, []);
            PromoteIn(a, x, 0, kind, flags)
            == Attempt(Install(a, x, Booked(a.regions[x], EnterFirst(a.regions[x].planes, alloc), 0)), Some(Ok(alloc)))
  {
    hide TotalFree, PlanesWithFree, PlanesNeeded, Booked, EnterFirst;
    var r := a.regions[x];
    assert Carve(Carving(r.planes, [], 0, false), 0) == Carving(r.planes, [], 0, false);
  }

  lemma {:induction false} ZeroDebit(c: nat)
    requires c < U64
    ensures Debit(c, 0) != c
  {
    assert (U32 - 1) % U32 == U32 - 1;
  }

  /** An allocation keeps the invariant unless it is an empty request that succeeds; with right
      searches it never panics, and it fails only when asked for more than a plane holds or for
      nothing. */
  lemma {:induction false} AllocateKeepsInvIff(a: Allocator, size: nat, kind: nat, flags: nat, hint: nat)
    requires Inv(a) && Tamed(a) && size < U32
    ensures var s := Allocate(a, size, kind, flags, hint);
      && s.outcome != Crashed
      && (Inv(s.a) <==> size > 0 || !AnyRoom(a, kind))
      && (s.outcome == Failed ==> size == 0 || size > a.planeSize)
  {
    var s := Allocate(a, size, kind, flags, hint);
    if size > 0 {
      InvIsReady(a);
      AllocateEffect(a, size, kind, flags, hint);
      match s.outcome
      case Ok(alloc) => TookKeepsInv(a, s.a, alloc, size, kind);
      case Failed => LeftKeepsInv(a, s.a, kind);
    } else {
      ZeroEffect(a, kind, flags, hint);
      if AnyRoom(a, kind) {
        ZeroBreaks(a, kind, flags, hint);
      } else {
        LeftKeepsInv(a, s.a, kind);
      }
    }
  }

  lemma {:induction false} ZeroBreaks(a: Allocator, kind: nat, flags: nat, hint: nat)
    requires Inv(a) && AnyRoom(a, kind)
    ensures !Inv(Allocate(a, 0, kind, flags, hint).a)
  {
    hide Tiled, EntriesOk, Allocate, Debit;
    ZeroEffect(a, kind, flags, hint);
    var s := Allocate(a, 0, kind, flags, hint);
    var x :| Best(a, x, 0, kind) &&
      s.a == Install(a, x, Booked(a.regions[x], EnterFirst(a.regions[x].planes, s.outcome.alloc), 0));
    var r, after := a.regions[x], EnterFirst(a.regions[x].planes, s.outcome.alloc);
    TotalFreeSame(r.planes, after);
    ZeroDebit(r.freeBytes);
    assert s.a.regions[x].freeBytes != TotalFree(s.a.regions[x].planes) % U64;
    assert !RegionInv(s.a.regions[x], a.planeSize);
  }

  // ------------------------------------------------------------------- freeing, exactly

  /** A handle is live when its plane files it under its own address. */
  ghost predicate Live(a: Allocator, alloc: Allocation) {
    var Address(x, y, z) := alloc.addr;
    && x in a.regions && y < |a.regions[x].planes|
    && z in a.regions[x].planes[y].allocs && a.regions[x].planes[y].allocs[z] == alloc
  }

  /** Freeing a live handle always succeeds, and keeps the invariant exactly when the
      allocation is not Y-promoted. A promoted one leaves its later fragments marked. */
  lemma {:induction false} FreeKeepsInvIff(a: Allocator, alloc: Allocation)
    requires Inv(a) && Live(a, alloc)
    ensures Free(a, alloc).Some?
    ensures Inv(Free(a, alloc).value) <==> !alloc.IsYPromoted()
  {
    if alloc.IsYPromoted() {
      FreePromotedBreaks(a, alloc);
    } else {
      FreeSingleKeeps(a, alloc);
    }
  }

  lemma {:induction false} FindPlaneByPosition(planes: seq<Plane>, i: nat, planeSize: nat)
    requires Shaped(planes, planeSize) && i < |planes|
    ensures FindPlane(planes, i) == i
  {
    assert planes[i].id == i;
  }

  lemma {:induction false} FreeSingleKeeps(a: Allocator, alloc: Allocation)
    requires Inv(a) && Live(a, alloc) && !alloc.IsYPromoted()
    ensures Free(a, alloc).Some? && Inv(Free(a, alloc).value)
    ensures var Address(x, y, z) := alloc.addr;
      Free(a, alloc).value.regions == a.regions[x := Free(a, alloc).value.regions[x]]
      && Free(a, alloc).value.regions[x].planes == Released(a.regions[x].planes, y, z)
  {
    hide Tiled, EntriesOk, TotalFree, LiveCount, Vacate;
    var Address(x, y, z) := alloc.addr;
    var r := a.regions[x];
    assert RegionInv(r, a.planeSize);
    FindPlaneByPosition(r.planes, y, a.planeSize);
    assert LiveSingle(r.planes, r.id, y, z, a.planeSize);
    ReleasedKeepsTiled(r.planes, r.id, y, z, a.planeSize);
    ReleasedCounts(r.planes, r.id, y, z, a.planeSize);
    ReleasedEntries(r.planes, r.id, y, z, a.planeSize);
    var b := Free(a, alloc).value;
    PredMod(LiveCount(r.planes));
    PlusMod(TotalFree(r.planes), alloc.size);
    assert RegionInv(b.regions[x], a.planeSize);
  }

  lemma {:induction false} PredMod(n: nat)
    requires n > 0
    ensures (n % U64 + U64 - 1) % U64 == (n - 1) % U64
  {
  }

  lemma {:induction false} PlusMod(n: nat, k: nat)
    ensures (n % U64 + k) % U64 == (n + k) % U64
  {
  }

  lemma {:induction false} ReleasedEntries(planes: seq<Plane>, x: nat, j: nat, z: nat, planeSize: nat)
    requires LiveSingle(planes, x, j, z, planeSize)
    ensures EntriesOk(Released(planes, j, z), x, planeSize) && Shaped(Released(planes, j, z), planeSize)
  {
    hide Tiled;
    ReleasedPlane(planes, x, j, z, planeSize);
  }

  /** After freeing a promoted allocation the second fragment is still marked but belongs to
      nobody. */
  lemma {:induction false} FreePromotedBreaks(a: Allocator, alloc: Allocation)
    requires Inv(a) && Live(a, alloc) && alloc.IsYPromoted()
    ensures Free(a, alloc).Some? && !Inv(Free(a, alloc).value)
  {
    hide FreeFragments, PlaneFree, Exclusive, EntriesOk;
    var Address(x, y, z) := alloc.addr;
    var r := a.regions[x];
    assert RegionInv(r, a.planeSize);
    FreeFragmentsEffect(r.planes, r.id, alloc, a.planeSize);
    SecondFragmentOrphaned(r.planes, r.id, alloc, a.planeSize);
    assert !RegionInv(Free(a, alloc).value.regions[x], a.planeSize);
  }

  lemma {:induction false} SecondFragmentOrphaned(planes: seq<Plane>, x: nat, alloc: Allocation, planeSize: nat)
    requires Shaped(planes, planeSize) && EntriesOk(planes, x, planeSize) && Tiled(planes)
    requires alloc.IsYPromoted() && alloc.addr.y < |planes| && alloc.addr.z in planes[alloc.addr.y].allocs
    requires planes[alloc.addr.y].allocs[alloc.addr.z] == alloc
    ensures !Complete(planes[alloc.addr.y := PlaneFree(planes[alloc.addr.y], alloc.addr.z).value])
  {
    hide Vacate;
    var y, z, f := alloc.addr.y, alloc.addr.z, alloc.fragments[1];
    var freed := planes[y := PlaneFree(planes[y], z).value];
    assert EntryOk(alloc, x, y, z, |planes|, planeSize);
    assert Owns(planes, Claim(y, z, 1), f.plane, f.start);
    assert freed[f.plane].used[f.start];
    if Claimed(freed, f.plane, f.start) {
      var c :| Owns(freed, c, f.plane, f.start);
      OwnsAfterFree(planes, y, z, c, f.plane, f.start);
    }
  }

  lemma {:induction false} OwnsAfterFree(planes: seq<Plane>, y: nat, z: nat, c: Claim, i: nat, p: nat)
    requires y < |planes| && z in planes[y].allocs
    requires Owns(planes[y := PlaneFree(planes[y], z).value], c, i, p)
    ensures Owns(planes, c, i, p) && !(c.j == y && c.z == z)
  {
    hide Vacate;
  }

  /** Freeing the fragments one by one only finds the first in a map. */
  lemma {:induction false} FreeFragmentsEffect(planes: seq<Plane>, x: nat, alloc: Allocation, planeSize: nat)
    requires Shaped(planes, planeSize) && EntriesOk(planes, x, planeSize) && Tiled(planes)
    requires alloc.IsYPromoted() && alloc.addr.y < |planes| && alloc.addr.z in planes[alloc.addr.y].allocs
    requires planes[alloc.addr.y].allocs[alloc.addr.z] == alloc
    ensures FreeFragments(planes, alloc.fragments)
         == planes[alloc.addr.y := PlaneFree(planes[alloc.addr.y], alloc.addr.z).value]
  {
    hide Tiled, PlaneFree, Vacate, EntriesOk;
    var y, z, fs := alloc.addr.y, alloc.addr.z, alloc.fragments;
    PromotedEntry(planes, x, alloc, planeSize);
    FindPlaneByPosition(planes, y, planeSize);
    FreedShape(planes[y], z);
    var after := planes[y := PlaneFree(planes[y], z).value];
    forall k | 1 <= k < |fs| ensures fs[k].plane != y && fs[k].start !in planes[fs[k].plane].allocs {
      LaterFragmentUnknown(planes, x, alloc, planeSize, k);
    }
    UnknownFragments(after, fs[1..], planeSize);
  }

  lemma {:induction false} PromotedEntry(planes: seq<Plane>, x: nat, alloc: Allocation, planeSize: nat)
    requires EntriesOk(planes, x, planeSize)
    requires alloc.IsYPromoted() && alloc.addr.y < |planes| && alloc.addr.z in planes[alloc.addr.y].allocs
    requires planes[alloc.addr.y].allocs[alloc.addr.z] == alloc
    ensures InOrder(alloc.fragments, |planes|, planeSize)
    ensures alloc.fragments[0].plane == alloc.addr.y && alloc.fragments[0].start == alloc.addr.z
  {
    assert EntryOk(alloc, x, alloc.addr.y, alloc.addr.z, |planes|, planeSize);
  }

  lemma {:induction false} FreedShape(p: Plane, z: nat)
    requires z in p.allocs
    ensures var q := PlaneFree(p, z);
      q.Some? && q.value.id == p.id && q.value.data == p.data && |q.value.used| == |p.used|
        && q.value.allocs == p.allocs - {z}
  {
  }

  /** No plane's map knows a later fragment: its bytes would have two owners. */
  lemma {:induction false} LaterFragmentUnknown(planes: seq<Plane>, x: nat, alloc: Allocation, planeSize: nat, k: nat)
    requires EntriesOk(planes, x, planeSize) && Tiled(planes)
    requires alloc.IsYPromoted() && alloc.addr.y < |planes| && alloc.addr.z in planes[alloc.addr.y].allocs
    requires planes[alloc.addr.y].allocs[alloc.addr.z] == alloc && 1 <= k < |alloc.fragments|
    ensures var f := alloc.fragments[k];
      f.plane < |planes| && f.plane != alloc.addr.y && f.start !in planes[f.plane].allocs
  {
    hide Sound, Complete;
    PromotedEntry(planes, x, alloc, planeSize);
    var y, z, f := alloc.addr.y, alloc.addr.z, alloc.fragments[k];
    assert Owns(planes, Claim(y, z, k), f.plane, f.start);
    if f.start in planes[f.plane].allocs {
      EntryOwnsStart(planes, x, planeSize, f.plane, f.start);
    }
  }

  lemma {:induction false} EntryOwnsStart(planes: seq<Plane>, x: nat, planeSize: nat, i: nat, start: nat)
    requires EntriesOk(planes, x, planeSize) && i < |planes| && start in planes[i].allocs
    ensures Owns(planes, Claim(i, start, 0), i, start)
  {
    assert EntryOk(planes[i].allocs[start], x, i, start, |planes|, planeSize);
  }

  lemma {:induction false} UnknownFragments(planes: seq<Plane>, fragments: seq<Fragment>, planeSize: nat)
    requires Shaped(planes, planeSize)
    requires forall k | 0 <= k < |fragments| ::
      fragments[k].plane < |planes| && fragments[k].start !in planes[fragments[k].plane].allocs
    ensures FreeFragments(planes, fragments) == planes
    decreases |fragments|
  {
    if fragments != [] {
      FindPlaneByPosition(planes, fragments[0].plane, planeSize);
      UnknownFragments(planes, fragments[1..], planeSize);
    }
  }
}
