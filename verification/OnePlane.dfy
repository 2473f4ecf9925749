/** The allocator as the VM uses it: only `Allocate` and `Free`, so every region has exactly one
    plane and no allocation is ever spread over several. */
module OnePlane {
  import opened FirstFit
  import opened Model
  import opened Placement
  import opened Effects
  import opened Invariant

  ghost predicate Flat(a: Allocator) {
    WellFormed(a) && forall x | x in a.regions :: |a.regions[x].planes| == 1
  }

  function PlaneOf(a: Allocator, x: nat): Plane
    requires x in a.regions && |a.regions[x].planes| == 1
  {
    a.regions[x].planes[0]
  }

  /** `b` is `a` with region `x` there and its only plane now `p`. */
  ghost predicate Changed(a: Allocator, b: Allocator, x: nat, p: Plane) {
    && Flat(b) && b.planeSize == a.planeSize
    && b.regions.Keys == a.regions.Keys + {x}
    && (forall y | y in a.regions && y != x :: b.regions[y] == a.regions[y])
    && PlaneOf(b, x) == p
  }

  /** The plane an allocation in region `x` works on. */
  function PlaneFor(a: Allocator, x: nat): Plane
    requires x in a.regions ==> |a.regions[x].planes| == 1
  {
    if x in a.regions then PlaneOf(a, x) else FreshPlane(0, a.planeSize)
  }

  /** With one plane there is one piece. */
  lemma {:induction false} OnePiece(pieces: seq<Fragment>, planeSize: nat)
    requires pieces != [] && InOrder(pieces, 1, planeSize)
    ensures |pieces| == 1 && pieces[0].plane == 0
  {
    assert pieces[0].plane < 1;
    hide InOrder;
    if |pieces| > 1 {
      PlanesIncrease(pieces, 1, planeSize, 0, 1);
    }
  }

  lemma {:induction false} PlanesIncrease(pieces: seq<Fragment>, planeCount: nat, planeSize: nat, k: nat, l: nat)
    requires InOrder(pieces, planeCount, planeSize) && k < l < |pieces|
    ensures pieces[k].plane < pieces[l].plane < planeCount
  {
  }

  lemma {:induction false} PlacedInOnePlane(before: seq<Plane>, after: seq<Plane>, alloc: Allocation, planeSize: nat)
    requires |before| == 1 && Shaped(before, planeSize) && planeSize < U16 && Placed(before, after, alloc, planeSize)
    ensures alloc.addr.y == 0 && |alloc.fragments| <= 1 && 0 < alloc.size && alloc.addr.z + alloc.size <= planeSize
    ensures IsFirstFit(before[0].used, alloc.size, alloc.addr.z)
    ensures after == [Enter(Occupy(before[0], alloc.addr.z, alloc.size), alloc)]
  {
    var pieces := Pieces(alloc);
    OnePiece(pieces, planeSize);
    var f := pieces[0];
    assert pieces == [f] && pieces[..0] == [];
    assert SizeSum(pieces) == SizeSum(pieces[..0]) + f.size;
    OccupyOne(before, f);
    FindPlaneByPosition(OccupyAll(before, pieces), 0, planeSize);
  }

  // ------------------------------------------------------------- which requests to trust

  /** The fast path from list position `i` on: every plane it searches in vain, before it meets
      one with a fit, has no free bit that makes the search wrap. */
  ghost predicate FastTrusted(a: Allocator, size: nat, kind: nat, i: nat)
    requires Flat(a) && i <= |a.lru|
    decreases |a.lru| - i
  {
    if i == |a.lru| then true
    else
      var x := a.lru[i];
      var used := PlaneOf(a, x).used;
      if a.regions[x].kind != kind || a.regions[x].freeBytes < size || CountFree(used) < size
      then FastTrusted(a, size, kind, i + 1)
      else HasFit(used, size) || (WrapSafe(used, size) && FastTrusted(a, size, kind, i + 1))
  }

  /** No listed region from position `i` on that the fast path would search has a fit. */
  ghost predicate FastMisses(a: Allocator, size: nat, kind: nat, i: nat)
    requires Flat(a)
  {
    forall k | i <= k < |a.lru| && a.regions[a.lru[k]].kind == kind && size <= a.regions[a.lru[k]].freeBytes ::
      !HasFit(PlaneOf(a, a.lru[k]).used, size)
  }

  /** The region that a promotion would choose has a fit, or no free bit that makes it wrap. */
  ghost predicate PromotionTrusted(a: Allocator, size: nat, kind: nat, hint: nat)
    requires Flat(a)
  {
    var best := ChooseBest(a, size, kind, hint);
    PlanesNeeded(a, size) <= a.maxYPromotions && best.Some? ==>
      var used := PlaneOf(a, best.value).used; HasFit(used, size) || WrapSafe(used, size)
  }

  /** The condition, on the bitmaps as they stand, under which a request is answered rightly. */
  ghost predicate Trusted(a: Allocator, size: nat, kind: nat, hint: nat)
    requires Flat(a)
  {
    && FastTrusted(a, size, kind, 0)
    && (FastMisses(a, size, kind, 0) ==> PromotionTrusted(a, size, kind, hint))
  }

  /** Empty requests search nothing. */
  ghost predicate TrustedRequest(a: Allocator, size: nat, kind: nat, hint: nat) {
    Flat(a) && (size > 0 ==> Trusted(a, size, kind, hint))
  }

  /** The search of a single plane that has the free bytes. */
  lemma {:induction false} SearchExact(used: seq<bool>, size: nat)
    requires 0 < size <= CountFree(used) && |used| < U16
    ensures HasFit(used, size) ==> Search(used, size).Found? && IsFirstFit(used, size, Search(used, size).start)
    ensures !HasFit(used, size) ==> (Search(used, size) == NotFound <==> WrapSafe(used, size))
  {
    hide Search, CountFree, WrapSafe;
    if p: nat :| IsFit(used, size, p) {
      var z := LeastFit(used, size, p);
      FindsFirstFit(used, size, z);
    } else {
      FailsIffWrapSafe(used, size);
    }
  }

  /** Trust in the fast path is exactly what makes it answer rightly: it misses, and then nothing
      listed fits, or it hits a first fit. */
  lemma {:induction false} FastScanExact(a: Allocator, size: nat, kind: nat, i: nat)
    requires Flat(a) && i <= |a.lru| && size > 0
    ensures var h := FastScan(a, size, kind, i);
      && (FastTrusted(a, size, kind, i) <==>
            h.Miss? || (h.Hit? && IsFirstFit(a.regions[h.x].planes[h.plane].used, size, h.start)))
      && (h.Hit? && !FastTrusted(a, size, kind, i) ==> !IsFit(a.regions[h.x].planes[h.plane].used, size, h.start))
      && (h.Miss? ==> FastMisses(a, size, kind, i))
      && (h.Hit? ==> FastTrusted(a, size, kind, i) ==> !FastMisses(a, size, kind, i))
    decreases |a.lru| - i
  {
    hide Search, CountFree, WrapSafe, Shaped;
    if i < |a.lru| {
      FastScanExact(a, size, kind, i + 1);
      var x := a.lru[i];
      var used := PlaneOf(a, x).used;
      assert |used| < U16 by { PlaneLength(a, x); }
      FitNeedsRoom(used, size);
      if size <= CountFree(used) { SearchExact(used, size); }
      assert FindSpot(a.regions[x].planes, size, 1) == Nowhere;
      if HasFit(used, size) && a.regions[x].kind == kind && size <= a.regions[x].freeBytes {
        assert !FastMisses(a, size, kind, i);
      }
    }
  }

  lemma {:induction false} PlaneLength(a: Allocator, x: nat)
    requires Flat(a) && x in a.regions
    ensures |PlaneOf(a, x).used| == |PlaneOf(a, x).data| == a.planeSize < U16 && PlaneOf(a, x).id == 0
  {
  }

  /** A promotion within one plane is one search. */
  lemma {:induction false} PromoteOnePlane(a: Allocator, x: nat, size: nat, kind: nat, flags: nat)
    requires Flat(a) && x in a.regions && 0 < size <= CountFree(PlaneOf(a, x).used)
    ensures var y, p := PromoteIn(a, x, size, kind, flags), PlaneOf(a, x);
      match Search(p.used, size)
      case NotFound => y == Attempt(a, None)
      case Panics => y.result == Some(Crashed)
      case Found(z) =>
        var alloc := Scattered(a.nextAlloc + 1, x, size, kind, flags, [Fragment(0, z, size, true)]);
        y == Attempt(Install(a, x, Booked(a.regions[x], [Enter(Occupy(p, z, size), alloc)], size)), Some(Ok(alloc)))
  {
    hide Search, CountFree, Occupy, Promote, Booked;
    PlaneLength(a, x);
    var r, p := a.regions[x], PlaneOf(a, x);
    var c := Carving(r.planes, [], size, false);
    assert r.planes == [p] && Min(p.FreeBytes(), size) == size;
    match Search(p.used, size)
    case NotFound =>
      assert Carve(c, 1) == c && Carve(c, 0) == c;
      assert a.regions[x := r] == a.regions;
    case Panics =>
    case Found(z) =>
      var d := CarveInto(c, 0, z, size);
      assert d.fragments == [Fragment(0, z, size, true)] && d.remaining == 0;
      assert Carve(c, 0) == Carve(d, 1) == d;
      assert d.planes == [Occupy(p, z, size)];
      OccupyKeepsId(p, z, size);
      assert FindPlane(d.planes, 0) == 0;
      var alloc := Scattered(a.nextAlloc + 1, x, size, kind, flags, d.fragments);
      assert EnterFirst(d.planes, alloc) == [Enter(Occupy(p, z, size), alloc)];
  }

  lemma {:induction false} OccupyKeepsId(p: Plane, z: nat, n: nat)
    ensures Occupy(p, z, n).id == p.id
  {
  }

  lemma {:induction false} PromotedTook(a: Allocator, x: nat, size: nat, kind: nat, flags: nat, z: nat)
    requires Flat(a) && x in a.regions && a.regions[x].kind == kind && size > 0
    requires IsFirstFit(PlaneOf(a, x).used, size, z)
    ensures var p := PlaneOf(a, x);
      var alloc := Scattered(a.nextAlloc + 1, x, size, kind, flags, [Fragment(0, z, size, true)]);
      Took(a, Install(a, x, Booked(a.regions[x], [Enter(Occupy(p, z, size), alloc)], size)), alloc, size, kind)
  {
    hide Promote, OccupyAll, Booked;
    PlaneLength(a, x);
    var r, p, f := a.regions[x], PlaneOf(a, x), Fragment(0, z, size, true);
    assert r.planes == [p];
    assert IsFit(p.used, size, z);
    OccupyOne(r.planes, f);
    assert [f][..0] == [];
    assert SizeSum([f]) == SizeSum([f][..0]) + f.size;
    FindPlaneByPosition(OccupyAll(r.planes, [f]), 0, a.planeSize);
    BookedPlanes(r, [Enter(Occupy(p, z, size), Scattered(a.nextAlloc + 1, x, size, kind, flags, [f]))], size);
  }

  lemma {:induction false} BestOnePlane(a: Allocator, x: nat, size: nat, kind: nat)
    requires Flat(a) && Best(a, x, size, kind)
    ensures x in a.regions && a.regions[x].kind == kind && |a.regions[x].planes| == 1
    ensures size <= CountFree(PlaneOf(a, x).used)
  {
    var planes := a.regions[x].planes;
    assert planes[..0] == [];
    assert TotalFree(planes) == TotalFree(planes[..0]) + planes[0].FreeBytes();
  }

  /** What a trusted promotion does: takes a first fit, or changes nothing. */
  lemma {:induction false} PromotionEffect(a: Allocator, size: nat, kind: nat, flags: nat, hint: nat)
    requires Flat(a) && size > 0 && PromotionTrusted(a, size, kind, hint)
    ensures var y := TryYPromotion(a, size, kind, flags, hint);
      match y.result
      case None => y.a == a
      case Some(Ok(alloc)) => Took(a, y.a, alloc, size, kind)
      case _ => false
  {
    hide Flat, PromoteIn, Best, PlanesNeeded, Took, HasFit, WrapSafe, CountFree, Search, Booked, Promote;
    assert a.planeSize > 0 by { FlatConfig(a); }
    var best := ChooseBest(a, size, kind, hint);
    if PlanesNeeded(a, size) <= a.maxYPromotions && best.Some? {
      var x := best.value;
      BestOnePlane(a, x, size, kind);
      PlaneLength(a, x);
      SearchExact(PlaneOf(a, x).used, size);
      PromoteOnePlane(a, x, size, kind, flags);
      var found := Search(PlaneOf(a, x).used, size);
      if found.Found? { PromotedTook(a, x, size, kind, flags, found.start); }
    }
  }

  lemma {:induction false} FlatConfig(a: Allocator)
    requires Flat(a)
    ensures 0 < a.planeSize < U16 && WellFormed(a)
  {
  }

  lemma {:induction false} FastTook(a: Allocator, size: nat, kind: nat, x: nat, j: nat, z: nat)
    requires Flat(a) && size > 0 && x in a.regions && a.regions[x].kind == kind && j < |a.regions[x].planes|
    requires IsFirstFit(a.regions[x].planes[j].used, size, z)
    ensures var r := a.regions[x];
      var alloc := Simple(a, Address(x, r.planes[j].id, z), size, kind, 0);
      Took(a, Install(a, x, PlaceAt(r, j, alloc)), alloc, size, kind)
  {
    hide Promote, PlaceAt, Placed, IsFirstFit;
    var r := a.regions[x];
    var alloc := Simple(a, Address(x, r.planes[j].id, z), size, kind, 0);
    PlaceAtIsPlaced(r, j, alloc, a.planeSize);
    PlaceAtBooks(r, j, alloc);
  }

  /** The net effect of a trusted request: it takes free space in one region, or fails because it
      exceeds a plane and leaves an empty region; it never panics. */
  lemma {:induction false} TrustedEffect(a: Allocator, size: nat, kind: nat, flags: nat, hint: nat)
    requires Flat(a) && size > 0 && Trusted(a, size, kind, hint)
    ensures a.planeSize > 0
    ensures var s := Allocate(a, size, kind, flags, hint);
      match s.outcome
      case Ok(alloc) => Took(a, s.a, alloc, size, kind)
      case Failed => size > a.planeSize && Left(a, s.a, kind)
      case Crashed => false
  {
    hide Flat, FastScan, FastTrusted, FastMisses, PromotionTrusted, TryYPromotion, AllocateNewRegion, Took, Left,
      Install,
      PlaceAt, IsFirstFit;
    FlatConfig(a);
    FastScanExact(a, size, kind, 0);
    var h := FastScan(a, size, kind, 0);
    if h.Hit? {
      FastTook(a, size, kind, h.x, h.plane, h.start);
    } else {
      PromotionEffect(a, size, kind, flags, hint);
      NewRegionEffect(a, size, kind, flags);
    }
  }

  /** What the VM sees of an allocation of positive size: it succeeds exactly when the size fits
      in a plane, it is never Y-promoted, and it takes the first free run of its size in the only
      plane of some region; a refused one leaves an empty region behind. */
  lemma {:induction false} AllocateInFlat(a: Allocator, size: nat, kind: nat, flags: nat, hint: nat)
    requires Flat(a) && 0 < size < U32 && Trusted(a, size, kind, hint)
    ensures var s := Allocate(a, size, kind, flags, hint);
      match s.outcome
      case Ok(alloc) =>
        var x, z := alloc.addr.x, alloc.addr.z;
        && size <= a.planeSize && alloc.size == size && !alloc.IsYPromoted() && alloc.addr.y == 0 && x > 0
        && IsFirstFit(PlaneFor(a, x).used, size, z) && z + size <= a.planeSize
        && (x !in a.regions ==> x == a.nextRegion + 1)
        && Changed(a, s.a, x, Enter(Occupy(PlaneFor(a, x), z, size), alloc))
      case Failed => size > a.planeSize && Changed(a, s.a, a.nextRegion + 1, FreshPlane(0, a.planeSize))
      case Crashed => false
  {
    hide Allocate, Placed, Promote, IsFirstFit, Shaped, Occupy, FreshRegion, Trusted;
    TrustedEffect(a, size, kind, flags, hint);
    var s := Allocate(a, size, kind, flags, hint);
    match s.outcome
    case Failed =>
      FreshRegionShape(a.nextRegion + 1, kind, a.planeSize);
      LeftIsFlat(a, s.a, kind);
    case Ok(alloc) =>
      var x := alloc.addr.x;
      if x !in a.regions { FreshRegionShape(x, kind, a.planeSize); }
      PlacedInOnePlane(Base(a, x, kind).planes, s.a.regions[x].planes, alloc, a.planeSize);
      TookIsFlat(a, s.a, alloc, size, kind);
  }

  lemma {:induction false} LeftIsFlat(a: Allocator, b: Allocator, kind: nat)
    requires Flat(a) && Left(a, b, kind)
    ensures Flat(b) && b.planeSize == a.planeSize
  {
    hide Shaped, FreshRegion;
    FreshRegionShape(a.nextRegion + 1, kind, a.planeSize);
  }

  lemma {:induction false} TookIsFlat(a: Allocator, b: Allocator, alloc: Allocation, size: nat, kind: nat)
    requires Flat(a) && Took(a, b, alloc, size, kind) && |b.regions[alloc.addr.x].planes| == 1
    ensures Flat(b) && b.planeSize == a.planeSize
  {
    hide Shaped, FreshRegion, Placed, Promote;
    var x := alloc.addr.x;
    var base := Base(a, x, kind);
    if x !in a.regions { FreshRegionShape(x, kind, a.planeSize); }
    PlacedShape(base.planes, b.regions[x].planes, alloc, a.planeSize);
    PromoteMembers(a.lru, x, b.regions.Keys);
  }

  /** An empty request changes no byte of any plane's use: it fails, or it files a handle for the
      zero address under start 0 of some plane. */
  lemma {:induction false} AllocateNothing(a: Allocator, kind: nat, flags: nat, hint: nat)
    requires Flat(a)
    ensures var s := Allocate(a, 0, kind, flags, hint);
      match s.outcome
      case Ok(alloc) =>
        && alloc.addr == Address(0, 0, 0) && alloc.size == 0 && alloc.fragments == []
        && exists x :: x in a.regions && Changed(a, s.a, x, Enter(PlaneOf(a, x), alloc))
      case Failed => Changed(a, s.a, a.nextRegion + 1, FreshPlane(0, a.planeSize))
      case Crashed => false
  {
    hide Allocate, AnyRoom, Promote, Shaped, FreshRegion, Debit, PlanesNeeded, PlanesWithFree, TotalFree;
    ZeroEffect(a, kind, flags, hint);
    var s := Allocate(a, 0, kind, flags, hint);
    if AnyRoom(a, kind) {
      var x :| Best(a, x, 0, kind) &&
        s.a == Install(a, x, Booked(a.regions[x], EnterFirst(a.regions[x].planes, s.outcome.alloc), 0));
      FindPlaneByPosition(a.regions[x].planes, 0, a.planeSize);
      EnterKeepsShape(a.regions[x].planes, s.outcome.alloc, a.planeSize);
      PromoteMembers(a.lru, x, s.a.regions.Keys);
      assert Changed(a, s.a, x, Enter(PlaneOf(a, x), s.outcome.alloc));
    } else {
      FreshRegionShape(a.nextRegion + 1, kind, a.planeSize);
      LeftIsFlat(a, s.a, kind);
    }
  }

  lemma {:induction false} EnterKeepsShape(planes: seq<Plane>, alloc: Allocation, planeSize: nat)
    requires Shaped(planes, planeSize)
    ensures Shaped(EnterFirst(planes, alloc), planeSize)
  {
  }

  /** Freeing a block that a flat allocator knows clears exactly what its map entry says. */
  lemma {:induction false} FreeInFlat(a: Allocator, alloc: Allocation)
    requires Flat(a) && !alloc.IsYPromoted()
    requires alloc.addr.x in a.regions && alloc.addr.y == 0
    ensures var x, z := alloc.addr.x, alloc.addr.z;
      match Free(a, alloc)
      case None => z !in PlaneOf(a, x).allocs
      case Some(b) => z in PlaneOf(a, x).allocs && b.regions.Keys == a.regions.Keys
                      && Changed(a, b, x, PlaneFree(PlaneOf(a, x), z).value)
  {
    var r := a.regions[alloc.addr.x];
    FindPlaneByPosition(r.planes, 0, a.planeSize);
  }
}
