/** The net effect of an allocation, whichever of the three paths served it. */
module Effects {
  import opened FirstFit
  import opened Model
  import opened Placement

  ghost predicate WellFormed(a: Allocator) {
    && 0 < a.planeSize < U16
    && (forall x | x in a.regions ::
          && a.regions[x].id == x && 0 < x <= a.nextRegion
          && |a.regions[x].planes| < U32
          && Shaped(a.regions[x].planes, a.planeSize))
    && (forall i | 0 <= i < |a.lru| :: a.lru[i] in a.regions)
  }

  ghost predicate AllTame(planes: seq<Plane>) {
    forall i | 0 <= i < |planes| :: Tame(planes[i].used)
  }

  ghost predicate AllPrefix(planes: seq<Plane>) {
    forall i | 0 <= i < |planes| :: Prefix(planes[i].used)
  }

  /** What a rollback relies on: no map entry sits at a free position, unless there is nothing
      ever to roll back because there is a single plane or all planes are prefixes. */
  ghost predicate KeysTaken(planes: seq<Plane>) {
    || |planes| <= 1
    || AllPrefix(planes)
    || forall i, z | 0 <= i < |planes| && z in planes[i].allocs :: z < |planes[i].used| && planes[i].used[z]
  }

  ghost predicate Ready(a: Allocator) {
    && WellFormed(a)
    && forall x | x in a.regions :: AllTame(a.regions[x].planes) && KeysTaken(a.regions[x].planes)
  }

  /** `after` is `before` with the allocation's pieces taken out of wholly free space, and its
      handle filed under its first piece. */
  ghost predicate Placed(before: seq<Plane>, after: seq<Plane>, alloc: Allocation, planeSize: nat) {
    var pieces := Pieces(alloc);
    && InOrder(pieces, |before|, planeSize) && Vacant(before, pieces)
    && SizeSum(pieces) == alloc.size
    && alloc.addr.y == pieces[0].plane && alloc.addr.z == pieces[0].start
    && after == EnterFirst(OccupyAll(before, pieces), alloc)
  }

  /** The region an allocation went to, as it was before; a new one if it was not there. */
  function Base(a: Allocator, x: nat, kind: nat): Region {
    if x in a.regions then a.regions[x] else FreshRegion(x, kind, a.planeSize)
  }

  /** A successful allocation changes exactly one region, where it is placed. */
  ghost predicate Took(a: Allocator, b: Allocator, alloc: Allocation, size: nat, kind: nat) {
    var x := alloc.addr.x;
    && alloc.size == size && alloc.kind == kind && Base(a, x, kind).kind == kind
    && (x !in a.regions ==> x == a.nextRegion + 1)
    && x in b.regions
    && Placed(Base(a, x, kind).planes, b.regions[x].planes, alloc, a.planeSize)
    && b == a.(regions := a.regions[x := Booked(Base(a, x, kind), b.regions[x].planes, size)],
               nextRegion := if x in a.regions then a.nextRegion else x,
               nextAlloc := a.nextAlloc + 1,
               lru := Promote(a.lru, x, true))
  }

  /** A failed allocation still registers one empty region. */
  ghost predicate Left(a: Allocator, b: Allocator, kind: nat) {
    var x := a.nextRegion + 1;
    b == a.(nextRegion := x, regions := a.regions[x := FreshRegion(x, kind, a.planeSize)])
  }

  lemma {:induction false} FreshRegionShape(x: nat, kind: nat, planeSize: nat)
    requires planeSize < U16
    ensures var r := FreshRegion(x, kind, planeSize);
            && r.id == x && r.kind == kind && r.planes == [FreshPlane(0, planeSize)]
            && Shaped(r.planes, planeSize) && KeysTaken(r.planes) && AllTame(r.planes)
            && r.freeBytes == TotalFree(r.planes) == planeSize && r.totalBytes == planeSize && r.allocCount == 0
            && r.planes[0].FreeBytes() == planeSize && r.planes[0].allocs == map[]
            && (forall q | 0 <= q < planeSize :: !r.planes[0].used[q] && r.planes[0].data[q] == 0)
  {
    var p := FreshPlane(0, planeSize);
    CountFreeAllFree(p.used);
    PrefixIsTame(p.used);
    assert TotalFree([p]) == TotalFree([p][..0]) + p.FreeBytes();
  }

  /** A spot found under the free-count guard is a free run. */
  lemma {:induction false} SpotFits(planes: seq<Plane>, size: nat, j: nat, s: Spot)
    requires AllTame(planes) && j <= |planes| && s == FindSpot(planes, size, j)
    ensures s.At? ==> size > 0 && IsFirstFit(planes[s.plane].used, size, s.start)
    ensures s.Broken? ==> false
    decreases |planes| - j
  {
    if j < |planes| {
      if planes[j].FreeBytes() >= size && size > 0 {
        assert Right(planes[j].used, size);
      }
      if planes[j].FreeBytes() < size || Search(planes[j].used, size) == NotFound {
        SpotFits(planes, size, j + 1, s);
      }
    }
  }

  lemma {:induction false} OccupyOne(planes: seq<Plane>, f: Fragment)
    requires f.plane < |planes| && f.start + f.size < U16
    ensures OccupyAll(planes, [f]) == planes[f.plane := Occupy(planes[f.plane], f.start, f.size)]
  {
    hide OccupyAll;
    assert [] + [f] == [f];
    OccupyNone(planes);
    OccupyOneMore(planes, [], f);
  }

  lemma {:induction false} PlaceAtIsPlaced(r: Region, j: nat, alloc: Allocation, planeSize: nat)
    requires Shaped(r.planes, planeSize) && planeSize < U16 && j < |r.planes|
    requires alloc.fragments == [] && alloc.addr.y == j && alloc.size > 0
    requires IsFirstFit(r.planes[j].used, alloc.size, alloc.addr.z)
    ensures Placed(r.planes, PlaceAt(r, j, alloc).planes, alloc, planeSize)
  {
    hide OccupyAll, OccupyPiece;
    var f := Fragment(j, alloc.addr.z, alloc.size, true);
    OccupyOne(r.planes, f);
    assert [f][..0] == [];
    assert SizeSum([f]) == SizeSum([f][..0]) + f.size;
    var mid := OccupyAll(r.planes, [f]);
    assert mid[j].id == j;
    assert FindPlane(mid, j) == j;
  }

  lemma {:induction false} PlaceAtBooks(r: Region, j: nat, alloc: Allocation)
    requires j < |r.planes|
    ensures PlaceAt(r, j, alloc) == Booked(r, PlaceAt(r, j, alloc).planes, alloc.size)
  {
  }

  lemma {:induction false} FastHit(a: Allocator, size: nat, kind: nat, i: nat)
    requires Ready(a) && i <= |a.lru|
    ensures var h := FastScan(a, size, kind, i);
            && !h.Boom?
            && (h.Hit? ==> size > 0 && IsFirstFit(a.regions[h.x].planes[h.plane].used, size, h.start))
    decreases |a.lru| - i
  {
    if i < |a.lru| {
      var x := a.lru[i];
      SpotFits(a.regions[x].planes, size, 0, FindSpot(a.regions[x].planes, size, 0));
      FastHit(a, size, kind, i + 1);
    }
  }

  lemma {:induction false} FreshSpot(planes: seq<Plane>, size: nat, planeSize: nat)
    requires planes == [FreshPlane(0, planeSize)] && planeSize < U16
    ensures FindSpot(planes, size, 0) == if 0 < size <= planeSize then At(0, 0) else Nowhere
  {
    var p := planes[0];
    CountFreeAllFree(p.used);
    if 0 < size <= planeSize {
      PrefixSearch(p.used, size);
    }
  }

  /** In a one-plane region that has enough free bytes, a failed carving has no fragments. */
  lemma {:induction false} SinglePlaneCarving(planes: seq<Plane>, size: nat, planeSize: nat)
    requires |planes| <= 1 && Shaped(planes, planeSize) && AllTame(planes) && planeSize < U16
    requires size <= TotalFree(planes)
    ensures var c := Carve(Carving(planes, [], size, false), 0); c.remaining > 0 ==> c.fragments == []
  {
    if |planes| == 1 {
      assert TotalFree(planes) == TotalFree(planes[..0]) + planes[0].FreeBytes();
    }
  }

  lemma {:induction false} TotalFreeCons(planes: seq<Plane>)
    requires planes != []
    ensures TotalFree(planes) == planes[0].FreeBytes() + TotalFree(planes[1..])
  {
    var n := |planes| - 1;
    if n > 0 {
      TotalFreeCons(planes[..n]);
      assert planes[..n][1..] == planes[1..][..n - 1];
    } else {
      assert planes[..0] == [] && planes[1..] == [];
    }
  }

  lemma {:induction false} TotalFreeFrom(planes: seq<Plane>, j: nat)
    requires j < |planes|
    ensures TotalFree(planes[j..]) == planes[j].FreeBytes() + TotalFree(planes[j + 1..])
  {
    var rest := planes[j..];
    TotalFreeCons(rest);
    assert rest[1..] == planes[j + 1..];
  }

  lemma {:induction false} PrefixStep(c: Carving, j: nat, n: nat) returns (z: nat)
    requires j < |c.planes| && !c.crashed && 0 < n == Min(c.planes[j].FreeBytes(), c.remaining)
    requires Prefix(c.planes[j].used) && |c.planes[j].used| < U16
    ensures Carve(c, j) == Carve(CarveInto(c, j, z, n), j + 1)
  {
    hide Search, Prefix, IsFirstFit, CountFree;
    PrefixSearch(c.planes[j].used, n);
    CarveSteps(c, j, n);
    z := |c.planes[j].used| - c.planes[j].FreeBytes();
  }

  /** On prefixes the fragment loop always gets what the free bytes promise, so a promotion
      never rolls back. */
  lemma {:induction false} PrefixCarving(c: Carving, j: nat)
    requires j <= |c.planes| && !c.crashed && c.remaining <= TotalFree(c.planes[j..])
    requires forall i | j <= i < |c.planes| :: Prefix(c.planes[i].used) && |c.planes[i].used| < U16
    ensures Carve(c, j).remaining == 0 && !Carve(c, j).crashed
    decreases |c.planes| - j
  {
    if j < |c.planes| {
      hide Carve, Search, CountFree, CarveInto, TotalFree, Prefix, IsFirstFit;
      TotalFreeFrom(c.planes, j);
      var n := Min(c.planes[j].FreeBytes(), c.remaining);
      if n == 0 {
        CarveStops(c, j);
        PrefixCarving(c, j + 1);
      } else {
        var z := PrefixStep(c, j, n);
        CarveIntoRest(c, j, z, n);
        PrefixCarving(CarveInto(c, j, z, n), j + 1);
      }
    } else {
      assert c.planes[j..] == [];
    }
  }

  lemma {:induction false} CarveIntoRest(c: Carving, j: nat, z: nat, n: nat)
    requires j < |c.planes| && n <= c.remaining
    ensures |CarveInto(c, j, z, n).planes| == |c.planes|
    ensures forall i | j < i < |c.planes| :: CarveInto(c, j, z, n).planes[i] == c.planes[i]
    ensures CarveInto(c, j, z, n).planes[j + 1..] == c.planes[j + 1..]
    ensures CarveInto(c, j, z, n).remaining == c.remaining - n && !CarveInto(c, j, z, n).crashed
  {
  }

  /** The fragment loop of a promotion: pieces out of wholly free space in planes of increasing
      position; when it falls short, the rollback restores every plane. */
  lemma {:induction false} CarvingOutcome(planes: seq<Plane>, size: nat, planeSize: nat)
    requires Shaped(planes, planeSize) && planeSize < U16 && AllTame(planes) && KeysTaken(planes)
    requires size <= TotalFree(planes)
    ensures var c := Carve(Carving(planes, [], size, false), 0);
            && !c.crashed && SizeSum(c.fragments) + c.remaining == size
            && InOrder(c.fragments, |planes|, planeSize) && Vacant(planes, c.fragments)
            && c.planes == OccupyAll(planes, c.fragments)
            && (c.remaining > 0 ==> Rollback(c.planes, c.fragments) == planes)
  {
    hide Carve, OccupyAll, Rollback, TotalFree;
    var start := Carving(planes, [], size, false);
    OccupyNone(planes);
    CarveSpec(planes, start, 0, size, planeSize);
    var c := Carve(start, 0);
    if AllPrefix(planes) {
      assert planes[0..] == planes;
      PrefixCarving(start, 0);
    } else if c.remaining > 0 {
      if |planes| <= 1 {
        SinglePlaneCarving(planes, size, planeSize);
      } else {
        forall k | 0 <= k < |c.fragments| ensures c.fragments[k].start !in planes[c.fragments[k].plane].allocs {
          assert IsFirstFit(planes[c.fragments[k].plane].used, c.fragments[k].size, c.fragments[k].start);
        }
      }
      RollbackRestores(planes, c.fragments, planeSize);
    }
  }

  /** Y-promotion takes all of its pieces or changes nothing, on every region whose searches
      are right. */
  lemma {:induction false} AllOrNothing(a: Allocator, x: nat, size: nat, kind: nat, flags: nat)
    requires Ready(a) && x in a.regions && a.regions[x].kind == kind
    requires 0 < size <= TotalFree(a.regions[x].planes)
    ensures var y := PromoteIn(a, x, size, kind, flags);
            match y.result
            case None => y.a == a
            case Some(Ok(alloc)) => alloc.addr.x == x && alloc.fragments != [] && Took(a, y.a, alloc, size, kind)
            case _ => false
  {
    hide Carve, Rollback, OccupyAll;
    var r := a.regions[x];
    CarvingOutcome(r.planes, size, a.planeSize);
    var c := Carve(Carving(r.planes, [], size, false), 0);
    if c.remaining > 0 {
      assert a.regions[x := r] == a.regions;
    } else {
      assert SizeSum([]) == 0;
    }
  }

  /** Some region beats all others, if any is eligible. */
  lemma {:induction false} BestExists(a: Allocator, size: nat, kind: nat, x: nat) returns (best: nat)
    requires a.planeSize > 0 && Eligible(a, x, size, kind)
    ensures Best(a, best, size, kind)
  {
    best := BestAmong(a, size, kind, x, a.regions.Keys);
  }

  lemma {:induction false} BestAmong(a: Allocator, size: nat, kind: nat, x: nat, keys: set<nat>) returns (best: nat)
    requires a.planeSize > 0 && Eligible(a, x, size, kind)
    ensures Eligible(a, best, size, kind)
    ensures TotalFree(a.regions[x].planes) <= TotalFree(a.regions[best].planes)
    ensures forall y | y in keys && Eligible(a, y, size, kind) ::
              TotalFree(a.regions[y].planes) <= TotalFree(a.regions[best].planes)
    decreases keys
  {
    best := x;
    if keys != {} {
      var y :| y in keys;
      best := BestAmong(a, size, kind, x, keys - {y});
      if Eligible(a, y, size, kind) && TotalFree(a.regions[y].planes) > TotalFree(a.regions[best].planes) {
        best := y;
      }
    }
  }

  /** The net effect of `allocateSync` for a positive size: it takes the space in one region, or
      fails and leaves an empty region behind; it never panics. */
  lemma {:induction false} AllocateEffect(a: Allocator, size: nat, kind: nat, flags: nat, hint: nat)
    requires Ready(a) && size > 0
    ensures var s := Allocate(a, size, kind, flags, hint);
            match s.outcome
            case Ok(alloc) => Took(a, s.a, alloc, size, kind)
            case Failed => size > a.planeSize && Left(a, s.a, kind)
            case Crashed => false
  {
    FastHit(a, size, kind, 0);
    match FastScan(a, size, kind, 0)
    case Hit(x, j, z) =>
      var r := a.regions[x];
      var alloc := Simple(a, Address(x, r.planes[j].id, z), size, kind, 0);
      PlaceAtIsPlaced(r, j, alloc, a.planeSize);
    case Miss =>
      var y := TryYPromotion(a, size, kind, flags, hint);
      if PlanesNeeded(a, size) <= a.maxYPromotions {
        match ChooseBest(a, size, kind, hint)
        case Some(x) => AllOrNothing(a, x, size, kind, flags);
        case None =>
      }
      if y.result.None? {
        NewRegionEffect(a, size, kind, flags);
      }
  }

  lemma {:induction false} NewRegionEffect(a: Allocator, size: nat, kind: nat, flags: nat)
    requires WellFormed(a) && size > 0
    ensures var s := AllocateNewRegion(a, size, kind, flags);
            match s.outcome
            case Ok(alloc) => size <= a.planeSize && alloc.addr == Address(a.nextRegion + 1, 0, 0)
                              && Took(a, s.a, alloc, size, kind)
            case Failed => size > a.planeSize && Left(a, s.a, kind)
            case Crashed => false
  {
    hide FreshRegion, FindSpot, Placed, PlaceAt;
    var x := a.nextRegion + 1;
    FreshRegionShape(x, kind, a.planeSize);
    var r := FreshRegion(x, kind, a.planeSize);
    FreshSpot(r.planes, size, a.planeSize);
    if size <= a.planeSize {
      var alloc := Simple(a, Address(x, 0, 0), size, kind, flags);
      assert IsFirstFit(r.planes[0].used, size, 0);
      PlaceAtIsPlaced(r, 0, alloc, a.planeSize);
      PlaceAtBooks(r, 0, alloc);
      assert a.regions[x := r][x := PlaceAt(r, 0, alloc)] == a.regions[x := PlaceAt(r, 0, alloc)];
    }
  }

  /** The flags of a request survive exactly when the fast path does not serve it, or there are
      none. */
  lemma {:induction false} FlagsSurviveIff(a: Allocator, size: nat, kind: nat, flags: nat, hint: nat)
    requires a.planeSize > 0 && Allocate(a, size, kind, flags, hint).outcome.Ok?
    ensures Allocate(a, size, kind, flags, hint).outcome.alloc.flags == flags
       <==> flags == 0 || !FastScan(a, size, kind, 0).Hit?
  {
    hide FastScan, FindSpot, Carve, Rollback, ChooseBest, PlaceAt, FreshRegion, Promote, EnterFirst, Booked;
  }

  /** What every grant carries: the size and type asked for and the next ID, which is used up. */
  lemma {:induction false} GrantedParts(a: Allocator, size: nat, kind: nat, flags: nat, hint: nat)
    requires a.planeSize > 0 && Allocate(a, size, kind, flags, hint).outcome.Ok?
    ensures var s := Allocate(a, size, kind, flags, hint);
      && s.outcome.alloc.size == size && s.outcome.alloc.kind == kind
      && s.outcome.alloc.id == a.nextAlloc + 1 == s.a.nextAlloc
  {
    hide FastScan, FindSpot, Carve, Rollback, ChooseBest, PlaceAt, FreshRegion, Promote, EnterFirst, Booked;
  }

  /** More than a plane holds cannot be served by the fast path. */
  lemma {:induction false} TooLargeForOnePlane(a: Allocator, size: nat, kind: nat)
    requires Ready(a) && size > a.planeSize
    ensures FastScan(a, size, kind, 0).Miss?
  {
    hide AllTame, KeysTaken;
    FastHit(a, size, kind, 0);
  }
}
