/** Runs of the allocator: every interleaving of its operations, which the allocator's mutex
    serialises. */
module Runs {
  import opened FirstFit
  import opened Model
  import opened Placement
  import opened Effects
  import opened Layout
  import opened Invariant
  import opened Handles

  datatype Action =
    | DoAllocate(size: nat, kind: nat, flags: nat, hint: nat)
    | DoAllocateIn(x: nat, size: nat, flags: nat)
    | DoGrow(x: nat)
    | DoFree(alloc: Allocation)

  /** What callers can ask for: sizes of 32 bits, registered regions with room for another
      plane ID, any handle, live or stale. */
  ghost predicate Allowed(a: Allocator, act: Action) {
    match act
    case DoAllocate(size, _, _, _) => size < U32
    case DoAllocateIn(x, size, _) => x in a.regions && |a.regions[x].planes| + 1 < U32 && size < U32
    case DoGrow(x) => x in a.regions && |a.regions[x].planes| + 1 < U32
    case DoFree(alloc) => alloc.size < U32
  }

  /** The state after an operation, and whether the process survived it. */
  ghost function Act(a: Allocator, act: Action): (s: Step)
    requires a.planeSize > 0 && Allowed(a, act)
    ensures s.a.planeSize == a.planeSize
  {
    match act
    case DoAllocate(size, kind, flags, hint) => Allocate(a, size, kind, flags, hint)
    case DoAllocateIn(x, size, flags) => AllocateInRegion(a, x, size, flags)
    case DoGrow(x) => Step(GrowRegion(a, x), Failed)
    case DoFree(alloc) =>
      match Free(a, alloc)
      case Some(b) => Step(b, Failed)
      case None => Step(a, Failed)
  }

  /** The calls that break the invariant: an empty request while some region of the type has
      room, and a free that removes a Y-promoted entry, one of another size, several or none. */
  ghost predicate Benign(a: Allocator, act: Action) {
    match act
    case DoAllocate(size, kind, _, _) => size > 0 || !AnyRoom(a, kind)
    case DoFree(alloc) => Harmless(a, alloc)
    case _ => true
  }

  // ----------------------------------------------------------------- growing a region

  lemma {:induction false} GrownOwns(planes: seq<Plane>, size: nat, c: Claim, i: nat, p: nat)
    ensures Owns(planes + [FreshPlane(|planes|, size)], c, i, p) <==> Owns(planes, c, i, p)
  {
  }

  lemma {:induction false} GrowKeepsRegion(r: Region, planeSize: nat)
    requires RegionInv(r, planeSize) && 0 < planeSize < U16
    ensures RegionInv(AddPlane(r, FreshPlane(|r.planes|, planeSize)), planeSize)
  {
    hide Owns, TotalFree, LiveCount, EntriesOk;
    var p := FreshPlane(|r.planes|, planeSize);
    var after := r.planes + [p];
    assert after[..|after| - 1] == r.planes;
    CountFreeAllFree(p.used);
    assert TotalFree(after) == TotalFree(r.planes) + planeSize by { TotalFreeSnoc(r.planes, p); }
    assert LiveCount(after) == LiveCount(r.planes) by { LiveCountSnoc(r.planes, p); }
    PlusMod(TotalFree(r.planes), planeSize);
    PlusMod(|r.planes| * planeSize, planeSize);
    MulSucc(|r.planes|, planeSize);
    GrowKeepsTiled(r.planes, planeSize);
    GrowKeepsEntries(r.planes, r.id, planeSize);
  }

  lemma {:induction false} TotalFreeSnoc(planes: seq<Plane>, p: Plane)
    ensures TotalFree(planes + [p]) == TotalFree(planes) + p.FreeBytes()
  {
    assert (planes + [p])[..|planes|] == planes;
  }

  lemma {:induction false} LiveCountSnoc(planes: seq<Plane>, p: Plane)
    ensures LiveCount(planes + [p]) == LiveCount(planes) + |p.allocs|
  {
    assert (planes + [p])[..|planes|] == planes;
  }

  lemma {:induction false} GrowKeepsEntries(planes: seq<Plane>, x: nat, planeSize: nat)
    requires EntriesOk(planes, x, planeSize)
    ensures EntriesOk(planes + [FreshPlane(|planes|, planeSize)], x, planeSize)
  {
    var after := planes + [FreshPlane(|planes|, planeSize)];
    forall j, z | 0 <= j < |after| && z in after[j].allocs
      ensures EntryOk(after[j].allocs[z], x, j, z, |after|, planeSize)
    {
      assert EntryOk(planes[j].allocs[z], x, j, z, |planes|, planeSize);
    }
  }

  lemma {:induction false} GrowKeepsTiled(planes: seq<Plane>, planeSize: nat)
    requires Tiled(planes)
    ensures Tiled(planes + [FreshPlane(|planes|, planeSize)])
  {
    hide Owns;
    var after := planes + [FreshPlane(|planes|, planeSize)];
    forall c, i: nat, p: nat ensures Owns(after, c, i, p) <==> Owns(planes, c, i, p) {
      GrownOwns(planes, planeSize, c, i, p);
    }
    assert Complete(after) by {
      forall i, p | 0 <= i < |after| && 0 <= p < |after[i].used| && after[i].used[p] ensures Claimed(after, i, p) {
        assert Claimed(planes, i, p);
        var c :| Owns(planes, c, i, p);
        assert Owns(after, c, i, p);
      }
    }
  }

  lemma {:induction false} GrowKeepsInv(a: Allocator, x: nat)
    requires Inv(a) && x in a.regions && |a.regions[x].planes| + 1 < U32
    ensures Inv(GrowRegion(a, x))
  {
    hide Tiled, EntriesOk, TotalFree, LiveCount;
    GrowKeepsRegion(a.regions[x], a.planeSize);
  }

  /** `AllocateInRegion` takes the space in an existing plane or in one it adds; when it fails,
      the added plane stays. */
  lemma {:induction false} AllocateInEffect(a: Allocator, x: nat, size: nat, flags: nat)
    requires Ready(a) && x in a.regions && |a.regions[x].planes| + 1 < U32
    ensures var s, kind := AllocateInRegion(a, x, size, flags), a.regions[x].kind;
            match s.outcome
            case Ok(alloc) => size > 0 && alloc.addr.x == x
                              && (Took(a, s.a, alloc, size, kind) || Took(GrowRegion(a, x), s.a, alloc, size, kind))
            case Failed => s.a == GrowRegion(a, x) && (size == 0 || size > a.planeSize)
            case Crashed => false
  {
    hide FindSpot, PlaceAt, Placed, AddPlane, IsFirstFit;
    var r := a.regions[x];
    SpotFits(r.planes, size, 0, FindSpot(r.planes, size, 0));
    match FindSpot(r.planes, size, 0)
    case At(j, z) =>
      var alloc := Simple(a, Address(x, r.planes[j].id, z), size, r.kind, flags);
      PlaceAtIsPlaced(r, j, alloc, a.planeSize);
      PlaceAtBooks(r, j, alloc);
    case Nowhere =>
      var j := |r.planes|;
      SmallMod(j, U32);
      var grown := AddPlane(r, FreshPlane(j, a.planeSize));
      GrownSpot(r, size, a.planeSize);
      if 0 < size <= a.planeSize {
        var alloc := Simple(a, Address(x, j, 0), size, r.kind, flags);
        PlaceAtIsPlaced(grown, j, alloc, a.planeSize);
        PlaceAtBooks(grown, j, alloc);
        assert a.regions[x := grown][x := PlaceAt(grown, j, alloc)] == a.regions[x := PlaceAt(grown, j, alloc)];
      }
  }

  lemma {:induction false} GrownSpot(r: Region, size: nat, planeSize: nat)
    requires Shaped(r.planes, planeSize) && planeSize < U16
    ensures var j, grown := |r.planes|, AddPlane(r, FreshPlane(|r.planes|, planeSize));
      && grown.id == r.id && grown.kind == r.kind && |grown.planes| == j + 1 && Shaped(grown.planes, planeSize)
      && FindSpot(grown.planes, size, j) == (if 0 < size <= planeSize then At(j, 0) else Nowhere)
      && (0 < size <= planeSize ==> IsFirstFit(grown.planes[j].used, size, 0))
  {
    var j, p := |r.planes|, FreshPlane(|r.planes|, planeSize);
    var grown := AddPlane(r, p);
    assert grown.planes[j] == p;
    CountFreeAllFree(p.used);
    if 0 < size <= planeSize {
      PrefixSearch(p.used, size);
    }
    assert FindSpot(grown.planes, size, j + 1) == Nowhere;
  }

  // ------------------------------------------------------------------------ one step

  /** Every operation keeps the invariant exactly when it is benign, and none panics. */
  lemma {:induction false} StepKeepsInvIff(a: Allocator, act: Action)
    requires Inv(a) && Tamed(a) && Allowed(a, act)
    ensures Act(a, act).outcome != Crashed
    ensures Inv(Act(a, act).a) <==> Benign(a, act)
  {
    hide Inv, AnyRoom, Allocate, AllocateInRegion, Free, Took, Harmless, Targets;
    match act
    case DoAllocate(size, kind, flags, hint) => AllocateKeepsInvIff(a, size, kind, flags, hint);
    case DoFree(alloc) =>
      FreeKeepsInvIffHarmless(a, alloc);
      if Free(a, alloc).None? { ErrorIsHarmless(a, alloc); }
    case DoGrow(x) => GrowKeepsInv(a, x);
    case DoAllocateIn(x, size, flags) =>
      InvIsReady(a);
      AllocateInEffect(a, x, size, flags);
      GrowKeepsInv(a, x);
      var s := AllocateInRegion(a, x, size, flags);
      if s.outcome.Ok? {
        if Took(a, s.a, s.outcome.alloc, size, a.regions[x].kind) {
          TookKeepsInv(a, s.a, s.outcome.alloc, size, a.regions[x].kind);
        } else {
          TookKeepsInv(GrowRegion(a, x), s.a, s.outcome.alloc, size, a.regions[x].kind);
        }
      }
  }

  // ------------------------------------------------------------------------ whole runs

  /** Every operation of the run is one that callers can ask for. */
  ghost predicate Possible(a: Allocator, acts: seq<Action>)
    requires a.planeSize > 0
    decreases |acts|
  {
    acts == [] ||
    (Allowed(a, acts[0]) && Possible(Act(a, acts[0]).a, acts[1..]))
  }

  /** ... and benign. */
  ghost predicate Lawful(a: Allocator, acts: seq<Action>)
    requires a.planeSize > 0 && Possible(a, acts)
    decreases |acts|
  {
    acts == [] || (Benign(a, acts[0]) && Lawful(Act(a, acts[0]).a, acts[1..]))
  }

  /** The state a run ends in; a panic ends it early. */
  ghost function Run(a: Allocator, acts: seq<Action>): Step
    requires a.planeSize > 0 && Possible(a, acts)
    decreases |acts|
  {
    if acts == [] then Step(a, Failed)
    else if Act(a, acts[0]).outcome == Crashed then Act(a, acts[0])
    else Run(Act(a, acts[0]).a, acts[1..])
  }

  /** Safety over whole runs: with planes of at most 43690 bytes, every run of operations, frees
      included, keeps the layout and the counters exact, and nothing ever panics. */
  lemma {:induction false} RunsAreSafe(a: Allocator, acts: seq<Action>)
    requires Inv(a) && a.planeSize <= SAFE_LENGTH && Possible(a, acts) && Lawful(a, acts)
    ensures Inv(Run(a, acts).a) && Run(a, acts).outcome != Crashed
    decreases |acts|
  {
    if acts != [] {
      hide Inv, Act, Benign;
      assert WellFormed(a) by { InvIsWellFormed(a); }
      SmallPlanesAreTame(a);
      StepKeepsInvIff(a, acts[0]);
      RunsAreSafe(Act(a, acts[0]).a, acts[1..]);
    }
  }

  lemma {:induction false} InvIsWellFormed(a: Allocator)
    requires Inv(a)
    ensures WellFormed(a)
  {
  }

  lemma {:induction false} InitInv(planeSize: nat, maxYPromotions: nat)
    requires 0 < planeSize < U16
    ensures Inv(Init(planeSize, maxYPromotions))
  {
  }

  // --------------------------------------------------------------- runs without frees

  /** Every plane's used bytes form a prefix. */
  ghost predicate PrefixState(a: Allocator) {
    WellFormed(a) && forall x | x in a.regions :: AllPrefix(a.regions[x].planes)
  }

  lemma {:induction false} PrefixIsReady(a: Allocator)
    requires PrefixState(a)
    ensures Ready(a)
  {
    forall x, i | x in a.regions && 0 <= i < |a.regions[x].planes| ensures Tame(a.regions[x].planes[i].used) {
      PrefixIsTame(a.regions[x].planes[i].used);
    }
  }

  /** A promotion attempted on an eligible region always goes through: nothing is rolled back. */
  lemma {:induction false} PromotionNeverRollsBack(a: Allocator, x: nat, size: nat, kind: nat, flags: nat)
    requires PrefixState(a) && x in a.regions && a.regions[x].kind == kind
    requires 0 < size <= TotalFree(a.regions[x].planes)
    ensures PromoteIn(a, x, size, kind, flags).result.Some?
    ensures PromoteIn(a, x, size, kind, flags).result.value.Ok?
  {
    hide Carve, TotalFree, Prefix;
    var planes := a.regions[x].planes;
    assert planes[0..] == planes;
    PrefixCarving(Carving(planes, [], size, false), 0);
  }

  /** The pieces of an allocation start where the used prefixes of their planes end. */
  ghost predicate AtFrontier(planes: seq<Plane>, alloc: Allocation, planeSize: nat) {
    forall k | 0 <= k < |Pieces(alloc)| ::
      var f := Pieces(alloc)[k];
      f.plane < |planes| && f.start == planeSize - planes[f.plane].FreeBytes()
  }

  lemma {:induction false} PlacedKeepsPrefix(before: seq<Plane>, after: seq<Plane>, alloc: Allocation, planeSize: nat)
    requires Shaped(before, planeSize) && planeSize < U16 && AllPrefix(before)
    requires Placed(before, after, alloc, planeSize)
    ensures AllPrefix(after) && AtFrontier(before, alloc, planeSize)
  {
    hide CountFree, Prefix;
    PlacedPlanes(before, after, alloc, planeSize);
    var pieces := Pieces(alloc);
    forall k | 0 <= k < |pieces| ensures pieces[k].start == planeSize - before[pieces[k].plane].FreeBytes() {
      var f := pieces[k];
      FitWithinFree(before[f.plane].used, f.size, f.start);
      PrefixSearch(before[f.plane].used, f.size);
      FirstFitUnique(before[f.plane].used, f.size, f.start, planeSize - before[f.plane].FreeBytes());
    }
    forall i | 0 <= i < |after| ensures Prefix(after[i].used) {
      if k :| 0 <= k < |pieces| && pieces[k].plane == i {
        OccupiedPlane(before, pieces, planeSize, k);
        FitWithinFree(before[i].used, pieces[k].size, pieces[k].start);
        PrefixOccupy(before[i].used, pieces[k].size);
      } else {
        UntouchedPlane(before, pieces, i);
      }
    }
  }

  lemma {:induction false} FirstFitUnique(used: seq<bool>, size: nat, p: nat, q: nat)
    requires IsFirstFit(used, size, p) && IsFirstFit(used, size, q)
    ensures p == q
  {
  }

  lemma {:induction false} OccupiedPlane(planes: seq<Plane>, pieces: seq<Fragment>, planeSize: nat, k: nat)
    requires Shaped(planes, planeSize) && InOrder(pieces, |planes|, planeSize) && k < |pieces|
    ensures var f := pieces[k];
      OccupyPiece(planes[f.plane], pieces, f.plane).used == Mark(planes[f.plane].used, f.start, f.start + f.size)
  {
    var f := pieces[k];
    forall q | 0 <= q < planeSize ensures Covered(pieces, f.plane, q) <==> f.start <= q < f.start + f.size {
      if f.start <= q < f.start + f.size { assert InPiece(pieces[k], f.plane, q); }
      if l :| 0 <= l < |pieces| && InPiece(pieces[l], f.plane, q) { assert l == k; }
    }
  }

  lemma {:induction false} TookKeepsPrefix(a: Allocator, b: Allocator, alloc: Allocation, size: nat, kind: nat)
    requires PrefixState(a) && Took(a, b, alloc, size, kind)
    ensures PrefixState(b) && AtFrontier(Base(a, alloc.addr.x, kind).planes, alloc, a.planeSize)
  {
    hide Placed, Promote, FreshRegion, Shaped, AllPrefix, AtFrontier;
    var x := alloc.addr.x;
    var base, after := Base(a, x, kind), b.regions[x].planes;
    if x !in a.regions {
      FreshRegionShape(x, kind, a.planeSize);
      FreshPrefix(base.planes, a.planeSize);
    }
    PlacedKeepsPrefix(base.planes, after, alloc, a.planeSize);
    PlacedShape(base.planes, after, alloc, a.planeSize);
    PromoteMembers(a.lru, x, b.regions.Keys);
  }

  lemma {:induction false} FreshPrefix(planes: seq<Plane>, planeSize: nat)
    requires planes == [FreshPlane(0, planeSize)]
    ensures AllPrefix(planes)
  {
  }

  lemma {:induction false} LeftKeepsPrefix(a: Allocator, b: Allocator, kind: nat)
    requires PrefixState(a) && Left(a, b, kind)
    ensures PrefixState(b)
  {
    hide FreshRegion, Shaped, AllPrefix;
    var x := a.nextRegion + 1;
    FreshRegionShape(x, kind, a.planeSize);
    FreshPrefix(FreshRegion(x, kind, a.planeSize).planes, a.planeSize);
  }

  lemma {:induction false} GrowKeepsPrefix(a: Allocator, x: nat)
    requires PrefixState(a) && x in a.regions && |a.regions[x].planes| + 1 < U32
    ensures PrefixState(GrowRegion(a, x))
  {
    var p := FreshPlane(|a.regions[x].planes|, a.planeSize);
    assert Prefix(p.used);
  }

  lemma {:induction false} ZeroKeepsPrefix(a: Allocator, kind: nat, flags: nat, hint: nat)
    requires PrefixState(a)
    ensures PrefixState(Allocate(a, 0, kind, flags, hint).a)
  {
    hide Allocate, Prefix, Promote, AnyRoom, TotalFree, PlanesWithFree, PlanesNeeded;
    ZeroEffect(a, kind, flags, hint);
    var s := Allocate(a, 0, kind, flags, hint);
    if AnyRoom(a, kind) {
      var x :| Best(a, x, 0, kind) &&
        s.a == Install(a, x, Booked(a.regions[x], EnterFirst(a.regions[x].planes, s.outcome.alloc), 0));
      PromoteMembers(a.lru, x, s.a.regions.Keys);
    } else {
      LeftKeepsPrefix(a, s.a, kind);
    }
  }

  /** Every operation but freeing keeps the used bytes of every plane a prefix. */
  lemma {:induction false} StepKeepsPrefix(a: Allocator, act: Action)
    requires PrefixState(a) && Allowed(a, act) && !act.DoFree?
    ensures Act(a, act).outcome != Crashed && PrefixState(Act(a, act).a)
  {
    assert a.planeSize > 0;
    hide PrefixState, Allocate, AllocateInRegion, Took, Ready, Left;
    PrefixIsReady(a);
    match act
    case DoGrow(x) => GrowKeepsPrefix(a, x);
    case DoAllocate(size, kind, flags, hint) =>
      var s := Allocate(a, size, kind, flags, hint);
      if size == 0 {
        assert WellFormed(a) by { ReadyIsWellFormed(a); }
        ZeroEffect(a, kind, flags, hint);
        ZeroKeepsPrefix(a, kind, flags, hint);
      } else {
        AllocateEffect(a, size, kind, flags, hint);
        match s.outcome
        case Ok(alloc) => TookKeepsPrefix(a, s.a, alloc, size, kind);
        case Failed => LeftKeepsPrefix(a, s.a, kind);
      }
    case DoAllocateIn(x, size, flags) =>
      AllocateInEffect(a, x, size, flags);
      GrowKeepsPrefix(a, x);
      var s, kind := AllocateInRegion(a, x, size, flags), a.regions[x].kind;
      if s.outcome.Ok? {
        if Took(a, s.a, s.outcome.alloc, size, kind) {
          TookKeepsPrefix(a, s.a, s.outcome.alloc, size, kind);
        } else {
          TookKeepsPrefix(GrowRegion(a, x), s.a, s.outcome.alloc, size, kind);
        }
      }
  }

  lemma {:induction false} ReadyIsWellFormed(a: Allocator)
    requires Ready(a)
    ensures WellFormed(a)
  {
  }

  /** In every run without frees, for every plane size up to 65535 and every request, used bytes
      stay prefixes and nothing panics. */
  lemma {:induction false} RunsWithoutFrees(a: Allocator, acts: seq<Action>)
    requires PrefixState(a) && Possible(a, acts)
    requires forall i | 0 <= i < |acts| :: !acts[i].DoFree?
    ensures PrefixState(Run(a, acts).a) && Run(a, acts).outcome != Crashed
    decreases |acts|
  {
    if acts != [] {
      hide PrefixState, Act;
      StepKeepsPrefix(a, acts[0]);
      RunsWithoutFrees(Act(a, acts[0]).a, acts[1..]);
    }
  }

  lemma {:induction false} PrefixIsTamed(a: Allocator)
    requires PrefixState(a)
    ensures Tamed(a)
  {
    hide Tame, KeysTaken;
    PrefixIsReady(a);
  }

  /** ... and the benign ones among those runs keep layout and counters exact, for every plane
      size. */
  lemma {:induction false} LawfulRunsWithoutFrees(a: Allocator, acts: seq<Action>)
    requires Inv(a) && PrefixState(a) && Possible(a, acts) && Lawful(a, acts)
    requires forall i | 0 <= i < |acts| :: !acts[i].DoFree?
    ensures Inv(Run(a, acts).a) && PrefixState(Run(a, acts).a) && Run(a, acts).outcome != Crashed
    decreases |acts|
  {
    hide Inv, PrefixState, Act, Benign;
    if acts != [] {
      assert WellFormed(a) by { InvIsWellFormed(a); }
      PrefixIsTamed(a);
      StepKeepsInvIff(a, acts[0]);
      StepKeepsPrefix(a, acts[0]);
      LawfulRunsWithoutFrees(Act(a, acts[0]).a, acts[1..]);
    }
  }
}
