/** Where a request goes and whether it is granted, in terms of the free bytes alone: the most
    recently used region with a free run, else the region with most free bytes, else a new one. */
module Grants {
  import opened FirstFit
  import opened Model
  import opened Placement
  import opened Effects
  import opened Layout
  import opened Invariant
  import opened Runs

  // ---------------------------------------------------------------------------- spots

  /** Some plane of the region has a free run of the size. */
  ghost predicate HasRun(planes: seq<Plane>, size: nat) {
    exists j :: 0 <= j < |planes| && HasFit(planes[j].used, size)
  }

  /** The first plane with a free run, and the first run in it. */
  ghost predicate FirstRun(planes: seq<Plane>, size: nat, from: nat, j: nat, z: nat) {
    && from <= j < |planes| && IsFirstFit(planes[j].used, size, z)
    && forall k | from <= k < j :: !HasFit(planes[k].used, size)
  }

  /** The loop over the planes finds exactly that. */
  lemma {:induction false} SpotIsFirst(planes: seq<Plane>, size: nat, from: nat)
    requires AllTame(planes) && from <= |planes| && size > 0
    ensures match FindSpot(planes, size, from)
            case At(j, z) => FirstRun(planes, size, from, j, z)
            case Nowhere => forall k | from <= k < |planes| :: !HasFit(planes[k].used, size)
            case Broken => false
    decreases |planes| - from
  {
    hide Search, CountFree, HasFit, IsFirstFit, Tame;
    if from < |planes| {
      var used := planes[from].used;
      FitNeedsRoom(used, size);
      if size <= CountFree(used) { TameSearch(used, size); }
      SpotIsFirst(planes, size, from + 1);
    }
  }

  lemma {:induction false} FirstHasFit(used: seq<bool>, size: nat, z: nat)
    requires IsFirstFit(used, size, z)
    ensures HasFit(used, size)
  {
  }

  /** The region is of the type and has a free run. */
  ghost predicate Serves(a: Allocator, x: nat, size: nat, kind: nat) {
    x in a.regions && a.regions[x].kind == kind && HasRun(a.regions[x].planes, size)
  }

  /** Counters that tell the truth never hide a free run. */
  ghost predicate Counted(a: Allocator) {
    forall x | x in a.regions :: a.regions[x].freeBytes == TotalFree(a.regions[x].planes)
  }

  lemma {:induction false} InvIsCounted(a: Allocator)
    requires Inv(a)
    ensures Counted(a)
  {
    hide Inv, TotalFree, FindSpot;
    forall x | x in a.regions ensures a.regions[x].freeBytes == TotalFree(a.regions[x].planes) {
      CounterIsExact(a, x);
    }
  }

  lemma {:induction false} RunNeedsTotal(planes: seq<Plane>, size: nat)
    ensures HasRun(planes, size) ==> size <= TotalFree(planes)
  {
    hide TotalFree, CountFree, HasFit;
    if j :| 0 <= j < |planes| && HasFit(planes[j].used, size) {
      FitNeedsRoom(planes[j].used, size);
      PlaneWithinTotal(planes, j);
    }
  }

  /** The fast path serves the request from the first listed region that can, in its first plane
      that can, at the first run; and it misses only if no listed region can. */
  ghost predicate FirstListed(a: Allocator, size: nat, kind: nat, i: nat, h: Hit)
    requires i <= |a.lru|
  {
    match h
    case Boom => false
    case Miss => forall k | i <= k < |a.lru| :: !Serves(a, a.lru[k], size, kind)
    case Hit(x, j, z) =>
      && x in a.regions && FirstRun(a.regions[x].planes, size, 0, j, z)
      && exists k :: i <= k < |a.lru| && a.lru[k] == x && Serves(a, x, size, kind)
                     && forall l | i <= l < k :: !Serves(a, a.lru[l], size, kind)
  }

  lemma {:induction false} FastIsFirst(a: Allocator, size: nat, kind: nat, i: nat)
    requires Ready(a) && Counted(a) && i <= |a.lru| && size > 0
    ensures FirstListed(a, size, kind, i, FastScan(a, size, kind, i))
    decreases |a.lru| - i
  {
    hide FindSpot, HasRun, FirstRun, AllTame, KeysTaken, TotalFree, Shaped;
    if i < |a.lru| {
      var x := a.lru[i];
      var planes := a.regions[x].planes;
      FastIsFirst(a, size, kind, i + 1);
      RunNeedsTotal(planes, size);
      SpotIsFirst(planes, size, 0);
      SpotServes(planes, size);
      var h := FastScan(a, size, kind, i + 1);
      if Serves(a, x, size, kind) {
        assert a.lru[i] == x;
      } else if h.Hit? {
        var k :| i + 1 <= k < |a.lru| && a.lru[k] == h.x && Serves(a, h.x, size, kind)
          && forall l | i + 1 <= l < k :: !Serves(a, a.lru[l], size, kind);
        assert forall l | i <= l < k :: !Serves(a, a.lru[l], size, kind);
      }
    }
  }

  lemma {:induction false} SpotServes(planes: seq<Plane>, size: nat)
    requires AllTame(planes) && size > 0
    ensures FindSpot(planes, size, 0).At? <==> HasRun(planes, size)
    ensures FindSpot(planes, size, 0).Nowhere? <==> !HasRun(planes, size)
  {
    hide FindSpot, AllTame, HasFit;
    SpotIsFirst(planes, size, 0);
    var s := FindSpot(planes, size, 0);
    if s.At? { FirstHasFit(planes[s.plane].used, size, s.start); }
  }

  // ----------------------------------------------------------------------- promotions

  /** What is left of `size` after every plane in turn gave as much as it has free, if it has that
      in one run. */
  ghost function Short(planes: seq<Plane>, size: nat): (left: nat)
    ensures left <= size
  {
    if planes == [] then size
    else
      var n := Min(CountFree(planes[0].used), size);
      Short(planes[1..], if n > 0 && HasFit(planes[0].used, n) then size - n else size)
  }

  /** The fragment loop falls short by exactly that. */
  lemma {:induction false} CarveIsShort(c: Carving, j: nat)
    requires j <= |c.planes| && !c.crashed && forall i | j <= i < |c.planes| :: Tame(c.planes[i].used)
    ensures Carve(c, j).remaining == Short(c.planes[j..], c.remaining) && !Carve(c, j).crashed
    decreases |c.planes| - j
  {
    hide Carve, Search, CountFree, HasFit, IsFirstFit, Tame, CarveInto;
    if j < |c.planes| {
      var p, rest := c.planes[j], c.planes[j + 1..];
      assert c.planes[j..][0] == p && c.planes[j..][1..] == rest;
      var n := Min(p.FreeBytes(), c.remaining);
      if n == 0 {
        CarveStops(c, j);
        CarveIsShort(c, j + 1);
      } else {
        TameSearch(p.used, n);
        CarveSteps(c, j, n);
        match Search(p.used, n)
        case NotFound => CarveIsShort(c, j + 1);
        case Found(z) =>
          FirstHasFit(p.used, n, z);
          CarveIntoRest(c, j, z, n);
          CarveIsShort(CarveInto(c, j, z, n), j + 1);
      }
    } else {
      CarveEnds(c, j);
      assert c.planes[j..] == [];
    }
  }

  lemma {:induction false} CarveEnds(c: Carving, j: nat)
    requires j == |c.planes|
    ensures Carve(c, j) == c
  {
  }

  /** Planes with prefixes of used bytes never fall short of their free bytes. */
  lemma {:induction false} PrefixNotShort(planes: seq<Plane>, size: nat)
    requires forall i | 0 <= i < |planes| :: Prefix(planes[i].used) && |planes[i].used| < U16
    requires size <= TotalFree(planes)
    ensures Short(planes, size) == 0
  {
    hide Carve, TotalFree, CountFree, Short, Prefix;
    var c := Carving(planes, [], size, false);
    assert planes[0..] == planes;
    PrefixCarving(c, 0);
    forall i | 0 <= i < |planes| ensures Tame(planes[i].used) {
      PrefixIsTame(planes[i].used);
    }
    CarveIsShort(c, 0);
  }

  /** The size is within the configured number of planes; the sum is a 32-bit one. */
  predicate Within(a: Allocator, size: nat) {
    (size + a.planeSize - 1) % U32 < a.planeSize * (a.maxYPromotions + 1)
  }

  lemma {:induction false} NeededWithin(a: Allocator, size: nat)
    requires a.planeSize > 0
    ensures PlanesNeeded(a, size) <= a.maxYPromotions <==> Within(a, size)
  {
    QuotientBelow((size + a.planeSize - 1) % U32, a.planeSize, a.maxYPromotions);
  }

  lemma {:induction false} QuotientBelow(t: nat, n: nat, m: nat)
    requires n > 0
    ensures t / n <= m <==> t < n * (m + 1)
  {
    var q := t / n;
    assert q * n <= t < q * n + n;
    if q <= m {
      MulBound(q, n, m, n);
      assert n * (m + 1) == m * n + n;
    } else {
      MulBound(m + 1, n, q, n);
      assert n * (m + 1) == (m + 1) * n;
    }
  }

  /** Without overflow that is: at most so many planes' worth of bytes. */
  lemma {:induction false} WithinPlanes(a: Allocator, size: nat)
    requires a.planeSize > 0 && size > 0 && size + a.planeSize - 1 < U32
    ensures Within(a, size) <==> size <= a.planeSize * a.maxYPromotions
  {
    SmallMod(size + a.planeSize - 1, U32);
    assert a.planeSize * (a.maxYPromotions + 1) == a.planeSize * a.maxYPromotions + a.planeSize;
  }

  ghost predicate HasRoom(a: Allocator, size: nat, kind: nat) {
    exists x :: x in a.regions && a.regions[x].kind == kind && size <= TotalFree(a.regions[x].planes)
  }

  /** No region of the type has more free bytes. */
  ghost predicate MostFree(a: Allocator, x: nat, kind: nat) {
    && x in a.regions && a.regions[x].kind == kind
    && forall y | y in a.regions && a.regions[y].kind == kind ::
         TotalFree(a.regions[y].planes) <= TotalFree(a.regions[x].planes)
  }

  /** ... and it is the one met first among equals. */
  ghost predicate Chosen(a: Allocator, x: nat, kind: nat, hint: nat) {
    MostFree(a, x, kind) && (MostFree(a, hint, kind) ==> x == hint)
  }

  lemma {:induction false} EligibleIffRoom(a: Allocator, x: nat, size: nat, kind: nat)
    requires WellFormed(a) && size > 0
    ensures Eligible(a, x, size, kind) <==>
      x in a.regions && a.regions[x].kind == kind && size <= TotalFree(a.regions[x].planes)
  {
    hide TotalFree, PlanesWithFree, PlanesNeeded, Shaped;
    if x in a.regions && size <= TotalFree(a.regions[x].planes) {
      PlaneCountTestIsRedundant(a, x, size);
    }
  }

  lemma {:induction false} BestIffMostFree(a: Allocator, x: nat, size: nat, kind: nat)
    requires WellFormed(a) && size > 0
    ensures Best(a, x, size, kind) <==> MostFree(a, x, kind) && size <= TotalFree(a.regions[x].planes)
  {
    hide Eligible, TotalFree, WellFormed;
    assert a.planeSize > 0 by { WellFormedConfig(a); }
    forall y ensures Eligible(a, y, size, kind) <==>
      y in a.regions && a.regions[y].kind == kind && size <= TotalFree(a.regions[y].planes)
    {
      EligibleIffRoom(a, y, size, kind);
    }
  }

  lemma {:induction false} WellFormedConfig(a: Allocator)
    requires WellFormed(a)
    ensures 0 < a.planeSize < U16
  {
  }

  /** Which region a promotion tries, if it tries one. */
  lemma {:induction false} ChoiceIsMostFree(a: Allocator, size: nat, kind: nat, hint: nat)
    requires WellFormed(a) && size > 0
    ensures a.planeSize > 0
    ensures var best := ChooseBest(a, size, kind, hint);
      && (best.Some? <==> HasRoom(a, size, kind))
      && (best.Some? ==> Chosen(a, best.value, kind, hint) && size <= TotalFree(a.regions[best.value].planes))
  {
    hide Best, TotalFree, WellFormed, Eligible;
    WellFormedConfig(a);
    var best := ChooseBest(a, size, kind, hint);
    if best.Some? {
      BestIffMostFree(a, best.value, size, kind);
      BestIffMostFree(a, hint, size, kind);
    } else if x :| x in a.regions && a.regions[x].kind == kind && size <= TotalFree(a.regions[x].planes) {
      EligibleIffRoom(a, x, size, kind);
      var y := BestExists(a, size, kind, x);
    }
  }

  /** A promotion in region `x` goes through exactly if its planes do not fall short. */
  lemma {:induction false} PromotionIffNotShort(a: Allocator, x: nat, size: nat, kind: nat, flags: nat)
    requires Ready(a) && x in a.regions && a.regions[x].kind == kind && 0 < size <= TotalFree(a.regions[x].planes)
    ensures var y := PromoteIn(a, x, size, kind, flags);
      if Short(a.regions[x].planes, size) == 0
      then y.result.Some? && y.result.value.Ok?
           && y.result.value.alloc.addr.x == x && y.result.value.alloc.fragments != []
      else y == Attempt(a, None)
  {
    hide Carve, Rollback, OccupyAll, Tame, TotalFree, Short, Took, KeysTaken, WellFormed, EnterFirst, Booked, Promote;
    AllOrNothing(a, x, size, kind, flags);
    var planes := a.regions[x].planes;
    assert planes[0..] == planes;
    CarveIsShort(Carving(planes, [], size, false), 0);
  }

  // ------------------------------------------------------------------------ all of it

  /** A new region serves what fits a plane, at its start, and nothing else. */
  ghost predicate NewRegionAnswers(a: Allocator, size: nat, r: Outcome) {
    if size <= a.planeSize
    then r.Ok? && r.alloc.addr == Address(a.nextRegion + 1, 0, 0) && r.alloc.fragments == []
    else r == Failed
  }

  /** The whole decision of an allocation, on free bytes and the region list. */
  ghost predicate GoesTo(a: Allocator, size: nat, kind: nat, hint: nat, r: Outcome) {
    if exists k :: 0 <= k < |a.lru| && Serves(a, a.lru[k], size, kind) then
      && r.Ok? && r.alloc.fragments == []
      && FirstListed(a, size, kind, 0, Hit(r.alloc.addr.x, r.alloc.addr.y, r.alloc.addr.z))
    else if Within(a, size) && HasRoom(a, size, kind) then
      exists x :: Chosen(a, x, kind, hint) && size <= TotalFree(a.regions[x].planes) &&
        if Short(a.regions[x].planes, size) == 0
        then r.Ok? && r.alloc.addr.x == x && r.alloc.fragments != []
        else NewRegionAnswers(a, size, r)
    else NewRegionAnswers(a, size, r)
  }

  lemma {:induction false} NewRegionGoes(a: Allocator, size: nat, kind: nat, flags: nat)
    requires WellFormed(a) && size > 0
    ensures NewRegionAnswers(a, size, AllocateNewRegion(a, size, kind, flags).outcome)
  {
    hide FindSpot, PlaceAt, FreshRegion, Promote, Placed;
    NewRegionEffect(a, size, kind, flags);
    FreshRegionShape(a.nextRegion + 1, kind, a.planeSize);
  }

  lemma {:induction false} FastGoes(a: Allocator, size: nat, kind: nat, flags: nat, hint: nat)
    requires Ready(a) && Counted(a) && size > 0 && FastScan(a, size, kind, 0).Hit?
    ensures a.planeSize > 0
    ensures var r := Allocate(a, size, kind, flags, hint).outcome;
      && r.Ok? && r.alloc.fragments == []
      && FirstListed(a, size, kind, 0, Hit(r.alloc.addr.x, r.alloc.addr.y, r.alloc.addr.z))
  {
    hide FastScan, FirstListed, PlaceAt, Promote, AllTame, KeysTaken;
    FastIsFirst(a, size, kind, 0);
    var h := FastScan(a, size, kind, 0);
    assert a.regions[h.x].planes[h.plane].id == h.plane;
  }

  /** Where every request goes. */
  lemma {:induction false} AllocateGoesTo(a: Allocator, size: nat, kind: nat, flags: nat, hint: nat)
    requires Ready(a) && Counted(a) && size > 0
    ensures a.planeSize > 0 && GoesTo(a, size, kind, hint, Allocate(a, size, kind, flags, hint).outcome)
  {
    hide FastScan, TryYPromotion, AllocateNewRegion, PromoteIn, Serves, Short, TotalFree, WellFormed, AllTame,
      KeysTaken, PlanesNeeded, Within, HasRoom, Best, Install, PlaceAt, NewRegionAnswers, Chosen, Counted;
    assert WellFormed(a) by { ReadyIsWellFormed(a); }
    WellFormedConfig(a);
    FastIsFirst(a, size, kind, 0);
    var h := FastScan(a, size, kind, 0);
    if h.Hit? {
      FastGoes(a, size, kind, flags, hint);
    } else {
      PromotionGoes(a, size, kind, flags, hint);
      NewRegionGoes(a, size, kind, flags);
    }
  }

  lemma {:induction false} PromotionGoes(a: Allocator, size: nat, kind: nat, flags: nat, hint: nat)
    requires Ready(a) && size > 0
    ensures a.planeSize > 0
    ensures var y := TryYPromotion(a, size, kind, flags, hint);
      if Within(a, size) && HasRoom(a, size, kind) then
        exists x :: Chosen(a, x, kind, hint) && size <= TotalFree(a.regions[x].planes) &&
          if Short(a.regions[x].planes, size) == 0
          then y.result.Some? && y.result.value.Ok?
               && y.result.value.alloc.addr.x == x && y.result.value.alloc.fragments != []
          else y == Attempt(a, None)
      else y == Attempt(a, None)
  {
    hide PromoteIn, Short, TotalFree, WellFormed, AllTame, KeysTaken, PlanesNeeded, Within, HasRoom, Best,
      MostFree, ChooseBest;
    assert WellFormed(a) by { ReadyIsWellFormed(a); }
    WellFormedConfig(a);
    NeededWithin(a, size);
    ChoiceIsMostFree(a, size, kind, hint);
    var best := ChooseBest(a, size, kind, hint);
    if best.Some? {
      assert best.value in a.regions && a.regions[best.value].kind == kind by {
        ChosenParts(a, best.value, kind, hint);
      }
      PromotionIffNotShort(a, best.value, size, kind, flags);
    }
  }

  lemma {:induction false} ChosenParts(a: Allocator, x: nat, kind: nat, hint: nat)
    requires Chosen(a, x, kind, hint)
    ensures x in a.regions && a.regions[x].kind == kind
  {
  }

  /** In every state that keeps the invariant and whose searches are right. */
  lemma {:induction false} InvGoesTo(a: Allocator, size: nat, kind: nat, flags: nat, hint: nat)
    requires Inv(a) && Tamed(a) && size > 0
    ensures a.planeSize > 0 && GoesTo(a, size, kind, hint, Allocate(a, size, kind, flags, hint).outcome)
  {
    hide Inv, Tamed, GoesTo, Ready, Counted, Allocate;
    InvIsReady(a);
    InvIsCounted(a);
    AllocateGoesTo(a, size, kind, flags, hint);
  }

  /** A request for more than a plane holds is granted only by promotion: if it is within the
      configured number of planes and some region of the type has the free bytes, the one with
      most of them decides by whether its planes fall short; otherwise it fails. */
  lemma {:induction false} LargeOutcome(a: Allocator, size: nat, kind: nat, flags: nat, hint: nat)
    requires Ready(a) && size > a.planeSize
    ensures a.planeSize > 0
    ensures var r := Allocate(a, size, kind, flags, hint).outcome;
      && (r.Ok? || r == Failed)
      && if Within(a, size) && HasRoom(a, size, kind)
         then exists x :: Chosen(a, x, kind, hint) && size <= TotalFree(a.regions[x].planes)
                          && (r.Ok? <==> Short(a.regions[x].planes, size) == 0)
         else r == Failed
  {
    hide FastScan, TryYPromotion, AllocateNewRegion, Short, TotalFree, WellFormed, AllTame, KeysTaken, Within,
      HasRoom, Chosen;
    assert WellFormed(a) by { ReadyIsWellFormed(a); }
    WellFormedConfig(a);
    TooLargeForOnePlane(a, size, kind);
    PromotionGoes(a, size, kind, flags, hint);
    NewRegionGoes(a, size, kind, flags);
  }

  /** Without frees, exactly: for every plane size, a request for more than a plane holds is granted
      if and only if it is at most the configured number of planes' worth of bytes and some region
      of the type has that many free. The number of planes is computed in 32 bits; sizes within a
      plane of 2^32 are measured by what is left of them. */
  lemma {:induction false} LargeGrantIff(a: Allocator, size: nat, kind: nat, flags: nat, hint: nat)
    requires PrefixState(a) && size > a.planeSize
    ensures a.planeSize > 0
    ensures Allocate(a, size, kind, flags, hint).outcome.Ok? <==>
      && (if size + a.planeSize - 1 < 0x1_0000_0000 then size <= a.planeSize * a.maxYPromotions
          else (size + a.planeSize - 1) % 0x1_0000_0000 < a.planeSize * (a.maxYPromotions + 1))
      && exists x :: x in a.regions && a.regions[x].kind == kind && size <= TotalFree(a.regions[x].planes)
  {
    hide Allocate, Short, TotalFree, AllPrefix, WellFormed, Ready;
    PrefixIsReady(a);
    LargeOutcome(a, size, kind, flags, hint);
    if size + a.planeSize - 1 < U32 { WithinPlanes(a, size); }
    forall x | x in a.regions && size <= TotalFree(a.regions[x].planes) ensures Short(a.regions[x].planes, size) == 0 {
      PrefixRegion(a, x);
      PrefixNotShort(a.regions[x].planes, size);
    }
  }

  lemma {:induction false} PrefixRegion(a: Allocator, x: nat)
    requires PrefixState(a) && x in a.regions
    ensures forall i | 0 <= i < |a.regions[x].planes| ::
      Prefix(a.regions[x].planes[i].used) && |a.regions[x].planes[i].used| < U16
  {
    hide Prefix;
  }

  /** Where `AllocateInRegion` goes: to the first plane with a free run; else to the start of a new
      plane if the size fits one; else it fails, and the new plane stays. */
  lemma {:induction false} AllocateInGoesTo(a: Allocator, x: nat, size: nat, flags: nat)
    requires Ready(a) && x in a.regions && |a.regions[x].planes| + 1 < U32 && size > 0
    ensures var s, planes := AllocateInRegion(a, x, size, flags), a.regions[x].planes;
      if HasRun(planes, size) then
        && s.outcome.Ok? && s.outcome.alloc.addr.x == x
        && FirstRun(planes, size, 0, s.outcome.alloc.addr.y, s.outcome.alloc.addr.z)
        && x in s.a.regions && |s.a.regions[x].planes| == |planes|
      else if size <= a.planeSize then
        && s.outcome.Ok? && s.outcome.alloc.addr == Address(x, |planes|, 0)
        && x in s.a.regions && |s.a.regions[x].planes| == |planes| + 1
      else s.outcome == Failed && s.a == GrowRegion(a, x)
  {
    hide FindSpot, HasRun, FirstRun, AllTame, KeysTaken, Occupy, Promote;
    var r := a.regions[x];
    SpotIsFirst(r.planes, size, 0);
    SpotServes(r.planes, size);
    var spot := FindSpot(r.planes, size, 0);
    if spot.At? {
      assert r.planes[spot.plane].id == spot.plane by { FirstRunInside(r.planes, size, spot.plane, spot.start); }
    } else {
      SmallMod(|r.planes|, U32);
      GrownSpot(r, size, a.planeSize);
    }
  }

  lemma {:induction false} FirstRunInside(planes: seq<Plane>, size: nat, j: nat, z: nat)
    requires FirstRun(planes, size, 0, j, z)
    ensures j < |planes|
  {
  }
}
