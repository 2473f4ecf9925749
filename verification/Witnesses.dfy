/** The two calls that break the allocator's invariant are within reach of every configuration. */
module Witnesses {
  import opened FirstFit
  import opened Model
  import opened Placement
  import opened Effects
  import opened Layout
  import opened Invariant
  import opened Runs
  import opened Threshold

  /** Region 2, alone, with one byte taken from its first plane. */
  lemma {:induction false} OneByteTaken(planeSize: nat, maxY: nat, kind: nat) returns (a: Allocator)
    requires 0 < planeSize < U16
    ensures Act(Init(planeSize, maxY), DoAllocate(1, kind, 0, 0)).a == a
    ensures Inv(a) && PrefixState(a) && a.planeSize == planeSize && a.maxYPromotions == maxY
    ensures a.regions.Keys == {2} && a.regions[2].kind == kind && |a.regions[2].planes| == 1
    ensures TotalFree(a.regions[2].planes) == planeSize - 1
  {
    hide Allocate, CountFree, Prefix, Inv, PrefixState, TotalFree, Promote;
    var first := DoAllocate(1, kind, 0, 0);
    var init := Init(planeSize, maxY);
    InitInv(planeSize, maxY);
    assert PrefixState(init) by { InitPrefix(planeSize, maxY); }
    PrefixIsTamed(init);
    StepKeepsInvIff(init, first);
    StepKeepsPrefix(init, first);
    var b, alloc := SoloStart(planeSize, maxY, kind, 1, 0);
    a := b;
    AllocateConfig(init, 1, kind, 0, 0);
    var blank := seq(planeSize, _ => false);
    CountFreeAllFree(blank);
    CountFreeMark(blank, 0, 1);
    OnlyPlaneTotal(a.regions[2].planes);
  }

  lemma {:induction false} InitPrefix(planeSize: nat, maxY: nat)
    requires 0 < planeSize < U16
    ensures PrefixState(Init(planeSize, maxY))
  {
  }

  lemma {:induction false} OnlyPlaneTotal(planes: seq<Plane>)
    requires |planes| == 1
    ensures TotalFree(planes) == CountFree(planes[0].used)
  {
    assert planes[..0] == [];
  }

  lemma {:induction false} AllocateConfig(a: Allocator, size: nat, kind: nat, flags: nat, hint: nat)
    requires a.planeSize > 0
    ensures Allocate(a, size, kind, flags, hint).a.maxYPromotions == a.maxYPromotions
  {
    hide FastScan, FindSpot, Carve, Rollback, ChooseBest, PlaceAt, FreshRegion, Promote, EnterFirst, Booked;
  }

  /** With planes of two bytes or more, one byte allocated and then nothing asked for breaks the
      invariant. */
  lemma {:induction false} EmptyRequestBreaksAReachableState(planeSize: nat, maxY: nat, kind: nat)
    requires 1 < planeSize < U16
    ensures var a := Act(Init(planeSize, maxY), DoAllocate(1, kind, 0, 0)).a;
      a.planeSize > 0 && Inv(a) && !Inv(Act(a, DoAllocate(0, kind, 0, 0)).a)
  {
    hide Inv, Allocate, PrefixState, TotalFree;
    var a := OneByteTaken(planeSize, maxY, kind);
    assert AnyRoom(a, kind);
    ZeroBreaks(a, kind, 0, 0);
  }

  /** Flags get lost at once: with planes of two bytes or more, the second of two requests for a
      byte is served by the fast path, which drops its flags. */
  lemma {:induction false} FlagsGetLost(planeSize: nat, maxY: nat, kind: nat, flags: nat)
    requires 1 < planeSize < U16
    ensures var a := Act(Init(planeSize, maxY), DoAllocate(1, kind, flags, 0));
      && a.outcome.Ok? && a.outcome.alloc.flags == flags && a.a.planeSize > 0
      && var b := Act(a.a, DoAllocate(1, kind, flags, 0)).outcome;
      && b.Ok? && b.alloc.flags == 0
  {
    hide Search, CountFree, FindSpot, Debit, PlanesNeeded, TotalFree, AllTame, KeysTaken, Prefix, IsFirstFit;
    var init := Init(planeSize, maxY);
    var b, first := SoloStartFlagged(planeSize, maxY, kind, flags, 1, 0);
    var used := Mark(seq(planeSize, _ => false), 0, 1);
    var blank := seq(planeSize, _ => false);
    CountFreeAllFree(blank);
    CountFreeMark(blank, 0, 1);
    PrefixOfBlock(used, 1);
    PrefixSearch(used, 1);
    SoloScan(b, kind, used, 1);
  }

  // -------------------------------------------------------------- a promoted allocation

  lemma {:induction false} GrownParts(a: Allocator)
    requires Inv(a) && PrefixState(a) && a.regions.Keys == {2} && |a.regions[2].planes| + 1 < U32
    ensures var b := Act(a, DoGrow(2)).a;
      && Inv(b) && PrefixState(b) && b.planeSize == a.planeSize && b.maxYPromotions == a.maxYPromotions
      && b.regions.Keys == {2} && b.regions[2].kind == a.regions[2].kind
      && |b.regions[2].planes| == |a.regions[2].planes| + 1
      && TotalFree(b.regions[2].planes) == TotalFree(a.regions[2].planes) + a.planeSize
  {
    hide Inv, PrefixState, CountFree, TotalFree;
    PrefixIsTamed(a);
    StepKeepsInvIff(a, DoGrow(2));
    StepKeepsPrefix(a, DoGrow(2));
    var p := FreshPlane(|a.regions[2].planes|, a.planeSize);
    TotalFreeSnoc(a.regions[2].planes, p);
    CountFreeAllFree(p.used);
  }

  /** A request for one byte more than a plane holds, where three planes are nearly empty, is
      granted in fragments. */
  lemma {:induction false} GrantedInFragments(a: Allocator, kind: nat) returns (alloc: Allocation)
    requires Inv(a) && PrefixState(a) && 2 in a.regions && a.regions[2].kind == kind && a.maxYPromotions >= 2
    requires TotalFree(a.regions[2].planes) >= a.planeSize + 1 && a.planeSize + 1 < U32
    ensures var b := Act(a, DoAllocate(a.planeSize + 1, kind, 0, 2));
      b.outcome == Ok(alloc) && alloc.IsYPromoted() && Live(b.a, alloc) && Inv(b.a)
  {
    var size := a.planeSize + 1;
    hide Inv, Placed, TotalFree, PlanesWithFree, PlanesNeeded, PromoteIn, FastScan, AllocateNewRegion, Best,
      PrefixState, Live;
    assert WellFormed(a) by { InvIsWellFormed(a); }
    PrefixIsReady(a);
    TooLargeForOnePlane(a, size, kind);
    TwoNeeded(a);
    PlaneCountTestIsRedundant(a, 2, size);
    assert Eligible(a, 2, size, kind);
    var best := BestExists(a, size, kind, 2);
    var x := ChooseBest(a, size, kind, 2).value;
    BestHasRoom(a, x, size, kind);
    PromotionNeverRollsBack(a, x, size, kind, 0);
    AllOrNothing(a, x, size, kind, 0);
    var b := Allocate(a, size, kind, 0, 2);
    alloc := b.outcome.alloc;
    PrefixIsTamed(a);
    StepKeepsInvIff(a, DoAllocate(size, kind, 0, 2));
    assert WellFormed(b.a) by { InvIsWellFormed(b.a); }
    PromotedIsLive(a, b.a, alloc, size, kind);
  }

  lemma {:induction false} BestHasRoom(a: Allocator, x: nat, size: nat, kind: nat)
    requires a.planeSize > 0 && Best(a, x, size, kind)
    ensures x in a.regions && a.regions[x].kind == kind && size <= TotalFree(a.regions[x].planes)
  {
  }

  lemma {:induction false} TwoNeeded(a: Allocator)
    requires a.planeSize > 0 && 2 * a.planeSize < U32
    ensures PlanesNeeded(a, a.planeSize + 1) == 2
  {
    assert (2 * a.planeSize) % U32 == 2 * a.planeSize;
  }

  lemma {:induction false} PromotedIsLive(a: Allocator, b: Allocator, alloc: Allocation, size: nat, kind: nat)
    requires WellFormed(a) && WellFormed(b) && Took(a, b, alloc, size, kind) && alloc.fragments != []
    requires PlanesNeeded(a, size) == 2 && alloc.addr.x in a.regions
    ensures alloc.IsYPromoted() && Live(b, alloc)
  {
    var before, after := a.regions[alloc.addr.x].planes, b.regions[alloc.addr.x].planes;
    EnoughFragments(Pieces(alloc), |before|, a, size);
    hide PlanesNeeded, Promote;
    FindPlaneByPosition(OccupyAll(before, Pieces(alloc)), alloc.addr.y, a.planeSize);
  }

  /** For every plane size, and whenever the configuration allows two promotions: four calls
      without any free grant a Y-promoted allocation, and freeing that breaks the invariant. */
  lemma {:induction false} FreeingAPromotedOneBreaksAReachableState(planeSize: nat, maxY: nat, kind: nat)
    returns (acts: seq<Action>, alloc: Allocation)
    requires 0 < planeSize < U16 && maxY >= 2
    ensures Possible(Init(planeSize, maxY), acts) && Lawful(Init(planeSize, maxY), acts)
    ensures var a := Run(Init(planeSize, maxY), acts).a;
      Inv(a) && Live(a, alloc) && Free(a, alloc).Some? && !Inv(Free(a, alloc).value)
  {
    hide Inv, PrefixState, Act, TotalFree, Live, Free;
    var init := Init(planeSize, maxY);
    acts := [DoAllocate(1, kind, 0, 0), DoGrow(2), DoGrow(2), DoAllocate(planeSize + 1, kind, 0, 2)];
    var a := OneByteTaken(planeSize, maxY, kind);
    GrownParts(a);
    var b := Act(a, DoGrow(2)).a;
    GrownParts(b);
    var c := Act(b, DoGrow(2)).a;
    alloc := GrantedInFragments(c, kind);
    InitInv(planeSize, maxY);
    InitPrefix(planeSize, maxY);
    NotCrashed(init, a, b, kind);
    ChainOfFour(init, a, b, c, acts);
    FreeKeepsInvIff(Act(c, acts[3]).a, alloc);
  }

  lemma {:induction false} NotCrashed(init: Allocator, a: Allocator, b: Allocator, kind: nat)
    requires Inv(init) && PrefixState(init) && a.planeSize > 0 && b.planeSize > 0
    requires 2 in a.regions && |a.regions[2].planes| + 1 < U32 && 2 in b.regions && |b.regions[2].planes| + 1 < U32
    ensures init.planeSize > 0 && Act(init, DoAllocate(1, kind, 0, 0)).outcome != Crashed
    ensures Act(a, DoGrow(2)).outcome != Crashed && Act(b, DoGrow(2)).outcome != Crashed
  {
    hide PrefixState, Allocate;
    PrefixIsTamed(init);
    StepKeepsInvIff(init, DoAllocate(1, kind, 0, 0));
  }
}
