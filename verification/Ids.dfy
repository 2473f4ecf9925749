/** Allocation IDs: over every run of the allocator, whatever is asked, granted, spread or freed, no
    two filed allocations have the same one. */
module Ids {
  import opened FirstFit
  import opened Model
  import opened Handles
  import opened Runs

  ghost predicate Files(a: Allocator, x: nat, s: Slot) {
    x in a.regions && Filed(a.regions[x].planes, s)
  }

  function At(a: Allocator, x: nat, s: Slot): Allocation
    requires Files(a, x, s)
  {
    a.regions[x].planes[s.plane].allocs[s.start]
  }

  /** Filed allocations have pairwise different IDs, all given out already. */
  ghost predicate Numbered(a: Allocator) {
    && (forall x, s | Files(a, x, s) :: At(a, x, s).id <= a.nextAlloc)
    && (forall x, s, y, t | Files(a, x, s) && Files(a, y, t) && At(a, x, s).id == At(a, y, t).id :: x == y && s == t)
  }

  /** `after` files nothing that `before` does not. */
  ghost predicate Fewer(after: seq<Plane>, before: seq<Plane>) {
    forall s | Filed(after, s) ::
      Filed(before, s) && after[s.plane].allocs[s.start] == before[s.plane].allocs[s.start]
  }

  /** From `a` to `b` at most one allocation was filed, at `(x0, s0)`, under the next ID. */
  ghost predicate OneNew(a: Allocator, b: Allocator, x0: nat, s0: Slot) {
    && a.nextAlloc <= b.nextAlloc
    && forall x, s | Files(b, x, s) ::
         || (x == x0 && s == s0 && At(b, x, s).id == a.nextAlloc + 1 == b.nextAlloc)
         || (Files(a, x, s) && At(b, x, s) == At(a, x, s))
  }

  lemma {:induction false} StaysNumbered(a: Allocator, b: Allocator, x0: nat, s0: Slot)
    requires Numbered(a) && OneNew(a, b, x0, s0)
    ensures Numbered(b)
  {
    hide Filed;
  }

  // ------------------------------------------------------------------------- planes

  lemma {:induction false} FewerTrans(p: seq<Plane>, q: seq<Plane>, r: seq<Plane>)
    requires Fewer(p, q) && Fewer(q, r)
    ensures Fewer(p, r)
  {
  }

  lemma {:induction false} CarveFewer(c: Carving, j: nat)
    requires j <= |c.planes|
    ensures Fewer(Carve(c, j).planes, c.planes)
    decreases |c.planes| - j
  {
    hide Search, CountFree;
    if j < |c.planes| && c.remaining > 0 && !c.crashed {
      var n := Min(c.planes[j].FreeBytes(), c.remaining);
      var found := Search(c.planes[j].used, n);
      if n > 0 && found.Found? {
        var d := CarveInto(c, j, found.start, n);
        CarveFewer(d, j + 1);
        assert Fewer(d.planes, c.planes);
        FewerTrans(Carve(d, j + 1).planes, d.planes, c.planes);
      } else {
        CarveFewer(c, j + 1);
      }
    }
  }

  lemma {:induction false} RollbackFewer(planes: seq<Plane>, fragments: seq<Fragment>)
    ensures Fewer(Rollback(planes, fragments), planes)
    decreases |fragments|
  {
    if fragments != [] {
      var f := fragments[0];
      var i := FindPlane(planes, f.plane);
      var undone :=
        if i == |planes| then planes
        else planes[i := Vacate(planes[i], f.start, f.size).(allocs := planes[i].allocs - {f.start})];
      assert Fewer(undone, planes);
      RollbackFewer(undone, fragments[1..]);
      FewerTrans(Rollback(planes, fragments), undone, planes);
    }
  }

  lemma {:induction false} FreeFewer(planes: seq<Plane>, fragments: seq<Fragment>)
    ensures Fewer(FreeFragments(planes, fragments), planes)
    decreases |fragments|
  {
    if fragments != [] {
      var f := fragments[0];
      var i := FindPlane(planes, f.plane);
      var freed := if i == |planes| then None else PlaneFree(planes[i], f.start);
      var rest := if freed.None? then planes else planes[i := freed.value];
      assert Fewer(rest, planes);
      FreeFewer(rest, fragments[1..]);
      FewerTrans(FreeFragments(planes, fragments), rest, planes);
    }
  }

  // --------------------------------------------------------------------- operations

  /** Region `x` now has planes that file nothing new but `alloc` at `s0`. */
  lemma {:induction false} RegionOneNew(a: Allocator, b: Allocator, x: nat, before: seq<Plane>, s0: Slot)
    requires a.nextAlloc <= b.nextAlloc && x in b.regions
    requires forall y | y in b.regions && y != x :: y in a.regions && b.regions[y] == a.regions[y]
    requires before == [] || (x in a.regions && before == a.regions[x].planes)
    requires forall s | Filed(b.regions[x].planes, s) ::
      || (s == s0 && b.regions[x].planes[s.plane].allocs[s.start].id == a.nextAlloc + 1 == b.nextAlloc)
      || (Filed(before, s) && b.regions[x].planes[s.plane].allocs[s.start] == before[s.plane].allocs[s.start])
    ensures OneNew(a, b, x, s0)
  {
  }

  lemma {:induction false} PlaceOneNew(a: Allocator, x: nat, j: nat, alloc: Allocation)
    requires x in a.regions && j < |a.regions[x].planes| && alloc.id == a.nextAlloc + 1
    ensures OneNew(a, Install(a, x, PlaceAt(a.regions[x], j, alloc)), x, Slot(j, alloc.addr.z))
  {
    hide Promote;
    RegionOneNew(a, Install(a, x, PlaceAt(a.regions[x], j, alloc)), x, a.regions[x].planes, Slot(j, alloc.addr.z));
  }

  lemma {:induction false} PromotionOneNew(a: Allocator, x: nat, size: nat, kind: nat, flags: nat) returns (s0: Slot)
    requires x in a.regions
    ensures OneNew(a, PromoteIn(a, x, size, kind, flags).a, x, s0)
  {
    hide Carve, Rollback, Promote, Booked;
    var r := a.regions[x];
    var start := Carving(r.planes, [], size, false);
    var c := Carve(start, 0);
    CarveFewer(start, 0);
    RollbackFewer(c.planes, c.fragments);
    FewerTrans(Rollback(c.planes, c.fragments), c.planes, r.planes);
    var alloc := Scattered(a.nextAlloc + 1, x, size, kind, flags, c.fragments);
    BookedPlanes(r, EnterFirst(c.planes, alloc), size);
    s0 := Slot(FindPlane(c.planes, alloc.addr.y), alloc.addr.z);
    RegionOneNew(a, PromoteIn(a, x, size, kind, flags).a, x, r.planes, s0);
  }

  lemma {:induction false} NewRegionOneNew(a: Allocator, size: nat, kind: nat, flags: nat) returns (s0: Slot)
    ensures OneNew(a, AllocateNewRegion(a, size, kind, flags).a, a.nextRegion + 1, s0)
  {
    hide FindSpot, Promote, CountFree, Debit, Occupy;
    var x := a.nextRegion + 1;
    var spot := FindSpot(FreshRegion(x, kind, a.planeSize).planes, size, 0);
    s0 := if spot.At? then Slot(spot.plane, spot.start) else Slot(0, 0);
    OccupyKeepsEntries(FreshPlane(0, a.planeSize), s0.start, size);
    RegionOneNew(a, AllocateNewRegion(a, size, kind, flags).a, x, [], s0);
  }

  lemma {:induction false} OccupyKeepsEntries(p: Plane, start: nat, size: nat)
    ensures Occupy(p, start, size).allocs == p.allocs
  {
  }

  lemma {:induction false} OneNewAfter(a: Allocator, b: Allocator, c: Allocator, x: nat, s: Slot, y: nat, t: Slot)
    requires OneNew(a, b, x, s) && b.nextAlloc == a.nextAlloc && OneNew(b, c, y, t)
    ensures OneNew(a, c, y, t)
  {
    hide Filed;
  }

  lemma {:induction false} AllocateOneNew(a: Allocator, size: nat, kind: nat, flags: nat, hint: nat)
    returns (x: nat, s0: Slot)
    requires a.planeSize > 0
    ensures OneNew(a, Allocate(a, size, kind, flags, hint).a, x, s0)
  {
    hide FastScan, PromoteIn, AllocateNewRegion, PlaceAt, Best, Promote, Filed;
    var h := FastScan(a, size, kind, 0);
    x, s0 := 0, Slot(0, 0);
    match h
    case Boom =>
    case Hit(y, j, z) =>
      x, s0 := y, Slot(j, z);
      PlaceOneNew(a, y, j, Simple(a, Address(y, a.regions[y].planes[j].id, z), size, kind, 0));
    case Miss =>
      var best := ChooseBest(a, size, kind, hint);
      var p := TryYPromotion(a, size, kind, flags, hint);
      if PlanesNeeded(a, size) <= a.maxYPromotions && best.Some? {
        BestIsThere(a, best.value, size, kind);
        x := best.value;
        s0 := PromotionOneNew(a, x, size, kind, flags);
        PromotionCounts(a, x, size, kind, flags);
      }
      if p.result.None? {
        var y := p.a.nextRegion + 1;
        var t := NewRegionOneNew(p.a, size, kind, flags);
        OneNewAfter(a, p.a, AllocateNewRegion(p.a, size, kind, flags).a, x, s0, y, t);
        x, s0 := y, t;
      }
  }

  lemma {:induction false} PromotionCounts(a: Allocator, x: nat, size: nat, kind: nat, flags: nat)
    requires x in a.regions
    ensures var y := PromoteIn(a, x, size, kind, flags); y.result.None? ==> y.a.nextAlloc == a.nextAlloc
  {
    hide Carve, Rollback;
  }

  lemma {:induction false} AllocateInOneNew(a: Allocator, x: nat, size: nat, flags: nat) returns (s0: Slot)
    requires x in a.regions
    ensures OneNew(a, AllocateInRegion(a, x, size, flags).a, x, s0)
  {
    hide FindSpot, Promote, CountFree, Debit, Occupy;
    var r := a.regions[x];
    var grown := AddPlane(r, FreshPlane(|r.planes| % U32, a.planeSize));
    var first, second := FindSpot(r.planes, size, 0), FindSpot(grown.planes, size, |r.planes|);
    s0 := if first.At? then Slot(first.plane, first.start)
          else if second.At? then Slot(|r.planes|, second.start) else Slot(0, 0);
    if first.At? { OccupyKeepsEntries(r.planes[first.plane], first.start, size); }
    OccupyKeepsEntries(FreshPlane(|r.planes| % U32, a.planeSize), s0.start, size);
    RegionOneNew(a, AllocateInRegion(a, x, size, flags).a, x, r.planes, s0);
  }

  lemma {:induction false} GrowOneNew(a: Allocator, x: nat)
    requires x in a.regions
    ensures OneNew(a, GrowRegion(a, x), x, Slot(0, 0))
  {
    RegionOneNew(a, GrowRegion(a, x), x, a.regions[x].planes, Slot(0, 0));
  }

  lemma {:induction false} FreeOneNew(a: Allocator, alloc: Allocation)
    ensures Free(a, alloc).Some? ==> OneNew(a, Free(a, alloc).value, alloc.addr.x, Slot(0, 0))
  {
    hide FreeFragments, Vacate;
    if Free(a, alloc).Some? {
      var planes := a.regions[alloc.addr.x].planes;
      FreeFewer(planes, alloc.fragments);
      RegionOneNew(a, Free(a, alloc).value, alloc.addr.x, planes, Slot(0, 0));
    }
  }

  /** Every operation keeps the IDs of filed allocations apart. */
  lemma {:induction false} ActKeepsNumbers(a: Allocator, act: Action)
    requires a.planeSize > 0 && Allowed(a, act) && Numbered(a)
    ensures Numbered(Act(a, act).a)
  {
    hide Allocate, AllocateInRegion, GrowRegion, Free, Numbered, OneNew;
    var b := Act(a, act).a;
    match act
    case DoAllocate(size, kind, flags, hint) =>
      var x, s := AllocateOneNew(a, size, kind, flags, hint);
      StaysNumbered(a, b, x, s);
    case DoAllocateIn(x, size, flags) =>
      var s := AllocateInOneNew(a, x, size, flags);
      StaysNumbered(a, b, x, s);
    case DoGrow(x) =>
      GrowOneNew(a, x);
      StaysNumbered(a, b, x, Slot(0, 0));
    case DoFree(alloc) =>
      FreeOneNew(a, alloc);
      if Free(a, alloc).Some? { StaysNumbered(a, b, alloc.addr.x, Slot(0, 0)); }
  }

  lemma {:induction false} RunKeepsNumbers(a: Allocator, acts: seq<Action>)
    requires a.planeSize > 0 && Possible(a, acts) && Numbered(a)
    ensures Numbered(Run(a, acts).a)
    decreases |acts|
  {
    hide Act, Allowed, Numbered;
    if acts != [] {
      ActKeepsNumbers(a, acts[0]);
      if Act(a, acts[0]).outcome != Crashed { RunKeepsNumbers(Act(a, acts[0]).a, acts[1..]); }
    }
  }

  /** From a new allocator, over every run at all, no two filed allocations share an ID. */
  lemma {:induction false} IdsAreDistinct(planeSize: nat, maxY: nat, acts: seq<Action>)
    requires planeSize > 0 && Possible(Init(planeSize, maxY), acts)
    ensures Numbered(Run(Init(planeSize, maxY), acts).a)
  {
    hide Possible, Run;
    RunKeepsNumbers(Init(planeSize, maxY), acts);
  }
}
