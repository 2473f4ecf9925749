/** The allocator as the heap holds it: regions by ID, and a list of the regions used last. Every
    public method carries out the function of `Model` of the same name. */
module AllocatorModel {
  import opened FirstFit
  import opened M = Model
  import P = PlaneModel
  import R = RegionModel

  ghost function Ids(lru: seq<R.Region>): (ids: seq<nat>)
    ensures |ids| == |lru| && forall i | 0 <= i < |lru| :: ids[i] == lru[i].id
  {
    seq(|lru|, i requires 0 <= i < |lru| => lru[i].id)
  }

  function With(a: M.Allocator, x: nat, r: M.Region): M.Allocator {
    a.(regions := a.regions[x := r])
  }

  class Allocator {
    const planeSize: nat
    const maxYPromotions: nat
    var regions: map<nat, R.Region>
    var lru: seq<R.Region>
    var nextRegion: nat
    var nextAlloc: nat
    /** The memory of the regions. */
    ghost var Inner: set<object>

    ghost predicate Valid()
      reads this, Inner
    {
      && 0 < planeSize < U16 && this !in Inner
      && (forall x | x in regions ::
            && x <= nextRegion
            && regions[x] in Inner && regions[x].Inner <= Inner
            && regions[x].Valid() && regions[x].id == x && |regions[x].planes| < U32)
      && (forall x, y | x in regions && y in regions :: regions[x] !in regions[y].Inner)
      && (forall x, y, o | x in regions && y in regions && o in regions[x].Inner && o in regions[y].Inner :: x == y)
      && (forall i | 0 <= i < |lru| :: lru[i].id in regions && regions[lru[i].id] == lru[i])
    }

    lemma {:induction false} Basics(x: nat)
      requires Valid()
      ensures this !in Inner && 0 < planeSize < U16
      ensures x in regions ==> regions[x] in Inner && |Value().regions[x].planes| == |regions[x].planes|
    {
      hide R.Values, R.Separate;
    }

    ghost function Regions(): map<nat, M.Region>
      reads this, Inner
      requires Valid()
    {
      map x | x in regions :: regions[x].Value()
    }

    ghost function Value(): (v: M.Allocator)
      reads this, Inner
      requires Valid()
      ensures v.planeSize == planeSize > 0 && v.nextRegion == nextRegion && v.regions.Keys == regions.Keys
    {
      M.Allocator(planeSize, maxYPromotions, Regions(), Ids(lru), nextRegion, nextAlloc)
    }

    constructor (planeSize: nat, maxYPromotions: nat)
      requires 0 < planeSize < U16
      ensures Valid() && fresh(this) && fresh(Inner) && Value() == Init(planeSize, maxYPromotions)
    {
      this.planeSize, this.maxYPromotions := planeSize, maxYPromotions;
      regions, lru, nextRegion, nextAlloc := map[], [], 1, 1;
      Inner := {};
    }

    // ------------------------------------------------------------- work inside one region

    /** `Region.Serve` in region `x`; nothing else changes. */
    method ServeIn(x: nat, size: nat, from: nat, flags: nat) returns (s: Spot, alloc: Allocation)
      requires Valid() && x in regions && from <= |regions[x].planes|
      modifies Inner
      ensures Valid() && regions[x].planes == old(regions[x].planes)
      ensures var a := old(Value());
        var r := a.regions[x];
        && s == FindSpot(r.planes, size, from)
        && (s.At? ==> alloc == Simple(a, Address(x, r.planes[s.plane].id, s.start), size, r.kind, flags))
        && Value() == if s.At? then With(a, x, PlaceAt(r, s.plane, alloc)) else a
    {
      hide R.Region.Valid, R.Region.Value, R.Values, R.Separate, P.Plane.Repr, P.Plane.Valid, P.Plane.Value,
        FindSpot, PlaceAt;
      s, alloc := regions[x].Serve(size, from, nextAlloc + 1, flags);
      OtherRegions(x, old(Regions()));
    }

    lemma {:induction false} OtherRegions(x: nat, was: map<nat, M.Region>)
      requires Valid() && x in regions && was.Keys == regions.Keys
      requires forall y | y in regions && y != x :: regions[y].Value() == was[y]
      ensures Regions() == was[x := regions[x].Value()]
      ensures regions[x].Value() == was[x] ==> Regions() == was
    {
      hide R.Region.Valid, R.Region.Value, R.Values, R.Separate, P.Plane.Repr, P.Plane.Valid, P.Plane.Value;
      assert Regions().Keys == was.Keys;
    }

    method SpreadIn(x: nat, size: nat, kind: nat, flags: nat) returns (r: Option<Outcome>)
      requires Valid() && x in regions
      modifies Inner
      ensures Valid()
      ensures var a := old(Value());
        var was := a.regions[x];
        var c := Carve(Carving(was.planes, [], size, false), 0);
        var alloc := Scattered(a.nextAlloc + 1, x, size, kind, flags, c.fragments);
        if c.crashed then r == Some(Crashed)
        else if c.remaining > 0 then
          r == None && Value() == With(a, x, was.(planes := Rollback(c.planes, c.fragments)))
        else
          r == Some(Ok(alloc)) && Value() == With(a, x, Booked(was, EnterFirst(c.planes, alloc), size))
    {
      hide R.Region.Valid, R.Region.Value, R.Values, R.Separate, P.Plane.Repr, P.Plane.Valid, P.Plane.Value,
        Carve, Rollback, EnterFirst, Booked, Scattered;
      r := regions[x].Spread(size, nextAlloc + 1, kind, flags);
      OtherRegions(x, old(Regions()));
    }

    method ReleaseIn(x: nat, alloc: Allocation) returns (ok: bool)
      requires Valid() && x in regions && alloc.addr.z < U16 && (alloc.IsYPromoted() ==> R.Narrow(alloc.fragments))
      modifies Inner
      ensures Valid()
      ensures var a := old(Value());
        var r := Relieved(a.regions[x], alloc);
        ok == r.Some? && Value() == if ok then With(a, x, r.value) else a
    {
      hide R.Region.Valid, R.Region.Value, R.Values, R.Separate, P.Plane.Repr, P.Plane.Valid, P.Plane.Value, Relieved;
      ok := regions[x].Release(alloc);
      OtherRegions(x, old(Regions()));
    }

    /** `Region.AddPlane` with a fresh plane. */
    method Grow(x: nat)
      requires Valid() && x in regions && |regions[x].planes| + 1 < U32
      modifies this, Inner
      ensures Valid() && fresh(Inner - old(Inner)) && Value() == GrowRegion(old(Value()), x)
      ensures regions == old(regions) && |regions[x].planes| == old(|regions[x].planes|) + 1
    {
      hide Valid, Value, Regions, P.Plane.Repr, P.Plane.Valid, P.Plane.Value, M.AddPlane, FreshPlane, GrowRegion;
      Basics(x);
      ghost var a := Value();
      var plane := new P.Plane(|regions[x].planes|, planeSize);
      Adopt(plane);
      AddPlaneTo(x, plane);
      GrownParts(a, x);
    }

    /** Makes room in the footprint for a new plane. */
    ghost method Adopt(plane: P.Plane)
      requires Valid() && plane.Valid() && this !in plane.Repr() && plane.Repr() !! Inner
      modifies this`Inner
      ensures Valid() && Inner == old(Inner) + plane.Repr() && Value() == old(Value())
      ensures plane.Valid() && plane.Value() == old(plane.Value())
      ensures forall y | y in regions :: regions[y] !in plane.Repr()
      ensures forall y, o | y in regions && o in regions[y].Inner :: o !in plane.Repr()
    {
      hide R.Region.Valid, R.Region.Value;
      Inner := Inner + plane.Repr();
      assert Regions() == old(Regions());
    }

    method AddPlaneTo(x: nat, plane: P.Plane)
      requires Valid() && x in regions && |regions[x].planes| + 1 < U32
      requires plane.Valid() && plane.Repr() <= Inner
      requires forall y | y in regions :: regions[y] !in plane.Repr()
      requires forall y, o | y in regions && o in regions[y].Inner :: o !in plane.Repr()
      modifies regions[x]
      ensures Valid()
      ensures Value() == With(old(Value()), x, M.AddPlane(old(Value()).regions[x], old(plane.Value())))
      ensures |regions[x].planes| == old(|regions[x].planes|) + 1
    {
      hide R.Region.Valid, R.Region.Value, R.Values, R.Separate, P.Plane.Repr, P.Plane.Valid, P.Plane.Value, M.AddPlane;
      regions[x].AddPlane(plane);
      OtherRegions(x, old(Regions()));
    }

    // ------------------------------------------------------------------------- region LRU

    /** Moves region `x` to the front and keeps the list within its limit. */
    method PromoteRegionLru(x: nat)
      requires Valid() && x in regions
      modifies this`lru
      ensures Valid() && Value() == old(Value()).(lru := Promote(old(Value()).lru, x, true))
    {
      hide R.Region.Valid, R.Region.Value, R.Values, R.Separate, P.Plane.Repr, P.Plane.Valid, P.Plane.Value, Promote;
      lru := MovedToFront(lru, regions[x]);
      assert Valid();
      assert Regions() == old(Regions());
    }

    /** The bookkeeping that follows a successful allocation in region `x`. */
    method Settle(x: nat)
      requires Valid() && x in regions
      modifies this`lru, this`nextAlloc
      ensures Valid() && Value() == Install(old(Value()), x, old(Value()).regions[x])
    {
      hide R.Region.Valid, R.Region.Value, R.Values, R.Separate, P.Plane.Repr, P.Plane.Valid, P.Plane.Value, Promote;
      nextAlloc := nextAlloc + 1;
      assert Regions() == old(Regions());
      PromoteRegionLru(x);
      assert old(Regions())[x := old(Regions())[x]] == old(Regions());
    }

    /** An attempt in the planes of region `x` from `from` on. */
    method ServeAndSettle(x: nat, size: nat, from: nat, flags: nat) returns (r: Outcome)
      requires Valid() && x in regions && from <= |regions[x].planes|
      modifies this, Inner
      ensures Valid() && Inner == old(Inner) && regions == old(regions) && regions[x].planes == old(regions[x].planes)
      ensures |old(Value()).regions[x].planes| == |regions[x].planes|
      ensures Step(Value(), r) == Served(old(Value()), x, size, flags, from)
    {
      hide *;
      Basics(x);
      ghost var a := Value();
      ServedParts(a, x, size, flags, from);
      var s, alloc := ServeIn(x, size, from, flags);
      if s.At? {
        Settle(x);
        r := Ok(alloc);
      } else {
        r := if s.Broken? then Crashed else Failed;
      }
    }

    // ------------------------------------------------------------------------- operations

    /** One round of the fast path, on element `i` of the list. */
    method TryRegion(i: nat, size: nat, kind: nat) returns (s: Spot, alloc: Allocation)
      requires Valid() && i < |lru|
      modifies Inner
      ensures Valid() && lru[i].id in old(Value()).regions
      ensures var x := lru[i].id;
        var a := old(Value());
        var r := a.regions[x];
        && s == (if r.kind != kind || r.freeBytes < size then Nowhere else FindSpot(r.planes, size, 0))
        && (s.At? ==> alloc == Simple(a, Address(x, r.planes[s.plane].id, s.start), size, kind, 0))
        && Value() == if s.At? then With(a, x, PlaceAt(r, s.plane, alloc)) else a
    {
      hide R.Region.Valid, R.Region.Value, R.Values, R.Separate, P.Plane.Repr, P.Plane.Valid, P.Plane.Value,
        FindSpot, PlaceAt, Ids;
      alloc := Allocation(0, Address(0, 0, 0), size, kind, 0, []);
      s := Nowhere;
      if lru[i].kind == kind && lru[i].freeBytes >= size {
        s, alloc := ServeIn(lru[i].id, size, 0, 0);
      }
    }

    /** The loop over the regions used last. */
    method FastServe(size: nat, kind: nat) returns (h: Hit, alloc: Allocation)
      requires Valid()
      modifies Inner
      ensures Valid() && h == FastScan(old(Value()), size, kind, 0)
      ensures var a := old(Value());
        if h.Hit? then
          && alloc == Simple(a, Address(h.x, a.regions[h.x].planes[h.plane].id, h.start), size, kind, 0)
          && Value() == With(a, h.x, PlaceAt(a.regions[h.x], h.plane, alloc))
        else Value() == a
    {
      hide R.Region.Valid, R.Region.Value, R.Values, R.Separate, P.Plane.Repr, P.Plane.Valid, P.Plane.Value,
        FindSpot, PlaceAt;
      ghost var a := Value();
      alloc := Allocation(0, Address(0, 0, 0), size, kind, 0, []);
      for i := 0 to |lru|
        invariant Valid() && Value() == a
        invariant FastScan(a, size, kind, 0) == FastScan(a, size, kind, i)
      {
        var s;
        s, alloc := TryRegion(i, size, kind);
        if s.At? {
          return Hit(lru[i].id, s.plane, s.start), alloc;
        }
        if s.Broken? {
          return Boom, alloc;
        }
      }
      h := Miss;
    }

    method TryFastAllocation(size: nat, kind: nat) returns (r: Option<Outcome>)
      requires Valid()
      modifies this, Inner
      ensures Valid() && Inner == old(Inner) && FastOutcome(old(Value()), size, kind, r, Value())
    {
      hide *;
      Basics(0);
      ghost var a := Value();
      var h, alloc := FastServe(size, kind);
      r := None;
      if h.Boom? {
        r := Some(Crashed);
      } else if h.Hit? {
        InstallTwice(a, h.x, PlaceAt(a.regions[h.x], h.plane, alloc));
        Settle(h.x);
        r := Some(Ok(alloc));
      }
      IsFastOutcome(a, size, kind, h, alloc, r, Value());
    }

    /** The free totals of region `x`, and whether it is a candidate for a promotion. */
    method Candidate(x: nat, size: nat, kind: nat, planesNeeded: nat) returns (free: nat)
      requires Valid() && x in regions && planesNeeded == PlanesNeeded(Value(), size)
      ensures Eligible(Value(), x, size, kind) <==> free > 0
      ensures free > 0 ==> free == TotalFree(Value().regions[x].planes)
    {
      hide R.Region.Valid, R.Region.Value, R.Values, R.Separate, P.Plane.Repr, P.Plane.Valid, P.Plane.Value,
        TotalFree, PlanesWithFree, PlanesNeeded;
      var region := regions[x];
      if region.kind != kind {
        return 0;
      }
      var totalFree, planesWithFree := region.FreeTotals();
      free := if totalFree >= size && planesWithFree % U32 >= planesNeeded then totalFree else 0;
    }

    /** The scan over all regions, in any order, for the one with most free bytes. */
    method FindBest(size: nat, kind: nat, planesNeeded: nat) returns (best: Option<nat>)
      requires Valid() && planesNeeded == PlanesNeeded(Value(), size)
      ensures ChooseBest(Value(), size, kind, if best.Some? then best.value else 0) == best
    {
      hide *;
      best := None;
      var bestFree, todo := 0, regions.Keys;
      NoLead(Value(), size, kind);
      assert regions.Keys - todo == {};
      while todo != {}
        invariant todo <= regions.Keys
        invariant Leads(Value(), size, kind, regions.Keys - todo, best, bestFree)
        decreases |todo|
      {
        var x :| x in todo;
        var free := Candidate(x, size, kind, planesNeeded);
        LeadsMore(Value(), size, kind, regions.Keys - todo, best, bestFree, x, free);
        assert regions.Keys - todo + {x} == regions.Keys - (todo - {x});
        if free > bestFree {
          best, bestFree := Some(x), free;
        }
        todo := todo - {x};
      }
      assert regions.Keys - todo == regions.Keys;
      LeadsAll(Value(), size, kind, best, bestFree);
    }

    /** Promotion within the best region; `hint` is the one that the scan met first. */
    method TryYPromotion(size: nat, kind: nat, flags: nat) returns (r: Option<Outcome>, ghost hint: nat)
      requires Valid()
      modifies this, Inner
      ensures Valid() && Inner == old(Inner)
      ensures var y := M.TryYPromotion(old(Value()), size, kind, flags, hint);
        r == y.result && (r != Some(Crashed) ==> Value() == y.a)
    {
      hide Valid, Regions, PromoteIn, ChooseBest;
      ghost var a := Value();
      hint := 0;
      r := None;
      var planesNeeded := (size + planeSize - 1) % U32 / planeSize;
      if planesNeeded <= maxYPromotions {
        var best := FindBest(size, kind, planesNeeded);
        if best.Some? {
          hint := best.value;
          r := PromoteInRegion(best.value, size, kind, flags);
        }
      }
    }

    method PromoteInRegion(x: nat, size: nat, kind: nat, flags: nat) returns (r: Option<Outcome>)
      requires Valid() && x in regions
      modifies this, Inner
      ensures Valid() && Inner == old(Inner)
      ensures var y := PromoteIn(old(Value()), x, size, kind, flags);
        r == y.result && (r != Some(Crashed) ==> Value() == y.a)
    {
      hide *;
      Basics(0);
      ghost var a := Value();
      PromoteInParts(a, x, size, kind, flags);
      ghost var c := Carve(Carving(a.regions[x].planes, [], size, false), 0);
      ghost var alloc := Scattered(a.nextAlloc + 1, x, size, kind, flags, c.fragments);
      InstallTwice(a, x, Booked(a.regions[x], EnterFirst(c.planes, alloc), size));
      r := SpreadIn(x, size, kind, flags);
      if r.Some? && r.value.Ok? {
        Settle(x);
      }
    }

    /** Makes room in the footprint for a new region. */
    ghost method AdoptRegion(region: R.Region)
      requires Valid() && region.Valid() && region !in Inner && forall o | o in region.Inner :: o !in Inner
      requires region != this as object && this !in region.Inner
      modifies this`Inner
      ensures Valid() && Inner == old(Inner) + region.Inner + {region} && Value() == old(Value())
      ensures region.Valid() && region.Value() == old(region.Value())
      ensures Stranger(region)
    {
      hide R.Region.Valid, R.Region.Value;
      Inner := Inner + region.Inner + {region};
      assert Regions() == old(Regions());
    }

    /** The region shares no memory with the registered ones. */
    ghost predicate Stranger(region: R.Region)
      reads this, Inner, region
    {
      && region in Inner && region.Inner <= Inner
      && (forall y | y in regions ::
            && regions[y] != region && regions[y] in Inner
            && regions[y] !in region.Inner && region !in regions[y].Inner)
      && (forall y, o | y in regions && o in regions[y].Inner :: o !in region.Inner)
    }

    /** Puts a region under the next ID. */
    method Register(region: R.Region)
      requires Valid() && region.Valid() && region.id == nextRegion + 1 && |region.planes| < U32
      requires Stranger(region) && region !in region.Inner
      modifies this`regions, this`nextRegion
      ensures Valid() && region.id in regions
      ensures Value() == With(old(Value()), region.id, old(region.Value())).(nextRegion := region.id)
    {
      hide R.Region.Valid, R.Region.Value, R.Values, R.Separate, P.Plane.Repr, P.Plane.Valid, P.Plane.Value;
      assert region.id !in regions;
      nextRegion := region.id;
      regions := regions[region.id := region];
      assert Valid();
      assert Regions() == old(Regions())[region.id := old(region.Value())];
    }

    /** A region with one fresh plane. */
    method NewRegion(x: nat, kind: nat) returns (region: R.Region)
      requires 0 < planeSize < U16
      ensures fresh(region) && fresh(region.Inner) && region.Valid() && region.id == x && |region.planes| < U32
      ensures region !in region.Inner && region.Value() == FreshRegion(x, kind, planeSize)
    {
      hide R.Values, R.Separate, P.Plane.Repr, P.Plane.Valid, P.Plane.Value, M.AddPlane, FreshPlane;
      region := new R.Region(x, kind);
      var plane := new P.Plane(0, planeSize);
      region.AddPlane(plane);
    }

    method AllocateNewRegion(size: nat, kind: nat, flags: nat) returns (r: Outcome)
      requires Valid()
      modifies this, Inner
      ensures Valid() && fresh(Inner - old(Inner))
      ensures Step(Value(), r) == M.AllocateNewRegion(old(Value()), size, kind, flags)
    {
      hide *;
      Basics(0);
      ghost var a := Value();
      var x := nextRegion + 1;
      var region := NewRegion(x, kind);
      AdoptRegion(region);
      Register(region);
      NewRegionParts(a, size, kind, flags);
      r := ServeAndSettle(x, size, 0, flags);
    }

    /** Fast path, then promotion, then a new region. */
    method Allocate(size: nat, kind: nat, flags: nat) returns (r: Outcome, ghost hint: nat)
      requires Valid()
      modifies this, Inner
      ensures Valid() && fresh(Inner - old(Inner))
      ensures var s := M.Allocate(old(Value()), size, kind, flags, hint);
        r == s.outcome && (!r.Crashed? ==> Value() == s.a)
    {
      hide *;
      hint := 0;
      ghost var a := Value();
      var fast := TryFastAllocation(size, kind);
      AllocateParts(a, size, kind, flags, fast, Value());
      if fast.Some? {
        return fast.value, 0;
      }
      var promoted;
      promoted, hint := TryYPromotion(size, kind, flags);
      if promoted.Some? {
        return promoted.value, hint;
      }
      r := AllocateNewRegion(size, kind, flags);
    }

    /** Existing planes first, then one more. */
    method AllocateInRegion(x: nat, size: nat, flags: nat) returns (r: Outcome)
      requires Valid() && x in regions && |regions[x].planes| + 1 < U32
      modifies this, Inner
      ensures Valid() && fresh(Inner - old(Inner))
      ensures Step(Value(), r) == M.AllocateInRegion(old(Value()), x, size, flags)
    {
      hide *;
      Basics(x);
      ghost var a := Value();
      AllocateInParts(a, x, size, flags);
      var n := |regions[x].planes|;
      r := ServeAndSettle(x, size, 0, flags);
      if r.Failed? {
        Grow(x);
        r := ServeAndSettle(x, size, n, flags);
      }
    }

    method Free(alloc: Allocation) returns (ok: bool)
      requires Valid() && alloc.addr.z < U16 && (alloc.IsYPromoted() ==> R.Narrow(alloc.fragments))
      modifies Inner
      ensures Valid() && ok == M.Free(old(Value()), alloc).Some?
      ensures Value() == if ok then M.Free(old(Value()), alloc).value else old(Value())
    {
      hide *;
      Basics(alloc.addr.x);
      FreeParts(Value(), alloc);
      ok := false;
      if alloc.addr.x in regions {
        ok := ReleaseIn(alloc.addr.x, alloc);
      }
    }

    // ---------------------------------------------------------------------- plane contents

    /** Looks a plane up by its ID. */
    method GetPlane(x: nat, planeId: nat) returns (found: bool, i: nat, length: nat)
      requires Valid() && x in regions
      ensures var planes := Value().regions[x].planes;
        i == FindPlane(planes, planeId) && found == (i < |planes|) && (found ==> length == |planes[i].data|)
    {
      hide R.Values, FindPlane, P.Plane.Repr;
      i := regions[x].GetPlane(planeId);
      found, length := i < |regions[x].planes|, 0;
      if found {
        length := regions[x].planes[i].data.Length;
      }
    }

    method Read(x: nat, i: nat, from: nat, to: nat) returns (bytes: seq<byte>)
      requires Valid() && x in regions && i < |Value().regions[x].planes|
      requires from <= to <= |Value().regions[x].planes[i].data|
      ensures bytes == Value().regions[x].planes[i].data[from..to]
    {
      hide R.Values, P.Plane.Repr;
      bytes := regions[x].planes[i].data[from..to];
    }

    method Write(x: nat, i: nat, start: nat, bytes: seq<byte>)
      requires Valid() && x in regions && i < |Value().regions[x].planes|
      requires start + |bytes| <= |Value().regions[x].planes[i].data|
      modifies Inner
      ensures Valid() && Value() == WriteAt(old(Value()), x, i, start, bytes)
    {
      hide R.Region.Valid, R.Region.Value, R.Values, R.Separate, P.Plane.Repr, P.Plane.Valid, P.Plane.Value, Overwrite;
      regions[x].Write(i, start, bytes);
      OtherRegions(x, old(Regions()));
    }
  }

  /** The state of the scan for the best region, when `done` have been met. */
  ghost predicate Leads(a: M.Allocator, size: nat, kind: nat, done: set<nat>, best: Option<nat>, bestFree: nat)
    requires a.planeSize > 0
  {
    && (best.None? ==> bestFree == 0)
    && (best.Some? ==> Eligible(a, best.value, size, kind) && bestFree == TotalFree(a.regions[best.value].planes))
    && (forall x | x in done && Eligible(a, x, size, kind) :: TotalFree(a.regions[x].planes) <= bestFree)
  }

  lemma {:induction false} NoLead(a: M.Allocator, size: nat, kind: nat)
    requires a.planeSize > 0
    ensures Leads(a, size, kind, {}, None, 0)
  {
  }

  lemma {:induction false} LeadsMore(
    a: M.Allocator, size: nat, kind: nat, done: set<nat>, best: Option<nat>, bestFree: nat, x: nat, free: nat)
    requires a.planeSize > 0 && Leads(a, size, kind, done, best, bestFree)
    requires Eligible(a, x, size, kind) <==> free > 0
    requires free > 0 ==> x in a.regions && free == TotalFree(a.regions[x].planes)
    ensures free > bestFree ==> Leads(a, size, kind, done + {x}, Some(x), free)
    ensures free <= bestFree ==> Leads(a, size, kind, done + {x}, best, bestFree)
  {
    hide Eligible;
  }

  lemma {:induction false} LeadsAll(a: M.Allocator, size: nat, kind: nat, best: Option<nat>, bestFree: nat)
    requires a.planeSize > 0 && Leads(a, size, kind, a.regions.Keys, best, bestFree)
    ensures ChooseBest(a, size, kind, if best.Some? then best.value else 0) == best
  {
    forall x | Eligible(a, x, size, kind) ensures x in a.regions && TotalFree(a.regions[x].planes) > 0 {
    }
    hide Eligible;
  }

  lemma {:induction false} PromoteInParts(a: M.Allocator, x: nat, size: nat, kind: nat, flags: nat)
    requires x in a.regions
    ensures var r := a.regions[x];
      var c := Carve(Carving(r.planes, [], size, false), 0);
      var alloc := Scattered(a.nextAlloc + 1, x, size, kind, flags, c.fragments);
      PromoteIn(a, x, size, kind, flags)
        == if c.crashed then Attempt(a, Some(Crashed))
           else if c.remaining > 0 then Attempt(With(a, x, r.(planes := Rollback(c.planes, c.fragments))), None)
           else Attempt(Install(a, x, Booked(r, EnterFirst(c.planes, alloc), size)), Some(Ok(alloc)))
  {
    hide Carve, Rollback, EnterFirst, Booked, Install, Scattered;
  }

  /** What the fast path makes of `a`. */
  ghost predicate FastOutcome(a: M.Allocator, size: nat, kind: nat, r: Option<Outcome>, b: M.Allocator) {
    match FastScan(a, size, kind, 0)
    case Miss => r == None && b == a
    case Boom => r == Some(Crashed)
    case Hit(x, j, z) =>
      var alloc := Simple(a, Address(x, a.regions[x].planes[j].id, z), size, kind, 0);
      r == Some(Ok(alloc)) && b == Install(a, x, PlaceAt(a.regions[x], j, alloc))
  }

  lemma {:induction false} IsFastOutcome(
    a: M.Allocator, size: nat, kind: nat, h: Hit, alloc: Allocation, r: Option<Outcome>, b: M.Allocator)
    requires h == FastScan(a, size, kind, 0)
    requires match h
             case Miss => r == None && b == a
             case Boom => r == Some(Crashed)
             case Hit(x, j, z) =>
               && alloc == Simple(a, Address(x, a.regions[x].planes[j].id, z), size, kind, 0)
               && r == Some(Ok(alloc)) && b == Install(a, x, PlaceAt(a.regions[x], j, alloc))
    ensures FastOutcome(a, size, kind, r, b)
  {
    hide FastScan, PlaceAt, Install;
  }

  /** Drops the first element with the region's ID, pushes the region, trims the back. */
  method MovedToFront(lru: seq<R.Region>, region: R.Region) returns (r: seq<R.Region>)
    ensures Ids(r) == Promote(Ids(lru), region.id, true)
    ensures forall i | 0 <= i < |r| :: r[i] == region || r[i] in lru
  {
    hide Ids, Without;
    ghost var ids := Ids(lru);
    r := Dropped(lru, region.id);
    r := [region] + r;
    assert Ids(r) == [region.id] + Without(ids, region.id);
    if |r| > LRU_LIMIT {
      r := r[..|r| - 1];
    }
    assert Ids(r) == Promote(ids, region.id, true);
  }

  method Dropped(lru: seq<R.Region>, x: nat) returns (r: seq<R.Region>)
    ensures Ids(r) == Without(Ids(lru), x)
    ensures forall i | 0 <= i < |r| :: r[i] in lru
  {
    hide Ids, Without;
    var i := 0;
    while i < |lru| && lru[i].id != x
      invariant i <= |lru| && forall k | 0 <= k < i :: lru[k].id != x
    {
      i := i + 1;
    }
    WithoutAt(Ids(lru), x, i);
    r := if i < |lru| then lru[..i] + lru[i + 1..] else lru;
    assert Ids(r) == if i < |lru| then Ids(lru)[..i] + Ids(lru)[i + 1..] else Ids(lru);
  }

  /** A new region registered in `a`. */
  function Opened(a: M.Allocator, kind: nat): M.Allocator {
    var x := a.nextRegion + 1;
    With(a, x, FreshRegion(x, kind, a.planeSize)).(nextRegion := x)
  }

  /** An attempt in the planes of region `x` from `from` on. */
  ghost function Served(a: M.Allocator, x: nat, size: nat, flags: nat, from: nat): Step
    requires x in a.regions && from <= |a.regions[x].planes|
  {
    var r := a.regions[x];
    match FindSpot(r.planes, size, from)
    case Nowhere => Step(a, Failed)
    case Broken => Step(a, Crashed)
    case At(j, z) =>
      var alloc := Simple(a, Address(x, r.planes[j].id, z), size, r.kind, flags);
      Step(Install(a, x, PlaceAt(r, j, alloc)), Ok(alloc))
  }

  lemma {:induction false} ServedParts(a: M.Allocator, x: nat, size: nat, flags: nat, from: nat)
    requires x in a.regions && from <= |a.regions[x].planes|
    ensures var r := a.regions[x];
      Served(a, x, size, flags, from) ==
        match FindSpot(r.planes, size, from)
        case Nowhere => Step(a, Failed)
        case Broken => Step(a, Crashed)
        case At(j, z) =>
          var alloc := Simple(a, Address(x, r.planes[j].id, z), size, r.kind, flags);
          Step(Install(With(a, x, PlaceAt(r, j, alloc)), x, PlaceAt(r, j, alloc)), Ok(alloc))
    ensures forall r :: x in With(a, x, r).regions && With(a, x, r).regions[x] == r
  {
    hide FindSpot, PlaceAt, Install;
    var r := a.regions[x];
    var spot := FindSpot(r.planes, size, from);
    if spot.At? {
      var alloc := Simple(a, Address(x, r.planes[spot.plane].id, spot.start), size, r.kind, flags);
      InstallTwice(a, x, PlaceAt(r, spot.plane, alloc));
    }
  }

  lemma {:induction false} NewRegionParts(a: M.Allocator, size: nat, kind: nat, flags: nat)
    ensures var x, b := a.nextRegion + 1, Opened(a, kind);
      && b == With(a, x, FreshRegion(x, kind, a.planeSize)).(nextRegion := x) && x in b.regions
      && M.AllocateNewRegion(a, size, kind, flags) == Served(b, x, size, flags, 0)
  {
    hide FindSpot, PlaceAt, Install;
  }

  lemma {:induction false} AllocateParts(
    a: M.Allocator, size: nat, kind: nat, flags: nat, fast: Option<Outcome>, b: M.Allocator)
    requires a.planeSize > 0 && FastOutcome(a, size, kind, fast, b)
    ensures fast.Some? ==>
      forall hint ::
        var s := M.Allocate(a, size, kind, flags, hint);
        s.outcome == fast.value && (s.outcome.Crashed? || s.a == b)
    ensures fast.None? ==> b == a && forall hint ::
      var y := M.TryYPromotion(a, size, kind, flags, hint);
      M.Allocate(a, size, kind, flags, hint)
        == if y.result.Some? then Step(y.a, y.result.value) else M.AllocateNewRegion(y.a, size, kind, flags)
  {
    hide FastScan, M.TryYPromotion, M.AllocateNewRegion, PlaceAt, Install;
  }

  lemma {:induction false} AllocateInParts(a: M.Allocator, x: nat, size: nat, flags: nat)
    requires x in a.regions && |a.regions[x].planes| < U32
    ensures var j, first, grown := |a.regions[x].planes|, Served(a, x, size, flags, 0), GrowRegion(a, x);
      && x in grown.regions && |grown.regions[x].planes| == j + 1
      && (first.outcome.Failed? ==> first.a == a)
      && M.AllocateInRegion(a, x, size, flags) == if first.outcome.Failed? then Served(grown, x, size, flags, j)
        else first
  {
    hide FindSpot, PlaceAt, Promote;
    var j, r := |a.regions[x].planes|, a.regions[x];
    var grown := AddPlane(r, FreshPlane(j, a.planeSize));
    assert GrowRegion(a, x) == With(a, x, grown) && j % U32 == j;
    var spot := FindSpot(grown.planes, size, j);
    if spot.At? {
      assert spot.plane == j && grown.planes[j].id == j;
    }
  }

  lemma {:induction false} FreeParts(a: M.Allocator, alloc: Allocation)
    ensures var x := alloc.addr.x;
      M.Free(a, alloc) == if x !in a.regions || Relieved(a.regions[x], alloc).None? then None
                          else Some(With(a, x, Relieved(a.regions[x], alloc).value))
  {
    hide Relieved;
  }

  lemma {:induction false} GrownParts(a: M.Allocator, x: nat)
    requires x in a.regions
    ensures GrowRegion(a, x) == With(a, x, M.AddPlane(a.regions[x], FreshPlane(|a.regions[x].planes|, a.planeSize)))
  {
    hide M.AddPlane, FreshPlane;
  }

  lemma {:induction false} InstallTwice(a: M.Allocator, x: nat, r: M.Region)
    ensures Install(With(a, x, r), x, r) == Install(a, x, r) && With(a, x, r).regions[x] == r
  {
    hide Promote;
    assert a.regions[x := r][x := r] == a.regions[x := r];
  }

  lemma {:induction false} WithoutAt(ids: seq<nat>, x: nat, i: nat)
    requires i <= |ids| && (i < |ids| ==> ids[i] == x) && forall k | 0 <= k < i :: ids[k] != x
    ensures Without(ids, x) == if i < |ids| then ids[..i] + ids[i + 1..] else ids
  {
    if i > 0 {
      WithoutAt(ids[1..], x, i - 1);
      assert ids == [ids[0]] + ids[1..];
    }
  }
}
