/** A region as the heap holds it: planes that share no memory, and three counters. Every method
    is specified by the function of `Model` that it carries out. */
module RegionModel {
  import opened FirstFit
  import opened M = Model
  import P = PlaneModel

  /** Every plane is valid and no two of them share memory. */
  ghost predicate Separate(planes: seq<P.Plane>, Repr: set<object>)
    reads Repr
  {
    && (forall i | 0 <= i < |planes| :: planes[i].Repr() <= Repr && planes[i].Valid())
    && (forall i, j | 0 <= i < |planes| && 0 <= j < |planes| && i != j :: P.Apart(planes[i], planes[j]))
  }

  ghost function Values(planes: seq<P.Plane>, Repr: set<object>): (v: seq<M.Plane>)
    reads Repr
    requires Separate(planes, Repr)
    ensures |v| == |planes|
    ensures forall i | 0 <= i < |planes| :: v[i] == planes[i].Value()
  {
    if planes == [] then [] else
      var n := |planes| - 1;
      Values(planes[..n], Repr) + [planes[n].Value()]
  }

  /** Work on plane `j` alone changes entry `j` of the values alone. */
  lemma {:induction false} OnlyPlane(planes: seq<P.Plane>, Repr: set<object>, j: nat, was: seq<M.Plane>)
    requires j < |planes| == |was| && Separate(planes, Repr)
    requires forall i | 0 <= i < |planes| && i != j :: planes[i].Value() == was[i]
    ensures Values(planes, Repr) == was[j := planes[j].Value()]
  {
    hide Values, Separate;
  }

  /** One round of the fragment loop. */
  lemma {:induction false} CarveStep(c: Carving, j: nat)
    requires j <= |c.planes| && !c.crashed
    ensures M.Carve(c, j) ==
      if j == |c.planes| || c.remaining == 0 then c
      else
        var n := Min(c.planes[j].FreeBytes(), c.remaining);
        if n == 0 then M.Carve(c, j + 1)
        else
          match Search(c.planes[j].used, n)
          case NotFound => M.Carve(c, j + 1)
          case Panics => c.(crashed := true)
          case Found(z) => M.Carve(CarveInto(c, j, z, n), j + 1)
  {
  }

  function Taken(planes: seq<M.Plane>, j: nat, start: nat, size: nat): seq<M.Plane>
    requires j < |planes|
  {
    planes[j := Occupy(planes[j], start, size)]
  }

  /** The numbers of a fragment fit their 16-bit types. */
  predicate Narrow(fragments: seq<Fragment>) {
    forall k | 0 <= k < |fragments| :: fragments[k].start < U16 && fragments[k].size < U16
  }

  class Region {
    const id: nat
    const kind: nat
    var planes: seq<P.Plane>
    var allocCount: nat
    var freeBytes: nat
    var totalBytes: nat
    /** The memory of the planes. */
    ghost var Inner: set<object>

    ghost predicate Valid()
      reads this, Inner
    {
      this !in Inner && Separate(planes, Inner)
    }

    ghost function Value(): (v: M.Region)
      reads this, Inner
      requires Valid()
      ensures v.id == id && v.kind == kind && v.freeBytes == freeBytes && |v.planes| == |planes|
    {
      M.Region(id, kind, Values(planes, Inner), allocCount, freeBytes, totalBytes)
    }

    constructor (id: nat, kind: nat)
      ensures Valid() && Inner == {} && planes == [] && Value() == M.Region(id, kind, [], 0, 0, 0)
    {
      this.id, this.kind, planes, allocCount, freeBytes, totalBytes := id, kind, [], 0, 0, 0;
      Inner := {};
    }

    method AddPlane(plane: P.Plane)
      requires Valid() && plane.Valid() && plane.Repr() !! Inner && this !in plane.Repr()
      modifies this
      ensures Valid() && planes == old(planes) + [plane] && Inner == old(Inner) + plane.Repr()
      ensures Value() == M.AddPlane(old(Value()), old(plane.Value()))
    {
      hide Values, CountFree;
      var n := plane.FreeBytes();
      planes := planes + [plane];
      Inner := Inner + plane.Repr();
      totalBytes := (totalBytes + plane.freeMap.size) % U64;
      freeBytes := (freeBytes + n) % U64;
    }

    /** The free bytes of all planes, and how many planes have any. */
    method FreeTotals() returns (totalFree: nat, planesWithFree: nat)
      requires Valid()
      ensures totalFree == TotalFree(Value().planes) && planesWithFree == PlanesWithFree(Value().planes)
    {
      hide Values, CountFree;
      totalFree, planesWithFree := 0, 0;
      ghost var v := Value().planes;
      for j := 0 to |planes|
        invariant totalFree == TotalFree(v[..j]) && planesWithFree == PlanesWithFree(v[..j])
      {
        assert v[..j + 1][..j] == v[..j];
        var n := planes[j].FreeBytes();
        if n > 0 {
          totalFree, planesWithFree := totalFree + n, planesWithFree + 1;
        }
      }
      assert v[..|planes|] == v;
    }

    /** A search in plane `j`, which takes what it finds. */
    method Take(j: nat, size: nat) returns (r: Find)
      requires Valid() && j < |planes| && size < U16
      modifies Inner
      ensures Valid() && r == Search(old(Value()).planes[j].used, size)
      ensures Value() == if r.Found? then old(Value()).(planes := Taken(old(Value()).planes, j, r.start, size))
        else old(Value())
      ensures r.Found? ==> r.start < U16
    {
      hide Values, Search, Occupy;
      r := planes[j].Allocate(size);
      OnlyPlane(planes, Inner, j, old(Value()).planes);
    }

    /** One round of the fast path: a plane with too few free bytes is not searched. */
    method TakeGuarded(j: nat, size: nat) returns (r: Find)
      requires Valid() && j < |planes|
      modifies Inner
      ensures Valid()
      ensures r == if old(Value()).planes[j].FreeBytes() < size then NotFound
        else Search(old(Value()).planes[j].used, size)
      ensures Value() == if r.Found? then old(Value()).(planes := Taken(old(Value()).planes, j, r.start, size))
        else old(Value())
    {
      hide Values, CountFree, Search, Taken;
      var free := planes[j].FreeBytes();
      r := NotFound;
      if free >= size {
        r := Take(j, size);
      }
    }

    /** The loop over the planes from `from` on: the first that has enough free bytes and a free
        run gives up the run. */
    method TakeSpot(size: nat, from: nat) returns (s: Spot)
      requires Valid() && from <= |planes|
      modifies Inner
      ensures Valid() && s == FindSpot(old(Value()).planes, size, from)
      ensures Value() == if s.At? then old(Value()).(planes := Taken(old(Value()).planes, s.plane, s.start, size))
        else old(Value())
    {
      hide Values, CountFree, Search, Taken, Separate;
      ghost var v := Value().planes;
      for j := from to |planes|
        invariant Valid() && Value() == old(Value())
        invariant FindSpot(v, size, from) == FindSpot(v, size, j)
      {
        var r := TakeGuarded(j, size);
        if r.Panics? {
          return Broken;
        }
        if r.Found? {
          return At(j, r.start);
        }
      }
      s := Nowhere;
    }

    method Write(j: nat, start: nat, bytes: seq<byte>)
      requires Valid() && j < |planes| && start + |bytes| <= |Value().planes[j].data|
      modifies Inner
      ensures Valid()
      ensures var p := old(Value()).planes[j];
        Value() == old(Value()).(planes := old(Value()).planes[j := p.(data := Overwrite(p.data, start, bytes))])
    {
      hide Values, Overwrite;
      planes[j].Write(start, bytes);
      OnlyPlane(planes, Inner, j, old(Value()).planes);
    }

    method Enter(j: nat, alloc: Allocation)
      requires Valid() && j < |planes|
      modifies Inner
      ensures Valid()
      ensures Value() == old(Value()).(planes := old(Value()).planes[j := M.Enter(old(Value()).planes[j], alloc)])
    {
      hide Values;
      planes[j].allocs := planes[j].allocs[alloc.addr.z := alloc];
      OnlyPlane(planes, Inner, j, old(Value()).planes);
    }

    /** The counter updates of a new allocation. */
    method Book(size: nat)
      requires Valid()
      modifies this
      ensures Valid() && planes == old(planes) && Inner == old(Inner)
      ensures Value() == Booked(old(Value()), old(Value()).planes, size)
    {
      hide Values;
      allocCount, freeBytes := (allocCount + 1) % U64, Debit(freeBytes, size);
      assert Values(planes, Inner) == old(Values(planes, Inner));
    }

    /** The loop that looks a plane up by its ID. */
    method GetPlane(planeId: nat) returns (i: nat)
      requires Valid()
      ensures i == FindPlane(Value().planes, planeId)
    {
      hide Values;
      i := 0;
      while i < |planes| && planes[i].id != planeId
        invariant i <= |planes| && FindPlane(Value().planes, planeId) == FindPlane(Value().planes, planeId, i)
      {
        i := i + 1;
      }
    }

    /** Frees the block filed under `start` of the plane with the given ID. */
    method FreeIn(planeId: nat, start: nat) returns (ok: bool)
      requires Valid() && start < U16
      modifies Inner
      ensures Valid()
      ensures var v := old(Value()).planes;
        var i := FindPlane(v, planeId);
        var freed := if i == |v| then None else PlaneFree(v[i], start);
        ok == freed.Some? && Value() == old(Value()).(planes := if ok then v[i := freed.value] else v)
    {
      hide Values, PlaneFree;
      var i := GetPlane(planeId);
      if i == |planes| {
        return false;
      }
      ok := planes[i].Free(start);
      OnlyPlane(planes, Inner, i, old(Value()).planes);
    }

    method FreeFragments(fragments: seq<Fragment>)
      requires Valid() && Narrow(fragments)
      modifies Inner
      ensures Valid() && Value() == old(Value()).(planes := M.FreeFragments(old(Value()).planes, fragments))
    {
      hide Values, PlaneFree;
      for k := 0 to |fragments|
        invariant Valid() && Value() == old(Value()).(planes := Value().planes)
        invariant M.FreeFragments(old(Value()).planes, fragments) == M.FreeFragments(Value().planes, fragments[k..])
      {
        var f := fragments[k];
        var ok := FreeIn(f.plane, f.start);
        assert fragments[k..][1..] == fragments[k + 1..];
      }
    }

    /** One round of the fragment loop: as much of `remaining` as plane `j` has free, in one
        run. */
    method TakePart(j: nat, remaining: nat) returns (r: Find, n: nat)
      requires Valid() && j < |planes|
      modifies Inner
      ensures Valid() && n == Min(old(Value()).planes[j].FreeBytes(), remaining) < U16
      ensures r == if n == 0 then NotFound else Search(old(Value()).planes[j].used, n)
      ensures Value() == if r.Found? then old(Value()).(planes := Taken(old(Value()).planes, j, r.start, n))
        else old(Value())
      ensures r.Found? ==> r.start < U16
    {
      hide Values, CountFree, Search, Taken;
      var free := planes[j].FreeBytes();
      n := if free < remaining then free else remaining;
      r := NotFound;
      if n > 0 {
        r := Take(j, n);
      }
    }

    /** The fragment loop of a promotion. */
    method Carve(size: nat) returns (fragments: seq<Fragment>, remaining: nat, crashed: bool)
      requires Valid()
      modifies Inner
      ensures Valid() && Narrow(fragments)
      ensures var c := M.Carve(Carving(old(Value()).planes, [], size, false), 0);
        crashed == c.crashed && (!crashed ==> Carving(Value().planes, fragments, remaining, false) == c)
      ensures Value() == old(Value()).(planes := Value().planes)
    {
      hide Values, CountFree, Search, Occupy;
      fragments, remaining, crashed := [], size, false;
      ghost var c := M.Carve(Carving(Value().planes, [], size, false), 0);
      for j := 0 to |planes|
        invariant Valid() && Narrow(fragments) && Value() == old(Value()).(planes := Value().planes)
        invariant c == M.Carve(Carving(Value().planes, fragments, remaining, false), j)
      {
        if remaining == 0 {
          return;
        }
        ghost var v := Value().planes;
        var r, n := TakePart(j, remaining);
        CarveStep(Carving(v, fragments, remaining, false), j);
        if r.Panics? {
          return fragments, remaining, true;
        }
        if r.Found? {
          fragments := fragments + [Fragment(planes[j].id, r.start, n, fragments == [])];
          remaining := remaining - n;
        }
      }
    }

    /** Undoes the fragments of a failed promotion. */
    method Rollback(fragments: seq<Fragment>)
      requires Valid() && Narrow(fragments)
      modifies Inner
      ensures Valid() && Value() == old(Value()).(planes := M.Rollback(old(Value()).planes, fragments))
    {
      hide Values, Vacate;
      for k := 0 to |fragments|
        invariant Valid() && Value() == old(Value()).(planes := Value().planes)
        invariant M.Rollback(old(Value()).planes, fragments) == M.Rollback(Value().planes, fragments[k..])
      {
        Undo(fragments[k]);
        assert fragments[k..][1..] == fragments[k + 1..];
      }
    }

    method Undo(f: Fragment)
      requires Valid() && f.start < U16 && f.size < U16
      modifies Inner
      ensures Valid()
      ensures var v := old(Value()).planes;
        var i := FindPlane(v, f.plane);
        Value() == old(Value()).(planes :=
          if i == |v| then v else v[i := Vacate(v[i], f.start, f.size).(allocs := v[i].allocs - {f.start})])
    {
      hide Values, Vacate, FindPlane;
      var i := GetPlane(f.plane);
      if i < |planes| {
        planes[i].Undo(f.start, f.size);
        OnlyPlane(planes, Inner, i, old(Value()).planes);
      }
    }

    /** Takes a spot for `size` bytes, files the handle and books it. */
    method Serve(size: nat, from: nat, allocId: nat, flags: nat) returns (s: Spot, alloc: Allocation)
      requires Valid() && from <= |planes|
      modifies this, Inner
      ensures Valid() && planes == old(planes) && Inner == old(Inner)
      ensures s == FindSpot(old(Value()).planes, size, from)
      ensures s.At? ==> alloc == Allocation(allocId, Address(id, old(Value()).planes[s.plane].id, s.start), size,
        kind, flags, [])
      ensures Value() == if s.At? then PlaceAt(old(Value()), s.plane, alloc) else old(Value())
    {
      hide Values, FindSpot, Occupy, CountFree, Search;
      alloc := Allocation(allocId, Address(id, 0, 0), size, kind, flags, []);
      s := TakeSpot(size, from);
      if s.At? {
        alloc := Allocation(allocId, Address(id, planes[s.plane].id, s.start), size, kind, flags, []);
        ghost var v := old(Value()).planes;
        Enter(s.plane, alloc);
        Book(size);
        assert Value().planes == v[s.plane := M.Enter(Occupy(v[s.plane], s.start, size), alloc)];
      }
    }

    /** Spreads `size` bytes over the planes, or puts everything back. */
    method Spread(size: nat, allocId: nat, kind: nat, flags: nat) returns (r: Option<Outcome>)
      requires Valid()
      modifies this, Inner
      ensures Valid() && planes == old(planes) && Inner == old(Inner)
      ensures var c := M.Carve(Carving(old(Value()).planes, [], size, false), 0);
        var alloc := Scattered(allocId, id, size, kind, flags, c.fragments);
        if c.crashed then r == Some(Crashed)
        else if c.remaining > 0 then
          r == None && Value() == old(Value()).(planes := M.Rollback(c.planes, c.fragments))
        else
          r == Some(Ok(alloc)) && Value() == Booked(old(Value()), EnterFirst(c.planes, alloc), size)
    {
      hide Values, M.Carve, M.Rollback, FindPlane;
      var fragments, remaining, crashed := Carve(size);
      if crashed {
        return Some(Crashed);
      }
      if remaining > 0 {
        Rollback(fragments);
        return None;
      }
      var alloc := Scattered(allocId, id, size, kind, flags, fragments);
      var i := GetPlane(alloc.addr.y);
      if i < |planes| {
        Enter(i, alloc);
      }
      Book(size);
      r := Some(Ok(alloc));
    }

    /** Gives the blocks of an allocation back, as far as the planes' maps know them. */
    method Release(alloc: Allocation) returns (ok: bool)
      requires Valid() && alloc.addr.z < U16 && (alloc.IsYPromoted() ==> Narrow(alloc.fragments))
      modifies this, Inner
      ensures Valid() && planes == old(planes) && Inner == old(Inner)
      ensures ok == Relieved(old(Value()), alloc).Some?
      ensures Value() == if ok then Relieved(old(Value()), alloc).value else old(Value())
    {
      hide Values, PlaneFree, M.FreeFragments, FindPlane;
      if alloc.IsYPromoted() {
        FreeFragments(alloc.fragments);
      } else {
        ok := FreeIn(alloc.addr.y, alloc.addr.z);
        if !ok {
          return false;
        }
      }
      allocCount, freeBytes := (allocCount + U64 - 1) % U64, (freeBytes + alloc.size) % U64;
      ok := true;
    }
  }
}
