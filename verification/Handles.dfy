/** Freeing with any handle, live or stale: what the allocator finds under its address or its
    fragments, and exactly when the invariant survives. */
module Handles {
  import opened FirstFit
  import opened Model
  import opened Placement
  import opened Layout
  import opened Invariant

  /** Where an entry is filed: under a start of a plane. */
  datatype Slot = Slot(plane: nat, start: nat)

  ghost predicate Filed(planes: seq<Plane>, s: Slot) {
    s.plane < |planes| && s.start in planes[s.plane].allocs
  }

  function Freed(planes: seq<Plane>, s: Slot): seq<Plane>
    requires Filed(planes, s)
  {
    planes[s.plane := PlaneFree(planes[s.plane], s.start).value]
  }

  /** The entries that the fragment loop finds and frees, in order. */
  ghost function Hits(planes: seq<Plane>, fragments: seq<Fragment>): seq<Slot>
    decreases |fragments|
  {
    if fragments == [] then []
    else
      var s := Slot(FindPlane(planes, fragments[0].plane), fragments[0].start);
      if Filed(planes, s) then [s] + Hits(Freed(planes, s), fragments[1..]) else Hits(planes, fragments[1..])
  }

  /** The entries that freeing `alloc` removes; `None` is an error return. */
  ghost function Targets(a: Allocator, alloc: Allocation): Option<seq<Slot>> {
    if alloc.addr.x !in a.regions then None
    else
      var planes := a.regions[alloc.addr.x].planes;
      var s := Slot(FindPlane(planes, alloc.addr.y), alloc.addr.z);
      if alloc.IsYPromoted() then Some(Hits(planes, alloc.fragments))
      else if Filed(planes, s) then Some([s])
      else None
  }

  /** Freeing is harmless when it errs, or removes exactly one entry, not a promoted one, of the
      size that the handle claims. */
  ghost predicate Harmless(a: Allocator, alloc: Allocation) {
    match Targets(a, alloc)
    case None => true
    case Some(slots) =>
      && |slots| == 1 && alloc.addr.x in a.regions && Filed(a.regions[alloc.addr.x].planes, slots[0])
      && var e := a.regions[alloc.addr.x].planes[slots[0].plane].allocs[slots[0].start];
      && !e.IsYPromoted() && e.size == alloc.size
  }

  // ------------------------------------------------------------------ what is removed

  lemma {:induction false} FreedLive(planes: seq<Plane>, s: Slot)
    requires Filed(planes, s)
    ensures |Freed(planes, s)| == |planes| && LiveCount(Freed(planes, s)) == LiveCount(planes) - 1
  {
    hide LiveCount, PlaneFree;
    FreedShape(planes[s.plane], s.start);
    LiveCountUpdate(planes, s.plane, PlaneFree(planes[s.plane], s.start).value);
    RemovedKey(planes[s.plane].allocs, s.start);
  }

  lemma {:induction false} RemovedKey(m: map<nat, Allocation>, k: nat)
    requires k in m
    ensures |m - {k}| == |m| - 1
  {
    assert (m - {k}).Keys == m.Keys - {k};
    assert |m.Keys| == |m|;
    assert |(m - {k}).Keys| == |m - {k}|;
  }

  lemma {:induction false} HitsCount(planes: seq<Plane>, fragments: seq<Fragment>)
    ensures |Hits(planes, fragments)| <= LiveCount(planes)
    ensures LiveCount(FreeFragments(planes, fragments)) == LiveCount(planes) - |Hits(planes, fragments)|
    decreases |fragments|
  {
    hide LiveCount, PlaneFree;
    if fragments != [] {
      var s := Slot(FindPlane(planes, fragments[0].plane), fragments[0].start);
      if Filed(planes, s) {
        FreedShape(planes[s.plane], s.start);
        FreedLive(planes, s);
        HitsCount(Freed(planes, s), fragments[1..]);
      } else {
        UnfiledIsUnknown(planes, s);
        HitsCount(planes, fragments[1..]);
      }
    }
  }

  lemma {:induction false} UnfiledIsUnknown(planes: seq<Plane>, s: Slot)
    requires !Filed(planes, s)
    ensures s.plane < |planes| ==> PlaneFree(planes[s.plane], s.start).None?
  {
  }

  lemma {:induction false} NoHits(planes: seq<Plane>, fragments: seq<Fragment>)
    requires Hits(planes, fragments) == []
    ensures FreeFragments(planes, fragments) == planes
    decreases |fragments|
  {
    hide PlaneFree;
    if fragments != [] {
      UnfiledIsUnknown(planes, Slot(FindPlane(planes, fragments[0].plane), fragments[0].start));
      NoHits(planes, fragments[1..]);
    }
  }

  lemma {:induction false} OneHit(planes: seq<Plane>, fragments: seq<Fragment>)
    requires |Hits(planes, fragments)| == 1
    ensures Filed(planes, Hits(planes, fragments)[0])
    ensures FreeFragments(planes, fragments) == Freed(planes, Hits(planes, fragments)[0])
    decreases |fragments|
  {
    hide PlaneFree;
    var s := Slot(FindPlane(planes, fragments[0].plane), fragments[0].start);
    if Filed(planes, s) {
      FreedShape(planes[s.plane], s.start);
      NoHits(Freed(planes, s), fragments[1..]);
    } else {
      UnfiledIsUnknown(planes, s);
      OneHit(planes, fragments[1..]);
    }
  }

  // --------------------------------------------------------------------- the counters

  lemma {:induction false} KeysBelow(keys: set<nat>, n: nat)
    requires forall z | z in keys :: z < n
    ensures |keys| <= n
  {
    if n > 0 {
      KeysBelow(keys - {n - 1}, n - 1);
    } else {
      assert keys == {};
    }
  }

  /** There are at most as many entries as bytes. */
  lemma {:induction false} LiveBound(planes: seq<Plane>, planeSize: nat)
    requires forall i, z | 0 <= i < |planes| && z in planes[i].allocs :: z < planeSize
    ensures LiveCount(planes) <= |planes| * planeSize
  {
    if planes != [] {
      var n := |planes| - 1;
      LiveBound(planes[..n], planeSize);
      KeysBelow(planes[n].allocs.Keys, planeSize);
      assert |planes[n].allocs.Keys| == |planes[n].allocs|;
      MulSucc(n, planeSize);
    }
  }

  lemma {:induction false} EntryInside(planes: seq<Plane>, x: nat, planeSize: nat, s: Slot)
    requires EntriesOk(planes, x, planeSize) && Filed(planes, s)
    ensures s.start < planeSize && planes[s.plane].allocs[s.start].addr == Address(x, s.plane, s.start)
  {
    assert EntryOk(planes[s.plane].allocs[s.start], x, s.plane, s.start, |planes|, planeSize);
  }

  lemma {:induction false} FewEntries(a: Allocator, x: nat)
    requires Inv(a) && x in a.regions
    ensures LiveCount(a.regions[x].planes) < U64
  {
    hide Tiled, TotalFree, LiveCount, EntriesOk, Shaped;
    var r := a.regions[x];
    assert RegionInv(r, a.planeSize);
    forall i, z | 0 <= i < |r.planes| && z in r.planes[i].allocs ensures z < a.planeSize {
      EntryInside(r.planes, r.id, a.planeSize, Slot(i, z));
    }
    LiveBound(r.planes, a.planeSize);
    MulBound(|r.planes|, a.planeSize, U32, U16);
  }

  /** A 64-bit counter that falls by one follows a count that falls by `k` only if `k` is one. */
  lemma {:induction false} CountsOnce(n: nat, k: nat)
    requires k <= n < U64
    ensures (n % U64 + U64 - 1) % U64 == (n - k) % U64 <==> k == 1
  {
    if n == 0 {
      assert (U64 - 1) % U64 == U64 - 1;
    } else {
      assert (n + U64 - 1) % U64 == n - 1;
    }
  }

  lemma {:induction false} SameCredit(n: nat, s: nat, t: nat)
    requires s < U64 && t < U64
    ensures (n + s) % U64 == (n + t) % U64 <==> s == t
  {
    if s < t { Shifted(n + s, t - s); }
    if t < s { Shifted(n + t, s - t); }
  }

  lemma {:induction false} Shifted(n: nat, d: nat)
    requires 0 < d < U64
    ensures (n + d) % U64 != n % U64
  {
    var q, m := n / U64, n % U64;
    assert n == q * U64 + m;
    if m + d < U64 { assert (n + d) / U64 == q; } else { assert (n + d) / U64 == q + 1; }
  }

  // ----------------------------------------------------------------------- exactly when

  /** The allocator after the entry at `s` of region `x` went, with `size` bytes credited. */
  function Credited(a: Allocator, x: nat, s: Slot, size: nat): Allocator
    requires x in a.regions && Filed(a.regions[x].planes, s)
  {
    var r := a.regions[x];
    a.(regions := a.regions[x := r.(planes := Freed(r.planes, s),
                                    allocCount := (r.allocCount + U64 - 1) % U64,
                                    freeBytes := (r.freeBytes + size) % U64)])
  }

  lemma {:induction false} CreditedPromoted(a: Allocator, x: nat, s: Slot, size: nat)
    requires Inv(a) && x in a.regions && Filed(a.regions[x].planes, s)
    requires a.regions[x].planes[s.plane].allocs[s.start].IsYPromoted()
    ensures !Inv(Credited(a, x, s, size))
  {
    hide EntriesOk, Sound, Exclusive, PlaneFree, TotalFree, LiveCount;
    var r := a.regions[x];
    assert RegionInv(r, a.planeSize);
    EntryInside(r.planes, r.id, a.planeSize, s);
    FreedShape(r.planes[s.plane], s.start);
    SecondFragmentOrphaned(r.planes, r.id, r.planes[s.plane].allocs[s.start], a.planeSize);
    assert !RegionInv(Credited(a, x, s, size).regions[x], a.planeSize);
  }

  lemma {:induction false} CreditedSingle(a: Allocator, x: nat, s: Slot, size: nat)
    requires Inv(a) && x in a.regions && Filed(a.regions[x].planes, s) && size < U64
    requires !a.regions[x].planes[s.plane].allocs[s.start].IsYPromoted()
    ensures Inv(Credited(a, x, s, size)) <==> size == a.regions[x].planes[s.plane].allocs[s.start].size
  {
    hide EntriesOk, Tiled, PlaneFree, TotalFree, LiveCount, Released;
    var r := a.regions[x];
    assert RegionInv(r, a.planeSize);
    EntryInside(r.planes, r.id, a.planeSize, s);
    var e := r.planes[s.plane].allocs[s.start];
    assert e.size < U64 by { SingleIsSmall(r.planes, r.id, a.planeSize, s); }
    FreeSingleKeeps(a, e);
    FindPlaneByPosition(r.planes, s.plane, a.planeSize);
    FreedShape(r.planes[s.plane], s.start);
    var b, c := Credited(a, x, s, size), Free(a, e).value;
    assert c == Credited(a, x, s, e.size);
    SameCredit(r.freeBytes, size, e.size);
    if size != e.size {
      assert RegionInv(c.regions[x], a.planeSize);
      assert b.regions[x].freeBytes != c.regions[x].freeBytes && b.regions[x].planes == c.regions[x].planes;
      assert !RegionInv(b.regions[x], a.planeSize);
    }
  }

  lemma {:induction false} SingleIsSmall(planes: seq<Plane>, x: nat, planeSize: nat, s: Slot)
    requires EntriesOk(planes, x, planeSize) && Filed(planes, s) && planeSize < U16
    requires !planes[s.plane].allocs[s.start].IsYPromoted()
    ensures planes[s.plane].allocs[s.start].size < U64
  {
    var e := planes[s.plane].allocs[s.start];
    assert EntryOk(e, x, s.plane, s.start, |planes|, planeSize);
    SinglePiece(e, x, s.plane, s.start, |planes|, planeSize);
  }

  /** When the loop over the fragments of a handle finds several entries or none, the count of
      allocations goes wrong. */
  lemma {:induction false} MiscountBreaks(a: Allocator, alloc: Allocation)
    requires Inv(a) && alloc.addr.x in a.regions && alloc.IsYPromoted()
    requires |Hits(a.regions[alloc.addr.x].planes, alloc.fragments)| != 1
    ensures Free(a, alloc).Some? && !Inv(Free(a, alloc).value)
  {
    hide EntriesOk, Tiled, TotalFree, LiveCount, FreeFragments, Hits, Shaped;
    var r := a.regions[alloc.addr.x];
    assert RegionInv(r, a.planeSize);
    FewEntries(a, alloc.addr.x);
    HitsCount(r.planes, alloc.fragments);
    CountsOnce(LiveCount(r.planes), |Hits(r.planes, alloc.fragments)|);
    var b := Free(a, alloc).value;
    assert !RegionInv(b.regions[alloc.addr.x], a.planeSize);
  }

  lemma {:induction false} FreeIsCredited(a: Allocator, alloc: Allocation)
    requires Targets(a, alloc).Some? && |Targets(a, alloc).value| == 1
    ensures alloc.addr.x in a.regions && Filed(a.regions[alloc.addr.x].planes, Targets(a, alloc).value[0])
    ensures Free(a, alloc) == Some(Credited(a, alloc.addr.x, Targets(a, alloc).value[0], alloc.size))
  {
    hide FreeFragments, Hits, PlaneFree, FindPlane;
    var planes := a.regions[alloc.addr.x].planes;
    var s := Targets(a, alloc).value[0];
    if alloc.IsYPromoted() {
      OneHit(planes, alloc.fragments);
    } else {
      FreedShape(planes[s.plane], s.start);
    }
  }

  lemma {:induction false} FreeErrs(a: Allocator, alloc: Allocation)
    ensures Free(a, alloc).Some? <==> Targets(a, alloc).Some?
  {
    hide FreeFragments, Hits, FindPlane;
  }

  /** Freeing any handle at all errs and changes nothing, or removes the entries found under it.
      The layout and the counters stay exact if and only if the call is harmless: it errs, or it
      removes exactly one entry, one that is not Y-promoted and has the size of the handle. */
  lemma {:induction false} FreeKeepsInvIffHarmless(a: Allocator, alloc: Allocation)
    requires Inv(a) && alloc.size < U32
    ensures Free(a, alloc).Some? <==> Targets(a, alloc).Some?
    ensures Free(a, alloc).Some? ==> (Inv(Free(a, alloc).value) <==> Harmless(a, alloc))
  {
    hide Inv, Free, Hits, Credited;
    FreeErrs(a, alloc);
    if Targets(a, alloc).Some? {
      var x, slots := alloc.addr.x, Targets(a, alloc).value;
      if |slots| == 1 {
        FreeIsCredited(a, alloc);
        if a.regions[x].planes[slots[0].plane].allocs[slots[0].start].IsYPromoted() {
          CreditedPromoted(a, x, slots[0], alloc.size);
        } else {
          CreditedSingle(a, x, slots[0], alloc.size);
        }
      } else {
        MiscountBreaks(a, alloc);
      }
    }
  }

  /** A live handle is freed harmlessly exactly when it is not Y-promoted. */
  lemma {:induction false} LiveIsHarmlessIff(a: Allocator, alloc: Allocation)
    requires Inv(a) && Live(a, alloc) && alloc.size < U32
    ensures Harmless(a, alloc) <==> !alloc.IsYPromoted()
  {
    hide Inv, Free;
    FreeKeepsInvIff(a, alloc);
    FreeKeepsInvIffHarmless(a, alloc);
  }

  lemma {:induction false} ErrorIsHarmless(a: Allocator, alloc: Allocation)
    requires Targets(a, alloc).None?
    ensures Harmless(a, alloc)
  {
  }

  /** What freeing a live promoted allocation clears: in the plane of its first fragment as many
      bytes as the whole allocation has, in 16 bits, whoever owns them; and nothing elsewhere. */
  lemma {:induction false} PromotedFreeClears(a: Allocator, alloc: Allocation)
    requires Inv(a) && Live(a, alloc) && alloc.IsYPromoted()
    ensures Free(a, alloc).Some?
    ensures var planes, after := a.regions[alloc.addr.x].planes, Free(a, alloc).value.regions[alloc.addr.x].planes;
      var y, z := alloc.addr.y, alloc.addr.z;
      && |after| == |planes| && (forall i | 0 <= i < |planes| && i != y :: after[i] == planes[i])
      && |after[y].used| == |planes[y].used| && after[y].allocs == planes[y].allocs - {z}
      && forall q | 0 <= q < |planes[y].used| ::
           after[y].used[q] <==> planes[y].used[q] && !(z <= q < (z + alloc.size % 0x1_0000) % 0x1_0000)
  {
    hide FreeFragments, Tiled, EntriesOk, TotalFree, LiveCount;
    var r := a.regions[alloc.addr.x];
    assert RegionInv(r, a.planeSize);
    FreeFragmentsEffect(r.planes, r.id, alloc, a.planeSize);
  }
}
