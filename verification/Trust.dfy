/** Which requests of the VM are answered rightly: exactly the trusted ones, and all of them when
    planes are small enough or nothing was ever freed. */
module Trust {
  import opened FirstFit
  import opened Model
  import opened Placement
  import opened Effects
  import opened Runs
  import opened OnePlane

  /** The request did not panic, and what it granted was free space of that size. */
  ghost predicate AnsweredRightly(a: Allocator, s: Step, size: nat)
    requires Flat(a)
  {
    match s.outcome
    case Crashed => false
    case Failed => true
    case Ok(alloc) =>
      alloc.size == size && IsFit(PlaneFor(a, alloc.addr.x).used, size, alloc.addr.z)
  }

  lemma {:induction false} TookIsRight(a: Allocator, b: Allocator, alloc: Allocation, size: nat, kind: nat)
    requires Flat(a) && Took(a, b, alloc, size, kind)
    ensures alloc.size == size && IsFit(PlaneFor(a, alloc.addr.x).used, size, alloc.addr.z)
  {
    hide Promote, Shaped, FreshRegion;
    var x := alloc.addr.x;
    if x !in a.regions { FreshRegionShape(x, kind, a.planeSize); }
    assert Shaped(Base(a, x, kind).planes, a.planeSize);
    PlacedInOnePlane(Base(a, x, kind).planes, b.regions[x].planes, alloc, a.planeSize);
  }

  /** The request panicked, or granted a run that leaves its plane. */
  ghost predicate AnsweredWrongly(a: Allocator, s: Step, size: nat) {
    match s.outcome
    case Crashed => true
    case Failed => false
    case Ok(alloc) => alloc.size == size && alloc.addr.z + size > a.planeSize
  }

  /** What a search returns and is not a fit runs past the end. */
  lemma {:induction false} FoundOutside(used: seq<bool>, size: nat, z: nat)
    requires 0 < size && |used| < U16 && Search(used, size) == Found(z) && !IsFit(used, size, z)
    ensures z + size > |used|
  {
    hide Scan;
    FoundInsideIsFit(used, size, 0, z);
  }

  lemma {:induction false} FastWrong(a: Allocator, size: nat, kind: nat, flags: nat, hint: nat)
    requires Flat(a) && size > 0 && !FastTrusted(a, size, kind, 0)
    ensures a.planeSize > 0 && AnsweredWrongly(a, Allocate(a, size, kind, flags, hint), size)
  {
    hide FastScan, FastTrusted, PlaceAt, Promote, IsFit, Search, CountFree, Shaped;
    FlatConfig(a);
    FastScanExact(a, size, kind, 0);
    var h := FastScan(a, size, kind, 0);
    assert !h.Miss?;
    if h.Hit? {
      PlaneLength(a, h.x);
      FoundOutside(a.regions[h.x].planes[h.plane].used, size, h.start);
    }
  }

  lemma {:induction false} PromotionWrong(a: Allocator, size: nat, kind: nat, flags: nat, hint: nat)
    requires Flat(a) && size > 0 && FastTrusted(a, size, kind, 0) && FastMisses(a, size, kind, 0)
    requires !PromotionTrusted(a, size, kind, hint)
    ensures a.planeSize > 0 && AnsweredWrongly(a, Allocate(a, size, kind, flags, hint), size)
  {
    hide FastScan, FastTrusted, FastMisses, PromoteIn, Promote, IsFit, WrapSafe, CountFree, Search, Best, Booked,
      PlanesNeeded,
      AllocateNewRegion, Occupy;
    FlatConfig(a);
    FastScanExact(a, size, kind, 0);
    var x := ChooseBest(a, size, kind, hint).value;
    BestOnePlane(a, x, size, kind);
    PlaneLength(a, x);
    var used := PlaneOf(a, x).used;
    SearchExact(used, size);
    PromoteOnePlane(a, x, size, kind, flags);
    NoFit(used, size);
    if Search(used, size).Found? { FoundOutside(used, size, Search(used, size).start); }
  }

  /** A request of the VM that is not trusted panics, or is granted a run that leaves its plane. */
  lemma {:induction false} DistrustedGoesWrong(a: Allocator, size: nat, kind: nat, flags: nat, hint: nat)
    requires Flat(a) && size > 0 && !Trusted(a, size, kind, hint)
    ensures a.planeSize > 0 && AnsweredWrongly(a, Allocate(a, size, kind, flags, hint), size)
  {
    hide Flat, Allocate, FastTrusted, FastMisses, PromotionTrusted, AnsweredWrongly;
    if !FastTrusted(a, size, kind, 0) {
      FastWrong(a, size, kind, flags, hint);
    } else {
      PromotionWrong(a, size, kind, flags, hint);
    }
  }

  lemma {:induction false} WrongIsNotRight(a: Allocator, s: Step, size: nat, x: nat)
    requires Flat(a) && AnsweredWrongly(a, s, size) && (s.outcome.Ok? ==> s.outcome.alloc.addr.x == x)
    ensures !AnsweredRightly(a, s, size)
  {
    hide Shaped;
    if x in a.regions { PlaneLength(a, x); }
  }

  lemma {:induction false} NoFit(used: seq<bool>, size: nat)
    requires !HasFit(used, size)
    ensures forall p :: !IsFit(used, size, p)
  {
  }

  /** A request of the VM is answered rightly if and only if it is trusted: a condition on the
      bitmaps, the region list and the tie-break that can be checked before the call. */
  lemma {:induction false} RightIffTrusted(a: Allocator, size: nat, kind: nat, flags: nat, hint: nat)
    requires Flat(a) && size > 0
    ensures a.planeSize > 0
    ensures AnsweredRightly(a, Allocate(a, size, kind, flags, hint), size) <==> Trusted(a, size, kind, hint)
  {
    hide Flat, Allocate, Trusted, Took, IsFit, PlaneFor, AnsweredWrongly;
    FlatConfig(a);
    var s := Allocate(a, size, kind, flags, hint);
    if Trusted(a, size, kind, hint) {
      TrustedEffect(a, size, kind, flags, hint);
      if s.outcome.Ok? { TookIsRight(a, s.a, s.outcome.alloc, size, kind); }
    } else {
      DistrustedGoesWrong(a, size, kind, flags, hint);
      WrongIsNotRight(a, s, size, if s.outcome.Ok? then s.outcome.alloc.addr.x else 0);
    }
  }

  /** Trusted or not, a grant never starts at a used byte. */
  lemma {:induction false} GrantStartsFree(a: Allocator, size: nat, kind: nat, flags: nat, hint: nat)
    requires Flat(a) && size > 0 && a.planeSize > 0 && Allocate(a, size, kind, flags, hint).outcome.Ok?
    ensures var addr := Allocate(a, size, kind, flags, hint).outcome.alloc.addr;
      && addr.x > 0 && addr.y == 0
      && (addr.x in a.regions ==> addr.z < |PlaneOf(a, addr.x).used| && !PlaneOf(a, addr.x).used[addr.z])
  {
    hide FastScan, TryYPromotion, PlaceAt, Promote, Search, CountFree, Shaped, AllocateNewRegion;
    var h := FastScan(a, size, kind, 0);
    if h.Hit? {
      PlaneLength(a, h.x);
      FoundIsFree(PlaneOf(a, h.x).used, size, h.start);
    } else {
      PromotionStartsFree(a, size, kind, flags, hint);
      if TryYPromotion(a, size, kind, flags, hint).result.None? { NewRegionStarts(a, size, kind, flags); }
    }
  }

  lemma {:induction false} FoundIsFree(used: seq<bool>, size: nat, z: nat)
    requires 0 < size && |used| < U16 && Search(used, size) == Found(z)
    ensures z < |used| && !used[z]
  {
    hide Scan;
    FoundInsideIsFit(used, size, 0, z);
  }

  lemma {:induction false} PromotionStartsFree(a: Allocator, size: nat, kind: nat, flags: nat, hint: nat)
    requires Flat(a) && size > 0 && a.planeSize > 0
    ensures var y := TryYPromotion(a, size, kind, flags, hint);
      && (y.result.None? ==> y.a == a)
      && (y.result.Some? && y.result.value.Ok? ==>
            var addr := y.result.value.alloc.addr;
            && addr.x > 0 && addr.y == 0 && addr.x in a.regions
            && addr.z < |PlaneOf(a, addr.x).used| && !PlaneOf(a, addr.x).used[addr.z])
  {
    hide PromoteIn, Promote, Search, CountFree, Shaped, PlanesNeeded, Best, Booked, Occupy;
    var best := ChooseBest(a, size, kind, hint);
    if best.Some? {
      var x := best.value;
      BestOnePlane(a, x, size, kind);
      PlaneLength(a, x);
      PromoteOnePlane(a, x, size, kind, flags);
      var used := PlaneOf(a, x).used;
      if Search(used, size).Found? { FoundIsFree(used, size, Search(used, size).start); }
    }
  }

  lemma {:induction false} NewRegionStarts(a: Allocator, size: nat, kind: nat, flags: nat)
    requires Flat(a)
    ensures var s := AllocateNewRegion(a, size, kind, flags);
      s.outcome.Ok? ==> var addr := s.outcome.alloc.addr; addr.x > 0 && addr.y == 0 && addr.x !in a.regions
  {
    hide FindSpot, PlaceAt, Promote, FreshRegion, Shaped;
  }

  // ----------------------------------------------------------------- when all are trusted

  /** Planes are small enough, or the used bytes of every plane form a prefix. */
  ghost predicate Careful(a: Allocator) {
    a.planeSize <= SAFE_LENGTH || PrefixState(a)
  }

  lemma {:induction false} CarefulPlane(a: Allocator, x: nat, size: nat)
    requires Flat(a) && Careful(a) && x in a.regions && 0 < size <= CountFree(PlaneOf(a, x).used)
    ensures HasFit(PlaneOf(a, x).used, size) || WrapSafe(PlaneOf(a, x).used, size)
  {
    hide CountFree, WrapSafe, Search, Shaped;
    PlaneLength(a, x);
    var used := PlaneOf(a, x).used;
    if a.planeSize <= SAFE_LENGTH {
      GuardedIsWrapSafe(used, size);
    } else {
      PrefixSearch(used, size);
      assert IsFit(used, size, |used| - CountFree(used));
    }
  }

  lemma {:induction false} CarefulFast(a: Allocator, size: nat, kind: nat, i: nat)
    requires Flat(a) && Careful(a) && size > 0 && i <= |a.lru|
    ensures FastTrusted(a, size, kind, i)
    decreases |a.lru| - i
  {
    hide Careful, CountFree, WrapSafe, HasFit, Shaped;
    if i < |a.lru| {
      CarefulFast(a, size, kind, i + 1);
      if size <= CountFree(PlaneOf(a, a.lru[i]).used) { CarefulPlane(a, a.lru[i], size); }
    }
  }

  lemma {:induction false} CarefulIsTrusted(a: Allocator, size: nat, kind: nat, hint: nat)
    requires Flat(a) && Careful(a) && size > 0
    ensures Trusted(a, size, kind, hint)
  {
    hide Flat, Careful, CountFree, WrapSafe, HasFit, FastTrusted, FastMisses, Best, PlanesNeeded;
    CarefulFast(a, size, kind, 0);
    FlatConfig(a);
    var best := ChooseBest(a, size, kind, hint);
    if best.Some? {
      BestOnePlane(a, best.value, size, kind);
      CarefulPlane(a, best.value, size);
    }
  }

  lemma {:induction false} AllocateKeepsCareful(a: Allocator, size: nat, kind: nat, flags: nat, hint: nat)
    requires Flat(a) && Careful(a) && size < U32
    ensures a.planeSize > 0 && Careful(Allocate(a, size, kind, flags, hint).a)
  {
    hide Flat, PrefixState, Allocate;
    FlatConfig(a);
    if a.planeSize > SAFE_LENGTH {
      StepKeepsPrefix(a, DoAllocate(size, kind, flags, hint));
    }
  }
}
