/** Where 16-bit arithmetic starts to hurt: 43690 is the largest plane size for which every
    lawful run is safe. The shipped plane size, 65535, is beyond it. */
module Threshold {
  import opened FirstFit
  import opened Model
  import opened Placement
  import opened Effects
  import opened Layout
  import opened Invariant
  import opened Handles
  import opened Runs

  /** One byte used block of length `n = 65536 - length` behind a free one of the same length:
      enough is free, nothing fits, and the search does not say so. */
  lemma {:induction false} SearchGoesWrong(used: seq<bool>, n: nat)
    requires SAFE_LENGTH < |used| < U16 && n == U16 - |used|
    requires forall i | 0 <= i < |used| :: used[i] == (n <= i < 2 * n)
    ensures 2 * n <= |used| && CountFree(used) == |used| - n
    ensures match Search(used, |used| - n)
            case Found(z) => z + (|used| - n) > |used|
            case NotFound => false
            case Panics => true
  {
    hide Scan, CountFree, FirstLate;
    var size := |used| - n;
    BlockCount(used, n);
    forall p: nat ensures !IsFit(used, size, p) {
      if p + size <= |used| { assert p <= n < p + size && used[n]; }
    }
    var f := FirstLate(used, size, 0);
    assert f == 2 * n by {
      assert !used[2 * n] && 2 * n + size > |used|;
      assert f < 2 * n ==> f < n && f + size > |used|;
    }
    assert !WrapSafe(used, size) by {
      assert 2 * n + 1 < |used| ==> !used[2 * n + 1];
    }
    FailsIffWrapSafe(used, size);
    if Search(used, size).Found? {
      FoundInsideIsFit(used, size, 0, Search(used, size).start);
    }
  }

  lemma {:induction false} BlockCount(used: seq<bool>, n: nat)
    requires 2 * n <= |used| && forall i | 0 <= i < |used| :: used[i] == (n <= i < 2 * n)
    ensures CountFree(used) == |used| - n
  {
    hide CountFree;
    CountFreeSplit3(used, n, 2 * n);
    CountFreeAllFree(used[..n]);
    CountFreeAllUsed(used[n..2 * n]);
    CountFreeAllFree(used[2 * n..]);
  }

  // --------------------------------------------------------------- one region, one plane

  /** A single region, number 2, with a single plane. */
  ghost predicate Solo(a: Allocator, kind: nat, used: seq<bool>) {
    && WellFormed(a) && a.regions.Keys == {2} && a.lru == [2]
    && a.regions[2].kind == kind && |a.regions[2].planes| == 1
    && a.regions[2].planes[0].used == used
    && a.regions[2].freeBytes == CountFree(used)
  }

  lemma {:induction false} SoloScan(a: Allocator, kind: nat, used: seq<bool>, size: nat)
    requires Solo(a, kind, used) && size <= CountFree(used)
    ensures FastScan(a, size, kind, 0)
         == match Search(used, size)
            case Found(z) => Hit(2, 0, z)
            case NotFound => Miss
            case Panics => Boom
  {
    hide Search, CountFree;
    var planes := a.regions[2].planes;
    assert FindSpot(planes, size, 1) == Nowhere;
    assert FastScan(a, size, kind, 1) == Miss;
  }

  /** A served request marks its bytes and is filed under its start. */
  lemma {:induction false} SoloAllocate(a: Allocator, kind: nat, used: seq<bool>, size: nat, hint: nat)
    returns (b: Allocator, alloc: Allocation)
    requires Solo(a, kind, used) && Prefix(used) && 0 < size <= CountFree(used)
    ensures Allocate(a, size, kind, 0, hint) == Step(b, Ok(alloc))
    ensures b.planeSize == a.planeSize
    ensures var z := |used| - CountFree(used);
      && alloc.addr == Address(2, 0, z) && alloc.size == size && alloc.fragments == []
      && Solo(b, kind, Mark(used, z, z + size))
      && b.regions[2].planes[0].allocs == a.regions[2].planes[0].allocs[z := alloc]
  {
    hide Search, CountFree, IsFirstFit, Prefix, Debit;
    PrefixSearch(used, size);
    SoloScan(a, kind, used, size);
    var z, r := |used| - CountFree(used), a.regions[2];
    alloc := Simple(a, Address(2, 0, z), size, kind, 0);
    b := Install(a, 2, PlaceAt(r, 0, alloc));
    assert Promote([2], 2, true) == [2] by { assert Without([2], 2) == []; }
    assert IsFit(used, size, z) by { FirstIsFit(used, size, z); }
    SmallMod(z + size, U16);
    CountFreeMark(used, z, z + size);
    SmallMod(CountFree(used), U64);
    SmallMod(CountFree(used) - size, U64);
    DebitExact(CountFree(used), size);
  }

  lemma {:induction false} FirstIsFit(used: seq<bool>, size: nat, z: nat)
    requires IsFirstFit(used, size, z)
    ensures IsFit(used, size, z)
  {
  }

  lemma {:induction false} SoloStartFlagged(planeSize: nat, maxY: nat, kind: nat, flags: nat, size: nat, hint: nat)
    returns (b: Allocator, alloc: Allocation)
    requires 0 < size <= planeSize < U16
    ensures Allocate(Init(planeSize, maxY), size, kind, flags, hint) == Step(b, Ok(alloc)) && b.planeSize == planeSize
    ensures alloc.addr == Address(2, 0, 0) && alloc.size == size && alloc.fragments == [] && alloc.flags == flags
    ensures Solo(b, kind, Mark(seq(planeSize, _ => false), 0, size))
    ensures b.regions[2].planes[0].allocs == map[0 := alloc]
  {
    hide Search, CountFree, Debit, FindSpot, PlanesNeeded, TotalFree, AllTame, KeysTaken;
    var a := Init(planeSize, maxY);
    assert FastScan(a, size, kind, 0) == Miss;
    assert TryYPromotion(a, size, kind, flags, hint) == Attempt(a, None);
    var r := FreshRegion(2, kind, planeSize);
    FreshRegionShape(2, kind, planeSize);
    FreshSpot(r.planes, size, planeSize);
    var c := a.(nextRegion := 2, regions := a.regions[2 := r]);
    alloc := Simple(c, Address(2, 0, 0), size, kind, flags);
    b := Install(c, 2, PlaceAt(r, 0, alloc));
    assert Promote([], 2, true) == [2] by { assert Without([], 2) == []; }
    SmallMod(size, U16);
    CountFreeMark(r.planes[0].used, 0, size);
    SmallMod(planeSize, U64);
    SmallMod(planeSize - size, U64);
    DebitExact(planeSize, size);
  }

  lemma {:induction false} SoloStart(planeSize: nat, maxY: nat, kind: nat, size: nat, hint: nat)
    returns (b: Allocator, alloc: Allocation)
    requires 0 < size <= planeSize < U16
    ensures Allocate(Init(planeSize, maxY), size, kind, 0, hint) == Step(b, Ok(alloc)) && b.planeSize == planeSize
    ensures alloc.addr == Address(2, 0, 0) && alloc.size == size && alloc.fragments == []
    ensures Solo(b, kind, Mark(seq(planeSize, _ => false), 0, size))
    ensures b.regions[2].planes[0].allocs == map[0 := alloc]
  {
    hide Allocate, Solo;
    b, alloc := SoloStartFlagged(planeSize, maxY, kind, 0, size, hint);
  }

  lemma {:induction false} SoloFree(a: Allocator, kind: nat, used: seq<bool>, alloc: Allocation) returns (b: Allocator)
    requires Solo(a, kind, used) && alloc.addr == Address(2, 0, 0) && alloc.fragments == []
    requires 0 in a.regions[2].planes[0].allocs && a.regions[2].planes[0].allocs[0] == alloc
    requires 0 < alloc.size <= |used| && forall q | 0 <= q < alloc.size :: used[q]
    ensures Harmless(a, alloc) && Free(a, alloc) == Some(b) && b.planeSize == a.planeSize
    ensures Solo(b, kind, Unmark(used, 0, alloc.size))
  {
    hide CountFree;
    var r := a.regions[2];
    FindPlaneByPosition(r.planes, 0, a.planeSize);
    b := Free(a, alloc).value;
    SmallMod(alloc.size, U16);
    CountFreeUnmark(used, 0, alloc.size);
    SmallMod(CountFree(used) + alloc.size, U64);
  }

  /** Beyond the threshold a run of four lawful calls ends in a panic or with a handle that runs
      past its plane: two blocks, the first one freed, and a request for all that is left. */
  lemma {:induction false} LargePlanesUnsafe(planeSize: nat, maxY: nat, kind: nat) returns (acts: seq<Action>)
    requires SAFE_LENGTH < planeSize < U16
    ensures var a := Init(planeSize, maxY);
      && Possible(a, acts) && Lawful(a, acts)
      && (Run(a, acts).outcome == Crashed || !Inv(Run(a, acts).a))
  {
    hide Allocate, Free, CountFree, Search, Prefix, Solo, Harmless;
    var n := U16 - planeSize;
    var size := planeSize - n;
    var a := Init(planeSize, maxY);
    var blank := seq(planeSize, _ => false);
    var b, first := SoloStart(planeSize, maxY, kind, n, 0);
    var used1 := Mark(blank, 0, n);
    CountFreeAllFree(blank);
    CountFreeMark(blank, 0, n);
    assert Prefix(used1) by { PrefixOfBlock(used1, n); }
    var c, second := SoloAllocate(b, kind, used1, n, 0);
    var used2 := Mark(used1, n, n + n);
    var d := SoloFree(c, kind, used2, first);
    var used3 := Unmark(used2, 0, n);
    SearchGoesWrong(used3, n);
    var last := DoAllocate(size, kind, 0, 0);
    LastCallFails(d, kind, used3, size);
    assert d.planeSize == planeSize && Allowed(d, last) && Benign(d, last);
    acts := [DoAllocate(n, kind, 0, 0), DoAllocate(n, kind, 0, 0), DoFree(first), last];
    ChainOfFour(a, b, c, d, acts);
  }

  lemma {:induction false} PrefixOfBlock(used: seq<bool>, n: nat)
    requires forall i | 0 <= i < |used| :: used[i] == (i < n)
    ensures Prefix(used)
  {
  }

  lemma {:induction false} LastCallFails(a: Allocator, kind: nat, used: seq<bool>, size: nat)
    requires Solo(a, kind, used) && 0 < size <= CountFree(used) && size < U32
    requires match Search(used, size)
             case Found(z) => z + size > |used|
             case NotFound => false
             case Panics => true
    ensures var s := Allocate(a, size, kind, 0, 0); s.outcome == Crashed || !Inv(s.a)
    ensures Allocate(a, size, kind, 0, 0).a.planeSize == a.planeSize
  {
    hide Search, CountFree, Tiled;
    SoloScan(a, kind, used, size);
    var s := Allocate(a, size, kind, 0, 0);
    if s.outcome.Ok? {
      var z := Search(used, size).start;
      var r := s.a.regions[2];
      assert z in r.planes[0].allocs && r.planes[0].allocs[z] == s.outcome.alloc;
      assert Pieces(s.outcome.alloc)[0] == Fragment(0, z, size, true);
      assert !EntryOk(s.outcome.alloc, r.id, 0, z, 1, a.planeSize);
    }
  }

  /** Four steps, spelled out. */
  lemma {:induction false} ChainOfFour(a: Allocator, b: Allocator, c: Allocator, d: Allocator, acts: seq<Action>)
    requires |acts| == 4 && a.planeSize > 0 && b.planeSize > 0 && c.planeSize > 0 && d.planeSize > 0
    requires Allowed(a, acts[0]) && Benign(a, acts[0]) && Act(a, acts[0]).a == b && Act(a, acts[0]).outcome != Crashed
    requires Allowed(b, acts[1]) && Benign(b, acts[1]) && Act(b, acts[1]).a == c && Act(b, acts[1]).outcome != Crashed
    requires Allowed(c, acts[2]) && Benign(c, acts[2]) && Act(c, acts[2]).a == d && Act(c, acts[2]).outcome != Crashed
    requires Allowed(d, acts[3]) && Benign(d, acts[3]) && Act(d, acts[3]).a.planeSize > 0
    ensures Possible(a, acts) && Lawful(a, acts)
    ensures Run(a, acts).outcome == Crashed <==> Act(d, acts[3]).outcome == Crashed
    ensures Run(a, acts).a == Act(d, acts[3]).a
  {
    hide Act, Allowed, Benign;
    var e := Act(d, acts[3]).a;
    var s1, s2, s3 := acts[1..], acts[2..], acts[3..];
    assert s1[0] == acts[1] && s1[1..] == s2 && s2[0] == acts[2] && s2[1..] == s3;
    assert s3[0] == acts[3] && s3[1..] == [];
    assert Possible(e, []) && Lawful(e, []) && Run(e, []).a == e;
    assert Possible(d, s3) && Lawful(d, s3);
    assert Possible(c, s2) && Lawful(c, s2);
    assert Possible(b, s1) && Lawful(b, s1);
    assert Run(c, s2) == Run(d, s3);
    assert Run(b, s1) == Run(c, s2);
    assert Run(a, acts) == Run(b, s1);
  }

  /** Exactly the plane sizes up to 43690 make every lawful run safe. */
  lemma {:induction false} SafeExactlyUpToThreshold(planeSize: nat, maxY: nat)
    requires 0 < planeSize < U16
    ensures planeSize <= SAFE_LENGTH <==>
      forall acts | Possible(Init(planeSize, maxY), acts) && Lawful(Init(planeSize, maxY), acts) ::
        Run(Init(planeSize, maxY), acts).outcome != Crashed && Inv(Run(Init(planeSize, maxY), acts).a)
  {
    hide Possible, Lawful, Run, Inv;
    if planeSize <= SAFE_LENGTH {
      InitInv(planeSize, maxY);
      forall acts | Possible(Init(planeSize, maxY), acts) && Lawful(Init(planeSize, maxY), acts)
        ensures Run(Init(planeSize, maxY), acts).outcome != Crashed && Inv(Run(Init(planeSize, maxY), acts).a)
      {
        RunsAreSafe(Init(planeSize, maxY), acts);
      }
    } else {
      var acts := LargePlanesUnsafe(planeSize, maxY, 0);
    }
  }
}
