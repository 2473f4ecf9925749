/** What an allocation takes: the pieces it occupies, when a guarded search can be trusted,
    and that Y-promotion takes either all of its pieces or none. */
module Placement {
  import opened FirstFit
  import opened Model

  // ------------------------------------------------- when searches are trustworthy

  /** The search answers as plain first fit would. */
  ghost predicate Right(used: seq<bool>, size: nat) {
    match Search(used, size)
    case Found(z) => IsFirstFit(used, size, z)
    case NotFound => !HasFit(used, size)
    case Panics => false
  }

  /** Every search that the free count admits is right. */
  ghost predicate Tame(used: seq<bool>) {
    forall size: nat | 0 < size <= CountFree(used) :: Right(used, size)
  }

  lemma {:induction false} LeastFit(used: seq<bool>, size: nat, p: nat) returns (z: nat)
    requires IsFit(used, size, p)
    ensures IsFirstFit(used, size, z)
    decreases p
  {
    if q: nat :| q < p && IsFit(used, size, q) {
      z := LeastFit(used, size, q);
    } else {
      z := p;
    }
  }

  lemma {:induction false} RightIffWrapSafe(used: seq<bool>, size: nat)
    requires |used| < U16 && 0 < size <= |used|
    ensures Right(used, size) <==> HasFit(used, size) || WrapSafe(used, size)
  {
    if p :| IsFit(used, size, p) {
      var z := LeastFit(used, size, p);
      FindsFirstFit(used, size, z);
    } else {
      FailsIffWrapSafe(used, size);
    }
  }

  lemma {:induction false} ShortIsTame(used: seq<bool>)
    requires |used| <= SAFE_LENGTH
    ensures Tame(used)
  {
    forall size: nat | 0 < size <= CountFree(used) ensures Right(used, size) {
      GuardedIsWrapSafe(used, size);
      RightIffWrapSafe(used, size);
    }
  }

  /** The used positions form a prefix. */
  ghost predicate Prefix(used: seq<bool>) {
    forall p, q | 0 <= p <= q < |used| && used[q] :: used[p]
  }

  lemma {:induction false} PrefixCut(used: seq<bool>)
    requires Prefix(used)
    ensures forall p | 0 <= p < |used| :: used[p] == (p < |used| - CountFree(used))
  {
    if used != [] {
      var init := used[..|used| - 1];
      if used[|used| - 1] {
        CountFreeAllUsed(init);
      } else {
        assert Prefix(init);
        PrefixCut(init);
      }
    }
  }

  /** On a prefix, a search that the free count admits returns the used count, whatever the
      length. */
  lemma {:induction false} PrefixSearch(used: seq<bool>, size: nat)
    requires |used| < U16 && Prefix(used) && 0 < size <= CountFree(used)
    ensures Search(used, size) == Found(|used| - CountFree(used))
    ensures IsFirstFit(used, size, |used| - CountFree(used))
  {
    PrefixCut(used);
    var k := |used| - CountFree(used);
    assert IsFit(used, size, k);
    forall q: nat | q < k ensures !IsFit(used, size, q) {
      assert used[q];
    }
    FindsFirstFit(used, size, k);
  }

  lemma {:induction false} PrefixIsTame(used: seq<bool>)
    requires |used| < U16 && Prefix(used)
    ensures Tame(used)
  {
    forall size: nat | 0 < size <= CountFree(used) ensures Right(used, size) {
      PrefixSearch(used, size);
    }
  }

  lemma {:induction false} PrefixOccupy(used: seq<bool>, size: nat)
    requires |used| < U16 && Prefix(used) && 0 < size <= CountFree(used)
    ensures var k := |used| - CountFree(used); Prefix(Mark(used, k, k + size))
  {
    PrefixCut(used);
  }

  // ------------------------------------------------------------------ pieces taken

  /** The parts of planes that an allocation occupies. */
  function Pieces(alloc: Allocation): seq<Fragment> {
    if alloc.fragments == [] then [Fragment(alloc.addr.y, alloc.addr.z, alloc.size, true)]
    else alloc.fragments
  }

  ghost predicate InPiece(f: Fragment, i: nat, p: nat) {
    f.plane == i && f.start <= p < f.start + f.size
  }

  ghost predicate Covered(pieces: seq<Fragment>, i: nat, p: nat) {
    exists k :: 0 <= k < |pieces| && InPiece(pieces[k], i, p)
  }

  function SizeSum(pieces: seq<Fragment>): nat {
    if pieces == [] then 0 else SizeSum(pieces[..|pieces| - 1]) + pieces[|pieces| - 1].size
  }

  /** Plane IDs are plane positions, and every plane has the configured size. */
  ghost predicate Shaped(planes: seq<Plane>, size: nat) {
    forall i | 0 <= i < |planes| ::
      planes[i].id == i && |planes[i].used| == size && |planes[i].data| == size
  }

  /** Pieces inside their planes, in planes of increasing position. */
  ghost predicate InOrder(pieces: seq<Fragment>, planeCount: nat, planeSize: nat) {
    && (forall k | 0 <= k < |pieces| ::
          pieces[k].plane < planeCount && 0 < pieces[k].size && pieces[k].start + pieces[k].size <= planeSize)
    && (forall k, l | 0 <= k < l < |pieces| :: pieces[k].plane < pieces[l].plane)
  }

  /** Every piece is wholly free, and no free run of its length starts earlier in its plane. */
  ghost predicate Vacant(planes: seq<Plane>, pieces: seq<Fragment>)
    requires forall k | 0 <= k < |pieces| :: pieces[k].plane < |planes|
  {
    forall k | 0 <= k < |pieces| :: IsFirstFit(planes[pieces[k].plane].used, pieces[k].size, pieces[k].start)
  }

  ghost function OccupyPiece(p: Plane, pieces: seq<Fragment>, i: nat): (r: Plane)
    ensures r == p.(used := r.used) && |r.used| == |p.used|
    ensures forall q | 0 <= q < |p.used| :: r.used[q] == (p.used[q] || Covered(pieces, i, q))
  {
    p.(used := seq(|p.used|, q requires 0 <= q < |p.used| => p.used[q] || Covered(pieces, i, q)))
  }

  /** The planes with exactly the pieces marked in addition. */
  ghost function OccupyAll(planes: seq<Plane>, pieces: seq<Fragment>): (r: seq<Plane>)
    ensures |r| == |planes|
    ensures forall i | 0 <= i < |r| :: r[i] == OccupyPiece(planes[i], pieces, i)
  {
    seq(|planes|, i requires 0 <= i < |planes| => OccupyPiece(planes[i], pieces, i))
  }

  lemma {:induction false} OccupyNone(planes: seq<Plane>)
    ensures OccupyAll(planes, []) == planes
  {
    forall i | 0 <= i < |planes| ensures OccupyAll(planes, [])[i] == planes[i] {
      assert OccupyPiece(planes[i], [], i).used == planes[i].used;
    }
  }

  /** One more piece, in a plane that has none yet. */
  lemma {:induction false} OccupyOneMore(planes: seq<Plane>, pieces: seq<Fragment>, f: Fragment)
    requires f.plane < |planes| && f.start + f.size < U16
    ensures OccupyAll(planes, pieces + [f])
         == OccupyAll(planes, pieces)[f.plane := Occupy(OccupyAll(planes, pieces)[f.plane], f.start, f.size)]
  {
    var before, after := OccupyAll(planes, pieces), OccupyAll(planes, pieces + [f]);
    var expected := before[f.plane := Occupy(before[f.plane], f.start, f.size)];
    forall i | 0 <= i < |planes| ensures after[i] == expected[i] {
      forall q | 0 <= q < |planes[i].used| ensures after[i].used[q] == expected[i].used[q] {
        CoveredSnoc(pieces, f, i, q);
      }
      assert after[i].used == expected[i].used;
    }
  }

  lemma {:induction false} CoveredSnoc(pieces: seq<Fragment>, f: Fragment, i: nat, p: nat)
    ensures Covered(pieces + [f], i, p) <==> Covered(pieces, i, p) || InPiece(f, i, p)
  {
    var longer := pieces + [f];
    if k :| 0 <= k < |pieces| && InPiece(pieces[k], i, p) {
      assert InPiece(longer[k], i, p);
    }
    if InPiece(f, i, p) {
      assert InPiece(longer[|pieces|], i, p);
    }
  }

  // ---------------------------------------------------------------- Y-promotion

  /** The state of the fragment loop before plane `j`. */
  ghost predicate CarvedFrom(planes: seq<Plane>, c: Carving, j: nat, size: nat, planeSize: nat) {
    && InOrder(c.fragments, |planes|, planeSize)
    && (forall k | 0 <= k < |c.fragments| :: c.fragments[k].plane < j)
    && Vacant(planes, c.fragments)
    && c.planes == OccupyAll(planes, c.fragments)
    && SizeSum(c.fragments) + c.remaining == size
    && !c.crashed
  }

  lemma {:induction false} UntouchedPlane(planes: seq<Plane>, pieces: seq<Fragment>, i: nat)
    requires i < |planes| && forall k | 0 <= k < |pieces| :: pieces[k].plane != i
    ensures OccupyAll(planes, pieces)[i] == planes[i]
  {
    assert OccupyAll(planes, pieces)[i].used == planes[i].used;
  }

  lemma {:induction false} CarveOne(planes: seq<Plane>, c: Carving, j: nat, size: nat, planeSize: nat, z: nat, n: nat)
    requires Shaped(planes, planeSize) && planeSize < U16
    requires j < |planes| == |c.planes| && CarvedFrom(planes, c, j, size, planeSize)
    requires 0 < n <= c.remaining && IsFirstFit(planes[j].used, n, z)
    ensures CarvedFrom(planes, CarveInto(c, j, z, n), j + 1, size, planeSize)
  {
    UntouchedPlane(planes, c.fragments, j);
    var f := Fragment(j, z, n, c.fragments == []);
    OccupyOneMore(planes, c.fragments, f);
    assert (c.fragments + [f])[..|c.fragments|] == c.fragments;
  }

  /** A trusted search under the guard either finds a free run or finds none. */
  lemma {:induction false} TameSearch(used: seq<bool>, n: nat)
    requires Tame(used) && 0 < n <= CountFree(used)
    ensures match Search(used, n)
            case Found(z) => IsFirstFit(used, n, z)
            case NotFound => !HasFit(used, n)
            case Panics => false
  {
    assert Right(used, n);
  }

  lemma {:induction false} CarveReaches(planes: seq<Plane>, c: Carving, j: nat, size: nat, planeSize: nat)
    requires j < |planes| && CarvedFrom(planes, c, j, size, planeSize)
    ensures |c.planes| == |planes| && c.planes[j] == planes[j] && !c.crashed
    ensures CarvedFrom(planes, c, j + 1, size, planeSize)
  {
    UntouchedPlane(planes, c.fragments, j);
  }

  lemma {:induction false} CarveSpec(planes: seq<Plane>, c: Carving, j: nat, size: nat, planeSize: nat)
    requires Shaped(planes, planeSize) && planeSize < U16
    requires forall i | 0 <= i < |planes| :: Tame(planes[i].used)
    requires j <= |planes| == |c.planes| && CarvedFrom(planes, c, j, size, planeSize)
    ensures CarvedFrom(planes, Carve(c, j), |planes|, size, planeSize)
    decreases |planes| - j
  {
    if j < |planes| {
      hide CarvedFrom, Carve, Search, CountFree, CarveInto, Shaped, Tame, IsFirstFit, HasFit;
      CarveReaches(planes, c, j, size, planeSize);
      var p := planes[j];
      var n := Min(p.FreeBytes(), c.remaining);
      if n == 0 {
        CarveStops(c, j);
        CarveSpec(planes, c, j + 1, size, planeSize);
      } else {
        TameSearch(p.used, n);
        CarveSteps(c, j, n);
        match Search(p.used, n)
        case NotFound => CarveSpec(planes, c, j + 1, size, planeSize);
        case Found(z) =>
          CarveOne(planes, c, j, size, planeSize, z, n);
          CarveSpec(planes, CarveInto(c, j, z, n), j + 1, size, planeSize);
      }
    }
  }

  lemma {:induction false} CarveStops(c: Carving, j: nat)
    requires j < |c.planes| && (c.remaining == 0 || c.planes[j].FreeBytes() == 0)
    ensures Carve(c, j) == Carve(c, j + 1)
  {
  }

  lemma {:induction false} CarveSteps(c: Carving, j: nat, n: nat)
    requires j < |c.planes| && !c.crashed && 0 < n == Min(c.planes[j].FreeBytes(), c.remaining)
    requires !Search(c.planes[j].used, n).Panics?
    ensures match Search(c.planes[j].used, n)
            case NotFound => Carve(c, j) == Carve(c, j + 1)
            case Found(z) => |CarveInto(c, j, z, n).planes| == |c.planes|
                             && Carve(c, j) == Carve(CarveInto(c, j, z, n), j + 1)
  {
  }

  /** Undoing every fragment of a carving restores the planes, provided no live entry is
      keyed at a free position. */
  lemma {:induction false} RollbackRestores(planes: seq<Plane>, pieces: seq<Fragment>, planeSize: nat)
    requires Shaped(planes, planeSize) && planeSize < U16
    requires InOrder(pieces, |planes|, planeSize) && Vacant(planes, pieces)
    requires forall k | 0 <= k < |pieces| :: pieces[k].start !in planes[pieces[k].plane].allocs
    ensures Rollback(OccupyAll(planes, pieces), pieces) == planes
    decreases |pieces|
  {
    if pieces == [] {
      OccupyNone(planes);
    } else {
      var f, rest := pieces[0], pieces[1..];
      var carved := OccupyAll(planes, pieces);
      assert FindPlane(carved, f.plane) == f.plane;
      var undone := carved[f.plane := Vacate(carved[f.plane], f.start, f.size)
                                        .(allocs := carved[f.plane].allocs - {f.start})];
      forall i | 0 <= i < |planes| ensures undone[i] == OccupyAll(planes, rest)[i] {
        UndoFirst(planes, pieces, i, planeSize);
      }
      assert undone == OccupyAll(planes, rest);
      assert Rollback(carved, pieces) == Rollback(undone, rest);
      RollbackRestores(planes, rest, planeSize);
    }
  }

  lemma {:induction false} UndoFirst(planes: seq<Plane>, pieces: seq<Fragment>, i: nat, planeSize: nat)
    requires Shaped(planes, planeSize) && planeSize < U16
    requires pieces != [] && InOrder(pieces, |planes|, planeSize) && Vacant(planes, pieces)
    requires pieces[0].start !in planes[pieces[0].plane].allocs
    requires i < |planes|
    ensures var f, p := pieces[0], OccupyAll(planes, pieces)[i];
            OccupyAll(planes, pieces[1..])[i]
            == if i == f.plane then Vacate(p, f.start, f.size).(allocs := p.allocs - {f.start}) else p
  {
    var f, p, rest := pieces[0], OccupyAll(planes, pieces)[i], pieces[1..];
    var r := OccupyAll(planes, rest)[i];
    if i == f.plane {
      UntouchedPlane(planes, rest, i);
      var v := Vacate(p, f.start, f.size);
      forall q | 0 <= q < planeSize ensures v.used[q] == r.used[q] {
        CoveredCons(pieces, i, q);
        assert !Covered(rest, i, q);
        if f.start <= q < f.start + f.size {
          assert IsFirstFit(planes[i].used, f.size, f.start);
          assert !planes[i].used[q];
        }
      }
      assert v.used == r.used;
      assert p.allocs - {f.start} == planes[i].allocs;
    } else {
      forall q | 0 <= q < planeSize ensures p.used[q] == r.used[q] {
        CoveredCons(pieces, i, q);
      }
      assert p.used == r.used;
    }
  }

  lemma {:induction false} CoveredCons(pieces: seq<Fragment>, i: nat, p: nat)
    requires pieces != []
    ensures Covered(pieces, i, p) <==> InPiece(pieces[0], i, p) || Covered(pieces[1..], i, p)
  {
    if k :| 0 <= k < |pieces| && InPiece(pieces[k], i, p) {
      if k > 0 { assert InPiece(pieces[1..][k - 1], i, p); }
    }
    if k :| 0 <= k < |pieces[1..]| && InPiece(pieces[1..][k], i, p) {
      assert InPiece(pieces[k + 1], i, p);
    }
  }
}
