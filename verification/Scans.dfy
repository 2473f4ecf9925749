/** Looking an address up in a plane's map against looking it up in its bitmap. */
module Scans {
  import opened FirstFit
  import opened M = Model
  import opened Placement
  import opened Layout
  import opened PlaneModel

  /** No piece of a Y-promoted allocation lies in plane `i`. */
  ghost predicate OnlySingles(planes: seq<M.Plane>, i: nat) {
    forall c, p: nat | Owns(planes, c, i, p) :: !planes[c.j].allocs[c.z].IsYPromoted()
  }

  ghost predicate InMap(p: M.Plane, pos: nat) {
    exists start :: start in p.allocs && Reaches(start, p.allocs[start], pos)
  }

  /** An entry of the plane's own map owns exactly the positions it reaches. */
  lemma {:induction false} EntryReach(planes: seq<M.Plane>, x: nat, planeSize: nat, i: nat, start: nat, pos: nat)
    requires Shaped(planes, planeSize) && EntriesOk(planes, x, planeSize) && planeSize < U16
    requires i < |planes| && OnlySingles(planes, i) && start in planes[i].allocs
    ensures Reaches(start, planes[i].allocs[start], pos) <==> Owns(planes, Claim(i, start, 0), i, pos)
  {
    var alloc := planes[i].allocs[start];
    assert EntryOk(alloc, x, i, start, |planes|, planeSize);
    var pieces := Pieces(alloc);
    assert Owns(planes, Claim(i, start, 0), i, start);
    assert pieces == [pieces[0]];
    SizeOfOne(pieces[0]);
  }

  lemma {:induction false} SizeOfOne(f: Fragment)
    ensures SizeSum([f]) == f.size
  {
    assert [f][..0] == [];
  }

  /** Every owner of a position in such a plane is filed in that plane. */
  lemma {:induction false} OwnerIsFiledThere(planes: seq<M.Plane>, x: nat, planeSize: nat, i: nat, c: Claim, pos: nat)
    requires EntriesOk(planes, x, planeSize) && OnlySingles(planes, i) && Owns(planes, c, i, pos)
    ensures c == Claim(i, c.z, 0)
  {
    assert EntryOk(planes[c.j].allocs[c.z], x, c.j, c.z, |planes|, planeSize);
  }

  /** In every state that keeps the invariant, on a plane with single-plane allocations only, the
      map scan holds exactly where the bitmap is set, and at most one entry reaches a position:
      so the answer does not depend on the order of the scan. */
  lemma {:induction false} ScanAgreesWithBitmap(a: M.Allocator, x: nat, i: nat, pos: nat)
    requires Inv(a) && x in a.regions && i < |a.regions[x].planes| && pos < a.planeSize
    requires OnlySingles(a.regions[x].planes, i)
    ensures var p := a.regions[x].planes[i];
      && (InMap(p, pos) <==> p.used[pos])
      && forall s, t | s in p.allocs && t in p.allocs && Reaches(s, p.allocs[s], pos) && Reaches(t, p.allocs[t], pos) ::
           s == t
  {
    var planes := a.regions[x].planes;
    var p := planes[i];
    assert RegionInv(a.regions[x], a.planeSize);
    hide Inv, RegionInv, Owns, OnlySingles, EntriesOk, Reaches, Shaped;
    assert Shaped(planes, a.planeSize) && EntriesOk(planes, x, a.planeSize) && |p.used| == a.planeSize < U16 by {
      Parts(a, x, i);
    }
    forall s | s in p.allocs
      ensures Reaches(s, p.allocs[s], pos) <==> Owns(planes, Claim(i, s, 0), i, pos)
    {
      EntryReach(planes, x, a.planeSize, i, s, pos);
    }
    if p.used[pos] {
      assert Claimed(planes, i, pos);
      var c :| Owns(planes, c, i, pos);
      OwnerIsFiledThere(planes, x, a.planeSize, i, c, pos);
      OwnsFiled(planes, c, i, pos);
      assert Reaches(c.z, p.allocs[c.z], pos);
    }
  }

  lemma {:induction false} OwnsFiled(planes: seq<M.Plane>, c: Claim, i: nat, pos: nat)
    requires Owns(planes, c, i, pos)
    ensures c.j < |planes| && c.z in planes[c.j].allocs
  {
  }

  lemma {:induction false} Parts(a: M.Allocator, x: nat, i: nat)
    requires Inv(a) && x in a.regions && i < |a.regions[x].planes|
    ensures var planes := a.regions[x].planes;
      Shaped(planes, a.planeSize) && EntriesOk(planes, x, a.planeSize) && |planes[i].used| == a.planeSize < U16
  {
    hide Tiled, EntriesOk;
  }
}
