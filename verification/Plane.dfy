/** A plane as the heap holds it: a bitmap, a byte array and a map of allocations, updated in
    place. `Value` is the plane's value in the sense of `Model`. */
module PlaneModel {
  import opened FirstFit
  import opened BitmapModel
  import opened M = Model

  /** Does the entry filed under `start` reach over `pos`, in 16-bit arithmetic? */
  predicate Reaches(start: nat, alloc: Allocation, pos: nat) {
    start <= pos < (start + alloc.size % U16) % U16
  }

  /** The two planes share no memory. */
  ghost predicate Apart(p: Plane, q: Plane) {
    && p != q && p.freeMap.bits != q.freeMap.bits && p.data != q.data
    && p.data as object != q.freeMap.bits && q.data as object != p.freeMap.bits
  }

  class Plane {
    const id: nat
    const freeMap: Bitmap
    const data: array<byte>
    var allocs: map<nat, Allocation>

    ghost function Repr(): set<object> {
      {this, freeMap, freeMap.bits, data}
    }

    ghost predicate Valid()
      reads Repr()
    {
      freeMap.Valid() && data.Length == freeMap.size && data as object != freeMap.bits
    }

    ghost function Value(): (v: M.Plane)
      reads Repr()
      requires Valid()
      ensures |v.used| == freeMap.size && v.id == id && v.allocs == allocs
    {
      M.Plane(id, freeMap.Contents(), data[..], allocs)
    }

    /** A size of zero asks for the largest plane. */
    constructor (id: nat, size: nat)
      requires size < U16
      ensures Valid() && fresh(Repr())
      ensures Value() == FreshPlane(id, if size == 0 then U16 - 1 else size)
    {
      var n := if size == 0 then U16 - 1 else size;
      this.id, allocs := id, map[];
      freeMap := new Bitmap(n);
      data := new byte[n](_ => 0);
    }

    /** Takes the run that the search returns, whatever the search returns. */
    method Allocate(size: nat) returns (r: Find)
      requires Valid() && size < U16
      modifies freeMap.bits
      ensures Valid() && r == Search(old(Value()).used, size)
      ensures Value() == if r.Found? then Occupy(old(Value()), r.start, size) else old(Value())
      ensures if r.Found? then r.start < U16 else unchanged(freeMap.bits)
    {
      hide Scan, View, BitAt;
      r := freeMap.FindContiguous(size);
      if r.Found? {
        FoundIsInside(freeMap.Contents(), size, 0);
        freeMap.SetRange(r.start, (r.start + size) % U16);
      }
    }

    method Free(start: nat) returns (ok: bool)
      requires Valid() && start < U16
      modifies this`allocs, freeMap.bits
      ensures Valid() && ok == PlaneFree(old(Value()), start).Some?
      ensures Value() == if ok then PlaneFree(old(Value()), start).value else old(Value())
    {
      if start !in allocs {
        return false;
      }
      freeMap.ClearRange(start, (start + allocs[start].size % U16) % U16);
      allocs := allocs - {start};
      ok := true;
    }

    /** Takes back a run that a failed promotion had taken. */
    method Undo(start: nat, size: nat)
      requires Valid() && start < U16 && size < U16
      modifies this`allocs, freeMap.bits
      ensures Valid() && Value() == Vacate(old(Value()), start, size).(allocs := old(Value()).allocs - {start})
    {
      hide View, BitAt;
      freeMap.ClearRange(start, (start + size) % U16);
      allocs := allocs - {start};
    }

    method Write(start: nat, bytes: seq<byte>)
      requires Valid() && start + |bytes| <= data.Length
      modifies data
      ensures Valid() && Value() == old(Value()).(data := Overwrite(old(Value()).data, start, bytes))
    {
      for k := 0 to |bytes|
        invariant data[..] == Overwrite(old(data[..]), start, bytes[..k])
      {
        data[start + k] := bytes[k];
        assert bytes[..k + 1] == bytes[..k] + [bytes[k]];
      }
      assert bytes[..|bytes|] == bytes;
      assert freeMap.Contents() == old(freeMap.Contents());
    }

    method FreeBytes() returns (n: nat)
      requires Valid()
      ensures n == Value().FreeBytes() <= freeMap.size
    {
      n := freeMap.FreeBytes();
    }

    /** Scans the map in any order. */
    method IsAllocated(pos: nat) returns (r: bool)
      requires Valid()
      ensures r <==> exists start :: start in allocs && Reaches(start, allocs[start], pos)
    {
      var alloc := GetContainingAllocation(pos);
      r := alloc.Some?;
    }

    /** Returns the first match it meets, in any order. */
    method GetContainingAllocation(pos: nat) returns (r: Option<Allocation>)
      requires Valid()
      ensures r.Some? ==> exists start :: start in allocs && allocs[start] == r.value && Reaches(start, r.value, pos)
      ensures r.None? ==> forall start | start in allocs :: !Reaches(start, allocs[start], pos)
    {
      var todo := allocs.Keys;
      while todo != {}
        invariant todo <= allocs.Keys
        invariant forall start | start in allocs && start !in todo :: !Reaches(start, allocs[start], pos)
        decreases |todo|
      {
        var start :| start in todo;
        if Reaches(start, allocs[start], pos) {
          return Some(allocs[start]);
        }
        todo := todo - {start};
      }
      r := None;
    }
  }
}
