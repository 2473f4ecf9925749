/** The 3D allocator on values: planes, regions and the allocator, and what each public
    operation makes of them. The region chosen by Y-promotion depends on Go's map iteration
    order when several are tied; `hint` stands for the one met first. */
module Model {
  import opened FirstFit

  const U32: nat := 0x1_0000_0000
  const U64: nat := 0x1_0000_0000_0000_0000
  const LRU_LIMIT: nat := 100

  newtype byte = b: int | 0 <= b < 256

  datatype Option<+T> = None | Some(value: T)

  datatype Address = Address(x: nat, y: nat, z: nat)

  datatype Fragment = Fragment(plane: nat, start: nat, size: nat, isFirst: bool)

  datatype Allocation = Allocation(
    id: nat, addr: Address, size: nat, kind: nat, flags: nat, fragments: seq<Fragment>)
  {
    predicate IsYPromoted() { |fragments| > 1 }
  }

  datatype Plane = Plane(id: nat, used: seq<bool>, data: seq<byte>, allocs: map<nat, Allocation>)
  {
    function FreeBytes(): nat { CountFree(used) }
  }

  datatype Region = Region(
    id: nat, kind: nat, planes: seq<Plane>, allocCount: nat, freeBytes: nat, totalBytes: nat)

  datatype Allocator = Allocator(
    planeSize: nat, maxYPromotions: nat,
    regions: map<nat, Region>, lru: seq<nat>, nextRegion: nat, nextAlloc: nat)

  datatype Outcome = Ok(alloc: Allocation) | Failed | Crashed

  /** A new allocator; both counters start at one. */
  function Init(planeSize: nat, maxYPromotions: nat): Allocator {
    Allocator(planeSize, maxYPromotions, map[], [], 1, 1)
  }

  // ------------------------------------------------------------------- planes

  function FreshPlane(id: nat, size: nat): Plane {
    Plane(id, seq(size, _ => false), seq(size, _ => 0 as byte), map[])
  }

  /** `SetRange(start, start + size)` with the end computed in 16 bits. */
  function Occupy(p: Plane, start: nat, size: nat): Plane {
    p.(used := Mark(p.used, start, (start + size) % U16))
  }

  /** `ClearRange(start, start + size)` with the end computed in 16 bits. */
  function Vacate(p: Plane, start: nat, size: nat): Plane {
    p.(used := Unmark(p.used, start, (start + size) % U16))
  }

  function Enter(p: Plane, alloc: Allocation): Plane {
    p.(allocs := p.allocs[alloc.addr.z := alloc])
  }

  /** `copy` into a plane's bytes. */
  function Overwrite(data: seq<byte>, start: nat, new_: seq<byte>): (r: seq<byte>)
    requires start + |new_| <= |data|
    ensures |r| == |data|
  {
    data[..start] + new_ + data[start + |new_|..]
  }

  /** `Plane.Free`: looks the start up in the allocation map. */
  function PlaneFree(p: Plane, start: nat): Option<Plane> {
    if start !in p.allocs then None
    else Some(Vacate(p, start, p.allocs[start].size % U16).(allocs := p.allocs - {start}))
  }

  /** The index of the plane with the given ID, or the number of planes. */
  function FindPlane(planes: seq<Plane>, id: nat, j: nat := 0): (i: nat)
    requires j <= |planes|
    ensures j <= i <= |planes|
    ensures i < |planes| ==> planes[i].id == id
    ensures forall k | j <= k < i :: planes[k].id != id
    decreases |planes| - j
  {
    if j == |planes| || planes[j].id == id then j else FindPlane(planes, id, j + 1)
  }

  function TotalFree(planes: seq<Plane>): nat {
    if planes == [] then 0
    else TotalFree(planes[..|planes| - 1]) + planes[|planes| - 1].FreeBytes()
  }

  function PlanesWithFree(planes: seq<Plane>): (c: nat)
    ensures c <= |planes|
  {
    if planes == [] then 0
    else PlanesWithFree(planes[..|planes| - 1]) + (if planes[|planes| - 1].FreeBytes() > 0 then 1 else 0)
  }

  // ------------------------------------------------------------------ regions

  /** `atomic.AddUint64(&c, ^uint64(size-1))`, where `size - 1` is taken in 32 bits. */
  function Debit(c: nat, size: nat): nat {
    (c + (U64 - 1 - (size + U32 - 1) % U32)) % U64
  }

  function AddPlane(r: Region, p: Plane): Region {
    r.(planes := r.planes + [p],
       totalBytes := (r.totalBytes + |p.used|) % U64,
       freeBytes := (r.freeBytes + p.FreeBytes()) % U64)
  }

  function FreshRegion(id: nat, kind: nat, planeSize: nat): Region {
    AddPlane(Region(id, kind, [], 0, 0, 0), FreshPlane(0, planeSize))
  }

  /** The counter updates that go with a new allocation. */
  function Booked(r: Region, planes: seq<Plane>, size: nat): Region {
    r.(planes := planes, allocCount := (r.allocCount + 1) % U64, freeBytes := Debit(r.freeBytes, size))
  }

  lemma {:induction false} BookedPlanes(r: Region, planes: seq<Plane>, size: nat)
    ensures Booked(r, planes, size).planes == planes
  {
  }

  datatype Spot = At(plane: nat, start: nat) | Nowhere | Broken

  /** The first plane from `j` on that has enough free bytes and a free run. */
  ghost function FindSpot(planes: seq<Plane>, size: nat, j: nat): (s: Spot)
    requires j <= |planes|
    ensures s.At? ==> j <= s.plane < |planes| && size <= planes[s.plane].FreeBytes()
                      && Search(planes[s.plane].used, size) == Found(s.start)
    decreases |planes| - j
  {
    if j == |planes| then Nowhere
    else if planes[j].FreeBytes() < size then FindSpot(planes, size, j + 1)
    else
      match Search(planes[j].used, size)
      case Found(z) => At(j, z)
      case NotFound => FindSpot(planes, size, j + 1)
      case Panics => Broken
  }

  /** A region with `alloc` placed in plane `j`. */
  function PlaceAt(r: Region, j: nat, alloc: Allocation): Region
    requires j < |r.planes|
  {
    var p := Enter(Occupy(r.planes[j], alloc.addr.z, alloc.size), alloc);
    Booked(r, r.planes[j := p], alloc.size)
  }

  // ---------------------------------------------------------------- region LRU

  function Without(s: seq<nat>, x: nat): seq<nat> {
    if s == [] then [] else if s[0] == x then s[1..] else [s[0]] + Without(s[1..], x)
  }

  /** `promoteRegionLRU`: drop the first match, push to the front, trim the back. */
  function Promote(lru: seq<nat>, x: nat, registered: bool): seq<nat> {
    var rest := Without(lru, x);
    if !registered then rest
    else if |rest| + 1 > LRU_LIMIT then ([x] + rest)[..|rest|]
    else [x] + rest
  }

  // ----------------------------------------------------------------- fast path

  datatype Hit = Hit(x: nat, plane: nat, start: nat) | Miss | Boom

  ghost function FastScan(a: Allocator, size: nat, kind: nat, i: nat): (h: Hit)
    requires i <= |a.lru|
    ensures h.Hit? ==> h.x in a.regions && a.regions[h.x].kind == kind
                       && h.plane < |a.regions[h.x].planes|
                       && size <= a.regions[h.x].planes[h.plane].FreeBytes()
                       && Search(a.regions[h.x].planes[h.plane].used, size) == Found(h.start)
    decreases |a.lru| - i
  {
    if i == |a.lru| then Miss
    else
      var x := a.lru[i];
      if x !in a.regions || a.regions[x].kind != kind || a.regions[x].freeBytes < size then
        FastScan(a, size, kind, i + 1)
      else
        match FindSpot(a.regions[x].planes, size, 0)
        case At(j, z) => Hit(x, j, z)
        case Nowhere => FastScan(a, size, kind, i + 1)
        case Broken => Boom
  }

  /** Installs a region that just took an allocation and moves it to the front of the LRU. */
  function Install(a: Allocator, x: nat, r: Region): Allocator {
    a.(regions := a.regions[x := r], nextAlloc := a.nextAlloc + 1, lru := Promote(a.lru, x, true))
  }

  function Simple(a: Allocator, addr: Address, size: nat, kind: nat, flags: nat): Allocation {
    Allocation(a.nextAlloc + 1, addr, size, kind, flags, [])
  }

  // --------------------------------------------------------------- Y-promotion

  /** `(size + PlaneSize - 1) / PlaneSize` in 32 bits. */
  function PlanesNeeded(a: Allocator, size: nat): nat
    requires a.planeSize > 0
  {
    (size + a.planeSize - 1) % U32 / a.planeSize
  }

  predicate Eligible(a: Allocator, x: nat, size: nat, kind: nat)
    requires a.planeSize > 0
  {
    && x in a.regions
    && a.regions[x].kind == kind
    && TotalFree(a.regions[x].planes) >= size
    && PlanesWithFree(a.regions[x].planes) >= PlanesNeeded(a, size)
    && TotalFree(a.regions[x].planes) > 0
  }

  /** What the scan over all regions can end with: an eligible region with most free bytes. */
  ghost predicate Best(a: Allocator, x: nat, size: nat, kind: nat)
    requires a.planeSize > 0
  {
    && Eligible(a, x, size, kind)
    && forall y | Eligible(a, y, size, kind) ::
         TotalFree(a.regions[y].planes) <= TotalFree(a.regions[x].planes)
  }

  lemma {:induction false} BestIsThere(a: Allocator, x: nat, size: nat, kind: nat)
    requires a.planeSize > 0 && Best(a, x, size, kind)
    ensures x in a.regions
  {
  }

  ghost function ChooseBest(a: Allocator, size: nat, kind: nat, hint: nat): (r: Option<nat>)
    requires a.planeSize > 0
    ensures r.Some? ==> Best(a, r.value, size, kind)
    ensures r.None? ==> forall x :: !Best(a, x, size, kind)
    ensures Best(a, hint, size, kind) ==> r == Some(hint)
  {
    if Best(a, hint, size, kind) then Some(hint)
    else if x :| Best(a, x, size, kind) then Some(x)
    else None
  }

  datatype Carving = Carving(planes: seq<Plane>, fragments: seq<Fragment>, remaining: nat, crashed: bool)

  function Min(a: nat, b: nat): nat { if a < b then a else b }

  /** One more fragment, `n` bytes at `z` in plane `j`. */
  function CarveInto(c: Carving, j: nat, z: nat, n: nat): Carving
    requires j < |c.planes| && n <= c.remaining
  {
    Carving(c.planes[j := Occupy(c.planes[j], z, n)],
            c.fragments + [Fragment(c.planes[j].id, z, n, c.fragments == [])], c.remaining - n, false)
  }

  /** The fragment loop from plane `j` on. */
  ghost function Carve(c: Carving, j: nat): (r: Carving)
    requires j <= |c.planes|
    ensures |r.planes| == |c.planes|
    decreases |c.planes| - j
  {
    if j == |c.planes| || c.remaining == 0 || c.crashed then c
    else if c.planes[j].FreeBytes() == 0 then Carve(c, j + 1)
    else
      var p := c.planes[j];
      var size := Min(p.FreeBytes(), c.remaining);
      match Search(p.used, size)
      case NotFound => Carve(c, j + 1)
      case Panics => c.(crashed := true)
      case Found(z) =>
        Carve(CarveInto(c, j, z, size), j + 1)
  }

  /** Undoes the fragments of a failed promotion, looking planes up by ID. */
  function Rollback(planes: seq<Plane>, fragments: seq<Fragment>): (r: seq<Plane>)
    ensures |r| == |planes|
    decreases |fragments|
  {
    if fragments == [] then planes
    else
      var f := fragments[0];
      var i := FindPlane(planes, f.plane);
      var undone :=
        if i == |planes| then planes
        else planes[i := Vacate(planes[i], f.start, f.size).(allocs := planes[i].allocs - {f.start})];
      Rollback(undone, fragments[1..])
  }

  /** The handle of a finished promotion; with no fragment it is the zero address. */
  function Scattered(id: nat, x: nat, size: nat, kind: nat, flags: nat, fragments: seq<Fragment>): Allocation {
    var addr := if fragments == [] then Address(0, 0, 0) else Address(x, fragments[0].plane, fragments[0].start);
    Allocation(id, addr, size, kind, flags, fragments)
  }

  /** Files the handle in the map of the first fragment's plane, found by ID. */
  function EnterFirst(planes: seq<Plane>, alloc: Allocation): (r: seq<Plane>)
    ensures |r| == |planes|
  {
    var i := FindPlane(planes, alloc.addr.y);
    if i == |planes| then planes else planes[i := Enter(planes[i], alloc)]
  }

  datatype Attempt = Attempt(a: Allocator, result: Option<Outcome>)

  ghost function TryYPromotion(a: Allocator, size: nat, kind: nat, flags: nat, hint: nat): (t: Attempt)
    requires a.planeSize > 0
    ensures t.a.planeSize == a.planeSize
  {
    if PlanesNeeded(a, size) > a.maxYPromotions then Attempt(a, None)
    else
      match ChooseBest(a, size, kind, hint)
      case None => Attempt(a, None)
      case Some(x) => PromoteIn(a, x, size, kind, flags)
  }

  ghost function PromoteIn(a: Allocator, x: nat, size: nat, kind: nat, flags: nat): (t: Attempt)
    requires x in a.regions
    ensures t.a.planeSize == a.planeSize
  {
    var r := a.regions[x];
    var c := Carve(Carving(r.planes, [], size, false), 0);
    if c.crashed then Attempt(a, Some(Crashed))
    else if c.remaining > 0 then
      Attempt(a.(regions := a.regions[x := r.(planes := Rollback(c.planes, c.fragments))]), None)
    else
      var alloc := Scattered(a.nextAlloc + 1, x, size, kind, flags, c.fragments);
      Attempt(Install(a, x, Booked(r, EnterFirst(c.planes, alloc), size)), Some(Ok(alloc)))
  }

  // ----------------------------------------------------------------- operations

  datatype Step = Step(a: Allocator, outcome: Outcome)

  ghost function AllocateNewRegion(a: Allocator, size: nat, kind: nat, flags: nat): (s: Step)
    ensures s.a.planeSize == a.planeSize
  {
    var x := a.nextRegion + 1;
    var created := FreshRegion(x, kind, a.planeSize);
    var b := a.(nextRegion := x, regions := a.regions[x := created]);
    match FindSpot(created.planes, size, 0)
    case At(j, z) =>
      var alloc := Simple(b, Address(x, 0, z), size, kind, flags);
      Step(Install(b, x, PlaceAt(created, j, alloc)), Ok(alloc))
    case Nowhere => Step(b, Failed)
    case Broken => Step(b, Crashed)
  }

  /** `allocateSync`: fast path, then Y-promotion, then a new region. */
  ghost function Allocate(a: Allocator, size: nat, kind: nat, flags: nat, hint: nat): (s: Step)
    requires a.planeSize > 0
    ensures s.a.planeSize == a.planeSize
  {
    match FastScan(a, size, kind, 0)
    case Hit(x, j, z) =>
      var r := a.regions[x];
      var alloc := Simple(a, Address(x, r.planes[j].id, z), size, kind, 0);
      Step(Install(a, x, PlaceAt(r, j, alloc)), Ok(alloc))
    case Boom => Step(a, Crashed)
    case Miss =>
      var y := TryYPromotion(a, size, kind, flags, hint);
      if y.result.Some? then Step(y.a, y.result.value)
      else AllocateNewRegion(y.a, size, kind, flags)
  }

  /** `AllocateInRegion`: existing planes first, then one new plane. */
  ghost function AllocateInRegion(a: Allocator, x: nat, size: nat, flags: nat): (s: Step)
    requires x in a.regions
    ensures s.a.planeSize == a.planeSize
  {
    var r := a.regions[x];
    match FindSpot(r.planes, size, 0)
    case At(j, z) =>
      var alloc := Simple(a, Address(x, r.planes[j].id, z), size, r.kind, flags);
      Step(Install(a, x, PlaceAt(r, j, alloc)), Ok(alloc))
    case Broken => Step(a, Crashed)
    case Nowhere =>
      var j := |r.planes|;
      var grown := AddPlane(r, FreshPlane(j % U32, a.planeSize));
      match FindSpot(grown.planes, size, j)
      case At(_, z) =>
        var alloc := Simple(a, Address(x, j % U32, z), size, r.kind, flags);
        Step(Install(a, x, PlaceAt(grown, j, alloc)), Ok(alloc))
      case Nowhere => Step(a.(regions := a.regions[x := grown]), Failed)
      case Broken => Step(a.(regions := a.regions[x := grown]), Crashed)
  }

  /** `Region.AddPlane` with a fresh plane of the allocator's size. */
  function GrowRegion(a: Allocator, x: nat): Allocator
    requires x in a.regions
  {
    var r := a.regions[x];
    a.(regions := a.regions[x := AddPlane(r, FreshPlane(|r.planes|, a.planeSize))])
  }

  /** Bytes written into plane `i` of region `x`. */
  function WriteAt(a: Allocator, x: nat, i: nat, start: nat, data: seq<byte>): Allocator
    requires x in a.regions && i < |a.regions[x].planes| && start + |data| <= |a.regions[x].planes[i].data|
  {
    var r := a.regions[x];
    var p := r.planes[i];
    a.(regions := a.regions[x := r.(planes := r.planes[i := p.(data := Overwrite(p.data, start, data))])])
  }

  /** Frees every fragment that its plane's map knows; unknown starts are ignored. */
  function FreeFragments(planes: seq<Plane>, fragments: seq<Fragment>): (r: seq<Plane>)
    ensures |r| == |planes|
    decreases |fragments|
  {
    if fragments == [] then planes
    else
      var f := fragments[0];
      var i := FindPlane(planes, f.plane);
      var freed := if i == |planes| then None else PlaneFree(planes[i], f.start);
      FreeFragments(if freed.None? then planes else planes[i := freed.value], fragments[1..])
  }

  /** A region that gave the blocks of `alloc` back; `None` is an error, which changes nothing. */
  function Relieved(r: Region, alloc: Allocation): Option<Region> {
    var planes :=
      if alloc.IsYPromoted() then Some(FreeFragments(r.planes, alloc.fragments))
      else
        var i := FindPlane(r.planes, alloc.addr.y);
        var freed := if i == |r.planes| then None else PlaneFree(r.planes[i], alloc.addr.z);
        if freed.None? then None else Some(r.planes[i := freed.value]);
    if planes.None? then None
    else
      Some(r.(planes := planes.value,
              allocCount := (r.allocCount + U64 - 1) % U64,
              freeBytes := (r.freeBytes + alloc.size) % U64))
  }

  /** `freeSync`; `None` is an error return, which changes nothing. */
  function Free(a: Allocator, alloc: Allocation): (b: Option<Allocator>)
    ensures b.Some? ==> b.value.planeSize == a.planeSize
  {
    var x := alloc.addr.x;
    if x !in a.regions then None
    else
      var r := Relieved(a.regions[x], alloc);
      if r.None? then None else Some(a.(regions := a.regions[x := r.value]))
  }
}
