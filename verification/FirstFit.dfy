/** What the masked bitmap search computes, bit by bit, including the places where its
    16-bit arithmetic wraps, and how that relates to plain first fit. */
module FirstFit {

  const U16: nat := 0x1_0000

  /** `Panics` stands for a Go run-time panic: a negative shift count or an index past the
      last word. */
  datatype Find = Found(start: nat) | NotFound | Panics

  /** What one candidate start leads to. */
  datatype Verdict = Clear | Blocked | Crash

  /** Number of 64-bit words behind a bitmap of `n` bits. */
  function WordCount(n: nat): nat { (n + 63) / 64 }

  /** The word-by-word test of the positions from `a` to the inclusive, possibly wrapped,
      end `e`: a wrapped end in an earlier word means no word is looked at, a wrapped end in
      the same word asks for a negative shift, and an end past the last word is an index
      error unless a used bit stops the test first. */
  ghost function RangeVerdict(used: seq<bool>, a: nat, e: nat): Verdict {
    if a <= e then
      if exists q :: a <= q <= e && q < |used| && used[q] then Blocked
      else if e / 64 < WordCount(|used|) then Clear
      else Crash
    else if e / 64 < a / 64 then Clear
    else Crash
  }

  /** The search from position `p` on. */
  ghost function Scan(used: seq<bool>, size: nat, p: nat): Find
    decreases |used| - p
  {
    if p >= |used| then NotFound
    else if used[p] then Scan(used, size, p + 1)
    else if (p + size) % U16 > |used| then NotFound
    else
      match RangeVerdict(used, p, (p + size + U16 - 1) % U16)
      case Clear => Found(p)
      case Blocked => Scan(used, size, p + 1)
      case Crash => Panics
  }

  /** The outcome of searching for a free run of `size`. */
  ghost function Search(used: seq<bool>, size: nat): Find {
    if size == 0 || size > |used| then NotFound else Scan(used, size, 0)
  }

  // ------------------------------------------------------------ plain first fit

  ghost predicate IsFit(used: seq<bool>, size: nat, p: nat) {
    p + size <= |used| && forall q | p <= q < p + size :: !used[q]
  }

  ghost predicate HasFit(used: seq<bool>, size: nat) {
    exists p :: IsFit(used, size, p)
  }

  ghost predicate IsFirstFit(used: seq<bool>, size: nat, p: nat) {
    IsFit(used, size, p) && forall q: nat | q < p :: !IsFit(used, size, q)
  }

  /** The first free position too close to the end for `size` bytes, or the length. */
  ghost function FirstLate(used: seq<bool>, size: nat, p: nat): (f: nat)
    requires p <= |used|
    ensures p <= f <= |used|
    ensures f < |used| ==> !used[f] && f + size > |used|
    ensures forall q | p <= q < f :: used[q] || q + size <= |used|
    decreases |used| - p
  {
    if p == |used| || (!used[p] && p + size > |used|) then p else FirstLate(used, size, p + 1)
  }

  /** The caller-checkable condition under which an unsuccessful search reports failure: the
      first free position that is too close to the end does not wrap in 16 bits, or wraps to
      exactly zero with nothing but used positions after it. */
  ghost predicate WrapSafe(used: seq<bool>, size: nat) {
    var f := FirstLate(used, size, 0);
    || f == |used|
    || f + size < U16
    || (f + size == U16 && f + 1 < |used| && forall q | f < q < |used| :: used[q])
  }

  /** Number of free positions. */
  function CountFree(used: seq<bool>): (c: nat)
    ensures c <= |used|
  {
    if used == [] then 0
    else CountFree(used[..|used| - 1]) + (if used[|used| - 1] then 0 else 1)
  }

  // ------------------------------------------------------------------- theorems

  /** Where a fit exists, the search returns the least one, for every bitmap length: no
      candidate before a fit can wrap. */
  lemma {:induction false} FindsFirstFit(used: seq<bool>, size: nat, p: nat)
    requires |used| < U16 && size > 0
    requires IsFirstFit(used, size, p)
    ensures Search(used, size) == Found(p)
  {
    ScanReaches(used, size, p, 0);
  }

  lemma {:induction false} FoundIsInside(used: seq<bool>, size: nat, p: nat)
    ensures var r := Scan(used, size, p); r.Found? ==> p <= r.start < |used|
    decreases |used| - p
  {
    hide RangeVerdict;
    if p < |used| {
      FoundIsInside(used, size, p + 1);
    }
  }

  /** One step of the search. */
  lemma {:induction false} ScanAt(used: seq<bool>, size: nat, p: nat)
    requires p < |used| && !used[p]
    ensures (p + size) % U16 > |used| ==> Scan(used, size, p) == NotFound
    ensures (p + size) % U16 <= |used| ==>
      Scan(used, size, p) ==
        match RangeVerdict(used, p, (p + size + U16 - 1) % U16)
        case Clear => Found(p)
        case Blocked => Scan(used, size, p + 1)
        case Crash => Panics
  {
  }

  /** A candidate that lies inside the bitmap is taken exactly when it is a fit. */
  lemma {:induction false} InsideStep(used: seq<bool>, size: nat, p: nat)
    requires 0 < size && p + size <= |used| < U16
    ensures Scan(used, size, p) == if IsFit(used, size, p) then Found(p) else Scan(used, size, p + 1)
  {
    var e := p + size - 1;
    assert (p + size) % U16 == p + size && (p + size + U16 - 1) % U16 == e;
    assert e / 64 < WordCount(|used|);
    if !used[p] && !IsFit(used, size, p) {
      var q :| p <= q < p + size && used[q];
      assert RangeVerdict(used, p, e) == Blocked;
    }
  }

  /** A start that a search returns is free, and is a fit unless it runs past the end. */
  lemma {:induction false} FoundInsideIsFit(used: seq<bool>, size: nat, p: nat, z: nat)
    requires |used| < U16 && size > 0 && Scan(used, size, p) == Found(z)
    ensures z < |used| && !used[z] && (z + size <= |used| ==> IsFit(used, size, z))
    decreases |used| - p
  {
    if p + size <= |used| {
      InsideStep(used, size, p);
    }
    if p < |used| && Scan(used, size, p) == Scan(used, size, p + 1) {
      FoundInsideIsFit(used, size, p + 1, z);
    }
  }

  lemma {:induction false} ScanReaches(used: seq<bool>, size: nat, p: nat, q: nat)
    requires |used| < U16 && size > 0
    requires IsFirstFit(used, size, p) && q <= p
    ensures Scan(used, size, q) == Found(p)
    decreases p - q
  {
    InsideStep(used, size, q);
    if q < p {
      ScanReaches(used, size, p, q + 1);
    }
  }

  /** Without a fit the search reports failure exactly when `WrapSafe` holds; otherwise it
      panics or returns a start that is no fit. */
  lemma {:induction false} FailsIffWrapSafe(used: seq<bool>, size: nat)
    requires |used| < U16 && 0 < size <= |used|
    requires !HasFit(used, size)
    ensures Search(used, size) == NotFound <==> WrapSafe(used, size)
  {
    hide Scan;
    ScanSkipsToLate(used, size, 0);
    var f := FirstLate(used, size, 0);
    if f == |used| {
      ScanPastEnd(used, size, f);
    } else if f + size < U16 {
      ScanAt(used, size, f);
    } else if f + size > U16 {
      ScanPastWrap(used, size, f, f);
    } else {
      ScanAtWrap(used, size, f);
    }
  }

  lemma {:induction false} ScanPastEnd(used: seq<bool>, size: nat, p: nat)
    requires p >= |used|
    ensures Scan(used, size, p) == NotFound
  {
  }

  /** The candidate that wraps to exactly zero is tested up to position 65535. */
  lemma {:induction false} ScanAtWrap(used: seq<bool>, size: nat, f: nat)
    requires f < |used| < U16 && 0 < size <= |used| && !used[f]
    requires f + size == U16
    ensures Scan(used, size, f) == NotFound
       <==> f + 1 < |used| && forall q | f < q < |used| :: used[q]
  {
    hide Scan;
    assert (f + size) % U16 == 0 && (f + size + U16 - 1) % U16 == U16 - 1;
    ScanAt(used, size, f);
    if forall q | f < q < |used| :: used[q] {
      ScanSkipsUsed(used, size, f + 1, |used|);
      ScanPastEnd(used, size, |used|);
      if f + 1 < |used| {
        assert used[f + 1];
      }
    } else {
      var q :| f < q < |used| && !used[q];
      ScanPastWrap(used, size, f + 1, q);
    }
  }

  lemma {:induction false} ScanSkipsToLate(used: seq<bool>, size: nat, p: nat)
    requires |used| < U16 && 0 < size <= |used|
    requires !HasFit(used, size)
    requires p <= |used|
    ensures Scan(used, size, p) == Scan(used, size, FirstLate(used, size, p))
    decreases |used| - p
  {
    if p < |used| && !(!used[p] && p + size > |used|) {
      if p + size <= |used| {
        InsideStep(used, size, p);
      }
      ScanSkipsToLate(used, size, p + 1);
    }
  }

  /** Once candidates wrap past zero, the next free one ends the search. */
  lemma {:induction false} ScanPastWrap(used: seq<bool>, size: nat, p: nat, q: nat)
    requires |used| < U16 && 0 < size <= |used|
    requires p <= q < |used| && !used[q]
    requires p + size > U16
    ensures Scan(used, size, p) != NotFound
    decreases q - p
  {
    if used[p] {
      ScanPastWrap(used, size, p + 1, q);
    } else {
      hide Scan;
      var e := p + size - U16 - 1;
      assert (p + size) % U16 == e + 1 && (p + size + U16 - 1) % U16 == e;
      assert RangeVerdict(used, p, e) != Blocked;
      ScanAt(used, size, p);
    }
  }

  /** The search passes over used positions, and past the end there is nothing to find. */
  lemma {:induction false} ScanSkipsUsed(used: seq<bool>, size: nat, a: nat, b: nat)
    requires a <= b && forall q | a <= q < b && q < |used| :: used[q]
    ensures Scan(used, size, a) == Scan(used, size, b)
    decreases b - a
  {
    if a < b {
      ScanSkipsUsed(used, size, a + 1, b);
    }
  }

  /** An unsuccessful search can never wrap when length and size fit in 16 bits together. */
  lemma {:induction false} ShortIsWrapSafe(used: seq<bool>, size: nat)
    requires |used| + size <= U16
    ensures WrapSafe(used, size)
  {
  }

  lemma {:induction false} CountFreeSplit(used: seq<bool>, a: nat)
    requires a <= |used|
    ensures CountFree(used) == CountFree(used[..a]) + CountFree(used[a..])
  {
    if a < |used| {
      var n := |used| - 1;
      CountFreeSplit(used[..n], a);
      assert used[..n][..a] == used[..a];
      assert used[..n][a..] == used[a..][..n - a];
    } else {
      assert used[..a] == used;
    }
  }

  lemma {:induction false} CountFreeSplit3(used: seq<bool>, a: nat, b: nat)
    requires a <= b <= |used|
    ensures CountFree(used) == CountFree(used[..a]) + CountFree(used[a..b]) + CountFree(used[b..])
  {
    CountFreeSplit(used, b);
    CountFreeSplit(used[..b], a);
    assert used[..b][..a] == used[..a];
    assert used[..b][a..] == used[a..b];
  }

  lemma {:induction false} CountFreeAllUsed(used: seq<bool>)
    requires forall q | 0 <= q < |used| :: used[q]
    ensures CountFree(used) == 0
  {
    if used != [] {
      CountFreeAllUsed(used[..|used| - 1]);
    }
  }

  /** The longest bitmap on which a search guarded by the free count cannot wrap. */
  const SAFE_LENGTH: nat := 43690

  /** The guard every call site applies, `CountFree >= size`, makes searches wrap-safe on
      bitmaps of at most `SAFE_LENGTH` bits: wrapping needs so many used positions near the
      end that too few free ones are left. */
  lemma {:induction false} GuardedIsWrapSafe(used: seq<bool>, size: nat)
    requires |used| <= SAFE_LENGTH
    requires size <= CountFree(used)
    ensures WrapSafe(used, size)
  {
    var n, f := |used|, FirstLate(used, size, 0);
    if f < n && f + size >= U16 {
      var a := n - size + 1;
      CountFreeSplit3(used, a, f);
      CountFreeAllUsed(used[a..f]);
      assert false;
    }
  }

  // -------------------------------------------------------- changing the bitmap

  /** `SetRange(a, b)`: an end not after the start changes nothing. */
  function Mark(used: seq<bool>, a: nat, b: nat): (r: seq<bool>)
    ensures |r| == |used|
    ensures forall i | 0 <= i < |r| :: r[i] == (used[i] || a <= i < b)
  {
    seq(|used|, i requires 0 <= i < |used| => used[i] || a <= i < b)
  }

  /** `ClearRange(a, b)` */
  function Unmark(used: seq<bool>, a: nat, b: nat): (r: seq<bool>)
    ensures |r| == |used|
    ensures forall i | 0 <= i < |r| :: r[i] == (used[i] && !(a <= i < b))
  {
    seq(|used|, i requires 0 <= i < |used| => used[i] && !(a <= i < b))
  }

  lemma {:induction false} CountFreeAllFree(used: seq<bool>)
    requires forall q | 0 <= q < |used| :: !used[q]
    ensures CountFree(used) == |used|
  {
    if used != [] {
      CountFreeAllFree(used[..|used| - 1]);
    }
  }

  lemma {:induction false} CountFreeDiffers(free: seq<bool>, used: seq<bool>, a: nat, b: nat)
    requires a <= b <= |free| == |used|
    requires forall q | a <= q < b :: !free[q] && used[q]
    requires forall q | 0 <= q < |free| && !(a <= q < b) :: free[q] == used[q]
    ensures CountFree(used) == CountFree(free) - (b - a)
  {
    hide CountFree;
    CountFreeSplit3(free, a, b);
    CountFreeSplit3(used, a, b);
    assert free[..a] == used[..a];
    assert free[b..] == used[b..];
    CountFreeAllFree(free[a..b]);
    CountFreeAllUsed(used[a..b]);
  }

  /** Marking a wholly free run takes its length off the free count. */
  lemma {:induction false} CountFreeMark(used: seq<bool>, a: nat, b: nat)
    requires a <= b <= |used| && forall q | a <= q < b :: !used[q]
    ensures CountFree(Mark(used, a, b)) == CountFree(used) - (b - a)
  {
    CountFreeDiffers(used, Mark(used, a, b), a, b);
  }

  /** Clearing a wholly used run gives its length back. */
  lemma {:induction false} CountFreeUnmark(used: seq<bool>, a: nat, b: nat)
    requires a <= b <= |used| && forall q | a <= q < b :: used[q]
    ensures CountFree(Unmark(used, a, b)) == CountFree(used) + (b - a)
  {
    CountFreeDiffers(Unmark(used, a, b), used, a, b);
  }

  /** A fit cannot be longer than the free count. */
  lemma {:induction false} FitWithinFree(used: seq<bool>, size: nat, p: nat)
    requires IsFit(used, size, p)
    ensures size <= CountFree(used)
  {
    CountFreeMark(used, p, p + size);
  }

  lemma {:induction false} FitNeedsRoom(used: seq<bool>, size: nat)
    ensures HasFit(used, size) ==> size <= CountFree(used)
  {
    if p: nat :| IsFit(used, size, p) {
      FitWithinFree(used, size, p);
    }
  }
}
