/** The word-packed bitmap of one plane: one bit per byte, updated in place. */
module BitmapModel {
  import opened Words
  import opened FirstFit

  /** Bit `i` of a run of words. */
  ghost predicate BitAt(words: seq<bv64>, i: nat)
    requires i < 64 * |words|
  {
    Bit(words[i / 64], i % 64)
  }

  /** The first `n` bits of a run of words. */
  ghost function View(words: seq<bv64>, n: nat): (s: seq<bool>)
    requires n <= 64 * |words|
    ensures |s| == n
    ensures forall i | 0 <= i < n :: s[i] == BitAt(words, i)
  {
    seq(n, i requires 0 <= i < n => BitAt(words, i))
  }

  /** Free positions among the first `n` bits, read off the words. */
  ghost function OnesIn(words: seq<bv64>): nat {
    if words == [] then 0 else OnesIn(words[..|words| - 1]) + OnesBelow(words[|words| - 1], 64)
  }

  class Bitmap {
    const bits: array<bv64>
    const size: nat

    ghost predicate Valid()
      reads this, bits
    {
      && size < U16
      && bits.Length == WordCount(size)
      && forall i: nat | size <= i < 64 * bits.Length :: !BitAt(bits[..], i)
    }

    ghost function Contents(): (s: seq<bool>)
      reads this, bits
      requires Valid()
      ensures |s| == size
    {
      View(bits[..], size)
    }

    constructor (size: nat)
      requires size < U16
      ensures Valid() && this.size == size && fresh(bits)
      ensures Contents() == seq(size, i => false)
    {
      hide Bit;
      this.size := size;
      bits := new bv64[WordCount(size)](_ => 0);
      new;
      forall i: nat | i < 64 * bits.Length ensures !BitAt(bits[..], i) {
        ConstantBit(i % 64);
      }
    }

    method Set(pos: nat)
      requires Valid() && pos < U16
      modifies bits
      ensures Valid()
      ensures Contents() == Mark(old(Contents()), pos, pos + 1)
    {
      hide Bit, Shl, Or;
      if pos >= size || bits.Length == 0 {
        return;
      }
      var idx := pos / 64;
      ghost var before := bits[..];
      bits[idx] := Or(bits[idx], Shl(1, pos % 64));
      forall i: nat | i < 64 * bits.Length
        ensures BitAt(bits[..], i) == (BitAt(before, i) || i == pos)
      {
        SetBit(before[idx], pos % 64, i % 64);
      }
    }

    method Clear(pos: nat)
      requires Valid() && pos < U16
      modifies bits
      ensures Valid()
      ensures Contents() == Unmark(old(Contents()), pos, pos + 1)
    {
      hide Bit, Shl, AndNot;
      if pos >= size || bits.Length == 0 {
        return;
      }
      var idx := pos / 64;
      ghost var before := bits[..];
      bits[idx] := AndNot(bits[idx], Shl(1, pos % 64));
      forall i: nat | i < 64 * bits.Length
        ensures BitAt(bits[..], i) == (BitAt(before, i) && i != pos)
      {
        ClearBit(before[idx], pos % 64, i % 64);
      }
    }

    method IsSet(pos: nat) returns (r: bool)
      requires Valid() && pos < U16
      ensures r <==> pos < size && Contents()[pos]
    {
      hide Bit, Shl, Meets;
      if pos >= size || bits.Length == 0 {
        return false;
      }
      var idx := pos / 64;
      TestBit(bits[idx], pos % 64);
      r := Meets(bits[idx], Shl(1, pos % 64));
    }

    method SetRange(start: nat, end: nat)
      requires Valid() && start < U16 && end < U16
      modifies bits
      ensures Valid()
      ensures Contents() == Mark(old(Contents()), start, end)
    {
      var i := start;
      while i < end
        invariant Valid() && start <= i && (i <= end || i == start)
        invariant Contents() == Mark(old(Contents()), start, i)
      {
        Set(i);
        i := i + 1;
      }
    }

    method ClearRange(start: nat, end: nat)
      requires Valid() && start < U16 && end < U16
      modifies bits
      ensures Valid()
      ensures Contents() == Unmark(old(Contents()), start, end)
    {
      var i := start;
      while i < end
        invariant Valid() && start <= i && (i <= end || i == start)
        invariant Contents() == Unmark(old(Contents()), start, i)
      {
        Clear(i);
        i := i + 1;
      }
    }

    /** The inner loop of the search: are all bits from `startPos` to `endPos` clear? */
    method RangeIsFree(startPos: nat, endPos: nat) returns (v: Verdict)
      requires Valid() && startPos < size && endPos < U16 && endPos + 1 != startPos
      ensures v == RangeVerdict(Contents(), startPos, endPos)
    {
      hide Bit, Shl, Dec, Meets;
      var startIdx, endIdx := startPos / 64, endPos / 64;
      var wj := startIdx;
      while wj <= endIdx
        invariant startIdx <= wj <= bits.Length
        invariant wj > startIdx ==> startPos <= endPos && wj <= endIdx + 1
        invariant forall q | startPos <= q <= endPos && q < size && q < 64 * wj :: !Contents()[q]
      {
        if startIdx == endIdx && endPos < startPos {
          return Crash;
        }
        if wj >= bits.Length {
          return Crash;
        }
        var mask := RangeMask(startPos, endPos, wj);
        WordTest(bits[..], size, startPos, endPos, wj);
        if Meets(bits[wj], mask) {
          return Blocked;
        }
        wj := wj + 1;
      }
      v := Verdict.Clear;
    }

    /** The free bits of word `wi`: the inverted word, masked to the bitmap's length. */
    method FreeBitsOf(wi: nat) returns (freeBits: bv64)
      requires Valid() && wi < bits.Length
      ensures FreeFrom(bits[..], size, wi, freeBits, 0)
    {
      hide Bit, Shr, And, Not, FreeFrom, BitAt, IsFree, View;
      var n := size - 64 * wi;
      LastWordLength(size, wi);
      freeBits := Not(bits[wi]);
      if wi == bits.Length - 1 && n < 64 {
        freeBits := And(freeBits, Shr(!0, 64 - n));
        InvertedTail(bits[..], size, wi, n);
      } else {
        InvertedWord(bits[..], size, wi);
      }
    }

    /** Tries the free bits of word `wi` in turn; `done` says that the search is over. */
    method SearchWord(wi: nat, size: nat) returns (r: Find, done: bool)
      requires Valid() && wi < bits.Length && 0 < size <= this.size
      ensures done ==> r == Scan(Contents(), size, 64 * wi)
      ensures !done ==> Scan(Contents(), size, 64 * wi) == Scan(Contents(), size, 64 * wi + 64)
    {
      hide Bit, Scan, RangeVerdict, FreeFrom;
      var freeBits := FreeBitsOf(wi);
      ghost var lo := 0;
      while freeBits != 0
        invariant lo <= 64
        invariant FreeFrom(bits[..], this.size, wi, freeBits, lo)
        invariant Scan(Contents(), size, 64 * wi) == Scan(Contents(), size, 64 * wi + lo)
        decreases 64 - lo
      {
        var tz := LowestFree(wi, freeBits, lo);
        var startPos := 64 * wi + tz;
        ScanSkipsUsed(Contents(), size, 64 * wi + lo, startPos);
        ScanAt(Contents(), size, startPos);
        if (startPos + size) % U16 > this.size {
          return NotFound, true;
        }
        var verdict := RangeIsFree(startPos, (startPos + size + U16 - 1) % U16);
        match verdict {
          case Crash => return Panics, true;
          case Clear => return Found(startPos), true;
          case Blocked =>
        }
        freeBits := WithoutBit(wi, freeBits, lo, tz);
        lo := tz + 1;
      }
      NoFreeLeft(bits[..], this.size, wi, lo);
      ScanSkipsUsed(Contents(), size, 64 * wi + lo, 64 * wi + 64);
      return NotFound, false;
    }

    method LowestFree(wi: nat, freeBits: bv64, ghost lo: nat) returns (tz: nat)
      requires Valid() && wi < bits.Length
      requires freeBits != 0 && FreeFrom(bits[..], size, wi, freeBits, lo)
      ensures lo <= tz < 64 && IsFree(bits[..], size, 64 * wi + tz)
      ensures forall q | 64 * wi + lo <= q < 64 * wi + tz :: Contents()[q]
      ensures forall k: nat | k < tz :: !Bit(freeBits, k)
    {
      hide Bit;
      ZeroWord(freeBits);
      tz := TrailingZeros(freeBits);
      forall q | 64 * wi + lo <= q < 64 * wi + tz ensures Contents()[q] {
        assert !Bit(freeBits, q - 64 * wi);
        assert !IsFree(bits[..], size, q);
      }
    }

    method WithoutBit(wi: nat, freeBits: bv64, ghost lo: nat, tz: nat) returns (rest: bv64)
      requires wi < bits.Length && FreeFrom(bits[..], size, wi, freeBits, lo)
      requires lo <= tz < 64 && forall k: nat | k < tz :: !Bit(freeBits, k)
      ensures FreeFrom(bits[..], size, wi, rest, tz + 1)
    {
      hide Bit, Shl, AndNot;
      rest := AndNot(freeBits, Shl(1, tz));
      forall k: nat | k < 64
        ensures Bit(rest, k) == (Bit(freeBits, k) && k != tz)
      {
        ClearBit(freeBits, tz, k);
      }
    }

    method FindContiguous(size: nat) returns (r: Find)
      requires Valid() && size < U16
      ensures r == Search(Contents(), size)
    {
      hide Scan, View, BitAt, Bit;
      if size == 0 || size > this.size || bits.Length == 0 {
        return NotFound;
      }
      for wi := 0 to bits.Length
        invariant Search(Contents(), size) == Scan(Contents(), size, 64 * wi)
      {
        var found, done := SearchWord(wi, size);
        if done {
          return found;
        }
      }
      ScanPastEnd(Contents(), size, 64 * bits.Length);
      r := NotFound;
    }

    /** Popcount of all words; the tail bits are clear, so this counts used positions. */
    method UsedBytes() returns (r: nat)
      requires Valid()
      ensures r == size - CountFree(Contents())
    {
      r := 0;
      for i := 0 to bits.Length
        invariant r == OnesIn(bits[..i])
      {
        assert bits[..i + 1][..i] == bits[..i];
        r := r + OnesBelow(bits[i], 64);
      }
      assert bits[..bits.Length] == bits[..];
      OnesCountUsed(bits[..], size);
    }

    method FreeBytes() returns (r: nat)
      requires Valid()
      ensures r == CountFree(Contents())
    {
      var totalSet := UsedBytes();
      r := size - totalSet;
    }
  }

  ghost predicate IsFree(words: seq<bv64>, size: nat, i: nat) {
    i < size && i < 64 * |words| && !BitAt(words, i)
  }

  /** `freeBits` holds the free positions of word `wi` from bit `lo` on, and nothing else. */
  ghost predicate FreeFrom(words: seq<bv64>, size: nat, wi: nat, freeBits: bv64, lo: nat) {
    forall k: nat | k < 64 :: Bit(freeBits, k) == (lo <= k && IsFree(words, size, 64 * wi + k))
  }

  /** Every word holds positions of the bitmap, and all but the last are full. */
  lemma {:induction false} LastWordLength(size: nat, wi: nat)
    requires wi < WordCount(size)
    ensures 64 * wi < size && (wi < WordCount(size) - 1 ==> 64 * wi + 64 <= size)
  {
  }

  lemma {:induction false} InvertedWord(words: seq<bv64>, size: nat, wi: nat)
    requires wi < |words| && 64 * wi + 64 <= size
    ensures FreeFrom(words, size, wi, Not(words[wi]), 0)
  {
    hide Bit, Not;
    var inverted := Not(words[wi]);
    forall k: nat | k < 64 ensures Bit(inverted, k) == IsFree(words, size, 64 * wi + k) {
      NotBit(words[wi], k);
    }
  }

  lemma {:induction false} InvertedTail(words: seq<bv64>, size: nat, wi: nat, n: nat)
    requires wi < |words| && n == size - 64 * wi && 0 < n < 64
    ensures FreeFrom(words, size, wi, And(Not(words[wi]), Shr(!0, 64 - n)), 0)
  {
    hide Bit, Shr, Not, And;
    var inverted, tail := Not(words[wi]), Shr(!0, 64 - n);
    var masked := And(inverted, tail);
    forall k: nat | k < 64 ensures Bit(masked, k) == IsFree(words, size, 64 * wi + k) {
      NotBit(words[wi], k);
      TailMask(n, k);
      AndBit(inverted, tail, k);
    }
  }

  lemma {:induction false} NoFreeLeft(words: seq<bv64>, size: nat, wi: nat, lo: nat)
    requires size <= 64 * |words| && FreeFrom(words, size, wi, 0, lo)
    ensures forall q | 64 * wi + lo <= q < 64 * wi + 64 && q < size :: View(words, size)[q]
  {
    hide Bit;
    ZeroWord(0);
    forall q | 64 * wi + lo <= q < 64 * wi + 64 && q < size ensures View(words, size)[q] {
      assert !Bit(0, q - 64 * wi);
      assert !IsFree(words, size, q);
    }
  }

  lemma {:induction false} WordOnes(w: bv64, s: seq<bool>)
    requires |s| <= 64 && forall k | 0 <= k < |s| :: s[k] == Bit(w, k)
    ensures CountFree(s) + OnesBelow(w, |s|) == |s|
  {
    hide Bit;
    if s != [] {
      WordOnes(w, s[..|s| - 1]);
    }
  }

  lemma {:induction false} AllOnes(words: seq<bv64>)
    ensures CountFree(View(words, 64 * |words|)) + OnesIn(words) == 64 * |words|
  {
    hide Bit, View, CountFree, OnesBelow;
    if words != [] {
      var n := |words| - 1;
      var s := View(words, 64 * |words|);
      AllOnes(words[..n]);
      CountFreeSplit(s, 64 * n);
      assert s[..64 * n] == View(words[..n], 64 * n) by {
        assert forall i | 0 <= i < 64 * n :: BitAt(words, i) == BitAt(words[..n], i);
      }
      LastWord(words, s);
    } else {
      CountFreeAllFree(View(words, 0));
    }
  }

  lemma {:induction false} LastWord(words: seq<bv64>, s: seq<bool>)
    requires words != [] && s == View(words, 64 * |words|)
    ensures var n := |words| - 1; CountFree(s[64 * n..]) + OnesBelow(words[n], 64) == 64
  {
    hide Bit, View, CountFree, OnesBelow;
    var n := |words| - 1;
    var last := s[64 * n..];
    forall k | 0 <= k < 64 ensures last[k] == Bit(words[n], k) {
      assert last[k] == BitAt(words, 64 * n + k);
    }
    WordOnes(words[n], last);
  }

  /** With a clear tail, the popcount of the words counts the used positions. */
  lemma {:induction false} OnesCountUsed(words: seq<bv64>, size: nat)
    requires size <= 64 * |words|
    requires forall i: nat | size <= i < 64 * |words| :: !BitAt(words, i)
    ensures OnesIn(words) == size - CountFree(View(words, size))
  {
    hide Bit, View, CountFree, OnesIn;
    var s := View(words, 64 * |words|);
    AllOnes(words);
    CountFreeSplit(s, size);
    assert s[..size] == View(words, size);
    CountFreeAllFree(s[size..]);
  }

  /** The bits of word `wj` that lie between `startPos` and `endPos`. */
  function RangeMask(startPos: nat, endPos: nat, wj: nat): bv64
    requires startPos <= endPos && startPos / 64 <= wj <= endPos / 64
  {
    var startIdx, endIdx := startPos / 64, endPos / 64;
    var startBit, endBit := startPos % 64, endPos % 64;
    if wj == startIdx && wj == endIdx then Shl(Dec(Shl(1, endBit - startBit + 1)), startBit)
    else if wj == startIdx then Shl(!0, startBit)
    else if wj == endIdx then Dec(Shl(1, endBit + 1))
    else !0
  }

  lemma {:induction false} RangeMaskBit(startPos: nat, endPos: nat, wj: nat, k: nat)
    requires startPos <= endPos && startPos / 64 <= wj <= endPos / 64 && k < 64
    ensures Bit(RangeMask(startPos, endPos, wj), k) <==> startPos <= 64 * wj + k <= endPos
  {
    hide Bit, Shl, Dec;
    var startIdx, endIdx := startPos / 64, endPos / 64;
    var startBit, endBit := startPos % 64, endPos % 64;
    if wj == startIdx && wj == endIdx {
      MiddleMask(startBit, endBit, k);
    } else if wj == startIdx {
      HighMask(startBit, k);
    } else if wj == endIdx {
      LowMask(endBit + 1, k);
    } else {
      ConstantBit(k);
    }
  }

  /** The masked test of one word finds a used position of the range, if that word has one. */
  lemma {:induction false} WordTest(words: seq<bv64>, size: nat, startPos: nat, endPos: nat, wj: nat)
    requires |words| == WordCount(size)
    requires forall i: nat | size <= i < 64 * |words| :: !BitAt(words, i)
    requires startPos <= endPos && startPos / 64 <= wj <= endPos / 64 && wj < |words|
    ensures Meets(words[wj], RangeMask(startPos, endPos, wj))
       <==> exists q :: startPos <= q <= endPos && 64 * wj <= q < 64 * wj + 64 && q < size && BitAt(words, q)
  {
    hide Bit, RangeMask, Meets;
    var mask := RangeMask(startPos, endPos, wj);
    TestMask(words[wj], mask);
    if k: nat :| k < 64 && Bit(words[wj], k) && Bit(mask, k) {
      RangeMaskBit(startPos, endPos, wj, k);
      assert BitAt(words, 64 * wj + k);
    }
    if q: nat :| startPos <= q <= endPos && 64 * wj <= q < 64 * wj + 64 && q < size && BitAt(words, q) {
      RangeMaskBit(startPos, endPos, wj, q % 64);
      assert q / 64 == wj && Bit(words[wj], q % 64);
    }
  }
}
