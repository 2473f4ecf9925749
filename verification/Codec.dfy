/** Big-endian encoding of machine words and 3D addresses. */
module Codec {
  import opened Model

  function Pow256(n: nat): (p: nat)
    ensures p > 0
  {
    if n == 0 then 1 else 256 * Pow256(n - 1)
  }

  /** `binary.BigEndian.PutUint`: the low `n` bytes of `v`, most significant first. */
  function Put(v: nat, n: nat): (s: seq<byte>)
    ensures |s| == n
  {
    if n == 0 then [] else Put(v / 256, n - 1) + [(v % 256) as byte]
  }

  /** `binary.BigEndian.Uint` */
  function Get(s: seq<byte>): nat {
    if s == [] then 0 else Get(s[..|s| - 1]) * 256 + s[|s| - 1] as nat
  }

  ghost predicate InRange(a: Address) {
    a.x < Pow256(8) && a.y < Pow256(4) && a.z < Pow256(2)
  }

  /** `Address3D.Bytes` */
  function Bytes(a: Address): (s: seq<byte>)
    ensures |s| == 14
  {
    Put(a.x, 8) + Put(a.y, 4) + Put(a.z, 2)
  }

  /** `FromBytes`; anything but 14 bytes is an error. */
  function FromBytes(s: seq<byte>): Option<Address> {
    if |s| != 14 then None else Some(Address(Get(s[..8]), Get(s[8..12]), Get(s[12..])))
  }

  /** `Address3D.Compare` */
  function Compare(a: Address, b: Address): int {
    if a.x != b.x then (if a.x < b.x then -1 else 1)
    else if a.y != b.y then (if a.y < b.y then -1 else 1)
    else if a.z != b.z then (if a.z < b.z then -1 else 1)
    else 0
  }

  // ------------------------------------------------------------------- round trips

  lemma {:induction false} GetBound(s: seq<byte>)
    ensures Get(s) < Pow256(|s|)
  {
    if s != [] {
      GetBound(s[..|s| - 1]);
    }
  }

  lemma {:induction false} GetPut(v: nat, n: nat)
    requires v < Pow256(n)
    ensures Get(Put(v, n)) == v
  {
    if n > 0 {
      var s := Put(v, n);
      GetPut(v / 256, n - 1);
      assert s[..n - 1] == Put(v / 256, n - 1);
    }
  }

  lemma {:induction false} PutGet(s: seq<byte>)
    ensures Put(Get(s), |s|) == s
  {
    if s != [] {
      var init, b := s[..|s| - 1], s[|s| - 1];
      PutGet(init);
      var v := Get(init) * 256 + b as nat;
      assert v / 256 == Get(init) && v % 256 == b as nat;
    }
  }

  /** Decoding undoes encoding on every address of the three widths ... */
  lemma {:induction false} FromBytesOfBytes(a: Address)
    requires InRange(a)
    ensures FromBytes(Bytes(a)) == Some(a)
  {
    var s := Bytes(a);
    assert s[..8] == Put(a.x, 8) && s[8..12] == Put(a.y, 4) && s[12..] == Put(a.z, 2);
    GetPut(a.x, 8);
    GetPut(a.y, 4);
    GetPut(a.z, 2);
  }

  /** ... and encoding undoes decoding on every string of 14 bytes. */
  lemma {:induction false} BytesOfFromBytes(s: seq<byte>)
    requires |s| == 14
    ensures InRange(FromBytes(s).value) && Bytes(FromBytes(s).value) == s
  {
    GetBound(s[..8]);
    GetBound(s[8..12]);
    GetBound(s[12..]);
    PutGet(s[..8]);
    PutGet(s[8..12]);
    PutGet(s[12..]);
    assert s == s[..8] + s[8..12] + s[12..];
  }

  // ------------------------------------------------------------------------- order

  /** Byte-wise lexicographic order of strings of equal length. */
  function Lexicographic(s: seq<byte>, t: seq<byte>): int
    requires |s| == |t|
  {
    if s == [] then 0
    else if s[0] < t[0] then -1
    else if s[0] > t[0] then 1
    else Lexicographic(s[1..], t[1..])
  }

  function Sign(a: nat, b: nat): int {
    if a < b then -1 else if a > b then 1 else 0
  }

  lemma {:induction false} GetCons(s: seq<byte>)
    requires s != []
    ensures Get(s) == s[0] as nat * Pow256(|s| - 1) + Get(s[1..])
  {
    var n := |s| - 1;
    if n > 0 {
      GetCons(s[..n]);
      assert s[..n][1..] == s[1..][..n - 1];
      var b, p := s[0] as nat, Pow256(n - 1);
      assert b * p * 256 == b * (256 * p);
    } else {
      assert s[..0] == [] && s[1..] == [];
    }
  }

  lemma {:induction false} LexicographicIsNumeric(s: seq<byte>, t: seq<byte>)
    requires |s| == |t|
    ensures Lexicographic(s, t) == Sign(Get(s), Get(t))
  {
    if s != [] {
      LexicographicIsNumeric(s[1..], t[1..]);
      GetCons(s);
      GetCons(t);
      GetBound(s[1..]);
      GetBound(t[1..]);
      DigitsDecide(s[0] as nat, t[0] as nat, Pow256(|s| - 1), Get(s[1..]), Get(t[1..]));
    }
  }

  lemma {:induction false} DigitsDecide(b: nat, c: nat, p: nat, u: nat, v: nat)
    requires u < p && v < p
    ensures b < c ==> b * p + u < c * p + v
    ensures b > c ==> b * p + u > c * p + v
  {
    if b < c {
      NextDigit(b, c, p);
    } else if b > c {
      NextDigit(c, b, p);
    }
  }

  lemma {:induction false} NextDigit(b: nat, c: nat, p: nat)
    requires b < c
    ensures b * p + p <= c * p
  {
    var d := c - b - 1;
    assert c * p == (b + 1 + d) * p == b * p + p + d * p;
  }

  lemma {:induction false} LexicographicConcat(s: seq<byte>, s': seq<byte>, t: seq<byte>, t': seq<byte>)
    requires |s| == |t| && |s'| == |t'|
    ensures Lexicographic(s + s', t + t')
         == if Lexicographic(s, t) != 0 then Lexicographic(s, t) else Lexicographic(s', t')
  {
    if s == [] {
      assert s + s' == s' && t + t' == t';
    } else {
      assert (s + s')[1..] == s[1..] + s' && (t + t')[1..] == t[1..] + t';
      LexicographicConcat(s[1..], s', t[1..], t');
    }
  }

  /** Comparing addresses is comparing their encodings byte by byte. */
  lemma {:induction false} CompareIsLexicographic(a: Address, b: Address)
    requires InRange(a) && InRange(b)
    ensures Compare(a, b) == Lexicographic(Bytes(a), Bytes(b))
  {
    GetPut(a.x, 8); GetPut(a.y, 4); GetPut(a.z, 2);
    GetPut(b.x, 8); GetPut(b.y, 4); GetPut(b.z, 2);
    LexicographicConcat(Put(a.x, 8) + Put(a.y, 4), Put(a.z, 2), Put(b.x, 8) + Put(b.y, 4), Put(b.z, 2));
    LexicographicConcat(Put(a.x, 8), Put(a.y, 4), Put(b.x, 8), Put(b.y, 4));
    LexicographicIsNumeric(Put(a.x, 8), Put(b.x, 8));
    LexicographicIsNumeric(Put(a.y, 4), Put(b.y, 4));
    LexicographicIsNumeric(Put(a.z, 2), Put(b.z, 2));
  }

  /** Addresses are totally ordered. */
  lemma {:induction false} CompareIsTotalOrder(a: Address, b: Address, c: Address)
    ensures Compare(a, b) == -Compare(b, a)
    ensures Compare(a, b) == 0 <==> a == b
    ensures Compare(a, b) <= 0 && Compare(b, c) <= 0 ==> Compare(a, c) <= 0
  {
  }
}
