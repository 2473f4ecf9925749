/** The spatial cache: a map from addresses to list elements and a list of elements in order of
    use. Evicting the oldest element drops it from the list only, so lookups keep answering as
    an unbounded map would. */
module CacheModel {
  import opened Model

  class Entry {
    var data: seq<byte>

    constructor (data: seq<byte>)
      ensures this.data == data
    {
      this.data := data;
    }
  }

  /** `list.MoveToFront`: an element that is not in the list stays out. */
  function MoveToFront(ll: seq<Entry>, e: Entry): (r: seq<Entry>)
    ensures multiset(r) == multiset(ll)
    ensures if e in ll then r != [] && r[0] == e && r[1..] == Remove(ll, e) else r == ll
  {
    if e in ll then
      Removed(ll, e);
      [e] + Remove(ll, e)
    else ll
  }

  /** `list.Remove` */
  function Remove(ll: seq<Entry>, e: Entry): seq<Entry> {
    if ll == [] then [] else if ll[0] == e then ll[1..] else [ll[0]] + Remove(ll[1..], e)
  }

  lemma {:induction false} Removed(ll: seq<Entry>, e: Entry)
    ensures multiset(Remove(ll, e)) == multiset(ll) - multiset{e}
    ensures |Remove(ll, e)| <= |ll|
  {
    if ll != [] {
      assert ll == [ll[0]] + ll[1..];
      Removed(ll[1..], e);
    }
  }

  class SpatialCache {
    var cache: map<Address, Entry>
    var ll: seq<Entry>
    const capacity: nat

    /** Distinct addresses own distinct elements, and the list never outgrows the capacity. */
    ghost predicate Valid()
      reads this
    {
      && |ll| <= capacity
      && (forall a, b | a in cache && b in cache && a != b :: cache[a] != cache[b])
    }

    /** What lookups see. */
    ghost function View(): map<Address, seq<byte>>
      reads this, cache.Values
    {
      map a | a in cache :: cache[a].data
    }

    constructor ()
      ensures Valid() && capacity == 1000 && cache == map[] && View() == map[]
    {
      cache, ll, capacity := map[], [], 1000;
    }

    /** A lookup reorders the list and changes nothing else. */
    method Get(addr: Address) returns (r: Option<seq<byte>>)
      requires Valid()
      modifies this`ll
      ensures Valid() && View() == old(View()) && multiset(ll) == old(multiset(ll))
      ensures if addr in cache && cache[addr] in old(ll)
              then ll != [] && ll[0] == cache[addr] && ll[1..] == Remove(old(ll), cache[addr])
              else ll == old(ll)
      ensures r == if addr in View() then Some(View()[addr]) else None
    {
      if addr !in cache {
        return None;
      }
      var elem := cache[addr];
      var before := ll;
      ll := MoveToFront(ll, elem);
      assert |multiset(ll)| == |multiset(before)|;
      r := Some(elem.data);
    }

    /** Storing makes the lookup of `addr` answer `data` and no other answer change, whether or
        not an element is evicted from the list. */
    method Put(addr: Address, data: seq<byte>)
      requires Valid()
      modifies this, cache.Values
      ensures Valid() && View() == old(View())[addr := data]
      ensures forall e | e in cache.Values :: e in old(cache.Values) || fresh(e)
      ensures addr in cache
      ensures addr !in old(cache) ==>
        ll == if |old(ll)| < capacity then [cache[addr]] + old(ll) else ([cache[addr]] + old(ll))[..capacity]
      ensures addr in old(cache) ==>
        cache == old(cache) &&
        if cache[addr] in old(ll)
        then ll != [] && ll[0] == cache[addr] && ll[1..] == Remove(old(ll), cache[addr])
        else ll == old(ll)
    {
      if addr in cache {
        var elem, before := cache[addr], ll;
        ll := MoveToFront(ll, elem);
        assert |multiset(ll)| == |multiset(before)|;
        elem.data := data;
      } else {
        var elem := new Entry(data);
        ll := [elem] + ll;
        cache := cache[addr := elem];
        if |ll| > capacity {
          ll := ll[..|ll| - 1];
        }
      }
    }

    method Invalidate(addr: Address)
      requires Valid()
      modifies this
      ensures Valid() && View() == old(View()) - {addr}
      ensures cache.Values <= old(cache.Values)
      ensures ll == if addr in old(cache) then Remove(old(ll), old(cache)[addr]) else old(ll)
    {
      if addr in cache {
        Removed(ll, cache[addr]);
        ll := Remove(ll, cache[addr]);
        cache := cache - {addr};
      }
    }
  }

  // ---------------------------------------------------------------------- whole histories

  datatype Call = Look(addr: Address) | Store(addr: Address, data: seq<byte>) | Drop(addr: Address)

  /** What lookups see after a history of calls. */
  function After(calls: seq<Call>): map<Address, seq<byte>> {
    if calls == [] then map[]
    else
      var m := After(calls[..|calls| - 1]);
      match calls[|calls| - 1]
      case Look(_) => m
      case Store(addr, data) => m[addr := data]
      case Drop(addr) => m - {addr}
  }

  /** Call `i` stored `data` at `addr`, and no later call stored there again or dropped it. */
  ghost predicate LastStore(calls: seq<Call>, i: nat, addr: Address, data: seq<byte>) {
    && i < |calls| && calls[i] == Store(addr, data)
    && forall j | i < j < |calls| :: calls[j].addr != addr || calls[j].Look?
  }

  /** An address answers exactly if a store to it was not dropped since, with the bytes of the
      last one: no number of calls makes the cache forget. */
  lemma {:induction false} NothingIsForgotten(calls: seq<Call>, addr: Address, data: seq<byte>)
    ensures (addr in After(calls) && After(calls)[addr] == data) <==> exists i :: LastStore(calls, i, addr, data)
  {
    if calls != [] {
      var n := |calls| - 1;
      var init, last := calls[..n], calls[n];
      NothingIsForgotten(init, addr, data);
      if i: nat :| LastStore(calls, i, addr, data) {
        if i < n { assert LastStore(init, i, addr, data); }
      }
      if last == Store(addr, data) {
        assert LastStore(calls, n, addr, data);
      } else if i: nat :| LastStore(init, i, addr, data) {
        if last.addr != addr || last.Look? { assert LastStore(calls, i, addr, data); }
      }
    }
  }

  /** A cache through any history: its list stays within the capacity, its map has one entry for
      each address that was stored to and not dropped since. So the map outgrows the capacity if
      and only if there are more than a thousand such addresses. */
  method Replay(calls: seq<Call>) returns (c: SpatialCache)
    ensures c.Valid() && c.View() == After(calls) && c.capacity == 1000
    ensures |c.ll| <= 1000 && |c.cache| == |After(calls)|
    ensures |c.cache| > c.capacity <==> |After(calls)| > 1000
  {
    c := new SpatialCache();
    for i := 0 to |calls|
      invariant fresh(c) && fresh(c.cache.Values) && c.Valid() && c.capacity == 1000 && c.View() == After(calls[..i])
    {
      assert calls[..i + 1][..i] == calls[..i];
      match calls[i] {
        case Look(addr) => var _ := c.Get(addr);
        case Store(addr, data) => c.Put(addr, data);
        case Drop(addr) => c.Invalidate(addr);
      }
    }
    assert calls[..|calls|] == calls;
    assert c.View().Keys == c.cache.Keys;
    assert |c.cache.Keys| == |c.cache| && |c.View().Keys| == |c.View()|;
  }

  /** Stores to `n` different addresses. */
  function Stores(n: nat): (calls: seq<Call>)
    ensures |calls| == n
  {
    if n == 0 then [] else Stores(n - 1) + [Store(Address(n, 0, 0), [])]
  }

  /** A history with any number of entries, so with more than the capacity. */
  lemma {:induction false} MapOutgrowsCapacity(n: nat)
    ensures |After(Stores(n))| == n
    ensures forall a | a in After(Stores(n)) :: 0 < a.x <= n
  {
    if n > 0 {
      MapOutgrowsCapacity(n - 1);
      var init := Stores(n - 1);
      assert Stores(n)[..n - 1] == init;
      assert Address(n, 0, 0) !in After(init);
    }
  }
}
