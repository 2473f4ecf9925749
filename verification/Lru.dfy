/** The bounded region list against an unbounded one: after any promotions it holds the most
    recently promoted distinct regions, newest first, up to its limit. */
module Lru {
  import opened FirstFit
  import opened Model
  import opened Invariant
  import opened Runs

  /** The list after promoting the regions of `history` in order. */
  function Bounded(history: seq<nat>): seq<nat> {
    if history == [] then []
    else Promote(Bounded(history[..|history| - 1]), history[|history| - 1], true)
  }

  /** The same without the limit. */
  function Unbounded(history: seq<nat>): seq<nat> {
    if history == [] then []
    else
      var x := history[|history| - 1];
      [x] + Without(Unbounded(history[..|history| - 1]), x)
  }

  ghost predicate Distinct(s: seq<nat>) {
    forall i, j | 0 <= i < j < |s| :: s[i] != s[j]
  }

  function Take(s: seq<nat>): seq<nat> {
    if |s| <= LRU_LIMIT then s else s[..LRU_LIMIT]
  }

  /** Position just after the last occurrence of `x`, or zero. */
  function LastUse(history: seq<nat>, x: nat): (n: nat)
    ensures n <= |history|
    ensures n > 0 <==> x in history
    ensures n > 0 ==> history[n - 1] == x
  {
    if history == [] then 0
    else if history[|history| - 1] == x then |history|
    else LastUse(history[..|history| - 1], x)
  }

  lemma {:induction false} WithoutDistinct(s: seq<nat>, x: nat)
    requires Distinct(s)
    ensures x !in Without(s, x)
    ensures forall y :: y in Without(s, x) <==> y in s && y != x
    ensures |Without(s, x)| == |s| - (if x in s then 1 else 0)
    ensures Distinct(Without(s, x))
  {
    if s != [] {
      WithoutDistinct(s[1..], x);
      if s[0] != x {
        assert forall y :: y in s <==> y == s[0] || y in s[1..];
        var rest := Without(s[1..], x);
        forall j | 0 <= j < |rest| ensures rest[j] != s[0] {
          assert rest[j] in rest;
        }
      }
    }
  }

  lemma {:induction false} WithoutAbsent(s: seq<nat>, x: nat)
    requires x !in s
    ensures Without(s, x) == s
  {
    if s != [] {
      WithoutAbsent(s[1..], x);
    }
  }

  lemma {:induction false} WithoutConcat(s: seq<nat>, t: seq<nat>, x: nat)
    ensures Without(s + t, x) == if x in s then Without(s, x) + t else s + Without(t, x)
  {
    if s == [] {
      assert s + t == t;
    } else {
      assert (s + t)[1..] == s[1..] + t;
      if s[0] != x {
        WithoutConcat(s[1..], t, x);
      }
    }
  }

  /** Promoting in the bounded list is promoting in the unbounded one and cutting. */
  lemma {:induction false} PromoteTaken(s: seq<nat>, x: nat)
    requires Distinct(s)
    ensures Promote(Take(s), x, true) == Take([x] + Without(s, x))
  {
    WithoutDistinct(s, x);
    if |s| > LRU_LIMIT {
      var head, tail := s[..LRU_LIMIT], s[LRU_LIMIT..];
      assert s == head + tail;
      WithoutConcat(head, tail, x);
      if x in head {
        WithoutDistinct(head, x);
      } else {
        WithoutAbsent(head, x);
      }
    } else if |Without(s, x)| + 1 > LRU_LIMIT {
      assert ([x] + Without(s, x))[..LRU_LIMIT] == ([x] + Without(s, x))[..|Without(s, x)|];
    }
  }

  /** After any promotion history the region list is the first hundred entries of the unbounded
      move-to-front list. */
  lemma {:induction false} BoundedIsTaken(history: seq<nat>)
    ensures Bounded(history) == Take(Unbounded(history))
    ensures Distinct(Unbounded(history))
  {
    if history != [] {
      var init, x := history[..|history| - 1], history[|history| - 1];
      BoundedIsTaken(init);
      PromoteTaken(Unbounded(init), x);
      WithoutDistinct(Unbounded(init), x);
    }
  }

  /** `s` lists exactly the elements of the history, the most recently used first. */
  ghost predicate ByRecency(s: seq<nat>, history: seq<nat>) {
    && (forall y :: y in s <==> y in history)
    && (forall i, j | 0 <= i < j < |s| :: LastUse(history, s[i]) > LastUse(history, s[j]))
  }

  lemma {:induction false} WithoutOrder(s: seq<nat>, x: nat, history: seq<nat>)
    requires Distinct(s)
    requires forall i, j | 0 <= i < j < |s| :: LastUse(history, s[i]) > LastUse(history, s[j])
    ensures var t := Without(s, x);
      forall i, j | 0 <= i < j < |t| :: LastUse(history, t[i]) > LastUse(history, t[j])
  {
    if s != [] && s[0] != x {
      hide LastUse;
      var rest := Without(s[1..], x);
      WithoutOrder(s[1..], x, history);
      WithoutDistinct(s[1..], x);
      forall j | 0 <= j < |rest| ensures LastUse(history, s[0]) > LastUse(history, rest[j]) {
        assert rest[j] in s[1..];
      }
    }
  }

  /** The unbounded list orders the promoted regions by their last promotion. */
  lemma {:induction false} UnboundedByRecency(history: seq<nat>)
    ensures ByRecency(Unbounded(history), history)
  {
    if history != [] {
      var init, x := history[..|history| - 1], history[|history| - 1];
      var prior, rest := Unbounded(init), Without(Unbounded(init), x);
      UnboundedByRecency(init);
      BoundedIsTaken(init);
      WithoutDistinct(prior, x);
      WithoutOrder(prior, x, init);
      var s := [x] + rest;
      assert s == Unbounded(history);
      forall y ensures y in s <==> y in history {
        assert y in history <==> y in init || y == x;
      }
      forall i, j | 0 <= i < j < |s| ensures LastUse(history, s[i]) > LastUse(history, s[j]) {
        assert s[j] in rest && LastUse(history, s[j]) == LastUse(init, s[j]);
        if i > 0 {
          assert s[i] in rest && LastUse(history, s[i]) == LastUse(init, s[i]);
        }
      }
    }
  }

  /** The region list of an allocator: the hundred most recently promoted regions, newest first. */
  lemma {:induction false} LruIsMostRecent(history: seq<nat>)
    ensures var lru := Bounded(history);
      && |lru| <= 100 && Distinct(lru)
      && (forall i, j | 0 <= i < j < |lru| :: LastUse(history, lru[i]) > LastUse(history, lru[j]))
      && (forall i, y | 0 <= i < |lru| && y in history && y !in lru :: LastUse(history, y) < LastUse(history, lru[i]))
      && (|lru| < 100 ==> forall y | y in history :: y in lru)
  {
    hide Bounded, Unbounded, LastUse, ByRecency;
    BoundedIsTaken(history);
    UnboundedByRecency(history);
    var all, lru := Unbounded(history), Bounded(history);
    TakenOrder(all, history);
    forall i, y | 0 <= i < |lru| && y in history && y !in lru
      ensures LastUse(history, y) < LastUse(history, lru[i])
    {
      TakenBeats(all, history, i, y);
    }
    if |lru| < LRU_LIMIT {
      assert lru == all;
      TakenAll(all, history);
    }
  }

  lemma {:induction false} TakenOrder(all: seq<nat>, history: seq<nat>)
    requires ByRecency(all, history)
    ensures var lru := Take(all);
      forall i, j | 0 <= i < j < |lru| :: LastUse(history, lru[i]) > LastUse(history, lru[j])
  {
    hide LastUse;
  }

  lemma {:induction false} TakenBeats(all: seq<nat>, history: seq<nat>, i: nat, y: nat)
    requires ByRecency(all, history) && i < |Take(all)| && y in history && y !in Take(all)
    ensures LastUse(history, y) < LastUse(history, Take(all)[i])
  {
    hide LastUse;
    var k :| 0 <= k < |all| && all[k] == y;
    assert k >= |Take(all)|;
    assert LastUse(history, all[i]) > LastUse(history, all[k]);
  }

  lemma {:induction false} TakenAll(all: seq<nat>, history: seq<nat>)
    requires ByRecency(all, history)
    ensures forall y | y in history :: y in all
  {
    hide LastUse;
  }

  // ------------------------------------------------------------------ in allocator runs

  /** The region that served a successful request, as its handle tells. Only the handle of an
      empty request does not: it was served by the best region. */
  ghost function ServedBy(a: Allocator, act: Action): (served: seq<nat>)
    requires a.planeSize > 0 && Allowed(a, act)
  {
    match Act(a, act).outcome
    case Ok(alloc) =>
      (match act
       case DoAllocate(0, kind, _, hint) => [ChooseBest(a, 0, kind, hint).value]
       case _ => [alloc.addr.x])
    case _ => []
  }

  /** The regions that served the requests of a run, in order. */
  ghost function Served(a: Allocator, acts: seq<Action>): seq<nat>
    requires a.planeSize > 0 && Possible(a, acts)
    decreases |acts|
  {
    if acts == [] then []
    else if Act(a, acts[0]).outcome == Crashed then []
    else ServedBy(a, acts[0]) + Served(Act(a, acts[0]).a, acts[1..])
  }

  /** A region list after one more region served, if one did. */
  function Listed(lru: seq<nat>, served: seq<nat>): seq<nat> {
    if served == [] then lru else Promote(lru, served[0], true)
  }

  lemma {:induction false} PromotionServes(a: Allocator, x: nat, size: nat, kind: nat, flags: nat)
    requires x in a.regions && a.planeSize > 0
    ensures var y := PromoteIn(a, x, size, kind, flags);
      match y.result
      case Some(Ok(alloc)) => y.a.lru == Promote(a.lru, x, true) && (size > 0 ==> alloc.addr.x == x)
      case _ => y.a.lru == a.lru
  {
    hide Carve, Rollback, Promote, EnterFirst, Booked;
    var c := Carve(Carving(a.regions[x].planes, [], size, false), 0);
    if c.remaining == 0 && size > 0 {
      CarvedSomething(Carving(a.regions[x].planes, [], size, false), 0);
    }
  }

  /** A carving that used up its request has fragments. */
  lemma {:induction false} CarvedSomething(c: Carving, j: nat)
    requires j <= |c.planes| && (c.remaining > 0 || c.fragments != [])
    ensures Carve(c, j).remaining > 0 || Carve(c, j).fragments != []
    decreases |c.planes| - j
  {
    hide Search, CountFree, Occupy;
    if j < |c.planes| && c.remaining > 0 && !c.crashed {
      var n := Min(c.planes[j].FreeBytes(), c.remaining);
      var found := Search(c.planes[j].used, n);
      if n > 0 && found.Found? {
        CarvedSomething(CarveInto(c, j, found.start, n), j + 1);
      } else {
        CarvedSomething(c, j + 1);
      }
    }
  }

  lemma {:induction false} NewRegionServes(a: Allocator, size: nat, kind: nat, flags: nat)
    ensures var s := AllocateNewRegion(a, size, kind, flags);
      match s.outcome
      case Ok(alloc) => size > 0 && s.a.lru == Promote(a.lru, alloc.addr.x, true)
      case _ => s.a.lru == a.lru
  {
    hide FindSpot, Promote, PlaceAt, FreshRegion;
    if size == 0 { ZeroSpot(FreshRegion(a.nextRegion + 1, kind, a.planeSize).planes, 0); }
  }

  lemma {:induction false} AllocateServes(a: Allocator, size: nat, kind: nat, flags: nat, hint: nat)
    requires a.planeSize > 0 && size < U32
    ensures var act := DoAllocate(size, kind, flags, hint); Act(a, act).a.lru == Listed(a.lru, ServedBy(a, act))
  {
    hide FastScan, PromoteIn, AllocateNewRegion, Promote, PlaceAt, Best;
    var best := ChooseBest(a, size, kind, hint);
    if best.Some? {
      assert best.value in a.regions by { BestIsThere(a, best.value, size, kind); }
      PromotionServes(a, best.value, size, kind, flags);
    }
    var y := TryYPromotion(a, size, kind, flags, hint);
    NewRegionServes(y.a, size, kind, flags);
  }

  /** An operation promotes exactly the region that served it. */
  lemma {:induction false} ActServes(a: Allocator, act: Action)
    requires a.planeSize > 0 && Allowed(a, act)
    ensures Act(a, act).a.lru == Listed(a.lru, ServedBy(a, act)) && |ServedBy(a, act)| <= 1
  {
    hide Allocate, FindSpot, Promote, PlaceAt, AddPlane, Relieved;
    if act.DoAllocate? {
      AllocateServes(a, act.size, act.kind, act.flags, act.hint);
    }
  }

  /** In every run the allocator's region list is the bounded list of the regions that served the
      run's requests, in the order in which they served them. */
  lemma {:induction false} RunLru(a: Allocator, acts: seq<Action>, history: seq<nat>)
    requires a.planeSize > 0 && Possible(a, acts) && a.lru == Bounded(history)
    ensures Run(a, acts).a.lru == Bounded(history + Served(a, acts))
    decreases |acts|
  {
    hide Act, Allowed, Promote, ServedBy;
    if acts == [] {
      assert history + [] == history;
    } else {
      var served, b := ServedBy(a, acts[0]), Act(a, acts[0]);
      ActServes(a, acts[0]);
      if b.outcome == Crashed {
        CrashServesNone(a, acts[0]);
        assert history + [] == history;
      } else {
        BoundedMore(history, served);
        RunLru(b.a, acts[1..], history + served);
        assert history + served + Served(b.a, acts[1..]) == history + (served + Served(b.a, acts[1..]));
      }
    }
  }

  lemma {:induction false} CrashServesNone(a: Allocator, act: Action)
    requires a.planeSize > 0 && Allowed(a, act) && Act(a, act).outcome == Crashed
    ensures ServedBy(a, act) == []
  {
    hide Act;
  }

  lemma {:induction false} BoundedMore(history: seq<nat>, served: seq<nat>)
    requires |served| <= 1
    ensures Bounded(history + served) == Listed(Bounded(history), served)
  {
    hide Promote;
    if served == [] {
      assert history + served == history;
    } else {
      assert (history + served)[..|history|] == history;
    }
  }

  /** From a new allocator: the hundred regions that served last, the latest first. */
  lemma {:induction false} RunLruIsMostRecent(planeSize: nat, maxY: nat, acts: seq<Action>)
    requires planeSize > 0 && Possible(Init(planeSize, maxY), acts)
    ensures var lru, served := Run(Init(planeSize, maxY), acts).a.lru, Served(Init(planeSize, maxY), acts);
      && |lru| <= 100 && Distinct(lru)
      && (forall i, j | 0 <= i < j < |lru| :: LastUse(served, lru[i]) > LastUse(served, lru[j]))
      && (forall i, y | 0 <= i < |lru| && y in served && y !in lru :: LastUse(served, y) < LastUse(served, lru[i]))
      && (|lru| < 100 ==> forall y | y in served :: y in lru)
  {
    hide Run, Served, LastUse, Distinct, Possible, Bounded;
    var init := Init(planeSize, maxY);
    assert init.lru == Bounded([]) by { BoundedNone(); }
    RunLru(init, acts, []);
    assert [] + Served(init, acts) == Served(init, acts);
    LruIsMostRecent(Served(init, acts));
  }

  lemma {:induction false} BoundedNone()
    ensures Bounded([]) == []
  {
  }
}
