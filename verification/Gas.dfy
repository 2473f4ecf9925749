/** The lock-free gas accountant as atomic steps of any number of threads over any number of
    buckets: loads, compare-and-swaps and delayed additions, in every interleaving. */
module Gas {
  import Model

  datatype Bucket = Bucket(remaining: nat, used: nat)

  /** Where a thread stands inside `Consume` or `Refund`. */
  datatype Thread =
    | Idle
    | Consuming(b: nat, gas: nat)
    | Loaded(b: nat, gas: nat, seen: nat)
    | Charging(b: nat, gas: nat)
    | Scanning(b: nat, gas: nat)
    | Retrying(b: nat, gas: nat)
    | Taking(b: nat, gas: nat, seen: nat)
    | Returning(b: nat, gas: nat)

  /** What has happened so far: gas charged by successful `Consume` calls, gas that `Refund`
      calls asked to return and have returned, and refunded gas no recorded use stood behind. */
  datatype Ledger = Ledger(charged: nat, requested: nat, returned: nat, over: nat)

  datatype World = World(buckets: seq<Bucket>, threads: seq<Thread>, bucketIdx: nat, ledger: Ledger)

  /** What an idle thread does when it is scheduled. */
  datatype Call = Consume(gas: nat) | Refund(gas: nat) | Pause

  /** `NewAccountant`: the limit is spread evenly, the remainder goes to the first bucket. */
  function NewBuckets(limit: nat, n: nat): seq<Bucket>
    requires n > 0
  {
    seq(n, i => Bucket(limit / n + (if i == 0 then limit % n else 0), 0))
  }

  function Start(limit: nat, n: nat, threads: nat): World
    requires n > 0
  {
    World(NewBuckets(limit, n), seq(threads, _ => Idle), 0, Ledger(0, 0, 0, 0))
  }

  ghost predicate WellFormed(w: World) {
    && w.buckets != []
    && (forall b | 0 <= b < |w.buckets| :: w.buckets[b].remaining < Model.U64 && w.buckets[b].used < Model.U64)
    && (forall t | 0 <= t < |w.threads| ::
          match w.threads[t]
          case Idle => true
          case Scanning(b, gas) => b <= |w.buckets| && gas < Model.U64
          case Loaded(b, gas, seen) => b < |w.buckets| && gas <= seen < Model.U64
          case th => th.b < |w.buckets| && th.gas < Model.U64)
  }

  /** One atomic step of thread `t`. */
  function Step(w: World, t: nat, call: Call): World
    requires WellFormed(w) && t < |w.threads|
    requires call.Pause? || call.gas < Model.U64
  {
    var bs, l := w.buckets, w.ledger;
    match w.threads[t]
    case Idle =>
      (match call
       case Pause => w
       case Refund(gas) =>
         w.(threads := w.threads[t := Scanning(0, gas)], ledger := l.(requested := l.requested + gas))
       case Consume(gas) =>
         var idx := (w.bucketIdx + 1) % Model.U64;
         w.(bucketIdx := idx, threads := w.threads[t := Consuming(idx % |bs|, gas)]))
    case Consuming(b, gas) =>
      w.(threads := w.threads[t := if bs[b].remaining < gas then Idle else Loaded(b, gas, bs[b].remaining)])
    case Loaded(b, gas, seen) =>
      if bs[b].remaining == seen then
        w.(buckets := bs[b := bs[b].(remaining := seen - gas)],
           threads := w.threads[t := Charging(b, gas)], ledger := l.(charged := l.charged + gas))
      else w.(threads := w.threads[t := Consuming(b, gas)])
    case Charging(b, gas) =>
      w.(buckets := bs[b := bs[b].(used := (bs[b].used + gas) % Model.U64)], threads := w.threads[t := Idle])
    case Scanning(b, gas) =>
      if b == |bs| then
        w.(buckets := bs[0 := bs[0].(remaining := (bs[0].remaining + gas) % Model.U64)],
           threads := w.threads[t := Idle],
           ledger := l.(returned := l.returned + gas, over := l.over + gas))
      else if bs[b].used == 0 then w.(threads := w.threads[t := Scanning(b + 1, gas)])
      else w.(threads := w.threads[t := Retrying(b, gas)])
    case Retrying(b, gas) =>
      w.(threads := w.threads[t := Taking(b, gas, bs[b].used)])
    case Taking(b, gas, seen) =>
      if bs[b].used == seen then
        w.(buckets := bs[b := bs[b].(used := if seen <= gas then 0 else seen - gas)],
           threads := w.threads[t := Returning(b, gas)],
           ledger := l.(over := l.over + (if seen <= gas then gas - seen else 0)))
      else w.(threads := w.threads[t := Retrying(b, gas)])
    case Returning(b, gas) =>
      w.(buckets := bs[b := bs[b].(remaining := (bs[b].remaining + gas) % Model.U64)],
         threads := w.threads[t := Idle], ledger := l.(returned := l.returned + gas))
  }

  // ----------------------------------------------------------------------- totals

  function TotalRemaining(bs: seq<Bucket>): nat {
    if bs == [] then 0 else TotalRemaining(bs[..|bs| - 1]) + bs[|bs| - 1].remaining
  }

  function TotalUsed(bs: seq<Bucket>): nat {
    if bs == [] then 0 else TotalUsed(bs[..|bs| - 1]) + bs[|bs| - 1].used
  }

  /** Gas a thread has taken from one counter and not yet put into the other. */
  function InFlight(th: Thread): nat {
    match th
    case Charging(_, gas) => gas
    case Returning(_, gas) => gas
    case _ => 0
  }

  /** Gas of a refund that has been asked for but not yet taken off any use. */
  function Unclaimed(th: Thread): nat {
    match th
    case Scanning(_, gas) => gas
    case Retrying(_, gas) => gas
    case Taking(_, gas, _) => gas
    case _ => 0
  }

  function TotalInFlight(ts: seq<Thread>): nat {
    if ts == [] then 0 else TotalInFlight(ts[..|ts| - 1]) + InFlight(ts[|ts| - 1])
  }

  function TotalUnclaimed(ts: seq<Thread>): nat {
    if ts == [] then 0 else TotalUnclaimed(ts[..|ts| - 1]) + Unclaimed(ts[|ts| - 1])
  }

  lemma {:induction false} BucketUpdate(bs: seq<Bucket>, b: nat, v: Bucket)
    requires b < |bs|
    ensures TotalRemaining(bs[b := v]) == TotalRemaining(bs) - bs[b].remaining + v.remaining
    ensures TotalUsed(bs[b := v]) == TotalUsed(bs) - bs[b].used + v.used
    ensures bs[b].remaining <= TotalRemaining(bs) && bs[b].used <= TotalUsed(bs)
  {
    var n := |bs| - 1;
    if b < n {
      BucketUpdate(bs[..n], b, v);
      assert bs[b := v][..n] == bs[..n][b := v];
    } else {
      assert bs[b := v][..n] == bs[..n];
    }
  }

  lemma {:induction false} ThreadUpdate(ts: seq<Thread>, t: nat, v: Thread)
    requires t < |ts|
    ensures TotalInFlight(ts[t := v]) == TotalInFlight(ts) - InFlight(ts[t]) + InFlight(v)
    ensures TotalUnclaimed(ts[t := v]) == TotalUnclaimed(ts) - Unclaimed(ts[t]) + Unclaimed(v)
    ensures InFlight(ts[t]) <= TotalInFlight(ts) && Unclaimed(ts[t]) <= TotalUnclaimed(ts)
  {
    var n := |ts| - 1;
    if t < n {
      ThreadUpdate(ts[..n], t, v);
      assert ts[t := v][..n] == ts[..n][t := v];
    } else {
      assert ts[t := v][..n] == ts[..n];
    }
  }

  // -------------------------------------------------------------------- the invariant

  /** Every unit of gas is remaining, used or in flight, up to refunds that nothing stood
      behind; what was charged was there or came back; and only refunds can be excessive. */
  ghost predicate Balanced(w: World, limit: nat) {
    && TotalRemaining(w.buckets) + TotalUsed(w.buckets) + TotalInFlight(w.threads) == limit + w.ledger.over
    && TotalRemaining(w.buckets) + w.ledger.charged == limit + w.ledger.returned
    && w.ledger.over + TotalUnclaimed(w.threads) <= w.ledger.requested
  }

  /** The step is an addition to a bucket's remaining gas that passes 64 bits. */
  ghost predicate WrapsRemaining(w: World, t: nat)
    requires WellFormed(w) && t < |w.threads|
  {
    match w.threads[t]
    case Returning(b, gas) => w.buckets[b].remaining + gas >= Model.U64
    case Scanning(b, gas) => b == |w.buckets| && w.buckets[0].remaining + gas >= Model.U64
    case _ => false
  }

  /** The step is an addition to a bucket's used gas that passes 64 bits. */
  ghost predicate WrapsUsed(w: World, t: nat)
    requires WellFormed(w) && t < |w.threads|
  {
    match w.threads[t]
    case Charging(b, gas) => w.buckets[b].used + gas >= Model.U64
    case _ => false
  }

  ghost predicate Wraps(w: World, t: nat)
    requires WellFormed(w) && t < |w.threads|
  {
    WrapsRemaining(w, t) || WrapsUsed(w, t)
  }

  /** All gas there is: remaining, used or on its way from one counter to the other. */
  function Total(w: World): nat {
    TotalRemaining(w.buckets) + TotalUsed(w.buckets) + TotalInFlight(w.threads)
  }

  /** The books after `r` wraps of remaining gas and `u` wraps of used gas: short of 2^64 for
      each. */
  ghost predicate Books(w: World, limit: nat, r: nat, u: nat) {
    && Total(w) + (r + u) * Model.U64 == limit + w.ledger.over
    && TotalRemaining(w.buckets) + w.ledger.charged + r * Model.U64 == limit + w.ledger.returned
    && w.ledger.over + TotalUnclaimed(w.threads) <= w.ledger.requested
  }

  lemma {:induction false} BalancedIsBooks(w: World, limit: nat)
    ensures Balanced(w, limit) <==> Books(w, limit, 0, 0)
  {
    hide TotalRemaining, TotalUsed, TotalInFlight, TotalUnclaimed;
  }

  predicate InRefund(th: Thread) {
    th.Scanning? || th.Retrying? || th.Taking? || th.Returning?
  }

  /** A step leaves the books as short as they were, and by 2^64 more if it wraps. */
  lemma {:induction false} StepKeepsBooks(w: World, t: nat, call: Call, limit: nat, r: nat, u: nat)
    requires WellFormed(w) && t < |w.threads| && (call.Pause? || call.gas < Model.U64)
    requires Books(w, limit, r, u)
    ensures Books(Step(w, t, call), limit,
                  r + (if WrapsRemaining(w, t) then 1 else 0), u + (if WrapsUsed(w, t) then 1 else 0))
  {
    hide Books, Step, WrapsRemaining, WrapsUsed;
    if InRefund(w.threads[t]) {
      RefundStep(w, t, call, limit, r, u);
    } else {
      ConsumeStep(w, t, call, limit, r, u);
    }
  }

  lemma {:induction false} ConsumeStep(w: World, t: nat, call: Call, limit: nat, r: nat, u: nat)
    requires WellFormed(w) && t < |w.threads| && (call.Pause? || call.gas < Model.U64)
    requires !InRefund(w.threads[t]) && Books(w, limit, r, u)
    ensures !WrapsRemaining(w, t)
    ensures Books(Step(w, t, call), limit, r, u + (if WrapsUsed(w, t) then 1 else 0))
  {
    hide TotalRemaining, TotalUsed, TotalInFlight, TotalUnclaimed;
    var th, w' := w.threads[t], Step(w, t, call);
    ThreadUpdate(w.threads, t, w'.threads[t]);
    if !th.Idle? {
      BucketUpdate(w.buckets, th.b, w'.buckets[th.b]);
    }
  }

  lemma {:induction false} RefundStep(w: World, t: nat, call: Call, limit: nat, r: nat, u: nat)
    requires WellFormed(w) && t < |w.threads| && (call.Pause? || call.gas < Model.U64)
    requires InRefund(w.threads[t]) && Books(w, limit, r, u)
    ensures !WrapsUsed(w, t)
    ensures Books(Step(w, t, call), limit, r + (if WrapsRemaining(w, t) then 1 else 0), u)
  {
    hide TotalRemaining, TotalUsed, TotalInFlight, TotalUnclaimed;
    var th, w' := w.threads[t], Step(w, t, call);
    ThreadUpdate(w.threads, t, w'.threads[t]);
    if th.Scanning? && th.b == |w.buckets| {
      BucketUpdate(w.buckets, 0, w'.buckets[0]);
    } else if !th.Scanning? {
      BucketUpdate(w.buckets, th.b, w'.buckets[th.b]);
    }
  }

  /** A step of balanced books leaves them balanced if and only if its addition does not wrap. */
  lemma {:induction false} StepKeepsBalanceIff(w: World, t: nat, call: Call, limit: nat)
    requires WellFormed(w) && t < |w.threads| && (call.Pause? || call.gas < Model.U64) && Balanced(w, limit)
    ensures Balanced(Step(w, t, call), limit) <==> !Wraps(w, t)
  {
    hide Step, Balanced, WrapsRemaining, WrapsUsed;
    BalancedIsBooks(w, limit);
    StepKeepsBooks(w, t, call, limit, 0, 0);
    BalancedIsBooks(Step(w, t, call), limit);
  }

  // -------------------------------------------------------------------- whole schedules

  datatype Turn = Turn(thread: nat, call: Call)

  ghost predicate Sensible(w: World, turns: seq<Turn>) {
    forall i | 0 <= i < |turns| ::
      turns[i].thread < |w.threads| && (turns[i].call.Pause? || turns[i].call.gas < Model.U64)
  }

  /** The world after a schedule, which stops early if a step would leave the world ill-formed. */
  ghost function Play(w: World, turns: seq<Turn>): World
    requires WellFormed(w) && Sensible(w, turns)
    decreases |turns|
  {
    if turns == [] then w
    else
      var w' := Step(w, turns[0].thread, turns[0].call);
      if WellFormed(w') then Play(w', turns[1..]) else w'
  }

  lemma {:induction false} StepShape(w: World, t: nat, call: Call)
    requires WellFormed(w) && t < |w.threads| && (call.Pause? || call.gas < Model.U64)
    ensures WellFormed(Step(w, t, call))
    ensures |Step(w, t, call).threads| == |w.threads| && |Step(w, t, call).buckets| == |w.buckets|
    ensures Step(w, t, call).ledger.requested >= w.ledger.requested
  {
    if InRefund(w.threads[t]) {
      RefundShape(w, t, call);
    } else {
      ConsumeShape(w, t, call);
    }
  }

  lemma {:induction false} ConsumeShape(w: World, t: nat, call: Call)
    requires WellFormed(w) && t < |w.threads| && (call.Pause? || call.gas < Model.U64)
    requires !InRefund(w.threads[t])
    ensures WellFormed(Step(w, t, call))
  {
  }

  lemma {:induction false} RefundShape(w: World, t: nat, call: Call)
    requires WellFormed(w) && t < |w.threads| && (call.Pause? || call.gas < Model.U64)
    requires InRefund(w.threads[t])
    ensures WellFormed(Step(w, t, call))
  {
  }

  /** How often a schedule wraps a bucket's remaining and used gas. */
  ghost function Wrapped(w: World, turns: seq<Turn>): (n: (nat, nat))
    requires WellFormed(w) && Sensible(w, turns)
    decreases |turns|
  {
    if turns == [] then (0, 0)
    else
      var t := turns[0].thread;
      var w' := Step(w, t, turns[0].call);
      StepShape(w, t, turns[0].call);
      var rest := Wrapped(w', turns[1..]);
      (rest.0 + (if WrapsRemaining(w, t) then 1 else 0), rest.1 + (if WrapsUsed(w, t) then 1 else 0))
  }

  /** No addition of the schedule passes 64 bits. */
  ghost predicate NeverWraps(w: World, turns: seq<Turn>)
    requires WellFormed(w) && Sensible(w, turns)
    decreases |turns|
  {
    turns == [] ||
    (!Wraps(w, turns[0].thread) &&
     (StepShape(w, turns[0].thread, turns[0].call);
      NeverWraps(Step(w, turns[0].thread, turns[0].call), turns[1..])))
  }

  lemma {:induction false} WrappedNever(w: World, turns: seq<Turn>)
    requires WellFormed(w) && Sensible(w, turns)
    ensures Wrapped(w, turns) == (0, 0) <==> NeverWraps(w, turns)
    decreases |turns|
  {
    hide Step, WrapsRemaining, WrapsUsed, WellFormed;
    if turns != [] {
      StepShape(w, turns[0].thread, turns[0].call);
      WrappedNever(Step(w, turns[0].thread, turns[0].call), turns[1..]);
    }
  }

  lemma {:induction false} PlayKeepsBooks(w: World, turns: seq<Turn>, limit: nat, r: nat, u: nat)
    requires WellFormed(w) && Sensible(w, turns) && Books(w, limit, r, u)
    ensures WellFormed(Play(w, turns))
    ensures Books(Play(w, turns), limit, r + Wrapped(w, turns).0, u + Wrapped(w, turns).1)
    decreases |turns|
  {
    hide Step, Books, WrapsRemaining, WrapsUsed, WellFormed;
    if turns != [] {
      var t := turns[0].thread;
      StepShape(w, t, turns[0].call);
      StepKeepsBooks(w, t, turns[0].call, limit, r, u);
      PlayKeepsBooks(Step(w, t, turns[0].call), turns[1..], limit,
        r + (if WrapsRemaining(w, t) then 1 else 0), u + (if WrapsUsed(w, t) then 1 else 0));
    }
  }

  /** Conservation under every interleaving of any number of threads over any number of buckets:
      the books balance at the end of a schedule if and only if no addition of it wrapped. A wrap
      is never made good again: each costs 2^64. */
  lemma {:induction false} BalancedIffNeverWraps(w: World, turns: seq<Turn>, limit: nat)
    requires WellFormed(w) && Sensible(w, turns) && Balanced(w, limit)
    ensures WellFormed(Play(w, turns))
    ensures Balanced(Play(w, turns), limit) <==> NeverWraps(w, turns)
    ensures Total(Play(w, turns)) + (Wrapped(w, turns).0 + Wrapped(w, turns).1) * Model.U64
         == limit + Play(w, turns).ledger.over
  {
    hide Play, Wrapped, NeverWraps, Balanced, WellFormed, Total;
    BalancedIsBooks(w, limit);
    PlayKeepsBooks(w, turns, limit, 0, 0);
    WrappedNever(w, turns);
    BalancedIsBooks(Play(w, turns), limit);
    ShortBooks(Play(w, turns), limit, Wrapped(w, turns).0, Wrapped(w, turns).1);
  }

  lemma {:induction false} ShortBooks(w: World, limit: nat, r: nat, u: nat)
    requires Books(w, limit, r, u)
    ensures Total(w) + (r + u) * Model.U64 == limit + w.ledger.over
    ensures Books(w, limit, 0, 0) <==> r == 0 && u == 0
  {
    hide Total, TotalRemaining, TotalUnclaimed;
  }

  /** The refunds asked for so far cannot push a counter over 64 bits. */
  ghost predicate Fits(w: World, limit: nat) {
    limit + w.ledger.requested < Model.U64
  }

  /** What a caller can check beforehand: while limit and requested refunds fit in 64 bits, no
      addition wraps. */
  lemma {:induction false} FitsNeverWraps(w: World, t: nat, limit: nat)
    requires WellFormed(w) && t < |w.threads| && Balanced(w, limit) && Fits(w, limit)
    ensures !Wraps(w, t)
  {
    hide TotalRemaining, TotalUsed, TotalInFlight, TotalUnclaimed;
    var th := w.threads[t];
    ThreadUpdate(w.threads, t, th);
    if th.Scanning? {
      BucketUpdate(w.buckets, 0, w.buckets[0]);
    } else if !th.Idle? {
      BucketUpdate(w.buckets, th.b, w.buckets[th.b]);
    }
  }

  lemma {:induction false} RequestsGrow(w: World, turns: seq<Turn>)
    requires WellFormed(w) && Sensible(w, turns)
    ensures Play(w, turns).ledger.requested >= w.ledger.requested
    decreases |turns|
  {
    if turns != [] {
      hide Step;
      StepShape(w, turns[0].thread, turns[0].call);
      RequestsGrow(Step(w, turns[0].thread, turns[0].call), turns[1..]);
    }
  }

  /** So a schedule whose requests fit in 64 bits never wraps and keeps the books balanced. */
  lemma {:induction false} PlayKeepsBalance(w: World, turns: seq<Turn>, limit: nat)
    requires WellFormed(w) && Sensible(w, turns) && Balanced(w, limit)
    requires Fits(Play(w, turns), limit)
    ensures NeverWraps(w, turns)
    ensures WellFormed(Play(w, turns)) && Balanced(Play(w, turns), limit)
    decreases |turns|
  {
    if turns != [] {
      hide Step, Balanced, Wraps;
      var w' := Step(w, turns[0].thread, turns[0].call);
      StepShape(w, turns[0].thread, turns[0].call);
      RequestsGrow(w', turns[1..]);
      FitsNeverWraps(w, turns[0].thread, limit);
      StepKeepsBalanceIff(w, turns[0].thread, turns[0].call, limit);
      PlayKeepsBalance(w', turns[1..], limit);
    }
  }

  lemma {:induction false} StartBalanced(limit: nat, n: nat, threads: nat)
    requires limit < Model.U64 && n > 0
    ensures WellFormed(Start(limit, n, threads)) && Balanced(Start(limit, n, threads), limit)
    ensures var bs := Start(limit, n, threads).buckets;
      && |bs| == n && (forall i | 0 < i < n :: bs[i].remaining * n <= limit < (bs[i].remaining + 1) * n)
      && (forall i | 0 <= i < n :: bs[i].used == 0) && bs[0].remaining == limit - (n - 1) * (limit / n)
  {
    var w := Start(limit, n, threads);
    assert limit / n + limit % n <= limit by { EvenSplit(limit, n); }
    EvenSplit(limit, n);
    SpreadTotals(w.buckets, limit / n, limit % n);
    IdleTotals(w.threads);
    EqualShare(limit, n);
  }

  lemma {:induction false} EvenSplit(limit: nat, n: nat)
    requires n > 0
    ensures n * (limit / n) + limit % n == limit
    ensures limit / n + limit % n <= limit
  {
    DivMod(limit, n);
    Grows(n, limit / n);
  }

  lemma {:induction false} EqualShare(limit: nat, n: nat)
    requires n > 0
    ensures (limit / n) * n <= limit < (limit / n + 1) * n
    ensures limit / n + limit % n == limit - (n - 1) * (limit / n)
  {
    DivMod(limit, n);
    var q := limit / n;
    assert n * q == (n - 1) * q + q;
    assert (q + 1) * n == n * q + n;
  }

  lemma {:induction false} DivMod(a: nat, n: nat)
    requires n > 0
    ensures n * (a / n) + a % n == a
  {
  }

  lemma {:induction false} Grows(n: nat, q: nat)
    requires n > 0
    ensures q <= n * q
  {
    assert n * q == q + (n - 1) * q;
  }

  lemma {:induction false} SpreadTotals(bs: seq<Bucket>, share: nat, extra: nat)
    requires bs != []
    requires forall i | 0 <= i < |bs| :: bs[i] == Bucket(share + (if i == 0 then extra else 0), 0)
    ensures TotalRemaining(bs) == |bs| * share + extra && TotalUsed(bs) == 0
  {
    var n := |bs| - 1;
    if n > 0 {
      SpreadTotals(bs[..n], share, extra);
      assert (n + 1) * share == n * share + share;
    } else {
      assert bs[..0] == [];
    }
  }

  lemma {:induction false} IdleTotals(ts: seq<Thread>)
    requires forall t | 0 <= t < |ts| :: ts[t] == Idle
    ensures TotalInFlight(ts) == 0 && TotalUnclaimed(ts) == 0
  {
    if ts != [] {
      IdleTotals(ts[..|ts| - 1]);
    }
  }

  /** No schedule of any number of threads overdraws: what was charged never exceeds the limit
      plus what came back, no bucket holds more than the limit plus excessive refunds, and once
      all threads are idle, remaining and used gas account for the whole limit. */
  lemma {:induction false} NoOverdraft(limit: nat, n: nat, threads: nat, turns: seq<Turn>)
    requires limit < Model.U64 && n > 0 && Sensible(Start(limit, n, threads), turns)
    requires WellFormed(Start(limit, n, threads)) && NeverWraps(Start(limit, n, threads), turns)
    ensures var w := Play(Start(limit, n, threads), turns);
      && w.ledger.charged <= limit + w.ledger.returned
      && (forall b | 0 <= b < |w.buckets| :: w.buckets[b].remaining <= limit + w.ledger.over)
      && (Fits(w, limit) ==> limit + w.ledger.over < Model.U64)
      && ((forall t | 0 <= t < |w.threads| :: w.threads[t] == Idle) ==>
            TotalRemaining(w.buckets) + TotalUsed(w.buckets) == limit + w.ledger.over)
  {
    hide Play, Start, NeverWraps, TotalRemaining, TotalUsed, TotalInFlight, TotalUnclaimed;
    StartBalanced(limit, n, threads);
    BalancedIffNeverWraps(Start(limit, n, threads), turns, limit);
    var w := Play(Start(limit, n, threads), turns);
    forall b | 0 <= b < |w.buckets| ensures w.buckets[b].remaining <= limit + w.ledger.over {
      BucketUpdate(w.buckets, b, w.buckets[b]);
    }
    if forall t | 0 <= t < |w.threads| :: w.threads[t] == Idle {
      IdleTotals(w.threads);
    }
  }

  // ---------------------------------------------------------------- excessive refunds

  /** A step does not grant more than it takes off recorded use. */
  ghost predicate Backed(w: World, t: nat)
    requires WellFormed(w) && t < |w.threads|
  {
    match w.threads[t]
    case Scanning(b, gas) => b < |w.buckets| || gas == 0
    case Taking(b, gas, seen) => gas <= seen || w.buckets[b].used != seen
    case _ => true
  }

  ghost predicate AllBacked(w: World, turns: seq<Turn>)
    requires WellFormed(w) && Sensible(w, turns)
    decreases |turns|
  {
    turns == [] ||
    (Backed(w, turns[0].thread) &&
     (var w' := Step(w, turns[0].thread, turns[0].call);
      WellFormed(w') && |w'.threads| == |w.threads| && AllBacked(w', turns[1..])))
  }

  /** Gas appears exactly at the steps that are not backed: unless its addition wraps, a step
      never lowers the total, and leaves it the same if and only if it is backed. */
  lemma {:induction false} TotalGrowsIffUnbacked(w: World, t: nat, call: Call)
    requires WellFormed(w) && t < |w.threads| && (call.Pause? || call.gas < Model.U64) && !Wraps(w, t)
    ensures Total(Step(w, t, call)) >= Total(w)
    ensures Total(Step(w, t, call)) == Total(w) <==> Backed(w, t)
  {
    hide TotalRemaining, TotalUsed, TotalInFlight, TotalUnclaimed;
    var th, w' := w.threads[t], Step(w, t, call);
    ThreadUpdate(w.threads, t, w'.threads[t]);
    if th.Scanning? && th.b == |w.buckets| {
      BucketUpdate(w.buckets, 0, w'.buckets[0]);
    } else if !th.Scanning? && !th.Idle? {
      BucketUpdate(w.buckets, th.b, w'.buckets[th.b]);
    }
  }

  /** When every refund is at most the use its compare-and-swap saw and nothing wraps, nothing is
      created or lost: the books close on the limit exactly. */
  lemma {:induction false} BackedRunsHaveNoExcess(w: World, turns: seq<Turn>)
    requires WellFormed(w) && Sensible(w, turns) && AllBacked(w, turns) && NeverWraps(w, turns)
    ensures Total(Play(w, turns)) == Total(w)
    decreases |turns|
  {
    if turns != [] {
      hide Step, Backed, Wraps, Total;
      StepShape(w, turns[0].thread, turns[0].call);
      TotalGrowsIffUnbacked(w, turns[0].thread, turns[0].call);
      BackedRunsHaveNoExcess(Step(w, turns[0].thread, turns[0].call), turns[1..]);
    }
  }

  /** Wraps are within reach: from a fresh single bucket, a refund that takes the limit past 64
      bits wraps it within three steps of one thread, and the books no longer balance. */
  lemma {:induction false} WrapBreaksBalance(limit: nat, gas: nat)
    requires limit < Model.U64 && gas < Model.U64 && limit + gas >= Model.U64
    ensures var w := Start(limit, 1, 1);
      var w1 := Step(w, 0, Refund(gas));
      WellFormed(w1) && WellFormed(Step(w1, 0, Pause)) &&
      !Balanced(Step(Step(w1, 0, Pause), 0, Pause), limit)
  {
    var w := Start(limit, 1, 1);
    EvenSplit(limit, 1);
    assert w.buckets == [Bucket(limit, 0)];
    var w1 := Step(w, 0, Refund(gas));
    var w2 := Step(w1, 0, Pause);
    assert w2.threads == [Scanning(1, gas)] && w2.buckets == [Bucket(limit, 0)];
    var w3 := Step(w2, 0, Pause);
    assert w3.buckets == [Bucket(limit + gas - Model.U64, 0)];
    assert w3.buckets[..0] == [] && w3.threads[..0] == [];
    assert TotalRemaining(w3.buckets) == limit + gas - Model.U64;
  }

  // ------------------------------------------------------------------- undisturbed calls

  /** Under every interleaving a call returns only when it is done: a `Consume` after it recorded
      its charge or found too little in its bucket, a `Refund` after it gave the gas back. Until
      then it is after the same amount, and no other thread moves. */
  lemma {:induction false} CallsRunToTheEnd(w: World, t: nat, call: Call)
    requires WellFormed(w) && t < |w.threads| && (call.Pause? || call.gas < Model.U64) && w.threads[t] != Idle
    ensures var th, v := w.threads[t], Step(w, t, call);
      && |v.threads| == |w.threads| && (forall i | 0 <= i < |w.threads| && i != t :: v.threads[i] == w.threads[i])
      && (v.threads[t] == Idle ==>
            || th.Charging? || th.Returning? || (th.Scanning? && th.b == |w.buckets|)
            || (th.Consuming? && w.buckets[th.b].remaining < th.gas))
      && (v.threads[t] != Idle ==> v.threads[t].gas == th.gas && InRefund(v.threads[t]) == InRefund(th))
      && (!InRefund(th) && v.threads[t] != Idle ==> v.threads[t].b == th.b)
  {
  }

  /** The world after `n` more steps of thread `t` alone. */
  ghost function Alone(w: World, t: nat, n: nat): (v: World)
    requires WellFormed(w) && t < |w.threads|
    ensures WellFormed(v) && |v.threads| == |w.threads|
    decreases n
  {
    if n == 0 then w
    else
      StepShape(w, t, Pause);
      Alone(Step(w, t, Pause), t, n - 1)
  }

  lemma {:induction false} AloneMore(w: World, t: nat, m: nat, n: nat)
    requires WellFormed(w) && t < |w.threads|
    ensures Alone(w, t, m + n) == Alone(Alone(w, t, m), t, n)
    decreases m
  {
    hide Step, WellFormed;
    if m > 0 {
      StepShape(w, t, Pause);
      AloneMore(Step(w, t, Pause), t, m - 1, n);
    }
  }

  /** The first bucket with recorded use, or the number of buckets. */
  function FirstUsed(bs: seq<Bucket>): (k: nat)
    ensures k <= |bs| && (forall b | 0 <= b < k :: bs[b].used == 0) && (k < |bs| ==> bs[k].used > 0)
  {
    if bs == [] then 0
    else
      var k := FirstUsed(bs[..|bs| - 1]);
      if k < |bs| - 1 || bs[k].used > 0 then k else |bs|
  }

  /** Buckets without use are passed over one by one. */
  lemma {:induction false} ScanAlone(w: World, t: nat, gas: nat, b: nat, k: nat)
    requires WellFormed(w) && t < |w.threads| && w.threads[t] == Scanning(b, gas) && b <= k <= |w.buckets|
    requires forall i | b <= i < k :: w.buckets[i].used == 0
    ensures Alone(w, t, k - b) == w.(threads := w.threads[t := Scanning(k, gas)])
    decreases k - b
  {
    if b < k {
      var w' := Step(w, t, Pause);
      StepShape(w, t, Pause);
      assert w' == w.(threads := w.threads[t := Scanning(b + 1, gas)]);
      ScanAlone(w', t, gas, b + 1, k);
      assert w'.threads[t := Scanning(k, gas)] == w.threads[t := Scanning(k, gas)];
    } else {
      assert w.threads[t := Scanning(k, gas)] == w.threads;
    }
  }

  /** At a bucket with use, four more steps take the gas off its use and give it back. */
  lemma {:induction false} TakeAlone(w: World, t: nat, gas: nat, k: nat)
    requires WellFormed(w) && t < |w.threads| && w.threads[t] == Scanning(k, gas)
    requires k < |w.buckets| && w.buckets[k].used > 0
    ensures var b, v := w.buckets[k], Alone(w, t, 4);
      && v.threads == w.threads[t := Idle]
      && v.buckets == w.buckets[k := Bucket((b.remaining + gas) % Model.U64, if b.used <= gas then 0 else b.used - gas)]
  {
    var w1 := Step(w, t, Pause);
    StepShape(w, t, Pause);
    assert w1.threads == w.threads[t := Retrying(k, gas)] && w1.buckets == w.buckets;
    var w2 := Step(w1, t, Pause);
    StepShape(w1, t, Pause);
    assert w2.threads == w.threads[t := Taking(k, gas, w.buckets[k].used)] && w2.buckets == w.buckets;
    var w3 := Step(w2, t, Pause);
    StepShape(w2, t, Pause);
    var left := if w.buckets[k].used <= gas then 0 else w.buckets[k].used - gas;
    assert w3.threads == w.threads[t := Returning(k, gas)];
    assert w3.buckets == w.buckets[k := w.buckets[k].(used := left)];
    var w4 := Step(w3, t, Pause);
    StepShape(w3, t, Pause);
    assert w4.threads == w.threads[t := Idle];
    assert Alone(w4, t, 0) == w4 && Alone(w3, t, 1) == w4 && Alone(w2, t, 2) == w4 && Alone(w1, t, 3) == w4;
  }

  lemma {:induction false} AloneOnce(w: World, t: nat, n: nat)
    requires WellFormed(w) && t < |w.threads| && n > 0
    ensures WellFormed(Step(w, t, Pause)) && |Step(w, t, Pause).threads| == |w.threads|
    ensures Alone(w, t, n) == Alone(Step(w, t, Pause), t, n - 1)
  {
    hide Step, WellFormed;
    StepShape(w, t, Pause);
  }

  lemma {:induction false} AloneNone(w: World, t: nat)
    requires WellFormed(w) && t < |w.threads|
    ensures Alone(w, t, 0) == w
  {
    hide WellFormed;
  }

  /** The step of an idle thread. */
  lemma {:induction false} CallStep(w: World, t: nat, call: Call)
    requires WellFormed(w) && t < |w.threads| && w.threads[t] == Idle && (call.Pause? || call.gas < Model.U64)
    ensures var v, b := Step(w, t, call), (w.bucketIdx + 1) % Model.U64 % |w.buckets|;
      && WellFormed(v) && v.buckets == w.buckets && b < |w.buckets|
      && v.threads == (match call
                       case Pause => w.threads
                       case Refund(gas) => w.threads[t := Scanning(0, gas)]
                       case Consume(gas) => w.threads[t := Consuming(b, gas)])
  {
    StepShape(w, t, call);
  }

  /** The three steps of a charge. */
  lemma {:induction false} ChargeSteps(w: World, t: nat)
    requires WellFormed(w) && t < |w.threads|
    ensures var th, v := w.threads[t], Step(w, t, Pause);
      match th
      case Consuming(b, gas) =>
        && v.buckets == w.buckets
        && v.threads == w.threads[t :=
             if w.buckets[b].remaining < gas then Idle else Loaded(b, gas, w.buckets[b].remaining)]
      case Loaded(b, gas, seen) =>
        w.buckets[b].remaining == seen ==>
          && v.buckets == w.buckets[b := w.buckets[b].(remaining := seen - gas)]
          && v.threads == w.threads[t := Charging(b, gas)]
      case Charging(b, gas) =>
        && v.buckets == w.buckets[b := w.buckets[b].(used := (w.buckets[b].used + gas) % Model.U64)]
        && v.threads == w.threads[t := Idle]
      case _ => true
  {
  }

  lemma {:induction false} IdleAlone(w: World, t: nat, n: nat)
    requires WellFormed(w) && t < |w.threads| && w.threads[t] == Idle
    ensures Alone(w, t, n).buckets == w.buckets && Alone(w, t, n).threads == w.threads
    decreases n
  {
    if n > 0 {
      hide Step, WellFormed;
      CallStep(w, t, Pause);
      IdleAlone(Step(w, t, Pause), t, n - 1);
    }
  }

  /** A `Consume` that no other thread disturbs charges the bucket whose turn it is and records the
      use, or finds too little there and changes nothing. */
  lemma {:induction false} ConsumeAlone(w: World, t: nat, gas: nat)
    requires WellFormed(w) && t < |w.threads| && w.threads[t] == Idle && gas < Model.U64
    ensures WellFormed(Step(w, t, Consume(gas))) && |Step(w, t, Consume(gas)).threads| == |w.threads|
    ensures var k, v := (w.bucketIdx + 1) % Model.U64 % |w.buckets|, Alone(Step(w, t, Consume(gas)), t, 3);
      && k < |w.buckets| && v.threads == w.threads
      && v.buckets ==
         if w.buckets[k].remaining < gas then w.buckets
         else w.buckets[k := Bucket(w.buckets[k].remaining - gas, (w.buckets[k].used + gas) % Model.U64)]
  {
    hide Step, WellFormed, Alone;
    CallStep(w, t, Consume(gas));
    var k, w1 := (w.bucketIdx + 1) % Model.U64 % |w.buckets|, Step(w, t, Consume(gas));
    ChargeSteps(w1, t);
    AloneOnce(w1, t, 3);
    var w2 := Step(w1, t, Pause);
    if w.buckets[k].remaining < gas {
      IdleAlone(w2, t, 2);
      assert w1.threads[t := Idle] == w.threads;
    } else {
      ChargeSteps(w2, t);
      AloneOnce(w2, t, 2);
      var w3 := Step(w2, t, Pause);
      ChargeSteps(w3, t);
      AloneOnce(w3, t, 1);
      AloneNone(Step(w3, t, Pause), t);
      assert w3.threads[t := Idle] == w.threads;
    }
  }

  /** The last step of a refund that met no use. */
  lemma {:induction false} GrantStep(w: World, t: nat, gas: nat)
    requires WellFormed(w) && t < |w.threads| && w.threads[t] == Scanning(|w.buckets|, gas)
    ensures Alone(w, t, 1).threads == w.threads[t := Idle]
    ensures Alone(w, t, 1).buckets
         == w.buckets[0 := w.buckets[0].(remaining := (w.buckets[0].remaining + gas) % Model.U64)]
  {
    AloneOnce(w, t, 1);
    AloneNone(Step(w, t, Pause), t);
  }

  /** A `Refund` that no other thread disturbs ends. If some bucket has use, the first such bucket
      loses up to the amount from its use and gains the whole amount; if none has, the first
      bucket gains it. Every other bucket stays as it was. */
  lemma {:induction false} RefundAlone(w: World, t: nat, gas: nat) returns (n: nat)
    requires WellFormed(w) && t < |w.threads| && w.threads[t] == Idle && gas < Model.U64
    ensures WellFormed(Step(w, t, Refund(gas))) && |Step(w, t, Refund(gas)).threads| == |w.threads|
    ensures |w.buckets| > 0
    ensures var k, v := FirstUsed(w.buckets), Alone(Step(w, t, Refund(gas)), t, n);
      && v.threads == w.threads
      && v.buckets ==
         if k < |w.buckets| then
           var b := w.buckets[k];
           w.buckets[k := Bucket((b.remaining + gas) % Model.U64, if b.used <= gas then 0 else b.used - gas)]
         else w.buckets[0 := w.buckets[0].(remaining := (w.buckets[0].remaining + gas) % Model.U64)]
  {
    hide Step, WellFormed, Alone, FirstUsed;
    CallStep(w, t, Refund(gas));
    var k, w1 := FirstUsed(w.buckets), Step(w, t, Refund(gas));
    ScanAlone(w1, t, gas, 0, k);
    var w2 := Alone(w1, t, k);
    if k < |w.buckets| {
      n := k + 4;
      TakeAlone(w2, t, gas, k);
      AloneMore(w1, t, k, 4);
    } else {
      n := k + 1;
      GrantStep(w2, t, gas);
      AloneMore(w1, t, k, 1);
    }
    assert w1.threads[t := Scanning(k, gas)][t := Idle] == w.threads;
  }

  /** Gas used and then refunded: on one bucket, `Consume(g)` and then `Refund(r)` of at most as
      much leave exactly the difference used, and all the rest. */
  lemma {:induction false} RefundUndoesConsume(limit: nat, g: nat, r: nat) returns (n: nat)
    requires limit < Model.U64 && r <= g <= limit
    ensures WellFormed(Start(limit, 1, 1)) && WellFormed(Step(Start(limit, 1, 1), 0, Consume(g)))
    ensures |Step(Start(limit, 1, 1), 0, Consume(g)).threads| == 1
    ensures var used := Alone(Step(Start(limit, 1, 1), 0, Consume(g)), 0, 3);
      && used.threads == [Idle] && used.buckets == [Bucket(limit - g, g)]
      && WellFormed(Step(used, 0, Refund(r))) && |Step(used, 0, Refund(r)).threads| == 1
      && var back := Alone(Step(used, 0, Refund(r)), 0, n);
      && back.threads == [Idle] && back.buckets == [Bucket(limit - g + r, g - r)]
  {
    hide Step, WellFormed, Alone, Balanced, FirstUsed;
    StartBalanced(limit, 1, 1);
    var w := Start(limit, 1, 1);
    EvenSplit(limit, 1);
    assert w.buckets == [Bucket(limit, 0)] && w.threads == [Idle];
    ConsumeAlone(w, 0, g);
    var used := Alone(Step(w, 0, Consume(g)), 0, 3);
    n := RefundAlone(used, 0, r);
  }
}
