/** A pool of credits shared by streams, with reservations and a queue of waiting streams. */
module CreditPool {
  import opened Basics


  type Stream = nat

  datatype Wait = Wait(stream: Stream, count: int)

  datatype Pool = Pool(available: int, reserved: map<Stream, int>, used: map<Stream, int>, waiting: seq<Wait>)

  function Get(m: map<Stream, int>, s: Stream): int {
    if s in m then m[s] else 0
  }

  // ---- the operations ----

  function Reserve(p: Pool, s: Stream, count: int): Pool {
    if count <= p.available then
      p.(reserved := p.reserved[s := count], used := p.used[s := 0], available := p.available - count)
    else p
  }

  predicate WithinReservation(p: Pool, s: Stream) {
    s in p.reserved && s in p.used && p.used[s] < p.reserved[s]
  }

  predicate Granted(p: Pool, s: Stream) {
    WithinReservation(p, s) || p.available > 0
  }

  /** One more credit wanted by `s`: on its entry, or as a new entry at the end. */
  function WaitFor(q: seq<Wait>, s: Stream): seq<Wait> {
    if q == [] then [Wait(s, 1)]
    else if q[0].stream == s then [Wait(s, q[0].count + 1)] + q[1..]
    else [q[0]] + WaitFor(q[1..], s)
  }

  function TryGet(p: Pool, s: Stream): Pool {
    if WithinReservation(p, s) then p.(used := p.used[s := p.used[s] + 1])
    else if p.available > 0 then p.(available := p.available - 1, used := p.used[s := Get(p.used, s) + 1])
    else p.(waiting := WaitFor(p.waiting, s))
  }

  /** Grants the head waiter all it waits for. */
  function GrantFirst(p: Pool): Pool
    requires p.waiting != []
  {
    var w := p.waiting[0];
    Pool(p.available - w.count, p.reserved, p.used[w.stream := Get(p.used, w.stream) + w.count], p.waiting[1..])
  }

  /** Goes once through the waiting streams, granting those the pool can afford at their turn. */
  function Wake(p: Pool): Pool
    decreases |p.waiting|
  {
    if p.waiting == [] then p
    else if p.available >= p.waiting[0].count then Wake(GrantFirst(p))
    else
      var r := Wake(p.(waiting := p.waiting[1..]));
      r.(waiting := [p.waiting[0]] + r.waiting)
  }

  function Return(p: Pool, s: Stream): Pool {
    if s !in p.used then p
    else if p.used[s] > 0 then
      var less := p.(used := p.used[s := p.used[s] - 1]);
      if s in p.reserved && less.used[s] < p.reserved[s] then less
      else Wake(less.(available := p.available + 1))
    else Wake(p)
  }

  function Release(p: Pool, s: Stream): Pool {
    if s in p.reserved then
      Pool(p.available + p.reserved[s], p.reserved - {s}, p.used - {s}, p.waiting)
    else p
  }

  // ---- the account ----

  /** A stream's use beyond its reservation. */
  function Excess(p: Pool, s: Stream): int {
    if Get(p.used, s) > Get(p.reserved, s) then Get(p.used, s) - Get(p.reserved, s) else 0
  }

  /** What a stream holds of the pool: its reservation, and what it uses beyond it. */
  function Holding(p: Pool, s: Stream): int {
    Get(p.reserved, s) + Excess(p, s)
  }

  ghost function Sum(streams: set<Stream>, f: Stream -> int): int {
    if streams == {} then 0
    else
      var s :| s in streams;
      f(s) + Sum(streams - {s}, f)
  }

  function Streams(p: Pool): set<Stream> {
    p.reserved.Keys + p.used.Keys
  }

  ghost function Held(p: Pool): int {
    Sum(Streams(p), (s: Stream) => Holding(p, s))
  }

  ghost predicate Ok(p: Pool) {
    && p.available >= 0
    && p.reserved.Keys <= p.used.Keys
    && (forall s | s in p.reserved :: p.reserved[s] >= 0)
    && (forall s | s in p.used :: p.used[s] >= 0)
    && (forall w | w in p.waiting :: w.count >= 1)
  }

  lemma {:induction false} SumTake(streams: set<Stream>, f: Stream -> int, s: Stream)
    requires s in streams
    ensures Sum(streams, f) == f(s) + Sum(streams - {s}, f)
    decreases streams
  {
    var t :| t in streams && Sum(streams, f) == f(t) + Sum(streams - {t}, f);
    if t != s {
      SumTake(streams - {t}, f, s);
      SumTake(streams - {s}, f, t);
      assert streams - {t} - {s} == streams - {s} - {t};
    }
  }

  lemma {:induction false} SumAgree(streams: set<Stream>, f: Stream -> int, g: Stream -> int)
    requires forall s | s in streams :: f(s) == g(s)
    ensures Sum(streams, f) == Sum(streams, g)
    decreases streams
  {
    if streams != {} {
      var s :| s in streams;
      SumTake(streams, f, s);
      SumTake(streams, g, s);
      SumAgree(streams - {s}, f, g);
    }
  }

  lemma {:induction false} SumNonNegative(streams: set<Stream>, f: Stream -> int)
    requires forall s | s in streams :: f(s) >= 0
    ensures Sum(streams, f) >= 0
    decreases streams
  {
    if streams != {} {
      var s :| s in streams;
      SumTake(streams, f, s);
      SumNonNegative(streams - {s}, f);
    }
  }

  /** Adding a stream that holds nothing changes no sum. */
  lemma SumAddZero(streams: set<Stream>, f: Stream -> int, s: Stream)
    requires s in streams || f(s) == 0
    ensures Sum(streams + {s}, f) == Sum(streams, f)
  {
    if s in streams {
      assert streams + {s} == streams;
    } else {
      SumTake(streams + {s}, f, s);
      assert streams + {s} - {s} == streams;
    }
  }

  /** When only one stream's numbers change, the total held changes by what that stream's
      holding does. */
  lemma HeldChanges(p: Pool, q: Pool, s: Stream)
    requires forall t | t != s :: Get(q.reserved, t) == Get(p.reserved, t) && Get(q.used, t) == Get(p.used, t)
    requires Streams(p) + {s} == Streams(q) + {s}
    ensures Held(q) - Held(p) == Holding(q, s) - Holding(p, s)
  {
    var f: Stream -> int, g: Stream -> int := (t: Stream) => Holding(p, t), (t: Stream) => Holding(q, t);
    var all := Streams(p) + {s};
    SumAddZero(Streams(p), f, s);
    SumAddZero(Streams(q), g, s);
    SumTake(all, f, s);
    SumTake(all, g, s);
    SumAgree(all - {s}, f, g);
  }

  // ---- what each operation does to the account ----

  /** Available credits and held ones together. */
  ghost function Account(p: Pool): int {
    p.available + Held(p)
  }

  lemma ReserveAccount(p: Pool, s: Stream, count: int)
    requires Ok(p) && count >= 0
    ensures Ok(Reserve(p, s, count))
    ensures Account(Reserve(p, s, count)) == Account(p) - if count <= p.available then Holding(p, s) else 0
  {
    if count <= p.available {
      HeldChanges(p, Reserve(p, s, count), s);
    }
  }

  lemma {:induction false} WaitForOk(q: seq<Wait>, s: Stream)
    requires forall w | w in q :: w.count >= 1
    ensures forall w | w in WaitFor(q, s) :: w.count >= 1
  {
    if q != [] {
      WaitForOk(q[1..], s);
    }
  }

  lemma TryGetAccount(p: Pool, s: Stream)
    requires Ok(p)
    ensures Ok(TryGet(p, s)) && Account(TryGet(p, s)) == Account(p)
    ensures Get(TryGet(p, s).used, s) == Get(p.used, s) + if Granted(p, s) then 1 else 0
  {
    var q := TryGet(p, s);
    if Granted(p, s) {
      HeldChanges(p, q, s);
    } else {
      WaitForOk(p.waiting, s);
      HeldChanges(p, q, s);
    }
  }

  /** Credits a grant takes from the common part although the waiter's reservation has room. */
  function GrantLeak(p: Pool, w: Wait): int {
    var room := Get(p.reserved, w.stream) - Get(p.used, w.stream);
    if room <= 0 then 0 else if room <= w.count then room else w.count
  }

  function WakeLeak(p: Pool): int
    decreases |p.waiting|
  {
    if p.waiting == [] then 0
    else if p.available >= p.waiting[0].count then GrantLeak(p, p.waiting[0]) + WakeLeak(GrantFirst(p))
    else WakeLeak(p.(waiting := p.waiting[1..]))
  }

  lemma GrantAccount(p: Pool)
    requires Ok(p) && p.waiting != [] && p.available >= p.waiting[0].count
    ensures Ok(GrantFirst(p)) && Account(GrantFirst(p)) == Account(p) - GrantLeak(p, p.waiting[0])
    ensures GrantLeak(p, p.waiting[0]) >= 0
    ensures GrantLeak(p, p.waiting[0]) == 0 <==> Get(p.used, p.waiting[0].stream) >= Get(p.reserved, p.waiting[0].stream)
  {
    assert p.waiting[0] in p.waiting;
    HeldChanges(p, GrantFirst(p), p.waiting[0].stream);
  }

  lemma SameNumbersSameHeld(p: Pool, q: Pool)
    requires p.reserved == q.reserved && p.used == q.used
    ensures Held(p) == Held(q)
  {
    HeldChanges(p, q, 0);
  }

  lemma {:induction false} WakeAccount(p: Pool)
    requires Ok(p)
    ensures Ok(Wake(p)) && Account(Wake(p)) == Account(p) - WakeLeak(p) && WakeLeak(p) >= 0
    decreases |p.waiting|
  {
    if p.waiting != [] {
      if p.available >= p.waiting[0].count {
        GrantAccount(p);
        WakeAccount(GrantFirst(p));
      } else {
        var later := p.(waiting := p.waiting[1..]);
        WakeAccount(later);
        SameNumbersSameHeld(p, later);
        SameNumbersSameHeld(Wake(p), Wake(later));
      }
    }
  }

  /** Every waiter this wake-up grants credits has used up its own reservation by then. */
  predicate GrantsOnlyBeyond(p: Pool)
    decreases |p.waiting|
  {
    if p.waiting == [] then true
    else if p.available >= p.waiting[0].count then
      var s := p.waiting[0].stream;
      Get(p.used, s) >= Get(p.reserved, s) && GrantsOnlyBeyond(GrantFirst(p))
    else GrantsOnlyBeyond(p.(waiting := p.waiting[1..]))
  }

  lemma {:induction false} WakeLeaksExactly(p: Pool)
    requires Ok(p)
    ensures WakeLeak(p) == 0 <==> GrantsOnlyBeyond(p)
    decreases |p.waiting|
  {
    if p.waiting != [] {
      if p.available >= p.waiting[0].count {
        GrantAccount(p);
        WakeAccount(GrantFirst(p));
        WakeLeaksExactly(GrantFirst(p));
      } else {
        WakeLeaksExactly(p.(waiting := p.waiting[1..]));
      }
    }
  }

  /** The credit is back: in the reservation, or in the common part, before anyone is woken. */
  function GivenBack(p: Pool, s: Stream): Pool
    requires s in p.used && p.used[s] > 0
  {
    var less := p.(used := p.used[s := p.used[s] - 1]);
    if s in p.reserved && less.used[s] < p.reserved[s] then less else less.(available := p.available + 1)
  }

  function ReturnLeak(p: Pool, s: Stream): int {
    if s !in p.used then 0
    else if p.used[s] > 0 then
      if s in p.reserved && p.used[s] - 1 < p.reserved[s] then 0 else WakeLeak(GivenBack(p, s))
    else WakeLeak(p)
  }

  lemma GivenBackAccount(p: Pool, s: Stream)
    requires Ok(p) && s in p.used && p.used[s] > 0
    ensures Ok(GivenBack(p, s)) && Account(GivenBack(p, s)) == Account(p)
  {
    HeldChanges(p, GivenBack(p, s), s);
  }

  lemma ReturnAccount(p: Pool, s: Stream)
    requires Ok(p)
    ensures Ok(Return(p, s)) && Account(Return(p, s)) == Account(p) - ReturnLeak(p, s) && ReturnLeak(p, s) >= 0
  {
    if s in p.used && p.used[s] > 0 {
      GivenBackAccount(p, s);
      WakeAccount(GivenBack(p, s));
    } else {
      WakeAccount(p);
    }
  }

  lemma ReleaseAccount(p: Pool, s: Stream)
    requires Ok(p)
    ensures Ok(Release(p, s))
    ensures Account(Release(p, s)) == Account(p) - if s in p.reserved then Excess(p, s) else 0
  {
    HeldChanges(p, Release(p, s), s);
  }

  // ---- whole runs ----

  datatype Op = DoReserve(s: Stream, count: nat) | DoTryGet(s: Stream) | DoReturn(s: Stream) | DoWake | DoRelease(s: Stream)

  function Apply(p: Pool, op: Op): Pool {
    match op
    case DoReserve(s, count) => Reserve(p, s, count)
    case DoTryGet(s) => TryGet(p, s)
    case DoReturn(s) => Return(p, s)
    case DoWake => Wake(p)
    case DoRelease(s) => Release(p, s)
  }

  /** The credits an operation loses track of: what a stream held when it reserves again, what it
      used beyond a reservation it releases, and what waiters are granted from the common part
      while their own reservation has room. */
  function Leak(p: Pool, op: Op): int {
    match op
    case DoReserve(s, count) => if count <= p.available then Holding(p, s) else 0
    case DoTryGet(s) => 0
    case DoReturn(s) => ReturnLeak(p, s)
    case DoWake => WakeLeak(p)
    case DoRelease(s) => if s in p.reserved then Excess(p, s) else 0
  }

  function Fresh(total: nat): Pool {
    Pool(total, map[], map[], [])
  }

  function Play(total: nat, ops: seq<Op>): Pool {
    if ops == [] then Fresh(total) else Apply(Play(total, ops[..|ops| - 1]), ops[|ops| - 1])
  }

  function Leaked(total: nat, ops: seq<Op>): int {
    if ops == [] then 0
    else Leaked(total, ops[..|ops| - 1]) + Leak(Play(total, ops[..|ops| - 1]), ops[|ops| - 1])
  }

  lemma ApplyAccount(p: Pool, op: Op)
    requires Ok(p)
    ensures Ok(Apply(p, op)) && Leak(p, op) >= 0
    ensures Account(Apply(p, op)) == Account(p) - Leak(p, op)
  {
    match op
    case DoReserve(s, count) => ReserveAccount(p, s, count);
    case DoTryGet(s) => TryGetAccount(p, s);
    case DoReturn(s) => ReturnAccount(p, s);
    case DoWake => WakeAccount(p);
    case DoRelease(s) => ReleaseAccount(p, s);
  }

  lemma {:induction false} RunAccount(total: nat, ops: seq<Op>)
    ensures Ok(Play(total, ops)) && Account(Play(total, ops)) == total - Leaked(total, ops) && 0 <= Leaked(total, ops)
  {
    hide Ok, Account, Apply, Leak;
    if ops != [] {
      RunAccount(total, ops[..|ops| - 1]);
      ApplyAccount(Play(total, ops[..|ops| - 1]), ops[|ops| - 1]);
    } else {
      FreshAccount(total);
    }
  }

  lemma FreshAccount(total: nat)
    ensures Ok(Fresh(total)) && Account(Fresh(total)) == total
  {
    assert Streams(Fresh(total)) == {};
  }

  /** What a caller can see of an operation that loses no credit: a stream that reserves holds
      nothing yet, one that releases has used no more than it reserved, and no waiter is granted
      credits while its own reservation has room. */
  predicate Clean(p: Pool, op: Op) {
    match op
    case DoReserve(s, count) => count > p.available || (Get(p.reserved, s) == 0 && Get(p.used, s) == 0)
    case DoTryGet(s) => true
    case DoReturn(s) =>
      if s !in p.used then true
      else if p.used[s] > 0 then
        (s in p.reserved && p.used[s] - 1 < p.reserved[s]) || GrantsOnlyBeyond(GivenBack(p, s))
      else GrantsOnlyBeyond(p)
    case DoWake => GrantsOnlyBeyond(p)
    case DoRelease(s) => s !in p.reserved || Get(p.used, s) <= p.reserved[s]
  }

  lemma LeaksExactly(p: Pool, op: Op)
    requires Ok(p)
    ensures Leak(p, op) == 0 <==> Clean(p, op)
  {
    match op
    case DoReturn(s) =>
      if s in p.used && p.used[s] > 0 {
        GivenBackAccount(p, s);
        WakeLeaksExactly(GivenBack(p, s));
      } else {
        WakeLeaksExactly(p);
      }
    case DoWake => WakeLeaksExactly(p);
    case _ =>
  }

  /** Every operation of a run was clean. */
  predicate AllClean(total: nat, ops: seq<Op>) {
    ops == []
    || (AllClean(total, ops[..|ops| - 1]) && Clean(Play(total, ops[..|ops| - 1]), ops[|ops| - 1]))
  }

  lemma {:induction false} AllCleanExact(total: nat, ops: seq<Op>)
    ensures Leaked(total, ops) == 0 <==> AllClean(total, ops)
  {
    hide Ok, Leak, Play, Account, Clean;
    if ops != [] {
      AllCleanExact(total, ops[..|ops| - 1]);
      RunAccount(total, ops[..|ops| - 1]);
      ApplyAccount(Play(total, ops[..|ops| - 1]), ops[|ops| - 1]);
      LeaksExactly(Play(total, ops[..|ops| - 1]), ops[|ops| - 1]);
    }
  }

  /** In every run the credits available, the reservations and every stream's use beyond its
      reservation together never exceed the total, and are equal to it exactly when every
      operation was clean.  What is available is never negative. */
  lemma NeverOverCommitted(total: nat, ops: seq<Op>)
    ensures var p := Play(total, ops);
            && p.available >= 0
            && p.available + Held(p) <= total
            && (p.available + Held(p) == total <==> AllClean(total, ops))
  {
    RunAccount(total, ops);
    AllCleanExact(total, ops);
  }

  // ---- runs that lose credits ----

  lemma OneMore(total: nat, ops: seq<Op>, op: Op)
    ensures Play(total, ops + [op]) == Apply(Play(total, ops), op)
    ensures AllClean(total, ops + [op]) <==> AllClean(total, ops) && Clean(Play(total, ops), op)
  {
    assert (ops + [op])[..|ops + [op]| - 1] == ops;
  }

  /** Nothing is used and nothing waits, yet the pool has lost its credit to a second reservation. */
  lemma LostByReservingAgain(s: Stream)
    ensures var p := Play(1, [DoReserve(s, 1), DoReserve(s, 0)]);
            p == Pool(0, map[s := 0], map[s := 0], []) && p.available + Held(p) < 1
  {
    hide AllClean, Play, Held;
    NothingPlayed(1);
    OneMore(1, [], DoReserve(s, 1));
    assert [] + [DoReserve(s, 1)] == [DoReserve(s, 1)];
    OneMore(1, [DoReserve(s, 1)], DoReserve(s, 0));
    assert [DoReserve(s, 1)] + [DoReserve(s, 0)] == [DoReserve(s, 1), DoReserve(s, 0)];
    NeverOverCommitted(1, [DoReserve(s, 1), DoReserve(s, 0)]);
  }

  lemma NothingPlayed(total: nat)
    ensures Play(total, []) == Fresh(total)
  {
  }

  /** The stream's credit beyond its reservation is gone when it gives the reservation up. */
  lemma LostByReleasing(s: Stream)
    ensures var p := Play(1, [DoReserve(s, 0), DoTryGet(s), DoRelease(s)]);
            p == Pool(0, map[], map[], []) && p.available + Held(p) < 1
  {
    hide AllClean, Play, Held;
    NothingPlayed(1);
    OneMore(1, [], DoReserve(s, 0));
    assert [] + [DoReserve(s, 0)] == [DoReserve(s, 0)];
    OneMore(1, [DoReserve(s, 0)], DoTryGet(s));
    assert [DoReserve(s, 0)] + [DoTryGet(s)] == [DoReserve(s, 0), DoTryGet(s)];
    OneMore(1, [DoReserve(s, 0), DoTryGet(s)], DoRelease(s));
    assert [DoReserve(s, 0), DoTryGet(s)] + [DoRelease(s)] == [DoReserve(s, 0), DoTryGet(s), DoRelease(s)];
    NeverOverCommitted(1, [DoReserve(s, 0), DoTryGet(s), DoRelease(s)]);
  }

  /** Gets and returns alone can do it: `s` uses its reservation up and waits, gives its credit back
      to its reservation, and is then woken with the credit `t` returns. */
  lemma LostByWaking(s: Stream, t: Stream)
    requires s != t
    ensures var p := Play(2, [DoReserve(s, 1), DoTryGet(s), DoTryGet(t), DoTryGet(s), DoReturn(s), DoReturn(t)]);
            p.available == 0 && p.waiting == [] && p.used == map[s := 1, t := 0] && p.available + Held(p) < 2
  {
    hide AllClean, Play, Held, Apply;
    var one: seq<Op> := [DoReserve(s, 1)];
    var two := one + [DoTryGet(s)];
    var three := two + [DoTryGet(t)];
    var four := three + [DoTryGet(s)];
    var five := four + [DoReturn(s)];
    var six := five + [DoReturn(t)];
    NothingPlayed(2);
    assert [] + one == one;
    OneMore(2, [], DoReserve(s, 1));
    WakingSteps(s, t);
    OneMore(2, one, DoTryGet(s));
    OneMore(2, two, DoTryGet(t));
    OneMore(2, three, DoTryGet(s));
    OneMore(2, four, DoReturn(s));
    OneMore(2, five, DoReturn(t));
    NeverOverCommitted(2, six);
    assert six == [DoReserve(s, 1), DoTryGet(s), DoTryGet(t), DoTryGet(s), DoReturn(s), DoReturn(t)];
  }

  lemma WakingSteps(s: Stream, t: Stream)
    requires s != t
    ensures Apply(Fresh(2), DoReserve(s, 1)) == Pool(1, map[s := 1], map[s := 0], [])
    ensures Apply(Pool(1, map[s := 1], map[s := 0], []), DoTryGet(s)) == Pool(1, map[s := 1], map[s := 1], [])
    ensures Apply(Pool(1, map[s := 1], map[s := 1], []), DoTryGet(t)) == Pool(0, map[s := 1], map[s := 1, t := 1], [])
    ensures Apply(Pool(0, map[s := 1], map[s := 1, t := 1], []), DoTryGet(s)) ==
            Pool(0, map[s := 1], map[s := 1, t := 1], [Wait(s, 1)])
    ensures Apply(Pool(0, map[s := 1], map[s := 1, t := 1], [Wait(s, 1)]), DoReturn(s)) ==
            Pool(0, map[s := 1], map[s := 0, t := 1], [Wait(s, 1)])
    ensures var p := Pool(0, map[s := 1], map[s := 0, t := 1], [Wait(s, 1)]);
            Apply(p, DoReturn(t)) == Pool(0, map[s := 1], map[s := 1, t := 0], []) && !Clean(p, DoReturn(t))
  {
    var p := Pool(0, map[s := 1], map[s := 0, t := 1], [Wait(s, 1)]);
    var q := GivenBack(p, t);
    assert q == Pool(1, map[s := 1], map[s := 0, t := 0], [Wait(s, 1)]);
    assert GrantFirst(q) == Pool(0, map[s := 1], map[s := 1, t := 0], []);
    assert Wake(GrantFirst(q)) == GrantFirst(q);
  }

  /** All credits in use at any time are within the total. */
  lemma UseWithinTotal(total: nat, ops: seq<Op>)
    ensures var p := Play(total, ops); p.available + Sum(Streams(p), (s: Stream) => Get(p.used, s)) <= total
  {
    var p := Play(total, ops);
    NeverOverCommitted(total, ops);
    RunAccount(total, ops);
    SumAtMost(Streams(p), (s: Stream) => Get(p.used, s), (s: Stream) => Holding(p, s));
  }

  lemma {:induction false} SumAtMost(streams: set<Stream>, f: Stream -> int, g: Stream -> int)
    requires forall s | s in streams :: f(s) <= g(s)
    ensures Sum(streams, f) <= Sum(streams, g)
    decreases streams
  {
    if streams != {} {
      var s :| s in streams;
      SumTake(streams, f, s);
      SumTake(streams, g, s);
      SumAtMost(streams - {s}, f, g);
    }
  }

  // ---- the pool as it runs ----

  class CreditPool {
    const total: int
    var available: int
    var reservations: map<Stream, int>
    var usedCredits: map<Stream, int>
    var waitQueue: seq<Wait>

    ghost function View(): Pool
      reads this
    {
      Pool(available, reservations, usedCredits, waitQueue)
    }

    constructor (credits: nat)
      ensures total == credits && View() == Fresh(credits)
    {
      total, available := credits, credits;
      reservations, usedCredits, waitQueue := map[], map[], [];
    }

    method ReserveCredits(s: Stream, count: int) returns (ok: bool)
      modifies this
      ensures ok == (count <= old(available))
      ensures View() == Reserve(old(View()), s, count)
    {
      if count <= available {
        reservations := reservations[s := count];
        usedCredits := usedCredits[s := 0];
        available := available - count;
        return true;
      }
      return false;
    }

    method TryGetCredit(s: Stream) returns (ok: bool)
      modifies this
      ensures ok == Granted(old(View()), s)
      ensures View() == TryGet(old(View()), s)
    {
      if s in reservations && s in usedCredits {
        if usedCredits[s] < reservations[s] {
          usedCredits := usedCredits[s := usedCredits[s] + 1];
          return true;
        }
      }
      if available > 0 {
        available := available - 1;
        usedCredits := usedCredits[s := Get(usedCredits, s) + 1];
        return true;
      }
      WaitForCredit(s);
      return false;
    }

    method WaitForCredit(s: Stream)
      modifies this`waitQueue
      ensures waitQueue == WaitFor(old(waitQueue), s)
    {
      hide WaitFor;
      WaitForFirst(waitQueue, s);
      var i := 0;
      while i < |waitQueue|
        invariant i <= |waitQueue| && waitQueue == old(waitQueue)
        invariant waitQueue[..i] + WaitFor(waitQueue[i..], s) == WaitFor(waitQueue, s)
      {
        var entry := waitQueue[i];
        WaitForNext(waitQueue, i, s);
        if entry.stream == s {
          waitQueue := waitQueue[i := Wait(s, entry.count + 1)];
          return;
        }
        i := i + 1;
      }
      WaitForLast(waitQueue, i, s);
      waitQueue := waitQueue + [Wait(s, 1)];
    }

    method ReturnCredit(s: Stream)
      modifies this
      ensures View() == Return(old(View()), s)
    {
      if s !in usedCredits {
        return;
      }
      if usedCredits[s] > 0 {
        usedCredits := usedCredits[s := usedCredits[s] - 1];
        if s in reservations && usedCredits[s] < reservations[s] {
          return;
        }
        available := available + 1;
      }
      WakeWaiters();
    }

    method WakeWaiters()
      modifies this
      ensures View() == Wake(old(View()))
    {
      hide Wake, GrantFirst, Passed;
      PassedNone(View());
      var i := 0;
      while i < |waitQueue|
        invariant i <= |waitQueue|
        invariant Passed(waitQueue[..i], Wake(View().(waiting := waitQueue[i..]))) == Wake(old(View()))
        decreases |waitQueue| - i
      {
        var entry := waitQueue[i];
        ghost var now, skipped := View().(waiting := waitQueue[i..]), waitQueue[..i];
        WakeOne(now);
        if available >= entry.count {
          available := available - entry.count;
          usedCredits := usedCredits[entry.stream := Get(usedCredits, entry.stream) + entry.count];
          EraseAt(waitQueue, i);
          waitQueue := waitQueue[..i] + waitQueue[i + 1..];
          GrantedFirst(now, View().(waiting := waitQueue[i..]));
        } else {
          EraseAt(waitQueue, i);
          PassedMore(skipped, entry, Wake(now.(waiting := now.waiting[1..])));
          i := i + 1;
        }
      }
      WokenAll(View(), i);
    }

    method ReleaseReservation(s: Stream)
      modifies this
      ensures View() == Release(old(View()), s)
    {
      if s in reservations {
        available := available + reservations[s];
        reservations := reservations - {s};
        usedCredits := usedCredits - {s};
      }
    }
  }

  lemma WaitForNext(q: seq<Wait>, i: nat, s: Stream)
    requires i < |q|
    ensures q[..i] + WaitFor(q[i..], s) ==
            if q[i].stream == s then q[i := Wait(s, q[i].count + 1)] else q[..i + 1] + WaitFor(q[i + 1..], s)
  {
    assert q[i..][0] == q[i] && q[i..][1..] == q[i + 1..] && q[..i + 1] == q[..i] + [q[i]];
    Associate(q[..i], [q[i]], WaitFor(q[i + 1..], s));
    assert q[i := Wait(s, q[i].count + 1)] == q[..i] + ([Wait(s, q[i].count + 1)] + q[i + 1..]);
  }

  lemma WaitForFirst(q: seq<Wait>, s: Stream)
    ensures q[..0] + WaitFor(q[0..], s) == WaitFor(q, s)
  {
    assert q[0..] == q && q[..0] == [];
  }

  lemma WaitForLast(q: seq<Wait>, i: nat, s: Stream)
    requires i == |q|
    ensures q[..i] + WaitFor(q[i..], s) == q + [Wait(s, 1)]
  {
    assert q[..i] == q && q[i..] == [];
  }

  /** A pool whose first waiters have been passed over. */
  function Passed(skipped: seq<Wait>, p: Pool): Pool {
    p.(waiting := skipped + p.waiting)
  }

  lemma PassedNone(p: Pool)
    ensures p.waiting[..0] == [] && p.(waiting := p.waiting[0..]) == p && Passed([], Wake(p)) == Wake(p)
  {
    assert p.waiting[0..] == p.waiting;
    assert [] + Wake(p).waiting == Wake(p).waiting;
  }

  lemma PassedMore(skipped: seq<Wait>, w: Wait, p: Pool)
    ensures Passed(skipped, Passed([w], p)) == Passed(skipped + [w], p)
  {
    assert skipped + ([w] + p.waiting) == skipped + [w] + p.waiting;
  }

  lemma WakeOne(p: Pool)
    requires p.waiting != []
    ensures Wake(p) == if p.available >= p.waiting[0].count then Wake(GrantFirst(p))
                       else Passed([p.waiting[0]], Wake(p.(waiting := p.waiting[1..])))
  {
  }

  lemma GrantedFirst(p: Pool, q: Pool)
    requires p.waiting != [] && q.waiting == p.waiting[1..] && q.reserved == p.reserved
    requires var w := p.waiting[0];
             q.available == p.available - w.count && q.used == p.used[w.stream := Get(p.used, w.stream) + w.count]
    ensures q == GrantFirst(p)
  {
  }

  lemma EraseAt<T>(q: seq<T>, i: nat)
    requires i < |q|
    ensures var r := q[..i] + q[i + 1..]; r[..i] == q[..i] && r[i..] == q[i..][1..]
    ensures q[i..][0] == q[i] && q[i..][1..] == q[i + 1..] && q[..i + 1] == q[..i] + [q[i]]
  {
  }

  lemma WokenAll(p: Pool, i: nat)
    requires i == |p.waiting|
    ensures Passed(p.waiting[..i], Wake(p.(waiting := p.waiting[i..]))) == p
  {
    assert p.waiting[..i] + [] == p.waiting;
  }
}
