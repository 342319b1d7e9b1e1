/** The pool's books as a value: which packets and payloads are free, which packets are with
    clients, what each of those holds, and what has been deleted.  P and Y stand for the identities
    of packets and payloads. */
module PoolBooks {
  import opened Basics

  datatype Books<!P(==), !Y(==)> = Books(
    packets: seq<P>, payloads: seq<Y>, live: set<P>, owned: map<P, Y>, asks: map<P, P>,
    gonePackets: set<P>, gonePayloads: set<Y>, usage: int, peak: int)

  /** Acquire names the packet handed out and the payload bound to it on the way; Fill and Answer
      are what a client does with a live packet. */
  datatype Op<P, Y> = Acquire(pkt: P, bound: Y) | Release(pkt: P) | Fill(pkt: P, payload: Y) | Answer(pkt: P, request: P)

  function Opened<P, Y>(): Books<P, Y> {
    Books([], [], {}, map[], map[], {}, {}, 0, 0)
  }

  /** A free one if there is one, otherwise one that was never seen. */
  predicate Serves<T(==)>(free: seq<T>, seen: set<T>, x: T) {
    if free != [] then x == free[0] else x !in seen
  }

  /** What the clients keep to: they release and use live packets only, and a payload they give to
      a packet is theirs.  A released packet's own request must not have been deleted, since
      release reads it. */
  predicate Allowed<P, Y>(b: Books<P, Y>, op: Op<P, Y>) {
    match op
    case Acquire(p, y) =>
      Serves(b.packets, b.live + b.gonePackets, p) && Serves(b.payloads, b.owned.Values + b.gonePayloads, y)
    case Release(p) => p in b.live && (p in b.asks ==> b.asks[p] !in b.gonePackets)
    case Fill(p, y) => p in b.live && y !in b.gonePayloads && y !in b.payloads && y !in (b.owned - {p}).Values
    case Answer(p, q) => p in b.live && q in b.live
  }

  function Rest<T>(s: seq<T>): seq<T> {
    if s == [] then [] else s[1..]
  }

  function Kept<T>(s: seq<T>, limit: nat, x: T): seq<T> {
    if |s| < limit then s + [x] else s
  }

  function Thrown<T>(s: seq<T>, limit: nat, x: T): set<T> {
    if |s| < limit then {} else {x}
  }

  function Apply<P, Y>(b: Books<P, Y>, limit: nat, op: Op<P, Y>): Books<P, Y> {
    match op
    case Acquire(p, y) =>
      b.(packets := Rest(b.packets), payloads := Rest(b.payloads), live := b.live + {p},
         gonePayloads := b.gonePayloads + {y}, usage := b.usage + 1,
         peak := if b.usage + 1 > b.peak then b.usage + 1 else b.peak)
    case Release(p) =>
      b.(packets := Kept(b.packets, limit, p), gonePackets := b.gonePackets + Thrown(b.packets, limit, p),
         payloads := if p in b.owned then Kept(b.payloads, limit, b.owned[p]) else b.payloads,
         gonePayloads := b.gonePayloads + (if p in b.owned then Thrown(b.payloads, limit, b.owned[p]) else {}),
         live := b.live - {p}, owned := b.owned - {p}, asks := b.asks - {p}, usage := b.usage - 1)
    case Fill(p, y) => b.(owned := b.owned[p := y])
    case Answer(p, q) => b.(asks := b.asks[p := q])
  }

  /** A free list: within the limit, nothing twice, nothing that is in use or deleted. */
  ghost predicate FreeList<T>(s: seq<T>, limit: nat, used: set<T>, gone: set<T>) {
    && |s| <= limit
    && (forall i, j :: 0 <= i < j < |s| ==> s[i] != s[j])
    && (forall x :: x in s ==> x !in used && x !in gone)
    && used !! gone
  }

  ghost predicate OneOwner<P, Y>(owned: map<P, Y>) {
    forall p, q :: p in owned && q in owned && p != q ==> owned[p] != owned[q]
  }

  ghost predicate RequestsKnown<P, Y>(b: Books<P, Y>) {
    forall p :: p in b.asks ==> b.asks[p] in b.live || b.asks[p] in b.packets || b.asks[p] in b.gonePackets
  }

  /** No packet is both live and free, none is free twice, none deleted can be reached, and the same
      for payloads, each of which has one owner; usage counts the live packets. */
  ghost predicate Sound<P, Y>(b: Books<P, Y>, limit: nat) {
    && FreeList(b.packets, limit, b.live, b.gonePackets)
    && FreeList(b.payloads, limit, b.owned.Values, b.gonePayloads)
    && OneOwner(b.owned) && RequestsKnown(b) && b.owned.Keys <= b.live && b.asks.Keys <= b.live
    && b.usage == |b.live| <= b.peak
  }

  lemma ServedIsNew<T>(s: seq<T>, limit: nat, used: set<T>, gone: set<T>, x: T)
    requires FreeList(s, limit, used, gone) && Serves(s, used + gone, x)
    ensures x !in used && x !in gone && x !in Rest(s)
    ensures FreeList(Rest(s), limit, used + {x}, gone) && FreeList(Rest(s), limit, used, gone + {x})
  {
    if s != [] {
      assert forall i :: 0 < i < |s| ==> s[i] != s[0];
      forall y | y in s[1..] ensures y in s && y != x {
        var i :| 0 <= i < |s[1..]| && s[1..][i] == y;
        assert s[i + 1] == y;
      }
    }
  }

  lemma GivenBack<T>(s: seq<T>, limit: nat, used: set<T>, gone: set<T>, x: T)
    requires FreeList(s, limit, used, gone) && x in used
    ensures FreeList(Kept(s, limit, x), limit, used - {x}, gone + Thrown(s, limit, x))
  {
    if |s| < limit {
      forall y | y in s + [x] ensures y !in used - {x} && y !in gone {
        assert y in s || y == x;
      }
    }
  }

  lemma OwnersWithout<P, Y>(owned: map<P, Y>, p: P)
    requires OneOwner(owned)
    ensures OneOwner(owned - {p})
    ensures (owned - {p}).Values == if p in owned then owned.Values - {owned[p]} else owned.Values
  {
    var less := owned - {p};
    forall y | y in owned.Values && (p in owned ==> y != owned[p]) ensures y in less.Values {
      var q :| q in owned && owned[q] == y;
      assert q in less && less[q] == y;
    }
  }

  lemma OwnersWith<P, Y>(owned: map<P, Y>, p: P, y: Y)
    requires OneOwner(owned) && y !in (owned - {p}).Values
    ensures OneOwner(owned[p := y])
    ensures owned[p := y].Values == (owned - {p}).Values + {y}
  {
    var more := owned[p := y];
    forall q | q in more && q != p ensures more[q] in (owned - {p}).Values {
      assert (owned - {p})[q] == more[q];
    }
    forall z | z in (owned - {p}).Values ensures z in more.Values {
      var q :| q in owned - {p} && (owned - {p})[q] == z;
      assert more[q] == z;
    }
    assert more[p] == y;
  }

  lemma AcquireKeepsSound<P, Y>(b: Books<P, Y>, limit: nat, p: P, y: Y)
    requires Sound(b, limit) && Allowed(b, Acquire(p, y))
    ensures Sound(Apply(b, limit, Acquire(p, y)), limit)
  {
    ServedIsNew(b.packets, limit, b.live, b.gonePackets, p);
    ServedIsNew(b.payloads, limit, b.owned.Values, b.gonePayloads, y);
    assert |b.live + {p}| == |b.live| + 1;
  }

  lemma AcquireBooked<P, Y>(b: Books<P, Y>, limit: nat, p: P, y: Y)
    requires Sound(b, limit)
    requires Serves(b.packets, b.live + b.gonePackets, p) && Serves(b.payloads, b.owned.Values + b.gonePayloads, y)
    ensures Allowed(b, Acquire(p, y)) && Sound(Apply(b, limit, Acquire(p, y)), limit)
    ensures p !in b.live && p !in Rest(b.packets) && p !in b.owned && p !in b.asks
    ensures var c := Apply(b, limit, Acquire(p, y));
            && c.packets == Rest(b.packets) && c.payloads == Rest(b.payloads)
            && c.live == b.live + {p} && c.owned == b.owned && c.asks == b.asks
            && c.usage == b.usage + 1 && c.peak == if b.usage + 1 > b.peak then b.usage + 1 else b.peak
  {
    ServedIsNew(b.packets, limit, b.live, b.gonePackets, p);
    AcquireKeepsSound(b, limit, p, y);
  }

  lemma ReleaseBooked<P, Y>(b: Books<P, Y>, limit: nat, p: P)
    requires Sound(b, limit) && Allowed(b, Release(p))
    ensures p in b.live && p !in b.packets
    ensures p in b.asks ==> b.asks[p] in b.live || b.asks[p] in b.packets
    ensures var c := Apply(b, limit, Release(p));
            && Sound(c, limit)
            && c.packets == Kept(b.packets, limit, p)
            && c.payloads == (if p in b.owned then Kept(b.payloads, limit, b.owned[p]) else b.payloads)
            && c.live == b.live - {p} && c.owned == b.owned - {p} && c.asks == b.asks - {p}
            && c.usage == b.usage - 1 && c.peak == b.peak
  {
    ReleaseKeepsSound(b, limit, p);
  }

  lemma ReleaseKeepsSound<P, Y>(b: Books<P, Y>, limit: nat, p: P)
    requires Sound(b, limit) && Allowed(b, Release(p))
    ensures Sound(Apply(b, limit, Release(p)), limit)
  {
    hide FreeList;
    GivenBack(b.packets, limit, b.live, b.gonePackets, p);
    if p in b.owned {
      GivenBack(b.payloads, limit, b.owned.Values, b.gonePayloads, b.owned[p]);
    }
    OwnersWithout(b.owned, p);
    assert b.gonePayloads + {} == b.gonePayloads;
    assert |b.live - {p}| == |b.live| - 1;
  }

  lemma FillKeepsSound<P, Y>(b: Books<P, Y>, limit: nat, p: P, y: Y)
    requires Sound(b, limit) && Allowed(b, Fill(p, y))
    ensures Sound(Apply(b, limit, Fill(p, y)), limit)
  {
    OwnersWithout(b.owned, p);
    OwnersWith(b.owned, p, y);
  }

  lemma OpKeepsSound<P, Y>(b: Books<P, Y>, limit: nat, op: Op<P, Y>)
    requires Sound(b, limit) && Allowed(b, op)
    ensures Sound(Apply(b, limit, op), limit)
  {
    match op
    case Acquire(p, y) => AcquireKeepsSound(b, limit, p, y);
    case Release(p) => ReleaseKeepsSound(b, limit, p);
    case Fill(p, y) => FillKeepsSound(b, limit, p, y);
    case Answer(p, q) =>
  }

  // -- whole runs ---------------------------------------------------------------------------

  function After<P, Y>(limit: nat, ops: seq<Op<P, Y>>): Books<P, Y> {
    if ops == [] then Opened() else Apply(After(limit, ops[..|ops| - 1]), limit, ops[|ops| - 1])
  }

  predicate Disciplined<P(==), Y(==)>(limit: nat, ops: seq<Op<P, Y>>) {
    ops != [] ==>
      && Disciplined(limit, ops[..|ops| - 1])
      && Allowed(After(limit, ops[..|ops| - 1]), ops[|ops| - 1])
  }

  lemma {:induction false} RunStaysSound<P, Y>(limit: nat, ops: seq<Op<P, Y>>)
    requires Disciplined(limit, ops)
    ensures Sound(After(limit, ops), limit)
  {
    if ops != [] {
      var head := ops[..|ops| - 1];
      RunStaysSound(limit, head);
      OpKeepsSound(After(limit, head), limit, ops[|ops| - 1]);
    }
  }

  lemma {:induction false} UsageNeverAbovePeak<P, Y>(limit: nat, ops: seq<Op<P, Y>>, k: nat)
    requires Disciplined(limit, ops) && k <= |ops|
    ensures |After(limit, ops[..k]).live| <= After(limit, ops).peak
  {
    hide Sound, Allowed;
    if k == |ops| {
      assert ops[..k] == ops;
      RunStaysSound(limit, ops);
      SoundCounts(After(limit, ops), limit);
    } else {
      var less := ops[..|ops| - 1];
      UsageNeverAbovePeak(limit, less, k);
      assert less[..k] == ops[..k];
      PeakStep(After(limit, less), limit, ops[|ops| - 1]);
    }
  }

  lemma SoundCounts<P, Y>(b: Books<P, Y>, limit: nat)
    requires Sound(b, limit)
    ensures b.usage == |b.live| <= b.peak
  {
  }

  lemma PeakStep<P, Y>(b: Books<P, Y>, limit: nat, op: Op<P, Y>)
    ensures b.peak <= Apply(b, limit, op).peak
    ensures Apply(b, limit, op).peak == b.peak || Apply(b, limit, op).peak == Apply(b, limit, op).usage
  {
  }

  lemma {:induction false} PeakIsReached<P, Y>(limit: nat, ops: seq<Op<P, Y>>) returns (k: nat)
    requires Disciplined(limit, ops)
    ensures k <= |ops| && |After(limit, ops[..k]).live| == After(limit, ops).peak
  {
    hide Sound, Allowed, Apply;
    if ops == [] {
      k := 0;
      return;
    }
    var less := ops[..|ops| - 1];
    PeakStep(After(limit, less), limit, ops[|ops| - 1]);
    if After(limit, ops).peak == After(limit, less).peak {
      k := PeakIsReached(limit, less);
      assert less[..k] == ops[..k];
    } else {
      k := |ops|;
      assert ops[..k] == ops;
      RunStaysSound(limit, ops);
      SoundCounts(After(limit, ops), limit);
    }
  }

  /** The peak is the largest number of live packets at any moment of the run, and is one of them. */
  lemma PeakIsLargestUsage<P, Y>(limit: nat, ops: seq<Op<P, Y>>)
    requires Disciplined(limit, ops)
    ensures forall k :: 0 <= k <= |ops| ==> |After(limit, ops[..k]).live| <= After(limit, ops).peak
    ensures exists k :: 0 <= k <= |ops| && |After(limit, ops[..k]).live| == After(limit, ops).peak
  {
    hide Disciplined, After;
    forall k | 0 <= k <= |ops| ensures |After(limit, ops[..k]).live| <= After(limit, ops).peak {
      UsageNeverAbovePeak(limit, ops, k);
    }
    var k := PeakIsReached(limit, ops);
  }

  /** The free list of payloads saves nothing: a payload an acquire takes from it is deleted by that
      same acquire, and no later operation of the run lists it or gives it to a packet. */
  lemma {:induction false} TakenPayloadIsLost<P, Y>(limit: nat, ops: seq<Op<P, Y>>, k: nat)
    requires Disciplined(limit, ops) && k < |ops| && ops[k].Acquire?
    ensures ops[k].pkt in After(limit, ops[..k + 1]).live && ops[k].pkt !in After(limit, ops[..k + 1]).owned
    ensures ops[k].bound in After(limit, ops).gonePayloads
    ensures ops[k].bound !in After(limit, ops).payloads && ops[k].bound !in After(limit, ops).owned.Values
  {
    hide Sound, Allowed, Apply;
    RunStaysSound(limit, ops);
    var n := |ops| - 1;
    RunStaysSound(limit, ops[..n]);
    if k < n {
      TakenPayloadIsLost(limit, ops[..n], k);
      assert ops[..n][..k + 1] == ops[..k + 1];
    } else {
      assert ops[..k + 1] == ops;
    }
    GoneStaysGone(After(limit, ops[..n]), limit, ops[n]);
    GoneIsUnreachable(After(limit, ops), limit);
  }

  lemma GoneStaysGone<P, Y>(b: Books<P, Y>, limit: nat, op: Op<P, Y>)
    requires Sound(b, limit) && Allowed(b, op)
    ensures b.gonePayloads <= Apply(b, limit, op).gonePayloads
    ensures op.Acquire? ==> op.bound in Apply(b, limit, op).gonePayloads
    ensures op.Acquire? ==> op.pkt in Apply(b, limit, op).live && op.pkt !in Apply(b, limit, op).owned
  {
    if op.Acquire? {
      ServedIsNew(b.packets, limit, b.live, b.gonePackets, op.pkt);
    }
  }

  lemma GoneIsUnreachable<P, Y>(b: Books<P, Y>, limit: nat)
    requires Sound(b, limit)
    ensures forall y :: y in b.gonePayloads ==> y !in b.payloads && y !in b.owned.Values
  {
  }

  /** Every request a live packet refers to still exists. */
  ghost predicate NothingDangles<P, Y>(b: Books<P, Y>) {
    forall p :: p in b.asks ==> b.asks[p] !in b.gonePackets
  }

  /** References are not counted, so a release leaves a reference to a deleted packet exactly when
      the free list is full and another packet refers to the one released. */
  lemma DanglesExactly<P, Y>(b: Books<P, Y>, limit: nat, op: Op<P, Y>)
    requires Sound(b, limit) && NothingDangles(b) && Allowed(b, op)
    ensures NothingDangles(Apply(b, limit, op))
            <==> !(op.Release? && |b.packets| >= limit && exists q :: q in b.asks && q != op.pkt && b.asks[q] == op.pkt)
  {
    var c := Apply(b, limit, op);
    if op.Release? {
      if q :| q in b.asks && q != op.pkt && b.asks[q] == op.pkt {
        assert q in c.asks && c.asks[q] == op.pkt;
      }
    } else if op.Answer? {
      assert op.request !in b.gonePackets;
    }
  }

  // ---- the free lists are queues ----

  /** The packets a run put on the free list, in order: those released while it had room. */
  function PacketsPut<P(==), Y(==)>(limit: nat, ops: seq<Op<P, Y>>): seq<P> {
    if ops == [] then []
    else
      var less, op := ops[..|ops| - 1], ops[|ops| - 1];
      PacketsPut(limit, less) + if op.Release? && |After(limit, less).packets| < limit then [op.pkt] else []
  }

  /** The packets it took from there, in order: those acquired while one was free. */
  function PacketsTaken<P(==), Y(==)>(limit: nat, ops: seq<Op<P, Y>>): seq<P> {
    if ops == [] then []
    else
      var less, op := ops[..|ops| - 1], ops[|ops| - 1];
      PacketsTaken(limit, less) + if op.Acquire? && |After(limit, less).packets| > 0 then [op.pkt] else []
  }

  /** The same for payloads: a released packet's payload is put on the list while that has room, and
      every acquire takes one while there is one. */
  function PayloadsPut<P(==), Y(==)>(limit: nat, ops: seq<Op<P, Y>>): seq<Y> {
    if ops == [] then []
    else
      var less, op := ops[..|ops| - 1], ops[|ops| - 1];
      var b := After(limit, less);
      PayloadsPut(limit, less) + if op.Release? && op.pkt in b.owned && |b.payloads| < limit then [b.owned[op.pkt]] else []
  }

  function PayloadsTaken<P(==), Y(==)>(limit: nat, ops: seq<Op<P, Y>>): seq<Y> {
    if ops == [] then []
    else
      var less, op := ops[..|ops| - 1], ops[|ops| - 1];
      PayloadsTaken(limit, less) + if op.Acquire? && |After(limit, less).payloads| > 0 then [op.bound] else []
  }

  lemma QueueMoves<T>(taken: seq<T>, free: seq<T>, put: seq<T>, limit: nat, x: T)
    requires taken + free == put
    ensures free != [] ==> taken + [free[0]] + Rest(free) == put
    ensures taken + Kept(free, limit, x) == put + if |free| < limit then [x] else []
    ensures taken + [] == taken && put + [] == put && (free == [] ==> Rest(free) == [])
  {
    if free != [] {
      assert free == [free[0]] + free[1..];
    }
    Associate(taken, free, [x]);
  }

  lemma PacketsMove<P, Y>(b: Books<P, Y>, limit: nat, op: Op<P, Y>, taken: seq<P>, put: seq<P>)
    requires Allowed(b, op) && taken + b.packets == put
    ensures taken + (if op.Acquire? && |b.packets| > 0 then [op.pkt] else []) + Apply(b, limit, op).packets ==
            put + if op.Release? && |b.packets| < limit then [op.pkt] else []
  {
    hide Rest, Kept;
    QueueMoves(taken, b.packets, put, limit, op.pkt);
  }

  lemma PayloadsMove<P, Y>(b: Books<P, Y>, limit: nat, op: Op<P, Y>, taken: seq<Y>, put: seq<Y>)
    requires Allowed(b, op) && taken + b.payloads == put
    ensures taken + (if op.Acquire? && |b.payloads| > 0 then [op.bound] else []) + Apply(b, limit, op).payloads ==
            put + if op.Release? && op.pkt in b.owned && |b.payloads| < limit then [b.owned[op.pkt]] else []
  {
    hide Rest, Kept;
    if op.Release? && op.pkt in b.owned {
      QueueMoves(taken, b.payloads, put, limit, b.owned[op.pkt]);
    } else if op.Acquire? {
      QueueMoves(taken, b.payloads, put, limit, op.bound);
    }
  }

  /** First in, first out: in every run, what was taken from a free list followed by what is on it is
      what was put there.  So a list takes everything while it has room, and hands it out again in
      that order. */
  lemma {:induction false} FreeListsAreQueues<P, Y>(limit: nat, ops: seq<Op<P, Y>>)
    requires Disciplined(limit, ops)
    ensures PacketsTaken(limit, ops) + After(limit, ops).packets == PacketsPut(limit, ops)
    ensures PayloadsTaken(limit, ops) + After(limit, ops).payloads == PayloadsPut(limit, ops)
  {
    hide Apply, Allowed;
    if ops != [] {
      var less, op := ops[..|ops| - 1], ops[|ops| - 1];
      var b := After(limit, less);
      FreeListsAreQueues(limit, less);
      PacketsMove(b, limit, op, PacketsTaken(limit, less), PacketsPut(limit, less));
      PayloadsMove(b, limit, op, PayloadsTaken(limit, less), PayloadsPut(limit, less));
    }
  }

  /** What a release deletes: the packet exactly if the free list of packets is full, its payload
      exactly if that of payloads is. */
  lemma DeletesExactly<P, Y>(b: Books<P, Y>, limit: nat, p: P)
    requires Sound(b, limit) && Allowed(b, Release(p))
    ensures var c := Apply(b, limit, Release(p));
            && c.gonePackets == b.gonePackets + (if |b.packets| == limit then {p} else {})
            && c.gonePayloads == b.gonePayloads + (if p in b.owned && |b.payloads| == limit then {b.owned[p]} else {})
  {
  }

  // ---- a run that leaves a dangling reference, for every limit ----

  /** `n` packets acquired, and then the last `k` of them released. */
  function TakeAndGiveBack(n: nat, k: nat): seq<Op<nat, nat>>
    requires k <= n
  {
    if k > 0 then TakeAndGiveBack(n, k - 1) + [Release(n - k)]
    else if n > 0 then TakeAndGiveBack(n - 1, 0) + [Acquire(n - 1, n - 1)]
    else []
  }

  lemma AfterOneMore<P, Y>(limit: nat, ops: seq<Op<P, Y>>, op: Op<P, Y>)
    ensures After(limit, ops + [op]) == Apply(After(limit, ops), limit, op)
    ensures Disciplined(limit, ops + [op]) <==> Disciplined(limit, ops) && Allowed(After(limit, ops), op)
  {
    assert (ops + [op])[..|ops + [op]| - 1] == ops;
  }

  lemma {:induction false} TakenAndGivenBack(limit: nat, n: nat, k: nat)
    requires k <= n && k <= limit
    ensures Disciplined(limit, TakeAndGiveBack(n, k))
    ensures var b := After(limit, TakeAndGiveBack(n, k));
            && |b.packets| == k && (k == 0 ==> b.packets == []) && b.payloads == []
            && (forall p: nat :: p in b.live <==> p < n - k) && b.owned == map[] && b.asks == map[] && b.gonePackets == {}
            && (forall y :: y in b.gonePayloads ==> y < n)
  {
    hide After, Disciplined;
    if k > 0 {
      TakenAndGivenBack(limit, n, k - 1);
      AfterOneMore(limit, TakeAndGiveBack(n, k - 1), Release(n - k));
    } else if n > 0 {
      TakenAndGivenBack(limit, n - 1, 0);
      AfterOneMore(limit, TakeAndGiveBack(n - 1, 0), Acquire(n - 1, n - 1));
    } else {
      NothingYet(limit);
    }
  }

  lemma NothingYet(limit: nat)
    ensures Disciplined<nat, nat>(limit, []) && After<nat, nat>(limit, []) == Opened()
  {
  }

  /** Whatever the limit is, there is a run, with clients that keep to their part, in which the
      request of a live response is deleted. */
  lemma DanglingHappens(limit: nat) returns (ops: seq<Op<nat, nat>>)
    ensures Disciplined(limit, ops) && !NothingDangles(After(limit, ops))
  {
    hide After, Disciplined, TakeAndGiveBack;
    var begun := TakeAndGiveBack(limit + 2, limit);
    TakenAndGivenBack(limit, limit + 2, limit);
    AfterOneMore(limit, begun, Answer(1, 0));
    ops := begun + [Answer(1, 0)];
    AfterOneMore(limit, ops, Release(0));
    ops := ops + [Release(0)];
    var b := After(limit, ops);
    assert 1 in b.asks && b.asks[1] == 0 && 0 in b.gonePackets;
  }

  // ---- what clients must keep to ----

  /** A release keeps the books sound exactly when the packet is live: releasing one twice never
      does. */
  lemma ReleaseSoundExactly<P, Y>(b: Books<P, Y>, limit: nat, p: P)
    requires Sound(b, limit) && (p in b.asks ==> b.asks[p] !in b.gonePackets)
    ensures Sound(Apply(b, limit, Release(p)), limit) <==> p in b.live
  {
    if p in b.live {
      ReleaseKeepsSound(b, limit, p);
    } else {
      assert b.live - {p} == b.live;
    }
  }

  /** Giving a packet a payload keeps them sound exactly when the packet is live and the payload is
      neither free nor deleted nor another packet's. */
  lemma FillSoundExactly<P, Y>(b: Books<P, Y>, limit: nat, p: P, y: Y)
    requires Sound(b, limit)
    ensures Sound(Apply(b, limit, Fill(p, y)), limit) <==> Allowed(b, Fill(p, y))
  {
    if Allowed(b, Fill(p, y)) {
      FillKeepsSound(b, limit, p, y);
    }
    if Sound(Apply(b, limit, Fill(p, y)), limit) {
      FillNeeds(b, limit, p, y);
    }
  }

  lemma FillNeeds<P, Y>(b: Books<P, Y>, limit: nat, p: P, y: Y)
    requires Sound(Apply(b, limit, Fill(p, y)), limit)
    ensures Allowed(b, Fill(p, y))
  {
    var owned := b.owned[p := y];
    assert p in owned.Keys && owned[p] == y;
    NotFreeNotGone(b.payloads, limit, owned.Values, b.gonePayloads, y);
    forall q | q in b.owned - {p}
      ensures b.owned[q] != y
    {
      assert q in owned && owned[q] == b.owned[q];
    }
  }

  lemma NotFreeNotGone<T>(s: seq<T>, limit: nat, used: set<T>, gone: set<T>, x: T)
    requires FreeList(s, limit, used, gone) && x in used
    ensures x !in s && x !in gone
  {
  }
}

/** The pool itself, with its packets on the heap. */
module PacketPool {
  import opened PoolBooks

  datatype PacketType = PKT_REQ | PKT_RESP | PKT_STREAM_DATA | PKT_CREDIT_RETURN

  class Payload {
    constructor () {
    }
  }

  /** The packet's fields that the pool reads, and one that stands for those it only clears. */
  class Packet {
    var payload: Payload?
    var kind: PacketType
    var originalReq: Packet?
    var refCount: int
    var seqNum: nat

    constructor ()
      ensures Blank()
    {
      payload, kind, originalReq, refCount, seqNum := null, PKT_REQ, null, 0, 0;
    }

    predicate IsCredit()
      reads this
    {
      kind == PKT_CREDIT_RETURN
    }

    /** Every field back to its initial value.  The payload, if there is one and the packet is not
        a returned credit, is deleted. */
    method Reset() returns (ghost deleted: set<Payload>)
      modifies this
      ensures deleted == if old(payload) != null && !old(IsCredit()) then {old(payload)} else {}
      ensures Blank()
    {
      deleted := if payload != null && !IsCredit() then {payload} else {};
      payload, kind, originalReq, refCount, seqNum := null, PKT_REQ, null, 0, 0;
    }

    predicate Blank()
      reads this
    {
      payload == null && kind == PKT_REQ && originalReq == null && refCount == 0 && seqNum == 0
    }
  }

  ghost predicate Holds(p: Packet, owned: map<Packet, Payload>, asks: map<Packet, Packet>)
    reads p
  {
    && p.refCount == 0
    && p.payload == (if p in owned then owned[p] else null)
    && p.originalReq == (if p in asks then asks[p] else null)
  }

  /** Packets look on the heap as the books say, and no packet counts references. */
  ghost predicate Shown(packets: seq<Packet>, live: set<Packet>, owned: map<Packet, Payload>, asks: map<Packet, Packet>)
    reads packets, live
  {
    && (forall p | p in packets :: p.Blank())
    && (forall p | p in live :: Holds(p, owned, asks))
  }

  lemma WithoutFirst(packets: seq<Packet>, live: set<Packet>, owned: map<Packet, Payload>, asks: map<Packet, Packet>)
    requires Shown(packets, live, owned, asks)
    ensures Shown(Rest(packets), live, owned, asks)
    ensures forall p | p in packets :: p.Blank()
  {
  }

  lemma WithPacket(packets: seq<Packet>, live: set<Packet>, owned: map<Packet, Payload>, asks: map<Packet, Packet>, pkt: Packet)
    requires Shown(packets, live, owned, asks)
    requires pkt.Blank() && pkt !in owned && pkt !in asks
    ensures Shown(packets, live + {pkt}, owned, asks)
  {
  }

  lemma WithoutPacket(packets: seq<Packet>, live: set<Packet>, owned: map<Packet, Payload>, asks: map<Packet, Packet>, pkt: Packet)
    requires Shown(packets, live, owned, asks)
    ensures Shown(packets, live - {pkt}, owned - {pkt}, asks - {pkt})
    ensures pkt in live ==> pkt.payload == (if pkt in owned then owned[pkt] else null)
    ensures pkt in live && pkt.originalReq != null ==> pkt in asks && asks[pkt] == pkt.originalReq
    ensures forall p | p in packets || p in live :: p.refCount == 0
  {
    forall p | p in live - {pkt} ensures Holds(p, owned - {pkt}, asks - {pkt}) {
      assert Holds(p, owned, asks);
    }
  }

  lemma WithFreed(packets: seq<Packet>, live: set<Packet>, owned: map<Packet, Payload>, asks: map<Packet, Packet>,
                  limit: nat, pkt: Packet)
    requires Shown(packets, live, owned, asks) && pkt.Blank()
    ensures Shown(Kept(packets, limit, pkt), live, owned, asks)
  {
  }

  class PacketPool {
    var packetFreelist: seq<Packet>
    var payloadFreelist: seq<Payload>
    const maxSize: nat
    var peakUsage: int
    var currentUsage: int
    ghost var books: Books<Packet, Payload>

    /** The lists and counters are those of the books. */
    ghost predicate OnBooks()
      reads this
    {
      && packetFreelist == books.packets && payloadFreelist == books.payloads
      && currentUsage == books.usage && peakUsage == books.peak
      && Sound(books, maxSize)
    }

    ghost predicate Valid()
      reads this, books.live, books.packets
    {
      OnBooks() && Shown(books.packets, books.live, books.owned, books.asks)
    }

    constructor (maxSize: nat)
      ensures Valid() && this.maxSize == maxSize && books == Opened()
    {
      this.maxSize := maxSize;
      packetFreelist, payloadFreelist, peakUsage, currentUsage := [], [], 0, 0;
      books := Opened();
    }

    /** A packet from the free list, or a new one.  A payload is taken for it as well, but resetting
        the packet deletes that payload: the packet always comes without one. */
    method Acquire() returns (pkt: Packet, ghost bound: Payload)
      requires Valid()
      modifies this, packetFreelist
      ensures Valid() && Allowed(old(books), Op.Acquire(pkt, bound))
      ensures books == Apply(old(books), maxSize, Op.Acquire(pkt, bound))
      ensures pkt.Blank() && (old(packetFreelist) == [] ==> fresh(pkt)) && (old(payloadFreelist) == [] ==> fresh(bound))
    {
      hide Sound, Apply, Allowed, Shown;
      ghost var b := books;
      WithoutFirst(b.packets, b.live, b.owned, b.asks);
      pkt, bound := TakeCleared();
      AcquireBooked(b, maxSize, pkt, bound);
      ghost var c := Apply(b, maxSize, Op.Acquire(pkt, bound));
      WithPacket(c.packets, b.live, c.owned, c.asks, pkt);
      assert Shown(c.packets, c.live, c.owned, c.asks);
      currentUsage := currentUsage + 1;
      peakUsage := if currentUsage > peakUsage then currentUsage else peakUsage;
      books := c;
    }

    /** The payload bound to the packet is deleted again by the reset. */
    method TakeCleared() returns (pkt: Packet, ghost bound: Payload)
      requires forall p | p in packetFreelist :: p.Blank()
      modifies this`packetFreelist, this`payloadFreelist, if packetFreelist == [] then {} else {packetFreelist[0]}
      ensures packetFreelist == Rest(old(packetFreelist)) && payloadFreelist == Rest(old(payloadFreelist))
      ensures if old(packetFreelist) == [] then fresh(pkt) else pkt == old(packetFreelist)[0]
      ensures if old(payloadFreelist) == [] then fresh(bound) else bound == old(payloadFreelist)[0]
      ensures pkt.Blank()
    {
      pkt := TakePacket();
      bound := BindPayload(pkt);
      ghost var deleted := pkt.Reset();
      assert deleted == {bound};
    }

    method TakePacket() returns (pkt: Packet)
      requires forall p | p in packetFreelist :: p.Blank()
      modifies this`packetFreelist
      ensures packetFreelist == Rest(old(packetFreelist)) && pkt.Blank()
      ensures if old(packetFreelist) == [] then fresh(pkt) else pkt == old(packetFreelist)[0]
    {
      if packetFreelist != [] {
        pkt := packetFreelist[0];
        packetFreelist := packetFreelist[1..];
      } else {
        pkt := new Packet();
      }
    }

    method BindPayload(pkt: Packet) returns (ghost bound: Payload)
      modifies this`payloadFreelist, pkt`payload
      ensures payloadFreelist == Rest(old(payloadFreelist)) && pkt.payload == bound
      ensures if old(payloadFreelist) == [] then fresh(bound) else bound == old(payloadFreelist)[0]
    {
      if payloadFreelist != [] {
        pkt.payload, bound := payloadFreelist[0], payloadFreelist[0];
        payloadFreelist := payloadFreelist[1..];
      } else {
        var payload := new Payload();
        pkt.payload, bound := payload, payload;
      }
    }

    /** Gives a live packet back.  `reenters` says whether dropping the packet's request asked for a
        release of that one, under the lock already held: it never does. */
    method Release(pkt: Packet?) returns (reenters: bool)
      requires Valid() && (pkt != null ==> Allowed(books, Op.Release(pkt)))
      modifies this, pkt
      ensures Valid() && !reenters
      ensures if pkt == null then unchanged(this) else books == Apply(old(books), maxSize, Op.Release(pkt)) && pkt.Blank()
    {
      hide *;
      reenters := false;
      if pkt != null {
        reenters := ReleaseLive(pkt);
      }
    }

    method ReleaseLive(pkt: Packet) returns (reenters: bool)
      requires Valid() && Allowed(books, Op.Release(pkt))
      modifies this, pkt
      ensures Valid() && books == Apply(old(books), maxSize, Op.Release(pkt)) && pkt.Blank() && !reenters
    {
      hide Sound, Apply, Allowed, Shown, Kept, Holds;
      ghost var b := books;
      ghost var c := Apply(b, maxSize, Op.Release(pkt));
      ReleaseBooked(b, maxSize, pkt);
      WithoutPacket(b.packets, b.live, b.owned, b.asks, pkt);
      reenters := Clear(pkt);
      WithFreed(b.packets, c.live, c.owned, c.asks, maxSize, pkt);
      assert Shown(c.packets, c.live, c.owned, c.asks);
      KeepPacket(pkt);
      currentUsage := currentUsage - 1;
      books := c;
    }

    /** The packet's payload back to its free list, and every field of the packet to its start. */
    method Clear(pkt: Packet) returns (reenters: bool)
      requires pkt.originalReq != null ==> pkt.originalReq.refCount == 0
      modifies this`payloadFreelist, pkt
      ensures payloadFreelist == if old(pkt.payload) == null then old(payloadFreelist)
                                 else Kept<Payload>(old(payloadFreelist), maxSize, old(pkt.payload))
      ensures pkt.Blank() && !reenters
    {
      reenters := ReleaseRequest(pkt);
      ReleasePayload(pkt);
      ghost var deleted := pkt.Reset();
      assert deleted == {};
    }

    /** No packet counts references, so dropping one never asks for a release. */
    method ReleaseRequest(pkt: Packet) returns (reenters: bool)
      requires pkt.originalReq != null && pkt.originalReq != pkt ==> pkt.originalReq.refCount == 0
      modifies pkt`originalReq
      ensures pkt.originalReq == null && !reenters
    {
      reenters := false;
      if pkt.originalReq != pkt {
        reenters := RemoveRef(pkt.originalReq);
      }
      pkt.originalReq := null;
    }

    method KeepPacket(pkt: Packet)
      modifies this`packetFreelist
      ensures packetFreelist == Kept(old(packetFreelist), maxSize, pkt)
    {
      if |packetFreelist| < maxSize {
        packetFreelist := packetFreelist + [pkt];
      }
    }

    /** Drops a reference.  At zero the packet is to be released, under the lock already held. */
    method RemoveRef(pkt: Packet?) returns (releases: bool)
      modifies if pkt != null && pkt.refCount > 0 then {pkt} else {}
      ensures releases <==> pkt != null && old(pkt.refCount) == 1
      ensures pkt != null && old(pkt.refCount) > 0 ==> pkt.refCount == old(pkt.refCount) - 1
    {
      if pkt == null || pkt.refCount <= 0 {
        return false;
      }
      pkt.refCount := pkt.refCount - 1;
      return pkt.refCount == 0;
    }

    method ReleasePayload(pkt: Packet)
      modifies this`payloadFreelist, pkt`payload
      ensures payloadFreelist == if old(pkt.payload) == null then old(payloadFreelist)
                                 else Kept<Payload>(old(payloadFreelist), maxSize, old(pkt.payload))
      ensures pkt.payload == null
    {
      if pkt.payload != null {
        if |payloadFreelist| < maxSize {
          payloadFreelist := payloadFreelist + [pkt.payload];
        }
        pkt.payload := null;
      }
    }

    /** What a client does with a live packet: gives it a payload of its own and a type. */
    method Fill(pkt: Packet, payload: Payload, kind: PacketType, seqNum: nat)
      requires Valid() && Allowed(books, Op.Fill(pkt, payload))
      modifies this`books, pkt
      ensures Valid() && books == Apply(old(books), maxSize, Op.Fill(pkt, payload))
      ensures pkt.kind == kind && pkt.seqNum == seqNum
    {
      FillKeepsSound(books, maxSize, pkt, payload);
      pkt.payload, pkt.kind, pkt.seqNum := payload, kind, seqNum;
      books := Apply(books, maxSize, Op.Fill(pkt, payload));
    }

    /** A client marks a response with the request it answers. */
    method Answer(response: Packet, request: Packet)
      requires Valid() && Allowed(books, Op.Answer(response, request))
      modifies this`books, response
      ensures Valid() && books == Apply(old(books), maxSize, Op.Answer(response, request))
    {
      OpKeepsSound(books, maxSize, Op.Answer(response, request));
      response.originalReq := request;
      books := Apply(books, maxSize, Op.Answer(response, request));
    }
  }
}
