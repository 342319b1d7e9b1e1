/** The event queue: events fire in time order, and firing one may schedule more. */
module Events {

  datatype Event<E> = Event(time: nat, what: E)

  /** A priority queue as a set of operations on heaps of type `H`.  Ties between equal times are
      broken however the heap likes, as long as it always does so the same way. */
  datatype HeapOps<!H, !E(==)> = HeapOps(empty: H, push: (H, Event<E>) -> H, isEmpty: H -> bool,
                                     top: H -> Event<E>, pop: H -> H, bag: H -> multiset<Event<E>>)

  ghost predicate Lawful<H(!new), E(!new)>(ops: HeapOps<H, E>) {
    && ops.bag(ops.empty) == multiset{}
    && (forall h, e :: ops.bag(ops.push(h, e)) == ops.bag(h) + multiset{e})
    && (forall h :: ops.isEmpty(h) <==> ops.bag(h) == multiset{})
    && (forall h :: !ops.isEmpty(h) ==> TopIsFirst(ops, h))
  }

  ghost predicate TopIsFirst<H, E(!new)>(ops: HeapOps<H, E>, h: H) {
    && ops.top(h) in ops.bag(h)
    && (forall e :: e in ops.bag(h) ==> ops.top(h).time <= e.time)
    && ops.bag(ops.pop(h)) == ops.bag(h) - multiset{ops.top(h)}
  }

  lemma PushLaw<H(!new), E(!new)>(ops: HeapOps<H, E>, h: H, e: Event<E>)
    requires Lawful(ops)
    ensures ops.bag(ops.push(h, e)) == ops.bag(h) + multiset{e}
  {
  }

  lemma PopLaw<H(!new), E(!new)>(ops: HeapOps<H, E>, h: H)
    requires Lawful(ops) && !ops.isEmpty(h)
    ensures ops.top(h) in ops.bag(h) && ops.bag(ops.pop(h)) == ops.bag(h) - multiset{ops.top(h)}
    ensures forall e :: e in ops.bag(h) ==> ops.top(h).time <= e.time
  {
    assert TopIsFirst(ops, h);
  }

  lemma EmptyLaw<H(!new), E(!new)>(ops: HeapOps<H, E>, h: H)
    requires Lawful(ops)
    ensures ops.isEmpty(h) <==> ops.bag(h) == multiset{}
  {
  }

  /** A heap that keeps the laws: a list, searched for its first least element. */
  function Least<E>(h: seq<Event<E>>): (i: nat)
    requires |h| > 0
    ensures i < |h| && forall j :: 0 <= j < |h| ==> h[i].time <= h[j].time
  {
    if |h| == 1 then 0
    else
      var i := Least(h[..|h| - 1]);
      if h[|h| - 1].time < h[i].time then |h| - 1 else i
  }

  function Rest<E>(h: seq<Event<E>>): seq<Event<E>> {
    if |h| == 0 then h else h[..Least(h)] + h[Least(h) + 1..]
  }

  /** `none` is what the top of an empty heap shows. */
  function ListHeap<E(==)>(none: Event<E>): HeapOps<seq<Event<E>>, E> {
    HeapOps([], (h: seq<Event<E>>, e) => h + [e], (h: seq<Event<E>>) => |h| == 0,
            (h: seq<Event<E>>) => if |h| == 0 then none else h[Least(h)],
            (h: seq<Event<E>>) => Rest(h), (h: seq<Event<E>>) => multiset(h))
  }

  lemma TakenOut<T>(s: seq<T>, i: nat)
    requires i < |s|
    ensures s[i] in multiset(s) && multiset(s[..i] + s[i + 1..]) == multiset(s) - multiset{s[i]}
  {
    assert s == s[..i] + [s[i]] + s[i + 1..];
    assert multiset(s) == multiset(s[..i]) + multiset{s[i]} + multiset(s[i + 1..]);
  }

  lemma LeastIsLeast<E>(h: seq<Event<E>>, e: Event<E>)
    requires |h| > 0 && e in multiset(h)
    ensures h[Least(h)].time <= e.time
  {
    var j :| 0 <= j < |h| && h[j] == e;
  }

  lemma RestIsLessLeast<E(!new)>(h: seq<Event<E>>)
    requires |h| > 0
    ensures h[Least(h)] in multiset(h) && multiset(Rest(h)) == multiset(h) - multiset{h[Least(h)]}
    ensures forall e :: e in multiset(h) ==> h[Least(h)].time <= e.time
  {
    TakenOut(h, Least(h));
    forall e | e in multiset(h)
      ensures h[Least(h)].time <= e.time
    {
      LeastIsLeast(h, e);
    }
  }

  lemma EmptyBag<E>(h: seq<Event<E>>)
    ensures |h| == 0 <==> multiset(h) == multiset{}
  {
    assert |multiset(h)| == |h|;
  }

  lemma ListTopIsFirst<E(!new)>(none: Event<E>, h: seq<Event<E>>)
    requires |h| > 0
    ensures TopIsFirst(ListHeap(none), h)
  {
    hide Least, Rest;
    RestIsLessLeast(h);
  }

  lemma ListHeapIsLawful<E(!new)>(none: Event<E>)
    ensures Lawful(ListHeap(none))
  {
    hide TopIsFirst, Least, Rest;
    var ops := ListHeap(none);
    forall h | !ops.isEmpty(h)
      ensures TopIsFirst(ops, h)
    {
      ListTopIsFirst(none, h);
    }
    forall h
      ensures ops.isEmpty(h) <==> ops.bag(h) == multiset{}
    {
      EmptyBag(h);
    }
  }

  /** An event to be scheduled some cycles from now. */
  datatype Request<E> = Request(what: E, delay: nat)

  /** What firing an event does: it changes the state `S` of the simulated objects and schedules
      events, in order. */
  type Handler<!S, !E> = (S, nat, E) -> (S, seq<Request<E>>)

  /** A simulation: the queue, the current cycle, the state of the objects, and the logs of the
      events fired and of all events ever scheduled. */
  datatype World<H, S, E(==)> = World(heap: H, now: nat, state: S, fired: seq<Event<E>>, scheduled: multiset<Event<E>>)

  datatype Sim<!H, !S, !E(==)> = Sim(ops: HeapOps<H, E>, handler: Handler<S, E>)

  ghost function Scheduled<H, S, E>(sim: Sim<H, S, E>, w: World<H, S, E>, r: Request<E>): World<H, S, E> {
    var e := Event(w.now + r.delay, r.what);
    w.(heap := sim.ops.push(w.heap, e), scheduled := w.scheduled + multiset{e})
  }

  ghost function ScheduledAll<H, S, E>(sim: Sim<H, S, E>, w: World<H, S, E>, rs: seq<Request<E>>): World<H, S, E> {
    if rs == [] then w
    else Scheduled(sim, ScheduledAll(sim, w, rs[..|rs| - 1]), rs[|rs| - 1])
  }

  ghost predicate Due<H, S, E>(sim: Sim<H, S, E>, w: World<H, S, E>, end: nat) {
    !sim.ops.isEmpty(w.heap) && sim.ops.top(w.heap).time < end
  }

  /** Takes the first event off the queue, moves the clock to it and processes it. */
  ghost function Fire<H, S, E>(sim: Sim<H, S, E>, w: World<H, S, E>): World<H, S, E> {
    var e := sim.ops.top(w.heap);
    var (state, requests) := sim.handler(w.state, e.time, e.what);
    ScheduledAll(sim, World(sim.ops.pop(w.heap), e.time, state, w.fired + [e], w.scheduled), requests)
  }

  /** Running up to cycle `end` takes `n` events and leads from `w` to `w'`.  A run that never
      ends has no such `n`. */
  ghost predicate Runs<H, S, E>(sim: Sim<H, S, E>, w: World<H, S, E>, end: nat, n: nat, w': World<H, S, E>)
    decreases n
  {
    if n == 0 then !Due(sim, w, end) && w' == w.(now := end)
    else Due(sim, w, end) && Runs(sim, Fire(sim, w), end, n - 1, w')
  }

  // ---- running in pieces ----

  lemma ClockIsOverwritten<H, S, E>(sim: Sim<H, S, E>, w: World<H, S, E>, t: nat, end: nat, n: nat, w': World<H, S, E>)
    ensures Runs(sim, w.(now := t), end, n, w') <==> Runs(sim, w, end, n, w')
  {
    assert Due(sim, w.(now := t), end) == Due(sim, w, end);
    assert Fire(sim, w.(now := t)) == Fire(sim, w);
  }

  /** Two runs one after the other are one run: same final clock, queue, state and trace. */
  lemma {:induction false} RunsJoin<H, S, E>(sim: Sim<H, S, E>, w: World<H, S, E>, mid: nat, end: nat, n: nat, m: nat,
                                             w1: World<H, S, E>, w2: World<H, S, E>)
    requires mid <= end && Runs(sim, w, mid, n, w1) && Runs(sim, w1, end, m, w2)
    ensures Runs(sim, w, end, n + m, w2)
    decreases n
  {
    if n == 0 {
      ClockIsOverwritten(sim, w, mid, end, m, w2);
    } else {
      RunsJoin(sim, Fire(sim, w), mid, end, n - 1, m, w1, w2);
    }
  }

  /** One run can be cut at any cycle on the way. */
  lemma {:induction false} RunsSplit<H, S, E>(sim: Sim<H, S, E>, w: World<H, S, E>, mid: nat, end: nat, n: nat, w2: World<H, S, E>)
    returns (k: nat, w1: World<H, S, E>)
    requires mid <= end && Runs(sim, w, end, n, w2)
    ensures k <= n && Runs(sim, w, mid, k, w1) && Runs(sim, w1, end, n - k, w2)
    decreases n
  {
    if Due(sim, w, mid) {
      k, w1 := RunsSplit(sim, Fire(sim, w), mid, end, n - 1, w2);
      k := k + 1;
    } else {
      k, w1 := 0, w.(now := mid);
      ClockIsOverwritten(sim, w, mid, end, n, w2);
    }
  }

  lemma {:induction false} RunsUnique<H, S, E>(sim: Sim<H, S, E>, w: World<H, S, E>, end: nat, n: nat, m: nat,
                                               w1: World<H, S, E>, w2: World<H, S, E>)
    requires Runs(sim, w, end, n, w1) && Runs(sim, w, end, m, w2)
    ensures n == m && w1 == w2
    decreases n
  {
    if n > 0 {
      RunsUnique(sim, Fire(sim, w), end, n - 1, m - 1, w1, w2);
    }
  }

  ghost predicate RunsTo<H(!new), S(!new), E(!new)>(sim: Sim<H, S, E>, w: World<H, S, E>, cycles: nat, w': World<H, S, E>) {
    var end := w.now + cycles;
    exists n: nat :: Runs(sim, w, end, n, w')
  }

  lemma TwoRunsAreOne<H(!new), S(!new), E(!new)>(sim: Sim<H, S, E>, w: World<H, S, E>, a: nat, b: nat,
                                                w1: World<H, S, E>, w2: World<H, S, E>)
    requires RunsTo(sim, w, a, w1) && RunsTo(sim, w1, b, w2)
    ensures RunsTo(sim, w, a + b, w2)
  {
    hide Runs;
    var n: nat :| Runs(sim, w, w.now + a, n, w1);
    EndsAtEnd(sim, w, w.now + a, n, w1);
    var m: nat :| Runs(sim, w1, w1.now + b, m, w2);
    RunsJoin(sim, w, w.now + a, w1.now + b, n, m, w1, w2);
    RunsToEnd(sim, w, a + b, n + m, w2);
  }

  lemma OneRunIsTwo<H(!new), S(!new), E(!new)>(sim: Sim<H, S, E>, w: World<H, S, E>, a: nat, b: nat, w2: World<H, S, E>)
    returns (w1: World<H, S, E>)
    requires RunsTo(sim, w, a + b, w2)
    ensures RunsTo(sim, w, a, w1) && RunsTo(sim, w1, b, w2)
  {
    hide Runs;
    var n: nat :| Runs(sim, w, w.now + (a + b), n, w2);
    var k: nat;
    k, w1 := RunsSplit(sim, w, w.now + a, w.now + (a + b), n, w2);
    EndsAtEnd(sim, w, w.now + a, k, w1);
    RunsToEnd(sim, w, a, k, w1);
    RunsToEnd(sim, w1, b, n - k, w2);
  }

  /** `run(a)` then `run(b)` is `run(a + b)`: either both end, in the same world, or neither does. */
  lemma RunInPieces<H(!new), S(!new), E(!new)>(sim: Sim<H, S, E>, w: World<H, S, E>, a: nat, b: nat, w2: World<H, S, E>)
    ensures RunsTo(sim, w, a + b, w2) <==> exists w1 :: RunsTo(sim, w, a, w1) && RunsTo(sim, w1, b, w2)
  {
    hide RunsTo;
    if RunsTo(sim, w, a + b, w2) {
      var w1 := OneRunIsTwo(sim, w, a, b, w2);
      assert RunsTo(sim, w, a, w1) && RunsTo(sim, w1, b, w2);
    }
    if w1 :| RunsTo(sim, w, a, w1) && RunsTo(sim, w1, b, w2) {
      TwoRunsAreOne(sim, w, a, b, w1, w2);
    }
  }

  lemma RunsToEnd<H(!new), S(!new), E(!new)>(sim: Sim<H, S, E>, w: World<H, S, E>, cycles: nat, n: nat, w': World<H, S, E>)
    requires Runs(sim, w, w.now + cycles, n, w')
    ensures RunsTo(sim, w, cycles, w')
  {
  }

  lemma {:induction false} EndsAtEnd<H, S, E>(sim: Sim<H, S, E>, w: World<H, S, E>, end: nat, n: nat, w': World<H, S, E>)
    requires Runs(sim, w, end, n, w')
    ensures w'.now == end && !Due(sim, w', end)
    decreases n
  {
    if n > 0 {
      EndsAtEnd(sim, Fire(sim, w), end, n - 1, w');
    }
  }

  // ---- order and completeness ----

  /** Events have fired in time order, up to `now`. */
  ghost predicate Ordered<E>(fired: seq<Event<E>>, now: nat) {
    && (forall i, j :: 0 <= i < j < |fired| ==> fired[i].time <= fired[j].time)
    && (forall i :: 0 <= i < |fired| ==> fired[i].time <= now)
  }

  /** Nothing waits in the past, and every scheduled event has either fired or waits. */
  ghost predicate WorldOk<H, S, E(!new)>(sim: Sim<H, S, E>, w: World<H, S, E>) {
    && (forall e :: e in sim.ops.bag(w.heap) ==> e.time >= w.now)
    && multiset(w.fired) + sim.ops.bag(w.heap) == w.scheduled
    && Ordered(w.fired, w.now)
  }

  lemma ScheduledKeeps<H(!new), S(!new), E(!new)>(sim: Sim<H, S, E>, w: World<H, S, E>, r: Request<E>)
    requires Lawful(sim.ops) && WorldOk(sim, w)
    ensures var v := Scheduled(sim, w, r);
            WorldOk(sim, v) && v.now == w.now && v.fired == w.fired && v.state == w.state
  {
    hide Lawful, Ordered;
    PushLaw(sim.ops, w.heap, Event(w.now + r.delay, r.what));
  }

  lemma {:induction false} ScheduledAllKeeps<H(!new), S(!new), E(!new)>(sim: Sim<H, S, E>, w: World<H, S, E>, rs: seq<Request<E>>)
    requires Lawful(sim.ops) && WorldOk(sim, w)
    ensures var v := ScheduledAll(sim, w, rs);
            WorldOk(sim, v) && v.now == w.now && v.fired == w.fired && v.state == w.state
  {
    hide Lawful, WorldOk, Scheduled;
    if rs != [] {
      ScheduledAllKeeps(sim, w, rs[..|rs| - 1]);
      ScheduledKeeps(sim, ScheduledAll(sim, w, rs[..|rs| - 1]), rs[|rs| - 1]);
    }
  }

  /** The world between taking the first event off and scheduling what it asks for. */
  ghost function Popped<H, S, E>(sim: Sim<H, S, E>, w: World<H, S, E>): World<H, S, E> {
    var e := sim.ops.top(w.heap);
    World(sim.ops.pop(w.heap), e.time, sim.handler(w.state, e.time, e.what).0, w.fired + [e], w.scheduled)
  }

  lemma PoppedKeepsWorldOk<H(!new), S(!new), E(!new)>(sim: Sim<H, S, E>, w: World<H, S, E>)
    requires Lawful(sim.ops) && WorldOk(sim, w) && !sim.ops.isEmpty(w.heap)
    ensures WorldOk(sim, Popped(sim, w)) && Popped(sim, w).now >= w.now
  {
    hide Lawful;
    PopLaw(sim.ops, w.heap);
    var e := sim.ops.top(w.heap);
    assert multiset(w.fired + [e]) == multiset(w.fired) + multiset{e};
  }

  lemma FireKeepsWorldOk<H(!new), S(!new), E(!new)>(sim: Sim<H, S, E>, w: World<H, S, E>)
    requires Lawful(sim.ops) && WorldOk(sim, w) && !sim.ops.isEmpty(w.heap)
    ensures WorldOk(sim, Fire(sim, w))
    ensures var v := Fire(sim, w); v.now == sim.ops.top(w.heap).time >= w.now && v.fired == w.fired + [sim.ops.top(w.heap)]
  {
    hide Lawful, WorldOk;
    var e := sim.ops.top(w.heap);
    PoppedKeepsWorldOk(sim, w);
    ScheduledAllKeeps(sim, Popped(sim, w), sim.handler(w.state, e.time, e.what).1);
  }

  lemma NothingDueIsLeft<H(!new), S(!new), E(!new)>(sim: Sim<H, S, E>, w: World<H, S, E>, end: nat)
    requires Lawful(sim.ops) && WorldOk(sim, w) && !Due(sim, w, end)
    requires forall i :: 0 <= i < |w.fired| ==> w.fired[i].time < end
    ensures forall e :: e in sim.ops.bag(w.heap) ==> e.time >= end
    ensures forall e :: multiset(w.fired)[e] == if e.time < end then w.scheduled[e] else 0
    ensures forall e :: sim.ops.bag(w.heap)[e] == if e.time < end then 0 else w.scheduled[e]
  {
    hide Lawful, Ordered;
    EmptyLaw(sim.ops, w.heap);
    if !sim.ops.isEmpty(w.heap) {
      PopLaw(sim.ops, w.heap);
    }
    var bag := sim.ops.bag(w.heap);
    forall e
      ensures multiset(w.fired)[e] == (if e.time < end then w.scheduled[e] else 0)
      ensures bag[e] == if e.time < end then 0 else w.scheduled[e]
    {
      assert w.scheduled[e] == multiset(w.fired)[e] + bag[e];
      assert e in multiset(w.fired) ==> e in w.fired;
    }
  }

  /** When nothing is due, moving the clock to the end breaks nothing. */
  lemma ClockMayAdvance<H(!new), S(!new), E(!new)>(sim: Sim<H, S, E>, w: World<H, S, E>, end: nat)
    requires Lawful(sim.ops) && WorldOk(sim, w) && !Due(sim, w, end) && w.now <= end
    requires forall i :: 0 <= i < |w.fired| ==> w.fired[i].time < end
    ensures WorldOk(sim, w.(now := end))
  {
    hide Lawful;
    NothingDueIsLeft(sim, w, end);
  }

  lemma FiredBeforeEnd<H(!new), S(!new), E(!new)>(sim: Sim<H, S, E>, w: World<H, S, E>, end: nat)
    requires Lawful(sim.ops) && WorldOk(sim, w) && Due(sim, w, end)
    requires forall i :: 0 <= i < |w.fired| ==> w.fired[i].time < end
    ensures forall i :: 0 <= i < |Fire(sim, w).fired| ==> Fire(sim, w).fired[i].time < end
  {
    hide Lawful, WorldOk, Fire;
    FireKeepsWorldOk(sim, w);
  }

  /** A run fires in non-decreasing time order; when it returns, of all events ever scheduled,
      on the way included, exactly those due before the end have fired, each once, and exactly
      the others wait. */
  lemma {:induction false} RunIsOrderedAndComplete<H(!new), S(!new), E(!new)>(sim: Sim<H, S, E>, w: World<H, S, E>, end: nat, n: nat, w': World<H, S, E>)
    requires Lawful(sim.ops) && WorldOk(sim, w) && w.now <= end && Runs(sim, w, end, n, w')
    requires forall i :: 0 <= i < |w.fired| ==> w.fired[i].time < end
    ensures WorldOk(sim, w') && w'.now == end && |w'.fired| == |w.fired| + n && w.fired <= w'.fired
    ensures forall i, j :: 0 <= i < j < |w'.fired| ==> w'.fired[i].time <= w'.fired[j].time
    ensures forall e :: multiset(w'.fired)[e] == if e.time < end then w'.scheduled[e] else 0
    ensures forall e :: sim.ops.bag(w'.heap)[e] == if e.time < end then 0 else w'.scheduled[e]
    decreases n
  {
    hide Lawful, Fire, WorldOk, Due;
    if n > 0 {
      assert !sim.ops.isEmpty(w.heap) && Fire(sim, w).now <= end && Fire(sim, w).fired == w.fired + [sim.ops.top(w.heap)] by {
        DueFires(sim, w, end);
      }
      FireKeepsWorldOk(sim, w);
      FiredBeforeEnd(sim, w, end);
      RunIsOrderedAndComplete(sim, Fire(sim, w), end, n - 1, w');
    } else {
      NothingDueIsLeft(sim, w, end);
      ClockMayAdvance(sim, w, end);
    }
    OrderedWhenOk(sim, w');
  }

  lemma DueFires<H(!new), S(!new), E(!new)>(sim: Sim<H, S, E>, w: World<H, S, E>, end: nat)
    requires Lawful(sim.ops) && WorldOk(sim, w) && Due(sim, w, end)
    ensures !sim.ops.isEmpty(w.heap) && Fire(sim, w).now <= end
    ensures Fire(sim, w).fired == w.fired + [sim.ops.top(w.heap)]
  {
    hide Lawful, WorldOk, Fire;
    FireKeepsWorldOk(sim, w);
  }

  lemma OrderedWhenOk<H(!new), S(!new), E(!new)>(sim: Sim<H, S, E>, w: World<H, S, E>)
    requires WorldOk(sim, w)
    ensures forall i, j :: 0 <= i < j < |w.fired| ==> w.fired[i].time <= w.fired[j].time
  {
  }

  // ---- what a run does ----

  /** The state that processing a log of events, in order and at their times, makes of `s`. */
  ghost function StateAfter<S, E>(handler: Handler<S, E>, s: S, log: seq<Event<E>>): S {
    if log == [] then s
    else
      var e := log[|log| - 1];
      handler(StateAfter(handler, s, log[..|log| - 1]), e.time, e.what).0
  }

  /** Requests made at cycle `now`, as events. */
  ghost function AtTimes<E>(rs: seq<Request<E>>, now: nat): multiset<Event<E>> {
    if rs == [] then multiset{}
    else AtTimes(rs[..|rs| - 1], now) + multiset{Event(now + rs[|rs| - 1].delay, rs[|rs| - 1].what)}
  }

  /** Everything that processing a log of events schedules. */
  ghost function Requested<S, E>(handler: Handler<S, E>, s: S, log: seq<Event<E>>): multiset<Event<E>> {
    if log == [] then multiset{}
    else
      var before, e := log[..|log| - 1], log[|log| - 1];
      Requested(handler, s, before) + AtTimes(handler(StateAfter(handler, s, before), e.time, e.what).1, e.time)
  }

  lemma {:induction false} LogFromFirst<S, E>(handler: Handler<S, E>, s: S, e: Event<E>, log: seq<Event<E>>)
    ensures StateAfter(handler, s, [e] + log) == StateAfter(handler, handler(s, e.time, e.what).0, log)
    ensures Requested(handler, s, [e] + log) ==
            AtTimes(handler(s, e.time, e.what).1, e.time) + Requested(handler, handler(s, e.time, e.what).0, log)
  {
    hide AtTimes;
    if log == [] {
      LogOfOne(handler, s, e);
      assert [e] + log == [e];
    } else {
      var less := log[..|log| - 1];
      assert ([e] + log)[..|log|] == [e] + less;
      LogFromFirst(handler, s, e, less);
    }
  }

  lemma LogOfNone<S, E>(handler: Handler<S, E>, s: S)
    ensures StateAfter(handler, s, []) == s && Requested(handler, s, []) == multiset{}
  {
  }

  lemma LogOfOne<S, E>(handler: Handler<S, E>, s: S, e: Event<E>)
    ensures StateAfter(handler, s, [e]) == handler(s, e.time, e.what).0
    ensures Requested(handler, s, [e]) == AtTimes(handler(s, e.time, e.what).1, e.time)
  {
    assert [e][..0] == [];
  }

  lemma {:induction false} ScheduledAllIsAtTimes<H, S, E>(sim: Sim<H, S, E>, w: World<H, S, E>, rs: seq<Request<E>>)
    ensures var v := ScheduledAll(sim, w, rs);
            v.scheduled == w.scheduled + AtTimes(rs, w.now) && v.now == w.now && v.state == w.state && v.fired == w.fired
  {
    hide Scheduled;
    if rs != [] {
      ScheduledAllIsAtTimes(sim, w, rs[..|rs| - 1]);
      ScheduledIsAtTime(sim, ScheduledAll(sim, w, rs[..|rs| - 1]), rs[|rs| - 1]);
    }
  }

  lemma ScheduledIsAtTime<H, S, E>(sim: Sim<H, S, E>, w: World<H, S, E>, r: Request<E>)
    ensures var v := Scheduled(sim, w, r);
            && v.scheduled == w.scheduled + multiset{Event(w.now + r.delay, r.what)}
            && v.now == w.now && v.state == w.state && v.fired == w.fired
  {
  }

  lemma FireDoes<H, S, E>(sim: Sim<H, S, E>, w: World<H, S, E>)
    ensures var v, e := Fire(sim, w), sim.ops.top(w.heap);
            && v.fired == w.fired + [e]
            && v.state == sim.handler(w.state, e.time, e.what).0
            && v.scheduled == w.scheduled + AtTimes(sim.handler(w.state, e.time, e.what).1, e.time)
  {
    var e := sim.ops.top(w.heap);
    ScheduledAllIsAtTimes(sim, Popped(sim, w), sim.handler(w.state, e.time, e.what).1);
  }

  /** The events a run fires tell all it did: the final state is what the handler makes of the first
      one along them, and what was scheduled on the way is what the handler asked for along them. */
  lemma {:induction false} RunIsItsLog<H, S, E>(sim: Sim<H, S, E>, w: World<H, S, E>, end: nat, n: nat, w': World<H, S, E>)
    requires Runs(sim, w, end, n, w')
    ensures |w'.fired| == |w.fired| + n && w.fired <= w'.fired
    ensures w'.state == StateAfter(sim.handler, w.state, w'.fired[|w.fired|..])
    ensures w'.scheduled == w.scheduled + Requested(sim.handler, w.state, w'.fired[|w.fired|..])
    decreases n
  {
    hide Fire, Due, StateAfter, Requested, AtTimes;
    if n == 0 {
      LogOfNone(sim.handler, w.state);
      assert w'.fired[|w.fired|..] == [];
    } else {
      var e := sim.ops.top(w.heap);
      FireDoes(sim, w);
      RunIsItsLog(sim, Fire(sim, w), end, n - 1, w');
      var log := w'.fired[|w.fired| + 1..];
      assert w'.fired[|w.fired|] == e && w'.fired[|w.fired|..] == [e] + log;
      LogFromFirst(sim.handler, w.state, e, log);
    }
  }

  // ---- termination ----

  /** Handlers schedule only into later cycles. */
  ghost predicate DelaysPositive<H, S(!new), E(!new)>(sim: Sim<H, S, E>) {
    forall s, t, e :: AllLater(sim.handler(s, t, e).1)
  }

  ghost predicate AllLater<E>(rs: seq<Request<E>>) {
    forall i :: 0 <= i < |rs| ==> rs[i].delay >= 1
  }

  lemma NewOneIsLater<H(!new), S(!new), E(!new)>(sim: Sim<H, S, E>, w: World<H, S, E>, r: Request<E>, e: Event<E>)
    requires Lawful(sim.ops) && r.delay >= 1 && e.time <= w.now
    ensures sim.ops.bag(Scheduled(sim, w, r).heap)[e] == sim.ops.bag(w.heap)[e]
  {
    hide Lawful;
    PushLaw(sim.ops, w.heap, Event(w.now + r.delay, r.what));
  }

  lemma {:induction false} NewOnesAreLater<H(!new), S(!new), E(!new)>(sim: Sim<H, S, E>, w: World<H, S, E>, rs: seq<Request<E>>, e: Event<E>)
    requires Lawful(sim.ops) && AllLater(rs) && e.time <= w.now
    ensures ScheduledAll(sim, w, rs).now == w.now
    ensures sim.ops.bag(ScheduledAll(sim, w, rs).heap)[e] == sim.ops.bag(w.heap)[e]
  {
    if rs != [] {
      var rest, r := rs[..|rs| - 1], rs[|rs| - 1];
      assert AllLater(rest) && r.delay >= 1;
      hide Lawful, AllLater;
      NewOnesAreLater(sim, w, rest, e);
      NewOneIsLater(sim, ScheduledAll(sim, w, rest), r, e);
    }
  }

  /** Firing leaves the events of the current cycle as they were, less the one fired. */
  lemma FireLeavesCycle<H(!new), S(!new), E(!new)>(sim: Sim<H, S, E>, w: World<H, S, E>, e: Event<E>)
    requires Lawful(sim.ops) && DelaysPositive(sim) && !sim.ops.isEmpty(w.heap) && e.time <= sim.ops.top(w.heap).time
    ensures sim.ops.bag(Fire(sim, w).heap)[e] == (sim.ops.bag(w.heap) - multiset{sim.ops.top(w.heap)})[e]
  {
    hide Lawful;
    PopLaw(sim.ops, w.heap);
    var first := sim.ops.top(w.heap);
    assert AllLater(sim.handler(w.state, first.time, first.what).1);
    NewOnesAreLater(sim, Popped(sim, w), sim.handler(w.state, first.time, first.what).1, e);
  }

  /** With positive delays every run ends, by the measure (cycles left, events due now); `soon`
      bounds the events that wait for the current cycle. */
  lemma {:induction false} RunEnds<H(!new), S(!new), E(!new)>(sim: Sim<H, S, E>, w: World<H, S, E>, end: nat, soon: multiset<Event<E>>)
    returns (n: nat, w': World<H, S, E>)
    requires Lawful(sim.ops) && DelaysPositive(sim) && WorldOk(sim, w) && w.now <= end
    requires forall e: Event<E> :: e.time <= w.now ==> sim.ops.bag(w.heap)[e] <= soon[e]
    ensures Runs(sim, w, end, n, w')
    decreases end - w.now, |soon|
  {
    hide Lawful, WorldOk, Fire, DelaysPositive;
    if Due(sim, w, end) {
      var first := sim.ops.top(w.heap);
      var v := Fire(sim, w);
      FireKeepsWorldOk(sim, w);
      if first.time > w.now {
        n, w' := RunEnds(sim, v, end, sim.ops.bag(v.heap));
      } else {
        PopLaw(sim.ops, w.heap);
        forall e: Event<E> | e.time <= v.now
          ensures sim.ops.bag(v.heap)[e] <= (soon - multiset{first})[e]
        {
          FireLeavesCycle(sim, w, e);
        }
        assert first in soon;
        n, w' := RunEnds(sim, v, end, soon - multiset{first});
      }
      n := n + 1;
    } else {
      n, w' := 0, w.(now := end);
    }
  }

  // ---- the queue as it runs ----

  ghost predicate Returns<H(!new), S(!new), E(!new)>(sim: Sim<H, S, E>, w: World<H, S, E>, cycles: nat) {
    exists w' :: RunsTo(sim, w, cycles, w')
  }

  lemma RunOf<H(!new), S(!new), E(!new)>(sim: Sim<H, S, E>, w: World<H, S, E>, cycles: nat) returns (n: nat, w': World<H, S, E>)
    requires Returns(sim, w, cycles)
    ensures Runs(sim, w, w.now + cycles, n, w')
  {
    hide Runs;
    w' :| RunsTo(sim, w, cycles, w');
    n :| Runs(sim, w, w.now + cycles, n, w');
  }

  lemma RunReturns<H(!new), S(!new), E(!new)>(sim: Sim<H, S, E>, w: World<H, S, E>, cycles: nat)
    requires Lawful(sim.ops) && DelaysPositive(sim) && WorldOk(sim, w)
    ensures Returns(sim, w, cycles)
  {
    hide Lawful, DelaysPositive, WorldOk, Runs, RunsTo;
    var n, w' := RunEnds(sim, w, w.now + cycles, sim.ops.bag(w.heap));
    RunsToEnd(sim, w, cycles, n, w');
  }

  /** Whenever an event `x` is processed it schedules itself, among other things, with delay zero. */
  ghost predicate Repeats<H, S(!new), E>(sim: Sim<H, S, E>, x: E) {
    forall s, t :: Request(x, 0) in sim.handler(s, t, x).1
  }

  lemma ScheduledAdds<H(!new), S(!new), E(!new)>(sim: Sim<H, S, E>, w: World<H, S, E>, r: Request<E>, e: Event<E>)
    requires Lawful(sim.ops)
    ensures Scheduled(sim, w, r).now == w.now
    ensures e in sim.ops.bag(Scheduled(sim, w, r).heap) <==> e in sim.ops.bag(w.heap) || e == Event(w.now + r.delay, r.what)
  {
    hide Lawful;
    PushLaw(sim.ops, w.heap, Event(w.now + r.delay, r.what));
  }

  lemma {:induction false} ScheduledAllAdds<H(!new), S(!new), E(!new)>(sim: Sim<H, S, E>, w: World<H, S, E>, rs: seq<Request<E>>, e: Event<E>)
    requires Lawful(sim.ops)
    ensures ScheduledAll(sim, w, rs).now == w.now
    ensures e in sim.ops.bag(ScheduledAll(sim, w, rs).heap) <==>
            e in sim.ops.bag(w.heap) || exists r :: r in rs && e == Event(w.now + r.delay, r.what)
  {
    hide Lawful, Scheduled;
    if rs != [] {
      var rest, q := rs[..|rs| - 1], rs[|rs| - 1];
      assert rs == rest + [q];
      ScheduledAllAdds(sim, w, rest, e);
      ScheduledAdds(sim, ScheduledAll(sim, w, rest), q, e);
      assert q in rs && forall r :: r in rs <==> r in rest || r == q;
    }
  }

  lemma RepeatedStaysDue<H(!new), S(!new), E(!new)>(sim: Sim<H, S, E>, w: World<H, S, E>, x: E, at: nat)
    requires Lawful(sim.ops) && Repeats(sim, x) && Event(at, x) in sim.ops.bag(w.heap)
    ensures !sim.ops.isEmpty(w.heap) && sim.ops.top(w.heap).time <= at
    ensures Event(at, x) in sim.ops.bag(Fire(sim, w).heap)
  {
    hide Lawful, ScheduledAll;
    EmptyLaw(sim.ops, w.heap);
    PopLaw(sim.ops, w.heap);
    var first := sim.ops.top(w.heap);
    assert first == Event(at, x) ==> Request(x, 0) in sim.handler(w.state, at, x).1;
    ScheduledAllAdds(sim, Popped(sim, w), sim.handler(w.state, first.time, first.what).1, Event(at, x));
  }

  /** One event that always reschedules itself with delay zero, due before the end, keeps a run from
      ever returning, whatever the other events do. */
  lemma {:induction false} ZeroDelayNeverReturns<H(!new), S(!new), E(!new)>(sim: Sim<H, S, E>, w: World<H, S, E>, x: E, at: nat,
                                                                           end: nat, n: nat, w': World<H, S, E>)
    requires Lawful(sim.ops) && Repeats(sim, x) && Event(at, x) in sim.ops.bag(w.heap) && at < end
    ensures !Runs(sim, w, end, n, w')
    decreases n
  {
    hide Lawful, Repeats, Fire;
    RepeatedStaysDue(sim, w, x, at);
    if n > 0 {
      ZeroDelayNeverReturns(sim, Fire(sim, w), x, at, end, n - 1, w');
    }
  }

  class EventQueue<H(!new), S(!new), E(!new, ==)> {
    const sim: Sim<H, S, E>
    var heap: H
    var curCycle: nat
    /** Everything the events act on. */
    var state: S
    ghost var fired: seq<Event<E>>
    ghost var scheduled: multiset<Event<E>>

    ghost function View(): World<H, S, E>
      reads this
    {
      World(heap, curCycle, state, fired, scheduled)
    }

    constructor (sim: Sim<H, S, E>, state: S)
      requires Lawful(sim.ops)
      ensures this.sim == sim && View() == World(sim.ops.empty, 0, state, [], multiset{})
      ensures WorldOk(sim, View())
    {
      this.sim := sim;
      heap, curCycle, this.state := sim.ops.empty, 0, state;
      fired, scheduled := [], multiset{};
    }

    method Schedule(what: E, delay: nat)
      modifies this
      ensures View() == Scheduled(sim, old(View()), Request(what, delay))
    {
      var ev := Event(curCycle + delay, what);
      heap := sim.ops.push(heap, ev);
      scheduled := scheduled + multiset{ev};
    }

    /** `process` of an event that has just been taken off the queue. */
    method Process(ev: Event<E>)
      modifies this
      ensures var (after, requests) := sim.handler(old(state), old(curCycle), ev.what);
              View() == ScheduledAll(sim, old(View()).(state := after), requests)
    {
      var (after, requests) := sim.handler(state, curCycle, ev.what);
      state := after;
      ghost var begun := View();
      var i := 0;
      while i < |requests|
        invariant i <= |requests|
        invariant View() == ScheduledAll(sim, begun, requests[..i])
      {
        Schedule(requests[i].what, requests[i].delay);
        i := i + 1;
        assert requests[..i][..i - 1] == requests[..i - 1];
      }
      assert requests[..i] == requests;
    }

    /** Takes the first event off the queue and processes it. */
    method FireNext()
      requires !sim.ops.isEmpty(heap)
      modifies this
      ensures View() == Fire(sim, old(View()))
    {
      hide ScheduledAll;
      var ev := sim.ops.top(heap);
      heap := sim.ops.pop(heap);
      curCycle := ev.time;
      fired := fired + [ev];
      Process(ev);
    }

    /** Runs every event due in the next `numCycles` cycles.  Handlers that schedule with delay
        zero for ever never let this return; all others do. */
    method Run(numCycles: nat)
      requires Returns(sim, View(), numCycles)
      modifies this
      ensures RunsTo(sim, old(View()), numCycles, View())
    {
      hide Fire;
      var endCycle := curCycle + numCycles;
      ghost var n, w := RunOf(sim, View(), numCycles);
      ghost var left := n;
      while !sim.ops.isEmpty(heap) && sim.ops.top(heap).time < endCycle
        invariant Runs(sim, View(), endCycle, left, w)
        decreases left
      {
        FireNext();
        left := left - 1;
      }
      curCycle := endCycle;
      assert View() == w;
      RunsToEnd(sim, old(View()), numCycles, n, w);
    }
  }
}
