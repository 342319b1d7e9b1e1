/** Objects that tick: each tick event processes its object and schedules the next one. */
module Ticks {
  import opened Basics
  import opened Events

  /** A tick of an object, or any other event. */
  datatype What<O, X> = Tick(obj: O) | Other(other: X)

  /** The code of the simulated objects: what one tick does, and what any other event does.  Both
      may schedule further events of their own, at any delay. */
  datatype Objects<!S, !O, !X> = Objects(tick: (S, nat, O) -> (S, seq<Request<X>>), act: (S, nat, X) -> (S, seq<Request<X>>))

  function Lifted<O, X>(rs: seq<Request<X>>): seq<Request<What<O, X>>> {
    if rs == [] then []
    else Lifted(rs[..|rs| - 1]) + [Request(Other(rs[|rs| - 1].what), rs[|rs| - 1].delay)]
  }

  /** `initiate_tick`: one tick, one cycle from now. */
  function TickRequest<O, X>(o: O): Request<What<O, X>> {
    Request(Tick(o), 1)
  }

  /** A tick event runs the object's tick and then initiates the next. */
  function Process<S, O, X>(objects: Objects<S, O, X>, state: S, now: nat, what: What<O, X>): (S, seq<Request<What<O, X>>>) {
    match what
    case Tick(o) =>
      var (after, rs) := objects.tick(state, now, o);
      (after, Lifted(rs) + [TickRequest(o)])
    case Other(x) =>
      var (after, rs) := objects.act(state, now, x);
      (after, Lifted(rs))
  }

  function TickSim<H, S, O(==), X(==)>(ops: HeapOps<H, What<O, X>>, objects: Objects<S, O, X>): Sim<H, S, What<O, X>> {
    Sim(ops, (state, now, what) => Process(objects, state, now, what))
  }

  /** Exactly one tick of `o` waits, and it is for cycle `at`. */
  ghost predicate OneTick<O(!new), X(!new)>(bag: multiset<Event<What<O, X>>>, o: O, at: nat) {
    bag[Event(at, Tick(o))] == 1 && forall e :: e in bag && e.what == Tick(o) ==> e.time == at
  }

  ghost predicate NoTick<O(!new), X(!new)>(bag: multiset<Event<What<O, X>>>, o: O) {
    forall e :: e in bag ==> e.what != Tick(o)
  }

  /** The cycles in which `o` ticked. */
  ghost function TickTimes<O, X>(fired: seq<Event<What<O, X>>>, o: O): seq<nat> {
    if fired == [] then []
    else
      var e := fired[|fired| - 1];
      TickTimes(fired[..|fired| - 1], o) + if e.what == Tick(o) then [e.time] else []
  }

  /** Every cycle from `first` up to, but not including, `end`. */
  function EveryCycle(first: nat, end: nat): seq<nat>
    requires first <= end
  {
    seq(end - first, i => first + i)
  }

  // ---- scheduling ----

  /** Scheduling anything but a tick of `o` changes nothing about the ticks of `o` that wait. */
  lemma OtherAddsNoTick<H(!new), S(!new), O(!new), X(!new)>(
      sim: Sim<H, S, What<O, X>>, w: World<H, S, What<O, X>>, r: Request<What<O, X>>, o: O, at: nat)
    requires Lawful(sim.ops) && r.what != Tick(o)
    ensures var v := Scheduled(sim, w, r);
            && v.now == w.now && v.fired == w.fired
            && (NoTick(sim.ops.bag(w.heap), o) ==> NoTick(sim.ops.bag(v.heap), o))
            && (OneTick(sim.ops.bag(w.heap), o, at) ==> OneTick(sim.ops.bag(v.heap), o, at))
  {
    hide Lawful;
    PushLaw(sim.ops, w.heap, Event(w.now + r.delay, r.what));
  }

  lemma {:induction false} OthersAddNoTick<H(!new), S(!new), O(!new), X(!new)>(
      sim: Sim<H, S, What<O, X>>, w: World<H, S, What<O, X>>, rs: seq<Request<What<O, X>>>, o: O, at: nat)
    requires Lawful(sim.ops) && forall i :: 0 <= i < |rs| ==> rs[i].what != Tick(o)
    ensures var v := ScheduledAll(sim, w, rs);
            && v.now == w.now && v.fired == w.fired
            && (NoTick(sim.ops.bag(w.heap), o) ==> NoTick(sim.ops.bag(v.heap), o))
            && (OneTick(sim.ops.bag(w.heap), o, at) ==> OneTick(sim.ops.bag(v.heap), o, at))
  {
    hide Lawful, NoTick, OneTick, Scheduled;
    if rs != [] {
      OthersAddNoTick(sim, w, rs[..|rs| - 1], o, at);
      OtherAddsNoTick(sim, ScheduledAll(sim, w, rs[..|rs| - 1]), rs[|rs| - 1], o, at);
    }
  }

  lemma {:induction false} LiftedHasNoTick<O, X>(rs: seq<Request<X>>, o: O)
    ensures forall i :: 0 <= i < |Lifted<O, X>(rs)| ==> Lifted<O, X>(rs)[i].what != Tick(o)
  {
    if rs != [] {
      LiftedHasNoTick(rs[..|rs| - 1], o);
    }
  }

  /** Initiating the tick of `o`, when none waits, makes one wait for the next cycle. */
  lemma InitiateMakesOne<H(!new), S(!new), O(!new), X(!new)>(sim: Sim<H, S, What<O, X>>, w: World<H, S, What<O, X>>, o: O)
    requires Lawful(sim.ops) && NoTick(sim.ops.bag(w.heap), o)
    ensures OneTick(sim.ops.bag(Scheduled(sim, w, TickRequest(o)).heap), o, w.now + 1)
  {
    hide Lawful;
    var e: Event<What<O, X>> := Event(w.now + 1, Tick(o));
    PushLaw(sim.ops, w.heap, e);
    assert e !in sim.ops.bag(w.heap);
  }

  lemma ScheduledAllSnoc<H, S, E>(sim: Sim<H, S, E>, w: World<H, S, E>, rs: seq<Request<E>>, r: Request<E>)
    ensures ScheduledAll(sim, w, rs + [r]) == Scheduled(sim, ScheduledAll(sim, w, rs), r)
  {
    assert (rs + [r])[..|rs|] == rs;
  }

  // ---- firing ----

  /** Taking an event off the queue: if it is the tick of `o`, no other waits. */
  lemma PopAndTicks<H(!new), O(!new), X(!new)>(ops: HeapOps<H, What<O, X>>, h: H, o: O, at: nat)
    requires Lawful(ops) && !ops.isEmpty(h) && OneTick(ops.bag(h), o, at)
    ensures if ops.top(h).what == Tick(o) then ops.top(h).time == at && NoTick(ops.bag(ops.pop(h)), o)
            else OneTick(ops.bag(ops.pop(h)), o, at)
    ensures ops.top(h).time <= at
  {
    hide Lawful;
    PopLaw(ops, h);
    assert Event(at, Tick(o)) in ops.bag(h);
  }

  /** One event: a tick of `o` is logged and replaced by one a cycle later; any other event
      leaves the waiting tick of `o` alone. */
  lemma FireAndTicks<H(!new), S(!new), O(!new), X(!new)>(
      ops: HeapOps<H, What<O, X>>, objects: Objects<S, O, X>, w: World<H, S, What<O, X>>, o: O, at: nat)
    requires Lawful(ops) && !ops.isEmpty(w.heap) && OneTick(ops.bag(w.heap), o, at)
    ensures var v := Fire(TickSim(ops, objects), w);
            if ops.top(w.heap) == Event(at, Tick(o)) then
              OneTick(ops.bag(v.heap), o, at + 1) && TickTimes(v.fired, o) == TickTimes(w.fired, o) + [at]
            else
              OneTick(ops.bag(v.heap), o, at) && TickTimes(v.fired, o) == TickTimes(w.fired, o)
    ensures ops.top(w.heap).time <= at
  {
    hide Lawful, OneTick, NoTick;
    var sim := TickSim(ops, objects);
    var e := ops.top(w.heap);
    var p := Popped(sim, w);
    assert (w.fired + [e])[..|w.fired|] == w.fired;
    PopAndTicks(ops, w.heap, o, at);
    match e.what
    case Tick(q) =>
      var rs: seq<Request<X>> := objects.tick(w.state, e.time, q).1;
      LiftedHasNoTick<O, X>(rs, o);
      ScheduledAllSnoc(sim, p, Lifted<O, X>(rs), TickRequest(q));
      OthersAddNoTick(sim, p, Lifted<O, X>(rs), o, at);
      var m := ScheduledAll(sim, p, Lifted<O, X>(rs));
      if q == o {
        InitiateMakesOne(sim, m, o);
      } else {
        OtherAddsNoTick(sim, m, TickRequest(q), o, at);
      }
    case Other(x) =>
      var rs: seq<Request<X>> := objects.act(w.state, e.time, x).1;
      LiftedHasNoTick<O, X>(rs, o);
      OthersAddNoTick(sim, p, Lifted<O, X>(rs), o, at);
  }

  // ---- whole runs ----

  lemma OneMoreCycle(first: nat, end: nat)
    requires first < end
    ensures [first] + EveryCycle(first + 1, end) == EveryCycle(first, end)
  {
  }

  /** From a world where one tick of `o` waits for cycle `at`, a run up to `end` ticks `o` exactly
      once in every cycle from `at` on, and leaves one tick of `o` waiting, for `end`. */
  lemma {:induction false} TicksEveryCycle<H(!new), S(!new), O(!new), X(!new)>(
      ops: HeapOps<H, What<O, X>>, objects: Objects<S, O, X>, w: World<H, S, What<O, X>>, o: O, at: nat,
      end: nat, n: nat, w': World<H, S, What<O, X>>)
    requires Lawful(ops) && OneTick(ops.bag(w.heap), o, at) && at <= end
    requires Runs(TickSim(ops, objects), w, end, n, w')
    ensures OneTick(ops.bag(w'.heap), o, end)
    ensures TickTimes(w'.fired, o) == TickTimes(w.fired, o) + EveryCycle(at, end)
    decreases n
  {
    hide Lawful, OneTick, TickTimes, Fire;
    var sim := TickSim(ops, objects);
    if n == 0 {
      TickNotDue(ops, w.heap, o, at);
      assert EveryCycle(at, end) == [];
    } else {
      FireAndTicks(ops, objects, w, o, at);
      if ops.top(w.heap) == Event(at, Tick(o)) {
        TicksEveryCycle(ops, objects, Fire(sim, w), o, at + 1, end, n - 1, w');
        OneMoreCycle(at, end);
        Associate(TickTimes(w.fired, o), [at], EveryCycle(at + 1, end));
      } else {
        TicksEveryCycle(ops, objects, Fire(sim, w), o, at, end, n - 1, w');
      }
    }
  }

  lemma TickNotDue<H(!new), O(!new), X(!new)>(ops: HeapOps<H, What<O, X>>, h: H, o: O, at: nat)
    requires Lawful(ops) && OneTick(ops.bag(h), o, at)
    ensures !ops.isEmpty(h) && ops.top(h).time <= at
  {
    hide Lawful;
    EmptyLaw(ops, h);
    PopAndTicks(ops, h, o, at);
  }

  /** `initiate_tick` on each of a list of objects. */
  function TickRequests<O, X>(objs: seq<O>): seq<Request<What<O, X>>> {
    if objs == [] then [] else TickRequests(objs[..|objs| - 1]) + [TickRequest(objs[|objs| - 1])]
  }

  lemma DistinctButLast<O>(objs: seq<O>, o: O)
    requires Distinct(objs) && objs != []
    ensures var rest, q := objs[..|objs| - 1], objs[|objs| - 1];
            Distinct(rest) && q !in rest && (o in objs <==> o in rest || o == q)
  {
    assert objs == objs[..|objs| - 1] + [objs[|objs| - 1]];
  }

  lemma InitiateNext<H(!new), S(!new), O(!new), X(!new)>(
      sim: Sim<H, S, What<O, X>>, w: World<H, S, What<O, X>>, q: O, o: O)
    requires Lawful(sim.ops) && (q == o ==> NoTick(sim.ops.bag(w.heap), o))
    ensures var v := Scheduled(sim, w, TickRequest(q));
            && v.now == w.now && v.fired == w.fired
            && (q == o ==> OneTick(sim.ops.bag(v.heap), o, w.now + 1))
            && (q != o && NoTick(sim.ops.bag(w.heap), o) ==> NoTick(sim.ops.bag(v.heap), o))
            && (q != o && OneTick(sim.ops.bag(w.heap), o, w.now + 1) ==> OneTick(sim.ops.bag(v.heap), o, w.now + 1))
  {
    if q == o {
      InitiateMakesOne(sim, w, o);
    } else {
      OtherAddsNoTick(sim, w, TickRequest(q), o, w.now + 1);
    }
  }

  lemma {:induction false} InitiateAllMakesOnes<H(!new), S(!new), O(!new), X(!new)>(
      sim: Sim<H, S, What<O, X>>, w: World<H, S, What<O, X>>, objs: seq<O>, o: O)
    requires Lawful(sim.ops) && NoTick(sim.ops.bag(w.heap), o) && Distinct(objs)
    ensures var v := ScheduledAll(sim, w, TickRequests(objs));
            && v.now == w.now && v.fired == w.fired
            && if o in objs then OneTick(sim.ops.bag(v.heap), o, w.now + 1) else NoTick(sim.ops.bag(v.heap), o)
  {
    hide Lawful, OneTick, NoTick, Scheduled, Distinct;
    if objs != [] {
      var rest, q := objs[..|objs| - 1], objs[|objs| - 1];
      var m := ScheduledAll(sim, w, TickRequests<O, X>(rest));
      DistinctButLast(objs, o);
      InitiateAllMakesOnes(sim, w, rest, o);
      ScheduledAllSnoc(sim, w, TickRequests<O, X>(rest), TickRequest(q));
      InitiateNext(sim, m, q, o);
    }
  }

  lemma AfterInitiating<H(!new), S(!new), O(!new), X(!new)>(
      ops: HeapOps<H, What<O, X>>, objects: Objects<S, O, X>, w: World<H, S, What<O, X>>, objs: seq<O>, o: O)
    requires Lawful(ops) && Distinct(objs) && o in objs && NoTick(ops.bag(w.heap), o)
    ensures var begun := ScheduledAll(TickSim(ops, objects), w, TickRequests(objs));
            begun.now == w.now && begun.fired == w.fired && OneTick(ops.bag(begun.heap), o, w.now + 1)
  {
    hide Lawful, Distinct, NoTick, OneTick, TickRequests, ScheduledAll;
    InitiateAllMakesOnes(TickSim(ops, objects), w, objs, o);
  }

  /** After one `initiate_tick` per object, whatever else is scheduled and whatever the objects
      do: a run of `cycles` cycles, of any number `n` of events, ticks each of them exactly once
      in every later cycle of the run, and leaves exactly one tick of each waiting. */
  lemma EveryObjectTicksOncePerCycle<H(!new), S(!new), O(!new), X(!new)>(
      ops: HeapOps<H, What<O, X>>, objects: Objects<S, O, X>, w: World<H, S, What<O, X>>, objs: seq<O>, o: O,
      cycles: nat, n: nat, w': World<H, S, What<O, X>>)
    requires Lawful(ops) && cycles >= 1 && Distinct(objs) && o in objs && NoTick(ops.bag(w.heap), o)
    requires Runs(TickSim(ops, objects), ScheduledAll(TickSim(ops, objects), w, TickRequests(objs)), w.now + cycles, n, w')
    ensures TickTimes(w'.fired, o) == TickTimes(w.fired, o) + EveryCycle(w.now + 1, w.now + cycles)
    ensures OneTick(ops.bag(w'.heap), o, w.now + cycles)
  {
    hide *;
    AfterInitiating(ops, objects, w, objs, o);
    TicksEveryCycle(ops, objects, ScheduledAll(TickSim(ops, objects), w, TickRequests(objs)), o,
                    w.now + 1, w.now + cycles, n, w');
  }

  // ---- what the objects do ----

  /** The state that the objects' own code makes of `s` along a log of events: `tick` for a tick,
      `act` for any other event, each at its time. */
  ghost function ObjectsAfter<S, O, X>(objects: Objects<S, O, X>, s: S, log: seq<Event<What<O, X>>>): S {
    if log == [] then s
    else
      var before, e := ObjectsAfter(objects, s, log[..|log| - 1]), log[|log| - 1];
      match e.what
      case Tick(o) => objects.tick(before, e.time, o).0
      case Other(x) => objects.act(before, e.time, x).0
  }

  /** The objects' own requests of cycle `now`, as events. */
  ghost function OwnEvents<O, X>(rs: seq<Request<X>>, now: nat): multiset<Event<What<O, X>>> {
    if rs == [] then multiset{}
    else OwnEvents<O, X>(rs[..|rs| - 1], now) + multiset{Event(now + rs[|rs| - 1].delay, Other(rs[|rs| - 1].what))}
  }

  /** What one event schedules: the requests of its object's code, and for a tick the next one, a
      cycle later. */
  ghost function EventRequested<S, O, X>(objects: Objects<S, O, X>, s: S, now: nat, what: What<O, X>): multiset<Event<What<O, X>>> {
    match what
    case Tick(o) => OwnEvents(objects.tick(s, now, o).1, now) + multiset{Event(now + 1, Tick(o))}
    case Other(x) => OwnEvents(objects.act(s, now, x).1, now)
  }

  /** What is scheduled along a log. */
  ghost function ObjectsRequested<S, O, X>(objects: Objects<S, O, X>, s: S, log: seq<Event<What<O, X>>>): multiset<Event<What<O, X>>> {
    if log == [] then multiset{}
    else
      var less, e := log[..|log| - 1], log[|log| - 1];
      ObjectsRequested(objects, s, less) + EventRequested(objects, ObjectsAfter(objects, s, less), e.time, e.what)
  }

  lemma {:induction false} LiftedAtTimes<O, X>(rs: seq<Request<X>>, now: nat)
    ensures AtTimes(Lifted<O, X>(rs), now) == OwnEvents<O, X>(rs, now)
  {
    hide AtTimes;
    if rs == [] {
      AtTimesNone<What<O, X>>(now);
    } else {
      var r: Request<What<O, X>> := Request(Other(rs[|rs| - 1].what), rs[|rs| - 1].delay);
      LiftedAtTimes<O, X>(rs[..|rs| - 1], now);
      AtTimesSnoc(Lifted<O, X>(rs[..|rs| - 1]), r, now);
    }
  }

  lemma AtTimesNone<E>(now: nat)
    ensures AtTimes<E>([], now) == multiset{}
  {
  }

  lemma AtTimesSnoc<E>(rs: seq<Request<E>>, r: Request<E>, now: nat)
    ensures AtTimes(rs + [r], now) == AtTimes(rs, now) + multiset{Event(now + r.delay, r.what)}
  {
    assert (rs + [r])[..|rs|] == rs;
  }

  lemma ProcessRequests<S, O, X>(objects: Objects<S, O, X>, s: S, now: nat, what: What<O, X>)
    ensures AtTimes(Process(objects, s, now, what).1, now) == EventRequested(objects, s, now, what)
  {
    match what
    case Tick(o) =>
      var rs: seq<Request<X>> := objects.tick(s, now, o).1;
      LiftedAtTimes<O, X>(rs, now);
      AtTimesSnoc(Lifted<O, X>(rs), TickRequest(o), now);
    case Other(x) => LiftedAtTimes<O, X>(objects.act(s, now, x).1, now);
  }

  lemma {:induction false} LogOfObjects<H, S, O, X>(ops: HeapOps<H, What<O, X>>, objects: Objects<S, O, X>, s: S, log: seq<Event<What<O, X>>>)
    ensures StateAfter(TickSim(ops, objects).handler, s, log) == ObjectsAfter(objects, s, log)
    ensures Requested(TickSim(ops, objects).handler, s, log) == ObjectsRequested(objects, s, log)
  {
    if log != [] {
      var less, e := log[..|log| - 1], log[|log| - 1];
      LogOfObjects(ops, objects, s, less);
      ProcessRequests(objects, ObjectsAfter(objects, s, less), e.time, e.what);
    }
  }

  /** A run of objects is what their own code does along the events fired: every tick event runs its
      object's tick, once and at its time, and every other event acts; and nothing is scheduled on
      the way but what they ask for and, for every tick fired, the next one. */
  lemma RunRunsTheObjects<H, S, O, X>(
      ops: HeapOps<H, What<O, X>>, objects: Objects<S, O, X>, w: World<H, S, What<O, X>>,
      end: nat, n: nat, w': World<H, S, What<O, X>>)
    requires Runs(TickSim(ops, objects), w, end, n, w')
    ensures |w'.fired| == |w.fired| + n && w.fired <= w'.fired
    ensures w'.state == ObjectsAfter(objects, w.state, w'.fired[|w.fired|..])
    ensures w'.scheduled == w.scheduled + ObjectsRequested(objects, w.state, w'.fired[|w.fired|..])
  {
    hide Runs, StateAfter, Requested, ObjectsAfter, ObjectsRequested;
    RunIsItsLog(TickSim(ops, objects), w, end, n, w');
    LogOfObjects(ops, objects, w.state, w'.fired[|w.fired|..]);
  }

  // ---- the objects as they run ----

  /** Whatever the objects schedule themselves is for later cycles. */
  ghost predicate ActsLater<S(!new), O(!new), X(!new)>(objects: Objects<S, O, X>) {
    && (forall s, t, o :: AllLater(objects.tick(s, t, o).1))
    && (forall s, t, x :: AllLater(objects.act(s, t, x).1))
  }

  lemma {:induction false} LiftedLater<O, X>(rs: seq<Request<X>>)
    requires AllLater(rs)
    ensures AllLater(Lifted<O, X>(rs))
  {
    if rs != [] {
      LiftedLater<O, X>(rs[..|rs| - 1]);
    }
  }

  lemma TickSimDelays<H, S(!new), O(!new), X(!new)>(ops: HeapOps<H, What<O, X>>, objects: Objects<S, O, X>)
    requires ActsLater(objects)
    ensures DelaysPositive(TickSim(ops, objects))
  {
    forall s, t, e
      ensures AllLater(TickSim(ops, objects).handler(s, t, e).1)
    {
      match e
      case Tick(o) =>
        assert AllLater(objects.tick(s, t, o).1);
        LiftedLater<O, X>(objects.tick(s, t, o).1);
      case Other(x) =>
        assert AllLater(objects.act(s, t, x).1);
        LiftedLater<O, X>(objects.act(s, t, x).1);
    }
  }

  method InitiateTick<H(!new), S(!new), O(!new, ==), X(!new, ==)>(queue: EventQueue<H, S, What<O, X>>, o: O)
    modifies queue
    ensures queue.View() == Scheduled(queue.sim, old(queue.View()), TickRequest(o))
  {
    queue.Schedule(Tick(o), 1);
  }

  method StartAllTicks<H(!new), S(!new), O(!new, ==), X(!new, ==)>(queue: EventQueue<H, S, What<O, X>>, objs: seq<O>)
    modifies queue
    ensures queue.View() == ScheduledAll(queue.sim, old(queue.View()), TickRequests(objs))
  {
    hide Scheduled;
    var i := 0;
    while i < |objs|
      invariant i <= |objs|
      invariant queue.View() == ScheduledAll(queue.sim, old(queue.View()), TickRequests(objs[..i]))
    {
      ScheduledAllSnoc(queue.sim, old(queue.View()), TickRequests<O, X>(objs[..i]), TickRequest(objs[i]));
      InitiateTick(queue, objs[i]);
      i := i + 1;
      assert objs[..i][..i - 1] == objs[..i - 1];
    }
    assert objs[..i] == objs;
  }

  /** If what the objects schedule themselves is for later cycles, every run of them returns. */
  lemma TickingReturns<H(!new), S(!new), O(!new), X(!new)>(
      ops: HeapOps<H, What<O, X>>, objects: Objects<S, O, X>, w: World<H, S, What<O, X>>, objs: seq<O>, cycles: nat)
    requires Lawful(ops) && ActsLater(objects) && WorldOk(TickSim(ops, objects), w)
    ensures Returns(TickSim(ops, objects), ScheduledAll(TickSim(ops, objects), w, TickRequests(objs)), cycles)
  {
    hide Lawful, ActsLater, WorldOk, DelaysPositive, ScheduledAll, Returns, TickRequests;
    TickSimDelays(ops, objects);
    ScheduledAllKeeps(TickSim(ops, objects), w, TickRequests<O, X>(objs));
    RunReturns(TickSim(ops, objects), ScheduledAll(TickSim(ops, objects), w, TickRequests(objs)), cycles);
  }

  /** Starting the ticks of all objects and running, when that run returns: each object has ticked
      exactly once in every later cycle of it and has one tick waiting, and the state is what the
      objects' own code made of it along the events fired. */
  method Simulate<H(!new), S(!new), O(!new, ==), X(!new, ==)>(
      queue: EventQueue<H, S, What<O, X>>, objs: seq<O>, cycles: nat, ghost ops: HeapOps<H, What<O, X>>, ghost objects: Objects<S, O, X>)
    requires queue.sim == TickSim(ops, objects) && Lawful(ops)
    requires cycles >= 1 && Distinct(objs) && forall o | o in objs :: NoTick(ops.bag(queue.heap), o)
    requires Returns(queue.sim, ScheduledAll(queue.sim, queue.View(), TickRequests(objs)), cycles)
    modifies queue
    ensures queue.curCycle == old(queue.curCycle) + cycles
    ensures old(queue.fired) <= queue.fired
    ensures queue.state == ObjectsAfter(objects, old(queue.state), queue.fired[|old(queue.fired)|..])
    ensures forall o | o in objs ::
              && TickTimes(queue.fired, o) == TickTimes(old(queue.fired), o) + EveryCycle(old(queue.curCycle) + 1, queue.curCycle)
              && OneTick(ops.bag(queue.heap), o, queue.curCycle)
  {
    hide Lawful, OneTick, NoTick, Distinct, TickTimes, ScheduledAll, RunsTo, Returns, TickRequests, ObjectsAfter, EveryCycle, TickSim;
    ghost var w := queue.View();
    StartAllTicks(queue, objs);
    queue.Run(cycles);
    Simulated(ops, objects, w, objs, cycles, queue.View());
  }

  /** What a run of started objects comes to. */
  lemma Simulated<H(!new), S(!new), O(!new), X(!new)>(
      ops: HeapOps<H, What<O, X>>, objects: Objects<S, O, X>, w: World<H, S, What<O, X>>, objs: seq<O>, cycles: nat,
      w': World<H, S, What<O, X>>)
    requires Lawful(ops) && cycles >= 1 && Distinct(objs) && forall o | o in objs :: NoTick(ops.bag(w.heap), o)
    requires RunsTo(TickSim(ops, objects), ScheduledAll(TickSim(ops, objects), w, TickRequests(objs)), cycles, w')
    ensures w'.now == w.now + cycles && w.fired <= w'.fired
    ensures w'.state == ObjectsAfter(objects, w.state, w'.fired[|w.fired|..])
    ensures forall o | o in objs ::
              && TickTimes(w'.fired, o) == TickTimes(w.fired, o) + EveryCycle(w.now + 1, w'.now)
              && OneTick(ops.bag(w'.heap), o, w'.now)
  {
    hide Lawful, OneTick, NoTick, Distinct, TickTimes, ScheduledAll, Runs, TickRequests, ObjectsAfter, ObjectsRequested, TickSim, EveryCycle;
    var begun := ScheduledAll(TickSim(ops, objects), w, TickRequests(objs));
    ScheduledAllIsAtTimes(TickSim(ops, objects), w, TickRequests<O, X>(objs));
    var n: nat :| Runs(TickSim(ops, objects), begun, w.now + cycles, n, w');
    EndsAtEnd(TickSim(ops, objects), begun, w.now + cycles, n, w');
    RunRunsTheObjects(ops, objects, begun, w.now + cycles, n, w');
    forall o | o in objs
      ensures TickTimes(w'.fired, o) == TickTimes(w.fired, o) + EveryCycle(w.now + 1, w'.now)
      ensures OneTick(ops.bag(w'.heap), o, w'.now)
    {
      EveryObjectTicksOncePerCycle(ops, objects, w, objs, o, cycles, n, w');
    }
  }
}
