/** No flit starves: under traffic that never stops, every injected flit is delivered. */
module Fairness {
  import opened Basics
  import opened XYRouting
  import opened RouterLink
  import opened Router
  import opened Network

  /** The network after `t` edges of an endless schedule. */
  function At(schedule: nat -> Choice, t: nat, rows: nat): Net {
    if t == 0 then Reset() else Step(At(schedule, t - 1, rows), schedule(t - 1), rows)
  }

  ghost predicate AlwaysAdmissible(schedule: nat -> Choice, rows: nat) {
    forall t: nat :: Admissible(schedule(t), rows)
  }

  lemma {:induction false} AlwaysNetOk(schedule: nat -> Choice, t: nat, rows: nat)
    requires AlwaysAdmissible(schedule, rows)
    ensures NetOk(At(schedule, t, rows), rows)
  {
    hide NetOk, Step, Admissible;
    if t == 0 {
      RunKeepsNetOk([], rows);
    } else {
      AlwaysNetOk(schedule, t - 1, rows);
      StepKeepsNetOk(At(schedule, t - 1, rows), schedule(t - 1), rows);
    }
  }

  // ---- one link under continuing traffic ----

  /** What arrives at a link from edge `t` up to, but not including, edge `u`. */
  function Came(schedule: nat -> Choice, c: Chan, t: nat, u: nat, rows: nat): seq<Flit>
    decreases u - t
  {
    if t >= u then [] else Arrivals(At(schedule, t, rows), schedule(t), c, rows) + Came(schedule, c, t + 1, u, rows)
  }

  /** What a link hands over in that time. */
  function Left(schedule: nat -> Choice, c: Chan, t: nat, u: nat, rows: nat): seq<Flit>
    decreases u - t
  {
    if t >= u then [] else Taken(At(schedule, t, rows).links(c)) + Left(schedule, c, t + 1, u, rows)
  }

  lemma LinkServesOnce(schedule: nat -> Choice, c: Chan, t: nat, first: seq<Flit>, later: seq<Flit>, rows: nat)
    requires AlwaysAdmissible(schedule, rows) && ValidChan(c, rows) && first != []
    requires Content(At(schedule, t, rows).links(c)) == first + later
    ensures var l := At(schedule, t, rows).links(c);
            var n := At(schedule, t + 1, rows).links(c);
            var rest := if Phase(l) == 1 then first[1..] else first;
            && Taken(l) + rest == first
            && Content(n) == rest + (later + Arrivals(At(schedule, t, rows), schedule(t), c, rows))
            && Turns(n, |rest|) == Turns(l, |first|) - 1
  {
    hide Edge, Arrivals, Content, Taken, Phase, Turns, Admissible;
    var s, ch := At(schedule, t, rows), schedule(t);
    AlwaysNetOk(schedule, t, rows);
    NextLinkIsEdge(s, ch, c, rows);
    assert ChanOk(s.links(c), c, rows);
    EdgeServes(s.links(c), Arrivals(s, ch, c, rows), if c.Inject? then ch.injectFirst(c.node) else ch.routeFirst(c.node),
               first, later);
  }

  /** Whatever the traffic, the first flits of a link's content are handed over, and nothing else,
      within `Turns` edges: three for every one of them, at most. */
  lemma {:induction false} LinkServes(schedule: nat -> Choice, c: Chan, t: nat, first: seq<Flit>, later: seq<Flit>, rows: nat)
    requires AlwaysAdmissible(schedule, rows) && ValidChan(c, rows)
    requires Content(At(schedule, t, rows).links(c)) == first + later
    ensures var k := Turns(At(schedule, t, rows).links(c), |first|);
            && k <= 3 * |first|
            && Left(schedule, c, t, t + k, rows) == first
            && Content(At(schedule, t + k, rows).links(c)) == later + Came(schedule, c, t, t + k, rows)
    decreases Turns(At(schedule, t, rows).links(c), |first|)
  {
    hide At, Arrivals, Content, Taken;
    if first != [] {
      var l := At(schedule, t, rows).links(c);
      var arrivals := Arrivals(At(schedule, t, rows), schedule(t), c, rows);
      var rest := if Phase(l) == 1 then first[1..] else first;
      LinkServesOnce(schedule, c, t, first, later, rows);
      LinkServes(schedule, c, t + 1, rest, later + arrivals, rows);
      Associate(later, arrivals, Came(schedule, c, t + 1, t + Turns(l, |first|), rows));
    }
  }

  // ---- one flow under continuing traffic ----

  /** What of a flow has come as far as the `j`th link of its route, or further. */
  function Reached(s: Net, src: Node, dst: Node, j: nat): seq<Flit>
    decreases RouteLength(src, dst) - j
  {
    if j >= RouteLength(src, dst) then Flow(s.delivered(dst), src, dst)
    else Reached(s, src, dst, j + 1) + Segments(s, src, dst)(j)
  }

  lemma {:induction false} ReachedAndBehind(s: Net, src: Node, dst: Node, j: nat)
    requires j <= RouteLength(src, dst)
    ensures Reached(s, src, dst, j) + Joined(Segments(s, src, dst), j) == Flow(s.delivered(dst), src, dst) + InFlight(s, src, dst)
    decreases RouteLength(src, dst) - j
  {
    hide RouteLength, Segments, Flow;
    if j < RouteLength(src, dst) {
      ReachedAndBehind(s, src, dst, j + 1);
      Associate(Reached(s, src, dst, j + 1), Segments(s, src, dst)(j), Joined(Segments(s, src, dst), j));
    }
  }

  /** What has come as far as the injector's link is what was injected. */
  lemma ReachedFirst(s: Net, src: Node, dst: Node)
    requires FlowOk(s, src, dst)
    ensures Reached(s, src, dst, 0) == Flow(s.injected(src), src, dst)
  {
    ReachedAndBehind(s, src, dst, 0);
  }

  lemma {:induction false} ReachedStep(s: Net, ch: Choice, src: Node, dst: Node, j: nat, rows: nat)
    requires LinksOk(s, rows) && Admissible(ch, rows) && InMesh(src, rows) && InMesh(dst, rows)
    requires j <= RouteLength(src, dst)
    ensures Reached(Step(s, ch, rows), src, dst, j) == Reached(s, src, dst, j) + Intake(s, ch, src, dst)(j)
    decreases RouteLength(src, dst) - j
  {
    hide Segments, Intake, Flow, Taken, LinksOk, InMesh, Admissible, RouteLength;
    if j < RouteLength(src, dst) {
      ReachedStep(s, ch, src, dst, j + 1, rows);
      FlowLinkStep(s, ch, src, dst, j, rows);
      Associate(Reached(s, src, dst, j + 1), Intake(s, ch, src, dst)(j + 1), Segments(Step(s, ch, rows), src, dst)(j));
      Associate(Reached(s, src, dst, j + 1), Segments(s, src, dst)(j), Intake(s, ch, src, dst)(j));
    } else {
      FrontIsSink(s, ch, src, dst, rows);
      FlowAppend(s.delivered(dst), Taken(s.links(Out(dst, LOCAL))), src, dst);
    }
  }

  lemma {:induction false} ReachedGrows(schedule: nat -> Choice, src: Node, dst: Node, j: nat, t: nat, u: nat, rows: nat)
    requires AlwaysAdmissible(schedule, rows) && InMesh(src, rows) && InMesh(dst, rows)
    requires j < RouteLength(src, dst) && t <= u
    ensures Reached(At(schedule, u, rows), src, dst, j) ==
            Reached(At(schedule, t, rows), src, dst, j) + Flow(Came(schedule, PathChan(src, dst, j), t, u, rows), src, dst)
    decreases u - t
  {
    hide Reached, Flow, PathChan, Arrivals, LinksOk, InMesh, Admissible, RouteLength, Step, FlowInto;
    var c := PathChan(src, dst, j);
    if t == u {
      FlowOfNone(src, dst);
    } else {
      var s, ch := At(schedule, t, rows), schedule(t);
      AlwaysNetOk(schedule, t, rows);
      ReachedStep(s, ch, src, dst, j, rows);
      ArrivalsOfFlow(s, ch, src, dst, j, rows);
      ReachedGrows(schedule, src, dst, j, t + 1, u, rows);
      FlowAppend(Arrivals(s, ch, c, rows), Came(schedule, c, t + 1, u, rows), src, dst);
      Associate(Reached(s, src, dst, j), Flow(Arrivals(s, ch, c, rows), src, dst), Flow(Came(schedule, c, t + 1, u, rows), src, dst));
    }
  }

  /** When everything that stands in the `j`th link of a route at edge `t` has left it. */
  function Onward(schedule: nat -> Choice, src: Node, dst: Node, j: nat, t: nat, rows: nat): nat {
    var l := At(schedule, t, rows).links(PathChan(src, dst, j));
    t + Turns(l, |Content(l)|)
  }

  /** Exactly what of a flow has come as far as one link by edge `t` has come as far as the next
      one when the flits then standing in the link have left it. */
  lemma FlowMovesUp(schedule: nat -> Choice, src: Node, dst: Node, j: nat, t: nat, rows: nat)
    requires AlwaysAdmissible(schedule, rows) && InMesh(src, rows) && InMesh(dst, rows) && j < RouteLength(src, dst)
    ensures Reached(At(schedule, Onward(schedule, src, dst, j, t, rows), rows), src, dst, j + 1) ==
            Reached(At(schedule, t, rows), src, dst, j)
  {
    hide At, Flow, PathChan, Content, Turns, InMesh, RouteLength, AlwaysAdmissible, Came, HopsLeft, OnRoute, Answered, Route;
    var c := PathChan(src, dst, j);
    var u := Onward(schedule, src, dst, j, t, rows);
    var standing := Content(At(schedule, t, rows).links(c));
    PathFacts(src, dst, j, rows);
    assert standing == standing + [];
    LinkServes(schedule, c, t, standing, [], rows);
    assert Content(At(schedule, u, rows).links(c)) == Came(schedule, c, t, u, rows);
    ReachedGrows(schedule, src, dst, j, t, u, rows);
    CancelRight(Reached(At(schedule, u, rows), src, dst, j + 1), Reached(At(schedule, t, rows), src, dst, j),
                Flow(Came(schedule, c, t, u, rows), src, dst));
  }

  /** When everything that was injected before edge `t`, and stands in the `j`th link of its route
      or has gone further, is delivered. */
  function Arrival(schedule: nat -> Choice, src: Node, dst: Node, j: nat, t: nat, rows: nat): nat
    decreases RouteLength(src, dst) - j
  {
    if j >= RouteLength(src, dst) then t
    else Arrival(schedule, src, dst, j + 1, Onward(schedule, src, dst, j, t, rows), rows)
  }

  lemma {:induction false} FlowArrives(schedule: nat -> Choice, src: Node, dst: Node, j: nat, t: nat, rows: nat)
    requires AlwaysAdmissible(schedule, rows) && InMesh(src, rows) && InMesh(dst, rows) && j <= RouteLength(src, dst)
    ensures Arrival(schedule, src, dst, j, t, rows) >= t
    ensures Flow(At(schedule, Arrival(schedule, src, dst, j, t, rows), rows).delivered(dst), src, dst) ==
            Reached(At(schedule, t, rows), src, dst, j)
    decreases RouteLength(src, dst) - j
  {
    hide At, Flow, InMesh, RouteLength, AlwaysAdmissible, Segments;
    if j < RouteLength(src, dst) {
      FlowMovesUp(schedule, src, dst, j, t, rows);
      FlowArrives(schedule, src, dst, j + 1, Onward(schedule, src, dst, j, t, rows), rows);
    }
  }

  /** Under any endless traffic, whatever a sender has injected for a destination by any moment is
      delivered there at some later moment: the sink then has exactly that, in order. */
  lemma NoFlitStarves(schedule: nat -> Choice, src: Node, dst: Node, t: nat, rows: nat) returns (u: nat)
    requires AlwaysAdmissible(schedule, rows) && InMesh(src, rows) && InMesh(dst, rows)
    ensures u >= t
    ensures Flow(At(schedule, u, rows).delivered(dst), src, dst) == Flow(At(schedule, t, rows).injected(src), src, dst)
  {
    hide At, Flow, AlwaysAdmissible, Reached, Arrival;
    u := Arrival(schedule, src, dst, 0, t, rows);
    FlowArrives(schedule, src, dst, 0, t, rows);
    AlwaysNetOk(schedule, t, rows);
    ReachedFirst(At(schedule, t, rows), src, dst);
  }
}
