/** A mesh of routers, clocked together, with an injector and a sink on every local port. */
module Network {
  import opened XYRouting
  import opened RouterLink
  import opened Router
  import opened MeshBuilder

  /** The links of the network: from the injector of a node into its router, and from each
      output port of a router to whatever that port faces (the sink, on the local port). */
  datatype Chan = Inject(node: Node) | Out(node: Node, dir: Dir)

  /** `delivered` and `injected` are the logs of the sink and of the injector of each node. */
  datatype Net = Net(links: Chan -> Link<Flit>, delivered: Node -> seq<Flit>, injected: Node -> seq<Flit>)

  /** What one clock edge leaves open: the flits each injector is given, and the order of the
      two processes at each router and at each injector. */
  datatype Choice = Choice(inject: Node -> seq<Flit>, routeFirst: Node -> bool, injectFirst: Node -> bool)

  predicate ValidChan(c: Chan, rows: nat) {
    InMesh(c.node, rows)
  }

  /** The link that drives input port `port` of router `n`. */
  function Feed(n: Node, port: Dir): Chan {
    if port == LOCAL then Inject(n) else Out(Neighbor(n, port), Opposite(port))
  }

  predicate Fed(n: Node, port: Dir, rows: nat) {
    port == LOCAL || InMesh(Neighbor(n, port), rows)
  }

  /** Something listens at the far end: ports on the border of the mesh face nothing. */
  predicate Answered(c: Chan, rows: nat) {
    c.Inject? || c.dir == LOCAL || InMesh(Neighbor(c.node, c.dir), rows)
  }

  function InputAt(s: Net, n: Node, port: Dir, rows: nat): Input {
    if Fed(n, port, rows) then
      var l := s.links(Feed(n, port));
      Input(l.req, l.flit, l.ack)
    else
      Input(false, BLANK, false)
  }

  function InputsAt(s: Net, n: Node, rows: nat): (inputs: seq<Input>)
    ensures |inputs| == PORTS
    ensures forall p: Dir :: inputs[p] == InputAt(s, n, p, rows)
  {
    seq(PORTS, p requires 0 <= p < PORTS => InputAt(s, n, p, rows))
  }

  /** The flits pushed on the queue of a link at this edge. */
  function Arrivals(s: Net, ch: Choice, c: Chan, rows: nat): seq<Flit> {
    match c
    case Inject(n) => ch.inject(n)
    case Out(n, d) => Routed(n, InputsAt(s, n, rows), d, PORTS)
  }

  function NextLink(s: Net, ch: Choice, c: Chan, rows: nat): Link<Flit> {
    var first := if c.Inject? then ch.injectFirst(c.node) else ch.routeFirst(c.node);
    var l := Edge(s.links(c), Arrivals(s, ch, c, rows), first);
    Link(l.queue, l.req, l.flit, l.ack && Answered(c, rows))
  }

  /** One clock edge of the whole mesh: every process reads the values before the edge. */
  function Step(s: Net, ch: Choice, rows: nat): Net {
    Net(c => NextLink(s, ch, c, rows),
        n => s.delivered(n) + Taken(s.links(Out(n, LOCAL))),
        n => s.injected(n) + ch.inject(n))
  }

  function Reset(): Net {
    Net(c => Link([], false, BLANK, false), n => [], n => [])
  }

  function Run(s: Net, choices: seq<Choice>, rows: nat): Net {
    if choices == [] then s
    else Step(Run(s, choices[..|choices| - 1], rows), choices[|choices| - 1], rows)
  }

  /** Injectors label flits with their own node and address them to routers of the mesh. */
  ghost predicate Admissible(ch: Choice, rows: nat) {
    forall n | InMesh(n, rows) :: forall f | f in ch.inject(n) :: f.src == n && InMesh(Dest(f), rows)
  }

  /** The network is wired as the mesh generator wires it: an output drives an input exactly
      when the generator connects the two. */
  lemma WiringIsGenerated(m: Node, d: Dir, n: Node, port: Dir, rows: nat)
    requires InMesh(n, rows) && d != LOCAL && port != LOCAL
    ensures Fed(n, port, rows) && Feed(n, port) == Out(m, d) <==> IsMeshLink(Connection(m, d, n, port), rows, COLUMNS)
    ensures IsMeshLink(Connection(m, d, n, port), rows, COLUMNS) ==> Answered(Out(m, d), rows)
  {
  }

  /** A running router shows exactly what the network state says about its node. */
  ghost predicate Shows(r: Router, s: Net, rows: nat)
    reads r, r.outputBuffer
  {
    && r.Valid() && InMesh(r.here, rows)
    && (forall d: Dir :: r.Out(d) == s.links(Out(r.here, d)) && r.flitOut[d].next == r.flitOut[d].now)
    && (forall d: Dir :: r.Inputs()[d] == InputAt(s, r.here, d, rows))
  }

  method NewRouter(n: Node, rows: nat) returns (r: Router)
    requires InMesh(n, rows)
    ensures fresh(r) && r.here == n && Shows(r, Reset(), rows)
  {
    r := new Router(n);
  }

  lemma InputAfterEdge(s: Net, ch: Choice, n: Node, d: Dir, rows: nat)
    requires InMesh(n, rows)
    ensures InputAt(Step(s, ch, rows), n, d, rows).ack == Accepts(InputAt(s, n, d, rows))
  {
  }

  lemma OutputAfterEdge(s: Net, ch: Choice, n: Node, d: Dir, rows: nat)
    ensures var t := Step(s, ch, rows);
            t.links(Out(n, d)) ==
            Edge(s.links(Out(n, d)), Routed(n, InputsAt(s, n, rows), d, PORTS), ch.routeFirst(n)).(ack := t.links(Out(n, d)).ack)
  {
  }

  /** The running router follows the network step: given the signals its neighbours drive after
      an edge, a router that showed its node before the edge shows it after. */
  method ClockInMesh(r: Router, s: Net, ch: Choice, rows: nat)
    requires Shows(r, s, rows)
    modifies r, r.outputBuffer
    ensures Shows(r, Step(s, ch, rows), rows)
  {
    hide Step, Edge, Routed, InputAt;
    var n, t := r.here, Step(s, ch, rows);
    assert r.Inputs() == InputsAt(s, n, rows);
    r.ClockEdge(ch.routeFirst(n),
                seq(PORTS, d requires 0 <= d < PORTS => InputAt(t, n, d, rows).req),
                seq(PORTS, d requires 0 <= d < PORTS => InputAt(t, n, d, rows).flit),
                seq(PORTS, d requires 0 <= d < PORTS => t.links(Out(n, d)).ack));
    forall d: Dir
      ensures r.Out(d) == t.links(Out(n, d))
      ensures r.Inputs()[d] == InputAt(t, n, d, rows)
    {
      InputAfterEdge(s, ch, n, d, rows);
      OutputAfterEdge(s, ch, n, d, rows);
    }
  }

  // ---- flows ----

  /** The flits of one sender for one destination, in order. */
  function Flow(fs: seq<Flit>, src: Node, dst: Node): seq<Flit> {
    if fs == [] then []
    else
      var f := fs[|fs| - 1];
      Flow(fs[..|fs| - 1], src, dst) + (if f.src == src && Dest(f) == dst then [f] else [])
  }

  lemma {:induction false} FlowAppend(a: seq<Flit>, b: seq<Flit>, src: Node, dst: Node)
    ensures Flow(a + b, src, dst) == Flow(a, src, dst) + Flow(b, src, dst)
  {
    if b == [] {
      assert a + b == a;
    } else {
      var m := b[..|b| - 1];
      assert (a + b)[..|a + b| - 1] == a + m;
      FlowAppend(a, m, src, dst);
    }
  }

  lemma {:induction false} FlowExact(fs: seq<Flit>, f: Flit, src: Node, dst: Node)
    ensures f in Flow(fs, src, dst) <==> f in fs && f.src == src && Dest(f) == dst
  {
    if fs != [] {
      FlowExact(fs[..|fs| - 1], f, src, dst);
      assert fs == fs[..|fs| - 1] + [fs[|fs| - 1]];
    }
  }

  // ---- the links one flow uses ----

  /** How many links a flow uses: the injector's, one per hop, and the sink's. */
  function RouteLength(src: Node, dst: Node): nat {
    Distance(src, dst) + 2
  }

  /** Links a flit in `c` still has to cross to be delivered at `dst`, `c` included. */
  function HopsLeft(c: Chan, dst: Node): nat {
    Distance(c.node, dst) + (if c.Inject? then 2 else 1)
  }

  function PathChan(src: Node, dst: Node, j: nat): Chan {
    if j == 0 then Inject(src)
    else
      var n := RouteNode(src, dst, j - 1);
      Out(n, Route(n, dst))
  }

  predicate OnRoute(c: Chan, src: Node, dst: Node) {
    var j := RouteLength(src, dst) - HopsLeft(c, dst);
    j >= 0 && c == PathChan(src, dst, j)
  }

  lemma RouteNodeFacts(src: Node, dst: Node, i: nat, rows: nat)
    requires InMesh(src, rows) && InMesh(dst, rows) && i <= Distance(src, dst)
    ensures var n := RouteNode(src, dst, i);
            InMesh(n, rows) && Distance(n, dst) == Distance(src, dst) - i && (n == dst <==> i == Distance(src, dst))
  {
  }

  lemma PathFacts(src: Node, dst: Node, j: nat, rows: nat)
    requires InMesh(src, rows) && InMesh(dst, rows) && j < RouteLength(src, dst)
    ensures var c := PathChan(src, dst, j);
            && ValidChan(c, rows) && Answered(c, rows)
            && HopsLeft(c, dst) == RouteLength(src, dst) - j
            && OnRoute(c, src, dst)
    ensures j == RouteLength(src, dst) - 1 <==> PathChan(src, dst, j) == Out(dst, LOCAL)
    ensures j > 0 ==> PathChan(src, dst, j) == Out(PathChan(src, dst, j).node, Route(PathChan(src, dst, j).node, dst))
  {
    hide InMesh, Distance, RouteNode, Route, Neighbor;
    if j > 0 {
      RouteNodeFacts(src, dst, j - 1, rows);
      RouteProgress(RouteNode(src, dst, j - 1), dst, rows);
    }
  }

  /** The input port through which a flow reaches the router of its `j`th link. */
  function EntryPort(src: Node, dst: Node, j: nat): Dir {
    var c := PathChan(src, dst, if j > 0 then j - 1 else 0);
    if c.Inject? then LOCAL else Opposite(c.dir)
  }

  lemma EntryPortFed(src: Node, dst: Node, j: nat, rows: nat)
    requires InMesh(src, rows) && InMesh(dst, rows) && 1 <= j < RouteLength(src, dst)
    ensures var n := PathChan(src, dst, j).node;
            Fed(n, EntryPort(src, dst, j), rows) && Feed(n, EntryPort(src, dst, j)) == PathChan(src, dst, j - 1)
  {
  }

  /** Inside the route, the link after the one into router `n` leaves `n`. */
  lemma NextOnPath(src: Node, dst: Node, j: nat, n: Node, port: Dir, rows: nat)
    requires InMesh(src, rows) && InMesh(dst, rows) && j < RouteLength(src, dst)
    requires PathChan(src, dst, j) == Feed(n, port)
    ensures j + 1 < RouteLength(src, dst) && PathChan(src, dst, j + 1) == Out(n, Route(n, dst))
  {
  }

  /** If a flow crosses the link into port `port` of `n`, its next link leaves `n` in the
      direction the routing function names, one hop closer. */
  lemma FlowMovesOn(n: Node, port: Dir, src: Node, dst: Node, rows: nat)
    requires InMesh(n, rows) && InMesh(src, rows) && InMesh(dst, rows) && Fed(n, port, rows)
    requires OnRoute(Feed(n, port), src, dst)
    ensures HopsLeft(Feed(n, port), dst) == Distance(n, dst) + 2 <= RouteLength(src, dst)
    ensures OnRoute(Out(n, Route(n, dst)), src, dst)
  {
    hide Route, Neighbor, RouteNode;
    var j := RouteLength(src, dst) - HopsLeft(Feed(n, port), dst);
    NextOnPath(src, dst, j, n, port, rows);
    PathFacts(src, dst, j + 1, rows);
  }

  // ---- invariants ----

  ghost predicate FlitPlaced(c: Chan, f: Flit, rows: nat) {
    InMesh(f.src, rows) && InMesh(Dest(f), rows) && OnRoute(c, f.src, Dest(f))
  }

  /** Every link keeps the handshake, and holds only flits whose route crosses it. */
  ghost predicate ChanOk(l: Link<Flit>, c: Chan, rows: nat) {
    HandshakeInv(l) && forall f | f in Content(l) :: FlitPlaced(c, f, rows)
  }

  ghost predicate LinksOk(s: Net, rows: nat) {
    forall c | ValidChan(c, rows) :: ChanOk(s.links(c), c, rows)
  }

  ghost predicate DeliveriesOk(s: Net, rows: nat) {
    forall n | InMesh(n, rows) :: forall f | f in s.delivered(n) :: Dest(f) == n && InMesh(f.src, rows)
  }

  /** The flits of one flow that stand in the `j`th link of its route. */
  function FlowAt(s: Net, src: Node, dst: Node, j: nat): seq<Flit> {
    Flow(Content(s.links(PathChan(src, dst, j))), src, dst)
  }

  /** Segments `k - 1` down to 0 of a line of queues, joined: oldest first. */
  function Joined<F>(segment: nat -> seq<F>, k: nat): seq<F> {
    if k == 0 then [] else segment(k - 1) + Joined(segment, k - 1)
  }

  function Segments(s: Net, src: Node, dst: Node): nat -> seq<Flit> {
    (j: nat) => FlowAt(s, src, dst, j)
  }

  /** The flits of one flow that stand in the links of its route, oldest first. */
  function InFlight(s: Net, src: Node, dst: Node): seq<Flit> {
    Joined(Segments(s, src, dst), RouteLength(src, dst))
  }

  /** What one sender injected for one destination is what the sink there got from it, then what
      is under way, in the same order. */
  ghost predicate FlowOk(s: Net, src: Node, dst: Node) {
    Flow(s.injected(src), src, dst) == Flow(s.delivered(dst), src, dst) + InFlight(s, src, dst)
  }

  ghost predicate NetOk(s: Net, rows: nat) {
    && LinksOk(s, rows)
    && DeliveriesOk(s, rows)
    && forall src, dst | InMesh(src, rows) && InMesh(dst, rows) :: FlowOk(s, src, dst)
  }

  // ---- one edge ----

  lemma TakenInContent(l: Link<Flit>, f: Flit)
    requires HandshakeInv(l) && f in Taken(l)
    ensures f in Content(l)
  {
    assert Content(l)[0] == f;
  }

  /** What a router pushes on an output came from a link the flit's route crosses. */
  lemma {:induction false} RoutedComeFrom(s: Net, n: Node, d: Dir, k: nat, f: Flit, rows: nat)
    requires LinksOk(s, rows) && InMesh(n, rows) && k <= PORTS
    requires f in Routed(n, InputsAt(s, n, rows), d, k)
    ensures FlitPlaced(Out(n, d), f, rows)
  {
    if f in Routed(n, InputsAt(s, n, rows), d, k - 1) {
      RoutedComeFrom(s, n, d, k - 1, f, rows);
    } else {
      var c := Feed(n, k - 1);
      assert ValidChan(c, rows) && ChanOk(s.links(c), c, rows);
      TakenInContent(s.links(c), f);
      FlowMovesOn(n, k - 1, f.src, Dest(f), rows);
    }
  }

  lemma ArrivalsPlaced(s: Net, ch: Choice, c: Chan, f: Flit, rows: nat)
    requires LinksOk(s, rows) && Admissible(ch, rows) && ValidChan(c, rows)
    requires f in Arrivals(s, ch, c, rows)
    ensures FlitPlaced(c, f, rows)
  {
    if c.Out? {
      RoutedComeFrom(s, c.node, c.dir, PORTS, f, rows);
    } else {
      PathFacts(c.node, Dest(f), 0, rows);
    }
  }

  /** At a port that faces nothing no flit ever waits, so its acknowledge line never matters. */
  lemma NextLinkIsEdge(s: Net, ch: Choice, c: Chan, rows: nat)
    requires LinksOk(s, rows) && ValidChan(c, rows)
    ensures var first := if c.Inject? then ch.injectFirst(c.node) else ch.routeFirst(c.node);
            NextLink(s, ch, c, rows) == Edge(s.links(c), Arrivals(s, ch, c, rows), first)
  {
    hide PathChan, Answered, Distance, RouteNode, Route, Neighbor, Arrivals, Switch;
    var l := s.links(c);
    assert ChanOk(l, c, rows);
    if l.req && !l.ack {
      var f := Content(l)[0];
      assert FlitPlaced(c, f, rows);
      var j := RouteLength(f.src, Dest(f)) - HopsLeft(c, Dest(f));
      PathFacts(f.src, Dest(f), j, rows);
    }
  }

  lemma LinkStep(s: Net, ch: Choice, c: Chan, rows: nat)
    requires LinksOk(s, rows) && Admissible(ch, rows) && ValidChan(c, rows)
    ensures ChanOk(NextLink(s, ch, c, rows), c, rows)
    ensures Content(s.links(c)) + Arrivals(s, ch, c, rows) == Taken(s.links(c)) + Content(NextLink(s, ch, c, rows))
  {
    NextLinkIsEdge(s, ch, c, rows);
    var l, a, n := s.links(c), Arrivals(s, ch, c, rows), NextLink(s, ch, c, rows);
    assert ChanOk(l, c, rows);
    EdgeIsFifoStep(l, a, if c.Inject? then ch.injectFirst(c.node) else ch.routeFirst(c.node));
    forall f | f in Content(n)
      ensures FlitPlaced(c, f, rows)
    {
      assert f in Taken(l) + Content(n);
      if f !in Content(l) {
        assert f in a;
        ArrivalsPlaced(s, ch, c, f, rows);
      }
    }
  }

  lemma OtherPortsCarryNone(s: Net, src: Node, dst: Node, j: nat, port: Dir, rows: nat)
    requires LinksOk(s, rows) && InMesh(src, rows) && InMesh(dst, rows) && 1 <= j < RouteLength(src, dst)
    requires ValidChan(PathChan(src, dst, j), rows)
    requires var i := InputAt(s, PathChan(src, dst, j).node, port, rows);
             Accepts(i) && i.flit.src == src && Dest(i.flit) == dst
    ensures port == EntryPort(src, dst, j)
  {
    hide PathChan, EntryPort, Distance, RouteNode, Neighbor, Route;
    var n := PathChan(src, dst, j).node;
    var feed := Feed(n, port);
    assert ChanOk(s.links(feed), feed, rows);
    TakenInContent(s.links(feed), s.links(feed).flit);
    FlowMovesOn(n, port, src, dst, rows);
    PathFacts(src, dst, j, rows);
    EntryPortFed(src, dst, j, rows);
    assert feed == PathChan(src, dst, j - 1);
  }

  lemma FlowOfNone(src: Node, dst: Node)
    ensures Flow([], src, dst) == []
  {
  }

  lemma FlowOfOne(f: Flit, src: Node, dst: Node)
    ensures Flow([f], src, dst) == if f.src == src && Dest(f) == dst then [f] else []
  {
    assert [f] == [] + [f];
    FlowAppend([], [f], src, dst);
  }

  lemma ContributionOfFlow(s: Net, src: Node, dst: Node, j: nat, port: Dir, rows: nat)
    requires LinksOk(s, rows) && InMesh(src, rows) && InMesh(dst, rows) && 1 <= j < RouteLength(src, dst)
    requires ValidChan(PathChan(src, dst, j), rows) && PathChan(src, dst, j).Out?
    ensures var c := PathChan(src, dst, j);
            Flow(Contribution(c.node, InputAt(s, c.node, port, rows), c.dir), src, dst) ==
            if port == EntryPort(src, dst, j) then Flow(Taken(s.links(PathChan(src, dst, j - 1))), src, dst) else []
  {
    hide PathChan, RouteLength, EntryPort, Distance, RouteNode, Neighbor, Route;
    var c := PathChan(src, dst, j);
    var i := InputAt(s, c.node, port, rows);
    PathFacts(src, dst, j, rows);
    EntryPortFed(src, dst, j, rows);
    if Accepts(i) {
      FlowOfOne(i.flit, src, dst);
      if i.flit.src == src && Dest(i.flit) == dst {
        OtherPortsCarryNone(s, src, dst, j, port, rows);
      }
    }
  }

  /** Of one flow, a router pushes on the flow's next link exactly what it takes from the flow's
      previous link. */
  lemma {:induction false} RoutedOfFlow(s: Net, src: Node, dst: Node, j: nat, k: nat, rows: nat)
    requires LinksOk(s, rows) && InMesh(src, rows) && InMesh(dst, rows) && 1 <= j < RouteLength(src, dst)
    requires ValidChan(PathChan(src, dst, j), rows) && PathChan(src, dst, j).Out? && k <= PORTS
    ensures var c := PathChan(src, dst, j);
            Flow(Routed(c.node, InputsAt(s, c.node, rows), c.dir, k), src, dst) ==
            if EntryPort(src, dst, j) < k then Flow(Taken(s.links(PathChan(src, dst, j - 1))), src, dst) else []
  {
    hide Flow, PathChan, EntryPort, Taken, InputAt, ValidChan, LinksOk, InMesh, RouteLength;
    if k == 0 {
      FlowOfNone(src, dst);
    } else {
      var c := PathChan(src, dst, j);
      var inputs := InputsAt(s, c.node, rows);
      RoutedOfFlow(s, src, dst, j, k - 1, rows);
      ContributionOfFlow(s, src, dst, j, k - 1, rows);
      FlowAppend(Routed(c.node, inputs, c.dir, k - 1), Contribution(c.node, inputs[k - 1], c.dir), src, dst);
    }
  }

  /** Of one flow, what arrives at its `j`th link is what its sender was given (at the first) or
      what leaves the link before (at all others). */
  function FlowInto(s: Net, ch: Choice, src: Node, dst: Node, j: nat): seq<Flit> {
    if j == 0 then Flow(ch.inject(src), src, dst)
    else Flow(Taken(s.links(PathChan(src, dst, j - 1))), src, dst)
  }

  lemma ArrivalsOfFlow(s: Net, ch: Choice, src: Node, dst: Node, j: nat, rows: nat)
    requires LinksOk(s, rows) && InMesh(src, rows) && InMesh(dst, rows) && j < RouteLength(src, dst)
    ensures Flow(Arrivals(s, ch, PathChan(src, dst, j), rows), src, dst) == FlowInto(s, ch, src, dst, j)
  {
    PathFacts(src, dst, j, rows);
    if j > 0 {
      RoutedOfFlow(s, src, dst, j, PORTS, rows);
    }
  }

  function Intake(s: Net, ch: Choice, src: Node, dst: Node): nat -> seq<Flit> {
    (j: nat) => FlowInto(s, ch, src, dst, j)
  }

  lemma FlowLinkStep(s: Net, ch: Choice, src: Node, dst: Node, j: nat, rows: nat)
    requires LinksOk(s, rows) && Admissible(ch, rows)
    requires InMesh(src, rows) && InMesh(dst, rows) && j < RouteLength(src, dst)
    ensures Segments(s, src, dst)(j) + Intake(s, ch, src, dst)(j) ==
            Intake(s, ch, src, dst)(j + 1) + Segments(Step(s, ch, rows), src, dst)(j)
  {
    hide PathChan, RouteLength, Flow, Content, Taken, NextLink, Arrivals, LinksOk, ChanOk, Admissible;
    var c := PathChan(src, dst, j);
    PathFacts(src, dst, j, rows);
    LinkStep(s, ch, c, rows);
    ArrivalsOfFlow(s, ch, src, dst, j, rows);
    FlowAppend(Content(s.links(c)), Arrivals(s, ch, c, rows), src, dst);
    FlowAppend(Taken(s.links(c)), Content(NextLink(s, ch, c, rows)), src, dst);
  }

  /** What a flow hands over at the end of its route goes to the sink of its destination. */
  lemma FrontIsSink(s: Net, ch: Choice, src: Node, dst: Node, rows: nat)
    requires InMesh(src, rows) && InMesh(dst, rows)
    ensures Intake(s, ch, src, dst)(RouteLength(src, dst)) == Flow(Taken(s.links(Out(dst, LOCAL))), src, dst)
  {
    PathFacts(src, dst, RouteLength(src, dst) - 1, rows);
  }

  lemma Telescope<F>(out: seq<F>, kept: seq<F>, held: seq<F>, into: seq<F>, rest': seq<F>, rest: seq<F>, last: seq<F>)
    requires held + into == out + kept
    requires into + rest' == rest + last
    ensures out + (kept + rest') == held + rest + last
  {
    assert out + (kept + rest') == (out + kept) + rest';
    assert (held + into) + rest' == held + (into + rest');
    assert held + (rest + last) == held + rest + last;
  }

  /** When every queue of a line passes on to the next, what leaves the front of the line plus
      what stays is what was there plus what came in at the back. */
  lemma {:induction false} LineStep<F>(held: nat -> seq<F>, kept: nat -> seq<F>, into: nat -> seq<F>, k: nat)
    requires forall j: nat :: j < k ==> held(j) + into(j) == into(j + 1) + kept(j)
    ensures into(k) + Joined(kept, k) == Joined(held, k) + into(0)
  {
    if k > 0 {
      LineStep(held, kept, into, k - 1);
      Telescope(into(k), kept(k - 1), held(k - 1), into(k - 1), Joined(kept, k - 1), Joined(held, k - 1), into(0));
    }
  }

  lemma {:induction false} EmptyLine<F>(segment: nat -> seq<F>, k: nat)
    requires forall j: nat :: j < k ==> segment(j) == []
    ensures Joined(segment, k) == []
  {
    if k > 0 {
      EmptyLine(segment, k - 1);
    }
  }

  lemma InFlightStep(s: Net, ch: Choice, src: Node, dst: Node, rows: nat)
    requires LinksOk(s, rows) && Admissible(ch, rows) && InMesh(src, rows) && InMesh(dst, rows)
    ensures Flow(Taken(s.links(Out(dst, LOCAL))), src, dst) + InFlight(Step(s, ch, rows), src, dst) ==
            InFlight(s, src, dst) + Flow(ch.inject(src), src, dst)
  {
    forall j: nat | j < RouteLength(src, dst)
      ensures Segments(s, src, dst)(j) + Intake(s, ch, src, dst)(j) ==
              Intake(s, ch, src, dst)(j + 1) + Segments(Step(s, ch, rows), src, dst)(j)
    {
      FlowLinkStep(s, ch, src, dst, j, rows);
    }
    LineStep(Segments(s, src, dst), Segments(Step(s, ch, rows), src, dst), Intake(s, ch, src, dst), RouteLength(src, dst));
    FrontIsSink(s, ch, src, dst, rows);
  }

  lemma FlowStep(s: Net, ch: Choice, src: Node, dst: Node, rows: nat)
    requires LinksOk(s, rows) && Admissible(ch, rows) && InMesh(src, rows) && InMesh(dst, rows)
    requires FlowOk(s, src, dst)
    ensures FlowOk(Step(s, ch, rows), src, dst)
  {
    var t := Step(s, ch, rows);
    InFlightStep(s, ch, src, dst, rows);
    FlowAppend(s.injected(src), ch.inject(src), src, dst);
    FlowAppend(s.delivered(dst), Taken(s.links(Out(dst, LOCAL))), src, dst);
    Regroup(Flow(s.delivered(dst), src, dst), InFlight(s, src, dst), Flow(ch.inject(src), src, dst),
            Flow(Taken(s.links(Out(dst, LOCAL))), src, dst), InFlight(t, src, dst));
  }

  lemma DeliveriesStep(s: Net, ch: Choice, rows: nat)
    requires LinksOk(s, rows) && DeliveriesOk(s, rows)
    ensures DeliveriesOk(Step(s, ch, rows), rows)
  {
    forall n, f | InMesh(n, rows) && f in Step(s, ch, rows).delivered(n)
      ensures Dest(f) == n && InMesh(f.src, rows)
    {
      var sink := Out(n, LOCAL);
      assert ChanOk(s.links(sink), sink, rows);
      if f !in s.delivered(n) {
        TakenInContent(s.links(sink), f);
        assert FlitPlaced(sink, f, rows);
        PathFacts(f.src, Dest(f), RouteLength(f.src, Dest(f)) - HopsLeft(sink, Dest(f)), rows);
        RouteProgress(n, Dest(f), rows);
      }
    }
  }

  lemma StepKeepsNetOk(s: Net, ch: Choice, rows: nat)
    requires NetOk(s, rows) && Admissible(ch, rows)
    ensures NetOk(Step(s, ch, rows), rows)
  {
    forall c | ValidChan(c, rows)
      ensures ChanOk(Step(s, ch, rows).links(c), c, rows)
    {
      LinkStep(s, ch, c, rows);
    }
    DeliveriesStep(s, ch, rows);
    forall src, dst | InMesh(src, rows) && InMesh(dst, rows)
      ensures FlowOk(Step(s, ch, rows), src, dst)
    {
      FlowStep(s, ch, src, dst, rows);
    }
  }

  // ---- every run ----

  ghost predicate AllAdmissible(choices: seq<Choice>, rows: nat) {
    forall i | 0 <= i < |choices| :: Admissible(choices[i], rows)
  }

  lemma {:induction false} RunKeepsNetOk(choices: seq<Choice>, rows: nat)
    requires AllAdmissible(choices, rows)
    ensures NetOk(Run(Reset(), choices, rows), rows)
  {
    if choices == [] {
      forall src, dst | InMesh(src, rows) && InMesh(dst, rows)
        ensures FlowOk(Reset(), src, dst)
      {
        EmptyLine(Segments(Reset(), src, dst), RouteLength(src, dst));
      }
    } else {
      RunKeepsNetOk(choices[..|choices| - 1], rows);
      StepKeepsNetOk(Run(Reset(), choices[..|choices| - 1], rows), choices[|choices| - 1], rows);
    }
  }

  /** What the injector of a node was given over a run. */
  function Given(choices: seq<Choice>, n: Node): seq<Flit> {
    if choices == [] then [] else Given(choices[..|choices| - 1], n) + choices[|choices| - 1].inject(n)
  }

  lemma {:induction false} InjectedIsGiven(choices: seq<Choice>, n: Node, rows: nat)
    ensures Run(Reset(), choices, rows).injected(n) == Given(choices, n)
  {
    if choices != [] {
      InjectedIsGiven(choices[..|choices| - 1], n, rows);
    }
  }

  /** In a mesh of any height, under any traffic and any order of the processes: what the sink
      of `dst` got from `src` is a prefix of what `src` injected for `dst`, in injection order
      and each flit once; the rest of it is under way on the links of their route; and no sink
      ever gets a flit meant for another node. */
  lemma EndToEndOrder(choices: seq<Choice>, src: Node, dst: Node, rows: nat)
    requires AllAdmissible(choices, rows) && InMesh(src, rows) && InMesh(dst, rows)
    ensures var s := Run(Reset(), choices, rows);
            && s.injected(src) == Given(choices, src)
            && Flow(s.delivered(dst), src, dst) + InFlight(s, src, dst) == Flow(s.injected(src), src, dst)
            && Flow(s.delivered(dst), src, dst) <= Flow(s.injected(src), src, dst)
            && forall f | f in s.delivered(dst) :: Dest(f) == dst && InMesh(f.src, rows) && f in s.injected(f.src)
  {
    var s := Run(Reset(), choices, rows);
    RunKeepsNetOk(choices, rows);
    InjectedIsGiven(choices, src, rows);
    assert FlowOk(s, src, dst);
    forall f | f in s.delivered(dst)
      ensures Dest(f) == dst && InMesh(f.src, rows) && f in s.injected(f.src)
    {
      assert FlowOk(s, f.src, dst);
      FlowExact(s.delivered(dst), f, f.src, dst);
      FlowExact(s.injected(f.src), f, f.src, dst);
    }
  }
}
