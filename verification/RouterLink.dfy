/** One registered req/ack link between two routers, seen at clock edges.

    The sender keeps a queue and runs the switching process; the receiver runs the routing
    process.  Both read the values the signals had before the edge, so a link moves through
    (req, ack) = (0,0), (1,0), (0,1) and back, and the sender removes a flit one edge after
    the receiver has taken it.
 */
module RouterLink {
  import opened Basics

  datatype Link<F> = Link(queue: seq<F>, req: bool, flit: F, ack: bool)

  /** The sender's switching process on one output: reads the old `req` and `ack`. */
  function Switch<F>(l: Link<F>): Link<F> {
    if |l.queue| > 0 && !l.req then
      if l.ack then
        Link(l.queue[1..], false, l.queue[0], l.ack)
      else
        Link(l.queue, true, l.queue[0], l.ack)
    else
      Link(l.queue, false, l.flit, l.ack)
  }

  /** The flit the receiver's routing process takes at this edge, if any. */
  function Taken<F>(l: Link<F>): seq<F> {
    if l.req && !l.ack then [l.flit] else []
  }

  /** One clock edge.  `arrivals` are pushed on the queue by the sender's own routing process,
      before the switching process when `routeFirst` holds and after it otherwise; the
      receiver answers on `ack`. */
  function Edge<F>(l: Link<F>, arrivals: seq<F>, routeFirst: bool): Link<F> {
    var before := if routeFirst then Link(l.queue + arrivals, l.req, l.flit, l.ack) else l;
    var switched := Switch(before);
    var after := if routeFirst then switched.queue else switched.queue + arrivals;
    Link(after, switched.req, switched.flit, l.req && !l.ack)
  }

  /** The flits the link still has to hand over: while `ack` is high the head of the queue is a
      stale copy of a flit the receiver already holds. */
  function Content<F>(l: Link<F>): seq<F> {
    if l.ack && |l.queue| > 0 then l.queue[1..] else l.queue
  }

  ghost predicate HandshakeInv<F>(l: Link<F>) {
    && !(l.req && l.ack)
    && (l.req ==> |l.queue| > 0 && l.flit == l.queue[0])
    && (l.ack ==> |l.queue| > 0)
  }

  /** Number of edges until the next hand-over, when there is something to hand over. */
  function Phase<F>(l: Link<F>): nat {
    if l.req then 1 else if l.ack then 3 else 2
  }

  lemma OfferedEdge<F>(l: Link<F>, arrivals: seq<F>, routeFirst: bool)
    requires HandshakeInv(l) && l.req
    ensures var n := Edge(l, arrivals, routeFirst);
            n.queue == l.queue + arrivals && !n.req && n.ack
            && Content(l) == Taken(l) + l.queue[1..] && Content(n) == l.queue[1..] + arrivals
  {
    assert l.queue == [l.queue[0]] + l.queue[1..];
  }

  lemma AcknowledgedEdge<F>(l: Link<F>, arrivals: seq<F>, routeFirst: bool)
    requires HandshakeInv(l) && l.ack
    ensures var n := Edge(l, arrivals, routeFirst);
            n.queue == l.queue[1..] + arrivals && !n.req && !n.ack
            && Taken(l) == [] && Content(l) == l.queue[1..] && Content(n) == n.queue
  {
    assert (l.queue + arrivals)[1..] == l.queue[1..] + arrivals;
  }

  lemma IdleEdge<F>(l: Link<F>, arrivals: seq<F>, routeFirst: bool)
    requires !l.req && !l.ack
    ensures var n := Edge(l, arrivals, routeFirst);
            HandshakeInv(n) && n.queue == l.queue + arrivals && !n.ack
            && Taken(l) == [] && Content(l) == l.queue && Content(n) == n.queue
  {
    assert |l.queue| > 0 ==> (l.queue + arrivals)[0] == l.queue[0];
  }

  /** Seen from outside, one edge is one step of a plain FIFO: the flit taken was the head of
      the content and the arrivals join its tail, whichever process ran first. */
  lemma EdgeIsFifoStep<F>(l: Link<F>, arrivals: seq<F>, routeFirst: bool)
    requires HandshakeInv(l)
    ensures HandshakeInv(Edge(l, arrivals, routeFirst))
    ensures Content(l) + arrivals == Taken(l) + Content(Edge(l, arrivals, routeFirst))
  {
    hide Edge, Content, Taken;
    if l.req {
      OfferedEdge(l, arrivals, routeFirst);
      Associate(Taken(l), l.queue[1..], arrivals);
    } else if l.ack {
      AcknowledgedEdge(l, arrivals, routeFirst);
    } else {
      IdleEdge(l, arrivals, routeFirst);
    }
  }

  /** A link with something to hand over does so within `Phase` edges, at most three. */
  lemma PhaseCountsDown<F>(l: Link<F>, arrivals: seq<F>, routeFirst: bool)
    requires HandshakeInv(l) && |Content(l)| > 0
    ensures Phase(l) == 1 <==> Taken(l) == Content(l)[..1]
    ensures Phase(l) == 1 <==> Taken(l) != []
    ensures Phase(l) > 1 ==> Phase(Edge(l, arrivals, routeFirst)) == Phase(l) - 1
  {
  }

  /** Number of edges until the first `k` flits of the content have been handed over. */
  function Turns<F>(l: Link<F>, k: nat): nat {
    if k == 0 then 0 else 3 * (k - 1) + Phase(l)
  }

  /** Whatever arrives, an edge brings the first flits of the content one edge closer to their
      hand-over. */
  lemma EdgeServes<F>(l: Link<F>, arrivals: seq<F>, routeFirst: bool, first: seq<F>, later: seq<F>)
    requires HandshakeInv(l) && Content(l) == first + later && first != []
    ensures var n := Edge(l, arrivals, routeFirst);
            var rest := if Phase(l) == 1 then first[1..] else first;
            && Taken(l) + rest == first
            && Content(n) == rest + (later + arrivals)
            && Turns(n, |rest|) == Turns(l, |first|) - 1
  {
    hide Edge, Content;
    EdgeIsFifoStep(l, arrivals, routeFirst);
    PhaseCountsDown(l, arrivals, routeFirst);
    var n := Edge(l, arrivals, routeFirst);
    if l.req {
      OfferedEdge(l, arrivals, routeFirst);
      assert Taken(l) == first[..1];
      assert first + (later + arrivals) == Taken(l) + (first[1..] + (later + arrivals));
    } else {
      assert Taken(l) == [] && [] + Content(n) == Content(n);
      Associate(first, later, arrivals);
    }
  }

  // ---- whole runs of one link ----

  datatype LinkTick<F> = LinkTick(arrivals: seq<F>, routeFirst: bool)
  datatype LinkRun<F> = LinkRun(link: Link<F>, pushed: seq<F>, received: seq<F>)

  function RunStep<F>(r: LinkRun<F>, t: LinkTick<F>): LinkRun<F> {
    LinkRun(Edge(r.link, t.arrivals, t.routeFirst), r.pushed + t.arrivals, r.received + Taken(r.link))
  }

  /** Everything that happened on a link, from reset (both signals low, queue empty). */
  function RunLink<F>(idle: F, ticks: seq<LinkTick<F>>): LinkRun<F> {
    if ticks == [] then LinkRun(Link([], false, idle, false), [], [])
    else RunStep(RunLink(idle, ticks[..|ticks| - 1]), ticks[|ticks| - 1])
  }

  ghost predicate LinkOk<F>(r: LinkRun<F>) {
    HandshakeInv(r.link) && r.received + Content(r.link) == r.pushed
  }

  lemma Regroup<F>(log: seq<F>, owed: seq<F>, arrivals: seq<F>, taken: seq<F>, left: seq<F>)
    requires owed + arrivals == taken + left
    ensures log + taken + left == log + owed + arrivals
  {
    assert log + taken + left == log + (taken + left);
    assert log + owed + arrivals == log + (owed + arrivals);
  }

  lemma RunStepKeepsLinkOk<F>(r: LinkRun<F>, t: LinkTick<F>)
    requires LinkOk(r)
    ensures LinkOk(RunStep(r, t))
  {
    EdgeIsFifoStep(r.link, t.arrivals, t.routeFirst);
    Regroup(r.received, Content(r.link), t.arrivals, Taken(r.link), Content(RunStep(r, t).link));
  }

  /** In every reachable state req and ack are not both high, and what was received followed by
      what the sender still owes is everything that was pushed: exactly once and in order. */
  lemma {:induction false} LinkExactlyOnceInOrder<F>(idle: F, ticks: seq<LinkTick<F>>)
    ensures LinkOk(RunLink(idle, ticks))
    ensures var r := RunLink(idle, ticks);
            !(r.link.req && r.link.ack) && r.received + Content(r.link) == r.pushed
  {
    if ticks != [] {
      LinkExactlyOnceInOrder(idle, ticks[..|ticks| - 1]);
      RunStepKeepsLinkOk(RunLink(idle, ticks[..|ticks| - 1]), ticks[|ticks| - 1]);
    }
  }
}
