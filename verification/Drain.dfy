/** How long the mesh takes to empty once injection stops. */
module Drain {
  import opened XYRouting
  import opened RouterLink
  import opened Router
  import opened Network

  // ---- sums over the routers of a mesh ----

  function Sum(g: int -> int, m: nat): int {
    if m == 0 then 0 else Sum(g, m - 1) + g(m - 1)
  }

  lemma {:induction false} SumEqual(g: int -> int, h: int -> int, m: nat)
    requires forall i :: 0 <= i < m ==> g(i) == h(i)
    ensures Sum(g, m) == Sum(h, m)
  {
    if m > 0 {
      SumEqual(g, h, m - 1);
    }
  }

  lemma {:induction false} SumBalance(a: int -> int, b: int -> int, c: int -> int, d: int -> int, e: int -> int, m: nat)
    requires forall i :: 0 <= i < m ==> a(i) + b(i) + c(i) == d(i) + e(i)
    ensures Sum(a, m) + Sum(b, m) + Sum(c, m) == Sum(d, m) + Sum(e, m)
  {
    if m > 0 {
      SumBalance(a, b, c, d, e, m - 1);
    }
  }

  lemma {:induction false} SumOfFive(f: int -> int, a: int -> int, b: int -> int, c: int -> int, d: int -> int, e: int -> int, m: nat)
    requires forall i :: 0 <= i < m ==> f(i) == a(i) + b(i) + c(i) + d(i) + e(i)
    ensures Sum(f, m) == Sum(a, m) + Sum(b, m) + Sum(c, m) + Sum(d, m) + Sum(e, m)
  {
    if m > 0 {
      SumOfFive(f, a, b, c, d, e, m - 1);
    }
  }

  /** A window of `m` terms can slide over terms that are zero. */
  lemma {:induction false} SumShift(g: int -> int, step: nat, m: nat)
    ensures Sum(i => g(i + step), m) == Sum(g, m + step) - Sum(g, step)
  {
    if m > 0 {
      SumShift(g, step, m - 1);
    }
  }

  lemma {:induction false} SumOfZeros(g: int -> int, m: nat)
    requires forall i :: 0 <= i < m ==> g(i) == 0
    ensures Sum(g, m) == 0
  {
    if m > 0 {
      SumOfZeros(g, m - 1);
    }
  }

  lemma {:induction false} SumZeroTail(g: int -> int, m: nat, extra: nat)
    requires forall i :: m <= i < m + extra ==> g(i) == 0
    ensures Sum(g, m + extra) == Sum(g, m)
  {
    if extra > 0 {
      SumZeroTail(g, m, extra - 1);
    }
  }

  lemma {:induction false} SumBounds(g: int -> int, m: nat, k: int)
    requires forall i :: 0 <= i < m ==> g(i) >= 0
    requires 0 <= k < m
    ensures 0 <= g(k) <= Sum(g, m)
  {
    if k < m - 1 {
      SumBounds(g, m - 1, k);
    } else {
      SumNonNegative(g, m - 1);
    }
  }

  lemma {:induction false} SumNonNegative(g: int -> int, m: nat)
    requires forall i :: 0 <= i < m ==> g(i) >= 0
    ensures Sum(g, m) >= 0
  {
    if m > 0 {
      SumNonNegative(g, m - 1);
    }
  }

  lemma {:induction false} SumPositive(g: int -> int, m: nat) returns (k: int)
    requires Sum(g, m) > 0
    ensures 0 <= k < m && g(k) > 0
  {
    if g(m - 1) > 0 {
      k := m - 1;
    } else {
      k := SumPositive(g, m - 1);
    }
  }

  /** The routers of a mesh in row-major order. */
  function NodeAt(i: int): Node {
    Node(i % COLUMNS, i / COLUMNS)
  }

  function Size(rows: nat): nat {
    4 * rows
  }

  lemma NodesOfMesh(i: int, rows: nat)
    ensures InMesh(NodeAt(i), rows) <==> 0 <= i < Size(rows)
  {
  }

  function IndexOf(n: Node): int {
    COLUMNS * n.y + n.x
  }

  lemma NodeIndex(n: Node, rows: nat)
    requires InMesh(n, rows)
    ensures 0 <= IndexOf(n) < Size(rows) && NodeAt(IndexOf(n)) == n
  {
  }

  // ---- the hops left in the network ----

  /** Links still to be crossed by the flits `fs`, all standing in link `c`. */
  function FlitHops(fs: seq<Flit>, c: Chan): nat {
    if fs == [] then 0 else FlitHops(fs[..|fs| - 1], c) + HopsLeft(c, Dest(fs[|fs| - 1]))
  }

  function LinkHops(s: Net, c: Chan): nat {
    FlitHops(Content(s.links(c)), c)
  }

  /** `g` summed over the injector's link and the five output links of one node. */
  function OverLinks(g: Chan -> int, n: Node): int {
    g(Inject(n)) + g(Out(n, NORTH)) + g(Out(n, EAST)) + g(Out(n, SOUTH)) + g(Out(n, WEST)) + g(Out(n, LOCAL))
  }

  function OverMesh(g: Chan -> int, rows: nat): int {
    Sum(i => OverLinks(g, NodeAt(i)), Size(rows))
  }

  /** The remaining hops of every flit in the network, injection and ejection included. */
  function TotalHops(s: Net, rows: nat): int {
    OverMesh(c => LinkHops(s, c), rows)
  }

  /** The number of links that hand a flit over at the next edge. */
  function Moves(s: Net, rows: nat): int {
    OverMesh(c => |Taken(s.links(c))|, rows)
  }

  lemma {:induction false} FlitHopsAppend(a: seq<Flit>, b: seq<Flit>, c: Chan)
    ensures FlitHops(a + b, c) == FlitHops(a, c) + FlitHops(b, c)
  {
    if b == [] {
      assert a + b == a;
    } else {
      assert (a + b)[..|a + b| - 1] == a + b[..|b| - 1];
      FlitHopsAppend(a, b[..|b| - 1], c);
    }
  }

  lemma FlitHopsOfOne(f: Flit, c: Chan)
    ensures FlitHops([f], c) == HopsLeft(c, Dest(f))
  {
    assert [f][..0] == [];
  }

  /** What an accepted input adds to the hops waiting at the outputs of `n`. */
  function InputHops(s: Net, n: Node, port: Dir, rows: nat): nat {
    var i := InputAt(s, n, port, rows);
    if Accepts(i) then Distance(n, Dest(i.flit)) + 1 else 0
  }

  function FirstInputHops(s: Net, n: Node, k: nat, rows: nat): nat
    requires k <= PORTS
  {
    if k == 0 then 0 else FirstInputHops(s, n, k - 1, rows) + InputHops(s, n, k - 1, rows)
  }

  function RoutedHops(s: Net, n: Node, d: Dir, k: nat, rows: nat): nat
    requires k <= PORTS
  {
    FlitHops(Routed(n, InputsAt(s, n, rows), d, k), Out(n, d))
  }

  lemma RoutedHopsGrow(s: Net, n: Node, d: Dir, k: nat, rows: nat)
    requires 1 <= k <= PORTS
    ensures var i := InputAt(s, n, k - 1, rows);
            RoutedHops(s, n, d, k, rows) == RoutedHops(s, n, d, k - 1, rows) +
            if Accepts(i) && ComputeRoute(n, i.flit.header) == d then Distance(n, Dest(i.flit)) + 1 else 0
  {
    var inputs := InputsAt(s, n, rows);
    var i := inputs[k - 1];
    FlitHopsAppend(Routed(n, inputs, d, k - 1), Contribution(n, i, d), Out(n, d));
    FlitHopsOfOne(i.flit, Out(n, d));
  }

  /** Each accepted flit goes to exactly one output. */
  lemma {:induction false} RoutedHopsSum(s: Net, n: Node, k: nat, rows: nat)
    requires k <= PORTS
    ensures RoutedHops(s, n, NORTH, k, rows) + RoutedHops(s, n, EAST, k, rows) + RoutedHops(s, n, SOUTH, k, rows)
            + RoutedHops(s, n, WEST, k, rows) + RoutedHops(s, n, LOCAL, k, rows) == FirstInputHops(s, n, k, rows)
  {
    if k > 0 {
      RoutedHopsSum(s, n, k - 1, rows);
      RoutedHopsGrow(s, n, NORTH, k, rows);
      RoutedHopsGrow(s, n, EAST, k, rows);
      RoutedHopsGrow(s, n, SOUTH, k, rows);
      RoutedHopsGrow(s, n, WEST, k, rows);
      RoutedHopsGrow(s, n, LOCAL, k, rows);
    }
  }

  /** Hops left to the flit a link hands over, after the hand-over. */
  function HopsOn(s: Net, c: Chan): int {
    FlitHops(Taken(s.links(c)), c) - |Taken(s.links(c))|
  }

  lemma LinkHandsOn(s: Net, c: Chan, rows: nat)
    requires LinksOk(s, rows) && ValidChan(c, rows)
    ensures !Answered(c, rows) ==> Taken(s.links(c)) == []
    ensures c.Out? && c.dir == LOCAL ==> HopsOn(s, c) == 0
    ensures HopsOn(s, c) >= 0
  {
    var l := s.links(c);
    assert ChanOk(l, c, rows);
    if Taken(l) != [] {
      var f := l.flit;
      TakenInContent(l, f);
      FlitHopsOfOne(f, c);
      assert FlitPlaced(c, f, rows);
      PathFacts(f.src, Dest(f), RouteLength(f.src, Dest(f)) - HopsLeft(c, Dest(f)), rows);
      RouteProgress(c.node, Dest(f), rows);
    }
  }

  lemma InputHopsIsHopsOn(s: Net, n: Node, port: Dir, rows: nat)
    requires LinksOk(s, rows) && InMesh(n, rows)
    ensures InputHops(s, n, port, rows) == if Fed(n, port, rows) then HopsOn(s, Feed(n, port)) else 0
  {
    if Fed(n, port, rows) {
      var c := Feed(n, port);
      var l := s.links(c);
      assert ChanOk(l, c, rows);
      if Taken(l) != [] {
        TakenInContent(l, l.flit);
        FlitHopsOfOne(l.flit, c);
        FlowMovesOn(n, port, l.flit.src, Dest(l.flit), rows);
      }
    }
  }

  // ---- what flows into the routers is what flows out of their neighbours ----

  /** Hops that enter router number `i` through one side, and hops that leave it through one
      side; zero outside the mesh. */
  function Entering(s: Net, port: Dir, rows: nat): int -> int {
    i => if InMesh(NodeAt(i), rows) then InputHops(s, NodeAt(i), port, rows) else 0
  }

  function Leaving(s: Net, dir: Dir, rows: nat): int -> int {
    i => if InMesh(NodeAt(i), rows) then HopsOn(s, Out(NodeAt(i), dir)) else 0
  }

  /** Distance in row-major order to the router a port faces. */
  function Stride(port: Dir): nat {
    if port == EAST || port == WEST then 1 else 4
  }

  /** `m` terms and the same terms `step` places on, with nothing at either end. */
  lemma ShiftForward(g: int -> int, h: int -> int, step: nat, m: nat)
    requires forall i :: 0 <= i < m ==> g(i) == h(i + step)
    requires forall i :: 0 <= i < step ==> h(i) == 0
    requires forall i :: m <= i < m + step ==> h(i) == 0
    ensures Sum(g, m) == Sum(h, m)
  {
    SumEqual(g, i => h(i + step), m);
    SumShift(h, step, m);
    SumOfZeros(h, step);
    SumZeroTail(h, m, step);
  }

  /** The router a stride further on is the one that port faces, or else neither port of that
      pair faces anything in the mesh. */
  lemma Facing(i: int, port: Dir, rows: nat)
    requires (port == EAST || port == SOUTH) && 0 <= i < Size(rows)
    ensures InMesh(NodeAt(i), rows)
    ensures var n, m := NodeAt(i), NodeAt(i + Stride(port));
            && (InMesh(Neighbor(n, port), rows) ==> m == Neighbor(n, port) && Neighbor(m, Opposite(port)) == n)
            && (!InMesh(Neighbor(n, port), rows) && InMesh(m, rows) ==> !InMesh(Neighbor(m, Opposite(port)), rows))
  {
    NodesOfMesh(i, rows);
  }

  lemma EnteringAt(s: Net, port: Dir, i: int, rows: nat)
    requires LinksOk(s, rows) && port != LOCAL
    ensures Entering(s, port, rows)(i) ==
            if InMesh(NodeAt(i), rows) && InMesh(Neighbor(NodeAt(i), port), rows) then
              HopsOn(s, Out(Neighbor(NodeAt(i), port), Opposite(port)))
            else 0
  {
    if InMesh(NodeAt(i), rows) {
      InputHopsIsHopsOn(s, NodeAt(i), port, rows);
    }
  }

  lemma LeavingAt(s: Net, dir: Dir, i: int, rows: nat)
    requires LinksOk(s, rows) && dir != LOCAL
    ensures Leaving(s, dir, rows)(i) ==
            if InMesh(NodeAt(i), rows) && InMesh(Neighbor(NodeAt(i), dir), rows) then HopsOn(s, Out(NodeAt(i), dir)) else 0
  {
    if InMesh(NodeAt(i), rows) {
      LinkHandsOn(s, Out(NodeAt(i), dir), rows);
    }
  }

  lemma Upstream(s: Net, port: Dir, i: int, rows: nat)
    requires LinksOk(s, rows) && (port == EAST || port == SOUTH) && 0 <= i < Size(rows)
    ensures Entering(s, port, rows)(i) == Leaving(s, Opposite(port), rows)(i + Stride(port))
    ensures Leaving(s, port, rows)(i) == Entering(s, Opposite(port), rows)(i + Stride(port))
  {
    hide LinksOk, HopsOn, Entering, Leaving, InputHops, NodeAt;
    Facing(i, port, rows);
    EnteringAt(s, port, i, rows);
    LeavingAt(s, port, i, rows);
    EnteringAt(s, Opposite(port), i + Stride(port), rows);
    LeavingAt(s, Opposite(port), i + Stride(port), rows);
  }

  lemma NothingBeyond(s: Net, port: Dir, i: int, rows: nat)
    requires LinksOk(s, rows) && (port == EAST || port == SOUTH)
    requires 0 <= i < Stride(port) || Size(rows) <= i
    ensures Entering(s, Opposite(port), rows)(i) == 0 && Leaving(s, Opposite(port), rows)(i) == 0
  {
    NodesOfMesh(i, rows);
    EnteringAt(s, Opposite(port), i, rows);
    LeavingAt(s, Opposite(port), i, rows);
  }

  lemma SideBalance(s: Net, port: Dir, rows: nat)
    requires LinksOk(s, rows) && (port == EAST || port == SOUTH)
    ensures Sum(Entering(s, port, rows), Size(rows)) == Sum(Leaving(s, Opposite(port), rows), Size(rows))
    ensures Sum(Leaving(s, port, rows), Size(rows)) == Sum(Entering(s, Opposite(port), rows), Size(rows))
  {
    SlideOver(s, port, rows, Entering(s, port, rows), Leaving(s, Opposite(port), rows));
    SlideOver(s, port, rows, Leaving(s, port, rows), Entering(s, Opposite(port), rows));
  }

  lemma SlideOver(s: Net, port: Dir, rows: nat, g: int -> int, h: int -> int)
    requires LinksOk(s, rows) && (port == EAST || port == SOUTH)
    requires || (g == Entering(s, port, rows) && h == Leaving(s, Opposite(port), rows))
             || (g == Leaving(s, port, rows) && h == Entering(s, Opposite(port), rows))
    ensures Sum(g, Size(rows)) == Sum(h, Size(rows))
  {
    hide LinksOk, Entering, Leaving, Sum, Opposite;
    forall i | 0 <= i < Size(rows)
      ensures g(i) == h(i + Stride(port))
    {
      Upstream(s, port, i, rows);
    }
    forall i | 0 <= i < Stride(port) || Size(rows) <= i
      ensures h(i) == 0
    {
      NothingBeyond(s, port, i, rows);
    }
    ShiftForward(g, h, Stride(port), Size(rows));
  }

  // ---- one edge without injection ----

  ghost predicate Quiet(ch: Choice, rows: nat) {
    forall n | InMesh(n, rows) :: ch.inject(n) == []
  }

  /** At one router: what its links hold after an edge is what they held, less what was taken
      from them, plus what came in. */
  lemma NodeStep(s: Net, ch: Choice, n: Node, rows: nat)
    requires LinksOk(s, rows) && Quiet(ch, rows) && InMesh(n, rows)
    ensures OverLinks(c => LinkHops(Step(s, ch, rows), c), n) + OverLinks(c => HopsOn(s, c), n)
            + OverLinks(c => |Taken(s.links(c))|, n)
            == OverLinks(c => LinkHops(s, c), n) + FirstInputHops(s, n, PORTS, rows)
  {
    LinkStepHops(s, ch, Inject(n), rows);
    LinkStepHops(s, ch, Out(n, NORTH), rows);
    LinkStepHops(s, ch, Out(n, EAST), rows);
    LinkStepHops(s, ch, Out(n, SOUTH), rows);
    LinkStepHops(s, ch, Out(n, WEST), rows);
    LinkStepHops(s, ch, Out(n, LOCAL), rows);
    RoutedHopsSum(s, n, PORTS, rows);
  }

  lemma LinkStepHops(s: Net, ch: Choice, c: Chan, rows: nat)
    requires LinksOk(s, rows) && Quiet(ch, rows) && ValidChan(c, rows)
    ensures LinkHops(Step(s, ch, rows), c) + HopsOn(s, c) + |Taken(s.links(c))| ==
            LinkHops(s, c) + if c.Out? then RoutedHops(s, c.node, c.dir, PORTS, rows) else 0
  {
    LinkStep(s, ch, c, rows);
    FlitHopsAppend(Content(s.links(c)), Arrivals(s, ch, c, rows), c);
    FlitHopsAppend(Taken(s.links(c)), Content(NextLink(s, ch, c, rows)), c);
  }

  /** Hops on their way into router number `i`, over all its inputs. */
  function Inflow(s: Net, rows: nat): int -> int {
    i => FirstInputHops(s, NodeAt(i), PORTS, rows)
  }

  function Outflow(s: Net): int -> int {
    i => OverLinks(c => HopsOn(s, c), NodeAt(i))
  }

  function Injecting(s: Net): int -> int {
    i => HopsOn(s, Inject(NodeAt(i)))
  }

  lemma FlowsAt(s: Net, i: int, rows: nat)
    requires LinksOk(s, rows) && 0 <= i < Size(rows)
    ensures Inflow(s, rows)(i) == Injecting(s)(i) + Entering(s, NORTH, rows)(i) + Entering(s, EAST, rows)(i)
                                  + Entering(s, SOUTH, rows)(i) + Entering(s, WEST, rows)(i)
    ensures Outflow(s)(i) == Injecting(s)(i) + Leaving(s, NORTH, rows)(i) + Leaving(s, EAST, rows)(i)
                             + Leaving(s, SOUTH, rows)(i) + Leaving(s, WEST, rows)(i)
  {
    var n := NodeAt(i);
    NodesOfMesh(i, rows);
    InputHopsIsHopsOn(s, n, LOCAL, rows);
    LinkHandsOn(s, Out(n, LOCAL), rows);
    assert FirstInputHops(s, n, PORTS, rows) == FirstInputHops(s, n, 3, rows) + InputHops(s, n, 3, rows) + InputHops(s, n, 4, rows);
    assert FirstInputHops(s, n, 3, rows) == FirstInputHops(s, n, 1, rows) + InputHops(s, n, 1, rows) + InputHops(s, n, 2, rows);
    assert FirstInputHops(s, n, 1, rows) == InputHops(s, n, 0, rows);
  }

  /** Over the whole mesh, what comes into the routers is what their neighbours let go. */
  lemma MeshBalance(s: Net, rows: nat)
    requires LinksOk(s, rows)
    ensures Sum(Inflow(s, rows), Size(rows)) == Sum(Outflow(s), Size(rows))
  {
    forall i | 0 <= i < Size(rows)
      ensures Inflow(s, rows)(i) == Injecting(s)(i) + Entering(s, NORTH, rows)(i) + Entering(s, EAST, rows)(i)
                                    + Entering(s, SOUTH, rows)(i) + Entering(s, WEST, rows)(i)
      ensures Outflow(s)(i) == Injecting(s)(i) + Leaving(s, NORTH, rows)(i) + Leaving(s, EAST, rows)(i)
                               + Leaving(s, SOUTH, rows)(i) + Leaving(s, WEST, rows)(i)
    {
      FlowsAt(s, i, rows);
    }
    SumOfFive(Inflow(s, rows), Injecting(s), Entering(s, NORTH, rows), Entering(s, EAST, rows),
              Entering(s, SOUTH, rows), Entering(s, WEST, rows), Size(rows));
    SumOfFive(Outflow(s), Injecting(s), Leaving(s, NORTH, rows), Leaving(s, EAST, rows),
              Leaving(s, SOUTH, rows), Leaving(s, WEST, rows), Size(rows));
    SideBalance(s, EAST, rows);
    SideBalance(s, SOUTH, rows);
  }

  /** Without injection, an edge takes exactly one hop off the total for every link that hands a
      flit over. */
  lemma HopsFallByMoves(s: Net, ch: Choice, rows: nat)
    requires LinksOk(s, rows) && Quiet(ch, rows)
    ensures TotalHops(Step(s, ch, rows), rows) == TotalHops(s, rows) - Moves(s, rows)
  {
    var t := Step(s, ch, rows);
    var left: int -> int := i => OverLinks(c => LinkHops(t, c), NodeAt(i));
    var held: int -> int := i => OverLinks(c => LinkHops(s, c), NodeAt(i));
    var moved: int -> int := i => OverLinks(c => |Taken(s.links(c))|, NodeAt(i));
    forall i | 0 <= i < Size(rows)
      ensures left(i) + Outflow(s)(i) + moved(i) == held(i) + Inflow(s, rows)(i)
    {
      NodesOfMesh(i, rows);
      NodeStep(s, ch, NodeAt(i), rows);
    }
    SumBalance(left, Outflow(s), moved, held, Inflow(s, rows), Size(rows));
    MeshBalance(s, rows);
    SumEqual(left, i => OverLinks(c => LinkHops(t, c), NodeAt(i)), Size(rows));
    SumEqual(held, i => OverLinks(c => LinkHops(s, c), NodeAt(i)), Size(rows));
    SumEqual(moved, i => OverLinks(c => |Taken(s.links(c))|, NodeAt(i)), Size(rows));
  }

  // ---- the bound ----

  lemma OverLinksBounds(g: Chan -> int, c: Chan)
    requires forall d :: g(d) >= 0
    ensures 0 <= g(c) <= OverLinks(g, c.node)
  {
    assert c == Inject(c.node) || c == Out(c.node, c.dir);
  }

  lemma OverMeshBounds(g: Chan -> int, c: Chan, rows: nat)
    requires forall d :: g(d) >= 0
    ensures OverMesh(g, rows) >= 0
    ensures ValidChan(c, rows) ==> g(c) <= OverMesh(g, rows)
  {
    forall i
      ensures OverLinks(g, NodeAt(i)) >= 0
    {
      OverLinksBounds(g, Inject(NodeAt(i)));
    }
    SumNonNegative(i => OverLinks(g, NodeAt(i)), Size(rows));
    if ValidChan(c, rows) {
      NodeIndex(c.node, rows);
      SumBounds(i => OverLinks(g, NodeAt(i)), Size(rows), IndexOf(c.node));
      OverLinksBounds(g, c);
    }
  }

  lemma MovesFrom(s: Net, c: Chan, rows: nat)
    ensures Moves(s, rows) >= 0
    ensures ValidChan(c, rows) && Taken(s.links(c)) != [] ==> Moves(s, rows) > 0
  {
    OverMeshBounds(d => |Taken(s.links(d))|, c, rows);
  }

  lemma {:induction false} FlitHopsPositive(fs: seq<Flit>, c: Chan)
    ensures FlitHops(fs, c) > 0 <==> fs != []
  {
    if fs != [] {
      FlitHopsPositive(fs[..|fs| - 1], c);
    }
  }

  /** Hops are left exactly when some link still holds a flit. */
  lemma SomeLinkHolds(s: Net, rows: nat) returns (c: Chan)
    requires TotalHops(s, rows) > 0
    ensures ValidChan(c, rows) && Content(s.links(c)) != []
  {
    var i := SumPositive(i => OverLinks(d => LinkHops(s, d), NodeAt(i)), Size(rows));
    NodesOfMesh(i, rows);
    var n := NodeAt(i);
    c := if LinkHops(s, Inject(n)) > 0 then Inject(n)
         else if LinkHops(s, Out(n, NORTH)) > 0 then Out(n, NORTH)
         else if LinkHops(s, Out(n, EAST)) > 0 then Out(n, EAST)
         else if LinkHops(s, Out(n, SOUTH)) > 0 then Out(n, SOUTH)
         else if LinkHops(s, Out(n, WEST)) > 0 then Out(n, WEST)
         else Out(n, LOCAL);
    FlitHopsPositive(Content(s.links(c)), c);
  }

  lemma NoHopsNoFlits(s: Net, c: Chan, rows: nat)
    requires TotalHops(s, rows) <= 0 && ValidChan(c, rows)
    ensures Content(s.links(c)) == []
  {
    OverMeshBounds(d => LinkHops(s, d), c, rows);
    FlitHopsPositive(Content(s.links(c)), c);
  }

  ghost predicate AllQuiet(choices: seq<Choice>, rows: nat) {
    forall i | 0 <= i < |choices| :: Quiet(choices[i], rows)
  }

  /** The network after the first `t` edges. */
  function After(s: Net, choices: seq<Choice>, t: nat, rows: nat): Net
    requires t <= |choices|
  {
    Run(s, choices[..t], rows)
  }

  lemma AfterNext(s: Net, choices: seq<Choice>, t: nat, rows: nat)
    requires t < |choices|
    ensures After(s, choices, t + 1, rows) == Step(After(s, choices, t, rows), choices[t], rows)
  {
    assert choices[..t + 1][..t] == choices[..t];
  }

  lemma QuietStep(s: Net, ch: Choice, rows: nat)
    requires NetOk(s, rows) && Quiet(ch, rows)
    ensures NetOk(Step(s, ch, rows), rows)
    ensures TotalHops(Step(s, ch, rows), rows) <= TotalHops(s, rows)
  {
    StepKeepsNetOk(s, ch, rows);
    HopsFallByMoves(s, ch, rows);
    MovesFrom(s, Inject(Node(0, 0)), rows);
  }

  lemma {:induction false} QuietRun(s: Net, choices: seq<Choice>, t: nat, u: nat, rows: nat)
    requires AllQuiet(choices, rows) && t <= u <= |choices| && NetOk(After(s, choices, t, rows), rows)
    ensures NetOk(After(s, choices, u, rows), rows)
    ensures TotalHops(After(s, choices, u, rows), rows) <= TotalHops(After(s, choices, t, rows), rows)
    decreases u - t
  {
    hide TotalHops, NetOk, After, Step;
    if t < u {
      QuietRun(s, choices, t, u - 1, rows);
      AfterNext(s, choices, u - 1, rows);
      QuietStep(After(s, choices, u - 1, rows), choices[u - 1], rows);
    }
  }

  lemma LinkCountsDown(s: Net, ch: Choice, c: Chan, rows: nat)
    requires LinksOk(s, rows) && Admissible(ch, rows) && ValidChan(c, rows) && Content(s.links(c)) != []
    ensures Phase(s.links(c)) == 1 ==> Taken(s.links(c)) != []
    ensures var l, n := s.links(c), NextLink(s, ch, c, rows);
            Phase(l) > 1 ==> Content(n) != [] && Phase(n) == Phase(l) - 1
  {
    var l := s.links(c);
    var first := if c.Inject? then ch.injectFirst(c.node) else ch.routeFirst(c.node);
    assert ChanOk(l, c, rows);
    PhaseCountsDown(l, Arrivals(s, ch, c, rows), first);
    LinkStep(s, ch, c, rows);
    NextLinkIsEdge(s, ch, c, rows);
  }

  /** One quiet edge, seen from a link that holds a flit. */
  lemma QuietEdgeAt(s: Net, ch: Choice, c: Chan, rows: nat)
    requires NetOk(s, rows) && Quiet(ch, rows) && ValidChan(c, rows) && Content(s.links(c)) != []
    ensures var t := Step(s, ch, rows);
            && NetOk(t, rows)
            && TotalHops(t, rows) <= TotalHops(s, rows)
            && if Phase(s.links(c)) == 1 then TotalHops(t, rows) < TotalHops(s, rows)
               else Content(t.links(c)) != [] && Phase(t.links(c)) == Phase(s.links(c)) - 1
  {
    QuietStep(s, ch, rows);
    LinkCountsDown(s, ch, c, rows);
    if Phase(s.links(c)) == 1 {
      HopsFallByMoves(s, ch, rows);
      MovesFrom(s, c, rows);
    }
  }

  /** A link that holds a flit hands one over within `Phase` edges: some flit advances at least
      every three cycles. */
  lemma {:induction false} AdvanceWithinPhase(s: Net, choices: seq<Choice>, t: nat, c: Chan, p: nat, rows: nat)
    requires AllQuiet(choices, rows) && ValidChan(c, rows) && t + p <= |choices| && NetOk(After(s, choices, t, rows), rows)
    requires var l := After(s, choices, t, rows).links(c); Content(l) != [] && Phase(l) == p
    ensures TotalHops(After(s, choices, t + p, rows), rows) < TotalHops(After(s, choices, t, rows), rows)
    decreases p
  {
    AfterNext(s, choices, t, rows);
    QuietEdgeAt(After(s, choices, t, rows), choices[t], c, rows);
    if p > 1 {
      AdvanceWithinPhase(s, choices, t + 1, c, p - 1, rows);
    }
  }

  lemma AdvanceWithinThree(s: Net, choices: seq<Choice>, t: nat, rows: nat)
    requires AllQuiet(choices, rows) && t + 3 <= |choices| && NetOk(After(s, choices, t, rows), rows)
    requires TotalHops(After(s, choices, t, rows), rows) > 0
    ensures TotalHops(After(s, choices, t + 3, rows), rows) < TotalHops(After(s, choices, t, rows), rows)
  {
    hide TotalHops, NetOk;
    var c := SomeLinkHolds(After(s, choices, t, rows), rows);
    var p := Phase(After(s, choices, t, rows).links(c));
    AdvanceWithinPhase(s, choices, t, c, p, rows);
    QuietRun(s, choices, t, t + p, rows);
    QuietRun(s, choices, t + p, t + 3, rows);
  }

  /** Three more edges take a hop off, or there is none left. */
  lemma ThreeMore(s: Net, choices: seq<Choice>, t: nat, rows: nat)
    requires AllQuiet(choices, rows) && t + 3 <= |choices| && NetOk(After(s, choices, t, rows), rows)
    ensures NetOk(After(s, choices, t + 3, rows), rows)
    ensures var before, after := TotalHops(After(s, choices, t, rows), rows), TotalHops(After(s, choices, t + 3, rows), rows);
            if before > 0 then after < before else after <= 0
  {
    hide TotalHops, NetOk;
    QuietRun(s, choices, t, t + 3, rows);
    if TotalHops(After(s, choices, t, rows), rows) > 0 {
      AdvanceWithinThree(s, choices, t, rows);
    }
  }

  lemma {:induction false} HopsAfterThrees(s: Net, choices: seq<Choice>, t: nat, k: nat, rows: nat)
    requires NetOk(s, rows) && AllQuiet(choices, rows) && t == 3 * k <= |choices|
    ensures NetOk(After(s, choices, t, rows), rows)
    ensures var left := TotalHops(After(s, choices, t, rows), rows);
            left <= 0 || left <= TotalHops(s, rows) - k
    decreases k
  {
    hide TotalHops, NetOk;
    if k > 0 {
      HopsAfterThrees(s, choices, t - 3, k - 1, rows);
      ThreeMore(s, choices, t - 3, rows);
    }
  }

  /** From any reachable state, three quiet edges per remaining hop empty every link. */
  lemma DrainsInTime(s: Net, choices: seq<Choice>, rows: nat)
    requires NetOk(s, rows) && AllQuiet(choices, rows) && |choices| >= 3 * TotalHops(s, rows)
    ensures NetOk(Run(s, choices, rows), rows)
    ensures forall c | ValidChan(c, rows) :: Content(Run(s, choices, rows).links(c)) == []
  {
    OverMeshBounds(c => LinkHops(s, c), Inject(Node(0, 0)), rows);
    var k := TotalHops(s, rows);
    HopsAfterThrees(s, choices, 3 * k, k, rows);
    QuietRun(s, choices, 3 * k, |choices|, rows);
    assert choices[..|choices|] == choices;
    forall c | ValidChan(c, rows)
      ensures Content(Run(s, choices, rows).links(c)) == []
    {
      NoHopsNoFlits(Run(s, choices, rows), c, rows);
    }
  }

  lemma EmptyLinksNothingInFlight(s: Net, src: Node, dst: Node, rows: nat)
    requires InMesh(src, rows) && InMesh(dst, rows)
    requires forall c | ValidChan(c, rows) :: Content(s.links(c)) == []
    ensures InFlight(s, src, dst) == []
  {
    forall j: nat | j < RouteLength(src, dst)
      ensures Segments(s, src, dst)(j) == []
    {
      PathFacts(src, dst, j, rows);
    }
    EmptyLine(Segments(s, src, dst), RouteLength(src, dst));
  }

  /** Whatever the traffic was: once injection has stopped for three cycles per remaining hop,
      every sink has got exactly what was injected for it, from every sender in order. */
  lemma EverythingIsDelivered(traffic: seq<Choice>, quiet: seq<Choice>, src: Node, dst: Node, rows: nat)
    requires AllAdmissible(traffic, rows) && AllQuiet(quiet, rows)
    requires InMesh(src, rows) && InMesh(dst, rows)
    requires |quiet| >= 3 * TotalHops(Run(Reset(), traffic, rows), rows)
    ensures var s := Run(Run(Reset(), traffic, rows), quiet, rows);
            Flow(s.delivered(dst), src, dst) == Flow(s.injected(src), src, dst)
  {
    var s := Run(Reset(), traffic, rows);
    RunKeepsNetOk(traffic, rows);
    DrainsInTime(s, quiet, rows);
    var t := Run(s, quiet, rows);
    EmptyLinksNothingInFlight(t, src, dst, rows);
    assert FlowOk(t, src, dst);
  }
}
