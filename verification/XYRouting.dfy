/** Where a router sends a flit: the coordinates, the direction choice and its geometry. */
module XYRouting {
  import opened Basics

  /** Port numbers of a router, in the order its port arrays use. */
  const NORTH: nat := 0
  const EAST: nat := 1
  const SOUTH: nat := 2
  const WEST: nat := 3
  const LOCAL: nat := 4
  const PORTS: nat := 5
  /** The number of columns the address decoding is written for. */
  const COLUMNS: int := 4

  type Dir = d: nat | d < 5

  datatype Node = Node(x: int, y: int)

  predicate InMesh(n: Node, rows: nat) {
    0 <= n.x < COLUMNS && 0 <= n.y < rows
  }

  /** The destination encoded in the low 16 bits of a flit header. */
  function Destination(header: nat): Node {
    var address := header % 0x1_0000;
    Node(address % 4, address / 4)
  }

  /** `compute_route` for a router that stands at `here`. */
  function ComputeRoute(here: Node, header: nat): Dir {
    Route(here, Destination(header))
  }

  function Route(here: Node, dest: Node): Dir {
    if here.x != dest.x then (if dest.x > here.x then EAST else WEST)
    else if here.y != dest.y then (if dest.y > here.y then SOUTH else NORTH)
    else LOCAL
  }

  // ---- which router a header addresses ----

  /** The address of a router is four times its row plus its column, whatever the upper bits say. */
  lemma DestinationOfAddress(n: Node, upper: nat)
    requires 0 <= n.x < COLUMNS && n.y >= 0 && 4 * n.y + n.x < 65536
    ensures Destination(65536 * upper + 4 * n.y + n.x) == n
  {
    var address := 4 * n.y + n.x;
    assert (65536 * upper + address) % 65536 == address;
    assert address % 4 == n.x && address / 4 == n.y;
  }

  /** And every header is read as the address of some router in one of the four columns. */
  lemma HeaderOfDestination(header: nat)
    ensures var d := Destination(header);
            0 <= d.x < COLUMNS && d.y >= 0 && 4 * d.y + d.x == header % 65536
  {
  }

  /** With the header of router `n`, a router in a lower column answers 1, in a higher one 3; in the
      same column 2 from a lower row and 0 from a higher one; and 4 at `n` itself. */
  lemma PortForAddress(here: Node, n: Node, upper: nat)
    requires 0 <= n.x < 4 && n.y >= 0 && 4 * n.y + n.x < 65536
    ensures var port := ComputeRoute(here, 65536 * upper + 4 * n.y + n.x);
            && (n.x > here.x ==> port == 1)
            && (n.x < here.x ==> port == 3)
            && (n.x == here.x && n.y > here.y ==> port == 2)
            && (n.x == here.x && n.y < here.y ==> port == 0)
            && (n == here ==> port == 4)
  {
    DestinationOfAddress(n, upper);
  }

  function Opposite(d: Dir): Dir {
    if d == LOCAL then LOCAL else (d + 2) % 4
  }

  /** The router a non-local port faces. */
  function Neighbor(n: Node, d: Dir): Node {
    if d == NORTH then Node(n.x, n.y - 1)
    else if d == EAST then Node(n.x + 1, n.y)
    else if d == SOUTH then Node(n.x, n.y + 1)
    else if d == WEST then Node(n.x - 1, n.y)
    else n
  }

  function Abs(i: int): nat {
    if i < 0 then -i else i
  }

  /** Manhattan distance. */
  function Distance(a: Node, b: Node): nat {
    Abs(a.x - b.x) + Abs(a.y - b.y)
  }

  /** One hop of the routing function stays in the mesh and comes one step closer; the local
      port is chosen at the destination and only there. */
  lemma RouteProgress(here: Node, dest: Node, rows: nat)
    requires InMesh(here, rows) && InMesh(dest, rows)
    ensures Route(here, dest) == LOCAL <==> here == dest
    ensures here != dest ==>
              var next := Neighbor(here, Route(here, dest));
              InMesh(next, rows) && Distance(next, dest) == Distance(here, dest) - 1
  {
  }

  // ---- the whole walk from one router to another ----

  /** The routers a flit visits from `here` to `dest`. */
  function Walk(here: Node, dest: Node): seq<Node>
    decreases Distance(here, dest)
  {
    if here == dest then [here]
    else [here] + Walk(Neighbor(here, Route(here, dest)), dest)
  }

  /** The walk has one router per unit of Manhattan distance plus one, starts and ends where it
      should, never leaves the mesh, and each hop takes the port the routing function names. */
  lemma {:induction false} WalkFollowsRoute(here: Node, dest: Node, rows: nat)
    requires InMesh(here, rows) && InMesh(dest, rows)
    ensures var w := Walk(here, dest);
            && |w| == Distance(here, dest) + 1
            && w[0] == here && w[|w| - 1] == dest
            && (forall i :: 0 <= i < |w| ==> InMesh(w[i], rows) && Distance(w[i], dest) == |w| - 1 - i)
            && (forall i :: 0 <= i < |w| - 1 ==> Route(w[i], dest) != LOCAL && w[i + 1] == Neighbor(w[i], Route(w[i], dest)))
            && Route(w[|w| - 1], dest) == LOCAL
    decreases Distance(here, dest)
  {
    RouteProgress(here, dest, rows);
    if here != dest {
      var next := Neighbor(here, Route(here, dest));
      WalkFollowsRoute(next, dest, rows);
      var w, v := Walk(here, dest), Walk(next, dest);
      assert forall i :: 1 <= i < |w| ==> w[i] == v[i - 1];
    }
  }

  /** The `i`th router of the walk in closed form: first along the row, then along the column. */
  function RouteNode(src: Node, dst: Node, i: nat): Node {
    var across := Abs(dst.x - src.x);
    if i <= across then
      Node(if dst.x >= src.x then src.x + i else src.x - i, src.y)
    else
      Node(dst.x, if dst.y >= src.y then src.y + (i - across) else src.y - (i - across))
  }

  lemma {:induction false} WalkIsRowThenColumn(here: Node, dest: Node, i: nat)
    requires i <= Distance(here, dest)
    ensures i < |Walk(here, dest)| && Walk(here, dest)[i] == RouteNode(here, dest, i)
    decreases Distance(here, dest)
  {
    if i > 0 {
      WalkIsRowThenColumn(Neighbor(here, Route(here, dest)), dest, i - 1);
    }
  }

  // ---- deadlock freedom: channel dependencies ----

  /** An output port of a router, the unit that holds flits while they wait. */
  datatype Channel = Channel(node: Node, dir: Dir)

  /** Some flit in the mesh can hold `a` while it waits for `b`. */
  ghost predicate DependsOn(a: Channel, b: Channel, rows: nat) {
    exists dest :: DependsFor(a, b, dest, rows)
  }

  predicate DependsFor(a: Channel, b: Channel, dest: Node, rows: nat) {
    && InMesh(a.node, rows) && InMesh(dest, rows)
    && a.dir == Route(a.node, dest) && a.dir != LOCAL
    && b == Channel(Neighbor(a.node, a.dir), Route(Neighbor(a.node, a.dir), dest))
  }

  /** Rows left to go in the direction of travel; horizontal channels rank above vertical ones,
      and ejection ranks lowest. */
  function ChannelRank(c: Channel, rows: nat): int {
    if c.dir == EAST then rows + 1 + COLUMNS - c.node.x
    else if c.dir == WEST then rows + 1 + c.node.x
    else if c.dir == SOUTH then rows - c.node.y
    else if c.dir == NORTH then 1 + c.node.y
    else 0
  }

  lemma RankDecreases(a: Channel, b: Channel, rows: nat)
    requires DependsOn(a, b, rows)
    ensures InMesh(a.node, rows) && InMesh(b.node, rows)
    ensures 0 <= ChannelRank(b, rows) < ChannelRank(a, rows) <= rows + 1 + COLUMNS
  {
    var dest :| DependsFor(a, b, dest, rows);
    RouteProgress(a.node, dest, rows);
  }

  ghost predicate DependencyChain(cs: seq<Channel>, rows: nat) {
    forall i :: 0 <= i < |cs| - 1 ==> DependsOn(cs[i], cs[i + 1], rows)
  }

  /** Along a chain of waiting channels, over any mixture of destinations, the rank strictly
      falls, so no channel ever waits for itself and a chain is no longer than the top rank. */
  lemma NoCyclicWait(cs: seq<Channel>, rows: nat)
    requires |cs| > 1 && DependencyChain(cs, rows)
    ensures forall i, j :: 0 <= i < j < |cs| ==> ChannelRank(cs[j], rows) <= ChannelRank(cs[i], rows) - (j - i)
    ensures forall i, j :: 0 <= i < j < |cs| ==> cs[i] != cs[j]
    ensures |cs| <= rows + 2 + COLUMNS
  {
    forall i, j | 0 <= i < j < |cs|
      ensures ChannelRank(cs[j], rows) <= ChannelRank(cs[i], rows) - (j - i)
    {
      RankFallsAlong(cs, rows, i, j);
    }
    RankDecreases(cs[0], cs[1], rows);
    RankDecreases(cs[|cs| - 2], cs[|cs| - 1], rows);
  }

  lemma {:induction false} RankFallsAlong(cs: seq<Channel>, rows: nat, i: nat, j: nat)
    requires i < j < |cs| && DependencyChain(cs, rows)
    ensures ChannelRank(cs[j], rows) <= ChannelRank(cs[i], rows) - (j - i)
    decreases j
  {
    RankDecreases(cs[j - 1], cs[j], rows);
    if i < j - 1 {
      RankFallsAlong(cs, rows, i, j - 1);
    }
  }

  // ---- coordinates read back from the module name ----

  /** Names of the form router_X_Y. */
  function RouterName(x: nat, y: nat): (s: string)
    ensures |s| >= 10
  {
    "router_" + Decimal(x) + "_" + Decimal(y)
  }

  /** The position a router believes it has: characters 7 and 9 of its name. */
  function NamedPosition(name: string): Node
    requires |name| >= 10
  {
    Node(CharValue(name[7]), CharValue(name[9]))
  }

  lemma {:induction false} LeadingDigit(n: nat)
    ensures 0 <= CharValue(Decimal(n)[0]) <= 9
    ensures CharValue(Decimal(n)[0]) == n <==> n < 10
  {
    if n >= 10 {
      LeadingDigit(n / 10);
    }
  }

  lemma NameLayout(n: Node, rows: nat)
    requires InMesh(n, rows)
    ensures var name := RouterName(n.x, n.y);
            NamedPosition(name).x == n.x && NamedPosition(name).y == CharValue(Decimal(n.y)[0])
  {
    LeadingDigit(n.y);
    var name := RouterName(n.x, n.y);
    assert Decimal(n.x) == [Digit(n.x)];
    assert name[7] == Digit(n.x);
    assert name[9..] == Decimal(n.y);
    assert name[9] == Decimal(n.y)[0];
  }

  /** The name says the right position exactly for the first ten rows. */
  lemma NamedPositionExact(n: Node, rows: nat)
    requires InMesh(n, rows)
    ensures NamedPosition(RouterName(n.x, n.y)) == n <==> n.y < 10
  {
    NameLayout(n, rows);
    LeadingDigit(n.y);
  }

  /** `compute_route` in a router that reads its position from its name. */
  function NamedRoute(here: Node, dest: Node): Dir
    requires here.x >= 0 && here.y >= 0
  {
    Route(NamedPosition(RouterName(here.x, here.y)), dest)
  }

  ghost predicate NamesRouteRight(rows: nat) {
    forall here, dest | InMesh(here, rows) && InMesh(dest, rows) :: NamedRoute(here, dest) == Route(here, dest)
  }

  /** Routing by module name agrees with routing by position in every mesh of at most ten rows
      and in no taller one: the router in row ten takes itself to be in row one. */
  lemma NamesRouteRightExact(rows: nat)
    ensures NamesRouteRight(rows) <==> rows <= 10
  {
    if rows <= 10 {
      forall here | InMesh(here, rows)
        ensures NamedPosition(RouterName(here.x, here.y)) == here
      {
        NamedPositionExact(here, rows);
      }
    } else {
      var here := Node(0, 10);
      NameLayout(here, rows);
      assert Decimal(10) == Decimal(1) + [Digit(0)];
      assert InMesh(here, rows) && NamedRoute(here, here) == SOUTH != Route(here, here);
    }
  }

  // ---- the names the mesh generator gives ----

  function GeneratedName(n: Node): string
    requires n.x >= 0 && n.y >= 0
  {
    "r" + Decimal(n.y) + "_" + Decimal(n.x)
  }

  lemma GeneratedNameLength(n: Node, rows: nat)
    requires InMesh(n, rows)
    ensures |GeneratedName(n)| >= 10 <==> n.y >= 1_000_000
  {
    DecimalLength(n.y, 6);
    assert Pow10(6) == 1_000_000;
    assert |Decimal(n.x)| == 1;
  }

  /** A router that has the name the generator gives it never finds its position there: in the
      first million rows the name ends before the characters it reads, and from then on they say
      another position. */
  lemma GeneratedNameNeverRight(n: Node, rows: nat)
    requires InMesh(n, rows)
    ensures |GeneratedName(n)| >= 10 <==> n.y >= 1_000_000
    ensures |GeneratedName(n)| >= 10 ==> NamedPosition(GeneratedName(n)) != n
  {
    GeneratedNameLength(n, rows);
    var name := GeneratedName(n);
    if |name| >= 10 {
      assert name[9] in "r" + Decimal(n.y) + "_" + Decimal(n.x);
      assert name[9] == 'r' || name[9] == '_' || name[9] in Decimal(n.y) || name[9] in Decimal(n.x);
      assert CharValue(name[9]) <= CharValue('r');
    }
  }
}
