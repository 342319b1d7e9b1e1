/** The mesh generator: which routers there are and which ports are wired together. */
module MeshBuilder {
  import opened Basics
  import opened XYRouting

  /** An output port wired to an input port. */
  datatype Connection = Connection(src: Node, outPort: Dir, dst: Node, inPort: Dir)

  predicate InGrid(n: Node, rows: int, cols: int) {
    0 <= n.x < cols && 0 <= n.y < rows
  }

  /** A link joins two adjacent routers of the grid: the output in one direction to the input on
      the facing side of the neighbour in that direction. */
  predicate IsMeshLink(c: Connection, rows: int, cols: int) {
    && InGrid(c.src, rows, cols) && InGrid(c.dst, rows, cols)
    && c.outPort != LOCAL
    && c.dst == Neighbor(c.src, c.outPort)
    && c.inPort == Opposite(c.outPort)
  }

  /** The grid cell whose turn of the loops produces a link: its western or northern end. */
  function Cell(c: Connection): Node {
    if c.outPort == EAST || c.outPort == SOUTH then c.src else c.dst
  }

  /** Row-major order. */
  predicate Before(n: Node, y: int, x: int) {
    n.y < y || (n.y == y && n.x < x)
  }

  /** The two opposite links between `n` and its neighbour to the east or south. */
  function Pair(n: Node, d: Dir): seq<Connection>
    requires d == EAST || d == SOUTH
  {
    var m := Neighbor(n, d);
    [Connection(n, d, m, Opposite(d)), Connection(m, Opposite(d), n, d)]
  }

  /** All links that one cell contributes. */
  function CellLinks(n: Node, rows: int, cols: int): seq<Connection> {
    (if n.x < cols - 1 then Pair(n, EAST) else []) + (if n.y < rows - 1 then Pair(n, SOUTH) else [])
  }

  lemma CellLinksExact(n: Node, rows: int, cols: int)
    requires InGrid(n, rows, cols)
    ensures forall c :: c in CellLinks(n, rows, cols) <==> IsMeshLink(c, rows, cols) && Cell(c) == n
    ensures Distinct(CellLinks(n, rows, cols))
  {
    forall c | IsMeshLink(c, rows, cols) && Cell(c) == n
      ensures c in CellLinks(n, rows, cols)
    {
      var d: Dir := if c.outPort == EAST || c.outPort == WEST then EAST else SOUTH;
      assert c == Pair(n, d)[0] || c == Pair(n, d)[1];
    }
  }

  lemma AppendKeepsDistinct<T>(s: seq<T>, t: seq<T>)
    requires Distinct(s) && Distinct(t)
    requires forall c :: c in s ==> c !in t
    ensures Distinct(s + t)
  {
    forall i, j | 0 <= i < j < |s + t|
      ensures (s + t)[i] != (s + t)[j]
    {
      if i < |s| <= j {
        assert s[i] in s && t[j - |s|] in t;
      }
    }
  }

  /** Every router of the grid exactly once, in row-major order. */
  method GenerateNodes(rows: int, cols: int) returns (nodes: seq<Node>)
    ensures forall n :: n in nodes <==> InGrid(n, rows, cols)
    ensures Distinct(nodes)
    ensures forall i, j :: 0 <= i < j < |nodes| ==> Before(nodes[i], nodes[j].y, nodes[j].x)
  {
    nodes := [];
    var y := 0;
    while y < rows
      invariant 0 <= y && (0 <= rows ==> y <= rows)
      invariant forall n :: n in nodes <==> InGrid(n, rows, cols) && n.y < y
      invariant forall i, j :: 0 <= i < j < |nodes| ==> Before(nodes[i], nodes[j].y, nodes[j].x)
    {
      var x := 0;
      while x < cols
        invariant 0 <= x && (0 <= cols ==> x <= cols)
        invariant forall n :: n in nodes <==> InGrid(n, rows, cols) && Before(n, y, x)
        invariant forall i, j :: 0 <= i < j < |nodes| ==> Before(nodes[i], nodes[j].y, nodes[j].x)
      {
        assert forall i :: 0 <= i < |nodes| ==> nodes[i] in nodes;
        nodes := nodes + [Node(x, y)];
        x := x + 1;
      }
      y := y + 1;
    }
  }

  /** Exactly the links between adjacent routers, in both directions, each created once. */
  method GenerateConnections(rows: int, cols: int) returns (connections: seq<Connection>)
    ensures forall c :: c in connections <==> IsMeshLink(c, rows, cols)
    ensures Distinct(connections)
  {
    connections := [];
    var y := 0;
    while y < rows
      invariant 0 <= y && (0 <= rows ==> y <= rows)
      invariant forall c :: c in connections <==> IsMeshLink(c, rows, cols) && Cell(c).y < y
      invariant Distinct(connections)
    {
      var x := 0;
      while x < cols
        invariant 0 <= x && (0 <= cols ==> x <= cols)
        invariant forall c :: c in connections <==> IsMeshLink(c, rows, cols) && Before(Cell(c), y, x)
        invariant Distinct(connections)
      {
        var current := Node(x, y);
        ghost var earlier := connections;
        if x < cols - 1 {
          var east := Node(x + 1, y);
          connections := connections + [Connection(current, EAST, east, WEST)];
          connections := connections + [Connection(east, WEST, current, EAST)];
        }
        if y < rows - 1 {
          var south := Node(x, y + 1);
          connections := connections + [Connection(current, SOUTH, south, NORTH)];
          connections := connections + [Connection(south, NORTH, current, SOUTH)];
        }
        assert connections == earlier + CellLinks(current, rows, cols);
        CellLinksExact(current, rows, cols);
        AppendKeepsDistinct(earlier, CellLinks(current, rows, cols));
        x := x + 1;
      }
      y := y + 1;
    }
  }

  /** The walk of a flit from any router to any destination uses only links the generator made,
      turns to the local port after exactly the Manhattan distance in hops, and not before. */
  lemma WalkUsesGeneratedLinks(here: Node, dest: Node, rows: nat)
    requires InMesh(here, rows) && InMesh(dest, rows)
    ensures var w := Walk(here, dest);
            && |w| == Distance(here, dest) + 1 && w[0] == here && w[|w| - 1] == dest
            && (forall i :: 0 <= i < |w| ==> (Route(w[i], dest) == LOCAL <==> i == |w| - 1))
            && (forall i :: 0 <= i < |w| - 1 ==>
                  var d := Route(w[i], dest);
                  IsMeshLink(Connection(w[i], d, w[i + 1], Opposite(d)), rows, COLUMNS))
  {
    WalkFollowsRoute(here, dest, rows);
  }
}
