/** A five-port router as it runs: two clocked processes over its queues and signals, and the
    functions that say what one activation of each does. */
module Router {
  import opened Basics
  import opened XYRouting
  import opened RouterLink

  /** `src` labels the router a flit was injected at.  No router code reads it; it lets a
      statement about the network name the flits of one sender. */
  datatype Flit = Flit(header: nat, body: nat, src: Node)

  /** The flit a signal carries before anything was written to it. */
  const BLANK: Flit := Flit(0, 0, Node(0, 0))

  function Dest(f: Flit): Node {
    Destination(f.header)
  }

  /** What a router sees on one input port before a clock edge. */
  datatype Input = Input(req: bool, flit: Flit, ack: bool)

  function Accepts(i: Input): bool {
    i.req && !i.ack
  }

  /** What input `i` contributes to output `dir` of router `here`. */
  function Contribution(here: Node, i: Input, dir: Dir): seq<Flit> {
    if Accepts(i) && ComputeRoute(here, i.flit.header) == dir then [i.flit] else []
  }

  /** The flits that the first `k` input ports push on output `dir`, in port order. */
  function Routed(here: Node, inputs: seq<Input>, dir: Dir, k: nat): seq<Flit>
    requires k <= |inputs|
  {
    if k == 0 then [] else Routed(here, inputs, dir, k - 1) + Contribution(here, inputs[k - 1], dir)
  }

  lemma RoutedUnfolds(here: Node, inputs: seq<Input>, dir: Dir)
    requires |inputs| == PORTS
    ensures Routed(here, inputs, dir, PORTS) ==
            Contribution(here, inputs[0], dir) + Contribution(here, inputs[1], dir) + Contribution(here, inputs[2], dir)
            + Contribution(here, inputs[3], dir) + Contribution(here, inputs[4], dir)
  {
    hide Contribution, Routed;
    RoutedStep(here, inputs, dir, 0);
    RoutedStep(here, inputs, dir, 1);
    RoutedStep(here, inputs, dir, 2);
    RoutedStep(here, inputs, dir, 3);
    RoutedStep(here, inputs, dir, 4);
    assert [] + Contribution(here, inputs[0], dir) == Contribution(here, inputs[0], dir);
  }

  lemma RoutedStep(here: Node, inputs: seq<Input>, dir: Dir, k: nat)
    requires k < |inputs|
    ensures Routed(here, inputs, dir, 0) == []
    ensures Routed(here, inputs, dir, k + 1) == Routed(here, inputs, dir, k) + Contribution(here, inputs[k], dir)
  {
  }

  /** The flits pushed on one output at an edge: of the inputs that offer a flit not yet acknowledged
      and addressed that way, north first, then east, south, west and local. */
  lemma RoutedInPortOrder(here: Node, inputs: seq<Input>, dir: Dir)
    requires |inputs| == PORTS
    ensures var pushed := (i: Input) => if i.req && !i.ack && ComputeRoute(here, i.flit.header) == dir then [i.flit] else [];
            Routed(here, inputs, dir, PORTS) ==
            pushed(inputs[0]) + pushed(inputs[1]) + pushed(inputs[2]) + pushed(inputs[3]) + pushed(inputs[4])
  {
    hide ComputeRoute, Routed;
    RoutedUnfolds(here, inputs, dir);
    var pushed := (i: Input) => if i.req && !i.ack && ComputeRoute(here, i.flit.header) == dir then [i.flit] else [];
    assert forall i: Input :: Contribution(here, i, dir) == pushed(i);
  }

  lemma RoutedNext(here: Node, inputs: seq<Input>, dir: Dir, k: nat, queue: seq<Flit>)
    requires k < |inputs|
    ensures queue + Routed(here, inputs, dir, k) + Contribution(here, inputs[k], dir) == queue + Routed(here, inputs, dir, k + 1)
  {
    Associate(queue, Routed(here, inputs, dir, k), Contribution(here, inputs[k], dir));
  }

  /** A signal: what processes read now and what the last write of this activation left for
      after the edge. */
  datatype Signal<T> = Signal(now: T, next: T)

  function Written<T>(s: Signal<T>, v: T): Signal<T> {
    Signal(s.now, v)
  }

  class Router {
    const here: Node
    var reqIn: seq<bool>
    var flitIn: seq<Flit>
    var ackIn: seq<Signal<bool>>
    var reqOut: seq<Signal<bool>>
    var flitOut: seq<Signal<Flit>>
    var ackOut: seq<bool>
    const outputBuffer: array<seq<Flit>>

    ghost predicate Valid()
      reads this
    {
      && |reqIn| == |flitIn| == |ackIn| == |reqOut| == |flitOut| == |ackOut| == PORTS
      && outputBuffer.Length == PORTS
    }

    /** The state of the link behind one output port, as this router sees it. */
    ghost function Out(dir: Dir): Link<Flit>
      reads this, outputBuffer
      requires Valid()
    {
      Link(outputBuffer[dir], reqOut[dir].now, flitOut[dir].now, ackOut[dir])
    }

    ghost function Inputs(): (s: seq<Input>)
      reads this
      requires Valid()
      ensures |s| == PORTS
      ensures forall d: Dir :: s[d] == Input(reqIn[d], flitIn[d], ackIn[d].now)
    {
      seq(PORTS, d requires 0 <= d < PORTS && Valid() reads this => Input(reqIn[d], flitIn[d], ackIn[d].now))
    }

    constructor (here: Node)
      ensures Valid() && this.here == here && fresh(outputBuffer)
      ensures forall d: Dir :: Out(d) == Link([], false, BLANK, false)
      ensures forall d: Dir :: Inputs()[d] == Input(false, BLANK, false) && flitOut[d].next == flitOut[d].now
    {
      this.here := here;
      reqIn := seq(PORTS, d => false);
      flitIn := seq(PORTS, d => BLANK);
      ackIn := seq(PORTS, d => Signal(false, false));
      reqOut := seq(PORTS, d => Signal(false, false));
      flitOut := seq(PORTS, d => Signal(BLANK, BLANK));
      ackOut := seq(PORTS, d => false);
      outputBuffer := new seq<Flit>[PORTS](d => []);
    }

    /** One input port's turn: takes its flit, if it has one that is not already being acknowledged,
        queues it at the output its destination asks for, and answers on that input. */
    method TakeFrom(dir: Dir)
      requires Valid()
      modifies this`ackIn, outputBuffer
      ensures Valid()
      ensures forall d: Dir :: outputBuffer[d] == old(outputBuffer[d]) + Contribution(here, old(Inputs())[dir], d)
      ensures ackIn == old(ackIn)[dir := Signal(old(ackIn[dir].now), Accepts(old(Inputs())[dir]))]
    {
      if reqIn[dir] && !ackIn[dir].now {
        var flit := flitIn[dir];
        var outDir := ComputeRoute(here, flit.header);
        outputBuffer[outDir] := outputBuffer[outDir] + [flit];
        ackIn := ackIn[dir := Written(ackIn[dir], true)];
      } else {
        ackIn := ackIn[dir := Written(ackIn[dir], false)];
      }
    }

    /** Every input port in turn. */
    method RoutingProcess()
      requires Valid()
      modifies this`ackIn, outputBuffer
      ensures Valid()
      ensures forall d: Dir :: outputBuffer[d] == old(outputBuffer[d]) + Routed(here, old(Inputs()), d, PORTS)
      ensures forall d: Dir :: ackIn[d] == Signal(old(ackIn[d].now), Accepts(old(Inputs())[d]))
    {
      hide Contribution, Accepts;
      ghost var inputs := Inputs();
      var dir := 0;
      while dir < PORTS
        invariant dir <= PORTS && Valid()
        invariant forall d: Dir :: dir <= d ==> ackIn[d] == old(ackIn[d])
        invariant forall d: Dir :: d < dir ==> ackIn[d] == Signal(old(ackIn[d].now), Accepts(inputs[d]))
        invariant forall d: Dir :: outputBuffer[d] == old(outputBuffer[d]) + Routed(here, inputs, d, dir)
      {
        assert Inputs()[dir] == inputs[dir];
        TakeFrom(dir);
        forall d: Dir
          ensures outputBuffer[d] == old(outputBuffer[d]) + Routed(here, inputs, d, dir + 1)
        {
          RoutedNext(here, inputs, d, dir, old(outputBuffer[d]));
        }
        dir := dir + 1;
      }
    }

    /** One output port's turn: offers the head of an idle queue, and removes it once it is
        acknowledged. */
    method OfferAt(outDir: Dir)
      requires Valid()
      modifies this`reqOut, this`flitOut, outputBuffer
      ensures Valid()
      ensures outputBuffer[outDir] == Switch(old(Out(outDir))).queue
      ensures forall d: Dir :: d != outDir ==> outputBuffer[d] == old(outputBuffer[d])
      ensures reqOut == old(reqOut)[outDir := Signal(old(reqOut[outDir].now), Switch(old(Out(outDir))).req)]
      ensures flitOut == old(flitOut)[outDir := Signal(old(flitOut[outDir].now),
                           if |old(outputBuffer[outDir])| > 0 && !old(reqOut[outDir].now) then old(outputBuffer[outDir])[0]
                           else old(flitOut[outDir].next))]
    {
      if outputBuffer[outDir] != [] && !reqOut[outDir].now {
        var flit := outputBuffer[outDir][0];
        reqOut := reqOut[outDir := Written(reqOut[outDir], true)];
        flitOut := flitOut[outDir := Written(flitOut[outDir], flit)];
        if ackOut[outDir] {
          outputBuffer[outDir] := outputBuffer[outDir][1..];
          reqOut := reqOut[outDir := Written(reqOut[outDir], false)];
        }
      } else {
        reqOut := reqOut[outDir := Written(reqOut[outDir], false)];
      }
    }

    /** What is on an output's flit signal after its turn. */
    ghost function FlitAfter(dir: Dir): Flit
      reads this, outputBuffer
      requires Valid()
    {
      if |outputBuffer[dir]| > 0 && !reqOut[dir].now then outputBuffer[dir][0] else flitOut[dir].next
    }

    /** Every output port in turn. */
    method SwitchingProcess()
      requires Valid()
      modifies this`reqOut, this`flitOut, outputBuffer
      ensures Valid()
      ensures forall d: Dir :: outputBuffer[d] == Switch(old(Out(d))).queue
      ensures forall d: Dir :: reqOut[d] == Signal(old(reqOut[d].now), Switch(old(Out(d))).req)
      ensures forall d: Dir :: flitOut[d] == Signal(old(flitOut[d].now), old(FlitAfter(d)))
    {
      hide Switch;
      var outDir := 0;
      while outDir < PORTS
        invariant outDir <= PORTS && Valid()
        invariant forall d: Dir :: outDir <= d ==>
                                     outputBuffer[d] == old(outputBuffer[d]) && reqOut[d] == old(reqOut[d]) && flitOut[d] == old(flitOut[d])
        invariant forall d: Dir :: d < outDir ==> outputBuffer[d] == Switch(old(Out(d))).queue
        invariant forall d: Dir :: d < outDir ==> reqOut[d] == Signal(old(reqOut[d].now), Switch(old(Out(d))).req)
        invariant forall d: Dir :: d < outDir ==> flitOut[d] == Signal(old(flitOut[d].now), old(FlitAfter(d)))
      {
        assert Out(outDir) == old(Out(outDir));
        OfferAt(outDir);
        outDir := outDir + 1;
      }
    }

    /** Both processes, in either order, on the values the signals have. */
    method Activate(routeFirst: bool)
      requires Valid()
      requires forall d: Dir :: flitOut[d].next == flitOut[d].now
      modifies this`ackIn, this`reqOut, this`flitOut, outputBuffer
      ensures Valid()
      ensures forall d: Dir ::
                var n := Edge(old(Out(d)), Routed(here, old(Inputs()), d, PORTS), routeFirst);
                outputBuffer[d] == n.queue && reqOut[d].next == n.req && flitOut[d].next == n.flit
      ensures forall d: Dir :: ackIn[d].next == Accepts(old(Inputs()[d]))
    {
      hide Routed, Accepts;
      ghost var inputs := Inputs();
      if routeFirst {
        RoutingProcess();
        SwitchingProcess();
      } else {
        SwitchingProcess();
        assert Inputs() == inputs;
        RoutingProcess();
      }
    }

    /** The written values take effect and the neighbours' new values arrive. */
    method Commit(newReqIn: seq<bool>, newFlitIn: seq<Flit>, newAckOut: seq<bool>)
      requires Valid() && |newReqIn| == |newFlitIn| == |newAckOut| == PORTS
      modifies this
      ensures Valid()
      ensures forall d: Dir :: flitOut[d].next == flitOut[d].now
      ensures forall d: Dir :: Out(d) == Link(old(outputBuffer[d]), old(reqOut[d].next), old(flitOut[d].next), newAckOut[d])
      ensures forall d: Dir :: Inputs()[d] == Input(newReqIn[d], newFlitIn[d], old(ackIn[d].next))
    {
      ackIn := seq(PORTS, d requires 0 <= d < PORTS && Valid() reads this => Signal(ackIn[d].next, ackIn[d].next));
      reqOut := seq(PORTS, d requires 0 <= d < PORTS && Valid() reads this => Signal(reqOut[d].next, reqOut[d].next));
      flitOut := seq(PORTS, d requires 0 <= d < PORTS && Valid() reads this => Signal(flitOut[d].next, flitOut[d].next));
      reqIn, flitIn, ackOut := newReqIn, newFlitIn, newAckOut;
    }

    /** One clock edge.  Every output is one `Edge` of its link, with what the inputs route to it as
        arrivals. */
    method ClockEdge(routeFirst: bool, newReqIn: seq<bool>, newFlitIn: seq<Flit>, newAckOut: seq<bool>)
      requires Valid() && |newReqIn| == |newFlitIn| == |newAckOut| == PORTS
      requires forall d: Dir :: flitOut[d].next == flitOut[d].now
      modifies this, outputBuffer
      ensures Valid()
      ensures forall d: Dir :: flitOut[d].next == flitOut[d].now
      ensures forall d: Dir ::
                Out(d) == Edge(old(Out(d)), Routed(here, old(Inputs()), d, PORTS), routeFirst).(ack := newAckOut[d])
      ensures forall d: Dir :: Inputs()[d] == Input(newReqIn[d], newFlitIn[d], Accepts(old(Inputs()[d])))
    {
      hide Edge, Routed, Accepts;
      Activate(routeFirst);
      Commit(newReqIn, newFlitIn, newAckOut);
    }
  }
}
