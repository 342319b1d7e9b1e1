/** The crossbar's request queue: one request a tick, refused ones go to the back. */
module Crossbar {
  import opened Basics

  datatype Request = Request(id: nat, address: nat, source: int)

  /** A request offered to an output. */
  datatype Offer = Offer(request: Request, output: nat)

  /** The queue, and the logs of what was accepted, offered, forwarded and released. */
  datatype Xbar = Xbar(queue: seq<Request>, accepted: seq<Request>, offered: seq<Offer>, forwarded: seq<Offer>,
                       released: seq<Request>)

  /** The output a request is for. */
  function Route(r: Request, outputs: nat): nat {
    if outputs == 0 then 0 else r.address % outputs
  }

  function OfferOf(r: Request, outputs: nat): Offer {
    Offer(r, Route(r, outputs))
  }

  function Arrived(x: Xbar, r: Request): Xbar {
    x.(queue := x.queue + [r], accepted := x.accepted + [r])
  }

  /** One tick; `takes` is what the output port answers if it is asked. */
  function Ticked(x: Xbar, outputs: nat, takes: bool): Xbar {
    if x.queue == [] then x
    else
      var r, rest := x.queue[0], x.queue[1..];
      if outputs == 0 then x.(queue := rest, released := x.released + [r])
      else
        var o := OfferOf(r, outputs);
        if takes then x.(queue := rest, offered := x.offered + [o], forwarded := x.forwarded + [o])
        else x.(queue := rest + [r], offered := x.offered + [o])
  }

  datatype Action = Arrive(request: Request) | Tick(takes: bool)

  function Play(x: Xbar, outputs: nat, actions: seq<Action>): Xbar {
    if actions == [] then x
    else
      var before := Play(x, outputs, actions[..|actions| - 1]);
      match actions[|actions| - 1]
      case Arrive(r) => Arrived(before, r)
      case Tick(takes) => Ticked(before, outputs, takes)
  }

  function Ticks(actions: seq<Action>): nat {
    if actions == [] then 0
    else Ticks(actions[..|actions| - 1]) + if actions[|actions| - 1].Tick? then 1 else 0
  }

  function Offers(rs: seq<Request>, outputs: nat): (os: seq<Offer>)
    ensures |os| == |rs|
    ensures forall i :: 0 <= i < |rs| ==> os[i] == OfferOf(rs[i], outputs)
  {
    seq(|rs|, i requires 0 <= i < |rs| => OfferOf(rs[i], outputs))
  }

  /** Whatever arrives or is refused meanwhile: the requests in the queue are offered in order,
      one a tick, each to its own output.  The one at position `p` is offered on exactly the
      (p+1)-th tick, and stands at position `p - t` after `t` ticks. */
  lemma {:induction false} OfferedInTurn(x: Xbar, outputs: nat, actions: seq<Action>)
    requires outputs > 0 && Ticks(actions) <= |x.queue|
    ensures var y, t := Play(x, outputs, actions), Ticks(actions);
            && y.offered == x.offered + Offers(x.queue[..t], outputs)
            && x.queue[t..] <= y.queue
  {
    if actions != [] {
      var rest := actions[..|actions| - 1];
      OfferedInTurn(x, outputs, rest);
      var y, t := Play(x, outputs, rest), Ticks(rest);
      if actions[|actions| - 1].Tick? {
        assert y.queue[0] == x.queue[t..][0] == x.queue[t];
        assert x.queue[..t + 1] == x.queue[..t] + [x.queue[t]];
        assert Offers(x.queue[..t + 1], outputs) == Offers(x.queue[..t], outputs) + [OfferOf(x.queue[t], outputs)];
        assert x.queue[t + 1..] == x.queue[t..][1..];
      }
    } else {
      assert Offers(x.queue[..0], outputs) == [];
    }
  }

  /** So a request at position `p` is the one the (p+1)-th tick offers, to output address modulo
      the number of outputs. */
  lemma PositionIsTurn(x: Xbar, outputs: nat, actions: seq<Action>, p: nat, takes: bool)
    requires outputs > 0 && p < |x.queue| && Ticks(actions) == p
    ensures var y := Play(x, outputs, actions);
            Ticked(y, outputs, takes).offered == y.offered + [Offer(x.queue[p], x.queue[p].address % outputs)]
  {
    OfferedInTurn(x, outputs, actions);
    assert Play(x, outputs, actions).queue[0] == x.queue[p..][0];
  }

  /** A refused request is offered again after every other request that was queued with it. */
  lemma RefusedIsOfferedAgain(x: Xbar, outputs: nat, actions: seq<Action>, takes: bool)
    requires outputs > 0 && x.queue != [] && Ticks(actions) == |x.queue| - 1
    ensures var refused := Ticked(x, outputs, false);
            var y := Play(refused, outputs, actions);
            Ticked(y, outputs, takes).offered == y.offered + [OfferOf(x.queue[0], outputs)]
  {
    PositionIsTurn(Ticked(x, outputs, false), outputs, actions, |x.queue| - 1, takes);
  }

  function Requests(os: seq<Offer>): (rs: seq<Request>)
    ensures |rs| == |os|
    ensures forall i :: 0 <= i < |os| ==> rs[i] == os[i].request
  {
    seq(|os|, i requires 0 <= i < |os| => os[i].request)
  }

  /** Every accepted request is forwarded, queued or released, once. */
  ghost predicate Conserved(x: Xbar) {
    multiset(x.accepted) == multiset(Requests(x.forwarded)) + multiset(x.queue) + multiset(x.released)
  }

  lemma {:induction false} NothingLost(x: Xbar, outputs: nat, actions: seq<Action>)
    requires Conserved(x)
    ensures Conserved(Play(x, outputs, actions))
  {
    if actions != [] {
      var y := Play(x, outputs, actions[..|actions| - 1]);
      NothingLost(x, outputs, actions[..|actions| - 1]);
      if actions[|actions| - 1].Tick? && y.queue != [] {
        var r := y.queue[0];
        assert y.queue == [r] + y.queue[1..];
        assert Requests(y.forwarded + [OfferOf(r, outputs)]) == Requests(y.forwarded) + [r];
      }
    }
  }

  // ---- where requests go ----

  /** What the output ports answered in a run, offer by offer. */
  function Answers(x: Xbar, outputs: nat, actions: seq<Action>): seq<bool> {
    if actions == [] then []
    else
      var less, a := actions[..|actions| - 1], actions[|actions| - 1];
      Answers(x, outputs, less) +
      if a.Tick? && |Play(x, outputs, actions).offered| > |Play(x, outputs, less).offered| then [a.takes] else []
  }

  /** The offers that were taken, in order. */
  function TakenOf(offers: seq<Offer>, answers: seq<bool>): seq<Offer>
    requires |offers| == |answers|
  {
    if offers == [] then []
    else
      var n := |offers| - 1;
      TakenOf(offers[..n], answers[..n]) + if answers[n] then [offers[n]] else []
  }

  /** With an output there, nothing is ever released, and what is forwarded is exactly the offers
      that were taken, each to the output it was offered to. */
  lemma {:induction false} ForwardedAreTaken(x: Xbar, outputs: nat, actions: seq<Action>)
    requires outputs > 0 && x.offered == []
    ensures var y := Play(x, outputs, actions);
            && |y.offered| == |Answers(x, outputs, actions)|
            && y.forwarded == x.forwarded + TakenOf(y.offered, Answers(x, outputs, actions))
            && y.released == x.released
  {
    if actions != [] {
      var less, a := actions[..|actions| - 1], actions[|actions| - 1];
      ForwardedAreTaken(x, outputs, less);
      var before, after := Play(x, outputs, less), Play(x, outputs, actions);
      var answers := Answers(x, outputs, less);
      if a.Tick? && before.queue != [] {
        TakenMore(before.offered, answers, OfferOf(before.queue[0], outputs), a.takes, x.forwarded);
      } else {
        assert Answers(x, outputs, actions) == answers + [] == answers;
      }
    }
  }

  lemma TakenMore(offers: seq<Offer>, answers: seq<bool>, o: Offer, takes: bool, log: seq<Offer>)
    requires |offers| == |answers|
    ensures log + TakenOf(offers, answers) + (if takes then [o] else []) == log + TakenOf(offers + [o], answers + [takes])
  {
    assert (offers + [o])[..|offers|] == offers && (answers + [takes])[..|answers|] == answers;
    Associate(log, TakenOf(offers, answers), if takes then [o] else []);
  }

  /** The requests that arrive in a run, in order. */
  function Arrivals(actions: seq<Action>): seq<Request> {
    if actions == [] then []
    else
      var a := actions[|actions| - 1];
      Arrivals(actions[..|actions| - 1]) + if a.Arrive? then [a.request] else []
  }

  /** Without an output, nothing is offered or forwarded; every tick releases the oldest request. */
  lemma {:induction false} ReleasedInOrder(x: Xbar, actions: seq<Action>)
    ensures var y := Play(x, 0, actions);
            && y.offered == x.offered && y.forwarded == x.forwarded
            && y.released + y.queue == x.released + x.queue + Arrivals(actions)
            && x.released <= y.released
  {
    if actions != [] {
      var less, a := actions[..|actions| - 1], actions[|actions| - 1];
      ReleasedInOrder(x, less);
      var before, after := Play(x, 0, less), Play(x, 0, actions);
      match a
      case Arrive(r) =>
        Associate(before.released, before.queue, [r]);
        Associate(x.released + x.queue, Arrivals(less), [r]);
      case Tick(_) =>
        if before.queue != [] {
          assert before.queue == [before.queue[0]] + before.queue[1..];
          Associate(before.released, [before.queue[0]], before.queue[1..]);
        }
    }
  }

  /** Everything that arrives is accepted. */
  lemma {:induction false} AllArrivalsAccepted(x: Xbar, outputs: nat, actions: seq<Action>)
    ensures Play(x, outputs, actions).accepted == x.accepted + Arrivals(actions)
  {
    if actions != [] {
      AllArrivalsAccepted(x, outputs, actions[..|actions| - 1]);
    }
  }

  class Crossbar {
    var reqQueue: seq<Request>
    const outputs: nat
    ghost var accepted: seq<Request>
    ghost var offered: seq<Offer>
    ghost var forwarded: seq<Offer>
    ghost var released: seq<Request>

    ghost function View(): Xbar
      reads this
    {
      Xbar(reqQueue, accepted, offered, forwarded, released)
    }

    constructor (outputs: nat)
      ensures this.outputs == outputs && View() == Xbar([], [], [], [], []) && Conserved(View())
    {
      this.outputs := outputs;
      reqQueue, accepted, offered, forwarded, released := [], [], [], [], [];
    }

    method HandleUpstreamRequest(r: Request) returns (ok: bool)
      modifies this
      ensures ok && View() == Arrived(old(View()), r)
    {
      reqQueue := reqQueue + [r];
      accepted := accepted + [r];
      return true;
    }

    /** `sendReq` of the output port is asked for the head request only; `takes` answers. */
    method Tick(takes: Offer -> bool)
      modifies this
      ensures View() == Ticked(old(View()), outputs,
                               old(reqQueue) != [] && takes(OfferOf(old(reqQueue)[0], outputs)))
    {
      if reqQueue != [] {
        var r := reqQueue[0];
        reqQueue := reqQueue[1..];
        var dst := if outputs == 0 then 0 else r.address % outputs;
        if dst < outputs {
          offered := offered + [Offer(r, dst)];
          if takes(Offer(r, dst)) {
            forwarded := forwarded + [Offer(r, dst)];
          } else {
            reqQueue := reqQueue + [r];
          }
        } else {
          released := released + [r];
        }
      }
    }
  }
}
