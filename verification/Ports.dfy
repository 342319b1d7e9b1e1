/** The two ports of a link and their virtual channels as objects, method by method, each tied
    to the link's state machine. */
module Ports {
  import opened VcLink

  class InputVC {
    var buffer: seq<Packet>
    const capacity: nat
    var enqueued: nat
    var dropped: nat
    var processed: nat

    ghost function View(): InVc
      reads this
    {
      InVc(buffer, capacity, enqueued, dropped, processed)
    }

    constructor (capacity: nat)
      ensures View() == InVc([], capacity, 0, 0, 0)
    {
      this.capacity := capacity;
      buffer, enqueued, dropped, processed := [], 0, 0, 0;
    }

    method Enqueue(pkt: Packet) returns (ok: bool)
      modifies this
      ensures ok == (|old(buffer)| < capacity) == InHasRoom(old(View()))
      ensures View() == if ok then InStored(old(View()), pkt) else old(View())
    {
      if |buffer| >= capacity {
        return false;
      }
      buffer := buffer + [pkt];
      enqueued := enqueued + 1;
      return true;
    }

    method Pop()
      modifies this
      ensures View() == if old(buffer) == [] then old(View()) else InPopped(old(View()))
    {
      if buffer != [] {
        processed := processed + 1;
        buffer := buffer[1..];
      }
    }
  }

  class OutputVC {
    var buffer: seq<Packet>
    const capacity: nat
    var enqueued: nat
    var forwarded: nat
    var dropped: nat

    ghost function View(): OutVc
      reads this
    {
      OutVc(buffer, capacity, enqueued, forwarded, dropped)
    }

    constructor (capacity: nat)
      ensures View() == OutVc([], capacity, 0, 0, 0)
    {
      this.capacity := capacity;
      buffer, enqueued, forwarded, dropped := [], 0, 0, 0;
    }

    method Enqueue(pkt: Packet) returns (ok: bool)
      modifies this
      ensures ok == (|old(buffer)| < capacity) == OutHasRoom(old(View()))
      ensures View() == if ok then OutStored(old(View()), pkt) else old(View())
    {
      if |buffer| >= capacity {
        return false;
      }
      buffer := buffer + [pkt];
      enqueued := enqueued + 1;
      return true;
    }

    method RemoveHead()
      requires buffer != []
      modifies this
      ensures View() == OutPopped(old(View()))
    {
      buffer := buffer[1..];
      forwarded := forwarded + 1;
    }

    /** `trySend`, on the downstream port that owns this channel as number `i`: the call to
        `sendReq` is virtual and comes back to that port. */
    method TrySend(port: DownstreamPort, ghost i: nat) returns (ok: bool)
      requires port.Valid() && i < |port.outputVcs| && port.outputVcs[i] == this
      modifies port.outputVcs, port.Inputs()
      ensures port.View() == Retried(old(port.View()), i)
      ensures ok == (old(buffer) == [] || SenderTakes(old(port.View()), old(buffer)[0]))
    {
      hide Sent, SenderTakes;
      if buffer == [] {
        return true;
      }
      var pkt := buffer[0];
      ghost var before := port.View();
      assert before.outs[i] == View();
      var sent := port.SendReq(pkt);
      assert port.View() == Sent(before, pkt);
      assert Sent(before, pkt).outs[i] == View();
      if sent {
        RemoveHead();
        assert port.View().outs == Sent(before, pkt).outs[i := View()];
        return true;
      }
      return false;
    }
  }

  class UpstreamPort {
    const inputVcs: seq<InputVC>

    ghost predicate Valid() {
      forall i, j :: 0 <= i < j < |inputVcs| ==> inputVcs[i] != inputVcs[j]
    }

    ghost function View(): (v: seq<InVc>)
      reads inputVcs
      ensures |v| == |inputVcs|
      ensures forall i :: 0 <= i < |inputVcs| ==> v[i] == inputVcs[i].View()
    {
      seq(|inputVcs|, i requires 0 <= i < |inputVcs| reads inputVcs => inputVcs[i].View())
    }

    constructor (sizes: seq<nat>)
      ensures Valid() && fresh(inputVcs) && |inputVcs| == |sizes|
      ensures forall i :: 0 <= i < |sizes| ==> View()[i] == InVc([], sizes[i], 0, 0, 0)
    {
      var vcs: seq<InputVC> := [];
      for vid := 0 to |sizes|
        invariant |vcs| == vid && fresh(vcs)
        invariant forall i :: 0 <= i < vid ==> vcs[i].View() == InVc([], sizes[i], 0, 0, 0)
        invariant forall i, j :: 0 <= i < j < vid ==> vcs[i] != vcs[j]
      {
        var vc := new InputVC(sizes[vid]);
        vcs := vcs + [vc];
      }
      inputVcs := vcs;
    }

    method RecvReq(pkt: Packet) returns (ok: bool)
      requires Valid()
      modifies inputVcs
      ensures View() == Received(old(View()), pkt)
      ensures ok == ReceiverTakes(old(View()), pkt)
    {
      ghost var before := View();
      if pkt.vc < 0 || pkt.vc >= |inputVcs| {
        return false;
      }
      var vc := inputVcs[pkt.vc];
      ok := vc.Enqueue(pkt);
      if !ok {
        vc.dropped := vc.dropped + 1;
      }
      assert View() == before[pkt.vc := vc.View()];
    }

    /** Offers the head of channel `i` to the owner, who answers `accepts`. */
    method OfferHead(i: nat, accepts: bool) returns (handled: seq<Packet>)
      requires Valid() && i < |inputVcs|
      modifies inputVcs[i]
      ensures View() == old(View())[i := Offered(old(View())[i], accepts)]
      ensures handled == TakenHead(old(View())[i], accepts)
    {
      ghost var before := View();
      handled := [];
      var vc := inputVcs[i];
      if vc.buffer != [] {
        var pkt := vc.buffer[0];
        if accepts {
          handled := [pkt];
          vc.Pop();
        }
      }
      assert View() == before[i := vc.View()];
    }

    /** Offers the head of every channel to the owner; `accepts` is what the owner answers. */
    method Tick(accepts: nat -> bool) returns (handled: seq<Packet>)
      requires Valid()
      modifies inputVcs
      ensures View() == ReceiverTick(old(View()), accepts)
      ensures handled == HandledBy(old(View()), accepts, |inputVcs|)
    {
      hide Offered, TakenHead, ReceiverTicked, ReceiverTick, HandledBy;
      handled := [];
      ghost var before := View();
      ReceiverTickDone(before, accepts);
      var i := 0;
      while i < |inputVcs|
        invariant i <= |inputVcs|
        invariant View() == ReceiverTicked(before, accepts, i)
        invariant handled == HandledBy(before, accepts, i)
      {
        ReceiverTickStep(before, accepts, i, View());
        var head := OfferHead(i, accepts(i));
        handled := handled + head;
        i := i + 1;
      }
    }
  }

  class DownstreamPort {
    const outputVcs: seq<OutputVC>
    /** The port at the other side of the pair this port is bound to, if any. */
    var peer: UpstreamPort?

    ghost predicate Valid()
      reads this
    {
      && (forall i, j :: 0 <= i < j < |outputVcs| ==> outputVcs[i] != outputVcs[j])
      && (peer != null ==> peer.Valid())
    }

    ghost function Inputs(): seq<InputVC>
      reads this
    {
      if peer == null then [] else peer.inputVcs
    }

    ghost function View(): (l: Link)
      reads this, outputVcs, Inputs()
      ensures |l.outs| == |outputVcs|
      ensures forall i :: 0 <= i < |outputVcs| ==> l.outs[i] == outputVcs[i].View()
      ensures l.ins == (if peer == null then [] else peer.View()) && l.bound == (peer != null)
    {
      Link(seq(|outputVcs|, i requires 0 <= i < |outputVcs| reads outputVcs => outputVcs[i].View()),
           if peer == null then [] else peer.View(),
           peer != null)
    }

    constructor (sizes: seq<nat>, peer: UpstreamPort?)
      requires peer != null ==> peer.Valid()
      ensures Valid() && this.peer == peer && fresh(outputVcs) && |outputVcs| == |sizes|
      ensures forall i :: 0 <= i < |sizes| ==> View().outs[i] == OutVc([], sizes[i], 0, 0, 0)
    {
      var vcs: seq<OutputVC> := [];
      for vid := 0 to |sizes|
        invariant |vcs| == vid && fresh(vcs)
        invariant forall i :: 0 <= i < vid ==> vcs[i].View() == OutVc([], sizes[i], 0, 0, 0)
        invariant forall i, j :: 0 <= i < j < vid ==> vcs[i] != vcs[j]
      {
        var vc := new OutputVC(sizes[vid]);
        vcs := vcs + [vc];
      }
      outputVcs := vcs;
      this.peer := peer;
    }

    /** `MasterPort::sendReq`: over the wire, if there is one. */
    method SendPlain(pkt: Packet) returns (ok: bool)
      requires Valid()
      modifies Inputs()
      ensures View() == SentPlain(old(View()), pkt)
      ensures ok == PlainTakes(old(View()), pkt)
    {
      ghost var before := View();
      if peer == null {
        return false;
      }
      ok := peer.RecvReq(pkt);
      assert View().outs == before.outs;
    }

    /** Stores the packet behind those that wait, or drops it. */
    method Keep(pkt: Packet) returns (ok: bool)
      requires Valid() && InRange(pkt.vc, |outputVcs|)
      modifies outputVcs
      ensures View() == Kept(old(View()), pkt)
      ensures ok == OutHasRoom(old(View()).outs[pkt.vc])
    {
      ghost var before := View();
      var vc := outputVcs[pkt.vc];
      ok := vc.Enqueue(pkt);
      if !ok {
        vc.dropped := vc.dropped + 1;
      }
      assert View().outs == before.outs[pkt.vc := vc.View()];
      assert peer != null ==> peer.View() == before.ins;
    }

    method SendReq(pkt: Packet) returns (ok: bool)
      requires Valid()
      modifies outputVcs, Inputs()
      ensures View() == Sent(old(View()), pkt)
      ensures ok == SenderTakes(old(View()), pkt)
    {
      if pkt.vc < 0 || pkt.vc >= |outputVcs| {
        return false;
      }
      if outputVcs[pkt.vc].buffer != [] {
        ok := Keep(pkt);
        return;
      }
      ok := SendPlain(pkt);
      if ok {
        return;
      }
      ok := Keep(pkt);
    }

    method Tick()
      requires Valid()
      modifies outputVcs, Inputs()
      ensures View() == SenderTick(old(View()))
    {
      hide Retried;
      var i := 0;
      while i < |outputVcs|
        invariant i <= |outputVcs|
        invariant View() == SenderTicked(old(View()), i)
      {
        var _ := outputVcs[i].TrySend(this, i);
        i := i + 1;
      }
    }
  }
}
