/** The virtual-channel link as a state machine on values: what each port operation does to the
    buffers and counters of the sending and the receiving port. */
module VcLink {
  import opened Basics

  datatype Packet = Packet(id: nat, vc: int)

  datatype OutVc = OutVc(buffer: seq<Packet>, capacity: nat, enqueued: nat, forwarded: nat, dropped: nat)
  datatype InVc = InVc(buffer: seq<Packet>, capacity: nat, enqueued: nat, dropped: nat, processed: nat)

  /** A sending port, the receiving port it is wired to, and whether the wire exists. */
  datatype Link = Link(outs: seq<OutVc>, ins: seq<InVc>, bound: bool)

  predicate InRange(vc: int, n: nat) {
    0 <= vc < n
  }

  // ---- one virtual channel ----

  predicate OutHasRoom(v: OutVc) {
    |v.buffer| < v.capacity
  }

  predicate InHasRoom(v: InVc) {
    |v.buffer| < v.capacity
  }

  function OutStored(v: OutVc, p: Packet): OutVc {
    v.(buffer := v.buffer + [p], enqueued := v.enqueued + 1)
  }

  function OutPopped(v: OutVc): OutVc
    requires v.buffer != []
  {
    v.(buffer := v.buffer[1..], forwarded := v.forwarded + 1)
  }

  function InStored(v: InVc, p: Packet): InVc {
    v.(buffer := v.buffer + [p], enqueued := v.enqueued + 1)
  }

  function InPopped(v: InVc): InVc
    requires v.buffer != []
  {
    v.(buffer := v.buffer[1..], processed := v.processed + 1)
  }

  // ---- the receiving port ----

  predicate ReceiverTakes(ins: seq<InVc>, p: Packet) {
    InRange(p.vc, |ins|) && InHasRoom(ins[p.vc])
  }

  /** `recvReq`: store the packet, or count it as dropped, or ignore a channel that is not there. */
  function Received(ins: seq<InVc>, p: Packet): (r: seq<InVc>)
    ensures |r| == |ins|
  {
    if !InRange(p.vc, |ins|) then ins
    else if InHasRoom(ins[p.vc]) then ins[p.vc := InStored(ins[p.vc], p)]
    else ins[p.vc := ins[p.vc].(dropped := ins[p.vc].dropped + 1)]
  }

  /** The head of channel `i` is offered to the owner, who answers `accepts`. */
  function Offered(v: InVc, accepts: bool): InVc {
    if v.buffer != [] && accepts then InPopped(v) else v
  }

  /** One receiver tick, channel by channel; `accepts` is the owner's answer for each channel. */
  function ReceiverTick(ins: seq<InVc>, accepts: nat -> bool): (r: seq<InVc>)
    ensures |r| == |ins|
    ensures forall i :: 0 <= i < |ins| ==> r[i] == Offered(ins[i], accepts(i))
  {
    seq(|ins|, i requires 0 <= i < |ins| => Offered(ins[i], accepts(i)))
  }

  /** The first `k` channels of one receiver tick. */
  function ReceiverTicked(ins: seq<InVc>, accepts: nat -> bool, k: nat): (r: seq<InVc>)
    requires k <= |ins|
    ensures |r| == |ins|
    ensures forall i :: 0 <= i < |ins| ==> r[i] == if i < k then Offered(ins[i], accepts(i)) else ins[i]
  {
    if k == 0 then ins
    else
      var r := ReceiverTicked(ins, accepts, k - 1);
      r[k - 1 := Offered(r[k - 1], accepts(k - 1))]
  }

  /** The packet the owner handles on one channel, if any. */
  function TakenHead(v: InVc, accepts: bool): seq<Packet> {
    if v.buffer != [] && accepts then [v.buffer[0]] else []
  }

  /** The packets the owner handles in the first `k` channels of one tick. */
  function HandledBy(ins: seq<InVc>, accepts: nat -> bool, k: nat): seq<Packet>
    requires k <= |ins|
  {
    if k == 0 then [] else HandledBy(ins, accepts, k - 1) + TakenHead(ins[k - 1], accepts(k - 1))
  }

  lemma ReceiverTickStep(ins: seq<InVc>, accepts: nat -> bool, k: nat, now: seq<InVc>)
    requires k < |ins| && now == ReceiverTicked(ins, accepts, k)
    ensures |now| == |ins| && now[k] == ins[k]
    ensures now[k := Offered(now[k], accepts(k))] == ReceiverTicked(ins, accepts, k + 1)
    ensures HandledBy(ins, accepts, k) + TakenHead(now[k], accepts(k)) == HandledBy(ins, accepts, k + 1)
  {
  }

  lemma ReceiverTickDone(ins: seq<InVc>, accepts: nat -> bool)
    ensures ReceiverTicked(ins, accepts, |ins|) == ReceiverTick(ins, accepts)
    ensures ReceiverTicked(ins, accepts, 0) == ins && HandledBy(ins, accepts, 0) == []
  {
  }

  // ---- the sending port ----

  /** `MasterPort::sendReq`: straight over the wire. */
  function SentPlain(l: Link, p: Packet): Link {
    if l.bound then l.(ins := Received(l.ins, p)) else l
  }

  predicate PlainTakes(l: Link, p: Packet) {
    l.bound && ReceiverTakes(l.ins, p)
  }

  /** A packet that may go over the wire at once: its channel has nothing waiting. */
  predicate GoesDirect(l: Link, p: Packet) {
    InRange(p.vc, |l.outs|) && l.outs[p.vc].buffer == [] && PlainTakes(l, p)
  }

  /** `DownstreamPort::sendReq` accepts the packet, by sending it or by keeping it. */
  predicate SenderTakes(l: Link, p: Packet) {
    InRange(p.vc, |l.outs|) && (GoesDirect(l, p) || OutHasRoom(l.outs[p.vc]))
  }

  function Kept(l: Link, p: Packet): Link
    requires InRange(p.vc, |l.outs|)
  {
    var v := l.outs[p.vc];
    l.(outs := l.outs[p.vc := if OutHasRoom(v) then OutStored(v, p) else v.(dropped := v.dropped + 1)])
  }

  function Sent(l: Link, p: Packet): (m: Link)
    ensures |m.outs| == |l.outs|
    ensures forall i :: 0 <= i < |l.outs| && l.outs[i].buffer != [] ==> m.outs[i].buffer != []
  {
    if !InRange(p.vc, |l.outs|) then l
    else if l.outs[p.vc].buffer != [] then Kept(l, p)
    else if PlainTakes(l, p) then SentPlain(l, p)
    else Kept(SentPlain(l, p), p)
  }

  /** `OutputVC::trySend` on the port's own channel `i`: the call goes back to the port's
      `sendReq`, and the head is removed if that accepted it. */
  function Retried(l: Link, i: nat): Link
    requires i < |l.outs|
  {
    var v := l.outs[i];
    if v.buffer == [] then l
    else if SenderTakes(l, v.buffer[0]) then
      var m := Sent(l, v.buffer[0]);
      m.(outs := m.outs[i := OutPopped(m.outs[i])])
    else Sent(l, v.buffer[0])
  }

  /** The first `k` channels of one sender tick. */
  function SenderTicked(l: Link, k: nat): (m: Link)
    requires k <= |l.outs|
    ensures |m.outs| == |l.outs|
  {
    if k == 0 then l else Retried(SenderTicked(l, k - 1), k - 1)
  }

  function SenderTick(l: Link): Link {
    SenderTicked(l, |l.outs|)
  }

  // ---- what a retry really does ----

  /** Packets wait only in the buffer of their own channel, and within its capacity. */
  ghost predicate LinkOk(l: Link) {
    && (forall i :: 0 <= i < |l.outs| ==> OutOk(l.outs[i], i))
    && (forall i :: 0 <= i < |l.ins| ==> InOk(l.ins[i], i))
  }

  ghost predicate OutOk(v: OutVc, i: int) {
    && |v.buffer| <= v.capacity
    && v.enqueued == v.forwarded + |v.buffer|
    && forall p | p in v.buffer :: p.vc == i
  }

  ghost predicate InOk(v: InVc, i: int) {
    && |v.buffer| <= v.capacity
    && v.enqueued == v.processed + |v.buffer|
    && forall p | p in v.buffer :: p.vc == i
  }

  /** One turn of a buffer: the head goes to the back when there is room for one more packet,
      and otherwise the attempt is only counted as a drop. */
  function Turned(v: OutVc): OutVc {
    if v.buffer == [] then v
    else if OutHasRoom(v) then
      v.(buffer := v.buffer[1..] + [v.buffer[0]], enqueued := v.enqueued + 1, forwarded := v.forwarded + 1)
    else v.(dropped := v.dropped + 1)
  }

  /** A retry finds its own channel busy, so it puts the packet back instead of sending it: the
      buffer turns and the receiver sees nothing. */
  lemma RetryTurns(l: Link, i: nat)
    requires i < |l.outs| && OutOk(l.outs[i], i)
    ensures Retried(l, i) == l.(outs := l.outs[i := Turned(l.outs[i])])
  {
    var v := l.outs[i];
    if v.buffer != [] {
      assert v.buffer[0].vc == i;
      if OutHasRoom(v) {
        assert (v.buffer + [v.buffer[0]])[1..] == v.buffer[1..] + [v.buffer[0]];
      }
    } else {
      assert l.outs[i := v] == l.outs;
    }
  }

  lemma {:induction false} TickTurns(l: Link, k: nat)
    requires LinkOk(l) && k <= |l.outs|
    ensures var m := SenderTicked(l, k);
            && m.ins == l.ins && m.bound == l.bound
            && forall i :: 0 <= i < |l.outs| ==> m.outs[i] == if i < k then Turned(l.outs[i]) else l.outs[i]
  {
    if k > 0 {
      TickTurns(l, k - 1);
      RetryTurns(SenderTicked(l, k - 1), k - 1);
    }
  }

  /** A whole sender tick turns every buffer once and delivers nothing. */
  lemma SenderTickDeliversNothing(l: Link)
    requires LinkOk(l)
    ensures SenderTick(l).ins == l.ins && SenderTick(l).bound == l.bound && |SenderTick(l).outs| == |l.outs|
    ensures forall i :: 0 <= i < |l.outs| ==> SenderTick(l).outs[i] == Turned(l.outs[i])
    ensures forall i :: 0 <= i < |l.outs| ==> multiset(SenderTick(l).outs[i].buffer) == multiset(l.outs[i].buffer)
  {
    TickTurns(l, |l.outs|);
    forall i | 0 <= i < |l.outs|
      ensures multiset(Turned(l.outs[i]).buffer) == multiset(l.outs[i].buffer)
    {
      var b := l.outs[i].buffer;
      if b != [] {
        assert b == [b[0]] + b[1..];
      }
    }
  }

  // ---- whole runs ----

  datatype Action = Send(packet: Packet) | TickSender | TickReceiver(accepts: nat -> bool)

  /** The link, the packets `sendReq` accepted and the packets the receiving owner handled. */
  datatype History = History(link: Link, accepted: seq<Packet>, handled: seq<Packet>)

  function Act(h: History, a: Action): History {
    match a
    case Send(p) =>
      History(Sent(h.link, p), if SenderTakes(h.link, p) then h.accepted + [p] else h.accepted, h.handled)
    case TickSender =>
      h.(link := SenderTick(h.link))
    case TickReceiver(accepts) =>
      h.(link := h.link.(ins := ReceiverTick(h.link.ins, accepts)),
         handled := h.handled + HandledBy(h.link.ins, accepts, |h.link.ins|))
  }

  function Play(h: History, actions: seq<Action>): History {
    if actions == [] then h else Act(Play(h, actions[..|actions| - 1]), actions[|actions| - 1])
  }

  /** Ports just built: nothing stored, nothing counted. */
  ghost predicate Fresh(l: Link) {
    && (forall v | v in l.outs :: v.buffer == [] && v.enqueued == v.forwarded == v.dropped == 0)
    && (forall v | v in l.ins :: v.buffer == [] && v.enqueued == v.processed == v.dropped == 0)
  }

  /** The packets of one channel, in order. */
  function OfVc(ps: seq<Packet>, vc: int): seq<Packet> {
    if ps == [] then []
    else
      var p := ps[|ps| - 1];
      OfVc(ps[..|ps| - 1], vc) + if p.vc == vc then [p] else []
  }

  function InBuffer(l: Link, vc: nat): seq<Packet> {
    if vc < |l.ins| then l.ins[vc].buffer else []
  }

  function OutBuffer(l: Link, vc: nat): seq<Packet> {
    if vc < |l.outs| then l.outs[vc].buffer else []
  }

  /** What the receiving side got on a channel: handled by the owner, or in its input buffer. */
  function Reached(h: History, vc: nat): seq<Packet> {
    OfVc(h.handled, vc) + InBuffer(h.link, vc)
  }

  /** The accepted packets of a channel are those that reached the receiver, in order, followed
      in some order by those that wait at the sender. */
  ghost predicate ChannelOk(h: History, vc: nat) {
    Accounted(OfVc(h.accepted, vc), Reached(h, vc), OutBuffer(h.link, vc))
  }

  ghost predicate HistoryOk(h: History) {
    LinkOk(h.link) && forall vc: nat :: ChannelOk(h, vc)
  }

  lemma OfVcOfNone(vc: int)
    ensures OfVc([], vc) == []
  {
  }

  lemma OfVcAppend(ps: seq<Packet>, p: Packet, vc: int)
    ensures OfVc(ps + [p], vc) == OfVc(ps, vc) + if p.vc == vc then [p] else []
  {
    assert (ps + [p])[..|ps|] == ps;
  }

  lemma {:induction false} OfVcConcat(a: seq<Packet>, b: seq<Packet>, vc: int)
    ensures OfVc(a + b, vc) == OfVc(a, vc) + OfVc(b, vc)
  {
    if b == [] {
      assert a + b == a;
    } else {
      assert (a + b)[..|a + b| - 1] == a + b[..|b| - 1];
      OfVcConcat(a, b[..|b| - 1], vc);
    }
  }

  lemma TakenHeadOfVc(v: InVc, i: nat, accepts: bool, vc: nat)
    requires InOk(v, i)
    ensures OfVc(TakenHead(v, accepts), vc) == if vc == i then TakenHead(v, accepts) else []
  {
    if v.buffer != [] {
      assert v.buffer[0].vc == i;
      OfVcAppend([], v.buffer[0], vc);
    }
  }

  /** Of one channel, a receiver tick handles its head if the owner accepts it. */
  lemma {:induction false} HandledOfVc(ins: seq<InVc>, accepts: nat -> bool, k: nat, vc: nat)
    requires k <= |ins| && forall i :: 0 <= i < |ins| ==> InOk(ins[i], i)
    ensures OfVc(HandledBy(ins, accepts, k), vc) == if vc < k then TakenHead(ins[vc], accepts(vc)) else []
  {
    hide InOk, OfVc, TakenHead;
    if k == 0 {
      OfVcOfNone(vc);
    } else {
      HandledOfVc(ins, accepts, k - 1, vc);
      TakenHeadOfVc(ins[k - 1], k - 1, accepts(k - 1), vc);
      OfVcConcat(HandledBy(ins, accepts, k - 1), TakenHead(ins[k - 1], accepts(k - 1)), vc);
    }
  }

  lemma OfferSplits(v: InVc, accepts: bool)
    ensures TakenHead(v, accepts) + Offered(v, accepts).buffer == v.buffer
  {
  }

  lemma ReceiverTickKeepsReached(h: History, accepts: nat -> bool, vc: nat)
    requires LinkOk(h.link)
    ensures Reached(Act(h, TickReceiver(accepts)), vc) == Reached(h, vc)
  {
    hide OfVc, InOk, OutOk, HandledBy, TakenHead, Offered;
    var ins := h.link.ins;
    var handled := HandledBy(ins, accepts, |ins|);
    OfVcConcat(h.handled, handled, vc);
    HandledOfVc(ins, accepts, |ins|, vc);
    if vc < |ins| {
      OfferSplits(ins[vc], accepts(vc));
    }
    Associate(OfVc(h.handled, vc), OfVc(handled, vc), InBuffer(Act(h, TickReceiver(accepts)).link, vc));
  }

  /** What sending `p` does to the two buffers of one channel. */
  lemma SendMoves(l: Link, p: Packet, vc: nat)
    ensures InBuffer(Sent(l, p), vc) == InBuffer(l, vc) + if p.vc == vc && GoesDirect(l, p) then [p] else []
    ensures OutBuffer(Sent(l, p), vc) ==
            OutBuffer(l, vc) + if p.vc == vc && SenderTakes(l, p) && !GoesDirect(l, p) then [p] else []
  {
  }

  /** `got` is what reached the receiver and `left` what waits, of what was accepted. */
  ghost predicate Accounted(accepted: seq<Packet>, got: seq<Packet>, left: seq<Packet>) {
    got <= accepted && multiset(accepted[|got|..]) == multiset(left)
  }

  lemma AccountedDirect(accepted: seq<Packet>, got: seq<Packet>, p: Packet)
    requires Accounted(accepted, got, [])
    ensures Accounted(accepted + [p], got + [p], [])
  {
    assert |multiset(accepted[|got|..])| == 0;
    assert accepted == got;
  }

  lemma AccountedKept(accepted: seq<Packet>, got: seq<Packet>, left: seq<Packet>, p: Packet)
    requires Accounted(accepted, got, left)
    ensures Accounted(accepted + [p], got, left + [p])
  {
    assert (accepted + [p])[|got|..] == accepted[|got|..] + [p];
  }

  lemma SendKeepsChannelOk(h: History, p: Packet, vc: nat)
    requires HistoryOk(h)
    ensures ChannelOk(Act(h, Send(p)), vc)
  {
    hide OfVc, Sent, InBuffer, OutBuffer, PlainTakes, Accounted, LinkOk;
    var n := Act(h, Send(p));
    var accepted, got, left := OfVc(h.accepted, vc), Reached(h, vc), OutBuffer(h.link, vc);
    assert ChannelOk(h, vc);
    OfVcAppend(h.accepted, p, vc);
    SendMoves(h.link, p, vc);
    if p.vc == vc && GoesDirect(h.link, p) {
      NothingWaits(h.link, p);
      AccountedDirect(accepted, got, p);
      Associate(OfVc(h.handled, vc), InBuffer(h.link, vc), [p]);
    } else if p.vc == vc && SenderTakes(h.link, p) {
      AccountedKept(accepted, got, left, p);
      assert Reached(n, vc) == got + [] == got;
    } else {
      assert OfVc(n.accepted, vc) == accepted + [] == accepted || n.accepted == h.accepted;
      assert Reached(n, vc) == got + [] == got && OutBuffer(n.link, vc) == left + [] == left;
    }
  }

  lemma NothingWaits(l: Link, p: Packet)
    requires GoesDirect(l, p)
    ensures OutBuffer(l, p.vc) == [] && SenderTakes(l, p)
  {
  }

  lemma ReceivedKeepsOk(ins: seq<InVc>, p: Packet)
    requires forall i :: 0 <= i < |ins| ==> InOk(ins[i], i)
    ensures forall i :: 0 <= i < |ins| ==> InOk(Received(ins, p)[i], i)
  {
    if InRange(p.vc, |ins|) {
      assert InOk(ins[p.vc], p.vc);
    }
  }

  lemma KeptKeepsOk(l: Link, p: Packet)
    requires LinkOk(l) && InRange(p.vc, |l.outs|)
    ensures LinkOk(Kept(l, p))
  {
    assert OutOk(l.outs[p.vc], p.vc);
  }

  lemma SendKeepsLinkOk(l: Link, p: Packet)
    requires LinkOk(l)
    ensures LinkOk(Sent(l, p))
  {
    hide OutOk, InOk, Received, Kept;
    ReceivedKeepsOk(l.ins, p);
    assert LinkOk(SentPlain(l, p));
    if InRange(p.vc, |l.outs|) {
      KeptKeepsOk(l, p);
      KeptKeepsOk(SentPlain(l, p), p);
    }
  }

  lemma SenderTickKeepsLinkOk(l: Link)
    requires LinkOk(l)
    ensures LinkOk(SenderTick(l))
  {
    hide SenderTick;
    SenderTickDeliversNothing(l);
    forall i | 0 <= i < |l.outs|
      ensures OutOk(Turned(l.outs[i]), i)
    {
      assert OutOk(l.outs[i], i);
    }
  }

  lemma ReceiverTickKeepsOk(ins: seq<InVc>, accepts: nat -> bool)
    requires forall i :: 0 <= i < |ins| ==> InOk(ins[i], i)
    ensures forall i :: 0 <= i < |ins| ==> InOk(ReceiverTick(ins, accepts)[i], i)
  {
    forall i | 0 <= i < |ins|
      ensures InOk(Offered(ins[i], accepts(i)), i)
    {
      assert InOk(ins[i], i);
    }
  }

  lemma ActKeepsLinkOk(h: History, a: Action)
    requires LinkOk(h.link)
    ensures LinkOk(Act(h, a).link)
  {
    hide OutOk, InOk, Sent, SenderTick;
    match a
    case Send(p) => SendKeepsLinkOk(h.link, p);
    case TickSender => SenderTickKeepsLinkOk(h.link);
    case TickReceiver(accepts) => ReceiverTickKeepsOk(h.link.ins, accepts);
  }

  lemma ActKeepsHistoryOk(h: History, a: Action)
    requires HistoryOk(h)
    ensures HistoryOk(Act(h, a))
  {
    ActKeepsLinkOk(h, a);
    forall vc: nat
      ensures ChannelOk(Act(h, a), vc)
    {
      assert ChannelOk(h, vc);
      match a
      case Send(p) => SendKeepsChannelOk(h, p, vc);
      case TickSender => SenderTickDeliversNothing(h.link);
      case TickReceiver(accepts) => ReceiverTickKeepsReached(h, accepts, vc);
    }
  }

  /** For every interleaving of sends and of ticks on both sides, on every channel: what reached
      the receiver is a prefix of what was accepted; the rest is exactly what waits in the
      sender's buffer, as a multiset; the two agree when and only when nothing waits; and every
      buffer stays within its capacity with its counters balanced. */
  lemma {:induction false} AcceptedIsReachedThenWaiting(l: Link, actions: seq<Action>)
    requires Fresh(l)
    ensures var h := Play(History(l, [], []), actions);
            && HistoryOk(h)
            && forall vc: nat ::
                && Reached(h, vc) <= OfVc(h.accepted, vc)
                && multiset(OfVc(h.accepted, vc)[|Reached(h, vc)|..]) == multiset(OutBuffer(h.link, vc))
                && (Reached(h, vc) == OfVc(h.accepted, vc) <==> OutBuffer(h.link, vc) == [])
  {
    if actions == [] {
      assert forall vc: nat :: ChannelOk(History(l, [], []), vc);
    } else {
      AcceptedIsReachedThenWaiting(l, actions[..|actions| - 1]);
      ActKeepsHistoryOk(Play(History(l, [], []), actions[..|actions| - 1]), actions[|actions| - 1]);
    }
    var h := Play(History(l, [], []), actions);
    forall vc: nat
      ensures Reached(h, vc) <= OfVc(h.accepted, vc)
      ensures multiset(OfVc(h.accepted, vc)[|Reached(h, vc)|..]) == multiset(OutBuffer(h.link, vc))
      ensures Reached(h, vc) == OfVc(h.accepted, vc) <==> OutBuffer(h.link, vc) == []
    {
      assert ChannelOk(h, vc);
      var rest := OfVc(h.accepted, vc)[|Reached(h, vc)|..];
      assert |rest| == |multiset(rest)| == |multiset(OutBuffer(h.link, vc))| == |OutBuffer(h.link, vc)|;
    }
  }

  // ---- a channel that has started to wait ----

  lemma ActNeverDrains(h: History, a: Action, vc: nat)
    requires LinkOk(h.link) && OutBuffer(h.link, vc) != []
    ensures Reached(Act(h, a), vc) == Reached(h, vc)
    ensures multiset(OutBuffer(h.link, vc)) <= multiset(OutBuffer(Act(h, a).link, vc))
    ensures OutBuffer(Act(h, a).link, vc) != []
  {
    match a
    case Send(p) =>
    case TickSender =>
      SenderTickDeliversNothing(h.link);
      assert |multiset(OutBuffer(h.link, vc))| > 0;
    case TickReceiver(accepts) =>
      ReceiverTickKeepsReached(h, accepts, vc);
  }

  /** Once a packet waits on a channel, nothing more of that channel ever reaches the receiver:
      no later packet overtakes by a direct send, and no tick, however often and with however
      much room, forwards a waiting one. */
  lemma {:induction false} OnceWaitingNeverDrains(h: History, actions: seq<Action>, vc: nat)
    requires LinkOk(h.link) && OutBuffer(h.link, vc) != []
    ensures var n := Play(h, actions);
            && LinkOk(n.link)
            && Reached(n, vc) == Reached(h, vc)
            && OutBuffer(n.link, vc) != []
            && multiset(OutBuffer(h.link, vc)) <= multiset(OutBuffer(n.link, vc))
  {
    if actions != [] {
      OnceWaitingNeverDrains(h, actions[..|actions| - 1], vc);
      var m := Play(h, actions[..|actions| - 1]);
      ActKeepsLinkOk(m, actions[|actions| - 1]);
      ActNeverDrains(m, actions[|actions| - 1], vc);
    }
  }

  // The smallest case, step by step: a sender with room for two, a receiver with room for one.

  function SmallLink(waiting: seq<Packet>, enqueued: nat, forwarded: nat, v: InVc): Link {
    Link([OutVc(waiting, 2, enqueued, forwarded, 0)], [v], true)
  }

  lemma FirstGoesDirect(first: Packet)
    requires first.vc == 0
    ensures Act(History(SmallLink([], 0, 0, InVc([], 1, 0, 0, 0)), [], []), Send(first)) ==
            History(SmallLink([], 0, 0, InVc([first], 1, 1, 0, 0)), [first], [])
  {
    assert [] + [first] == [first];
    var v := InVc([], 1, 0, 0, 0);
    assert Received([v], first) == [InVc([first], 1, 1, 0, 0)];
  }

  lemma SecondWaits(first: Packet, second: Packet)
    requires first.vc == 0 && second.vc == 0
    ensures Act(History(SmallLink([], 0, 0, InVc([first], 1, 1, 0, 0)), [first], []), Send(second)) ==
            History(SmallLink([second], 1, 0, InVc([first], 1, 1, 1, 0)), [first, second], [])
  {
    assert [] + [second] == [second] && [first] + [second] == [first, second];
    var l := SmallLink([], 0, 0, InVc([first], 1, 1, 0, 0));
    assert Received(l.ins, second) == [InVc([first], 1, 1, 1, 0)];
    assert Sent(l, second).outs == [OutVc([second], 2, 1, 0, 0)];
  }

  lemma FirstIsHandled(first: Packet, second: Packet, accepts: nat -> bool)
    requires accepts(0)
    ensures Act(History(SmallLink([second], 1, 0, InVc([first], 1, 1, 1, 0)), [first, second], []), TickReceiver(accepts)) ==
            History(SmallLink([second], 1, 0, InVc([], 1, 1, 1, 1)), [first, second], [first])
  {
    var v := InVc([first], 1, 1, 1, 0);
    assert HandledBy([v], accepts, 0) == [] && [] + [first] == [first];
    assert HandledBy([v], accepts, 1) == HandledBy([v], accepts, 0) + TakenHead(v, accepts(0));
    assert [first][1..] == [] && Offered(v, accepts(0)) == InVc([], 1, 1, 1, 1);
    assert ReceiverTick([v], accepts) == [InVc([], 1, 1, 1, 1)];
  }

  lemma SecondStays(first: Packet, second: Packet)
    requires second.vc == 0
    ensures Act(History(SmallLink([second], 1, 0, InVc([], 1, 1, 1, 1)), [first, second], [first]), TickSender) ==
            History(SmallLink([second], 2, 1, InVc([], 1, 1, 1, 1)), [first, second], [first])
  {
    var l := SmallLink([second], 1, 0, InVc([], 1, 1, 1, 1));
    RetryTurns(l, 0);
    assert SenderTicked(l, 0) == l;
  }

  /** The second packet finds the receiver full and waits; the receiver then empties its buffer, the
      sender ticks, and the packet still waits: counted as forwarded, but not gone. */
  lemma WaitingPacketIsNotForwarded(first: Packet, second: Packet, accepts: nat -> bool)
    requires first.vc == 0 && second.vc == 0 && accepts(0)
    ensures var begun := History(SmallLink([], 0, 0, InVc([], 1, 0, 0, 0)), [], []);
            var sent := Act(Act(begun, Send(first)), Send(second));
            var end := Act(Act(sent, TickReceiver(accepts)), TickSender);
            && end.accepted == [first, second]
            && end.handled == [first]
            && end.link == SmallLink([second], 2, 1, InVc([], 1, 1, 1, 1))
  {
    hide Act;
    FirstGoesDirect(first);
    SecondWaits(first, second);
    FirstIsHandled(first, second, accepts);
    SecondStays(first, second);
  }

  // ---- the same retry against a port whose sendReq is the plain one ----

  /** `trySend` when the call is not overridden. */
  function PlainRetried(l: Link, i: nat): (m: Link)
    requires i < |l.outs|
    ensures |m.outs| == |l.outs| && |m.ins| == |l.ins|
  {
    var v := l.outs[i];
    if v.buffer == [] then l
    else if PlainTakes(l, v.buffer[0]) then
      SentPlain(l, v.buffer[0]).(outs := l.outs[i := OutPopped(v)])
    else SentPlain(l, v.buffer[0])
  }

  /** The port's own retry does what the plain one does exactly when nothing waits. */
  lemma RetryIsPlainExactly(l: Link, i: nat)
    requires i < |l.outs| && OutOk(l.outs[i], i)
    ensures Retried(l, i) == PlainRetried(l, i) <==> l.outs[i].buffer == []
  {
    RetryTurns(l, i);
    var v := l.outs[i];
    if v.buffer != [] {
      var t, m := Turned(v), PlainRetried(l, i).outs[i];
      assert Retried(l, i).outs[i] == t;
      assert t.enqueued == v.enqueued + 1 || t.dropped == v.dropped + 1;
      assert m.enqueued == v.enqueued && m.dropped == v.dropped;
    }
  }

  function PlainRetries(l: Link, i: nat, n: nat): (m: Link)
    requires i < |l.outs|
    ensures |m.outs| == |l.outs| && |m.ins| == |l.ins|
  {
    if n == 0 then l else PlainRetried(PlainRetries(l, i, n - 1), i)
  }

  /** Such a retry only moves packets along their channel: the input buffer followed by the
      output buffer never changes. */
  lemma PlainRetryKeepsLine(l: Link, i: nat)
    requires LinkOk(l) && i < |l.outs| && i < |l.ins|
    ensures LinkOk(PlainRetried(l, i)) && PlainRetried(l, i).bound == l.bound
    ensures var m := PlainRetried(l, i);
            && InBuffer(m, i) + OutBuffer(m, i) == InBuffer(l, i) + OutBuffer(l, i)
            && m.ins[i].capacity == l.ins[i].capacity
            && |OutBuffer(m, i)| ==
               if l.bound && OutBuffer(l, i) != [] && InHasRoom(l.ins[i]) then |OutBuffer(l, i)| - 1 else |OutBuffer(l, i)|
  {
    var b := l.outs[i].buffer;
    if b != [] {
      assert b[0].vc == i;
      assert b == [b[0]] + b[1..];
    }
  }

  lemma {:induction false} PlainRetriesMove(l: Link, i: nat, n: nat)
    requires LinkOk(l) && i < |l.outs| && i < |l.ins| && l.bound
    requires |InBuffer(l, i)| + |OutBuffer(l, i)| <= l.ins[i].capacity && n <= |OutBuffer(l, i)|
    ensures var m := PlainRetries(l, i, n);
            && LinkOk(m) && m.bound && m.ins[i].capacity == l.ins[i].capacity
            && InBuffer(m, i) + OutBuffer(m, i) == InBuffer(l, i) + OutBuffer(l, i)
            && |OutBuffer(m, i)| == |OutBuffer(l, i)| - n
  {
    hide LinkOk, PlainRetried;
    if n > 0 {
      PlainRetriesMove(l, i, n - 1);
      var m := PlainRetries(l, i, n - 1);
      assert |InBuffer(m, i)| + |OutBuffer(m, i)| == |InBuffer(m, i) + OutBuffer(m, i)|;
      PlainRetryKeepsLine(m, i);
    }
  }

  /** With room enough at the receiver, as many retries as packets drain a channel in order, one
      packet a retry. */
  lemma PlainRetriesDrain(l: Link, i: nat, n: nat)
    requires LinkOk(l) && i < |l.outs| && i < |l.ins| && l.bound
    requires |InBuffer(l, i)| + |OutBuffer(l, i)| <= l.ins[i].capacity && n <= |OutBuffer(l, i)|
    ensures var m := PlainRetries(l, i, n);
            && LinkOk(m)
            && InBuffer(m, i) + OutBuffer(m, i) == InBuffer(l, i) + OutBuffer(l, i)
            && |OutBuffer(m, i)| == |OutBuffer(l, i)| - n
            && (n == |OutBuffer(l, i)| ==> InBuffer(m, i) == InBuffer(l, i) + OutBuffer(l, i))
  {
    hide LinkOk, PlainRetries;
    PlainRetriesMove(l, i, n);
    var m := PlainRetries(l, i, n);
    if n == |OutBuffer(l, i)| {
      assert OutBuffer(m, i) == [];
      assert InBuffer(m, i) + [] == InBuffer(m, i);
    }
  }
}
