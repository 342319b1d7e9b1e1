/** What the virtual-channel link must do, in lengths and counts: when a send is refused, where an
    accepted packet goes, how fast a receiver empties a channel, and what every counter counts. */
module VcLaws {
  import opened Basics
  import opened VcLink

  // ---- one send ----

  /** A send is refused for a channel that is not there; and otherwise exactly when the sender's
      buffer is full and the packet cannot go over the wire at once: because something waits, or
      there is no wire, or the receiver lacks the channel or is full there. */
  lemma RefusedExactly(l: Link, p: Packet)
    requires LinkOk(l)
    ensures !SenderTakes(l, p) <==>
            || p.vc < 0 || p.vc >= |l.outs|
            || (|l.outs[p.vc].buffer| == l.outs[p.vc].capacity
                && (|l.outs[p.vc].buffer| > 0 || !l.bound || p.vc >= |l.ins| || |l.ins[p.vc].buffer| == l.ins[p.vc].capacity))
  {
    if 0 <= p.vc < |l.outs| {
      assert OutOk(l.outs[p.vc], p.vc);
    }
    if 0 <= p.vc < |l.ins| {
      assert InOk(l.ins[p.vc], p.vc);
    }
  }

  /** An accepted packet joins the receiver's buffer exactly when nothing of its channel waits, there
      is a wire, and the receiver has the channel and is not full there; otherwise it joins the
      sender's.  A refused one joins neither, and other channels never change. */
  lemma AcceptedGoesWhere(l: Link, p: Packet, vc: nat)
    requires LinkOk(l)
    ensures var over := p.vc == vc && vc < |l.outs| && |l.outs[vc].buffer| == 0 && l.bound
                        && vc < |l.ins| && |l.ins[vc].buffer| < l.ins[vc].capacity;
            && InBuffer(Sent(l, p), vc) == InBuffer(l, vc) + (if over then [p] else [])
            && OutBuffer(Sent(l, p), vc) == OutBuffer(l, vc) + (if p.vc == vc && SenderTakes(l, p) && !over then [p] else [])
    ensures |Sent(l, p).outs| == |l.outs| && |Sent(l, p).ins| == |l.ins| && Sent(l, p).bound == l.bound
    ensures forall i :: 0 <= i < |l.outs| ==> Sent(l, p).outs[i].capacity == l.outs[i].capacity
    ensures forall i :: 0 <= i < |l.ins| ==> Sent(l, p).ins[i].capacity == l.ins[i].capacity
  {
    SendMoves(l, p, vc);
  }

  // ---- a run of sends against a receiver that takes nothing ----

  /** Nothing goes over the wire on this channel. */
  predicate Blocked(l: Link, vc: nat) {
    !l.bound || vc >= |l.ins| || |l.ins[vc].buffer| == l.ins[vc].capacity
  }

  function Sends(ps: seq<Packet>): (actions: seq<Action>)
    ensures |actions| == |ps|
    ensures forall i :: 0 <= i < |ps| ==> actions[i] == Send(ps[i])
  {
    seq(|ps|, i requires 0 <= i < |ps| => Send(ps[i]))
  }

  function Smaller(a: nat, b: nat): nat {
    if a <= b then a else b
  }

  lemma SendBlocked(h: History, p: Packet, vc: nat)
    requires LinkOk(h.link) && vc < |h.link.outs| && Blocked(h.link, vc) && p.vc == vc
    ensures var v := h.link.outs[vc];
            var n := Act(h, Send(p));
            && LinkOk(n.link) && vc < |n.link.outs| && Blocked(n.link, vc)
            && n.link.outs[vc].capacity == v.capacity
            && |v.buffer| <= v.capacity
            && (if |v.buffer| < v.capacity then n.accepted == h.accepted + [p] && n.link.outs[vc].buffer == v.buffer + [p]
                else n.accepted == h.accepted && n.link.outs[vc].buffer == v.buffer)
  {
    hide Sent, SenderTakes;
    assert OutOk(h.link.outs[vc], vc);
    RefusedExactly(h.link, p);
    AcceptedGoesWhere(h.link, p, vc);
    SendKeepsLinkOk(h.link, p);
  }

  lemma FirstOf(log: seq<Packet>, ps: seq<Packet>, c: nat)
    requires ps != []
    ensures var rest, p := ps[..|ps| - 1], ps[|ps| - 1];
            && |rest[..Smaller(c, |rest|)]| == Smaller(c, |rest|)
            && (if |rest| < c then
                  rest[..Smaller(c, |rest|)] + [p] == ps[..Smaller(c, |ps|)]
                  && log + rest[..Smaller(c, |rest|)] + [p] == log + ps[..Smaller(c, |ps|)]
                else rest[..Smaller(c, |rest|)] == ps[..Smaller(c, |ps|)])
  {
    if |ps| - 1 < c {
      assert ps[..|ps| - 1] + [ps[|ps| - 1]] == ps;
      Associate(log, ps[..|ps| - 1], [ps[|ps| - 1]]);
    }
  }

  /** A channel of capacity `c` with nothing waiting, when nothing goes over the wire, accepts exactly
      the first `c` of any sends, keeps them in order, and refuses the rest. */
  lemma {:induction false} AcceptsCapacityManySends(h: History, ps: seq<Packet>, vc: nat)
    requires LinkOk(h.link) && vc < |h.link.outs| && Blocked(h.link, vc) && h.link.outs[vc].buffer == []
    requires forall p :: p in ps ==> p.vc == vc
    ensures var n := Play(h, Sends(ps));
            var c := h.link.outs[vc].capacity;
            && LinkOk(n.link) && vc < |n.link.outs| && Blocked(n.link, vc) && n.link.outs[vc].capacity == c
            && n.accepted == h.accepted + ps[..Smaller(c, |ps|)]
            && n.link.outs[vc].buffer == ps[..Smaller(c, |ps|)]
  {
    hide Act, Blocked, LinkOk;
    if ps == [] {
      assert Sends(ps) == [];
    } else {
      var rest, p := ps[..|ps| - 1], ps[|ps| - 1];
      assert Sends(ps)[..|ps| - 1] == Sends(rest) && p in ps;
      AcceptsCapacityManySends(h, rest, vc);
      SendBlocked(Play(h, Sends(rest)), p, vc);
      var c := h.link.outs[vc].capacity;
      FirstOf(h.accepted, ps, c);
    }
  }

  // ---- the receiver ----

  /** The packets one tick handles, over all channels, are in the order of the channels, at most one
      of each. */
  lemma {:induction false} HandledInChannelOrder(ins: seq<InVc>, accepts: nat -> bool, k: nat)
    requires k <= |ins| && forall i :: 0 <= i < |ins| ==> InOk(ins[i], i)
    ensures forall i :: 0 <= i < |HandledBy(ins, accepts, k)| ==> 0 <= HandledBy(ins, accepts, k)[i].vc < k
    ensures forall i, j :: 0 <= i < j < |HandledBy(ins, accepts, k)| ==>
                             HandledBy(ins, accepts, k)[i].vc < HandledBy(ins, accepts, k)[j].vc
  {
    if k > 0 {
      HandledInChannelOrder(ins, accepts, k - 1);
      assert InOk(ins[k - 1], k - 1);
    }
  }

  /** `n` ticks in which the owner accepts what this channel offers; `others` answers for the rest. */
  function AcceptingTicks(others: nat -> nat -> bool, vc: nat, n: nat): (actions: seq<Action>)
    ensures |actions| == n
  {
    seq(n, i requires 0 <= i < n => TickReceiver((c: nat) => c == vc || others(i)(c)))
  }

  lemma AcceptingTick(h: History, accepts: nat -> bool, vc: nat)
    requires LinkOk(h.link) && accepts(vc)
    ensures var n := Act(h, TickReceiver(accepts));
            var b := InBuffer(h.link, vc);
            && LinkOk(n.link)
            && OfVc(n.handled, vc) == OfVc(h.handled, vc) + b[..Smaller(1, |b|)]
            && InBuffer(n.link, vc) == b[Smaller(1, |b|)..]
  {
    hide OfVc, HandledBy, InOk, OutOk;
    ActKeepsLinkOk(h, TickReceiver(accepts));
    var ins := h.link.ins;
    HandledOfVc(ins, accepts, |ins|, vc);
    OfVcConcat(h.handled, HandledBy(ins, accepts, |ins|), vc);
  }

  lemma NoneTaken(log: seq<Packet>, b: seq<Packet>)
    ensures Smaller(0, |b|) == 0 && log + b[..0] == log && b[0..] == b
  {
  }

  lemma OneMoreTaken(log: seq<Packet>, b: seq<Packet>, n: nat)
    requires n >= 1
    ensures var k := Smaller(n - 1, |b|);
            var d := b[k..];
            && log + b[..k] + d[..Smaller(1, |d|)] == log + b[..Smaller(n, |b|)]
            && d[Smaller(1, |d|)..] == b[Smaller(n, |b|)..]
  {
    var k := Smaller(n - 1, |b|);
    var d := b[k..];
    assert b[..k] + d[..Smaller(1, |d|)] == b[..Smaller(n, |b|)];
    Associate(log, b[..k], d[..Smaller(1, |d|)]);
  }

  /** An owner that accepts gets a packet a tick, in order, until the channel is empty. */
  lemma {:induction false} AcceptingOwnerDrains(h: History, others: nat -> nat -> bool, vc: nat, n: nat)
    requires LinkOk(h.link)
    ensures var m := Play(h, AcceptingTicks(others, vc, n));
            var b := InBuffer(h.link, vc);
            && LinkOk(m.link)
            && OfVc(m.handled, vc) == OfVc(h.handled, vc) + b[..Smaller(n, |b|)]
            && InBuffer(m.link, vc) == b[Smaller(n, |b|)..]
  {
    hide Act, LinkOk, OfVc, InBuffer, Smaller;
    var b := InBuffer(h.link, vc);
    var ticks := AcceptingTicks(others, vc, n);
    if n == 0 {
      assert ticks == [];
      NoneTaken(OfVc(h.handled, vc), b);
    } else {
      assert ticks[..n - 1] == AcceptingTicks(others, vc, n - 1);
      AcceptingOwnerDrains(h, others, vc, n - 1);
      var m := Play(h, ticks[..n - 1]);
      var accepts: nat -> bool := ticks[n - 1].accepts;
      AcceptingTick(m, accepts, vc);
      OneMoreTaken(OfVc(h.handled, vc), b, n);
    }
  }

  /** An owner that refuses is offered the same packet again: nothing of the channel changes. */
  lemma RefusedHeadStays(h: History, accepts: nat -> bool, vc: nat)
    requires LinkOk(h.link) && !accepts(vc)
    ensures var n := Act(h, TickReceiver(accepts));
            OfVc(n.handled, vc) == OfVc(h.handled, vc) && InBuffer(n.link, vc) == InBuffer(h.link, vc)
  {
    hide OfVc, HandledBy;
    var ins := h.link.ins;
    HandledOfVc(ins, accepts, |ins|, vc);
    OfVcConcat(h.handled, HandledBy(ins, accepts, |ins|), vc);
  }

  // ---- counters over whole runs ----

  /** What happened on one channel in a run, counted from lengths and capacities only: sends refused,
      sends that found the receiver full, sender ticks that turned the buffer and those that found
      it full. */
  datatype Tally = Tally(refused: nat, bounced: nat, turned: nat, stuck: nat)

  function Tallied(t: Tally, h: History, a: Action, vc: nat): Tally
    requires vc < |h.link.outs|
  {
    var waiting, room := |h.link.outs[vc].buffer|, h.link.outs[vc].capacity;
    match a
    case Send(p) =>
      if p.vc != vc then t
      else
        var full := h.link.bound && vc < |h.link.ins| && |h.link.ins[vc].buffer| == h.link.ins[vc].capacity;
        t.(refused := t.refused + (if |Act(h, a).accepted| == |h.accepted| then 1 else 0),
           bounced := t.bounced + (if waiting == 0 && full then 1 else 0))
    case TickSender =>
      if waiting == 0 then t
      else if waiting < room then t.(turned := t.turned + 1)
      else t.(stuck := t.stuck + 1)
    case TickReceiver(_) => t
  }

  ghost predicate SameShape(h: History, n: History) {
    && |n.link.outs| == |h.link.outs| && |n.link.ins| == |h.link.ins| && n.link.bound == h.link.bound
    && (forall i :: 0 <= i < |h.link.outs| ==> n.link.outs[i].capacity == h.link.outs[i].capacity)
    && (forall i :: 0 <= i < |h.link.ins| ==> n.link.ins[i].capacity == h.link.ins[i].capacity)
  }

  lemma ActKeepsShape(h: History, a: Action)
    requires LinkOk(h.link)
    ensures SameShape(h, Act(h, a)) && LinkOk(Act(h, a).link)
  {
    ActKeepsLinkOk(h, a);
    match a
    case Send(p) => AcceptedGoesWhere(h.link, p, 0);
    case TickSender => SenderTickDeliversNothing(h.link);
    case TickReceiver(_) =>
  }

  lemma {:induction false} PlayKeepsShape(h: History, actions: seq<Action>)
    requires LinkOk(h.link)
    ensures SameShape(h, Play(h, actions)) && LinkOk(Play(h, actions).link)
  {
    hide LinkOk, Act;
    if actions != [] {
      PlayKeepsShape(h, actions[..|actions| - 1]);
      ActKeepsShape(Play(h, actions[..|actions| - 1]), actions[|actions| - 1]);
    }
  }

  ghost function TallyOf(h: History, actions: seq<Action>, vc: nat): Tally
    requires LinkOk(h.link) && vc < |h.link.outs|
  {
    if actions == [] then Tally(0, 0, 0, 0)
    else
      var less := actions[..|actions| - 1];
      PlayKeepsShape(h, less);
      Tallied(TallyOf(h, less, vc), Play(h, less), actions[|actions| - 1], vc)
  }

  /** One sender's counters: a drop for every refused send and every tick that found the buffer full,
      a forward for every turn. */
  lemma OutCountersStep(t: Tally, h: History, a: Action, vc: nat)
    requires LinkOk(h.link) && vc < |h.link.outs|
    ensures vc < |Act(h, a).link.outs|
    ensures var v, n, u := h.link.outs[vc], Act(h, a).link.outs[vc], Tallied(t, h, a, vc);
            && n.dropped - v.dropped == (u.refused - t.refused) + (u.stuck - t.stuck)
            && n.forwarded - v.forwarded == u.turned - t.turned
  {
    assert OutOk(h.link.outs[vc], vc);
    match a
    case Send(p) =>
      assert 0 <= p.vc < |h.link.outs| ==> OutOk(h.link.outs[p.vc], p.vc);
    case TickSender => SenderTickDeliversNothing(h.link);
    case TickReceiver(_) =>
  }

  /** One receiver's drops are the sends that found it full. */
  lemma InCountersStep(t: Tally, h: History, a: Action, vc: nat)
    requires LinkOk(h.link) && vc < |h.link.outs| && vc < |h.link.ins|
    ensures vc < |Act(h, a).link.ins|
    ensures Act(h, a).link.ins[vc].dropped - h.link.ins[vc].dropped == Tallied(t, h, a, vc).bounced - t.bounced
  {
    assert InOk(h.link.ins[vc], vc);
    match a
    case Send(p) =>
    case TickSender => SenderTickDeliversNothing(h.link);
    case TickReceiver(_) =>
  }

  /** From new ports on, at the end of every run: a sender's channel has dropped once for every send
      refused and every tick that found it full, has forwarded once for every turn of its buffer,
      and has stored those and the packets that wait; a receiver's has dropped every send that found
      it full, processed what the owner handled and stored what reached it. */
  lemma {:induction false} CountersCount(l: Link, actions: seq<Action>, vc: nat)
    requires Fresh(l) && LinkOk(l) && vc < |l.outs|
    ensures var t, h := TallyOf(History(l, [], []), actions, vc), Play(History(l, [], []), actions);
            && |h.link.outs| == |l.outs| && |h.link.ins| == |l.ins|
            && h.link.outs[vc].dropped == t.refused + t.stuck
            && h.link.outs[vc].forwarded == t.turned
            && h.link.outs[vc].enqueued == t.turned + |h.link.outs[vc].buffer|
            && (vc < |l.ins| ==>
                  && h.link.ins[vc].dropped == t.bounced
                  && h.link.ins[vc].processed == |OfVc(h.handled, vc)|
                  && h.link.ins[vc].enqueued == |OfVc(h.handled, vc)| + |h.link.ins[vc].buffer|)
  {
    hide Act, LinkOk, OfVc, Tallied;
    var begun := History(l, [], []);
    PlayKeepsShape(begun, actions);
    if actions == [] {
      NewChannelCounts(l, vc);
    } else {
      var less, a := actions[..|actions| - 1], actions[|actions| - 1];
      PlayKeepsShape(begun, less);
      CountersCount(l, less, vc);
      var h := Play(begun, less);
      OutCountersStep(TallyOf(begun, less, vc), h, a, vc);
      if vc < |l.ins| {
        InCountersStep(TallyOf(begun, less, vc), h, a, vc);
        ProcessedStep(h, a, vc);
        StoredCounts(Play(begun, actions).link, vc);
      }
      StoredCounts(Play(begun, actions).link, vc);
    }
  }

  lemma NewChannelCounts(l: Link, vc: nat)
    requires Fresh(l) && vc < |l.outs|
    ensures l.outs[vc].dropped == l.outs[vc].forwarded == l.outs[vc].enqueued == |l.outs[vc].buffer| == 0
    ensures vc < |l.ins| ==> l.ins[vc].dropped == l.ins[vc].processed == l.ins[vc].enqueued == |l.ins[vc].buffer| == 0
    ensures OfVc([], vc) == []
  {
    assert l.outs[vc] in l.outs;
    assert vc < |l.ins| ==> l.ins[vc] in l.ins;
  }

  lemma StoredCounts(l: Link, vc: nat)
    requires LinkOk(l) && vc < |l.outs|
    ensures l.outs[vc].enqueued == l.outs[vc].forwarded + |l.outs[vc].buffer|
    ensures vc < |l.ins| ==> l.ins[vc].enqueued == l.ins[vc].processed + |l.ins[vc].buffer|
  {
    assert OutOk(l.outs[vc], vc);
    assert vc < |l.ins| ==> InOk(l.ins[vc], vc);
  }

  lemma ProcessedStep(h: History, a: Action, vc: nat)
    requires LinkOk(h.link) && vc < |h.link.ins|
    ensures vc < |Act(h, a).link.ins|
    ensures Act(h, a).link.ins[vc].processed - h.link.ins[vc].processed == |OfVc(Act(h, a).handled, vc)| - |OfVc(h.handled, vc)|
  {
    hide OfVc, HandledBy, Kept;
    match a
    case Send(p) =>
      SentKeepsProcessed(h.link, p, vc);
    case TickSender => SenderTickDeliversNothing(h.link);
    case TickReceiver(accepts) =>
      var ins := h.link.ins;
      HandledOfVc(ins, accepts, |ins|, vc);
      OfVcConcat(h.handled, HandledBy(ins, accepts, |ins|), vc);
  }

  lemma SentKeepsProcessed(l: Link, p: Packet, vc: nat)
    requires vc < |l.ins|
    ensures |Sent(l, p).ins| == |l.ins| && Sent(l, p).ins[vc].processed == l.ins[vc].processed
  {
  }
}
