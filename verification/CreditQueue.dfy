/** What becomes of the streams that wait for credits, over whole runs of the pool. */
module CreditQueue {
  import opened Basics
  import opened CreditPool

  /** The credits stream `s` waits for. */
  function Queued(q: seq<Wait>, s: Stream): int {
    if q == [] then 0 else Queued(q[..|q| - 1], s) + if q[|q| - 1].stream == s then q[|q| - 1].count else 0
  }

  lemma {:induction false} QueuedJoin(a: seq<Wait>, b: seq<Wait>, s: Stream)
    ensures Queued(a + b, s) == Queued(a, s) + Queued(b, s)
  {
    if b == [] {
      assert a + b == a;
    } else {
      assert (a + b)[..|a + b| - 1] == a + b[..|b| - 1];
      QueuedJoin(a, b[..|b| - 1], s);
    }
  }

  lemma QueuedFirst(q: seq<Wait>, s: Stream)
    requires q != []
    ensures Queued(q, s) == (if q[0].stream == s then q[0].count else 0) + Queued(q[1..], s)
  {
    assert q == [q[0]] + q[1..];
    QueuedJoin([q[0]], q[1..], s);
    assert [q[0]][..0] == [];
  }

  // ---- one wake-up, turn by turn ----

  /** The credits available when the turn of the `i`th waiter comes: every waiter before it that
      could be granted all it waits for was. */
  function AtTurn(q: seq<Wait>, available: int, i: nat): int
    requires i <= |q|
  {
    if i == 0 then available
    else
      var c := AtTurn(q, available, i - 1);
      if q[i - 1].count <= c then c - q[i - 1].count else c
  }

  /** Those of the first `k` waiters that could not be granted at their turn, in order. */
  function PassedOver(q: seq<Wait>, available: int, k: nat): seq<Wait>
    requires k <= |q|
  {
    if k == 0 then []
    else PassedOver(q, available, k - 1) + if q[k - 1].count <= AtTurn(q, available, k - 1) then [] else [q[k - 1]]
  }

  lemma {:induction false} TurnsAfterFirst(q: seq<Wait>, available: int, k: nat)
    requires q != [] && k < |q|
    ensures var c := if q[0].count <= available then available - q[0].count else available;
            && AtTurn(q, available, k + 1) == AtTurn(q[1..], c, k)
            && PassedOver(q, available, k + 1) ==
               (if q[0].count <= available then [] else [q[0]]) + PassedOver(q[1..], c, k)
  {
    if k > 0 {
      TurnsAfterFirst(q, available, k - 1);
      var c := if q[0].count <= available then available - q[0].count else available;
      assert q[1..][k - 1] == q[k];
      Associate(if q[0].count <= available then [] else [q[0]], PassedOver(q[1..], c, k - 1),
                if q[k].count <= AtTurn(q[1..], c, k - 1) then [] else [q[k]]);
    } else {
      assert AtTurn(q, available, 0) == available && PassedOver(q, available, 0) == [];
    }
  }

  lemma {:induction false} WakeTurns(p: Pool)
    ensures Wake(p).available == AtTurn(p.waiting, p.available, |p.waiting|)
    ensures Wake(p).waiting == PassedOver(p.waiting, p.available, |p.waiting|)
    ensures Wake(p).reserved == p.reserved
    decreases |p.waiting|
  {
    hide AtTurn, PassedOver, Wake;
    var q := p.waiting;
    if q == [] {
      NoTurns(p);
    } else {
      var next := if q[0].count <= p.available then GrantFirst(p) else p.(waiting := q[1..]);
      WakeOne(p);
      TurnsAfterFirst(q, p.available, |q| - 1);
      WakeTurns(next);
    }
  }

  lemma NoTurns(p: Pool)
    requires p.waiting == []
    ensures Wake(p) == p && AtTurn([], p.available, 0) == p.available && PassedOver([], p.available, 0) == []
  {
  }

  lemma {:induction false} WakeUse(p: Pool, s: Stream)
    ensures Get(Wake(p).used, s) - Get(p.used, s) == Queued(p.waiting, s) - Queued(Wake(p).waiting, s)
    decreases |p.waiting|
  {
    hide Wake, Queued;
    var q := p.waiting;
    if q == [] {
      NoTurns(p);
    } else {
      WakeOne(p);
      QueuedFirst(q, s);
      if q[0].count <= p.available {
        WakeUse(GrantFirst(p), s);
      } else {
        var next := p.(waiting := q[1..]);
        WakeUse(next, s);
        QueuedFirst([q[0]] + Wake(next).waiting, s);
        assert ([q[0]] + Wake(next).waiting)[1..] == Wake(next).waiting;
      }
    }
  }

  /** A wake-up goes through the waiters once: each is granted all it waits for, and leaves, exactly
      if that much is available at its turn; the others stay in order; and each stream uses so
      much more as it has stopped to wait for. */
  lemma WakeTurnByTurn(p: Pool)
    ensures Wake(p).available == AtTurn(p.waiting, p.available, |p.waiting|)
    ensures Wake(p).waiting == PassedOver(p.waiting, p.available, |p.waiting|)
    ensures Wake(p).reserved == p.reserved
    ensures forall s :: Get(Wake(p).used, s) - Get(p.used, s) == Queued(p.waiting, s) - Queued(Wake(p).waiting, s)
  {
    hide Wake, Queued, AtTurn, PassedOver, Get;
    WakeTurns(p);
    forall s
      ensures Get(Wake(p).used, s) - Get(p.used, s) == Queued(p.waiting, s) - Queued(Wake(p).waiting, s)
    {
      WakeUse(p, s);
    }
  }

  lemma {:induction false} TurnsOnlyFall(q: seq<Wait>, available: int, k: nat)
    requires k <= |q| && forall w :: w in q ==> w.count >= 1
    ensures AtTurn(q, available, k) <= available
    ensures forall w :: w in PassedOver(q, available, k) ==> w.count > AtTurn(q, available, k)
  {
    if k > 0 {
      TurnsOnlyFall(q, available, k - 1);
      assert q[k - 1] in q;
    }
  }

  /** After a wake-up nobody is left who could be granted what it waits for. */
  lemma NobodyLeftAffordable(p: Pool)
    requires Ok(p)
    ensures forall w :: w in Wake(p).waiting ==> w.count > Wake(p).available
  {
    WakeTurnByTurn(p);
    TurnsOnlyFall(p.waiting, p.available, |p.waiting|);
  }

  // ---- one entry of the queue ----

  function Names(q: seq<Wait>): (names: seq<Stream>)
    ensures |names| == |q|
    ensures forall i :: 0 <= i < |q| ==> names[i] == q[i].stream
  {
    seq(|q|, i requires 0 <= i < |q| => q[i].stream)
  }

  lemma NamesFirst(w: Wait, rest: seq<Wait>)
    ensures Names([w] + rest) == [w.stream] + Names(rest)
  {
  }

  lemma {:induction false} WaitForNames(q: seq<Wait>, s: Stream)
    ensures Names(WaitFor(q, s)) == if s in Names(q) then Names(q) else Names(q) + [s]
  {
    if q != [] {
      assert q == [q[0]] + q[1..];
      NamesFirst(q[0], q[1..]);
      NamesFirst(Wait(s, q[0].count + 1), q[1..]);
      if q[0].stream != s {
        WaitForNames(q[1..], s);
        NamesFirst(q[0], WaitFor(q[1..], s));
        Associate([q[0].stream], Names(q[1..]), [s]);
      }
    }
  }

  lemma {:induction false} WaitForCounts(q: seq<Wait>, s: Stream, i: nat)
    requires Distinct(Names(q)) && i < |WaitFor(q, s)|
    ensures WaitFor(q, s)[i].count == (if i < |q| then q[i].count else 0) + if i < |q| && q[i].stream != s then 0 else 1
  {
    hide Distinct, Names;
    if q != [] {
      assert q == [q[0]] + q[1..];
      DistinctRest(q[0], q[1..]);
      if q[0].stream == s {
        assert i > 0 ==> q[i] == q[1..][i - 1] && q[i] in q[1..];
      } else if i > 0 {
        WaitForCounts(q[1..], s, i - 1);
      }
    }
  }

  lemma DistinctRest(w: Wait, rest: seq<Wait>)
    requires Distinct(Names([w] + rest))
    ensures Distinct(Names(rest)) && forall v :: v in rest ==> v.stream != w.stream
  {
    var q := [w] + rest;
    NamesFirst(w, rest);
    forall v | v in rest
      ensures v.stream != w.stream
    {
      var i :| 0 <= i < |rest| && rest[i] == v;
      assert Names(q)[0] != Names(q)[i + 1];
    }
    forall i, j | 0 <= i < j < |rest|
      ensures Names(rest)[i] != Names(rest)[j]
    {
      assert Names(q)[i + 1] != Names(q)[j + 1];
    }
  }

  /** A refused stream keeps its place in the queue or joins at the end, and waits for one credit
      more; nobody else's place or count changes. */
  lemma WaitForExactly(q: seq<Wait>, s: Stream)
    requires Distinct(Names(q))
    ensures var r := WaitFor(q, s);
            && Names(r) == (if s in Names(q) then Names(q) else Names(q) + [s])
            && Distinct(Names(r))
            && (forall i :: 0 <= i < |r| ==> r[i].count == (if i < |q| then q[i].count else 0) + if i < |q| && q[i].stream != s then 0 else 1)
  {
    hide WaitFor;
    WaitForNames(q, s);
    forall i | 0 <= i < |WaitFor(q, s)|
      ensures WaitFor(q, s)[i].count == (if i < |q| then q[i].count else 0) + if i < |q| && q[i].stream != s then 0 else 1
    {
      WaitForCounts(q, s, i);
    }
  }

  lemma {:induction false} WaitForQueued(q: seq<Wait>, s: Stream, t: Stream)
    ensures Queued(WaitFor(q, s), t) == Queued(q, t) + if s == t then 1 else 0
  {
    var r := WaitFor(q, s);
    QueuedFirst(r, t);
    if q == [] {
      assert r[1..] == [];
    } else {
      QueuedFirst(q, t);
      if q[0].stream == s {
        assert r[1..] == q[1..];
      } else {
        WaitForQueued(q[1..], s, t);
        assert r[1..] == WaitFor(q[1..], s);
      }
    }
  }

  // ---- single operations, by their numbers ----

  /** A get is granted exactly if the stream's reservation has room or a credit is available, and
      takes an available one only if the reservation has none. */
  lemma GetExactly(p: Pool, s: Stream)
    requires Ok(p)
    ensures var q := Apply(p, DoTryGet(s));
            var room := Get(p.used, s) < Get(p.reserved, s);
            && (Get(q.used, s) == Get(p.used, s) + if room || p.available > 0 then 1 else 0)
            && q.available == p.available - (if !room && p.available > 0 then 1 else 0)
            && q.reserved == p.reserved
            && (forall t :: t != s ==> Get(q.used, t) == Get(p.used, t))
  {
  }

  /** A return gives back one credit the stream uses, if it uses any: to its reservation, if its use
      is then below it, and nothing else happens; else to the common part, and the waiters are
      gone through. */
  lemma ReturnExactly(p: Pool, s: Stream)
    requires Ok(p)
    ensures var q := Apply(p, DoReturn(s));
            var gave := if Get(p.used, s) > 0 then 1 else 0;
            && q.reserved == p.reserved
            && (forall t :: Get(q.used, t) == Get(p.used, t) - (if t == s then gave else 0) + Queued(p.waiting, t) - Queued(q.waiting, t))
            && (if s !in p.used || (gave == 1 && Get(p.used, s) - 1 < Get(p.reserved, s)) then
                  q.available == p.available && q.waiting == p.waiting
                else
                  && q.available == AtTurn(p.waiting, p.available + gave, |p.waiting|)
                  && q.waiting == PassedOver(p.waiting, p.available + gave, |p.waiting|))
  {
    hide Wake, Queued, AtTurn, PassedOver;
    if s in p.used && p.used[s] > 0 {
      WakeTurnByTurn(GivenBack(p, s));
    } else {
      WakeTurnByTurn(p);
    }
  }

  /** A reservation that succeeds, as it does exactly if that many credits are available, takes them
      and starts the stream's use anew; a release gives them all back and forgets the use. */
  lemma ReserveAndReleaseExactly(p: Pool, s: Stream, count: nat)
    ensures var q := Apply(p, DoReserve(s, count));
            if count <= p.available then
              && q.available == p.available - count && Get(q.reserved, s) == count && Get(q.used, s) == 0
              && s in q.reserved && s in q.used
              && (forall t :: t != s ==> Get(q.reserved, t) == Get(p.reserved, t) && Get(q.used, t) == Get(p.used, t))
            else q == p
    ensures var q := Apply(p, DoRelease(s));
            if s in p.reserved then
              && q.available == p.available + Get(p.reserved, s) && s !in q.reserved && s !in q.used
              && (forall t :: t != s ==> Get(q.reserved, t) == Get(p.reserved, t) && Get(q.used, t) == Get(p.used, t))
            else q == p
  {
  }

  // ---- whole runs ----

  lemma PlayMore(total: nat, ops: seq<Op>, op: Op)
    ensures Play(total, ops + [op]) == Apply(Play(total, ops), op)
  {
    OneMore(total, ops, op);
  }

  /** The gets of `s` that were refused: its use did not grow. */
  function RefusedGets(total: nat, ops: seq<Op>, s: Stream): int {
    if ops == [] then 0
    else
      var less, op := ops[..|ops| - 1], ops[|ops| - 1];
      var p, q := Play(total, less), Play(total, ops);
      RefusedGets(total, less, s) + if op == DoTryGet(s) && Get(q.used, s) == Get(p.used, s) then 1 else 0
  }

  /** The credits `s` was granted while it waited: what its use grew by in returns and wake-ups,
      apart from the credit it gave back itself. */
  function WokenWith(total: nat, ops: seq<Op>, s: Stream): int {
    if ops == [] then 0
    else
      var less, op := ops[..|ops| - 1], ops[|ops| - 1];
      var p, q := Play(total, less), Play(total, ops);
      var grown := Get(q.used, s) - Get(p.used, s);
      WokenWith(total, less, s) +
      match op
      case DoReturn(t) => grown + (if t == s && Get(p.used, s) > 0 then 1 else 0)
      case DoWake => grown
      case _ => 0
  }

  lemma QueueStep(p: Pool, op: Op, s: Stream)
    requires Ok(p)
    ensures var q := Apply(p, op);
            var grown := Get(q.used, s) - Get(p.used, s);
            Queued(q.waiting, s) - Queued(p.waiting, s) ==
            if op.DoTryGet? then (if op.s == s && grown == 0 then 1 else 0)
            else if op.DoReturn? then -(grown + (if op.s == s && Get(p.used, s) > 0 then 1 else 0))
            else if op.DoWake? then -grown
            else 0
  {
    match op
    case DoTryGet(t) => WaitForQueued(p.waiting, t, s);
    case DoReturn(t) => ReturnExactly(p, t);
    case DoWake => WakeTurnByTurn(p);
    case _ =>
  }

  /** No waiting stream is forgotten and none is granted more than it asked for: in every run a
      stream's refused gets are the credits it was granted while waiting plus those it still waits
      for. */
  lemma {:induction false} RefusedAreWokenOrWait(total: nat, ops: seq<Op>, s: Stream)
    ensures RefusedGets(total, ops, s) == WokenWith(total, ops, s) + Queued(Play(total, ops).waiting, s)
  {
    hide Apply, Ok;
    if ops != [] {
      var less := ops[..|ops| - 1];
      RefusedAreWokenOrWait(total, less, s);
      RunAccount(total, less);
      QueueStep(Play(total, less), ops[|ops| - 1], s);
    }
  }

  /** Only refused gets and wake-ups touch the queue: any other operation leaves every waiter at its
      place with its count. */
  lemma QueueUntouched(total: nat, ops: seq<Op>, op: Op)
    ensures var p, q := Play(total, ops), Play(total, ops + [op]);
            && (op.DoReserve? || op.DoRelease? ==> q.waiting == p.waiting)
            && (op.DoTryGet? && Get(q.used, op.s) != Get(p.used, op.s) ==> q.waiting == p.waiting)
            && (op.DoReturn? && (op.s !in p.used || (Get(p.used, op.s) > 0 && Get(p.used, op.s) - 1 < Get(p.reserved, op.s)))
                ==> q.waiting == p.waiting)
  {
    PlayMore(total, ops, op);
    RunAccount(total, ops);
    var p := Play(total, ops);
    if op.DoReturn? {
      ReturnExactly(p, op.s);
    }
  }

  lemma {:induction false} PassedOverNames(q: seq<Wait>, available: int, k: nat)
    requires k <= |q| && Distinct(Names(q))
    ensures Distinct(Names(PassedOver(q, available, k)))
    ensures forall w :: w in PassedOver(q, available, k) ==> w in q[..k]
  {
    if k > 0 {
      PassedOverNames(q, available, k - 1);
      var less, r := PassedOver(q, available, k - 1), PassedOver(q, available, k);
      assert q[..k] == q[..k - 1] + [q[k - 1]];
      forall i, j | 0 <= i < j < |r|
        ensures Names(r)[i] != Names(r)[j]
      {
        assert r[i] == less[i] && less[i] in less;
        if j < |less| {
          assert Names(less)[i] != Names(less)[j];
        } else {
          var m :| 0 <= m < k - 1 && q[m] == less[i];
          assert Names(q)[m] != Names(q)[k - 1];
        }
      }
    }
  }

  /** Each stream has at most one entry in the queue, and waits for at least one credit in it. */
  lemma {:induction false} OneEntryEach(total: nat, ops: seq<Op>)
    ensures Distinct(Names(Play(total, ops).waiting))
    ensures forall w :: w in Play(total, ops).waiting ==> w.count >= 1
  {
    RunAccount(total, ops);
    if ops != [] {
      var p, op := Play(total, ops[..|ops| - 1]), ops[|ops| - 1];
      OneEntryEach(total, ops[..|ops| - 1]);
      RunAccount(total, ops[..|ops| - 1]);
      OneEntryStep(p, op);
    }
  }

  lemma OneEntryStep(p: Pool, op: Op)
    requires Ok(p) && Distinct(Names(p.waiting))
    ensures Distinct(Names(Apply(p, op).waiting))
  {
    hide Distinct, Ok;
    match op
    case DoTryGet(s) => WaitForExactly(p.waiting, s);
    case DoReturn(s) =>
      ReturnExactly(p, s);
      PassedOverNames(p.waiting, p.available, |p.waiting|);
      PassedOverNames(p.waiting, p.available + 1, |p.waiting|);
    case DoWake =>
      WakeTurnByTurn(p);
      PassedOverNames(p.waiting, p.available, |p.waiting|);
    case _ =>
  }
}
