/** Cutting a packet into flits, twice over, and getting the packets back. */
module Flits {

  type Byte = b: int | 0 <= b < 256

  /** Bytes of payload per flit. */
  const DATA_SIZE: nat := 8

  datatype Kind = HEAD | BODY | TAIL | HEAD_TAIL

  datatype Packet = Packet(seqNum: nat, address: nat, vcId: int, priority: nat, data: seq<Byte>)

  /** A flit; `data` is the used part of its eight bytes. */
  datatype Flit = Flit(packetId: nat, destAddr: nat, srcAddr: nat, vcId: int, priority: nat, kind: Kind, data: seq<Byte>)

  function Min(a: nat, b: nat): nat {
    if a <= b then a else b
  }

  function HeadOf(p: Packet, kind: Kind, data: seq<Byte>): Flit {
    Flit(p.seqNum, p.address, p.address, p.vcId, p.priority, kind, data)
  }

  /** The flits after the head one, for the payload that is left. */
  function Trailing(p: Packet, rest: seq<Byte>): seq<Flit> {
    if |rest| == 0 then []
    else if |rest| <= DATA_SIZE then [HeadOf(p, TAIL, rest)]
    else [HeadOf(p, BODY, rest[..DATA_SIZE])] + Trailing(p, rest[DATA_SIZE..])
  }

  function Segments(p: Packet): seq<Flit> {
    if 0 < |p.data| <= DATA_SIZE then [HeadOf(p, HEAD_TAIL, p.data)]
    else
      var first := Min(|p.data|, DATA_SIZE);
      [HeadOf(p, HEAD, p.data[..first])] + Trailing(p, p.data[first..])
  }

  /** A body or tail flit of the packet a head flit belongs to, still without data. */
  function Derived(head: Flit, kind: Kind): Flit {
    head.(kind := kind, data := [])
  }

  lemma TrailingOne(p: Packet, rest: seq<Byte>)
    requires |rest| > DATA_SIZE
    ensures Trailing(p, rest) == [HeadOf(p, BODY, rest[..DATA_SIZE])] + Trailing(p, rest[DATA_SIZE..])
  {
  }

  method PacketToFlits(pkt: Packet) returns (flits: seq<Flit>)
    ensures flits == Segments(pkt)
  {
    flits := [];
    var headFlit := Flit(pkt.seqNum, pkt.address, pkt.address, pkt.vcId, pkt.priority, HEAD, []);
    var remaining := |pkt.data|;
    var offset := 0;
    if remaining > 0 {
      headFlit := headFlit.(data := pkt.data[..Min(remaining, DATA_SIZE)]);
      offset := offset + |headFlit.data|;
      remaining := remaining - |headFlit.data|;
      if remaining == 0 {
        assert headFlit.data == pkt.data;
        headFlit := headFlit.(kind := HEAD_TAIL);
        flits := flits + [headFlit];
        return;
      }
    }
    flits := flits + [headFlit];
    while remaining > DATA_SIZE
      invariant 0 <= offset && 0 <= remaining && offset + remaining == |pkt.data|
      invariant flits + Trailing(pkt, pkt.data[offset..]) == Segments(pkt)
    {
      var bodyFlit := Derived(headFlit, BODY);
      bodyFlit := bodyFlit.(data := pkt.data[offset..offset + DATA_SIZE]);
      TrailingOne(pkt, pkt.data[offset..]);
      assert pkt.data[offset..][..DATA_SIZE] == pkt.data[offset..offset + DATA_SIZE];
      assert pkt.data[offset..][DATA_SIZE..] == pkt.data[offset + DATA_SIZE..];
      flits := flits + [bodyFlit];
      offset := offset + DATA_SIZE;
      remaining := remaining - DATA_SIZE;
    }
    if remaining > 0 {
      var tailFlit := Derived(headFlit, TAIL);
      tailFlit := tailFlit.(data := pkt.data[offset..offset + remaining]);
      assert pkt.data[offset..offset + remaining] == pkt.data[offset..];
      flits := flits + [tailFlit];
    }
  }

  // ---- what the flits of a packet look like ----

  function DataOf(flits: seq<Flit>): seq<Byte> {
    if flits == [] then [] else flits[0].data + DataOf(flits[1..])
  }

  /** How many flits a payload of `length` bytes needs. */
  function FlitCount(length: nat): nat {
    (length + DATA_SIZE - 1) / DATA_SIZE
  }

  ghost predicate Trails(flits: seq<Flit>) {
    && (forall i :: 0 <= i < |flits| - 1 ==> flits[i].kind == BODY && |flits[i].data| == DATA_SIZE)
    && (flits != [] ==> flits[|flits| - 1].kind == TAIL && 1 <= |flits[|flits| - 1].data| <= DATA_SIZE)
  }

  /** HEAD_TAIL alone, or HEAD BODY* TAIL; every flit but the last one is full. */
  ghost predicate WellTagged(flits: seq<Flit>) {
    if |flits| == 1 then flits[0].kind == HEAD_TAIL && 1 <= |flits[0].data| <= DATA_SIZE
    else |flits| >= 2 && flits[0].kind == HEAD && |flits[0].data| == DATA_SIZE && Trails(flits[1..])
  }

  ghost predicate OfPacket(flits: seq<Flit>, p: Packet) {
    forall f :: f in flits ==>
                  && f.packetId == p.seqNum && f.destAddr == p.address && f.srcAddr == p.address
                  && f.vcId == p.vcId && f.priority == p.priority
  }

  lemma {:induction false} TrailingShape(p: Packet, rest: seq<Byte>)
    ensures var t := Trailing(p, rest);
            && DataOf(t) == rest && |t| == FlitCount(|rest|) && Trails(t) && OfPacket(t, p)
  {
    if |rest| > DATA_SIZE {
      var t, u := Trailing(p, rest), Trailing(p, rest[DATA_SIZE..]);
      TrailingShape(p, rest[DATA_SIZE..]);
      assert t[1..] == u;
      assert rest == rest[..DATA_SIZE] + rest[DATA_SIZE..];
      assert forall i :: 1 <= i < |t| ==> t[i] == u[i - 1];
    } else if |rest| > 0 {
      assert Trailing(p, rest)[1..] == [];
    }
  }

  /** The flits carry the payload in order, are as many as it needs, and all name the packet;
      and they are tagged as a head, bodies and a tail exactly when there is a payload. */
  lemma SegmentsShape(p: Packet)
    ensures DataOf(Segments(p)) == p.data && OfPacket(Segments(p), p)
    ensures |Segments(p)| == if p.data == [] then 1 else FlitCount(|p.data|)
    ensures WellTagged(Segments(p)) <==> p.data != []
  {
    var s := Segments(p);
    if 0 < |p.data| <= DATA_SIZE {
      assert s[1..] == [];
    } else {
      var first := Min(|p.data|, DATA_SIZE);
      var t := Trailing(p, p.data[first..]);
      TrailingShape(p, p.data[first..]);
      assert s[1..] == t;
      assert p.data == p.data[..first] + p.data[first..];
      assert forall i :: 1 <= i < |s| ==> s[i] == t[i - 1];
    }
  }

  /** The fields the constructor of a single flit sets. */
  datatype Start = Start(packetId: nat, destAddr: nat, kind: Kind, data: seq<Byte>)

  function StartOf(f: Flit): Start {
    Start(f.packetId, f.destAddr, f.kind, f.data)
  }

  /** The constructor that makes one flit of a packet. */
  function SingleFlit(p: Packet): Start {
    Start(p.seqNum, p.address, if |p.data| <= DATA_SIZE then HEAD_TAIL else HEAD, p.data[..Min(|p.data|, DATA_SIZE)])
  }

  /** It agrees with the first flit of the segmentation except on the empty payload, which one
      tags as a whole packet and the other as a head that no tail follows. */
  lemma SingleFlitAgrees(p: Packet)
    ensures SingleFlit(p) == StartOf(Segments(p)[0]) <==> p.data != []
  {
    assert 0 < |p.data| <= DATA_SIZE ==> p.data[..|p.data|] == p.data;
  }

  // ---- packets back from a stream of flits ----

  function Stream(packets: seq<Packet>): seq<Flit> {
    if packets == [] then [] else Segments(packets[0]) + Stream(packets[1..])
  }

  /** The payload of the flits up to the next tail, and what follows it. */
  function TakeTrailing(flits: seq<Flit>): (r: (seq<Byte>, seq<Flit>))
    ensures |r.1| <= |flits|
  {
    if flits == [] || (flits[0].kind != BODY && flits[0].kind != TAIL) then ([], flits)
    else if flits[0].kind == TAIL then (flits[0].data, flits[1..])
    else
      var (data, rest) := TakeTrailing(flits[1..]);
      (flits[0].data + data, rest)
  }

  function PacketOf(head: Flit, data: seq<Byte>): Packet {
    Packet(head.packetId, head.destAddr, head.vcId, head.priority, data)
  }

  /** Reads a stream of flits as packets; a head without data stands for an empty packet. */
  function Reassemble(flits: seq<Flit>): seq<Packet>
    decreases |flits|
  {
    if flits == [] then []
    else
      var head := flits[0];
      if head.kind == HEAD && head.data != [] then
        var (data, rest) := TakeTrailing(flits[1..]);
        [PacketOf(head, head.data + data)] + Reassemble(rest)
      else
        [PacketOf(head, head.data)] + Reassemble(flits[1..])
  }

  lemma {:induction false} TakeTrailingBack(p: Packet, rest: seq<Byte>, after: seq<Flit>)
    requires |rest| > 0
    ensures TakeTrailing(Trailing(p, rest) + after) == (rest, after)
  {
    var t := Trailing(p, rest);
    if |rest| > DATA_SIZE {
      var u := Trailing(p, rest[DATA_SIZE..]);
      TakeTrailingBack(p, rest[DATA_SIZE..], after);
      assert (t + after)[1..] == u + after;
      assert rest == rest[..DATA_SIZE] + rest[DATA_SIZE..];
    } else {
      assert (t + after)[1..] == after;
    }
  }

  lemma ReassembleFirst(p: Packet, after: seq<Flit>)
    ensures Reassemble(Segments(p) + after) == [p] + Reassemble(after)
  {
    var s := Segments(p);
    if |p.data| <= DATA_SIZE {
      assert (s + after)[1..] == after;
      assert |p.data| == 0 ==> s == [HeadOf(p, HEAD, p.data)];
    } else {
      var t := Trailing(p, p.data[DATA_SIZE..]);
      TakeTrailingBack(p, p.data[DATA_SIZE..], after);
      assert (s + after)[1..] == t + after;
      assert p.data == p.data[..DATA_SIZE] + p.data[DATA_SIZE..];
    }
  }

  /** From the flits of any packets, one after another, the packets can be read back, empty ones
      included. */
  lemma {:induction false} ReassembleStream(packets: seq<Packet>)
    ensures Reassemble(Stream(packets)) == packets
  {
    if packets != [] {
      ReassembleStream(packets[1..]);
      ReassembleFirst(packets[0], Stream(packets[1..]));
    }
  }

  /** So two lists of packets with the same stream of flits are the same list. */
  lemma StreamDeterminesPackets(ps: seq<Packet>, qs: seq<Packet>)
    requires Stream(ps) == Stream(qs)
    ensures ps == qs
  {
    ReassembleStream(ps);
    ReassembleStream(qs);
  }

  // ---- the network interface's own loop ----

  /** What one transaction of the network interface carries. */
  datatype Chunk = Chunk(packetId: nat, kind: Kind, data: seq<Byte>)

  function NicKind(i: nat, count: nat): Kind {
    if count == 1 then HEAD_TAIL
    else if i == 0 then HEAD
    else if i == count - 1 then TAIL
    else BODY
  }

  function NicChunk(id: nat, data: seq<Byte>, i: nat): Chunk
    requires i < FlitCount(|data|)
  {
    var size := Min(DATA_SIZE, |data| - i * DATA_SIZE);
    Chunk(id, NicKind(i, FlitCount(|data|)), data[i * DATA_SIZE..i * DATA_SIZE + size])
  }

  /** The loop over flit indices, and the counter it moves on at the end. */
  method GenerateRequest(data: seq<Byte>, packetCounter: nat) returns (chunks: seq<Chunk>, nextCounter: nat)
    ensures |chunks| == FlitCount(|data|)
    ensures forall i :: 0 <= i < |chunks| ==> chunks[i] == NicChunk(packetCounter, data, i)
    ensures nextCounter == packetCounter + 1
  {
    chunks := [];
    var flitCount := (|data| + 7) / 8;
    var currentOffset := 0;
    for i := 0 to flitCount
      invariant |chunks| == i && currentOffset == i * DATA_SIZE
      invariant forall j :: 0 <= j < i ==> chunks[j] == NicChunk(packetCounter, data, j)
    {
      var size := Min(8, |data| - currentOffset);
      var kind :=
        if flitCount == 1 then HEAD_TAIL
        else if i == 0 then HEAD
        else if i == flitCount - 1 then TAIL
        else BODY;
      chunks := chunks + [Chunk(packetCounter, kind, data[currentOffset..currentOffset + size])];
      currentOffset := currentOffset + 8;
    }
    nextCounter := packetCounter + 1;
  }

  function ChunkOf(f: Flit): Chunk {
    Chunk(f.packetId, f.kind, f.data)
  }

  lemma CountBounds(length: nat, i: nat)
    ensures i < FlitCount(length) <==> i * DATA_SIZE < length
    ensures i < FlitCount(length) ==> (i == FlitCount(length) - 1 <==> length <= i * DATA_SIZE + DATA_SIZE)
  {
  }

  /** Flit number `i` of the part of a payload that follows the first `k` flits. */
  lemma {:induction false} TrailingAt(p: Packet, k: nat, offset: nat, i: nat)
    requires 1 <= k <= i < FlitCount(|p.data|) && offset == k * DATA_SIZE <= |p.data|
    ensures var t := Trailing(p, p.data[offset..]);
            i - k < |t| && ChunkOf(t[i - k]) == NicChunk(p.seqNum, p.data, i)
    decreases i - k
  {
    hide FlitCount;
    var rest := p.data[offset..];
    CountBounds(|p.data|, k);
    CountBounds(|p.data|, i);
    CountBounds(|p.data|, 1);
    if i > k {
      CountBounds(|p.data|, k + 1);
      TrailingAt(p, k + 1, offset + DATA_SIZE, i);
      assert rest[DATA_SIZE..] == p.data[offset + DATA_SIZE..];
      TrailingOne(p, rest);
    } else if |rest| > DATA_SIZE {
      assert rest[..DATA_SIZE] == p.data[offset..offset + DATA_SIZE];
    }
  }

  lemma SegmentAt(p: Packet, i: nat)
    requires i < FlitCount(|p.data|)
    ensures i < |Segments(p)| && ChunkOf(Segments(p)[i]) == NicChunk(p.seqNum, p.data, i)
  {
    SegmentsShape(p);
    if i > 0 {
      CountBounds(|p.data|, 1);
      CountBounds(|p.data|, i);
      TrailingAt(p, 1, DATA_SIZE, i);
    }
  }

  /** The two segmentations give the same chunks with the same tags, flit by flit, exactly when
      there is a payload: for none, the interface sends nothing and the other sends a head. */
  lemma SegmentationsAgree(p: Packet)
    ensures |Segments(p)| == FlitCount(|p.data|) <==> p.data != []
    ensures p.data != [] ==>
              forall i :: 0 <= i < |Segments(p)| ==>
                            i < FlitCount(|p.data|) && ChunkOf(Segments(p)[i]) == NicChunk(p.seqNum, p.data, i)
  {
    SegmentsShape(p);
    if p.data != [] {
      forall i | 0 <= i < |Segments(p)|
        ensures ChunkOf(Segments(p)[i]) == NicChunk(p.seqNum, p.data, i)
      {
        SegmentAt(p, i);
      }
    }
  }
}
