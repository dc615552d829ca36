/** Packets, queue limits and queue reports
    (crates/ladoflow-transport/src/packet.rs and transport.rs). */
module Packets {
  import opened Wrappers
  import opened Words

  datatype Channel = Control | Media

  function Other(ch: Channel): Channel { if ch.Control? then Media else Control }

  /** The three public constructors of `Packet`: only media may carry a key. */
  datatype Packet =
    | ControlPacket(payload: bytes)
    | MediaPacket(key: Option<u64>, payload: bytes)
  {
    function Channel(): Channel { if ControlPacket? then Control else Media }

    function SupersessionKey(): Option<u64> { if MediaPacket? then key else None }

    function Len(): nat { |payload| }
  }

  datatype QueueLimitsError =
    ZeroPacketCapacity | ZeroByteCapacity | ZeroPacketSizeLimit | PacketSizeLimitExceedsCapacity

  datatype QueueLimits = QueueLimits(maxPackets: usize, maxQueuedBytes: usize, maxPacketBytes: usize) {
    predicate Valid() { 0 < maxPackets && 0 < maxPacketBytes <= maxQueuedBytes }
  }

  /** `QueueLimits::new`. */
  function NewLimits(maxPackets: usize, maxQueuedBytes: usize, maxPacketBytes: usize)
    : (r: Result<QueueLimits, QueueLimitsError>)
    ensures r.Ok? <==> QueueLimits(maxPackets, maxQueuedBytes, maxPacketBytes).Valid()
    ensures r.Ok? ==> r.value == QueueLimits(maxPackets, maxQueuedBytes, maxPacketBytes)
    ensures r == Err(PacketSizeLimitExceedsCapacity) <==> maxPackets > 0 && maxPacketBytes > maxQueuedBytes > 0
  {
    if maxPackets == 0 then Err(ZeroPacketCapacity)
    else if maxQueuedBytes == 0 then Err(ZeroByteCapacity)
    else if maxPacketBytes == 0 then Err(ZeroPacketSizeLimit)
    else if maxPacketBytes > maxQueuedBytes then Err(PacketSizeLimitExceedsCapacity)
    else Ok(QueueLimits(maxPackets, maxQueuedBytes, maxPacketBytes))
  }

  /** A number of packets and the sum of their sizes. */
  datatype QueueDepth = QueueDepth(packets: nat, bytes: nat) {
    function Plus(other: QueueDepth): QueueDepth {
      QueueDepth(packets + other.packets, bytes + other.bytes)
    }
  }

  const NO_PACKETS := QueueDepth(0, 0)

  datatype SendError =
    | Disconnected(packet: Packet)
    | Full(packet: Packet, depth: QueueDepth, limits: QueueLimits)
    | PacketTooLarge(packet: Packet, size: nat, limit: nat)

  /** An accepted packet reports the packets it superseded. */
  type SendResult = Result<QueueDepth, SendError>

  function TotalLen(packets: seq<Packet>): nat
    decreases |packets|
  {
    if packets == [] then 0 else packets[0].Len() + TotalLen(packets[1..])
  }

  function DepthOf(packets: seq<Packet>): QueueDepth {
    QueueDepth(|packets|, TotalLen(packets))
  }

  lemma {:induction false} TotalLenAppend(a: seq<Packet>, b: seq<Packet>)
    ensures TotalLen(a + b) == TotalLen(a) + TotalLen(b)
    decreases |a|
  {
    if a == [] {
      assert a + b == b;
    } else {
      TotalLenAppend(a[1..], b);
      assert (a + b)[1..] == a[1..] + b;
    }
  }

  predicate Obsolete(queued: Packet, key: Option<u64>) {
    key.Some? && queued.SupersessionKey() == key
  }

  /** `retain`: what stays in a queue when a packet with this key arrives. */
  function Kept(packets: seq<Packet>, key: Option<u64>): seq<Packet>
    decreases |packets|
  {
    if packets == [] then []
    else (if Obsolete(packets[0], key) then [] else [packets[0]]) + Kept(packets[1..], key)
  }

  /** The packets a packet with this key makes obsolete. */
  function Dropped(packets: seq<Packet>, key: Option<u64>): seq<Packet>
    decreases |packets|
  {
    if packets == [] then []
    else (if Obsolete(packets[0], key) then [packets[0]] else []) + Dropped(packets[1..], key)
  }

  /** Keeping and dropping split a queue, in packets and in bytes. */
  lemma {:induction false} KeptAndDropped(packets: seq<Packet>, key: Option<u64>)
    ensures |packets| == |Kept(packets, key)| + |Dropped(packets, key)|
    ensures TotalLen(packets) == TotalLen(Kept(packets, key)) + TotalLen(Dropped(packets, key))
    decreases |packets|
  {
    if packets != [] {
      var head, tail := packets[0], packets[1..];
      KeptAndDropped(tail, key);
      if Obsolete(head, key) {
        assert Dropped(packets, key)[1..] == Dropped(tail, key);
        assert Kept(packets, key) == Kept(tail, key);
      } else {
        assert Kept(packets, key)[1..] == Kept(tail, key);
        assert Dropped(packets, key) == Dropped(tail, key);
      }
    }
  }

  lemma {:induction false} KeptMembers(packets: seq<Packet>, key: Option<u64>)
    ensures forall p :: p in Kept(packets, key) <==> p in packets && !Obsolete(p, key)
    ensures forall p :: p in Dropped(packets, key) <==> p in packets && Obsolete(p, key)
    decreases |packets|
  {
    if packets != [] {
      KeptMembers(packets[1..], key);
      assert packets == [packets[0]] + packets[1..];
    }
  }

  lemma {:induction false} NothingObsolete(packets: seq<Packet>, key: Option<u64>)
    requires forall p :: p in packets ==> !Obsolete(p, key)
    ensures Kept(packets, key) == packets && Dropped(packets, key) == []
    decreases |packets|
  {
    if packets != [] {
      NothingObsolete(packets[1..], key);
    }
  }

  lemma KeptCons(p: Packet, rest: seq<Packet>, key: Option<u64>)
    ensures Kept([p] + rest, key) == (if Obsolete(p, key) then [] else [p]) + Kept(rest, key)
    ensures Dropped([p] + rest, key) == (if Obsolete(p, key) then [p] else []) + Dropped(rest, key)
  {
    hide Obsolete;
    assert ([p] + rest)[1..] == rest;
  }

  lemma {:induction false} KeptAppend(a: seq<Packet>, b: seq<Packet>, key: Option<u64>)
    ensures Kept(a + b, key) == Kept(a, key) + Kept(b, key)
    ensures Dropped(a + b, key) == Dropped(a, key) + Dropped(b, key)
    decreases |a|
  {
    if a == [] {
      assert a + b == b;
    } else {
      var head, tail := a[0], a[1..];
      KeptAppend(tail, b, key);
      KeptCons(head, tail, key);
      KeptCons(head, tail + b, key);
      hide Kept, Dropped, Obsolete;
      assert a == [head] + tail;
      Associate([head], tail, b);
      var kept, dropped := if Obsolete(head, key) then [] else [head], if Obsolete(head, key) then [head] else [];
      Associate(kept, Kept(tail, key), Kept(b, key));
      Associate(dropped, Dropped(tail, key), Dropped(b, key));
    }
  }
}
