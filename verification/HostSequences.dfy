/** The host's allocation of sequence numbers: one counter for both lanes,
    advanced only after a packet was accepted
    (apps/desktop/src-tauri/src/runtime.rs:893-938 and 980-1003). This is what
    makes the numbers fit for module MuxOrder. */
module HostSequences {
  import opened Wrappers
  import opened Words
  import opened Frames
  import opened Payloads
  import opened Packets
  import opened Loopback
  import opened LdflStream
  import opened MuxOrder
  import opened MuxRuns

  datatype HostError = Unencodable(cause: ProtocolError) | Refused(refusal: SendError) | SequenceExhausted

  /** One send: the new state of the link, the new counter, and the outcome. */
  function HostSend(s: LinkState, next: u64, flags: u16, p: Payload): (LinkState, u64, Result<(), HostError>)
    requires flags < FLAG_LIMIT && p.Valid()
  {
    match PayloadPacket(flags, next, p)
    case Err(e) => (s, next, Err(Unencodable(e)))
    case Ok(packet) =>
      var (s', r) := SendVia(s, First, packet);
      if r.Err? then (s', next, Err(Refused(r.error)))
      else if next == U64_MAX then (s', next, Err(SequenceExhausted))
      else (s', next + 1, Ok(()))
  }

  class HostSender {
    const link: Link
    var nextSequence: u64

    constructor (link: Link, nextSequence: u64)
      ensures this.link == link && this.nextSequence == nextSequence
    {
      this.link := link;
      this.nextSequence := nextSequence;
    }

    method SendPayload(flags: u16, p: Payload) returns (r: Result<(), HostError>)
      requires flags < FLAG_LIMIT && p.Valid() && link.Valid() && this !in link.Objects()
      modifies this, link.Objects()
      ensures link.Valid()
      ensures (link.State(), nextSequence, r) == HostSend(old(link.State()), old(nextSequence), flags, p)
    {
      hide PayloadPacket, SendVia, Link.Valid, Link.State;
      var sequence := nextSequence;
      var packet := PayloadPacket(flags, sequence, p);
      if packet.Err? {
        return Err(Unencodable(packet.error));
      }
      var sent := link.TrySend(First, packet.value);
      if sent.Err? {
        return Err(Refused(sent.error));
      }
      if sequence == U64_MAX {
        return Err(SequenceExhausted);
      }
      nextSequence := sequence + 1;
      return Ok(());
    }
  }

  /** Every payload is encoded and offered under the next number, even the last:
      the counter advances exactly after an accepted packet short of that, and its
      exhaustion is reported after the packet was accepted. */
  lemma HostSendIsExact(s: LinkState, next: u64, flags: u16, p: Payload)
    requires flags < FLAG_LIMIT && p.Valid()
    ensures PayloadPacket(flags, next, p).Ok?
    ensures var packet := PayloadPacket(flags, next, p).value;
      var (s', next', r) := HostSend(s, next, flags, p); var sent := SendVia(s, First, packet);
      && PacketSequence(packet) == Ok(next) && s' == sent.0
      && (sent.1.Err? ==> r == Err(Refused(sent.1.error)))
      && (r == Err(SequenceExhausted) <==> sent.1.Ok? && next == U64_MAX)
      && (r.Ok? <==> sent.1.Ok? && next < U64_MAX)
      && next' == (if r.Ok? then next + 1 else next)
  {
    PayloadPacketIsSound(Message(flags, p), next);
    hide PayloadPacket, PacketSequence, SendVia;
  }

  // ---- Whole sessions ---------------------------------------------------------------

  /** What the host sends: a payload it constructed, under known flags. */
  datatype RawMessage = Message(flags: u16, payload: Payload)

  type Message = m: RawMessage | m.flags < FLAG_LIMIT && m.payload.Valid()
    witness Message(0, PingP(PingPayload(0, 0)))

  /** The host's side of a session; any failure other than a full control
      queue, which is tried again, ends it. */
  datatype HostSide = HostSide(out: Outbound, next: u64, ended: bool)

  /** A send, or a call of the multiplexer during which `during` is sent. */
  datatype HostOp = Offer(message: Message) | Emission(during: seq<Message>)

  predicate Accepts(h: HostSide, m: Message) {
    !h.ended && var packet := PayloadPacket(m.flags, h.next, m.payload);
    packet.Ok? && Send(h.out.lanes, packet.value).1.Ok?
  }

  function HostOffer(h: HostSide, m: Message): HostSide {
    if h.ended then h else
    var packet := PayloadPacket(m.flags, h.next, m.payload);
    if packet.Err? then h.(ended := true) else
    var r := Send(h.out.lanes, packet.value).1;
    if r.Err? then h.(ended := !(r.error.Full? && packet.value.Channel().Control?))
    else HostSide(Enqueue(h.out, packet.value), if h.next == U64_MAX then h.next else h.next + 1, h.next == U64_MAX)
  }

  function OfferAll(h: HostSide, messages: seq<Message>): HostSide
    decreases |messages|
  {
    if messages == [] then h else OfferAll(HostOffer(h, messages[0]), messages[1..])
  }

  function HostStep(h: HostSide, op: HostOp): HostSide {
    match op
    case Offer(m) => HostOffer(h, m)
    case Emission(during) =>
      var offered := OfferAll(h.(out := PollLane(h.out, Control)), during);
      offered.(out := Emit(PollLane(offered.out, Media)).0)
  }

  function HostRun(h: HostSide, ops: seq<HostOp>): HostSide
    decreases |ops|
  {
    if ops == [] then h else HostRun(HostStep(h, ops[0]), ops[1..])
  }

  function NewHost(controlLimits: QueueLimits, mediaLimits: QueueLimits, first: u64): HostSide {
    HostSide(Empty(controlLimits, mediaLimits), first, false)
  }

  /** A step of the session is a send over the link of module Loopback, and a
      link that is down refuses it. */
  lemma HostStepIsHostSend(h: HostSide, s: LinkState, m: Message)
    requires s.Outgoing(First) == h.out.lanes && !h.ended
    ensures var (s', next, r) := HostSend(s, h.next, m.flags, m.payload); var h' := HostOffer(h, m);
      if s.connected then
        && s'.Outgoing(First) == h'.out.lanes && next == h'.next
        && (h'.ended <==> r.Err? && !(r.error.Refused? && r.error.refusal.Full?
                                      && r.error.refusal.packet.Channel().Control?))
      else s' == s && next == h.next && r.Err? && r.error.Refused? && r.error.refusal.Disconnected?
  {
    hide PayloadPacket, Dropped, Without, Kept, TotalLen;
    PayloadPacketIsSound(m, h.next);
  }

  /** The accepted packets are numbered from `first` without a gap, and the
      counter is one past the last. */
  ghost predicate Numbered(h: HostSide, first: u64) {
    && (forall i :: 0 <= i < |h.out.accepted| ==> Seq(h.out.accepted[i]) == first + i)
    && (!h.ended ==> h.next == first + |h.out.accepted|)
  }

  ghost predicate HostInv(h: HostSide, first: u64) {
    Irreplaceable(h.out.accepted) && Numbered(h, first)
  }

  lemma PayloadPacketIsSound(m: Message, sequence: u64)
    ensures PayloadPacket(m.flags, sequence, m.payload).Ok?
    ensures var packet := PayloadPacket(m.flags, sequence, m.payload).value;
      PacketSequence(packet) == Ok(sequence) && packet.SupersessionKey().None?
  {
    hide EncodePayload, DecodePayload, EncodeFrame, DecodePrefix;
    WireRoundTrip(m.flags, sequence, m.payload, []);
    var f := FrameFromPayload(m.flags, sequence, m.payload).value;
    DecodedPacketsAreSound(f);
    ValidatedPackets(PacketFromFrame(f));
  }

  // ---- A session is a run of the multiplexer -------------------------------------------

  /** What of these messages is accepted, in order. */
  function PacketsOf(h: HostSide, messages: seq<Message>): seq<Packet>
    decreases |messages|
  {
    if messages == [] then [] else
    var rest := PacketsOf(HostOffer(h, messages[0]), messages[1..]);
    if Accepts(h, messages[0]) then
      [PayloadPacket(messages[0].flags, h.next, messages[0].payload).value] + rest
    else rest
  }

  function MuxOps(h: HostSide, ops: seq<HostOp>): seq<MuxOp>
    decreases |ops|
  {
    if ops == [] then [] else
    var rest := MuxOps(HostStep(h, ops[0]), ops[1..]);
    match ops[0]
    case Offer(m) =>
      if Accepts(h, m) then [Put(PayloadPacket(m.flags, h.next, m.payload).value)] + rest else rest
    case Emission(during) => [Call(PacketsOf(h.(out := PollLane(h.out, Control)), during))] + rest
  }

  lemma OfferIsAllocated(h: HostSide, first: u64, m: Message)
    requires HostInv(h, first)
    ensures HostInv(HostOffer(h, m), first)
    ensures if Accepts(h, m) then
        var packet := PayloadPacket(m.flags, h.next, m.payload).value;
        Allocated(h.out, packet) && HostOffer(h, m).out == Enqueue(h.out, packet)
      else HostOffer(h, m).out == h.out
  {
    hide PacketSequence, PayloadPacket, PushQueue, Dropped, Without;
    PayloadPacketIsSound(m, h.next);
  }

  lemma {:induction false} OfferAllIsArrive(h: HostSide, first: u64, messages: seq<Message>)
    requires HostInv(h, first)
    ensures HostInv(OfferAll(h, messages), first)
    ensures var packets := PacketsOf(h, messages);
      AllocatedArrivals(h.out, packets) && Arrive(h.out, packets) == OfferAll(h, messages).out
    decreases |messages|
  {
    hide HostInv, HostOffer, Allocated, Enqueue, Accepts, PayloadPacket;
    if messages == [] {
      ArriveNothing(h.out);
    } else {
      OfferIsAllocated(h, first, messages[0]);
      var later := PacketsOf(HostOffer(h, messages[0]), messages[1..]);
      OfferAllIsArrive(HostOffer(h, messages[0]), first, messages[1..]);
      if Accepts(h, messages[0]) {
        var packet := PayloadPacketOf(h, messages[0]);
        assert PacketsOf(h, messages) == [packet] + later;
        ArriveCons(h.out, packet, later);
      }
    }
  }

  function PayloadPacketOf(h: HostSide, m: Message): Packet
    requires Accepts(h, m)
  {
    PayloadPacket(m.flags, h.next, m.payload).value
  }

  lemma ArriveCons(o: Outbound, p: Packet, rest: seq<Packet>)
    ensures Arrive(o, [p] + rest) == Arrive(Enqueue(o, p), rest)
    ensures AllocatedArrivals(o, [p] + rest) <==> Allocated(o, p) && AllocatedArrivals(Enqueue(o, p), rest)
  {
    hide Enqueue, Allocated;
    assert ([p] + rest)[1..] == rest;
  }

  lemma PollKeepsNumbers(h: HostSide, first: u64)
    requires HostInv(h, first)
    ensures HostInv(h.(out := PollLane(h.out, Control)), first)
    ensures HostInv(h.(out := Emit(PollLane(h.out, Media)).0), first)
  {
    hide Poll, Choose, Seq;
  }

  lemma EmissionIsCall(h: HostSide, first: u64, during: seq<Message>)
    requires HostInv(h, first)
    ensures HostInv(HostStep(h, Emission(during)), first)
    ensures var packets := PacketsOf(h.(out := PollLane(h.out, Control)), during);
      && AllocatedArrivals(PollLane(h.out, Control), packets)
      && HostStep(h, Emission(during)).out == SplitNext(h.out, packets).0
  {
    hide HostInv, PollLane, Emit, OfferAll, PacketsOf, Arrive, AllocatedArrivals;
    PollKeepsNumbers(h, first);
    var polled := h.(out := PollLane(h.out, Control));
    OfferAllIsArrive(polled, first, during);
    PollKeepsNumbers(OfferAll(polled, during), first);
  }

  /** Whatever the host sends and whenever, its numbers are allocated in
      increasing order across both lanes, without a gap; so every theorem about
      runs of the multiplexer holds of it. */
  lemma {:induction false} HostRunIsMuxRun(h: HostSide, first: u64, ops: seq<HostOp>)
    requires HostInv(h, first)
    ensures HostInv(HostRun(h, ops), first)
    ensures AllocatedRun(h.out, MuxOps(h, ops)) && Run(h.out, MuxOps(h, ops)) == HostRun(h, ops).out
    decreases |ops|
  {
    hide HostInv, HostOffer, Accepts, PayloadPacket, Enqueue, SplitNext, PacketsOf, Allocated, AllocatedArrivals, PollLane;
    if ops != [] {
      var next := HostStep(h, ops[0]);
      var rest := MuxOps(next, ops[1..]);
      match ops[0] {
        case Offer(m) => OfferIsAllocated(h, first, m);
        case Emission(during) => EmissionIsCall(h, first, during);
      }
      HostRunIsMuxRun(next, first, ops[1..]);
      var all := MuxOps(h, ops);
      if |all| > |rest| {
        assert all == [all[0]] + rest;
        RunCons(h.out, all[0], rest);
      }
    }
  }

  lemma RunCons(o: Outbound, op: MuxOp, rest: seq<MuxOp>)
    ensures Run(o, [op] + rest) == Run(Step(o, op), rest)
    ensures AllocatedRun(o, [op] + rest) <==> AllocatedOp(o, op) && AllocatedRun(Step(o, op), rest)
  {
    hide Step, AllocatedOp;
    assert ([op] + rest)[1..] == rest;
  }

  // ---- The numbers that leave the host ----------------------------------------------------

  /** The stream carries `first`, `first + 1`, and so on. */
  ghost predicate Gapless(emitted: seq<Packet>, first: u64) {
    forall i :: 0 <= i < |emitted| ==> PacketSequence(emitted[i]) == Ok(first + i)
  }

  lemma InOrderIsGapless(o: Outbound, first: u64)
    requires Ordered(o) && Irreplaceable(o.accepted)
    requires forall i :: 0 <= i < |o.accepted| ==> Seq(o.accepted[i]) == first + i
    ensures o.emitted <= o.accepted && Gapless(o.emitted, first)
  {
    hide PacketSequence, LaneHolds, Increasing;
    assert o.emitted + o.waiting == o.accepted;
    forall i | 0 <= i < |o.emitted|
      ensures PacketSequence(o.emitted[i]) == Ok(first + i)
    {
      assert o.accepted[i] == o.emitted[i] && o.accepted[i] in o.accepted;
    }
  }

  /** In a gapless stream whatever is numbered below a packet that left has
      left before it. */
  lemma LowerHasLeft(o: Outbound, first: u64, m: Packet, c: Packet)
    requires forall i :: 0 <= i < |o.accepted| ==> Seq(o.accepted[i]) == first + i
    requires forall i :: 0 <= i < |o.emitted| ==> Seq(o.emitted[i]) == first + i
    requires Increasing(o.accepted) && (forall p :: p in o.emitted ==> p in o.accepted)
    requires m in o.emitted && c in o.accepted && Seq(c) < Seq(m)
    ensures c in o.emitted && !LeavesAfter(o.emitted, m, c)
  {
    hide Seq, Increasing;
    var i :| 0 <= i < |o.emitted| && o.emitted[i] == m;
    var k :| 0 <= k < |o.accepted| && o.accepted[k] == c;
    var earlier := o.emitted[k];
    assert earlier in o.emitted;
    SameNumberSamePacket(o.accepted, earlier, c);
  }

  lemma LaterIsMember(s: seq<Packet>, m: Packet, c: Packet)
    requires LeavesAfter(s, m, c)
    ensures c in s
  {
  }

  lemma SameNumberSamePacket(s: seq<Packet>, a: Packet, b: Packet)
    requires Increasing(s) && a in s && b in s && Seq(a) == Seq(b)
    ensures a == b
  {
    hide Seq;
    var i :| 0 <= i < |s| && s[i] == a;
    var j :| 0 <= j < |s| && s[j] == b;
  }

  lemma OutOfOrderHasGaps(o: Outbound, first: u64)
    requires Consistent(o) && OutOfOrder(o)
    requires forall i :: 0 <= i < |o.accepted| ==> Seq(o.accepted[i]) == first + i
    ensures !Gapless(o.emitted, first)
  {
    hide LaneHolds, PacketSequence;
    var m, c :| Inverted(o, m, c);
    EverythingAccepted(o);
    hide Consistent, LeavesAfter;
    if Gapless(o.emitted, first) {
      GaplessNumbers(o.emitted, first);
      if c !in o.waiting {
        LaterIsMember(o.emitted, m, c);
      }
      LowerHasLeft(o, first, m, c);
    }
  }

  lemma GaplessNumbers(emitted: seq<Packet>, first: u64)
    requires Gapless(emitted, first)
    ensures forall i :: 0 <= i < |emitted| ==> Seq(emitted[i]) == first + i
  {
    hide PacketSequence;
  }

  lemma EverythingAccepted(o: Outbound)
    requires Consistent(o)
    ensures forall p :: p in o.emitted || p in o.waiting ==> p in o.accepted
    ensures Disjoint(o.emitted, o.waiting) && Increasing(o.accepted)
  {
    hide PacketSequence, Seq, Increasing, LaneHolds;
    assert forall p :: p in o.emitted || p in o.waiting ==> p in o.emitted + o.waiting;
  }

  /** Over any session, with anything sent between the receives of any call:
      the numbers that leave the host are `first`, `first + 1`, and so on, in
      the order in which the packets were offered and whichever lane each took,
      exactly when no call of the multiplexer overtook. */
  lemma HostStreamIsGapless(controlLimits: QueueLimits, mediaLimits: QueueLimits, first: u64, ops: seq<HostOp>)
    requires controlLimits.Valid() && mediaLimits.Valid()
    ensures var h := NewHost(controlLimits, mediaLimits, first);
      var o := HostRun(h, ops).out; var inOrder := NoOvertaking(h.out, MuxOps(h, ops));
      && (Gapless(o.emitted, first) <==> inOrder)
      && (inOrder ==> o.emitted <= o.accepted)
      && Consistent(o)
  {
    hide HostRun, MuxOps, Ordered, Consistent, OutOfOrder, Gapless, NoOvertaking, Run, AllocatedRun, Seq;
    var h := NewHost(controlLimits, mediaLimits, first);
    EmptyIsOrdered(controlLimits, mediaLimits);
    HostRunIsMuxRun(h, first, ops);
    OrderedIsConsistent(h.out);
    RunKeepsConsistency(h.out, MuxOps(h, ops));
    RunKeepsOrder(h.out, MuxOps(h, ops));
    var o := HostRun(h, ops).out;
    if NoOvertaking(h.out, MuxOps(h, ops)) {
      InOrderIsGapless(o, first);
    } else {
      OutOfOrderHasGaps(o, first);
    }
  }

  lemma OrderedIsConsistent(o: Outbound)
    requires Ordered(o)
    ensures Consistent(o)
  {
  }
}
