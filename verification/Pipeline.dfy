/** One direction of an LDFL byte-stream link, end to end: the application's
    send queues, the multiplexer and the partly written packet, the bytes in
    flight, the decoder and its backlog, and the far application's receive
    queues (crates/ladoflow-transport/src/tcp.rs:216-339).

    Each locked operation is one atomic step. The socket takes any part of the
    chunk it is offered and returns reads of any size; either worker may stop
    at any moment, and either link be cut at any moment, under a running worker
    too. A full-duplex link is two such pipes. */
module Pipeline {
  import opened Wrappers
  import opened Words
  import opened Frames
  import opened Packets
  import opened Loopback
  import opened LdflStream
  import opened Delivery

  const TCP_IO_CHUNK_BYTES: nat := 64 * 1_024

  const CONTROL_LIMITS := QueueLimits(64, 4 * 1_024 * 1_024, FRAME_HEADER_LEN + MAX_CONTROL_PAYLOAD)
  const MEDIA_LIMITS := QueueLimits(3, 32 * 1_024 * 1_024, FRAME_HEADER_LEN + MAX_MEDIA_PAYLOAD)

  /** A packet being written, and how much of it has been. */
  datatype Pending = Pending(packet: Packet, offset: nat)

  /** The sending endpoint: `up` is its link, `running` its worker. */
  datatype Tx = Tx(up: bool, running: bool, lanes: Lanes, slots: Slots, outgoing: Option<Pending>)

  datatype Rx = Rx(up: bool, running: bool, buffer: bytes, inbound: seq<Packet>, lanes: Lanes)

  datatype Pipe = Pipe(
    tx: Tx, wire: bytes, rx: Rx,
    // History: the log of each lane, every frame put on the wire, and how
    // many of them the far end has decoded.
    control: LaneLog, media: LaneLog, emitted: seq<Frame>, decoded: nat)
  {
    function Log(ch: Channel): LaneLog { if ch.Control? then control else media }

    function WithLog(ch: Channel, log: LaneLog): Pipe {
      if ch.Control? then this.(control := log) else this.(media := log)
    }
  }

  datatype Action =
    // the sending application and worker
    | AppSend(packet: Packet) | PollSlot(channel: Channel) | ChooseNext | WriteSome(count: nat)
    | StopTx | CutTx
    // the receiving worker and application
    | ReadSome(count: nat) | DrainOne | AppReceive(from: Channel) | StopRx | CutRx

  // ---- Steps of one endpoint ---------------------------------------------------

  function Rest(p: Pending): bytes
    requires p.offset <= p.packet.Len()
  {
    p.packet.payload[p.offset..]
  }

  /** Poll one slot of the multiplexer; a cut link ends the worker. */
  function TxPoll(tx: Tx, ch: Channel): (Tx, Option<Packet>) {
    if !tx.running || tx.slots.At(ch).Some? then (tx, None)
    else if !tx.up then (tx.(running := false), None) else
    var (slots, lanes) := Poll(tx.slots, tx.lanes, ch);
    (tx.(slots := slots, lanes := lanes), slots.At(ch))
  }

  /** Take the next packet to write; an invalid one ends the worker. */
  function TxChoose(tx: Tx): (Tx, Option<Packet>) {
    if !tx.running || tx.outgoing.Some? then (tx, None) else
    var (slots, r) := Choose(tx.slots);
    if r.Err? then (tx.(running := false), None)
    else if r.value.None? then (tx, None)
    else (tx.(slots := slots, outgoing := Some(Pending(r.value.value, 0))), r.value)
  }

  /** The socket accepts `n` bytes of the chunk it is offered. */
  function TxWrite(tx: Tx, n: nat): (Tx, bytes) {
    if !tx.running || tx.outgoing.None? then (tx, []) else
    var p := tx.outgoing.value;
    if !(0 < n <= TCP_IO_CHUNK_BYTES && p.offset + n <= p.packet.Len()) then (tx, []) else
    (tx.(outgoing := if p.offset + n == p.packet.Len() then None else Some(p.(offset := p.offset + n))),
     p.packet.payload[p.offset..p.offset + n])
  }

  /** Decode `chunk`; a bad stream ends the worker. */
  function RxRead(rx: Rx, chunk: bytes): Rx {
    if !rx.running || rx.inbound != [] then rx else
    var (r, buffer) := PushChunk(rx.buffer, MAX_BUFFERED_BYTES, chunk);
    if r.Err? then rx.(buffer := buffer, running := false)
    else rx.(buffer := buffer, inbound := PacketsFromFrames(r.value))
  }

  /** Offer the first decoded packet to its queue; a full queue keeps it
      waiting, and any other refusal ends the worker. */
  function RxDrain(rx: Rx): Rx {
    if !rx.running || rx.inbound == [] then rx
    else if !rx.up then rx.(running := false, inbound := rx.inbound[1..]) else
    var (lanes, r) := Send(rx.lanes, rx.inbound[0]);
    if r.Ok? then rx.(lanes := lanes, inbound := rx.inbound[1..])
    else if r.error.Full? then rx
    else rx.(running := false, inbound := rx.inbound[1..])
  }

  // ---- Steps of the whole pipe -------------------------------------------------

  function Do(p: Pipe, a: Action): Pipe
    requires p.control.Valid() && p.media.Valid()
  {
    match a
    case AppSend(packet) =>
      var ch := packet.Channel();
      if !p.tx.up then p else
      var (lanes, r) := Send(p.tx.lanes, packet);
      if r.Err? then p else
      p.(tx := p.tx.(lanes := lanes)).WithLog(ch, LogSend(p.Log(ch), packet, r.value))
    case PollSlot(ch) =>
      var (tx, taken) := TxPoll(p.tx, ch);
      if taken.None? then p.(tx := tx) else p.(tx := tx).WithLog(ch, LogPop(p.Log(ch)))
    case ChooseNext =>
      var (tx, taken) := TxChoose(p.tx);
      if taken.None? then p.(tx := tx)
      else if PacketSequence(taken.value).Err? then p.(tx := tx)
      else p.(tx := tx, emitted := p.emitted + [FrameOf(taken.value)])
    case WriteSome(n) =>
      var (tx, written) := TxWrite(p.tx, n);
      p.(tx := tx, wire := p.wire + written)
    case StopTx => p.(tx := p.tx.(running := false))
    case CutTx => p.(tx := p.tx.(up := false, lanes := Cleared(p.tx.lanes)))
    case ReadSome(n) =>
      if !(0 < n <= Min(TCP_IO_CHUNK_BYTES, |p.wire|)) || !p.rx.running || p.rx.inbound != [] then p else
      var rx := RxRead(p.rx, p.wire[..n]);
      p.(rx := rx, wire := p.wire[n..], decoded := p.decoded + |rx.inbound|)
    case DrainOne => p.(rx := RxDrain(p.rx))
    case AppReceive(ch) =>
      if !p.rx.up then p else
      var (lanes, packet) := Receive(p.rx.lanes, ch);
      if packet.None? then p else
      var log := p.Log(ch);
      p.(rx := p.rx.(lanes := lanes)).WithLog(ch, log.(delivered := log.delivered + [packet.value.payload]))
    case StopRx => p.(rx := p.rx.(running := false))
    case CutRx => p.(rx := p.rx.(up := false, lanes := Cleared(p.rx.lanes)))
  }

  // ---- The invariant ------------------------------------------------------------

  /** The bytes of the frames that travel on one lane. */
  function LaneBytes(frames: seq<Frame>, ch: Channel): seq<bytes>
    decreases |frames|
  {
    if frames == [] then []
    else (if ChannelForMessage(frames[0].header.kind) == ch then [EncodeFrame(frames[0])] else [])
         + LaneBytes(frames[1..], ch)
  }

  function BytesOnLane(packets: seq<Packet>, ch: Channel): seq<bytes>
    decreases |packets|
  {
    if packets == [] then []
    else (if packets[0].Channel() == ch then [packets[0].payload] else []) + BytesOnLane(packets[1..], ch)
  }

  function Held(slot: Option<Packet>): seq<bytes> {
    if slot.Some? then [slot.value.payload] else []
  }

  function Unwritten(outgoing: Option<Pending>): bytes {
    if outgoing.Some? && outgoing.value.offset <= outgoing.value.packet.Len() then Rest(outgoing.value) else []
  }

  /** The sending queue holds what its log says is queued. */
  ghost predicate QueueMatchesLog(tx: Tx, log: LaneLog, ch: Channel) {
    && log.Valid()
    && log.reported == DepthOf(Lost(log.entries))
    && (tx.up ==> tx.lanes.At(ch).packets == Survivors(log.entries[log.head..]))
  }

  ghost predicate LogSane(log: LaneLog, ch: Channel) {
    && log.Valid()
    && OnlyKeyedLost(log.entries)
    && (forall e :: e in log.entries ==> e.packet.Channel() == ch)
  }

  /** What left the sending queue was emitted, or is held in the slot. */
  ghost predicate PulledIsEmitted(slot: Option<Packet>, log: LaneLog, emitted: seq<Frame>, ch: Channel)
    requires log.Valid()
  {
    && (slot.Some? ==> slot.value.Channel() == ch)
    && Contents(Survivors(log.entries[..log.head])) == LaneBytes(emitted, ch) + Held(slot)
  }

  ghost predicate TxInv(tx: Tx, log: LaneLog, emitted: seq<Frame>, ch: Channel) {
    && LogSane(log, ch)
    && QueueMatchesLog(tx, log, ch)
    && PulledIsEmitted(tx.slots.At(ch), log, emitted, ch)
  }

  /** Decoder buffer, bytes in flight and unwritten bytes together spell the
      frames emitted and not yet decoded. */
  ghost predicate WireInv(p: Pipe) {
    && AllValid(p.emitted)
    && p.decoded <= |p.emitted|
    && (p.tx.outgoing.Some? ==> p.tx.outgoing.value.offset < p.tx.outgoing.value.packet.Len())
    && (p.rx.running ==>
          && p.rx.buffer + p.wire + Unwritten(p.tx.outgoing) == EncodeAll(p.emitted[p.decoded..])
          && Scan(p.rx.buffer) == Scanned([], p.rx.buffer, None))
  }

  /** A packet the decoder may produce: no key, and small enough for its lane. */
  ghost predicate Decoded(p: Packet) {
    && p.SupersessionKey().None?
    && p.Len() <= FRAME_HEADER_LEN + (if p.Channel().Media? then MAX_MEDIA_PAYLOAD else MAX_CONTROL_PAYLOAD)
  }

  ghost predicate AllDecoded(packets: seq<Packet>) {
    forall p :: p in packets ==> Decoded(p)
  }

  /** What was decoded is delivered, queued for the application, or waiting
      for room in the queue, in that order. */
  ghost predicate RxInv(rx: Rx, log: LaneLog, arrived: seq<Frame>, ch: Channel) {
    && log.delivered <= LaneBytes(arrived, ch)
    && (rx.up ==> log.delivered + Contents(rx.lanes.At(ch).packets) <= LaneBytes(arrived, ch))
    && (rx.running && rx.up ==>
          log.delivered + Contents(rx.lanes.At(ch).packets) + BytesOnLane(rx.inbound, ch) == LaneBytes(arrived, ch))
  }

  ghost predicate TxSide(p: Pipe) {
    && p.tx.lanes.Inv()
    && TxInv(p.tx, p.control, p.emitted, Control) && TxInv(p.tx, p.media, p.emitted, Media)
  }

  ghost predicate RxSide(p: Pipe) {
    && p.rx.lanes.Inv()
    && p.decoded <= |p.emitted|
    && AllDecoded(p.rx.inbound) && AllDecoded(p.rx.lanes.media.packets)
    && RxInv(p.rx, p.control, p.emitted[..p.decoded], Control)
    && RxInv(p.rx, p.media, p.emitted[..p.decoded], Media)
  }

  ghost predicate Inv(p: Pipe) {
    TxSide(p) && WireInv(p) && RxSide(p)
  }

  /** Both endpoints freshly connected; the sender's limits are arbitrary. */
  function Fresh(txControl: QueueLimits, txMedia: QueueLimits, rxControl: QueueLimits, rxMedia: QueueLimits): Pipe {
    Pipe(Tx(true, true, Lanes(QueueState(txControl, []), QueueState(txMedia, [])), NO_SLOTS, None), [],
         Rx(true, true, [], [], Lanes(QueueState(rxControl, []), QueueState(rxMedia, []))),
         NEW_LOG, NEW_LOG, [], 0)
  }

  lemma FreshInv(txControl: QueueLimits, txMedia: QueueLimits, rxControl: QueueLimits, rxMedia: QueueLimits)
    requires txControl.Valid() && txMedia.Valid() && rxControl.Valid() && rxMedia.Valid()
    ensures Inv(Fresh(txControl, txMedia, rxControl, rxMedia))
  {
    assert DecodePrefix([]) == Ok(NeedMoreData(FRAME_HEADER_LEN));
  }

  // ---- Lists of bytes by lane ----------------------------------------------------

  lemma {:induction false} LaneBytesAppend(a: seq<Frame>, b: seq<Frame>, ch: Channel)
    ensures LaneBytes(a + b, ch) == LaneBytes(a, ch) + LaneBytes(b, ch)
    decreases |a|
  {
    hide EncodeFrame;
    if a == [] {
      assert a + b == b;
    } else {
      LaneBytesAppend(a[1..], b, ch);
      assert (a + b)[1..] == a[1..] + b;
      var head := if ChannelForMessage(a[0].header.kind) == ch then [EncodeFrame(a[0])] else [];
      assert LaneBytes(a + b, ch) == head + (LaneBytes(a[1..], ch) + LaneBytes(b, ch));
    }
  }

  lemma {:induction false} DecodedBytes(frames: seq<Frame>, ch: Channel)
    ensures BytesOnLane(PacketsFromFrames(frames), ch) == LaneBytes(frames, ch)
    decreases |frames|
  {
    hide EncodeFrame;
    if frames != [] {
      DecodedBytes(frames[1..], ch);
      assert PacketsFromFrames(frames)[1..] == PacketsFromFrames(frames[1..]);
    }
  }

  lemma ContentsAppend(a: seq<Packet>, b: seq<Packet>)
    ensures Contents(a + b) == Contents(a) + Contents(b)
  {
  }

  lemma {:induction false} EncodeAllAppend(a: seq<Frame>, b: seq<Frame>)
    ensures EncodeAll(a + b) == EncodeAll(a) + EncodeAll(b)
    decreases |a|
  {
    hide EncodeFrame;
    if a == [] {
      assert a + b == b;
    } else {
      EncodeAllAppend(a[1..], b);
      assert (a + b)[1..] == a[1..] + b;
    }
  }

  // ---- Every step keeps the invariant: sending side --------------------------------

  /** After a send the log's queued part is the queue after a push. */
  lemma SendLogsQueue(log: LaneLog, packet: Packet, report: QueueDepth)
    requires log.Valid()
    ensures var log' := LogSend(log, packet, report);
      && log'.Valid() && log'.head == log.head && log'.entries[..log'.head] == log.entries[..log.head]
      && Survivors(log'.entries[log'.head..]) ==
           Kept(Survivors(log.entries[log.head..]), packet.SupersessionKey()) + [packet]
  {
    hide Kept, Mark;
    var before, queued := log.entries[..log.head], log.entries[log.head..];
    var marked, added := Mark(queued, packet.SupersessionKey()), [Entry(packet, false)];
    MarkSurvivors(queued, packet.SupersessionKey());
    SurvivorsAppend(marked, added);
    OneEntry(packet);
    hide Survivors;
    var log' := LogSend(log, packet, report);
    assert log'.entries[..log'.head] == before;
    assert log'.entries[log'.head..] == marked + added;
  }

  /** And the packets it marks are those the push reports. */
  lemma SendLogsLosses(log: LaneLog, packet: Packet, report: QueueDepth)
    requires log.Valid()
    ensures DepthOf(Lost(LogSend(log, packet, report).entries)) ==
      DepthOf(Lost(log.entries)).Plus(DepthOf(Dropped(Survivors(log.entries[log.head..]), packet.SupersessionKey())))
  {
    hide Kept, Mark, Dropped, TotalLen, Survivors;
    var before, queued := log.entries[..log.head], log.entries[log.head..];
    var marked, added := Mark(queued, packet.SupersessionKey()), [Entry(packet, false)];
    MarkLost(queued, packet.SupersessionKey());
    OneEntry(packet);
    hide Lost;
    assert log.entries == before + queued;
    Associate(before, marked, added);
    SurvivorsAppend(before, queued);
    SurvivorsAppend(before, marked);
    SurvivorsAppend(before + marked, added);
    TotalLenAppend(Lost(before), Lost(queued));
    TotalLenAppend(Lost(before), Lost(marked));
    TotalLenAppend(Lost(before + marked), Lost(added));
    NoPackets();
  }

  lemma SendKeepsLog(tx: Tx, log: LaneLog, packet: Packet)
    requires QueueMatchesLog(tx, log, packet.Channel()) && tx.up && tx.lanes.Inv()
    requires Send(tx.lanes, packet).1.Ok?
    ensures var log' := LogSend(log, packet, Send(tx.lanes, packet).1.value);
      && QueueMatchesLog(tx.(lanes := Send(tx.lanes, packet).0), log', packet.Channel())
      && Survivors(log'.entries[..log'.head]) == Survivors(log.entries[..log.head])
      && log'.delivered == log.delivered
  {
    hide Dropped, Kept, TotalLen, Mark, Survivors, Lost, QueueState.Inv;
    var report := Send(tx.lanes, packet).1.value;
    SendLogsQueue(log, packet, report);
    SendLogsLosses(log, packet, report);
  }

  lemma MarkKeepsEntries(log: LaneLog, packet: Packet)
    requires LogSane(log, packet.Channel())
    ensures forall report :: LogSane(LogSend(log, packet, report), packet.Channel())
  {
    var queued := log.entries[log.head..];
    var marked := Mark(queued, packet.SupersessionKey());
    MarkOnlyKeyed(queued, packet.SupersessionKey());
    forall e | e in marked
      ensures e.packet.Channel() == packet.Channel()
    {
      var i :| 0 <= i < |marked| && marked[i] == e;
      assert queued[i] in log.entries;
    }
  }

  lemma OneEntry(packet: Packet)
    ensures Survivors([Entry(packet, false)]) == [packet] && Lost([Entry(packet, false)]) == []
  {
  }

  lemma AppSendKeeps(p: Pipe, packet: Packet)
    requires Inv(p)
    ensures Inv(Do(p, AppSend(packet)))
  {
    hide PushQueue, Survivors, Lost, Mark, LaneBytes, BytesOnLane, WireInv, RxInv, PacketSequence;
    if p.tx.up && Send(p.tx.lanes, packet).1.Ok? {
      LanesKeepInv(p.tx.lanes, packet, Control);
      MarkKeepsEntries(p.Log(packet.Channel()), packet);
      SendKeepsLog(p.tx, p.Log(packet.Channel()), packet);
      SameWire(p, Do(p, AppSend(packet)));
    }
  }

  /** Steps that touch neither the bytes nor the receiving side keep its half
      of the invariant. */
  lemma SameWire(p: Pipe, q: Pipe)
    requires WireInv(p) && RxSide(p)
    requires q.tx.outgoing == p.tx.outgoing && q.wire == p.wire && q.rx == p.rx
    requires q.emitted == p.emitted && q.decoded == p.decoded
    requires q.control.delivered == p.control.delivered && q.media.delivered == p.media.delivered
    ensures WireInv(q) && RxSide(q)
  {
  }

  /** Steps of the receiving side keep the sending half of the invariant. */
  lemma SameSender(p: Pipe, q: Pipe)
    requires TxSide(p) && q.tx == p.tx && q.emitted == p.emitted
    requires q.control.(delivered := []) == p.control.(delivered := [])
    requires q.media.(delivered := []) == p.media.(delivered := [])
    ensures TxSide(q)
  {
  }

  lemma PopKeepsLog(tx: Tx, log: LaneLog, ch: Channel)
    requires QueueMatchesLog(tx, log, ch) && tx.up && tx.lanes.At(ch).packets != []
    ensures var log' := LogPop(log);
      && QueueMatchesLog(tx.(lanes := Receive(tx.lanes, ch).0), log', ch)
      && Survivors(log'.entries[..log'.head]) ==
           Survivors(log.entries[..log.head]) + [tx.lanes.At(ch).packets[0]]
  {
    hide TotalLen, Lost;
    var before, queued := log.entries[..log.head], log.entries[log.head..];
    var n := Advance(queued);
    AdvanceTakesFirst(queued);
    hide Survivors, Advance;
    SurvivorsAppend(before, queued[..n]);
    SliceTwice(log.entries, log.head, n);
  }

  lemma PollSlotKeeps(p: Pipe, ch: Channel)
    requires Inv(p)
    ensures Inv(Do(p, PollSlot(ch)))
  {
    hide Survivors, Lost, LaneBytes, BytesOnLane, WireInv, RxInv, PacketSequence, TotalLen;
    var q := Do(p, PollSlot(ch));
    if p.tx.running && p.tx.up && p.tx.slots.At(ch).None? {
      LanesKeepInv(p.tx.lanes, ControlPacket([]), ch);
      var queue := p.tx.lanes.At(ch).packets;
      if queue != [] {
        var log := p.Log(ch);
        PopKeepsLog(p.tx, log, ch);
        ContentsAppend(Survivors(log.entries[..log.head]), [queue[0]]);
        assert LaneBytes(p.emitted, ch) + [] == LaneBytes(p.emitted, ch);
      }
    }
    SameWire(p, q);
  }

  lemma ChooseNextKeeps(p: Pipe)
    requires Inv(p)
    ensures Inv(Do(p, ChooseNext))
  {
    hide TxInv, WireInv, RxSide, Choose, PacketSequence;
    LogsValid(p);
    var (tx, taken) := TxChoose(p.tx);
    if taken.Some? {
      var packet := taken.value;
      ChosenIsSound(p.tx);
      var f := FrameOf(packet);
      SlotIsEmitted(p.tx, p.control, p.emitted, Control, packet, f);
      SlotIsEmitted(p.tx, p.media, p.emitted, Media, packet, f);
      EmitKeepsWire(p, Do(p, ChooseNext), packet, f);
      EmitKeepsRx(p, Do(p, ChooseNext), f);
    } else {
      TxStops(p, tx);
      SameWire(p, Do(p, ChooseNext));
    }
  }

  lemma TxStops(p: Pipe, tx: Tx)
    requires TxSide(p) && (tx == p.tx || tx == p.tx.(running := false))
    ensures TxSide(p.(tx := tx))
  {
  }

  ghost predicate SlotsPlaced(slots: Slots) {
    && (slots.control.Some? ==> slots.control.value.Channel() == Control)
    && (slots.media.Some? ==> slots.media.value.Channel() == Media)
  }

  /** The multiplexer hands out a held packet that carries one whole frame. */
  lemma ChosenIsSound(tx: Tx)
    requires TxChoose(tx).1.Some? && SlotsPlaced(tx.slots)
    ensures var packet := TxChoose(tx).1.value; var ch := packet.Channel();
      && PacketSequence(packet).Ok? && Carries(packet, FrameOf(packet))
      && tx.slots.At(ch) == Some(packet) && TxChoose(tx).0.slots == tx.slots.With(ch, None)
  {
    hide PacketSequence, Carries;
    ValidatedPackets(TxChoose(tx).1.value);
  }

  lemma SlotIsEmitted(tx: Tx, log: LaneLog, emitted: seq<Frame>, ch: Channel, packet: Packet, f: Frame)
    requires TxInv(tx, log, emitted, ch)
    requires TxChoose(tx).1 == Some(packet) && Carries(packet, f)
    requires tx.slots.At(packet.Channel()) == Some(packet)
    requires TxChoose(tx).0.slots == tx.slots.With(packet.Channel(), None)
    ensures TxInv(TxChoose(tx).0, log, emitted + [f], ch)
  {
    hide QueueMatchesLog, LogSane, LaneBytes, EncodeFrame, Choose, PacketSequence;
    QueueLogValid(tx, log, ch);
    QueueLogStays(tx, TxChoose(tx).0, log, ch);
    LaneBytesAppend(emitted, [f], ch);
    OneFrame(f, ch);
    assert LaneBytes(emitted, ch) + [] == LaneBytes(emitted, ch);
    assert LaneBytes(emitted, ch) + [EncodeFrame(f)] + [] == LaneBytes(emitted, ch) + [EncodeFrame(f)];
  }

  lemma QueueLogValid(tx: Tx, log: LaneLog, ch: Channel)
    requires QueueMatchesLog(tx, log, ch)
    ensures log.Valid()
  {
  }

  lemma QueueLogStays(tx: Tx, tx': Tx, log: LaneLog, ch: Channel)
    requires QueueMatchesLog(tx, log, ch) && tx'.lanes == tx.lanes && tx'.up == tx.up
    ensures QueueMatchesLog(tx', log, ch)
  {
  }

  lemma EmitKeepsWire(p: Pipe, q: Pipe, packet: Packet, f: Frame)
    requires WireInv(p) && p.tx.outgoing.None? && Carries(packet, f)
    requires q.tx.outgoing == Some(Pending(packet, 0)) && q.wire == p.wire && q.rx == p.rx
    requires q.emitted == p.emitted + [f] && q.decoded == p.decoded
    ensures WireInv(q)
  {
    hide EncodeFrame, EncodeAll, Scan;
    EncodeAllAppend(p.emitted[p.decoded..], [f]);
    OneFrame(f, Control);
    FrameRoundTrip(f, []);
    assert (p.emitted + [f])[p.decoded..] == p.emitted[p.decoded..] + [f];
    assert p.rx.buffer + p.wire + [] == p.rx.buffer + p.wire;
    assert Rest(Pending(packet, 0)) == packet.payload;
  }

  lemma EmitKeepsRx(p: Pipe, q: Pipe, f: Frame)
    requires RxSide(p) && q.rx == p.rx && q.decoded == p.decoded && q.emitted == p.emitted + [f]
    requires q.control == p.control && q.media == p.media
    ensures RxSide(q)
  {
    assert q.emitted[..q.decoded] == p.emitted[..p.decoded];
  }

  lemma OneFrame(f: Frame, ch: Channel)
    ensures LaneBytes([f], ch) == if ChannelForMessage(f.header.kind) == ch then [EncodeFrame(f)] else []
    ensures EncodeAll([f]) == EncodeFrame(f)
  {
    hide EncodeFrame;
  }

  lemma WriteSomeKeeps(p: Pipe, n: nat)
    requires Inv(p)
    ensures Inv(Do(p, WriteSome(n)))
  {
    hide RxSide, Scan, EncodeAll, TxInv, Unwritten;
    LogsValid(p);
    var (tx, written) := TxWrite(p.tx, n);
    var q := Do(p, WriteSome(n));
    if written == [] {
      assert p.wire + [] == p.wire;
      assert q == p;
    } else {
      TxInvIgnoresOutgoing(p, tx);
      RxIgnoresWire(p, q);
      WriteSplits(p.tx, n);
      var b := p.rx.buffer;
      assert b + p.wire + (written + Unwritten(tx.outgoing)) == b + (p.wire + written) + Unwritten(tx.outgoing);
    }
  }

  lemma WriteSplits(tx: Tx, n: nat)
    requires TxWrite(tx, n).1 != [] && tx.outgoing.value.offset < tx.outgoing.value.packet.Len()
    ensures Unwritten(tx.outgoing) == TxWrite(tx, n).1 + Unwritten(TxWrite(tx, n).0.outgoing)
  {
    var out := tx.outgoing.value;
    assert Rest(out) == out.packet.payload[out.offset..out.offset + n] + out.packet.payload[out.offset + n..];
  }

  lemma TxInvIgnoresOutgoing(p: Pipe, tx: Tx)
    requires TxSide(p) && tx.(outgoing := p.tx.outgoing) == p.tx
    ensures forall wire :: TxSide(p.(tx := tx, wire := wire))
  {
  }

  lemma RxIgnoresWire(p: Pipe, q: Pipe)
    requires RxSide(p) && q.(tx := p.tx, wire := p.wire) == p
    ensures RxSide(q)
  {
  }

  // ---- Every step keeps the invariant: receiving side -------------------------------

  lemma ReadSomeKeeps(p: Pipe, n: nat)
    requires Inv(p)
    ensures Inv(Do(p, ReadSome(n)))
    ensures Do(p, ReadSome(n)).rx.running == p.rx.running
  {
    hide Survivors, Lost, LaneBytes, BytesOnLane, PacketSequence, EncodeFrame, EncodeAll, Scan, TotalLen;
    if 0 < n <= Min(TCP_IO_CHUNK_BYTES, |p.wire|) && p.rx.running && p.rx.inbound == [] {
      var chunk := p.wire[..n];
      var todo := p.emitted[p.decoded..];
      ReadDecodes(p, n);
      var s := Scan(p.rx.buffer + chunk);
      var q := Do(p, ReadSome(n));
      assert q.rx.inbound == PacketsFromFrames(s.frames);
      assert q.emitted[..q.decoded] == p.emitted[..p.decoded] + s.frames by {
        assert s.frames == todo[..|s.frames|];
      }
      LaneBytesAppend(p.emitted[..p.decoded], s.frames, Control);
      LaneBytesAppend(p.emitted[..p.decoded], s.frames, Media);
      DecodedBytes(s.frames, Control);
      DecodedBytes(s.frames, Media);
      NoBytesOnLane(Control);
      NoBytesOnLane(Media);
      forall f | f in q.rx.inbound
        ensures Decoded(f)
      {
        var i :| 0 <= i < |s.frames| && q.rx.inbound[i] == f;
        DecodedPacketsAreSound(s.frames[i]);
      }
    }
  }

  lemma NoBytesOnLane(ch: Channel)
    ensures BytesOnLane([], ch) == []
  {
  }

  /** Bytes written by one worker are never rejected by the other: a read is
      within the buffer limit and decodes to the next emitted frames. */
  lemma ReadDecodes(p: Pipe, n: nat)
    requires WireInv(p) && p.rx.running && 0 < n <= Min(TCP_IO_CHUNK_BYTES, |p.wire|)
    ensures var s := Scan(p.rx.buffer + p.wire[..n]); var todo := p.emitted[p.decoded..];
      && PushChunk(p.rx.buffer, MAX_BUFFERED_BYTES, p.wire[..n]) == (Ok(s.frames), s.rest)
      && s.frames <= todo && AllValid(s.frames)
      && s.rest + p.wire[n..] + Unwritten(p.tx.outgoing) == EncodeAll(todo[|s.frames|..])
      && Scan(s.rest) == Scanned([], s.rest, None)
  {
    hide EncodeFrame, EncodeAll, Scan;
    var chunk, todo := p.wire[..n], p.emitted[p.decoded..];
    var b, after := p.rx.buffer + chunk, p.wire[n..] + Unwritten(p.tx.outgoing);
    var unwritten := Unwritten(p.tx.outgoing);
    hide Unwritten;
    assert p.wire == chunk + p.wire[n..];
    Associate(p.rx.buffer, chunk, p.wire[n..]);
    Associate(b, p.wire[n..], unwritten);
    ScanOfEncoded(todo, b);
    RemainderIsBounded(p.rx.buffer);
    ScanPartitions(b);
    var s := Scan(b);
    EncodeAllAppend(s.frames, todo[|s.frames|..]);
    assert s.frames + todo[|s.frames|..] == todo;
    Associate(EncodeAll(s.frames), s.rest, after);
    CancelPrefix(EncodeAll(s.frames), s.rest + after, EncodeAll(todo[|s.frames|..]));
    Associate(s.rest, p.wire[n..], unwritten);
    ScanStops(s.rest);
  }

  lemma CancelPrefix(a: bytes, x: bytes, y: bytes)
    requires a + x == a + y
    ensures x == y
  {
    assert x == (a + x)[|a|..] == (a + y)[|a|..] == y;
  }

  lemma DrainOneKeeps(p: Pipe)
    requires Inv(p)
    ensures Inv(Do(p, DrainOne))
  {
    hide TxSide, PacketSequence, RxInv, PushQueue;
    LogsValid(p);
    var q := Do(p, DrainOne);
    SameSender(p, q);
    if p.rx.running && p.rx.inbound != [] {
      var packet := p.rx.inbound[0];
      LanesKeepInv(p.rx.lanes, packet, Control);
      assert Decoded(packet);
      if Send(p.rx.lanes, packet).1.Ok? {
        QueueAppends(p.rx.lanes.At(packet.Channel()), packet);
      }
      DrainKeepsLane(p.rx, p.control, p.emitted[..p.decoded], Control);
      DrainKeepsLane(p.rx, p.media, p.emitted[..p.decoded], Media);
    }
  }

  lemma LogsValid(p: Pipe)
    requires TxSide(p)
    ensures p.control.Valid() && p.media.Valid() && SlotsPlaced(p.tx.slots)
  {
  }

  lemma DrainKeepsLane(rx: Rx, log: LaneLog, arrived: seq<Frame>, ch: Channel)
    requires RxInv(rx, log, arrived, ch) && rx.running && rx.inbound != [] && Decoded(rx.inbound[0])
    ensures RxInv(RxDrain(rx), log, arrived, ch)
  {
    hide LaneBytes, PushQueue, Decoded;
    var packet, rest := rx.inbound[0], rx.inbound[1..];
    if rx.up && Send(rx.lanes, packet).1.Ok? {
      assert packet.SupersessionKey().None? by { DecodedHasNoKey(packet); }
      QueueAppends(rx.lanes.At(packet.Channel()), packet);
      var queue := rx.lanes.At(ch).packets;
      FirstWaiting(rx.inbound, ch);
      hide BytesOnLane, Contents;
      if packet.Channel() == ch {
        ContentsOfAppended(queue, packet);
        Associate(log.delivered, Contents(queue), [packet.payload]);
        Associate(log.delivered + Contents(queue), [packet.payload], BytesOnLane(rest, ch));
      } else {
        assert [] + BytesOnLane(rest, ch) == BytesOnLane(rest, ch);
      }
    } else {
      RefusedSendChangesNothing(rx.lanes, packet);
      FirstWaiting(rx.inbound, ch);
    }
  }

  lemma DecodedHasNoKey(packet: Packet)
    requires Decoded(packet)
    ensures packet.SupersessionKey().None?
  {
  }

  lemma FirstWaiting(inbound: seq<Packet>, ch: Channel)
    requires inbound != []
    ensures BytesOnLane(inbound, ch) ==
      (if inbound[0].Channel() == ch then [inbound[0].payload] else []) + BytesOnLane(inbound[1..], ch)
  {
  }

  lemma ContentsOfAppended(queue: seq<Packet>, packet: Packet)
    ensures Contents(queue + [packet]) == Contents(queue) + [packet.payload]
  {
  }

  lemma QueueAppends(q: QueueState, packet: Packet)
    requires packet.SupersessionKey().None? && PushQueue(q, packet).1.Ok?
    ensures PushQueue(q, packet).0.packets == q.packets + [packet]
  {
    NothingObsolete(q.packets, None);
  }

  lemma AppReceiveKeeps(p: Pipe, ch: Channel)
    requires Inv(p)
    ensures Inv(Do(p, AppReceive(ch)))
  {
    hide TxSide, RxInv, Scan, EncodeAll, TotalLen;
    LogsValid(p);
    var q := Do(p, AppReceive(ch));
    SameSender(p, q);
    if p.rx.up && p.rx.lanes.At(ch).packets != [] {
      LanesKeepInv(p.rx.lanes, ControlPacket([]), ch);
      DeliverKeepsLane(p.rx, p.Log(ch), p.emitted[..p.decoded], ch);
      var other := if ch.Control? then Media else Control;
      OtherLaneStays(p.rx, q.rx, p.Log(other), p.emitted[..p.decoded], other);
    }
  }

  lemma DeliverKeepsLane(rx: Rx, log: LaneLog, arrived: seq<Frame>, ch: Channel)
    requires RxInv(rx, log, arrived, ch) && rx.up && rx.lanes.At(ch).packets != []
    ensures var (lanes, packet) := Receive(rx.lanes, ch);
      RxInv(rx.(lanes := lanes), log.(delivered := log.delivered + [packet.value.payload]), arrived, ch)
  {
    var queue := rx.lanes.At(ch).packets;
    ContentsCons(queue);
    hide LaneBytes, BytesOnLane, Contents;
    Associate(log.delivered, [queue[0].payload], Contents(queue[1..]));
  }

  lemma ContentsCons(queue: seq<Packet>)
    requires queue != []
    ensures Contents(queue) == [queue[0].payload] + Contents(queue[1..])
  {
  }

  lemma OtherLaneStays(rx: Rx, rx': Rx, log: LaneLog, arrived: seq<Frame>, ch: Channel)
    requires rx'.(lanes := rx.lanes) == rx && rx'.lanes.At(ch) == rx.lanes.At(ch)
    ensures RxInv(rx, log, arrived, ch) ==> RxInv(rx', log, arrived, ch)
  {
  }

  lemma CutKeeps(p: Pipe, a: Action)
    requires Inv(p) && (a == StopTx || a == CutTx || a == StopRx || a == CutRx)
    ensures Inv(Do(p, a))
  {
    hide Survivors, Lost, LaneBytes, BytesOnLane, PacketSequence, EncodeAll, Scan, TotalLen;
    LanesKeepInv(p.tx.lanes, ControlPacket([]), Control);
    LanesKeepInv(p.rx.lanes, ControlPacket([]), Control);
    assert p.control.delivered + [] == p.control.delivered;
    assert p.media.delivered + [] == p.media.delivered;
  }

  lemma StepKeepsInv(p: Pipe, a: Action)
    requires Inv(p)
    ensures Inv(Do(p, a))
  {
    hide Inv, Do;
    match a
    case AppSend(packet) => AppSendKeeps(p, packet);
    case PollSlot(ch) => PollSlotKeeps(p, ch);
    case ChooseNext => ChooseNextKeeps(p);
    case WriteSome(n) => WriteSomeKeeps(p, n);
    case ReadSome(n) => ReadSomeKeeps(p, n);
    case DrainOne => DrainOneKeeps(p);
    case AppReceive(ch) => AppReceiveKeeps(p, ch);
    case StopTx | CutTx | StopRx | CutRx => CutKeeps(p, a);
  }

  // ---- Whole runs ---------------------------------------------------------------------

  ghost function Run(p: Pipe, actions: seq<Action>): (q: Pipe)
    requires Inv(p)
    ensures Inv(q)
    decreases |actions|
  {
    if actions == [] then p else
    StepKeepsInv(p, actions[0]);
    Run(Do(p, actions[0]), actions[1..])
  }

  lemma {:induction false} RunAppend(p: Pipe, first: seq<Action>, second: seq<Action>)
    requires Inv(p)
    ensures Run(p, first + second) == Run(Run(p, first), second)
    decreases |first|
  {
    hide Inv, Do;
    InvLogsValid(p);
    if first == [] {
      assert first + second == second;
    } else {
      StepKeepsInv(p, first[0]);
      assert (first + second)[1..] == first[1..] + second;
      RunAppend(Do(p, first[0]), first[1..], second);
    }
  }

  lemma LaneInv(p: Pipe, ch: Channel)
    requires Inv(p)
    ensures p.decoded <= |p.emitted|
    ensures TxInv(p.tx, p.Log(ch), p.emitted, ch)
    ensures RxInv(p.rx, p.Log(ch), p.emitted[..p.decoded], ch)
  {
    hide TxInv, RxInv;
  }

  lemma LogIsSane(p: Pipe, ch: Channel)
    requires Inv(p)
    ensures OnlyKeyedLost(p.Log(ch).entries)
  {
    LaneInv(p, ch);
  }

  lemma SurvivorsSplit(log: LaneLog)
    requires log.Valid()
    ensures Survivors(log.entries) == Survivors(log.entries[..log.head]) + Survivors(log.entries[log.head..])
  {
    assert log.entries == log.entries[..log.head] + log.entries[log.head..];
    SurvivorsAppend(log.entries[..log.head], log.entries[log.head..]);
  }

  /** End-to-end fidelity: in every reachable state, what each lane has
      delivered at the far end is byte for byte a prefix of what was accepted
      on that lane minus the packets reported superseded. */
  lemma Fidelity(p: Pipe, ch: Channel)
    requires Inv(p)
    ensures p.Log(ch).delivered <= Contents(Survivors(p.Log(ch).entries))
    ensures p.Log(ch).reported == DepthOf(Lost(p.Log(ch).entries))
  {
    hide Inv, Survivors, LaneBytes, BytesOnLane, TotalLen, Lost, LogSane;
    LaneInv(p, ch);
    var log := p.Log(ch);
    assert log.Valid();
    var arrived, rest := p.emitted[..p.decoded], p.emitted[p.decoded..];
    assert p.emitted == arrived + rest;
    LaneBytesAppend(arrived, rest, ch);
    SurvivorsSplit(log);
    ContentsAppend(Survivors(log.entries[..log.head]), Survivors(log.entries[log.head..]));
  }

  /** The same, stated over runs: every interleaving of sends, polls, choices,
      short writes, split reads, drains, full queues, receives, stops and cuts. */
  lemma FidelityOverRuns(txControl: QueueLimits, txMedia: QueueLimits, rxControl: QueueLimits, rxMedia: QueueLimits,
                         actions: seq<Action>, ch: Channel)
    requires txControl.Valid() && txMedia.Valid() && rxControl.Valid() && rxMedia.Valid()
    ensures Inv(Fresh(txControl, txMedia, rxControl, rxMedia))
    ensures var log := Run(Fresh(txControl, txMedia, rxControl, rxMedia), actions).Log(ch);
      && log.delivered <= Contents(Survivors(log.entries))
      && log.reported == DepthOf(Lost(log.entries))
  {
    FreshInv(txControl, txMedia, rxControl, rxMedia);
    Fidelity(Run(Fresh(txControl, txMedia, rxControl, rxMedia), actions), ch);
  }

  /** Control traffic is reliable: nothing accepted on it is ever superseded,
      so what arrives is a prefix of everything accepted. */
  lemma ControlIsReliable(p: Pipe)
    requires Inv(p)
    ensures p.control.reported == NO_PACKETS
    ensures |p.control.delivered| <= |p.control.entries|
    ensures forall i :: 0 <= i < |p.control.delivered| ==>
      p.control.delivered[i] == p.control.entries[i].packet.payload
  {
    var log := p.control;
    Fidelity(p, Control);
    assert TxInv(p.tx, log, p.emitted, Control);
    forall e | e in log.entries
      ensures e.packet.SupersessionKey().None?
    {
      assert e.packet.Channel() == Control;
    }
    NothingLost(log.entries);
  }

  /** Nothing is stuck: when every stage of a live pipe is empty, everything
      that survived has been delivered. */
  ghost predicate Idle(p: Pipe) {
    && p.tx.lanes.control.packets == [] && p.tx.lanes.media.packets == []
    && p.tx.slots == NO_SLOTS && p.tx.outgoing.None? && p.wire == []
    && p.rx.inbound == [] && p.rx.lanes.control.packets == [] && p.rx.lanes.media.packets == []
  }

  lemma IdleMeansDelivered(p: Pipe, ch: Channel)
    requires Inv(p) && p.tx.up && p.rx.running && p.rx.up && Idle(p)
    ensures p.Log(ch).delivered == Contents(Survivors(p.Log(ch).entries))
    ensures p.rx.buffer == []
  {
    hide EncodeFrame, TotalLen, Survivors, Lost, LaneBytes, TxInv, RxInv, EncodeAll, Scan;
    AllDecodedWhenIdle(p);
    assert p.emitted[..p.decoded] == p.emitted;
    LaneInv(p, ch);
    IdleLane(p.tx, p.rx, p.Log(ch), p.emitted, ch);
  }

  lemma AllDecodedWhenIdle(p: Pipe)
    requires WireInv(p) && p.rx.running && p.wire == [] && p.tx.outgoing.None?
    ensures p.rx.buffer == [] && p.decoded == |p.emitted|
  {
    hide EncodeFrame;
    var todo := p.emitted[p.decoded..];
    assert p.rx.buffer + [] + [] == p.rx.buffer;
    ScanOfEncoded(todo, p.rx.buffer);
  }

  lemma IdleLane(tx: Tx, rx: Rx, log: LaneLog, emitted: seq<Frame>, ch: Channel)
    requires TxInv(tx, log, emitted, ch) && RxInv(rx, log, emitted, ch) && tx.up && rx.running && rx.up
    requires tx.lanes.At(ch).packets == [] && tx.slots == NO_SLOTS
    requires rx.inbound == [] && rx.lanes.At(ch).packets == []
    ensures log.delivered == Contents(Survivors(log.entries))
  {
    hide Survivors, LaneBytes, Lost, LogSane;
    assert log.Valid();
    SurvivorsSplit(log);
    assert Survivors(log.entries[..log.head]) + [] == Survivors(log.entries[..log.head]);
    assert LaneBytes(emitted, ch) + [] == LaneBytes(emitted, ch);
    assert Contents([]) == [] && BytesOnLane([], ch) == [];
    assert log.delivered + [] + [] == log.delivered;
  }

  ghost predicate StreamLimits(p: Pipe) {
    && p.rx.lanes.control.limits == CONTROL_LIMITS && p.rx.lanes.media.limits == MEDIA_LIMITS
  }

  /** A stream written by one worker is never rejected by another: with the
      limits both stream transports use, no step but an outside stop ends the
      receiving worker while its link is up, and a read stays below the decoder's
      buffer limit. */
  lemma NeverRejected(p: Pipe, a: Action)
    requires Inv(p) && StreamLimits(p) && p.rx.up && a != StopRx && a != CutRx
    ensures Do(p, a).rx.running == p.rx.running && Do(p, a).rx.up
    ensures StreamLimits(Do(p, a))
    ensures p.rx.running ==> |p.rx.buffer| + TCP_IO_CHUNK_BYTES < MAX_BUFFERED_BYTES
  {
    hide WireInv, TxSide, RxInv, PacketSequence, Scan;
    LogsValid(p);
    if p.rx.running {
      BufferIsShort(p);
    }
    match a
    case ReadSome(n) => ReadSomeKeeps(p, n);
    case DrainOne =>
      if p.rx.running && p.rx.inbound != [] {
        assert Decoded(p.rx.inbound[0]);
      }
    case _ =>
  }

  lemma InvLogsValid(p: Pipe)
    requires Inv(p)
    ensures p.control.Valid() && p.media.Valid()
  {
    hide WireInv, RxSide;
    LogsValid(p);
  }

  /** Over whole runs: whatever the sender's queues and however the steps
      interleave, the receiving worker runs until it is stopped from outside or
      its link is cut. */
  lemma {:induction false} NeverRejectedOverRuns(p: Pipe, actions: seq<Action>)
    requires Inv(p) && StreamLimits(p) && p.rx.up && StopRx !in actions && CutRx !in actions
    ensures Run(p, actions).rx.running == p.rx.running && Run(p, actions).rx.up && StreamLimits(Run(p, actions))
    decreases |actions|
  {
    hide Inv, Do, StreamLimits;
    if actions != [] {
      assert actions[0] in actions;
      InvLogsValid(p);
      StepKeepsInv(p, actions[0]);
      NeverRejected(p, actions[0]);
      NeverRejectedOverRuns(Do(p, actions[0]), actions[1..]);
    }
  }

  lemma BufferIsShort(p: Pipe)
    requires WireInv(p) && p.rx.running
    ensures |p.rx.buffer| < FRAME_HEADER_LEN + MAX_MEDIA_PAYLOAD
  {
    RemainderIsBounded(p.rx.buffer);
  }
}
