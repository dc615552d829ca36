/** A concrete run on which the two pumps differ: a peer that sends small frames
    of one lane to an application that takes nothing. The queues of the USB link
    hold 64 of them on the control lane and 3 on the media lane
    (apps/desktop/src-tauri/src/platform/windows/usb_accessory.rs:664-673);
    the TCP worker keeps the next one and waits
    (crates/ladoflow-transport/src/tcp.rs:298-314). */
module UsbFlood {
  import opened Wrappers
  import opened Words
  import opened Frames
  import opened Payloads
  import opened Packets
  import opened Loopback
  import opened Applications
  import opened LdflStream
  import opened Delivery
  import opened Pipeline
  import opened Endpoints
  import opened StreamWorkers
  import opened EndToEnd
  import H = HostSequences

  /** A whole frame of the lane that one transfer can carry. */
  predicate Small(p: Packet, ch: Channel) {
    p.Channel() == ch && p.SupersessionKey().None? && PacketSequence(p).Ok? && p.Len() <= TCP_IO_CHUNK_BYTES
  }

  ghost predicate AllSmall(ps: seq<Packet>, ch: Channel) {
    forall p :: p in ps ==> Small(p, ch)
  }

  function Limits(ch: Channel): QueueLimits { if ch.Control? then CONTROL_LIMITS else MEDIA_LIMITS }

  function Capacity(ch: Channel): nat { Limits(ch).maxPackets }

  /** Pings are, under any numbers. */
  lemma PingsAreSmall(sequence: u64, ping: PingPayload)
    ensures PayloadPacket(0, sequence, PingP(ping)).Ok? && Small(PayloadPacket(0, sequence, PingP(ping)).value, Control)
  {
    H.PayloadPacketIsSound(H.RawMessage.Message(0, PingP(ping)), sequence);
  }

  // ---- The peer sends --------------------------------------------------------------

  /** Its application sends a packet; its worker polls, chooses and writes it. */
  function RoundOut(p: Packet): seq<TxStep> {
    [TApp(AppSends(p)), TPoll(Control), TPoll(Media), TChoose, TWrite(p.Len())]
  }

  function SendAll(ps: seq<Packet>): seq<TxStep>
    decreases |ps|
  {
    if ps == [] then [] else SendAll(ps[..|ps| - 1]) + RoundOut(ps[|ps| - 1])
  }

  function Flat(ps: seq<Packet>): bytes
    decreases |ps|
  {
    if ps == [] then [] else Flat(ps[..|ps| - 1]) + ps[|ps| - 1].payload
  }

  ghost predicate NewSender(tx: Tx, ch: Channel) {
    tx == Tx(true, true, tx.lanes, NO_SLOTS, None) && Vacant(tx.lanes) && tx.lanes.At(ch).limits == Limits(ch)
  }

  lemma OneRoundOut(tx: Tx, p: Packet)
    requires NewSender(tx, p.Channel()) && Small(p, p.Channel())
    ensures TxRun(tx, RoundOut(p)) == (tx, p.payload)
  {
    hide TxRun, TxDo, PacketSequence, Small;
    var sent := tx.(lanes := tx.lanes.With(p.Channel(), QueueState(Limits(p.Channel()), [p])));
    var held := tx.(slots := NO_SLOTS.With(p.Channel(), Some(p)));
    var chosen := tx.(outgoing := Some(Pending(p, 0)));
    var polled := if p.ControlPacket? then held else sent;
    SmallSteps(tx, p, sent, polled, held, chosen);
    var steps := RoundOut(p);
    assert steps[..1] == [TApp(AppSends(p))] && steps[..2] == steps[..1] + [TPoll(Control)]
        && steps[..3] == steps[..2] + [TPoll(Media)] && steps[..4] == steps[..3] + [TChoose]
        && steps == steps[..4] + [TWrite(p.Len())];
    OneTxStep(tx, TApp(AppSends(p)));
    QuietStep(tx, steps[..1], sent, TPoll(Control));
    QuietStep(tx, steps[..2], polled, TPoll(Media));
    QuietStep(tx, steps[..3], held, TChoose);
    TxRunMore(tx, steps[..4], TWrite(p.Len()));
    assert [] + p.payload == p.payload;
  }

  lemma SmallSteps(tx: Tx, p: Packet, sent: Tx, polled: Tx, held: Tx, chosen: Tx)
    requires NewSender(tx, p.Channel()) && Small(p, p.Channel())
    requires sent == tx.(lanes := tx.lanes.With(p.Channel(), QueueState(Limits(p.Channel()), [p])))
    requires held == tx.(slots := NO_SLOTS.With(p.Channel(), Some(p))) && chosen == tx.(outgoing := Some(Pending(p, 0)))
    requires polled == if p.ControlPacket? then held else sent
    ensures TxDo(tx, TApp(AppSends(p))) == (sent, []) && TxDo(sent, TPoll(Control)) == (polled, [])
    ensures TxDo(polled, TPoll(Media)) == (held, []) && TxDo(held, TChoose) == (chosen, [])
    ensures TxDo(chosen, TWrite(p.Len())) == (tx, p.payload)
  {
    SmallSend(tx, p);
    ValidatedPackets(p);
    assert [p][1..] == [] && p.payload[0..p.Len()] == p.payload;
    assert 0 < p.Len();
    hide PacketSequence, PushQueue, Small;
  }

  lemma SmallSend(tx: Tx, p: Packet)
    requires NewSender(tx, p.Channel()) && Small(p, p.Channel())
    ensures PushQueue(tx.lanes.At(p.Channel()), p) == (QueueState(Limits(p.Channel()), [p]), Ok(NO_PACKETS))
    ensures PacketSequence(p).Ok? && p.Len() <= TCP_IO_CHUNK_BYTES
  {
    hide PacketSequence;
    NothingObsolete([], None);
    NoPackets();
    assert [] + [p] == [p];
  }

  lemma SmallLane(p: Packet, ch: Channel)
    ensures Small(p, ch) ==> p.Channel() == ch
  {
  }

  lemma {:induction false} SendsAll(tx: Tx, ps: seq<Packet>, ch: Channel)
    requires NewSender(tx, ch) && AllSmall(ps, ch)
    ensures TxRun(tx, SendAll(ps)) == (tx, Flat(ps))
    decreases |ps|
  {
    hide TxRun, NewSender, Small, RoundOut;
    if ps == [] {
      NoSteps(tx);
    } else {
      var front, p := ps[..|ps| - 1], ps[|ps| - 1];
      SendsAll(tx, front, ch);
      assert Small(p, ch) && p.Channel() == ch by { SmallLane(p, ch); }
      OneRoundOut(tx, p);
      TxRunAppend(tx, SendAll(front), RoundOut(p));
    }
  }

  // ---- The USB side reads ------------------------------------------------------------

  /** The worker reads a frame and offers its packet; the application does nothing. */
  function RoundIn(p: Packet): seq<RxStep> {
    [RRead(p.payload), RDrain]
  }

  function ReadAll(ps: seq<Packet>): seq<RxStep>
    decreases |ps|
  {
    if ps == [] then [] else ReadAll(ps[..|ps| - 1]) + RoundIn(ps[|ps| - 1])
  }

  /** A running receiver with these packets queued on a lane. */
  ghost predicate Holding(rx: Rx, ps: seq<Packet>, ch: Channel) {
    && rx.running && rx.up && rx.buffer == [] && rx.inbound == []
    && rx.lanes.At(ch) == QueueState(Limits(ch), ps)
  }

  lemma SmallDecodes(rx: Rx, p: Packet)
    requires rx.running && rx.buffer == [] && rx.inbound == [] && Small(p, p.Channel())
    ensures RxRead(rx, p.payload) == rx.(inbound := [p]) && 0 < p.Len()
  {
    ValidatedPackets(p);
    var f := FrameOf(p);
    CarriedFrameRebuildsPacket(p, f);
    assert EncodeAll([f]) == EncodeFrame(f) + [] == p.payload;
    ScanOfEncoded([f], p.payload);
    assert [] + p.payload == p.payload;
    hide Scan, EncodeFrame, PacketSequence;
    assert PacketsFromFrames([f]) == [p];
  }

  /** The packet of the next frame is queued while there is room, and
      otherwise left waiting. */
  lemma OneDrain(rx: Rx, ps: seq<Packet>, p: Packet)
    requires Holding(rx, ps, p.Channel()) && AllSmall(ps, p.Channel()) && Small(p, p.Channel())
    requires |ps| <= Capacity(p.Channel())
    ensures var ch, waiting := p.Channel(), rx.(inbound := [p]);
      && (HasRoom(waiting) <==> |ps| < Capacity(ch))
      && RxDrain(waiting) ==
           if |ps| < Capacity(ch) then rx.(lanes := rx.lanes.With(ch, QueueState(Limits(ch), ps + [p]))) else waiting
  {
    NothingObsolete(ps, None);
    SmallTotal(ps, p.Channel());
    assert [p][1..] == [];
    hide PacketSequence, Kept, TotalLen;
  }

  lemma OneRoundIn(rx: Rx, ps: seq<Packet>, p: Packet)
    requires Holding(rx, ps, p.Channel()) && AllSmall(ps, p.Channel()) && Small(p, p.Channel())
    requires |ps| <= Capacity(p.Channel())
    ensures var rx', ch := RxRun(rx, RoundIn(p)), p.Channel();
      if |ps| < Capacity(ch) then rx' == rx.(lanes := rx.lanes.With(ch, QueueState(Limits(ch), ps + [p])))
      else rx' == rx.(inbound := [p])
    ensures Disciplined(rx, RoundIn(p)) && ReadOf(RoundIn(p)) == p.payload
    ensures AllTaken(rx, RoundIn(p)) <==> |ps| < Capacity(p.Channel())
  {
    SmallDecodes(rx, p);
    OneDrain(rx, ps, p);
    hide RxRun, Disciplined, ReadOf, RxRead, RxDrain, PacketSequence, Small, Refusals, HasRoom;
    var read, drain: seq<RxStep> := [RRead(p.payload)], [RDrain];
    var waiting := rx.(inbound := [p]);
    assert RoundIn(p) == read + drain;
    SingleRx(rx, RRead(p.payload));
    SingleRx(waiting, RDrain);
    NothingOffered(rx, read);
    OfferedOnce(waiting);
    RxRunAppend(rx, read, drain);
    ReadOfAppend(read, drain);
    DisciplinedAppend(rx, read, drain);
    RefusalsAppend(rx, read, drain);
    assert p.payload + [] == p.payload;
  }

  lemma {:induction false} SmallTotal(ps: seq<Packet>, ch: Channel)
    requires AllSmall(ps, ch)
    ensures TotalLen(ps) <= |ps| * TCP_IO_CHUNK_BYTES
    decreases |ps|
  {
    hide PacketSequence;
    if ps != [] {
      assert ps[0] in ps && forall p :: p in ps[1..] ==> p in ps;
      SmallTotal(ps[1..], ch);
    }
  }

  lemma {:induction false} ReadsAll(rx: Rx, ps: seq<Packet>, ch: Channel)
    requires Holding(rx, [], ch) && AllSmall(ps, ch) && |ps| <= Capacity(ch)
    ensures RxRun(rx, ReadAll(ps)) == rx.(lanes := rx.lanes.With(ch, QueueState(Limits(ch), ps)))
    ensures Disciplined(rx, ReadAll(ps)) && ReadOf(ReadAll(ps)) == Flat(ps) && AllTaken(rx, ReadAll(ps))
    decreases |ps|
  {
    hide RxRun, Disciplined, ReadOf, Refusals, Small, RoundIn;
    if ps == [] {
      StayPut(EndState(Tx(true, true, rx.lanes, NO_SLOTS, None), rx));
      NothingOffered(rx, []);
    } else {
      var front, p := ps[..|ps| - 1], ps[|ps| - 1];
      ReadsAll(rx, front, ch);
      LastRound(rx, front, p, ch);
      assert ps == front + [p];
    }
  }

  lemma LastRound(rx: Rx, front: seq<Packet>, p: Packet, ch: Channel)
    requires Holding(rx, [], ch) && AllSmall(front, ch) && Small(p, ch) && |front| <= Capacity(ch)
    requires RxRun(rx, ReadAll(front)) == rx.(lanes := rx.lanes.With(ch, QueueState(Limits(ch), front)))
    requires Disciplined(rx, ReadAll(front)) && ReadOf(ReadAll(front)) == Flat(front) && AllTaken(rx, ReadAll(front))
    ensures var steps := ReadAll(front) + RoundIn(p);
      && (|front| < Capacity(ch) ==>
            RxRun(rx, steps) == rx.(lanes := rx.lanes.With(ch, QueueState(Limits(ch), front + [p]))))
      && (|front| == Capacity(ch) ==>
            RxRun(rx, steps) == rx.(lanes := rx.lanes.With(ch, QueueState(Limits(ch), front)), inbound := [p]))
      && Disciplined(rx, steps) && ReadOf(steps) == Flat(front) + p.payload
      && (AllTaken(rx, steps) <==> |front| < Capacity(ch))
  {
    hide RxRun, Disciplined, ReadOf, Refusals, Small, RoundIn;
    SmallLane(p, ch);
    var middle := RxRun(rx, ReadAll(front));
    OneRoundIn(middle, front, p);
    RxRunAppend(rx, ReadAll(front), RoundIn(p));
    DisciplinedAppend(rx, ReadAll(front), RoundIn(p));
    ReadOfAppend(ReadAll(front), RoundIn(p));
    RefusalsAppend(rx, ReadAll(front), RoundIn(p));
  }

  // ---- The session ---------------------------------------------------------------------

  /** The state after one round too many: a full lane, and the last packet waiting. */
  lemma FullLane(rx: Rx, ps: seq<Packet>, ch: Channel)
    requires Holding(rx, [], ch) && AllSmall(ps, ch) && |ps| == Capacity(ch) + 1
    ensures var front, p := ps[..Capacity(ch)], ps[Capacity(ch)];
      RxRun(rx, ReadAll(ps)) == rx.(lanes := rx.lanes.With(ch, QueueState(Limits(ch), front)), inbound := [p])
    ensures Disciplined(rx, ReadAll(ps)) && ReadOf(ReadAll(ps)) == Flat(ps) && !AllTaken(rx, ReadAll(ps))
  {
    hide RxRun, Disciplined, ReadOf, Refusals, Small, RoundIn, ReadAll, Flat;
    ReadsAll(rx, ps[..Capacity(ch)], ch);
    LastRound(rx, ps[..Capacity(ch)], ps[Capacity(ch)], ch);
    UnfoldLast(ps);
  }

  lemma UnfoldLast(ps: seq<Packet>)
    requires ps != []
    ensures ReadAll(ps) == ReadAll(ps[..|ps| - 1]) + RoundIn(ps[|ps| - 1])
    ensures Flat(ps) == Flat(ps[..|ps| - 1]) + ps[|ps| - 1].payload
  {
  }

  /** Two new endpoints, whose queues for this lane have the built-in limits. */
  ghost predicate NewEnds(a: EndState, b: EndState, ch: Channel) {
    && JustConnected(a) && a.tx.lanes.At(ch).limits == Limits(ch)
    && JustConnected(b) && b.rx.lanes.At(ch).limits == Limits(ch)
  }

  /** A USB session ends over its peer's traffic: from two new endpoints, 65 small
      control frames in a row, or 4 small media frames, which any peer may send,
      lead to a state in which the queue is full and refuses the last of them. The
      histories are a run of the pipe; `RunBulkSession` reports `QueueRejected`
      for this one and for every longer one. The same steps leave a TCP worker
      running, with the packet kept, and as soon as the application takes one it
      is accepted. */
  lemma FloodEndsUsbSession(a: EndState, b: EndState, ps: seq<Packet>, ch: Channel, later: seq<RxStep>)
    requires NewEnds(a, b, ch) && AllSmall(ps, ch) && |ps| == (if ch.Control? then 65 else 4)
    ensures Joined(a, Trace(SendAll(ps), []), b, Trace([], ReadAll(ps)))
    ensures var q := JoinedPipe(a, Trace(SendAll(ps), []), b, Trace([], ReadAll(ps))); var n := |ps| - 1;
      && q.tx == a.tx && q.wire == [] && q.rx.running && q.rx.up && q.rx.inbound == [ps[n]]
      && q.rx.lanes == b.rx.lanes.With(ch, QueueState(Limits(ch), ps[..n]))
      && Do(q, DrainOne) == q && HasRoom(Do(q, AppReceive(ch)).rx)
    ensures AllTaken(b.rx, ReadAll(ps[..|ps| - 1])) && !AllTaken(b.rx, ReadAll(ps) + later)
  {
    FloodState(a, b, ps, ch);
    FloodIsRefused(b.rx, ps, ch, later);
    hide JoinedPipe, SendAll, ReadAll, Inv, Do, HasRoom, NewEnds, AllSmall, AllTaken, Joined, Vacant, JustConnected;
    Waits(JoinedPipe(a, Trace(SendAll(ps), []), b, Trace([], ReadAll(ps))), ps, ch);
  }

  lemma FloodIsJoined(a: EndState, b: EndState, ps: seq<Packet>, ch: Channel)
    requires NewEnds(a, b, ch) && AllSmall(ps, ch) && |ps| == Capacity(ch) + 1
    ensures Joined(a, Trace(SendAll(ps), []), b, Trace([], ReadAll(ps)))
    ensures TxRun(a.tx, SendAll(ps)) == (a.tx, ReadOf(ReadAll(ps))) && b.rx.running && b.rx.up
    ensures RxRun(b.rx, ReadAll(ps)) ==
      b.rx.(lanes := b.rx.lanes.With(ch, QueueState(Limits(ch), ps[..Capacity(ch)])), inbound := [ps[Capacity(ch)]])
  {
    hide RxRun, TxRun, Disciplined, ReadOf, Refusals, Small, SendAll, ReadAll, Flat;
    SendsAll(a.tx, ps, ch);
    FullLane(b.rx, ps, ch);
  }

  lemma FloodState(a: EndState, b: EndState, ps: seq<Packet>, ch: Channel)
    requires NewEnds(a, b, ch) && AllSmall(ps, ch) && |ps| == Capacity(ch) + 1
    ensures Joined(a, Trace(SendAll(ps), []), b, Trace([], ReadAll(ps)))
    ensures var q := JoinedPipe(a, Trace(SendAll(ps), []), b, Trace([], ReadAll(ps))); var n := Capacity(ch);
      && q.tx == a.tx && q.wire == [] && q.rx.running && q.rx.up && q.rx.inbound == [ps[n]]
      && q.rx.lanes == b.rx.lanes.With(ch, QueueState(Limits(ch), ps[..n]))
  {
    FloodIsJoined(a, b, ps, ch);
    hide RxRun, TxRun, ReadOf, SendAll, ReadAll, JoinedPipe, Recorded, Delivered, Inv, NewEnds, AllSmall, Joined;
    JoinedPipeIsBoth(a, Trace(SendAll(ps), []), b, Trace([], ReadAll(ps)), Control);
  }

  lemma FloodIsRefused(rx: Rx, ps: seq<Packet>, ch: Channel, later: seq<RxStep>)
    requires Holding(rx, [], ch) && AllSmall(ps, ch) && |ps| == Capacity(ch) + 1
    ensures AllTaken(rx, ReadAll(ps[..|ps| - 1])) && !AllTaken(rx, ReadAll(ps) + later)
  {
    ReadsAll(rx, ps[..Capacity(ch)], ch);
    FullLane(rx, ps, ch);
    hide RxRun, Disciplined, ReadOf, Refusals, ReadAll, Small;
    RefusalsAppend(rx, ReadAll(ps), later);
  }

  lemma Waits(q: Pipe, ps: seq<Packet>, ch: Channel)
    requires |ps| == Capacity(ch) + 1 && AllSmall(ps, ch) && Inv(q) && q.rx.running && q.rx.up
    requires q.rx.inbound == [ps[Capacity(ch)]] && q.rx.lanes.At(ch) == QueueState(Limits(ch), ps[..Capacity(ch)])
    ensures q.control.Valid() && q.media.Valid()
    ensures Do(q, DrainOne) == q && HasRoom(Do(q, AppReceive(ch)).rx)
  {
    hide TxSide, WireInv, RxInv, PacketSequence, Kept, TotalLen;
    var n := Capacity(ch);
    LogsValid(q);
    assert ps[n] in ps && forall p :: p in ps[..n] ==> p in ps;
    NothingObsolete(ps[..n], None);
    assert ps[..n][1..] == ps[1..n];
    NothingObsolete(ps[1..n], None);
    SmallTotal(ps[1..n], ch);
  }
}
