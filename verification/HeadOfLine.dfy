/** How far the two receiving lanes of a stream are independent: the worker
    offers decoded packets in the order of the stream, and reads only when none
    is waiting (crates/ladoflow-transport/src/tcp.rs:248-314). */
module HeadOfLine {
  import opened Wrappers
  import opened Words
  import opened Frames
  import opened Packets
  import opened Loopback
  import opened LdflStream
  import opened Delivery
  import opened MuxOrder
  import opened Pipeline
  import opened Endpoints
  import opened StreamWorkers
  import opened EndToEnd
  import opened UsbFlood

  // ---- Which packets wait ----------------------------------------------------------

  /** The packet at `k` finds room in its queue once all ahead of it are queued. */
  predicate RoomAt(rx: Rx, k: nat)
    requires k < |rx.inbound|
  {
    var p := rx.inbound[k];
    var q, ahead := rx.lanes.At(p.Channel()), OnLane(rx.inbound[..k], p.Channel());
    && |q.packets| + |ahead| < q.limits.maxPackets
    && TotalLen(q.packets) + TotalLen(ahead) + p.Len() <= q.limits.maxQueuedBytes
  }

  /** The receiver after it has offered its packets until one has to wait. */
  function Drained(rx: Rx): Rx
    decreases |rx.inbound|
  {
    if |RxDrain(rx).inbound| >= |rx.inbound| then rx else Drained(RxDrain(rx))
  }

  lemma {:induction false} DrainedNeverGrows(rx: Rx)
    ensures |Drained(rx).inbound| <= |rx.inbound|
    decreases |rx.inbound|
  {
    hide RxDrain;
    if |RxDrain(rx).inbound| < |rx.inbound| {
      DrainedNeverGrows(RxDrain(rx));
    }
  }

  ghost predicate Receiving(rx: Rx) {
    && rx.running && rx.up && rx.lanes.Inv() && AllDecoded(rx.inbound)
    && rx.lanes.control.limits == CONTROL_LIMITS && rx.lanes.media.limits == MEDIA_LIMITS
  }

  lemma FirstIsOffered(rx: Rx)
    requires Receiving(rx) && rx.inbound != []
    ensures var p := rx.inbound[0]; var q := rx.lanes.At(p.Channel());
      RxDrain(rx) ==
        if RoomAt(rx, 0) then rx.(lanes := rx.lanes.With(p.Channel(), q.(packets := q.packets + [p])), inbound := rx.inbound[1..])
        else rx
  {
    var p := rx.inbound[0];
    assert Decoded(p);
    assert OnLane([], p.Channel()) == [] && TotalLen([]) == 0;
    assert rx.inbound[..0] == [];
    NothingObsolete(rx.lanes.At(p.Channel()).packets, None);
    hide TotalLen, OnLane, Kept, Dropped;
  }

  lemma OfferedIsAhead(rx: Rx, j: nat)
    requires Receiving(rx) && j + 1 < |rx.inbound| && RoomAt(rx, 0)
    ensures Receiving(RxDrain(rx)) && RxDrain(rx).inbound == rx.inbound[1..]
    ensures RoomAt(RxDrain(rx), j) <==> RoomAt(rx, j + 1)
  {
    hide TotalLen, OnLane, RxDrain, Receiving;
    FirstIsOffered(rx);
    DrainKeepsReceiving(rx);
    var head, ch := rx.inbound[0], rx.inbound[j + 1].Channel();
    var tail := rx.inbound[1..][..j];
    assert rx.inbound[..j + 1] == [head] + tail;
    OnLaneAppend([head], tail, ch);
    SingleOnLane(head, ch);
    TotalLenAppend(rx.lanes.At(ch).packets, [head]);
    TotalLenAppend([head], OnLane(tail, ch));
    assert [] + OnLane(tail, ch) == OnLane(tail, ch);
  }

  lemma DrainKeepsReceiving(rx: Rx)
    requires Receiving(rx) && rx.inbound != [] && RoomAt(rx, 0)
    ensures Receiving(RxDrain(rx))
  {
    FirstIsOffered(rx);
    assert AllDecoded(rx.inbound[1..]);
    LanesKeepInv(rx.lanes, rx.inbound[0], Control);
  }

  /** A decoded packet has to wait exactly when it, or a packet ahead of it on
      either lane, finds its queue full; so a control packet waits although its
      own queue has room exactly when a packet ahead of it does. */
  lemma {:induction false} WhenPacketWaits(rx: Rx, k: nat)
    requires Receiving(rx) && k < |rx.inbound|
    ensures |Drained(rx).inbound| >= |rx.inbound| - k <==> exists j :: 0 <= j <= k && !RoomAt(rx, j)
    decreases k
  {
    hide RoomAt, RxDrain, Receiving;
    FirstIsOffered(rx);
    if RoomAt(rx, 0) {
      var rx' := RxDrain(rx);
      assert rx'.inbound == rx.inbound[1..];
      DrainedNeverGrows(rx');
      if k > 0 {
        forall j | 0 <= j < k
          ensures RoomAt(rx', j) <==> RoomAt(rx, j + 1)
        {
          OfferedIsAhead(rx, j);
        }
        DrainKeepsReceiving(rx);
        WhenPacketWaits(rx', k - 1);
        if exists j :: 0 <= j <= k && !RoomAt(rx, j) {
          var j :| 0 <= j <= k && !RoomAt(rx, j);
          assert !RoomAt(rx', j - 1);
        }
      }
    }
  }

  // ---- How long they wait ---------------------------------------------------------------

  /** What a lane has delivered and still queues for the application. */
  function Arrived(p: Pipe, ch: Channel): seq<bytes> {
    p.Log(ch).delivered + Contents(p.rx.lanes.At(ch).packets)
  }

  /** The receiver is blocked on a full lane of its application. */
  ghost predicate Blocked(p: Pipe) {
    && p.rx.running && p.rx.up && p.rx.inbound != [] && RxDrain(p.rx) == p.rx
  }

  lemma BlockedStep(p: Pipe, a: Action)
    requires p.control.Valid() && p.media.Valid() && Blocked(p)
    requires a != AppReceive(p.rx.inbound[0].Channel()) && a != StopRx && a != CutRx
    ensures var q := Do(p, a); var ch := p.rx.inbound[0].Channel();
      && Blocked(q) && q.rx.inbound == p.rx.inbound && q.rx.buffer == p.rx.buffer && q.decoded == p.decoded
      && p.wire <= q.wire && Arrived(q, Other(ch)) == Arrived(p, Other(ch))
  {
    hide TxPoll, TxChoose, TxWrite, PacketSequence, PushQueue, Mark, Advance;
    var other := Other(p.rx.inbound[0].Channel());
    if a == AppReceive(other) && p.rx.lanes.At(other).packets != [] {
      ContentsCons(p.rx.lanes.At(other).packets);
      hide Contents;
      Associate(p.Log(other).delivered, [p.rx.lanes.At(other).packets[0].payload], Contents(p.rx.lanes.At(other).packets[1..]));
    }
  }

  /** While the application does not take from the full lane, the worker reads
      nothing and decodes nothing more, so nothing more arrives on the other lane
      either, whatever is sent and however much room it has. */
  lemma {:induction false} BlockedUntilTaken(p: Pipe, actions: seq<Action>)
    requires Inv(p) && Blocked(p)
    requires AppReceive(p.rx.inbound[0].Channel()) !in actions && StopRx !in actions && CutRx !in actions
    ensures var q := Run(p, actions); var ch := p.rx.inbound[0].Channel();
      && Blocked(q) && q.rx.inbound == p.rx.inbound && q.decoded == p.decoded
      && p.wire <= q.wire && Arrived(q, Other(ch)) == Arrived(p, Other(ch))
    decreases |actions|
  {
    hide Inv, Do, RxDrain, Arrived;
    if actions != [] {
      assert actions[0] in actions;
      InvLogsValid(p);
      StepKeepsInv(p, actions[0]);
      BlockedStep(p, actions[0]);
      BlockedUntilTaken(Do(p, actions[0]), actions[1..]);
    }
  }

  // ---- An input that shows it --------------------------------------------------------------

  lemma {:induction false} ReadAllIsSilent(rx: Rx, ps: seq<Packet>, ch: Channel)
    ensures EndToEnd.Delivered(rx, ReadAll(ps), ch) == []
    decreases |ps|
  {
    hide RxRun;
    if ps != [] {
      var front, last := ps[..|ps| - 1], ps[|ps| - 1];
      ReadAllIsSilent(rx, front, ch);
      var steps := ReadAll(front);
      assert ReadAll(ps) == (steps + [RRead(last.payload)]) + [RDrain];
      NothingGiven(rx, steps, RRead(last.payload), ch);
      NothingGiven(rx, steps + [RRead(last.payload)], RDrain, ch);
    }
  }

  lemma NothingGiven(rx: Rx, steps: seq<RxStep>, s: RxStep, ch: Channel)
    requires !s.RApp?
    ensures EndToEnd.Delivered(rx, steps + [s], ch) == EndToEnd.Delivered(rx, steps, ch)
  {
    hide RxRun;
    assert (steps + [s])[..|steps|] == steps;
    var taken := EndToEnd.Delivered(rx, steps, ch);
    assert taken + [] == taken;
  }

  lemma FloodedMedia(a: EndState, b: EndState, ps: seq<Packet>)
    requires NewEnds(a, b, Media) && AllSmall(ps, Media) && |ps| == 4
    ensures var p := JoinedPipe(a, Trace(SendAll(ps), []), b, Trace([], ReadAll(ps)));
      && Blocked(p) && p.rx.inbound[0].Channel() == Media
      && p.control.delivered == [] && p.rx.lanes.control.packets == []
  {
    var x, y := Trace(SendAll(ps), []), Trace([], ReadAll(ps));
    FloodEndsUsbSession(a, b, ps, Media, []);
    ReadAllIsSilent(b.rx, ps, Control);
    LastIsMedia(ps);
    hide Inv, JoinedPipe, AllSmall, SendAll, ReadAll, Recorded, EndToEnd.Delivered, RxRun, TxRun, AllTaken, Do, RxDrain,
      HasRoom;
    JoinedPipeIsBoth(a, x, b, y, Control);
    var p := JoinedPipe(a, x, b, y);
    InvLogsValid(p);
    MediaBlocks(p);
  }

  /** Four media frames reach an application that takes none: until it takes one,
      no control packet is delivered, whatever is sent, although the control queue
      is empty all the time. */
  lemma MediaHoldsBackControl(a: EndState, b: EndState, ps: seq<Packet>, more: seq<Action>)
    requires NewEnds(a, b, Media) && AllSmall(ps, Media) && |ps| == 4
    requires AppReceive(Media) !in more && StopRx !in more && CutRx !in more
    ensures var p := JoinedPipe(a, Trace(SendAll(ps), []), b, Trace([], ReadAll(ps)));
      && Blocked(p)
      && Run(p, more).control.delivered == [] && Run(p, more).rx.lanes.control.packets == []
  {
    FloodedMedia(a, b, ps);
    hide Inv, JoinedPipe, AllSmall, Run, SendAll, ReadAll, Blocked, NewEnds;
    BlockedUntilTaken(JoinedPipe(a, Trace(SendAll(ps), []), b, Trace([], ReadAll(ps))), more);
  }

  lemma LastIsMedia(ps: seq<Packet>)
    requires AllSmall(ps, Media) && |ps| == 4
    ensures ps[3].Channel() == Media
  {
    assert ps[3] in ps;
    hide PacketSequence;
  }

  lemma MediaBlocks(p: Pipe)
    requires p.control.Valid() && p.media.Valid() && Do(p, DrainOne) == p
    ensures RxDrain(p.rx) == p.rx
  {
  }
}
