/** The runs of the multiplexer inside the pipe: every run of module MuxRuns is
    the sending side of a run of module Pipeline, with the same packets accepted
    and the same packets on the wire
    (crates/ladoflow-transport/src/ldfl_stream.rs:100-152;
    crates/ladoflow-transport/src/tcp.rs:248-314). */
module MuxPipes {
  import opened Wrappers
  import opened Words
  import opened Frames
  import opened Packets
  import opened Loopback
  import opened LdflStream
  import opened Delivery
  import opened MuxOrder
  import M = MuxRuns
  import opened Pipeline
  import opened Progress

  /** The pipe is at the same point: same queues and slots, its logs hold what was
      accepted, lane by lane, and its wire was given what was emitted. */
  ghost predicate Mirrors(p: Pipe, o: Outbound) {
    && p.tx.lanes == o.lanes && p.tx.slots == o.slots
    && EntryPackets(p.control.entries) == OnLane(o.accepted, Control)
    && EntryPackets(p.media.entries) == OnLane(o.accepted, Media)
    && CarriedBy(o.emitted, p.emitted)
  }

  ghost predicate CarriedBy(packets: seq<Packet>, frames: seq<Frame>) {
    |packets| == |frames| && forall i :: 0 <= i < |packets| ==> Carries(packets[i], frames[i])
  }

  /** The sending worker runs over a link that is up. */
  ghost predicate Sends(p: Pipe) {
    Inv(p) && p.tx.running && p.tx.up
  }

  ghost predicate Ready(p: Pipe) {
    Inv(p) && StreamLimits(p) && Live(p)
  }

  // ---- What has left arrives ---------------------------------------------------------

  /** Everything past the multiplexer has been delivered. */
  ghost predicate Flushed(p: Pipe) {
    && p.tx.outgoing.None? && p.wire == [] && p.rx.inbound == []
    && p.rx.lanes.control.packets == [] && p.rx.lanes.media.packets == []
  }

  /** The state of the multiplexer and the logs of what was accepted. */
  ghost predicate SameSending(p: Pipe, q: Pipe) {
    && q.tx.lanes == p.tx.lanes && q.tx.slots == p.tx.slots && q.emitted == p.emitted
    && q.control.entries == p.control.entries && q.media.entries == p.media.entries
  }

  lemma FlushStep(p: Pipe)
    requires Ready(p) && !Flushed(p)
    ensures var q := Do(p, UsefulStep(p));
      Ready(q) && SameSending(p, q) && Closer(BacklogOf(q), BacklogOf(p))
  {
    hide Inv, BacklogOf, Closer, StreamLimits, RxRead, RxDrain, PushChunk, PopQueue, TxChoose, TxPoll;
    InvLogsValid(p);
    var a := UsefulStep(p);
    StepKeepsInv(p, a);
    NeverRejected(p, a);
    if a.WriteSome? {
      WriterMoves(p);
    } else {
      ReceiverMoves(p);
    }
  }

  /** What has left the multiplexer is written, read and taken, with nothing else
      changed. */
  lemma {:induction false} Flush(p: Pipe) returns (actions: seq<Action>)
    requires Ready(p)
    ensures var q := Run(p, actions); Ready(q) && Flushed(q) && SameSending(p, q)
    decreases BacklogOf(p).queued, BacklogOf(p).held, BacklogOf(p).unwritten,
              BacklogOf(p).flying, BacklogOf(p).decoded, BacklogOf(p).arrived
  {
    hide Inv, Do, BacklogOf, StreamLimits, Flushed;
    actions := [];
    if !Flushed(p) {
      InvLogsValid(p);
      FlushStep(p);
      var later := Flush(Do(p, UsefulStep(p)));
      actions := [UsefulStep(p)] + later;
    }
  }

  // ---- Step by step -------------------------------------------------------------------

  lemma SendMirrors(p: Pipe, o: Outbound, packet: Packet)
    requires Sends(p) && Mirrors(p, o)
    ensures var q := Do(p, AppSend(packet));
      Sends(q) && q.rx == p.rx && Mirrors(q, Enqueue(o, packet)) && q.tx.outgoing == p.tx.outgoing
  {
    hide PushQueue, OnLane, Dropped, Without, EntryPackets, Carries, Inv;
    InvLogsValid(p);
    StepKeepsInv(p, AppSend(packet));
    if Send(p.tx.lanes, packet).1.Ok? {
      SendLogsPacket(p.Log(packet.Channel()), packet, Send(p.tx.lanes, packet).1.value);
      OnLaneAppend(o.accepted, [packet], Control);
      OnLaneAppend(o.accepted, [packet], Media);
      SingleOnLane(packet, Control);
      SingleOnLane(packet, Media);
      assert OnLane(o.accepted, Control) + [] == OnLane(o.accepted, Control);
      assert OnLane(o.accepted, Media) + [] == OnLane(o.accepted, Media);
    } else {
      RefusedSendChangesNothing(p.tx.lanes, packet);
    }
  }

  lemma PollMirrors(p: Pipe, o: Outbound, ch: Channel)
    requires Sends(p) && Mirrors(p, o)
    ensures var q := Do(p, PollSlot(ch));
      Sends(q) && q.rx == p.rx && Mirrors(q, PollLane(o, ch)) && q.tx.outgoing == p.tx.outgoing
  {
    hide OnLane, EntryPackets, Carries, Inv, PopQueue, Advance;
    InvLogsValid(p);
    StepKeepsInv(p, PollSlot(ch));
  }

  lemma ChoiceMirrors(p: Pipe, o: Outbound)
    requires Sends(p) && Mirrors(p, o) && Consistent(o) && p.tx.outgoing.None?
    ensures var q := Do(p, ChooseNext); Sends(q) && q.rx == p.rx && Mirrors(q, Emit(o).0)
  {
    ChoiceSucceeds(o);
    var r := Choose(o.slots).1.value;
    if r.Some? {
      HeldIsWaiting(o, r.value.Channel());
      ValidatedPackets(r.value);
    }
    hide Inv, Mirrors, Consistent, PacketSequence, Emit, Choose, FrameOf;
    InvLogsValid(p);
    StepKeepsInv(p, ChooseNext);
    ChoiceEmits(p, o);
  }

  lemma ChoiceEmits(p: Pipe, o: Outbound)
    requires p.control.Valid() && p.media.Valid() && p.tx.running && p.tx.outgoing.None? && Mirrors(p, o)
    requires Choose(o.slots).1.Ok?
    requires var r := Choose(o.slots).1.value; r.Some? ==> PacketSequence(r.value).Ok? && Carries(r.value, FrameOf(r.value))
    ensures var q := Do(p, ChooseNext);
      Mirrors(q, Emit(o).0) && q.tx.running && q.tx.up == p.tx.up && q.rx == p.rx
  {
    hide OnLane, EntryPackets, Carries, Without, PacketSequence;
    EmptyChoice(o.slots);
    hide Choose;
  }

  lemma EmptyChoice(s: Slots)
    ensures Choose(s).1 == Ok(None) ==> Choose(s).0 == s
  {
    hide PacketSequence;
  }

  lemma {:induction false} ArrivalsMirror(p: Pipe, o: Outbound, packets: seq<Packet>) returns (actions: seq<Action>)
    requires Ready(p) && Mirrors(p, o)
    ensures var q := Run(p, actions); Ready(q) && Mirrors(q, M.Arrive(o, packets)) && q.tx.outgoing == p.tx.outgoing
    decreases |packets|
  {
    hide Inv, Do, Mirrors, Enqueue;
    actions := [];
    if packets != [] {
      InvLogsValid(p);
      SendMirrors(p, o, packets[0]);
      var later := ArrivalsMirror(Do(p, AppSend(packets[0])), Enqueue(o, packets[0]), packets[1..]);
      actions := [AppSend(packets[0])] + later;
    }
  }

  lemma OneAction(p: Pipe, a: Action)
    requires Inv(p)
    ensures p.control.Valid() && p.media.Valid() && Run(p, [a]) == Do(p, a)
  {
    hide Inv, Do;
    InvLogsValid(p);
    StepKeepsInv(p, a);
    assert [a][1..] == [];
    assert Run(Do(p, a), []) == Do(p, a);
  }

  /** A call of the multiplexer, after what it emitted before has been written. */
  lemma CallMirrors(p: Pipe, o: Outbound, during: seq<Packet>) returns (actions: seq<Action>)
    requires Ready(p) && Mirrors(p, o) && Consistent(o) && M.AllocatedArrivals(PollLane(o, Control), during)
    ensures var q := Run(p, actions); Ready(q) && Mirrors(q, M.SplitNext(o, during).0)
  {
    hide Inv, Do, Run, Enqueue, PollLane, Emit, Consistent, M.Arrive, M.AllocatedArrivals, Flushed;
    var o1 := PollLane(o, Control);
    var o2 := M.Arrive(o1, during);
    var o3 := PollLane(o2, Media);
    M.BeforeChoiceIs(o, during);
    var flush := Flush(p);
    var p0 := Run(p, flush);
    assert p0.tx.outgoing.None? by { FlushedWrites(p0); }
    assert Mirrors(p0, o);
    hide Mirrors;
    OneAction(p0, PollSlot(Control));
    PollMirrors(p0, o, Control);
    var p1 := Run(p0, [PollSlot(Control)]);
    var sends := ArrivalsMirror(p1, o1, during);
    var p2 := Run(p1, sends);
    OneAction(p2, PollSlot(Media));
    PollMirrors(p2, o2, Media);
    var p3 := Run(p2, [PollSlot(Media)]);
    OneAction(p3, ChooseNext);
    ChoiceMirrors(p3, o3);
    RunAppend(p, flush, [PollSlot(Control)]);
    RunAppend(p, flush + [PollSlot(Control)], sends);
    RunAppend(p, flush + [PollSlot(Control)] + sends, [PollSlot(Media)]);
    RunAppend(p, flush + [PollSlot(Control)] + sends + [PollSlot(Media)], [ChooseNext]);
    actions := flush + [PollSlot(Control)] + sends + [PollSlot(Media)] + [ChooseNext];
  }

  lemma FlushedWrites(p: Pipe)
    requires Flushed(p)
    ensures p.tx.outgoing.None?
  {
  }

  // ---- Whole runs -----------------------------------------------------------------------

  lemma OpMirrors(p: Pipe, o: Outbound, op: M.MuxOp) returns (actions: seq<Action>)
    requires Ready(p) && Mirrors(p, o) && Consistent(o) && M.AllocatedOp(o, op)
    ensures var q := Run(p, actions); Ready(q) && Mirrors(q, M.Step(o, op))
  {
    hide Inv, Do, Run, Mirrors, Consistent;
    match op
    case Put(packet) =>
      SendMirrors(p, o, packet);
      OneAction(p, AppSend(packet));
      actions := [AppSend(packet)];
    case Call(during) =>
      actions := CallMirrors(p, o, during);
  }

  /** Every run of the multiplexer under increasing numbers is a run of the pipe,
      in which what has left it at the end has been delivered. */
  lemma {:induction false} MuxRunIsPipeRun(p: Pipe, o: Outbound, ops: seq<M.MuxOp>) returns (actions: seq<Action>)
    requires Ready(p) && Mirrors(p, o) && Consistent(o) && M.AllocatedRun(o, ops)
    ensures var q := Run(p, actions); Ready(q) && Flushed(q) && Mirrors(q, M.Run(o, ops))
    decreases |ops|
  {
    hide Inv, Do, Run, Consistent, Flushed, M.Step, M.AllocatedOp;
    if ops == [] {
      actions := Flush(p);
    } else {
      hide Mirrors;
      var first := OpMirrors(p, o, ops[0]);
      M.StepKeepsConsistency(o, ops[0]);
      var later := MuxRunIsPipeRun(Run(p, first), M.Step(o, ops[0]), ops[1..]);
      RunAppend(p, first, later);
      actions := first + later;
    }
  }

  lemma FreshMirrors(controlLimits: QueueLimits, mediaLimits: QueueLimits)
    requires controlLimits.Valid() && mediaLimits.Valid()
    ensures var p := Fresh(controlLimits, mediaLimits, CONTROL_LIMITS, MEDIA_LIMITS);
      Ready(p) && Mirrors(p, M.Empty(controlLimits, mediaLimits))
  {
    FreshInv(controlLimits, mediaLimits, CONTROL_LIMITS, MEDIA_LIMITS);
    hide Inv;
  }

  /** All that left the multiplexer has been decoded at the far end. */
  lemma FlushedIsDecoded(p: Pipe)
    requires Ready(p) && Flushed(p)
    ensures p.decoded == |p.emitted|
  {
    hide TxSide, RxSide;
    AllDecodedWhenIdle(p);
  }

  // ---- Any schedule ---------------------------------------------------------------------

  /** What a step of the pipe does to the multiplexer. */
  function Follow(p: Pipe, o: Outbound, a: Action): Outbound {
    match a
    case AppSend(packet) => Enqueue(o, packet)
    case PollSlot(ch) => PollLane(o, ch)
    case ChooseNext => if p.tx.outgoing.None? then Emit(o).0 else o
    case _ => o
  }

  lemma AnyStepMirrors(p: Pipe, o: Outbound, a: Action)
    requires Sends(p) && Mirrors(p, o) && Consistent(o) && a != StopTx && a != CutTx
    requires a.AppSend? ==> Allocated(o, a.packet)
    ensures p.control.Valid() && p.media.Valid()
    ensures Sends(Do(p, a)) && Mirrors(Do(p, a), Follow(p, o, a)) && Consistent(Follow(p, o, a))
  {
    hide Inv, Mirrors, Consistent, Do, Enqueue, PollLane, Emit, Allocated;
    InvLogsValid(p);
    StepKeepsInv(p, a);
    match a
    case AppSend(packet) =>
      SendMirrors(p, o, packet);
      EnqueueKeepsConsistency(o, packet);
    case PollSlot(ch) =>
      PollMirrors(p, o, ch);
      PollKeepsConsistency(o, ch);
    case ChooseNext =>
      if p.tx.outgoing.None? {
        ChoiceMirrors(p, o);
        EmitKeepsConsistency(o);
      } else {
        OtherStepsMirror(p, o, a);
      }
    case _ => OtherStepsMirror(p, o, a);
  }

  lemma OtherStepsMirror(p: Pipe, o: Outbound, a: Action)
    requires p.control.Valid() && p.media.Valid() && p.tx.running && p.tx.up && Mirrors(p, o)
    requires !a.AppSend? && !a.PollSlot? && a != StopTx && a != CutTx
    requires a.ChooseNext? ==> p.tx.outgoing.Some?
    ensures var q := Do(p, a); q.tx.running && q.tx.up && Mirrors(q, o)
  {
    hide OnLane, EntryPackets, Carries, RxRead, RxDrain, PopQueue, PacketSequence;
  }

  /** Every send is under a number above all accepted before it. */
  ghost predicate AllocatedSends(p: Pipe, o: Outbound, actions: seq<Action>)
    requires Sends(p) && Mirrors(p, o) && Consistent(o)
    decreases |actions|
  {
    actions == [] ||
    (var a := actions[0];
     a != StopTx && a != CutTx && (a.AppSend? ==> Allocated(o, a.packet))
     && (AnyStepMirrors(p, o, a); AllocatedSends(Do(p, a), Follow(p, o, a), actions[1..])))
  }

  /** Whatever the schedule of writes, reads, polls, choices and sends: while the
      numbers of what is sent increase, the multiplexer never stops its worker. */
  lemma {:induction false} AllocatedNeverStops(p: Pipe, o: Outbound, actions: seq<Action>)
    requires Sends(p) && Mirrors(p, o) && Consistent(o) && AllocatedSends(p, o, actions)
    ensures var q := Run(p, actions);
      Sends(q) && exists o' :: Mirrors(q, o') && Consistent(o')
    decreases |actions|
  {
    hide Inv, Mirrors, Consistent, Do, Follow, Allocated;
    if actions != [] {
      AnyStepMirrors(p, o, actions[0]);
      AllocatedNeverStops(Do(p, actions[0]), Follow(p, o, actions[0]), actions[1..]);
    }
  }
}
