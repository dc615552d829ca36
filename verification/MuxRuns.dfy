/** The order of the multiplexed stream over whole runs, in which anything may
    be sent between the two receives of a call
    (crates/ladoflow-transport/src/ldfl_stream.rs:114-152). */
module MuxRuns {
  import opened Wrappers
  import opened Words
  import opened Frames
  import opened Packets
  import opened Loopback
  import opened Applications
  import opened LdflStream
  import opened MuxOrder

  // ---- One call -----------------------------------------------------------------

  function Arrive(o: Outbound, packets: seq<Packet>): Outbound
    decreases |packets|
  {
    if packets == [] then o else Arrive(Enqueue(o, packets[0]), packets[1..])
  }

  ghost predicate AllocatedArrivals(o: Outbound, packets: seq<Packet>)
    decreases |packets|
  {
    packets == [] || (Allocated(o, packets[0]) && AllocatedArrivals(Enqueue(o, packets[0]), packets[1..]))
  }

  /** One call of `next` during which `packets` are sent, all between its two
      receives. */
  function SplitNext(o: Outbound, packets: seq<Packet>): (Outbound, Result<Option<Packet>, StreamError>) {
    Emit(PollLane(Arrive(PollLane(o, Control), packets), Media))
  }

  /** What the application sent in some interval. */
  function Sent(steps: seq<AppStep>): seq<Packet>
    decreases |steps|
  {
    if steps == [] then [] else
    var last := steps[|steps| - 1];
    Sent(steps[..|steps| - 1]) + (if last.AppSends? then [last.packet] else [])
  }

  lemma {:induction false} ArriveMore(o: Outbound, packets: seq<Packet>, p: Packet)
    ensures Arrive(o, packets + [p]) == Enqueue(Arrive(o, packets), p)
    decreases |packets|
  {
    hide Enqueue;
    var more := packets + [p];
    if packets == [] {
      assert more[0] == p && more[1..] == [];
      assert Arrive(Enqueue(o, p), []) == Enqueue(o, p);
    } else {
      assert more[1..] == packets[1..] + [p] && more[0] == packets[0];
      ArriveMore(Enqueue(o, packets[0]), packets[1..], p);
    }
  }

  lemma {:induction false} ArriveIsAppRun(o: Outbound, link: LinkState, side: Side, steps: seq<AppStep>)
    requires link.connected && link.Incoming(side) == o.lanes && AppCuts !in steps
    ensures var link' := AppRun(link, Opposite(side), steps);
      && link'.connected && link'.Incoming(side) == Arrive(o, Sent(steps)).lanes
      && Arrive(o, Sent(steps)).slots == o.slots
    decreases |steps|
  {
    hide PushQueue, PopQueue, Arrive;
    if steps == [] {
      ArriveNothing(o);
    } else {
      var front, last := steps[..|steps| - 1], steps[|steps| - 1];
      ArriveIsAppRun(o, link, side, front);
      if last.AppSends? {
        ArriveMore(o, Sent(front), last.packet);
        RefusedSendChangesNothing(Arrive(o, Sent(front)).lanes, last.packet);
      } else {
        assert Sent(front) + [] == Sent(front);
      }
    }
  }

  lemma ArriveNothing(o: Outbound)
    ensures Arrive(o, []) == o
  {
  }

  /** Every call of the multiplexer on a live link, whatever the application
      does meanwhile, is such a call. */
  lemma SplitNextIsMuxNext(o: Outbound, link: LinkState, side: Side, between: seq<AppStep>)
    requires link.connected && link.Incoming(side) == o.lanes && AppCuts !in between
    ensures var (slots, link', r) := MuxNext(o.slots, link, side, between);
      && SplitNext(o, Sent(between)).0.slots == slots
      && SplitNext(o, Sent(between)).0.lanes == link'.Incoming(side)
      && SplitNext(o, Sent(between)).1 == r
  {
    hide PacketSequence, PopQueue, AppRun, Arrive, Choose;
    var polled := PollLane(o, Control);
    PollTouchesOneLane(o, Control);
    ArriveIsAppRun(polled, link.WithIncoming(side, polled.lanes), side, between);
    ArriveNothing(polled);
  }

  lemma PollTouchesOneLane(o: Outbound, ch: Channel)
    ensures var o' := PollLane(o, ch);
      && o'.waiting == o.waiting
      && forall other :: other != ch ==> o'.slots.At(other) == o.slots.At(other) && o'.lanes.At(other) == o.lanes.At(other)
  {
  }

  lemma {:induction false} ArrivalsKeepConsistency(o: Outbound, packets: seq<Packet>)
    requires Consistent(o) && AllocatedArrivals(o, packets)
    ensures Consistent(Arrive(o, packets)) && (InOrder(o) ==> InOrder(Arrive(o, packets)))
    ensures Arrive(o, packets).slots == o.slots && Arrive(o, packets).emitted == o.emitted
    decreases |packets|
  {
    hide Consistent, InOrder, Allocated, Send;
    if packets != [] {
      EnqueueKeepsConsistency(o, packets[0]);
      if InOrder(o) {
        EnqueueKeepsOrder(o, packets[0]);
      }
      ArrivalsKeepConsistency(Enqueue(o, packets[0]), packets[1..]);
    }
  }

  /** What the multiplexer has when both its receives are done. */
  function BeforeChoice(o: Outbound, packets: seq<Packet>): Outbound {
    PollLane(Arrive(PollLane(o, Control), packets), Media)
  }

  lemma BeforeChoiceIs(o: Outbound, packets: seq<Packet>)
    requires Consistent(o) && AllocatedArrivals(PollLane(o, Control), packets)
    ensures var t := BeforeChoice(o, packets);
      && Consistent(t) && (InOrder(o) ==> InOrder(t))
      && t.emitted == o.emitted && t.waiting == Arrive(PollLane(o, Control), packets).waiting
      && (t.slots.media.None? ==> t.lanes.media.packets == [])
      && t.slots.control == PollLane(o, Control).slots.control
      && SplitNext(o, packets) == Emit(t)
  {
    hide Consistent, InOrder, Arrive, Poll, AllocatedArrivals;
    PollKeepsConsistency(o, Control);
    PollTouchesOneLane(o, Control);
    ArrivalsKeepConsistency(PollLane(o, Control), packets);
    var s := Arrive(PollLane(o, Control), packets);
    PollKeepsConsistency(s, Media);
    PollTouchesOneLane(s, Media);
    assert PollLane(s, Media).slots.At(Media) == PollLane(s, Media).slots.media;
    assert PollLane(s, Media).slots.At(Control) == s.slots.At(Control);
  }

  /** A call overtakes exactly when the control lane was empty at the first
      receive, and at the second one the earliest packet waiting is control
      while media waits too. */
  ghost predicate Overtakes(o: Outbound, packets: seq<Packet>) {
    var waiting := Arrive(PollLane(o, Control), packets).waiting;
    && OnLane(o.waiting, Control) == []
    && OnLane(waiting, Media) != [] && waiting[0].Channel() == Control
  }

  /** Media `m` has left although control `c`, numbered below it, had not. */
  ghost predicate Inverted(o: Outbound, m: Packet, c: Packet) {
    && m in o.emitted && c.ControlPacket? && Seq(c) < Seq(m)
    && (c in o.waiting || LeavesAfter(o.emitted, m, c))
  }

  ghost predicate LeavesAfter(s: seq<Packet>, m: Packet, c: Packet) {
    exists i, j :: 0 <= i < j < |s| && s[i] == m && s[j] == c
  }

  ghost predicate OutOfOrder(o: Outbound) {
    exists m, c :: Inverted(o, m, c)
  }

  /** Every call succeeds, whatever was sent meanwhile and whatever happened
      before, and keeps every packet in one place. */
  lemma CallKeepsConsistency(o: Outbound, packets: seq<Packet>)
    requires Consistent(o) && AllocatedArrivals(PollLane(o, Control), packets)
    ensures Consistent(SplitNext(o, packets).0)
    ensures var r := SplitNext(o, packets).1;
      r.Ok? && (r.value.Some? ==> r.value.value in Arrive(PollLane(o, Control), packets).waiting)
  {
    hide Consistent, InOrder, Arrive, Emit, Choose;
    BeforeChoiceIs(o, packets);
    EmitKeepsConsistency(BeforeChoice(o, packets));
    EmitsWaiting(BeforeChoice(o, packets));
  }

  lemma EmitsWaiting(t: Outbound)
    requires Consistent(t)
    ensures Emit(t).1.Ok? && (Emit(t).1.value.Some? ==> Emit(t).1.value.value in t.waiting)
  {
    hide Consistent, Choose;
    ChoiceSucceeds(t);
  }

  /** A call that nothing interrupts returns the earliest packet waiting, on
      whichever lane it is, whatever happened before. */
  lemma AtomicCallTakesTheFirst(o: Outbound)
    requires Consistent(o)
    ensures var (o', r) := SplitNext(o, []);
      && r == Ok(if o.waiting == [] then None else Some(o.waiting[0]))
      && o'.waiting == (if o.waiting == [] then [] else o.waiting[1..])
      && Consistent(o') && (Ordered(o) ==> Ordered(o'))
  {
    hide Consistent, InOrder, Emit, Poll;
    var polled := PollLane(o, Control);
    PollKeepsConsistency(o, Control);
    PollTouchesOneLane(o, Control);
    ArriveNothing(polled);
    PollKeepsConsistency(polled, Media);
    PollTouchesOneLane(polled, Media);
    var t := PollLane(polled, Media);
    assert t.slots.At(Control) == polled.slots.At(Control) && t.lanes.At(Control) == polled.lanes.At(Control);
    EmitTakesTheFirst(t);
  }

  /** On a stream in order, a call that does not overtake returns the earliest
      packet waiting, if it returns one, and the stream stays in order; a call
      that does returns another one, and the stream is out of order. A call
      returns nothing exactly when control was empty at the first receive and
      media at the second. */
  lemma WhenSplitNextOvertakes(o: Outbound, packets: seq<Packet>)
    requires Ordered(o) && AllocatedArrivals(PollLane(o, Control), packets)
    ensures var waiting := Arrive(PollLane(o, Control), packets).waiting;
      var (o', r) := SplitNext(o, packets);
      && r.Ok?
      && (Overtakes(o, packets) ==> r.value.Some? && r.value.value != waiting[0] && OutOfOrder(o') && !Ordered(o'))
      && (!Overtakes(o, packets) ==> Ordered(o') && (r.value.Some? ==> waiting != [] && r.value.value == waiting[0]))
      && (r.value.None? <==> OnLane(o.waiting, Control) == [] && OnLane(waiting, Media) == [])
  {
    hide Consistent, InOrder, PacketSequence, Choose, Poll, OnLane, Arrive, Without, OutOfOrder;
    BeforeChoiceIs(o, packets);
    var t := BeforeChoice(o, packets);
    PollKeepsConsistency(o, Control);
    SlotIsFirstOfLane(PollLane(o, Control), Control);
    PollTouchesOneLane(o, Control);
    OnLaneMembers(t.waiting, Control);
    OnLaneMembers(t.waiting, Media);
    SlotIsFirstOfLane(t, Media);
    if t.slots.control.Some? {
      HeldIsWaiting(t, Control);
      EmitTakesTheFirst(t);
    } else {
      MediaAlone(t);
      if Overtakes(o, packets) {
        OvertakingInverts(t);
        OutOfOrderIsNotOrdered(Emit(t).0);
      } else {
        MediaFirst(t);
      }
    }
  }

  /** With the control slot empty the media slot leaves. */
  lemma MediaAlone(t: Outbound)
    requires Consistent(t) && t.slots.control.None?
    ensures Emit(t).1 == Ok(t.slots.media)
    ensures t.slots.media.Some? ==> Emit(t).0.emitted == t.emitted + [t.slots.media.value]
    ensures t.slots.media.Some? ==> Emit(t).0.waiting == Without(t.waiting, [t.slots.media.value])
    ensures t.slots.media.None? ==> Emit(t).0 == t
  {
    hide Consistent, PacketSequence, Seq;
    HeldIsWaiting(t, Media);
  }

  lemma EmittedIsChosen(t: Outbound)
    ensures Emit(t).1 == Choose(t.slots).1
  {
    hide Choose;
  }

  lemma OvertakingInverts(t: Outbound)
    requires Consistent(t) && t.slots.control.None? && t.slots.media.Some?
    requires t.waiting != [] && t.waiting[0].Channel() == Control
    ensures OutOfOrder(Emit(t).0) && t.slots.media.value != t.waiting[0]
  {
    hide Consistent, PacketSequence, Without, Emit;
    MediaAlone(t);
    HeldIsWaiting(t, Media);
    var m, c := t.slots.media.value, t.waiting[0];
    WaitingInOrder(t, m);
    WithoutMembers(t.waiting, [m]);
    assert Inverted(Emit(t).0, m, c);
  }

  lemma MediaFirst(t: Outbound)
    requires Ordered(t) && t.slots.control.None?
    requires t.slots.media.None? ==> t.lanes.media.packets == []
    requires !(OnLane(t.waiting, Media) != [] && t.waiting[0].Channel() == Control)
    ensures Ordered(Emit(t).0)
    ensures t.slots.media.Some? ==> t.waiting != [] && t.slots.media.value == t.waiting[0]
  {
    assert Increasing(t.waiting);
    hide Consistent, PacketSequence, OnLane, Choose, Seq, Increasing;
    EmitKeepsConsistency(t);
    SlotIsFirstOfLane(t, Media);
    MediaAlone(t);
    if t.slots.media.Some? {
      FirstOnLane(t.waiting);
      assert Emit(t).1 == Ok(Some(t.waiting[0]));
      EmittedIsChosen(t);
      RemoveFirst(t);
    }
  }

  lemma FirstOnLane(s: seq<Packet>)
    requires s != []
    ensures OnLane(s, s[0].Channel()) != [] && OnLane(s, s[0].Channel())[0] == s[0]
  {
  }

  // ---- Order once lost stays lost ---------------------------------------------------

  lemma OutOfOrderIsNotOrdered(o: Outbound)
    requires OutOfOrder(o)
    ensures !Increasing(o.emitted + o.waiting) && !InOrder(o)
  {
    hide Seq;
    var m, c :| Inverted(o, m, c);
    IncreasingConcat(o.emitted, o.waiting);
    if LeavesAfter(o.emitted, m, c) {
      var i, j :| 0 <= i < j < |o.emitted| && o.emitted[i] == m && o.emitted[j] == c;
      assert Seq(o.emitted[j]) < Seq(o.emitted[i]);
    }
  }

  lemma SendKeepsInversion(o: Outbound, p: Packet, m: Packet, c: Packet)
    requires Inverted(o, m, c)
    ensures Inverted(Enqueue(o, p), m, c)
  {
    hide Seq, LeavesAfter, PushQueue;
    var queue, key := o.lanes.At(p.Channel()).packets, p.SupersessionKey();
    KeptMembers(queue, key);
    WithoutMembers(o.waiting, Dropped(queue, key));
  }

  lemma LeavesLater(s: seq<Packet>, m: Packet, c: Packet, x: Packet)
    requires m in s && (LeavesAfter(s, m, c) || x == c)
    ensures LeavesAfter(s + [x], m, c)
  {
    var more := s + [x];
    if LeavesAfter(s, m, c) {
      var i, j :| 0 <= i < j < |s| && s[i] == m && s[j] == c;
      assert more[i] == m && more[j] == c;
    } else {
      var i :| 0 <= i < |s| && s[i] == m;
      assert more[i] == m && more[|s|] == c;
    }
  }

  lemma EmitKeepsInversion(o: Outbound, m: Packet, c: Packet)
    requires Inverted(o, m, c)
    ensures Inverted(Emit(o).0, m, c)
  {
    hide Seq, LeavesAfter, Choose;
    var r := Choose(o.slots).1;
    if r.Ok? && r.value.Some? {
      var x := r.value.value;
      WithoutMembers(o.waiting, [x]);
      if LeavesAfter(o.emitted, m, c) || x == c {
        LeavesLater(o.emitted, m, c, x);
      }
    }
  }

  lemma {:induction false} ArrivalsKeepInversion(o: Outbound, packets: seq<Packet>, m: Packet, c: Packet)
    requires Inverted(o, m, c)
    ensures Inverted(Arrive(o, packets), m, c)
    decreases |packets|
  {
    hide Inverted, Enqueue;
    if packets != [] {
      SendKeepsInversion(o, packets[0], m, c);
      ArrivalsKeepInversion(Enqueue(o, packets[0]), packets[1..], m, c);
    }
  }

  lemma PollKeepsInversion(o: Outbound, ch: Channel, m: Packet, c: Packet)
    requires Inverted(o, m, c)
    ensures Inverted(PollLane(o, ch), m, c)
  {
    hide Seq, LeavesAfter;
  }

  // ---- Whole runs ---------------------------------------------------------------------

  /** A send, or a call of the multiplexer during which `during` is sent. */
  datatype MuxOp = Put(packet: Packet) | Call(during: seq<Packet>)

  function Step(o: Outbound, op: MuxOp): Outbound {
    match op
    case Put(p) => Enqueue(o, p)
    case Call(during) => SplitNext(o, during).0
  }

  function Run(o: Outbound, ops: seq<MuxOp>): Outbound
    decreases |ops|
  {
    if ops == [] then o else Run(Step(o, ops[0]), ops[1..])
  }

  /** Every packet offered carries a number above all accepted before it. */
  ghost predicate AllocatedOp(o: Outbound, op: MuxOp) {
    match op
    case Put(p) => Allocated(o, p)
    case Call(during) => AllocatedArrivals(PollLane(o, Control), during)
  }

  ghost predicate AllocatedRun(o: Outbound, ops: seq<MuxOp>)
    decreases |ops|
  {
    ops == [] || (AllocatedOp(o, ops[0]) && AllocatedRun(Step(o, ops[0]), ops[1..]))
  }

  /** No call of the run overtakes. */
  ghost predicate NoOvertaking(o: Outbound, ops: seq<MuxOp>)
    decreases |ops|
  {
    ops == [] ||
    ((ops[0].Call? ==> !Overtakes(o, ops[0].during)) && NoOvertaking(Step(o, ops[0]), ops[1..]))
  }

  function Empty(controlLimits: QueueLimits, mediaLimits: QueueLimits): Outbound {
    Outbound(Lanes(QueueState(controlLimits, []), QueueState(mediaLimits, [])), NO_SLOTS, [], [], [], [])
  }

  lemma EmptyIsOrdered(controlLimits: QueueLimits, mediaLimits: QueueLimits)
    requires controlLimits.Valid() && mediaLimits.Valid()
    ensures Ordered(Empty(controlLimits, mediaLimits))
  {
  }

  lemma StepKeepsConsistency(o: Outbound, op: MuxOp)
    requires Consistent(o) && AllocatedOp(o, op)
    ensures Consistent(Step(o, op))
  {
    hide Consistent, Enqueue, SplitNext, Allocated, AllocatedArrivals;
    match op
    case Put(p) => EnqueueKeepsConsistency(o, p);
    case Call(during) => CallKeepsConsistency(o, during);
  }

  lemma StepStaysOutOfOrder(o: Outbound, op: MuxOp)
    requires OutOfOrder(o)
    ensures OutOfOrder(Step(o, op))
  {
    hide Inverted, Enqueue, Emit, PollLane, Arrive;
    var m, c :| Inverted(o, m, c);
    match op {
      case Put(p) => SendKeepsInversion(o, p, m, c);
      case Call(during) =>
        PollKeepsInversion(o, Control, m, c);
        ArrivalsKeepInversion(PollLane(o, Control), during, m, c);
        PollKeepsInversion(Arrive(PollLane(o, Control), during), Media, m, c);
        EmitKeepsInversion(BeforeChoice(o, during), m, c);
    }
    assert Inverted(Step(o, op), m, c);
  }

  lemma {:induction false} RunKeepsConsistency(o: Outbound, ops: seq<MuxOp>)
    requires Consistent(o) && AllocatedRun(o, ops)
    ensures Consistent(Run(o, ops))
    decreases |ops|
  {
    hide Consistent, AllocatedOp, Step;
    if ops != [] {
      StepKeepsConsistency(o, ops[0]);
      RunKeepsConsistency(Step(o, ops[0]), ops[1..]);
    }
  }

  lemma {:induction false} RunStaysOutOfOrder(o: Outbound, ops: seq<MuxOp>)
    requires OutOfOrder(o)
    ensures OutOfOrder(Run(o, ops))
    decreases |ops|
  {
    hide OutOfOrder, Step;
    if ops != [] {
      StepStaysOutOfOrder(o, ops[0]);
      RunStaysOutOfOrder(Step(o, ops[0]), ops[1..]);
    }
  }

  lemma StepKeepsOrder(o: Outbound, op: MuxOp)
    requires Ordered(o) && AllocatedOp(o, op)
    ensures if op.Call? && Overtakes(o, op.during) then OutOfOrder(Step(o, op)) else Ordered(Step(o, op))
  {
    hide Ordered, Enqueue, SplitNext, Allocated, AllocatedArrivals, Overtakes, OutOfOrder;
    match op
    case Put(p) => EnqueueKeepsOrder(o, p);
    case Call(during) => WhenSplitNextOvertakes(o, during);
  }

  /** A run from a stream in order ends in order when no call overtakes, and out
      of order otherwise. */
  lemma {:induction false} RunKeepsOrder(o: Outbound, ops: seq<MuxOp>)
    requires Ordered(o) && AllocatedRun(o, ops)
    ensures if NoOvertaking(o, ops) then Ordered(Run(o, ops)) else OutOfOrder(Run(o, ops))
    decreases |ops|
  {
    hide Ordered, AllocatedOp, Step, Overtakes, OutOfOrder;
    if ops != [] {
      var next := Step(o, ops[0]);
      StepKeepsOrder(o, ops[0]);
      if ops[0].Call? && Overtakes(o, ops[0].during) {
        RunStaysOutOfOrder(next, ops[1..]);
      } else {
        RunKeepsOrder(next, ops[1..]);
      }
    }
  }

  /** Global order over whole runs, with numbers allocated in increasing order
      across both lanes and anything sent between the receives of any call: what
      has left and what waits is in increasing order exactly when no call
      overtook. Then the output is strictly increasing, and without replaceable
      media a prefix of the order of enqueuing. Whatever the order, every packet
      but replaced media has left or waits, and the next call succeeds. */
  lemma GlobalOrder(controlLimits: QueueLimits, mediaLimits: QueueLimits, ops: seq<MuxOp>)
    requires controlLimits.Valid() && mediaLimits.Valid()
    requires AllocatedRun(Empty(controlLimits, mediaLimits), ops)
    ensures var o := Run(Empty(controlLimits, mediaLimits), ops);
      var inOrder := NoOvertaking(Empty(controlLimits, mediaLimits), ops);
      && (Increasing(o.emitted + o.waiting) <==> inOrder)
      && (inOrder ==> Increasing(o.emitted))
      && (inOrder && Irreplaceable(o.accepted) ==> o.emitted <= o.accepted)
      && Accounted(o) && Disjoint(o.emitted, o.waiting)
      && (forall during :: AllocatedArrivals(PollLane(o, Control), during) ==> SplitNext(o, during).1.Ok?)
  {
    hide Seq, SplitNext, Run, Increasing, NoOvertaking, OutOfOrder, AllocatedArrivals, PollLane;
    var start := Empty(controlLimits, mediaLimits);
    var o := Run(start, ops);
    EmptyIsOrdered(controlLimits, mediaLimits);
    RunKeepsOrder(start, ops);
    RunKeepsConsistency(start, ops);
    if NoOvertaking(start, ops) {
      IncreasingConcat(o.emitted, o.waiting);
    } else {
      OutOfOrderIsNotOrdered(o);
    }
    forall during | AllocatedArrivals(PollLane(o, Control), during)
      ensures SplitNext(o, during).1.Ok?
    {
      CallKeepsConsistency(o, during);
    }
  }

  /** A call that nothing interrupts never overtakes, so a run of such calls
      keeps the order. */
  lemma AtomicCallsDoNotOvertake(o: Outbound)
    ensures !Overtakes(o, [])
  {
    hide Poll;
    ArriveNothing(PollLane(o, Control));
    if o.waiting != [] {
      FirstOnLane(o.waiting);
    }
  }

  lemma {:induction false} AtomicRunsKeepOrder(o: Outbound, ops: seq<MuxOp>)
    requires forall op :: op in ops && op.Call? ==> op.during == []
    ensures NoOvertaking(o, ops)
    decreases |ops|
  {
    hide Overtakes, Step;
    if ops != [] {
      assert ops[0] in ops;
      AtomicCallsDoNotOvertake(o);
      AtomicRunsKeepOrder(Step(o, ops[0]), ops[1..]);
    }
  }

  /** The overtaking does happen: on idle queues, whenever a control packet and
      then a media packet are sent between the two receives, the media packet
      leaves first. */
  lemma SplitNextReorders(limits: QueueLimits, c: Packet, m: Packet)
    requires limits.Valid() && c.Len() <= limits.maxPacketBytes && m.Len() <= limits.maxPacketBytes
    requires c.Channel() == Control && m.Channel() == Media
    requires PacketSequence(c).Ok? && PacketSequence(m).Ok? && Seq(c) < Seq(m)
    ensures var idle := Empty(limits, limits);
      && AllocatedArrivals(PollLane(idle, Control), [c, m])
      && SplitNext(idle, [c, m]).1 == Ok(Some(m))
      && SplitNext(SplitNext(idle, [c, m]).0, []).1 == Ok(Some(c))
  {
    hide PacketSequence, PushQueue, Emit, SplitNext, Enqueue;
    var idle := Empty(limits, limits);
    var one := Enqueue(idle, c);
    var both := Enqueue(one, m);
    FirstOnEmptyLane(idle, c);
    FirstOnEmptyLane(one, m);
    TwoArrivals(idle, c, m);
    assert PollLane(idle, Control) == idle;
    var late := PollLane(both, Media);
    assert late.slots == Slots(None, Some(m)) && late.lanes.control.packets == [c];
    EmitLoneSlot(late);
    var after := Emit(late).0;
    var next := PollLane(PollLane(after, Control), Media);
    assert next.slots == Slots(Some(c), None);
    EmitLoneSlot(next);
    CallUnfolds(idle, [c, m]);
    CallUnfolds(after, []);
    ArriveNothing(PollLane(after, Control));
  }

  lemma TwoArrivals(o: Outbound, c: Packet, m: Packet)
    ensures Arrive(o, [c, m]) == Enqueue(Enqueue(o, c), m)
    ensures Allocated(o, c) && Allocated(Enqueue(o, c), m) ==> AllocatedArrivals(o, [c, m])
  {
    hide Enqueue, Allocated;
    assert [c, m][1..] == [m] && [m][1..] == [];
    assert Arrive(Enqueue(o, c), [m]) == Enqueue(Enqueue(o, c), m);
    assert AllocatedArrivals(Enqueue(Enqueue(o, c), m), []);
  }

  lemma CallUnfolds(o: Outbound, packets: seq<Packet>)
    ensures SplitNext(o, packets) == Emit(PollLane(Arrive(PollLane(o, Control), packets), Media))
  {
  }

  lemma FirstOnEmptyLane(o: Outbound, p: Packet)
    requires o.lanes.At(p.Channel()).packets == [] && o.lanes.At(p.Channel()).limits.Valid()
    requires p.Len() <= o.lanes.At(p.Channel()).limits.maxPacketBytes
    ensures Enqueue(o, p).lanes == o.lanes.With(p.Channel(), o.lanes.At(p.Channel()).(packets := [p]))
    ensures Enqueue(o, p).slots == o.slots && Enqueue(o, p).accepted == o.accepted + [p]
  {
  }

  lemma EmitLoneSlot(o: Outbound)
    requires o.slots.control.None? || o.slots.media.None?
    requires forall ch :: o.slots.At(ch).Some? ==> PacketSequence(o.slots.At(ch).value).Ok?
    ensures Emit(o).1 == Ok(if o.slots.control.Some? then o.slots.control else o.slots.media)
    ensures Emit(o).0.slots == NO_SLOTS && Emit(o).0.lanes == o.lanes
  {
    hide PacketSequence;
    assert o.slots.At(Control) == o.slots.control && o.slots.At(Media) == o.slots.media;
  }
}
