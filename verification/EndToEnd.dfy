/** Two workers at the ends of one stream: what their histories say about what
    one application sent and the other took
    (crates/ladoflow-transport/src/tcp.rs:216-339). */
module EndToEnd {
  import opened Wrappers
  import opened Words
  import opened Frames
  import opened Packets
  import opened Loopback
  import opened Applications
  import opened LdflStream
  import opened Delivery
  import opened Pipeline
  import opened Endpoints
  import opened StreamWorkers
  import opened TurnProgress

  // ---- What an application saw -------------------------------------------------------

  /** What one step gets accepted on a lane. */
  function Taken(tx: Tx, s: TxStep, ch: Channel): seq<Packet> {
    if s.TApp? && s.step.AppSends? && s.step.packet.Channel() == ch && tx.up && Send(tx.lanes, s.step.packet).1.Ok?
    then [s.step.packet] else []
  }

  /** The packets accepted on a lane, in order. */
  function Accepted(tx: Tx, t: seq<TxStep>, ch: Channel): seq<Packet>
    decreases |t|
  {
    if t == [] then [] else
    Accepted(tx, t[..|t| - 1], ch) + Taken(TxRun(tx, t[..|t| - 1]).0, t[|t| - 1], ch)
  }

  /** What one accepted send reports superseded. */
  function Report(tx: Tx, s: TxStep, ch: Channel): QueueDepth {
    if Taken(tx, s, ch) == [] then NO_PACKETS else Send(tx.lanes, s.step.packet).1.value
  }

  /** What the sends on a lane reported superseded, all together. */
  function Reported(tx: Tx, t: seq<TxStep>, ch: Channel): QueueDepth
    decreases |t|
  {
    if t == [] then NO_PACKETS else
    Reported(tx, t[..|t| - 1], ch).Plus(Report(TxRun(tx, t[..|t| - 1]).0, t[|t| - 1], ch))
  }

  function Given(rx: Rx, s: RxStep, ch: Channel): seq<bytes> {
    if s == RApp(AppTakes(ch)) && rx.up && rx.lanes.At(ch).packets != []
    then [rx.lanes.At(ch).packets[0].payload] else []
  }

  /** What the application took from a lane, in order. */
  function Delivered(rx: Rx, r: seq<RxStep>, ch: Channel): seq<bytes>
    decreases |r|
  {
    if r == [] then [] else
    Delivered(rx, r[..|r| - 1], ch) + Given(RxRun(rx, r[..|r| - 1]), r[|r| - 1], ch)
  }

  // ---- Which packets were superseded ------------------------------------------------------

  /** The record of a lane: a send marks the queued packets it replaces, and a
      poll takes the first packet still queued. */
  function RecordStep(tx: Tx, log: LaneLog, s: TxStep, ch: Channel): (log': LaneLog)
    requires log.Valid()
    ensures log'.Valid() && log'.delivered == log.delivered
  {
    if Taken(tx, s, ch) != [] then
      var log' := LogSend(log, s.step.packet, Report(tx, s, ch));
      assert |log'.entries| == |log.entries| + 1;
      log'
    else if s == TPoll(ch) && TxPoll(tx, ch).1.Some? then LogPop(log)
    else log
  }

  function Recorded(tx: Tx, t: seq<TxStep>, ch: Channel): (log: LaneLog)
    ensures log.Valid() && log.delivered == []
    decreases |t|
  {
    if t == [] then NEW_LOG
    else RecordStep(TxRun(tx, t[..|t| - 1]).0, Recorded(tx, t[..|t| - 1], ch), t[|t| - 1], ch)
  }

  lemma RecordedStep(tx: Tx, log: LaneLog, s: TxStep, ch: Channel)
    requires log.Valid()
    ensures var log' := RecordStep(tx, log, s, ch);
      && EntryPackets(log'.entries) == EntryPackets(log.entries) + Taken(tx, s, ch)
      && log'.reported == log.reported.Plus(Report(tx, s, ch))
      && (MarkedExactly(log) ==> MarkedExactly(log'))
  {
    hide EntryPackets, Mark, Advance, MarkedExactly, Send, TxPoll;
    if Taken(tx, s, ch) != [] {
      SendLogsPacket(log, s.step.packet, Report(tx, s, ch));
      if MarkedExactly(log) {
        SendMarksExactly(log, s.step.packet, Report(tx, s, ch));
      }
    } else {
      assert EntryPackets(log.entries) + [] == EntryPackets(log.entries);
      if MarkedExactly(log) {
        PopMarksExactly(log);
      }
    }
  }

  /** The record holds what was accepted and what was reported, and marks exactly
      the packets replaced while they were queued. */
  lemma {:induction false} RecordIsExact(tx: Tx, t: seq<TxStep>, ch: Channel)
    ensures var log := Recorded(tx, t, ch);
      EntryPackets(log.entries) == Accepted(tx, t, ch) && log.reported == Reported(tx, t, ch) && MarkedExactly(log)
    decreases |t|
  {
    hide TxRun, RecordStep, EntryPackets, Taken, Report;
    if t != [] {
      hide MarkedExactly;
      RecordIsExact(tx, t[..|t| - 1], ch);
      RecordedStep(TxRun(tx, t[..|t| - 1]).0, Recorded(tx, t[..|t| - 1], ch), t[|t| - 1], ch);
    } else {
      assert EntryPackets([]) == [];
    }
  }

  // ---- The log of the pipe is that record ----------------------------------------------------

  lemma TxStepIsLogged(p: Pipe, s: TxStep, ch: Channel)
    requires p.control.Valid() && p.media.Valid()
    ensures var q := if TxAction(s) == [] then p else Do(p, TxAction(s)[0]); q.Log(ch) == RecordStep(p.tx, p.Log(ch), s, ch)
  {
    hide TxChoose, TxWrite, PacketSequence, PushQueue, PopQueue, Mark, Advance;
  }

  lemma {:induction false} SenderIsLogged(p: Pipe, t: seq<TxStep>, ch: Channel)
    requires Inv(p) && p.Log(ch) == NEW_LOG
    ensures Run(p, TxActions(t)).Log(ch) == Recorded(p.tx, t, ch)
    decreases |t|
  {
    hide Inv, Do, TxDo, TxRun, TxAction, RecordStep, Run;
    if t == [] {
      NoActions(p);
    } else {
      var front, s := t[..|t| - 1], t[|t| - 1];
      SenderIsLogged(p, front, ch);
      SenderIsAPipeRun(p, front);
      AtMostOneAction(s);
      RunAtMostOneMore(p, TxActions(front), TxAction(s));
      InvLogsValid(Run(p, TxActions(front)));
      TxStepIsLogged(Run(p, TxActions(front)), s, ch);
    }
  }

  lemma NoActions(p: Pipe)
    requires Inv(p)
    ensures Run(p, []) == p
  {
  }

  lemma RxStepIsLogged(p: Pipe, s: RxStep, ch: Channel)
    requires p.control.Valid() && p.media.Valid()
    ensures var q := if RxAction(s) == [] then p else Do(p, RxAction(s)[0]);
      q.Log(ch) == p.Log(ch).(delivered := p.Log(ch).delivered + Given(p.rx, s, ch))
  {
    hide RxRead, RxDrain, PacketSequence;
    assert p.Log(ch).delivered + [] == p.Log(ch).delivered;
  }

  lemma {:induction false} ReceiverIsLogged(p: Pipe, r: seq<RxStep>, ch: Channel)
    requires Inv(p) && Disciplined(p.rx, r) && ReadOf(r) <= p.wire
    ensures Run(p, RxActions(r)).Log(ch) == p.Log(ch).(delivered := p.Log(ch).delivered + Delivered(p.rx, r, ch))
    decreases |r|
  {
    if r == [] {
      assert p.Log(ch).delivered + [] == p.Log(ch).delivered;
    } else {
      LastRxStep(p.rx, r);
      hide Inv, Do, RxDo, RxAction, MayRead, RxRun, ReadOf, RxActions, Disciplined, Run;
      var front, s := r[..|r| - 1], r[|r| - 1];
      var chunk := if s.RRead? then s.chunk else [];
      assert ReadOf(front) <= p.wire by { PrefixOfPrefix(ReadOf(front), chunk, p.wire); }
      ReceiverIsLogged(p, front, ch);
      ReceiverIsAPipeRun(p, front);
      var q := Run(p, RxActions(front));
      NextOnWire(ReadOf(front), chunk, q.wire, p.wire);
      AtMostOneRxAction(s);
      RunAtMostOneMore(p, RxActions(front), RxAction(s));
      InvLogsValid(q);
      RxStepIsLogged(q, s, ch);
      Associate(p.Log(ch).delivered, Delivered(p.rx, front, ch), Given(q.rx, s, ch));
    }
  }

  // ---- Two workers joined by a stream ------------------------------------------------------

  /** What was taken is, byte for byte and in order, a prefix of what was
      accepted and not superseded: exactly the packets replaced while they were
      queued are, only keyed media among them, and their number and bytes are
      those reported. */
  ghost predicate Faithful(taken: seq<bytes>, log: LaneLog) {
    && MarkedExactly(log) && OnlyKeyedLost(log.entries)
    && log.reported == DepthOf(Lost(log.entries))
    && taken <= Contents(Survivors(log.entries))
  }

  ghost predicate Vacant(l: Lanes) {
    && l.control.limits.Valid() && l.control.packets == []
    && l.media.limits.Valid() && l.media.packets == []
  }

  /** A new worker over a newly connected link, whatever the limits of its queues. */
  ghost predicate JustConnected(e: EndState) {
    && e.tx == Tx(true, true, e.tx.lanes, NO_SLOTS, None) && Vacant(e.tx.lanes)
    && e.rx == Rx(true, true, [], [], e.rx.lanes) && Vacant(e.rx.lanes)
  }

  /** What the second worker has read is some of what the first has written. */
  ghost predicate Joined(a: EndState, x: Trace, b: EndState, y: Trace) {
    JustConnected(a) && JustConnected(b) && Disciplined(b.rx, y.r) && Got(y) <= Put(a, x)
  }

  /** The pipe between them, before either has done anything. */
  ghost function NewPipe(a: EndState, b: EndState): (p: Pipe)
    requires JustConnected(a) && JustConnected(b)
    ensures Inv(p) && p.tx == a.tx && p.rx == b.rx && p.wire == [] && p.control == p.media == NEW_LOG
  {
    var ac, am, bc, bm := a.tx.lanes.control.limits, a.tx.lanes.media.limits,
                          b.rx.lanes.control.limits, b.rx.lanes.media.limits;
    FreshInv(ac, am, bc, bm);
    Fresh(ac, am, bc, bm)
  }

  /** The run of the pipe that two joined histories make. */
  ghost function JoinedPipe(a: EndState, x: Trace, b: EndState, y: Trace): (q: Pipe)
    requires JustConnected(a) && JustConnected(b)
    ensures Inv(q)
  {
    Run(Run(NewPipe(a, b), TxActions(x.t)), RxActions(y.r))
  }

  /** It ends in the state of both, with the unread bytes in flight, and its
      log of each lane is what the two applications saw. */
  lemma JoinedPipeIsBoth(a: EndState, x: Trace, b: EndState, y: Trace, ch: Channel)
    requires Joined(a, x, b, y)
    ensures var q := JoinedPipe(a, x, b, y);
      && q.tx == TxRun(a.tx, x.t).0 && q.rx == RxRun(b.rx, y.r) && Put(a, x) == Got(y) + q.wire
      && q.Log(ch) == Recorded(a.tx, x.t, ch).(delivered := Delivered(b.rx, y.r, ch))
  {
    hide Inv, Run, TxRun, RxRun, TxActions, RxActions, ReadOf, Disciplined, Recorded, Delivered, NewPipe, JustConnected,
      Vacant;
    var p := NewPipe(a, b);
    SenderIsAPipeRun(p, x.t);
    SenderIsLogged(p, x.t, ch);
    var q := Run(p, TxActions(x.t));
    assert [] + Put(a, x) == Put(a, x);
    assert [] + Delivered(b.rx, y.r, ch) == Delivered(b.rx, y.r, ch);
    ReceiverIsAPipeRun(q, y.r);
    ReceiverIsLogged(q, y.r, ch);
  }

  /** Two workers joined by a stream, in one direction: whatever each of them,
      its application and its device did, if the second has read only bytes the
      first wrote, its deliveries are faithful to what the first accepted. The
      traces are those that `RunTcpStream` and `RunBulkSession` return, and any
      parts of them. */
  lemma JoinedStreamIsFaithful(a: EndState, x: Trace, b: EndState, y: Trace, ch: Channel)
    requires Joined(a, x, b, y)
    ensures Faithful(Delivered(b.rx, y.r, ch), Recorded(a.tx, x.t, ch))
    ensures EntryPackets(Recorded(a.tx, x.t, ch).entries) == Accepted(a.tx, x.t, ch)
    ensures Recorded(a.tx, x.t, ch).reported == Reported(a.tx, x.t, ch)
  {
    RecordIsExact(a.tx, x.t, ch);
    hide Inv, JoinedPipe, Accepted, Reported, Delivered, Survivors, Lost, TotalLen, Recorded, MarkedExactly;
    var q := JoinedPipe(a, x, b, y);
    JoinedPipeIsBoth(a, x, b, y, ch);
    Fidelity(q, ch);
    LogIsSane(q, ch);
  }

  /** On the control lane that means: a prefix of everything accepted. */
  lemma JoinedControlIsReliable(a: EndState, x: Trace, b: EndState, y: Trace)
    requires Joined(a, x, b, y)
    ensures Delivered(b.rx, y.r, Control) <= Contents(Accepted(a.tx, x.t, Control))
    ensures Reported(a.tx, x.t, Control) == NO_PACKETS
  {
    RecordIsExact(a.tx, x.t, Control);
    hide Inv, JoinedPipe, Accepted, Reported, Delivered, Survivors, Lost, TotalLen, Recorded, MarkedExactly;
    JoinedPipeIsBoth(a, x, b, y, Control);
    ControlIsReliable(JoinedPipe(a, x, b, y));
  }

  /** And nothing is missing once the stream is quiet: when the second worker
      still runs and has read every byte the first wrote, and both hold nothing
      more, the deliveries are all that was accepted and not superseded. */
  lemma NothingIsMissing(a: EndState, x: Trace, b: EndState, y: Trace, ch: Channel)
    requires Joined(a, x, b, y) && Got(y) == Put(a, x)
    requires var tx := TxRun(a.tx, x.t).0;
      tx.up && Emptied(tx)
    requires var rx := RxRun(b.rx, y.r);
      rx.running && rx.up && rx.inbound == [] && Vacant(rx.lanes)
    ensures Delivered(b.rx, y.r, ch) == Contents(Survivors(Recorded(a.tx, x.t, ch).entries))
  {
    hide Inv, JoinedPipe, Recorded, Delivered, Survivors, Lost, TotalLen, TxRun, RxRun;
    var q := JoinedPipe(a, x, b, y);
    JoinedPipeIsBoth(a, x, b, y, ch);
    assert Put(a, x) + [] == Put(a, x);
    assert q.wire == [];
    EmptiedIsIdle(q.tx);
    IdleMeansDelivered(q, ch);
  }

  lemma EmptiedIsIdle(tx: Tx)
    requires Emptied(tx)
    ensures tx.lanes.control.packets == [] && tx.lanes.media.packets == [] && tx.slots == NO_SLOTS && tx.outgoing.None?
  {
  }
}
