/** Progress of the pipe: no deadlock, and everything sendable arrives
    (crates/ladoflow-transport/src/tcp.rs:248-314). */
module Progress {
  import opened Wrappers
  import opened Words
  import opened Frames
  import opened Packets
  import opened Loopback
  import opened LdflStream
  import opened Delivery
  import opened Pipeline
  import opened Withheld

  /** What each stage still holds, from the sending queues to the receiving ones. */
  datatype Backlog = Backlog(queued: nat, held: nat, unwritten: nat, flying: nat, decoded: nat, arrived: nat)

  function BacklogOf(p: Pipe): Backlog {
    Backlog(|p.tx.lanes.control.packets| + |p.tx.lanes.media.packets|,
            |Held(p.tx.slots.control)| + |Held(p.tx.slots.media)|,
            |Unwritten(p.tx.outgoing)|, |p.wire|, |p.rx.inbound|,
            |p.rx.lanes.control.packets| + |p.rx.lanes.media.packets|)
  }

  /** Some stage holds less, and no stage before it holds more. */
  predicate Closer(a: Backlog, b: Backlog) {
    || a.queued < b.queued
    || (a.queued == b.queued &&
        (|| a.held < b.held
         || (a.held == b.held &&
             (|| a.unwritten < b.unwritten
              || (a.unwritten == b.unwritten &&
                  (|| a.flying < b.flying
                   || (a.flying == b.flying &&
                       (|| a.decoded < b.decoded
                        || (a.decoded == b.decoded && a.arrived < b.arrived)))))))))
  }

  /** The next useful step: the stage nearest the far application that holds
      something moves it on. */
  function UsefulStep(p: Pipe): Action {
    if p.rx.lanes.control.packets != [] then AppReceive(Control)
    else if p.rx.lanes.media.packets != [] then AppReceive(Media)
    else if p.rx.inbound != [] then DrainOne
    else if p.wire != [] then ReadSome(1)
    else if p.tx.outgoing.Some? then WriteSome(1)
    else if p.tx.slots.control.None? && p.tx.lanes.control.packets != [] then PollSlot(Control)
    else if p.tx.slots.media.None? && p.tx.lanes.media.packets != [] then PollSlot(Media)
    else ChooseNext
  }

  /** Both workers run over links that are up. */
  ghost predicate Live(p: Pipe) {
    p.tx.running && p.tx.up && p.rx.running && p.rx.up
  }

  lemma ReceiverMoves(p: Pipe)
    requires Inv(p) && StreamLimits(p) && p.rx.running && p.rx.up
    requires var a := UsefulStep(p); a.AppReceive? || a.DrainOne? || a.ReadSome?
    ensures Closer(BacklogOf(Do(p, UsefulStep(p))), BacklogOf(p))
  {
    hide TxSide, WireInv, RxInv, PushChunk, Contents, TotalLen, Kept, Dropped;
    LogsValid(p);
    if UsefulStep(p).DrainOne? {
      assert Decoded(p.rx.inbound[0]);
      DrainsIntoEmptyLane(p.rx.lanes.At(p.rx.inbound[0].Channel()), p.rx.inbound[0]);
    }
  }

  lemma WriterMoves(p: Pipe)
    requires Inv(p) && p.tx.running && UsefulStep(p).WriteSome?
    ensures Closer(BacklogOf(Do(p, UsefulStep(p))), BacklogOf(p))
  {
    hide TxSide, RxSide, Unwritten;
    LogsValid(p);
    assert p.tx.outgoing.value.offset < p.tx.outgoing.value.packet.Len();
    WriteSplits(p.tx, 1);
  }

  lemma DrainsIntoEmptyLane(q: QueueState, packet: Packet)
    requires q.Inv() && q.packets == [] && packet.Len() <= q.limits.maxPacketBytes
    ensures PushQueue(q, packet).1.Ok? && |PushQueue(q, packet).0.packets| == 1
  {
  }

  lemma ChooseEmpties(s: Slots)
    requires s != NO_SLOTS
    ensures var (s', r) := Choose(s);
      r.Err? || (r.value.Some? && |Held(s'.control)| + |Held(s'.media)| < |Held(s.control)| + |Held(s.media)|)
  {
    hide PacketSequence;
  }

  lemma MultiplexerMoves(p: Pipe)
    requires Inv(p) && p.tx.running && p.tx.up && !Idle(p)
    requires UsefulStep(p).PollSlot? || UsefulStep(p).ChooseNext?
    ensures var q := Do(p, UsefulStep(p));
      if UsefulStep(p).ChooseNext? && Choose(p.tx.slots).1.Err? then !q.tx.running
      else Closer(BacklogOf(q), BacklogOf(p))
  {
    hide TxInv, WireInv, RxSide, PacketSequence, Choose, Unwritten;
    LogsValid(p);
    if UsefulStep(p).ChooseNext? {
      ChooseEmpties(p.tx.slots);
    }
  }

  /** No deadlock: while both workers run over links that are up, a pipe that is not idle has a step
      that brings it closer to delivering everything. The one exception is a
      choice among the held packets that fails, and that stops the worker. */
  lemma NoDeadlock(p: Pipe)
    requires Inv(p) && StreamLimits(p) && Live(p) && !Idle(p)
    ensures var q := Do(p, UsefulStep(p));
      if UsefulStep(p).ChooseNext? && Choose(p.tx.slots).1.Err? then !q.tx.running
      else Closer(BacklogOf(q), BacklogOf(p))
  {
    hide Inv, Do, BacklogOf, Closer, Choose;
    match UsefulStep(p)
    case AppReceive(_) | DrainOne | ReadSome(_) => ReceiverMoves(p);
    case WriteSome(_) => WriterMoves(p);
    case _ => MultiplexerMoves(p);
  }

  // ---- When the multiplexer does not stop ------------------------------------------

  /** What one lane still has to send: the held packet, then the queue. */
  function Traffic(tx: Tx, ch: Channel): seq<Packet> {
    (if tx.slots.At(ch).Some? then [tx.slots.At(ch).value] else []) + tx.lanes.At(ch).packets
  }

  ghost predicate NoSharedNumber(a: seq<Packet>, b: seq<Packet>) {
    forall p, q :: p in a && q in b ==> PacketSequence(p) != PacketSequence(q)
  }

  /** Every packet still to send carries one whole frame on its lane, and no
      number is on both lanes. */
  ghost predicate Sendable(tx: Tx) {
    && AllSound(Traffic(tx, Control)) && AllSound(Traffic(tx, Media))
    && NoSharedNumber(Traffic(tx, Control), Traffic(tx, Media))
  }

  ghost predicate Below(p: Packet, q: Packet) {
    PacketSequence(p).Ok? && PacketSequence(q).Ok? ==> PacketSequence(p).value < PacketSequence(q).value
  }

  ghost predicate Ascending(packets: seq<Packet>) {
    forall i, j :: 0 <= i < j < |packets| ==> Below(packets[i], packets[j])
  }

  /** The numbers of each lane are in increasing order. */
  ghost predicate Ranked(tx: Tx) {
    Ascending(Traffic(tx, Control)) && Ascending(Traffic(tx, Media))
  }

  ghost predicate SameTraffic(tx: Tx, tx': Tx) {
    Traffic(tx', Control) == Traffic(tx, Control) && Traffic(tx', Media) == Traffic(tx, Media)
  }

  /** One lane loses its first packet, sound and numbered below the first of
      the other lane, which is sound too if there is one. */
  ghost predicate LosesFirst(tx: Tx, tx': Tx, ch: Channel) {
    var mine, theirs := Traffic(tx, ch), Traffic(tx, Other(ch));
    && mine != [] && Traffic(tx', ch) == mine[1..] && Traffic(tx', Other(ch)) == theirs
    && PacketSequence(mine[0]).Ok?
    && (theirs != [] ==> PacketSequence(theirs[0]).Ok? && PacketSequence(mine[0]).value < PacketSequence(theirs[0]).value)
  }

  lemma ChoiceLosesFirst(tx: Tx)
    requires tx.running && tx.outgoing.None?
    requires tx.slots.control.None? ==> tx.lanes.control.packets == []
    requires tx.slots.media.None? ==> tx.lanes.media.packets == []
    ensures var (tx', taken) := TxChoose(tx);
      if !tx'.running then Choose(tx.slots).1.Err?
      else SameTraffic(tx, tx') || LosesFirst(tx, tx', Control) || LosesFirst(tx, tx', Media)
  {
    hide PacketSequence;
    var (tx', taken) := TxChoose(tx);
    if taken.Some? {
      var ch := if tx.slots.control.Some? && tx'.slots.control.None? then Control else Media;
      var first, queue := tx.slots.At(ch).value, tx.lanes.At(ch).packets;
      assert ([first] + queue)[1..] == queue && [] + queue == queue;
      assert LosesFirst(tx, tx', ch);
    }
  }

  lemma PollKeepsTraffic(tx: Tx, ch: Channel)
    requires tx.up || !tx.running
    ensures var tx' := TxPoll(tx, ch).0; SameTraffic(tx, tx') && tx'.running == tx.running && tx'.up == tx.up
  {
    var queue := tx.lanes.At(ch).packets;
    if queue != [] {
      assert [] + queue == [queue[0]] + queue[1..];
    }
  }

  lemma WriteKeepsTraffic(tx: Tx, n: nat)
    ensures var tx' := TxWrite(tx, n).0; SameTraffic(tx, tx') && tx'.running == tx.running && tx'.up == tx.up
  {
  }

  /** Every empty slot has been polled since its queue was last filled, as when
      the worker chooses and nothing was sent meanwhile. */
  ghost predicate Filled(tx: Tx) {
    && (tx.slots.control.None? ==> tx.lanes.control.packets == [])
    && (tx.slots.media.None? ==> tx.lanes.media.packets == [])
  }

  /** A step while nothing is sent and no link is cut, choices made only when filled. */
  ghost predicate Scheduled(p: Pipe, a: Action) {
    !a.AppSend? && a != CutTx && (a.ChooseNext? ==> Filled(p.tx))
  }

  lemma UsefulStepIsScheduled(p: Pipe)
    ensures Scheduled(p, UsefulStep(p)) && UsefulStep(p) != StopTx && UsefulStep(p) != StopRx && UsefulStep(p) != CutRx
    ensures UsefulStep(p).ChooseNext? ==> p.tx.outgoing.None?
  {
  }

  /** Such a step accepts and supersedes nothing, and takes traffic only from the
      front of a lane. */
  lemma ScheduledStepTakesFirst(p: Pipe, a: Action)
    requires p.control.Valid() && p.media.Valid() && p.tx.running && p.tx.up && Scheduled(p, a)
    ensures var q := Do(p, a);
      && q.control.entries == p.control.entries && q.media.entries == p.media.entries && q.tx.up
      && (if !q.tx.running then q.emitted == p.emitted && (a == StopTx || (a.ChooseNext? && Choose(p.tx.slots).1.Err?))
          else SameTraffic(p.tx, q.tx) || LosesFirst(p.tx, q.tx, Control) || LosesFirst(p.tx, q.tx, Media))
  {
    hide TxPoll, TxChoose, TxWrite, PacketSequence, RxRead, RxDrain, Traffic, LosesFirst, Choose;
    match a {
      case PollSlot(ch) => PollKeepsTraffic(p.tx, ch);
      case ChooseNext =>
        ChoiceKeepsLink(p.tx);
        if p.tx.outgoing.None? {
          ChoiceLosesFirst(p.tx);
        } else {
          NoChoiceYet(p.tx);
        }
      case WriteSome(n) => WriteKeepsTraffic(p.tx, n);
      case _ =>
    }
  }

  lemma NoChoiceYet(tx: Tx)
    requires tx.outgoing.Some?
    ensures TxChoose(tx) == (tx, None)
  {
  }

  lemma ChoiceKeepsLink(tx: Tx)
    ensures TxChoose(tx).0.up == tx.up && (TxChoose(tx).1.Some? ==> TxChoose(tx).0.running == tx.running)
  {
    hide Choose;
  }

  lemma RankedStays(tx: Tx, tx': Tx, ch: Channel)
    requires LosesFirst(tx, tx', ch)
    ensures Ranked(tx) ==> Ranked(tx')
  {
    hide Below, Traffic;
    var mine := Traffic(tx, ch);
    assert forall i :: 0 <= i < |mine[1..]| ==> mine[1..][i] == mine[i + 1];
  }

  lemma SendableStays(tx: Tx, tx': Tx, ch: Channel)
    requires LosesFirst(tx, tx', ch)
    ensures Sendable(tx) ==> Sendable(tx')
  {
    hide PacketSequence, Traffic;
    var mine := Traffic(tx, ch);
    assert forall p :: p in mine[1..] ==> p in mine;
  }

  /** With ranked lanes a choice never hides an invalid or shared number. */
  lemma SendableBefore(tx: Tx, tx': Tx, ch: Channel)
    requires LosesFirst(tx, tx', ch) && Ranked(tx) && Sendable(tx')
    ensures Sendable(tx)
  {
    hide PacketSequence, Traffic;
    var mine, theirs := Traffic(tx, ch), Traffic(tx, Other(ch));
    assert mine == [mine[0]] + mine[1..];
    assert AllSound(mine) && AllSound(theirs);
    forall q | q in theirs
      ensures PacketSequence(mine[0]) != PacketSequence(q)
    {
      var j :| 0 <= j < |theirs| && theirs[j] == q;
      if j > 0 {
        assert Below(theirs[0], theirs[j]);
      }
    }
  }

  lemma SendableIsChosen(tx: Tx)
    requires Sendable(tx)
    ensures Choose(tx.slots).1.Ok?
  {
    hide PacketSequence;
    if tx.slots.control.Some? {
      assert tx.slots.At(Control).value in Traffic(tx, Control);
    }
    if tx.slots.media.Some? {
      assert tx.slots.At(Media).value in Traffic(tx, Media);
    }
  }

  /** Scheduled steps neither break nor, where lanes are ranked, repair it. */
  lemma ScheduledStepKeepsSendable(p: Pipe, a: Action)
    requires Inv(p) && p.tx.running && p.tx.up && Scheduled(p, a) && a != StopTx
    ensures var q := Do(p, a);
      && (Sendable(p.tx) ==> q.tx.running && Sendable(q.tx))
      && (Ranked(p.tx) && q.tx.running ==> Ranked(q.tx) && (Sendable(q.tx) ==> Sendable(p.tx)))
  {
    hide Inv, Do, Choose, PacketSequence, LosesFirst, Traffic, AllSound, NoSharedNumber, Ascending, Scheduled;
    InvLogsValid(p);
    ScheduledStepTakesFirst(p, a);
    if Sendable(p.tx) {
      SendableIsChosen(p.tx);
    }
    var q := Do(p, a);
    forall ch | LosesFirst(p.tx, q.tx, ch)
      ensures Sendable(p.tx) ==> Sendable(q.tx)
      ensures Ranked(p.tx) ==> Ranked(q.tx)
      ensures Ranked(p.tx) && Sendable(q.tx) ==> Sendable(p.tx)
    {
      SendableStays(p.tx, q.tx, ch);
      RankedStays(p.tx, q.tx, ch);
      if Ranked(p.tx) && Sendable(q.tx) {
        SendableBefore(p.tx, q.tx, ch);
      }
    }
  }

  /** With sendable traffic there is no exception. */
  lemma SendableNeverStuck(p: Pipe)
    requires Inv(p) && StreamLimits(p) && Live(p) && !Idle(p) && Sendable(p.tx)
    ensures Closer(BacklogOf(Do(p, UsefulStep(p))), BacklogOf(p))
  {
    hide Inv, Do, BacklogOf, Closer, Choose, Sendable;
    NoDeadlock(p);
    SendableIsChosen(p.tx);
  }

  // ---- The sending worker is not stopped ------------------------------------------------

  /** Every send leaves sendable traffic. */
  ghost predicate SendsSendable(p: Pipe, actions: seq<Action>)
    requires Inv(p)
    decreases |actions|
  {
    actions == [] ||
    (InvLogsValid(p);
     StepKeepsInv(p, actions[0]);
     (actions[0].AppSend? ==> Sendable(Do(p, actions[0]).tx)) && SendsSendable(Do(p, actions[0]), actions[1..]))
  }

  ghost predicate Fewer(tx: Tx, tx': Tx) {
    forall ch, p :: p in Traffic(tx', ch) ==> p in Traffic(tx, ch)
  }

  lemma SameIsFewer(tx: Tx, tx': Tx)
    requires SameTraffic(tx, tx')
    ensures Fewer(tx, tx')
  {
    hide Traffic;
    forall ch, p | p in Traffic(tx', ch)
      ensures p in Traffic(tx, ch)
    {
      match ch
      case Control =>
      case Media =>
    }
  }

  lemma FewerStaysSendable(tx: Tx, tx': Tx)
    requires Sendable(tx) && Fewer(tx, tx')
    ensures Sendable(tx')
  {
    hide PacketSequence, Traffic;
  }

  lemma ChoiceTakesTraffic(tx: Tx)
    ensures Fewer(tx, TxChoose(tx).0)
  {
    hide PacketSequence;
  }

  /** Whatever the schedule, no step but an outside stop ends a worker whose
      traffic is sendable, and none but a send can spoil that. */
  lemma AnyStepKeepsSendable(p: Pipe, a: Action)
    requires p.control.Valid() && p.media.Valid() && p.tx.running && p.tx.up && Sendable(p.tx) && a != StopTx && a != CutTx
    ensures var q := Do(p, a); q.tx.running && q.tx.up && (!a.AppSend? ==> Sendable(q.tx))
  {
    hide TxPoll, TxChoose, TxWrite, PacketSequence, RxRead, RxDrain, Traffic, Choose, PushQueue, Sendable;
    match a {
      case PollSlot(ch) =>
        PollKeepsTraffic(p.tx, ch);
        SameIsFewer(p.tx, TxPoll(p.tx, ch).0);
        FewerStaysSendable(p.tx, TxPoll(p.tx, ch).0);
      case ChooseNext =>
        SendableIsChosen(p.tx);
        ChoiceTakesTraffic(p.tx);
        FewerStaysSendable(p.tx, TxChoose(p.tx).0);
        ChoiceRuns(p.tx);
      case WriteSome(n) =>
        WriteKeepsTraffic(p.tx, n);
        SameIsFewer(p.tx, TxWrite(p.tx, n).0);
        FewerStaysSendable(p.tx, TxWrite(p.tx, n).0);
      case _ =>
    }
  }

  lemma ChoiceRuns(tx: Tx)
    requires Choose(tx.slots).1.Ok?
    ensures TxChoose(tx).0.running == tx.running && TxChoose(tx).0.up == tx.up
  {
    hide Choose;
  }

  /** Over whole runs: while every packet accepted keeps the traffic sendable, the
      sending worker runs until it is stopped from outside or its link is cut. */
  lemma {:induction false} NeverStoppedOverRuns(p: Pipe, actions: seq<Action>)
    requires Inv(p) && p.tx.running && p.tx.up && Sendable(p.tx)
    requires SendsSendable(p, actions) && StopTx !in actions && CutTx !in actions
    ensures var q := Run(p, actions); q.tx.running && q.tx.up && Sendable(q.tx)
    decreases |actions|
  {
    hide Inv, Do, Sendable;
    if actions != [] {
      assert actions[0] in actions;
      InvLogsValid(p);
      StepKeepsInv(p, actions[0]);
      AnyStepKeepsSendable(p, actions[0]);
      NeverStoppedOverRuns(Do(p, actions[0]), actions[1..]);
    }
  }

  // ---- Everything arrives -----------------------------------------------------------------

  ghost predicate AllDelivered(p: Pipe, q: Pipe) {
    forall ch :: q.Log(ch).delivered == Contents(Survivors(p.Log(ch).entries))
  }

  /** Whatever is done after `q`, the far application takes less from this lane
      than was accepted by `p` and not superseded. */
  ghost predicate NeverAllOf(p: Pipe, q: Pipe, ch: Channel)
    requires Inv(q)
  {
    forall more :: |Run(q, more).Log(ch).delivered| < |Survivors(p.Log(ch).entries)|
  }

  ghost predicate NeverAll(p: Pipe, q: Pipe)
    requires Inv(q)
  {
    NeverAllOf(p, q, Control) || NeverAllOf(p, q, Media)
  }

  lemma StoppedIsNeverAll(p: Pipe, q: Pipe)
    requires Inv(q) && !q.tx.running && (Owes(q, Control) || Owes(q, Media))
    requires q.control.entries == p.control.entries && q.media.entries == p.media.entries
    ensures NeverAll(p, q)
  {
    hide Inv, Run, Survivors, Owes;
    var ch := if Owes(q, Control) then Control else Media;
    forall more
      ensures |Run(q, more).Log(ch).delivered| < |Survivors(p.Log(ch).entries)|
    {
      StoppedWithholds(q, ch, more);
    }
  }

  lemma FailedChoiceOwes(p: Pipe)
    requires Inv(p) && Choose(p.tx.slots).1.Err?
    ensures Owes(p, Control) || Owes(p, Media)
  {
    hide Inv, PacketSequence, Owes;
    HeldIsOwed(p, Control);
    HeldIsOwed(p, Media);
  }

  lemma OwesStays(p: Pipe, q: Pipe, ch: Channel)
    requires Owes(p, ch) && q.emitted == p.emitted && q.Log(ch).entries == p.Log(ch).entries
    ensures Owes(q, ch)
  {
  }

  lemma UsefulStepStops(p: Pipe)
    requires Inv(p) && StreamLimits(p) && Live(p) && !Do(p, UsefulStep(p)).tx.running
    ensures Inv(Do(p, UsefulStep(p))) && NeverAll(p, Do(p, UsefulStep(p)))
  {
    hide Inv, Do, Owes, Scheduled, Choose;
    var a := UsefulStep(p);
    InvLogsValid(p);
    StepKeepsInv(p, a);
    UsefulStepIsScheduled(p);
    ScheduledStepTakesFirst(p, a);
    FailedChoiceOwes(p);
    var q := Do(p, a);
    var ch := if Owes(p, Control) then Control else Media;
    OwesStays(p, q, ch);
    StoppedIsNeverAll(p, q);
  }

  /** From any reachable state with both workers running, the useful steps alone
      deliver everything accepted so far and not superseded, if every packet
      still to send is sound and no number is on both lanes. Otherwise, on lanes
      whose numbers increase, the multiplexer meets the offending packet and stops
      the worker, and after that something is missing for ever. */
  lemma {:induction false} EverythingArrives(p: Pipe) returns (actions: seq<Action>)
    requires Inv(p) && StreamLimits(p) && Live(p)
    ensures var q := Run(p, actions);
      && (if q.tx.running then Live(q) && Idle(q) && AllDelivered(p, q) else NeverAll(p, q))
      && (Sendable(p.tx) ==> q.tx.running)
      && (Ranked(p.tx) ==> (q.tx.running <==> Sendable(p.tx)))
    ensures forall a :: a in actions ==> !a.AppSend? && a !in {StopTx, StopRx, CutTx, CutRx}
    decreases BacklogOf(p).queued, BacklogOf(p).held, BacklogOf(p).unwritten,
              BacklogOf(p).flying, BacklogOf(p).decoded, BacklogOf(p).arrived
  {
    hide Inv, Do, BacklogOf, Idle, StreamLimits, Survivors, Sendable, Ranked, Scheduled, NeverAll;
    actions := [];
    if Idle(p) {
      NothingToSend(p);
      forall ch
        ensures p.Log(ch).delivered == Contents(Survivors(p.Log(ch).entries))
      {
        IdleMeansDelivered(p, ch);
      }
    } else {
      var a := UsefulStep(p);
      InvLogsValid(p);
      NoDeadlock(p);
      StepKeepsInv(p, a);
      UsefulStepIsScheduled(p);
      NeverRejected(p, a);
      ScheduledStepTakesFirst(p, a);
      ScheduledStepKeepsSendable(p, a);
      var q := Do(p, a);
      if q.tx.running {
        var later := EverythingArrives(q);
        actions := [a] + later;
        NeverAllEarlier(p, q, Run(q, later));
      } else {
        actions := [a];
        UsefulStepStops(p);
      }
    }
  }

  lemma NeverAllEarlier(p: Pipe, q: Pipe, r: Pipe)
    requires Inv(r) && q.control.entries == p.control.entries && q.media.entries == p.media.entries
    ensures NeverAll(q, r) ==> NeverAll(p, r)
  {
    hide Inv, Run, Survivors;
    assert forall ch :: q.Log(ch).entries == p.Log(ch).entries;
  }

  lemma NothingToSend(p: Pipe)
    requires Idle(p)
    ensures Sendable(p.tx)
  {
  }

  // ---- No schedule does better ---------------------------------------------------------------

  ghost predicate AllScheduled(p: Pipe, actions: seq<Action>)
    requires Inv(p)
    decreases |actions|
  {
    actions == [] ||
    (InvLogsValid(p);
     StepKeepsInv(p, actions[0]);
     Scheduled(p, actions[0]) && AllScheduled(Do(p, actions[0]), actions[1..]))
  }

  lemma UnsendableOwes(p: Pipe)
    requires Inv(p) && p.tx.up && !Sendable(p.tx)
    ensures Owes(p, Control) || Owes(p, Media)
  {
    HeldIsOwed(p, Control);
    HeldIsOwed(p, Media);
    hide Inv, PacketSequence, Owes;
  }

  /** On lanes of increasing numbers sendable traffic is what every schedule of
      the worker needs: without it, and as long as nothing more is sent and the
      link is not cut, no sequence of steps delivers everything. */
  lemma {:induction false} NoScheduleDelivers(p: Pipe, actions: seq<Action>)
    requires Inv(p) && p.tx.running && p.tx.up && Ranked(p.tx) && !Sendable(p.tx) && AllScheduled(p, actions)
    ensures exists ch :: |Run(p, actions).Log(ch).delivered| < |Survivors(p.Log(ch).entries)|
    decreases |actions|
  {
    hide Inv, Do, Ranked, Sendable, Scheduled, Owes, Survivors;
    UnsendableOwes(p);
    if actions == [] {
      var ch := if Owes(p, Control) then Control else Media;
      OwedIsNotDelivered(p, ch);
    } else {
      var a := actions[0];
      InvLogsValid(p);
      StepKeepsInv(p, a);
      ScheduledStepTakesFirst(p, a);
      var q := Do(p, a);
      if q.tx.running {
        StaysUnsendable(p, a);
        NoScheduleDelivers(q, actions[1..]);
        var ch :| |Run(q, actions[1..]).Log(ch).delivered| < |Survivors(q.Log(ch).entries)|;
        assert q.Log(ch).entries == p.Log(ch).entries;
      } else {
        var ch := if Owes(p, Control) then Control else Media;
        OwesStays(p, q, ch);
        StoppedWithholds(q, ch, actions[1..]);
      }
    }
  }

  lemma StaysUnsendable(p: Pipe, a: Action)
    requires Inv(p) && p.tx.running && p.tx.up && Ranked(p.tx) && !Sendable(p.tx) && Scheduled(p, a)
    requires p.control.Valid() && p.media.Valid() && Do(p, a).tx.running
    ensures Ranked(Do(p, a).tx) && !Sendable(Do(p, a).tx)
  {
    hide Inv, Ranked, Sendable, Scheduled, PacketSequence, TxPoll, TxChoose, TxWrite, RxRead, RxDrain;
    ScheduledStepKeepsSendable(p, a);
  }

  lemma OwedIsNotDelivered(p: Pipe, ch: Channel)
    requires Inv(p) && Owes(p, ch)
    ensures |p.Log(ch).delivered| < |Survivors(p.Log(ch).entries)|
  {
    hide Inv, LaneBytes, Survivors;
    DeliveredIsEmitted(p, ch);
  }
}
