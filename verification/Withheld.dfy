/** What the far application can never receive: nothing passes a packet that is
    no whole frame, and a stopped multiplexer keeps what it holds
    (crates/ladoflow-transport/src/ldfl_stream.rs:129-179). */
module Withheld {
  import opened Wrappers
  import opened Words
  import opened Frames
  import opened Packets
  import opened Loopback
  import opened LdflStream
  import opened Delivery
  import opened Pipeline

  // ---- Only whole frames arrive ------------------------------------------------------

  ghost predicate WholeFrame(b: bytes, ch: Channel) {
    exists f: Frame :: f.Valid() && ChannelForMessage(f.header.kind) == ch && b == EncodeFrame(f)
  }

  lemma {:induction false} LaneBytesAreFrames(frames: seq<Frame>, ch: Channel)
    requires AllValid(frames)
    ensures forall b :: b in LaneBytes(frames, ch) ==> WholeFrame(b, ch)
    decreases |frames|
  {
    hide EncodeFrame;
    if frames != [] {
      var head, tail := frames[0], frames[1..];
      assert forall i :: 0 <= i < |tail| ==> tail[i] == frames[i + 1];
      LaneBytesAreFrames(tail, ch);
      if ChannelForMessage(head.header.kind) == ch {
        assert WholeFrame(EncodeFrame(head), ch);
      }
      assert forall b :: b in LaneBytes(frames, ch) ==> b in LaneBytes(tail, ch) || b == EncodeFrame(head);
    }
  }

  lemma {:induction false} SurvivorsMembers(entries: seq<Entry>)
    ensures forall p :: p in Survivors(entries) ==> exists e :: e in entries && e.packet == p
    decreases |entries|
  {
    if entries != [] {
      var head, tail := entries[0], entries[1..];
      SurvivorsMembers(tail);
      SurvivorsCons(head, tail);
      assert entries == [head] + tail;
      forall p | p in Survivors(entries)
        ensures exists e :: e in entries && e.packet == p
      {
        if p in Survivors(tail) {
          var e :| e in tail && e.packet == p;
          assert e in entries;
        } else {
          assert head in entries && head.packet == p;
        }
      }
    }
  }

  lemma DeliveredIsEmitted(p: Pipe, ch: Channel)
    requires Inv(p)
    ensures |p.Log(ch).delivered| <= |LaneBytes(p.emitted, ch)|
    ensures forall b :: b in p.Log(ch).delivered ==> WholeFrame(b, ch)
  {
    hide TxSide, EncodeFrame, EncodeAll, Scan, WholeFrame;
    LaneReceived(p, ch);
    var arrived, rest := p.emitted[..p.decoded], p.emitted[p.decoded..];
    assert p.emitted == arrived + rest;
    LaneBytesAppend(arrived, rest, ch);
    LaneBytesAreFrames(arrived, ch);
  }

  lemma LaneReceived(p: Pipe, ch: Channel)
    requires Inv(p)
    ensures p.decoded <= |p.emitted| && p.Log(ch).delivered <= LaneBytes(p.emitted[..p.decoded], ch)
    ensures AllValid(p.emitted)
  {
    hide TxInv, EncodeAll, Scan;
    LaneInv(p, ch);
  }

  lemma WholeFramesAreValid(packet: Packet)
    ensures WholeFrame(packet.payload, packet.Channel()) ==> PacketSequence(packet).Ok?
  {
    hide EncodeFrame, PacketSequence;
    ValidatedPackets(packet);
    if WholeFrame(packet.payload, packet.Channel()) {
      var f: Frame :| f.Valid() && ChannelForMessage(f.header.kind) == packet.Channel() && packet.payload == EncodeFrame(f);
      assert Carries(packet, f);
    }
  }

  /** What has been delivered was a whole frame of its lane when it was sent. */
  lemma DeliveredIsValid(p: Pipe, ch: Channel, i: nat)
    requires Inv(p) && i < |p.Log(ch).delivered|
    ensures i < |Survivors(p.Log(ch).entries)| && PacketSequence(Survivors(p.Log(ch).entries)[i]).Ok?
  {
    var log := p.Log(ch);
    Fidelity(p, ch);
    DeliveredIsEmitted(p, ch);
    LaneMembers(p, ch);
    hide Inv, PacketSequence, Survivors, WholeFrame;
    var packet := Survivors(log.entries)[i];
    assert packet in Survivors(log.entries) && log.delivered[i] in log.delivered;
    WholeFramesAreValid(packet);
    assert log.delivered[i] == packet.payload;
  }

  lemma LaneMembers(p: Pipe, ch: Channel)
    requires Inv(p)
    ensures forall s :: s in Survivors(p.Log(ch).entries) ==> s.Channel() == ch
  {
    LaneInv(p, ch);
    SurvivorsMembers(p.Log(ch).entries);
    hide Inv, Survivors;
  }

  /** In every reachable state: nothing accepted behind a packet that is no whole
      frame of its lane has been delivered, nor has that packet. */
  lemma NothingPassesAnInvalidPacket(p: Pipe, ch: Channel, i: nat)
    requires Inv(p) && i < |Survivors(p.Log(ch).entries)|
    requires PacketSequence(Survivors(p.Log(ch).entries)[i]).Err?
    ensures |p.Log(ch).delivered| <= i
  {
    hide Inv, PacketSequence, Survivors;
    if |p.Log(ch).delivered| > i {
      DeliveredIsValid(p, ch, i);
    }
  }

  // ---- For good -------------------------------------------------------------------------

  lemma {:induction false} NoKeyMarksNothing(entries: seq<Entry>)
    ensures Mark(entries, None) == entries
    decreases |entries|
  {
    if entries != [] {
      NoKeyMarksNothing(entries[1..]);
    }
  }

  lemma StepKeepsControl(p: Pipe, a: Action)
    requires p.control.Valid() && p.media.Valid()
    ensures p.control.entries <= Do(p, a).control.entries
  {
    hide TxPoll, TxChoose, TxWrite, RxRead, RxDrain, PacketSequence, PushQueue, Advance;
    if a.AppSend? && a.packet.ControlPacket? {
      var log := p.control;
      NoKeyMarksNothing(log.entries[log.head..]);
      assert log.entries[..log.head] + log.entries[log.head..] == log.entries;
    }
  }

  lemma {:induction false} RunKeepsControl(p: Pipe, actions: seq<Action>)
    requires Inv(p)
    ensures p.control.entries <= Run(p, actions).control.entries
    decreases |actions|
  {
    hide Inv, Do;
    InvLogsValid(p);
    if actions != [] {
      StepKeepsInv(p, actions[0]);
      StepKeepsControl(p, actions[0]);
      RunKeepsControl(Do(p, actions[0]), actions[1..]);
    }
  }

  /** A control packet that is no whole frame blocks its lane for good: whatever
      is done, neither it nor any control packet accepted after it arrives. */
  lemma InvalidControlBlocksItsLane(p: Pipe, i: nat, more: seq<Action>)
    requires Inv(p) && i < |p.control.entries| && PacketSequence(p.control.entries[i].packet).Err?
    ensures |Run(p, more).control.delivered| <= i
  {
    var q := Run(p, more);
    RunKeepsControl(p, more);
    assert q.control.entries[i] == p.control.entries[i];
    ControlSurvives(q);
    hide Inv, Run, PacketSequence, Survivors;
    NothingPassesAnInvalidPacket(q, Control, i);
  }

  lemma ControlSurvives(p: Pipe)
    requires Inv(p)
    ensures |Survivors(p.control.entries)| == |p.control.entries|
    ensures forall i :: 0 <= i < |p.control.entries| ==> Survivors(p.control.entries)[i] == p.control.entries[i].packet
  {
    var log := p.control;
    LaneInv(p, Control);
    hide Inv;
    forall e | e in log.entries
      ensures e.packet.SupersessionKey().None?
    {
      assert e.packet.Channel() == Control;
    }
    NothingLost(log.entries);
  }

  const STRAY := ControlPacket([0])

  /** An input that shows it: on any fresh link, a control packet of a single
      byte is accepted, and no control packet is ever delivered. */
  lemma StrayPacketIsNeverDelivered(txControl: QueueLimits, txMedia: QueueLimits,
                                    rxControl: QueueLimits, rxMedia: QueueLimits, more: seq<Action>)
    requires txControl.Valid() && txMedia.Valid() && rxControl.Valid() && rxMedia.Valid()
    ensures Inv(Fresh(txControl, txMedia, rxControl, rxMedia))
    ensures var p := Run(Fresh(txControl, txMedia, rxControl, rxMedia), [AppSend(STRAY)]);
      && p.control.entries == [Entry(STRAY, false)] && p.tx.lanes.control.packets == [STRAY]
      && Run(p, more).control.delivered == []
  {
    var p := Fresh(txControl, txMedia, rxControl, rxMedia);
    FreshInv(txControl, txMedia, rxControl, rxMedia);
    StrayIsAccepted(p);
    StrayIsInvalid();
    hide Inv, Do, Fresh, PacketSequence;
    assert [AppSend(STRAY)][1..] == [];
    StepKeepsInv(p, AppSend(STRAY));
    InvalidControlBlocksItsLane(Do(p, AppSend(STRAY)), 0, more);
  }

  lemma StrayIsInvalid()
    ensures PacketSequence(STRAY).Err?
  {
  }

  lemma StrayIsAccepted(p: Pipe)
    requires p.tx.up && p.tx.lanes.control.packets == [] && p.tx.lanes.control.limits.Valid()
    requires p.control == NEW_LOG && p.media.Valid()
    ensures var q := Do(p, AppSend(STRAY));
      q.control.entries == [Entry(STRAY, false)] && q.tx.lanes.control.packets == [STRAY]
  {
    assert TotalLen([]) == 0 && [] + [STRAY] == [STRAY];
  }

  // ---- A stopped multiplexer ---------------------------------------------------------------

  lemma StoppedStays(p: Pipe, a: Action)
    requires p.control.Valid() && p.media.Valid() && !p.tx.running
    ensures var q := Do(p, a); !q.tx.running && q.tx.slots == p.tx.slots && q.emitted == p.emitted
  {
    hide RxRead, RxDrain, PacketSequence, PushQueue, PopQueue;
  }

  lemma {:induction false} StoppedForGood(p: Pipe, more: seq<Action>)
    requires Inv(p) && !p.tx.running
    ensures var q := Run(p, more); !q.tx.running && q.tx.slots == p.tx.slots && q.emitted == p.emitted
    decreases |more|
  {
    hide Inv, Do;
    if more != [] {
      InvLogsValid(p);
      StepKeepsInv(p, more[0]);
      StoppedStays(p, more[0]);
      StoppedForGood(Do(p, more[0]), more[1..]);
    }
  }

  /** Fewer packets of a lane were put on the wire than were accepted on it and
      not superseded. */
  ghost predicate Owes(p: Pipe, ch: Channel) {
    |LaneBytes(p.emitted, ch)| < |Survivors(p.Log(ch).entries)|
  }

  lemma HeldIsOwed(p: Pipe, ch: Channel)
    requires Inv(p)
    ensures p.tx.slots.At(ch).Some? ==> Owes(p, ch)
    ensures p.tx.up && p.tx.lanes.At(ch).packets != [] ==> Owes(p, ch)
  {
    var log := p.Log(ch);
    LaneInv(p, ch);
    assert log.Valid();
    hide Inv, Survivors, LaneBytes, Lost, TotalLen;
    SurvivorsSplit(log);
  }

  /** Whatever happens after the worker has stopped, sends included, the far
      application receives fewer packets of the lane than were owed. */
  lemma StoppedWithholds(p: Pipe, ch: Channel, more: seq<Action>)
    requires Inv(p) && !p.tx.running && Owes(p, ch)
    ensures |Run(p, more).Log(ch).delivered| < |Survivors(p.Log(ch).entries)|
  {
    hide Inv, Run, Survivors, LaneBytes;
    StoppedForGood(p, more);
    DeliveredIsEmitted(Run(p, more), ch);
  }
}
