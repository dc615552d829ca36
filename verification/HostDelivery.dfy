/** What the host sends can always be delivered: its packets and numbers meet the
    condition of module Progress
    (apps/desktop/src-tauri/src/runtime.rs:893-938 and 980-1003). */
module HostDelivery {
  import opened Wrappers
  import opened Words
  import opened Frames
  import opened Packets
  import opened Loopback
  import opened LdflStream
  import opened MuxOrder
  import opened MuxRuns
  import opened HostSequences
  import opened MuxPipes
  import D = Delivery
  import S = Sessions
  import V = PeerVerdicts
  import P = Pipeline
  import Q = Progress

  lemma TrafficWaits(o: Outbound, tx: P.Tx, ch: Channel)
    requires Consistent(o) && tx.lanes == o.lanes && tx.slots == o.slots
    ensures Q.Traffic(tx, ch) == OnLane(o.waiting, ch) && Increasing(OnLane(o.waiting, ch))
    ensures forall p :: p in Q.Traffic(tx, ch) ==> p in o.waiting && p.Channel() == ch && PacketSequence(p) == Ok(Seq(p))
  {
    hide Seq, OnLane, Increasing, Consistent, PacketSequence;
    LaneInOrder(o, ch);
    OnLaneMembers(o.waiting, ch);
    forall p | p in OnLane(o.waiting, ch)
      ensures PacketSequence(p) == Ok(Seq(p))
    {
      WaitingInOrder(o, p);
    }
  }

  lemma AscendingLane(s: seq<Packet>)
    requires Increasing(s) && (forall p :: p in s ==> PacketSequence(p) == Ok(Seq(p)))
    ensures Q.Ascending(s)
  {
    hide PacketSequence, Seq;
    forall i, j | 0 <= i < j < |s|
      ensures Q.Below(s[i], s[j])
    {
      assert s[i] in s && s[j] in s;
    }
  }

  /** Whatever is sent under increasing numbers is sendable, and its lanes are
      ranked, at every moment of every run of the multiplexer. */
  lemma ConsistentIsSendable(o: Outbound, tx: P.Tx)
    requires Consistent(o) && tx.lanes == o.lanes && tx.slots == o.slots
    ensures Q.Sendable(tx) && Q.Ranked(tx)
  {
    assert Increasing(o.waiting);
    hide Seq, OnLane, Increasing, Consistent, PacketSequence, Q.Traffic, Q.Ascending;
    TrafficWaits(o, tx, Control);
    TrafficWaits(o, tx, Media);
    AscendingLane(Q.Traffic(tx, Control));
    AscendingLane(Q.Traffic(tx, Media));
    forall c, m | c in Q.Traffic(tx, Control) && m in Q.Traffic(tx, Media)
      ensures PacketSequence(c) != PacketSequence(m)
    {
      DifferentNumbers(o.waiting, c, m);
    }
  }

  // ---- A host session is a run of the pipe --------------------------------------------------

  /** Every session of a host over a fresh stream link, whatever it sends between
      the receives of the multiplexer, is a run of the pipe. */
  lemma HostSessionIsPipeRun(controlLimits: QueueLimits, mediaLimits: QueueLimits, first: u64, ops: seq<HostOp>)
    returns (actions: seq<P.Action>)
    requires controlLimits.Valid() && mediaLimits.Valid()
    ensures var start := P.Fresh(controlLimits, mediaLimits, P.CONTROL_LIMITS, P.MEDIA_LIMITS);
      var o := HostRun(NewHost(controlLimits, mediaLimits, first), ops).out;
      && P.Inv(start) && Ready(P.Run(start, actions)) && Flushed(P.Run(start, actions))
      && Mirrors(P.Run(start, actions), o) && Consistent(o) && Irreplaceable(o.accepted)
  {
    hide HostRun, P.Inv, P.Run, P.Do, P.Fresh, Consistent, Mirrors, Flushed, Run, MuxOps, Numbered, P.StreamLimits, Q.Live;
    var h := NewHost(controlLimits, mediaLimits, first);
    NewHostNumbered(controlLimits, mediaLimits, first);
    EmptyIsOrdered(controlLimits, mediaLimits);
    HostRunIsMuxRun(h, first, ops);
    OrderedIsConsistent(h.out);
    RunKeepsConsistency(h.out, MuxOps(h, ops));
    FreshMirrors(controlLimits, mediaLimits);
    actions := MuxRunIsPipeRun(P.Fresh(controlLimits, mediaLimits, P.CONTROL_LIMITS, P.MEDIA_LIMITS), h.out, MuxOps(h, ops));
  }

  lemma NewHostNumbered(controlLimits: QueueLimits, mediaLimits: QueueLimits, first: u64)
    ensures HostInv(NewHost(controlLimits, mediaLimits, first), first)
  {
  }

  /** The multiplexer does not stop, and the stream delivers, in order and lane
      by lane, everything the host has had accepted. */
  lemma HostTrafficArrives(controlLimits: QueueLimits, mediaLimits: QueueLimits, first: u64, ops: seq<HostOp>)
    returns (session: seq<P.Action>, later: seq<P.Action>)
    requires controlLimits.Valid() && mediaLimits.Valid()
    ensures var start := P.Fresh(controlLimits, mediaLimits, P.CONTROL_LIMITS, P.MEDIA_LIMITS);
      var o := HostRun(NewHost(controlLimits, mediaLimits, first), ops).out;
      && P.Inv(start) && Mirrors(P.Run(start, session), o)
      && (var q := P.Run(P.Run(start, session), later);
          && Q.Live(q) && P.Idle(q)
          && (forall ch :: q.Log(ch).delivered == D.Contents(OnLane(o.accepted, ch))))
  {
    hide HostRun, P.Inv, P.Run, P.Do, P.Fresh, P.StreamLimits, P.Idle, Q.Sendable, Q.Ranked, Q.Live, Consistent, OnLane, Flushed;
    session := HostSessionIsPipeRun(controlLimits, mediaLimits, first, ops);
    var o := HostRun(NewHost(controlLimits, mediaLimits, first), ops).out;
    var p := P.Run(P.Fresh(controlLimits, mediaLimits, P.CONTROL_LIMITS, P.MEDIA_LIMITS), session);
    ConsistentIsSendable(o, p.tx);
    later := Q.EverythingArrives(p);
    forall ch
      ensures D.Contents(D.Survivors(p.Log(ch).entries)) == D.Contents(OnLane(o.accepted, ch))
    {
      KeylessSurvives(p, o, ch);
    }
  }

  lemma KeylessSurvives(p: P.Pipe, o: Outbound, ch: Channel)
    requires P.Inv(p) && Mirrors(p, o) && Irreplaceable(o.accepted)
    ensures D.Survivors(p.Log(ch).entries) == OnLane(o.accepted, ch)
  {
    P.LogIsSane(p, ch);
    hide P.Inv, OnLane, D.Survivors, D.Lost, CarriedBy;
    OnLaneMembers(o.accepted, ch);
    var entries := p.Log(ch).entries;
    assert D.EntryPackets(entries) == OnLane(o.accepted, ch);
    forall e | e in entries
      ensures e.packet.SupersessionKey().None?
    {
      var i :| 0 <= i < |entries| && entries[i] == e;
      assert D.EntryPackets(entries)[i] in OnLane(o.accepted, ch);
    }
    D.NothingLost(entries);
  }

  // ---- What the peer makes of it -----------------------------------------------------------------

  function Sequences(frames: seq<Frame>): (numbers: seq<u64>)
    ensures |numbers| == |frames|
    ensures forall i :: 0 <= i < |frames| ==> numbers[i] == frames[i].header.sequence
  {
    seq(|frames|, i requires 0 <= i < |frames| => frames[i].header.sequence)
  }

  lemma CarriedNumbers(packets: seq<Packet>, frames: seq<Frame>)
    requires CarriedBy(packets, frames)
    ensures Sequences(frames) == V.NumbersOf(packets)
  {
    hide PacketSequence, Carries;
    forall i | 0 <= i < |packets|
      ensures V.NumbersOf(packets)[i] == frames[i].header.sequence
    {
      ValidatedPackets(packets[i]);
    }
  }

  /** The frames decoded at the far end of a session's stream: a peer whose cursor
      stands just before the host's first number accepts them all with nothing
      skipped exactly when no call of the multiplexer overtook, and calls one
      stale exactly when it was overtaken. */
  lemma PeerDecodesHost(controlLimits: QueueLimits, mediaLimits: QueueLimits, first: u64, ops: seq<HostOp>, s: S.State)
    returns (session: seq<P.Action>)
    requires controlLimits.Valid() && mediaLimits.Valid()
    requires first > 0 && s.phase == S.Active && s.highest == Some(first - 1)
    ensures var start := P.Fresh(controlLimits, mediaLimits, P.CONTROL_LIMITS, P.MEDIA_LIMITS);
      var h := NewHost(controlLimits, mediaLimits, first);
      && P.Inv(start) && Mirrors(P.Run(start, session), HostRun(h, ops).out)
      && (var q := P.Run(start, session); var numbers := Sequences(q.emitted);
          && q.decoded == |q.emitted|
          && (V.AllAccepted(s, numbers) <==> NoOvertaking(h.out, MuxOps(h, ops)))
          && (forall k :: 0 <= k < |numbers| ==>
                && V.VerdictOn(s, numbers, k).Some? && !V.VerdictOn(s, numbers, k).value.Duplicate?
                && (V.VerdictOn(s, numbers, k).value.Stale? <==> exists j :: 0 <= j < k && numbers[j] > numbers[k])))
  {
    hide HostRun, P.Inv, P.Run, P.Do, P.Fresh, P.StreamLimits, Consistent, Flushed, NoOvertaking, MuxOps, V.AllAccepted,
         V.VerdictOn, Q.Live, OnLane;
    session := HostSessionIsPipeRun(controlLimits, mediaLimits, first, ops);
    var q := P.Run(P.Fresh(controlLimits, mediaLimits, P.CONTROL_LIMITS, P.MEDIA_LIMITS), session);
    FlushedIsDecoded(q);
    V.PeerFollowsHost(controlLimits, mediaLimits, first, ops, s);
    CarriedNumbers(HostRun(NewHost(controlLimits, mediaLimits, first), ops).out.emitted, q.emitted);
  }
}
