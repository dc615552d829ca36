/** The opening of a session: what the host sends during the handshake, and why
    its numbering continues where that stops
    (apps/desktop/src-tauri/src/host_protocol.rs:22-25, 131-136 and 234-263;
    apps/desktop/src-tauri/src/runtime.rs:720-745). */
module Opening {
  import opened Wrappers
  import opened Words
  import opened Frames
  import opened Payloads
  import opened Packets
  import opened LdflStream
  import opened Handshake
  import S = Sessions
  import V = PeerVerdicts
  import H = HostSequences
  import M = MuxRuns

  const DISPLAY_CONFIG_SEQUENCE: u64 := 2

  /** The host's Hello and Capabilities, then the configuration it chose, each
      under its number. */
  function OpeningPackets(h: Exchange, d: DisplayConfigPayload): (opening: seq<Result<Packet, ProtocolError>>)
    requires HelloP(h.hostHello).Valid() && CapabilitiesP(h.hostCapabilities).Valid() && d.Valid()
    ensures |opening| == 3
  {
    [PayloadPacket(0, HELLO_SEQUENCE, HelloP(h.hostHello)),
     PayloadPacket(0, CAPABILITIES_SEQUENCE, CapabilitiesP(h.hostCapabilities)),
     PayloadPacket(0, DISPLAY_CONFIG_SEQUENCE, DisplayConfigP(d))]
  }

  /** The session of a peer after it observed the numbers of these packets. */
  function AfterPackets(s: S.State, packets: seq<Result<Packet, ProtocolError>>): S.State
    requires forall p :: p in packets ==> p.Ok? && PacketSequence(p.value).Ok?
    decreases |packets|
  {
    if packets == [] then s else
    assert packets[|packets| - 1] in packets;
    assert forall p :: p in packets[..|packets| - 1] ==> p in packets;
    S.Observe(AfterPackets(s, packets[..|packets| - 1]), PacketSequence(packets[|packets| - 1].value).value).0
  }

  lemma OpeningIsSent(h: Exchange, d: DisplayConfigPayload)
    requires HelloP(h.hostHello).Valid() && CapabilitiesP(h.hostCapabilities).Valid() && d.Valid()
    ensures forall i :: 0 <= i < 3 ==> SentAs(OpeningPackets(h, d)[i], i)
  {
    hide PayloadPacket, SentAs;
    SentUnder(HELLO_SEQUENCE, HelloP(h.hostHello));
    SentUnder(CAPABILITIES_SEQUENCE, CapabilitiesP(h.hostCapabilities));
    SentUnder(DISPLAY_CONFIG_SEQUENCE, DisplayConfigP(d));
  }

  /** On the control lane, under this number. */
  predicate SentAs(p: Result<Packet, ProtocolError>, n: nat) {
    p.Ok? && PacketSequence(p.value).Ok? && PacketSequence(p.value).value == n && p.value.Channel() == Control
  }

  lemma SentUnder(sequence: u64, p: Payload)
    requires p.Valid() && !p.VideoFrameP?
    ensures SentAs(PayloadPacket(0, sequence, p), sequence)
  {
    H.PayloadPacketIsSound(H.RawMessage.Message(0, p), sequence);
    OnControl(0, sequence, p);
    hide PayloadPacket, PacketSequence;
  }

  lemma OnControl(flags: u16, sequence: u64, p: Payload)
    requires flags < FLAG_LIMIT && p.Valid() && !p.VideoFrameP? && PayloadPacket(flags, sequence, p).Ok?
    ensures PayloadPacket(flags, sequence, p).value.Channel() == Control
  {
    hide EncodePayload, DecodePayload, EncodeFrame, DecodePrefix;
    WireRoundTrip(flags, sequence, p, []);
  }

  /** The first number after an established handshake follows the opening: a peer
      that observed the numbers of the three opening packets, and nothing else,
      accepts it with nothing skipped. */
  lemma NextNumberFollowsOpening(h: Exchange, p: Packet, peer: S.State)
    requires HelloP(h.hostHello).Valid() && CapabilitiesP(h.hostCapabilities).Valid()
    requires Accept(h, p).1.Ok? && Accept(h, p).1.value.Some?
    requires peer.phase == S.Active && peer.highest.None?
    ensures Accept(h, p).1.value.value.displayConfig.Valid()
    ensures var e := Accept(h, p).1.value.value; var opening := OpeningPackets(h, e.displayConfig);
      && (forall q :: q in opening ==> q.Ok? && PacketSequence(q.value).Ok?)
      && (var after := AfterPackets(peer, opening);
          && after.phase == S.Active && after.highest == Some(e.nextSequence - 1)
          && S.Observe(after, e.nextSequence).1 == Ok(S.Accepted(0)))
  {
    hide Accept, PacketSequence, PayloadPacket, SentAs, AfterPackets, OpeningPackets;
    EstablishedConfigIsValid(h, p);
    EstablishedIsExact(h, p);
    var e := Accept(h, p).1.value.value;
    OpeningIsSent(h, e.displayConfig);
    AllSent(OpeningPackets(h, e.displayConfig));
    ObserveOpening(peer, OpeningPackets(h, e.displayConfig));
  }

  lemma EstablishedConfigIsValid(h: Exchange, p: Packet)
    requires Accept(h, p).1.Ok? && Accept(h, p).1.value.Some?
    ensures Accept(h, p).1.value.value.displayConfig.Valid()
  {
    EstablishedSessionsAreSound(h, p, 0);
    hide Accept;
  }

  lemma AllSent(opening: seq<Result<Packet, ProtocolError>>)
    requires |opening| == 3 && forall i :: 0 <= i < 3 ==> SentAs(opening[i], i)
    ensures forall q :: q in opening ==> q.Ok? && PacketSequence(q.value).Ok?
  {
    hide PacketSequence;
    assert SentAs(opening[0], 0) && SentAs(opening[1], 1) && SentAs(opening[2], 2);
  }

  lemma ObserveOpening(peer: S.State, opening: seq<Result<Packet, ProtocolError>>)
    requires |opening| == 3 && peer.phase == S.Active && peer.highest.None?
    requires forall i :: 0 <= i < 3 ==> SentAs(opening[i], i)
    requires forall q :: q in opening ==> q.Ok? && PacketSequence(q.value).Ok?
    ensures AfterPackets(peer, opening) == peer.(highest := Some(2))
  {
    hide PacketSequence;
    var two, one, none := opening[..2], opening[..1], opening[..0];
    assert two[..1] == one && one[..0] == none && none == [];
    assert forall q :: q in two ==> q in opening;
    assert forall q :: q in one ==> q in opening;
    assert AfterPackets(peer, none) == peer;
    assert AfterPackets(peer, one) == peer.(highest := Some(0));
    assert AfterPackets(peer, two) == peer.(highest := Some(1));
  }

  /** So what module PeerVerdicts says of a host session holds of the session the
      handshake opens: the peer that saw the opening accepts everything after it
      with nothing skipped exactly when no call of the multiplexer overtook. */
  lemma SessionFollowsOpening(controlLimits: QueueLimits, mediaLimits: QueueLimits, h: Exchange, p: Packet,
                              ops: seq<H.HostOp>, peer: S.State)
    requires controlLimits.Valid() && mediaLimits.Valid()
    requires HelloP(h.hostHello).Valid() && CapabilitiesP(h.hostCapabilities).Valid()
    requires Accept(h, p).1.Ok? && Accept(h, p).1.value.Some?
    requires peer.phase == S.Active && peer.highest.None?
    ensures var e := Accept(h, p).1.value.value;
      var host := H.NewHost(controlLimits, mediaLimits, e.nextSequence);
      && e.displayConfig.Valid()
      && (forall q :: q in OpeningPackets(h, e.displayConfig) ==> q.Ok? && PacketSequence(q.value).Ok?)
      && (var numbers := V.NumbersOf(H.HostRun(host, ops).out.emitted);
          var after := AfterPackets(peer, OpeningPackets(h, e.displayConfig));
          V.AllAccepted(after, numbers) <==> M.NoOvertaking(host.out, H.MuxOps(host, ops)))
  {
    NextNumberFollowsOpening(h, p, peer);
    EstablishedIsExact(h, p);
    var e := Accept(h, p).1.value.value;
    hide Accept, PacketSequence, PayloadPacket, OpeningPackets, AfterPackets, V.AllAccepted, V.VerdictOn, H.HostRun,
      H.MuxOps, M.NoOvertaking;
    V.PeerFollowsHost(controlLimits, mediaLimits, e.nextSequence, ops, AfterPackets(peer, OpeningPackets(h, e.displayConfig)));
  }
}
