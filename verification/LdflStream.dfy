/** Between packets and the LDFL byte stream: the classifying decoder and the
    control/media multiplexer (crates/ladoflow-transport/src/ldfl_stream.rs). */
module LdflStream {
  import opened Wrappers
  import opened Words
  import opened Frames
  import opened Payloads
  import opened Packets
  import opened Loopback
  import opened Applications

  datatype StreamError =
    | Decode(error: ProtocolError)
    | PartialPacket
    | TrailingBytes
    | WrongChannel(kind: MessageType, actual: Channel, expected: Channel)
    | DuplicateSequence(sequence: u64)
    | QueueDisconnected(channel: Channel)

  function ChannelForMessage(kind: MessageType): Channel {
    if kind.VideoFrame? then Media else Control
  }

  function PacketFromFrame(f: Frame): Packet {
    if ChannelForMessage(f.header.kind).Media? then MediaPacket(None, EncodeFrame(f))
    else ControlPacket(EncodeFrame(f))
  }

  /** A payload framed under a sequence number, on the lane of its kind. */
  function PayloadPacket(flags: u16, sequence: u64, p: Payload): Result<Packet, ProtocolError>
    requires flags < FLAG_LIMIT && p.Valid()
  {
    var frame :- FrameFromPayload(flags, sequence, p);
    Ok(PacketFromFrame(frame))
  }

  function PacketsFromFrames(frames: seq<Frame>): (packets: seq<Packet>)
    ensures |packets| == |frames|
    ensures forall i :: 0 <= i < |frames| ==> packets[i] == PacketFromFrame(frames[i])
  {
    seq(|frames|, i requires 0 <= i < |frames| => PacketFromFrame(frames[i]))
  }

  /** Validate one packet and return its global sequence number. */
  function PacketSequence(p: Packet): Result<u64, StreamError> {
    match DecodePrefix(p.payload)
    case Err(e) => Err(Decode(e))
    case Ok(NeedMoreData(_)) => Err(PartialPacket)
    case Ok(Complete(frame, consumed)) =>
      if consumed != p.Len() then Err(TrailingBytes) else
      var expected := ChannelForMessage(frame.header.kind);
      if p.Channel() != expected then Err(WrongChannel(frame.header.kind, p.Channel(), expected))
      else Ok(frame.header.sequence)
  }

  /** The packet carries exactly this frame, on the lane of its kind. */
  ghost predicate Carries(p: Packet, f: Frame) {
    f.Valid() && p.payload == EncodeFrame(f) && p.Channel() == ChannelForMessage(f.header.kind)
  }

  ghost predicate Sound(p: Packet) {
    exists f :: Carries(p, f)
  }

  ghost predicate AllSound(packets: seq<Packet>) {
    forall p :: p in packets ==> PacketSequence(p).Ok?
  }

  /** A packet passes validation exactly when it carries one whole valid frame
      on the right lane, and the number returned is that frame's. */
  lemma ValidatedPackets(p: Packet)
    ensures PacketSequence(p).Ok? <==> Sound(p)
    ensures forall f :: Carries(p, f) ==> PacketSequence(p) == Ok(f.header.sequence)
    ensures PacketSequence(p).Ok? ==> Carries(p, FrameOf(p))
  {
    hide DecodeHeader, EncodeFrame;
    if PacketSequence(p).Ok? {
      FrameCanonical(p.payload);
      assert p.payload[..p.Len()] == p.payload;
      assert Carries(p, FrameOf(p));
    }
    forall f | Carries(p, f)
      ensures PacketSequence(p) == Ok(f.header.sequence)
    {
      FrameRoundTrip(f, []);
      assert EncodeFrame(f) + [] == p.payload;
    }
  }

  function FrameOf(p: Packet): Frame
    requires PacketSequence(p).Ok?
  {
    DecodePrefix(p.payload).value.frame
  }

  /** Classifying a decoded frame gives a packet that carries it and that a
      queue of the lane's packet limit admits. */
  lemma DecodedPacketsAreSound(f: Frame)
    requires f.Valid()
    ensures Carries(PacketFromFrame(f), f)
    ensures var p := PacketFromFrame(f);
      && p.SupersessionKey().None?
      && p.Len() <= FRAME_HEADER_LEN + (if p.Channel().Media? then MAX_MEDIA_PAYLOAD else MAX_CONTROL_PAYLOAD)
  {
    FrameRoundTrip(f, []);
  }

  /** A valid frame that survives the trip through a stream is, lane and bytes,
      the packet that was sent. */
  lemma CarriedFrameRebuildsPacket(p: Packet, f: Frame)
    requires Carries(p, f)
    ensures PacketFromFrame(f).payload == p.payload && PacketFromFrame(f).Channel() == p.Channel()
  {
  }

  class LdflPacketDecoder {
    const decoder: FrameDecoder

    constructor ()
      ensures fresh(decoder) && decoder.buffer == [] && decoder.bufferLimit == MAX_BUFFERED_BYTES
    {
      decoder := new FrameDecoder();
    }

    method Push(chunk: bytes) returns (r: Result<seq<Packet>, StreamError>)
      modifies decoder
      ensures var (frames, buffer) := PushChunk(old(decoder.buffer), decoder.bufferLimit, chunk);
        && decoder.buffer == buffer
        && r == match frames
                case Ok(fs) => Ok(PacketsFromFrames(fs))
                case Err(e) => Err(Decode(e))
    {
      var frames := decoder.Push(chunk);
      match frames
      case Ok(fs) => return Ok(PacketsFromFrames(fs));
      case Err(e) => return Err(Decode(e));
    }
  }

  // ---- The multiplexer, as a value -------------------------------------------

  /** The packet held for each lane until it is its turn. */
  datatype Slots = Slots(control: Option<Packet>, media: Option<Packet>) {
    function At(ch: Channel): Option<Packet> { if ch.Control? then control else media }

    function With(ch: Channel, p: Option<Packet>): Slots {
      if ch.Control? then this.(control := p) else this.(media := p)
    }
  }

  const NO_SLOTS := Slots(None, None)

  /** Fill an empty slot from its queue. */
  function Poll(s: Slots, l: Lanes, ch: Channel): (Slots, Lanes) {
    if s.At(ch).Some? then (s, l) else
    var (l', p) := Receive(l, ch);
    (s.With(ch, p), l')
  }

  /** Emit the held packet with the smaller sequence number. */
  function Choose(s: Slots): (Slots, Result<Option<Packet>, StreamError>) {
    match (s.control, s.media)
    case (Some(c), Some(m)) =>
      var cs, ms := PacketSequence(c), PacketSequence(m);
      if cs.Err? then (s, Err(cs.error))
      else if ms.Err? then (s, Err(ms.error))
      else if cs.value == ms.value then (s, Err(DuplicateSequence(cs.value)))
      else if cs.value < ms.value then (s.(control := None), Ok(Some(c)))
      else (s.(media := None), Ok(Some(m)))
    case (Some(c), None) =>
      var cs := PacketSequence(c);
      if cs.Err? then (s, Err(cs.error)) else (s.(control := None), Ok(Some(c)))
    case (None, Some(m)) =>
      var ms := PacketSequence(m);
      if ms.Err? then (s, Err(ms.error)) else (s.(media := None), Ok(Some(m)))
    case (None, None) => (s, Ok(None))
  }

  /** `LdflPacketMux::next`: two receives, between which the application on
      the other side of the link takes the steps `between`, and a choice. */
  function MuxNext(s: Slots, link: LinkState, side: Side, between: seq<AppStep>)
    : (Slots, LinkState, Result<Option<Packet>, StreamError>)
  {
    if s.control.None? && !link.connected then (s, link, Err(QueueDisconnected(Control))) else
    var (s1, l1) := Poll(s, link.Incoming(side), Control);
    var link1 := AppRun(link.WithIncoming(side, l1), Opposite(side), between);
    if s.media.None? && !link1.connected then (s1, link1, Err(QueueDisconnected(Media))) else
    var (s2, l2) := Poll(s1, link1.Incoming(side), Media);
    var (s3, r) := Choose(s2);
    (s3, link1.WithIncoming(side, l2), r)
  }

  class LdflPacketMux {
    var control: Option<Packet>
    var media: Option<Packet>

    function State(): Slots
      reads this
    {
      Slots(control, media)
    }

    constructor ()
      ensures State() == NO_SLOTS
    {
      control, media := None, None;
    }

    /** Fill an empty slot; false when the link is down. */
    method Fill(link: Link, side: Side, ch: Channel) returns (up: bool)
      requires link.Valid() && this !in link.Objects()
      modifies this, link.Objects()
      ensures link.Valid()
      ensures up == (old(State()).At(ch).Some? || old(link.State()).connected)
      ensures !up ==> State() == old(State()) && link.State() == old(link.State())
      ensures up ==> var (s, l) := Poll(old(State()), old(link.State()).Incoming(side), ch);
        State() == s && link.State() == old(link.State()).WithIncoming(side, l)
    {
      hide PopQueue;
      if State().At(ch).Some? {
        return true;
      }
      var received := link.TryReceive(side, ch);
      if received.Err? {
        return false;
      }
      match ch {
        case Control => control := received.value;
        case Media => media := received.value;
      }
      return true;
    }

    /** Emit the held packet with the smaller sequence number. */
    method Emit() returns (r: Result<Option<Packet>, StreamError>)
      modifies this
      ensures (State(), r) == Choose(old(State()))
    {
      hide PacketSequence;
      match (control, media)
      case (Some(c), Some(m)) =>
        var controlSequence, mediaSequence := PacketSequence(c), PacketSequence(m);
        if controlSequence.Err? {
          return Err(controlSequence.error);
        }
        if mediaSequence.Err? {
          return Err(mediaSequence.error);
        }
        if controlSequence.value == mediaSequence.value {
          return Err(DuplicateSequence(controlSequence.value));
        }
        if controlSequence.value < mediaSequence.value {
          control := None;
          return Ok(Some(c));
        }
        media := None;
        return Ok(Some(m));
      case (Some(c), None) =>
        var controlSequence := PacketSequence(c);
        if controlSequence.Err? {
          return Err(controlSequence.error);
        }
        control := None;
        return Ok(Some(c));
      case (None, Some(m)) =>
        var mediaSequence := PacketSequence(m);
        if mediaSequence.Err? {
          return Err(mediaSequence.error);
        }
        media := None;
        return Ok(Some(m));
      case (None, None) => return Ok(None);
    }

    /** `others` is what else runs in the process while the lock is free. */
    method Next(link: Link, side: Side, others: Application)
      returns (r: Result<Option<Packet>, StreamError>, ghost between: seq<AppStep>)
      requires link.Valid() && this !in link.Objects() && others !in link.Objects()
      modifies this, others, link.Objects()
      ensures link.Valid()
      ensures (State(), link.State(), r) == MuxNext(old(State()), old(link.State()), side, between)
    {
      hide Receive, Choose, AppRun, Link.State, Link.Valid;
      between := [];
      var up := Fill(link, side, Control);
      if !up {
        return Err(QueueDisconnected(Control)), between;
      }
      between := others.Act(link, Opposite(side));
      up := Fill(link, side, Media);
      if !up {
        return Err(QueueDisconnected(Media)), between;
      }
      r := Emit();
    }
  }
}
