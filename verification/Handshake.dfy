/** The host side of the Hello/Capabilities exchange
    (apps/desktop/src-tauri/src/host_protocol.rs:51-232). */
module Handshake {
  import opened Wrappers
  import opened Words
  import opened Utf8
  import opened Frames
  import opened Payloads
  import opened Packets
  import opened LdflStream
  import opened Negotiation
  import opened Sessions
  import opened DisplayModes

  const HELLO_SEQUENCE: u64 := 0
  const CAPABILITIES_SEQUENCE: u64 := 1
  const FIRST_ACTIVE_SEQUENCE: u64 := 3
  /** "LadoFlow desktop". */
  const HOST_NAME: text := [76, 97, 100, 111, 70, 108, 111, 119, 32, 100, 101, 115, 107, 116, 111, 112]
  const ALL_INPUT: Mask := 7
  const REMOTE_CURSOR: Mask := 2

  datatype HandshakeError =
    | MediaTooEarly
    | BadFrame(cause: ProtocolError)
    | PartialFrame
    | TrailingFrameBytes
    | SequenceNotNewer(sequence: u64)
    | RepeatedHello
    | RepeatedCapabilities
    | UnexpectedKind(kind: MessageType)
    | NoAgreement(reason: NegotiationError)
    | NoConfiguration(problem: ConfigError)
    | SessionRefused(refusal: SessionError)
    | MissingPart

  datatype Established = Established(
    session: State, displayConfig: DisplayConfigPayload, peerName: text, nextSequence: u64)

  datatype Exchange = Exchange(
    config: HostConfiguration, hostHello: HelloPayload, hostCapabilities: CapabilitiesPayload,
    displayHello: Option<HelloPayload>, displayCapabilities: Option<CapabilitiesPayload>, highest: Option<u64>)

  function HostHello(nonce: Nonce): HelloPayload {
    HelloPayload(PROTOCOL_VERSION, PROTOCOL_VERSION, Host, nonce, HOST_NAME)
  }

  function HostCapabilities(config: HostConfiguration): CapabilitiesPayload {
    CapabilitiesPayload(config.width, config.height, config.refreshHz * 1_000, 40_000,
                        CODEC_H264, ALL_INPUT, REMOTE_CURSOR)
  }

  /** `HostHandshake::with_nonce`. */
  function NewHandshake(config: HostConfiguration, nonce: Nonce): Exchange {
    Exchange(config, HostHello(nonce), HostCapabilities(config), None, None, None)
  }

  /** Agree, choose the configuration, and open a session whose cursor already
      stands at the last handshake sequence. */
  function Settle(h: Exchange): Result<Established, HandshakeError> {
    if h.displayHello.None? || h.displayCapabilities.None? then Err(MissingPart) else
    match Negotiate(h.hostHello, h.hostCapabilities, h.displayHello.value, h.displayCapabilities.value)
    case Err(e) => Err(NoAgreement(e))
    case Ok(agreement) =>
      match SelectDisplayConfig(h.config, agreement)
      case Err(e) => Err(NoConfiguration(e))
      case Ok(config) =>
        var (started, r1) := StartSession(NEW_SESSION);
        if r1.Err? then Err(SessionRefused(r1.error)) else
        var (active, r2) := Establish(started, agreement, Restart);
        if r2.Err? then Err(SessionRefused(r2.error)) else
        var (session, r3) := if h.highest.Some? then Observe(active, h.highest.value) else (active, Ok(Duplicate));
        if r3.Err? then Err(SessionRefused(r3.error)) else
        Ok(Established(session, config, h.displayHello.value.name, FIRST_ACTIVE_SEQUENCE))
  }

  /** What a frame does once its sequence is known to be new. */
  function TakeFrame(h: Exchange, f: Frame): (Exchange, Result<Option<Established>, HandshakeError>) {
    match f.header.kind
    case Hello =>
      if h.displayHello.Some? then (h, Err(RepeatedHello)) else
      (match PayloadFromFrame(Hello, f)
       case Ok(HelloP(hello)) => SettleWhenComplete(h.(displayHello := Some(hello)))
       case Ok(_) => (h, Err(MissingPart))
       case Err(e) => (h, Err(BadFrame(e))))
    case Capabilities =>
      if h.displayCapabilities.Some? then (h, Err(RepeatedCapabilities)) else
      (match PayloadFromFrame(Capabilities, f)
       case Ok(CapabilitiesP(c)) => SettleWhenComplete(h.(displayCapabilities := Some(c)))
       case Ok(_) => (h, Err(MissingPart))
       case Err(e) => (h, Err(BadFrame(e))))
    case kind => (h, Err(UnexpectedKind(kind)))
  }

  function SettleWhenComplete(h: Exchange): (Exchange, Result<Option<Established>, HandshakeError>) {
    if h.displayHello.None? || h.displayCapabilities.None? then (h, Ok(None)) else
    match Settle(h)
    case Ok(e) => (h, Ok(Some(e)))
    case Err(e) => (h, Err(e))
  }

  function Accept(h: Exchange, p: Packet): (Exchange, Result<Option<Established>, HandshakeError>) {
    if p.Channel() != Control then (h, Err(MediaTooEarly)) else
    match DecodePrefix(p.payload)
    case Err(e) => (h, Err(BadFrame(e)))
    case Ok(NeedMoreData(_)) => (h, Err(PartialFrame))
    case Ok(Complete(frame, consumed)) =>
      if consumed != p.Len() then (h, Err(TrailingFrameBytes)) else
      var sequence := frame.header.sequence;
      if h.highest.Some? && sequence <= h.highest.value then (h, Err(SequenceNotNewer(sequence))) else
      TakeFrame(h.(highest := Some(sequence)), frame)
  }

  class HostHandshake {
    const config: HostConfiguration
    const hostHello: HelloPayload
    const hostCapabilities: CapabilitiesPayload
    var displayHello: Option<HelloPayload>
    var displayCapabilities: Option<CapabilitiesPayload>
    var highestDisplaySequence: Option<u64>

    function Value(): Exchange
      reads this
    {
      Exchange(config, hostHello, hostCapabilities, displayHello, displayCapabilities, highestDisplaySequence)
    }

    constructor (config: HostConfiguration, nonce: Nonce)
      ensures Value() == NewHandshake(config, nonce)
    {
      this.config := config;
      hostHello := HostHello(nonce);
      hostCapabilities := HostCapabilities(config);
      displayHello, displayCapabilities, highestDisplaySequence := None, None, None;
    }

    method AcceptPacket(packet: Packet) returns (r: Result<Option<Established>, HandshakeError>)
      modifies this
      ensures (Value(), r) == Accept(old(Value()), packet)
    {
      hide DecodePrefix, PayloadFromFrame, Settle;
      if packet.Channel() != Control {
        return Err(MediaTooEarly);
      }
      var outcome := DecodePrefix(packet.payload);
      if outcome.Err? {
        return Err(BadFrame(outcome.error));
      }
      if outcome.value.NeedMoreData? {
        return Err(PartialFrame);
      }
      var frame := outcome.value.frame;
      if outcome.value.consumed != packet.Len() {
        return Err(TrailingFrameBytes);
      }
      var sequence := frame.header.sequence;
      if highestDisplaySequence.Some? && sequence <= highestDisplaySequence.value {
        return Err(SequenceNotNewer(sequence));
      }
      highestDisplaySequence := Some(sequence);
      match frame.header.kind {
        case Hello =>
          if displayHello.Some? {
            return Err(RepeatedHello);
          }
          var payload := PayloadFromFrame(Hello, frame);
          if payload.Err? {
            return Err(BadFrame(payload.error));
          }
          if !payload.value.HelloP? {
            return Err(MissingPart);
          }
          displayHello := Some(payload.value.hello);
        case Capabilities =>
          if displayCapabilities.Some? {
            return Err(RepeatedCapabilities);
          }
          var payload := PayloadFromFrame(Capabilities, frame);
          if payload.Err? {
            return Err(BadFrame(payload.error));
          }
          if !payload.value.CapabilitiesP? {
            return Err(MissingPart);
          }
          displayCapabilities := Some(payload.value.capabilities);
        case kind => return Err(UnexpectedKind(kind));
      }
      if displayHello.None? || displayCapabilities.None? {
        return Ok(None);
      }
      var settled := Settle(Value());
      match settled
      case Ok(e) => return Ok(Some(e));
      case Err(e) => return Err(e);
    }
  }

  // ---- The exchange --------------------------------------------------------------------

  /** Both opening packets of the host encode, whatever the configuration. */
  lemma InitialPacketsExist(config: HostConfiguration, nonce: Nonce)
    ensures HelloP(HostHello(nonce)).Valid() && CapabilitiesP(HostCapabilities(config)).Valid()
    ensures PayloadPacket(0, HELLO_SEQUENCE, HelloP(HostHello(nonce))).Ok?
    ensures PayloadPacket(0, CAPABILITIES_SEQUENCE, CapabilitiesP(HostCapabilities(config))).Ok?
  {
    HostNameIsShort();
    hide EncodeText, EncodePayload, DecodePayload, EncodeFrame, DecodePrefix;
    WireRoundTrip(0, HELLO_SEQUENCE, HelloP(HostHello(nonce)), []);
    WireRoundTrip(0, CAPABILITIES_SEQUENCE, CapabilitiesP(HostCapabilities(config)), []);
  }

  lemma {:induction false} TextLength(t: text)
    ensures |EncodeText(t)| <= 4 * |t|
  {
    if t != [] {
      TextLength(t[1..]);
    }
  }

  lemma HostNameIsShort()
    ensures |EncodeText(HOST_NAME)| <= MAX_IMPLEMENTATION_NAME_BYTES && 0 !in HOST_NAME
  {
    hide EncodeText;
    TextLength(HOST_NAME);
  }

  /** A control packet built from a payload is accepted as exactly that payload. */
  lemma AcceptsPayload(h: Exchange, flags: u16, sequence: u64, p: Payload)
    requires flags < FLAG_LIMIT && p.Valid() && !p.VideoFrameP?
    requires h.highest.None? || sequence > h.highest.value
    ensures PayloadPacket(flags, sequence, p).Ok?
    ensures var f := FrameFromPayload(flags, sequence, p).value;
      && f.header.kind == p.Kind() && PayloadFromFrame(p.Kind(), f) == Ok(p)
      && Accept(h, PayloadPacket(flags, sequence, p).value) == TakeFrame(h.(highest := Some(sequence)), f)
  {
    hide EncodeFrame, DecodePrefix, PayloadFromFrame, EncodePayload, TakeFrame;
    WireRoundTrip(flags, sequence, p, []);
    var f := FrameFromPayload(flags, sequence, p).value;
    assert EncodeFrame(f) + [] == EncodeFrame(f);
    EncodedFrameLength(flags, sequence, p);
  }

  lemma EncodedFrameLength(flags: u16, sequence: u64, p: Payload)
    requires flags < FLAG_LIMIT && p.Valid() && FrameFromPayload(flags, sequence, p).Ok?
    ensures var f := FrameFromPayload(flags, sequence, p).value; |EncodeFrame(f)| == f.EncodedLen()
  {
    hide EncodePayload;
    FrameRoundTrip(FrameFromPayload(flags, sequence, p).value, []);
  }

  /** The order of Hello and Capabilities does not matter, nor do their flags:
      with increasing sequences either order leads to the same state, agreement,
      display configuration and session. */
  lemma OrderDoesNotMatter(h: Exchange, hello: HelloPayload, c: CapabilitiesPayload,
                           a: u16, first: u64, b: u16, second: u64)
    requires hello.Valid() && c.Valid() && a < FLAG_LIMIT && b < FLAG_LIMIT && first < second
    requires h.displayHello.None? && h.displayCapabilities.None?
    requires h.highest.Some? ==> h.highest.value < first
    ensures PayloadPacket(a, first, HelloP(hello)).Ok? && PayloadPacket(a, second, HelloP(hello)).Ok?
    ensures PayloadPacket(b, first, CapabilitiesP(c)).Ok? && PayloadPacket(b, second, CapabilitiesP(c)).Ok?
    ensures var (h1, r1) := Accept(h, PayloadPacket(a, first, HelloP(hello)).value);
      var (h2, r2) := Accept(h1, PayloadPacket(b, second, CapabilitiesP(c)).value);
      var (g1, q1) := Accept(h, PayloadPacket(b, first, CapabilitiesP(c)).value);
      var (g2, q2) := Accept(g1, PayloadPacket(a, second, HelloP(hello)).value);
      && r1 == Ok(None) && q1 == Ok(None)
      && h2 == g2 && r2 == q2
      && (h2, r2) == SettleWhenComplete(h.(displayHello := Some(hello), displayCapabilities := Some(c), highest := Some(second)))
  {
    hide PayloadPacket, Accept, FrameFromPayload, PayloadFromFrame, Settle, EncodeFrame;
    var known, seen := h.(highest := Some(first), displayHello := Some(hello)),
                       h.(highest := Some(first), displayCapabilities := Some(c));
    AcceptsPayload(h, a, first, HelloP(hello));
    AcceptsPayload(known, b, second, CapabilitiesP(c));
    AcceptsPayload(h, b, first, CapabilitiesP(c));
    AcceptsPayload(seen, a, second, HelloP(hello));
  }

  /** What an accepted handshake guarantees: the configuration is within both
      peers' width, height, refresh and bitrate limits and uses a codec both
      have; the session is active under the agreement; and its cursor makes any
      sequence of the handshake, or an earlier one, a duplicate or stale. */
  lemma EstablishedSessionsAreSound(h: Exchange, p: Packet, replayed: u64)
    requires Accept(h, p).1.Ok? && Accept(h, p).1.value.Some?
    ensures var h' := Accept(h, p).0; var e := Accept(h, p).1.value.value; var d := e.displayConfig;
      && h'.displayHello.Some? && h'.displayCapabilities.Some? && h'.highest.Some?
      && d.Valid() && d.codec == H264
      && HasBit(h'.hostCapabilities.codecs, 0) && HasBit(h'.displayCapabilities.value.codecs, 0)
      && LimitsOf(h'.hostCapabilities).Admits(d.width, d.height, d.refreshMillihz, d.bitrateKbps)
      && LimitsOf(h'.displayCapabilities.value).Admits(d.width, d.height, d.refreshMillihz, d.bitrateKbps)
      && e.session.phase == Active
      && Negotiate(h'.hostHello, h'.hostCapabilities, h'.displayHello.value, h'.displayCapabilities.value)
           == Ok(e.session.agreement.value)
      && e.session.highest == h'.highest
      && (replayed <= h'.highest.value ==>
            Observe(e.session, replayed).1.Ok? && !Observe(e.session, replayed).1.value.Accepted?)
  {
    hide DecodePrefix, PayloadFromFrame, Negotiate, SelectDisplayConfig, HasBit, Settle;
    var h' := Accept(h, p).0;
    assert Settle(h') == Ok(Accept(h, p).1.value.value);
    SettledIsSound(h', replayed);
  }

  // ---- When a packet is accepted ----------------------------------------------------------

  /** The packet is one whole control frame. */
  ghost predicate ControlFrame(p: Packet, f: Frame) {
    p.Channel() == Control && f.Valid() && p.payload == EncodeFrame(f)
  }

  predicate Newer(h: Exchange, f: Frame) { h.highest.None? || f.header.sequence > h.highest.value }

  /** It is the first Hello, or the first Capabilities. */
  predicate FirstOfKind(h: Exchange, f: Frame) {
    || (f.header.kind.Hello? && h.displayHello.None? && DecodePayload(Hello, f.payload).Ok?)
    || (f.header.kind.Capabilities? && h.displayCapabilities.None? && DecodePayload(Capabilities, f.payload).Ok?)
  }

  /** A whole control frame under a newer number is remembered by its number, and
      then judged by its kind; anything else is refused and changes nothing. */
  lemma WhatIsJudged(h: Exchange, p: Packet)
    ensures forall f :: ControlFrame(p, f) && Newer(h, f) ==>
      Accept(h, p) == TakeFrame(h.(highest := Some(f.header.sequence)), f)
    ensures (!exists f :: ControlFrame(p, f) && Newer(h, f)) ==> Accept(h, p).0 == h && Accept(h, p).1.Err?
  {
    hide DecodeHeader, EncodeFrame, TakeFrame;
    forall f | ControlFrame(p, f)
      ensures DecodePrefix(p.payload) == Ok(Complete(f, p.Len()))
    {
      FrameRoundTrip(f, []);
      assert EncodeFrame(f) + [] == p.payload;
    }
    if p.Channel() == Control && DecodePrefix(p.payload).Ok? && DecodePrefix(p.payload).value.Complete?
       && DecodePrefix(p.payload).value.consumed == p.Len() {
      FrameCanonical(p.payload);
      assert p.payload[..p.Len()] == p.payload;
      assert ControlFrame(p, DecodePrefix(p.payload).value.frame);
    }
    hide DecodePrefix;
  }

  /** What a judged frame leads to: the part it brings is kept, nothing else
      changes, and the exchange is settled when both parts are there. */
  lemma WhatIsKept(h: Exchange, f: Frame)
    ensures var (h', r) := TakeFrame(h, f);
      && (FirstOfKind(h, f) ==>
            && h' == (if f.header.kind.Hello? then h.(displayHello := Some(DecodePayload(Hello, f.payload).value.hello))
                      else h.(displayCapabilities := Some(DecodePayload(Capabilities, f.payload).value.capabilities)))
            && (h', r) == SettleWhenComplete(h'))
      && (!FirstOfKind(h, f) ==> h' == h && r.Err?)
  {
    KindOfPayload(Hello, f.payload);
    KindOfPayload(Capabilities, f.payload);
    hide DecodePayload, Settle;
  }

  lemma KindOfPayload(kind: MessageType, b: bytes)
    ensures DecodePayload(kind, b).Ok? ==> DecodePayload(kind, b).value.Kind() == kind
  {
    hide DecodeHello, DecodeCapabilities, DecodeDisplayConfig, DecodeVideoFrame, DecodeInput, DecodeTelemetry, DecodePing,
      DecodePong, DecodeError;
  }

  /** An exchange with both parts settles exactly when the peers agree and a
      configuration is found; the session is then a new one, active under the
      agreement after its first connection, with its cursor at the display's last
      number. */
  lemma WhenSettled(h: Exchange)
    requires h.displayHello.Some? && h.displayCapabilities.Some? && h.highest.Some?
    ensures var a := Negotiate(h.hostHello, h.hostCapabilities, h.displayHello.value, h.displayCapabilities.value);
      && (Settle(h).Ok? <==> a.Ok? && SelectDisplayConfig(h.config, a.value).Ok?)
      && (a.Err? ==> Settle(h) == Err(NoAgreement(a.error)))
      && (Settle(h).Ok? ==>
            var e := Settle(h).value;
            && e.session == State(Active, Some(a.value), 1, 0, h.highest)
            && e.displayConfig == SelectDisplayConfig(h.config, a.value).value
            && e.peerName == h.displayHello.value.name && e.nextSequence == 3)
  {
    hide Negotiate, SelectDisplayConfig;
  }

  /** An established handshake: its parts are both there, and the result is what
      they settle to; the name is the one the display sent. */
  lemma EstablishedIsExact(h: Exchange, p: Packet)
    requires Accept(h, p).1.Ok? && Accept(h, p).1.value.Some?
    ensures var h' := Accept(h, p).0; var e := Accept(h, p).1.value.value;
      && h'.displayHello.Some? && h'.displayCapabilities.Some? && h'.highest.Some?
      && Settle(h') == Ok(e) && e.peerName == h'.displayHello.value.name && e.nextSequence == 3
      && h'.hostHello == h.hostHello && h'.hostCapabilities == h.hostCapabilities && h'.config == h.config
  {
    hide DecodePrefix, PayloadFromFrame, Settle;
    WhenSettled(Accept(h, p).0);
  }

  /** From both of the display's messages, in either order, to a session: exactly
      when it is a display that speaks the host's version, shares H.264, admits a
      mode of the ladder or the requested size, and reaches 30 Hz and some
      bitrate. */
  lemma WhenHandshakeSucceeds(config: HostConfiguration, nonce: Nonce, hello: HelloPayload, c: CapabilitiesPayload, last: u64)
    ensures var h := NewHandshake(config, nonce).(displayHello := Some(hello), displayCapabilities := Some(c), highest := Some(last));
      Settle(h).Ok? <==>
        && hello.role != Host && hello.minProtocol <= 1 <= hello.maxProtocol && HasBit(c.codecs, 0)
        && SelectBoundedDimensions(NEGOTIATED_LANDSCAPE_MODES, Mode(config.width, config.height),
                                   Mode(Min(config.width, c.maxWidth), Min(config.height, c.maxHeight))).Ok?
        && c.maxRefreshMillihz >= 30_000 && c.maxBitrateKbps > 0
  {
    var h := NewHandshake(config, nonce).(displayHello := Some(hello), displayCapabilities := Some(c), highest := Some(last));
    WhenSettled(h);
    HostShares(h.hostHello, h.hostCapabilities, hello, c);
    var a := Negotiate(h.hostHello, h.hostCapabilities, hello, c);
    if a.Ok? {
      WhenConfigExists(config, a.value);
    }
    hide Settle, SelectDisplayConfig, SelectBoundedDimensions, HasBit, Both;
  }

  /** And what it then opens with: version 1, every input the display offers and
      the remote cursor if it offers that, the size selected within both peers'
      limits, the host's rate or 30 Hz, and the estimated bitrate up to the
      display's limit. */
  lemma WhatIsAgreed(config: HostConfiguration, nonce: Nonce, hello: HelloPayload, c: CapabilitiesPayload, last: u64)
    requires Settle(NewHandshake(config, nonce).(displayHello := Some(hello), displayCapabilities := Some(c),
                                                 highest := Some(last))).Ok?
    ensures var e := Settle(NewHandshake(config, nonce).(displayHello := Some(hello), displayCapabilities := Some(c),
                                                         highest := Some(last))).value;
      var d := e.displayConfig; var estimate := d.width * d.height * d.refreshMillihz / 1_000 * 12 / 100_000;
      && e.session.agreement.Some?
      && (var a := e.session.agreement.value;
          && a.protocolVersion == 1
          && (forall bit :: 0 <= bit < 3 ==> (HasBit(a.capabilities.input, bit) <==> HasBit(c.input, bit)))
          && (forall bit :: 0 <= bit < 3 ==> (HasBit(a.capabilities.features, bit) <==> bit == 1 && HasBit(c.features, bit))))
      && SelectBoundedDimensions(NEGOTIATED_LANDSCAPE_MODES, Mode(config.width, config.height),
                                 Mode(Min(config.width, c.maxWidth), Min(config.height, c.maxHeight))) == Ok(Mode(d.width, d.height))
      && d.refreshMillihz == (if config.refreshHz * 1_000 <= c.maxRefreshMillihz then config.refreshHz * 1_000 else 30_000)
      && d.bitrateKbps == Min(Max(4_000, Min(40_000, estimate)), c.maxBitrateKbps)
  {
    var h := NewHandshake(config, nonce).(displayHello := Some(hello), displayCapabilities := Some(c), highest := Some(last));
    WhenSettled(h);
    var a := Negotiate(h.hostHello, h.hostCapabilities, hello, c).value;
    ConfigIsExact(config, a);
    AgreedMasks(h.hostHello, h.hostCapabilities, hello, c);
    hide Settle, SelectDisplayConfig, SelectBoundedDimensions, HasBit, Both;
  }

  lemma AgreedMasks(hostHello: HelloPayload, hostCapabilities: CapabilitiesPayload, hello: HelloPayload, c: CapabilitiesPayload)
    requires hostHello.minProtocol == hostHello.maxProtocol == 1
    requires hostCapabilities.input == ALL_INPUT && hostCapabilities.features == REMOTE_CURSOR
    requires Negotiate(hostHello, hostCapabilities, hello, c).Ok?
    ensures var a := Negotiate(hostHello, hostCapabilities, hello, c).value;
      && a.protocolVersion == 1
      && (forall bit :: 0 <= bit < 3 ==> (HasBit(a.capabilities.input, bit) <==> HasBit(c.input, bit)))
      && (forall bit :: 0 <= bit < 3 ==> (HasBit(a.capabilities.features, bit) <==> bit == 1 && HasBit(c.features, bit)))
  {
    assert HasBit(ALL_INPUT, 0) && HasBit(ALL_INPUT, 1) && HasBit(ALL_INPUT, 2);
    assert !HasBit(REMOTE_CURSOR, 0) && HasBit(REMOTE_CURSOR, 1) && !HasBit(REMOTE_CURSOR, 2);
    NegotiationIsBest(hostHello, hostCapabilities, hello, c);
    hide HasBit, Both;
  }

  lemma HostShares(hostHello: HelloPayload, hostCapabilities: CapabilitiesPayload, hello: HelloPayload, c: CapabilitiesPayload)
    requires hostHello.role == Host && hostHello.minProtocol == hostHello.maxProtocol == 1
    requires hostCapabilities.codecs == CODEC_H264
    ensures var a := Negotiate(hostHello, hostCapabilities, hello, c);
      && (a.Ok? <==> hello.role != Host && hello.minProtocol <= 1 <= hello.maxProtocol && HasBit(c.codecs, 0))
      && (a.Ok? ==> HasBit(a.value.capabilities.codecs, 0))
  {
    BothBits(hostCapabilities.codecs, c.codecs, 0);
    assert HasBit(CODEC_H264, 0) && !HasBit(CODEC_H264, 1) && !HasBit(CODEC_H264, 2);
  }

  lemma SettledIsSound(h: Exchange, replayed: u64)
    requires Settle(h).Ok? && h.highest.Some?
    ensures h.displayHello.Some? && h.displayCapabilities.Some?
    ensures var e := Settle(h).value; var d := e.displayConfig;
      && d.Valid() && d.codec == H264
      && HasBit(h.hostCapabilities.codecs, 0) && HasBit(h.displayCapabilities.value.codecs, 0)
      && LimitsOf(h.hostCapabilities).Admits(d.width, d.height, d.refreshMillihz, d.bitrateKbps)
      && LimitsOf(h.displayCapabilities.value).Admits(d.width, d.height, d.refreshMillihz, d.bitrateKbps)
      && e.session.phase == Active && e.session.agreement.Some?
      && Negotiate(h.hostHello, h.hostCapabilities, h.displayHello.value, h.displayCapabilities.value)
           == Ok(e.session.agreement.value)
      && e.session.highest == h.highest
      && (replayed <= h.highest.value ==>
            Observe(e.session, replayed).1.Ok? && !Observe(e.session, replayed).1.value.Accepted?)
  {
    hide Negotiate, SelectDisplayConfig, HasBit;
    NegotiationIsBest(h.hostHello, h.hostCapabilities, h.displayHello.value, h.displayCapabilities.value);
    var a := Negotiate(h.hostHello, h.hostCapabilities, h.displayHello.value, h.displayCapabilities.value).value;
    ConfigIsWithinLimits(h.config, a);
  }
}
