/** The nine typed payloads carried inside LDFL frames
    (crates/ladoflow-protocol/src/message.rs, display.rs, input.rs,
    control.rs and telemetry.rs). */
module Payloads {
  import opened Wrappers
  import opened Words
  import opened Utf8
  import opened Frames

  type Fallible<T> = Result<T, ProtocolError>

  /** `if !condition { return Err(InvalidPayload) }`. */
  function Check(condition: bool): Fallible<()> {
    if condition then Ok(()) else Err(InvalidPayload)
  }

  function DecodeBool(value: nat): Fallible<bool> {
    if value == 0 then Ok(false) else if value == 1 then Ok(true) else Err(InvalidPayload)
  }

  function BoolCode(b: bool): u8 { if b then 1 else 0 }

  // ---- Hello and Capabilities (message.rs) ---------------------------------

  datatype Role = Host | Display

  function RoleCode(role: Role): u8 { if role.Host? then 1 else 2 }

  function RoleFromCode(code: nat): Fallible<Role> {
    if code == 1 then Ok(Host) else if code == 2 then Ok(Display) else Err(InvalidPayload)
  }

  const MAX_IMPLEMENTATION_NAME_BYTES: nat := 64
  const HELLO_LAYOUT: seq<nat> := [2, 2, 1, 1]
  const HELLO_PREFIX_LEN: nat := 22

  type Nonce = n: bytes | |n| == 16 witness [0, 0, 0, 0, 0, 0, 0, 0, 0, 0, 0, 0, 0, 0, 0, 0]

  datatype HelloPayload = HelloPayload(minProtocol: u16, maxProtocol: u16, role: Role, nonce: Nonce, name: text) {
    predicate Valid() {
      && 0 < minProtocol <= maxProtocol
      && name != [] && |EncodeText(name)| <= MAX_IMPLEMENTATION_NAME_BYTES && 0 !in name
    }
  }

  function EncodeHello(h: HelloPayload): Fallible<bytes> {
    var _ :- Check(h.Valid());
    Ranges();
    var name := EncodeText(h.name);
    Ok(Pack(HELLO_LAYOUT, [h.minProtocol, h.maxProtocol, RoleCode(h.role), |name|]) + h.nonce + name)
  }

  function DecodeHello(p: bytes): Fallible<HelloPayload> {
    var _ :- Check(|p| >= HELLO_PREFIX_LEN);
    Ranges();
    assert Width([2, 2, 1, 1]) == 6;
    var f := Unpack(HELLO_LAYOUT, p[..6]);
    var role :- RoleFromCode(f[2]);
    var _ :- Check(|p| == HELLO_PREFIX_LEN + f[3]);
    match DecodeText(p[22..])
    case None => Err(InvalidUtf8)
    case Some(name) =>
      var h := HelloPayload(f[0], f[1], role, p[6..22], name);
      if h.Valid() then Ok(h) else Err(InvalidPayload)
  }

  /** Codec, input and feature masks each define their three low bits. */
  const KNOWN_MASK_LIMIT: nat := 8
  const CODEC_H264: nat := 1
  const CAPABILITIES_LAYOUT: seq<nat> := [2, 2, 4, 4, 2, 2, 4]
  const CAPABILITIES_LEN: nat := 20

  type Mask = m: int | 0 <= m < KNOWN_MASK_LIMIT

  datatype CapabilitiesPayload = CapabilitiesPayload(
    maxWidth: u16, maxHeight: u16, maxRefreshMillihz: u32, maxBitrateKbps: u32,
    codecs: Mask, input: Mask, features: Mask)
  {
    predicate Valid() {
      maxWidth != 0 && maxHeight != 0 && maxRefreshMillihz != 0 && maxBitrateKbps != 0 && codecs != 0
    }
  }

  function EncodeCapabilities(c: CapabilitiesPayload): Fallible<bytes> {
    var _ :- Check(c.Valid());
    Ranges();
    Ok(Pack(CAPABILITIES_LAYOUT,
            [c.maxWidth, c.maxHeight, c.maxRefreshMillihz, c.maxBitrateKbps, c.codecs, c.input, c.features]))
  }

  function DecodeCapabilities(p: bytes): Fallible<CapabilitiesPayload> {
    var _ :- Check(|p| == CAPABILITIES_LEN);
    Ranges();
    assert Width([2, 2, 4, 4, 2, 2, 4]) == 20;
    var f := Unpack(CAPABILITIES_LAYOUT, p);
    var _ :- Check(f[4] < KNOWN_MASK_LIMIT && f[5] < KNOWN_MASK_LIMIT && f[6] < KNOWN_MASK_LIMIT);
    var c := CapabilitiesPayload(f[0], f[1], f[2], f[3], f[4], f[5], f[6]);
    if c.Valid() then Ok(c) else Err(InvalidPayload)
  }

  // ---- DisplayConfig and VideoFrame (display.rs) ---------------------------

  datatype VideoCodec = H264 | Hevc | Av1

  datatype CodecProfile = H264Baseline | H264Main | H264High | HevcMain | HevcMain10 | Av1Main {
    function Codec(): VideoCodec {
      match this
      case H264Baseline | H264Main | H264High => H264
      case HevcMain | HevcMain10 => Hevc
      case Av1Main => Av1
    }
  }

  function CodecCode(c: VideoCodec): u8 {
    match c
    case H264 => 1
    case Hevc => 2
    case Av1 => 3
  }

  function CodecFromCode(code: nat): Fallible<VideoCodec> {
    match code
    case 1 => Ok(H264)
    case 2 => Ok(Hevc)
    case 3 => Ok(Av1)
    case _ => Err(InvalidPayload)
  }

  function ProfileCode(p: CodecProfile): u8 {
    match p
    case H264Baseline => 1
    case H264Main => 2
    case H264High => 3
    case HevcMain => 16
    case HevcMain10 => 17
    case Av1Main => 32
  }

  function ProfileFromCode(code: nat): Fallible<CodecProfile> {
    match code
    case 1 => Ok(H264Baseline)
    case 2 => Ok(H264Main)
    case 3 => Ok(H264High)
    case 16 => Ok(HevcMain)
    case 17 => Ok(HevcMain10)
    case 32 => Ok(Av1Main)
    case _ => Err(InvalidPayload)
  }

  const DISPLAY_CONFIG_LAYOUT: seq<nat> := [2, 2, 4, 4, 1, 1]
  const DISPLAY_CONFIG_LEN: nat := 14

  datatype DisplayConfigPayload = DisplayConfigPayload(
    width: u16, height: u16, refreshMillihz: u32, bitrateKbps: u32, codec: VideoCodec, profile: CodecProfile)
  {
    predicate Valid() {
      width != 0 && height != 0 && refreshMillihz != 0 && bitrateKbps != 0 && profile.Codec() == codec
    }
  }

  function EncodeDisplayConfig(d: DisplayConfigPayload): Fallible<bytes> {
    var _ :- Check(d.Valid());
    Ranges();
    Ok(Pack(DISPLAY_CONFIG_LAYOUT,
            [d.width, d.height, d.refreshMillihz, d.bitrateKbps, CodecCode(d.codec), ProfileCode(d.profile)]))
  }

  function DecodeDisplayConfig(p: bytes): Fallible<DisplayConfigPayload> {
    var _ :- Check(|p| == DISPLAY_CONFIG_LEN);
    Ranges();
    assert Width([2, 2, 4, 4, 1, 1]) == 14;
    var f := Unpack(DISPLAY_CONFIG_LAYOUT, p);
    var codec :- CodecFromCode(f[4]);
    var profile :- ProfileFromCode(f[5]);
    var d := DisplayConfigPayload(f[0], f[1], f[2], f[3], codec, profile);
    if d.Valid() then Ok(d) else Err(InvalidPayload)
  }

  const VIDEO_FRAME_LAYOUT: seq<nat> := [8, 8, 8, 4]
  const VIDEO_FRAME_METADATA_LEN: nat := 28
  const MAX_ENCODED_VIDEO_BYTES: nat := MAX_MEDIA_PAYLOAD - VIDEO_FRAME_METADATA_LEN

  datatype VideoFramePayload = VideoFramePayload(
    frameId: u64, captureMicros: u64, presentationMicros: u64, durationMicros: u32, encoded: bytes)
  {
    predicate Valid() { durationMicros != 0 && 0 < |encoded| <= MAX_ENCODED_VIDEO_BYTES }
  }

  function EncodeVideoFrame(v: VideoFramePayload): Fallible<bytes>
    requires v.durationMicros != 0
  {
    var _ :- Check(v.encoded != []);
    if |v.encoded| > MAX_ENCODED_VIDEO_BYTES
    then Err(PayloadTooLarge(VideoFrame, VIDEO_FRAME_METADATA_LEN + |v.encoded|, MAX_MEDIA_PAYLOAD)) else
    Ranges();
    Ok(Pack(VIDEO_FRAME_LAYOUT, [v.frameId, v.captureMicros, v.presentationMicros, v.durationMicros]) + v.encoded)
  }

  function DecodeVideoFrame(p: bytes): Fallible<VideoFramePayload> {
    if |p| > MAX_MEDIA_PAYLOAD then Err(PayloadTooLarge(VideoFrame, |p|, MAX_MEDIA_PAYLOAD)) else
    var _ :- Check(|p| > VIDEO_FRAME_METADATA_LEN);
    Ranges();
    assert Width([8, 8, 8, 4]) == 28;
    var f := Unpack(VIDEO_FRAME_LAYOUT, p[..28]);
    var _ :- Check(f[3] != 0);
    Ok(VideoFramePayload(f[0], f[1], f[2], f[3], p[28..]))
  }

  // ---- InputEvent (input.rs) -----------------------------------------------

  const MAX_TOUCH_CONTACTS: nat := 16
  /** Six modifier bits are defined. */
  const MODIFIER_LIMIT: nat := 64

  type Modifiers = m: int | 0 <= m < MODIFIER_LIMIT
  type i16 = x: int | -0x8000 <= x < 0x8000

  /** Two's complement. */
  function I16Bits(x: i16): u16 { if x < 0 then x + 0x1_0000 else x }

  function I16FromBits(x: u16): i16 { if x >= 0x8000 then x - 0x1_0000 else x }

  datatype PointerButton = Primary | Secondary | Middle | Back | Forward
  datatype TouchPhase = Begin | Move | End | Cancel

  function ButtonCode(b: PointerButton): u8 {
    match b
    case Primary => 1
    case Secondary => 2
    case Middle => 3
    case Back => 4
    case Forward => 5
  }

  function ButtonFromCode(code: nat): Fallible<PointerButton> {
    match code
    case 1 => Ok(Primary)
    case 2 => Ok(Secondary)
    case 3 => Ok(Middle)
    case 4 => Ok(Back)
    case 5 => Ok(Forward)
    case _ => Err(InvalidPayload)
  }

  function PhaseCode(p: TouchPhase): u8 {
    match p
    case Begin => 1
    case Move => 2
    case End => 3
    case Cancel => 4
  }

  function PhaseFromCode(code: nat): Fallible<TouchPhase> {
    match code
    case 1 => Ok(Begin)
    case 2 => Ok(Move)
    case 3 => Ok(End)
    case 4 => Ok(Cancel)
    case _ => Err(InvalidPayload)
  }

  datatype InputKind =
    | PointerMove(x: u16, y: u16)
    | PointerButtonChange(button: PointerButton, pressed: bool)
    | Wheel(deltaX: i16, deltaY: i16)
    | Key(usage: u16, down: bool, modifiers: Modifiers)
    | Touch(contactId: u8, phase: TouchPhase, touchX: u16, touchY: u16, pressure: u16)
    | Focus(focused: bool)
  {
    predicate Valid() {
      && (Key? ==> usage != 0)
      && (Touch? ==> contactId < MAX_TOUCH_CONTACTS)
    }
  }

  datatype InputPayload = InputPayload(timestampMicros: u64, kind: InputKind)

  const INPUT_HEADER_LEN: nat := 9

  /** The layout of the whole payload for each tag: the event time, the tag,
      then the body. */
  function InputLayout(tag: nat): seq<nat> {
    match tag
    case 1 => [8, 1, 2, 2]
    case 2 => [8, 1, 1, 1]
    case 3 => [8, 1, 2, 2]
    case 4 => [8, 1, 2, 1, 2]
    case 5 => [8, 1, 1, 1, 2, 2, 2]
    case 6 => [8, 1, 1]
    case _ => [8, 1]
  }

  lemma InputWidths()
    ensures Width(InputLayout(1)) == 13 && Width(InputLayout(2)) == 11 && Width(InputLayout(3)) == 13
    ensures Width(InputLayout(4)) == 14 && Width(InputLayout(5)) == 17 && Width(InputLayout(6)) == 10
  {
  }

  function InputTag(k: InputKind): u8 {
    match k
    case PointerMove(_, _) => 1
    case PointerButtonChange(_, _) => 2
    case Wheel(_, _) => 3
    case Key(_, _, _) => 4
    case Touch(_, _, _, _, _) => 5
    case Focus(_) => 6
  }

  function InputBody(k: InputKind): seq<nat> {
    match k
    case PointerMove(x, y) => [x, y]
    case PointerButtonChange(button, pressed) => [ButtonCode(button), BoolCode(pressed)]
    case Wheel(dx, dy) => [I16Bits(dx), I16Bits(dy)]
    case Key(usage, down, modifiers) => [usage, BoolCode(down), modifiers]
    case Touch(contact, phase, x, y, pressure) => [contact, PhaseCode(phase), x, y, pressure]
    case Focus(focused) => [BoolCode(focused)]
  }

  lemma InputFits(e: InputPayload)
    ensures 1 <= InputTag(e.kind) <= 6
    ensures Fits(InputLayout(InputTag(e.kind)), [e.timestampMicros, InputTag(e.kind)] + InputBody(e.kind))
  {
    Ranges();
  }

  function EncodeInput(e: InputPayload): Fallible<bytes> {
    var _ :- Check(e.kind.Valid());
    InputFits(e);
    Ok(Pack(InputLayout(InputTag(e.kind)), [e.timestampMicros, InputTag(e.kind)] + InputBody(e.kind)))
  }

  /** The event kind spelled by a tag and the fields of its body. */
  function InputKindFrom(tag: nat, f: seq<nat>): Fallible<InputKind>
    requires Fits(InputLayout(tag), f)
  {
    Ranges();
    match tag
    case 1 => Ok(PointerMove(f[2], f[3]))
    case 2 =>
      var button :- ButtonFromCode(f[2]);
      var pressed :- DecodeBool(f[3]);
      Ok(PointerButtonChange(button, pressed))
    case 3 => Ok(Wheel(I16FromBits(f[2]), I16FromBits(f[3])))
    case 4 =>
      var down :- DecodeBool(f[3]);
      var _ :- Check(f[4] < MODIFIER_LIMIT);
      Ok(Key(f[2], down, f[4]))
    case 5 =>
      var phase :- PhaseFromCode(f[3]);
      Ok(Touch(f[2], phase, f[4], f[5], f[6]))
    case 6 =>
      var focused :- DecodeBool(f[2]);
      Ok(Focus(focused))
    case _ => Err(InvalidPayload)
  }

  function DecodeInput(p: bytes): Fallible<InputPayload> {
    var _ :- Check(|p| >= INPUT_HEADER_LEN);
    Ranges();
    var tag := p[8];
    var _ :- Check(|p| == Width(InputLayout(tag)));
    var f := Unpack(InputLayout(tag), p);
    var kind :- InputKindFrom(tag, f);
    if kind.Valid() then Ok(InputPayload(f[0], kind)) else Err(InvalidPayload)
  }

  // ---- Telemetry (telemetry.rs) --------------------------------------------

  const MAX_STAGE_DURATION_MICROS: nat := 60_000_000
  const MAX_TELEMETRY_QUEUE_DEPTH: nat := 4_096
  const MAX_LOSS_PARTS_PER_MILLION: nat := 1_000_000

  datatype ThermalState = Unknown | Nominal | Fair | Serious | Critical

  function ThermalCode(t: ThermalState): u8 {
    match t
    case Unknown => 0
    case Nominal => 1
    case Fair => 2
    case Serious => 3
    case Critical => 4
  }

  function ThermalFromCode(code: nat): Fallible<ThermalState> {
    match code
    case 0 => Ok(Unknown)
    case 1 => Ok(Nominal)
    case 2 => Ok(Fair)
    case 3 => Ok(Serious)
    case 4 => Ok(Critical)
    case _ => Err(InvalidPayload)
  }

  datatype StageTimings = StageTimings(capture: u32, encode: u32, transport: u32, decode: u32, presentation: u32) {
    predicate Valid() {
      && capture <= MAX_STAGE_DURATION_MICROS && encode <= MAX_STAGE_DURATION_MICROS
      && transport <= MAX_STAGE_DURATION_MICROS && decode <= MAX_STAGE_DURATION_MICROS
      && presentation <= MAX_STAGE_DURATION_MICROS
    }
  }

  datatype TelemetryPayload = TelemetryPayload(
    sampleMicros: u64, frameId: u64, timings: StageTimings, queueDepth: u16, lossPpm: u32,
    droppedFrames: u32, lateFrames: u32, thermal: ThermalState)
  {
    predicate Valid() {
      timings.Valid() && queueDepth <= MAX_TELEMETRY_QUEUE_DEPTH && lossPpm <= MAX_LOSS_PARTS_PER_MILLION
    }
  }

  const TELEMETRY_LAYOUT: seq<nat> := [8, 8, 4, 4, 4, 4, 4, 2, 4, 4, 4, 1]
  const TELEMETRY_LEN: nat := 51

  lemma TelemetryWidth()
    ensures Width(TELEMETRY_LAYOUT) == TELEMETRY_LEN
  {
    assert Width([8, 8, 4, 4, 4, 4, 4, 2, 4, 4, 4, 1]) == 51;
  }

  function TelemetryFields(t: TelemetryPayload): (f: seq<nat>)
    ensures Fits(TELEMETRY_LAYOUT, f)
  {
    Ranges();
    var s := t.timings;
    [t.sampleMicros, t.frameId, s.capture, s.encode, s.transport, s.decode, s.presentation,
     t.queueDepth, t.lossPpm, t.droppedFrames, t.lateFrames, ThermalCode(t.thermal)]
  }

  function EncodeTelemetry(t: TelemetryPayload): Fallible<bytes> {
    var _ :- Check(t.Valid());
    Ok(Pack(TELEMETRY_LAYOUT, TelemetryFields(t)))
  }

  function TelemetryFromFields(f: seq<nat>): Fallible<TelemetryPayload>
    requires Fits(TELEMETRY_LAYOUT, f)
  {
    Ranges();
    var timings := StageTimings(f[2], f[3], f[4], f[5], f[6]);
    var _ :- Check(timings.Valid());
    var thermal :- ThermalFromCode(f[11]);
    var t := TelemetryPayload(f[0], f[1], timings, f[7], f[8], f[9], f[10], thermal);
    if t.Valid() then Ok(t) else Err(InvalidPayload)
  }

  function DecodeTelemetry(p: bytes): Fallible<TelemetryPayload> {
    var _ :- Check(|p| == TELEMETRY_LEN);
    TelemetryWidth();
    TelemetryFromFields(Unpack(TELEMETRY_LAYOUT, p))
  }

  // ---- Ping, Pong and ErrorMessage (control.rs) ----------------------------

  datatype PingPayload = PingPayload(token: u64, clientSendMicros: u64)

  const PING_LAYOUT: seq<nat> := [8, 8]
  const PING_LEN: nat := 16

  function EncodePing(m: PingPayload): Fallible<bytes> {
    Ranges();
    Ok(Pack(PING_LAYOUT, [m.token, m.clientSendMicros]))
  }

  function DecodePing(p: bytes): Fallible<PingPayload> {
    var _ :- Check(|p| == PING_LEN);
    Ranges();
    assert Width([8, 8]) == 16;
    var f := Unpack(PING_LAYOUT, p);
    Ok(PingPayload(f[0], f[1]))
  }

  datatype PongPayload = PongPayload(
    token: u64, clientSendMicros: u64, serverReceiveMicros: u64, serverSendMicros: u64)
  {
    predicate Valid() { serverReceiveMicros <= serverSendMicros }
  }

  const PONG_LAYOUT: seq<nat> := [8, 8, 8, 8]
  const PONG_LEN: nat := 32

  function EncodePong(m: PongPayload): Fallible<bytes> {
    var _ :- Check(m.Valid());
    Ranges();
    Ok(Pack(PONG_LAYOUT, [m.token, m.clientSendMicros, m.serverReceiveMicros, m.serverSendMicros]))
  }

  function DecodePong(p: bytes): Fallible<PongPayload> {
    var _ :- Check(|p| == PONG_LEN);
    Ranges();
    assert Width([8, 8, 8, 8]) == 32;
    var f := Unpack(PONG_LAYOUT, p);
    var m := PongPayload(f[0], f[1], f[2], f[3]);
    if m.Valid() then Ok(m) else Err(InvalidPayload)
  }

  datatype ErrorCode =
    | ProtocolViolation | Unsupported | ConfigurationRejected | Unauthorized | Busy
    | EncoderFailure | DecoderFailure | InputRejected | ResourceExhausted | Internal

  function ErrorCodeNumber(c: ErrorCode): u16 {
    match c
    case ProtocolViolation => 1
    case Unsupported => 2
    case ConfigurationRejected => 3
    case Unauthorized => 4
    case Busy => 5
    case EncoderFailure => 6
    case DecoderFailure => 7
    case InputRejected => 8
    case ResourceExhausted => 9
    case Internal => 10
  }

  function ErrorCodeFromNumber(n: nat): Fallible<ErrorCode> {
    match n
    case 1 => Ok(ProtocolViolation)
    case 2 => Ok(Unsupported)
    case 3 => Ok(ConfigurationRejected)
    case 4 => Ok(Unauthorized)
    case 5 => Ok(Busy)
    case 6 => Ok(EncoderFailure)
    case 7 => Ok(DecoderFailure)
    case 8 => Ok(InputRejected)
    case 9 => Ok(ResourceExhausted)
    case 10 => Ok(Internal)
    case _ => Err(InvalidPayload)
  }

  const MAX_ERROR_DIAGNOSTIC_BYTES: nat := 1_024
  const ERROR_LAYOUT: seq<nat> := [2, 1, 2]
  const ERROR_PREFIX_LEN: nat := 5

  datatype ErrorPayload = ErrorPayload(code: ErrorCode, retryable: bool, diagnostic: text) {
    predicate Valid() { |EncodeText(diagnostic)| <= MAX_ERROR_DIAGNOSTIC_BYTES && 0 !in diagnostic }
  }

  function EncodeError(e: ErrorPayload): Fallible<bytes> {
    var _ :- Check(e.Valid());
    Ranges();
    var diagnostic := EncodeText(e.diagnostic);
    Ok(Pack(ERROR_LAYOUT, [ErrorCodeNumber(e.code), BoolCode(e.retryable), |diagnostic|]) + diagnostic)
  }

  function DecodeError(p: bytes): Fallible<ErrorPayload> {
    var _ :- Check(ERROR_PREFIX_LEN <= |p| <= ERROR_PREFIX_LEN + MAX_ERROR_DIAGNOSTIC_BYTES);
    Ranges();
    assert Width([2, 1, 2]) == 5;
    var f := Unpack(ERROR_LAYOUT, p[..5]);
    var code :- ErrorCodeFromNumber(f[0]);
    var retryable :- DecodeBool(f[1]);
    var _ :- Check(|p| == ERROR_PREFIX_LEN + f[2]);
    match DecodeText(p[5..])
    case None => Err(InvalidUtf8)
    case Some(diagnostic) =>
      var e := ErrorPayload(code, retryable, diagnostic);
      if e.Valid() then Ok(e) else Err(InvalidPayload)
  }

  // ---- Any payload ----------------------------------------------------------

  datatype Payload =
    | HelloP(hello: HelloPayload)
    | CapabilitiesP(capabilities: CapabilitiesPayload)
    | DisplayConfigP(config: DisplayConfigPayload)
    | VideoFrameP(video: VideoFramePayload)
    | InputP(event: InputPayload)
    | TelemetryP(sample: TelemetryPayload)
    | PingP(ping: PingPayload)
    | PongP(pong: PongPayload)
    | ErrorP(message: ErrorPayload)
  {
    function Kind(): MessageType {
      match this
      case HelloP(_) => Hello
      case CapabilitiesP(_) => Capabilities
      case DisplayConfigP(_) => DisplayConfig
      case VideoFrameP(_) => VideoFrame
      case InputP(_) => Input
      case TelemetryP(_) => Telemetry
      case PingP(_) => Ping
      case PongP(_) => Pong
      case ErrorP(_) => MessageType.Error
    }

    /** What the payload constructors (`new`) accept. */
    predicate Valid() {
      match this
      case HelloP(h) => h.Valid()
      case CapabilitiesP(c) => c.Valid()
      case DisplayConfigP(d) => d.Valid()
      case VideoFrameP(v) => v.Valid()
      case InputP(e) => e.kind.Valid()
      case TelemetryP(t) => t.Valid()
      case PingP(_) => true
      case PongP(m) => m.Valid()
      case ErrorP(e) => e.Valid()
    }
  }

  function EncodePayload(p: Payload): Fallible<bytes>
    requires p.Valid()
  {
    match p
    case HelloP(h) => EncodeHello(h)
    case CapabilitiesP(c) => EncodeCapabilities(c)
    case DisplayConfigP(d) => EncodeDisplayConfig(d)
    case VideoFrameP(v) => EncodeVideoFrame(v)
    case InputP(e) => EncodeInput(e)
    case TelemetryP(t) => EncodeTelemetry(t)
    case PingP(m) => EncodePing(m)
    case PongP(m) => EncodePong(m)
    case ErrorP(e) => EncodeError(e)
  }

  function Tagged<T, U>(r: Fallible<T>, tag: T -> U): Fallible<U> {
    match r
    case Ok(value) => Ok(tag(value))
    case Err(e) => Err(e)
  }

  function DecodePayload(kind: MessageType, b: bytes): Fallible<Payload> {
    match kind
    case Hello => Tagged(DecodeHello(b), v => HelloP(v))
    case Capabilities => Tagged(DecodeCapabilities(b), v => CapabilitiesP(v))
    case DisplayConfig => Tagged(DecodeDisplayConfig(b), v => DisplayConfigP(v))
    case VideoFrame => Tagged(DecodeVideoFrame(b), v => VideoFrameP(v))
    case Input => Tagged(DecodeInput(b), v => InputP(v))
    case Telemetry => Tagged(DecodeTelemetry(b), v => TelemetryP(v))
    case Ping => Tagged(DecodePing(b), v => PingP(v))
    case Pong => Tagged(DecodePong(b), v => PongP(v))
    case Error => Tagged(DecodeError(b), v => ErrorP(v))
  }

  // ---- Two-way round trips ---------------------------------------------------

  lemma HelloRoundTrip(h: HelloPayload)
    requires h.Valid()
    ensures EncodeHello(h).Ok? && DecodeHello(EncodeHello(h).value) == Ok(h)
  {
    hide Pack, Unpack, EncodeText, DecodeText, Range;
    var name := EncodeText(h.name);
    Ranges();
    var fields := [h.minProtocol, h.maxProtocol, RoleCode(h.role), |name|];
    var p := EncodeHello(h).value;
    assert Width([2, 2, 1, 1]) == 6;
    assert p[..6] == Pack(HELLO_LAYOUT, fields);
    UnpackPack(HELLO_LAYOUT, fields);
    assert p[6..22] == h.nonce;
    assert p[22..] == name;
    TextRoundTrip(h.name);
  }

  lemma HelloCanonical(p: bytes)
    requires DecodeHello(p).Ok?
    ensures DecodeHello(p).value.Valid() && EncodeHello(DecodeHello(p).value) == Ok(p)
  {
    hide Pack, Unpack, DecodeText, EncodeText;
    var h := DecodeHello(p).value;
    PrefixWidths();
    TextCanonical(p[22..]);
    PackUnpack(HELLO_LAYOUT, p[..6]);
    var f := Unpack(HELLO_LAYOUT, p[..6]);
    assert f == [h.minProtocol, h.maxProtocol, RoleCode(h.role), |EncodeText(h.name)|];
    assert p == p[..6] + p[6..22] + p[22..];
  }

  lemma CapabilitiesRoundTrip(c: CapabilitiesPayload)
    requires c.Valid()
    ensures EncodeCapabilities(c).Ok? && DecodeCapabilities(EncodeCapabilities(c).value) == Ok(c)
  {
    hide Pack, Unpack, Range;
    Ranges();
    assert Width([2, 2, 4, 4, 2, 2, 4]) == 20;
    UnpackPack(CAPABILITIES_LAYOUT,
               [c.maxWidth, c.maxHeight, c.maxRefreshMillihz, c.maxBitrateKbps, c.codecs, c.input, c.features]);
  }

  lemma CapabilitiesCanonical(p: bytes)
    requires DecodeCapabilities(p).Ok?
    ensures var c := DecodeCapabilities(p).value; c.Valid() && EncodeCapabilities(c) == Ok(p)
  {
    hide Pack, Unpack;
    var c := DecodeCapabilities(p).value;
    PackUnpack(CAPABILITIES_LAYOUT, p);
    assert Unpack(CAPABILITIES_LAYOUT, p) ==
           [c.maxWidth, c.maxHeight, c.maxRefreshMillihz, c.maxBitrateKbps, c.codecs, c.input, c.features];
  }

  lemma DisplayConfigRoundTrip(d: DisplayConfigPayload)
    requires d.Valid()
    ensures EncodeDisplayConfig(d).Ok? && DecodeDisplayConfig(EncodeDisplayConfig(d).value) == Ok(d)
  {
    hide Pack, Unpack, Range;
    Ranges();
    assert Width([2, 2, 4, 4, 1, 1]) == 14;
    UnpackPack(DISPLAY_CONFIG_LAYOUT,
               [d.width, d.height, d.refreshMillihz, d.bitrateKbps, CodecCode(d.codec), ProfileCode(d.profile)]);
  }

  lemma DisplayConfigCanonical(p: bytes)
    requires DecodeDisplayConfig(p).Ok?
    ensures var d := DecodeDisplayConfig(p).value; d.Valid() && EncodeDisplayConfig(d) == Ok(p)
  {
    hide Pack, Unpack;
    var d := DecodeDisplayConfig(p).value;
    PackUnpack(DISPLAY_CONFIG_LAYOUT, p);
    assert Unpack(DISPLAY_CONFIG_LAYOUT, p) ==
           [d.width, d.height, d.refreshMillihz, d.bitrateKbps, CodecCode(d.codec), ProfileCode(d.profile)];
  }

  lemma VideoFrameRoundTrip(v: VideoFramePayload)
    requires v.Valid()
    ensures EncodeVideoFrame(v).Ok? && DecodeVideoFrame(EncodeVideoFrame(v).value) == Ok(v)
  {
    hide Pack, Unpack, Range;
    Ranges();
    assert Width([8, 8, 8, 4]) == 28;
    var fields := [v.frameId, v.captureMicros, v.presentationMicros, v.durationMicros];
    var p := EncodeVideoFrame(v).value;
    UnpackPack(VIDEO_FRAME_LAYOUT, fields);
    assert p[..28] == Pack(VIDEO_FRAME_LAYOUT, fields);
    assert p[28..] == v.encoded;
  }

  lemma VideoFrameCanonical(p: bytes)
    requires DecodeVideoFrame(p).Ok?
    ensures var v := DecodeVideoFrame(p).value; v.Valid() && EncodeVideoFrame(v) == Ok(p)
  {
    hide Pack, Unpack;
    var v := DecodeVideoFrame(p).value;
    assert Width([8, 8, 8, 4]) == 28;
    PackUnpack(VIDEO_FRAME_LAYOUT, p[..28]);
    assert Unpack(VIDEO_FRAME_LAYOUT, p[..28]) == [v.frameId, v.captureMicros, v.presentationMicros, v.durationMicros];
    assert p == p[..28] + p[28..];
  }

  lemma KindRoundTrip(e: InputPayload)
    requires e.kind.Valid()
    ensures var tag := InputTag(e.kind); var fields := [e.timestampMicros, tag] + InputBody(e.kind);
      Fits(InputLayout(tag), fields) && InputKindFrom(tag, fields) == Ok(e.kind)
  {
    InputFits(e);
  }

  lemma InputRoundTrip(e: InputPayload)
    requires e.kind.Valid()
    ensures EncodeInput(e).Ok? && DecodeInput(EncodeInput(e).value) == Ok(e)
  {
    hide Pack, Unpack, Range, InputBody, InputLayout, InputKindFrom, InputTag, Width;
    var tag := InputTag(e.kind);
    var fields := [e.timestampMicros, tag] + InputBody(e.kind);
    InputFits(e);
    InputWidths();
    KindRoundTrip(e);
    var p := EncodeInput(e).value;
    UnpackPack(InputLayout(tag), fields);
    TagIsByteEight(p, tag);
  }

  /** Every layout starts with the event time and the tag. */
  lemma InputHeads(tag: nat)
    requires 1 <= tag <= 6
    ensures var layout := InputLayout(tag); |layout| >= 2 && layout[0] == 8 && layout[1] == 1 && Width(layout) > 8
  {
    InputWidths();
  }

  lemma TagIsByteEight(p: bytes, tag: nat)
    requires 1 <= tag <= 6 && |p| == Width(InputLayout(tag))
    ensures |p| > 8 && Unpack(InputLayout(tag), p)[1] == p[8]
  {
    hide InputLayout, Unpack, Width;
    InputHeads(tag);
    var layout := InputLayout(tag);
    FieldAtOffset(layout, p, 1);
    SecondOffset(layout);
    assert p[8..][..1] == [p[8]];
    OneByte(p[8]);
  }

  lemma SecondOffset(layout: seq<nat>)
    requires |layout| >= 1
    ensures OffsetOf(layout, 1) == layout[0]
  {
  }

  lemma OneByte(b: u8)
    ensures FromBe([b]) == b
  {
  }

  lemma InputCanonical(p: bytes)
    requires DecodeInput(p).Ok?
    ensures var e := DecodeInput(p).value; e.kind.Valid() && EncodeInput(e) == Ok(p)
  {
    hide Pack, Unpack;
    var e := DecodeInput(p).value;
    var tag := p[8];
    TagIsByteEight(p, tag);
    PackUnpack(InputLayout(tag), p);
    var f := Unpack(InputLayout(tag), p);
    BodyCanonical(tag, f);
    assert f[..2] == [e.timestampMicros, InputTag(e.kind)];
  }

  lemma BodyCanonical(tag: nat, f: seq<nat>)
    requires Fits(InputLayout(tag), f) && InputKindFrom(tag, f).Ok?
    ensures var kind := InputKindFrom(tag, f).value;
      InputTag(kind) == tag && f == f[..2] + InputBody(kind)
  {
    Ranges();
  }

  lemma TelemetryFieldsInvert(t: TelemetryPayload, f: seq<nat>)
    requires Fits(TELEMETRY_LAYOUT, f)
    ensures f == TelemetryFields(t) && t.Valid() ==> TelemetryFromFields(f) == Ok(t)
    ensures TelemetryFromFields(f) == Ok(t) ==> t.Valid() && f == TelemetryFields(t)
  {
  }

  lemma TelemetryRoundTrip(t: TelemetryPayload)
    requires t.Valid()
    ensures EncodeTelemetry(t).Ok? && DecodeTelemetry(EncodeTelemetry(t).value) == Ok(t)
  {
    hide Pack, Unpack, TelemetryFields, TelemetryFromFields, Width;
    TelemetryWidth();
    TelemetryFieldsInvert(t, TelemetryFields(t));
    UnpackPack(TELEMETRY_LAYOUT, TelemetryFields(t));
  }

  lemma TelemetryCanonical(p: bytes)
    requires DecodeTelemetry(p).Ok?
    ensures var t := DecodeTelemetry(p).value; t.Valid() && EncodeTelemetry(t) == Ok(p)
  {
    hide Pack, Unpack, TelemetryFields, TelemetryFromFields, Width;
    TelemetryWidth();
    PackUnpack(TELEMETRY_LAYOUT, p);
    TelemetryFieldsInvert(DecodeTelemetry(p).value, Unpack(TELEMETRY_LAYOUT, p));
  }

  lemma PingRoundTrip(m: PingPayload)
    ensures EncodePing(m).Ok? && DecodePing(EncodePing(m).value) == Ok(m)
  {
    hide Pack, Unpack, Range;
    Ranges();
    assert Width([8, 8]) == 16;
    UnpackPack(PING_LAYOUT, [m.token, m.clientSendMicros]);
  }

  lemma PingCanonical(p: bytes)
    requires DecodePing(p).Ok?
    ensures EncodePing(DecodePing(p).value) == Ok(p)
  {
    hide Pack, Unpack;
    var m := DecodePing(p).value;
    PackUnpack(PING_LAYOUT, p);
    assert Unpack(PING_LAYOUT, p) == [m.token, m.clientSendMicros];
  }

  lemma PongRoundTrip(m: PongPayload)
    requires m.Valid()
    ensures EncodePong(m).Ok? && DecodePong(EncodePong(m).value) == Ok(m)
  {
    hide Pack, Unpack, Range;
    Ranges();
    assert Width([8, 8, 8, 8]) == 32;
    UnpackPack(PONG_LAYOUT, [m.token, m.clientSendMicros, m.serverReceiveMicros, m.serverSendMicros]);
  }

  lemma PongCanonical(p: bytes)
    requires DecodePong(p).Ok?
    ensures var m := DecodePong(p).value; m.Valid() && EncodePong(m) == Ok(p)
  {
    hide Pack, Unpack;
    var m := DecodePong(p).value;
    PackUnpack(PONG_LAYOUT, p);
    assert Unpack(PONG_LAYOUT, p) == [m.token, m.clientSendMicros, m.serverReceiveMicros, m.serverSendMicros];
  }

  lemma ErrorRoundTrip(e: ErrorPayload)
    requires e.Valid()
    ensures EncodeError(e).Ok? && DecodeError(EncodeError(e).value) == Ok(e)
  {
    hide Pack, Unpack, EncodeText, DecodeText, Range;
    Ranges();
    assert Width([2, 1, 2]) == 5;
    var diagnostic := EncodeText(e.diagnostic);
    var fields := [ErrorCodeNumber(e.code), BoolCode(e.retryable), |diagnostic|];
    var p := EncodeError(e).value;
    UnpackPack(ERROR_LAYOUT, fields);
    assert p[..5] == Pack(ERROR_LAYOUT, fields);
    assert p[5..] == diagnostic;
    TextRoundTrip(e.diagnostic);
  }

  lemma ErrorCanonical(p: bytes)
    requires DecodeError(p).Ok?
    ensures var e := DecodeError(p).value; e.Valid() && EncodeError(e) == Ok(p)
  {
    hide Pack, Unpack, DecodeText, EncodeText;
    var e := DecodeError(p).value;
    TextCanonical(p[5..]);
    assert Width([2, 1, 2]) == 5;
    PackUnpack(ERROR_LAYOUT, p[..5]);
    assert Unpack(ERROR_LAYOUT, p[..5]) ==
           [ErrorCodeNumber(e.code), BoolCode(e.retryable), |EncodeText(e.diagnostic)|];
    assert p == p[..5] + p[5..];
  }

  lemma PrefixWidths()
    ensures Width(HELLO_LAYOUT) == 6 && Width(VIDEO_FRAME_LAYOUT) == 28 && Width(ERROR_LAYOUT) == 5
    ensures Width(CAPABILITIES_LAYOUT) == 20 && Width(DISPLAY_CONFIG_LAYOUT) == 14
    ensures Width(PING_LAYOUT) == 16 && Width(PONG_LAYOUT) == 32
  {
    assert Width([2, 2, 1, 1]) == 6 && Width([8, 8, 8, 4]) == 28 && Width([2, 1, 2]) == 5;
    assert Width([2, 2, 4, 4, 2, 2, 4]) == 20 && Width([2, 2, 4, 4, 1, 1]) == 14;
    assert Width([8, 8]) == 16 && Width([8, 8, 8, 8]) == 32;
  }

  /** Every valid payload of the nine families encodes within its frame limit,
      and decoding what was encoded gives it back. */
  lemma PayloadRoundTrip(p: Payload)
    requires p.Valid()
    ensures EncodePayload(p).Ok?
    ensures |EncodePayload(p).value| <= PayloadLimit(p.Kind())
    ensures DecodePayload(p.Kind(), EncodePayload(p).value) == Ok(p)
  {
    hide Pack, Unpack, Range, EncodeText, DecodeText, Width;
    hide DecodeHello, DecodeCapabilities, DecodeDisplayConfig, DecodeVideoFrame, DecodeInput,
         DecodeTelemetry, DecodePing, DecodePong, DecodeError;
    PrefixWidths();
    match p
    case HelloP(h) => HelloRoundTrip(h);
    case CapabilitiesP(c) => CapabilitiesRoundTrip(c);
    case DisplayConfigP(d) => DisplayConfigRoundTrip(d);
    case VideoFrameP(v) => VideoFrameRoundTrip(v);
    case InputP(e) => InputRoundTrip(e); InputFits(e); InputWidths();
    case TelemetryP(t) => TelemetryRoundTrip(t); TelemetryWidth();
    case PingP(m) => PingRoundTrip(m);
    case PongP(m) => PongRoundTrip(m);
    case ErrorP(e) => ErrorRoundTrip(e);
  }

  /** Bytes that decode are the only spelling of the payload they decode to. */
  lemma PayloadCanonical(kind: MessageType, b: bytes)
    requires DecodePayload(kind, b).Ok?
    ensures var p := DecodePayload(kind, b).value;
      p.Kind() == kind && p.Valid() && EncodePayload(p) == Ok(b)
  {
    hide DecodeHello, DecodeCapabilities, DecodeDisplayConfig, DecodeVideoFrame, DecodeInput,
         DecodeTelemetry, DecodePing, DecodePong, DecodeError, EncodeHello, EncodeCapabilities,
         EncodeDisplayConfig, EncodeVideoFrame, EncodeInput, EncodeTelemetry, EncodePing, EncodePong,
         EncodeError;
    match kind
    case Hello => HelloCanonical(b);
    case Capabilities => CapabilitiesCanonical(b);
    case DisplayConfig => DisplayConfigCanonical(b);
    case VideoFrame => VideoFrameCanonical(b);
    case Input => InputCanonical(b);
    case Telemetry => TelemetryCanonical(b);
    case Ping => PingCanonical(b);
    case Pong => PongCanonical(b);
    case Error => ErrorCanonical(b);
  }

  /** `Frame::from_payload`. */
  function FrameFromPayload(flags: u16, sequence: u64, p: Payload): Fallible<Frame>
    requires flags < FLAG_LIMIT && p.Valid()
  {
    var payload :- EncodePayload(p);
    NewFrame(p.Kind(), flags, sequence, payload)
  }

  /** `Frame::decode_payload`, for the payload family `expected`. */
  function PayloadFromFrame(expected: MessageType, f: Frame): Fallible<Payload> {
    if f.header.kind != expected then Err(UnexpectedMessageType(expected, f.header.kind))
    else DecodePayload(expected, f.payload)
  }

  /** From payload to wire bytes and back, with anything after them: the typed
      message a peer decodes is the one that was sent. */
  lemma WireRoundTrip(flags: u16, sequence: u64, p: Payload, tail: bytes)
    requires flags < FLAG_LIMIT && p.Valid()
    ensures FrameFromPayload(flags, sequence, p).Ok?
    ensures var f := FrameFromPayload(flags, sequence, p).value;
      && f.header == FrameHeader(p.Kind(), flags, sequence, |f.payload|)
      && DecodePrefix(EncodeFrame(f) + tail) == Ok(Complete(f, f.EncodedLen()))
      && PayloadFromFrame(p.Kind(), f) == Ok(p)
  {
    PayloadRoundTrip(p);
    FrameRoundTrip(FrameFromPayload(flags, sequence, p).value, tail);
  }
}
