/** The LDFL frame codec and its incremental decoder
    (crates/ladoflow-protocol/src/frame.rs). */
module Frames {
  import opened Wrappers
  import opened Words

  const FRAME_MAGIC: bytes := [0x4C, 0x44, 0x46, 0x4C]
  const FRAME_HEADER_LEN: nat := 24
  const PROTOCOL_VERSION: u16 := 1
  const MAX_CONTROL_PAYLOAD: nat := 64 * 1024
  const MAX_MEDIA_PAYLOAD: nat := 16 * 1024 * 1024
  const MAX_BUFFERED_BYTES: nat := 2 * (FRAME_HEADER_LEN + MAX_MEDIA_PAYLOAD)

  /** Widths of the six header fields that follow the magic. */
  const HEADER_LAYOUT: seq<nat> := [2, 2, 2, 2, 8, 4]

  datatype MessageType =
    Hello | Capabilities | DisplayConfig | VideoFrame | Input | Telemetry | Ping | Pong | Error

  datatype ProtocolError =
    | InvalidMagic(found: bytes)
    | InvalidHeaderLength(headerLen: u16)
    | UnsupportedVersion(version: u16)
    | UnknownMessageType(code: u16)
    | UnknownFrameFlags(bits: u16)
    | PayloadTooLarge(kind: MessageType, length: nat, limit: nat)
    | BufferLimitExceeded(attempted: nat, limit: nat)
    | UnexpectedMessageType(expected: MessageType, actual: MessageType)
    | InvalidPayload
    | InvalidUtf8

  function PayloadLimit(kind: MessageType): nat {
    if kind.VideoFrame? then MAX_MEDIA_PAYLOAD else MAX_CONTROL_PAYLOAD
  }

  function KindCode(kind: MessageType): u16 {
    match kind
    case Hello => 1
    case Capabilities => 2
    case DisplayConfig => 3
    case VideoFrame => 4
    case Input => 5
    case Telemetry => 6
    case Ping => 7
    case Pong => 8
    case Error => 9
  }

  function KindFromCode(code: u16): Result<MessageType, ProtocolError> {
    match code
    case 1 => Ok(Hello)
    case 2 => Ok(Capabilities)
    case 3 => Ok(DisplayConfig)
    case 4 => Ok(VideoFrame)
    case 5 => Ok(Input)
    case 6 => Ok(Telemetry)
    case 7 => Ok(Ping)
    case 8 => Ok(Pong)
    case 9 => Ok(Error)
    case _ => Err(UnknownMessageType(code))
  }

  /** The three known flags are the three low bits, so `bits & !KNOWN_MASK == 0`
      says that the value is below 8. */
  const FLAG_LIMIT: nat := 8

  datatype FrameHeader = FrameHeader(kind: MessageType, flags: u16, sequence: u64, payloadLen: u32) {
    ghost predicate Valid() { flags < FLAG_LIMIT && payloadLen <= PayloadLimit(kind) }
  }

  datatype Frame = Frame(header: FrameHeader, payload: bytes) {
    ghost predicate Valid() { header.Valid() && |payload| == header.payloadLen }

    function EncodedLen(): nat { FRAME_HEADER_LEN + |payload| }
  }

  /** `Frame::new`: the declared length is derived from the payload. */
  function NewFrame(kind: MessageType, flags: u16, sequence: u64, payload: bytes): (r: Result<Frame, ProtocolError>)
    requires flags < FLAG_LIMIT
    ensures r.Ok? <==> |payload| <= PayloadLimit(kind)
    ensures r.Ok? ==> r.value.Valid()
  {
    if |payload| > PayloadLimit(kind)
    then Err(PayloadTooLarge(kind, |payload|, PayloadLimit(kind)))
    else Ok(Frame(FrameHeader(kind, flags, sequence, |payload|), payload))
  }

  function HeaderFields(h: FrameHeader): (fields: seq<nat>)
    ensures Fits(HEADER_LAYOUT, fields)
  {
    Ranges();
    [PROTOCOL_VERSION, FRAME_HEADER_LEN, KindCode(h.kind), h.flags, h.sequence, h.payloadLen]
  }

  function EncodeHeader(h: FrameHeader): (b: bytes)
    ensures |b| == FRAME_HEADER_LEN
  {
    HeaderWidth();
    FRAME_MAGIC + Pack(HEADER_LAYOUT, HeaderFields(h))
  }

  lemma HeaderWidth()
    ensures Width(HEADER_LAYOUT) == 20
  {
    assert Width([2, 2, 2, 2, 8, 4]) == 20;
  }

  function EncodeFrame(f: Frame): bytes {
    EncodeHeader(f.header) + f.payload
  }

  function DecodeHeader(b: bytes): Result<FrameHeader, ProtocolError>
    requires |b| == FRAME_HEADER_LEN
  {
    HeaderWidth();
    Ranges();
    if b[..4] != FRAME_MAGIC then Err(InvalidMagic(b[..4])) else
    var fields := Unpack(HEADER_LAYOUT, b[4..]);
    var version: u16, headerLen: u16 := fields[0], fields[1];
    if version != PROTOCOL_VERSION then Err(UnsupportedVersion(version)) else
    if headerLen != FRAME_HEADER_LEN then Err(InvalidHeaderLength(headerLen)) else
    var kind :- KindFromCode(fields[2]);
    var flags: u16 := fields[3];
    if flags >= FLAG_LIMIT then Err(UnknownFrameFlags(flags)) else
    var payloadLen: u32 := fields[5];
    if payloadLen > PayloadLimit(kind)
    then Err(PayloadTooLarge(kind, payloadLen, PayloadLimit(kind)))
    else Ok(FrameHeader(kind, flags, fields[4], payloadLen))
  }

  datatype DecodeOutcome =
    | Complete(frame: Frame, consumed: nat)
    | NeedMoreData(minimum: nat)

  /** Decode the first frame of `b`; partial input is not an error. */
  function DecodePrefix(b: bytes): Result<DecodeOutcome, ProtocolError> {
    if |b| < FRAME_HEADER_LEN then Ok(NeedMoreData(FRAME_HEADER_LEN)) else
    var header :- DecodeHeader(b[..FRAME_HEADER_LEN]);
    var total := FRAME_HEADER_LEN + header.payloadLen;
    if |b| < total then Ok(NeedMoreData(total))
    else Ok(Complete(Frame(header, b[FRAME_HEADER_LEN..total]), total))
  }

  // ---- Codec round trip and canonicity -------------------------------------

  lemma HeaderRoundTrip(h: FrameHeader)
    requires h.Valid()
    ensures DecodeHeader(EncodeHeader(h)) == Ok(h)
  {
    hide Pack, Unpack, Range;
    HeaderWidth();
    Ranges();
    var b := EncodeHeader(h);
    assert b[..4] == FRAME_MAGIC;
    assert b[4..] == Pack(HEADER_LAYOUT, HeaderFields(h));
    UnpackPack(HEADER_LAYOUT, HeaderFields(h));
  }

  /** A header that decodes is the only spelling of the header it decodes to. */
  lemma HeaderCanonical(b: bytes)
    requires |b| == FRAME_HEADER_LEN && DecodeHeader(b).Ok?
    ensures DecodeHeader(b).value.Valid()
    ensures EncodeHeader(DecodeHeader(b).value) == b
  {
    HeaderWidth();
    Ranges();
    var h := DecodeHeader(b).value;
    var fields := Unpack(HEADER_LAYOUT, b[4..]);
    assert KindFromCode(fields[2]) == Ok(h.kind);
    assert KindCode(h.kind) == fields[2];
    assert fields == HeaderFields(h);
    PackUnpack(HEADER_LAYOUT, b[4..]);
    assert b == b[..4] + b[4..];
  }

  /** Decoding an encoded frame followed by any bytes returns that frame and
      its exact length. */
  lemma FrameRoundTrip(f: Frame, tail: bytes)
    requires f.Valid()
    ensures DecodePrefix(EncodeFrame(f) + tail) == Ok(Complete(f, f.EncodedLen()))
    ensures |EncodeFrame(f)| == f.EncodedLen()
  {
    var b := EncodeFrame(f) + tail;
    assert b[..FRAME_HEADER_LEN] == EncodeHeader(f.header);
    HeaderRoundTrip(f.header);
    assert b[FRAME_HEADER_LEN..f.EncodedLen()] == f.payload;
  }

  /** A decoded frame is valid and re-encodes to exactly the bytes consumed. */
  lemma FrameCanonical(b: bytes)
    requires DecodePrefix(b).Ok? && DecodePrefix(b).value.Complete?
    ensures var c := DecodePrefix(b).value;
      && c.frame.Valid() && c.consumed == c.frame.EncodedLen() <= |b|
      && EncodeFrame(c.frame) == b[..c.consumed]
  {
    var c := DecodePrefix(b).value;
    HeaderCanonical(b[..FRAME_HEADER_LEN]);
    assert b[..c.consumed] == b[..FRAME_HEADER_LEN] + b[FRAME_HEADER_LEN..c.consumed];
  }

  /** Bytes appended after a complete frame or after a bad header change nothing. */
  lemma AppendKeepsVerdict(b: bytes, more: bytes)
    requires DecodePrefix(b).Err? || DecodePrefix(b).value.Complete?
    ensures DecodePrefix(b + more) == DecodePrefix(b)
  {
    assert (b + more)[..FRAME_HEADER_LEN] == b[..FRAME_HEADER_LEN];
    if DecodePrefix(b).Ok? {
      var total := DecodePrefix(b).value.consumed;
      assert (b + more)[FRAME_HEADER_LEN..total] == b[FRAME_HEADER_LEN..total];
    }
  }

  /** The reported minimum is exact: no shorter extension completes, and once
      the header is known every extension that reaches it does. */
  lemma MinimumIsTight(b: bytes, more: bytes)
    requires DecodePrefix(b).Ok? && DecodePrefix(b).value.NeedMoreData?
    ensures var minimum := DecodePrefix(b).value.minimum;
      && |b| < minimum && (|b| < FRAME_HEADER_LEN ==> minimum == FRAME_HEADER_LEN)
      && (|b + more| < minimum ==> DecodePrefix(b + more) == DecodePrefix(b))
      && (|b| >= FRAME_HEADER_LEN && |b + more| >= minimum ==>
            DecodePrefix(b + more).Ok? && DecodePrefix(b + more).value.Complete?
            && DecodePrefix(b + more).value.consumed == minimum)
  {
    if |b| >= FRAME_HEADER_LEN {
      assert (b + more)[..FRAME_HEADER_LEN] == b[..FRAME_HEADER_LEN];
    }
  }

  // ---- One-shot decoding of a whole stream ---------------------------------

  /** Every complete frame at the front of a stream, the bytes after them, and
      the error of the header that follows, if it is a bad one. */
  datatype Scanned = Scanned(frames: seq<Frame>, rest: bytes, error: Option<ProtocolError>)

  function Scan(b: bytes): Scanned
    decreases |b|
  {
    match DecodePrefix(b)
    case Err(e) => Scanned([], b, Some(e))
    case Ok(NeedMoreData(_)) => Scanned([], b, None)
    case Ok(Complete(frame, consumed)) =>
      var s := Scan(b[consumed..]);
      Scanned([frame] + s.frames, s.rest, s.error)
  }

  /** The bytes of a list of frames, one after the other. */
  function EncodeAll(frames: seq<Frame>): bytes {
    if frames == [] then [] else EncodeFrame(frames[0]) + EncodeAll(frames[1..])
  }

  ghost predicate AllValid(frames: seq<Frame>) {
    forall i :: 0 <= i < |frames| ==> frames[i].Valid()
  }

  lemma CompleteFits(b: bytes)
    requires DecodePrefix(b).Ok? && DecodePrefix(b).value.Complete?
    ensures 0 < DecodePrefix(b).value.consumed <= |b|
  {
  }

  lemma ScanStep(b: bytes)
    requires DecodePrefix(b).Ok? && DecodePrefix(b).value.Complete?
    ensures 0 < DecodePrefix(b).value.consumed <= |b|
    ensures var c := DecodePrefix(b).value; var s := Scan(b[c.consumed..]);
      Scan(b) == Scanned([c.frame] + s.frames, s.rest, s.error)
  {
  }

  lemma ScanStops(b: bytes)
    requires DecodePrefix(b).Err? || DecodePrefix(b).value.NeedMoreData?
    ensures Scan(b) == Scanned([], b, if DecodePrefix(b).Err? then Some(DecodePrefix(b).error) else None)
  {
    hide DecodePrefix;
  }

  lemma EncodeAllCons(f: Frame, frames: seq<Frame>)
    ensures EncodeAll([f] + frames) == EncodeFrame(f) + EncodeAll(frames)
  {
    hide EncodeFrame;
    assert ([f] + frames)[1..] == frames;
  }

  /** Scanning splits a stream into valid frames and a remainder that yields
      nothing further, without losing or inventing a byte. */
  lemma {:induction false} ScanPartitions(b: bytes)
    ensures var s := Scan(b);
      && AllValid(s.frames) && b == EncodeAll(s.frames) + s.rest
      && (s.error.None? ==> DecodePrefix(s.rest).Ok? && DecodePrefix(s.rest).value.NeedMoreData?)
      && (s.error.Some? ==> DecodePrefix(s.rest) == Err(s.error.value))
    decreases |b|
  {
    hide DecodePrefix, EncodeFrame;
    var d := DecodePrefix(b);
    if d.Ok? && d.value.Complete? {
      FrameCanonical(b);
      ScanStep(b);
      var f, tail := d.value.frame, b[d.value.consumed..];
      ScanPartitions(tail);
      var t := Scan(tail);
      EncodeAllCons(f, t.frames);
      hide Scan, Frame.Valid, EncodeAll;
      assert b == b[..d.value.consumed] + tail;
      Associate(EncodeFrame(f), EncodeAll(t.frames), t.rest);
    } else {
      ScanStops(b);
      assert EncodeAll([]) + b == b;
    }
  }

  /** What a successful scan leaves behind is shorter than one largest frame. */
  lemma RemainderIsBounded(b: bytes)
    requires Scan(b).error.None?
    ensures |Scan(b).rest| < FRAME_HEADER_LEN + MAX_MEDIA_PAYLOAD
  {
    ScanPartitions(b);
    var rest := Scan(b).rest;
    if |rest| >= FRAME_HEADER_LEN {
      HeaderCanonical(rest[..FRAME_HEADER_LEN]);
    }
  }

  /** Scanning more of a stream continues from what the first scan left over. */
  lemma {:induction false} ScanAppend(b: bytes, more: bytes)
    ensures var s := Scan(b); var t := Scan(b + more);
      if s.error.Some? then t.frames == s.frames && t.error == s.error
      else var u := Scan(s.rest + more);
        t == Scanned(s.frames + u.frames, u.rest, u.error)
    decreases |b|
  {
    hide DecodePrefix;
    var d := DecodePrefix(b);
    if d.Err? {
      AppendKeepsVerdict(b, more);
    } else if d.value.Complete? {
      AppendKeepsVerdict(b, more);
      CompleteFits(b);
      var f, n := d.value.frame, d.value.consumed;
      ScanAppend(b[n..], more);
      assert (b + more)[n..] == b[n..] + more;
      ScanStep(b);
      ScanStep(b + more);
      hide Scan;
      var s' := Scan(b[n..]);
      var u := Scan(s'.rest + more);
      assert [f] + (s'.frames + u.frames) == [f] + s'.frames + u.frames;
    } else {
      var t := Scan(b + more);
      assert [] + t.frames == t.frames;
    }
  }

  /** Scanning the encoding of valid frames, cut anywhere, returns exactly the
      frames that are whole and never reports an error. */
  lemma {:induction false} ScanOfEncoded(frames: seq<Frame>, b: bytes)
    requires AllValid(frames) && b <= EncodeAll(frames)
    ensures var s := Scan(b);
      && s.error.None? && s.frames <= frames
      && s.rest <= EncodeAll(frames[|s.frames|..])
      && (b == EncodeAll(frames) ==> s.frames == frames && s.rest == [])
  {
    hide DecodeHeader, EncodeHeader;
    if frames == [] {
      assert b == [];
    } else {
      var f, tail := frames[0], EncodeAll(frames[1..]);
      FrameRoundTrip(f, tail);
      var n := f.EncodedLen();
      if |b| >= n {
        assert b == EncodeFrame(f) + b[n..];
        FrameRoundTrip(f, b[n..]);
        assert b[n..] <= tail by {
          assert EncodeAll(frames)[n..|b|] == tail[..|b| - n];
        }
        ScanOfEncoded(frames[1..], b[n..]);
        var s, t := Scan(b), Scan(b[n..]);
        assert s.frames == [f] + t.frames;
        assert frames == [f] + frames[1..];
        assert frames[|s.frames|..] == frames[1..][|t.frames|..];
      } else {
        IncompleteFrame(f, b);
        assert frames[0..] == frames;
      }
    }
  }

  lemma IncompleteFrame(f: Frame, b: bytes)
    requires f.Valid() && b <= EncodeFrame(f) && |b| < f.EncodedLen()
    ensures DecodePrefix(b).Ok? && DecodePrefix(b).value.NeedMoreData?
  {
    if |b| >= FRAME_HEADER_LEN {
      assert b[..FRAME_HEADER_LEN] == EncodeFrame(f)[..FRAME_HEADER_LEN] == EncodeHeader(f.header);
      HeaderRoundTrip(f.header);
    }
  }

  // ---- Incremental decoding ------------------------------------------------

  /** The result and the new buffer of one `FrameDecoder::push`. A decoding
      failure discards the frames found before it and keeps the whole buffer. */
  function PushChunk(buffer: bytes, limit: nat, chunk: bytes): (Result<seq<Frame>, ProtocolError>, bytes) {
    if |buffer| + |chunk| > USIZE_MAX then (Err(BufferLimitExceeded(USIZE_MAX, limit)), buffer) else
    if |buffer| + |chunk| > limit then (Err(BufferLimitExceeded(|buffer| + |chunk|, limit)), buffer) else
    var all := buffer + chunk;
    var s := Scan(all);
    if s.error.Some? then (Err(s.error.value), all) else (Ok(s.frames), s.rest)
  }

  /** A push is refused, and keeps the buffer, exactly when buffer and chunk
      together exceed the limit; otherwise it returns every whole frame and keeps
      the bytes after them, or fails at the first bad header and keeps them all. */
  lemma PushIsExact(buffer: bytes, limit: usize, chunk: bytes)
    ensures var (r, kept) := PushChunk(buffer, limit, chunk); var all := buffer + chunk;
      && (|all| > limit ==> r.Err? && r.error.BufferLimitExceeded? && kept == buffer)
      && (|all| <= limit && r.Ok? ==>
            && AllValid(r.value) && all == EncodeAll(r.value) + kept
            && DecodePrefix(kept).Ok? && DecodePrefix(kept).value.NeedMoreData?)
      && (|all| <= limit && r.Err? ==>
            kept == all && exists n :: 0 <= n <= |all| && DecodePrefix(all[n..]) == Err(r.error))
  {
    hide DecodePrefix, EncodeAll, Scan;
    var all := buffer + chunk;
    ScanPartitions(all);
    var s := Scan(all);
    assert all[|EncodeAll(s.frames)|..] == s.rest;
  }

  class FrameDecoder {
    var buffer: bytes
    const bufferLimit: usize

    constructor ()
      ensures buffer == [] && bufferLimit == MAX_BUFFERED_BYTES
    {
      buffer := [];
      bufferLimit := MAX_BUFFERED_BYTES;
    }

    constructor WithBufferLimit(limit: usize)
      ensures buffer == [] && bufferLimit == limit
    {
      buffer := [];
      bufferLimit := limit;
    }

    /** Append one transport chunk and return every frame now complete. */
    method Push(chunk: bytes) returns (r: Result<seq<Frame>, ProtocolError>)
      modifies this
      ensures (r, buffer) == PushChunk(old(buffer), bufferLimit, chunk)
    {
      hide DecodePrefix, Scan;
      if |buffer| + |chunk| > USIZE_MAX {
        return Err(BufferLimitExceeded(USIZE_MAX, bufferLimit));
      }
      var attempted := |buffer| + |chunk|;
      if attempted > bufferLimit {
        return Err(BufferLimitExceeded(attempted, bufferLimit));
      }
      buffer := buffer + chunk;
      var frames: seq<Frame> := [];
      var consumedTotal := 0;
      assert buffer[0..] == buffer;
      while true
        invariant 0 <= consumedTotal <= |buffer|
        invariant buffer == old(buffer) + chunk
        invariant var s := Scan(buffer[consumedTotal..]);
          Scan(buffer) == Scanned(frames + s.frames, s.rest, s.error)
        decreases |buffer| - consumedTotal
      {
        if DecodePrefix(buffer[consumedTotal..]).Err? {
          ScanStops(buffer[consumedTotal..]);
        }
        var outcome :- DecodePrefix(buffer[consumedTotal..]);
        match outcome
        case NeedMoreData(_) =>
          ScanStops(buffer[consumedTotal..]);
          break;
        case Complete(frame, consumed) =>
          ScanStep(buffer[consumedTotal..]);
          ghost var s := Scan(buffer[consumedTotal..][consumed..]);
          assert buffer[consumedTotal..][consumed..] == buffer[consumedTotal + consumed..];
          assert frames + ([frame] + s.frames) == frames + [frame] + s.frames;
          frames := frames + [frame];
          consumedTotal := consumedTotal + consumed;
      }
      assert frames + [] == frames;
      if consumedTotal > 0 {
        buffer := buffer[consumedTotal..];
      }
      return Ok(frames);
    }

    method Clear()
      modifies this
      ensures buffer == []
    {
      buffer := [];
    }
  }

  /** Push a list of chunks in order; the first failure ends the run. */
  function PushAll(buffer: bytes, limit: nat, chunks: seq<bytes>): Result<(seq<Frame>, bytes), ProtocolError>
    decreases |chunks|
  {
    if chunks == [] then Ok(([], buffer)) else
    var (r, next) := PushChunk(buffer, limit, chunks[0]);
    var first :- r;
    var later :- PushAll(next, limit, chunks[1..]);
    Ok((first + later.0, later.1))
  }

  function Concat(chunks: seq<bytes>): bytes {
    if chunks == [] then [] else chunks[0] + Concat(chunks[1..])
  }

  /** Chunking does not matter: if every push succeeds, the frames returned
      over any split of a stream and the bytes left buffered are those of
      decoding the whole stream at once. */
  lemma {:induction false} ChunkingDoesNotMatter(buffer: bytes, limit: nat, chunks: seq<bytes>)
    requires Scan(buffer) == Scanned([], buffer, None)
    requires PushAll(buffer, limit, chunks).Ok?
    ensures var s := Scan(buffer + Concat(chunks));
      s.error.None? && PushAll(buffer, limit, chunks) == Ok((s.frames, s.rest))
    decreases |chunks|
  {
    hide Scan;
    if chunks == [] {
      assert buffer + [] == buffer;
    } else {
      var s := Scan(buffer + chunks[0]);
      ScanPartitions(buffer + chunks[0]);
      ScanStops(s.rest);
      ChunkingDoesNotMatter(s.rest, limit, chunks[1..]);
      ScanAppend(buffer + chunks[0], Concat(chunks[1..]));
      Associate(buffer, chunks[0], Concat(chunks[1..]));
    }
  }

  /** Conversely, a stream with no bad header decodes over any split into
      chunks that fit beside one unfinished frame. */
  lemma {:induction false} GoodStreamsAreAccepted(buffer: bytes, limit: nat, chunks: seq<bytes>)
    requires Scan(buffer) == Scanned([], buffer, None)
    requires Scan(buffer + Concat(chunks)).error.None?
    requires limit <= USIZE_MAX
    requires forall i :: 0 <= i < |chunks| ==> |chunks[i]| + FRAME_HEADER_LEN + MAX_MEDIA_PAYLOAD <= limit
    ensures PushAll(buffer, limit, chunks).Ok?
    decreases |chunks|
  {
    if chunks != [] {
      RemainderIsBounded(buffer);
      assert buffer + chunks[0] + Concat(chunks[1..]) == buffer + Concat(chunks);
      ScanAppend(buffer + chunks[0], Concat(chunks[1..]));
      ScanPartitions(buffer + chunks[0]);
      var rest := Scan(buffer + chunks[0]).rest;
      GoodStreamsAreAccepted(rest, limit, chunks[1..]);
    }
  }

  /** Push a list of chunks in order, carrying on after every failure: the
      result of each push, and the final buffer. */
  function Feed(buffer: bytes, limit: nat, chunks: seq<bytes>)
    : (r: (seq<Result<seq<Frame>, ProtocolError>>, bytes))
    ensures |r.0| == |chunks|
    decreases |chunks|
  {
    if chunks == [] then ([], buffer) else
    var (r, next) := PushChunk(buffer, limit, chunks[0]);
    var later := Feed(next, limit, chunks[1..]);
    ([r] + later.0, later.1)
  }

  lemma {:induction false} FeedAppend(buffer: bytes, limit: nat, a: seq<bytes>, b: seq<bytes>)
    ensures var first := Feed(buffer, limit, a); var second := Feed(first.1, limit, b);
      Feed(buffer, limit, a + b) == (first.0 + second.0, second.1)
    decreases |a|
  {
    hide PushChunk;
    if a == [] {
      assert a + b == b;
      assert [] + Feed(buffer, limit, b).0 == Feed(buffer, limit, b).0;
    } else {
      var (r, next) := PushChunk(buffer, limit, a[0]);
      FeedAppend(next, limit, a[1..], b);
      assert (a + b)[1..] == a[1..] + b;
      var x, y := Feed(next, limit, a[1..]), Feed(Feed(next, limit, a[1..]).1, limit, b);
      assert [r] + (x.0 + y.0) == [r] + x.0 + y.0;
    }
  }

  /** Failure is sticky: a push that fails on a bad header leaves the bad
      header in the buffer, and while it is there every push fails. */
  lemma FailureIsSticky(buffer: bytes, limit: nat, chunk: bytes, later: seq<bytes>)
    requires |buffer| + |chunk| <= limit <= USIZE_MAX
    requires PushChunk(buffer, limit, chunk).0.Err?
    ensures forall i :: 0 <= i <= |later| ==> Feed(buffer, limit, [chunk] + later).0[i].Err?
  {
    FailsForever(buffer + chunk, limit, later);
    FeedAppend(buffer, limit, [chunk], later);
  }

  lemma {:induction false} FailsForever(buffer: bytes, limit: nat, chunks: seq<bytes>)
    requires Scan(buffer).error.Some?
    ensures var results := Feed(buffer, limit, chunks).0;
      |results| == |chunks| && forall i :: 0 <= i < |results| ==> results[i].Err?
    decreases |chunks|
  {
    if chunks != [] {
      ScanAppend(buffer, chunks[0]);
      FailsForever(PushChunk(buffer, limit, chunks[0]).1, limit, chunks[1..]);
    }
  }

  /** A push refused for the buffer limit leaves no trace: every other push,
      before and after it, has the result it would have had without it. */
  lemma RefusedPushLeavesNoTrace(buffer: bytes, limit: nat, before: seq<bytes>, chunk: bytes, after: seq<bytes>)
    requires |Feed(buffer, limit, before).1| + |chunk| > limit
    ensures var with := Feed(buffer, limit, before + [chunk] + after);
      var without := Feed(buffer, limit, before + after);
      && with.1 == without.1
      && |with.0| == |without.0| + 1
      && with.0[|before|].Err?
      && with.0[..|before|] + with.0[|before| + 1..] == without.0
  {
    var mid := Feed(buffer, limit, before);
    FeedAppend(buffer, limit, before, after);
    FeedAppend(buffer, limit, before, [chunk] + after);
    assert before + [chunk] + after == before + ([chunk] + after);
    assert ([chunk] + after)[1..] == after;
  }
}
