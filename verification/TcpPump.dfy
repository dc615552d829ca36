/** The worker that moves packets between its link and a socket
    (crates/ladoflow-transport/src/tcp.rs:216-339). The socket and the
    application's interference are arbitrary; every step the worker takes is
    proved to be a step of the pipe in module Pipeline. */
module TcpPump {
  import opened Wrappers
  import opened Words
  import opened Frames
  import opened Packets
  import opened Loopback
  import opened Applications
  import opened LdflStream
  import opened Pipeline
  import opened Endpoints
  import opened StreamWorkers
  import opened TurnProgress

  // ---- The socket -----------------------------------------------------------------

  /** What the operating system answers; a read carries the bytes it returns. */
  datatype Io = Wrote(count: nat) | GotBytes(chunk: bytes) | WouldBlock | Interrupted | Failed

  /** A socket that follows an arbitrary plan of answers to its writes and one to
      its reads, within the contract of `write` and `read`: never more than the
      buffer it is given. Past the end of a plan it would block. */
  class Socket {
    var writeAnswers: seq<Io>
    var readAnswers: seq<Io>
    var sent: bytes
    var received: bytes

    constructor (writeAnswers: seq<Io>, readAnswers: seq<Io>)
      ensures this.writeAnswers == writeAnswers && this.readAnswers == readAnswers && sent == [] && received == []
    {
      this.writeAnswers, this.readAnswers := writeAnswers, readAnswers;
      sent, received := [], [];
    }

    method Write(chunk: bytes) returns (io: Io)
      modifies this`writeAnswers, this`sent
      ensures writeAnswers == Remaining(old(writeAnswers))
      ensures var a := Answer(old(writeAnswers)); io == if a.Wrote? then Wrote(Min(a.count, |chunk|)) else a
      ensures sent == old(sent) + (if io.Wrote? then chunk[..io.count] else [])
    {
      io := Answer(writeAnswers);
      writeAnswers := Remaining(writeAnswers);
      if io.Wrote? {
        io := Wrote(Min(io.count, |chunk|));
        sent := sent + chunk[..io.count];
      } else {
        assert sent + [] == sent;
      }
    }

    method Read(room: nat) returns (io: Io)
      modifies this`readAnswers, this`received
      ensures readAnswers == Remaining(old(readAnswers))
      ensures var a := Answer(old(readAnswers)); io == if a.GotBytes? then GotBytes(a.chunk[..Min(room, |a.chunk|)]) else a
      ensures received == old(received) + (if io.GotBytes? then io.chunk else [])
    {
      io := Answer(readAnswers);
      readAnswers := Remaining(readAnswers);
      if io.GotBytes? {
        io := GotBytes(io.chunk[..Min(room, |io.chunk|)]);
        received := received + io.chunk;
      } else {
        assert received + [] == received;
      }
    }
  }

  function Answer(plan: seq<Io>): Io { if plan == [] then WouldBlock else plan[0] }

  function Remaining(plan: seq<Io>): seq<Io> { if plan == [] then [] else plan[1..] }

  // ---- What a turn does with the socket's answers -----------------------------------

  /** One write of at most a chunk of the packet being written, if there is one;
      an answer of zero bytes or a failure ends the worker. */
  function PlannedWrite(tx: Tx, plan: seq<Io>): seq<TxStep> {
    if tx.outgoing.None? then [] else
    match Answer(plan)
    case Wrote(count) =>
      var n := Min(count, Min(TCP_IO_CHUNK_BYTES, tx.outgoing.value.packet.Len() - tx.outgoing.value.offset));
      if n <= 0 then [TStop] else [TWrite(n)]
    case Failed => [TStop]
    case _ => []
  }

  /** One read of at most a chunk, unless decoded packets still wait; the end of
      the stream or a failure ends the worker. */
  function PlannedRead(rx: Rx, plan: seq<Io>): seq<RxStep> {
    if rx.inbound != [] then [] else
    match Answer(plan)
    case GotBytes(chunk) => if chunk == [] then [RStop] else [RRead(chunk[..Min(TCP_IO_CHUNK_BYTES, |chunk|)])]
    case Failed => [RStop]
    case _ => []
  }

  /** The answer to the next chunk of a packet: never more than it. */
  function AnswerTo(p: Pending, plan: seq<Io>): (io: Io)
    requires p.offset < p.packet.Len()
    ensures io.Wrote? ==> io.count <= TCP_IO_CHUNK_BYTES && p.offset + io.count <= p.packet.Len()
  {
    var answer := Answer(plan);
    if answer.Wrote? then Wrote(Min(answer.count, Min(TCP_IO_CHUNK_BYTES, p.packet.Len() - p.offset))) else answer
  }

  function AfterWrite(tx: Tx, plan: seq<Io>): seq<Io> {
    if tx.outgoing.None? then plan else Remaining(plan)
  }

  function AfterRead(rx: Rx, plan: seq<Io>): seq<Io> {
    if rx.inbound != [] then plan else Remaining(plan)
  }

  // ---- The worker -----------------------------------------------------------------

  datatype PumpEnd = PeerClosed | QueueInvalid | StreamInvalid | QueueRejected | NoProgress | IoFailed

  /** A worker's endpoint and the status it reports. */
  class TcpWorker {
    const e: StreamEndpoint
    var status: Status

    ghost function Objects(): set<object> { {this} + e.Objects() }

    ghost predicate Valid()
      reads Objects()
    {
      e.Valid() && this !in e.Objects()
    }

    constructor (link: Link)
      requires link.Valid()
      ensures Valid() && e.link == link && fresh(Objects() - link.Objects())
      ensures e.running && e.outgoing.None? && e.inbound == [] && status == NO_STATUS
    {
      e := new StreamEndpoint(link);
      status := NO_STATUS;
    }

    /** Move decoded packets into their queues until one has to wait. */
    method DrainInbound(others: Application) returns (end: Option<PumpEnd>, progress: bool, ghost s: Trace)
      requires Valid() && e.running && others !in Objects()
      modifies others, e.Objects()
      ensures Valid() && e.running == end.None? && (end.None? || end == Some(QueueRejected))
      ensures Path(old(e.State()), s, e.State()) && Quiet(old(e.State()), s)
      ensures end.None? && e.inbound != [] ==> Send(e.link.State().Outgoing(Second), e.inbound[0]).1.Err?
      ensures end.None? ==> progress == (|e.inbound| < |old(e.inbound)|)
      ensures end.None? ==> Refusals(old(e.State()).rx, s.r) == if e.inbound == [] then 0 else 1
      ensures unchanged(e`outgoing) && RStop !in s.r && (end.None? ==> TStop !in s.t)
    {
      hide Path, Quiet, e.State, e.Valid, PushQueue, Refusals;
      ghost var a := e.State();
      progress, s := false, NO_TRACE;
      StayPut(a);
      NothingOffered(a.rx, []);
      while e.inbound != []
        invariant Valid() && e.running && Path(a, s, e.State()) && Quiet(a, s)
        invariant |e.inbound| <= |old(e.inbound)| && progress == (|e.inbound| < |old(e.inbound)|)
        invariant unchanged(e`outgoing) && RStop !in s.r && TStop !in s.t && Refusals(a.rx, s.r) == 0
        decreases |e.inbound|
      {
        ghost var b := e.State();
        var result;
        ghost var s1;
        result, s1 := e.OfferNext(others);
        Join(a, s, b, s1, e.State());
        s := s.Then(s1);
        if result.Ok? {
          progress := true;
        } else if result.error.Full? {
          return None, progress, s;
        } else {
          return Some(QueueRejected), progress, s;
        }
      }
      return None, progress, s;
    }

    /** Take the next packet from the multiplexer when none is being written. */
    method TakeNext(others: Application) returns (end: Option<PumpEnd>, ghost s: Trace)
      requires Valid() && e.running && others !in Objects()
      modifies others, e.Objects()
      ensures Valid() && e.running == end.None? && (end.None? || end == Some(QueueInvalid))
      ensures Path(old(e.State()), s, e.State()) && Quiet(old(e.State()), s)
      ensures if old(e.outgoing).None? then EndsWithPull(s.t) else s == NO_TRACE && e.outgoing == old(e.outgoing)
      ensures unchanged(e`inbound) && TStop !in s.t && Refusals(old(e.State()).rx, s.r) == 0
    {
      hide Path, Quiet, e.State, e.Valid, Refusals;
      ghost var a := e.State();
      if e.outgoing.Some? {
        StayPut(a);
        NothingOffered(a.rx, []);
        return None, NO_TRACE;
      }
      s := e.Interfere(others);
      ghost var b := e.State();
      ghost var s1 := e.PullNext(others);
      Join(a, s, b, s1, e.State());
      PullLater(s.t, s1.t);
      s := s.Then(s1);
      end := if e.running then None else Some(QueueInvalid);
    }

    /** Offer the socket the next chunk of the packet being written. */
    method OfferChunk(socket: Socket) returns (io: Io)
      requires Valid() && e.outgoing.Some? && socket !in Objects()
      modifies socket`writeAnswers, socket`sent
      ensures socket.writeAnswers == Remaining(old(socket.writeAnswers))
      ensures var pending := e.outgoing.value;
        && io == AnswerTo(pending, old(socket.writeAnswers))
        && socket.sent == old(socket.sent) +
             (if io.Wrote? then pending.packet.payload[pending.offset..pending.offset + io.count] else [])
    {
      var pending := e.outgoing.value;
      var last := Min(pending.offset + TCP_IO_CHUNK_BYTES, pending.packet.Len());
      var chunk := pending.packet.payload[pending.offset..last];
      io := socket.Write(chunk);
      if io.Wrote? {
        assert chunk[..io.count] == pending.packet.payload[pending.offset..pending.offset + io.count];
      }
    }

    /** What a write's answer means for the worker. */
    static function EndOfWrite(tx: Tx, plan: seq<Io>): Option<PumpEnd> {
      if tx.outgoing.None? then None
      else match Answer(plan)
        case Wrote(count) => if count == 0 then Some(NoProgress) else None
        case Failed => Some(IoFailed)
        case _ => None
    }

    /** Count what the socket took of the offered chunk, or end the worker. */
    method CountAnswer(io: Io) returns (end: Option<PumpEnd>, progress: bool, ghost s: Trace)
      requires Valid() && e.running && e.outgoing.Some?
      requires io.Wrote? ==>
        io.count <= TCP_IO_CHUNK_BYTES && e.outgoing.value.offset + io.count <= e.outgoing.value.packet.Len()
      modifies this`status, e`outgoing, e`running
      ensures Valid() && e.running == end.None?
      ensures end == if io.Failed? then Some(IoFailed) else if io == Wrote(0) then Some(NoProgress) else None
      ensures progress == (io.Wrote? && io.count > 0) && (progress <==> Put(old(e.State()), s) != [])
      ensures Refusals(old(e.State()).rx, s.r) == 0
      ensures s.t == if end.Some? then [TStop] else if progress then [TWrite(io.count)] else []
      ensures Path(old(e.State()), s, e.State()) && Got(s) == [] && (end.None? ==> s.r == [])
      ensures Put(old(e.State()), s) ==
        var pending := old(e.outgoing).value;
        if io.Wrote? then pending.packet.payload[pending.offset..pending.offset + io.count] else []
      ensures status == Account(old(status), old(e.State()), s)
    {
      hide Path, Quiet, e.State, e.Valid, Put, Got, Account, Refusals;
      ghost var a := e.State();
      end, progress, s := None, false, NO_TRACE;
      NothingHappened(a, status);
      if io.Wrote? && io.count > 0 {
        progress := true;
        s := CountWritten(io.count);
      } else if io.Wrote? || io.Failed? {
        end := if io.Failed? then Some(IoFailed) else Some(NoProgress);
        s := Stop();
      }
    }

    method WritePending(socket: Socket) returns (end: Option<PumpEnd>, progress: bool, ghost s: Trace)
      requires Valid() && e.running && socket !in Objects()
      modifies this`status, e`outgoing, e`running, socket`writeAnswers, socket`sent
      ensures Valid() && e.running == end.None? && end == EndOfWrite(old(e.State()).tx, old(socket.writeAnswers))
      ensures Path(old(e.State()), s, e.State()) && Got(s) == []
      ensures s.t == PlannedWrite(old(e.State()).tx, old(socket.writeAnswers)) && (end.None? ==> s.r == [])
      ensures socket.writeAnswers == AfterWrite(old(e.State()).tx, old(socket.writeAnswers))
      ensures socket.sent == old(socket.sent) + Put(old(e.State()), s)
      ensures status == Account(old(status), old(e.State()), s)
      ensures progress <==> Put(old(e.State()), s) != []
      ensures Refusals(old(e.State()).rx, s.r) == 0
    {
      assert e.outgoing.Some? ==> e.outgoing.value.offset < e.outgoing.value.packet.Len();
      hide Refusals, Path, Quiet, e.State, e.Valid, Put, Got, Account, PlannedWrite, EndOfWrite, AnswerTo, Remaining, Answer;
      ghost var a := e.State();
      e.StateFields();
      end, progress, s := None, false, NO_TRACE;
      NothingHappened(a, status);
      PlanOfWrite(a.tx, socket.writeAnswers);
      assert socket.sent + [] == socket.sent;
      if e.outgoing.Some? {
        var io := OfferChunk(socket);
        end, progress, s := CountAnswer(io);
      }
    }

    lemma NothingHappened(a: EndState, st: Status)
      ensures Path(a, NO_TRACE, a) && Put(a, NO_TRACE) == [] && Got(NO_TRACE) == [] && Account(st, a, NO_TRACE) == st
      ensures Refusals(a.rx, NO_TRACE.r) == 0
    {
      NothingOffered(a.rx, []);
      StayPut(a);
      QuietAccount(st, a, NO_TRACE);
    }

    /** The worker ends without writing or reading. */
    method Stop() returns (ghost s: Trace)
      requires Valid()
      modifies e`running
      ensures Valid() && !e.running && s == Trace([TStop], [RStop])
      ensures Path(old(e.State()), s, e.State()) && Put(old(e.State()), s) == [] && Got(s) == []
      ensures status == Account(old(status), old(e.State()), s) && Refusals(old(e.State()).rx, s.r) == 0
    {
      hide Path, Quiet, e.State, e.Valid, Put, Got, Account, Refusals;
      ghost var a := e.State();
      s := e.End();
      QuietAccount(status, a, s);
      QuietIsSilent(a, s);
    }

    /** Advance the packet being written and count what the socket took. */
    method CountWritten(n: nat) returns (ghost s: Trace)
      requires Valid() && e.running && e.outgoing.Some? && 0 < n <= TCP_IO_CHUNK_BYTES
      requires e.outgoing.value.offset + n <= e.outgoing.value.packet.Len()
      modifies this`status, e`outgoing
      ensures Valid() && e.running && s == Trace([TWrite(n)], [])
      ensures Path(old(e.State()), s, e.State()) && Got(s) == []
      ensures Put(old(e.State()), s) ==
        old(e.outgoing).value.packet.payload[old(e.outgoing).value.offset..old(e.outgoing).value.offset + n]
      ensures status == Account(old(status), old(e.State()), s) && Refusals(old(e.State()).rx, s.r) == 0
    {
      hide Refusals, Path, Quiet, e.State, e.Valid, Put, Got, Account, Amount;
      ghost var a := e.State();
      s := e.Advance(n);
      NothingOffered(a.rx, []);
      AdvanceAccount(status, a, s, n, if e.outgoing.None? then 1 else 0);
      status := status.Wrote(n, if e.outgoing.None? then 1 else 0);
    }

    /** What a read's answer means for the worker. */
    static function EndOfRead(rx: Rx, plan: seq<Io>): Option<PumpEnd> {
      if rx.inbound != [] then None
      else match Answer(plan)
        case GotBytes(chunk) =>
          if chunk == [] then Some(PeerClosed)
          else if PushChunk(rx.buffer, MAX_BUFFERED_BYTES, chunk[..Min(TCP_IO_CHUNK_BYTES, |chunk|)]).0.Err?
          then Some(StreamInvalid) else None
        case Failed => Some(IoFailed)
        case _ => None
    }

    /** A write's failure ends the worker before it reads. */
    static function EndOfBoth(tx: Tx, rx: Rx, writing: seq<Io>, reading: seq<Io>): Option<PumpEnd> {
      if EndOfWrite(tx, writing).Some? then EndOfWrite(tx, writing) else EndOfRead(rx, reading)
    }

    /** Read once, unless decoded packets are still waiting for their queues. */
    method ReadInbound(socket: Socket) returns (end: Option<PumpEnd>, progress: bool, ghost s: Trace)
      requires Valid() && e.running && socket !in Objects()
      modifies this`status, e`inbound, e`running, e.decoder.decoder, socket`readAnswers, socket`received
      ensures Valid() && e.running == end.None?
      ensures Path(old(e.State()), s, e.State()) && Put(old(e.State()), s) == []
      ensures s.r == PlannedRead(old(e.State()).rx, old(socket.readAnswers)) && (end.None? ==> s.t == [])
      ensures socket.received == old(socket.received) + Got(s)
      ensures status == Account(old(status), old(e.State()), s)
      ensures progress <==> end.None? && Got(s) != []
      ensures socket.readAnswers == AfterRead(old(e.State()).rx, old(socket.readAnswers)) && Refusals(old(e.State()).rx, s.r) == 0
      ensures end == EndOfRead(old(e.State()).rx, old(socket.readAnswers))
    {
      hide Refusals, PushChunk, Path, Quiet, e.State, e.Valid, Put, Got, Account, Amount;
      ghost var a := e.State();
      e.StateFields();
      progress, s := false, NO_TRACE;
      NothingHappened(a, status);
      assert socket.received + [] == socket.received;
      if e.inbound != [] {
        return None, progress, s;
      }
      var io := socket.Read(TCP_IO_CHUNK_BYTES);
      match io
      case GotBytes(chunk) =>
        if chunk == [] {
          s := Stop();
          return Some(PeerClosed), progress, s;
        }
        s := e.Decode(chunk);
        DecodeAccount(status, a, s);
        if !e.running {
          return Some(StreamInvalid), progress, s;
        }
        status := status.Read(|chunk|, |e.inbound|);
        return None, true, s;
      case Failed =>
        s := Stop();
        return Some(IoFailed), progress, s;
      case _ => return None, progress, s;
    }

    /** The first half of a turn: drain, then take the next packet. */
    method DrainAndTake(others: Application) returns (end: Option<PumpEnd>, progress: bool, ghost s: Trace)
      requires Valid() && e.running && others !in Objects()
      modifies others, e.Objects()
      ensures Valid() && e.running == end.None? && (end.None? || end.value.QueueRejected? || end.value.QueueInvalid?)
      ensures end == Some(QueueInvalid) ==> TStop !in s.t
      ensures end == Some(QueueRejected) ==> RStop !in s.r
      ensures Path(old(e.State()), s, e.State()) && Quiet(old(e.State()), s)
      ensures end.None? ==> if old(e.outgoing).None? then EndsWithPull(s.t) else e.outgoing == old(e.outgoing)
      ensures end.None? ==> Refusals(old(e.State()).rx, s.r) == if e.inbound == [] then 0 else 1
      ensures end.None? ==> progress == (|e.inbound| < |old(e.inbound)|)
    {
      hide Path, Quiet, e.State, e.Valid, EndsWithPull, Refusals;
      ghost var a := e.State();
      end, progress, s := DrainInbound(others);
      if end.Some? {
        return;
      }
      ghost var b := e.State();
      ghost var s1;
      end, s1 := TakeNext(others);
      Join(a, s, b, s1, e.State());
      if EndsWithPull(s1.t) {
        PullLater(s.t, s1.t);
      }
      s := s.Then(s1);
    }

    /** The second half: write, then read. */
    method WriteAndRead(socket: Socket) returns (end: Option<PumpEnd>, progress: bool, ghost s: Trace)
      requires Valid() && e.running && socket !in Objects()
      modifies Objects(), socket
      ensures Valid() && e.running == end.None?
      ensures end == EndOfBoth(old(e.State()).tx, old(e.State()).rx, old(socket.writeAnswers), old(socket.readAnswers))
      ensures Path(old(e.State()), s, e.State()) && status == Account(old(status), old(e.State()), s)
      ensures socket.sent == old(socket.sent) + Put(old(e.State()), s)
      ensures socket.received == old(socket.received) + Got(s)
      ensures Refusals(old(e.State()).rx, s.r) == 0
      ensures EndOfWrite(old(e.State()).tx, old(socket.writeAnswers)).Some? ==>
        Got(s) == [] && socket.readAnswers == old(socket.readAnswers)
      ensures end.None? ==>
        && s.t == PlannedWrite(old(e.State()).tx, old(socket.writeAnswers))
        && s.r == PlannedRead(old(e.State()).rx, old(socket.readAnswers))
        && socket.writeAnswers == AfterWrite(old(e.State()).tx, old(socket.writeAnswers))
        && socket.readAnswers == AfterRead(old(e.State()).rx, old(socket.readAnswers))
        && (progress <==> Put(old(e.State()), s) != [] || Got(s) != [])
    {
      hide EndOfWrite, EndOfRead, Quiet, e.State, e.Valid, Put, Got, Account, PlannedWrite, PlannedRead, RxRun, TxRun,
           Disciplined, Refusals;
      ghost var a := e.State();
      end, progress, s := WritePending(socket);
      assert socket.received + [] == socket.received;
      if end.Some? {
        return;
      }
      ghost var b := e.State();
      assert b.rx == a.rx by { NoRxSteps(a.rx); }
      var read;
      ghost var s1;
      end, read, s1 := ReadInbound(socket);
      Join(a, s, b, s1, e.State());
      assert Put(a, s) + [] == Put(a, s) && [] + Got(s1) == Got(s1);
      if end.None? {
        assert s.t + [] == s.t && [] + s1.r == s1.r;
      }
      s := s.Then(s1);
      progress := progress || read;
    }

    /** One turn of the loop: drain and take the next packet, which are the
        first `taken` and `drained` steps of the two halves, then write, then
        read. The first of them to fail is the end reported. A turn makes no
        progress, and the worker sleeps, only when no byte and no packet moved. */
    method Turn(socket: Socket, others: Application)
      returns (end: Option<PumpEnd>, progress: bool, ghost s: Trace, ghost taken: nat, ghost drained: nat)
      requires Valid() && e.running && socket !in Objects() && others !in Objects()
      modifies Objects(), socket, others
      ensures Valid() && e.running == end.None?
      ensures Path(old(e.State()), s, e.State()) && status == Account(old(status), old(e.State()), s)
      ensures socket.sent == old(socket.sent) + Put(old(e.State()), s)
      ensures socket.received == old(socket.received) + Got(s)
      ensures taken <= |s.t| && drained <= |s.r|
      ensures Ended(end, old(e.State()), s, Trace(s.t[..taken], s.r[..drained]), old(socket.writeAnswers), old(socket.readAnswers))
      ensures end.Some? && EndOfWrite(TxRun(old(e.State()).tx, s.t[..taken]).0, old(socket.writeAnswers)).Some? ==> Got(s) == []
      ensures end.None? ==>
        TurnOf(old(e.State()), s, taken, drained, old(socket.writeAnswers), old(socket.readAnswers))
      ensures end.None? ==>
        var tx := TxRun(old(e.State()).tx, s.t[..taken]).0; var rx := RxRun(old(e.State()).rx, s.r[..drained]);
        && socket.writeAnswers == AfterWrite(tx, old(socket.writeAnswers))
        && socket.readAnswers == AfterRead(rx, old(socket.readAnswers))
        && (progress <==> Put(old(e.State()), s) != [] || Got(s) != [] || |rx.inbound| < |old(e.State()).rx.inbound|)
    {
      hide EndOfBoth, EndOfWrite, Quiet, e.State, e.Valid, ReadOf, Account, PlannedWrite, PlannedRead, RxRun, TxRun, Disciplined,
           EndsWithPull, Refusals;
      ghost var a := e.State();
      e.StateFields();
      end, progress, s := DrainAndTake(others);
      taken, drained := |s.t|, |s.r|;
      QuietAccount(status, a, s);
      QuietIsSilent(a, s);
      assert socket.sent + [] == socket.sent && socket.received + [] == socket.received;
      assert s.t[..taken] == s.t && s.r[..drained] == s.r;
      if end.Some? {
        return;
      }
      ghost var b := e.State();
      e.StateFields();
      var moved;
      ghost var s1;
      end, moved, s1 := WriteAndRead(socket);
      Join(a, s, b, s1, e.State());
      assert (s.t + s1.t)[..taken] == s.t && (s.t + s1.t)[taken..] == s1.t;
      assert (s.r + s1.r)[..drained] == s.r && (s.r + s1.r)[drained..] == s1.r;
      s := s.Then(s1);
      progress := progress || moved;
    }

    lemma StateIsPlaced()
      requires Valid()
      ensures Placed(e.State().tx) && e.State().tx.running == e.State().rx.running == e.running
    {
    }

    /** Turns until an end of its own, or a cancellation after `turns` of them; it
        has then taken all of them. Each turn reads once or has one packet refused,
        and what it reads is what the socket gives; a socket that would block, or
        was interrupted, gives nothing and ends nothing. With nothing new sent,
        each turn writes what the socket takes until nothing is left to write. An
        end of its own is that of the last turn: what its queue reported, or what
        the socket answered to its write or its read after the history `last`. */
    method PumpTcpStream(socket: Socket, others: Application, turns: nat)
      returns (end: Option<PumpEnd>, ghost s: Trace, ghost last: Trace, ghost writes: nat, ghost readings: nat)
      requires Valid() && e.running && socket !in Objects() && others !in Objects()
      modifies Objects(), socket, others
      ensures Valid() && e.running == end.None?
      ensures Path(old(e.State()), s, e.State()) && status == Account(old(status), old(e.State()), s)
      ensures socket.sent == old(socket.sent) + Put(old(e.State()), s)
      ensures socket.received == old(socket.received) + Got(s)
      ensures end.Some? ==>
        && last.t <= s.t && last.r <= s.r
        && Ended(end, old(e.State()), s, last, Skip(old(socket.writeAnswers), writes), Skip(old(socket.readAnswers), readings))
      ensures end.None? ==>
        && socket.writeAnswers == Skip(old(socket.writeAnswers), writes)
        && socket.readAnswers == Skip(old(socket.readAnswers), readings)
        && KeepsReading(old(e.State()), s, old(socket.readAnswers), readings, turns)
        && KeepsWriting(old(e.State()), s, old(socket.writeAnswers), writes, turns)
    {
      hide Path, Quiet, e.State, e.Valid, Put, Got, Account, Ended, TurnOf, KeepsWriting, KeepsReading, AfterWrite,
           AfterRead, Skip, TxRun, RxRun;
      ghost var a := e.State();
      ghost var given, taking := socket.readAnswers, socket.writeAnswers;
      end, s, last, writes, readings := None, NO_TRACE, NO_TRACE, 0, 0;
      NothingHappened(a, status);
      StateIsPlaced();
      NothingYet(a, taking, given);
      assert socket.sent + [] == socket.sent && socket.received + [] == socket.received;
      var turn := 0;
      while turn < turns && end.None?
        invariant turn <= turns && Valid() && e.running == end.None?
        invariant Path(a, s, e.State()) && status == Account(old(status), a, s)
        invariant socket.sent == old(socket.sent) + Put(a, s) && socket.received == old(socket.received) + Got(s)
        invariant end.Some? ==>
          last.t <= s.t && last.r <= s.r && Ended(end, a, s, last, Skip(taking, writes), Skip(given, readings))
        invariant end.None? ==>
          && socket.writeAnswers == Skip(taking, writes) && socket.readAnswers == Skip(given, readings)
          && KeepsReading(a, s, given, readings, turn) && KeepsWriting(a, s, taking, writes, turn)
      {
        ghost var b := e.State();
        StateIsPlaced();
        var progress;
        ghost var s1, taken, drained;
        end, progress, s1, taken, drained := Turn(socket, others);
        Join(a, s, b, s1, e.State());
        StateIsPlaced();
        Associate(old(socket.sent), Put(a, s), Put(b, s1));
        Associate(old(socket.received), Got(s), Got(s1));
        last := s.Then(Trace(s1.t[..taken], s1.r[..drained]));
        if end.None? {
          writes, readings := OneMoreTurn(a, s, b, s1, e.State(), turn, taken, drained, taking, writes, given, readings);
        } else {
          EndedLater(end, a, s, b, s1, e.State(), Trace(s1.t[..taken], s1.r[..drained]), Skip(taking, writes), Skip(given, readings));
        }
        s := s.Then(s1);
        turn := turn + 1;
      }
    }

    /** The whole worker: pump, then cut the link and discard what it holds.
        Every effect on either half of the endpoint is a step of the pipe, the
        bytes sent are those the steps put on the wire, the bytes received are
        those the steps read, the status is their exact account, and the last
        error is the end of the turn that failed. */
    method RunTcpStream(socket: Socket, others: Application, turns: nat)
      returns (lastError: Option<PumpEnd>, ghost s: Trace, ghost pumped: Trace, ghost last: Trace,
               ghost writes: nat, ghost readings: nat)
      requires Valid() && e.running && socket !in Objects() && others !in Objects()
      modifies Objects(), socket, others
      ensures Valid() && !e.running && !e.link.connected
      ensures Path(old(e.State()), s, e.State()) && status == Account(old(status), old(e.State()), s)
      ensures socket.sent == old(socket.sent) + Put(old(e.State()), s)
      ensures socket.received == old(socket.received) + Got(s)
      ensures pumped.t <= s.t && pumped.r <= s.r
      ensures lastError.Some? ==>
        && last.t <= pumped.t && last.r <= pumped.r
        && Ended(lastError, old(e.State()), pumped, last,
                 Skip(old(socket.writeAnswers), writes), Skip(old(socket.readAnswers), readings))
      ensures lastError.None? ==>
        && KeepsReading(old(e.State()), pumped, old(socket.readAnswers), readings, turns)
        && KeepsWriting(old(e.State()), pumped, old(socket.writeAnswers), writes, turns)
    {
      hide Path, Quiet, e.State, e.Valid, Put, Got, Account, Ended, KeepsWriting, KeepsReading, Skip;
      ghost var a := e.State();
      lastError, pumped, last, writes, readings := PumpTcpStream(socket, others, turns);
      ghost var b := e.State();
      ghost var s1 := e.Interfere(others);
      ghost var c := e.State();
      ghost var s2 := e.Shut();
      Join(a, pumped, b, s1, c);
      Join(a, pumped.Then(s1), c, s2, e.State());
      QuietAccount(status, b, s1);
      QuietAccount(status, c, s2);
      s := pumped.Then(s1).Then(s2);
    }
  }

  // ---- What the ends mean -------------------------------------------------------------------

  /** An end of a history whose I/O was last tried after `last`, with these
      answers to come: the multiplexer or a queue stopped the worker, or it is
      what the write or the read got. */
  ghost predicate Ended(end: Option<PumpEnd>, a: EndState, s: Trace, last: Trace, writing: seq<Io>, reading: seq<Io>) {
    || (end == Some(QueueInvalid) && TStop !in s.t)
    || (end == Some(QueueRejected) && RStop !in s.r)
    || end == TcpWorker.EndOfBoth(TxRun(a.tx, last.t).0, RxRun(a.rx, last.r), writing, reading)
  }

  lemma EndedLater(end: Option<PumpEnd>, a: EndState, s: Trace, b: EndState, s1: Trace, c: EndState, last: Trace,
                   writing: seq<Io>, reading: seq<Io>)
    requires Path(a, s, b) && b.tx.running && b.rx.running && Ended(end, b, s1, last, writing, reading)
    ensures Ended(end, a, s.Then(s1), s.Then(last), writing, reading)
  {
    RunningNeverStopped(a, s, b);
    hide TxRun, RxRun, Disciplined, TcpWorker.EndOfBoth;
    TxRunAppend(a.tx, s.t, last.t);
    RxRunAppend(a.rx, s.r, last.r);
  }

  // ---- What the turns achieve ------------------------------------------------------------------

  /** The bytes of the first `n` answers to a read, each at most a chunk. */
  function Gives(plan: seq<Io>, n: nat): bytes
    decreases n
  {
    if n == 0 then [] else
    var io := Answer(Skip(plan, n - 1));
    Gives(plan, n - 1) + (if io.GotBytes? then io.chunk[..Min(TCP_IO_CHUNK_BYTES, |io.chunk|)] else [])
  }

  /** How many of the first `n` answers to a write take at least a byte. */
  function Takes(plan: seq<Io>, n: nat): nat
    decreases n
  {
    if n == 0 then 0 else
    var io := Answer(Skip(plan, n - 1));
    Takes(plan, n - 1) + (if io.Wrote? && io.count > 0 then 1 else 0)
  }

  /** The shape of a turn that did not fail. */
  ghost predicate TurnOf(a: EndState, s: Trace, taken: nat, drained: nat, writing: seq<Io>, reading: seq<Io>)
    requires taken <= |s.t| && drained <= |s.r|
  {
    var tx, rx := TxRun(a.tx, s.t[..taken]).0, RxRun(a.rx, s.r[..drained]);
    && TxRun(a.tx, s.t[..taken]).1 == [] && ReadOf(s.r[..drained]) == []
    && (if a.tx.outgoing.None? then EndsWithPull(s.t[..taken]) else tx.outgoing == a.tx.outgoing)
    && Refusals(a.rx, s.r) == (if rx.inbound == [] then 0 else 1)
    && s.t[taken..] == PlannedWrite(tx, writing) && s.r[drained..] == PlannedRead(rx, reading)
  }

  /** Of `turns` turns each has read once, what the socket gave, or had one packet
      refused by a queue. */
  ghost predicate KeepsReading(a: EndState, s: Trace, plan: seq<Io>, n: nat, turns: nat) {
    n + Refusals(a.rx, s.r) == turns && ReadOf(s.r) == Gives(plan, n)
  }

  /** Over an up link and with nothing new sent: either nothing is left to write,
      or each of the turns offered the socket some of it, and every answer that
      takes something wrote at least a byte; and what is left and what was written
      add up. */
  ghost predicate KeepsWriting(a: EndState, s: Trace, plan: seq<Io>, n: nat, turns: nat) {
    n <= turns &&
    (a.tx.up && Undisturbed(s.t) ==>
      var (tx, written) := TxRun(a.tx, s.t);
      && (Emptied(tx) || (n == turns && |written| >= Takes(plan, n)))
      && ToWrite(tx) + |written| == ToWrite(a.tx))
  }

  /** So once the socket has taken something more often than there are bytes to
      write nothing is left, and exactly those bytes were written. */
  lemma EnoughTurns(a: EndState, s: Trace, b: EndState, plan: seq<Io>, n: nat, turns: nat)
    requires Path(a, s, b) && KeepsWriting(a, s, plan, n, turns)
    requires a.tx.up && Undisturbed(s.t) && Takes(plan, turns) > ToWrite(a.tx)
    ensures Emptied(b.tx) && |Put(a, s)| == ToWrite(a.tx)
  {
    assert TotalLen([]) == 0;
    hide TxRun, Disciplined, TotalLen, Takes;
  }

  /** One write moves as much as the answer, the chunk and the packet allow, one
      read as much as the answer and the chunk do; an answer that would block or
      was interrupted moves nothing and ends nothing; a write of nothing, the end
      of the stream and a failure end the worker, each as what it is. */
  lemma OneAnswer(tx: Tx, rx: Rx, writing: seq<Io>, reading: seq<Io>)
    requires Placed(tx)
    ensures tx.running && tx.outgoing.Some? && Answer(writing).Wrote? ==>
      var pending := tx.outgoing.value;
      |TxRun(tx, PlannedWrite(tx, writing)).1| == Min(Answer(writing).count, Min(65_536, pending.packet.Len() - pending.offset))
    ensures rx.inbound == [] && Answer(reading).GotBytes? ==>
      ReadOf(PlannedRead(rx, reading)) == Answer(reading).chunk[..Min(65_536, |Answer(reading).chunk|)]
    ensures Answer(writing).WouldBlock? || Answer(writing).Interrupted? ==>
      PlannedWrite(tx, writing) == [] && TcpWorker.EndOfWrite(tx, writing).None?
    ensures Answer(reading).WouldBlock? || Answer(reading).Interrupted? ==>
      PlannedRead(rx, reading) == [] && TcpWorker.EndOfRead(rx, reading).None?
    ensures var end := TcpWorker.EndOfWrite(tx, writing);
      && (end == Some(NoProgress) <==> tx.outgoing.Some? && Answer(writing) == Wrote(0))
      && (end == Some(IoFailed) <==> tx.outgoing.Some? && Answer(writing).Failed?)
    ensures var end := TcpWorker.EndOfRead(rx, reading);
      && (end == Some(PeerClosed) <==> rx.inbound == [] && Answer(reading) == GotBytes([]))
      && (end == Some(IoFailed) <==> rx.inbound == [] && Answer(reading).Failed?)
  {
    if tx.outgoing.Some? && Answer(writing).Wrote? {
      OneTxStep(tx, TWrite(AnswerTo(tx.outgoing.value, writing).count));
      OneTxStep(tx, TStop);
    }
    if rx.inbound == [] && Answer(reading).GotBytes? {
      var chunk := Answer(reading).chunk;
      SingleRx(rx, RRead(chunk[..Min(TCP_IO_CHUNK_BYTES, |chunk|)]));
      SingleRx(rx, RStop);
    }
  }

  lemma NothingYet(a: EndState, taking: seq<Io>, given: seq<Io>)
    requires Placed(a.tx)
    ensures KeepsWriting(a, NO_TRACE, taking, 0, 0) && KeepsReading(a, NO_TRACE, given, 0, 0)
    ensures Skip(taking, 0) == taking && Skip(given, 0) == given
  {
    NoSteps(a.tx);
    hide ToWrite, TxRun;
  }

  lemma SkipOne(plan: seq<Io>, n: nat)
    ensures Remaining(Skip(plan, n)) == Skip(plan, n + 1)
  {
  }

  lemma TurnWrites(a: EndState, s: Trace, c: EndState, taken: nat, drained: nat, writing: seq<Io>, reading: seq<Io>)
    requires Path(a, s, c) && a.tx.running && c.tx.running && Placed(a.tx) && taken <= |s.t| && drained <= |s.r|
    requires TurnOf(a, s, taken, drained, writing, reading) && a.tx.up && Undisturbed(s.t)
    ensures Emptied(c.tx) || TxRun(a.tx, s.t[..taken]).0.outgoing.Some?
    ensures Answer(writing).Wrote? && Answer(writing).count > 0 ==> Put(a, s) != [] || Emptied(c.tx)
  {
    hide TxRun, EndsWithPull, Emptied, Disciplined, RxRun, Refusals, PlannedRead, ToWrite, Undisturbed;
    var first, rest := s.t[..taken], s.t[taken..];
    assert s.t == first + rest;
    TxRunAppend(a.tx, first, rest);
    var middle := TxRun(a.tx, first).0;
    BothUndisturbed(first, rest);
    RunConserves(a.tx, first);
    RunConserves(middle, rest);
    if a.tx.outgoing.None? {
      EndsWithAPull(a.tx, first);
    }
    if middle.outgoing.Some? {
      PlanOfWrite(middle, writing);
      if rest != [] {
        OneTxStep(middle, rest[0]);
      }
    } else {
      NoSteps(middle);
    }
  }

  /** One more turn, and the answers it used. */
  lemma OneMoreTurn(a: EndState, s: Trace, b: EndState, s1: Trace, c: EndState, turns: nat, taken: nat, drained: nat,
                    taking: seq<Io>, w: nat, given: seq<Io>, n: nat) returns (w': nat, n': nat)
    requires Path(a, s, b) && Path(b, s1, c) && b.tx.running && c.tx.running && Placed(a.tx) && Placed(b.tx)
    requires taken <= |s1.t| && drained <= |s1.r| && TurnOf(b, s1, taken, drained, Skip(taking, w), Skip(given, n))
    requires KeepsWriting(a, s, taking, w, turns) && KeepsReading(a, s, given, n, turns)
    ensures AfterWrite(TxRun(b.tx, s1.t[..taken]).0, Skip(taking, w)) == Skip(taking, w')
    ensures AfterRead(RxRun(b.rx, s1.r[..drained]), Skip(given, n)) == Skip(given, n')
    ensures KeepsWriting(a, s.Then(s1), taking, w', turns + 1) && KeepsReading(a, s.Then(s1), given, n', turns + 1)
  {
    hide TxRun, RxRun, Disciplined, TurnOf, KeepsWriting, KeepsReading, Skip, Remaining;
    w' := if TxRun(b.tx, s1.t[..taken]).0.outgoing.None? then w else w + 1;
    n' := if RxRun(b.rx, s1.r[..drained]).inbound != [] then n else n + 1;
    SkipOne(taking, w);
    SkipOne(given, n);
    MoreWritten(a, s, b, s1, c, turns, taken, drained, taking, w, Skip(given, n));
    MoreRead(a, s, b, s1, c, turns, taken, drained, given, n, Skip(taking, w));
  }

  lemma MoreWritten(a: EndState, s: Trace, b: EndState, s1: Trace, c: EndState, turns: nat,
                    taken: nat, drained: nat, taking: seq<Io>, w: nat, reading: seq<Io>)
    requires Path(a, s, b) && Path(b, s1, c) && b.tx.running && c.tx.running && Placed(a.tx) && Placed(b.tx)
    requires taken <= |s1.t| && drained <= |s1.r| && TurnOf(b, s1, taken, drained, Skip(taking, w), reading)
    requires KeepsWriting(a, s, taking, w, turns)
    ensures var w' := if TxRun(b.tx, s1.t[..taken]).0.outgoing.None? then w else w + 1;
      KeepsWriting(a, s.Then(s1), taking, w', turns + 1)
  {
    hide TxRun, RxRun, Disciplined, TurnOf, Emptied, ToWrite, Undisturbed, Skip;
    if a.tx.up && Undisturbed(s.t + s1.t) {
      BothUndisturbed(s.t, s1.t);
      RunConserves(a.tx, s.t);
      RunConserves(a.tx, s.t + s1.t);
      TxRunAppend(a.tx, s.t, s1.t);
      TurnWrites(b, s1, c, taken, drained, Skip(taking, w), reading);
      if Emptied(b.tx) {
        EmptiedStays(b.tx, s1.t);
      }
    }
  }

  lemma MoreRead(a: EndState, s: Trace, b: EndState, s1: Trace, c: EndState, turns: nat,
                 taken: nat, drained: nat, given: seq<Io>, n: nat, writing: seq<Io>)
    requires Path(a, s, b) && Path(b, s1, c)
    requires taken <= |s1.t| && drained <= |s1.r| && TurnOf(b, s1, taken, drained, writing, Skip(given, n))
    requires KeepsReading(a, s, given, n, turns)
    ensures var n' := if RxRun(b.rx, s1.r[..drained]).inbound != [] then n else n + 1;
      KeepsReading(a, s.Then(s1), given, n', turns + 1)
  {
    hide TxRun, RxRun, Disciplined, Refusals, EndsWithPull, PlannedWrite, PlannedRead, ReadOf, Skip;
    RefusalsAppend(a.rx, s.r, s1.r);
    ReadOfAppend(s.r, s1.r);
    var first, rest := s1.r[..drained], s1.r[drained..];
    assert s1.r == first + rest && [] + ReadOf(rest) == ReadOf(rest);
    ReadOfAppend(first, rest);
    WhatIsRead(RxRun(b.rx, first), Skip(given, n));
    assert ReadOf(s.r) + [] == ReadOf(s.r);
  }

  lemma WhatIsRead(rx: Rx, plan: seq<Io>)
    ensures var io := Answer(plan);
      ReadOf(PlannedRead(rx, plan)) ==
        if rx.inbound == [] && io.GotBytes? then io.chunk[..Min(TCP_IO_CHUNK_BYTES, |io.chunk|)] else []
  {
    var r := PlannedRead(rx, plan);
    if r != [] {
      SingleRx(rx, r[0]);
      assert r == [r[0]];
    }
  }

  /** The answer decides the write, as the source's match does. */
  lemma PlanOfWrite(tx: Tx, plan: seq<Io>)
    requires Placed(tx)
    ensures tx.outgoing.None? ==> PlannedWrite(tx, plan) == [] && TcpWorker.EndOfWrite(tx, plan) == None
    ensures tx.outgoing.Some? ==> var io := AnswerTo(tx.outgoing.value, plan);
      && PlannedWrite(tx, plan) ==
           (if io.Wrote? && io.count > 0 then [TWrite(io.count)] else if io.Wrote? || io.Failed? then [TStop] else [])
      && TcpWorker.EndOfWrite(tx, plan) ==
           (if io.Failed? then Some(IoFailed) else if io == Wrote(0) then Some(NoProgress) else None)
  {
  }

  lemma AdvanceAccount(st: Status, a: EndState, s: Trace, n: nat, finished: nat)
    requires Amount(a, s) == (n, finished, 0, 0)
    ensures Account(st, a, s) == st.Wrote(n, finished)
  {
    hide Amount;
  }
}
