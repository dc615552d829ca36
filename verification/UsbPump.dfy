/** The USB worker, the second pump over the same stream link
    (apps/desktop/src-tauri/src/platform/windows/usb_accessory.rs:599-712). It
    takes the same steps of the pipe as the TCP worker, with one difference: it
    does not keep decoded packets waiting, so a full queue ends its session. */
module UsbPump {
  import opened Wrappers
  import opened Words
  import opened Frames
  import opened Packets
  import opened Loopback
  import opened Applications
  import opened LdflStream
  import opened Pipeline
  import opened Endpoints
  import opened StreamWorkers
  import opened TurnProgress

  const BULK_TRANSFER_BYTES: nat := 64 * 1_024

  datatype BulkAnswer = Took(count: nat) | Gave(chunk: bytes) | TimedOut | BulkFailed

  /** A device that follows an arbitrary plan of answers to its writes and one to
      its reads: it takes what it is offered up to the count it plans, and may
      claim a larger count than it was offered. Past the end of a plan writes
      fail and reads time out. */
  class BulkDevice {
    var writeAnswers: seq<BulkAnswer>
    var readAnswers: seq<BulkAnswer>
    var received: bytes
    var given: bytes

    constructor (writeAnswers: seq<BulkAnswer>, readAnswers: seq<BulkAnswer>)
      ensures this.writeAnswers == writeAnswers && this.readAnswers == readAnswers && received == [] && given == []
    {
      this.writeAnswers, this.readAnswers := writeAnswers, readAnswers;
      received, given := [], [];
    }

    method Write(chunk: bytes) returns (answer: BulkAnswer)
      requires 0 < |chunk| <= BULK_TRANSFER_BYTES
      modifies this`writeAnswers, this`received
      ensures answer == WriteAnswer(old(writeAnswers)) && writeAnswers == Skip(old(writeAnswers), 1)
      ensures received == old(received) +
        (if answer.Took? then chunk[..Min(answer.count, |chunk|)] else [])
    {
      answer := WriteAnswer(writeAnswers);
      writeAnswers := Skip(writeAnswers, 1);
      assert received + [] == received;
      if answer.Took? {
        received := received + chunk[..Min(answer.count, |chunk|)];
      }
    }

    method Read() returns (answer: BulkAnswer)
      modifies this`readAnswers, this`given
      ensures answer == ReadAnswer(old(readAnswers)) && readAnswers == Skip(old(readAnswers), 1)
      ensures given == old(given) + BytesIn(answer)
    {
      assert given + [] == given;
      answer := ReadAnswer(readAnswers);
      readAnswers := Skip(readAnswers, 1);
      if answer.Gave? {
        given := given + answer.chunk;
      }
    }
  }

  function WriteAnswer(plan: seq<BulkAnswer>): (answer: BulkAnswer)
    ensures answer.Took? || answer.BulkFailed?
  {
    if plan == [] || !plan[0].Took? then BulkFailed else plan[0]
  }

  /** What the next read returns: at most a transfer; reading zero bytes is
      treated like a timeout. */
  function ReadAnswer(plan: seq<BulkAnswer>): (answer: BulkAnswer)
    ensures !answer.Took?
    ensures answer.Gave? ==> 0 < |answer.chunk| <= BULK_TRANSFER_BYTES
  {
    if plan == [] then TimedOut
    else match plan[0]
      case Gave(chunk) => if chunk == [] then TimedOut else Gave(chunk[..Min(BULK_TRANSFER_BYTES, |chunk|)])
      case Took(_) => BulkFailed
      case other => other
  }

  function BytesIn(answer: BulkAnswer): bytes { if answer.Gave? then answer.chunk else [] }

  /** The step the read of a turn starts with. */
  function PlannedRead(plan: seq<BulkAnswer>): seq<RxStep> {
    match ReadAnswer(plan)
    case Gave(chunk) => [RRead(chunk)]
    case BulkFailed => [RStop]
    case _ => []
  }

  // ---- Chunked writes ---------------------------------------------------------------

  datatype WriteError = TransferFailed | ZeroWrite | ClaimedTooMuch(claimed: nat, offered: nat)

  /** The write steps for a payload taken in pieces of these sizes. */
  function WriteSteps(counts: seq<nat>): seq<TxStep> {
    seq(|counts|, i requires 0 <= i < |counts| => TWrite(counts[i]))
  }

  function Sum(counts: seq<nat>): nat
    decreases |counts|
  {
    if counts == [] then 0 else Sum(counts[..|counts| - 1]) + counts[|counts| - 1]
  }

  ghost predicate Pieces(counts: seq<nat>) {
    forall i :: 0 <= i < |counts| ==> 0 < counts[i] <= BULK_TRANSFER_BYTES
  }

  lemma NextPiece(payload: bytes, offset: nat, end: nat, kept: nat)
    requires offset + kept <= end <= |payload|
    ensures payload[..offset] + payload[offset..end][..kept] == payload[..offset + kept]
  {
  }

  /** What becomes of a write with `rest` bytes to go. */
  function WriteOutcome(rest: nat, plan: seq<BulkAnswer>): Result<(), WriteError>
    decreases rest
  {
    if rest == 0 then Ok(()) else
    var answer, offered := WriteAnswer(plan), Min(BULK_TRANSFER_BYTES, rest);
    if answer.BulkFailed? then Err(TransferFailed)
    else if answer.count == 0 then Err(ZeroWrite)
    else if answer.count > offered then Err(ClaimedTooMuch(answer.count, offered))
    else WriteOutcome(rest - answer.count, Skip(plan, 1))
  }

  /** Write a whole payload in bounded chunks. Success means that the device
      received exactly the payload; any failure, that it received the first
      `taken` bytes of it. */
  method WriteChunked(payload: bytes, device: BulkDevice)
    returns (r: Result<(), WriteError>, taken: nat, ghost counts: seq<nat>)
    modifies device`writeAnswers, device`received
    ensures r == WriteOutcome(|payload|, old(device.writeAnswers))
    ensures taken == Sum(counts) <= |payload| && device.received == old(device.received) + payload[..taken]
    ensures r.Ok? ==> taken == |payload|
    ensures r.Err? ==> payload != []
    ensures Pieces(counts)
    ensures r.Ok? ==> device.writeAnswers == Skip(old(device.writeAnswers), |counts|)
  {
    taken, counts := 0, [];
    assert device.received + payload[..0] == device.received;
    while taken < |payload|
      invariant taken <= |payload|
      invariant device.received == old(device.received) + payload[..taken]
      invariant taken == Sum(counts) && Pieces(counts)
      invariant device.writeAnswers == Skip(old(device.writeAnswers), |counts|)
      invariant WriteOutcome(|payload|, old(device.writeAnswers)) == WriteOutcome(|payload| - taken, device.writeAnswers)
      decreases |payload| - taken
    {
      var end := Min(taken + BULK_TRANSFER_BYTES, |payload|);
      var chunk := payload[taken..end];
      var answer := device.Write(chunk);
      if answer.BulkFailed? {
        return Err(TransferFailed), taken, counts;
      }
      var written := answer.count;
      var kept := Min(written, |chunk|);
      NextPiece(payload, taken, end, kept);
      Associate(old(device.received), payload[..taken], chunk[..kept]);
      if written == 0 {
        return Err(ZeroWrite), taken, counts;
      }
      assert (counts + [kept])[..|counts|] == counts;
      if written > |chunk| {
        return Err(ClaimedTooMuch(written, |chunk|)), taken + kept, counts + [kept];
      }
      taken := taken + written;
      counts := counts + [kept];
    }
    return Ok(()), taken, counts;
  }

  /** The bytes the first `n` of these answers claim. */
  function Claimed(plan: seq<BulkAnswer>, n: nat): nat
    decreases n
  {
    if n == 0 || WriteAnswer(plan).BulkFailed? then 0 else WriteAnswer(plan).count + Claimed(Skip(plan, 1), n - 1)
  }

  /** The answer at `i` takes some, and no more than the chunk offered. */
  ghost predicate TakesSome(rest: nat, plan: seq<BulkAnswer>, i: nat)
    requires i < |plan|
  {
    plan[i].Took? && 0 < plan[i].count <= Min(64 * 1_024, rest - Claimed(plan, i))
  }

  /** The first `n` answers do, and together take it all. */
  ghost predicate Covers(rest: nat, plan: seq<BulkAnswer>, n: nat) {
    n <= |plan| && Claimed(plan, n) == rest && forall i :: 0 <= i < n ==> TakesSome(rest, plan, i)
  }

  /** A write succeeds exactly when the device's answers cover it, each taking at
      least a byte and at most the chunk of 64 KiB, or of what is left, that it
      was offered. */
  lemma {:induction false} WhenWritten(rest: nat, plan: seq<BulkAnswer>)
    ensures WriteOutcome(rest, plan).Ok? <==> exists n: nat :: Covers(rest, plan, n)
    decreases rest
  {
    if rest == 0 {
      assert Covers(rest, plan, 0);
    } else {
      var answer := WriteAnswer(plan);
      if answer.Took? && 0 < answer.count <= Min(BULK_TRANSFER_BYTES, rest) {
        WhenWritten(rest - answer.count, Skip(plan, 1));
        CoversCons(rest, plan);
      } else {
        forall n: nat | Covers(rest, plan, n)
          ensures false
        {
          CoversNeedsFirst(rest, plan, n);
        }
      }
    }
  }

  lemma CoversNeedsFirst(rest: nat, plan: seq<BulkAnswer>, n: nat)
    requires rest > 0 && Covers(rest, plan, n)
    ensures n > 0 && WriteAnswer(plan).Took? && 0 < WriteAnswer(plan).count <= Min(BULK_TRANSFER_BYTES, rest)
  {
    assert Claimed(plan, 0) == 0;
    assert n > 0 && TakesSome(rest, plan, 0);
  }

  lemma CoversCons(rest: nat, plan: seq<BulkAnswer>)
    requires rest > 0 && WriteAnswer(plan).Took? && 0 < WriteAnswer(plan).count <= Min(BULK_TRANSFER_BYTES, rest)
    ensures var left, tail := rest - WriteAnswer(plan).count, Skip(plan, 1);
      (exists n: nat :: Covers(rest, plan, n)) <==> exists n: nat :: Covers(left, tail, n)
  {
    var left, tail := rest - WriteAnswer(plan).count, Skip(plan, 1);
    if n: nat :| Covers(left, tail, n) {
      CoversMore(rest, plan, n);
      assert Covers(rest, plan, n + 1);
    }
    if n: nat :| Covers(rest, plan, n) {
      CoversNeedsFirst(rest, plan, n);
      CoversMore(rest, plan, n - 1);
      assert Covers(left, tail, n - 1);
    }
  }

  lemma CoversMore(rest: nat, plan: seq<BulkAnswer>, n: nat)
    requires rest > 0 && WriteAnswer(plan).Took? && 0 < WriteAnswer(plan).count <= Min(BULK_TRANSFER_BYTES, rest)
    ensures Covers(rest, plan, n + 1) <==> Covers(rest - WriteAnswer(plan).count, Skip(plan, 1), n)
  {
    var left, tail := rest - WriteAnswer(plan).count, Skip(plan, 1);
    assert Claimed(plan, n + 1) == plan[0].count + Claimed(tail, n);
    assert Claimed(plan, 0) == 0 && TakesSome(rest, plan, 0);
    forall i | 0 <= i < |tail|
      ensures TakesSome(rest, plan, i + 1) <==> TakesSome(left, tail, i)
    {
      TakesSomeLater(rest, plan, i);
    }
    hide TakesSome, Claimed;
    assert |plan| == |tail| + 1;
    if Covers(rest, plan, n + 1) {
      forall i | 0 <= i < n
        ensures TakesSome(left, tail, i)
      {
        assert TakesSome(left, tail, i) <==> TakesSome(rest, plan, i + 1);
      }
    }
    if Covers(left, tail, n) {
      forall i | 0 <= i < n + 1
        ensures TakesSome(rest, plan, i)
      {
        if i > 0 {
          assert TakesSome(left, tail, i - 1) <==> TakesSome(rest, plan, (i - 1) + 1);
        }
      }
    }
  }

  lemma TakesSomeLater(rest: nat, plan: seq<BulkAnswer>, i: nat)
    requires WriteAnswer(plan).Took? && WriteAnswer(plan).count <= rest && i + 1 < |plan|
    ensures TakesSome(rest, plan, i + 1) <==> TakesSome(rest - WriteAnswer(plan).count, Skip(plan, 1), i)
  {
    assert Claimed(plan, i + 1) == plan[0].count + Claimed(Skip(plan, 1), i);
  }

  /** However a packet is cut into pieces, writing them is a run of write steps
      of the pipe that puts exactly those bytes on the wire. */
  lemma {:induction false} PiecesArePipeWrites(tx: Tx, pending: Pending, counts: seq<nat>)
    requires tx.running && tx.outgoing == Some(pending) && pending.offset < pending.packet.Len()
    requires Pieces(counts) && pending.offset + Sum(counts) <= pending.packet.Len()
    ensures var (tx', written) := TxRun(tx, WriteSteps(counts)); var offset := pending.offset + Sum(counts);
      && written == pending.packet.payload[pending.offset..offset]
      && tx' == tx.(outgoing := if offset == pending.packet.Len() then None else Some(pending.(offset := offset)))
    decreases |counts|
  {
    hide TxRun;
    var payload, from := pending.packet.payload, pending.offset;
    if counts == [] {
      NoSteps(tx);
      assert WriteSteps([]) == [];
    } else {
      var front, last := counts[..|counts| - 1], counts[|counts| - 1];
      PiecesArePipeWrites(tx, pending, front);
      assert WriteSteps(counts) == WriteSteps(front) + [TWrite(last)];
      TxRunMore(tx, WriteSteps(front), TWrite(last));
      var middle := from + Sum(front);
      assert payload[from..middle] + payload[middle..middle + last] == payload[from..middle + last];
    }
  }

  // ---- The worker ---------------------------------------------------------------------

  datatype UsbEnd =
    | QueueInvalid | WriteFailed(cause: WriteError) | StreamInvalid | QueueRejected(refusal: SendError) | ReadFailed

  predicate Rejected(end: Option<UsbEnd>) { end.Some? && end.value.QueueRejected? }

  /** A worker's endpoint and the status it reports. The packet being written
      and the decoded packets are local to one turn, and given up when the
      worker ends. */
  class UsbWorker {
    const e: StreamEndpoint
    var status: Status

    ghost function Objects(): set<object> { {this} + e.Objects() }

    ghost predicate Valid()
      reads Objects()
    {
      e.Valid() && this !in e.Objects()
    }

    /** Between two turns nothing is half done. */
    ghost predicate Settled()
      reads e
    {
      e.running ==> e.outgoing.None? && e.inbound == []
    }

    constructor (link: Link)
      requires link.Valid()
      ensures Valid() && Settled() && e.link == link && fresh(Objects() - link.Objects())
      ensures e.running && status == NO_STATUS
    {
      e := new StreamEndpoint(link);
      status := NO_STATUS;
    }

    /** Write the pulled packet to its end, or end the worker. Only a packet
        written whole is counted. */
    method WriteWhole(device: BulkDevice) returns (end: Option<UsbEnd>, ghost s: Trace)
      requires Valid() && e.running && device !in Objects()
      requires e.outgoing.Some? && e.outgoing.value.offset == 0
      modifies this`status, e`outgoing, e`running, device`writeAnswers, device`received
      ensures Valid() && e.running == end.None?
      ensures var outcome := WriteOutcome(old(e.outgoing).value.packet.Len(), old(device.writeAnswers));
        end == if outcome.Ok? then None else Some(WriteFailed(outcome.error))
      ensures Path(old(e.State()), s, e.State()) && Got(s) == []
      ensures AllTaken(old(e.State()).rx, s.r)
      ensures device.received == old(device.received) + Put(old(e.State()), s)
      ensures end.None? ==> e.outgoing.None? && Put(old(e.State()), s) == old(e.outgoing).value.packet.payload
      ensures status == if end.None? then Account(old(status), old(e.State()), s) else old(status)
      ensures end.None? ==> s.r == [] && device.writeAnswers == Skip(old(device.writeAnswers), |s.t|)
      ensures end.None? ==> Finished(old(e.State()).tx, s.t) == 1
      ensures unchanged(e`inbound)
    {
      hide Refusals, Path, Put, Got, Account, Quiet, Finished, e.State, e.Valid, Pieces, Sum, WriteOutcome, ReadCounts;
      ghost var a := e.State();
      e.StateFields();
      PulledIsNotEmpty();
      var packet := e.outgoing.value.packet;
      var written, taken;
      ghost var counts;
      written, taken, counts := WriteChunked(packet.payload, device);
      NothingOffered(a.rx, []);
      s := TakeDown(packet, taken, counts);
      if written.Err? {
        end := Some(WriteFailed(written.error));
        ghost var b := e.State();
        ghost var last := e.End();
        Join(a, s, b, last, e.State());
        s := s.Then(last);
        return;
      }
      end := None;
      assert packet.payload[..packet.Len()] == packet.payload;
      WholeAccount(status, a, s, packet.Len());
      status := status.Wrote(taken, 1);
    }

    lemma PulledIsNotEmpty()
      requires Valid() && e.outgoing.Some?
      ensures e.outgoing.value.offset < e.outgoing.value.packet.Len()
    {
    }

    /** The pieces the device took, as write steps. */
    method TakeDown(packet: Packet, taken: nat, ghost counts: seq<nat>) returns (ghost s: Trace)
      requires Valid() && e.running && e.outgoing == Some(Pending(packet, 0))
      requires Pieces(counts) && taken == Sum(counts) <= packet.Len()
      modifies e`outgoing
      ensures Valid() && s == Trace(WriteSteps(counts), []) && Path(old(e.State()), s, e.State())
      ensures Put(old(e.State()), s) == packet.payload[..taken] && Got(s) == []
      ensures e.outgoing == if taken == packet.Len() then None else Some(Pending(packet, taken))
      ensures Amount(old(e.State()), s) == (taken, if e.outgoing.None? then 1 else 0, 0, 0)
    {
      hide e.link.Valid, e.link.State, TxRun, Finished, Sum, Pieces;
      ghost var a := e.State();
      s := Trace(WriteSteps(counts), []);
      PiecesArePipeWrites(a.tx, Pending(packet, 0), counts);
      PiecesFinish(a.tx, Pending(packet, 0), counts);
      assert packet.payload[0..taken] == packet.payload[..taken];
      StayPut(a);
      e.outgoing := if taken == packet.Len() then None else Some(Pending(packet, taken));
    }

    /** The sending half of a turn: the next packet, pulled by the first
        `pulled` steps, and written whole by the rest. */
    method SendOne(device: BulkDevice, others: Application) returns (end: Option<UsbEnd>, ghost s: Trace, ghost pulled: nat)
      requires Valid() && e.running && Settled() && device !in Objects() && others !in Objects()
      modifies Objects(), others, device
      ensures Valid() && e.running == end.None? && Settled()
      ensures pulled <= |s.t| && EndsWithPull(s.t[..pulled])
      ensures end.Some? ==> end.value.QueueInvalid? || end.value.WriteFailed?
      ensures end == Some(QueueInvalid) ==> TStop !in s.t
      ensures end.Some? && !end.value.QueueInvalid? ==>
        WriteEnded(end, TxRun(old(e.State()).tx, s.t[..pulled]).0, old(device.writeAnswers))
      ensures Path(old(e.State()), s, e.State()) && Got(s) == [] && AllTaken(old(e.State()).rx, s.r)
      ensures device.received == old(device.received) + Put(old(e.State()), s) && device.given == old(device.given)
      ensures status == if end.Some? && end.value.WriteFailed? then old(status) else Account(old(status), old(e.State()), s)
      ensures device.readAnswers == old(device.readAnswers)
      ensures end.None? ==>
        && device.writeAnswers == Skip(old(device.writeAnswers), |s.t| - pulled)
        && Finished(old(e.State()).tx, s.t) == (if TxRun(old(e.State()).tx, s.t[..pulled]).0.outgoing.Some? then 1 else 0)
    {
      hide Refusals, Quiet, e.State, e.Valid, Put, Got, Account, EndsWithPull, TxRun, RxRun, Disciplined, Finished,
           WriteOutcome, Skip;
      ghost var a := e.State();
      SkipNone(device.writeAnswers);
      s := e.Interfere(others);
      ghost var b := e.State();
      ghost var s1 := e.PullNext(others);
      ghost var c := e.State();
      Join(a, s, b, s1, c);
      PullLater(s.t, s1.t);
      s, end := s.Then(s1), if e.running then None else Some(QueueInvalid);
      pulled := |s.t|;
      assert s.t[..pulled] == s.t;
      QuietAccount(status, a, s);
      QuietIsSilent(a, s);
      QuietFinishes(a, s);
      e.StateFields();
      assert device.received + [] == device.received;
      if e.outgoing.Some? {
        end, s1 := WriteWhole(device);
        Join(a, s, c, s1, e.State());
        assert (s.t + s1.t)[..pulled] == s.t;
        s := s.Then(s1);
      }
    }

    /** Offer every decoded packet in turn; the first refusal ends the worker,
        and with it the packets after it. */
    method OfferAll(others: Application) returns (end: Option<UsbEnd>, ghost s: Trace)
      requires Valid() && e.running && e.outgoing.None? && others !in Objects()
      modifies e.Objects(), others
      ensures Valid() && e.running == end.None? && e.outgoing.None?
      ensures Path(old(e.State()), s, e.State()) && Quiet(old(e.State()), s)
      ensures end.None? ==> e.inbound == []
      ensures end.Some? ==> end.value.QueueRejected?
      ensures end.None? <==> AllTaken(old(e.State()).rx, s.r)
    {
      hide Refusals, Path, Quiet, e.State, e.Valid, PushQueue;
      ghost var a := e.State();
      s := NO_TRACE;
      StayPut(a);
      NothingOffered(a.rx, []);
      while e.inbound != []
        invariant Valid() && e.running && e.outgoing.None? && Path(a, s, e.State()) && Quiet(a, s)
        invariant AllTaken(a.rx, s.r)
        decreases |e.inbound|
      {
        ghost var b := e.State();
        var result;
        ghost var s1;
        result, s1 := e.OfferNext(others);
        ghost var d := e.State();
        Join(a, s, b, s1, d);
        s := s.Then(s1);
        if result.Err? {
          s1 := e.End();
          Join(a, s, d, s1, e.State());
          s := s.Then(s1);
          return Some(QueueRejected(result.error)), s;
        }
      }
      return None, s;
    }

    /** The receiving half of a turn. What was read is counted only after every
        packet decoded from it was accepted. */
    method ReceiveOnce(device: BulkDevice, others: Application) returns (end: Option<UsbEnd>, ghost s: Trace)
      requires Valid() && e.running && Settled() && device !in Objects() && others !in Objects()
      modifies Objects(), others, device
      ensures Valid() && e.running == end.None? && Settled()
      ensures Rejected(end) <==> !AllTaken(old(e.State()).rx, s.r)
      ensures end.Some? ==> end.value.ReadFailed? || end.value.StreamInvalid? || end.value.QueueRejected?
      ensures end.Some? ==> Rejected(end) || ReadEnded(end, old(e.State()).rx, old(device.readAnswers))
      ensures Path(old(e.State()), s, e.State()) && Put(old(e.State()), s) == [] && device.received == old(device.received)
      ensures device.given == old(device.given) + Got(s) && Got(s) == BytesIn(ReadAnswer(old(device.readAnswers)))
      ensures device.readAnswers == Skip(old(device.readAnswers), 1) && device.writeAnswers == old(device.writeAnswers)
      ensures PlannedRead(old(device.readAnswers)) <= s.r
      ensures end.None? ==> status == Account(old(status), old(e.State()), s) && Finished(old(e.State()).tx, s.t) == 0
      ensures end.Some? ==> status == old(status)
    {
      hide Refusals, Path, Quiet, e.State, e.Valid, Put, Got, Account, Amount, PushChunk, Finished;
      ghost var a := e.State();
      e.StateFields();
      s := NO_TRACE;
      StayPut(a);
      NothingOffered(a.rx, []);
      QuietAccount(status, a, s);
      QuietIsSilent(a, s);
      QuietFinishes(a, s);
      assert device.given + [] == device.given;
      var answer := device.Read();
      if answer.TimedOut? {
        return None, s;
      }
      if answer.BulkFailed? {
        s := e.End();
        QuietIsSilent(a, s);
        return Some(ReadFailed), s;
      }
      s := e.Decode(answer.chunk);
      if !e.running {
        return Some(StreamInvalid), s;
      }
      var frames := |e.inbound|;
      DecodeAccount(status, a, s);
      DecodeFinishes(a, s);
      ghost var b := e.State();
      ghost var s1;
      end, s1 := OfferAll(others);
      Join(a, s, b, s1, e.State());
      QuietAccount(Account(status, a, s), b, s1);
      QuietFinishes(b, s1);
      s := s.Then(s1);
      if end.None? {
        status := status.Read(|answer.chunk|, frames);
      }
    }

    /** One turn of the loop: pull at most one packet, by the first `pulled`
        steps, and write it whole, up to the `written`th; then read once, from the
        `reading`th step of the other half on. */
    method Turn(device: BulkDevice, others: Application)
      returns (end: Option<UsbEnd>, ghost s: Trace, ghost pulled: nat, ghost written: nat, ghost reading: nat)
      requires Valid() && e.running && Settled() && device !in Objects() && others !in Objects()
      modifies Objects(), device, others
      ensures Valid() && e.running == end.None? && Settled()
      ensures Path(old(e.State()), s, e.State())
      ensures Rejected(end) <==> !AllTaken(old(e.State()).rx, s.r)
      ensures device.received == old(device.received) + Put(old(e.State()), s)
      ensures device.given == old(device.given) + Got(s)
      ensures end.None? || end.value.QueueInvalid? ==> status == Account(old(status), old(e.State()), s)
      ensures end.Some? && end.value.WriteFailed? ==> status == old(status)
      ensures end.Some? && (end.value.QueueInvalid? || end.value.WriteFailed?) ==>
        Got(s) == [] && device.readAnswers == old(device.readAnswers)
      ensures pulled <= written <= |s.t| && EndsWithPull(s.t[..pulled]) && reading <= |s.r|
      ensures end.Some? && !end.value.QueueInvalid? && !end.value.WriteFailed? ==>
        status == Account(old(status), old(e.State()), Trace(s.t[..written], s.r[..reading]))
      ensures Ended(end, old(e.State()), s, Trace(s.t[..pulled], s.r[..reading]),
                    old(device.writeAnswers), old(device.readAnswers))
      ensures end.None? ==>
        && device.writeAnswers == Skip(old(device.writeAnswers), written - pulled)
        && device.readAnswers == Skip(old(device.readAnswers), 1)
        && PlannedRead(old(device.readAnswers)) <= s.r[reading..]
        && Got(s) == BytesIn(ReadAnswer(old(device.readAnswers)))
        && Finished(old(e.State()).tx, s.t) == (if TxRun(old(e.State()).tx, s.t[..pulled]).0.outgoing.Some? then 1 else 0)
    {
      hide Refusals, Quiet, e.State, e.Valid, Put, Got, Account, EndsWithPull, PlannedRead, TxRun, RxRun, Disciplined,
           WriteEnded, ReadEnded, Finished;
      ghost var a := e.State();
      end, s, pulled := SendOne(device, others);
      written, reading := |s.t|, |s.r|;
      assert device.given + [] == device.given;
      assert s.r[..reading] == s.r;
      if end.Some? {
        return;
      }
      ghost var b := e.State();
      ghost var s1;
      end, s1 := ReceiveOnce(device, others);
      Join(a, s, b, s1, e.State());
      assert Put(a, s) + [] == Put(a, s) && [] + Got(s1) == Got(s1);
      assert (s.t + s1.t)[..pulled] == s.t[..pulled] && (s.r + s1.r)[reading..] == s1.r;
      assert (s.t + s1.t)[..written] == s.t && (s.r + s1.r)[..reading] == s.r;
      s := s.Then(s1);
    }

    /** Turns until an end of its own, or a cancellation after `turns` of them; it
        has then taken all of them, each reading once, and each, with nothing new
        sent, writing a whole packet until nothing is left to write. The status
        accounts for everything up to the last turn that did not fail: `counted`
        and `kept` steps of the two halves. An end of its own is that of the last
        turn: what its queue reported, a packet that was refused, or what the
        device answered after the history `last`. */
    method PumpBulkStream(device: BulkDevice, others: Application, turns: nat)
      returns (end: Option<UsbEnd>, ghost s: Trace, ghost counted: nat, ghost kept: nat,
               ghost last: Trace, ghost writes: nat, ghost readings: nat)
      requires Valid() && e.running && Settled() && device !in Objects() && others !in Objects()
      modifies Objects(), device, others
      ensures Valid() && e.running == end.None?
      ensures Path(old(e.State()), s, e.State())
      ensures Rejected(end) <==> !AllTaken(old(e.State()).rx, s.r)
      ensures device.received == old(device.received) + Put(old(e.State()), s)
      ensures device.given == old(device.given) + Got(s)
      ensures counted <= |s.t| && kept <= |s.r|
      ensures status == Account(old(status), old(e.State()), Trace(s.t[..counted], s.r[..kept]))
      ensures end.None? || end.value.QueueInvalid? ==> counted == |s.t| && kept == |s.r|
      ensures last.t <= s.t && last.r <= s.r
      ensures Ended(end, old(e.State()), s, last,
                    Skip(old(device.writeAnswers), writes), Skip(old(device.readAnswers), readings))
      ensures end.None? ==>
        && readings == turns && Got(s) == Gives(old(device.readAnswers), turns)
        && KeepsFinishing(old(e.State()), s, turns)
    {
      hide Refusals, Path, Quiet, e.State, e.Valid, Put, Got, Account, EndsWithPull, PlannedRead, Ended, KeepsFinishing,
           Gives, Skip, TxRun, RxRun, Finished;
      ghost var a := e.State();
      ghost var taking, given := device.writeAnswers, device.readAnswers;
      end, s, last := None, NO_TRACE, NO_TRACE;
      counted, kept, writes, readings := 0, 0, 0, 0;
      StayPut(a);
      StateIsPlaced();
      NothingOffered(a.rx, []);
      NothingYet(a, taking, given);
      QuietAccount(status, a, s);
      QuietIsSilent(a, s);
      assert device.received + [] == device.received && device.given + [] == device.given;
      assert Trace(s.t[..0], s.r[..0]) == s;
      var turn := 0;
      while turn < turns && end.None?
        invariant turn <= turns && Valid() && e.running == end.None? && Settled() && Path(a, s, e.State())
        invariant Rejected(end) <==> !AllTaken(a.rx, s.r)
        invariant device.received == old(device.received) + Put(a, s) && device.given == old(device.given) + Got(s)
        invariant counted <= |s.t| && kept <= |s.r|
        invariant status == Account(old(status), a, Trace(s.t[..counted], s.r[..kept]))
        invariant end.None? || end.value.QueueInvalid? ==> counted == |s.t| && kept == |s.r|
        invariant last.t <= s.t && last.r <= s.r
        invariant Ended(end, a, s, last, Skip(taking, writes), Skip(given, readings))
        invariant end.None? ==>
          && device.writeAnswers == Skip(taking, writes) && device.readAnswers == Skip(given, readings)
          && readings == turn && Got(s) == Gives(given, turn) && KeepsFinishing(a, s, turn)
      {
        ghost var b := e.State();
        ghost var before := status;
        ghost var s1, pulled, written, reading;
        StateIsPlaced();
        assert Trace(s.t[..counted], s.r[..kept]) == s;
        end, s1, pulled, written, reading := Turn(device, others);
        StateIsPlaced();
        Join(a, s, b, s1, e.State());
        Associate(old(device.received), Put(a, s), Put(b, s1));
        Associate(old(device.given), Got(s), Got(s1));
        ghost var later := s.Then(s1);
        last := s.Then(Trace(s1.t[..pulled], s1.r[..reading]));
        counted, kept := CountTurn(end, old(status), before, status, a, s, b, s1, written, reading);
        EndedLater(end, a, s, b, s1, e.State(), Trace(s1.t[..pulled], s1.r[..reading]), Skip(taking, writes), Skip(given, readings));
        if end.None? {
          writes, readings := OneMoreTurn(a, s, b, s1, e.State(), turn, pulled, taking, writes, written - pulled, given);
          NoEnd(a, later, last, Skip(taking, writes), Skip(given, readings));
        }
        s := later;
        turn := turn + 1;
      }
    }

    lemma StateIsPlaced()
      requires Valid()
      ensures Placed(e.State().tx) && e.State().tx.running == e.State().rx.running == e.running
    {
    }

    /** The whole worker: pump, then cut the link and discard what it holds.
        Every effect is a step of the pipe; a rejection is reported exactly when
        one of the packets offered to a queue was not taken, and the last error is
        the end of the turn that failed. */
    method RunBulkSession(device: BulkDevice, others: Application, turns: nat)
      returns (lastError: Option<UsbEnd>, ghost s: Trace, ghost counted: nat, ghost kept: nat,
               ghost pumped: Trace, ghost last: Trace, ghost writes: nat, ghost readings: nat)
      requires Valid() && e.running && Settled() && device !in Objects() && others !in Objects()
      modifies Objects(), device, others
      ensures Valid() && !e.running && !e.link.connected
      ensures Path(old(e.State()), s, e.State())
      ensures Rejected(lastError) <==> !AllTaken(old(e.State()).rx, s.r)
      ensures device.received == old(device.received) + Put(old(e.State()), s)
      ensures device.given == old(device.given) + Got(s)
      ensures counted <= |s.t| && kept <= |s.r|
      ensures status == Account(old(status), old(e.State()), Trace(s.t[..counted], s.r[..kept]))
      ensures last.t <= pumped.t <= s.t && last.r <= pumped.r <= s.r
      ensures Ended(lastError, old(e.State()), pumped, last,
                    Skip(old(device.writeAnswers), writes), Skip(old(device.readAnswers), readings))
      ensures lastError.None? ==>
        && readings == turns && Got(pumped) == Gives(old(device.readAnswers), turns)
        && KeepsFinishing(old(e.State()), pumped, turns)
    {
      hide Refusals, Path, Quiet, e.State, e.Valid, Put, Got, Account, Ended, KeepsFinishing, Gives, Skip, TxRun, RxRun;
      ghost var a := e.State();
      lastError, pumped, counted, kept, last, writes, readings := PumpBulkStream(device, others, turns);
      ghost var b := e.State();
      ghost var s1 := e.Interfere(others);
      ghost var c := e.State();
      ghost var s2 := e.Shut();
      Join(a, pumped, b, s1, c);
      Join(a, pumped.Then(s1), c, s2, e.State());
      s := pumped.Then(s1).Then(s2);
      StillAPrefix(pumped, s1, s2, counted, kept);
    }
  }

  lemma StillAPrefix(x: Trace, y: Trace, z: Trace, n: nat, m: nat)
    requires n <= |x.t| && m <= |x.r|
    ensures var s := x.Then(y).Then(z);
      x.t <= s.t && x.r <= s.r && s.t[..n] == x.t[..n] && s.r[..m] == x.r[..m]
  {
  }

  // ---- What the ends mean -----------------------------------------------------------------------

  predicate WriteEnded(end: Option<UsbEnd>, tx: Tx, writing: seq<BulkAnswer>) {
    && end.Some? && end.value.WriteFailed? && tx.outgoing.Some?
    && WriteOutcome(tx.outgoing.value.packet.Len(), writing) == Err(end.value.cause)
  }

  predicate ReadEnded(end: Option<UsbEnd>, rx: Rx, reading: seq<BulkAnswer>) {
    match ReadAnswer(reading)
    case Gave(chunk) => end == Some(StreamInvalid) && PushChunk(rx.buffer, MAX_BUFFERED_BYTES, chunk).0.Err?
    case BulkFailed => end == Some(ReadFailed)
    case _ => false
  }

  /** An end of a history whose I/O was last tried after `last`, with these
      answers to come. */
  ghost predicate Ended(end: Option<UsbEnd>, a: EndState, s: Trace, last: Trace,
                        writing: seq<BulkAnswer>, reading: seq<BulkAnswer>) {
    || end.None?
    || (end == Some(QueueInvalid) && TStop !in s.t)
    || WriteEnded(end, TxRun(a.tx, last.t).0, writing)
    || ReadEnded(end, RxRun(a.rx, last.r), reading)
    || (Rejected(end) && !AllTaken(a.rx, s.r))
  }

  lemma NoEnd(a: EndState, s: Trace, last: Trace, writing: seq<BulkAnswer>, reading: seq<BulkAnswer>)
    ensures Ended(None, a, s, last, writing, reading)
  {
  }

  lemma EndedLater(end: Option<UsbEnd>, a: EndState, s: Trace, b: EndState, s1: Trace, c: EndState, last: Trace,
                   writing: seq<BulkAnswer>, reading: seq<BulkAnswer>)
    requires Path(a, s, b) && b.tx.running && b.rx.running && Ended(end, b, s1, last, writing, reading)
    ensures Ended(end, a, s.Then(s1), s.Then(last), writing, reading)
  {
    RunningNeverStopped(a, s, b);
    hide TxRun, RxRun, Disciplined, WriteEnded, ReadEnded, Refusals;
    TxRunAppend(a.tx, s.t, last.t);
    RxRunAppend(a.rx, s.r, last.r);
    RefusalsAppend(a.rx, s.r, s1.r);
  }

  // ---- What the turns achieve ---------------------------------------------------------------------

  /** The bytes of the first `n` answers to a read. */
  function Gives(plan: seq<BulkAnswer>, n: nat): bytes
    decreases n
  {
    if n == 0 then [] else Gives(plan, n - 1) + BytesIn(ReadAnswer(Skip(plan, n - 1)))
  }

  /** Over an up link and with nothing new sent: each of the turns has written a
      packet whole, or nothing is left to write. */
  ghost predicate KeepsFinishing(a: EndState, s: Trace, turns: nat) {
    a.tx.up && Undisturbed(s.t) ==> Finished(a.tx, s.t) >= turns || Emptied(TxRun(a.tx, s.t).0)
  }

  lemma NothingYet(a: EndState, taking: seq<BulkAnswer>, given: seq<BulkAnswer>)
    ensures KeepsFinishing(a, NO_TRACE, 0) && Gives(given, 0) == []
    ensures Skip(taking, 0) == taking && Skip(given, 0) == given
    ensures Ended(None, a, NO_TRACE, NO_TRACE, taking, given)
  {
  }

  lemma SkipNone(plan: seq<BulkAnswer>)
    ensures Skip(plan, 0) == plan
  {
  }

  lemma SkipAgain(plan: seq<BulkAnswer>, n: nat, more: nat)
    ensures Skip(Skip(plan, n), more) == Skip(plan, n + more)
  {
  }

  lemma OneMoreTurn(a: EndState, s: Trace, b: EndState, s1: Trace, c: EndState, turns: nat, pulled: nat,
                    taking: seq<BulkAnswer>, writes: nat, used: nat, given: seq<BulkAnswer>)
    returns (writes': nat, readings': nat)
    requires Path(a, s, b) && Path(b, s1, c) && b.tx.running && c.tx.running && Placed(a.tx) && Placed(b.tx)
    requires pulled <= |s1.t| && EndsWithPull(s1.t[..pulled]) && KeepsFinishing(a, s, turns)
    requires Finished(b.tx, s1.t) == if TxRun(b.tx, s1.t[..pulled]).0.outgoing.Some? then 1 else 0
    ensures KeepsFinishing(a, s.Then(s1), turns + 1)
    ensures Gives(given, turns + 1) == Gives(given, turns) + BytesIn(ReadAnswer(Skip(given, turns)))
    ensures writes' == writes + used && Skip(Skip(taking, writes), used) == Skip(taking, writes')
    ensures readings' == turns + 1 && Skip(Skip(given, turns), 1) == Skip(given, readings')
  {
    hide Path, EndsWithPull, KeepsFinishing, Finished, Skip, TxRun, ReadAnswer, BytesIn, Placed;
    writes', readings' := writes + used, turns + 1;
    SkipAgain(taking, writes, used);
    SkipAgain(given, turns, 1);
    MoreFinished(a, s, b, s1, c, turns, pulled);
  }

  lemma MoreFinished(a: EndState, s: Trace, b: EndState, s1: Trace, c: EndState, turns: nat, pulled: nat)
    requires Path(a, s, b) && Path(b, s1, c) && b.tx.running && c.tx.running && Placed(a.tx) && Placed(b.tx)
    requires pulled <= |s1.t| && EndsWithPull(s1.t[..pulled]) && KeepsFinishing(a, s, turns)
    requires Finished(b.tx, s1.t) == if TxRun(b.tx, s1.t[..pulled]).0.outgoing.Some? then 1 else 0
    ensures KeepsFinishing(a, s.Then(s1), turns + 1)
  {
    hide TxRun, RxRun, Disciplined, EndsWithPull, Emptied, Undisturbed, Finished, ToWrite, Placed;
    if a.tx.up && Undisturbed(s.t + s1.t) {
      BothUndisturbed(s.t, s1.t);
      FinishedAppend(a.tx, s.t, s1.t);
      TxRunAppend(a.tx, s.t, s1.t);
      RunConserves(a.tx, s.t);
      TurnFinishes(b, s1, c, pulled);
      if Emptied(b.tx) {
        EmptiedStays(b.tx, s1.t);
      }
    }
  }

  lemma TurnFinishes(b: EndState, s: Trace, c: EndState, pulled: nat)
    requires Path(b, s, c) && b.tx.running && c.tx.running && Placed(b.tx) && b.tx.up && Undisturbed(s.t)
    requires pulled <= |s.t| && EndsWithPull(s.t[..pulled])
    requires Finished(b.tx, s.t) == if TxRun(b.tx, s.t[..pulled]).0.outgoing.Some? then 1 else 0
    ensures Finished(b.tx, s.t) == 1 || Emptied(c.tx)
  {
    hide TxRun, RxRun, Disciplined, EndsWithPull, Emptied, Undisturbed, Finished, ToWrite;
    var first, rest := s.t[..pulled], s.t[pulled..];
    assert s.t == first + rest;
    BothUndisturbed(first, rest);
    TxRunAppend(b.tx, first, rest);
    var middle := TxRun(b.tx, first).0;
    RunConserves(b.tx, first);
    RunConserves(middle, rest);
    EndsWithAPull(b.tx, first);
    if middle.outgoing.None? {
      EmptiedStays(middle, rest);
    }
  }

  /** The steps that the status accounts for after one more turn. */
  lemma CountTurn(end: Option<UsbEnd>, st: Status, before: Status, after: Status, a: EndState, s: Trace, b: EndState,
                  s1: Trace, written: nat, reading: nat) returns (counted: nat, kept: nat)
    requires Path(a, s, b) && before == Account(st, a, s) && written <= |s1.t| && reading <= |s1.r|
    requires end.None? || end.value.QueueInvalid? ==> after == Account(before, b, s1)
    requires end.Some? && end.value.WriteFailed? ==> after == before
    requires end.Some? && !end.value.QueueInvalid? && !end.value.WriteFailed? ==>
      after == Account(before, b, Trace(s1.t[..written], s1.r[..reading]))
    ensures var later := s.Then(s1);
      && counted <= |later.t| && kept <= |later.r|
      && after == Account(st, a, Trace(later.t[..counted], later.r[..kept]))
      && (end.None? || end.value.QueueInvalid? ==> counted == |later.t| && kept == |later.r|)
  {
    hide Path, Account;
    var later := s.Then(s1);
    if end.None? || end.value.QueueInvalid? {
      counted, kept := |later.t|, |later.r|;
      assert Trace(later.t[..counted], later.r[..kept]) == later;
      AccountPart(st, a, s, b, s1);
    } else if end.value.WriteFailed? {
      counted, kept := |s.t|, |s.r|;
      assert Trace(later.t[..counted], later.r[..kept]) == s;
    } else {
      var part := Trace(s1.t[..written], s1.r[..reading]);
      AccountPart(st, a, s, b, part);
      counted, kept := |s.t| + written, |s.r| + reading;
      assert Trace(later.t[..counted], later.r[..kept]) == s.Then(part);
    }
  }

  lemma QuietFinishes(a: EndState, s: Trace)
    requires Quiet(a, s)
    ensures Finished(a.tx, s.t) == 0
  {
    hide Finished, ReadCounts;
  }

  lemma DecodeFinishes(a: EndState, s: Trace)
    requires Amount(a, s).1 == 0
    ensures Finished(a.tx, s.t) == 0
  {
    hide Finished, ReadCounts;
  }

  lemma {:induction false} PiecesFinish(tx: Tx, pending: Pending, counts: seq<nat>)
    requires tx.running && tx.outgoing == Some(pending) && pending.offset < pending.packet.Len()
    requires Pieces(counts) && pending.offset + Sum(counts) <= pending.packet.Len()
    ensures Finished(tx, WriteSteps(counts)) == if pending.offset + Sum(counts) == pending.packet.Len() then 1 else 0
    decreases |counts|
  {
    hide TxRun;
    if counts == [] {
      assert WriteSteps([]) == [];
    } else {
      var front, last := counts[..|counts| - 1], counts[|counts| - 1];
      PiecesFinish(tx, pending, front);
      PiecesArePipeWrites(tx, pending, front);
      assert WriteSteps(counts)[..|counts| - 1] == WriteSteps(front);
    }
  }

  lemma WholeAccount(st: Status, a: EndState, s: Trace, n: nat)
    requires Amount(a, s) == (n, 1, 0, 0)
    ensures Account(st, a, s) == st.Wrote(n, 1)
  {
    hide Amount;
  }

  /** Accounts compose also for a part of the later trace. */
  lemma AccountPart(st: Status, a: EndState, x: Trace, b: EndState, y: Trace)
    requires Path(a, x, b)
    ensures Account(Account(st, a, x), b, y) == Account(st, a, x.Then(y))
  {
    hide TxRun, RxRun, ReadOf, Disciplined, Finished, ReadCounts;
    TxRunAppend(a.tx, x.t, y.t);
    FinishedAppend(a.tx, x.t, y.t);
    ReadCountsAppend(a.rx, x.r, y.r);
  }

  // ---- Where the two pumps differ -------------------------------------------------------

  /** Exactly when the USB worker gives a session up over a packet the stream
      decoded: its queue already holds its maximum of packets, or has not the
      bytes left for it. The TCP worker keeps the packet and waits. */
  lemma WhenUsbGivesUp(rx: Rx)
    requires rx.running && rx.up && rx.inbound != [] && Decoded(rx.inbound[0]) && rx.lanes.Inv()
    requires rx.lanes.control.limits == CONTROL_LIMITS && rx.lanes.media.limits == MEDIA_LIMITS
    ensures var p := rx.inbound[0]; var q := rx.lanes.At(p.Channel()); var r := Send(rx.lanes, p).1;
      && (r.Err? <==> |q.packets| == q.limits.maxPackets || TotalLen(q.packets) + p.Len() > q.limits.maxQueuedBytes)
      && (r.Err? ==> r.error.Full? && RxDrain(rx) == rx)
  {
    hide TotalLen;
    var p := rx.inbound[0];
    NothingObsolete(rx.lanes.At(p.Channel()).packets, None);
    RefusedSendChangesNothing(rx.lanes, p);
  }
}
