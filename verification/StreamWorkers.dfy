/** What the two transport workers share: the variables of a pump over one side
    of a link, its operations, and the account of their effects as steps of the
    endpoint (crates/ladoflow-transport/src/tcp.rs:216-314;
    apps/desktop/src-tauri/src/platform/windows/usb_accessory.rs:599-686). */
module StreamWorkers {
  import opened Wrappers
  import opened Words
  import opened Frames
  import opened Packets
  import opened Loopback
  import opened Applications
  import opened LdflStream
  import opened Pipeline
  import opened Endpoints

  // ---- Traces ------------------------------------------------------------------------

  /** Both halves of an endpoint. */
  datatype EndState = EndState(tx: Tx, rx: Rx)

  /** The steps both halves took. */
  datatype Trace = Trace(t: seq<TxStep>, r: seq<RxStep>) {
    function Then(later: Trace): Trace { Trace(t + later.t, r + later.r) }
  }

  const NO_TRACE := Trace([], [])

  ghost predicate Path(a: EndState, s: Trace, b: EndState) {
    TxRun(a.tx, s.t).0 == b.tx && RxRun(a.rx, s.r) == b.rx && Disciplined(a.rx, s.r)
  }

  /** The bytes the steps put on the wire, and those they read off it. */
  function Put(a: EndState, s: Trace): bytes { TxRun(a.tx, s.t).1 }

  function Got(s: Trace): bytes { ReadOf(s.r) }

  /** Packets written to their end. */
  function Finished(tx: Tx, t: seq<TxStep>): nat
    decreases |t|
  {
    if t == [] then 0 else
    var before, last := TxRun(tx, t[..|t| - 1]).0, t[|t| - 1];
    Finished(tx, t[..|t| - 1])
    + (if last.TWrite? && before.outgoing.Some? && TxDo(before, last).0.outgoing.None? then 1 else 0)
  }

  /** Bytes and frames of the reads that decoded. */
  function ReadCounts(rx: Rx, r: seq<RxStep>): (n: (nat, nat))
    decreases |r|
  {
    if r == [] then (0, 0) else
    var before, last := RxRun(rx, r[..|r| - 1]), r[|r| - 1];
    var n, after := ReadCounts(rx, r[..|r| - 1]), RxDo(before, last);
    if last.RRead? && after.running then (n.0 + |last.chunk|, n.1 + |after.inbound|) else n
  }

  /** The first decoded packet, if it is offered now, is taken. */
  predicate HasRoom(rx: Rx) {
    rx.running && rx.inbound != [] ==> rx.up && Send(rx.lanes, rx.inbound[0]).1.Ok?
  }

  /** How often these steps offered a packet that was not taken. */
  function Refusals(rx: Rx, r: seq<RxStep>): nat
    decreases |r|
  {
    if r == [] then 0 else
    Refusals(rx, r[..|r| - 1])
    + (if r[|r| - 1].RDrain? && !HasRoom(RxRun(rx, r[..|r| - 1])) then 1 else 0)
  }

  predicate AllTaken(rx: Rx, r: seq<RxStep>) { Refusals(rx, r) == 0 }

  /** The counters of a transport's status. */
  datatype Status = Status(bytesRead: u64, bytesWritten: u64, framesRead: u64, framesWritten: u64) {
    function Wrote(bytes: nat, frames: nat): Status {
      this.(bytesWritten := SatAdd64(bytesWritten, bytes), framesWritten := SatAdd64(framesWritten, frames))
    }

    function Read(bytes: nat, frames: nat): Status {
      this.(bytesRead := SatAdd64(bytesRead, bytes), framesRead := SatAdd64(framesRead, frames))
    }
  }

  const NO_STATUS := Status(0, 0, 0, 0)

  function Amount(a: EndState, s: Trace): (nat, nat, nat, nat) {
    (|Put(a, s)|, Finished(a.tx, s.t), ReadCounts(a.rx, s.r).0, ReadCounts(a.rx, s.r).1)
  }

  /** The status after these steps: everything written, every packet finished,
      every read that decoded. */
  function Account(st: Status, a: EndState, s: Trace): Status {
    var n := Amount(a, s);
    st.Wrote(n.0, n.1).Read(n.2, n.3)
  }

  ghost predicate Quiet(a: EndState, s: Trace) {
    Put(a, s) == [] && Got(s) == [] && Amount(a, s) == (0, 0, 0, 0)
  }

  lemma {:induction false} FinishedAppend(tx: Tx, x: seq<TxStep>, y: seq<TxStep>)
    ensures Finished(tx, x + y) == Finished(tx, x) + Finished(TxRun(tx, x).0, y)
    decreases |y|
  {
    hide TxRun, TxDo;
    if y == [] {
      assert x + y == x;
    } else {
      var front := y[..|y| - 1];
      FinishedAppend(tx, x, front);
      TxRunAppend(tx, x, front);
      assert (x + y)[..|x + y| - 1] == x + front;
    }
  }

  lemma {:induction false} ReadCountsAppend(rx: Rx, x: seq<RxStep>, y: seq<RxStep>)
    ensures var n, m := ReadCounts(rx, x), ReadCounts(RxRun(rx, x), y);
      ReadCounts(rx, x + y) == (n.0 + m.0, n.1 + m.1)
    decreases |y|
  {
    hide RxRun, RxDo;
    if y == [] {
      assert x + y == x;
    } else {
      var front := y[..|y| - 1];
      ReadCountsAppend(rx, x, front);
      RxRunAppend(rx, x, front);
      assert (x + y)[..|x + y| - 1] == x + front;
    }
  }

  lemma {:induction false} RefusalsAppend(rx: Rx, x: seq<RxStep>, y: seq<RxStep>)
    ensures Refusals(rx, x + y) == Refusals(rx, x) + Refusals(RxRun(rx, x), y)
    decreases |y|
  {
    hide RxRun, HasRoom;
    if y == [] {
      assert x + y == x;
    } else {
      var front := y[..|y| - 1];
      RefusalsAppend(rx, x, front);
      RxRunAppend(rx, x, front);
      assert (x + y)[..|x + y| - 1] == x + front;
    }
  }

  lemma {:induction false} NothingOffered(rx: Rx, r: seq<RxStep>)
    requires RDrain !in r
    ensures Refusals(rx, r) == 0
    decreases |r|
  {
    hide RxRun, HasRoom;
    if r != [] {
      assert r[|r| - 1] in r && forall x :: x in r[..|r| - 1] ==> x in r;
      NothingOffered(rx, r[..|r| - 1]);
    }
  }

  lemma OfferedOnce(rx: Rx)
    ensures Refusals(rx, [RDrain]) == if HasRoom(rx) then 0 else 1
  {
    hide HasRoom, RxDrain;
    var one, none: seq<RxStep> := [RDrain], [];
    assert one[..0] == none && Refusals(rx, none) == 0 && RxRun(rx, none) == rx;
  }

  /** Traces compose. */
  lemma Join(a: EndState, x: Trace, b: EndState, y: Trace, c: EndState)
    requires Path(a, x, b) && Path(b, y, c)
    ensures Path(a, x.Then(y), c)
    ensures Put(a, x.Then(y)) == Put(a, x) + Put(b, y) && Got(x.Then(y)) == Got(x) + Got(y)
    ensures Quiet(a, x) ==> Put(a, x.Then(y)) == Put(b, y) && Got(x.Then(y)) == Got(y)
    ensures Quiet(b, y) ==> Put(a, x.Then(y)) == Put(a, x) && Got(x.Then(y)) == Got(x)
    ensures Quiet(a, x) && Quiet(b, y) ==> Quiet(a, x.Then(y))
    ensures forall st :: Account(Account(st, a, x), b, y) == Account(st, a, x.Then(y))
    ensures Refusals(a.rx, x.Then(y).r) == Refusals(a.rx, x.r) + Refusals(b.rx, y.r)
    ensures Finished(a.tx, x.Then(y).t) == Finished(a.tx, x.t) + Finished(b.tx, y.t)
  {
    RefusalsAppend(a.rx, x.r, y.r);
    hide TxRun, RxRun, ReadOf, Disciplined, Finished, ReadCounts, Refusals;
    TxRunAppend(a.tx, x.t, y.t);
    RxRunAppend(a.rx, x.r, y.r);
    ReadOfAppend(x.r, y.r);
    DisciplinedAppend(a.rx, x.r, y.r);
    FinishedAppend(a.tx, x.t, y.t);
    ReadCountsAppend(a.rx, x.r, y.r);
    NothingAdded(Put(a, x), Put(b, y));
    NothingAdded(Got(x), Got(y));
  }

  lemma NothingAdded(x: bytes, y: bytes)
    ensures x == [] ==> x + y == y
    ensures y == [] ==> x + y == x
  {
  }

  lemma QuietAccount(st: Status, a: EndState, s: Trace)
    requires Quiet(a, s)
    ensures Account(st, a, s) == st
  {
    hide Put, Finished, ReadCounts;
  }

  lemma QuietIsSilent(a: EndState, s: Trace)
    requires Quiet(a, s)
    ensures Put(a, s) == [] && Got(s) == []
  {
  }

  lemma DecodeAccount(st: Status, a: EndState, s: Trace)
    requires Amount(a, s).0 == 0 && Amount(a, s).1 == 0
    ensures Account(st, a, s) == st.Read(Amount(a, s).2, Amount(a, s).3)
  {
    hide Amount;
  }

  lemma StayPut(a: EndState)
    ensures Path(a, NO_TRACE, a) && Quiet(a, NO_TRACE)
  {
  }

  lemma SingleRx(rx: Rx, s: RxStep)
    ensures RxRun(rx, [s]) == RxDo(rx, s) && (Disciplined(rx, [s]) <==> MayRead(rx, s))
    ensures ReadOf([s]) == if s.RRead? then s.chunk else []
    ensures ReadCounts(rx, [s]) ==
      if s.RRead? && RxDo(rx, s).running then (|s.chunk|, |RxDo(rx, s).inbound|) else (0, 0)
  {
    hide RxDo;
    var one, none: seq<RxStep> := [s], [];
    assert one[..0] == none;
    assert RxRun(rx, none) == rx && Disciplined(rx, none) && ReadOf(none) == [] && ReadCounts(rx, none) == (0, 0);
  }

  lemma SingleTx(tx: Tx, s: TxStep)
    ensures TxRun(tx, [s]) == TxDo(tx, s)
    ensures Finished(tx, [s]) ==
      if s.TWrite? && tx.outgoing.Some? && TxDo(tx, s).0.outgoing.None? then 1 else 0
  {
    hide TxDo;
    var one, none: seq<TxStep> := [s], [];
    assert one[..0] == none;
    NoSteps(tx);
    OneTxStep(tx, s);
  }

  /** A single step of either half that neither writes nor reads. */
  lemma OneQuietStep(a: EndState, s: Trace)
    requires |s.t| <= 1 && |s.r| <= 1
    requires forall x :: x in s.t ==> !x.TWrite?
    requires forall x :: x in s.r ==> !x.RRead?
    ensures Quiet(a, s)
    ensures Path(a, s, EndState(if s.t == [] then a.tx else TxDo(a.tx, s.t[0]).0,
                                if s.r == [] then a.rx else RxDo(a.rx, s.r[0])))
  {
    StayPut(a);
    if s.t != [] {
      assert s.t == [s.t[0]] && s.t[0] in s.t;
      SingleTx(a.tx, s.t[0]);
    }
    if s.r != [] {
      assert s.r == [s.r[0]] && s.r[0] in s.r;
      SingleRx(a.rx, s.r[0]);
    }
    hide TxRun, RxRun, ReadOf, Disciplined, Finished, ReadCounts, RxDrain;
  }

  lemma {:induction false} AppsAreQuiet(a: EndState, steps: seq<AppStep>)
    ensures Disciplined(a.rx, RApps(steps)) && ReadOf(RApps(steps)) == []
    ensures Finished(a.tx, TApps(steps)) == 0 && ReadCounts(a.rx, RApps(steps)) == (0, 0)
    decreases |steps|
  {
    hide RxRun, TxRun;
    if steps != [] {
      var front := steps[..|steps| - 1];
      AppsAreQuiet(a, front);
      assert RApps(steps)[..|steps| - 1] == RApps(front) && TApps(steps)[..|steps| - 1] == TApps(front);
    } else {
      assert RApps(steps) == [] && TApps(steps) == [];
    }
  }

  lemma {:induction false} NoWriteFinishesNothing(tx: Tx, t: seq<TxStep>)
    requires forall x :: x in t ==> !x.TWrite?
    ensures Finished(tx, t) == 0
    decreases |t|
  {
    hide TxRun, TxDo;
    if t != [] {
      assert t[|t| - 1] in t && forall x :: x in t[..|t| - 1] ==> x in t;
      NoWriteFinishesNothing(tx, t[..|t| - 1]);
    }
  }

  lemma RunningNeverStopped(a: EndState, s: Trace, b: EndState)
    requires Path(a, s, b)
    ensures b.tx.running ==> TStop !in s.t
    ensures b.rx.running ==> RStop !in s.r
  {
    hide TxRun, RxRun, Disciplined;
    TxStopIsFinal(a.tx, s.t);
    RxStopIsFinal(a.rx, s.r);
  }

  lemma {:induction false} TxStopIsFinal(tx: Tx, t: seq<TxStep>)
    ensures TxRun(tx, t).0.running ==> tx.running && TStop !in t
    decreases |t|
  {
    if t != [] {
      var front, s := t[..|t| - 1], t[|t| - 1];
      TxStopIsFinal(tx, front);
      OneStopIsFinal(TxRun(tx, front).0, s);
      hide TxDo;
      assert t == front + [s];
    }
  }

  lemma OneStopIsFinal(tx: Tx, s: TxStep)
    ensures TxDo(tx, s).0.running ==> tx.running && s != TStop
  {
    hide Choose;
  }

  lemma {:induction false} RxStopIsFinal(rx: Rx, r: seq<RxStep>)
    ensures RxRun(rx, r).running ==> rx.running && RStop !in r
    decreases |r|
  {
    if r != [] {
      var front, s := r[..|r| - 1], r[|r| - 1];
      RxStopIsFinal(rx, front);
      OneRxStopIsFinal(RxRun(rx, front), s);
      hide RxDo;
      assert r == front + [s];
    }
  }

  lemma OneRxStopIsFinal(rx: Rx, s: RxStep)
    ensures RxDo(rx, s).running ==> rx.running && s != RStop
  {
    hide PushChunk;
  }

  // ---- The worker's endpoint -----------------------------------------------------------

  /** The link whose second side a worker serves, its multiplexer and decoder,
      the packet being written and the decoded packets not yet delivered. */
  class StreamEndpoint {
    const link: Link
    const mux: LdflPacketMux
    const decoder: LdflPacketDecoder
    var outgoing: Option<Pending>
    var inbound: seq<Packet>
    var running: bool

    ghost function Objects(): set<object> { {this, mux, decoder.decoder} + link.Objects() }

    ghost predicate Valid()
      reads Objects()
    {
      && link.Valid()
      && this !in link.Objects() && mux !in link.Objects() && decoder.decoder !in link.Objects()
      && decoder.decoder.bufferLimit == MAX_BUFFERED_BYTES
      && (outgoing.Some? ==> outgoing.value.offset < outgoing.value.packet.Len())
    }

    ghost function State(): EndState
      reads Objects()
    {
      EndState(Tx(link.connected, running, link.State().Incoming(Second), mux.State(), outgoing),
               Rx(link.connected, running, decoder.decoder.buffer, inbound, link.State().Outgoing(Second)))
    }

    constructor (link: Link)
      requires link.Valid()
      ensures Valid() && this.link == link && fresh(Objects() - link.Objects())
      ensures running && outgoing.None? && inbound == []
      ensures State() == EndState(Tx(link.connected, true, link.State().Incoming(Second), NO_SLOTS, None),
                                  Rx(link.connected, true, [], [], link.State().Outgoing(Second)))
    {
      this.link := link;
      mux := new LdflPacketMux();
      decoder := new LdflPacketDecoder();
      outgoing := None;
      inbound := [];
      running := true;
    }

    lemma OfferIsAcceptedExactly()
      requires running && inbound != []
      ensures Refusals(State().rx, [RDrain]) ==
        if link.connected && Send(link.State().Outgoing(Second), inbound[0]).1.Ok? then 0 else 1
    {
      hide PushQueue, Refusals;
      OfferedOnce(State().rx);
    }

    lemma StateFields()
      ensures State().tx.running == State().rx.running == running
      ensures State().tx.outgoing == outgoing && State().rx.inbound == inbound
    {
    }

    /** The worker ends; nothing else changes. */
    method End() returns (ghost s: Trace)
      requires Valid()
      modifies this`running
      ensures Valid() && !running
      ensures s == Trace([TStop], [RStop]) && Path(old(State()), s, State()) && Quiet(old(State()), s)
      ensures Refusals(old(State()).rx, s.r) == 0
    {
      hide Link.Valid, Link.State, Path, Quiet, Refusals, TxDo, RxDo;
      ghost var a := State();
      StopsQuietly(a);
      s := Trace([TStop], [RStop]);
      running := false;
    }

    /** What the application does to the link before the worker's next turn at
        its lock. */
    method Interfere(others: Application) returns (ghost s: Trace)
      requires Valid() && others !in Objects()
      modifies others, link.Objects()
      ensures Valid() && Path(old(State()), s, State()) && Quiet(old(State()), s)
      ensures Refusals(old(State()).rx, s.r) == 0 && TStop !in s.t && RStop !in s.r
      ensures unchanged(this)
    {
      hide Refusals, AppRun, TxRun, RxRun, ReadOf, Disciplined, Finished, ReadCounts;
      ghost var a, before := State(), link.State();
      ghost var steps := others.Act(link, First);
      AppRunIsTxRun(a.tx, before, steps);
      AppRunIsRxRun(a.rx, before, steps);
      AppsAreQuiet(a, steps);
      NothingOffered(a.rx, RApps(steps));
      s := Trace(TApps(steps), RApps(steps));
    }

    /** Pull the next packet from the multiplexer; an invalid queue ends the worker. */
    method PullNext(others: Application) returns (ghost s: Trace)
      requires Valid() && running && outgoing.None? && others !in Objects()
      modifies others, Objects()
      ensures Valid() && Path(old(State()), s, State()) && Quiet(old(State()), s)
      ensures EndsWithPull(s.t) && Refusals(old(State()).rx, s.r) == 0 && TStop !in s.t
      ensures outgoing.Some? ==> running && outgoing.value.offset == 0
      ensures unchanged(this`inbound)
    {
      hide Refusals, MuxNext, TxRun, RxRun, ReadOf, Disciplined, Finished, ReadCounts, NextSteps, Link.Valid, Loopback.CutLink;
      ghost var a, before := State(), link.State();
      link.DownIsCleared();
      var next;
      ghost var between;
      next, between := mux.Next(link, Second, others);
      NextIsSteps(a.tx, before, between);
      NextIsRxSteps(a.tx, a.rx, before, between);
      AppsAreQuiet(a, between);
      NothingOffered(a.rx, RApps(between));
      NextFinishesNothing(a.tx, between);
      NextDoesNotStop(between);
      s := Trace(NextSteps(between), RApps(between));
      assert [] + s.t == s.t;
      assert Pull(s.t, [], between);
      match next
      case Err(_) =>
        running := false;
        StopReading(a, s, State());
        s := s.(r := s.r + [RStop]);
        NothingOffered(a.rx, s.r);
      case Ok(None) =>
      case Ok(Some(packet)) => outgoing := Some(Pending(packet, 0));
    }

    /** Offer the first decoded packet to its queue: taken, kept when the queue
        is full, or the worker ends. */
    method OfferFirst() returns (r: SendResult)
      requires Valid() && running && inbound != []
      modifies Objects()
      ensures Valid() && running == (r.Ok? || r.error.Full?)
      ensures State() == EndState(if running then old(State()).tx else old(State()).tx.(running := false),
                                  RxDrain(old(State()).rx))
      ensures if old(link.connected) then r == Send(old(link.State()).Outgoing(Second), old(inbound)[0]).1 else r.Err?
      ensures inbound == if r.Err? && r.error.Full? then old(inbound) else old(inbound)[1..]
      ensures r.Err? && r.error.Full? ==> Send(link.State().Outgoing(Second), inbound[0]).1.Err?
      ensures unchanged(this`outgoing)
    {
      hide PushQueue;
      ghost var rx := State().rx;
      var packet := inbound[0];
      inbound := inbound[1..];
      r := link.TrySend(Second, packet);
      RefusedSendChangesNothing(rx.lanes, packet);
      RefusalKeepsPacket(rx);
      match r
      case Ok(_) =>
      case Err(Full(refused, _, _)) =>
        inbound := [refused] + inbound;
      case Err(_) => running := false;
    }

    /** The same as steps of the endpoint. */
    method Offer() returns (r: SendResult, ghost s: Trace)
      requires Valid() && running && inbound != []
      modifies Objects()
      ensures Valid() && running == (r.Ok? || r.error.Full?)
      ensures Path(old(State()), s, State()) && Quiet(old(State()), s) && s == Trace(if running then [] else [TStop], [RDrain])
      ensures Refusals(old(State()).rx, s.r) == if r.Ok? then 0 else 1
      ensures inbound == if r.Err? && r.error.Full? then old(inbound) else old(inbound)[1..]
      ensures r.Err? && r.error.Full? ==> Send(link.State().Outgoing(Second), inbound[0]).1.Err?
      ensures unchanged(this`outgoing)
    {
      hide RxDrain, Valid, State, Path, Quiet, Refusals;
      ghost var a := State();
      OfferIsAcceptedExactly();
      r := OfferFirst();
      s := Trace(if running then [] else [TStop], [RDrain]);
      OneQuietStep(a, s);
    }

    /** And after whatever the application did meanwhile. */
    method OfferNext(others: Application) returns (r: SendResult, ghost s: Trace)
      requires Valid() && running && inbound != [] && others !in Objects()
      modifies others, Objects()
      ensures Valid() && running == (r.Ok? || r.error.Full?)
      ensures Path(old(State()), s, State()) && Quiet(old(State()), s)
      ensures Refusals(old(State()).rx, s.r) == if r.Ok? then 0 else 1
      ensures RStop !in s.r && (running ==> TStop !in s.t)
      ensures inbound == if r.Err? && r.error.Full? then old(inbound) else old(inbound)[1..]
      ensures r.Err? && r.error.Full? ==> Send(link.State().Outgoing(Second), inbound[0]).1.Err?
      ensures unchanged(this`outgoing)
    {
      hide Path, Quiet, State, Valid, Refusals, PushQueue;
      ghost var a := State();
      s := Interfere(others);
      ghost var b := State();
      ghost var s1;
      r, s1 := Offer();
      Join(a, s, b, s1, State());
      s := s.Then(s1);
    }

    /** Count what was written of the outgoing packet, and finish it at its end. */
    method Advance(n: nat) returns (ghost s: Trace)
      requires Valid() && running && outgoing.Some?
      requires 0 < n <= TCP_IO_CHUNK_BYTES && outgoing.value.offset + n <= outgoing.value.packet.Len()
      modifies this`outgoing
      ensures Valid() && s == Trace([TWrite(n)], []) && Path(old(State()), s, State()) && Got(s) == []
      ensures Put(old(State()), s) ==
        old(outgoing).value.packet.payload[old(outgoing).value.offset..old(outgoing).value.offset + n]
      ensures outgoing == (if old(outgoing).value.offset + n == old(outgoing).value.packet.Len() then None
                           else Some(old(outgoing).value.(offset := old(outgoing).value.offset + n)))
      ensures Amount(old(State()), s) == (n, if outgoing.None? then 1 else 0, 0, 0)
    {
      hide Link.Valid, Link.State;
      ghost var a := State();
      var pending := outgoing.value;
      pending := pending.(offset := pending.offset + n);
      outgoing := if pending.offset == pending.packet.Len() then None else Some(pending);
      s := Trace([TWrite(n)], []);
      SingleTx(a.tx, TWrite(n));
      StayPut(a);
      hide TxRun, Finished;
    }

    /** Decode the bytes of one read; a bad stream ends the worker. */
    method DecodeChunk(chunk: bytes)
      requires Valid() && running && inbound == []
      modifies this`inbound, this`running, decoder.decoder
      ensures Valid() && running == PushChunk(old(State()).rx.buffer, MAX_BUFFERED_BYTES, chunk).0.Ok?
      ensures running == State().rx.running && inbound == State().rx.inbound
      ensures State() == EndState(if running then old(State()).tx else old(State()).tx.(running := false),
                                  RxRead(old(State()).rx, chunk))
    {
      hide Link.Valid, Link.State, PushChunk;
      var packets := decoder.Push(chunk);
      match packets
      case Err(_) => running := false;
      case Ok(decoded) =>
        inbound := inbound + decoded;
        assert [] + decoded == decoded;
    }

    /** The same as steps of the endpoint. */
    method Decode(chunk: bytes) returns (ghost s: Trace)
      requires Valid() && running && inbound == [] && 0 < |chunk| <= TCP_IO_CHUNK_BYTES
      modifies this`inbound, this`running, decoder.decoder
      ensures Valid() && s == Trace(if running then [] else [TStop], [RRead(chunk)])
      ensures Refusals(old(State()).rx, s.r) == 0
      ensures running == PushChunk(old(State()).rx.buffer, MAX_BUFFERED_BYTES, chunk).0.Ok?
      ensures Path(old(State()), s, State()) && Put(old(State()), s) == [] && Got(s) == chunk
      ensures Amount(old(State()), s) == (0, 0, if running then |chunk| else 0, if running then |inbound| else 0)
    {
      NothingOffered(State().rx, [RRead(chunk)]);
      ghost var a := State();
      assert MayRead(a.rx, RRead(chunk));
      hide Valid, State, PushChunk, RxRead, Path, Put, Got, Amount, Refusals, MayRead;
      DecodeChunk(chunk);
      s := Trace(if running then [] else [TStop], [RRead(chunk)]);
      OneRead(a, chunk, running);
    }

    /** The worker has ended and cuts its link. */
    method Shut() returns (ghost s: Trace)
      requires Valid()
      modifies Objects()
      ensures Valid() && !running && !link.connected
      ensures Path(old(State()), s, State()) && Quiet(old(State()), s)
      ensures Refusals(old(State()).rx, s.r) == 0
    {
      hide Valid, State, Path, Quiet, Refusals;
      ghost var a := State();
      s := End();
      ghost var b := State();
      ghost var cut := CutLink();
      Join(a, s, b, cut, State());
      s := s.Then(cut);
    }

    method CutLink() returns (ghost s: Trace)
      requires Valid() && !running
      modifies link.Objects()
      ensures Valid() && !link.connected
      ensures Path(old(State()), s, State()) && Quiet(old(State()), s)
      ensures Refusals(old(State()).rx, s.r) == 0
    {
      hide ClearQueue, Path, Quiet, Refusals;
      s := Trace([TCut], [RCut]);
      NothingOffered(State().rx, [RCut]);
      OneQuietStep(State(), s);
      var _ := link.Disconnect();
    }
  }

  lemma StopsQuietly(a: EndState)
    ensures var s := Trace([TStop], [RStop]);
      && Path(a, s, EndState(a.tx.(running := false), a.rx.(running := false)))
      && Quiet(a, s) && Refusals(a.rx, s.r) == 0
  {
    hide Path, Quiet, Refusals;
    OneQuietStep(a, Trace([TStop], [RStop]));
    NothingOffered(a.rx, [RStop]);
  }

  lemma RefusalKeepsPacket(rx: Rx)
    requires rx.inbound != []
    ensures var (_, r) := Send(rx.lanes, rx.inbound[0]);
      r.Err? ==> [r.error.packet] + rx.inbound[1..] == rx.inbound
  {
  }

  lemma NextDoesNotStop(between: seq<AppStep>)
    ensures TStop !in NextSteps(between)
  {
  }

  lemma NextFinishesNothing(tx: Tx, between: seq<AppStep>)
    ensures Finished(tx, NextSteps(between)) == 0
  {
    NoWriteFinishesNothing(tx, NextSteps(between));
  }

  lemma StopReading(a: EndState, s: Trace, b: EndState)
    requires RxRun(a.rx, s.r).(running := false) == b.rx && TxRun(a.tx, s.t) == (b.tx, [])
    requires Disciplined(a.rx, s.r) && Quiet(a, s)
    ensures Path(a, s.(r := s.r + [RStop]), b) && Quiet(a, s.(r := s.r + [RStop]))
  {
    hide TxRun, RxRun, Disciplined, ReadOf, Finished, ReadCounts;
    var middle := EndState(b.tx, RxRun(a.rx, s.r));
    OneQuietStep(middle, Trace([], [RStop]));
    Join(a, s, middle, Trace([], [RStop]), b);
    assert s.t + [] == s.t;
  }

  lemma OneRead(a: EndState, chunk: bytes, running: bool)
    requires MayRead(a.rx, RRead(chunk)) && running == RxRead(a.rx, chunk).running
    ensures var s := Trace(if running then [] else [TStop], [RRead(chunk)]);
      var b := EndState(if running then a.tx else a.tx.(running := false), RxRead(a.rx, chunk));
      && Path(a, s, b) && Put(a, s) == [] && Got(s) == chunk
      && Amount(a, s) == (0, 0, if running then |chunk| else 0, if running then |b.rx.inbound| else 0)
  {
    hide RxRead;
    StayPut(a);
    SingleTx(a.tx, TStop);
    SingleRx(a.rx, RRead(chunk));
    hide TxRun, RxRun, ReadOf, Disciplined, Finished, ReadCounts;
  }
}
