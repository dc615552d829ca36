/** One endpoint of a stream link, driven by its transport worker and shared
    with the application: what either may do to it, and the proof that every
    such history is part of a run of the pipe in module Pipeline. */
module Endpoints {
  import opened Wrappers
  import opened Words
  import opened Frames
  import opened Packets
  import opened Loopback
  import opened Applications
  import opened LdflStream
  import opened Pipeline

  /** Steps seen by the sending half, and by the receiving half. The worker is
      on the second side of its link, the application on the first. */
  datatype TxStep = TPoll(channel: Channel) | TChoose | TWrite(count: nat) | TStop | TCut | TApp(step: AppStep)

  datatype RxStep = RRead(chunk: bytes) | RDrain | RStop | RCut | RApp(step: AppStep)

  function TxApp(tx: Tx, a: AppStep): Tx {
    match a
    case AppSends(p) => if tx.up then tx.(lanes := Send(tx.lanes, p).0) else tx
    case AppTakes(_) => tx
    case AppCuts => tx.(up := false, lanes := Cleared(tx.lanes))
  }

  function RxApp(rx: Rx, a: AppStep): Rx {
    match a
    case AppSends(_) => rx
    case AppTakes(ch) => if rx.up then rx.(lanes := Receive(rx.lanes, ch).0) else rx
    case AppCuts => rx.(up := false, lanes := Cleared(rx.lanes))
  }

  function TxDo(tx: Tx, s: TxStep): (Tx, bytes) {
    match s
    case TPoll(ch) => (TxPoll(tx, ch).0, [])
    case TChoose => (TxChoose(tx).0, [])
    case TWrite(n) => TxWrite(tx, n)
    case TStop => (tx.(running := false), [])
    case TCut => (tx.(up := false, lanes := Cleared(tx.lanes)), [])
    case TApp(a) => (TxApp(tx, a), [])
  }

  function RxDo(rx: Rx, s: RxStep): Rx {
    match s
    case RRead(chunk) => RxRead(rx, chunk)
    case RDrain => RxDrain(rx)
    case RStop => rx.(running := false)
    case RCut => rx.(up := false, lanes := Cleared(rx.lanes))
    case RApp(a) => RxApp(rx, a)
  }

  /** The state after some steps, and the bytes they put on the wire. */
  function TxRun(tx: Tx, steps: seq<TxStep>): (Tx, bytes)
    decreases |steps|
  {
    if steps == [] then (tx, []) else
    var before := TxRun(tx, steps[..|steps| - 1]);
    var (after, written) := TxDo(before.0, steps[|steps| - 1]);
    (after, before.1 + written)
  }

  function RxRun(rx: Rx, steps: seq<RxStep>): Rx
    decreases |steps|
  {
    if steps == [] then rx else RxDo(RxRun(rx, steps[..|steps| - 1]), steps[|steps| - 1])
  }

  lemma TxRunMore(tx: Tx, steps: seq<TxStep>, s: TxStep)
    ensures TxRun(tx, steps + [s]) ==
      (TxDo(TxRun(tx, steps).0, s).0, TxRun(tx, steps).1 + TxDo(TxRun(tx, steps).0, s).1)
  {
    assert (steps + [s])[..|steps|] == steps;
  }

  lemma RxRunMore(rx: Rx, steps: seq<RxStep>, s: RxStep)
    ensures RxRun(rx, steps + [s]) == RxDo(RxRun(rx, steps), s)
  {
    assert (steps + [s])[..|steps|] == steps;
  }

  lemma OneTxStep(tx: Tx, s: TxStep)
    ensures TxRun(tx, [s]) == TxDo(tx, s)
  {
    TxRunMore(tx, [], s);
    assert [] + [s] == [s];
    assert [] + TxDo(tx, s).1 == TxDo(tx, s).1;
  }

  lemma {:induction false} TxRunAppend(tx: Tx, a: seq<TxStep>, b: seq<TxStep>)
    ensures TxRun(tx, a + b) == (TxRun(TxRun(tx, a).0, b).0, TxRun(tx, a).1 + TxRun(TxRun(tx, a).0, b).1)
    decreases |b|
  {
    hide TxDo;
    if b == [] {
      assert a + b == a;
      assert TxRun(tx, a).1 + [] == TxRun(tx, a).1;
    } else {
      var front, last := b[..|b| - 1], b[|b| - 1];
      TxRunAppend(tx, a, front);
      assert a + b == (a + front) + [last];
      TxRunMore(tx, a + front, last);
      var x, y, z := TxRun(tx, a).1, TxRun(TxRun(tx, a).0, front).1, TxDo(TxRun(TxRun(tx, a).0, front).0, last).1;
      assert (x + y) + z == x + (y + z);
    }
  }

  lemma {:induction false} RxRunAppend(rx: Rx, a: seq<RxStep>, b: seq<RxStep>)
    ensures RxRun(rx, a + b) == RxRun(RxRun(rx, a), b)
    decreases |b|
  {
    hide RxDo;
    if b == [] {
      assert a + b == a;
    } else {
      var front, last := b[..|b| - 1], b[|b| - 1];
      RxRunAppend(rx, a, front);
      assert a + b == (a + front) + [last];
      RxRunMore(rx, a + front, last);
    }
  }

  lemma NoRxSteps(rx: Rx)
    ensures RxRun(rx, []) == rx
  {
  }

  lemma NoSteps(tx: Tx)
    ensures TxRun(tx, []) == (tx, [])
  {
  }

  // ---- The application's steps, and the multiplexer's ------------------------------

  function TApps(steps: seq<AppStep>): seq<TxStep> {
    seq(|steps|, i requires 0 <= i < |steps| => TApp(steps[i]))
  }

  function RApps(steps: seq<AppStep>): seq<RxStep> {
    seq(|steps|, i requires 0 <= i < |steps| => RApp(steps[i]))
  }

  /** What the application does to the link is what these steps do to the two
      halves of the endpoint. */
  lemma {:induction false} AppRunIsTxRun(tx: Tx, link: LinkState, steps: seq<AppStep>)
    requires tx.up == link.connected && tx.lanes == link.Incoming(Second)
    ensures var link' := AppRun(link, First, steps);
      TxRun(tx, TApps(steps)) == (tx.(up := link'.connected, lanes := link'.Incoming(Second)), [])
    decreases |steps|
  {
    hide PushQueue, PopQueue, TxRun;
    if steps == [] {
      NoSteps(tx);
      assert TApps(steps) == [];
    } else {
      var front, last := steps[..|steps| - 1], steps[|steps| - 1];
      AppRunIsTxRun(tx, link, front);
      assert TApps(steps) == TApps(front) + [TApp(last)];
      TxRunMore(tx, TApps(front), TApp(last));
      assert TxRun(tx, TApps(front)).1 + [] == [];
    }
  }

  lemma {:induction false} AppRunIsRxRun(rx: Rx, link: LinkState, steps: seq<AppStep>)
    requires rx.up == link.connected && rx.lanes == link.Outgoing(Second)
    ensures var link' := AppRun(link, First, steps);
      RxRun(rx, RApps(steps)) == rx.(up := link'.connected, lanes := link'.Outgoing(Second))
    decreases |steps|
  {
    hide PushQueue, PopQueue, RxRun;
    if steps == [] {
      NoRxSteps(rx);
      assert RApps(steps) == [];
    } else {
      var front, last := steps[..|steps| - 1], steps[|steps| - 1];
      AppRunIsRxRun(rx, link, front);
      assert RApps(steps) == RApps(front) + [RApp(last)];
      RxRunMore(rx, RApps(front), RApp(last));
    }
  }

  function NextSteps(between: seq<AppStep>): seq<TxStep> {
    [TPoll(Control)] + TApps(between) + [TPoll(Media)] + [TChoose]
  }

  /** The worker's state after each of those steps. */
  function AfterNext(tx: Tx, link: LinkState, between: seq<AppStep>): Tx {
    var polled := TxPoll(tx, Control).0;
    var meanwhile := AppRun(link.WithIncoming(Second, polled.lanes), First, between);
    TxChoose(TxPoll(polled.(up := meanwhile.connected, lanes := meanwhile.Incoming(Second)), Media).0).0
  }

  lemma QuietStep(tx: Tx, steps: seq<TxStep>, tx': Tx, s: TxStep)
    requires TxRun(tx, steps) == (tx', []) && TxDo(tx', s).1 == []
    ensures TxRun(tx, steps + [s]) == (TxDo(tx', s).0, [])
  {
    hide TxRun, TxDo;
    TxRunMore(tx, steps, s);
    var nothing: bytes := [];
    assert nothing + nothing == nothing;
  }

  lemma QuietSteps(tx: Tx, a: seq<TxStep>, tx': Tx, b: seq<TxStep>, tx'': Tx)
    requires TxRun(tx, a) == (tx', []) && TxRun(tx', b) == (tx'', [])
    ensures TxRun(tx, a + b) == (tx'', [])
  {
    hide TxRun;
    TxRunAppend(tx, a, b);
    var nothing: bytes := [];
    assert nothing + nothing == nothing;
  }

  lemma NextRuns(tx: Tx, link: LinkState, between: seq<AppStep>)
    requires tx.up == link.connected
    ensures TxRun(tx, NextSteps(between)) == (AfterNext(tx, link, between), [])
  {
    hide AppRun, TxRun, TxPoll, TxChoose, TApps;
    var first, apps := [TPoll(Control)], TApps(between);
    OneTxStep(tx, TPoll(Control));
    PollKeepsLink(tx, Control);
    var polled := TxPoll(tx, Control).0;
    var link1 := link.WithIncoming(Second, polled.lanes);
    AppRunIsTxRun(polled, link1, between);
    var meanwhile := AppRun(link1, First, between);
    var shared := polled.(up := meanwhile.connected, lanes := meanwhile.Incoming(Second));
    QuietSteps(tx, first, polled, apps, shared);
    QuietStep(tx, first + apps, shared, TPoll(Media));
    QuietStep(tx, first + apps + [TPoll(Media)], TxPoll(shared, Media).0, TChoose);
  }

  lemma PollKeepsLink(tx: Tx, ch: Channel)
    ensures TxPoll(tx, ch).0.up == tx.up
  {
  }

  /** One call of the multiplexer is a poll, what the application does
      meanwhile, another poll and a choice. */
  lemma NextIsSteps(tx: Tx, link: LinkState, between: seq<AppStep>)
    requires tx.running && tx.outgoing.None? && (!link.connected ==> link == CutLink(link))
    requires tx.up == link.connected && tx.lanes == link.Incoming(Second)
    ensures var (slots, link', r) := MuxNext(tx.slots, link, Second, between);
      && TxRun(tx, NextSteps(between)) ==
           (Tx(link'.connected, r.Ok?, link'.Incoming(Second), slots,
               if r.Ok? && r.value.Some? then Some(Pending(r.value.value, 0)) else None), [])
      && (r.Ok? && r.value.Some? ==> r.value.value.Len() > 0)
  {
    hide Receive, AppRun, TxRun, Choose;
    NextRuns(tx, link, between);
    var polled := TxPoll(tx, Control).0;
    var link1 := link.WithIncoming(Second, polled.lanes);
    AppRunIsTxRun(polled, link1, between);
    DownStaysDown(link1, between);
    ChoiceIsChecked(TxPoll(polled.(lanes := AppRun(link1, First, between).Incoming(Second)), Media).0.slots);
  }

  /** And the receiving half only sees what the application does. */
  lemma NextIsRxSteps(tx: Tx, rx: Rx, link: LinkState, between: seq<AppStep>)
    requires rx.up == link.connected && rx.lanes == link.Outgoing(Second) && (!link.connected ==> link == CutLink(link))
    ensures var link' := MuxNext(tx.slots, link, Second, between).1;
      RxRun(rx, RApps(between)) == rx.(up := link'.connected, lanes := link'.Outgoing(Second))
  {
    hide Receive, AppRun, RxRun, Choose;
    var link1 := link.WithIncoming(Second, Poll(tx.slots, link.Incoming(Second), Control).1);
    AppRunIsRxRun(rx, link1, between);
    AppRunIsRxRun(rx, link, between);
    DownStaysDown(link, between);
  }

  lemma {:induction false} DownStaysDown(link: LinkState, steps: seq<AppStep>)
    requires !link.connected ==> link == CutLink(link)
    ensures !link.connected ==> AppRun(link, First, steps) == link
    decreases |steps|
  {
    if steps != [] {
      DownStaysDown(link, steps[..|steps| - 1]);
    }
  }

  /** A choice that emits nothing leaves the slots alone, and what is emitted
      is a whole frame, so never empty. */
  lemma ChoiceIsChecked(s: Slots)
    ensures var (s', r) := Choose(s);
      if r.Ok? && r.value.Some? then r.value.value.Len() > 0 else s' == s
  {
    hide PacketSequence;
    var r := Choose(s).1;
    if r.Ok? && r.value.Some? {
      ValidatedPackets(r.value.value);
    }
  }

  /** These steps end with a call of the multiplexer. */
  ghost predicate EndsWithPull(t: seq<TxStep>) {
    exists before, between :: Pull(t, before, between)
  }

  predicate Pull(t: seq<TxStep>, before: seq<TxStep>, between: seq<AppStep>) {
    t == before + NextSteps(between)
  }

  lemma PullLater(first: seq<TxStep>, t: seq<TxStep>)
    requires EndsWithPull(t)
    ensures EndsWithPull(first + t)
  {
    hide NextSteps;
    var before, between :| Pull(t, before, between);
    assert first + (before + NextSteps(between)) == (first + before) + NextSteps(between);
    assert Pull(first + t, first + before, between);
  }

  // ---- Reads --------------------------------------------------------------------------

  /** The bytes read in some steps. */
  function ReadOf(steps: seq<RxStep>): bytes
    decreases |steps|
  {
    if steps == [] then [] else
    var last := steps[|steps| - 1];
    ReadOf(steps[..|steps| - 1]) + (if last.RRead? then last.chunk else [])
  }

  /** A worker reads only while it runs with no decoded packet waiting, never an
      empty chunk, and never more than its read buffer holds. */
  ghost predicate MayRead(rx: Rx, s: RxStep) {
    s.RRead? ==> rx.running && rx.inbound == [] && 0 < |s.chunk| <= TCP_IO_CHUNK_BYTES
  }

  ghost predicate Disciplined(rx: Rx, steps: seq<RxStep>)
    decreases |steps|
  {
    steps == [] ||
    (Disciplined(rx, steps[..|steps| - 1]) && MayRead(RxRun(rx, steps[..|steps| - 1]), steps[|steps| - 1]))
  }

  lemma {:induction false} ReadOfAppend(a: seq<RxStep>, b: seq<RxStep>)
    ensures ReadOf(a + b) == ReadOf(a) + ReadOf(b)
    decreases |b|
  {
    if b == [] {
      assert a + b == a;
      assert ReadOf(a) + [] == ReadOf(a);
    } else {
      var front, last := b[..|b| - 1], b[|b| - 1];
      ReadOfAppend(a, front);
      assert (a + b)[..|a + b| - 1] == a + front;
      var r := if last.RRead? then last.chunk else [];
      assert (ReadOf(a) + ReadOf(front)) + r == ReadOf(a) + (ReadOf(front) + r);
    }
  }

  lemma {:induction false} DisciplinedAppend(rx: Rx, a: seq<RxStep>, b: seq<RxStep>)
    requires Disciplined(rx, a) && Disciplined(RxRun(rx, a), b)
    ensures Disciplined(rx, a + b)
    decreases |b|
  {
    hide RxRun, MayRead;
    if b == [] {
      assert a + b == a;
    } else {
      var front := b[..|b| - 1];
      DisciplinedAppend(rx, a, front);
      RxRunAppend(rx, a, front);
      assert (a + b)[..|a + b| - 1] == a + front;
    }
  }

  // ---- The endpoint inside the pipe ------------------------------------------------------

  /** The pipe's name for a step of the sending half; what the application
      takes travels in the other direction. */
  function TxAction(s: TxStep): seq<Action> {
    match s
    case TPoll(ch) => [PollSlot(ch)]
    case TChoose => [ChooseNext]
    case TWrite(n) => [WriteSome(n)]
    case TStop => [StopTx]
    case TCut => [CutTx]
    case TApp(a) => if a.AppSends? then [AppSend(a.packet)] else if a.AppCuts? then [CutTx] else []
  }

  function RxAction(s: RxStep): seq<Action> {
    match s
    case RRead(chunk) => [ReadSome(|chunk|)]
    case RDrain => [DrainOne]
    case RStop => [StopRx]
    case RCut => [CutRx]
    case RApp(a) => if a.AppTakes? then [AppReceive(a.channel)] else if a.AppCuts? then [CutRx] else []
  }

  function TxActions(steps: seq<TxStep>): seq<Action>
    decreases |steps|
  {
    if steps == [] then [] else TxActions(steps[..|steps| - 1]) + TxAction(steps[|steps| - 1])
  }

  function RxActions(steps: seq<RxStep>): seq<Action>
    decreases |steps|
  {
    if steps == [] then [] else RxActions(steps[..|steps| - 1]) + RxAction(steps[|steps| - 1])
  }

  lemma {:induction false} RunMore(p: Pipe, actions: seq<Action>, a: Action)
    requires Inv(p)
    ensures Run(p, actions + [a]) == Do(Run(p, actions), a)
    decreases |actions|
  {
    hide TxSide, WireInv, RxSide, Do;
    LogsValid(p);
    if actions == [] {
      assert [] + [a] == [a] && [a][1..] == [];
      StepKeepsInv(p, a);
      assert Run(Do(p, a), []) == Do(p, a);
    } else {
      StepKeepsInv(p, actions[0]);
      assert (actions + [a])[1..] == actions[1..] + [a];
      RunMore(Do(p, actions[0]), actions[1..], a);
    }
  }

  /** At most one more action. */
  lemma RunAtMostOneMore(p: Pipe, actions: seq<Action>, more: seq<Action>)
    requires Inv(p) && |more| <= 1
    ensures Run(p, actions + more) == if more == [] then Run(p, actions) else Do(Run(p, actions), more[0])
  {
    hide Inv, Do, Run;
    if more == [] {
      assert actions + more == actions;
    } else {
      assert more == [more[0]];
      RunMore(p, actions, more[0]);
    }
  }

  lemma TxStepIsPipeStep(p: Pipe, s: TxStep)
    requires Inv(p)
    ensures var q := if TxAction(s) == [] then p else Do(p, TxAction(s)[0]);
      q.tx == TxDo(p.tx, s).0 && q.wire == p.wire + TxDo(p.tx, s).1 && q.rx == p.rx
  {
    hide TxSide, WireInv, RxSide, TxPoll, TxChoose, TxWrite, PacketSequence;
    LogsValid(p);
    assert p.wire + [] == p.wire;
    if s.TApp? && s.step.AppSends? {
      RefusedSendChangesNothing(p.tx.lanes, s.step.packet);
    }
  }

  /** Whatever the worker and the application do to the sending half is a run
      of the pipe: it ends in the endpoint's state, with exactly the worker's
      bytes on the wire, so every theorem about runs of the pipe holds of it. */
  lemma {:induction false} SenderIsAPipeRun(p: Pipe, steps: seq<TxStep>)
    requires Inv(p)
    ensures var q := Run(p, TxActions(steps));
      q.tx == TxRun(p.tx, steps).0 && q.wire == p.wire + TxRun(p.tx, steps).1 && q.rx == p.rx
    decreases |steps|
  {
    hide TxSide, WireInv, RxSide, Do, TxDo, TxAction;
    if steps == [] {
      assert p.wire + [] == p.wire;
    } else {
      var front, s := steps[..|steps| - 1], steps[|steps| - 1];
      SenderIsAPipeRun(p, front);
      AtMostOneAction(s);
      RunAtMostOneMore(p, TxActions(front), TxAction(s));
      TxStepIsPipeStep(Run(p, TxActions(front)), s);
      assert p.wire + TxRun(p.tx, front).1 + TxDo(TxRun(p.tx, front).0, s).1
          == p.wire + (TxRun(p.tx, front).1 + TxDo(TxRun(p.tx, front).0, s).1);
    }
  }

  lemma AtMostOneAction(s: TxStep)
    ensures |TxAction(s)| <= 1
  {
  }

  lemma RxStepIsPipeStep(p: Pipe, s: RxStep)
    requires Inv(p) && MayRead(p.rx, s) && (s.RRead? ==> s.chunk <= p.wire)
    ensures var q := if RxAction(s) == [] then p else Do(p, RxAction(s)[0]);
      && q.rx == RxDo(p.rx, s) && q.tx == p.tx
      && p.wire == (if s.RRead? then s.chunk else []) + q.wire
  {
    InvLogsValid(p);
    hide Inv, Do, RxRead, RxDrain, RxApp, Cleared, MayRead;
    assert [] + p.wire == p.wire;
    match s {
      case RRead(chunk) => ReadIsPipeStep(p, chunk);
      case RApp(a) => AppIsPipeStep(p, a);
      case _ => WorkerStepIsPipeStep(p);
    }
  }

  lemma AppIsPipeStep(p: Pipe, a: AppStep)
    requires p.control.Valid() && p.media.Valid()
    ensures var q := if RxAction(RApp(a)) == [] then p else Do(p, RxAction(RApp(a))[0]);
      q.rx == RxApp(p.rx, a) && q.tx == p.tx && q.wire == p.wire
  {
    hide Do, Cleared;
    match a
    case AppSends(_) =>
    case AppTakes(ch) => TakeIsPipeStep(p, ch);
    case AppCuts => WorkerStepIsPipeStep(p);
  }

  lemma WorkerStepIsPipeStep(p: Pipe)
    requires p.control.Valid() && p.media.Valid()
    ensures Do(p, DrainOne) == p.(rx := RxDo(p.rx, RDrain)) && Do(p, StopRx) == p.(rx := RxDo(p.rx, RStop))
    ensures Do(p, CutRx) == p.(rx := RxDo(p.rx, RCut))
  {
    hide RxDrain, ClearQueue;
  }

  lemma TakeIsPipeStep(p: Pipe, ch: Channel)
    requires p.control.Valid() && p.media.Valid()
    ensures var q := Do(p, AppReceive(ch));
      q.rx == RxApp(p.rx, AppTakes(ch)) && q.tx == p.tx && q.wire == p.wire
  {
  }

  lemma ReadIsPipeStep(p: Pipe, chunk: bytes)
    requires Inv(p) && MayRead(p.rx, RRead(chunk)) && chunk <= p.wire
    requires p.control.Valid() && p.media.Valid()
    ensures var q := Do(p, ReadSome(|chunk|));
      q.rx == RxRead(p.rx, chunk) && q.tx == p.tx && p.wire == chunk + q.wire
  {
    hide Inv, RxRead, PacketSequence;
    assert p.wire[..|chunk|] == chunk;
  }

  lemma LastRxStep(rx: Rx, steps: seq<RxStep>)
    requires steps != [] && Disciplined(rx, steps)
    ensures var front, s := steps[..|steps| - 1], steps[|steps| - 1];
      && Disciplined(rx, front) && MayRead(RxRun(rx, front), s)
      && RxRun(rx, steps) == RxDo(RxRun(rx, front), s)
      && ReadOf(steps) == ReadOf(front) + (if s.RRead? then s.chunk else [])
      && RxActions(steps) == RxActions(front) + RxAction(s)
  {
    hide RxDo, RxAction, MayRead;
  }

  /** And whatever they do to the receiving half, reading bytes off the front
      of the wire, is a run of the pipe that consumes exactly those bytes. */
  lemma {:induction false} ReceiverIsAPipeRun(p: Pipe, steps: seq<RxStep>)
    requires Inv(p) && Disciplined(p.rx, steps) && ReadOf(steps) <= p.wire
    ensures var q := Run(p, RxActions(steps));
      q.rx == RxRun(p.rx, steps) && p.wire == ReadOf(steps) + q.wire && q.tx == p.tx
    decreases |steps|
  {
    if steps == [] {
      assert [] + p.wire == p.wire;
    } else {
      LastRxStep(p.rx, steps);
      hide Inv, Do, RxDo, RxAction, MayRead, RxRun, ReadOf, RxActions, Disciplined, Run;
      var front, s := steps[..|steps| - 1], steps[|steps| - 1];
      var r := if s.RRead? then s.chunk else [];
      assert ReadOf(front) <= p.wire by { PrefixOfPrefix(ReadOf(front), r, p.wire); }
      ReceiverIsAPipeRun(p, front);
      var q := Run(p, RxActions(front));
      NextOnWire(ReadOf(front), r, q.wire, p.wire);
      AtMostOneRxAction(s);
      RunAtMostOneMore(p, RxActions(front), RxAction(s));
      RxStepIsPipeStep(q, s);
      Associate(ReadOf(front), r, Run(p, RxActions(steps)).wire);
    }
  }

  lemma PrefixOfPrefix(a: bytes, b: bytes, c: bytes)
    requires a + b <= c
    ensures a <= c
  {
    assert a == (a + b)[..|a|] == c[..|a|];
  }

  lemma AtMostOneRxAction(s: RxStep)
    ensures |RxAction(s)| <= 1
  {
  }

  lemma NextOnWire(read: bytes, r: bytes, rest: bytes, wire: bytes)
    requires wire == read + rest && read + r <= wire
    ensures r <= rest
  {
    assert r == (read + r)[|read|..] == wire[|read|..|read| + |r|] == rest[..|r|];
  }
}
