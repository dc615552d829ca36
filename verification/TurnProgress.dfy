/** What the turns of a pump achieve: while nothing new is sent, every byte the
    worker writes is one less to write, and a pull that finds nothing leaves
    nothing (crates/ladoflow-transport/src/tcp.rs:248-265). */
module TurnProgress {
  import opened Wrappers
  import opened Words
  import opened Frames
  import opened Packets
  import opened Loopback
  import opened Applications
  import opened LdflStream
  import opened Pipeline
  import opened Progress
  import opened Endpoints

  /** The bytes of everything accepted and not yet written. */
  function ToWrite(tx: Tx): nat {
    TotalLen(Traffic(tx, Control)) + TotalLen(Traffic(tx, Media)) + |Unwritten(tx.outgoing)|
  }

  /** Nothing is queued, held or half written. */
  ghost predicate Emptied(tx: Tx) {
    Traffic(tx, Control) == [] && Traffic(tx, Media) == [] && tx.outgoing.None?
  }

  /** Neither a send nor a cut. */
  predicate Calm(s: TxStep) {
    s != TCut && (s.TApp? ==> s.step.AppTakes?)
  }

  ghost predicate Undisturbed(t: seq<TxStep>) {
    forall s :: s in t ==> Calm(s)
  }

  lemma BothUndisturbed(x: seq<TxStep>, y: seq<TxStep>)
    requires Undisturbed(x + y)
    ensures Undisturbed(x) && Undisturbed(y)
  {
    hide Calm;
    assert forall s :: s in x || s in y ==> s in x + y;
  }

  ghost predicate Placed(tx: Tx) {
    tx.outgoing.Some? ==> tx.outgoing.value.offset < tx.outgoing.value.packet.Len()
  }

  lemma TotalLenCons(p: Packet, rest: seq<Packet>)
    ensures TotalLen([p] + rest) == p.Len() + TotalLen(rest)
  {
    assert ([p] + rest)[1..] == rest;
  }

  lemma ChoiceConserves(tx: Tx)
    requires Placed(tx)
    ensures ToWrite(TxChoose(tx).0) == ToWrite(tx) && Placed(TxChoose(tx).0)
  {
    hide PacketSequence, TotalLen;
    var (tx', taken) := TxChoose(tx);
    if taken.Some? {
      ValidatedPackets(taken.value);
      assert 0 < taken.value.Len();
      var ch := if tx.slots.control.Some? && tx'.slots.control.None? then Control else Media;
      TotalLenCons(taken.value, tx.lanes.At(ch).packets);
      assert [] + tx.lanes.At(ch).packets == tx.lanes.At(ch).packets;
      assert taken.value.payload[0..] == taken.value.payload;
    }
  }

  /** Every calm step keeps the account of what is to be written. */
  lemma StepConserves(tx: Tx, s: TxStep)
    requires Placed(tx) && Calm(s)
    ensures var (tx', written) := TxDo(tx, s);
      Placed(tx') && tx'.up == tx.up && ToWrite(tx') + |written| == ToWrite(tx)
    ensures TxDo(tx, s).0.running ==> tx.running
  {
    hide TxChoose, TxPoll, TxWrite, Traffic, TotalLen, Unwritten, PacketSequence;
    match s
    case TPoll(ch) => PollConserves(tx, ch);
    case TChoose =>
      ChoiceConserves(tx);
      ChoiceKeepsUp(tx);
    case TWrite(n) => WriteConserves(tx, n);
    case _ => OtherConserves(tx, s);
  }

  lemma ChoiceKeepsUp(tx: Tx)
    ensures TxChoose(tx).0.up == tx.up && (TxChoose(tx).0.running ==> tx.running)
  {
    hide Choose;
  }

  lemma PollConserves(tx: Tx, ch: Channel)
    requires Placed(tx)
    ensures var tx' := TxPoll(tx, ch).0;
      Placed(tx') && tx'.up == tx.up && ToWrite(tx') == ToWrite(tx) && (tx'.running ==> tx.running)
  {
    if tx.up || !tx.running {
      PollKeepsTraffic(tx, ch);
    }
    hide Traffic, TotalLen;
    PollKeepsOutgoing(tx, ch);
    if !tx.up && tx.running {
      DownPollKeepsTraffic(tx, ch);
    }
  }

  lemma PollKeepsOutgoing(tx: Tx, ch: Channel)
    ensures TxPoll(tx, ch).0.outgoing == tx.outgoing && TxPoll(tx, ch).0.up == tx.up
  {
  }

  lemma DownPollKeepsTraffic(tx: Tx, ch: Channel)
    requires !tx.up
    ensures SameTraffic(tx, TxPoll(tx, ch).0)
  {
  }

  lemma WriteConserves(tx: Tx, n: nat)
    requires Placed(tx)
    ensures var (tx', written) := TxWrite(tx, n);
      Placed(tx') && tx'.up == tx.up && ToWrite(tx') + |written| == ToWrite(tx) && tx'.running == tx.running
  {
    hide TotalLen;
    WriteKeepsTraffic(tx, n);
    if TxWrite(tx, n).1 != [] {
      WriteSplits(tx, n);
    }
  }

  lemma OtherConserves(tx: Tx, s: TxStep)
    requires Calm(s) && (s.TStop? || s.TApp?)
    ensures var (tx', written) := TxDo(tx, s);
      && written == [] && tx'.(running := tx.running) == tx && (tx'.running ==> tx.running)
      && ToWrite(tx') == ToWrite(tx)
  {
    hide TotalLen, Unwritten;
  }

  lemma {:induction false} RunConserves(tx: Tx, t: seq<TxStep>)
    requires Placed(tx) && Undisturbed(t)
    ensures var (tx', written) := TxRun(tx, t);
      Placed(tx') && tx'.up == tx.up && ToWrite(tx') + |written| == ToWrite(tx) && (tx'.running ==> tx.running)
    decreases |t|
  {
    hide TxDo, Placed, ToWrite, Calm;
    if t != [] {
      var front, s := t[..|t| - 1], t[|t| - 1];
      assert s in t && forall x :: x in front ==> x in t;
      RunConserves(tx, front);
      StepConserves(TxRun(tx, front).0, s);
    }
  }

  // ---- A pull -----------------------------------------------------------------------------

  /** The last two steps of a pull with nothing sent between its polls. */
  lemma PulledOrEmptied(tx: Tx)
    requires tx.up && tx.running && Filled(TxPoll(tx, Media).0)
    ensures var tx' := TxChoose(TxPoll(tx, Media).0).0; tx'.running ==> tx'.outgoing.Some? || Emptied(tx')
  {
    hide PacketSequence;
  }

  lemma PollFills(tx: Tx, ch: Channel)
    requires tx.up && tx.running
    ensures var tx' := TxPoll(tx, ch).0; tx'.slots.At(ch).None? ==> tx'.lanes.At(ch).packets == []
    ensures var tx' := TxPoll(tx, ch).0;
      tx'.slots.At(Other(ch)) == tx.slots.At(Other(ch)) && tx'.lanes.At(Other(ch)) == tx.lanes.At(Other(ch))
    ensures TxPoll(tx, ch).0.running && TxPoll(tx, ch).0.up
  {
  }

  lemma {:induction false} CalmApps(tx: Tx, between: seq<AppStep>)
    requires Undisturbed(TApps(between))
    ensures TxRun(tx, TApps(between)) == (tx, [])
    decreases |between|
  {
    hide TxRun;
    if between == [] {
      NoSteps(tx);
      assert TApps(between) == [];
    } else {
      var front, last := between[..|between| - 1], between[|between| - 1];
      assert TApps(between) == TApps(front) + [TApp(last)];
      assert TApp(last) in TApps(between) && Calm(TApp(last));
      assert forall x :: x in TApps(front) ==> x in TApps(between);
      CalmApps(tx, front);
      QuietStep(tx, TApps(front), tx, TApp(last));
    }
  }

  /** A pull during which nothing is sent yields a packet to write, unless there
      is none. */
  lemma PullFinds(tx: Tx, between: seq<AppStep>)
    requires tx.up && tx.running && Undisturbed(TApps(between))
    ensures var tx' := TxRun(tx, NextSteps(between)).0; tx'.running ==> tx'.outgoing.Some? || Emptied(tx')
  {
    hide TxRun, TxPoll, TxChoose, TApps, Emptied, Undisturbed;
    var polled := TxPoll(tx, Control).0;
    PollFills(tx, Control);
    PollFills(polled, Media);
    CalmApps(polled, between);
    OneTxStep(tx, TPoll(Control));
    var first, apps := [TPoll(Control)], TApps(between);
    QuietSteps(tx, first, polled, apps, polled);
    QuietStep(tx, first + apps, polled, TPoll(Media));
    QuietStep(tx, first + apps + [TPoll(Media)], TxPoll(polled, Media).0, TChoose);
    PulledOrEmptied(polled);
  }

  lemma EndsWithAPull(tx: Tx, t: seq<TxStep>)
    requires Placed(tx) && tx.up && EndsWithPull(t) && Undisturbed(t) && TxRun(tx, t).0.running
    ensures var tx' := TxRun(tx, t).0; tx'.outgoing.Some? || Emptied(tx')
  {
    hide TxRun, NextSteps, Emptied, TApps, ToWrite;
    var before, between :| Pull(t, before, between);
    assert forall x :: x in before || x in NextSteps(between) ==> x in t;
    RunConserves(tx, before);
    TxRunAppend(tx, before, NextSteps(between));
    var middle := TxRun(tx, before).0;
    RunConserves(middle, NextSteps(between));
    AppsOfNext(between);
    PullFinds(middle, between);
  }

  lemma AppsOfNext(between: seq<AppStep>)
    ensures forall x :: x in TApps(between) ==> x in NextSteps(between)
  {
  }

  lemma {:induction false} EmptiedStays(tx: Tx, t: seq<TxStep>)
    requires Emptied(tx) && Undisturbed(t)
    ensures Emptied(TxRun(tx, t).0)
    decreases |t|
  {
    hide TxDo, Emptied, Calm;
    if t != [] {
      var front, s := t[..|t| - 1], t[|t| - 1];
      assert s in t && forall x :: x in front ==> x in t;
      EmptiedStays(tx, front);
      EmptiedStep(TxRun(tx, front).0, s);
    }
  }

  lemma EmptiedStep(tx: Tx, s: TxStep)
    requires Emptied(tx) && Calm(s)
    ensures Emptied(TxDo(tx, s).0)
  {
    hide PacketSequence;
  }
}
