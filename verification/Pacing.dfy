/** The absolute-deadline frame pacer, and the synthetic producer it drives
    (crates/ladoflow-media/src/scheduler.rs:1-108 and synthetic.rs:119-202;
    apps/desktop/src-tauri/src/runtime.rs:1174-1199). */
module Pacing {
  import opened Wrappers
  import opened Words
  import opened Arithmetic
  import opened FrameRates

  datatype PacingTick = PacingTick(index: u64, deadline: Duration, skipped: u64)

  datatype PaceDecision = Due(tick: PacingTick) | WaitUntil(deadline: Duration) | Exhausted

  /** `next` is the slot to come, or none once every index is consumed. */
  datatype Pacer = Pacer(rate: FrameRate, origin: Duration, next: Option<u64>)

  function Following(index: u64): Option<u64> {
    if index == U64_MAX then None else Some(index + 1)
  }

  function Deadline(p: Pacer, tick: u64): Duration {
    SatAdd(p.origin, Timestamp(p.rate, tick))
  }

  function PollPacer(p: Pacer, now: Duration): (Pacer, PaceDecision) {
    if p.next.None? then (p, Exhausted) else
    var next := p.next.value;
    if now < Deadline(p, next) then (p, WaitUntil(Deadline(p, next))) else
    var due := Max(FrameAtOrBefore(p.rate, SatSub(now, p.origin)), next);
    (p.(next := Following(due)), Due(PacingTick(due, Deadline(p, due), due - next)))
  }

  class FramePacer {
    const frameRate: FrameRate
    const origin: Duration
    var nextTick: Option<u64>

    function State(): Pacer
      reads this
    {
      Pacer(frameRate, origin, nextTick)
    }

    constructor (frameRate: FrameRate, origin: Duration)
      ensures State() == Pacer(frameRate, origin, Some(0))
    {
      this.frameRate := frameRate;
      this.origin := origin;
      nextTick := Some(0);
    }

    method Poll(now: Duration) returns (d: PaceDecision)
      modifies this
      ensures (State(), d) == PollPacer(old(State()), now)
    {
      hide Timestamp, FrameAtOrBefore;
      if nextTick.None? {
        return Exhausted;
      }
      var next := nextTick.value;
      var nextDeadline := Deadline(State(), next);
      if now < nextDeadline {
        return WaitUntil(nextDeadline);
      }
      var elapsed := SatSub(now, origin);
      var dueTick := Max(FrameAtOrBefore(frameRate, elapsed), next);
      var tick := PacingTick(dueTick, Deadline(State(), dueTick), dueTick - next);
      nextTick := Following(dueTick);
      return Due(tick);
    }
  }

  // ---- One poll -----------------------------------------------------------------------

  /** A poll is due exactly from the target of the next slot on, waits for exactly
      that target before, and is exhausted exactly when no slot is left. */
  lemma PollIsExact(p: Pacer, now: Duration)
    ensures var (q, d) := PollPacer(p, now);
      && (p.next.None? <==> d.Exhausted?)
      && (!d.Due? ==> q == p)
      && (p.next.Some? ==>
            var k := p.next.value; var target := Min(p.origin + Timestamp(p.rate, k), DURATION_MAX);
            && (d == WaitUntil(target) <==> now < target)
            && (d.Due? <==> now >= target)
            && (d.Due? ==>
                  && d.tick.index >= k && d.tick.skipped == d.tick.index - k
                  && d.tick.deadline == Min(p.origin + Timestamp(p.rate, d.tick.index), DURATION_MAX)
                  && q == p.(next := if d.tick.index == U64_MAX then None else Some(d.tick.index + 1))))
  {
    hide Timestamp, FrameAtOrBefore;
  }

  /** A due slot is the newest one: its deadline has passed and, if any slot
      follows, that one's deadline has not — except at the very end of
      representable time, where saturated deadlines can no longer lie ahead. */
  lemma DueIsNewest(p: Pacer, now: Duration)
    requires PollPacer(p, now).1.Due?
    ensures var tick := PollPacer(p, now).1.tick;
      && tick.deadline <= now
      && (tick.index < U64_MAX ==> (Deadline(p, tick.index + 1) > now <==> now < DURATION_MAX))
  {
    hide Timestamp, FrameAtOrBefore;
    var next, elapsed := p.next.value, SatSub(now, p.origin);
    var found := FrameAtOrBefore(p.rate, elapsed);
    var due := Max(found, next);
    if due != next && elapsed < DURATION_MAX {
      FrameAtOrBeforeIsAdjoint(p.rate, due, elapsed);
    }
    if due < U64_MAX && elapsed < DURATION_MAX {
      FrameAtOrBeforeIsAdjoint(p.rate, due + 1, elapsed);
    }
  }

  /** The announced wait is tight: polling any earlier waits again for the same
      time, and polling at or after it yields a slot. */
  lemma WaitIsTight(p: Pacer, now: Duration, later: Duration)
    requires PollPacer(p, now).1.WaitUntil?
    ensures now < PollPacer(p, now).1.deadline
    ensures later < PollPacer(p, now).1.deadline ==> PollPacer(p, later) == PollPacer(p, now)
    ensures later >= PollPacer(p, now).1.deadline ==> PollPacer(p, later).1.Due?
  {
    hide Timestamp, FrameAtOrBefore;
  }

  // ---- Polled at the announced times -----------------------------------------------------

  lemma DeadlinesInOrder(p: Pacer, k: u64, later: u64)
    requires k <= later
    ensures Deadline(p, k) <= Deadline(p, later)
  {
    hide Timestamp;
    TimestampMonotone(p.rate, k, later);
  }

  /** The slot after this one has a later deadline. */
  predicate Separated(p: Pacer, k: u64) {
    k < U64_MAX && Deadline(p, k) < Deadline(p, k + 1)
  }

  /** It has when the rate is at most one frame per nanosecond and that deadline
      is representable. */
  lemma WhenSeparated(p: Pacer, k: u64)
    requires k < U64_MAX && p.rate.numerator <= p.rate.denominator * 1_000_000_000
    requires p.origin + ExactTimestamp(p.rate, k + 1) <= DURATION_MAX
    ensures Separated(p, k)
  {
    TimestampIsExact(p.rate, k);
    TimestampIsExact(p.rate, k + 1);
    ExactTimestampsDiffer(p.rate, k);
    hide Timestamp, ExactTimestamp;
  }

  /** A poll at the deadline of the next slot is that slot, with nothing skipped,
      exactly when the slot after it has a later deadline. */
  lemma PollAtDeadline(p: Pacer, k: u64)
    requires p.next == Some(k) && k < U64_MAX && Deadline(p, k) < DURATION_MAX
    ensures PollPacer(p, Deadline(p, k)).1 == Due(PacingTick(k, Deadline(p, k), 0)) <==> Separated(p, k)
  {
    var now := Deadline(p, k);
    DueIsNewest(p, now);
    PollIsExact(p, now);
    hide Timestamp, FrameAtOrBefore, PollPacer;
    var tick := PollPacer(p, now).1.tick;
    if tick.index > k {
      DeadlinesInOrder(p, k + 1, tick.index);
      DeadlinesInOrder(p, k, k + 1);
    }
  }

  /** What a caller sees that polls now and, when told to wait, polls again at the
      time announced, for some slots. */
  function Attend(p: Pacer, now: Duration, slots: nat): seq<PacingTick>
    decreases slots
  {
    if slots == 0 then [] else
    match PollPacer(p, now)
    case (_, Exhausted) => []
    case (q, Due(tick)) => [tick] + Attend(q, now, slots - 1)
    case (q, WaitUntil(time)) =>
      match PollPacer(q, time)
      case (r, Due(tick)) => [tick] + Attend(r, time, slots - 1)
      case _ => []
  }

  /** Such a caller that is not late misses no slot: it gets the slots one by one,
      each at its own deadline, as long as deadlines differ. */
  lemma {:induction false} AttendedSlots(p: Pacer, k: u64, now: Duration, slots: nat)
    requires p.next == Some(k) && now <= Deadline(p, k) && k + slots <= U64_MAX
    requires forall i: u64 :: k <= i < k + slots ==> Separated(p, i)
    ensures var ticks := Attend(p, now, slots);
      |ticks| == slots && forall i :: 0 <= i < slots ==> ticks[i] == PacingTick(k + i, Deadline(p, k + i), 0)
    decreases slots
  {
    hide Timestamp, FrameAtOrBefore, PollPacer;
    if slots > 0 {
      var time := Deadline(p, k);
      PollIsExact(p, now);
      PollIsExact(p, time);
      assert Separated(p, k);
      PollAtDeadline(p, k);
      var q := p.(next := Some(k + 1));
      assert forall i: u64 :: Deadline(q, i) == Deadline(p, i);
      forall i: u64 | k + 1 <= i < k + slots
        ensures Separated(q, i)
      {
        assert Separated(p, i);
      }
      AttendedSlots(q, k + 1, time, slots - 1);
      var ticks, rest := Attend(p, now, slots), Attend(q, time, slots - 1);
      assert ticks == [PacingTick(k, time, 0)] + rest;
    }
  }

  // ---- Whole runs, under any clock ------------------------------------------------------

  function RunPacer(p: Pacer, clock: seq<Duration>): (Pacer, seq<PacingTick>)
    decreases |clock|
  {
    if clock == [] then (p, []) else
    var (q, d) := PollPacer(p, clock[0]);
    var later := RunPacer(q, clock[1..]);
    (later.0, (if d.Due? then [d.tick] else []) + later.1)
  }

  /** Slots consumed so far, due or skipped. */
  function Consumed(p: Pacer): nat {
    if p.next.None? then U64_MAX + 1 else p.next.value
  }

  function Slots(ticks: seq<PacingTick>): nat
    decreases |ticks|
  {
    if ticks == [] then 0 else 1 + ticks[0].skipped + Slots(ticks[1..])
  }

  ghost predicate StrictlyIncreasing(ticks: seq<PacingTick>) {
    forall i, j :: 0 <= i < j < |ticks| ==> ticks[i].index < ticks[j].index
  }

  /** These ticks consume the slots from `from` up to `to`: their indices
      strictly increase, and each slot is one of them or skipped by one. */
  ghost predicate Account(from: nat, ticks: seq<PacingTick>, to: nat) {
    && StrictlyIncreasing(ticks)
    && to == from + Slots(ticks)
    && (forall i :: 0 <= i < |ticks| ==> from <= ticks[i].index < to)
    && (ticks != [] ==> ticks[|ticks| - 1].index + 1 == to)
  }

  /** Over any list of polls, whatever the clock does, every slot up to the
      last due one is accounted for exactly once. */
  lemma {:induction false} EverySlotAccountedFor(p: Pacer, clock: seq<Duration>)
    ensures Account(Consumed(p), RunPacer(p, clock).1, Consumed(RunPacer(p, clock).0))
    decreases |clock|
  {
    hide PollPacer, Consumed, Account;
    if clock == [] {
      EmptyAccount(Consumed(p));
    } else {
      var (q, d) := PollPacer(p, clock[0]);
      PollConsumes(p, clock[0]);
      EverySlotAccountedFor(q, clock[1..]);
      var (r, later) := RunPacer(q, clock[1..]);
      if d.Due? {
        ConsAccount(Consumed(p), d.tick, later, Consumed(r));
      } else {
        assert [] + later == later;
      }
    }
  }

  lemma EmptyAccount(n: nat)
    ensures Account(n, [], n)
  {
  }

  lemma ConsAccount(from: nat, tick: PacingTick, later: seq<PacingTick>, to: nat)
    requires from + tick.skipped == tick.index && Account(tick.index + 1, later, to)
    ensures Account(from, [tick] + later, to)
  {
    var ticks := [tick] + later;
    assert ticks[1..] == later;
    assert forall i :: 0 < i < |ticks| ==> ticks[i] == later[i - 1];
  }

  lemma PollConsumes(p: Pacer, now: Duration)
    ensures var (q, d) := PollPacer(p, now);
      if d.Due? then
        && Consumed(q) == Consumed(p) + 1 + d.tick.skipped
        && Consumed(p) <= d.tick.index && Consumed(q) == d.tick.index + 1
      else q == p
  {
    hide Timestamp, FrameAtOrBefore;
  }

  // ---- The producer -----------------------------------------------------------------------

  datatype FrameKind = Key | Delta

  /** Identity and timing of a frame; its payload bytes are opaque here. */
  datatype FrameMetadata = FrameMetadata(
    sequence: u64, captureTime: Duration, presentationTime: Duration, duration: Duration, kind: FrameKind)

  function MetadataFor(rate: FrameRate, keyframeInterval: u64, sequence: u64): FrameMetadata
    requires keyframeInterval > 0
  {
    var time := Timestamp(rate, sequence);
    FrameMetadata(sequence, time, time, FrameDuration(rate, sequence),
                  if sequence % keyframeInterval == 0 then Key else Delta)
  }

  /** A frame is captured when it is presented, lasts until the next is, and is a
      keyframe exactly at every multiple of the interval. */
  lemma SyntheticFrameIsRight(rate: FrameRate, keyframeInterval: u64, sequence: u64)
    requires keyframeInterval > 0
    ensures var m := MetadataFor(rate, keyframeInterval, sequence);
      && m.sequence == sequence && m.captureTime == m.presentationTime == Min(ExactTimestamp(rate, sequence), DURATION_MAX)
      && (sequence < U64_MAX ==>
            m.presentationTime + m.duration == MetadataFor(rate, keyframeInterval, sequence + 1).presentationTime)
      && (m.kind.Key? <==> exists n: nat :: n * keyframeInterval == sequence)
  {
    TimestampIsExact(rate, sequence);
    if sequence < U64_MAX {
      TimestampMonotone(rate, sequence, sequence + 1);
    }
    hide Timestamp, ExactTimestamp;
    DividesExactly(sequence, keyframeInterval);
  }

  lemma DividesExactly(x: nat, n: nat)
    requires n > 0
    ensures x % n == 0 <==> exists q: nat :: q * n == x
  {
    assert x == x / n * n + x % n;
    if x % n == 0 {
      FloorIsNatural(x, n);
      assert (x / n) * n == x;
    }
    if q: nat :| q * n == x {
      FloorUnique(x, n, q);
    }
  }

  class SyntheticFrameProducer {
    const rate: FrameRate
    const keyframeInterval: u64
    var nextSequence: Option<u64>

    constructor (rate: FrameRate, keyframeInterval: u64)
      ensures this.rate == rate && this.keyframeInterval == keyframeInterval && nextSequence == Some(0)
    {
      this.rate := rate;
      this.keyframeInterval := keyframeInterval;
      nextSequence := Some(0);
    }

    /** Skip to `sequence`; never rewinds. Returns the number skipped. */
    method AdvanceToSequence(sequence: u64) returns (skipped: u64)
      modifies this
      ensures nextSequence.Some? == old(nextSequence).Some?
      ensures nextSequence.Some? ==> nextSequence.value == Max(old(nextSequence).value, sequence)
      ensures skipped == if nextSequence.Some? then nextSequence.value - old(nextSequence).value else 0
    {
      if nextSequence.None? {
        return 0;
      }
      var current := nextSequence.value;
      if sequence <= current {
        return 0;
      }
      nextSequence := Some(sequence);
      return sequence - current;
    }

    method Next() returns (frame: Option<FrameMetadata>)
      requires keyframeInterval > 0
      modifies this
      ensures old(nextSequence).None? ==> frame.None? && nextSequence.None?
      ensures old(nextSequence).Some? ==>
        && frame == Some(MetadataFor(rate, keyframeInterval, old(nextSequence).value))
        && nextSequence == Following(old(nextSequence).value)
    {
      hide Timestamp;
      if nextSequence.None? {
        return None;
      }
      var sequence := nextSequence.value;
      nextSequence := Following(sequence);
      return Some(MetadataFor(rate, keyframeInterval, sequence));
    }
  }

  /** The frames the producer makes for a list of slots. */
  function FramesFor(rate: FrameRate, keyframeInterval: u64, ticks: seq<PacingTick>): seq<FrameMetadata>
    requires keyframeInterval > 0
  {
    seq(|ticks|, i requires 0 <= i < |ticks| => MetadataFor(rate, keyframeInterval, ticks[i].index))
  }

  /** The producer loop of the loopback diagnostic, polled at the given clock
      readings: producer and pacer stay in lockstep, so the asserted skip counts
      agree, every due slot gets the frame of its own index, and what is
      counted as dropped is exactly the slots skipped. */
  method RunLoopback(rate: FrameRate, keyframeInterval: u64, clock: seq<Duration>)
    returns (frames: seq<FrameMetadata>, dropped: u64)
    requires keyframeInterval > 0
    ensures var ticks := RunPacer(Pacer(rate, 0, Some(0)), clock).1;
      && frames == FramesFor(rate, keyframeInterval, ticks)
      && dropped == Min(Slots(ticks) - |ticks|, U64_MAX)
  {
    hide Timestamp, FrameAtOrBefore, MetadataFor;
    var pacer := new FramePacer(rate, 0);
    var producer := new SyntheticFrameProducer(rate, keyframeInterval);
    frames, dropped := [], 0;
    ghost var start, ticks := pacer.State(), [];
    var i := 0;
    while i < |clock|
      invariant 0 <= i <= |clock|
      invariant fresh(pacer) && fresh(producer) && producer.nextSequence == pacer.nextTick
      invariant producer.rate == rate && producer.keyframeInterval == keyframeInterval
      invariant RunPacer(start, clock[..i]) == (pacer.State(), ticks)
      invariant frames == FramesFor(rate, keyframeInterval, ticks)
      invariant |ticks| <= Slots(ticks) && dropped == Min(Slots(ticks) - |ticks|, U64_MAX)
    {
      ghost var before := pacer.State();
      var decision := pacer.Poll(clock[i]);
      PollOnceMore(start, clock[..i], clock[i]);
      assert clock[..i + 1] == clock[..i] + [clock[i]];
      i := i + 1;
      match decision
      case WaitUntil(_) => assert ticks + [] == ticks;
      case Exhausted => assert ticks + [] == ticks;
      case Due(tick) =>
        if tick.skipped > 0 {
          var producerSkipped := producer.AdvanceToSequence(tick.index);
          assert producerSkipped == tick.skipped;
          dropped := SatAdd64(dropped, tick.skipped);
        }
        var frame := producer.Next();
        frames := frames + [frame.value];
        SlotsMore(ticks, tick);
        ticks := ticks + [tick];
    }
    assert clock[..i] == clock;
  }

  lemma {:induction false} PollOnceMore(p: Pacer, clock: seq<Duration>, now: Duration)
    ensures var (q, ticks) := RunPacer(p, clock); var (next, d) := PollPacer(q, now);
      RunPacer(p, clock + [now]) == (next, ticks + (if d.Due? then [d.tick] else []))
    decreases |clock|
  {
    hide PollPacer;
    if clock == [] {
      var last := PollPacer(p, now);
      assert ([] + [now])[0] == now && ([] + [now])[1..] == [];
      assert (if last.1.Due? then [last.1.tick] else []) + [] == [] + (if last.1.Due? then [last.1.tick] else []);
    } else {
      var (q, d) := PollPacer(p, clock[0]);
      PollOnceMore(q, clock[1..], now);
      assert (clock + [now])[1..] == clock[1..] + [now];
      var here := if d.Due? then [d.tick] else [];
      var (r, ticks) := RunPacer(q, clock[1..]);
      var last := PollPacer(r, now).1;
      var more := if last.Due? then [last.tick] else [];
      assert here + (ticks + more) == here + ticks + more;
    }
  }

  lemma {:induction false} SlotsMore(ticks: seq<PacingTick>, tick: PacingTick)
    ensures Slots(ticks + [tick]) == Slots(ticks) + 1 + tick.skipped
    decreases |ticks|
  {
    if ticks == [] {
      assert ([] + [tick])[1..] == [];
    } else {
      SlotsMore(ticks[1..], tick);
      assert (ticks + [tick])[1..] == ticks[1..] + [tick];
    }
  }

  /** In the loopback run the frame made for a slot is presented at that slot's
      own deadline. */
  lemma FrameMeetsItsDeadline(rate: FrameRate, keyframeInterval: u64, clock: seq<Duration>, i: nat)
    requires keyframeInterval > 0
    requires i < |RunPacer(Pacer(rate, 0, Some(0)), clock).1|
    ensures var ticks := RunPacer(Pacer(rate, 0, Some(0)), clock).1;
      && FramesFor(rate, keyframeInterval, ticks)[i].sequence == ticks[i].index
      && FramesFor(rate, keyframeInterval, ticks)[i].presentationTime == ticks[i].deadline
  {
    hide Timestamp;
    TickDeadlines(Pacer(rate, 0, Some(0)), clock, i);
  }

  lemma {:induction false} TickDeadlines(p: Pacer, clock: seq<Duration>, i: nat)
    requires i < |RunPacer(p, clock).1|
    ensures RunPacer(p, clock).1[i].deadline == Deadline(p, RunPacer(p, clock).1[i].index)
    decreases |clock|
  {
    hide Timestamp, FrameAtOrBefore;
    var (q, d) := PollPacer(p, clock[0]);
    if d.Due? {
      if i > 0 { TickDeadlines(q, clock[1..], i - 1); }
    } else {
      TickDeadlines(q, clock[1..], i);
    }
  }
}
