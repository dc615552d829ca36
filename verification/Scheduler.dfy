/** The one-frame, latest-wins media scheduler
    (crates/ladoflow-media/src/scheduler.rs:110-626). */
module Scheduler {
  import opened Wrappers
  import opened Words
  import opened FrameRates
  import opened Pacing

  datatype MediaFrame = MediaFrame(metadata: FrameMetadata, payload: bytes)

  datatype RawConfig = Config(rate: FrameRate, maxFrameAge: Duration, maxFrameBytes: usize)

  /** `SchedulerConfig::new` refuses a zero byte limit. */
  type Configuration = c: RawConfig | c.maxFrameBytes > 0 witness Config(Rate(1, 1), 0, 1)

  datatype SubmitOutcome =
    | Queued
    | Replaced(droppedSequence: u64)
    | SubmitStale(sequence: u64)
    | DroppedSuperseded(sequence: u64, keptSequence: u64)
    | DroppedOversized(sequence: u64, payloadBytes: nat, limit: nat)

  datatype IdleReason = QueueEmpty | FrameNotDue

  datatype PollOutcome =
    | Ready(frame: MediaFrame, tick: PacingTick, queueTime: Duration, lateness: Duration, latency: Duration)
    | WaitingUntil(deadline: Duration)
    | Idle(tick: PacingTick, reason: IdleReason)
    | DroppedStale(sequence: u64, tick: PacingTick)
    | PollExhausted

  /** Sum and maximum of one measured duration over the dispatched frames. */
  datatype Measured = Measured(total: Duration, max: Duration) {
    function Add(d: Duration): Measured { Measured(SatAdd(total, d), if max >= d then max else d) }
  }

  datatype Metrics = Metrics(
    submitted: u64, presented: u64, stale: u64, superseded: u64, oversized: u64,
    ticks: u64, skipped: u64, idle: u64, queueTime: Measured, lateness: Measured, latency: Measured)

  const NO_METRICS := Metrics(0, 0, 0, 0, 0, 0, 0, 0, Measured(0, 0), Measured(0, 0), Measured(0, 0))

  datatype PendingFrame = PendingFrame(frame: MediaFrame, enqueuedAt: Duration)

  datatype State = State(
    config: Configuration, origin: Duration, pacer: Pacer, pending: Option<PendingFrame>, metrics: Metrics)

  function AbsoluteTime(s: State, streamTime: Duration): Duration { SatAdd(s.origin, streamTime) }

  function StaleAfter(s: State, m: FrameMetadata): Duration {
    SatAdd(AbsoluteTime(s, m.presentationTime), s.config.maxFrameAge)
  }

  predicate IsStale(s: State, m: FrameMetadata, now: Duration) { now > StaleAfter(s, m) }

  /** `frame_order(a) <= frame_order(b)`: by presentation time, then sequence. */
  predicate NotNewer(a: FrameMetadata, b: FrameMetadata) {
    a.presentationTime < b.presentationTime
    || (a.presentationTime == b.presentationTime && a.sequence <= b.sequence)
  }

  function Submit(s0: State, f: MediaFrame, now: Duration): (State, SubmitOutcome) {
    var s := s0.(metrics := s0.metrics.(submitted := SatAdd64(s0.metrics.submitted, 1)));
    var m := f.metadata;
    if |f.payload| > s.config.maxFrameBytes then
      (s.(metrics := s.metrics.(oversized := SatAdd64(s.metrics.oversized, 1))),
       DroppedOversized(m.sequence, |f.payload|, s.config.maxFrameBytes))
    else if IsStale(s, m, now) then
      (s.(metrics := s.metrics.(stale := SatAdd64(s.metrics.stale, 1))), SubmitStale(m.sequence))
    else if s.pending.Some? && NotNewer(m, s.pending.value.frame.metadata) then
      (s.(metrics := s.metrics.(superseded := SatAdd64(s.metrics.superseded, 1))),
       DroppedSuperseded(m.sequence, s.pending.value.frame.metadata.sequence))
    else
      var held := s.(pending := Some(PendingFrame(f, now)));
      if s.pending.Some? then
        (held.(metrics := s.metrics.(superseded := SatAdd64(s.metrics.superseded, 1))),
         Replaced(s.pending.value.frame.metadata.sequence))
      else (held, Queued)
  }

  function RecordTick(m: Metrics, tick: PacingTick): Metrics {
    m.(ticks := SatAdd64(m.ticks, 1), skipped := SatAdd64(m.skipped, tick.skipped))
  }

  function RecordIdle(m: Metrics): Metrics { m.(idle := SatAdd64(m.idle, 1)) }

  function RecordPresented(m: Metrics, queueTime: Duration, lateness: Duration, latency: Duration): Metrics {
    m.(presented := SatAdd64(m.presented, 1), queueTime := m.queueTime.Add(queueTime),
       lateness := m.lateness.Add(lateness), latency := m.latency.Add(latency))
  }

  function Poll(s0: State, now: Duration): (State, PollOutcome) {
    var (pacer, decision) := PollPacer(s0.pacer, now);
    match decision
    case WaitUntil(deadline) => (s0.(pacer := pacer), WaitingUntil(deadline))
    case Exhausted => (s0.(pacer := pacer), PollExhausted)
    case Due(tick) => Dispatch(s0.(pacer := pacer, metrics := RecordTick(s0.metrics, tick)), tick, now)
  }

  /** What happens to the held frame when a slot is due. */
  function Dispatch(s: State, tick: PacingTick, now: Duration): (State, PollOutcome) {
    if s.pending.None? then (s.(metrics := RecordIdle(s.metrics)), Idle(tick, QueueEmpty)) else
    var p := s.pending.value;
    var m := p.frame.metadata;
    if IsStale(s, m, now) then
      (s.(pending := None,
          metrics := RecordIdle(s.metrics.(stale := SatAdd64(s.metrics.stale, 1)))),
       DroppedStale(m.sequence, tick))
    else if now < AbsoluteTime(s, m.presentationTime) then
      (s.(metrics := RecordIdle(s.metrics)), Idle(tick, FrameNotDue))
    else
      var queueTime := SatSub(now, p.enqueuedAt);
      var lateness := SatSub(now, tick.deadline);
      var latency := SatSub(now, AbsoluteTime(s, m.captureTime));
      (s.(pending := None, metrics := RecordPresented(s.metrics, queueTime, lateness, latency)),
       Ready(p.frame, tick, queueTime, lateness, latency))
  }

  // ---- The scheduler as the source runs it ---------------------------------------------

  class LatestFrameScheduler {
    const config: Configuration
    const streamOrigin: Duration
    const pacer: FramePacer
    var pending: Option<PendingFrame>
    var metrics: Metrics

    function Value(): State
      reads this, pacer
    {
      State(config, streamOrigin, pacer.State(), pending, metrics)
    }

    constructor (config: Configuration, streamOrigin: Duration)
      ensures Value() == Start(config, streamOrigin) && fresh(pacer)
    {
      this.config := config;
      this.streamOrigin := streamOrigin;
      pacer := new FramePacer(config.rate, streamOrigin);
      pending := None;
      metrics := NO_METRICS;
    }

    method TakeMetrics() returns (m: Metrics)
      modifies this`metrics
      ensures m == old(metrics) && Value() == old(Value()).(metrics := NO_METRICS)
    {
      m := metrics;
      metrics := NO_METRICS;
    }

    method SubmitFrame(frame: MediaFrame, now: Duration) returns (outcome: SubmitOutcome)
      modifies this`pending, this`metrics
      ensures (Value(), outcome) == Submit(old(Value()), frame, now)
    {
      metrics := metrics.(submitted := SatAdd64(metrics.submitted, 1));
      var metadata := frame.metadata;
      var payloadBytes := |frame.payload|;
      if payloadBytes > config.maxFrameBytes {
        metrics := metrics.(oversized := SatAdd64(metrics.oversized, 1));
        return DroppedOversized(metadata.sequence, payloadBytes, config.maxFrameBytes);
      }
      if IsStale(Value(), metadata, now) {
        metrics := metrics.(stale := SatAdd64(metrics.stale, 1));
        return SubmitStale(metadata.sequence);
      }
      if pending.Some? && NotNewer(metadata, pending.value.frame.metadata) {
        metrics := metrics.(superseded := SatAdd64(metrics.superseded, 1));
        return DroppedSuperseded(metadata.sequence, pending.value.frame.metadata.sequence);
      }
      var replaced := pending;
      pending := Some(PendingFrame(frame, now));
      if replaced.Some? {
        metrics := metrics.(superseded := SatAdd64(metrics.superseded, 1));
        return Replaced(replaced.value.frame.metadata.sequence);
      }
      return Queued;
    }

    method PollFrame(now: Duration) returns (outcome: PollOutcome)
      modifies this`pending, this`metrics, pacer
      ensures (Value(), outcome) == Poll(old(Value()), now)
    {
      hide PollPacer;
      var decision := pacer.Poll(now);
      if decision.WaitUntil? {
        return WaitingUntil(decision.deadline);
      }
      if decision.Exhausted? {
        return PollExhausted;
      }
      var tick := decision.tick;
      metrics := RecordTick(metrics, tick);
      if pending.None? {
        metrics := RecordIdle(metrics);
        return Idle(tick, QueueEmpty);
      }
      var taken := pending.value;
      pending := None;
      var metadata := taken.frame.metadata;
      if IsStale(Value(), metadata, now) {
        metrics := metrics.(stale := SatAdd64(metrics.stale, 1));
        metrics := RecordIdle(metrics);
        return DroppedStale(metadata.sequence, tick);
      }
      if now < AbsoluteTime(Value(), metadata.presentationTime) {
        pending := Some(taken);
        metrics := RecordIdle(metrics);
        return Idle(tick, FrameNotDue);
      }
      var queueTime := SatSub(now, taken.enqueuedAt);
      var lateness := SatSub(now, tick.deadline);
      var latency := SatSub(now, AbsoluteTime(Value(), metadata.captureTime));
      metrics := RecordPresented(metrics, queueTime, lateness, latency);
      return Ready(taken.frame, tick, queueTime, lateness, latency);
    }
  }

  function Start(config: Configuration, origin: Duration): State {
    State(config, origin, Pacer(config.rate, origin, Some(0)), None, NO_METRICS)
  }

  // ---- One operation --------------------------------------------------------------------

  /** The outcome of a submit, from size, time and order alone. A frame is stale
      exactly when it comes later than its presentation time and the age limit
      after it allow; only one that is neither too large nor stale contends. */
  lemma SubmitIsExact(s: State, f: MediaFrame, now: Duration)
    ensures var (s', r) := Submit(s, f, now); var m := f.metadata;
      var tooLarge := |f.payload| > s.config.maxFrameBytes;
      var stale := now > Min(Min(s.origin + m.presentationTime, DURATION_MAX) + s.config.maxFrameAge, DURATION_MAX);
      && (r == DroppedOversized(m.sequence, |f.payload|, s.config.maxFrameBytes) <==> tooLarge)
      && (r == SubmitStale(m.sequence) <==> !tooLarge && stale)
      && (r.Queued? <==> !tooLarge && !stale && s.pending.None?)
      && (s.pending.Some? ==>
            var kept := s.pending.value.frame.metadata;
            var newer := kept.presentationTime < m.presentationTime
              || (kept.presentationTime == m.presentationTime && kept.sequence < m.sequence);
            && (r == Replaced(kept.sequence) <==> !tooLarge && !stale && newer)
            && (r == DroppedSuperseded(m.sequence, kept.sequence) <==> !tooLarge && !stale && !newer))
      && s'.pending == (if r.Queued? || r.Replaced? then Some(PendingFrame(f, now)) else s.pending)
      && s' == s.(pending := s'.pending, metrics := s'.metrics)
  {
    hide SatAdd64;
  }

  /** What happens to the held frame when a slot is due: it is dropped once it is
      past its age limit, kept while it is early, and dispatched in between. */
  lemma DispatchIsExact(s: State, tick: PacingTick, now: Duration)
    ensures var (s', r) := Dispatch(s, tick, now);
      && (s.pending.None? ==> r == Idle(tick, QueueEmpty))
      && (s.pending.Some? ==>
            var m := s.pending.value.frame.metadata;
            var target := Min(s.origin + m.presentationTime, DURATION_MAX);
            var limit := Min(target + s.config.maxFrameAge, DURATION_MAX);
            && (r == DroppedStale(m.sequence, tick) <==> now > limit)
            && (r == Idle(tick, FrameNotDue) <==> now < target)
            && (r.Ready? <==> target <= now <= limit)
            && (r.Ready? ==> r.frame == s.pending.value.frame && r.tick == tick))
      && s'.pending == (if r.Ready? || r.DroppedStale? then None else s.pending)
      && s' == s.(pending := s'.pending, metrics := s'.metrics)
      && !r.WaitingUntil? && !r.PollExhausted?
  {
    hide SatAdd64, SatSub, RecordPresented;
  }

  /** The outcome of a poll: that, when the pacer's slot is due, and nothing at
      all before. */
  lemma PollIsExactForFrame(s: State, now: Duration)
    ensures var (s', r) := Poll(s, now); var (pacer, slot) := PollPacer(s.pacer, now);
      && (r.PollExhausted? <==> slot.Exhausted?)
      && (r.WaitingUntil? <==> slot.WaitUntil?) && (slot.WaitUntil? ==> r.deadline == slot.deadline)
      && (!slot.Due? ==> s' == s.(pacer := pacer))
      && (slot.Due? ==>
            (s', r) == Dispatch(s.(pacer := pacer, metrics := RecordTick(s.metrics, slot.tick)), slot.tick, now))
  {
    hide PollPacer, Dispatch, RecordTick;
    var (pacer, slot) := PollPacer(s.pacer, now);
    if slot.Due? {
      DispatchIsExact(s.(pacer := pacer, metrics := RecordTick(s.metrics, slot.tick)), slot.tick, now);
    }
  }

  // ---- Conservation and choice over whole runs -------------------------------------------

  datatype Op = SubmitOp(frame: MediaFrame, at: Duration) | PollOp(now: Duration) | TakeOp

  /** True counts since the metrics were last taken, how many frames and slots
      that window started with, the frames that contended for the slot since it
      was last empty, and the delays of the frames dispatched. */
  datatype Tally = Tally(
    submitted: nat, presented: nat, stale: nat, superseded: nat, oversized: nat,
    ticks: nat, skipped: nat, idle: nat, carried: nat, slotBase: nat, contenders: seq<MediaFrame>,
    queueTimes: seq<Duration>, latenesses: seq<Duration>, latencies: seq<Duration>)

  function Occupied(s: State): nat { if s.pending.Some? then 1 else 0 }

  function Count(s: State, t: Tally, op: Op): Tally {
    match op
    case SubmitOp(f, now) =>
      var u := t.(submitted := t.submitted + 1);
      var contending := u.(contenders := t.contenders + [f]);
      (match Submit(s, f, now).1
       case Queued => contending
       case Replaced(_) => contending.(superseded := t.superseded + 1)
       case DroppedSuperseded(_, _) => contending.(superseded := t.superseded + 1)
       case SubmitStale(_) => u.(stale := t.stale + 1)
       case DroppedOversized(_, _, _) => u.(oversized := t.oversized + 1))
    case PollOp(now) =>
      (match Poll(s, now).1
       case WaitingUntil(_) => t
       case PollExhausted => t
       case Ready(_, tick, queueTime, lateness, latency) =>
         t.(ticks := t.ticks + 1, skipped := t.skipped + tick.skipped, presented := t.presented + 1, contenders := [],
            queueTimes := t.queueTimes + [queueTime], latenesses := t.latenesses + [lateness],
            latencies := t.latencies + [latency])
       case DroppedStale(_, tick) =>
         t.(ticks := t.ticks + 1, skipped := t.skipped + tick.skipped, idle := t.idle + 1,
            stale := t.stale + 1, contenders := [])
       case Idle(tick, _) =>
         t.(ticks := t.ticks + 1, skipped := t.skipped + tick.skipped, idle := t.idle + 1))
    case TakeOp => Tally(0, 0, 0, 0, 0, 0, 0, 0, Occupied(s), Consumed(s.pacer), t.contenders, [], [], [])
  }

  function Act(s: State, op: Op): State {
    match op
    case SubmitOp(f, now) => Submit(s, f, now).0
    case PollOp(now) => Poll(s, now).0
    case TakeOp => s.(metrics := NO_METRICS)
  }

  function Run(s: State, t: Tally, ops: seq<Op>): (State, Tally)
    decreases |ops|
  {
    if ops == [] then (s, t) else Run(Act(s, ops[0]), Count(s, t, ops[0]), ops[1..])
  }

  /** Every frame submitted, and every slot due, ends up in one place. */
  ghost predicate Conserved(s: State, t: Tally) {
    && t.submitted + t.carried == t.presented + t.stale + t.superseded + t.oversized + Occupied(s)
    && t.ticks == t.presented + t.idle
    && t.slotBase + t.ticks + t.skipped == Consumed(s.pacer)
  }

  /** A published counter is the true count, saturated. */
  predicate Shows(counter: u64, count: nat) { counter == Min(count, U64_MAX) }

  lemma ShowsMore(counter: u64, count: nat, more: nat)
    requires Shows(counter, count)
    ensures Shows(SatAdd64(counter, more), count + more)
  {
  }

  ghost predicate Published(m: Metrics, t: Tally) {
    && Shows(m.submitted, t.submitted) && Shows(m.presented, t.presented)
    && Shows(m.stale, t.stale) && Shows(m.superseded, t.superseded)
    && Shows(m.oversized, t.oversized) && Shows(m.ticks, t.ticks)
    && Shows(m.skipped, t.skipped) && Shows(m.idle, t.idle)
  }

  function TotalOf(delays: seq<Duration>): nat
    decreases |delays|
  {
    if delays == [] then 0 else TotalOf(delays[..|delays| - 1]) + delays[|delays| - 1]
  }

  /** A published delay is the saturated sum and the maximum of the true ones. */
  ghost predicate Measures(m: Measured, delays: seq<Duration>) {
    && m.total == Min(TotalOf(delays), DURATION_MAX)
    && (forall d :: d in delays ==> d <= m.max)
    && (if delays == [] then m.max == 0 else m.max in delays)
  }

  lemma MeasuresMore(m: Measured, delays: seq<Duration>, d: Duration)
    requires Measures(m, delays)
    ensures Measures(m.Add(d), delays + [d])
  {
    assert (delays + [d])[..|delays|] == delays;
    assert d in delays + [d];
  }

  ghost predicate Timed(m: Metrics, t: Tally) {
    Measures(m.queueTime, t.queueTimes) && Measures(m.lateness, t.latenesses) && Measures(m.latency, t.latencies)
  }

  lemma PollTimes(s: State, t: Tally, now: Duration)
    requires Timed(s.metrics, t)
    ensures Timed(Poll(s, now).0.metrics, Count(s, t, PollOp(now)))
  {
    hide PollPacer, IsStale, SatSub, SatAdd64, Measures;
    var r := Poll(s, now).1;
    if r.Ready? {
      MeasuresMore(s.metrics.queueTime, t.queueTimes, r.queueTime);
      MeasuresMore(s.metrics.lateness, t.latenesses, r.lateness);
      MeasuresMore(s.metrics.latency, t.latencies, r.latency);
    }
  }

  lemma SubmitTimes(s: State, t: Tally, f: MediaFrame, now: Duration)
    requires Timed(s.metrics, t)
    ensures Timed(Submit(s, f, now).0.metrics, Count(s, t, SubmitOp(f, now)))
  {
    hide IsStale, NotNewer, SatAdd64, Measures;
  }

  /** The slot holds the greatest contender, and one the limits admit. */
  ghost predicate HoldsNewest(s: State, contenders: seq<MediaFrame>) {
    match s.pending
    case None => contenders == []
    case Some(p) =>
      && p.frame in contenders
      && (forall c :: c in contenders ==> NotNewer(c.metadata, p.frame.metadata))
      && |p.frame.payload| <= s.config.maxFrameBytes
  }

  ghost predicate Sound(s: State, t: Tally) {
    Conserved(s, t) && Published(s.metrics, t) && Timed(s.metrics, t) && HoldsNewest(s, t.contenders)
  }

  lemma SubmitConserves(s: State, t: Tally, f: MediaFrame, now: Duration)
    requires Conserved(s, t)
    ensures Conserved(Submit(s, f, now).0, Count(s, t, SubmitOp(f, now)))
  {
    hide Consumed, IsStale, NotNewer, SatAdd64;
  }

  lemma SubmitPublishes(s: State, t: Tally, f: MediaFrame, now: Duration)
    requires Published(s.metrics, t)
    ensures Published(Submit(s, f, now).0.metrics, Count(s, t, SubmitOp(f, now)))
  {
    hide IsStale, NotNewer, Shows, SatAdd64;
    ShowsMore(s.metrics.submitted, t.submitted, 1);
    ShowsMore(s.metrics.stale, t.stale, 1);
    ShowsMore(s.metrics.superseded, t.superseded, 1);
    ShowsMore(s.metrics.oversized, t.oversized, 1);
  }

  lemma SubmitHolds(s: State, t: Tally, f: MediaFrame, now: Duration)
    requires HoldsNewest(s, t.contenders)
    ensures HoldsNewest(Submit(s, f, now).0, Count(s, t, SubmitOp(f, now)).contenders)
  {
    hide IsStale, SatAdd64;
  }

  lemma SubmitIsSound(s: State, t: Tally, f: MediaFrame, now: Duration)
    requires Sound(s, t)
    ensures Sound(Act(s, SubmitOp(f, now)), Count(s, t, SubmitOp(f, now)))
  {
    hide Conserved, Published, Timed, HoldsNewest, Submit, Count;
    SubmitTimes(s, t, f, now);
    SubmitConserves(s, t, f, now);
    SubmitPublishes(s, t, f, now);
    SubmitHolds(s, t, f, now);
  }

  lemma PollConserves(s: State, t: Tally, now: Duration)
    requires Conserved(s, t)
    ensures Conserved(Poll(s, now).0, Count(s, t, PollOp(now)))
  {
    hide Consumed, PollPacer, IsStale, SatAdd64, SatSub;
    PollConsumes(s.pacer, now);
  }

  lemma PollPublishes(s: State, t: Tally, now: Duration)
    requires Published(s.metrics, t)
    ensures Published(Poll(s, now).0.metrics, Count(s, t, PollOp(now)))
  {
    hide PollPacer, IsStale, SatSub, Shows, SatAdd64;
    ShowsMore(s.metrics.ticks, t.ticks, 1);
    ShowsMore(s.metrics.presented, t.presented, 1);
    ShowsMore(s.metrics.stale, t.stale, 1);
    ShowsMore(s.metrics.idle, t.idle, 1);
    var decision := PollPacer(s.pacer, now).1;
    if decision.Due? {
      ShowsMore(s.metrics.skipped, t.skipped, decision.tick.skipped);
    }
  }

  lemma PollHolds(s: State, t: Tally, now: Duration)
    requires HoldsNewest(s, t.contenders)
    ensures HoldsNewest(Poll(s, now).0, Count(s, t, PollOp(now)).contenders)
  {
    hide PollPacer, IsStale, SatAdd64, SatSub;
  }

  lemma PollIsSound(s: State, t: Tally, now: Duration)
    requires Sound(s, t)
    ensures Sound(Act(s, PollOp(now)), Count(s, t, PollOp(now)))
  {
    hide Conserved, Published, Timed, HoldsNewest, Poll, Count;
    PollTimes(s, t, now);
    PollConserves(s, t, now);
    PollPublishes(s, t, now);
    PollHolds(s, t, now);
  }

  /** Over any run of submits, polls and metric resets, at any times:
      submitted (plus the frame carried into the window) is presented, stale,
      superseded, oversized or pending; slots are presented or idle; and the
      slot holds the greatest (presentation time, sequence) of the frames that
      contended for it since it was last empty. */
  lemma {:induction false} RunIsSound(s: State, t: Tally, ops: seq<Op>)
    requires Sound(s, t)
    ensures Sound(Run(s, t, ops).0, Run(s, t, ops).1)
    decreases |ops|
  {
    hide Sound, Act, Count;
    if ops != [] {
      match ops[0] {
        case SubmitOp(f, now) => SubmitIsSound(s, t, f, now);
        case PollOp(now) => PollIsSound(s, t, now);
        case TakeOp => TakeIsSound(s, t);
      }
      RunIsSound(Act(s, ops[0]), Count(s, t, ops[0]), ops[1..]);
    }
  }

  lemma TakeIsSound(s: State, t: Tally)
    requires Sound(s, t)
    ensures Sound(Act(s, TakeOp), Count(s, t, TakeOp))
  {
    hide Consumed;
  }

  const NO_TALLY := Tally(0, 0, 0, 0, 0, 0, 0, 0, 0, 0, [], [], [], [])

  /** In terms of the published counters alone: until the submit counter
      reaches its ceiling, they balance exactly. */
  lemma MetricsBalance(config: Configuration, origin: Duration, ops: seq<Op>)
    requires forall op :: op in ops ==> !op.TakeOp?
    ensures var m := Run(Start(config, origin), NO_TALLY, ops).0.metrics;
      var pending := Occupied(Run(Start(config, origin), NO_TALLY, ops).0);
      && (m.submitted < U64_MAX ==> m.submitted == m.presented + m.stale + m.superseded + m.oversized + pending)
      && (m.ticks < U64_MAX ==> m.ticks == m.presented + m.idle)
  {
    RunIsSound(Start(config, origin), NO_TALLY, ops);
    NothingCarried(Start(config, origin), NO_TALLY, ops);
  }

  lemma {:induction false} NothingCarried(s: State, t: Tally, ops: seq<Op>)
    requires forall op :: op in ops ==> !op.TakeOp?
    ensures Run(s, t, ops).1.carried == t.carried
    decreases |ops|
  {
    hide Submit, Poll;
    if ops != [] {
      assert ops[0] in ops;
      NothingCarried(Act(s, ops[0]), Count(s, t, ops[0]), ops[1..]);
    }
  }

  /** A dispatched frame is the held one, the greatest of its contenders; it is
      neither early, stale nor oversized, its slot's deadline has passed, and
      the reported delays are exact. */
  lemma DispatchedFrameIsRight(s: State, t: Tally, now: Duration)
    requires Sound(s, t) && Poll(s, now).1.Ready?
    ensures var r := Poll(s, now).1; var m := r.frame.metadata;
      && s.pending.Some? && r.frame == s.pending.value.frame && Poll(s, now).0.pending.None?
      && (forall c :: c in t.contenders ==> NotNewer(c.metadata, m))
      && |r.frame.payload| <= s.config.maxFrameBytes
      && AbsoluteTime(s, m.presentationTime) <= now <= StaleAfter(s, m)
      && r.tick.deadline + r.lateness == now
      && r.latency == SatSub(now, AbsoluteTime(s, m.captureTime))
      && (AbsoluteTime(s, m.captureTime) <= now ==> AbsoluteTime(s, m.captureTime) + r.latency == now)
      && (s.pending.value.enqueuedAt <= now ==> s.pending.value.enqueuedAt + r.queueTime == now)
  {
    hide PollPacer, Consumed;
    DueIsNewest(s.pacer, now);
  }

  /** The order is total, so the newest contender is unique up to time and
      sequence, whatever order the contenders arrive in. */
  lemma NewestIsUnique(a: FrameMetadata, b: FrameMetadata, c: FrameMetadata)
    ensures NotNewer(a, b) || NotNewer(b, a)
    ensures NotNewer(a, b) && NotNewer(b, c) ==> NotNewer(a, c)
    ensures NotNewer(a, b) && NotNewer(b, a) ==>
      a.presentationTime == b.presentationTime && a.sequence == b.sequence
  {
  }
}
