/** The session lifecycle: reconnects with a retry budget, and a receive cursor
    that survives resumes (crates/ladoflow-core/src/session.rs). */
module Sessions {
  import opened Wrappers
  import opened Words
  import opened Arithmetic
  import opened FrameRates
  import opened Negotiation

  datatype Phase = Idle | Negotiating | Active | WaitingToReconnect | ReconnectScheduled | Closed

  datatype Continuity = Restart | Resume

  datatype Disposition = Accepted(skipped: u64) | Duplicate | Stale(highestAccepted: u64)

  datatype SessionError =
    | InvalidTransition(phase: Phase)
    | CannotResumeInitialConnection
    | AgreementChangedDuringResume
    | ConnectionGenerationExhausted

  datatype Decision = RetryAfter(attempt: u32, delay: Duration, resumeAfter: Option<u64>) | GiveUp

  datatype RawPolicy = Policy(maxAttempts: u32, initialDelay: Duration, maxDelay: Duration)

  /** `ReconnectPolicy::new` refuses an initial delay above the maximum. */
  type ReconnectPolicy = p: RawPolicy | p.initialDelay <= p.maxDelay witness Policy(0, 0, 0)

  /** `1_u32.checked_shl(shift).unwrap_or(u32::MAX)`. */
  function Multiplier(shift: nat): nat { if shift < 32 then Pow2(shift) else U32_MAX }

  function DelayForAttempt(p: ReconnectPolicy, attempt: u32): Option<Duration> {
    if attempt == 0 || attempt > p.maxAttempts then None else
    NonNegative(p.initialDelay, Multiplier(attempt - 1));
    var scaled: Duration := Min(p.initialDelay * Multiplier(attempt - 1), DURATION_MAX);
    Some(Min(scaled, p.maxDelay))
  }

  datatype State = State(
    phase: Phase, agreement: Option<Agreement>, generation: u64, attempts: u32, highest: Option<u64>)

  const NEW_SESSION := State(Idle, None, 0, 0, None)

  type Outcome<T> = (State, Result<T, SessionError>)

  function Refuse<T>(s: State): Outcome<T> { (s, Err(InvalidTransition(s.phase))) }

  function StartSession(s: State): Outcome<()> {
    if s.phase != Idle then Refuse(s) else (s.(phase := Negotiating), Ok(()))
  }

  function Establish(s: State, a: Agreement, c: Continuity): Outcome<()> {
    if s.phase != Negotiating then Refuse(s)
    else if s.generation == U64_MAX then (s, Err(ConnectionGenerationExhausted))
    else if c.Resume? && s.generation == 0 then (s, Err(CannotResumeInitialConnection))
    else if c.Resume? && s.agreement != Some(a) then (s, Err(AgreementChangedDuringResume))
    else (State(Active, Some(a), s.generation + 1, 0, if c.Restart? then None else s.highest), Ok(()))
  }

  function Observe(s: State, sequence: u64): Outcome<Disposition> {
    if s.phase != Active then Refuse(s) else
    match s.highest
    case None => (s.(highest := Some(sequence)), Ok(Accepted(0)))
    case Some(highest) =>
      if sequence > highest then (s.(highest := Some(sequence)), Ok(Accepted(sequence - highest - 1)))
      else if sequence == highest then (s, Ok(Duplicate))
      else (s, Ok(Stale(highest)))
  }

  function TransportLost(s: State): Outcome<()> {
    if s.phase != Active && s.phase != Negotiating then Refuse(s)
    else (s.(phase := WaitingToReconnect), Ok(()))
  }

  function ScheduleReconnect(s: State, p: ReconnectPolicy): Outcome<Decision> {
    if s.phase != WaitingToReconnect then Refuse(s)
    else if s.attempts == U32_MAX then (s.(phase := Closed), Ok(GiveUp)) else
    var attempt := s.attempts + 1;
    match DelayForAttempt(p, attempt)
    case None => (s.(phase := Closed), Ok(GiveUp))
    case Some(delay) => (s.(attempts := attempt, phase := ReconnectScheduled), Ok(RetryAfter(attempt, delay, s.highest)))
  }

  function BeginReconnect(s: State): Outcome<()> {
    if s.phase != ReconnectScheduled then Refuse(s) else (s.(phase := Negotiating), Ok(()))
  }

  function Close(s: State): State { s.(phase := Closed) }

  // ---- The session as the source runs it -------------------------------------------------

  class Session {
    var phase: Phase
    var agreement: Option<Agreement>
    var connectionGeneration: u64
    var reconnectAttempts: u32
    var highestSequence: Option<u64>

    function Value(): State
      reads this
    {
      State(phase, agreement, connectionGeneration, reconnectAttempts, highestSequence)
    }

    constructor ()
      ensures Value() == NEW_SESSION
    {
      phase, agreement, connectionGeneration, reconnectAttempts, highestSequence := Idle, None, 0, 0, None;
    }

    function RequirePhase(expected: Phase): Result<(), SessionError>
      reads this
    {
      if phase == expected then Ok(()) else Err(InvalidTransition(phase))
    }

    method StartUp() returns (r: Result<(), SessionError>)
      modifies this
      ensures (Value(), r) == StartSession(old(Value()))
    {
      var _ :- RequirePhase(Idle);
      phase := Negotiating;
      return Ok(());
    }

    method EstablishWith(a: Agreement, continuity: Continuity) returns (r: Result<(), SessionError>)
      modifies this
      ensures (Value(), r) == Establish(old(Value()), a, continuity)
    {
      var _ :- RequirePhase(Negotiating);
      if connectionGeneration == U64_MAX {
        return Err(ConnectionGenerationExhausted);
      }
      var nextGeneration := connectionGeneration + 1;
      match continuity {
        case Restart => highestSequence := None;
        case Resume =>
          if connectionGeneration == 0 {
            return Err(CannotResumeInitialConnection);
          }
          if agreement != Some(a) {
            return Err(AgreementChangedDuringResume);
          }
      }
      connectionGeneration := nextGeneration;
      agreement := Some(a);
      reconnectAttempts := 0;
      phase := Active;
      return Ok(());
    }

    method ObserveSequence(sequence: u64) returns (r: Result<Disposition, SessionError>)
      modifies this
      ensures (Value(), r) == Observe(old(Value()), sequence)
    {
      var _ :- RequirePhase(Active);
      match highestSequence
      case None =>
        highestSequence := Some(sequence);
        return Ok(Accepted(0));
      case Some(highest) =>
        if sequence > highest {
          highestSequence := Some(sequence);
          return Ok(Accepted(sequence - highest - 1));
        }
        return Ok(if sequence == highest then Duplicate else Stale(highest));
    }

    method LoseTransport() returns (r: Result<(), SessionError>)
      modifies this
      ensures (Value(), r) == TransportLost(old(Value()))
    {
      if phase != Active && phase != Negotiating {
        return Err(InvalidTransition(phase));
      }
      phase := WaitingToReconnect;
      return Ok(());
    }

    method Schedule(policy: ReconnectPolicy) returns (r: Result<Decision, SessionError>)
      modifies this
      ensures (Value(), r) == ScheduleReconnect(old(Value()), policy)
    {
      hide DelayForAttempt;
      var _ :- RequirePhase(WaitingToReconnect);
      if reconnectAttempts == U32_MAX {
        phase := Closed;
        return Ok(GiveUp);
      }
      var attempt := reconnectAttempts + 1;
      var delay := DelayForAttempt(policy, attempt);
      if delay.None? {
        phase := Closed;
        return Ok(GiveUp);
      }
      reconnectAttempts := attempt;
      phase := ReconnectScheduled;
      return Ok(RetryAfter(attempt, delay.value, highestSequence));
    }

    method Reconnect() returns (r: Result<(), SessionError>)
      modifies this
      ensures (Value(), r) == BeginReconnect(old(Value()))
    {
      var _ :- RequirePhase(ReconnectScheduled);
      phase := Negotiating;
      return Ok(());
    }

    method Shut()
      modifies this
      ensures Value() == Close(old(Value()))
    {
      phase := Closed;
    }
  }

  // ---- Delays -----------------------------------------------------------------------------

  lemma MultiplierMonotone(a: nat, b: nat)
    requires a <= b
    ensures Multiplier(a) <= Multiplier(b) <= U32_MAX
  {
    Pow2Monotone(a, b);
    Pow2Top();
    if a < 32 { Pow2Monotone(a, 31); }
    if b < 32 { Pow2Monotone(b, 31); }
  }

  /** A delay is offered exactly for the attempts the policy allows. Delays
      never decrease and never exceed the cap; up to attempt 32 the delay is
      the initial one doubled per attempt, capped, and from there on it stays
      at the initial one times 2^32 - 1, capped. */
  lemma Backoff(p: ReconnectPolicy, k: u32, later: u32)
    ensures DelayForAttempt(p, k).Some? <==> 1 <= k <= p.maxAttempts
    ensures 1 <= k <= p.maxAttempts ==>
      && DelayForAttempt(p, k).value <= p.maxDelay
      && (k <= 32 ==> DelayForAttempt(p, k).value == Min(p.initialDelay * Pow2(k - 1), p.maxDelay))
      && (k > 32 ==> DelayForAttempt(p, k).value == Min(p.initialDelay * U32_MAX, p.maxDelay))
    ensures 1 <= k <= later <= p.maxAttempts ==>
      DelayForAttempt(p, k).value <= DelayForAttempt(p, later).value
  {
    hide DelayForAttempt, Multiplier;
    DelayOffered(p, k);
    if 1 <= k <= later <= p.maxAttempts {
      DelayOffered(p, later);
      MultiplierMonotone(k - 1, later - 1);
      Monotone(Multiplier(k - 1), Multiplier(later - 1), p.initialDelay);
      Commute(Multiplier(k - 1), p.initialDelay);
      Commute(Multiplier(later - 1), p.initialDelay);
    }
    if k > 0 {
      MultiplierIs(k - 1);
    }
  }

  lemma MultiplierIs(shift: nat)
    ensures Multiplier(shift) == if shift < 32 then Pow2(shift) else U32_MAX
  {
  }

  lemma DelayOffered(p: ReconnectPolicy, k: u32)
    ensures DelayForAttempt(p, k).Some? <==> 1 <= k <= p.maxAttempts
    ensures 1 <= k <= p.maxAttempts ==>
      DelayForAttempt(p, k) == Some(Min(p.initialDelay * Multiplier(k - 1), p.maxDelay))
  {
    hide Multiplier;
    if k > 0 {
      NonNegative(p.initialDelay, Multiplier(k - 1));
    }
  }

  // ---- Runs -------------------------------------------------------------------------------

  datatype Op =
    | StartOp | EstablishOp(agreement: Agreement, continuity: Continuity) | ObserveOp(sequence: u64)
    | LostOp | ScheduleOp | BeginOp | CloseOp

  /** What an operation returned: whether it succeeded, whether it granted a
      retry, and how it classified a sequence. */
  datatype Report = Done(ok: bool, retried: bool, disposition: Option<Disposition>)

  function Apply(s: State, p: ReconnectPolicy, op: Op): (State, Report) {
    match op
    case StartOp => var (t, r) := StartSession(s); (t, Done(r.Ok?, false, None))
    case EstablishOp(a, c) => var (t, r) := Establish(s, a, c); (t, Done(r.Ok?, false, None))
    case ObserveOp(n) =>
      var (t, r) := Observe(s, n);
      (t, Done(r.Ok?, false, if r.Ok? then Some(r.value) else None))
    case LostOp => var (t, r) := TransportLost(s); (t, Done(r.Ok?, false, None))
    case ScheduleOp => var (t, r) := ScheduleReconnect(s, p); (t, Done(r.Ok?, r.Ok? && r.value.RetryAfter?, None))
    case BeginOp => var (t, r) := BeginReconnect(s); (t, Done(r.Ok?, false, None))
    case CloseOp => (Close(s), Done(true, false, None))
  }

  /** Every failing operation leaves the session unchanged. */
  lemma FailureChangesNothing(s: State, p: ReconnectPolicy, op: Op)
    ensures !Apply(s, p, op).1.ok ==> Apply(s, p, op).0 == s
  {
    hide DelayForAttempt;
  }

  /** Which operations succeed in which phase, and the phase they lead to. */
  lemma Transitions(s: State, p: ReconnectPolicy, op: Op)
    ensures var (t, r) := Apply(s, p, op);
      && (op.StartOp? ==> (r.ok <==> s.phase == Idle) && (r.ok ==> t == s.(phase := Negotiating)))
      && (op.EstablishOp? ==> (r.ok ==> s.phase == Negotiating && t.phase == Active))
      && (op.ObserveOp? ==> (r.ok <==> s.phase == Active) && t.phase == s.phase)
      && (op.LostOp? ==> (r.ok <==> s.phase == Active || s.phase == Negotiating)
                         && (r.ok ==> t == s.(phase := WaitingToReconnect)))
      && (op.ScheduleOp? ==> (r.ok <==> s.phase == WaitingToReconnect)
                             && (r.ok ==> t.phase == if r.retried then ReconnectScheduled else Closed))
      && (op.BeginOp? ==> (r.ok <==> s.phase == ReconnectScheduled) && (r.ok ==> t == s.(phase := Negotiating)))
      && (op.CloseOp? ==> r.ok && t == s.(phase := Closed))
  {
    hide DelayForAttempt;
  }

  function Run(s: State, p: ReconnectPolicy, ops: seq<Op>): State
    decreases |ops|
  {
    if ops == [] then s else Run(Apply(s, p, ops[0]).0, p, ops[1..])
  }

  function Retries(s: State, p: ReconnectPolicy, ops: seq<Op>): nat
    decreases |ops|
  {
    if ops == [] then 0 else
    var (t, r) := Apply(s, p, ops[0]);
    (if r.retried then 1 else 0) + Retries(t, p, ops[1..])
  }

  /** How often the phase changed. */
  function Moves(s: State, p: ReconnectPolicy, ops: seq<Op>): nat
    decreases |ops|
  {
    if ops == [] then 0 else
    var (t, _) := Apply(s, p, ops[0]);
    (if t.phase != s.phase then 1 else 0) + Moves(t, p, ops[1..])
  }

  ghost predicate NoSuccess(s: State, p: ReconnectPolicy, ops: seq<Op>)
    decreases |ops|
  {
    ops == [] ||
    ((ops[0].EstablishOp? ==> !Apply(s, p, ops[0]).1.ok) && NoSuccess(Apply(s, p, ops[0]).0, p, ops[1..]))
  }

  // ---- Reconnecting terminates --------------------------------------------------------------

  /** Attempts left, then the phases still ahead before the next attempt. */
  function Fuel(s: State, p: ReconnectPolicy): nat
    requires s.attempts <= p.maxAttempts
  {
    match s.phase
    case Closed => 0
    case WaitingToReconnect => 4 * (p.maxAttempts - s.attempts) + 1
    case Negotiating | Active => 4 * (p.maxAttempts - s.attempts) + 2
    case Idle | ReconnectScheduled => 4 * (p.maxAttempts - s.attempts) + 3
  }

  lemma StepBurnsFuel(s: State, p: ReconnectPolicy, op: Op)
    requires s.attempts <= p.maxAttempts
    requires op.EstablishOp? ==> !Apply(s, p, op).1.ok
    ensures var (t, r) := Apply(s, p, op);
      && t.attempts <= p.maxAttempts
      && (if t.phase == s.phase then Fuel(t, p) == Fuel(s, p) else Fuel(t, p) < Fuel(s, p))
      && t.attempts == s.attempts + (if r.retried then 1 else 0)
      && (s.phase.Closed? ==> t.phase.Closed?)
  {
  }

  /** A run with no successful `establish` changes phase only finitely often
      and is granted at most the attempts left. */
  lemma {:induction false} ReconnectingIsBounded(s: State, p: ReconnectPolicy, ops: seq<Op>)
    requires s.attempts <= p.maxAttempts && NoSuccess(s, p, ops)
    ensures var t := Run(s, p, ops);
      && t.attempts <= p.maxAttempts
      && Moves(s, p, ops) + Fuel(t, p) <= Fuel(s, p)
      && Retries(s, p, ops) == t.attempts - s.attempts <= p.maxAttempts - s.attempts
    decreases |ops|
  {
    hide Apply;
    if ops != [] {
      StepBurnsFuel(s, p, ops[0]);
      ReconnectingIsBounded(Apply(s, p, ops[0]).0, p, ops[1..]);
    }
  }

  /** The step that a session takes when every connection keeps failing. */
  function FailingStep(s: State): Op {
    match s.phase
    case Idle => StartOp
    case Negotiating | Active => LostOp
    case WaitingToReconnect => ScheduleOp
    case ReconnectScheduled => BeginOp
    case Closed => CloseOp
  }

  /** While open, the session always has such a step, so a connection that keeps
      failing uses every attempt left and then closes. */
  function FailUntilClosed(s: State, p: ReconnectPolicy): (ops: seq<Op>)
    requires s.attempts <= p.maxAttempts
    decreases Fuel(s, p)
  {
    if s.phase.Closed? then [] else
    StepBurnsFuel(s, p, FailingStep(s));
    [FailingStep(s)] + FailUntilClosed(Apply(s, p, FailingStep(s)).0, p)
  }

  lemma {:induction false} FailingUsesEveryAttemptThenCloses(s: State, p: ReconnectPolicy)
    requires s.attempts <= p.maxAttempts && !s.phase.Closed?
    ensures var ops := FailUntilClosed(s, p);
      && NoSuccess(s, p, ops)
      && Run(s, p, ops).phase.Closed?
      && Retries(s, p, ops) == p.maxAttempts - s.attempts
    decreases Fuel(s, p)
  {
    var op := FailingStep(s);
    StepBurnsFuel(s, p, op);
    var t := Apply(s, p, op).0;
    var ops := FailUntilClosed(s, p);
    assert ops[1..] == FailUntilClosed(t, p);
    if t.phase.Closed? {
      assert ops[1..] == [];
    } else {
      FailingUsesEveryAttemptThenCloses(t, p);
    }
  }

  // ---- The budget is per connection --------------------------------------------------------

  /** Retries granted since the last successful establish, `n` before the run. */
  function SinceSuccess(s: State, p: ReconnectPolicy, n: nat, ops: seq<Op>): nat
    decreases |ops|
  {
    if ops == [] then n else
    var (t, r) := Apply(s, p, ops[0]);
    SinceSuccess(t, p, if ops[0].EstablishOp? && r.ok then 0 else if r.retried then n + 1 else n, ops[1..])
  }

  /** Successful establishes. */
  function Connections(s: State, p: ReconnectPolicy, ops: seq<Op>): nat
    decreases |ops|
  {
    if ops == [] then 0 else
    var (t, r) := Apply(s, p, ops[0]);
    (if ops[0].EstablishOp? && r.ok then 1 else 0) + Connections(t, p, ops[1..])
  }

  /** Over any run: the attempts of a state are the retries granted since its last
      successful establish, and its generation counts the establishes. */
  lemma {:induction false} AttemptsAreRetriesSinceSuccess(s: State, p: ReconnectPolicy, ops: seq<Op>)
    ensures Run(s, p, ops).attempts == SinceSuccess(s, p, s.attempts, ops)
    ensures Run(s, p, ops).generation == s.generation + Connections(s, p, ops)
    decreases |ops|
  {
    if ops != [] {
      StepCounts(s, p, ops[0]);
      hide Apply;
      AttemptsAreRetriesSinceSuccess(Apply(s, p, ops[0]).0, p, ops[1..]);
    }
  }

  lemma StepCounts(s: State, p: ReconnectPolicy, op: Op)
    ensures var (t, r) := Apply(s, p, op);
      && t.attempts == (if op.EstablishOp? && r.ok then 0 else if r.retried then s.attempts + 1 else s.attempts)
      && t.generation == s.generation + (if op.EstablishOp? && r.ok then 1 else 0)
      && (r.retried ==> op.ScheduleOp?)
  {
    hide DelayForAttempt;
  }

  /** Exactly when the policy closes an open session: a retry is asked for after
      its budget since the last success is spent. */
  lemma WhenPolicyCloses(s: State, p: ReconnectPolicy, op: Op)
    requires s.phase != Closed && op != CloseOp
    ensures Apply(s, p, op).0.phase == Closed <==>
      op == ScheduleOp && s.phase == WaitingToReconnect && s.attempts >= p.maxAttempts
  {
  }

  /** Every retry is asked for with some of the budget left. */
  ghost predicate WithinBudget(s: State, p: ReconnectPolicy, n: nat, ops: seq<Op>)
    decreases |ops|
  {
    ops == [] ||
    var (t, r) := Apply(s, p, ops[0]);
    && (ops[0] == ScheduleOp ==> n < p.maxAttempts)
    && WithinBudget(t, p, if ops[0].EstablishOp? && r.ok then 0 else if r.retried then n + 1 else n, ops[1..])
  }

  /** Such a session is never closed by the policy; with a budget of at least one
      that is every session whose reconnects succeed, however many they are. */
  lemma {:induction false} WithinBudgetStaysOpen(s: State, p: ReconnectPolicy, ops: seq<Op>)
    requires s.phase != Closed && CloseOp !in ops && WithinBudget(s, p, s.attempts, ops)
    ensures Run(s, p, ops).phase != Closed
    decreases |ops|
  {
    if ops != [] {
      assert ops[0] in ops;
      StepCounts(s, p, ops[0]);
      WhenPolicyCloses(s, p, ops[0]);
      hide Apply;
      WithinBudgetStaysOpen(Apply(s, p, ops[0]).0, p, ops[1..]);
    }
  }

  /** After any successful establish a connection that keeps failing is granted
      exactly the policy's attempts, and then the session closes. */
  lemma SuccessRestoresTheBudget(s: State, p: ReconnectPolicy, a: Agreement, c: Continuity)
    requires Apply(s, p, EstablishOp(a, c)).1.ok
    ensures var t := Apply(s, p, EstablishOp(a, c)).0;
      && t.attempts == 0
      && Run(t, p, FailUntilClosed(t, p)).phase.Closed?
      && Retries(t, p, FailUntilClosed(t, p)) == p.maxAttempts
  {
    var t := Apply(s, p, EstablishOp(a, c)).0;
    FailingUsesEveryAttemptThenCloses(t, p);
  }

  /** A loss, a retry, and a resume under the same agreement. */
  function Reconnection(a: Agreement): seq<Op> { [LostOp, ScheduleOp, BeginOp, EstablishOp(a, Resume)] }

  function Reconnections(a: Agreement, n: nat): seq<Op>
    decreases n
  {
    if n == 0 then [] else Reconnection(a) + Reconnections(a, n - 1)
  }

  lemma RunCons(s: State, p: ReconnectPolicy, op: Op, rest: seq<Op>)
    ensures var (t, r) := Apply(s, p, op); var ops := [op] + rest;
      Run(s, p, ops) == Run(t, p, rest) && Retries(s, p, ops) == (if r.retried then 1 else 0) + Retries(t, p, rest)
  {
    hide Apply;
    assert ([op] + rest)[1..] == rest;
  }

  lemma OneReconnection(s: State, p: ReconnectPolicy, rest: seq<Op>)
    requires s.phase == Active && s.agreement.Some? && s.attempts == 0 && p.maxAttempts > 0
    requires 0 < s.generation < U64_MAX
    ensures var ops := Reconnection(s.agreement.value) + rest; var t := s.(generation := s.generation + 1);
      && Run(s, p, ops) == Run(t, p, rest) && Retries(s, p, ops) == 1 + Retries(t, p, rest)
  {
    var a := s.agreement.value;
    var ops := Reconnection(a) + rest;
    var s1 := s.(phase := WaitingToReconnect);
    var s2 := s1.(phase := ReconnectScheduled, attempts := 1);
    var s3 := s2.(phase := Negotiating);
    DelayOffered(p, 1);
    hide DelayForAttempt;
    var third := [EstablishOp(a, Resume)] + rest;
    var second := [BeginOp] + third;
    assert ops == [LostOp] + ([ScheduleOp] + second);
    RunCons(s, p, LostOp, [ScheduleOp] + second);
    RunCons(s1, p, ScheduleOp, second);
    RunCons(s2, p, BeginOp, third);
    RunCons(s3, p, EstablishOp(a, Resume), rest);
    assert Apply(s, p, LostOp).0 == s1 && Apply(s1, p, ScheduleOp).0 == s2 && Apply(s2, p, BeginOp).0 == s3;
    assert Apply(s3, p, EstablishOp(a, Resume)).0 == s.(generation := s.generation + 1);
  }

  /** A session loses its transport and resumes any number of times under a policy
      of at least one attempt: it is active after each, with its cursor, its
      agreement and its whole budget. */
  lemma {:induction false} AnyNumberOfReconnections(s: State, p: ReconnectPolicy, n: nat)
    requires s.phase == Active && s.agreement.Some? && s.attempts == 0 && p.maxAttempts > 0
    requires 0 < s.generation && s.generation + n <= U64_MAX
    ensures var ops := Reconnections(s.agreement.value, n);
      Run(s, p, ops) == s.(generation := s.generation + n) && Retries(s, p, ops) == n
    decreases n
  {
    hide Apply;
    if n > 0 {
      OneReconnection(s, p, Reconnections(s.agreement.value, n - 1));
      AnyNumberOfReconnections(s.(generation := s.generation + 1), p, n - 1);
    }
  }

  /** A granted retry is the next attempt, after the policy's delay for it, and
      resumes after the cursor. */
  lemma RetryIsRight(s: State, p: ReconnectPolicy)
    requires s.phase == WaitingToReconnect && s.attempts < p.maxAttempts
    ensures var (t, r) := ScheduleReconnect(s, p); var k := s.attempts + 1;
      && t == s.(phase := ReconnectScheduled, attempts := k)
      && r == Ok(RetryAfter(k, if k <= 32 then Min(p.initialDelay * Pow2(k - 1), p.maxDelay)
                               else Min(p.initialDelay * U32_MAX, p.maxDelay), s.highest))
  {
    var k := s.attempts + 1;
    Backoff(p, k, k);
    hide DelayForAttempt;
    NonNegative(p.initialDelay, Pow2(k - 1));
    NonNegative(p.initialDelay, U32_MAX);
  }

  /** An establish succeeds exactly while negotiating, with a generation left, and
      to resume only under the agreement of an earlier connection; each refusal
      says which of these failed first. */
  lemma WhenEstablished(s: State, a: Agreement, c: Continuity)
    ensures var (t, r) := Establish(s, a, c);
      var resumable := s.generation > 0 && s.agreement == Some(a);
      && (r.Ok? <==> s.phase == Negotiating && s.generation < U64_MAX && (c == Restart || resumable))
      && (r == Err(InvalidTransition(s.phase)) <==> s.phase != Negotiating)
      && (r == Err(ConnectionGenerationExhausted) <==> s.phase == Negotiating && s.generation == U64_MAX)
      && (r == Err(CannotResumeInitialConnection) <==> s.phase == Negotiating && s.generation == 0 && c == Resume)
      && (r == Err(AgreementChangedDuringResume) <==>
            s.phase == Negotiating && 0 < s.generation < U64_MAX && c == Resume && s.agreement != Some(a))
      && (r.Ok? ==> t.phase == Active && t.agreement == Some(a) && t.highest == (if c == Restart then None else s.highest))
  {
  }

  // ---- The receive cursor ---------------------------------------------------------------------

  /** The current logical stream: the sequences observed and accepted since the
      last restart, the skipped counts reported, and its agreement. */
  datatype Stream = Stream(observed: seq<u64>, accepted: seq<u64>, skipped: nat, agreement: Option<Agreement>)

  const NO_STREAM := Stream([], [], 0, None)

  function Track(st: Stream, op: Op, r: Report): Stream {
    match op
    case EstablishOp(a, Restart) => if r.ok then NO_STREAM.(agreement := Some(a)) else st
    case ObserveOp(n) =>
      if !r.ok then st else
      var seen := st.(observed := st.observed + [n]);
      (match r.disposition
       case Some(Accepted(k)) => seen.(accepted := st.accepted + [n], skipped := st.skipped + k)
       case _ => seen)
    case _ => st
  }

  function RunStream(s: State, p: ReconnectPolicy, st: Stream, ops: seq<Op>): (State, Stream)
    decreases |ops|
  {
    if ops == [] then (s, st) else
    var (t, r) := Apply(s, p, ops[0]);
    RunStream(t, p, Track(st, ops[0], r), ops[1..])
  }

  ghost predicate Increasing(s: seq<u64>) {
    forall i, j :: 0 <= i < j < |s| ==> s[i] < s[j]
  }

  /** The cursor is the last accepted sequence and the maximum of all observed;
      accepted sequences strictly increase and with the gaps reported cover
      everything from the first to the last; the agreement is the stream's. */
  ghost predicate CursorInv(s: State, st: Stream) {
    && (s.generation == 0 ==> st == NO_STREAM && s.highest.None? && s.phase != Active)
    && (s.generation > 0 ==> s.agreement == st.agreement && st.agreement.Some?)
    && s.highest == (if st.accepted == [] then None else Some(st.accepted[|st.accepted| - 1]))
    && Increasing(st.accepted)
    && (st.accepted == [] ==> st.skipped == 0)
    && (st.accepted != [] ==>
          st.skipped + |st.accepted| - 1 == st.accepted[|st.accepted| - 1] - st.accepted[0])
    && (forall n :: n in st.observed ==> s.highest.Some? && n <= s.highest.value)
    && (s.highest.Some? ==> s.highest.value in st.observed)
  }

  lemma StepKeepsCursor(s: State, p: ReconnectPolicy, st: Stream, op: Op)
    requires CursorInv(s, st)
    ensures CursorInv(Apply(s, p, op).0, Track(st, op, Apply(s, p, op).1))
  {
    hide DelayForAttempt;
    if op.ObserveOp? && s.phase == Active {
      ObserveKeepsCursor(s, p, st, op.sequence);
    }
  }

  lemma ObserveKeepsCursor(s: State, p: ReconnectPolicy, st: Stream, n: u64)
    requires CursorInv(s, st) && s.phase == Active
    ensures CursorInv(Apply(s, p, ObserveOp(n)).0, Track(st, ObserveOp(n), Apply(s, p, ObserveOp(n)).1))
  {
    hide DelayForAttempt;
    var accepted := st.accepted + [n];
    assert n in st.observed + [n];
    if st.accepted != [] {
      assert accepted[0] == st.accepted[0];
      if n > s.highest.value {
        assert Increasing(accepted) by {
          assert forall i :: 0 <= i < |st.accepted| ==> st.accepted[i] <= st.accepted[|st.accepted| - 1];
        }
      }
    }
  }

  /** Between two restarts, across any number of losses, reconnects and resumes,
      the cursor never moves backwards or forgets; see `CursorInv`. */
  lemma {:induction false} CursorOverRuns(s: State, p: ReconnectPolicy, st: Stream, ops: seq<Op>)
    requires CursorInv(s, st)
    ensures CursorInv(RunStream(s, p, st, ops).0, RunStream(s, p, st, ops).1)
    decreases |ops|
  {
    hide CursorInv, Apply, Track;
    if ops != [] {
      var (t, r) := Apply(s, p, ops[0]);
      StepKeepsCursor(s, p, st, ops[0]);
      CursorOverRuns(t, p, Track(st, ops[0], r), ops[1..]);
    }
  }

  /** A sequence at or below the cursor is reported as such and accepted never. */
  lemma ReplayIsRefused(s: State, sequence: u64)
    requires s.phase == Active && s.highest.Some? && sequence <= s.highest.value
    ensures var (t, r) := Observe(s, sequence);
      t == s && r == Ok(if sequence == s.highest.value then Duplicate else Stale(s.highest.value))
  {
  }
}
