/** What the receiving session makes of the numbers that leave the host: the
    cursor of crates/ladoflow-core/src/session.rs:306-327 over the stream of
    module HostSequences. */
module PeerVerdicts {
  import opened Wrappers
  import opened Words
  import opened Packets
  import opened LdflStream
  import opened MuxOrder
  import opened MuxRuns
  import opened HostSequences
  import S = Sessions

  /** The session after observing these numbers. */
  function Observed(s: S.State, numbers: seq<u64>): S.State
    decreases |numbers|
  {
    if numbers == [] then s
    else S.Observe(Observed(s, numbers[..|numbers| - 1]), numbers[|numbers| - 1]).0
  }

  /** How the session classifies the number at `i`. */
  function VerdictOn(s: S.State, numbers: seq<u64>, i: nat): Option<S.Disposition>
    requires i < |numbers|
  {
    var r := S.Observe(Observed(s, numbers[..i]), numbers[i]).1;
    if r.Ok? then Some(r.value) else None
  }

  /** The cursor is the maximum of all it has seen. */
  lemma {:induction false} CursorIsMaximum(s: S.State, numbers: seq<u64>)
    requires s.phase == S.Active && s.highest.Some?
    ensures var t := Observed(s, numbers);
      && t.phase == S.Active && t.highest.Some? && s.highest.value <= t.highest.value
      && (forall n :: n in numbers ==> n <= t.highest.value)
      && (t.highest == s.highest || t.highest.value in numbers)
    decreases |numbers|
  {
    if numbers != [] {
      var front, last := numbers[..|numbers| - 1], numbers[|numbers| - 1];
      CursorIsMaximum(s, front);
      assert numbers == front + [last];
    }
  }

  lemma {:induction false} ConsecutiveMovesCursor(s: S.State, numbers: seq<u64>)
    requires s.phase == S.Active && s.highest.Some?
    requires Consecutive(s.highest.value + 1, numbers)
    ensures Observed(s, numbers).phase == S.Active
    ensures Observed(s, numbers).highest == Some(s.highest.value + |numbers|)
    decreases |numbers|
  {
    if numbers != [] {
      ConsecutiveMovesCursor(s, numbers[..|numbers| - 1]);
    }
  }

  ghost predicate AllAccepted(s: S.State, numbers: seq<u64>) {
    forall i :: 0 <= i < |numbers| ==> VerdictOn(s, numbers, i) == Some(S.Accepted(0))
  }

  ghost predicate Consecutive(from: nat, numbers: seq<u64>) {
    forall i :: 0 <= i < |numbers| ==> numbers[i] == from + i
  }

  lemma OneMore(s: S.State, from: nat, front: seq<u64>, n: u64)
    ensures AllAccepted(s, front + [n]) <==>
      AllAccepted(s, front) && VerdictOn(s, front + [n], |front|) == Some(S.Accepted(0))
    ensures Consecutive(from, front + [n]) <==> Consecutive(from, front) && n == from + |front|
  {
    hide Observed;
    var numbers := front + [n];
    assert forall i :: 0 <= i < |front| ==> front[i] == numbers[i];
    assert numbers[|front|] == n;
    forall i | 0 <= i < |front|
      ensures VerdictOn(s, numbers, i) == VerdictOn(s, front, i)
    {
      assert numbers[..i] == front[..i];
    }
  }

  lemma NextVerdict(s: S.State, front: seq<u64>, n: u64)
    requires s.phase == S.Active && s.highest.Some? && Consecutive(s.highest.value + 1, front)
    ensures VerdictOn(s, front + [n], |front|) == Some(S.Accepted(0)) <==> n == s.highest.value + 1 + |front|
  {
    ConsecutiveMovesCursor(s, front);
    hide Observed;
    assert (front + [n])[..|front|] == front;
  }

  /** Every number is accepted with nothing skipped exactly when they follow the
      cursor one by one. */
  lemma {:induction false} AcceptedWithoutSkips(s: S.State, numbers: seq<u64>)
    requires s.phase == S.Active && s.highest.Some?
    ensures AllAccepted(s, numbers) <==> Consecutive(s.highest.value + 1, numbers)
    decreases |numbers|
  {
    if numbers != [] {
      var front, n := numbers[..|numbers| - 1], numbers[|numbers| - 1];
      hide Observed, AllAccepted, Consecutive, VerdictOn;
      assert numbers == front + [n];
      AcceptedWithoutSkips(s, front);
      OneMore(s, s.highest.value + 1, front, n);
      if Consecutive(s.highest.value + 1, front) {
        NextVerdict(s, front, n);
      }
    }
  }

  /** A number above the starting cursor and seen once is stale exactly when a
      higher one came before it, and otherwise accepted. */
  lemma StaleWhenOvertaken(s: S.State, numbers: seq<u64>, k: nat)
    requires s.phase == S.Active && s.highest.Some?
    requires k < |numbers| && s.highest.value < numbers[k] && numbers[k] !in numbers[..k]
    ensures var v := VerdictOn(s, numbers, k);
      && v.Some? && !v.value.Duplicate?
      && (v.value.Stale? <==> exists j :: 0 <= j < k && numbers[j] > numbers[k])
  {
    var seen := numbers[..k];
    CursorIsMaximum(s, seen);
    hide Observed;
    var cursor := Observed(s, seen).highest.value;
    if cursor > numbers[k] {
      var j :| 0 <= j < |seen| && seen[j] == cursor;
      assert numbers[j] > numbers[k];
    }
    forall j | 0 <= j < k
      ensures numbers[j] <= cursor
    {
      assert numbers[j] == seen[j] && seen[j] in seen;
    }
  }

  function NumberOf(p: Packet): u64 {
    var n := PacketSequence(p);
    if n.Ok? then n.value else 0
  }

  function NumbersOf(packets: seq<Packet>): (numbers: seq<u64>)
    ensures |numbers| == |packets|
    ensures forall i :: 0 <= i < |packets| ==> numbers[i] == NumberOf(packets[i])
  {
    seq(|packets|, i requires 0 <= i < |packets| => NumberOf(packets[i]))
  }

  /** The numbers of a consistent stream are the host's own, and all different. */
  lemma NumbersAreTheHosts(o: Outbound, first: u64)
    requires Consistent(o)
    requires forall i :: 0 <= i < |o.accepted| ==> Seq(o.accepted[i]) == first + i
    ensures var numbers := NumbersOf(o.emitted);
      && (forall k :: 0 <= k < |numbers| ==> numbers[k] >= first && numbers[k] !in numbers[..k])
      && (forall k :: 0 <= k < |numbers| ==> PacketSequence(o.emitted[k]) == Ok(numbers[k]))
  {
    hide LaneHolds, PacketSequence, Increasing;
    EverythingAccepted(o);
    var numbers := NumbersOf(o.emitted);
    forall k | 0 <= k < |numbers|
      ensures numbers[k] >= first && numbers[k] !in numbers[..k]
      ensures PacketSequence(o.emitted[k]) == Ok(numbers[k])
    {
      var p := o.emitted[k];
      assert p in o.accepted;
      if numbers[k] in numbers[..k] {
        var j :| 0 <= j < k && numbers[j] == numbers[k];
        assert o.emitted[j] in o.accepted;
        SameNumberSamePacket(o.accepted, o.emitted[j], p);
      }
    }
  }

  /** A peer whose cursor stands just before the host's first number: it accepts
      every number with nothing skipped exactly when no call of the multiplexer
      overtook; it calls a number stale exactly when that packet was overtaken,
      a higher number having left before it; and it never meets a duplicate. */
  lemma PeerFollowsHost(controlLimits: QueueLimits, mediaLimits: QueueLimits, first: u64, ops: seq<HostOp>, s: S.State)
    requires controlLimits.Valid() && mediaLimits.Valid()
    requires first > 0 && s.phase == S.Active && s.highest == Some(first - 1)
    ensures var h := NewHost(controlLimits, mediaLimits, first);
      var numbers := NumbersOf(HostRun(h, ops).out.emitted);
      && (AllAccepted(s, numbers) <==> NoOvertaking(h.out, MuxOps(h, ops)))
      && (forall k :: 0 <= k < |numbers| ==>
            && VerdictOn(s, numbers, k).Some? && !VerdictOn(s, numbers, k).value.Duplicate?
            && (VerdictOn(s, numbers, k).value.Stale? <==> exists j :: 0 <= j < k && numbers[j] > numbers[k]))
  {
    hide HostRun, MuxOps, Consistent, NoOvertaking, Run, AllocatedRun, PacketSequence, VerdictOn, Gapless, AllAccepted,
         Consecutive;
    var h := NewHost(controlLimits, mediaLimits, first);
    var o := HostRun(h, ops).out;
    EmptyIsOrdered(controlLimits, mediaLimits);
    HostStreamIsGapless(controlLimits, mediaLimits, first, ops);
    HostRunIsMuxRun(h, first, ops);
    NumbersAreTheHosts(o, first);
    var numbers := NumbersOf(o.emitted);
    AcceptedWithoutSkips(s, numbers);
    GaplessIsConsecutive(o.emitted, first);
    forall k | 0 <= k < |numbers|
      ensures VerdictOn(s, numbers, k).Some? && !VerdictOn(s, numbers, k).value.Duplicate?
      ensures VerdictOn(s, numbers, k).value.Stale? <==> exists j :: 0 <= j < k && numbers[j] > numbers[k]
    {
      StaleWhenOvertaken(s, numbers, k);
    }
  }

  lemma GaplessIsConsecutive(emitted: seq<Packet>, first: u64)
    requires forall k :: 0 <= k < |emitted| ==> PacketSequence(emitted[k]) == Ok(NumbersOf(emitted)[k])
    ensures Gapless(emitted, first) <==> Consecutive(first, NumbersOf(emitted))
  {
    hide PacketSequence, NumberOf;
  }
}
