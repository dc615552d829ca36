/** Sequence order at the multiplexer, step by step
    (crates/ladoflow-transport/src/ldfl_stream.rs:100-152). */
module MuxOrder {
  import opened Wrappers
  import opened Words
  import opened Frames
  import opened Packets
  import opened Loopback
  import opened LdflStream

  /** The outgoing lanes and the multiplexer, with what happened so far:
      `waiting` holds what was accepted and neither emitted nor superseded. */
  datatype Outbound = Outbound(
    lanes: Lanes, slots: Slots,
    accepted: seq<Packet>, superseded: seq<Packet>, waiting: seq<Packet>, emitted: seq<Packet>)

  /** The sequence number of a sound packet. */
  function Seq(p: Packet): int {
    var s := PacketSequence(p);
    if s.Ok? then s.value else -1
  }

  function Last(o: Outbound): int {
    if o.accepted == [] then -1 else Seq(o.accepted[|o.accepted| - 1])
  }

  ghost predicate Increasing(s: seq<Packet>) {
    forall i, j :: 0 <= i < j < |s| ==> Seq(s[i]) < Seq(s[j])
  }

  function OnLane(s: seq<Packet>, ch: Channel): seq<Packet>
    decreases |s|
  {
    if s == [] then []
    else (if s[0].Channel() == ch then [s[0]] else []) + OnLane(s[1..], ch)
  }

  function Without(s: seq<Packet>, gone: seq<Packet>): seq<Packet>
    decreases |s|
  {
    if s == [] then []
    else (if s[0] in gone then [] else [s[0]]) + Without(s[1..], gone)
  }

  function Slot(p: Option<Packet>): seq<Packet> {
    if p.Some? then [p.value] else []
  }

  // ---- Steps ----------------------------------------------------------------

  /** `try_send` by the application. */
  function Enqueue(o: Outbound, p: Packet): Outbound {
    var (lanes, r) := Send(o.lanes, p);
    if r.Err? then o else
    var gone := Dropped(o.lanes.At(p.Channel()).packets, p.SupersessionKey());
    o.(lanes := lanes, accepted := o.accepted + [p], superseded := o.superseded + gone,
       waiting := Without(o.waiting, gone) + [p])
  }

  function PollLane(o: Outbound, ch: Channel): Outbound {
    var (slots, lanes) := Poll(o.slots, o.lanes, ch);
    o.(slots := slots, lanes := lanes)
  }

  /** What `next` returns once both slots have been polled. */
  function Emit(o: Outbound): (Outbound, Result<Option<Packet>, StreamError>) {
    var (slots, r) := Choose(o.slots);
    if r.Ok? && r.value.Some? then
      (o.(slots := slots, emitted := o.emitted + [r.value.value], waiting := Without(o.waiting, [r.value.value])), r)
    else (o.(slots := slots), r)
  }

  // ---- The order invariant ----------------------------------------------------

  /** What a lane still owes is exactly what waits for it, in order. */
  ghost predicate LaneHolds(o: Outbound, ch: Channel) {
    OnLane(o.waiting, ch) == Slot(o.slots.At(ch)) + o.lanes.At(ch).packets
  }

  /** Nothing but replaced media is lost, and nothing is invented. */
  ghost predicate Accounted(o: Outbound) {
    && (forall p :: p in o.emitted + o.waiting ==> p in o.accepted)
    && (forall p :: p in o.accepted ==> p in o.emitted + o.waiting || p in o.superseded)
    && (forall p :: p in o.superseded ==> p.SupersessionKey().Some?)
  }

  ghost predicate Irreplaceable(s: seq<Packet>) {
    forall p :: p in s ==> p.SupersessionKey().None?
  }

  ghost predicate Disjoint(a: seq<Packet>, b: seq<Packet>) {
    forall p :: p in a ==> p !in b
  }

  ghost predicate Distinct(s: seq<Packet>) {
    forall i, j :: 0 <= i < j < |s| ==> s[i] != s[j]
  }

  /** What holds whatever the order of the calls: every packet is sound and in
      one place, and what waits is in the order of its numbers. */
  ghost predicate Consistent(o: Outbound) {
    && o.lanes.Inv()
    && AllSound(o.accepted) && Increasing(o.accepted)
    && Increasing(o.waiting) && Disjoint(o.emitted, o.waiting) && Distinct(o.emitted)
    && Accounted(o)
    && LaneHolds(o, Control) && LaneHolds(o, Media)
  }

  /** Nothing has overtaken: all that left comes before all that waits, in the
      order of the numbers, and without replaceable media in that of enqueuing. */
  ghost predicate InOrder(o: Outbound) {
    && Increasing(o.emitted + o.waiting)
    && (Irreplaceable(o.accepted) ==> o.emitted + o.waiting == o.accepted)
  }

  ghost predicate Ordered(o: Outbound) {
    Consistent(o) && InOrder(o)
  }

  /** The host allocates strictly increasing numbers across both lanes. */
  ghost predicate Allocated(o: Outbound, p: Packet) {
    PacketSequence(p).Ok? && Seq(p) > Last(o)
  }

  lemma OnLaneCons(p: Packet, rest: seq<Packet>, ch: Channel)
    ensures OnLane([p] + rest, ch) == (if p.Channel() == ch then [p] else []) + OnLane(rest, ch)
  {
    assert ([p] + rest)[1..] == rest;
  }

  lemma {:induction false} OnLaneAppend(a: seq<Packet>, b: seq<Packet>, ch: Channel)
    ensures OnLane(a + b, ch) == OnLane(a, ch) + OnLane(b, ch)
    decreases |a|
  {
    if a == [] {
      assert a + b == b;
    } else {
      var head, tail := a[0], a[1..];
      OnLaneAppend(tail, b, ch);
      OnLaneCons(head, tail, ch);
      OnLaneCons(head, tail + b, ch);
      hide OnLane;
      assert a == [head] + tail;
      Associate([head], tail, b);
      Associate(if head.Channel() == ch then [head] else [], OnLane(tail, ch), OnLane(b, ch));
    }
  }

  lemma {:induction false} OnLaneMembers(s: seq<Packet>, ch: Channel)
    ensures forall p :: p in OnLane(s, ch) <==> p in s && p.Channel() == ch
    decreases |s|
  {
    if s != [] {
      OnLaneMembers(s[1..], ch);
      assert s == [s[0]] + s[1..];
    }
  }

  lemma {:induction false} WithoutMembers(s: seq<Packet>, gone: seq<Packet>)
    ensures forall p :: p in Without(s, gone) <==> p in s && p !in gone
    decreases |s|
  {
    if s != [] {
      WithoutMembers(s[1..], gone);
      assert s == [s[0]] + s[1..];
    }
  }

  lemma {:induction false} WithoutNothing(s: seq<Packet>, gone: seq<Packet>)
    requires forall p :: p in s ==> p !in gone
    ensures Without(s, gone) == s
    decreases |s|
  {
    if s != [] {
      WithoutNothing(s[1..], gone);
    }
  }

  lemma WithoutCons(p: Packet, rest: seq<Packet>, gone: seq<Packet>)
    ensures Without([p] + rest, gone) == (if p in gone then [] else [p]) + Without(rest, gone)
  {
    assert ([p] + rest)[1..] == rest;
  }

  lemma {:induction false} WithoutAppend(a: seq<Packet>, b: seq<Packet>, gone: seq<Packet>)
    ensures Without(a + b, gone) == Without(a, gone) + Without(b, gone)
    decreases |a|
  {
    if a == [] {
      assert a + b == b;
    } else {
      var head, tail := a[0], a[1..];
      WithoutAppend(tail, b, gone);
      WithoutCons(head, tail, gone);
      WithoutCons(head, tail + b, gone);
      hide Without;
      assert a == [head] + tail;
      Associate([head], tail, b);
      Associate(if head in gone then [] else [head], Without(tail, gone), Without(b, gone));
    }
  }

  lemma {:induction false} WithoutOnLane(s: seq<Packet>, gone: seq<Packet>, ch: Channel)
    ensures OnLane(Without(s, gone), ch) == Without(OnLane(s, ch), gone)
    decreases |s|
  {
    if s != [] {
      WithoutOnLane(s[1..], gone, ch);
      var head := if s[0] in gone then [] else [s[0]];
      OnLaneAppend(head, Without(s[1..], gone), ch);
      var lane := if s[0].Channel() == ch then [s[0]] else [];
      WithoutAppend(lane, OnLane(s[1..], ch), gone);
    }
  }

  lemma {:induction false} WithoutDropped(queue: seq<Packet>, key: Option<u64>, all: seq<Packet>)
    requires forall p :: p in queue ==> (p in all <==> Obsolete(p, key))
    ensures Without(queue, all) == Kept(queue, key)
    decreases |queue|
  {
    if queue != [] {
      WithoutDropped(queue[1..], key, all);
    }
  }

  lemma {:induction false} WithoutIncreasing(s: seq<Packet>, gone: seq<Packet>)
    requires Increasing(s)
    ensures Increasing(Without(s, gone))
    decreases |s|
  {
    if s != [] {
      hide Seq;
      assert s == [s[0]] + s[1..];
      IncreasingConcat([s[0]], s[1..]);
      WithoutIncreasing(s[1..], gone);
      WithoutMembers(s[1..], gone);
      IncreasingConcat([s[0]], Without(s[1..], gone));
      assert [] + Without(s[1..], gone) == Without(s[1..], gone);
    }
  }

  lemma IncreasingConcat(a: seq<Packet>, b: seq<Packet>)
    ensures Increasing(a + b) <==>
      Increasing(a) && Increasing(b) && (forall x, y :: x in a && y in b ==> Seq(x) < Seq(y))
  {
    hide Seq;
    var c := a + b;
    if Increasing(c) {
      assert forall i :: 0 <= i < |a| ==> a[i] == c[i];
      assert forall i :: 0 <= i < |b| ==> b[i] == c[|a| + i];
      forall x, y | x in a && y in b
        ensures Seq(x) < Seq(y)
      {
        var i :| 0 <= i < |a| && a[i] == x;
        var j :| 0 <= j < |b| && b[j] == y;
        assert c[i] == x && c[|a| + j] == y;
      }
    }
    if Increasing(a) && Increasing(b) && forall x, y :: x in a && y in b ==> Seq(x) < Seq(y) {
      forall i, j | 0 <= i < j < |c|
        ensures Seq(c[i]) < Seq(c[j])
      {
        if j >= |a| {
          assert c[j] in b;
          if i < |a| { assert c[i] in a; } else { assert c[i] == b[i - |a|] && c[j] == b[j - |a|]; }
        }
      }
    }
  }

  lemma {:induction false} OnLaneIncreasing(s: seq<Packet>, ch: Channel)
    requires Increasing(s)
    ensures Increasing(OnLane(s, ch))
    decreases |s|
  {
    hide Seq;
    if s != [] {
      var head, tail := s[0], s[1..];
      assert s == [head] + tail;
      assert OnLane(s, ch) == (if head.Channel() == ch then [head] else []) + OnLane(tail, ch);
      IncreasingConcat([head], tail);
      OnLaneIncreasing(tail, ch);
      OnLaneMembers(tail, ch);
      hide OnLane, Increasing;
      IncreasingConcat([head], OnLane(tail, ch));
      assert [] + OnLane(tail, ch) == OnLane(tail, ch);
    }
  }

  // ---- Every step keeps the order ---------------------------------------------

  lemma NotAfterLast(o: Outbound, p: Packet)
    requires Increasing(o.accepted) && p in o.accepted
    ensures Seq(p) <= Last(o)
  {
    hide PacketSequence;
    var i :| 0 <= i < |o.accepted| && o.accepted[i] == p;
  }

  lemma HalvesAreDisjoint(a: seq<Packet>, b: seq<Packet>)
    requires Increasing(a + b)
    ensures forall p :: p in a ==> p !in b
  {
    hide Seq;
    IncreasingConcat(a, b);
    hide Increasing;
    assert forall p :: p in a && p in b ==> Seq(p) < Seq(p);
  }

  lemma LaneInOrder(o: Outbound, ch: Channel)
    requires Consistent(o)
    ensures OnLane(o.waiting, ch) == Slot(o.slots.At(ch)) + o.lanes.At(ch).packets
    ensures Increasing(OnLane(o.waiting, ch))
  {
    hide Seq, OnLane, Increasing, AllSound, Accounted;
    OnLaneIncreasing(o.waiting, ch);
  }

  lemma HeldIsNotQueued(o: Outbound, ch: Channel)
    requires Consistent(o)
    ensures forall p :: p in Slot(o.slots.At(ch)) ==> p !in o.lanes.At(ch).packets && p.Channel() == ch
  {
    var held, queue := Slot(o.slots.At(ch)), o.lanes.At(ch).packets;
    LaneInOrder(o, ch);
    OnLaneMembers(o.waiting, ch);
    hide Seq, OnLane, Increasing, Consistent, Slot;
    HalvesAreDisjoint(held, queue);
    forall p | p in held
      ensures p.Channel() == ch
    {
      assert p in held + queue;
    }
  }

  lemma LaneAfterSend(o: Outbound, p: Packet, ch: Channel)
    requires Consistent(o) && Send(o.lanes, p).1.Ok?
    ensures LaneHolds(Enqueue(o, p), ch)
  {
    hide OnLane, Without, Seq, Increasing, Kept, Dropped, TotalLen;
    var key, queue := p.SupersessionKey(), o.lanes.At(p.Channel()).packets;
    var gone := Dropped(queue, key);
    var held, mine := Slot(o.slots.At(ch)), o.lanes.At(ch).packets;
    KeptMembers(queue, key);
    OnLaneAppend(Without(o.waiting, gone), [p], ch);
    WithoutOnLane(o.waiting, gone, ch);
    WithoutAppend(held, mine, gone);
    HeldIsNotQueued(o, ch);
    WithoutNothing(held, gone);
    SingleOnLane(p, ch);
    if ch == p.Channel() {
      WithoutDropped(queue, key, gone);
      assert held + Kept(queue, key) + [p] == held + (Kept(queue, key) + [p]);
    } else {
      WithoutNothing(mine, gone);
    }
  }

  lemma SingleOnLane(p: Packet, ch: Channel)
    ensures OnLane([p], ch) == if p.Channel() == ch then [p] else []
  {
  }

  lemma ComesLast(o: Outbound, p: Packet)
    requires Increasing(o.accepted) && Allocated(o, p)
    ensures forall q :: q in o.accepted ==> Seq(q) < Seq(p) && q != p
  {
    hide PacketSequence, Increasing;
    forall q | q in o.accepted
      ensures Seq(q) < Seq(p) && q != p
    {
      NotAfterLast(o, q);
    }
  }

  lemma SendIncreases(o: Outbound, p: Packet)
    requires Consistent(o) && Allocated(o, p) && Send(o.lanes, p).1.Ok?
    ensures var o' := Enqueue(o, p);
      && Increasing(o'.accepted) && Increasing(o'.waiting) && Disjoint(o'.emitted, o'.waiting)
      && (Increasing(o.emitted + o.waiting) ==> Increasing(o'.emitted + o'.waiting))
  {
    hide Seq, Without, Increasing, PushQueue, Dropped, LaneHolds, AllSound, Allocated;
    var gone := Dropped(o.lanes.At(p.Channel()).packets, p.SupersessionKey());
    var left := Without(o.waiting, gone);
    ComesLast(o, p);
    SingleIncreasing(p);
    WithoutIncreasing(o.waiting, gone);
    WithoutMembers(o.waiting, gone);
    assert forall q :: q in o.emitted + o.waiting ==> q in o.accepted;
    assert forall q :: q in o.emitted || q in left ==> q in o.emitted + o.waiting;
    IncreasingConcat(o.accepted, [p]);
    IncreasingConcat(left, [p]);
    if Increasing(o.emitted + o.waiting) {
      IncreasingConcat(o.emitted, o.waiting);
      IncreasingConcat(o.emitted, left + [p]);
    }
  }

  lemma SingleIncreasing(p: Packet)
    ensures Increasing([p])
  {
  }

  lemma SendIsAccounted(o: Outbound, p: Packet)
    requires Consistent(o) && Send(o.lanes, p).1.Ok?
    ensures Accounted(Enqueue(o, p))
  {
    hide PushQueue, OnLane, Increasing, AllSound, Kept, Dropped, Without;
    var queue, key := o.lanes.At(p.Channel()).packets, p.SupersessionKey();
    KeptMembers(queue, key);
    WithoutMembers(o.waiting, Dropped(queue, key));
  }

  lemma SendWithoutKeys(o: Outbound, p: Packet)
    requires InOrder(o) && Send(o.lanes, p).1.Ok?
    ensures var o' := Enqueue(o, p); Irreplaceable(o'.accepted) ==> o'.emitted + o'.waiting == o'.accepted
  {
    hide PushQueue, OnLane, Increasing, AllSound, Accounted, Kept, Dropped, Without, LaneHolds;
    var queue, key := o.lanes.At(p.Channel()).packets, p.SupersessionKey();
    if Irreplaceable(o.accepted + [p]) {
      assert key.None? by { assert p in o.accepted + [p]; }
      assert Irreplaceable(o.accepted);
      NothingObsolete(queue, key);
      WithoutNothing(o.waiting, Dropped(queue, key));
      Associate(o.emitted, o.waiting, [p]);
    }
  }

  lemma EnqueueKeepsConsistency(o: Outbound, p: Packet)
    requires Consistent(o) && Allocated(o, p)
    ensures Consistent(Enqueue(o, p))
  {
    hide PacketSequence, PushQueue, OnLane, Without, Dropped, Increasing, LaneHolds, Kept, QueueState.Inv, Accounted,
         Disjoint;
    if Send(o.lanes, p).1.Ok? {
      LanesKeepInv(o.lanes, p, Control);
      LaneAfterSend(o, p, Control);
      LaneAfterSend(o, p, Media);
      SendIncreases(o, p);
      SendIsAccounted(o, p);
    }
  }

  lemma EnqueueKeepsOrder(o: Outbound, p: Packet)
    requires Ordered(o) && Allocated(o, p)
    ensures Ordered(Enqueue(o, p))
  {
    hide Consistent, PushQueue, Dropped, Without, Increasing, Allocated;
    EnqueueKeepsConsistency(o, p);
    if Send(o.lanes, p).1.Ok? {
      SendIncreases(o, p);
      SendWithoutKeys(o, p);
    }
  }

  lemma PollKeepsConsistency(o: Outbound, ch: Channel)
    requires Consistent(o)
    ensures Consistent(PollLane(o, ch)) && (InOrder(o) ==> InOrder(PollLane(o, ch)))
    ensures PollLane(o, ch).slots.At(ch).None? ==> PollLane(o, ch).lanes.At(ch).packets == []
  {
    hide Seq, Increasing, LaneHolds, AllSound;
    LanesKeepInv(o.lanes, ControlPacket([]), ch);
    LaneAfterPoll(o, ch, Control);
    LaneAfterPoll(o, ch, Media);
  }

  lemma LaneAfterPoll(o: Outbound, polled: Channel, ch: Channel)
    requires LaneHolds(o, ch)
    ensures LaneHolds(PollLane(o, polled), ch)
  {
    hide OnLane;
    var queue := o.lanes.At(ch).packets;
    if polled == ch && o.slots.At(ch).None? && queue != [] {
      assert [] + queue == [queue[0]] + queue[1..];
    }
  }

  ghost predicate Polled(o: Outbound) {
    && (o.slots.control.None? ==> o.lanes.control.packets == [])
    && (o.slots.media.None? ==> o.lanes.media.packets == [])
  }

  lemma SlotIsFirstOfLane(o: Outbound, ch: Channel)
    requires Consistent(o)
    requires o.slots.At(ch).None? ==> o.lanes.At(ch).packets == []
    ensures o.slots.At(ch).None? <==> OnLane(o.waiting, ch) == []
    ensures o.slots.At(ch).Some? ==> OnLane(o.waiting, ch)[0] == o.slots.At(ch).value
    ensures o.slots.At(ch).Some? ==> o.slots.At(ch).value in o.waiting
  {
    hide Seq, OnLane, Increasing;
    OnLaneMembers(o.waiting, ch);
    if o.slots.At(ch).Some? {
      assert OnLane(o.waiting, ch)[0] in OnLane(o.waiting, ch);
    }
  }

  lemma WaitingInOrder(o: Outbound, p: Packet)
    requires Consistent(o) && p in o.waiting
    ensures PacketSequence(p) == Ok(Seq(p))
    ensures p == o.waiting[0] || Seq(o.waiting[0]) < Seq(p)
  {
    hide PacketSequence, OnLane;
    assert p in o.emitted + o.waiting;
    var i :| 0 <= i < |o.waiting| && o.waiting[i] == p;
  }

  /** What is held can always be chosen from: it is sound, and the two slots
      never hold the same number. */
  lemma ChoiceSucceeds(o: Outbound)
    requires Consistent(o)
    ensures Choose(o.slots).1.Ok?
    ensures Choose(o.slots).1.value.None? <==> o.slots == NO_SLOTS
    ensures var r := Choose(o.slots).1.value; r.Some? ==>
      && r.value in o.waiting && o.slots.At(r.value.Channel()) == r
      && Choose(o.slots).0 == o.slots.With(r.value.Channel(), None)
  {
    hide PacketSequence, LaneHolds;
    HeldIsWaiting(o, Control);
    HeldIsWaiting(o, Media);
    if o.slots.control.Some? && o.slots.media.Some? {
      DifferentNumbers(o.waiting, o.slots.control.value, o.slots.media.value);
    }
  }

  lemma HeldIsWaiting(o: Outbound, ch: Channel)
    requires Consistent(o)
    ensures o.slots.At(ch).Some? ==>
      var p := o.slots.At(ch).value; p in o.waiting && p.Channel() == ch && PacketSequence(p) == Ok(Seq(p))
  {
    hide PacketSequence, OnLane, Seq, Increasing, Consistent;
    if o.slots.At(ch).Some? {
      LaneInOrder(o, ch);
      OnLaneMembers(o.waiting, ch);
      var p := o.slots.At(ch).value;
      assert p in Slot(o.slots.At(ch)) + o.lanes.At(ch).packets;
      WaitingInOrder(o, p);
    }
  }

  lemma DifferentNumbers(s: seq<Packet>, a: Packet, b: Packet)
    requires Increasing(s) && a in s && b in s && a != b
    ensures Seq(a) != Seq(b)
  {
    hide Seq;
    var i :| 0 <= i < |s| && s[i] == a;
    var j :| 0 <= j < |s| && s[j] == b;
  }

  /** Emitting any held packet keeps what holds whatever the order. */
  lemma EmitKeepsConsistency(o: Outbound)
    requires Consistent(o)
    ensures Consistent(Emit(o).0) && Emit(o).1.Ok?
  {
    hide Choose, Seq, Increasing, LaneHolds, AllSound, Without, Accounted, Distinct;
    ChoiceSucceeds(o);
    var r := Choose(o.slots).1;
    if r.value.Some? {
      var x := r.value.value;
      WithoutIncreasing(o.waiting, [x]);
      WithoutMembers(o.waiting, [x]);
      EmitIsAccounted(o, x);
      OneMoreDistinct(o.emitted, x);
      LaneAfterEmit(o, x, Control);
      LaneAfterEmit(o, x, Media);
    } else {
      NothingChosen(o.slots);
    }
  }

  lemma OneMoreDistinct(s: seq<Packet>, x: Packet)
    requires Distinct(s) && x !in s
    ensures Distinct(s + [x])
  {
  }

  lemma NothingChosen(s: Slots)
    ensures s == NO_SLOTS ==> Choose(s).0 == s
  {
  }

  lemma EmitIsAccounted(o: Outbound, x: Packet)
    requires Accounted(o) && x in o.waiting && Choose(o.slots).1 == Ok(Some(x))
    ensures Accounted(Emit(o).0)
  {
    hide Choose, Without;
    WithoutMembers(o.waiting, [x]);
  }

  lemma LaneAfterEmit(o: Outbound, x: Packet, ch: Channel)
    requires Consistent(o) && Choose(o.slots).1 == Ok(Some(x))
    requires o.slots.At(x.Channel()) == Some(x) && Choose(o.slots).0 == o.slots.With(x.Channel(), None)
    ensures LaneHolds(Emit(o).0, ch)
  {
    hide Choose, Seq, Increasing, OnLane, AllSound, Without;
    var queue := o.lanes.At(ch).packets;
    WithoutOnLane(o.waiting, [x], ch);
    if ch == x.Channel() {
      HeldIsNotQueued(o, ch);
      WithoutFirst(x, queue);
      WithoutNothing(queue, [x]);
    } else {
      OnLaneMembers(o.waiting, ch);
      WithoutNothing(OnLane(o.waiting, ch), [x]);
    }
  }

  lemma WithoutFirst(first: Packet, rest: seq<Packet>)
    ensures Without([first] + rest, [first]) == Without(rest, [first])
  {
    assert ([first] + rest)[1..] == rest;
  }

  /** With both lanes polled, the multiplexer emits the earliest packet
      waiting, and only an empty multiplexer emits nothing. */
  lemma EmitTakesTheFirst(o: Outbound)
    requires Consistent(o) && Polled(o)
    ensures Emit(o).1 == Ok(if o.waiting == [] then None else Some(o.waiting[0]))
    ensures Consistent(Emit(o).0)
    ensures Emit(o).0.waiting == if o.waiting == [] then [] else o.waiting[1..]
    ensures InOrder(o) ==> InOrder(Emit(o).0)
  {
    assert Increasing(o.waiting);
    hide Choose, Without, Consistent, Increasing;
    EmitKeepsConsistency(o);
    SlotIsFirstOfLane(o, Control);
    SlotIsFirstOfLane(o, Media);
    if o.waiting != [] {
      ChooseTakesTheFirst(o);
      RemoveFirst(o);
    } else {
      NothingOnLane(Control);
      NothingOnLane(Media);
      ChoiceSucceeds(o);
    }
  }

  lemma NothingOnLane(ch: Channel)
    ensures OnLane([], ch) == []
  {
  }

  lemma ChooseTakesTheFirst(o: Outbound)
    requires Consistent(o) && Polled(o) && o.waiting != []
    ensures Choose(o.slots).1 == Ok(Some(o.waiting[0]))
  {
    hide PacketSequence, LaneHolds, Consistent;
    SlotIsFirstOfLane(o, Control);
    SlotIsFirstOfLane(o, Media);
    HeldIsNotQueued(o, Control);
    HeldIsNotQueued(o, Media);
    var first := o.waiting[0];
    assert OnLane(o.waiting, first.Channel())[0] == first;
    assert o.slots.At(first.Channel()) == Some(first);
    forall p | p in o.waiting
      ensures PacketSequence(p) == Ok(Seq(p)) && (p == first || Seq(first) < Seq(p))
    {
      WaitingInOrder(o, p);
    }
  }

  lemma RemoveFirst(o: Outbound)
    requires Increasing(o.waiting) && o.waiting != []
    requires Choose(o.slots).1 == Ok(Some(o.waiting[0]))
    ensures Emit(o).0.waiting == o.waiting[1..] && (InOrder(o) ==> InOrder(Emit(o).0))
  {
    hide Choose, Seq, Increasing;
    var first, rest := o.waiting[0], o.waiting[1..];
    assert o.waiting == [first] + rest;
    HalvesAreDisjoint([first], rest);
    WithoutFirst(first, rest);
    assert first in [first];
    WithoutNothing(rest, [first]);
    Associate(o.emitted, [first], rest);
  }
}
