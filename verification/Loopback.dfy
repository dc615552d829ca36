/** The bounded in-memory link with two independent lanes in each direction
    (crates/ladoflow-transport/src/loopback.rs). */
module Loopback {
  import opened Wrappers
  import opened Words
  import opened Packets

  // ---- One bounded queue, as a value ---------------------------------------

  datatype QueueState = QueueState(limits: QueueLimits, packets: seq<Packet>) {
    /** What holds in every reachable state. */
    ghost predicate Inv() {
      && limits.Valid()
      && |packets| <= limits.maxPackets
      && TotalLen(packets) <= limits.maxQueuedBytes
      && (forall p :: p in packets ==> p.Len() <= limits.maxPacketBytes)
      && DistinctKeys(packets)
    }
  }

  /** Each supersession key appears at most once. */
  ghost predicate DistinctKeys(packets: seq<Packet>) {
    forall i, j :: 0 <= i < j < |packets| && packets[i].SupersessionKey().Some? ==>
      packets[i].SupersessionKey() != packets[j].SupersessionKey()
  }

  function PushQueue(q: QueueState, p: Packet): (QueueState, SendResult) {
    var retained := Kept(q.packets, p.SupersessionKey());
    if p.Len() > q.limits.maxPacketBytes then (q, Err(PacketTooLarge(p, p.Len(), q.limits.maxPacketBytes)))
    else if |retained| >= q.limits.maxPackets || TotalLen(retained) + p.Len() > q.limits.maxQueuedBytes
    then (q, Err(Full(p, DepthOf(q.packets), q.limits)))
    else (q.(packets := retained + [p]), Ok(DepthOf(Dropped(q.packets, p.SupersessionKey()))))
  }

  function PopQueue(q: QueueState): (QueueState, Option<Packet>) {
    if q.packets == [] then (q, None) else (q.(packets := q.packets[1..]), Some(q.packets[0]))
  }

  function ClearQueue(q: QueueState): (QueueState, QueueDepth) {
    (q.(packets := []), DepthOf(q.packets))
  }

  lemma {:induction false} KeptDistinct(packets: seq<Packet>, key: Option<u64>)
    requires DistinctKeys(packets)
    ensures DistinctKeys(Kept(packets, key))
    decreases |packets|
  {
    if packets != [] {
      var head, tail := packets[0], packets[1..];
      TailDistinct(packets);
      KeptDistinct(tail, key);
      KeptMembers(tail, key);
      var rest := Kept(tail, key);
      assert Kept(packets, key) == (if Obsolete(head, key) then [] else [head]) + rest;
      hide Kept, Obsolete, DistinctKeys;
      assert [] + rest == rest;
      DistinctCons(head, rest);
    }
  }

  lemma DistinctCons(head: Packet, rest: seq<Packet>)
    requires DistinctKeys(rest)
    requires forall p :: p in rest && head.SupersessionKey().Some? ==> p.SupersessionKey() != head.SupersessionKey()
    ensures DistinctKeys([head] + rest)
  {
    var all := [head] + rest;
    forall i, j | 0 <= i < j < |all| && all[i].SupersessionKey().Some?
      ensures all[i].SupersessionKey() != all[j].SupersessionKey()
    {
      assert all[j] == rest[j - 1] && all[j] in rest;
    }
  }

  lemma TailDistinct(packets: seq<Packet>)
    requires packets != [] && DistinctKeys(packets)
    ensures DistinctKeys(packets[1..])
    ensures forall p :: p in packets[1..] && packets[0].SupersessionKey().Some? ==>
      p.SupersessionKey() != packets[0].SupersessionKey()
  {
    var tail := packets[1..];
    assert forall i :: 0 <= i < |tail| ==> tail[i] == packets[i + 1];
  }

  lemma KeptKeysDiffer(packets: seq<Packet>, key: Option<u64>)
    requires key.Some?
    ensures forall i :: 0 <= i < |Kept(packets, key)| ==> Kept(packets, key)[i].SupersessionKey() != key
  {
    KeptMembers(packets, key);
    assert forall i :: 0 <= i < |Kept(packets, key)| ==> Kept(packets, key)[i] in Kept(packets, key);
  }

  /** A push keeps the queue invariant, whatever its outcome. */
  lemma PushKeepsInv(q: QueueState, p: Packet)
    requires q.Inv()
    ensures PushQueue(q, p).0.Inv()
  {
    var key := p.SupersessionKey();
    var retained := Kept(q.packets, key);
    KeptDistinct(q.packets, key);
    KeptMembers(q.packets, key);
    if key.Some? {
      KeptKeysDiffer(q.packets, key);
    }
    TotalLenAppend(retained, [p]);
  }

  lemma PopKeepsInv(q: QueueState)
    requires q.Inv()
    ensures PopQueue(q).0.Inv()
  {
    if q.packets != [] {
      TailDistinct(q.packets);
    }
  }

  lemma ClearKeepsInv(q: QueueState)
    requires q.Inv()
    ensures ClearQueue(q).0.Inv()
  {
  }

  /** A rejected push changes nothing and hands the packet back; it is Full
      exactly when the packet itself is admissible but does not fit beside the
      packets it would not replace. An accepted push appends the packet,
      removes precisely the earlier media with the same key, and reports them;
      the others keep their order, and control is never evicted. */
  lemma PushOutcome(q: QueueState, p: Packet)
    requires q.Inv()
    ensures var (q', r) := PushQueue(q, p); var key := p.SupersessionKey();
      var gone := DepthOf(Dropped(q.packets, key));
      && (r.Err? ==> q' == q && r.error.packet == p)
      && ((r.Err? && r.error.PacketTooLarge?) <==> p.Len() > q.limits.maxPacketBytes)
      && (r.Err? ==> r.error == (if p.Len() > q.limits.maxPacketBytes
                                 then PacketTooLarge(p, p.Len(), q.limits.maxPacketBytes)
                                 else Full(p, QueueDepth(|q.packets|, TotalLen(q.packets)), q.limits)))
      && ((r.Err? && r.error.Full?) <==>
            && p.Len() <= q.limits.maxPacketBytes
            && (|| |q.packets| + 1 > q.limits.maxPackets + gone.packets
                || TotalLen(q.packets) + p.Len() > q.limits.maxQueuedBytes + gone.bytes))
      && (r.Ok? ==>
            && q'.packets == Kept(q.packets, key) + [p]
            && r.value == gone
            && |q'.packets| + gone.packets == |q.packets| + 1
            && TotalLen(q'.packets) + gone.bytes == TotalLen(q.packets) + p.Len()
            && (forall c :: c in q.packets && c.ControlPacket? ==> c in q'.packets)
            && (key.Some? ==> forall i :: 0 <= i < |q'.packets| - 1 ==> q'.packets[i].SupersessionKey() != key)
            && (key.None? ==> r.value == NO_PACKETS))
  {
    hide Kept, Dropped, TotalLen;
    var key := p.SupersessionKey();
    var retained := Kept(q.packets, key);
    KeptAndDropped(q.packets, key);
    KeptMembers(q.packets, key);
    TotalLenAppend(retained, [p]);
    OnePacket(p);
    if key.None? {
      NothingObsolete(q.packets, key);
    } else {
      KeptKeysDiffer(q.packets, key);
    }
    NoPackets();
  }

  lemma OnePacket(p: Packet)
    ensures TotalLen([p]) == p.Len()
  {
  }

  lemma NoPackets()
    ensures TotalLen([]) == 0
  {
  }

  // ---- Accounting over whole runs ------------------------------------------

  datatype QueueOp = PushOp(packet: Packet) | PopOp | ClearOp

  /** A queue together with everything that ever entered or left it. */
  datatype Ledger = Ledger(
    queue: QueueState, accepted: QueueDepth, popped: QueueDepth, superseded: QueueDepth, cleared: QueueDepth)

  function Post(l: Ledger, op: QueueOp): Ledger {
    match op
    case PushOp(p) =>
      var (q, r) := PushQueue(l.queue, p);
      if r.Err? then l.(queue := q)
      else l.(queue := q, accepted := l.accepted.Plus(DepthOf([p])), superseded := l.superseded.Plus(r.value))
    case PopOp =>
      var (q, p) := PopQueue(l.queue);
      if p.None? then l.(queue := q) else l.(queue := q, popped := l.popped.Plus(DepthOf([p.value])))
    case ClearOp =>
      var (q, depth) := ClearQueue(l.queue);
      l.(queue := q, cleared := l.cleared.Plus(depth))
  }

  function PostAll(l: Ledger, ops: seq<QueueOp>): Ledger
    decreases |ops|
  {
    if ops == [] then l else PostAll(Post(l, ops[0]), ops[1..])
  }

  ghost predicate Balanced(l: Ledger) {
    && l.queue.Inv()
    && l.accepted == l.popped.Plus(l.superseded).Plus(l.cleared).Plus(DepthOf(l.queue.packets))
  }

  lemma PostBalances(l: Ledger, op: QueueOp)
    requires Balanced(l)
    ensures Balanced(Post(l, op))
  {
    match op
    case PushOp(p) =>
      PushKeepsInv(l.queue, p);
      PushOutcome(l.queue, p);
      assert [p][1..] == [];
    case PopOp =>
      var packets := l.queue.packets;
      if packets != [] {
        TailDistinct(packets);
        assert [packets[0]][1..] == [];
        assert TotalLen(packets) == TotalLen([packets[0]]) + TotalLen(packets[1..]);
      }
    case ClearOp =>
  }

  /** In every state reachable from an empty queue the invariant holds, and
      accepted = popped + superseded + cleared + queued, in packets and bytes. */
  lemma {:induction false} NothingUnaccountedFor(l: Ledger, ops: seq<QueueOp>)
    requires Balanced(l)
    ensures Balanced(PostAll(l, ops))
    decreases |ops|
  {
    if ops != [] {
      PostBalances(l, ops[0]);
      NothingUnaccountedFor(Post(l, ops[0]), ops[1..]);
    }
  }

  lemma DroppedAlone(p: Packet, key: Option<u64>)
    ensures Dropped([p], key) == if Obsolete(p, key) then [p] else []
  {
    hide Obsolete;
    KeptCons(p, [], key);
    assert [p] + [] == [p];
  }

  lemma OneMoreDropped(packets: seq<Packet>, i: nat, key: Option<u64>)
    requires i < |packets|
    ensures DepthOf(Dropped(packets[..i + 1], key)) ==
      DepthOf(Dropped(packets[..i], key)).Plus(
        if Obsolete(packets[i], key) then QueueDepth(1, packets[i].Len()) else NO_PACKETS)
  {
    hide Dropped, Kept, TotalLen, Obsolete;
    var p := packets[i];
    assert packets[..i + 1] == packets[..i] + [p];
    KeptAppend(packets[..i], [p], key);
    TotalLenAppend(Dropped(packets[..i], key), Dropped([p], key));
    DroppedAlone(p, key);
    OnePacket(p);
    NoPackets();
  }

  // ---- The queue as the source runs it -------------------------------------

  class BoundedQueue {
    const limits: QueueLimits
    var packets: seq<Packet>
    var queuedBytes: usize

    ghost predicate Valid()
      reads this
    {
      State().Inv() && queuedBytes == TotalLen(packets)
    }

    ghost function State(): QueueState
      reads this
    {
      QueueState(limits, packets)
    }

    constructor (limits: QueueLimits)
      requires limits.Valid()
      ensures Valid() && State() == QueueState(limits, [])
    {
      this.limits := limits;
      packets := [];
      queuedBytes := 0;
    }

    function Depth(): (d: QueueDepth)
      requires Valid()
      reads this
      ensures d == DepthOf(packets)
    {
      QueueDepth(|packets|, queuedBytes)
    }

    /** The packets `packet` would replace; the saturating sums never saturate. */
    method SupersededBy(packet: Packet) returns (d: QueueDepth)
      requires Valid()
      ensures d == DepthOf(Dropped(packets, packet.SupersessionKey()))
      ensures d.packets <= |packets| && d.bytes <= queuedBytes
    {
      ghost var key := packet.SupersessionKey();
      KeptAndDropped(packets, key);
      if packet.SupersessionKey().None? {
        NothingObsolete(packets, key);
        return NO_PACKETS;
      }
      var count: usize, size: usize := 0, 0;
      var i := 0;
      assert DepthOf(Dropped(packets[..0], key)) == NO_PACKETS;
      hide Dropped, Kept, TotalLen;
      while i < |packets|
        invariant 0 <= i <= |packets|
        invariant QueueDepth(count, size) == DepthOf(Dropped(packets[..i], key))
      {
        OneMoreDropped(packets, i, key);
        SplitAt(i + 1, key);
        if packets[i].SupersessionKey() == packet.SupersessionKey() {
          count := SatAdd64(count, 1);
          size := SatAdd64(size, packets[i].Len());
        }
        i := i + 1;
      }
      assert packets[..i] == packets;
      return QueueDepth(count, size);
    }

    lemma SplitAt(i: nat, key: Option<u64>)
      requires Valid() && i <= |packets|
      ensures DepthOf(Dropped(packets[..i], key)).packets <= limits.maxPackets
      ensures DepthOf(Dropped(packets[..i], key)).bytes <= limits.maxQueuedBytes
    {
      KeptAndDropped(packets[..i], key);
      TotalLenAppend(packets[..i], packets[i..]);
      assert packets == packets[..i] + packets[i..];
    }

    method TryPush(packet: Packet) returns (r: SendResult)
      requires Valid()
      modifies this
      ensures Valid() && (State(), r) == PushQueue(old(State()), packet)
    {
      var packetSize := packet.Len();
      PushKeepsInv(State(), packet);
      if packetSize > limits.maxPacketBytes {
        return Err(PacketTooLarge(packet, packetSize, limits.maxPacketBytes));
      }
      var superseded := SupersededBy(packet);
      KeptAndDropped(packets, packet.SupersessionKey());
      var retainedPackets: usize := |packets| - superseded.packets;
      var retainedBytes: usize := queuedBytes - superseded.bytes;
      var room: usize := limits.maxQueuedBytes - retainedBytes;
      if retainedPackets >= limits.maxPackets || packetSize > room {
        return Err(Full(packet, Depth(), limits));
      }
      ghost var retained := Kept(packets, packet.SupersessionKey());
      TotalLenAppend(retained, [packet]);
      OnePacket(packet);
      hide Kept, Dropped, TotalLen, DistinctKeys;
      if packet.SupersessionKey().Some? {
        packets := Kept(packets, packet.SupersessionKey());
      } else {
        NothingObsolete(packets, None);
      }
      queuedBytes := retainedBytes + packetSize;
      packets := packets + [packet];
      return Ok(superseded);
    }

    method Pop() returns (p: Option<Packet>)
      requires Valid()
      modifies this
      ensures Valid() && (State(), p) == PopQueue(old(State()))
    {
      if packets == [] {
        return None;
      }
      p := Some(packets[0]);
      TailDistinct(packets);
      queuedBytes := queuedBytes - packets[0].Len();
      packets := packets[1..];
    }

    method Clear() returns (d: QueueDepth)
      requires Valid()
      modifies this
      ensures Valid() && (State(), d) == ClearQueue(old(State()))
    {
      d := Depth();
      packets := [];
      queuedBytes := 0;
    }
  }

  // ---- The two-lane, two-direction link, as a value --------------------------

  /** Both lanes of one direction. */
  datatype Lanes = Lanes(control: QueueState, media: QueueState) {
    function At(ch: Channel): QueueState { if ch.Control? then control else media }

    function With(ch: Channel, q: QueueState): Lanes {
      if ch.Control? then this.(control := q) else this.(media := q)
    }

    ghost predicate Inv() {
      && control.Inv() && media.Inv()
      && (forall p :: p in control.packets ==> p.Channel() == Control)
      && (forall p :: p in media.packets ==> p.Channel() == Media)
    }
  }

  function Send(l: Lanes, p: Packet): (Lanes, SendResult) {
    var (q, r) := PushQueue(l.At(p.Channel()), p);
    (l.With(p.Channel(), q), r)
  }

  function Receive(l: Lanes, ch: Channel): (Lanes, Option<Packet>) {
    var (q, p) := PopQueue(l.At(ch));
    (l.With(ch, q), p)
  }

  function Cleared(l: Lanes): Lanes {
    Lanes(ClearQueue(l.control).0, ClearQueue(l.media).0)
  }

  lemma LanesKeepInv(l: Lanes, p: Packet, ch: Channel)
    requires l.Inv()
    ensures Send(l, p).0.Inv() && Receive(l, ch).0.Inv() && Cleared(l).Inv()
  {
    hide QueueState.Inv, PushQueue, PopQueue;
    PushKeepsInv(l.At(p.Channel()), p);
    PopKeepsInv(l.At(ch));
    ClearKeepsInv(l.control);
    ClearKeepsInv(l.media);
    QueueMembers(l.At(p.Channel()), p);
    QueueMembers(l.At(ch), p);
  }

  lemma QueueMembers(q: QueueState, p: Packet)
    ensures forall x :: x in PushQueue(q, p).0.packets ==> x in q.packets || x == p
    ensures forall x :: x in PopQueue(q).0.packets ==> x in q.packets
  {
    KeptMembers(q.packets, p.SupersessionKey());
    hide Kept, Dropped, TotalLen;
  }

  lemma RefusedSendChangesNothing(l: Lanes, packet: Packet)
    ensures Send(l, packet).1.Err? ==> Send(l, packet).0 == l
  {
  }

  datatype Side = First | Second

  datatype ReceiveError = LinkDown

  datatype LinkState = LinkState(connected: bool, forward: Lanes, backward: Lanes) {
    function Outgoing(side: Side): Lanes { if side.First? then forward else backward }

    function Incoming(side: Side): Lanes { if side.First? then backward else forward }

    function WithOutgoing(side: Side, l: Lanes): LinkState {
      if side.First? then this.(forward := l) else this.(backward := l)
    }

    function WithIncoming(side: Side, l: Lanes): LinkState {
      if side.First? then this.(backward := l) else this.(forward := l)
    }

    ghost predicate Inv() {
      forward.Inv() && backward.Inv() && (!connected ==> forward == Cleared(forward) && backward == Cleared(backward))
    }
  }

  function SendVia(s: LinkState, side: Side, p: Packet): (LinkState, SendResult) {
    if !s.connected then (s, Err(Disconnected(p))) else
    var (l, r) := Send(s.Outgoing(side), p);
    (s.WithOutgoing(side, l), r)
  }

  function ReceiveVia(s: LinkState, side: Side, ch: Channel): (LinkState, Result<Option<Packet>, ReceiveError>) {
    if !s.connected then (s, Err(LinkDown)) else
    var (l, p) := Receive(s.Incoming(side), ch);
    (s.WithIncoming(side, l), Ok(p))
  }

  function CutLink(s: LinkState): LinkState {
    LinkState(false, Cleared(s.forward), Cleared(s.backward))
  }

  datatype DisconnectReport = DisconnectReport(wasConnected: bool, control: QueueDepth, media: QueueDepth)

  function SatPlus(a: QueueDepth, b: QueueDepth): QueueDepth {
    QueueDepth(Min(a.packets + b.packets, USIZE_MAX), Min(a.bytes + b.bytes, USIZE_MAX))
  }

  // ---- The link as the source runs it ----------------------------------------

  class Direction {
    const control: BoundedQueue
    const media: BoundedQueue

    ghost function Objects(): set<object> { {this, control, media} }

    ghost predicate Valid()
      reads Objects()
    {
      control != media && control.Valid() && media.Valid() && State().Inv()
    }

    ghost function State(): Lanes
      reads Objects()
    {
      Lanes(control.State(), media.State())
    }

    constructor (controlLimits: QueueLimits, mediaLimits: QueueLimits)
      requires controlLimits.Valid() && mediaLimits.Valid()
      ensures Valid() && fresh(Objects())
      ensures State() == Lanes(QueueState(controlLimits, []), QueueState(mediaLimits, []))
    {
      control := new BoundedQueue(controlLimits);
      media := new BoundedQueue(mediaLimits);
    }

    method TryPush(p: Packet) returns (r: SendResult)
      requires Valid()
      modifies Objects()
      ensures Valid() && (State(), r) == Send(old(State()), p)
    {
      LanesKeepInv(State(), p, Control);
      match p.Channel()
      case Control => r := control.TryPush(p);
      case Media => r := media.TryPush(p);
    }

    method Pop(ch: Channel) returns (p: Option<Packet>)
      requires Valid()
      modifies Objects()
      ensures Valid() && (State(), p) == Receive(old(State()), ch)
    {
      LanesKeepInv(State(), ControlPacket([]), ch);
      match ch
      case Control => p := control.Pop();
      case Media => p := media.Pop();
    }

    method Clear() returns (c: QueueDepth, m: QueueDepth)
      requires Valid()
      modifies Objects()
      ensures Valid() && State() == Cleared(old(State()))
      ensures c == DepthOf(old(control.packets)) && m == DepthOf(old(media.packets))
    {
      c := control.Clear();
      m := media.Clear();
    }
  }

  class Link {
    var connected: bool
    const forward: Direction
    const backward: Direction

    ghost function Objects(): set<object> { {this} + forward.Objects() + backward.Objects() }

    ghost predicate Valid()
      reads Objects()
    {
      forward.Objects() !! backward.Objects() && forward.Valid() && backward.Valid() && State().Inv()
    }

    ghost function State(): LinkState
      reads Objects()
    {
      LinkState(connected, forward.State(), backward.State())
    }

    constructor (controlLimits: QueueLimits, mediaLimits: QueueLimits)
      requires controlLimits.Valid() && mediaLimits.Valid()
      ensures Valid() && fresh(Objects())
      ensures var empty := Lanes(QueueState(controlLimits, []), QueueState(mediaLimits, []));
        State() == LinkState(true, empty, empty)
    {
      hide QueueState.Inv;
      connected := true;
      forward := new Direction(controlLimits, mediaLimits);
      backward := new Direction(controlLimits, mediaLimits);
    }

    method TrySend(side: Side, p: Packet) returns (r: SendResult)
      requires Valid()
      modifies Objects()
      ensures Valid() && (State(), r) == SendVia(old(State()), side, p)
    {
      if !connected {
        return Err(Disconnected(p));
      }
      match side
      case First => r := forward.TryPush(p);
      case Second => r := backward.TryPush(p);
    }

    method TryReceive(side: Side, ch: Channel) returns (r: Result<Option<Packet>, ReceiveError>)
      requires Valid()
      modifies Objects()
      ensures Valid() && (State(), r) == ReceiveVia(old(State()), side, ch)
    {
      if !connected {
        return Err(LinkDown);
      }
      var p: Option<Packet>;
      match side {
        case First => p := backward.Pop(ch);
        case Second => p := forward.Pop(ch);
      }
      return Ok(p);
    }

    /** Reject every later operation and discard what both directions hold. */
    method Disconnect() returns (report: DisconnectReport)
      requires Valid()
      modifies Objects()
      ensures Valid() && State() == CutLink(old(State()))
      ensures report.wasConnected == old(connected)
      ensures report.control == SatPlus(DepthOf(old(forward.control.packets)), DepthOf(old(backward.control.packets)))
      ensures report.media == SatPlus(DepthOf(old(forward.media.packets)), DepthOf(old(backward.media.packets)))
    {
      var was := connected;
      connected := false;
      var fc, fm := forward.Clear();
      var bc, bm := backward.Clear();
      return DisconnectReport(was, SatPlus(fc, bc), SatPlus(fm, bm));
    }

    lemma DownIsCleared()
      requires Valid()
      ensures !connected ==> State() == CutLink(State())
    {
      hide QueueState.Inv;
    }

    /** Start a clean connection; true only when the link was down. */
    method Reconnect() returns (changed: bool)
      requires Valid()
      modifies Objects()
      ensures Valid() && changed == !old(connected)
      ensures State() == if changed then CutLink(old(State())).(connected := true) else old(State())
    {
      if connected {
        return false;
      }
      var _, _ := forward.Clear();
      var _, _ := backward.Clear();
      connected := true;
      return true;
    }
  }
}
