/** The history of one lane of one direction of a stream: what was accepted,
    what was reported superseded, and what reached the far end. */
module Delivery {
  import opened Wrappers
  import opened Words
  import opened Frames
  import opened Packets
  import opened Loopback
  import opened LdflStream

  /** One accepted packet, and whether a later send reported it superseded. */
  datatype Entry = Entry(packet: Packet, superseded: bool)

  /** Everything accepted on a lane in order. Entries before `head` have left
      the queue; those from `head` on are queued or superseded. */
  datatype LaneLog = LaneLog(entries: seq<Entry>, head: nat, reported: QueueDepth, delivered: seq<bytes>) {
    ghost predicate Valid() { head <= |entries| }
  }

  const NEW_LOG := LaneLog([], 0, NO_PACKETS, [])

  /** Accepted minus superseded, in the order of acceptance. */
  function Survivors(entries: seq<Entry>): seq<Packet>
    decreases |entries|
  {
    if entries == [] then []
    else (if entries[0].superseded then [] else [entries[0].packet]) + Survivors(entries[1..])
  }

  function Lost(entries: seq<Entry>): seq<Packet>
    decreases |entries|
  {
    if entries == [] then []
    else (if entries[0].superseded then [entries[0].packet] else []) + Lost(entries[1..])
  }

  function EntryPackets(entries: seq<Entry>): (packets: seq<Packet>)
    ensures |packets| == |entries|
    ensures forall i :: 0 <= i < |entries| ==> packets[i] == entries[i].packet
  {
    seq(|entries|, i requires 0 <= i < |entries| => entries[i].packet)
  }

  function Contents(packets: seq<Packet>): (b: seq<bytes>)
    ensures |b| == |packets|
    ensures forall i :: 0 <= i < |packets| ==> b[i] == packets[i].payload
  {
    seq(|packets|, i requires 0 <= i < |packets| => packets[i].payload)
  }

  /** Mark the entries that a packet with this key makes obsolete. */
  function Mark(entries: seq<Entry>, key: Option<u64>): (marked: seq<Entry>)
    ensures |marked| == |entries|
    decreases |entries|
  {
    if entries == [] then []
    else [if Obsolete(entries[0].packet, key) then entries[0].(superseded := true) else entries[0]]
         + Mark(entries[1..], key)
  }

  function LogSend(log: LaneLog, p: Packet, report: QueueDepth): LaneLog
    requires log.Valid()
  {
    log.(entries := log.entries[..log.head] + Mark(log.entries[log.head..], p.SupersessionKey()) + [Entry(p, false)],
         reported := log.reported.Plus(report))
  }

  /** How many entries leave the front when the queue's first packet does. */
  function Advance(entries: seq<Entry>): (n: nat)
    ensures n <= |entries|
    decreases |entries|
  {
    if entries == [] then 0
    else if entries[0].superseded then 1 + Advance(entries[1..])
    else 1
  }

  function LogPop(log: LaneLog): LaneLog
    requires log.Valid()
  {
    log.(head := log.head + Advance(log.entries[log.head..]))
  }

  lemma SurvivorsCons(e: Entry, rest: seq<Entry>)
    ensures Survivors([e] + rest) == (if e.superseded then [] else [e.packet]) + Survivors(rest)
    ensures Lost([e] + rest) == (if e.superseded then [e.packet] else []) + Lost(rest)
  {
    assert ([e] + rest)[1..] == rest;
  }

  lemma {:induction false} SurvivorsAppend(a: seq<Entry>, b: seq<Entry>)
    ensures Survivors(a + b) == Survivors(a) + Survivors(b)
    ensures Lost(a + b) == Lost(a) + Lost(b)
    decreases |a|
  {
    if a == [] {
      assert a + b == b;
    } else {
      var head, tail := a[0], a[1..];
      SurvivorsAppend(tail, b);
      SurvivorsCons(head, tail);
      SurvivorsCons(head, tail + b);
      hide Survivors, Lost;
      assert a == [head] + tail;
      Associate([head], tail, b);
      Associate(if head.superseded then [] else [head.packet], Survivors(tail), Survivors(b));
      Associate(if head.superseded then [head.packet] else [], Lost(tail), Lost(b));
    }
  }

  lemma {:induction false} MarkSurvivors(entries: seq<Entry>, key: Option<u64>)
    ensures Survivors(Mark(entries, key)) == Kept(Survivors(entries), key)
    decreases |entries|
  {
    if entries != [] {
      var e := entries[0];
      MarkSurvivors(entries[1..], key);
      assert Mark(entries, key)[1..] == Mark(entries[1..], key);
      KeptAppend(if e.superseded then [] else [e.packet], Survivors(entries[1..]), key);
    }
  }

  lemma {:induction false} MarkLost(entries: seq<Entry>, key: Option<u64>)
    ensures |Lost(Mark(entries, key))| == |Lost(entries)| + |Dropped(Survivors(entries), key)|
    ensures TotalLen(Lost(Mark(entries, key))) == TotalLen(Lost(entries)) + TotalLen(Dropped(Survivors(entries), key))
    decreases |entries|
  {
    if entries != [] {
      var e, tail := entries[0], entries[1..];
      MarkLost(tail, key);
      assert Mark(entries, key)[1..] == Mark(tail, key);
      var gone := if e.superseded then [] else Dropped([e.packet], key);
      KeptAppend(if e.superseded then [] else [e.packet], Survivors(tail), key);
      TotalLenAppend(gone, Dropped(Survivors(tail), key));
      var here := if e.superseded then [e.packet] else [];
      TotalLenAppend(here, Lost(tail));
      var marked := if Mark(entries, key)[0].superseded then [e.packet] else [];
      TotalLenAppend(marked, Lost(Mark(tail, key)));
      assert [e.packet][1..] == [];
    }
  }

  lemma {:induction false} AdvanceTakesFirst(entries: seq<Entry>)
    requires Survivors(entries) != []
    ensures Survivors(entries[..Advance(entries)]) == [Survivors(entries)[0]]
    ensures Survivors(entries[Advance(entries)..]) == Survivors(entries)[1..]
    decreases |entries|
  {
    var tail := entries[1..];
    if entries[0].superseded {
      AdvanceTakesFirst(tail);
      assert entries[..Advance(entries)] == [entries[0]] + tail[..Advance(tail)];
      assert entries[Advance(entries)..] == tail[Advance(tail)..];
    } else {
      assert entries[..1] == [entries[0]];
      assert Survivors([]) == [];
    }
  }

  /** Only media with a key is ever superseded. */
  ghost predicate OnlyKeyedLost(entries: seq<Entry>) {
    forall e :: e in entries && e.superseded ==> e.packet.SupersessionKey().Some?
  }

  lemma {:induction false} MarkOnlyKeyed(entries: seq<Entry>, key: Option<u64>)
    requires OnlyKeyedLost(entries)
    ensures OnlyKeyedLost(Mark(entries, key))
    ensures forall i :: 0 <= i < |entries| ==> Mark(entries, key)[i].packet == entries[i].packet
    decreases |entries|
  {
    if entries != [] {
      MarkOnlyKeyed(entries[1..], key);
      assert forall e :: e in Mark(entries, key) ==> e == Mark(entries, key)[0] || e in Mark(entries[1..], key);
    }
  }

  lemma {:induction false} NothingLost(entries: seq<Entry>)
    requires OnlyKeyedLost(entries)
    requires forall e :: e in entries ==> e.packet.SupersessionKey().None?
    ensures Lost(entries) == [] && |Survivors(entries)| == |entries|
    ensures forall i :: 0 <= i < |entries| ==> Survivors(entries)[i] == entries[i].packet
    decreases |entries|
  {
    if entries != [] {
      assert entries[0] in entries;
      NothingLost(entries[1..]);
    }
  }

  lemma SendLogsPacket(log: LaneLog, p: Packet, report: QueueDepth)
    requires log.Valid()
    ensures EntryPackets(LogSend(log, p, report).entries) == EntryPackets(log.entries) + [p]
  {
    var queued := log.entries[log.head..];
    MarkKeepsPackets(queued, p.SupersessionKey());
    var marked := Mark(queued, p.SupersessionKey());
    hide Mark;
    var entries := LogSend(log, p, report).entries;
    assert entries == log.entries[..log.head] + marked + [Entry(p, false)];
    forall i | 0 <= i < |log.entries|
      ensures entries[i].packet == log.entries[i].packet
    {
      if i >= log.head {
        assert queued[i - log.head] == log.entries[i] && entries[i] == marked[i - log.head];
      }
    }
  }

  lemma {:induction false} MarkKeepsPackets(entries: seq<Entry>, key: Option<u64>)
    ensures forall i :: 0 <= i < |entries| ==> Mark(entries, key)[i].packet == entries[i].packet
    decreases |entries|
  {
    if entries != [] {
      MarkKeepsPackets(entries[1..], key);
    }
  }

  /** A packet with the same key was accepted later. */
  ghost predicate Replaced(entries: seq<Entry>, i: nat)
    requires i < |entries|
  {
    entries[i].packet.SupersessionKey().Some? &&
    exists j :: i < j < |entries| && entries[j].packet.SupersessionKey() == entries[i].packet.SupersessionKey()
  }

  /** Only replaced packets are marked, and of those that have not left the queue
      every one. */
  ghost predicate MarkedExactly(log: LaneLog) {
    && log.Valid()
    && (forall i :: 0 <= i < |log.entries| && log.entries[i].superseded ==> Replaced(log.entries, i))
    && (forall i :: log.head <= i < |log.entries| && Replaced(log.entries, i) ==> log.entries[i].superseded)
  }

  lemma {:induction false} MarkMarks(entries: seq<Entry>, key: Option<u64>)
    ensures forall i :: 0 <= i < |entries| ==>
      (Mark(entries, key)[i].superseded <==> entries[i].superseded || Obsolete(entries[i].packet, key))
    decreases |entries|
  {
    hide Obsolete;
    if entries != [] {
      MarkMarks(entries[1..], key);
    }
  }

  lemma SendMarksExactly(log: LaneLog, p: Packet, report: QueueDepth)
    requires MarkedExactly(log)
    ensures MarkedExactly(LogSend(log, p, report))
  {
    hide Mark, LogSend, Replaced, Obsolete;
    LastIsNotReplaced(log, p, report);
    var entries, key := LogSend(log, p, report).entries, p.SupersessionKey();
    forall i | 0 <= i < |log.entries|
      ensures entries[i].superseded <==>
        log.entries[i].superseded || (i >= log.head && Obsolete(log.entries[i].packet, key))
      ensures Replaced(entries, i) <==> Replaced(log.entries, i) || Obsolete(log.entries[i].packet, key)
    {
      SentEntry(log, p, report, i);
    }
  }

  lemma LastIsNotReplaced(log: LaneLog, p: Packet, report: QueueDepth)
    requires log.Valid()
    ensures var log' := LogSend(log, p, report);
      && log'.head == log.head && |log'.entries| == |log.entries| + 1
      && !Replaced(log'.entries, |log.entries|) && !log'.entries[|log.entries|].superseded
  {
    hide Mark;
  }

  lemma SentEntry(log: LaneLog, p: Packet, report: QueueDepth, i: nat)
    requires log.Valid() && i < |log.entries|
    ensures var entries := LogSend(log, p, report).entries; var e, key := log.entries[i], p.SupersessionKey();
      && |entries| == |log.entries| + 1 && entries[|log.entries|] == Entry(p, false) && entries[i].packet == e.packet
      && (entries[i].superseded <==> e.superseded || (i >= log.head && Obsolete(e.packet, key)))
      && (Replaced(entries, i) <==> Replaced(log.entries, i) || Obsolete(e.packet, key))
  {
    var key := p.SupersessionKey();
    var queued := log.entries[log.head..];
    MarkMarks(queued, key);
    SendLogsPacket(log, p, report);
    hide Mark;
    var entries := LogSend(log, p, report).entries;
    assert forall j :: 0 <= j < |log.entries| ==> entries[j].packet == EntryPackets(entries)[j] == log.entries[j].packet;
    if i >= log.head {
      assert queued[i - log.head] == log.entries[i];
    }
  }

  lemma PopMarksExactly(log: LaneLog)
    requires MarkedExactly(log)
    ensures MarkedExactly(LogPop(log))
  {
    hide Advance, Replaced;
  }
}
