/** The other threads of a process: the application that shares a link with its
    transport worker. Every operation on the link takes its lock
    (crates/ladoflow-transport/src/loopback.rs:136-162), so between any two of
    the worker's operations the application may have done any number of its own. */
module Applications {
  import opened Wrappers
  import opened Words
  import opened Packets
  import opened Loopback

  datatype AppStep = AppSends(packet: Packet) | AppTakes(channel: Channel) | AppCuts

  function AppDo(s: LinkState, side: Side, a: AppStep): LinkState {
    match a
    case AppSends(p) => SendVia(s, side, p).0
    case AppTakes(ch) => ReceiveVia(s, side, ch).0
    case AppCuts => CutLink(s)
  }

  function AppRun(s: LinkState, side: Side, steps: seq<AppStep>): LinkState
    decreases |steps|
  {
    if steps == [] then s else AppDo(AppRun(s, side, steps[..|steps| - 1]), side, steps[|steps| - 1])
  }

  lemma AppRunMore(s: LinkState, side: Side, steps: seq<AppStep>, a: AppStep)
    ensures AppRun(s, side, steps + [a]) == AppDo(AppRun(s, side, steps), side, a)
  {
    assert (steps + [a])[..|steps|] == steps;
  }

  lemma NothingDone(s: LinkState, side: Side)
    ensures AppRun(s, side, []) == s
  {
  }

  function Opposite(side: Side): Side { if side.First? then Second else First }

  /** An application that follows an arbitrary plan: what it does in each of
      the intervals it is given. */
  class Application {
    var plan: seq<seq<AppStep>>

    constructor (plan: seq<seq<AppStep>>)
      ensures this.plan == plan
    {
      this.plan := plan;
    }

    method Act(link: Link, side: Side) returns (ghost steps: seq<AppStep>)
      requires link.Valid() && this !in link.Objects()
      modifies this, link.Objects()
      ensures link.Valid() && link.State() == AppRun(old(link.State()), side, steps)
    {
      hide AppDo, AppRun, Link.Valid, Link.State;
      steps := [];
      NothingDone(link.State(), side);
      if plan == [] {
        return;
      }
      var todo := plan[0];
      plan := plan[1..];
      ghost var s := link.State();
      assert todo[..0] == [];
      var i := 0;
      while i < |todo|
        invariant 0 <= i <= |todo| && link.Valid()
        invariant link.State() == AppRun(s, side, todo[..i])
      {
        AppRunMore(s, side, todo[..i], todo[i]);
        assert todo[..i + 1] == todo[..i] + [todo[i]];
        Perform(link, side, todo[i]);
        i := i + 1;
      }
      steps := todo[..i];
    }

    static method Perform(link: Link, side: Side, a: AppStep)
      requires link.Valid()
      modifies link.Objects()
      ensures link.Valid() && link.State() == AppDo(old(link.State()), side, a)
    {
      hide SendVia, ReceiveVia, CutLink, Link.Valid, Link.State;
      match a
      case AppSends(p) => var _ := link.TrySend(side, p);
      case AppTakes(ch) => var _ := link.TryReceive(side, ch);
      case AppCuts => var _ := link.Disconnect();
    }
  }
}
