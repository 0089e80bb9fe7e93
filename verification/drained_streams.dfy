/** Streams that stay open deliver: every move of a directive is progress, and enough moves end on the endpoint. */
module DrainedStreams {
  import opened Prelude
  import opened RegistrySpec
  import opened RegistryInvariants
  import opened RegistryRuns
  import opened Delivery

  /** The moves of a directive that can happen next. */
  predicate Enabled(l: Link, q: seq<Directive>, e: LinkEvent)
  {
    match e
    case Forwarded => l.forwarding && q != []
    case SendTaken => l.open && l.sendTask.None? && l.sendQueue != []
    case Yielded => l.sendTask.Some?
    case Received => l.wire != []
    case _ => false
  }

  /** How many moves what is queued or in transit has ahead of it. */
  function Ahead(l: Link, q: seq<Directive>): nat
  {
    4 * |q| + 3 * |l.sendQueue| + 2 * |Held(l.sendTask)| + |l.wire|
  }

  /** Every enabled move brings one directive one place further; nothing is enabled only when nothing is left. */
  lemma MovesAreProgress(l: Link, q: seq<Directive>, n: nat, e: LinkEvent)
    requires |q| <= n && Enabled(l, q, e)
    ensures var (l', q') := LinkStep(l, q, n, e);
      && Ahead(l', q') == Ahead(l, q) - 1 && |q'| <= |q|
      && l'.open == l.open && l'.forwarding == l.forwarding && l'.stale == l.stale
  {
  }

  /** Only a stream that breaks while it holds the newest directive loses it. */
  lemma OnlyLossesMakeStale(l: Link, q: seq<Directive>, n: nat, e: LinkEvent)
    requires LinkStep(l, q, n, e).0.stale && !l.stale
    ensures e.Broken? && InTransit(l) != [] && q == []
  {
  }

  lemma SomethingMoves(l: Link, q: seq<Directive>)
    requires l.open && l.forwarding && Ahead(l, q) > 0
    ensures exists e :: Enabled(l, q, e)
  {
    var e :=
      if l.wire != [] then Received
      else if l.sendTask.Some? then Yielded
      else if l.sendQueue != [] then SendTaken
      else Forwarded;
    assert Enabled(l, q, e);
  }

  /** A stream left to itself: every step is an enabled move. */
  ghost predicate Undisturbed(l: Link, q: seq<Directive>, n: nat, steps: seq<LinkEvent>)
    decreases |steps|
  {
    steps != [] ==>
      && Enabled(l, q, steps[0])
      && Undisturbed(LinkStep(l, q, n, steps[0]).0, LinkStep(l, q, n, steps[0]).1, n, steps[1..])
  }

  function RunLink(l: Link, q: seq<Directive>, n: nat, steps: seq<LinkEvent>): (Link, seq<Directive>)
    decreases |steps|
  {
    if steps == [] then (l, q)
    else RunLink(LinkStep(l, q, n, steps[0]).0, LinkStep(l, q, n, steps[0]).1, n, steps[1..])
  }

  /** However its moves interleave, an undisturbed stream comes to rest after exactly as many as lie ahead. */
  lemma {:induction false} StreamsComeToRest(l: Link, q: seq<Directive>, endpoint: string, log: seq<Directive>, steps: seq<LinkEvent>)
    requires LinkOk(l, q, endpoint, log) && Alternating(log) && LastTarget(log) == endpoint
    requires Undisturbed(l, q, |log|, steps)
    ensures var (l', q') := RunLink(l, q, |log|, steps);
      && LinkOk(l', q', endpoint, log) && l'.stale == l.stale
      && Ahead(l', q') + |steps| == Ahead(l, q)
    decreases |steps|
  {
    if steps != [] {
      var (l', q') := LinkStep(l, q, |log|, steps[0]);
      LinkStepKeepsOk(l, q, endpoint, log, steps[0]);
      MovesAreProgress(l, q, |log|, steps[0]);
      StreamsComeToRest(l', q', endpoint, log, steps[1..]);
    }
  }

  /**
   In every run, whatever order the moves of an undisturbed stream take, after all that lie ahead its worker uses the
   coordinator's endpoint, unless the newest directive died with an earlier stream.
   */
  lemma UndisturbedStreamsDeliver(events: seq<NetEvent>, i: nat, steps: seq<LinkEvent>)
    requires var n := ExecuteNet(events);
      && i < |n.links| && n.links[i].Some? && !n.links[i].value.stale
      && Undisturbed(n.links[i].value, n.state.workers[i].queue, |n.state.log|, steps)
      && |steps| == Ahead(n.links[i].value, n.state.workers[i].queue)
    ensures var n := ExecuteNet(events);
      var (l, q) := RunLink(n.links[i].value, n.state.workers[i].queue, |n.state.log|, steps);
      && q == [] && InTransit(l) == []
      && l.policyTarget == l.rolloutTarget == Endpoint(n.state)
  {
    var n := ExecuteNet(events);
    ReachableNetsAreOk(events);
    Rests(n, i, steps);
  }

  lemma Rests(n: Net, i: nat, steps: seq<LinkEvent>)
    requires NetOk(n) && i < |n.links| && n.links[i].Some? && !n.links[i].value.stale
    requires Undisturbed(n.links[i].value, n.state.workers[i].queue, |n.state.log|, steps)
    requires |steps| == Ahead(n.links[i].value, n.state.workers[i].queue)
    ensures var (l, q) := RunLink(n.links[i].value, n.state.workers[i].queue, |n.state.log|, steps);
      && q == [] && InTransit(l) == []
      && l.policyTarget == l.rolloutTarget == Endpoint(n.state)
  {
    var log := n.state.log;
    StreamsComeToRest(n.links[i].value, n.state.workers[i].queue, Endpoint(n.state), log, steps);
    var (l, q) := RunLink(n.links[i].value, n.state.workers[i].queue, |log|, steps);
    assert q == [] && InTransit(l) == [];
    DrainedIsOnCourse(l, Endpoint(n.state), log);
  }

  /** A pushed switch makes up for every switch lost before it. */
  lemma SwitchesMakeUp(n: Net, c: Event)
    requires |n.links| == |n.state.workers| && IsLearnerEvent(c) && |Next(n.state, c).log| > |n.state.log|
    ensures var n' := AdvanceNet(n, Calls(c));
      forall i :: 0 <= i < |n'.links| && n'.links[i].Some? ==>
        n.links[i].Some? && n'.links[i] == Some(n.links[i].value.(stale := false))
  {
    LearnerCallNet(n, c, Next(n.state, c));
  }
}
