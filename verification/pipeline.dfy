/**
 The rollout pipeline of one worker: any number of simulator threads and one publisher thread, interleaved
 at their mutex regions. A simulator iteration touches shared state only in its single enqueue.
 */
module Pipeline {
  import opened Prelude
  import opened Trajectory
  import opened SimulatorSpec
  import opened Publishing

  datatype Pipe = Pipe(sims: seq<Sim>, pub: Publisher)

  datatype PipeEvent = Simulates(sim: nat, tick: Tick) | Collects | HandsOver

  ghost predicate HeadsOk(p: Pipe)
  {
    forall i :: 0 <= i < |p.sims| ==> AtLoopHead(p.sims[i])
  }

  /** Offer the fragment an iteration emitted, if it emitted one. */
  function OfferNew(c: PublisherConfig, pub: Publisher, before: Sim, after: Sim): Publisher
  {
    if |after.emitted| > |before.emitted| then Offer(c, pub, after.emitted[|after.emitted| - 1]).0 else pub
  }

  /** What the publisher holds after a thread has run through these ticks undisturbed. */
  function OfferAll(cfg: Config, c: PublisherConfig, pub: Publisher, s: Sim, ticks: seq<Tick>): Publisher
    requires AtLoopHead(s)
  {
    if ticks == [] then pub
    else
      var before := ticks[..|ticks| - 1];
      OfferNew(c, OfferAll(cfg, c, pub, s, before), RunTicks(cfg, s, before), RunTicks(cfg, s, ticks))
  }

  function PipeStep(cfg: Config, c: PublisherConfig, p: Pipe, e: PipeEvent): (p': Pipe)
    requires HeadsOk(p)
    ensures HeadsOk(p')
  {
    match e
    case Simulates(i, tick) =>
      if i < |p.sims| then
        var after := Iterate(cfg, p.sims[i], tick);
        IterateStaysAtHead(cfg, p.sims[i], tick);
        Pipe(p.sims[i := after], OfferNew(c, p.pub, p.sims[i], after))
      else p
    case Collects => p.(pub := Collect(c, p.pub))
    case HandsOver => p.(pub := HandOver(p.pub))
  }

  function RunPipe(cfg: Config, c: PublisherConfig, start: seq<Sim>, events: seq<PipeEvent>): (p: Pipe)
    requires HeadsOk(Pipe(start, EmptyPublisher))
    ensures HeadsOk(p)
  {
    if events == [] then Pipe(start, EmptyPublisher)
    else PipeStep(cfg, c, RunPipe(cfg, c, start, events[..|events| - 1]), events[|events| - 1])
  }

  /** Freshly booted simulators, numbered by position. */
  ghost predicate Booted(cfg: Config, start: seq<Sim>)
  {
    forall i :: 0 <= i < |start| ==>
      && start[i].id == i && start[i].emitted == []
      && ShapeOk(cfg, start[i]) && ConservationOk(start[i])
  }

  /** Accepted rollouts are emitted ones; those of one simulator were accepted in the order of their ids. */
  ghost predicate AcceptedOk(sims: seq<Sim>, accepted: seq<Rollout>)
  {
    && (forall k :: 0 <= k < |accepted| ==>
          && accepted[k].simId < |sims| && accepted[k].id < |sims[accepted[k].simId].emitted|
          && accepted[k] == sims[accepted[k].simId].emitted[accepted[k].id])
    && (forall j, k :: 0 <= j < k < |accepted| && accepted[j].simId == accepted[k].simId ==> accepted[j].id < accepted[k].id)
  }

  ghost predicate PipeOk(cfg: Config, c: PublisherConfig, p: Pipe)
  {
    && (forall i :: 0 <= i < |p.sims| ==> p.sims[i].id == i && ShapeOk(cfg, p.sims[i]) && ConservationOk(p.sims[i]))
    && PublisherOk(c, p.pub)
    && AcceptedOk(p.sims, p.pub.accepted)
  }

  /** An iteration appends at most one fragment. */
  lemma IterateEmitsAtMostOne(cfg: Config, s: Sim, t: Tick)
    requires AtLoopHead(s)
    ensures var s' := Iterate(cfg, s, t);
      && s'.id == s.id && |s.emitted| <= |s'.emitted| <= |s.emitted| + 1 && s'.emitted[..|s.emitted|] == s.emitted
  {
    if s.running && t.Stepped? && t.terminal {
      var s1 := Complete(cfg, s, t.reward, t.terminal);
      var ctx := if cfg.neural then ResetContext(t.version) else s1.ctx;
      ReseedIsQuiet(cfg, s1.(next := None, buffer := EmptyBuffer, ctx := ctx), t.resets);
    }
  }

  lemma EmissionKeepsAccepted(sims: seq<Sim>, accepted: seq<Rollout>, i: nat, after: Sim)
    requires AcceptedOk(sims, accepted) && i < |sims|
    requires |sims[i].emitted| <= |after.emitted| && after.emitted[..|sims[i].emitted|] == sims[i].emitted
    ensures AcceptedOk(sims[i := after], accepted)
  {
    assert forall n :: 0 <= n < |sims[i].emitted| ==> after.emitted[n] == sims[i].emitted[n];
  }

  lemma AcceptNew(sims: seq<Sim>, accepted: seq<Rollout>, r: Rollout)
    requires AcceptedOk(sims, accepted) && r.simId < |sims|
    requires sims[r.simId].emitted != [] && r.id == |sims[r.simId].emitted| - 1 && r == sims[r.simId].emitted[r.id]
    requires forall k :: 0 <= k < |accepted| && accepted[k].simId == r.simId ==> accepted[k].id < r.id
    ensures AcceptedOk(sims, accepted + [r])
  {
  }

  lemma SimulateKeeps(cfg: Config, c: PublisherConfig, p: Pipe, i: nat, tick: Tick)
    requires cfg.publisher && HeadsOk(p) && PipeOk(cfg, c, p) && i < |p.sims|
    ensures PipeOk(cfg, c, PipeStep(cfg, c, p, Simulates(i, tick)))
  {
    var before, after := p.sims[i], Iterate(cfg, p.sims[i], tick);
    IterateConserves(cfg, before, tick);
    IterateShapes(cfg, before, tick);
    IterateEmitsAtMostOne(cfg, before, tick);
    var sims := p.sims[i := after];
    EmissionKeepsAccepted(p.sims, p.pub.accepted, i, after);
    if |after.emitted| > |before.emitted| {
      var r := after.emitted[|after.emitted| - 1];
      OfferKeeps(c, p.pub, r);
      if Offer(c, p.pub, r).1 {
        AcceptNew(sims, p.pub.accepted, r);
      }
    }
  }

  lemma {:induction false} ReachablePipesAreOk(cfg: Config, c: PublisherConfig, start: seq<Sim>, events: seq<PipeEvent>)
    requires cfg.publisher && Booted(cfg, start)
    ensures HeadsOk(Pipe(start, EmptyPublisher)) && PipeOk(cfg, c, RunPipe(cfg, c, start, events))
  {
    if events != [] {
      ReachablePipesAreOk(cfg, c, start, events[..|events| - 1]);
      var p := RunPipe(cfg, c, start, events[..|events| - 1]);
      match events[|events| - 1]
      case Simulates(i, tick) => if i < |p.sims| { SimulateKeeps(cfg, c, p, i, tick); }
      case Collects => CollectKeeps(c, p.pub);
      case HandsOver => HandOverKeeps(c, p.pub);
    }
  }

  // ----- what the learner can rely on -----

  lemma {:induction false} StepsOfPrefix(emitted: seq<Rollout>, k: nat)
    requires k <= |emitted|
    ensures StepsOf(emitted[..k]) <= StepsOf(emitted)
    decreases |emitted|
  {
    if k == |emitted| {
      assert emitted[..k] == emitted;
    } else {
      var front := emitted[..|emitted| - 1];
      assert front[..k] == emitted[..k];
      StepsOfPrefix(front, k);
    }
  }

  /** Fragment k occupies the steps from Offset(k) to Offset(k + 1). */
  lemma FragmentPosition(s: Sim, k: nat)
    requires ConservationOk(s) && k < |s.emitted|
    ensures Offset(s.emitted, k) <= Offset(s.emitted, k + 1) <= |s.completed|
    ensures s.completed[Offset(s.emitted, k)..Offset(s.emitted, k + 1)] == s.emitted[k].steps
  {
    var upTo := s.emitted[..k + 1];
    assert upTo[..|upTo| - 1] == s.emitted[..k];
    StepsOfPrefix(s.emitted, k + 1);
    assert StepsOf(upTo) <= s.completed;
    assert s.completed[..|StepsOf(upTo)|] == StepsOf(upTo);
  }

  /**
   In every interleaving: what was published, in order, is a prefix of what was accepted; every published rollout
   is an emitted one, those of one simulator in id order; and each simulator's steps are its fragments plus its buffer.
   */
  lemma PublishedIsOrdered(cfg: Config, c: PublisherConfig, start: seq<Sim>, events: seq<PipeEvent>)
    requires cfg.publisher && Booted(cfg, start)
    ensures HeadsOk(Pipe(start, EmptyPublisher))
    ensures var p := RunPipe(cfg, c, start, events); var out := Flatten(p.pub.published);
      && out <= p.pub.accepted
      && AcceptedOk(p.sims, out)
      && forall i :: 0 <= i < |p.sims| ==> p.sims[i].completed == StepsOf(p.sims[i].emitted) + p.sims[i].buffer.steps
  {
    ReachablePipesAreOk(cfg, c, start, events);
    var p := RunPipe(cfg, c, start, events);
    var out := Flatten(p.pub.published);
    assert p.pub.accepted == out + (p.pub.inFlight + p.pub.queue);
    assert forall k :: 0 <= k < |out| ==> out[k] == p.pub.accepted[k];
  }

  /** Two published rollouts of one simulator with consecutive ids are adjacent in its completed steps. */
  lemma ConsecutiveIdsAreAdjacent(cfg: Config, c: PublisherConfig, start: seq<Sim>, events: seq<PipeEvent>, r: Rollout, r': Rollout)
    requires cfg.publisher && Booted(cfg, start)
    requires HeadsOk(Pipe(start, EmptyPublisher))
    requires r in Flatten(RunPipe(cfg, c, start, events).pub.published)
    requires r' in Flatten(RunPipe(cfg, c, start, events).pub.published)
    requires r'.simId == r.simId && r'.id == r.id + 1
    ensures var p := RunPipe(cfg, c, start, events);
      && r.simId < |p.sims|
      && exists a :: OccursAt(p.sims[r.simId].completed, a, r.steps + r'.steps)
  {
    PublishedIsOrdered(cfg, c, start, events);
    ReachablePipesAreOk(cfg, c, start, events);
    NeighboursAreAdjacent(RunPipe(cfg, c, start, events).sims[r.simId], r.id);
  }

  ghost predicate OccursAt(all: seq<Step>, a: nat, part: seq<Step>)
  {
    a + |part| <= |all| && all[a..a + |part|] == part
  }

  lemma NeighboursAreAdjacent(s: Sim, k: nat)
    requires ConservationOk(s) && k + 1 < |s.emitted|
    ensures OccursAt(s.completed, Offset(s.emitted, k), s.emitted[k].steps + s.emitted[k + 1].steps)
  {
    FragmentPosition(s, k);
    FragmentPosition(s, k + 1);
    var a, b, d := Offset(s.emitted, k), Offset(s.emitted, k + 1), Offset(s.emitted, k + 2);
    assert s.completed[a..d] == s.completed[a..b] + s.completed[b..d];
  }

  // ----- what is offered -----

  /** A fragment that a simulator emits is offered at once: it joins the queue iff streaming is on and there is room. */
  lemma EmittedIsOffered(cfg: Config, c: PublisherConfig, p: Pipe, i: nat, tick: Tick)
    requires HeadsOk(p) && i < |p.sims|
    ensures var p' := PipeStep(cfg, c, p, Simulates(i, tick));
      && (forall j :: 0 <= j < |p.sims| && j != i ==> p'.sims[j] == p.sims[j]) && |p'.sims| == |p.sims|
      && p'.pub.inFlight == p.pub.inFlight && p'.pub.published == p.pub.published
      && (p'.sims[i].emitted == p.sims[i].emitted || Emits(p.sims[i], p'.sims[i]))
      && (p'.sims[i].emitted == p.sims[i].emitted ==> p'.pub == p.pub)
      && (Emits(p.sims[i], p'.sims[i]) ==>
            var r := p'.sims[i].emitted[|p.sims[i].emitted|];
            if c.streaming && |p.pub.queue| < c.depth
            then p'.pub.accepted == p.pub.accepted + [r] && p'.pub.queue == p.pub.queue + [r]
            else p'.pub == p.pub)
  {
    IterateEmitsAtMostOne(cfg, p.sims[i], tick);
    var before, after := p.sims[i].emitted, Iterate(cfg, p.sims[i], tick).emitted;
    if |after| == |before| {
      assert after == before;
    } else {
      assert after == before + [after[|before|]];
    }
  }

  /** The iteration from s to s' ended a fragment. */
  ghost predicate Emits(s: Sim, s': Sim)
  {
    |s'.emitted| == |s.emitted| + 1 && s'.emitted == s.emitted + [s'.emitted[|s.emitted|]]
  }

  /** The rollouts of one simulator, in order. */
  function OfSim(rollouts: seq<Rollout>, i: nat): seq<Rollout>
  {
    if rollouts == [] then []
    else
      var last := rollouts[|rollouts| - 1];
      OfSim(rollouts[..|rollouts| - 1], i) + if last.simId == i then [last] else []
  }

  lemma OfSimSnoc(rollouts: seq<Rollout>, r: Rollout, i: nat)
    ensures OfSim(rollouts + [r], i) == OfSim(rollouts, i) + if r.simId == i then [r] else []
  {
    assert (rollouts + [r])[..|rollouts|] == rollouts;
  }

  /** In front of every event the publisher takes rollouts and its queue has room. */
  ghost predicate Roomy(cfg: Config, c: PublisherConfig, start: seq<Sim>, events: seq<PipeEvent>)
    requires HeadsOk(Pipe(start, EmptyPublisher))
  {
    c.streaming && forall k :: 0 <= k < |events| ==> HasRoom(cfg, c, start, events, k)
  }

  ghost predicate HasRoom(cfg: Config, c: PublisherConfig, start: seq<Sim>, events: seq<PipeEvent>, k: nat)
    requires HeadsOk(Pipe(start, EmptyPublisher)) && k < |events|
  {
    |RunPipe(cfg, c, start, events[..k]).pub.queue| < c.depth
  }

  ghost predicate AllAccepted(p: Pipe)
  {
    forall i :: 0 <= i < |p.sims| ==> OfSim(p.pub.accepted, i) == p.sims[i].emitted
  }

  lemma AcceptOne(p: Pipe, p': Pipe, i: nat)
    requires AllAccepted(p) && i < |p.sims| == |p'.sims| && Emits(p.sims[i], p'.sims[i])
    requires forall j :: 0 <= j < |p.sims| && j != i ==> p'.sims[j] == p.sims[j]
    requires var r := p'.sims[i].emitted[|p.sims[i].emitted|]; r.simId == i && p'.pub.accepted == p.pub.accepted + [r]
    ensures AllAccepted(p')
  {
    forall j | 0 <= j < |p'.sims| ensures OfSim(p'.pub.accepted, j) == p'.sims[j].emitted {
      OfSimSnoc(p.pub.accepted, p'.sims[i].emitted[|p.sims[i].emitted|], j);
    }
  }

  lemma EmittedIsOwn(cfg: Config, s: Sim, tick: Tick)
    requires cfg.publisher && AtLoopHead(s) && ConservationOk(s)
    ensures var s' := Iterate(cfg, s, tick); Emits(s, s') ==> s'.emitted[|s.emitted|].simId == s.id
  {
    IterateConserves(cfg, s, tick);
    IterateEmitsAtMostOne(cfg, s, tick);
  }

  lemma RoomyAccepts(cfg: Config, c: PublisherConfig, p: Pipe, i: nat, tick: Tick)
    requires cfg.publisher && HeadsOk(p) && PipeOk(cfg, c, p) && AllAccepted(p) && i < |p.sims|
    requires c.streaming && |p.pub.queue| < c.depth
    ensures AllAccepted(PipeStep(cfg, c, p, Simulates(i, tick)))
  {
    var p' := PipeStep(cfg, c, p, Simulates(i, tick));
    EmittedIsOffered(cfg, c, p, i, tick);
    EmittedIsOwn(cfg, p.sims[i], tick);
    if Emits(p.sims[i], p'.sims[i]) {
      AcceptOne(p, p', i);
    }
  }

  /** While there is room nothing is dropped: each simulator's accepted rollouts are exactly its emitted ones. */
  lemma {:induction false} NothingIsDropped(cfg: Config, c: PublisherConfig, start: seq<Sim>, events: seq<PipeEvent>)
    requires cfg.publisher && Booted(cfg, start)
    requires HeadsOk(Pipe(start, EmptyPublisher)) && Roomy(cfg, c, start, events)
    ensures AllAccepted(RunPipe(cfg, c, start, events))
  {
    if events != [] {
      var before := events[..|events| - 1];
      forall k | 0 <= k < |before| ensures HasRoom(cfg, c, start, before, k) {
        assert HasRoom(cfg, c, start, events, k) && before[..k] == events[..k];
      }
      NothingIsDropped(cfg, c, start, before);
      ReachablePipesAreOk(cfg, c, start, before);
      assert HasRoom(cfg, c, start, events, |events| - 1);
      var p, e := RunPipe(cfg, c, start, before), events[|events| - 1];
      if e.Simulates? && e.sim < |p.sims| {
        RoomyAccepts(cfg, c, p, e.sim, e.tick);
      }
    }
  }
}
