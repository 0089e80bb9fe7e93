/** The rollout publisher: a bounded queue filled by simulator threads and drained in batches by one thread. */
module Publishing {
  import opened Prelude
  import opened Trajectory

  datatype PublisherConfig = PublisherConfig(streaming: bool, depth: nat, batch: nat)

  // inFlight is the batch between its mutex region and the handler; accepted is history.
  datatype Publisher = Publisher(
    queue: seq<Rollout>, inFlight: seq<Rollout>, published: seq<seq<Rollout>>, accepted: seq<Rollout>)

  const EmptyPublisher := Publisher([], [], [], [])

  function Offer(c: PublisherConfig, p: Publisher, r: Rollout): (Publisher, bool)
  {
    if !c.streaming || |p.queue| >= c.depth then (p, false)
    else (p.(queue := p.queue + [r], accepted := p.accepted + [r]), true)
  }

  function BatchSize(c: PublisherConfig, p: Publisher): nat
  {
    if |p.queue| < c.batch then |p.queue| else c.batch
  }

  /** The consumer's mutex region; it runs only when the previous batch has been handed over. */
  function Collect(c: PublisherConfig, p: Publisher): Publisher
  {
    if p.inFlight != [] then p
    else
      var n := BatchSize(c, p);
      p.(queue := p.queue[n..], inFlight := p.queue[..n])
  }

  /** Hand the batch to the handler; an empty batch is skipped. */
  function HandOver(p: Publisher): Publisher
  {
    if p.inFlight == [] then p else p.(inFlight := [], published := p.published + [p.inFlight])
  }

  /** Nothing accepted is lost, duplicated or reordered on its way to the handler. */
  ghost predicate PublisherOk(c: PublisherConfig, p: Publisher)
  {
    && p.accepted == Flatten(p.published) + p.inFlight + p.queue
    && |p.queue| <= c.depth && |p.inFlight| <= c.batch
    && forall k :: 0 <= k < |p.published| ==> 1 <= |p.published[k]| <= c.batch
  }

  lemma OfferKeeps(c: PublisherConfig, p: Publisher, r: Rollout)
    requires PublisherOk(c, p)
    ensures var (p', ok) := Offer(c, p, r);
      && PublisherOk(c, p')
      && (ok <==> c.streaming && |p.queue| < c.depth)
      && p'.accepted == p.accepted + (if ok then [r] else [])
  {
    var (p', ok) := Offer(c, p, r);
    if ok {
      assert Flatten(p.published) + p.inFlight + (p.queue + [r]) == Flatten(p.published) + p.inFlight + p.queue + [r];
    }
  }

  lemma CollectKeeps(c: PublisherConfig, p: Publisher)
    requires PublisherOk(c, p)
    ensures PublisherOk(c, Collect(c, p)) && Collect(c, p).accepted == p.accepted
    ensures c.batch >= 1 && p.inFlight == [] && p.queue != [] ==> |Collect(c, p).queue| < |p.queue|
  {
    var n := BatchSize(c, p);
    assert p.queue == p.queue[..n] + p.queue[n..];
  }

  lemma HandOverKeeps(c: PublisherConfig, p: Publisher)
    requires PublisherOk(c, p)
    ensures PublisherOk(c, HandOver(p)) && HandOver(p).accepted == p.accepted
  {
    if p.inFlight != [] {
      FlattenSnoc(p.published, p.inFlight);
    }
  }

  datatype PublisherEvent = Offers(r: Rollout) | Collects | HandsOver

  function PublisherStep(c: PublisherConfig, p: Publisher, e: PublisherEvent): Publisher
  {
    match e
    case Offers(r) => Offer(c, p, r).0
    case Collects => Collect(c, p)
    case HandsOver => HandOver(p)
  }

  function RunPublisher(c: PublisherConfig, events: seq<PublisherEvent>): Publisher
  {
    if events == [] then EmptyPublisher
    else PublisherStep(c, RunPublisher(c, events[..|events| - 1]), events[|events| - 1])
  }

  /** Any interleaving of producers and the consumer. */
  lemma {:induction false} PublisherIsFifo(c: PublisherConfig, events: seq<PublisherEvent>)
    ensures PublisherOk(c, RunPublisher(c, events))
  {
    if events != [] {
      var p := RunPublisher(c, events[..|events| - 1]);
      PublisherIsFifo(c, events[..|events| - 1]);
      match events[|events| - 1]
      case Offers(r) => OfferKeeps(c, p, r);
      case Collects => CollectKeeps(c, p);
      case HandsOver => HandOverKeeps(c, p);
    }
  }

  /** With a batch limit of zero the consumer never publishes anything, in any run. */
  lemma {:induction false} ZeroBatchPublishesNothing(c: PublisherConfig, events: seq<PublisherEvent>)
    requires c.batch == 0
    ensures RunPublisher(c, events).published == [] && RunPublisher(c, events).inFlight == []
  {
    if events != [] {
      ZeroBatchPublishesNothing(c, events[..|events| - 1]);
    }
  }

  // ----- rounds of the consumer -----

  /** One pass of the consumer's loop, with no producer in between. */
  function Round(c: PublisherConfig, p: Publisher): Publisher
  {
    HandOver(Collect(c, p))
  }

  function Rounds(c: PublisherConfig, p: Publisher, n: nat): Publisher
    decreases n
  {
    if n == 0 then p else Rounds(c, Round(c, p), n - 1)
  }

  /** A round publishes exactly the oldest entries, as many as the batch limit allows, as one batch. */
  lemma RoundPublishesOldest(c: PublisherConfig, p: Publisher)
    requires c.batch >= 1 && p.inFlight == []
    ensures var p' := Round(c, p);
      && p'.inFlight == [] && p'.accepted == p.accepted
      && (p.queue == [] ==> p' == p)
      && (p.queue != [] ==> exists batch ::
            && p'.published == p.published + [batch] && p.queue == batch + p'.queue
            && 1 <= |batch| <= c.batch && (|batch| < c.batch ==> p'.queue == []))
  {
    if p.queue != [] {
      var batch := p.queue[..BatchSize(c, p)];
      assert p.queue == batch + Round(c, p).queue;
    }
  }

  lemma RoundKeeps(c: PublisherConfig, p: Publisher)
    requires PublisherOk(c, p)
    ensures PublisherOk(c, Round(c, p)) && Round(c, p).accepted == p.accepted
  {
    CollectKeeps(c, p);
    HandOverKeeps(c, Collect(c, p));
  }

  lemma DrainedIsPublished(c: PublisherConfig, p: Publisher)
    requires PublisherOk(c, p) && p.inFlight == [] && p.queue == []
    ensures Flatten(p.published) == p.accepted
  {
    assert Flatten(p.published) + [] + [] == Flatten(p.published);
  }

  lemma RoundShrinks(c: PublisherConfig, p: Publisher, n: nat)
    requires c.batch >= 1 && p.inFlight == [] && |p.queue| <= n + 1
    ensures |Round(c, p).queue| <= n && Round(c, p).inFlight == []
  {
  }

  /** With a positive limit the consumer publishes all that was accepted, in at most as many rounds as are queued. */
  lemma {:induction false} RoundsPublishAll(c: PublisherConfig, p: Publisher, n: nat)
    requires c.batch >= 1 && p.inFlight == [] && PublisherOk(c, p) && |p.queue| <= n
    ensures var p' := Rounds(c, p, n);
      p'.queue == [] && p'.inFlight == [] && Flatten(p'.published) == p.accepted == p'.accepted
    decreases n
  {
    if n == 0 {
      DrainedIsPublished(c, p);
    } else {
      RoundKeeps(c, p);
      RoundShrinks(c, p, n - 1);
      RoundsPublishAll(c, Round(c, p), n - 1);
    }
  }

  lemma Shifted<T>(xs: seq<T>, n: nat)
    requires n < |xs|
    ensures xs[..n] + [xs[n..][0]] == xs[..n + 1] && xs[n..][1..] == xs[n + 1..]
  {
  }

  class RolloutPublisher {
    const config: PublisherConfig
    var queue: seq<Rollout>
    ghost var inFlight: seq<Rollout>
    ghost var published: seq<seq<Rollout>>
    ghost var accepted: seq<Rollout>

    ghost function Contents(): Publisher
      reads this
    {
      Publisher(queue, inFlight, published, accepted)
    }

    ghost predicate Valid()
      reads this
    {
      PublisherOk(config, Contents())
    }

    constructor (config: PublisherConfig)
      ensures Valid() && Contents() == EmptyPublisher && this.config == config
    {
      this.config := config;
      queue, inFlight, published, accepted := [], [], [], [];
    }

    method Enqueue(rollout: Rollout) returns (ok: bool)
      requires Valid()
      modifies this
      ensures Valid() && (Contents(), ok) == Offer(config, old(Contents()), rollout)
    {
      OfferKeeps(config, Contents(), rollout);
      if !config.streaming { return false; }
      if |queue| >= config.depth { return false; }
      queue := queue + [rollout];
      accepted := accepted + [rollout];
      return true;
    }

    /** One pass of `thread_main` up to the unlock. */
    method CollectBatch() returns (batch: seq<Rollout>)
      requires Valid() && inFlight == []
      modifies this
      ensures Valid() && Contents() == Collect(config, old(Contents())) && batch == inFlight
    {
      ghost var was := Contents();
      CollectKeeps(config, was);
      batch := [];
      while queue != [] && |batch| < config.batch
        invariant |batch| <= |was.queue| && |batch| <= config.batch
        invariant batch == was.queue[..|batch|] && queue == was.queue[|batch|..]
        invariant accepted == was.accepted && published == was.published && inFlight == []
        decreases |queue|
      {
        Shifted(was.queue, |batch|);
        batch := batch + [queue[0]];
        queue := queue[1..];
      }
      inFlight := batch;
      assert |batch| == BatchSize(config, was);
    }

    /** `publish_batch`, with the handler's calls recorded in `published`. */
    method PublishBatch(batch: seq<Rollout>)
      requires Valid() && batch == inFlight
      modifies this`inFlight, this`published
      ensures Valid() && Contents() == HandOver(old(Contents()))
    {
      HandOverKeeps(config, Contents());
      if batch == [] { return; }
      published, inFlight := published + [batch], [];
    }
  }
}
