/**
 Directives on their way to the workers. A worker's heartbeat stream moves directives from its record
 queue through a forwarder, a send queue and a send task onto the wire, and the worker applies them.
 Each worker has at most one live stream.
 */
module Delivery {
  import opened Prelude
  import opened RegistrySpec
  import opened RegistryInvariants
  import opened RegistryRuns

  // `applied` lists what arrived on the current stream. Two history variables: `at` holds the log position
  // of each directive in applied + InTransit, and `stale` says that the newest directive died with a stream.
  datatype Link = Link(
    policyTarget: string, rolloutTarget: string,
    open: bool, forwarding: bool,
    sendQueue: seq<Directive>, sendTask: Option<Directive>, wire: seq<Directive>,
    applied: seq<Directive>, at: seq<nat>, stale: bool)

  function Held(task: Option<Directive>): seq<Directive>
  {
    if task.Some? then [task.value] else []
  }

  function InTransit(l: Link): seq<Directive>
  {
    l.wire + Held(l.sendTask) + l.sendQueue
  }

  /** A worker that has just started uses the target of its session for policies and rollouts. */
  function StartLink(target: string): Link
  {
    Link(target, target, false, false, [], None, [], [], [], false)
  }

  function Apply(l: Link, d: Directive): Link
  {
    if d.kind == SwitchLearner then l.(policyTarget := d.target, rolloutTarget := d.target) else l
  }

  datatype LinkEvent = Opened | Heartbeat | Forwarded | SendTaken | Yielded | Received | Broken

  /** One step of a link; q is the worker's record queue and n the length of the directive log. */
  function LinkStep(l: Link, q: seq<Directive>, n: nat, e: LinkEvent): (Link, seq<Directive>)
  {
    match e
    case Opened => if l.open then (l, q) else (l.(open := true, applied := [], at := []), q)
    case Heartbeat => (if l.open then l.(forwarding := true) else l, q)
    case Forwarded =>
      if l.forwarding && q != [] && |q| <= n
      then (l.(sendQueue := l.sendQueue + [q[0]], at := l.at + [n - |q|]), q[1..])
      else (l, q)
    case SendTaken =>
      if l.open && l.sendTask.None? && l.sendQueue != []
      then (l.(sendTask := Some(l.sendQueue[0]), sendQueue := l.sendQueue[1..]), q)
      else (l, q)
    case Yielded =>
      if l.sendTask.Some? then (l.(wire := l.wire + [l.sendTask.value], sendTask := None), q) else (l, q)
    case Received =>
      if l.wire != []
      then (Apply(l, l.wire[0]).(wire := l.wire[1..], applied := l.applied + [l.wire[0]]), q)
      else (l, q)
    case Broken =>
      (l.(open := false, forwarding := false, sendQueue := [], sendTask := None, wire := [], applied := [], at := [],
          stale := l.stale || (InTransit(l) != [] && q == [])), q)
  }

  // ----- one stream: order and no duplication -----

  /** The directives of `sent` are those at the strictly increasing log positions `at`, all below `end`. */
  ghost predicate Placed(sent: seq<Directive>, at: seq<nat>, end: int, log: seq<Directive>)
    requires end <= |log|
  {
    && |at| == |sent|
    && (forall k :: 0 <= k < |sent| ==> at[k] < end && log[at[k]] == sent[k])
    && (forall j, k :: 0 <= j < k < |sent| ==> at[j] < at[k])
  }

  /** What arrived or is in transit comes in push order, without duplicates, from before the record queue. */
  ghost predicate InPushOrder(l: Link, q: seq<Directive>, log: seq<Directive>)
  {
    Placed(l.applied + InTransit(l), l.at, |log| - |q|, log)
  }

  ghost predicate LinkOk(l: Link, q: seq<Directive>, endpoint: string, log: seq<Directive>)
  {
    && l.policyTarget == l.rolloutTarget
    && (!l.open ==> !l.forwarding && InTransit(l) == [])
    && InPushOrder(l, q, log)
    && IsSuffix(q, log)
    && (l.stale ==> InTransit(l) == [] && q == [])
    && (!l.stale ==> Settle(l.policyTarget, InTransit(l) + q) == endpoint)
  }

  lemma ForwardKeepsOk(l: Link, q: seq<Directive>, endpoint: string, log: seq<Directive>)
    requires LinkOk(l, q, endpoint, log) && l.forwarding && q != []
    ensures var (l', q') := LinkStep(l, q, |log|, Forwarded); LinkOk(l', q', endpoint, log)
  {
    var (l', q') := LinkStep(l, q, |log|, Forwarded);
    assert l'.applied + InTransit(l') == l.applied + InTransit(l) + [q[0]];
    assert InTransit(l') + q' == InTransit(l) + q by { assert q == [q[0]] + q'; }
    assert q[0] == log[|log| - |q|];
    SuffixTrans(q', q, log);
  }

  /** Moving a directive between the send queue, the send task and the wire changes nothing else. */
  lemma ShiftKeepsOk(l: Link, q: seq<Directive>, endpoint: string, log: seq<Directive>, e: LinkEvent)
    requires LinkOk(l, q, endpoint, log) && (e.SendTaken? || e.Yielded?)
    ensures var (l', q') := LinkStep(l, q, |log|, e); LinkOk(l', q', endpoint, log) && InTransit(l') == InTransit(l)
  {
    var l' := LinkStep(l, q, |log|, e).0;
    if e.SendTaken? && l.sendQueue != [] {
      assert l.sendQueue == [l.sendQueue[0]] + l.sendQueue[1..];
    }
    assert InTransit(l') == InTransit(l);
  }

  lemma ReceiveKeepsOk(l: Link, q: seq<Directive>, endpoint: string, log: seq<Directive>)
    requires LinkOk(l, q, endpoint, log) && Alternating(log) && l.wire != []
    ensures var (l', q') := LinkStep(l, q, |log|, Received); LinkOk(l', q', endpoint, log)
  {
    var (l', q') := LinkStep(l, q, |log|, Received);
    var sent := l.applied + InTransit(l);
    ReceiveShifts(l, q, |log|);
    assert sent[|l.applied|] == l.wire[0];
    assert l.wire[0] in log;
    SettleStep(l.policyTarget, l.wire[0], InTransit(l') + q);
  }

  /** The head of the wire moves over to what has been applied. */
  lemma ReceiveShifts(l: Link, q: seq<Directive>, n: nat)
    requires l.wire != []
    ensures var l' := LinkStep(l, q, n, Received).0;
      && InTransit(l) == [l.wire[0]] + InTransit(l')
      && l'.applied + InTransit(l') == l.applied + InTransit(l)
      && InTransit(l) + q == [l.wire[0]] + (InTransit(l') + q)
  {
    assert l.wire == [l.wire[0]] + l.wire[1..];
  }

  lemma SettleStep(told: string, d: Directive, rest: seq<Directive>)
    ensures Settle(told, [d] + rest) == Settle(d.target, rest)
  {
  }

  lemma LastOfSuffix(q: seq<Directive>, log: seq<Directive>)
    requires IsSuffix(q, log) && q != []
    ensures q[|q| - 1].target == LastTarget(log)
  {
  }

  lemma BreakKeepsOk(l: Link, q: seq<Directive>, endpoint: string, log: seq<Directive>)
    requires LinkOk(l, q, endpoint, log) && LastTarget(log) == endpoint
    ensures var (l', q') := LinkStep(l, q, |log|, Broken); LinkOk(l', q', endpoint, log)
  {
    var l' := LinkStep(l, q, |log|, Broken).0;
    assert InTransit(l') == [] && l'.applied + InTransit(l') == [];
    if q != [] {
      LastOfSuffix(q, log);
      assert InTransit(l') + q == q;
    } else {
      assert InTransit(l) == [] ==> InTransit(l) + q == InTransit(l') + q;
    }
  }

  lemma OpenKeepsOk(l: Link, q: seq<Directive>, endpoint: string, log: seq<Directive>)
    requires LinkOk(l, q, endpoint, log)
    ensures LinkStep(l, q, |log|, Opened).1 == q && LinkOk(LinkStep(l, q, |log|, Opened).0, q, endpoint, log)
  {
    var l' := LinkStep(l, q, |log|, Opened).0;
    assert InTransit(l') == InTransit(l);
    assert !l.open ==> l'.applied + InTransit(l') == [];
  }

  lemma HeartbeatKeepsOk(l: Link, q: seq<Directive>, endpoint: string, log: seq<Directive>)
    requires LinkOk(l, q, endpoint, log)
    ensures LinkStep(l, q, |log|, Heartbeat).1 == q && LinkOk(LinkStep(l, q, |log|, Heartbeat).0, q, endpoint, log)
  {
    assert InTransit(LinkStep(l, q, |log|, Heartbeat).0) == InTransit(l);
  }

  lemma LinkStepKeepsOk(l: Link, q: seq<Directive>, endpoint: string, log: seq<Directive>, e: LinkEvent)
    requires LinkOk(l, q, endpoint, log) && Alternating(log) && LastTarget(log) == endpoint
    ensures var (l', q') := LinkStep(l, q, |log|, e); LinkOk(l', q', endpoint, log) && IsSuffix(q', q)
  {
    match e
    case Opened => OpenKeepsOk(l, q, endpoint, log);
    case Heartbeat => HeartbeatKeepsOk(l, q, endpoint, log);
    case Forwarded => if l.forwarding && q != [] { ForwardKeepsOk(l, q, endpoint, log); }
    case SendTaken => ShiftKeepsOk(l, q, endpoint, log, e);
    case Yielded => ShiftKeepsOk(l, q, endpoint, log, e);
    case Received => if l.wire != [] { ReceiveKeepsOk(l, q, endpoint, log); }
    case Broken => BreakKeepsOk(l, q, endpoint, log);
  }

  // ----- all workers, whole runs -----

  // links is indexed like state.workers; a worker that got no usable target at start-up has no link.
  datatype Net = Net(state: State, links: seq<Option<Link>>)

  datatype NetEvent =
    | Starts(hello: WorkerHello, token: string, at: int)                // a worker process registers for the first time
    | Reregisters(i: nat, rehello: WorkerHello, retoken: string, at: int) // a running worker renews its session
    | Calls(e: Event)                                                   // any other coordinator call
    | Moves(worker: nat, step: LinkEvent)

  function OnSwitch(l: Option<Link>): Option<Link>
  {
    if l.Some? then Some(l.value.(stale := false)) else None
  }

  /** The links after a coordinator call: a pushed switch makes up for one that was lost. */
  function CallNet(n: Net, s': State): (n': Net)
    ensures |n'.links| == |n.links|
  {
    Net(s', if |s'.log| > |n.state.log| then seq(|n.links|, i requires 0 <= i < |n.links| => OnSwitch(n.links[i])) else n.links)
  }

  function AdvanceNet(n: Net, e: NetEvent): (n': Net)
    requires |n.links| == |n.state.workers|
    ensures |n'.links| == |n'.state.workers|
  {
    match e
    case Starts(hello, token, at) =>
      var (s', session) := RegisterWorker(n.state, hello, token, at);
      var link := if session.target == "" then None else Some(StartLink(session.target));
      var i := WorkerMatch(n.state.workers, hello);
      Net(s', if i.Some? then n.links[i.value := link] else n.links + [link])
    case Reregisters(i, hello, token, at) =>
      // the client stores the new session but leaves both targets alone
      if WorkerMatch(n.state.workers, hello) == Some(i)
      then n.(state := RegisterWorker(n.state, hello, token, at).0) else n
    case Calls(c) =>
      if c.WorkerJoins? || c.DirectiveTaken? then n
      else
        CallNet(n, Next(n.state, c))
    case Moves(i, step) =>
      if i < |n.links| && n.links[i].Some? then MoveLink(n, i, step) else n
  }

  function WithQueue(s: State, i: nat, q: seq<Directive>): State
    requires i < |s.workers|
  {
    s.(workers := s.workers[i := s.workers[i].(queue := q)])
  }

  function MoveLink(n: Net, i: nat, step: LinkEvent): Net
    requires |n.links| == |n.state.workers| && i < |n.links| && n.links[i].Some?
  {
    var (l', q') := LinkStep(n.links[i].value, n.state.workers[i].queue, |n.state.log|, step);
    Net(WithQueue(n.state, i, q'), n.links[i := Some(l')])
  }

  function ExecuteNet(events: seq<NetEvent>): (n: Net)
    ensures |n.links| == |n.state.workers|
  {
    if events == [] then Net(Initial, []) else AdvanceNet(ExecuteNet(events[..|events| - 1]), events[|events| - 1])
  }

  ghost predicate NetOk(n: Net)
  {
    WellFormed(n.state) && LinksOk(n)
  }

  ghost predicate LinksOk(n: Net)
  {
    && |n.links| == |n.state.workers|
    && forall i :: 0 <= i < |n.links| && n.links[i].Some? ==>
         LinkOk(n.links[i].value, n.state.workers[i].queue, Endpoint(n.state), n.state.log)
  }

  lemma PushKeepsLink(l: Link, q: seq<Directive>, endpoint: string, log: seq<Directive>, d: Directive)
    requires LinkOk(l, q, endpoint, log)
    ensures LinkOk(l.(stale := false), Enqueue(q, d), d.target, log + [d])
  {
    EnqueueKeepsSuffix(q, log, d);
    var l', q' := l.(stale := false), Enqueue(q, d);
    assert InTransit(l') == InTransit(l) && |log + [d]| - |q'| >= |log| - |q|;
    PlacedGrows(l.applied + InTransit(l), l.at, |log| - |q|, |log + [d]| - |q'|, log, d);
    SettleAppend(l.policyTarget, InTransit(l), q');
  }

  lemma PlacedGrows(sent: seq<Directive>, at: seq<nat>, end: int, end': int, log: seq<Directive>, d: Directive)
    requires end <= |log| && end <= end' <= |log + [d]| && Placed(sent, at, end, log)
    ensures Placed(sent, at, end', log + [d])
  {
  }

  lemma SettleAppend(told: string, front: seq<Directive>, q: seq<Directive>)
    requires q != []
    ensures Settle(told, front + q) == q[|q| - 1].target
  {
  }

  lemma MoveKeepsNet(n: Net, i: nat, step: LinkEvent)
    requires NetOk(n) && i < |n.links| && n.links[i].Some?
    ensures NetOk(MoveLink(n, i, step))
  {
    var (l', q') := LinkStep(n.links[i].value, n.state.workers[i].queue, |n.state.log|, step);
    LinkStepKeepsOk(n.links[i].value, n.state.workers[i].queue, Endpoint(n.state), n.state.log, step);
    QueueRewriteKeeps(n.state, i, q');
    ReplaceLinkKeeps(n, i, l', q');
  }

  lemma ReplaceLinkKeeps(n: Net, i: nat, l: Link, q: seq<Directive>)
    requires NetOk(n) && i < |n.links| && LinkOk(l, q, Endpoint(n.state), n.state.log)
    requires WellFormed(WithQueue(n.state, i, q)) && Endpoint(WithQueue(n.state, i, q)) == Endpoint(n.state)
    ensures NetOk(Net(WithQueue(n.state, i, q), n.links[i := Some(l)]))
  {
  }

  lemma QueueRewriteKeeps(s: State, i: nat, q: seq<Directive>)
    requires WellFormed(s) && i < |s.workers| && IsSuffix(q, s.workers[i].queue)
    ensures WellFormed(WithQueue(s, i, q)) && Endpoint(WithQueue(s, i, q)) == Endpoint(s)
  {
    RewriteIsWorkersOnly(s, i, WithQueue(s, i, q).workers[i]);
    WorkersOnlyKeeps(s, WithQueue(s, i, q));
  }

  lemma FreshLinkOk(q: seq<Directive>, endpoint: string, log: seq<Directive>)
    requires IsSuffix(q, log) && LastTarget(log) == endpoint
    ensures LinkOk(StartLink(endpoint), q, endpoint, log)
  {
    var l := StartLink(endpoint);
    assert InTransit(l) == [] && l.applied == [];
    assert [] + q == q;
    SettleOnLast(endpoint, q, log);
  }

  lemma SettleOnLast(endpoint: string, q: seq<Directive>, log: seq<Directive>)
    requires IsSuffix(q, log) && LastTarget(log) == endpoint
    ensures Settle(endpoint, q) == endpoint
  {
    if q != [] { LastOfSuffix(q, log); }
  }

  lemma StartKeepsNet(n: Net, e: NetEvent)
    requires NetOk(n) && e.Starts?
    ensures NetOk(AdvanceNet(n, e))
  {
    var join := WorkerJoins(e.hello, e.token, e.at);
    var n' := AdvanceNet(n, e);
    NextKeepsWellFormed(n.state, join);
    JoinServes(n.state, join);
    forall j | 0 <= j < |n'.links| && n'.links[j].Some?
      ensures LinkOk(n'.links[j].value, n'.state.workers[j].queue, Endpoint(n'.state), n'.state.log)
    {
      if j == |n.links| || n'.links[j] != n.links[j] {
        FreshLinkOk(n'.state.workers[j].queue, Endpoint(n.state), n.state.log);
      }
    }
  }

  lemma ReregisterKeepsNet(n: Net, e: NetEvent)
    requires NetOk(n) && e.Reregisters?
    ensures NetOk(AdvanceNet(n, e))
  {
    var join := WorkerJoins(e.rehello, e.retoken, e.at);
    NextKeepsWellFormed(n.state, join);
    ReregisterKeepsLinks(n, e);
  }

  lemma ReregisterKeepsLinks(n: Net, e: NetEvent)
    requires LinksOk(n) && Settled(n.state) && e.Reregisters?
    ensures LinksOk(AdvanceNet(n, e))
  {
    var n' := AdvanceNet(n, e);
    JoinServes(n.state, WorkerJoins(e.rehello, e.retoken, e.at));
    forall j | 0 <= j < |n'.links| && n'.links[j].Some?
      ensures LinkOk(n'.links[j].value, n'.state.workers[j].queue, Endpoint(n'.state), n'.state.log)
    {
      assert n'.links[j] == n.links[j] && n'.state.workers[j].queue == n.state.workers[j].queue;
    }
  }

  lemma CallKeepsNet(n: Net, c: Event)
    requires NetOk(n) && !c.WorkerJoins? && !c.DirectiveTaken?
    ensures NetOk(AdvanceNet(n, Calls(c)))
  {
    NextKeepsWellFormed(n.state, c);
    CallKeepsLinks(n, c);
  }

  lemma CallKeepsLinks(n: Net, c: Event)
    requires WellFormed(n.state) && LinksOk(n) && !c.WorkerJoins? && !c.DirectiveTaken?
    ensures LinksOk(AdvanceNet(n, Calls(c)))
  {
    var n' := AdvanceNet(n, Calls(c));
    SwitchIffEndpointChanges(n.state, c);
    if !IsLearnerEvent(c) {
      KeepsQueues(n.state, c);
    }
    forall i | 0 <= i < |n'.links| && n'.links[i].Some?
      ensures LinkOk(n'.links[i].value, n'.state.workers[i].queue, Endpoint(n'.state), n'.state.log)
    {
      if Switched(n.state, n'.state) {
        PushKeepsLink(n.links[i].value, n.state.workers[i].queue, Endpoint(n.state), n.state.log,
                      Directive(SwitchLearner, Endpoint(n'.state)));
      }
    }
  }

  lemma {:induction false} ReachableNetsAreOk(events: seq<NetEvent>)
    ensures NetOk(ExecuteNet(events))
  {
    if events != [] {
      var before, e := ExecuteNet(events[..|events| - 1]), events[|events| - 1];
      ReachableNetsAreOk(events[..|events| - 1]);
      match e
      case Starts(_, _, _) => StartKeepsNet(before, e);
      case Reregisters(_, _, _, _) => ReregisterKeepsNet(before, e);
      case Calls(c) => if !c.WorkerJoins? && !c.DirectiveTaken? { CallKeepsNet(before, c); }
      case Moves(i, step) => if i < |before.links| && before.links[i].Some? { MoveKeepsNet(before, i, step); }
    }
  }

  /**
   In every run: the policy and rollout targets of a worker agree, its stream delivers in push order without
   duplicates, and draining the stream leads to the coordinator's endpoint unless the newest directive was lost.
   */
  lemma StreamsDeliver(events: seq<NetEvent>, i: nat)
    requires var n := ExecuteNet(events); i < |n.links| && n.links[i].Some?
    ensures var n := ExecuteNet(events); var l := n.links[i].value; var q := n.state.workers[i].queue;
      && l.policyTarget == l.rolloutTarget
      && InPushOrder(l, q, n.state.log)
      && (!l.stale ==> Settle(l.rolloutTarget, InTransit(l) + q) == Endpoint(n.state))
      && (!l.stale && InTransit(l) == [] && q == [] ==> l.policyTarget == Endpoint(n.state))
  {
    ReachableNetsAreOk(events);
  }

  /** Exactly when a dying stream costs a worker the current endpoint. */
  lemma BreakIsHarmlessIff(l: Link, q: seq<Directive>, endpoint: string, log: seq<Directive>)
    requires LinkOk(l, q, endpoint, log) && !l.stale && LastTarget(log) == endpoint
    ensures var (l', q') := LinkStep(l, q, |log|, Broken);
      (Settle(l'.policyTarget, InTransit(l') + q') == endpoint
       <==> q != [] || InTransit(l) == [] || l.policyTarget == endpoint)
  {
    var l' := LinkStep(l, q, |log|, Broken).0;
    assert InTransit(l') + q == q;
    if q != [] { LastOfSuffix(q, log); }
    assert InTransit(l) == [] && q == [] ==> InTransit(l) + q == [];
  }

  /** What happens to a drained stream that takes up one switch and breaks. */
  lemma LostSwitchStaysLost(l: Link, n: nat, d: Directive)
    requires l.forwarding && InTransit(l) == []
    ensures var (l1, q1) := LinkStep(l, [d], n + 1, Forwarded);
      var (l2, q2) := LinkStep(l1, q1, n + 1, Broken);
      l2.stale && q2 == [] && InTransit(l2) == [] && l2.policyTarget == l.policyTarget && l2.rolloutTarget == l.rolloutTarget
  {
    var (l1, q1) := LinkStep(l, [d], n + 1, Forwarded);
    assert q1 == [] && l1.sendQueue[|l.sendQueue|] == d;
    assert |InTransit(l1)| > 0;
  }

  /**
   The failing family: whenever a learner call changes the endpoint, a drained worker whose stream takes up the
   switch and then breaks stays on the old endpoint, with nothing left to correct it.
   */
  lemma LostSwitchStrandsWorker(n: Net, i: nat, c: Event)
    requires NetOk(n) && i < |n.links| && n.links[i].Some? && n.state.workers[i].queue == []
    requires n.links[i].value.forwarding && !n.links[i].value.stale && InTransit(n.links[i].value) == []
    requires IsLearnerEvent(c) && Endpoint(Next(n.state, c)) != Endpoint(n.state)
    ensures Stranded(LoseNext(AdvanceNet(n, Calls(c)), i), i, Endpoint(n.state))
  {
    var s' := Next(n.state, c);
    SwitchIffEndpointChanges(n.state, c);
    LearnerCallNet(n, c, s');
    SwitchedAndLost(n, i, s');
  }

  lemma LearnerCallNet(n: Net, c: Event, s': State)
    requires IsLearnerEvent(c) && s' == Next(n.state, c) && |n.links| == |n.state.workers|
    ensures AdvanceNet(n, Calls(c)) == CallNet(n, s')
  {
  }

  lemma SwitchedAndLost(n: Net, i: nat, s': State)
    requires Switched(n.state, s') && i < |n.links| == |n.state.workers| && n.links[i].Some? && n.state.workers[i].queue == []
    requires LinkOk(n.links[i].value, [], Endpoint(n.state), n.state.log)
    requires n.links[i].value.forwarding && !n.links[i].value.stale && InTransit(n.links[i].value) == []
    ensures Stranded(LoseNext(CallNet(n, s'), i), i, Endpoint(n.state))
  {
    SwitchIsQueued(n, i, s');
    DrainedIsOnCourse(n.links[i].value, Endpoint(n.state), n.state.log);
    LoseSwitch(CallNet(n, s'), i, Directive(SwitchLearner, Endpoint(s')));
  }

  /** The stream takes up one directive and breaks. */
  function LoseNext(n: Net, i: nat): Net
    requires |n.links| == |n.state.workers|
  {
    AdvanceNet(AdvanceNet(n, Moves(i, Forwarded)), Moves(i, Broken))
  }

  /** Nothing is queued or in transit that would take the worker from `target` to the coordinator's endpoint. */
  ghost predicate Stranded(n: Net, i: nat, target: string)
  {
    && i < |n.links| && i < |n.state.workers| && n.links[i].Some? && n.links[i].value.stale
    && n.state.workers[i].queue == [] && InTransit(n.links[i].value) == []
    && n.links[i].value.policyTarget == n.links[i].value.rolloutTarget == target != Endpoint(n.state)
  }

  lemma DrainedIsOnCourse(l: Link, endpoint: string, log: seq<Directive>)
    requires LinkOk(l, [], endpoint, log) && !l.stale && InTransit(l) == []
    ensures l.policyTarget == l.rolloutTarget == endpoint
  {
    assert InTransit(l) + [] == [];
  }

  lemma SwitchIsQueued(n: Net, i: nat, s': State)
    requires Switched(n.state, s')
    requires i < |n.links| == |n.state.workers| && n.links[i].Some? && n.state.workers[i].queue == []
    ensures var n1 := CallNet(n, s');
      && n1.state == s' && n1.links[i] == Some(n.links[i].value.(stale := false)) && s'.log != []
      && s'.workers[i].queue == [Directive(SwitchLearner, Endpoint(s'))]
  {
    QueuedOnSwitch(n.state, s', i);
  }

  lemma QueuedOnSwitch(s: State, s': State, i: nat)
    requires Switched(s, s') && i < |s.workers| && s.workers[i].queue == []
    ensures s'.workers[i].queue == [Directive(SwitchLearner, Endpoint(s'))] && |s'.log| == |s.log| + 1
  {
    var d := Directive(SwitchLearner, Endpoint(s'));
    assert Enqueue([], d) == [] + [d] == [d];
  }

  lemma LoseSwitch(n: Net, i: nat, d: Directive)
    requires i < |n.links| == |n.state.workers| && n.links[i].Some? && n.state.workers[i].queue == [d] && n.state.log != []
    requires n.links[i].value.forwarding && InTransit(n.links[i].value) == []
    requires n.links[i].value.policyTarget == n.links[i].value.rolloutTarget != Endpoint(n.state)
    ensures Stranded(LoseNext(n, i), i, n.links[i].value.policyTarget)
  {
    LostSwitchStaysLost(n.links[i].value, |n.state.log| - 1, d);
  }

  /** Renewing the session does not repair the loss: the answered target is stored but never applied. */
  lemma ReregistrationDoesNotRepair(n: Net, i: nat, hello: WorkerHello, token: string, at: int)
    requires Settled(n.state) && i < |n.links| == |n.state.workers| && n.links[i].Some? && n.links[i].value.stale
    requires LinkOk(n.links[i].value, n.state.workers[i].queue, Endpoint(n.state), n.state.log)
    requires WorkerMatch(n.state.workers, hello) == Some(i)
    ensures var n' := AdvanceNet(n, Reregisters(i, hello, token, at)); var l := n.links[i].value; var l' := n'.links[i].value;
      && l' == l && n'.state.workers[i].queue == [] && InTransit(l') == []
      && RegisterWorker(n.state, hello, token, at).1.target == Endpoint(n'.state) == Endpoint(n.state)
  {
    JoinServes(n.state, WorkerJoins(hello, token, at));
  }
}
