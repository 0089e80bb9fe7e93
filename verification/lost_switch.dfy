/** A run in which a worker stays on a learner that the coordinator has left. */
module LostSwitch {
  import opened Prelude
  import opened RegistrySpec
  import opened RegistryInvariants
  import opened RegistryRuns
  import opened Delivery

  const Hello := WorkerHello("host", map[])

  function Learner(n: nat, endpoint: string): LearnerRecord
  {
    LearnerRecord(LearnerId(n), "learner token", "unknown", endpoint, 0)
  }

  function Worker(token: string, queue: seq<Directive>): WorkerRecord
  {
    WorkerRecord(WorkerId(1), token, "host", map[], 0, "", queue)
  }

  function To(target: string): Directive { Directive(SwitchLearner, target) }

  function Joins(endpoint: string): Event
  {
    LearnerJoins(LearnerHello("", endpoint), "learner token", 0)
  }

  /** Learner a is active, and then the worker has started. */
  function WithLearner(a: string): State
  {
    State(0, 1, [], [Learner(1, a)], Some(LearnerId(1)), [To(a)])
  }

  function WithWorker(a: string): State
  {
    WithLearner(a).(workerSeq := 1, workers := [Worker("t", [])])
  }

  /** Learner b has taken over; the worker's queue is as given. */
  function WithBoth(a: string, b: string, token: string, queue: seq<Directive>): State
  {
    State(1, 2, [Worker(token, queue)], [Learner(1, a), Learner(2, b)], Some(LearnerId(2)), [To(a), To(b)])
  }

  lemma FirstLearnerJoins(a: string)
    requires a != ""
    ensures AdvanceNet(Net(Initial, []), Calls(Joins(a))) == Net(WithLearner(a), [])
  {
    var s := Initial.(learnerSeq := 1, learners := [Learner(1, a)]);
    assert LearnerIndex(s.learners, LearnerId(1)) == Some(0);
    assert LearnerMatch(Initial.learners, LearnerHello("", a)) == None;
    assert [] + [Learner(1, a)] == [Learner(1, a)];
    assert EnrolLearner(Initial, LearnerHello("", a), "learner token", 0) == (s, LearnerId(1));
    assert UpdateActive(s, Some(LearnerId(1))) == s.(active := Some(LearnerId(1)));
    assert RegisterLearner(Initial, LearnerHello("", a), "learner token", 0) == WithLearner(a);
  }

  lemma EndpointIsFirst(a: string)
    requires a != ""
    ensures Endpoint(WithLearner(a)) == a && Endpoint(WithWorker(a)) == a
    ensures Reevaluated(WithLearner(a)) == WithLearner(a) && Reevaluated(WithWorker(a)) == WithWorker(a)
  {
    assert LearnerIndex([Learner(1, a)], LearnerId(1)) == Some(0);
  }

  lemma WorkerStarts(a: string)
    requires a != ""
    ensures AdvanceNet(Net(WithLearner(a), []), Starts(Hello, "t", 0)) == Net(WithWorker(a), [Some(StartLink(a))])
  {
    EndpointIsFirst(a);
    assert WorkerMatch(WithLearner(a).workers, Hello) == None;
    assert [] + [Worker("t", [])] == [Worker("t", [])];
    assert RegisterWorker(WithLearner(a), Hello, "t", 0) == (WithWorker(a), Session(WorkerId(1), "t", a));
  }

  function Streaming(a: string): Link
  {
    StartLink(a).(open := true, forwarding := true)
  }

  lemma StreamOpens(a: string)
    ensures var n1 := AdvanceNet(Net(WithWorker(a), [Some(StartLink(a))]), Moves(0, Opened));
      AdvanceNet(n1, Moves(0, Heartbeat)) == Net(WithWorker(a), [Some(Streaming(a))])
  {
    var n1 := AdvanceNet(Net(WithWorker(a), [Some(StartLink(a))]), Moves(0, Opened));
    assert n1 == Net(WithWorker(a), [Some(StartLink(a).(open := true))]);
  }

  lemma EndpointIsSecond(a: string, b: string, token: string, queue: seq<Directive>)
    requires a != "" && b != ""
    ensures Endpoint(WithBoth(a, b, token, queue)) == b
    ensures Reevaluated(WithBoth(a, b, token, queue)) == WithBoth(a, b, token, queue)
  {
    SecondIsFound(a, b);
  }

  lemma SecondIsFound(a: string, b: string)
    ensures LearnerIndex([Learner(1, a), Learner(2, b)], LearnerId(2)) == Some(1)
  {
    var ls := [Learner(1, a), Learner(2, b)];
    PaddedIdsAreInjective(1, 2);
    assert ls[0].id == LearnerId(1) && ls[1].id == LearnerId(2);
  }

  lemma SecondLearnerJoins(a: string, b: string)
    requires a != "" && b != "" && a != b
    ensures AdvanceNet(Net(WithWorker(a), [Some(Streaming(a))]), Calls(Joins(b)))
            == Net(WithBoth(a, b, "t", [To(b)]), [Some(Streaming(a))])
  {
    EndpointIsFirst(a);
    EndpointIsSecond(a, b, "t", []);
    var s := WithWorker(a);
    var s' := s.(learnerSeq := 2, learners := [Learner(1, a), Learner(2, b)]);
    assert LearnerMatch(s.learners, LearnerHello("", b)) == None;
    assert [Learner(1, a)] + [Learner(2, b)] == [Learner(1, a), Learner(2, b)];
    assert EnrolLearner(s, LearnerHello("", b), "learner token", 0) == (s', LearnerId(2));
    var s2 := s'.(active := Some(LearnerId(2)));
    SecondIsFound(a, b);
    assert UpdateActive(s', Some(LearnerId(2))) == s2;
    assert Announce(a, s2) == WithBoth(a, b, "t", [To(b)]);
  }

  function Lost(a: string): Link
  {
    StartLink(a).(stale := true)
  }

  lemma SwitchIsLost(a: string, b: string)
    ensures var n1 := AdvanceNet(Net(WithBoth(a, b, "t", [To(b)]), [Some(Streaming(a))]), Moves(0, Forwarded));
      AdvanceNet(n1, Moves(0, Broken)) == Net(WithBoth(a, b, "t", []), [Some(Lost(a))])
  {
    var n1 := AdvanceNet(Net(WithBoth(a, b, "t", [To(b)]), [Some(Streaming(a))]), Moves(0, Forwarded));
    var l := Streaming(a).(sendQueue := [To(b)], at := [1]);
    assert [] + [To(b)] == [To(b)] && [To(b)][1..] == [];
    assert n1.links[0].value == l;
    assert n1 == Net(WithBoth(a, b, "t", []), [Some(l)]);
    assert InTransit(l) == [To(b)];
  }

  lemma WorkerReregisters(a: string, b: string)
    requires a != "" && b != ""
    ensures AdvanceNet(Net(WithBoth(a, b, "t", []), [Some(Lost(a))]), Reregisters(0, Hello, "t2", 0))
            == Net(WithBoth(a, b, "t2", []), [Some(Lost(a))])
    ensures RegisterWorker(WithBoth(a, b, "t", []), Hello, "t2", 0).1.target == b
  {
    EndpointIsSecond(a, b, "t", []);
    EndpointIsSecond(a, b, "t2", []);
    var s := WithBoth(a, b, "t", []);
    assert WorkerMatch(s.workers, Hello) == Some(0);
    assert RegisterWorker(s, Hello, "t2", 0).0 == WithBoth(a, b, "t2", []);
  }

  lemma ExecuteSnoc(events: seq<NetEvent>, e: NetEvent)
    ensures ExecuteNet(events + [e]) == AdvanceNet(ExecuteNet(events), e)
  {
    assert (events + [e])[..|events|] == events;
  }

  function UpToStream(a: string): seq<NetEvent>
  {
    [] + [Calls(Joins(a))] + [Starts(Hello, "t", 0)] + [Moves(0, Opened)] + [Moves(0, Heartbeat)]
  }

  function LosingRun(a: string, b: string): seq<NetEvent>
  {
    UpToStream(a) + [Calls(Joins(b))] + [Moves(0, Forwarded)] + [Moves(0, Broken)] + [Reregisters(0, Hello, "t2", 0)]
  }

  lemma RunToStream(a: string)
    requires a != ""
    ensures ExecuteNet(UpToStream(a)) == Net(WithWorker(a), [Some(Streaming(a))])
  {
    var joined := [] + [Calls(Joins(a))];
    var started := joined + [Starts(Hello, "t", 0)];
    ExecuteSnoc([], Calls(Joins(a)));
    FirstLearnerJoins(a);
    ExecuteSnoc(joined, Starts(Hello, "t", 0));
    WorkerStarts(a);
    ExecuteSnoc(started, Moves(0, Opened));
    ExecuteSnoc(started + [Moves(0, Opened)], Moves(0, Heartbeat));
    StreamOpens(a);
  }

  /**
   From the empty coordinator: the worker ends on learner a with nothing queued or in transit, while the
   coordinator's endpoint is b, and a renewed session has not helped.
   */
  lemma WorkerStaysBehind(a: string, b: string)
    requires a != "" && b != "" && a != b
    ensures var n := ExecuteNet(LosingRun(a, b));
      && |n.links| == 1 && n.links[0].Some? && n.links[0].value.stale
      && n.links[0].value.policyTarget == n.links[0].value.rolloutTarget == a
      && InTransit(n.links[0].value) == [] && n.state.workers[0].queue == [] && n.state.workers[0].token == "t2"
      && Endpoint(n.state) == b
  {
    RunToStream(a);
    var switched := UpToStream(a) + [Calls(Joins(b))];
    var forwarded := switched + [Moves(0, Forwarded)];
    ExecuteSnoc(UpToStream(a), Calls(Joins(b)));
    SecondLearnerJoins(a, b);
    ExecuteSnoc(switched, Moves(0, Forwarded));
    ExecuteSnoc(forwarded, Moves(0, Broken));
    SwitchIsLost(a, b);
    ExecuteSnoc(forwarded + [Moves(0, Broken)], Reregisters(0, Hello, "t2", 0));
    WorkerReregisters(a, b);
    EndpointIsSecond(a, b, "t2", []);
  }
}
