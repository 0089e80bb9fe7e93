/**
 What learner calls leave behind in any reachable registry, said of the records themselves: what a call
 takes from its message, and which learner serves afterwards.
 */
module LearnerLaws {
  import opened Prelude
  import opened RegistrySpec
  import opened RegistryInvariants
  import opened RegistryRuns
  import opened RegistryProperties

  /** The first of the newest learners that have an endpoint. */
  ghost predicate TakesOver(ls: seq<LearnerRecord>, k: nat)
  {
    && k < |ls| && ls[k].endpoint != ""
    && (forall j :: 0 <= j < |ls| && ls[j].endpoint != "" ==> ls[j].lastHeartbeat <= ls[k].lastHeartbeat)
    && (forall j :: 0 <= j < k && ls[j].endpoint != "" ==> ls[j].lastHeartbeat < ls[k].lastHeartbeat)
  }

  /** Learner k is the active one, and workers are sent to its endpoint. */
  ghost predicate Serves(s: State, k: nat)
  {
    k < |s.learners| && s.active == Some(s.learners[k].id) && Endpoint(s) == s.learners[k].endpoint
  }

  /** Who serves after learner i spoke: that learner, unless only others have an endpoint. */
  ghost predicate SpokenFor(s: State, i: nat)
  {
    && i < |s.learners|
    && if s.learners[i].endpoint != "" || (forall j :: 0 <= j < |s.learners| ==> s.learners[j].endpoint == "")
       then Serves(s, i)
       else exists k :: TakesOver(s.learners, k) && Serves(s, k)
  }

  lemma NewestKeptTakesOver(ls: seq<LearnerRecord>, kept: seq<LearnerRecord>, at: seq<nat>, best: nat)
    requires ArePositions(ls, (l: LearnerRecord) => l.endpoint != "", kept, at) && IsNewest(kept, best)
    requires forall l :: l in kept ==> l.endpoint != ""
    ensures TakesOver(ls, at[best]) && ls[at[best]] == kept[best]
  {
    var k := at[best];
    assert kept[best] in kept;
    forall j: nat | j < |ls| && ls[j].endpoint != ""
      ensures ls[j].lastHeartbeat <= ls[k].lastHeartbeat && (j < k ==> ls[j].lastHeartbeat < ls[k].lastHeartbeat)
    {
      assert j in at;
      var c :| 0 <= c < |at| && at[c] == j;
      assert kept[c] == ls[j];
      assert best < c ==> k < j;
    }
  }

  lemma NewestCandidateTakesOver(ls: seq<LearnerRecord>) returns (k: nat)
    requires Candidates(ls) != []
    ensures TakesOver(ls, k) && ls[k] == Candidates(ls)[Newest(Candidates(ls))]
  {
    var at := FilterPositions(ls, (l: LearnerRecord) => l.endpoint != "");
    var best := Newest(Candidates(ls));
    k := at[best];
    NewestKeptTakesOver(ls, Candidates(ls), at, best);
  }

  lemma SpeakerServes(s: State, i: nat)
    requires LearnersOk(s) && i < |s.learners|
    ensures SpokenFor(UpdateActive(s, Some(s.learners[i].id)), i)
  {
    var ls := s.learners;
    var t := UpdateActive(s, Some(ls[i].id));
    LearnerIndexIsUnique(ls, i);
    if ls[i].endpoint == "" {
      if Candidates(ls) != [] {
        var k := NewestCandidateTakesOver(ls);
        ActiveServes(t, k);
      } else {
        WithoutCandidates(ls);
      }
    }
  }

  lemma AnnouncingKeepsSpeaker(previous: string, s: State, i: nat)
    requires SpokenFor(s, i)
    ensures SpokenFor(Announce(previous, s), i)
  {
    var t := Announce(previous, s);
    if !Serves(s, i) {
      var k :| TakesOver(s.learners, k) && Serves(s, k);
      assert TakesOver(t.learners, k) && Serves(t, k);
    }
  }

  /**
   An accepted heartbeat renews its sender's stamp and takes over the endpoint it carries, if it carries one;
   nothing else about any learner changes, and the sender serves.
   */
  lemma AcceptedBeatIsTaken(events: seq<Event>, beat: LearnerBeat, now: int)
    requires BeatLearner(Execute(events).state, Some(beat), now).1.Ok?
    ensures var s := Execute(events).state; var (s', v) := BeatLearner(s, Some(beat), now); var i := v.value;
      && i < |s.learners| && s.learners[i].id == beat.id && s.learners[i].token == beat.token
      && s'.learners == s.learners[i :=
           LearnerRecord(beat.id, beat.token, s.learners[i].hostname,
                         if beat.endpoint == "" then s.learners[i].endpoint else beat.endpoint,
                         if beat.unixMs == 0 then now else beat.unixMs)]
      && (beat.endpoint != "" ==> s'.active == Some(beat.id) && Endpoint(s') == beat.endpoint)
      && (beat.endpoint == "" && s.learners[i].endpoint != "" ==>
            s'.active == Some(beat.id) && Endpoint(s') == s.learners[i].endpoint)
      && SpokenFor(s', i)
  {
    ReachableRunsAreOk(events);
    BeatIsTaken(Execute(events).state, beat, now);
  }

  lemma BeatIsTaken(s: State, beat: LearnerBeat, now: int)
    requires WellFormed(s) && BeatLearner(s, Some(beat), now).1.Ok?
    ensures var (s', v) := BeatLearner(s, Some(beat), now); var i := v.value;
      && i < |s.learners| && s.learners[i].id == beat.id && s.learners[i].token == beat.token
      && s'.learners == s.learners[i :=
           LearnerRecord(beat.id, beat.token, s.learners[i].hostname,
                         if beat.endpoint == "" then s.learners[i].endpoint else beat.endpoint,
                         if beat.unixMs == 0 then now else beat.unixMs)]
      && SpokenFor(s', i)
  {
    UpdateActiveIsIdle(s);
    var i := BeatLearner(s, Some(beat), now).1.value;
    var l := Refresh(s.learners[i], beat, now);
    RewriteKeepsLearners(s, i, l);
    var s' := s.(learners := s.learners[i := l]);
    SpeakerServes(s', i);
    AnnouncingKeepsSpeaker(Endpoint(s), UpdateActive(s', Some(beat.id)), i);
  }

  /** The record that a registration leaves, in the slot of the learner it matched or in a new one. */
  function Enrolled(s: State, hello: LearnerHello, token: string, now: int): LearnerRecord
  {
    var m := LearnerMatch(s.learners, hello);
    if m.Some? then
      LearnerRecord(s.learners[m.value].id, token,
                    if hello.hostname == "" then s.learners[m.value].hostname else hello.hostname, hello.endpoint, now)
    else
      LearnerRecord(LearnerId(s.learnerSeq + 1), token,
                    if hello.hostname == "" then "unknown" else hello.hostname, hello.endpoint, now)
  }

  /** Registering leaves one record new or rewritten, and with an endpoint that learner serves. */
  lemma RegistrationIsTaken(events: seq<Event>, hello: LearnerHello, token: string, now: int)
    ensures var s := Execute(events).state; var s' := RegisterLearner(s, hello, token, now);
      var m := LearnerMatch(s.learners, hello);
      var i := if m.Some? then m.value else |s.learners|;
      var l := Enrolled(s, hello, token, now);
      && s'.learners == (if m.Some? then s.learners[i := l] else s.learners + [l])
      && s'.learnerSeq == (if m.Some? then s.learnerSeq else s.learnerSeq + 1)
      && (hello.endpoint != "" ==> s'.active == Some(l.id) && Endpoint(s') == hello.endpoint)
      && SpokenFor(s', i)
  {
    var s := Execute(events).state;
    ReachableRunsAreOk(events);
    UpdateActiveIsIdle(s);
    var m := LearnerMatch(s.learners, hello);
    var i := if m.Some? then m.value else |s.learners|;
    var (s', id) := EnrolLearner(s, hello, token, now);
    EnrolKeeps(s, hello, token, now);
    SpeakerServes(s', i);
    AnnouncingKeepsSpeaker(Endpoint(s), UpdateActive(s', Some(id)), i);
  }

  /** A hello finds the first learner that has its endpoint or its hostname, empty ones aside. */
  lemma OnlyAlikeAreReused(ls: seq<LearnerRecord>, hello: LearnerHello)
    ensures var m := LearnerMatch(ls, hello);
      && (m.None? <==>
            && (hello.endpoint != "" ==> forall l :: l in ls ==> l.endpoint != hello.endpoint)
            && (hello.hostname != "" ==> forall l :: l in ls ==> l.hostname != hello.hostname))
      && (m.Some? ==>
            || (hello.endpoint != "" && ls[m.value].endpoint == hello.endpoint)
            || (hello.hostname != "" && ls[m.value].hostname == hello.hostname))
      && (m.Some? ==> LearnerMatch(ls[..m.value], hello).None?)
  {
    var m := LearnerMatch(ls, hello);
    if m.None? {
      assert forall l :: l in ls ==> !LearnerMatches(l, hello);
    } else {
      assert ls[m.value] in ls;
    }
  }

  /** Registering again finds the same record iff the hello has an endpoint or a hostname. */
  lemma RepeatedRegistrationReuses(events: seq<Event>, hello: LearnerHello, token: string, now: int)
    ensures var s := Execute(events).state; var s' := RegisterLearner(s, hello, token, now);
      var m := LearnerMatch(s.learners, hello);
      LearnerMatch(s'.learners, hello)
      == if hello.endpoint == "" && hello.hostname == "" then None
         else Some(if m.Some? then m.value else |s.learners|)
  {
    var s := Execute(events).state;
    var s' := RegisterLearner(s, hello, token, now);
    var m := LearnerMatch(s.learners, hello);
    RegistrationIsTaken(events, hello, token, now);
    EnrolledIsFound(s.learners, s'.learners, hello, Enrolled(s, hello, token, now));
  }

  lemma EnrolledIsFound(ls: seq<LearnerRecord>, ls': seq<LearnerRecord>, hello: LearnerHello, l: LearnerRecord)
    requires var m := LearnerMatch(ls, hello); ls' == if m.Some? then ls[m.value := l] else ls + [l]
    requires l.endpoint == hello.endpoint && (hello.hostname != "" ==> l.hostname == hello.hostname)
    ensures var m := LearnerMatch(ls, hello);
      LearnerMatch(ls', hello)
      == if hello.endpoint == "" && hello.hostname == "" then None else Some(if m.Some? then m.value else |ls|)
  {
    var m := LearnerMatch(ls, hello);
    var i := if m.Some? then m.value else |ls|;
    assert forall j :: 0 <= j < i ==> ls'[j] == ls[j];
    assert ls'[i] == l;
  }

  /**
   A sweep leaves exactly the learners heard of within the timeout, in order. The active learner stays if it is
   among them; otherwise the newest one with an endpoint takes over, or the newest one if none has an endpoint.
   */
  lemma SweepLeavesTheHeard(events: seq<Event>, timeout: real, now: int) returns (at: seq<nat>)
    ensures var s := Execute(events).state; var s' := SweepLearners(s, timeout, now);
      && (timeout <= 0.0 ==> s' == s)
      && (timeout > 0.0 ==>
            && HeardSince(s.learners, now - (timeout * 1000.0).Floor, s'.learners, at)
            && FailedOver(s, s'))
  {
    ReachableRunsAreOk(events);
    var s := Execute(events).state;
    at := [];
    if timeout > 0.0 {
      at := SurvivorsAreHeard(s.learners, Threshold(timeout, now));
      SweepLeavesSurvivors(s, timeout, now);
      SweepFailedOver(s, timeout, now, SweepLearners(s, timeout, now));
    }
  }

  ghost predicate Succeeds(s: State, k: nat)
  {
    && Serves(s, k)
    && (TakesOver(s.learners, k)
        || (IsNewest(s.learners, k) && forall j :: 0 <= j < |s.learners| ==> s.learners[j].endpoint == ""))
  }

  /** What a sweep with a positive timeout must leave behind. */
  ghost predicate FailedOver(s: State, s': State)
  {
    if s'.learners == [] then s'.active == None && Endpoint(s') == ""
    else if s.active.Some? && LearnerIndex(s'.learners, s.active.value).Some?
    then s'.active == s.active && Endpoint(s') == Endpoint(s)
    else exists k :: Succeeds(s', k)
  }

  /** `kept` are the learners with no stamp below the threshold, found at the positions `at`. */
  ghost predicate HeardSince(ls: seq<LearnerRecord>, threshold: int, kept: seq<LearnerRecord>, at: seq<nat>)
  {
    && ArePositions(ls, (l: LearnerRecord) => l.lastHeartbeat >= threshold, kept, at)
    && forall k :: 0 <= k < |kept| ==> kept[k].lastHeartbeat >= threshold
  }

  lemma SurvivorsAreHeard(ls: seq<LearnerRecord>, threshold: int) returns (at: seq<nat>)
    ensures HeardSince(ls, threshold, Survivors(ls, threshold), at)
  {
    at := FilterPositions(ls, (l: LearnerRecord) => l.lastHeartbeat >= threshold);
    var kept := Survivors(ls, threshold);
    assert forall k :: 0 <= k < |kept| ==> kept[k] in kept;
  }

  lemma SweepFailedOver(s: State, timeout: real, now: int, s': State)
    requires WellFormed(s) && timeout > 0.0 && s' == SweepLearners(s, timeout, now)
    ensures FailedOver(s, s')
  {
    var threshold := Threshold(timeout, now);
    SweepFailsOver(s, timeout, now);
    StaleIsGone(s, threshold);
    SweepKeeps(s, timeout, now);
    if s'.learners != [] && IsStale(s, s.active.value, threshold) {
      SuccessorServes(s');
    }
  }

  lemma ActiveServes(s: State, k: nat)
    requires Distinct(s.learners) && k < |s.learners| && s.active == Some(s.learners[k].id)
    ensures Serves(s, k)
  {
    LearnerIndexIsUnique(s.learners, k);
  }

  lemma SuccessorServes(s: State)
    requires Distinct(s.learners) && s.learners != []
    requires s.active == Some(if Candidates(s.learners) != [] then Candidates(s.learners)[Newest(Candidates(s.learners))].id
                              else s.learners[Newest(s.learners)].id)
    ensures exists k :: Succeeds(s, k)
  {
    if Candidates(s.learners) != [] {
      var k := NewestCandidateTakesOver(s.learners);
      ActiveServes(s, k);
      assert Succeeds(s, k);
    } else {
      var k := Newest(s.learners);
      WithoutCandidates(s.learners);
      ActiveServes(s, k);
      assert Succeeds(s, k);
    }
  }

  lemma WithoutCandidates(ls: seq<LearnerRecord>)
    requires Candidates(ls) == []
    ensures forall j :: 0 <= j < |ls| ==> ls[j].endpoint == ""
  {
    NoCandidates(ls);
    assert forall j :: 0 <= j < |ls| ==> ls[j] in ls;
  }
}
