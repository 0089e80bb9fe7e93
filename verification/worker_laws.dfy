/**
 Worker liveness and records: what a worker's messages alone make of its record, and when a sweep takes a worker
 offline.
 */
module WorkerLaws {
  import opened Prelude
  import opened RegistrySpec
  import opened RegistryInvariants
  import opened RegistryRuns

  // ----- one sweep -----

  /** A sweep changes worker i iff it was silent for longer than the timeout and is not offline yet. */
  lemma SweepMarksTheSilent(s: State, timeout: real, now: int, i: nat)
    requires i < |s.workers|
    ensures var s' := SweepWorkers(s, timeout, now); var w := s.workers[i];
      && s' == s.(workers := s'.workers) && |s'.workers| == |s.workers|
      && (s'.workers[i] != w <==>
            timeout > 0.0 && w.lastHeartbeat < now - (timeout * 1000.0).Floor && w.phase != "offline")
      && (s'.workers[i] != w ==>
            s'.workers[i] == WorkerRecord(w.id, w.token, w.hostname, w.labels, now, "offline", w.queue))
  {
  }

  // ----- what was heard of a worker -----

  // `contact` is the time of the latest registration or accepted heartbeat.
  datatype Profile = Profile(
    token: string, hostname: string, labels: map<string, string>, contact: int, stamp: int, phase: string)

  /** What is known of worker `id` after event e; `joined` is the id that a registration was answered with. */
  function Hears(p: Option<Profile>, e: Event, id: string, joined: string): Option<Profile>
  {
    match e
    case WorkerJoins(hello, token, at) =>
      if joined == id
      then Some(Profile(token, if hello.hostname == "" then "unknown" else hello.hostname, hello.labels, at, at, ""))
      else p
    case WorkerBeats(beat, at) =>
      if p.Some? && beat.id == id && beat.token == p.value.token
      then
        var time := if beat.unixMs == 0 then at else beat.unixMs;
        Some(p.value.(contact := time, stamp := time, phase := if beat.phase.Some? then beat.phase.value else p.value.phase))
      else p
    case WorkerLeaves(left, at) =>
      if p.Some? && left == id then Some(p.value.(stamp := at, phase := "offline")) else p
    case WorkersSwept(timeout, at) =>
      if p.Some? && timeout > 0.0 && at - p.value.stamp > (timeout * 1000.0).Floor && p.value.phase != "offline"
      then Some(p.value.(stamp := at, phase := "offline"))
      else p
    case _ => p
  }

  /** The id that a registration is answered with. */
  function AnsweredId(s: State, e: Event): string
  {
    if e.WorkerJoins? then RegisterWorker(s, e.whello, e.wtoken, e.at).1.id else ""
  }

  function Heard(events: seq<Event>, i: nat): Option<Profile>
  {
    if events == [] then None
    else
      var before, e := events[..|events| - 1], events[|events| - 1];
      Hears(Heard(before, i), e, WorkerId(i + 1), AnsweredId(Execute(before).state, e))
  }

  ghost predicate IsRecorded(s: State, i: nat, p: Option<Profile>)
  {
    && (p.Some? <==> i < |s.workers|)
    && (p.Some? ==>
          var h := p.value;
          s.workers[i] == WorkerRecord(WorkerId(i + 1), h.token, h.hostname, h.labels, h.stamp, h.phase, s.workers[i].queue))
  }

  lemma WorkerIndexIsUnique(s: State, i: nat)
    requires WorkersOk(s)
    ensures WorkerIndex(s.workers, WorkerId(i + 1)) == if i < |s.workers| then Some(i) else None
  {
    var found := WorkerIndex(s.workers, WorkerId(i + 1));
    assert i < |s.workers| ==> s.workers[i].id == WorkerId(i + 1);
    if found.Some? {
      PaddedIdsAreInjective(i + 1, found.value + 1);
    }
  }

  /** A registration rewrites or appends one record, takes the hello over and keeps an old record's id and queue. */
  lemma JoinIsTaken(s: State, hello: WorkerHello, token: string, now: int)
    requires WorkersOk(s)
    ensures var (s', session) := RegisterWorker(s, hello, token, now); var m := WorkerMatch(s.workers, hello);
      var slot := if m.Some? then m.value else |s.workers|;
      && session.id == WorkerId(slot + 1) && session.token == token
      && |s'.workers| == (if m.Some? then |s.workers| else |s.workers| + 1)
      && s'.workers[slot] == WorkerRecord(WorkerId(slot + 1), token, if hello.hostname == "" then "unknown" else hello.hostname,
                                          hello.labels, now, "", if m.Some? then s.workers[slot].queue else [])
      && forall j :: 0 <= j < |s.workers| && j != slot ==> s'.workers[j] == s.workers[j]
  {
  }

  lemma JoinIsHeard(s: State, e: Event, i: nat, p: Option<Profile>)
    requires WorkersOk(s) && IsRecorded(s, i, p) && e.WorkerJoins?
    ensures IsRecorded(Next(s, e), i, Hears(p, e, WorkerId(i + 1), AnsweredId(s, e)))
  {
    var slot := JoinedSlot(s, e);
    var s', joined := Next(s, e), AnsweredId(s, e);
    SameIdIff(i, slot);
    JoinIsRecorded(s, s', e, i, p, slot, WorkerId(i + 1), joined);
  }

  lemma SameIdIff(i: nat, j: nat)
    ensures WorkerId(i + 1) == WorkerId(j + 1) <==> i == j
  {
    PaddedIdsAreInjective(i + 1, j + 1);
  }

  lemma JoinedSlot(s: State, e: Event) returns (slot: nat)
    requires WorkersOk(s) && e.WorkerJoins?
    ensures var s' := Next(s, e);
      && slot <= |s.workers| && |s'.workers| == (if slot < |s.workers| then |s.workers| else |s.workers| + 1)
      && AnsweredId(s, e) == WorkerId(slot + 1)
      && s'.workers[slot] == WorkerRecord(WorkerId(slot + 1), e.wtoken, OrUnknown(e.whello.hostname), e.whello.labels, e.at, "",
                                          s'.workers[slot].queue)
      && forall j :: 0 <= j < |s.workers| && j != slot ==> s'.workers[j] == s.workers[j]
  {
    var m := WorkerMatch(s.workers, e.whello);
    slot := if m.Some? then m.value else |s.workers|;
    JoinIsTaken(s, e.whello, e.wtoken, e.at);
  }

  lemma JoinIsRecorded(s: State, s': State, e: Event, i: nat, p: Option<Profile>, slot: nat, id: string, joined: string)
    requires IsRecorded(s, i, p) && e.WorkerJoins? && id == WorkerId(i + 1) && (joined == id <==> i == slot)
    requires slot <= |s.workers| && |s'.workers| == if slot < |s.workers| then |s.workers| else |s.workers| + 1
    requires s'.workers[slot] == WorkerRecord(joined, e.wtoken, OrUnknown(e.whello.hostname), e.whello.labels, e.at, "",
                                              s'.workers[slot].queue)
    requires forall j :: 0 <= j < |s.workers| && j != slot ==> s'.workers[j] == s.workers[j]
    ensures IsRecorded(s', i, Hears(p, e, id, joined))
  {
  }

  lemma BeatIsHeard(s: State, e: Event, i: nat, p: Option<Profile>)
    requires WorkersOk(s) && IsRecorded(s, i, p) && e.WorkerBeats?
    ensures IsRecorded(Next(s, e), i, Hears(p, e, WorkerId(i + 1), ""))
  {
    WorkerIndexIsUnique(s, i);
  }

  lemma LeaveIsHeard(s: State, e: Event, i: nat, p: Option<Profile>)
    requires WorkersOk(s) && IsRecorded(s, i, p) && e.WorkerLeaves?
    ensures IsRecorded(Next(s, e), i, Hears(p, e, WorkerId(i + 1), ""))
  {
    WorkerIndexIsUnique(s, i);
  }

  lemma SweepIsHeard(s: State, e: Event, i: nat, p: Option<Profile>)
    requires IsRecorded(s, i, p) && e.WorkersSwept?
    ensures IsRecorded(Next(s, e), i, Hears(p, e, WorkerId(i + 1), ""))
  {
    if i < |s.workers| { SweepMarksTheSilent(s, e.timeout, e.at, i); }
  }

  lemma NextIsHeard(s: State, e: Event, i: nat, p: Option<Profile>)
    requires WorkersOk(s) && IsRecorded(s, i, p)
    ensures IsRecorded(Next(s, e), i, Hears(p, e, WorkerId(i + 1), AnsweredId(s, e)))
  {
    match e
    case WorkerJoins(_, _, _) => JoinIsHeard(s, e, i, p);
    case WorkerBeats(_, _) => BeatIsHeard(s, e, i, p);
    case WorkerLeaves(_, _) => LeaveIsHeard(s, e, i, p);
    case WorkersSwept(_, _) => SweepIsHeard(s, e, i, p);
    case _ =>
  }

  /** In every run a worker's record is what its own messages and the sweeps made of it. */
  lemma {:induction false} RecordsAreHeard(events: seq<Event>, i: nat)
    ensures IsRecorded(Execute(events).state, i, Heard(events, i))
  {
    if events != [] {
      var before := events[..|events| - 1];
      RecordsAreHeard(before, i);
      ReachableRunsAreOk(before);
      NextIsHeard(Execute(before).state, events[|events| - 1], i, Heard(before, i));
    }
  }

  // ----- who is offline -----

  /** While a worker is not offline, its stamp is the time of its latest contact. */
  ghost predicate StampIsContact(p: Option<Profile>)
  {
    p.Some? && p.value.phase != "offline" ==> p.value.stamp == p.value.contact
  }

  lemma HearingKeepsContact(p: Option<Profile>, e: Event, id: string, joined: string)
    requires StampIsContact(p)
    ensures StampIsContact(Hears(p, e, id, joined))
  {
  }

  lemma {:induction false} OnlineStampIsContact(events: seq<Event>, i: nat)
    ensures StampIsContact(Heard(events, i))
  {
    if events != [] {
      var before, e := events[..|events| - 1], events[|events| - 1];
      OnlineStampIsContact(before, i);
      HearingKeepsContact(Heard(before, i), e, WorkerId(i + 1), AnsweredId(Execute(before).state, e));
    }
  }

  /**
   After a sweep of any run a worker is offline iff it was before or its latest contact is longer ago than the
   timeout, which must be positive.
   */
  lemma SilentWorkersGoOffline(events: seq<Event>, i: nat, timeout: real, now: int)
    requires i < |Execute(events).state.workers|
    ensures var ws := Execute(events).state.workers;
      var ws' := SweepWorkers(Execute(events).state, timeout, now).workers;
      && |ws'| == |ws| && Heard(events, i).Some?
      && (ws'[i].phase == "offline" <==>
            || ws[i].phase == "offline"
            || (timeout > 0.0 && now - Heard(events, i).value.contact > (timeout * 1000.0).Floor))
  {
    var s := Execute(events).state;
    RecordsAreHeard(events, i);
    OnlineStampIsContact(events, i);
    SweepMarksTheSilent(s, timeout, now, i);
  }

  /**
   From event `from` on, worker i never says that it is offline, no stream of its ends, and at every sweep its
   latest contact is at most the timeout ago.
   */
  ghost predicate StaysInTouch(events: seq<Event>, from: nat, i: nat)
  {
    forall k :: from <= k < |events| ==> InTouchAt(events, k, i)
  }

  ghost predicate InTouchAt(events: seq<Event>, k: nat, i: nat)
    requires k < |events|
  {
    InTouch(Heard(events[..k], i), events[k], WorkerId(i + 1))
  }

  ghost predicate InTouch(p: Option<Profile>, e: Event, id: string)
  {
    match e
    case WorkerBeats(beat, _) => beat.id == id ==> beat.phase != Some("offline")
    case WorkerLeaves(left, _) => left != id
    case WorkersSwept(timeout, at) => p.Some? && timeout > 0.0 ==> at - p.value.contact <= (timeout * 1000.0).Floor
    case _ => true
  }

  ghost predicate IsOnline(p: Option<Profile>)
  {
    p.Some? ==> p.value.phase != "offline"
  }

  lemma HearingKeepsOnline(p: Option<Profile>, e: Event, id: string, joined: string)
    requires StampIsContact(p) && IsOnline(p) && InTouch(p, e, id)
    ensures IsOnline(Hears(p, e, id, joined))
  {
  }

  lemma OnlineIff(events: seq<Event>, i: nat)
    ensures var ws := Execute(events).state.workers;
      IsOnline(Heard(events, i)) <==> (i < |ws| ==> ws[i].phase != "offline")
  {
    RecordsAreHeard(events, i);
  }

  /** A worker that stays in touch is never taken offline, whatever else happens. */
  lemma WorkersInTouchStayOnline(events: seq<Event>, from: nat, i: nat)
    requires from <= |events| && StaysInTouch(events, from, i)
    requires i < |Execute(events[..from]).state.workers| ==> Execute(events[..from]).state.workers[i].phase != "offline"
    ensures i < |Execute(events).state.workers| ==> Execute(events).state.workers[i].phase != "offline"
  {
    OnlineIff(events[..from], i);
    ProfilesStayOnline(events, from, i);
    OnlineIff(events, i);
  }

  lemma ProfilesStayOnline(events: seq<Event>, from: nat, i: nat)
    requires from <= |events| && StaysInTouch(events, from, i) && IsOnline(Heard(events[..from], i))
    ensures IsOnline(Heard(events, i))
  {
    var history := Profiles(events, i);
    forall k | from <= k < |history| - 1 && IsOnline(history[k]) ensures IsOnline(history[k + 1]) {
      assert InTouchAt(events, k, i);
      StaysOnlineOneMore(events, k, i);
    }
    OnlineChain(history, from, |events|);
  }

  /** What was heard of worker i after each prefix of a run. */
  lemma Profiles(events: seq<Event>, i: nat) returns (history: seq<Option<Profile>>)
    ensures |history| == |events| + 1 && history[|events|] == Heard(events, i)
    ensures forall k :: 0 <= k <= |events| ==> history[k] == Heard(events[..k], i)
  {
    history := seq(|events| + 1, k requires 0 <= k <= |events| => Heard(events[..k], i));
    assert events[..|events|] == events;
  }

  lemma HeardOnce(events: seq<Event>, i: nat) returns (joined: string)
    requires events != []
    ensures Heard(events, i) == Hears(Heard(events[..|events| - 1], i), events[|events| - 1], WorkerId(i + 1), joined)
  {
    joined := AnsweredId(Execute(events[..|events| - 1]).state, events[|events| - 1]);
  }

  lemma HeardNext(events: seq<Event>, k: nat, i: nat) returns (joined: string)
    requires k < |events|
    ensures Heard(events[..k + 1], i) == Hears(Heard(events[..k], i), events[k], WorkerId(i + 1), joined)
  {
    joined := HeardOnce(events[..k + 1], i);
    assert events[..k + 1][..k] == events[..k];
  }

  lemma StaysOnlineOneMore(events: seq<Event>, k: nat, i: nat)
    requires k < |events| && InTouchAt(events, k, i)
    ensures IsOnline(Heard(events[..k], i)) ==> IsOnline(Heard(events[..k + 1], i))
  {
    if IsOnline(Heard(events[..k], i)) {
      var joined := HeardNext(events, k, i);
      OnlineStampIsContact(events[..k], i);
      HearingKeepsOnline(Heard(events[..k], i), events[k], WorkerId(i + 1), joined);
    }
  }

  lemma {:induction false} OnlineChain(history: seq<Option<Profile>>, from: nat, k: nat)
    requires from <= k < |history| && IsOnline(history[from])
    requires forall j :: from <= j < |history| - 1 && IsOnline(history[j]) ==> IsOnline(history[j + 1])
    ensures IsOnline(history[k])
    decreases k
  {
    if from < k {
      OnlineChain(history, from, k - 1);
    }
  }

  // ----- who is recognized -----

  /** A hello finds the first record of its identity under either label, else the first of its hostname. */
  lemma OnlyAlikeAreReused(ws: seq<WorkerRecord>, hello: WorkerHello)
    ensures var m := WorkerMatch(ws, hello); var identity := Preferred(hello.labels);
      && (m.None? <==>
            && (identity != "" ==> forall w :: w in ws ==> !CarriesIdentity(w.labels, identity))
            && (hello.hostname != "" ==> forall w :: w in ws ==> w.hostname != hello.hostname))
      && (m.Some? ==>
            || (identity != "" && CarriesIdentity(ws[m.value].labels, identity))
            || (hello.hostname != "" && ws[m.value].hostname == hello.hostname))
      && (m.Some? && identity != "" && (exists w :: w in ws && CarriesIdentity(w.labels, identity)) ==>
            CarriesIdentity(ws[m.value].labels, identity) && forall j :: 0 <= j < m.value ==> !CarriesIdentity(ws[j].labels, identity))
  {
  }

  predicate CarriesIdentity(labels: map<string, string>, identity: string)
  {
    || ("identity" in labels && labels["identity"] == identity)
    || ("worker_identity" in labels && labels["worker_identity"] == identity)
  }

  /** The first label names the identity; the second counts when the first is missing or empty. */
  lemma PreferredIdentity(labels: map<string, string>)
    ensures "identity" in labels && labels["identity"] != "" ==> Preferred(labels) == labels["identity"]
    ensures ("identity" !in labels || labels["identity"] == "") && "worker_identity" in labels ==>
              Preferred(labels) == labels["worker_identity"]
    ensures Preferred(labels) != "" ==> CarriesIdentity(labels, Preferred(labels))
  {
  }

  /** Registering again is answered with the same id iff the hello has an identity or a hostname. */
  lemma RepeatedJoinReuses(events: seq<Event>, hello: WorkerHello, token: string, again: string, now: int, later: int)
    ensures var s := Execute(events).state; var (s', first) := RegisterWorker(s, hello, token, now);
      var second := RegisterWorker(s', hello, again, later).1;
      second.id == first.id <==> Preferred(hello.labels) != "" || hello.hostname != ""
  {
    var s := Execute(events).state;
    ReachableRunsAreOk(events);
    RegistrationKeepsWorkers(s, hello, token, now);
    JoinsTwice(s, RegisterWorker(s, hello, token, now).0, hello, token, again, now, later);
  }

  lemma JoinsTwice(s: State, s': State, hello: WorkerHello, token: string, again: string, now: int, later: int)
    requires WorkersOk(s) && WorkersOk(s') && s' == RegisterWorker(s, hello, token, now).0
    ensures RegisterWorker(s', hello, again, later).1.id == RegisterWorker(s, hello, token, now).1.id
            <==> Preferred(hello.labels) != "" || hello.hostname != ""
  {
    var m, m' := WorkerMatch(s.workers, hello), WorkerMatch(s'.workers, hello);
    JoinIsTaken(s, hello, token, now);
    JoinIsTaken(s', hello, again, later);
    var slot := if m.Some? then m.value else |s.workers|;
    SameIdIff(slot, if m'.Some? then m'.value else |s'.workers|);
    JoinedIsFound(s.workers, s'.workers, hello, slot);
  }

  lemma RegistrationKeepsWorkers(s: State, hello: WorkerHello, token: string, now: int)
    requires WellFormed(s)
    ensures WorkersOk(RegisterWorker(s, hello, token, now).0)
  {
    var e := WorkerJoins(hello, token, now);
    NextKeepsWellFormed(s, e);
    assert Next(s, e) == RegisterWorker(s, hello, token, now).0;
  }

  lemma JoinedIsFound(ws: seq<WorkerRecord>, ws': seq<WorkerRecord>, hello: WorkerHello, slot: nat)
    requires var m := WorkerMatch(ws, hello); slot == if m.Some? then m.value else |ws|
    requires |ws'| == if slot < |ws| then |ws| else |ws| + 1
    requires ws'[slot].labels == hello.labels && (hello.hostname != "" ==> ws'[slot].hostname == hello.hostname)
    requires forall j :: 0 <= j < |ws| && j != slot ==> ws'[j] == ws[j]
    ensures WorkerMatch(ws', hello) == if Preferred(hello.labels) == "" && hello.hostname == "" then None else Some(slot)
  {
    var identity := Preferred(hello.labels);
    if identity != "" {
      PreferredIdentity(hello.labels);
      IdentityIsFound(ws, ws', identity, slot, IdentityMatch(ws, identity));
    } else if hello.hostname != "" {
      assert forall j :: 0 <= j < slot ==> ws'[j].hostname != hello.hostname;
    }
  }

  lemma IdentityIsFound(ws: seq<WorkerRecord>, ws': seq<WorkerRecord>, identity: string, slot: nat, m: Option<nat>)
    requires m == IdentityMatch(ws, identity) && slot < |ws'| && |ws| <= |ws'| && slot <= |ws|
    requires m.Some? ==> slot == m.value
    requires HasIdentity(ws'[slot], identity)
    requires forall j :: 0 <= j < |ws| && j != slot ==> ws'[j] == ws[j]
    ensures IdentityMatch(ws', identity) == Some(slot)
  {
    assert forall j :: 0 <= j < slot ==> !HasIdentity(ws'[j], identity);
  }
}
