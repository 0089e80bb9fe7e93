/**
 The coordinator's registry as a value: what one call of `CoordinatorState` does to the state.
 Python dictionaries keep insertion order and the code relies on it (first match, first maximum),
 so a dictionary is a sequence of records with distinct ids.
 */
module RegistrySpec {
  import opened Prelude

  const QUEUE_CAPACITY: nat := 8

  datatype DirectiveKind = SwitchLearner | Drain | Shutdown

  datatype Directive = Directive(kind: DirectiveKind, target: string)

  datatype WorkerRecord = WorkerRecord(
    id: string, token: string, hostname: string, labels: map<string, string>,
    lastHeartbeat: int, phase: string, queue: seq<Directive>)

  datatype LearnerRecord = LearnerRecord(
    id: string, token: string, hostname: string, endpoint: string, lastHeartbeat: int)

  datatype WorkerHello = WorkerHello(hostname: string, labels: map<string, string>)

  datatype LearnerHello = LearnerHello(hostname: string, endpoint: string)

  datatype WorkerBeat = WorkerBeat(id: string, token: string, unixMs: int, phase: Option<string>)

  datatype LearnerBeat = LearnerBeat(id: string, token: string, unixMs: int, endpoint: string)

  datatype Session = Session(id: string, token: string, target: string)

  datatype Error = MissingPayload | NotRegistered | InvalidToken

  // `log` is a history variable: every directive that was pushed to all workers, oldest first.
  datatype State = State(
    workerSeq: nat, learnerSeq: nat,
    workers: seq<WorkerRecord>, learners: seq<LearnerRecord>,
    active: Option<string>, log: seq<Directive>)

  const Initial := State(0, 0, [], [], None, [])

  // ----- identifiers -----

  function Digits(n: nat): (s: string)
    ensures |s| >= 1
  {
    if n < 10 then [('0' as int + n) as char]
    else Digits(n / 10) + [('0' as int + n % 10) as char]
  }

  /** Python's `:04d`. */
  function Pad4(n: nat): string
  {
    var d := Digits(n);
    if |d| >= 4 then d else seq(4 - |d|, _ => '0') + d
  }

  function WorkerId(n: nat): string { "worker-" + Pad4(n) }

  function LearnerId(n: nat): string { "learner-" + Pad4(n) }

  function OrUnknown(s: string): string { if s == "" then "unknown" else s }

  // ----- lookups -----

  function WorkerIndex(ws: seq<WorkerRecord>, id: string): (r: Option<nat>)
    ensures r.Some? ==> r.value < |ws| && ws[r.value].id == id && forall j :: 0 <= j < r.value ==> ws[j].id != id
    ensures r.None? ==> forall j :: 0 <= j < |ws| ==> ws[j].id != id
  {
    First(ws, (w: WorkerRecord) => w.id == id)
  }

  function LearnerIndex(ls: seq<LearnerRecord>, id: string): (r: Option<nat>)
    ensures r.Some? ==> r.value < |ls| && ls[r.value].id == id && forall j :: 0 <= j < r.value ==> ls[j].id != id
    ensures r.None? ==> forall j :: 0 <= j < |ls| ==> ls[j].id != id
  {
    First(ls, (l: LearnerRecord) => l.id == id)
  }

  function Label(labels: map<string, string>, key: string): string
  {
    if key in labels then labels[key] else ""
  }

  function Preferred(labels: map<string, string>): string
  {
    if Label(labels, "identity") != "" then Label(labels, "identity") else Label(labels, "worker_identity")
  }

  predicate HasIdentity(w: WorkerRecord, identity: string)
  {
    Label(w.labels, "identity") == identity || Label(w.labels, "worker_identity") == identity
  }

  function IdentityMatch(ws: seq<WorkerRecord>, identity: string): (r: Option<nat>)
    ensures r.Some? ==> r.value < |ws| && HasIdentity(ws[r.value], identity)
                        && forall j :: 0 <= j < r.value ==> !HasIdentity(ws[j], identity)
    ensures r.None? ==> forall j :: 0 <= j < |ws| ==> !HasIdentity(ws[j], identity)
  {
    First(ws, (w: WorkerRecord) => HasIdentity(w, identity))
  }

  function HostnameMatch(ws: seq<WorkerRecord>, hostname: string): (r: Option<nat>)
    ensures r.Some? ==> r.value < |ws| && ws[r.value].hostname == hostname
                        && forall j :: 0 <= j < r.value ==> ws[j].hostname != hostname
    ensures r.None? ==> forall j :: 0 <= j < |ws| ==> ws[j].hostname != hostname
  {
    First(ws, (w: WorkerRecord) => w.hostname == hostname)
  }

  /** Identity labels first, hostname second. */
  function WorkerMatch(ws: seq<WorkerRecord>, hello: WorkerHello): (r: Option<nat>)
    ensures r.Some? ==> r.value < |ws|
  {
    var identity := Preferred(hello.labels);
    var byIdentity := if identity != "" then IdentityMatch(ws, identity) else None;
    if byIdentity.Some? then byIdentity
    else if hello.hostname != "" then HostnameMatch(ws, hello.hostname)
    else None
  }

  predicate LearnerMatches(l: LearnerRecord, hello: LearnerHello)
  {
    (l.endpoint == hello.endpoint && l.endpoint != "") || (hello.hostname != "" && l.hostname == hello.hostname)
  }

  function LearnerMatch(ls: seq<LearnerRecord>, hello: LearnerHello): (r: Option<nat>)
    ensures r.Some? ==> r.value < |ls| && LearnerMatches(ls[r.value], hello)
                        && forall j :: 0 <= j < r.value ==> !LearnerMatches(ls[j], hello)
    ensures r.None? ==> forall j :: 0 <= j < |ls| ==> !LearnerMatches(ls[j], hello)
  {
    First(ls, (l: LearnerRecord) => LearnerMatches(l, hello))
  }

  // ----- the active learner -----

  /** Python's `max` by heartbeat: the first of the newest records. */
  ghost predicate IsNewest(ls: seq<LearnerRecord>, k: nat)
  {
    && k < |ls|
    && (forall j :: 0 <= j < |ls| ==> ls[j].lastHeartbeat <= ls[k].lastHeartbeat)
    && (forall j :: 0 <= j < k ==> ls[j].lastHeartbeat < ls[k].lastHeartbeat)
  }

  function Newest(ls: seq<LearnerRecord>): (k: nat)
    requires ls != []
    ensures IsNewest(ls, k)
  {
    if |ls| == 1 then 0
    else
      var m := Newest(ls[..|ls| - 1]);
      if ls[|ls| - 1].lastHeartbeat > ls[m].lastHeartbeat then |ls| - 1 else m
  }

  function Candidates(ls: seq<LearnerRecord>): (r: seq<LearnerRecord>)
    ensures forall l :: l in r <==> l in ls && l.endpoint != ""
  {
    Filter(ls, (l: LearnerRecord) => l.endpoint != "")
  }

  function Chosen(s: State, id: Option<string>): Option<string>
  {
    if id.Some? && LearnerIndex(s.learners, id.value).Some? then id
    else if s.active.Some? && LearnerIndex(s.learners, s.active.value).Some? then s.active
    else None
  }

  /** Replace an active learner that has no endpoint. */
  function FallBack(s: State): (r: State)
    ensures r == s.(active := r.active)
  {
    if Endpoint(s) != "" || s.learners == [] then s
    else
      var candidates := Candidates(s.learners);
      if candidates != [] then s.(active := Some(candidates[Newest(candidates)].id))
      else if s.active.None? then s.(active := Some(s.learners[Newest(s.learners)].id))
      else s
  }

  function UpdateActive(s: State, id: Option<string>): (r: State)
    ensures r == s.(active := r.active)
  {
    FallBack(s.(active := Chosen(s, id)))
  }

  function Endpoint(s: State): string
  {
    if s.active.Some? && LearnerIndex(s.learners, s.active.value).Some?
    then s.learners[LearnerIndex(s.learners, s.active.value).value].endpoint
    else ""
  }

  // ----- directives -----

  /** Append, dropping the oldest entries so that at most QUEUE_CAPACITY remain. */
  function Enqueue(q: seq<Directive>, d: Directive): (r: seq<Directive>)
    ensures 1 <= |r| <= QUEUE_CAPACITY && r[|r| - 1] == d
    ensures IsSuffix(r, q + [d])
    ensures |q| < QUEUE_CAPACITY ==> r == q + [d]
  {
    var all := q + [d];
    if |all| <= QUEUE_CAPACITY then all else all[|all| - QUEUE_CAPACITY..]
  }

  /** The same workers, up to what waits in their queues. */
  ghost predicate SameUpToQueues(ws: seq<WorkerRecord>, ws': seq<WorkerRecord>)
  {
    |ws'| == |ws| && forall i :: 0 <= i < |ws| ==> ws'[i] == ws[i].(queue := ws'[i].queue)
  }

  function Pushed(w: WorkerRecord, d: Directive): WorkerRecord
  {
    w.(queue := Enqueue(w.queue, d))
  }

  function PushAll(s: State, d: Directive): State
  {
    s.(workers := seq(|s.workers|, i requires 0 <= i < |s.workers| => Pushed(s.workers[i], d)),
       log := s.log + [d])
  }

  /** Tell every worker when the endpoint is no longer `previous`. */
  function Announce(previous: string, s: State): (r: State)
    ensures SameUpToQueues(s.workers, r.workers) && Endpoint(r) == Endpoint(s)
    ensures r == s.(workers := r.workers, log := r.log)
  {
    if previous != Endpoint(s) then PushAll(s, Directive(SwitchLearner, Endpoint(s))) else s
  }

  // ----- operations -----

  /** Most calls ask for the current endpoint first, which re-evaluates the active learner. */
  function Reevaluated(s: State): (r: State)
    ensures r == s.(active := r.active)
  {
    UpdateActive(s, None)
  }

  function RegisterWorker(s: State, hello: WorkerHello, token: string, now: int): (State, Session)
  {
    match WorkerMatch(s.workers, hello)
    case None =>
      var id := WorkerId(s.workerSeq + 1);
      var w := WorkerRecord(id, token, OrUnknown(hello.hostname), hello.labels, now, "", []);
      (Reevaluated(s.(workerSeq := s.workerSeq + 1, workers := s.workers + [w])), Session(id, token, Endpoint(Reevaluated(s))))
    case Some(i) =>
      var w := s.workers[i].(token := token, hostname := OrUnknown(hello.hostname), labels := hello.labels,
                             lastHeartbeat := now, phase := "");
      (Reevaluated(s.(workers := s.workers[i := w])), Session(w.id, token, Endpoint(Reevaluated(s))))
  }

  function ValidateWorker(s: State, id: string, token: string): (r: Result<nat, Error>)
    ensures r.Ok? ==> r.value < |s.workers| && WorkerIndex(s.workers, id) == Some(r.value)
                      && s.workers[r.value].token == token
  {
    match WorkerIndex(s.workers, id)
    case None => Err(NotRegistered)
    case Some(i) => if s.workers[i].token != token then Err(InvalidToken) else Ok(i)
  }

  function Stamp(unixMs: int, now: int): int { if unixMs != 0 then unixMs else now }

  function BeatWorker(s: State, beat: WorkerBeat, now: int): (State, Result<nat, Error>)
  {
    var v := ValidateWorker(s, beat.id, beat.token);
    if v.Err? then (s, v)
    else
      var w := s.workers[v.value];
      var w' := w.(lastHeartbeat := Stamp(beat.unixMs, now), phase := if beat.phase.Some? then beat.phase.value else w.phase);
      (s.(workers := s.workers[v.value := w']), v)
  }

  function DisconnectWorker(s: State, id: string, now: int): State
  {
    match WorkerIndex(s.workers, id)
    case None => s
    case Some(i) => s.(workers := s.workers[i := s.workers[i].(lastHeartbeat := now, phase := "offline")])
  }

  function Threshold(timeout: real, now: int): int { now - (timeout * 1000.0).Floor }

  function SweepWorkers(s: State, timeout: real, now: int): State
  {
    if timeout <= 0.0 then s
    else
      s.(workers := seq(|s.workers|, i requires 0 <= i < |s.workers| =>
                          var w := s.workers[i];
                          if w.lastHeartbeat < Threshold(timeout, now) && w.phase != "offline"
                          then w.(lastHeartbeat := now, phase := "offline") else w))
  }

  function EnrolLearner(s: State, hello: LearnerHello, token: string, now: int): (State, string)
  {
    match LearnerMatch(s.learners, hello)
    case None =>
      var id := LearnerId(s.learnerSeq + 1);
      var l := LearnerRecord(id, token, OrUnknown(hello.hostname), hello.endpoint, now);
      (s.(learnerSeq := s.learnerSeq + 1, learners := s.learners + [l]), id)
    case Some(i) =>
      var l := s.learners[i];
      var l' := LearnerRecord(l.id, token, if hello.hostname != "" then hello.hostname else l.hostname, hello.endpoint, now);
      (s.(learners := s.learners[i := l']), l.id)
  }

  function RegisterLearner(s: State, hello: LearnerHello, token: string, now: int): (r: State)
    ensures SameUpToQueues(s.workers, r.workers) && r.workerSeq == s.workerSeq && r.learnerSeq >= s.learnerSeq
  {
    var s0 := Reevaluated(s);
    var (s', id) := EnrolLearner(s0, hello, token, now);
    Announce(Endpoint(s0), UpdateActive(s', Some(id)))
  }

  function ValidateLearner(s: State, id: string, token: string): (r: Result<nat, Error>)
    ensures r.Ok? ==> r.value < |s.learners| && LearnerIndex(s.learners, id) == Some(r.value)
                      && s.learners[r.value].token == token
  {
    match LearnerIndex(s.learners, id)
    case None => Err(NotRegistered)
    case Some(i) => if s.learners[i].token != token then Err(InvalidToken) else Ok(i)
  }

  function Refresh(l: LearnerRecord, beat: LearnerBeat, now: int): LearnerRecord
  {
    l.(lastHeartbeat := Stamp(beat.unixMs, now), endpoint := if beat.endpoint != "" then beat.endpoint else l.endpoint)
  }

  function BeatLearner(s: State, payload: Option<LearnerBeat>, now: int): (r: (State, Result<nat, Error>))
    ensures SameUpToQueues(s.workers, r.0.workers) && r.0.workerSeq == s.workerSeq && r.0.learnerSeq == s.learnerSeq
  {
    match payload
    case None => (s, Err(MissingPayload))
    case Some(beat) =>
      var s0 := Reevaluated(s);
      var v := ValidateLearner(s0, beat.id, beat.token);
      if v.Err? then (s0, v)
      else
        var s' := s0.(learners := s.learners[v.value := Refresh(s.learners[v.value], beat, now)]);
        (Announce(Endpoint(s0), UpdateActive(s', Some(beat.id))), v)
  }

  function Survivors(ls: seq<LearnerRecord>, threshold: int): (r: seq<LearnerRecord>)
    ensures forall l :: l in r <==> l in ls && l.lastHeartbeat >= threshold
    ensures |r| <= |ls|
  {
    Filter(ls, (l: LearnerRecord) => l.lastHeartbeat >= threshold)
  }

  function SweepLearners(s: State, timeout: real, now: int): (r: State)
    ensures SameUpToQueues(s.workers, r.workers) && r.workerSeq == s.workerSeq && r.learnerSeq == s.learnerSeq
  {
    if timeout <= 0.0 then s
    else
      var survivors := Survivors(s.learners, Threshold(timeout, now));
      if |survivors| == |s.learners| then s
      else
        var s0 := Reevaluated(s);
        Announce(Endpoint(s0), UpdateActive(s0.(learners := survivors), None))
  }

  /** The heartbeat stream's forwarder takes the head of a worker's queue. */
  function TakeDirective(s: State, i: nat): State
    requires i < |s.workers| && s.workers[i].queue != []
  {
    s.(workers := s.workers[i := s.workers[i].(queue := s.workers[i].queue[1..])])
  }
}
