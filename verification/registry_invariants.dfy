/** What every call of the coordinator keeps, and why, call by call. */
module RegistryInvariants {
  import opened Prelude
  import opened RegistrySpec

  // ----- identifiers are never reused -----

  function NumberOf(s: string): int
  {
    if s == "" then 0 else 10 * NumberOf(s[..|s| - 1]) + (s[|s| - 1] as int - '0' as int)
  }

  lemma {:induction false} NumberOfDigits(n: nat)
    ensures NumberOf(Digits(n)) == n
  {
    var d := Digits(n);
    if n >= 10 {
      NumberOfDigits(n / 10);
      assert d[..|d| - 1] == Digits(n / 10);
    } else {
      assert d[..0] == "";
    }
  }

  lemma {:induction false} LeadingZeros(zeros: string, s: string)
    requires forall c :: c in zeros ==> c == '0'
    ensures NumberOf(zeros + s) == NumberOf(s)
    decreases |zeros| + |s|
  {
    if s != "" {
      assert (zeros + s)[..|zeros + s| - 1] == zeros + s[..|s| - 1];
      LeadingZeros(zeros, s[..|s| - 1]);
    } else if zeros != "" {
      var fewer := zeros[..|zeros| - 1];
      assert zeros + s == zeros && fewer + s == fewer;
      assert forall c :: c in fewer ==> c in zeros;
      assert zeros[|zeros| - 1] in zeros;
      LeadingZeros(fewer, s);
    }
  }

  /** Ids stay distinct past four digits, where the padding stops. */
  lemma PaddedIdsAreInjective(m: nat, n: nat)
    ensures WorkerId(m) == WorkerId(n) ==> m == n
    ensures LearnerId(m) == LearnerId(n) ==> m == n
  {
    NumberOfPad(m);
    NumberOfPad(n);
    assert WorkerId(m)[7..] == Pad4(m) && WorkerId(n)[7..] == Pad4(n);
    assert LearnerId(m)[8..] == Pad4(m) && LearnerId(n)[8..] == Pad4(n);
  }

  lemma NumberOfPad(n: nat)
    ensures NumberOf(Pad4(n)) == n
  {
    NumberOfDigits(n);
    var d := Digits(n);
    if |d| < 4 {
      LeadingZeros(seq(4 - |d|, _ => '0'), d);
    }
  }

  ghost predicate AreDigits(s: string)
  {
    forall c :: c in s ==> '0' <= c <= '9'
  }

  lemma {:induction false} DigitsAreDigits(n: nat)
    ensures AreDigits(Digits(n))
    ensures n >= 10 ==> |Digits(n)| == |Digits(n / 10)| + 1
  {
    if n >= 10 { DigitsAreDigits(n / 10); }
  }

  /** A padded number is spelled in decimal digits, at least four of them and no more than needed past that. */
  lemma PadIsDecimal(n: nat)
    ensures NumberOf(Pad4(n)) == n && AreDigits(Pad4(n)) && |Pad4(n)| >= 4
    ensures |Pad4(n)| > 4 ==> n >= 10000 && Pad4(n) == Digits(n)
  {
    NumberOfPad(n);
    DigitsAreDigits(n);
    if n >= 10 { DigitsAreDigits(n / 10); }
    if n >= 100 { DigitsAreDigits(n / 10 / 10); }
    if n >= 1000 { DigitsAreDigits(n / 10 / 10 / 10); }
  }

  // ----- invariants of reachable states -----

  ghost predicate WorkersOk(s: State)
  {
    |s.workers| == s.workerSeq && forall i :: 0 <= i < |s.workers| ==> s.workers[i].id == WorkerId(i + 1)
  }

  ghost predicate LearnersOk(s: State)
  {
    && (forall i :: 0 <= i < |s.learners| ==> exists k :: 1 <= k <= s.learnerSeq && s.learners[i].id == LearnerId(k))
    && Distinct(s.learners)
  }

  /** The active learner exists exactly when a learner does, and it has an endpoint if any learner has one. */
  ghost predicate Settled(s: State)
  {
    && (s.active.None? <==> s.learners == [])
    && (s.active.Some? ==> LearnerIndex(s.learners, s.active.value).Some?)
    && ((exists l :: l in s.learners && l.endpoint != "") ==> Endpoint(s) != "")
  }

  ghost predicate QueuesOk(s: State)
  {
    forall i :: 0 <= i < |s.workers| ==> |s.workers[i].queue| <= QUEUE_CAPACITY && IsSuffix(s.workers[i].queue, s.log)
  }

  function LastTarget(log: seq<Directive>): string
  {
    if log == [] then "" else log[|log| - 1].target
  }

  ghost predicate Alternating(log: seq<Directive>)
  {
    && (forall i :: 0 <= i < |log| ==> log[i].kind == SwitchLearner)
    && (log != [] ==> log[0].target != "")
    && (forall i :: 0 < i < |log| ==> log[i - 1].target != log[i].target)
  }

  /** Well-formed, except that the log may still lag behind at the endpoint `announced`. */
  ghost predicate WellFormedAt(s: State, announced: string)
  {
    && WorkersOk(s) && LearnersOk(s) && Settled(s) && QueuesOk(s)
    && Alternating(s.log) && LastTarget(s.log) == announced
  }

  ghost predicate WellFormed(s: State)
  {
    WellFormedAt(s, Endpoint(s))
  }

  lemma UpdateActiveSettles(s: State, id: Option<string>)
    requires LearnersOk(s)
    ensures Settled(UpdateActive(s, id)) && UpdateActive(s, id) == s.(active := UpdateActive(s, id).active)
  {
    FallBackSettles(s.(active := Chosen(s, id)));
  }

  lemma FallBackSettles(s: State)
    requires Distinct(s.learners) && (s.active.Some? ==> LearnerIndex(s.learners, s.active.value).Some?)
    ensures Settled(FallBack(s))
  {
    NoCandidates(s.learners);
    var candidates := Candidates(s.learners);
    if Endpoint(s) == "" && candidates != [] {
      var l := candidates[Newest(candidates)];
      assert l in candidates;
      var j :| 0 <= j < |s.learners| && s.learners[j] == l;
      LearnerIndexIsUnique(s.learners, j);
    }
  }

  lemma LearnerIndexIsUnique(ls: seq<LearnerRecord>, i: nat)
    requires Distinct(ls) && i < |ls|
    ensures LearnerIndex(ls, ls[i].id) == Some(i)
  {
  }

  /** Between operations, re-evaluating the active learner changes nothing. */
  lemma UpdateActiveIsIdle(s: State)
    requires Settled(s)
    ensures UpdateActive(s, None) == s && Reevaluated(s) == s
  {
    NoCandidates(s.learners);
  }

  /** What a registration leaves behind when the active learner is settled. */
  lemma RegisteredSettled(s: State, hello: WorkerHello, token: string, now: int)
    requires Settled(s)
    ensures var (s', session) := RegisterWorker(s, hello, token, now); var i := WorkerMatch(s.workers, hello);
      && session.target == Endpoint(s)
      && s' == s.(workers := s'.workers, workerSeq := if i.Some? then s.workerSeq else s.workerSeq + 1)
      && Endpoint(s') == Endpoint(s)
  {
    var s' := RegisterWorker(s, hello, token, now).0;
    UpdateActiveIsIdle(s);
    UpdateActiveIsIdle(s.(workers := s'.workers, workerSeq := s'.workerSeq));
  }

  lemma NoCandidates(ls: seq<LearnerRecord>)
    ensures Candidates(ls) == [] <==> !exists l :: l in ls && l.endpoint != ""
  {
    if Candidates(ls) != [] {
      assert Candidates(ls)[0] in Candidates(ls);
    }
  }

  /** A full queue stays full: no more is dropped than has to be. */
  lemma EnqueueDropsOldest(q: seq<Directive>, d: Directive)
    requires |q| <= QUEUE_CAPACITY
    ensures Enqueue(q, d) == if |q| == QUEUE_CAPACITY then q[1..] + [d] else q + [d]
  {
  }

  lemma EnqueueKeepsSuffix(q: seq<Directive>, log: seq<Directive>, d: Directive)
    requires IsSuffix(q, log)
    ensures IsSuffix(Enqueue(q, d), log + [d])
  {
  }

  lemma AnnounceKeeps(s: State, previous: string)
    requires WellFormedAt(s, previous)
    ensures WellFormed(Announce(previous, s))
  {
    if previous != Endpoint(s) {
      PushKeepsQueues(s, Directive(SwitchLearner, Endpoint(s)));
      PushAlternates(s.log, Directive(SwitchLearner, Endpoint(s)));
    }
  }

  lemma PushKeepsQueues(s: State, d: Directive)
    requires QueuesOk(s)
    ensures QueuesOk(PushAll(s, d))
  {
    var s' := PushAll(s, d);
    forall i | 0 <= i < |s'.workers|
      ensures |s'.workers[i].queue| <= QUEUE_CAPACITY && IsSuffix(s'.workers[i].queue, s'.log)
    {
      EnqueueKeepsSuffix(s.workers[i].queue, s.log, d);
    }
  }

  lemma PushAlternates(log: seq<Directive>, d: Directive)
    requires Alternating(log) && d.kind == SwitchLearner && LastTarget(log) != d.target
    ensures Alternating(log + [d]) && LastTarget(log + [d]) == d.target
  {
  }

  lemma EnrolKeeps(s: State, hello: LearnerHello, token: string, now: int)
    requires LearnersOk(s)
    ensures LearnersOk(EnrolLearner(s, hello, token, now).0)
    ensures var (s', id) := EnrolLearner(s, hello, token, now); LearnerIndex(s'.learners, id).Some?
  {
    var (s', id) := EnrolLearner(s, hello, token, now);
    if LearnerMatch(s.learners, hello).None? {
      assert s'.learners[|s.learners|].id == LearnerId(s'.learnerSeq);
      forall i | 0 <= i < |s.learners| ensures s.learners[i].id != id {
        var k :| 1 <= k <= s.learnerSeq && s.learners[i].id == LearnerId(k);
        PaddedIdsAreInjective(k, s.learnerSeq + 1);
      }
    } else {
      var i := LearnerMatch(s.learners, hello).value;
      assert s'.learners[i].id == id;
    }
  }

  ghost predicate Distinct(ls: seq<LearnerRecord>)
  {
    forall i, j :: 0 <= i < j < |ls| ==> ls[i].id != ls[j].id
  }

  lemma {:induction false} SurvivorsDistinct(ls: seq<LearnerRecord>, threshold: int)
    requires Distinct(ls)
    ensures Distinct(Survivors(ls, threshold))
  {
    if ls != [] {
      var rest := ls[1..];
      SurvivorsDistinct(rest, threshold);
      SurvivorsStep(ls, threshold);
      forall l | l in Survivors(rest, threshold) ensures l.id != ls[0].id {
        var j :| 0 <= j < |rest| && rest[j] == l;
        assert ls[j + 1] == l;
      }
    }
  }

  lemma SurvivorsStep(ls: seq<LearnerRecord>, threshold: int)
    requires ls != []
    ensures Survivors(ls, threshold)
            == (if ls[0].lastHeartbeat >= threshold then [ls[0]] else []) + Survivors(ls[1..], threshold)
  {
  }

  lemma SweepKeeps(s: State, timeout: real, now: int)
    requires WellFormed(s)
    ensures WellFormed(SweepLearners(s, timeout, now))
  {
    UpdateActiveIsIdle(s);
    var survivors := Survivors(s.learners, Threshold(timeout, now));
    if timeout > 0.0 && |survivors| != |s.learners| {
      SurvivorsKeepLearnersOk(s, Threshold(timeout, now));
      LearnersRewritten(s, s.(learners := survivors), None);
    }
  }

  lemma SurvivorsKeepLearnersOk(s: State, threshold: int)
    requires LearnersOk(s)
    ensures LearnersOk(s.(learners := Survivors(s.learners, threshold)))
  {
    var survivors := Survivors(s.learners, threshold);
    SurvivorsDistinct(s.learners, threshold);
    forall i | 0 <= i < |survivors| ensures exists k :: 1 <= k <= s.learnerSeq && survivors[i].id == LearnerId(k) {
      assert survivors[i] in s.learners;
    }
  }

  /** What every learner call ends with: the active learner is settled again and the endpoint announced. */
  lemma LearnersRewritten(s: State, s': State, id: Option<string>)
    requires WellFormed(s) && s' == s.(learners := s'.learners, learnerSeq := s'.learnerSeq) && LearnersOk(s')
    ensures WellFormed(Announce(Endpoint(s), UpdateActive(s', id)))
  {
    UpdateActiveSettles(s', id);
    AnnounceKeeps(UpdateActive(s', id), Endpoint(s));
  }

  lemma BeatLearnerKeeps(s: State, payload: Option<LearnerBeat>, now: int)
    requires WellFormed(s)
    ensures WellFormed(BeatLearner(s, payload, now).0)
  {
    UpdateActiveIsIdle(s);
    if payload.Some? {
      var beat := payload.value;
      var v := ValidateLearner(s, beat.id, beat.token);
      if v.Ok? {
        var l := Refresh(s.learners[v.value], beat, now);
        RewriteKeepsLearners(s, v.value, l);
        var s' := s.(learners := s.learners[v.value := l]);
        LearnersRewritten(s, s', Some(beat.id));
      }
    }
  }

  lemma RewriteKeepsLearners(s: State, i: nat, l: LearnerRecord)
    requires LearnersOk(s) && i < |s.learners| && l.id == s.learners[i].id
    ensures LearnersOk(s.(learners := s.learners[i := l]))
  {
  }

  lemma RegisterLearnerKeeps(s: State, hello: LearnerHello, token: string, now: int)
    requires WellFormed(s)
    ensures WellFormed(RegisterLearner(s, hello, token, now))
  {
    UpdateActiveIsIdle(s);
    var (s', id) := EnrolLearner(s, hello, token, now);
    EnrolKeeps(s, hello, token, now);
    LearnersRewritten(s, s', Some(id));
  }

  /** s' keeps all of s but the workers, whose ids stay and whose queues only lose entries at the front. */
  ghost predicate WorkersOnly(s: State, s': State)
  {
    && s' == s.(workers := s'.workers, workerSeq := s'.workerSeq)
    && |s.workers| <= |s'.workers|
    && (forall i :: 0 <= i < |s.workers| ==>
          s'.workers[i].id == s.workers[i].id && IsSuffix(s'.workers[i].queue, s.workers[i].queue))
    && |s'.workers| - |s.workers| == s'.workerSeq - s.workerSeq
    && (forall i :: |s.workers| <= i < |s'.workers| ==>
          s'.workers[i].queue == [] && s'.workers[i].id == WorkerId(s.workerSeq + 1 + i - |s.workers|))
  }

  lemma RewriteIsWorkersOnly(s: State, i: nat, w: WorkerRecord)
    requires i < |s.workers| && w.id == s.workers[i].id && IsSuffix(w.queue, s.workers[i].queue)
    ensures WorkersOnly(s, s.(workers := s.workers[i := w]))
  {
  }

  lemma SweepIsWorkersOnly(s: State, timeout: real, now: int)
    ensures WorkersOnly(s, SweepWorkers(s, timeout, now))
  {
  }

  lemma AppendIsWorkersOnly(s: State, w: WorkerRecord)
    requires w.id == WorkerId(s.workerSeq + 1) && w.queue == []
    ensures WorkersOnly(s, s.(workers := s.workers + [w], workerSeq := s.workerSeq + 1))
  {
  }

  lemma JoinRecords(s: State, hello: WorkerHello, token: string, now: int)
    ensures var s' := RegisterWorker(s, hello, token, now).0;
      match WorkerMatch(s.workers, hello)
      case None =>
        && |s'.workers| == |s.workers| + 1 && s'.workers == s.workers + [s'.workers[|s.workers|]]
        && s'.workers[|s.workers|].id == WorkerId(s.workerSeq + 1) && s'.workers[|s.workers|].queue == []
      case Some(i) =>
        && |s'.workers| == |s.workers| && s'.workers == s.workers[i := s'.workers[i]]
        && s'.workers[i].id == s.workers[i].id && s'.workers[i].queue == s.workers[i].queue
  {
  }

  lemma JoinIsLocal(s: State, hello: WorkerHello, token: string, now: int)
    requires Settled(s)
    ensures WorkersOnly(s, RegisterWorker(s, hello, token, now).0)
  {
    var s' := RegisterWorker(s, hello, token, now).0;
    RegisteredSettled(s, hello, token, now);
    JoinRecords(s, hello, token, now);
    match WorkerMatch(s.workers, hello)
    case None => AppendIsWorkersOnly(s, s'.workers[|s.workers|]);
    case Some(i) => RewriteIsWorkersOnly(s, i, s'.workers[i]);
  }

  lemma WorkersOnlyKeeps(s: State, s': State)
    requires WellFormed(s) && WorkersOnly(s, s')
    ensures WellFormed(s')
  {
    forall i | 0 <= i < |s'.workers|
      ensures |s'.workers[i].queue| <= QUEUE_CAPACITY && IsSuffix(s'.workers[i].queue, s'.log)
    {
      if i < |s.workers| {
        SuffixTrans(s'.workers[i].queue, s.workers[i].queue, s.log);
      }
    }
  }

  lemma SuffixTrans<T>(xs: seq<T>, ys: seq<T>, zs: seq<T>)
    requires IsSuffix(xs, ys) && IsSuffix(ys, zs)
    ensures IsSuffix(xs, zs)
  {
  }

  // ----- a directive is pushed exactly when the endpoint changes -----

  ghost predicate Quiet(s: State, s': State)
  {
    s'.log == s.log && Endpoint(s') == Endpoint(s)
  }

  ghost predicate Switched(s: State, s': State)
  {
    && Endpoint(s') != Endpoint(s)
    && s'.log == s.log + [Directive(SwitchLearner, Endpoint(s'))]
    && |s'.workers| == |s.workers|
    && forall i :: 0 <= i < |s.workers| ==>
         s'.workers[i] == s.workers[i].(queue := Enqueue(s.workers[i].queue, Directive(SwitchLearner, Endpoint(s'))))
  }

  lemma BeatSwitches(s: State, payload: Option<LearnerBeat>, now: int)
    requires Reevaluated(s) == s
    ensures var s' := BeatLearner(s, payload, now).0;
      Switched(s, s') || (Quiet(s, s') && s'.workers == s.workers)
  {
    if payload.Some? && ValidateLearner(s, payload.value.id, payload.value.token).Ok? {
      var beat := payload.value;
      var v := ValidateLearner(s, beat.id, beat.token).value;
      var s' := s.(learners := s.learners[v := Refresh(s.learners[v], beat, now)]);
      AnnounceSwitches(s, UpdateActive(s', Some(beat.id)));
    }
  }

  lemma AnnounceSwitches(s: State, s': State)
    requires s'.workers == s.workers && s'.log == s.log
    ensures var s2 := Announce(Endpoint(s), s'); Switched(s, s2) || (Quiet(s, s2) && s2.workers == s.workers)
  {
  }

  // ----- convergence -----

  /** The target a worker ends on once it has consumed its queue. */
  function Settle(told: string, q: seq<Directive>): string
  {
    if q == [] then told else q[|q| - 1].target
  }

  /** What one worker was told, plus its queue, leads to the endpoint; the queue ends the log since its creation. */
  ghost predicate Served(told: string, born: nat, q: seq<Directive>, endpoint: string, log: seq<Directive>)
  {
    Settle(told, q) == endpoint && born <= |log| && IsSuffix(q, log[born..])
  }

  lemma PushServes(told: string, born: nat, q: seq<Directive>, endpoint: string, log: seq<Directive>, d: Directive)
    requires Served(told, born, q, endpoint, log)
    ensures Served(told, born, Enqueue(q, d), d.target, log + [d])
  {
    assert (log + [d])[born..] == log[born..] + [d];
    EnqueueKeepsSuffix(q, log[born..], d);
  }

  lemma TakeServes(told: string, born: nat, q: seq<Directive>, endpoint: string, log: seq<Directive>)
    requires Served(told, born, q, endpoint, log) && q != []
    ensures Served(q[0].target, born, q[1..], endpoint, log)
  {
    SuffixTrans(q[1..], q, log[born..]);
  }

  ghost predicate SameQueues(s: State, s': State)
  {
    |s'.workers| == |s.workers| && forall i :: 0 <= i < |s.workers| ==> s'.workers[i].queue == s.workers[i].queue
  }

  lemma SuffixAlternates(q: seq<Directive>, log: seq<Directive>)
    requires IsSuffix(q, log) && Alternating(log)
    ensures forall k :: 0 < k < |q| ==> q[k - 1].target != q[k].target
  {
    assert forall k :: 0 <= k < |q| ==> q[k] == log[|log| - |q| + k];
  }

  // ----- sessions -----

  function LastIssued(issued: seq<Session>, id: string): Option<string>
  {
    if issued == [] then None
    else if issued[|issued| - 1].id == id then Some(issued[|issued| - 1].token)
    else LastIssued(issued[..|issued| - 1], id)
  }

  function CurrentToken(s: State, id: string): Option<string>
  {
    TokenOf(s.workers, id)
  }

  lemma SameTokens(s: State, s': State, id: string)
    requires |s'.workers| == |s.workers|
    requires forall j :: 0 <= j < |s.workers| ==> s'.workers[j].id == s.workers[j].id && s'.workers[j].token == s.workers[j].token
    ensures CurrentToken(s', id) == CurrentToken(s, id)
  {
  }

  function TokenOf(ws: seq<WorkerRecord>, id: string): Option<string>
  {
    match WorkerIndex(ws, id)
    case None => None
    case Some(i) => Some(ws[i].token)
  }

  lemma TokenOfAppended(ws: seq<WorkerRecord>, w: WorkerRecord, id: string)
    requires forall j :: 0 <= j < |ws| ==> ws[j].id != w.id
    ensures TokenOf(ws + [w], id) == if w.id == id then Some(w.token) else TokenOf(ws, id)
  {
    var ws' := ws + [w];
    assert ws'[|ws|] == w && forall j :: 0 <= j < |ws| ==> ws'[j] == ws[j];
  }

  lemma TokenOfRewritten(ws: seq<WorkerRecord>, i: nat, w: WorkerRecord, id: string)
    requires i < |ws| && w.id == ws[i].id && forall j, k :: 0 <= j < k < |ws| ==> ws[j].id != ws[k].id
    ensures TokenOf(ws[i := w], id) == if w.id == id then Some(w.token) else TokenOf(ws, id)
  {
    var ws' := ws[i := w];
    assert ws'[i] == w && forall j :: 0 <= j < |ws| && j != i ==> ws'[j] == ws[j];
  }

  lemma WorkerIdsAreDistinct(s: State)
    requires WorkersOk(s)
    ensures forall i, j :: 0 <= i < j < |s.workers| ==> s.workers[i].id != s.workers[j].id
  {
    forall i, j | 0 <= i < j < |s.workers| ensures s.workers[i].id != s.workers[j].id {
      PaddedIdsAreInjective(i + 1, j + 1);
    }
  }

  // ----- learner sessions -----

  function LearnerToken(ls: seq<LearnerRecord>, id: string): Option<string>
  {
    match LearnerIndex(ls, id)
    case None => None
    case Some(i) => Some(ls[i].token)
  }

  lemma LearnerTokenAt(ls: seq<LearnerRecord>, i: nat)
    requires Distinct(ls) && i < |ls|
    ensures LearnerToken(ls, ls[i].id) == Some(ls[i].token)
  {
    LearnerIndexIsUnique(ls, i);
  }

  /** Ids and tokens in the same places give the same sessions. */
  lemma SameLearnerTokens(ls: seq<LearnerRecord>, ls': seq<LearnerRecord>, id: string)
    requires |ls'| == |ls| && forall i :: 0 <= i < |ls| ==> ls'[i].id == ls[i].id && ls'[i].token == ls[i].token
    ensures LearnerToken(ls', id) == LearnerToken(ls, id)
  {
  }

  lemma EnrolIssuesToken(s: State, hello: LearnerHello, token: string, now: int, id: string)
    requires LearnersOk(s)
    ensures var (s', got) := EnrolLearner(s, hello, token, now);
      LearnerToken(s'.learners, id) == if got == id then Some(token) else LearnerToken(s.learners, id)
  {
    var (s', got) := EnrolLearner(s, hello, token, now);
    EnrolKeeps(s, hello, token, now);
    var m := LearnerMatch(s.learners, hello);
    var slot := if m.Some? then m.value else |s.learners|;
    assert s'.learners[slot].id == got && s'.learners[slot].token == token;
    assert forall j :: 0 <= j < |s'.learners| && j != slot ==> s'.learners[j] == s.learners[j];
    if got == id {
      LearnerTokenAt(s'.learners, slot);
    } else {
      OtherTokenStays(s.learners, s'.learners, slot, id);
    }
  }

  lemma OtherTokenStays(ls: seq<LearnerRecord>, ls': seq<LearnerRecord>, slot: nat, id: string)
    requires Distinct(ls) && Distinct(ls') && slot < |ls'| && |ls| <= |ls'| <= |ls| + 1 && (|ls| < |ls'| ==> slot == |ls|)
    requires forall j :: 0 <= j < |ls'| && j != slot ==> ls'[j] == ls[j]
    requires ls'[slot].id != id && (slot < |ls| ==> ls[slot].id != id)
    ensures LearnerToken(ls', id) == LearnerToken(ls, id)
  {
    var i := LearnerIndex(ls, id);
    if i.Some? {
      LearnerTokenAt(ls', i.value);
    } else {
      assert forall j :: 0 <= j < |ls'| ==> ls'[j].id != id;
    }
  }

  lemma SurvivorToken(ls: seq<LearnerRecord>, threshold: int, id: string)
    requires Distinct(ls)
    ensures LearnerToken(Survivors(ls, threshold), id)
            == if exists l :: l in ls && l.id == id && l.lastHeartbeat < threshold then None else LearnerToken(ls, id)
  {
    var rest := Survivors(ls, threshold);
    SurvivorsDistinct(ls, threshold);
    var i := LearnerIndex(ls, id);
    if i.Some? {
      var l := ls[i.value];
      assert l in ls && forall l' :: l' in ls && l'.id == id ==> l' == l;
      if l in rest {
        var j :| 0 <= j < |rest| && rest[j] == l;
        LearnerTokenAt(rest, j);
      }
    }
    var k := LearnerIndex(rest, id);
    if k.Some? {
      assert rest[k.value] in rest;
      var j :| 0 <= j < |ls| && ls[j] == rest[k.value];
    }
  }

  lemma BeatKeepsTokens(s: State, payload: Option<LearnerBeat>, now: int, id: string)
    ensures LearnerToken(BeatLearner(s, payload, now).0.learners, id) == LearnerToken(s.learners, id)
  {
    SameLearnerTokens(s.learners, BeatLearner(s, payload, now).0.learners, id);
  }
}
