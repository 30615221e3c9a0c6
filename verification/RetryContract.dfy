// What a recorded failure does to a deferred question: its job moves, and the job's contract is found broken.
module RetryContract {
  import opened Text
  import opened DelayedAttention
  import opened RateLimit

  /** The step records a failure of the stored job. */
  predicate Records(t: Tables, s: Step, jobId: string) {
    s.FailStep? && s.failedJobId == jobId && s.hasAuthority && jobId in t.jobs
  }

  /** When the last failure of the job was recorded. */
  function LastFailure(steps: seq<Step>, jobId: string): Option<int> {
    if steps == [] then None
    else
      var n := |steps| - 1;
      if Records(Run(steps[..n]), steps[n], jobId) then Some(steps[n].failedAt) else LastFailure(steps[..n], jobId)
  }

  /** The last recorded failure of the candidate's job was not at the candidate's due time. */
  predicate Displaced(steps: seq<Step>, c: Candidate) {
    LastFailure(steps, c.jobId).Some? && LastFailure(steps, c.jobId).value != c.notBeforeAt
  }

  // ---------------------------------------------------------------- one step

  /** A step keeps every candidate and moves the job of one only by recording a failure. */
  lemma CandidateStep(t: Tables, s: Step, id: string)
    requires Valid(t) && id in t.candidates
    ensures var u, c := Next(t, s), t.candidates[id];
      && id in u.candidates && u.candidates[id] == c
      && c.jobId in t.jobs && c.jobId in u.jobs
      && u.jobs[c.jobId].scheduledAt == if Records(t, s, c.jobId) then s.failedAt else t.jobs[c.jobId].scheduledAt
  {
    hide Eligible, JobKey, KeyTaken, IdFree, SelectSuppressor, SuppressorsOf;
    assert CandidateOk(t, id);
    if s.DecideStep? {
      DecideWrites(t, s.attempt, s.decisionId, s.suppressorId);
      hide Decide, FirstDecision;
    }
  }

  /** A new candidate comes with a new job, which stands at the due time; jobs stay. */
  lemma JobsStep(t: Tables, s: Step)
    ensures t.jobs.Keys <= Next(t, s).jobs.Keys
    ensures forall id | id in Next(t, s).candidates && id !in t.candidates ::
      Next(t, s).candidates[id].jobId !in t.jobs && AtDueTime(Next(t, s), Next(t, s).candidates[id])
  {
    hide Eligible, JobKey, KeyTaken, IdFree, SelectSuppressor, SuppressorsOf, JobBound;
    if s.DecideStep? {
      DecideWrites(t, s.attempt, s.decisionId, s.suppressorId);
      hide Decide, FirstDecision;
    }
  }

  // ---------------------------------------------------------------- runs

  lemma {:induction false} FailuresAreStored(steps: seq<Step>, jobId: string)
    ensures LastFailure(steps, jobId).Some? ==> jobId in Run(steps).jobs
  {
    if steps != [] {
      hide Next;
      var n := |steps| - 1;
      FailuresAreStored(steps[..n], jobId);
      JobsStep(Run(steps[..n]), steps[n]);
    }
  }

  /** In every run the job of a stored candidate stands at its last recorded failure, and at the due time as long
      as there is none. */
  lemma {:induction false} ScheduleIsHistory(steps: seq<Step>, id: string)
    requires id in Run(steps).candidates
    ensures var c := Run(steps).candidates[id];
      && c.jobId in Run(steps).jobs
      && Run(steps).jobs[c.jobId].scheduledAt ==
           if LastFailure(steps, c.jobId).Some? then LastFailure(steps, c.jobId).value else c.notBeforeAt
  {
    hide Next;
    if steps != [] {
      var n := |steps| - 1;
      var t := Run(steps[..n]);
      if id in t.candidates {
        ScheduleIsHistory(steps[..n], id);
        RunValid(steps[..n]);
        CandidateStep(t, steps[n], id);
      } else {
        JobsStep(t, steps[n]);
        FailuresAreStored(steps[..n], Run(steps).candidates[id].jobId);
      }
    }
  }

  /** In every run the job contract is found broken exactly when an attempt names a stored candidate with its own
      job, at a valid time, and the last recorded failure of that job was not at the due time. */
  lemma BrokenExactlyAfterFailure(steps: seq<Step>, a: Attempt, decisionId: Ulid, suppressorId: Ulid)
    ensures var t := Run(steps);
      Decide(t, a, decisionId, suppressorId).1 == Err(JobContractInvalid) <==>
        Names(t, a) && Displaced(steps, t.candidates[a.candidateId])
  {
    RunValid(steps);
    hide SelectSuppressor, SuppressorsOf, JobKey, Run, IdFree, LastFailure;
    if a.candidateId in Run(steps).candidates {
      assert CandidateOk(Run(steps), a.candidateId);
      ScheduleIsHistory(steps, a.candidateId);
    }
  }

  /** The failures among the steps that move the job back to the due time. */
  predicate MovesBack(s: Step, c: Candidate) {
    s.FailStep? && s.failedJobId == c.jobId && s.failedAt == c.notBeforeAt
  }

  /** A stored candidate stays, whatever runs afterwards. */
  lemma {:induction false} CandidateStays(steps: seq<Step>, more: seq<Step>, id: string)
    requires id in Run(steps).candidates
    ensures id in Run(steps + more).candidates && Run(steps + more).candidates[id] == Run(steps).candidates[id]
    decreases |more|
  {
    hide Run, Next;
    if more == [] {
      assert steps + more == steps;
    } else {
      var n := |more| - 1;
      CandidateStays(steps, more[..n], id);
      assert steps + more == steps + more[..n] + [more[n]];
      RunMore(steps + more[..n], more[n]);
      RunValid(steps + more[..n]);
      CandidateStep(Run(steps + more[..n]), more[n], id);
    }
  }

  lemma DisplacedStep(steps: seq<Step>, s: Step, c: Candidate)
    requires Displaced(steps, c) && !MovesBack(s, c)
    ensures Displaced(steps + [s], c)
  {
    assert (steps + [s])[..|steps|] == steps;
    hide Run;
  }

  /** An attempt refused for the broken contract decides nothing for its candidate. */
  lemma RefusedStep(steps: seq<Step>, s: Step, id: string)
    requires id in Run(steps).candidates && Displaced(steps, Run(steps).candidates[id])
    ensures var t, u := Run(steps), Next(Run(steps), s);
      (id in u.decisions <==> id in t.decisions) && (id in t.decisions ==> u.decisions[id] == t.decisions[id])
  {
    var t := Run(steps);
    RunValid(steps);
    assert CandidateOk(t, id);
    match s {
      case DecideStep(a, decisionId, suppressorId) =>
        BrokenExactlyAfterFailure(steps, a, decisionId, suppressorId);
        hide SelectSuppressor, SuppressorsOf, JobBound, IdFree, Run, Displaced;
        if FirstDecision(t, a, decisionId, suppressorId) { CandidatesNamed(t, a); }
        DecideWrites(t, a, decisionId, suppressorId);
      case EnqueueStep(rawId, createdAt, candidateId, jobId) =>
        EnqueueAdds(t, rawId, createdAt, candidateId, jobId);
        hide Enqueue;
      case _ =>
    }
  }

  /** Once a failure is recorded at another time than the due time, and until one is recorded at just that time,
      no later step decides the question, and every attempt is refused: it changes nothing, and reads no earlier
      decision back. */
  lemma {:induction false} RefusedAfterFailure(steps: seq<Step>, more: seq<Step>, id: string)
    requires id in Run(steps).candidates && Displaced(steps, Run(steps).candidates[id])
    requires forall s | s in more :: !MovesBack(s, Run(steps).candidates[id])
    ensures var t, u, c := Run(steps), Run(steps + more), Run(steps).candidates[id];
      && id in u.candidates && u.candidates[id] == c && Displaced(steps + more, c)
      && (id in u.decisions <==> id in t.decisions) && (id in t.decisions ==> u.decisions[id] == t.decisions[id])
      && forall a: Attempt, decisionId: Ulid, suppressorId: Ulid | a.candidateId == id ::
           var (v, r) := Decide(u, a, decisionId, suppressorId); v == u && r.Err?
    decreases |more|
  {
    hide Run, Next, Displaced, MovesBack;
    if more == [] {
      assert steps + more == steps;
    } else {
      var n := |more| - 1;
      RefusedAfterFailure(steps, more[..n], id);
      assert steps + more == steps + more[..n] + [more[n]];
      RunMore(steps + more[..n], more[n]);
      DisplacedStep(steps + more[..n], more[n], Run(steps).candidates[id]);
      RefusedStep(steps + more[..n], more[n], id);
      CandidateStays(steps, more, id);
    }
    forall a: Attempt, decisionId: Ulid, suppressorId: Ulid | a.candidateId == id
      ensures var (v, r) := Decide(Run(steps + more), a, decisionId, suppressorId); v == Run(steps + more) && r.Err?
    {
      BrokenExactlyAfterFailure(steps + more, a, decisionId, suppressorId);
      Refusal(Run(steps + more), a, decisionId, suppressorId);
    }
  }

  lemma Refusal(t: Tables, a: Attempt, decisionId: Ulid, suppressorId: Ulid)
    ensures var (u, r) := Decide(t, a, decisionId, suppressorId);
      && (r == Err(JobContractInvalid) ==> u == t)
      && (a.candidateId in t.candidates && !Names(t, a) ==> u == t && r.Err?)
  {
    hide SelectSuppressor, SuppressorsOf, JobBound, IdFree;
  }

  /** Recording a failure at another time than the due time is what displaces the job. */
  lemma FailureDisplaces(steps: seq<Step>, id: string, failedAt: int)
    requires id in Run(steps).candidates
    ensures var c := Run(steps).candidates[id];
      var more := steps + [FailStep(c.jobId, failedAt, true)];
      && id in Run(more).candidates && Run(more).candidates[id] == c
      && (Displaced(more, c) <==> failedAt != c.notBeforeAt)
  {
    var c := Run(steps).candidates[id];
    var more := steps + [FailStep(c.jobId, failedAt, true)];
    assert more[..|steps|] == steps;
    ScheduleIsHistory(steps, id);
    CandidateStays(steps, [FailStep(c.jobId, failedAt, true)], id);
    hide Run;
  }

  /** Enqueueing an event again, at any later time, writes nothing; it returns the stored candidate exactly when
      no failure has displaced its job, and otherwise finds the contract broken. */
  lemma EnqueueIsIdempotent(
    steps: seq<Step>, rawId: string, createdAt: int, candidateId: Ulid, jobId: Ulid, more: seq<Step>,
    laterAt: int, otherId: Ulid, otherJob: Ulid)
    requires Enqueue(Run(steps), rawId, createdAt, candidateId, jobId).1.Ok?
    ensures var c := Enqueue(Run(steps), rawId, createdAt, candidateId, jobId).1.value;
      var later := steps + [EnqueueStep(rawId, createdAt, candidateId, jobId)] + more;
      Enqueue(Run(later), rawId, laterAt, otherId, otherJob) ==
        (Run(later), if Displaced(later, c) then Err(JobContractInvalid) else Ok(c))
  {
    var s := EnqueueStep(rawId, createdAt, candidateId, jobId);
    var c := Enqueue(Run(steps), rawId, createdAt, candidateId, jobId).1.value;
    var first, later := steps + [s], steps + [s] + more;
    RunValid(steps);
    EnqueueStores(Run(steps), rawId, createdAt, candidateId, jobId);
    RunMore(steps, s);
    CandidateStays(first, more, c.id);
    hide Enqueue;
    EnqueueAgain(later, c.id, laterAt, otherId, otherJob);
  }

  lemma EnqueueStores(t: Tables, rawId: string, createdAt: int, candidateId: Ulid, jobId: Ulid)
    requires Valid(t)
    ensures var (u, r) := Enqueue(t, rawId, createdAt, candidateId, jobId);
      r.Ok? ==> r.value.id in u.candidates && u.candidates[r.value.id] == r.value && r.value.sourceRawEventId == rawId
  {
    hide Eligible, JobKey, KeyTaken, Insertable;
    if rawId in t.bySource { assert SourceOk(t, rawId) && CandidateOk(t, t.bySource[rawId]); }
  }

  lemma EnqueueAgain(steps: seq<Step>, id: string, createdAt: int, candidateId: Ulid, jobId: Ulid)
    requires id in Run(steps).candidates
    ensures var t, c := Run(steps), Run(steps).candidates[id];
      Enqueue(t, c.sourceRawEventId, createdAt, candidateId, jobId) ==
        (t, if Displaced(steps, c) then Err(JobContractInvalid) else Ok(c))
  {
    RunValid(steps);
    ScheduleIsHistory(steps, id);
    assert CandidateOk(Run(steps), id);
    hide Run, LastFailure, JobKey, Eligible, KeyTaken, Insertable;
  }

  // ---------------------------------------------------------------- a run

  const FAILED := MOMENT + 15001
  const RETRIED := MOMENT + 20000

  /** A question is stored; its first attempt fails a millisecond after it is due, with or without its lease. */
  function FailedSteps(hasAuthority: bool): seq<Step> {
    [IngressStep(MESSAGES, Sources()), Ask(A), FailStep(A, FAILED, hasAuthority)]
  }

  function Retry(): Attempt {
    Attempt(A, A, A, RETRIED, true)
  }

  /** The retry, due and under its lease, is refused; had the first attempt lost its lease before it failed, the
      retry would answer. */
  lemma RetryRefused()
    ensures Decide(Run(FailedSteps(true)), Retry(), A, A).1 == Err(JobContractInvalid)
    ensures var r := Decide(Run(FailedSteps(false)), Retry(), A, A).1; r.Ok? && r.value.row.outcome == Respond
  {
    RunOfFailed(true);
    RunOfFailed(false);
    assert Fail(Stored([A]), A, FAILED, false).0 == Stored([A]);
    hide *;
    RefusedOnce();
    AnsweredOnce();
  }

  lemma RunOfFailed(hasAuthority: bool)
    ensures Run(FailedSteps(hasAuthority)) == Fail(Stored([A]), A, FAILED, hasAuthority).0
  {
    IngressFirst();
    var s := FailedSteps(hasAuthority);
    assert [IngressStep(MESSAGES, Sources())] == s[..1] && s[..1] + [s[1]] == s[..2] && s[..2] + [s[2]] == s;
    assert s[1] == Ask(A) && [] + [A] == [A];
    assert forall t :: Next(t, s[2]) == Fail(t, A, FAILED, hasAuthority).0;
    hide *;
    RunMore(s[..1], s[1]);
    RunMore(s[..2], s[2]);
    AskNext([], A);
  }

  lemma RefusedOnce()
    ensures Decide(Fail(Stored([A]), A, FAILED, true).0, Retry(), A, A).1 == Err(JobContractInvalid)
  {
    StoredRows([A]);
    hide Stored, JobKept, JobKey, Sources, MESSAGES, SelectSuppressor;
  }

  lemma AnsweredOnce()
    ensures var r := Decide(Stored([A]), Retry(), A, A).1; r.Ok? && r.value.row.outcome == Respond
  {
    StoredRows([A]);
    var t := Stored([A]);
    assert Answered([A], map[]) == t;
    hide Stored, SelectSuppressor, JobBound, IdFree, Sources, MESSAGES;
    AnsweredCount([A], map[], RETRIED, {});
    DecideNext([A], map[], A, RETRIED);
    var u := Decide(t, Retry(), A, A).0;
    assert u == Answered([A], map[A := Answer(A, RETRIED)]);
    assert A in u.decisions && u.decisions[A].outcome == Respond;
  }
}
