// The limit of two responses per group in any 600000 ms: exactly when it holds.
module RateLimit {
  import opened Text
  import opened Sequences
  import opened DelayedAttention

  /** The responses of the 600000 ms that follow `lo`. */
  function InWindow(t: Tables, groupId: string, lo: int): set<string> {
    Responses(t, groupId, lo, lo + BUDGET_WINDOW_MS)
  }

  ghost predicate Limited(t: Tables) {
    forall groupId, lo :: |InWindow(t, groupId, lo)| <= BUDGET_LIMIT
  }

  predicate Responded(t: Tables, id: string, groupId: string) {
    id in t.decisions && t.decisions[id].outcome == Respond && id in t.candidates && t.candidates[id].groupId == groupId
  }

  predicate Close(x: int, y: int) {
    -BUDGET_WINDOW_MS < x - y < BUDGET_WINDOW_MS
  }

  /** Two responses of the group are stored, one of them dated after `now`, that span less than the window
      together with `now`. */
  predicate Crowded(t: Tables, groupId: string, now: int) {
    exists x, y | x in t.decisions && y in t.decisions :: Crowds(t, groupId, now, x, y)
  }

  predicate Crowds(t: Tables, groupId: string, now: int, x: string, y: string) {
    && x != y && Responded(t, x, groupId) && Responded(t, y, groupId)
    && var first, second := t.decisions[x].decidedAt, t.decisions[y].decidedAt;
    && now < second && Close(first, second) && Close(first, now) && Close(second, now)
  }

  // ---------------------------------------------------------------- one decision

  /** A first decision adds its candidate to the windows around it, if it responds, and to no other. */
  lemma WindowAfter(t: Tables, a: Attempt, decisionId: Ulid, suppressorId: Ulid, groupId: string, lo: int)
    requires a.candidateId in t.candidates && t.candidates[a.candidateId].id == a.candidateId
    requires a.candidateId !in t.decisions
    ensures var c := t.candidates[a.candidateId];
      InWindow(Record(t, a, decisionId, suppressorId), groupId, lo) == InWindow(t, groupId, lo) +
        if SelectSuppressor(t, c, a.now).None? && c.groupId == groupId && lo < a.now <= lo + BUDGET_WINDOW_MS
        then {a.candidateId} else {}
  {
    hide SelectSuppressor;
  }

  lemma NoSuppressor(t: Tables, c: Candidate, now: int)
    requires SelectSuppressor(t, c, now).None?
    ensures |Responses(t, c.groupId, now - BUDGET_WINDOW_MS, now)| < BUDGET_LIMIT
  {
  }

  lemma TwoOf<T>(s: set<T>) returns (x: T, y: T)
    requires |s| >= 2
    ensures x in s && y in s && x != y
  {
    x :| x in s;
    assert |s - {x}| >= 1;
    y :| y in s - {x};
  }

  lemma PairSize<T>(s: set<T>, x: T, y: T)
    requires x in s && y in s && x != y
    ensures |s| >= 2
  {
    SubsetSize({x, y}, s);
  }

  lemma TripleSize<T>(s: set<T>, x: T, y: T, z: T)
    requires x in s && y in s && z in s && x != y && x != z && y != z
    ensures |s| >= 3
  {
    SubsetSize({x, y, z}, s);
  }

  /** A window around `now` that already holds two responses is crowded, or the service counts them both. */
  lemma FullWindow(t: Tables, groupId: string, lo: int, now: int)
    requires lo < now <= lo + BUDGET_WINDOW_MS && |InWindow(t, groupId, lo)| >= 2
    ensures Crowded(t, groupId, now) || |Responses(t, groupId, now - BUDGET_WINDOW_MS, now)| >= 2
  {
    var x, y := TwoOf(InWindow(t, groupId, lo));
    if t.decisions[y].decidedAt > now {
      assert Crowds(t, groupId, now, x, y);
    } else if t.decisions[x].decidedAt > now {
      assert Crowds(t, groupId, now, y, x);
    } else {
      PairSize(Responses(t, groupId, now - BUDGET_WINDOW_MS, now), x, y);
    }
  }

  /** Two responses that crowd `now` share a window with it. */
  lemma CrowdedWindow(t: Tables, groupId: string, now: int) returns (x: string, y: string, lo: int)
    requires Crowded(t, groupId, now)
    ensures x != y && x in InWindow(t, groupId, lo) && y in InWindow(t, groupId, lo)
    ensures lo < now <= lo + BUDGET_WINDOW_MS
  {
    x, y :| x in t.decisions && y in t.decisions && Crowds(t, groupId, now, x, y);
    var first := t.decisions[x].decidedAt;
    lo := (if first < now then first else now) - 1;
  }

  /** One more decision keeps the limit exactly when it does not respond into a crowd. */
  lemma RecordLimited(t: Tables, a: Attempt, decisionId: Ulid, suppressorId: Ulid)
    requires Limited(t) && a.candidateId in t.candidates && t.candidates[a.candidateId].id == a.candidateId
    requires a.candidateId !in t.decisions
    ensures var c := t.candidates[a.candidateId];
      Limited(Record(t, a, decisionId, suppressorId)) <==>
        SelectSuppressor(t, c, a.now).Some? || !Crowded(t, c.groupId, a.now)
  {
    var c, u := t.candidates[a.candidateId], Record(t, a, decisionId, suppressorId);
    hide SelectSuppressor, Record, Crowded, InWindow, Responses;
    if SelectSuppressor(t, c, a.now).None? && Crowded(t, c.groupId, a.now) {
      var x, y, lo := CrowdedWindow(t, c.groupId, a.now);
      WindowAfter(t, a, decisionId, suppressorId, c.groupId, lo);
      InWindowDecided(t, c.groupId, lo, x);
      InWindowDecided(t, c.groupId, lo, y);
      TripleSize(InWindow(u, c.groupId, lo), x, y, a.candidateId);
    } else {
      forall groupId, lo ensures |InWindow(u, groupId, lo)| <= BUDGET_LIMIT {
        WindowKept(t, a, decisionId, suppressorId, groupId, lo);
      }
    }
  }

  lemma InWindowDecided(t: Tables, groupId: string, lo: int, x: string)
    requires x in InWindow(t, groupId, lo)
    ensures x in t.decisions
  {
  }

  lemma WindowKept(t: Tables, a: Attempt, decisionId: Ulid, suppressorId: Ulid, groupId: string, lo: int)
    requires |InWindow(t, groupId, lo)| <= BUDGET_LIMIT
    requires a.candidateId in t.candidates && t.candidates[a.candidateId].id == a.candidateId
    requires a.candidateId !in t.decisions
    requires var c := t.candidates[a.candidateId];
      SelectSuppressor(t, c, a.now).Some? || !Crowded(t, c.groupId, a.now)
    ensures |InWindow(Record(t, a, decisionId, suppressorId), groupId, lo)| <= BUDGET_LIMIT
  {
    var c := t.candidates[a.candidateId];
    hide SelectSuppressor, Record, Crowded, InWindow, Responses;
    WindowAfter(t, a, decisionId, suppressorId, groupId, lo);
    if SelectSuppressor(t, c, a.now).None? && c.groupId == groupId && lo < a.now <= lo + BUDGET_WINDOW_MS {
      NoSuppressor(t, c, a.now);
      if |InWindow(t, groupId, lo)| >= 2 { FullWindow(t, groupId, lo, a.now); }
    }
  }

  // ---------------------------------------------------------------- runs

  /** The step responds into a crowd. A caller can tell from the tables before the step. */
  predicate Overfills(t: Tables, s: Step) {
    && s.DecideStep? && FirstDecision(t, s.attempt, s.decisionId, s.suppressorId)
    && var c := t.candidates[s.attempt.candidateId];
    && SelectSuppressor(t, c, s.attempt.now).None? && Crowded(t, c.groupId, s.attempt.now)
  }

  /** No step takes a response away. */
  lemma WindowsGrow(t: Tables, s: Step, groupId: string, lo: int)
    requires Valid(t)
    ensures InWindow(t, groupId, lo) <= InWindow(Next(t, s), groupId, lo)
  {
    hide SelectSuppressor, SuppressorsOf, Eligible, JobBound, IdFree, Enqueue, Decide;
    match s {
      case EnqueueStep(rawId, createdAt, candidateId, jobId) => EnqueueAdds(t, rawId, createdAt, candidateId, jobId);
      case DecideStep(a, decisionId, suppressorId) =>
        DecideWrites(t, a, decisionId, suppressorId);
        if FirstDecision(t, a, decisionId, suppressorId) {
          CandidatesNamed(t, a);
          WindowAfter(t, a, decisionId, suppressorId, groupId, lo);
        }
      case FailStep(_, _, _) =>
      case IngressStep(_, _) =>
    }
  }

  lemma SameWindows(t: Tables, u: Tables)
    requires Valid(t) && Limited(t) && u.decisions == t.decisions
    requires forall id | id in t.candidates :: id in u.candidates && u.candidates[id] == t.candidates[id]
    ensures Limited(u)
  {
    assert forall id | id in t.decisions :: DecisionOk(t, id) && id in t.candidates;
    hide Valid, DecisionOk;
    forall groupId, lo ensures |InWindow(u, groupId, lo)| <= BUDGET_LIMIT {
      assert InWindow(u, groupId, lo) == InWindow(t, groupId, lo);
    }
  }

  /** One step keeps the limit exactly when it does not respond into a crowd. */
  lemma NextLimited(t: Tables, s: Step)
    requires Valid(t)
    ensures Limited(Next(t, s)) <==> Limited(t) && !Overfills(t, s)
  {
    hide SelectSuppressor, Eligible, Enqueue, Record, Limited, Valid, Crowded, FirstDecision, Decide;
    if !Limited(t) {
      StaysUnlimited(t, s);
    } else {
      match s {
        case EnqueueStep(rawId, createdAt, candidateId, jobId) =>
          EnqueueAdds(t, rawId, createdAt, candidateId, jobId);
          SameWindows(t, Next(t, s));
        case DecideStep(a, decisionId, suppressorId) =>
          DecideWrites(t, a, decisionId, suppressorId);
          if FirstDecision(t, a, decisionId, suppressorId) {
            FirstOfCandidate(t, a, decisionId, suppressorId);
            RecordLimited(t, a, decisionId, suppressorId);
          }
        case FailStep(_, _, _) => SameWindows(t, Next(t, s));
        case IngressStep(_, _) => SameWindows(t, Next(t, s));
      }
    }
  }

  lemma FirstOfCandidate(t: Tables, a: Attempt, decisionId: Ulid, suppressorId: Ulid)
    requires Valid(t) && FirstDecision(t, a, decisionId, suppressorId)
    ensures a.candidateId in t.candidates && t.candidates[a.candidateId].id == a.candidateId
    ensures a.candidateId !in t.decisions
  {
    hide JobBound, IdFree;
    CandidatesNamed(t, a);
  }

  lemma StaysUnlimited(t: Tables, s: Step)
    requires Valid(t) && !Limited(t)
    ensures !Limited(Next(t, s))
  {
    hide InWindow, Next, Valid;
    var groupId, lo :| |InWindow(t, groupId, lo)| > BUDGET_LIMIT;
    WindowsGrow(t, s, groupId, lo);
    SubsetSize(InWindow(t, groupId, lo), InWindow(Next(t, s), groupId, lo));
  }

  ghost predicate NeverOverfills(steps: seq<Step>) {
    forall i | 0 <= i < |steps| :: !Overfills(Run(steps[..i]), steps[i])
  }

  lemma NeverStep(steps: seq<Step>)
    requires steps != []
    ensures var n := |steps| - 1;
      NeverOverfills(steps) <==> NeverOverfills(steps[..n]) && !Overfills(Run(steps[..n]), steps[n])
  {
    hide Overfills, Run;
    var n := |steps| - 1;
    assert forall i | 0 <= i < n :: steps[..n][..i] == steps[..i] && steps[..n][i] == steps[i];
  }

  /** In every run the limit holds exactly when no step responds into a crowd. */
  lemma {:induction false} LimitHoldsExactly(steps: seq<Step>)
    ensures Limited(Run(steps)) <==> NeverOverfills(steps)
  {
    if steps == [] {
      EmptyLimited();
    } else {
      var n := |steps| - 1;
      assert Run(steps) == Next(Run(steps[..n]), steps[n]);
      hide *;
      LimitHoldsExactly(steps[..n]);
      RunValid(steps[..n]);
      NextLimited(Run(steps[..n]), steps[n]);
      NeverStep(steps);
    }
  }

  lemma EmptyLimited()
    ensures Limited(Run([]))
  {
    forall groupId, lo ensures |InWindow(Run([]), groupId, lo)| <= BUDGET_LIMIT {
      assert InWindow(Run([]), groupId, lo) == {};
    }
  }

  // ---------------------------------------------------------------- when the clock does not step back

  predicate Until(t: Tables, now: int) {
    forall id | id in t.decisions :: t.decisions[id].decidedAt <= now
  }

  /** Decision times never decrease. */
  predicate Forward(steps: seq<Step>) {
    forall i, j | 0 <= i < j < |steps| && steps[i].DecideStep? && steps[j].DecideStep? ::
      steps[i].attempt.now <= steps[j].attempt.now
  }

  lemma NextUntil(t: Tables, s: Step, now: int)
    requires Until(t, now) && (s.DecideStep? ==> s.attempt.now <= now)
    ensures Until(Next(t, s), now)
  {
    hide SelectSuppressor, SuppressorsOf, Eligible, Enqueue, Decide, FirstDecision;
    match s {
      case EnqueueStep(rawId, createdAt, candidateId, jobId) => EnqueueAdds(t, rawId, createdAt, candidateId, jobId);
      case DecideStep(a, decisionId, suppressorId) =>
        DecideWrites(t, a, decisionId, suppressorId);
        assert FirstDecision(t, a, decisionId, suppressorId) ==> a.candidateId in t.candidates by {
          CandidateStored(t, a, decisionId, suppressorId);
        }
      case FailStep(_, _, _) =>
      case IngressStep(_, _) =>
    }
  }

  lemma CandidateStored(t: Tables, a: Attempt, decisionId: Ulid, suppressorId: Ulid)
    ensures FirstDecision(t, a, decisionId, suppressorId) ==> a.candidateId in t.candidates
  {
  }

  lemma {:induction false} RunUntil(steps: seq<Step>, now: int)
    requires forall i | 0 <= i < |steps| && steps[i].DecideStep? :: steps[i].attempt.now <= now
    ensures Until(Run(steps), now)
  {
    if steps != [] {
      hide Until, Next;
      var init := steps[..|steps| - 1];
      assert forall i | 0 <= i < |init| :: init[i] == steps[i];
      RunUntil(init, now);
      NextUntil(Run(init), steps[|steps| - 1], now);
    } else {
      assert Until(EMPTY, now);
    }
  }

  lemma NothingAhead(t: Tables, s: Step)
    requires s.DecideStep? ==> Until(t, s.attempt.now)
    ensures !Overfills(t, s)
  {
    hide FirstDecision, SelectSuppressor;
    if s.DecideStep? { CandidateStored(t, s.attempt, s.decisionId, s.suppressorId); }
  }

  /** In every run whose decision times do not decrease, no group gets more than two responses in any window
      of 600000 ms. */
  lemma RateLimit(steps: seq<Step>)
    requires Forward(steps)
    ensures Limited(Run(steps))
  {
    hide Run, Overfills, Limited, Until;
    forall i | 0 <= i < |steps| ensures !Overfills(Run(steps[..i]), steps[i]) {
      if steps[i].DecideStep? { RunUntil(steps[..i], steps[i].attempt.now); }
      NothingAhead(Run(steps[..i]), steps[i]);
    }
    LimitHoldsExactly(steps);
  }

  // ---------------------------------------------------------------- when the clock steps back

  const MOMENT := 1000000
  const A: Ulid := "0000000000000000000000000A"
  const B: Ulid := "0000000000000000000000000B"
  const C: Ulid := "0000000000000000000000000C"

  /** The questions in the order of their decisions, and when each is decided. */
  const ALL: seq<Ulid> := [A, B, C]
  const TIMES := [MOMENT + 20001, MOMENT + 20002, MOMENT + 20000]

  /** A question received in the group; its identifiers are one. */
  function Message(id: Ulid): ChatMessage {
    ChatMessage(id, id, "conversation", true, Some("group"), "user", None, true, MOMENT)
  }

  function SourceOf(id: Ulid): Source {
    Source(Message(id), Some("conversation"), false, true, true, MOMENT, 1, Some(MOMENT))
  }

  const MESSAGES := [Message(A), Message(B), Message(C)]

  function Sources(): map<string, seq<Source>> {
    map[A := [SourceOf(A)], B := [SourceOf(B)], C := [SourceOf(C)]]
  }

  function Question(id: Ulid): Candidate {
    Candidate(id, id, id, id, "conversation", "group", MOMENT, MOMENT, MOMENT + RECHECK_MS, MOMENT + THREAD_MS)
  }

  function JobOf(id: Ulid): Job {
    Job(JOB_TYPE, id, JobKey(id), MOMENT + RECHECK_MS, MOMENT, 3)
  }

  /** A decision of `now` that lets the question be answered; all its identifiers are the question's. */
  function Answer(id: Ulid, now: int): DecisionRow {
    DecisionRow(id, id, id, id, Respond, now)
  }

  /** The tables when the questions `ids` are stored. */
  function Stored(ids: seq<Ulid>): Tables {
    if ids == [] then EMPTY.(messages := MESSAGES, sources := Sources())
    else InsertRows(Stored(ids[..|ids| - 1]), Question(ids[|ids| - 1]))
  }

  /** The same with the decisions made so far. */
  function Answered(ids: seq<Ulid>, decisions: map<string, DecisionRow>): Tables {
    Stored(ids).(decisions := decisions)
  }

  function Ask(id: Ulid): Step {
    EnqueueStep(id, MOMENT, id, id)
  }

  function DecideAt(id: Ulid, now: int): Step {
    DecideStep(Attempt(id, id, id, now, true), id, id)
  }

  /** Three questions arrive and are stored; the clock steps back before the third is decided. */
  function BackSteps(): seq<Step> {
    [IngressStep(MESSAGES, Sources()), Ask(A), Ask(B), Ask(C),
     DecideAt(A, TIMES[0]), DecideAt(B, TIMES[1]), DecideAt(C, TIMES[2])]
  }

  lemma KeysDiffer(a: string, b: string)
    ensures JobKey(a) == JobKey(b) <==> a == b
  {
    assert JobKey(a)[22..] == a && JobKey(b)[22..] == b;
  }

  /** What is stored for the questions. */
  lemma {:induction false} StoredRows(ids: seq<Ulid>)
    ensures var t := Stored(ids);
      && t.messages == MESSAGES && t.sources == Sources() && t.suppressors == [] && t.decisions == map[]
      && (forall id | id in t.candidates :: id in ids)
      && (forall id | id in ids :: id in t.candidates && t.candidates[id] == Question(id))
      && (forall id | id in t.jobs :: id in ids)
      && (forall id | id in ids :: id in t.jobs && t.jobs[id] == JobOf(id))
      && (forall id | id in t.bySource :: id in ids)
  {
    hide JobKey, MESSAGES, Sources;
    if ids != [] { StoredRows(ids[..|ids| - 1]); }
  }

  lemma AskNext(ids: seq<Ulid>, x: Ulid)
    requires x !in ids && (x == A || x == B || x == C)
    ensures Next(Stored(ids), Ask(x)) == Stored(ids + [x])
  {
    var t := Stored(ids);
    StoredRows(ids);
    SourceIs(t, x);
    AskInserts(t, ids, x);
    StoredMore(ids, x);
    QuestionIs(x);
    hide Eligible, Stored, KeyTaken, Insertable, InsertRows, Sources, SourceOf, Question, NewCandidate, JobKey;
  }

  lemma StoredMore(ids: seq<Ulid>, x: Ulid)
    ensures Stored(ids + [x]) == InsertRows(Stored(ids), Question(x))
  {
    assert (ids + [x])[..|ids|] == ids;
    hide InsertRows;
  }

  lemma QuestionIs(x: Ulid)
    ensures SourceOf(x).message == Message(x) && SourceOf(x).message.receivedAt == MOMENT
    ensures SourceOf(x).message.groupId.Some? && Question(x).jobId == x
    ensures NewCandidate(x, SourceOf(x), MOMENT, x, x) == Question(x)
  {
  }

  lemma SourceIs(t: Tables, x: Ulid)
    requires (x == A || x == B || x == C) && t.messages == MESSAGES && t.sources == Sources()
    ensures x in t.sources && t.sources[x] == [SourceOf(x)] && |t.sources[x]| == 1 && Eligible(t, SourceOf(x))
  {
    ThreeIds();
  }

  lemma AskInserts(t: Tables, ids: seq<Ulid>, x: Ulid)
    requires t == Stored(ids) && x !in ids
    ensures !KeyTaken(t, JobKey(x)) && Insertable(t, Question(x))
  {
    StoredRows(ids);
    hide Stored;
    forall id | id in t.jobs ensures t.jobs[id].idempotencyKey != JobKey(x) { KeysDiffer(id, x); }
    hide JobKey;
  }

  lemma DecideNext(ids: seq<Ulid>, decisions: map<string, DecisionRow>, x: Ulid, now: int)
    requires x in ids && x !in decisions && MOMENT + 20000 <= now <= MOMENT + 20002
    requires forall id | id in decisions :: decisions[id].id == id
    requires |Responses(Answered(ids, decisions), "group", now - BUDGET_WINDOW_MS, now)| < BUDGET_LIMIT
    ensures Next(Answered(ids, decisions), DecideAt(x, now)) == Answered(ids, decisions[x := Answer(x, now)])
  {
    StoredRows(ids);
    hide SelectSuppressor, Responses, MESSAGES, Sources, JobKey, Stored, Decide;
    var t, s := Answered(ids, decisions), DecideAt(x, now);
    Unsuppressed(t, Question(x), now);
    DecideWrites(t, s.attempt, x, x);
    assert FirstDecision(t, s.attempt, x, x);
    assert t.suppressors + [] == t.suppressors;
  }

  lemma Unsuppressed(t: Tables, c: Candidate, now: int)
    requires t.messages == MESSAGES && c.groupId == "group" && c.expiresAt == MOMENT + THREAD_MS
    requires MOMENT + 20000 <= now <= MOMENT + 20002
    requires |Responses(t, "group", now - BUDGET_WINDOW_MS, now)| < BUDGET_LIMIT
    ensures SelectSuppressor(t, c, now).None?
  {
    FilterNone(t.messages, (m: ChatMessage) =>
      m.conversationId == c.conversationId && m.isGroup && m.groupId == Some(c.groupId)
      && Received(m, now - TRAFFIC_WINDOW_MS, now));
    hide Responses;
  }

  lemma RunMore(steps: seq<Step>, s: Step)
    ensures Run(steps + [s]) == Next(Run(steps), s)
  {
    assert (steps + [s])[..|steps|] == steps;
  }

  lemma ThreeIds()
    ensures A != B && B != C && A != C
  {
    assert A[25] == 'A' && B[25] == 'B' && C[25] == 'C';
  }

  lemma IngressFirst()
    ensures Run([IngressStep(MESSAGES, Sources())]) == Stored([])
  {
  }

  lemma BackStepsStored()
    ensures Run(BackSteps()[..4]) == Stored(ALL)
  {
    ThreeIds();
    IngressFirst();
    var s := BackSteps();
    assert s[1] == Ask(A) && s[2] == Ask(B) && s[3] == Ask(C);
    assert [IngressStep(MESSAGES, Sources())] == s[..1];
    assert s[..1] + [s[1]] == s[..2] && s[..2] + [s[2]] == s[..3] && s[..3] + [s[3]] == s[..4];
    assert [] + [A] == [A] && [A] + [B] == [A, B] && [A, B] + [C] == [A, B, C];
    hide *;
    RunMore(s[..1], s[1]);
    RunMore(s[..2], s[2]);
    RunMore(s[..3], s[3]);
    AskNext([], A);
    AskNext([A], B);
    AskNext([A, B], C);
  }

  lemma AnsweredCount(ids: seq<Ulid>, decisions: map<string, DecisionRow>, now: int, counted: set<string>)
    requires forall id | id in decisions :: decisions[id].decidedAt <= now ==> id in counted
    requires |counted| < BUDGET_LIMIT
    ensures |Responses(Answered(ids, decisions), "group", now - BUDGET_WINDOW_MS, now)| < BUDGET_LIMIT
  {
    hide Stored;
    SubsetSize(Responses(Answered(ids, decisions), "group", now - BUDGET_WINDOW_MS, now), counted);
  }

  /** The decisions after `n` of them have been made. */
  function AnsweredAfter(n: nat): map<string, DecisionRow>
    requires n <= 3
  {
    if n == 0 then map[] else AnsweredAfter(n - 1)[ALL[n - 1] := Answer(ALL[n - 1], TIMES[n - 1])]
  }

  lemma {:induction false} AfterRows(n: nat)
    requires n <= 3
    ensures forall id | id in AnsweredAfter(n) ::
      exists i | 0 <= i < n :: ALL[i] == id && AnsweredAfter(n)[id] == Answer(ALL[i], TIMES[i])
    ensures forall i | 0 <= i < n :: ALL[i] in AnsweredAfter(n)
  {
    if n > 0 { AfterRows(n - 1); }
    hide ALL, TIMES;
  }

  /** The first two decisions see fewer than two responses, and so does the third, at its earlier time. */
  lemma AnswerStep(n: nat)
    requires n < 3
    ensures Next(Answered(ALL, AnsweredAfter(n)), DecideAt(ALL[n], TIMES[n])) == Answered(ALL, AnsweredAfter(n + 1))
  {
    ThreeIds();
    AfterRows(n);
    hide A, B, C, AnsweredAfter;
    var counted: set<string> := if n == 1 then {A} else {};
    AnsweredCount(ALL, AnsweredAfter(n), TIMES[n], counted);
    DecideNext(ALL, AnsweredAfter(n), ALL[n], TIMES[n]);
    assert AnsweredAfter(n + 1) == AnsweredAfter(n)[ALL[n] := Answer(ALL[n], TIMES[n])] by { AfterMore(n); }
  }

  lemma AfterMore(n: nat)
    requires n < 3
    ensures AnsweredAfter(n + 1) == AnsweredAfter(n)[ALL[n] := Answer(ALL[n], TIMES[n])]
  {
  }

  lemma {:induction false} RunAnswered(n: nat)
    requires n <= 3
    ensures Run(BackSteps()[..4 + n]) == Answered(ALL, AnsweredAfter(n))
  {
    if n == 0 {
      NothingAnswered();
      hide *;
    } else {
      BackStep(n - 1);
      hide *;
      RunAnswered(n - 1);
      RunMore(BackSteps()[..3 + n], BackSteps()[3 + n]);
      AnswerStep(n - 1);
    }
  }

  lemma NothingAnswered()
    ensures Run(BackSteps()[..4]) == Answered(ALL, AnsweredAfter(0))
  {
    BackStepsStored();
    StoredRows(ALL);
    hide Stored, Run, BackSteps;
  }

  lemma BackStep(n: nat)
    requires n < 3
    ensures |BackSteps()| == 7 && BackSteps()[4 + n] == DecideAt(ALL[n], TIMES[n])
    ensures BackSteps()[..4 + n] + [BackSteps()[4 + n]] == BackSteps()[..5 + n]
  {
    hide DecideAt, Ask, A, B, C, Sources;
  }

  /** The count looks back from a decision's own time only: when the clock steps back, a third response can
      fall in the same window. */
  lemma ClockStepsBack()
    ensures |InWindow(Run(BackSteps()), "group", MOMENT)| == 3 && !Limited(Run(BackSteps()))
  {
    RunAnswered(3);
    assert BackSteps()[..7] == BackSteps();
    AnsweredWindow();
    hide *;
    NotLimited(Run(BackSteps()), "group", MOMENT);
  }

  lemma NotLimited(t: Tables, groupId: string, lo: int)
    ensures |InWindow(t, groupId, lo)| > BUDGET_LIMIT ==> !Limited(t)
  {
    hide InWindow;
  }

  lemma WindowOf(decisions: map<string, DecisionRow>, lo: int)
    requires forall id | id in decisions ::
      id in ALL && decisions[id].outcome == Respond && lo < decisions[id].decidedAt <= lo + BUDGET_WINDOW_MS
    ensures InWindow(Answered(ALL, decisions), "group", lo) == decisions.Keys
  {
    StoredRows(ALL);
    hide Stored, ALL, MESSAGES, Sources, JobOf;
  }

  lemma AnsweredWindow()
    ensures |InWindow(Answered(ALL, AnsweredAfter(3)), "group", MOMENT)| == 3
    ensures BUDGET_LIMIT == 2
  {
    ThreeIds();
    AfterRows(3);
    var d := AnsweredAfter(3);
    assert d.Keys == {A, B, C} by { hide A, B, C, AnsweredAfter; }
    assert forall id | id in d :: d[id].outcome == Respond && MOMENT < d[id].decidedAt <= MOMENT + BUDGET_WINDOW_MS;
    hide A, B, C, InWindow, Answered, AnsweredAfter, TIMES;
    WindowOf(d, MOMENT);
  }
}
