// Deferred group questions: a durable recheck decides once whether the bot still answers.
module DelayedAttention {
  import opened Text
  import opened Sequences

  const RECHECK_MS := 15000
  const THREAD_MS := 120000
  const TRAFFIC_WINDOW_MS := 10000
  const TRAFFIC_LIMIT := 5
  const BUDGET_WINDOW_MS := 600000
  const BUDGET_LIMIT := 2
  const JOB_TYPE := "attention_recheck"
  const MAX_SAFE_INTEGER := 9007199254740991

  /** A generated identifier. */
  type Ulid = s: string | |s| == 26 witness "00000000000000000000000000"

  datatype Candidate = Candidate(
    id: Ulid,
    sourceRawEventId: string,
    sourceChatMessageId: string,
    jobId: Ulid,
    conversationId: string,
    groupId: string,
    observedAt: int,
    createdAt: int,
    notBeforeAt: int,
    expiresAt: int)

  datatype Job = Job(
    kind: string, candidateId: string, idempotencyKey: string, scheduledAt: int, createdAt: int, maxAttempts: int)

  /** A suppressor code with the evidence its row must carry. */
  datatype Suppressor =
    | ThreadExpired
    | HumanAnswer(evidenceChatMessageId: string)
    | HighTraffic(observedCount: nat)
    | GroupBudgetExhausted(observedCount: nat)

  datatype SuppressorRow =
    SuppressorRow(id: Ulid, decisionId: Ulid, candidateId: string, suppressor: Suppressor, createdAt: int)

  datatype Outcome = Respond | Suppress

  datatype DecisionRow = DecisionRow(
    id: Ulid, candidateId: string, jobId: string, jobAttemptId: string, outcome: Outcome, decidedAt: int)

  /** A decision as it is read back, with its suppressors. */
  datatype Decision = Decision(row: DecisionRow, suppressors: seq<SuppressorRow>)

  /** A chat message joined with its raw event; `ingress` says that the event is a message received from QQ. */
  datatype ChatMessage = ChatMessage(
    id: string,
    platformMessageId: string,
    conversationId: string,
    isGroup: bool,
    groupId: Option<string>,
    senderId: string,
    replyToMessageId: Option<string>,
    ingress: bool,
    receivedAt: int)

  /** A row of the source query: the event, its message and its admission. */
  datatype Source = Source(
    message: ChatMessage,
    rawConversationId: Option<string>,
    mentionsBot: bool,
    asksQuestion: bool,
    processing: bool,
    acceptedAt: int,
    acceptedReceiptCount: nat,
    acceptedReceivedAt: Option<int>)

  datatype AttentionError =
    | SourceNotResolved | SourceNotEligible | CreationTimeInvalid | JobInconsistent | ConstraintViolated
    | DecisionTimeInvalid | BindingInvalid | JobContractInvalid | NotDue | NoLeaseAuthority

  /** The tables; `bySource` is the unique index of the candidates on their raw event. */
  datatype Tables = Tables(
    candidates: map<string, Candidate>,
    bySource: map<string, string>,
    decisions: map<string, DecisionRow>,
    suppressors: seq<SuppressorRow>,
    jobs: map<string, Job>,
    messages: seq<ChatMessage>,
    sources: map<string, seq<Source>>)

  function JobKey(sourceRawEventId: string): string {
    "attention:deferred:v1:" + sourceRawEventId
  }

  // ---------------------------------------------------------------- enqueueing

  /** The candidate's job is stored as it was inserted, but perhaps for its schedule. */
  predicate JobKept(t: Tables, c: Candidate) {
    c.jobId in t.jobs
    && t.jobs[c.jobId] ==
       Job(JOB_TYPE, c.id, JobKey(c.sourceRawEventId), t.jobs[c.jobId].scheduledAt, c.createdAt, 3)
  }

  predicate AtDueTime(t: Tables, c: Candidate) {
    c.jobId in t.jobs && t.jobs[c.jobId].scheduledAt == c.notBeforeAt
  }

  /** `assertJobBinding`. */
  predicate JobBound(t: Tables, c: Candidate) {
    JobKept(t, c) && AtDueTime(t, c)
  }

  predicate RepliesToBot(messages: seq<ChatMessage>, m: ChatMessage) {
    m.replyToMessageId.Some? && exists x | x in messages ::
      x.platformMessageId == m.replyToMessageId.value && x.conversationId == m.conversationId && x.isGroup
      && x.senderId == "bot-self"
  }

  predicate Eligible(t: Tables, s: Source) {
    var m := s.message;
    && m.ingress
    && s.rawConversationId == Some(m.conversationId)
    && m.isGroup && m.groupId.Some? && m.groupId.value != ""
    && m.senderId != "bot-self"
    && !s.mentionsBot && !RepliesToBot(t.messages, m) && s.asksQuestion
    && s.processing
    && s.acceptedAt == m.receivedAt && s.acceptedReceiptCount == 1 && s.acceptedReceivedAt == Some(m.receivedAt)
  }

  predicate SafeInteger(n: int) {
    -MAX_SAFE_INTEGER <= n <= MAX_SAFE_INTEGER
  }

  function NewCandidate(rawId: string, s: Source, createdAt: int, id: Ulid, jobId: Ulid): Candidate
    requires s.message.groupId.Some?
  {
    Candidate(id, rawId, s.message.id, jobId, s.message.conversationId, s.message.groupId.value, s.message.receivedAt,
      createdAt, s.message.receivedAt + RECHECK_MS, s.message.receivedAt + THREAD_MS)
  }

  /** The primary key and the unique indexes of the candidate table. */
  predicate Insertable(t: Tables, c: Candidate) {
    c.id !in t.candidates && c.observedAt >= 0
    && forall id | id in t.candidates ::
         t.candidates[id].sourceChatMessageId != c.sourceChatMessageId && t.candidates[id].jobId != c.jobId
  }

  predicate KeyTaken(t: Tables, key: string) {
    exists id | id in t.jobs :: t.jobs[id].idempotencyKey == key
  }

  function Enqueue(t: Tables, rawId: string, createdAt: int, candidateId: Ulid, jobId: Ulid)
    : (Tables, Result<Candidate, AttentionError>)
  {
    if rawId in t.bySource && t.bySource[rawId] in t.candidates then
      var c := t.candidates[t.bySource[rawId]];
      (t, if JobBound(t, c) then Ok(c) else Err(JobContractInvalid))
    else if rawId !in t.sources || |t.sources[rawId]| != 1 then (t, Err(SourceNotResolved))
    else
      var s := t.sources[rawId][0];
      if !Eligible(t, s) then (t, Err(SourceNotEligible))
      else if !SafeInteger(createdAt) || createdAt < s.message.receivedAt then (t, Err(CreationTimeInvalid))
      else if KeyTaken(t, JobKey(rawId)) then (t, Err(JobInconsistent))
      else
        var c := NewCandidate(rawId, s, createdAt, candidateId, jobId);
        if jobId in t.jobs || !Insertable(t, c) then (t, Err(ConstraintViolated)) else (InsertRows(t, c), Ok(c))
  }

  function InsertRows(t: Tables, c: Candidate): Tables {
    t.(jobs := t.jobs[c.jobId := Job(JOB_TYPE, c.id, JobKey(c.sourceRawEventId), c.notBeforeAt, c.createdAt, 3)],
       candidates := t.candidates[c.id := c],
       bySource := t.bySource[c.sourceRawEventId := c.id])
  }

  // ---------------------------------------------------------------- deciding

  predicate Received(m: ChatMessage, after: int, until: int) {
    m.senderId != "bot-self" && m.ingress && after < m.receivedAt <= until
  }

  predicate Answers(m: ChatMessage, source: ChatMessage, after: int, until: int) {
    && m.conversationId == source.conversationId && m.isGroup && m.groupId.Some? && m.groupId == source.groupId
    && m.replyToMessageId == Some(source.platformMessageId)
    && Received(m, after, until)
  }

  predicate Earlier(a: ChatMessage, b: ChatMessage) {
    a.receivedAt < b.receivedAt || (a.receivedAt == b.receivedAt && LexLeq(a.id, b.id))
  }

  /** The earliest message that answers the source. */
  function FirstAnswer(messages: seq<ChatMessage>, source: ChatMessage, after: int, until: int): (r: Option<ChatMessage>)
    ensures r.Some? ==> r.value in messages && Answers(r.value, source, after, until)
    ensures r.None? ==> forall m | m in messages :: !Answers(m, source, after, until)
  {
    if messages == [] then None
    else
      var rest := FirstAnswer(messages[1..], source, after, until);
      if Answers(messages[0], source, after, until) && (rest.None? || Earlier(messages[0], rest.value))
      then Some(messages[0]) else rest
  }

  function Traffic(messages: seq<ChatMessage>, c: Candidate, now: int): nat {
    |Filter(messages, (m: ChatMessage) =>
      m.conversationId == c.conversationId && m.isGroup && m.groupId == Some(c.groupId)
      && Received(m, now - TRAFFIC_WINDOW_MS, now))|
  }

  /** The candidates of a group whose responses were decided after `lo` and not after `hi`. */
  function Responses(t: Tables, groupId: string, lo: int, hi: int): set<string> {
    set id | id in t.decisions && t.decisions[id].outcome == Respond
      && id in t.candidates && t.candidates[id].groupId == groupId
      && lo < t.decisions[id].decidedAt <= hi
  }

  function HumanAnswerOf(t: Tables, c: Candidate, now: int): Option<ChatMessage> {
    match Find(t.messages, (m: ChatMessage) => m.id == c.sourceChatMessageId)
    case None => None
    case Some(i) => FirstAnswer(t.messages, t.messages[i], c.observedAt, now)
  }

  function SelectSuppressor(t: Tables, c: Candidate, now: int): Option<Suppressor> {
    var answer := HumanAnswerOf(t, c, now);
    var traffic := Traffic(t.messages, c, now);
    var budget := |Responses(t, c.groupId, now - BUDGET_WINDOW_MS, now)|;
    if now >= c.expiresAt then Some(ThreadExpired)
    else if answer.Some? then Some(HumanAnswer(answer.value.id))
    else if traffic > TRAFFIC_LIMIT then Some(HighTraffic(traffic))
    else if budget >= BUDGET_LIMIT then Some(GroupBudgetExhausted(budget))
    else None
  }

  function SuppressorsOf(t: Tables, d: DecisionRow): seq<SuppressorRow> {
    Matching(t.suppressors, d.id, d.candidateId)
  }

  function RowOf(decisionId: string, candidateId: string): SuppressorRow -> bool {
    (s: SuppressorRow) => s.decisionId == decisionId && s.candidateId == candidateId
  }

  function Matching(rows: seq<SuppressorRow>, decisionId: string, candidateId: string): seq<SuppressorRow> {
    Filter(rows, RowOf(decisionId, candidateId))
  }

  /** `findDecision`. */
  function ReadDecision(t: Tables, d: DecisionRow): Decision {
    Decision(d, SuppressorsOf(t, d))
  }

  datatype Attempt = Attempt(candidateId: string, jobId: string, jobAttemptId: string, now: int, hasAuthority: bool)

  predicate IdFree(t: Tables, decisionId: Ulid, suppressorId: Ulid) {
    && (forall c | c in t.decisions :: t.decisions[c].id != decisionId)
    && (forall s | s in t.suppressors :: s.id != suppressorId)
  }

  /** The rows a first decision writes. */
  function Record(t: Tables, a: Attempt, decisionId: Ulid, suppressorId: Ulid): Tables
    requires a.candidateId in t.candidates
  {
    var c := t.candidates[a.candidateId];
    var s := SelectSuppressor(t, c, a.now);
    var row := DecisionRow(decisionId, c.id, c.jobId, a.jobAttemptId, if s.Some? then Suppress else Respond, a.now);
    t.(decisions := t.decisions[c.id := row],
       suppressors := t.suppressors
         + if s.Some? then [SuppressorRow(suppressorId, decisionId, c.id, s.value, a.now)] else [])
  }

  function Decide(t: Tables, a: Attempt, decisionId: Ulid, suppressorId: Ulid)
    : (Tables, Result<Decision, AttentionError>)
  {
    if !SafeInteger(a.now) || a.now < 0 then (t, Err(DecisionTimeInvalid))
    else if a.candidateId !in t.candidates || t.candidates[a.candidateId].jobId != a.jobId then (t, Err(BindingInvalid))
    else
      var c := t.candidates[a.candidateId];
      if !JobBound(t, c) then (t, Err(JobContractInvalid))
      else if c.id in t.decisions then (t, Ok(ReadDecision(t, t.decisions[c.id])))
      else if a.now < c.notBeforeAt then (t, Err(NotDue))
      else if !a.hasAuthority then (t, Err(NoLeaseAuthority))
      else if !IdFree(t, decisionId, suppressorId) then (t, Err(ConstraintViolated))
      else
        var u := Record(t, a, decisionId, suppressorId);
        (u, if c.id in u.decisions then Ok(ReadDecision(u, u.decisions[c.id])) else Err(ConstraintViolated))
  }

  /** `JobRepository.fail` after a thrown attempt: under its lease it moves the job to the time of the failure,
      whether the job is to be retried or not. */
  function Fail(t: Tables, jobId: string, failedAt: int, hasAuthority: bool): (Tables, bool) {
    if !hasAuthority || jobId !in t.jobs then (t, false)
    else (t.(jobs := t.jobs[jobId := t.jobs[jobId].(scheduledAt := failedAt)]), true)
  }

  /** The attempt makes the candidate's first decision. */
  predicate FirstDecision(t: Tables, a: Attempt, decisionId: Ulid, suppressorId: Ulid) {
    && SafeInteger(a.now) && a.now >= 0
    && a.candidateId in t.candidates && t.candidates[a.candidateId].jobId == a.jobId
    && var c := t.candidates[a.candidateId];
    && JobBound(t, c) && c.id !in t.decisions && c.notBeforeAt <= a.now && a.hasAuthority
    && IdFree(t, decisionId, suppressorId)
  }

  lemma DecideWrites(t: Tables, a: Attempt, decisionId: Ulid, suppressorId: Ulid)
    ensures Decide(t, a, decisionId, suppressorId).0 ==
      if FirstDecision(t, a, decisionId, suppressorId) then Record(t, a, decisionId, suppressorId) else t
  {
    hide SelectSuppressor, SuppressorsOf, JobBound, IdFree;
  }

  /** The service; each method is one transaction over its tables. */
  class DelayedAttentionService {
    var candidates: map<string, Candidate>
    var bySource: map<string, string>
    var decisions: map<string, DecisionRow>
    var suppressors: seq<SuppressorRow>
    var jobs: map<string, Job>
    var messages: seq<ChatMessage>
    var sources: map<string, seq<Source>>

    function State(): Tables
      reads this
    {
      Tables(candidates, bySource, decisions, suppressors, jobs, messages, sources)
    }

    method EnqueueCandidate(rawId: string, createdAt: int, candidateId: Ulid, jobId: Ulid)
      returns (r: Result<Candidate, AttentionError>)
      modifies this
      ensures (State(), r) == Enqueue(old(State()), rawId, createdAt, candidateId, jobId)
    {
      if rawId in bySource && bySource[rawId] in candidates {
        var existing := candidates[bySource[rawId]];
        return if JobBound(State(), existing) then Ok(existing) else Err(JobContractInvalid);
      }
      if rawId !in sources || |sources[rawId]| != 1 { return Err(SourceNotResolved); }
      var source := sources[rawId][0];
      if !Eligible(State(), source) { return Err(SourceNotEligible); }
      if !SafeInteger(createdAt) || createdAt < source.message.receivedAt { return Err(CreationTimeInvalid); }
      if KeyTaken(State(), JobKey(rawId)) { return Err(JobInconsistent); }
      var c := NewCandidate(rawId, source, createdAt, candidateId, jobId);
      if jobId in jobs || !Insertable(State(), c) { return Err(ConstraintViolated); }
      jobs := jobs[jobId := Job(JOB_TYPE, c.id, JobKey(rawId), c.notBeforeAt, createdAt, 3)];
      candidates := candidates[c.id := c];
      bySource := bySource[rawId := c.id];
      return Ok(c);
    }

    method DecideCandidate(a: Attempt, decisionId: Ulid, suppressorId: Ulid) returns (r: Result<Decision, AttentionError>)
      modifies this
      ensures (State(), r) == Decide(old(State()), a, decisionId, suppressorId)
    {
      hide SelectSuppressor, SuppressorsOf;
      if !SafeInteger(a.now) || a.now < 0 { return Err(DecisionTimeInvalid); }
      if a.candidateId !in candidates || candidates[a.candidateId].jobId != a.jobId { return Err(BindingInvalid); }
      var c := candidates[a.candidateId];
      if !JobBound(State(), c) { return Err(JobContractInvalid); }
      if c.id in decisions { return Ok(ReadDecision(State(), decisions[c.id])); }
      if a.now < c.notBeforeAt { return Err(NotDue); }
      if !a.hasAuthority { return Err(NoLeaseAuthority); }
      if !IdFree(State(), decisionId, suppressorId) { return Err(ConstraintViolated); }
      var s := SelectSuppressor(State(), c, a.now);
      var outcome := if s.Some? then Suppress else Respond;
      decisions := decisions[c.id := DecisionRow(decisionId, c.id, c.jobId, a.jobAttemptId, outcome, a.now)];
      if s.Some? {
        suppressors := suppressors + [SuppressorRow(suppressorId, decisionId, c.id, s.value, a.now)];
      }
      assert s.None? ==> suppressors == suppressors + [];
      assert State() == Record(old(State()), a, decisionId, suppressorId);
      if c.id !in decisions { return Err(ConstraintViolated); }
      return Ok(ReadDecision(State(), decisions[c.id]));
    }

    method FailJob(jobId: string, failedAt: int, hasAuthority: bool) returns (recorded: bool)
      modifies this
      ensures (State(), recorded) == Fail(old(State()), jobId, failedAt, hasAuthority)
    {
      if !hasAuthority || jobId !in jobs { return false; }
      jobs := jobs[jobId := jobs[jobId].(scheduledAt := failedAt)];
      return true;
    }
  }

  // ---------------------------------------------------------------- runs

  datatype Step =
    | EnqueueStep(rawId: string, createdAt: int, candidateId: Ulid, jobId: Ulid)
    | DecideStep(attempt: Attempt, decisionId: Ulid, suppressorId: Ulid)
    | FailStep(failedJobId: string, failedAt: int, hasAuthority: bool)
    | IngressStep(messages: seq<ChatMessage>, sources: map<string, seq<Source>>)

  const EMPTY := Tables(map[], map[], map[], [], map[], [], map[])

  function Next(t: Tables, s: Step): Tables {
    match s
    case EnqueueStep(rawId, createdAt, candidateId, jobId) => Enqueue(t, rawId, createdAt, candidateId, jobId).0
    case DecideStep(a, decisionId, suppressorId) => Decide(t, a, decisionId, suppressorId).0
    case FailStep(jobId, failedAt, hasAuthority) => Fail(t, jobId, failedAt, hasAuthority).0
    case IngressStep(messages, sources) => t.(messages := messages, sources := sources)
  }

  function Run(steps: seq<Step>): Tables {
    if steps == [] then EMPTY else Next(Run(steps[..|steps| - 1]), steps[|steps| - 1])
  }

  predicate CandidateOk(t: Tables, id: string)
    requires id in t.candidates
  {
    var c := t.candidates[id];
    && c.id == id
    && c.notBeforeAt == c.observedAt + RECHECK_MS && c.expiresAt == c.observedAt + THREAD_MS
    && c.observedAt <= c.createdAt
    && JobKept(t, c)
    && c.sourceRawEventId in t.bySource && t.bySource[c.sourceRawEventId] == id
  }

  predicate DecisionOk(t: Tables, id: string)
    requires id in t.decisions
  {
    var d := t.decisions[id];
    && id in t.candidates
    && d.candidateId == id && d.jobId == t.candidates[id].jobId
    && t.candidates[id].notBeforeAt <= d.decidedAt
    && (d.outcome == Respond ==> d.decidedAt < t.candidates[id].expiresAt)
    && |SuppressorsOf(t, d)| == if d.outcome == Suppress then 1 else 0
  }

  predicate SuppressorOk(t: Tables, s: SuppressorRow) {
    exists id | id in t.decisions :: t.decisions[id].id == s.decisionId
  }

  predicate SourceOk(t: Tables, rawId: string)
    requires rawId in t.bySource
  {
    t.bySource[rawId] in t.candidates && t.candidates[t.bySource[rawId]].sourceRawEventId == rawId
  }

  /** What every run keeps. */
  ghost predicate Valid(t: Tables) {
    && (forall id | id in t.candidates :: CandidateOk(t, id))
    && (forall rawId | rawId in t.bySource :: SourceOk(t, rawId))
    && (forall id | id in t.decisions :: DecisionOk(t, id))
    && (forall s | s in t.suppressors :: SuppressorOk(t, s))
  }

  lemma MatchingMore(rows: seq<SuppressorRow>, s: SuppressorRow, decisionId: string, candidateId: string)
    ensures Matching(rows + [s], decisionId, candidateId) == Matching(rows, decisionId, candidateId) +
      if s.decisionId == decisionId && s.candidateId == candidateId then [s] else []
  {
    FilterAppend(rows, [s], RowOf(decisionId, candidateId));
    assert [s][1..] == [];
  }

  lemma InsertCandidate(t: Tables, c: Candidate, id: string)
    requires (forall x | x in t.candidates :: CandidateOk(t, x)) && Insertable(t, c) && c.jobId !in t.jobs
    requires c.notBeforeAt == c.observedAt + RECHECK_MS && c.expiresAt == c.observedAt + THREAD_MS
    requires c.observedAt <= c.createdAt
    requires c.sourceRawEventId in t.bySource ==> t.bySource[c.sourceRawEventId] !in t.candidates
    requires id in InsertRows(t, c).candidates
    ensures CandidateOk(InsertRows(t, c), id)
  {
    hide JobKey;
    if id != c.id { assert CandidateOk(t, id); }
  }

  lemma InsertSource(t: Tables, c: Candidate, rawId: string)
    requires (forall x | x in t.bySource :: SourceOk(t, x)) && c.id !in t.candidates
    requires rawId in InsertRows(t, c).bySource
    ensures SourceOk(InsertRows(t, c), rawId)
  {
    hide JobKey;
    if rawId != c.sourceRawEventId { assert SourceOk(t, rawId); }
  }

  lemma InsertDecision(t: Tables, c: Candidate, id: string)
    requires id in t.decisions && DecisionOk(t, id) && c.id !in t.candidates
    ensures DecisionOk(InsertRows(t, c), id)
  {
    hide JobKey, Matching;
    assert SuppressorsOf(InsertRows(t, c), t.decisions[id]) == SuppressorsOf(t, t.decisions[id]);
  }

  lemma InsertKeeps(t: Tables, c: Candidate)
    ensures InsertRows(t, c).decisions == t.decisions && InsertRows(t, c).suppressors == t.suppressors
    ensures Insertable(t, c) ==> c.id !in t.candidates
  {
    hide JobKey;
  }

  lemma InsertValid(t: Tables, c: Candidate)
    requires Valid(t) && Insertable(t, c) && c.jobId !in t.jobs
    requires c.notBeforeAt == c.observedAt + RECHECK_MS && c.expiresAt == c.observedAt + THREAD_MS
    requires c.observedAt <= c.createdAt
    requires c.sourceRawEventId in t.bySource ==> t.bySource[c.sourceRawEventId] !in t.candidates
    ensures Valid(InsertRows(t, c))
  {
    var u := InsertRows(t, c);
    InsertKeeps(t, c);
    hide InsertRows, Insertable, CandidateOk, SourceOk, DecisionOk;
    forall id | id in u.candidates ensures CandidateOk(u, id) { InsertCandidate(t, c, id); }
    forall rawId | rawId in u.bySource ensures SourceOk(u, rawId) { InsertSource(t, c, rawId); }
    forall id | id in u.decisions ensures DecisionOk(u, id) { InsertDecision(t, c, id); }
    forall s | s in u.suppressors ensures SuppressorOk(u, s) { assert SuppressorOk(t, s); }
  }

  lemma EnqueueValid(t: Tables, rawId: string, createdAt: int, candidateId: Ulid, jobId: Ulid)
    requires Valid(t)
    ensures Valid(Enqueue(t, rawId, createdAt, candidateId, jobId).0)
  {
    hide JobKey, InsertRows, Valid, JobBound, KeyTaken, RepliesToBot;
    var (u, r) := Enqueue(t, rawId, createdAt, candidateId, jobId);
    if r.Ok? && u == InsertRows(t, r.value) && r.value.jobId !in t.jobs && candidateId == r.value.id
       && Insertable(t, r.value)
       && !(rawId in t.bySource && t.bySource[rawId] in t.candidates) {
      InsertValid(t, r.value);
    }
  }

  /** What a first decision writes for its candidate: one decision and, when it suppresses, one suppressor. */
  lemma RecordedRows(t: Tables, a: Attempt, decisionId: Ulid, suppressorId: Ulid)
    requires Valid(t) && a.candidateId in t.candidates && a.candidateId !in t.decisions
    requires IdFree(t, decisionId, suppressorId)
    requires t.candidates[a.candidateId].notBeforeAt <= a.now
    ensures DecisionOk(Record(t, a, decisionId, suppressorId), a.candidateId)
  {
    var c := t.candidates[a.candidateId];
    var s := SelectSuppressor(t, c, a.now);
    assert s.None? ==> a.now < c.expiresAt;
    hide SelectSuppressor;
    assert CandidateOk(t, a.candidateId);
    forall x | x in t.suppressors ensures x.decisionId != decisionId { assert SuppressorOk(t, x); }
    FilterNone(t.suppressors, RowOf(decisionId, c.id));
    if s.Some? {
      var row := SuppressorRow(suppressorId, decisionId, c.id, s.value, a.now);
      MatchingMore(t.suppressors, row, decisionId, c.id);
    } else {
      assert t.suppressors + [] == t.suppressors;
    }
  }

  lemma OtherDecisionsKeep(t: Tables, a: Attempt, decisionId: Ulid, suppressorId: Ulid, id: string)
    requires Valid(t) && a.candidateId in t.candidates && a.candidateId !in t.decisions
    requires IdFree(t, decisionId, suppressorId) && id in t.decisions
    ensures id in Record(t, a, decisionId, suppressorId).decisions
    ensures Record(t, a, decisionId, suppressorId).decisions[id] == t.decisions[id]
    ensures DecisionOk(Record(t, a, decisionId, suppressorId), id)
  {
    hide SelectSuppressor;
    assert CandidateOk(t, a.candidateId) && DecisionOk(t, id);
    var u, d := Record(t, a, decisionId, suppressorId), t.decisions[id];
    var s := SelectSuppressor(t, t.candidates[a.candidateId], a.now);
    if s.Some? {
      var row := SuppressorRow(suppressorId, decisionId, a.candidateId, s.value, a.now);
      MatchingMore(t.suppressors, row, d.id, d.candidateId);
    } else {
      assert t.suppressors + [] == t.suppressors;
    }
  }

  lemma DecideValid(t: Tables, a: Attempt, decisionId: Ulid, suppressorId: Ulid)
    requires Valid(t)
    ensures Valid(Decide(t, a, decisionId, suppressorId).0)
  {
    hide SelectSuppressor, SuppressorsOf;
    var u := Decide(t, a, decisionId, suppressorId).0;
    if u != t {
      assert CandidateOk(t, a.candidateId);
      RecordedRows(t, a, decisionId, suppressorId);
      forall id | id in u.decisions ensures DecisionOk(u, id) {
        if id != a.candidateId { OtherDecisionsKeep(t, a, decisionId, suppressorId, id); }
      }
      forall id | id in u.candidates ensures CandidateOk(u, id) { assert CandidateOk(t, id); }
      forall rawId | rawId in u.bySource ensures SourceOk(u, rawId) { assert SourceOk(t, rawId); }
      forall s | s in u.suppressors ensures SuppressorOk(u, s) {
        if s in t.suppressors {
          assert SuppressorOk(t, s);
          var id :| id in t.decisions && t.decisions[id].id == s.decisionId;
          assert id in u.decisions && u.decisions[id].id == s.decisionId;
        } else {
          assert u.decisions[a.candidateId].id == s.decisionId;
        }
      }
    }
  }

  lemma {:induction false} RunValid(steps: seq<Step>)
    ensures Valid(Run(steps))
  {
    if steps != [] {
      RunValid(steps[..|steps| - 1]);
      var t := Run(steps[..|steps| - 1]);
      NextValid(t, steps[|steps| - 1]);
    }
  }

  lemma NextValid(t: Tables, s: Step)
    requires Valid(t)
    ensures Valid(Next(t, s))
  {
    match s {
      case EnqueueStep(rawId, createdAt, candidateId, jobId) => EnqueueValid(t, rawId, createdAt, candidateId, jobId);
      case DecideStep(a, decisionId, suppressorId) => DecideValid(t, a, decisionId, suppressorId);
      case FailStep(jobId, failedAt, hasAuthority) => SameRowsValid(t, Next(t, s));
      case IngressStep(messages, sources) => SameRowsValid(t, Next(t, s));
    }
  }

  /** Nothing but messages, sources and the schedules of jobs differs. */
  lemma SameRowsValid(t: Tables, u: Tables)
    requires Valid(t) && u == t.(jobs := u.jobs, messages := u.messages, sources := u.sources)
    requires forall id | id in t.jobs :: id in u.jobs && u.jobs[id].(scheduledAt := 0) == t.jobs[id].(scheduledAt := 0)
    ensures Valid(u)
  {
    hide JobKey, Matching;
    forall id | id in u.candidates ensures CandidateOk(u, id) { assert CandidateOk(t, id); }
    forall rawId | rawId in u.bySource ensures SourceOk(u, rawId) { assert SourceOk(t, rawId); }
    forall id | id in u.decisions ensures DecisionOk(u, id) { assert DecisionOk(t, id); }
    forall x | x in u.suppressors ensures SuppressorOk(u, x) { assert SuppressorOk(t, x); }
  }

  /** In every run a decision exists for stored candidates only; a response falls between 15 s, inclusive, and
      120 s, exclusive, after the question was observed; a suppressed decision carries exactly one suppressor
      and a response none. */
  lemma DecisionsInRuns(steps: seq<Step>, id: string)
    requires id in Run(steps).decisions
    ensures var t := Run(steps);
      var d := t.decisions[id];
      && id in t.candidates
      && (d.outcome == Respond ==>
            t.candidates[id].observedAt + 15000 <= d.decidedAt < t.candidates[id].observedAt + 120000)
      && |ReadDecision(t, d).suppressors| == if d.outcome == Suppress then 1 else 0
  {
    RunValid(steps);
    assert DecisionOk(Run(steps), id) && CandidateOk(Run(steps), id);
  }

  /** A candidate's first decision is its only one: later steps neither change nor replace it. Deciding again
      writes nothing, and reads the decision back exactly when the job still stands at its due time. */
  lemma DecisionIsFinal(steps: seq<Step>, s: Step, id: string)
    requires id in Run(steps).decisions
    ensures var t, u := Run(steps), Run(steps + [s]);
      && id in u.decisions && u.decisions[id] == t.decisions[id]
      && ReadDecision(u, u.decisions[id]) == ReadDecision(t, t.decisions[id])
      && (s.DecideStep? && s.attempt.candidateId == id ==>
            var r := Decide(t, s.attempt, s.decisionId, s.suppressorId).1;
            && u == t
            && id in t.candidates && t.candidates[id].jobId in t.jobs
            && (r.Ok? <==> Names(t, s.attempt) && AtDueTime(t, t.candidates[id]))
            && (r.Ok? ==> r.value == ReadDecision(t, t.decisions[id])))
  {
    RunValid(steps);
    assert Run(steps + [s]) == Next(Run(steps), s) by { assert (steps + [s])[..|steps|] == steps; }
    hide Run;
    match s {
      case EnqueueStep(rawId, createdAt, candidateId, jobId) =>
        EnqueueAdds(Run(steps), rawId, createdAt, candidateId, jobId);
        hide Enqueue;
      case DecideStep(a, decisionId, suppressorId) =>
        DecidedAgain(Run(steps), a, decisionId, suppressorId);
        hide Decide, SuppressorsOf;
        if Next(Run(steps), s) != Run(steps) { ReadsSame(Run(steps), s, id); }
      case _ =>
    }
  }

  lemma DecidedAgain(t: Tables, a: Attempt, decisionId: Ulid, suppressorId: Ulid)
    requires Valid(t)
    ensures var (u, r) := Decide(t, a, decisionId, suppressorId);
      a.candidateId in t.decisions ==>
        && u == t
        && a.candidateId in t.candidates && t.candidates[a.candidateId].jobId in t.jobs
        && (r.Ok? <==> Names(t, a) && AtDueTime(t, t.candidates[a.candidateId]))
        && (r.Ok? ==> r.value == ReadDecision(t, t.decisions[a.candidateId]))
  {
    hide SelectSuppressor, SuppressorsOf, IdFree, JobKey, Record;
    if a.candidateId in t.decisions { assert DecisionOk(t, a.candidateId) && CandidateOk(t, a.candidateId); }
  }

  /** A stored candidate without a decision gets one exactly from an attempt of its own job, at a valid time not
      before the due time, under the lease and with new identifiers, while the job stands at the due time. It is
      dated by the attempt, and it suppresses exactly when there is a reason, which is stored with it. */
  lemma DecidedExactly(t: Tables, a: Attempt, decisionId: Ulid, suppressorId: Ulid)
    requires Valid(t) && a.candidateId in t.candidates && a.candidateId !in t.decisions
    ensures var (u, r) := Decide(t, a, decisionId, suppressorId);
      var c := t.candidates[a.candidateId];
      var reason := SelectSuppressor(t, c, a.now);
      && (r.Ok? <==>
            && a.jobId == c.jobId && c.jobId in t.jobs && t.jobs[c.jobId].scheduledAt == c.notBeforeAt
            && 0 <= a.now <= 9007199254740991 && c.notBeforeAt <= a.now && a.hasAuthority
            && (forall id | id in t.decisions :: t.decisions[id].id != decisionId)
            && (forall s | s in t.suppressors :: s.id != suppressorId))
      && (r.Err? ==> u == t)
      && (r.Ok? ==>
            var row := DecisionRow(
              decisionId, a.candidateId, a.jobId, a.jobAttemptId, if reason.Some? then Suppress else Respond, a.now);
            var rows := if reason.Some?
              then [SuppressorRow(suppressorId, decisionId, a.candidateId, reason.value, a.now)] else [];
            && u == t.(decisions := t.decisions[a.candidateId := row], suppressors := t.suppressors + rows)
            && r.value == Decision(row, rows))
  {
    var c := t.candidates[a.candidateId];
    assert CandidateOk(t, a.candidateId);
    DecideWrites(t, a, decisionId, suppressorId);
    hide SelectSuppressor, JobKey;
    if FirstDecision(t, a, decisionId, suppressorId) {
      forall x | x in t.suppressors ensures x.decisionId != decisionId { assert SuppressorOk(t, x); }
      FilterNone(t.suppressors, RowOf(decisionId, c.id));
      var reason := SelectSuppressor(t, c, a.now);
      if reason.Some? {
        MatchingMore(t.suppressors, SuppressorRow(suppressorId, decisionId, c.id, reason.value, a.now), decisionId, c.id);
      } else {
        assert t.suppressors + [] == t.suppressors;
      }
    }
  }

  /** The attempt names a stored candidate with its own job, at a valid time. */
  predicate Names(t: Tables, a: Attempt) {
    SafeInteger(a.now) && a.now >= 0 && a.candidateId in t.candidates && t.candidates[a.candidateId].jobId == a.jobId
  }

  lemma ReadsSame(t: Tables, s: Step, id: string)
    requires Valid(t) && id in t.decisions && s.DecideStep? && Next(t, s) != t
    ensures id in Next(t, s).decisions && Next(t, s).decisions[id] == t.decisions[id]
    ensures SuppressorsOf(Next(t, s), t.decisions[id]) == SuppressorsOf(t, t.decisions[id])
  {
    hide SelectSuppressor;
    var a, d := s.attempt, t.decisions[id];
    assert CandidateOk(t, a.candidateId) && DecisionOk(t, id);
    var c := SelectSuppressor(t, t.candidates[a.candidateId], a.now);
    if c.Some? {
      var row := SuppressorRow(s.suppressorId, s.decisionId, a.candidateId, c.value, a.now);
      MatchingMore(t.suppressors, row, d.id, d.candidateId);
    } else {
      assert t.suppressors + [] == t.suppressors;
    }
  }

  lemma EarlierOrder(a: ChatMessage, b: ChatMessage, c: ChatMessage)
    ensures Earlier(a, b) || Earlier(b, a)
    ensures Earlier(a, b) && Earlier(b, c) ==> Earlier(a, c)
  {
    LexTotal(a.id, b.id);
    if LexLeq(a.id, b.id) && LexLeq(b.id, c.id) { LexTransitive(a.id, b.id, c.id); }
  }

  lemma {:induction false} FirstAnswerIsEarliest(
    messages: seq<ChatMessage>, source: ChatMessage, after: int, until: int, m: ChatMessage)
    requires m in messages && Answers(m, source, after, until)
    ensures FirstAnswer(messages, source, after, until).Some?
    ensures Earlier(FirstAnswer(messages, source, after, until).value, m)
  {
    hide Answers, Earlier;
    var r := FirstAnswer(messages, source, after, until).value;
    var rest := FirstAnswer(messages[1..], source, after, until);
    EarlierOrder(m, m, m);
    if m in messages[1..] {
      FirstAnswerIsEarliest(messages[1..], source, after, until, m);
      EarlierOrder(messages[0], rest.value, m);
    } else if rest.Some? {
      EarlierOrder(messages[0], rest.value, m);
    }
  }

  /** The reasons in their order of precedence, and what each says of the tables: the thread has expired; someone
      has answered the question, and the earliest answer is named; more than five messages of the group came in
      the last 10 s; two or more questions of the group were answered in the last 600 s. A response means that
      none of this is so. */
  lemma SuppressorMeans(t: Tables, c: Candidate, now: int, source: ChatMessage)
    requires source in t.messages && source.id == c.sourceChatMessageId
    requires forall m | m in t.messages && m.id == source.id :: m == source
    ensures var s := SelectSuppressor(t, c, now);
      var answers := (m: ChatMessage) =>
        && m.conversationId == source.conversationId && m.isGroup && m.groupId.Some? && m.groupId == source.groupId
        && m.replyToMessageId == Some(source.platformMessageId) && m.senderId != "bot-self" && m.ingress
        && c.observedAt < m.receivedAt <= now;
      var traffic := |set i | 0 <= i < |t.messages| && (
        var m := t.messages[i];
        && m.conversationId == c.conversationId && m.isGroup && m.groupId == Some(c.groupId)
        && m.senderId != "bot-self" && m.ingress && now - 10000 < m.receivedAt <= now)|;
      var answered := |set id | id in t.decisions && id in t.candidates && t.decisions[id].outcome == Respond
        && t.candidates[id].groupId == c.groupId && now - 600000 < t.decisions[id].decidedAt <= now|;
      var open, unanswered := now < c.expiresAt, forall m | m in t.messages :: !answers(m);
      && (s == Some(ThreadExpired) <==> !open)
      && (s.Some? && s.value.HumanAnswer? <==> open && !unanswered)
      && (s.Some? && s.value.HumanAnswer? ==>
            exists m | m in t.messages :: answers(m) && m.id == s.value.evidenceChatMessageId
              && forall x | x in t.messages && answers(x) ::
                   m.receivedAt < x.receivedAt || (m.receivedAt == x.receivedAt && LexLeq(m.id, x.id)))
      && (forall n :: s == Some(HighTraffic(n)) <==> (open && unanswered && n == traffic && n > 5))
      && (forall n :: s == Some(GroupBudgetExhausted(n)) <==>
            (open && unanswered && traffic <= 5 && n == answered && n >= 2))
      && (s.None? <==> open && unanswered && traffic <= 5 && answered < 2)
  {
    SourceAnswer(t, c, now, source);
    TrafficIs(t, c, now);
    ResponsesAre(t, c.groupId, now);
    var answer := HumanAnswerOf(t, c, now);
    hide Traffic, Responses, HumanAnswerOf;
    if answer.Some? {
      assert Answers(answer.value, source, c.observedAt, now);
      forall x | x in t.messages && Answers(x, source, c.observedAt, now)
        ensures answer.value.receivedAt < x.receivedAt
          || (answer.value.receivedAt == x.receivedAt && LexLeq(answer.value.id, x.id))
      {
        assert Earlier(answer.value, x);
      }
    }
  }

  lemma SourceAnswer(t: Tables, c: Candidate, now: int, source: ChatMessage)
    requires source in t.messages && source.id == c.sourceChatMessageId
    requires forall m | m in t.messages && m.id == source.id :: m == source
    ensures var answer := HumanAnswerOf(t, c, now);
      && (answer.Some? ==> answer.value in t.messages && Answers(answer.value, source, c.observedAt, now))
      && forall x | x in t.messages && Answers(x, source, c.observedAt, now) :: answer.Some? && Earlier(answer.value, x)
  {
    hide Answers;
    var at := Find(t.messages, (m: ChatMessage) => m.id == c.sourceChatMessageId);
    assert at.Some? && t.messages[at.value] == source;
    var answer := FirstAnswer(t.messages, source, c.observedAt, now);
    assert HumanAnswerOf(t, c, now) == answer;
    forall x | x in t.messages && Answers(x, source, c.observedAt, now) ensures answer.Some? && Earlier(answer.value, x) {
      FirstAnswerIsEarliest(t.messages, source, c.observedAt, now, x);
    }
  }

  lemma TrafficIs(t: Tables, c: Candidate, now: int)
    ensures Traffic(t.messages, c, now) == |set i | 0 <= i < |t.messages| && (
      var m := t.messages[i];
      && m.conversationId == c.conversationId && m.isGroup && m.groupId == Some(c.groupId)
      && m.senderId != "bot-self" && m.ingress && now - 10000 < m.receivedAt <= now)|
  {
    var p := (m: ChatMessage) =>
      m.conversationId == c.conversationId && m.isGroup && m.groupId == Some(c.groupId)
      && Received(m, now - TRAFFIC_WINDOW_MS, now);
    FilterSize(t.messages, p);
    assert Positions(t.messages, p) == set i | 0 <= i < |t.messages| && (
      var m := t.messages[i];
      && m.conversationId == c.conversationId && m.isGroup && m.groupId == Some(c.groupId)
      && m.senderId != "bot-self" && m.ingress && now - 10000 < m.receivedAt <= now);
  }

  lemma ResponsesAre(t: Tables, groupId: string, now: int)
    ensures Responses(t, groupId, now - BUDGET_WINDOW_MS, now) ==
      set id | id in t.decisions && id in t.candidates && t.decisions[id].outcome == Respond
        && t.candidates[id].groupId == groupId && now - 600000 < t.decisions[id].decidedAt <= now
  {
  }

  /** An event that has no candidate yet gets one exactly when it is one received group question, neither from nor to
      the bot, whose only accepted receipt is the one its admission is being processed for, and when neither its
      message nor a drawn identifier is taken. The question is due after 15 s, closes after 120 s, and has one job. */
  lemma EnqueuedExactly(t: Tables, rawId: string, createdAt: int, candidateId: Ulid, jobId: Ulid)
    requires rawId !in t.bySource
    ensures var (u, r) := Enqueue(t, rawId, createdAt, candidateId, jobId);
      && (r.Ok? <==>
            && rawId in t.sources && |t.sources[rawId]| == 1
            && var s := t.sources[rawId][0];
            var m := s.message;
            && m.ingress && s.rawConversationId == Some(m.conversationId) && m.isGroup
            && m.groupId.Some? && m.groupId.value != "" && m.senderId != "bot-self"
            && !s.mentionsBot && s.asksQuestion
            && (m.replyToMessageId.Some? ==> forall x | x in t.messages ::
                  x.platformMessageId == m.replyToMessageId.value && x.conversationId == m.conversationId && x.isGroup
                  ==> x.senderId != "bot-self")
            && s.processing && s.acceptedAt == m.receivedAt
            && s.acceptedReceiptCount == 1 && s.acceptedReceivedAt == Some(m.receivedAt)
            && 0 <= m.receivedAt <= createdAt <= 9007199254740991
            && candidateId !in t.candidates && jobId !in t.jobs
            && (forall id | id in t.candidates ::
                  t.candidates[id].sourceChatMessageId != m.id && t.candidates[id].jobId != jobId)
            && forall id | id in t.jobs :: t.jobs[id].idempotencyKey != "attention:deferred:v1:" + rawId)
      && (r.Err? ==> u == t)
      && (r.Ok? ==>
            var m := t.sources[rawId][0].message;
            && r.value == Candidate(candidateId, rawId, m.id, jobId, m.conversationId, m.groupId.value, m.receivedAt,
                 createdAt, m.receivedAt + 15000, m.receivedAt + 120000)
            && u == t.(candidates := t.candidates[candidateId := r.value], bySource := t.bySource[rawId := candidateId],
                 jobs := t.jobs[jobId := Job("attention_recheck", candidateId, "attention:deferred:v1:" + rawId,
                                             m.receivedAt + 15000, createdAt, 3)]))
  {
    hide JobBound;
  }

  /** Enqueueing only adds a candidate. */
  lemma EnqueueAdds(t: Tables, rawId: string, createdAt: int, candidateId: Ulid, jobId: Ulid)
    ensures var u := Enqueue(t, rawId, createdAt, candidateId, jobId).0;
      && u.decisions == t.decisions && u.suppressors == t.suppressors
      && forall id | id in t.candidates :: id in u.candidates && u.candidates[id] == t.candidates[id]
  {
    hide Eligible, JobKey, KeyTaken, JobBound;
  }

  lemma CandidatesNamed(t: Tables, a: Attempt)
    requires Valid(t) && a.candidateId in t.candidates
    ensures t.candidates[a.candidateId].id == a.candidateId
  {
    assert CandidateOk(t, a.candidateId);
  }
}
