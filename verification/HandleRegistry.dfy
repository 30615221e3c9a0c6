// Opaque handles for governed resources, bound to one session, purpose, kind, resource and scope.
module HandleRegistry {
  import opened Text

  const MAX_ACTIVE_SESSIONS := 8
  const MAX_HANDLES_PER_SESSION := 512
  const MAX_SESSION_TTL_MS := 3600000
  const MAX_SAFE_INTEGER := 9007199254740991

  datatype Scope =
    | Global
    | System
    | User(canonicalUserId: string)
    | Group(groupId: string)
    | Tool(toolName: string)
    | PrivateConversation(conversationId: string)
    | GroupConversation(conversationId: string, groupId: string)

  datatype Binding = Binding(sessionId: string, purpose: string, resourceKind: string, resourceId: string, scope: Scope)

  datatype Record = Record(binding: Binding, expiresAt: int)

  /** The two maps. */
  datatype Registry = Registry(records: map<string, Record>, handles: map<Binding, string>)

  datatype RegistryError = InvalidClock | InvalidInput | CapacityExceeded

  datatype Issued = Issued(handle: string, expiresAt: int)

  datatype Resource = Resource(kind: string, resourceId: string)

  datatype Query = Query(sessionId: string, handle: string, purpose: string, resourceKind: string, scope: Scope)

  const EMPTY := Registry(map[], map[])

  // ---------------------------------------------------------------- input checks

  predicate IsSessionId(s: string) {
    |s| == 64 && forall i | 0 <= i < 64 :: '0' <= s[i] <= '9' || 'a' <= s[i] <= 'f'
  }

  predicate IsHandle(s: string) {
    |s| == 43 && forall i | 0 <= i < 43 ::
      'A' <= s[i] <= 'Z' || 'a' <= s[i] <= 'z' || '0' <= s[i] <= '9' || s[i] == '_' || s[i] == '-'
  }

  predicate Bounded(s: string, max: nat) {
    1 <= |s| <= max && Trim(s) == s && forall i | 0 <= i < |s| :: s[i] as int > 31 && s[i] as int != 127
  }

  predicate ValidScope(s: Scope) {
    match s
    case Global => true
    case System => true
    case User(id) => Bounded(id, 256)
    case Group(id) => Bounded(id, 256)
    case Tool(name) => Bounded(name, 256)
    case PrivateConversation(id) => Bounded(id, 256)
    case GroupConversation(id, groupId) => Bounded(id, 256) && Bounded(groupId, 256)
  }

  predicate ValidClock(now: int) {
    0 <= now <= MAX_SAFE_INTEGER
  }

  predicate ValidNames(b: Binding) {
    Bounded(b.purpose, 128) && Bounded(b.resourceKind, 128) && Bounded(b.resourceId, 256) && ValidScope(b.scope)
  }

  predicate ValidIssue(b: Binding, expiresAt: int, now: int) {
    && IsSessionId(b.sessionId)
    && -MAX_SAFE_INTEGER <= expiresAt <= MAX_SAFE_INTEGER
    && now < expiresAt <= now + MAX_SESSION_TTL_MS
    && ValidNames(b)
  }

  predicate ValidQuery(q: Query) {
    IsSessionId(q.sessionId) && IsHandle(q.handle) && Bounded(q.purpose, 128) && Bounded(q.resourceKind, 128)
    && ValidScope(q.scope)
  }

  // ---------------------------------------------------------------- the registry as a value

  /** The maps are inverse to each other. */
  predicate Mutual(r: Registry) {
    && (forall h | h in r.records :: r.records[h].binding in r.handles && r.handles[r.records[h].binding] == h)
    && (forall b | b in r.handles :: r.handles[b] in r.records && r.records[r.handles[b]].binding == b)
  }

  /** What is left when only some records are kept. */
  function Retain(r: Registry, keep: Record -> bool): Registry {
    Registry(
      r.records - (set h | h in r.records && !keep(r.records[h])),
      r.handles - (set b | b in r.handles && !(r.handles[b] in r.records && keep(r.records[r.handles[b]]))))
  }

  function LiveAt(now: int): Record -> bool {
    (x: Record) => x.expiresAt > now
  }

  function NotOf(sessionId: string): Record -> bool {
    (x: Record) => x.binding.sessionId != sessionId
  }

  function Sweep(r: Registry, now: int): Registry {
    Retain(r, LiveAt(now))
  }

  function HandlesOf(r: Registry, sessionId: string): set<string> {
    set h | h in r.records && r.records[h].binding.sessionId == sessionId
  }

  function ActiveSessions(r: Registry): set<string> {
    set h | h in r.records :: r.records[h].binding.sessionId
  }

  function Add(r: Registry, handle: string, x: Record): Registry {
    Registry(r.records[handle := x], r.handles[x.binding := handle])
  }

  function Drop(r: Registry, handle: string, x: Record): Registry {
    Registry(r.records - {handle},
      if x.binding in r.handles && r.handles[x.binding] == handle then r.handles - {x.binding} else r.handles)
  }

  /** `handle` is a random value that no live record has. */
  function Issue(r: Registry, b: Binding, expiresAt: int, now: int, handle: string)
    : (Registry, Result<Issued, RegistryError>)
  {
    if !ValidClock(now) then (r, Err(InvalidClock))
    else if !ValidIssue(b, expiresAt, now) then (r, Err(InvalidInput))
    else
      var s := Sweep(r, now);
      var own := HandlesOf(s, b.sessionId);
      if exists h | h in own :: s.records[h].expiresAt != expiresAt then (s, Err(InvalidInput))
      else if b in s.handles && s.handles[b] in s.records then
        (s, Ok(Issued(s.handles[b], s.records[s.handles[b]].expiresAt)))
      else if (own == {} && |ActiveSessions(s)| >= MAX_ACTIVE_SESSIONS) || |own| >= MAX_HANDLES_PER_SESSION then
        (s, Err(CapacityExceeded))
      else (Add(s, handle, Record(b, expiresAt)), Ok(Issued(handle, expiresAt)))
  }

  predicate Matches(x: Record, q: Query) {
    x.binding.sessionId == q.sessionId && x.binding.purpose == q.purpose && x.binding.resourceKind == q.resourceKind
    && x.binding.scope == q.scope
  }

  function Resolve(r: Registry, q: Query, now: int): (Registry, Result<Option<Resource>, RegistryError>) {
    if !ValidQuery(q) then (r, Ok(None))
    else if !ValidClock(now) then (r, Err(InvalidClock))
    else
      var s := Sweep(r, now);
      if q.handle !in s.records || !Matches(s.records[q.handle], q) then (s, Ok(None))
      else
        var b := s.records[q.handle].binding;
        (s, Ok(Some(Resource(b.resourceKind, b.resourceId))))
  }

  function Revoke(r: Registry, sessionId: string): Registry {
    if IsSessionId(sessionId) then Retain(r, NotOf(sessionId)) else r
  }

  // ---------------------------------------------------------------- the registry as an object

  class GovernanceResourceHandleRegistry {
    var recordsByHandle: map<string, Record>
    var handleByBinding: map<Binding, string>

    function State(): Registry
      reads this
    {
      Registry(recordsByHandle, handleByBinding)
    }

    constructor ()
      ensures State() == EMPTY
    {
      recordsByHandle, handleByBinding := map[], map[];
    }

    method RemoveRecord(handle: string, record: Record)
      modifies this
      ensures State() == Drop(old(State()), handle, record)
    {
      recordsByHandle := recordsByHandle - {handle};
      if record.binding in handleByBinding && handleByBinding[record.binding] == handle {
        handleByBinding := handleByBinding - {record.binding};
      }
    }

    /** The loop of both removals: every record not to be kept goes, with its binding. */
    method RemoveUnless(keep: Record -> bool)
      requires Mutual(State())
      modifies this
      ensures State() == Retain(old(State()), keep) && Mutual(State())
    {
      hide Mutual;
      var pending := recordsByHandle.Keys;
      ghost var before := State();
      while pending != {}
        invariant pending <= recordsByHandle.Keys <= before.records.Keys
        invariant Mutual(State())
        invariant forall h | h in recordsByHandle :: recordsByHandle[h] == before.records[h]
        invariant forall h | h in recordsByHandle && h !in pending :: keep(recordsByHandle[h])
        invariant forall h | h in before.records && keep(before.records[h]) :: h in recordsByHandle
        decreases |pending|
      {
        var handle :| handle in pending;
        var record := recordsByHandle[handle];
        pending := pending - {handle};
        if !keep(record) {
          DropMutual(State(), handle);
          RemoveRecord(handle, record);
        }
      }
      RetainIs(before, State(), keep);
    }

    method RemoveExpired(now: int)
      requires Mutual(State())
      modifies this
      ensures State() == Sweep(old(State()), now) && Mutual(State())
    {
      RemoveUnless(LiveAt(now));
    }

    method IssueHandle(b: Binding, expiresAt: int, now: int, handle: string) returns (r: Result<Issued, RegistryError>)
      requires Mutual(State()) && handle !in recordsByHandle
      modifies this
      ensures (State(), r) == Issue(old(State()), b, expiresAt, now, handle) && Mutual(State())
    {
      if !ValidClock(now) { return Err(InvalidClock); }
      if !ValidIssue(b, expiresAt, now) { return Err(InvalidInput); }
      hide ValidIssue, ValidClock, Mutual, Sweep;
      RemoveExpired(now);
      var own := HandlesOf(State(), b.sessionId);
      if exists h | h in own :: recordsByHandle[h].expiresAt != expiresAt { return Err(InvalidInput); }
      if b in handleByBinding && handleByBinding[b] in recordsByHandle {
        return Ok(Issued(handleByBinding[b], recordsByHandle[handleByBinding[b]].expiresAt));
      }
      if (own == {} && |ActiveSessions(State())| >= MAX_ACTIVE_SESSIONS) || |own| >= MAX_HANDLES_PER_SESSION {
        return Err(CapacityExceeded);
      }
      assert b !in handleByBinding by { NoDangling(State(), b); }
      assert handle !in recordsByHandle by { SweepOnlyRemoves(old(State()), now); }
      AddMutual(State(), handle, Record(b, expiresAt));
      recordsByHandle := recordsByHandle[handle := Record(b, expiresAt)];
      handleByBinding := handleByBinding[b := handle];
      return Ok(Issued(handle, expiresAt));
    }

    method ResolveHandle(q: Query, now: int) returns (r: Result<Option<Resource>, RegistryError>)
      requires Mutual(State())
      modifies this
      ensures (State(), r) == Resolve(old(State()), q, now) && Mutual(State())
    {
      if !ValidQuery(q) { return Ok(None); }
      if !ValidClock(now) { return Err(InvalidClock); }
      hide ValidQuery, ValidClock;
      RemoveExpired(now);
      if q.handle !in recordsByHandle || !Matches(recordsByHandle[q.handle], q) { return Ok(None); }
      var b := recordsByHandle[q.handle].binding;
      return Ok(Some(Resource(b.resourceKind, b.resourceId)));
    }

    method RevokeSession(sessionId: string)
      requires Mutual(State())
      modifies this
      ensures State() == Revoke(old(State()), sessionId) && Mutual(State())
    {
      if IsSessionId(sessionId) { RemoveUnless(NotOf(sessionId)); }
    }

    method Clear()
      modifies this
      ensures State() == EMPTY && Mutual(State())
    {
      recordsByHandle, handleByBinding := map[], map[];
    }
  }

  lemma DropMutual(r: Registry, handle: string)
    requires Mutual(r) && handle in r.records
    ensures Mutual(Drop(r, handle, r.records[handle]))
  {
  }

  lemma AddMutual(r: Registry, handle: string, x: Record)
    requires Mutual(r) && handle !in r.records && x.binding !in r.handles
    ensures Mutual(Add(r, handle, x))
  {
  }

  lemma NoDangling(r: Registry, b: Binding)
    requires Mutual(r)
    ensures b in r.handles ==> r.handles[b] in r.records
  {
  }

  lemma SweepOnlyRemoves(r: Registry, now: int)
    ensures forall h | h in Sweep(r, now).records :: h in r.records && Sweep(r, now).records[h] == r.records[h]
  {
  }

  lemma RetainIs(r: Registry, s: Registry, keep: Record -> bool)
    requires Mutual(r) && Mutual(s)
    requires forall h | h in s.records :: h in r.records && s.records[h] == r.records[h] && keep(s.records[h])
    requires forall h | h in r.records && keep(r.records[h]) :: h in s.records
    ensures s == Retain(r, keep)
  {
    RetainMutual(r, keep);
    hide Mutual;
    assert s.records == Retain(r, keep).records;
    MutualDetermines(s, Retain(r, keep));
  }

  lemma RetainMutual(r: Registry, keep: Record -> bool)
    requires Mutual(r)
    ensures Mutual(Retain(r, keep))
  {
  }

  /** Inverse maps determine each other. */
  lemma MutualDetermines(r: Registry, s: Registry)
    requires Mutual(r) && Mutual(s) && r.records == s.records
    ensures r == s
  {
    assert forall b | b in r.handles :: b in s.handles && r.handles[b] == s.handles[b];
    assert forall b | b in s.handles :: b in r.handles;
    assert r.handles == s.handles;
  }

  // ---------------------------------------------------------------- runs

  datatype Step =
    | IssueStep(binding: Binding, expiresAt: int, now: int, handle: string)
    | ResolveStep(query: Query, now: int)
    | RevokeStep(sessionId: string)
    | ClearStep

  function Next(r: Registry, s: Step): Registry {
    match s
    case IssueStep(b, expiresAt, now, handle) => Issue(r, b, expiresAt, now, handle).0
    case ResolveStep(q, now) => Resolve(r, q, now).0
    case RevokeStep(sessionId) => Revoke(r, sessionId)
    case ClearStep => EMPTY
  }

  function Run(steps: seq<Step>): Registry {
    if steps == [] then EMPTY else Next(Run(steps[..|steps| - 1]), steps[|steps| - 1])
  }

  /** Every random handle differs from the live ones. */
  predicate Fresh(steps: seq<Step>) {
    forall i | 0 <= i < |steps| && steps[i].IssueStep? :: steps[i].handle !in Run(steps[..i]).records
  }

  lemma NextMutual(r: Registry, s: Step)
    requires Mutual(r) && (s.IssueStep? ==> s.handle !in r.records)
    ensures Mutual(Next(r, s))
  {
    hide ValidIssue, ValidClock, ValidQuery, IsSessionId, Mutual, Sweep;
    match s {
      case IssueStep(b, _, now, handle) =>
        SweepMutual(r, now);
        NoDangling(Sweep(r, now), b);
        SweepOnlyRemoves(r, now);
        if b !in Sweep(r, now).handles { AddMutual(Sweep(r, now), handle, Record(b, s.expiresAt)); }
      case ResolveStep(_, now) => SweepMutual(r, now);
      case RevokeStep(sessionId) => RetainMutual(r, NotOf(sessionId));
      case ClearStep => assert Mutual(EMPTY) by { EmptyMutual(); }
    }
  }

  lemma EmptyMutual()
    ensures Mutual(EMPTY)
  {
  }

  lemma SweepMutual(r: Registry, now: int)
    requires Mutual(r)
    ensures Mutual(Sweep(r, now))
  {
    RetainMutual(r, LiveAt(now));
  }

  /** The two maps stay inverse to each other through every run. */
  lemma {:induction false} RunMutual(steps: seq<Step>)
    requires Fresh(steps)
    ensures Mutual(Run(steps))
  {
    if steps != [] {
      FreshPrefix(steps);
      RunMutual(steps[..|steps| - 1]);
      NextMutual(Run(steps[..|steps| - 1]), steps[|steps| - 1]);
    }
  }

  lemma FreshPrefix(steps: seq<Step>)
    requires steps != [] && Fresh(steps)
    ensures Fresh(steps[..|steps| - 1])
    ensures var n := |steps| - 1; steps[n].IssueStep? ==> steps[n].handle !in Run(steps[..n]).records
  {
    var init := steps[..|steps| - 1];
    assert forall i | 0 <= i < |init| :: init[..i] == steps[..i] && init[i] == steps[i];
  }

  /** The step removes a live record of this kind. */
  predicate Kills(s: Step, x: Record) {
    match s
    case IssueStep(b, expiresAt, now, _) => ValidClock(now) && ValidIssue(b, expiresAt, now) && x.expiresAt <= now
    case ResolveStep(q, now) => ValidQuery(q) && ValidClock(now) && x.expiresAt <= now
    case RevokeStep(sessionId) => IsSessionId(sessionId) && x.binding.sessionId == sessionId
    case ClearStep => true
  }

  /** The step hands out the handle for the record. */
  predicate Grants(r: Registry, s: Step, h: string, x: Record) {
    s.IssueStep? && s.binding == x.binding
    && Issue(r, s.binding, s.expiresAt, s.now, s.handle).1 == Ok(Issued(h, x.expiresAt))
  }

  predicate Holds(r: Registry, h: string, x: Record) {
    h in r.records && r.records[h] == x
  }

  lemma RetainHolds(r: Registry, keep: Record -> bool, h: string, x: Record)
    ensures Holds(Retain(r, keep), h, x) <==> Holds(r, h, x) && keep(x)
  {
  }

  lemma IssueHolds(r: Registry, s: Step, h: string, x: Record)
    requires Mutual(r) && s.IssueStep? && s.handle !in r.records
    ensures Holds(Next(r, s), h, x) <==> (Holds(r, h, x) && !Kills(s, x)) || Grants(r, s, h, x)
  {
    var b := s.binding;
    assert ValidIssue(b, s.expiresAt, s.now) ==> s.expiresAt > s.now;
    hide ValidIssue, ValidClock, Sweep;
    if ValidClock(s.now) && ValidIssue(b, s.expiresAt, s.now) {
      var w := Sweep(r, s.now);
      RetainHolds(r, LiveAt(s.now), h, x);
      assert Holds(w, h, x) <==> Holds(r, h, x) && x.expiresAt > s.now by { SweepHolds(r, s.now, h, x); }
      SweepMutual(r, s.now);
      SweepOnlyRemoves(r, s.now);
      NoDangling(w, b);
      IssueAdds(r, s, h, x);
    }
  }

  lemma SweepHolds(r: Registry, now: int, h: string, x: Record)
    ensures Holds(Sweep(r, now), h, x) <==> Holds(r, h, x) && x.expiresAt > now
  {
    RetainHolds(r, LiveAt(now), h, x);
  }

  lemma IssueAdds(r: Registry, s: Step, h: string, x: Record)
    requires s.IssueStep? && Mutual(Sweep(r, s.now)) && s.handle !in Sweep(r, s.now).records
    requires ValidClock(s.now) && ValidIssue(s.binding, s.expiresAt, s.now)
    ensures Holds(Next(r, s), h, x) <==> Holds(Sweep(r, s.now), h, x) || Grants(r, s, h, x)
  {
    hide ValidIssue, ValidClock, Sweep;
    var w := Sweep(r, s.now);
    var own := HandlesOf(w, s.binding.sessionId);
    if s.binding in w.handles {
      assert w.handles[s.binding] in own;
    }
  }

  /** What is live after a step: what was and is not removed by it, and what it grants. */
  lemma NextHolds(r: Registry, s: Step, h: string, x: Record)
    requires Mutual(r) && (s.IssueStep? ==> s.handle !in r.records)
    ensures Holds(Next(r, s), h, x) <==> (Holds(r, h, x) && !Kills(s, x)) || Grants(r, s, h, x)
  {
    match s {
      case IssueStep(_, _, _, _) => IssueHolds(r, s, h, x);
      case ResolveStep(q, now) =>
        hide ValidQuery, ValidClock, Sweep;
        SweepHolds(r, now, h, x);
      case RevokeStep(sessionId) => RetainHolds(r, NotOf(sessionId), h, x);
      case ClearStep =>
    }
  }

  /** Step `i` granted the handle, and nothing since has removed it. */
  predicate LiveGrant(steps: seq<Step>, i: nat, h: string, x: Record)
    requires i < |steps|
  {
    Grants(Run(steps[..i]), steps[i], h, x) && forall j | i < j < |steps| :: !Kills(steps[j], x)
  }

  predicate Granted(steps: seq<Step>, h: string, x: Record) {
    exists i | 0 <= i < |steps| :: LiveGrant(steps, i, h, x)
  }

  lemma GrantedStep(steps: seq<Step>, h: string, x: Record)
    requires steps != []
    ensures var init, last := steps[..|steps| - 1], steps[|steps| - 1];
      Granted(steps, h, x) <==> (Granted(init, h, x) && !Kills(last, x)) || Grants(Run(init), last, h, x)
  {
    hide Grants, Kills, Run;
    var n := |steps| - 1;
    var init := steps[..n];
    forall i | 0 <= i < n ensures LiveGrant(steps, i, h, x) <==> LiveGrant(init, i, h, x) && !Kills(steps[n], x) {
      assert init[..i] == steps[..i];
    }
    assert LiveGrant(steps, n, h, x) <==> Grants(Run(init), steps[n], h, x);
    hide LiveGrant;
    if Granted(init, h, x) && !Kills(steps[n], x) {
      var i :| 0 <= i < n && LiveGrant(init, i, h, x);
      assert LiveGrant(steps, i, h, x);
    }
  }

  /** The live records of a run are exactly the handles granted and not since expired, revoked or cleared. */
  lemma {:induction false} HistoryOfRun(steps: seq<Step>, h: string, x: Record)
    requires Fresh(steps)
    ensures Holds(Run(steps), h, x) <==> Granted(steps, h, x)
  {
    if steps == [] {
      assert !Holds(EMPTY, h, x);
    } else {
      var init, last := steps[..|steps| - 1], steps[|steps| - 1];
      assert Run(steps) == Next(Run(init), last);
      hide *;
      FreshPrefix(steps);
      HistoryOfRun(init, h, x);
      RunMutual(init);
      NextHolds(Run(init), last, h, x);
      GrantedStep(steps, h, x);
    }
  }

  /** In every run a query resolves, to a given resource, exactly when its handle was granted to the same
      session for the same purpose, kind and scope and for that resource, and has not since expired, been
      revoked or cleared. */
  lemma ResolvesExactly(steps: seq<Step>, q: Query, now: int, resourceId: string)
    requires Fresh(steps) && ValidClock(now) && ValidQuery(q)
    ensures Resolve(Run(steps), q, now).1 == Ok(Some(Resource(q.resourceKind, resourceId))) <==>
      exists expiresAt: int | expiresAt > now :: Granted(steps, q.handle, GrantFor(q, resourceId, expiresAt))
  {
    hide ValidClock, ValidQuery, Granted, Sweep;
    var r := Run(steps);
    hide Run;
    forall expiresAt: int
      ensures Holds(Sweep(r, now), q.handle, GrantFor(q, resourceId, expiresAt)) <==>
        expiresAt > now && Granted(steps, q.handle, GrantFor(q, resourceId, expiresAt))
    {
      SweepHolds(r, now, q.handle, GrantFor(q, resourceId, expiresAt));
      HistoryOfRun(steps, q.handle, GrantFor(q, resourceId, expiresAt));
    }
    if q.handle in Sweep(r, now).records && Matches(Sweep(r, now).records[q.handle], q)
       && Sweep(r, now).records[q.handle].binding.resourceId == resourceId {
      var x := Sweep(r, now).records[q.handle];
      assert x == GrantFor(q, resourceId, x.expiresAt);
      assert Holds(Sweep(r, now), q.handle, GrantFor(q, resourceId, x.expiresAt));
    }
  }

  function GrantFor(q: Query, resourceId: string, expiresAt: int): Record {
    Record(Binding(q.sessionId, q.purpose, q.resourceKind, resourceId, q.scope), expiresAt)
  }

  /** The records of one session expire together. */
  predicate OneExpiry(r: Registry) {
    forall h, g | h in r.records && g in r.records && r.records[h].binding.sessionId == r.records[g].binding.sessionId ::
      r.records[h].expiresAt == r.records[g].expiresAt
  }

  lemma NextOneExpiry(r: Registry, s: Step)
    requires OneExpiry(r)
    ensures OneExpiry(Next(r, s))
  {
    hide ValidIssue, ValidClock, ValidQuery, IsSessionId;
    if s.IssueStep? {
      var w := Sweep(r, s.now);
      assert forall h | h in w.records && w.records[h].binding.sessionId == s.binding.sessionId ::
        h in HandlesOf(w, s.binding.sessionId);
    }
  }

  lemma {:induction false} RunOneExpiry(steps: seq<Step>)
    ensures OneExpiry(Run(steps))
  {
    if steps != [] {
      hide OneExpiry, Next;
      RunOneExpiry(steps[..|steps| - 1]);
      NextOneExpiry(Run(steps[..|steps| - 1]), steps[|steps| - 1]);
    } else {
      assert OneExpiry(EMPTY);
    }
  }

  /** Issuing a live binding again returns the same handle and adds nothing; distinct live bindings have
      distinct handles. */
  lemma ReissueIsStable(steps: seq<Step>, h: string, x: Record, g: string, y: Record, now: int, handle: string)
    requires Fresh(steps) && Holds(Run(steps), h, x) && Holds(Run(steps), g, y)
    requires ValidClock(now) && ValidIssue(x.binding, x.expiresAt, now)
    ensures h == g <==> x.binding == y.binding
    ensures Issue(Run(steps), x.binding, x.expiresAt, now, handle) == (Sweep(Run(steps), now), Ok(Issued(h, x.expiresAt)))
  {
    RunMutual(steps);
    RunOneExpiry(steps);
    var r := Run(steps);
    assert x.expiresAt > now;
    hide ValidClock, ValidIssue, Run;
    SweepMutual(r, now);
    SweepHolds(r, now, h, x);
    SweepOnlyRemoves(r, now);
    assert Sweep(r, now).handles[x.binding] == h;
    hide Sweep;
  }

  // ---------------------------------------------------------------- what is accepted

  predicate IsHex(c: char) {
    IsDigit(c) || c in ['a', 'b', 'c', 'd', 'e', 'f']
  }

  /** A letter, a digit, `-` or `_`. */
  predicate IsBase64Url(c: char) {
    IsDigit(c) || 'a' <= c <= 'z' || 'A' <= c <= 'Z' || c in ['-', '_']
  }

  /** A name of at most `max` characters, none of them a control character and no space at either end. */
  predicate IsName(s: string, max: nat) {
    && s != "" && |s| <= max && !IsSpace(s[0]) && !IsSpace(s[|s| - 1])
    && forall c | c in s :: c >= ' ' && c != '\U{007F}'
  }

  function ScopeNames(s: Scope): seq<string> {
    match s
    case Global => []
    case System => []
    case User(id) => [id]
    case Group(id) => [id]
    case Tool(name) => [name]
    case PrivateConversation(id) => [id]
    case GroupConversation(id, groupId) => [id, groupId]
  }

  predicate AreNames(names: seq<string>, max: nat) {
    forall n | n in names :: IsName(n, max)
  }

  lemma TrimmedExactly(s: string)
    requires s != ""
    ensures Trim(s) == s <==> !IsSpace(s[0]) && !IsSpace(s[|s| - 1])
  {
    TrimShorter(s);
  }

  lemma {:induction false} StartShorter(s: string)
    ensures |TrimStart(s)| <= |s|
  {
    if s != "" && IsSpace(s[0]) { StartShorter(s[1..]); }
  }

  lemma {:induction false} EndShorter(s: string)
    ensures |TrimEnd(s)| <= |s|
  {
    if s != "" && IsSpace(s[|s| - 1]) { EndShorter(s[..|s| - 1]); }
  }

  lemma TrimShorter(s: string)
    requires s != ""
    ensures IsSpace(s[0]) ==> |Trim(s)| < |s|
    ensures !IsSpace(s[0]) && IsSpace(s[|s| - 1]) ==> |Trim(s)| < |s|
  {
    StartShorter(s[1..]);
    EndShorter(TrimStart(s));
    EndShorter(s[..|s| - 1]);
  }

  lemma BoundedExactly(s: string, max: nat)
    ensures Bounded(s, max) <==> IsName(s, max)
  {
    if s != "" { TrimmedExactly(s); }
    assert forall c | c in s :: exists i | 0 <= i < |s| :: s[i] == c;
    assert forall i | 0 <= i < |s| :: s[i] in s;
    hide Trim, IsSpace;
  }

  /** What the registry takes for a session, a handle and names. */
  lemma InputsExactly(b: Binding, q: Query, now: int, expiresAt: int)
    ensures IsSessionId(b.sessionId) <==> |b.sessionId| == 64 && forall c | c in b.sessionId :: IsHex(c)
    ensures IsHandle(q.handle) <==> |q.handle| == 43 && forall c | c in q.handle :: IsBase64Url(c)
    ensures ValidNames(b) <==>
      IsName(b.purpose, 128) && IsName(b.resourceKind, 128) && IsName(b.resourceId, 256)
      && AreNames(ScopeNames(b.scope), 256)
    ensures ValidQuery(q) <==>
      IsSessionId(q.sessionId) && IsHandle(q.handle) && IsName(q.purpose, 128) && IsName(q.resourceKind, 128)
      && AreNames(ScopeNames(q.scope), 256)
    ensures ValidClock(now) <==> 0 <= now <= 9007199254740991
    ensures ValidIssue(b, expiresAt, now) <==>
      IsSessionId(b.sessionId) && ValidNames(b) && now < expiresAt <= now + 3600000
      && -9007199254740991 <= expiresAt <= 9007199254740991
  {
    HexExactly(b.sessionId);
    HandleExactly(q.handle);
    ScopeExactly(b.scope);
    ScopeExactly(q.scope);
    BoundedExactly(b.purpose, 128);
    BoundedExactly(b.resourceKind, 128);
    BoundedExactly(b.resourceId, 256);
    BoundedExactly(q.purpose, 128);
    BoundedExactly(q.resourceKind, 128);
    hide Bounded, IsName, IsSessionId, IsHandle, ValidScope, ScopeNames, AreNames, IsHex, IsBase64Url;
  }

  lemma HexExactly(s: string)
    ensures IsSessionId(s) <==> |s| == 64 && forall c | c in s :: IsHex(c)
  {
    assert forall c | c in s :: exists i | 0 <= i < |s| :: s[i] == c;
    assert forall i | 0 <= i < |s| :: s[i] in s;
  }

  lemma HandleExactly(s: string)
    ensures IsHandle(s) <==> |s| == 43 && forall c | c in s :: IsBase64Url(c)
  {
    assert forall c | c in s :: exists i | 0 <= i < |s| :: s[i] == c;
    assert forall i | 0 <= i < |s| :: s[i] in s;
  }

  lemma ScopeExactly(s: Scope)
    ensures ValidScope(s) <==> AreNames(ScopeNames(s), 256)
  {
    hide Bounded, IsName;
    forall n: string ensures Bounded(n, 256) <==> IsName(n, 256) { BoundedExactly(n, 256); }
  }

  /** The live records, those of one session, and the sessions that have any. */
  function LiveHandles(r: Registry, now: int): set<string> {
    set h | h in r.records && r.records[h].expiresAt > now
  }

  function OwnHandles(r: Registry, sessionId: string, now: int): set<string> {
    set h | h in LiveHandles(r, now) && r.records[h].binding.sessionId == sessionId
  }

  function LiveSessions(r: Registry, now: int): set<string> {
    set h | h in LiveHandles(r, now) :: r.records[h].binding.sessionId
  }

  /** Whatever the registry holds: an accepted input of one session with one expiry gets the handle of its live
      binding, or a new one unless eight other sessions or 512 own handles are live. */
  lemma IssuedExactly(r: Registry, b: Binding, expiresAt: int, now: int, handle: string)
    requires Mutual(r) && handle !in r.records
    ensures var (u, o) := Issue(r, b, expiresAt, now, handle);
      var own := OwnHandles(r, b.sessionId, now);
      if !ValidClock(now) then u == r && o == Err(InvalidClock)
      else if !ValidIssue(b, expiresAt, now) then u == r && o == Err(InvalidInput)
      else
        && (forall h | h in LiveHandles(r, now) :: h in u.records && u.records[h] == r.records[h])
        && (forall h | h in u.records ::
              h in LiveHandles(r, now) || (h == handle && u.records[h] == Record(b, expiresAt)))
        && (handle in u.records <==> o == Ok(Issued(handle, expiresAt)))
        && if exists h | h in own :: r.records[h].expiresAt != expiresAt then o == Err(InvalidInput)
           else if exists h | h in own :: r.records[h].binding == b
           then exists h | h in own :: r.records[h].binding == b && o == Ok(Issued(h, expiresAt))
           else if (own == {} && |LiveSessions(r, now)| >= 8) || |own| >= 512 then o == Err(CapacityExceeded)
           else o == Ok(Issued(handle, expiresAt))
  {
    hide ValidIssue, ValidClock;
    SweptSets(r, b.sessionId, now);
    SweepMutual(r, now);
    SweepOnlyRemoves(r, now);
    var s := Sweep(r, now);
    NoDangling(s, b);
    forall h | h in LiveHandles(r, now) ensures h in s.records && s.records[h] == r.records[h] {
      SweepHolds(r, now, h, r.records[h]);
    }
    hide Sweep, OwnHandles, LiveSessions;
  }

  lemma SweptSets(r: Registry, sessionId: string, now: int)
    ensures var s := Sweep(r, now);
      && s.records.Keys == LiveHandles(r, now) && HandlesOf(s, sessionId) == OwnHandles(r, sessionId, now)
      && ActiveSessions(s) == LiveSessions(r, now)
  {
  }

  /** A query at an invalid time fails if it is well formed, and otherwise finds nothing. */
  lemma ResolutionFails(r: Registry, q: Query, now: int)
    ensures Resolve(r, q, now).1 == Err(InvalidClock) <==> ValidQuery(q) && !ValidClock(now)
    ensures !ValidQuery(q) ==> Resolve(r, q, now) == (r, Ok(None))
    ensures Resolve(r, q, now).1.Err? ==> Resolve(r, q, now) == (r, Err(InvalidClock))
  {
    hide ValidQuery, ValidClock, Sweep;
  }
}
