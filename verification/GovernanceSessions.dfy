// The session table of the governance server, over the handle registry it owns.
module GovernanceSessions {
  import opened Text
  import opened Sequences
  import opened HandleRegistry

  const MAX_SESSIONS := 8

  datatype Session = Session(csrfToken: string, expiresAt: int)

  datatype Server = Server(sessions: map<string, Session>, registry: Registry)

  predicate ValidTtl(ttl: int) {
    60000 <= ttl <= 3600000
  }

  /** A time the clock can show while a session started then still ends within the safe integers. */
  predicate ValidTime(now: int) {
    0 <= now <= MAX_SAFE_INTEGER - MAX_SESSION_TTL_MS
  }

  // ---------------------------------------------------------------- the server as a value

  function Remove(s: Server, id: string): Server {
    if id in s.sessions then Server(s.sessions - {id}, Revoke(s.registry, id)) else s
  }

  function Expired(sessions: map<string, Session>, now: int): set<string> {
    set id | id in sessions && sessions[id].expiresAt <= now
  }

  function NotOfAny(ids: set<string>): Record -> bool {
    (x: Record) => x.binding.sessionId !in ids
  }

  function RemoveAll(s: Server, ids: set<string>): Server {
    Server(s.sessions - ids, Retain(s.registry, NotOfAny(ids)))
  }

  function Prune(s: Server, now: int): Server {
    RemoveAll(s, Expired(s.sessions, now))
  }

  function RemovePrior(s: Server, prior: Option<string>): Server {
    if prior.Some? then Remove(s, prior.value) else s
  }

  /** `prior` is the session of the request's own cookie, `id` the digest of a new random value. */
  function Login(s: Server, prior: Option<string>, now: int, ttl: int, id: string, csrf: string): (Server, bool) {
    var t := RemovePrior(Prune(s, now), prior);
    if |t.sessions| >= MAX_SESSIONS then (t, false)
    else (t.(sessions := t.sessions[id := Session(csrf, now + ttl)]), true)
  }

  function Authenticate(s: Server, cookie: Option<string>, now: int): (Server, Option<Session>) {
    var t := Prune(s, now);
    (t, if cookie.Some? && cookie.value in t.sessions then Some(t.sessions[cookie.value]) else None)
  }

  datatype Names = Names(purpose: string, resourceKind: string, resourceId: string, scope: Scope)

  function BindingFor(id: string, n: Names): Binding {
    Binding(id, n.purpose, n.resourceKind, n.resourceId, n.scope)
  }

  datatype IssueOutcome = Unauthorized | Outcome(result: Result<Issued, RegistryError>)

  /** A request whose handler asks for one handle for its own session. */
  function IssueRequest(s: Server, cookie: Option<string>, n: Names, now: int, handle: string): (Server, IssueOutcome) {
    var (t, session) := Authenticate(s, cookie, now);
    if session.None? then (t, Unauthorized)
    else
      var (r, issued) := Issue(t.registry, BindingFor(cookie.value, n), session.value.expiresAt, now, handle);
      (t.(registry := r), Outcome(issued))
  }

  function ResolveRequest(s: Server, cookie: Option<string>, q: Query, now: int)
    : (Server, Result<Option<Resource>, RegistryError>)
  {
    var (t, session) := Authenticate(s, cookie, now);
    if session.None? then (t, Ok(None))
    else
      var (r, resolved) := Resolve(t.registry, q.(sessionId := cookie.value), now);
      (t.(registry := r), resolved)
  }

  function Logout(s: Server, cookie: Option<string>, now: int): Server {
    var (t, session) := Authenticate(s, cookie, now);
    if session.None? then t else Remove(t, cookie.value)
  }

  const CLOSED := Server(map[], EMPTY)

  // ---------------------------------------------------------------- the server as an object

  class GovernanceHttpServer {
    const resourceHandles: GovernanceResourceHandleRegistry
    const sessionTtlMs: int
    var sessions: map<string, Session>

    predicate Valid()
      reads this, resourceHandles
    {
      Mutual(resourceHandles.State()) && forall id | id in sessions :: IsSessionId(id)
    }

    function State(): Server
      reads this, resourceHandles
    {
      Server(sessions, resourceHandles.State())
    }

    constructor (registry: GovernanceResourceHandleRegistry, ttl: int)
      requires registry.State() == EMPTY
      ensures resourceHandles == registry && sessionTtlMs == ttl && Valid() && State() == CLOSED
    {
      resourceHandles, sessionTtlMs, sessions := registry, ttl, map[];
    }

    method RemoveSession(id: string)
      requires Valid()
      modifies this, resourceHandles
      ensures Valid() && State() == Remove(old(State()), id)
    {
      if id in sessions {
        sessions := sessions - {id};
        resourceHandles.RevokeSession(id);
      }
    }

    method PruneExpiredSessions(now: int)
      requires Valid()
      modifies this, resourceHandles
      ensures Valid() && State() == Prune(old(State()), now)
    {
      hide Mutual, IsSessionId, RemoveAll, Remove, Prune, Expired;
      ghost var before, expired := State(), Expired(sessions, now);
      var pending := sessions.Keys;
      PruneStarts(before, now);
      while pending != {}
        invariant Valid()
        invariant pending <= before.sessions.Keys && sessions == before.sessions - (expired - pending)
        invariant State() == RemoveAll(before, expired - pending)
        decreases |pending|
      {
        var id :| id in pending;
        PruneStep(before, now, pending, id, State());
        pending := pending - {id};
        if sessions[id].expiresAt <= now { RemoveSession(id); }
      }
      assert expired - {} == expired;
      PruneEnds(before, now);
    }

    method HandleLogin(prior: Option<string>, now: int, id: string, csrf: string) returns (created: bool)
      requires Valid() && IsSessionId(id)
      modifies this, resourceHandles
      ensures Valid() && (State(), created) == Login(old(State()), prior, now, sessionTtlMs, id, csrf)
    {
      hide Prune, Remove;
      PruneExpiredSessions(now);
      if prior.Some? { RemoveSession(prior.value); }
      if |sessions| >= MAX_SESSIONS { return false; }
      sessions := sessions[id := Session(csrf, now + sessionTtlMs)];
      return true;
    }

    method AuthenticateRequest(cookie: Option<string>, now: int) returns (session: Option<Session>)
      requires Valid()
      modifies this, resourceHandles
      ensures Valid() && (State(), session) == Authenticate(old(State()), cookie, now)
    {
      hide Prune;
      PruneExpiredSessions(now);
      return if cookie.Some? && cookie.value in sessions then Some(sessions[cookie.value]) else None;
    }

    method HandleIssue(cookie: Option<string>, n: Names, now: int, handle: string) returns (r: IssueOutcome)
      requires Valid() && handle !in resourceHandles.recordsByHandle
      modifies this, resourceHandles
      ensures Valid() && (State(), r) == IssueRequest(old(State()), cookie, n, now, handle)
    {
      hide Issue;
      var session := AuthenticateRequest(cookie, now);
      if session.None? { return Unauthorized; }
      assert handle !in resourceHandles.recordsByHandle by { PruneOnlyRemoves(old(State()), now); }
      var issued := resourceHandles.IssueHandle(BindingFor(cookie.value, n), session.value.expiresAt, now, handle);
      return Outcome(issued);
    }

    method HandleResolve(cookie: Option<string>, q: Query, now: int) returns (r: Result<Option<Resource>, RegistryError>)
      requires Valid()
      modifies this, resourceHandles
      ensures Valid() && (State(), r) == ResolveRequest(old(State()), cookie, q, now)
    {
      hide Resolve;
      var session := AuthenticateRequest(cookie, now);
      if session.None? { return Ok(None); }
      r := resourceHandles.ResolveHandle(q.(sessionId := cookie.value), now);
    }

    method HandleLogout(cookie: Option<string>, now: int)
      requires Valid()
      modifies this, resourceHandles
      ensures Valid() && State() == Logout(old(State()), cookie, now)
    {
      hide Remove;
      var session := AuthenticateRequest(cookie, now);
      if session.Some? { RemoveSession(cookie.value); }
    }

    method Close()
      modifies this, resourceHandles
      ensures Valid() && State() == CLOSED
    {
      sessions := map[];
      resourceHandles.Clear();
    }
  }

  lemma PruneStarts(s: Server, now: int)
    requires Mutual(s.registry)
    ensures RemoveAll(s, Expired(s.sessions, now) - s.sessions.Keys) == s
    ensures s.sessions - (Expired(s.sessions, now) - s.sessions.Keys) == s.sessions
  {
    assert Expired(s.sessions, now) - s.sessions.Keys == {};
    RemoveNone(s);
  }

  lemma PruneEnds(s: Server, now: int)
    ensures RemoveAll(s, Expired(s.sessions, now)) == Prune(s, now)
  {
  }

  /** One turn of the loop: the next session goes when it has expired. */
  lemma PruneStep(s: Server, now: int, pending: set<string>, id: string, t: Server)
    requires id in pending && pending <= s.sessions.Keys && IsSessionId(id)
    requires t == RemoveAll(s, Expired(s.sessions, now) - pending)
    ensures id in t.sessions && t.sessions[id] == s.sessions[id]
    ensures var u := if t.sessions[id].expiresAt <= now then Remove(t, id) else t;
      var gone := Expired(s.sessions, now) - (pending - {id});
      u == RemoveAll(s, gone) && u.sessions == s.sessions - gone
  {
    hide IsSessionId, Retain, Revoke;
    var gone := Expired(s.sessions, now) - pending;
    if s.sessions[id].expiresAt <= now {
      RemoveOneMore(s, gone, id);
      assert gone + {id} == Expired(s.sessions, now) - (pending - {id});
    } else {
      assert gone == Expired(s.sessions, now) - (pending - {id});
    }
  }

  lemma RemoveNone(s: Server)
    requires Mutual(s.registry)
    ensures RemoveAll(s, {}) == s
  {
    assert s.sessions - {} == s.sessions;
    assert Retain(s.registry, NotOfAny({})).records == s.registry.records;
    assert Retain(s.registry, NotOfAny({})).handles == s.registry.handles;
  }

  lemma RetainTwice(r: Registry, gone: set<string>, id: string)
    ensures Retain(Retain(r, NotOfAny(gone)), NotOf(id)) == Retain(r, NotOfAny(gone + {id}))
  {
    RetainBoth(r, NotOfAny(gone), NotOf(id), NotOfAny(gone + {id}));
  }

  lemma RetainBoth(r: Registry, k: Record -> bool, l: Record -> bool, both: Record -> bool)
    requires forall x :: both(x) <==> k(x) && l(x)
    ensures Retain(Retain(r, k), l) == Retain(r, both)
  {
    var a, b := Retain(Retain(r, k), l), Retain(r, both);
    assert a.records == b.records;
    assert a.handles == b.handles;
  }

  /** Removing one session more. */
  lemma RemoveOneMore(s: Server, gone: set<string>, id: string)
    requires id in s.sessions && id !in gone && IsSessionId(id)
    ensures Remove(RemoveAll(s, gone), id) == RemoveAll(s, gone + {id})
  {
    hide Retain, IsSessionId;
    RetainTwice(s.registry, gone, id);
    assert s.sessions - gone - {id} == s.sessions - (gone + {id});
  }

  lemma PruneOnlyRemoves(s: Server, now: int)
    ensures var r := Prune(s, now).registry;
      forall h | h in r.records :: h in s.registry.records && r.records[h] == s.registry.records[h]
  {
  }

  // ---------------------------------------------------------------- runs

  datatype Request =
    | LoginRequest(prior: Option<string>, now: int, id: string, csrf: string)
    | IssueFor(cookie: Option<string>, names: Names, now: int, handle: string)
    | ResolveFor(cookie: Option<string>, query: Query, now: int)
    | LogoutRequest(cookie: Option<string>, now: int)
    | CloseServer(now: int)

  function Next(s: Server, ttl: int, q: Request): Server {
    match q
    case LoginRequest(prior, now, id, csrf) => Login(s, prior, now, ttl, id, csrf).0
    case IssueFor(cookie, names, now, handle) => IssueRequest(s, cookie, names, now, handle).0
    case ResolveFor(cookie, query, now) => ResolveRequest(s, cookie, query, now).0
    case LogoutRequest(cookie, now) => Logout(s, cookie, now)
    case CloseServer(_) => CLOSED
  }

  function Run(requests: seq<Request>, ttl: int): Server {
    if requests == [] then CLOSED else Next(Run(requests[..|requests| - 1], ttl), ttl, requests[|requests| - 1])
  }

  /** Random values are new where they are drawn. */
  predicate FreshFor(s: Server, q: Request) {
    match q
    case LoginRequest(_, _, id, _) => IsSessionId(id) && id !in s.sessions
    case IssueFor(_, _, _, handle) => handle !in s.registry.records
    case _ => true
  }

  /** Each request draws new random values; its clock may show anything. */
  predicate FreshDraws(requests: seq<Request>, ttl: int) {
    forall i | 0 <= i < |requests| :: FreshFor(Run(requests[..i], ttl), requests[i])
  }

  /** Every record belongs to a live session and expires with it. */
  predicate Backed(s: Server) {
    forall h | h in s.registry.records ::
      var x := s.registry.records[h];
      x.binding.sessionId in s.sessions && s.sessions[x.binding.sessionId].expiresAt == x.expiresAt
  }

  /** What every run keeps. */
  predicate Consistent(s: Server) {
    && Mutual(s.registry)
    && |s.sessions| <= MAX_SESSIONS
    && (forall id | id in s.sessions :: IsSessionId(id))
    && Backed(s)
  }

  lemma FewerSessions(a: map<string, Session>, b: map<string, Session>)
    requires a.Keys <= b.Keys
    ensures |a| <= |b|
  {
    SubsetSize(a.Keys, b.Keys);
  }

  lemma PruneConsistent(s: Server, now: int)
    requires Consistent(s)
    ensures Consistent(Prune(s, now))
    ensures forall id | id in Prune(s, now).sessions ::
      id in s.sessions && s.sessions[id] == Prune(s, now).sessions[id] && s.sessions[id].expiresAt > now
  {
    hide Mutual, IsSessionId;
    RetainMutual(s.registry, NotOfAny(Expired(s.sessions, now)));
    FewerSessions(Prune(s, now).sessions, s.sessions);
  }

  lemma RemoveConsistent(s: Server, id: string)
    requires Consistent(s)
    ensures Consistent(Remove(s, id))
    ensures forall x | x in Remove(s, id).sessions :: x in s.sessions && Remove(s, id).sessions[x] == s.sessions[x]
  {
    if id in s.sessions {
      assert IsSessionId(id);
      hide Mutual, IsSessionId;
      RetainMutual(s.registry, NotOf(id));
      FewerSessions(Remove(s, id).sessions, s.sessions);
    }
  }

  lemma LoginConsistent(s: Server, prior: Option<string>, id: string, x: Session)
    requires Consistent(s) && IsSessionId(id) && id !in s.sessions
    ensures var t := RemovePrior(s, prior);
      |t.sessions| < MAX_SESSIONS ==> Consistent(t.(sessions := t.sessions[id := x]))
  {
    hide IsSessionId, Mutual, Remove, Consistent;
    if prior.Some? { RemoveConsistent(s, prior.value); }
    var t := RemovePrior(s, prior);
    if |t.sessions| < MAX_SESSIONS { StartConsistent(t, id, x); }
  }

  lemma StartConsistent(s: Server, id: string, x: Session)
    requires Consistent(s) && IsSessionId(id) && id !in s.sessions && |s.sessions| < MAX_SESSIONS
    ensures Consistent(s.(sessions := s.sessions[id := x]))
  {
    hide IsSessionId, Mutual;
  }

  lemma IssueConsistent(s: Server, id: string, n: Names, now: int, handle: string)
    requires Consistent(s) && id in s.sessions && handle !in s.registry.records
    ensures Consistent(s.(registry := Issue(s.registry, BindingFor(id, n), s.sessions[id].expiresAt, now, handle).0))
  {
    var step := IssueStep(BindingFor(id, n), s.sessions[id].expiresAt, now, handle);
    NextMutual(s.registry, step);
    hide Mutual, Issue, IsSessionId;
    IssueOnlyAdds(s.registry, BindingFor(id, n), s.sessions[id].expiresAt, now, handle);
  }

  lemma IssueOnlyAdds(r: Registry, b: Binding, expiresAt: int, now: int, handle: string)
    ensures var u := Issue(r, b, expiresAt, now, handle).0;
      forall h | h in u.records ::
        (h in r.records && u.records[h] == r.records[h]) || u.records[h] == Record(b, expiresAt)
  {
    hide ValidIssue, ValidClock, Sweep;
    SweepOnlyRemoves(r, now);
  }

  lemma ResolveOnlyRemoves(r: Registry, q: Query, now: int)
    ensures var u := Resolve(r, q, now).0; forall h | h in u.records :: h in r.records && u.records[h] == r.records[h]
  {
    hide ValidQuery, ValidClock, Sweep;
    SweepOnlyRemoves(r, now);
  }

  lemma ResolveConsistent(s: Server, q: Query, now: int)
    requires Consistent(s)
    ensures Consistent(s.(registry := Resolve(s.registry, q, now).0))
  {
    HandleRegistry.NextMutual(s.registry, ResolveStep(q, now));
    hide Mutual, Resolve, IsSessionId;
    ResolveOnlyRemoves(s.registry, q, now);
  }

  lemma ClosedConsistent()
    ensures Consistent(CLOSED)
  {
  }

  lemma NextConsistent(s: Server, ttl: int, q: Request)
    requires Consistent(s) && FreshFor(s, q)
    ensures Consistent(Next(s, ttl, q))
  {
    hide Consistent, Mutual, IsSessionId, Issue, Resolve, Remove, Prune;
    PruneConsistent(s, q.now);
    var t := Prune(s, q.now);
    match q {
      case LoginRequest(prior, now, id, csrf) =>
        if prior.Some? { RemoveConsistent(t, prior.value); }
        LoginConsistent(t, prior, id, Session(csrf, now + ttl));
      case IssueFor(cookie, n, now, handle) =>
        PruneOnlyRemoves(s, now);
        if cookie.Some? && cookie.value in t.sessions { IssueConsistent(t, cookie.value, n, now, handle); }
      case ResolveFor(cookie, query, now) =>
        if cookie.Some? && cookie.value in t.sessions { ResolveConsistent(t, query.(sessionId := cookie.value), now); }
      case LogoutRequest(cookie, now) => if cookie.Some? { RemoveConsistent(t, cookie.value); }
      case CloseServer(_) => ClosedConsistent();
    }
  }

  /** In every run, whatever its clock shows, each registry record belongs to a live session and expires with it,
      and there are at most eight sessions. */
  lemma {:induction false} RunConsistent(requests: seq<Request>, ttl: int)
    requires FreshDraws(requests, ttl)
    ensures Consistent(Run(requests, ttl))
  {
    hide Consistent, Next, FreshFor;
    if requests == [] {
      ClosedConsistent();
      assert Run(requests, ttl) == CLOSED;
    } else {
      var n := |requests| - 1;
      assert forall i | 0 <= i < n :: requests[..n][..i] == requests[..i] && requests[..n][i] == requests[i];
      RunConsistent(requests[..n], ttl);
      NextConsistent(Run(requests[..n], ttl), ttl, requests[n]);
    }
  }

  // ---------------------------------------------------------------- what issuing answers

  /** The registry takes the session to end too late, seen from `now`. */
  predicate EndsTooLate(x: Session, now: int) {
    x.expiresAt > now + MAX_SESSION_TTL_MS || x.expiresAt > MAX_SAFE_INTEGER
  }

  /** The outcome of a request of the authenticated session of a consistent server, at any time: apart from the
      clock and the names, `issue` fails when the session seems to end too late and on the limit of 512 handles,
      never on the number of sessions or a mismatch of expiry. */
  lemma IssueOutcomeExactly(s: Server, cookie: Option<string>, n: Names, now: int, handle: string)
    requires Consistent(s) && Authenticate(s, cookie, now).1.Some?
    ensures var t := Prune(s, now);
      var b, x := BindingFor(cookie.value, n), t.sessions[cookie.value];
      IssueRequest(s, cookie, n, now, handle).1 ==
        if !ValidClock(now) then Outcome(Err(InvalidClock))
        else if EndsTooLate(x, now) || !ValidNames(b) then Outcome(Err(InvalidInput))
        else if b in t.registry.handles then Outcome(Ok(Issued(t.registry.handles[b], x.expiresAt)))
        else if |HandlesOf(t.registry, cookie.value)| >= MAX_HANDLES_PER_SESSION then Outcome(Err(CapacityExceeded))
        else Outcome(Ok(Issued(handle, x.expiresAt)))
  {
    hide Mutual, IsSessionId, ValidNames, Prune;
    PruneConsistent(s, now);
    var t := Prune(s, now);
    var id := cookie.value;
    assert IsSessionId(id) && t.sessions[id].expiresAt > now;
    NothingToSweep(t, now);
    OwnExpiry(t, id);
    if HandlesOf(t.registry, id) == {} { RoomForSession(t, id); }
    NoDangling(t.registry, BindingFor(id, n));
  }

  /** The request at place `i` is a login that started the session with the expiry it has. */
  predicate StartedBy(requests: seq<Request>, i: nat, ttl: int, id: string, x: Session)
    requires i < |requests|
  {
    requests[i].LoginRequest? && requests[i].id == id && x.expiresAt == requests[i].now + ttl
  }

  /** A step starts the session of its own login only; other sessions stay as they are or go. */
  lemma NextStarts(s: Server, ttl: int, q: Request, id: string)
    ensures id in Next(s, ttl, q).sessions ==>
      || (id in s.sessions && s.sessions[id] == Next(s, ttl, q).sessions[id])
      || (q.LoginRequest? && q.id == id && Next(s, ttl, q).sessions[id].expiresAt == q.now + ttl)
  {
    hide Issue, Resolve, Prune, Remove;
    PruneKeeps(s, q.now, id);
    var t := Prune(s, q.now);
    match q {
      case LoginRequest(prior, _, _, _) => if prior.Some? { RemoveKeeps(t, prior.value, id); }
      case LogoutRequest(cookie, _) => if cookie.Some? { RemoveKeeps(t, cookie.value, id); }
      case _ =>
    }
  }

  lemma PruneKeeps(s: Server, now: int, id: string)
    ensures id in Prune(s, now).sessions ==> id in s.sessions && s.sessions[id] == Prune(s, now).sessions[id]
  {
    hide Retain;
  }

  lemma RemoveKeeps(s: Server, other: string, id: string)
    ensures id in Remove(s, other).sessions ==> id in s.sessions && s.sessions[id] == Remove(s, other).sessions[id]
  {
    hide Revoke;
  }

  /** Every session of a run goes back to a login of the run. */
  lemma {:induction false} SessionFromLogin(requests: seq<Request>, ttl: int, id: string) returns (i: nat)
    requires id in Run(requests, ttl).sessions
    ensures i < |requests| && StartedBy(requests, i, ttl, id, Run(requests, ttl).sessions[id])
  {
    hide Next;
    var n := |requests| - 1;
    var s := Run(requests[..n], ttl);
    NextStarts(s, ttl, requests[n], id);
    if id in s.sessions && s.sessions[id] == Run(requests, ttl).sessions[id] {
      i := SessionFromLogin(requests[..n], ttl, id);
    } else {
      i := n;
    }
  }

  lemma AuthenticatedIsStored(s: Server, cookie: Option<string>, now: int)
    requires Authenticate(s, cookie, now).1.Some?
    ensures cookie.value in s.sessions && Prune(s, now).sessions[cookie.value] == s.sessions[cookie.value]
  {
  }

  /** In every run an authenticated request with well-formed names, at a time that is not negative or beyond the
      safe integers, is refused for its input exactly when the clock has stepped back since the session's login by
      more than the configured lifetime is below the registry's, or the session ends beyond the safe integers. */
  lemma LifetimeFailsExactly(
    requests: seq<Request>, ttl: int, cookie: Option<string>, n: Names, now: int, handle: string) returns (i: nat)
    requires FreshDraws(requests, ttl) && Authenticate(Run(requests, ttl), cookie, now).1.Some?
    requires ValidNames(BindingFor(cookie.value, n)) && ValidClock(now)
    ensures i < |requests| && StartedBy(requests, i, ttl, cookie.value, Run(requests, ttl).sessions[cookie.value])
    ensures IssueRequest(Run(requests, ttl), cookie, n, now, handle).1 == Outcome(Err(InvalidInput)) <==>
      requests[i].now - now > MAX_SESSION_TTL_MS - ttl || requests[i].now + ttl > MAX_SAFE_INTEGER
  {
    var s := Run(requests, ttl);
    RunConsistent(requests, ttl);
    AuthenticatedIsStored(s, cookie, now);
    i := SessionFromLogin(requests, ttl, cookie.value);
    IssueOutcomeExactly(s, cookie, n, now, handle);
    hide IssueRequest, Run, Prune, Authenticate;
  }

  /** With a lifetime the options allow, and no earlier request that read a later time, only the limit of 512
      handles is left: it is the one reason for `issue` to fail. */
  lemma OnlyTheHandleLimitInRuns(
    requests: seq<Request>, ttl: int, cookie: Option<string>, n: Names, now: int, handle: string)
    requires FreshDraws(requests, ttl) && ValidTtl(ttl) && ValidTime(now)
    requires forall i | 0 <= i < |requests| :: requests[i].now <= now
    requires Authenticate(Run(requests, ttl), cookie, now).1.Some? && ValidNames(BindingFor(cookie.value, n))
    ensures var t := Prune(Run(requests, ttl), now);
      IssueRequest(Run(requests, ttl), cookie, n, now, handle).1 == Outcome(Err(CapacityExceeded)) <==>
        |HandlesOf(t.registry, cookie.value)| >= MAX_HANDLES_PER_SESSION
        && BindingFor(cookie.value, n) !in t.registry.handles
    ensures forall e | IssueRequest(Run(requests, ttl), cookie, n, now, handle).1 == Outcome(Err(e)) ::
      e == CapacityExceeded
  {
    var s := Run(requests, ttl);
    RunConsistent(requests, ttl);
    AuthenticatedIsStored(s, cookie, now);
    var i := SessionFromLogin(requests, ttl, cookie.value);
    IssueOutcomeExactly(s, cookie, n, now, handle);
    hide IssueRequest, Run, Prune, Authenticate;
  }

  // ---------------------------------------------------------------- when the clock steps back

  const LONGEST_TTL := 3600000

  function OneId(): string {
    seq(64, _ => 'a')
  }

  function OneResource(): Names {
    Names("p", "k", "r", Global)
  }

  /** One login; the clock steps back a millisecond before the session asks for its first handle. */
  function OneLogin(): seq<Request> {
    [LoginRequest(None, 1000, OneId(), "")]
  }

  lemma OneResourceIsValid()
    ensures ValidNames(BindingFor(OneId(), OneResource()))
  {
    assert TrimStart("p") == "p" && TrimStart("k") == "k" && TrimStart("r") == "r";
    assert TrimEnd("p") == "p" && TrimEnd("k") == "k" && TrimEnd("r") == "r";
  }

  lemma AfterOneLogin()
    ensures FreshDraws(OneLogin(), LONGEST_TTL)
    ensures Run(OneLogin(), LONGEST_TTL).sessions == map[OneId() := Session("", 3601000)]
  {
    assert OneLogin()[..0] == [] && Run([], LONGEST_TTL) == CLOSED;
    assert Prune(CLOSED, 1000).sessions == map[];
    assert Run(OneLogin(), LONGEST_TTL) == Next(CLOSED, LONGEST_TTL, OneLogin()[0]);
  }

  /** An authenticated request with well-formed names is refused although the session has no handle yet. */
  lemma ClockStepsBack(handle: string)
    ensures var s := Run(OneLogin(), LONGEST_TTL);
      && ValidTtl(LONGEST_TTL) && FreshDraws(OneLogin(), LONGEST_TTL)
      && Authenticate(s, Some(OneId()), 999).1.Some? && ValidNames(BindingFor(OneId(), OneResource()))
      && IssueRequest(s, Some(OneId()), OneResource(), 999, handle).1 == Outcome(Err(InvalidInput))
  {
    AfterOneLogin();
    OneResourceIsValid();
    var s := Run(OneLogin(), LONGEST_TTL);
    hide OneLogin, OneId, OneResource, ValidNames, Run;
    assert OneId() in Prune(s, 999).sessions && Prune(s, 999).sessions[OneId()].expiresAt == 3601000;
    hide Prune;
    RunConsistent(OneLogin(), LONGEST_TTL);
    IssueOutcomeExactly(s, Some(OneId()), OneResource(), 999, handle);
  }

  lemma NothingToSweep(s: Server, now: int)
    requires Mutual(s.registry) && Backed(s) && forall id | id in s.sessions :: s.sessions[id].expiresAt > now
    ensures Sweep(s.registry, now) == s.registry
  {
    SweepMutual(s.registry, now);
    assert Sweep(s.registry, now).records == s.registry.records;
    MutualDetermines(Sweep(s.registry, now), s.registry);
  }

  lemma OwnExpiry(s: Server, id: string)
    requires Backed(s) && id in s.sessions && Mutual(s.registry)
    ensures forall h | h in HandlesOf(s.registry, id) :: s.registry.records[h].expiresAt == s.sessions[id].expiresAt
    ensures forall b | b in s.registry.handles && b.sessionId == id ::
      s.registry.handles[b] in s.registry.records
      && s.registry.records[s.registry.handles[b]].expiresAt == s.sessions[id].expiresAt
  {
  }

  /** The session table keeps a place for a session that has no handle yet. */
  lemma RoomForSession(s: Server, id: string)
    requires Backed(s) && id in s.sessions && |s.sessions| <= MAX_SESSIONS && HandlesOf(s.registry, id) == {}
    ensures |ActiveSessions(s.registry)| < MAX_ACTIVE_SESSIONS
  {
    var active := ActiveSessions(s.registry);
    forall h | h in s.registry.records ensures s.registry.records[h].binding.sessionId != id {
      assert h !in HandlesOf(s.registry, id);
    }
    SubsetSize(active + {id}, s.sessions.Keys);
  }

  // ---------------------------------------------------------------- who is let in

  /** The cookie names a session that has not expired. */
  predicate Live(s: Server, cookie: Option<string>, now: int) {
    cookie.Some? && cookie.value in s.sessions && s.sessions[cookie.value].expiresAt > now
  }

  /** What is left of the sessions at a request: those that have not expired, but for `gone`. */
  predicate KeepsLive(s: Server, u: Server, now: int, gone: Option<string>) {
    && (forall id | id in u.sessions :: id in s.sessions && u.sessions[id] == s.sessions[id])
    && (forall id | id in s.sessions :: id in u.sessions <==> s.sessions[id].expiresAt > now && Some(id) != gone)
    && (forall h | h in u.registry.records :: h in s.registry.records && u.registry.records[h] == s.registry.records[h])
    && (forall h | h in s.registry.records ::
          h in u.registry.records <==>
            var x := s.registry.records[h].binding.sessionId;
            x in s.sessions ==> s.sessions[x].expiresAt > now && Some(x) != gone)
  }

  /** A request is let in exactly when its cookie names a session that has not expired. */
  lemma AuthenticatedExactly(s: Server, cookie: Option<string>, now: int)
    ensures var (u, session) := Authenticate(s, cookie, now);
      && session == (if Live(s, cookie, now) then Some(s.sessions[cookie.value]) else None)
      && KeepsLive(s, u, now, None)
  {
  }

  lemma RemovedIsGone(s: Server, now: int, id: string)
    requires forall x | x in s.sessions :: IsSessionId(x)
    ensures KeepsLive(s, Remove(Prune(s, now), id), now, Some(id))
  {
    hide IsSessionId;
    if id in Prune(s, now).sessions { assert IsSessionId(id); }
  }

  /** A logout ends the session of the request's own cookie, with its handles, and no other. */
  lemma LogoutEndsOwn(s: Server, cookie: Option<string>, now: int)
    requires forall x | x in s.sessions :: IsSessionId(x)
    ensures KeepsLive(s, Logout(s, cookie, now), now, cookie)
  {
    hide IsSessionId, KeepsLive, Remove, Prune;
    AuthenticatedExactly(s, cookie, now);
    if Live(s, cookie, now) { RemovedIsGone(s, now, cookie.value); } else { NothingGone(s, cookie, now); }
  }

  lemma NothingGone(s: Server, cookie: Option<string>, now: int)
    requires !Live(s, cookie, now)
    ensures KeepsLive(s, Prune(s, now), now, cookie)
  {
  }

  /** The sessions that a login meets: those that have not expired, but for the prior one. */
  function Others(s: Server, prior: Option<string>, now: int): set<string> {
    set id | id in s.sessions && s.sessions[id].expiresAt > now && Some(id) != prior
  }

  /** A login ends the prior session of its cookie and starts a new one, which ends a lifetime later, exactly when
      fewer than eight others are live. */
  lemma LoginStartsExactly(s: Server, prior: Option<string>, now: int, ttl: int, id: string, csrf: string)
    requires (forall x | x in s.sessions :: IsSessionId(x)) && id !in s.sessions
    ensures var (u, created) := Login(s, prior, now, ttl, id, csrf);
      && (created <==> |Others(s, prior, now)| < 8)
      && u.sessions.Keys == Others(s, prior, now) + (if created then {id} else {})
      && (created ==> u.sessions[id] == Session(csrf, now + ttl))
      && KeepsLive(s, u.(sessions := u.sessions - {id}), now, prior)
  {
    hide IsSessionId, KeepsLive, Remove, Prune;
    PriorIsGone(s, prior, now);
    hide RemovePrior;
    var t := RemovePrior(Prune(s, now), prior);
    KeptKeys(s, t, now, prior);
    hide Others;
    SizeOfKeys(t.sessions);
    var u := Login(s, prior, now, ttl, id, csrf).0;
    assert u.sessions - {id} == t.sessions by { DropNew(t.sessions, id, Session(csrf, now + ttl)); }
    assert u.(sessions := u.sessions - {id}) == t;
  }

  lemma PriorIsGone(s: Server, prior: Option<string>, now: int)
    requires forall x | x in s.sessions :: IsSessionId(x)
    ensures KeepsLive(s, RemovePrior(Prune(s, now), prior), now, prior)
  {
    hide IsSessionId, KeepsLive, Remove, Prune;
    if prior.Some? { RemovedIsGone(s, now, prior.value); } else { AuthenticatedExactly(s, None, now); }
  }

  lemma SizeOfKeys(sessions: map<string, Session>)
    ensures |sessions| == |sessions.Keys|
  {
  }

  lemma DropNew(sessions: map<string, Session>, id: string, x: Session)
    requires id !in sessions
    ensures sessions - {id} == sessions && sessions[id := x] - {id} == sessions
  {
  }

  lemma KeptKeys(s: Server, t: Server, now: int, gone: Option<string>)
    requires KeepsLive(s, t, now, gone)
    ensures t.sessions.Keys == Others(s, gone, now) && t.sessions.Keys <= s.sessions.Keys
  {
  }

  /** Whoever is let in resolves the handles of its own session only: exactly those that a live record of that
      session holds for the queried purpose, kind and scope. Others resolve nothing. */
  lemma ResolvesOwnExactly(s: Server, cookie: Option<string>, q: Query, now: int, resource: Resource)
    requires Consistent(s)
    ensures ResolveRequest(s, cookie, q, now).1 == Ok(Some(resource)) <==>
      && Live(s, cookie, now) && ValidQuery(q.(sessionId := cookie.value)) && ValidClock(now)
      && q.handle in s.registry.records
      && s.registry.records[q.handle].binding ==
           Binding(cookie.value, q.purpose, q.resourceKind, resource.resourceId, q.scope)
      && resource.kind == q.resourceKind
    ensures !Live(s, cookie, now) ==> ResolveRequest(s, cookie, q, now).1 == Ok(None)
  {
    hide IsSessionId, Mutual, ValidQuery, Prune;
    AuthenticatedExactly(s, cookie, now);
    PruneConsistent(s, now);
    var t := Prune(s, now);
    if Live(s, cookie, now) {
      NothingToSweep(t, now);
    }
  }

  /** Nobody draws the name of the session again. */
  predicate NotDrawn(requests: seq<Request>, id: string) {
    forall i | 0 <= i < |requests| && requests[i].LoginRequest? :: requests[i].id != id
  }

  lemma {:induction false} GoneStaysGone(requests: seq<Request>, more: seq<Request>, ttl: int, id: string)
    requires id !in Run(requests, ttl).sessions && NotDrawn(more, id)
    ensures id !in Run(requests + more, ttl).sessions
    decreases |more|
  {
    hide Next;
    if more == [] {
      assert requests + more == requests;
    } else {
      var n := |more| - 1;
      GoneStaysGone(requests, more[..n], ttl, id);
      var all := requests + more;
      assert all[..|all| - 1] == requests + more[..n] && all[|all| - 1] == more[n];
      NextStarts(Run(requests + more[..n], ttl), ttl, more[n], id);
    }
  }

  /** A cookie that has logged out, or was replaced by a login, is never let in again. */
  lemma LoggedOutStaysOut(requests: seq<Request>, q: Request, more: seq<Request>, ttl: int, id: string, later: int)
    requires FreshDraws(requests + [q], ttl) && NotDrawn(more, id)
    requires (q.LogoutRequest? && q.cookie == Some(id)) || (q.LoginRequest? && q.prior == Some(id) && q.id != id)
    ensures Authenticate(Run(requests + [q] + more, ttl), Some(id), later).1 == None
  {
    var n := |requests|;
    assert (requests + [q])[..n] == requests && (requests + [q])[n] == q;
    assert forall i | 0 <= i < n :: (requests + [q])[..i] == requests[..i] && (requests + [q])[i] == requests[i];
    RunConsistent(requests, ttl);
    var s := Run(requests, ttl);
    assert Run(requests + [q], ttl) == Next(s, ttl, q);
    assert FreshFor(s, q);
    hide IsSessionId, FreshDraws, Run, Mutual, Remove, Prune;
    if q.LogoutRequest? {
      LogoutEndsOwn(s, q.cookie, q.now);
    } else {
      LoginStartsExactly(s, q.prior, q.now, ttl, q.id, q.csrf);
    }
    GoneStaysGone(requests + [q], more, ttl, id);
    AuthenticatedExactly(Run(requests + [q] + more, ttl), Some(id), later);
  }
}
