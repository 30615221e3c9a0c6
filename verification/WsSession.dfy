// The reconnecting WebSocket session: one socket at a time, and requests waiting for their echo.
module WsSession {
  import opened Text
  import opened Sequences

  datatype Outcome = Answered | Closed | TimedOut | SendFailed

  /** How a waiting request ended. */
  datatype Settlement = Settlement(echo: string, outcome: Outcome)

  /** What the socket factory does: it throws, throws after handing out the socket, or succeeds. */
  datatype Opening = Fails | FailsLate | Opens

  datatype Packet = Unreadable | Inbound | Response(echo: string) | Other

  datatype Session = Session(
    ready: bool,
    manuallyClosed: bool,
    socket: Option<nat>,
    sockets: nat,
    wsConnected: bool,
    reconnectTimer: bool,
    pending: seq<string>,
    settled: seq<Settlement>)

  datatype Event =
    | Start(opening: Opening)
    | Stop
    | OpenEvent(socket: nat)
    | MessageEvent(socket: nat, packet: Packet)
    | ErrorEvent(socket: nat)
    | CloseEvent(socket: nat)
    | ReconnectDue(opening: Opening)
    | RequestTimeout(echo: string)
    | Call(echo: string, sends: bool)

  const NEW := Session(false, false, None, 0, false, false, [], [])

  // ---------------------------------------------------------------- the session as a value

  function ScheduleReconnect(s: Session): Session {
    if s.manuallyClosed then s else s.(reconnectTimer := true)
  }

  function OpenSocket(s: Session, o: Opening): Session {
    if !s.ready || s.socket.Some? then s
    else
      match o
      case Fails => ScheduleReconnect(s)
      case FailsLate => ScheduleReconnect(s.(socket := Some(s.sockets), sockets := s.sockets + 1, wsConnected := false))
      case Opens => s.(socket := Some(s.sockets), sockets := s.sockets + 1, wsConnected := false)
  }

  function AllClosed(pending: seq<string>): seq<Settlement> {
    seq(|pending|, i requires 0 <= i < |pending| => Settlement(pending[i], Closed))
  }

  function RejectAll(s: Session): Session {
    s.(pending := [], settled := s.settled + AllClosed(s.pending))
  }

  function OtherThan(echo: string): string -> bool {
    (x: string) => x != echo
  }

  function Without(pending: seq<string>, echo: string): seq<string> {
    Filter(pending, OtherThan(echo))
  }

  function Settle(s: Session, echo: string, outcome: Outcome): Session {
    if echo in s.pending
    then s.(pending := Without(s.pending, echo), settled := s.settled + [Settlement(echo, outcome)])
    else s
  }

  /** A stopped session, its waiting requests not yet rejected. */
  function Stopping(s: Session): Session {
    s.(ready := false, manuallyClosed := true, reconnectTimer := false, wsConnected := false, socket := None)
  }

  predicate Current(s: Session, socket: nat) {
    s.ready && !s.manuallyClosed && s.socket == Some(socket)
  }

  function Next(s: Session, e: Event): Session {
    match e
    case Start(o) => OpenSocket(s.(ready := true, manuallyClosed := false), o)
    case Stop =>
      RejectAll(Stopping(s))
    case OpenEvent(socket) => if Current(s, socket) then s.(wsConnected := true) else s
    case MessageEvent(socket, packet) =>
      if Current(s, socket) && packet.Response? then Settle(s, packet.echo, Answered) else s
    case ErrorEvent(socket) => s
    case CloseEvent(socket) =>
      if s.socket != Some(socket) then s
      else
        var t := RejectAll(s.(wsConnected := false, socket := None));
        if !t.manuallyClosed && t.ready then ScheduleReconnect(t) else t
    case ReconnectDue(o) => if s.reconnectTimer then OpenSocket(s.(reconnectTimer := false), o) else s
    case RequestTimeout(echo) => Settle(s, echo, TimedOut)
    case Call(echo, sends) =>
      if s.socket.None? || !s.wsConnected then s
      else
        var t := s.(pending := s.pending + [echo]);
        if sends then t else Settle(t, echo, SendFailed)
  }

  // ---------------------------------------------------------------- the session as an object

  class OneBotWebSocketSession {
    var ready: bool
    var manuallyClosed: bool
    var socket: Option<nat>
    var sockets: nat
    var wsConnected: bool
    var reconnectTimer: bool
    var pending: seq<string>
    var settled: seq<Settlement>

    function State(): Session
      reads this
    {
      Session(ready, manuallyClosed, socket, sockets, wsConnected, reconnectTimer, pending, settled)
    }

    constructor ()
      ensures State() == NEW
    {
      ready, manuallyClosed, socket, sockets, wsConnected, reconnectTimer := false, false, None, 0, false, false;
      pending, settled := [], [];
    }

    method StartSession(o: Opening)
      modifies this
      ensures State() == Next(old(State()), Start(o))
    {
      ready := true;
      manuallyClosed := false;
      OpenWebSocket(o);
    }

    method StopSession()
      modifies this
      ensures State() == Next(old(State()), Stop)
    {
      ready := false;
      manuallyClosed := true;
      reconnectTimer := false;
      wsConnected := false;
      socket := None;
      RejectAllPending();
    }

    method OpenWebSocket(o: Opening)
      modifies this
      ensures State() == OpenSocket(old(State()), o)
    {
      if !ready || socket.Some? { return; }
      if !o.Fails? {
        socket := Some(sockets);
        sockets := sockets + 1;
        wsConnected := false;
      }
      if !o.Opens? { ScheduleReopening(); }
    }

    method ScheduleReopening()
      modifies this
      ensures State() == ScheduleReconnect(old(State()))
    {
      if manuallyClosed || reconnectTimer { return; }
      reconnectTimer := true;
    }

    method RejectAllPending()
      modifies this
      ensures State() == RejectAll(old(State()))
    {
      var i := 0;
      while i < |pending|
        invariant 0 <= i <= |pending|
        invariant State() == old(State()).(settled := old(settled) + AllClosed(pending[..i]))
      {
        AllClosedStep(pending, i);
        settled := settled + [Settlement(pending[i], Closed)];
        i := i + 1;
      }
      assert pending[..|pending|] == pending;
      pending := [];
    }

    method OnOpen(from: nat)
      modifies this
      ensures State() == Next(old(State()), OpenEvent(from))
    {
      if !Current(State(), from) { return; }
      wsConnected := true;
    }

    method OnMessage(from: nat, packet: Packet)
      modifies this
      ensures State() == Next(old(State()), MessageEvent(from, packet))
    {
      if !Current(State(), from) { return; }
      if packet.Response? { SettleRequest(packet.echo, Answered); }
    }

    method OnClose(from: nat)
      modifies this
      ensures State() == Next(old(State()), CloseEvent(from))
    {
      if socket != Some(from) { return; }
      wsConnected := false;
      socket := None;
      RejectAllPending();
      if !manuallyClosed && ready { ScheduleReopening(); }
    }

    method OnReconnectDue(o: Opening)
      modifies this
      ensures State() == Next(old(State()), ReconnectDue(o))
    {
      if !reconnectTimer { return; }
      reconnectTimer := false;
      OpenWebSocket(o);
    }

    method SettleRequest(echo: string, outcome: Outcome)
      modifies this
      ensures State() == Settle(old(State()), echo, outcome)
    {
      if echo !in pending { return; }
      pending := Without(pending, echo);
      settled := settled + [Settlement(echo, outcome)];
    }

    method OnRequestTimeout(echo: string)
      modifies this
      ensures State() == Next(old(State()), RequestTimeout(echo))
    {
      SettleRequest(echo, TimedOut);
    }

    /** `accepted` says that the request reached the socket. */
    method CallApi(echo: string, sends: bool) returns (accepted: bool)
      modifies this
      ensures State() == Next(old(State()), Call(echo, sends))
      ensures accepted == (old(socket).Some? && old(wsConnected) && sends)
    {
      if socket.None? || !wsConnected { return false; }
      pending := pending + [echo];
      if !sends { SettleRequest(echo, SendFailed); }
      return sends;
    }
  }

  lemma AllClosedStep(pending: seq<string>, i: nat)
    requires i < |pending|
    ensures AllClosed(pending[..i + 1]) == AllClosed(pending[..i]) + [Settlement(pending[i], Closed)]
  {
  }

  // ---------------------------------------------------------------- runs

  function Run(events: seq<Event>): Session {
    if events == [] then NEW else Next(Run(events[..|events| - 1]), events[|events| - 1])
  }

  /** What every run keeps. */
  predicate Sound(s: Session) {
    && (s.pending != [] ==> s.wsConnected)
    && (s.wsConnected ==> s.socket.Some? && s.ready)
    && (s.socket.Some? ==> s.ready && s.socket.value < s.sockets)
    && (s.ready ==> !s.manuallyClosed && (s.socket.Some? || s.reconnectTimer))
    && (s.reconnectTimer ==> s.ready)
  }

  /** Waiting requests exist only while connected; connected means started with a current socket; started means
      a socket or a scheduled reconnect, and stopped means neither. */
  lemma {:induction false} RunSound(events: seq<Event>)
    ensures Sound(Run(events))
  {
    if events != [] {
      RunSound(events[..|events| - 1]);
      hide Without, AllClosed;
    }
  }

  /** A socket that is not the current one cannot change anything. */
  lemma StaleSocketsChangeNothing(events: seq<Event>, socket: nat, packet: Packet)
    requires Run(events).socket != Some(socket)
    ensures var s := Run(events);
      && Next(s, OpenEvent(socket)) == s && Next(s, MessageEvent(socket, packet)) == s
      && Next(s, ErrorEvent(socket)) == s && Next(s, CloseEvent(socket)) == s
  {
  }

  /** Once given up, a socket never becomes the current one again. */
  lemma {:induction false} SocketsDoNotReturn(events: seq<Event>, more: seq<Event>, socket: nat)
    requires Run(events).socket != Some(socket) && socket < Run(events).sockets
    ensures Run(events + more).socket != Some(socket) && socket < Run(events + more).sockets
    decreases |more|
  {
    hide Next;
    if more == [] {
      assert events + more == events;
    } else {
      SocketsDoNotReturn(events, more[..|more| - 1], socket);
      assert (events + more)[..|events + more| - 1] == events + more[..|more| - 1];
      SocketStaysAway(Run(events + more[..|more| - 1]), more[|more| - 1], socket);
    }
  }

  lemma SocketStaysAway(s: Session, e: Event, socket: nat)
    requires s.socket != Some(socket) && socket < s.sockets
    ensures Next(s, e).socket != Some(socket) && socket < Next(s, e).sockets
  {
    hide Without, AllClosed;
  }

  /** After a stop nothing but a start changes the session. */
  lemma StoppedStaysQuiet(events: seq<Event>, e: Event)
    requires !Run(events).ready && Run(events).manuallyClosed && !e.Start?
    ensures Next(Run(events), e) == Run(events)
  {
    RunSound(events);
    var s := Run(events);
    hide Run;
    assert s.settled + AllClosed([]) == s.settled;
  }

  // ---------------------------------------------------------------- each request ends once

  function Settlements(s: seq<Settlement>, x: string): nat {
    |Filter(s, OfEcho(x))|
  }

  function OfEcho(x: string): Settlement -> bool {
    (s: Settlement) => s.echo == x
  }

  /** The requests of a run that reached the pending table. */
  function Registered(events: seq<Event>, echo: string): nat {
    if events == [] then 0
    else
      var init, last := events[..|events| - 1], events[|events| - 1];
      var s := Run(init);
      Registered(init, echo)
      + if last.Call? && last.echo == echo && s.socket.Some? && s.wsConnected then 1 else 0
  }

  /** Every call carries an echo that no earlier call had. */
  predicate FreshEchoes(events: seq<Event>) {
    forall i, j | 0 <= i < j < |events| && events[i].Call? && events[j].Call? :: events[i].echo != events[j].echo
  }

  lemma CountWithout(pending: seq<string>, echo: string, x: string)
    ensures CountOf(Without(pending, echo), x) == if x == echo then 0 else CountOf(pending, x)
  {
    FilterCounts(pending, OtherThan(echo), x);
  }

  lemma SettlementsAppend(a: seq<Settlement>, b: Settlement, x: string)
    ensures Settlements(a + [b], x) == Settlements(a, x) + if b.echo == x then 1 else 0
  {
    FilterAppend(a, [b], OfEcho(x));
    assert [b][1..] == [];
  }

  lemma {:induction false} SettlementsClosed(a: seq<Settlement>, pending: seq<string>, x: string)
    ensures Settlements(a + AllClosed(pending), x) == Settlements(a, x) + CountOf(pending, x)
    decreases |pending|
  {
    if pending == [] {
      assert a + AllClosed(pending) == a;
    } else {
      hide Settlements, CountOf;
      var n := |pending| - 1;
      SettlementsClosed(a, pending[..n], x);
      AllClosedStep(pending, n);
      assert pending[..n + 1] == pending == pending[..n] + [pending[n]];
      SettlementsAppend(a + AllClosed(pending[..n]), Settlement(pending[n], Closed), x);
      assert a + AllClosed(pending) == (a + AllClosed(pending[..n])) + [Settlement(pending[n], Closed)];
      CountAppend(pending[..n], pending[n], x);
    }
  }

  /** Waiting plus ended. */
  function Balance(s: Session, x: string): nat {
    CountOf(s.pending, x) + Settlements(s.settled, x)
  }

  lemma SettleBalance(s: Session, echo: string, outcome: Outcome, x: string)
    requires CountOf(s.pending, echo) <= 1
    ensures Balance(Settle(s, echo, outcome), x) == Balance(s, x)
    ensures CountOf(Settle(s, echo, outcome).pending, x) <= CountOf(s.pending, x)
  {
    assert CountOf(s.pending, echo) > 0 <==> echo in s.pending;
    CountWithout(s.pending, echo, x);
    SettlementsAppend(s.settled, Settlement(echo, outcome), x);
    hide CountOf, Settlements, Without;
  }

  lemma RejectBalance(s: Session, x: string)
    ensures Balance(RejectAll(s), x) == Balance(s, x)
  {
    SettlementsClosed(s.settled, s.pending, x);
  }

  lemma NextBalance(s: Session, e: Event, x: string)
    requires forall y :: CountOf(s.pending, y) <= 1
    requires e.Call? ==> CountOf(s.pending, e.echo) == 0
    ensures Balance(Next(s, e), x) == Balance(s, x)
      + if e.Call? && e.echo == x && s.socket.Some? && s.wsConnected then 1 else 0
  {
    hide CountOf, Settlements, Without, AllClosed, RejectAll;
    match e {
      case Stop =>
        RejectBalance(Stopping(s), x);
      case CloseEvent(_) => RejectBalance(s.(wsConnected := false, socket := None), x);
      case MessageEvent(_, packet) => if packet.Response? { SettleBalance(s, packet.echo, Answered, x); }
      case RequestTimeout(echo) => SettleBalance(s, echo, TimedOut, x);
      case Call(echo, sends) =>
        CountAppend(s.pending, echo, x);
        CountAppend(s.pending, echo, echo);
        SettleBalance(s.(pending := s.pending + [echo]), echo, SendFailed, x);
      case _ =>
    }
  }

  /** The balance of a run: each request that reached the socket is waiting or has ended, once. */
  lemma {:induction false} EachEndsOnce(events: seq<Event>)
    requires FreshEchoes(events)
    ensures forall x :: Balance(Run(events), x) == Registered(events, x) <= 1
    ensures forall x | (forall i | 0 <= i < |events| && events[i].Call? :: events[i].echo != x) ::
      Registered(events, x) == 0
  {
    if events != [] {
      var n := |events| - 1;
      var init, last := events[..n], events[n];
      EachEndsOnce(init);
      hide Balance, Next;
      var s := Run(init);
      forall y ensures CountOf(s.pending, y) <= 1 { WaitingAtMost(s, y); }
      if last.Call? {
        assert Registered(init, last.echo) == 0;
        WaitingAtMost(s, last.echo);
      }
      forall x ensures Balance(Run(events), x) == Registered(events, x) { NextBalance(s, last, x); }
    }
  }

  lemma WaitingAtMost(s: Session, x: string)
    ensures CountOf(s.pending, x) <= Balance(s, x)
  {
  }

  /** After a stop every request of the run has ended exactly once. */
  lemma AllEndedAfterStop(events: seq<Event>, x: string)
    requires FreshEchoes(events)
    ensures var s := Run(events + [Stop]); s.pending == [] && Settlements(s.settled, x) == Registered(events, x)
  {
    assert (events + [Stop])[..|events|] == events;
    EachEndsOnce(events);
    var s := Run(events);
    RejectBalance(Stopping(s), x);
  }

  // ---------------------------------------------------------------- what each event brings about

  /** The request leaves the table and has ended so; nothing else changes. */
  ghost predicate Ended(s: Session, u: Session, echo: string, outcome: Outcome) {
    && u.settled == s.settled + [Settlement(echo, outcome)]
    && u.(pending := s.pending, settled := s.settled) == s
    && (forall x :: CountOf(u.pending, x) == if x == echo then 0 else CountOf(s.pending, x))
  }

  lemma SettledIsEnded(s: Session, echo: string, outcome: Outcome)
    requires echo in s.pending
    ensures Ended(s, Settle(s, echo, outcome), echo, outcome)
  {
    forall x ensures CountOf(Without(s.pending, echo), x) == if x == echo then 0 else CountOf(s.pending, x) {
      CountWithout(s.pending, echo, x);
    }
    hide CountOf, Without;
  }

  /** In every run the open event of the current socket connects the session; a response on it ends its request as
      answered, and a timeout that comes due ends a waiting one. */
  lemma EventsTakeEffect(events: seq<Event>, socket: nat, echo: string)
    requires Run(events).socket == Some(socket)
    ensures var s := Run(events);
      && Next(s, OpenEvent(socket)) == s.(wsConnected := true)
      && (echo in s.pending ==>
            && Ended(s, Next(s, MessageEvent(socket, Response(echo))), echo, Answered)
            && Ended(s, Next(s, RequestTimeout(echo)), echo, TimedOut))
      && (echo !in s.pending ==>
            Next(s, MessageEvent(socket, Response(echo))) == s && Next(s, RequestTimeout(echo)) == s)
      && Next(s, MessageEvent(socket, Inbound)) == s && Next(s, MessageEvent(socket, Unreadable)) == s
      && Next(s, MessageEvent(socket, Other)) == s
  {
    RunSound(events);
    var s := Run(events);
    hide Run, Ended, Settle;
    if echo in s.pending {
      SettledIsEnded(s, echo, Answered);
      SettledIsEnded(s, echo, TimedOut);
    } else {
      NothingToSettle(s, echo);
    }
  }

  lemma NothingToSettle(s: Session, echo: string)
    requires echo !in s.pending
    ensures Settle(s, echo, Answered) == s && Settle(s, echo, TimedOut) == s
  {
  }

  /** In every run the close of the current socket, and a stop, end all waiting requests in order; the close of a
      socket schedules a reconnect, which opens a new one. */
  lemma ClosingTakesEffect(events: seq<Event>, socket: nat)
    requires Run(events).socket == Some(socket)
    ensures var s := Run(events);
      var t, stopped := Next(s, CloseEvent(socket)), Next(s, Stop);
      && t.pending == [] && stopped.pending == [] && t.settled == stopped.settled
      && |t.settled| == |s.settled| + |s.pending| && s.settled <= t.settled
      && (forall i | 0 <= i < |s.pending| :: t.settled[|s.settled| + i] == Settlement(s.pending[i], Closed))
      && t.socket == None && t.ready && t.reconnectTimer && !t.wsConnected
      && !stopped.ready && stopped.manuallyClosed && !stopped.reconnectTimer && stopped.socket == None
      && !stopped.wsConnected
      && (var r := Next(t, ReconnectDue(Opens)); r == t.(socket := Some(t.sockets), sockets := t.sockets + 1,
                                                         reconnectTimer := false))
      && Next(t, ReconnectDue(Fails)) == t
  {
    RunSound(events);
  }

  /** A session that was stopped, or never started, opens a new socket when it is started. */
  lemma StartingOpens(events: seq<Event>)
    requires Run(events).socket == None
    ensures var s := Run(events);
      && Next(s, Start(Opens)) ==
           s.(ready := true, manuallyClosed := false, socket := Some(s.sockets), sockets := s.sockets + 1)
      && Next(s, Start(FailsLate)) == Next(s, Start(Opens)).(reconnectTimer := true)
      && Next(s, Start(Fails)) == s.(ready := true, manuallyClosed := false, reconnectTimer := true)
  {
    RunSound(events);
  }

  /** A call of the connected session waits when it is sent, and ends at once when sending fails; without a
      connection it is refused. */
  lemma CallsTakeEffect(events: seq<Event>, echo: string, sends: bool)
    ensures var s := Run(events);
      var u := Next(s, Call(echo, sends));
      && (!s.wsConnected ==> u == s)
      && (s.wsConnected && sends ==> u == s.(pending := s.pending + [echo]))
      && (s.wsConnected && !sends ==> Ended(s.(pending := s.pending + [echo]), u, echo, SendFailed))
  {
    RunSound(events);
    var s := Run(events);
    hide Run, Ended, Settle;
    SettledIsEnded(s.(pending := s.pending + [echo]), echo, SendFailed);
  }
}
