// The deferred-question job: each attempt may throw or die at any step and is retried later.
module Recheck {
  import opened Text
  import opened Sequences

  datatype TurnStatus = Pending | Running | Completed | Failed | Aborted

  datatype Turn =
    Turn(id: string, triggerEventId: string, status: TurnStatus, decisionId: Option<string>, startedAt: int)

  /** An execution row; `delivered` says that it counts as delivery evidence. */
  datatype Execution = Execution(id: string, decisionId: string, delivered: bool)

  /** The tables, and the events for which the action executor was started. */
  datatype Db = Db(turns: seq<Turn>, executions: seq<Execution>, started: seq<string>)

  /** What happens at a step: it is carried out, it throws, or the process dies before it. */
  datatype Fate = Done | Throws | Dies

  datatype Verdict = Respond | Suppress

  /** Everything an attempt cannot control. */
  datatype Weather = Weather(
    source: Fate,
    decide: Fate, verdict: Verdict,
    identity: Fate, skipped: bool,
    create: Fate, turnId: string, startedAt: int,
    context: Fate,
    inference: Fate, inferenceCompleted: bool, failInference: Fate,
    decision: Fate, decisionId: string,
    beforeExecution: Fate,
    executions: seq<Execution>, execution: Fate,
    complete: Fate,
    markFailed: Fate, record: Fate)

  /** How the conversation turn ends. */
  datatype Ending = ReturnsCompleted | ReturnsFailed | Raises | Died

  /** How an attempt of the job ends. */
  datatype Report =
    | Suppressed
    | Responded(turnId: string, deliveryRecorded: bool)
    | JobThrows
    | JobDied

  // ---------------------------------------------------------------- the turn table

  function SetStatus(turns: seq<Turn>, id: string, status: TurnStatus): (r: seq<Turn>)
    ensures |r| == |turns|
  {
    seq(|turns|, i requires 0 <= i < |turns| => if turns[i].id == id then turns[i].(status := status) else turns[i])
  }

  function SetDecision(turns: seq<Turn>, id: string, decisionId: string): (r: seq<Turn>)
    ensures |r| == |turns|
  {
    seq(|turns|, i requires 0 <= i < |turns| =>
      if turns[i].id == id then turns[i].(decisionId := Some(decisionId)) else turns[i])
  }

  predicate HasId(turns: seq<Turn>, id: string) {
    exists t | t in turns :: t.id == id
  }

  /** `markAbortedByTriggerEvent`: recovery after an interruption. */
  function Abort(turns: seq<Turn>, event: string): (r: seq<Turn>)
    ensures |r| == |turns|
  {
    seq(|turns|, i requires 0 <= i < |turns| =>
      if turns[i].triggerEventId == event && (turns[i].status == Pending || turns[i].status == Running)
      then turns[i].(status := Aborted) else turns[i])
  }

  // ---------------------------------------------------------------- what earlier attempts left

  datatype Evidence = Nothing | Terminal(turnId: string, deliveryRecorded: bool) | Indeterminate

  /** Newest first. */
  function Newest(): (Turn, Turn) -> bool {
    (a: Turn, b: Turn) => a.startedAt > b.startedAt || (a.startedAt == b.startedAt && LexLeq(b.id, a.id))
  }

  function ForEvent(event: string): Turn -> bool {
    (t: Turn) => t.triggerEventId == event
  }

  function TurnsOf(turns: seq<Turn>, event: string): seq<Turn> {
    Filter(turns, ForEvent(event))
  }

  predicate Delivered(db: Db, t: Turn) {
    t.decisionId.Some? && exists e | e in db.executions :: e.delivered && e.decisionId == t.decisionId.value
  }

  /** `findDelayedAttentionTerminalTurn`. */
  function FindTerminal(db: Db, event: string): (r: Evidence) {
    var rows := Sort(TurnsOf(db.turns, event), Newest());
    var delivered := Find(rows, (t: Turn) => Delivered(db, t));
    var completed := Find(rows, (t: Turn) => t.status == Completed);
    if delivered.Some? then Terminal(rows[delivered.value].id, true)
    else if completed.Some? then Terminal(rows[completed.value].id, false)
    else if Find(rows, (t: Turn) => t.status == Pending || t.status == Running || t.decisionId.Some?).Some?
    then Indeterminate
    else Nothing
  }

  // ---------------------------------------------------------------- one conversation turn

  /** The handler's `catch`: fail the turn, record the failure. */
  function Catch(db: Db, turnId: Option<string>, w: Weather): (Db, Ending) {
    if turnId.Some? && w.markFailed.Dies? then (db, Died)
    else
      var u := if turnId.Some? && w.markFailed.Done? then db.(turns := SetStatus(db.turns, turnId.value, Failed)) else db;
      (u, match w.record case Done => ReturnsFailed case Throws => Raises case Dies => Died)
  }

  function Complete(db: Db, w: Weather): (Db, Ending) {
    match w.complete
    case Dies => (db, Died)
    case Throws => Catch(db, Some(w.turnId), w)
    case Done => (db.(turns := SetStatus(db.turns, w.turnId, Completed)), ReturnsCompleted)
  }

  function Execute(db: Db, event: string, w: Weather): (Db, Ending) {
    var u := db.(executions := db.executions + w.executions, started := db.started + [event]);
    match w.execution
    case Dies => (u, Died)
    case Throws => Catch(u, Some(w.turnId), w)
    case Done => Complete(u, w)
  }

  function DecideActions(db: Db, event: string, w: Weather): (Db, Ending) {
    match w.decision
    case Dies => (db, Died)
    case Throws => Catch(db, Some(w.turnId), w)
    case Done =>
      var u := db.(turns := SetDecision(db.turns, w.turnId, w.decisionId));
      match w.beforeExecution
      case Dies => (u, Died)
      case Throws => Catch(u, Some(w.turnId), w)
      case Done => Execute(u, event, w)
  }

  function Infer(db: Db, event: string, w: Weather): (Db, Ending) {
    match w.inference
    case Dies => (db, Died)
    case Throws => Catch(db, Some(w.turnId), w)
    case Done =>
      if w.inferenceCompleted then DecideActions(db, event, w)
      else
        match w.failInference
        case Dies => (db, Died)
        case Throws => Catch(db, Some(w.turnId), w)
        case Done => (db.(turns := SetStatus(db.turns, w.turnId, Failed)), ReturnsFailed)
  }

  function BuildContext(db: Db, event: string, w: Weather): (Db, Ending) {
    match w.context
    case Dies => (db, Died)
    case Throws => Catch(db, Some(w.turnId), w)
    case Done => Infer(db.(turns := SetStatus(db.turns, w.turnId, Running)), event, w)
  }

  function TurnOf(event: string, w: Weather): Turn {
    Turn(w.turnId, event, Pending, None, w.startedAt)
  }

  function CreateTurn(db: Db, event: string, w: Weather): (Db, Ending) {
    if w.create.Dies? then (db, Died)
    else if w.create.Throws? || HasId(db.turns, w.turnId) then Catch(db, None, w)
    else BuildContext(db.(turns := db.turns + [TurnOf(event, w)]), event, w)
  }

  /** `handleEvent` for a stored source. */
  function HandleEvent(db: Db, event: string, w: Weather): (Db, Ending) {
    match w.identity
    case Dies => (db, Died)
    case Throws => Catch(db, None, w)
    case Done => if w.skipped then (db, ReturnsCompleted) else CreateTurn(db, event, w)
  }

  // ---------------------------------------------------------------- one attempt of the job

  function Recheck(db: Db, event: string, w: Weather): (Db, Report) {
    match w.source
    case Dies => (db, JobDied)
    case Throws => (db, JobThrows)
    case Done =>
      match w.decide
      case Dies => (db, JobDied)
      case Throws => (db, JobThrows)
      case Done => if w.verdict == Suppress then (db, Suppressed) else AnswerOnce(db, event, w)
  }

  function AnswerOnce(db: Db, event: string, w: Weather): (Db, Report) {
    match FindTerminal(db, event)
    case Terminal(turnId, delivery) => (db, Responded(turnId, delivery))
    case Indeterminate => (db, JobThrows)
    case Nothing =>
      var (u, ending) := HandleEvent(db, event, w);
      match ending
      case Died => (u, JobDied)
      case Raises => (u, JobThrows)
      case ReturnsFailed => (u, JobThrows)
      case ReturnsCompleted =>
        (u, match FindTerminal(u, event)
            case Terminal(turnId, delivery) => Responded(turnId, delivery)
            case _ => JobThrows)
  }

  /** The handler over its tables. */
  class RecheckHandler {
    var turns: seq<Turn>
    var executions: seq<Execution>
    var started: seq<string>

    function State(): Db
      reads this
    {
      Db(turns, executions, started)
    }

    method OnError(turnId: Option<string>, w: Weather) returns (r: Ending)
      modifies this
      ensures (State(), r) == Catch(old(State()), turnId, w)
    {
      if turnId.Some? {
        if w.markFailed.Dies? { return Died; }
        if w.markFailed.Done? { turns := SetStatus(turns, turnId.value, Failed); }
      }
      return match w.record case Done => ReturnsFailed case Throws => Raises case Dies => Died;
    }

    method HandleConversationTurn(event: string, w: Weather) returns (r: Ending)
      modifies this
      ensures (State(), r) == HandleEvent(old(State()), event, w)
    {
      hide SetStatus, SetDecision, HasId;
      if w.identity.Dies? { return Died; }
      if w.identity.Throws? { r := OnError(None, w); return; }
      if w.skipped { return ReturnsCompleted; }
      if w.create.Dies? { return Died; }
      if w.create.Throws? || HasId(turns, w.turnId) { r := OnError(None, w); return; }
      turns := turns + [TurnOf(event, w)];
      var turnId := Some(w.turnId);
      if w.context.Dies? { return Died; }
      if w.context.Throws? { r := OnError(turnId, w); return; }
      turns := SetStatus(turns, w.turnId, Running);
      if w.inference.Dies? { return Died; }
      if w.inference.Throws? { r := OnError(turnId, w); return; }
      if !w.inferenceCompleted {
        if w.failInference.Dies? { return Died; }
        if w.failInference.Throws? { r := OnError(turnId, w); return; }
        turns := SetStatus(turns, w.turnId, Failed);
        return ReturnsFailed;
      }
      if w.decision.Dies? { return Died; }
      if w.decision.Throws? { r := OnError(turnId, w); return; }
      turns := SetDecision(turns, w.turnId, w.decisionId);
      if w.beforeExecution.Dies? { return Died; }
      if w.beforeExecution.Throws? { r := OnError(turnId, w); return; }
      started := started + [event];
      executions := executions + w.executions;
      if w.execution.Dies? { return Died; }
      if w.execution.Throws? { r := OnError(turnId, w); return; }
      if w.complete.Dies? { return Died; }
      if w.complete.Throws? { r := OnError(turnId, w); return; }
      turns := SetStatus(turns, w.turnId, Completed);
      return ReturnsCompleted;
    }

    method HandleRecheckTask(event: string, w: Weather) returns (r: Report)
      modifies this
      ensures (State(), r) == Recheck(old(State()), event, w)
    {
      hide FindTerminal, HandleEvent;
      if w.source.Dies? { return JobDied; }
      if w.source.Throws? { return JobThrows; }
      if w.decide.Dies? { return JobDied; }
      if w.decide.Throws? { return JobThrows; }
      if w.verdict == Suppress { return Suppressed; }
      var existing := FindTerminal(State(), event);
      if existing.Terminal? { return Responded(existing.turnId, existing.deliveryRecorded); }
      if existing.Indeterminate? { return JobThrows; }
      var ending := HandleConversationTurn(event, w);
      if ending.Died? { return JobDied; }
      if ending != ReturnsCompleted { return JobThrows; }
      var completed := FindTerminal(State(), event);
      if !completed.Terminal? { return JobThrows; }
      return Responded(completed.turnId, completed.deliveryRecorded);
    }
  }

  // ---------------------------------------------------------------- runs

  datatype Step =
    | Attempt(event: string, weather: Weather)
    | Recover(event: string)

  const EMPTY := Db([], [], [])

  function Next(db: Db, s: Step): Db {
    match s
    case Attempt(event, w) => Recheck(db, event, w).0
    case Recover(event) => db.(turns := Abort(db.turns, event))
  }

  function Run(steps: seq<Step>): Db {
    if steps == [] then EMPTY else Next(Run(steps[..|steps| - 1]), steps[|steps| - 1])
  }

  function Starts(db: Db, event: string): nat {
    CountOf(db.started, event)
  }

  /** A turn of the event carries a decision. */
  predicate Decided(turns: seq<Turn>, event: string) {
    exists i | 0 <= i < |turns| :: turns[i].triggerEventId == event && turns[i].decisionId.Some?
  }

  // ---------------------------------------------------------------- a turn is one new row

  lemma SetOnNew(turns: seq<Turn>, t: Turn, status: TurnStatus, decisionId: string)
    requires !HasId(turns, t.id)
    ensures SetStatus(turns + [t], t.id, status) == turns + [t.(status := status)]
    ensures SetDecision(turns + [t], t.id, decisionId) == turns + [t.(decisionId := Some(decisionId))]
  {
    assert forall i | 0 <= i < |turns| :: turns[i] in turns && turns[i].id != t.id;
  }

  /** What a conversation turn may leave: its own row added, and the executor started only under a decision. */
  ghost predicate Adds(db: Db, u: Db, event: string, id: string) {
    || (u.turns == db.turns && u.started == db.started)
    || (exists t: Turn :: t.id == id && t.triggerEventId == event && u.turns == db.turns + [t]
          && (u.started == db.started || (u.started == db.started + [event] && t.decisionId.Some?)))
  }

  lemma AddsRow(db: Db, u: Db, event: string, t: Turn)
    requires t.triggerEventId == event && u.turns == db.turns + [t]
    requires u.started == db.started || (u.started == db.started + [event] && t.decisionId.Some?)
    ensures Adds(db, u, event, t.id)
  {
  }

  lemma CatchAdds(db: Db, u: Db, t: Turn, w: Weather)
    requires t.id == w.turnId && !HasId(db.turns, t.id) && u.turns == db.turns + [t]
    requires u.started == db.started || (u.started == db.started + [t.triggerEventId] && t.decisionId.Some?)
    ensures Adds(db, Catch(u, Some(w.turnId), w).0, t.triggerEventId, w.turnId)
  {
    hide Adds, SetStatus;
    SetOnNew(db.turns, t, Failed, "");
    AddsRow(db, u, t.triggerEventId, t);
    var v := Catch(u, Some(w.turnId), w).0;
    if w.markFailed.Done? { AddsRow(db, v, t.triggerEventId, t.(status := Failed)); }
  }

  lemma ExecuteAdds(db: Db, u: Db, t: Turn, w: Weather)
    requires t.id == w.turnId && !HasId(db.turns, t.id) && u.turns == db.turns + [t]
    requires u.started == db.started && t.decisionId.Some?
    ensures Adds(db, Execute(u, t.triggerEventId, w).0, t.triggerEventId, w.turnId)
  {
    hide Adds, SetStatus;
    var v := u.(executions := u.executions + w.executions, started := u.started + [t.triggerEventId]);
    AddsRow(db, v, t.triggerEventId, t);
    CatchAdds(db, v, t, w);
    SetOnNew(db.turns, t, Completed, "");
    AddsRow(db, v.(turns := SetStatus(v.turns, w.turnId, Completed)), t.triggerEventId, t.(status := Completed));
  }

  lemma DecideAdds(db: Db, u: Db, t: Turn, w: Weather)
    requires t.id == w.turnId && !HasId(db.turns, t.id) && u.turns == db.turns + [t] && u.started == db.started
    ensures Adds(db, DecideActions(u, t.triggerEventId, w).0, t.triggerEventId, w.turnId)
  {
    hide Adds, SetDecision, Execute, Catch;
    AddsRow(db, u, t.triggerEventId, t);
    CatchAdds(db, u, t, w);
    SetOnNew(db.turns, t, Failed, w.decisionId);
    var d := t.(decisionId := Some(w.decisionId));
    var v := u.(turns := SetDecision(u.turns, w.turnId, w.decisionId));
    AddsRow(db, v, t.triggerEventId, d);
    CatchAdds(db, v, d, w);
    ExecuteAdds(db, v, d, w);
  }

  lemma HandleAdds(db: Db, event: string, w: Weather)
    ensures Adds(db, HandleEvent(db, event, w).0, event, w.turnId)
    ensures HandleEvent(db, event, w).0 != db ==> !HasId(db.turns, w.turnId)
  {
    hide SetStatus, DecideActions, HasId;
    if w.identity.Done? && !w.skipped && w.create.Done? && !HasId(db.turns, w.turnId) {
      var t := TurnOf(event, w);
      var u := db.(turns := db.turns + [t]);
      var r := t.(status := Running);
      var v := u.(turns := SetStatus(u.turns, w.turnId, Running));
      SetOnNew(db.turns, t, Running, "");
      SetOnNew(db.turns, r, Failed, "");
      hide Adds;
      AddsRow(db, u, event, t);
      AddsRow(db, v, event, r);
      AddsRow(db, v.(turns := SetStatus(v.turns, w.turnId, Failed)), event, r.(status := Failed));
      CatchAdds(db, u, t, w);
      CatchAdds(db, v, r, w);
      DecideAdds(db, v, r, w);
    }
  }

  // ---------------------------------------------------------------- at most one execution

  lemma RowsHave(db: Db, event: string, t: Turn)
    ensures t in Sort(TurnsOf(db.turns, event), Newest()) <==> t in db.turns && t.triggerEventId == event
  {
    FilterElements(db.turns, ForEvent(event), t);
    SortKeeps(TurnsOf(db.turns, event), Newest());
    assert t in multiset(Sort(TurnsOf(db.turns, event), Newest())) <==> t in multiset(TurnsOf(db.turns, event));
  }

  /** A fresh start is allowed exactly when every earlier turn of the event failed or was aborted undecided. */
  lemma FreshStart(db: Db, event: string)
    ensures FindTerminal(db, event) == Nothing <==> forall t | t in db.turns && t.triggerEventId == event ::
      (t.status == Failed || t.status == Aborted) && t.decisionId.None?
  {
    hide TurnsOf, Delivered;
    var rows := Sort(TurnsOf(db.turns, event), Newest());
    hide Sort, Newest;
    forall t | t in db.turns && t.triggerEventId == event ensures t in rows { RowsHave(db, event, t); }
    forall t | t in rows ensures t in db.turns && t.triggerEventId == event { RowsHave(db, event, t); }
    forall t: Turn | Delivered(db, t) ensures t.decisionId.Some? { NoDeliveryUndecided(db, t); }
    assert forall i | 0 <= i < |rows| :: rows[i] in rows;
    assert forall t | t in rows :: exists i | 0 <= i < |rows| :: rows[i] == t;
  }

  lemma NoDeliveryUndecided(db: Db, t: Turn)
    requires Delivered(db, t)
    ensures t.decisionId.Some?
  {
  }

  lemma NewestOrder()
    ensures Preorder(Newest())
  {
    forall a: Turn, b: Turn ensures Newest()(a, b) || Newest()(b, a) { LexTotal(a.id, b.id); }
    forall a: Turn, b: Turn, c: Turn | Newest()(a, b) && Newest()(b, c) ensures Newest()(a, c) {
      if a.startedAt == c.startedAt { LexTransitive(c.id, b.id, a.id); }
    }
  }

  /** Evidence is found exactly when some turn of the event is delivered under its decision or completed. What is
      reported is the newest delivered turn if there is one, which is what the report says, and otherwise the newest
      completed one. */
  lemma ReportIsEvidence(db: Db, event: string)
    ensures var found := FindTerminal(db, event);
      var delivered := (t: Turn) => t.triggerEventId == event && t.decisionId.Some?
        && exists e | e in db.executions :: e.delivered && e.decisionId == t.decisionId.value;
      var completed := (t: Turn) => t.triggerEventId == event && t.status == Completed;
      && (found.Terminal? <==> exists t | t in db.turns :: delivered(t) || completed(t))
      && (found.Terminal? ==>
            && (found.deliveryRecorded <==> exists t | t in db.turns :: delivered(t))
            && exists t | t in db.turns && t.id == found.turnId ::
                 && (if found.deliveryRecorded then delivered(t) else completed(t))
                 && forall x | x in db.turns && (if found.deliveryRecorded then delivered(x) else completed(x)) ::
                      x.startedAt < t.startedAt || (x.startedAt == t.startedAt && LexLeq(x.id, t.id)))
  {
    RowsOrdered(db, event);
    var rows := Sort(TurnsOf(db.turns, event), Newest());
    hide Sort, TurnsOf;
    var d := Find(rows, (t: Turn) => Delivered(db, t));
    var c := Find(rows, (t: Turn) => t.status == Completed);
    forall t | t in rows ensures exists i | 0 <= i < |rows| :: rows[i] == t {}
    if d.Some? || c.Some? {
      var k := if d.Some? then d.value else c.value;
      var t := rows[k];
      LexTotal(t.id, t.id);
      forall x | x in rows && (if d.Some? then Delivered(db, x) else x.status == Completed)
        ensures x.startedAt < t.startedAt || (x.startedAt == t.startedAt && LexLeq(x.id, t.id))
      {
        var i :| 0 <= i < |rows| && rows[i] == x;
        assert k <= i;
        if k < i { assert Newest()(t, x); }
      }
      assert t in rows;
    }
  }

  lemma RowsOrdered(db: Db, event: string)
    ensures var rows := Sort(TurnsOf(db.turns, event), Newest());
      && (forall t :: t in rows <==> t in db.turns && t.triggerEventId == event)
      && forall i, j | 0 <= i < j < |rows| :: Newest()(rows[i], rows[j])
  {
    NewestOrder();
    SortSorted(TurnsOf(db.turns, event), Newest());
    forall t: Turn ensures t in Sort(TurnsOf(db.turns, event), Newest()) <==> t in db.turns && t.triggerEventId == event {
      RowsHave(db, event, t);
    }
    hide Newest, TurnsOf, Sort;
  }

  /** Once a turn of the event carries a decision, every later attempt only reports or throws. */
  lemma DecisionFreezes(db: Db, event: string, w: Weather)
    requires Decided(db.turns, event)
    ensures Recheck(db, event, w).0 == db
  {
    var i :| 0 <= i < |db.turns| && db.turns[i].triggerEventId == event && db.turns[i].decisionId.Some?;
    FreshStart(db, event);
    assert db.turns[i] in db.turns;
    hide FindTerminal, HandleEvent;
  }

  ghost predicate AtMostOne(db: Db, event: string) {
    Starts(db, event) <= 1 && (Starts(db, event) > 0 ==> Decided(db.turns, event))
  }

  lemma DecidedMore(turns: seq<Turn>, more: seq<Turn>, event: string)
    requires Decided(turns, event)
    ensures Decided(turns + more, event)
  {
    var i :| 0 <= i < |turns| && turns[i].triggerEventId == event && turns[i].decisionId.Some?;
    assert (turns + more)[i] == turns[i];
  }

  lemma AttemptOnce(db: Db, event: string, other: string, w: Weather)
    requires AtMostOne(db, event)
    ensures AtMostOne(Recheck(db, other, w).0, event)
    ensures Decided(db.turns, event) ==> Decided(Recheck(db, other, w).0.turns, event)
  {
    hide FindTerminal, HandleEvent, Decided, Adds;
    var u := Recheck(db, other, w).0;
    if other == event && Decided(db.turns, event) {
      DecisionFreezes(db, event, w);
    } else if u != db {
      HandleAdds(db, other, w);
      assert u == HandleEvent(db, other, w).0;
      AddsOnce(db, u, other, event, w.turnId);
    }
  }

  lemma AddsOnce(db: Db, u: Db, other: string, event: string, id: string)
    requires AtMostOne(db, event) && Adds(db, u, other, id)
    requires other == event ==> !Decided(db.turns, event)
    ensures AtMostOne(u, event)
    ensures Decided(db.turns, event) ==> Decided(u.turns, event)
  {
    hide Decided, CountOf;
    if !(u.turns == db.turns && u.started == db.started) {
      var t: Turn :| t.id == id && t.triggerEventId == other && u.turns == db.turns + [t]
        && (u.started == db.started || (u.started == db.started + [other] && t.decisionId.Some?));
      CountAppend(db.started, other, event);
      if Decided(db.turns, event) { DecidedMore(db.turns, [t], event); }
      if t.decisionId.Some? { DecidedLast(db.turns, t); }
    }
  }

  lemma DecidedLast(turns: seq<Turn>, t: Turn)
    requires t.decisionId.Some?
    ensures Decided(turns + [t], t.triggerEventId)
  {
    assert (turns + [t])[|turns|] == t;
  }

  lemma AbortKeepsDecided(turns: seq<Turn>, event: string, other: string)
    ensures Decided(Abort(turns, other), event) <==> Decided(turns, event)
  {
    var r := Abort(turns, other);
    assert forall i | 0 <= i < |turns| ::
      r[i].triggerEventId == turns[i].triggerEventId && r[i].decisionId == turns[i].decisionId;
  }

  /** In every sequence of attempts and recoveries, each of which may die at any step, the executor is started
      at most once for one question, and then a turn of the question carries its decision. */
  lemma {:induction false} AtMostOnce(steps: seq<Step>, event: string)
    ensures AtMostOne(Run(steps), event)
  {
    if steps != [] {
      AtMostOnce(steps[..|steps| - 1], event);
      var db := Run(steps[..|steps| - 1]);
      match steps[|steps| - 1] {
        case Attempt(other, w) => AttemptOnce(db, event, other, w);
        case Recover(other) => AbortKeepsDecided(db.turns, event, other);
      }
    }
  }

  /** A decision, once linked, stays: no later step of any run unlinks it, nor starts the executor again. */
  lemma {:induction false} DecisionIsTheLast(steps: seq<Step>, more: seq<Step>, event: string)
    requires Decided(Run(steps).turns, event)
    ensures Decided(Run(steps + more).turns, event)
    ensures Starts(Run(steps + more), event) == Starts(Run(steps), event)
    decreases |more|
  {
    if more == [] {
      assert steps + more == steps;
    } else {
      hide Decided;
      var init, last := more[..|more| - 1], more[|more| - 1];
      assert (steps + more)[..|steps + more| - 1] == steps + init;
      DecisionIsTheLast(steps, init, event);
      var db := Run(steps + init);
      match last {
        case Attempt(other, w) =>
          AtMostOnce(steps + init, event);
          AttemptOnce(db, event, other, w);
          if other == event { DecisionFreezes(db, event, w); } else { OthersDoNotStart(db, event, other, w); }
        case Recover(other) => AbortKeepsDecided(db.turns, event, other);
      }
    }
  }

  lemma OthersDoNotStart(db: Db, event: string, other: string, w: Weather)
    requires other != event
    ensures Starts(Recheck(db, other, w).0, event) == Starts(db, event)
  {
    hide FindTerminal, HandleEvent, CountOf;
    HandleAdds(db, other, w);
    CountAppend(db.started, other, event);
  }

  /** Nothing is lost either: in fair weather an attempt that finds no evidence answers, and is recorded. */
  lemma FairWeatherAnswers(db: Db, event: string, w: Weather)
    requires w.source.Done? && w.decide.Done? && w.verdict == Respond && FindTerminal(db, event) == Nothing
    requires w.identity.Done? && !w.skipped && w.create.Done? && !HasId(db.turns, w.turnId) && w.context.Done?
    requires w.inference.Done? && w.inferenceCompleted && w.decision.Done? && w.beforeExecution.Done?
    requires w.execution.Done? && w.complete.Done?
    ensures var (u, r) := Recheck(db, event, w);
      && r.Responded? && Starts(u, event) == Starts(db, event) + 1
      && u.turns == db.turns + [Turn(w.turnId, event, Completed, Some(w.decisionId), w.startedAt)]
  {
    hide SetStatus, SetDecision, FindTerminal;
    var t := TurnOf(event, w);
    SetOnNew(db.turns, t, Running, "");
    SetOnNew(db.turns, t.(status := Running), Running, w.decisionId);
    var d := t.(status := Running, decisionId := Some(w.decisionId));
    SetOnNew(db.turns, d, Completed, "");
    CountAppend(db.started, event, event);
    var u := HandleEvent(db, event, w).0;
    assert u.turns == db.turns + [d.(status := Completed)];
    LastIsTerminal(u, db.turns, d.(status := Completed));
  }

  lemma LastIsTerminal(db: Db, turns: seq<Turn>, t: Turn)
    requires db.turns == turns + [t] && t.status == Completed
    ensures FindTerminal(db, t.triggerEventId).Terminal?
  {
    hide TurnsOf, Delivered, Sort, Newest;
    assert t in db.turns by { assert db.turns[|turns|] == t; }
    RowsHave(db, t.triggerEventId, t);
    var rows := Sort(TurnsOf(db.turns, t.triggerEventId), Newest());
    var i :| 0 <= i < |rows| && rows[i] == t;
  }

  // ---------------------------------------------------------------- what one attempt does

  /** Without a decision to respond, or with something left by an earlier attempt, an attempt changes nothing: it
      reports the suppression or the evidence it finds, and otherwise throws or dies. */
  lemma AttemptWithoutTurn(db: Db, event: string, w: Weather)
    ensures var (u, r) := Recheck(db, event, w);
      var decided := w.source.Done? && w.decide.Done?;
      && (!decided ==>
            u == db && r == if w.source.Dies? || (w.source.Done? && w.decide.Dies?) then JobDied else JobThrows)
      && (decided && w.verdict == Suppress ==> u == db && r == Suppressed)
      && (decided && w.verdict == Respond ==>
            match FindTerminal(db, event)
            case Nothing => true
            case Terminal(turnId, delivered) => u == db && r == Responded(turnId, delivered)
            case Indeterminate => u == db && r == JobThrows)
  {
    hide FindTerminal, HandleEvent;
  }

  /** In every run in which each attempt for an event is decided to suppress, the executor never starts for it and
      it gets no turn. */
  lemma {:induction false} SuppressedIsNeverAnswered(steps: seq<Step>, event: string)
    requires forall i | 0 <= i < |steps| && steps[i].Attempt? && steps[i].event == event ::
      steps[i].weather.verdict == Suppress
    ensures Starts(Run(steps), event) == 0
    ensures forall t | t in Run(steps).turns :: t.triggerEventId != event
  {
    if steps != [] {
      var n := |steps| - 1;
      hide Starts, Next;
      SuppressedIsNeverAnswered(steps[..n], event);
      SuppressedStep(Run(steps[..n]), steps[n], event);
    }
  }

  lemma SuppressedStep(db: Db, s: Step, event: string)
    requires s.Attempt? && s.event == event ==> s.weather.verdict == Suppress
    requires forall t | t in db.turns :: t.triggerEventId != event
    ensures Starts(Next(db, s), event) == Starts(db, event)
    ensures forall t | t in Next(db, s).turns :: t.triggerEventId != event
  {
    hide Recheck, CountOf, Abort;
    match s {
      case Attempt(other, w) =>
        if other == event {
          SuppressedAttempt(db, event, w);
        } else {
          OthersDoNotStart(db, event, other, w);
          OthersLeaveNoTurn(db, event, other, w);
        }
      case Recover(other) => AbortKeepsEvents(db.turns, other);
    }
  }

  lemma SuppressedAttempt(db: Db, event: string, w: Weather)
    requires w.verdict == Suppress
    ensures Recheck(db, event, w).0 == db
  {
  }

  lemma AbortKeepsEvents(turns: seq<Turn>, other: string)
    ensures forall t | t in Abort(turns, other) :: exists x | x in turns :: x.triggerEventId == t.triggerEventId
  {
    var r := Abort(turns, other);
    forall t | t in r ensures exists x | x in turns :: x.triggerEventId == t.triggerEventId {
      var i :| 0 <= i < |r| && r[i] == t;
      assert turns[i] in turns;
    }
  }

  lemma OthersLeaveNoTurn(db: Db, event: string, other: string, w: Weather)
    requires other != event && forall t | t in db.turns :: t.triggerEventId != event
    ensures forall t | t in Recheck(db, other, w).0.turns :: t.triggerEventId != event
  {
    hide FindTerminal, HandleEvent;
    TurnLeaves(db, other, w);
    assert Recheck(db, other, w).0 == db || Recheck(db, other, w).0 == HandleEvent(db, other, w).0;
    hide Recheck, ProgressOf;
  }

  /** How far a conversation turn gets: each step is reached when all before it are carried out. */
  datatype Progress = Progress(
    created: bool, running: bool, inferred: bool, decided: bool, executing: bool, executed: bool, completed: bool)

  function ProgressOf(db: Db, w: Weather): Progress {
    var created := w.identity.Done? && !w.skipped && w.create.Done? && forall t | t in db.turns :: t.id != w.turnId;
    var running := created && w.context.Done?;
    var inferred := running && w.inference.Done? && w.inferenceCompleted;
    var decided := inferred && w.decision.Done?;
    var executing := decided && w.beforeExecution.Done?;
    var executed := executing && w.execution.Done?;
    Progress(created, running, inferred, decided, executing, executed, executed && w.complete.Done?)
  }

  /** The inference came to no end and the turn was failed for it. */
  predicate FailedInference(p: Progress, w: Weather) {
    p.running && w.inference.Done? && !w.inferenceCompleted && w.failInference.Done?
  }

  /** A step of the created turn threw. */
  predicate Threw(p: Progress, w: Weather) {
    || (p.created && w.context.Throws?)
    || (p.running && (w.inference.Throws? || (w.inference.Done? && !w.inferenceCompleted && w.failInference.Throws?)))
    || (p.inferred && w.decision.Throws?) || (p.decided && w.beforeExecution.Throws?)
    || (p.executing && w.execution.Throws?) || (p.executed && w.complete.Throws?)
  }

  function StatusOf(p: Progress, w: Weather): TurnStatus {
    if p.completed then Completed
    else if FailedInference(p, w) || (Threw(p, w) && w.markFailed.Done?) then Failed
    else if p.running then Running else Pending
  }

  /** A step threw before there was a turn. */
  predicate ThrewEarly(db: Db, w: Weather) {
    || w.identity.Throws?
    || (w.identity.Done? && !w.skipped
        && (w.create.Throws? || (w.create.Done? && exists t | t in db.turns :: t.id == w.turnId)))
  }

  /** The process died at a step, on the error path or before. */
  predicate DiedAt(db: Db, p: Progress, w: Weather) {
    || w.identity.Dies? || (w.identity.Done? && !w.skipped && w.create.Dies?) || (p.created && w.context.Dies?)
    || (p.running && (w.inference.Dies? || (w.inference.Done? && !w.inferenceCompleted && w.failInference.Dies?)))
    || (p.inferred && w.decision.Dies?) || (p.decided && w.beforeExecution.Dies?)
    || (p.executing && w.execution.Dies?) || (p.executed && w.complete.Dies?)
    || (Threw(p, w) && w.markFailed.Dies?)
    || ((Threw(p, w) || ThrewEarly(db, w)) && w.record.Dies?)
  }

  /** What a conversation turn leaves, whatever happens: its row with the status and the decision it came to, and
      the executor started with its executions exactly when execution was reached. */
  lemma TurnLeaves(db: Db, event: string, w: Weather)
    ensures var u, p := HandleEvent(db, event, w).0, ProgressOf(db, w);
      && u.turns == db.turns + (if p.created
           then [Turn(w.turnId, event, StatusOf(p, w), if p.decided then Some(w.decisionId) else None, w.startedAt)]
           else [])
      && u.started == db.started + (if p.executing then [event] else [])
      && u.executions == db.executions + (if p.executing then w.executions else [])
    ensures var p := ProgressOf(db, w);
      HandleEvent(db, event, w).1 ==
        if DiedAt(db, p, w) then Died
        else if p.completed || (w.identity.Done? && w.skipped) then ReturnsCompleted
        else if FailedInference(p, w) || w.record.Done? then ReturnsFailed else Raises
  {
    if ProgressOf(db, w).created {
      var t := TurnOf(event, w);
      var r := t.(status := Running);
      var d := r.(decisionId := Some(w.decisionId));
      SetOnNew(db.turns, t, Running, "");
      SetOnNew(db.turns, t, Failed, "");
      SetOnNew(db.turns, r, Failed, w.decisionId);
      SetOnNew(db.turns, d, Failed, "");
      SetOnNew(db.turns, d, Completed, "");
      hide SetStatus, SetDecision;
    }
  }

  /** What a fresh attempt reports: the answer exactly when every step of its turn was carried out. */
  lemma FreshAttemptReports(db: Db, event: string, w: Weather)
    requires w.source.Done? && w.decide.Done? && w.verdict == Respond && FindTerminal(db, event) == Nothing
    ensures var r, p := Recheck(db, event, w).1, ProgressOf(db, w);
      && (r.Responded? <==> p.completed)
      && (r.Responded? ==> r.turnId == w.turnId)
      && (r == JobDied <==> DiedAt(db, p, w))
      && (r == JobThrows <==> !p.completed && !DiedAt(db, p, w))
  {
    hide FindTerminal, HandleEvent;
    TurnLeaves(db, event, w);
    FreshStart(db, event);
    var u, p := HandleEvent(db, event, w).0, ProgressOf(db, w);
    if p.completed {
      var t := Turn(w.turnId, event, Completed, Some(w.decisionId), w.startedAt);
      assert u.turns == db.turns + [t];
      LastIsTerminal(u, db.turns, t);
      ReportIsEvidence(u, event);
      OnlyNewReported(db, u, event, t);
    }
    if w.identity.Done? && w.skipped { assert u.turns == db.turns && u == db; }
  }

  lemma OnlyNewReported(db: Db, u: Db, event: string, t: Turn)
    requires u.turns == db.turns + [t] && FindTerminal(db, event) == Nothing && FindTerminal(u, event).Terminal?
    ensures FindTerminal(u, event).turnId == t.id
  {
    FreshStart(db, event);
    ReportIsEvidence(u, event);
    assert forall x | x in u.turns :: x in db.turns || x == t;
    hide FindTerminal;
  }

  /** After an interruption's recovery an event can be answered afresh exactly when no turn of it carries a decision
      or was completed; turns of other events stay as they are. */
  lemma RecoveryAllowsFreshStart(db: Db, event: string)
    ensures var u := Next(db, Recover(event));
      && (FindTerminal(u, event) == Nothing <==> forall t | t in db.turns && t.triggerEventId == event ::
            t.decisionId.None? && t.status != Completed)
      && u.executions == db.executions && u.started == db.started && |u.turns| == |db.turns|
      && forall i | 0 <= i < |db.turns| :: u.turns[i].(status := db.turns[i].status) == db.turns[i]
           && (db.turns[i].triggerEventId != event ==> u.turns[i] == db.turns[i])
  {
    var u := Next(db, Recover(event));
    FreshStart(u, event);
    hide FindTerminal;
    assert forall i | 0 <= i < |db.turns| :: db.turns[i] in db.turns && u.turns[i] in u.turns;
  }

  /** A fresh attempt whose turn failed before its decision leaves the event open for the next attempt. */
  lemma FailureAllowsRetry(db: Db, event: string, w: Weather)
    requires w.source.Done? && w.decide.Done? && w.verdict == Respond && FindTerminal(db, event) == Nothing
    ensures var p := ProgressOf(db, w);
      FindTerminal(Recheck(db, event, w).0, event) == Nothing <==>
        !p.created || (!p.decided && StatusOf(p, w) == Failed)
  {
    hide FindTerminal, HandleEvent;
    TurnLeaves(db, event, w);
    FreshStart(db, event);
    var u := Recheck(db, event, w).0;
    assert u == HandleEvent(db, event, w).0;
    FreshStart(u, event);
    var p := ProgressOf(db, w);
    if p.created { assert u.turns[|db.turns|] in u.turns; }
    assert forall t | t in db.turns :: t in u.turns;
  }
}
