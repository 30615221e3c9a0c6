// The life of an admitted event: enqueued tasks race for it by compare-and-set.
module Admission {
  import opened Text
  import opened Sequences

  datatype AdmissionState = Accepted | Processing | Completed | Failed

  datatype Admission = Admission(
    state: AdmissionState,
    acceptedAt: int,
    processingStartedAt: Option<int>,
    finishedAt: Option<int>,
    handlerFailed: bool)

  datatype RejectionCode = Overloaded | QueueTimeout

  datatype FailureStage = AdmissionStage(code: RejectionCode) | HandlerStage

  datatype FailureRow = FailureRow(rawEventId: string, stage: FailureStage, occurredAt: int)

  /** Where the asynchronous task of one `enqueue` stands. */
  datatype Phase = Scheduled | Handling | Settled

  datatype Task = Task(rawEventId: string, deadlineAt: int, phase: Phase)

  datatype HandlerOutcome = HandlerCompleted | HandlerFailed

  /** The tables and lists, with the logs of handler starts, rejections won and failures recorded by handlers. */
  datatype App = App(
    admissions: map<string, Admission>,
    failures: seq<FailureRow>,
    projections: seq<string>,
    tasks: seq<Task>,
    handled: seq<string>,
    rejected: seq<string>,
    recorded: seq<string>,
    unterminated: nat)

  const EMPTY := App(map[], [], [], [], [], [], [], 0)

  /** The constraints of the admission table; an update that would break one throws and writes nothing. */
  predicate MeetsChecks(r: Admission) {
    && (r.processingStartedAt.Some? ==> r.processingStartedAt.value >= r.acceptedAt)
    && (r.finishedAt.Some? ==> r.finishedAt.value >= r.acceptedAt)
    && (r.finishedAt.Some? && r.processingStartedAt.Some? ==> r.finishedAt.value >= r.processingStartedAt.value)
    && (r.processingStartedAt.Some? <==> r.state != Accepted)
    && (r.finishedAt.Some? <==> r.state == Completed || r.state == Failed)
    && (r.handlerFailed <==> r.state == Failed)
  }

  function Max(a: int, b: int): int {
    if a >= b then a else b
  }

  predicate InState(a: App, rawId: string, s: AdmissionState) {
    rawId in a.admissions && a.admissions[rawId].state == s
  }

  function SetPhase(a: App, i: nat, phase: Phase): App
    requires i < |a.tasks|
  {
    a.(tasks := a.tasks[i := a.tasks[i].(phase := phase)])
  }

  /** `terminalizeAdmissionRejection`: one transaction, then the projection when it won. */
  function Terminalize(a: App, rawId: string, code: RejectionCode, now: int): App {
    if !InState(a, rawId, Accepted) then a
    else
      var row := a.admissions[rawId];
      var finishedAt := Max(now, row.acceptedAt);
      a.(admissions := a.admissions[rawId := Admission(Failed, row.acceptedAt, Some(finishedAt), Some(finishedAt), true)],
         failures := a.failures + [FailureRow(rawId, AdmissionStage(code), finishedAt)],
         projections := a.projections + [rawId],
         rejected := a.rejected + [rawId])
  }

  /** The synchronous start of `processAdmittedEvent`. */
  function Begin(a: App, i: nat, now: int): App
    requires i < |a.tasks|
  {
    var t := a.tasks[i];
    if now >= t.deadlineAt then SetPhase(Terminalize(a, t.rawEventId, QueueTimeout, now), i, Settled)
    else if !InState(a, t.rawEventId, Accepted) then SetPhase(a, i, Settled)
    else
      var row := a.admissions[t.rawEventId].(state := Processing, processingStartedAt := Some(now));
      if !MeetsChecks(row) then SetPhase(a, i, Settled)
      else
        var u := a.(admissions := a.admissions[t.rawEventId := row], handled := a.handled + [t.rawEventId]);
        SetPhase(u, i, Handling)
  }

  /** The end of `processAdmittedEvent`, after the handler has returned. */
  function Finish(a: App, i: nat, outcome: HandlerOutcome, now: int): App
    requires i < |a.tasks|
  {
    var rawId := a.tasks[i].rawEventId;
    var u := SetPhase(a, i, Settled);
    if !InState(a, rawId, Processing) then u.(unterminated := u.unterminated + 1)
    else
      var row := Closed(u.admissions[rawId], outcome, now);
      if MeetsChecks(row) then u.(admissions := u.admissions[rawId := row]) else u
  }

  function Closed(row: Admission, outcome: HandlerOutcome, now: int): Admission {
    row.(state := if outcome == HandlerFailed then Failed else Completed,
         finishedAt := Some(now), handlerFailed := outcome == HandlerFailed)
  }

  /** `recordEventProcessingFailure`, called by a running handler; the row may fail to persist. */
  function RecordFailure(a: App, rawId: string, now: int, persists: bool): App {
    a.(projections := a.projections + [rawId], recorded := a.recorded + [rawId],
       failures := a.failures + if persists then [FailureRow(rawId, HandlerStage, now)] else [])
  }

  // ---------------------------------------------------------------- the service as an object

  class TurnApplicationService {
    const turnTimeoutMs: int
    var admissions: map<string, Admission>
    var failures: seq<FailureRow>
    var projections: seq<string>
    var tasks: seq<Task>
    var handled: seq<string>
    var rejected: seq<string>
    var recorded: seq<string>
    var unterminated: nat

    function State(): App
      reads this
    {
      App(admissions, failures, projections, tasks, handled, rejected, recorded, unterminated)
    }

    constructor (timeoutMs: int)
      ensures turnTimeoutMs == timeoutMs && State() == EMPTY
    {
      turnTimeoutMs := timeoutMs;
      admissions, failures, projections, tasks := map[], [], [], [];
      handled, rejected, recorded, unterminated := [], [], [], 0;
    }

    method Enqueue(rawId: string, acceptedAt: int) returns (task: nat)
      modifies this
      ensures task == |old(tasks)|
      ensures State() == old(State()).(tasks := old(tasks) + [Task(rawId, acceptedAt + turnTimeoutMs, Scheduled)])
    {
      task := |tasks|;
      tasks := tasks + [Task(rawId, acceptedAt + turnTimeoutMs, Scheduled)];
    }

    method TerminalizeRejection(rawId: string, code: RejectionCode, now: int)
      modifies this
      ensures State() == Terminalize(old(State()), rawId, code, now)
    {
      if !(rawId in admissions && admissions[rawId].state == Accepted) { return; }
      var row := admissions[rawId];
      var finishedAt := Max(now, row.acceptedAt);
      admissions := admissions[rawId := row.(
        state := Failed, processingStartedAt := Some(finishedAt), finishedAt := Some(finishedAt), handlerFailed := true)];
      failures := failures + [FailureRow(rawId, AdmissionStage(code), finishedAt)];
      projections := projections + [rawId];
      rejected := rejected + [rawId];
    }

    method SettleTask(i: nat, phase: Phase)
      requires i < |tasks|
      modifies this
      ensures State() == SetPhase(old(State()), i, phase)
    {
      tasks := tasks[i := tasks[i].(phase := phase)];
    }

    /** The admission controller refused the task before it ran. */
    method OnRejection(i: nat, code: RejectionCode, now: int)
      requires i < |tasks|
      modifies this
      ensures State() == SetPhase(Terminalize(old(State()), old(tasks)[i].rawEventId, code, now), i, Settled)
    {
      TerminalizeRejection(tasks[i].rawEventId, code, now);
      SettleTask(i, Settled);
    }

    /** Returns whether the handler is to be called; when the table refuses the row, the source throws. */
    method BeginProcessing(i: nat, now: int) returns (started: bool)
      requires i < |tasks|
      modifies this
      ensures State() == Begin(old(State()), i, now) && started == (State().tasks[i].phase == Handling)
    {
      var t := tasks[i];
      if now >= t.deadlineAt {
        TerminalizeRejection(t.rawEventId, QueueTimeout, now);
        SettleTask(i, Settled);
        return false;
      }
      if !(t.rawEventId in admissions && admissions[t.rawEventId].state == Accepted) {
        SettleTask(i, Settled);
        return false;
      }
      var row := admissions[t.rawEventId].(state := Processing, processingStartedAt := Some(now));
      if !MeetsChecks(row) {
        SettleTask(i, Settled);
        return false;
      }
      admissions := admissions[t.rawEventId := row];
      handled := handled + [t.rawEventId];
      SettleTask(i, Handling);
      return true;
    }

    /** Returns whether the admission could be terminalized; otherwise the source throws. */
    method FinishProcessing(i: nat, outcome: HandlerOutcome, now: int) returns (terminalized: bool)
      requires i < |tasks|
      modifies this
      ensures State() == Finish(old(State()), i, outcome, now)
      ensures terminalized ==
        (InState(old(State()), old(tasks)[i].rawEventId, Processing)
         && MeetsChecks(Closed(old(admissions)[old(tasks)[i].rawEventId], outcome, now)))
    {
      var rawId := tasks[i].rawEventId;
      SettleTask(i, Settled);
      if !(rawId in admissions && admissions[rawId].state == Processing) {
        unterminated := unterminated + 1;
        return false;
      }
      var row := Closed(admissions[rawId], outcome, now);
      if !MeetsChecks(row) { return false; }
      admissions := admissions[rawId := row];
      return true;
    }

    method RecordEventProcessingFailure(rawId: string, now: int, persists: bool)
      modifies this
      ensures State() == RecordFailure(old(State()), rawId, now, persists)
    {
      projections := projections + [rawId];
      recorded := recorded + [rawId];
      if persists { failures := failures + [FailureRow(rawId, HandlerStage, now)]; }
      assert !persists ==> failures == failures + [];
    }
  }

  // ---------------------------------------------------------------- runs

  datatype Step =
    | AdmitStep(rawId: string, acceptedAt: int)
    | EnqueueStep(rawId: string, deadlineAt: int)
    | RejectStep(task: nat, code: RejectionCode, now: int)
    | BeginStep(task: nat, now: int)
    | RecordStep(task: nat, now: int, persists: bool)
    | FinishStep(task: nat, outcome: HandlerOutcome, now: int)
    | HandlerThrows(task: nat)

  predicate InPhase(a: App, i: nat, phase: Phase) {
    i < |a.tasks| && a.tasks[i].phase == phase
  }

  /** A step of some task, when that task is where the step happens; otherwise nothing. */
  function Next(a: App, s: Step): App {
    match s
    case AdmitStep(rawId, acceptedAt) =>
      if rawId in a.admissions then a
      else a.(admissions := a.admissions[rawId := Admission(Accepted, acceptedAt, None, None, false)])
    case EnqueueStep(rawId, deadlineAt) => a.(tasks := a.tasks + [Task(rawId, deadlineAt, Scheduled)])
    case RejectStep(i, code, now) =>
      if InPhase(a, i, Scheduled) then SetPhase(Terminalize(a, a.tasks[i].rawEventId, code, now), i, Settled) else a
    case BeginStep(i, now) => if InPhase(a, i, Scheduled) then Begin(a, i, now) else a
    case RecordStep(i, now, persists) =>
      if InPhase(a, i, Handling) then RecordFailure(a, a.tasks[i].rawEventId, now, persists) else a
    case FinishStep(i, outcome, now) => if InPhase(a, i, Handling) then Finish(a, i, outcome, now) else a
    case HandlerThrows(i) => if InPhase(a, i, Handling) then SetPhase(a, i, Settled) else a
  }

  function Run(steps: seq<Step>): App {
    if steps == [] then EMPTY else Next(Run(steps[..|steps| - 1]), steps[|steps| - 1])
  }

  /** The failure rows that rejections wrote for an event. */
  function RejectionRows(rows: seq<FailureRow>, x: string): nat {
    |Filter(rows, ByRejection(x))|
  }

  function ByRejection(x: string): FailureRow -> bool {
    (f: FailureRow) => f.rawEventId == x && f.stage.AdmissionStage?
  }

  lemma RowsAppend(rows: seq<FailureRow>, f: FailureRow, x: string)
    ensures RejectionRows(rows + [f], x) == RejectionRows(rows, x) +
      if f.rawEventId == x && f.stage.AdmissionStage? then 1 else 0
  {
    FilterAppend(rows, [f], ByRejection(x));
    assert [f][1..] == [];
  }

  /** What every run keeps about one event. */
  predicate Settles(a: App, x: string) {
    && CountOf(a.handled, x) + CountOf(a.rejected, x) ==
         (if x in a.admissions && a.admissions[x].state != Accepted then 1 else 0)
    && RejectionRows(a.failures, x) == CountOf(a.rejected, x)
    && CountOf(a.projections, x) == CountOf(a.rejected, x) + CountOf(a.recorded, x)
    && (CountOf(a.rejected, x) > 0 ==>
          && x in a.admissions && a.admissions[x].state == Failed
          && a.admissions[x].finishedAt.Some? && a.admissions[x].finishedAt.value >= a.admissions[x].acceptedAt)
  }

  /** A running handler owns its event: the event is being processed, by one task. */
  predicate Owned(a: App) {
    && (forall i | 0 <= i < |a.tasks| && a.tasks[i].phase == Handling :: InState(a, a.tasks[i].rawEventId, Processing))
    && (forall i, j | 0 <= i < j < |a.tasks| && a.tasks[i].phase == Handling && a.tasks[j].phase == Handling ::
          a.tasks[i].rawEventId != a.tasks[j].rawEventId)
    && a.unterminated == 0
  }

  lemma TerminalizeOwned(a: App, rawId: string, code: RejectionCode, now: int)
    requires Owned(a)
    ensures Owned(Terminalize(a, rawId, code, now)) && Terminalize(a, rawId, code, now).tasks == a.tasks
  {
  }

  lemma SettleOwned(a: App, i: nat)
    requires Owned(a) && i < |a.tasks|
    ensures Owned(SetPhase(a, i, Settled))
  {
  }

  lemma BeginOwned(a: App, i: nat, now: int)
    requires Owned(a) && InPhase(a, i, Scheduled)
    ensures Owned(Begin(a, i, now))
  {
    TerminalizeOwned(a, a.tasks[i].rawEventId, QueueTimeout, now);
    SettleOwned(Terminalize(a, a.tasks[i].rawEventId, QueueTimeout, now), i);
    SettleOwned(a, i);
    hide Terminalize;
  }

  lemma NextOwned(a: App, s: Step)
    requires Owned(a)
    ensures Owned(Next(a, s))
  {
    match s {
      case RejectStep(i, code, now) =>
        if InPhase(a, i, Scheduled) {
          TerminalizeOwned(a, a.tasks[i].rawEventId, code, now);
          SettleOwned(Terminalize(a, a.tasks[i].rawEventId, code, now), i);
          hide Terminalize, SetPhase, Owned;
        }
      case BeginStep(i, now) =>
        hide Begin, Owned;
        if InPhase(a, i, Scheduled) { BeginOwned(a, i, now); }
      case FinishStep(i, outcome, now) =>
      case HandlerThrows(i) => if InPhase(a, i, Handling) { SettleOwned(a, i); }
      case _ =>
    }
  }

  lemma TerminalizeSettles(a: App, rawId: string, code: RejectionCode, now: int, x: string)
    requires Settles(a, x)
    ensures Settles(Terminalize(a, rawId, code, now), x)
  {
    hide CountOf, RejectionRows;
    if InState(a, rawId, Accepted) {
      var f := FailureRow(rawId, AdmissionStage(code), Max(now, a.admissions[rawId].acceptedAt));
      CountAppend(a.rejected, rawId, x);
      CountAppend(a.projections, rawId, x);
      RowsAppend(a.failures, f, x);
    }
  }

  lemma NextSettles(a: App, s: Step, x: string)
    requires Owned(a) && Settles(a, x)
    ensures Settles(Next(a, s), x)
  {
    hide CountOf, RejectionRows;
    match s {
      case RejectStep(i, code, now) =>
        if InPhase(a, i, Scheduled) { TerminalizeSettles(a, a.tasks[i].rawEventId, code, now, x); }
      case BeginStep(i, now) =>
        if InPhase(a, i, Scheduled) {
          TerminalizeSettles(a, a.tasks[i].rawEventId, QueueTimeout, now, x);
          CountAppend(a.handled, a.tasks[i].rawEventId, x);
        }
      case RecordStep(i, now, persists) =>
        if InPhase(a, i, Handling) {
          var rawId := a.tasks[i].rawEventId;
          CountAppend(a.projections, rawId, x);
          CountAppend(a.recorded, rawId, x);
          RowsAppend(a.failures, FailureRow(rawId, HandlerStage, now), x);
          assert a.failures + [] == a.failures;
        }
      case _ =>
    }
  }

  /** In every interleaving: an event leaves the accepted state exactly once, by one handler start or by one
      rejection; each rejection that wins writes one failure row and one projection and finishes no earlier than
      acceptance; and a handler that returns finds its event still being processed. */
  lemma {:induction false} EventsSettleOnce(steps: seq<Step>)
    ensures Owned(Run(steps))
    ensures forall x :: Settles(Run(steps), x)
  {
    if steps != [] {
      hide Settles, Owned, Next;
      var init := steps[..|steps| - 1];
      EventsSettleOnce(init);
      NextOwned(Run(init), steps[|steps| - 1]);
      forall x ensures Settles(Run(steps), x) { NextSettles(Run(init), steps[|steps| - 1], x); }
    } else {
      assert Run(steps) == EMPTY;
    }
  }

  /** The handler of an event runs at most once, and never when a rejection won; when it returns, no other task has
      closed its event. */
  lemma HandlerRunsAtMostOnce(steps: seq<Step>, x: string)
    ensures CountOf(Run(steps).handled, x) <= 1
    ensures CountOf(Run(steps).handled, x) + CountOf(Run(steps).rejected, x) <= 1
    ensures Run(steps).unterminated == 0
  {
    EventsSettleOnce(steps);
    assert Settles(Run(steps), x);
  }

  /** The order of the states: accepted, then processing, then a terminal one, or accepted and then failed. */
  predicate MayFollow(s: AdmissionState, t: AdmissionState) {
    s == t || (s == Accepted && (t == Processing || t == Failed)) || (s == Processing && (t == Completed || t == Failed))
  }

  /** No step moves an event's state in any other way, or forgets the event or when it was accepted. */
  lemma StatesOnlyAdvance(a: App, s: Step, x: string)
    requires x in a.admissions
    ensures x in Next(a, s).admissions
    ensures MayFollow(a.admissions[x].state, Next(a, s).admissions[x].state)
    ensures Next(a, s).admissions[x].acceptedAt == a.admissions[x].acceptedAt
  {
  }

  predicate Terminal(s: AdmissionState) {
    s == Completed || s == Failed
  }

  /** A terminal row never changes again, whatever runs afterwards. */
  lemma {:induction false} TerminalStays(steps: seq<Step>, more: seq<Step>, x: string)
    requires x in Run(steps).admissions && Terminal(Run(steps).admissions[x].state)
    ensures x in Run(steps + more).admissions && Run(steps + more).admissions[x] == Run(steps).admissions[x]
    decreases |more|
  {
    if more == [] {
      assert steps + more == steps;
    } else {
      TerminalStays(steps, more[..|more| - 1], x);
      assert (steps + more)[..|steps + more| - 1] == steps + more[..|more| - 1];
      TerminalStep(Run(steps + more[..|more| - 1]), more[|more| - 1], x);
    }
  }

  lemma TerminalStep(a: App, s: Step, x: string)
    requires x in a.admissions && Terminal(a.admissions[x].state)
    ensures x in Next(a, s).admissions && Next(a, s).admissions[x] == a.admissions[x]
  {
  }

  // ---------------------------------------------------------------- the constraints of the table

  ghost predicate AllMeetChecks(a: App) {
    forall x | x in a.admissions :: MeetsChecks(a.admissions[x])
  }

  /** In every run each row meets the table's constraints; so the table never refuses a rejection. */
  lemma {:induction false} RowsMeetChecks(steps: seq<Step>)
    ensures AllMeetChecks(Run(steps))
  {
    if steps != [] {
      var init := steps[..|steps| - 1];
      RowsMeetChecks(init);
      ChecksStep(Run(init), steps[|steps| - 1]);
    }
  }

  lemma ChecksStep(a: App, s: Step)
    requires AllMeetChecks(a)
    ensures AllMeetChecks(Next(a, s))
  {
  }

  lemma RunMore(steps: seq<Step>, s: Step)
    ensures Run(steps + [s]) == Next(Run(steps), s)
  {
    assert (steps + [s])[..|steps|] == steps;
  }

  /** A task due before its deadline starts the handler of an accepted event exactly when the clock is not behind
      the acceptance; otherwise the event stays accepted without its task. */
  lemma StartsExactly(steps: seq<Step>, i: nat, now: int)
    requires InPhase(Run(steps), i, Scheduled) && now < Run(steps).tasks[i].deadlineAt
    requires InState(Run(steps), Run(steps).tasks[i].rawEventId, Accepted)
    ensures var a, u := Run(steps), Run(steps + [BeginStep(i, now)]);
      var x := a.tasks[i].rawEventId;
      && (InPhase(u, i, Handling) <==> now >= a.admissions[x].acceptedAt)
      && (InState(u, x, Processing) <==> now >= a.admissions[x].acceptedAt)
      && (now < a.admissions[x].acceptedAt ==> u == SetPhase(a, i, Settled))
  {
    RunMore(steps, BeginStep(i, now));
    RowsMeetChecks(steps);
    assert MeetsChecks(Run(steps).admissions[Run(steps).tasks[i].rawEventId]);
    hide Run;
  }

  /** In every run the end of a handler is recorded, with its outcome, exactly when the clock is not behind its
      start. */
  lemma ClosesExactly(steps: seq<Step>, i: nat, outcome: HandlerOutcome, now: int)
    requires InPhase(Run(steps), i, Handling)
    ensures var a, u := Run(steps), Run(steps + [FinishStep(i, outcome, now)]);
      var x := a.tasks[i].rawEventId;
      && InState(a, x, Processing) && x in u.admissions && a.admissions[x].processingStartedAt.Some?
      && (Terminal(u.admissions[x].state) <==> now >= a.admissions[x].processingStartedAt.value)
      && (now >= a.admissions[x].processingStartedAt.value ==>
            u.admissions[x] == a.admissions[x].(
              state := if outcome == HandlerCompleted then Completed else Failed, finishedAt := Some(now),
              handlerFailed := outcome == HandlerFailed))
      && (now < a.admissions[x].processingStartedAt.value ==> u == SetPhase(a, i, Settled))
  {
    RunMore(steps, FinishStep(i, outcome, now));
    RowsMeetChecks(steps);
    EventsSettleOnce(steps);
    assert Owned(Run(steps)) && MeetsChecks(Run(steps).admissions[Run(steps).tasks[i].rawEventId]);
    hide Run;
  }

  /** The event is being processed, but no task is at it. */
  predicate Abandoned(a: App, x: string) {
    InState(a, x, Processing)
    && forall i | 0 <= i < |a.tasks| && a.tasks[i].phase == Handling :: a.tasks[i].rawEventId != x
  }

  lemma AbandonedStep(a: App, s: Step, x: string)
    requires Abandoned(a, x)
    ensures Abandoned(Next(a, s), x) && Next(a, s).admissions[x] == a.admissions[x]
  {
  }

  lemma {:induction false} AbandonedStays(steps: seq<Step>, more: seq<Step>, x: string)
    requires Abandoned(Run(steps), x)
    ensures Abandoned(Run(steps + more), x) && Run(steps + more).admissions[x] == Run(steps).admissions[x]
    decreases |more|
  {
    hide Abandoned, Run, Next;
    if more == [] {
      assert steps + more == steps;
    } else {
      var n := |more| - 1;
      AbandonedStays(steps, more[..n], x);
      assert steps + more == steps + more[..n] + [more[n]];
      RunMore(steps + more[..n], more[n]);
      AbandonedStep(Run(steps + more[..n]), more[n], x);
    }
  }

  /** When the end of a handler cannot be recorded, its event is being processed for ever. */
  lemma UnclosedStays(steps: seq<Step>, i: nat, outcome: HandlerOutcome, now: int, more: seq<Step>)
    requires InPhase(Run(steps), i, Handling)
    ensures var a, u := Run(steps), Run(steps + [FinishStep(i, outcome, now)] + more);
      var x := a.tasks[i].rawEventId;
      && x in a.admissions && a.admissions[x].processingStartedAt.Some?
      && (now < a.admissions[x].processingStartedAt.value ==> InState(u, x, Processing))
  {
    ClosesExactly(steps, i, outcome, now);
    EventsSettleOnce(steps);
    var a, x := Run(steps), Run(steps).tasks[i].rawEventId;
    if now < a.admissions[x].processingStartedAt.value {
      assert Abandoned(SetPhase(a, i, Settled), x) by { hide Run; }
      AbandonedStays(steps + [FinishStep(i, outcome, now)], more, x);
    }
  }

  /** The clock steps back by a millisecond while the handler runs. */
  const BACK_STEPS := [AdmitStep("e", 1000), EnqueueStep("e", 2000), BeginStep(0, 1000)]

  /** The handler completes, its event never does. */
  lemma ClockStepsBack(more: seq<Step>)
    ensures InState(Run(BACK_STEPS + [FinishStep(0, HandlerCompleted, 999)] + more), "e", Processing)
  {
    BackStepsHandling();
    UnclosedStays(BACK_STEPS, 0, HandlerCompleted, 999, more);
  }

  lemma BackStepsHandling()
    ensures var a := Run(BACK_STEPS);
      InPhase(a, 0, Handling) && a.tasks[0].rawEventId == "e" && "e" in a.admissions
      && a.admissions["e"].processingStartedAt == Some(1000)
  {
    var s := BACK_STEPS;
    assert [] + [s[0]] == s[..1] && s[..1] + [s[1]] == s[..2] && s[..2] + [s[2]] == s;
    RunMore([], s[0]);
    RunMore(s[..1], s[1]);
    RunMore(s[..2], s[2]);
  }

  /** What a rejection makes of an accepted event. */
  predicate RejectedWith(a: App, u: App, x: string, code: RejectionCode, now: int)
    requires x in a.admissions
  {
    var acceptedAt := a.admissions[x].acceptedAt;
    var at := if now < acceptedAt then acceptedAt else now;
    && u.admissions == a.admissions[x := Admission(Failed, acceptedAt, Some(at), Some(at), true)]
    && u.failures == a.failures + [FailureRow(x, AdmissionStage(code), at)]
    && u.projections == a.projections + [x] && u.rejected == a.rejected + [x] && u.handled == a.handled
  }

  /** A task that is refused, or that begins at its deadline or later, rejects its event if that is still accepted,
      and otherwise does nothing; its handler does not run. */
  lemma RejectionsWin(steps: seq<Step>, s: Step)
    requires s.RejectStep? || s.BeginStep?
    requires InPhase(Run(steps), s.task, Scheduled)
    requires s.BeginStep? ==> s.now >= Run(steps).tasks[s.task].deadlineAt
    ensures var a, u := Run(steps), Run(steps + [s]);
      var x := a.tasks[s.task].rawEventId;
      && InPhase(u, s.task, Settled)
      && if InState(a, x, Accepted)
         then RejectedWith(a, u, x, if s.RejectStep? then s.code else QueueTimeout, s.now)
         else u == SetPhase(a, s.task, Settled)
  {
    RunMore(steps, s);
  }

  /** A handler that records a failure adds a projection, and a row unless that cannot be stored; it changes no
      state. */
  lemma RecordingAdds(steps: seq<Step>, i: nat, now: int, persists: bool)
    requires InPhase(Run(steps), i, Handling)
    ensures var a, u := Run(steps), Run(steps + [RecordStep(i, now, persists)]);
      var x := a.tasks[i].rawEventId;
      && u.admissions == a.admissions && u.tasks == a.tasks && u.projections == a.projections + [x]
      && u.failures == a.failures + if persists then [FailureRow(x, HandlerStage, now)] else []
  {
    RunMore(steps, RecordStep(i, now, persists));
  }
}
