// How far apart the unprompted replies in one group conversation are kept.
module ReplySpacing {
  import opened Text
  import opened Sequences
  import opened Actions
  import opened Cooldown
  import opened Authorization

  /** One call of the decision service. */
  datatype Step = Step(request: DecisionRequest, answer: Answer, now: int, repo: Repository)

  type Sanitizer = string -> string

  type Stored = Result<DecisionInput, DecisionError>

  /** The action that the step submits to the cooldowns, if it gets that far. */
  function Submitted(s: Step, sanitize: Sanitizer): Option<ActionPlan> {
    if !RequiresEvaluator(s.request) then Some(BuildPlan(s.request))
    else if s.answer.EvaluatorFails? || s.answer.result.requestId != s.request.requestId then None
    else
      var evaluated := ApplyEvaluation([BuildPlan(s.request)], Sanitized(s.answer.result, sanitize), sanitize);
      if evaluated.Err? || |evaluated.value.actions| != 1 then None else Some(evaluated.value.actions[0])
  }

  function ProduceStep(entries: Entries, s: Step, sanitize: Sanitizer): (Entries, Stored) {
    Produce(entries, s.now, s.request, s.answer, sanitize, s.repo)
  }

  function EntriesOf(steps: seq<Step>, sanitize: Sanitizer): Entries {
    if steps == [] then map[] else ProduceStep(EntriesOf(steps[..|steps| - 1], sanitize), steps[|steps| - 1], sanitize).0
  }

  /** The calls that a run of the service makes on the cooldowns. */
  function CallsOf(steps: seq<Step>, sanitize: Sanitizer): seq<Call> {
    if steps == [] then []
    else
      var s := steps[|steps| - 1];
      CallsOf(steps[..|steps| - 1], sanitize)
      + match Submitted(s, sanitize) case None => [] case Some(a) => [Call(a, s.now)]
  }

  /** The actions by which the executor sends something to the conversation. */
  predicate Delivers(t: ActionType) {
    t == ReplyShort || t == ReplyFull || t == ReplyWithTool || t == AskClarification
    || t == DmUser || t == ReactOnly || t == SendFoldedForward
  }

  /** A stored decision that sends something. */
  predicate Speaks(stored: Stored) {
    stored.Ok? && exists a | a in stored.value.actions :: Delivers(a.kind)
  }

  // ---------------------------------------------------------------- one step

  /** Guarding the claims of actions changes no kind. */
  lemma CheckedKinds(input: DecisionInput, repo: Repository)
    ensures var c := Checked(input, repo).actions;
      |c| == |input.actions| && forall i | 0 <= i < |c| :: c[i].kind == input.actions[i].kind
  {
  }

  lemma StoreOf(input: DecisionInput, repo: Repository)
    ensures Store(input, repo).Ok? ==> Store(input, repo).value == Checked(input, repo)
  {
    hide ValidateAuthority, Checked;
  }

  lemma StoreSpeaks(input: DecisionInput, repo: Repository)
    ensures Speaks(Store(input, repo)) <==> Store(input, repo).Ok? && exists a | a in input.actions :: Delivers(a.kind)
  {
    hide Store, Checked, Delivers;
    StoreOf(input, repo);
    CheckedKinds(input, repo);
    var c := Checked(input, repo).actions;
    if i :| 0 <= i < |input.actions| && Delivers(input.actions[i].kind) {
      assert c[i] in c;
    }
    if i :| 0 <= i < |c| && Delivers(c[i].kind) {
      assert input.actions[i] in input.actions;
    }
  }

  /** A step charges the cooldowns with the action it submits. */
  lemma StepCharges(entries: Entries, s: Step, sanitize: Sanitizer)
    ensures ProduceStep(entries, s, sanitize).0 ==
      match Submitted(s, sanitize) case None => entries case Some(a) => Charge(entries, a, s.now)
  {
    hide BuildPlan, ApplyEvaluation, ApplyBatch, Store, RequiresEvaluator, Charge, Blocked, Silenced;
    var plan := BuildPlan(s.request);
    OneCharge(entries, plan, s.now);
    if s.answer.Answered? {
      var evaluated := ApplyEvaluation([plan], Sanitized(s.answer.result, sanitize), sanitize);
      EvaluationDefined(plan, Sanitized(s.answer.result, sanitize), sanitize);
      if evaluated.Ok? {
        assert evaluated.value.actions == [evaluated.value.actions[0]];
        OneCharge(entries, evaluated.value.actions[0], s.now);
      }
    }
  }

  /** A step speaks only by the action it submits, and only if no cooldown blocks it; nothing else of the
      cooldowns matters. */
  lemma StepSpeaks(entries: Entries, s: Step, sanitize: Sanitizer)
    ensures Speaks(ProduceStep(entries, s, sanitize).1) ==>
      && Submitted(s, sanitize).Some? && Delivers(Submitted(s, sanitize).value.kind)
      && !Blocked(entries, Submitted(s, sanitize).value, s.now)
    ensures Submitted(s, sanitize).Some? && !Blocked(entries, Submitted(s, sanitize).value, s.now) ==>
      ProduceStep(entries, s, sanitize).1 == ProduceStep(map[], s, sanitize).1
  {
    hide BuildPlan, ApplyEvaluation, ApplyBatch, Store, RequiresEvaluator, Governed, Speaks, SilencedReason;
    var plan := BuildPlan(s.request);
    OneCharge(entries, plan, s.now);
    OneCharge(map[], plan, s.now);
    if !RequiresEvaluator(s.request) {
      StoreSpeaks(PlainInput(s.request, ApplyBatch(entries, [plan], s.now).1), s.repo);
    } else if s.answer.EvaluatorFails? {
      StoreSpeaks(FailedInput(s.request), s.repo);
    } else {
      var e := Sanitized(s.answer.result, sanitize);
      var evaluated := ApplyEvaluation([plan], e, sanitize);
      EvaluationDefined(plan, e, sanitize);
      if evaluated.Ok? {
        var a := evaluated.value.actions[0];
        assert evaluated.value.actions == [a];
        OneCharge(entries, a, s.now);
        OneCharge(map[], a, s.now);
        StoreSpeaks(EvaluatedInput(s.request, e, evaluated.value, ApplyBatch(entries, [a], s.now).1, sanitize), s.repo);
      }
      FailedDoesNotSpeak();
    }
  }

  lemma FailedDoesNotSpeak()
    ensures forall x: DecisionError :: !Speaks(Err(x))
  {
  }

  /** The step answers a message of the group conversation that did not address the bot strongly. */
  predicate Unprompted(s: Step, conversationId: string) {
    && s.request.event.isGroup && s.request.event.conversationId == conversationId
    && !StrongTrigger(s.request.signals.triggerReasons) && Trim(s.request.responseText) != ""
  }

  /** The evaluator lets a clarifying question go out in place of the reply: by its downgrade's target or by the
      kind of its modified action. */
  predicate AsksInstead(s: Step) {
    && RequiresEvaluator(s.request) && s.answer.Answered? && Passing(s.answer.result.decision)
    && var e := s.answer.result;
    if e.decision == Downgrade then e.downgradeAction.Some? && e.downgradeAction.value.target == AskClarification
    else e.modifiedAction.Some? && e.modifiedAction.value.kind == AskClarification
  }

  function ReplyKey(conversationId: string): string {
    "group:" + conversationId + ":reply_short"
  }

  /** Under a cooldown of at least a minute on the conversation's key. */
  predicate UnderReplyKey(a: ActionPlan, conversationId: string) {
    Governed(a) && KeyOf(a) == ReplyKey(conversationId) && a.constraints.cooldownSeconds.value >= 60.0
  }

  lemma PlanOf(s: Step, conversationId: string)
    requires Unprompted(s, conversationId)
    ensures var plan := BuildPlan(s.request);
      && plan.kind == ReplyShort && plan.constraints.cooldownSeconds == Some(60.0)
      && plan.constraints.cooldownKey == Some(ReplyKey(conversationId)) && ReplyKey(conversationId) != ""
  {
    assert "group" + ":" + conversationId + ":" + TypeName(ReplyShort) == ReplyKey(conversationId);
    assert ReplyKey(conversationId)[0] == 'g';
  }

  lemma PassingKind(proposed: ActionPlan, e: SocialResult)
    requires ApplyPassing([proposed], e).Ok?
    ensures var r := ApplyPassing([proposed], e).value.actions;
      |r| == 1 && r[0].kind ==
        if e.decision == Downgrade then e.downgradeAction.value.target
        else if e.modifiedAction.Some? then e.modifiedAction.value.kind else proposed.kind
  {
    assert proposed in [proposed];
  }

  /** What an unprompted step submits for delivery is under the conversation's key, also after the evaluator has
      changed it, unless it is a clarifying question, which no cooldown governs. */
  lemma SubmittedIsGoverned(s: Step, conversationId: string, sanitize: Sanitizer)
    requires Unprompted(s, conversationId)
    ensures Submitted(s, sanitize).Some? && Delivers(Submitted(s, sanitize).value.kind) ==>
      var a := Submitted(s, sanitize).value;
      if AsksInstead(s) then !Governed(a) else UnderReplyKey(a, conversationId)
  {
    PlanOf(s, conversationId);
    var plan := BuildPlan(s.request);
    hide BuildPlan, ReplyKey;
    if RequiresEvaluator(s.request) && s.answer.Answered? {
      var e := Sanitized(s.answer.result, sanitize);
      EvaluationDefined(plan, e, sanitize);
      if Passing(e.decision) && ApplyPassing([plan], e).Ok? {
        EvaluationNeverLoosens(plan, e);
        PassingKind(plan, e);
        hide ApplyPassing;
      }
    }
  }

  /** While the conversation's cooldown runs, an unprompted step that could speak does so exactly when the
      evaluator makes it a clarifying question. */
  lemma SilencedExactly(entries: Entries, s: Step, conversationId: string, sanitize: Sanitizer)
    requires Unprompted(s, conversationId) && ReplyKey(conversationId) in entries
    requires entries[ReplyKey(conversationId)].expiresAt > s.now as real
    ensures Speaks(ProduceStep(map[], s, sanitize).1) ==>
      (Speaks(ProduceStep(entries, s, sanitize).1) <==> AsksInstead(s))
  {
    hide ProduceStep, Submitted, Governed, Speaks, Unprompted, AsksInstead, ReplyKey;
    SubmittedIsGoverned(s, conversationId, sanitize);
    StepSpeaks(map[], s, sanitize);
    StepSpeaks(entries, s, sanitize);
  }

  // ---------------------------------------------------------------- runs

  lemma {:induction false} EntriesAreCalls(steps: seq<Step>, sanitize: Sanitizer)
    ensures EntriesOf(steps, sanitize) == EntriesAfter(CallsOf(steps, sanitize))
  {
    if steps != [] {
      hide ProduceStep, Submitted, Charge;
      var init, s := steps[..|steps| - 1], steps[|steps| - 1];
      EntriesAreCalls(init, sanitize);
      StepCharges(EntriesOf(init, sanitize), s, sanitize);
      var calls := CallsOf(init, sanitize);
      if Submitted(s, sanitize).Some? {
        var call := Call(Submitted(s, sanitize).value, s.now);
        assert (calls + [call])[..|calls|] == calls && (calls + [call])[|calls|] == call;
      } else {
        assert calls + [] == calls;
      }
    }
  }

  /** In every run cooldowns are started by outward actions only, so that what is well formed is accepted. */
  lemma {:induction false} RunOutwardOnly(steps: seq<Step>, sanitize: Sanitizer)
    ensures OutwardOnly(EntriesOf(steps, sanitize))
  {
    if steps != [] {
      hide OutwardOnly, Produce;
      var init, s := steps[..|steps| - 1], steps[|steps| - 1];
      RunOutwardOnly(init, sanitize);
      ProduceOutwardOnly(EntriesOf(init, sanitize), s.now, s.request, s.answer, sanitize, s.repo);
    } else {
      assert EntriesOf(steps, sanitize) == map[];
    }
  }

  /** After any run a further decision is stored exactly when its result is well formed and bound. */
  lemma AcceptedInRuns(steps: seq<Step>, s: Step, sanitize: Sanitizer)
    requires RequiresEvaluator(s.request) && s.answer.Answered?
    ensures ProduceStep(EntriesOf(steps, sanitize), s, sanitize).1.Ok? <==>
      WellFormed(s.request, s.answer.result, s.repo)
      && s.repo.bound(Evidence(RequestOf(s.request), Sanitized(s.answer.result, sanitize)))
  {
    hide OutwardOnly, Produce, WellFormed, RequiresEvaluator;
    RunOutwardOnly(steps, sanitize);
    AcceptedIffWellFormed(EntriesOf(steps, sanitize), s.now, s.request, s.answer.result, sanitize, s.repo);
  }

  lemma {:induction false} CallsPrefix(steps: seq<Step>, i: nat, sanitize: Sanitizer)
    requires i <= |steps|
    ensures CallsOf(steps[..i], sanitize) <= CallsOf(steps, sanitize)
  {
    hide Submitted;
    if i == |steps| {
      assert steps[..i] == steps;
    } else {
      CallsPrefix(steps[..|steps| - 1], i, sanitize);
      assert steps[..|steps| - 1][..i] == steps[..i];
    }
  }

  /** Step `i` of the run speaks. */
  predicate SpeaksAt(steps: seq<Step>, i: nat, sanitize: Sanitizer)
    requires i < |steps|
  {
    Speaks(ProduceStep(EntriesOf(steps[..i], sanitize), steps[i], sanitize).1)
  }

  /** The call of step `i` stands at place `k` of the run of the cooldowns, let through under the key. */
  predicate ChargedAt(steps: seq<Step>, i: nat, k: nat, conversationId: string, sanitize: Sanitizer)
    requires i < |steps|
  {
    var calls := CallsOf(steps, sanitize);
    && k == |CallsOf(steps[..i], sanitize)| < |CallsOf(steps[..i + 1], sanitize)| && k < |calls|
    && calls[k].now == steps[i].now && UnderReplyKey(calls[k].action, conversationId) && Charged(calls, k)
  }

  lemma SpeakingIsCharged(steps: seq<Step>, i: nat, conversationId: string, sanitize: Sanitizer)
    requires i < |steps|
    ensures SpeaksAt(steps, i, sanitize) && Unprompted(steps[i], conversationId) && !AsksInstead(steps[i]) ==>
      ChargedAt(steps, i, |CallsOf(steps[..i], sanitize)|, conversationId, sanitize)
  {
    hide ProduceStep, Submitted, Governed, Speaks, AsksInstead, Unprompted, ReplyKey;
    if SpeaksAt(steps, i, sanitize) && Unprompted(steps[i], conversationId) && !AsksInstead(steps[i]) {
      var entries := EntriesOf(steps[..i], sanitize);
      StepSpeaks(entries, steps[i], sanitize);
      var a := Submitted(steps[i], sanitize).value;
      SubmittedIsGoverned(steps[i], conversationId, sanitize);
      var calls, before := CallsOf(steps, sanitize), CallsOf(steps[..i], sanitize);
      CallsPrefix(steps, i + 1, sanitize);
      assert steps[..i + 1][..i] == steps[..i];
      assert CallsOf(steps[..i + 1], sanitize) == before + [Call(a, steps[i].now)];
      assert calls[..|before|] == before;
      EntriesAreCalls(steps[..i], sanitize);
    }
  }

  /** In every run of the service: two unprompted steps of one group conversation that both speak are at least
      60 seconds apart, in whatever order the times come, if neither is a clarifying question of the evaluator. */
  lemma UnpromptedRepliesAreSpaced(steps: seq<Step>, i: nat, j: nat, conversationId: string, sanitize: Sanitizer)
    requires i < j < |steps| && Unprompted(steps[i], conversationId) && Unprompted(steps[j], conversationId)
    requires !AsksInstead(steps[i]) && !AsksInstead(steps[j])
    ensures SpeaksAt(steps, i, sanitize) && SpeaksAt(steps, j, sanitize) ==> steps[j].now >= steps[i].now + 60000
  {
    hide SpeaksAt, Unprompted, Submitted, Governed, AsksInstead;
    if SpeaksAt(steps, i, sanitize) && SpeaksAt(steps, j, sanitize) {
      SpeakingIsCharged(steps, i, conversationId, sanitize);
      SpeakingIsCharged(steps, j, conversationId, sanitize);
      var k, l := |CallsOf(steps[..i], sanitize)|, |CallsOf(steps[..j], sanitize)|;
      CallsPrefix(steps[..j], i + 1, sanitize);
      assert steps[..j][..i + 1] == steps[..i + 1];
      ChargesAreSeparated(CallsOf(steps, sanitize), k, l);
    }
  }

  // ---------------------------------------------------------------- when the spacing holds

  /** In every run in which both speak, `t` comes at least 60 seconds after `s`. */
  ghost predicate AlwaysSpaced(s: Step, t: Step, sanitize: Sanitizer) {
    forall steps: seq<Step>, i: nat, j: nat | i < j < |steps| && BothAt(steps, i, j, s, t, sanitize) ::
      t.now >= s.now + 60000
  }

  ghost predicate BothAt(steps: seq<Step>, i: nat, j: nat, s: Step, t: Step, sanitize: Sanitizer)
    requires i < |steps| && j < |steps|
  {
    steps[i] == s && steps[j] == t && SpeaksAt(steps, i, sanitize) && SpeaksAt(steps, j, sanitize)
  }

  lemma SecondSpeaks(s: Step, t: Step, conversationId: string, sanitize: Sanitizer)
    requires Unprompted(s, conversationId) && Unprompted(t, conversationId) && (AsksInstead(s) || AsksInstead(t))
    ensures Speaks(ProduceStep(map[], s, sanitize).1) && Speaks(ProduceStep(map[], t, sanitize).1) ==>
      SpeaksAt([s, t], 0, sanitize) && SpeaksAt([s, t], 1, sanitize)
  {
    hide ProduceStep, Submitted, Governed, Speaks, AsksInstead, Unprompted, ReplyKey, UnderReplyKey;
    assert [s, t][..0] == [] && [s, t][..1] == [s] && [s][..0] == [];
    assert EntriesOf([], sanitize) == map[];
    var entries := EntriesOf([s], sanitize);
    assert entries == ProduceStep(map[], s, sanitize).0;
    StepCharges(map[], s, sanitize);
    StepSpeaks(map[], s, sanitize);
    StepSpeaks(map[], t, sanitize);
    StepSpeaks(entries, t, sanitize);
    SubmittedIsGoverned(s, conversationId, sanitize);
    SubmittedIsGoverned(t, conversationId, sanitize);
  }

  /** Two unprompted steps of one group conversation that can speak are kept 60 seconds apart by every run exactly
      when they are that far apart anyway or the evaluator makes neither a clarifying question. */
  lemma SpacingHoldsExactly(s: Step, t: Step, conversationId: string, sanitize: Sanitizer)
    requires Unprompted(s, conversationId) && Unprompted(t, conversationId)
    ensures Speaks(ProduceStep(map[], s, sanitize).1) && Speaks(ProduceStep(map[], t, sanitize).1) ==>
      (AlwaysSpaced(s, t, sanitize) <==> t.now >= s.now + 60000 || (!AsksInstead(s) && !AsksInstead(t)))
  {
    hide ProduceStep, Speaks, AsksInstead, Unprompted, SpeaksAt;
    if AsksInstead(s) || AsksInstead(t) {
      SecondSpeaks(s, t, conversationId, sanitize);
      if SpeaksAt([s, t], 0, sanitize) && SpeaksAt([s, t], 1, sanitize) {
        assert BothAt([s, t], 0, 1, s, t, sanitize);
      }
    } else {
      forall steps: seq<Step>, i: nat, j: nat | i < j < |steps| && BothAt(steps, i, j, s, t, sanitize)
        ensures t.now >= s.now + 60000
      {
        UnpromptedRepliesAreSpaced(steps, i, j, conversationId, sanitize);
      }
    }
  }

  // ---------------------------------------------------------------- two questions at one moment

  function Asked(): DecisionRequest {
    DecisionRequest("turn", Event("event", "conversation", true, Some("group"), "user", false), "x",
      Signals(true, [], [], 0.5), None, "request")
  }

  function AskInstead(): SocialResult {
    SocialResult("decision", "request", true, Downgrade, "", 1.0, LowRisk,
      Some(DowngradeAction(ReplyShort, AskClarification, "unclear")), None, None)
  }

  /** The turn is there, the evaluation is bound, and no claim needs correcting. */
  function Quiet(): Repository {
    Repository(Some("event"), {"event"}, (_: Evidence) => true, (a: ActionPlan) => a.payload)
  }

  function Question(): Step {
    Step(Asked(), Answered(AskInstead()), 0, Quiet())
  }

  lemma QuestionShape()
    ensures Unprompted(Question(), "conversation") && RequiresEvaluator(Asked())
  {
    assert TrimStart("x") == "x" && TrimEnd("x") == "x" && Trim("x") == "x";
  }

  lemma QuestionSpeaks(sanitize: Sanitizer)
    ensures Unprompted(Question(), "conversation") && AsksInstead(Question())
    ensures Speaks(ProduceStep(map[], Question(), sanitize).1)
  {
    QuestionShape();
    PlanOf(Question(), "conversation");
    var plan, e := BuildPlan(Asked()), Sanitized(AskInstead(), sanitize);
    hide BuildPlan, Trim, RequiresEvaluator, Unprompted, ReplyKey;
    AcceptedIffWellFormed(map[], 0, Asked(), AskInstead(), sanitize, Quiet());
    EvaluationDefined(plan, e, sanitize);
    PassingKind(plan, e);
    var evaluated := ApplyEvaluation([plan], e, sanitize).value;
    hide ApplyEvaluation, ApplyPassing, Store, Speaks, ApplyBatch;
    assert evaluated.actions == [evaluated.actions[0]];
    OneCharge(map[], evaluated.actions[0], 0);
    StoreSpeaks(EvaluatedInput(Asked(), e, evaluated, Applied(evaluated.actions, []), sanitize), Quiet());
  }

  /** Two clarifying questions nobody asked for can go out in one group at the same millisecond. */
  lemma QuestionsAreNotSpaced(sanitize: Sanitizer)
    ensures Unprompted(Question(), "conversation")
    ensures SpeaksAt([Question(), Question()], 0, sanitize) && SpeaksAt([Question(), Question()], 1, sanitize)
  {
    QuestionSpeaks(sanitize);
    hide ProduceStep, Speaks, AsksInstead, Unprompted, SpeaksAt, Question;
    SecondSpeaks(Question(), Question(), "conversation", sanitize);
  }
}
