// Who may act: the service builds a plan from the evaluator's verdict, and an independent validator recomputes
// what was authorised before the decision is stored.
module Authorization {
  import opened Text
  import opened Sequences
  import opened Actions
  import opened Cooldown

  datatype Request = Request(
    requestId: string,
    isSocial: bool,
    turnId: string,
    sourceEventIds: seq<string>,
    proposedAction: ActionPlan)

  datatype Evidence = Evidence(request: Request, result: SocialResult)

  datatype DecidedBy = ByAttention | ByPi | ByEvaluator

  datatype DecisionInput = DecisionInput(
    turnId: string,
    decidedBy: DecidedBy,
    actions: seq<ActionPlan>,
    riskLevel: Risk,
    confidence: real,
    reasons: seq<string>,
    suppressors: seq<string>,
    evaluatorRequired: bool,
    evaluatorPassed: Option<bool>,
    evidence: Option<Evidence>)

  datatype AuthorityError =
    | EvidenceRequired | WrongTurn | WrongRequest | WrongDomain | NotDecidedByEvaluator | NotRequired
    | PassedMismatch | RiskMismatch | ConfidenceMismatch | ProhibitedRisk | SourceIdsInvalid | TriggerMissing
    | SourceUnknown | NotSilent | Evaluation(cause: ApplyError) | NotAuthorized

  // ---------------------------------------------------------------- the validator

  function ReasonPrefix(t: ActionType): string {
    "Downgraded from " + TypeName(t) + "; cooldown active for "
  }

  /** The reason names an outward action type as the one whose cooldown is active. */
  predicate NamesActive(reason: string, t: ActionType) {
    ReasonPrefix(t) <= reason && exists active | Eligible(active) :: reason[|ReasonPrefix(t)|..] == TypeName(active)
  }

  /** The action is the silent form an authorised one takes under a cooldown. */
  predicate SuppressedForm(authorized: ActionPlan, action: ActionPlan, suppressors: seq<string>) {
    && NamesActive(action.reason, authorized.kind)
    && Governed(authorized)
    && Suppressor(KeyOf(authorized)) in suppressors
    && action == ActionPlan(SilentStore, authorized.priority, authorized.target, None, authorized.constraints,
                            action.reason)
  }

  predicate CanonicalSuppression(authorized: seq<ActionPlan>, actions: seq<ActionPlan>, suppressors: seq<string>) {
    && |authorized| == |actions|
    && (forall a | a in actions :: a.kind == SilentStore)
    && forall i | 0 <= i < |actions| ::
         actions[i] == authorized[i] || SuppressedForm(authorized[i], actions[i], suppressors)
  }

  function ValidateEvidence(input: DecisionInput, e: Evidence, triggerEventId: string, events: set<string>)
    : Option<AuthorityError>
  {
    var passed := Passing(e.result.decision);
    var ids := e.request.sourceEventIds;
    if e.request.turnId != input.turnId then Some(WrongTurn)
    else if e.result.requestId != e.request.requestId then Some(WrongRequest)
    else if !e.request.isSocial || !e.result.isSocial then Some(WrongDomain)
    else if input.decidedBy != ByEvaluator then Some(NotDecidedByEvaluator)
    else if !input.evaluatorRequired then Some(NotRequired)
    else if input.evaluatorPassed != Some(passed) then Some(PassedMismatch)
    else if input.riskLevel != e.result.riskLevel then Some(RiskMismatch)
    else if input.confidence != e.result.confidence then Some(ConfidenceMismatch)
    else if passed && e.result.riskLevel == Prohibited then Some(ProhibitedRisk)
    else if "" in ids then Some(SourceIdsInvalid)
    else if triggerEventId !in ids then Some(TriggerMissing)
    else if exists id | id in ids :: id !in events then Some(SourceUnknown)
    else if !passed then
      if exists a | a in input.actions :: a.kind != SilentStore then Some(NotSilent) else None
    else
      match ApplyPassing([e.request.proposedAction], e.result)
      case Err(x) => Some(Evaluation(x))
      case Ok(authorized) =>
        if input.actions == authorized.actions
           || CanonicalSuppression(authorized.actions, input.actions, input.suppressors)
        then None else Some(NotAuthorized)
  }

  /** `validateDecisionAuthority`. */
  function ValidateAuthority(input: DecisionInput, triggerEventId: string, events: set<string>): Option<AuthorityError> {
    if input.evidence.Some? then ValidateEvidence(input, input.evidence.value, triggerEventId, events)
    else if input.decidedBy == ByEvaluator || input.evaluatorPassed == Some(true)
            || (input.evaluatorPassed == Some(false) && !input.evaluatorRequired)
    then Some(EvidenceRequired)
    else None
  }

  // ---------------------------------------------------------------- the producer

  datatype Signals = Signals(
    needsEvaluation: bool, triggerReasons: seq<string>, suppressors: seq<string>, triggerScore: real)

  datatype Event = Event(
    rawEventId: string,
    conversationId: string,
    isGroup: bool,
    groupId: Option<string>,
    senderId: string,
    mentionsBot: bool)

  datatype DecisionRequest = DecisionRequest(
    turnId: string,
    event: Event,
    responseText: string,
    signals: Signals,
    canonicalUserId: Option<string>,
    requestId: string)

  /** The evaluator's answer: its call failed, or it returned a result. */
  datatype Answer = EvaluatorFails | Answered(result: SocialResult)

  datatype DecisionError =
    | RequestMismatch | EvaluationInvalid(cause: ApplyError) | Unauthorized(error: AuthorityError)
    | TurnMissing | EvaluatorUnbound

  /** What the store is asked and does beside the validation: the trigger event of the request's turn, if the turn
      exists; the known events; whether an evaluation is bound to its model invocation; and the payload an action
      keeps once its claims about memory have been checked. */
  datatype Repository = Repository(
    trigger: Option<string>,
    events: set<string>,
    bound: Evidence -> bool,
    guard: ActionPlan -> Option<Payload>)

  const CLAIM_SUPPRESSOR := "memory_claim_truthfulness_guard"

  function IsProactive(r: DecisionRequest): bool {
    Trim(r.responseText) != "" && r.event.isGroup && !r.event.mentionsBot && "reply_to_bot" !in r.signals.triggerReasons
  }

  predicate StrongTrigger(reasons: seq<string>) {
    "@bot" in reasons || "reply_to_bot" in reasons || "command" in reasons
  }

  function BuildPlan(r: DecisionRequest): ActionPlan {
    var text, e := Trim(r.responseText), r.event;
    var target := Target(e.conversationId, e.isGroup, if e.isGroup then None else Some(e.senderId),
                         if e.isGroup then None else r.canonicalUserId, e.groupId);
    var required := r.signals.needsEvaluation || IsProactive(r);
    if text == "" then
      ActionPlan(SilentStore, 0.0, Some(target), None,
        Constraints(Some(required), None, None, None, None, None, Some(IsProactive(r)), None),
        "Pi returned no outbound response")
    else
      var kind := if e.isGroup then ReplyShort else ReplyFull;
      var seconds := if e.isGroup && !StrongTrigger(r.signals.triggerReasons) then 60.0 else 0.0;
      var key := (if e.isGroup then "group" else "private") + ":" + e.conversationId + ":" + TypeName(kind);
      ActionPlan(kind, 100.0, Some(target), Some(Payload(Some(text), None, None, None, None, None)),
        Constraints(Some(required), Some(key), Some(seconds), Some(if e.isGroup then 256.0 else 1024.0),
                    Some(if e.isGroup then Strict else Light), None, Some(IsProactive(r)), None),
        "Pi produced response text")
  }

  function Silence(a: ActionPlan, reason: string): ActionPlan {
    ActionPlan(SilentStore, a.priority, a.target, None, a.constraints, reason)
  }

  predicate RequiresEvaluator(r: DecisionRequest) {
    r.signals.needsEvaluation || BuildPlan(r).constraints.evaluatorRequired == Some(true)
  }

  function VerdictName(v: Verdict): string {
    match v case Approve => "approve" case Reject => "reject" case Downgrade => "downgrade" case Propose => "propose"
  }

  /** `sanitize` is the redaction of narratives. */
  function ApplyEvaluation(actions: seq<ActionPlan>, e: SocialResult, sanitize: string -> string)
    : Result<Applied, ApplyError>
  {
    if !Passing(e.decision) then
      Ok(Applied(seq(|actions|, i requires 0 <= i < |actions| =>
                   Silence(actions[i], sanitize("Evaluator " + VerdictName(e.decision) + ": " + e.reason))),
                 ["evaluator_" + VerdictName(e.decision)]))
    else ApplyPassing(actions, e)
  }

  function BaseReasons(r: DecisionRequest): seq<string> {
    r.signals.triggerReasons + [if Trim(r.responseText) != "" then "pi_response_text" else "pi_empty_response"]
  }

  function RequestOf(r: DecisionRequest): Request {
    Request(r.requestId, true, r.turnId, [r.event.rawEventId], BuildPlan(r))
  }

  function FailedInput(r: DecisionRequest): DecisionInput {
    DecisionInput(r.turnId, ByPi, [Silence(BuildPlan(r), "Evaluator review failed; governed action suppressed")],
      MediumRisk, r.signals.triggerScore, BaseReasons(r) + ["evaluator_failure"],
      r.signals.suppressors + ["evaluator_terminal_failure"], true, Some(false), None)
  }

  function PlainInput(r: DecisionRequest, cooled: Applied): DecisionInput {
    DecisionInput(r.turnId, ByPi, cooled.actions, LowRisk, r.signals.triggerScore, BaseReasons(r),
      r.signals.suppressors + cooled.suppressors, false, None, None)
  }

  function EvaluatedInput(
    r: DecisionRequest, e: SocialResult, evaluated: Applied, cooled: Applied, sanitize: string -> string): DecisionInput
  {
    DecisionInput(r.turnId, ByEvaluator, cooled.actions, e.riskLevel, e.confidence,
      BaseReasons(r) + [sanitize("evaluator:" + e.reason)],
      r.signals.suppressors + evaluated.suppressors + cooled.suppressors, true, Some(Passing(e.decision)),
      Some(Evidence(RequestOf(r), e)))
  }

  function Guarded(a: ActionPlan, repo: Repository): ActionPlan {
    a.(payload := repo.guard(a))
  }

  /** The decision as it is stored. */
  function Checked(input: DecisionInput, repo: Repository): DecisionInput {
    var actions := seq(|input.actions|, i requires 0 <= i < |input.actions| => Guarded(input.actions[i], repo));
    if actions == input.actions then input
    else input.(actions := actions, suppressors := Distinct(input.suppressors + [CLAIM_SUPPRESSOR]))
  }

  /** `createDecisionSync`. */
  function Store(input: DecisionInput, repo: Repository): Result<DecisionInput, DecisionError> {
    if repo.trigger.None? then Err(TurnMissing)
    else
      var error := ValidateAuthority(input, repo.trigger.value, repo.events);
      if error.Some? then Err(Unauthorized(error.value))
      else if input.evidence.Some? && !repo.bound(input.evidence.value) then Err(EvaluatorUnbound)
      else Ok(Checked(input, repo))
  }

  function Sanitized(e: SocialResult, sanitize: string -> string): SocialResult {
    e.(reason := sanitize(e.reason))
  }

  /** What one call does to the cooldowns and what it stores. */
  function Produce(
    entries: Entries, now: int, r: DecisionRequest, answer: Answer, sanitize: string -> string, repo: Repository)
    : (Entries, Result<DecisionInput, DecisionError>)
  {
    if !RequiresEvaluator(r) then
      var (after, cooled) := ApplyBatch(entries, [BuildPlan(r)], now);
      (after, Store(PlainInput(r, cooled), repo))
    else if answer.EvaluatorFails? then (entries, Store(FailedInput(r), repo))
    else if answer.result.requestId != r.requestId then (entries, Err(RequestMismatch))
    else
      var e := Sanitized(answer.result, sanitize);
      match ApplyEvaluation([BuildPlan(r)], e, sanitize)
      case Err(x) => (entries, Err(EvaluationInvalid(x)))
      case Ok(evaluated) =>
        var (after, cooled) := ApplyBatch(entries, evaluated.actions, now);
        (after, Store(EvaluatedInput(r, e, evaluated, cooled, sanitize), repo))
  }

  class SocialDecisionService {
    const cooldowns: ActionCooldownManager

    constructor (manager: ActionCooldownManager)
      ensures cooldowns == manager
    {
      cooldowns := manager;
    }

    method CreateDecision(
      r: DecisionRequest, answer: Answer, now: int, sanitize: string -> string, repo: Repository)
      returns (stored: Result<DecisionInput, DecisionError>)
      modifies cooldowns
      ensures (cooldowns.entries, stored) == Produce(old(cooldowns.entries), now, r, answer, sanitize, repo)
    {
      hide BuildPlan, ApplyPassing, ApplyBatch, Store;
      var plan := BuildPlan(r);
      if !RequiresEvaluator(r) {
        var cooled := cooldowns.Apply([plan], now);
        return Store(PlainInput(r, cooled), repo);
      }
      if answer.EvaluatorFails? { return Store(FailedInput(r), repo); }
      if answer.result.requestId != r.requestId { return Err(RequestMismatch); }
      var e := Sanitized(answer.result, sanitize);
      var evaluated := ApplyEvaluation([plan], e, sanitize);
      if evaluated.Err? { return Err(EvaluationInvalid(evaluated.error)); }
      var cooled := cooldowns.Apply(evaluated.value.actions, now);
      return Store(EvaluatedInput(r, e, evaluated.value, cooled, sanitize), repo);
    }
  }

  // ---------------------------------------------------------------- producer and validator agree

  /** Cooldowns are started by outward actions only. */
  predicate OutwardOnly(entries: Entries) {
    forall k | k in entries :: Eligible(entries[k].actionType)
  }

  lemma {:induction false} BatchOutwardOnly(entries: Entries, actions: seq<ActionPlan>, now: int)
    requires OutwardOnly(entries)
    ensures OutwardOnly(ApplyBatch(entries, actions, now).0)
  {
    if actions != [] { BatchOutwardOnly(entries, actions[..|actions| - 1], now); }
  }

  lemma SilencedNames(a: ActionType, active: ActionType)
    requires Eligible(active)
    ensures NamesActive(SilencedReason(a, active), a)
  {
    hide TypeName, Eligible;
    assert SilencedReason(a, active) == ReasonPrefix(a) + TypeName(active);
  }

  /** The form a cooldown gives an action is the form the validator knows. */
  lemma SilencedIsCanonical(entries: Entries, a: ActionPlan, now: int, suppressors: seq<string>)
    requires OutwardOnly(entries) && Blocked(entries, a, now) && Suppressor(KeyOf(a)) in suppressors
    ensures SuppressedForm(a, Silenced(a, entries[KeyOf(a)].actionType), suppressors)
  {
    SilencedNames(a.kind, entries[KeyOf(a)].actionType);
    hide NamesActive, Governed, SilencedReason;
  }

  /** What the validator authorises for one action is what some state of the cooldowns makes of it. */
  predicate FromSomeCooldown(authorized: ActionPlan, actions: seq<ActionPlan>, suppressors: seq<string>) {
    |actions| == 1
    && (actions[0] == authorized
        || exists active | Eligible(active) ::
             && Governed(authorized) && actions[0] == Silenced(authorized, active)
             && Suppressor(KeyOf(authorized)) in suppressors)
  }

  /** The validator accepts a plan under an authorised action exactly when it is that action, or its silenced
      form with its suppressor; a silenced plan consists of silent storing only. */
  lemma AcceptedExactly(authorized: ActionPlan, actions: seq<ActionPlan>, suppressors: seq<string>)
    ensures actions == [authorized] || CanonicalSuppression([authorized], actions, suppressors)
      <==> FromSomeCooldown(authorized, actions, suppressors)
  {
    hide TypeName, Governed, Eligible;
    if CanonicalSuppression([authorized], actions, suppressors) && actions != [authorized] {
      assert SuppressedForm(authorized, actions[0], suppressors);
      var p := ReasonPrefix(authorized.kind);
      var active :| Eligible(active) && actions[0].reason[|p|..] == TypeName(active);
      assert actions[0].reason == p + TypeName(active) == SilencedReason(authorized.kind, active);
      assert actions[0] == Silenced(authorized, active);
    }
    if FromSomeCooldown(authorized, actions, suppressors) && actions != [authorized] {
      var active :| Eligible(active) && Governed(authorized) && actions[0] == Silenced(authorized, active)
        && Suppressor(KeyOf(authorized)) in suppressors;
      SilencedNames(authorized.kind, active);
      assert SuppressedForm(authorized, actions[0], suppressors);
    }
  }

  /** Such a form does come from a state of the cooldowns: one in which the named action's cooldown runs. */
  lemma EveryFormArises(a: ActionPlan, active: ActionType, now: int)
    requires Governed(a) && Eligible(active)
    ensures var entries := map[KeyOf(a) := Entry(now as real + 1.0, active)];
      OutwardOnly(entries)
      && ApplyBatch(entries, [a], now).1 == Applied([Silenced(a, active)], [Suppressor(KeyOf(a))])
  {
    OneCharge(map[KeyOf(a) := Entry(now as real + 1.0, active)], a, now);
  }

  /** A result the service can act on, for a turn triggered by the event it was asked about. */
  predicate WellFormed(r: DecisionRequest, e: SocialResult, repo: Repository) {
    && e.requestId == r.requestId
    && e.isSocial
    && (e.decision == Downgrade ==> e.downgradeAction.Some? && e.downgradeAction.value.source == BuildPlan(r).kind)
    && (Passing(e.decision) ==> e.riskLevel != Prohibited)
    && r.event.rawEventId != "" && repo.trigger == Some(r.event.rawEventId) && r.event.rawEventId in repo.events
  }

  lemma EvaluationDefined(a: ActionPlan, e: SocialResult, sanitize: string -> string)
    ensures ApplyEvaluation([a], e, sanitize).Ok? <==>
      (e.decision == Downgrade ==> e.downgradeAction.Some? && e.downgradeAction.value.source == a.kind)
    ensures ApplyEvaluation([a], e, sanitize).Ok? ==>
      |ApplyEvaluation([a], e, sanitize).value.actions| == 1
      && (!Passing(e.decision) ==> ApplyEvaluation([a], e, sanitize).value.actions[0].kind == SilentStore)
  {
    assert a in [a];
    hide Anchor, DowngradeOne;
  }

  lemma OneSuppressed(a: ActionPlan, s: ActionPlan, suppressors: seq<string>)
    requires SuppressedForm(a, s, suppressors)
    ensures CanonicalSuppression([a], [s], suppressors)
  {
    hide NamesActive, Governed;
  }

  /** The plan built from a result, whatever the cooldowns hold, passes the validator's test of actions. */
  lemma BuiltPlanAccepted(
    entries: Entries, now: int, r: DecisionRequest, e: SocialResult, sanitize: string -> string)
    requires OutwardOnly(entries) && ApplyEvaluation([BuildPlan(r)], e, sanitize).Ok?
    ensures var evaluated := ApplyEvaluation([BuildPlan(r)], e, sanitize).value;
      var cooled := ApplyBatch(entries, evaluated.actions, now).1;
      var suppressors := r.signals.suppressors + evaluated.suppressors + cooled.suppressors;
      if Passing(e.decision) then
        cooled.actions == evaluated.actions || CanonicalSuppression(evaluated.actions, cooled.actions, suppressors)
      else forall a | a in cooled.actions :: a.kind == SilentStore
  {
    EvaluationDefined(BuildPlan(r), e, sanitize);
    var evaluated := ApplyEvaluation([BuildPlan(r)], e, sanitize).value;
    var a := evaluated.actions[0];
    hide BuildPlan, ApplyEvaluation, ApplyBatch, Silenced, SuppressedForm, Governed, Suppressor, CanonicalSuppression;
    assert evaluated.actions == [a];
    OneCharge(entries, a, now);
    if Blocked(entries, a, now) {
      var before := r.signals.suppressors + evaluated.suppressors;
      assert (before + [Suppressor(KeyOf(a))])[|before|] == Suppressor(KeyOf(a));
      SilencedIsCanonical(entries, a, now, before + [Suppressor(KeyOf(a))]);
      OneSuppressed(a, Silenced(a, entries[KeyOf(a)].actionType), before + [Suppressor(KeyOf(a))]);
    }
  }

  /** For every state of the cooldowns and every time: a decision under an answered evaluation passes the
      validation exactly when the result is well formed, and is then stored exactly when the evaluation is bound
      to its model invocation. */
  lemma AcceptedIffWellFormed(
    entries: Entries, now: int, r: DecisionRequest, result: SocialResult, sanitize: string -> string, repo: Repository)
    requires OutwardOnly(entries) && RequiresEvaluator(r)
    ensures Produce(entries, now, r, Answered(result), sanitize, repo).1.Ok? <==>
      WellFormed(r, result, repo) && repo.bound(Evidence(RequestOf(r), Sanitized(result, sanitize)))
  {
    hide BuildPlan, ApplyBatch, CanonicalSuppression, RequiresEvaluator, ApplyPassing, Checked;
    var e := Sanitized(result, sanitize);
    EvaluationDefined(BuildPlan(r), e, sanitize);
    if ApplyEvaluation([BuildPlan(r)], e, sanitize).Ok? {
      BuiltPlanAccepted(entries, now, r, e, sanitize);
    }
  }

  /** Every decision leaves the cooldowns started by outward actions only. */
  lemma ProduceOutwardOnly(
    entries: Entries, now: int, r: DecisionRequest, answer: Answer, sanitize: string -> string, repo: Repository)
    requires OutwardOnly(entries)
    ensures OutwardOnly(Produce(entries, now, r, answer, sanitize, repo).0)
  {
    hide BuildPlan, ApplyBatch, OutwardOnly, Store, RequiresEvaluator;
    BatchOutwardOnly(entries, [BuildPlan(r)], now);
    if answer.Answered? {
      var evaluated := ApplyEvaluation([BuildPlan(r)], Sanitized(answer.result, sanitize), sanitize);
      if evaluated.Ok? { BatchOutwardOnly(entries, evaluated.value.actions, now); }
    }
  }

  /** Without an evaluation, or when the evaluator fails, the decision is stored exactly when its turn exists;
      after a failure it is silent. */
  lemma UnevaluatedStored(
    entries: Entries, now: int, r: DecisionRequest, answer: Answer, sanitize: string -> string, repo: Repository)
    requires !RequiresEvaluator(r) || answer.EvaluatorFails?
    ensures var stored := Produce(entries, now, r, answer, sanitize, repo).1;
      && (stored.Ok? <==> repo.trigger.Some?)
      && (stored.Ok? && RequiresEvaluator(r) ==> forall a | a in stored.value.actions :: a.kind == SilentStore)
  {
    hide BuildPlan, ApplyBatch;
  }

  /** What the validator demands of any decision: without evidence, that it claims no evaluation; with it, that the
      evidence is of this turn, one social request and its result, and known events among them the turn's trigger,
      that the decision repeats the result's risk and confidence, and that its actions are the authorised one, or
      the form a cooldown gives it, or silent when the result does not pass. */
  lemma ValidatedExactly(input: DecisionInput, triggerEventId: string, events: set<string>)
    ensures ValidateAuthority(input, triggerEventId, events).None? <==>
      if input.evidence.None? then
        && input.decidedBy != ByEvaluator && input.evaluatorPassed != Some(true)
        && (input.evaluatorPassed == Some(false) ==> input.evaluatorRequired)
      else
        var q, e := input.evidence.value.request, input.evidence.value.result;
        var passed := e.decision == Approve || e.decision == Downgrade;
        && q.turnId == input.turnId && q.isSocial && e.isSocial && e.requestId == q.requestId
        && triggerEventId in q.sourceEventIds && "" !in q.sourceEventIds
        && (forall id | id in q.sourceEventIds :: id in events)
        && input.decidedBy == ByEvaluator && input.evaluatorRequired && input.evaluatorPassed == Some(passed)
        && input.riskLevel == e.riskLevel && input.confidence == e.confidence
        && (passed ==> e.riskLevel != Prohibited)
        && if !passed then forall a | a in input.actions :: a.kind == SilentStore
           else
             var applied := ApplyPassing([q.proposedAction], e);
             applied.Ok? && FromSomeCooldown(applied.value.actions[0], input.actions, input.suppressors)
  {
    if input.evidence.Some? {
      var q, e := input.evidence.value.request, input.evidence.value.result;
      var applied := ApplyPassing([q.proposedAction], e);
      if applied.Ok? {
        EvaluationNeverLoosens(q.proposedAction, e);
        assert applied.value.actions == [applied.value.actions[0]];
        AcceptedExactly(applied.value.actions[0], input.actions, input.suppressors);
      }
      hide ApplyPassing, CanonicalSuppression, FromSomeCooldown;
    }
  }

  /** Whoever builds it: a decision accepted under a passing result is exactly the authorised plan, or consists
      of silent storing in the form a cooldown gives; under any other result it consists of silent storing. */
  lemma AcceptedIsAuthorized(input: DecisionInput, triggerEventId: string, events: set<string>)
    requires input.evidence.Some? && ValidateAuthority(input, triggerEventId, events).None?
    ensures var e := input.evidence.value;
      if Passing(e.result.decision) then
        var applied := ApplyPassing([e.request.proposedAction], e.result);
        && applied.Ok? && |applied.value.actions| == 1
        && FromSomeCooldown(applied.value.actions[0], input.actions, input.suppressors)
        && (input.actions == applied.value.actions || forall a | a in input.actions :: a.kind == SilentStore)
      else forall a | a in input.actions :: a.kind == SilentStore
  {
    var e := input.evidence.value;
    if Passing(e.result.decision) {
      var applied := ApplyPassing([e.request.proposedAction], e.result).value;
      EvaluationNeverLoosens(e.request.proposedAction, e.result);
      hide ApplyPassing, CanonicalSuppression;
      assert applied.actions == [applied.actions[0]];
      AcceptedExactly(applied.actions[0], input.actions, input.suppressors);
    }
  }
}
