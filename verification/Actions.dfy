// Action plans, the constraints they carry and the evaluator's verdicts on them.
module Actions {
  import opened Text
  import opened Sequences

  datatype ActionType =
    | SilentStore | SilentSummarizeLater | ReplyShort | ReplyFull | ReplyWithTool | ProposeMemory | AdminDigest
    | ScheduleBackgroundTask | DmUser | ReactOnly | SendFoldedForward | AskClarification

  function TypeName(t: ActionType): string {
    match t
    case SilentStore => "silent_store"
    case SilentSummarizeLater => "silent_summarize_later"
    case ReplyShort => "reply_short"
    case ReplyFull => "reply_full"
    case ReplyWithTool => "reply_with_tool"
    case ProposeMemory => "propose_memory"
    case AdminDigest => "admin_digest"
    case ScheduleBackgroundTask => "schedule_background_task"
    case DmUser => "dm_user"
    case ReactOnly => "react_only"
    case SendFoldedForward => "send_folded_forward"
    case AskClarification => "ask_clarification"
  }

  datatype Target = Target(
    conversationId: string,
    isGroup: bool,
    userId: Option<string>,
    canonicalUserId: Option<string>,
    groupId: Option<string>)

  /** A requested background task; its own payload is kept as text. */
  datatype BackgroundTask = BackgroundTask(taskType: string, payload: Option<string>)

  datatype Payload = Payload(
    text: Option<string>,
    toolCall: Option<string>,
    memoryProposal: Option<string>,
    backgroundTask: Option<BackgroundTask>,
    reaction: Option<string>,
    messageId: Option<string>)

  datatype Redaction = NoRedaction | Light | Strict

  datatype Constraints = Constraints(
    evaluatorRequired: Option<bool>,
    cooldownKey: Option<string>,
    cooldownSeconds: Option<real>,
    maxResponseTokens: Option<real>,
    redactionLevel: Option<Redaction>,
    capabilities: Option<seq<string>>,
    proactive: Option<bool>,
    proactiveTrigger: Option<string>)

  datatype ActionPlan = ActionPlan(
    kind: ActionType,
    priority: real,
    target: Option<Target>,
    payload: Option<Payload>,
    constraints: Constraints,
    reason: string)

  datatype Verdict = Approve | Reject | Downgrade | Propose

  datatype Risk = LowRisk | MediumRisk | HighRisk | Prohibited

  datatype DowngradeAction = DowngradeAction(source: ActionType, target: ActionType, reason: string)

  datatype SocialResult = SocialResult(
    decisionId: string,
    requestId: string,
    isSocial: bool,
    decision: Verdict,
    reason: string,
    confidence: real,
    riskLevel: Risk,
    downgradeAction: Option<DowngradeAction>,
    modifiedAction: Option<ActionPlan>,
    cooldownSeconds: Option<real>)

  predicate Passing(v: Verdict) {
    v == Approve || v == Downgrade
  }

  datatype Applied = Applied(actions: seq<ActionPlan>, suppressors: seq<string>)

  datatype ApplyError = DowngradeMissing | DowngradeMismatch

  // ---------------------------------------------------------------- applying a passing verdict

  function MaxOptional(a: Option<real>, b: Option<real>): Option<real> {
    if a.None? then b else if b.None? then a else if a.value >= b.value then a else b
  }

  function MinOptional(a: Option<real>, b: Option<real>): Option<real> {
    if a.None? then b else if b.None? then a else if a.value <= b.value then a else b
  }

  function Strictness(r: Option<Redaction>): int {
    match r
    case None => -1
    case Some(NoRedaction) => 0
    case Some(Light) => 1
    case Some(Strict) => 2
  }

  function Strictest(a: Option<Redaction>, b: Option<Redaction>): Option<Redaction> {
    if a.None? then b else if b.None? then a else if Strictness(a) >= Strictness(b) then a else b
  }

  function ListOf(c: Option<seq<string>>): seq<string> {
    if c.Some? then c.value else []
  }

  function MergeCapabilities(a: Option<seq<string>>, b: Option<seq<string>>): Option<seq<string>> {
    var all := ListOf(a) + ListOf(b);
    if all == [] then None else Some(Distinct(all))
  }

  function AnchorConstraints(base: Constraints, c: Constraints): Constraints {
    c.(evaluatorRequired := Some(base.evaluatorRequired == Some(true) || c.evaluatorRequired == Some(true)),
       proactive := Some(base.proactive == Some(true) || c.proactive == Some(true)),
       cooldownKey := if base.cooldownKey.Some? then base.cooldownKey else c.cooldownKey,
       cooldownSeconds := MaxOptional(base.cooldownSeconds, c.cooldownSeconds),
       maxResponseTokens := MinOptional(base.maxResponseTokens, c.maxResponseTokens),
       redactionLevel := Strictest(base.redactionLevel, c.redactionLevel),
       capabilities := MergeCapabilities(base.capabilities, c.capabilities))
  }

  function Anchor(actions: seq<ActionPlan>, modified: ActionPlan): ActionPlan {
    if actions == [] then modified
    else modified.(target := actions[0].target,
                   constraints := AnchorConstraints(actions[0].constraints, modified.constraints))
  }

  function DowngradeOne(a: ActionPlan, d: DowngradeAction, seconds: Option<real>): ActionPlan {
    if a.kind != d.source then a
    else a.(kind := d.target, reason := d.reason,
            constraints := a.constraints.(cooldownSeconds := MaxOptional(a.constraints.cooldownSeconds, seconds)))
  }

  function ApplyPassing(actions: seq<ActionPlan>, e: SocialResult): (r: Result<Applied, ApplyError>) {
    if e.decision == Downgrade then
      if e.downgradeAction.None? then Err(DowngradeMissing)
      else
        var d := e.downgradeAction.value;
        if forall a | a in actions :: a.kind != d.source then Err(DowngradeMismatch)
        else
          Ok(Applied(seq(|actions|, i requires 0 <= i < |actions| => DowngradeOne(actions[i], d, e.cooldownSeconds)),
                     ["evaluator_downgrade:" + TypeName(d.source) + "->" + TypeName(d.target)]))
    else Ok(Applied(if e.modifiedAction.Some? then [Anchor(actions, e.modifiedAction.value)] else actions, []))
  }

  /** `b` is bound at least as tightly as `a`. */
  predicate AtLeastAsTight(a: Constraints, b: Constraints) {
    && (a.evaluatorRequired == Some(true) ==> b.evaluatorRequired == Some(true))
    && (a.proactive == Some(true) ==> b.proactive == Some(true))
    && (a.cooldownKey.Some? ==> b.cooldownKey == a.cooldownKey)
    && (a.cooldownSeconds.Some? ==> b.cooldownSeconds.Some? && b.cooldownSeconds.value >= a.cooldownSeconds.value)
    && (a.maxResponseTokens.Some? ==> b.maxResponseTokens.Some? && b.maxResponseTokens.value <= a.maxResponseTokens.value)
    && (a.redactionLevel.Some? ==> b.redactionLevel.Some?)
    && (a.redactionLevel == Some(Light) ==> b.redactionLevel != Some(NoRedaction))
    && (a.redactionLevel == Some(Strict) ==> b.redactionLevel == Some(Strict))
    && (forall c | c in ListOf(a.capabilities) :: c in ListOf(b.capabilities))
  }

  /** Whatever a passing evaluation does to the single proposed action, it is sent to the same target and under
      constraints at least as tight, both as the proposal's own and as those the evaluator asked for; the cooldown
      key is the proposal's where it has one, and the evaluator's otherwise. */
  lemma EvaluationNeverLoosens(proposed: ActionPlan, e: SocialResult)
    requires ApplyPassing([proposed], e).Ok?
    ensures var r := ApplyPassing([proposed], e).value.actions;
      && |r| == 1 && r[0].target == proposed.target
      && AtLeastAsTight(proposed.constraints, r[0].constraints)
      && (e.decision != Downgrade && e.modifiedAction.Some? ==>
            var asked := e.modifiedAction.value.constraints;
            AtLeastAsTight(asked.(cooldownKey := None), r[0].constraints)
            && r[0].constraints.cooldownKey ==
                 if proposed.constraints.cooldownKey.Some? then proposed.constraints.cooldownKey else asked.cooldownKey)
      && (e.decision == Downgrade && e.cooldownSeconds.Some? && proposed.kind == e.downgradeAction.value.source ==>
            r[0].constraints.cooldownSeconds.Some? && r[0].constraints.cooldownSeconds.value >= e.cooldownSeconds.value)
  {
    assert proposed in [proposed];
    if e.decision != Downgrade && e.modifiedAction.Some? {
      AnchorTightens(proposed.constraints, e.modifiedAction.value.constraints);
    }
  }

  lemma AnchorTightens(a: Constraints, b: Constraints)
    ensures AtLeastAsTight(a, AnchorConstraints(a, b))
    ensures AtLeastAsTight(b.(cooldownKey := None), AnchorConstraints(a, b))
  {
    hide Distinct;
    MergeHas(a.capabilities, b.capabilities);
  }

  lemma MergeHas(a: Option<seq<string>>, b: Option<seq<string>>)
    ensures forall c | c in ListOf(a) || c in ListOf(b) :: c in ListOf(MergeCapabilities(a, b))
  {
    assert forall c | c in ListOf(a) || c in ListOf(b) :: c in ListOf(a) + ListOf(b);
  }

  /** A passing evaluation cannot be applied exactly when it downgrades without saying to what, or from an action
      that was not proposed. */
  lemma EvaluationFails(proposed: ActionPlan, e: SocialResult)
    ensures ApplyPassing([proposed], e) == Err(DowngradeMissing) <==> e.decision == Downgrade && e.downgradeAction.None?
    ensures ApplyPassing([proposed], e) == Err(DowngradeMismatch) <==>
      e.decision == Downgrade && e.downgradeAction.Some? && e.downgradeAction.value.source != proposed.kind
  {
    assert proposed in [proposed];
    hide Anchor, DowngradeOne;
  }

  /** What a passing evaluation changes: nothing when it approves the action as it stands; the kind, the reason and
      the cooldown when it downgrades; everything but the target when it sends an action of its own, whose limits
      are then the tighter of both sides and no tighter. */
  lemma EvaluationChanges(proposed: ActionPlan, e: SocialResult)
    requires ApplyPassing([proposed], e).Ok?
    ensures ApplyPassing([proposed], e).value.suppressors ==
      if e.decision != Downgrade then []
      else ["evaluator_downgrade:" + TypeName(proposed.kind) + "->" + TypeName(e.downgradeAction.value.target)]
    ensures var r, c := ApplyPassing([proposed], e).value.actions[0], proposed.constraints;
      if e.decision == Downgrade then
        var d := e.downgradeAction.value;
        && d.source == proposed.kind && r.kind == d.target && r.reason == d.reason
        && r.payload == proposed.payload && r.priority == proposed.priority
        && r.constraints.(cooldownSeconds := None) == c.(cooldownSeconds := None)
        && (r.constraints.cooldownSeconds == c.cooldownSeconds || r.constraints.cooldownSeconds == e.cooldownSeconds)
      else if e.modifiedAction.None? then r == proposed
      else
        var m := e.modifiedAction.value;
        && r.kind == m.kind && r.reason == m.reason && r.payload == m.payload && r.priority == m.priority
        && r.constraints.proactiveTrigger == m.constraints.proactiveTrigger
        && (r.constraints.evaluatorRequired == Some(true) <==>
              c.evaluatorRequired == Some(true) || m.constraints.evaluatorRequired == Some(true))
        && (r.constraints.proactive == Some(true) <==> c.proactive == Some(true) || m.constraints.proactive == Some(true))
        && (r.constraints.cooldownSeconds == c.cooldownSeconds
            || r.constraints.cooldownSeconds == m.constraints.cooldownSeconds)
        && (r.constraints.maxResponseTokens == c.maxResponseTokens
            || r.constraints.maxResponseTokens == m.constraints.maxResponseTokens)
        && (r.constraints.redactionLevel == c.redactionLevel
            || r.constraints.redactionLevel == m.constraints.redactionLevel)
        && forall x | x in ListOf(r.constraints.capabilities) ::
             x in ListOf(c.capabilities) || x in ListOf(m.constraints.capabilities)
  {
    assert proposed in [proposed];
    hide Distinct;
  }
}
