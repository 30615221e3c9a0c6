// What the bot says: the one action a decision stores, and the cooldown it starts.
module Replies {
  import opened Text
  import opened Sequences
  import opened Actions
  import opened Cooldown
  import opened Authorization

  /** An evaluator is asked exactly when the signals want it, or a group is answered unasked. */
  lemma EvaluatorAskedExactly(r: DecisionRequest)
    ensures RequiresEvaluator(r) <==>
      || r.signals.needsEvaluation
      || (Trim(r.responseText) != "" && r.event.isGroup && !r.event.mentionsBot
          && "reply_to_bot" !in r.signals.triggerReasons)
  {
  }

  function CooldownKey(e: Event): string {
    if e.isGroup then "group:" + e.conversationId + ":reply_short" else "private:" + e.conversationId + ":reply_full"
  }

  /** Group replies that nobody asked for are held apart. */
  predicate HeldApart(r: DecisionRequest) {
    && Trim(r.responseText) != "" && r.event.isGroup
    && "@bot" !in r.signals.triggerReasons && "reply_to_bot" !in r.signals.triggerReasons
    && "command" !in r.signals.triggerReasons
  }

  predicate Running(entries: Entries, key: string, now: int) {
    key in entries && entries[key].expiresAt > now as real
  }

  /** The action answers the request: the trimmed text goes to the event's own conversation, unless there is none
      or the conversation's cooldown runs. */
  predicate Answers(a: ActionPlan, r: DecisionRequest, entries: Entries, now: int) {
    var e, text := r.event, Trim(r.responseText);
    && a.target == Some(
         if e.isGroup then Target(e.conversationId, true, None, None, e.groupId)
         else Target(e.conversationId, false, Some(e.senderId), r.canonicalUserId, e.groupId))
    && if text == "" || (HeldApart(r) && Running(entries, CooldownKey(e), now))
       then a.kind == SilentStore && a.payload == None
       else a.kind == (if e.isGroup then ReplyShort else ReplyFull)
            && a.payload == Some(Payload(Some(text), None, None, None, None, None))
            && a.constraints.maxResponseTokens == Some(if e.isGroup then 256.0 else 1024.0)
            && a.constraints.redactionLevel == Some(if e.isGroup then Strict else Light)
  }

  /** What a decision on the request leaves of the cooldowns. */
  function EntriesAfterReply(entries: Entries, r: DecisionRequest, now: int): Entries {
    if HeldApart(r) && !Running(entries, CooldownKey(r.event), now)
    then entries[CooldownKey(r.event) := Entry(now as real + 60000.0, ReplyShort)] else entries
  }

  lemma PlanAnswers(r: DecisionRequest, entries: Entries, now: int)
    ensures var (after, cooled) := ApplyBatch(entries, [BuildPlan(r)], now);
      && |cooled.actions| == 1 && Answers(cooled.actions[0], r, entries, now)
      && after == EntriesAfterReply(entries, r, now)
      && cooled.suppressors ==
           if HeldApart(r) && Running(entries, CooldownKey(r.event), now)
           then ["cooldown:" + CooldownKey(r.event)] else []
  {
    var plan := BuildPlan(r);
    PlanShape(r);
    PlanGoverned(r);
    OneCharge(entries, plan, now);
    hide BuildPlan, ApplyBatch, CooldownKey, HeldApart;
  }

  lemma PlanShape(r: DecisionRequest)
    ensures var a, e, text := BuildPlan(r), r.event, Trim(r.responseText);
      && a.target == Some(
           if e.isGroup then Target(e.conversationId, true, None, None, e.groupId)
           else Target(e.conversationId, false, Some(e.senderId), r.canonicalUserId, e.groupId))
      && if text == "" then a.kind == SilentStore && a.payload == None
         else
           && a.kind == (if e.isGroup then ReplyShort else ReplyFull)
           && a.payload == Some(Payload(Some(text), None, None, None, None, None))
           && a.constraints.maxResponseTokens == Some(if e.isGroup then 256.0 else 1024.0)
           && a.constraints.redactionLevel == Some(if e.isGroup then Strict else Light)
  {
  }

  lemma PlanGoverned(r: DecisionRequest)
    ensures var a := BuildPlan(r);
      && (Governed(a) <==> HeldApart(r))
      && (HeldApart(r) ==>
            KeyOf(a) == CooldownKey(r.event) && a.constraints.cooldownSeconds == Some(60.0) && a.kind == ReplyShort)
  {
    var e := r.event;
    assert "group" + ":" + e.conversationId + ":" + TypeName(ReplyShort) == "group:" + e.conversationId + ":reply_short";
    assert CooldownKey(e) != "";
  }

  /** The decision stores one action for one that answers the request; the guard of memory claims may replace its
      payload. */
  ghost predicate StoresAnswer(
    stored: Result<DecisionInput, DecisionError>, r: DecisionRequest, entries: Entries, now: int, repo: Repository)
  {
    && stored.Ok? && stored.value.turnId == r.turnId && |stored.value.actions| == 1
    && exists a :: Answers(a, r, entries, now) && stored.value.actions[0] == a.(payload := repo.guard(a))
  }

  lemma StoredIsChecked(input: DecisionInput, a: ActionPlan, repo: Repository)
    requires input.actions == [a]
    ensures Checked(input, repo).actions == [a.(payload := repo.guard(a))]
    ensures Checked(input, repo).turnId == input.turnId
  {
    assert Guarded(a, repo) == a.(payload := repo.guard(a));
  }

  /** Where no evaluator is asked, a decision on a stored turn stores the answer, and starts its cooldown. A private
      reply, or one that somebody asked for, is never silenced. */
  lemma PlainAnswer(
    entries: Entries, now: int, r: DecisionRequest, answer: Answer, sanitize: string -> string, repo: Repository)
    requires !RequiresEvaluator(r) && repo.trigger.Some?
    ensures var (after, stored) := Produce(entries, now, r, answer, sanitize, repo);
      && after == EntriesAfterReply(entries, r, now) && StoresAnswer(stored, r, entries, now, repo)
      && (Trim(r.responseText) != "" && !HeldApart(r) ==>
            stored.value.actions[0].kind == if r.event.isGroup then ReplyShort else ReplyFull)
  {
    PlanAnswers(r, entries, now);
    var (after, cooled) := ApplyBatch(entries, [BuildPlan(r)], now);
    hide BuildPlan, ApplyBatch, EntriesAfterReply, Checked, RequiresEvaluator;
    var input := PlainInput(r, cooled);
    assert cooled.actions == [cooled.actions[0]];
    StoredIsChecked(input, cooled.actions[0], repo);
  }

  /** So it is when the evaluator approves the reply as it stands. */
  lemma ApprovedAnswer(
    entries: Entries, now: int, r: DecisionRequest, result: SocialResult, sanitize: string -> string, repo: Repository)
    requires OutwardOnly(entries) && RequiresEvaluator(r) && WellFormed(r, result, repo)
    requires repo.bound(Evidence(RequestOf(r), Sanitized(result, sanitize)))
    requires result.decision == Approve && result.modifiedAction == None
    ensures var (after, stored) := Produce(entries, now, r, Answered(result), sanitize, repo);
      after == EntriesAfterReply(entries, r, now) && StoresAnswer(stored, r, entries, now, repo)
  {
    AcceptedIffWellFormed(entries, now, r, result, sanitize, repo);
    PlanAnswers(r, entries, now);
    var e := Sanitized(result, sanitize);
    var (after, cooled) := ApplyBatch(entries, [BuildPlan(r)], now);
    assert ApplyEvaluation([BuildPlan(r)], e, sanitize) == Ok(Applied([BuildPlan(r)], []));
    hide BuildPlan, ApplyBatch, EntriesAfterReply, Checked, RequiresEvaluator, ApplyEvaluation, WellFormed, Answers;
    var input := EvaluatedInput(r, e, Applied([BuildPlan(r)], []), cooled, sanitize);
    assert cooled.actions == [cooled.actions[0]];
    StoredIsChecked(input, cooled.actions[0], repo);
    hide ValidateAuthority;
  }

  /** When the evaluator fails, or refuses the reply, what is stored is one silent action for the conversation, and
      no cooldown starts. */
  lemma RefusedIsSilent(
    entries: Entries, now: int, r: DecisionRequest, answer: Answer, sanitize: string -> string, repo: Repository)
    requires RequiresEvaluator(r) && (answer.Answered? ==> !Passing(answer.result.decision))
    ensures var (after, stored) := Produce(entries, now, r, answer, sanitize, repo);
      && after == entries
      && (stored.Ok? ==>
            && stored.value.turnId == r.turnId && |stored.value.actions| == 1
            && stored.value.actions[0].kind == SilentStore
            && stored.value.actions[0].target == BuildPlan(r).target)
  {
    var plan := BuildPlan(r);
    hide BuildPlan, RequiresEvaluator, ValidateAuthority, Checked;
    if answer.EvaluatorFails? {
      var s := Silence(plan, "Evaluator review failed; governed action suppressed");
      assert FailedInput(r).actions == [s];
      StoredIsChecked(FailedInput(r), s, repo);
    } else {
      var e := Sanitized(answer.result, sanitize);
      var s := Silence(plan, sanitize("Evaluator " + VerdictName(e.decision) + ": " + e.reason));
      var evaluated := Applied([s], ["evaluator_" + VerdictName(e.decision)]);
      var got := ApplyEvaluation([plan], e, sanitize).value;
      assert got.actions == [s] && got == evaluated;
      OneCharge(entries, s, now);
      StoredIsChecked(EvaluatedInput(r, e, evaluated, Applied([s], []), sanitize), s, repo);
      hide ApplyBatch, ApplyEvaluation, VerdictName;
    }
  }

  // ---------------------------------------------------------------- what is recorded with the action

  /** Storing keeps everything but the actions and the suppressors; those are kept too, unless the guard replaces
      the payload of an action and says so. */
  predicate Kept(input: DecisionInput, stored: DecisionInput, repo: Repository) {
    && stored == input.(actions := stored.actions, suppressors := stored.suppressors)
    && |stored.actions| == |input.actions|
    && (forall i | 0 <= i < |input.actions| ::
          stored.actions[i] == input.actions[i].(payload := repo.guard(input.actions[i])))
    && (forall x | x in input.suppressors :: x in stored.suppressors)
    && (forall x | x in stored.suppressors :: x in input.suppressors || x == "memory_claim_truthfulness_guard")
    && if forall i | 0 <= i < |input.actions| :: repo.guard(input.actions[i]) == input.actions[i].payload
       then stored.suppressors == input.suppressors
       else "memory_claim_truthfulness_guard" in stored.suppressors
  }

  lemma CheckedKeeps(input: DecisionInput, repo: Repository)
    ensures Kept(input, Checked(input, repo), repo)
  {
    hide Distinct;
    var c := Checked(input, repo);
    if exists i | 0 <= i < |input.actions| :: repo.guard(input.actions[i]) != input.actions[i].payload {
      var i :| 0 <= i < |input.actions| && repo.guard(input.actions[i]) != input.actions[i].payload;
      assert c.actions[i] != input.actions[i];
      var all := input.suppressors + ["memory_claim_truthfulness_guard"];
      assert all[|input.suppressors|] == "memory_claim_truthfulness_guard";
      assert forall x | x in all :: x in input.suppressors || x == "memory_claim_truthfulness_guard";
    } else {
      assert seq(|input.actions|, i requires 0 <= i < |input.actions| => Guarded(input.actions[i], repo))
          == input.actions;
    }
  }

  lemma StoreKeeps(input: DecisionInput, repo: Repository)
    ensures Store(input, repo).Ok? ==> Kept(input, Store(input, repo).value, repo)
  {
    CheckedKeeps(input, repo);
    hide Kept, Checked, ValidateAuthority;
  }

  function Reasons(r: DecisionRequest, more: seq<string>): seq<string> {
    r.signals.triggerReasons
    + [if Trim(r.responseText) == "" then "pi_empty_response" else "pi_response_text"] + more
  }

  /** Who decided, on what evidence, and how sure: without an evaluator the bot itself, at low risk; after the
      evaluator's failure the bot, at medium risk and without a pass; otherwise the evaluator, with its own risk and
      confidence. */
  lemma RecordedWithAction(
    entries: Entries, now: int, r: DecisionRequest, answer: Answer, sanitize: string -> string, repo: Repository)
    ensures var (after, stored) := Produce(entries, now, r, answer, sanitize, repo);
      stored.Ok? ==>
        var d := stored.value;
        if !RequiresEvaluator(r) then
          d == DecisionInput(r.turnId, ByPi, d.actions, LowRisk, r.signals.triggerScore, Reasons(r, []),
            d.suppressors, false, None, None)
          && forall x | x in r.signals.suppressors :: x in d.suppressors
        else if answer.EvaluatorFails? then
          d == DecisionInput(r.turnId, ByPi, d.actions, MediumRisk, r.signals.triggerScore,
            Reasons(r, ["evaluator_failure"]), d.suppressors, true, Some(false), None)
          && forall x | x in r.signals.suppressors + ["evaluator_terminal_failure"] :: x in d.suppressors
        else
          var e := answer.result.(reason := sanitize(answer.result.reason));
          d == DecisionInput(r.turnId, ByEvaluator, d.actions, e.riskLevel, e.confidence,
            Reasons(r, [sanitize("evaluator:" + e.reason)]), d.suppressors, true,
            Some(e.decision == Approve || e.decision == Downgrade), Some(Evidence(RequestOf(r), e)))
          && (forall x | x in r.signals.suppressors :: x in d.suppressors)
          && (e.decision == Reject ==> "evaluator_reject" in d.suppressors)
          && (e.decision == Propose ==> "evaluator_propose" in d.suppressors)
  {
    hide BuildPlan, RequiresEvaluator, Store, ApplyBatch, Checked, ValidateAuthority, Distinct;
    var plan := BuildPlan(r);
    ReasonsAre(r);
    hide BaseReasons, Reasons;
    var (after, cooled) := ApplyBatch(entries, [plan], now);
    StoreKeeps(PlainInput(r, cooled), repo);
    StoreKeeps(FailedInput(r), repo);
    if answer.Answered? {
      var e := Sanitized(answer.result, sanitize);
      var evaluated := ApplyEvaluation([plan], e, sanitize);
      if evaluated.Ok? {
          var (after, cooled) := ApplyBatch(entries, evaluated.value.actions, now);
        RefusalSuppressor([plan], e, sanitize);
        hide ApplyEvaluation;
        StoreKeeps(EvaluatedInput(r, e, evaluated.value, cooled, sanitize), repo);
      }
    }
  }

  lemma ReasonsAre(r: DecisionRequest)
    ensures BaseReasons(r) == Reasons(r, [])
    ensures forall x :: BaseReasons(r) + [x] == Reasons(r, [x])
  {
    hide Trim;
  }

  lemma RefusalSuppressor(actions: seq<ActionPlan>, e: SocialResult, sanitize: string -> string)
    ensures e.decision == Reject ==> ApplyEvaluation(actions, e, sanitize).value.suppressors == ["evaluator_reject"]
    ensures e.decision == Propose ==> ApplyEvaluation(actions, e, sanitize).value.suppressors == ["evaluator_propose"]
  {
    assert "evaluator_" + "reject" == "evaluator_reject" && "evaluator_" + "propose" == "evaluator_propose";
  }
}
