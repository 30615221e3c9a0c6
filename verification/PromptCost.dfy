// What a selection costs: the prompt layers as they are rendered, at one token per two code units.
module PromptCost {
  import opened Text
  import opened Sequences
  import opened References

  datatype Kind = Preference | Fact | Constraint | Summary | Reflection | Procedure

  datatype Scope = GlobalScope | UserScope | GroupScope | ConversationScope | ToolScope | SystemScope

  datatype MemoryRecord = MemoryRecord(
    id: string,
    scope: Scope,
    kind: Kind,
    title: string,
    content: string,
    confidence: real,
    importance: real,
    createdAt: int,
    updatedAt: int)

  datatype IdentityField = IdentityField(name: string, value: string)

  datatype PromptLayer = PromptLayer(name: string, version: string, tokens: nat)

  datatype Breakdown = Breakdown(recentMessages: nat, memory: nat, identity: nat, system: nat)

  datatype TokenBudget = TokenBudget(max: nat, used: nat, breakdown: Breakdown, promptLayers: seq<PromptLayer>)

  /** `formatPromptDataLiteral`: the redacted, quoted form of untrusted data. */
  type Literal = string -> string

  const MAX_TOKENS: nat := 8000
  const SYSTEM_TOKENS: nat := 300

  function Join(parts: seq<string>, sep: string): string {
    if parts == [] then ""
    else if |parts| == 1 then parts[0]
    else parts[0] + sep + Join(parts[1..], sep)
  }

  /** `Math.ceil(text.length / 2)`. */
  function Tokens(text: string): nat {
    (|text| + 1) / 2
  }

  // ---------------------------------------------------------------- renderers

  function RenderMessage(m: RecentMessage, lit: Literal): string {
    var text := OrElse(m.text, "");
    if m.isFromBot then text
    else
      var field := "sender_display_name=" + lit(m.senderDisplayName);
      if text != "" then field + "\nmessage_text:\n" + text else field
  }

  function MessagesTokens(messages: seq<RecentMessage>, lit: Literal): nat {
    if messages == [] then 0 else Tokens(RenderMessage(messages[0], lit)) + MessagesTokens(messages[1..], lit)
  }

  function ReferenceLines(messages: seq<RecentMessage>, currentRef: Option<string>): seq<string> {
    if messages == [] then []
    else
      var m := messages[0];
      (if m.messageRef.None? || m.speakerRef.None? then []
       else ["- message_ref=" + m.messageRef.value
             + " speaker_ref=" + m.speakerRef.value
             + " role=" + (if m.isFromBot then "bot" else "human")
             + " current=" + (if m.messageRef == currentRef then "true" else "false")])
      + ReferenceLines(messages[1..], currentRef)
  }

  function ReplyLine(reply: ReplyReference): string {
    match reply
    case Resolved(source, target, speaker, bot, inWindow) =>
      Join(["- reply", "status=resolved", "source_message_ref=" + source, "target_message_ref=" + target,
            "target_speaker_ref=" + speaker, "target_role=" + (if bot then "bot" else "human"),
            "target_in_rolling_window=" + (if inWindow then "true" else "false")], " ")
    case Unresolved(source) =>
      Join(["- reply", "status=unresolved", "source_message_ref=" + source], " ")
  }

  function RenderReferences(messages: seq<RecentMessage>, currentRef: Option<string>, reply: Option<ReplyReference>)
    : string
  {
    if messages == [] then ""
    else
      Join(["## Message References"] + ReferenceLines(messages, currentRef)
           + (if reply.Some? then [ReplyLine(reply.value)] else []) + [""], "\n")
  }

  predicate IsProfile(m: MemoryRecord, scope: Scope) {
    m.scope == scope && m.kind == Summary
  }

  function ProfileLines(header: string, memories: seq<MemoryRecord>, scope: Scope): seq<string> {
    match Find(memories, m => IsProfile(m, scope))
    case None => []
    case Some(i) => [header, memories[i].content, ""]
  }

  function FactLine(m: MemoryRecord): string {
    "- **" + m.title + "**: " + m.content
  }

  function FactLines(memories: seq<MemoryRecord>): seq<string> {
    if memories == [] then []
    else ["## Relevant Facts"] + seq(|memories|, i requires 0 <= i < |memories| => FactLine(memories[i])) + [""]
  }

  function RenderMemories(memories: seq<MemoryRecord>): string {
    Join(ProfileLines("## User Profile", memories, UserScope)
         + ProfileLines("## Group Context", memories, GroupScope)
         + FactLines(memories), "\n")
  }

  function IdentityLines(fields: seq<IdentityField>, lit: Literal): seq<string> {
    seq(|fields|, i requires 0 <= i < |fields| => "- " + fields[i].name + "=" + lit(fields[i].value))
  }

  function RenderIdentity(fields: seq<IdentityField>, lit: Literal): string {
    if fields == [] then "" else Join(["## Identity"] + IdentityLines(fields, lit) + [""], "\n")
  }

  function RoleName(role: Role): string {
    match role
    case Member => "member"
    case Admin => "admin"
    case Owner => "owner"
  }

  function RenderParticipant(p: Participant, lit: Literal): string {
    var flags := (if p.isOwner then ["owner"] else []) + (if p.isAdmin then ["admin"] else [])
                 + (if p.isTrusted then ["trusted"] else []);
    Join(["- speaker_ref=" + OrElse(p.speakerRef, "speaker_unknown"), "display_name=" + lit(p.displayName)]
         + (if flags != [] then ["flags=[" + Join(flags, ", ") + "]"] else [])
         + (if p.role.Some? then ["role=" + RoleName(p.role.value)] else [])
         + (if OrElse(p.groupCard, "") != "" then ["group_card=" + lit(p.groupCard.value)] else []), " ")
  }

  function ParticipantLines(ps: seq<Participant>, lit: Literal): seq<string> {
    seq(|ps|, i requires 0 <= i < |ps| => RenderParticipant(ps[i], lit))
  }

  function RenderParticipants(ps: seq<Participant>, isGroup: bool, lit: Literal): string {
    if !isGroup || ps == [] then "" else Join(["## Participants"] + ParticipantLines(ps, lit) + [""], "\n")
  }

  // ---------------------------------------------------------------- the budget

  function CurrentSpeaker(messages: seq<RecentMessage>, currentRef: Option<string>): Option<string> {
    match Find(messages, (m: RecentMessage) => m.messageRef == currentRef && m.isCurrent)
    case None => None
    case Some(i) => messages[i].speakerRef
  }

  function PromptFields(fields: seq<IdentityField>, speaker: Option<string>): seq<IdentityField> {
    seq(|fields|, i requires 0 <= i < |fields| =>
      if fields[i].name == "target_user_ref" && speaker.Some? then fields[i].(value := speaker.value) else fields[i])
  }

  function CalculateTokenBudget(
    context: Materialized, memories: seq<MemoryRecord>, fields: seq<IdentityField>, isGroup: bool, lit: Literal)
    : (b: TokenBudget)
    ensures b.max == MAX_TOKENS
    ensures b.used == b.breakdown.recentMessages + b.breakdown.memory + b.breakdown.identity + b.breakdown.system
  {
    var recent := MessagesTokens(context.recentMessages, lit);
    var memory := Tokens(RenderMemories(memories));
    var speaker := CurrentSpeaker(context.recentMessages, context.currentMessageRef);
    var identity := Tokens(RenderIdentity(PromptFields(fields, speaker), lit));
    var participants := Tokens(RenderParticipants(context.participants, isGroup, lit));
    var references :=
      Tokens(RenderReferences(context.recentMessages, context.currentMessageRef, context.replyReference));
    TokenBudget(
      MAX_TOKENS,
      recent + memory + identity + participants + references + SYSTEM_TOKENS,
      Breakdown(recent, memory, identity + participants + references, SYSTEM_TOKENS),
      [PromptLayer("recent_messages", "pi-prompt-recent-message-v2", recent),
       PromptLayer("memory_context", "pi-prompt-memory-context-v2", memory),
       PromptLayer("identity_fields", "context-builder-identity-fields-v2", identity),
       PromptLayer("participant_context", "pi-prompt-participant-context-v3", participants),
       PromptLayer("message_references", "pi-prompt-message-reference-v1", references),
       PromptLayer("system_prompt_estimate", "bounded-system-estimate-v1", SYSTEM_TOKENS)])
  }

  // ---------------------------------------------------------------- cost and the text of messages

  /** `a` is `b` but for its text, which is no longer. */
  predicate Shorter(a: RecentMessage, b: RecentMessage) {
    a.(text := b.text) == b && |OrElse(a.text, "")| <= |OrElse(b.text, "")|
  }

  predicate AllShorter(a: seq<RecentMessage>, b: seq<RecentMessage>) {
    |a| == |b| && forall i | 0 <= i < |a| :: Shorter(a[i], b[i])
  }

  lemma NumberedShorter(a: seq<RecentMessage>, b: seq<RecentMessage>, scene: Scene)
    requires AllShorter(a, b)
    ensures Keys(a, scene.identities) == Keys(b, scene.identities)
    ensures AllShorter(Numbered(a, scene), Numbered(b, scene))
  {
    forall i | 0 <= i < |a| ensures IdentityOf(a[i], scene.identities) == IdentityOf(b[i], scene.identities) {
      assert Shorter(a[i], b[i]);
    }
    assert Keys(a, scene.identities) == Keys(b, scene.identities);
    hide Keys, Distinct, SpeakerRef, MessageRef, SpeakerNumber, IdentityOf;
    forall i | 0 <= i < |a| ensures Shorter(Numbered(a, scene)[i], Numbered(b, scene)[i]) {
      assert Shorter(a[i], b[i]);
    }
  }

  lemma {:induction false} FirstSpeakersShorter(a: seq<RecentMessage>, b: seq<RecentMessage>, scene: Scene)
    requires AllShorter(a, b)
    ensures FirstSpeakers(a, scene) == FirstSpeakers(b, scene)
    ensures HumanRefs(a) == HumanRefs(b)
  {
    if a != [] {
      var n := |a| - 1;
      FirstSpeakersShorter(a[..n], b[..n], scene);
      HumanRefsStep(a, n);
      HumanRefsStep(b, n);
      assert a[..n + 1] == a && b[..n + 1] == b && Shorter(a[n], b[n]);
      hide HumanRefs;
      assert ParticipantFor(a[n], scene) == ParticipantFor(b[n], scene);
    }
  }

  lemma ReplyShorter(a: seq<RecentMessage>, b: seq<RecentMessage>, source: string, reply: ReplyResolution)
    requires AllShorter(a, b)
    requires forall m | m in a || m in b :: m.messageRef.Some? && m.speakerRef.Some?
    ensures ReplyReferenceOf(a, source, reply) == ReplyReferenceOf(b, source, reply)
  {
    if reply.targetMessageId.Some? {
      var p := (m: RecentMessage) => m.messageId == reply.targetMessageId.value;
      assert forall i | 0 <= i < |a| :: Shorter(a[i], b[i]) && p(a[i]) == p(b[i]);
      SameFind(a, p, b, p);
    }
  }

  lemma MaterializeShorter(a: seq<RecentMessage>, b: seq<RecentMessage>, scene: Scene)
    requires AllShorter(a, b)
    ensures var x, y := Materialize(a, scene), Materialize(b, scene);
      && AllShorter(x.recentMessages, y.recentMessages)
      && x.(recentMessages := y.recentMessages) == y
  {
    hide Numbered, FirstSpeakers, Keys, ReplyReferenceOf;
    NumberedShorter(a, b, scene);
    var x, y := Numbered(a, scene), Numbered(b, scene);
    var p := (m: RecentMessage) => m.isCurrent;
    assert forall i | 0 <= i < |x| :: Shorter(x[i], y[i]) && p(x[i]) == p(y[i]);
    SameFind(x, p, y, p);
    FirstSpeakersShorter(x, y, scene);
    var current := Find(x, p);
    if scene.reply.Some? && current.Some? && x[current.value].messageRef.Some? {
      ReplyShorter(x, y, x[current.value].messageRef.value, scene.reply.value);
    }
  }

  lemma {:induction false} MessagesTokensShorter(a: seq<RecentMessage>, b: seq<RecentMessage>, lit: Literal)
    requires AllShorter(a, b)
    ensures MessagesTokens(a, lit) <= MessagesTokens(b, lit)
  {
    if a != [] {
      assert Shorter(a[0], b[0]);
      assert |RenderMessage(a[0], lit)| <= |RenderMessage(b[0], lit)|;
      MessagesTokensShorter(a[1..], b[1..], lit);
    }
  }

  lemma {:induction false} ReferenceLinesShorter(a: seq<RecentMessage>, b: seq<RecentMessage>, currentRef: Option<string>)
    requires AllShorter(a, b)
    ensures ReferenceLines(a, currentRef) == ReferenceLines(b, currentRef)
  {
    if a != [] {
      assert Shorter(a[0], b[0]);
      ReferenceLinesShorter(a[1..], b[1..], currentRef);
    }
  }

  lemma CurrentSpeakerShorter(a: seq<RecentMessage>, b: seq<RecentMessage>, currentRef: Option<string>)
    requires AllShorter(a, b)
    ensures CurrentSpeaker(a, currentRef) == CurrentSpeaker(b, currentRef)
  {
    var p := (m: RecentMessage) => m.messageRef == currentRef && m.isCurrent;
    assert forall i | 0 <= i < |a| :: Shorter(a[i], b[i]) && p(a[i]) == p(b[i]);
    SameFind(a, p, b, p);
  }

  /** Shortening the text of messages never raises the cost of a selection: only the message layer reads texts. */
  lemma CostMonotoneInText(
    a: seq<RecentMessage>, b: seq<RecentMessage>, scene: Scene, memories: seq<MemoryRecord>,
    fields: seq<IdentityField>, isGroup: bool, lit: Literal)
    requires AllShorter(a, b)
    ensures CalculateTokenBudget(Materialize(a, scene), memories, fields, isGroup, lit).used
         <= CalculateTokenBudget(Materialize(b, scene), memories, fields, isGroup, lit).used
  {
    MaterializeShorter(a, b, scene);
    var x, y := Materialize(a, scene), Materialize(b, scene);
    hide Materialize, AllShorter, MessagesTokens, CurrentSpeaker, ReferenceLines, RenderIdentity, RenderParticipants,
         RenderMemories, PromptFields;
    assert |x.recentMessages| == |y.recentMessages| by { SameLength(x.recentMessages, y.recentMessages); }
    MessagesTokensShorter(x.recentMessages, y.recentMessages, lit);
    ReferenceLinesShorter(x.recentMessages, y.recentMessages, x.currentMessageRef);
    CurrentSpeakerShorter(x.recentMessages, y.recentMessages, x.currentMessageRef);
  }

  lemma SameLength(a: seq<RecentMessage>, b: seq<RecentMessage>)
    requires AllShorter(a, b)
    ensures |a| == |b|
  {
  }

  // ---------------------------------------------------------------- cost and the list of memories

  /** What lines take when each is followed by a line feed. */
  function Size(lines: seq<string>): nat {
    if lines == [] then 0 else |lines[0]| + 1 + Size(lines[1..])
  }

  lemma {:induction false} SizeAppend(a: seq<string>, b: seq<string>)
    ensures Size(a + b) == Size(a) + Size(b)
  {
    if a == [] {
      assert a + b == b;
    } else {
      assert (a + b)[1..] == a[1..] + b;
      SizeAppend(a[1..], b);
    }
  }

  lemma {:induction false} JoinSize(lines: seq<string>)
    ensures |Join(lines, "\n")| == if lines == [] then 0 else Size(lines) - 1
  {
    if |lines| > 1 { JoinSize(lines[1..]); }
  }

  function FactsSize(memories: seq<MemoryRecord>): nat {
    Size(FactLines(memories))
  }

  function ProfileSize(header: string, memories: seq<MemoryRecord>, scope: Scope): nat {
    Size(ProfileLines(header, memories, scope))
  }

  lemma {:induction false} MemoriesSize(memories: seq<MemoryRecord>)
    ensures |RenderMemories(memories)| == if memories == [] then 0 else
      ProfileSize("## User Profile", memories, UserScope) + ProfileSize("## Group Context", memories, GroupScope)
      + FactsSize(memories) - 1
  {
    var u := ProfileLines("## User Profile", memories, UserScope);
    var g := ProfileLines("## Group Context", memories, GroupScope);
    var f := FactLines(memories);
    if memories == [] { assert u + g + f == []; }
    hide ProfileLines, FactLines;
    SizeAppend(u, g);
    SizeAppend(u + g, f);
    JoinSize(u + g + f);
  }

  function FactSizes(memories: seq<MemoryRecord>): nat {
    if memories == [] then 0 else |FactLine(memories[0])| + 1 + FactSizes(memories[1..])
  }

  lemma {:induction false} FactSizesAppend(a: seq<MemoryRecord>, b: seq<MemoryRecord>)
    ensures FactSizes(a + b) == FactSizes(a) + FactSizes(b)
  {
    hide FactLine;
    if a == [] {
      assert a + b == b;
    } else {
      assert (a + b)[1..] == a[1..] + b;
      FactSizesAppend(a[1..], b);
    }
  }

  lemma {:induction false} FactLinesSize(memories: seq<MemoryRecord>)
    ensures Size(seq(|memories|, i requires 0 <= i < |memories| => FactLine(memories[i]))) == FactSizes(memories)
  {
    hide FactLine;
    if memories != [] {
      var lines := seq(|memories|, i requires 0 <= i < |memories| => FactLine(memories[i]));
      assert lines[1..] == seq(|memories[1..]|, i requires 0 <= i < |memories[1..]| => FactLine(memories[1..][i]));
      FactLinesSize(memories[1..]);
    }
  }

  lemma {:induction false} FactsSizeIs(memories: seq<MemoryRecord>)
    requires memories != []
    ensures FactsSize(memories) == 19 + FactSizes(memories)
  {
    hide FactLine;
    var lines := seq(|memories|, i requires 0 <= i < |memories| => FactLine(memories[i]));
    FactLinesSize(memories);
    var header := ["## Relevant Facts"];
    SizeAppend(header, lines);
    SizeAppend(header + lines, [""]);
    assert Size(header) == 18 + Size(header[1..]) && Size([""]) == 1 + Size([""][1..]);
  }

  lemma {:induction false} ProfileAppend(header: string, a: seq<MemoryRecord>, b: seq<MemoryRecord>, scope: Scope)
    ensures ProfileLines(header, a + b, scope) ==
      if HasProfile(a, scope) then ProfileLines(header, a, scope) else ProfileLines(header, b, scope)
  {
    hide IsProfile, HasProfile;
    assert !HasProfile([], scope) by { NobodyHasProfile(scope); }
    if a == [] {
      assert a + b == b;
    } else {
      assert (a + b)[0] == a[0] && (a + b)[1..] == a[1..] + b;
      ProfileAppend(header, a[1..], b, scope);
      HasProfileCons(a, scope);
    }
  }

  lemma NobodyHasProfile(scope: Scope)
    ensures !HasProfile([], scope)
  {
  }

  lemma HasProfileCons(a: seq<MemoryRecord>, scope: Scope)
    requires a != []
    ensures HasProfile(a, scope) <==> IsProfile(a[0], scope) || HasProfile(a[1..], scope)
  {
    assert forall x :: x in a <==> x == a[0] || x in a[1..];
  }

  function Header(scope: Scope): string {
    if scope == UserScope then "## User Profile" else "## Group Context"
  }

  predicate HasProfile(memories: seq<MemoryRecord>, scope: Scope) {
    exists x :: x in memories && IsProfile(x, scope)
  }

  lemma SizeOne(line: string)
    ensures Size([line]) == |line| + 1
  {
    assert [line][1..] == [];
  }

  lemma {:induction false} SectionOfOne(header: string, m: MemoryRecord, scope: Scope)
    ensures ProfileSize(header, [m], scope) == if IsProfile(m, scope) then |header| + |m.content| + 3 else 0
  {
    if IsProfile(m, scope) {
      var lines := [header, m.content, ""];
      assert ProfileLines(header, [m], scope) == lines;
      assert lines == [header] + ([m.content] + [""]);
      SizeAppend([header], [m.content] + [""]);
      SizeAppend([m.content], [""]);
      SizeOne(header);
      SizeOne(m.content);
      SizeOne("");
    }
  }

  lemma {:induction false} NoProfileNoSection(header: string, memories: seq<MemoryRecord>, scope: Scope)
    ensures !HasProfile(memories, scope) ==> ProfileLines(header, memories, scope) == []
  {
  }

  lemma {:induction false} SectionGrows(header: string, a: seq<MemoryRecord>, c: seq<MemoryRecord>, scope: Scope)
    ensures ProfileSize(header, a, scope) <= ProfileSize(header, a + c, scope)
  {
    ProfileAppend(header, a, c, scope);
    NoProfileNoSection(header, a, scope);
  }

  lemma {:induction false} SectionGrowsWith(
    header: string, a: seq<MemoryRecord>, c: seq<MemoryRecord>, m: MemoryRecord, scope: Scope)
    ensures ProfileSize(header, a + [m], scope) <= ProfileSize(header, a + c + [m], scope) +
      if IsProfile(m, scope) && !HasProfile(a, scope) && HasProfile(a + c, scope) then |header| + |m.content| + 3 else 0
  {
    ProfileAppend(header, a, [m], scope);
    ProfileAppend(header, a, c + [m], scope);
    ProfileAppend(header, a + c, [m], scope);
    assert a + c + [m] == a + (c + [m]);
    HasProfileMore(a, c, scope);
    hide IsProfile, ProfileLines, HasProfile;
    SectionOfOne(header, m, scope);
  }

  lemma HasProfileMore(a: seq<MemoryRecord>, c: seq<MemoryRecord>, scope: Scope)
    ensures HasProfile(a, scope) ==> HasProfile(a + c, scope)
  {
    if x :| x in a && IsProfile(x, scope) {
      assert x in a + c;
    }
  }

  lemma {:induction false} FactsGrow(a: seq<MemoryRecord>, b: seq<MemoryRecord>)
    requires a != [] && FactSizes(a) <= FactSizes(b)
    ensures b != []
    ensures FactsSize(a) <= FactsSize(b)
  {
    FactsSizeIs(a);
    if b != [] { FactsSizeIs(b); }
  }

  /** More memories never render shorter. */
  lemma {:induction false} MemoryLayerGrows(a: seq<MemoryRecord>, c: seq<MemoryRecord>)
    ensures |RenderMemories(a)| <= |RenderMemories(a + c)|
  {
    MemoriesSize(a);
    if a != [] {
      MemoriesSize(a + c);
      FactSizesAppend(a, c);
      FactsGrow(a, a + c);
      SectionGrows("## User Profile", a, c, UserScope);
      SectionGrows("## Group Context", a, c, GroupScope);
      hide ProfileSize, FactsSize, FactSizes, RenderMemories;
    }
  }

  /** The room of the profile section that a memory would have opened after `before`, when by `after` another
      memory has opened it. */
  function SectionSize(before: seq<MemoryRecord>, after: seq<MemoryRecord>, m: MemoryRecord): nat {
    if m.kind == Summary && (m.scope == UserScope || m.scope == GroupScope)
       && !HasProfile(before, m.scope) && HasProfile(after, m.scope)
    then |Header(m.scope)| + |m.content| + 3
    else 0
  }

  lemma {:induction false} FactSizesWith(a: seq<MemoryRecord>, c: seq<MemoryRecord>, m: MemoryRecord)
    ensures FactsSize(a + [m]) <= FactsSize(a + c + [m])
  {
    FactSizesAppend(a, [m]);
    FactSizesAppend(a, c);
    FactSizesAppend(a + c, [m]);
    FactsGrow(a + [m], a + c + [m]);
  }

  /** Listing others first can only save a memory its own profile section, and only if one of them takes it. */
  lemma {:induction false} MemoryLayerGrowsWith(a: seq<MemoryRecord>, c: seq<MemoryRecord>, m: MemoryRecord)
    ensures |RenderMemories(a + [m])| <= |RenderMemories(a + c + [m])| + SectionSize(a, a + c, m)
  {
    MemoriesSize(a + [m]);
    MemoriesSize(a + c + [m]);
    FactSizesWith(a, c, m);
    SectionGrowsWith("## User Profile", a, c, m, UserScope);
    SectionGrowsWith("## Group Context", a, c, m, GroupScope);
    hide ProfileSize, FactsSize, FactSizes, RenderMemories, HasProfile;
  }

  /** The memory layer adds to the rest of the cost. */
  lemma MemoryCostIsSeparate(
    context: Materialized, memories: seq<MemoryRecord>, fields: seq<IdentityField>, isGroup: bool, lit: Literal)
    ensures CalculateTokenBudget(context, memories, fields, isGroup, lit).used
         == CalculateTokenBudget(context, [], fields, isGroup, lit).used + Tokens(RenderMemories(memories))
  {
    hide MessagesTokens, CurrentSpeaker, RenderIdentity, RenderParticipants, RenderReferences, PromptFields;
    MemoriesSize([]);
    hide RenderMemories;
  }
}
