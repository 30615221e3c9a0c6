// The cost of a selection in numbers: what each part of the prompt adds, in code units.
module PromptSize {
  import opened Text
  import opened Sequences
  import opened References
  import opened PromptCost

  /** Tokens for a number of code units. */
  function Half(units: nat): nat {
    (units + 1) / 2
  }

  function Units(text: Option<string>): nat {
    if text.Some? then |text.value| else 0
  }

  function MessageUnits(m: RecentMessage, lit: Literal): nat {
    if m.isFromBot then Units(m.text)
    else 20 + |lit(m.senderDisplayName)| + if Units(m.text) > 0 then 15 + Units(m.text) else 0
  }

  function FactUnits(m: MemoryRecord): nat {
    9 + |m.title| + |m.content|
  }

  function ProfileUnits(memories: seq<MemoryRecord>, scope: Scope): nat {
    match Find(memories, (m: MemoryRecord) => m.scope == scope && m.kind == Summary)
    case None => 0
    case Some(i) => |memories[i].content| + if scope == UserScope then 18 else 19
  }

  function MemoryUnits(memories: seq<MemoryRecord>): nat {
    if memories == [] then 0
    else ProfileUnits(memories, UserScope) + ProfileUnits(memories, GroupScope) + 18 + Sum(memories, FactUnits)
  }

  /** The value a field is rendered with, when `speaker` wrote the current message. */
  function ShownValue(f: IdentityField, speaker: Option<string>): string {
    if f.name == "target_user_ref" && speaker.Some? then speaker.value else f.value
  }

  function FieldUnits(speaker: Option<string>, lit: Literal): IdentityField -> nat {
    (f: IdentityField) => 4 + |f.name| + |lit(ShownValue(f, speaker))|
  }

  function IdentityUnits(fields: seq<IdentityField>, speaker: Option<string>, lit: Literal): nat {
    if fields == [] then 0 else 12 + Sum(fields, FieldUnits(speaker, lit))
  }

  function FlagUnits(p: Participant): nat {
    var names: nat :=
      (if p.isOwner then 7 else 0) + (if p.isAdmin then 7 else 0) + (if p.isTrusted then 9 else 0);
    if names == 0 then 0 else names + 7
  }

  function RoleUnits(role: Option<Role>): nat {
    if role.None? then 0 else if role.value == Member then 12 else 11
  }

  function PersonUnits(p: Participant, lit: Literal): nat {
    29 + (if p.speakerRef.Some? then |p.speakerRef.value| else 15) + |lit(p.displayName)|
    + FlagUnits(p) + RoleUnits(p.role)
    + if p.groupCard.Some? && p.groupCard.value != "" then 12 + |lit(p.groupCard.value)| else 0
  }

  function ParticipantUnits(lit: Literal): Participant -> nat {
    (p: Participant) => PersonUnits(p, lit)
  }

  function ParticipantsUnits(ps: seq<Participant>, isGroup: bool, lit: Literal): nat {
    if !isGroup || ps == [] then 0 else 16 + Sum(ps, ParticipantUnits(lit))
  }

  function ReferenceUnits(currentRef: Option<string>): RecentMessage -> nat {
    (m: RecentMessage) =>
      if m.messageRef.None? || m.speakerRef.None? then 0
      else 43 + |m.messageRef.value| + |m.speakerRef.value|
           + (if m.isFromBot then 3 else 5) + if m.messageRef == currentRef then 4 else 5
  }

  function ReplyUnits(reply: Option<ReplyReference>): nat {
    match reply
    case None => 0
    case Some(Unresolved(source)) => 46 + |source|
    case Some(Resolved(source, target, speaker, bot, inWindow)) =>
      123 + |source| + |target| + |speaker| + (if bot then 3 else 5) + if inWindow then 4 else 5
  }

  function ReferencesUnits(messages: seq<RecentMessage>, currentRef: Option<string>, reply: Option<ReplyReference>): nat {
    if messages == [] then 0 else 22 + Sum(messages, ReferenceUnits(currentRef)) + ReplyUnits(reply)
  }

  function MessageTokens(lit: Literal): RecentMessage -> nat {
    (m: RecentMessage) => Half(MessageUnits(m, lit))
  }

  /** Who wrote the current message. */
  function SpeakerOf(context: Materialized): Option<string> {
    match Find(context.recentMessages, (m: RecentMessage) => m.isCurrent && m.messageRef == context.currentMessageRef)
    case None => None
    case Some(i) => context.recentMessages[i].speakerRef
  }

  // ---------------------------------------------------------------- lines

  function Length(): string -> nat {
    (s: string) => |s|
  }

  lemma {:induction false} JoinLength(parts: seq<string>, sep: string)
    requires parts != []
    ensures |Join(parts, sep)| == Sum(parts, Length()) + (|parts| - 1) * |sep|
  {
    if |parts| > 1 { JoinLength(parts[1..], sep); }
  }

  /** A titled section: the title, the lines, and an empty line. */
  lemma TitledSize(title: string, lines: seq<string>)
    ensures |Join([title] + lines + [""], "\n")| == |title| + 1 + Size(lines)
  {
    hide Join;
    JoinSize([title] + lines + [""]);
    SizeAppend([title], lines);
    SizeAppend([title] + lines, [""]);
    SizeOne(title);
    SizeOne("");
  }

  // ---------------------------------------------------------------- the layers

  lemma MessageSize(m: RecentMessage, lit: Literal)
    ensures Tokens(RenderMessage(m, lit)) == Half(MessageUnits(m, lit))
  {
    var field := "sender_display_name=" + lit(m.senderDisplayName);
    var text := OrElse(m.text, "");
    assert |text| == Units(m.text) && (text != "" <==> |text| > 0);
    assert |field + "\nmessage_text:\n" + text| == 20 + |lit(m.senderDisplayName)| + 15 + |text|;
  }

  lemma {:induction false} MessagesSize(messages: seq<RecentMessage>, lit: Literal)
    ensures MessagesTokens(messages, lit) == Sum(messages, MessageTokens(lit))
  {
    if messages != [] {
      MessageSize(messages[0], lit);
      MessagesSize(messages[1..], lit);
      hide RenderMessage, MessageUnits, Tokens, Half;
    }
  }

  lemma {:induction false} FactsAre(memories: seq<MemoryRecord>)
    ensures FactSizes(memories) == Sum(memories, FactUnits)
  {
    if memories != [] { FactsAre(memories[1..]); }
  }

  lemma ProfileIs(header: string, memories: seq<MemoryRecord>, scope: Scope)
    ensures ProfileSize(header, memories, scope) ==
      match Find(memories, (m: MemoryRecord) => m.scope == scope && m.kind == Summary)
      case None => 0
      case Some(i) => |header| + |memories[i].content| + 3
  {
    SameFind(memories, m => IsProfile(m, scope), memories, (m: MemoryRecord) => m.scope == scope && m.kind == Summary);
    match Find(memories, m => IsProfile(m, scope))
    case None =>
    case Some(i) =>
      var lines := [header, memories[i].content, ""];
      assert lines[1..] == [memories[i].content, ""] && lines[1..][1..] == [""];
      SizeOne("");
      assert Size(lines[1..]) == |memories[i].content| + 1 + Size([""]);
  }

  lemma MemorySize(memories: seq<MemoryRecord>)
    ensures Tokens(RenderMemories(memories)) == Half(MemoryUnits(memories))
  {
    MemoriesSize(memories);
    if memories != [] {
      ProfileIs("## User Profile", memories, UserScope);
      ProfileIs("## Group Context", memories, GroupScope);
      FactsSizeIs(memories);
      FactsAre(memories);
    }
    hide RenderMemories, ProfileSize, FactsSize, FactSizes;
  }

  lemma {:induction false} FieldsSize(fields: seq<IdentityField>, speaker: Option<string>, lit: Literal)
    ensures Size(IdentityLines(PromptFields(fields, speaker), lit)) == Sum(fields, FieldUnits(speaker, lit))
  {
    var lines := IdentityLines(PromptFields(fields, speaker), lit);
    if fields != [] {
      FieldsSize(fields[1..], speaker, lit);
      var v := lit(ShownValue(fields[0], speaker));
      assert lines[0] == "- " + fields[0].name + "=" + v && |lines[0]| == 3 + |fields[0].name| + |v|;
      assert lines[1..] == IdentityLines(PromptFields(fields[1..], speaker), lit);
    }
  }

  lemma IdentitySize(fields: seq<IdentityField>, speaker: Option<string>, lit: Literal)
    ensures Tokens(RenderIdentity(PromptFields(fields, speaker), lit)) == Half(IdentityUnits(fields, speaker, lit))
  {
    if fields != [] {
      TitledSize("## Identity", IdentityLines(PromptFields(fields, speaker), lit));
      FieldsSize(fields, speaker, lit);
    }
    hide IdentityLines, Sum, Size, FieldUnits, Join;
  }

  lemma {:induction false} JoinMaybe(parts: seq<string>, more: seq<string>, sep: string)
    requires parts != [] && |more| <= 1
    ensures |Join(parts + more, sep)| == |Join(parts, sep)| + if more == [] then 0 else |sep| + |more[0]|
  {
    if more == [] {
      assert parts + more == parts;
    } else {
      JoinLength(parts, sep);
      JoinLength(parts + more, sep);
      SumAppend(parts, more, Length());
      assert more[1..] == [];
    }
  }

  function FlagNames(p: Participant): seq<string> {
    (if p.isOwner then ["owner"] else []) + (if p.isAdmin then ["admin"] else [])
    + (if p.isTrusted then ["trusted"] else [])
  }

  lemma FlagsSize(p: Participant)
    ensures FlagNames(p) == [] <==> FlagUnits(p) == 0
    ensures FlagNames(p) != [] ==> |Join(FlagNames(p), ", ")| + 9 == FlagUnits(p)
  {
    var a := if p.isOwner then ["owner"] else [];
    var b := if p.isAdmin then ["admin"] else [];
    var c := if p.isTrusted then ["trusted"] else [];
    assert a + b + c == FlagNames(p) && (a == [] ==> a + b == b) && (a + b == [] ==> a + b + c == c);
    hide Join;
    if a != [] { JoinMaybe(a, b, ", "); }
    if a + b != [] { JoinMaybe(a + b, c, ", "); }
    JoinOne("owner");
    JoinOne("admin");
    JoinOne("trusted");
  }

  lemma JoinOne(x: string)
    ensures Join([x], ", ") == x
  {
  }

  lemma ParticipantSize(p: Participant, lit: Literal)
    ensures |RenderParticipant(p, lit)| + 1 == PersonUnits(p, lit)
  {
    var first := ["- speaker_ref=" + OrElse(p.speakerRef, "speaker_unknown"), "display_name=" + lit(p.displayName)];
    var flags := if FlagNames(p) != [] then ["flags=[" + Join(FlagNames(p), ", ") + "]"] else [];
    var role := if p.role.Some? then ["role=" + RoleName(p.role.value)] else [];
    var card := if OrElse(p.groupCard, "") != "" then ["group_card=" + lit(p.groupCard.value)] else [];
    FlagsSize(p);
    ParticipantParts(p, lit, first, flags, role, card);
    hide RenderParticipant, FlagNames, FlagUnits, Join;
    assert |first[0]| == 14 + (if p.speakerRef.Some? then |p.speakerRef.value| else 15);
    assert |first[1]| == 13 + |lit(p.displayName)|;
    assert flags != [] ==> |flags[0]| + 1 == FlagUnits(p);
    assert role != [] ==> |role[0]| + 1 == RoleUnits(p.role);
    assert card != [] ==> |card[0]| == 11 + |lit(p.groupCard.value)|;
  }

  lemma ParticipantParts(
    p: Participant, lit: Literal, first: seq<string>, flags: seq<string>, role: seq<string>, card: seq<string>)
    requires first == ["- speaker_ref=" + OrElse(p.speakerRef, "speaker_unknown"), "display_name=" + lit(p.displayName)]
    requires flags == if FlagNames(p) != [] then ["flags=[" + Join(FlagNames(p), ", ") + "]"] else []
    requires role == if p.role.Some? then ["role=" + RoleName(p.role.value)] else []
    requires card == if OrElse(p.groupCard, "") != "" then ["group_card=" + lit(p.groupCard.value)] else []
    ensures |RenderParticipant(p, lit)| ==
      |first[0]| + 1 + |first[1]| + MoreUnits(flags) + MoreUnits(role) + MoreUnits(card)
  {
    assert RenderParticipant(p, lit) == Join(first + flags + role + card, " ");
    assert |Join(first, " ")| == |first[0]| + 1 + |first[1]|;
    hide Join, RenderParticipant, FlagNames;
    JoinMaybe(first, flags, " ");
    JoinMaybe(first + flags, role, " ");
    JoinMaybe(first + flags + role, card, " ");
  }

  function MoreUnits(part: seq<string>): nat
    requires |part| <= 1
  {
    if part == [] then 0 else 1 + |part[0]|
  }

  lemma {:induction false} PeopleSize(ps: seq<Participant>, lit: Literal)
    ensures Size(ParticipantLines(ps, lit)) == Sum(ps, ParticipantUnits(lit))
  {
    hide RenderParticipant, PersonUnits;
    if ps != [] {
      PeopleSize(ps[1..], lit);
      ParticipantSize(ps[0], lit);
      var lines := ParticipantLines(ps, lit);
      assert lines[0] == RenderParticipant(ps[0], lit) && lines[1..] == ParticipantLines(ps[1..], lit);
    }
  }

  lemma ParticipantsSize(ps: seq<Participant>, isGroup: bool, lit: Literal)
    ensures Tokens(RenderParticipants(ps, isGroup, lit)) == Half(ParticipantsUnits(ps, isGroup, lit))
  {
    TitledSize("## Participants", ParticipantLines(ps, lit));
    PeopleSize(ps, lit);
    hide ParticipantLines, Sum, Size, ParticipantUnits, Join;
  }

  lemma {:induction false} ReferenceLinesSize(messages: seq<RecentMessage>, currentRef: Option<string>)
    ensures Size(ReferenceLines(messages, currentRef)) == Sum(messages, ReferenceUnits(currentRef))
  {
    if messages != [] {
      var m := messages[0];
      ReferenceLinesSize(messages[1..], currentRef);
      if m.messageRef.Some? && m.speakerRef.Some? {
        var line := "- message_ref=" + m.messageRef.value + " speaker_ref=" + m.speakerRef.value
          + " role=" + (if m.isFromBot then "bot" else "human")
          + " current=" + (if m.messageRef == currentRef then "true" else "false");
        assert |line| + 1 == ReferenceUnits(currentRef)(m);
        SizeAppend([line], ReferenceLines(messages[1..], currentRef));
        SizeOne(line);
      } else {
        assert [] + ReferenceLines(messages[1..], currentRef) == ReferenceLines(messages[1..], currentRef);
      }
    }
  }

  lemma {:induction false} SumSeven(a: string, b: string, c: string, d: string, e: string, f: string, g: string)
    ensures Sum([a, b, c, d, e, f, g], Length()) == |a| + |b| + |c| + |d| + |e| + |f| + |g|
  {
    hide Sum, Length;
    SumThree(a, b, c);
    SumThree(d, e, f);
    SumAppend([a, b, c], [d, e, f], Length());
    SumAppend([a, b, c, d, e, f], [g], Length());
    SumSingle(g);
    assert [a, b, c] + [d, e, f] == [a, b, c, d, e, f];
    assert [a, b, c, d, e, f] + [g] == [a, b, c, d, e, f, g];
  }

  lemma SumSingle(a: string)
    ensures Sum([a], Length()) == |a|
  {
    assert [a][1..] == [];
  }

  lemma SumThree(a: string, b: string, c: string)
    ensures Sum([a, b, c], Length()) == |a| + |b| + |c|
  {
    assert [a, b, c][1..] == [b, c] && [b, c][1..] == [c];
    SumSingle(c);
  }

  lemma ReplySize(reply: ReplyReference)
    ensures |ReplyLine(reply)| + 1 == ReplyUnits(Some(reply))
  {
    hide Sum, Join;
    match reply {
      case Unresolved(source) =>
        var last := "source_message_ref=" + source;
        JoinLength(["- reply", "status=unresolved", last], " ");
        SumThree("- reply", "status=unresolved", last);
      case Resolved(source, target, speaker, bot, inWindow) =>
        var a, b, c := "source_message_ref=" + source, "target_message_ref=" + target, "target_speaker_ref=" + speaker;
        var d := "target_role=" + (if bot then "bot" else "human");
        var e := "target_in_rolling_window=" + (if inWindow then "true" else "false");
        JoinLength(["- reply", "status=resolved", a, b, c, d, e], " ");
        SumSeven("- reply", "status=resolved", a, b, c, d, e);
    }
  }

  lemma ReferencesSize(messages: seq<RecentMessage>, currentRef: Option<string>, reply: Option<ReplyReference>)
    ensures Tokens(RenderReferences(messages, currentRef, reply)) == Half(ReferencesUnits(messages, currentRef, reply))
  {
    if messages != [] {
      var header, lines := ["## Message References"], ReferenceLines(messages, currentRef);
      var last := if reply.Some? then [ReplyLine(reply.value)] else [];
      assert RenderReferences(messages, currentRef, reply) == Join(header + lines + last + [""], "\n");
      ReferenceLinesSize(messages, currentRef);
      if reply.Some? { ReplySize(reply.value); SizeOne(ReplyLine(reply.value)); }
      SizeOne("## Message References");
      SizeOne("");
      hide ReferenceLines, ReplyLine, RenderReferences, Join, Sum;
      JoinSize(header + lines + last + [""]);
      SizeAppend(header, lines);
      SizeAppend(header + lines, last);
      SizeAppend(header + lines + last, [""]);
    }
  }

  // ---------------------------------------------------------------- the whole prompt

  /** The cost of a selection, layer by layer, in code units of its texts, names, titles and references. */
  lemma CostIsExact(
    context: Materialized, memories: seq<MemoryRecord>, fields: seq<IdentityField>, isGroup: bool, lit: Literal)
    ensures var b := CalculateTokenBudget(context, memories, fields, isGroup, lit);
      var messages := Sum(context.recentMessages, MessageTokens(lit));
      var memory := Half(MemoryUnits(memories));
      var identity := Half(IdentityUnits(fields, SpeakerOf(context), lit));
      var people := Half(ParticipantsUnits(context.participants, isGroup, lit));
      var references :=
        Half(ReferencesUnits(context.recentMessages, context.currentMessageRef, context.replyReference));
      && b.max == 8000 && b.used == messages + memory + identity + people + references + 300
      && b.breakdown == Breakdown(messages, memory, identity + people + references, 300)
      && b.promptLayers == [
           PromptLayer("recent_messages", "pi-prompt-recent-message-v2", messages),
           PromptLayer("memory_context", "pi-prompt-memory-context-v2", memory),
           PromptLayer("identity_fields", "context-builder-identity-fields-v2", identity),
           PromptLayer("participant_context", "pi-prompt-participant-context-v3", people),
           PromptLayer("message_references", "pi-prompt-message-reference-v1", references),
           PromptLayer("system_prompt_estimate", "bounded-system-estimate-v1", 300)]
  {
    MessagesSize(context.recentMessages, lit);
    MemorySize(memories);
    var ref := context.currentMessageRef;
    SameFind(context.recentMessages, (m: RecentMessage) => m.messageRef == ref && m.isCurrent,
      context.recentMessages, (m: RecentMessage) => m.isCurrent && m.messageRef == ref);
    assert CurrentSpeaker(context.recentMessages, ref) == SpeakerOf(context);
    IdentitySize(fields, SpeakerOf(context), lit);
    ParticipantsSize(context.participants, isGroup, lit);
    ReferencesSize(context.recentMessages, ref, context.replyReference);
    hide Sum, Half, Tokens, MessagesTokens, RenderMemories, RenderIdentity, RenderParticipants, RenderReferences,
         MemoryUnits, IdentityUnits, ParticipantsUnits, ReferencesUnits, CurrentSpeaker, SpeakerOf, PromptFields,
         MessageTokens;
  }

  /** One more message adds its own rendering to the message layer, and nothing is ever dropped from it. */
  lemma OneMoreMessage(
    context: Materialized, m: RecentMessage, memories: seq<MemoryRecord>, fields: seq<IdentityField>, isGroup: bool,
    lit: Literal)
    ensures var more := context.(recentMessages := context.recentMessages + [m]);
      CalculateTokenBudget(more, memories, fields, isGroup, lit).breakdown.recentMessages
      == CalculateTokenBudget(context, memories, fields, isGroup, lit).breakdown.recentMessages
         + Half(MessageUnits(m, lit))
  {
    CostIsExact(context, memories, fields, isGroup, lit);
    CostIsExact(context.(recentMessages := context.recentMessages + [m]), memories, fields, isGroup, lit);
    SumAppend(context.recentMessages, [m], MessageTokens(lit));
    assert [m][1..] == [];
    hide CalculateTokenBudget, MessageUnits, Half, MemoryUnits, IdentityUnits, ParticipantsUnits, ReferencesUnits;
  }

  function Said(m: RecentMessage, lit: Literal): nat {
    Units(m.text) + if m.isFromBot then 0 else |lit(m.senderDisplayName)|
  }

  function SaidUnits(lit: Literal): RecentMessage -> nat {
    (m: RecentMessage) => Said(m, lit)
  }

  function KnownUnits(m: MemoryRecord): nat {
    |m.title| + |m.content|
  }

  function ShownUnits(speaker: Option<string>, lit: Literal): IdentityField -> nat {
    (f: IdentityField) => |f.name| + |lit(ShownValue(f, speaker))|
  }

  function NameUnits(lit: Literal): Participant -> nat {
    (p: Participant) => |lit(p.displayName)|
  }

  /** Texts and names of messages, titles and contents of memories, shown fields, and names of participants. */
  function Substance(
    context: Materialized, memories: seq<MemoryRecord>, fields: seq<IdentityField>, isGroup: bool, lit: Literal): nat
  {
    Sum(context.recentMessages, SaidUnits(lit)) + Sum(memories, KnownUnits)
    + Sum(fields, ShownUnits(SpeakerOf(context), lit))
    + if isGroup then Sum(context.participants, NameUnits(lit)) else 0
  }

  lemma {:induction false} SumHalves(messages: seq<RecentMessage>, lit: Literal)
    ensures 2 * Sum(messages, MessageTokens(lit)) >= Sum(messages, SaidUnits(lit))
  {
    if messages != [] { SumHalves(messages[1..], lit); }
  }

  lemma UsedIs(
    context: Materialized, memories: seq<MemoryRecord>, fields: seq<IdentityField>, isGroup: bool, lit: Literal)
    ensures CalculateTokenBudget(context, memories, fields, isGroup, lit).used
      == Sum(context.recentMessages, MessageTokens(lit)) + Half(MemoryUnits(memories))
         + Half(IdentityUnits(fields, SpeakerOf(context), lit))
         + Half(ParticipantsUnits(context.participants, isGroup, lit))
         + Half(ReferencesUnits(context.recentMessages, context.currentMessageRef, context.replyReference)) + 300
  {
    CostIsExact(context, memories, fields, isGroup, lit);
    hide *;
  }

  lemma EmptySums(context: Materialized, memories: seq<MemoryRecord>, fields: seq<IdentityField>, lit: Literal)
    ensures memories == [] ==> Sum(memories, KnownUnits) == 0
    ensures fields == [] ==> Sum(fields, ShownUnits(SpeakerOf(context), lit)) == 0
    ensures context.participants == [] ==> Sum(context.participants, NameUnits(lit)) == 0
  {
  }

  /** The cost covers everything the prompt shows, at two code units a token, besides 300 tokens of the system. */
  lemma CostCoversSubstance(
    context: Materialized, memories: seq<MemoryRecord>, fields: seq<IdentityField>, isGroup: bool, lit: Literal)
    ensures 2 * CalculateTokenBudget(context, memories, fields, isGroup, lit).used
         >= 600 + Substance(context, memories, fields, isGroup, lit)
  {
    var speaker := SpeakerOf(context);
    SumHalves(context.recentMessages, lit);
    SumLeq(memories, KnownUnits, FactUnits);
    SumLeq(fields, ShownUnits(speaker, lit), FieldUnits(speaker, lit));
    SumLeq(context.participants, NameUnits(lit), ParticipantUnits(lit));
    UsedIs(context, memories, fields, isGroup, lit);
    hide CalculateTokenBudget, SpeakerOf, MessageTokens, SaidUnits, ReferencesUnits, ProfileUnits, ShownUnits,
         FieldUnits, NameUnits, ParticipantUnits, FactUnits, KnownUnits, Sum;
    EmptySums(context, memories, fields, lit);
  }
}
