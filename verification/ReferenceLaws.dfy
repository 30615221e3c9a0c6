// What the reference context says of the kept messages, field by field.
module ReferenceLaws {
  import opened Text
  import opened Sequences
  import opened References

  /** Under which key and by which name a message is spoken. */
  function SpokenAs(m: RecentMessage, identities: map<string, Identity>): string {
    if m.messageId in identities then identities[m.messageId].identityKey
    else if m.isFromBot then "bot:self" else "sender:" + m.senderId
  }

  function ShownName(m: RecentMessage, identities: map<string, Identity>): string {
    if m.messageId in identities then identities[m.messageId].displayName
    else if m.isFromBot then "LetheBot" else "unknown"
  }

  /** Message `i` is the `i + 1`st, is shown by its speaker's name, shares its speaker's reference with exactly the
      messages spoken under its key, and is current exactly when it is the one asked for. */
  lemma NumberedExactly(messages: seq<RecentMessage>, scene: Scene, i: nat, j: nat)
    requires i < |messages| && j < |messages|
    ensures var r := Materialize(messages, scene).recentMessages;
      && |r| == |messages| && r[i].speakerRef.Some?
      && r[i] == messages[i].(
           senderDisplayName := ShownName(messages[i], scene.identities), messageRef := Some("message_" + Decimal(i + 1)),
           speakerRef := r[i].speakerRef, isCurrent := scene.currentMessageId == Some(messages[i].messageId))
      && (r[i].speakerRef == r[j].speakerRef <==>
            SpokenAs(messages[i], scene.identities) == SpokenAs(messages[j], scene.identities))
  {
    RefsFollowKeys(messages, scene, i, j);
    KeyOf(messages, scene.identities, i);
    KeyOf(messages, scene.identities, j);
    NumberedAt(messages, scene, i);
    hide Keys, SpeakerRef, Decimal, SpeakerNumber, Numbered, Participants, Distinct;
  }

  lemma NumberedKeeps(messages: seq<RecentMessage>, scene: Scene)
    ensures forall i | 0 <= i < |messages| ::
      var m := Numbered(messages, scene)[i];
      && m.messageId == messages[i].messageId && m.isFromBot == messages[i].isFromBot
      && m.senderId == messages[i].senderId && m.senderRole == messages[i].senderRole
      && m.messageRef == Some("message_" + Decimal(i + 1)) && m.speakerRef.Some?
      && m.isCurrent == (scene.currentMessageId == Some(messages[i].messageId))
  {
    forall i | 0 <= i < |messages|
      ensures Numbered(messages, scene)[i] == Number(messages[i], i, Keys(messages, scene.identities), scene)
    {
      NumberedAt(messages, scene, i);
    }
    hide Numbered, Keys, SpeakerRef, Decimal, SpeakerNumber, IdentityOf;
  }

  /** Message `i` is the first with the id. */
  predicate IsFirst(messages: seq<RecentMessage>, id: Option<string>, i: nat) {
    && i < |messages| && id == Some(messages[i].messageId)
    && forall k | 0 <= k < i :: id != Some(messages[k].messageId)
  }

  predicate Contains(messages: seq<RecentMessage>, id: Option<string>) {
    exists m | m in messages :: id == Some(m.messageId)
  }

  lemma FoundFirst(
    messages: seq<RecentMessage>, numbered: seq<RecentMessage>, p: RecentMessage -> bool, id: Option<string>)
    requires |numbered| == |messages|
    requires forall i | 0 <= i < |messages| :: p(numbered[i]) == (id == Some(messages[i].messageId))
    ensures var at := Find(numbered, p);
      (at.Some? <==> Contains(messages, id)) && forall i: nat :: IsFirst(messages, id, i) <==> at == Some(i)
  {
    var at := Find(numbered, p);
    if at.Some? { assert messages[at.value] in messages; }
    forall i: nat ensures IsFirst(messages, id, i) <==> at == Some(i) {
      if at.Some? && i < |messages| && i < at.value { assert !p(numbered[i]); }
    }
    if m :| m in messages && id == Some(m.messageId) {
      var i :| 0 <= i < |messages| && messages[i] == m;
      assert p(numbered[i]);
    }
  }

  /** The current reference is that of the first message asked for, if there is one. */
  lemma CurrentExactly(messages: seq<RecentMessage>, scene: Scene)
    ensures var ref := Materialize(messages, scene).currentMessageRef;
      && (ref.Some? <==> Contains(messages, scene.currentMessageId))
      && forall i: nat | IsFirst(messages, scene.currentMessageId, i) :: ref == Some("message_" + Decimal(i + 1))
  {
    NumberedKeeps(messages, scene);
    FoundFirst(messages, Numbered(messages, scene), (m: RecentMessage) => m.isCurrent, scene.currentMessageId);
    hide Numbered, Participants, Decimal, ReplyReferenceOf, Distinct, Keys, Contains, IsFirst;
  }

  /** A reply is reported for a current message. It is resolved, with the reference, the speaker and the role of the
      first message it points at, exactly when it was resolved and that message is kept. */
  lemma ReplyExactly(messages: seq<RecentMessage>, scene: Scene)
    ensures var c := Materialize(messages, scene);
      && (c.replyReference.Some? <==> scene.reply.Some? && c.currentMessageRef.Some?)
      && (c.replyReference.Some? ==> ReportsReply(messages, c, scene.reply.value))
  {
    var c, numbered := Materialize(messages, scene), Numbered(messages, scene);
    if scene.reply.Some? && c.currentMessageRef.Some? {
      NumberedKeeps(messages, scene);
      ReplyOf(messages, numbered, c.currentMessageRef.value, scene.reply.value);
    }
    hide Numbered, Contains, IsFirst, Decimal, ReplyReferenceOf, Participants, Distinct, Keys;
  }

  lemma ReplyOf(messages: seq<RecentMessage>, numbered: seq<RecentMessage>, source: string, reply: ReplyResolution)
    requires |numbered| == |messages| && forall m | m in numbered :: m.messageRef.Some? && m.speakerRef.Some?
    requires forall i | 0 <= i < |messages| ::
      && numbered[i].messageId == messages[i].messageId && numbered[i].isFromBot == messages[i].isFromBot
      && numbered[i].messageRef == Some("message_" + Decimal(i + 1))
    ensures var c := Materialized(numbered, [], Some(source), Some(ReplyReferenceOf(numbered, source, reply)));
      ReportsReply(messages, c, reply)
  {
    hide Contains, IsFirst, Decimal;
    if reply.targetMessageId.Some? {
      var p := (m: RecentMessage) => m.messageId == reply.targetMessageId.value;
      FoundFirst(messages, numbered, p, reply.targetMessageId);
      var at := Find(numbered, p);
      if at.Some? { assert IsFirst(messages, reply.targetMessageId, at.value); }
    } else {
      NothingAskedFor(messages);
    }
  }

  lemma NothingAskedFor(messages: seq<RecentMessage>)
    ensures !Contains(messages, None)
  {
  }

  predicate ReportsReply(messages: seq<RecentMessage>, c: Materialized, reply: ReplyResolution)
    requires c.replyReference.Some?
  {
    var r := c.replyReference.value;
    && Some(r.source) == c.currentMessageRef
    && (r.Resolved? <==> reply.resolved && Contains(messages, reply.targetMessageId))
    && (r.Resolved? ==> exists j: nat | j < |messages| && j < |c.recentMessages| ::
          && IsFirst(messages, reply.targetMessageId, j)
          && r.target == "message_" + Decimal(j + 1) && Some(r.targetSpeaker) == c.recentMessages[j].speakerRef
          && r.targetIsBot == messages[j].isFromBot && r.inRollingWindow == (reply.targetInRollingWindow == Some(true)))
  }

  // ---------------------------------------------------------------- participants

  function PrefixedId(id: string): string {
    if |id| >= 3 && id[..3] == "qq-" then id else "qq-" + id
  }

  /** The supplied participant is the message's sender, by canonical user or by account. */
  predicate IsSender(p: Participant, m: RecentMessage, identities: map<string, Identity>) {
    || (m.messageId in identities && identities[m.messageId].canonicalUserId.Some?
        && p.canonicalUserId == identities[m.messageId].canonicalUserId)
    || (p.platformAccountId.Some? && PrefixedId(p.platformAccountId.value) == m.senderId)
  }

  /** The entry says of the sender of `m` what the message's own identity says, else the message, else the first
      supplied participant who is the sender; what only that one can say it says alone. */
  predicate Describes(p: Participant, m: RecentMessage, scene: Scene) {
    var own := if m.messageId in scene.identities then Some(scene.identities[m.messageId]) else None;
    var at := Find(scene.participants, (x: Participant) => IsSender(x, m, scene.identities));
    var given := if at.Some? then Some(scene.participants[at.value]) else None;
    && p.speakerRef == m.speakerRef && p.platformAccountId == None
    && p.canonicalUserId == (if own.Some? && own.value.canonicalUserId.Some? then own.value.canonicalUserId
                             else if given.Some? then given.value.canonicalUserId else None)
    && p.displayName == (if own.Some? && own.value.displayName != "unknown" then own.value.displayName
                         else if given.Some? then given.value.displayName else "unknown")
    && p.groupCard == (if given.Some? then given.value.groupCard else None)
    && p.role == (if own.Some? && own.value.role.Some? then own.value.role
                  else if m.senderRole.Some? then m.senderRole
                  else if given.Some? then given.value.role else None)
    && p.isOwner == (if given.Some? then given.value.isOwner else p.role == Some(Owner))
    && p.isAdmin == (if given.Some? then given.value.isAdmin else p.role == Some(Admin) || p.role == Some(Owner))
    && p.isTrusted == (given.Some? && given.value.isTrusted)
  }

  lemma ParticipantDescribes(m: RecentMessage, scene: Scene)
    ensures Describes(ParticipantFor(m, scene), m, scene)
  {
    var identity := Lookup(m, scene.identities);
    forall i | 0 <= i < |scene.participants|
      ensures Supplies(scene.participants[i], identity, m.senderId)
           == IsSender(scene.participants[i], m, scene.identities) {}
    SameFind(scene.participants, p => Supplies(p, identity, m.senderId),
      scene.participants, (x: Participant) => IsSender(x, m, scene.identities));
    hide Supplies, IsSender;
  }

  /** Message `i` is the first of a human speaker. */
  predicate FirstWords(messages: seq<RecentMessage>, i: nat) {
    && i < |messages| && !messages[i].isFromBot && messages[i].speakerRef.Some?
    && forall k | 0 <= k < i :: messages[k].isFromBot || messages[k].speakerRef != messages[i].speakerRef
  }

  /** `places` are the first messages of the human speakers, in order. */
  ghost predicate ArePlaces(messages: seq<RecentMessage>, places: seq<nat>) {
    && (forall a, b | 0 <= a < b < |places| :: places[a] < places[b])
    && (forall i: nat :: i in places <==> FirstWords(messages, i))
  }

  /** The participants are described by the messages at the places. */
  predicate SpeakAt(ps: seq<Participant>, messages: seq<RecentMessage>, places: seq<nat>, scene: Scene) {
    |ps| == |places| && forall a | 0 <= a < |ps| ::
      places[a] < |messages| && ps[a] == ParticipantFor(messages[places[a]], scene)
  }

  lemma {:induction false} SpeakersInOrder(messages: seq<RecentMessage>, scene: Scene) returns (places: seq<nat>)
    ensures ArePlaces(messages, places) && SpeakAt(FirstSpeakers(messages, scene), messages, places, scene)
  {
    places := [];
    if messages == [] {
      InRange(messages);
    } else {
      hide *;
      var n := |messages| - 1;
      var before := SpeakersInOrder(messages[..n], scene);
      places := if FirstWords(messages, n) then before + [n] else before;
      MorePlaces(messages, before);
      MoreSpeakers(messages, before, scene);
    }
  }

  lemma MorePlaces(messages: seq<RecentMessage>, before: seq<nat>)
    requires messages != [] && ArePlaces(messages[..|messages| - 1], before)
    ensures var n := |messages| - 1;
      ArePlaces(messages, if FirstWords(messages, n) then before + [n] else before)
  {
    var n := |messages| - 1;
    LastWords(messages);
    InRange(messages[..n]);
    hide FirstWords;
    var places := if FirstWords(messages, n) then before + [n] else before;
    forall i: nat ensures i in places <==> FirstWords(messages, i) {
      assert i in places <==> i in before || (FirstWords(messages, n) && i == n);
    }
    forall a, b | 0 <= a < b < |places| ensures places[a] < places[b] {
      assert before[a] in before;
    }
  }

  lemma MoreSpeakers(messages: seq<RecentMessage>, before: seq<nat>, scene: Scene)
    requires messages != []
    requires SpeakAt(FirstSpeakers(messages[..|messages| - 1], scene), messages[..|messages| - 1], before, scene)
    ensures var n := |messages| - 1;
      SpeakAt(FirstSpeakers(messages, scene), messages, if FirstWords(messages, n) then before + [n] else before, scene)
  {
    var n := |messages| - 1;
    var ps := FirstSpeakers(messages[..n], scene);
    LastSpeaker(messages, scene);
    LastWords(messages);
    SpeakLater(ps, messages, before, scene);
    hide ParticipantFor, HumanRefs, FirstWords, FirstSpeakers, SpeakAt;
    if FirstWords(messages, n) {
      assert FirstSpeakers(messages, scene) == ps + [ParticipantFor(messages[n], scene)];
      SpeakNow(ps, messages, before, scene);
    } else {
      assert FirstSpeakers(messages, scene) == ps + [] == ps;
    }
  }

  lemma SpeakLater(ps: seq<Participant>, messages: seq<RecentMessage>, before: seq<nat>, scene: Scene)
    requires messages != [] && SpeakAt(ps, messages[..|messages| - 1], before, scene)
    ensures SpeakAt(ps, messages, before, scene)
  {
    hide ParticipantFor;
    forall a | 0 <= a < |ps| ensures before[a] < |messages| && ps[a] == ParticipantFor(messages[before[a]], scene) {
      assert messages[..|messages| - 1][before[a]] == messages[before[a]];
    }
  }

  lemma SpeakNow(ps: seq<Participant>, messages: seq<RecentMessage>, before: seq<nat>, scene: Scene)
    requires messages != [] && SpeakAt(ps, messages, before, scene)
    ensures var n := |messages| - 1; SpeakAt(ps + [ParticipantFor(messages[n], scene)], messages, before + [n], scene)
  {
    hide ParticipantFor;
  }

  /** What one more message adds to the first words. */
  lemma LastWords(messages: seq<RecentMessage>)
    requires messages != []
    ensures var n := |messages| - 1;
      && (forall i: nat ::
            FirstWords(messages, i) <==> FirstWords(messages[..n], i) || (i == n && FirstWords(messages, n)))
      && (FirstWords(messages, n) <==>
            !(messages[n].isFromBot || messages[n].speakerRef.None?
              || messages[n].speakerRef.value in HumanRefs(messages[..n])))
  {
    var n := |messages| - 1;
    var init := messages[..n];
    forall i: nat ensures FirstWords(messages, i) <==> FirstWords(init, i) || (i == n && FirstWords(messages, n)) {}
    assert forall k | 0 <= k < n :: init[k] == messages[k] && init[k] in init;
  }

  lemma InRange(messages: seq<RecentMessage>)
    ensures forall i: nat | FirstWords(messages, i) :: i < |messages|
  {
  }

  /** In a group the participants are the human speakers of the kept messages in the order of their first words,
      each described from those. */
  lemma ParticipantsExactly(messages: seq<RecentMessage>, scene: Scene) returns (places: seq<nat>)
    requires scene.isGroup && messages != []
    ensures var c := Materialize(messages, scene);
      && ArePlaces(c.recentMessages, places) && |c.participants| == |places|
      && forall a | 0 <= a < |places| ::
           places[a] < |c.recentMessages| && Describes(c.participants[a], c.recentMessages[places[a]], scene)
  {
    var numbered := Numbered(messages, scene);
    hide Numbered, ArePlaces, ParticipantFor, Describes, Distinct, Keys, FirstSpeakers, FirstWords;
    places := SpeakersInOrder(numbered, scene);
    forall a | 0 <= a < |places| ensures Describes(FirstSpeakers(numbered, scene)[a], numbered[places[a]], scene) {
      ParticipantDescribes(numbered[places[a]], scene);
    }
  }

  /** A private context has no participants; a group context without messages has the supplied ones, numbered from
      one, if it never had messages, and none otherwise. */
  lemma ParticipantsWithoutMessages(scene: Scene, messages: seq<RecentMessage>)
    ensures !scene.isGroup ==> Materialize(messages, scene).participants == []
    ensures scene.isGroup && !scene.participantsWithoutMessages ==> Materialize([], scene).participants == []
    ensures scene.isGroup && scene.participantsWithoutMessages ==>
      var ps := Materialize([], scene).participants;
      |ps| == |scene.participants| && forall i | 0 <= i < |ps| ::
        ps[i] == scene.participants[i].(speakerRef := Some("speaker_" + Decimal(i + 1)))
  {
    hide Decimal;
  }
}
