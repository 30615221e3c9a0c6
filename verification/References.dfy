// Prompt-local references: numbering the kept messages, their speakers and the group's participants.
module References {
  import opened Text
  import opened Sequences

  datatype Role = Member | Admin | Owner

  datatype RecentMessage = RecentMessage(
    messageId: string,
    senderId: string,
    senderDisplayName: string,
    text: Option<string>,
    timestamp: int,
    isFromBot: bool,
    senderRole: Option<Role>,
    messageRef: Option<string>,
    speakerRef: Option<string>,
    isCurrent: bool)

  datatype Identity = Identity(
    identityKey: string,
    canonicalUserId: Option<string>,
    displayName: string,
    role: Option<Role>)

  datatype Participant = Participant(
    canonicalUserId: Option<string>,
    speakerRef: Option<string>,
    displayName: string,
    groupCard: Option<string>,
    role: Option<Role>,
    isOwner: bool,
    isAdmin: bool,
    isTrusted: bool,
    platformAccountId: Option<string>)

  datatype ReplyResolution = ReplyResolution(
    resolved: bool,
    targetMessageId: Option<string>,
    targetInRollingWindow: Option<bool>)

  datatype ReplyReference =
    | Resolved(source: string, target: string, targetSpeaker: string, targetIsBot: bool, inRollingWindow: bool)
    | Unresolved(source: string)

  /** What the numbering depends on besides the messages. */
  datatype Scene = Scene(
    participants: seq<Participant>,
    isGroup: bool,
    currentMessageId: Option<string>,
    reply: Option<ReplyResolution>,
    identities: map<string, Identity>,
    participantsWithoutMessages: bool)

  datatype Materialized = Materialized(
    recentMessages: seq<RecentMessage>,
    participants: seq<Participant>,
    currentMessageRef: Option<string>,
    replyReference: Option<ReplyReference>)

  function MessageRef(n: nat): string {
    "message_" + Decimal(n)
  }

  function SpeakerRef(n: nat): string {
    "speaker_" + Decimal(n)
  }

  lemma RefsInjective(a: nat, b: nat)
    ensures MessageRef(a) == MessageRef(b) <==> a == b
    ensures SpeakerRef(a) == SpeakerRef(b) <==> a == b
  {
    DecimalInjective(a, b);
    assert MessageRef(a)[8..] == Decimal(a) && MessageRef(b)[8..] == Decimal(b);
    assert SpeakerRef(a)[8..] == Decimal(a) && SpeakerRef(b)[8..] == Decimal(b);
  }

  function OrElse<T>(a: Option<T>, b: T): T {
    if a.Some? then a.value else b
  }

  function Or<T>(a: Option<T>, b: Option<T>): Option<T> {
    if a.Some? then a else b
  }

  function Lookup(m: RecentMessage, identities: map<string, Identity>): Option<Identity> {
    if m.messageId in identities then Some(identities[m.messageId]) else None
  }

  function IdentityOf(m: RecentMessage, identities: map<string, Identity>): Identity {
    OrElse(Lookup(m, identities),
      if m.isFromBot then Identity("bot:self", None, "LetheBot", None)
      else Identity("sender:" + m.senderId, None, "unknown", None))
  }

  function Keys(messages: seq<RecentMessage>, identities: map<string, Identity>): (keys: seq<string>)
    ensures |keys| == |messages|
  {
    seq(|messages|, i requires 0 <= i < |messages| => IdentityOf(messages[i], identities).identityKey)
  }

  // ---------------------------------------------------------------- the simple numbering

  lemma {:induction false} DistinctPrefix(keys: seq<string>, n: nat)
    requires n <= |keys|
    ensures Distinct(keys[..n]) <= Distinct(keys)
  {
    if n == |keys| {
      assert keys[..n] == keys;
    } else {
      DistinctPrefix(keys[..|keys| - 1], n);
      assert keys[..|keys| - 1][..n] == keys[..n];
    }
  }

  function KeySet(keys: seq<string>): set<string> {
    set k | k in keys
  }

  /** A key's number: one more than its place among the distinct keys. */
  function SpeakerNumber(keys: seq<string>, key: string): (n: nat)
    ensures 1 <= n <= |Distinct(keys)| + 1
    ensures key in keys ==> n <= |Distinct(keys)| && Distinct(keys)[n - 1] == key
  {
    IndexOf(Distinct(keys), key) + 1
  }

  function Number(m: RecentMessage, index: nat, keys: seq<string>, scene: Scene): RecentMessage {
    var identity := IdentityOf(m, scene.identities);
    m.(senderDisplayName := identity.displayName,
       messageRef := Some(MessageRef(index + 1)),
       speakerRef := Some(SpeakerRef(SpeakerNumber(keys, identity.identityKey))),
       isCurrent := Some(m.messageId) == scene.currentMessageId)
  }

  function Numbered(messages: seq<RecentMessage>, scene: Scene): (r: seq<RecentMessage>)
    ensures |r| == |messages|
    ensures forall m | m in r :: m.messageRef.Some? && m.speakerRef.Some?
  {
    var keys := Keys(messages, scene.identities);
    seq(|messages|, i requires 0 <= i < |messages| => Number(messages[i], i, keys, scene))
  }

  lemma NumberedAt(messages: seq<RecentMessage>, scene: Scene, i: nat)
    requires i < |messages|
    ensures Numbered(messages, scene)[i] == Number(messages[i], i, Keys(messages, scene.identities), scene)
  {
  }

  lemma NumbersDiffer(keys: seq<string>, a: string, b: string)
    requires a in keys && b in keys
    ensures SpeakerNumber(keys, a) == SpeakerNumber(keys, b) <==> a == b
  {
  }

  /** Two messages share a speaker reference exactly when they share an identity key, and a message
      reference only when they are the same message. */
  lemma RefsFollowKeys(messages: seq<RecentMessage>, scene: Scene, i: nat, j: nat)
    requires i < |messages| && j < |messages|
    ensures var r, keys := Numbered(messages, scene), Keys(messages, scene.identities);
      && (r[i].speakerRef == r[j].speakerRef <==> keys[i] == keys[j])
      && (r[i].messageRef == r[j].messageRef <==> i == j)
  {
    var keys := Keys(messages, scene.identities);
    KeyOf(messages, scene.identities, i);
    KeyOf(messages, scene.identities, j);
    NumberedAt(messages, scene, i);
    NumberedAt(messages, scene, j);
    hide Keys, SpeakerRef, MessageRef, Distinct, IdentityOf, Numbered, SpeakerNumber;
    assert SpeakerNumber(keys, keys[i]) == SpeakerNumber(keys, keys[j]) <==> keys[i] == keys[j] by {
      NumbersDiffer(keys, keys[i], keys[j]);
    }
    RefsInjective(SpeakerNumber(keys, keys[i]), SpeakerNumber(keys, keys[j]));
    RefsInjective(i + 1, j + 1);
  }

  /** The speaker references in use are 1, 2, ..., k without gaps. */
  lemma RefsHaveNoGaps(messages: seq<RecentMessage>, scene: Scene, n: nat)
    requires 1 <= n <= |Distinct(Keys(messages, scene.identities))|
    ensures exists i | 0 <= i < |messages| :: Numbered(messages, scene)[i].speakerRef == Some(SpeakerRef(n))
  {
    var keys := Keys(messages, scene.identities);
    var key := Distinct(keys)[n - 1];
    assert key in keys;
    var i :| 0 <= i < |keys| && keys[i] == key;
    KeyOf(messages, scene.identities, i);
    hide Keys, SpeakerRef, MessageRef, Distinct;
    assert SpeakerNumber(keys, key) == n;
    assert Numbered(messages, scene)[i].speakerRef == Some(SpeakerRef(n));
  }

  /** They are given out in order of first appearance: message `i` has a number among those of the
      distinct keys up to and including its own, and a new key takes the next number. */
  lemma RefsInOrderOfAppearance(messages: seq<RecentMessage>, scene: Scene, i: nat)
    requires i < |messages|
    ensures var keys := Keys(messages, scene.identities);
      var n := SpeakerNumber(keys[..i + 1], keys[i]);
      && Numbered(messages, scene)[i].speakerRef == Some(SpeakerRef(n))
      && 1 <= n <= |Distinct(keys[..i + 1])|
      && (keys[i] !in keys[..i] ==> n == |Distinct(keys[..i])| + 1)
  {
    var keys := Keys(messages, scene.identities);
    KeyOf(messages, scene.identities, i);
    NumberInPrefix(keys, i);
    KeyStep(keys, i);
  }

  lemma KeyOf(messages: seq<RecentMessage>, identities: map<string, Identity>, i: nat)
    requires i < |messages|
    ensures Keys(messages, identities)[i] == IdentityOf(messages[i], identities).identityKey
  {
  }

  lemma IndexInPrefix(d: seq<string>, e: seq<string>, key: string)
    requires d <= e && key in d
    ensures IndexOf(e, key) == IndexOf(d, key)
  {
    var n := IndexOf(d, key);
    assert e[..n] == d[..n];
    IndexOfIs(e, key, n);
  }

  /** A key's number is settled once the key has appeared. */
  lemma {:induction false} NumberInPrefix(keys: seq<string>, i: nat)
    requires i < |keys|
    ensures SpeakerNumber(keys, keys[i]) == SpeakerNumber(keys[..i + 1], keys[i])
  {
    DistinctPrefix(keys, i + 1);
    assert keys[..i + 1][i] == keys[i];
    var d, e := Distinct(keys[..i + 1]), Distinct(keys);
    IndexInPrefix(d, e, keys[i]);
  }

  // ---------------------------------------------------------------- participants

  function NormalizedId(id: string): string {
    if "qq-" <= id then id else "qq-" + id
  }

  predicate Supplies(p: Participant, identity: Option<Identity>, senderId: string) {
    || (identity.Some? && identity.value.canonicalUserId.Some? && p.canonicalUserId == identity.value.canonicalUserId)
    || (p.platformAccountId.Some? && NormalizedId(p.platformAccountId.value) == senderId)
  }

  /** The participant entry for the first message of a human speaker. */
  function ParticipantFor(m: RecentMessage, scene: Scene): (p: Participant)
    ensures p.speakerRef == m.speakerRef
  {
    var identity := Lookup(m, scene.identities);
    var at := Find(scene.participants, p => Supplies(p, identity, m.senderId));
    var supplied := if at.Some? then Some(scene.participants[at.value]) else None;
    var role := Or(Or(if identity.Some? then identity.value.role else None, m.senderRole),
                   if supplied.Some? then supplied.value.role else None);
    var suppliedName := if supplied.Some? then supplied.value.displayName else "unknown";
    Participant(
      Or(if identity.Some? then identity.value.canonicalUserId else None,
         if supplied.Some? then supplied.value.canonicalUserId else None),
      m.speakerRef,
      if identity.Some? && identity.value.displayName != "unknown" then identity.value.displayName else suppliedName,
      if supplied.Some? then supplied.value.groupCard else None,
      role,
      if supplied.Some? then supplied.value.isOwner else role == Some(Owner),
      if supplied.Some? then supplied.value.isAdmin else role == Some(Admin) || role == Some(Owner),
      supplied.Some? && supplied.value.isTrusted,
      None)
  }

  /** The references of the human speakers among `messages`. */
  function HumanRefs(messages: seq<RecentMessage>): set<string> {
    set m | m in messages && !m.isFromBot && m.speakerRef.Some? :: m.speakerRef.value
  }

  function FirstSpeakers(messages: seq<RecentMessage>, scene: Scene): seq<Participant> {
    if messages == [] then []
    else
      var init, m := messages[..|messages| - 1], messages[|messages| - 1];
      FirstSpeakers(init, scene)
      + if m.isFromBot || m.speakerRef.None? || m.speakerRef.value in HumanRefs(init) then []
        else [ParticipantFor(m, scene)]
  }

  function SuppliedWithRefs(scene: Scene, next: nat): seq<Participant> {
    seq(|scene.participants|, i requires 0 <= i < |scene.participants| =>
      scene.participants[i].(speakerRef := Some(SpeakerRef(next + i))))
  }

  function Participants(messages: seq<RecentMessage>, scene: Scene, next: nat): seq<Participant> {
    if !scene.isGroup then []
    else if messages == [] then (if scene.participantsWithoutMessages then SuppliedWithRefs(scene, next) else [])
    else FirstSpeakers(messages, scene)
  }

  method MaterializeParticipants(messages: seq<RecentMessage>, scene: Scene, nextSpeakerRef: nat)
    returns (participants: seq<Participant>)
    ensures participants == Participants(messages, scene, nextSpeakerRef)
  {
    if !scene.isGroup { return []; }
    if |messages| == 0 {
      return if scene.participantsWithoutMessages then SuppliedWithRefs(scene, nextSpeakerRef) else [];
    }
    participants := [];
    var seen: set<string> := {};
    for i := 0 to |messages|
      invariant seen == HumanRefs(messages[..i])
      invariant participants == FirstSpeakers(messages[..i], scene)
    {
      hide ParticipantFor;
      var m := messages[i];
      assert messages[..i + 1][..i] == messages[..i];
      HumanRefsStep(messages, i);
      if m.isFromBot || m.speakerRef.None? { continue; }
      if m.speakerRef.value in seen { continue; }
      seen := seen + {m.speakerRef.value};
      participants := participants + [ParticipantFor(m, scene)];
    }
    assert messages[..|messages|] == messages;
  }

  lemma HumanRefsStep(messages: seq<RecentMessage>, i: nat)
    requires i < |messages|
    ensures HumanRefs(messages[..i + 1]) == HumanRefs(messages[..i]) +
      if messages[i].isFromBot || messages[i].speakerRef.None? then {} else {messages[i].speakerRef.value}
  {
    assert messages[..i + 1] == messages[..i] + [messages[i]];
  }

  /** One participant per human speaker, and no others. */
  lemma {:induction false} OneParticipantPerSpeaker(messages: seq<RecentMessage>, scene: Scene)
    ensures OneEach(FirstSpeakers(messages, scene), HumanRefs(messages))
  {
    if messages != [] {
      hide *;
      var n := |messages| - 1;
      OneParticipantPerSpeaker(messages[..n], scene);
      LastSpeaker(messages, scene);
      HumanRefsStep(messages, n);
      assert messages[..n + 1] == messages;
      NewParticipant(FirstSpeakers(messages[..n], scene), HumanRefs(messages[..n]), messages[n], scene);
    }
  }

  lemma LastSpeaker(messages: seq<RecentMessage>, scene: Scene)
    requires messages != []
    ensures var n := |messages| - 1;
      var m := messages[n];
      FirstSpeakers(messages, scene) == FirstSpeakers(messages[..n], scene)
        + if m.isFromBot || m.speakerRef.None? || m.speakerRef.value in HumanRefs(messages[..n]) then []
          else [ParticipantFor(m, scene)]
  {
    hide ParticipantFor, HumanRefs;
  }

  /** The participants are those of the references: each has one, and no two the same. */
  ghost predicate OneEach(ps: seq<Participant>, refs: set<string>) {
    && (forall p | p in ps :: p.speakerRef.Some? && p.speakerRef.value in refs)
    && (forall ref | ref in refs :: exists i | 0 <= i < |ps| :: ps[i].speakerRef == Some(ref))
    && (forall i, j | 0 <= i < j < |ps| :: ps[i].speakerRef != ps[j].speakerRef)
  }

  lemma NewParticipant(ps: seq<Participant>, refs: set<string>, m: RecentMessage, scene: Scene)
    requires OneEach(ps, refs)
    ensures OneEach(ps + (if m.isFromBot || m.speakerRef.None? || m.speakerRef.value in refs then []
                          else [ParticipantFor(m, scene)]),
                    refs + if m.isFromBot || m.speakerRef.None? then {} else {m.speakerRef.value})
  {
    if m.isFromBot || m.speakerRef.None? || m.speakerRef.value in refs {
      assert ps + [] == ps;
      assert refs + (if m.isFromBot || m.speakerRef.None? then {} else {m.speakerRef.value}) == refs;
    } else {
      var p := ParticipantFor(m, scene);
      hide ParticipantFor;
      var all := ps + [p];
      assert all[|ps|] == p;
      forall ref | ref in refs ensures exists i | 0 <= i < |all| :: all[i].speakerRef == Some(ref) {
        var i :| 0 <= i < |ps| && ps[i].speakerRef == Some(ref);
        assert all[i] == ps[i];
      }
    }
  }

  // ---------------------------------------------------------------- the whole context

  function ReplyReferenceOf(numbered: seq<RecentMessage>, source: string, reply: ReplyResolution): (r: ReplyReference)
    requires forall m | m in numbered :: m.messageRef.Some? && m.speakerRef.Some?
    ensures r.source == source
  {
    var target := if reply.targetMessageId.None? then None
                  else Find(numbered, (m: RecentMessage) => m.messageId == reply.targetMessageId.value);
    if reply.resolved && target.Some? then
      var m := numbered[target.value];
      Resolved(source, m.messageRef.value, m.speakerRef.value, m.isFromBot, OrElse(reply.targetInRollingWindow, false))
    else Unresolved(source)
  }

  function Materialize(messages: seq<RecentMessage>, scene: Scene): (r: Materialized)
    ensures r.recentMessages == Numbered(messages, scene)
  {
    var numbered := Numbered(messages, scene);
    var current := Find(numbered, (m: RecentMessage) => m.isCurrent);
    var currentRef := if current.Some? then numbered[current.value].messageRef else None;
    var reply := if scene.reply.Some? && currentRef.Some?
                 then Some(ReplyReferenceOf(numbered, currentRef.value, scene.reply.value)) else None;
    var next := |Distinct(Keys(messages, scene.identities))| + 1;
    Materialized(numbered, Participants(numbered, scene, next), currentRef, reply)
  }

  /** The running numbering: one pass with a table of the speakers met so far. */
  method NumberMessages(messages: seq<RecentMessage>, scene: Scene) returns (numbered: seq<RecentMessage>, next: nat)
    ensures numbered == Numbered(messages, scene)
    ensures next == |Distinct(Keys(messages, scene.identities))| + 1
  {
    hide Keys, SpeakerRef, MessageRef, Distinct, SpeakerNumber, Numbered, IdentityOf;
    var speakerRefs: map<string, string> := map[];
    ghost var keys := Keys(messages, scene.identities);
    next := 1;
    numbered := [];
    NoKeys();
    for i := 0 to |messages|
      invariant next == |Distinct(keys[..i])| + 1
      invariant speakerRefs.Keys == KeySet(keys[..i])
      invariant forall k | k in speakerRefs :: speakerRefs[k] == SpeakerRef(SpeakerNumber(keys[..i], k))
      invariant numbered == Numbered(messages, scene)[..i]
    {
      var identity := IdentityOf(messages[i], scene.identities);
      KeyOf(messages, scene.identities, i);
      KeyStep(keys, i);
      NumberInPrefix(keys, i);
      NumberedStep(messages, scene, i);
      var speakerRef;
      if identity.identityKey in speakerRefs {
        speakerRef := speakerRefs[identity.identityKey];
      } else {
        speakerRef := SpeakerRef(next);
        next := next + 1;
        speakerRefs := speakerRefs[identity.identityKey := speakerRef];
      }
      numbered := numbered + [messages[i].(
        senderDisplayName := identity.displayName,
        messageRef := Some(MessageRef(i + 1)),
        speakerRef := Some(speakerRef),
        isCurrent := Some(messages[i].messageId) == scene.currentMessageId)];
    }
    assert keys[..|messages|] == keys && Numbered(messages, scene)[..|messages|] == Numbered(messages, scene);
  }

  lemma NoKeys()
    ensures Distinct<string>([]) == []
  {
  }

  method MaterializeReferenceContext(messages: seq<RecentMessage>, scene: Scene) returns (r: Materialized)
    ensures r == Materialize(messages, scene)
  {
    var numbered, next := NumberMessages(messages, scene);
    hide Numbered, Distinct;
    var current := Find(numbered, (m: RecentMessage) => m.isCurrent);
    var currentRef := if current.Some? then numbered[current.value].messageRef else None;
    var reply := None;
    if scene.reply.Some? && currentRef.Some? {
      reply := Some(ReplyReferenceOf(numbered, currentRef.value, scene.reply.value));
    }
    var participants := MaterializeParticipants(numbered, scene, next);
    r := Materialized(numbered, participants, currentRef, reply);
  }

  /** In a group context the participants are the distinct human speakers of the kept messages, one each. */
  lemma GroupParticipants(messages: seq<RecentMessage>, scene: Scene)
    requires scene.isGroup && messages != []
    ensures OneEach(Materialize(messages, scene).participants, HumanRefs(Numbered(messages, scene)))
  {
    hide Numbered, FirstSpeakers, HumanRefs, OneEach;
    OneParticipantPerSpeaker(Numbered(messages, scene), scene);
  }

  lemma NumberedStep(messages: seq<RecentMessage>, scene: Scene, i: nat)
    requires i < |messages|
    ensures Numbered(messages, scene)[..i + 1] ==
      Numbered(messages, scene)[..i] + [Number(messages[i], i, Keys(messages, scene.identities), scene)]
  {
  }

  /** What reading one more key does to the table of speakers. */
  lemma {:induction false} KeyStep(keys: seq<string>, i: nat)
    requires i < |keys|
    ensures KeySet(keys[..i + 1]) == KeySet(keys[..i]) + {keys[i]}
    ensures |Distinct(keys[..i + 1])| == |Distinct(keys[..i])| + if keys[i] in keys[..i] then 0 else 1
    ensures forall k | k in keys[..i] :: SpeakerNumber(keys[..i + 1], k) == SpeakerNumber(keys[..i], k)
    ensures keys[i] !in keys[..i] ==> SpeakerNumber(keys[..i + 1], keys[i]) == |Distinct(keys[..i])| + 1
  {
    var p, q := keys[..i], keys[..i + 1];
    assert q == p + [keys[i]] && q[..i] == p && q[|q| - 1] == keys[i];
    var d, e := Distinct(p), Distinct(q);
    assert d <= e;
    forall k | k in p ensures SpeakerNumber(q, k) == SpeakerNumber(p, k) {
      IndexInPrefix(d, e, k);
    }
    if keys[i] !in p {
      assert e[..|d|] == d;
      IndexOfIs(e, keys[i], |d|);
    }
  }
}
