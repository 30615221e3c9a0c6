// What the structured parts of a message are, for either form: mentions, reply and media in terms of the fields.
module CqMeaning {
  import opened Text
  import opened Sequences
  import opened CqEntities
  import opened CqCodec

  /** A code or segment: its type and the record of its fields. */
  datatype Part = Part(kind: string, data: map<string, string>)

  /** The codes of a scanned string. */
  function PartsOfTokens(tokens: seq<Token>): seq<Part> {
    if tokens == [] then []
    else
      (if tokens[0].Slice? then [] else [Part(tokens[0].code.kind, Params(tokens[0].code.params))])
      + PartsOfTokens(tokens[1..])
  }

  function PartsOfSegments(segs: seq<Segment>): seq<Part> {
    seq(|segs|, i requires 0 <= i < |segs| => Part(segs[i].kind, Record(segs[i])))
  }

  function Value(p: Part, key: string): string {
    if key in p.data then Trim(p.data[key]) else ""
  }

  /** Digits, perhaps after `qq-`. */
  predicate PlainId(v: string) {
    AllDigits(v) || (|v| > 3 && v[..3] == "qq-" && AllDigits(v[3..]))
  }

  predicate MentionId(v: string) {
    PlainId(v) || v == "all" || v == "qq-all"
  }

  predicate MessageId(v: string) {
    PlainId(v) || (|v| > 7 && v[..7] == "qq-bot-" && AllDigits(v[7..]))
  }

  predicate Mentions(p: Part) {
    p.kind == "at" && MentionId(Value(p, "qq"))
  }

  predicate RepliesTo(p: Part) {
    p.kind == "reply" && MessageId(Value(p, "id"))
  }

  /** With one `qq-` in front. */
  function Prefixed(v: string): string {
    if |v| >= 3 && v[..3] == "qq-" then v else "qq-" + v
  }

  function Each<T, U>(s: seq<T>, f: T -> U): (r: seq<U>)
    ensures |r| == |s| && forall i | 0 <= i < |s| :: r[i] == f(s[i])
  {
    seq(|s|, i requires 0 <= i < |s| => f(s[i]))
  }

  const MEDIA_KINDS: map<string, string> :=
    map["image" := "image", "record" := "audio", "video" := "video", "file" := "file"]

  function MediaOf(redact: Redactor): Part -> Media {
    (p: Part) =>
      Media(if p.kind in MEDIA_KINDS then MEDIA_KINDS[p.kind] else "",
            if Value(p, "url") != "" && redact(Value(p, "url")) == Value(p, "url") then Some(Value(p, "url")) else None)
  }

  function IdOf(key: string): Part -> string {
    (p: Part) => Prefixed(Value(p, key))
  }

  predicate IsMedia(p: Part) {
    p.kind in MEDIA_KINDS
  }

  /** What the parts of a message mean. */
  function Meaning(parts: seq<Part>, redact: Redactor): Parsed {
    var replies := Each(Filter(parts, RepliesTo), IdOf("id"));
    var last := if replies == [] then None else Some(replies[|replies| - 1]);
    Parsed("", Each(Filter(parts, Mentions), IdOf("qq")), Each(Filter(parts, IsMedia), MediaOf(redact)), last, last)
  }

  // ---------------------------------------------------------------- reading part by part

  /** `b` read after `a`. */
  function Then(a: Parsed, b: Parsed): Parsed {
    Parsed(a.text, a.mentions + b.mentions, a.media + b.media,
      if b.replyToMessageId.Some? then b.replyToMessageId else a.replyToMessageId,
      if b.quoteMessageId.Some? then b.quoteMessageId else a.quoteMessageId)
  }

  lemma ThenAssociates(a: Parsed, b: Parsed, c: Parsed)
    ensures Then(Then(a, b), c) == Then(a, Then(b, c))
  {
    assert (a.mentions + b.mentions) + c.mentions == a.mentions + (b.mentions + c.mentions);
    assert (a.media + b.media) + c.media == a.media + (b.media + c.media);
  }

  lemma EachAppend<T, U>(s: seq<T>, t: seq<T>, f: T -> U)
    ensures Each(s + t, f) == Each(s, f) + Each(t, f)
  {
  }

  lemma MeaningAppend(a: seq<Part>, b: seq<Part>, redact: Redactor)
    ensures Meaning(a + b, redact) == Then(Meaning(a, redact), Meaning(b, redact))
  {
    FilterAppend(a, b, Mentions);
    FilterAppend(a, b, RepliesTo);
    FilterAppend(a, b, IsMedia);
    EachAppend(Filter(a, Mentions), Filter(b, Mentions), IdOf("qq"));
    EachAppend(Filter(a, RepliesTo), Filter(b, RepliesTo), IdOf("id"));
    EachAppend(Filter(a, IsMedia), Filter(b, IsMedia), MediaOf(redact));
    hide Filter, Mentions, RepliesTo, IsMedia, IdOf, MediaOf;
  }

  lemma MeaningOne(p: Part, redact: Redactor)
    ensures Filter([p], Mentions) == (if Mentions(p) then [p] else [])
    ensures Filter([p], RepliesTo) == (if RepliesTo(p) then [p] else [])
    ensures Filter([p], IsMedia) == (if IsMedia(p) then [p] else [])
  {
    assert [p][1..] == [];
  }

  lemma ApplyIsThen(kind: string, data: map<string, string>, parsed: Parsed, redact: Redactor)
    ensures ApplySegment(kind, data, parsed, redact) == Then(parsed, Meaning([Part(kind, data)], redact))
  {
    OneMeans(Part(kind, data), redact);
    IdsAccepted(data);
    ValuesAre(Part(kind, data));
    hide MentionId, MessageId, SegmentId, Trim, Field, Value, Prefixed, Meaning;
    assert WithQqPrefix(Trim(Field(data, "qq"))) == Prefixed(Value(Part(kind, data), "qq"))
      && WithQqPrefix(Trim(Field(data, "id"))) == Prefixed(Value(Part(kind, data), "id")) by {
      SamePrefix(Trim(Field(data, "qq")));
      SamePrefix(Trim(Field(data, "id")));
    }
    hide WithQqPrefix;
    if kind == "at" {
    } else if kind == "reply" {
    } else {
      assert MediaKind(kind) == if kind in MEDIA_KINDS then Some(MEDIA_KINDS[kind]) else None;
    }
  }

  lemma SamePrefix(v: string)
    ensures WithQqPrefix(v) == Prefixed(v)
  {
  }

  lemma ValuesAre(p: Part)
    ensures forall key :: Value(p, key) == Trim(Field(p.data, key))
  {
    TrimNothing();
    hide Trim;
  }

  /** A part adds to one list at most, or sets the reply. */
  lemma OneMeans(p: Part, redact: Redactor)
    ensures Meaning([p], redact) ==
      if Mentions(p) then EMPTY.(mentions := [Prefixed(Value(p, "qq"))])
      else if RepliesTo(p) then
        EMPTY.(replyToMessageId := Some(Prefixed(Value(p, "id"))), quoteMessageId := Some(Prefixed(Value(p, "id"))))
      else if IsMedia(p) then EMPTY.(media := [MediaOf(redact)(p)]) else EMPTY
  {
    MeaningOne(p, redact);
    hide Filter, MentionId, MessageId, Value, Prefixed;
  }

  lemma TrimNothing()
    ensures Trim("") == ""
  {
  }

  lemma IdsAccepted(data: map<string, string>)
    ensures SegmentId(data, "qq", true, false) ==
      if MentionId(Trim(Field(data, "qq"))) then Trim(Field(data, "qq")) else ""
    ensures SegmentId(data, "id", false, true) ==
      if MessageId(Trim(Field(data, "id"))) then Trim(Field(data, "id")) else ""
    ensures !MentionId("") && !MessageId("")
  {
    hide Trim, Field;
  }

  lemma {:induction false} TokensMean(tokens: seq<Token>, parsed: Parsed, redact: Redactor)
    ensures ApplyCodes(tokens, parsed, redact) == Then(parsed, Meaning(PartsOfTokens(tokens), redact))
  {
    hide ApplySegment, Params, Meaning;
    if tokens == [] {
      MeaningOfNothing(parsed, redact);
    } else {
      var rest := PartsOfTokens(tokens[1..]);
      if tokens[0].Slice? {
        TokensMean(tokens[1..], parsed, redact);
        assert [] + rest == rest;
      } else {
        var p := Part(tokens[0].code.kind, Params(tokens[0].code.params));
        ApplyIsThen(p.kind, p.data, parsed, redact);
        TokensMean(tokens[1..], ApplySegment(p.kind, p.data, parsed, redact), redact);
        MeaningAppend([p], rest, redact);
        ThenAssociates(parsed, Meaning([p], redact), Meaning(rest, redact));
      }
    }
  }

  lemma MeaningOfNothing(parsed: Parsed, redact: Redactor)
    ensures Then(parsed, Meaning([], redact)) == parsed
  {
  }

  lemma TextMeansNothing(data: map<string, string>, parsed: Parsed, redact: Redactor)
    ensures Then(parsed, Meaning([Part("text", data)], redact)) == parsed
  {
    MeaningOne(Part("text", data), redact);
    hide Filter;
  }

  lemma {:induction false} SegmentsMean(segs: seq<Segment>, parsed: Parsed, redact: Redactor)
    ensures ApplySegments(segs, parsed, redact) == Then(parsed, Meaning(PartsOfSegments(segs), redact))
  {
    hide ApplySegment, Record, Meaning;
    if segs == [] {
      MeaningOfNothing(parsed, redact);
    } else {
      var p, rest := Part(segs[0].kind, Record(segs[0])), PartsOfSegments(segs[1..]);
      assert PartsOfSegments(segs) == [p] + rest;
      ApplyIsThen(p.kind, p.data, parsed, redact);
      MeaningAppend([p], rest, redact);
      ThenAssociates(parsed, Meaning([p], redact), Meaning(rest, redact));
      if p.kind == "text" {
        TextMeansNothing(p.data, parsed, redact);
        SegmentsMean(segs[1..], parsed, redact);
      } else {
        SegmentsMean(segs[1..], ApplySegment(p.kind, p.data, parsed, redact), redact);
      }
    }
  }

  // ---------------------------------------------------------------- both forms

  lemma ThenFromEmpty(a: Parsed)
    requires a.text == ""
    ensures Then(EMPTY, a) == a
  {
    assert [] + a.mentions == a.mentions && [] + a.media == a.media;
  }

  /** The string form: mentions in order from the `at` codes with an accepted `qq`, the reply and the quote from
      the last `reply` code with an accepted `id`, and one medium for each image, record, video and file code. */
  lemma StringPartsMean(raw: string, redact: Redactor)
    ensures StringMeaning(raw, redact).(text := "") == Meaning(PartsOfTokens(Tokens(raw)), redact)
  {
    TokensMean(Tokens(raw), EMPTY, redact);
    ThenFromEmpty(Meaning(PartsOfTokens(Tokens(raw)), redact));
  }

  /** The same for the array form, and its text: the decoded `text` fields of the text segments, joined. */
  lemma ArrayPartsMean(segs: seq<Segment>, redact: Redactor)
    ensures ArrayMeaning(segs, redact) ==
      Meaning(PartsOfSegments(segs), redact).(text := Trim(Concat(Each(PartsOfSegments(segs), SaidBy()))))
  {
    SegmentsMean(segs, EMPTY, redact);
    ThenFromEmpty(Meaning(PartsOfSegments(segs), redact));
    TextsJoined(segs);
    hide Meaning, PartsOfSegments;
  }

  function SaidBy(): Part -> string {
    (p: Part) => if p.kind == "text" && "text" in p.data then DecodeCqValue(p.data["text"]) else ""
  }

  lemma {:induction false} TextsJoined(segs: seq<Segment>)
    ensures DecodedText(segs) == Concat(Each(PartsOfSegments(segs), SaidBy()))
  {
    hide DecodeCqValue, Record;
    if segs != [] {
      DecodeEmpty();
      TextsJoined(segs[1..]);
      var said := Each(PartsOfSegments(segs), SaidBy());
      assert said[0] == DecodeCqValue(TextOf(segs[0]));
      assert said[1..] == Each(PartsOfSegments(segs[1..]), SaidBy());
    }
  }

  /** In a record the last value given for a name counts. */
  lemma {:induction false} RecordHoldsLast(data: seq<(string, string)>, acc: map<string, string>, key: string)
    ensures var r := AddFields(data, acc);
      && (key in r <==> key in acc || exists i | 0 <= i < |data| :: data[i].0 == key)
      && ((forall i | 0 <= i < |data| :: data[i].0 != key) && key in acc ==> key in r && r[key] == acc[key])
      && (forall i | 0 <= i < |data| && data[i].0 == key && (forall j | i < j < |data| :: data[j].0 != key) ::
            key in r && r[key] == data[i].1)
  {
    if data != [] {
      RecordHoldsLast(data[1..], acc[data[0].0 := data[0].1], key);
      assert forall i | 0 < i < |data| :: data[i] == data[1..][i - 1];
    }
  }

  /** Every identifier that is read starts with one `qq-`, followed by digits or by one of the two other names. */
  lemma IdentifiersAreQq(parts: seq<Part>, redact: Redactor)
    ensures var m := Meaning(parts, redact);
      && (forall id | id in m.mentions :: "qq-" <= id && (AllDigits(id[3..]) || id[3..] == "all"))
      && m.quoteMessageId == m.replyToMessageId
      && (m.replyToMessageId.Some? ==>
            var id := m.replyToMessageId.value;
            "qq-" <= id && (AllDigits(id[3..]) || ("bot-" <= id[3..] && AllDigits(id[7..]))))
  {
    forall p: Part | Mentions(p)
      ensures "qq-" <= IdOf("qq")(p) && (AllDigits(IdOf("qq")(p)[3..]) || IdOf("qq")(p)[3..] == "all")
    {
      MentionShape(Value(p, "qq"));
    }
    forall p: Part | RepliesTo(p)
      ensures var id := IdOf("id")(p);
        "qq-" <= id && (AllDigits(id[3..]) || ("bot-" <= id[3..] && AllDigits(id[7..])))
    {
      MessageShape(Value(p, "id"));
    }
    forall p | p in Filter(parts, Mentions) ensures Mentions(p) { FilterElements(parts, Mentions, p); }
    forall p | p in Filter(parts, RepliesTo) ensures RepliesTo(p) { FilterElements(parts, RepliesTo, p); }
    hide Mentions, RepliesTo, IdOf;
  }

  lemma MentionShape(v: string)
    requires MentionId(v)
    ensures "qq-" <= Prefixed(v) && (AllDigits(Prefixed(v)[3..]) || Prefixed(v)[3..] == "all")
  {
    assert ("qq-" + v)[3..] == v;
    assert |v| >= 3 && v[..3] == "qq-" ==> v[0] == 'q' && !IsDigit('q');
  }

  lemma MessageShape(v: string)
    requires MessageId(v)
    ensures var id := Prefixed(v);
      "qq-" <= id && (AllDigits(id[3..]) || ("bot-" <= id[3..] && AllDigits(id[7..])))
  {
    assert ("qq-" + v)[3..] == v;
    assert |v| >= 3 && v[..3] == "qq-" ==> v[0] == 'q' && !IsDigit('q');
    if |v| > 7 && v[..7] == "qq-bot-" {
      assert v[..3] == v[..7][..3] == "qq-" && v[3..][..4] == v[..7][3..] == "bot-";
    }
  }
}
