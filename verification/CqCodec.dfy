// The OneBot 11 string message format, and its equivalent form as an array of segments.
module CqCodec {
  import opened Text
  import opened Sequences
  import opened CqEntities

  // ---------------------------------------------------------------- the pattern of one code

  /** A match of the code pattern: the type, the raw parameters and how many characters it covers. */
  datatype Code = Code(kind: string, params: string, length: nat)

  predicate TypeChar(c: char) {
    'a' <= c <= 'z' || 'A' <= c <= 'Z' || IsDigit(c) || c == '_' || c == '-'
  }

  predicate TypeName(t: string) {
    t != "" && forall i | 0 <= i < |t| :: TypeChar(t[i])
  }

  /** What the regular expression says a code is: `[CQ:type]` or `[CQ:type,parameters]`. */
  predicate IsCode(w: string, kind: string, params: string) {
    && kind != ""
    && (forall c | c in kind :: 'a' <= c <= 'z' || 'A' <= c <= 'Z' || '0' <= c <= '9' || c in ['_', '-'])
    && (params == "" || (params[0] == ',' && ']' !in params))
    && w == "[CQ:" + kind + params + "]"
  }

  lemma TypeNames(kind: string)
    ensures TypeName(kind) <==>
      kind != ""
      && forall c | c in kind :: 'a' <= c <= 'z' || 'A' <= c <= 'Z' || '0' <= c <= '9' || c in ['_', '-']
  {
    assert forall i | 0 <= i < |kind| :: kind[i] in kind;
  }

  function TypeRun(s: string): (n: nat)
    ensures n <= |s|
    ensures forall i | 0 <= i < n :: TypeChar(s[i])
    ensures n < |s| ==> !TypeChar(s[n])
  {
    if s != "" && TypeChar(s[0]) then 1 + TypeRun(s[1..]) else 0
  }

  lemma {:induction false} TypeRunIs(s: string, n: nat)
    requires n <= |s| && (forall i | 0 <= i < n :: TypeChar(s[i])) && (n < |s| ==> !TypeChar(s[n]))
    ensures TypeRun(s) == n
  {
    if n > 0 { TypeRunIs(s[1..], n - 1); }
  }

  /** The code `s` begins with. */
  function CodeAt(s: string): (r: Option<Code>)
    ensures r.Some? ==> 0 < r.value.length <= |s|
  {
    if "[CQ:" <= s then CodeBody(s[4..]) else None
  }

  /** The rest of a code after `[CQ:`. */
  function CodeBody(body: string): (r: Option<Code>)
    ensures r.Some? ==> 0 < r.value.length <= |body| + 4
  {
    var n := TypeRun(body);
    var m := if n < |body| && body[n] == ',' then n + IndexOf(body[n..], ']') else n;
    if n == 0 || m == |body| || body[m] != ']' then None
    else Some(Code(body[..n], body[n..m], m + 5))
  }

  lemma {:induction false} CodeAtSound(s: string)
    requires CodeAt(s).Some?
    ensures var c := CodeAt(s).value; IsCode(s[..c.length], c.kind, c.params)
  {
    var c, body := CodeAt(s).value, s[4..];
    CodeBodySound(body);
    TypeNames(CodeBody(body).value.kind);
    hide CodeBody;
    assert s[..c.length] == "[CQ:" + body[..c.length - 4];
  }

  lemma {:induction false} CodeBodySound(body: string)
    requires CodeBody(body).Some?
    ensures var c := CodeBody(body).value;
      && 4 < c.length
      && TypeName(c.kind) && (c.params == "" || (c.params[0] == ',' && ']' !in c.params))
      && body[..c.length - 4] == c.kind + c.params + "]"
  {
    var c, n := CodeBody(body).value, TypeRun(body);
    if body[n] == ',' {
      assert c.params == body[n..][..IndexOf(body[n..], ']')];
    }
    assert body[..c.length - 4] == body[..n] + body[n..c.length - 5] + body[c.length - 5..c.length - 4];
  }

  /** The pattern has no other match at the start of `s`: greedy matching needs no backtracking. */
  lemma {:induction false} CodeAtComplete(s: string, n: nat, kind: string, params: string)
    requires n <= |s| && IsCode(s[..n], kind, params)
    ensures CodeAt(s) == Some(Code(kind, params, n))
  {
    TypeNames(kind);
    CodeAtWord(kind, params, s[n..]);
    assert s == s[..n] + s[n..];
  }

  lemma {:induction false} CodeAtWord(kind: string, params: string, rest: string)
    requires TypeName(kind) && (params == "" || (params[0] == ',' && ']' !in params))
    ensures CodeAt("[CQ:" + kind + params + "]" + rest) == Some(Code(kind, params, |kind| + |params| + 5))
  {
    var body := kind + params + "]" + rest;
    CodeBodyOf(kind, params, rest);
    hide CodeBody;
    assert "[CQ:" + kind + params + "]" + rest == "[CQ:" + body;
    assert ("[CQ:" + body)[4..] == body;
  }

  lemma {:induction false} CodeBodyOf(kind: string, params: string, rest: string)
    requires TypeName(kind) && (params == "" || (params[0] == ',' && ']' !in params))
    ensures CodeBody(kind + params + "]" + rest) == Some(Code(kind, params, |kind| + |params| + 5))
  {
    var body, k, p := kind + params + "]" + rest, |kind|, |params|;
    Slices(kind, params, rest);
    assert TypeRun(body) == k by { TypeRunIs(body, k); }
    if p > 0 {
      assert IndexOf(body[k..], ']') == p by { IndexOfIs(body[k..], ']', p); }
    }
    hide TypeRun, IndexOf;
  }

  lemma Slices(kind: string, params: string, rest: string)
    ensures var body, k, p := kind + params + "]" + rest, |kind|, |params|;
      && body[..k] == kind && body[k..k + p] == params && body[k + p] == ']'
      && body[k..][..p] == params && body[k..][p] == ']'
  {
    var body, k := kind + params + "]" + rest, |kind|;
    assert body[k..] == params + ("]" + rest);
  }

  lemma {:induction false} CodeNeedsBracket(s: string)
    requires s == "" || s[0] != '['
    ensures CodeAt(s).None?
  {
  }

  // ---------------------------------------------------------------- scanning

  /** Where the leftmost code of `s` begins. */
  function NextCode(s: string): (r: Option<nat>)
    ensures r.Some? ==> r.value < |s| && CodeAt(s[r.value..]).Some?
  {
    if CodeAt(s).Some? then assert s[0..] == s; Some(0)
    else if s == "" then None
    else
      match NextCode(s[1..])
      case None => None
      case Some(i) => assert s[1..][i..] == s[i + 1..]; Some(i + 1)
  }

  lemma {:induction false} NextCodeIs(s: string, i: nat)
    requires i <= |s| && forall j | 0 <= j < i :: CodeAt(s[j..]).None?
    requires i < |s| ==> CodeAt(s[i..]).Some?
    ensures NextCode(s) == if i < |s| then Some(i) else None
  {
    hide CodeAt;
    assert s[0..] == s;
    if i > 0 {
      assert CodeAt(s).None?;
      forall j | 0 <= j < i - 1 ensures CodeAt(s[1..][j..]).None? { assert s[1..][j..] == s[j + 1..]; }
      assert s[1..][i - 1..] == s[i..];
      NextCodeIs(s[1..], i - 1);
    } else if s == "" {
      CodeNeedsBracket(s);
    }
  }

  datatype Token = Slice(text: string) | Match(code: Code)

  function Tokens(raw: string): seq<Token>
    decreases |raw|
  {
    match NextCode(raw)
    case None => [Slice(raw)]
    case Some(i) =>
      var c := CodeAt(raw[i..]).value;
      [Slice(raw[..i]), Match(c)] + Tokens(raw[i + c.length..])
  }

  function Source(tokens: seq<Token>): string {
    if tokens == [] then ""
    else
      (match tokens[0]
       case Slice(t) => t
       case Match(c) => "[CQ:" + c.kind + c.params + "]") + Source(tokens[1..])
  }

  lemma {:induction false} TokensCons(raw: string, i: nat, code: Code)
    requires i <= |raw|
    ensures NextCode(raw) == Some(i) && CodeAt(raw[i..]) == Some(code) ==>
      && i + code.length <= |raw|
      && Tokens(raw) == [Slice(raw[..i]), Match(code)] + Tokens(raw[i + code.length..])
  {
    hide CodeAt, NextCode;
  }

  lemma {:induction false} SourceCons(slice: string, c: Code, rest: seq<Token>)
    ensures Source([Slice(slice), Match(c)] + rest) == slice + ("[CQ:" + c.kind + c.params + "]" + Source(rest))
  {
    var t := [Slice(slice), Match(c)] + rest;
    assert t[1..] == [Match(c)] + rest && t[1..][1..] == rest;
  }

  lemma {:induction false} SourceOne(slice: string)
    ensures Source([Slice(slice)]) == slice
  {
    assert [Slice(slice)][1..] == [];
  }

  /** No character is lost or read twice: the slices and the codes spell the input. */
  lemma {:induction false} TokensReassemble(raw: string)
    ensures Source(Tokens(raw)) == raw
    decreases |raw|
  {
    hide CodeAt, Source, Tokens, NextCode;
    match NextCode(raw) {
      case None =>
        TokensEnd(raw);
        SourceOne(raw);
      case Some(i) =>
        var c := CodeAt(raw[i..]).value;
        TokensCons(raw, i, c);
        CodeAtSound(raw[i..]);
        TokensReassemble(raw[i + c.length..]);
        SourceCons(raw[..i], c, Tokens(raw[i + c.length..]));
        Glue(raw, i, c.length);
    }
  }

  lemma {:induction false} Glue(s: string, i: nat, n: nat)
    requires i + n <= |s|
    ensures s[..i] + (s[i..][..n] + s[i + n..]) == s
  {
  }

  lemma {:induction false} TokensEnd(raw: string)
    requires NextCode(raw).None?
    ensures Tokens(raw) == [Slice(raw)]
  {
  }

  // ---------------------------------------------------------------- structured segments

  datatype Media = Media(kind: string, url: Option<string>)

  datatype Parsed = Parsed(
    text: string,
    mentions: seq<string>,
    media: seq<Media>,
    replyToMessageId: Option<string>,
    quoteMessageId: Option<string>)

  const EMPTY := Parsed("", [], [], None, None)

  type Redactor = string -> string

  function Field(data: map<string, string>, key: string): string {
    if key in data then data[key] else ""
  }

  /** `stringifySegmentId` on string data: the accepted identifier, or "". */
  function SegmentId(data: map<string, string>, key: string, allowAll: bool, allowBot: bool): string {
    var v := Trim(Field(data, key));
    if AllDigits(v)
       || ("qq-" <= v && AllDigits(v[3..]))
       || (allowBot && "qq-bot-" <= v && AllDigits(v[7..]))
       || (allowAll && (v == "all" || v == "qq-all"))
    then v else ""
  }

  function WithQqPrefix(id: string): string {
    if "qq-" <= id then id else "qq-" + id
  }

  function MediaKind(kind: string): Option<string> {
    match kind
    case "image" => Some("image")
    case "record" => Some("audio")
    case "video" => Some("video")
    case "file" => Some("file")
    case _ => None
  }

  function MediaUrl(value: string, redact: Redactor): Option<string> {
    var v := Trim(value);
    if v != "" && redact(v) == v then Some(v) else None
  }

  function ApplySegment(kind: string, data: map<string, string>, parsed: Parsed, redact: Redactor): (r: Parsed)
    ensures r.text == parsed.text
  {
    if kind == "at" then
      var qq := SegmentId(data, "qq", true, false);
      if qq == "" then parsed else parsed.(mentions := parsed.mentions + [WithQqPrefix(qq)])
    else if kind == "reply" then
      var id := SegmentId(data, "id", false, true);
      if id == "" then parsed
      else parsed.(replyToMessageId := Some(WithQqPrefix(id)), quoteMessageId := Some(WithQqPrefix(id)))
    else
      match MediaKind(kind)
      case Some(m) => parsed.(media := parsed.media + [Media(m, MediaUrl(Field(data, "url"), redact))])
      case None => parsed
  }

  // ---------------------------------------------------------------- parameters

  function Split(s: string, sep: char): (parts: seq<string>)
    ensures |parts| > 0
    decreases |s|
  {
    var n := IndexOf(s, sep);
    if n == |s| then [s] else [s[..n]] + Split(s[n + 1..], sep)
  }

  /** The one name that assigning a string to a plain object does not add. */
  const PROTO := "__proto__"

  function AddPair(pair: string, params: map<string, string>): map<string, string> {
    var eq := IndexOf(pair, '=');
    if eq == 0 || eq == |pair| || pair[..eq] == PROTO then params
    else params[pair[..eq] := DecodeCqValue(pair[eq + 1..])]
  }

  function AddPairs(pairs: seq<string>, params: map<string, string>): map<string, string> {
    if pairs == [] then params else AddPairs(pairs[1..], AddPair(pairs[0], params))
  }

  function Params(raw: string): map<string, string> {
    var trimmed := if "," <= raw then raw[1..] else raw;
    if trimmed == "" then map[] else AddPairs(Split(trimmed, ','), map[])
  }

  method ParseCqParams(raw: string) returns (params: map<string, string>)
    ensures params == Params(raw)
  {
    hide DecodeCqValue, Split, PROTO;
    params := map[];
    var trimmed := if "," <= raw then raw[1..] else raw;
    if trimmed == "" { return; }
    var pairs := Split(trimmed, ',');
    for i := 0 to |pairs|
      invariant AddPairs(pairs[i..], params) == AddPairs(pairs, map[])
    {
      var eq := IndexOf(pairs[i], '=');
      if 0 < eq < |pairs[i]| && pairs[i][..eq] != PROTO {
        params := params[pairs[i][..eq] := DecodeCqValue(pairs[i][eq + 1..])];
      }
      assert pairs[i..][1..] == pairs[i + 1..];
    }
  }

  // ---------------------------------------------------------------- the two parsers

  function SliceText(tokens: seq<Token>): string {
    if tokens == [] then ""
    else (if tokens[0].Slice? then DecodeCqValue(tokens[0].text) else "") + SliceText(tokens[1..])
  }

  function ApplyCodes(tokens: seq<Token>, parsed: Parsed, redact: Redactor): Parsed {
    if tokens == [] then parsed
    else
      var next := if tokens[0].Slice? then parsed
                  else ApplySegment(tokens[0].code.kind, Params(tokens[0].code.params), parsed, redact);
      ApplyCodes(tokens[1..], next, redact)
  }

  lemma {:induction false} SliceAndMatch(slice: string, code: Code, rest: seq<Token>, parsed: Parsed, redact: Redactor)
    ensures SliceText([Slice(slice), Match(code)] + rest) == DecodeCqValue(slice) + SliceText(rest)
    ensures ApplyCodes([Slice(slice), Match(code)] + rest, parsed, redact)
         == ApplyCodes(rest, ApplySegment(code.kind, Params(code.params), parsed, redact), redact)
  {
    hide DecodeCqValue, ApplySegment, Params;
    var t := [Slice(slice), Match(code)] + rest;
    assert t[1..] == [Match(code)] + rest && t[1..][1..] == rest;
  }

  lemma {:induction false} LastSlice(slice: string, parsed: Parsed, redact: Redactor)
    ensures SliceText([Slice(slice)]) == DecodeCqValue(slice)
    ensures ApplyCodes([Slice(slice)], parsed, redact) == parsed
  {
    hide DecodeCqValue;
    assert [Slice(slice)][1..] == [];
  }

  /** What the string form means. */
  function StringMeaning(raw: string, redact: Redactor): Parsed {
    ApplyCodes(Tokens(raw), EMPTY, redact).(text := Trim(SliceText(Tokens(raw))))
  }

  /** The regular expression's `exec`: the leftmost match at or after `from`. */
  method Exec(raw: string, from: nat) returns (found: Option<nat>)
    requires from <= |raw|
    ensures found == match NextCode(raw[from..]) case None => None case Some(i) => Some(from + i)
  {
    hide CodeAt, NextCode;
    var at := from;
    while at < |raw|
      invariant from <= at <= |raw|
      invariant forall j | from <= j < at :: CodeAt(raw[j..]).None?
    {
      if CodeAt(raw[at..]).Some? {
        NextCodeFrom(raw, from, at);
        return Some(at);
      }
      at := at + 1;
    }
    NextCodeFrom(raw, from, |raw|);
    return None;
  }

  lemma NextCodeFrom(raw: string, from: nat, at: nat)
    requires from <= at <= |raw| && forall j | from <= j < at :: CodeAt(raw[j..]).None?
    requires at < |raw| ==> CodeAt(raw[at..]).Some?
    ensures NextCode(raw[from..]) == if at < |raw| then Some(at - from) else None
  {
    hide CodeAt, NextCode;
    forall j | 0 <= j <= |raw| - from ensures raw[from..][j..] == raw[from + j..] {}
    NextCodeIs(raw[from..], at - from);
  }

  lemma {:induction false} ConcatOne(parts: seq<string>, part: string)
    ensures Concat(parts + [part]) == Concat(parts) + part
  {
    ConcatAppend(parts, [part]);
    assert Concat([part]) == part + Concat([part][1..]);
  }

  method ParseCqString(raw: string, redact: Redactor) returns (parsed: Parsed)
    ensures parsed == StringMeaning(raw, redact)
  {
    hide CodeAt, DecodeCqValue, ApplySegment, Params, Tokens, NextCode, Concat, SliceText, ApplyCodes, Trim;
    parsed := EMPTY;
    var textParts: seq<string> := [];
    var cursor := 0;
    var found := Exec(raw, 0);
    assert raw[0..] == raw && Concat([]) == "" by { NothingRead(); }
    while found.Some?
      invariant cursor <= |raw|
      invariant found == match NextCode(raw[cursor..]) case None => None case Some(i) => Some(cursor + i)
      invariant Concat(textParts) + SliceText(Tokens(raw[cursor..])) == SliceText(Tokens(raw))
      invariant ApplyCodes(Tokens(raw[cursor..]), parsed, redact) == ApplyCodes(Tokens(raw), EMPTY, redact)
      decreases |raw| - cursor
    {
      var index := found.value;
      var code := CodeAt(raw[index..]).value;
      ScanStep(raw, cursor, index - cursor, textParts, parsed, redact);
      textParts := textParts + [DecodeCqValue(raw[cursor..index])];
      var params := ParseCqParams(code.params);
      parsed := ApplySegment(code.kind, params, parsed, redact);
      cursor := index + code.length;
      found := Exec(raw, cursor);
    }
    TokensEnd(raw[cursor..]);
    LastSlice(raw[cursor..], parsed, redact);
    ConcatOne(textParts, DecodeCqValue(raw[cursor..]));
    textParts := textParts + [DecodeCqValue(raw[cursor..])];
    parsed := parsed.(text := Trim(Concat(textParts)));
  }

  lemma {:induction false} NothingRead()
    ensures Concat([]) == ""
  {
  }

  /** One turn of the scanning loop: the slice and the code it reads, and what remains. */
  lemma {:induction false} ScanStep(
    raw: string, cursor: nat, i: nat, parts: seq<string>, parsed: Parsed, redact: Redactor)
    requires cursor + i <= |raw|
    ensures NextCode(raw[cursor..]) == Some(i) ==>
      && CodeAt(raw[cursor + i..]).Some?
      && var code := CodeAt(raw[cursor + i..]).value;
      && cursor + i + code.length <= |raw|
      && Concat(parts + [DecodeCqValue(raw[cursor..cursor + i])]) + SliceText(Tokens(raw[cursor + i + code.length..]))
         == Concat(parts) + SliceText(Tokens(raw[cursor..]))
      && ApplyCodes(Tokens(raw[cursor..]), parsed, redact)
         == ApplyCodes(Tokens(raw[cursor + i + code.length..]),
                       ApplySegment(code.kind, Params(code.params), parsed, redact), redact)
  {
    hide *;
    TokensStep(raw, cursor, i);
    if NextCode(raw[cursor..]) == Some(i) {
      var code, slice := CodeAt(raw[cursor + i..]).value, raw[cursor..cursor + i];
      var rest := Tokens(raw[cursor + i + code.length..]);
      SliceAndMatch(slice, code, rest, parsed, redact);
      ConcatOne(parts, DecodeCqValue(slice));
      Regroup(Concat(parts), DecodeCqValue(slice), SliceText(rest));
    }
  }

  lemma {:induction false} TokensStep(raw: string, cursor: nat, i: nat)
    requires cursor + i <= |raw|
    ensures NextCode(raw[cursor..]) == Some(i) ==>
      && CodeAt(raw[cursor + i..]).Some?
      && var code := CodeAt(raw[cursor + i..]).value;
      && cursor + i + code.length <= |raw|
      && Tokens(raw[cursor..]) ==
         [Slice(raw[cursor..cursor + i]), Match(code)] + Tokens(raw[cursor + i + code.length..])
  {
    hide CodeAt, NextCode, Tokens;
    assert raw[cursor..][i..] == raw[cursor + i..];
    assert raw[cursor..][..i] == raw[cursor..cursor + i];
    if NextCode(raw[cursor..]) == Some(i) {
      var code := CodeAt(raw[cursor + i..]).value;
      TokensCons(raw[cursor..], i, code);
      assert raw[cursor..][i + code.length..] == raw[cursor + i + code.length..];
    }
  }

  datatype Segment = Segment(kind: string, data: seq<(string, string)>)

  function AddFields(data: seq<(string, string)>, acc: map<string, string>): map<string, string> {
    if data == [] then acc else AddFields(data[1..], acc[data[0].0 := data[0].1])
  }

  /** A segment's data as the record it is. */
  function Record(seg: Segment): map<string, string> {
    AddFields(seg.data, map[])
  }

  function TextOf(seg: Segment): string {
    if seg.kind == "text" then Field(Record(seg), "text") else ""
  }

  function DecodedText(segs: seq<Segment>): string {
    if segs == [] then "" else DecodeCqValue(TextOf(segs[0])) + DecodedText(segs[1..])
  }

  function LiteralText(segs: seq<Segment>): string {
    if segs == [] then "" else TextOf(segs[0]) + LiteralText(segs[1..])
  }

  function ApplySegments(segs: seq<Segment>, parsed: Parsed, redact: Redactor): Parsed {
    if segs == [] then parsed
    else
      var next := if segs[0].kind == "text" then parsed
                  else ApplySegment(segs[0].kind, Record(segs[0]), parsed, redact);
      ApplySegments(segs[1..], next, redact)
  }

  /** What the array form means. */
  function ArrayMeaning(segs: seq<Segment>, redact: Redactor): Parsed {
    ApplySegments(segs, EMPTY, redact).(text := Trim(DecodedText(segs)))
  }

  lemma {:induction false} DecodeEmpty()
    ensures DecodeCqValue("") == ""
  {
    SequentialIsSimultaneous("");
  }

  lemma {:induction false} ArrayStep(segs: seq<Segment>, i: nat, parsed: Parsed, redact: Redactor)
    requires i < |segs|
    ensures DecodedText(segs[i..]) == DecodeCqValue(TextOf(segs[i])) + DecodedText(segs[i + 1..])
    ensures ApplySegments(segs[i..], parsed, redact) == ApplySegments(segs[i + 1..],
        if segs[i].kind == "text" then parsed else ApplySegment(segs[i].kind, Record(segs[i]), parsed, redact), redact)
  {
    hide DecodeCqValue, ApplySegment, TextOf, Record;
    assert segs[i..][1..] == segs[i + 1..];
  }

  method ParseSegmentArray(segs: seq<Segment>, redact: Redactor) returns (parsed: Parsed)
    ensures parsed == ArrayMeaning(segs, redact)
  {
    hide DecodeCqValue, ApplySegment, DecodedText, ApplySegments, Record, TextOf, Concat, Trim;
    parsed := EMPTY;
    var textParts: seq<string> := [];
    assert segs[0..] == segs && Concat([]) + DecodedText(segs) == DecodedText(segs) by { ArrayDone(EMPTY, redact); }
    for i := 0 to |segs|
      invariant Concat(textParts) + DecodedText(segs[i..]) == DecodedText(segs)
      invariant ApplySegments(segs[i..], parsed, redact) == ApplySegments(segs, EMPTY, redact)
    {
      ArrayStep(segs, i, parsed, redact);
      if segs[i].kind == "text" {
        var part := DecodeCqValue(TextOf(segs[i]));
        ConcatOne(textParts, part);
        assert Concat(textParts) + (part + DecodedText(segs[i + 1..]))
            == (Concat(textParts) + part) + DecodedText(segs[i + 1..]);
        textParts := textParts + [part];
      } else {
        assert TextOf(segs[i]) == "" by { NoText(segs[i]); }
        DecodeEmpty();
        parsed := ApplySegment(segs[i].kind, Record(segs[i]), parsed, redact);
      }
    }
    assert segs[|segs|..] == [] && Concat(textParts) + "" == Concat(textParts);
    ArrayDone(parsed, redact);
    parsed := parsed.(text := Trim(Concat(textParts)));
  }

  lemma {:induction false} ArrayDone(parsed: Parsed, redact: Redactor)
    ensures Concat([]) == "" && DecodedText([]) == "" && ApplySegments([], parsed, redact) == parsed
  {
  }

  lemma {:induction false} NoText(seg: Segment)
    requires seg.kind != "text"
    ensures TextOf(seg) == ""
  {
  }

  // ---------------------------------------------------------------- rendering

  /** Names the string format can carry: the grammar of types and of parameter keys. */
  predicate WellFormed(seg: Segment) {
    seg.kind != "text" ==>
      TypeName(seg.kind) && forall f | f in seg.data :: f.0 != "" && '=' !in f.0 && ',' !in f.0 && ']' !in f.0
  }

  function RenderField(f: (string, string)): string {
    f.0 + "=" + Escape(f.1, true)
  }

  function RenderFields(data: seq<(string, string)>): string {
    if data == [] then "" else "," + RenderField(data[0]) + RenderFields(data[1..])
  }

  function RenderCode(seg: Segment): string {
    "[CQ:" + seg.kind + RenderFields(seg.data) + "]"
  }

  /** A segment list in the OneBot 11 string message format. */
  function Render(segs: seq<Segment>): string {
    if segs == [] then ""
    else
      (if segs[0].kind == "text" then Escape(TextOf(segs[0]), false) else RenderCode(segs[0]))
      + Render(segs[1..])
  }

  lemma {:induction false} FieldsAreParams(data: seq<(string, string)>)
    requires forall f | f in data :: f.0 != "" && '=' !in f.0 && ',' !in f.0 && ']' !in f.0
    ensures data != [] ==> RenderFields(data)[0] == ',' && ']' !in RenderFields(data)
  {
    if data != [] { FieldsAreParams(data[1..]); }
  }

  lemma {:induction false} SplitOnce(a: string, b: string, sep: char)
    requires sep !in a
    ensures Split(a, sep) == [a]
    ensures Split(a + [sep] + b, sep) == [a] + Split(b, sep)
  {
    var s := a + [sep] + b;
    assert s[..|a|] == a && s[|a| + 1..] == b;
    assert a[..|a|] == a;
    IndexOfIs(s, sep, |a|);
    IndexOfIs(a, sep, |a|);
  }

  /** A record as the parameters of a code can carry it. */
  function Assignable(data: map<string, string>): map<string, string> {
    data - {PROTO}
  }

  lemma {:induction false} AddRendered(f: (string, string), acc: map<string, string>)
    requires f.0 != "" && '=' !in f.0
    ensures AddPair(RenderField(f), Assignable(acc)) == Assignable(acc[f.0 := f.1])
  {
    var p := RenderField(f);
    assert p[..|f.0|] == f.0 && p[|f.0| + 1..] == Escape(f.1, true);
    IndexOfIs(p, '=', |f.0|);
    DecodeUndoesEscape(f.1, true);
    hide DecodeCqValue, PROTO;
    assert f.0 == PROTO ==> Assignable(acc[f.0 := f.1]) == Assignable(acc);
    assert f.0 != PROTO ==> Assignable(acc[f.0 := f.1]) == Assignable(acc)[f.0 := f.1];
  }

  lemma {:induction false} ParamsOfFields(data: seq<(string, string)>, acc: map<string, string>)
    requires data != []
    requires forall f | f in data :: f.0 != "" && '=' !in f.0 && ',' !in f.0 && ']' !in f.0
    ensures AddPairs(Split(RenderFields(data)[1..], ','), Assignable(acc)) == Assignable(AddFields(data, acc))
  {
    hide AddPair, Split, RenderField;
    var f, rest := RenderField(data[0]), RenderFields(data[1..]);
    assert ',' !in f by { FieldHasNoComma(data[0]); }
    AddRendered(data[0], acc);
    if data[1..] == [] {
      assert RenderFields(data)[1..] == f;
      SplitOnce(f, "", ',');
      assert AddPairs([f], Assignable(acc)) == AddPairs([], AddPair(f, Assignable(acc)));
    } else {
      FieldsAreParams(data[1..]);
      assert RenderFields(data)[1..] == f + [','] + rest[1..];
      SplitOnce(f, rest[1..], ',');
      ParamsOfFields(data[1..], acc[data[0].0 := data[0].1]);
      assert ([f] + Split(rest[1..], ','))[1..] == Split(rest[1..], ',');
    }
  }

  lemma {:induction false} FieldHasNoComma(f: (string, string))
    requires ',' !in f.0
    ensures ',' !in RenderField(f)
  {
  }

  lemma {:induction false} ParamsOfRendering(seg: Segment)
    requires WellFormed(seg) && seg.kind != "text"
    ensures Params(RenderFields(seg.data)) == Assignable(Record(seg))
  {
    assert Assignable(map[]) == map[];
    if seg.data != [] {
      FieldsAreParams(seg.data);
      assert RenderFields(seg.data)[1..] != "" by {
        assert RenderFields(seg.data)[1..] == RenderField(seg.data[0]) + RenderFields(seg.data[1..]);
      }
      ParamsOfFields(seg.data, map[]);
    }
  }

  lemma {:induction false} NextCodeSkips(e: string, r: string)
    requires '[' !in e
    ensures NextCode(e + r) == match NextCode(r) case None => None case Some(i) => Some(|e| + i)
  {
    hide CodeAt;
    if e == "" {
      assert e + r == r;
    } else {
      CodeNeedsBracket(e + r);
      NextCodeSkips(e[1..], r);
      assert (e + r)[1..] == e[1..] + r;
      assert (e + r)[0] == e[0] != '[';
    }
  }

  /** The tokens of a rendering: adjacent texts merge into one slice. `t` is the text read so far. */
  function Merge(t: string, segs: seq<Segment>): seq<Token>
    decreases |segs|
  {
    if segs == [] then [Slice(Escape(t, false))]
    else if segs[0].kind == "text" then Merge(t + TextOf(segs[0]), segs[1..])
    else
      var params := RenderFields(segs[0].data);
      [Slice(Escape(t, false)), Match(Code(segs[0].kind, params, |RenderCode(segs[0])|))] + Merge("", segs[1..])
  }

  lemma {:induction false} Cut(a: string, b: string, c: string)
    ensures (a + (b + c))[..|a|] == a && (a + (b + c))[|a|..] == b + c && (a + (b + c))[|a| + |b|..] == c
    ensures (b + c)[..|b|] == b
  {
  }

  lemma {:induction false} CodeOfRendering(seg: Segment, rest: string)
    requires WellFormed(seg) && seg.kind != "text"
    ensures CodeAt(RenderCode(seg) + rest) == Some(Code(seg.kind, RenderFields(seg.data), |RenderCode(seg)|))
    ensures NextCode(RenderCode(seg) + rest) == Some(0)
  {
    FieldsAreParams(seg.data);
    var fields := RenderFields(seg.data);
    assert RenderCode(seg) == "[CQ:" + seg.kind + fields + "]";
    hide CodeAt, RenderFields, RenderCode;
    CodeAtWord(seg.kind, fields, rest);
  }

  lemma {:induction false} TokensOfRendering(t: string, segs: seq<Segment>)
    requires forall s | s in segs :: WellFormed(s)
    ensures Tokens(Escape(t, false) + Render(segs)) == Merge(t, segs)
    decreases |segs|
  {
    hide Tokens, NextCode, CodeAt, WellFormed, RenderCode, Escape, TextOf;
    var e := Escape(t, false);
    if segs == [] {
      NextCodeSkips(e, "");
      assert NextCode("").None? by { NextCodeIs("", 0); }
      assert e + "" == e;
      TokensEnd(e);
    } else if segs[0].kind == "text" {
      var x, rest := TextOf(segs[0]), Render(segs[1..]);
      EscapeAppend(t, x, false);
      Regroup(e, Escape(x, false), rest);
      TokensOfRendering(t + x, segs[1..]);
    } else {
      var w, rest := RenderCode(segs[0]), Render(segs[1..]);
      CodeOfRendering(segs[0], rest);
      NextCodeSkips(e, w + rest);
      Cut(e, w, rest);
      TokensCons(e + (w + rest), |e|, Code(segs[0].kind, RenderFields(segs[0].data), |w|));
      TokensOfRendering("", segs[1..]);
      assert Escape("", false) + rest == rest by { EscapeNothing(); }
    }
  }

  lemma {:induction false} EscapeNothing()
    ensures Escape("", false) == ""
  {
  }

  /** No structured part is read from the name that parameters cannot carry. */
  lemma ApplyReadsNoProto(kind: string, data: map<string, string>, parsed: Parsed, redact: Redactor)
    ensures ApplySegment(kind, Assignable(data), parsed, redact) == ApplySegment(kind, data, parsed, redact)
  {
    assert Field(Assignable(data), "qq") == Field(data, "qq");
    assert Field(Assignable(data), "id") == Field(data, "id");
    assert Field(Assignable(data), "url") == Field(data, "url");
    hide Field, Assignable;
  }

  lemma {:induction false} MergeMeaning(t: string, segs: seq<Segment>, parsed: Parsed, redact: Redactor)
    requires forall s | s in segs :: WellFormed(s)
    ensures SliceText(Merge(t, segs)) == t + LiteralText(segs)
    ensures ApplyCodes(Merge(t, segs), parsed, redact) == ApplySegments(segs, parsed, redact)
    decreases |segs|
  {
    hide DecodeCqValue, ApplySegment, Params, RenderCode, Record, TextOf, WellFormed, SliceText, ApplyCodes, Escape;
    DecodeUndoesEscape(t, false);
    if segs == [] {
      LastSlice(Escape(t, false), parsed, redact);
    } else if segs[0].kind == "text" {
      MergeMeaning(t + TextOf(segs[0]), segs[1..], parsed, redact);
      Regroup(t, TextOf(segs[0]), LiteralText(segs[1..]));
    } else {
      ParamsOfRendering(segs[0]);
      ApplyReadsNoProto(segs[0].kind, Record(segs[0]), parsed, redact);
      MergeMeaning("", segs[1..], ApplySegment(segs[0].kind, Record(segs[0]), parsed, redact), redact);
      var code := Code(segs[0].kind, RenderFields(segs[0].data), |RenderCode(segs[0])|);
      SliceAndMatch(Escape(t, false), code, Merge("", segs[1..]), parsed, redact);
      assert TextOf(segs[0]) == "" by { NoText(segs[0]); }
      assert "" + LiteralText(segs[1..]) == LiteralText(segs[1..]);
    }
  }

  /** Reading back a rendering yields the segments' own literal texts and structured parts. */
  lemma {:induction false} StringRoundTrip(segs: seq<Segment>, redact: Redactor)
    requires forall s | s in segs :: WellFormed(s)
    ensures StringMeaning(Render(segs), redact)
         == ApplySegments(segs, EMPTY, redact).(text := Trim(LiteralText(segs)))
  {
    assert Escape("", false) + Render(segs) == Render(segs);
    TokensOfRendering("", segs);
    MergeMeaning("", segs, EMPTY, redact);
    assert "" + LiteralText(segs) == LiteralText(segs);
  }

  predicate TextHasEntity(segs: seq<Segment>) {
    exists i | 0 <= i < |segs| :: HasEntity(TextOf(segs[i]))
  }

  lemma {:induction false} DecodedTextShrinks(segs: seq<Segment>)
    ensures Solid(DecodedText(segs)) <= Solid(LiteralText(segs))
    ensures TextHasEntity(segs) ==> Solid(DecodedText(segs)) < Solid(LiteralText(segs))
    ensures !TextHasEntity(segs) ==> DecodedText(segs) == LiteralText(segs)
  {
    if segs != [] {
      var x := TextOf(segs[0]);
      DecodedTextShrinks(segs[1..]);
      SequentialIsSimultaneous(x);
      DecodeShrinks(x);
      SolidAppend(x, LiteralText(segs[1..]));
      SolidAppend(DecodeCqValue(x), DecodedText(segs[1..]));
      if TextHasEntity(segs) && !HasEntity(x) {
        var i :| 0 <= i < |segs| && HasEntity(TextOf(segs[i]));
        assert HasEntity(TextOf(segs[1..][i - 1]));
      }
      if TextHasEntity(segs[1..]) {
        var i :| 0 <= i < |segs[1..]| && HasEntity(TextOf(segs[1..][i]));
        assert HasEntity(TextOf(segs[i + 1]));
      }
    }
  }

  /** The string form of a segment list and the list itself parse alike, except that the array parser
      decodes texts that were never escaped: they agree exactly when no text holds an entity. */
  lemma {:induction false} StringAndArrayAgree(segs: seq<Segment>, redact: Redactor)
    requires forall s | s in segs :: WellFormed(s)
    ensures StringMeaning(Render(segs), redact) == ArrayMeaning(segs, redact) <==> !TextHasEntity(segs)
    ensures StringMeaning(Render(segs), redact).(text := "") == ArrayMeaning(segs, redact).(text := "")
  {
    StringRoundTrip(segs, redact);
    DecodedTextShrinks(segs);
    SolidTrim(DecodedText(segs));
    SolidTrim(LiteralText(segs));
  }
}
