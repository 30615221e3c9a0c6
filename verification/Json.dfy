// JSON texts as `JSON.stringify` prints them, over UTF-16 code units (sections 5 and 7 of RFC 8259).
module Json {
  import opened Text

  type Unit = n: int | 0 <= n < 0x1_0000
  type Units = seq<Unit>

  function Ascii(s: string): (u: Units)
    requires forall i | 0 <= i < |s| :: s[i] < '\U{0080}'
    ensures |u| == |s| && forall i | 0 <= i < |s| :: u[i] == s[i] as int
  {
    seq(|s|, i requires 0 <= i < |s| => s[i] as int as Unit)
  }

  datatype Json = JString(s: Units) | JBool(b: bool) | JArray(items: seq<Json>)

  predicate HighSurrogate(u: Unit) { 0xD800 <= u < 0xDC00 }

  predicate LowSurrogate(u: Unit) { 0xDC00 <= u < 0xE000 }

  function HexDigit(d: nat): Unit
    requires d < 16
  {
    if d < 10 then 0x30 + d else 0x61 + d - 10
  }

  function HexValue(u: Unit): nat {
    if u < 0x61 then (if u >= 0x30 then u - 0x30 else 0) else u - 0x61 + 10
  }

  /** The letter after the backslash of a two-character escape, or 0. */
  function ShortEscape(u: Unit): Unit {
    match u
    case 0x08 => 0x62
    case 0x09 => 0x74
    case 0x0A => 0x6E
    case 0x0C => 0x66
    case 0x0D => 0x72
    case 0x22 => 0x22
    case 0x5C => 0x5C
    case _ => 0
  }

  function ShortUnescape(u: Unit): Unit {
    match u
    case 0x62 => 0x08
    case 0x74 => 0x09
    case 0x6E => 0x0A
    case 0x66 => 0x0C
    case 0x72 => 0x0D
    case _ => u
  }

  /** One code unit that is not half of a surrogate pair. */
  function QuoteUnit(u: Unit): Units {
    if ShortEscape(u) != 0 then [0x5C, ShortEscape(u)]
    else if u < 0x20 || HighSurrogate(u) || LowSurrogate(u) then
      [0x5C, 0x75, HexDigit(u / 4096), HexDigit(u / 256 % 16), HexDigit(u / 16 % 16), HexDigit(u % 16)]
    else [u]
  }

  function QuoteBody(s: Units): Units {
    if s == [] then []
    else if |s| > 1 && HighSurrogate(s[0]) && LowSurrogate(s[1]) then s[..2] + QuoteBody(s[2..])
    else QuoteUnit(s[0]) + QuoteBody(s[1..])
  }

  function Print(j: Json): Units
    decreases j, 1
  {
    match j
    case JString(s) => [0x22] + QuoteBody(s) + [0x22]
    case JBool(b) => if b then Ascii("true") else Ascii("false")
    case JArray(items) => [0x5B] + PrintItems(items, true)
  }

  /** The items that remain, and the closing bracket. */
  function PrintItems(items: seq<Json>, first: bool): Units
    decreases items, 0
  {
    if items == [] then [0x5D]
    else (if first then [] else [0x2C]) + Print(items[0]) + PrintItems(items[1..], false)
  }

  /** The literals, the digits of an escape and the brackets read as in sections 3, 5 and 7 of RFC 8259. */
  lemma PrintedAsJson(d: nat)
    requires d < 16
    ensures Print(JBool(true)) == Ascii("true") && Print(JBool(false)) == Ascii("false")
    ensures Print(JArray([])) == Ascii("[]") && Print(JString([])) == [0x22, 0x22]
    ensures HexDigit(d) == Ascii("0123456789abcdef")[d]
  {
    assert Print(JString([])) == [0x22] + [] + [0x22];
  }

  // ---------------------------------------------------------------- reading back

  /** The string before the next closing quote, and what follows it. */
  function Unquote(t: Units): (Units, Units)
    decreases |t|
  {
    if t == [] || t[0] == 0x22 then ([], if t == [] then [] else t[1..])
    else
      var n := if t[0] != 0x5C then 1 else if |t| > 1 && t[1] != 0x75 then 2 else 6;
      if n > |t| then ([], [])
      else
        var rest := Unquote(t[n..]);
        ([UnquoteUnit(t[..n])] + rest.0, rest.1)
  }

  function UnquoteUnit(w: Units): Unit
    requires |w| in {1, 2, 6}
  {
    if |w| == 1 then w[0]
    else if |w| == 2 then ShortUnescape(w[1])
    else
      (HexValue(w[2]) * 4096 + HexValue(w[3]) * 256 + HexValue(w[4]) * 16 + HexValue(w[5])) % 0x1_0000
  }

  lemma HexSplit(u: Unit)
    ensures u == u / 4096 * 4096 + u / 256 % 16 * 256 + u / 16 % 16 * 16 + u % 16
    ensures u / 4096 < 16
  {
    assert u / 256 == u / 16 / 16 && u / 4096 == u / 16 / 16 / 16;
  }

  lemma HexInverse(d: nat)
    requires d < 16
    ensures HexValue(HexDigit(d)) == d
  {
  }

  lemma UnquoteHex(u: Unit)
    ensures UnquoteUnit([0x5C, 0x75, HexDigit(u / 4096), HexDigit(u / 256 % 16), HexDigit(u / 16 % 16), HexDigit(u % 16)]) == u
  {
    HexSplit(u);
    HexInverse(u / 4096);
    HexInverse(u / 256 % 16);
    HexInverse(u / 16 % 16);
    HexInverse(u % 16);
  }

  lemma UnquoteQuoted(u: Unit)
    ensures var q := QuoteUnit(u);
      && q[0] != 0x22
      && |q| == (if q[0] != 0x5C then 1 else if q[1] != 0x75 then 2 else 6)
      && UnquoteUnit(q) == u
  {
    hide HexDigit, HexValue;
    if ShortEscape(u) == 0 {
      UnquoteHex(u);
    }
  }

  lemma UnquoteStep(w: Units, rest: Units)
    requires |w| > 0 && w[0] != 0x22
    requires |w| == (if w[0] != 0x5C then 1 else if |w| > 1 && w[1] != 0x75 then 2 else 6)
    ensures Unquote(w + rest) == ([UnquoteUnit(w)] + Unquote(rest).0, Unquote(rest).1)
  {
    hide UnquoteUnit;
    assert (w + rest)[..|w|] == w && (w + rest)[|w|..] == rest;
  }

  lemma {:induction false} UnquoteBody(s: Units, r: Units)
    ensures Unquote(QuoteBody(s) + [0x22] + r) == (s, r)
    decreases |s|
  {
    hide QuoteUnit, UnquoteUnit, Unquote;
    if s == [] {
      assert QuoteBody(s) + [0x22] + r == [0x22] + r;
      assert Unquote([0x22] + r) == ([], r) by { UnquoteEnd(r); }
    } else if |s| > 1 && HighSurrogate(s[0]) && LowSurrogate(s[1]) {
      UnquoteBody(s[2..], r);
      var rest := QuoteBody(s[2..]) + [0x22] + r;
      assert QuoteBody(s) + [0x22] + r == [s[0]] + ([s[1]] + rest);
      PlainUnit(s[0]);
      PlainUnit(s[1]);
      UnquoteStep([s[0]], [s[1]] + rest);
      UnquoteStep([s[1]], rest);
      assert s == [s[0]] + ([s[1]] + s[2..]);
    } else {
      UnquoteBody(s[1..], r);
      var rest := QuoteBody(s[1..]) + [0x22] + r;
      assert QuoteBody(s) + [0x22] + r == QuoteUnit(s[0]) + rest;
      UnquoteQuoted(s[0]);
      UnquoteStep(QuoteUnit(s[0]), rest);
      assert s == [s[0]] + s[1..];
    }
  }

  lemma UnquoteEnd(r: Units)
    ensures Unquote([0x22] + r) == ([], r)
  {
    assert ([0x22] + r)[1..] == r;
  }

  lemma PlainUnit(u: Unit)
    ensures UnquoteUnit([u]) == u
  {
  }

  lemma QuoteInjective(a: Units, b: Units, r: Units, t: Units)
    requires QuoteBody(a) + [0x22] + r == QuoteBody(b) + [0x22] + t
    ensures a == b && r == t
  {
    UnquoteBody(a, r);
    UnquoteBody(b, t);
  }

  /** Two values that print to the same text, whatever follows them, are the same value. */
  lemma {:induction false} PrintInjective(a: Json, b: Json, r: Units, t: Units)
    requires Print(a) + r == Print(b) + t
    ensures a == b && r == t
    decreases a, 1
  {
    hide QuoteBody;
    assert (Print(a) + r)[0] == (Print(b) + t)[0];
    match a {
      case JString(s) =>
        assert b.JString?;
        assert (Print(a) + r)[1..] == QuoteBody(s) + [0x22] + r;
        assert (Print(b) + t)[1..] == QuoteBody(b.s) + [0x22] + t;
        QuoteInjective(s, b.s, r, t);
      case JBool(v) =>
        assert b.JBool? && b.b == v;
        assert (Print(a) + r)[|Print(a)|..] == r && (Print(b) + t)[|Print(b)|..] == t;
      case JArray(items) =>
        assert b.JArray?;
        assert (Print(a) + r)[1..] == PrintItems(items, true) + r;
        assert (Print(b) + t)[1..] == PrintItems(b.items, true) + t;
        ItemsInjective(items, b.items, true, r, t);
    }
  }

  lemma PrintHead(j: Json)
    ensures Print(j) != [] && Print(j)[0] in {0x22, 0x74, 0x66, 0x5B}
  {
    hide QuoteBody;
  }

  lemma {:induction false} ItemsInjective(a: seq<Json>, b: seq<Json>, first: bool, r: Units, t: Units)
    requires PrintItems(a, first) + r == PrintItems(b, first) + t
    ensures a == b && r == t
    decreases a, 0
  {
    hide Print;
    var x, y := PrintItems(a, first) + r, PrintItems(b, first) + t;
    if a != [] { PrintHead(a[0]); }
    if b != [] { PrintHead(b[0]); }
    assert x[0] == y[0];
    if a == [] {
      assert b == [];
      assert x[1..] == r && y[1..] == t;
    } else {
      assert b != [];
      var n := if first then 0 else 1;
      assert x[n..] == Print(a[0]) + (PrintItems(a[1..], false) + r);
      assert y[n..] == Print(b[0]) + (PrintItems(b[1..], false) + t);
      PrintInjective(a[0], b[0], PrintItems(a[1..], false) + r, PrintItems(b[1..], false) + t);
      ItemsInjective(a[1..], b[1..], false, r, t);
      assert a == [a[0]] + a[1..] && b == [b[0]] + b[1..];
    }
  }
}
