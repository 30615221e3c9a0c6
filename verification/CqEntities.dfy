// The entity decoder of the CQ message format: four global replacements applied one after the other.
module CqEntities {
  import opened Text

  const COMMA := "&#44;"
  const OPEN := "&#91;"
  const CLOSE := "&#93;"
  const AMP := "&amp;"

  /** `s.replace(/pat/g, c)`. */
  function ReplaceAll(s: string, pat: string, c: char): string
    requires pat != ""
    decreases |s|
  {
    if pat <= s then [c] + ReplaceAll(s[|pat|..], pat, c)
    else if s == "" then ""
    else [s[0]] + ReplaceAll(s[1..], pat, c)
  }

  function DecodeCqValue(v: string): string {
    ReplaceAll(ReplaceAll(ReplaceAll(ReplaceAll(v, COMMA, ','), OPEN, '['), CLOSE, ']'), AMP, '&')
  }

  function Entity(i: nat): (e: string)
    requires i < 4
    ensures |e| == 5 && e[0] == '&' && e[3] == "413p"[i]
  {
    [COMMA, OPEN, CLOSE, AMP][i]
  }

  function Plain(i: nat): char
    requires i < 4
  {
    ",[]&"[i]
  }

  /** The entity, among the first `k`, that `s` begins with. */
  function EntityAt(s: string, k: nat): (r: Option<nat>)
    requires k <= 4
    ensures r.Some? ==> r.value < k && Entity(r.value) <= s
    ensures forall i: nat | i < k && Entity(i) <= s :: r == Some(i)
  {
    if k == 0 then None
    else if Entity(k - 1) <= s then Some(k - 1)
    else EntityAt(s, k - 1)
  }

  /** The first character decoded, and how many characters it stands for. */
  function Head(s: string, k: nat): char
    requires k <= 4 && s != ""
  {
    var e := EntityAt(s, k);
    if e.Some? then Plain(e.value) else s[0]
  }

  function Width(s: string, k: nat): (w: nat)
    requires k <= 4 && s != ""
    ensures 1 <= w <= |s|
  {
    if EntityAt(s, k).Some? then 5 else 1
  }

  /** One left-to-right scan that decodes the first `k` entities at once. */
  function Scan(s: string, k: nat): string
    requires k <= 4
    decreases |s|
  {
    if s == "" then "" else [Head(s, k)] + Scan(s[Width(s, k)..], k)
  }

  /** Characters that neither start an entity nor result from decoding one. */
  predicate Inert(c: char) {
    c !in "&,[]"
  }

  predicate AllInert(p: string) {
    forall i | 0 <= i < |p| :: Inert(p[i])
  }

  lemma {:induction false} NoAmpersand(r: string, k: nat)
    requires k <= 4 && r != "" && r[0] != '&'
    ensures EntityAt(r, k).None? && Scan(r, k) == [r[0]] + Scan(r[1..], k)
  {
    assert EntityAt(r, k).None?;
    hide EntityAt;
  }

  lemma {:induction false} ScanKeepsInert(r: string, k: nat, p: string)
    requires k <= 4 && AllInert(p) && p <= r
    ensures Scan(r, k) == p + Scan(r[|p|..], k)
  {
    if p == "" {
      assert r[0..] == r;
    } else {
      assert r[0] == p[0] && r[0] != '&' && AllInert(p[1..]);
      hide *;
      NoAmpersand(r, k);
      ScanKeepsInert(r[1..], k, p[1..]);
      assert r[1..][|p[1..]|..] == r[|p|..];
      Uncons(p, Scan(r[|p|..], k));
    }
  }

  lemma {:induction false} Uncons(p: string, rest: string)
    requires p != ""
    ensures p + rest == [p[0]] + (p[1..] + rest)
  {
  }

  lemma {:induction false} InertWasThere(r: string, k: nat, p: string)
    requires k <= 4 && AllInert(p) && p <= Scan(r, k)
    ensures p <= r
  {
    if p != "" {
      assert Scan(r, k)[0] == Head(r, k) == p[0];
      assert EntityAt(r, k).None?;
      assert Scan(r, k)[1..] == Scan(r[1..], k);
      assert p[1..] <= Scan(r, k)[1..];
      InertWasThere(r[1..], k, p[1..]);
      assert r == [r[0]] + r[1..] && p == [p[0]] + p[1..];
    }
  }

  lemma {:induction false} ReplaceHit(e: string, c: char, rest: string)
    requires e != ""
    ensures ReplaceAll(e + rest, e, c) == [c] + ReplaceAll(rest, e, c)
  {
    assert e <= e + rest && (e + rest)[|e|..] == rest;
  }

  lemma {:induction false} ReplaceMiss(e: string, c: char, d: char, rest: string)
    requires e != "" && !(e <= [d] + rest)
    ensures ReplaceAll([d] + rest, e, c) == [d] + ReplaceAll(rest, e, c)
  {
    assert ([d] + rest)[1..] == rest;
  }

  /** Replacing the next entity after a scan is a scan for one entity more. */
  lemma {:induction false} ReplaceExtendsScan(s: string, k: nat)
    requires k < 4
    ensures ReplaceAll(Scan(s, k), Entity(k), Plain(k)) == Scan(s, k + 1)
    decreases |s|
  {
    var e := Entity(k);
    if s != "" {
      if e <= s {
        ScanEntity(s, k);
        ReplaceHit(e, Plain(k), Scan(s[5..], k));
        ReplaceExtendsScan(s[5..], k);
      } else {
        ScanNotEntity(s, k);
        ReplaceMiss(e, Plain(k), Head(s, k), Scan(s[Width(s, k)..], k));
        ReplaceExtendsScan(s[Width(s, k)..], k);
      }
    }
  }

  lemma {:induction false} EntityTail(k: nat)
    requires k < 4
    ensures AllInert(Entity(k)[1..]) && Entity(k) == "&" + Entity(k)[1..]
  {
  }

  lemma {:induction false} ScanEntity(s: string, k: nat)
    requires k < 4 && Entity(k) <= s
    ensures Scan(s, k) == Entity(k) + Scan(s[5..], k)
    ensures Head(s, k + 1) == Plain(k) && Width(s, k + 1) == 5
  {
    var tail := Entity(k)[1..];
    EntityTail(k);
    assert EntityAt(s, k + 1) == Some(k);
    assert EntityAt(s, k).None?;
    assert tail <= s[1..];
    ScanKeepsInert(s[1..], k, tail);
    assert s[1..][4..] == s[5..];
  }

  lemma {:induction false} ScanNotEntity(s: string, k: nat)
    requires k < 4 && s != "" && !(Entity(k) <= s)
    ensures Head(s, k + 1) == Head(s, k) && Width(s, k + 1) == Width(s, k)
    ensures !(Entity(k) <= Scan(s, k))
  {
    var tail := Entity(k)[1..];
    EntityTail(k);
    assert EntityAt(s, k + 1) == EntityAt(s, k);
    assert s == [s[0]] + s[1..];
    if EntityAt(s, k).None? && s[0] == '&' && tail <= Scan(s[1..], k) {
      InertWasThere(s[1..], k, tail);
      assert false;
    }
    assert Scan(s, k) == [Head(s, k)] + Scan(s[Width(s, k)..], k);
  }

  lemma {:induction false} ScanNothing(s: string)
    ensures Scan(s, 0) == s
  {
    if s != "" { ScanNothing(s[1..]); }
  }

  /** On every string the four sequential replacements are one simultaneous scan. */
  lemma {:induction false} SequentialIsSimultaneous(s: string)
    ensures DecodeCqValue(s) == Scan(s, 4)
  {
    ScanNothing(s);
    ReplaceExtendsScan(s, 0);
    ReplaceExtendsScan(s, 1);
    ReplaceExtendsScan(s, 2);
    ReplaceExtendsScan(s, 3);
  }

  /** The OneBot 11 escape of one character; the comma is escaped inside a code only. */
  function EscapeChar(c: char, inCode: bool): string {
    match c
    case '&' => AMP
    case '[' => OPEN
    case ']' => CLOSE
    case ',' => if inCode then COMMA else ","
    case _ => [c]
  }

  function Escape(s: string, inCode: bool): (r: string)
    ensures '[' !in r && ']' !in r
    ensures inCode ==> ',' !in r
  {
    if s == "" then "" else EscapeChar(s[0], inCode) + Escape(s[1..], inCode)
  }

  lemma {:induction false} EscapeAppend(a: string, b: string, inCode: bool)
    ensures Escape(a + b, inCode) == Escape(a, inCode) + Escape(b, inCode)
  {
    hide EscapeChar;
    if a == "" {
      assert a + b == b;
    } else {
      EscapeAppend(a[1..], b, inCode);
      assert (a + b)[0] == a[0] && (a + b)[1..] == a[1..] + b;
      Regroup(EscapeChar(a[0], inCode), Escape(a[1..], inCode), Escape(b, inCode));
    }
  }

  lemma {:induction false} Regroup(a: string, b: string, c: string)
    ensures a + (b + c) == (a + b) + c
  {
  }

  lemma {:induction false} ScanEscaped(c: char, inCode: bool, rest: string)
    ensures Scan(EscapeChar(c, inCode) + rest, 4) == [c] + Scan(rest, 4)
  {
    var e := EscapeChar(c, inCode);
    assert (e + rest)[|e|..] == rest;
    if |e| == 1 {
      assert EntityAt(e + rest, 4).None?;
    } else {
      var i := match c { case ',' => 0 case '[' => 1 case ']' => 2 case _ => 3 };
      assert e == Entity(i) && Plain(i) == c;
      assert EntityAt(e + rest, 4) == Some(i);
    }
  }

  lemma {:induction false} ScanUndoesEscape(s: string, inCode: bool)
    ensures Scan(Escape(s, inCode), 4) == s
  {
    if s != "" {
      hide Scan, EscapeChar;
      ScanUndoesEscape(s[1..], inCode);
      ScanEscaped(s[0], inCode, Escape(s[1..], inCode));
    } else {
      assert Scan("", 4) == "";
    }
  }

  lemma {:induction false} DecodeUndoesEscape(s: string, inCode: bool)
    ensures DecodeCqValue(Escape(s, inCode)) == s
  {
    SequentialIsSimultaneous(Escape(s, inCode));
    ScanUndoesEscape(s, inCode);
  }

  predicate HasEntity(s: string) {
    exists i | 0 <= i <= |s| :: EntityAt(s[i..], 4).Some?
  }

  /** The number of characters that trimming can never remove. */
  function Solid(s: string): nat {
    if s == "" then 0 else (if IsSpace(s[0]) then 0 else 1) + Solid(s[1..])
  }

  lemma {:induction false} SolidAppend(a: string, b: string)
    ensures Solid(a + b) == Solid(a) + Solid(b)
  {
    if a == "" {
      assert a + b == b;
    } else {
      SolidAppend(a[1..], b);
      assert (a + b)[1..] == a[1..] + b;
    }
  }

  lemma {:induction false} SolidTrimStart(s: string)
    ensures Solid(TrimStart(s)) == Solid(s)
  {
    if s != "" { SolidTrimStart(s[1..]); }
  }

  lemma {:induction false} SolidTrimEnd(s: string)
    ensures Solid(TrimEnd(s)) == Solid(s)
  {
    if s != "" {
      SolidTrimEnd(s[..|s| - 1]);
      SolidAppend(s[..|s| - 1], [s[|s| - 1]]);
      assert s == s[..|s| - 1] + [s[|s| - 1]];
    }
  }

  lemma {:induction false} SolidTrim(s: string)
    ensures Solid(Trim(s)) == Solid(s)
  {
    SolidTrimStart(s);
    SolidTrimEnd(TrimStart(s));
  }

  lemma {:induction false} HasEntityStep(s: string)
    requires s != ""
    ensures HasEntity(s) <==> EntityAt(s, 4).Some? || HasEntity(s[1..])
  {
    assert s[0..] == s;
    forall j | 0 <= j < |s| ensures s[1..][j..] == s[j + 1..] {}
    if HasEntity(s[1..]) {
      var j :| 0 <= j <= |s| - 1 && EntityAt(s[1..][j..], 4).Some?;
      assert EntityAt(s[j + 1..], 4).Some?;
    }
    if HasEntity(s) && EntityAt(s, 4).None? {
      var j :| 0 <= j <= |s| && EntityAt(s[j..], 4).Some?;
      assert EntityAt(s[1..][j - 1..], 4).Some?;
    }
  }

  /** Decoding changes a string exactly when it contains an entity, and then the loss survives trimming. */
  lemma {:induction false} DecodeShrinks(s: string)
    ensures Solid(Scan(s, 4)) <= Solid(s)
    ensures HasEntity(s) ==> Solid(Scan(s, 4)) < Solid(s)
    ensures !HasEntity(s) ==> Scan(s, 4) == s
    decreases |s|
  {
    hide HasEntity, Entity, EntityAt, IsSpace, Plain;
    if s == "" {
      NoEntityInNothing();
    } else {
      HasEntityStep(s);
      var e := EntityAt(s, 4);
      if e.Some? {
        DecodeShrinks(s[5..]);
        SolidEntity(e.value);
        assert s == Entity(e.value) + s[5..];
        SolidAppend(Entity(e.value), s[5..]);
        SolidCons(Plain(e.value), Scan(s[5..], 4));
      } else {
        DecodeShrinks(s[1..]);
        SolidCons(s[0], Scan(s[1..], 4));
        assert s == [s[0]] + s[1..];
      }
    }
  }

  lemma {:induction false} NoEntityInNothing()
    ensures !HasEntity("")
  {
  }

  lemma {:induction false} SolidCons(c: char, s: string)
    ensures Solid([c] + s) == (if IsSpace(c) then 0 else 1) + Solid(s)
  {
    assert ([c] + s)[1..] == s;
  }

  lemma {:induction false} SolidAll(s: string)
    requires forall j | 0 <= j < |s| :: !IsSpace(s[j])
    ensures Solid(s) == |s|
  {
    if s != "" { SolidAll(s[1..]); }
  }

  lemma {:induction false} SolidEntity(i: nat)
    requires i < 4
    ensures Solid(Entity(i)) == 5
    ensures !IsSpace(Plain(i))
  {
    var e := Entity(i);
    assert forall j | 0 <= j < 5 :: !IsSpace(e[j]);
    hide Entity, IsSpace;
    SolidAll(e);
  }
}
