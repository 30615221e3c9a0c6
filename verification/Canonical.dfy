// The canonical text of a decision, which the execution binding is computed over.
module Canonical {
  import opened Text
  import opened Json

  /** A number by its `String(n)` text, which tells any two numbers other than 0 and -0 apart. */
  datatype Number = Finite(text: Units) | NegativeZero | NotFinite

  /** A run-time value. An object lists its own properties in creation order; `Exotic` is any value the
      encoder refuses, such as a class instance. */
  datatype Value =
    | Undefined
    | Null
    | Str(s: Units)
    | Boolean(b: bool)
    | Num(n: Number)
    | Date(ms: Option<int>)
    | Array(items: seq<Value>)
    | Object(fields: seq<(Units, Value)>)
    | Exotic

  predicate UniqueKeys<T>(ps: seq<(Units, T)>) {
    forall i, j | 0 <= i < j < |ps| :: ps[i].0 != ps[j].0
  }

  /** Facts of the language: property names are unique, and no number but -0 is written "-0". */
  predicate WellFormed(v: Value) {
    match v
    case Num(n) => n != Finite(Ascii("-0"))
    case Array(items) => forall x | x in items :: WellFormed(x)
    case Object(fields) => UniqueKeys(fields) && forall f | f in fields :: WellFormed(f.1)
    case _ => true
  }

  /** False for the values on which the encoder throws. */
  predicate Encodable(v: Value) {
    match v
    case Num(n) => n != NotFinite
    case Date(ms) => ms.Some?
    case Array(items) => forall x | x in items :: Encodable(x)
    case Object(fields) => forall f | f in fields :: Encodable(f.1)
    case Exotic => false
    case _ => true
  }

  // ---------------------------------------------------------------- sorting by key

  /** The default order of `Array.prototype.sort` on strings: by code units. */
  predicate Less(a: Units, b: Units) {
    b != [] && (a == [] || a[0] < b[0] || (a[0] == b[0] && Less(a[1..], b[1..])))
  }

  lemma {:induction false} LessTotal(a: Units, b: Units)
    ensures Less(a, b) || Less(b, a) || a == b
    ensures !(Less(a, b) && Less(b, a)) && !Less(a, a)
  {
    if a != [] { LessIrreflexive(a); }
    if a != [] && b != [] && a[0] == b[0] {
      LessTotal(a[1..], b[1..]);
      assert a == [a[0]] + a[1..] && b == [b[0]] + b[1..];
    }
  }

  lemma {:induction false} LessIrreflexive(a: Units)
    ensures !Less(a, a)
  {
    if a != [] { LessIrreflexive(a[1..]); }
  }

  lemma {:induction false} LessTransitive(a: Units, b: Units, c: Units)
    requires Less(a, b) && Less(b, c)
    ensures Less(a, c)
  {
    if a != [] && a[0] == b[0] == c[0] { LessTransitive(a[1..], b[1..], c[1..]); }
  }

  predicate Sorted<T>(ps: seq<(Units, T)>) {
    forall i, j | 0 <= i < j < |ps| :: Less(ps[i].0, ps[j].0)
  }

  function Insert<T>(p: (Units, T), ps: seq<(Units, T)>): seq<(Units, T)> {
    if ps == [] || Less(p.0, ps[0].0) then [p] + ps else [ps[0]] + Insert(p, ps[1..])
  }

  function SortByKey<T>(ps: seq<(Units, T)>): seq<(Units, T)> {
    if ps == [] then [] else Insert(ps[0], SortByKey(ps[1..]))
  }

  /** The object a property list stands for, whatever the order of its properties. */
  function ToMap<T>(ps: seq<(Units, T)>): map<Units, T> {
    if ps == [] then map[] else ToMap(ps[1..])[ps[0].0 := ps[0].1]
  }

  lemma {:induction false} ToMapKeys<T>(ps: seq<(Units, T)>)
    ensures forall k :: k in ToMap(ps) <==> exists i :: 0 <= i < |ps| && ps[i].0 == k
    ensures UniqueKeys(ps) ==> forall i | 0 <= i < |ps| :: ps[i].0 in ToMap(ps) && ToMap(ps)[ps[i].0] == ps[i].1
  {
    if ps != [] {
      ToMapKeys(ps[1..]);
      forall k ensures k in ToMap(ps) <==> exists i :: 0 <= i < |ps| && ps[i].0 == k {
        if k in ToMap(ps[1..]) {
          var i :| 0 <= i < |ps| - 1 && ps[1..][i].0 == k;
          assert ps[i + 1].0 == k;
        }
        if i :| 0 < i < |ps| && ps[i].0 == k { assert ps[1..][i - 1].0 == k; }
      }
    }
  }

  lemma {:induction false} InsertItems<T>(p: (Units, T), ps: seq<(Units, T)>)
    ensures |Insert(p, ps)| == |ps| + 1
    ensures forall k | 0 <= k <= |ps| :: Insert(p, ps)[k] == p || Insert(p, ps)[k] in ps
  {
    hide Less;
    if ps != [] { InsertItems(p, ps[1..]); }
  }

  lemma {:induction false} InsertSorts<T>(p: (Units, T), ps: seq<(Units, T)>)
    requires Sorted(ps) && forall q | q in ps :: q.0 != p.0
    ensures Sorted(Insert(p, ps))
  {
    hide Less;
    InsertItems(p, ps);
    if ps != [] {
      LessTotal(p.0, ps[0].0);
      InsertItems(p, ps[1..]);
      if Less(p.0, ps[0].0) {
        forall j | 0 < j < |ps| ensures Less(p.0, ps[j].0) { LessTransitive(p.0, ps[0].0, ps[j].0); }
      } else {
        InsertSorts(p, ps[1..]);
        assert forall q | q in ps[1..] :: Less(ps[0].0, q.0);
      }
    }
  }

  lemma {:induction false} InsertMap<T>(p: (Units, T), ps: seq<(Units, T)>)
    requires forall q | q in ps :: q.0 != p.0
    ensures ToMap(Insert(p, ps)) == ToMap(ps)[p.0 := p.1]
  {
    hide Less;
    if ps == [] || Less(p.0, ps[0].0) {
      assert ([p] + ps)[1..] == ps;
    } else {
      InsertMap(p, ps[1..]);
      assert ps[0] in ps;
      assert ([ps[0]] + Insert(p, ps[1..]))[1..] == Insert(p, ps[1..]);
    }
  }

  lemma {:induction false} SortSorts<T>(ps: seq<(Units, T)>)
    requires UniqueKeys(ps)
    ensures Sorted(SortByKey(ps)) && ToMap(SortByKey(ps)) == ToMap(ps)
    ensures |SortByKey(ps)| == |ps|
  {
    if ps != [] {
      SortSorts(ps[1..]);
      var s := SortByKey(ps[1..]);
      ToMapKeys(s);
      ToMapKeys(ps[1..]);
      forall q | q in s ensures q.0 != ps[0].0 {
        assert q.0 in ToMap(ps[1..]);
      }
      InsertItems(ps[0], s);
      InsertSorts(ps[0], s);
      InsertMap(ps[0], s);
    }
  }

  lemma SortedUnique<T>(ps: seq<(Units, T)>)
    requires Sorted(ps)
    ensures UniqueKeys(ps)
  {
    forall i, j | 0 <= i < j < |ps| ensures ps[i].0 != ps[j].0 { LessIrreflexive(ps[i].0); }
  }

  /** A map has one sorted listing. */
  lemma {:induction false} SortedListingUnique<T>(ps: seq<(Units, T)>, qs: seq<(Units, T)>)
    requires Sorted(ps) && Sorted(qs) && ToMap(ps) == ToMap(qs)
    ensures ps == qs
  {
    SortedUnique(ps);
    SortedUnique(qs);
    ToMapKeys(ps);
    ToMapKeys(qs);
    hide Less;
    assert ps != [] ==> ps[0].0 in ToMap(qs);
    assert qs != [] ==> qs[0].0 in ToMap(ps);
    if ps != [] {
      var i :| 0 <= i < |qs| && qs[i].0 == ps[0].0;
      var j :| 0 <= j < |ps| && ps[j].0 == qs[0].0;
      LessTotal(ps[0].0, qs[0].0);
      assert ps[0].0 == qs[0].0;
      assert ps[0].1 == ToMap(ps)[ps[0].0] == qs[0].1;
      DropFirst(ps);
      DropFirst(qs);
      SortedListingUnique(ps[1..], qs[1..]);
      assert ps == [ps[0]] + ps[1..] && qs == [qs[0]] + qs[1..];
    }
  }

  lemma DropFirst<T>(ps: seq<(Units, T)>)
    requires ps != [] && UniqueKeys(ps)
    ensures ToMap(ps[1..]) == ToMap(ps) - {ps[0].0}
  {
    ToMapKeys(ps[1..]);
    assert ps[0].0 !in ToMap(ps[1..]);
  }

  /** Sorting by key forgets exactly the order of the properties. */
  lemma SortIsCanonical<T>(ps: seq<(Units, T)>, qs: seq<(Units, T)>)
    requires UniqueKeys(ps) && UniqueKeys(qs)
    ensures SortByKey(ps) == SortByKey(qs) <==> ToMap(ps) == ToMap(qs)
  {
    SortSorts(ps);
    SortSorts(qs);
    if ToMap(ps) == ToMap(qs) { SortedListingUnique(SortByKey(ps), SortByKey(qs)); }
  }

  // ---------------------------------------------------------------- the encoder

  function Signed(n: int): Units {
    if n < 0 then Ascii("-" + Decimal(-n)) else Ascii(Decimal(n))
  }

  function Tagged(tag: string, payload: seq<Json>): Json
    requires forall i | 0 <= i < |tag| :: tag[i] < '\U{0080}'
  {
    JArray([JString(Ascii(tag))] + payload)
  }

  function Node(v: Value): Json
    requires Encodable(v)
    decreases v, 1
  {
    match v
    case Undefined => Tagged("undefined", [])
    case Null => Tagged("null", [])
    case Str(s) => Tagged("string", [JString(s)])
    case Boolean(b) => Tagged("boolean", [JBool(b)])
    case Num(n) => Tagged("number", [JString(if n.NegativeZero? then Ascii("-0") else n.text)])
    case Date(ms) => Tagged("date", [JString(Signed(ms.value))])
    case Array(items) => Tagged("array", [JArray(Nodes(items))])
    case Object(fields) => Tagged("object", [JArray(Pairs(SortByKey(FieldNodes(fields))))])
  }

  function Nodes(items: seq<Value>): seq<Json>
    requires forall x | x in items :: Encodable(x)
    decreases items, 0
  {
    if items == [] then [] else [Node(items[0])] + Nodes(items[1..])
  }

  /** Each property with its encoded value; sorting looks at the keys alone, so it may come after. */
  function FieldNodes(fields: seq<(Units, Value)>): (ps: seq<(Units, Json)>)
    requires forall f | f in fields :: Encodable(f.1)
    ensures |ps| == |fields| && forall i | 0 <= i < |ps| :: ps[i].0 == fields[i].0
    decreases fields, 0
  {
    if fields == [] then []
    else var f := fields[0]; assert f.1 < f; [(f.0, Node(f.1))] + FieldNodes(fields[1..])
  }

  function Pairs(ps: seq<(Units, Json)>): seq<Json> {
    if ps == [] then [] else [JArray([JString(ps[0].0), ps[0].1])] + Pairs(ps[1..])
  }

  function CanonicalText(v: Value): Result<Units, ()> {
    if Encodable(v) then Ok(Print(Node(v))) else Err(())
  }

  // ---------------------------------------------------------------- what a value means

  /** A value with the order of object properties forgotten. */
  datatype Tree =
    | TUndefined
    | TNull
    | TStr(s: Units)
    | TBoolean(b: bool)
    | TNum(n: Number)
    | TDate(ms: int)
    | TArray(items: seq<Tree>)
    | TObject(fields: map<Units, Tree>)

  function Meaning(v: Value): Tree
    requires Encodable(v)
    decreases v, 1
  {
    match v
    case Undefined => TUndefined
    case Null => TNull
    case Str(s) => TStr(s)
    case Boolean(b) => TBoolean(b)
    case Num(n) => TNum(n)
    case Date(ms) => TDate(ms.value)
    case Array(items) => TArray(Meanings(items))
    case Object(fields) => TObject(ToMap(FieldMeanings(fields)))
  }

  function Meanings(items: seq<Value>): seq<Tree>
    requires forall x | x in items :: Encodable(x)
    decreases items, 0
  {
    if items == [] then [] else [Meaning(items[0])] + Meanings(items[1..])
  }

  function FieldMeanings(fields: seq<(Units, Value)>): (ps: seq<(Units, Tree)>)
    requires forall f | f in fields :: Encodable(f.1)
    ensures |ps| == |fields| && forall i | 0 <= i < |ps| :: ps[i].0 == fields[i].0
    decreases fields, 0
  {
    if fields == [] then []
    else var f := fields[0]; assert f.1 < f; [(f.0, Meaning(f.1))] + FieldMeanings(fields[1..])
  }

  // ---------------------------------------------------------------- injectivity

  lemma AsciiInjective(a: string, b: string)
    requires forall i | 0 <= i < |a| :: a[i] < '\U{0080}'
    requires forall i | 0 <= i < |b| :: b[i] < '\U{0080}'
    ensures Ascii(a) == Ascii(b) <==> a == b
  {
    if Ascii(a) == Ascii(b) {
      assert forall i | 0 <= i < |a| :: a[i] as int == Ascii(a)[i] == Ascii(b)[i] == b[i] as int;
    }
  }

  lemma SignedInjective(m: int, n: int)
    ensures Signed(m) == Signed(n) <==> m == n
  {
    var a, b := if m < 0 then "-" + Decimal(-m) else Decimal(m), if n < 0 then "-" + Decimal(-n) else Decimal(n);
    AsciiInjective(a, b);
    if a == b {
      assert a[0] == b[0];
      DecimalInjective(if m < 0 then -m else m, if n < 0 then -n else n);
      if m < 0 { assert a[1..] == Decimal(-m) && b[1..] == Decimal(-n); }
    }
  }

  /** The tag of a value tells its type. */
  function TagOf(v: Value): (t: string)
    requires Encodable(v)
    ensures forall i | 0 <= i < |t| :: t[i] < '\U{0080}'
  {
    match v
    case Undefined => "undefined"
    case Null => "null"
    case Str(_) => "string"
    case Boolean(_) => "boolean"
    case Num(_) => "number"
    case Date(_) => "date"
    case Array(_) => "array"
    case Object(_) => "object"
  }

  lemma TagsDiffer(v: Value, w: Value)
    requires Encodable(v) && Encodable(w)
    requires TagOf(v) == TagOf(w)
    ensures v.Undefined? == w.Undefined? && v.Null? == w.Null? && v.Str? == w.Str? && v.Boolean? == w.Boolean?
    ensures v.Num? == w.Num? && v.Date? == w.Date? && v.Array? == w.Array? && v.Object? == w.Object?
  {
    assert |TagOf(v)| == |TagOf(w)| && TagOf(v)[0] == TagOf(w)[0];
  }

  lemma NodeShape(v: Value)
    requires Encodable(v)
    ensures Node(v).JArray? && Node(v).items != [] && Node(v).items[0] == JString(Ascii(TagOf(v)))
  {
  }

  lemma {:induction false} PairsInjective(ps: seq<(Units, Json)>, qs: seq<(Units, Json)>)
    ensures Pairs(ps) == Pairs(qs) <==> ps == qs
  {
    if ps != [] && qs != [] {
      PairsInjective(ps[1..], qs[1..]);
      assert Pairs(ps) == Pairs(qs) ==> Pairs(ps)[0] == Pairs(qs)[0] && Pairs(ps)[1..] == Pairs(qs)[1..];
      assert Pairs(ps)[0] == Pairs(qs)[0] ==>
        Pairs(ps)[0].items[0] == Pairs(qs)[0].items[0] && Pairs(ps)[0].items[1] == Pairs(qs)[0].items[1];
      assert ps == [ps[0]] + ps[1..] && qs == [qs[0]] + qs[1..];
    }
  }

  /** Two values have the same canonical node exactly when they mean the same tree. */
  lemma {:induction false} NodeInjective(v: Value, w: Value)
    requires WellFormed(v) && WellFormed(w) && Encodable(v) && Encodable(w)
    ensures Node(v) == Node(w) <==> Meaning(v) == Meaning(w)
    decreases v, 1
  {
    NodeShape(v);
    NodeShape(w);
    AsciiInjective(TagOf(v), TagOf(w));
    if TagOf(v) != TagOf(w) {
      assert Node(v) != Node(w);
    } else {
      TagsDiffer(v, w);
      PayloadInjective(v, w);
    }
  }

  lemma {:induction false} PayloadInjective(v: Value, w: Value)
    requires WellFormed(v) && WellFormed(w) && Encodable(v) && Encodable(w)
    requires v.Undefined? == w.Undefined? && v.Null? == w.Null? && v.Str? == w.Str? && v.Boolean? == w.Boolean?
    requires v.Num? == w.Num? && v.Date? == w.Date? && v.Array? == w.Array? && v.Object? == w.Object?
    ensures Node(v) == Node(w) <==> Meaning(v) == Meaning(w)
    decreases v, 0
  {
    hide Ascii, Signed;
    match v {
      case Date(ms) =>
        SignedInjective(ms.value, w.ms.value);
        SecondItem(JString(Signed(ms.value)), JString(Signed(w.ms.value)), "date");
      case Array(items) =>
        NodesInjective(items, w.items);
        SecondItem(JArray(Nodes(items)), JArray(Nodes(w.items)), "array");
      case Object(_) => ObjectsInjective(v, w);
      case Str(s) => SecondItem(JString(s), JString(w.s), "string");
      case Boolean(b) => SecondItem(JBool(b), JBool(w.b), "boolean");
      case Num(n) => NumbersInjective(v, w);
      case _ =>
    }
  }

  lemma NumbersInjective(v: Value, w: Value)
    requires v.Num? && w.Num? && WellFormed(v) && WellFormed(w) && Encodable(v) && Encodable(w)
    ensures Node(v) == Node(w) <==> Meaning(v) == Meaning(w)
  {
    hide Ascii;
    var a := JString(if v.n.NegativeZero? then Ascii("-0") else v.n.text);
    var b := JString(if w.n.NegativeZero? then Ascii("-0") else w.n.text);
    SecondItem(a, b, "number");
  }

  lemma {:induction false} ObjectsInjective(v: Value, w: Value)
    requires v.Object? && w.Object? && WellFormed(v) && WellFormed(w) && Encodable(v) && Encodable(w)
    ensures Node(v) == Node(w) <==> Meaning(v) == Meaning(w)
    decreases v.fields, 1
  {
    hide Ascii, ToMap, SortByKey, Pairs, UniqueKeys, FieldNodes, FieldMeanings;
    FieldsInjective(v.fields, w.fields);
    var ps, qs := FieldNodes(v.fields), FieldNodes(w.fields);
    assert UniqueKeys(ps) && UniqueKeys(qs) by { SameKeys(v.fields, ps); SameKeys(w.fields, qs); }
    SortIsCanonical(ps, qs);
    PairsInjective(SortByKey(ps), SortByKey(qs));
    SecondItem(JArray(Pairs(SortByKey(ps))), JArray(Pairs(SortByKey(qs))), "object");
  }

  lemma SameKeys(fs: seq<(Units, Value)>, ps: seq<(Units, Json)>)
    requires UniqueKeys(fs) && |ps| == |fs| && forall i | 0 <= i < |ps| :: ps[i].0 == fs[i].0
    ensures UniqueKeys(ps)
  {
  }

  lemma SecondItem(a: Json, b: Json, tag: string)
    requires forall i | 0 <= i < |tag| :: tag[i] < '\U{0080}'
    ensures Tagged(tag, [a]) == Tagged(tag, [b]) <==> a == b
  {
    assert Tagged(tag, [a]).items[1] == a && Tagged(tag, [b]).items[1] == b;
  }

  lemma {:induction false} NodesInjective(a: seq<Value>, b: seq<Value>)
    requires forall x | x in a :: WellFormed(x) && Encodable(x)
    requires forall x | x in b :: WellFormed(x) && Encodable(x)
    ensures Nodes(a) == Nodes(b) <==> Meanings(a) == Meanings(b)
    decreases a, 0
  {
    hide Node, Meaning;
    if a != [] && b != [] {
      NodeInjective(a[0], b[0]);
      NodesInjective(a[1..], b[1..]);
      ConsEqual(Node(a[0]), Nodes(a[1..]), Node(b[0]), Nodes(b[1..]));
      ConsEqual(Meaning(a[0]), Meanings(a[1..]), Meaning(b[0]), Meanings(b[1..]));
    }
  }

  lemma ConsEqual<T>(x: T, xs: seq<T>, y: T, ys: seq<T>)
    ensures [x] + xs == [y] + ys <==> x == y && xs == ys
  {
    if [x] + xs == [y] + ys {
      assert ([x] + xs)[0] == ([y] + ys)[0] && ([x] + xs)[1..] == xs && ([y] + ys)[1..] == ys;
    }
  }

  lemma {:induction false} FieldNodeAt(fs: seq<(Units, Value)>, i: nat)
    requires i < |fs| && forall f | f in fs :: Encodable(f.1)
    ensures FieldNodes(fs)[i] == (fs[i].0, Node(fs[i].1))
    ensures FieldMeanings(fs)[i] == (fs[i].0, Meaning(fs[i].1))
  {
    hide Node, Meaning;
    if i > 0 { FieldNodeAt(fs[1..], i - 1); }
  }

  lemma {:induction false} FieldsInjective(fs: seq<(Units, Value)>, gs: seq<(Units, Value)>)
    requires UniqueKeys(fs) && forall f | f in fs :: WellFormed(f.1) && Encodable(f.1)
    requires UniqueKeys(gs) && forall f | f in gs :: WellFormed(f.1) && Encodable(f.1)
    ensures ToMap(FieldNodes(fs)) == ToMap(FieldNodes(gs)) <==> ToMap(FieldMeanings(fs)) == ToMap(FieldMeanings(gs))
    decreases fs, 0
  {
    hide Node, Meaning, ToMap, FieldNodes, FieldMeanings, WellFormed, Encodable;
    var fn, gn, fm, gm := FieldNodes(fs), FieldNodes(gs), FieldMeanings(fs), FieldMeanings(gs);
    forall k ensures k in ToMap(fn) <==> k in ToMap(fm) { KeysAlike(fs, fn, fm, k); }
    forall k ensures k in ToMap(gn) <==> k in ToMap(gm) { KeysAlike(gs, gn, gm, k); }
    forall k | k in ToMap(fn) && k in ToMap(gn)
      ensures ToMap(fn)[k] == ToMap(gn)[k] <==> ToMap(fm)[k] == ToMap(gm)[k]
    {
      var i := Lookup(fs, k);
      var j := Lookup(gs, k);
      var f, g := fs[i], gs[j];
      assert f in fs && g in gs && f.1 < f;
      NodeInjective(f.1, g.1);
    }
    MapsAgree(ToMap(fn), ToMap(gn), ToMap(fm), ToMap(gm));
  }

  lemma MapsAgree<X, Y>(a: map<Units, X>, b: map<Units, X>, c: map<Units, Y>, d: map<Units, Y>)
    requires forall k :: k in a <==> k in c
    requires forall k :: k in b <==> k in d
    requires forall k | k in a && k in b :: a[k] == b[k] <==> c[k] == d[k]
    ensures a == b <==> c == d
  {
    if a == b {
      assert forall k :: k in c <==> k in d;
    } else if c == d {
      assert forall k :: k in a <==> k in b;
    }
  }

  /** Where a property is, and what the two encodings hold for it. */
  lemma Lookup(fs: seq<(Units, Value)>, k: Units) returns (i: nat)
    requires UniqueKeys(fs) && forall f | f in fs :: Encodable(f.1)
    requires k in ToMap(FieldNodes(fs))
    ensures i < |fs| && Encodable(fs[i].1)
    ensures ToMap(FieldNodes(fs))[k] == Node(fs[i].1)
    ensures k in ToMap(FieldMeanings(fs)) && ToMap(FieldMeanings(fs))[k] == Meaning(fs[i].1)
  {
    hide Node, Meaning, ToMap, FieldNodes, FieldMeanings, Encodable;
    ToMapKeys(FieldNodes(fs));
    ToMapKeys(FieldMeanings(fs));
    i :| 0 <= i < |fs| && FieldNodes(fs)[i].0 == k;
    assert fs[i] in fs;
    FieldNodeAt(fs, i);
  }

  lemma KeysAlike(fs: seq<(Units, Value)>, ps: seq<(Units, Json)>, qs: seq<(Units, Tree)>, k: Units)
    requires |ps| == |qs| == |fs|
    requires forall i | 0 <= i < |fs| :: ps[i].0 == fs[i].0 == qs[i].0
    ensures k in ToMap(ps) <==> k in ToMap(qs)
  {
    ToMapKeys(ps);
    ToMapKeys(qs);
  }

  /** The canonical text decides equality of values: it is injective, and free of the order of properties. */
  lemma CanonicalTextDecides(v: Value, w: Value)
    requires WellFormed(v) && WellFormed(w)
    requires CanonicalText(v).Ok? && CanonicalText(w).Ok?
    ensures CanonicalText(v) == CanonicalText(w) <==> Meaning(v) == Meaning(w)
  {
    NodeInjective(v, w);
    if CanonicalText(v) == CanonicalText(w) {
      assert Print(Node(v)) + [] == Print(Node(w)) + [];
      PrintInjective(Node(v), Node(w), [], []);
    }
  }

  /** The names of the three parts the execution binding covers. */
  function PartName(i: nat): (k: Units)
    requires i < 3
    ensures |k| == [8, 18, 13][i]
  {
    if i == 0 then Ascii("decision") else if i == 1 then Ascii("evaluatorAuthority") else Ascii("turnAuthority")
  }

  /** What the execution binding covers: the decision and the two authorities. */
  function ExecutionValue(decision: Value, evaluator: Value, turn: Value): Value {
    Object([(PartName(0), decision), (PartName(1), evaluator), (PartName(2), turn)])
  }

  predicate SameMeaning(v: Value, w: Value)
    requires Encodable(v) && Encodable(w)
  {
    Meaning(v) == Meaning(w)
  }

  /** One text is bound to one decision under one pair of authorities. */
  lemma ExecutionTextDecides(d: Value, e: Value, t: Value, d': Value, e': Value, t': Value)
    requires WellFormed(d) && WellFormed(e) && WellFormed(t) && WellFormed(d') && WellFormed(e') && WellFormed(t')
    requires Encodable(d) && Encodable(e) && Encodable(t) && Encodable(d') && Encodable(e') && Encodable(t')
    ensures CanonicalText(ExecutionValue(d, e, t)).Ok?
    ensures CanonicalText(ExecutionValue(d, e, t)) == CanonicalText(ExecutionValue(d', e', t'))
      <==> SameMeaning(d, d') && SameMeaning(e, e') && SameMeaning(t, t')
  {
    hide *;
    ExecutionMeaning(d, e, t);
    ExecutionMeaning(d', e', t');
    var v, w := ExecutionValue(d, e, t), ExecutionValue(d', e', t');
    assert CanonicalText(v) == CanonicalText(w) <==> SameMeaning(v, w) by { CanonicalTextIff(v, w); }
    if SameMeaning(v, w) { PartsSame(v, w, d, d', e, e', t, t'); }
    if SameMeaning(d, d') && SameMeaning(e, e') && SameMeaning(t, t') { WholeSame(v, w, d, d', e, e', t, t'); }
  }

  lemma CanonicalTextIff(v: Value, w: Value)
    requires WellFormed(v) && WellFormed(w) && Encodable(v) && Encodable(w)
    ensures CanonicalText(v) == CanonicalText(w) <==> SameMeaning(v, w)
  {
    hide WellFormed, Encodable, Meaning, Node, Print;
    CanonicalTextDecides(v, w);
  }

  predicate HasThree<T(==)>(m: map<Units, T>, x: T, y: T, z: T) {
    && m.Keys == {PartName(0), PartName(1), PartName(2)}
    && m[PartName(0)] == x && m[PartName(1)] == y && m[PartName(2)] == z
  }

  predicate IsExecution(m: Tree, d: Value, e: Value, t: Value)
    requires Encodable(d) && Encodable(e) && Encodable(t)
  {
    m.TObject? && HasThree(m.fields, Meaning(d), Meaning(e), Meaning(t))
  }

  lemma ToMapOfThree<T>(ps: seq<(Units, T)>, x: T, y: T, z: T)
    requires ps == [(PartName(0), x), (PartName(1), y), (PartName(2), z)]
    ensures HasThree(ToMap(ps), x, y, z)
  {
    hide PartName;
    ToMapKeys(ps);
    forall k ensures k in ToMap(ps) <==> k in {PartName(0), PartName(1), PartName(2)} {
      if k in ToMap(ps) {
        var i :| 0 <= i < |ps| && ps[i].0 == k;
      }
      assert ps[0].0 == PartName(0) && ps[1].0 == PartName(1) && ps[2].0 == PartName(2);
    }
  }

  lemma ExecutionMeaning(d: Value, e: Value, t: Value)
    requires WellFormed(d) && WellFormed(e) && WellFormed(t) && Encodable(d) && Encodable(e) && Encodable(t)
    ensures WellFormed(ExecutionValue(d, e, t)) && CanonicalText(ExecutionValue(d, e, t)).Ok?
    ensures Encodable(ExecutionValue(d, e, t))
    ensures IsExecution(Meaning(ExecutionValue(d, e, t)), d, e, t)
  {
    var v := ExecutionValue(d, e, t);
    assert v.fields[0] in v.fields && v.fields[1] in v.fields && v.fields[2] in v.fields;
    assert WellFormed(v) && Encodable(v);
    FieldNodeAt(v.fields, 0);
    FieldNodeAt(v.fields, 1);
    FieldNodeAt(v.fields, 2);
    hide PartName, HasThree, FieldMeanings, ToMap;
    ToMapOfThree(FieldMeanings(v.fields), Meaning(d), Meaning(e), Meaning(t));
  }

  lemma ThreeDecide<T>(m: map<Units, T>, n: map<Units, T>, x: T, x': T, y: T, y': T, z: T, z': T)
    requires HasThree(m, x, y, z) && HasThree(n, x', y', z')
    ensures m == n <==> x == x' && y == y' && z == z'
  {
  }

  lemma WholeSame(v: Value, w: Value, d: Value, d': Value, e: Value, e': Value, t: Value, t': Value)
    requires Encodable(d) && Encodable(e) && Encodable(t) && Encodable(d') && Encodable(e') && Encodable(t')
    requires Encodable(v) && IsExecution(Meaning(v), d, e, t)
    requires Encodable(w) && IsExecution(Meaning(w), d', e', t')
    requires SameMeaning(d, d') && SameMeaning(e, e') && SameMeaning(t, t')
    ensures SameMeaning(v, w)
  {
    hide Meaning, Encodable, HasThree;
    ThreeDecide(Meaning(v).fields, Meaning(w).fields,
      Meaning(d), Meaning(d'), Meaning(e), Meaning(e'), Meaning(t), Meaning(t'));
  }

  lemma PartsSame(v: Value, w: Value, d: Value, d': Value, e: Value, e': Value, t: Value, t': Value)
    requires Encodable(d) && Encodable(e) && Encodable(t) && Encodable(d') && Encodable(e') && Encodable(t')
    requires Encodable(v) && IsExecution(Meaning(v), d, e, t)
    requires Encodable(w) && IsExecution(Meaning(w), d', e', t')
    requires SameMeaning(v, w)
    ensures SameMeaning(d, d') && SameMeaning(e, e') && SameMeaning(t, t')
  {
    hide Meaning, Encodable, HasThree;
    ThreeDecide(Meaning(v).fields, Meaning(w).fields,
      Meaning(d), Meaning(d'), Meaning(e), Meaning(e'), Meaning(t), Meaning(t'));
  }
}
