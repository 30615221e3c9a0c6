// Searching and sorting of sequences.
module Sequences {
  import opened Text

  /** The position of the first `x`, or the length. */
  function IndexOf<T(==)>(s: seq<T>, x: T): (n: nat)
    ensures n <= |s|
    ensures x !in s[..n]
    ensures n < |s| <==> x in s
    ensures n < |s| ==> s[n] == x
  {
    if s == [] || s[0] == x then 0 else 1 + IndexOf(s[1..], x)
  }

  lemma {:induction false} IndexOfIs<T>(s: seq<T>, x: T, n: nat)
    requires n <= |s| && x !in s[..n] && (n < |s| ==> s[n] == x)
    ensures IndexOf(s, x) == n
  {
    if n > 0 {
      assert s[..n][0] == s[0];
      assert s[1..][..n - 1] == s[..n][1..];
      IndexOfIs(s[1..], x, n - 1);
    }
  }

  /** `findIndex`. */
  function Find<T>(s: seq<T>, p: T -> bool): (r: Option<nat>)
    ensures r.Some? ==> r.value < |s| && p(s[r.value])
    ensures forall i | 0 <= i < |s| && p(s[i]) :: r.Some? && r.value <= i
  {
    if s == [] then None
    else if p(s[0]) then Some(0)
    else
      match Find(s[1..], p)
      case None => None
      case Some(i) => Some(i + 1)
  }

  /** Searches that agree on every element find the same place. */
  lemma SameFind<T, U>(s: seq<T>, p: T -> bool, t: seq<U>, q: U -> bool)
    requires |s| == |t| && forall i | 0 <= i < |s| :: p(s[i]) == q(t[i])
    ensures Find(s, p) == Find(t, q)
  {
  }

  /** The distinct elements in order of first appearance. */
  function Distinct<T(==)>(s: seq<T>): (d: seq<T>)
    ensures (forall x | x in d :: x in s) && (forall x | x in s :: x in d)
    ensures forall i, j | 0 <= i < j < |d| :: d[i] != d[j]
  {
    if s == [] then []
    else
      var init, last := s[..|s| - 1], s[|s| - 1];
      var d := Distinct(init);
      assert s == init + [last];
      if last in d then d else d + [last]
  }

  // ---------------------------------------------------------------- counting and filtering

  function CountOf<T(==)>(s: seq<T>, x: T): nat {
    multiset(s)[x]
  }

  lemma CountAppend<T>(s: seq<T>, y: T, x: T)
    ensures CountOf(s + [y], x) == CountOf(s, x) + if x == y then 1 else 0
  {
  }

  lemma CountConcat<T>(s: seq<T>, t: seq<T>, x: T)
    ensures CountOf(s + t, x) == CountOf(s, x) + CountOf(t, x)
  {
  }

  lemma InPrefix<T>(a: seq<T>, b: seq<T>, x: T)
    requires a <= b && x in a
    ensures x in b
  {
    assert forall i | 0 <= i < |a| :: a[i] == b[i];
  }

  function Filter<T>(s: seq<T>, p: T -> bool): seq<T> {
    if s == [] then [] else (if p(s[0]) then [s[0]] else []) + Filter(s[1..], p)
  }

  lemma FilterStep<T>(s: seq<T>, t: seq<T>, p: T -> bool)
    requires s != []
    ensures Filter(s + t, p) == (if p(s[0]) then [s[0]] else []) + Filter(s[1..] + t, p)
  {
    assert (s + t)[0] == s[0] && (s + t)[1..] == s[1..] + t;
  }

  lemma {:induction false} FilterAppend<T>(s: seq<T>, t: seq<T>, p: T -> bool)
    ensures Filter(s + t, p) == Filter(s, p) + Filter(t, p)
  {
    if s == [] {
      assert s + t == t;
    } else {
      FilterAppend(s[1..], t, p);
      FilterStep(s, t, p);
    }
  }

  /** The positions of the elements that pass. */
  function Positions<T>(s: seq<T>, p: T -> bool): set<int> {
    set i | 0 <= i < |s| && p(s[i])
  }

  lemma {:induction false} FilterSize<T>(s: seq<T>, p: T -> bool)
    ensures |Filter(s, p)| == |Positions(s, p)|
  {
    if s == [] {
      assert Positions(s, p) == {};
    } else {
      var n := |s| - 1;
      FilterSize(s[..n], p);
      FilterAppend(s[..n], [s[n]], p);
      assert s[..n] + [s[n]] == s && [s[n]][1..] == [];
      assert Positions(s, p) == Positions(s[..n], p) + if p(s[n]) then {n} else {};
    }
  }

  lemma {:induction false} FilterCounts<T>(s: seq<T>, p: T -> bool, x: T)
    ensures multiset(Filter(s, p))[x] == if p(x) then multiset(s)[x] else 0
  {
    if s != [] {
      FilterCounts(s[1..], p, x);
      assert s == [s[0]] + s[1..];
    }
  }

  lemma {:induction false} FilterElements<T>(s: seq<T>, p: T -> bool, x: T)
    ensures x in Filter(s, p) <==> x in s && p(x)
  {
    FilterCounts(s, p, x);
    assert x in multiset(Filter(s, p)) <==> x in Filter(s, p);
  }

  lemma {:induction false} FilterDeterministic<T(!new)>(s: seq<T>, t: seq<T>, p: T -> bool)
    requires multiset(s) == multiset(t)
    ensures multiset(Filter(s, p)) == multiset(Filter(t, p))
  {
    forall x: T ensures multiset(Filter(s, p))[x] == multiset(Filter(t, p))[x] {
      FilterCounts(s, p, x);
      FilterCounts(t, p, x);
    }
  }

  lemma {:induction false} FilterAll<T>(s: seq<T>, p: T -> bool)
    requires forall x | x in s :: p(x)
    ensures Filter(s, p) == s
  {
    if s != [] { FilterAll(s[1..], p); }
  }

  lemma {:induction false} FilterNone<T>(s: seq<T>, p: T -> bool)
    requires forall x | x in s :: !p(x)
    ensures Filter(s, p) == []
  {
    if s != [] { FilterNone(s[1..], p); }
  }

  lemma FilterTail<T>(x: T, s: seq<T>, p: T -> bool)
    requires !p(x) && forall y | y in s :: p(y)
    ensures Filter([x] + s, p) == s
  {
    assert ([x] + s)[1..] == s;
    FilterAll(s, p);
  }

  lemma SubsetSize<T>(a: set<T>, b: set<T>)
    requires a <= b
    ensures |a| <= |b|
  {
    if a != {} {
      var x :| x in a;
      SubsetSize(a - {x}, b - {x});
    }
  }

  function Sum<T>(s: seq<T>, f: T -> nat): nat {
    if s == [] then 0 else f(s[0]) + Sum(s[1..], f)
  }

  lemma {:induction false} SumAppend<T>(s: seq<T>, t: seq<T>, f: T -> nat)
    ensures Sum(s + t, f) == Sum(s, f) + Sum(t, f)
  {
    if s == [] {
      assert s + t == t;
    } else {
      assert (s + t)[1..] == s[1..] + t;
      SumAppend(s[1..], t, f);
    }
  }

  lemma {:induction false} SumLeq<T>(s: seq<T>, f: T -> nat, g: T -> nat)
    requires forall x | x in s :: f(x) <= g(x)
    ensures Sum(s, f) <= Sum(s, g)
  {
    if s != [] { SumLeq(s[1..], f, g); }
  }

  // ---------------------------------------------------------------- stable sorting

  /** `leq(a, b)`: the comparator does not put `b` strictly before `a`. */
  function Insert<T>(x: T, s: seq<T>, leq: (T, T) -> bool): seq<T> {
    if s == [] || leq(x, s[0]) then [x] + s else [s[0]] + Insert(x, s[1..], leq)
  }

  function Sort<T>(s: seq<T>, leq: (T, T) -> bool): seq<T> {
    if s == [] then [] else Insert(s[0], Sort(s[1..], leq), leq)
  }

  ghost predicate Preorder<T(!new)>(leq: (T, T) -> bool) {
    && (forall a, b :: leq(a, b) || leq(b, a))
    && (forall a, b, c :: leq(a, b) && leq(b, c) ==> leq(a, c))
  }

  predicate Sorted<T>(s: seq<T>, leq: (T, T) -> bool) {
    forall i, j | 0 <= i < j < |s| :: leq(s[i], s[j])
  }

  lemma {:induction false} InsertKeeps<T>(x: T, s: seq<T>, leq: (T, T) -> bool)
    ensures multiset(Insert(x, s, leq)) == multiset{x} + multiset(s)
  {
    if s == [] {
    } else if leq(x, s[0]) {
    } else {
      InsertKeeps(x, s[1..], leq);
      assert s == [s[0]] + s[1..];
    }
  }

  lemma {:induction false} SortKeeps<T>(s: seq<T>, leq: (T, T) -> bool)
    ensures multiset(Sort(s, leq)) == multiset(s)
    ensures |Sort(s, leq)| == |s|
  {
    if s != [] {
      SortKeeps(s[1..], leq);
      InsertKeeps(s[0], Sort(s[1..], leq), leq);
      assert s == [s[0]] + s[1..];
    }
    assert |multiset(Sort(s, leq))| == |multiset(s)|;
  }

  lemma {:induction false} InsertSorted<T(!new)>(x: T, s: seq<T>, leq: (T, T) -> bool)
    requires Preorder(leq) && Sorted(s, leq)
    ensures Sorted(Insert(x, s, leq), leq)
  {
    if s != [] && !leq(x, s[0]) {
      InsertSorted(x, s[1..], leq);
      InsertKeeps(x, s[1..], leq);
      var t := Insert(x, s[1..], leq);
      forall k | 0 <= k < |t| ensures leq(s[0], t[k]) {
        assert t[k] in multiset(t);
      }
    }
  }

  lemma {:induction false} SortSorted<T(!new)>(s: seq<T>, leq: (T, T) -> bool)
    requires Preorder(leq)
    ensures Sorted(Sort(s, leq), leq)
  {
    if s != [] {
      SortSorted(s[1..], leq);
      InsertSorted(s[0], Sort(s[1..], leq), leq);
    }
  }

  lemma {:induction false} SameFirst<T(!new)>(s: seq<T>, t: seq<T>, leq: (T, T) -> bool)
    requires s != [] && t != [] && s[0] in t && t[0] in s
    requires Preorder(leq) && Sorted(s, leq) && Sorted(t, leq)
    ensures leq(s[0], t[0]) && leq(t[0], s[0])
  {
    assert leq(s[0], s[0]) && leq(t[0], t[0]);
  }

  lemma {:induction false} TailMultiset<T>(s: seq<T>)
    requires s != []
    ensures s[0] in multiset(s) && multiset(s[1..]) == multiset(s) - multiset{s[0]}
  {
    assert s == [s[0]] + s[1..];
  }

  /** No two different elements are equal in the order. */
  predicate TieFree<T(==)>(s: seq<T>, leq: (T, T) -> bool) {
    forall a, b | a in s && b in s && leq(a, b) && leq(b, a) :: a == b
  }

  lemma TieFreeTail<T>(s: seq<T>, leq: (T, T) -> bool)
    requires s != [] && TieFree(s, leq)
    ensures TieFree(s[1..], leq)
  {
    assert forall a | a in s[1..] :: a in s;
  }

  lemma TieFreeSame<T>(s: seq<T>, leq: (T, T) -> bool, a: T, b: T)
    requires TieFree(s, leq) && a in s && b in s && leq(a, b) && leq(b, a)
    ensures a == b
  {
  }

  lemma ConsEqual<T>(s: seq<T>, t: seq<T>)
    requires s != [] && t != [] && s[0] == t[0] && s[1..] == t[1..]
    ensures s == t
  {
    assert s == [s[0]] + s[1..] && t == [t[0]] + t[1..];
  }

  /** Without ties there is one sorted arrangement. */
  lemma {:induction false} SortedUnique<T(!new)>(s: seq<T>, t: seq<T>, leq: (T, T) -> bool)
    requires Preorder(leq) && Sorted(s, leq) && Sorted(t, leq) && multiset(s) == multiset(t) && TieFree(s, leq)
    ensures s == t
  {
    hide *;
    SameLength(s, t);
    if s != [] {
      TailMultiset(s);
      TailMultiset(t);
      assert s[0] in t && t[0] in s;
      SameFirst(s, t, leq);
      TieFreeSame(s, leq, s[0], t[0]);
      SortedTail(s, leq);
      SortedTail(t, leq);
      TieFreeTail(s, leq);
      SortedUnique(s[1..], t[1..], leq);
      ConsEqual(s, t);
    }
  }

  lemma SameLength<T>(s: seq<T>, t: seq<T>)
    requires multiset(s) == multiset(t)
    ensures |s| == |t|
  {
    assert |multiset(s)| == |s| && |multiset(t)| == |t|;
  }

  lemma SortedTail<T>(s: seq<T>, leq: (T, T) -> bool)
    requires s != [] && Sorted(s, leq)
    ensures Sorted(s[1..], leq)
  {
  }

  /** The order of the input does not matter when no two elements tie. */
  lemma SortDeterministic<T(!new)>(s: seq<T>, t: seq<T>, leq: (T, T) -> bool)
    requires Preorder(leq) && multiset(s) == multiset(t) && TieFree(s, leq)
    ensures Sort(s, leq) == Sort(t, leq)
  {
    SortKeeps(s, leq);
    SortKeeps(t, leq);
    SortSorted(s, leq);
    SortSorted(t, leq);
    forall a | a in Sort(s, leq) ensures a in s { assert a in multiset(s); }
    SortedUnique(Sort(s, leq), Sort(t, leq), leq);
  }

  lemma SortTwo<T>(a: T, b: T, leq: (T, T) -> bool)
    requires leq(a, b)
    ensures Sort([a, b], leq) == [a, b]
  {
    assert [a, b][1..] == [b] && [b][1..] == [];
    assert Sort([b], leq) == Insert(b, [], leq) == [b];
  }

  lemma SortThree<T>(a: T, b: T, c: T, leq: (T, T) -> bool)
    requires leq(a, b) && leq(b, c)
    ensures Sort([a, b, c], leq) == [a, b, c]
  {
    assert [a, b, c][1..] == [b, c];
    SortTwo(b, c, leq);
  }
}
