// The order in which memories are offered to the budget: priority profiles first, then the ranking.
module MemoryRanking {
  import opened Text
  import opened Sequences
  import opened PromptCost

  datatype QuerySource = CurrentMessage | QuotedMessage | RecentThread

  datatype Affinity = ExactConversation | ExactGroup | SameUser | AffinityGlobal

  datatype Ranking = Ranking(
    querySources: set<QuerySource>,
    viaFts: bool,
    scopeAffinity: Affinity,
    ftsOrdinal: Option<int>,
    semanticScore: Option<real>)

  type Rankings = map<string, Ranking>

  /** `String.prototype.localeCompare`. */
  type Locale = (string, string) -> int

  const MAX_SAFE_INTEGER := 9007199254740991

  function QueryPriority(r: Option<Ranking>): int {
    if r.None? then 0
    else if CurrentMessage in r.value.querySources then 3
    else if QuotedMessage in r.value.querySources then 2
    else if RecentThread in r.value.querySources then 1
    else 0
  }

  function AffinityPriority(r: Option<Ranking>): int {
    match r
    case None => 0
    case Some(x) =>
      match x.scopeAffinity
      case ExactConversation => 4
      case ExactGroup => 3
      case SameUser => 2
      case AffinityGlobal => 1
  }

  function RankingOf(id: string, rankings: Rankings): Option<Ranking> {
    if id in rankings then Some(rankings[id]) else None
  }

  function Flag(b: bool): real {
    if b then 1.0 else 0.0
  }

  /** The criteria of the ranking, most important first; larger comes first. */
  function RankKey(m: MemoryRecord, rankings: Rankings): (key: seq<real>)
    ensures |key| == 9
  {
    var r := RankingOf(m.id, rankings);
    [QueryPriority(r) as real,
     Flag(r.Some? && r.value.viaFts),
     AffinityPriority(r) as real,
     -(if r.Some? && r.value.ftsOrdinal.Some? then r.value.ftsOrdinal.value else MAX_SAFE_INTEGER) as real,
     if r.Some? && r.value.semanticScore.Some? then r.value.semanticScore.value else -1.0,
     -Flag(m.scope == GlobalScope),
     m.importance,
     m.createdAt as real,
     m.confidence]
  }

  function ProfileKey(m: MemoryRecord): (key: seq<real>)
    ensures |key| == 3
  {
    [m.confidence, m.importance, m.updatedAt as real]
  }

  /** The first non-zero difference, or the tie-break. */
  function CompareKeys(a: seq<real>, b: seq<real>, tie: int): real
    requires |a| == |b|
  {
    if a == [] then tie as real
    else if b[0] - a[0] != 0.0 then b[0] - a[0]
    else CompareKeys(a[1..], b[1..], tie)
  }

  function CompareRankings(a: MemoryRecord, b: MemoryRecord, rankings: Rankings, locale: Locale): real {
    CompareKeys(RankKey(a, rankings), RankKey(b, rankings), locale(a.id, b.id))
  }

  function CompareProfiles(a: MemoryRecord, b: MemoryRecord, locale: Locale): real {
    CompareKeys(ProfileKey(a), ProfileKey(b), locale(a.id, b.id))
  }

  function ByRanking(rankings: Rankings, locale: Locale): (MemoryRecord, MemoryRecord) -> bool {
    (a, b) => CompareRankings(a, b, rankings, locale) <= 0.0
  }

  function ByProfile(locale: Locale): (MemoryRecord, MemoryRecord) -> bool {
    (a, b) => CompareProfiles(a, b, locale) <= 0.0
  }

  /** `selectHighestConfidenceProfile`. */
  function SelectProfile(memories: seq<MemoryRecord>, scope: Scope, locale: Locale): seq<MemoryRecord> {
    var ordered := Sort(Filter(memories, m => IsProfile(m, scope)), ByProfile(locale));
    if ordered == [] then [] else [ordered[0]]
  }

  function PriorityProfiles(memories: seq<MemoryRecord>, locale: Locale): seq<MemoryRecord> {
    SelectProfile(memories, UserScope, locale) + SelectProfile(memories, GroupScope, locale)
  }

  function Ids(memories: seq<MemoryRecord>): set<string> {
    set m | m in memories :: m.id
  }

  function OtherThan(ids: set<string>): MemoryRecord -> bool {
    (m: MemoryRecord) => m.id !in ids
  }

  function Without(memories: seq<MemoryRecord>, ids: set<string>): seq<MemoryRecord> {
    Filter(memories, OtherThan(ids))
  }

  function OrderMemories(memories: seq<MemoryRecord>, rankings: Rankings, locale: Locale): seq<MemoryRecord> {
    var profiles := PriorityProfiles(memories, locale);
    profiles + Sort(Without(memories, Ids(profiles)), ByRanking(rankings, locale))
  }

  // ---------------------------------------------------------------- the orders are consistent

  /** `locale` is a consistent comparison of all strings; it may tie strings that are not equal. */
  ghost predicate ConsistentLocale(locale: Locale) {
    && (forall x, y :: locale(x, y) <= 0 || locale(y, x) <= 0)
    && (forall x, y, z :: locale(x, y) <= 0 && locale(y, z) <= 0 ==> locale(x, z) <= 0)
  }

  predicate Tied(locale: Locale, x: string, y: string) {
    locale(x, y) <= 0 && locale(y, x) <= 0
  }

  /** No two different ids among the memories tie. */
  predicate TieFreeIds(locale: Locale, memories: seq<MemoryRecord>) {
    forall a, b | a in memories && b in memories && Tied(locale, a.id, b.id) :: a.id == b.id
  }

  lemma {:induction false} KeysTotal(a: seq<real>, b: seq<real>, t: int, u: int)
    requires |a| == |b| && (t <= 0 || u <= 0)
    ensures CompareKeys(a, b, t) <= 0.0 || CompareKeys(b, a, u) <= 0.0
    ensures CompareKeys(a, b, t) <= 0.0 && CompareKeys(b, a, u) <= 0.0 ==> t <= 0 && u <= 0
  {
    if a != [] { KeysTotal(a[1..], b[1..], t, u); }
  }

  lemma {:induction false} KeysTransitive(a: seq<real>, b: seq<real>, c: seq<real>, t: int, u: int, v: int)
    requires |a| == |b| == |c| && (t <= 0 && u <= 0 ==> v <= 0)
    requires CompareKeys(a, b, t) <= 0.0 && CompareKeys(b, c, u) <= 0.0
    ensures CompareKeys(a, c, v) <= 0.0
  {
    if a != [] && a[0] == b[0] == c[0] { KeysTransitive(a[1..], b[1..], c[1..], t, u, v); }
  }

  /** Both comparators are consistent orders, and records tie only when their ids do. */
  lemma ComparatorsConsistent(rankings: Rankings, locale: Locale)
    requires ConsistentLocale(locale)
    ensures Preorder(ByRanking(rankings, locale)) && Preorder(ByProfile(locale))
    ensures forall a, b ::
      ByRanking(rankings, locale)(a, b) && ByRanking(rankings, locale)(b, a) ==> Tied(locale, a.id, b.id)
    ensures forall a, b :: ByProfile(locale)(a, b) && ByProfile(locale)(b, a) ==> Tied(locale, a.id, b.id)
  {
    hide RankKey, ProfileKey, CompareKeys;
    var r, p := ByRanking(rankings, locale), ByProfile(locale);
    forall a, b
      ensures r(a, b) || r(b, a)
      ensures p(a, b) || p(b, a)
      ensures r(a, b) && r(b, a) ==> Tied(locale, a.id, b.id)
      ensures p(a, b) && p(b, a) ==> Tied(locale, a.id, b.id)
    {
      KeysTotal(RankKey(a, rankings), RankKey(b, rankings), locale(a.id, b.id), locale(b.id, a.id));
      KeysTotal(ProfileKey(a), ProfileKey(b), locale(a.id, b.id), locale(b.id, a.id));
    }
    forall a, b, c
      ensures r(a, b) && r(b, c) ==> r(a, c)
      ensures p(a, b) && p(b, c) ==> p(a, c)
    {
      if r(a, b) && r(b, c) {
        KeysTransitive(RankKey(a, rankings), RankKey(b, rankings), RankKey(c, rankings),
          locale(a.id, b.id), locale(b.id, c.id), locale(a.id, c.id));
      }
      if p(a, b) && p(b, c) {
        KeysTransitive(ProfileKey(a), ProfileKey(b), ProfileKey(c),
          locale(a.id, b.id), locale(b.id, c.id), locale(a.id, c.id));
      }
    }
  }

  // ---------------------------------------------------------------- what the order is

  predicate DistinctIds(memories: seq<MemoryRecord>) {
    forall i, j | 0 <= i < j < |memories| :: memories[i].id != memories[j].id
  }

  /** The first criterion on which the two differ is larger in the first, or there is none and the ids decide. */
  predicate NotAfter(a: seq<real>, b: seq<real>, tie: int)
    requires |a| == |b|
  {
    (exists k: nat | k < |a| :: DiffersAt(a, b, k)) || (a == b && tie <= 0)
  }

  /** The first `k` criteria agree and the next is larger in the first. */
  predicate DiffersAt(a: seq<real>, b: seq<real>, k: nat)
    requires |a| == |b|
  {
    k < |a| && a[k] > b[k] && a[..k] == b[..k]
  }

  lemma DiffersLater(a: seq<real>, b: seq<real>, k: nat)
    requires |a| == |b| && a != [] && a[0] == b[0]
    ensures DiffersAt(a[1..], b[1..], k) <==> DiffersAt(a, b, k + 1)
  {
    if k < |a| - 1 {
      assert a[..k + 1] == [a[0]] + a[1..][..k] && b[..k + 1] == [b[0]] + b[1..][..k];
      assert a[..k + 1][1..] == a[1..][..k] && b[..k + 1][1..] == b[1..][..k];
    }
  }

  lemma NotAfterTail(a: seq<real>, b: seq<real>, tie: int)
    requires |a| == |b| && a != [] && a[0] == b[0]
    ensures NotAfter(a, b, tie) <==> NotAfter(a[1..], b[1..], tie)
  {
    assert a == b <==> a[1..] == b[1..] by { assert a == [a[0]] + a[1..] && b == [b[0]] + b[1..]; }
    if k: nat :| DiffersAt(a[1..], b[1..], k) { DiffersLater(a, b, k); }
    if k: nat :| DiffersAt(a, b, k) {
      assert k > 0;
      DiffersLater(a, b, k - 1);
    }
  }

  lemma {:induction false} ComparedByFirstDifference(a: seq<real>, b: seq<real>, tie: int)
    requires |a| == |b|
    ensures CompareKeys(a, b, tie) <= 0.0 <==> NotAfter(a, b, tie)
  {
    if a == [] {
      assert b == [];
    } else if a[0] == b[0] {
      NotAfterTail(a, b, tie);
      hide NotAfter;
      ComparedByFirstDifference(a[1..], b[1..], tie);
    } else if a[0] > b[0] {
      assert DiffersAt(a, b, 0);
    } else {
      forall k: nat ensures !DiffersAt(a, b, k) { assert k > 0 && k <= |a| ==> a[..k][0] == a[0] && b[..k][0] == b[0]; }
    }
  }

  /** A profile's priority: the chosen one is a profile of its scope, and among those the most confident, then the
      most important, then the latest, then the first by id. */
  lemma {:induction false} ProfileIsBest(memories: seq<MemoryRecord>, scope: Scope, locale: Locale, m: MemoryRecord)
    requires ConsistentLocale(locale) && m in memories && m.scope == scope && m.kind == Summary
    ensures var best := SelectProfile(memories, scope, locale);
      && |best| == 1 && best[0] in memories && best[0].scope == scope && best[0].kind == Summary
      && var x := best[0];
      NotAfter([x.confidence, x.importance, x.updatedAt as real], [m.confidence, m.importance, m.updatedAt as real],
        locale(x.id, m.id))
  {
    var p := (x: MemoryRecord) => IsProfile(x, scope);
    var f, leq := Filter(memories, p), ByProfile(locale);
    ComparatorsConsistent(map[], locale);
    hide CompareKeys, NotAfter;
    FilterElements(memories, p, m);
    SortKeeps(f, leq);
    SortSorted(f, leq);
    var s := Sort(f, leq);
    assert m in multiset(s);
    var i :| 0 <= i < |s| && s[i] == m;
    assert leq(s[0], m) by { assert leq(m, m); }
    assert s[0] in multiset(f);
    FilterElements(memories, p, s[0]);
    ComparedByFirstDifference(ProfileKey(s[0]), ProfileKey(m), locale(s[0].id, m.id));
  }

  /** Where no ids tie, the order offered to the budget depends on the set of memories only, not on how the
      store lists them. */
  lemma {:induction false} OrderDeterministic(
    s: seq<MemoryRecord>, t: seq<MemoryRecord>, rankings: Rankings, locale: Locale)
    requires ConsistentLocale(locale) && TieFreeIds(locale, s) && DistinctIds(s) && multiset(s) == multiset(t)
    ensures OrderMemories(s, rankings, locale) == OrderMemories(t, rankings, locale)
  {
    ComparatorsConsistent(rankings, locale);
    hide CompareKeys, ProfileKey, RankKey, ConsistentLocale, Tied;
    NoTies(s, t);
    SelectDeterministic(s, t, UserScope, locale);
    SelectDeterministic(s, t, GroupScope, locale);
    var ids := Ids(PriorityProfiles(s, locale));
    FilterDeterministic(s, t, OtherThan(ids));
    forall a, b | a in Without(s, ids) && b in Without(s, ids) && Tied(locale, a.id, b.id) ensures a == b {
      FilterElements(s, OtherThan(ids), a);
      FilterElements(s, OtherThan(ids), b);
    }
    SortDeterministic(Without(s, ids), Without(t, ids), ByRanking(rankings, locale));
  }

  /** The criteria of the ranking in the order in which they decide: asked for by the current message, a quoted one
      or a recent thread; found by full text; closeness of the scope; place in the full-text result, first ones
      first; semantic score; not global; importance; creation; confidence. */
  function Criteria(m: MemoryRecord, rankings: Rankings): (c: seq<real>)
    ensures |c| == 9
  {
    var own := [if m.scope == GlobalScope then -1.0 else 0.0, m.importance, m.createdAt as real, m.confidence];
    if m.id !in rankings then [0.0, 0.0, 0.0, -9007199254740991.0, -1.0] + own
    else
      var r := rankings[m.id];
      var asked := if CurrentMessage in r.querySources then 3.0 else if QuotedMessage in r.querySources then 2.0
        else if RecentThread in r.querySources then 1.0 else 0.0;
      var closeness := if r.scopeAffinity == ExactConversation then 4.0 else if r.scopeAffinity == ExactGroup then 3.0
        else if r.scopeAffinity == SameUser then 2.0 else 1.0;
      [asked, if r.viaFts then 1.0 else 0.0, closeness,
       if r.ftsOrdinal.Some? then -(r.ftsOrdinal.value as real) else -9007199254740991.0,
       if r.semanticScore.Some? then r.semanticScore.value else -1.0] + own
  }

  lemma KeyIsCriteria(m: MemoryRecord, rankings: Rankings)
    ensures RankKey(m, rankings) == Criteria(m, rankings)
  {
  }

  /** After the profiles memories are offered by these criteria, ties by id: what the current message asked for
      comes before what a quoted one did, then recent threads, then the rest, and so on. */
  lemma OrderedByCriteria(memories: seq<MemoryRecord>, rankings: Rankings, locale: Locale, i: nat, j: nat)
    requires ConsistentLocale(locale)
    requires |PriorityProfiles(memories, locale)| <= i < j < |OrderMemories(memories, rankings, locale)|
    ensures var order := OrderMemories(memories, rankings, locale);
      NotAfter(Criteria(order[i], rankings), Criteria(order[j], rankings), locale(order[i].id, order[j].id))
  {
    hide PriorityProfiles, Without, Ids, Sort, RankKey, CompareKeys, Criteria, NotAfter;
    ComparatorsConsistent(rankings, locale);
    var profiles := PriorityProfiles(memories, locale);
    var rest := Without(memories, Ids(profiles));
    var leq := ByRanking(rankings, locale);
    hide Preorder, ConsistentLocale;
    SortSorted(rest, leq);
    var tail, n := Sort(rest, leq), |profiles|;
    assert leq(tail[i - n], tail[j - n]);
    hide Sorted;
    var a, b := tail[i - n], tail[j - n];
    KeyIsCriteria(a, rankings);
    KeyIsCriteria(b, rankings);
    ComparedByFirstDifference(RankKey(a, rankings), RankKey(b, rankings), locale(a.id, b.id));
  }

  lemma NoTies(s: seq<MemoryRecord>, t: seq<MemoryRecord>)
    requires DistinctIds(s)
    ensures forall a, b | a in s && b in s && a.id == b.id :: a == b
  {
  }

  lemma SelectDeterministic(s: seq<MemoryRecord>, t: seq<MemoryRecord>, scope: Scope, locale: Locale)
    requires ConsistentLocale(locale) && TieFreeIds(locale, s) && multiset(s) == multiset(t)
    requires forall a, b | a in s && b in s && a.id == b.id :: a == b
    ensures SelectProfile(s, scope, locale) == SelectProfile(t, scope, locale)
  {
    ComparatorsConsistent(map[], locale);
    hide CompareKeys, ProfileKey, ConsistentLocale, Tied;
    var p := (m: MemoryRecord) => IsProfile(m, scope);
    FilterDeterministic(s, t, p);
    forall a, b | a in Filter(s, p) && b in Filter(s, p) && Tied(locale, a.id, b.id) ensures a == b {
      FilterElements(s, p, a);
      FilterElements(s, p, b);
    }
    SortDeterministic(Filter(s, p), Filter(t, p), ByProfile(locale));
  }
}
