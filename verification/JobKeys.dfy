// Idempotency keys of the jobs that the actions of one decision schedule.
module JobKeys {
  import opened Text
  import opened Sequences
  import opened Actions

  /** The group an action shares its ordinal with, or "" when it schedules nothing. */
  function GroupKey(a: ActionPlan): string {
    if a.kind == AdminDigest then "admin_digest"
    else if a.kind == SilentSummarizeLater then "silent_summarize_later:summary"
    else if a.kind == ScheduleBackgroundTask && a.payload.Some? && a.payload.value.backgroundTask.Some?
    then "schedule_background_task:" + a.payload.value.backgroundTask.value.taskType
    else ""
  }

  /** The suffix of the key at place `i`: its ordinal among its equals, when it has any. */
  function SuffixAt(keys: seq<string>, i: nat): string
    requires i < |keys|
  {
    if keys[i] == "" || CountOf(keys, keys[i]) <= 1 then ""
    else ":action" + Decimal(CountOf(keys[..i + 1], keys[i]))
  }

  function Suffixes(keys: seq<string>): seq<string> {
    seq(|keys|, i requires 0 <= i < |keys| => SuffixAt(keys, i))
  }

  function Keys(actions: seq<ActionPlan>): seq<string> {
    seq(|actions|, i requires 0 <= i < |actions| => GroupKey(actions[i]))
  }

  /** A counter table, where absent means zero. */
  function CountIn(counts: map<string, nat>, key: string): nat {
    if key in counts then counts[key] else 0
  }

  lemma OccurrencesStep(keys: seq<string>, i: nat, key: string)
    requires i < |keys|
    ensures CountOf(keys[..i + 1], key) == CountOf(keys[..i], key) + if keys[i] == key then 1 else 0
  {
    assert keys[..i + 1] == keys[..i] + [keys[i]];
  }

  method CountKeys(keys: seq<string>) returns (counts: map<string, nat>)
    ensures forall k :: CountIn(counts, k) == if k == "" then 0 else CountOf(keys, k)
  {
    counts := map[];
    for i := 0 to |keys|
      invariant forall k :: CountIn(counts, k) == if k == "" then 0 else CountOf(keys[..i], k)
    {
      hide CountOf;
      ghost var before := counts;
      if keys[i] != "" { counts := counts[keys[i] := CountIn(counts, keys[i]) + 1]; }
      forall k ensures CountIn(counts, k) == if k == "" then 0 else CountOf(keys[..i + 1], k) {
        assert CountIn(before, k) == if k == "" then 0 else CountOf(keys[..i], k);
        OccurrencesStep(keys, i, k);
      }
    }
    assert keys[..|keys|] == keys;
  }

  lemma SuffixesStep(keys: seq<string>, i: nat)
    requires i < |keys|
    ensures Suffixes(keys)[..i + 1] == Suffixes(keys)[..i] + [SuffixAt(keys, i)]
  {
  }

  /** Two counting passes: how often each key occurs, then the running ordinal of each repeated one. */
  method BuildJobIdempotencySuffixes(actions: seq<ActionPlan>) returns (suffixes: seq<string>)
    ensures suffixes == Suffixes(Keys(actions))
  {
    var keys := Keys(actions);
    var counts := CountKeys(keys);
    var seen: map<string, nat> := map[];
    suffixes := [];
    for i := 0 to |keys|
      invariant forall k :: CountIn(seen, k) == if k == "" || CountOf(keys, k) <= 1 then 0 else CountOf(keys[..i], k)
      invariant suffixes == Suffixes(keys)[..i]
    {
      var key := keys[i];
      forall k ensures CountOf(keys[..i + 1], k) == CountOf(keys[..i], k) + if key == k then 1 else 0 {
        OccurrencesStep(keys, i, k);
      }
      SuffixesStep(keys, i);
      hide CountOf, Suffixes;
      if key == "" || CountIn(counts, key) <= 1 {
        suffixes := suffixes + [""];
      } else {
        var ordinal := CountIn(seen, key) + 1;
        seen := seen[key := ordinal];
        suffixes := suffixes + [":action" + Decimal(ordinal)];
      }
    }
    assert Suffixes(keys)[..|keys|] == Suffixes(keys);
  }

  const TASK_TYPES: seq<string> :=
    ["summary", "extraction", "consolidation", "decay", "conflict", "admin_digest", "retention"]

  predicate KnownTask(t: string) {
    t in TASK_TYPES
  }

  /** The key the executor gives the job, when the action schedules one. */
  function JobKey(decisionId: string, a: ActionPlan, suffix: string): Option<string> {
    if a.kind == AdminDigest then Some("action:admin_digest:" + decisionId + suffix)
    else if a.kind == SilentSummarizeLater then
      Some("action:silent_summarize_later:" + decisionId + ":summary" + suffix)
    else if a.kind == ScheduleBackgroundTask && a.payload.Some? && a.payload.value.backgroundTask.Some?
            && KnownTask(a.payload.value.backgroundTask.value.taskType)
    then
      Some("action:schedule_background_task:" + decisionId + ":" + a.payload.value.backgroundTask.value.taskType + suffix)
    else None
  }

  function JobKeyAt(decisionId: string, actions: seq<ActionPlan>, i: nat): Option<string>
    requires i < |actions|
  {
    JobKey(decisionId, actions[i], Suffixes(Keys(actions))[i])
  }

  // ---------------------------------------------------------------- distinctness

  lemma OccurrencesGrow(keys: seq<string>, i: nat, j: nat)
    requires i < j < |keys| && keys[i] == keys[j]
    ensures CountOf(keys[..i + 1], keys[i]) < CountOf(keys[..j + 1], keys[j])
    ensures CountOf(keys, keys[i]) > 1
  {
    OccurrencesPrefix(keys, i + 1, j, keys[i]);
    OccurrencesStep(keys, i, keys[i]);
    OccurrencesStep(keys, j, keys[i]);
    OccurrencesPrefix(keys, j + 1, |keys|, keys[i]);
    assert keys[..|keys|] == keys;
  }

  lemma OccurrencesPrefix(keys: seq<string>, i: nat, j: nat, key: string)
    requires i <= j <= |keys|
    ensures CountOf(keys[..i], key) <= CountOf(keys[..j], key)
  {
    CountConcat(keys[..i], keys[i..j], key);
    assert keys[..j] == keys[..i] + keys[i..j];
  }

  /** Two members of one group have different suffixes. */
  lemma SuffixesDiffer(keys: seq<string>, i: nat, j: nat)
    requires i < j < |keys| && keys[i] == keys[j] && keys[i] != ""
    ensures SuffixAt(keys, i) != SuffixAt(keys, j)
  {
    OccurrencesGrow(keys, i, j);
    var m, n := CountOf(keys[..i + 1], keys[i]), CountOf(keys[..j + 1], keys[j]);
    DecimalInjective(m, n);
    assert (":action" + Decimal(m))[7..] == Decimal(m) && (":action" + Decimal(n))[7..] == Decimal(n);
  }

  /** A suffix is empty or starts with a colon; a name holds none. */
  predicate IsSuffix(s: string) {
    s == "" || s[0] == ':'
  }

  lemma ColonAt(a: string, s: string)
    requires ':' !in a && IsSuffix(s)
    ensures IndexOf(a + s, ':') == |a|
  {
    assert (a + s)[..|a|] == a;
    IndexOfIs(a + s, ':', |a|);
  }

  lemma NameBeforeColon(a: string, s: string, b: string, t: string)
    requires ':' !in a && ':' !in b && IsSuffix(s) && IsSuffix(t) && a + s == b + t
    ensures a == b && s == t
  {
    ColonAt(a, s);
    ColonAt(b, t);
    assert (a + s)[..|a|] == a && (b + t)[..|b|] == b;
    assert (a + s)[|a|..] == s && (b + t)[|b|..] == t;
  }

  lemma SameParts(p: string, a: string, s: string, b: string, t: string)
    requires |a| == |b| && p + a + s == p + b + t
    ensures a == b && s == t
  {
    var x, y := p + a + s, p + b + t;
    assert x[|p|..|p| + |a|] == a && y[|p|..|p| + |b|] == b;
    assert x[|p| + |a|..] == s && y[|p| + |b|..] == t;
  }

  lemma TaskTypesPlain(t: string)
    requires KnownTask(t)
    ensures ':' !in t
  {
  }

  const ADMIN := "action:admin_digest:"
  const SILENT := "action:silent_summarize_later:"
  const SCHEDULE := "action:schedule_background_task:"

  lemma KindsDiffer(a: string, b: string, c: string)
    ensures ADMIN + a != SILENT + b && ADMIN + a != SCHEDULE + c && SILENT + b != SCHEDULE + c
  {
    assert (ADMIN + a)[7] == 'a' && (SILENT + b)[7] == 's' && (SCHEDULE + c)[7] == 's';
    assert (SILENT + b)[8] == 'i' && (SCHEDULE + c)[8] == 'c';
  }

  /** The part of a key after its kind and decision. */
  function Tail(a: ActionPlan, suffix: string): string {
    if a.kind == AdminDigest then suffix
    else if a.kind == SilentSummarizeLater then ":summary" + suffix
    else if a.payload.Some? && a.payload.value.backgroundTask.Some?
    then ":" + a.payload.value.backgroundTask.value.taskType + suffix
    else suffix
  }

  function Kind(a: ActionPlan): string {
    if a.kind == AdminDigest then ADMIN else if a.kind == SilentSummarizeLater then SILENT else SCHEDULE
  }

  lemma KeyShape(id: string, a: ActionPlan, suffix: string)
    requires JobKey(id, a, suffix).Some?
    ensures JobKey(id, a, suffix).value == Kind(a) + id + Tail(a, suffix)
    ensures a.kind == AdminDigest || a.kind == SilentSummarizeLater || a.kind == ScheduleBackgroundTask
  {
  }

  lemma SameKind(id: string, a: ActionPlan, s: string, id2: string, b: ActionPlan, t: string)
    requires JobKey(id, a, s).Some? && JobKey(id, a, s) == JobKey(id2, b, t)
    ensures a.kind == b.kind
  {
    KeyShape(id, a, s);
    KeyShape(id2, b, t);
    hide JobKey, Tail;
    Associate(Kind(a), id, Tail(a, s));
    Associate(Kind(b), id2, Tail(b, t));
    KindsDiffer(id + Tail(a, s), id2 + Tail(b, t), id2 + Tail(b, t));
    KindsDiffer(id2 + Tail(b, t), id + Tail(a, s), id + Tail(a, s));
    KindsDiffer("", id + Tail(a, s), id2 + Tail(b, t));
    KindsDiffer("", id2 + Tail(b, t), id + Tail(a, s));
  }

  lemma Associate(a: string, b: string, c: string)
    ensures a + b + c == a + (b + c)
  {
  }

  lemma SameTail(id: string, a: ActionPlan, s: string, b: ActionPlan, t: string)
    requires JobKey(id, a, s).Some? && JobKey(id, b, t).Some? && a.kind == b.kind && Tail(a, s) == Tail(b, t)
    requires IsSuffix(s) && IsSuffix(t)
    ensures GroupKey(a) == GroupKey(b) && s == t
  {
    if a.kind == SilentSummarizeLater {
      assert (":summary" + s)[8..] == s && (":summary" + t)[8..] == t;
    } else if a.kind == ScheduleBackgroundTask {
      var x, y := a.payload.value.backgroundTask.value.taskType, b.payload.value.backgroundTask.value.taskType;
      TaskTypesPlain(x);
      TaskTypesPlain(y);
      hide *;
      ScheduleTails(x, s, y, t);
    }
  }

  lemma DropFirst(a: string, b: string)
    requires ":" + a == ":" + b
    ensures a == b
  {
    assert (":" + a)[1..] == a && (":" + b)[1..] == b;
  }

  lemma ScheduleTails(x: string, s: string, y: string, t: string)
    requires ':' !in x && ':' !in y && IsSuffix(s) && IsSuffix(t) && ":" + x + s == ":" + y + t
    ensures x == y && s == t
  {
    Associate(":", x, s);
    Associate(":", y, t);
    DropFirst(x + s, y + t);
    NameBeforeColon(x, s, y, t);
  }

  /** A key determines its decision, its group and its suffix; decision identifiers have one length. */
  lemma KeyDetermines(id: string, a: ActionPlan, s: string, id2: string, b: ActionPlan, t: string)
    requires |id| == |id2| && IsSuffix(s) && IsSuffix(t)
    requires JobKey(id, a, s).Some? && JobKey(id, a, s) == JobKey(id2, b, t)
    ensures id == id2 && GroupKey(a) == GroupKey(b) && s == t
  {
    SameKind(id, a, s, id2, b, t);
    KeyShape(id, a, s);
    KeyShape(id2, b, t);
    hide Tail, GroupKey, JobKey, Kind;
    assert Kind(a) == Kind(b) by { KindByKind(a, b); }
    SameParts(Kind(a), id, Tail(a, s), id2, Tail(b, t));
    SameTail(id, a, s, b, t);
  }

  lemma KindByKind(a: ActionPlan, b: ActionPlan)
    requires a.kind == b.kind
    ensures Kind(a) == Kind(b)
  {
  }

  lemma SuffixIs(keys: seq<string>, i: nat)
    requires i < |keys|
    ensures IsSuffix(SuffixAt(keys, i)) && Suffixes(keys)[i] == SuffixAt(keys, i)
  {
  }

  /** Two scheduling actions, of one decision or of two, get the same key only if they are the same action of
      the same decision. */
  lemma KeysDistinct(
    id: string, actions: seq<ActionPlan>, i: nat, id2: string, others: seq<ActionPlan>, j: nat)
    requires |id| == |id2| && (id == id2 ==> actions == others) && i < |actions| && j < |others|
    requires JobKeyAt(id, actions, i).Some? && JobKeyAt(id, actions, i) == JobKeyAt(id2, others, j)
    ensures id == id2 && i == j
  {
    var k, l := Keys(actions), Keys(others);
    SuffixIs(k, i);
    SuffixIs(l, j);
    Scheduling(id, actions[i], Suffixes(k)[i]);
    hide JobKey, GroupKey, SuffixAt, Suffixes, IsSuffix;
    KeyDetermines(id, actions[i], Suffixes(k)[i], id2, others[j], Suffixes(l)[j]);
    if i < j { SuffixesDiffer(k, i, j); }
    if j < i { SuffixesDiffer(k, j, i); }
  }

  lemma Scheduling(id: string, a: ActionPlan, suffix: string)
    requires JobKey(id, a, suffix).Some?
    ensures GroupKey(a) != ""
  {
  }

  /** The two schedule the same: a digest, a summary, or background tasks of one type. */
  predicate Alike(a: ActionPlan, b: ActionPlan) {
    a.kind == b.kind
    && match a.kind
       case AdminDigest => true
       case SilentSummarizeLater => true
       case ScheduleBackgroundTask =>
         TaskOf(a).Some? && TaskOf(b).Some? && TaskOf(a).value.taskType == TaskOf(b).value.taskType
       case _ => false
  }

  function TaskOf(a: ActionPlan): Option<BackgroundTask> {
    if a.payload.Some? then a.payload.value.backgroundTask else None
  }

  lemma AlikeIsSameGroup(a: ActionPlan, b: ActionPlan)
    ensures Alike(a, b) <==> GroupKey(a) == GroupKey(b) && GroupKey(a) != ""
  {
    var p := "schedule_background_task:";
    forall x: string ensures (p + x)[..25] == p && (p + x)[25..] == x {}
    assert p[1] == 'c' && "admin_digest"[1] == 'd' && "silent_summarize_later:summary"[1] == 'i';
    forall x: string ensures (p + x)[1] == 'c' {}
  }

  /** An action alone of its kind keeps the bare key, so keys are stable when nothing is repeated. */
  lemma AloneUnsuffixed(actions: seq<ActionPlan>, i: nat)
    requires i < |actions|
    ensures Suffixes(Keys(actions))[i] == "" <==>
      forall j | 0 <= j < |actions| && j != i :: !Alike(actions[i], actions[j])
  {
    var keys := Keys(actions);
    forall j | 0 <= j < |actions| ensures keys[j] == GroupKey(actions[j]) {}
    forall j | 0 <= j < |actions| ensures Alike(actions[i], actions[j]) <==> keys[i] == keys[j] && keys[i] != "" {
      AlikeIsSameGroup(actions[i], actions[j]);
    }
    OccursOnce(keys, i);
    hide GroupKey, CountOf, Alike;
  }

  lemma {:induction false} OccursOnce(keys: seq<string>, i: nat)
    requires i < |keys|
    ensures CountOf(keys, keys[i]) <= 1 <==> forall j | 0 <= j < |keys| && j != i :: keys[j] != keys[i]
  {
    if j :| 0 <= j < |keys| && j != i && keys[j] == keys[i] {
      OccurrencesGrow(keys, if i < j then i else j, if i < j then j else i);
    } else {
      OccurrencesFound(keys, keys[i], i);
    }
  }

  lemma OccurrencesFound(keys: seq<string>, key: string, i: nat)
    requires i < |keys| && forall j | 0 <= j < |keys| && j != i :: keys[j] != key
    ensures CountOf(keys, key) <= 1
  {
    assert keys == keys[..i] + [keys[i]] + keys[i + 1..];
    assert key !in keys[..i] && key !in keys[i + 1..];
  }

  lemma {:induction false} CountIsPositions(keys: seq<string>, key: string)
    ensures CountOf(keys, key) == |set j | 0 <= j < |keys| && keys[j] == key|
  {
    var all := set j | 0 <= j < |keys| && keys[j] == key;
    if keys == [] {
      assert all == {};
    } else {
      var n := |keys| - 1;
      var init := keys[..n];
      CountIsPositions(init, key);
      OccurrencesStep(keys, n, key);
      assert keys[..n + 1] == keys;
      var before := set j | 0 <= j < |init| && init[j] == key;
      assert all == before + if keys[n] == key then {n} else {};
    }
  }

  /** The repeated ones carry `:action1`, `:action2` and so on, in order. */
  lemma SuffixesCount(actions: seq<ActionPlan>, i: nat)
    requires i < |actions|
    requires exists j | 0 <= j < |actions| && j != i :: Alike(actions[i], actions[j])
    ensures Suffixes(Keys(actions))[i] == ":action" + Decimal(|set j | 0 <= j <= i && Alike(actions[i], actions[j])|)
  {
    var keys := Keys(actions);
    forall j | 0 <= j < |actions| ensures Alike(actions[i], actions[j]) <==> keys[i] == keys[j] && keys[i] != "" {
      AlikeIsSameGroup(actions[i], actions[j]);
    }
    OccursOnce(keys, i);
    var upTo := keys[..i + 1];
    CountIsPositions(upTo, keys[i]);
    assert (set k | 0 <= k < |upTo| && upTo[k] == keys[i]) == set k | 0 <= k <= i && Alike(actions[i], actions[k]);
    hide GroupKey, CountOf, Alike;
  }

  /** An action gets a key exactly when it schedules a digest, a summary or a background task of a known type; the
      key names the decision and, but for a digest, what is scheduled. */
  lemma KeyedExactly(id: string, actions: seq<ActionPlan>, i: nat)
    requires i < |actions|
    ensures var key, a, suffix := JobKeyAt(id, actions, i), actions[i], Suffixes(Keys(actions))[i];
      match a.kind
      case AdminDigest => key == Some("action:admin_digest:" + id + suffix)
      case SilentSummarizeLater => key == Some("action:silent_summarize_later:" + id + ":summary" + suffix)
      case ScheduleBackgroundTask =>
        var known := ["summary", "extraction", "consolidation", "decay", "conflict", "admin_digest", "retention"];
        if TaskOf(a).Some? && TaskOf(a).value.taskType in known
        then key == Some("action:schedule_background_task:" + id + ":" + TaskOf(a).value.taskType + suffix)
        else key == None
      case _ => key == None
  {
    hide Suffixes;
  }
}
