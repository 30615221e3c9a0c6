// What the staged selection guarantees.
module ContextBudgetLaws {
  import opened Text
  import opened Sequences
  import opened References
  import opened PromptCost
  import opened PromptSize
  import opened MemoryRanking
  import opened ContextBudget

  // ---------------------------------------------------------------- the cap

  /** A message as the budget may keep it: whole, or a prefix with the marker. A current message shortened
      a second time can hold a piece of its first marker. */
  predicate Shortened(m: RecentMessage, x: RecentMessage) {
    && x.(text := m.text) == m
    && x.text.Some?
    && exists n, k | 0 <= n <= TextLength(m) && 0 <= k <= |MARKER| ::
         x.text.value == OrElse(m.text, "")[..n] + MARKER[..k] + MARKER
  }

  predicate KeptForm(p: Problem, e: Entry) {
    && e.index < |p.recentMessages|
    && (e.message == p.recentMessages[e.index]
        || (Required(p, e.index) && Shortened(p.recentMessages[e.index], e.message)))
  }

  lemma CutShortens(m: RecentMessage, n: nat)
    requires n <= TextLength(m)
    ensures Shortened(m, Cut(m, n))
  {
    assert Cut(m, n).text.value == OrElse(m.text, "")[..n] + MARKER[..0] + MARKER;
  }

  lemma CutTwice(m: RecentMessage, n: nat, k: nat)
    requires n <= TextLength(m) && k <= TextLength(Cut(m, n))
    ensures Shortened(m, Cut(Cut(m, n), k))
  {
    var t := OrElse(m.text, "");
    if k <= n {
      assert (t[..n] + MARKER)[..k] == t[..k] + MARKER[..0];
      assert Cut(Cut(m, n), k).text.value == t[..k] + MARKER[..0] + MARKER;
    } else {
      assert (t[..n] + MARKER)[..k] == t[..n] + MARKER[..k - n];
      assert Cut(Cut(m, n), k).text.value == t[..n] + MARKER[..k - n] + MARKER;
    }
  }

  lemma MinimalShortens(m: RecentMessage)
    ensures MinimalTarget(m) == m || Shortened(m, MinimalTarget(m))
  {
    if m.text.Some? {
      assert MARKER == OrElse(m.text, "")[..0] + MARKER[..0] + MARKER;
    }
  }

  /** The entries after the first two stages: exactly the required messages, within the cap. */
  ghost predicate RequiredKept(p: Problem, env: Env, entries: seq<Entry>) {
    && Fits(p, env, entries, [])
    && (forall e | e in entries :: KeptForm(p, e) && Required(p, e.index))
    && (forall i: nat | Required(p, i) :: HasPlace(entries, i))
    && DistinctPlaces(entries)
  }

  predicate HasPlace(entries: seq<Entry>, i: nat) {
    exists e | e in entries :: e.index == i
  }

  predicate DistinctPlaces(entries: seq<Entry>) {
    forall i, j | 0 <= i < j < |entries| :: entries[i].index != entries[j].index
  }

  predicate CutOrWhole(m: RecentMessage, x: RecentMessage) {
    x == m || exists n | 0 <= n <= TextLength(m) :: x == Cut(m, n)
  }

  /** What the first stage leaves: the current message, alone. */
  predicate CurrentOnly(p: Problem, entries: seq<Entry>) {
    if CurrentIndex(p).None? then entries == []
    else
      && |entries| == 1 && CurrentIndex(p) == Some(entries[0].index)
      && CutOrWhole(p.recentMessages[entries[0].index], entries[0].message)
  }

  lemma CurrentStage(p: Problem, env: Env)
    ensures RetainCurrent(p, env).Ok? ==>
      var entries := RetainCurrent(p, env).value.entries; Fits(p, env, entries, []) && CurrentOnly(p, entries)
  {
    hide BudgetOf, Cut, TextLength;
    var current := CurrentIndex(p);
    if RetainCurrent(p, env).Ok? && current.Some? && !Fits(p, env, [Original(p, current.value)], []) {
      hide CurrentIndex, LongestFit, Fits;
      var i := current.value;
      LongestFitNone(p.recentMessages[i], FitsAt(p, env, [], i), TextLength(p.recentMessages[i]));
      var t := RetainCurrent(p, env).value.entries;
      assert [] + t == t;
    }
  }

  lemma CutOrWholeIsKept(p: Problem, e: Entry)
    requires Required(p, e.index) && CutOrWhole(p.recentMessages[e.index], e.message)
    ensures KeptForm(p, e)
  {
    var m := p.recentMessages[e.index];
    if e.message != m {
      var n :| 0 <= n <= TextLength(m) && e.message == Cut(m, n);
      CutShortens(m, n);
    }
  }

  lemma CutAgainIsKept(p: Problem, e: Entry, k: nat)
    requires Required(p, e.index) && CutOrWhole(p.recentMessages[e.index], e.message) && k <= TextLength(e.message)
    ensures KeptForm(p, Entry(e.index, Cut(e.message, k)))
  {
    var m := p.recentMessages[e.index];
    if e.message == m {
      CutShortens(m, k);
    } else {
      var n :| 0 <= n <= TextLength(m) && e.message == Cut(m, n);
      CutTwice(m, n, k);
    }
  }

  lemma CurrentAlone(p: Problem, env: Env, entries: seq<Entry>)
    requires CurrentOnly(p, entries) && Fits(p, env, entries, [])
    requires QuoteIndex(p).None? || QuoteIndex(p) == CurrentIndex(p)
    ensures RequiredKept(p, env, entries)
  {
    hide Fits, CurrentIndex, QuoteIndex, KeptForm, CutOrWhole;
    if entries != [] { CutOrWholeIsKept(p, entries[0]); }
    assert forall i: nat | Required(p, i) :: entries != [] && entries[0] in entries && entries[0].index == i;
  }

  lemma CurrentThenQuote(p: Problem, env: Env, current: seq<Entry>, q: Entry)
    requires QuoteIndex(p) == Some(q.index) && CurrentIndex(p) != Some(q.index)
    requires if CurrentIndex(p).None? then current == []
             else |current| == 1 && CurrentIndex(p) == Some(current[0].index) && KeptForm(p, current[0])
    requires KeptForm(p, q) && Fits(p, env, current + [q], [])
    ensures RequiredKept(p, env, current + [q])
  {
    hide Fits, CurrentIndex, QuoteIndex, KeptForm;
    var entries := current + [q];
    assert q in entries;
    assert current != [] ==> current[0] in entries;
  }

  /** The second stage keeps the current message and the quote target, or fails. */
  lemma QuoteStage(p: Problem, env: Env, s: Stage)
    requires CurrentOnly(p, s.entries)
    ensures Fits(p, env, s.entries, []) && RetainQuote(p, env, s).Ok? ==>
      RequiredKept(p, env, RetainQuote(p, env, s).value.entries)
  {
    hide Fits, CurrentIndex, QuoteIndex, KeptForm, CutOrWhole, LongestFit, Cut, TextLength, RequiredKept, FitsAt,
         ShrinkCurrent;
    if !Fits(p, env, s.entries, []) || RetainQuote(p, env, s).Err? {
    } else if QuoteIndex(p).None? || QuoteIndex(p) == CurrentIndex(p) {
      CurrentAlone(p, env, s.entries);
    } else {
      var q := QuoteIndex(p).value;
      if s.entries != [] { CutOrWholeIsKept(p, s.entries[0]); }
      if Fits(p, env, s.entries + [Original(p, q)], []) {
        OriginalIsKept(p, q);
        CurrentThenQuote(p, env, s.entries, Original(p, q));
      } else {
        var t := LongestFit(p.recentMessages[q], FitsAt(p, env, s.entries, q), TextLength(p.recentMessages[q]));
        if t.Some? {
          CutTarget(p, env, s.entries, q, t.value);
          CurrentThenQuote(p, env, s.entries, Entry(q, t.value));
        } else {
          ShrinkStage(p, env, s, q);
        }
      }
    }
  }

  lemma OriginalIsKept(p: Problem, i: nat)
    requires i < |p.recentMessages|
    ensures KeptForm(p, Original(p, i))
  {
  }

  lemma CutTarget(p: Problem, env: Env, entries: seq<Entry>, q: nat, t: RecentMessage)
    requires Required(p, q)
    requires LongestFit(p.recentMessages[q], FitsAt(p, env, entries, q), TextLength(p.recentMessages[q])) == Some(t)
    ensures KeptForm(p, Entry(q, t)) && Fits(p, env, entries + [Entry(q, t)], [])
  {
    hide Fits, LongestFit, Cut, TextLength, KeptForm;
    LongestFitNone(p.recentMessages[q], FitsAt(p, env, entries, q), TextLength(p.recentMessages[q]));
    CutOrWholeIsKept(p, Entry(q, t));
  }

  lemma ShrinkStage(p: Problem, env: Env, s: Stage, q: nat)
    requires CurrentOnly(p, s.entries) && QuoteIndex(p) == Some(q) && CurrentIndex(p) != Some(q)
    ensures ShrinkCurrent(p, env, s, q).Ok? ==> RequiredKept(p, env, ShrinkCurrent(p, env, s, q).value.entries)
  {
    hide Fits, CurrentIndex, QuoteIndex, KeptForm, CutOrWhole, LongestFit, Cut, TextLength, RequiredKept, MinimalTarget,
         WithFilter;
    if ShrinkCurrent(p, env, s, q).Ok? {
      var target := Entry(q, MinimalTarget(p.recentMessages[q]));
      var current := s.entries[0];
      var fits := FitsBefore(p, env, [], current.index, target);
      assert s.entries[..0] + s.entries[1..] == [];
      LongestFitNone(current.message, fits, TextLength(current.message));
      var t := LongestFit(current.message, fits, TextLength(current.message)).value;
      var k :| 0 <= k <= TextLength(current.message) && t == Cut(current.message, k) && fits(t);
      CutAgainIsKept(p, current, k);
      MinimalIsKept(p, q);
      var kept := Entry(current.index, t);
      assert s.entries[0 := kept] == [kept] && [] + [kept, target] == [kept] + [target];
      CurrentThenQuote(p, env, [kept], target);
    }
  }

  lemma MinimalIsKept(p: Problem, q: nat)
    requires QuoteIndex(p) == Some(q)
    ensures KeptForm(p, Entry(q, MinimalTarget(p.recentMessages[q])))
  {
    MinimalShortens(p.recentMessages[q]);
  }

  lemma {:induction false} MemoriesFit(
    p: Problem, env: Env, entries: seq<Entry>, offered: seq<MemoryRecord>,
    selected: seq<MemoryRecord>, rejected: seq<string>)
    ensures Fits(p, env, entries, selected) ==>
      Fits(p, env, entries, TakeMemories(p, env, entries, offered, selected, rejected).0)
    decreases |offered|
  {
    hide Fits, Reject;
    if offered != [] {
      if Fits(p, env, entries, selected + [offered[0]]) {
        MemoriesFit(p, env, entries, offered[1..], selected + [offered[0]], rejected);
      } else {
        MemoriesFit(p, env, entries, offered[1..], selected, Reject(rejected, offered[0].id));
      }
    }
  }

  /** The place where the scan for recent messages stops: every message from there on is kept. */
  function StopAt(p: Problem, env: Env, entries: seq<Entry>, memories: seq<MemoryRecord>, n: nat): (k: nat)
    requires n <= |p.recentMessages|
    ensures k <= n
    decreases n
  {
    if n == 0 then 0
    else if Required(p, n - 1) then StopAt(p, env, entries, memories, n - 1)
    else
      var more := entries + [Original(p, n - 1)];
      if !Fits(p, env, more, memories) then n else StopAt(p, env, more, memories, n - 1)
  }

  /** The messages from place `k` up to `n` that are not required, newest first. */
  function Suffix(p: Problem, k: nat, n: nat): seq<Entry>
    requires k <= n <= |p.recentMessages|
    decreases n
  {
    if k == n then []
    else (if Required(p, n - 1) then [] else [Original(p, n - 1)]) + Suffix(p, k, n - 1)
  }

  /** One turn of the scan, for the kept messages and for the place where it stops. */
  lemma ScanTurn(p: Problem, env: Env, entries: seq<Entry>, memories: seq<MemoryRecord>, n: nat)
    requires 0 < n <= |p.recentMessages|
    ensures var more := entries + [Original(p, n - 1)];
      if Required(p, n - 1) then
        TakeRecent(p, env, entries, memories, n) == TakeRecent(p, env, entries, memories, n - 1)
        && StopAt(p, env, entries, memories, n) == StopAt(p, env, entries, memories, n - 1)
      else if Fits(p, env, more, memories) then
        TakeRecent(p, env, entries, memories, n) == TakeRecent(p, env, more, memories, n - 1)
        && StopAt(p, env, entries, memories, n) == StopAt(p, env, more, memories, n - 1)
      else TakeRecent(p, env, entries, memories, n) == entries && StopAt(p, env, entries, memories, n) == n
  {
    hide Fits, Required;
  }

  lemma SuffixTurn(p: Problem, k: nat, n: nat)
    requires k < n <= |p.recentMessages|
    ensures Suffix(p, k, n) == (if Required(p, n - 1) then [] else [Original(p, n - 1)]) + Suffix(p, k, n - 1)
  {
    hide Required;
  }

  lemma NoSuffix(p: Problem, n: nat)
    requires n <= |p.recentMessages|
    ensures Suffix(p, n, n) == []
  {
  }

  lemma {:induction false} RecentIsSuffix(p: Problem, env: Env, entries: seq<Entry>, memories: seq<MemoryRecord>, n: nat)
    requires n <= |p.recentMessages|
    ensures TakeRecent(p, env, entries, memories, n) == entries + Suffix(p, StopAt(p, env, entries, memories, n), n)
    decreases n
  {
    hide *;
    if n == 0 {
      RecentDone(p, env, entries, memories);
      NoSuffix(p, 0);
      assert entries + [] == entries;
    } else {
      var more, k := entries + [Original(p, n - 1)], StopAt(p, env, entries, memories, n);
      ScanTurn(p, env, entries, memories, n);
      if Required(p, n - 1) {
        RecentIsSuffix(p, env, entries, memories, n - 1);
        SuffixTurn(p, k, n);
        assert [] + Suffix(p, k, n - 1) == Suffix(p, k, n - 1);
      } else if Fits(p, env, more, memories) {
        RecentIsSuffix(p, env, more, memories, n - 1);
        SuffixTurn(p, k, n);
        assert more + Suffix(p, k, n - 1) == entries + ([Original(p, n - 1)] + Suffix(p, k, n - 1));
      } else {
        NoSuffix(p, n);
        assert entries + [] == entries;
      }
    }
  }

  /** The scan stays within the cap, and stops at a message that would exceed it. */
  lemma {:induction false} RecentStops(p: Problem, env: Env, entries: seq<Entry>, memories: seq<MemoryRecord>, n: nat)
    requires n <= |p.recentMessages|
    ensures var k, r := StopAt(p, env, entries, memories, n), TakeRecent(p, env, entries, memories, n);
      && (Fits(p, env, entries, memories) ==> Fits(p, env, r, memories))
      && (k > 0 ==> !Required(p, k - 1) && !Fits(p, env, r + [Original(p, k - 1)], memories))
    decreases n
  {
    hide *;
    if n == 0 {
      RecentDone(p, env, entries, memories);
    } else {
      ScanTurn(p, env, entries, memories, n);
      RecentStops(p, env, entries, memories, n - 1);
      RecentStops(p, env, entries + [Original(p, n - 1)], memories, n - 1);
    }
  }

  /** The parts of a completed selection. */
  lemma Parts(p: Problem, env: Env)
    ensures Pick(p, env).Ok? ==>
      && RetainCurrent(p, env).Ok? && RetainQuote(p, env, RetainCurrent(p, env).value).Ok?
      && var s := RetainQuote(p, env, RetainCurrent(p, env).value).value;
         Pick(p, env).value == FillUp(p, env, s) && RequiredKept(p, env, s.entries)
  {
    hide RetainCurrent, RetainQuote, RequiredKept, Fits, CurrentOnly, FillUp;
    CurrentStage(p, env);
    if RetainCurrent(p, env).Ok? { QuoteStage(p, env, RetainCurrent(p, env).value); }
  }

  function ProfilesKept(p: Problem, env: Env, entries: seq<Entry>): seq<MemoryRecord> {
    TakeMemories(p, env, entries, PriorityProfiles(p.memories, env.locale), [], []).0
  }

  function OtherMemories(p: Problem, env: Env): seq<MemoryRecord> {
    Without(OrderMemories(p.memories, p.rankings, env.locale), Ids(PriorityProfiles(p.memories, env.locale)))
  }

  /** Every stage stays within the cap, so the closing check never fails. */
  lemma FillUpFits(p: Problem, env: Env, s: Stage)
    ensures Fits(p, env, s.entries, []) ==>
      var x := FillUp(p, env, s);
      Fits(p, env, x.entries, x.memories) && Fits(p, env, s.entries, ProfilesKept(p, env, s.entries))
  {
    hide Fits, TakeRecent, TakeMemories, RejectRest, Suffix, StopAt, Without, OrderMemories, PriorityProfiles, Ids;
    var profiles := PriorityProfiles(p.memories, env.locale);
    var (kept, refused) := TakeMemories(p, env, s.entries, profiles, [], []);
    MemoriesFit(p, env, s.entries, profiles, [], []);
    var entries := TakeRecent(p, env, s.entries, kept, |p.recentMessages|);
    RecentStops(p, env, s.entries, kept, |p.recentMessages|);
    MemoriesFit(p, env, entries, OtherMemories(p, env), kept, refused);
  }

  /** No run ends in the closing error; a result is within 8000 tokens, and its reported budget is the cost
      of exactly what it returns. */
  lemma BudgetHolds(p: Problem, env: Env)
    ensures Budgeted(p, env) != Err(ExceededMaximum)
    ensures Budgeted(p, env).Ok? ==>
      var o := Budgeted(p, env).value;
      && o.tokenBudget.used <= 8000
      && o.tokenBudget == CalculateTokenBudget(o.context, o.memories, p.fields, p.isGroup, env.lit)
  {
    hide FillUp, RetainCurrent, RetainQuote, CalculateTokenBudget, Materialize, WindowOf, RequiredKept, OmissionFilters;
    if Pick(p, env).Ok? {
      Parts(p, env);
      var s := RetainQuote(p, env, RetainCurrent(p, env).value).value;
      assert Fits(p, env, s.entries, []) by { RequiredFits(p, env, s.entries); }
      FillUpFits(p, env, s);
    } else {
      StageErrors(p, env);
    }
  }

  /** The texts, names, memories and fields of every returned prompt take at most 15400 code units together. */
  lemma PromptWithinCap(p: Problem, env: Env)
    ensures Budgeted(p, env).Ok? ==>
      var o := Budgeted(p, env).value;
      Substance(o.context, o.memories, p.fields, p.isGroup, env.lit) <= 15400
  {
    BudgetHolds(p, env);
    if Budgeted(p, env).Ok? {
      var o := Budgeted(p, env).value;
      hide *;
      CostCoversSubstance(o.context, o.memories, p.fields, p.isGroup, env.lit);
    }
  }

  lemma RequiredFits(p: Problem, env: Env, entries: seq<Entry>)
    ensures RequiredKept(p, env, entries) ==>
      && Fits(p, env, entries, []) && DistinctPlaces(entries)
      && (forall e | e in entries :: KeptForm(p, e) && Required(p, e.index))
      && (forall i: nat | Required(p, i) :: HasPlace(entries, i))
  {
  }

  lemma StageErrors(p: Problem, env: Env)
    ensures Pick(p, env) != Err(ExceededMaximum)
  {
    hide Fits, LongestFit, CurrentIndex, QuoteIndex, FillUp;
  }

  /** The current message is given up exactly when even the bare marker in its place does not fit. */
  lemma CurrentGivenUp(p: Problem, env: Env)
    ensures Budgeted(p, env) == Err(CurrentTooLong) <==>
      && Fits(p, env, [], [])
      && CurrentIndex(p).Some?
      && var i := CurrentIndex(p).value;
         !Fits(p, env, [Original(p, i)], []) && !Fits(p, env, [Entry(i, Cut(p.recentMessages[i], 0))], [])
  {
    var current := CurrentIndex(p);
    hide CurrentIndex, Fits, LongestFit, Cut, TextLength, FillUp, Materialize, CalculateTokenBudget;
    OtherErrors(p, env);
    if current.Some? {
      var i := current.value;
      var m := p.recentMessages[i];
      var fits := FitsAt(p, env, [], i);
      FitsAtMonotone(p, env, [], i, m);
      LongestFitNone(m, fits, TextLength(m));
      assert [] + [Entry(i, Cut(m, 0))] == [Entry(i, Cut(m, 0))];
      assert LongestFit(m, fits, TextLength(m)).None? <==> !fits(Cut(m, 0));
    }
  }

  lemma OtherErrors(p: Problem, env: Env)
    ensures Budgeted(p, env) == Err(CurrentTooLong) <==> RetainCurrent(p, env) == Err(CurrentTooLong)
  {
    hide Fits, LongestFit, CurrentIndex, QuoteIndex, FillUp;
  }

  // ---------------------------------------------------------------- how the required messages are kept

  /** The longest prefix with the marker that fits, or nothing when none does. */
  predicate IsLongestCut(m: RecentMessage, fits: RecentMessage -> bool, n: nat)
    requires n <= TextLength(m)
  {
    fits(Cut(m, n)) && forall j | n < j <= TextLength(m) :: !fits(Cut(m, j))
  }

  predicate NoCutFits(m: RecentMessage, fits: RecentMessage -> bool) {
    forall j | 0 <= j <= TextLength(m) :: !fits(Cut(m, j))
  }

  /** A cut keeps the first code units of the text and adds the marker. */
  lemma CutReads(m: RecentMessage, n: nat)
    requires n <= TextLength(m)
    ensures Cut(m, n) == m.(text := Some(OrElse(m.text, "")[..n] + " [truncated]"))
    ensures MinimalTarget(m) == if m.text.None? then m else m.(text := Some(" [truncated]"))
  {
  }

  lemma LongestFitExactly(m: RecentMessage, fits: RecentMessage -> bool)
    ensures match LongestFit(m, fits, TextLength(m))
      case None => NoCutFits(m, fits)
      case Some(t) => exists n | 0 <= n <= TextLength(m) :: IsLongestCut(m, fits, n) && t == Cut(m, n)
  {
    hide LongestFit, Cut, TextLength;
    LongestFitNone(m, fits, TextLength(m));
    if LongestFit(m, fits, TextLength(m)).Some? {
      var n :| 0 <= n <= TextLength(m) && LongestFit(m, fits, TextLength(m)) == Some(Cut(m, n))
        && fits(Cut(m, n)) && forall j | n < j <= TextLength(m) :: !fits(Cut(m, j));
      assert IsLongestCut(m, fits, n);
    }
  }

  lemma {:induction false} SameCuts(
    m: RecentMessage, f: RecentMessage -> bool, g: RecentMessage -> bool, n: nat)
    requires n <= TextLength(m) && forall x :: f(x) == g(x)
    ensures LongestFit(m, f, n) == LongestFit(m, g, n)
  {
    if n > 0 { SameCuts(m, f, g, n - 1); }
  }

  function FitsAlone(p: Problem, env: Env, i: nat): RecentMessage -> bool {
    (x: RecentMessage) => Fits(p, env, [Entry(i, x)], [])
  }

  function FitsAfter(p: Problem, env: Env, first: Entry, i: nat): RecentMessage -> bool {
    (x: RecentMessage) => Fits(p, env, [first, Entry(i, x)], [])
  }

  function FitsFirst(p: Problem, env: Env, i: nat, second: Entry): RecentMessage -> bool {
    (x: RecentMessage) => Fits(p, env, [Entry(i, x), second], [])
  }

  /** The outcome of a stage: the message `i` whole if it fits; otherwise its longest prefix that does, reported;
      `none` when no prefix fits. */
  ghost predicate KeptAtLength(
    m: RecentMessage, fits: RecentMessage -> bool, r: Result<Stage, BudgetError>, kept: seq<Entry>, i: nat,
    filters: seq<string>, filter: string)
  {
    if fits(m) then r == Ok(Stage(kept + [Entry(i, m)], filters))
    else exists n | 0 <= n <= TextLength(m) ::
      IsLongestCut(m, fits, n) && r == Ok(Stage(kept + [Entry(i, Cut(m, n))], filters + [filter]))
  }

  lemma KeptFrom(
    m: RecentMessage, fits: RecentMessage -> bool, kept: seq<Entry>, i: nat, filters: seq<string>, filter: string)
    ensures var cut := LongestFit(m, fits, TextLength(m));
      && (cut.None? <==> NoCutFits(m, fits))
      && (fits(m) ==> KeptAtLength(m, fits, Ok(Stage(kept + [Entry(i, m)], filters)), kept, i, filters, filter))
      && (!fits(m) && cut.Some? ==>
            KeptAtLength(m, fits, Ok(Stage(kept + [Entry(i, cut.value)], filters + [filter])), kept, i, filters, filter))
  {
    hide LongestFit, Cut, TextLength, NoCutFits, IsLongestCut;
    LongestFitExactly(m, fits);
    CutCannotFail(m, fits);
  }

  lemma CutCannotFail(m: RecentMessage, fits: RecentMessage -> bool)
    ensures forall n: nat | n <= TextLength(m) :: IsLongestCut(m, fits, n) ==> !NoCutFits(m, fits)
  {
  }

  /** The current message is kept whole if it fits beside the fixed layers, and otherwise as its longest prefix that
      does, which is reported; without any it is given up. */
  lemma CurrentKept(p: Problem, env: Env)
    ensures RetainCurrent(p, env) == Err(FixedLayers) <==> !Fits(p, env, [], [])
    ensures Fits(p, env, [], []) && CurrentIndex(p).None? ==> RetainCurrent(p, env) == Ok(Stage([], []))
    ensures Fits(p, env, [], []) && CurrentIndex(p).Some? ==>
      var i := CurrentIndex(p).value;
      var m, fits := p.recentMessages[i], FitsAlone(p, env, i);
      if !fits(m) && NoCutFits(m, fits) then RetainCurrent(p, env) == Err(CurrentTooLong)
      else KeptAtLength(m, fits, RetainCurrent(p, env), [], i, [], "token_budget:latest_user_message_truncated")
  {
    hide CurrentIndex, Fits, LongestFit, TextLength;
    if Fits(p, env, [], []) && CurrentIndex(p).Some? {
      var i := CurrentIndex(p).value;
      var m, fits := p.recentMessages[i], FitsAlone(p, env, i);
      forall x: RecentMessage ensures FitsAt(p, env, [], i)(x) == fits(x) {
        assert [] + [Entry(i, x)] == [Entry(i, x)];
      }
      SameCuts(m, FitsAt(p, env, [], i), fits, TextLength(m));
      KeptFrom(m, fits, [], i, [], "token_budget:latest_user_message_truncated");
      hide KeptAtLength, NoCutFits, FitsAt;
      assert fits(m) == Fits(p, env, [Original(p, i)], []);
      hide FitsAlone;
      var cut := LongestFit(m, fits, TextLength(m));
      assert [] + [Entry(i, m)] == [Entry(i, m)];
      if cut.Some? { assert [] + [Entry(i, cut.value)] == [Entry(i, cut.value)]; }
      assert [] + ["token_budget:latest_user_message_truncated"] == ["token_budget:latest_user_message_truncated"];
    }
  }

  /** So is the quote target beside the current message. When not even its bare marker fits, it is given that, and
      the current message is shortened to its longest prefix that fits before it; without any both are given up. */
  lemma QuoteKept(p: Problem, env: Env, s: Stage)
    requires CurrentOnly(p, s.entries)
    ensures QuoteIndex(p).None? || QuoteIndex(p) == CurrentIndex(p) ==> RetainQuote(p, env, s) == Ok(s)
    ensures QuoteIndex(p).Some? && QuoteIndex(p) != CurrentIndex(p) ==>
      var q, r := QuoteIndex(p).value, RetainQuote(p, env, s);
      var m := p.recentMessages[q];
      var fits := if s.entries == [] then FitsAlone(p, env, q) else FitsAfter(p, env, s.entries[0], q);
      if fits(m) || !NoCutFits(m, fits)
      then KeptAtLength(m, fits, r, s.entries, q, s.filters, "token_budget:quote_target_truncated")
      else if s.entries == [] then r == Err(QuoteTooLong)
      else
        var i, c, target := s.entries[0].index, s.entries[0].message, Entry(q, MinimalTarget(m));
        if NoCutFits(c, FitsFirst(p, env, i, target)) then r == Err(CurrentAndQuoteTooLong)
        else exists n | 0 <= n <= TextLength(c) :: (
          && IsLongestCut(c, FitsFirst(p, env, i, target), n)
          && r.Ok? && r.value.entries == [Entry(i, Cut(c, n)), target]
          && r.value.filters == s.filters
               + (if "token_budget:latest_user_message_truncated" in s.filters then []
                  else ["token_budget:latest_user_message_truncated"])
               + ["token_budget:quote_target_truncated"])
  {
    hide CurrentIndex, QuoteIndex, Fits, LongestFit, TextLength, ShrinkCurrent, CurrentOnly, MinimalTarget;
    if QuoteIndex(p).Some? && QuoteIndex(p) != CurrentIndex(p) {
      var q := QuoteIndex(p).value;
      var m := p.recentMessages[q];
      AtMostOneEntry(p, s.entries);
      TargetTests(p, env, s, q);
      var fits := if s.entries == [] then FitsAlone(p, env, q) else FitsAfter(p, env, s.entries[0], q);
      SameCuts(m, FitsAt(p, env, s.entries, q), fits, TextLength(m));
      KeptFrom(m, fits, s.entries, q, s.filters, "token_budget:quote_target_truncated");
      ShrunkExactly(p, env, s, q);
      hide KeptAtLength, NoCutFits, FitsAt, IsLongestCut, WithFilter, FitsAlone, FitsAfter, FitsFirst, Cut;
    }
  }

  lemma AtMostOneEntry(p: Problem, entries: seq<Entry>)
    requires CurrentOnly(p, entries)
    ensures |entries| <= 1
  {
  }

  lemma TargetTests(p: Problem, env: Env, s: Stage, q: nat)
    requires |s.entries| <= 1 && q < |p.recentMessages|
    ensures var fits := if s.entries == [] then FitsAlone(p, env, q) else FitsAfter(p, env, s.entries[0], q);
      && (forall x :: FitsAt(p, env, s.entries, q)(x) == fits(x))
      && fits(p.recentMessages[q]) == Fits(p, env, s.entries + [Original(p, q)], [])
  {
    hide Fits;
    forall x: RecentMessage
      ensures s.entries + [Entry(q, x)] == if s.entries == [] then [Entry(q, x)] else [s.entries[0], Entry(q, x)] {}
  }

  lemma AddedOnce(filters: seq<string>, filter: string)
    ensures WithFilter(filters, filter) == filters + if filter in filters then [] else [filter]
  {
    assert filters + [] == filters;
  }

  lemma ShrunkExactly(p: Problem, env: Env, s: Stage, q: nat)
    requires CurrentOnly(p, s.entries) && q < |p.recentMessages|
    ensures var r := ShrinkCurrent(p, env, s, q);
      if s.entries == [] then r == Err(QuoteTooLong)
      else
        var i, c, target := s.entries[0].index, s.entries[0].message, Entry(q, MinimalTarget(p.recentMessages[q]));
        if NoCutFits(c, FitsFirst(p, env, i, target)) then r == Err(CurrentAndQuoteTooLong)
        else exists n | 0 <= n <= TextLength(c) :: (
          && IsLongestCut(c, FitsFirst(p, env, i, target), n)
          && r.Ok? && r.value.entries == [Entry(i, Cut(c, n)), target]
          && r.value.filters == s.filters
               + (if "token_budget:latest_user_message_truncated" in s.filters then []
                  else ["token_budget:latest_user_message_truncated"])
               + ["token_budget:quote_target_truncated"])
  {
    hide CurrentIndex, Fits, LongestFit, Cut, TextLength, NoCutFits, IsLongestCut, MinimalTarget, WithFilter, CutOrWhole;
    if s.entries != [] {
      var current, target := s.entries[0], Entry(q, MinimalTarget(p.recentMessages[q]));
      var fits := FitsFirst(p, env, current.index, target);
      assert s.entries[..0] + s.entries[1..] == [];
      forall x: RecentMessage ensures FitsBefore(p, env, [], current.index, target)(x) == fits(x) {
        assert [] + [Entry(current.index, x), target] == [Entry(current.index, x), target];
      }
      SameCuts(current.message, FitsBefore(p, env, [], current.index, target), fits, TextLength(current.message));
      LongestFitExactly(current.message, fits);
      CutCannotFail(current.message, fits);
      AddedOnce(s.filters, CURRENT_CUT);
      forall t: RecentMessage
        ensures s.entries[0 := Entry(current.index, t)] + [target] == [Entry(current.index, t), target] {}
    }
  }

  /** What the result leaves out is counted in its filters: the messages, and the participants of the scene whose
      user no remaining participant is. */
  lemma OmissionsReported(p: Problem, env: Env)
    ensures Budgeted(p, env).Ok? ==>
      var o, cuts := Budgeted(p, env).value, Pick(p, env).value.filters;
      var messages := |p.recentMessages| - |o.context.recentMessages|;
      var people := |set i | 0 <= i < |p.participants| && (
        p.participants[i].canonicalUserId.None?
        || forall x | x in o.context.participants :: x.canonicalUserId != p.participants[i].canonicalUserId)|;
      o.filters == cuts
        + (if messages > 0 then ["token_budget:recent_messages_omitted=" + Decimal(messages)] else [])
        + (if people > 0 && p.recentMessages != [] then ["token_budget:participants_omitted=" + Decimal(people)] else [])
  {
    hide Pick, CalculateTokenBudget, Materialize, WindowOf, Decimal;
    if Budgeted(p, env).Ok? {
      var o := Budgeted(p, env).value;
      var ids := CanonicalIds(o.context.participants);
      var left := (x: Participant) => x.canonicalUserId.None? || x.canonicalUserId.value !in ids;
      FilterSize(p.participants, left);
      assert Positions(p.participants, left) == set i | 0 <= i < |p.participants| && (
        p.participants[i].canonicalUserId.None?
        || forall x | x in o.context.participants :: x.canonicalUserId != p.participants[i].canonicalUserId);
      var cuts := Pick(p, env).value.filters;
      assert o.filters == cuts + OmissionFilters(p, o.context);
      assert forall a: seq<string>, b: seq<string> :: cuts + (a + b) == cuts + a + b;
    }
  }

  // ---------------------------------------------------------------- which messages are kept

  lemma {:induction false} SuffixPlaces(p: Problem, k: nat, n: nat)
    requires k <= n <= |p.recentMessages|
    ensures forall e | e in Suffix(p, k, n) :: k <= e.index < n && !Required(p, e.index) && e == Original(p, e.index)
    ensures forall i: nat | k <= i < n && !Required(p, i) :: Original(p, i) in Suffix(p, k, n)
    ensures DistinctPlaces(Suffix(p, k, n))
    decreases n
  {
    hide Required;
    if k < n { SuffixPlaces(p, k, n - 1); }
  }

  lemma {:induction false} InsertPlaces(x: Entry, s: seq<Entry>)
    requires DistinctPlaces(s) && forall e | e in s :: e.index != x.index
    ensures DistinctPlaces(Insert(x, s, ByIndex()))
    ensures forall e :: e in Insert(x, s, ByIndex()) <==> e == x || e in s
  {
    if s != [] && !ByIndex()(x, s[0]) {
      InsertPlaces(x, s[1..]);
      assert s == [s[0]] + s[1..];
      var t := Insert(x, s[1..], ByIndex());
      forall e | e in t ensures e.index != s[0].index {
        if e != x { assert e in s[1..]; }
      }
      assert forall j | 0 <= j < |t| :: t[j] in t;
    }
  }

  lemma {:induction false} SortPlaces(s: seq<Entry>)
    requires DistinctPlaces(s)
    ensures DistinctPlaces(Sort(s, ByIndex()))
    ensures forall e :: e in Sort(s, ByIndex()) <==> e in s
  {
    if s != [] {
      SortPlaces(s[1..]);
      InsertPlaces(s[0], Sort(s[1..], ByIndex()));
      assert s == [s[0]] + s[1..];
    }
  }

  /** In the order of the window: the required messages and everything from place `k` on, each once, and
      nothing but required messages is shortened. */
  ghost predicate SoundWindow(p: Problem, w: seq<Entry>, k: nat) {
    && (forall i, j | 0 <= i < j < |w| :: w[i].index < w[j].index)
    && (forall e | e in w :: KeptForm(p, e))
    && (forall i: nat | i < |p.recentMessages| :: HasPlace(w, i) <==> Required(p, i) || k <= i)
  }

  /** Message `i` could have been left out, and would exceed the cap beside the selection. */
  predicate NextTooLong(p: Problem, env: Env, w: seq<Entry>, i: nat, memories: seq<MemoryRecord>)
    requires i < |p.recentMessages|
  {
    !Required(p, i) && !Fits(p, env, w + [Original(p, i)], memories)
  }

  /** The kept messages are an order-preserving part of the window: the current message, the quote target and
      an unbroken suffix of the rest; the newest message left out would exceed the cap even beside the final
      selection, memories included. */
  lemma SoundSelection(p: Problem, env: Env)
    ensures Budgeted(p, env).Ok? ==> SoundOutcome(p, env, Budgeted(p, env).value)
  {
    hide FillUp, RetainCurrent, RetainQuote, CalculateTokenBudget, Materialize, RequiredKept, OmissionFilters,
         SoundOutcome;
    if Budgeted(p, env).Ok? {
      Parts(p, env);
      FillUpIsSound(p, env, RetainQuote(p, env, RetainCurrent(p, env).value).value, Budgeted(p, env).value);
    }
  }

  /** The result is the reference context of a sound window whose next message would be too long. */
  ghost predicate SoundOutcome(p: Problem, env: Env, o: Outcome) {
    exists w, k: nat | k <= |p.recentMessages| ::
      && SoundWindow(p, w, k)
      && o.context == Materialize(MessagesOf(w), Scene(
           p.participants, p.isGroup, p.currentMessageId, p.reply, p.identities, p.recentMessages == []))
      && (k > 0 ==> NextTooLong(p, env, w, k - 1, o.memories))
  }

  lemma FillUpIsSound(p: Problem, env: Env, s: Stage, o: Outcome)
    ensures (RequiredKept(p, env, s.entries) && o.memories == FillUp(p, env, s).memories
             && o.context == Materialize(WindowOf(FillUp(p, env, s).entries), SceneOf(p))) ==> SoundOutcome(p, env, o)
  {
    hide FillUp, CalculateTokenBudget, Materialize, RequiredKept, Sort, Required, KeptForm, Fits, SoundWindow, StopAt,
         TakeRecent, ProfilesKept, Suffix, DistinctPlaces;
    if RequiredKept(p, env, s.entries) {
      RequiredFits(p, env, s.entries);
      FillUpFits(p, env, s);
      FillUpParts(p, env, s);
      var kept, x := ProfilesKept(p, env, s.entries), FillUp(p, env, s);
      var n := |p.recentMessages|;
      var k := StopAt(p, env, s.entries, kept, n);
      RecentIsSuffix(p, env, s.entries, kept, n);
      RecentStops(p, env, s.entries, kept, n);
      WindowIsSound(p, s.entries, k);
      var w := Sort(x.entries, ByIndex());
      if k > 0 {
        var more := x.entries + [Original(p, k - 1)];
        StillTooLong(p, env, more, kept, x.memories);
        DistinctWindow(p, s.entries, k);
        SortAgain(p, env, x.entries, Original(p, k - 1), x.memories);
      }
      assert SoundWindow(p, w, k);
    }
  }

  lemma FillUpParts(p: Problem, env: Env, s: Stage)
    ensures var x, kept := FillUp(p, env, s), ProfilesKept(p, env, s.entries);
      && x.entries == TakeRecent(p, env, s.entries, kept, |p.recentMessages|)
      && kept <= x.memories
  {
    hide Fits, TakeRecent, RejectRest, Without, OrderMemories, PriorityProfiles, Ids, TakeMemories;
    var (kept, refused) := TakeMemories(p, env, s.entries, PriorityProfiles(p.memories, env.locale), [], []);
    var entries := TakeRecent(p, env, s.entries, kept, |p.recentMessages|);
    var (memories, rejected) := TakeMemories(p, env, entries, OtherMemories(p, env), kept, refused);
    assert kept <= memories;
    assert FillUp(p, env, s).entries == entries;
    assert FillUp(p, env, s).memories == memories;
    assert ProfilesKept(p, env, s.entries) == kept;
  }

  lemma DistinctWindow(p: Problem, required: seq<Entry>, k: nat)
    requires k <= |p.recentMessages| && DistinctPlaces(required)
    requires forall e | e in required :: Required(p, e.index)
    ensures var entries := required + Suffix(p, k, |p.recentMessages|);
      && DistinctPlaces(entries)
      && (k > 0 && !Required(p, k - 1) ==> forall e | e in entries :: e.index != k - 1)
  {
    hide Required, Suffix;
    var n := |p.recentMessages|;
    var suffix := Suffix(p, k, n);
    SuffixPlaces(p, k, n);
    assert forall j | 0 <= j < |suffix| :: suffix[j] in suffix;
    assert forall j | 0 <= j < |required| :: required[j] in required;
  }

  lemma SortStrict(s: seq<Entry>)
    requires DistinctPlaces(s)
    ensures var w := Sort(s, ByIndex());
      && (forall i, j | 0 <= i < j < |w| :: w[i].index < w[j].index)
      && (forall e :: e in w <==> e in s)
  {
    SortPlaces(s);
    SortSorted(s, ByIndex());
    var w := Sort(s, ByIndex());
    assert forall i, j | 0 <= i < j < |w| :: ByIndex()(w[i], w[j]) && w[i].index != w[j].index;
  }

  lemma WindowIsSound(p: Problem, required: seq<Entry>, k: nat)
    requires k <= |p.recentMessages| && DistinctPlaces(required)
    requires forall e | e in required :: KeptForm(p, e) && Required(p, e.index)
    requires forall i: nat | Required(p, i) :: HasPlace(required, i)
    ensures SoundWindow(p, Sort(required + Suffix(p, k, |p.recentMessages|), ByIndex()), k)
  {
    hide Required, KeptForm, Sort, Suffix, DistinctPlaces, ByIndex;
    var n := |p.recentMessages|;
    var entries := required + Suffix(p, k, n);
    SuffixPlaces(p, k, n);
    DistinctWindow(p, required, k);
    SortStrict(entries);
    forall e | e in Suffix(p, k, n) ensures KeptForm(p, e) { OriginalIsKept(p, e.index); }
    var w := Sort(entries, ByIndex());
    forall i: nat | i < n ensures HasPlace(w, i) <==> Required(p, i) || k <= i {
      if Required(p, i) {
        var e :| e in required && e.index == i;
        assert e in w;
      } else if k <= i {
        assert Original(p, i) in w;
      }
    }
    assert forall e | e in w :: KeptForm(p, e);
  }

  lemma StillTooLong(p: Problem, env: Env, entries: seq<Entry>, before: seq<MemoryRecord>, after: seq<MemoryRecord>)
    requires before <= after
    ensures !Fits(p, env, entries, before) ==> !Fits(p, env, entries, after)
  {
    hide RenderMemories, CalculateTokenBudget, Materialize, WindowOf;
    var context := Materialize(WindowOf(entries), SceneOf(p));
    MemoryCostIsSeparate(context, before, p.fields, p.isGroup, env.lit);
    MemoryCostIsSeparate(context, after, p.fields, p.isGroup, env.lit);
    MemoryLayerGrows(before, after[|before|..]);
    assert before + after[|before|..] == after;
  }

  lemma SortAgain(p: Problem, env: Env, entries: seq<Entry>, e: Entry, memories: seq<MemoryRecord>)
    requires DistinctPlaces(entries) && forall x | x in entries :: x.index != e.index
    ensures Fits(p, env, Sort(entries, ByIndex()) + [e], memories) <==> Fits(p, env, entries + [e], memories)
  {
    hide Sort, Materialize, CalculateTokenBudget, MessagesOf;
    SortKeeps(entries, ByIndex());
    SortPlaces(entries);
    SortDeterministic(entries + [e], Sort(entries, ByIndex()) + [e], ByIndex());
  }

  /** Some kept message is the one asked for. */
  predicate Holds(context: Materialized, id: string) {
    exists i | 0 <= i < |context.recentMessages| :: context.recentMessages[i].messageId == id
  }

  /** The message a resolved reply reference points at. */
  predicate TargetOf(m: RecentMessage, r: ReplyReference, reply: ReplyResolution) {
    && r.Resolved?
    && Some(m.messageId) == reply.targetMessageId
    && m.messageRef == Some(r.target) && m.speakerRef == Some(r.targetSpeaker) && m.isFromBot == r.targetIsBot
  }

  /** The references of the context point at kept messages: the current one and, for a resolved reply, its target. */
  predicate LinksKept(p: Problem, context: Materialized) {
    var r := context.recentMessages;
    && (CurrentIndex(p).Some? ==> exists i | 0 <= i < |r| ::
          r[i].isCurrent && Some(r[i].messageId) == p.currentMessageId && r[i].messageRef == context.currentMessageRef)
    && (CurrentIndex(p).Some? && QuoteIndex(p).Some? ==>
          && context.replyReference.Some?
          && Some(context.replyReference.value.source) == context.currentMessageRef
          && exists i | 0 <= i < |r| :: TargetOf(r[i], context.replyReference.value, p.reply.value))
  }

  /** A located current message and a located quote target are both in the result, and linked. */
  lemma RequiredPresent(p: Problem, env: Env)
    ensures Budgeted(p, env).Ok? ==>
      var context := Budgeted(p, env).value.context; BothHeld(p, context) && LinksKept(p, context)
  {
    hide Pick, CalculateTokenBudget, OmissionFilters, Materialize, SoundOutcome, BothHeld, LinksKept, WindowOf;
    if Budgeted(p, env).Ok? {
      var o := Budgeted(p, env).value;
      SoundSelection(p, env);
      SoundHolds(p, env, o);
      Linked(p, WindowOf(Pick(p, env).value.entries), o.context);
    }
  }

  predicate BothHeld(p: Problem, context: Materialized) {
    && (CurrentIndex(p).Some? ==> Holds(context, p.currentMessageId.value))
    && (QuoteIndex(p).Some? ==> Holds(context, p.reply.value.targetMessageId.value))
  }

  lemma SoundHolds(p: Problem, env: Env, o: Outcome)
    requires SoundOutcome(p, env, o)
    ensures BothHeld(p, o.context)
  {
    hide Holds, SoundWindow, NextTooLong, Numbered, MessagesOf;
    var w, k: nat :| k <= |p.recentMessages| && SoundWindow(p, w, k)
      && o.context == Materialize(MessagesOf(w), SceneOf(p));
    if CurrentIndex(p).Some? { IsHeld(p, w, k, CurrentIndex(p).value, o.context); }
    if QuoteIndex(p).Some? { IsHeld(p, w, k, QuoteIndex(p).value, o.context); }
  }

  lemma IsHeld(p: Problem, w: seq<Entry>, k: nat, i: nat, context: Materialized)
    requires i < |p.recentMessages| && Required(p, i) && SoundWindow(p, w, k)
    requires context.recentMessages == Numbered(MessagesOf(w), SceneOf(p))
    ensures Holds(context, p.recentMessages[i].messageId)
  {
    hide CurrentIndex, QuoteIndex, Shortened;
    var e :| e in w && e.index == i;
    var j :| 0 <= j < |w| && w[j] == e;
    assert KeptForm(p, e);
    assert e.message.messageId == p.recentMessages[i].messageId by { SameId(p.recentMessages[i], e.message); }
    assert context.recentMessages[j].messageId == e.message.messageId;
  }

  lemma SameId(m: RecentMessage, x: RecentMessage)
    ensures x == m || Shortened(m, x) ==> x.messageId == m.messageId
  {
  }

  lemma Linked(p: Problem, messages: seq<RecentMessage>, context: Materialized)
    requires context == Materialize(messages, SceneOf(p)) && BothHeld(p, context)
    ensures LinksKept(p, context)
  {
    hide Keys, Participants, Distinct, SpeakerNumber, SpeakerRef, MessageRef, IdentityOf;
    if CurrentIndex(p).Some? {
      var r := context.recentMessages;
      var i :| 0 <= i < |r| && r[i].messageId == p.currentMessageId.value;
      assert r[i].isCurrent;
      assert forall i | 0 <= i < |r| :: r[i].isCurrent <==> Some(r[i].messageId) == p.currentMessageId;
      hide Numbered;
      var current := Find(r, (m: RecentMessage) => m.isCurrent).value;
      assert r[current].messageRef == context.currentMessageRef;
      if QuoteIndex(p).Some? {
        TargetLinked(r, context.currentMessageRef.value, p.reply.value);
      }
    }
  }

  lemma TargetLinked(r: seq<RecentMessage>, source: string, reply: ReplyResolution)
    requires forall m | m in r :: m.messageRef.Some? && m.speakerRef.Some?
    requires reply.resolved && reply.targetMessageId.Some?
    requires exists j | 0 <= j < |r| :: r[j].messageId == reply.targetMessageId.value
    ensures ReplyReferenceOf(r, source, reply).Resolved?
    ensures var t := ReplyReferenceOf(r, source, reply);
      && t.source == source
      && exists i | 0 <= i < |r| :: TargetOf(r[i], t, reply)
  {
    var at := Find(r, (m: RecentMessage) => m.messageId == reply.targetMessageId.value);
    assert at.Some?;
    assert TargetOf(r[at.value], ReplyReferenceOf(r, source, reply), reply);
  }

  // ---------------------------------------------------------------- what becomes of the memories

  predicate Covers(memories: seq<MemoryRecord>, rejected: seq<string>, m: MemoryRecord) {
    m in memories || m.id in rejected
  }

  /** One pass disposes of every memory offered, once; nothing else is added. */
  lemma {:induction false} PassDisposes(
    p: Problem, env: Env, entries: seq<Entry>, offered: seq<MemoryRecord>,
    selected: seq<MemoryRecord>, rejected: seq<string>)
    requires DistinctIds(selected + offered)
    requires forall m | m in selected + offered :: m.id !in rejected
    ensures var (s, r) := TakeMemories(p, env, entries, offered, selected, rejected);
      && (forall m | m in offered :: Covers(s, r, m))
      && (forall m | m in s :: m in selected + offered)
      && (forall id | id in r :: id in rejected || exists m :: m in offered && m.id == id)
      && DistinctIds(s)
      && (forall m | m in s :: m.id !in r)
      && |s| + |r| == |selected| + |rejected| + |offered|
    decreases |offered|
  {
    hide Fits, DistinctIds;
    if offered == [] {
      assert selected + offered == selected;
    } else {
      var m, rest := offered[0], offered[1..];
      assert offered == [m] + rest && m in offered;
      var (s, r) := TakeMemories(p, env, entries, offered, selected, rejected);
      if Fits(p, env, entries, selected + [m]) {
        assert selected + [m] + rest == selected + offered;
        PassDisposes(p, env, entries, rest, selected + [m], rejected);
        InPrefix(selected + [m], s, m);
      } else {
        DropOffered(selected, m, rest);
        PassDisposes(p, env, entries, rest, selected, Reject(rejected, m.id));
        InPrefix(Reject(rejected, m.id), r, m.id);
      }
    }
  }

  lemma DropOffered(selected: seq<MemoryRecord>, m: MemoryRecord, rest: seq<MemoryRecord>)
    requires DistinctIds(selected + ([m] + rest))
    ensures DistinctIds(selected + rest)
    ensures forall x | x in selected + rest :: x.id != m.id && x in selected + ([m] + rest)
  {
    var all, few := selected + ([m] + rest), selected + rest;
    assert all[|selected|] == m;
    forall i | 0 <= i < |few| ensures few[i] == all[if i < |selected| then i else i + 1] {}
    forall i | 0 <= i < |few| ensures few[i].id != m.id {}
  }

  lemma ProfilesBelong(memories: seq<MemoryRecord>, scope: Scope, locale: Locale)
    ensures |SelectProfile(memories, scope, locale)| <= 1
    ensures forall m | m in SelectProfile(memories, scope, locale) :: m in memories && IsProfile(m, scope)
  {
    var f := Filter(memories, m => IsProfile(m, scope));
    SortKeeps(f, ByProfile(locale));
    var s := Sort(f, ByProfile(locale));
    if s != [] {
      assert s[0] in multiset(f);
      FilterElements(memories, m => IsProfile(m, scope), s[0]);
    }
  }

  lemma {:induction false} DistinctCount(s: seq<MemoryRecord>, m: MemoryRecord)
    requires DistinctIds(s)
    ensures multiset(s)[m] == if m in s then 1 else 0
  {
    if s != [] {
      assert s == [s[0]] + s[1..];
      DistinctCount(s[1..], m);
      assert s[0] !in s[1..];
    }
  }

  lemma PermutationDistinct(s: seq<MemoryRecord>, t: seq<MemoryRecord>)
    requires DistinctIds(s) && multiset(s) == multiset(t)
    ensures DistinctIds(t)
  {
    forall i, j | 0 <= i < j < |t| ensures t[i].id != t[j].id {
      DistinctCount(s, t[i]);
      NoTies(s, s);
      assert t == t[..j] + [t[j]] + t[j + 1..];
      assert t[..j][i] == t[i];
      assert t[i] in multiset(s) && t[j] in multiset(s);
    }
  }

  lemma ProfilesDistinct(p: Problem, env: Env)
    requires DistinctIds(p.memories)
    ensures DistinctIds(PriorityProfiles(p.memories, env.locale))
    ensures forall m | m in PriorityProfiles(p.memories, env.locale) :: m in p.memories
  {
    hide SelectProfile;
    ProfilesBelong(p.memories, UserScope, env.locale);
    ProfilesBelong(p.memories, GroupScope, env.locale);
    NoTies(p.memories, p.memories);
  }

  /** What is offered: every memory, once. */
  lemma OfferedAll(p: Problem, env: Env)
    requires DistinctIds(p.memories)
    ensures var offered := PriorityProfiles(p.memories, env.locale) + OtherMemories(p, env);
      multiset(offered) == multiset(p.memories) && DistinctIds(offered) && |offered| == |p.memories|
  {
    var profiles, others := PriorityProfiles(p.memories, env.locale), OtherMemories(p, env);
    forall m: MemoryRecord ensures multiset(profiles + others)[m] == multiset(p.memories)[m] {
      OfferedCount(p, env, m);
    }
    assert multiset(profiles + others) == multiset(p.memories);
    PermutationDistinct(p.memories, profiles + others);
    assert |multiset(profiles + others)| == |multiset(p.memories)|;
  }

  lemma OfferedCount(p: Problem, env: Env, m: MemoryRecord)
    requires DistinctIds(p.memories)
    ensures multiset(PriorityProfiles(p.memories, env.locale) + OtherMemories(p, env))[m] == multiset(p.memories)[m]
  {
    hide SelectProfile, PriorityProfiles, Sort, Filter, DistinctIds;
    var profiles := PriorityProfiles(p.memories, env.locale);
    var ids := Ids(profiles);
    ProfilesDistinct(p, env);
    DistinctCount(profiles, m);
    DistinctCount(p.memories, m);
    NoTies(p.memories, p.memories);
    var rest := Without(p.memories, ids);
    var leq := ByRanking(p.rankings, env.locale);
    SortKeeps(rest, leq);
    FilterCounts(p.memories, OtherThan(ids), m);
    FilterCounts(profiles + Sort(rest, leq), OtherThan(ids), m);
    assert multiset(profiles + Sort(rest, leq))[m] == multiset(profiles)[m] + multiset(rest)[m];
  }

  lemma {:induction false} RestNothing(memories: seq<MemoryRecord>, selected: set<string>, rejected: seq<string>)
    requires forall m | m in memories :: m.id in selected || m.id in rejected
    ensures RejectRest(memories, selected, rejected) == rejected
    decreases |memories|
  {
    if memories != [] { RestNothing(memories[1..], selected, rejected); }
  }

  /** With distinct ids every memory is kept or refused, never both, each once: nothing is lost or invented. */
  lemma MemoriesDisposed(p: Problem, env: Env)
    requires DistinctIds(p.memories)
    ensures Budgeted(p, env).Ok? ==>
      var o := Budgeted(p, env).value; Disposed(p.memories, o.memories, o.rejected)
  {
    hide FillUp, RetainCurrent, RetainQuote, CalculateTokenBudget, Materialize, RequiredKept, OmissionFilters, WindowOf,
         DistinctIds, Disposed;
    if Budgeted(p, env).Ok? {
      Parts(p, env);
      FillUpDisposes(p, env, RetainQuote(p, env, RetainCurrent(p, env).value).value);
    }
  }

  /** Each memory is selected or its id rejected, never both; nothing else is; and the counts add up. */
  ghost predicate Disposed(all: seq<MemoryRecord>, memories: seq<MemoryRecord>, rejected: seq<string>) {
    && (forall m | m in all :: Covers(memories, rejected, m))
    && (forall m | m in memories :: m in all && m.id !in rejected)
    && (forall id | id in rejected :: exists m :: m in all && m.id == id)
    && DistinctIds(memories)
    && |memories| + |rejected| == |all|
  }

  lemma TwoPasses(
    p: Problem, env: Env, first: seq<Entry>, second: seq<Entry>, profiles: seq<MemoryRecord>, others: seq<MemoryRecord>)
    requires DistinctIds(profiles + others)
    ensures var (kept, refused) := TakeMemories(p, env, first, profiles, [], []);
      var (memories, rejected) := TakeMemories(p, env, second, others, kept, refused);
      Disposed(profiles + others, memories, rejected)
  {
    hide Fits, TakeMemories, DistinctIds, Covers;
    OfferedParts(profiles, others);
    assert [] + profiles == profiles;
    PassDisposes(p, env, first, profiles, [], []);
    var (kept, refused) := TakeMemories(p, env, first, profiles, [], []);
    SecondPass(kept, refused, profiles, others);
    PassDisposes(p, env, second, others, kept, refused);
    var (memories, rejected) := TakeMemories(p, env, second, others, kept, refused);
    forall m | m in profiles ensures Covers(memories, rejected, m) {
      CoversMore(kept, refused, memories, rejected, m);
    }
  }

  lemma CoversMore(
    kept: seq<MemoryRecord>, refused: seq<string>, memories: seq<MemoryRecord>, rejected: seq<string>, m: MemoryRecord)
    requires kept <= memories && refused <= rejected && Covers(kept, refused, m)
    ensures Covers(memories, rejected, m)
  {
    if m in kept { InPrefix(kept, memories, m); } else { InPrefix(refused, rejected, m.id); }
  }

  lemma FillUpDisposes(p: Problem, env: Env, s: Stage)
    requires DistinctIds(p.memories)
    ensures Disposed(p.memories, FillUp(p, env, s).memories, FillUp(p, env, s).rejected)
    ensures var x := FillUp(p, env, s);
      var (kept, refused) := TakeMemories(p, env, s.entries, PriorityProfiles(p.memories, env.locale), [], []);
      x.rejected == TakeMemories(p, env, x.entries, OtherMemories(p, env), kept, refused).1
  {
    hide Fits, TakeRecent, TakeMemories, RejectRest, OrderMemories, PriorityProfiles, Without, DistinctIds, Disposed;
    var profiles, others := PriorityProfiles(p.memories, env.locale), OtherMemories(p, env);
    OfferedAll(p, env);
    var (kept, refused) := TakeMemories(p, env, s.entries, profiles, [], []);
    var entries := TakeRecent(p, env, s.entries, kept, |p.recentMessages|);
    var (memories, rejected) := TakeMemories(p, env, entries, others, kept, refused);
    TwoPasses(p, env, s.entries, entries, profiles, others);
    DisposedAlike(profiles + others, p.memories, memories, rejected);
    NothingLeft(p.memories, memories, rejected);
    assert FillUp(p, env, s).memories == memories && FillUp(p, env, s).rejected == rejected;
  }

  lemma DisposedAlike(s: seq<MemoryRecord>, t: seq<MemoryRecord>, memories: seq<MemoryRecord>, rejected: seq<string>)
    requires multiset(s) == multiset(t) && |s| == |t| && Disposed(s, memories, rejected)
    ensures Disposed(t, memories, rejected)
  {
    hide DistinctIds, Covers;
    assert forall m :: m in s <==> m in multiset(s);
    assert forall m :: m in t <==> m in multiset(t);
  }

  lemma NothingLeft(all: seq<MemoryRecord>, memories: seq<MemoryRecord>, rejected: seq<string>)
    requires Disposed(all, memories, rejected)
    ensures RejectRest(all, Ids(memories), rejected) == rejected
  {
    forall m | m in all ensures m.id in Ids(memories) || m.id in rejected { assert Covers(memories, rejected, m); }
    RestNothing(all, Ids(memories), rejected);
  }

  lemma OfferedParts(profiles: seq<MemoryRecord>, others: seq<MemoryRecord>)
    requires DistinctIds(profiles + others)
    ensures DistinctIds(profiles)
  {
    var offered := profiles + others;
    assert forall i | 0 <= i < |profiles| :: profiles[i] == offered[i];
  }

  lemma SecondPass(kept: seq<MemoryRecord>, refused: seq<string>, profiles: seq<MemoryRecord>, others: seq<MemoryRecord>)
    requires DistinctIds(profiles + others) && DistinctIds(kept)
    requires forall m | m in kept :: m in profiles && m.id !in refused
    requires forall id | id in refused :: exists m :: m in profiles && m.id == id
    ensures DistinctIds(kept + others)
    ensures forall m | m in kept + others :: m.id !in refused
  {
    var offered := profiles + others;
    forall a, b | a in profiles && b in others ensures a.id != b.id {
      var i :| 0 <= i < |profiles| && profiles[i] == a;
      var j :| 0 <= j < |others| && others[j] == b;
      assert offered[i] == a && offered[|profiles| + j] == b;
    }
    forall i, j | 0 <= i < j < |others| ensures others[i].id != others[j].id {
      assert offered[|profiles| + i] == others[i] && offered[|profiles| + j] == others[j];
    }
    var all := kept + others;
    forall i, j | 0 <= i < j < |all| ensures all[i].id != all[j].id {
      if i < |kept| { assert all[i] in profiles; }
    }
  }

  // ---------------------------------------------------------------- refusals stay justified

  /** The memory was refused beside `s`, which the pass had selected by then. */
  predicate RefusedBeside(p: Problem, env: Env, entries: seq<Entry>, m: MemoryRecord, s: seq<MemoryRecord>) {
    !Fits(p, env, entries, s + [m])
  }

  lemma {:induction false} PassRefuses(
    p: Problem, env: Env, entries: seq<Entry>, offered: seq<MemoryRecord>,
    selected: seq<MemoryRecord>, rejected: seq<string>, m: MemoryRecord)
    returns (s: seq<MemoryRecord>)
    ensures var r := TakeMemories(p, env, entries, offered, selected, rejected).0;
      m in offered && m !in r ==> selected <= s <= r && RefusedBeside(p, env, entries, m, s)
    decreases |offered|
  {
    hide Fits, Reject;
    var r := TakeMemories(p, env, entries, offered, selected, rejected).0;
    if m !in offered || m in r { return selected; }
    var x, rest := offered[0], offered[1..];
    if Fits(p, env, entries, selected + [x]) {
      assert m != x by {
        if m == x { InPrefix(selected + [x], r, m); assert false; }
      }
      s := PassRefuses(p, env, entries, rest, selected + [x], rejected, m);
    } else if m == x {
      s := selected;
    } else {
      s := PassRefuses(p, env, entries, rest, selected, Reject(rejected, x.id), m);
    }
  }

  /** How much less a refused memory may cost at the end: its own profile section, if the scope had none and
      another memory has opened it since. */
  function Slack(kept: seq<MemoryRecord>, all: seq<MemoryRecord>, m: MemoryRecord): nat {
    (SectionSize(kept, all, m) + 1) / 2
  }

  lemma CostAtTheEnd(
    p: Problem, env: Env, entries: seq<Entry>, kept: seq<MemoryRecord>, s: seq<MemoryRecord>,
    all: seq<MemoryRecord>, m: MemoryRecord)
    ensures kept <= s <= all && RefusedBeside(p, env, entries, m, s) ==>
      BudgetOf(p, env, entries, all + [m]).used + Slack(kept, all, m) > MAX_TOKENS
  {
    hide RenderMemories, CalculateTokenBudget, Materialize, WindowOf, SectionSize;
    if kept <= s <= all {
      var context := Materialize(WindowOf(entries), SceneOf(p));
      MemoryCostIsSeparate(context, s + [m], p.fields, p.isGroup, env.lit);
      MemoryCostIsSeparate(context, all + [m], p.fields, p.isGroup, env.lit);
      MemoryLayerGrowsWith(s, all[|s|..], m);
      assert s + all[|s|..] == all;
      LessSection(kept, s, all, m);
    }
  }

  lemma LessSection(a: seq<MemoryRecord>, b: seq<MemoryRecord>, all: seq<MemoryRecord>, m: MemoryRecord)
    requires a <= b
    ensures SectionSize(b, all, m) <= SectionSize(a, all, m)
  {
    HasProfileMore(a, b[|a|..], m.scope);
    assert a + b[|a|..] == b;
  }

  /** The memory was offered in the last pass and is not in the final selection. */
  predicate RefusedLast(p: Problem, env: Env, m: MemoryRecord) {
    && m in p.memories && m.id !in Ids(PriorityProfiles(p.memories, env.locale))
    && Pick(p, env).Ok? && m !in Pick(p, env).value.memories
  }

  /** The priority profiles kept in the first pass, if the selection gets there. */
  function FirstPass(p: Problem, env: Env): seq<MemoryRecord> {
    match RetainCurrent(p, env)
    case Err(_) => []
    case Ok(first) =>
      match RetainQuote(p, env, first)
      case Err(_) => []
      case Ok(s) => ProfilesKept(p, env, s.entries)
  }

  /** A memory refused in the last pass still exceeds the cap beside the final selection, give or take the
      profile section it would have opened; and there is something to give only for a summary of the user or the
      group whose section was empty after the first pass and has been taken by another summary since. */
  lemma RefusalStaysJustified(p: Problem, env: Env, m: MemoryRecord)
    ensures RefusedLast(p, env, m) ==>
      var x := Pick(p, env).value;
      BudgetOf(p, env, x.entries, x.memories + [m]).used + Slack(FirstPass(p, env), x.memories, m) > MAX_TOKENS
  {
    hide FillUp, RetainCurrent, RetainQuote, BudgetOf, RequiredKept, TakeMemories, Without, PriorityProfiles,
         OrderMemories, HasProfile, Ids, Slack;
    if RefusedLast(p, env, m) {
      Parts(p, env);
      var s := RetainQuote(p, env, RetainCurrent(p, env).value).value;
      var profiles := PriorityProfiles(p.memories, env.locale);
      var (kept, refused) := TakeMemories(p, env, s.entries, profiles, [], []);
      FillUpSecond(p, env, s);
      var x := FillUp(p, env, s);
      OfferedLast(p, env, m);
      var beside := PassRefuses(p, env, x.entries, OtherMemories(p, env), kept, refused, m);
      CostAtTheEnd(p, env, x.entries, kept, beside, x.memories, m);
    }
  }

  // ---------------------------------------------------------------- when every refusal stays justified

  lemma {:induction false} PassFrom(
    p: Problem, env: Env, entries: seq<Entry>, offered: seq<MemoryRecord>,
    selected: seq<MemoryRecord>, rejected: seq<string>, x: MemoryRecord)
    ensures x in TakeMemories(p, env, entries, offered, selected, rejected).0 ==> x in selected || x in offered
    decreases |offered|
  {
    hide Fits, Reject;
    if offered != [] {
      PassFrom(p, env, entries, offered[1..], selected + [offered[0]], rejected, x);
      PassFrom(p, env, entries, offered[1..], selected, Reject(rejected, offered[0].id), x);
    }
  }

  /** What the final selection is made of: kept priority profiles, and memories with other ids. */
  lemma FinalFrom(p: Problem, env: Env, s: Stage, x: MemoryRecord)
    ensures x in FillUp(p, env, s).memories ==>
      || (x in ProfilesKept(p, env, s.entries) && x in PriorityProfiles(p.memories, env.locale))
      || (x in p.memories && x.id !in Ids(PriorityProfiles(p.memories, env.locale)))
  {
    hide Fits, TakeMemories, PriorityProfiles, Without, Ids, RejectRest, TakeRecent, Reject;
    var profiles := PriorityProfiles(p.memories, env.locale);
    var (kept, refused) := TakeMemories(p, env, s.entries, profiles, [], []);
    FillUpSecond(p, env, s);
    PassFrom(p, env, s.entries, profiles, [], [], x);
    PassFrom(p, env, FillUp(p, env, s).entries, OtherMemories(p, env), kept, refused, x);
    OthersFrom(p, env, x);
  }

  lemma OthersFrom(p: Problem, env: Env, x: MemoryRecord)
    ensures x in OtherMemories(p, env) ==> x in p.memories && x.id !in Ids(PriorityProfiles(p.memories, env.locale))
  {
    hide PriorityProfiles, Sort, Filter;
    var profiles := PriorityProfiles(p.memories, env.locale);
    var ids := Ids(profiles);
    var rest := Without(p.memories, ids);
    FilterElements(OrderMemories(p.memories, p.rankings, env.locale), OtherThan(ids), x);
    FilterElements(p.memories, OtherThan(ids), x);
    SortKeeps(rest, ByRanking(p.rankings, env.locale));
    assert x in Sort(rest, ByRanking(p.rankings, env.locale)) ==> x in multiset(rest);
  }

  function Summaries(p: Problem, scope: Scope): seq<MemoryRecord> {
    Filter(p.memories, m => IsProfile(m, scope))
  }

  /** At most `n` summaries of the user and at most `n` of the group. */
  predicate AtMostSummaries(p: Problem, n: nat) {
    |Summaries(p, UserScope)| <= n && |Summaries(p, GroupScope)| <= n
  }

  lemma SummaryIn(p: Problem, scope: Scope, m: MemoryRecord)
    ensures m in Summaries(p, scope) <==> m in p.memories && IsProfile(m, scope)
  {
    FilterElements(p.memories, m => IsProfile(m, scope), m);
  }

  lemma ThreeElements<T>(s: seq<T>, a: T, b: T, c: T)
    requires a in s && b in s && c in s && a != b && b != c && a != c
    ensures |s| >= 3
  {
    var i :| 0 <= i < |s| && s[i] == a;
    var j :| 0 <= j < |s| && s[j] == b;
    var k :| 0 <= k < |s| && s[k] == c;
  }

  /** The scope's priority profile exists when it has a summary. */
  lemma PriorityExists(p: Problem, locale: Locale, scope: Scope, m: MemoryRecord) returns (best: MemoryRecord)
    requires m in p.memories && IsProfile(m, scope) && (scope == UserScope || scope == GroupScope)
    ensures best in PriorityProfiles(p.memories, locale) && best in p.memories && IsProfile(best, scope)
    ensures forall x | x in PriorityProfiles(p.memories, locale) && x.scope == scope :: x == best
  {
    SummaryIn(p, scope, m);
    SortKeeps(Summaries(p, scope), ByProfile(locale));
    ProfilesBelong(p.memories, UserScope, locale);
    ProfilesBelong(p.memories, GroupScope, locale);
    best := SelectProfile(p.memories, scope, locale)[0];
  }

  /** With at most two summaries of a scope, a refused one finds the section either kept from the first pass or
      empty to the end. */
  lemma SectionNotTaken(p: Problem, env: Env, s: Stage, m: MemoryRecord)
    requires m in p.memories && m.id !in Ids(PriorityProfiles(p.memories, env.locale)) && AtMostSummaries(p, 2)
    ensures m !in FillUp(p, env, s).memories ==>
      Slack(ProfilesKept(p, env, s.entries), FillUp(p, env, s).memories, m) == 0
  {
    hide FillUp, ProfilesKept, PriorityProfiles, Summaries;
    var scope, kept, all := m.scope, ProfilesKept(p, env, s.entries), FillUp(p, env, s).memories;
    if m !in all && SectionSize(kept, all, m) > 0 {
      var best := PriorityExists(p, env.locale, scope, m);
      var x :| x in all && IsProfile(x, scope);
      FinalFrom(p, env, s, x);
      assert best !in kept;
      SummaryIn(p, scope, m);
      SummaryIn(p, scope, best);
      SummaryIn(p, scope, x);
      ThreeElements(Summaries(p, scope), m, best, x);
      assert false;
    }
  }

  /** Every memory refused in the last pass still exceeds the cap beside the final selection. */
  ghost predicate Justified(p: Problem, env: Env) {
    forall m | RefusedLast(p, env, m) ::
      !Fits(p, env, Pick(p, env).value.entries, Pick(p, env).value.memories + [m])
  }

  /** Two summaries per scope are safe, whatever else the memories are. */
  lemma TwoSummariesJustified(p: Problem, env: Env)
    requires AtMostSummaries(p, 2)
    ensures Justified(p, env)
  {
    hide Pick, RetainCurrent, RetainQuote, FillUp, ProfilesKept, BudgetOf, AtMostSummaries, PriorityProfiles, Slack,
         RequiredKept;
    forall m | RefusedLast(p, env, m)
      ensures !Fits(p, env, Pick(p, env).value.entries, Pick(p, env).value.memories + [m])
    {
      RefusalStaysJustified(p, env, m);
      Parts(p, env);
      SectionNotTaken(p, env, RetainQuote(p, env, RetainCurrent(p, env).value).value, m);
    }
  }

  lemma FillUpSecond(p: Problem, env: Env, s: Stage)
    ensures var x := FillUp(p, env, s);
      var (kept, refused) := TakeMemories(p, env, s.entries, PriorityProfiles(p.memories, env.locale), [], []);
      x.memories == TakeMemories(p, env, x.entries, OtherMemories(p, env), kept, refused).0
  {
    hide Fits, TakeRecent, TakeMemories, RejectRest, OrderMemories, PriorityProfiles, Without;
  }

  lemma OfferedLast(p: Problem, env: Env, m: MemoryRecord)
    requires m in p.memories && m.id !in Ids(PriorityProfiles(p.memories, env.locale))
    ensures m in OtherMemories(p, env)
  {
    hide PriorityProfiles, Sort, Filter;
    var ids := Ids(PriorityProfiles(p.memories, env.locale));
    var rest := Without(p.memories, ids);
    FilterElements(p.memories, OtherThan(ids), m);
    SortKeeps(rest, ByRanking(p.rankings, env.locale));
    assert m in multiset(Sort(rest, ByRanking(p.rankings, env.locale)));
    FilterElements(OrderMemories(p.memories, p.rankings, env.locale), OtherThan(ids), m);
  }

  // ---------------------------------------------------------------- the store's order does not matter

  lemma {:induction false} PassIgnoresStore(
    p: Problem, q: Problem, env: Env, entries: seq<Entry>, offered: seq<MemoryRecord>,
    selected: seq<MemoryRecord>, rejected: seq<string>)
    requires q == p.(memories := q.memories)
    ensures TakeMemories(p, env, entries, offered, selected, rejected)
         == TakeMemories(q, env, entries, offered, selected, rejected)
    decreases |offered|
  {
    if offered != [] {
      assert Fits(p, env, entries, selected + [offered[0]]) == Fits(q, env, entries, selected + [offered[0]]);
      hide Fits, Reject;
      PassIgnoresStore(p, q, env, entries, offered[1..], selected + [offered[0]], rejected);
      PassIgnoresStore(p, q, env, entries, offered[1..], selected, Reject(rejected, offered[0].id));
    }
  }

  lemma {:induction false} RecentIgnoresStore(
    p: Problem, q: Problem, env: Env, entries: seq<Entry>, memories: seq<MemoryRecord>, n: nat)
    requires q == p.(memories := q.memories) && n <= |p.recentMessages|
    ensures TakeRecent(p, env, entries, memories, n) == TakeRecent(q, env, entries, memories, n)
    decreases n
  {
    hide *;
    if n == 0 {
      RecentDone(p, env, entries, memories);
      RecentDone(q, env, entries, memories);
    } else {
      var more := entries + [Original(p, n - 1)];
      SameTests(p, q, env, more, memories, n - 1);
      RecentStep(p, env, entries, memories, n);
      RecentStep(q, env, entries, memories, n);
      RecentIgnoresStore(p, q, env, entries, memories, n - 1);
      RecentIgnoresStore(p, q, env, more, memories, n - 1);
    }
  }

  lemma SameTests(p: Problem, q: Problem, env: Env, entries: seq<Entry>, memories: seq<MemoryRecord>, i: nat)
    requires q == p.(memories := q.memories) && i < |p.recentMessages|
    ensures BudgetOf(p, env, entries, memories) == BudgetOf(q, env, entries, memories)
    ensures Required(p, i) == Required(q, i) && Original(p, i) == Original(q, i)
    ensures CurrentIndex(p) == CurrentIndex(q) && QuoteIndex(p) == QuoteIndex(q)
  {
    hide Materialize, CalculateTokenBudget, WindowOf;
  }

  lemma {:induction false} LongestFitSame(m: RecentMessage, f: RecentMessage -> bool, g: RecentMessage -> bool, n: nat)
    requires n <= TextLength(m) && forall x :: f(x) == g(x)
    ensures LongestFit(m, f, n) == LongestFit(m, g, n)
  {
    hide Cut;
    if n > 0 { LongestFitSame(m, f, g, n - 1); }
  }

  lemma SameFits(p: Problem, q: Problem, env: Env)
    requires q == p.(memories := q.memories)
    ensures CurrentIndex(p) == CurrentIndex(q) && QuoteIndex(p) == QuoteIndex(q)
    ensures forall entries, memories :: Fits(p, env, entries, memories) == Fits(q, env, entries, memories)
  {
    hide Materialize, CalculateTokenBudget, WindowOf;
  }

  lemma CutIgnoresStore(p: Problem, q: Problem, env: Env, entries: seq<Entry>, i: nat, m: RecentMessage)
    requires q == p.(memories := q.memories)
    ensures LongestFit(m, FitsAt(p, env, entries, i), TextLength(m))
         == LongestFit(m, FitsAt(q, env, entries, i), TextLength(m))
  {
    SameFits(p, q, env);
    hide Fits, LongestFit, Cut, TextLength;
    LongestFitSame(m, FitsAt(p, env, entries, i), FitsAt(q, env, entries, i), TextLength(m));
  }

  lemma CurrentStep(p: Problem, env: Env, i: nat)
    requires CurrentIndex(p) == Some(i)
    ensures RetainCurrent(p, env) ==
      if BudgetOf(p, env, [], []).used > MAX_TOKENS then Err(FixedLayers)
      else if BudgetOf(p, env, [Original(p, i)], []).used <= MAX_TOKENS then Ok(Stage([Original(p, i)], []))
      else
        var t := LongestFit(p.recentMessages[i], FitsAt(p, env, [], i), TextLength(p.recentMessages[i]));
        if t.None? then Err(CurrentTooLong) else Ok(Stage([Entry(i, t.value)], [CURRENT_CUT]))
  {
    hide BudgetOf, LongestFit, FitsAt, TextLength, CurrentIndex;
  }

  lemma CurrentIgnoresStore(p: Problem, q: Problem, env: Env)
    requires q == p.(memories := q.memories)
    ensures RetainCurrent(p, env) == RetainCurrent(q, env)
  {
    SameFits(p, q, env);
    if CurrentIndex(p).Some? {
      var i := CurrentIndex(p).value;
      SameTests(p, q, env, [], [], i);
      SameTests(p, q, env, [Original(p, i)], [], i);
      hide *;
      CurrentStep(p, env, i);
      CurrentStep(q, env, i);
      CutIgnoresStore(p, q, env, [], i, p.recentMessages[i]);
    } else {
      hide BudgetOf, LongestFit, FitsAt, TextLength, CurrentIndex;
    }
  }

  lemma QuoteStep(p: Problem, env: Env, s: Stage, i: nat)
    requires QuoteIndex(p) == Some(i)
    ensures RetainQuote(p, env, s) ==
      var m := p.recentMessages[i];
      if CurrentIndex(p) == Some(i) then Ok(s)
      else if BudgetOf(p, env, s.entries + [Original(p, i)], []).used <= MAX_TOKENS then
        Ok(s.(entries := s.entries + [Original(p, i)]))
      else
        var t := LongestFit(m, FitsAt(p, env, s.entries, i), TextLength(m));
        if t.Some? then Ok(Stage(s.entries + [Entry(i, t.value)], s.filters + [QUOTE_CUT]))
        else ShrinkCurrent(p, env, s, i)
  {
    hide BudgetOf, LongestFit, FitsAt, TextLength, ShrinkCurrent, CurrentIndex, QuoteIndex;
  }

  lemma QuoteIgnoresStore(p: Problem, q: Problem, env: Env, s: Stage)
    requires q == p.(memories := q.memories)
    ensures RetainQuote(p, env, s) == RetainQuote(q, env, s)
  {
    assert CurrentIndex(p) == CurrentIndex(q) && QuoteIndex(p) == QuoteIndex(q);
    if QuoteIndex(p).Some? {
      var i := QuoteIndex(p).value;
      SameTests(p, q, env, s.entries + [Original(p, i)], [], i);
      hide *;
      CutIgnoresStore(p, q, env, s.entries, i, p.recentMessages[i]);
      ShrinkIgnoresStore(p, q, env, s, i);
      QuoteStep(p, env, s, i);
      QuoteStep(q, env, s, i);
    }
  }

  lemma ShrinkIgnoresStore(p: Problem, q: Problem, env: Env, s: Stage, i: nat)
    requires q == p.(memories := q.memories) && i < |p.recentMessages|
    ensures ShrinkCurrent(p, env, s, i) == ShrinkCurrent(q, env, s, i)
  {
    SameFits(p, q, env);
    hide Fits, CurrentIndex, QuoteIndex, LongestFit, Cut, TextLength, MinimalTarget, WithFilter;
    var here := (e: Entry) => CurrentIndex(p) == Some(e.index);
    var there := (e: Entry) => CurrentIndex(q) == Some(e.index);
    SameFind(s.entries, here, s.entries, there);
    var place := Find(s.entries, here);
    if place.Some? {
      var k := place.value;
      var current, target := s.entries[k], Entry(i, MinimalTarget(p.recentMessages[i]));
      var others := s.entries[..k] + s.entries[k + 1..];
      LongestFitSame(current.message, FitsBefore(p, env, others, current.index, target),
        FitsBefore(q, env, others, current.index, target), TextLength(current.message));
    }
  }

  lemma FillUpIgnoresStore(p: Problem, q: Problem, env: Env, s: Stage)
    requires q == p.(memories := q.memories)
    requires ConsistentLocale(env.locale) && TieFreeIds(env.locale, p.memories)
    requires DistinctIds(p.memories) && multiset(p.memories) == multiset(q.memories)
    ensures FillUp(p, env, s) == FillUp(q, env, s)
  {
    hide Fits, TakeRecent, TakeMemories, RejectRest, Without, DistinctIds, Disposed, SelectProfile, OrderMemories, Ids,
         ConsistentLocale, TieFreeIds;
    PermutationDistinct(p.memories, q.memories);
    NoTies(p.memories, p.memories);
    SelectDeterministic(p.memories, q.memories, UserScope, env.locale);
    SelectDeterministic(p.memories, q.memories, GroupScope, env.locale);
    OrderDeterministic(p.memories, q.memories, p.rankings, env.locale);
    var profiles := PriorityProfiles(p.memories, env.locale);
    assert profiles == PriorityProfiles(q.memories, env.locale);
    hide PriorityProfiles;
    FillUpDisposes(p, env, s);
    FillUpDisposes(q, env, s);
    PassIgnoresStore(p, q, env, s.entries, profiles, [], []);
    var (kept, refused) := TakeMemories(p, env, s.entries, profiles, [], []);
    RecentIgnoresStore(p, q, env, s.entries, kept, |p.recentMessages|);
    var entries := TakeRecent(p, env, s.entries, kept, |p.recentMessages|);
    PassIgnoresStore(p, q, env, entries, OtherMemories(p, env), kept, refused);
    FillUpSecond(p, env, s);
    FillUpSecond(q, env, s);
    assert FillUp(p, env, s).entries == entries && FillUp(q, env, s).entries == entries;
  }

  /** The result does not depend on the order in which the store lists the memories. */
  lemma BudgetIgnoresStoreOrder(p: Problem, q: Problem, env: Env)
    requires q == p.(memories := q.memories)
    requires ConsistentLocale(env.locale) && TieFreeIds(env.locale, p.memories)
    requires DistinctIds(p.memories) && multiset(p.memories) == multiset(q.memories)
    ensures Budgeted(p, env) == Budgeted(q, env)
  {
    hide RetainCurrent, RetainQuote, FillUp, Materialize, CalculateTokenBudget, OmissionFilters, WindowOf,
         ConsistentLocale, TieFreeIds, DistinctIds;
    CurrentIgnoresStore(p, q, env);
    if RetainCurrent(p, env).Ok? { QuoteIgnoresStore(p, q, env, RetainCurrent(p, env).value); }
    if RetainCurrent(p, env).Ok? && RetainQuote(p, env, RetainCurrent(p, env).value).Ok? {
      var s := RetainQuote(p, env, RetainCurrent(p, env).value).value;
      FillUpIgnoresStore(p, q, env, s);
      OmissionsIgnoreStore(p, q, Materialize(WindowOf(FillUp(p, env, s).entries), SceneOf(p)));
    }
  }

  lemma OmissionsIgnoreStore(p: Problem, q: Problem, context: Materialized)
    requires q == p.(memories := q.memories)
    ensures OmissionFilters(p, context) == OmissionFilters(q, context)
  {
  }

  // ---------------------------------------------------------------- a refusal that does not stay justified

  function Profile(id: string, contentLength: nat, importance: real): MemoryRecord {
    MemoryRecord(id, UserScope, Summary, "", seq(contentLength, _ => 'x'), importance, importance, 0, 0)
  }

  const LONG := Profile("1", 8000, 0.9)
  const LATER := Profile("2", 8000, 0.5)
  const SHORT := Profile("3", 0, 0.1)

  const FIELDS := [
    IdentityField("conversation_id", "c1"),
    IdentityField("conversation_type", "private"),
    IdentityField("target_user_ref", "u1")]

  function ByScope(): Ranking {
    Ranking({}, false, SameUser, None, None)
  }

  function ThreeRankings(): Rankings {
    map["1" := ByScope(), "2" := ByScope(), "3" := ByScope()]
  }

  /** A private conversation with a known user, who has three summaries, found by scope alone. */
  function ThreeProfiles(): Problem {
    Problem([], [LONG, LATER, SHORT], FIELDS, [], false, None, None, map[], ThreeRankings())
  }

  /** The literals of the field values are of ordinary length. */
  predicate PlainLiterals(env: Env) {
    |env.lit("c1")| <= 100 && |env.lit("private")| <= 100 && |env.lit("u1")| <= 100
  }

  lemma {:induction false} OneProfileSize(m: MemoryRecord)
    requires IsProfile(m, UserScope) && m.title == ""
    ensures |RenderMemories([m])| == 45 + 2 * |m.content|
  {
    MemoriesSize([m]);
    SectionOfOne("## User Profile", m, UserScope);
    SectionOfOne("## Group Context", m, GroupScope);
    FactsSizeIs([m]);
    assert FactSizes([m]) == |FactLine(m)| + 1 + FactSizes([m][1..]);
  }

  lemma {:induction false} TwoProfilesSize(a: MemoryRecord, b: MemoryRecord)
    requires IsProfile(a, UserScope) && IsProfile(b, UserScope) && a.title == "" && b.title == ""
    ensures |RenderMemories([a, b])| == 54 + 2 * |a.content| + |b.content|
  {
    MemoriesSize([a, b]);
    assert [a, b] == [a] + [b];
    ProfileAppend("## User Profile", [a], [b], UserScope);
    ProfileAppend("## Group Context", [a], [b], GroupScope);
    assert HasProfile([a], UserScope) by { assert a in [a]; }
    SectionOfOne("## User Profile", a, UserScope);
    SectionOfOne("## Group Context", b, GroupScope);
    SectionOfOne("## Group Context", a, GroupScope);
    FactsSizeIs([a, b]);
    FactSizesAppend([a], [b]);
    assert FactSizes([a]) == |FactLine(a)| + 1 + FactSizes([a][1..]);
    assert FactSizes([b]) == |FactLine(b)| + 1 + FactSizes([b][1..]);
  }

  lemma LaterFirst(locale: Locale)
    ensures CompareRankings(LATER, SHORT, ThreeRankings(), locale) <= 0.0
    ensures CompareProfiles(LONG, LATER, locale) <= 0.0
    ensures CompareProfiles(LONG, SHORT, locale) <= 0.0
    ensures CompareProfiles(LATER, SHORT, locale) <= 0.0
  {
    var a, b := RankKey(LATER, ThreeRankings()), RankKey(SHORT, ThreeRankings());
    assert RankingOf(LATER.id, ThreeRankings()) == RankingOf(SHORT.id, ThreeRankings()) == Some(ByScope());
    assert forall i | 0 <= i < 6 :: a[i] == b[i];
    assert a[6] > b[6];
    FirstDifference(a, b, locale(LATER.id, SHORT.id), 6);
    FirstDifference(ProfileKey(LONG), ProfileKey(LATER), locale(LONG.id, LATER.id), 0);
    FirstDifference(ProfileKey(LONG), ProfileKey(SHORT), locale(LONG.id, SHORT.id), 0);
    FirstDifference(ProfileKey(LATER), ProfileKey(SHORT), locale(LATER.id, SHORT.id), 0);
  }

  lemma {:induction false} FirstDifference(a: seq<real>, b: seq<real>, tie: int, n: nat)
    requires |a| == |b| && n < |a| && a[n] > b[n] && forall i | 0 <= i < n :: a[i] == b[i]
    ensures CompareKeys(a, b, tie) <= 0.0
  {
    if n > 0 { FirstDifference(a[1..], b[1..], tie, n - 1); }
  }

  lemma ExampleOrder(locale: Locale)
    ensures var p := ThreeProfiles();
      && PriorityProfiles(p.memories, locale) == [LONG]
      && Without(OrderMemories(p.memories, p.rankings, locale), Ids([LONG])) == [LATER, SHORT]
  {
    var memories := [LONG, LATER, SHORT];
    LaterFirst(locale);
    FilterAll(memories, m => IsProfile(m, UserScope));
    FilterNone(memories, m => IsProfile(m, GroupScope));
    SortThree(LONG, LATER, SHORT, ByProfile(locale));
    assert PriorityProfiles(memories, locale) == [LONG];
    var other := OtherThan(Ids([LONG]));
    assert memories == [LONG] + [LATER, SHORT];
    FilterTail(LONG, [LATER, SHORT], other);
    SortTwo(LATER, SHORT, ByRanking(ThreeRankings(), locale));
  }

  /** What the identity layer costs. */
  function IdentityCost(env: Env): nat {
    Tokens(RenderIdentity(PromptFields(FIELDS, None), env.lit))
  }

  lemma IdentityIsSmall(env: Env)
    requires PlainLiterals(env)
    ensures IdentityCost(env) <= 250
  {
    var fields := PromptFields(FIELDS, None);
    assert fields == FIELDS;
    var lines := seq(|fields|, i requires 0 <= i < |fields| => "- " + fields[i].name + "=" + env.lit(fields[i].value));
    assert |lines| == 3 && |lines[0]| <= 118 && |lines[1]| <= 120 && |lines[2]| <= 118;
    var header := ["## Identity"];
    hide PromptFields;
    assert RenderIdentity(fields, env.lit) == Join(header + lines + [""], "\n");
    hide RenderIdentity;
    SizeAppend(header, lines);
    SizeAppend(header + lines, [""]);
    SizeThree(lines);
    SizeOne("## Identity");
    SizeOne("");
    JoinSize(header + lines + [""]);
  }

  lemma SizeThree(lines: seq<string>)
    requires |lines| == 3
    ensures Size(lines) == |lines[0]| + |lines[1]| + |lines[2]| + 3
  {
    SizeOne(lines[2]);
    assert lines[1..][0] == lines[1] && lines[1..][1..] == [lines[2]];
  }

  /** What the empty window costs beside some memories. */
  lemma ExampleCost(env: Env, memories: seq<MemoryRecord>)
    ensures BudgetOf(ThreeProfiles(), env, [], memories).used ==
      300 + IdentityCost(env) + Tokens(RenderMemories(memories))
  {
    hide RenderMemories, RenderIdentity, PromptFields, RenderParticipants;
    var context := Materialize([], SceneOf(ThreeProfiles()));
    assert WindowOf([]) == [];
    assert context.recentMessages == [] && context.participants == [] && context.currentMessageRef == None;
    assert Tokens(RenderParticipants([], false, env.lit)) == 0 by { NoParticipantLines(env); }
  }

  lemma NoParticipantLines(env: Env)
    ensures RenderParticipants([], false, env.lit) == ""
  {
  }

  lemma ExampleFits(env: Env)
    requires PlainLiterals(env)
    ensures var p := ThreeProfiles();
      && Fits(p, env, [], []) && !Fits(p, env, [], [LONG]) && !Fits(p, env, [], [LATER])
      && Fits(p, env, [], [SHORT]) && Fits(p, env, [], [SHORT, LATER])
  {
    hide RenderMemories, BudgetOf, IdentityCost;
    IdentityIsSmall(env);
    MemoriesSize([]);
    OneProfileSize(LONG);
    OneProfileSize(LATER);
    OneProfileSize(SHORT);
    TwoProfilesSize(SHORT, LATER);
    ExampleCost(env, []);
    ExampleCost(env, [LONG]);
    ExampleCost(env, [LATER]);
    ExampleCost(env, [SHORT]);
    ExampleCost(env, [SHORT, LATER]);
  }

  lemma Refuse(
    p: Problem, env: Env, m: MemoryRecord, rest: seq<MemoryRecord>, selected: seq<MemoryRecord>, rejected: seq<string>)
    requires !Fits(p, env, [], selected + [m])
    ensures TakeMemories(p, env, [], [m] + rest, selected, rejected)
         == TakeMemories(p, env, [], rest, selected, Reject(rejected, m.id))
  {
    hide Fits, Reject;
    assert ([m] + rest)[1..] == rest;
  }

  lemma Accept(
    p: Problem, env: Env, m: MemoryRecord, selected: seq<MemoryRecord>, rejected: seq<string>)
    requires Fits(p, env, [], selected + [m])
    ensures TakeMemories(p, env, [], [m], selected, rejected) == (selected + [m], rejected)
  {
    hide Fits, Reject;
    assert [m][1..] == [];
  }

  /** A summary can be refused in the last pass and yet fit beside the final selection: a shorter profile
      accepted after it has taken the section it would have opened. */
  lemma SummaryRefusalNotJustified(env: Env)
    requires PlainLiterals(env)
    ensures var p := ThreeProfiles();
      && Pick(p, env).Ok?
      && var x := Pick(p, env).value;
         x.memories == [SHORT] && LATER.id in x.rejected && Fits(p, env, x.entries, x.memories + [LATER])
  {
    hide Fits, PriorityProfiles, Without, OrderMemories, TakeMemories, RejectRest;
    var p := ThreeProfiles();
    ExampleFits(env);
    ExampleOrder(env.locale);
    assert [] + [LONG] == [LONG] && [] + [LATER] == [LATER] && [] + [SHORT] == [SHORT];
    assert [LONG] + [] == [LONG] && [LATER] + [SHORT] == [LATER, SHORT] && [SHORT] + [LATER] == [SHORT, LATER];
    Refuse(p, env, LONG, [], [], []);
    assert TakeMemories(p, env, [], [], [], ["1"]) == ([], ["1"]) by { Nothing(p, env, [], ["1"]); }
    Refuse(p, env, LATER, [SHORT], [], ["1"]);
    Accept(p, env, SHORT, [], ["1", "2"]);
    assert Reject([], "1") == ["1"] && Reject(["1"], "2") == ["1"] + ["2"] == ["1", "2"];
    assert TakeMemories(p, env, [], [LONG], [], []) == ([], ["1"]);
    assert TakeMemories(p, env, [], [LATER, SHORT], [], ["1"]) == ([SHORT], ["1", "2"]);
    assert TakeRecent(p, env, [], [], |p.recentMessages|) == [];
    assert RetainCurrent(p, env) == Ok(Stage([], [])) && RetainQuote(p, env, Stage([], [])) == Ok(Stage([], []));
    hide ThreeProfiles, RetainCurrent, RetainQuote;
    assert FillUp(p, env, Stage([], [])).memories == [SHORT];
    RestKeeps(p.memories, Ids([SHORT]), ["1", "2"]);
    InPrefix(["1", "2"], FillUp(p, env, Stage([], [])).rejected, "2");
  }

  /** The bound is exact: every refusal stays justified on all inputs with at most `n` summaries per scope if and
      only if `n` is at most two. */
  lemma RefusalBound(env: Env, n: nat)
    requires PlainLiterals(env)
    ensures (forall p | AtMostSummaries(p, n) :: Justified(p, env)) <==> n <= 2
  {
    if n <= 2 {
      forall p | AtMostSummaries(p, n) ensures Justified(p, env) { TwoSummariesJustified(p, env); }
    } else {
      var p := ThreeProfiles();
      ExampleSummaries();
      SummaryRefusalNotJustified(env);
      ExampleRefused(env);
    }
  }

  lemma ExampleSummaries()
    ensures AtMostSummaries(ThreeProfiles(), 3)
  {
    FilterAll([LONG, LATER, SHORT], m => IsProfile(m, UserScope));
    FilterNone([LONG, LATER, SHORT], m => IsProfile(m, GroupScope));
  }

  lemma ExampleRefused(env: Env)
    requires PlainLiterals(env)
    ensures RefusedLast(ThreeProfiles(), env, LATER) && !Justified(ThreeProfiles(), env)
  {
    SummaryRefusalNotJustified(env);
    ExampleOrder(env.locale);
    ExampleNames();
    hide Pick, PriorityProfiles, Fits, ThreeProfiles, Ids, Without, OrderMemories;
  }

  lemma ExampleNames()
    ensures LATER in ThreeProfiles().memories && LATER.id !in Ids([LONG]) && LATER !in [SHORT]
  {
    assert LATER.id != LONG.id && LATER.id != SHORT.id;
  }

  lemma Nothing(p: Problem, env: Env, selected: seq<MemoryRecord>, rejected: seq<string>)
    ensures TakeMemories(p, env, [], [], selected, rejected) == (selected, rejected)
  {
  }

  lemma {:induction false} RestKeeps(memories: seq<MemoryRecord>, selected: set<string>, rejected: seq<string>)
    ensures rejected <= RejectRest(memories, selected, rejected)
    decreases |memories|
  {
    if memories != [] {
      RestKeeps(memories[1..], selected,
        if memories[0].id in selected then rejected else Reject(rejected, memories[0].id));
    }
  }
}
