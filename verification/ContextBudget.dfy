// Staged greedy selection of the prompt context under a hard token cap.
module ContextBudget {
  import opened Text
  import opened Sequences
  import opened References
  import opened PromptCost
  import opened MemoryRanking

  datatype Problem = Problem(
    recentMessages: seq<RecentMessage>,
    memories: seq<MemoryRecord>,
    fields: seq<IdentityField>,
    participants: seq<Participant>,
    isGroup: bool,
    currentMessageId: Option<string>,
    reply: Option<ReplyResolution>,
    identities: map<string, Identity>,
    rankings: Rankings)

  /** The library functions the budget is computed with. */
  datatype Env = Env(lit: Literal, locale: Locale)

  /** A kept message and its place in the window. */
  datatype Entry = Entry(index: nat, message: RecentMessage)

  datatype BudgetError = FixedLayers | CurrentTooLong | QuoteTooLong | CurrentAndQuoteTooLong | ExceededMaximum

  datatype Stage = Stage(entries: seq<Entry>, filters: seq<string>)

  datatype Picked = Picked(
    entries: seq<Entry>, memories: seq<MemoryRecord>, rejected: seq<string>, filters: seq<string>)

  datatype Outcome = Outcome(
    context: Materialized,
    memories: seq<MemoryRecord>,
    tokenBudget: TokenBudget,
    rejected: seq<string>,
    filters: seq<string>)

  const MARKER := " [truncated]"
  const CURRENT_CUT := "token_budget:latest_user_message_truncated"
  const QUOTE_CUT := "token_budget:quote_target_truncated"

  function SceneOf(p: Problem): Scene {
    Scene(p.participants, p.isGroup, p.currentMessageId, p.reply, p.identities, p.recentMessages == [])
  }

  function ByIndex(): (Entry, Entry) -> bool {
    (a: Entry, b: Entry) => a.index <= b.index
  }

  function MessagesOf(entries: seq<Entry>): (ms: seq<RecentMessage>)
    ensures |ms| == |entries|
  {
    seq(|entries|, i requires 0 <= i < |entries| => entries[i].message)
  }

  function WindowOf(entries: seq<Entry>): seq<RecentMessage> {
    MessagesOf(Sort(entries, ByIndex()))
  }

  function BudgetOf(p: Problem, env: Env, entries: seq<Entry>, memories: seq<MemoryRecord>): (b: TokenBudget)
    ensures b.max == MAX_TOKENS
  {
    CalculateTokenBudget(Materialize(WindowOf(entries), SceneOf(p)), memories, p.fields, p.isGroup, env.lit)
  }

  predicate Fits(p: Problem, env: Env, entries: seq<Entry>, memories: seq<MemoryRecord>) {
    BudgetOf(p, env, entries, memories).used <= MAX_TOKENS
  }

  method CalculateSelection(p: Problem, env: Env, entries: seq<Entry>, memories: seq<MemoryRecord>)
    returns (b: TokenBudget)
    ensures b == BudgetOf(p, env, entries, memories)
  {
    var context := MaterializeReferenceContext(WindowOf(entries), SceneOf(p));
    b := CalculateTokenBudget(context, memories, p.fields, p.isGroup, env.lit);
  }

  // ---------------------------------------------------------------- truncation

  function TextLength(m: RecentMessage): nat {
    |OrElse(m.text, "")|
  }

  /** The first `n` code units of the text, then the marker. */
  function Cut(m: RecentMessage, n: nat): RecentMessage
    requires n <= TextLength(m)
  {
    m.(text := Some(OrElse(m.text, "")[..n] + MARKER))
  }

  /** The longest prefix of at most `n` code units that fits, looking from the longest down. */
  function LongestFit(m: RecentMessage, fits: RecentMessage -> bool, n: nat): (r: Option<RecentMessage>)
    requires n <= TextLength(m)
  {
    if fits(Cut(m, n)) then Some(Cut(m, n))
    else if n == 0 then None
    else LongestFit(m, fits, n - 1)
  }

  predicate Monotone(m: RecentMessage, fits: RecentMessage -> bool) {
    forall i, j | 0 <= i <= j <= TextLength(m) && fits(Cut(m, j)) :: fits(Cut(m, i))
  }

  lemma {:induction false} LongestFitIs(m: RecentMessage, fits: RecentMessage -> bool, n: nat, k: nat)
    requires k <= n <= TextLength(m)
    requires fits(Cut(m, k)) && forall j | k < j <= n :: !fits(Cut(m, j))
    ensures LongestFit(m, fits, n) == Some(Cut(m, k))
  {
    if k < n { LongestFitIs(m, fits, n - 1, k); }
  }

  lemma {:induction false} LongestFitNone(m: RecentMessage, fits: RecentMessage -> bool, n: nat)
    requires n <= TextLength(m)
    ensures LongestFit(m, fits, n).None? <==> forall j | 0 <= j <= n :: !fits(Cut(m, j))
    ensures LongestFit(m, fits, n).Some? ==> exists k | 0 <= k <= n ::
      LongestFit(m, fits, n) == Some(Cut(m, k)) && fits(Cut(m, k)) && forall j | k < j <= n :: !fits(Cut(m, j))
  {
    if fits(Cut(m, n)) {
      LongestFitIs(m, fits, n, n);
    } else if n > 0 {
      LongestFitNone(m, fits, n - 1);
    }
  }

  /** Binary search. For a monotone test it finds the longest fitting prefix; whatever the test, what it
      returns fits, and it returns nothing only when the bare marker does not fit. */
  method TruncateMessageToFit(m: RecentMessage, fits: RecentMessage -> bool) returns (best: Option<RecentMessage>)
    ensures best.Some? ==> fits(best.value) && exists n | 0 <= n <= TextLength(m) :: best.value == Cut(m, n)
    ensures best.None? ==> !fits(Cut(m, 0))
    ensures Monotone(m, fits) ==> best == LongestFit(m, fits, TextLength(m))
  {
    var low, high: int := 0, TextLength(m);
    best := None;
    while low <= high
      invariant 0 <= low <= high + 1 <= TextLength(m) + 1
      invariant best == if low == 0 then None else Some(Cut(m, low - 1))
      invariant low > 0 ==> fits(Cut(m, low - 1))
      invariant high < TextLength(m) ==> !fits(Cut(m, high + 1))
    {
      var prefixLength := (low + high) / 2;
      var candidate := Cut(m, prefixLength);
      if fits(candidate) {
        best := Some(candidate);
        low := prefixLength + 1;
      } else {
        high := prefixLength - 1;
      }
    }
    if Monotone(m, fits) {
      if low > 0 {
        LongestFitIs(m, fits, TextLength(m), low - 1);
      } else {
        LongestFitNone(m, fits, TextLength(m));
      }
    }
  }

  // ---------------------------------------------------------------- the stages

  function OfId(id: string): RecentMessage -> bool {
    (m: RecentMessage) => m.messageId == id
  }

  function CurrentIndex(p: Problem): (i: Option<nat>)
    ensures i.Some? ==> i.value < |p.recentMessages|
  {
    if p.currentMessageId.None? then None else Find(p.recentMessages, OfId(p.currentMessageId.value))
  }

  function QuoteIndex(p: Problem): (i: Option<nat>)
    ensures i.Some? ==> i.value < |p.recentMessages|
  {
    if p.reply.None? || !p.reply.value.resolved || p.reply.value.targetMessageId.None? then None
    else Find(p.recentMessages, OfId(p.reply.value.targetMessageId.value))
  }

  /** Does a message fit in place `index` beside the entries? */
  function FitsAt(p: Problem, env: Env, entries: seq<Entry>, index: nat): RecentMessage -> bool {
    (m: RecentMessage) => Fits(p, env, entries + [Entry(index, m)], [])
  }

  /** Does a current message fit before a given quote target? */
  function FitsBefore(p: Problem, env: Env, entries: seq<Entry>, index: nat, quote: Entry): RecentMessage -> bool {
    (m: RecentMessage) => Fits(p, env, entries + [Entry(index, m), quote], [])
  }

  function RetainCurrent(p: Problem, env: Env): Result<Stage, BudgetError> {
    if !Fits(p, env, [], []) then Err(FixedLayers)
    else
      match CurrentIndex(p)
      case None => Ok(Stage([], []))
      case Some(i) =>
        var m := p.recentMessages[i];
        if Fits(p, env, [Original(p, i)], []) then Ok(Stage([Original(p, i)], []))
        else
          match LongestFit(m, FitsAt(p, env, [], i), TextLength(m))
          case None => Err(CurrentTooLong)
          case Some(t) => Ok(Stage([Entry(i, t)], [CURRENT_CUT]))
  }

  function MinimalTarget(m: RecentMessage): RecentMessage {
    if m.text.None? then m else m.(text := Some(MARKER))
  }

  function WithFilter(filters: seq<string>, filter: string): seq<string> {
    if filter in filters then filters else filters + [filter]
  }

  function RetainQuote(p: Problem, env: Env, s: Stage): Result<Stage, BudgetError> {
    match QuoteIndex(p)
    case None => Ok(s)
    case Some(q) =>
      var m := p.recentMessages[q];
      if CurrentIndex(p) == Some(q) then Ok(s)
      else if Fits(p, env, s.entries + [Original(p, q)], []) then Ok(s.(entries := s.entries + [Original(p, q)]))
      else
        match LongestFit(m, FitsAt(p, env, s.entries, q), TextLength(m))
        case Some(t) => Ok(Stage(s.entries + [Entry(q, t)], s.filters + [QUOTE_CUT]))
        case None => ShrinkCurrent(p, env, s, q)
  }

  /** Neither the quote target nor its prefixes fit: give it the bare marker and shorten the current message. */
  function ShrinkCurrent(p: Problem, env: Env, s: Stage, q: nat): Result<Stage, BudgetError>
    requires q < |p.recentMessages|
  {
    match Find(s.entries, (e: Entry) => CurrentIndex(p) == Some(e.index))
    case None => Err(QuoteTooLong)
    case Some(k) =>
      var current, target := s.entries[k], Entry(q, MinimalTarget(p.recentMessages[q]));
      var others := s.entries[..k] + s.entries[k + 1..];
      match LongestFit(current.message, FitsBefore(p, env, others, current.index, target), TextLength(current.message))
      case None => Err(CurrentAndQuoteTooLong)
      case Some(t) =>
        Ok(Stage(s.entries[k := Entry(current.index, t)] + [target], WithFilter(s.filters, CURRENT_CUT) + [QUOTE_CUT]))
  }

  function Reject(rejected: seq<string>, id: string): seq<string> {
    if id in rejected then rejected else rejected + [id]
  }

  /** Offers memories one by one, keeping each that still fits. */
  function TakeMemories(
    p: Problem, env: Env, entries: seq<Entry>, offered: seq<MemoryRecord>,
    selected: seq<MemoryRecord>, rejected: seq<string>): (r: (seq<MemoryRecord>, seq<string>))
    ensures selected <= r.0 && rejected <= r.1
    decreases |offered|
  {
    if offered == [] then (selected, rejected)
    else if Fits(p, env, entries, selected + [offered[0]]) then
      TakeMemories(p, env, entries, offered[1..], selected + [offered[0]], rejected)
    else TakeMemories(p, env, entries, offered[1..], selected, Reject(rejected, offered[0].id))
  }

  predicate Required(p: Problem, i: nat) {
    CurrentIndex(p) == Some(i) || QuoteIndex(p) == Some(i)
  }

  /** A message of the window, whole. */
  function Original(p: Problem, i: nat): Entry
    requires i < |p.recentMessages|
  {
    Entry(i, p.recentMessages[i])
  }

  /** Adds the messages before place `n`, newest first, until one does not fit. */
  function TakeRecent(p: Problem, env: Env, entries: seq<Entry>, memories: seq<MemoryRecord>, n: nat): seq<Entry>
    requires n <= |p.recentMessages|
    decreases n
  {
    if n == 0 then entries
    else if Required(p, n - 1) then TakeRecent(p, env, entries, memories, n - 1)
    else
      var more := entries + [Original(p, n - 1)];
      if !Fits(p, env, more, memories) then entries else TakeRecent(p, env, more, memories, n - 1)
  }

  function RejectRest(memories: seq<MemoryRecord>, selected: set<string>, rejected: seq<string>): seq<string>
    decreases |memories|
  {
    if memories == [] then rejected
    else RejectRest(memories[1..], selected,
      if memories[0].id in selected then rejected else Reject(rejected, memories[0].id))
  }

  function Pick(p: Problem, env: Env): Result<Picked, BudgetError> {
    match RetainCurrent(p, env)
    case Err(e) => Err(e)
    case Ok(first) =>
      match RetainQuote(p, env, first)
      case Err(e) => Err(e)
      case Ok(s) => Ok(FillUp(p, env, s))
  }

  /** Profiles, then recent messages, then the other memories. */
  function FillUp(p: Problem, env: Env, s: Stage): Picked {
    var profiles := PriorityProfiles(p.memories, env.locale);
    var (kept, refused) := TakeMemories(p, env, s.entries, profiles, [], []);
    var entries := TakeRecent(p, env, s.entries, kept, |p.recentMessages|);
    var others := Without(OrderMemories(p.memories, p.rankings, env.locale), Ids(profiles));
    var (memories, rejected) := TakeMemories(p, env, entries, others, kept, refused);
    Picked(entries, memories, RejectRest(p.memories, Ids(memories), rejected), s.filters)
  }

  function CanonicalIds(ps: seq<Participant>): set<string> {
    set x | x in ps && x.canonicalUserId.Some? :: x.canonicalUserId.value
  }

  function OmissionFilters(p: Problem, context: Materialized): seq<string> {
    var messages: int := |p.recentMessages| - |context.recentMessages|;
    var ids := CanonicalIds(context.participants);
    var people :=
      |Filter(p.participants, (x: Participant) => x.canonicalUserId.None? || x.canonicalUserId.value !in ids)|;
    (if messages > 0 then ["token_budget:recent_messages_omitted=" + Decimal(messages)] else [])
    + (if people > 0 && p.recentMessages != [] then ["token_budget:participants_omitted=" + Decimal(people)] else [])
  }

  function Budgeted(p: Problem, env: Env): Result<Outcome, BudgetError> {
    match Pick(p, env)
    case Err(e) => Err(e)
    case Ok(x) =>
      var context := Materialize(WindowOf(x.entries), SceneOf(p));
      var budget := CalculateTokenBudget(context, x.memories, p.fields, p.isGroup, env.lit);
      if budget.used > budget.max then Err(ExceededMaximum)
      else Ok(Outcome(context, x.memories, budget, x.rejected, x.filters + OmissionFilters(p, context)))
  }

  // ---------------------------------------------------------------- every test the budgeter passes is monotone

  /** The same places, with texts that are no longer. */
  predicate ShorterEntries(a: seq<Entry>, b: seq<Entry>) {
    |a| == |b| && forall i | 0 <= i < |a| :: a[i].index == b[i].index && Shorter(a[i].message, b[i].message)
  }

  lemma {:induction false} InsertShorter(x: Entry, y: Entry, a: seq<Entry>, b: seq<Entry>)
    requires x.index == y.index && Shorter(x.message, y.message) && ShorterEntries(a, b)
    ensures ShorterEntries(Insert(x, a, ByIndex()), Insert(y, b, ByIndex()))
  {
    hide Shorter;
    if a != [] && !ByIndex()(x, a[0]) { InsertShorter(x, y, a[1..], b[1..]); }
  }

  lemma {:induction false} SortShorter(a: seq<Entry>, b: seq<Entry>)
    requires ShorterEntries(a, b)
    ensures ShorterEntries(Sort(a, ByIndex()), Sort(b, ByIndex()))
  {
    hide Shorter;
    if a != [] {
      SortShorter(a[1..], b[1..]);
      InsertShorter(a[0], b[0], Sort(a[1..], ByIndex()), Sort(b[1..], ByIndex()));
    }
  }

  lemma FitsShorter(p: Problem, env: Env, a: seq<Entry>, b: seq<Entry>, memories: seq<MemoryRecord>)
    ensures ShorterEntries(a, b) && Fits(p, env, b, memories) ==> Fits(p, env, a, memories)
  {
    hide Materialize, Shorter, CalculateTokenBudget, Sort;
    if ShorterEntries(a, b) {
      SortShorter(a, b);
      assert AllShorter(WindowOf(a), WindowOf(b));
      CostMonotoneInText(WindowOf(a), WindowOf(b), SceneOf(p), memories, p.fields, p.isGroup, env.lit);
    }
  }

  lemma CutShorter(m: RecentMessage, i: nat, j: nat)
    requires i <= j <= TextLength(m)
    ensures Shorter(Cut(m, i), Cut(m, j))
  {
  }

  lemma ShorterItself(entries: seq<Entry>)
    ensures ShorterEntries(entries, entries)
  {
  }

  lemma FitsAtMonotone(p: Problem, env: Env, entries: seq<Entry>, index: nat, m: RecentMessage)
    ensures Monotone(m, FitsAt(p, env, entries, index))
  {
    hide Fits, Cut, Shorter, TextLength;
    forall i, j | 0 <= i <= j <= TextLength(m) && FitsAt(p, env, entries, index)(Cut(m, j))
      ensures FitsAt(p, env, entries, index)(Cut(m, i))
    {
      var a, b := entries + [Entry(index, Cut(m, i))], entries + [Entry(index, Cut(m, j))];
      CutShorter(m, i, j);
      ShorterItself(entries);
      assert ShorterEntries(a, b);
      FitsShorter(p, env, a, b, []);
    }
  }

  lemma FitsBeforeMonotone(p: Problem, env: Env, entries: seq<Entry>, index: nat, quote: Entry, m: RecentMessage)
    ensures Monotone(m, FitsBefore(p, env, entries, index, quote))
  {
    hide Fits, Cut, Shorter, TextLength;
    forall i, j | 0 <= i <= j <= TextLength(m) && FitsBefore(p, env, entries, index, quote)(Cut(m, j))
      ensures FitsBefore(p, env, entries, index, quote)(Cut(m, i))
    {
      var a, b := entries + [Entry(index, Cut(m, i)), quote], entries + [Entry(index, Cut(m, j)), quote];
      CutShorter(m, i, j);
      ShorterItself(entries + [quote]);
      assert forall k | 0 <= k < |entries| :: a[k] == b[k] == (entries + [quote])[k];
      assert a[|entries| + 1] == b[|entries| + 1] == (entries + [quote])[|entries|];
      assert ShorterEntries(a, b);
      FitsShorter(p, env, a, b, []);
    }
  }

  // ---------------------------------------------------------------- the loops

  method ApplyCurrentStage(p: Problem, env: Env) returns (r: Result<Stage, BudgetError>)
    ensures r == RetainCurrent(p, env)
  {
    hide BudgetOf, LongestFit, Cut, CurrentIndex, FitsAt, Monotone;
    var b := CalculateSelection(p, env, [], []);
    if b.used > b.max { return Err(FixedLayers); }
    var current := CurrentIndex(p);
    if current.None? { return Ok(Stage([], [])); }
    var i := current.value;
    b := CalculateSelection(p, env, [Original(p, i)], []);
    if b.used <= b.max { return Ok(Stage([Original(p, i)], [])); }
    var truncated := TruncateMessageToFit(p.recentMessages[i], FitsAt(p, env, [], i));
    FitsAtMonotone(p, env, [], i, p.recentMessages[i]);
    if truncated.None? { return Err(CurrentTooLong); }
    return Ok(Stage([Entry(i, truncated.value)], [CURRENT_CUT]));
  }

  method ApplyQuoteStage(p: Problem, env: Env, s: Stage) returns (r: Result<Stage, BudgetError>)
    ensures r == RetainQuote(p, env, s)
  {
    hide BudgetOf, LongestFit, Cut, CurrentIndex, QuoteIndex, FitsAt, FitsBefore, Monotone, ShrinkCurrent;
    var quote := QuoteIndex(p);
    if quote.None? || CurrentIndex(p) == quote { return Ok(s); }
    var q := quote.value;
    var b := CalculateSelection(p, env, s.entries + [Original(p, q)], []);
    if b.used <= b.max { return Ok(s.(entries := s.entries + [Original(p, q)])); }
    var truncated := TruncateMessageToFit(p.recentMessages[q], FitsAt(p, env, s.entries, q));
    FitsAtMonotone(p, env, s.entries, q, p.recentMessages[q]);
    if truncated.Some? { return Ok(Stage(s.entries + [Entry(q, truncated.value)], s.filters + [QUOTE_CUT])); }
    r := ApplyShrink(p, env, s, q);
  }

  method ApplyShrink(p: Problem, env: Env, s: Stage, q: nat) returns (r: Result<Stage, BudgetError>)
    requires q < |p.recentMessages|
    ensures r == ShrinkCurrent(p, env, s, q)
  {
    hide Fits, LongestFit, Cut, FitsBefore, Monotone;
    var place := Find(s.entries, (e: Entry) => CurrentIndex(p) == Some(e.index));
    hide CurrentIndex;
    if place.None? { return Err(QuoteTooLong); }
    var k := place.value;
    var current, target := s.entries[k], Entry(q, MinimalTarget(p.recentMessages[q]));
    var others := s.entries[..k] + s.entries[k + 1..];
    var truncated := TruncateMessageToFit(current.message, FitsBefore(p, env, others, current.index, target));
    FitsBeforeMonotone(p, env, others, current.index, target, current.message);
    if truncated.None? { return Err(CurrentAndQuoteTooLong); }
    var entries := s.entries[k := Entry(current.index, truncated.value)] + [target];
    return Ok(Stage(entries, WithFilter(s.filters, CURRENT_CUT) + [QUOTE_CUT]));
  }

  method ApplyMemories(
    p: Problem, env: Env, entries: seq<Entry>, offered: seq<MemoryRecord>,
    before: seq<MemoryRecord>, refused: seq<string>)
    returns (selected: seq<MemoryRecord>, rejected: seq<string>)
    ensures (selected, rejected) == TakeMemories(p, env, entries, offered, before, refused)
  {
    selected, rejected := before, refused;
    for i := 0 to |offered|
      invariant TakeMemories(p, env, entries, offered[i..], selected, rejected)
             == TakeMemories(p, env, entries, offered, before, refused)
    {
      hide BudgetOf, Reject;
      var b := CalculateSelection(p, env, entries, selected + [offered[i]]);
      assert offered[i..][1..] == offered[i + 1..];
      if b.used <= b.max {
        selected := selected + [offered[i]];
      } else {
        rejected := Reject(rejected, offered[i].id);
      }
    }
  }

  lemma RecentStep(p: Problem, env: Env, entries: seq<Entry>, memories: seq<MemoryRecord>, n: nat)
    requires 0 < n <= |p.recentMessages|
    ensures TakeRecent(p, env, entries, memories, n) ==
      var more := entries + [Original(p, n - 1)];
      if Required(p, n - 1) then TakeRecent(p, env, entries, memories, n - 1)
      else if BudgetOf(p, env, more, memories).used > MAX_TOKENS then entries
      else TakeRecent(p, env, more, memories, n - 1)
  {
    hide BudgetOf, Required;
  }

  lemma RecentDone(p: Problem, env: Env, entries: seq<Entry>, memories: seq<MemoryRecord>)
    ensures TakeRecent(p, env, entries, memories, 0) == entries
  {
  }

  method ApplyRecent(p: Problem, env: Env, before: seq<Entry>, memories: seq<MemoryRecord>) returns (entries: seq<Entry>)
    ensures entries == TakeRecent(p, env, before, memories, |p.recentMessages|)
  {
    hide *;
    entries := before;
    var n := |p.recentMessages|;
    while n > 0
      invariant 0 <= n <= |p.recentMessages|
      invariant TakeRecent(p, env, entries, memories, n) == TakeRecent(p, env, before, memories, |p.recentMessages|)
    {
      RecentStep(p, env, entries, memories, n);
      n := n - 1;
      if Required(p, n) { continue; }
      var more := entries + [Original(p, n)];
      var b := CalculateSelection(p, env, more, memories);
      if b.used > MAX_TOKENS { return; }
      entries := more;
    }
    RecentDone(p, env, entries, memories);
  }

  method ApplyRest(memories: seq<MemoryRecord>, selected: set<string>, refused: seq<string>)
    returns (rejected: seq<string>)
    ensures rejected == RejectRest(memories, selected, refused)
  {
    rejected := refused;
    for i := 0 to |memories|
      invariant RejectRest(memories[i..], selected, rejected) == RejectRest(memories, selected, refused)
    {
      hide Reject;
      assert memories[i..][1..] == memories[i + 1..];
      if memories[i].id !in selected { rejected := Reject(rejected, memories[i].id); }
    }
  }

  method ApplyTokenBudget(p: Problem, env: Env) returns (r: Result<Outcome, BudgetError>)
    ensures r == Budgeted(p, env)
  {
    hide RetainCurrent, RetainQuote, TakeMemories, TakeRecent, RejectRest, PriorityProfiles, OrderMemories, Without, Ids,
         Materialize, CalculateTokenBudget, OmissionFilters, WindowOf;
    var first := ApplyCurrentStage(p, env);
    if first.Err? { return Err(first.error); }
    var second := ApplyQuoteStage(p, env, first.value);
    if second.Err? { return Err(second.error); }
    var s := second.value;
    var profiles := PriorityProfiles(p.memories, env.locale);
    var kept, refused := ApplyMemories(p, env, s.entries, profiles, [], []);
    var entries := ApplyRecent(p, env, s.entries, kept);
    var others := Without(OrderMemories(p.memories, p.rankings, env.locale), Ids(profiles));
    var memories, rejected := ApplyMemories(p, env, entries, others, kept, refused);
    rejected := ApplyRest(p.memories, Ids(memories), rejected);
    var context := MaterializeReferenceContext(WindowOf(entries), SceneOf(p));
    var budget := CalculateTokenBudget(context, memories, p.fields, p.isGroup, env.lit);
    if budget.used > budget.max { return Err(ExceededMaximum); }
    return Ok(Outcome(context, memories, budget, rejected, s.filters + OmissionFilters(p, context)));
  }
}
