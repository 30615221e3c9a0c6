// Cooldowns: an outward action let through under a key silences later ones until it expires.
module Cooldown {
  import opened Text
  import opened Sequences
  import opened Actions

  datatype Entry = Entry(expiresAt: real, actionType: ActionType)

  type Entries = map<string, Entry>

  predicate Eligible(t: ActionType) {
    t == ReplyShort || t == ReplyFull || t == ReplyWithTool || t == DmUser || t == ReactOnly || t == SendFoldedForward
  }

  /** The cooldown an action is subject to, if any. */
  predicate Governed(a: ActionPlan) {
    && Eligible(a.kind)
    && a.constraints.cooldownKey.Some? && a.constraints.cooldownKey.value != ""
    && a.constraints.cooldownSeconds.Some? && a.constraints.cooldownSeconds.value > 0.0
  }

  function KeyOf(a: ActionPlan): string
    requires Governed(a)
  {
    a.constraints.cooldownKey.value
  }

  function Expiry(a: ActionPlan, now: int): real
    requires Governed(a)
  {
    now as real + a.constraints.cooldownSeconds.value * 1000.0
  }

  function SilencedReason(a: ActionType, active: ActionType): string {
    "Downgraded from " + TypeName(a) + "; cooldown active for " + TypeName(active)
  }

  function Silenced(a: ActionPlan, active: ActionType): ActionPlan {
    ActionPlan(SilentStore, a.priority, a.target, None, a.constraints, SilencedReason(a.kind, active))
  }

  function Suppressor(key: string): string {
    "cooldown:" + key
  }

  predicate Blocked(entries: Entries, a: ActionPlan, now: int) {
    Governed(a) && KeyOf(a) in entries && entries[KeyOf(a)].expiresAt > now as real
  }

  function Charge(entries: Entries, a: ActionPlan, now: int): Entries {
    if Governed(a) && !Blocked(entries, a, now) then entries[KeyOf(a) := Entry(Expiry(a, now), a.kind)] else entries
  }

  /** A batch, one action after the other over the same table. */
  function ApplyBatch(entries: Entries, actions: seq<ActionPlan>, now: int): (Entries, Applied) {
    if actions == [] then (entries, Applied([], []))
    else
      var n := |actions| - 1;
      var (before, done) := ApplyBatch(entries, actions[..n], now);
      var a := actions[n];
      if Blocked(before, a, now) then
        (before, Applied(done.actions + [Silenced(a, before[KeyOf(a)].actionType)],
                         done.suppressors + [Suppressor(KeyOf(a))]))
      else (Charge(before, a, now), done.(actions := done.actions + [a]))
  }

  class ActionCooldownManager {
    var entries: Entries

    constructor ()
      ensures entries == map[]
    {
      entries := map[];
    }

    method Apply(actions: seq<ActionPlan>, now: int) returns (r: Applied)
      modifies this
      ensures (entries, r) == ApplyBatch(old(entries), actions, now)
    {
      var suppressors: seq<string> := [];
      var next: seq<ActionPlan> := [];
      for i := 0 to |actions|
        invariant (entries, Applied(next, suppressors)) == ApplyBatch(old(entries), actions[..i], now)
      {
        hide Silenced;
        var action := actions[i];
        assert actions[..i + 1][..i] == actions[..i];
        if !Governed(action) {
          next := next + [action];
          continue;
        }
        var key := KeyOf(action);
        if key in entries && entries[key].expiresAt > now as real {
          suppressors := suppressors + [Suppressor(key)];
          next := next + [Silenced(action, entries[key].actionType)];
          continue;
        }
        entries := entries[key := Entry(Expiry(action, now), action.kind)];
        next := next + [action];
      }
      assert actions[..|actions|] == actions;
      r := Applied(next, suppressors);
    }

    method Clear()
      modifies this
      ensures entries == map[]
    {
      entries := map[];
    }
  }

  // ---------------------------------------------------------------- runs

  /** One action met in a run, at the time of its batch. */
  datatype Call = Call(action: ActionPlan, now: int)

  function EntriesAfter(calls: seq<Call>): Entries {
    if calls == [] then map[]
    else
      var last := calls[|calls| - 1];
      Charge(EntriesAfter(calls[..|calls| - 1]), last.action, last.now)
  }

  predicate BlockedAt(calls: seq<Call>, i: nat)
    requires i < |calls|
  {
    Blocked(EntriesAfter(calls[..i]), calls[i].action, calls[i].now)
  }

  /** Call `i` was let through and started a cooldown. */
  predicate Charged(calls: seq<Call>, i: nat)
    requires i < |calls|
  {
    Governed(calls[i].action) && !BlockedAt(calls, i)
  }

  /** The calls of a run of batches, in order. */
  function CallsOf(batches: seq<(seq<ActionPlan>, int)>): seq<Call> {
    if batches == [] then []
    else
      var b := batches[|batches| - 1];
      CallsOf(batches[..|batches| - 1]) + seq(|b.0|, i requires 0 <= i < |b.0| => Call(b.0[i], b.1))
  }

  function Batches(batches: seq<(seq<ActionPlan>, int)>): Entries {
    if batches == [] then map[]
    else
      var b := batches[|batches| - 1];
      ApplyBatch(Batches(batches[..|batches| - 1]), b.0, b.1).0
  }

  function Calls(actions: seq<ActionPlan>, now: int): seq<Call> {
    seq(|actions|, i requires 0 <= i < |actions| => Call(actions[i], now))
  }

  lemma {:induction false} BatchIsCalls(calls: seq<Call>, actions: seq<ActionPlan>, now: int)
    ensures ApplyBatch(EntriesAfter(calls), actions, now).0 == EntriesAfter(calls + Calls(actions, now))
  {
    if actions == [] {
      assert calls + Calls(actions, now) == calls;
    } else {
      hide Blocked, Silenced;
      var n := |actions| - 1;
      BatchIsCalls(calls, actions[..n], now);
      var all := calls + Calls(actions, now);
      assert all[..|all| - 1] == calls + Calls(actions[..n], now);
      assert all[|all| - 1] == Call(actions[n], now);
    }
  }

  /** A run of batches is the run of its calls. */
  lemma {:induction false} BatchesAreCalls(batches: seq<(seq<ActionPlan>, int)>)
    ensures Batches(batches) == EntriesAfter(CallsOf(batches))
  {
    if batches != [] {
      var b := batches[|batches| - 1];
      BatchesAreCalls(batches[..|batches| - 1]);
      BatchIsCalls(CallsOf(batches[..|batches| - 1]), b.0, b.1);
      assert CallsOf(batches) == CallsOf(batches[..|batches| - 1]) + Calls(b.0, b.1);
    }
  }

  /** The table holds, for each key, an expiry no earlier than that of any charged call under it, and the one
      of some such call. */
  lemma {:induction false} TableIsLatest(calls: seq<Call>, key: string)
    ensures forall i | 0 <= i < |calls| && Charged(calls, i) && KeyOf(calls[i].action) == key ::
      key in EntriesAfter(calls) && Expiry(calls[i].action, calls[i].now) <= EntriesAfter(calls)[key].expiresAt
    ensures key in EntriesAfter(calls) ==> exists i | 0 <= i < |calls| ::
      Charged(calls, i) && KeyOf(calls[i].action) == key
      && EntriesAfter(calls)[key] == Entry(Expiry(calls[i].action, calls[i].now), calls[i].action.kind)
  {
    if calls != [] {
      hide Governed;
      var n := |calls| - 1;
      var init, last := calls[..n], calls[n];
      TableIsLatest(init, key);
      forall i | 0 <= i < n ensures Charged(calls, i) == Charged(init, i) && calls[i] == init[i] {
        assert calls[..i] == init[..i];
      }
      if key in EntriesAfter(calls) && !(Charged(calls, n) && KeyOf(last.action) == key) {
        var i :| 0 <= i < n && Charged(init, i) && KeyOf(init[i].action) == key
          && EntriesAfter(init)[key] == Entry(Expiry(init[i].action, init[i].now), init[i].action.kind);
        assert Charged(calls, i);
      }
    }
  }

  /** Call `i` was let through under the key of call `j`, and its cooldown runs past the time of `j`. */
  predicate StillRunning(calls: seq<Call>, i: nat, j: nat)
    requires i < |calls| && j < |calls| && Governed(calls[j].action)
  {
    && Charged(calls, i) && KeyOf(calls[i].action) == KeyOf(calls[j].action)
    && calls[i].now as real + calls[i].action.constraints.cooldownSeconds.value * 1000.0 > calls[j].now as real
  }

  /** In every run, whatever the order of its times: an action is silenced exactly when an earlier one let
      through under its key is still running. */
  lemma {:induction false} BlockedExactlyWhileRunning(calls: seq<Call>, j: nat)
    requires j < |calls| && Governed(calls[j].action)
    ensures BlockedAt(calls, j) <==> exists i | 0 <= i < j :: StillRunning(calls, i, j)
  {
    var key := KeyOf(calls[j].action);
    var init := calls[..j];
    TableIsLatest(init, key);
    forall i | 0 <= i < j ensures Charged(calls, i) == Charged(init, i) && calls[i] == init[i] {
      assert calls[..i] == init[..i];
    }
    hide Governed, EntriesAfter;
    if BlockedAt(calls, j) {
      var i :| 0 <= i < |init| && Charged(init, i) && KeyOf(init[i].action) == key
        && EntriesAfter(init)[key] == Entry(Expiry(init[i].action, init[i].now), init[i].action.kind);
      assert StillRunning(calls, i, j);
    }
    if i :| 0 <= i < j && StillRunning(calls, i, j) {
      assert Charged(init, i);
    }
  }

  /** Two actions let through under one key are at least the first one's cooldown apart. */
  lemma ChargesAreSeparated(calls: seq<Call>, i: nat, j: nat)
    requires i < j < |calls| && Charged(calls, i) && Charged(calls, j)
    requires KeyOf(calls[i].action) == KeyOf(calls[j].action)
    ensures calls[j].now as real >= calls[i].now as real + calls[i].action.constraints.cooldownSeconds.value * 1000.0
  {
    BlockedExactlyWhileRunning(calls, j);
    assert !StillRunning(calls, i, j);
  }

  /** A batch of one action. */
  lemma OneCharge(entries: Entries, a: ActionPlan, now: int)
    ensures ApplyBatch(entries, [a], now).0 == Charge(entries, a, now)
    ensures ApplyBatch(entries, [a], now).1 ==
      if Blocked(entries, a, now)
      then Applied([Silenced(a, entries[KeyOf(a)].actionType)], [Suppressor(KeyOf(a))])
      else Applied([a], [])
  {
    hide Governed, Silenced;
    assert [a][..0] == [];
    assert ApplyBatch(entries, [], now) == (entries, Applied([], []));
    assert [] + [a] == [a];
    if Blocked(entries, a, now) {
      var s := Silenced(a, entries[KeyOf(a)].actionType);
      assert [] + [s] == [s] && [] + [Suppressor(KeyOf(a))] == [Suppressor(KeyOf(a))];
    }
  }

  /** The call's own cooldown runs past `now`. */
  predicate EndsAfter(call: Call, now: int) {
    call.action.constraints.cooldownSeconds.Some?
    && call.now as real + call.action.constraints.cooldownSeconds.value * 1000.0 > now as real
  }

  /** After any run: an action that sends something is replaced by silent storing, with its suppressor, exactly when
      an earlier one let through under its key lies less than its own cooldown back; every other action is let
      through as it is. */
  lemma SilencedOrLetThrough(calls: seq<Call>, a: ActionPlan, now: int)
    ensures var applied, c := ApplyBatch(EntriesAfter(calls), [a], now).1, a.constraints;
      var governed := a.kind in {ReplyShort, ReplyFull, ReplyWithTool, DmUser, ReactOnly, SendFoldedForward}
        && c.cooldownKey.Some? && c.cooldownKey.value != "" && c.cooldownSeconds.Some? && c.cooldownSeconds.value > 0.0;
      var running := exists i | 0 <= i < |calls| && Charged(calls, i) ::
        calls[i].action.constraints.cooldownKey == c.cooldownKey && EndsAfter(calls[i], now);
      if governed && running then
        && |applied.actions| == 1 && applied.suppressors == ["cooldown:" + c.cooldownKey.value]
        && var s := applied.actions[0];
           s == ActionPlan(SilentStore, a.priority, a.target, None, a.constraints, s.reason)
      else applied == Applied([a], [])
  {
    OneCharge(EntriesAfter(calls), a, now);
    if Governed(a) {
      var all := calls + [Call(a, now)];
      assert all[..|calls|] == calls;
      BlockedExactlyWhileRunning(all, |calls|);
      forall i | 0 <= i < |calls| ensures Charged(all, i) == Charged(calls, i) && all[i] == calls[i] {
        assert all[..i] == calls[..i];
      }
      if i :| 0 <= i < |calls| && StillRunning(all, i, |calls|) { assert Charged(calls, i); }
      if i :| 0 <= i < |calls| && Charged(calls, i) && KeyOf(calls[i].action) == KeyOf(a) && EndsAfter(calls[i], now) {
        assert StillRunning(all, i, |calls|);
      }
    }
    hide EntriesAfter, ApplyBatch, BlockedAt, SilencedReason;
  }
}
