/** Token quotas: a reservation before the request, the real count after it
    (backend/internal/db/users.go). Each call is one transaction. */
module Quota {
  import opened Basics

  datatype Tier = Tier(quotaMode: string, quotaTokens: int, dailyTokenLimit: int, monthlyTokenLimit: int)

  /** The period keys the clock gives: the day and the month. */
  datatype Clock = Clock(day: string, month: string)

  datatype Usage = Usage(reserved: int, actual: int, requests: nat)

  /** userQuotaUsage, by user and period. */
  type UsageTable = map<(string, string), Usage>

  function Max(a: int, b: int): int {
    if a > b then a else b
  }

  const TWO_64 := 0x1_0000_0000_0000_0000

  const TWO_63 := 0x8000_0000_0000_0000

  /** Go's int64 arithmetic wraps around. */
  function Int64(x: int): int {
    (x + TWO_63) % TWO_64 - TWO_63
  }

  function Limit(typ: Tier): int {
    if typ.dailyTokenLimit > 0 then typ.dailyTokenLimit
    else if typ.monthlyTokenLimit > 0 then typ.monthlyTokenLimit
    else typ.quotaTokens
  }

  function Period(dailyTokenLimit: int, clock: Clock): string {
    if dailyTokenLimit > 0 then clock.day else clock.month
  }

  function Row(t: UsageTable, key: (string, string)): Usage {
    if key in t then t[key] else Usage(0, 0, 0)
  }

  predicate Unmetered(typ: Option<Tier>) {
    typ.None? || typ.value.quotaMode == "unlimited" || Limit(typ.value) <= 0
  }

  function Reserve(t: UsageTable, user: string, typ: Option<Tier>, requested: int, clock: Clock): (UsageTable, bool) {
    if Unmetered(typ) then (t, true) else
    var key := (user, Period(typ.value.dailyTokenLimit, clock));
    var row := Row(t, key);
    if Int64(row.actual + row.reserved + Max(1, requested)) > Limit(typ.value) then (t, false)
    else (t[key := Usage(row.reserved + Max(1, requested), row.actual, row.requests + 1)], true)
  }

  /** The tier is read again from the database; a missing user has no daily limit. */
  function Finalize(t: UsageTable, user: string, typ: Option<Tier>, reserved: int, actual: int, clock: Clock): UsageTable {
    var key := (user, Period(if typ.Some? then typ.value.dailyTokenLimit else 0, clock));
    if key !in t then t
    else t[key := t[key].(reserved := Max(0, t[key].reserved - Max(0, reserved)), actual := t[key].actual + Max(0, actual))]
  }

  class QuotaStore {
    var usage: UsageTable

    constructor ()
      ensures usage == map[]
    {
      usage := map[];
    }

    method ReserveUserQuota(user: string, typ: Option<Tier>, requested: int, clock: Clock) returns (ok: bool)
      modifies this
      ensures (usage, ok) == Reserve(old(usage), user, typ, requested, clock)
    {
      if typ.None? || typ.value.quotaMode == "unlimited" {
        return true;
      }
      var tokens := if requested < 1 then 1 else requested;
      var period, limit := clock.month, typ.value.quotaTokens;
      if typ.value.dailyTokenLimit > 0 {
        period, limit := clock.day, typ.value.dailyTokenLimit;
      } else if typ.value.monthlyTokenLimit > 0 {
        limit := typ.value.monthlyTokenLimit;
      }
      if limit <= 0 {
        return true;
      }
      var key := (user, period);
      var row := if key in usage then usage[key] else Usage(0, 0, 0);
      if Int64(row.actual + row.reserved + tokens) > limit {
        return false;
      }
      usage := usage[key := row.(reserved := row.reserved + tokens, requests := row.requests + 1)];
      return true;
    }

    method FinalizeUserQuota(user: string, typ: Option<Tier>, reservedTokens: int, actualTokens: int, clock: Clock)
      modifies this
      ensures usage == Finalize(old(usage), user, typ, reservedTokens, actualTokens, clock)
    {
      var period := clock.month;
      if typ.Some? && typ.value.dailyTokenLimit > 0 {
        period := clock.day;
      }
      var release := if reservedTokens < 0 then 0 else reservedTokens;
      var spent := if actualTokens < 0 then 0 else actualTokens;
      var key := (user, period);
      if key in usage {
        var left := usage[key].reserved - release;
        usage := usage[key := usage[key].(reserved := if left < 0 then 0 else left, actual := usage[key].actual + spent)];
      }
    }
  }

  // ----- runs -----

  datatype Step =
    | ReserveStep(user: string, typ: Option<Tier>, requested: int, clock: Clock)
    | FinalizeStep(user: string, typ: Option<Tier>, requested: int, actual: int, clock: Clock)

  /** What the requests of one user add up to: those still running, what the finished
      ones used beyond their reservation, and how many of them had asked for less than
      the one token that is always reserved. */
  datatype Ledger = Ledger(outstanding: seq<int>, overrun: int, leaked: nat)

  datatype Run = Run(table: UsageTable, ledger: Ledger)

  function RemoveOne(s: seq<int>, x: int): seq<int> {
    if s == [] then [] else
    var last := s[|s| - 1];
    if last == x then s[..|s| - 1] else RemoveOne(s[..|s| - 1], x) + [last]
  }

  function Take(run: Run, step: Step, user: string): Run {
    match step
    case ReserveStep(u, typ, requested, clock) =>
      var (t, ok) := Reserve(run.table, u, typ, requested, clock);
      Run(t, if u == user && ok then run.ledger.(outstanding := run.ledger.outstanding + [requested]) else run.ledger)
    case FinalizeStep(u, typ, requested, actual, clock) =>
      Run(Finalize(run.table, u, typ, requested, actual, clock),
          if u != user then run.ledger
          else Ledger(RemoveOne(run.ledger.outstanding, requested),
                      run.ledger.overrun + Max(0, Max(0, actual) - Max(0, requested)),
                      run.ledger.leaked + if requested < 1 then 1 else 0))
  }

  function TakeAll(steps: seq<Step>, user: string): Run {
    if steps == [] then Run(map[], Ledger([], 0, 0)) else
    Take(TakeAll(steps[..|steps| - 1], user), steps[|steps| - 1], user)
  }

  /** The steps of `user` stay in one period and tier, and each finalize settles a
      running request. Steps of others are free. */
  ghost predicate Regular(steps: seq<Step>, user: string, tier: Tier, clock: Clock) {
    steps == [] ||
    (var init, step := steps[..|steps| - 1], steps[|steps| - 1];
     && Regular(init, user, tier, clock)
     && (step.user == user ==>
           && step.typ == Some(tier) && step.clock == clock && InRange(step.requested)
           && (step.FinalizeStep? ==> step.requested in TakeAll(init, user).ledger.outstanding)))
  }

  /** The numbers an int64 holds. */
  predicate InRange(x: int) {
    -TWO_63 <= x < TWO_63
  }

  function Key(user: string, tier: Tier, clock: Clock): (string, string) {
    (user, Period(tier.dailyTokenLimit, clock))
  }

  /** The sum a reservation is checked by, as a number without bounds. */
  function Sum(row: Usage, requested: int): int {
    row.actual + row.reserved + Max(1, requested)
  }

  /** No check of `user` computes a sum beyond the int64 range. */
  ghost predicate NoWrap(steps: seq<Step>, user: string, tier: Tier, clock: Clock) {
    forall i :: 0 <= i < |steps| && steps[i].ReserveStep? && steps[i].user == user ==>
      Sum(Row(TakeAll(steps[..i], user).table, Key(user, tier, clock)), steps[i].requested) < TWO_63
  }

  /** Used and reserved tokens exceed the limit by no more than finished requests overran. */
  ghost predicate WithinLimit(run: Run, user: string, tier: Tier, clock: Clock) {
    var row := Row(run.table, Key(user, tier, clock));
    row.actual + row.reserved <= Limit(tier) + run.ledger.overrun
  }

  /** What the running requests hold: at least one token each. */
  function Held(outstanding: seq<int>): int {
    if outstanding == [] then 0 else Held(outstanding[..|outstanding| - 1]) + Max(1, outstanding[|outstanding| - 1])
  }

  lemma {:induction false} HeldOfRemove(s: seq<int>, x: int)
    ensures x in s ==> Held(RemoveOne(s, x)) == Held(s) - Max(1, x)
    ensures Held(s) >= 0
  {
    if s != [] {
      var init, last := s[..|s| - 1], s[|s| - 1];
      HeldOfRemove(init, x);
      if last != x {
        assert (RemoveOne(init, x) + [last])[..|RemoveOne(init, x)|] == RemoveOne(init, x);
        assert x in s ==> x in init;
      }
    }
  }

  /** Reserved is what running requests hold plus what leaked, and nothing is negative. */
  ghost predicate Balanced(run: Run, user: string, tier: Tier, clock: Clock) {
    var row, l := Row(run.table, Key(user, tier, clock)), run.ledger;
    && row.reserved == Held(l.outstanding) + l.leaked
    && 0 <= row.actual && 0 <= l.overrun
    && (l.outstanding != [] ==> Key(user, tier, clock) in run.table)
  }

  lemma {:induction false} HeldOfAdd(s: seq<int>, x: int)
    ensures Held(s + [x]) == Held(s) + Max(1, x)
  {
    assert (s + [x])[..|s|] == s;
  }

  lemma {:induction false} StepBalanced(run: Run, step: Step, user: string, tier: Tier, clock: Clock)
    requires Balanced(run, user, tier, clock) && !Unmetered(Some(tier))
    requires step.user == user ==> step.typ == Some(tier) && step.clock == clock
    requires step.user == user && step.FinalizeStep? ==> step.requested in run.ledger.outstanding
    ensures Balanced(Take(run, step, user), user, tier, clock)
    ensures step.user == user && step.FinalizeStep? ==>
              Key(user, tier, clock) in run.table && run.table[Key(user, tier, clock)].reserved >= Max(0, step.requested)
    ensures run.ledger.overrun <= Take(run, step, user).ledger.overrun
  {
    hide Held, RemoveOne, Int64;
    var l := run.ledger;
    HeldOfRemove(l.outstanding, step.requested);
    if step.user == user && step.FinalizeStep? {
      hide Reserve;
      HeldOfRemove(RemoveOne(l.outstanding, step.requested), 0);
    } else if step.user == user {
      hide Finalize;
      HeldOfAdd(l.outstanding, step.requested);
    }
  }

  lemma {:induction false} StepWithinLimit(run: Run, step: Step, user: string, tier: Tier, clock: Clock)
    requires Balanced(run, user, tier, clock) && WithinLimit(run, user, tier, clock) && !Unmetered(Some(tier))
    requires step.user == user ==> step.typ == Some(tier) && step.clock == clock
    requires step.user == user && step.FinalizeStep? ==> step.requested in run.ledger.outstanding
    requires step.user == user && step.ReserveStep? ==> Sum(Row(run.table, Key(user, tier, clock)), step.requested) < TWO_63
    ensures WithinLimit(Take(run, step, user), user, tier, clock)
  {
    hide Held, RemoveOne;
    HeldOfRemove(run.ledger.outstanding, step.requested);
    if step.user == user && step.FinalizeStep? {
      HeldOfRemove(RemoveOne(run.ledger.outstanding, step.requested), 0);
    } else {
      hide Finalize;
    }
  }

  /** Whatever the interleaving: what is recorded as reserved is what the running
      requests hold, plus one token for each finished request that had asked for less
      than one; no release is ever cut off at zero; and as long as no check computed a sum
      of 2^63 or more, used and reserved tokens exceed the limit by no more than the
      finished requests overran. */
  lemma {:induction false} QuotaIsSafe(steps: seq<Step>, user: string, tier: Tier, clock: Clock)
    requires Regular(steps, user, tier, clock) && !Unmetered(Some(tier))
    ensures Balanced(TakeAll(steps, user), user, tier, clock)
    ensures steps != [] && steps[|steps| - 1].FinalizeStep? && steps[|steps| - 1].user == user ==>
              var t, key := TakeAll(steps[..|steps| - 1], user).table, Key(user, tier, clock);
              key in t && t[key].reserved >= Max(0, steps[|steps| - 1].requested)
    ensures NoWrap(steps, user, tier, clock) ==> WithinLimit(TakeAll(steps, user), user, tier, clock)
  {
    hide Balanced, Take, WithinLimit, NoWrap, Sum;
    if steps != [] {
      var init, last := steps[..|steps| - 1], steps[|steps| - 1];
      QuotaIsSafe(init, user, tier, clock);
      StepBalanced(TakeAll(init, user), last, user, tier, clock);
      NoWrapSnoc(steps, user, tier, clock);
      if NoWrap(steps, user, tier, clock) {
        StepWithinLimit(TakeAll(init, user), last, user, tier, clock);
      }
    } else {
      NothingTaken(user, tier, clock);
    }
  }

  lemma {:induction false} NothingTaken(user: string, tier: Tier, clock: Clock)
    requires !Unmetered(Some(tier))
    ensures Balanced(TakeAll([], user), user, tier, clock) && WithinLimit(TakeAll([], user), user, tier, clock)
    ensures TakeAll([], user).ledger.overrun == 0
  {
    assert Row(map[], Key(user, tier, clock)) == Usage(0, 0, 0);
  }

  lemma {:induction false} NoWrapSnoc(steps: seq<Step>, user: string, tier: Tier, clock: Clock)
    requires steps != []
    ensures var init, last := steps[..|steps| - 1], steps[|steps| - 1];
            NoWrap(steps, user, tier, clock) <==>
              && NoWrap(init, user, tier, clock)
              && (last.ReserveStep? && last.user == user ==>
                    Sum(Row(TakeAll(init, user).table, Key(user, tier, clock)), last.requested) < TWO_63)
  {
    hide TakeAll, Sum;
    var init := steps[..|steps| - 1];
    assert forall i :: 0 <= i < |init| ==> init[..i] == steps[..i] && init[i] == steps[i];
  }

  /** A request is granted beyond the limit exactly when the sum in the check wraps around. */
  lemma {:induction false} GrantedBeyondLimitIffWrapped(t: UsageTable, user: string, tier: Tier, requested: int, clock: Clock)
    requires !Unmetered(Some(tier)) && InRange(Limit(tier)) && InRange(requested)
    requires var row := Row(t, Key(user, tier, clock)); 0 <= row.actual && 0 <= row.reserved && row.actual + row.reserved < TWO_63
    ensures var sum := Sum(Row(t, Key(user, tier, clock)), requested);
            Reserve(t, user, Some(tier), requested, clock).1 && sum > Limit(tier) <==> sum >= TWO_63
  {
  }

  lemma {:induction false} WrapBreaksLimit(run: Run, step: Step, user: string, tier: Tier, clock: Clock)
    requires Balanced(run, user, tier, clock) && !Unmetered(Some(tier)) && Limit(tier) + run.ledger.overrun < TWO_63
    requires step.ReserveStep? && step.user == user && step.typ == Some(tier) && step.clock == clock && InRange(step.requested)
    requires Sum(Row(run.table, Key(user, tier, clock)), step.requested) >= TWO_63
    ensures WithinLimit(run, user, tier, clock) ==> !WithinLimit(Take(run, step, user), user, tier, clock)
  {
    HeldOfRemove(run.ledger.outstanding, 0);
    hide Held;
    if WithinLimit(run, user, tier, clock) {
      GrantedBeyondLimitIffWrapped(run.table, user, tier, step.requested, clock);
    }
  }

  ghost predicate AlwaysWithinLimit(steps: seq<Step>, user: string, tier: Tier, clock: Clock) {
    forall n :: 0 <= n <= |steps| ==> WithinLimit(TakeAll(steps[..n], user), user, tier, clock)
  }

  /** The bound holds throughout a run if and only if no check of the run wraps around. */
  lemma {:induction false} LimitHoldsIffNoWrap(steps: seq<Step>, user: string, tier: Tier, clock: Clock)
    requires Regular(steps, user, tier, clock) && !Unmetered(Some(tier))
    ensures NoWrap(steps, user, tier, clock) ==> AlwaysWithinLimit(steps, user, tier, clock)
    ensures Limit(tier) + TakeAll(steps, user).ledger.overrun < TWO_63 && AlwaysWithinLimit(steps, user, tier, clock) ==>
              NoWrap(steps, user, tier, clock)
  {
    hide Take, Balanced, WithinLimit, NoWrap, Sum;
    QuotaIsSafe(steps, user, tier, clock);
    assert steps[..|steps|] == steps;
    if steps == [] {
      NothingWrapped(user, tier, clock);
    } else {
      var init, last := steps[..|steps| - 1], steps[|steps| - 1];
      LimitHoldsIffNoWrap(init, user, tier, clock);
      QuotaIsSafe(init, user, tier, clock);
      NoWrapSnoc(steps, user, tier, clock);
      StepBalanced(TakeAll(init, user), last, user, tier, clock);
      assert forall n :: 0 <= n <= |init| ==> init[..n] == steps[..n];
      if last.ReserveStep? && last.user == user && Sum(Row(TakeAll(init, user).table, Key(user, tier, clock)), last.requested) >= TWO_63
         && Limit(tier) + TakeAll(steps, user).ledger.overrun < TWO_63 {
        WrapBreaksLimit(TakeAll(init, user), last, user, tier, clock);
        assert !WithinLimit(TakeAll(steps[..|init|], user), user, tier, clock)
               || !WithinLimit(TakeAll(steps[..|steps|], user), user, tier, clock);
      }
    }
  }

  lemma {:induction false} NothingWrapped(user: string, tier: Tier, clock: Clock)
    ensures NoWrap([], user, tier, clock)
  {
  }

  lemma {:induction false} OneMoreStep(steps: seq<Step>, step: Step, user: string, tier: Tier, clock: Clock)
    ensures TakeAll(steps + [step], user) == Take(TakeAll(steps, user), step, user)
    ensures Regular(steps + [step], user, tier, clock) <==>
              && Regular(steps, user, tier, clock)
              && (step.user == user ==>
                    && step.typ == Some(tier) && step.clock == clock && InRange(step.requested)
                    && (step.FinalizeStep? ==> step.requested in TakeAll(steps, user).ledger.outstanding))
  {
    hide Take, InRange;
    assert (steps + [step])[..|steps|] == steps;
  }

  /** One request, reserved and finished. */
  lemma {:induction false} OneRequest(tier: Tier, clock: Clock, requested: int)
    requires !Unmetered(Some(tier)) && InRange(Limit(tier)) && Max(1, requested) <= Limit(tier) && InRange(requested)
    ensures var steps := [ReserveStep("u", Some(tier), requested, clock), FinalizeStep("u", Some(tier), requested, Max(0, requested), clock)];
            && Regular(steps, "u", tier, clock)
            && TakeAll(steps, "u") == Run(map[Key("u", tier, clock) := Usage(if requested < 1 then 1 else 0, Max(0, requested), 1)],
                                          Ledger([], 0, if requested < 1 then 1 else 0))
  {
    hide TakeAll, Regular, Take, InRange, Key;
    var a, b := ReserveStep("u", Some(tier), requested, clock), FinalizeStep("u", Some(tier), requested, Max(0, requested), clock);
    NothingRegular("u", tier, clock);
    OneMoreStep([], a, "u", tier, clock);
    OneMoreStep([a], b, "u", tier, clock);
    assert [] + [a] == [a] && [a] + [b] == [a, b];
    FirstReserve(tier, clock, requested);
    ThenFinalize(tier, clock, requested);
  }

  lemma {:induction false} NothingRegular(user: string, tier: Tier, clock: Clock)
    ensures TakeAll([], user) == Run(map[], Ledger([], 0, 0)) && Regular([], user, tier, clock)
  {
  }

  lemma {:induction false} FirstReserve(tier: Tier, clock: Clock, requested: int)
    requires !Unmetered(Some(tier)) && InRange(Limit(tier)) && Max(1, requested) <= Limit(tier)
    ensures Take(Run(map[], Ledger([], 0, 0)), ReserveStep("u", Some(tier), requested, clock), "u")
         == Run(map[Key("u", tier, clock) := Usage(Max(1, requested), 0, 1)], Ledger([requested], 0, 0))
  {
    hide Finalize;
  }

  lemma {:induction false} ThenFinalize(tier: Tier, clock: Clock, requested: int)
    ensures Take(Run(map[Key("u", tier, clock) := Usage(Max(1, requested), 0, 1)], Ledger([requested], 0, 0)),
                 FinalizeStep("u", Some(tier), requested, Max(0, requested), clock), "u")
         == Run(map[Key("u", tier, clock) := Usage(if requested < 1 then 1 else 0, Max(0, requested), 1)],
                Ledger([], 0, if requested < 1 then 1 else 0))
  {
    hide Reserve;
    assert [requested][..0] == [];
  }

  /** Two requests of one user: the first uses 1024 tokens, the second asks for so many
      that the sum wraps, and is granted under a limit of a million. */
  lemma {:induction false} HugeRequestIsGranted(tier: Tier, clock: Clock) returns (steps: seq<Step>)
    requires tier == Tier("limited", 1_000_000, 0, 0)
    ensures Regular(steps, "u", tier, clock) && Limit(tier) == 1_000_000
    ensures var run := TakeAll(steps, "u");
            var row := Row(run.table, Key("u", tier, clock));
            run.ledger.overrun == 0 && row.actual + row.reserved >= TWO_63
  {
    hide TakeAll, Regular;
    OneRequest(tier, clock, 1024);
    var before := [ReserveStep("u", Some(tier), 1024, clock), FinalizeStep("u", Some(tier), 1024, 1024, clock)];
    var huge := ReserveStep("u", Some(tier), TWO_63 - 1024, clock);
    steps := before + [huge];
    OneMoreStep(before, huge, "u", tier, clock);
  }

  /** The reserved column is exactly what the running requests hold if and only if no
      finished request had asked for less than one token. */
  lemma {:induction false} ReservedIffNoLeak(steps: seq<Step>, user: string, tier: Tier, clock: Clock)
    requires Regular(steps, user, tier, clock) && !Unmetered(Some(tier))
    ensures Row(TakeAll(steps, user).table, Key(user, tier, clock)).reserved == Held(TakeAll(steps, user).ledger.outstanding)
            <==> forall i :: 0 <= i < |steps| && steps[i].FinalizeStep? && steps[i].user == user ==> steps[i].requested >= 1
  {
    QuotaIsSafe(steps, user, tier, clock);
    LeakCount(steps, user);
  }

  /** A request for nothing, finished, leaves one token reserved. */
  lemma {:induction false} EmptyRequestLeaks(tier: Tier, clock: Clock)
    requires !Unmetered(Some(tier)) && InRange(Limit(tier))
    ensures var steps := [ReserveStep("u", Some(tier), 0, clock), FinalizeStep("u", Some(tier), 0, 0, clock)];
            && Regular(steps, "u", tier, clock)
            && TakeAll(steps, "u").ledger.outstanding == [] && Row(TakeAll(steps, "u").table, Key("u", tier, clock)).reserved == 1
  {
    hide TakeAll, Regular;
    OneRequest(tier, clock, 0);
  }

  lemma {:induction false} LeakCount(steps: seq<Step>, user: string)
    ensures TakeAll(steps, user).ledger.leaked == 0
            <==> forall i :: 0 <= i < |steps| && steps[i].FinalizeStep? && steps[i].user == user ==> steps[i].requested >= 1
  {
    hide Reserve, Finalize, RemoveOne;
    if steps != [] {
      var init, last := steps[..|steps| - 1], steps[|steps| - 1];
      assert forall i :: 0 <= i < |init| ==> init[i] == steps[i];
      LeakCount(init, user);
    }
  }
}
