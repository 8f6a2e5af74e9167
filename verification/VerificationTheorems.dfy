/** What holds of the verification tables in every reachable state and over every run. */
module VerificationTheorems {
  import opened Basics
  import opened Strings
  import opened Verification

  datatype Call =
    | CreateCall(id: string, expiresAt: int, browserHash: string)
    | MarkCall(id: string, telegramId: string, username: string, displayName: string, code: string, now: int)
    | CompleteCall(id: string, browserKey: string, code: string, defaultType: string, newId: string, now: int)
    | VerifyCall(id: string, telegramId: string, username: string, displayName: string, defaultType: string, newId: string, now: int)
    | StatusCall(id: string, now: int)
    | SetActiveCall(id: string, active: bool)

  function Serve(s: Store, call: Call, env: Env): (Store, Reply)
    requires UniqueTelegram(s.users)
  {
    match call
    case CreateCall(id, expiresAt, browserHash) => Create(s, id, expiresAt, browserHash)
    case MarkCall(id, telegramId, username, displayName, code, now) => Mark(s, id, telegramId, username, displayName, code, now, env)
    case CompleteCall(id, browserKey, code, defaultType, newId, now) => Complete(s, id, browserKey, code, defaultType, newId, now, env)
    case VerifyCall(id, telegramId, username, displayName, defaultType, newId, now) =>
      Verify(s, id, telegramId, username, displayName, defaultType, newId, now, env)
    case StatusCall(id, now) => GetStatus(s, id, now)
    case SetActiveCall(id, active) => SetActive(s, id, active)
  }

  // ----- one step -----

  ghost predicate WellKept(c: Challenge) {
    && c.attempts <= MAX_ATTEMPTS
    && (c.status.Pending? || c.status.Expired? <==> c.telegramId.None?)
    && (c.status.TelegramVerified? <==> c.confirmation.Some?)
  }

  /** At most one challenge per Telegram id waits for its code. */
  ghost predicate OneWaiting(cs: map<string, Challenge>) {
    forall a, b ::
      && a in cs && cs[a].status.TelegramVerified?
      && b in cs && cs[b].status.TelegramVerified?
      && cs[a].telegramId == cs[b].telegramId
      ==> a == b
  }

  ghost predicate Valid(s: Store) {
    && UniqueTelegram(s.users) && OneWaiting(s.challenges)
    && forall id :: id in s.challenges ==> WellKept(s.challenges[id])
  }

  /** The only ways a status may change. */
  predicate Moves(a: Status, b: Status) {
    a == b || (a.Pending? && (b.TelegramVerified? || b.Verified? || b.Expired?)) || (a.TelegramVerified? && (b.Completed? || b.Superseded?))
  }

  /** What one call may do to a challenge. */
  predicate ChallengeMoves(a: Challenge, b: Challenge) {
    && Moves(a.status, b.status)
    && (a.telegramId.Some? ==> b.telegramId == a.telegramId)
    && (a.status == b.status && a.confirmation.Some? ==> b.confirmation == a.confirmation)
    && a.attempts <= b.attempts && a.browserHash == b.browserHash && a.expiresAt == b.expiresAt
  }

  ghost predicate StoreMoves(s: Store, s': Store) {
    forall id :: id in s.challenges ==> id in s'.challenges && ChallengeMoves(s.challenges[id], s'.challenges[id])
  }

  lemma {:induction false} ReplaceOne(s: Store, id: string, c: Challenge)
    requires Valid(s) && id in s.challenges && WellKept(c) && ChallengeMoves(s.challenges[id], c)
    requires c.status.TelegramVerified? ==> s.challenges[id].status.TelegramVerified?
    ensures var s' := s.(challenges := s.challenges[id := c]); Valid(s') && StoreMoves(s, s')
  {
    hide UniqueTelegram;
  }

  lemma {:induction false} UsersKept(users: map<string, User>, telegramId: string, username: string, displayName: string,
                                     defaultType: string, newId: string, env: Env)
    requires UniqueTelegram(users)
    ensures var r := EnsureUser(users, telegramId, username, displayName, defaultType, newId, env);
            r.Some? ==>
              && UniqueTelegram(r.value.0) && r.value.1 in r.value.0
              && UserOf(r.value.0, telegramId) == {r.value.1}
  {
    var r := EnsureUser(users, telegramId, username, displayName, defaultType, newId, env);
    if r.Some? {
      var id := r.value.1;
      assert users.Keys <= r.value.0.Keys;
      assert forall u :: u in users && users[u].telegramId == telegramId ==> u in UserOf(users, telegramId);
      assert forall u :: u in UserOf(users, telegramId) ==> u == id;
    }
  }

  lemma {:induction false} MarkKeeps(s: Store, rawId: string, rawTelegramId: string, username: string, displayName: string, code: string,
                                     now: int, env: Env)
    requires Valid(s)
    ensures var s' := Mark(s, rawId, rawTelegramId, username, displayName, code, now, env).0; Valid(s') && StoreMoves(s, s')
  {
    hide UniqueTelegram, UserOf, Supersede;
    var id, telegramId := TrimSpace(rawId), TrimSpace(rawTelegramId);
    var (s', r) := Mark(s, rawId, rawTelegramId, username, displayName, code, now, env);
    if r.CodeIssued? {
      SupersedeKeeps(s.challenges, telegramId, id);
    }
  }

  lemma {:induction false} SupersedeKeeps(cs: map<string, Challenge>, telegramId: string, except: string)
    requires forall id :: id in cs ==> WellKept(cs[id])
    ensures var cs' := Supersede(cs, telegramId, except);
            && cs'.Keys == cs.Keys
            && (forall id :: id in cs ==> WellKept(cs'[id]) && ChallengeMoves(cs[id], cs'[id]))
            && (forall id :: id in cs && cs'[id].status.TelegramVerified? ==>
                  cs'[id] == cs[id] && (id == except || cs[id].telegramId != Some(telegramId)))
            && (except in cs ==> cs'[except] == cs[except])
  {
  }

  /** Every call keeps the invariant and moves challenges only along the allowed edges. */
  lemma {:induction false} ServeKeeps(s: Store, call: Call, env: Env)
    requires Valid(s)
    ensures var s' := Serve(s, call, env).0; Valid(s') && StoreMoves(s, s')
  {
    match call
    case CreateCall(id, expiresAt, browserHash) =>
    case MarkCall(id, telegramId, username, displayName, code, now) =>
      MarkKeeps(s, id, telegramId, username, displayName, code, now, env);
    case CompleteCall(id, browserKey, code, defaultType, newId, now) =>
      CompleteKeeps(s, id, browserKey, code, defaultType, newId, now, env);
    case VerifyCall(id, telegramId, username, displayName, defaultType, newId, now) =>
      VerifyKeeps(s, id, telegramId, username, displayName, defaultType, newId, now, env);
    case StatusCall(id, now) =>
      if id in s.challenges && now > s.challenges[id].expiresAt && s.challenges[id].status == Pending {
        ReplaceOne(s, id, s.challenges[id].(status := Expired));
      }
    case SetActiveCall(id, active) =>
  }

  lemma {:induction false} CompleteKeeps(s: Store, id: string, browserKey: string, code: string, defaultType: string, newId: string,
                                         now: int, env: Env)
    requires Valid(s)
    ensures var s' := Complete(s, id, browserKey, code, defaultType, newId, now, env).0; Valid(s') && StoreMoves(s, s')
  {
    hide UniqueTelegram, EnsureUser, UserOf, OneWaiting;
    var (s', r) := Complete(s, id, browserKey, code, defaultType, newId, now, env);
    if id in s.challenges && s.challenges[id].telegramId.Some? {
      var c := s.challenges[id];
      UsersKept(s.users, c.telegramId.value, c.username, c.displayName, defaultType, newId, env);
      if r.UserIs? {
        ReplaceOne(s, id, c.(status := Completed, confirmation := None));
      } else if s' != s {
        ReplaceOne(s, id, c.(attempts := c.attempts + 1));
      }
    }
  }

  lemma {:induction false} VerifyKeeps(s: Store, rawId: string, rawTelegramId: string, username: string, displayName: string,
                                       defaultType: string, newId: string, now: int, env: Env)
    requires Valid(s)
    ensures var s' := Verify(s, rawId, rawTelegramId, username, displayName, defaultType, newId, now, env).0; Valid(s') && StoreMoves(s, s')
  {
    hide UniqueTelegram, EnsureUser, UserOf, OneWaiting;
    var id, telegramId := TrimSpace(rawId), TrimSpace(rawTelegramId);
    var (s', r) := Verify(s, rawId, rawTelegramId, username, displayName, defaultType, newId, now, env);
    if r.UserIs? {
      UsersKept(s.users, telegramId, username, displayName, defaultType, newId, env);
      var c := s.challenges[id];
      ReplaceOne(s, id, c.(telegramId := Some(telegramId), username := username, displayName := displayName, status := Status.Verified));
    }
  }

  // ----- runs -----

  datatype Log = Log(store: Store, replies: seq<Reply>)

  function ServeAll(calls: seq<Call>, env: Env): (log: Log)
    ensures |log.replies| == |calls|
    ensures UniqueTelegram(log.store.users)
  {
    if calls == [] then Log(Store(map[], map[]), []) else
    var before := ServeAll(calls[..|calls| - 1], env);
    var (s, reply) := Serve(before.store, calls[|calls| - 1], env);
    ServeUnique(before.store, calls[|calls| - 1], env);
    Log(s, before.replies + [reply])
  }

  lemma {:induction false} ServeUnique(s: Store, call: Call, env: Env)
    requires UniqueTelegram(s.users)
    ensures UniqueTelegram(Serve(s, call, env).0.users)
  {
    hide EnsureUser, Mark, GetStatus;
    match call
    case CompleteCall(id, browserKey, code, defaultType, newId, now) =>
      if id in s.challenges && s.challenges[id].telegramId.Some? {
        var c := s.challenges[id];
        UsersKept(s.users, c.telegramId.value, c.username, c.displayName, defaultType, newId, env);
      }
    case VerifyCall(id, telegramId, username, displayName, defaultType, newId, now) =>
      UsersKept(s.users, TrimSpace(telegramId), username, displayName, defaultType, newId, env);
    case MarkCall(id, telegramId, username, displayName, code, now) =>
      MarkKeepsUsers(s, call, env);
    case StatusCall(id, now) =>
      MarkKeepsUsers(s, call, env);
    case _ =>
  }

  lemma {:induction false} MarkKeepsUsers(s: Store, call: Call, env: Env)
    requires UniqueTelegram(s.users) && (call.MarkCall? || call.StatusCall?)
    ensures Serve(s, call, env).0.users == s.users
  {
  }

  /** The invariant, in every reachable state. */
  lemma {:induction false} AlwaysValid(calls: seq<Call>, env: Env)
    ensures Valid(ServeAll(calls, env).store)
  {
    hide Serve, Valid;
    if calls == [] {
      EmptyIsValid();
    } else {
      AlwaysValid(calls[..|calls| - 1], env);
      ServeKeeps(ServeAll(calls[..|calls| - 1], env).store, calls[|calls| - 1], env);
    }
  }

  lemma {:induction false} EmptyIsValid()
    ensures Valid(Store(map[], map[]))
  {
  }

  function StoreAt(calls: seq<Call>, n: nat, env: Env): Store
    requires n <= |calls|
  {
    ServeAll(calls[..n], env).store
  }

  lemma {:induction false} NextStore(calls: seq<Call>, n: nat, env: Env)
    requires n < |calls|
    ensures UniqueTelegram(StoreAt(calls, n, env).users)
    ensures StoreAt(calls, n + 1, env) == Serve(StoreAt(calls, n, env), calls[n], env).0
    ensures Valid(StoreAt(calls, n, env)) && StoreMoves(StoreAt(calls, n, env), StoreAt(calls, n + 1, env))
  {
    hide Serve, Valid, StoreMoves;
    assert calls[..n + 1][..n] == calls[..n];
    AlwaysValid(calls[..n], env);
    ServeKeeps(StoreAt(calls, n, env), calls[n], env);
  }

  lemma {:induction false} ReplyAt(calls: seq<Call>, n: nat, env: Env)
    requires n < |calls|
    ensures UniqueTelegram(StoreAt(calls, n, env).users)
    ensures ServeAll(calls, env).replies[n] == Serve(StoreAt(calls, n, env), calls[n], env).1
    decreases |calls|
  {
    hide Serve;
    if n < |calls| - 1 {
      var init := calls[..|calls| - 1];
      ReplyAt(init, n, env);
      assert init[..n] == calls[..n];
    }
  }

  /** A settled challenge stays as it is: completed, superseded, verified and expired are final. */
  lemma {:induction false} FinalForGood(calls: seq<Call>, i: nat, j: nat, id: string, env: Env)
    requires i <= j <= |calls| && id in StoreAt(calls, i, env).challenges
    requires var st := StoreAt(calls, i, env).challenges[id].status; !st.Pending? && !st.TelegramVerified?
    ensures id in StoreAt(calls, j, env).challenges
    ensures StoreAt(calls, j, env).challenges[id].status == StoreAt(calls, i, env).challenges[id].status
    decreases j - i
  {
    hide Serve, Valid, StoreAt;
    if i < j {
      FinalForGood(calls, i, j - 1, id, env);
      NextStore(calls, j - 1, env);
    }
  }

  predicate CompletedBy(calls: seq<Call>, n: nat, id: string, env: Env)
    requires n < |calls|
  {
    calls[n].CompleteCall? && calls[n].id == id && ServeAll(calls, env).replies[n].UserIs?
  }

  lemma {:induction false} CompletionStep(calls: seq<Call>, n: nat, id: string, env: Env)
    requires n < |calls| && CompletedBy(calls, n, id, env)
    ensures var s, s' := StoreAt(calls, n, env), StoreAt(calls, n + 1, env);
            && id in s.challenges && s.challenges[id].status.TelegramVerified? && s.challenges[id].telegramId.Some?
            && s.challenges[id].confirmation.Some? && s.challenges[id].attempts < MAX_ATTEMPTS
            && env.hash(TrimSpace(calls[n].code)) == s.challenges[id].confirmation.value.hash
            && id in s'.challenges && s'.challenges[id].status.Completed?
            && UserOf(s'.users, s.challenges[id].telegramId.value) == {ServeAll(calls, env).replies[n].id}
  {
    ReplyAt(calls, n, env);
    NextStore(calls, n, env);
    var s, call := StoreAt(calls, n, env), calls[n];
    hide EnsureUser, UniqueTelegram, Valid, StoreMoves, StoreAt, ServeAll, UserOf;
    var c := s.challenges[id];
    UsersKept(s.users, c.telegramId.value, c.username, c.displayName, call.defaultType, call.newId, env);
  }

  /** No challenge completes twice. */
  lemma {:induction false} CompletesOnce(calls: seq<Call>, i: nat, j: nat, id: string, env: Env)
    requires i < j < |calls| && CompletedBy(calls, i, id, env)
    ensures !CompletedBy(calls, j, id, env)
  {
    hide StoreAt;
    CompletionStep(calls, i, id, env);
    FinalForGood(calls, i + 1, j, id, env);
    if CompletedBy(calls, j, id, env) {
      CompletionStep(calls, j, id, env);
    }
  }

  /** Call `m` is the one that proved `id` in Telegram. */
  predicate MarkedBy(calls: seq<Call>, m: nat, id: string, env: Env)
    requires m < |calls|
  {
    calls[m].MarkCall? && TrimSpace(calls[m].id) == id && ServeAll(calls, env).replies[m].CodeIssued?
  }

  predicate Waiting(s: Store, id: string) {
    id in s.challenges && s.challenges[id].status.TelegramVerified?
  }

  lemma {:induction false} MarkEffect(s: Store, call: Call, env: Env)
    requires UniqueTelegram(s.users) && call.MarkCall?
    ensures var (s', r) := Serve(s, call, env);
            var id := TrimSpace(call.id);
            && (r.CodeIssued? ==>
                  && id in s.challenges && s.challenges[id].status.Pending? && Waiting(s', id)
                  && s'.challenges[id].telegramId == Some(TrimSpace(call.telegramId))
                  && s'.challenges[id].confirmation.Some? && s'.challenges[id].confirmation.value.hash == env.hash(call.code))
            && forall x :: Waiting(s', x) && !(r.CodeIssued? && x == id) ==> Waiting(s, x)
  {
    hide UniqueTelegram, UserOf, TrimSpace;
  }

  lemma {:induction false} OnlyMarkingStarts(s: Store, call: Call, id: string, env: Env)
    requires UniqueTelegram(s.users) && !call.MarkCall?
    ensures Waiting(Serve(s, call, env).0, id) ==> Waiting(s, id)
  {
    hide UniqueTelegram, UserOf, TrimSpace, EnsureUser, Mark;
  }

  lemma {:induction false} MarkStep(calls: seq<Call>, n: nat, id: string, env: Env)
    requires n < |calls| && id in StoreAt(calls, n + 1, env).challenges
    requires StoreAt(calls, n + 1, env).challenges[id].status.TelegramVerified?
    ensures var s, s' := StoreAt(calls, n, env), StoreAt(calls, n + 1, env);
            if MarkedBy(calls, n, id, env) then
              && id in s.challenges && s.challenges[id].status.Pending?
              && s'.challenges[id].telegramId == Some(TrimSpace(calls[n].telegramId))
              && s'.challenges[id].confirmation.Some? && s'.challenges[id].confirmation.value.hash == env.hash(calls[n].code)
            else
              id in s.challenges && s.challenges[id].status.TelegramVerified?
  {
    hide StoreAt, ServeAll, UniqueTelegram, Serve, Valid, StoreMoves, TrimSpace;
    ReplyAt(calls, n, env);
    NextStore(calls, n, env);
    assert Waiting(StoreAt(calls, n + 1, env), id);
    if calls[n].MarkCall? {
      MarkEffect(StoreAt(calls, n, env), calls[n], env);
    } else {
      OnlyMarkingStarts(StoreAt(calls, n, env), calls[n], id, env);
    }
  }

  /** A challenge waiting for its code was proved by exactly one earlier call, whose Telegram id and code it carries. */
  lemma {:induction false} WaitingWasMarked(calls: seq<Call>, n: nat, id: string, env: Env) returns (m: nat)
    requires n <= |calls| && id in StoreAt(calls, n, env).challenges
    requires StoreAt(calls, n, env).challenges[id].status.TelegramVerified?
    ensures m < n && MarkedBy(calls, m, id, env)
    ensures forall x :: 0 <= x < n && MarkedBy(calls, x, id, env) ==> x == m
    ensures var c := StoreAt(calls, n, env).challenges[id];
            && c.telegramId == Some(TrimSpace(calls[m].telegramId))
            && c.confirmation.Some? && c.confirmation.value.hash == env.hash(calls[m].code)
  {
    hide StoreAt, Serve, Valid, MarkedBy;
    StartsEmpty(calls, env);
    assert n > 0;
    MarkStep(calls, n - 1, id, env);
    NextStore(calls, n - 1, env);
    if MarkedBy(calls, n - 1, id, env) {
      m := n - 1;
      forall x | 0 <= x < n && MarkedBy(calls, x, id, env) ensures x == m {
        PendingUnmarked(calls, x, n - 1, id, env);
      }
    } else {
      m := WaitingWasMarked(calls, n - 1, id, env);
    }
  }

  lemma {:induction false} StartsEmpty(calls: seq<Call>, env: Env)
    ensures StoreAt(calls, 0, env) == Store(map[], map[])
  {
  }

  /** A pending challenge has not been marked. */
  lemma {:induction false} PendingUnmarked(calls: seq<Call>, x: nat, n: nat, id: string, env: Env)
    requires x < |calls| && n < |calls| && id in StoreAt(calls, n, env).challenges && StoreAt(calls, n, env).challenges[id].status.Pending?
    ensures MarkedBy(calls, x, id, env) ==> n <= x
    decreases n
  {
    hide StoreAt, Valid, MarkedBy;
    if x < n && MarkedBy(calls, x, id, env) {
      NextStore(calls, n - 1, env);
      if x == n - 1 {
        MarkLeaves(calls, x, id, env);
      } else if id in StoreAt(calls, n - 1, env).challenges {
        PendingUnmarked(calls, x, n - 1, id, env);
      } else {
        MarkedExists(calls, x, n - 1, id, env);
      }
    }
  }

  lemma {:induction false} MarkLeaves(calls: seq<Call>, x: nat, id: string, env: Env)
    requires x < |calls| && MarkedBy(calls, x, id, env)
    ensures id in StoreAt(calls, x + 1, env).challenges && StoreAt(calls, x + 1, env).challenges[id].status.TelegramVerified?
  {
    ReplyAt(calls, x, env);
    NextStore(calls, x, env);
    hide StoreAt, ServeAll, UserOf, TrimSpace;
  }

  lemma {:induction false} MarkedExists(calls: seq<Call>, x: nat, n: nat, id: string, env: Env)
    requires x < n <= |calls| && MarkedBy(calls, x, id, env)
    ensures id in StoreAt(calls, n, env).challenges
    decreases n
  {
    hide StoreAt, MarkedBy, Valid, ChallengeMoves;
    if n == x + 1 {
      MarkLeaves(calls, x, id, env);
    } else {
      MarkedExists(calls, x, n - 1, id, env);
      NextStore(calls, n - 1, env);
    }
  }

  /** A completion answers with the one user who carries the Telegram id recorded by the
      one call that proved the challenge, and was given a code hashing like the issued one. */
  lemma {:induction false} CompletionNamesTheUser(calls: seq<Call>, n: nat, id: string, env: Env) returns (m: nat)
    requires n < |calls| && CompletedBy(calls, n, id, env)
    ensures m < n && MarkedBy(calls, m, id, env)
    ensures forall x :: 0 <= x < n && MarkedBy(calls, x, id, env) ==> x == m
    ensures UserOf(StoreAt(calls, n + 1, env).users, TrimSpace(calls[m].telegramId)) == {ServeAll(calls, env).replies[n].id}
    ensures env.hash(TrimSpace(calls[n].code)) == env.hash(calls[m].code)
  {
    hide StoreAt, Serve, Valid, MarkedBy, CompletedBy, UserOf, TrimSpace;
    CompletionStep(calls, n, id, env);
    m := WaitingWasMarked(calls, n, id, env);
  }
}
