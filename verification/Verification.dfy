/** Telegram verification: a challenge opened by a browser, proved in Telegram, and
    confirmed with a code (backend/internal/db/users.go). Each call is one transaction. */
module Verification {
  import opened Basics
  import opened Strings

  datatype Status = Pending | TelegramVerified | Verified | Expired | Superseded | Completed

  datatype Confirmation = Confirmation(hash: string, expiresAt: int)

  datatype Challenge = Challenge(expiresAt: int, browserHash: string, telegramId: Option<string>, username: string, displayName: string,
                                 status: Status, confirmation: Option<Confirmation>, attempts: nat)

  datatype User = User(telegramId: string, username: string, displayName: string, accountType: string, active: bool)

  datatype Store = Store(challenges: map<string, Challenge>, users: map<string, User>)

  const CONFIRMATION_TTL := 300

  const MAX_ATTEMPTS := 5

  /** The account types in use and the hash of secrets. */
  datatype Env = Env(typeActive: string -> bool, hash: string -> string)

  datatype Reply =
    | Accepted
    | CodeIssued(code: string)
    | UserIs(id: string)
    | StatusIs(status: Status, user: Option<string>)
    | Banned
    | Failed

  function UserOf(users: map<string, User>, telegramId: string): set<string> {
    set id | id in users && users[id].telegramId == telegramId
  }

  /** The UNIQUE constraint on users.telegramUserId. */
  ghost predicate UniqueTelegram(users: map<string, User>) {
    forall a, b :: a in users && b in users && users[a].telegramId == users[b].telegramId ==> a == b
  }

  function Renamed(u: User, username: string, displayName: string): User {
    u.(username := if username == "" then u.username else username,
       displayName := if displayName == "" then u.displayName else displayName)
  }

  function Create(s: Store, id: string, expiresAt: int, browserHash: string): (Store, Reply) {
    if id in s.challenges then (s, Failed)
    else (s.(challenges := s.challenges[id := Challenge(expiresAt, browserHash, None, "", "", Pending, None, 0)]), Accepted)
  }

  /** Other challenges waiting for a code for the same Telegram id are superseded. */
  function Supersede(cs: map<string, Challenge>, telegramId: string, except: string): map<string, Challenge> {
    map id | id in cs ::
      if id != except && cs[id].status == TelegramVerified && cs[id].telegramId == Some(telegramId)
      then cs[id].(status := Superseded, confirmation := None) else cs[id]
  }

  function Open(s: Store, id: string, now: int): bool {
    id in s.challenges && now <= s.challenges[id].expiresAt && s.challenges[id].status == Pending
  }

  /** `MarkChallengeTelegramVerified`. */
  function Mark(s: Store, rawId: string, rawTelegramId: string, username: string, displayName: string, code: string, now: int, env: Env)
    : (Store, Reply)
  {
    var id, telegramId := TrimSpace(rawId), TrimSpace(rawTelegramId);
    if id == "" || telegramId == "" || !Open(s, id, now) then (s, Failed)
    else if exists u :: u in UserOf(s.users, telegramId) && !s.users[u].active then (s, Banned)
    else
      var cs := Supersede(s.challenges, telegramId, id);
      (s.(challenges := cs[id := cs[id].(telegramId := Some(telegramId), username := username, displayName := displayName,
                                         status := TelegramVerified,
                                         confirmation := Some(Confirmation(env.hash(code), now + CONFIRMATION_TTL)))]),
       CodeIssued(code))
  }

  function DefaultType(t: string): string {
    if t == "" then "user" else t
  }

  /** The user of a Telegram id: the one there is, or a new one if the type is in use. */
  function EnsureUser(users: map<string, User>, telegramId: string, username: string, displayName: string, defaultType: string,
                      newId: string, env: Env): Option<(map<string, User>, string)>
    requires UniqueTelegram(users)
  {
    var found := UserOf(users, telegramId);
    if found != {} then
      var id := TheUser(users, telegramId);
      Some((users[id := Renamed(users[id], username, displayName)], id))
    else if !env.typeActive(DefaultType(defaultType)) || newId in users then None
    else Some((users[newId := User(telegramId, username, displayName, DefaultType(defaultType), true)], newId))
  }

  /** The single member of `UserOf`. */
  function TheUser(users: map<string, User>, telegramId: string): (id: string)
    requires UserOf(users, telegramId) != {} && UniqueTelegram(users)
    ensures id in UserOf(users, telegramId)
  {
    var id :| id in UserOf(users, telegramId);
    id
  }

  /** `CompleteVerification`. */
  function Complete(s: Store, id: string, browserKey: string, code: string, defaultType: string, newId: string, now: int, env: Env)
    : (Store, Reply)
    requires UniqueTelegram(s.users)
  {
    if id !in s.challenges then (s, Failed) else
    var c := s.challenges[id];
    if c.telegramId.None? || c.confirmation.None? || c.browserHash == "" || env.hash(browserKey) != c.browserHash then (s, Failed)
    else if c.status != TelegramVerified || c.attempts >= MAX_ATTEMPTS || now > c.expiresAt || now > c.confirmation.value.expiresAt
    then (s, Failed)
    else if env.hash(TrimSpace(code)) != c.confirmation.value.hash
    then (s.(challenges := s.challenges[id := c.(attempts := c.attempts + 1)]), Failed)
    else
      var telegramId := c.telegramId.value;
      if exists u :: u in UserOf(s.users, telegramId) && !s.users[u].active then (s, Banned) else
      match EnsureUser(s.users, telegramId, c.username, c.displayName, defaultType, newId, env)
      case None => (s, Failed)
      case Some((users, user)) =>
        (Store(s.challenges[id := c.(status := Completed, confirmation := None)], users), UserIs(user))
  }

  /** `VerifyChallenge`, the one-step form. */
  function Verify(s: Store, rawId: string, rawTelegramId: string, username: string, displayName: string, defaultType: string,
                  newId: string, now: int, env: Env): (Store, Reply)
    requires UniqueTelegram(s.users)
  {
    var id, telegramId := TrimSpace(rawId), TrimSpace(rawTelegramId);
    if id == "" || telegramId == "" || !Open(s, id, now) then (s, Failed) else
    match EnsureUser(s.users, telegramId, username, displayName, defaultType, newId, env)
    case None => (s, Failed)
    case Some((users, user)) =>
      (Store(s.challenges[id := s.challenges[id].(telegramId := Some(telegramId), username := username, displayName := displayName,
                                                  status := Status.Verified)], users),
       UserIs(user))
  }

  /** `GetVerificationStatus`; reading an overdue challenge expires it. */
  function GetStatus(s: Store, id: string, now: int): (Store, Reply)
    requires UniqueTelegram(s.users)
  {
    if id !in s.challenges then (s, Failed) else
    var c := s.challenges[id];
    if now > c.expiresAt && c.status == Pending
    then (s.(challenges := s.challenges[id := c.(status := Expired)]), StatusIs(Expired, None))
    else if c.status != Status.Verified || c.telegramId.None? then (s, StatusIs(c.status, None))
    else
      (s, StatusIs(c.status, if UserOf(s.users, c.telegramId.value) == {} then None else Some(TheUser(s.users, c.telegramId.value))))
  }

  function SetActive(s: Store, user: string, active: bool): (Store, Reply) {
    if user !in s.users then (s, Failed) else (s.(users := s.users[user := s.users[user].(active := active)]), Accepted)
  }

  class Repo {
    var challenges: map<string, Challenge>
    var users: map<string, User>
    const env: Env

    ghost function View(): Store
      reads this
    {
      Store(challenges, users)
    }

    constructor (env: Env)
      ensures View() == Store(map[], map[]) && this.env == env
    {
      challenges, users := map[], map[];
      this.env := env;
    }

    method CreateVerificationChallenge(id: string, expiresAt: int, browserHash: string) returns (r: Reply)
      modifies this
      ensures (View(), r) == Create(old(View()), id, expiresAt, browserHash)
    {
      if id in challenges {
        return Failed;
      }
      challenges := challenges[id := Challenge(expiresAt, browserHash, None, "", "", Pending, None, 0)];
      r := Accepted;
    }

    method FindUser(telegramId: string) returns (id: Option<string>)
      requires UniqueTelegram(users)
      ensures id.None? <==> UserOf(users, telegramId) == {}
      ensures id.Some? ==> id.value in users && id.value == TheUser(users, telegramId) && UserOf(users, telegramId) == {id.value}
    {
      var found := UserOf(users, telegramId);
      if found == {} {
        return None;
      }
      var u := AnyElement(found);
      assert TheUser(users, telegramId) in found;
      return Some(u);
    }

    method MarkChallengeTelegramVerified(rawId: string, rawTelegramId: string, username: string, displayName: string, code: string, now: int)
      returns (r: Reply)
      requires UniqueTelegram(users)
      modifies this
      ensures (View(), r) == Mark(old(View()), rawId, rawTelegramId, username, displayName, code, now, env)
    {
      var id, telegramId := TrimSpace(rawId), TrimSpace(rawTelegramId);
      if id == "" || telegramId == "" || id !in challenges {
        return Failed;
      }
      if now > challenges[id].expiresAt || challenges[id].status != Pending {
        return Failed;
      }
      var user := FindUser(telegramId);
      if user.Some? && !users[user.value].active {
        assert user.value in UserOf(users, telegramId);
        return Banned;
      }
      challenges := Supersede(challenges, telegramId, id);
      challenges := challenges[id := challenges[id].(telegramId := Some(telegramId), username := username, displayName := displayName,
                                                     status := TelegramVerified,
                                                     confirmation := Some(Confirmation(env.hash(code), now + CONFIRMATION_TTL)))];
      r := CodeIssued(code);
    }

    /** Finds or inserts the user of a Telegram id. */
    method UpsertUser(telegramId: string, username: string, displayName: string, defaultType: string, newId: string)
      returns (id: Option<string>)
      requires UniqueTelegram(users)
      modifies this`users
      ensures var found := EnsureUser(old(users), telegramId, username, displayName, defaultType, newId, env);
              if id.Some? then found == Some((users, id.value)) else found.None? && users == old(users)
    {
      id := FindUser(telegramId);
      if id.Some? {
        if username != "" || displayName != "" {
          users := users[id.value := Renamed(users[id.value], username, displayName)];
        } else {
          assert users[id.value := users[id.value]] == users;
        }
        return;
      }
      if !env.typeActive(DefaultType(defaultType)) || newId in users {
        return None;
      }
      users := users[newId := User(telegramId, username, displayName, DefaultType(defaultType), true)];
      id := Some(newId);
    }

    method CompleteVerification(id: string, browserKey: string, code: string, defaultType: string, newId: string, now: int)
      returns (r: Reply)
      requires UniqueTelegram(users)
      modifies this
      ensures (View(), r) == Complete(old(View()), id, browserKey, code, defaultType, newId, now, env)
    {
      if id !in challenges || challenges[id].telegramId.None? || challenges[id].confirmation.None? {
        return Failed;
      }
      var c := challenges[id];
      if c.browserHash == "" || env.hash(browserKey) != c.browserHash {
        return Failed;
      }
      if c.status != TelegramVerified || c.attempts >= MAX_ATTEMPTS || now > c.expiresAt || now > c.confirmation.value.expiresAt {
        return Failed;
      }
      if env.hash(TrimSpace(code)) != c.confirmation.value.hash {
        challenges := challenges[id := c.(attempts := c.attempts + 1)];
        return Failed;
      }
      var user := FindUser(c.telegramId.value);
      if user.Some? && !users[user.value].active {
        assert user.value in UserOf(users, c.telegramId.value);
        return Banned;
      }
      user := UpsertUser(c.telegramId.value, c.username, c.displayName, defaultType, newId);
      if user.None? {
        return Failed;
      }
      challenges := challenges[id := c.(status := Completed, confirmation := None)];
      r := UserIs(user.value);
    }

    method VerifyChallenge(rawId: string, rawTelegramId: string, username: string, displayName: string, defaultType: string,
                           newId: string, now: int) returns (r: Reply)
      requires UniqueTelegram(users)
      modifies this
      ensures (View(), r) == Verify(old(View()), rawId, rawTelegramId, username, displayName, defaultType, newId, now, env)
    {
      var id, telegramId := TrimSpace(rawId), TrimSpace(rawTelegramId);
      if id == "" || telegramId == "" || id !in challenges {
        return Failed;
      }
      if now > challenges[id].expiresAt || challenges[id].status != Pending {
        return Failed;
      }
      var user := UpsertUser(telegramId, username, displayName, defaultType, newId);
      if user.None? {
        return Failed;
      }
      challenges := challenges[id := challenges[id].(telegramId := Some(telegramId), username := username, displayName := displayName,
                                                     status := Status.Verified)];
      r := UserIs(user.value);
    }

    method GetVerificationStatus(id: string, now: int) returns (r: Reply)
      requires UniqueTelegram(users)
      modifies this
      ensures (View(), r) == GetStatus(old(View()), id, now)
    {
      if id !in challenges {
        return Failed;
      }
      var c := challenges[id];
      if now > c.expiresAt && c.status == Pending {
        challenges := challenges[id := c.(status := Expired)];
        return StatusIs(Expired, None);
      }
      if c.status != Status.Verified || c.telegramId.None? {
        return StatusIs(c.status, None);
      }
      var user := FindUser(c.telegramId.value);
      r := StatusIs(c.status, user);
    }
  }
}
