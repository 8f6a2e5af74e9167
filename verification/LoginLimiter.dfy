/** The login limiter: failures counted in a window, a lock after the fifth, and a
    table that is pruned when full (backend/internal/handlers/auth_handlers.go).
    Times are nanoseconds; the zero time is 0. */
module LoginLimiter {
  import opened Basics

  const WINDOW := 300_000_000_000

  const LIMIT := 5

  const LOCK := 300_000_000_000

  const MAX_IPS := 10_000

  datatype Failures = Failures(firstFailure: int, lastFailure: int, count: int, lockedUntil: int)

  const NO_FAILURES := Failures(0, 0, 0, 0)

  type Table = map<string, Failures>

  /** The lock that is in force, and how long it lasts. */
  datatype Lock = Unlocked | Locked(wait: int)

  /** The reply to a failed attempt: locked now, or that many attempts left. */
  datatype Verdict = LockedFor(wait: int) | Remaining(attempts: int)

  function LockOf(t: Table, ip: string, now: int): Lock {
    if ip !in t || now > t[ip].lockedUntil then Unlocked else Locked(t[ip].lockedUntil - now)
  }

  predicate Expired(f: Failures, now: int) {
    now - f.lastFailure > WINDOW && now > f.lockedUntil
  }

  function Prune(t: Table, now: int): Table {
    if |t| < MAX_IPS then t else map ip | ip in t && !Expired(t[ip], now) :: t[ip]
  }

  function Failed(f: Failures, now: int): Failures {
    var base := if f.firstFailure == 0 || now - f.firstFailure > WINDOW then NO_FAILURES.(firstFailure := now) else f;
    Failures(base.firstFailure, now, base.count + 1, if base.count + 1 >= LIMIT then now + LOCK else base.lockedUntil)
  }

  function Get(t: Table, ip: string): Failures {
    if ip in t then t[ip] else NO_FAILURES
  }

  function VerdictOf(f: Failures, now: int): Verdict {
    if f.lockedUntil > now then LockedFor(f.lockedUntil - now)
    else Remaining(if LIMIT - f.count < 0 then 0 else LIMIT - f.count)
  }

  function Record(t: Table, ip: string, now: int): (Table, Verdict) {
    var f := Failed(Get(Prune(t, now), ip), now);
    (Prune(t, now)[ip := f], VerdictOf(f, now))
  }

  class Limiter {
    var entries: Table

    constructor ()
      ensures entries == map[]
    {
      entries := map[];
    }

    method LoginLocked(ip: string, now: int) returns (wait: int, locked: bool)
      ensures (if locked then Locked(wait) else Unlocked) == LockOf(entries, ip, now)
      ensures !locked ==> wait == 0
    {
      if ip !in entries || now > entries[ip].lockedUntil {
        return 0, false;
      }
      return entries[ip].lockedUntil - now, true;
    }

    method PruneFull(now: int)
      modifies this
      ensures entries == Prune(old(entries), now)
    {
      if |entries| < MAX_IPS {
        return;
      }
      var remaining := entries.Keys;
      while remaining != {}
        invariant remaining <= old(entries).Keys
        invariant forall k :: k in entries <==> k in old(entries) && (k in remaining || !Expired(old(entries)[k], now))
        invariant forall k :: k in entries ==> entries[k] == old(entries)[k]
        decreases remaining
      {
        var candidate := AnyElement(remaining);
        remaining := remaining - {candidate};
        var state := entries[candidate];
        if now - state.lastFailure > WINDOW && now > state.lockedUntil {
          entries := entries - {candidate};
        }
      }
    }

    method RecordLoginFailure(ip: string, now: int) returns (wait: int, locked: bool, remaining: int)
      modifies this
      ensures (entries, if locked then LockedFor(wait) else Remaining(remaining)) == Record(old(entries), ip, now)
      ensures if locked then remaining == 0 else wait == 0
    {
      PruneFull(now);
      var state := if ip in entries then entries[ip] else NO_FAILURES;
      if state.firstFailure == 0 || now - state.firstFailure > WINDOW {
        state := NO_FAILURES.(firstFailure := now);
      }
      state := state.(count := state.count + 1);
      state := state.(lastFailure := now);
      if state.count >= LIMIT {
        state := state.(lockedUntil := now + LOCK);
      }
      entries := entries[ip := state];
      if state.lockedUntil > now {
        return state.lockedUntil - now, true, 0;
      }
      remaining := LIMIT - state.count;
      if remaining < 0 {
        remaining := 0;
      }
      return 0, false, remaining;
    }

    method ClearLoginFailures(ip: string)
      modifies this
      ensures entries == old(entries) - {ip}
    {
      entries := entries - {ip};
    }
  }
}
