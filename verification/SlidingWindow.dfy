/** The edge rate limiter: a log of accepted requests, trimmed to the window at every
    check (cloudflare/verification-gateway-worker/src/index.js). Times are milliseconds. */
module SlidingWindow {

  /** `current.filter(value => value > cutoff)`. */
  function After(log: seq<int>, cutoff: int): seq<int> {
    if log == [] then [] else
    var last := log[|log| - 1];
    After(log[..|log| - 1], cutoff) + if last > cutoff then [last] else []
  }

  datatype Checked = Checked(hits: seq<int>, ok: bool)

  function Check(hits: seq<int>, limit: nat, windowSeconds: nat, now: int): Checked {
    var kept := After(hits, now - windowSeconds * 1000);
    if |kept| >= limit then Checked(kept, false) else Checked(kept + [now], true)
  }

  class RateLimiter {
    var hits: seq<int>

    constructor ()
      ensures hits == []
    {
      hits := [];
    }

    method Reset()
      modifies this
      ensures hits == []
    {
      hits := [];
    }

    method Fetch(limit: nat, windowSeconds: nat, now: int) returns (ok: bool)
      modifies this
      ensures Checked(hits, ok) == Check(old(hits), limit, windowSeconds, now)
    {
      var kept := After(hits, now - windowSeconds * 1000);
      if |kept| >= limit {
        hits := kept;
        return false;
      }
      kept := kept + [now];
      hits := kept;
      return true;
    }
  }

  /** The log the limiter holds after requests at `times`. */
  function Hits(times: seq<int>, limit: nat, windowSeconds: nat): seq<int> {
    if times == [] then [] else
    Check(Hits(times[..|times| - 1], limit, windowSeconds), limit, windowSeconds, times[|times| - 1]).hits
  }

  /** When requests were accepted, nothing forgotten. */
  function Accepted(times: seq<int>, limit: nat, windowSeconds: nat): seq<int> {
    if times == [] then [] else
    var init, now := times[..|times| - 1], times[|times| - 1];
    Accepted(init, limit, windowSeconds) +
      if Check(Hits(init, limit, windowSeconds), limit, windowSeconds, now).ok then [now] else []
  }

  ghost predicate Ascending(times: seq<int>) {
    forall i, j :: 0 <= i < j < |times| ==> times[i] <= times[j]
  }

  lemma {:induction false} AfterSnoc(log: seq<int>, x: int, cutoff: int)
    ensures After(log + [x], cutoff) == After(log, cutoff) + if x > cutoff then [x] else []
  {
    assert (log + [x])[..|log|] == log;
  }

  /** Trimming twice is trimming to the later cutoff. */
  lemma {:induction false} AfterAgain(log: seq<int>, early: int, late: int)
    requires early <= late
    ensures After(After(log, early), late) == After(log, late)
  {
    if log != [] {
      var init, last := log[..|log| - 1], log[|log| - 1];
      AfterAgain(init, early, late);
      AfterSnoc(init, last, early);
      AfterSnoc(init, last, late);
      assert log == init + [last];
      if last > early {
        AfterSnoc(After(init, early), last, late);
      } else {
        assert After(init, early) + [] == After(init, early);
        assert After(init, late) + [] == After(init, late);
      }
    }
  }

  /** Although it forgets old hits, the limiter trims its log to what the full log would be trimmed to. */
  lemma {:induction false} HitsAreRecent(times: seq<int>, limit: nat, windowSeconds: nat, now: int)
    requires Ascending(times + [now])
    ensures After(Hits(times, limit, windowSeconds), now - windowSeconds * 1000)
         == After(Accepted(times, limit, windowSeconds), now - windowSeconds * 1000)
  {
    hide After;
    if times != [] {
      var init, last, late := times[..|times| - 1], times[|times| - 1], now - windowSeconds * 1000;
      assert (times + [now])[|times| - 1] == last && (times + [now])[|times|] == now;
      assert Ascending(init + [last]) by {
        assert init + [last] == (times + [now])[..|times|];
      }
      HitsAreRecent(init, limit, windowSeconds, last);
      var hits, all := Hits(init, limit, windowSeconds), Accepted(init, limit, windowSeconds);
      var early := last - windowSeconds * 1000;
      AfterAgain(hits, early, late);
      AfterAgain(all, early, late);
      AfterSnoc(After(hits, early), last, late);
      AfterSnoc(all, last, late);
      assert all + [] == all;
    }
  }

  /** A request is accepted exactly when fewer than `limit` acceptances, over the whole
      history, lie in the window that ends with it. */
  lemma {:induction false} AcceptedIffBelowLimit(times: seq<int>, limit: nat, windowSeconds: nat, now: int)
    requires Ascending(times + [now])
    ensures Check(Hits(times, limit, windowSeconds), limit, windowSeconds, now).ok
            <==> |After(Accepted(times, limit, windowSeconds), now - windowSeconds * 1000)| < limit
  {
    HitsAreRecent(times, limit, windowSeconds, now);
  }

  /** Entries of `log` in the half-open window that starts at `from`. */
  function Within(log: seq<int>, from: int, windowSeconds: nat): nat {
    if log == [] then 0 else
    Within(log[..|log| - 1], from, windowSeconds) + if from <= log[|log| - 1] < from + windowSeconds * 1000 then 1 else 0
  }

  lemma {:induction false} WithinSnoc(log: seq<int>, now: int, from: int, windowSeconds: nat)
    ensures Within(log + [now], from, windowSeconds)
         == Within(log, from, windowSeconds) + if from <= now < from + windowSeconds * 1000 then 1 else 0
  {
    assert (log + [now])[..|log|] == log;
  }

  lemma {:induction false} NothingWithin(from: int, windowSeconds: nat)
    ensures Within([], from, windowSeconds) == 0
  {
  }

  lemma {:induction false} WithinAfter(log: seq<int>, from: int, windowSeconds: nat)
    ensures Within(log, from, windowSeconds) <= |After(log, from - 1)|
  {
    if log != [] {
      WithinAfter(log[..|log| - 1], from, windowSeconds);
    }
  }

  lemma {:induction false} AfterMonotone(log: seq<int>, early: int, late: int)
    requires early <= late
    ensures |After(log, late)| <= |After(log, early)|
  {
    if log != [] {
      AfterMonotone(log[..|log| - 1], early, late);
    }
  }

  /** No half-open interval of the window's length holds more than `limit` accepted requests. */
  lemma {:induction false} WindowIsBounded(times: seq<int>, limit: nat, windowSeconds: nat, from: int)
    requires Ascending(times)
    ensures Within(Accepted(times, limit, windowSeconds), from, windowSeconds) <= limit
  {
    hide After, Check, Hits, Within;
    NothingWithin(from, windowSeconds);
    if times != [] {
      var init, now := times[..|times| - 1], times[|times| - 1];
      assert init + [now] == times;
      WindowIsBounded(init, limit, windowSeconds, from);
      var all := Accepted(init, limit, windowSeconds);
      if Check(Hits(init, limit, windowSeconds), limit, windowSeconds, now).ok {
        WithinSnoc(all, now, from, windowSeconds);
        AcceptedIffBelowLimit(init, limit, windowSeconds, now);
        if from <= now < from + windowSeconds * 1000 {
          WithinAfter(all, from, windowSeconds);
          AfterMonotone(all, now - windowSeconds * 1000, from - 1);
        }
      } else {
        assert all + [] == all;
      }
    }
  }
}
