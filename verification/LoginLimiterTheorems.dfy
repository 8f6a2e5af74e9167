/** Login attempts that do not overlap: how many failures a window can hold over every run. */
module LoginLimiterTheorems {
  import opened LoginLimiter
  import opened LoginOverlap

  /** A well-formed login attempt: when, from where, and whether the password is right. */
  datatype Attempt = Attempt(ip: string, now: int, right: bool)

  datatype Answer = Refused(wait: int) | Wrong(verdict: Verdict) | Welcome

  /** `HandleAuthLogin` as it uses the limiter, one attempt at a time. */
  function Serve(t: Table, a: Attempt): (Table, Answer) {
    match LockOf(t, a.ip, a.now)
    case Locked(wait) => (t, Refused(wait))
    case Unlocked =>
      if a.right then (t - {a.ip}, Welcome) else
      var (t', verdict) := Record(t, a.ip, a.now);
      (t', Wrong(verdict))
  }

  function ServeAll(attempts: seq<Attempt>): Table {
    if attempts == [] then map[] else Serve(ServeAll(attempts[..|attempts| - 1]), attempts[|attempts| - 1]).0
  }

  /** The clock is past the zero time and does not go back. */
  ghost predicate Clock(attempts: seq<Attempt>) {
    && (forall i :: 0 <= i < |attempts| ==> 0 < attempts[i].now)
    && (forall i, j :: 0 <= i < j < |attempts| ==> attempts[i].now <= attempts[j].now)
  }

  /** When failures of `ip` were recorded since its last success. */
  function FailureTimes(attempts: seq<Attempt>, ip: string): seq<int> {
    if attempts == [] then [] else
    var init, a := attempts[..|attempts| - 1], attempts[|attempts| - 1];
    var before := FailureTimes(init, ip);
    if a.ip != ip then before else
    match Serve(ServeAll(init), a).1
    case Refused(_) => before
    case Welcome => []
    case Wrong(_) => before + [a.now]
  }

  // ----- the bound -----

  const BOUND := 2 * LIMIT - 2

  lemma {:induction false} ClockPrefix(attempts: seq<Attempt>)
    requires attempts != [] && Clock(attempts)
    ensures Clock(attempts[..|attempts| - 1])
    ensures |attempts| > 1 ==> attempts[|attempts| - 2].now <= attempts[|attempts| - 1].now
  {
  }

  /** How an attempt that meets the table `t` ends, if it passes the lock test. */
  function EndOf(t: Table, a: Attempt): seq<Step> {
    if LockOf(t, a.ip, a.now).Locked? then []
    else if a.right then [Succeed(a.ip, a.now)]
    else [Fail(a.ip, a.now)]
  }

  /** The steps of attempts that never overlap. */
  function StepsOf(attempts: seq<Attempt>): seq<Step> {
    if attempts == [] then [] else
    var init, a := attempts[..|attempts| - 1], attempts[|attempts| - 1];
    StepsOf(init) + [Test(a.ip, a.now)] + EndOf(ServeAll(init), a)
  }

  ghost predicate Serial(steps: seq<Step>, ip: string) {
    Possible(steps) && AtMost(steps, ip, 1) && InFlight(steps, ip) == 0
  }

  lemma {:induction false} OneAttempt(steps: seq<Step>, a: Attempt, ip: string)
    requires Serial(steps, ip) && InFlight(steps, a.ip) == 0 && Last(steps) <= a.now && 0 < a.now
    ensures var steps' := steps + [Test(a.ip, a.now)] + EndOf(After(steps), a);
            && Serial(steps', ip) && Last(steps') == a.now
            && After(steps') == Serve(After(steps), a).0
            && FailuresOf(steps', ip) == (if a.ip != ip || Serve(After(steps), a).1.Refused? then FailuresOf(steps, ip)
                                          else if a.right then [] else FailuresOf(steps, ip) + [a.now])
  {
    hide Record, LockOf, Possible, AtMost, InFlight, After, FailuresOf;
    var test, end := Test(a.ip, a.now), EndOf(After(steps), a);
    OneStep(steps, test, ip, 1);
    OneTestInFlight(steps, test);
    var tested := steps + [test];
    if end == [] {
      assert tested + end == tested;
    } else {
      OneStep(tested, end[0], ip, 1);
      assert tested + end == tested + [end[0]];
    }
  }

  lemma {:induction false} OneTestInFlight(steps: seq<Step>, s: Step)
    requires s.Test?
    ensures InFlight(steps + [s], s.ip) == InFlight(steps, s.ip) + if LockOf(After(steps), s.ip, s.now).Unlocked? then 1 else 0
  {
    hide LockOf, After;
    assert (steps + [s])[..|steps|] == steps;
  }

  lemma {:induction false} NoSteps(ip: string)
    ensures Serial([], ip) && After([]) == map[] && FailuresOf([], ip) == []
  {
  }

  lemma {:induction false} NoneInFlight(steps: seq<Step>, ip: string)
    requires Serial(steps, ip)
    ensures InFlight(steps, ip) == 0
  {
  }

  lemma {:induction false} ServeAnswers(t: Table, a: Attempt)
    ensures var answer := Serve(t, a).1; a.right ==> !answer.Wrong?
    ensures var answer := Serve(t, a).1; !a.right ==> !answer.Welcome?
  {
  }

  lemma {:induction false} SerialSteps(attempts: seq<Attempt>, ip: string)
    requires Clock(attempts)
    ensures Serial(StepsOf(attempts), ip) && Last(StepsOf(attempts)) == if attempts == [] then 0 else attempts[|attempts| - 1].now
    ensures After(StepsOf(attempts)) == ServeAll(attempts) && FailuresOf(StepsOf(attempts), ip) == FailureTimes(attempts, ip)
  {
    hide EndOf, Possible, AtMost, InFlight, After, FailuresOf, Record, LockOf, Serve, Serial;
    if attempts == [] {
      NoSteps(ip);
      return;
    }
    var init, a := attempts[..|attempts| - 1], attempts[|attempts| - 1];
    ClockPrefix(attempts);
    assert 0 < a.now;
    SerialSteps(init, ip);
    SerialSteps(init, a.ip);
    NoneInFlight(StepsOf(init), a.ip);
    OneAttempt(StepsOf(init), a, ip);
    ServeAnswers(After(StepsOf(init)), a);
  }

  /** Whatever the attempts, from however many addresses, as long as they do not overlap:
      between two successes of an address no five-minute interval holds more than eight of
      its failures. */
  lemma {:induction false} FailuresAreBounded(attempts: seq<Attempt>, ip: string, from: int)
    requires Clock(attempts)
    ensures Within(FailureTimes(attempts, ip), from) <= BOUND == 8
  {
    SerialSteps(attempts, ip);
    OverlapIsBounded(StepsOf(attempts), ip, 1, from);
  }

  lemma {:induction false} OneAddress(attempts: seq<Attempt>, now: int, f: Failures, h: seq<int>)
    requires ServeAll(attempts) == map["ip" := f] && FailureTimes(attempts, "ip") == h
    requires now > f.lockedUntil
    ensures var attempts' := attempts + [Attempt("ip", now, false)];
            ServeAll(attempts') == map["ip" := Failed(f, now)] && FailureTimes(attempts', "ip") == h + [now]
  {
    hide Serve, Failed;
    var attempts' := attempts + [Attempt("ip", now, false)];
    assert attempts'[..|attempts'| - 1] == attempts;
    ServeOne(f, now);
  }

  lemma {:induction false} ServeOne(f: Failures, now: int)
    requires now > f.lockedUntil
    ensures var (t, answer) := Serve(map["ip" := f], Attempt("ip", now, false));
            t == map["ip" := Failed(f, now)] && answer.Wrong?
  {
    hide Failed;
    var t := map["ip" := f];
    assert |t.Keys| == 1 by { assert t.Keys == {"ip"}; }
    assert Prune(t, now) == t;
  }

  lemma {:induction false} FirstAttempt(now: int)
    requires now > 0
    ensures var attempts := [Attempt("ip", now, false)];
            ServeAll(attempts) == map["ip" := Failures(now, now, 1, 0)] && FailureTimes(attempts, "ip") == [now]
  {
    var attempts := [Attempt("ip", now, false)];
    assert attempts[..0] == [];
    assert ServeAll(attempts[..0]) == map[];
    assert Prune(map[], now) == map[];
    assert FailureTimes(attempts[..0], "ip") == [];
  }

  /** `n` more failures at one instant of a window that stays open. */
  lemma {:induction false} Repeated(attempts: seq<Attempt>, now: int, f: Failures, h: seq<int>, n: nat)
    requires ServeAll(attempts) == map["ip" := f] && FailureTimes(attempts, "ip") == h
    requires 0 < f.firstFailure <= now <= f.firstFailure + WINDOW && f.lockedUntil == 0 && n > 0 && f.count + n <= LIMIT
    ensures var attempts' := attempts + Copies(Attempt("ip", now, false), n);
            && ServeAll(attempts') == map["ip" := Failures(f.firstFailure, now, f.count + n, if f.count + n == LIMIT then now + LOCK else 0)]
            && FailureTimes(attempts', "ip") == h + Copies(now, n)
  {
    hide ServeAll, FailureTimes;
    var a := Attempt("ip", now, false);
    if n == 1 {
      assert Copies(a, 1) == [a] && Copies(now, 1) == [now];
      OneAddress(attempts, now, f, h);
    } else {
      Repeated(attempts, now, f, h, n - 1);
      OneAddress(attempts + Copies(a, n - 1), now, Failures(f.firstFailure, now, f.count + n - 1, 0), h + Copies(now, n - 1));
      assert attempts + Copies(a, n - 1) + [a] == attempts + Copies(a, n);
      assert h + Copies(now, n - 1) + [now] == h + Copies(now, n);
    }
  }

  /** The bound is reached: one failure, three more as its window closes, then five. */
  lemma {:induction false} BoundIsReached() returns (attempts: seq<Attempt>)
    ensures Clock(attempts) && Within(FailureTimes(attempts, "ip"), WINDOW + 1) == BOUND
  {
    hide ServeAll, FailureTimes, Within;
    var a, b := Attempt("ip", WINDOW + 1, false), Attempt("ip", WINDOW + 2, false);
    FirstAttempt(1);
    Repeated([Attempt("ip", 1, false)], a.now, Failures(1, 1, 1, 0), [1], 3);
    attempts := [Attempt("ip", 1, false)] + Copies(a, 3);
    var h := [1] + Copies(a.now, 3);
    OneAddress(attempts, b.now, Failures(1, a.now, 4, 0), h);
    attempts, h := attempts + [b], h + [b.now];
    Repeated(attempts, b.now, Failures(b.now, b.now, 1, 0), h, 4);
    attempts, h := attempts + Copies(b, 4), h + Copies(b.now, 4);
    assert h == [1] + h[1..];
    WithinSplit([1], h[1..], WINDOW + 1);
    WithinLength(h[1..], WINDOW + 1);
    WithinLength([1], WINDOW + 1);
  }
}
