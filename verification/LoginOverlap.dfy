/** The login limiter under requests that overlap. A request tests the lock and, after the
    password comparison, records the outcome; these are separate critical sections
    (backend/internal/handlers/auth_handlers.go), so steps of other requests lie between them. */
module LoginOverlap {
  import opened LoginLimiter

  /** A step of a request: the lock test, then how the request ends. A request refused by the
      test takes no further step; `Leave` is a request refused later, for its body. */
  datatype Step = Test(ip: string, now: int) | Fail(ip: string, now: int) | Succeed(ip: string, now: int) | Leave(ip: string, now: int)

  function Effect(t: Table, s: Step): Table {
    match s
    case Fail(ip, now) => Record(t, ip, now).0
    case Succeed(ip, _) => t - {ip}
    case _ => t
  }

  function After(steps: seq<Step>): Table {
    if steps == [] then map[] else Effect(After(steps[..|steps| - 1]), steps[|steps| - 1])
  }

  /** One more request of `ip` past the test, or one over. */
  function Change(t: Table, s: Step, ip: string): int {
    if s.ip != ip then 0
    else if !s.Test? then -1
    else if LockOf(t, ip, s.now).Unlocked? then 1
    else 0
  }

  /** How many requests of `ip` have passed the lock test and are not over. */
  function InFlight(steps: seq<Step>, ip: string): int {
    if steps == [] then 0 else
    var init := steps[..|steps| - 1];
    InFlight(init, ip) + Change(After(init), steps[|steps| - 1], ip)
  }

  function AddFailure(h: seq<int>, s: Step, ip: string): seq<int> {
    if s.ip != ip then h
    else if s.Fail? then h + [s.now]
    else if s.Succeed? then []
    else h
  }

  /** When failures of `ip` were recorded since its last success. */
  function FailuresOf(steps: seq<Step>, ip: string): seq<int> {
    if steps == [] then [] else AddFailure(FailuresOf(steps[..|steps| - 1], ip), steps[|steps| - 1], ip)
  }

  function Last(steps: seq<Step>): int {
    if steps == [] then 0 else steps[|steps| - 1].now
  }

  /** The clock is past the zero time and does not go back, and only a request in flight ends. */
  ghost predicate Possible(steps: seq<Step>) {
    steps != [] ==>
      var init, s := steps[..|steps| - 1], steps[|steps| - 1];
      Possible(init) && 0 < s.now && Last(init) <= s.now && (!s.Test? ==> InFlight(init, s.ip) > 0)
  }

  /** At no time were more than `k` requests of `ip` in flight. */
  ghost predicate AtMost(steps: seq<Step>, ip: string, k: nat) {
    InFlight(steps, ip) <= k && (steps != [] ==> AtMost(steps[..|steps| - 1], ip, k))
  }

  lemma {:induction false} OneStep(steps: seq<Step>, s: Step, ip: string, k: nat)
    requires Possible(steps) && AtMost(steps, ip, k) && 0 < s.now && Last(steps) <= s.now
    requires !s.Test? ==> InFlight(steps, s.ip) > 0
    requires InFlight(steps, ip) + Change(After(steps), s, ip) <= k
    ensures var steps' := steps + [s];
            && Possible(steps') && AtMost(steps', ip, k) && Last(steps') == s.now
            && After(steps') == Effect(After(steps), s)
            && InFlight(steps', ip) == InFlight(steps, ip) + Change(After(steps), s, ip)
            && FailuresOf(steps', ip) == AddFailure(FailuresOf(steps, ip), s, ip)
  {
    hide Effect, Change, AddFailure;
    assert (steps + [s])[..|steps|] == steps;
  }

  // ----- failures in an interval -----

  /** How many entries of `h` lie in the closed window starting at `from`. */
  function Within(h: seq<int>, from: int): nat {
    if h == [] then 0 else
    Within(h[..|h| - 1], from) + if from <= h[|h| - 1] <= from + WINDOW then 1 else 0
  }

  lemma {:induction false} WithinSplit(a: seq<int>, b: seq<int>, from: int)
    ensures Within(a + b, from) == Within(a, from) + Within(b, from)
    decreases |b|
  {
    if b == [] {
      assert a + b == a;
    } else {
      assert (a + b)[..|a + b| - 1] == a + b[..|b| - 1];
      WithinSplit(a, b[..|b| - 1], from);
    }
  }

  lemma {:induction false} WithinLength(h: seq<int>, from: int)
    ensures Within(h, from) <= |h|
    ensures (forall i :: 0 <= i < |h| ==> h[i] < from) ==> Within(h, from) == 0
    ensures (forall i :: 0 <= i < |h| ==> from <= h[i] <= from + WINDOW) ==> Within(h, from) == |h|
  {
    if h != [] {
      WithinLength(h[..|h| - 1], from);
    }
  }

  ghost predicate Ascending(h: seq<int>) {
    forall i, j :: 0 <= i < j < |h| ==> h[i] <= h[j]
  }

  /** No window-long interval holds more than `bound` entries of `h`. */
  ghost predicate Spaced(h: seq<int>, bound: nat) {
    forall i :: 0 <= i && i + bound < |h| ==> h[i + bound] - h[i] > WINDOW
  }

  lemma {:induction false} SpacedPrefix(h: seq<int>, bound: nat)
    requires h != [] && Ascending(h) && Spaced(h, bound)
    ensures Ascending(h[..|h| - 1]) && Spaced(h[..|h| - 1], bound)
  {
    var init := h[..|h| - 1];
    assert forall i :: 0 <= i < |init| ==> init[i] == h[i];
  }

  lemma {:induction false} WithinLast(h: seq<int>, from: int)
    ensures if h == [] then Within(h, from) == 0
            else from <= h[|h| - 1] <= from + WINDOW || Within(h, from) == Within(h[..|h| - 1], from)
  {
  }

  lemma {:induction false} SpacedWithin(h: seq<int>, bound: nat, from: int)
    requires Ascending(h) && Spaced(h, bound) && bound > 0
    ensures Within(h, from) <= bound
  {
    hide Spaced, Ascending, Within;
    WithinLast(h, from);
    if h == [] {
      return;
    }
    var last := h[|h| - 1];
    if !(from <= last <= from + WINDOW) {
      SpacedPrefix(h, bound);
      SpacedWithin(h[..|h| - 1], bound, from);
    } else if |h| > bound {
      var cut := |h| - bound;
      FarBehind(h, bound, from);
      assert h == h[..cut] + h[cut..];
      WithinSplit(h[..cut], h[cut..], from);
      WithinLength(h[..cut], from);
      WithinLength(h[cut..], from);
    } else {
      WithinLength(h, from);
    }
  }

  lemma {:induction false} FarBehind(h: seq<int>, bound: nat, from: int)
    requires Ascending(h) && Spaced(h, bound) && 0 < bound < |h| && h[|h| - 1] <= from + WINDOW
    ensures forall i :: 0 <= i < |h| - bound ==> h[i] < from
  {
    var cut := |h| - bound;
    assert h[cut - 1 + bound] - h[cut - 1] > WINDOW;
    assert forall i :: 0 <= i < cut ==> h[i] <= h[cut - 1];
  }

  lemma {:induction false} AscendingSnoc(h: seq<int>, x: int)
    requires Ascending(h) && (h != [] ==> h[|h| - 1] <= x)
    ensures Ascending(h + [x])
  {
  }

  lemma {:induction false} SpacedSnoc(h: seq<int>, bound: nat, x: int)
    requires Spaced(h, bound) && bound > 0 && (|h| >= bound ==> x - h[|h| - bound] > WINDOW)
    ensures Spaced(h + [x], bound)
  {
    var h' := h + [x];
    assert forall i :: 0 <= i < |h| ==> h'[i] == h[i];
  }

  // ----- the invariant -----

  /** With `k` requests in flight at most, one more than this fits into one entry. */
  function Room(k: nat): (room: int) {
    LIMIT - 2 + k
  }

  /** What the entry of an address says about the failures `h` recorded so far, with `j` of
      its requests in flight. While it is locked no further request gets past the test. */
  ghost predicate EntryMatches(f: Failures, h: seq<int>, k: nat, j: int, now: int) {
    var n, room := |h|, Room(k);
    && 1 <= f.count <= room + 1 && f.count <= n
    && f.firstFailure == h[n - f.count] && f.lastFailure == h[n - 1]
    && f.lockedUntil == (if f.count >= LIMIT then h[n - 1] + LOCK else 0)
    && (f.count >= LIMIT && now <= f.lockedUntil ==> f.count + j <= room + 1)
    && (n - f.count >= room ==> h[n - f.count] - h[n - f.count - room] > WINDOW)
  }

  ghost predicate Recorded(t: Table, h: seq<int>, ip: string, k: nat, j: int, now: int) {
    && Ascending(h) && Spaced(h, 2 * Room(k))
    && (h != [] ==> 0 < h[0] && h[|h| - 1] <= now)
    && if ip in t then EntryMatches(t[ip], h, k, j, now) else h != [] ==> now - h[|h| - 1] > WINDOW
  }

  /** A failure that opens a new window leaves behind at most one entry less than its room:
      either the old lock has run out, or the failing request was in flight all along. */
  lemma {:induction false} NewWindow(h: seq<int>, f: Failures, k: nat, j: int, later: int)
    requires 1 <= j <= k && Ascending(h) && EntryMatches(f, h, k, j, later) && 0 < h[0] && h[|h| - 1] <= later
    requires later - f.firstFailure > WINDOW
    ensures |h| >= Room(k) ==> later - h[|h| - Room(k)] > WINDOW
    ensures EntryMatches(Failed(f, later), h + [later], k, j - 1, later)
  {
    var n, room, h' := |h|, Room(k), h + [later];
    assert h'[n] == later && forall i :: 0 <= i < n ==> h'[i] == h[i];
    assert Failed(f, later) == Failures(later, later, 1, 0);
    if n >= room {
      assert f.count <= room ==> h[n - room] <= h[n - f.count];
      assert h[n - room] <= h[n - 1];
    }
  }

  lemma {:induction false} SameWindow(h: seq<int>, f: Failures, k: nat, j: int, later: int)
    requires 1 <= j <= k && Ascending(h) && EntryMatches(f, h, k, j, later) && 0 < h[0] && h[|h| - 1] <= later
    requires later - f.firstFailure <= WINDOW
    ensures f.count <= Room(k) && EntryMatches(Failed(f, later), h + [later], k, j - 1, later)
  {
    var n, h' := |h|, h + [later];
    assert h'[n] == later && forall i :: 0 <= i < n ==> h'[i] == h[i];
    assert h[n - f.count] <= h[n - 1];
  }

  lemma {:induction false} FirstEntry(h: seq<int>, k: nat, j: int, later: int)
    requires 1 <= j <= k && 0 < later && Ascending(h) && (h != [] ==> later - h[|h| - 1] > WINDOW)
    ensures EntryMatches(Failed(NO_FAILURES, later), h + [later], k, j - 1, later)
  {
    var n, room, h' := |h|, Room(k), h + [later];
    assert h'[n] == later && forall i :: 0 <= i < n ==> h'[i] == h[i];
    assert n >= room ==> h[n - room] <= h[n - 1];
  }

  lemma {:induction false} EntryBounds(h: seq<int>, f: Failures, k: nat, j: int, now: int)
    requires EntryMatches(f, h, k, j, now)
    ensures 1 <= f.count <= |h| && f.firstFailure == h[|h| - f.count]
    ensures |h| - f.count >= Room(k) ==> f.firstFailure - h[|h| - f.count - Room(k)] > WINDOW
  {
  }

  lemma {:induction false} AscendingAt(h: seq<int>, i: int, j: int)
    requires Ascending(h) && j < |h|
    ensures 0 <= i <= j ==> h[i] <= h[j]
  {
  }

  lemma {:induction false} OneMoreFailure(t: Table, h: seq<int>, ip: string, k: nat, j: int, now: int)
    requires 1 <= j <= k && 0 < now && Recorded(t, h, ip, k, j, now)
    ensures Recorded(t[ip := Failed(Get(t, ip), now)], h + [now], ip, k, j - 1, now)
  {
    hide EntryMatches, Failed, Ascending, Spaced;
    var n, room := |h|, Room(k);
    AscendingSnoc(h, now);
    assert (h + [now])[0] == if n == 0 then now else h[0];
    if ip !in t {
      FirstEntry(h, k, j, now);
      AscendingAt(h, n - 2 * room, n - 1);
    } else {
      var f := t[ip];
      EntryBounds(h, f, k, j, now);
      if now - f.firstFailure > WINDOW {
        NewWindow(h, f, k, j, now);
        AscendingAt(h, n - 2 * room, n - room);
      } else {
        SameWindow(h, f, k, j, now);
        AscendingAt(h, n - 2 * room, n - f.count - room);
        AscendingAt(h, n - f.count, n - 1);
      }
    }
    SpacedSnoc(h, 2 * room, now);
  }

  lemma {:induction false} TimePasses(t: Table, h: seq<int>, ip: string, k: nat, j: int, now: int, later: int)
    requires Recorded(t, h, ip, k, j, now) && now <= later
    ensures Recorded(t, h, ip, k, j, later)
  {
  }

  /** Another request gets past the test only when no lock is in force. */
  lemma {:induction false} TestRecorded(t: Table, h: seq<int>, ip: string, k: nat, j: int, now: int)
    requires Recorded(t, h, ip, k, j, now)
    ensures Recorded(t, h, ip, k, if LockOf(t, ip, now).Unlocked? then j + 1 else j, now)
  {
  }

  lemma {:induction false} LeaveRecorded(t: Table, h: seq<int>, ip: string, k: nat, j: int, now: int)
    requires Recorded(t, h, ip, k, j, now)
    ensures Recorded(t, h, ip, k, j - 1, now)
  {
  }

  /** Pruning drops an entry only when its failures are out of any window. */
  lemma {:induction false} PruneRecorded(t: Table, h: seq<int>, ip: string, k: nat, j: int, now: int)
    requires Recorded(t, h, ip, k, j, now)
    ensures Recorded(Prune(t, now), h, ip, k, j, now)
  {
  }

  lemma {:induction false} OtherEntry(t: Table, t': Table, h: seq<int>, ip: string, k: nat, j: int, now: int)
    requires Recorded(t, h, ip, k, j, now) && (ip in t <==> ip in t') && (ip in t ==> t'[ip] == t[ip])
    ensures Recorded(t', h, ip, k, j, now)
  {
  }

  lemma {:induction false} NothingRecorded(t: Table, ip: string, k: nat, j: int, now: int)
    requires ip !in t
    ensures Recorded(t, [], ip, k, j, now)
  {
  }

  lemma {:induction false} StepsRecorded(steps: seq<Step>, ip: string, k: nat)
    requires Possible(steps) && AtMost(steps, ip, k)
    ensures Recorded(After(steps), FailuresOf(steps, ip), ip, k, InFlight(steps, ip), Last(steps))
  {
    if steps == [] {
      NothingRecorded(map[], ip, k, 0, 0);
      return;
    }
    hide Recorded, Prune, Failed;
    var init, s := steps[..|steps| - 1], steps[|steps| - 1];
    StepsRecorded(init, ip, k);
    var t, h, j := After(init), FailuresOf(init, ip), InFlight(init, ip);
    TimePasses(t, h, ip, k, j, Last(init), s.now);
    if s.Succeed? && s.ip == ip {
      NothingRecorded(t - {ip}, ip, k, j - 1, s.now);
    } else if s.Succeed? {
      OtherEntry(t, t - {s.ip}, h, ip, k, j, s.now);
    } else if s.Fail? {
      PruneRecorded(t, h, ip, k, j, s.now);
      if s.ip == ip {
        OneMoreFailure(Prune(t, s.now), h, ip, k, j, s.now);
      } else {
        OtherEntry(Prune(t, s.now), Record(t, s.ip, s.now).0, h, ip, k, j, s.now);
      }
    } else if s.ip == ip && s.Test? {
      TestRecorded(t, h, ip, k, j, s.now);
    } else if s.ip == ip {
      LeaveRecorded(t, h, ip, k, j, s.now);
    }
  }

  /** Whatever the steps, from however many addresses: with at most `k` requests of an address
      in flight at a time, no five-minute interval between two of its successes holds more
      than 2k + 6 of its failures. */
  lemma {:induction false} OverlapIsBounded(steps: seq<Step>, ip: string, k: nat, from: int)
    requires Possible(steps) && AtMost(steps, ip, k)
    ensures Within(FailuresOf(steps, ip), from) <= 2 * k + 6
  {
    StepsRecorded(steps, ip, k);
    SpacedWithin(FailuresOf(steps, ip), 2 * Room(k), from);
  }

  // ----- a failure that arrives late -----

  lemma {:induction false} InFlightLength(steps: seq<Step>, ip: string)
    ensures AtMost(steps, ip, |steps|) && InFlight(steps, ip) <= |steps|
  {
    if steps != [] {
      InFlightLength(steps[..|steps| - 1], ip);
      AtMostMore(steps[..|steps| - 1], ip, |steps| - 1, |steps|);
    }
  }

  lemma {:induction false} AtMostMore(steps: seq<Step>, ip: string, k: nat, more: nat)
    requires AtMost(steps, ip, k) && k <= more
    ensures AtMost(steps, ip, more)
  {
    if steps != [] {
      AtMostMore(steps[..|steps| - 1], ip, k, more);
    }
  }

  /** A failure recorded while the address is locked, by a request that passed the test before,
      lifts the lock if and only if the window of the first failure is over. */
  lemma {:induction false} LateFailureUnlocksIff(steps: seq<Step>, ip: string, now: int)
    requires Possible(steps) && Last(steps) <= now && LockOf(After(steps), ip, now).Locked?
    ensures LockOf(Record(After(steps), ip, now).0, ip, now).Unlocked? <==> now - After(steps)[ip].firstFailure > WINDOW
  {
    InFlightLength(steps, ip);
    StepsRecorded(steps, ip, |steps|);
    LockedEntry(After(steps), FailuresOf(steps, ip), ip, |steps|, InFlight(steps, ip), Last(steps));
    var f := After(steps)[ip];
    assert ip in Prune(After(steps), now);
    assert Possible(steps[..|steps| - 1]) && 0 < Last(steps);
  }

  lemma {:induction false} LockedEntry(t: Table, h: seq<int>, ip: string, k: nat, j: int, now: int)
    requires Recorded(t, h, ip, k, j, now) && ip in t
    ensures 0 < t[ip].firstFailure && (t[ip].lockedUntil > 0 ==> t[ip].count >= LIMIT)
  {
    assert h[0] <= h[|h| - t[ip].count];
  }

  // ----- the bound is reached -----

  /** A run that ends at `now`, knows one address only, and left this of it. */
  ghost predicate Reached(steps: seq<Step>, k: nat, f: Failures, h: seq<int>, j: int, now: int) {
    && Possible(steps) && AtMost(steps, "ip", k) && steps != [] && Last(steps) == now
    && After(steps) == map["ip" := f] && FailuresOf(steps, "ip") == h && InFlight(steps, "ip") == j
  }

  function Copies<T>(x: T, n: nat): (s: seq<T>)
    ensures |s| == n && forall i :: 0 <= i < n ==> s[i] == x
  {
    if n == 0 then [] else Copies(x, n - 1) + [x]
  }

  lemma {:induction false} OneTest(steps: seq<Step>, k: nat, f: Failures, h: seq<int>, j: int, now: int, later: int)
    requires Reached(steps, k, f, h, j, now) && 0 <= j < k && now <= later && 0 < later && f.lockedUntil < later
    ensures Reached(steps + [Test("ip", later)], k, f, h, j + 1, later)
  {
    OneStep(steps, Test("ip", later), "ip", k);
  }

  lemma {:induction false} SmallTable(f: Failures, now: int)
    ensures Prune(map["ip" := f], now) == map["ip" := f]
  {
    var t := map["ip" := f];
    assert |t.Keys| == 1 by { assert t.Keys == {"ip"}; }
  }

  lemma {:induction false} OneFailure(steps: seq<Step>, k: nat, f: Failures, h: seq<int>, j: int, now: int, later: int)
    requires Reached(steps, k, f, h, j, now) && 0 < j <= k && now <= later && 0 < later
    ensures Reached(steps + [Fail("ip", later)], k, Failed(f, later), h + [later], j - 1, later)
  {
    hide Failed, Prune;
    OneStep(steps, Fail("ip", later), "ip", k);
    SmallTable(f, later);
  }

  lemma {:induction false} Tests(steps: seq<Step>, k: nat, f: Failures, h: seq<int>, j: int, now: int, n: nat)
    requires Reached(steps, k, f, h, j, now) && 0 <= j && j + n <= k && 0 < now && f.lockedUntil < now
    ensures Reached(steps + Copies(Test("ip", now), n), k, f, h, j + n, now)
  {
    hide Reached;
    if n == 0 {
      assert steps + [] == steps;
    } else {
      Tests(steps, k, f, h, j, now, n - 1);
      OneTest(steps + Copies(Test("ip", now), n - 1), k, f, h, j + n - 1, now, now);
      assert steps + Copies(Test("ip", now), n - 1) + [Test("ip", now)] == steps + Copies(Test("ip", now), n);
    }
  }

  /** The entry after `n` more failures in its window. */
  function Aged(f: Failures, now: int, n: nat): Failures {
    if n == 0 then f
    else Failures(f.firstFailure, now, f.count + n, if f.count + n >= LIMIT then now + LOCK else f.lockedUntil)
  }

  lemma {:induction false} AgedOnce(f: Failures, now: int, n: nat)
    requires 0 < f.firstFailure <= now <= f.firstFailure + WINDOW
    ensures if n == 0 then Aged(f, now, n) == f else Failed(Aged(f, now, n - 1), now) == Aged(f, now, n)
  {
  }

  lemma {:induction false} Failing(steps: seq<Step>, k: nat, f: Failures, h: seq<int>, j: int, now: int, n: nat)
    requires Reached(steps, k, f, h, j, now) && n <= j <= k
    requires 0 < f.firstFailure <= now <= f.firstFailure + WINDOW
    ensures Reached(steps + Copies(Fail("ip", now), n), k, Aged(f, now, n), h + Copies(now, n), j - n, now)
  {
    hide Reached, Aged, Failed;
    AgedOnce(f, now, n);
    if n == 0 {
      assert steps + [] == steps && h + [] == h;
    } else {
      Failing(steps, k, f, h, j, now, n - 1);
      OneFailure(steps + Copies(Fail("ip", now), n - 1), k, Aged(f, now, n - 1), h + Copies(now, n - 1), j - n + 1, now, now);
      assert steps + Copies(Fail("ip", now), n - 1) + [Fail("ip", now)] == steps + Copies(Fail("ip", now), n);
      assert h + Copies(now, n - 1) + [now] == h + Copies(now, n);
    }
  }

  /** `n` requests, each failing before the next one starts. */
  function Tries(now: int, n: nat): seq<Step> {
    if n == 0 then [] else Tries(now, n - 1) + [Test("ip", now), Fail("ip", now)]
  }

  lemma {:induction false} Trying(steps: seq<Step>, k: nat, f: Failures, h: seq<int>, now: int, later: int, n: nat)
    requires Reached(steps, k, f, h, 0, now) && k > 0 && now <= later && n > 0
    requires 0 < f.firstFailure <= later <= f.firstFailure + WINDOW && f.lockedUntil == 0 && f.count + n < LIMIT
    ensures Reached(steps + Tries(later, n), k, Aged(f, later, n), h + Copies(later, n), 0, later)
  {
    hide Reached, Failed;
    var before := if n == 1 then steps else steps + Tries(later, n - 1);
    var times := if n == 1 then h else h + Copies(later, n - 1);
    if n > 1 {
      Trying(steps, k, f, h, now, later, n - 1);
    }
    var since := if n == 1 then now else later;
    OneTest(before, k, Aged(f, later, n - 1), times, 0, since, later);
    OneFailure(before + [Test("ip", later)], k, Aged(f, later, n - 1), times, 1, later, later);
    AgedOnce(f, later, n);
    assert before + [Test("ip", later)] + [Fail("ip", later)] == steps + Tries(later, n);
    assert times + [later] == h + Copies(later, n);
  }

  lemma {:induction false} FirstTry(k: nat)
    requires k > 0
    ensures Reached([Test("ip", 1), Fail("ip", 1)], k, Failures(1, 1, 1, 0), [1], 0, 1)
  {
    var test, steps := [Test("ip", 1)], [Test("ip", 1), Fail("ip", 1)];
    assert test[..0] == [] && steps[..1] == test;
    assert After([]) == map[] && InFlight([], "ip") == 0 && FailuresOf([], "ip") == [] && AtMost([], "ip", k) && Possible([]);
    assert Possible(test) && AtMost(test, "ip", k) && After(test) == map[] && FailuresOf(test, "ip") == [] && InFlight(test, "ip") == 1;
    assert Prune(map[], 1) == map[];
    assert map[]["ip" := Failures(1, 1, 1, 0)] == map["ip" := Failures(1, 1, 1, 0)];
  }

  /** The bound is reached for every `k`: one failure; as its window closes three more, `k`
      requests past the test, and all but one of them failing; the last of them fails just after
      the window, which lifts the lock; then three failures, and `k` requests at once again. */
  lemma {:induction false} OverlapReachesBound(k: nat) returns (steps: seq<Step>)
    requires k > 0
    ensures Possible(steps) && AtMost(steps, "ip", k) && Within(FailuresOf(steps, "ip"), WINDOW + 1) == 2 * k + 6
  {
    hide Failed, Within, FailuresOf, InFlight, After, Possible, AtMost, Tries, Copies;
    var a, b := WINDOW + 1, WINDOW + 2;
    FirstTry(k);
    steps := [Test("ip", 1), Fail("ip", 1)];
    Trying(steps, k, Failures(1, 1, 1, 0), [1], 1, a, 3);
    steps := steps + Tries(a, 3);
    var h := [1] + Copies(a, 3);
    Tests(steps, k, Failures(1, a, 4, 0), h, 0, a, k);
    steps := steps + Copies(Test("ip", a), k);
    Failing(steps, k, Failures(1, a, 4, 0), h, k, a, k - 1);
    steps, h := steps + Copies(Fail("ip", a), k - 1), h + Copies(a, k - 1);
    var f := Aged(Failures(1, a, 4, 0), a, k - 1);
    OneFailure(steps, k, f, h, 1, a, b);
    NextWindow(f, b);
    steps, h := steps + [Fail("ip", b)], h + [b];
    Trying(steps, k, Failures(b, b, 1, 0), h, b, b, 3);
    steps, h := steps + Tries(b, 3), h + Copies(b, 3);
    Tests(steps, k, Failures(b, b, 4, 0), h, 0, b, k);
    steps := steps + Copies(Test("ip", b), k);
    Failing(steps, k, Failures(b, b, 4, 0), h, k, b, k);
    steps, h := steps + Copies(Fail("ip", b), k), h + Copies(b, k);
    assert h == [1] + h[1..];
    WithinSplit([1], h[1..], WINDOW + 1);
    WithinLength(h[1..], WINDOW + 1);
    WithinLength([1], WINDOW + 1);
  }

  lemma {:induction false} NextWindow(f: Failures, now: int)
    requires f.firstFailure + WINDOW < now
    ensures Failed(f, now) == Failures(now, now, 1, 0)
  {
  }

  /** A number bounds the failures of every run with at most `k` requests in flight if and
      only if it is at least 2k + 6: the eight of a limiter used serially hold for k = 1 only. */
  lemma {:induction false} OverlapBoundIsExact(k: nat, bound: nat)
    requires k > 0
    ensures (forall steps, ip, from :: Possible(steps) && AtMost(steps, ip, k) ==> Within(FailuresOf(steps, ip), from) <= bound)
            <==> bound >= 2 * k + 6
  {
    hide Possible, AtMost, Within, FailuresOf;
    var reached := OverlapReachesBound(k);
    if bound >= 2 * k + 6 {
      forall steps, ip, from | Possible(steps) && AtMost(steps, ip, k)
        ensures Within(FailuresOf(steps, ip), from) <= bound
      {
        OverlapIsBounded(steps, ip, k, from);
      }
    }
  }

  // ----- pruning does not show -----

  /** What a step is told: whether the address is locked, or the outcome of its failure. */
  datatype Reply = Tested(lock: Lock) | Counted(verdict: Verdict) | NoReply

  function ReplyTo(t: Table, s: Step): Reply {
    match s
    case Test(ip, now) => Tested(LockOf(t, ip, now))
    case Fail(ip, now) => Counted(Record(t, ip, now).1)
    case _ => NoReply
  }

  /** The limiter with a table that is never pruned. */
  function RecordUnpruned(t: Table, ip: string, now: int): (Table, Verdict) {
    var f := Failed(Get(t, ip), now);
    (t[ip := f], VerdictOf(f, now))
  }

  function AfterUnpruned(steps: seq<Step>): Table {
    if steps == [] then map[] else
    var t, s := AfterUnpruned(steps[..|steps| - 1]), steps[|steps| - 1];
    if s.Fail? then RecordUnpruned(t, s.ip, s.now).0 else Effect(t, s)
  }

  function ReplyUnpruned(t: Table, s: Step): Reply {
    match s
    case Test(ip, now) => Tested(LockOf(t, ip, now))
    case Fail(ip, now) => Counted(RecordUnpruned(t, ip, now).1)
    case _ => NoReply
  }

  /** `full` has the entries of `pruned` and otherwise only expired ones. */
  ghost predicate Covers(full: Table, pruned: Table, now: int) {
    && (forall ip :: ip in pruned ==> ip in full && full[ip] == pruned[ip])
    && (forall ip :: ip in full && ip !in pruned ==> Expired(full[ip], now))
    && (forall ip :: ip in full ==> 0 < full[ip].firstFailure <= full[ip].lastFailure <= now)
  }

  lemma {:induction false} CoversLater(full: Table, pruned: Table, now: int, later: int)
    requires Covers(full, pruned, now) && now <= later
    ensures Covers(full, pruned, later) && Covers(full, Prune(pruned, later), later)
  {
  }

  lemma {:induction false} SameFailure(full: Table, pruned: Table, ip: string, now: int)
    requires Covers(full, pruned, now) && 0 < now
    ensures Failed(Get(full, ip), now) == Failed(Get(pruned, ip), now)
    ensures LockOf(full, ip, now) == LockOf(pruned, ip, now)
  {
  }

  lemma {:induction false} CoversUpdate(full: Table, pruned: Table, ip: string, now: int)
    requires Covers(full, pruned, now) && 0 < now
    ensures var f := Failed(Get(full, ip), now); Covers(full[ip := f], pruned[ip := f], now)
  {
    var f := Failed(Get(full, ip), now);
    assert 0 < f.firstFailure <= f.lastFailure <= now;
  }

  lemma {:induction false} CoversWithout(full: Table, pruned: Table, ip: string, now: int)
    requires Covers(full, pruned, now)
    ensures Covers(full - {ip}, pruned - {ip}, now)
  {
  }

  lemma {:induction false} RunsCover(steps: seq<Step>)
    requires Possible(steps)
    ensures Covers(AfterUnpruned(steps), After(steps), Last(steps))
  {
    hide Covers, Failed, Prune;
    if steps == [] {
      EmptyCovers();
      return;
    }
    var init, s := steps[..|steps| - 1], steps[|steps| - 1];
    RunsCover(init);
    var full, pruned := AfterUnpruned(init), After(init);
    CoversLater(full, pruned, Last(init), s.now);
    if s.Fail? {
      SameFailure(full, Prune(pruned, s.now), s.ip, s.now);
      CoversUpdate(full, Prune(pruned, s.now), s.ip, s.now);
    } else if s.Succeed? {
      CoversWithout(full, pruned, s.ip, s.now);
    }
  }

  lemma {:induction false} EmptyCovers()
    ensures Covers(map[], map[], 0)
  {
  }

  /** Every lock test and every recorded failure, overlapping or not, is answered as by a table
      that is never pruned. */
  lemma {:induction false} PruningDoesNotShow(steps: seq<Step>, s: Step)
    requires Possible(steps) && Last(steps) <= s.now && 0 < s.now
    ensures ReplyTo(After(steps), s) == ReplyUnpruned(AfterUnpruned(steps), s)
  {
    hide Covers, Failed, Prune, LockOf;
    var full, pruned := AfterUnpruned(steps), After(steps);
    RunsCover(steps);
    CoversLater(full, pruned, Last(steps), s.now);
    SameFailure(full, pruned, s.ip, s.now);
    SameFailure(full, Prune(pruned, s.now), s.ip, s.now);
  }
}
