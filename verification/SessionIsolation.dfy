/** Any interleaving of calls leaves each session as if it ran alone. */
module SessionIsolation {
  import opened Basics
  import opened Strings
  import opened Messages
  import opened StreamTranslator
  import opened StreamGrammar
  import opened Sessions

  /** A call into the shared tables, with the clock reading, generated id and tool map order it meets. */
  datatype Call =
    | TranslateCall(key: string, raw: string, now: int, newId: string, order: seq<int>)
    | UsageCall(key: string, now: int)
    | ClearCall(key: string, now: int)

  function Serve(r: Registry, call: Call, codec: Codec): (Registry, Reply) {
    match call
    case TranslateCall(key, raw, now, newId, order) => OnTranslate(r, key, raw, now, newId, order, codec)
    case UsageCall(key, now) => OnGetUsage(r, key, now)
    case ClearCall(key, now) => OnClear(r, key, now)
  }

  function ServeAll(r: Registry, calls: seq<Call>, codec: Codec): (Registry, seq<Reply>) {
    if calls == [] then (r, []) else
    var (r1, replies) := ServeAll(r, calls[..|calls| - 1], codec);
    var (r2, reply) := Serve(r1, calls[|calls| - 1], codec);
    (r2, replies + [reply])
  }

  /** The session a call works on. Without a session key a chunk's own id names the session. */
  function Target(call: Call, codec: Codec): Option<string> {
    if call.key != "" || !call.TranslateCall? then Some(call.key) else
    match Receive(call.raw)
    case Data(payload) =>
      (match codec.parse(payload)
       case Parsed(c) => Some(StateKey("", c))
       case _ => None)
    case _ => None
  }

  predicate Touches(call: Call, k: string, codec: Codec) {
    Target(call, codec) == Some(k)
  }

  /** The calls of session `k`. */
  function Own(calls: seq<Call>, k: string, codec: Codec): seq<Call> {
    if calls == [] then [] else
    var last := calls[|calls| - 1];
    Own(calls[..|calls| - 1], k, codec) + if Touches(last, k, codec) then [last] else []
  }

  /** The replies session `k` received among `replies`. */
  function OwnReplies(calls: seq<Call>, replies: seq<Reply>, k: string, codec: Codec): seq<Reply>
    requires |calls| == |replies|
  {
    if calls == [] then [] else
    var n := |calls| - 1;
    OwnReplies(calls[..n], replies[..n], k, codec) + if Touches(calls[n], k, codec) then [replies[n]] else []
  }

  lemma {:induction false} ReplyCount(r: Registry, calls: seq<Call>, codec: Codec)
    ensures |ServeAll(r, calls, codec).1| == |calls|
  {
    if calls != [] {
      ReplyCount(r, calls[..|calls| - 1], codec);
    }
  }

  /** Pruning would spare `k`'s state: the table is small or the state is young. */
  ghost predicate Safe(r: Registry, k: string, now: int) {
    k in r.states ==> |r.states| < PRUNE_THRESHOLD || !Stale(r.states[k], now)
  }

  /** The call prunes the table: it reads, clears or completes a chunk. */
  predicate Prunes(r: Registry, call: Call, codec: Codec) {
    match call
    case TranslateCall(key, raw, _, _, _) => Completes(r, key, raw, codec).Some?
    case _ => true
  }

  ghost predicate Spares(r: Registry, call: Call, k: string, codec: Codec) {
    Prunes(r, call, codec) ==> Safe(r, k, call.now)
  }

  ghost predicate Undisturbed(r: Registry, calls: seq<Call>, k: string, codec: Codec) {
    calls == [] ||
    (var init := calls[..|calls| - 1];
     Undisturbed(r, init, k, codec) && Spares(ServeAll(r, init, codec).0, calls[|calls| - 1], k, codec))
  }

  /** Two tables agree on session `k`, and `solo` knows no other. */
  ghost predicate Agree(r: Registry, solo: Registry, k: string) {
    && Find(r.states, k) == Find(solo.states, k)
    && (k in r.pending <==> k in solo.pending)
    && (k in r.pending ==> r.pending[k] == solo.pending[k])
    && solo.states.Keys <= {k} && solo.pending.Keys <= {k}
  }

  lemma {:induction false} PruneKeeps(r: Registry, k: string, now: int)
    ensures Find(Prune(r.states, now), k) == Find(r.states, k) <==> Safe(r, k, now)
  {
  }

  lemma {:induction false} SoloKeeps(solo: Registry, k: string, now: int)
    requires solo.states.Keys <= {k}
    ensures Prune(solo.states, now) == solo.states
  {
    SmallSet(solo.states.Keys, k);
    assert |solo.states| == |solo.states.Keys|;
  }

  lemma {:induction false} SmallSet(s: set<string>, k: string)
    requires s <= {k}
    ensures |s| <= 1
  {
    if k in s {
      assert s == {k};
    } else {
      assert s == {};
    }
  }

  lemma {:induction false} OwnChunk(r: Registry, solo: Registry, k: string, c: Chunk, now: int, newId: string, order: seq<int>, codec: Codec)
    requires Agree(r, solo, k) && Safe(r, k, now)
    ensures var (r', reply), (solo', soloReply) := OnChunk(r, k, c, now, newId, order, codec), OnChunk(solo, k, c, now, newId, order, codec);
            reply == soloReply && Agree(r', solo', k)
  {
    hide Prune, Advance;
    PruneKeeps(r, k, now);
    SoloKeeps(solo, k, now);
  }

  lemma {:induction false} OtherChunk(r: Registry, solo: Registry, k: string, key: string, c: Chunk, now: int, newId: string,
                                      order: seq<int>, codec: Codec)
    requires Agree(r, solo, k) && key != k
    ensures Agree(OnChunk(r, key, c, now, newId, order, codec).0, solo, k) <==> Safe(r, k, now)
  {
    hide Prune, Advance;
    PruneKeeps(r, k, now);
  }

  /** A call of session `k` gets the reply it would get alone. */
  lemma {:induction false} OwnCall(r: Registry, solo: Registry, k: string, call: Call, codec: Codec)
    requires Agree(r, solo, k) && Spares(r, call, k, codec) && Touches(call, k, codec)
    ensures var (r', reply), (solo', soloReply) := Serve(r, call, codec), Serve(solo, call, codec);
            reply == soloReply && Agree(r', solo', k)
  {
    hide Prune, OnChunk, Receive, Safe;
    match call
    case TranslateCall(key, raw, now, newId, order) =>
      if Receive(raw).Data? {
        var payload := Receive(raw).payload;
        assert "" + payload == payload;
        var full := Buffered(r, key) + payload;
        var r1 := if key == "" then r else r.(pending := r.pending - {key});
        var solo1 := if key == "" then solo else solo.(pending := solo.pending - {key});
        assert Agree(r1, solo1, k);
        SafeIgnoresPending(r, r1, k, now);
        if codec.parse(full).Parsed? {
          OwnChunk(r1, solo1, k, codec.parse(full).chunk, now, newId, order, codec);
        }
      }
    case UsageCall(key, now) =>
      PruneKeeps(r, k, now);
      SoloKeeps(solo, k, now);
    case ClearCall(key, now) =>
      PruneKeeps(r, k, now);
      SoloKeeps(solo, k, now);
  }

  lemma {:induction false} SafeIgnoresPending(r: Registry, r1: Registry, k: string, now: int)
    requires r.states == r1.states
    ensures Safe(r, k, now) <==> Safe(r1, k, now)
  {
  }

  /** A call of another session shows exactly when it prunes this one's state. */
  lemma {:induction false} OtherCall(r: Registry, solo: Registry, k: string, call: Call, codec: Codec)
    requires Agree(r, solo, k) && !Touches(call, k, codec)
    ensures Agree(Serve(r, call, codec).0, solo, k) <==> Spares(r, call, k, codec)
  {
    hide Prune, OnChunk, Receive, Safe;
    match call
    case TranslateCall(key, raw, now, newId, order) =>
      if Receive(raw).Data? {
        var payload := Receive(raw).payload;
        assert "" + payload == payload;
        var full := Buffered(r, key) + payload;
        var r1 := if key == "" then r else r.(pending := r.pending - {key});
        SafeIgnoresPending(r, r1, k, now);
        if codec.parse(full).Parsed? {
          var c := codec.parse(full).chunk;
          OtherChunk(r1, solo, k, StateKey(key, c), c, now, newId, order, codec);
        }
      }
    case UsageCall(key, now) => PruneKeeps(r, k, now);
    case ClearCall(key, now) => PruneKeeps(r, k, now);
  }

  /** Isolation: the replies of session `k`, and the state and fragment it leaves, are
      those of its calls alone, whatever other sessions do in between. */
  lemma {:induction false} SessionsAreIsolated(calls: seq<Call>, k: string, codec: Codec)
    requires Undisturbed(EMPTY, calls, k, codec)
    ensures var all, solo := ServeAll(EMPTY, calls, codec), ServeAll(EMPTY, Own(calls, k, codec), codec);
            && |all.1| == |calls|
            && OwnReplies(calls, all.1, k, codec) == solo.1
            && Agree(all.0, solo.0, k)
  {
    hide Serve, Agree, Spares, Touches;
    ReplyCount(EMPTY, calls, codec);
    if calls == [] {
      EmptyAgrees(k);
      return;
    }
    var init, last := calls[..|calls| - 1], calls[|calls| - 1];
    SessionsAreIsolated(init, k, codec);
    var own := Own(init, k, codec);
    var r, solo := ServeAll(EMPTY, init, codec).0, ServeAll(EMPTY, own, codec).0;
    var replies := ServeAll(EMPTY, calls, codec).1;
    assert replies[..|calls| - 1] == ServeAll(EMPTY, init, codec).1;
    if Touches(last, k, codec) {
      OwnCall(r, solo, k, last, codec);
      assert (own + [last])[..|own|] == own;
    } else {
      OtherCall(r, solo, k, last, codec);
      assert own + [] == own;
    }
  }

  lemma {:induction false} EmptyAgrees(k: string)
    ensures Agree(EMPTY, EMPTY, k)
  {
  }

  // ----- a condition the callers can keep -----

  predicate Ends(call: Call, k: string) {
    !call.TranslateCall? && call.key == k
  }

  ghost predicate LiveFrom(calls: seq<Call>, k: string, i: int, n: int, codec: Codec)
    requires 0 <= n <= |calls|
  {
    && 0 <= i < n && calls[i].TranslateCall? && Touches(calls[i], k, codec)
    && forall m :: i < m < n ==> !Ends(calls[m], k)
  }

  /** No call comes more than ten minutes after a chunk of a session that has not
      been ended (by reading its usage or clearing it). */
  ghost predicate ShortLived(calls: seq<Call>, k: string, codec: Codec) {
    forall i, j :: 0 <= j < |calls| && LiveFrom(calls, k, i, j, codec)
      ==> 0 < calls[i].now && calls[j].now - calls[i].now <= PRUNE_AGE
  }

  lemma {:induction false} ServeKeepsBirth(r: Registry, call: Call, k: string, codec: Codec)
    requires k in Serve(r, call, codec).0.states
    ensures var s := Serve(r, call, codec).0.states[k];
            if k in r.states && r.states[k].createdAt == s.createdAt then !Ends(call, k)
            else call.TranslateCall? && Touches(call, k, codec) && s.createdAt == call.now
  {
    hide Prune, Step, StateKey;
    PruneShrinks(r.states, call.now);
    if call.TranslateCall? && Receive(call.raw).Data? {
      var payload := Receive(call.raw).payload;
      assert "" + payload == payload;
      var decoded := codec.parse(Buffered(r, call.key) + payload);
      if decoded.Parsed? && StateKey(call.key, decoded.chunk) == k {
        var c := decoded.chunk;
        var s := Find(Prune(r.states, call.now), k).GetOr(NewState(call.now, c, call.newId));
        StepKeepsHeader(s, c, call.order, codec.sanitize);
        assert call.key != "" ==> StateKey(call.key, c) == call.key by { KeyedState(call.key, c); }
      }
    }
  }

  lemma {:induction false} KeyedState(key: string, c: Chunk)
    ensures key != "" ==> StateKey(key, c) == key
  {
  }

  lemma {:induction false} PruneShrinks(states: map<string, State>, now: int)
    ensures forall k :: k in Prune(states, now) ==> k in states && Prune(states, now)[k] == states[k]
  {
  }

  lemma {:induction false} BirthOf(calls: seq<Call>, k: string, codec: Codec) returns (i: nat)
    requires k in ServeAll(EMPTY, calls, codec).0.states
    ensures LiveFrom(calls, k, i, |calls|, codec)
    ensures ServeAll(EMPTY, calls, codec).0.states[k].createdAt == calls[i].now
  {
    hide Serve, Touches;
    var n := |calls| - 1;
    var init := calls[..n];
    var r := ServeAll(EMPTY, init, codec).0;
    ServeKeepsBirth(r, calls[n], k, codec);
    var s := ServeAll(EMPTY, calls, codec).0.states[k];
    if k in r.states && r.states[k].createdAt == s.createdAt {
      i := BirthOf(init, k, codec);
      assert forall m :: 0 <= m < n ==> init[m] == calls[m];
    } else {
      i := n;
    }
  }

  /** Sessions read or cleared within ten minutes of their chunks are never pruned,
      so isolation holds for them. */
  lemma {:induction false} ShortLivedIsUndisturbed(calls: seq<Call>, k: string, codec: Codec)
    requires ShortLived(calls, k, codec)
    ensures Undisturbed(EMPTY, calls, k, codec)
  {
    hide Serve, Touches;
    if calls != [] {
      var n := |calls| - 1;
      var init := calls[..n];
      assert forall m :: 0 <= m < n ==> init[m] == calls[m];
      forall i, j | 0 <= j < n && LiveFrom(init, k, i, j, codec)
        ensures 0 < init[i].now && init[j].now - init[i].now <= PRUNE_AGE
      {
        assert LiveFrom(calls, k, i, j, codec);
      }
      ShortLivedIsUndisturbed(init, k, codec);
      if k in ServeAll(EMPTY, init, codec).0.states {
        var i := BirthOf(init, k, codec);
        assert LiveFrom(calls, k, i, n, codec);
      }
    }
  }

  // ----- a session pruned while live -----

  const HELLO := Chunk("c", "m", [Choice(Delta("hi", "", "", []), None)], None)

  /** A codec for which every payload is the same chunk. */
  function Always(c: Chunk): Codec {
    Codec(_ => Parsed(c), (_, arguments) => arguments)
  }

  function Hello(i: nat, now: int): Call {
    TranslateCall(Decimal(i), "x", now, "id", [])
  }

  /** `n` sessions open, one after the other, at time 1. */
  function Opening(n: nat): seq<Call> {
    if n == 0 then [] else Opening(n - 1) + [Hello(n - 1, 1)]
  }

  function Names(n: nat): set<string> {
    set i | 0 <= i < n :: Decimal(i)
  }

  lemma {:induction false} NamesCount(n: nat)
    ensures |Names(n)| == n && Decimal(n) !in Names(n)
  {
    DecimalReads(n);
    forall i | 0 <= i < n ensures Decimal(i) != Decimal(n) {
      DecimalReads(i);
    }
    if n > 0 {
      NamesCount(n - 1);
      assert Names(n) == Names(n - 1) + {Decimal(n - 1)};
    }
  }

  predicate StartsMessage(reply: Reply) {
    reply.Events? && reply.events != [] && reply.events[0].MessageStart?
  }

  /** A session without a state starts with a message_start. */
  lemma {:induction false} HelloStarts(r: Registry, i: nat, now: int)
    requires r.pending == map[] && Decimal(i) !in Prune(r.states, now)
    ensures var (r', reply) := Serve(r, Hello(i, now), Always(HELLO));
            && StartsMessage(reply)
            && r'.pending == map[] && r'.states.Keys == Prune(r.states, now).Keys + {Decimal(i)}
            && r'.states[Decimal(i)].createdAt == now
            && forall k :: k in Prune(r.states, now) && k != Decimal(i) ==> r'.states[k] == r.states[k]
  {
    hide Prune, Step, NewState, OnChunk, Receive, Decimal;
    DecimalReads(i);
    PruneShrinks(r.states, now);
    HelloIsReceived();
    assert "" + "x" == "x";
    assert r.pending - {Decimal(i)} == map[] && r.(pending := map[]) == r;
    ChunkSteps(r, Decimal(i), HELLO, now, "id", Always(HELLO));
    HelloStep(now, Always(HELLO).sanitize);
  }

  lemma {:induction false} HelloIsReceived()
    ensures Receive("x") == Data("x")
  {
    assert "x"[..0] == "";
  }

  lemma {:induction false} HelloStep(now: int, san: Sanitizer)
    ensures var out := Step(NewState(now, HELLO, "id"), HELLO, [], san);
            out.state.createdAt == now && out.events != [] && out.events[0].MessageStart?
  {
    hide AddDelta;
    StepKeepsHeader(NewState(now, HELLO, "id"), HELLO, [], san);
  }

  lemma {:induction false} ServeOneMore(r: Registry, calls: seq<Call>, call: Call, codec: Codec)
    ensures var (before, replies) := ServeAll(r, calls, codec);
            var (after, reply) := Serve(before, call, codec);
            && ServeAll(r, calls + [call], codec) == (after, replies + [reply]) && |replies| == |calls|
  {
    hide Serve;
    assert (calls + [call])[..|calls|] == calls;
    ReplyCount(r, calls, codec);
  }

  /** All sessions in the table were opened at time 1. */
  ghost predicate AllOpen(r: Registry, n: nat) {
    && r.pending == map[] && r.states.Keys == Names(n)
    && forall k :: k in r.states ==> r.states[k].createdAt == 1
  }

  lemma {:induction false} Opened(n: nat)
    requires n <= PRUNE_THRESHOLD
    ensures AllOpen(ServeAll(EMPTY, Opening(n), Always(HELLO)).0, n)
    ensures |Opening(n)| == n && forall i :: 0 <= i < n ==> Opening(n)[i] == Hello(i, 1)
    ensures |ServeAll(EMPTY, Opening(n), Always(HELLO)).1| == n
    ensures n > 0 ==> StartsMessage(ServeAll(EMPTY, Opening(n), Always(HELLO)).1[0])
  {
    hide Serve, Hello, ServeAll, Always, Prune, StartsMessage, AllOpen;
    if n > 0 {
      Opened(n - 1);
      ServeOneMore(EMPTY, Opening(n - 1), Hello(n - 1, 1), Always(HELLO));
      OneOpens(ServeAll(EMPTY, Opening(n - 1), Always(HELLO)).0, n - 1);
    } else {
      NoneOpen();
    }
  }

  lemma {:induction false} NoneOpen()
    ensures AllOpen(EMPTY, 0) && ServeAll(EMPTY, [], Always(HELLO)) == (EMPTY, [])
  {
  }

  lemma {:induction false} OneOpens(r: Registry, n: nat)
    requires AllOpen(r, n) && n < PRUNE_THRESHOLD
    ensures var (r', reply) := Serve(r, Hello(n, 1), Always(HELLO)); AllOpen(r', n + 1) && StartsMessage(reply)
  {
    hide Serve, Hello, Always, StartsMessage, Prune, Names, Decimal;
    NothingPruned(r, n);
    HelloStarts(r, n, 1);
    NextName(n);
  }

  lemma {:induction false} NothingPruned(r: Registry, n: nat)
    requires AllOpen(r, n) && n < PRUNE_THRESHOLD
    ensures Prune(r.states, 1) == r.states && Decimal(n) !in r.states
  {
    NamesCount(n);
    assert |r.states| == |r.states.Keys|;
  }

  lemma {:induction false} NextName(n: nat)
    ensures Names(n + 1) == Names(n) + {Decimal(n)}
  {
  }

  /** Ten minutes later all fifty are gone. */
  lemma {:induction false} AllPruned(r: Registry)
    requires AllOpen(r, PRUNE_THRESHOLD)
    ensures Prune(r.states, 2 + PRUNE_AGE) == map[] && r.pending == map[]
  {
    NamesCount(PRUNE_THRESHOLD);
    assert |r.states| == |r.states.Keys|;
  }

  /** Fifty sessions, ten minutes, and one chunk of the second session: the first one, which
      nobody read or cleared, starts again with a message_start. */
  lemma {:induction false} PrunedSessionStartsAgain() returns (calls: seq<Call>, k: string)
    ensures |calls| == 52 && calls[0].key == calls[51].key == k
    ensures forall i :: 0 <= i < 52 ==> calls[i].TranslateCall?
    ensures var replies := ServeAll(EMPTY, calls, Always(HELLO)).1;
            |replies| == 52 && StartsMessage(replies[0]) && StartsMessage(replies[51])
  {
    hide Serve, ServeAll, Always, Prune, Opening, StartsMessage, AllOpen, Names;
    var later := 2 + PRUNE_AGE;
    k := Decimal(0);
    var opening, intruder, again := Opening(50), Hello(1, later), Hello(0, later);
    calls := opening + [intruder] + [again];
    Opened(50);
    ServeOneMore(EMPTY, opening, intruder, Always(HELLO));
    ServeOneMore(EMPTY, opening + [intruder], again, Always(HELLO));
    var r, r1 := ServeAll(EMPTY, opening, Always(HELLO)).0, ServeAll(EMPTY, opening + [intruder], Always(HELLO)).0;
    AllPruned(r);
    HelloStarts(r, 1, later);
    DecimalReads(0);
    DecimalReads(1);
    PruneShrinks(r1.states, later);
    HelloStarts(r1, 0, later);
  }
}
